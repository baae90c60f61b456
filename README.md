# Modal dialog polyfill: a Dafny model

This project models `alert-dialog.js`, a browser polyfill that offers
`alert`, `confirm` and `prompt` as awaitable operations built from DOM
elements. One dialog session turns UI events into a single completion value:

- `Classifier` is `shouldClose`. It decides from an event's type, its
  target's `data-close-dialog` attribute and its key code whether the dialog
  closes, and which flags (`closeOnClick`, `saveOnEnter`) it raises.
- `Resolver` is `getValue`. It maps the dialog's type flags, those flags and
  the input field's text to the completion value. `Value` keeps `undefined`
  and `null` apart. The input field is a textarea, so its text is read back
  with CR LF pairs and lone CRs turned into LF (`NormalizeNewlines`).
- `ResponseChannel` is the `response` object, its promise resolver and the
  coroutine behind `send` (`co` driving the generator `G`). `Channel.Send`
  merges an update. The first update that leaves the response done resolves
  the promise, exactly once, and ends the generator. Every later send is a
  no-op.
- `Session` is `Modal`, `handler` and `remove`. The class `Modal` holds the
  body's children, the dialog's children, the actions bar's buttons, the set
  of registered listeners, the input field's text and the channel.
  `Modal.Deliver` is the browser dispatching an event to a listener.
  `Modal.Edit` is the user typing in the input field. `Modal.Run` feeds a
  sequence of such steps. The pure function `Outcome` specifies the value a
  whole sequence of steps completes with.
- `Facade` holds `alert`, `confirm` and `prompt`. Each builds a `Modal`, runs
  the user's steps and returns `response.value` once the response is done.
  It returns None while the promise is still pending.

DOM elements are opaque identities (`Dialog`, `Underlay`, `Ok`, ...). The
children the body had before the dialog opened are `Page(id)` elements. A
session requires the body to hold no dialog elements already: the model
assumes that only one dialog is open at a time (see "## Left out" for what
that excludes).

Three behaviours of the code may surprise a reader; the model keeps them:

- Space released on a closer closes the dialog but raises neither
  `closeOnClick` nor `saveOnEnter` (alert-dialog.js:36-40). So Space on OK
  gives `null` for confirm and prompt, not the value a click on OK gives.
- A type other than "prompt" or "confirm" is not rejected. It builds a
  dialog that behaves like an alert, because both type flags are false
  (alert-dialog.js:245-246).
- Key codes must match whole strings: "NumpadEnter" does not close the
  dialog (alert-dialog.js:37, 40).

## Model

| member | source | states |
|---|---|---|
| `Classifier.ShouldClose` | alert-dialog.js:29-46 | the event closes exactly when the code is Enter, or it is a click on a non-empty closer, or the code is Escape, or the code is Space on a non-empty closer; `closeOnClick` and `saveOnEnter` are the first two conditions; the closer attribute is passed through |
| `Classifier.SpaceOnCloserIsNeitherClickNorEnter` | alert-dialog.js:33-40 | Space on a closer closes, with neither the click flag nor the Enter flag |
| `Classifier.OtherKeysDoNotClose` | alert-dialog.js:36-43 | a code other than exactly Enter, Escape or Space closes only as a click on a closer |
| `Resolver.GetValue` | alert-dialog.js:50-78 | an alert always gives `undefined`; a prompt gives the input text, read back with normalised line breaks, when the close accepts (a click on OK, or Enter without a click) and `null` otherwise; a confirm gives `true` when it accepts, `false` for a click on another closer, and `null` for Escape or Space on a closer |
| `Resolver.NormalizeNewlines` | alert-dialog.js:64 | reading a textarea's value leaves no CR: CR LF and lone CR become LF, and a text without CR is read back unchanged |
| `Resolver.OkClickMatchesEnter` | alert-dialog.js:63-71 | a click on OK and an Enter give the same value for every dialog type |
| `Resolver.ClickWinsOverEnter` | alert-dialog.js:63-75 | with both flags raised, the value is the one for the click alone |
| `ResponseChannel.Channel.constructor` | alert-dialog.js:240 | a fresh response `{ done: false }` is not done and its value is `undefined`; the promise is unresolved and the generator started by `co` (lines 99-103) waits for its first send |
| `ResponseChannel.Channel.Send` | alert-dialog.js:354-363 | before completion, a send merges its fields (done, value) into the response; the first one that leaves it done resolves the promise once and ends the generator; after that no send changes anything |
| `ResponseChannel.Channel.Await` | alert-dialog.js:408-410 | gives the response's value exactly when the response is done |
| `Session.RemoveChild` | alert-dialog.js:87-93 | detaching a child shortens the child list by one and keeps every other child, in order: those before the first occurrence stay in place, those after it move up by one |
| `Session.RemoveChildTakesOne` | alert-dialog.js:87-93 | detaching removes exactly one occurrence of the child |
| `Session.TeardownRestoresPage` | alert-dialog.js:82-94 | detaching the dialog and then the underlay from `[dialog, underlay] + page` gives back `page` |
| `Session.FirstClose` | alert-dialog.js:380-385 | the position of the first step that reaches a registered listener with a closing event; no earlier step closes |
| `Session.OutcomeIsFirstClose` | alert-dialog.js:380-392 | a session completes exactly when some step closes it, with `getValue` of the first closing step's event and of the input text at that moment |
| `Session.OutcomeSettles` | alert-dialog.js:389-391 | once the session has completed, later steps do not change its value |
| `Session.AlertOutcome` | alert-dialog.js:60-74 | an alert completes only with `undefined` |
| `Session.ConfirmOutcome` | alert-dialog.js:60-75 | a confirm completes only with `true`, `false` or `null` |
| `Session.PromptOutcome` | alert-dialog.js:63-73 | a prompt completes with `null` or with a text that is the default or one the user typed, read back with normalised line breaks |
| `Session.UneditedPromptOutcome` | alert-dialog.js:277 | a prompt whose input is never edited completes with its default value, line breaks normalised, or `null` |
| `Session.Modal.constructor` | alert-dialog.js:237-401 | the type flags come from whole-string matches on the type; the input (holding the default value) exists only for prompt and Cancel only for confirm and prompt; the dialog's children are description, label, input if any, actions; actions holds OK then Cancel if any; the body begins `[dialog, underlay]` followed by the old body; the listeners are OK and Cancel clicks and body key releases; the response is not done |
| `Session.Modal.Remove` | alert-dialog.js:82-94 | the OK click listener, the Cancel click listener if there is one, and the body keyup listener are unregistered; the dialog and the underlay are detached from the body and the dialog is emptied |
| `Session.Modal.Handle` | alert-dialog.js:380-392 | a non-closing event changes nothing; a closing one leaves the response done with `getValue`'s value, no listeners, the body as it was before the dialog opened and an empty dialog |
| `Session.Modal.Deliver` | alert-dialog.js:394-396 | an event reaches the handler only through a registered listener; after completion no event changes anything |
| `Session.Modal.Run` | alert-dialog.js:380-396 | after the user's steps, the response is done exactly when the specification `Outcome` gives a value, and then holds that value; the session keeps its invariant (open and fully built, or closed and fully torn down) |
| `Facade.Alert` | alert-dialog.js:405-411 | the result is the session outcome, and only `undefined` when resolved; the message defaults to the empty string |
| `Facade.Confirm` | alert-dialog.js:413-419 | the result is the session outcome: `true`, `false` or `null` when resolved; the question defaults to the empty string |
| `Facade.Prompt` | alert-dialog.js:421-431 | the result is the session outcome: a text or `null`; the default value (the empty string when left out, line breaks normalised) or `null` when the input is not edited |
| `Facade.Scenarios` | alert-dialog.js:405-431 | single-action sessions, for every text: OK or Enter on an unedited prompt gives its default, line breaks normalised (unchanged without CR; `"a\r\nb"` gives `"a\nb"`); Escape on confirm gives `null`; Cancel gives `null` for prompt and `false` for confirm; an alert gives `undefined`; Space on OK gives `null`; another key does not close; an edit then OK gives the edited text |

## Left out

- Styling, ARIA attributes and the `flat` helper (alert-dialog.js:105-228, 250-269): each element factory yields an opaque element; a label carries its message.
- Focus and selection (alert-dialog.js:306-311) and `console.log` (alert-dialog.js:355): browser side effects with nothing to state.
- The Promise and async/await machinery: resolution is the `resolved` flag of the channel, and awaiting is reading the value once the response is done. A session that never closes returns None.
- The reassignment of `window.alert`, `window.confirm` and `window.prompt` (alert-dialog.js:440-456): installation glue.
- The commented-out polling and simulation code (alert-dialog.js:327-335, 367-378): dead code.
- zutto.js and main.go: application glue over a graph-drawing library, storage and DOM listeners. They are not part of this model.
- The browser's own default actions are not modelled. Enter in the textarea inserts a line break before the key is released. Space on a focused button also fires a click. Each would appear as an extra step (an edit or a click).
- Session.Modal.Handle: requires the session to be open. Called a second time, the source would throw on the detached dialog's missing parent. Delivery through the registered listeners keeps this from happening.
- Session.Modal.Deliver: does not check that an event's type and closer agree with the listener it is delivered to.
- The document tree below the body's children, and other pages' listeners, are not modelled. The body is a child list held by the session.
- Session.Modal.constructor: requires a body that holds no dialog elements already. The source also runs when a dialog is still open (`alert("a"); alert("b")` without `await`): two dialogs then share the body and both handlers listen to body key releases (alert-dialog.js:396). The model has one set of element identities per page, so two open sessions cannot be told apart.
- Facade.Alert: requires, through the session, a body without an open dialog; a second dialog opened before the first closes is not modelled.
- Facade.Confirm: the same single-open-dialog requirement as Facade.Alert.
- Facade.Prompt: the same single-open-dialog requirement as Facade.Alert.
- Facade.Prompt: messages and default values are strings. JavaScript callers may pass other values, such as `prompt(t, null)`, which reaches the input field (alert-dialog.js:173) and is converted there by the browser; those conversions are not modelled.
