/**
 * One dialog session (`Modal`): it builds the dialog, inserts it at the
 * front of the page, registers one handler on the buttons and on the body's
 * key releases, and on the first closing event completes the response and
 * tears everything down again (`handler`, `remove`).
 */
module Session {
  import opened Wrappers
  import opened Classifier
  import opened Resolver
  import opened ResponseChannel

  /**
   * DOM elements, as opaque identities: `Page(id)` for the children the
   * body already had, the others for the parts a session creates, and
   * `Body` for the body itself (a listener target). A label carries the
   * message it shows; the input's text is held by the session.
   */
  datatype Element =
    | Page(id: nat)
    | Body
    | Dialog
    | Description
    | Label(message: string)
    | Input
    | Ok
    | Cancel
    | Actions
    | Underlay

  /** An event listener: the element it is registered on and the event type. */
  datatype Listener = Listener(target: Element, kind: string)

  /**
   * What happens while a dialog is open: the user edits the input field
   * (a browser action, not the polyfill's), or the browser dispatches an
   * event to the listener `to`.
   */
  datatype Step = Edit(text: string) | Fire(to: Listener, event: Event)

  /** The dialog's children, in the order they are appended. */
  function DialogParts(message: string, prompt: bool): seq<Element> {
    [Description, Label(message)] + (if prompt then [Input] else []) + [Actions]
  }

  /** The buttons in the actions bar: OK, then Cancel when there is one. */
  function ActionParts(cancel: bool): seq<Element> {
    [Ok] + (if cancel then [Cancel] else [])
  }

  /** The listeners a session registers: clicks on OK and Cancel, key releases on the body. */
  function Listeners(cancel: bool): set<Listener> {
    {Listener(Ok, "click"), Listener(Body, "keyup")} + (if cancel then {Listener(Cancel, "click")} else {})
  }

  /** The position of the first `x` in `s`. */
  function IndexOf(s: seq<Element>, x: Element): (i: nat)
    requires x in s
    ensures i < |s| && s[i] == x && x !in s[..i]
  {
    if s[0] == x then 0 else 1 + IndexOf(s[1..], x)
  }

  /**
   * `parent.removeChild(x)` on the child list `s`; the DOM refuses a node
   * that is not a child, hence the precondition.
   */
  function RemoveChild(s: seq<Element>, x: Element): (r: seq<Element>)
    requires x in s
    ensures |r| == |s| - 1
    ensures forall y :: y != x ==> (y in r <==> y in s)
    ensures forall i :: 0 <= i < IndexOf(s, x) ==> r[i] == s[i]
    ensures forall i :: IndexOf(s, x) <= i < |r| ==> r[i] == s[i + 1]
  {
    var i := IndexOf(s, x);
    assert s == s[..i] + [x] + s[i + 1..];
    s[..i] + s[i + 1..]
  }

  /** `RemoveChild` takes out exactly one occurrence of `x` and keeps every other child. */
  lemma RemoveChildTakesOne(s: seq<Element>, x: Element)
    requires x in s
    ensures multiset(RemoveChild(s, x)) == multiset(s) - multiset{x}
  {
    var i := IndexOf(s, x);
    assert s == s[..i] + [x] + s[i + 1..];
  }

  /** Removing a child that comes first gives the children after it. */
  lemma RemoveFirstChild(x: Element, s: seq<Element>)
    ensures RemoveChild([x] + s, x) == s
  {
    assert ([x] + s)[0] == x;
  }

  /**
   * Detaching the dialog and then the underlay from a body that begins
   * with them gives back the body as it was before they were inserted.
   */
  lemma TeardownRestoresPage(page: seq<Element>)
    ensures RemoveChild([Dialog, Underlay] + page, Dialog) == [Underlay] + page
    ensures RemoveChild([Underlay] + page, Underlay) == page
  {
    assert [Dialog, Underlay] + page == [Dialog] + ([Underlay] + page);
    RemoveFirstChild(Dialog, [Underlay] + page);
    RemoveFirstChild(Underlay, page);
  }

  /** A page body holds none of the elements a session creates. */
  predicate PageOnly(page: seq<Element>) {
    forall x :: x in page ==> x.Page?
  }

  /** Whether a step reaches the handler of a session with these listeners and closes it. */
  predicate Closes(step: Step, cancel: bool) {
    step.Fire? && step.to in Listeners(cancel) && ShouldClose(step.event).done
  }

  /** The input field's text after one step: an edit replaces it, if the field exists. */
  function NextInput(input: Option<string>, step: Step): Option<string> {
    if step.Edit? && input.Some? then Some(step.text) else input
  }

  /**
   * The specification of a whole session: the value its response
   * completes with when the user's steps are run from the start, or None
   * when no step closes it and the promise stays pending. `input` is the
   * text of the input field (None without one).
   */
  function Outcome(prompt: bool, confirm: bool, input: Option<string>, steps: seq<Step>): Option<Value>
    decreases |steps|
  {
    if steps == [] then None
    else match steps[0]
      case Edit(text) =>
        Outcome(prompt, confirm, NextInput(input, steps[0]), steps[1..])
      case Fire(to, e) =>
        if Closes(steps[0], prompt || confirm) then Some(GetValue(prompt, confirm, input, ShouldClose(e)))
        else Outcome(prompt, confirm, input, steps[1..])
  }

  /** The input field's text after the user's edits among `steps`. */
  function TextAfter(input: Option<string>, steps: seq<Step>): Option<string>
    decreases |steps|
  {
    if steps == [] then input
    else TextAfter(NextInput(input, steps[0]), steps[1..])
  }

  /** The position of the first step that closes the session, or `|steps|` when none does. */
  function FirstClose(steps: seq<Step>, cancel: bool): (k: nat)
    ensures k <= |steps|
    ensures forall j :: 0 <= j < k ==> !Closes(steps[j], cancel)
    ensures k < |steps| ==> Closes(steps[k], cancel)
    decreases |steps|
  {
    if steps == [] then 0
    else if Closes(steps[0], cancel) then 0
    else 1 + FirstClose(steps[1..], cancel)
  }

  /**
   * Only the first closing step counts: the session completes exactly when
   * some step closes it, with the value resolved from that step's event
   * and the text the input field holds at that moment.
   */
  lemma {:induction false} OutcomeIsFirstClose(prompt: bool, confirm: bool, input: Option<string>, steps: seq<Step>)
    ensures var k := FirstClose(steps, prompt || confirm);
      Outcome(prompt, confirm, input, steps) ==
        if k < |steps| then Some(GetValue(prompt, confirm, TextAfter(input, steps[..k]), ShouldClose(steps[k].event)))
        else None
    decreases |steps|
  {
    if steps != [] && !Closes(steps[0], prompt || confirm) {
      var next := NextInput(input, steps[0]);
      OutcomeIsFirstClose(prompt, confirm, next, steps[1..]);
      var k := FirstClose(steps, prompt || confirm);
      if k < |steps| {
        assert steps[..k][0] == steps[0] && steps[..k][1..] == steps[1..][..k - 1];
      }
    }
  }

  /** Once some prefix of the steps has closed the session, later steps change nothing. */
  lemma {:induction false} OutcomeSettles(prompt: bool, confirm: bool, input: Option<string>,
                                          steps: seq<Step>, later: seq<Step>)
    requires Outcome(prompt, confirm, input, steps).Some?
    ensures Outcome(prompt, confirm, input, steps + later) == Outcome(prompt, confirm, input, steps)
    decreases |steps|
  {
    assert (steps + later)[0] == steps[0] && (steps + later)[1..] == steps[1..] + later;
    if !Closes(steps[0], prompt || confirm) {
      var next := NextInput(input, steps[0]);
      OutcomeSettles(prompt, confirm, next, steps[1..], later);
    }
  }

  /** An alert, however it is closed, completes with `undefined`. */
  lemma {:induction false} AlertOutcome(input: Option<string>, steps: seq<Step>)
    ensures Outcome(false, false, input, steps) in {None, Some(Undefined)}
    decreases |steps|
  {
    if steps != [] && !Closes(steps[0], false) {
      var next := NextInput(input, steps[0]);
      AlertOutcome(next, steps[1..]);
    }
  }

  /** A confirm completes with `true`, `false` or `null`. */
  lemma {:induction false} ConfirmOutcome(input: Option<string>, steps: seq<Step>)
    ensures Outcome(false, true, input, steps) in {None, Some(Bool(true)), Some(Bool(false)), Some(Null)}
    decreases |steps|
  {
    if steps != [] && !Closes(steps[0], true) {
      var next := NextInput(input, steps[0]);
      ConfirmOutcome(next, steps[1..]);
    }
  }

  /** A prompt completes with a text the user left in its input field, as read back, or `null`. */
  lemma {:induction false} PromptOutcome(text: string, steps: seq<Step>)
    ensures var r := Outcome(true, false, Some(text), steps);
      r.Some? ==>
        || r.value == Null
        || (r.value.Str? && r.value.s == NormalizeNewlines(text))
        || (r.value.Str? && exists j :: 0 <= j < |steps| && steps[j].Edit? && r.value.s == NormalizeNewlines(steps[j].text))
    decreases |steps|
  {
    if steps != [] && !Closes(steps[0], true) {
      var next := NextInput(Some(text), steps[0]).value;
      PromptOutcome(next, steps[1..]);
      var r := Outcome(true, false, Some(text), steps);
      if r.Some? && r.value.Str? && r.value.s != NormalizeNewlines(text) && r.value.s != NormalizeNewlines(next) {
        var j :| 0 <= j < |steps[1..]| && steps[1..][j].Edit? && r.value.s == NormalizeNewlines(steps[1..][j].text);
        assert steps[j + 1] == steps[1..][j];
      }
    }
  }

  /**
   * A prompt whose input the user never edits completes with its default
   * text, as read back from the textarea, or with `null`.
   */
  lemma {:induction false} UneditedPromptOutcome(defaultValue: string, steps: seq<Step>)
    requires forall j :: 0 <= j < |steps| ==> steps[j].Fire?
    ensures Outcome(true, false, Some(defaultValue), steps) in {None, Some(Str(NormalizeNewlines(defaultValue))), Some(Null)}
    decreases |steps|
  {
    if steps != [] && !Closes(steps[0], true) {
      UneditedPromptOutcome(defaultValue, steps[1..]);
    }
  }

  class Modal {
    /** the type flags: `/^prompt$/.test(type)` and `/^confirm$/.test(type)` */
    const prompt: bool
    const confirm: bool
    /** whether a Cancel button was built */
    const cancel: bool
    const message: string
    /** the body's children before the dialog was inserted */
    ghost const page: seq<Element>
    /** the response channel */
    const response: Channel

    /** the input field's text, None when the dialog has no input field */
    var input: Option<string>
    /** the children of the document body */
    var body: seq<Element>
    /** the children of the dialog element */
    var dialog: seq<Element>
    /** the children of the actions bar */
    var actions: seq<Element>
    /** the registered listeners, all of them running the session's handler */
    var listeners: set<Listener>

    /**
     * Open: the dialog and the underlay lead the body, the dialog holds its
     * parts and all listeners are registered. Closed (the response is
     * done): no listener is left, the body is the page again and the
     * dialog is empty.
     */
    ghost predicate Valid()
      reads this, response
    {
      && response.Valid()
      && cancel == (confirm || prompt)
      && (input.Some? <==> prompt)
      && PageOnly(page)
      && actions == ActionParts(cancel)
      && if response.done then
           listeners == {} && body == page && dialog == []
         else
           listeners == Listeners(cancel) && body == [Dialog, Underlay] + page
           && dialog == DialogParts(message, prompt)
    }

    /** `Modal({ type, message, defaultValue })` on a body whose children are `page`. */
    constructor (kind: string, message: string, defaultValue: string, page: seq<Element>)
      requires PageOnly(page)
      ensures Valid() && fresh(response) && !response.done
      ensures prompt == (kind == "prompt") && confirm == (kind == "confirm")
      ensures this.message == message && this.page == page
      ensures input == if prompt then Some(defaultValue) else None
      ensures Cancel in actions <==> confirm || prompt
      ensures Input in dialog <==> prompt
      ensures dialog == DialogParts(message, prompt)
      ensures actions == ActionParts(cancel)
      ensures body == [Dialog, Underlay] + page
      ensures listeners == Listeners(cancel)
    {
      response := new Channel();
      prompt := kind == "prompt";
      confirm := kind == "confirm";
      var hasCancel := kind == "confirm" || kind == "prompt";
      cancel := hasCancel;
      this.message := message;
      this.page := page;
      // the parts are assembled before they are inserted into the page
      var parts := [Description, Label(message)];
      if kind == "prompt" {
        parts := parts + [Input];
      }
      var buttons := [Ok];
      if hasCancel {
        buttons := buttons + [Cancel];
      }
      parts := parts + [Actions];
      var children := [Underlay] + page;
      children := [Dialog] + children;
      var registered := {Listener(Ok, "click")};
      if hasCancel {
        registered := registered + {Listener(Cancel, "click")};
      }
      registered := registered + {Listener(Body, "keyup")};
      assert registered == Listeners(hasCancel);
      input := if kind == "prompt" then Some(defaultValue) else None;
      dialog, actions, body, listeners := parts, buttons, children, registered;
    }

    /**
     * `remove`: unregister the handler from OK, Cancel (if any) and the
     * body, detach the dialog, empty it, and detach the underlay.
     */
    method Remove()
      requires Dialog in body && Underlay in body
      modifies this`listeners, this`body, this`dialog
      ensures listeners == old(listeners) - Listeners(cancel)
      ensures body == RemoveChild(RemoveChild(old(body), Dialog), Underlay)
      ensures dialog == []
    {
      listeners := listeners - {Listener(Ok, "click")};
      if cancel {
        listeners := listeners - {Listener(Cancel, "click")};
      }
      listeners := listeners - {Listener(Body, "keyup")};
      assert listeners == old(listeners) - Listeners(cancel);
      body := RemoveChild(body, Dialog);
      while dialog != []
        modifies this`dialog
        decreases |dialog|
      {
        dialog := dialog[1..];
      }
      body := RemoveChild(body, Underlay);
    }

    /**
     * `handler(e)`: an event that does not close returns at once; a closing
     * one completes the response with the resolved value and tears down.
     */
    method Handle(e: Event)
      requires Valid() && !response.done
      modifies this, response
      ensures Valid()
      ensures !ShouldClose(e).done ==> unchanged(this, response)
      ensures ShouldClose(e).done ==>
        && response.done
        && response.value == GetValue(prompt, confirm, input, ShouldClose(e))
        && listeners == {} && body == page && dialog == []
        && input == old(input) && actions == old(actions)
    {
      var config := ShouldClose(e);
      if !config.done {
        return;
      }
      response.Send(Update(Some(true), Some(GetValue(prompt, confirm, input, config))));
      Remove();
      TeardownRestoresPage(page);
    }

    /** The browser dispatching `e` to the listener `to`: only a registered one runs the handler. */
    method Deliver(to: Listener, e: Event)
      requires Valid()
      modifies this, response
      ensures Valid()
      ensures !(to in old(listeners) && ShouldClose(e).done) ==> unchanged(this, response)
      ensures to in old(listeners) && ShouldClose(e).done ==>
        && response.done
        && response.value == GetValue(prompt, confirm, input, ShouldClose(e))
        && input == old(input)
    {
      if to in listeners {
        Handle(e);
      }
    }

    /** The user typing into the input field, which exists only while a prompt is open. */
    method Edit(text: string)
      requires Valid()
      modifies this`input
      ensures Valid()
      ensures input == if old(input).Some? && !response.done then Some(text) else old(input)
    {
      if input.Some? && !response.done {
        input := Some(text);
      }
    }

    /**
     * The event loop: run the user's steps in order. The response ends
     * with the outcome the steps specify; when that is a value, the
     * session is torn down.
     */
    method Run(steps: seq<Step>)
      requires Valid() && !response.done
      modifies this, response
      ensures Valid()
      ensures response.done <==> Outcome(prompt, confirm, old(input), steps).Some?
      ensures response.done ==> Outcome(prompt, confirm, old(input), steps) == Some(response.value)
    {
      var i := 0;
      while i < |steps|
        invariant 0 <= i <= |steps|
        invariant Valid()
        invariant if response.done then Outcome(prompt, confirm, old(input), steps) == Some(response.value)
                  else Outcome(prompt, confirm, old(input), steps) == Outcome(prompt, confirm, input, steps[i..])
      {
        assert steps[i..][0] == steps[i] && steps[i..][1..] == steps[i + 1..];
        match steps[i] {
          case Edit(text) =>
            Edit(text);
          case Fire(to, e) =>
            Deliver(to, e);
        }
        i := i + 1;
      }
    }
  }
}
