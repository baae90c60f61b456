/**
 * The public operations `alert`, `confirm` and `prompt`: each opens a
 * dialog session of its type on the page and, once the response is done,
 * returns its value. The user's steps while the dialog is open are a
 * parameter; None stands for a promise that never resolves because no
 * step closed the dialog. The texts come last so that, as in the source,
 * a caller may leave them out and get the empty string.
 */
module Facade {
  import opened Wrappers
  import opened Classifier
  import opened Resolver
  import opened Session

  /** `alert(message)`: completes with `undefined` whatever closes it. */
  method Alert(page: seq<Element>, steps: seq<Step>, message: string := "") returns (r: Option<Value>)
    requires PageOnly(page)
    ensures r == Outcome(false, false, None, steps)
    ensures r in {None, Some(Undefined)}
  {
    var modal := new Modal("alert", message, "", page);
    modal.Run(steps);
    r := modal.response.Await();
    AlertOutcome(None, steps);
  }

  /** `confirm(question)`: completes with `true` (OK or Enter), `false` (Cancel) or `null`. */
  method Confirm(page: seq<Element>, steps: seq<Step>, question: string := "") returns (r: Option<Value>)
    requires PageOnly(page)
    ensures r == Outcome(false, true, None, steps)
    ensures r in {None, Some(Bool(true)), Some(Bool(false)), Some(Null)}
  {
    var modal := new Modal("confirm", question, "", page);
    modal.Run(steps);
    r := modal.response.Await();
    ConfirmOutcome(None, steps);
  }

  /**
   * `prompt(title, defaultValue)`: completes with the input field's text
   * (OK or Enter) or `null`; without edits, that text is `defaultValue`
   * with its line breaks normalised.
   */
  method Prompt(title: string, page: seq<Element>, steps: seq<Step>, defaultValue: string := "") returns (r: Option<Value>)
    requires PageOnly(page)
    ensures r == Outcome(true, false, Some(defaultValue), steps)
    ensures r.Some? ==> r.value == Null || r.value.Str?
    ensures (forall j :: 0 <= j < |steps| ==> steps[j].Fire?) ==>
      r in {None, Some(Str(NormalizeNewlines(defaultValue))), Some(Null)}
  {
    var modal := new Modal("prompt", title, defaultValue, page);
    modal.Run(steps);
    r := modal.response.Await();
    PromptOutcome(defaultValue, steps);
    if forall j :: 0 <= j < |steps| ==> steps[j].Fire? {
      UneditedPromptOutcome(defaultValue, steps);
    }
  }

  /** A click on the OK button. */
  function OkClick(): Step {
    Fire(Listener(Ok, "click"), Event("click", Some("OK"), None))
  }

  /** A click on the Cancel button. */
  function CancelClick(): Step {
    Fire(Listener(Cancel, "click"), Event("click", Some("Cancel"), None))
  }

  /** A key released while focus is on an element without a closer attribute. */
  function KeyUp(code: string): Step {
    Fire(Listener(Body, "keyup"), Event("keyup", None, Some(code)))
  }

  /** Space released while focus is on the OK button. */
  function SpaceOnOk(): Step {
    Fire(Listener(Body, "keyup"), Event("keyup", Some("OK"), Some("Space")))
  }

  /** The dialog outcomes the polyfill is meant to produce for single user actions. */
  lemma {:induction false} Scenarios(text: string, typed: string)
    // prompt(title, text), then OK without edits
    ensures Outcome(true, false, Some(text), [OkClick()]) == Some(Str(NormalizeNewlines(text)))
    // prompt(title, text), then Enter: the same as OK
    ensures Outcome(true, false, Some(text), [KeyUp("Enter")]) == Some(Str(NormalizeNewlines(text)))
    // confirm(question), then Escape: null, not false
    ensures Outcome(false, true, None, [KeyUp("Escape")]) == Some(Null)
    // prompt(title, text), then Cancel
    ensures Outcome(true, false, Some(text), [CancelClick()]) == Some(Null)
    // confirm(question), then Cancel
    ensures Outcome(false, true, None, [CancelClick()]) == Some(Bool(false))
    // alert(message), then Enter
    ensures Outcome(false, false, None, [KeyUp("Enter")]) == Some(Undefined)
    // Space on a focused OK closes like Escape, not like a click on OK
    ensures Outcome(false, true, None, [SpaceOnOk()]) == Some(Null)
    // a key other than the three closes nothing
    ensures Outcome(false, true, None, [KeyUp("KeyA")]) == None
    // an edit followed by OK gives the edited text
    ensures Outcome(true, false, Some(text), [Edit(typed), OkClick()]) == Some(Str(NormalizeNewlines(typed)))
    // a default without carriage returns comes back unchanged
    ensures '\r' !in text ==> Outcome(true, false, Some(text), [OkClick()]) == Some(Str(text))
    // a CR LF pair reads back as LF
    ensures Outcome(true, false, Some("a\r\nb"), [OkClick()]) == Some(Str("a\nb"))
  {
    assert [Edit(typed), OkClick()][1..] == [OkClick()];
    CrLfReadsAsLf();
  }
}
