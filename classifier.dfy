/**
 * The completion classifier of the dialog polyfill (`shouldClose`): decides
 * from one UI event whether the user means to close the dialog, and reports
 * which of the closing gestures it was.
 */
module Classifier {
  import opened Wrappers

  /**
   * The part of a DOM event the classifier looks at: the event type
   * ("click", "keyup", ...), the `data-close-dialog` attribute of its target
   * (None when the attribute is absent, i.e. `getAttribute` gives `null`)
   * and the key code (None for events without one, such as clicks).
   */
  datatype Event = Event(kind: string, closer: Option<string>, code: Option<string>)

  /** What `shouldClose` returns. */
  datatype Config = Config(done: bool, closer: Option<string>, saveOnEnter: bool, closeOnClick: bool)

  /** JavaScript truthiness of the attribute value: `!!closer`. */
  predicate Truthy(closer: Option<string>) {
    closer.Some? && closer.value != ""
  }

  /**
   * `/^word$/.test(code)`: the whole code must equal `word`. An absent code
   * is converted to the string "undefined", which none of the words is.
   */
  predicate WholeMatch(word: string, code: Option<string>)
    requires word != "undefined"
  {
    match code
    case Some(c) => c == word
    case None => "undefined" == word
  }

  /**
   * Closing rules: Enter anywhere, a click on a closer, Escape anywhere,
   * or Space on a closer. Any other event leaves the dialog open.
   */
  function ShouldClose(e: Event): (r: Config)
    ensures r.closer == e.closer
    ensures r.closeOnClick <==> e.kind == "click" && Truthy(e.closer)
    ensures r.saveOnEnter <==> e.code == Some("Enter")
    ensures r.done <==>
      || e.code == Some("Enter")
      || (e.kind == "click" && Truthy(e.closer))
      || e.code == Some("Escape")
      || (e.code == Some("Space") && Truthy(e.closer))
  {
    var closer := e.closer;
    var closeOnClick := e.kind == "click" && Truthy(closer);
    var closeOnEscapeOrSpace :=
      WholeMatch("Escape", e.code) || (WholeMatch("Space", e.code) && Truthy(closer));
    var saveOnEnter := WholeMatch("Enter", e.code);
    var done := saveOnEnter || closeOnClick || closeOnEscapeOrSpace;
    Config(done, closer, saveOnEnter, closeOnClick)
  }

  /**
   * Space pressed on a closer (a focused OK or Cancel button) closes the
   * dialog, but raises neither the click flag nor the Enter flag: it is
   * classified like Escape.
   */
  lemma SpaceOnCloserIsNeitherClickNorEnter(kind: string, closer: string)
    requires kind != "click" && closer != ""
    ensures var r := ShouldClose(Event(kind, Some(closer), Some("Space")));
      r.done && !r.closeOnClick && !r.saveOnEnter
  {
  }

  /**
   * A code that is not exactly one of the three key names (for instance
   * "NumpadEnter" or "KeyA") never closes a dialog by itself: only a click
   * on a closer can then close it.
   */
  lemma OtherKeysDoNotClose(kind: string, closer: Option<string>, code: string)
    requires code != "Enter" && code != "Escape" && code != "Space"
    ensures ShouldClose(Event(kind, closer, Some(code))).done <==> kind == "click" && Truthy(closer)
  {
  }
}
