/**
 * The value resolver of the dialog polyfill (`getValue`): the value a
 * dialog completes with, from its type, the classifier's flags and the
 * text of its input field.
 */
module Resolver {
  import opened Wrappers
  import opened Classifier

  /** A JavaScript completion value; `undefined` and `null` are kept apart. */
  datatype Value = Undefined | Null | Bool(b: bool) | Str(s: string)

  /**
   * The line-break normalisation a textarea applies when its value is read:
   * every CR LF pair and every lone CR becomes LF.
   */
  function NormalizeNewlines(s: string): (r: string)
    ensures '\r' !in r
    ensures '\r' !in s ==> r == s
    ensures |r| <= |s|
    decreases |s|
  {
    if s == [] then []
    else if s[0] == '\r' then
      "\n" + NormalizeNewlines(if |s| > 1 && s[1] == '\n' then s[2..] else s[1..])
    else [s[0]] + NormalizeNewlines(s[1..])
  }

  /** Normalising twice changes nothing more. */
  lemma NormalizeNewlinesIdempotent(s: string)
    ensures NormalizeNewlines(NormalizeNewlines(s)) == NormalizeNewlines(s)
  {
  }

  /** A CR LF pair and a lone CR each read back as one LF. */
  lemma CrLfReadsAsLf()
    ensures NormalizeNewlines("a\r\nb") == "a\nb"
    ensures NormalizeNewlines("a\rb") == "a\nb"
  {
    var s := "a\r\nb";
    assert s[1..] == "\r\nb" && s[1..][2..] == "b" && "b"[1..] == [];
    assert NormalizeNewlines("b") == "b";
    assert NormalizeNewlines(s[1..]) == "\nb";
    var t := "a\rb";
    assert t[1..] == "\rb" && t[1..][1..] == "b";
    assert NormalizeNewlines(t[1..]) == "\nb";
  }

  /**
   * `input.value`: the text of the prompt's input field, a textarea, as
   * read back with its line breaks normalised. For a dialog without one
   * the source holds the empty string there, whose `value` property is
   * `undefined`.
   */
  function InputValue(input: Option<string>): Value {
    match input
    case Some(text) => Str(NormalizeNewlines(text))
    case None => Undefined
  }

  /**
   * Whether the close means "yes": a click decides by its closer alone
   * (OK accepts, any other closer refuses); without a click, Enter accepts
   * and anything else (Escape, Space on a closer) is a dismissal.
   */
  predicate Accepted(c: Config) {
    if c.closeOnClick then c.closer == Some("OK") else c.saveOnEnter
  }

  /**
   * The value of a closed dialog. `prompt` and `confirm` are the dialog's
   * type flags; neither set is an alert.
   */
  function GetValue(prompt: bool, confirm: bool, input: Option<string>, c: Config): (r: Value)
    ensures !prompt && !confirm ==> r == Undefined
    ensures prompt ==> r == if Accepted(c) then InputValue(input) else Null
    ensures !prompt && confirm ==>
      r == if Accepted(c) then Bool(true) else if c.closeOnClick then Bool(false) else Null
  {
    // the default, used when the user presses Escape
    var fallback := if prompt || confirm then Null else Undefined;
    var value := if c.saveOnEnter
      then (if prompt then InputValue(input) else if confirm then Bool(true) else Undefined)
      else fallback;
    if c.closeOnClick then
      var yes := c.closer == Some("OK");
      if yes then (if prompt then InputValue(input) else if confirm then Bool(true) else Undefined)
      else (if prompt then Null else if confirm then Bool(false) else Undefined)
    else value
  }

  /** A click on OK and an Enter press give the same value, whatever the dialog. */
  lemma OkClickMatchesEnter(prompt: bool, confirm: bool, input: Option<string>,
                            saveOnEnter: bool, closer: Option<string>)
    ensures GetValue(prompt, confirm, input, Config(true, Some("OK"), saveOnEnter, true))
         == GetValue(prompt, confirm, input, Config(true, closer, true, false))
  {
  }

  /** When both flags are raised, the click decides. */
  lemma ClickWinsOverEnter(prompt: bool, confirm: bool, input: Option<string>, closer: Option<string>)
    ensures GetValue(prompt, confirm, input, Config(true, closer, true, true))
         == GetValue(prompt, confirm, input, Config(true, closer, false, true))
  {
  }
}
