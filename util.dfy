/** The string helpers of `mdserver/util.py`: prefix removal and the
    boolean parser used for configuration values. */
module Util {
  import opened Wrappers
  import opened Json
  import opened Text

  /** `_removeprefix(text, prefix)`: the rest of `text` after `prefix` when
      `text` starts with it, otherwise `text` unchanged. Both branches of
      the source (`str.removeprefix` from Python 3.9 on, and the slice
      before it) compute this. */
  function RemovePrefix(text: string, prefix: string): (r: string)
    ensures prefix <= text ==> prefix + r == text
    ensures !(prefix <= text) ==> r == text
    ensures |r| <= |text|
  {
    if prefix <= text then text[|prefix|..] else text
  }

  /** Removing a prefix that was just added gives the text back. */
  lemma RemoveAddedPrefix(prefix: string, text: string)
    ensures RemovePrefix(prefix + text, prefix) == text
  {
    assert prefix <= prefix + text;
  }

  /** Removing the empty prefix changes nothing. */
  lemma RemoveEmptyPrefix(text: string)
    ensures RemovePrefix(text, "") == text
  {
    assert [] <= text;
  }

  /** The texts `strtobool` reads as true. */
  const TrueWords: set<string> := {"yes", "true", "t", "y", "1"}

  /** The texts `strtobool` reads as false. */
  const FalseWords: set<string> := {"no", "false", "f", "n", "0"}

  /** The ValueError `strtobool` raises for anything else. */
  datatype ParseError = NotABoolean

  /** `strtobool(value)`: a string whose lower-case form is one of the true
      words is True, one of the false words is False; any other string and
      any value that is not a string raise ValueError. */
  function StrToBool(v: Val): (r: Result<bool, ParseError>)
    ensures r == Success(true) <==> v.Str? && Lower(v.s) in TrueWords
    ensures r == Success(false) <==> v.Str? && Lower(v.s) in FalseWords
    ensures r == Failure(NotABoolean) <==> !v.Str? || Lower(v.s) !in TrueWords + FalseWords
  {
    WordsDisjoint();
    if v.Str? then
      var lowered := Lower(v.s);
      if lowered in TrueWords then Success(true)
      else if lowered in FalseWords then Success(false)
      else Failure(NotABoolean)
    else Failure(NotABoolean)
  }

  /** No text is both a true and a false word, so the order of the two
      membership tests does not matter. */
  lemma WordsDisjoint()
    ensures TrueWords * FalseWords == {}
  {
    assert forall w :: w in TrueWords ==> w !in FalseWords;
  }

  /** Lower-casing twice is lower-casing once. */
  lemma LowerIdempotent(s: string)
    ensures Lower(Lower(s)) == Lower(s)
  {
    assert forall i :: 0 <= i < |s| ==> LowerChar(LowerChar(s[i])) == LowerChar(s[i]);
  }

  /** The parse ignores case: a string and its lower-case form parse alike. */
  lemma StrToBoolIgnoresCase(s: string)
    ensures StrToBool(Str(s)) == StrToBool(Str(Lower(s)))
  {
    LowerIdempotent(s);
  }

  /** The parse reads back Python's own text of a boolean, `str(True)` and
      `str(False)`. */
  lemma StrToBoolReadsPythonText(b: bool)
    ensures StrToBool(Str(if b then "True" else "False")) == Success(b)
  {
    assert Lower("True") == "true";
    assert Lower("False") == "false";
  }

  /** `strtobool_or_val(value)`: a boolean is returned as it is, a value
      that parses is replaced by the boolean it parses as, and anything else
      is returned unchanged; it never raises. */
  function StrToBoolOrVal(v: Val): (r: Val)
    ensures v.Bool? ==> r == v
    ensures StrToBool(v).Success? ==> r == Bool(StrToBool(v).value)
    ensures !v.Bool? && StrToBool(v).Failure? ==> r == v
  {
    if v.Bool? then v
    else match StrToBool(v)
      case Success(b) => Bool(b)
      case Failure(_) => v
  }

  /** The result is a boolean exactly when the value was one or parses as
      one. */
  lemma StrToBoolOrValIsBool(v: Val)
    ensures StrToBoolOrVal(v).Bool? <==> v.Bool? || StrToBool(v).Success?
  {
  }

  /** Applying `strtobool_or_val` a second time changes nothing. */
  lemma StrToBoolOrValIdempotent(v: Val)
    ensures StrToBoolOrVal(StrToBoolOrVal(v)) == StrToBoolOrVal(v)
  {
  }
}
