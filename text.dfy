/**
 * The string operations the location code relies on: Ruby's `String#upcase`,
 * `blank?` (behind `presence: true`), the `only_integer` numericality check and
 * Rails' `titleize`, all restricted to ASCII letters.
 */
module Text {

  predicate IsLower(c: char) { 'a' <= c <= 'z' }

  predicate IsUpper(c: char) { 'A' <= c <= 'Z' }

  predicate IsDigit(c: char) { '0' <= c <= '9' }

  /** A character of the regular-expression class `\w`. */
  predicate IsWordChar(c: char) { IsLower(c) || IsUpper(c) || IsDigit(c) || c == '_' }

  /** The ASCII characters of the POSIX class `[[:space:]]`. */
  predicate IsSpace(c: char) { c == ' ' || c == '\t' || c == '\n' || c == '\r' || c == '\U{000C}' || c == '\U{000B}' }

  function UpcaseChar(c: char): char {
    if IsLower(c) then (c as int - 32) as char else c
  }

  function DowncaseChar(c: char): char {
    if IsUpper(c) then (c as int + 32) as char else c
  }

  /** `s.upcase`: every lower-case letter becomes its capital, nothing else moves. */
  function Upcase(s: string): (r: string)
    ensures |r| == |s|
    ensures forall i :: 0 <= i < |r| ==> !IsLower(r[i])
    ensures forall i :: 0 <= i < |r| ==> DowncaseChar(r[i]) == DowncaseChar(s[i])
    ensures forall i :: 0 <= i < |r| ==> (IsWordChar(r[i]) <==> IsWordChar(s[i]))
  {
    seq(|s|, i requires 0 <= i < |s| => UpcaseChar(s[i]))
  }

  lemma UpcaseIdempotent(s: string)
    ensures Upcase(Upcase(s)) == Upcase(s)
  {
    var u := Upcase(s);
    forall i | 0 <= i < |u| ensures Upcase(u)[i] == u[i] {
      assert !IsLower(u[i]);
    }
  }

  /** `s.blank?`: empty or made only of white space. */
  predicate IsBlank(s: string) {
    forall i :: 0 <= i < |s| ==> IsSpace(s[i])
  }

  predicate AllDigits(s: string) {
    forall i :: 0 <= i < |s| ==> IsDigit(s[i])
  }

  /** The `only_integer` pattern `\A[+-]?\d+\z`: an optional sign, then one or more digits. */
  predicate IsIntegerString(s: string) {
    if |s| > 0 && (s[0] == '+' || s[0] == '-') then |s| > 1 && AllDigits(s[1..])
    else |s| > 0 && AllDigits(s)
  }

  /** Whether position `i` of `s` starts a word: it is the first position or follows a non-word character. */
  predicate StartsWord(s: string, i: nat)
    requires i < |s|
  {
    i == 0 || !IsWordChar(s[i - 1])
  }

  /**
   * `s.titleize`: a character that starts a word is capitalised, every other
   * one is put in lower case.
   */
  function Titleize(s: string): (r: string)
    ensures |r| == |s|
  {
    seq(|s|, i requires 0 <= i < |s| => if StartsWord(s, i) then UpcaseChar(s[i]) else DowncaseChar(s[i]))
  }

  /**
   * What title-casing does to each character: it stays the same letter up to
   * case and a word character stays one, a word starts with no lower-case
   * letter, and no capital is left inside a word.
   */
  lemma TitleizeCases(s: string)
    ensures var r := Titleize(s);
      && (forall i :: 0 <= i < |r| ==> DowncaseChar(r[i]) == DowncaseChar(s[i]))
      && (forall i :: 0 <= i < |r| ==> (IsWordChar(r[i]) <==> IsWordChar(s[i])))
      && (forall i :: 0 <= i < |r| && StartsWord(s, i) ==> !IsLower(r[i]))
      && (forall i :: 0 <= i < |r| && !StartsWord(s, i) ==> !IsUpper(r[i]))
  {
    var r := Titleize(s);
    forall i | 0 <= i < |r|
      ensures DowncaseChar(r[i]) == DowncaseChar(s[i]) && (IsWordChar(r[i]) <==> IsWordChar(s[i]))
      ensures StartsWord(s, i) ==> !IsLower(r[i])
      ensures !StartsWord(s, i) ==> !IsUpper(r[i])
    {
      CaseOfChar(s[i]);
    }
  }

  /** Changing the case of one character keeps the letter and its word-character class. */
  lemma CaseOfChar(c: char)
    ensures !IsLower(UpcaseChar(c)) && !IsUpper(DowncaseChar(c))
    ensures DowncaseChar(UpcaseChar(c)) == DowncaseChar(c) && DowncaseChar(DowncaseChar(c)) == DowncaseChar(c)
    ensures IsWordChar(UpcaseChar(c)) == IsWordChar(c) && IsWordChar(DowncaseChar(c)) == IsWordChar(c)
  {
  }

  /** Title-casing a title-cased string changes nothing. */
  lemma TitleizeIdempotent(s: string)
    ensures Titleize(Titleize(s)) == Titleize(s)
  {
    var t := Titleize(s);
    forall i | 0 <= i < |t| ensures Titleize(t)[i] == t[i] {
      assert StartsWord(t, i) == StartsWord(s, i);
    }
  }

  /** Title-casing does not depend on the case of the input, so an upcased street displays like the original. */
  lemma TitleizeOfUpcase(s: string)
    ensures Titleize(Upcase(s)) == Titleize(s)
  {
    var u := Upcase(s);
    forall i | 0 <= i < |s| ensures Titleize(u)[i] == Titleize(s)[i] {
      assert StartsWord(u, i) == StartsWord(s, i);
    }
  }

  // Title-casing the example addresses.

  lemma TitleizeExamples()
    ensures Titleize("123 Main St") == "123 Main St"
    ensures Titleize("Springfield") == "Springfield"
    ensures Titleize("315 BOWERY") == "315 Bowery"
    ensures Titleize("NEW YORK") == "New York"
  {
  }
}
