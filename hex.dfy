/** Character-level helpers shared by the address worker and the generator form:
    the `^[0-9a-fA-F]*$` test and the lower-casing applied to addresses and patterns. */
module Hex {

  /** One character of the class `[0-9]`. */
  predicate IsDigit(c: char) {
    '0' <= c <= '9'
  }

  /** One character of the class `[a-fA-F]`. */
  predicate IsHexLetter(c: char) {
    'a' <= c <= 'f' || 'A' <= c <= 'F'
  }

  /** One character of the class `[0-9a-fA-F]`. */
  predicate IsHexChar(c: char) {
    IsDigit(c) || IsHexLetter(c)
  }

  /** The regular expression `^[0-9a-fA-F]*$`: every character is a hex digit,
      so the empty string passes. */
  function IsValidHex(s: string): (b: bool)
    ensures b <==> forall i :: 0 <= i < |s| ==> IsHexChar(s[i])
  {
    if s == [] then true
    else IsHexChar(s[0]) && IsValidHex(s[1..])
  }

  /** `toLowerCase` on one character, restricted to ASCII letters. */
  function LowerChar(c: char): char {
    if 'A' <= c <= 'Z' then (c as int + 32) as char else c
  }

  function ToLower(s: string): (r: string)
    ensures |r| == |s|
    ensures forall i :: 0 <= i < |s| ==> r[i] == LowerChar(s[i])
  {
    if s == [] then [] else [LowerChar(s[0])] + ToLower(s[1..])
  }

  /** Lower-casing leaves no upper-case letter behind, so doing it twice changes nothing. */
  lemma ToLowerIdempotent(s: string)
    ensures ToLower(ToLower(s)) == ToLower(s)
  {
    assert forall i :: 0 <= i < |s| ==> LowerChar(LowerChar(s[i])) == LowerChar(s[i]);
  }
}
