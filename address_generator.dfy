/** The difficulty estimates the generator form shows beside the pattern: the
    pattern length, a progress-bar value and colour, and the expected number of
    wallets to draw ("1 wallet over N"). */
module AddressGenerator {
  import opened Hex

  /** The JavaScript `length` of a string: its number of UTF-16 code units. A
      character outside the Basic Multilingual Plane is a surrogate pair and
      counts twice. */
  function Utf16Length(s: string): (n: nat)
    ensures n == |s| + CountSupplementary(s)
    ensures n >= |s|
    ensures (forall i :: 0 <= i < |s| ==> s[i] as int < 0x1_0000) ==> n == |s|
  {
    if s == [] then 0
    else (if s[0] as int < 0x1_0000 then 1 else 2) + Utf16Length(s[1..])
  }

  /** The number of characters at or above U+10000. */
  function CountSupplementary(s: string): nat {
    if s == [] then 0 else (if s[0] as int >= 0x1_0000 then 1 else 0) + CountSupplementary(s[1..])
  }

  lemma {:induction false} Utf16LengthConcat(a: string, b: string)
    ensures Utf16Length(a + b) == Utf16Length(a) + Utf16Length(b)
  {
    if a != [] {
      assert (a + b)[1..] == a[1..] + b;
      Utf16LengthConcat(a[1..], b);
    } else {
      assert a + b == b;
    }
  }

  /** `prefix.length + suffix.length`: the length of the joined pattern in UTF-16
      code units, which for hex patterns is their number of characters. */
  function TotalChars(prefix: string, suffix: string): (n: nat)
    ensures n == Utf16Length(prefix + suffix)
    ensures n >= |prefix| + |suffix|
    ensures IsValidHex(prefix) && IsValidHex(suffix) ==> n == |prefix| + |suffix|
  {
    Utf16LengthConcat(prefix, suffix);
    Utf16Length(prefix) + Utf16Length(suffix)
  }

  /** A single emoji already counts as two characters of pattern. */
  lemma NonBmpCountsTwice()
    ensures TotalChars("\U{1F600}", "") == 2
    ensures GetProgress(TotalChars("\U{1F600}", "")) == 10
  {
    assert "\U{1F600}"[1..] == [];
  }

  /** The progress-bar value for a pattern of `totalChars` characters. */
  function GetProgress(totalChars: nat): (p: nat)
    ensures p in {0, 5, 10, 20, 35, 55, 75, 90}
    ensures p == 0 <==> totalChars == 0
    ensures p == 90 <==> totalChars > 8
  {
    if totalChars == 0 then 0
    else if totalChars == 1 then 5
    else if totalChars <= 2 then 10
    else if totalChars <= 3 then 20
    else if totalChars <= 4 then 35
    else if totalChars <= 7 then 55
    else if totalChars <= 8 then 75
    else 90
  }

  /** A longer pattern never shows less progress. */
  lemma ProgressMonotone(a: nat, b: nat)
    requires a <= b
    ensures GetProgress(a) <= GetProgress(b)
  {
  }

  datatype ProgressColor = Success | Warning | Error

  /** The progress-bar colour: three bands of pattern length. */
  function GetProgressColor(totalChars: nat): (c: ProgressColor)
    ensures c == Success <==> totalChars <= 2
    ensures c == Warning <==> 3 <= totalChars <= 5
    ensures c == Error <==> 6 <= totalChars
  {
    if totalChars <= 2 then Success
    else if totalChars <= 5 then Warning
    else Error
  }

  /** The colour bands against the progress values: green exactly up to 10,
      orange from 20 to 55, red from 55 on (55 is shared by lengths 5, 6 and 7). */
  lemma ColorAgreesWithProgress(totalChars: nat)
    ensures GetProgressColor(totalChars) == Success <==> GetProgress(totalChars) <= 10
    ensures GetProgressColor(totalChars) == Warning ==> 20 <= GetProgress(totalChars) <= 55
    ensures GetProgressColor(totalChars) == Error ==> 55 <= GetProgress(totalChars)
  {
  }

  /** The factor one pattern character contributes to the expected number of draws:
      16 for a digit, 32 or 16 for a hex letter depending on case sensitivity,
      1 for anything else. */
  function CharFactor(c: char, caseSensitive: bool): (f: nat)
    ensures f in {1, 16, 32}
    ensures f == 1 <==> !IsHexChar(c)
  {
    if IsDigit(c) then 16
    else if IsHexLetter(c) then (if caseSensitive then 32 else 16)
    else 1
  }

  /** `chars.reduce((acc, char) => acc * factor(char), acc)`, left to right. */
  function Reduce(chars: string, acc: nat, caseSensitive: bool): (r: nat)
    ensures r >= acc
  {
    if chars == [] then acc
    else Reduce(chars[1..], acc * CharFactor(chars[0], caseSensitive), caseSensitive)
  }

  /** Expected number of wallets to draw before one matches the pattern. */
  function CalculateProbability(prefix: string, suffix: string, caseSensitive: bool): (r: nat)
    ensures r >= 1
  {
    Reduce(prefix + suffix, 1, caseSensitive)
  }

  // Reference definitions for the closed form.

  function Pow(b: nat, e: nat): nat {
    if e == 0 then 1 else b * Pow(b, e - 1)
  }

  function CountDigits(s: string): nat {
    if s == [] then 0 else (if IsDigit(s[0]) then 1 else 0) + CountDigits(s[1..])
  }

  function CountHexLetters(s: string): nat {
    if s == [] then 0 else (if IsHexLetter(s[0]) then 1 else 0) + CountHexLetters(s[1..])
  }

  lemma {:induction false} PowAdd(b: nat, m: nat, n: nat)
    ensures Pow(b, m) * Pow(b, n) == Pow(b, m + n)
  {
    if m > 0 {
      PowAdd(b, m - 1, n);
      calc {
        Pow(b, m) * Pow(b, n);
        (b * Pow(b, m - 1)) * Pow(b, n);
        b * (Pow(b, m - 1) * Pow(b, n));
        b * Pow(b, m - 1 + n);
      }
    }
  }

  lemma {:induction false} PowMul(a: nat, b: nat, e: nat)
    ensures Pow(a * b, e) == Pow(a, e) * Pow(b, e)
  {
    if e > 0 {
      var x, y := Pow(a, e - 1), Pow(b, e - 1);
      PowMul(a, b, e - 1);
      assert Pow(a * b, e) == (a * b) * (x * y);
      Rearrange(a, b, x, y);
    }
  }

  lemma Rearrange(a: int, b: int, c: int, d: int)
    ensures (a * b) * (c * d) == (a * c) * (b * d)
  {
  }

  lemma {:induction false} PowAtLeastOne(b: nat, e: nat)
    requires b >= 1
    ensures Pow(b, e) >= 1
  {
    if e > 0 {
      PowAtLeastOne(b, e - 1);
    }
  }

  /** Each digit multiplies by 16 and each hex letter by the letter factor; any
      other character leaves the accumulator as it is. */
  lemma {:induction false} ReduceClosedForm(s: string, acc: nat, caseSensitive: bool)
    ensures Reduce(s, acc, caseSensitive)
         == acc * Pow(16, CountDigits(s)) * Pow(if caseSensitive then 32 else 16, CountHexLetters(s))
  {
    var L := if caseSensitive then 32 else 16;
    if s != [] {
      var f := CharFactor(s[0], caseSensitive);
      var d, l := CountDigits(s[1..]), CountHexLetters(s[1..]);
      var x, y := Pow(16, d), Pow(L, l);
      ReduceClosedForm(s[1..], acc * f, caseSensitive);
      assert Reduce(s, acc, caseSensitive) == (acc * f) * x * y;
      if IsDigit(s[0]) {
        assert f == 16 && CountDigits(s) == d + 1 && CountHexLetters(s) == l;
        assert Pow(16, d + 1) == 16 * x;
        Regroup(acc, 16, x, y);
      } else if IsHexLetter(s[0]) {
        assert f == L && CountDigits(s) == d && CountHexLetters(s) == l + 1;
        assert Pow(L, l + 1) == L * y;
        Regroup(acc, L, y, x);
      } else {
        assert f == 1 && CountDigits(s) == d && CountHexLetters(s) == l;
      }
    }
  }

  lemma Regroup(acc: int, f: int, x: int, y: int)
    ensures (acc * f) * x * y == acc * (f * x) * y
    ensures (acc * f) * y * x == acc * y * (f * x)
  {
  }

  /** `calculateProbability` is 16 to the number of digits times 32 (case
      sensitive) or 16 (insensitive) to the number of hex letters. */
  lemma ProbabilityClosedForm(prefix: string, suffix: string, caseSensitive: bool)
    ensures CalculateProbability(prefix, suffix, caseSensitive)
         == Pow(16, CountDigits(prefix + suffix))
            * Pow(if caseSensitive then 32 else 16, CountHexLetters(prefix + suffix))
  {
    ReduceClosedForm(prefix + suffix, 1, caseSensitive);
  }

  /** In a hex string every character is a digit or a hex letter, never both. */
  lemma {:induction false} HexCounts(s: string)
    requires IsValidHex(s)
    ensures CountDigits(s) + CountHexLetters(s) == |s|
  {
    if s != [] {
      assert IsHexChar(s[0]);
      HexCounts(s[1..]);
    }
  }

  /** Ignoring case, a hex pattern of n characters is expected to take 16^n draws. */
  lemma InsensitiveHexProbability(prefix: string, suffix: string)
    requires IsValidHex(prefix) && IsValidHex(suffix)
    ensures CalculateProbability(prefix, suffix, false) == Pow(16, TotalChars(prefix, suffix))
  {
    var s := prefix + suffix;
    assert IsValidHex(s);
    HexCounts(s);
    ProbabilityClosedForm(prefix, suffix, false);
    PowAdd(16, CountDigits(s), CountHexLetters(s));
  }

  /** Respecting case, each hex letter of the pattern doubles the expected number of draws. */
  lemma SensitiveHexProbability(prefix: string, suffix: string)
    requires IsValidHex(prefix) && IsValidHex(suffix)
    ensures CalculateProbability(prefix, suffix, true)
         == Pow(16, TotalChars(prefix, suffix)) * Pow(2, CountHexLetters(prefix + suffix))
  {
    var s := prefix + suffix;
    var d, l := CountDigits(s), CountHexLetters(s);
    assert IsValidHex(s);
    HexCounts(s);
    ProbabilityClosedForm(prefix, suffix, true);
    PowMul(16, 2, l);
    PowAdd(16, d, l);
    var x, y, z := Pow(16, d), Pow(16, l), Pow(2, l);
    assert Pow(32, l) == y * z;
    assert CalculateProbability(prefix, suffix, true) == x * (y * z);
    assert Pow(16, TotalChars(prefix, suffix)) == x * y;
    MulAssoc(x, y, z);
  }

  lemma MulAssoc(x: int, y: int, z: int)
    ensures x * (y * z) == (x * y) * z
  {
  }

  /** Case sensitivity can only make a pattern harder to hit. */
  lemma SensitiveAtLeastInsensitive(prefix: string, suffix: string)
    ensures CalculateProbability(prefix, suffix, true) >= CalculateProbability(prefix, suffix, false)
  {
    var s := prefix + suffix;
    var d, l := CountDigits(s), CountHexLetters(s);
    ProbabilityClosedForm(prefix, suffix, true);
    ProbabilityClosedForm(prefix, suffix, false);
    PowMul(16, 2, l);
    PowAtLeastOne(2, l);
    var x, y, z := Pow(16, d), Pow(16, l), Pow(2, l);
    assert CalculateProbability(prefix, suffix, true) == x * (y * z);
    assert CalculateProbability(prefix, suffix, false) == x * y;
    MulAssoc(x, y, z);
    MulAtLeast(x * y, z);
  }

  lemma MulAtLeast(x: nat, z: nat)
    requires z >= 1
    ensures x * z >= x
  {
  }
}
