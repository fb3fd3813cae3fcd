/** Hexadecimal text: the `{:#x}` printer and the parsers that read it back. */
module Hex {
  import opened Wrappers
  import opened Felts

  function DigitChar(d: nat): char
    requires d < 16
  {
    if d < 10 then '0' + d as char else 'a' + (d - 10) as char
  }

  function DigitValue(c: char): Option<nat> {
    if '0' <= c <= '9' then Some((c - '0') as nat)
    else if 'a' <= c <= 'f' then Some((c - 'a') as nat + 10)
    else if 'A' <= c <= 'F' then Some((c - 'A') as nat + 10)
    else None
  }

  /** The shortest digit string of `n`, most significant digit first. */
  function Digits(n: nat): string {
    if n < 16 then [DigitChar(n)] else Digits(n / 16) + [DigitChar(n % 16)]
  }

  function Print(n: nat): string {
    "0x" + Digits(n)
  }

  function AppendDigit(high: Option<nat>, low: Option<nat>): Option<nat> {
    if high.Some? && low.Some? then Some(16 * high.value + low.value) else None
  }

  /** The number a digit string denotes; the empty string denotes 0. */
  function DigitsValue(s: string): Option<nat> {
    if s == [] then Some(0)
    else AppendDigit(DigitsValue(s[..|s| - 1]), DigitValue(s[|s| - 1]))
  }

  /** Parses a number below `bound`, with or without the `0x` prefix. */
  function ParseBelow(s: string, bound: nat): (r: Option<nat>)
    ensures r.Some? ==> r.value < bound
  {
    var digits := if "0x" <= s then s[2..] else s;
    if digits == [] then None
    else match DigitsValue(digits)
      case Some(n) => if n < bound then Some(n) else None
      case None => None
  }

  function ParseFelt(s: string): Option<Felt> {
    match ParseBelow(s, PRIME)
    case Some(n) => Some(n)
    case None => None
  }

  lemma ValueOfAppended(s: string, d: nat)
    requires d < 16
    ensures DigitsValue(s + [DigitChar(d)]) == AppendDigit(DigitsValue(s), Some(d))
  {
    var t := s + [DigitChar(d)];
    assert t[..|t| - 1] == s;
  }

  lemma {:induction false} DigitsRoundTrip(n: nat)
    ensures Digits(n) != []
    ensures DigitsValue(Digits(n)) == Some(n)
  {
    if n < 16 {
      ValueOfAppended([], n);
    } else {
      DigitsRoundTrip(n / 16);
      ValueOfAppended(Digits(n / 16), n % 16);
    }
  }

  /** Printing then parsing is the identity exactly on the numbers the parser admits. */
  lemma PrintParse(n: nat, bound: nat)
    ensures ParseBelow(Print(n), bound) == if n < bound then Some(n) else None
  {
    DigitsRoundTrip(n);
    assert Print(n)[2..] == Digits(n);
  }

  lemma PrintInjective(m: nat, n: nat)
    requires Print(m) == Print(n)
    ensures m == n
  {
    PrintParse(m, m + n + 1);
    PrintParse(n, m + n + 1);
  }

  lemma PrintParseFelt(f: Felt)
    ensures ParseFelt(Print(f)) == Some(f)
  {
    PrintParse(f, PRIME);
  }

  predicate LowerDigit(c: char) {
    '0' <= c <= '9' || 'a' <= c <= 'f'
  }

  predicate LowerHex(s: string) {
    forall i :: 0 <= i < |s| ==> LowerDigit(s[i])
  }

  function Pow16(k: nat): nat {
    if k == 0 then 1 else 16 * Pow16(k - 1)
  }

  lemma LowerDigitValue(c: char)
    requires LowerDigit(c)
    ensures DigitValue(c).Some? && DigitValue(c).value < 16 && DigitChar(DigitValue(c).value) == c
  {
  }

  predicate HexText(s: string) {
    forall i :: 0 <= i < |s| ==> DigitValue(s[i]).Some?
  }

  /** Printed numbers are `0x` and lower-case digits, without leading zeros. */
  lemma {:induction false} PrintShape(n: nat)
    ensures LowerHex(Digits(n)) && |Digits(n)| > 0
    ensures n > 0 ==> Digits(n)[0] != '0'
    ensures n == 0 ==> Digits(n) == "0"
    ensures Print(n) == "0x" + Digits(n)
  {
    if n >= 16 {
      PrintShape(n / 16);
    }
  }

  /** A string has a value exactly when it holds only digits, and the value fits its width. */
  lemma {:induction false} HexTextValue(s: string)
    ensures DigitsValue(s).Some? <==> HexText(s)
    ensures HexText(s) ==> DigitsValue(s).value < Pow16(|s|)
  {
    if s != [] {
      var k := |s| - 1;
      HexTextValue(s[..k]);
      assert s == s[..k] + [s[k]];
      assert HexText(s) <==> HexText(s[..k]) && DigitValue(s[k]).Some?;
    }
  }

  predicate HexChar(c: char) {
    '0' <= c <= '9' || 'a' <= c <= 'f' || 'A' <= c <= 'F'
  }

  /** `s` is digits of either case, at least one, with or without `0x`. */
  predicate HexNumber(s: string, prefixed: bool, digits: string) {
    && s == Prefix(prefixed) + digits
    && digits != [] && forall i :: 0 <= i < |digits| ==> HexChar(digits[i])
  }

  function Prefix(prefixed: bool): string {
    if prefixed then "0x" else []
  }

  lemma WithoutPrefix(prefixed: bool, digits: string)
    requires digits != [] && forall i :: 0 <= i < |digits| ==> HexChar(digits[i])
    ensures var s := Prefix(prefixed) + digits; (if "0x" <= s then s[2..] else s) == digits
  {
    var s := Prefix(prefixed) + digits;
    if prefixed {
      assert s[2..] == digits;
    } else {
      assert s == digits;
      assert |s| > 1 ==> HexChar(s[1]);
    }
  }

  lemma NumberParses(s: string, bound: nat, prefixed: bool, digits: string)
    requires HexNumber(s, prefixed, digits)
    ensures DigitsValue(digits).Some?
    ensures ParseBelow(s, bound) == if DigitsValue(digits).value < bound then DigitsValue(digits) else None
  {
    WithoutPrefix(prefixed, digits);
    HexTextValue(digits);
  }

  lemma ParsedIsNumber(s: string, bound: nat) returns (prefixed: bool, digits: string)
    requires ParseBelow(s, bound).Some?
    ensures HexNumber(s, prefixed, digits)
  {
    prefixed := "0x" <= s;
    digits := if prefixed then s[2..] else s;
    HexTextValue(digits);
    forall i | 0 <= i < |digits|
      ensures HexChar(digits[i])
    {
      assert DigitValue(digits[i]).Some?;
    }
  }

  /** What is parsed: exactly the strings of at least one digit, with or without `0x`, whose value is below the bound. */
  lemma ParsesExactly(s: string, bound: nat)
    ensures forall prefixed, digits :: HexNumber(s, prefixed, digits) ==>
              && DigitsValue(digits).Some?
              && ParseBelow(s, bound) == if DigitsValue(digits).value < bound then DigitsValue(digits) else None
    ensures (forall prefixed, digits :: !HexNumber(s, prefixed, digits)) ==> ParseBelow(s, bound).None?
  {
    forall prefixed, digits | HexNumber(s, prefixed, digits)
      ensures DigitsValue(digits).Some?
      ensures ParseBelow(s, bound) == if DigitsValue(digits).value < bound then DigitsValue(digits) else None
    {
      NumberParses(s, bound, prefixed, digits);
    }
    if ParseBelow(s, bound).Some? {
      var prefixed, digits := ParsedIsNumber(s, bound);
    }
  }

  lemma LowerHexValue(s: string)
    requires LowerHex(s)
    ensures DigitsValue(s).Some? && DigitsValue(s).value < Pow16(|s|)
  {
    HexTextValue(s);
  }

  function Zeros(z: nat): string {
    seq(z, _ => '0')
  }

  lemma {:induction false} ZerosValue(z: nat)
    ensures DigitsValue(Zeros(z)) == Some(0)
  {
    if z > 0 {
      ZerosValue(z - 1);
      assert Zeros(z)[..z - 1] == Zeros(z - 1);
    }
  }

  /** Leading zeros do not change the value. */
  lemma {:induction false} LeadingZeros(z: nat, s: string)
    ensures DigitsValue(Zeros(z) + s) == DigitsValue(s)
  {
    var t := Zeros(z) + s;
    if s == [] {
      ZerosValue(z);
      assert t == Zeros(z);
    } else {
      LeadingZeros(z, s[..|s| - 1]);
      assert t[..|t| - 1] == Zeros(z) + s[..|s| - 1];
      assert t[|t| - 1] == s[|s| - 1];
    }
  }

  /** Without leading zeros the width bounds the value from below. */
  lemma {:induction false} LeadingDigit(s: string)
    requires HexText(s) && s != [] && s[0] != '0'
    ensures DigitsValue(s).Some? && DigitsValue(s).value >= Pow16(|s| - 1)
  {
    HexTextValue(s);
    var k := |s| - 1;
    if k == 0 {
      assert s[..0] == [];
      assert DigitValue(s[0]).value >= 1;
    } else {
      assert s[..k][0] == s[0];
      LeadingDigit(s[..k]);
    }
  }

  lemma {:induction false} PowAdd(j: nat, k: nat)
    ensures Pow16(j + k) == Pow16(j) * Pow16(k)
  {
    if j > 0 {
      PowAdd(j - 1, k);
    }
  }

  lemma {:induction false} PowMonotone(j: nat, k: nat)
    requires j <= k
    ensures Pow16(j) <= Pow16(k)
  {
    if j < k {
      PowMonotone(j, k - 1);
    }
  }

  lemma Widths()
    ensures Pow16(16) == TWO_64 && Pow16(32) == TWO_128
  {
    assert Pow16(8) == 0x1_0000_0000;
    PowAdd(8, 8);
    PowAdd(16, 16);
  }

  /** Without leading zeros a value fits `w` digits exactly when there are at most `w` of them. */
  lemma FitsWidth(s: string, w: nat)
    requires HexText(s) && (s != [] ==> s[0] != '0')
    ensures DigitsValue(s).Some?
    ensures DigitsValue(s).value < Pow16(w) <==> |s| <= w
  {
    HexTextValue(s);
    if |s| <= w {
      PowMonotone(|s|, w);
    } else {
      LeadingDigit(s);
      PowMonotone(w, |s| - 1);
    }
  }

  /** Every string is some zeros and a rest that does not start with one. */
  lemma {:induction false} SplitZeros(s: string) returns (z: nat, rest: string)
    ensures s == Zeros(z) + rest && (rest != [] ==> rest[0] != '0')
  {
    if s == [] || s[0] != '0' {
      return 0, s;
    }
    z, rest := SplitZeros(s[1..]);
    assert s == ['0'] + s[1..];
    assert Zeros(z + 1) == ['0'] + Zeros(z);
    assert s == Zeros(z + 1) + rest;
    z := z + 1;
  }

  /** Digit strings of one width are equal when their values are. */
  lemma {:induction false} FixedWidthInjective(s: string, t: string)
    requires LowerHex(s) && LowerHex(t) && |s| == |t|
    requires DigitsValue(s) == DigitsValue(t)
    ensures s == t
  {
    if s != [] {
      var k := |s| - 1;
      SplitLastDigit(s);
      SplitLastDigit(t);
      FixedWidthInjective(s[..k], t[..k]);
      assert s == s[..k] + [s[k]] && t == t[..k] + [t[k]];
    }
  }

  lemma Unappended(s: string) returns (high: nat, low: nat)
    requires LowerHex(s) && s != []
    ensures DigitsValue(s[..|s| - 1]) == Some(high) && low < 16 && DigitChar(low) == s[|s| - 1]
    ensures DigitsValue(s) == Some(16 * high + low)
  {
    LowerHexValue(s[..|s| - 1]);
    LowerDigitValue(s[|s| - 1]);
    high, low := DigitsValue(s[..|s| - 1]).value, DigitValue(s[|s| - 1]).value;
  }

  lemma SplitLastDigit(s: string)
    requires LowerHex(s) && s != []
    ensures var k := |s| - 1;
            && DigitsValue(s).Some? && DigitsValue(s[..k]) == Some(DigitsValue(s).value / 16)
            && DigitChar(DigitsValue(s).value % 16) == s[k]
  {
    var high, low := Unappended(s);
    DivideOut(high, low);
  }

  lemma DivideOut(high: nat, low: nat)
    requires low < 16
    ensures (16 * high + low) / 16 == high && (16 * high + low) % 16 == low
  {
  }
}
