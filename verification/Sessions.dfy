/** Session identifiers: UUID text and the field element the contract knows the session by. */
module Sessions {
  import opened Wrappers
  import opened Felts
  import Hex
  import Seqs

  /** The text form 8-4-4-4-12 in lower-case hexadecimal. */
  predicate IsUuid(u: string) {
    && |u| == 36
    && u[8] == '-' && u[13] == '-' && u[18] == '-' && u[23] == '-'
    && Hex.LowerHex(u[..8]) && Hex.LowerHex(u[9..13]) && Hex.LowerHex(u[14..18])
    && Hex.LowerHex(u[19..23]) && Hex.LowerHex(u[24..])
  }

  function WithoutDashes(s: string): string {
    if s == [] then [] else KeepDigit(s[0]) + WithoutDashes(s[1..])
  }

  function KeepDigit(c: char): string {
    if c == '-' then [] else [c]
  }

  /** The session felt as text: `0x` and the id without its dashes. */
  function SessionText(u: string): string {
    "0x" + WithoutDashes(u)
  }

  lemma {:induction false} WithoutDashesConcat(s: string, t: string)
    ensures WithoutDashes(s + t) == WithoutDashes(s) + WithoutDashes(t)
  {
    if s == [] {
      assert s + t == t;
    } else {
      WithoutDashesConcat(s[1..], t);
      assert (s + t)[1..] == s[1..] + t && (s + t)[0] == s[0];
      Seqs.Assoc(KeepDigit(s[0]), WithoutDashes(s[1..]), WithoutDashes(t));
    }
  }

  lemma {:induction false} NoDashes(s: string)
    requires Hex.LowerHex(s)
    ensures WithoutDashes(s) == s
  {
    if s != [] {
      NoDashes(s[1..]);
    }
  }

  lemma DashThen(s: string, d: nat)
    requires d < |s| && s[d] == '-' && Hex.LowerHex(s[..d])
    ensures WithoutDashes(s) == s[..d] + WithoutDashes(s[d + 1..])
  {
    NoDashes(s[..d]);
    WithoutDashesConcat(s[..d], s[d..]);
    assert s == s[..d] + s[d..];
    assert s[d..][1..] == s[d + 1..];
    DashFirst(s[d..]);
  }

  lemma DashFirst(s: string)
    requires s != [] && s[0] == '-'
    ensures WithoutDashes(s) == WithoutDashes(s[1..])
  {
    Seqs.Units(WithoutDashes(s[1..]));
  }

  /** The 32 digits of a UUID. */
  function Digits(u: string): string
    requires |u| == 36
  {
    u[..8] + (u[9..13] + (u[14..18] + (u[19..23] + u[24..])))
  }

  lemma UuidDigits(u: string)
    requires IsUuid(u)
    ensures WithoutDashes(u) == Digits(u)
  {
    DashThen(u, 8);
    var v := u[9..];
    assert v[..4] == u[9..13] && v[5..] == u[14..];
    DashThen(v, 4);
    TailDigits(u);
  }

  lemma TailDigits(u: string)
    requires IsUuid(u)
    ensures WithoutDashes(u[14..]) == u[14..18] + (u[19..23] + u[24..])
  {
    var w := u[14..];
    assert w[..4] == u[14..18] && w[5..] == u[19..];
    DashThen(w, 4);
    var x := u[19..];
    assert x[..4] == u[19..23] && x[5..] == u[24..];
    DashThen(x, 4);
    NoDashes(u[24..]);
  }

  /** The text form of 32 digits. */
  function Dashed(d: string): string
    requires |d| == 32
  {
    d[..8] + "-" + d[8..12] + "-" + d[12..16] + "-" + d[16..20] + "-" + d[20..]
  }

  lemma DashedDigits(u: string)
    requires IsUuid(u)
    ensures Dashed(Digits(u)) == u
  {
    var d := Digits(u);
    assert d[..8] == u[..8] && d[8..12] == u[9..13] && d[12..16] == u[14..18];
    assert d[16..20] == u[19..23] && d[20..] == u[24..];
    assert u == u[..8] + "-" + u[9..13] + "-" + u[14..18] + "-" + u[19..23] + "-" + u[24..];
  }

  lemma DigitsDetermineUuid(u: string, v: string)
    requires IsUuid(u) && IsUuid(v) && Digits(u) == Digits(v)
    ensures u == v
  {
    DashedDigits(u);
    DashedDigits(v);
  }

  lemma DigitsAreHex(u: string)
    requires IsUuid(u)
    ensures Hex.LowerHex(Digits(u)) && |Digits(u)| == 32
  {
  }

  /** The number the contract receives for a session. */
  function SessionFelt(u: string): Option<Felt> {
    Hex.ParseFelt(SessionText(u))
  }

  /** Every session id gives the felt its 32 digits denote, and distinct ids give distinct felts. */
  lemma SessionFeltInjective(u: string, v: string)
    requires IsUuid(u) && IsUuid(v)
    ensures SessionFelt(u).Some? && SessionFelt(v).Some?
    ensures SessionFelt(u) == Hex.DigitsValue(Digits(u))
    ensures SessionFelt(u) == SessionFelt(v) <==> u == v
  {
    FeltOfDigits(u);
    FeltOfDigits(v);
    if SessionFelt(u) == SessionFelt(v) {
      DigitsAreHex(u);
      DigitsAreHex(v);
      Hex.FixedWidthInjective(Digits(u), Digits(v));
      DigitsDetermineUuid(u, v);
    }
  }

  lemma FeltOfDigits(u: string)
    requires IsUuid(u)
    ensures SessionFelt(u).Some? && Hex.DigitsValue(Digits(u)) == SessionFelt(u)
  {
    UuidDigits(u);
    DigitsAreHex(u);
    Hex.LowerHexValue(Digits(u));
    Hex.Widths();
    assert SessionText(u)[2..] == Digits(u);
  }
}
