/**
 Deadline-bounded polling for a transaction receipt and for a new block.  The environment is a
 clock reading and a node answer for every iteration; nothing else is assumed about it.
 */
module Polling {
  import opened Wrappers
  import opened Felts
  import Hex
  import Seqs

  /** The JSON value under `block_number`, where the key is present. */
  datatype BlockField = Number(n: U64) | Text(text: string) | OtherJson

  /** The fields of a receipt that are looked at; None where the key is absent or no string. */
  datatype Receipt = Receipt(finality: Option<string>, execution: Option<string>, block: Option<BlockField>)

  predicate Rejected(r: Receipt) {
    r.finality == Some("REJECTED") || r.execution == Some("REVERTED")
  }

  predicate Accepted(r: Receipt) {
    && (r.finality == Some("ACCEPTED_ON_L2") || r.finality == Some("ACCEPTED_ON_L1"))
    && r.block.Some?
    && (r.execution.None? || r.execution == Some("SUCCEEDED"))
  }

  /** A receipt that ends the polling. */
  predicate Decisive(answer: Option<Receipt>) {
    answer.Some? && (Rejected(answer.value) || Accepted(answer.value))
  }

  datatype TxError = TxTimeout | TxRejected(receipt: Receipt)

  /**
   Polls until a decisive receipt or the deadline.  `clock(i)` is the time of the i-th deadline check
   and `receipt(i)` the answer to the i-th request, None for a failed one.  The clock eventually
   reaches the deadline; `enough` is such an iteration.
   */
  method WaitForTx(start: nat, timeout: U64, clock: nat -> nat, receipt: nat -> Option<Receipt>, ghost enough: nat)
      returns (r: Result<Receipt, TxError>, requests: nat)
    requires clock(enough) >= start + timeout
    ensures forall i :: 0 <= i < requests ==> clock(i) < start + timeout
    ensures forall i :: 0 <= i < requests && receipt(i).Some? ==>
              var x := receipt(i).value;
              (x.finality == Some("REJECTED") || x.execution == Some("REVERTED")) ==>
                r == Err(TxRejected(x)) && i == requests - 1
    ensures forall i :: 0 <= i < requests && receipt(i).Some? ==>
              var x := receipt(i).value;
              ((x.finality == Some("ACCEPTED_ON_L2") || x.finality == Some("ACCEPTED_ON_L1")) && x.block.Some?
               && (x.execution.None? || x.execution == Some("SUCCEEDED"))) ==>
                r == Ok(x) && i == requests - 1
    ensures r.Err? && r.error.TxTimeout? ==> clock(requests) >= start + timeout
    ensures r.Err? && r.error.TxRejected? ==>
              && requests > 0 && receipt(requests - 1) == Some(r.error.receipt)
              && (r.error.receipt.finality == Some("REJECTED") || r.error.receipt.execution == Some("REVERTED"))
    ensures r.Ok? ==>
              && requests > 0 && receipt(requests - 1) == Some(r.value) && r.value.block.Some?
              && (r.value.finality == Some("ACCEPTED_ON_L2") || r.value.finality == Some("ACCEPTED_ON_L1"))
              && (r.value.execution.None? || r.value.execution == Some("SUCCEEDED"))
  {
    var deadline := start + timeout;
    requests := 0;
    while true
      invariant requests <= enough
      invariant forall i :: 0 <= i < requests ==> clock(i) < deadline && !Decisive(receipt(i))
      decreases enough - requests
    {
      var now := clock(requests);
      if now >= deadline {
        return Err(TxTimeout), requests;
      }
      var answer := receipt(requests);
      requests := requests + 1;
      if answer.Some? {
        if Rejected(answer.value) {
          return Err(TxRejected(answer.value)), requests;
        }
        if Accepted(answer.value) {
          return Ok(answer.value), requests;
        }
      }
    }
  }

  /** Every sleep lets the clock advance by the poll interval at least. */
  ghost predicate Advances(clock: nat -> nat, interval: nat) {
    forall i: nat :: clock(i + 1) >= clock(i) + interval
  }

  lemma {:induction false} ClockLowerBound(clock: nat -> nat, interval: nat, i: nat)
    requires Advances(clock, interval)
    ensures clock(i) >= clock(0) + i * interval
  {
    if i > 0 {
      ClockLowerBound(clock, interval, i - 1);
      assert clock(i - 1 + 1) >= clock(i - 1) + interval;
      assert (i - 1) * interval + interval == i * interval;
    }
  }

  /**
   With a poll interval of at least one, at most ceil(timeout / interval) checks find the deadline
   not yet reached, so no more requests are made; and the clock does reach it.
   */
  lemma PollsBounded(start: nat, timeout: nat, interval: nat, clock: nat -> nat, requests: nat)
    requires interval >= 1 && clock(0) >= start && Advances(clock, interval)
    requires forall i :: 0 <= i < requests ==> clock(i) < start + timeout
    ensures requests <= (timeout + interval - 1) / interval
    ensures clock((timeout + interval - 1) / interval) >= start + timeout
  {
    var most := (timeout + interval - 1) / interval;
    assert requests > most ==> clock(most) < start + timeout;
    CeilingCovers(timeout, interval);
    ClockLowerBound(clock, interval, most);
  }

  lemma CeilingCovers(t: nat, p: nat)
    requires p >= 1
    ensures (t + p - 1) / p * p >= t
  {
    var x := t + p - 1;
    assert x == x / p * p + x % p;
  }

  /** Waits until the head is past `block`; `head(i)` is the i-th answer, None for a failed request. */
  method WaitForBlockAfter(block: U64, start: nat, timeout: U64, clock: nat -> nat, head: nat -> Option<U64>,
                           ghost enough: nat)
      returns (r: Option<U64>, requests: nat)
    requires clock(enough) >= start + timeout
    ensures forall i :: 0 <= i < requests ==> clock(i) < start + timeout
    ensures r.Some? ==> requests > 0 && head(requests - 1) == r && r.value > block
    ensures forall i :: 0 <= i < requests && (r.None? || i < requests - 1) ==> head(i).None? || head(i).value <= block
    ensures r.None? ==> clock(requests) >= start + timeout
  {
    var deadline := start + timeout;
    requests := 0;
    while true
      invariant requests <= enough
      invariant forall i :: 0 <= i < requests ==> clock(i) < deadline && (head(i).None? || head(i).value <= block)
      decreases enough - requests
    {
      var now := clock(requests);
      if now >= deadline {
        return None, requests;
      }
      var current := head(requests);
      requests := requests + 1;
      if current.Some? && current.value > block {
        return current, requests;
      }
    }
  }

  // ----- the block number of an accepted receipt

  /** Removes every leading `0x`. */
  function TrimPrefixes(s: string): string
    decreases |s|
  {
    if "0x" <= s then TrimPrefixes(s[2..]) else s
  }

  /** Unsigned parsing in base 16: an optional plus sign, at least one digit, and no overflow. */
  function ParseRadix16(s: string): Option<nat> {
    var digits := if |s| > 0 && s[0] == '+' then s[1..] else s;
    if digits == [] then None
    else match Hex.DigitsValue(digits)
      case Some(n) => if n < TWO_64 then Some(n) else None
      case None => None
  }

  function ReceiptBlockNumber(r: Receipt): Option<nat> {
    match r.block
    case None => None
    case Some(Number(n)) => Some(n)
    case Some(Text(t)) => ParseRadix16(TrimPrefixes(t))
    case Some(OtherJson) => None
  }

  /** A block number printed the way nodes print it is read back. */
  lemma PrintedBlockNumber(r: Receipt, n: U64)
    requires r.block == Some(Text(Hex.Print(n)))
    ensures ReceiptBlockNumber(r) == Some(n)
  {
    Hex.DigitsRoundTrip(n);
    DigitsNoPrefix(n);
    assert Hex.Print(n)[2..] == Hex.Digits(n);
    assert TrimPrefixes(Hex.Print(n)) == TrimPrefixes(Hex.Digits(n)) == Hex.Digits(n);
  }

  lemma DigitsNoPrefix(n: nat)
    ensures !("0x" <= Hex.Digits(n)) && Hex.Digits(n) != [] && Hex.Digits(n)[0] != '+'
  {
    Hex.PrintShape(n);
    assert |Hex.Digits(n)| > 1 ==> Hex.LowerDigit(Hex.Digits(n)[1]);
  }

  /** The polling accepts a receipt whose `block_number` key is present but names no block. */
  lemma AcceptedWithoutBlock()
    ensures var r := Receipt(Some("ACCEPTED_ON_L2"), None, Some(OtherJson));
            Accepted(r) && ReceiptBlockNumber(r).None?
  {
  }

  // ----- which fields name a block

  /** `0x`, `k` times. */
  function Prefixes(k: nat): string {
    if k == 0 then [] else "0x" + Prefixes(k - 1)
  }

  function Sign(plus: bool): string {
    if plus then "+" else []
  }

  /** The parts of a block number in text: prefixes, a sign, zeros, and at most 16 further digits. */
  ghost predicate BlockParts(text: string, k: nat, plus: bool, z: nat, digits: string) {
    && text == Prefixes(k) + (Sign(plus) + (Hex.Zeros(z) + digits))
    && Hex.HexText(digits) && 1 <= z + |digits| && |digits| <= 16
  }

  ghost predicate BlockText(text: string) {
    exists k, plus, z, digits :: BlockParts(text, k, plus, z, digits)
  }

  lemma {:induction false} PrefixesTrimmed(k: nat, rest: string)
    requires !("0x" <= rest)
    ensures TrimPrefixes(Prefixes(k) + rest) == rest
  {
    if k == 0 {
      assert Prefixes(k) + rest == rest;
    } else {
      PrefixesTrimmed(k - 1, rest);
      Seqs.Assoc("0x", Prefixes(k - 1), rest);
      assert ("0x" + (Prefixes(k - 1) + rest))[2..] == Prefixes(k - 1) + rest;
    }
  }

  lemma {:induction false} SplitPrefixes(text: string) returns (k: nat)
    ensures text == Prefixes(k) + TrimPrefixes(text)
    decreases |text|
  {
    k := 0;
    if "0x" <= text {
      k := SplitPrefixes(text[2..]);
      assert text == "0x" + text[2..];
      Seqs.Assoc("0x", Prefixes(k), TrimPrefixes(text));
      k := k + 1;
    }
  }

  /** What base-16 parsing makes of a sign and digits. */
  lemma ParseSigned(plus: bool, digits: string)
    requires digits != [] && digits[0] != '+'
    ensures ParseRadix16(Sign(plus) + digits)
         == match Hex.DigitsValue(digits) case Some(n) => (if n < TWO_64 then Some(n) else None) case None => None
  {
    var s := Sign(plus) + digits;
    if plus {
      assert s[1..] == digits;
    } else {
      assert s == digits;
    }
  }

  lemma DigitsAreNoPrefix(plus: bool, digits: string)
    requires Hex.HexText(digits) && digits != []
    ensures !("0x" <= Sign(plus) + digits) && digits[0] != '+'
  {
    assert Hex.DigitValue(digits[0]).Some?;
    var s := Sign(plus) + digits;
    if plus {
      assert s[0] == '+';
    } else {
      assert s == digits;
      assert |s| > 1 ==> Hex.DigitValue(s[1]).Some?;
    }
  }

  lemma ZerosAreHex(z: nat, digits: string)
    requires Hex.HexText(digits)
    ensures Hex.HexText(Hex.Zeros(z) + digits)
  {
  }

  /** Text built from the parts is read as a block number. */
  lemma PartsParse(text: string, k: nat, plus: bool, z: nat, digits: string)
    requires BlockParts(text, k, plus, z, digits)
    ensures ParseRadix16(TrimPrefixes(text)) == Hex.DigitsValue(digits) && Hex.DigitsValue(digits).Some?
  {
    var all := Hex.Zeros(z) + digits;
    ZerosAreHex(z, digits);
    DigitsAreNoPrefix(plus, all);
    PrefixesTrimmed(k, Sign(plus) + all);
    ParseSigned(plus, all);
    Hex.LeadingZeros(z, digits);
    Hex.HexTextValue(digits);
    Hex.Widths();
    Hex.PowMonotone(|digits|, 16);
  }

  /** A parsed digit string is some zeros and at most 16 further digits. */
  lemma WordDigits(all: string) returns (z: nat, digits: string)
    requires Hex.DigitsValue(all).Some? && Hex.DigitsValue(all).value < TWO_64
    ensures all == Hex.Zeros(z) + digits && Hex.HexText(digits) && |digits| <= 16
  {
    Hex.HexTextValue(all);
    z, digits := Hex.SplitZeros(all);
    assert forall i :: 0 <= i < |digits| ==> digits[i] == all[z + i];
    Hex.LeadingZeros(z, digits);
    Hex.FitsWidth(digits, 16);
    Hex.Widths();
  }

  /** What is parsed is an optional sign and a number. */
  lemma ParsedDigits(s: string) returns (plus: bool, all: string)
    requires ParseRadix16(s).Some?
    ensures s == Sign(plus) + all && all != []
    ensures Hex.DigitsValue(all).Some? && Hex.DigitsValue(all).value < TWO_64
  {
    plus := |s| > 0 && s[0] == '+';
    all := if plus then s[1..] else s;
  }

  /** Text that is read as a block number has the parts. */
  lemma ParsedHasParts(text: string)
    requires ParseRadix16(TrimPrefixes(text)).Some?
    ensures BlockText(text)
  {
    var k := SplitPrefixes(text);
    var plus, all := ParsedDigits(TrimPrefixes(text));
    var z, digits := WordDigits(all);
    assert BlockParts(text, k, plus, z, digits);
  }

  /**
   What a receipt's block field names: a number names itself; text names a block exactly when it is
   any number of `0x`, at most one plus sign, and at least one hexadecimal digit, of which at most 16
   follow the leading zeros, and then it names the value of these digits; nothing else names one.
   Being accepted does not enter into it.
   */
  lemma AcceptedBlockNumber(r: Receipt)
    ensures r.block.Some? && r.block.value.Number? ==> ReceiptBlockNumber(r) == Some(r.block.value.n)
    ensures r.block.Some? && r.block.value.Text? ==> (ReceiptBlockNumber(r).Some? <==> BlockText(r.block.value.text))
    ensures r.block.Some? && r.block.value.Text? ==>
              forall k, plus, z, digits :: BlockParts(r.block.value.text, k, plus, z, digits) ==>
                ReceiptBlockNumber(r) == Hex.DigitsValue(digits)
    ensures r.block.None? || r.block.value.OtherJson? ==> ReceiptBlockNumber(r).None?
  {
    if r.block.Some? && r.block.value.Text? {
      var text := r.block.value.text;
      forall k, plus, z, digits | BlockParts(text, k, plus, z, digits)
        ensures ReceiptBlockNumber(r) == Hex.DigitsValue(digits) && ReceiptBlockNumber(r).Some?
      {
        PartsParse(text, k, plus, z, digits);
      }
      if ReceiptBlockNumber(r).Some? {
        ParsedHasParts(text);
      }
    }
  }
}
