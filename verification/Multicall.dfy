/**
 Account multicalls: the two encoders of `Array<Call>`, the decoder they must agree with, and the
 effect of the decoded calls on the Counter contract.
 */
module Multicall {
  import opened Wrappers
  import opened Felts
  import Hex
  import Seqs

  /** A call as the client writes it, in hexadecimal text. */
  datatype TextCall = TextCall(to: string, selector: string, calldata: seq<string>)

  /** A call as the account contract receives it. */
  datatype Call = Call(to: Felt, selector: Felt, calldata: seq<Felt>)

  const INCREMENT: string := "0x7a44dde9fea32737a5cf3f9683b3235138654aa2d189f6fe44af37a61dc60d"

  // ----- encoding

  function EncodeOne(c: TextCall): seq<string> {
    [c.to, c.selector, Hex.Print(|c.calldata|)] + c.calldata
  }

  function EncodeBody(calls: seq<TextCall>): seq<string> {
    if calls == [] then [] else EncodeBody(calls[..|calls| - 1]) + EncodeOne(calls[|calls| - 1])
  }

  function Encode(calls: seq<TextCall>): seq<string> {
    [Hex.Print(|calls|)] + EncodeBody(calls)
  }

  method EncodeAccountCalls(calls: seq<TextCall>) returns (calldata: seq<string>)
    ensures calldata == Encode(calls)
  {
    calldata := [Hex.Print(|calls|)];
    for i := 0 to |calls|
      invariant calldata == [Hex.Print(|calls|)] + EncodeBody(calls[..i])
    {
      assert calls[..i + 1][..i] == calls[..i];
      calldata := calldata + [calls[i].to];
      calldata := calldata + [calls[i].selector];
      calldata := calldata + [Hex.Print(|calls[i].calldata|)];
      calldata := calldata + calls[i].calldata;
      assert calldata == [Hex.Print(|calls|)] + (EncodeBody(calls[..i]) + EncodeOne(calls[i]));
    }
    assert calls[..|calls|] == calls;
  }

  function Repeat<T>(x: T, n: nat): seq<T> {
    seq(n, _ => x)
  }

  function IncrementCall(contract: string, selector: string, amount: nat): TextCall {
    TextCall(contract, selector, [Hex.Print(amount)])
  }

  /** The playground's own encoder: `n` increments of one contract, written inline. */
  method EncodeIncrements(contract: string, amount: U64, n: U32) returns (calldata: seq<string>)
    ensures calldata == Encode(Repeat(IncrementCall(contract, INCREMENT, amount), n))
  {
    ghost var calls := Repeat(IncrementCall(contract, INCREMENT, amount), n);
    calldata := [Hex.Print(n)];
    for i := 0 to n
      invariant calldata == [Hex.Print(n)] + EncodeBody(calls[..i])
    {
      assert calls[..i + 1][..i] == calls[..i];
      calldata := calldata + [contract];
      calldata := calldata + [INCREMENT];
      calldata := calldata + ["0x1"];
      calldata := calldata + [Hex.Print(amount)];
      assert Hex.Print(1) == "0x1";
      assert calldata == [Hex.Print(n)] + (EncodeBody(calls[..i]) + EncodeOne(calls[i]));
    }
    assert calls[..n] == calls;
  }

  function Arguments(calls: seq<TextCall>): nat {
    if calls == [] then 0 else Arguments(calls[..|calls| - 1]) + 3 + |calls[|calls| - 1].calldata|
  }

  lemma {:induction false} EncodedLength(calls: seq<TextCall>)
    ensures |Encode(calls)| == 1 + Arguments(calls)
  {
    if calls != [] {
      EncodedLength(calls[..|calls| - 1]);
    }
  }

  // ----- parsing the text

  function ParseAll(texts: seq<string>): Option<seq<Felt>> {
    if texts == [] then Some([])
    else
      var front := ParseAll(texts[..|texts| - 1]);
      var last := Hex.ParseFelt(texts[|texts| - 1]);
      if front.Some? && last.Some? then Some(front.value + [last.value]) else None
  }

  function ParseCall(c: TextCall): Option<Call> {
    var to, selector, calldata := Hex.ParseFelt(c.to), Hex.ParseFelt(c.selector), ParseAll(c.calldata);
    if to.Some? && selector.Some? && calldata.Some? then Some(Call(to.value, selector.value, calldata.value)) else None
  }

  function ParseCalls(calls: seq<TextCall>): Option<seq<Call>> {
    if calls == [] then Some([])
    else
      var front := ParseCalls(calls[..|calls| - 1]);
      var last := ParseCall(calls[|calls| - 1]);
      if front.Some? && last.Some? then Some(front.value + [last.value]) else None
  }

  function Join(a: Option<seq<Felt>>, b: Option<seq<Felt>>): Option<seq<Felt>> {
    if a.Some? && b.Some? then Some(a.value + b.value) else None
  }

  lemma {:induction false} ParseConcat(s: seq<string>, t: seq<string>)
    ensures ParseAll(s + t) == Join(ParseAll(s), ParseAll(t))
  {
    if t == [] {
      assert s + t == s;
      assert ParseAll(s).Some? ==> ParseAll(s).value + [] == ParseAll(s).value;
    } else {
      var k := |t| - 1;
      ParseConcat(s, t[..k]);
      assert (s + t)[..|s + t| - 1] == s + t[..k] && (s + t)[|s + t| - 1] == t[k];
      var a, b, c := ParseAll(s), ParseAll(t[..k]), ParseOne(t[k]);
      assert Join(Join(a, b), c) == Join(a, Join(b, c)) by {
        if a.Some? && b.Some? && c.Some? {
          assert (a.value + b.value) + c.value == a.value + (b.value + c.value);
        }
      }
    }
  }

  function ParseOne(text: string): Option<seq<Felt>> {
    var f := Hex.ParseFelt(text);
    if f.Some? then Some([f.value]) else None
  }

  lemma ParseSingle(text: string)
    ensures ParseAll([text]) == ParseOne(text)
  {
    assert [text][..0] == [];
    assert ParseOne(text).Some? ==> [] + ParseOne(text).value == ParseOne(text).value;
  }

  lemma ParseThree(a: string, b: string, c: string)
    ensures ParseAll([a, b, c]) == Join(ParseOne(a), Join(ParseOne(b), ParseOne(c)))
  {
    ParseSingle(a);
    ParseSingle(b);
    ParseSingle(c);
    ParseConcat([b], [c]);
    ParseConcat([a], [b, c]);
    assert [a] + [b, c] == [a, b, c] && [b] + [c] == [b, c];
  }

  // ----- the felts of a call, and the decoder

  function Words(c: Call): seq<Felt>
    requires |c.calldata| < PRIME
  {
    [c.to, c.selector, |c.calldata|] + c.calldata
  }

  function FeltsOf(calls: seq<Call>): seq<Felt>
    requires forall c :: c in calls ==> |c.calldata| < PRIME
  {
    if calls == [] then [] else Words(calls[0]) + FeltsOf(calls[1..])
  }

  /** Deserializes exactly `n` calls and nothing more. */
  function DecodeBody(n: nat, data: seq<Felt>): Option<seq<Call>>
    decreases n
  {
    if n == 0 then (if data == [] then Some([]) else None)
    else if |data| < 3 || |data| - 3 < data[2] then None
    else
      var end := 3 + (data[2] as int);
      match DecodeBody(n - 1, data[end..])
      case None => None
      case Some(rest) => Some([Call(data[0], data[1], data[3..end])] + rest)
  }

  /** How the account contract reads its calldata. */
  function Decode(data: seq<Felt>): Option<seq<Call>> {
    if data == [] then None else DecodeBody(data[0], data[1..])
  }

  lemma {:induction false} DecodeFelts(calls: seq<Call>)
    requires forall c :: c in calls ==> |c.calldata| < PRIME
    ensures DecodeBody(|calls|, FeltsOf(calls)) == Some(calls)
  {
    if calls != [] {
      var c, data := calls[0], FeltsOf(calls);
      DecodeFelts(calls[1..]);
      var end := 3 + |c.calldata|;
      assert data[..end] == Words(c) && data[end..] == FeltsOf(calls[1..]);
      assert data[0] == Words(c)[0] && data[1] == Words(c)[1] && data[2] == Words(c)[2];
      assert data[3..end] == c.calldata;
      assert calls == [c] + calls[1..];
    }
  }

  /** The words in front of the rest are those of the first call. */
  lemma FirstCall(data: seq<Felt>, rest: seq<Call>)
    requires |data| >= 3 && |data| - 3 >= data[2]
    requires forall c :: c in rest ==> |c.calldata| < PRIME
    requires FeltsOf(rest) == data[3 + data[2]..]
    ensures var calls := [Call(data[0], data[1], data[3..3 + data[2]])] + rest;
            && (forall c :: c in calls ==> |c.calldata| < PRIME)
            && FeltsOf(calls) == data
  {
    var end := 3 + (data[2] as int);
    var first := Call(data[0], data[1], data[3..end]);
    var calls := [first] + rest;
    assert calls[0] == first && calls[1..] == rest;
    assert forall c :: c in calls ==> c == first || c in rest;
    assert data[..end] == data[..3] + data[3..end];
    assert data[..3] == [data[0], data[1], data[2]];
    assert data == data[..end] + data[end..];
  }

  /** The decoder accepts nothing but encodings, each of one call list. */
  lemma {:induction false} DecodedIsEncoded(n: nat, data: seq<Felt>)
    requires DecodeBody(n, data).Some?
    ensures var calls := DecodeBody(n, data).value;
            && |calls| == n
            && (forall c :: c in calls ==> |c.calldata| < PRIME)
            && FeltsOf(calls) == data
  {
    if n > 0 {
      var end := 3 + (data[2] as int);
      DecodedIsEncoded(n - 1, data[end..]);
      FirstCall(data, DecodeBody(n - 1, data[end..]).value);
    }
  }

  lemma {:induction false} FeltsOfAppend(calls: seq<Call>, c: Call)
    requires |c.calldata| < PRIME && forall d :: d in calls ==> |d.calldata| < PRIME
    ensures FeltsOf(calls + [c]) == FeltsOf(calls) + Words(c)
  {
    if calls == [] {
      assert calls + [c] == [c] && [c][1..] == [];
    } else {
      FeltsOfAppend(calls[1..], c);
      assert (calls + [c])[1..] == calls[1..] + [c];
      Seqs.Assoc(Words(calls[0]), FeltsOf(calls[1..]), Words(c));
    }
  }

  // ----- round trip

  /** Lengths are machine words. */
  predicate WordSized(calls: seq<TextCall>) {
    |calls| < TWO_64 && forall c :: c in calls ==> |c.calldata| < TWO_64
  }

  lemma {:induction false} ParseAllLength(texts: seq<string>)
    ensures ParseAll(texts).Some? ==> |ParseAll(texts).value| == |texts|
  {
    if texts != [] {
      ParseAllLength(texts[..|texts| - 1]);
    }
  }

  lemma ParseHeader(to: string, selector: string, length: U64)
    ensures ParseAll([to, selector, Hex.Print(length)])
         == if Hex.ParseFelt(to).Some? && Hex.ParseFelt(selector).Some?
            then Some([Hex.ParseFelt(to).value, Hex.ParseFelt(selector).value, length]) else None
  {
    Hex.PrintParseFelt(length);
    ParseThree(to, selector, Hex.Print(length));
    if Hex.ParseFelt(to).Some? && Hex.ParseFelt(selector).Some? {
      var f, g: Felt := Hex.ParseFelt(to).value, Hex.ParseFelt(selector).value;
      assert [f] + ([g] + [length]) == [f, g, length];
    }
  }

  lemma ParseEncodedOne(c: TextCall)
    requires |c.calldata| < TWO_64
    ensures var parsed := ParseCall(c);
            && (parsed.Some? ==> |parsed.value.calldata| < PRIME)
            && ParseAll(EncodeOne(c)) == if parsed.Some? then Some(Words(parsed.value)) else None
  {
    ParseAllLength(c.calldata);
    ParseHeader(c.to, c.selector, |c.calldata|);
    ParseConcat([c.to, c.selector, Hex.Print(|c.calldata|)], c.calldata);
  }

  lemma {:induction false} ParseEncodedBody(calls: seq<TextCall>)
    requires forall c :: c in calls ==> |c.calldata| < TWO_64
    ensures var parsed := ParseCalls(calls);
            && (parsed.Some? ==> |parsed.value| == |calls| && forall c :: c in parsed.value ==> |c.calldata| < PRIME)
            && ParseAll(EncodeBody(calls)) == if parsed.Some? then Some(FeltsOf(parsed.value)) else None
  {
    if calls != [] {
      var k := |calls| - 1;
      ParseEncodedBody(calls[..k]);
      ParseEncodedOne(calls[k]);
      ParseConcat(EncodeBody(calls[..k]), EncodeOne(calls[k]));
      if ParseCalls(calls[..k]).Some? && ParseCall(calls[k]).Some? {
        FeltsOfAppend(ParseCalls(calls[..k]).value, ParseCall(calls[k]).value);
      }
    }
  }

  /**
   Round trip: for every list of calls, the encoded text parses exactly when every string of every
   call does, and the account decodes it to exactly those calls.
   */
  lemma DecodeEncode(calls: seq<TextCall>)
    requires WordSized(calls)
    ensures ParseAll(Encode(calls)).Some? <==> ParseCalls(calls).Some?
    ensures ParseAll(Encode(calls)).Some? ==> Decode(ParseAll(Encode(calls)).value) == ParseCalls(calls)
  {
    ParseEncodedBody(calls);
    Hex.PrintParseFelt(|calls|);
    ParseConcat([Hex.Print(|calls|)], EncodeBody(calls));
    assert [Hex.Print(|calls|)][..0] == [];
    if ParseCalls(calls).Some? {
      DecodeFelts(ParseCalls(calls).value);
      var data := ParseAll(Encode(calls)).value;
      assert data[1..] == FeltsOf(ParseCalls(calls).value);
    }
  }

  // ----- effect on the Counter

  class Counter {
    var counter: Felt

    constructor ()
      ensures counter == 0
    {
      counter := 0;
    }

    method Increment(amount: Felt)
      modifies this
      ensures counter == Add(old(counter), amount)
    {
      counter := Add(counter, amount);
    }
  }

  /** The account runs its calls in order; a call it cannot make reverts them all. */
  function RunCalls(counter: Felt, contract: Felt, selector: Felt, calls: seq<Call>): Option<Felt> {
    if calls == [] then Some(counter)
    else
      var before := RunCalls(counter, contract, selector, calls[..|calls| - 1]);
      var c := calls[|calls| - 1];
      if before.None? || c.to != contract || c.selector != selector || |c.calldata| != 1 then None
      else Some(Add(before.value, c.calldata[0]))
  }

  predicate IsIncrement(c: Call, contract: Felt, selector: Felt) {
    c.to == contract && c.selector == selector && |c.calldata| == 1
  }

  /** The sum of the first arguments. */
  function Total(calls: seq<Call>): nat {
    if calls == [] then 0
    else
      var c := calls[|calls| - 1];
      Total(calls[..|calls| - 1]) + if |c.calldata| == 1 then c.calldata[0] else 0
  }

  /** A block of any calls goes through exactly when all are increments, and then adds their sum in the field. */
  lemma {:induction false} RunsExactly(counter: Felt, contract: Felt, selector: Felt, calls: seq<Call>)
    ensures var r := RunCalls(counter, contract, selector, calls);
            && (r.Some? <==> forall i :: 0 <= i < |calls| ==> IsIncrement(calls[i], contract, selector))
            && (r.Some? ==> r.value == Wrapped(counter + Total(calls)))
  {
    if calls == [] {
      WrappedSmall(counter);
    } else {
      var n := |calls| - 1;
      RunsExactly(counter, contract, selector, calls[..n]);
      assert forall i :: 0 <= i < n ==> calls[..n][i] == calls[i];
      if RunCalls(counter, contract, selector, calls).Some? {
        AddWrapped(counter + Total(calls[..n]), calls[n].calldata[0]);
      }
    }
  }

  /** `k` blocks, each with the same calls. */
  function RunBlocks(counter: Felt, contract: Felt, selector: Felt, calls: seq<Call>, k: nat): Option<Felt> {
    if k == 0 then Some(counter)
    else match RunBlocks(counter, contract, selector, calls, k - 1)
      case None => None
      case Some(c) => RunCalls(c, contract, selector, calls)
  }

  function Times(a: nat, b: nat): nat {
    a * b
  }

  /** A number of any size as a field element. */
  function Wrapped(x: nat): Felt {
    x % PRIME
  }

  lemma AddWrapped(x: nat, y: nat)
    ensures Wrapped(Wrapped(x) + y) == Wrapped(x + y)
  {
    assert x == PRIME * (x / PRIME) + x % PRIME;
    DropMultiple(x % PRIME + y, x / PRIME);
  }

  lemma {:induction false} DropMultiple(y: nat, q: nat)
    ensures Wrapped(y + PRIME * q) == Wrapped(y)
  {
    if q > 0 {
      DropMultiple(y, q - 1);
      DropOne(y + PRIME * (q - 1));
    }
  }

  lemma DropOne(z: nat)
    ensures Wrapped(z + PRIME) == Wrapped(z)
  {
  }

  lemma {:induction false} Increments(start: nat, contract: Felt, selector: Felt, a: Felt, n: nat)
    ensures RunCalls(Wrapped(start), contract, selector, Repeat(Call(contract, selector, [a]), n))
         == Some(Wrapped(start + Times(n, a)))
  {
    if n > 0 {
      Increments(start, contract, selector, a, n - 1);
      var call := Call(contract, selector, [a]);
      OneMoreCall(Wrapped(start), contract, selector, call, n);
      AddWrapped(start + Times(n - 1, a), a);
      Distribute(n, a);
    }
  }

  lemma OneMoreCall(counter: Felt, contract: Felt, selector: Felt, call: Call, n: nat)
    requires n > 0 && call.to == contract && call.selector == selector && |call.calldata| == 1
    requires RunCalls(counter, contract, selector, Repeat(call, n - 1)).Some?
    ensures RunCalls(counter, contract, selector, Repeat(call, n))
         == Some(Add(RunCalls(counter, contract, selector, Repeat(call, n - 1)).value, call.calldata[0]))
  {
    assert Repeat(call, n)[..n - 1] == Repeat(call, n - 1);
  }

  lemma Distribute(n: nat, x: nat)
    requires n > 0
    ensures Times(n - 1, x) + x == Times(n, x)
  {
  }

  lemma {:induction false} BlocksOfIncrements(start: nat, contract: Felt, selector: Felt, a: Felt, n: nat, k: nat)
    ensures RunBlocks(Wrapped(start), contract, selector, Repeat(Call(contract, selector, [a]), n), k)
         == Some(Wrapped(start + Times(k, Times(n, a))))
  {
    if k > 0 {
      BlocksOfIncrements(start, contract, selector, a, n, k - 1);
      Increments(start + Times(k - 1, Times(n, a)), contract, selector, a, n);
      Distribute(k, Times(n, a));
    }
  }

  lemma {:induction false} ParseIncrements(contract: string, selector: string, amount: U64, n: nat)
    requires Hex.ParseFelt(contract).Some? && Hex.ParseFelt(selector).Some?
    ensures ParseCalls(Repeat(IncrementCall(contract, selector, amount), n))
         == Some(Repeat(Call(Hex.ParseFelt(contract).value, Hex.ParseFelt(selector).value, [amount]), n))
  {
    if n > 0 {
      ParseIncrements(contract, selector, amount, n - 1);
      var call := Call(Hex.ParseFelt(contract).value, Hex.ParseFelt(selector).value, [amount]);
      var text := IncrementCall(contract, selector, amount);
      assert Repeat(text, n)[..n - 1] == Repeat(text, n - 1);
      assert Repeat(call, n) == Repeat(call, n - 1) + [call];
      ParseSingle(Hex.Print(amount));
      Hex.PrintParseFelt(amount);
    } else {
      assert Repeat(Call(Hex.ParseFelt(contract).value, Hex.ParseFelt(selector).value, [amount]), 0) == [];
    }
  }

  /** The value the verification loop expects after block `k`, if its 64-bit arithmetic does not overflow. */
  function Expected(initial: nat, amount: U64, n: U32, k: U32): Option<nat> {
    var perBlock := Times(amount, n);
    var value := initial + Times(perBlock, k);
    if perBlock < TWO_64 && value < TWO_64 then Some(value) else None
  }

  /** Calldata text parsed, decoded and run for `k` blocks. */
  function RunEncoded(counter: Felt, contract: Felt, selector: Felt, texts: seq<string>, k: nat): Option<Felt> {
    match ParseAll(texts)
    case None => None
    case Some(data) =>
      match Decode(data)
      case None => None
      case Some(calls) => RunBlocks(counter, contract, selector, calls, k)
  }

  /**
   Encoded, parsed, decoded and run for `k` blocks, `n` increments by `amount` raise any counter by
   k * n * amount in the field; whenever the loop's 64-bit arithmetic does not overflow, the
   counter is the value the loop expects.
   */
  lemma CounterAsExpected(contract: string, selector: string, initial: Felt, amount: U64, n: U32, k: U32)
    requires Hex.ParseFelt(contract).Some? && Hex.ParseFelt(selector).Some?
    ensures var after := RunEncoded(initial, Hex.ParseFelt(contract).value, Hex.ParseFelt(selector).value,
                                    Encode(Repeat(IncrementCall(contract, selector, amount), n)), k);
            && after == Some(Wrapped(initial + Times(k, Times(n, amount))))
            && (Expected(initial, amount, n, k).Some? ==> after == Some(Expected(initial, amount, n, k).value))
  {
    DecodeEncode(Repeat(IncrementCall(contract, selector, amount), n));
    ParseIncrements(contract, selector, amount, n);
    BlocksOfIncrements(initial, Hex.ParseFelt(contract).value, Hex.ParseFelt(selector).value, amount, n, k);
    ExpectedValue(initial, amount, n, k);
  }

  lemma ExpectedValue(initial: Felt, amount: U64, n: U32, k: U32)
    ensures Wrapped(initial) == initial
    ensures Expected(initial, amount, n, k).Some? ==>
              Wrapped(initial + Times(k, Times(n, amount))) == Expected(initial, amount, n, k).value
  {
    Reorder(amount, n, k);
  }

  lemma Reorder(a: nat, n: nat, k: nat)
    ensures Times(k, Times(n, a)) == Times(Times(a, n), k)
  {
  }

  // ----- the verification loop

  /** Runs one block's calls on the contract; a call that cannot be made reverts the block. */
  method ExecuteCalls(c: Counter, contract: Felt, selector: Felt, calls: seq<Call>) returns (ok: bool)
    modifies c
    ensures ok <==> RunCalls(old(c.counter), contract, selector, calls).Some?
    ensures c.counter == if ok then RunCalls(old(c.counter), contract, selector, calls).value else old(c.counter)
  {
    var before := c.counter;
    for i := 0 to |calls|
      invariant RunCalls(before, contract, selector, calls[..i]) == Some(c.counter)
    {
      var call := calls[i];
      assert calls[..i + 1][..i] == calls[..i];
      if call.to != contract || call.selector != selector || |call.calldata| != 1 {
        RevertStays(before, contract, selector, calls, i + 1);
        c.counter := before;
        return false;
      }
      c.Increment(call.calldata[0]);
    }
    assert calls[..|calls|] == calls;
    ok := true;
  }

  lemma {:induction false} RevertStays(counter: Felt, contract: Felt, selector: Felt, calls: seq<Call>, m: nat)
    requires m <= |calls| && RunCalls(counter, contract, selector, calls[..m]).None?
    ensures RunCalls(counter, contract, selector, calls).None?
    decreases |calls| - m
  {
    if m < |calls| {
      assert calls[..m + 1][..m] == calls[..m];
      RevertStays(counter, contract, selector, calls, m + 1);
    } else {
      assert calls[..m] == calls;
    }
  }

  /** One block of `total` takes the counter `before` around the field to the low 64 bits of `total`. */
  predicate WrapsTo(before: Felt, total: nat) {
    before + total == PRIME + total % TWO_64
  }

  /**
   From a readable counter the final value still is readable.  Any other counts as 0, and then one
   block at most can pass: it has to wrap the field to the low 64 bits of its increments.
   */
  predicate Passes(start: Felt, total: nat, blocks: nat) {
    || blocks == 0
    || (start < TWO_64 && start + Times(total, blocks) < TWO_64)
    || (start >= TWO_64 && blocks == 1 && WrapsTo(start, total))
  }

  /** An unreadable start that passes: one block of 2^64 in all takes the counter around the field to 0. */
  lemma UnreadableStartPasses()
    ensures Passes(PRIME - TWO_64, Times(0x2_0000_0000, 0x8000_0000), 1)
    ensures PRIME - TWO_64 >= TWO_64
  {
    assert Times(0x2_0000_0000, 0x8000_0000) == TWO_64;
  }

  /** The counter after `k` blocks that pass. */
  function Reached(start: Felt, total: nat, k: nat): nat {
    if start >= TWO_64 && k > 0 then total % TWO_64 else start + Times(total, k)
  }

  /**
   Proves `blocks` blocks of `n` increments by `amount` and checks the counter after each, in
   wrapping 64-bit arithmetic; a counter that does not read as a 64-bit number counts as 0 at the
   start and fails a check.
   */
  method VerifyBlocks(c: Counter, contract: Felt, selector: Felt, amount: U64, n: U32, blocks: U32) returns (ok: bool)
    modifies c
    ensures ok <==> Passes(old(c.counter), Times(amount, n), blocks)
    ensures ok ==> c.counter == Reached(old(c.counter), Times(amount, n), blocks)
  {
    var initial: nat := if c.counter < TWO_64 then c.counter else 0;
    ghost var start, total := c.counter, Times(amount, n);
    var perBlock := Times(amount, n) % TWO_64;
    for i := 0 to blocks
      invariant Passes(start, total, i) && c.counter == Reached(start, total, i)
    {
      ghost var before := c.counter;
      var included := ProveBlock(c, contract, selector, amount, n);
      var expected := (initial + Times(perBlock, i + 1)) % TWO_64;
      ok := included && c.counter < TWO_64 && c.counter == expected;
      CheckStep(start, total, i, before, initial, expected);
      PassesEarlier(start, total, i + 1, blocks);
      if !ok {
        return;
      }
    }
    ok := true;
  }

  /** One block of `n` increments, which always goes through. */
  method ProveBlock(c: Counter, contract: Felt, selector: Felt, amount: U64, n: U32) returns (included: bool)
    modifies c
    ensures included && c.counter == Wrapped(old(c.counter) + Times(amount, n))
    ensures Times(amount, n) + TWO_64 < PRIME
  {
    BlockStep(c.counter, amount, n, contract, selector);
    included := ExecuteCalls(c, contract, selector, Repeat(Call(contract, selector, [amount]), n));
  }

  lemma PassesEarlier(start: Felt, total: nat, k: nat, blocks: nat)
    requires k <= blocks
    ensures Passes(start, total, blocks) ==> Passes(start, total, k)
  {
    TimesMonotone(total, k, blocks);
  }

  /** Where `i` blocks passed, the next check passes exactly when `i + 1` blocks do. */
  lemma CheckStep(start: Felt, total: nat, i: nat, before: Felt, initial: nat, expected: nat)
    requires total + TWO_64 < PRIME
    requires Passes(start, total, i) && before == Reached(start, total, i)
    requires initial == if start < TWO_64 then start else 0
    requires expected == (initial + Times(total % TWO_64, i + 1)) % TWO_64
    ensures var after := Wrapped(before + total);
            && (after < TWO_64 && after == expected <==> Passes(start, total, i + 1))
            && (Passes(start, total, i + 1) ==> after == Reached(start, total, i + 1))
  {
    if start < TWO_64 {
      NothingYet(total);
      ReadableStep(start, total, i, before, Wrapped(before + total), expected);
    } else if i == 0 {
      NothingYet(total);
      FirstFromUnreadable(start, total, expected);
    } else {
      SecondFails(start, total);
    }
  }

  lemma NothingYet(total: nat)
    ensures Times(total, 0) == 0
  {
  }

  lemma BlockStep(before: Felt, amount: U64, n: U32, contract: Felt, selector: Felt)
    ensures Times(amount, n) + TWO_64 < PRIME
    ensures RunCalls(before, contract, selector, Repeat(Call(contract, selector, [amount]), n))
         == Some(Wrapped(before + Times(amount, n)))
  {
    TimesBound(amount, n);
    WrappedSmall(before);
    Increments(before, contract, selector, amount, n);
    TimesCommutes(amount, n);
  }

  /** A block from a readable counter: the check passes exactly when the new value is readable. */
  lemma ReadableStep(initial: U64, total: nat, i: nat, before: Felt, after: Felt, expected: nat)
    requires total + TWO_64 < PRIME
    requires before == initial + Times(total, i) && before < TWO_64
    requires after == Wrapped(before + total)
    requires expected == (initial + Times(total % TWO_64, i + 1)) % TWO_64
    ensures after == initial + Times(total, i + 1)
    ensures after < TWO_64 ==> after == expected
  {
    WrappedSmall(before + total);
    TimesStep(total, i, i + 1);
    if after < TWO_64 {
      NoWrapBelow(total, i + 1, initial);
    }
  }

  lemma WrapOnce(x: Felt, y: nat)
    requires y < PRIME
    ensures Wrapped(x + y) == if x + y < PRIME then x + y else x + y - PRIME
  {
    if x + y < PRIME {
      WrappedSmall(x + y);
    } else {
      WrappedSmall(x + y - PRIME);
      DropOne(x + y - PRIME);
    }
  }

  /** The first block from an unreadable counter, which counts as 0. */
  lemma FirstFromUnreadable(start: Felt, total: nat, expected: nat)
    requires start >= TWO_64 && total + TWO_64 < PRIME
    requires expected == Times(total % TWO_64, 1) % TWO_64
    ensures Wrapped(start + total) < TWO_64 && Wrapped(start + total) == expected <==> WrapsTo(start, total)
    ensures WrapsTo(start, total) ==> Wrapped(start + total) == total % TWO_64
  {
    LowBitsOnce(total);
    WrapOnce(start, total);
  }

  lemma LowBitsOnce(total: nat)
    ensures Times(total % TWO_64, 1) % TWO_64 == total % TWO_64
  {
  }

  lemma SmallNeverWraps(start: Felt, total: U64)
    ensures !WrapsTo(start, total)
  {
  }

  /** Where one block has wrapped the field, the next ends above 64 bits. */
  lemma SecondFails(start: Felt, total: nat)
    requires WrapsTo(start, total) && total + TWO_64 < PRIME
    ensures TWO_64 <= total % TWO_64 + total < PRIME
    ensures Wrapped(total % TWO_64 + total) >= TWO_64
  {
    if total < TWO_64 {
      SmallNeverWraps(start, total);
    }
    WrappedSmall(total % TWO_64 + total);
  }

  lemma WrappedSmall(x: nat)
    requires x < PRIME
    ensures Wrapped(x) == x
  {
  }

  lemma TimesStep(total: nat, i: nat, blocks: nat)
    requires i < blocks
    ensures Times(total, i) + total == Times(total, i + 1) <= Times(total, blocks)
  {
    TimesMonotone(total, i + 1, blocks);
  }

  lemma TimesCommutes(a: nat, b: nat)
    ensures Times(a, b) == Times(b, a)
  {
  }

  lemma TimesMonotone(a: nat, b: nat, c: nat)
    requires b <= c
    ensures Times(a, b) <= Times(a, c)
  {
  }

  lemma TimesBound(a: U64, n: U32)
    ensures Times(a, n) + TWO_64 < PRIME
  {
    TimesMonotone(a, n, TWO_32);
  }

  lemma NoWrapBelow(total: nat, k: nat, initial: nat)
    requires k >= 1 && initial + Times(total, k) < TWO_64
    ensures (initial + Times(total % TWO_64, k)) % TWO_64 == initial + Times(total, k)
  {
    TimesMonotone(total, 1, k);
  }
}
