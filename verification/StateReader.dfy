/**
 Execution over prefetched state.  The synchronous reader cannot call the node, so a key that was
 not prefetched stops execution; otherwise execution is exactly execution over the block state.
 */
module StateReader {
  import opened Wrappers
  import opened Felts
  import opened State

  datatype CompiledClass = CompiledClass(code: seq<Felt>)

  datatype Request =
    | StorageAt(address: Felt, key: Felt)
    | NonceAt(address: Felt)
    | ClassHashAt(address: Felt)
    | ClassAt(classHash: Felt)
    | CompiledClassHashAt(classHash: Felt)

  datatype Answer = Word(value: Felt) | Code(compiled: CompiledClass)

  datatype ReadError = StateReadError

  /** The state of the base block; a class hash without code is not declared. */
  datatype Block = Block(
    storage: (Felt, Felt) -> Felt,
    nonce: Felt -> Felt,
    classHash: Felt -> Felt,
    code: Felt -> Option<CompiledClass>,
    compiledHash: Felt -> Felt)

  type Reader = Request -> Result<Answer, ReadError>

  // ----- the two readers

  /** The synchronous RPC reader answers nothing. */
  function RpcRead(r: Request): Result<Answer, ReadError> {
    Err(StateReadError)
  }

  function SimulatedRead(maps: StateMaps, cache: map<Felt, CompiledClass>, r: Request): Result<Answer, ReadError> {
    match r
    case StorageAt(a, k) => if (a, k) in maps.storage then Ok(Word(maps.storage[(a, k)])) else RpcRead(r)
    case NonceAt(a) => if a in maps.nonces then Ok(Word(maps.nonces[a])) else RpcRead(r)
    case ClassHashAt(a) => if a in maps.classHashes then Ok(Word(maps.classHashes[a])) else RpcRead(r)
    case ClassAt(h) => if h in cache then Ok(Code(cache[h])) else RpcRead(r)
    case CompiledClassHashAt(_) => RpcRead(r)
  }

  function BlockRead(b: Block, r: Request): Result<Answer, ReadError> {
    match r
    case StorageAt(a, k) => Ok(Word(b.storage(a, k)))
    case NonceAt(a) => Ok(Word(b.nonce(a)))
    case ClassHashAt(a) => Ok(Word(b.classHash(a)))
    case ClassAt(h) => if b.code(h).Some? then Ok(Code(b.code(h).value)) else Err(StateReadError)
    case CompiledClassHashAt(h) => Ok(Word(b.compiledHash(h)))
  }

  /** Compiled class hashes are never prefetched: the simulated reader always passes them on. */
  predicate Prefetched(maps: StateMaps, cache: map<Felt, CompiledClass>, r: Request) {
    match r
    case StorageAt(a, k) => (a, k) in maps.storage
    case NonceAt(a) => a in maps.nonces
    case ClassHashAt(a) => a in maps.classHashes
    case ClassAt(h) => h in cache
    case CompiledClassHashAt(_) => false
  }

  /** What was prefetched is what the block holds. */
  ghost predicate AgreesWith(maps: StateMaps, cache: map<Felt, CompiledClass>, b: Block) {
    && (forall s :: s in maps.storage ==> maps.storage[s] == b.storage(s.0, s.1))
    && (forall a :: a in maps.nonces ==> maps.nonces[a] == b.nonce(a))
    && (forall a :: a in maps.classHashes ==> maps.classHashes[a] == b.classHash(a))
    && (forall h :: h in cache ==> b.code(h) == Some(cache[h]))
  }

  // ----- executing over a reader

  datatype Action<O> = Read(request: Request) | Finish(output: O)

  /** Any deterministic execution: what it does next depends on all answers so far. */
  type Program<!O> = seq<Answer> -> Action<O>

  datatype Outcome<O> = Finished(output: O) | Stopped(request: Request) | Unfinished

  /** Runs at most `steps` reads; a failed read stops the execution. */
  function Execute<O>(read: Reader, p: Program<O>, history: seq<Answer>, steps: nat): Outcome<O>
    decreases steps
  {
    match p(history)
    case Finish(output) => Finished(output)
    case Read(r) =>
      if steps == 0 then Unfinished
      else match read(r)
        case Err(_) => Stopped(r)
        case Ok(answer) => Execute(read, p, history + [answer], steps - 1)
  }

  /** The requests that run makes, the failing one included. */
  function Requests<O>(read: Reader, p: Program<O>, history: seq<Answer>, steps: nat): seq<Request>
    decreases steps
  {
    match p(history)
    case Finish(_) => []
    case Read(r) =>
      if steps == 0 then []
      else match read(r)
        case Err(_) => [r]
        case Ok(answer) => [r] + Requests(read, p, history + [answer], steps - 1)
  }

  /** The first request that was not prefetched. */
  function FirstMiss(maps: StateMaps, cache: map<Felt, CompiledClass>, rs: seq<Request>): Option<Request> {
    if rs == [] then None
    else if !Prefetched(maps, cache, rs[0]) then Some(rs[0])
    else FirstMiss(maps, cache, rs[1..])
  }

  lemma {:induction false} FirstMissMeaning(maps: StateMaps, cache: map<Felt, CompiledClass>, rs: seq<Request>)
    ensures FirstMiss(maps, cache, rs).None? <==> forall r :: r in rs ==> Prefetched(maps, cache, r)
  {
    if rs != [] {
      FirstMissMeaning(maps, cache, rs[1..]);
      assert rs == [rs[0]] + rs[1..];
      assert forall r :: r in rs <==> r == rs[0] || r in rs[1..];
    }
  }

  lemma ReadersAgree(maps: StateMaps, cache: map<Felt, CompiledClass>, b: Block, r: Request)
    requires AgreesWith(maps, cache, b)
    ensures SimulatedRead(maps, cache, r) == if Prefetched(maps, cache, r) then BlockRead(b, r) else Err(StateReadError)
  {
    match r
    case StorageAt(a, k) => assert (a, k) in maps.storage ==> maps.storage[(a, k)] == b.storage((a, k).0, (a, k).1);
    case NonceAt(_) =>
    case ClassHashAt(_) =>
    case ClassAt(_) =>
    case CompiledClassHashAt(_) =>
  }

  /**
   Prefetched execution refines execution over the block: for every program and any number of
   steps it gives the same outcome if all the block run reads was prefetched, and otherwise stops
   on the first request that was not.
   */
  lemma {:induction false} PrefetchedRefinesBlock<O>(maps: StateMaps, cache: map<Felt, CompiledClass>, b: Block,
                                                     p: Program<O>, history: seq<Answer>, steps: nat)
    requires AgreesWith(maps, cache, b)
    ensures var full := r => BlockRead(b, r);
            var miss := FirstMiss(maps, cache, Requests(full, p, history, steps));
            Execute(r => SimulatedRead(maps, cache, r), p, history, steps)
              == if miss.Some? then Stopped(miss.value) else Execute(full, p, history, steps)
    decreases steps
  {
    match p(history)
    case Finish(_) =>
    case Read(r) =>
      ReadersAgree(maps, cache, b, r);
      if steps > 0 && BlockRead(b, r).Ok? {
        PrefetchedRefinesBlock(maps, cache, b, p, history + [BlockRead(b, r).value], steps - 1);
      }
  }

  // ----- prefetching the classes

  /** The prefetched state refers to the class; class hash 0 stands for no contract. */
  ghost predicate Wanted(maps: StateMaps, h: Felt) {
    h != 0 && (h in maps.declared || exists a :: a in maps.classHashes && maps.classHashes[a] == h)
  }

  class ContractClassManager {
    var cache: map<Felt, CompiledClass>

    constructor ()
      ensures cache == map[]
    {
      cache := map[];
    }

    method SetAndCompile(h: Felt, c: CompiledClass)
      modifies this
      ensures cache == old(cache)[h := c]
    {
      cache := cache[h := c];
    }
  }

  /** The classes `hs` are cached as fetched, and every other entry is as it was. */
  ghost predicate Filled(fetch: Felt -> Result<CompiledClass, string>, before: map<Felt, CompiledClass>,
                         after: map<Felt, CompiledClass>, hs: iset<Felt>)
  {
    forall h :: if h in hs then fetch(h).Ok? && h in after && after[h] == fetch(h).value
                else (h in after <==> h in before) && (h in before ==> after[h] == before[h])
  }

  method PrefetchClassesIntoCache(fetch: Felt -> Result<CompiledClass, string>, maps: StateMaps, manager: ContractClassManager)
      returns (ok: bool)
    modifies manager
    ensures ok <==> forall h :: Wanted(maps, h) ==> fetch(h).Ok?
    ensures ok ==> Filled(fetch, old(manager.cache), manager.cache, iset h | Wanted(maps, h))
  {
    var todo := maps.classHashes.Values + maps.declared.Keys;
    ghost var before, wanted := manager.cache, iset h | Wanted(maps, h);
    assert forall h :: h in wanted <==> h != 0 && h in todo;
    while todo != {}
      invariant forall h :: h in todo && h != 0 ==> h in wanted
      invariant Filled(fetch, before, manager.cache, iset h | h in wanted && h !in todo)
    {
      var h :| h in todo;
      todo := todo - {h};
      if h != 0 {
        var compiled := fetch(h);
        if compiled.Err? {
          assert Wanted(maps, h);
          return false;
        }
        manager.SetAndCompile(h, compiled.value);
      }
    }
    ok := true;
  }

  /**
   After a complete prefetch, every declared class and the class of every prefetched contract reads as
   in the block: a non-zero class hash that the prefetched state mentions has its code in the cache.
   */
  lemma ClassesNeverMiss(maps: StateMaps, fetch: Felt -> Result<CompiledClass, string>, before: map<Felt, CompiledClass>,
                         cache: map<Felt, CompiledClass>, b: Block)
    requires Filled(fetch, before, cache, iset h | Wanted(maps, h))
    requires forall h :: fetch(h).Ok? ==> b.code(h) == Some(fetch(h).value)
    requires AgreesWith(maps, before, b)
    ensures AgreesWith(maps, cache, b)
    ensures forall h :: h in maps.declared && h != 0 ==> SimulatedRead(maps, cache, ClassAt(h)) == BlockRead(b, ClassAt(h))
    ensures forall a :: a in maps.classHashes && maps.classHashes[a] != 0 ==>
              SimulatedRead(maps, cache, ClassAt(maps.classHashes[a])) == BlockRead(b, ClassAt(b.classHash(a)))
  {
    forall h | h in cache
      ensures b.code(h) == Some(cache[h])
    {
      if !Wanted(maps, h) {
        assert h in before;
      }
    }
    forall a | a in maps.classHashes && maps.classHashes[a] != 0
      ensures SimulatedRead(maps, cache, ClassAt(maps.classHashes[a])) == BlockRead(b, ClassAt(b.classHash(a)))
    {
      assert Wanted(maps, maps.classHashes[a]);
    }
  }

  // ----- what execute makes of the results

  datatype Message = Message(from: Felt, to: Felt, payload: seq<Felt>)

  /** One transaction's outcome: a revert reason, and the sorted messages of each of its calls. */
  datatype TxOutput = TxOutput(revertError: Option<string>, callMessages: seq<seq<Message>>)

  datatype ExecutorError = ExecutionFailed(reason: string) | Reverted(txHash: Felt, reason: string)

  function Flatten<T>(parts: seq<seq<T>>): seq<T> {
    if parts == [] then [] else Flatten(parts[..|parts| - 1]) + parts[|parts| - 1]
  }

  function AllMessages(outputs: seq<TxOutput>): seq<Message> {
    if outputs == [] then []
    else AllMessages(outputs[..|outputs| - 1]) + Flatten(outputs[|outputs| - 1].callMessages)
  }

  /** How many messages the first `j` calls of a transaction send. */
  function MessagesOfCalls(calls: seq<seq<Message>>, j: nat): nat
    requires j <= |calls|
  {
    if j == 0 then 0 else MessagesOfCalls(calls, j - 1) + |calls[j - 1]|
  }

  /** How many messages the first `i` transactions send. */
  function MessagesOfTxs(outputs: seq<TxOutput>, i: nat): nat
    requires i <= |outputs|
  {
    if i == 0 then 0
    else MessagesOfTxs(outputs, i - 1) + MessagesOfCalls(outputs[i - 1].callMessages, |outputs[i - 1].callMessages|)
  }

  /** Every message stands where the messages before it end, and there are no others. */
  ghost predicate InOrder(messages: seq<Message>, outputs: seq<TxOutput>) {
    && |messages| == MessagesOfTxs(outputs, |outputs|)
    && forall i, j, k :: 0 <= i < |outputs| && 0 <= j < |outputs[i].callMessages| && 0 <= k < |outputs[i].callMessages[j]| ==>
         InPlace(messages, outputs, i, j, k)
  }

  /** Message `k` of call `j` of transaction `i` comes after exactly the messages before it. */
  predicate InPlace(messages: seq<Message>, outputs: seq<TxOutput>, i: nat, j: nat, k: nat)
    requires i < |outputs| && j < |outputs[i].callMessages| && k < |outputs[i].callMessages[j]|
  {
    var at := MessagesOfTxs(outputs, i) + MessagesOfCalls(outputs[i].callMessages, j) + k;
    at < |messages| && messages[at] == outputs[i].callMessages[j][k]
  }

  lemma {:induction false} CallsOfFront(calls: seq<seq<Message>>, n: nat, j: nat)
    requires j <= n <= |calls|
    ensures MessagesOfCalls(calls[..n], j) == MessagesOfCalls(calls, j)
  {
    if j > 0 {
      CallsOfFront(calls, n, j - 1);
    }
  }

  lemma {:induction false} TxsOfFront(outputs: seq<TxOutput>, n: nat, i: nat)
    requires i <= n <= |outputs|
    ensures MessagesOfTxs(outputs[..n], i) == MessagesOfTxs(outputs, i)
  {
    if i > 0 {
      TxsOfFront(outputs, n, i - 1);
    }
  }

  lemma {:induction false} FlattenLength(calls: seq<seq<Message>>)
    ensures |Flatten(calls)| == MessagesOfCalls(calls, |calls|)
  {
    if calls != [] {
      var n := |calls| - 1;
      FlattenLength(calls[..n]);
      CallsOfFront(calls, n, n);
    }
  }

  lemma {:induction false} FlattenAt(calls: seq<seq<Message>>, j: nat, k: nat)
    requires j < |calls| && k < |calls[j]|
    ensures var at := MessagesOfCalls(calls, j) + k; at < |Flatten(calls)| && Flatten(calls)[at] == calls[j][k]
  {
    var n := |calls| - 1;
    FlattenLength(calls[..n]);
    CallsOfFront(calls, n, j);
    CallsOfFront(calls, n, n);
    if j < n {
      FlattenAt(calls[..n], j, k);
    }
  }

  lemma {:induction false} AllMessagesLength(outputs: seq<TxOutput>)
    ensures |AllMessages(outputs)| == MessagesOfTxs(outputs, |outputs|)
  {
    if outputs != [] {
      var n := |outputs| - 1;
      AllMessagesLength(outputs[..n]);
      TxsOfFront(outputs, n, n);
      FlattenLength(outputs[n].callMessages);
    }
  }

  lemma {:induction false} AllMessagesAt(outputs: seq<TxOutput>, i: nat, j: nat, k: nat)
    requires i < |outputs| && j < |outputs[i].callMessages| && k < |outputs[i].callMessages[j]|
    ensures InPlace(AllMessages(outputs), outputs, i, j, k)
  {
    var n := |outputs| - 1;
    var front, last := AllMessages(outputs[..n]), Flatten(outputs[n].callMessages);
    assert AllMessages(outputs) == front + last;
    AllMessagesLength(outputs[..n]);
    TxsOfFront(outputs, n, i);
    TxsOfFront(outputs, n, n);
    if i < n {
      AllMessagesAt(outputs[..n], i, j, k);
    } else {
      FlattenAt(outputs[n].callMessages, j, k);
    }
  }

  lemma MessagesInOrder(outputs: seq<TxOutput>)
    ensures InOrder(AllMessages(outputs), outputs)
  {
    AllMessagesLength(outputs);
    forall i, j, k | 0 <= i < |outputs| && 0 <= j < |outputs[i].callMessages| && 0 <= k < |outputs[i].callMessages[j]|
      ensures InPlace(AllMessages(outputs), outputs, i, j, k)
    {
      AllMessagesAt(outputs, i, j, k);
    }
  }

  /** `outputs` are the values of results that are all Ok. */
  predicate AllOk(results: seq<Result<TxOutput, string>>, outputs: seq<TxOutput>) {
    |outputs| == |results| && forall i :: 0 <= i < |results| ==> results[i] == Ok(outputs[i])
  }

  /**
   Messages are collected only when no transaction failed or reverted, each at the place that counts
   all messages before it; a failure is reported before any revert, and the revert reported is the
   first, under its own transaction hash.  The revert check stops at the shorter of the two lists.
   */
  method CollectMessages(results: seq<Result<TxOutput, string>>, hashes: seq<Felt>)
      returns (r: Result<seq<Message>, ExecutorError>)
    ensures r.Ok? <==>
              && (forall i :: 0 <= i < |results| ==> results[i].Ok?)
              && (forall i :: 0 <= i < |results| && i < |hashes| ==> results[i].value.revertError.None?)
    ensures r.Ok? ==> exists outputs :: AllOk(results, outputs) && InOrder(r.value, outputs)
    ensures r.Err? && r.error.ExecutionFailed? ==>
              exists i :: 0 <= i < |results| && results[i] == Err(r.error.reason) && forall j :: 0 <= j < i ==> results[j].Ok?
    ensures r.Err? && r.error.Reverted? ==>
              && (forall j :: 0 <= j < |results| ==> results[j].Ok?)
              && exists i :: 0 <= i < |results| && i < |hashes| && results[i].value.revertError == Some(r.error.reason)
                             && r.error.txHash == hashes[i]
                             && forall j :: 0 <= j < i ==> results[j].value.revertError.None?
  {
    var outputs: seq<TxOutput> := [];
    for i := 0 to |results|
      invariant AllOk(results[..i], outputs)
    {
      if results[i].Err? {
        assert forall j :: 0 <= j < i ==> results[..i][j] == results[j];
        return Err(ExecutionFailed(results[i].error));
      }
      outputs := outputs + [results[i].value];
    }
    assert results[..|results|] == results;
    for i := 0 to if |results| <= |hashes| then |results| else |hashes|
      invariant forall j :: 0 <= j < i ==> outputs[j].revertError.None?
    {
      if outputs[i].revertError.Some? {
        return Err(Reverted(hashes[i], outputs[i].revertError.value));
      }
    }
    var messages: seq<Message> := [];
    for i := 0 to |outputs|
      invariant messages == AllMessages(outputs[..i])
    {
      assert outputs[..i + 1][..i] == outputs[..i];
      messages := messages + Flatten(outputs[i].callMessages);
    }
    assert outputs[..|outputs|] == outputs;
    MessagesInOrder(outputs);
    r := Ok(messages);
  }
}
