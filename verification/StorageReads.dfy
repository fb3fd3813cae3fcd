/**
 From the reads of an execution to a storage-proof query, through the chunked fetch, and back to
 one leaf and one storage proof per address.
 */
module StorageReads {
  import opened Wrappers
  import opened Felts
  import opened State
  import opened StorageQuery
  import opened StorageMerge

  const MAX_KEYS_PER_REQUEST: nat := 100

  /** Contract addresses are below 2^251. */
  const ADDRESS_BOUND: nat := 0x0800000000000000000000000000000000000000000000000000000000000000

  predicate IsAddress(a: Felt) {
    a < ADDRESS_BOUND
  }

  datatype ProviderError = Rpc(message: string) | Panicked | InvalidProofResponse

  /** The RPC endpoint: one answer or failure per request. */
  type Node = Query -> Result<StorageProof, string>

  // ----- fetching

  function FetchUpTo(node: Node, chunks: seq<Query>, k: nat): (r: Result<seq<StorageProof>, string>)
    requires k <= |chunks|
    ensures r.Ok? ==> |r.value| == k
  {
    if k == 0 then Ok([])
    else match FetchUpTo(node, chunks, k - 1)
      case Err(e) => Err(e)
      case Ok(proofs) =>
        match node(chunks[k - 1])
        case Err(e) => Err(e)
        case Ok(p) => Ok(proofs + [p])
  }

  function Fetch(node: Node, q: Query): Result<StorageProof, ProviderError> {
    if CountTotalKeys(q) <= MAX_KEYS_PER_REQUEST then
      match node(q)
      case Ok(p) => Ok(p)
      case Err(e) => Err(Rpc(e))
    else
      var chunks := Split(q, MAX_KEYS_PER_REQUEST);
      match FetchUpTo(node, chunks, |chunks|)
      case Err(e) => Err(Rpc(e))
      case Ok(proofs) =>
        match Merge(proofs, chunks, q)
        case Some(p) => Ok(p)
        case None => Err(Panicked)
  }

  method FetchProofs(node: Node, q: Query) returns (r: Result<StorageProof, ProviderError>)
    ensures r == Fetch(node, q)
  {
    if CountTotalKeys(q) <= MAX_KEYS_PER_REQUEST {
      var single := node(q);
      match single {
        case Ok(p) => return Ok(p);
        case Err(e) => return Err(Rpc(e));
      }
    }
    var chunks := Split(q, MAX_KEYS_PER_REQUEST);
    var proofs: seq<StorageProof> := [];
    for k := 0 to |chunks|
      invariant FetchUpTo(node, chunks, k) == Ok(proofs)
    {
      var answer := node(chunks[k]);
      if answer.Err? {
        FetchErrStays(node, chunks, k + 1, |chunks|);
        return Err(Rpc(answer.error));
      }
      proofs := proofs + [answer.value];
    }
    var merged := MergeStorageProofs(proofs, chunks, q);
    r := if merged.Some? then Ok(merged.value) else Err(Panicked);
  }

  lemma {:induction false} FetchErrStays(node: Node, chunks: seq<Query>, m: nat, n: nat)
    requires m <= n <= |chunks|
    requires FetchUpTo(node, chunks, m).Err?
    ensures FetchUpTo(node, chunks, n) == FetchUpTo(node, chunks, m)
  {
    if m < n {
      FetchErrStays(node, chunks, m, n - 1);
    }
  }

  /** A node that, whenever it answers, answers from the block's tries. */
  ghost predicate Honest(chain: Chain, node: Node) {
    forall q :: node(q).Ok? ==> node(q).value == Answer(chain, q)
  }

  /** The requests a fetch makes, the later ones only while the earlier ones are answered. */
  function RequestsOf(q: Query): seq<Query> {
    if CountTotalKeys(q) <= MAX_KEYS_PER_REQUEST then [q] else Split(q, MAX_KEYS_PER_REQUEST)
  }

  lemma {:induction false} HonestChunks(chain: Chain, node: Node, chunks: seq<Query>, k: nat)
    requires Honest(chain, node) && k <= |chunks|
    ensures var r := FetchUpTo(node, chunks, k);
            && (r.Ok? <==> forall i :: 0 <= i < k ==> node(chunks[i]).Ok?)
            && (r.Ok? ==> r.value == AnswerAll(chain, chunks[..k]))
            && (r.Err? ==> exists i :: 0 <= i < k && node(chunks[i]) == Err(r.error))
  {
    if k > 0 {
      HonestChunks(chain, node, chunks, k - 1);
      if FetchUpTo(node, chunks, k).Ok? {
        assert AnswerAll(chain, chunks[..k]) == AnswerAll(chain, chunks[..k - 1]) + [Answer(chain, chunks[k - 1])];
      }
    }
  }

  lemma HonestSplit(chain: Chain, node: Node, q: Query)
    requires Honest(chain, node) && CountTotalKeys(q) > MAX_KEYS_PER_REQUEST && Mergeable(q.storage)
    ensures var chunks := Split(q, MAX_KEYS_PER_REQUEST);
            && (Fetch(node, q).Ok? <==> forall i :: 0 <= i < |chunks| ==> node(chunks[i]).Ok?)
            && (Fetch(node, q).Ok? ==> Fetch(node, q).value == Answer(chain, q))
            && (Fetch(node, q).Err? ==>
                  && Fetch(node, q).error.Rpc?
                  && exists i :: 0 <= i < |chunks| && node(chunks[i]) == Err(Fetch(node, q).error.message))
  {
    var chunks := Split(q, MAX_KEYS_PER_REQUEST);
    HonestChunks(chain, node, chunks, |chunks|);
    assert chunks[..|chunks|] == chunks;
    MergeRefinesSingle(chain, q, MAX_KEYS_PER_REQUEST);
  }

  /**
   Against an honest node, fetching a mergeable query succeeds exactly when the node answers all of
   its requests, none of which has more than 100 keys; it then gives the answer to the whole query,
   and otherwise the node's own failure on one of them.  It never panics.
   */
  lemma FetchRefinesSingle(chain: Chain, node: Node, q: Query)
    requires Honest(chain, node) && Mergeable(q.storage)
    ensures forall x :: x in RequestsOf(q) ==> CountTotalKeys(x) <= 100
    ensures |RequestsOf(q)| == if CountTotalKeys(q) <= 100 then 1 else (CountTotalKeys(q) + 99) / 100
    ensures Fetch(node, q).Ok? <==> forall x :: x in RequestsOf(q) ==> node(x).Ok?
    ensures Fetch(node, q).Ok? ==> Fetch(node, q).value == Answer(chain, q)
    ensures Fetch(node, q).Err? ==> Fetch(node, q).error.Rpc?
    ensures Fetch(node, q).Err? ==> exists x :: x in RequestsOf(q) && node(x) == Err(Fetch(node, q).error.message)
  {
    if CountTotalKeys(q) <= MAX_KEYS_PER_REQUEST {
      assert q in RequestsOf(q);
    } else {
      SplitIsPartition(q, MAX_KEYS_PER_REQUEST);
      HonestSplit(chain, node, q);
      var chunks := Split(q, MAX_KEYS_PER_REQUEST);
      assert forall i :: 0 <= i < |chunks| ==> chunks[i] in chunks;
    }
  }

  // ----- preparing the query

  function ContractAddresses(initial: StateMaps): set<Felt> {
    (set slot | slot in initial.storage.Keys :: slot.0) + initial.nonces.Keys + initial.classHashes.Keys
  }

  /** The execution read a slot, the nonce or the class hash of `a`. */
  ghost predicate Touched(initial: StateMaps, a: Felt) {
    (exists k :: (a, k) in initial.storage) || a in initial.nonces || a in initial.classHashes
  }

  /** The state maps are keyed by contract addresses, which the type keeps below 2^251. */
  ghost predicate KeyedByAddress(initial: StateMaps) {
    forall a :: Touched(initial, a) ==> IsAddress(a)
  }

  predicate Increasing(s: seq<Felt>) {
    forall i, j :: 0 <= i < j < |s| ==> s[i] < s[j]
  }

  predicate NoDuplicates(s: seq<Felt>) {
    forall i, j :: 0 <= i < j < |s| ==> s[i] != s[j]
  }

  /** `q` asks for exactly what was executed and read, each slot once under its own contract. */
  ghost predicate Prepared(q: Query, executed: set<Felt>, initial: StateMaps) {
    && NoDuplicates(q.classHashes)
    && (forall h :: h in q.classHashes <==> h in executed)
    && Increasing(q.contractAddresses)
    && (forall a :: a in q.contractAddresses <==> Touched(initial, a))
    && |q.storage| == |q.contractAddresses|
    && (forall i :: 0 <= i < |q.storage| ==> PreparedEntry(q.storage[i], q.contractAddresses[i], initial))
  }

  ghost predicate PreparedEntry(e: ContractKeys, a: Felt, initial: StateMaps) {
    && e.address == a
    && NoDuplicates(e.keys)
    && forall k :: k in e.keys <==> (a, k) in initial.storage
  }

  /** Puts a new address into a sorted list. */
  function Insert(s: seq<Felt>, x: Felt): (r: seq<Felt>)
    requires Increasing(s) && x !in s
    ensures Increasing(r)
    ensures forall y :: y in r <==> y in s || y == x
  {
    if s == [] then [x]
    else if x < Last(s) then
      assert s == Front(s) + [Last(s)];
      var r := Insert(Front(s), x) + [Last(s)];
      assert forall i :: 0 <= i < |r| - 1 ==> r[i] in Insert(Front(s), x);
      r
    else s + [x]
  }

  method SortAddresses(addresses: set<Felt>) returns (r: seq<Felt>)
    ensures Increasing(r) && forall a :: a in r <==> a in addresses
  {
    r := [];
    var rest := addresses;
    while rest != {}
      invariant rest <= addresses && Increasing(r)
      invariant forall a :: a in r <==> a in addresses - rest
    {
      var a :| a in rest;
      r := Insert(r, a);
      rest := rest - {a};
    }
  }

  method ListHashes(hashes: set<Felt>) returns (r: seq<Felt>)
    ensures NoDuplicates(r) && forall h :: h in r <==> h in hashes
  {
    r := [];
    var rest := hashes;
    while rest != {}
      invariant rest <= hashes && NoDuplicates(r)
      invariant forall h :: h in r <==> h in hashes - rest
    {
      var h :| h in rest;
      assert h !in hashes - rest && h !in r;
      r := r + [h];
      rest := rest - {h};
    }
  }

  function KeysAt(groups: map<Felt, seq<Felt>>, a: Felt): seq<Felt> {
    if a in groups then groups[a] else []
  }

  ghost predicate Grouped(groups: map<Felt, seq<Felt>>, slots: set<(Felt, Felt)>) {
    && (forall a :: a in groups ==> NoDuplicates(groups[a]))
    && forall a: Felt, k: Felt :: k in KeysAt(groups, a) <==> (a, k) in slots
  }

  lemma GroupOneMore(groups: map<Felt, seq<Felt>>, slots: set<(Felt, Felt)>, a: Felt, k: Felt)
    requires Grouped(groups, slots) && (a, k) !in slots
    ensures Grouped(groups[a := KeysAt(groups, a) + [k]], slots + {(a, k)})
  {
    var after := groups[a := KeysAt(groups, a) + [k]];
    assert k !in KeysAt(groups, a);
    forall b: Felt, j: Felt
      ensures j in KeysAt(after, b) <==> (b, j) in slots + {(a, k)}
    {
      assert j in KeysAt(groups, b) <==> (b, j) in slots;
    }
  }

  /** Groups the slots read by contract. */
  method GroupSlots(slots: set<(Felt, Felt)>) returns (groups: map<Felt, seq<Felt>>)
    ensures Grouped(groups, slots)
  {
    groups := map[];
    var rest := slots;
    while rest != {}
      invariant rest <= slots && Grouped(groups, slots - rest)
    {
      var slot :| slot in rest;
      GroupOneMore(groups, slots - rest, slot.0, slot.1);
      assert slots - rest + {(slot.0, slot.1)} == slots - (rest - {slot});
      groups := groups[slot.0 := KeysAt(groups, slot.0) + [slot.1]];
      rest := rest - {slot};
    }
  }

  lemma TouchedAddresses(initial: StateMaps)
    ensures forall a :: a in ContractAddresses(initial) <==> Touched(initial, a)
  {
    forall a | Touched(initial, a)
      ensures a in ContractAddresses(initial)
    {
      if k :| (a, k) in initial.storage {
        assert (a, k).0 == a;
      }
    }
    forall slot | slot in initial.storage
      ensures Touched(initial, slot.0)
    {
      assert (slot.0, slot.1) in initial.storage;
    }
  }

  method PrepareQuery(executed: set<Felt>, initial: StateMaps) returns (q: Query)
    ensures Prepared(q, executed, initial)
  {
    var hashes := ListHashes(executed);
    var addresses := SortAddresses(ContractAddresses(initial));
    TouchedAddresses(initial);
    var groups := GroupSlots(initial.storage.Keys);
    var entries: seq<ContractKeys> := [];
    for i := 0 to |addresses|
      invariant |entries| == i
      invariant forall j :: 0 <= j < i ==> PreparedEntry(entries[j], addresses[j], initial)
    {
      assert addresses[i] in addresses;
      entries := entries + [ContractKeys(addresses[i], KeysAt(groups, addresses[i]))];
    }
    q := Query(hashes, addresses, entries);
  }

  /** The query asks for a slot exactly when the execution read it. */
  lemma SlotsAsked(q: Query, executed: set<Felt>, initial: StateMaps, a: Felt, k: Felt)
    requires Prepared(q, executed, initial)
    ensures (a, k) in initial.storage <==> exists i :: 0 <= i < |q.storage| && q.storage[i].address == a && k in q.storage[i].keys
  {
    if (a, k) in initial.storage {
      assert Touched(initial, a);
      var i :| 0 <= i < |q.contractAddresses| && q.contractAddresses[i] == a;
      assert PreparedEntry(q.storage[i], a, initial);
    }
  }

  lemma PreparedIsDistinct(q: Query, executed: set<Felt>, initial: StateMaps)
    requires Prepared(q, executed, initial)
    ensures DistinctAddresses(q.storage)
  {
  }

  // ----- reading the proof back

  datatype StorageInfo = StorageInfo(root: Felt, nodes: NodeMap)

  datatype StorageProofs = StorageProofs(extended: StateMaps, storageInfos: map<Felt, StorageInfo>)

  /** The first `n` addresses, each with the leaf at its own position. */
  function LeafMap(addresses: seq<Felt>, leaves: seq<Leaf>, n: nat): (m: map<Felt, Leaf>)
    requires n <= |addresses| && n <= |leaves|
    ensures forall a :: a in m <==> exists i :: 0 <= i < n && addresses[i] == a
  {
    if n == 0 then map[] else LeafMap(addresses, leaves, n - 1)[addresses[n - 1] := leaves[n - 1]]
  }

  function RootOf(leaf: Leaf): Felt {
    if leaf.storageRoot.Some? then leaf.storageRoot.value else 0
  }

  function StorageInfosUpTo(leaves: map<Felt, Leaf>, entries: seq<ContractKeys>, proofs: seq<NodeMap>, n: nat):
      Result<map<Felt, StorageInfo>, ProviderError>
    requires n <= |entries| && n <= |proofs|
  {
    if n == 0 then Ok(map[])
    else match StorageInfosUpTo(leaves, entries, proofs, n - 1)
      case Err(e) => Err(e)
      case Ok(infos) =>
        var a := entries[n - 1].address;
        if !IsAddress(a) || a !in leaves then Err(InvalidProofResponse)
        else Ok(infos[a := StorageInfo(RootOf(leaves[a]), proofs[n - 1])])
  }

  function BuildStorageInfos(p: StorageProof, q: Query): Result<map<Felt, StorageInfo>, ProviderError> {
    if |p.storage| != |q.storage| then Err(InvalidProofResponse)
    else
      var leaves := LeafMap(q.contractAddresses, p.leaves, ZipLength(q.contractAddresses, p.leaves));
      StorageInfosUpTo(leaves, q.storage, p.storage, |q.storage|)
  }

  function NoncesOf(leaves: map<Felt, Leaf>): map<Felt, Felt> {
    map a | a in leaves :: leaves[a].nonce
  }

  function ClassHashesOf(leaves: map<Felt, Leaf>): map<Felt, Felt> {
    map a | a in leaves :: leaves[a].classHash
  }

  /** The storage reads, with the nonce and class hash of every leaf of the proof. */
  function ExtendedReads(p: StorageProof, q: Query, initial: StateMaps): StateMaps {
    var leaves := LeafMap(q.contractAddresses, p.leaves, ZipLength(q.contractAddresses, p.leaves));
    StateMaps(initial.storage, NoncesOf(leaves), ClassHashesOf(leaves), map[], map[])
  }

  /** What is handed on once the proof has been fetched. */
  function Assemble(fetched: Result<StorageProof, ProviderError>, q: Query, initial: StateMaps):
      Result<StorageProofs, ProviderError>
  {
    match fetched
    case Err(e) => Err(e)
    case Ok(p) =>
      if |p.leaves| != |q.contractAddresses| then Err(InvalidProofResponse)
      else match BuildStorageInfos(p, q)
        case Err(e) => Err(e)
        case Ok(infos) => Ok(StorageProofs(ExtendedReads(p, q, initial), infos))
  }

  lemma LeafStep(leaves: map<Felt, Leaf>, a: Felt, leaf: Leaf)
    ensures NoncesOf(leaves[a := leaf]) == NoncesOf(leaves)[a := leaf.nonce]
    ensures ClassHashesOf(leaves[a := leaf]) == ClassHashesOf(leaves)[a := leaf.classHash]
  {
  }

  method ReadLeaves(p: StorageProof, q: Query, initial: StateMaps) returns (extended: StateMaps)
    requires |p.leaves| == |q.contractAddresses|
    ensures extended == ExtendedReads(p, q, initial)
  {
    var nonces: map<Felt, Felt>, classHashes: map<Felt, Felt> := map[], map[];
    for i := 0 to |p.leaves|
      invariant nonces == NoncesOf(LeafMap(q.contractAddresses, p.leaves, i))
      invariant classHashes == ClassHashesOf(LeafMap(q.contractAddresses, p.leaves, i))
    {
      LeafStep(LeafMap(q.contractAddresses, p.leaves, i), q.contractAddresses[i], p.leaves[i]);
      classHashes := classHashes[q.contractAddresses[i] := p.leaves[i].classHash];
      nonces := nonces[q.contractAddresses[i] := p.leaves[i].nonce];
    }
    extended := StateMaps(initial.storage, nonces, classHashes, map[], map[]);
  }

  method GetStorageProofs(node: Node, executed: set<Felt>, initial: StateMaps)
      returns (q: Query, r: Result<StorageProofs, ProviderError>)
    ensures Prepared(q, executed, initial)
    ensures r == Assemble(Fetch(node, q), q, initial)
  {
    q := PrepareQuery(executed, initial);
    var fetched := FetchProofs(node, q);
    r := FinishProofs(fetched, q, initial);
  }

  method FinishProofs(fetched: Result<StorageProof, ProviderError>, q: Query, initial: StateMaps)
      returns (r: Result<StorageProofs, ProviderError>)
    ensures r == Assemble(fetched, q, initial)
  {
    if fetched.Err? {
      return Err(fetched.error);
    }
    var p := fetched.value;
    if |p.leaves| != |q.contractAddresses| {
      return Err(InvalidProofResponse);
    }
    var extended := ReadLeaves(p, q, initial);
    var infos := BuildStorageInfos(p, q);
    r := if infos.Err? then Err(infos.error) else Ok(StorageProofs(extended, infos.value));
  }

  // ----- every address gets the leaf and the storage proof at its own position

  /** The data handed on for `a` is that of the leaf and of the storage proof. */
  ghost predicate DataOf(r: StorageProofs, a: Felt, leaf: Leaf, nodes: NodeMap) {
    && a in r.extended.nonces && r.extended.nonces[a] == leaf.nonce
    && a in r.extended.classHashes && r.extended.classHashes[a] == leaf.classHash
    && a in r.storageInfos && r.storageInfos[a].nodes == nodes
    && (leaf.storageRoot.Some? ==> r.storageInfos[a].root == leaf.storageRoot.value)
    && (leaf.storageRoot.None? ==> r.storageInfos[a].root == 0)
  }

  lemma {:induction false} LeafMapAt(addresses: seq<Felt>, leaves: seq<Leaf>, n: nat, i: nat)
    requires Increasing(addresses) && i < n <= |addresses| && n <= |leaves|
    ensures addresses[i] in LeafMap(addresses, leaves, n) && LeafMap(addresses, leaves, n)[addresses[i]] == leaves[i]
  {
    var before := LeafMap(addresses, leaves, n - 1);
    assert LeafMap(addresses, leaves, n) == before[addresses[n - 1] := leaves[n - 1]];
    if i < n - 1 {
      LeafMapAt(addresses, leaves, n - 1, i);
      assert addresses[i] < addresses[n - 1];
    }
  }

  lemma LeafMapAll(addresses: seq<Felt>, leaves: seq<Leaf>)
    requires Increasing(addresses) && |addresses| == |leaves|
    ensures var m := LeafMap(addresses, leaves, |addresses|);
            forall i :: 0 <= i < |addresses| ==> addresses[i] in m && m[addresses[i]] == leaves[i]
  {
    forall i | 0 <= i < |addresses|
      ensures var m := LeafMap(addresses, leaves, |addresses|); addresses[i] in m && m[addresses[i]] == leaves[i]
    {
      LeafMapAt(addresses, leaves, |addresses|, i);
    }
  }

  ghost predicate InfoAt(infos: map<Felt, StorageInfo>, a: Felt, root: Felt, nodes: NodeMap) {
    a in infos && infos[a] == StorageInfo(root, nodes)
  }

  lemma {:induction false} StorageInfosAt(leaves: map<Felt, Leaf>, entries: seq<ContractKeys>, proofs: seq<NodeMap>, n: nat)
    requires n <= |entries| && n <= |proofs| && DistinctAddresses(entries)
    requires forall i :: 0 <= i < |entries| ==> IsAddress(entries[i].address) && entries[i].address in leaves
    ensures var r := StorageInfosUpTo(leaves, entries, proofs, n);
            r.Ok? && forall i :: 0 <= i < n ==>
              InfoAt(r.value, entries[i].address, RootOf(leaves[entries[i].address]), proofs[i])
  {
    if n > 0 {
      StorageInfosAt(leaves, entries, proofs, n - 1);
      assert forall i :: 0 <= i < n - 1 ==> entries[i].address != entries[n - 1].address;
    }
  }

  /** One leaf per address and one storage proof per entry. */
  predicate Complete(p: StorageProof, q: Query) {
    |p.leaves| == |q.contractAddresses| && |p.storage| == |q.storage|
  }

  lemma CompleteIsRead(p: StorageProof, executed: set<Felt>, initial: StateMaps, q: Query)
    requires Prepared(q, executed, initial) && KeyedByAddress(initial) && Complete(p, q)
    ensures var r := Assemble(Ok(p), q, initial);
            r.Ok? && forall i :: 0 <= i < |q.contractAddresses| ==>
              DataOf(r.value, q.contractAddresses[i], p.leaves[i], p.storage[i])
  {
    var n := |q.contractAddresses|;
    var leaves := LeafMap(q.contractAddresses, p.leaves, n);
    LeafMapAll(q.contractAddresses, p.leaves);
    AddressesValid(q, executed, initial);
    StorageInfosAt(leaves, q.storage, p.storage, n);
    var infos := BuildStorageInfos(p, q).value;
    forall i | 0 <= i < n
      ensures DataOf(StorageProofs(ExtendedReads(p, q, initial), infos), q.contractAddresses[i], p.leaves[i], p.storage[i])
    {
      assert InfoAt(infos, q.storage[i].address, RootOf(leaves[q.storage[i].address]), p.storage[i]);
    }
  }

  lemma AddressesValid(q: Query, executed: set<Felt>, initial: StateMaps)
    requires Prepared(q, executed, initial) && KeyedByAddress(initial)
    ensures forall i :: 0 <= i < |q.storage| ==> q.storage[i].address == q.contractAddresses[i]
    ensures forall i :: 0 <= i < |q.storage| ==> IsAddress(q.storage[i].address)
    ensures DistinctAddresses(q.storage)
  {
    forall i | 0 <= i < |q.storage|
      ensures q.storage[i].address == q.contractAddresses[i] && IsAddress(q.storage[i].address)
    {
      assert q.contractAddresses[i] in q.contractAddresses && PreparedEntry(q.storage[i], q.contractAddresses[i], initial);
    }
    PreparedIsDistinct(q, executed, initial);
  }

  lemma ReadsKeys(p: StorageProof, q: Query, initial: StateMaps)
    requires |p.leaves| == |q.contractAddresses|
    ensures var extended := ExtendedReads(p, q, initial);
            && extended.storage == initial.storage
            && extended.nonces.Keys == extended.classHashes.Keys
            && forall a :: a in extended.nonces <==> a in q.contractAddresses
  {
  }

  /**
   Whatever the node answers, honest or not: the fetch's failure is handed on, a proof that has not
   one leaf per address and one storage proof per entry is rejected, and any other is read with each
   touched address getting the leaf and the storage proof at its own position.
   */
  lemma AnswersToLeaves(node: Node, executed: set<Felt>, initial: StateMaps, q: Query)
    requires Prepared(q, executed, initial) && KeyedByAddress(initial)
    ensures var r, fetched := Assemble(Fetch(node, q), q, initial), Fetch(node, q);
            && (fetched.Err? ==> r == Err(fetched.error))
            && (fetched.Ok? && !Complete(fetched.value, q) ==> r == Err(InvalidProofResponse))
            && (fetched.Ok? && Complete(fetched.value, q) ==> r.Ok?)
            && (r.Ok? ==>
                  && r.value.extended.storage == initial.storage
                  && (forall a :: a in r.value.extended.nonces <==> Touched(initial, a))
                  && r.value.extended.classHashes.Keys == r.value.extended.nonces.Keys
                  && forall i :: 0 <= i < |q.contractAddresses| ==>
                       DataOf(r.value, q.contractAddresses[i], fetched.value.leaves[i], fetched.value.storage[i]))
  {
    var fetched := Fetch(node, q);
    if fetched.Ok? && Complete(fetched.value, q) {
      CompleteIsRead(fetched.value, executed, initial, q);
      ReadsKeys(fetched.value, q, initial);
    }
  }

  /** What a caller is promised about one address: the block's own data, and the nodes of the slots read. */
  ghost predicate OwnData(chain: Chain, initial: StateMaps, r: StorageProofs, a: Felt) {
    && a in r.extended.nonces && r.extended.nonces[a] == chain.leaf(a).nonce
    && a in r.extended.classHashes && r.extended.classHashes[a] == chain.leaf(a).classHash
    && a in r.storageInfos
    && (chain.leaf(a).storageRoot.Some? ==> r.storageInfos[a].root == chain.leaf(a).storageRoot.value)
    && (chain.leaf(a).storageRoot.None? ==> r.storageInfos[a].root == 0)
    && (forall h :: h in r.storageInfos[a].nodes <==> SlotNode(chain, initial, a, h))
    && forall h :: h in r.storageInfos[a].nodes ==> r.storageInfos[a].nodes[h] == chain.storageTrie(a).nodes[h]
  }

  /** `h` is a node on the storage path of some slot of `a` that was read. */
  ghost predicate SlotNode(chain: Chain, initial: StateMaps, a: Felt, h: Felt) {
    h in chain.storageTrie(a).nodes && exists k :: (a, k) in initial.storage && h in chain.storageTrie(a).path(k)
  }

  /**
   Reads to queries to leaves: against an honest node the only failure is the node's own, and on
   success every address that was touched has its own nonce, class hash, storage root and exactly
   the storage nodes of the slots read under it, whatever the chunking was.
   */
  lemma ReadsToLeaves(chain: Chain, node: Node, executed: set<Felt>, initial: StateMaps, q: Query)
    requires Honest(chain, node) && Prepared(q, executed, initial) && KeyedByAddress(initial)
    ensures var r := Assemble(Fetch(node, q), q, initial);
            && (r.Err? <==> Fetch(node, q).Err?)
            && (r.Err? ==> r.error.Rpc?)
            && (r.Ok? ==> AllOwnData(chain, initial, r.value))
  {
    PreparedIsDistinct(q, executed, initial);
    FetchRefinesSingle(chain, node, q);
    AnswersToLeaves(node, executed, initial, q);
    var r := Assemble(Fetch(node, q), q, initial);
    if r.Ok? {
      forall a | Touched(initial, a)
        ensures OwnData(chain, initial, r.value, a)
      {
        OwnDataOf(chain, executed, initial, q, r.value, a);
      }
    }
  }

  ghost predicate AllOwnData(chain: Chain, initial: StateMaps, r: StorageProofs) {
    && r.extended.storage == initial.storage
    && (forall a :: a in r.extended.nonces <==> Touched(initial, a))
    && (forall a :: a in r.extended.classHashes <==> Touched(initial, a))
    && forall a :: Touched(initial, a) ==> OwnData(chain, initial, r, a)
  }

  lemma OwnDataOf(chain: Chain, executed: set<Felt>, initial: StateMaps, q: Query, r: StorageProofs, a: Felt)
    requires Prepared(q, executed, initial) && Touched(initial, a)
    requires forall i :: 0 <= i < |q.contractAddresses| ==>
               DataOf(r, q.contractAddresses[i], Answer(chain, q).leaves[i], Answer(chain, q).storage[i])
    ensures OwnData(chain, initial, r, a)
  {
    var i :| 0 <= i < |q.contractAddresses| && q.contractAddresses[i] == a;
    assert PreparedEntry(q.storage[i], a, initial);
    assert DataOf(r, a, chain.leaf(a), Paths(chain.storageTrie(a), q.storage[i].keys));
    PathsOfSlots(chain, initial, q.storage[i], a);
  }

  lemma PathsOfSlots(chain: Chain, initial: StateMaps, e: ContractKeys, a: Felt)
    requires PreparedEntry(e, a, initial)
    ensures forall h :: h in Paths(chain.storageTrie(a), e.keys) <==> SlotNode(chain, initial, a, h)
  {
    forall h
      ensures OnPath(chain.storageTrie(a), e.keys, h)
          <==> exists k :: (a, k) in initial.storage && h in chain.storageTrie(a).path(k)
    {
      if k :| (a, k) in initial.storage && h in chain.storageTrie(a).path(k) {
        assert k in e.keys;
        var i :| 0 <= i < |e.keys| && e.keys[i] == k;
        assert h in chain.storageTrie(a).path(e.keys[i]);
      }
      if i :| 0 <= i < |e.keys| && h in chain.storageTrie(a).path(e.keys[i]) {
        assert e.keys[i] in e.keys;
      }
    }
  }
}
