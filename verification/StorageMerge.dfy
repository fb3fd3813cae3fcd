/**
 Merging chunked storage proofs.  The RPC node is an oracle over fixed tries: its answer to a
 query is the union of the Merkle paths of the keys asked for, one leaf per address in order and
 one node map per storage entry in order.  Fetching in chunks refines the single request.
 */
module StorageMerge {
  import opened Wrappers
  import opened Felts
  import opened StorageQuery
  import Seqs

  datatype MerkleNode = Binary(left: Felt, right: Felt) | Edge(path: Felt, length: nat, child: Felt)

  type NodeMap = map<Felt, MerkleNode>

  datatype Leaf = Leaf(nonce: Felt, classHash: Felt, storageRoot: Option<Felt>)

  datatype Roots = Roots(contractsRoot: Felt, classesRoot: Felt, blockHash: Felt)

  datatype StorageProof = StorageProof(
    classes: NodeMap,
    contractNodes: NodeMap,
    leaves: seq<Leaf>,
    storage: seq<NodeMap>,
    roots: Roots)

  // ----- the oracle

  /** A trie: its hash-to-node map, and for every key the hashes of the nodes on the key's path. */
  datatype Trie = Trie(nodes: NodeMap, path: Felt -> set<Felt>)

  /** The state of one block. */
  datatype Chain = Chain(
    classTrie: Trie,
    contractTrie: Trie,
    storageTrie: Felt -> Trie,
    leaf: Felt -> Leaf,
    roots: Roots)

  predicate OnPath(t: Trie, keys: seq<Felt>, h: Felt) {
    exists i :: 0 <= i < |keys| && h in t.path(keys[i])
  }

  function Paths(t: Trie, keys: seq<Felt>): NodeMap {
    map h | h in t.nodes && OnPath(t, keys, h) :: t.nodes[h]
  }

  function LeavesOf(chain: Chain, addresses: seq<Felt>): seq<Leaf> {
    seq(|addresses|, i requires 0 <= i < |addresses| => chain.leaf(addresses[i]))
  }

  function StoragePaths(chain: Chain, entries: seq<ContractKeys>): seq<NodeMap> {
    seq(|entries|, i requires 0 <= i < |entries| => Paths(chain.storageTrie(entries[i].address), entries[i].keys))
  }

  /** The node's answer to one request. */
  function Answer(chain: Chain, q: Query): StorageProof {
    StorageProof(
      Paths(chain.classTrie, q.classHashes),
      Paths(chain.contractTrie, q.contractAddresses),
      LeavesOf(chain, q.contractAddresses),
      StoragePaths(chain, q.storage),
      chain.roots)
  }

  function AnswerAll(chain: Chain, queries: seq<Query>): seq<StorageProof> {
    seq(|queries|, i requires 0 <= i < |queries| => Answer(chain, queries[i]))
  }

  // ----- merging

  /** Address to position; of equal addresses the last position stays. */
  function AddressIndex(entries: seq<ContractKeys>): (m: map<Felt, nat>)
    ensures forall a :: a in m ==> m[a] < |entries| && entries[m[a]].address == a
    ensures forall i :: 0 <= i < |entries| ==> entries[i].address in m && i <= m[entries[i].address]
  {
    if entries == [] then map[]
    else AddressIndex(Front(entries))[Last(entries).address := |entries| - 1]
  }

  /** Adds the first `n` storage proofs of a chunk; None when an address is unknown (the source panics). */
  function ExtendUpTo(storage: seq<NodeMap>, entries: seq<ContractKeys>, proofs: seq<NodeMap>,
                      index: map<Felt, nat>, n: nat): (r: Option<seq<NodeMap>>)
    requires n <= |entries| && n <= |proofs|
    requires forall a :: a in index ==> index[a] < |storage|
    ensures r.Some? ==> |r.value| == |storage|
  {
    if n == 0 then Some(storage)
    else match ExtendUpTo(storage, entries, proofs, index, n - 1)
      case None => None
      case Some(s) =>
        var a := entries[n - 1].address;
        if a in index then Some(s[index[a] := s[index[a]] + proofs[n - 1]]) else None
  }

  function ZipLength<S, T>(a: seq<S>, b: seq<T>): nat {
    if |a| <= |b| then |a| else |b|
  }

  function MergeChunk(acc: StorageProof, chunk: Query, proof: StorageProof, index: map<Felt, nat>):
      (r: Option<StorageProof>)
    requires forall a :: a in index ==> index[a] < |acc.storage|
    ensures r.Some? ==> |r.value.storage| == |acc.storage|
  {
    match ExtendUpTo(acc.storage, chunk.storage, proof.storage, index, ZipLength(chunk.storage, proof.storage))
    case None => None
    case Some(storage) =>
      Some(StorageProof(acc.classes + proof.classes, acc.contractNodes + proof.contractNodes,
                        acc.leaves + proof.leaves, storage, acc.roots))
  }

  function StartProof(roots: Roots, entries: nat): StorageProof {
    StorageProof(map[], map[], [], seq(entries, _ => map[]), roots)
  }

  function MergeUpTo(proofs: seq<StorageProof>, chunks: seq<Query>, original: Query, k: nat): (r: Option<StorageProof>)
    requires |proofs| == |chunks| > 0 && k <= |chunks|
    ensures r.Some? ==> |r.value.storage| == |original.storage|
  {
    if k == 0 then Some(StartProof(proofs[0].roots, |original.storage|))
    else match MergeUpTo(proofs, chunks, original, k - 1)
      case None => None
      case Some(acc) => MergeChunk(acc, chunks[k - 1], proofs[k - 1], AddressIndex(original.storage))
  }

  /** The merged proof, or None where one of the source's assertions fails. */
  function Merge(proofs: seq<StorageProof>, chunks: seq<Query>, original: Query): Option<StorageProof> {
    if |proofs| != |chunks| || proofs == [] then None else MergeUpTo(proofs, chunks, original, |chunks|)
  }

  /** Adds one chunk's storage proofs at the positions of their addresses. */
  method ExtendStorage(storage: seq<NodeMap>, entries: seq<ContractKeys>, proofs: seq<NodeMap>, index: map<Felt, nat>)
      returns (r: Option<seq<NodeMap>>)
    requires forall a :: a in index ==> index[a] < |storage|
    ensures r == ExtendUpTo(storage, entries, proofs, index, ZipLength(entries, proofs))
  {
    var n := ZipLength(entries, proofs);
    var now := storage;
    for i := 0 to n
      invariant |now| == |storage|
      invariant ExtendUpTo(storage, entries, proofs, index, i) == Some(now)
    {
      var a := entries[i].address;
      if a !in index {
        NoneStays(storage, entries, proofs, index, i + 1, n);
        return None;
      }
      now := now[index[a] := now[index[a]] + proofs[i]];
    }
    r := Some(now);
  }

  method MergeStorageProofs(proofs: seq<StorageProof>, chunks: seq<Query>, original: Query)
      returns (r: Option<StorageProof>)
    ensures r == Merge(proofs, chunks, original)
  {
    if |proofs| != |chunks| || proofs == [] {
      return None;
    }
    var index := AddressIndex(original.storage);
    var merged := StartProof(proofs[0].roots, |original.storage|);
    for k := 0 to |chunks|
      invariant MergeUpTo(proofs, chunks, original, k) == Some(merged)
    {
      var storage := ExtendStorage(merged.storage, chunks[k].storage, proofs[k].storage, index);
      if storage.None? {
        MergeNoneStays(proofs, chunks, original, k + 1, |chunks|);
        return None;
      }
      merged := StorageProof(merged.classes + proofs[k].classes, merged.contractNodes + proofs[k].contractNodes,
                             merged.leaves + proofs[k].leaves, storage.value, merged.roots);
    }
    r := Some(merged);
  }

  lemma {:induction false} ExtendFailsExactly(storage: seq<NodeMap>, entries: seq<ContractKeys>, proofs: seq<NodeMap>,
                                              index: map<Felt, nat>, n: nat)
    requires n <= |entries| && n <= |proofs|
    requires forall a :: a in index ==> index[a] < |storage|
    ensures ExtendUpTo(storage, entries, proofs, index, n).None? <==> exists j :: 0 <= j < n && entries[j].address !in index
  {
    if n > 0 {
      ExtendFailsExactly(storage, entries, proofs, index, n - 1);
    }
  }

  lemma NoneStays(storage: seq<NodeMap>, entries: seq<ContractKeys>, proofs: seq<NodeMap>, index: map<Felt, nat>, m: nat, n: nat)
    requires m <= n <= |entries| && n <= |proofs|
    requires forall a :: a in index ==> index[a] < |storage|
    requires ExtendUpTo(storage, entries, proofs, index, m).None?
    ensures ExtendUpTo(storage, entries, proofs, index, n).None?
  {
    ExtendFailsExactly(storage, entries, proofs, index, m);
    ExtendFailsExactly(storage, entries, proofs, index, n);
  }

  /** A chunk has a storage proof for an address that the original query does not name. */
  ghost predicate Stray(original: Query, chunk: Query, proof: StorageProof) {
    exists j :: 0 <= j < |chunk.storage| && j < |proof.storage|
                && forall i :: 0 <= i < |original.storage| ==> original.storage[i].address != chunk.storage[j].address
  }

  lemma ChunkFailsExactly(acc: StorageProof, chunk: Query, proof: StorageProof, original: Query)
    requires |acc.storage| == |original.storage|
    ensures MergeChunk(acc, chunk, proof, AddressIndex(original.storage)).None? <==> Stray(original, chunk, proof)
  {
    var index, n := AddressIndex(original.storage), ZipLength(chunk.storage, proof.storage);
    ExtendFailsExactly(acc.storage, chunk.storage, proof.storage, index, n);
    assert forall a :: a in index <==> exists i :: 0 <= i < |original.storage| && original.storage[i].address == a;
  }

  /** One more chunk, written out. */
  lemma MergeUnfold(proofs: seq<StorageProof>, chunks: seq<Query>, original: Query, k: nat)
    requires |proofs| == |chunks| > 0 && 0 < k <= |chunks|
    ensures var before := MergeUpTo(proofs, chunks, original, k - 1);
            MergeUpTo(proofs, chunks, original, k)
              == if before.None? then None
                 else MergeChunk(before.value, chunks[k - 1], proofs[k - 1], AddressIndex(original.storage))
  {
  }

  ghost predicate StrayUpTo(proofs: seq<StorageProof>, chunks: seq<Query>, original: Query, k: nat)
    requires |proofs| == |chunks| && k <= |chunks|
  {
    exists i :: 0 <= i < k && Stray(original, chunks[i], proofs[i])
  }

  lemma StrayMore(proofs: seq<StorageProof>, chunks: seq<Query>, original: Query, k: nat)
    requires |proofs| == |chunks| && 0 < k <= |chunks|
    ensures StrayUpTo(proofs, chunks, original, k)
       <==> StrayUpTo(proofs, chunks, original, k - 1) || Stray(original, chunks[k - 1], proofs[k - 1])
  {
  }

  lemma FailsNext(proofs: seq<StorageProof>, chunks: seq<Query>, original: Query, k: nat)
    requires |proofs| == |chunks| > 0 && 0 < k <= |chunks|
    ensures MergeUpTo(proofs, chunks, original, k).None?
       <==> MergeUpTo(proofs, chunks, original, k - 1).None? || Stray(original, chunks[k - 1], proofs[k - 1])
  {
    MergeUnfold(proofs, chunks, original, k);
    var before := MergeUpTo(proofs, chunks, original, k - 1);
    if before.Some? {
      ChunkFailsExactly(before.value, chunks[k - 1], proofs[k - 1], original);
    }
  }

  lemma {:induction false} MergeUpToFailsExactly(proofs: seq<StorageProof>, chunks: seq<Query>, original: Query, k: nat)
    requires |proofs| == |chunks| > 0 && k <= |chunks|
    ensures MergeUpTo(proofs, chunks, original, k).None? <==> StrayUpTo(proofs, chunks, original, k)
  {
    if k > 0 {
      MergeUpToFailsExactly(proofs, chunks, original, k - 1);
      FailsNext(proofs, chunks, original, k);
      StrayMore(proofs, chunks, original, k);
    }
  }

  lemma MergeNoneStays(proofs: seq<StorageProof>, chunks: seq<Query>, original: Query, m: nat, n: nat)
    requires |proofs| == |chunks| > 0 && m <= n <= |chunks|
    requires MergeUpTo(proofs, chunks, original, m).None?
    ensures MergeUpTo(proofs, chunks, original, n).None?
  {
    MergeUpToFailsExactly(proofs, chunks, original, m);
    MergeUpToFailsExactly(proofs, chunks, original, n);
  }

  /** The merge of any proofs at all fails exactly where the source panics. */
  lemma MergeFailsExactly(proofs: seq<StorageProof>, chunks: seq<Query>, original: Query)
    ensures Merge(proofs, chunks, original).None? <==>
              || |proofs| != |chunks|
              || |proofs| == 0
              || exists i :: 0 <= i < |chunks| && Stray(original, chunks[i], proofs[i])
  {
    if |proofs| == |chunks| > 0 {
      MergeUpToFailsExactly(proofs, chunks, original, |chunks|);
    }
  }

  // ----- the merge of proofs that need not agree

  predicate HasNode(maps: seq<NodeMap>, h: Felt) {
    exists i :: 0 <= i < |maps| && h in maps[i]
  }

  /** Map `i` is the last one with the hash. */
  predicate LastWith(maps: seq<NodeMap>, h: Felt, i: int) {
    0 <= i < |maps| && h in maps[i] && forall j :: i < j < |maps| ==> h !in maps[j]
  }

  /** `m` gives the hash the node of the last of the maps that has it. */
  ghost predicate LastWinsAt(m: NodeMap, maps: seq<NodeMap>, h: Felt) {
    && (h in m ==> HasNode(maps, h))
    && forall i :: LastWith(maps, h, i) ==> h in m && m[h] == maps[i][h]
  }

  lemma LastWinsMore(m: NodeMap, maps: seq<NodeMap>, next: NodeMap, h: Felt)
    requires LastWinsAt(m, maps, h)
    ensures LastWinsAt(m + next, maps + [next], h)
  {
    var more, n := maps + [next], |maps|;
    assert more[n] == next;
    if h in m && h !in next {
      var i :| 0 <= i < n && h in maps[i];
      assert more[i] == maps[i];
    }
    forall i | LastWith(more, h, i)
      ensures h in m + next && (m + next)[h] == more[i][h]
    {
      if i < n {
        LastStays(maps, next, h, i);
      }
    }
  }

  lemma LastStays(maps: seq<NodeMap>, next: NodeMap, h: Felt, i: nat)
    requires i < |maps| && LastWith(maps + [next], h, i)
    ensures LastWith(maps, h, i) && h !in next
  {
    var more := maps + [next];
    assert more[|maps|] == next && forall j :: 0 <= j < |maps| ==> more[j] == maps[j];
  }

  function ClassMaps(proofs: seq<StorageProof>): seq<NodeMap> {
    seq(|proofs|, i requires 0 <= i < |proofs| => proofs[i].classes)
  }

  function ContractMaps(proofs: seq<StorageProof>): seq<NodeMap> {
    seq(|proofs|, i requires 0 <= i < |proofs| => proofs[i].contractNodes)
  }

  function LeafLists(proofs: seq<StorageProof>): seq<seq<Leaf>> {
    seq(|proofs|, i requires 0 <= i < |proofs| => proofs[i].leaves)
  }

  lemma {:induction false} MergeUpToParts(proofs: seq<StorageProof>, chunks: seq<Query>, original: Query, k: nat, h: Felt)
    requires |proofs| == |chunks| > 0 && k <= |chunks|
    requires MergeUpTo(proofs, chunks, original, k).Some?
    ensures var r := MergeUpTo(proofs, chunks, original, k).value;
            && r.roots == proofs[0].roots && r.leaves == Concat(LeafLists(proofs[..k]))
            && LastWinsAt(r.classes, ClassMaps(proofs[..k]), h) && LastWinsAt(r.contractNodes, ContractMaps(proofs[..k]), h)
  {
    if k > 0 {
      MergeUpToParts(proofs, chunks, original, k - 1, h);
      var before, p := MergeUpTo(proofs, chunks, original, k - 1).value, proofs[k - 1];
      LastWinsMore(before.classes, ClassMaps(proofs[..k - 1]), p.classes, h);
      LastWinsMore(before.contractNodes, ContractMaps(proofs[..k - 1]), p.contractNodes, h);
      MapsOneMore(proofs, k);
      assert Front(LeafLists(proofs[..k])) == LeafLists(proofs[..k - 1]);
    }
  }

  lemma MapsOneMore(proofs: seq<StorageProof>, k: nat)
    requires 0 < k <= |proofs|
    ensures ClassMaps(proofs[..k]) == ClassMaps(proofs[..k - 1]) + [proofs[k - 1].classes]
    ensures ContractMaps(proofs[..k]) == ContractMaps(proofs[..k - 1]) + [proofs[k - 1].contractNodes]
    ensures LeafLists(proofs[..k]) == LeafLists(proofs[..k - 1]) + [proofs[k - 1].leaves]
  {
  }

  /** Of the positions of the address, `at` is the last. */
  predicate PositionOf(original: Query, at: nat, a: Felt) {
    && at < |original.storage| && original.storage[at].address == a
    && forall i :: at < i < |original.storage| ==> original.storage[i].address != a
  }

  /** The first `n` storage proofs of a chunk, those for position `at`. */
  function MapsFor(chunk: Query, proof: StorageProof, original: Query, at: nat, n: nat): seq<NodeMap>
    requires n <= |chunk.storage| && n <= |proof.storage|
  {
    if n == 0 then []
    else
      MapsFor(chunk, proof, original, at, n - 1)
      + if PositionOf(original, at, chunk.storage[n - 1].address) then [proof.storage[n - 1]] else []
  }

  /** All storage proofs of the first `k` chunks for position `at`. */
  function MapsAt(proofs: seq<StorageProof>, chunks: seq<Query>, original: Query, at: nat, k: nat): seq<NodeMap>
    requires |proofs| == |chunks| && k <= |chunks|
  {
    if k == 0 then []
    else
      MapsAt(proofs, chunks, original, at, k - 1)
      + MapsFor(chunks[k - 1], proofs[k - 1], original, at, ZipLength(chunks[k - 1].storage, proofs[k - 1].storage))
  }

  lemma IndexIsPosition(original: Query, at: nat, a: Felt)
    requires at < |original.storage|
    ensures PositionOf(original, at, a) <==> a in AddressIndex(original.storage) && AddressIndex(original.storage)[a] == at
  {
    var index := AddressIndex(original.storage);
    if a in index && index[a] == at {
      forall i | at < i < |original.storage|
        ensures original.storage[i].address != a
      {
        assert i <= index[original.storage[i].address];
      }
    }
    if PositionOf(original, at, a) {
      assert at <= index[a] && original.storage[index[a]].address == a;
    }
  }

  lemma {:induction false} ExtendAt(storage: seq<NodeMap>, before: seq<NodeMap>, chunk: Query, proof: StorageProof,
                                    original: Query, at: nat, n: nat, h: Felt)
    requires |storage| == |original.storage| && at < |storage| && n <= |chunk.storage| && n <= |proof.storage|
    requires LastWinsAt(storage[at], before, h)
    requires ExtendUpTo(storage, chunk.storage, proof.storage, AddressIndex(original.storage), n).Some?
    ensures LastWinsAt(ExtendUpTo(storage, chunk.storage, proof.storage, AddressIndex(original.storage), n).value[at],
                       before + MapsFor(chunk, proof, original, at, n), h)
  {
    if n == 0 {
      Seqs.Units(before);
    } else {
      ExtendAt(storage, before, chunk, proof, original, at, n - 1, h);
      var index, a := AddressIndex(original.storage), chunk.storage[n - 1].address;
      var now := ExtendUpTo(storage, chunk.storage, proof.storage, index, n - 1).value;
      ExtendUnfold(storage, chunk.storage, proof.storage, index, now, n);
      IndexIsPosition(original, at, a);
      var maps := MapsFor(chunk, proof, original, at, n - 1);
      if PositionOf(original, at, a) {
        LastWinsMore(now[at], before + maps, proof.storage[n - 1], h);
        Seqs.Assoc(before, maps, [proof.storage[n - 1]]);
      } else {
        Seqs.Units(maps);
      }
    }
  }

  lemma {:induction false} MergeUpToAt(proofs: seq<StorageProof>, chunks: seq<Query>, original: Query, at: nat, k: nat, h: Felt)
    requires |proofs| == |chunks| > 0 && k <= |chunks| && at < |original.storage|
    requires MergeUpTo(proofs, chunks, original, k).Some?
    ensures LastWinsAt(MergeUpTo(proofs, chunks, original, k).value.storage[at], MapsAt(proofs, chunks, original, at, k), h)
  {
    if k > 0 {
      MergeUpToAt(proofs, chunks, original, at, k - 1, h);
      MergeUnfold(proofs, chunks, original, k);
      var before := MergeUpTo(proofs, chunks, original, k - 1).value;
      ExtendAt(before.storage, MapsAt(proofs, chunks, original, at, k - 1), chunks[k - 1], proofs[k - 1], original, at,
               ZipLength(chunks[k - 1].storage, proofs[k - 1].storage), h);
    }
  }

  /**
   Proofs from any node, honest or not: the roots are those of the first, the leaves are put one
   after the other, the storage proofs go to the last position of their address, and where proofs
   give a hash different nodes the last one wins.
   */
  lemma AnyProofsMerged(proofs: seq<StorageProof>, chunks: seq<Query>, original: Query, h: Felt)
    requires Merge(proofs, chunks, original).Some?
    ensures var r := Merge(proofs, chunks, original).value;
            && |proofs| == |chunks| > 0 && r.roots == proofs[0].roots && r.leaves == Concat(LeafLists(proofs))
            && LastWinsAt(r.classes, ClassMaps(proofs), h) && LastWinsAt(r.contractNodes, ContractMaps(proofs), h)
            && |r.storage| == |original.storage|
            && forall at :: 0 <= at < |r.storage| ==>
                 LastWinsAt(r.storage[at], MapsAt(proofs, chunks, original, at, |chunks|), h)
  {
    MergeUpToParts(proofs, chunks, original, |chunks|, h);
    assert proofs[..|proofs|] == proofs;
    forall at | 0 <= at < |original.storage|
      ensures LastWinsAt(Merge(proofs, chunks, original).value.storage[at], MapsAt(proofs, chunks, original, at, |chunks|), h)
    {
      MergeUpToAt(proofs, chunks, original, at, |chunks|, h);
    }
  }

  // ----- what a list of items asks for

  function ClassKeys(items: seq<Item>): seq<Felt> {
    if items == [] then [] else ClassKeys(Front(items)) + ClassPart(Last(items))
  }

  function ClassPart(x: Item): seq<Felt> {
    if x.ClassHash? then [x.hash] else []
  }

  function AddressKeys(items: seq<Item>): seq<Felt> {
    if items == [] then [] else AddressKeys(Front(items)) + AddressPart(Last(items))
  }

  function AddressPart(x: Item): seq<Felt> {
    if x.ContractAddress? then [x.address] else []
  }

  function SlotsOf(items: seq<Item>, a: Felt): seq<Felt> {
    if items == [] then [] else SlotsOf(Front(items), a) + SlotPart(Last(items), a)
  }

  function SlotPart(x: Item, a: Felt): seq<Felt> {
    if x.StorageKey? && x.contract == a then [x.key] else []
  }

  /** The keys asked under address `a`, over all entries for it. */
  function KeysOf(entries: seq<ContractKeys>, a: Felt): seq<Felt> {
    if entries == [] then []
    else KeysOf(Front(entries), a) + if Last(entries).address == a then Last(entries).keys else []
  }

  predicate AllAddressesIn(items: seq<Item>, known: set<Felt>) {
    forall i :: 0 <= i < |items| && items[i].StorageKey? ==> items[i].contract in known
  }

  function Addresses(entries: seq<ContractKeys>): set<Felt> {
    AddressIndex(entries).Keys
  }

  predicate AllKnown(entries: seq<ContractKeys>, known: set<Felt>) {
    forall i :: 0 <= i < |entries| ==> entries[i].address in known
  }

  lemma {:induction false} ClassKeysConcat(s: seq<Item>, t: seq<Item>)
    ensures ClassKeys(s + t) == ClassKeys(s) + ClassKeys(t)
  {
    if t == [] {
      assert s + t == s;
    } else {
      ClassKeysConcat(s, Front(t));
      assert Front(s + t) == s + Front(t);
      Seqs.Assoc(ClassKeys(s), ClassKeys(Front(t)), ClassPart(Last(t)));
    }
  }

  lemma {:induction false} AddressKeysConcat(s: seq<Item>, t: seq<Item>)
    ensures AddressKeys(s + t) == AddressKeys(s) + AddressKeys(t)
  {
    if t == [] {
      assert s + t == s;
    } else {
      AddressKeysConcat(s, Front(t));
      assert Front(s + t) == s + Front(t);
      Seqs.Assoc(AddressKeys(s), AddressKeys(Front(t)), AddressPart(Last(t)));
    }
  }

  lemma {:induction false} SlotsConcat(s: seq<Item>, t: seq<Item>, a: Felt)
    ensures SlotsOf(s + t, a) == SlotsOf(s, a) + SlotsOf(t, a)
  {
    if t == [] {
      assert s + t == s;
    } else {
      SlotsConcat(s, Front(t), a);
      assert Front(s + t) == s + Front(t);
      Seqs.Assoc(SlotsOf(s, a), SlotsOf(Front(t), a), SlotPart(Last(t), a));
    }
  }

  lemma {:induction false} KeysOfAppend(entries: seq<ContractKeys>, e: ContractKeys, a: Felt)
    ensures KeysOf(entries + [e], a) == KeysOf(entries, a) + if e.address == a then e.keys else []
  {
    assert Front(entries + [e]) == entries;
  }

  lemma {:induction false} CollectKeys(items: seq<Item>, a: Felt)
    ensures Collect(items).classHashes == ClassKeys(items)
    ensures Collect(items).contractAddresses == AddressKeys(items)
    ensures KeysOf(Collect(items).storage, a) == SlotsOf(items, a)
  {
    if items != [] {
      CollectKeys(Front(items), a);
      var q := Collect(Front(items));
      match Last(items) {
        case ClassHash(_) =>
        case ContractAddress(_) =>
        case StorageKey(c, k) =>
          if q.storage != [] && Last(q.storage).address == c {
            KeysOfAppend(Front(q.storage), ContractKeys(c, Last(q.storage).keys + [k]), a);
          } else {
            KeysOfAppend(q.storage, ContractKeys(c, [k]), a);
          }
      }
    }
  }

  lemma {:induction false} CollectAddresses(items: seq<Item>, known: set<Felt>)
    requires AllAddressesIn(items, known)
    ensures AllKnown(Collect(items).storage, known)
  {
    if items != [] {
      CollectAddresses(Front(items), known);
    }
  }

  lemma {:induction false} ClassItemKeys(hs: seq<Felt>, a: Felt)
    ensures ClassKeys(ClassItems(hs)) == hs && AddressKeys(ClassItems(hs)) == [] && SlotsOf(ClassItems(hs), a) == []
  {
    if hs != [] {
      ClassItemKeys(Front(hs), a);
      assert Front(ClassItems(hs)) == ClassItems(Front(hs)) && hs == Front(hs) + [Last(hs)];
    }
  }

  lemma {:induction false} AddressItemKeys(addresses: seq<Felt>, a: Felt)
    ensures ClassKeys(AddressItems(addresses)) == [] && AddressKeys(AddressItems(addresses)) == addresses
    ensures SlotsOf(AddressItems(addresses), a) == []
  {
    if addresses != [] {
      AddressItemKeys(Front(addresses), a);
      assert Front(AddressItems(addresses)) == AddressItems(Front(addresses));
      assert addresses == Front(addresses) + [Last(addresses)];
    }
  }

  lemma {:induction false} KeyItemKeys(c: Felt, ks: seq<Felt>, a: Felt)
    ensures ClassKeys(KeyItems(c, ks)) == [] && AddressKeys(KeyItems(c, ks)) == []
    ensures SlotsOf(KeyItems(c, ks), a) == if c == a then ks else []
  {
    if ks != [] {
      KeyItemKeys(c, Front(ks), a);
      assert Front(KeyItems(c, ks)) == KeyItems(c, Front(ks)) && ks == Front(ks) + [Last(ks)];
    }
  }

  lemma {:induction false} StorageItemKeys(entries: seq<ContractKeys>, a: Felt)
    ensures ClassKeys(StorageItems(entries)) == [] && AddressKeys(StorageItems(entries)) == []
    ensures SlotsOf(StorageItems(entries), a) == KeysOf(entries, a)
  {
    if entries != [] {
      StorageItemKeys(Front(entries), a);
      var last := Last(entries);
      KeyItemKeys(last.address, last.keys, a);
      ClassKeysConcat(StorageItems(Front(entries)), KeyItems(last.address, last.keys));
      AddressKeysConcat(StorageItems(Front(entries)), KeyItems(last.address, last.keys));
      SlotsConcat(StorageItems(Front(entries)), KeyItems(last.address, last.keys), a);
    }
  }

  lemma {:induction false} StorageItemAddresses(entries: seq<ContractKeys>)
    ensures AllAddressesIn(StorageItems(entries), Addresses(entries))
  {
    if entries != [] {
      StorageItemAddresses(Front(entries));
      assert Addresses(Front(entries)) <= Addresses(entries) && Last(entries).address in Addresses(entries);
    }
  }

  /** A flattened query asks for exactly the class hashes and addresses the query lists. */
  lemma FlattenKeys(q: Query)
    ensures ClassKeys(Flatten(q)) == q.classHashes
    ensures AddressKeys(Flatten(q)) == q.contractAddresses
  {
    ClassItemKeys(q.classHashes, 0);
    AddressItemKeys(q.contractAddresses, 0);
    StorageItemKeys(q.storage, 0);
    var c, d, e := ClassItems(q.classHashes), AddressItems(q.contractAddresses), StorageItems(q.storage);
    OneKindKeys(c, d, e);
  }

  /** Only the first part has class hashes and only the second addresses. */
  lemma OneKindKeys(c: seq<Item>, d: seq<Item>, e: seq<Item>)
    requires ClassKeys(d) == [] && ClassKeys(e) == []
    requires AddressKeys(c) == [] && AddressKeys(e) == []
    ensures ClassKeys(c + d + e) == ClassKeys(c) && AddressKeys(c + d + e) == AddressKeys(d)
  {
    ClassKeysConcat(c + d, e);
    ClassKeysConcat(c, d);
    AddressKeysConcat(c + d, e);
    AddressKeysConcat(c, d);
    Seqs.Units(ClassKeys(c));
    Seqs.Units(AddressKeys(d));
  }

  /** A flattened query asks for exactly the storage keys the query lists under each address. */
  lemma FlattenSlots(q: Query, a: Felt)
    ensures SlotsOf(Flatten(q), a) == KeysOf(q.storage, a)
  {
    var c, d, e := ClassItems(q.classHashes), AddressItems(q.contractAddresses), StorageItems(q.storage);
    ClassItemKeys(q.classHashes, a);
    AddressItemKeys(q.contractAddresses, a);
    StorageItemKeys(q.storage, a);
    SlotsConcat(c, d, a);
    SlotsConcat(c + d, e, a);
  }

  lemma FlattenAddresses(q: Query)
    ensures AllAddressesIn(Flatten(q), Addresses(q.storage))
  {
    StorageItemAddresses(q.storage);
    var n := |q.classHashes| + |q.contractAddresses|;
    forall i | 0 <= i < |Flatten(q)| && Flatten(q)[i].StorageKey?
      ensures Flatten(q)[i].contract in Addresses(q.storage)
    {
      assert i >= n && Flatten(q)[i] == StorageItems(q.storage)[i - n];
    }
  }

  // ----- merging the oracle's answers

  lemma PathsUnion(t: Trie, ks: seq<Felt>, ls: seq<Felt>)
    ensures Paths(t, ks) + Paths(t, ls) == Paths(t, ks + ls)
  {
    forall h
      ensures OnPath(t, ks + ls, h) <==> OnPath(t, ks, h) || OnPath(t, ls, h)
    {
      if i :| 0 <= i < |ks| && h in t.path(ks[i]) {
        assert (ks + ls)[i] == ks[i];
      }
      if i :| 0 <= i < |ls| && h in t.path(ls[i]) {
        assert (ks + ls)[|ks| + i] == ls[i];
      }
    }
  }

  /** The node map at position `i` after the items `items` have been asked for. */
  function SlotPaths(chain: Chain, entries: seq<ContractKeys>, i: nat, keys: seq<Felt>): NodeMap
    requires i < |entries|
  {
    var a := entries[i].address;
    if AddressIndex(entries)[a] == i then Paths(chain.storageTrie(a), keys) else map[]
  }

  lemma SlotPathsUnion(chain: Chain, entries: seq<ContractKeys>, i: nat, ks: seq<Felt>, ls: seq<Felt>)
    requires i < |entries|
    ensures SlotPaths(chain, entries, i, ks) + SlotPaths(chain, entries, i, ls) == SlotPaths(chain, entries, i, ks + ls)
  {
    PathsUnion(chain.storageTrie(entries[i].address), ks, ls);
  }

  /** Storage position `i` holds `base` extended by the paths of `keys`, at every position. */
  ghost predicate Extended(chain: Chain, entries: seq<ContractKeys>, base: seq<NodeMap>, now: seq<NodeMap>,
                           chunk: seq<ContractKeys>) {
    && |now| == |base| == |entries|
    && forall i :: 0 <= i < |entries| ==>
         now[i] == base[i] + SlotPaths(chain, entries, i, KeysOf(chunk, entries[i].address))
  }

  lemma ExtendOnce(chain: Chain, entries: seq<ContractKeys>, base: seq<NodeMap>, now: seq<NodeMap>,
                   chunk: seq<ContractKeys>, e: ContractKeys)
    requires Extended(chain, entries, base, now, chunk)
    requires e.address in AddressIndex(entries)
    ensures var at := AddressIndex(entries)[e.address];
            Extended(chain, entries, base, now[at := now[at] + Paths(chain.storageTrie(e.address), e.keys)], chunk + [e])
  {
    var at := AddressIndex(entries)[e.address];
    var paths := Paths(chain.storageTrie(e.address), e.keys);
    forall i | 0 <= i < |entries|
      ensures now[at := now[at] + paths][i]
           == base[i] + SlotPaths(chain, entries, i, KeysOf(chunk + [e], entries[i].address))
    {
      var a := entries[i].address;
      var keys := KeysOf(chunk, a);
      KeysOfAppend(chunk, e, a);
      if i == at {
        SlotPathsUnion(chain, entries, i, keys, e.keys);
        Associative(base[i], SlotPaths(chain, entries, i, keys), paths);
      } else if e.address != a {
        assert keys + [] == keys;
      }
    }
  }

  lemma Associative(a: NodeMap, b: NodeMap, c: NodeMap)
    ensures (a + b) + c == a + (b + c)
  {
  }

  lemma AnswerEntry(chain: Chain, chunk: seq<ContractKeys>, i: nat)
    requires i < |chunk|
    ensures StoragePaths(chain, chunk)[i] == Paths(chain.storageTrie(chunk[i].address), chunk[i].keys)
  {
  }

  /** One chunk adds, at each position, the paths of the keys it asks under that position's address. */
  lemma {:induction false} ExtendByAnswer(chain: Chain, entries: seq<ContractKeys>, storage: seq<NodeMap>,
                                          chunk: seq<ContractKeys>, n: nat)
    requires |storage| == |entries| && n <= |chunk|
    requires AllKnown(chunk, Addresses(entries))
    ensures var r := ExtendUpTo(storage, chunk, StoragePaths(chain, chunk), AddressIndex(entries), n);
            r.Some? && Extended(chain, entries, storage, r.value, chunk[..n])
  {
    if n == 0 {
      ExtendedByNothing(chain, entries, storage);
    } else {
      ExtendByAnswer(chain, entries, storage, chunk, n - 1);
      var before := ExtendUpTo(storage, chunk, StoragePaths(chain, chunk), AddressIndex(entries), n - 1);
      ExtendNext(chain, entries, storage, chunk, before.value, n);
    }
  }

  /** One more step of the extension, written out. */
  lemma ExtendUnfold(storage: seq<NodeMap>, entries: seq<ContractKeys>, proofs: seq<NodeMap>, index: map<Felt, nat>,
                     now: seq<NodeMap>, n: nat)
    requires 0 < n <= |entries| && n <= |proofs|
    requires forall a :: a in index ==> index[a] < |storage|
    requires ExtendUpTo(storage, entries, proofs, index, n - 1) == Some(now) && entries[n - 1].address in index
    ensures |now| == |storage|
    ensures var at := index[entries[n - 1].address];
            ExtendUpTo(storage, entries, proofs, index, n) == Some(now[at := now[at] + proofs[n - 1]])
  {
  }

  lemma ExtendNext(chain: Chain, entries: seq<ContractKeys>, storage: seq<NodeMap>, chunk: seq<ContractKeys>,
                   now: seq<NodeMap>, n: nat)
    requires |storage| == |entries| && 0 < n <= |chunk|
    requires chunk[n - 1].address in AddressIndex(entries)
    requires ExtendUpTo(storage, chunk, StoragePaths(chain, chunk), AddressIndex(entries), n - 1) == Some(now)
    requires Extended(chain, entries, storage, now, chunk[..n - 1])
    ensures var r := ExtendUpTo(storage, chunk, StoragePaths(chain, chunk), AddressIndex(entries), n);
            r.Some? && Extended(chain, entries, storage, r.value, chunk[..n])
  {
    AnswerEntry(chain, chunk, n - 1);
    ExtendUnfold(storage, chunk, StoragePaths(chain, chunk), AddressIndex(entries), now, n);
    ExtendOnce(chain, entries, storage, now, chunk[..n - 1], chunk[n - 1]);
    assert chunk[..n] == chunk[..n - 1] + [chunk[n - 1]];
  }

  lemma ExtendedByNothing(chain: Chain, entries: seq<ContractKeys>, storage: seq<NodeMap>)
    requires |storage| == |entries|
    ensures Extended(chain, entries, storage, storage, [])
  {
    forall i | 0 <= i < |entries|
      ensures storage[i] == storage[i] + SlotPaths(chain, entries, i, [])
    {
      assert SlotPaths(chain, entries, i, []) == map[];
    }
  }

  /** What has been merged once the items `items` have been asked for, in any cut into chunks. */
  ghost predicate MergedSoFar(chain: Chain, original: Query, items: seq<Item>, p: StorageProof) {
    && p.classes == Paths(chain.classTrie, ClassKeys(items))
    && p.contractNodes == Paths(chain.contractTrie, AddressKeys(items))
    && p.leaves == LeavesOf(chain, AddressKeys(items))
    && p.roots == chain.roots
    && |p.storage| == |original.storage|
    && forall i :: 0 <= i < |p.storage| ==>
         p.storage[i] == SlotPaths(chain, original.storage, i, SlotsOf(items, original.storage[i].address))
  }

  lemma MergeOneMore(chain: Chain, original: Query, items: seq<Item>, part: seq<Item>, acc: StorageProof)
    requires MergedSoFar(chain, original, items, acc)
    requires AllAddressesIn(part, Addresses(original.storage))
    ensures var r := MergeChunk(acc, Collect(part), Answer(chain, Collect(part)), AddressIndex(original.storage));
            r.Some? && MergedSoFar(chain, original, items + part, r.value)
  {
    var chunk := Collect(part);
    CollectAddresses(part, Addresses(original.storage));
    ExtendByAnswer(chain, original.storage, acc.storage, chunk.storage, |chunk.storage|);
    assert chunk.storage[..|chunk.storage|] == chunk.storage;
    var r := MergeChunk(acc, chunk, Answer(chain, chunk), AddressIndex(original.storage)).value;
    PlainPartsMerge(chain, items, part);
    forall i | 0 <= i < |original.storage|
      ensures r.storage[i]
           == SlotPaths(chain, original.storage, i, SlotsOf(items + part, original.storage[i].address))
    {
      var a := original.storage[i].address;
      CollectKeys(part, a);
      SlotsConcat(items, part, a);
      SlotPathsUnion(chain, original.storage, i, SlotsOf(items, a), SlotsOf(part, a));
    }
  }

  lemma PlainPartsMerge(chain: Chain, items: seq<Item>, part: seq<Item>)
    ensures var answer := Answer(chain, Collect(part));
            && Paths(chain.classTrie, ClassKeys(items)) + answer.classes
                 == Paths(chain.classTrie, ClassKeys(items + part))
            && Paths(chain.contractTrie, AddressKeys(items)) + answer.contractNodes
                 == Paths(chain.contractTrie, AddressKeys(items + part))
            && LeavesOf(chain, AddressKeys(items)) + answer.leaves == LeavesOf(chain, AddressKeys(items + part))
  {
    CollectKeys(part, 0);
    ClassKeysConcat(items, part);
    AddressKeysConcat(items, part);
    PathsUnion(chain.classTrie, ClassKeys(items), ClassKeys(part));
    PathsUnion(chain.contractTrie, AddressKeys(items), AddressKeys(part));
    LeavesConcat(chain, AddressKeys(items), AddressKeys(part));
  }

  lemma LeavesConcat(chain: Chain, s: seq<Felt>, t: seq<Felt>)
    ensures LeavesOf(chain, s) + LeavesOf(chain, t) == LeavesOf(chain, s + t)
  {
  }

  /** The proof merged from the answers to the first `k` parts. */
  function MergedParts(chain: Chain, original: Query, parts: seq<seq<Item>>, k: nat): Option<StorageProof>
    requires k <= |parts| && parts != []
  {
    MergeUpTo(AnswerAll(chain, CollectAll(parts)), CollectAll(parts), original, k)
  }

  lemma MergeStart(chain: Chain, original: Query, parts: seq<seq<Item>>)
    requires parts != []
    ensures var r := MergedParts(chain, original, parts, 0);
            r.Some? && MergedSoFar(chain, original, [], r.value)
  {
    forall i | 0 <= i < |original.storage|
      ensures SlotPaths(chain, original.storage, i, []) == map[]
    {
    }
  }

  lemma MergedPartsStep(chain: Chain, original: Query, parts: seq<seq<Item>>, k: nat)
    requires 0 < k <= |parts| && MergedParts(chain, original, parts, k - 1).Some?
    ensures var chunk := Collect(parts[k - 1]);
            MergedParts(chain, original, parts, k)
              == MergeChunk(MergedParts(chain, original, parts, k - 1).value, chunk, Answer(chain, chunk),
                            AddressIndex(original.storage))
  {
  }

  lemma MergeNext(chain: Chain, original: Query, parts: seq<seq<Item>>, k: nat)
    requires 0 < k <= |parts|
    requires AllAddressesIn(parts[k - 1], Addresses(original.storage))
    requires var before := MergedParts(chain, original, parts, k - 1);
             before.Some? && MergedSoFar(chain, original, Concat(parts[..k - 1]), before.value)
    ensures var r := MergedParts(chain, original, parts, k);
            r.Some? && MergedSoFar(chain, original, Concat(parts[..k]), r.value)
  {
    assert Front(parts[..k]) == parts[..k - 1];
    MergedPartsStep(chain, original, parts, k);
    MergeOneMore(chain, original, Concat(parts[..k - 1]), parts[k - 1], MergedParts(chain, original, parts, k - 1).value);
  }

  lemma {:induction false} MergeParts(chain: Chain, original: Query, parts: seq<seq<Item>>, k: nat)
    requires k <= |parts| && parts != []
    requires forall part :: part in parts ==> AllAddressesIn(part, Addresses(original.storage))
    ensures var r := MergedParts(chain, original, parts, k);
            r.Some? && MergedSoFar(chain, original, Concat(parts[..k]), r.value)
  {
    if k == 0 {
      MergeStart(chain, original, parts);
    } else {
      MergeParts(chain, original, parts, k - 1);
      MergeNext(chain, original, parts, k);
    }
  }

  lemma {:induction false} PartsAddresses(parts: seq<seq<Item>>, known: set<Felt>)
    requires AllAddressesIn(Concat(parts), known)
    ensures forall part :: part in parts ==> AllAddressesIn(part, known)
  {
    if parts != [] {
      var whole := Concat(parts);
      var n := |Concat(Front(parts))|;
      assert whole[..n] == Concat(Front(parts)) && whole[n..] == Last(parts);
      forall i | 0 <= i < |Last(parts)| && Last(parts)[i].StorageKey?
        ensures Last(parts)[i].contract in known
      {
        assert whole[n + i] == Last(parts)[i];
      }
      PartsAddresses(Front(parts), known);
      assert parts == Front(parts) + [Last(parts)];
    }
  }

  /** The answers to the chunks of a query, merged. */
  function MergedAnswers(chain: Chain, q: Query, maxKeys: nat): Option<StorageProof>
    requires maxKeys > 0
  {
    Merge(AnswerAll(chain, Split(q, maxKeys)), Split(q, maxKeys), q)
  }

  lemma MergeWhole(chain: Chain, q: Query, maxKeys: nat)
    requires maxKeys > 0 && CountTotalKeys(q) > 0
    ensures var r := MergedAnswers(chain, q, maxKeys);
            r.Some? && MergedSoFar(chain, q, Flatten(q), r.value)
  {
    var parts := Chunks(Flatten(q), maxKeys);
    ChunksConcat(Flatten(q), maxKeys);
    FlattenCount(q);
    FlattenAddresses(q);
    PartsAddresses(parts, Addresses(q.storage));
    MergeParts(chain, q, parts, |parts|);
    assert parts[..|parts|] == parts;
  }

  /**
   For any query at all: merging the answers to its chunks never hits an unknown address.  Classes,
   contract nodes, leaves and roots are those of the single answer; the storage position that the
   index gives an address holds the paths of all keys asked under that address.
   */
  lemma MergeAnyQuery(chain: Chain, q: Query, maxKeys: nat)
    requires maxKeys > 0 && CountTotalKeys(q) > 0
    ensures var r := MergedAnswers(chain, q, maxKeys);
            && r.Some?
            && var whole := Answer(chain, q);
               && r.value.(storage := whole.storage) == whole
               && |r.value.storage| == |q.storage|
               && forall i :: 0 <= i < |q.storage| ==>
                    r.value.storage[i] == SlotPaths(chain, q.storage, i, KeysOf(q.storage, q.storage[i].address))
  {
    MergeWhole(chain, q, maxKeys);
    FlattenKeys(q);
    forall i | 0 <= i < |q.storage|
      ensures SlotsOf(Flatten(q), q.storage[i].address) == KeysOf(q.storage, q.storage[i].address)
    {
      FlattenSlots(q, q.storage[i].address);
    }
  }

  // ----- which queries may be chunked

  /** Of the entries for one address only the last may have keys. */
  predicate Mergeable(entries: seq<ContractKeys>) {
    forall i, j :: 0 <= i < j < |entries| && entries[i].address == entries[j].address ==> entries[i].keys == []
  }

  predicate DistinctAddresses(entries: seq<ContractKeys>) {
    forall i, j :: 0 <= i < j < |entries| ==> entries[i].address != entries[j].address
  }

  lemma {:induction false} EmptyKeys(entries: seq<ContractKeys>, a: Felt)
    requires forall i :: 0 <= i < |entries| && entries[i].address == a ==> entries[i].keys == []
    ensures KeysOf(entries, a) == []
  {
    if entries != [] {
      EmptyKeys(Front(entries), a);
    }
  }

  /** In a mergeable query the indexed entry of an address has all its keys, and any other has none. */
  lemma {:induction false} MergeableKeys(entries: seq<ContractKeys>, i: nat)
    requires Mergeable(entries) && i < |entries|
    ensures AddressIndex(entries)[entries[i].address] == i ==> KeysOf(entries, entries[i].address) == entries[i].keys
    ensures AddressIndex(entries)[entries[i].address] != i ==> entries[i].keys == []
  {
    var n, a := |entries| - 1, entries[i].address;
    if entries[n].address == a {
      EmptyKeys(Front(entries), a);
    } else {
      MergeableKeys(Front(entries), i);
    }
  }

  lemma MergeableRefines(chain: Chain, q: Query, maxKeys: nat)
    requires maxKeys > 0 && CountTotalKeys(q) > 0 && Mergeable(q.storage)
    ensures MergedAnswers(chain, q, maxKeys) == Some(Answer(chain, q))
  {
    MergeAnyQuery(chain, q, maxKeys);
    var merged, whole := MergedAnswers(chain, q, maxKeys).value, Answer(chain, q);
    forall i | 0 <= i < |q.storage|
      ensures merged.storage[i] == whole.storage[i]
    {
      MergeableKeys(q.storage, i);
      AnswerEntry(chain, q.storage, i);
      PathsOfNoKeys(chain.storageTrie(q.storage[i].address));
    }
    assert merged.storage == whole.storage;
  }

  lemma PathsOfNoKeys(t: Trie)
    ensures Paths(t, []) == map[]
  {
  }

  const ONE_NODE: Trie := Trie(map[0 := Binary(0, 0)], _ => {0})

  /** A block whose every path is the same single node, so that an entry's answer tells whether it has keys. */
  const ONE_NODE_CHAIN: Chain := Chain(ONE_NODE, ONE_NODE, _ => ONE_NODE, _ => Leaf(0, 0, None), Roots(0, 0, 0))

  lemma OneNodePaths(keys: seq<Felt>)
    ensures Paths(ONE_NODE, keys) == map[] <==> keys == []
  {
    if keys != [] {
      assert 0 in ONE_NODE.path(keys[0]);
      assert OnPath(ONE_NODE, keys, 0);
      assert 0 in Paths(ONE_NODE, keys);
    }
  }

  lemma RefinesOnlyMergeable(q: Query, maxKeys: nat)
    requires maxKeys > 0 && CountTotalKeys(q) > 0
    requires MergedAnswers(ONE_NODE_CHAIN, q, maxKeys) == Some(Answer(ONE_NODE_CHAIN, q))
    ensures Mergeable(q.storage)
  {
    MergeAnyQuery(ONE_NODE_CHAIN, q, maxKeys);
    forall i, j | 0 <= i < j < |q.storage| && q.storage[i].address == q.storage[j].address
      ensures q.storage[i].keys == []
    {
      AnswerEntry(ONE_NODE_CHAIN, q.storage, i);
      OneNodePaths(q.storage[i].keys);
    }
  }

  /**
   Chunked fetching refines the single request: for a query that asks anything, merging the answers
   to its chunks gives the answer to the whole query on every block, if and only if of the entries
   for one address only the last has keys.
   */
  lemma MergeRefinesExactly(q: Query, maxKeys: nat)
    requires maxKeys > 0 && CountTotalKeys(q) > 0
    ensures (forall chain: Chain :: MergedAnswers(chain, q, maxKeys) == Some(Answer(chain, q))) <==> Mergeable(q.storage)
  {
    if Mergeable(q.storage) {
      forall chain: Chain
        ensures MergedAnswers(chain, q, maxKeys) == Some(Answer(chain, q))
      {
        MergeableRefines(chain, q, maxKeys);
      }
    }
    if forall chain: Chain :: MergedAnswers(chain, q, maxKeys) == Some(Answer(chain, q)) {
      RefinesOnlyMergeable(q, maxKeys);
    }
  }

  /** The query of no keys has no chunk, and the merge rejects it; every other mergeable one is refined. */
  lemma MergeRefinesSingle(chain: Chain, q: Query, maxKeys: nat)
    requires maxKeys > 0 && Mergeable(q.storage)
    ensures MergedAnswers(chain, q, maxKeys) == if CountTotalKeys(q) == 0 then None else Some(Answer(chain, q))
  {
    FlattenCount(q);
    if CountTotalKeys(q) > 0 {
      MergeRefinesExactly(q, maxKeys);
    } else {
      assert Chunks(Flatten(q), maxKeys) == [];
    }
  }

  /** A query outside the condition: two entries with a key for one address merge into one position. */
  lemma DuplicateAddressesMergeWrongly(a: Felt, k: Felt)
    ensures var q := Query([], [], [ContractKeys(a, [k]), ContractKeys(a, [k])]);
            MergedAnswers(ONE_NODE_CHAIN, q, 1) != Some(Answer(ONE_NODE_CHAIN, q))
  {
    var q := Query([], [], [ContractKeys(a, [k]), ContractKeys(a, [k])]);
    NoEmptyCount(q.storage);
    if MergedAnswers(ONE_NODE_CHAIN, q, 1) == Some(Answer(ONE_NODE_CHAIN, q)) {
      RefinesOnlyMergeable(q, 1);
      assert false;
    }
  }
}
