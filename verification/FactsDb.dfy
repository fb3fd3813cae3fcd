/**
 The facts database built from a merged storage proof: real nodes, leaves, and a dummy node for
 every child hash whose preimage is in no proof, so that a descent never meets a missing key.
 */
module FactsDb {
  import opened Wrappers
  import opened Felts
  import opened State
  import opened StorageQuery
  import opened StorageMerge
  import opened StorageReads

  datatype ContractState = ContractState(nonce: Felt, classHash: Felt, storageRoot: Felt)

  datatype DbKey =
    | InnerKey(hash: Felt)
    | ContractKey(hash: Felt)
    | SlotKey(address: Felt, hash: Felt)
    | ClassKey(hash: Felt)

  datatype DbValue =
    | NodeValue(node: MerkleNode)
    | ContractValue(state: ContractState)
    | SlotValue(value: Felt)
    | ClassValue(compiled: Felt)

  type DbMap = map<DbKey, DbValue>

  /** The three leaf hash functions of the committer; nothing is assumed about them. */
  datatype LeafHashes = LeafHashes(contract: ContractState -> Felt, slot: Felt -> Felt, compiled: Felt -> Felt)

  const DUMMY: DbValue := NodeValue(Binary(0, 0))

  function Lookup(db: DbMap, k: DbKey): Option<DbValue> {
    if k in db then Some(db[k]) else None
  }

  function StateOf(leaf: Leaf): ContractState {
    ContractState(leaf.nonce, leaf.classHash, RootOf(leaf))
  }

  function Children(n: MerkleNode): set<Felt> {
    match n
    case Binary(l, r) => {l, r}
    case Edge(_, _, c) => {c}
  }

  function ChildTowards(n: MerkleNode, right: bool): Felt {
    match n
    case Binary(l, r) => if right then r else l
    case Edge(_, _, c) => c
  }

  predicate IsChild(nodes: NodeMap, h: Felt) {
    exists p :: p in nodes && h in Children(nodes[p])
  }

  /** All node maps of a proof, in the order they are inserted. */
  function NodeMaps(p: StorageProof): seq<NodeMap> {
    [p.contractNodes, p.classes] + p.storage
  }

  // ----- what each pass does at one key

  function InnerAt(nodes: NodeMap, k: DbKey, v: Option<DbValue>): Option<DbValue> {
    if k.InnerKey? && k.hash in nodes then Some(NodeValue(nodes[k.hash])) else v
  }

  function DummyAt(nodes: NodeMap, k: DbKey, v: Option<DbValue>): Option<DbValue> {
    if v.None? && k.InnerKey? && k.hash !in nodes && IsChild(nodes, k.hash) then Some(DUMMY) else v
  }

  function OrphanAt(nodes: NodeMap, child: Felt, k: DbKey, v: Option<DbValue>): Option<DbValue> {
    if v.None? && k == InnerKey(child) && child !in nodes then Some(DUMMY) else v
  }

  function InnersAt(maps: seq<NodeMap>, k: DbKey, v: Option<DbValue>): Option<DbValue> {
    if maps == [] then v else InnerAt(Last(maps), k, InnersAt(Front(maps), k, v))
  }

  function DummiesAt(maps: seq<NodeMap>, k: DbKey, v: Option<DbValue>): Option<DbValue> {
    if maps == [] then v else DummyAt(Last(maps), k, DummiesAt(Front(maps), k, v))
  }

  /** A contract leaf is stored under a hash exactly when some leaf of the proof has it; of several, the last. */
  ghost predicate ContractLeavesAt(hashes: LeafHashes, leaves: seq<Leaf>, k: DbKey, v: Option<DbValue>) {
    k.ContractKey? ==>
      && (v.Some? <==> exists i :: 0 <= i < |leaves| && hashes.contract(StateOf(leaves[i])) == k.hash)
      && (v.Some? ==>
            && v.value.ContractValue?
            && exists i :: LastLeaf(hashes, leaves, k.hash, i) && v.value.state == StateOf(leaves[i]))
  }

  /** Leaf `i` has the hash and no later leaf does. */
  ghost predicate LastLeaf(hashes: LeafHashes, leaves: seq<Leaf>, h: Felt, i: int) {
    && 0 <= i < |leaves|
    && hashes.contract(StateOf(leaves[i])) == h
    && forall j :: i < j < |leaves| ==> hashes.contract(StateOf(leaves[j])) != h
  }

  ghost predicate SlotLeavesAt(hashes: LeafHashes, slots: map<(Felt, Felt), Felt>, k: DbKey, v: Option<DbValue>) {
    k.SlotKey? ==>
      && (v.Some? <==> exists s :: s in slots && s.0 == k.address && hashes.slot(slots[s]) == k.hash)
      && (v.Some? ==> v.value.SlotValue? && hashes.slot(v.value.value) == k.hash
                      && exists s :: s in slots && s.0 == k.address && slots[s] == v.value.value)
  }

  ghost predicate ClassLeavesAt(hashes: LeafHashes, classes: map<Felt, Felt>, k: DbKey, v: Option<DbValue>) {
    k.ClassKey? ==>
      && (v.Some? <==> exists c :: c in classes && hashes.compiled(classes[c]) == k.hash)
      && (v.Some? ==> v.value.ClassValue? && hashes.compiled(v.value.compiled) == k.hash
                      && exists c :: c in classes && classes[c] == v.value.compiled)
  }

  /** The finished map: inner nodes and dummies as the passes leave them, and the three kinds of leaves. */
  ghost predicate Built(db: DbMap, hashes: LeafHashes, p: StorageProof, initial: StateMaps) {
    forall k: DbKey ::
      && (k.InnerKey? ==> Lookup(db, k) == DummiesAt(NodeMaps(p), k, InnersAt(NodeMaps(p), k, None)))
      && ContractLeavesAt(hashes, p.leaves, k, Lookup(db, k))
      && SlotLeavesAt(hashes, initial.storage, k, Lookup(db, k))
      && ClassLeavesAt(hashes, initial.compiledClassHashes, k, Lookup(db, k))
  }

  // ----- the passes

  class Database {
    var db: DbMap

    constructor ()
      ensures db == map[]
    {
      db := map[];
    }

    method InsertInnerNodes(nodes: NodeMap)
      modifies this
      ensures forall k: DbKey :: Lookup(db, k) == InnerAt(nodes, k, old(Lookup(db, k)))
    {
      var rest := nodes.Keys;
      while rest != {}
        invariant rest <= nodes.Keys
        invariant forall k: DbKey :: Lookup(db, k) == InnerAt(nodes - rest, k, old(Lookup(db, k)))
      {
        var h :| h in rest;
        db := db[InnerKey(h) := NodeValue(nodes[h])];
        rest := rest - {h};
      }
    }

    /** Errors when the proof has not one leaf per address. */
    method InsertContractLeaves(hashes: LeafHashes, leaves: seq<Leaf>, addresses: seq<Felt>) returns (ok: bool)
      requires forall k: DbKey :: k.ContractKey? ==> Lookup(db, k).None?
      modifies this
      ensures ok <==> |leaves| == |addresses|
      ensures forall k: DbKey :: !k.ContractKey? ==> Lookup(db, k) == old(Lookup(db, k))
      ensures ok ==> forall k: DbKey :: ContractLeavesAt(hashes, leaves, k, Lookup(db, k))
    {
      if |leaves| != |addresses| {
        return false;
      }
      for i := 0 to |leaves|
        invariant forall k: DbKey :: !k.ContractKey? ==> Lookup(db, k) == old(Lookup(db, k))
        invariant forall k: DbKey :: ContractLeavesAt(hashes, leaves[..i], k, Lookup(db, k))
      {
        var state := StateOf(leaves[i]);
        ghost var before := db;
        db := db[ContractKey(hashes.contract(state)) := ContractValue(state)];
        forall k: DbKey
          ensures ContractLeavesAt(hashes, leaves[..i + 1], k, Lookup(db, k))
        {
          assert leaves[..i + 1] == leaves[..i] + [leaves[i]];
          OneMoreLeaf(hashes, leaves[..i], leaves[i], before, k);
        }
      }
      assert leaves[..|leaves|] == leaves;
      ok := true;
    }

    method InsertStorageLeaves(hashes: LeafHashes, slots: map<(Felt, Felt), Felt>)
      requires forall k: DbKey :: k.SlotKey? ==> Lookup(db, k).None?
      modifies this
      ensures forall k: DbKey :: !k.SlotKey? ==> Lookup(db, k) == old(Lookup(db, k))
      ensures forall k: DbKey :: SlotLeavesAt(hashes, slots, k, Lookup(db, k))
    {
      var rest := slots.Keys;
      ghost var done: map<(Felt, Felt), Felt> := map[];
      while rest != {}
        invariant rest <= slots.Keys && done == slots - rest
        invariant forall k: DbKey :: !k.SlotKey? ==> Lookup(db, k) == old(Lookup(db, k))
        invariant forall k: DbKey :: SlotLeavesAt(hashes, done, k, Lookup(db, k))
      {
        var s :| s in rest;
        ghost var before := db;
        db := db[SlotKey(s.0, hashes.slot(slots[s])) := SlotValue(slots[s])];
        forall k: DbKey
          ensures SlotLeavesAt(hashes, done[s := slots[s]], k, Lookup(db, k))
        {
          OneMoreSlot(hashes, done, s, slots[s], before, k);
        }
        rest := rest - {s};
        done := done[s := slots[s]];
      }
      assert done == slots;
    }

    method InsertCompiledClassLeaves(hashes: LeafHashes, classes: map<Felt, Felt>)
      requires forall k: DbKey :: k.ClassKey? ==> Lookup(db, k).None?
      modifies this
      ensures forall k: DbKey :: !k.ClassKey? ==> Lookup(db, k) == old(Lookup(db, k))
      ensures forall k: DbKey :: ClassLeavesAt(hashes, classes, k, Lookup(db, k))
    {
      var rest := classes.Keys;
      ghost var done: map<Felt, Felt> := map[];
      while rest != {}
        invariant rest <= classes.Keys && done == classes - rest
        invariant forall k: DbKey :: !k.ClassKey? ==> Lookup(db, k) == old(Lookup(db, k))
        invariant forall k: DbKey :: ClassLeavesAt(hashes, done, k, Lookup(db, k))
      {
        var c :| c in rest;
        ghost var before := db;
        db := db[ClassKey(hashes.compiled(classes[c])) := ClassValue(classes[c])];
        forall k: DbKey
          ensures ClassLeavesAt(hashes, done[c := classes[c]], k, Lookup(db, k))
        {
          OneMoreClass(hashes, done, c, classes[c], before, k);
        }
        rest := rest - {c};
        done := done[c := classes[c]];
      }
      assert done == classes;
    }

    method AddDummyForOrphanChild(child: Felt, nodes: NodeMap)
      modifies this
      ensures forall k: DbKey :: Lookup(db, k) == OrphanAt(nodes, child, k, old(Lookup(db, k)))
    {
      if child !in nodes && InnerKey(child) !in db {
        db := db[InnerKey(child) := DUMMY];
      }
    }

    method AddDummyNodesForOrphanHashes(nodes: NodeMap)
      modifies this
      ensures forall k: DbKey :: Lookup(db, k) == DummyAt(nodes, k, old(Lookup(db, k)))
    {
      var rest := nodes.Keys;
      ghost var done: NodeMap := map[];
      while rest != {}
        invariant rest <= nodes.Keys && done == nodes - rest
        invariant forall k: DbKey :: Lookup(db, k) == OrphansAt(nodes, done, k, old(Lookup(db, k)))
      {
        var p :| p in rest;
        match nodes[p] {
          case Binary(left, right) =>
            AddDummyForOrphanChild(left, nodes);
            AddDummyForOrphanChild(right, nodes);
          case Edge(_, _, child) =>
            AddDummyForOrphanChild(child, nodes);
        }
        forall h: Felt
          ensures IsChild(done[p := nodes[p]], h) <==> IsChild(done, h) || h in Children(nodes[p])
        {
          OneMoreParent(done, p, nodes[p], h);
        }
        rest := rest - {p};
        done := done[p := nodes[p]];
      }
      assert done == nodes;
    }

    /** Fills an empty database from a proof; false is the source's error return. */
    method CreateFromStorageProof(hashes: LeafHashes, p: StorageProof, q: Query, initial: StateMaps) returns (ok: bool)
      requires db == map[]
      modifies this
      ensures ok <==> |p.leaves| == |q.contractAddresses|
      ensures ok ==> Built(db, hashes, p, initial)
    {
      var maps := NodeMaps(p);
      for i := 0 to |maps|
        invariant forall k: DbKey :: Lookup(db, k) == InnersAt(maps[..i], k, None)
      {
        InsertInnerNodes(maps[i]);
        assert Front(maps[..i + 1]) == maps[..i];
      }
      assert maps[..|maps|] == maps;
      OnlyInner(db, maps);
      ok := InsertContractLeaves(hashes, p.leaves, q.contractAddresses);
      if !ok {
        return;
      }
      InsertStorageLeaves(hashes, initial.storage);
      InsertCompiledClassLeaves(hashes, initial.compiledClassHashes);
      ghost var before := db;
      for i := 0 to |maps|
        invariant forall k: DbKey :: Lookup(db, k) == DummiesAt(maps[..i], k, Lookup(before, k))
      {
        AddDummyNodesForOrphanHashes(maps[i]);
        assert Front(maps[..i + 1]) == maps[..i];
      }
      LeavesUntouched(maps);
    }
  }

  /** What the dummy pass has done at a key once the parents `done` have been visited. */
  function OrphansAt(nodes: NodeMap, done: NodeMap, k: DbKey, v: Option<DbValue>): Option<DbValue> {
    if v.None? && k.InnerKey? && k.hash !in nodes && IsChild(done, k.hash) then Some(DUMMY) else v
  }

  lemma OneMoreParent(done: NodeMap, p: Felt, n: MerkleNode, h: Felt)
    requires p !in done
    ensures IsChild(done[p := n], h) <==> IsChild(done, h) || h in Children(n)
  {
    var after := done[p := n];
    if IsChild(done, h) {
      var x :| x in done && h in Children(done[x]);
      assert x in after && h in Children(after[x]);
    }
    if h in Children(n) {
      assert p in after && h in Children(after[p]);
    }
  }

  lemma OneMoreLeaf(hashes: LeafHashes, leaves: seq<Leaf>, leaf: Leaf, db: DbMap, k: DbKey)
    requires ContractLeavesAt(hashes, leaves, k, Lookup(db, k))
    ensures var after := db[ContractKey(hashes.contract(StateOf(leaf))) := ContractValue(StateOf(leaf))];
            ContractLeavesAt(hashes, leaves + [leaf], k, Lookup(after, k))
  {
    var more, n := leaves + [leaf], |leaves|;
    assert more[n] == leaf && forall i :: 0 <= i < n ==> more[i] == leaves[i];
    if k.ContractKey? {
      if hashes.contract(StateOf(leaf)) == k.hash {
        assert LastLeaf(hashes, more, k.hash, n);
      } else if Lookup(db, k).Some? {
        var i :| LastLeaf(hashes, leaves, k.hash, i) && Lookup(db, k).value.state == StateOf(leaves[i]);
        assert more[i] == leaves[i] && LastLeaf(hashes, more, k.hash, i);
      }
    }
  }

  lemma OneMoreSlot(hashes: LeafHashes, slots: map<(Felt, Felt), Felt>, s: (Felt, Felt), v: Felt, db: DbMap, k: DbKey)
    requires s !in slots && SlotLeavesAt(hashes, slots, k, Lookup(db, k))
    ensures var after := db[SlotKey(s.0, hashes.slot(v)) := SlotValue(v)];
            SlotLeavesAt(hashes, slots[s := v], k, Lookup(after, k))
  {
    var more := slots[s := v];
    assert more[s] == v && forall t :: t in slots ==> t in more && more[t] == slots[t];
  }

  lemma OneMoreClass(hashes: LeafHashes, classes: map<Felt, Felt>, c: Felt, v: Felt, db: DbMap, k: DbKey)
    requires c !in classes && ClassLeavesAt(hashes, classes, k, Lookup(db, k))
    ensures var after := db[ClassKey(hashes.compiled(v)) := ClassValue(v)];
            ClassLeavesAt(hashes, classes[c := v], k, Lookup(after, k))
  {
    var more := classes[c := v];
    assert more[c] == v && forall d :: d in classes ==> d in more && more[d] == classes[d];
  }

  lemma {:induction false} InnerOnly(maps: seq<NodeMap>, k: DbKey, v: Option<DbValue>)
    requires !k.InnerKey?
    ensures InnersAt(maps, k, v) == v && DummiesAt(maps, k, v) == v
  {
    if maps != [] {
      InnerOnly(Front(maps), k, v);
    }
  }

  lemma OnlyInner(db: DbMap, maps: seq<NodeMap>)
    requires forall k: DbKey :: Lookup(db, k) == InnersAt(maps, k, None)
    ensures forall k: DbKey :: !k.InnerKey? ==> Lookup(db, k).None?
  {
    forall k: DbKey | !k.InnerKey?
      ensures Lookup(db, k).None?
    {
      InnerOnly(maps, k, None);
    }
  }

  lemma LeavesUntouched(maps: seq<NodeMap>)
    ensures forall k: DbKey, v :: !k.InnerKey? ==> DummiesAt(maps, k, v) == v
  {
    forall k: DbKey, v | !k.InnerKey?
      ensures DummiesAt(maps, k, v) == v
    {
      InnerOnly(maps, k, v);
    }
  }

  // ----- meaning of the finished map

  predicate HasChild(maps: seq<NodeMap>, h: Felt) {
    exists i :: 0 <= i < |maps| && IsChild(maps[i], h)
  }

  lemma {:induction false} InnersMeaning(maps: seq<NodeMap>, h: Felt)
    ensures InnersAt(maps, InnerKey(h), None).Some? <==> HasNode(maps, h)
    ensures HasNode(maps, h) ==>
              exists i :: LastWith(maps, h, i) && InnersAt(maps, InnerKey(h), None) == Some(NodeValue(maps[i][h]))
  {
    if maps != [] {
      var n, front := |maps| - 1, Front(maps);
      InnersMeaning(front, h);
      assert forall i :: 0 <= i < n ==> front[i] == maps[i];
      if h in maps[n] {
        assert LastWith(maps, h, n);
      } else if HasNode(maps, h) {
        var j :| 0 <= j < |maps| && h in maps[j];
        assert h in front[j];
        var i :| LastWith(front, h, i) && InnersAt(front, InnerKey(h), None) == Some(NodeValue(front[i][h]));
        assert LastWith(maps, h, i);
      }
    }
  }

  lemma {:induction false} DummiesMeaning(maps: seq<NodeMap>, h: Felt, v: Option<DbValue>)
    requires forall i :: 0 <= i < |maps| && h in maps[i] ==> v.Some?
    ensures DummiesAt(maps, InnerKey(h), v) == if v.None? && HasChild(maps, h) then Some(DUMMY) else v
  {
    if maps != [] {
      DummiesMeaning(Front(maps), h, v);
      var n := |maps| - 1;
      if HasChild(maps, h) && !IsChild(maps[n], h) {
        var i :| 0 <= i < |maps| && IsChild(maps[i], h);
        assert Front(maps)[i] == maps[i];
      }
      if HasChild(Front(maps), h) {
        var i :| 0 <= i < n && IsChild(Front(maps)[i], h);
        assert IsChild(maps[i], h);
      }
    }
  }

  /** Some part of the proof gives hash `h` the node `n`. */
  ghost predicate Holds(p: StorageProof, h: Felt, n: MerkleNode) {
    || (h in p.contractNodes && p.contractNodes[h] == n)
    || (h in p.classes && p.classes[h] == n)
    || exists i :: 0 <= i < |p.storage| && h in p.storage[i] && p.storage[i][h] == n
  }

  ghost predicate InProof(p: StorageProof, h: Felt) {
    h in p.contractNodes || h in p.classes || InStorage(p, h)
  }

  ghost predicate InStorage(p: StorageProof, h: Felt) {
    exists i :: 0 <= i < |p.storage| && h in p.storage[i]
  }

  /** `h` is the hash that some node of the proof has towards the left or the right. */
  ghost predicate ChildInProof(p: StorageProof, h: Felt) {
    exists x, n, right :: Holds(p, x, n) && ChildTowards(n, right) == h
  }

  lemma PartsOfProof(p: StorageProof)
    ensures |NodeMaps(p)| == |p.storage| + 2 && NodeMaps(p)[0] == p.contractNodes && NodeMaps(p)[1] == p.classes
    ensures forall i :: 0 <= i < |p.storage| ==> NodeMaps(p)[i + 2] == p.storage[i]
    ensures forall i :: 2 <= i < |NodeMaps(p)| ==> NodeMaps(p)[i] == p.storage[i - 2]
  {
  }

  lemma MapsInProof(p: StorageProof, h: Felt)
    ensures HasNode(NodeMaps(p), h) <==> InProof(p, h)
  {
    var maps := NodeMaps(p);
    PartsOfProof(p);
    assert maps[0] == p.contractNodes && maps[1] == p.classes;
    if InStorage(p, h) {
      var i :| 0 <= i < |p.storage| && h in p.storage[i];
      assert h in maps[i + 2];
    }
  }

  lemma HeldInMaps(p: StorageProof, h: Felt, n: MerkleNode)
    ensures Holds(p, h, n) <==> exists i :: 0 <= i < |NodeMaps(p)| && h in NodeMaps(p)[i] && NodeMaps(p)[i][h] == n
  {
    var maps := NodeMaps(p);
    PartsOfProof(p);
    if i :| 0 <= i < |p.storage| && h in p.storage[i] && p.storage[i][h] == n {
      assert h in maps[i + 2] && maps[i + 2][h] == n;
    }
    if i :| 0 <= i < |maps| && h in maps[i] && maps[i][h] == n {
      assert i >= 2 ==> maps[i] == p.storage[i - 2];
    }
  }

  lemma ChildrenAreTowards(n: MerkleNode, h: Felt)
    ensures h in Children(n) <==> exists right :: ChildTowards(n, right) == h
  {
    assert ChildTowards(n, false) in Children(n) && ChildTowards(n, true) in Children(n);
  }

  lemma ChildrenInProof(p: StorageProof, h: Felt)
    ensures HasChild(NodeMaps(p), h) <==> ChildInProof(p, h)
  {
    var maps := NodeMaps(p);
    if HasChild(maps, h) {
      var i :| 0 <= i < |maps| && IsChild(maps[i], h);
      var x :| x in maps[i] && h in Children(maps[i][x]);
      HeldInMaps(p, x, maps[i][x]);
      ChildrenAreTowards(maps[i][x], h);
    }
    if ChildInProof(p, h) {
      var x, n, right :| Holds(p, x, n) && ChildTowards(n, right) == h;
      HeldInMaps(p, x, n);
      ChildrenAreTowards(n, h);
      var i :| 0 <= i < |maps| && x in maps[i] && maps[i][x] == n;
      assert IsChild(maps[i], h);
    }
  }

  lemma LastInnerWins(db: DbMap, hashes: LeafHashes, p: StorageProof, initial: StateMaps, h: Felt)
    requires Built(db, hashes, p, initial)
    ensures forall i :: LastWith(NodeMaps(p), h, i) ==> Lookup(db, InnerKey(h)) == Some(NodeValue(NodeMaps(p)[i][h]))
    ensures HasNode(NodeMaps(p), h) ==> exists i :: LastWith(NodeMaps(p), h, i)
    ensures !HasNode(NodeMaps(p), h) ==>
              Lookup(db, InnerKey(h)) == if HasChild(NodeMaps(p), h) then Some(DUMMY) else None
  {
    var maps := NodeMaps(p);
    InnersMeaning(maps, h);
    assert forall i :: 0 <= i < |maps| && h in maps[i] ==> HasNode(maps, h);
    DummiesMeaning(maps, h, InnersAt(maps, InnerKey(h), None));
    assert forall i, j :: LastWith(maps, h, i) && LastWith(maps, h, j) ==> i == j;
  }

  /**
   An inner key holds the node of the last storage proof with its hash; without one that of the class
   proof, then that of the contract proof; the dummy if it is only a child; and nothing otherwise.
   */
  lemma FactsMeaning(db: DbMap, hashes: LeafHashes, p: StorageProof, initial: StateMaps, h: Felt)
    requires Built(db, hashes, p, initial)
    ensures forall i :: 0 <= i < |p.storage| && h in p.storage[i] && (forall j :: i < j < |p.storage| ==> h !in p.storage[j])
              ==> Lookup(db, InnerKey(h)) == Some(NodeValue(p.storage[i][h]))
    ensures !InStorage(p, h) && h in p.classes ==> Lookup(db, InnerKey(h)) == Some(NodeValue(p.classes[h]))
    ensures !InStorage(p, h) && h !in p.classes && h in p.contractNodes ==>
              Lookup(db, InnerKey(h)) == Some(NodeValue(p.contractNodes[h]))
    ensures !InProof(p, h) ==> Lookup(db, InnerKey(h)) == if ChildInProof(p, h) then Some(NodeValue(Binary(0, 0))) else None
  {
    var maps := NodeMaps(p);
    PartsOfProof(p);
    MapsInProof(p, h);
    ChildrenInProof(p, h);
    LastInnerWins(db, hashes, p, initial, h);
    forall i | 0 <= i < |p.storage| && h in p.storage[i] && (forall j :: i < j < |p.storage| ==> h !in p.storage[j])
      ensures Lookup(db, InnerKey(h)) == Some(NodeValue(p.storage[i][h]))
    {
      assert LastWith(maps, h, i + 2);
    }
    if !InStorage(p, h) {
      assert h in p.classes ==> LastWith(maps, h, 1);
      assert h in p.contractNodes && h !in p.classes ==> LastWith(maps, h, 0);
    }
  }

  lemma {:induction false} LastOf(maps: seq<NodeMap>, h: Felt) returns (i: nat)
    requires exists j :: 0 <= j < |maps| && h in maps[j]
    ensures i < |maps| && h in maps[i] && forall j :: i < j < |maps| ==> h !in maps[j]
  {
    i := |maps| - 1;
    if h !in maps[i] {
      var j :| 0 <= j < |maps| && h in maps[j];
      assert Front(maps)[j] == maps[j];
      i := LastOf(Front(maps), h);
    }
  }

  /** Every hash of the proof reads back a node that the proof gives it. */
  lemma HeldNode(db: DbMap, hashes: LeafHashes, p: StorageProof, initial: StateMaps, h: Felt) returns (n: MerkleNode)
    requires Built(db, hashes, p, initial) && InProof(p, h)
    ensures Holds(p, h, n) && Lookup(db, InnerKey(h)) == Some(NodeValue(n))
  {
    FactsMeaning(db, hashes, p, initial, h);
    if InStorage(p, h) {
      var i := LastOf(p.storage, h);
      n := p.storage[i][h];
    } else {
      n := if h in p.classes then p.classes[h] else p.contractNodes[h];
    }
  }

  /** The proof gives every hash one node at most. */
  ghost predicate Agree(p: StorageProof) {
    forall h, m, n :: Holds(p, h, m) && Holds(p, h, n) ==> m == n
  }

  /** The database gives every hash of the proof every node that the proof gives it. */
  ghost predicate ReadsBack(db: DbMap, p: StorageProof) {
    forall h, n :: Holds(p, h, n) ==> Lookup(db, InnerKey(h)) == Some(NodeValue(n))
  }

  /** Every node of every part of the proof reads back, if and only if the parts agree on shared hashes. */
  lemma OwnNodesExactlyWhenAgreed(db: DbMap, hashes: LeafHashes, p: StorageProof, initial: StateMaps)
    requires Built(db, hashes, p, initial)
    ensures Agree(p) <==> ReadsBack(db, p)
  {
    if Agree(p) {
      forall h, n | Holds(p, h, n)
        ensures Lookup(db, InnerKey(h)) == Some(NodeValue(n))
      {
        var m := HeldNode(db, hashes, p, initial, h);
      }
    }
  }

  /** A disagreement: where the class proof gives a contract node's hash another node, that node is lost. */
  lemma DisagreementLastWins(db: DbMap, hashes: LeafHashes, roots: Roots, initial: StateMaps, h: Felt, a: MerkleNode,
                             b: MerkleNode)
    requires a != b && Built(db, hashes, StorageProof(map[h := b], map[h := a], [], [], roots), initial)
    ensures Lookup(db, InnerKey(h)) == Some(NodeValue(b))
  {
    FactsMeaning(db, hashes, StorageProof(map[h := b], map[h := a], [], [], roots), initial, h);
  }

  // ----- order of the dummy passes

  ghost predicate SameMaps(a: seq<NodeMap>, b: seq<NodeMap>) {
    forall m :: m in a <==> m in b
  }

  lemma {:induction false} DummiesByMembership(maps: seq<NodeMap>, k: DbKey, v: Option<DbValue>)
    ensures DummiesAt(maps, k, v)
         == if v.None? && k.InnerKey? && exists m :: m in maps && k.hash !in m && IsChild(m, k.hash) then Some(DUMMY) else v
  {
    if maps != [] {
      DummiesByMembership(Front(maps), k, v);
      assert maps == Front(maps) + [Last(maps)];
      assert forall m :: m in maps <==> m in Front(maps) || m == Last(maps);
    }
  }

  /** The dummy passes give the same result in any order and with any repetition. */
  lemma DummyOrderIrrelevant(a: seq<NodeMap>, b: seq<NodeMap>, k: DbKey, v: Option<DbValue>)
    requires SameMaps(a, b)
    ensures DummiesAt(a, k, v) == DummiesAt(b, k, v)
  {
    DummiesByMembership(a, k, v);
    DummiesByMembership(b, k, v);
  }

  // ----- closure

  datatype Descent = Missing | AtDummy | AtNode(hash: Felt)

  /** Follows inner keys downwards from `h`, stopping at a dummy. */
  function Descend(db: DbMap, h: Felt, turns: seq<bool>): Descent
    decreases |turns|
  {
    match Lookup(db, InnerKey(h))
    case Some(NodeValue(n)) =>
      if NodeValue(n) == DUMMY then AtDummy
      else if turns == [] then AtNode(h)
      else Descend(db, ChildTowards(n, turns[0]), turns[1..])
    case _ => Missing
  }

  /**
   A descent that starts at a hash of the contract, the class or any storage proof never meets a
   missing key, whether or not the proofs agree.
   */
  lemma {:induction false} DescentNeverMissing(db: DbMap, hashes: LeafHashes, p: StorageProof, initial: StateMaps,
                                               h: Felt, turns: seq<bool>)
    requires Built(db, hashes, p, initial) && InProof(p, h)
    ensures Descend(db, h, turns) != Missing
    decreases |turns|
  {
    var n := HeldNode(db, hashes, p, initial, h);
    if turns != [] && NodeValue(n) != DUMMY {
      var child := ChildTowards(n, turns[0]);
      if InProof(p, child) {
        DescentNeverMissing(db, hashes, p, initial, child, turns[1..]);
      } else {
        FactsMeaning(db, hashes, p, initial, child);
      }
    }
  }

  // ----- the database of a fetched proof

  /** `n` is the block's node at `h`, on the path of a class hash, an address or a storage key asked for. */
  ghost predicate AskedNode(chain: Chain, q: Query, h: Felt, n: MerkleNode) {
    || (exists i :: 0 <= i < |q.classHashes| && OnTrie(chain.classTrie, q.classHashes[i], h, n))
    || (exists i :: 0 <= i < |q.contractAddresses| && OnTrie(chain.contractTrie, q.contractAddresses[i], h, n))
    || exists i, j :: 0 <= i < |q.storage| && 0 <= j < |q.storage[i].keys|
                      && OnTrie(chain.storageTrie(q.storage[i].address), q.storage[i].keys[j], h, n)
  }

  /** `n` is the trie's node at `h`, on the path of `key`. */
  ghost predicate OnTrie(t: Trie, key: Felt, h: Felt, n: MerkleNode) {
    h in t.path(key) && h in t.nodes && t.nodes[h] == n
  }

  lemma PathsHold(t: Trie, keys: seq<Felt>, h: Felt, n: MerkleNode)
    ensures h in Paths(t, keys) && Paths(t, keys)[h] == n <==> exists i :: 0 <= i < |keys| && OnTrie(t, keys[i], h, n)
  {
    if h in Paths(t, keys) && Paths(t, keys)[h] == n {
      var i :| 0 <= i < |keys| && h in t.path(keys[i]);
      assert OnTrie(t, keys[i], h, n);
    }
    if i :| 0 <= i < |keys| && OnTrie(t, keys[i], h, n) {
      assert h in t.path(keys[i]);
      assert OnPath(t, keys, h);
    }
  }

  /** The answer to a query holds exactly the nodes it asks for. */
  lemma AnswerHolds(chain: Chain, q: Query, h: Felt, n: MerkleNode)
    ensures Holds(Answer(chain, q), h, n) <==> AskedNode(chain, q, h, n)
  {
    var p := Answer(chain, q);
    PathsHold(chain.classTrie, q.classHashes, h, n);
    PathsHold(chain.contractTrie, q.contractAddresses, h, n);
    forall i | 0 <= i < |q.storage|
      ensures h in p.storage[i] && p.storage[i][h] == n
          <==> exists j :: 0 <= j < |q.storage[i].keys|
                           && OnTrie(chain.storageTrie(q.storage[i].address), q.storage[i].keys[j], h, n)
    {
      AnswerEntry(chain, q.storage, i);
      PathsHold(chain.storageTrie(q.storage[i].address), q.storage[i].keys, h, n);
    }
  }

  /**
   The database built from a chunked fetch against an honest node: from every node asked for no
   descent meets a missing key; and the database holds the block's own node at each of them, if and
   only if the block's tries agree there.
   */
  lemma FetchedFactsClosed(chain: Chain, node: Node, q: Query, db: DbMap, hashes: LeafHashes, initial: StateMaps)
    requires Honest(chain, node) && Mergeable(q.storage)
    requires Fetch(node, q).Ok? && Built(db, hashes, Fetch(node, q).value, initial)
    ensures forall h, n, turns :: AskedNode(chain, q, h, n) ==> Descend(db, h, turns) != Missing
    ensures (forall h, n :: AskedNode(chain, q, h, n) ==> Lookup(db, InnerKey(h)) == Some(NodeValue(n)))
       <==> forall h, m, n :: AskedNode(chain, q, h, m) && AskedNode(chain, q, h, n) ==> m == n
  {
    FetchRefinesSingle(chain, node, q);
    var p := Answer(chain, q);
    forall h, n
      ensures Holds(p, h, n) <==> AskedNode(chain, q, h, n)
    {
      AnswerHolds(chain, q, h, n);
    }
    OwnNodesExactlyWhenAgreed(db, hashes, p, initial);
    forall h, n, turns | AskedNode(chain, q, h, n)
      ensures Descend(db, h, turns) != Missing
    {
      assert Holds(p, h, n);
      DescentNeverMissing(db, hashes, p, initial, h, turns);
    }
  }

  // ----- from the reads of an execution to the database

  /** `n` is the block's node at `h`, on the path of a class executed, an address touched or a slot read. */
  ghost predicate ReadNode(chain: Chain, executed: set<Felt>, initial: StateMaps, h: Felt, n: MerkleNode) {
    || (exists c :: c in executed && OnTrie(chain.classTrie, c, h, n))
    || (exists a :: Touched(initial, a) && OnTrie(chain.contractTrie, a, h, n))
    || exists a, k :: (a, k) in initial.storage && OnTrie(chain.storageTrie(a), k, h, n)
  }

  lemma ReadNodesAreAsked(chain: Chain, executed: set<Felt>, initial: StateMaps, q: Query, h: Felt, n: MerkleNode)
    requires Prepared(q, executed, initial)
    ensures ReadNode(chain, executed, initial, h, n) <==> AskedNode(chain, q, h, n)
  {
    if c :| c in executed && OnTrie(chain.classTrie, c, h, n) {
      var i :| 0 <= i < |q.classHashes| && q.classHashes[i] == c;
    }
    if a :| Touched(initial, a) && OnTrie(chain.contractTrie, a, h, n) {
      var i :| 0 <= i < |q.contractAddresses| && q.contractAddresses[i] == a;
    }
    if a, k :| (a, k) in initial.storage && OnTrie(chain.storageTrie(a), k, h, n) {
      SlotsAsked(q, executed, initial, a, k);
      var i :| 0 <= i < |q.storage| && q.storage[i].address == a && k in q.storage[i].keys;
      var j :| 0 <= j < |q.storage[i].keys| && q.storage[i].keys[j] == k;
    }
    AskedNodesAreRead(chain, executed, initial, q, h, n);
  }

  lemma AskedNodesAreRead(chain: Chain, executed: set<Felt>, initial: StateMaps, q: Query, h: Felt, n: MerkleNode)
    requires Prepared(q, executed, initial)
    ensures AskedNode(chain, q, h, n) ==> ReadNode(chain, executed, initial, h, n)
  {
    if i :| 0 <= i < |q.classHashes| && OnTrie(chain.classTrie, q.classHashes[i], h, n) {
      assert q.classHashes[i] in executed;
    }
    if i :| 0 <= i < |q.contractAddresses| && OnTrie(chain.contractTrie, q.contractAddresses[i], h, n) {
      assert q.contractAddresses[i] in q.contractAddresses;
    }
    if i, j :| 0 <= i < |q.storage| && 0 <= j < |q.storage[i].keys|
               && OnTrie(chain.storageTrie(q.storage[i].address), q.storage[i].keys[j], h, n) {
      SlotsAsked(q, executed, initial, q.storage[i].address, q.storage[i].keys[j]);
    }
  }

  /**
   End to end, from the reads of an execution through query, chunks, merge and database: no descent
   from a node of the block on the path of a class executed, an address touched or a slot read meets
   a missing key; and the database holds the block's own node at each, if and only if the block's
   tries agree on the hashes they share.
   */
  lemma ReadFactsClosed(chain: Chain, node: Node, executed: set<Felt>, initial: StateMaps, q: Query, db: DbMap,
                        hashes: LeafHashes, extended: StateMaps)
    requires Honest(chain, node) && Prepared(q, executed, initial)
    requires Fetch(node, q).Ok? && Built(db, hashes, Fetch(node, q).value, extended)
    ensures forall h, n, turns :: ReadNode(chain, executed, initial, h, n) ==> Descend(db, h, turns) != Missing
    ensures (forall h, n :: ReadNode(chain, executed, initial, h, n) ==> Lookup(db, InnerKey(h)) == Some(NodeValue(n)))
       <==> forall h, m, n :: ReadNode(chain, executed, initial, h, m) && ReadNode(chain, executed, initial, h, n) ==> m == n
  {
    PreparedIsDistinct(q, executed, initial);
    FetchedFactsClosed(chain, node, q, db, hashes, extended);
    forall h, n
      ensures ReadNode(chain, executed, initial, h, n) <==> AskedNode(chain, q, h, n)
    {
      ReadNodesAreAsked(chain, executed, initial, q, h, n);
    }
  }

  /** The contract state that a leaf stands for. */
  ghost predicate IsStateOf(state: ContractState, leaf: Leaf) {
    && state.nonce == leaf.nonce && state.classHash == leaf.classHash
    && (leaf.storageRoot.Some? ==> state.storageRoot == leaf.storageRoot.value)
    && (leaf.storageRoot.None? ==> state.storageRoot == 0)
  }

  lemma LeafStored(chain: Chain, addresses: seq<Felt>, db: DbMap, hashes: LeafHashes, i: nat, own: ContractState)
    returns (j: nat, state: ContractState)
    requires i < |addresses| && IsStateOf(own, chain.leaf(addresses[i]))
    requires forall key: DbKey :: ContractLeavesAt(hashes, LeavesOf(chain, addresses), key, Lookup(db, key))
    ensures j < |addresses| && IsStateOf(state, chain.leaf(addresses[j]))
    ensures hashes.contract(state) == hashes.contract(own)
    ensures Lookup(db, ContractKey(hashes.contract(own))) == Some(ContractValue(state))
  {
    var leaves := LeavesOf(chain, addresses);
    assert own == StateOf(leaves[i]);
    var key := ContractKey(hashes.contract(own));
    assert ContractLeavesAt(hashes, leaves, key, Lookup(db, key));
    j :| LastLeaf(hashes, leaves, key.hash, j) && Lookup(db, key).value.state == StateOf(leaves[j]);
    state := StateOf(leaves[j]);
  }

  /**
   Every touched address has its leaf in the database: under the hash of the address's own nonce,
   class hash and storage root there is the state of a touched address with that hash, so the
   address's own unless the hash function collides.
   */
  lemma ReadLeavesStored(chain: Chain, node: Node, executed: set<Felt>, initial: StateMaps, q: Query, db: DbMap,
                         hashes: LeafHashes, extended: StateMaps, a: Felt, own: ContractState)
    requires Honest(chain, node) && Prepared(q, executed, initial)
    requires Fetch(node, q).Ok? && Built(db, hashes, Fetch(node, q).value, extended)
    requires Touched(initial, a) && IsStateOf(own, chain.leaf(a))
    ensures exists b, state :: Touched(initial, b) && IsStateOf(state, chain.leaf(b))
              && hashes.contract(state) == hashes.contract(own)
              && Lookup(db, ContractKey(hashes.contract(own))) == Some(ContractValue(state))
  {
    PreparedIsDistinct(q, executed, initial);
    FetchRefinesSingle(chain, node, q);
    var i := PositionOfTouched(q, executed, initial, a);
    var j, state := LeafStored(chain, q.contractAddresses, db, hashes, i, own);
    TouchedAt(q, executed, initial, j);
  }

  lemma PositionOfTouched(q: Query, executed: set<Felt>, initial: StateMaps, a: Felt) returns (i: nat)
    requires Prepared(q, executed, initial) && Touched(initial, a)
    ensures i < |q.contractAddresses| && q.contractAddresses[i] == a
  {
    i :| 0 <= i < |q.contractAddresses| && q.contractAddresses[i] == a;
  }

  lemma TouchedAt(q: Query, executed: set<Felt>, initial: StateMaps, i: nat)
    requires Prepared(q, executed, initial) && i < |q.contractAddresses|
    ensures Touched(initial, q.contractAddresses[i])
  {
    assert q.contractAddresses[i] in q.contractAddresses;
  }

  /** Every slot read has its value in the database, up to a collision among the values read under its address. */
  lemma ReadSlotsStored(p: StorageProof, q: Query, initial: StateMaps, db: DbMap, hashes: LeafHashes, a: Felt, k: Felt)
    requires (a, k) in initial.storage && |p.leaves| == |q.contractAddresses|
    requires Built(db, hashes, p, ExtendedReads(p, q, initial))
    ensures var own := hashes.slot(initial.storage[(a, k)]);
            exists j :: (a, j) in initial.storage && hashes.slot(initial.storage[(a, j)]) == own
                        && Lookup(db, SlotKey(a, own)) == Some(SlotValue(initial.storage[(a, j)]))
  {
    ReadsKeys(p, q, initial);
    var slots := initial.storage;
    var key := SlotKey(a, hashes.slot(slots[(a, k)]));
    assert SlotLeavesAt(hashes, slots, key, Lookup(db, key));
    assert (a, k).0 == a;
    var s :| s in slots && s.0 == a && slots[s] == Lookup(db, key).value.value;
    assert s == (a, s.1);
  }

  /**
   The branch with state changes up to the committer: the query is prepared and fetched, the leaves
   are counted and read back, and a new database is filled from the proof and the extended reads.
   */
  method PrepareFacts(node: Node, executed: set<Felt>, initial: StateMaps, hashes: LeafHashes)
      returns (q: Query, facts: Database, r: Result<StateMaps, ProviderError>)
    ensures Prepared(q, executed, initial)
    ensures r == match Fetch(node, q)
                 case Err(e) => Err(e)
                 case Ok(p) =>
                   if |p.leaves| != |q.contractAddresses| then Err(InvalidProofResponse)
                   else Ok(ExtendedReads(p, q, initial))
    ensures fresh(facts)
    ensures r.Ok? ==> Built(facts.db, hashes, Fetch(node, q).value, r.value)
  {
    q := PrepareQuery(executed, initial);
    facts := new Database();
    var fetched := FetchProofs(node, q);
    if fetched.Err? {
      return q, facts, Err(fetched.error);
    }
    if |fetched.value.leaves| != |q.contractAddresses| {
      return q, facts, Err(InvalidProofResponse);
    }
    var extended := ReadLeaves(fetched.value, q, initial);
    var ok := facts.CreateFromStorageProof(hashes, fetched.value, q, extended);
    r := if ok then Ok(extended) else Err(InvalidProofResponse);
  }
}
