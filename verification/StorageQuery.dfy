/** Storage-proof queries: flattening, collecting and cutting into chunks. */
module StorageQuery {
  import opened Felts

  datatype ContractKeys = ContractKeys(address: Felt, keys: seq<Felt>)

  datatype Query = Query(classHashes: seq<Felt>, contractAddresses: seq<Felt>, storage: seq<ContractKeys>)

  datatype Item = ClassHash(hash: Felt) | ContractAddress(address: Felt) | StorageKey(contract: Felt, key: Felt)

  const EMPTY: Query := Query([], [], [])

  function Last<T>(s: seq<T>): T
    requires s != []
  {
    s[|s| - 1]
  }

  function Front<T>(s: seq<T>): seq<T>
    requires s != []
  {
    s[..|s| - 1]
  }

  function TotalStorageKeys(cs: seq<ContractKeys>): nat {
    if cs == [] then 0 else TotalStorageKeys(Front(cs)) + |Last(cs).keys|
  }

  function CountTotalKeys(q: Query): nat {
    |q.classHashes| + |q.contractAddresses| + TotalStorageKeys(q.storage)
  }

  // ----- flatten

  function ClassItems(hs: seq<Felt>): seq<Item> {
    seq(|hs|, i requires 0 <= i < |hs| => ClassHash(hs[i]))
  }

  function AddressItems(addresses: seq<Felt>): seq<Item> {
    seq(|addresses|, i requires 0 <= i < |addresses| => ContractAddress(addresses[i]))
  }

  function KeyItems(contract: Felt, keys: seq<Felt>): seq<Item> {
    seq(|keys|, i requires 0 <= i < |keys| => StorageKey(contract, keys[i]))
  }

  function StorageItems(cs: seq<ContractKeys>): seq<Item> {
    if cs == [] then [] else StorageItems(Front(cs)) + KeyItems(Last(cs).address, Last(cs).keys)
  }

  function Flatten(q: Query): seq<Item> {
    ClassItems(q.classHashes) + AddressItems(q.contractAddresses) + StorageItems(q.storage)
  }

  method FlattenQuery(q: Query) returns (items: seq<Item>)
    ensures items == Flatten(q)
  {
    var head := ClassItems(q.classHashes) + AddressItems(q.contractAddresses);
    items := head;
    for i := 0 to |q.storage|
      invariant items == head + StorageItems(q.storage[..i])
    {
      var contract := q.storage[i];
      assert Front(q.storage[..i + 1]) == q.storage[..i];
      for j := 0 to |contract.keys|
        invariant items == head + (StorageItems(q.storage[..i]) + KeyItems(contract.address, contract.keys[..j]))
      {
        items := items + [StorageKey(contract.address, contract.keys[j])];
        assert KeyItems(contract.address, contract.keys[..j + 1])
            == KeyItems(contract.address, contract.keys[..j]) + [StorageKey(contract.address, contract.keys[j])];
      }
      assert contract.keys[..|contract.keys|] == contract.keys;
    }
    assert q.storage[..|q.storage|] == q.storage;
  }

  lemma {:induction false} StorageItemsCount(cs: seq<ContractKeys>)
    ensures |StorageItems(cs)| == TotalStorageKeys(cs)
  {
    if cs != [] {
      StorageItemsCount(Front(cs));
    }
  }

  lemma FlattenCount(q: Query)
    ensures |Flatten(q)| == CountTotalKeys(q)
  {
    StorageItemsCount(q.storage);
  }

  // ----- collect

  /** Adds one item: a storage key joins the last contract when that is its own, else opens a new one. */
  function Push(q: Query, item: Item): Query {
    match item
    case ClassHash(h) => q.(classHashes := q.classHashes + [h])
    case ContractAddress(a) => q.(contractAddresses := q.contractAddresses + [a])
    case StorageKey(c, k) =>
      if q.storage != [] && Last(q.storage).address == c then
        q.(storage := Front(q.storage) + [ContractKeys(c, Last(q.storage).keys + [k])])
      else
        q.(storage := q.storage + [ContractKeys(c, [k])])
  }

  function Collect(items: seq<Item>): Query {
    if items == [] then EMPTY else Push(Collect(Front(items)), Last(items))
  }

  method CollectQuery(items: seq<Item>) returns (q: Query)
    ensures q == Collect(items)
  {
    q := EMPTY;
    for i := 0 to |items|
      invariant q == Collect(items[..i])
    {
      assert Front(items[..i + 1]) == items[..i];
      match items[i] {
        case ClassHash(h) =>
          q := q.(classHashes := q.classHashes + [h]);
        case ContractAddress(a) =>
          q := q.(contractAddresses := q.contractAddresses + [a]);
        case StorageKey(c, k) =>
          var n := |q.storage|;
          if n > 0 && q.storage[n - 1].address == c {
            q := q.(storage := q.storage[n - 1 := ContractKeys(c, q.storage[n - 1].keys + [k])]);
          } else {
            q := q.(storage := q.storage + [ContractKeys(c, [k])]);
          }
      }
    }
    assert items[..|items|] == items;
  }

  // ----- flatten after collect

  function Rank(item: Item): nat {
    match item
    case ClassHash(_) => 0
    case ContractAddress(_) => 1
    case StorageKey(_, _) => 2
  }

  /** Class hashes first, then contract addresses, then storage keys. */
  predicate Ordered(items: seq<Item>) {
    forall i, j :: 0 <= i < j < |items| ==> Rank(items[i]) <= Rank(items[j])
  }

  lemma {:induction false} StorageItemsRank(cs: seq<ContractKeys>)
    ensures forall x :: x in StorageItems(cs) ==> Rank(x) == 2
  {
    if cs != [] {
      StorageItemsRank(Front(cs));
    }
  }

  lemma FlattenOrdered(q: Query)
    ensures Ordered(Flatten(q))
  {
    StorageItemsRank(q.storage);
    var c, a, s := ClassItems(q.classHashes), AddressItems(q.contractAddresses), StorageItems(q.storage);
    forall i, j | 0 <= i < j < |Flatten(q)|
      ensures Rank(Flatten(q)[i]) <= Rank(Flatten(q)[j])
    {
      if |c| + |a| <= j {
        assert Flatten(q)[j] == s[j - |c| - |a|] && s[j - |c| - |a|] in s;
      }
    }
  }

  /** Pushing a storage key appends it to the storage items, whichever branch is taken. */
  lemma PushKeyItems(q: Query, c: Felt, k: Felt)
    ensures StorageItems(Push(q, StorageKey(c, k)).storage) == StorageItems(q.storage) + [StorageKey(c, k)]
  {
    var s := Push(q, StorageKey(c, k)).storage;
    if q.storage != [] && Last(q.storage).address == c {
      var keys := Last(q.storage).keys;
      assert Front(s) == Front(q.storage);
      assert KeyItems(c, keys + [k]) == KeyItems(c, keys) + [StorageKey(c, k)];
    } else {
      assert Front(s) == q.storage;
      assert KeyItems(c, [k]) == [StorageKey(c, k)];
    }
  }

  lemma FlattenPush(q: Query, item: Item)
    requires forall x :: x in Flatten(q) ==> Rank(x) <= Rank(item)
    ensures Flatten(Push(q, item)) == Flatten(q) + [item]
  {
    var c, a, s := ClassItems(q.classHashes), AddressItems(q.contractAddresses), StorageItems(q.storage);
    match item
    case StorageKey(contract, k) => PushKeyItems(q, contract, k);
    case ContractAddress(address) =>
      PartsAreItems(q);
      assert AddressItems(q.contractAddresses + [address]) == a + [item];
    case ClassHash(h) =>
      PartsAreItems(q);
      assert ClassItems(q.classHashes + [h]) == c + [item];
  }

  lemma PartsAreItems(q: Query)
    ensures StorageItems(q.storage) != [] ==> exists x :: x in Flatten(q) && Rank(x) == 2
    ensures AddressItems(q.contractAddresses) != [] ==> exists x :: x in Flatten(q) && Rank(x) == 1
  {
    StorageItemsRank(q.storage);
    var a, s := AddressItems(q.contractAddresses), StorageItems(q.storage);
    if s != [] {
      assert s[0] in Flatten(q) && s[0] in s;
    }
    if a != [] {
      assert a[0] in Flatten(q) && Rank(a[0]) == 1;
    }
  }

  lemma {:induction false} FlattenCollectOrdered(s: seq<Item>)
    requires Ordered(s)
    ensures Flatten(Collect(s)) == s
  {
    if s != [] {
      FlattenCollectOrdered(Front(s));
      FlattenPush(Collect(Front(s)), Last(s));
      assert s == Front(s) + [Last(s)];
    }
  }

  /** Flatten undoes collect exactly on ordered item lists. */
  lemma FlattenCollect(s: seq<Item>)
    ensures Flatten(Collect(s)) == s <==> Ordered(s)
  {
    if Ordered(s) {
      FlattenCollectOrdered(s);
    }
    FlattenOrdered(Collect(s));
  }

  /** Every contiguous slice of a flattened query survives collect and flatten. */
  lemma SliceRoundTrip(q: Query, lo: nat, hi: nat)
    requires lo <= hi <= |Flatten(q)|
    ensures Flatten(Collect(Flatten(q)[lo..hi])) == Flatten(q)[lo..hi]
  {
    FlattenOrdered(q);
    FlattenCollectOrdered(Flatten(q)[lo..hi]);
  }

  // ----- collect after flatten

  function KeepNonEmpty(cs: seq<ContractKeys>): seq<ContractKeys> {
    if cs == [] then []
    else KeepNonEmpty(Front(cs)) + if Last(cs).keys == [] then [] else [Last(cs)]
  }

  /** The query without the contracts that have no keys. */
  function DropEmpty(q: Query): Query {
    q.(storage := KeepNonEmpty(q.storage))
  }

  predicate NeighboursDiffer(cs: seq<ContractKeys>) {
    forall i :: 0 < i < |cs| ==> cs[i - 1].address != cs[i].address
  }

  predicate NoEmpty(cs: seq<ContractKeys>) {
    forall i :: 0 <= i < |cs| ==> cs[i].keys != []
  }

  lemma {:induction false} CollectShape(s: seq<Item>)
    ensures NoEmpty(Collect(s).storage) && NeighboursDiffer(Collect(s).storage)
  {
    if s != [] {
      CollectShape(Front(s));
    }
  }

  lemma {:induction false} KeepNonEmptyItems(cs: seq<ContractKeys>)
    ensures NoEmpty(KeepNonEmpty(cs)) && StorageItems(KeepNonEmpty(cs)) == StorageItems(cs)
  {
    if cs != [] {
      KeepNonEmptyItems(Front(cs));
      if Last(cs).keys == [] {
        assert KeepNonEmpty(cs) == KeepNonEmpty(Front(cs));
        assert StorageItems(cs) == StorageItems(Front(cs));
      } else {
        assert Front(KeepNonEmpty(cs)) == KeepNonEmpty(Front(cs));
      }
    }
  }

  /** The query without its last item. */
  function Pop(q: Query): Query
    requires CountTotalKeys(q) > 0 && NoEmpty(q.storage)
  {
    if q.storage != [] then
      var last := Last(q.storage);
      if |last.keys| == 1 then q.(storage := Front(q.storage))
      else q.(storage := Front(q.storage) + [ContractKeys(last.address, Front(last.keys))])
    else if q.contractAddresses != [] then q.(contractAddresses := Front(q.contractAddresses))
    else q.(classHashes := Front(q.classHashes))
  }

  function LastItem(q: Query): Item
    requires CountTotalKeys(q) > 0 && NoEmpty(q.storage)
  {
    if q.storage != [] then StorageKey(Last(q.storage).address, Last(Last(q.storage).keys))
    else if q.contractAddresses != [] then ContractAddress(Last(q.contractAddresses))
    else ClassHash(Last(q.classHashes))
  }

  lemma PopPush(q: Query)
    requires CountTotalKeys(q) > 0 && NoEmpty(q.storage) && NeighboursDiffer(q.storage)
    ensures Push(Pop(q), LastItem(q)) == q
    ensures NoEmpty(Pop(q).storage) && NeighboursDiffer(Pop(q).storage)
  {
    if q.storage != [] {
      var last := Last(q.storage);
      assert q.storage == Front(q.storage) + [last];
      assert last.keys == Front(last.keys) + [Last(last.keys)];
    } else if q.contractAddresses != [] {
      assert q.contractAddresses == Front(q.contractAddresses) + [Last(q.contractAddresses)];
    } else {
      assert q.classHashes == Front(q.classHashes) + [Last(q.classHashes)];
    }
  }

  lemma PopRank(q: Query)
    requires CountTotalKeys(q) > 0 && NoEmpty(q.storage)
    ensures forall x :: x in Flatten(Pop(q)) ==> Rank(x) <= Rank(LastItem(q))
  {
    StorageItemsRank(Pop(q).storage);
    assert forall x :: x in Flatten(Pop(q)) ==>
        x in ClassItems(Pop(q).classHashes) || x in AddressItems(Pop(q).contractAddresses)
        || x in StorageItems(Pop(q).storage);
  }

  lemma NoEmptyCount(cs: seq<ContractKeys>)
    requires NoEmpty(cs)
    ensures cs != [] ==> TotalStorageKeys(cs) > 0
  {
    if cs != [] {
      assert |Last(cs).keys| > 0;
    }
  }

  lemma {:induction false} CollectFlattenShaped(q: Query)
    requires NoEmpty(q.storage) && NeighboursDiffer(q.storage)
    ensures Collect(Flatten(q)) == q
    decreases |Flatten(q)|
  {
    FlattenCount(q);
    if CountTotalKeys(q) == 0 {
      NoEmptyCount(q.storage);
    } else {
      PopPush(q);
      PopRank(q);
      FlattenPush(Pop(q), LastItem(q));
      CollectFlattenShaped(Pop(q));
      assert Front(Flatten(q)) == Flatten(Pop(q));
    }
  }

  /**
   Collecting a flattened query drops exactly the contracts without keys, if and only if no
   two of the remaining contracts next to each other have one address.
   */
  lemma CollectFlatten(q: Query)
    ensures Collect(Flatten(q)) == DropEmpty(q) <==> NeighboursDiffer(KeepNonEmpty(q.storage))
  {
    KeepNonEmptyItems(q.storage);
    assert Flatten(DropEmpty(q)) == Flatten(q);
    if NeighboursDiffer(KeepNonEmpty(q.storage)) {
      CollectFlattenShaped(DropEmpty(q));
    }
    CollectShape(Flatten(q));
  }

  // ----- split

  function Chunks<T>(items: seq<T>, size: nat): (chunks: seq<seq<T>>)
    requires size > 0
  {
    if items == [] then []
    else if |items| <= size then [items]
    else [items[..size]] + Chunks(items[size..], size)
  }

  function Concat<T>(parts: seq<seq<T>>): seq<T> {
    if parts == [] then [] else Concat(Front(parts)) + Last(parts)
  }

  function CollectAll(parts: seq<seq<Item>>): seq<Query> {
    seq(|parts|, i requires 0 <= i < |parts| => Collect(parts[i]))
  }

  function Split(q: Query, maxKeys: nat): seq<Query>
    requires maxKeys > 0
  {
    CollectAll(Chunks(Flatten(q), maxKeys))
  }

  lemma {:induction false} ConcatCons<T>(head: seq<T>, tail: seq<seq<T>>)
    ensures Concat([head] + tail) == head + Concat(tail)
  {
    var parts := [head] + tail;
    if tail == [] {
      assert Front(parts) == [];
    } else {
      ConcatCons(head, Front(tail));
      assert Front(parts) == [head] + Front(tail);
    }
  }

  lemma {:induction false} ChunksConcat<T>(items: seq<T>, size: nat)
    requires size > 0
    ensures Concat(Chunks(items, size)) == items
  {
    if items == [] {
    } else if |items| <= size {
      assert Front([items]) == [];
    } else {
      ChunksConcat(items[size..], size);
      ConcatCons(items[..size], Chunks(items[size..], size));
    }
  }

  lemma {:induction false} ChunkCount<T>(items: seq<T>, size: nat)
    requires size > 0
    ensures |Chunks(items, size)| == (|items| + size - 1) / size
  {
    var n := |items|;
    if n == 0 {
      QuotientIs(0, size, size - 1);
    } else if n <= size {
      QuotientIs(1, size, n - 1);
    } else {
      ChunkCount(items[size..], size);
      QuotientStep(n - 1, size);
    }
  }

  predicate IsSlice<T(==)>(c: seq<T>, items: seq<T>) {
    exists lo, hi :: 0 <= lo <= hi <= |items| && c == items[lo..hi]
  }

  lemma SliceOfTail<T>(c: seq<T>, items: seq<T>, size: nat)
    requires size <= |items| && IsSlice(c, items[size..])
    ensures IsSlice(c, items)
  {
    var tail := items[size..];
    var lo, hi :| 0 <= lo <= hi <= |tail| && c == tail[lo..hi];
    assert c == items[size + lo..size + hi];
  }

  lemma {:induction false} ChunksAreSlices<T>(items: seq<T>, size: nat)
    requires size > 0
    ensures forall c :: c in Chunks(items, size) ==> 1 <= |c| <= size && IsSlice(c, items)
  {
    if items == [] {
    } else if |items| <= size {
      assert items == items[0..|items|];
    } else {
      var tail := items[size..];
      ChunksAreSlices(tail, size);
      assert items[..size] == items[0..size];
      forall c | c in Chunks(tail, size)
        ensures IsSlice(c, items)
      {
        SliceOfTail(c, items, size);
      }
    }
  }

  lemma QuotientIs(q: nat, m: nat, r: nat)
    requires r < m
    ensures (q * m + r) / m == q
  {
    var k := (q * m + r) / m - q;
    assert k * m == r - (q * m + r) % m;
    assert k >= 1 ==> k * m >= m;
    assert k <= -1 ==> k * m <= -1 * m;
  }

  lemma QuotientStep(n: nat, m: nat)
    requires m > 0
    ensures (n + m) / m == n / m + 1
  {
    QuotientIs(n / m + 1, m, n % m);
    assert n + m == (n / m + 1) * m + n % m;
  }

  function FlattenAll(queries: seq<Query>): seq<seq<Item>> {
    seq(|queries|, i requires 0 <= i < |queries| => Flatten(queries[i]))
  }

  lemma SplitFlattens(q: Query, maxKeys: nat)
    requires maxKeys > 0
    ensures FlattenAll(Split(q, maxKeys)) == Chunks(Flatten(q), maxKeys)
  {
    var parts := Chunks(Flatten(q), maxKeys);
    ChunksAreSlices(Flatten(q), maxKeys);
    forall i | 0 <= i < |parts|
      ensures Flatten(Collect(parts[i])) == parts[i]
    {
      assert parts[i] in parts;
      var lo, hi :| 0 <= lo <= hi <= |Flatten(q)| && parts[i] == Flatten(q)[lo..hi];
      SliceRoundTrip(q, lo, hi);
    }
  }

  /** The chunk queries are bounded, as many as needed, and flatten back to the query. */
  lemma SplitIsPartition(q: Query, maxKeys: nat)
    requires maxKeys > 0
    ensures |Split(q, maxKeys)| == (CountTotalKeys(q) + maxKeys - 1) / maxKeys
    ensures forall c :: c in Split(q, maxKeys) ==> 1 <= CountTotalKeys(c) <= maxKeys
    ensures Concat(FlattenAll(Split(q, maxKeys))) == Flatten(q)
  {
    FlattenCount(q);
    ChunkCount(Flatten(q), maxKeys);
    ChunksConcat(Flatten(q), maxKeys);
    SplitFlattens(q, maxKeys);
    forall c | c in Split(q, maxKeys)
      ensures 1 <= CountTotalKeys(c) <= maxKeys
    {
      SplitBound(q, maxKeys, c);
    }
  }

  lemma SplitBound(q: Query, maxKeys: nat, c: Query)
    requires maxKeys > 0 && c in Split(q, maxKeys)
    ensures 1 <= CountTotalKeys(c) <= maxKeys
  {
    SplitFlattens(q, maxKeys);
    var i :| 0 <= i < |Split(q, maxKeys)| && Split(q, maxKeys)[i] == c;
    FlattenCount(c);
    assert FlattenAll(Split(q, maxKeys))[i] == Flatten(c);
    ChunksAreSlices(Flatten(q), maxKeys);
  }
}
