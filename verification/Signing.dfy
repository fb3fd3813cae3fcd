/**
 The SNIP-36 transaction hash and what it binds.  Poseidon is a parameter `H`: nothing is
 assumed about it, so results about the hash are reductions to a collision of `H`.
 */
module Signing {
  import opened Wrappers
  import opened Felts
  import opened Packing

  datatype ResourceBound = ResourceBound(maxAmount: U64, maxPricePerUnit: U128)

  datatype ResourceBounds = ResourceBounds(l1Gas: ResourceBound, l2Gas: ResourceBound, l1DataGas: ResourceBound)

  datatype InvokeTx = InvokeTx(
    sender: Felt,
    calldata: seq<Felt>,
    chainId: Felt,
    nonce: Felt,
    tip: Felt,
    bounds: ResourceBounds,
    paymasterData: seq<Felt>,
    accountDeploymentData: seq<Felt>,
    nonceDaMode: U32,
    feeDaMode: U32,
    proofFacts: seq<Felt>)

  type Poseidon = seq<Felt> -> Felt

  const INVOKE_PREFIX: Felt := 0x696e766f6b65  // the short string "invoke", see Packing.NameValues
  const VERSION: Felt := 3

  function Pack(b: ResourceBound, name: seq<Byte>): Felt {
    Concat(b.maxAmount, b.maxPricePerUnit, name)
  }

  /** What `compute_tip_resource_bounds_hash` hashes. */
  function TipList(tip: Felt, b: ResourceBounds): seq<Felt> {
    [tip, Pack(b.l1Gas, L1_GAS), Pack(b.l2Gas, L2_GAS), Pack(b.l1DataGas, L1_DATA)]
  }

  /** What the outermost hash is taken of: 10 elements, or 11 when there are proof facts. */
  function Elements(H: Poseidon, tx: InvokeTx): (r: seq<Felt>)
    ensures |r| == if tx.proofFacts == [] then 10 else 11
  {
    [INVOKE_PREFIX, VERSION, tx.sender, H(TipList(tx.tip, tx.bounds)), H(tx.paymasterData),
     tx.chainId, tx.nonce, DaMode(tx.nonceDaMode, tx.feeDaMode), H(tx.accountDeploymentData), H(tx.calldata)]
    + if tx.proofFacts == [] then [] else [H(tx.proofFacts)]
  }

  function TxHash(H: Poseidon, tx: InvokeTx): Felt {
    H(Elements(H, tx))
  }

  /** Every list that is hashed while `TxHash(H, tx)` is computed. */
  function HashedLists(H: Poseidon, tx: InvokeTx): set<seq<Felt>> {
    {Elements(H, tx), TipList(tx.tip, tx.bounds), tx.paymasterData, tx.accountDeploymentData, tx.calldata}
    + if tx.proofFacts == [] then {} else {tx.proofFacts}
  }

  // ----- reading a preimage by the positions of SNIP-8

  /** What the outermost list says: fields in the clear, and the hashes of the inner lists. */
  datatype Preimage = Preimage(
    sender: Felt,
    tipHash: Felt,
    paymasterHash: Felt,
    chainId: Felt,
    nonce: Felt,
    nonceDaMode: nat,
    feeDaMode: nat,
    deploymentHash: Felt,
    calldataHash: Felt,
    factsHash: Option<Felt>)

  /** A list of 10 or 11 elements that starts with the prefix and version 3; the modes are 32 bits each. */
  function ReadPreimage(e: seq<Felt>): Option<Preimage> {
    if (|e| != 10 && |e| != 11) || e[0] != BigEndian(INVOKE) || e[1] != 3 || e[7] >= TWO_64 then None
    else
      Some(Preimage(e[2], e[3], e[4], e[5], e[6], e[7] / TWO_32, e[7] % TWO_32, e[8], e[9],
                    if |e| == 11 then Some(e[10]) else None))
  }

  /** One packed bound, recognised by the name above its 192 low bits. */
  function ReadBits(v: Felt, name: nat): Option<ResourceBound> {
    if v / TWO_128 / TWO_64 != name then None
    else Some(ResourceBound(v / TWO_128 % TWO_64, v % TWO_128))
  }

  /** The tip, and the bounds of L1_GAS, L2_GAS and L1_DATA, whose ASCII bytes are the names. */
  function ReadTipList(l: seq<Felt>): Option<(Felt, ResourceBounds)> {
    if |l| != 4 then None
    else
      var l1, l2, data := ReadBits(l[1], 0x4c315f474153), ReadBits(l[2], 0x4c325f474153), ReadBits(l[3], 0x4c315f44415441);
      if l1.Some? && l2.Some? && data.Some? then Some((l[0], ResourceBounds(l1.value, l2.value, data.value))) else None
  }

  lemma BitsReadBack(b: ResourceBound, name: seq<Byte>)
    ensures ReadBits(Pack(b, name), ResourceName(name)) == Some(b)
  {
    ConcatInvertible(b.maxAmount, b.maxPricePerUnit, name);
  }

  /** The inner list reads back as the tip and the bounds. */
  lemma TipListReadsBack(tip: Felt, b: ResourceBounds)
    ensures ReadTipList(TipList(tip, b)) == Some((tip, b))
  {
    NameValues();
    BitsReadBack(b.l1Gas, L1_GAS);
    BitsReadBack(b.l2Gas, L2_GAS);
    BitsReadBack(b.l1DataGas, L1_DATA);
  }

  lemma ModesReadBack(nonceMode: U32, feeMode: U32)
    ensures DaMode(nonceMode, feeMode) < TWO_64
    ensures DaMode(nonceMode, feeMode) / TWO_32 == nonceMode && DaMode(nonceMode, feeMode) % TWO_32 == feeMode
  {
    DaModeExact(nonceMode, feeMode);
    ModesFit(nonceMode, feeMode);
    DivMod(nonceMode, TWO_32, feeMode);
  }

  /** What a transaction's outermost list has to say, the inner hashes taken of the transaction's own lists. */
  ghost predicate Describes(H: Poseidon, r: Preimage, tx: InvokeTx, tipList: seq<Felt>) {
    && r.sender == tx.sender && r.chainId == tx.chainId && r.nonce == tx.nonce
    && r.nonceDaMode == tx.nonceDaMode && r.feeDaMode == tx.feeDaMode
    && r.tipHash == H(tipList) && ReadTipList(tipList) == Some((tx.tip, tx.bounds))
    && r.paymasterHash == H(tx.paymasterData) && r.deploymentHash == H(tx.accountDeploymentData)
    && r.calldataHash == H(tx.calldata)
    && r.factsHash == if tx.proofFacts == [] then None else Some(H(tx.proofFacts))
  }

  /** The list that is hashed reads, position by position, as the transaction. */
  lemma PreimageReadsBack(H: Poseidon, tx: InvokeTx)
    ensures var r := ReadPreimage(Elements(H, tx));
            r.Some? && Describes(H, r.value, tx, TipList(tx.tip, tx.bounds))
  {
    TipListReadsBack(tx.tip, tx.bounds);
    ModesReadBack(tx.nonceDaMode, tx.feeDaMode);
    NameValues();
  }

  /** Builds the hash chain step by step, as the source does. */
  method ComputeInvokeV3TxHash(H: Poseidon, tx: InvokeTx) returns (hash: Felt)
    ensures hash == TxHash(H, tx)
    ensures exists e, tipList ::
              hash == H(e) && ReadPreimage(e).Some? && Describes(H, ReadPreimage(e).value, tx, tipList)
  {
    var tipHash := H(TipList(tx.tip, tx.bounds));
    var paymasterHash := H(tx.paymasterData);
    var deploymentHash := H(tx.accountDeploymentData);
    var calldataHash := H(tx.calldata);
    var daMode := DaMode(tx.nonceDaMode, tx.feeDaMode);
    var elements := [INVOKE_PREFIX, VERSION, tx.sender, tipHash, paymasterHash,
                     tx.chainId, tx.nonce, daMode, deploymentHash, calldataHash];
    if tx.proofFacts != [] {
      var factsHash := H(tx.proofFacts);
      elements := elements + [factsHash];
    }
    assert elements == Elements(H, tx);
    PreimageReadsBack(H, tx);
    hash := H(elements);
  }

  lemma PackInjective(a: ResourceBound, b: ResourceBound, name: seq<Byte>)
    requires Pack(a, name) == Pack(b, name)
    ensures a == b
  {
    ConcatInvertible(a.maxAmount, a.maxPricePerUnit, name);
    ConcatInvertible(b.maxAmount, b.maxPricePerUnit, name);
  }

  lemma TipListInjective(s: Felt, a: ResourceBounds, t: Felt, b: ResourceBounds)
    requires TipList(s, a) == TipList(t, b)
    ensures s == t && a == b
  {
    var u, v := TipList(s, a), TipList(t, b);
    assert u[0] == v[0] && u[1] == v[1] && u[2] == v[2] && u[3] == v[3];
    PackInjective(a.l1Gas, b.l1Gas, L1_GAS);
    PackInjective(a.l2Gas, b.l2Gas, L2_GAS);
    PackInjective(a.l1DataGas, b.l1DataGas, L1_DATA);
  }

  lemma DaModeInjective(n1: U32, f1: U32, n2: U32, f2: U32)
    requires DaMode(n1, f1) == DaMode(n2, f2)
    ensures n1 == n2 && f1 == f2
  {
    DaModeExact(n1, f1);
    DaModeExact(n2, f2);
  }

  /** Equal element lists agree on everything that is not hashed, and on whether there are proof facts. */
  lemma ElementsAgree(H: Poseidon, a: InvokeTx, b: InvokeTx)
    requires Elements(H, a) == Elements(H, b)
    ensures a.sender == b.sender && a.chainId == b.chainId && a.nonce == b.nonce
    ensures a.nonceDaMode == b.nonceDaMode && a.feeDaMode == b.feeDaMode
    ensures H(TipList(a.tip, a.bounds)) == H(TipList(b.tip, b.bounds))
    ensures H(a.paymasterData) == H(b.paymasterData)
    ensures H(a.accountDeploymentData) == H(b.accountDeploymentData)
    ensures H(a.calldata) == H(b.calldata)
    ensures a.proofFacts == [] <==> b.proofFacts == []
    ensures a.proofFacts != [] ==> H(a.proofFacts) == H(b.proofFacts)
  {
    var u, v := Elements(H, a), Elements(H, b);
    assert |u| == |v|;
    assert forall i :: 0 <= i < |u| ==> u[i] == v[i];
    assert u[2] == v[2] && u[3] == v[3] && u[4] == v[4] && u[5] == v[5] && u[6] == v[6];
    assert u[7] == v[7] && u[8] == v[8] && u[9] == v[9];
    DaModeInjective(a.nonceDaMode, a.feeDaMode, b.nonceDaMode, b.feeDaMode);
    if a.proofFacts != [] {
      assert u[10] == v[10];
    }
  }

  /**
   Hash binding: two different transactions with one hash yield two different lists with the
   same Poseidon hash, and both lists are among those the two computations really hash.
   */
  lemma HashBinding(H: Poseidon, a: InvokeTx, b: InvokeTx) returns (x: seq<Felt>, y: seq<Felt>)
    requires TxHash(H, a) == TxHash(H, b) && a != b
    ensures x != y && H(x) == H(y)
    ensures x in HashedLists(H, a) && y in HashedLists(H, b)
  {
    if Elements(H, a) != Elements(H, b) {
      return Elements(H, a), Elements(H, b);
    }
    ElementsAgree(H, a, b);
    if TipList(a.tip, a.bounds) != TipList(b.tip, b.bounds) {
      return TipList(a.tip, a.bounds), TipList(b.tip, b.bounds);
    }
    TipListInjective(a.tip, a.bounds, b.tip, b.bounds);
    if a.paymasterData != b.paymasterData {
      return a.paymasterData, b.paymasterData;
    }
    if a.accountDeploymentData != b.accountDeploymentData {
      return a.accountDeploymentData, b.accountDeploymentData;
    }
    if a.calldata != b.calldata {
      return a.calldata, b.calldata;
    }
    return a.proofFacts, b.proofFacts;
  }
}
