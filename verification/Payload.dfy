/** The transaction payload that is sent, and the reading of it that a receiver makes. */
module Payload {
  import opened Wrappers
  import opened Felts
  import opened Signing
  import Hex

  datatype Json = Str(text: string) | Arr(items: seq<Json>) | Obj(fields: map<string, Json>)

  datatype SubmitParams = SubmitParams(
    sender: Felt,
    privateKey: Felt,
    calldata: seq<Felt>,
    proofBase64: string,
    proofFacts: seq<Felt>,
    nonce: Felt,
    chainId: Felt,
    bounds: ResourceBounds)

  datatype Signature = Signature(r: Felt, s: Felt)

  datatype Received = Received(tx: InvokeTx, signature: Signature, proof: string)

  /** ECDSA over the Stark curve: private key and hash to a signature, or a failure. */
  type Signer = (Felt, Felt) -> Option<Signature>

  // ----- building

  function HexJson(n: nat): Json {
    Str(Hex.Print(n))
  }

  function HexArray(fs: seq<Felt>): Json {
    Arr(seq(|fs|, i requires 0 <= i < |fs| => HexJson(fs[i])))
  }

  function BoundJson(b: ResourceBound): Json {
    Obj(map["max_amount" := HexJson(b.maxAmount), "max_price_per_unit" := HexJson(b.maxPricePerUnit)])
  }

  function GatewayJson(b: ResourceBounds): Json {
    Obj(map["L1_GAS" := BoundJson(b.l1Gas), "L2_GAS" := BoundJson(b.l2Gas), "L1_DATA_GAS" := BoundJson(b.l1DataGas)])
  }

  /** The transaction whose hash `sign_and_build_payload` signs. */
  function SignedTx(p: SubmitParams): InvokeTx {
    InvokeTx(p.sender, p.calldata, p.chainId, p.nonce, 0, p.bounds, [], [], 0, 0, p.proofFacts)
  }

  function PayloadJson(p: SubmitParams, sig: Signature): Json {
    Obj(map[
      "type" := Str("INVOKE_FUNCTION"),
      "version" := Str("0x3"),
      "sender_address" := HexJson(p.sender),
      "calldata" := HexArray(p.calldata),
      "nonce" := HexJson(p.nonce),
      "resource_bounds" := GatewayJson(p.bounds),
      "tip" := Str("0x0"),
      "paymaster_data" := Arr([]),
      "account_deployment_data" := Arr([]),
      "nonce_data_availability_mode" := Str("L1"),
      "fee_data_availability_mode" := Str("L1"),
      "signature" := Arr([HexJson(sig.r), HexJson(sig.s)]),
      "proof" := Str(p.proofBase64),
      "proof_facts" := HexArray(p.proofFacts)])
  }

  function SignAndBuildPayload(H: Poseidon, sign: Signer, p: SubmitParams): Result<(Felt, Json), string> {
    var hash := TxHash(H, SignedTx(p));
    match sign(p.privateKey, hash)
    case Some(sig) => Ok((hash, PayloadJson(p, sig)))
    case None => Err("ECDSA signing failed")
  }

  // ----- reading back

  function Field(j: Json, key: string): Option<Json> {
    if j.Obj? && key in j.fields then Some(j.fields[key]) else None
  }

  function ReadText(j: Option<Json>): Option<string> {
    if j.Some? && j.value.Str? then Some(j.value.text) else None
  }

  function ReadBelow(j: Option<Json>, bound: nat): (r: Option<nat>)
    ensures r.Some? ==> r.value < bound
  {
    if j.Some? && j.value.Str? then Hex.ParseBelow(j.value.text, bound) else None
  }

  function ReadFelts(items: seq<Json>): Option<seq<Felt>> {
    if items == [] then Some([])
    else
      var first := ReadBelow(Some(items[0]), PRIME);
      var rest := ReadFelts(items[1..]);
      if first.Some? && rest.Some? then Some([first.value] + rest.value) else None
  }

  function ReadArray(j: Option<Json>): Option<seq<Felt>> {
    if j.Some? && j.value.Arr? then ReadFelts(j.value.items) else None
  }

  function ReadMode(j: Option<Json>): Option<U32> {
    if ReadText(j) == Some("L1") then Some(0) else if ReadText(j) == Some("L2") then Some(1) else None
  }

  function ReadBound(j: Option<Json>): Option<ResourceBound> {
    if j.None? then None
    else
      var amount := ReadBelow(Field(j.value, "max_amount"), TWO_64);
      var price := ReadBelow(Field(j.value, "max_price_per_unit"), TWO_128);
      if amount.Some? && price.Some? then Some(ResourceBound(amount.value, price.value)) else None
  }

  function ReadBounds(j: Option<Json>): Option<ResourceBounds> {
    if j.None? then None
    else
      var l1 := ReadBound(Field(j.value, "L1_GAS"));
      var l2 := ReadBound(Field(j.value, "L2_GAS"));
      var data := ReadBound(Field(j.value, "L1_DATA_GAS"));
      if l1.Some? && l2.Some? && data.Some? then Some(ResourceBounds(l1.value, l2.value, data.value)) else None
  }

  datatype CallPart = CallPart(sender: Felt, calldata: seq<Felt>, nonce: Felt)
  datatype FeePart = FeePart(tip: nat, bounds: ResourceBounds, paymaster: seq<Felt>, deployment: seq<Felt>)
  datatype ModePart = ModePart(nonceMode: U32, feeMode: U32)
  datatype ProofPart = ProofPart(signature: Signature, proof: string, facts: seq<Felt>)

  function ReadCall(j: Json): Option<CallPart> {
    var sender := ReadBelow(Field(j, "sender_address"), PRIME);
    var calldata := ReadArray(Field(j, "calldata"));
    var nonce := ReadBelow(Field(j, "nonce"), PRIME);
    if sender.Some? && calldata.Some? && nonce.Some? then Some(CallPart(sender.value, calldata.value, nonce.value))
    else None
  }

  function ReadFees(j: Json): (r: Option<FeePart>)
    ensures r.Some? ==> r.value.tip < TWO_64
  {
    var tip := ReadBelow(Field(j, "tip"), TWO_64);
    var bounds := ReadBounds(Field(j, "resource_bounds"));
    var paymaster := ReadArray(Field(j, "paymaster_data"));
    var deployment := ReadArray(Field(j, "account_deployment_data"));
    if tip.Some? && bounds.Some? && paymaster.Some? && deployment.Some? then
      Some(FeePart(tip.value, bounds.value, paymaster.value, deployment.value))
    else None
  }

  function ReadModes(j: Json): Option<ModePart> {
    var nonceMode := ReadMode(Field(j, "nonce_data_availability_mode"));
    var feeMode := ReadMode(Field(j, "fee_data_availability_mode"));
    if nonceMode.Some? && feeMode.Some? then Some(ModePart(nonceMode.value, feeMode.value)) else None
  }

  function ReadProof(j: Json): Option<ProofPart> {
    var signature := ReadArray(Field(j, "signature"));
    var proof := ReadText(Field(j, "proof"));
    var facts := ReadArray(Field(j, "proof_facts"));
    if signature.Some? && |signature.value| == 2 && proof.Some? && facts.Some? then
      Some(ProofPart(Signature(signature.value[0], signature.value[1]), proof.value, facts.value))
    else None
  }

  predicate InvokeV3(j: Json) {
    ReadText(Field(j, "type")) == Some("INVOKE_FUNCTION") && ReadText(Field(j, "version")) == Some("0x3")
  }

  /** What a receiver on the chain `chainId` makes of a payload: every field parsed on its own. */
  function ReadPayload(j: Json, chainId: Felt): Option<Received> {
    var call, fees, modes, proof := ReadCall(j), ReadFees(j), ReadModes(j), ReadProof(j);
    if InvokeV3(j) && call.Some? && fees.Some? && modes.Some? && proof.Some? then
      Some(Received(
        InvokeTx(call.value.sender, call.value.calldata, chainId, call.value.nonce, fees.value.tip, fees.value.bounds,
                 fees.value.paymaster, fees.value.deployment, modes.value.nonceMode, modes.value.feeMode,
                 proof.value.facts),
        proof.value.signature,
        proof.value.proof))
    else None
  }

  // ----- round trip

  lemma {:induction false} HexArrayRoundTrip(fs: seq<Felt>)
    ensures ReadArray(Some(HexArray(fs))) == Some(fs)
  {
    if fs != [] {
      HexArrayRoundTrip(fs[1..]);
      Hex.PrintParse(fs[0], PRIME);
      assert HexArray(fs).items[1..] == HexArray(fs[1..]).items;
      assert fs == [fs[0]] + fs[1..];
    }
  }

  lemma BoundRoundTrip(b: ResourceBound)
    ensures ReadBound(Some(BoundJson(b))) == Some(b)
  {
    Hex.PrintParse(b.maxAmount, TWO_64);
    Hex.PrintParse(b.maxPricePerUnit, TWO_128);
  }

  lemma GatewayFields(b: ResourceBounds)
    ensures Field(GatewayJson(b), "L1_GAS") == Some(BoundJson(b.l1Gas))
    ensures Field(GatewayJson(b), "L2_GAS") == Some(BoundJson(b.l2Gas))
    ensures Field(GatewayJson(b), "L1_DATA_GAS") == Some(BoundJson(b.l1DataGas))
  {
  }

  lemma BoundsRoundTrip(b: ResourceBounds)
    ensures ReadBounds(Some(GatewayJson(b))) == Some(b)
  {
    GatewayFields(b);
    BoundRoundTrip(b.l1Gas);
    BoundRoundTrip(b.l2Gas);
    BoundRoundTrip(b.l1DataGas);
  }

  lemma SignatureRoundTrip(sig: Signature)
    ensures ReadArray(Some(Arr([HexJson(sig.r), HexJson(sig.s)]))) == Some([sig.r, sig.s])
  {
    HexArrayRoundTrip([sig.r, sig.s]);
    assert HexArray([sig.r, sig.s]).items == [HexJson(sig.r), HexJson(sig.s)];
  }

  lemma SentType(p: SubmitParams, sig: Signature)
    ensures Field(PayloadJson(p, sig), "type") == Some(Str("INVOKE_FUNCTION"))
    ensures Field(PayloadJson(p, sig), "version") == Some(Str("0x3"))
  {
  }

  lemma SentHeader(p: SubmitParams, sig: Signature)
    ensures Field(PayloadJson(p, sig), "sender_address") == Some(HexJson(p.sender))
    ensures Field(PayloadJson(p, sig), "calldata") == Some(HexArray(p.calldata))
    ensures Field(PayloadJson(p, sig), "nonce") == Some(HexJson(p.nonce))
  {
  }

  lemma SentFees(p: SubmitParams, sig: Signature)
    ensures Field(PayloadJson(p, sig), "resource_bounds") == Some(GatewayJson(p.bounds))
    ensures Field(PayloadJson(p, sig), "tip") == Some(Str("0x0"))
  {
  }

  lemma SentTrailer(p: SubmitParams, sig: Signature)
    ensures Field(PayloadJson(p, sig), "paymaster_data") == Some(Arr([]))
    ensures Field(PayloadJson(p, sig), "account_deployment_data") == Some(Arr([]))
    ensures Field(PayloadJson(p, sig), "nonce_data_availability_mode") == Some(Str("L1"))
    ensures Field(PayloadJson(p, sig), "fee_data_availability_mode") == Some(Str("L1"))
    ensures Field(PayloadJson(p, sig), "signature") == Some(Arr([HexJson(sig.r), HexJson(sig.s)]))
    ensures Field(PayloadJson(p, sig), "proof") == Some(Str(p.proofBase64))
    ensures Field(PayloadJson(p, sig), "proof_facts") == Some(HexArray(p.proofFacts))
  {
  }

  lemma CallReadsBack(p: SubmitParams, sig: Signature)
    ensures ReadCall(PayloadJson(p, sig)) == Some(CallPart(p.sender, p.calldata, p.nonce))
  {
    SentHeader(p, sig);
    Hex.PrintParse(p.sender, PRIME);
    Hex.PrintParse(p.nonce, PRIME);
    HexArrayRoundTrip(p.calldata);
  }

  lemma FeesReadBack(p: SubmitParams, sig: Signature)
    ensures ReadFees(PayloadJson(p, sig)) == Some(FeePart(0, p.bounds, [], []))
  {
    SentFees(p, sig);
    SentTrailer(p, sig);
    BoundsRoundTrip(p.bounds);
    ZeroTip();
    assert ReadArray(Some(Arr([]))) == Some([]);
  }

  lemma ZeroTip()
    ensures ReadBelow(Some(Str("0x0")), TWO_64) == Some(0)
  {
    Hex.PrintParse(0, TWO_64);
    assert Hex.Print(0) == "0x0";
  }

  lemma ModesReadBack(p: SubmitParams, sig: Signature)
    ensures InvokeV3(PayloadJson(p, sig))
    ensures ReadModes(PayloadJson(p, sig)) == Some(ModePart(0, 0))
  {
    SentType(p, sig);
    SentTrailer(p, sig);
  }

  lemma ProofReadsBack(p: SubmitParams, sig: Signature)
    ensures ReadProof(PayloadJson(p, sig)) == Some(ProofPart(sig, p.proofBase64, p.proofFacts))
  {
    SentTrailer(p, sig);
    HexArrayRoundTrip(p.proofFacts);
    SignatureRoundTrip(sig);
  }

  lemma ReadsBack(p: SubmitParams, sig: Signature)
    ensures ReadPayload(PayloadJson(p, sig), p.chainId) == Some(Received(SignedTx(p), sig, p.proofBase64))
  {
    CallReadsBack(p, sig);
    FeesReadBack(p, sig);
    ModesReadBack(p, sig);
    ProofReadsBack(p, sig);
  }

  /**
   What is signed is what is sent: a payload is built exactly when signing succeeds, and a
   receiver that parses it and recomputes the hash gets the hash that was signed and returned.
   */
  lemma SignedIsSent(H: Poseidon, sign: Signer, p: SubmitParams)
    ensures var out := SignAndBuildPayload(H, sign, p);
            var hash := TxHash(H, SignedTx(p));
            && (out.Ok? <==> sign(p.privateKey, hash).Some?)
            && (out.Ok? ==>
                  && out.value.0 == hash
                  && var received := ReadPayload(out.value.1, p.chainId);
                     && received.Some?
                     && TxHash(H, received.value.tx) == hash
                     && sign(p.privateKey, hash) == Some(received.value.signature)
                     && received.value.proof == p.proofBase64)
  {
    var hash := TxHash(H, SignedTx(p));
    match sign(p.privateKey, hash)
    case Some(sig) => ReadsBack(p, sig);
    case None =>
  }

  /**
   A receiver that accepts the signed hash for any other transaction holds a Poseidon collision
   between a list hashed for the sent transaction and one hashed for the other.
   */
  lemma SignatureCoversOnlySent(H: Poseidon, sign: Signer, p: SubmitParams, other: InvokeTx)
      returns (x: seq<Felt>, y: seq<Felt>)
    requires SignAndBuildPayload(H, sign, p).Ok?
    requires TxHash(H, other) == SignAndBuildPayload(H, sign, p).value.0
    requires ReadPayload(SignAndBuildPayload(H, sign, p).value.1, p.chainId).Some?
    requires other != ReadPayload(SignAndBuildPayload(H, sign, p).value.1, p.chainId).value.tx
    ensures x != y && H(x) == H(y)
    ensures x in HashedLists(H, SignedTx(p)) && y in HashedLists(H, other)
  {
    var hash := TxHash(H, SignedTx(p));
    ReadsBack(p, sign(p.privateKey, hash).value);
    x, y := HashBinding(H, SignedTx(p), other);
  }
}
