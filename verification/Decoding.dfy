/** From a decoded envelope to a kernel transaction (crates/exec/src/op.rs): routing by destination, the value
    rules and the bounds on hub arguments. The envelope is split, its signer recovered and its calldata
    ABI-decoded already; `disclose` reads the nullifier and attributes out of a proof's public signals. */
module Decoding {
  import opened Base
  import opened World
  import EffectCodec
  import K = Kernel

  const STREAM_HUB: Address := 0x5742
  const MAX_ZK_PROOF_BYTES: nat := 1024
  const MAX_USER_CONTEXT_DATA_BYTES: nat := 1024
  const PUBLIC_SIGNALS: nat := 21

  type u256 = n: nat | n <= HASH_MAX

  datatype Call =
    | OpenStreamCall(to: Address, rate: u256, deposit: u256)
    | StopStreamCall(stream: u256)
    | SoulboundCall
    | RequestVerificationCall(livenessRef: Hash)
    | VouchCall(vouchee: Address)
    | ChallengeCall(subject: Address, evidenceRef: Hash)
    | SubmitVerdictCall(verdictCase: u256, verdict: byte, confidence: byte)
    | SubmitZkPassportProofCall(proof: seq<byte>, signals: seq<Hash>, schemeTag: byte, userContext: seq<byte>)
    | RegisterCscaCall(country: Hash, key: Hash, pubkey: seq<byte>)
    | RevokeCscaCall(revokedKey: Hash)
    | PinSelfIdentityRootCall(identityRoot: Hash)
    | PinSelfOfacRootCall(ofacKind: byte, ofacRoot: Hash)
    | RetireSelfRootCall(retiredRoot: Hash)
    | DeployContractCall(text: seq<byte>, parties: seq<Address>)
    | FundContractCall(funded: u256)
    | InvokeContractCall(invoked: u256, triggerRef: Hash)
    | SubmitEffectCall(effectCase: u256, ops: seq<byte>)

  /** Calldata: none, bytes that are no call of any hub, or a call. */
  datatype Input = Empty | Garbage | Calls(call: Call)

  datatype Envelope = Envelope(
    hash: Hash, chainId: Option<u64>, signer: Option<Address>, to: Option<Address>, nonce: u64, value: u256,
    input: Input)

  datatype DecodeError =
    WrongChain | BadSignature | ContractCreation | UnexpectedCalldata | ValueOverflow | BadCalldata | Soulbound

  type Disclose = seq<Hash> -> (Hash, seq<Hash>)

  // ---------------------------------------------------------------- hub parsers

  function ParseStream(input: Input): Result<K.KernelKind, DecodeError> {
    match input
    case Calls(OpenStreamCall(to, rate, deposit)) =>
      if rate > U128_MAX || deposit > U128_MAX then Err(ValueOverflow) else Ok(K.OpenStream(to, rate, deposit))
    case Calls(StopStreamCall(id)) => if id > U64_MAX then Err(ValueOverflow) else Ok(K.StopStream(id))
    case Calls(SoulboundCall) => Err(Soulbound)
    case _ => Err(BadCalldata)
  }

  function VerdictOf(b: byte): Option<Verdict> {
    if b == 0 then Some(Human) else if b == 1 then Some(Sybil) else if b == 2 then Some(Uncertain) else None
  }

  function ConfidenceOf(b: byte): Option<Confidence> {
    if b == 0 then Some(Low) else if b == 1 then Some(Med) else if b == 2 then Some(High) else None
  }

  function ParseHumanity(disclose: Disclose, input: Input): Result<K.KernelKind, DecodeError> {
    match input
    case Calls(RequestVerificationCall(livenessRef)) => Ok(K.RequestVerification(livenessRef))
    case Calls(VouchCall(vouchee)) => Ok(K.Vouch(vouchee))
    case Calls(ChallengeCall(subject, evidenceRef)) => Ok(K.Challenge(subject, evidenceRef))
    case Calls(SubmitVerdictCall(caseId, v, c)) =>
      if caseId > U64_MAX then Err(ValueOverflow)
      else if VerdictOf(v).None? || ConfidenceOf(c).None? then Err(BadCalldata)
      else Ok(K.SubmitVerdict(caseId, CanonicalVerdict(VerdictOf(v).value, ConfidenceOf(c).value, 0)))
    case Calls(SubmitZkPassportProofCall(proof, signals, schemeTag, userContext)) =>
      if |signals| != PUBLIC_SIGNALS || proof == [] || |proof| > MAX_ZK_PROOF_BYTES then Err(BadCalldata)
      else if |userContext| > MAX_USER_CONTEXT_DATA_BYTES then Err(BadCalldata)
      else
        Ok(K.SubmitZkPassportProof(
          ZkSubmission(proof, signals, schemeTag, userContext, disclose(signals).0, disclose(signals).1)))
    case Calls(RegisterCscaCall(country, key, pubkey)) => Ok(K.RegisterCsca(country, key, pubkey))
    case Calls(RevokeCscaCall(key)) => Ok(K.RevokeCsca(key))
    case Calls(PinSelfIdentityRootCall(root)) => Ok(K.PinSelfIdentityRoot(root))
    case Calls(PinSelfOfacRootCall(kind, root)) => Ok(K.PinSelfOfacRoot(kind, root))
    case Calls(RetireSelfRootCall(root)) => Ok(K.RetireSelfRoot(root))
    case _ => Err(BadCalldata)
  }

  function ParseContract(input: Input): Result<K.KernelKind, DecodeError> {
    match input
    case Calls(DeployContractCall(text, parties)) =>
      if |text| > MAX_CONTRACT_TEXT_BYTES || |parties| > MAX_CONTRACT_PARTIES then Err(BadCalldata)
      else Ok(K.DeployContract(text, parties))
    case Calls(FundContractCall(id)) => if id > U64_MAX then Err(ValueOverflow) else Ok(K.FundContract(id))
    case Calls(InvokeContractCall(id, triggerRef)) =>
      if id > U64_MAX then Err(ValueOverflow) else Ok(K.InvokeContract(id, triggerRef))
    case Calls(SubmitEffectCall(caseId, ops)) =>
      if caseId > U64_MAX then Err(ValueOverflow)
      else if EffectCodec.Decode(ops).Err? then Err(BadCalldata)
      else Ok(K.SubmitEffect(caseId, EffectCodec.Decode(ops).value))
    case _ => Err(BadCalldata)
  }

  predicate IsHub(a: Address) { a == STREAM_HUB || a == HUMANITY_HUB || a == CONTRACT_HUB }

  function Route(disclose: Disclose, to: Address, value: u256, input: Input): Result<K.KernelKind, DecodeError> {
    if to == STREAM_HUB then ParseStream(input)
    else if to == HUMANITY_HUB then ParseHumanity(disclose, input)
    else if to == CONTRACT_HUB then ParseContract(input)
    else if !input.Empty? then Err(UnexpectedCalldata)
    else if value > U128_MAX then Err(ValueOverflow)
    else Ok(K.Transfer(to, value))
  }

  predicate CarriesValue(kind: K.KernelKind) { kind.Transfer? || kind.FundContract? }

  function DecodeTx(disclose: Disclose, chainId: u64, e: Envelope): Result<K.KernelTx, DecodeError> {
    if e.chainId != Some(chainId) then Err(WrongChain)
    else if e.signer.None? then Err(BadSignature)
    else if e.to.None? then Err(ContractCreation)
    else
      match Route(disclose, e.to.value, e.value, e.input)
      case Err(error) => Err(error)
      case Ok(kind) =>
        if CarriesValue(kind) && e.value > U128_MAX then Err(ValueOverflow)
        else Ok(K.KernelTx(e.hash, e.signer.value, e.nonce, if CarriesValue(kind) then e.value else 0, kind))
  }

  // ---------------------------------------------------------------- the envelope of a transaction

  function VerdictByte(v: Verdict): byte { match v case Human => 0 case Sybil => 1 case Uncertain => 2 }

  function ConfidenceByte(c: Confidence): byte { match c case Low => 0 case Med => 1 case High => 2 }

  function Destination(kind: K.KernelKind): Address {
    match kind
    case Transfer(to, _) => to
    case OpenStream(_, _, _) | StopStream(_) => STREAM_HUB
    case DeployContract(_, _) | FundContract(_) | InvokeContract(_, _) | SubmitEffect(_, _) => CONTRACT_HUB
    case _ => HUMANITY_HUB
  }

  function InputOf(kind: K.KernelKind): Input {
    match kind
    case Transfer(_, _) => Empty
    case OpenStream(to, rate, deposit) => Calls(OpenStreamCall(to, rate, deposit))
    case StopStream(id) => Calls(StopStreamCall(id))
    case RequestVerification(livenessRef) => Calls(RequestVerificationCall(livenessRef))
    case Vouch(vouchee) => Calls(VouchCall(vouchee))
    case Challenge(subject, evidenceRef) => Calls(ChallengeCall(subject, evidenceRef))
    case SubmitVerdict(id, v) => Calls(SubmitVerdictCall(id, VerdictByte(v.verdict), ConfidenceByte(v.confidence)))
    case SubmitZkPassportProof(z) => Calls(SubmitZkPassportProofCall(z.proof, z.signals, z.schemeTag, z.userContext))
    case RegisterCsca(country, key, pubkey) => Calls(RegisterCscaCall(country, key, pubkey))
    case RevokeCsca(key) => Calls(RevokeCscaCall(key))
    case PinSelfIdentityRoot(root) => Calls(PinSelfIdentityRootCall(root))
    case PinSelfOfacRoot(k, root) => Calls(PinSelfOfacRootCall(k, root))
    case RetireSelfRoot(root) => Calls(RetireSelfRootCall(root))
    case DeployContract(text, parties) => Calls(DeployContractCall(text, parties))
    case FundContract(id) => Calls(FundContractCall(id))
    case InvokeContract(id, triggerRef) => Calls(InvokeContractCall(id, triggerRef))
    case SubmitEffect(id, effect) => Calls(SubmitEffectCall(id, EffectCodec.Encode(effect)))
  }

  function EncodeTx(chainId: u64, tx: K.KernelTx): Envelope {
    Envelope(tx.txHash, Some(chainId), Some(tx.from), Some(Destination(tx.kind)), tx.nonce, tx.value, InputOf(tx.kind))
  }

  /** The kinds that can arrive on the wire. */
  predicate WireKind(disclose: Disclose, kind: K.KernelKind) {
    match kind
    case Transfer(to, _) => !IsHub(to)
    case SubmitVerdict(_, v) => v.reasonsHash == 0
    case SubmitZkPassportProof(z) =>
      && |z.signals| == 21 && 1 <= |z.proof| <= 1024 && |z.userContext| <= 1024
      && (z.nullifier, z.attributes) == disclose(z.signals)
    case DeployContract(text, parties) => |text| <= 8192 && |parties| <= 16
    case SubmitEffect(_, effect) => |effect| < 0x1_0000_0000
    case _ => true
  }

  /** And the values they can arrive with. */
  predicate OnWire(disclose: Disclose, tx: K.KernelTx) {
    && WireKind(disclose, tx.kind)
    && (tx.kind.Transfer? ==> tx.value == tx.kind.value)
    && (!tx.kind.Transfer? && !tx.kind.FundContract? ==> tx.value == 0)
  }

  // ---------------------------------------------------------------- decoding and encoding are inverse

  lemma RouteOfEncoded(disclose: Disclose, kind: K.KernelKind, value: u256)
    requires value <= U128_MAX
    ensures Route(disclose, Destination(kind), value, InputOf(kind)) == Ok(kind) <==>
      WireKind(disclose, kind) && (kind.Transfer? ==> value == kind.value)
  {
    hide EffectCodec.Decode, EffectCodec.Encode;
    if kind.SubmitEffect? { EffectCodec.RoundTrip(kind.effect); }
  }

  /** A transaction survives the wire exactly when it is one that can arrive on it. */
  lemma TxRoundTrip(disclose: Disclose, chainId: u64, tx: K.KernelTx)
    ensures DecodeTx(disclose, chainId, EncodeTx(chainId, tx)) == Ok(tx) <==> OnWire(disclose, tx)
  {
    hide Route, Destination, InputOf, WireKind;
    RouteOfEncoded(disclose, tx.kind, tx.value);
  }

  lemma RoutedIsEncoded(disclose: Disclose, to: Address, value: u256, input: Input)
    requires Route(disclose, to, value, input).Ok?
    ensures var kind := Route(disclose, to, value, input).value;
      && WireKind(disclose, kind) && Destination(kind) == to && InputOf(kind) == input
      && (kind.Transfer? ==> kind.value == value)
  {
    hide EffectCodec.Decode, EffectCodec.Encode;
    if input.Calls? && input.call.SubmitEffectCall? { EffectCodec.DecodedIsCanonical(input.call.ops); }
  }

  /** An envelope that decodes is the encoding of what it decodes to, but for a value sent along with a call
      that takes none: it is neither moved nor refused. */
  lemma DecodedIsEncoded(disclose: Disclose, chainId: u64, e: Envelope)
    requires DecodeTx(disclose, chainId, e).Ok?
    ensures var tx := DecodeTx(disclose, chainId, e).value;
      && OnWire(disclose, tx)
      && EncodeTx(chainId, tx) == e.(value := if tx.kind.Transfer? || tx.kind.FundContract? then e.value else 0)
  {
    hide Route, Destination, InputOf, WireKind;
    RoutedIsEncoded(disclose, e.to.value, e.value, e.input);
  }

  /** Who is charged and for what is read off the envelope: its signer, its nonce and hash, and its value for a plain
      transfer and the funding of a contract; every other call of a hub comes with 0. */
  lemma DecodedFields(disclose: Disclose, chainId: u64, e: Envelope)
    requires DecodeTx(disclose, chainId, e).Ok?
    ensures var tx := DecodeTx(disclose, chainId, e).value;
      && e.chainId == Some(chainId) && e.signer == Some(tx.from) && e.nonce == tx.nonce && e.hash == tx.txHash
      && (tx.kind.FundContract? ==> tx.value == e.value)
      && (tx.kind.Transfer? ==> tx.value == tx.kind.value == e.value && e.to == Some(tx.kind.to))
      && (!tx.kind.Transfer? ==> e.to.Some? && e.to.value in {0x5742, 0x5048, 0x5043})
      && (!tx.kind.Transfer? && !tx.kind.FundContract? ==> tx.value == 0)
  {
    hide EffectCodec.Decode;
  }

  /** So two envelopes stand for one transaction exactly when they differ at most in such a value. */
  lemma OneEnvelopePerTx(disclose: Disclose, chainId: u64, d: Envelope, e: Envelope)
    requires DecodeTx(disclose, chainId, d).Ok? && DecodeTx(disclose, chainId, e).Ok?
    ensures var tx := DecodeTx(disclose, chainId, d).value;
      tx == DecodeTx(disclose, chainId, e).value <==>
      if tx.kind.Transfer? || tx.kind.FundContract? then d == e else d == e.(value := d.value)
  {
    DecodedIsEncoded(disclose, chainId, d);
    DecodedIsEncoded(disclose, chainId, e);
    hide ParseStream, ParseHumanity, ParseContract, EncodeTx, OnWire;
    if !CarriesValue(DecodeTx(disclose, chainId, d).value.kind) && d == e.(value := d.value) {
      ValueIsIgnored(disclose, chainId, d, e.value);
    }
  }

  lemma ValueIsIgnored(disclose: Disclose, chainId: u64, e: Envelope, value: u256)
    requires DecodeTx(disclose, chainId, e).Ok? && !CarriesValue(DecodeTx(disclose, chainId, e).value.kind)
    ensures DecodeTx(disclose, chainId, e.(value := value)) == DecodeTx(disclose, chainId, e)
  {
    hide ParseStream, ParseHumanity, ParseContract;
  }
}
