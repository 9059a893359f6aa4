/** The block re-execution kernel as functions of the world (crates/exec/src/apply.rs, op.rs): the
    specification the imperative `Follower` is proved against. */
module Kernel {
  import opened Base
  import opened L = Ledger
  import opened World
  import Effects
  import Lifecycle
  import PromptContracts
  import Jury

  // ---------------------------------------------------------------- transactions

  datatype KernelKind =
    | Transfer(to: Address, value: u128)
    | OpenStream(recipient: Address, rate: u128, deposit: u128)
    | StopStream(stream: u64)
    | RequestVerification(livenessRef: Hash)
    | Vouch(vouchee: Address)
    | Challenge(subject: Address, evidenceRef: Hash)
    | SubmitVerdict(verdictCase: u64, verdict: CanonicalVerdict)
    | SubmitZkPassportProof(submission: ZkSubmission)
    | RegisterCsca(country: Hash, key: Hash, pubkey: seq<byte>)
    | RevokeCsca(revokedKey: Hash)
    | PinSelfIdentityRoot(identityRoot: Hash)
    | PinSelfOfacRoot(ofacKind: byte, ofacRoot: Hash)
    | RetireSelfRoot(retiredRoot: Hash)
    | DeployContract(text: seq<byte>, parties: seq<Address>)
    | FundContract(funded: u64)
    | InvokeContract(invoked: u64, triggerRef: Hash)
    | SubmitEffect(effectCase: u64, effect: seq<Effects.Op>)

  datatype KernelTx = KernelTx(txHash: Hash, from: Address, nonce: u64, value: u128, kind: KernelKind)

  /** The block being executed. */
  datatype Block = Block(timestamp: u64, number: u64, hash: Hash)

  function Gas(kind: KernelKind): u64 {
    match kind
    case Transfer(_, _) => 21_000
    case OpenStream(_, _, _) | StopStream(_) => 60_000
    case RequestVerification(_) => 0
    case Vouch(_) | Challenge(_, _) | SubmitVerdict(_, _) => 80_000
    case SubmitZkPassportProof(_) => 250_000
    case RegisterCsca(_, _, _) | RevokeCsca(_) | PinSelfIdentityRoot(_) | PinSelfOfacRoot(_, _)
      | RetireSelfRoot(_) => 80_000
    case DeployContract(text, _) => SatAdd64(120_000, Min(16 * |text|, U64_MAX))
    case FundContract(_) | InvokeContract(_, _) | SubmitEffect(_, _) => 120_000
  }

  /** `revert` is the rendered error of a failed op. */
  datatype OpOutcome = OpOutcome(success: bool, revert: Option<OpError>, result: OpResult)

  // ---------------------------------------------------------------- one transaction

  /** The nonce step of every kind that does not transfer: settles the sender, then checks and bumps. */
  function ConsumeNonce(w: World, from: Address, nonce: u64, now: u64): Lifecycle.Answer {
    var acct := Settle(Lookup(w.ledger, from), now);
    if nonce != acct.nonce then Lifecycle.Answer(w, Err(OnLedger(BadNonce(acct.nonce, nonce))))
    else Lifecycle.Answer(w.(ledger := Put(w.ledger, from, acct.(nonce := Next64(acct.nonce)))), Ok(0))
  }

  /** Whether the kind's own runtime call checks and consumes the nonce. */
  predicate ConsumesOwnNonce(kind: KernelKind) { kind.Transfer? || kind.FundContract? }

  function Lift(w: World, s: Step<Unit>): Ran {
    Ran(w.(ledger := s.ledger), if s.result.Ok? then Ok(NoResult) else Err(OnLedger(s.result.error)))
  }

  function NoId(a: Lifecycle.Answer): Ran {
    Ran(a.world, if a.result.Ok? then Ok(NoResult) else Err(a.result.error))
  }

  function WithId(a: Lifecycle.Answer): Ran {
    Ran(a.world, if a.result.Ok? then Ok(CaseId(a.result.value)) else Err(a.result.error))
  }

  /** The runtime call of a kind, without its nonce step. */
  function Dispatch(seams: Seams, b: Block, w: World, tx: KernelTx): Ran {
    var now := b.timestamp;
    var entropy := seams.entropy(b.hash, b.number);
    match tx.kind
    case Transfer(to, value) => Lift(w, ApplyTransfer(w.ledger, tx.from, to, value, tx.nonce, now))
    case OpenStream(to, rate, deposit) =>
      var s := L.OpenStream(w.ledger, tx.from, to, rate, deposit, now);
      Ran(w.(ledger := s.ledger), if s.result.Ok? then Ok(StreamId(s.result.value)) else Err(OnLedger(s.result.error)))
    case StopStream(id) =>
      var s := L.StopStream(w.ledger, id, tx.from, now);
      Ran(w.(ledger := s.ledger), if s.result.Ok? then Ok(NoResult) else Err(OnLedger(s.result.error)))
    case RequestVerification(livenessRef) =>
      WithId(Lifecycle.RequestVerification(seams, w, tx.from, livenessRef, entropy, b.number))
    case Vouch(vouchee) => NoId(Lifecycle.Vouch(w, tx.from, vouchee))
    case Challenge(subject, evidenceRef) =>
      WithId(Lifecycle.OpenChallenge(seams, w, tx.from, subject, evidenceRef, entropy, b.number, true))
    case SubmitVerdict(caseId, verdict) => WithId(Lifecycle.SubmitVerdict(w, caseId, tx.from, verdict))
    case SubmitZkPassportProof(z) =>
      var a := Lifecycle.SubmitZkPassportProof(seams, w, tx.from, z, now, b.number);
      Ran(a.world, if a.result.Ok? then Ok(Reached(a.result.value)) else Err(a.result.error))
    case RegisterCsca(country, key, pubkey) => NoId(Lifecycle.RegisterCsca(w, tx.from, key, country, pubkey, b.number))
    case RevokeCsca(key) => NoId(Lifecycle.RevokeCsca(w, tx.from, key))
    case PinSelfIdentityRoot(root) => NoId(Lifecycle.PinSelfIdentityRoot(w, tx.from, root, b.number))
    case PinSelfOfacRoot(kind, root) => NoId(Lifecycle.PinSelfOfacRoot(w, tx.from, kind, root, b.number))
    case RetireSelfRoot(root) => NoId(Lifecycle.RetireSelfRoot(w, tx.from, root))
    case DeployContract(text, parties) =>
      var a := PromptContracts.DeployContract(seams, w, text, parties, b.number, tx.txHash);
      Ran(a.world, if a.result.Ok? then Ok(CaseId(a.result.value)) else Err(a.result.error))
    case FundContract(id) =>
      var a := PromptContracts.FundContract(w, tx.from, id, tx.value, tx.nonce, now);
      Ran(a.world, if a.result.Ok? then Ok(NoResult) else Err(a.result.error))
    case InvokeContract(id, triggerRef) =>
      PromptContracts.InvokeContract(seams, w, id, triggerRef, tx.from, entropy, b.number, now)
    case SubmitEffect(caseId, effect) =>
      PromptContracts.SubmitEffect(seams, w, caseId, tx.from, effect, b.number, now)
  }

  function ApplyOne(seams: Seams, b: Block, w: World, tx: KernelTx): Ran {
    if ConsumesOwnNonce(tx.kind) then Dispatch(seams, b, w, tx)
    else
      var a := ConsumeNonce(w, tx.from, tx.nonce, b.timestamp);
      if a.result.Err? then Ran(w, Err(a.result.error)) else Dispatch(seams, b, a.world, tx)
  }

  /** The post-state of a failed transaction: the sender settled and its nonce set past the transaction. */
  function Fail(w: World, tx: KernelTx, now: u64): World {
    w.(ledger := Put(w.ledger, tx.from, Settle(Lookup(w.ledger, tx.from), now).(nonce := Next64(tx.nonce))))
  }

  datatype TxRan = TxPanic | Dropped(world: World) | Mined(world: World, outcome: OpOutcome)

  function ApplyTx(seams: Seams, b: Block, w: World, tx: KernelTx): TxRan {
    var charged := ChargeFee(w.ledger, tx.from, Gas(tx.kind), b.timestamp);
    var w1 := w.(ledger := charged.ledger);
    if charged.result.Err? then Dropped(w1)
    else
      match ApplyOne(seams, b, w1, tx)
      case Panic => TxPanic
      case Ran(w2, Ok(result)) => Mined(w2, OpOutcome(true, None, result))
      case Ran(w2, Err(error)) => Mined(Fail(w2, tx, b.timestamp), OpOutcome(false, Some(error), NoResult))
  }

  // ---------------------------------------------------------------- a block

  datatype BlockRan = BlockPanic | BlockRan(world: World, outcomes: seq<OpOutcome>)

  function ApplyTxs(seams: Seams, b: Block, w: World, txs: seq<KernelTx>): BlockRan
    decreases |txs|
  {
    if txs == [] then BlockRan(w, [])
    else
      match ApplyTx(seams, b, w, txs[0])
      case TxPanic => BlockPanic
      case Dropped(w1) => ApplyTxs(seams, b, w1, txs[1..])
      case Mined(w1, outcome) =>
        match ApplyTxs(seams, b, w1, txs[1..])
        case BlockPanic => BlockPanic
        case BlockRan(w2, outcomes) => BlockRan(w2, [outcome] + outcomes)
  }

  /** Subjects with a pending registration, by increasing address. */
  function PendingSubjects(h: Humanity): seq<Address> {
    Jury.Sorted(set a | a in h.humans && h.humans[a].status == Pending)
  }

  function ScanOne(seams: Seams, b: Block, w: World, subject: Address): World {
    if seams.analyzeSybil(w.humanity.vouches, subject).verdict != Sybil then w
    else
      Lifecycle.OpenChallenge(seams, w, HUMANITY_HUB, subject, seams.sybilEvidence(subject, b.hash),
                              seams.entropy(b.hash, b.number), b.number, false).world
  }

  function Scan(seams: Seams, b: Block, w: World, subjects: seq<Address>): World
    decreases |subjects|
  {
    if subjects == [] then w else Scan(seams, b, ScanOne(seams, b, w, subjects[0]), subjects[1..])
  }

  function Finalize(b: Block, w: World, subjects: seq<Address>): World
    decreases |subjects|
  {
    if subjects == [] then w
    else Finalize(b, Lifecycle.FinalizeRegistration(w, subjects[0], b.number, b.timestamp).world, subjects[1..])
  }

  function SybilScan(seams: Seams, b: Block, w: World): World { Scan(seams, b, w, PendingSubjects(w.humanity)) }

  function FinalizeAll(b: Block, w: World): World { Finalize(b, w, PendingSubjects(w.humanity)) }

  function RunSweeps(seams: Seams, b: Block, w: World): World { FinalizeAll(b, SybilScan(seams, b, w)) }

  function ApplyOps(seams: Seams, b: Block, w: World, txs: seq<KernelTx>): BlockRan {
    match ApplyTxs(seams, b, w, txs)
    case BlockPanic => BlockPanic
    case BlockRan(w1, outcomes) => BlockRan(RunSweeps(seams, b, w1), outcomes)
  }
}
