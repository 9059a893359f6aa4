/** How far the escrow record of a contract and the reported balance of its account drift apart
    (crates/runtime/src/contracts.rs). */
module Lockstep {
  import opened Base
  import opened L = Ledger
  import opened LedgerLaws
  import opened LedgerSupply
  import opened StreamLaws
  import opened World
  import opened Kernel
  import opened Humans
  import opened Escrow
  import opened Payouts
  import K = KernelSupply
  import P = PromptContracts
  import Effects
  import Failures
  import Lifecycle
  import Nonces
  import Quorum
  import Transactions
  import opened Runs

  /** What the account of contract `id` holds beyond its escrow record. */
  ghost function Slack(w: World, id: u64, now: u64): int
    requires id < |w.contracts.contracts|
  {
    LiveBalance(w.ledger, ContractAddress(id), now) - w.contracts.contracts[id].escrow
  }

  /** The ops of the effect a case carries out when it is resolved, if any. */
  function CaseOps(seams: Seams, w: World, c: ExecCase, now: u64): seq<Effects.Op> {
    match Quorum.Tally(c.effects, (s: Submission) => seams.effectHash(s.ops), (s: Submission) => true, |c.jury|, QUORUM)
    case Committed(s) =>
      if !Effects.IsAbort(s.ops) && P.ApplyEffect(w, c.contract, s.ops, now).Applied? then s.ops else []
    case _ => []
  }

  /** The ops a transaction carries out, in the world its op starts from. */
  function OpsOf(seams: Seams, b: Block, w: World, tx: KernelTx): seq<Effects.Op> {
    match tx.kind
    case InvokeContract(id, ref) =>
      if id < |w.contracts.contracts| then
        CaseOps(seams, w, P.NewExecCase(seams, w, id, ref, tx.from,
                                        seams.entropy(b.hash, b.number), b.number, b.timestamp),
                b.timestamp)
      else []
    case SubmitEffect(id, ops) =>
      if id < |w.contracts.cases| then
        var c := w.contracts.cases[id];
        CaseOps(seams, w, c.(effects := c.effects + [Submission(tx.from, ops)]), b.timestamp)
      else []
    case _ => []
  }

  /** What a committed transaction pays `e` without an escrow record saying so. */
  function Unrecorded(seams: Seams, b: Block, w: World, tx: KernelTx, e: Address): nat {
    if tx.kind.Transfer? then if tx.kind.to == e then tx.kind.value else 0 else Pays(OpsOf(seams, b, w, tx), e)
  }

  ghost predicate Sound(w: World, now: u64) {
    StreamsOk(w.ledger) && Supply(w.ledger, now) < U128_MAX && EscrowBacked(w)
  }

  /** No escrow is a human, so none of their accounts emits. */
  ghost predicate NoEscrowHumans(w: World) {
    forall a: Address :: IsEscrow(a) ==> a !in w.humanity.humans && !Lookup(w.ledger, a).verified
  }

  ghost predicate NoEscrowRegistered(h: Humanity) { forall a :: a in h.humans ==> !IsEscrow(a) }

  lemma UnregisteredDoNotEmit(w: World)
    requires EmissionGate(w) && NoEscrowRegistered(w.humanity)
    ensures NoEscrowHumans(w)
  {
  }

  // ---------------------------------------------------------------- contract kinds

  lemma BackedBelowSupply(w: World, id: u64, now: u64)
    requires Sound(w, now) && id < |w.contracts.contracts|
    ensures w.contracts.contracts[id].escrow < U128_MAX
    ensures w.contracts.contracts[id].escrow <= LiveBalance(w.ledger, ContractAddress(id), now)
  {
    var e := ContractAddress(id);
    ReportedIsExact(w.ledger, e, now);
  }

  /** An escrow address is the tag of the contract hub in front of the eight bytes of the contract's number. */
  lemma EscrowLayout(id: u64)
    ensures ContractAddress(id) / 0x1_0000_0000_0000_0000 == 0x5043
    ensures ContractAddress(id) % 0x1_0000_0000_0000_0000 == id
  {
  }

  lemma DistinctEscrows(i: u64, j: u64)
    ensures ContractAddress(i) == ContractAddress(j) <==> i == j
  {
  }

  lemma EffectSlack(w: World, j: u64, ops: seq<Effects.Op>, now: u64, id: u64)
    requires Sound(w, now) && id < |w.contracts.contracts| && P.ApplyEffect(w, j, ops, now).Applied?
    ensures var r := P.ApplyEffect(w, j, ops, now).world;
      && |r.contracts.contracts| == |w.contracts.contracts|
      && Slack(r, id, now) == Slack(w, id, now) + Pays(ops, ContractAddress(id))
  {
    hide LiveBalance, Pays, Assigned, EscrowBacked, P.Validate, P.RunOps, StreamsOk, Supply;
    var e := ContractAddress(id);
    assert j < |w.contracts.contracts|;
    BackedBelowSupply(w, j, now);
    DistinctEscrows(id, j);
    EffectMeaning(w, j, ops, now, e);
  }

  lemma CaseSlack(seams: Seams, w: World, c: ExecCase, block: u64, now: u64, id: u64)
    requires Sound(w, now) && id < |w.contracts.contracts|
    ensures var r := P.ResolveCase(seams, w, c, block, now);
      r.Resolved? ==>
        && |r.world.contracts.contracts| == |w.contracts.contracts|
        && Slack(r.world, id, now) == Slack(w, id, now) + Pays(CaseOps(seams, w, c, now), ContractAddress(id))
  {
    hide Slack, P.ApplyEffect, Sound;
    forall ops | P.ApplyEffect(w, c.contract, ops, now).Applied? { EffectSlack(w, c.contract, ops, now, id); }
  }

  ghost predicate SlackMoves(seams: Seams, b: Block, w: World, tx: KernelTx, r: Ran, id: u64)
    requires id < |w.contracts.contracts|
  {
    r.Ran? && r.result.Ok? ==>
      && id < |r.world.contracts.contracts|
      && Slack(r.world, id, b.timestamp)
           == Slack(w, id, b.timestamp) + Unrecorded(seams, b, w, tx, ContractAddress(id))
  }

  lemma InvokeSlack(seams: Seams, b: Block, w: World, tx: KernelTx, id: u64)
    requires Sound(w, b.timestamp) && id < |w.contracts.contracts| && tx.kind.InvokeContract?
    ensures SlackMoves(seams, b, w, tx, Dispatch(seams, b, w, tx), id)
  {
    hide Sound, P.ResolveCase, P.NewExecCase, CaseOps, Pays, LiveBalance;
    var j := tx.kind.invoked;
    if j < |w.contracts.contracts| {
      var entropy := seams.entropy(b.hash, b.number);
      var c := P.NewExecCase(seams, w, j, tx.kind.triggerRef, tx.from, entropy, b.number, b.timestamp);
      CaseSlack(seams, w, c, b.number, b.timestamp, id);
    }
  }

  lemma SubmitEffectSlack(seams: Seams, b: Block, w: World, tx: KernelTx, id: u64)
    requires Sound(w, b.timestamp) && id < |w.contracts.contracts| && tx.kind.SubmitEffect?
    ensures SlackMoves(seams, b, w, tx, Dispatch(seams, b, w, tx), id)
  {
    hide Sound, P.ResolveCase, CaseOps, Pays, LiveBalance;
    var j := tx.kind.effectCase;
    if j < |w.contracts.cases| {
      var c := w.contracts.cases[j];
      var next := c.(effects := c.effects + [Submission(tx.from, tx.kind.effect)]);
      CaseSlack(seams, w, next, b.number, b.timestamp, id);
    }
  }

  lemma FundSlack(seams: Seams, b: Block, w: World, tx: KernelTx, id: u64)
    requires Sound(w, b.timestamp) && id < |w.contracts.contracts| && tx.kind.FundContract? && !IsEscrow(tx.from)
    ensures SlackMoves(seams, b, w, tx, Dispatch(seams, b, w, tx), id)
  {
    hide LiveBalance, ApplyTransfer, StreamsOk, Supply, EscrowBacked;
    var now, j := b.timestamp, tx.kind.funded;
    var s := ApplyTransfer(w.ledger, tx.from, ContractAddress(j), tx.value, tx.nonce, now);
    if j < |w.contracts.contracts| && s.result.Ok? {
      assert IsEscrow(ContractAddress(id));
      DistinctEscrows(id, j);
      BackedBelowSupply(w, j, now);
      TransferPays(w.ledger, tx.from, ContractAddress(j), tx.value, tx.nonce, now, ContractAddress(id));
      TransferPays(w.ledger, tx.from, ContractAddress(j), tx.value, tx.nonce, now, ContractAddress(j));
    }
  }

  // ---------------------------------------------------------------- ledger and registry kinds

  lemma LedgerKindSlack(seams: Seams, b: Block, w: World, tx: KernelTx, id: u64)
    requires Sound(w, b.timestamp) && id < |w.contracts.contracts| && !IsEscrow(tx.from)
    requires tx.kind.Transfer? || tx.kind.OpenStream? || tx.kind.StopStream?
    ensures SlackMoves(seams, b, w, tx, Dispatch(seams, b, w, tx), id)
  {
    hide LiveBalance, ApplyTransfer, L.OpenStream, L.StopStream, StreamsOk, Supply, EscrowBacked, ExactBalance, Accrued;
    var now, e := b.timestamp, ContractAddress(id);
    assert IsEscrow(e);
    var r := Dispatch(seams, b, w, tx);
    if r.result.Ok? {
      match tx.kind
      case Transfer(to, value) => TransferPays(w.ledger, tx.from, to, value, tx.nonce, now, e);
      case OpenStream(to, rate, deposit) => OpenMeaning(w.ledger, tx.from, to, rate, deposit, now, e, now);
      case StopStream(stream) => StopMeaning(w.ledger, stream, tx.from, now, e);
    }
  }

  /** The account of `e` reports the same, whatever was written about its gate. */
  ghost predicate SameReport(w: World, r: World, e: Address, now: u64) {
    && r.ledger.streams == w.ledger.streams
    && AccountBalance(Lookup(r.ledger, e), now) == AccountBalance(Lookup(w.ledger, e), now)
  }

  lemma SameReportSameBalance(w: World, r: World, e: Address, now: u64)
    requires SameReport(w, r, e, now)
    ensures LiveBalance(r.ledger, e, now) == LiveBalance(w.ledger, e, now)
  {
    InflowFrame(r.ledger, w.ledger, e, now, 0);
  }

  lemma VerdictReport(w: World, caseId: nat, juror: Address, verdict: CanonicalVerdict, e: Address, now: u64)
    requires e !in w.humanity.humans && !Lookup(w.ledger, e).verified
    ensures var r := Lifecycle.SubmitVerdict(w, caseId, juror, verdict).world;
      SameReport(w, r, e, now) && r.contracts == w.contracts
  {
    hide Lifecycle.StatusAfter;
  }

  lemma ZkReport(seams: Seams, w: World, subject: Address, z: ZkSubmission, now: u64, block: u64, e: Address)
    requires e != subject
    ensures var r := Lifecycle.SubmitZkPassportProof(seams, w, subject, z, now, block).world;
      SameReport(w, r, e, now) && r.contracts == w.contracts
  {
  }

  lemma RegistryKindReport(seams: Seams, b: Block, w: World, tx: KernelTx, e: Address)
    requires !Nonces.MovesValue(tx.kind) && e != tx.from && e !in w.humanity.humans && !Lookup(w.ledger, e).verified
    ensures var r := Dispatch(seams, b, w, tx);
      && r.Ran? && SameReport(w, r.world, e, b.timestamp)
      && w.contracts.contracts <= r.world.contracts.contracts
  {
    hide Lifecycle.SubmitVerdict, Lifecycle.SubmitZkPassportProof, AccountBalance;
    match tx.kind
    case SubmitVerdict(caseId, verdict) => VerdictReport(w, caseId, tx.from, verdict, e, b.timestamp);
    case SubmitZkPassportProof(z) => ZkReport(seams, w, tx.from, z, b.timestamp, b.number, e);
    case _ =>
  }

  lemma DispatchSlack(seams: Seams, b: Block, w: World, tx: KernelTx, id: u64)
    requires Sound(w, b.timestamp) && NoEscrowHumans(w) && id < |w.contracts.contracts| && !IsEscrow(tx.from)
    ensures SlackMoves(seams, b, w, tx, Dispatch(seams, b, w, tx), id)
  {
    if tx.kind.InvokeContract? {
      InvokeSlack(seams, b, w, tx, id);
    } else if tx.kind.SubmitEffect? {
      SubmitEffectSlack(seams, b, w, tx, id);
    } else if tx.kind.FundContract? {
      FundSlack(seams, b, w, tx, id);
    } else if tx.kind.Transfer? || tx.kind.OpenStream? || tx.kind.StopStream? {
      LedgerKindSlack(seams, b, w, tx, id);
    } else {
      hide Dispatch, LiveBalance, SameReport;
      var e := ContractAddress(id);
      assert IsEscrow(e);
      RegistryKindReport(seams, b, w, tx, e);
      SameReportSameBalance(w, Dispatch(seams, b, w, tx).world, e, b.timestamp);
    }
  }

  // ---------------------------------------------------------------- transactions

  /** The world in which a charged transaction's op starts. */
  function OpWorld(w: World, tx: KernelTx, now: u64): World {
    if ConsumesOwnNonce(tx.kind) then K.Charged(w, tx, now) else K.Stepped(w, tx, now).world
  }

  lemma FeeSlack(w: World, tx: KernelTx, now: u64, id: u64)
    requires id < |w.contracts.contracts| && !IsEscrow(tx.from)
    ensures Slack(K.Charged(w, tx, now), id, now) == Slack(w, id, now)
  {
    hide LiveBalance, ChargeFee;
    var e := ContractAddress(id);
    assert IsEscrow(e) && e != TREASURY;
    ChargeFeeMeaning(w.ledger, tx.from, Gas(tx.kind), now, e);
  }

  lemma NonceSlack(w: World, a: Address, n: u64, now: u64, id: u64)
    requires id < |w.contracts.contracts| && !IsEscrow(a)
    ensures Slack(w.(ledger := Put(w.ledger, a, Settle(Lookup(w.ledger, a), now).(nonce := n))), id, now)
      == Slack(w, id, now)
  {
    assert IsEscrow(ContractAddress(id));
    LiveBalanceAfterPut(w.ledger, a, Settle(Lookup(w.ledger, a), now).(nonce := n), ContractAddress(id), now);
  }

  lemma ChargedIsSound(w: World, tx: KernelTx, now: u64)
    requires K.WorldOk(w) && Sound(w, now) && NoEscrowHumans(w) && !IsEscrow(tx.from)
    requires Supply(w.ledger, now) + K.Fee(tx) < U128_MAX
    ensures var w1 := K.Charged(w, tx, now); K.WorldOk(w1) && Sound(w1, now) && NoEscrowHumans(w1)
  {
    hide ChargeFee, Supply, StreamsOk, EscrowBacked, HumansOk;
    K.ChargeKeepsWorld(w, tx.from, Gas(tx.kind), now);
    ChargeSpends(w.ledger, tx.from, Gas(tx.kind), now);
    SpendingKeepsBacked(w, K.Charged(w, tx, now).ledger, tx.from);
    Nonces.ChargeFeeFrame(w.ledger, tx.from, Gas(tx.kind), now);
  }

  lemma OpWorldIsSound(w: World, tx: KernelTx, now: u64)
    requires K.WorldOk(w) && Sound(w, now) && NoEscrowHumans(w) && !IsEscrow(tx.from)
    requires Supply(w.ledger, now) + K.Fee(tx) < U128_MAX
    ensures var w1 := OpWorld(w, tx, now); Sound(w1, now) && NoEscrowHumans(w1)
    ensures OpWorld(w, tx, now).contracts == w.contracts
  {
    hide ChargeFee, Supply, StreamsOk, EscrowBacked, HumansOk, Settle;
    ChargedIsSound(w, tx, now);
    var w1 := K.Charged(w, tx, now);
    if !ConsumesOwnNonce(tx.kind) && K.Stepped(w, tx, now).result.Ok? {
      K.NonceStepKeepsWorld(w1, tx.from, Next64(tx.nonce), now);
      SettledSenderKeepsBacked(w1, tx.from, Next64(tx.nonce), now);
    }
  }

  lemma SuccessRan(seams: Seams, b: Block, w: World, tx: KernelTx)
    requires var r := ApplyTx(seams, b, w, tx); r.Mined? && r.outcome.success
    ensures var d := Dispatch(seams, b, OpWorld(w, tx, b.timestamp), tx);
      d.Ran? && d.result.Ok? && d.world == ApplyTx(seams, b, w, tx).world
    ensures !ConsumesOwnNonce(tx.kind) ==> K.Stepped(w, tx, b.timestamp).result.Ok?
  {
    hide Dispatch, ChargeFee, Settle;
  }

  /** Record and account drift apart by exactly what a committed transaction pays the escrow unrecorded: a plain
      transfer to it, or the transfers and refunds to it of whichever contract's effect was applied. They move
      in step if and only if that is nothing. A failed or dropped transaction never moves them apart. */
  lemma TxSlack(seams: Seams, b: Block, w: World, tx: KernelTx, id: u64)
    requires K.WorldOk(w) && Sound(w, b.timestamp) && NoEscrowHumans(w) && !IsEscrow(tx.from)
    requires Supply(w.ledger, b.timestamp) + K.Fee(tx) < U128_MAX && id < |w.contracts.contracts|
    ensures var r := ApplyTx(seams, b, w, tx); var now := b.timestamp;
      !r.TxPanic? ==>
        && id < |r.world.contracts.contracts|
        && Slack(r.world, id, now) == Slack(w, id, now)
             + if r.Mined? && r.outcome.success
               then Unrecorded(seams, b, OpWorld(w, tx, now), tx, ContractAddress(id)) else 0
  {
    hide ApplyTx, ChargeFee, Dispatch, Supply, StreamsOk, EscrowBacked, HumansOk, LiveBalance, Unrecorded,
         Settle, NoEscrowHumans;
    var r := ApplyTx(seams, b, w, tx);
    var now, e := b.timestamp, ContractAddress(id);
    assert IsEscrow(e) && e != TREASURY;
    if r.Dropped? {
      assert r.world == K.Charged(w, tx, now) by { DroppedIsCharged(seams, b, w, tx); }
      FeeSlack(w, tx, now, id);
    } else if r.Mined? && r.outcome.success {
      SuccessRan(seams, b, w, tx);
      OpWorldIsSound(w, tx, now);
      OpSlack(w, tx, now, id);
      DispatchSlack(seams, b, OpWorld(w, tx, now), tx, id);
    } else if r.Mined? {
      Transactions.FailedTxMoves(seams, b, w, tx, e);
      Failures.FailedTxPostState(seams, b, w, tx);
    }
  }

  lemma DroppedIsCharged(seams: Seams, b: Block, w: World, tx: KernelTx)
    ensures ApplyTx(seams, b, w, tx).Dropped? ==> ApplyTx(seams, b, w, tx).world == K.Charged(w, tx, b.timestamp)
  {
    hide ChargeFee, ApplyOne;
  }

  lemma OpSlack(w: World, tx: KernelTx, now: u64, id: u64)
    requires id < |w.contracts.contracts| && !IsEscrow(tx.from)
    ensures OpWorld(w, tx, now).contracts == w.contracts && Slack(OpWorld(w, tx, now), id, now) == Slack(w, id, now)
  {
    hide ChargeFee, Slack, Settle;
    FeeSlack(w, tx, now, id);
    NonceSlack(K.Charged(w, tx, now), tx.from, Next64(tx.nonce), now, id);
  }

  // ---------------------------------------------------------------- sweeps and runs

  lemma VerdictDomain(w: World, caseId: nat, juror: Address, verdict: CanonicalVerdict)
    ensures Lifecycle.SubmitVerdict(w, caseId, juror, verdict).world.humanity.humans.Keys == w.humanity.humans.Keys
  {
    hide Lifecycle.StatusAfter;
  }

  /** Only its own signer can enter the registry. */
  lemma DispatchDomain(seams: Seams, b: Block, w: World, tx: KernelTx)
    ensures var r := Dispatch(seams, b, w, tx);
      r.Ran? ==> r.world.humanity.humans.Keys <= w.humanity.humans.Keys + {tx.from}
  {
    if Nonces.MovesValue(tx.kind) {
      hide Dispatch;
      Nonces.ValueKindFrame(seams, b, w, tx);
    } else if tx.kind.SubmitVerdict? {
      hide Lifecycle.SubmitVerdict;
      VerdictDomain(w, tx.kind.verdictCase, tx.from, tx.kind.verdict);
    }
  }

  lemma {:induction false} FinalizeDomain(b: Block, w: World, subjects: seq<Address>)
    ensures Finalize(b, w, subjects).humanity.humans.Keys == w.humanity.humans.Keys
    decreases |subjects|
  {
    if subjects != [] {
      var w1 := Lifecycle.FinalizeRegistration(w, subjects[0], b.number, b.timestamp).world;
      assert w1.humanity.humans.Keys == w.humanity.humans.Keys;
      FinalizeDomain(b, w1, subjects[1..]);
    }
  }

  lemma {:induction false} ScanDomain(seams: Seams, b: Block, w: World, subjects: seq<Address>)
    ensures Scan(seams, b, w, subjects).humanity.humans.Keys == w.humanity.humans.Keys
    decreases |subjects|
  {
    if subjects != [] {
      var w1 := ScanOne(seams, b, w, subjects[0]);
      assert w1.humanity.humans.Keys == w.humanity.humans.Keys;
      ScanDomain(seams, b, w1, subjects[1..]);
    }
  }

  lemma EventDomain(seams: Seams, w: World, e: Event)
    requires NoEscrowRegistered(w.humanity) && (e.Tx? ==> !IsEscrow(e.tx.from)) && Execute(seams, w, e).Some?
    ensures NoEscrowRegistered(Execute(seams, w, e).value.humanity)
  {
    hide Dispatch, ChargeFee, Settle, Scan, Finalize, IsEscrow;
    var r := Execute(seams, w, e).value.humanity.humans;
    match e
    case Sweep(b) =>
      ScanDomain(seams, b, w, PendingSubjects(w.humanity));
      var w1 := SybilScan(seams, b, w);
      FinalizeDomain(b, w1, PendingSubjects(w1.humanity));
      assert forall a :: a in r ==> a in w.humanity.humans.Keys;
    case Tx(b, tx) =>
      DispatchDomain(seams, b, K.Charged(w, tx, b.timestamp), tx);
      DispatchDomain(seams, b, K.Stepped(w, tx, b.timestamp).world, tx);
      assert forall a :: a in r ==> a in r.Keys;
  }

  /** Along any run that no escrow signs, no escrow becomes a human. */
  lemma {:induction false} NoEscrowEverRegisters(seams: Seams, w: World, events: seq<Event>)
    requires NoEscrowRegistered(w.humanity) && Run(seams, w, events).Some? && NoEscrowSigns(events)
    ensures NoEscrowRegistered(Run(seams, w, events).value.humanity)
    decreases |events|
  {
    hide NoEscrowRegistered, Execute, IsEscrow;
    if events != [] {
      EventDomain(seams, w, events[0]);
      NoEscrowEverRegisters(seams, Execute(seams, w, events[0]).value, events[1..]);
    }
  }

  lemma {:induction false} FinalizeReport(b: Block, w: World, subjects: seq<Address>, e: Address)
    requires e !in w.humanity.humans
    ensures SameReport(w, Finalize(b, w, subjects), e, b.timestamp) && Finalize(b, w, subjects).contracts == w.contracts
    decreases |subjects|
  {
    if subjects != [] {
      var w1 := Lifecycle.FinalizeRegistration(w, subjects[0], b.number, b.timestamp).world;
      assert SameReport(w, w1, e, b.timestamp) && e !in w1.humanity.humans && w1.contracts == w.contracts;
      FinalizeReport(b, w1, subjects[1..], e);
    }
  }

  /** The sweeps move nothing between record and account. */
  lemma SweepSlack(seams: Seams, b: Block, w: World, id: u64)
    requires NoEscrowRegistered(w.humanity) && id < |w.contracts.contracts|
    ensures var r := RunSweeps(seams, b, w);
      r.contracts == w.contracts && Slack(r, id, b.timestamp) == Slack(w, id, b.timestamp)
  {
    hide Scan, Finalize, LiveBalance, SameReport;
    var e := ContractAddress(id);
    assert IsEscrow(e);
    ScanContracts(seams, b, w, PendingSubjects(w.humanity));
    ScanDomain(seams, b, w, PendingSubjects(w.humanity));
    var w1 := SybilScan(seams, b, w);
    assert e !in w1.humanity.humans.Keys;
    FinalizeReport(b, w1, PendingSubjects(w1.humanity), e);
    SameReportSameBalance(w1, RunSweeps(seams, b, w), e, b.timestamp);
  }

  // ---------------------------------------------------------------- slack over runs

  /** What the streams into `e` pay it from `t` to `now`. */
  ghost function Streamed(l: L.Ledger, e: Address, t: u64, now: u64): int {
    ExactInflow(l.streams, e, now) - ExactInflow(l.streams, e, t)
  }

  /** Between two instants only the streams into an escrow move its account, and never its record. */
  lemma GapSlack(w: World, id: u64, t: u64, now: u64)
    requires t <= now && StreamsOk(w.ledger) && Supply(w.ledger, now) <= U128_MAX && id < |w.contracts.contracts|
    requires !Lookup(w.ledger, ContractAddress(id)).verified
    ensures Slack(w, id, now) == Slack(w, id, t) + Streamed(w.ledger, ContractAddress(id), t, now)
    ensures Streamed(w.ledger, ContractAddress(id), t, now) >= 0
  {
    hide Supply, StreamsOk, LiveBalance;
    var e := ContractAddress(id);
    SupplyGrowth(w.ledger, t, now);
    ReportedIsExact(w.ledger, e, t);
    ReportedIsExact(w.ledger, e, now);
    InflowGrows(w.ledger.streams, e, t, now);
  }

  /** What one event pays `e` unrecorded. */
  ghost function EventUnrecorded(seams: Seams, w: World, ev: Event, e: Address): nat {
    if Commits(seams, w, ev) then Unrecorded(seams, ev.block, OpWorld(w, ev.tx, ev.block.timestamp), ev.tx, e) else 0
  }

  lemma EventSlack(seams: Seams, w: World, ev: Event, id: u64)
    requires K.WorldOk(w) && Sound(w, ev.block.timestamp) && NoEscrowRegistered(w.humanity)
    requires (ev.Tx? ==> !IsEscrow(ev.tx.from)) && Supply(w.ledger, ev.block.timestamp) + FeeOf(ev) < U128_MAX
    requires id < |w.contracts.contracts| && Execute(seams, w, ev).Some?
    ensures var r := Execute(seams, w, ev).value; var now := ev.block.timestamp;
      && id < |r.contracts.contracts|
      && Slack(r, id, now) == Slack(w, id, now) + EventUnrecorded(seams, w, ev, ContractAddress(id))
  {
    hide ApplyTx, RunSweeps, Supply, StreamsOk, EscrowBacked, RegistryOk, Slack, Unrecorded, OpWorld, IsEscrow;
    UnregisteredDoNotEmit(w);
    match ev
    case Sweep(b) => SweepSlack(seams, b, w, id);
    case Tx(b, tx) => TxSlack(seams, b, w, tx, id);
  }

  /** The sum of what a run pays `e` unrecorded. */
  ghost function AllUnrecorded(seams: Seams, w: World, events: seq<Event>, e: Address): nat
    decreases |events|
  {
    if events == [] then 0
    else
      var next := Execute(seams, w, events[0]);
      EventUnrecorded(seams, w, events[0], e)
        + if next.None? then 0 else AllUnrecorded(seams, next.value, events[1..], e)
  }

  /** The sum of what streams pay `e` in the gaps of a run. */
  ghost function AllStreamed(seams: Seams, w: World, events: seq<Event>, t: u64, e: Address): int
    decreases |events|
  {
    if events == [] then 0
    else
      var now := events[0].block.timestamp;
      var next := Execute(seams, w, events[0]);
      Streamed(w.ledger, e, t, now) + if next.None? then 0 else AllStreamed(seams, next.value, events[1..], now, e)
  }

  /** What a run can start from. */
  ghost predicate Ready(w: World) { K.WorldOk(w) && EscrowBacked(w) && NoEscrowRegistered(w.humanity) }

  lemma EventKeepsReady(seams: Seams, w: World, ev: Event)
    requires Ready(w) && (ev.Tx? ==> !IsEscrow(ev.tx.from)) && Execute(seams, w, ev).Some?
    requires Supply(w.ledger, ev.block.timestamp) + FeeOf(ev) <= U128_MAX
    ensures Ready(Execute(seams, w, ev).value)
  {
    hide Execute, K.WorldOk, EscrowBacked, NoEscrowRegistered, Supply, IsEscrow;
    EventKeepsWorld(seams, w, ev);
    EventKeepsBacked(seams, w, ev);
    EventDomain(seams, w, ev);
  }

  /** Along any run record and account of an escrow drift apart by exactly what is paid to it unrecorded and what
      streams pay it in between. Neither sum is negative, so they stay in step if and only if both are 0. */
  lemma {:induction false} SlackOverARun(seams: Seams, w: World, events: seq<Event>, t: u64, id: u64)
    requires Ready(w) && NoEscrowSigns(events) && InOrder(events, t) && Run(seams, w, events).Some?
    requires Supply(w.ledger, t) + Issued(seams, w, events, t) < U128_MAX && id < |w.contracts.contracts|
    ensures var r, end, e := Run(seams, w, events).value, LastTime(events, t), ContractAddress(id);
      && id < |r.contracts.contracts|
      && Slack(r, id, end) == Slack(w, id, t) + AllUnrecorded(seams, w, events, e) + AllStreamed(seams, w, events, t, e)
      && AllStreamed(seams, w, events, t, e) >= 0
      && (Slack(r, id, end) == Slack(w, id, t) <==>
            AllUnrecorded(seams, w, events, e) == 0 && AllStreamed(seams, w, events, t, e) == 0)
    decreases |events|
  {
    hide Ready, Supply, Execute, EmissionCap, Slack, EventUnrecorded, Streamed, FeeOf, IsEscrow, EventMints, EventBurns;
    if events != [] {
      var now := events[0].block.timestamp;
      SupplyGrowth(w.ledger, t, now);
      ReadyMeaning(w, now);
      GapSlack(w, id, t, now);
      EventSlack(seams, w, events[0], id);
      EventKeepsReady(seams, w, events[0]);
      EventKeepsWorld(seams, w, events[0]);
      var next := Execute(seams, w, events[0]).value;
      SlackOverARun(seams, next, events[1..], now, id);
      assert LastTime(events, t) == LastTime(events[1..], now);
    }
  }

  lemma ReadyMeaning(w: World, now: u64)
    requires Ready(w) && Supply(w.ledger, now) < U128_MAX
    ensures K.WorldOk(w) && StreamsOk(w.ledger) && NoEscrowRegistered(w.humanity) && Sound(w, now)
    ensures forall id: u64 :: !Lookup(w.ledger, ContractAddress(id)).verified
  {
    UnregisteredDoNotEmit(w);
    forall id: u64 ensures IsEscrow(ContractAddress(id)) {}
  }
}
