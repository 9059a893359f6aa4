/** Supply and registry invariants across every transaction kind and both sweeps. */
module KernelSupply {
  import opened Base
  import opened L = Ledger
  import opened LedgerLaws
  import opened LedgerSupply
  import opened World
  import opened Kernel
  import opened Humans
  import opened Nonces
  import Lifecycle
  import PromptContracts
  import Effects

  ghost predicate WorldOk(w: World) { HumansOk(w) && StreamsOk(w.ledger) }

  // ---------------------------------------------------------------- effects

  lemma RunOpConserves(r: PromptContracts.Run, escrow: Address, op: Effects.Op, now: u64)
    requires r.Run? && StreamsOk(r.ledger) && Supply(r.ledger, now) <= U128_MAX
    ensures var q := PromptContracts.RunOp(r, escrow, op, now);
      q.Run? ==> StreamsOk(q.ledger) && Supply(q.ledger, now) == Supply(r.ledger, now)
  {
    hide Supply, StreamsOk, ApplyTransfer, L.OpenStream, L.StopStream;
    match op
    case Transfer(to, amount) => TransferConserves(r.ledger, escrow, to, amount, r.nonce, now);
    case Refund(party, amount) => TransferConserves(r.ledger, escrow, party, amount, r.nonce, now);
    case OpenStream(to, rate, deposit) => OpenConserves(r.ledger, escrow, to, rate, deposit, now);
    case StopStream(id) => StopConserves(r.ledger, id, escrow, now);
    case SetVar(_, _) =>
    case Abort(_) =>
  }

  lemma {:induction false} RunOpsConserves(r: PromptContracts.Run, escrow: Address, ops: seq<Effects.Op>, now: u64)
    requires r.Run? && StreamsOk(r.ledger) && Supply(r.ledger, now) <= U128_MAX
    ensures var q := PromptContracts.RunOps(r, escrow, ops, now);
      q.Run? ==> StreamsOk(q.ledger) && Supply(q.ledger, now) == Supply(r.ledger, now)
    decreases |ops|
  {
    hide Supply, StreamsOk, PromptContracts.RunOp;
    if ops != [] {
      RunOpConserves(r, escrow, ops[0], now);
      var q := PromptContracts.RunOp(r, escrow, ops[0], now);
      if q.Run? { RunOpsConserves(q, escrow, ops[1..], now); }
    }
  }

  lemma EffectConserves(w: World, id: u64, ops: seq<Effects.Op>, now: u64)
    requires StreamsOk(w.ledger) && Supply(w.ledger, now) <= U128_MAX
    ensures var r := PromptContracts.ApplyEffect(w, id, ops, now);
      r.Applied? ==> StreamsOk(r.world.ledger) && Supply(r.world.ledger, now) == Supply(w.ledger, now)
  {
    if id < |w.contracts.contracts| {
      var escrow := ContractAddress(id);
      WorthIsCounted(w.ledger, escrow, now);
      SettleKeepsWorth(Lookup(w.ledger, escrow), now);
      TotalWorthPut(w.ledger, escrow, Settle(Lookup(w.ledger, escrow), now), now);
      RunOpsConserves(PromptContracts.StartRun(w, id, now), escrow, ops, now);
    }
  }

  lemma ResolveConserves(seams: Seams, w: World, c: ExecCase, block: u64, now: u64)
    requires StreamsOk(w.ledger) && Supply(w.ledger, now) <= U128_MAX
    ensures var r := PromptContracts.ResolveCase(seams, w, c, block, now);
      r.Resolved? ==> StreamsOk(r.world.ledger) && Supply(r.world.ledger, now) == Supply(w.ledger, now)
  {
    hide Supply, StreamsOk, PromptContracts.ApplyEffect;
    forall ops { EffectConserves(w, c.contract, ops, now); }
  }

  lemma InvokeConserves(
    seams: Seams, w: World, id: u64, triggerRef: Hash, invoker: Address, entropy: u64, block: u64, now: u64)
    requires StreamsOk(w.ledger) && Supply(w.ledger, now) <= U128_MAX
    ensures var r := PromptContracts.InvokeContract(seams, w, id, triggerRef, invoker, entropy, block, now);
      r.Ran? ==> StreamsOk(r.world.ledger) && Supply(r.world.ledger, now) == Supply(w.ledger, now)
  {
    hide Supply, StreamsOk, PromptContracts.ResolveCase, PromptContracts.NewExecCase;
    if id < |w.contracts.contracts| {
      var c := PromptContracts.NewExecCase(seams, w, id, triggerRef, invoker, entropy, block, now);
      ResolveConserves(seams, w, c, block, now);
    }
  }

  lemma SubmitEffectConserves(
    seams: Seams, w: World, caseId: u64, who: Address, ops: seq<Effects.Op>, block: u64, now: u64)
    requires StreamsOk(w.ledger) && Supply(w.ledger, now) <= U128_MAX
    ensures var r := PromptContracts.SubmitEffect(seams, w, caseId, who, ops, block, now);
      r.Ran? ==> StreamsOk(r.world.ledger) && Supply(r.world.ledger, now) == Supply(w.ledger, now)
  {
    hide Supply, StreamsOk, PromptContracts.ResolveCase;
    if caseId < |w.contracts.cases| {
      var c := w.contracts.cases[caseId];
      ResolveConserves(seams, w, c.(effects := c.effects + [Submission(who, ops)]), block, now);
    }
  }

  // ---------------------------------------------------------------- registry

  /** Flipping the emission gate of one account. */
  lemma SyncSupply(w: World, a: Address, verified: bool, at: u64, now: u64)
    requires StreamsOk(w.ledger)
    ensures var r := Lifecycle.SyncVerified(w, a, verified, at);
      && StreamsOk(r.ledger)
      && Supply(r.ledger, now) == Supply(w.ledger, now)
           - PendingEmission(Lookup(w.ledger, a), now)
           + PendingEmission(Lookup(w.ledger, a).(verified := verified, verifiedAt := at), now)
  {
    hide PendingEmission, TotalWorth, TotalLocked;
    TotalWorthPut(w.ledger, a, Lookup(w.ledger, a).(verified := verified, verifiedAt := at), now);
  }

  /** A pending human starts emitting from `now` on, so nothing is created at `now`. */
  lemma FinalizeConserves(w: World, subject: Address, block: u64, now: u64)
    requires WorldOk(w)
    ensures var r := Lifecycle.FinalizeRegistration(w, subject, block, now).world;
      StreamsOk(r.ledger) && Supply(r.ledger, now) == Supply(w.ledger, now)
  {
    hide Supply, StreamsOk, RegistryOk;
    SyncSupply(w, subject, true, now, now);
  }

  lemma ZkConserves(seams: Seams, w: World, subject: Address, z: ZkSubmission, now: u64, block: u64)
    requires StreamsOk(w.ledger) && PendingEmission(Lookup(w.ledger, subject), now) == 0
    ensures var r := Lifecycle.SubmitZkPassportProof(seams, w, subject, z, now, block).world;
      StreamsOk(r.ledger) && Supply(r.ledger, now) == Supply(w.ledger, now)
  {
    hide Supply, StreamsOk;
    SyncSupply(w, subject, true, now, now);
  }

  /** The emission a verdict destroys: a revocation closes the gate without settling the account first. */
  ghost function Burned(w: World, kind: KernelKind, juror: Address, now: u64): nat {
    if kind.SubmitVerdict? && Lifecycle.SubmitVerdict(w, kind.verdictCase, juror, kind.verdict).result.Ok? then
      var c := Lifecycle.WithVote(w.humanity.cases[kind.verdictCase], juror, kind.verdict);
      if c.status.Committed? && c.status.verdict.verdict == Sybil
      then PendingEmission(Lookup(w.ledger, c.subject), now) else 0
    else 0
  }

  lemma EnforceSupply(w: World, c: Case, now: u64)
    requires EmissionGate(w) && StreamsOk(w.ledger)
    ensures var r := Lifecycle.Enforce(w, c);
      && StreamsOk(r.ledger)
      && Supply(r.ledger, now) == Supply(w.ledger, now)
           - if c.status.Committed? && c.status.verdict.verdict == Sybil
             then PendingEmission(Lookup(w.ledger, c.subject), now) else 0
  {
    hide Supply, StreamsOk, PendingEmission;
    SyncSupply(w, c.subject, false, 0, now);
    assert PendingEmission(Lookup(w.ledger, c.subject).(verified := false, verifiedAt := 0), now) == 0 by {
      UnverifiedEmitsNothing(Lookup(w.ledger, c.subject).(verified := false, verifiedAt := 0), now);
    }
    if Lifecycle.StatusOf(w.humanity, c.subject) == Challenged {
      var at := w.humanity.humans[c.subject].verifiedAt;
      SyncSupply(w, c.subject, true, at, now);
      assert Lookup(w.ledger, c.subject).(verified := true, verifiedAt := at) == Lookup(w.ledger, c.subject);
    }
  }

  lemma UnverifiedEmitsNothing(a: Account, now: u64)
    requires !a.verified
    ensures PendingEmission(a, now) == 0
  {
  }

  lemma VerdictSupply(w: World, kind: KernelKind, juror: Address, now: u64)
    requires WorldOk(w) && kind.SubmitVerdict?
    ensures var r := Lifecycle.SubmitVerdict(w, kind.verdictCase, juror, kind.verdict).world;
      StreamsOk(r.ledger) && Supply(r.ledger, now) == Supply(w.ledger, now) - Burned(w, kind, juror, now)
  {
    hide Supply, StreamsOk, RegistryOk, Lifecycle.Enforce;
    var a := Lifecycle.SubmitVerdict(w, kind.verdictCase, juror, kind.verdict);
    if a.result.Ok? {
      var h := w.humanity;
      var c := Lifecycle.WithVote(h.cases[kind.verdictCase], juror, kind.verdict);
      var w1 := w.(humanity := h.(cases := h.cases[kind.verdictCase := c]));
      assert EmissionGate(w1);
      EnforceSupply(w1, c, now);
    }
  }

  // ---------------------------------------------------------------- every kind

  ghost predicate SupplyStep(w: World, tx: KernelTx, r: Ran, now: u64) {
    r.Ran? ==>
      StreamsOk(r.world.ledger)
      && Supply(r.world.ledger, now) == Supply(w.ledger, now) - Burned(w, tx.kind, tx.from, now)
  }

  lemma ValueKindSupply(seams: Seams, b: Block, w: World, tx: KernelTx)
    requires MovesValue(tx.kind) && StreamsOk(w.ledger) && Supply(w.ledger, b.timestamp) <= U128_MAX
    ensures SupplyStep(w, tx, Dispatch(seams, b, w, tx), b.timestamp)
  {
    hide Supply, StreamsOk, ApplyTransfer, L.OpenStream, L.StopStream,
         PromptContracts.InvokeContract, PromptContracts.SubmitEffect;
    var now := b.timestamp;
    match tx.kind
    case Transfer(to, value) => TransferConserves(w.ledger, tx.from, to, value, tx.nonce, now);
    case OpenStream(to, rate, deposit) => OpenConserves(w.ledger, tx.from, to, rate, deposit, now);
    case StopStream(id) => StopConserves(w.ledger, id, tx.from, now);
    case FundContract(id) => TransferConserves(w.ledger, tx.from, ContractAddress(id), tx.value, tx.nonce, now);
    case InvokeContract(id, triggerRef) =>
      InvokeConserves(seams, w, id, triggerRef, tx.from, seams.entropy(b.hash, b.number), b.number, now);
    case SubmitEffect(caseId, ops) => SubmitEffectConserves(seams, w, caseId, tx.from, ops, b.number, now);
  }

  lemma RegistryKindSupply(seams: Seams, b: Block, w: World, tx: KernelTx)
    requires !MovesValue(tx.kind) && WorldOk(w) && PendingEmission(Lookup(w.ledger, tx.from), b.timestamp) == 0
    ensures SupplyStep(w, tx, Dispatch(seams, b, w, tx), b.timestamp)
  {
    hide Supply, StreamsOk, HumansOk, Lifecycle.SubmitVerdict, Lifecycle.SubmitZkPassportProof, PendingEmission;
    match tx.kind
    case SubmitVerdict(_, _) => VerdictSupply(w, tx.kind, tx.from, b.timestamp);
    case SubmitZkPassportProof(z) => ZkConserves(seams, w, tx.from, z, b.timestamp, b.number);
    case _ =>
  }

  lemma RegistryKindKeepsHumans(seams: Seams, b: Block, w: World, tx: KernelTx)
    requires !MovesValue(tx.kind) && HumansOk(w)
    ensures var r := Dispatch(seams, b, w, tx); r.Ran? && HumansOk(r.world)
  {
    hide Lifecycle.SubmitVerdict, Lifecycle.SubmitZkPassportProof, Lifecycle.RequestVerification, Lifecycle.Vouch,
      Lifecycle.OpenChallenge, RegistryOk;
    var entropy := seams.entropy(b.hash, b.number);
    match tx.kind
    case RequestVerification(ref) => RequestKeepsHumans(seams, w, tx.from, ref, entropy, b.number);
    case Vouch(vouchee) => VouchKeepsHumans(w, tx.from, vouchee);
    case Challenge(subject, ref) => ChallengeKeepsHumans(seams, w, tx.from, subject, ref, entropy, b.number, true);
    case SubmitVerdict(caseId, verdict) => VerdictKeepsHumans(w, caseId, tx.from, verdict);
    case SubmitZkPassportProof(z) => ZkKeepsHumans(seams, w, tx.from, z, b.timestamp, b.number);
    case _ =>
  }

  /** Every runtime call keeps the invariants and the supply, but for the emission a revocation destroys. */
  lemma DispatchKeepsWorld(seams: Seams, b: Block, w: World, tx: KernelTx)
    requires WorldOk(w) && Supply(w.ledger, b.timestamp) <= U128_MAX
    requires PendingEmission(Lookup(w.ledger, tx.from), b.timestamp) == 0
    ensures SupplyStep(w, tx, Dispatch(seams, b, w, tx), b.timestamp)
    ensures var r := Dispatch(seams, b, w, tx); r.Ran? ==> WorldOk(r.world)
  {
    hide Dispatch, Supply, StreamsOk, PendingEmission, RegistryOk;
    var r := Dispatch(seams, b, w, tx);
    if MovesValue(tx.kind) {
      ValueKindSupply(seams, b, w, tx);
      ValueKindFrame(seams, b, w, tx);
      if r.Ran? {
        LedgerStepKeepsHumans(w, r.world.ledger);
        assert HumansOk(r.world);
      }
    } else {
      RegistryKindSupply(seams, b, w, tx);
      RegistryKindKeepsHumans(seams, b, w, tx);
    }
  }

  // ---------------------------------------------------------------- a transaction

  /** Changing nonces, clocks and balances of one account without touching its gate. */
  lemma PutKeepsWorld(w: World, a: Address, acct: Account, now: u64)
    requires WorldOk(w) && acct.verified == Lookup(w.ledger, a).verified
      && acct.verifiedAt == Lookup(w.ledger, a).verifiedAt
    requires Worth(acct, now) == Worth(Lookup(w.ledger, a), now)
    ensures WorldOk(w.(ledger := Put(w.ledger, a, acct)))
    ensures Supply(Put(w.ledger, a, acct), now) == Supply(w.ledger, now)
  {
    hide TotalWorth, TotalLocked, RegistryOk, PendingEmission;
    TotalWorthPut(w.ledger, a, acct, now);
    LedgerStepKeepsHumans(w, Put(w.ledger, a, acct));
  }

  lemma SettledNonceWorth(a: Account, n: u64, now: u64)
    requires Worth(a, now) <= U128_MAX
    ensures var s := Settle(a, now).(nonce := n);
      && Worth(s, now) == Worth(a, now) && PendingEmission(s, now) == 0
      && s.verified == a.verified && s.verifiedAt == a.verifiedAt
  {
  }

  /** Settling the sender and writing its nonce. */
  lemma NonceStepKeepsWorld(w: World, a: Address, n: u64, now: u64)
    requires WorldOk(w) && Supply(w.ledger, now) <= U128_MAX
    ensures var acct := Settle(Lookup(w.ledger, a), now).(nonce := n);
      && WorldOk(w.(ledger := Put(w.ledger, a, acct)))
      && Supply(Put(w.ledger, a, acct), now) == Supply(w.ledger, now)
      && PendingEmission(acct, now) == 0
  {
    hide Supply, WorldOk, Settle, PendingEmission, Worth;
    WorthIsCounted(w.ledger, a, now);
    SettledNonceWorth(Lookup(w.ledger, a), n, now);
    PutKeepsWorld(w, a, Settle(Lookup(w.ledger, a), now).(nonce := n), now);
  }

  lemma ChargeKeepsWorld(w: World, from: Address, gas: u64, now: u64)
    requires WorldOk(w) && Supply(w.ledger, now) + (if from == TREASURY then FeeForGas(gas) else 0) <= U128_MAX
    ensures var s := ChargeFee(w.ledger, from, gas, now);
      && WorldOk(w.(ledger := s.ledger))
      && Supply(s.ledger, now)
           == Supply(w.ledger, now) + (if s.result.Ok? && from == TREASURY then FeeForGas(gas) else 0)
      && (s.result.Ok? ==> PendingEmission(Lookup(s.ledger, from), now) == 0)
  {
    hide ChargeFee, Supply, StreamsOk, RegistryOk, PendingEmission;
    ChargeFeeConserves(w.ledger, from, gas, now);
    ChargeFeeFrame(w.ledger, from, gas, now);
    var s := ChargeFee(w.ledger, from, gas, now);
    LedgerStepKeepsHumans(w, s.ledger);
    if s.result.Ok? {
      ChargeFeeSettles(w.ledger, from, gas, now);
      SettleIsInvisible(s.ledger.accounts[from], now);
    }
  }

  /** The world after the fee. */
  function Charged(w: World, tx: KernelTx, now: u64): World {
    w.(ledger := ChargeFee(w.ledger, tx.from, Gas(tx.kind), now).ledger)
  }

  /** The nonce step after the fee; a verdict is given in the world it leaves. */
  function Stepped(w: World, tx: KernelTx, now: u64): Lifecycle.Answer {
    ConsumeNonce(Charged(w, tx, now), tx.from, tx.nonce, now)
  }

  predicate Pays(w: World, tx: KernelTx, now: u64) { ChargeFee(w.ledger, tx.from, Gas(tx.kind), now).result.Ok? }

  /** The emission a transaction destroys. */
  ghost function BurnedBy(w: World, tx: KernelTx, now: u64): nat {
    if tx.kind.SubmitVerdict? && Pays(w, tx, now) && Stepped(w, tx, now).result.Ok?
    then Burned(Stepped(w, tx, now).world, tx.kind, tx.from, now) else 0
  }

  /** The fee a transaction creates: the treasury's own is credited without being debited. */
  function Fee(tx: KernelTx): u128 { if tx.from == TREASURY then FeeForGas(Gas(tx.kind)) else 0 }

  function MintedBy(w: World, tx: KernelTx, now: u64): u128 { if Pays(w, tx, now) then Fee(tx) else 0 }

  /** What one transaction does to the invariants and to the total supply at its instant: it keeps the
      former, and changes the latter by exactly a fee of the treasury's own and the unsettled emission of a
      human that its verdict revokes. */
  lemma TxKeepsWorld(seams: Seams, b: Block, w: World, tx: KernelTx)
    requires WorldOk(w) && Supply(w.ledger, b.timestamp) + Fee(tx) <= U128_MAX
    ensures var r := ApplyTx(seams, b, w, tx); var now := b.timestamp;
      !r.TxPanic? ==>
        && WorldOk(r.world)
        && Supply(r.world.ledger, now) == Supply(w.ledger, now) + MintedBy(w, tx, now) - BurnedBy(w, tx, now)
  {
    hide ChargeFee, Dispatch, Supply, StreamsOk, HumansOk, Settle, PendingEmission, Burned, FeeForGas;
    var now := b.timestamp;
    ChargeKeepsWorld(w, tx.from, Gas(tx.kind), now);
    var charged := ChargeFee(w.ledger, tx.from, Gas(tx.kind), now);
    var w1 := Charged(w, tx, now);
    if charged.result.Ok? {
      ApplyOneKeepsWorld(seams, b, w1, tx);
      var r := ApplyOne(seams, b, w1, tx);
      if r.Ran? && r.result.Err? {
        NonceStepKeepsWorld(r.world, tx.from, Next64(tx.nonce), now);
      }
    }
  }

  lemma ApplyOneKeepsWorld(seams: Seams, b: Block, w: World, tx: KernelTx)
    requires WorldOk(w) && Supply(w.ledger, b.timestamp) <= U128_MAX
    requires PendingEmission(Lookup(w.ledger, tx.from), b.timestamp) == 0
    ensures var r := ApplyOne(seams, b, w, tx); var a := ConsumeNonce(w, tx.from, tx.nonce, b.timestamp);
      r.Ran? ==>
        && WorldOk(r.world)
        && Supply(r.world.ledger, b.timestamp) == Supply(w.ledger, b.timestamp)
             - if tx.kind.SubmitVerdict? && a.result.Ok? then Burned(a.world, tx.kind, tx.from, b.timestamp) else 0
  {
    hide Dispatch, Supply, StreamsOk, HumansOk, Settle, PendingEmission;
    if ConsumesOwnNonce(tx.kind) {
      DispatchKeepsWorld(seams, b, w, tx);
    } else {
      var a := ConsumeNonce(w, tx.from, tx.nonce, b.timestamp);
      if a.result.Ok? {
        NonceStepKeepsWorld(w, tx.from, Next64(tx.nonce), b.timestamp);
        DispatchKeepsWorld(seams, b, a.world, tx);
      }
    }
  }

  // ---------------------------------------------------------------- sweeps

  lemma ScanOneKeepsWorld(seams: Seams, b: Block, w: World, subject: Address)
    requires WorldOk(w)
    ensures WorldOk(ScanOne(seams, b, w, subject)) && ScanOne(seams, b, w, subject).ledger == w.ledger
  {
    hide RegistryOk, EmissionGate;
    ChallengeKeepsHumans(seams, w, HUMANITY_HUB, subject, seams.sybilEvidence(subject, b.hash),
                         seams.entropy(b.hash, b.number), b.number, false);
  }

  lemma {:induction false} ScanKeepsWorld(seams: Seams, b: Block, w: World, subjects: seq<Address>)
    requires WorldOk(w)
    ensures WorldOk(Scan(seams, b, w, subjects)) && Scan(seams, b, w, subjects).ledger == w.ledger
    decreases |subjects|
  {
    hide WorldOk, ScanOne;
    if subjects != [] {
      ScanOneKeepsWorld(seams, b, w, subjects[0]);
      ScanKeepsWorld(seams, b, ScanOne(seams, b, w, subjects[0]), subjects[1..]);
    }
  }

  lemma {:induction false} FinalizeKeepsWorld(b: Block, w: World, subjects: seq<Address>)
    requires WorldOk(w)
    ensures WorldOk(Finalize(b, w, subjects))
    ensures Supply(Finalize(b, w, subjects).ledger, b.timestamp) == Supply(w.ledger, b.timestamp)
    decreases |subjects|
  {
    hide HumansOk, Supply, StreamsOk, Lifecycle.FinalizeRegistration;
    if subjects != [] {
      var w1 := Lifecycle.FinalizeRegistration(w, subjects[0], b.number, b.timestamp).world;
      FinalizeKeepsHumans(w, subjects[0], b.number, b.timestamp);
      FinalizeConserves(w, subjects[0], b.number, b.timestamp);
      FinalizeKeepsWorld(b, w1, subjects[1..]);
    }
  }

  lemma SweepsKeepWorld(seams: Seams, b: Block, w: World)
    requires WorldOk(w)
    ensures WorldOk(RunSweeps(seams, b, w))
    ensures Supply(RunSweeps(seams, b, w).ledger, b.timestamp) == Supply(w.ledger, b.timestamp)
  {
    hide WorldOk, Supply, Scan, Finalize;
    ScanKeepsWorld(seams, b, w, PendingSubjects(w.humanity));
    var w1 := SybilScan(seams, b, w);
    FinalizeKeepsWorld(b, w1, PendingSubjects(w1.humanity));
  }
}
