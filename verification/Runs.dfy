/** Whole runs: any sequence of transactions and sweeps, which covers blocks however they are split. */
module Runs {
  import opened Base
  import opened L = Ledger
  import opened LedgerLaws
  import opened LedgerSupply
  import opened World
  import opened Kernel
  import opened Humans
  import opened Nonces
  import opened KernelSupply
  import opened Escrow
  import Lifecycle

  datatype Event = Tx(block: Block, tx: KernelTx) | Sweep(block: Block)

  function Execute(seams: Seams, w: World, e: Event): Option<World> {
    match e
    case Sweep(b) => Some(RunSweeps(seams, b, w))
    case Tx(b, tx) =>
      match ApplyTx(seams, b, w, tx)
      case TxPanic => None
      case Dropped(w1) => Some(w1)
      case Mined(w1, _) => Some(w1)
  }

  /** The world after all of `events`, or `None` once a panic has ended the process. */
  function Run(seams: Seams, w: World, events: seq<Event>): Option<World>
    decreases |events|
  {
    if events == [] then Some(w)
    else
      var next := Execute(seams, w, events[0]);
      if next.None? then None else Run(seams, next.value, events[1..])
  }

  // ---------------------------------------------------------------- blocks are runs

  function BlockEvents(b: Block, txs: seq<KernelTx>): seq<Event> {
    seq(|txs|, i requires 0 <= i < |txs| => Tx(b, txs[i]))
  }

  lemma {:induction false} RunSplit(seams: Seams, w: World, xs: seq<Event>, ys: seq<Event>)
    ensures Run(seams, w, xs + ys)
         == if Run(seams, w, xs).None? then None else Run(seams, Run(seams, w, xs).value, ys)
    decreases |xs|
  {
    if xs == [] {
      assert xs + ys == ys;
    } else {
      assert (xs + ys)[1..] == xs[1..] + ys && (xs + ys)[0] == xs[0];
      var next := Execute(seams, w, xs[0]);
      if next.Some? { RunSplit(seams, next.value, xs[1..], ys); }
    }
  }

  lemma {:induction false} TxsAreARun(seams: Seams, b: Block, w: World, txs: seq<KernelTx>)
    ensures var r := ApplyTxs(seams, b, w, txs);
      Run(seams, w, BlockEvents(b, txs)) == if r.BlockPanic? then None else Some(r.world)
    decreases |txs|
  {
    hide ApplyTx;
    if txs != [] {
      assert BlockEvents(b, txs)[1..] == BlockEvents(b, txs[1..]);
      match ApplyTx(seams, b, w, txs[0]) {
        case TxPanic =>
        case Dropped(w1) => TxsAreARun(seams, b, w1, txs[1..]);
        case Mined(w1, _) => TxsAreARun(seams, b, w1, txs[1..]);
      }
    }
  }

  /** Executing a block is running its transactions one by one and sweeping once, however the list is cut. */
  lemma BlockIsARun(seams: Seams, b: Block, w: World, txs: seq<KernelTx>, cut: nat)
    requires cut <= |txs|
    ensures var r := ApplyOps(seams, b, w, txs);
      Run(seams, w, BlockEvents(b, txs[..cut]) + BlockEvents(b, txs[cut..]) + [Sweep(b)])
      == if r.BlockPanic? then None else Some(r.world)
  {
    hide RunSweeps;
    TxsAreARun(seams, b, w, txs);
    assert BlockEvents(b, txs) == BlockEvents(b, txs[..cut]) + BlockEvents(b, txs[cut..]);
    RunSplit(seams, w, BlockEvents(b, txs), [Sweep(b)]);
    forall w1 { SweepAlone(seams, b, w1); }
  }

  lemma SweepAlone(seams: Seams, b: Block, w: World)
    ensures Run(seams, w, [Sweep(b)]) == Some(RunSweeps(seams, b, w))
  {
    hide RunSweeps;
    var next := Execute(seams, w, [Sweep(b)][0]);
    assert [Sweep(b)][1..] == [];
  }

  /** The fate of each transaction in turn, until a panic. */
  ghost function Fates(seams: Seams, b: Block, w: World, txs: seq<KernelTx>): seq<TxRan>
    decreases |txs|
  {
    if txs == [] then []
    else
      var r := ApplyTx(seams, b, w, txs[0]);
      [r] + if r.TxPanic? then [] else Fates(seams, b, r.world, txs[1..])
  }

  ghost function MinedOutcomes(fates: seq<TxRan>): seq<OpOutcome> {
    if fates == [] then []
    else (if fates[0].Mined? then [fates[0].outcome] else []) + MinedOutcomes(fates[1..])
  }

  /** The outcomes of a block are, in order, those of the transactions whose fee was charged: one per
      transaction exactly when none was dropped. */
  lemma {:induction false} OutcomesAreTheMinedOnes(seams: Seams, b: Block, w: World, txs: seq<KernelTx>)
    ensures var r := ApplyTxs(seams, b, w, txs); var fates := Fates(seams, b, w, txs);
      r.BlockRan? ==>
        && |fates| == |txs|
        && r.outcomes == MinedOutcomes(fates)
        && |r.outcomes| <= |txs|
        && (|r.outcomes| == |txs| <==> forall i :: 0 <= i < |fates| ==> fates[i].Mined?)
    decreases |txs|
  {
    hide ApplyTx;
    if txs != [] {
      var r := ApplyTx(seams, b, w, txs[0]);
      if !r.TxPanic? {
        OutcomesAreTheMinedOnes(seams, b, r.world, txs[1..]);
        var fates := Fates(seams, b, w, txs);
        assert fates[1..] == Fates(seams, b, r.world, txs[1..]);
        if forall i :: 0 <= i < |fates[1..]| ==> fates[1..][i].Mined? {
          assert r.Mined? ==> forall i :: 0 <= i < |fates| ==> fates[i].Mined?;
        } else {
          var i :| 0 <= i < |fates[1..]| && !fates[1..][i].Mined?;
          assert !fates[i + 1].Mined?;
        }
      }
    }
  }

  // ---------------------------------------------------------------- nonces and replay

  ghost predicate Commits(seams: Seams, w: World, e: Event) {
    e.Tx? && var r := ApplyTx(seams, e.block, w, e.tx); r.Mined? && r.outcome.success
  }

  /** A caller can check this before submitting: the sender is no escrow, and the number after the transaction's nonce
      is not below the stored one, unless it will be dropped for its fee anyway. */
  ghost predicate NonceSafe(w: World, e: Event) {
    e.Tx? ==>
      || LiveBalance(w.ledger, e.tx.from, e.block.timestamp) < FeeForGas(Gas(e.tx.kind))
      || (!IsEscrow(e.tx.from) && Lookup(w.ledger, e.tx.from).nonce <= Next64(e.tx.nonce))
  }

  ghost predicate RunIsNonceSafe(seams: Seams, w: World, events: seq<Event>)
    decreases |events|
  {
    events != [] ==>
      && NonceSafe(w, events[0])
      && (Execute(seams, w, events[0]).Some? ==> RunIsNonceSafe(seams, Execute(seams, w, events[0]).value, events[1..]))
  }

  lemma {:induction false} FinalizeNonces(b: Block, w: World, subjects: seq<Address>)
    ensures SameNonces(w.ledger, Finalize(b, w, subjects).ledger)
    decreases |subjects|
  {
    hide Lifecycle.FinalizeObstacle;
    if subjects != [] {
      var w1 := Lifecycle.FinalizeRegistration(w, subjects[0], b.number, b.timestamp).world;
      assert SameNonces(w.ledger, w1.ledger);
      FinalizeNonces(b, w1, subjects[1..]);
    }
  }

  lemma {:induction false} ScanLedger(seams: Seams, b: Block, w: World, subjects: seq<Address>)
    ensures Scan(seams, b, w, subjects).ledger == w.ledger
    decreases |subjects|
  {
    if subjects != [] {
      ScanLedger(seams, b, ScanOne(seams, b, w, subjects[0]), subjects[1..]);
    }
  }

  lemma SweepNonces(seams: Seams, b: Block, w: World)
    ensures SameNonces(w.ledger, RunSweeps(seams, b, w).ledger)
  {
    hide Scan, Finalize;
    ScanLedger(seams, b, w, PendingSubjects(w.humanity));
    var w1 := SybilScan(seams, b, w);
    FinalizeNonces(b, w1, PendingSubjects(w1.humanity));
  }

  lemma EventNonces(seams: Seams, w: World, e: Event)
    requires NonceSafe(w, e) && Execute(seams, w, e).Some?
    ensures NoncesRise(w.ledger, Execute(seams, w, e).value.ledger)
    ensures Commits(seams, w, e) ==>
      && !IsEscrow(e.tx.from)
      && Lookup(w.ledger, e.tx.from).nonce == e.tx.nonce < Lookup(Execute(seams, w, e).value.ledger, e.tx.from).nonce
  {
    hide ApplyOne, RunSweeps, LiveBalance, ChargeFee;
    match e
    case Sweep(b) => SweepNonces(seams, b, w);
    case Tx(b, tx) =>
      TxNonces(seams, b, w, tx);
      ChargeFeeDecision(w.ledger, tx.from, Gas(tx.kind), b.timestamp, tx.from);
  }

  /** The world event `i` starts from. */
  ghost function Before(seams: Seams, w: World, events: seq<Event>, i: nat): World
    requires i <= |events| && Run(seams, w, events).Some?
    decreases |events|
  {
    if i == 0 then w else Before(seams, Execute(seams, w, events[0]).value, events[1..], i - 1)
  }

  /** What a submit gate ensures without executing anything: each sender's nonces strictly increase and start at
      or above its stored nonce, none is the last 64-bit number, and no escrow address signs. */
  ghost predicate NoncesIncrease(l: L.Ledger, events: seq<Event>) {
    && (forall i :: 0 <= i < |events| && events[i].Tx? ==>
          !IsEscrow(events[i].tx.from) && Lookup(l, events[i].tx.from).nonce <= events[i].tx.nonce < U64_MAX)
    && (forall i, j ::
          (0 <= i < j < |events| && events[i].Tx? && events[j].Tx? && events[i].tx.from == events[j].tx.from) ==>
            events[i].tx.nonce < events[j].tx.nonce)
  }

  lemma ExecuteKeepsIncreasing(seams: Seams, w: World, events: seq<Event>)
    requires events != [] && NoncesIncrease(w.ledger, events) && Execute(seams, w, events[0]).Some?
    ensures NoncesIncrease(Execute(seams, w, events[0]).value.ledger, events[1..])
  {
    hide ApplyTx, RunSweeps, IsEscrow;
    match events[0]
    case Sweep(b) => SweepNonces(seams, b, w);
    case Tx(b, tx) => TxNoncesAreExact(seams, b, w, tx);
  }

  /** Such a sequence is safe whatever is dropped, fails or succeeds along it. */
  lemma {:induction false} IncreasingIsNonceSafe(seams: Seams, w: World, events: seq<Event>)
    requires NoncesIncrease(w.ledger, events)
    ensures RunIsNonceSafe(seams, w, events)
    decreases |events|
  {
    hide Execute;
    if events != [] && Execute(seams, w, events[0]).Some? {
      ExecuteKeepsIncreasing(seams, w, events);
      IncreasingIsNonceSafe(seams, Execute(seams, w, events[0]).value, events[1..]);
    }
  }

  /** Stored nonces never go down along a run, and an event that commits from `sender` at `nonce` leaves
      the stored nonce past it for good. */
  lemma {:induction false} NoncesNeverFall(seams: Seams, w: World, events: seq<Event>, i: nat)
    requires i <= |events| && Run(seams, w, events).Some? && RunIsNonceSafe(seams, w, events)
    ensures NoncesRise(w.ledger, Before(seams, w, events, i).ledger)
    decreases |events|
  {
    hide Execute, NonceSafe;
    if i > 0 {
      EventNonces(seams, w, events[0]);
      NoncesNeverFall(seams, Execute(seams, w, events[0]).value, events[1..], i - 1);
    }
  }

  /** No (sender, nonce) pair commits twice, whatever mix of dropped, failed, repeated and successful
      transactions and sweeps the run holds. */
  lemma {:induction false} NoReplay(seams: Seams, w: World, events: seq<Event>, i: nat, j: nat)
    requires i < j < |events| && Run(seams, w, events).Some? && RunIsNonceSafe(seams, w, events)
    requires Commits(seams, Before(seams, w, events, i), events[i])
    requires Commits(seams, Before(seams, w, events, j), events[j])
    ensures (events[i].tx.from, events[i].tx.nonce) != (events[j].tx.from, events[j].tx.nonce)
    decreases |events|
  {
    hide Execute, NonceSafe, Commits;
    var next := Execute(seams, w, events[0]).value;
    if i > 0 {
      NoReplay(seams, next, events[1..], i - 1, j - 1);
    } else {
      EventNonces(seams, w, events[0]);
      NoncesNeverFall(seams, next, events[1..], j - 1);
      CommitStartsAtNonce(seams, Before(seams, w, events, j), events[j]);
      CommitStartsAtNonce(seams, w, events[0]);
    }
  }

  lemma CommitStartsAtNonce(seams: Seams, w: World, e: Event)
    requires Commits(seams, w, e)
    ensures e.Tx? && Lookup(w.ledger, e.tx.from).nonce == e.tx.nonce
  {
    hide ApplyTx;
    TxNonces(seams, e.block, w, e.tx);
  }

  // ---------------------------------------------------------------- supply

  ghost function Emitters(m: map<Address, Account>): set<Address> { set a | a in m && m[a].verified }

  /** At most what `emitters` verified accounts emit in `gap` seconds, each rounded up. */
  ghost function EmissionCap(emitters: nat, gap: nat): nat { emitters * (UBI * gap / EMISSION_PERIOD_SECS + 1) }

  lemma AccountGrowth(a: Account, t: u64, now: u64)
    requires t <= now
    ensures Worth(a, t) <= Worth(a, now)
      <= Worth(a, t) + if a.verified then UBI * (now - t) / EMISSION_PERIOD_SECS + 1 else 0
  {
  }

  lemma {:induction false} WorthGrowth(m: map<Address, Account>, t: u64, now: u64)
    requires t <= now
    ensures TotalWorth(m, t) <= TotalWorth(m, now)
         <= TotalWorth(m, t) + EmissionCap(|Emitters(m)|, now - t)
    decreases |m|
  {
    if m != map[] {
      hide Worth, PendingEmission, EmissionCap;
      var p := Pick(m);
      var rest := m - {p};
      WorthGrowth(rest, t, now);
      AccountGrowth(m[p], t, now);
      EmittersSplit(m, p);
      CapGrows(|Emitters(rest)|, now - t);
    }
  }

  lemma EmittersSplit(m: map<Address, Account>, p: Address)
    requires p in m
    ensures |Emitters(m)| == |Emitters(m - {p})| + if m[p].verified then 1 else 0
  {
    assert Emitters(m) == Emitters(m - {p}) + if m[p].verified then {p} else {};
  }

  lemma CapGrows(emitters: nat, gap: nat)
    ensures EmissionCap(emitters + 1, gap) == EmissionCap(emitters, gap) + UBI * gap / EMISSION_PERIOD_SECS + 1
  {
  }

  /** Between two instants the supply of a ledger grows only by emission. */
  lemma SupplyGrowth(l: L.Ledger, t: u64, now: u64)
    requires t <= now
    ensures Supply(l, t) <= Supply(l, now) <= Supply(l, t) + EmissionCap(|Emitters(l.accounts)|, now - t)
  {
    WorthGrowth(l.accounts, t, now);
  }

  /** What the accounts of a ledger accrue from `t` to `now`, each rounded as it is reported. */
  ghost function Accrual(m: map<Address, Account>, t: u64, now: u64): int
    decreases |m|
  {
    if m == map[] then 0
    else
      var a := m[Pick(m)];
      PendingEmission(a, now) - PendingEmission(a, t) + Accrual(m - {Pick(m)}, t, now)
  }

  lemma {:induction false} WorthAccrues(m: map<Address, Account>, t: u64, now: u64)
    ensures TotalWorth(m, now) == TotalWorth(m, t) + Accrual(m, t, now)
    decreases |m|
  {
    hide PendingEmission;
    if m != map[] { WorthAccrues(m - {Pick(m)}, t, now); }
  }

  /** Timestamps do not go back. */
  predicate InOrder(events: seq<Event>, t: u64)
    decreases |events|
  {
    events != [] ==> t <= events[0].block.timestamp && InOrder(events[1..], events[0].block.timestamp)
  }

  function LastTime(events: seq<Event>, t: u64): u64 {
    if events == [] then t else events[|events| - 1].block.timestamp
  }

  function FeeOf(e: Event): u128 { if e.Tx? then Fee(e.tx) else 0 }

  /** At most what a run can have issued: verified accounts times elapsed time, gap by gap, and fees that the
      treasury owes itself. */
  ghost function Issued(seams: Seams, w: World, events: seq<Event>, t: u64): nat
    requires InOrder(events, t)
    decreases |events|
  {
    if events == [] then 0
    else
      var now := events[0].block.timestamp;
      var next := Execute(seams, w, events[0]);
      EmissionCap(|Emitters(w.ledger.accounts)|, now - t) + FeeOf(events[0])
        + if next.None? then 0 else Issued(seams, next.value, events[1..], now)
  }

  /** The emission that reached the accounts along a run. */
  ghost function Emitted(seams: Seams, w: World, events: seq<Event>, t: u64): int
    decreases |events|
  {
    if events == [] then 0
    else
      var now := events[0].block.timestamp;
      var next := Execute(seams, w, events[0]);
      Accrual(w.ledger.accounts, t, now) + if next.None? then 0 else Emitted(seams, next.value, events[1..], now)
  }

  ghost function EventBurns(w: World, e: Event): nat { if e.Tx? then BurnedBy(w, e.tx, e.block.timestamp) else 0 }

  ghost function EventMints(w: World, e: Event): nat { if e.Tx? then MintedBy(w, e.tx, e.block.timestamp) else 0 }

  /** The emission that revocations destroyed along a run. */
  ghost function AllBurned(seams: Seams, w: World, events: seq<Event>): nat
    decreases |events|
  {
    if events == [] then 0
    else
      var next := Execute(seams, w, events[0]);
      EventBurns(w, events[0]) + if next.None? then 0 else AllBurned(seams, next.value, events[1..])
  }

  /** The fees the treasury was credited without being debited. */
  ghost function AllMinted(seams: Seams, w: World, events: seq<Event>): nat
    decreases |events|
  {
    if events == [] then 0
    else
      var next := Execute(seams, w, events[0]);
      EventMints(w, events[0]) + if next.None? then 0 else AllMinted(seams, next.value, events[1..])
  }

  lemma EventKeepsWorld(seams: Seams, w: World, e: Event)
    requires WorldOk(w) && Supply(w.ledger, e.block.timestamp) + FeeOf(e) <= U128_MAX
    ensures var r := Execute(seams, w, e); var now := e.block.timestamp;
      r.Some? ==>
        && WorldOk(r.value)
        && Supply(r.value.ledger, now) == Supply(w.ledger, now) + EventMints(w, e) - EventBurns(w, e)
    ensures EventMints(w, e) <= FeeOf(e)
  {
    hide ApplyTx, RunSweeps, WorldOk, Supply, MintedBy, BurnedBy, Fee;
    match e
    case Sweep(b) => SweepsKeepWorld(seams, b, w);
    case Tx(b, tx) =>
      TxKeepsWorld(seams, b, w, tx);
      MintsAFee(w, tx, b.timestamp);
  }

  lemma MintsAFee(w: World, tx: KernelTx, now: u64)
    ensures MintedBy(w, tx, now) <= Fee(tx)
  {
  }

  /** Along any run the invariants hold and the supply is accounted for to the base unit: what the accounts
      accrued and the treasury credited itself, less what revocations destroyed. Fees, transfers, streams,
      escrows and contract effects only move what is there. */
  lemma {:induction false} SupplyOverARun(seams: Seams, w: World, events: seq<Event>, t: u64)
    requires WorldOk(w) && InOrder(events, t) && Run(seams, w, events).Some?
    requires Supply(w.ledger, t) + Issued(seams, w, events, t) <= U128_MAX
    ensures var r := Run(seams, w, events).value;
      && WorldOk(r)
      && Supply(r.ledger, LastTime(events, t)) == Supply(w.ledger, t) + Emitted(seams, w, events, t)
           + AllMinted(seams, w, events) - AllBurned(seams, w, events)
      && Supply(r.ledger, LastTime(events, t)) <= Supply(w.ledger, t) + Issued(seams, w, events, t)
    decreases |events|
  {
    hide WorldOk, Supply, Execute, EmissionCap, Accrual, EventBurns, EventMints, FeeOf;
    if events != [] {
      var now := events[0].block.timestamp;
      SupplyGrowth(w.ledger, t, now);
      SupplyAccrues(w.ledger, t, now);
      EventKeepsWorld(seams, w, events[0]);
      var next := Execute(seams, w, events[0]).value;
      SupplyOverARun(seams, next, events[1..], now);
      assert LastTime(events, t) == LastTime(events[1..], now);
    }
  }

  lemma SupplyAccrues(l: L.Ledger, t: u64, now: u64)
    ensures Supply(l, now) == Supply(l, t) + Accrual(l.accounts, t, now)
  {
    WorthAccrues(l.accounts, t, now);
  }

  // ---------------------------------------------------------------- the registry

  lemma DispatchKeepsHumans(seams: Seams, b: Block, w: World, tx: KernelTx)
    requires HumansOk(w)
    ensures var r := Dispatch(seams, b, w, tx); r.Ran? ==> HumansOk(r.world)
  {
    hide Dispatch, RegistryOk;
    if MovesValue(tx.kind) {
      var r := Dispatch(seams, b, w, tx);
      ValueKindFrame(seams, b, w, tx);
      if r.Ran? {
        LedgerStepKeepsHumans(w, r.world.ledger);
        assert HumansOk(r.world);
      }
    } else {
      RegistryKindKeepsHumans(seams, b, w, tx);
    }
  }

  lemma PutKeepsHumans(w: World, a: Address, n: u64, now: u64)
    requires HumansOk(w)
    ensures HumansOk(w.(ledger := Put(w.ledger, a, Settle(Lookup(w.ledger, a), now).(nonce := n))))
  {
    hide RegistryOk;
    LedgerStepKeepsHumans(w, Put(w.ledger, a, Settle(Lookup(w.ledger, a), now).(nonce := n)));
  }

  lemma TxKeepsHumans(seams: Seams, b: Block, w: World, tx: KernelTx)
    requires HumansOk(w)
    ensures var r := ApplyTx(seams, b, w, tx); !r.TxPanic? ==> HumansOk(r.world)
  {
    hide ChargeFee, Dispatch, HumansOk, Settle;
    var w1 := Charged(w, tx, b.timestamp);
    ChargeFeeFrame(w.ledger, tx.from, Gas(tx.kind), b.timestamp);
    LedgerStepKeepsHumans(w, w1.ledger);
    PutKeepsHumans(w1, tx.from, Next64(tx.nonce), b.timestamp);
    DispatchKeepsHumans(seams, b, w1, tx);
    DispatchKeepsHumans(seams, b, Stepped(w, tx, b.timestamp).world, tx);
    var r := ApplyOne(seams, b, w1, tx);
    if r.Ran? { PutKeepsHumans(r.world, tx.from, Next64(tx.nonce), b.timestamp); }
  }

  lemma {:induction false} ScanKeepsHumans(seams: Seams, b: Block, w: World, subjects: seq<Address>)
    requires HumansOk(w)
    ensures HumansOk(Scan(seams, b, w, subjects))
    decreases |subjects|
  {
    hide HumansOk, Lifecycle.OpenChallenge;
    if subjects != [] {
      ChallengeKeepsHumans(seams, w, HUMANITY_HUB, subjects[0], seams.sybilEvidence(subjects[0], b.hash),
                           seams.entropy(b.hash, b.number), b.number, false);
      ScanKeepsHumans(seams, b, ScanOne(seams, b, w, subjects[0]), subjects[1..]);
    }
  }

  lemma {:induction false} FinalizeKeepsRegistry(b: Block, w: World, subjects: seq<Address>)
    requires HumansOk(w)
    ensures HumansOk(Finalize(b, w, subjects))
    decreases |subjects|
  {
    hide HumansOk, Lifecycle.FinalizeRegistration;
    if subjects != [] {
      FinalizeKeepsHumans(w, subjects[0], b.number, b.timestamp);
      var w1 := Lifecycle.FinalizeRegistration(w, subjects[0], b.number, b.timestamp).world;
      FinalizeKeepsRegistry(b, w1, subjects[1..]);
    }
  }

  lemma EventKeepsHumans(seams: Seams, w: World, e: Event)
    requires HumansOk(w) && Execute(seams, w, e).Some?
    ensures HumansOk(Execute(seams, w, e).value)
  {
    hide HumansOk, ApplyTx, Scan, Finalize;
    match e
    case Tx(b, tx) => TxKeepsHumans(seams, b, w, tx);
    case Sweep(b) =>
      ScanKeepsHumans(seams, b, w, PendingSubjects(w.humanity));
      var w1 := SybilScan(seams, b, w);
      FinalizeKeepsRegistry(b, w1, PendingSubjects(w1.humanity));
  }

  /** Along any run, whatever the supply, only verified and challenged humans emit, edges and open cases are live,
      nobody has two open challenges and nobody is challenged without one. */
  lemma {:induction false} HumansOverARun(seams: Seams, w: World, events: seq<Event>)
    requires HumansOk(w) && Run(seams, w, events).Some?
    ensures HumansOk(Run(seams, w, events).value)
    decreases |events|
  {
    hide HumansOk, Execute;
    if events != [] {
      EventKeepsHumans(seams, w, events[0]);
      HumansOverARun(seams, Execute(seams, w, events[0]).value, events[1..]);
    }
  }

  // ---------------------------------------------------------------- escrows

  lemma {:induction false} FinalizeKeepsBacked(b: Block, w: World, subjects: seq<Address>)
    requires EscrowBacked(w)
    ensures EscrowBacked(Finalize(b, w, subjects))
    decreases |subjects|
  {
    if subjects != [] {
      hide Lifecycle.FinalizeObstacle;
      var w1 := Lifecycle.FinalizeRegistration(w, subjects[0], b.number, b.timestamp).world;
      assert forall a: Address :: Lookup(w1.ledger, a).settled == Lookup(w.ledger, a).settled;
      FinalizeKeepsBacked(b, w1, subjects[1..]);
    }
  }

  lemma {:induction false} ScanContracts(seams: Seams, b: Block, w: World, subjects: seq<Address>)
    ensures var r := Scan(seams, b, w, subjects);
      r.contracts == w.contracts && r.ledger == w.ledger && r.passports == w.passports
    decreases |subjects|
  {
    if subjects != [] { ScanContracts(seams, b, ScanOne(seams, b, w, subjects[0]), subjects[1..]); }
  }

  lemma EventKeepsBacked(seams: Seams, w: World, e: Event)
    requires EscrowBacked(w) && Execute(seams, w, e).Some? && (e.Tx? ==> !IsEscrow(e.tx.from))
    ensures EscrowBacked(Execute(seams, w, e).value)
  {
    hide EscrowBacked, IsEscrow, ApplyTx, Scan, Finalize;
    match e
    case Tx(b, tx) => TxKeepsBacked(seams, b, w, tx);
    case Sweep(b) =>
      ScanContracts(seams, b, w, PendingSubjects(w.humanity));
      var w1 := SybilScan(seams, b, w);
      assert EscrowBacked(w1) by { SameMoneySameBacking(w, w1); }
      FinalizeKeepsBacked(b, w1, PendingSubjects(w1.humanity));
  }

  ghost predicate NoEscrowSigns(events: seq<Event>) {
    forall i :: 0 <= i < |events| && events[i].Tx? ==> !IsEscrow(events[i].tx.from)
  }

  /** Along any run whose transactions are not signed by escrow addresses, every escrow stays backed. */
  lemma {:induction false} BackedOverARun(seams: Seams, w: World, events: seq<Event>)
    requires EscrowBacked(w) && Run(seams, w, events).Some? && NoEscrowSigns(events)
    ensures EscrowBacked(Run(seams, w, events).value)
    decreases |events|
  {
    hide EscrowBacked, IsEscrow, Execute;
    if events != [] {
      EventKeepsBacked(seams, w, events[0]);
      BackedOverARun(seams, Execute(seams, w, events[0]).value, events[1..]);
    }
  }

  lemma SameMoneySameBacking(w: World, r: World)
    requires EscrowBacked(w) && r.ledger == w.ledger && r.contracts == w.contracts
    ensures EscrowBacked(r)
  {
  }

  // ---------------------------------------------------------------- one passport, one human

  lemma DispatchNullifiers(seams: Seams, b: Block, w: World, tx: KernelTx)
    ensures var r := Dispatch(seams, b, w, tx);
      r.Ran? ==>
        && w.passports.nullifiers <= r.world.passports.nullifiers
        && (tx.kind.SubmitZkPassportProof? && r.result.Ok? ==>
              && tx.kind.submission.nullifier !in w.passports.nullifiers
              && IsCanonicalScalar(tx.kind.submission.nullifier)
              && tx.kind.submission.nullifier in r.world.passports.nullifiers)
  {
    if MovesValue(tx.kind) {
      hide Dispatch;
      ValueKindFrame(seams, b, w, tx);
    } else {
      RegistryNullifiers(seams, b, w, tx);
    }
  }

  lemma RegistryNullifiers(seams: Seams, b: Block, w: World, tx: KernelTx)
    requires !MovesValue(tx.kind)
    ensures var r := Dispatch(seams, b, w, tx);
      && r.Ran? && w.passports.nullifiers <= r.world.passports.nullifiers
      && (tx.kind.SubmitZkPassportProof? && r.result.Ok? ==>
            && tx.kind.submission.nullifier !in w.passports.nullifiers
            && IsCanonicalScalar(tx.kind.submission.nullifier)
            && tx.kind.submission.nullifier in r.world.passports.nullifiers)
  {
    match tx.kind
    case SubmitVerdict(caseId, verdict) => VerdictPassports(w, caseId, tx.from, verdict);
    case _ =>
  }

  lemma VerdictPassports(w: World, caseId: nat, juror: Address, verdict: CanonicalVerdict)
    ensures Lifecycle.SubmitVerdict(w, caseId, juror, verdict).world.passports == w.passports
  {
    hide Lifecycle.StatusAfter;
  }

  lemma {:induction false} FinalizePassports(b: Block, w: World, subjects: seq<Address>)
    ensures Finalize(b, w, subjects).passports == w.passports
    decreases |subjects|
  {
    if subjects != [] {
      FinalizePassports(b, Lifecycle.FinalizeRegistration(w, subjects[0], b.number, b.timestamp).world, subjects[1..]);
    }
  }

  lemma EventNullifiers(seams: Seams, w: World, e: Event)
    requires Execute(seams, w, e).Some?
    ensures var r := Execute(seams, w, e).value;
      && w.passports.nullifiers <= r.passports.nullifiers
      && (Commits(seams, w, e) && e.tx.kind.SubmitZkPassportProof? ==>
            && e.tx.kind.submission.nullifier !in w.passports.nullifiers
            && IsCanonicalScalar(e.tx.kind.submission.nullifier)
            && e.tx.kind.submission.nullifier in r.passports.nullifiers)
  {
    hide Dispatch, ChargeFee, Settle, Scan, Finalize;
    match e
    case Sweep(b) =>
      ScanContracts(seams, b, w, PendingSubjects(w.humanity));
      var w1 := SybilScan(seams, b, w);
      FinalizePassports(b, w1, PendingSubjects(w1.humanity));
    case Tx(b, tx) =>
      var w1 := w.(ledger := ChargeFee(w.ledger, tx.from, Gas(tx.kind), b.timestamp).ledger);
      DispatchNullifiers(seams, b, w1, tx);
      DispatchNullifiers(seams, b, ConsumeNonce(w1, tx.from, tx.nonce, b.timestamp).world, tx);
  }

  lemma {:induction false} NullifiersGrow(seams: Seams, w: World, events: seq<Event>, i: nat)
    requires i <= |events| && Run(seams, w, events).Some?
    ensures w.passports.nullifiers <= Before(seams, w, events, i).passports.nullifiers
    decreases |events|
  {
    hide Execute;
    if i > 0 {
      EventNullifiers(seams, w, events[0]);
      NullifiersGrow(seams, Execute(seams, w, events[0]).value, events[1..], i - 1);
    }
  }

  /** A passport nullifier is spent once: no two committed passport proofs of a run carry nullifiers that are one
      field element, whoever submits them. */
  lemma {:induction false} OnePassportOneHuman(seams: Seams, w: World, events: seq<Event>, i: nat, j: nat)
    requires i < j < |events| && Run(seams, w, events).Some?
    requires Commits(seams, Before(seams, w, events, i), events[i]) && events[i].tx.kind.SubmitZkPassportProof?
    requires Commits(seams, Before(seams, w, events, j), events[j]) && events[j].tx.kind.SubmitZkPassportProof?
    ensures var n, m := events[i].tx.kind.submission.nullifier, events[j].tx.kind.submission.nullifier;
      n % BN254_FR_MODULUS != m % BN254_FR_MODULUS
    decreases |events|
  {
    hide Execute, ApplyTx;
    var next := Execute(seams, w, events[0]).value;
    if i > 0 {
      OnePassportOneHuman(seams, next, events[1..], i - 1, j - 1);
    } else {
      EventNullifiers(seams, w, events[0]);
      NullifiersGrow(seams, next, events[1..], j - 1);
      SpentIsRefused(seams, w, events[0]);
      SpentIsRefused(seams, Before(seams, w, events, j), events[j]);
      CanonicalIsReduced(events[i].tx.kind.submission.nullifier);
      CanonicalIsReduced(events[j].tx.kind.submission.nullifier);
    }
  }

  lemma CanonicalIsReduced(n: Hash)
    requires IsCanonicalScalar(n)
    ensures n % BN254_FR_MODULUS == n
  {
  }

  lemma SpentIsRefused(seams: Seams, w: World, e: Event)
    requires Commits(seams, w, e) && e.tx.kind.SubmitZkPassportProof?
    ensures var n := e.tx.kind.submission.nullifier; n !in w.passports.nullifiers && IsCanonicalScalar(n)
  {
    hide ApplyTx;
    assert Execute(seams, w, e).Some?;
    EventNullifiers(seams, w, e);
  }
}
