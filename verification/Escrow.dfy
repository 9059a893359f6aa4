/** Escrows stay backed by their accounts, and when a validated effect can be applied. */
module Escrow {
  import opened Base
  import opened L = Ledger
  import opened LedgerLaws
  import opened LedgerSupply
  import opened World
  import opened Kernel
  import opened P = PromptContracts
  import Effects
  import Lifecycle
  import Nonces

  /** Every escrow record is covered by the settled balance of its account. */
  ghost predicate EscrowBacked(w: World) {
    forall id: u64 :: id < |w.contracts.contracts| ==>
      w.contracts.contracts[id].escrow <= Lookup(w.ledger, ContractAddress(id)).settled
  }

  // ---------------------------------------------------------------- settled balances

  /** Nobody but `a` lost settled balance. */
  ghost predicate OnlySpends(l: L.Ledger, r: L.Ledger, a: Address) {
    forall x: Address :: x != a ==> Lookup(l, x).settled <= Lookup(r, x).settled
  }

  lemma SettleNeverLowers(a: Account, now: u64)
    ensures a.settled <= Settle(a, now).settled
  {
  }

  lemma SettleStreamRaises(l: L.Ledger, id: nat, now: u64, x: Address)
    requires id < |l.streams|
    ensures Lookup(l, x).settled <= Lookup(SettleStream(l, id, now), x).settled
  {
    SettleNeverLowers(Lookup(l, l.streams[id].to), now);
  }

  lemma {:induction false} SettleIncomingRaises(l: L.Ledger, a: Address, now: u64, id: nat, x: Address)
    requires id <= |l.streams|
    ensures Lookup(l, x).settled <= Lookup(SettleIncomingFrom(l, a, now, id), x).settled
    decreases |l.streams| - id
  {
    hide SettleStream;
    if id < |l.streams| {
      if l.streams[id].to == a {
        assert |SettleStream(l, id, now).streams| == |l.streams| by { SettleStreamPays(l, id, now); }
        SettleStreamRaises(l, id, now, x);
        SettleIncomingRaises(SettleStream(l, id, now), a, now, id + 1, x);
      } else {
        SettleIncomingRaises(l, a, now, id + 1, x);
      }
    }
  }

  lemma ChargeSpends(l: L.Ledger, from: Address, gas: u64, now: u64)
    ensures OnlySpends(l, ChargeFee(l, from, gas, now).ledger, from)
  {
    hide SettleIncomingFrom, PendingEmission;
    var l1 := SettleIncoming(l, from, now);
    forall x: Address ensures Lookup(l, x).settled <= Lookup(l1, x).settled
    { SettleIncomingRaises(l, from, now, 0, x); }
    SettleNeverLowers(Lookup(l1, TREASURY), now);
  }

  lemma TransferSpends(l: L.Ledger, from: Address, to: Address, value: u128, nonce: u64, now: u64)
    ensures var s := ApplyTransfer(l, from, to, value, nonce, now);
      && OnlySpends(l, s.ledger, from)
      && Lookup(s.ledger, from).settled + (if s.result.Ok? then value else 0) >= Lookup(l, from).settled
      && (s.result.Ok? && from != to ==>
            Lookup(s.ledger, to).settled >= SatAdd(Lookup(l, to).settled, value))
  {
    hide SettleIncomingFrom, PendingEmission;
    var l1 := SettleIncoming(l, from, now);
    forall x: Address ensures Lookup(l, x).settled <= Lookup(l1, x).settled
    { SettleIncomingRaises(l, from, now, 0, x); }
    SettleNeverLowers(Lookup(l1, from), now);
    SettleNeverLowers(Lookup(l1, to), now);
  }

  lemma OpenSpends(l: L.Ledger, from: Address, to: Address, rate: u128, deposit: u128, now: u64)
    ensures var s := L.OpenStream(l, from, to, rate, deposit, now);
      && OnlySpends(l, s.ledger, from)
      && Lookup(s.ledger, from).settled + (if s.result.Ok? then deposit else 0) >= Lookup(l, from).settled
  {
    hide PendingEmission;
    SettleNeverLowers(Lookup(l, from), now);
  }

  lemma StopRaises(l: L.Ledger, id: nat, caller: Address, now: u64, x: Address)
    ensures var s := L.StopStream(l, id, caller, now);
      && Lookup(l, x).settled <= Lookup(s.ledger, x).settled
      && (s.result.Ok? && x == caller ==> SatAdd(Lookup(l, x).settled, s.result.value) <= Lookup(s.ledger, x).settled)
  {
    if L.StopStream(l, id, caller, now).result.Ok? {
      hide PendingEmission, Accrued;
      var l1 := SettleStream(l, id, now);
      SettleStreamRaises(l, id, now, x);
      SettleNeverLowers(Lookup(l1, caller), now);
    }
  }

  // ---------------------------------------------------------------- running an effect

  /** What an op takes out of escrow. */
  function OpDraws(op: Effects.Op): nat {
    match op
    case Transfer(_, amount) => amount
    case Refund(_, amount) => amount
    case OpenStream(_, _, deposit) => deposit
    case _ => 0
  }

  function Draws(ops: seq<Effects.Op>): nat { if ops == [] then 0 else OpDraws(ops[0]) + Draws(ops[1..]) }

  /** An effect that passed validation but for the solvency sum. */
  predicate Checked(owned: set<nat>, op: Effects.Op) {
    match op
    case OpenStream(_, rate, deposit) => 0 < rate <= MAX_RATE && deposit > 0
    case StopStream(id) => id in owned
    case Abort(_) => false
    case _ => true
  }

  predicate AllChecked(owned: set<nat>, ops: seq<Effects.Op>) { forall i :: 0 <= i < |ops| ==> Checked(owned, ops[i]) }

  lemma {:induction false} ValidMeansSolvent(c: Contract, owned: set<nat>, ops: seq<Effects.Op>, draw: u128)
    requires P.Validate(c, owned, ops, draw).Ok? && c.escrow < U128_MAX
    ensures AllChecked(owned, ops) && draw + Draws(ops) <= c.escrow
  {
    if ops != [] {
      match ops[0] {
        case Transfer(_, amount) => ValidMeansSolvent(c, owned, ops[1..], SatAdd(draw, amount));
        case Refund(_, amount) => ValidMeansSolvent(c, owned, ops[1..], SatAdd(draw, amount));
        case OpenStream(_, _, deposit) => ValidMeansSolvent(c, owned, ops[1..], SatAdd(draw, deposit));
        case StopStream(_) => ValidMeansSolvent(c, owned, ops[1..], draw);
        case SetVar(_, _) => ValidMeansSolvent(c, owned, ops[1..], draw);
        case Abort(_) =>
      }
      assert ops == [ops[0]] + ops[1..];
      forall i | 0 <= i < |ops| ensures Checked(owned, ops[i]) { if i > 0 { assert ops[i] == ops[1..][i - 1]; } }
    }
  }

  /** Whether an op is one the contract may ask for: refunds go to its parties only, streams flow at a rate within
      bounds, and only streams of the escrow are stopped. */
  predicate Allowed(c: Contract, l: L.Ledger, escrow: Address, op: Effects.Op) {
    match op
    case Refund(party, _) => party in c.parties
    case OpenStream(_, rate, deposit) => 0 < rate <= 277_777_777_777_777_777 && deposit > 0
    case StopStream(id) => id < |l.streams| && l.streams[id].from == escrow
    case Abort(_) => false
    case _ => true
  }

  lemma {:induction false} ValidateMeaning(c: Contract, l: L.Ledger, escrow: Address, ops: seq<Effects.Op>, draw: u128)
    ensures P.Validate(c, P.OwnedStreams(l, escrow), ops, draw).Ok? <==>
      && (forall i :: 0 <= i < |ops| ==> Allowed(c, l, escrow, ops[i]))
      && Min(draw + Draws(ops), U128_MAX) <= c.escrow
  {
    if ops != [] {
      var next := Min(draw + OpDraws(ops[0]), U128_MAX);
      ValidateMeaning(c, l, escrow, ops[1..], next);
      assert forall i :: 0 < i < |ops| ==> ops[i] == ops[1..][i - 1];
      assert (forall i :: 0 <= i < |ops| ==> Allowed(c, l, escrow, ops[i])) <==>
        Allowed(c, l, escrow, ops[0]) && forall i :: 0 <= i < |ops[1..]| ==> Allowed(c, l, escrow, ops[1..][i]);
    }
  }

  /** Validation passes if and only if every op is allowed and what they draw in all, cut at the largest amount, is in
      escrow. */
  lemma ValidatesExactlyWhen(c: Contract, l: L.Ledger, escrow: Address, ops: seq<Effects.Op>)
    ensures P.Validate(c, P.OwnedStreams(l, escrow), ops, 0).Ok? <==>
      && (forall i :: 0 <= i < |ops| ==> Allowed(c, l, escrow, ops[i]))
      && Min(Draws(ops), U128_MAX) <= c.escrow
  {
    ValidateMeaning(c, l, escrow, ops, 0);
  }

  /** Whether one op can be carried out once those before it have: an opened stream must not pay the
      escrow itself, and a stopped one must be active and not stopped earlier in the effect. */
  predicate Feasible(l: L.Ledger, escrow: Address, op: Effects.Op, stopped: set<nat>) {
    match op
    case OpenStream(to, _, _) => to != escrow
    case StopStream(id) => id < |l.streams| && l.streams[id].status.Active? && id !in stopped
    case _ => true
  }

  function Stopping(op: Effects.Op, stopped: set<nat>): set<nat> {
    if op.StopStream? then stopped + {op.id} else stopped
  }

  predicate Runnable(l: L.Ledger, escrow: Address, ops: seq<Effects.Op>, stopped: set<nat>) {
    ops != [] ==>
      Feasible(l, escrow, ops[0], stopped) && Runnable(l, escrow, ops[1..], Stopping(ops[0], stopped))
  }

  /** The streams the escrow pays are those of `l`, less the ones stopped meanwhile. */
  ghost predicate SameOutgoing(l: L.Ledger, r: L.Ledger, escrow: Address, stopped: set<nat>) {
    && |l.streams| <= |r.streams|
    && forall i :: 0 <= i < |l.streams| ==>
      && r.streams[i].from == l.streams[i].from && r.streams[i].to == l.streams[i].to
      && (l.streams[i].from == escrow ==>
            (r.streams[i].status.Active? <==> l.streams[i].status.Active? && i !in stopped))
  }

  ghost predicate NoSelfStreams(l: L.Ledger) {
    forall i :: 0 <= i < |l.streams| ==> l.streams[i].from != l.streams[i].to
  }

  /** The state of a run, against the ledger it started from. */
  ghost predicate OnTrack(l: L.Ledger, r: P.Run, escrow: Address, stopped: set<nat>) {
    && r.Run?
    && r.contract.escrow <= Lookup(r.ledger, escrow).settled
    && r.nonce == Lookup(r.ledger, escrow).nonce
    && NoSelfStreams(r.ledger)
    && SameOutgoing(l, r.ledger, escrow, stopped)
  }

  lemma TransferKeepsOutgoing(l: L.Ledger, from: Address, to: Address, value: u128, nonce: u64, now: u64)
    ensures var s := ApplyTransfer(l, from, to, value, nonce, now).ledger;
      && |s.streams| == |l.streams|
      && forall i :: 0 <= i < |l.streams| ==>
        && s.streams[i].from == l.streams[i].from && s.streams[i].to == l.streams[i].to
        && (l.streams[i].to != from ==> s.streams[i] == l.streams[i])
  {
    hide SettleIncomingFrom, Settle;
    SettleIncomingFolds(l, from, now);
  }

  lemma DrawOp(l: L.Ledger, r: P.Run, escrow: Address, stopped: set<nat>, to: Address, amount: u128, now: u64)
    requires OnTrack(l, r, escrow, stopped) && amount <= r.contract.escrow
    ensures var s := ApplyTransfer(r.ledger, escrow, to, amount, r.nonce, now);
      && s.result.Ok?
      && OnTrack(l, P.Run(s.ledger, r.contract.(escrow := SatSub(r.contract.escrow, amount)), Next64(r.nonce)),
                 escrow, stopped)
  {
    hide ApplyTransfer, LiveBalance;
    TransferDecision(r.ledger, escrow, to, amount, r.nonce, now);
    ReportedCoversSettled(r.ledger, escrow, now);
    TransferSpends(r.ledger, escrow, to, amount, r.nonce, now);
    TransferNonces(r.ledger, escrow, to, amount, r.nonce, now, escrow);
    TransferKeepsOutgoing(r.ledger, escrow, to, amount, r.nonce, now);
  }

  lemma ReportedCoversSettled(l: L.Ledger, a: Address, now: u64)
    ensures Lookup(l, a).settled <= LiveBalance(l, a, now)
  {
  }

  lemma OpenOp(
    l: L.Ledger, r: P.Run, escrow: Address, stopped: set<nat>, to: Address, rate: u128, deposit: u128, now: u64)
    requires OnTrack(l, r, escrow, stopped) && 0 < rate <= MAX_RATE && 0 < deposit <= r.contract.escrow
    ensures var s := L.OpenStream(r.ledger, escrow, to, rate, deposit, now);
      && (s.result.Ok? <==> to != escrow)
      && (s.result.Ok? ==>
            OnTrack(l, P.Run(s.ledger, r.contract.(escrow := SatSub(r.contract.escrow, deposit)), r.nonce),
                    escrow, stopped))
  {
    hide PendingEmission;
    SettleNeverLowers(Lookup(r.ledger, escrow), now);
    OpenSpends(r.ledger, escrow, to, rate, deposit, now);
  }

  lemma StopOp(l: L.Ledger, r: P.Run, escrow: Address, stopped: set<nat>, id: u64, now: u64)
    requires OnTrack(l, r, escrow, stopped) && id in P.OwnedStreams(l, escrow)
    ensures var s := L.StopStream(r.ledger, id, escrow, now);
      && (s.result.Ok? <==> Feasible(l, escrow, Effects.StopStream(id), stopped))
      && (s.result.Ok? ==>
            OnTrack(l, P.Run(s.ledger, r.contract.(escrow := SatAdd(r.contract.escrow, s.result.value)), r.nonce),
                    escrow, stopped + {id}))
  {
    var s := L.StopStream(r.ledger, id, escrow, now);
    if s.result.Ok? {
      StopRaises(r.ledger, id, escrow, now, escrow);
      StopNonce(r.ledger, id, escrow, now);
      hide SettleStream, Settle;
      assert forall i :: 0 <= i < |r.ledger.streams| && i != id ==> s.ledger.streams[i] == r.ledger.streams[i] by {
        SettleStreamPays(r.ledger, id, now);
      }
      assert s.ledger.streams[id].from == r.ledger.streams[id].from
        && s.ledger.streams[id].to == r.ledger.streams[id].to by {
        SettleStreamPays(r.ledger, id, now);
      }
      assert |s.ledger.streams| == |r.ledger.streams| by { SettleStreamPays(r.ledger, id, now); }
    }
  }

  lemma StopNonce(l: L.Ledger, id: nat, caller: Address, now: u64)
    ensures Lookup(L.StopStream(l, id, caller, now).ledger, caller).nonce == Lookup(l, caller).nonce
  {
    hide PendingEmission, Accrued;
  }

  lemma OneOp(l: L.Ledger, r: P.Run, escrow: Address, op: Effects.Op, stopped: set<nat>, now: u64)
    requires OnTrack(l, r, escrow, stopped) && Checked(P.OwnedStreams(l, escrow), op)
      && Draws([op]) <= r.contract.escrow
    ensures var q := P.RunOp(r, escrow, op, now);
      && (q.Run? <==> Feasible(l, escrow, op, stopped))
      && (q.Run? ==> OnTrack(l, q, escrow, Stopping(op, stopped))
                     && q.contract.escrow + Draws([op]) >= r.contract.escrow)
  {
    hide ApplyTransfer, L.OpenStream, L.StopStream, OnTrack, P.OwnedStreams;
    assert OnTrack(l, r, escrow, stopped) ==> r.Run? by { OnTrackRuns(l, r, escrow, stopped); }
    assert [op][1..] == [];
    match op
    case Transfer(to, amount) => DrawOp(l, r, escrow, stopped, to, amount, now);
    case Refund(party, amount) => DrawOp(l, r, escrow, stopped, party, amount, now);
    case OpenStream(to, rate, deposit) => OpenOp(l, r, escrow, stopped, to, rate, deposit, now);
    case StopStream(id) => StopOp(l, r, escrow, stopped, id, now);
    case SetVar(key, value) =>
      VarsAreInert(l, r, escrow, stopped, r.contract.(vars := r.contract.vars[key := value]));
    case Abort(_) =>
  }

  lemma OnTrackRuns(l: L.Ledger, r: P.Run, escrow: Address, stopped: set<nat>)
    ensures OnTrack(l, r, escrow, stopped) ==> r.Run?
  {
  }

  lemma VarsAreInert(l: L.Ledger, r: P.Run, escrow: Address, stopped: set<nat>, c: Contract)
    requires OnTrack(l, r, escrow, stopped) && c.escrow == r.contract.escrow
    ensures OnTrack(l, r.(contract := c), escrow, stopped)
  {
  }

  lemma {:induction false} RunsIffRunnable(
    l: L.Ledger, r: P.Run, escrow: Address, ops: seq<Effects.Op>, stopped: set<nat>, now: u64)
    requires OnTrack(l, r, escrow, stopped) && AllChecked(P.OwnedStreams(l, escrow), ops)
      && Draws(ops) <= r.contract.escrow
    ensures var q := P.RunOps(r, escrow, ops, now);
      && (q.Run? <==> Runnable(l, escrow, ops, stopped))
      && (q.Run? ==> q.contract.escrow <= Lookup(q.ledger, escrow).settled)
    decreases |ops|
  {
    if ops != [] {
      hide P.RunOp, Feasible, P.OwnedStreams;
      assert Draws([ops[0]]) + Draws(ops[1..]) == Draws(ops) by { assert [ops[0]][1..] == []; }
      OneOp(l, r, escrow, ops[0], stopped, now);
      var q := P.RunOp(r, escrow, ops[0], now);
      if q.Run? {
        RunsIffRunnable(l, q, escrow, ops[1..], Stopping(ops[0], stopped), now);
      }
    }
  }

  lemma StartIsOnTrack(w: World, id: u64, now: u64)
    requires id < |w.contracts.contracts| && EscrowBacked(w) && StreamsOk(w.ledger)
    ensures OnTrack(w.ledger, P.StartRun(w, id, now), ContractAddress(id), {})
  {
    hide PendingEmission, Accrued;
    SettleNeverLowers(Lookup(w.ledger, ContractAddress(id)), now);
  }

  /** A validated effect is carried out to the end in exactly the cases a caller can tell beforehand: no
      stream it opens pays the escrow itself, and every stream it stops is active and stopped once. No
      transfer, refund or deposit of it can fail, because the escrow is backed. */
  lemma ValidatedEffectRuns(w: World, id: u64, ops: seq<Effects.Op>, now: u64)
    requires id < |w.contracts.contracts| && EscrowBacked(w) && StreamsOk(w.ledger)
    requires w.contracts.contracts[id].escrow < U128_MAX
    requires P.Validate(w.contracts.contracts[id], P.OwnedStreams(w.ledger, ContractAddress(id)), ops, 0).Ok?
    ensures P.ApplyEffect(w, id, ops, now).Applied? <==> Runnable(w.ledger, ContractAddress(id), ops, {})
    ensures P.ApplyEffect(w, id, ops, now).EffectPanic? <==> !Runnable(w.ledger, ContractAddress(id), ops, {})
  {
    hide P.StartRun, P.RunOps, Runnable, P.Validate;
    var escrow := ContractAddress(id);
    ValidMeansSolvent(w.contracts.contracts[id], P.OwnedStreams(w.ledger, escrow), ops, 0);
    StartIsOnTrack(w, id, now);
    assert P.StartRun(w, id, now).contract == w.contracts.contracts[id] by { StartContract(w, id, now); }
    RunsIffRunnable(w.ledger, P.StartRun(w, id, now), escrow, ops, {}, now);
  }

  lemma StartContract(w: World, id: u64, now: u64)
    requires id < |w.contracts.contracts|
    ensures P.StartRun(w, id, now).Run? && P.StartRun(w, id, now).contract == w.contracts.contracts[id]
  {
  }

  // ---------------------------------------------------------------- backing is kept

  lemma SpendingKeepsBacked(w: World, l: L.Ledger, a: Address)
    requires EscrowBacked(w) && OnlySpends(w.ledger, l, a) && !IsEscrow(a)
    ensures EscrowBacked(w.(ledger := l))
  {
  }

  lemma RunOpBacked(r: P.Run, escrow: Address, op: Effects.Op, now: u64)
    requires r.Run? && r.contract.escrow <= Lookup(r.ledger, escrow).settled && P.RunOp(r, escrow, op, now).Run?
    ensures var q := P.RunOp(r, escrow, op, now);
      q.contract.escrow <= Lookup(q.ledger, escrow).settled && OnlySpends(r.ledger, q.ledger, escrow)
  {
    hide ApplyTransfer, L.OpenStream, L.StopStream;
    match op
    case Transfer(to, amount) => TransferSpends(r.ledger, escrow, to, amount, r.nonce, now);
    case Refund(party, amount) => TransferSpends(r.ledger, escrow, party, amount, r.nonce, now);
    case OpenStream(to, rate, deposit) => OpenSpends(r.ledger, escrow, to, rate, deposit, now);
    case StopStream(id) => forall x: Address { StopRaises(r.ledger, id, escrow, now, x); }
    case SetVar(_, _) =>
    case Abort(_) =>
  }

  lemma {:induction false} RunOpsBacked(r: P.Run, escrow: Address, ops: seq<Effects.Op>, now: u64)
    requires r.Run? && r.contract.escrow <= Lookup(r.ledger, escrow).settled && P.RunOps(r, escrow, ops, now).Run?
    ensures var q := P.RunOps(r, escrow, ops, now);
      q.contract.escrow <= Lookup(q.ledger, escrow).settled && OnlySpends(r.ledger, q.ledger, escrow)
    decreases |ops|
  {
    hide P.RunOp;
    if ops != [] {
      RunOpBacked(r, escrow, ops[0], now);
      RunOpsBacked(P.RunOp(r, escrow, ops[0], now), escrow, ops[1..], now);
    }
  }

  lemma EffectKeepsBacked(w: World, id: u64, ops: seq<Effects.Op>, now: u64)
    requires EscrowBacked(w)
    ensures var r := P.ApplyEffect(w, id, ops, now); r.Applied? ==> EscrowBacked(r.world)
  {
    if P.ApplyEffect(w, id, ops, now).Applied? {
      hide P.RunOps, P.Validate, PendingEmission;
      var escrow := ContractAddress(id);
      SettleNeverLowers(Lookup(w.ledger, escrow), now);
      RunOpsBacked(P.StartRun(w, id, now), escrow, ops, now);
    }
  }

  lemma ResolveKeepsBacked(seams: Seams, w: World, c: ExecCase, block: u64, now: u64)
    requires EscrowBacked(w)
    ensures var r := P.ResolveCase(seams, w, c, block, now); r.Resolved? ==> EscrowBacked(r.world)
  {
    hide P.ApplyEffect, EscrowBacked;
    forall ops { EffectKeepsBacked(w, c.contract, ops, now); }
  }

  lemma InvokeKeepsBacked(
    seams: Seams, w: World, id: u64, trigger: Hash, invoker: Address, entropy: u64, block: u64, now: u64)
    requires EscrowBacked(w)
    ensures var r := P.InvokeContract(seams, w, id, trigger, invoker, entropy, block, now);
      r.Ran? ==> EscrowBacked(r.world)
  {
    hide P.ResolveCase, P.NewExecCase;
    if id < |w.contracts.contracts| {
      ResolveKeepsBacked(seams, w, P.NewExecCase(seams, w, id, trigger, invoker, entropy, block, now), block, now);
    }
  }

  lemma SubmitEffectKeepsBacked(
    seams: Seams, w: World, caseId: u64, who: Address, ops: seq<Effects.Op>, block: u64, now: u64)
    requires EscrowBacked(w)
    ensures var r := P.SubmitEffect(seams, w, caseId, who, ops, block, now); r.Ran? ==> EscrowBacked(r.world)
  {
    hide P.ResolveCase;
    if caseId < |w.contracts.cases| {
      var c := w.contracts.cases[caseId];
      ResolveKeepsBacked(seams, w, c.(effects := c.effects + [Submission(who, ops)]), block, now);
    }
  }

  lemma FundKeepsBacked(w: World, funder: Address, id: u64, amount: u128, nonce: u64, now: u64)
    requires EscrowBacked(w) && !IsEscrow(funder)
    ensures EscrowBacked(P.FundContract(w, funder, id, amount, nonce, now).world)
  {
    hide ApplyTransfer;
    TransferSpends(w.ledger, funder, ContractAddress(id), amount, nonce, now);
    assert funder != ContractAddress(id);
  }

  /** Registry calls move no settled balance and open at most an empty contract. */
  lemma RegistryKindKeepsBacked(seams: Seams, b: Block, w: World, tx: KernelTx)
    requires EscrowBacked(w) && !Nonces.MovesValue(tx.kind)
    ensures var r := Dispatch(seams, b, w, tx); r.Ran? && EscrowBacked(r.world)
  {
    hide Lifecycle.SubmitVerdict;
    match tx.kind
    case SubmitVerdict(caseId, verdict) => VerdictKeepsSettled(w, caseId, tx.from, verdict);
    case _ =>
  }

  lemma VerdictKeepsSettled(w: World, caseId: nat, juror: Address, verdict: CanonicalVerdict)
    ensures var r := Lifecycle.SubmitVerdict(w, caseId, juror, verdict).world;
      r.contracts == w.contracts && forall a: Address :: Lookup(r.ledger, a).settled == Lookup(w.ledger, a).settled
  {
    hide Lifecycle.StatusAfter;
  }

  lemma ValueKindKeepsBacked(seams: Seams, b: Block, w: World, tx: KernelTx)
    requires EscrowBacked(w) && Nonces.MovesValue(tx.kind) && !IsEscrow(tx.from)
    ensures var r := Dispatch(seams, b, w, tx); r.Ran? ==> EscrowBacked(r.world)
  {
    hide EscrowBacked, IsEscrow, ApplyTransfer, L.OpenStream, L.StopStream,
         P.FundContract, P.InvokeContract, P.SubmitEffect;
    var now := b.timestamp;
    match tx.kind
    case Transfer(to, value) =>
      TransferSpends(w.ledger, tx.from, to, value, tx.nonce, now);
      SpendingKeepsBacked(w, ApplyTransfer(w.ledger, tx.from, to, value, tx.nonce, now).ledger, tx.from);
    case OpenStream(to, rate, deposit) =>
      OpenSpends(w.ledger, tx.from, to, rate, deposit, now);
      SpendingKeepsBacked(w, L.OpenStream(w.ledger, tx.from, to, rate, deposit, now).ledger, tx.from);
    case StopStream(id) =>
      forall x: Address { StopRaises(w.ledger, id, tx.from, now, x); }
      SpendingKeepsBacked(w, L.StopStream(w.ledger, id, tx.from, now).ledger, tx.from);
    case FundContract(id) => FundKeepsBacked(w, tx.from, id, tx.value, tx.nonce, now);
    case InvokeContract(id, trigger) =>
      InvokeKeepsBacked(seams, w, id, trigger, tx.from, seams.entropy(b.hash, b.number), b.number, now);
    case SubmitEffect(caseId, ops) => SubmitEffectKeepsBacked(seams, w, caseId, tx.from, ops, b.number, now);
  }

  lemma DispatchKeepsBacked(seams: Seams, b: Block, w: World, tx: KernelTx)
    requires EscrowBacked(w) && !IsEscrow(tx.from)
    ensures var r := Dispatch(seams, b, w, tx); r.Ran? ==> EscrowBacked(r.world)
  {
    hide Dispatch, EscrowBacked, IsEscrow;
    if Nonces.MovesValue(tx.kind) {
      ValueKindKeepsBacked(seams, b, w, tx);
    } else {
      RegistryKindKeepsBacked(seams, b, w, tx);
    }
  }

  lemma SettledSenderKeepsBacked(w: World, a: Address, n: u64, now: u64)
    requires EscrowBacked(w) && !IsEscrow(a)
    ensures EscrowBacked(w.(ledger := Put(w.ledger, a, Settle(Lookup(w.ledger, a), now).(nonce := n))))
  {
    hide Settle, IsEscrow;
    SpendingKeepsBacked(w, Put(w.ledger, a, Settle(Lookup(w.ledger, a), now).(nonce := n)), a);
  }

  /** Every transaction keeps every escrow backed. */
  lemma TxKeepsBacked(seams: Seams, b: Block, w: World, tx: KernelTx)
    requires EscrowBacked(w) && !IsEscrow(tx.from)
    ensures var r := ApplyTx(seams, b, w, tx); !r.TxPanic? ==> EscrowBacked(r.world)
  {
    hide ChargeFee, Dispatch, EscrowBacked, IsEscrow, Settle;
    var now := b.timestamp;
    var charged := ChargeFee(w.ledger, tx.from, Gas(tx.kind), now).ledger;
    ChargeSpends(w.ledger, tx.from, Gas(tx.kind), now);
    SpendingKeepsBacked(w, charged, tx.from);
    var w1 := w.(ledger := charged);
    ApplyOneKeepsBacked(seams, b, w1, tx);
    var r := ApplyOne(seams, b, w1, tx);
    if r.Ran? && r.result.Err? { SettledSenderKeepsBacked(r.world, tx.from, Next64(tx.nonce), now); }
  }

  lemma ApplyOneKeepsBacked(seams: Seams, b: Block, w: World, tx: KernelTx)
    requires EscrowBacked(w) && !IsEscrow(tx.from)
    ensures var r := ApplyOne(seams, b, w, tx); r.Ran? ==> EscrowBacked(r.world)
  {
    hide Dispatch, EscrowBacked, IsEscrow, Settle;
    if ConsumesOwnNonce(tx.kind) {
      DispatchKeepsBacked(seams, b, w, tx);
    } else {
      SettledSenderKeepsBacked(w, tx.from, Next64(tx.nonce), b.timestamp);
      DispatchKeepsBacked(seams, b, ConsumeNonce(w, tx.from, tx.nonce, b.timestamp).world, tx);
    }
  }
}
