/** What a committed contract effect pays, and to whom (crates/runtime/src/contracts.rs, `apply_effect`). */
module Payouts {
  import opened Base
  import opened L = Ledger
  import opened LedgerLaws
  import opened LedgerSupply
  import opened StreamLaws
  import opened World
  import opened Escrow
  import KernelSupply
  import P = PromptContracts
  import Effects

  /** What an op pays `x` at once. */
  function OpPays(op: Effects.Op, x: Address): nat {
    match op
    case Transfer(to, amount) => if to == x then amount else 0
    case Refund(party, amount) => if party == x then amount else 0
    case _ => 0
  }

  function Pays(ops: seq<Effects.Op>, x: Address): nat {
    if ops == [] then 0 else OpPays(ops[0], x) + Pays(ops[1..], x)
  }

  /** The variables of a contract after the assignments of an effect. */
  function Assigned(vars: map<Hash, Hash>, ops: seq<Effects.Op>): map<Hash, Hash>
    decreases |ops|
  {
    if ops == [] then vars
    else Assigned(OpAssigns(vars, ops[0]), ops[1..])
  }

  function OpAssigns(vars: map<Hash, Hash>, op: Effects.Op): map<Hash, Hash> {
    if op.SetVar? then vars[op.key := op.value] else vars
  }

  // ---------------------------------------------------------------- two balances fit the supply

  lemma {:induction false} TwoInflows(streams: seq<Stream>, a: Address, b: Address, now: u64)
    requires a != b && forall i :: 0 <= i < |streams| ==> StreamOk(streams[i])
    ensures ExactInflow(streams, a, now) + ExactInflow(streams, b, now) <= TotalLocked(streams)
  {
    if streams != [] {
      hide StreamOk, Owed, Locked;
      OwedIsLocked(streams[0], now);
      TwoInflows(streams[1..], a, b, now);
    }
  }

  lemma TwoAccounts(l: L.Ledger, a: Address, b: Address, now: u64)
    requires a != b
    ensures Worth(Lookup(l, a), now) + Worth(Lookup(l, b), now) <= TotalWorth(l.accounts, now)
  {
    hide Worth;
    if a in l.accounts && b in l.accounts {
      TotalWorthSplit(l.accounts, a, now);
      TotalWorthSplit(l.accounts - {a}, b, now);
    } else {
      FreshIsWorthless(now);
      TotalWorthPut(l, a, Lookup(l, a), now);
      TotalWorthPut(l, b, Lookup(l, b), now);
    }
  }

  lemma FreshIsWorthless(now: u64)
    ensures Worth(FRESH, now) == 0
  {
  }

  lemma TwoBalances(l: L.Ledger, a: Address, b: Address, now: u64)
    requires a != b && StreamsOk(l) && Supply(l, now) <= U128_MAX
    ensures LiveBalance(l, a, now) + LiveBalance(l, b, now) <= U128_MAX
  {
    ReportedIsExact(l, a, now);
    ReportedIsExact(l, b, now);
    TwoInflows(l.streams, a, b, now);
    TwoAccounts(l, a, b, now);
  }

  // ---------------------------------------------------------------- one op

  lemma TransferPays(l: L.Ledger, from: Address, to: Address, value: u128, nonce: u64, now: u64, x: Address)
    requires StreamsOk(l) && Supply(l, now) <= U128_MAX
    requires ApplyTransfer(l, from, to, value, nonce, now).result.Ok?
    ensures var r := ApplyTransfer(l, from, to, value, nonce, now).ledger;
      LiveBalance(r, x, now)
      == LiveBalance(l, x, now) + (if x == to then value else 0) - (if x == from then value else 0)
    ensures value <= LiveBalance(l, from, now)
  {
    hide Supply, StreamsOk, LiveBalance, ApplyTransfer;
    TransferMeaning(l, from, to, value, nonce, now, x);
    if from != to { TwoBalances(l, from, to, now); }
  }

  /** Reported balances and the contract record after one op. */
  ghost predicate Moves(r: P.Run, q: P.Run, escrow: Address, op: Effects.Op, now: u64, x: Address) {
    && r.Run? && q.Run?
    && (x != escrow ==> LiveBalance(q.ledger, x, now) == LiveBalance(r.ledger, x, now) + OpPays(op, x))
    && LiveBalance(q.ledger, escrow, now) - LiveBalance(r.ledger, escrow, now)
         == q.contract.escrow - r.contract.escrow + OpPays(op, escrow)
    && q.contract == r.contract.(escrow := q.contract.escrow, vars := OpAssigns(r.contract.vars, op))
    && q.contract.escrow >= r.contract.escrow - OpDraws(op)
  }

  ghost predicate Solvent(r: P.Run, escrow: Address, now: u64) {
    && r.Run? && StreamsOk(r.ledger) && Supply(r.ledger, now) <= U128_MAX
    && r.contract.escrow <= LiveBalance(r.ledger, escrow, now)
  }

  lemma DrawOpMoves(r: P.Run, escrow: Address, op: Effects.Op, now: u64, x: Address)
    requires Solvent(r, escrow, now) && P.RunOp(r, escrow, op, now).Run? && OpDraws(op) <= r.contract.escrow
    requires op.Transfer? || op.Refund?
    ensures Moves(r, P.RunOp(r, escrow, op, now), escrow, op, now, x)
  {
    hide Supply, StreamsOk, LiveBalance, ApplyTransfer;
    var to, amount := if op.Transfer? then op.to else op.party, if op.Transfer? then op.amount else op.refund;
    TransferPays(r.ledger, escrow, to, amount, r.nonce, now, x);
    TransferPays(r.ledger, escrow, to, amount, r.nonce, now, escrow);
  }

  lemma StreamOpMoves(r: P.Run, escrow: Address, op: Effects.Op, now: u64, x: Address)
    requires Solvent(r, escrow, now) && P.RunOp(r, escrow, op, now).Run? && OpDraws(op) <= r.contract.escrow
    requires op.OpenStream? || op.StopStream?
    ensures Moves(r, P.RunOp(r, escrow, op, now), escrow, op, now, x)
  {
    hide Supply, StreamsOk, LiveBalance, L.OpenStream, L.StopStream, Accrued, ExactBalance;
    match op
    case OpenStream(to, rate, deposit) =>
      OpenMeaning(r.ledger, escrow, to, rate, deposit, now, x, now);
      OpenMeaning(r.ledger, escrow, to, rate, deposit, now, escrow, now);
    case StopStream(id) =>
      StopMeaning(r.ledger, id, escrow, now, x);
      StopMeaning(r.ledger, id, escrow, now, escrow);
  }

  lemma OpMoves(r: P.Run, escrow: Address, op: Effects.Op, now: u64, x: Address)
    requires Solvent(r, escrow, now) && P.RunOp(r, escrow, op, now).Run? && OpDraws(op) <= r.contract.escrow
    ensures var q := P.RunOp(r, escrow, op, now); Moves(r, q, escrow, op, now, x) && Solvent(q, escrow, now)
  {
    if op.Transfer? || op.Refund? {
      DrawOpMoves(r, escrow, op, now, x);
    } else if op.OpenStream? || op.StopStream? {
      StreamOpMoves(r, escrow, op, now, x);
    }
    KernelSupply.RunOpConserves(r, escrow, op, now);
  }

  // ---------------------------------------------------------------- a whole effect

  ghost predicate AllMove(r: P.Run, q: P.Run, escrow: Address, ops: seq<Effects.Op>, now: u64, x: Address) {
    && r.Run? && q.Run?
    && (x != escrow ==> LiveBalance(q.ledger, x, now) == LiveBalance(r.ledger, x, now) + Pays(ops, x))
    && LiveBalance(q.ledger, escrow, now) - LiveBalance(r.ledger, escrow, now)
         == q.contract.escrow - r.contract.escrow + Pays(ops, escrow)
    && q.contract == r.contract.(escrow := q.contract.escrow, vars := Assigned(r.contract.vars, ops))
  }

  lemma {:induction false} OpsMove(r: P.Run, escrow: Address, ops: seq<Effects.Op>, now: u64, x: Address)
    requires Solvent(r, escrow, now) && P.RunOps(r, escrow, ops, now).Run? && Draws(ops) <= r.contract.escrow
    ensures AllMove(r, P.RunOps(r, escrow, ops, now), escrow, ops, now, x)
    decreases |ops|
  {
    hide P.RunOp, Solvent, LiveBalance;
    if ops != [] {
      var q := P.RunOp(r, escrow, ops[0], now);
      OpMoves(r, escrow, ops[0], now, x);
      OpsMove(q, escrow, ops[1..], now, x);
    }
  }

  /** An applied effect pays everybody exactly what its transfers and refunds name and nobody anything else. Of all
      contracts only its own changes, in the assigned variables and the escrow record, which moves with the
      account but for what the effect pays its own escrow. */
  lemma EffectMeaning(w: World, id: u64, ops: seq<Effects.Op>, now: u64, x: Address)
    requires StreamsOk(w.ledger) && Supply(w.ledger, now) <= U128_MAX && EscrowBacked(w)
    requires P.ApplyEffect(w, id, ops, now).Applied? && w.contracts.contracts[id].escrow < U128_MAX
    ensures var r := P.ApplyEffect(w, id, ops, now).world; var e := ContractAddress(id);
      var c, d := w.contracts.contracts[id], r.contracts.contracts[id];
      && (x != e ==> LiveBalance(r.ledger, x, now) == LiveBalance(w.ledger, x, now) + Pays(ops, x))
      && LiveBalance(r.ledger, e, now) - LiveBalance(w.ledger, e, now) == d.escrow - c.escrow + Pays(ops, e)
      && r.contracts.contracts == w.contracts.contracts[id := c.(escrow := d.escrow, vars := Assigned(c.vars, ops))]
  {
    var e := ContractAddress(id);
    var r := P.StartRun(w, id, now);
    ValidMeansSolvent(w.contracts.contracts[id], P.OwnedStreams(w.ledger, e), ops, 0);
    StartIsSolvent(w, id, now, x);
    StartIsSolvent(w, id, now, e);
    hide Supply, StreamsOk, LiveBalance, P.Validate, P.RunOps, Pays, Assigned, Draws, EscrowBacked, Solvent;
    OpsMove(r, e, ops, now, x);
  }

  lemma StartIsSolvent(w: World, id: u64, now: u64, x: Address)
    requires StreamsOk(w.ledger) && Supply(w.ledger, now) <= U128_MAX && EscrowBacked(w)
    requires id < |w.contracts.contracts|
    ensures var r := P.StartRun(w, id, now);
      Solvent(r, ContractAddress(id), now) && LiveBalance(r.ledger, x, now) == LiveBalance(w.ledger, x, now)
  {
    hide Supply, Settle;
    var e := ContractAddress(id);
    var acct := Settle(Lookup(w.ledger, e), now);
    SettleIsInvisible(Lookup(w.ledger, e), now);
    LiveBalanceAfterPut(w.ledger, e, acct, x, now);
    LiveBalanceAfterPut(w.ledger, e, acct, e, now);
    assert Supply(Put(w.ledger, e, acct), now) == Supply(w.ledger, now) by { SettledSupply(w.ledger, e, now); }
  }

  lemma SettledSupply(l: L.Ledger, a: Address, now: u64)
    requires Supply(l, now) <= U128_MAX
    ensures Supply(Put(l, a, Settle(Lookup(l, a), now)), now) == Supply(l, now)
  {
    TotalWorthPut(l, a, Settle(Lookup(l, a), now), now);
    SettleKeepsWorth(Lookup(l, a), now);
  }

  // ---------------------------------------------------------------- the streams an effect opens and stops

  /** The streams that the ops open, in order. */
  function Opened(ops: seq<Effects.Op>, escrow: Address, now: u64): seq<Stream> {
    if ops == [] then []
    else
      (if ops[0].OpenStream? then [Stream(escrow, ops[0].recipient, ops[0].rate, ops[0].deposit, 0, now, Active)]
       else [])
      + Opened(ops[1..], escrow, now)
  }

  /** What stopping gives back of the streams' deposits: all that has not flowed. */
  function Released(streams: seq<Stream>, ops: seq<Effects.Op>, now: u64): int {
    if ops == [] then 0 else OpReleases(streams, ops[0], now) + Released(streams, ops[1..], now)
  }

  function OpReleases(streams: seq<Stream>, op: Effects.Op, now: u64): int {
    if op.StopStream? && op.id < |streams|
    then streams[op.id].deposit - Max(Accrued(streams[op.id], now), streams[op.id].drawn) else 0
  }

  predicate Stops(ops: seq<Effects.Op>, id: nat) {
    exists k :: 0 <= k < |ops| && ops[k].StopStream? && ops[k].id == id
  }

  /** A stream before and after: stopped at `now` or, unless it pays the escrow, as it was. */
  ghost predicate StreamMoves(s: Stream, t: Stream, escrow: Address, stopped: bool, now: u64) {
    && t == s.(drawn := t.drawn, status := t.status)
    && (stopped ==> t.status == Stopped(now))
    && (!stopped && s.to != escrow ==> t == s)
  }

  /** The streams on file before an effect, after it: the stopped ones are stopped at `now`, the others as they were,
      but for what those into the escrow have paid out. */
  ghost predicate OldStreams(s: seq<Stream>, t: seq<Stream>, escrow: Address, ops: seq<Effects.Op>, now: u64) {
    |s| <= |t| && forall i :: 0 <= i < |s| ==> StreamMoves(s[i], t[i], escrow, Stops(ops, i), now)
  }

  ghost predicate StreamsMove(r: P.Run, q: P.Run, escrow: Address, ops: seq<Effects.Op>, now: u64) {
    && r.Run? && q.Run?
    && OldStreams(r.ledger.streams, q.ledger.streams, escrow, ops, now)
    && q.ledger.streams[|r.ledger.streams|..] == Opened(ops, escrow, now)
    && q.contract.escrow == r.contract.escrow - Draws(ops) + Released(r.ledger.streams, ops, now)
  }

  ghost predicate StopsOld(ops: seq<Effects.Op>, n: nat) {
    forall k :: 0 <= k < |ops| && ops[k].StopStream? ==> ops[k].id < n
  }

  lemma TransferStreams(l: L.Ledger, from: Address, to: Address, value: u128, nonce: u64, now: u64)
    ensures var r := ApplyTransfer(l, from, to, value, nonce, now).ledger;
      && |r.streams| == |l.streams|
      && forall i :: 0 <= i < |l.streams| ==>
        && r.streams[i] == l.streams[i].(drawn := r.streams[i].drawn, status := r.streams[i].status)
        && (l.streams[i].to != from ==> r.streams[i] == l.streams[i])
  {
    hide SettleIncomingFrom, Settle;
    SettleIncomingFolds(l, from, now);
  }

  lemma OneOpSums(streams: seq<Stream>, escrow: Address, op: Effects.Op, now: u64)
    ensures Draws([op]) == OpDraws(op) && Released(streams, [op], now) == OpReleases(streams, op, now)
    ensures Opened([op], escrow, now) ==
      if op.OpenStream? then [Stream(escrow, op.recipient, op.rate, op.deposit, 0, now, Active)] else []
    ensures forall i :: Stops([op], i) <==> op.StopStream? && op.id == i
  {
    assert [op][1..] == [];
    assert Draws([]) == 0 && Released(streams, [], now) == 0 && Opened([], escrow, now) == [];
    assert op.StopStream? ==> [op][0].id == op.id;
  }

  lemma OneOpStreams(r: P.Run, escrow: Address, op: Effects.Op, now: u64)
    requires Solvent(r, escrow, now) && P.RunOp(r, escrow, op, now).Run? && OpDraws(op) <= r.contract.escrow
    ensures StreamsMove(r, P.RunOp(r, escrow, op, now), escrow, [op], now)
    ensures op.StopStream? ==>
      op.id < |r.ledger.streams| && r.ledger.streams[op.id].from == escrow && r.ledger.streams[op.id].status.Active?
  {
    hide Supply, StreamsOk, LiveBalance, ApplyTransfer, L.OpenStream, L.StopStream, Accrued, Released, Opened, Draws,
         Stops;
    var l := r.ledger;
    OneOpSums(l.streams, escrow, op, now);
    match op
    case Transfer(to, amount) => TransferStreams(l, escrow, to, amount, r.nonce, now);
    case Refund(party, amount) => TransferStreams(l, escrow, party, amount, r.nonce, now);
    case OpenStream(to, rate, deposit) => OpenDecision(l, escrow, to, rate, deposit, now);
    case StopStream(id) =>
      StopDecision(l, id, escrow, now);
      StopStreams(l, id, escrow, now);
      StopMeaning(l, id, escrow, now, escrow);
    case _ =>
  }

  lemma {:induction false} ReleasedAlike(s: seq<Stream>, t: seq<Stream>, ops: seq<Effects.Op>, now: u64)
    requires forall k :: 0 <= k < |ops| && ops[k].StopStream? ==>
      ops[k].id < |s| && ops[k].id < |t| && s[ops[k].id] == t[ops[k].id]
    ensures Released(s, ops, now) == Released(t, ops, now)
  {
    if ops != [] { ReleasedAlike(s, t, ops[1..], now); }
  }

  lemma StopsFirst(ops: seq<Effects.Op>, i: nat)
    requires ops != []
    ensures Stops(ops, i) <==> Stops([ops[0]], i) || Stops(ops[1..], i)
  {
    if Stops(ops[1..], i) {
      var k :| 0 <= k < |ops[1..]| && ops[1..][k].StopStream? && ops[1..][k].id == i;
      assert ops[k + 1].StopStream?;
    }
    if Stops(ops, i) {
      var k :| 0 <= k < |ops| && ops[k].StopStream? && ops[k].id == i;
      if k > 0 { assert ops[1..][k - 1].StopStream?; } else { assert [ops[0]][0].StopStream?; }
    }
    if Stops([ops[0]], i) { assert ops[0].StopStream?; }
  }

  /** The streams that the rest of an effect stops are as the first op found them. */
  lemma StoppedLater(r: P.Run, m: P.Run, escrow: Address, ops: seq<Effects.Op>, now: u64, k: nat)
    requires ops != [] && StreamsMove(r, m, escrow, [ops[0]], now) && NoSelfStreams(r.ledger)
    requires StopsOld(ops, |r.ledger.streams|) && k < |ops[1..]| && ops[1..][k].StopStream?
    requires var id := ops[1..][k].id;
      id < |m.ledger.streams| && m.ledger.streams[id].from == escrow && m.ledger.streams[id].status.Active?
    ensures var id := ops[1..][k].id;
      id < |r.ledger.streams| && r.ledger.streams[id] == m.ledger.streams[id] && !Stops([ops[0]], id)
  {
    hide Released, Opened, Draws, Stops;
    assert ops[k + 1] == ops[1..][k];
  }

  lemma Compose(r: P.Run, m: P.Run, q: P.Run, escrow: Address, ops: seq<Effects.Op>, now: u64)
    requires ops != [] && StreamsMove(r, m, escrow, [ops[0]], now) && StreamsMove(m, q, escrow, ops[1..], now)
    requires StopsOld(ops, |r.ledger.streams|)
    requires ops[0].OpenStream? ==> ops[0].recipient != escrow
    requires Released(r.ledger.streams, ops[1..], now) == Released(m.ledger.streams, ops[1..], now)
    requires forall i :: 0 <= i < |r.ledger.streams| && Stops([ops[0]], i) ==>
      !Stops(ops[1..], i) && r.ledger.streams[i].to != escrow
    ensures StreamsMove(r, q, escrow, ops, now)
  {
    var s, t, u := r.ledger.streams, m.ledger.streams, q.ledger.streams;
    OneOpSums(s, escrow, ops[0], now);
    assert Opened(ops, escrow, now) == Opened([ops[0]], escrow, now) + Opened(ops[1..], escrow, now);
    LaterStopsAreOld(ops, |s|);
    ComposeOld(s, t, u, escrow, ops, now);
    hide OldStreams;
    SameTail(s, t, u);
  }

  lemma SameTail(s: seq<Stream>, t: seq<Stream>, u: seq<Stream>)
    requires |s| <= |t| <= |u| && forall i :: |s| <= i < |t| ==> u[i] == t[i]
    ensures u[|s|..] == t[|s|..] + u[|t|..]
  {
  }

  lemma ComposeOld(s: seq<Stream>, t: seq<Stream>, u: seq<Stream>, escrow: Address, ops: seq<Effects.Op>, now: u64)
    requires ops != [] && OldStreams(s, t, escrow, [ops[0]], now) && OldStreams(t, u, escrow, ops[1..], now)
    requires t[|s|..] == Opened([ops[0]], escrow, now) && (ops[0].OpenStream? ==> ops[0].recipient != escrow)
    requires forall i :: |s| <= i ==> !Stops(ops[1..], i)
    requires forall i :: 0 <= i < |s| && Stops([ops[0]], i) ==> !Stops(ops[1..], i) && s[i].to != escrow
    ensures OldStreams(s, u, escrow, ops, now)
    ensures forall i :: |s| <= i < |t| ==> u[i] == t[i]
  {
    OneOpSums(s, escrow, ops[0], now);
    hide Opened, Stops;
    forall i | |s| <= i < |t| ensures u[i] == t[i] {
      assert t[i] == t[|s|..][i - |s|];
      assert StreamMoves(t[i], u[i], escrow, Stops(ops[1..], i), now);
    }
    forall i | 0 <= i < |s| ensures StreamMoves(s[i], u[i], escrow, Stops(ops, i), now) {
      StopsFirst(ops, i);
      MovesTwice(s[i], t[i], u[i], escrow, Stops([ops[0]], i), Stops(ops[1..], i), now);
    }
  }

  lemma MovesTwice(s: Stream, t: Stream, u: Stream, escrow: Address, first: bool, second: bool, now: u64)
    requires StreamMoves(s, t, escrow, first, now) && StreamMoves(t, u, escrow, second, now)
    requires first ==> !second && s.to != escrow
    ensures StreamMoves(s, u, escrow, first || second, now)
  {
  }

  lemma LaterStopsAreOld(ops: seq<Effects.Op>, n: nat)
    requires ops != [] && StopsOld(ops, n)
    ensures StopsOld(ops[1..], n) && forall i :: n <= i ==> !Stops(ops[1..], i)
  {
    assert forall k :: 0 <= k < |ops[1..]| ==> ops[1..][k] == ops[k + 1];
    forall i | n <= i ensures !Stops(ops[1..], i) {
    }
  }

  lemma {:induction false} OpsStreams(r: P.Run, escrow: Address, ops: seq<Effects.Op>, now: u64)
    requires Solvent(r, escrow, now) && P.RunOps(r, escrow, ops, now).Run? && Draws(ops) <= r.contract.escrow
    requires StopsOld(ops, |r.ledger.streams|)
    ensures StreamsMove(r, P.RunOps(r, escrow, ops, now), escrow, ops, now)
    ensures forall k :: 0 <= k < |ops| && ops[k].StopStream? ==>
      var s := r.ledger.streams[ops[k].id]; s.from == escrow && s.status.Active?
    decreases |ops|
  {
    if ops == [] {
      assert r.ledger.streams[|r.ledger.streams|..] == [];
    } else {
      var m, q := P.RunOp(r, escrow, ops[0], now), P.RunOps(r, escrow, ops, now);
      OpenedElsewhere(r, escrow, ops[0], now);
      OpMoves(r, escrow, ops[0], now, escrow);
      OneOpStreams(r, escrow, ops[0], now);
      LaterStopsAreOld(ops, |r.ledger.streams|);
      NoSelf(r, escrow, now);
      hide P.RunOp, Solvent, LiveBalance, StreamsMove, NoSelfStreams;
      assert m.Run?;
      LengthGrows(r, m, escrow, [ops[0]], now);
      OpsStreams(m, escrow, ops[1..], now);
      forall k | 0 <= k < |ops[1..]| && ops[1..][k].StopStream?
        ensures var id := ops[1..][k].id;
          id < |r.ledger.streams| && r.ledger.streams[id] == m.ledger.streams[id] && !Stops([ops[0]], id)
      {
        StoppedLater(r, m, escrow, ops, now, k);
      }
      ReleasedAlike(r.ledger.streams, m.ledger.streams, ops[1..], now);
      forall i | 0 <= i < |r.ledger.streams| && Stops([ops[0]], i)
        ensures !Stops(ops[1..], i) && r.ledger.streams[i].to != escrow
      {
        OneOpSums(r.ledger.streams, escrow, ops[0], now);
        SelfFree(r.ledger, i);
      }
      Compose(r, m, q, escrow, ops, now);
      forall k | 0 <= k < |ops| && ops[k].StopStream?
        ensures var s := r.ledger.streams[ops[k].id]; s.from == escrow && s.status.Active?
      {
        if k > 0 { assert ops[k] == ops[1..][k - 1]; }
      }
    }
  }

  lemma OpenedElsewhere(r: P.Run, escrow: Address, op: Effects.Op, now: u64)
    requires r.Run? && P.RunOp(r, escrow, op, now).Run?
    ensures op.OpenStream? ==> op.recipient != escrow
  {
  }

  lemma NoSelf(r: P.Run, escrow: Address, now: u64)
    requires Solvent(r, escrow, now)
    ensures NoSelfStreams(r.ledger)
  {
  }

  lemma SelfFree(l: L.Ledger, i: nat)
    requires NoSelfStreams(l) && i < |l.streams|
    ensures l.streams[i].from != l.streams[i].to
  {
  }

  lemma LengthGrows(r: P.Run, m: P.Run, escrow: Address, ops: seq<Effects.Op>, now: u64)
    requires StreamsMove(r, m, escrow, ops, now)
    ensures |r.ledger.streams| <= |m.ledger.streams|
  {
  }

  /** The streams after an applied effect: the ones it opens follow the old ones in order, each flowing from the escrow
      from now on; the ones it stops, which are the escrow's own and active, are stopped now; the others are as they
      were but for what those into the escrow have paid out. And its record is what it was, less what the ops draw,
      plus what the stopped streams had left. */
  lemma EffectStreams(w: World, id: u64, ops: seq<Effects.Op>, now: u64)
    requires StreamsOk(w.ledger) && Supply(w.ledger, now) <= U128_MAX && EscrowBacked(w)
    requires P.ApplyEffect(w, id, ops, now).Applied? && w.contracts.contracts[id].escrow < U128_MAX
    ensures var r := P.ApplyEffect(w, id, ops, now).world; var e := ContractAddress(id);
      var s, t := w.ledger.streams, r.ledger.streams;
      && OldStreams(s, t, e, ops, now) && t[|s|..] == Opened(ops, e, now)
      && (forall i :: 0 <= i < |s| && Stops(ops, i) ==> s[i].from == e && s[i].status.Active?)
      && r.contracts.contracts[id].escrow == w.contracts.contracts[id].escrow - Draws(ops) + Released(s, ops, now)
  {
    var e := ContractAddress(id);
    var r := P.StartRun(w, id, now);
    ValidMeansSolvent(w.contracts.contracts[id], P.OwnedStreams(w.ledger, e), ops, 0);
    forall k | 0 <= k < |ops| && ops[k].StopStream? ensures ops[k].id < |w.ledger.streams| {
      assert Checked(P.OwnedStreams(w.ledger, e), ops[k]);
    }
    StartIsSolvent(w, id, now, e);
    hide Supply, StreamsOk, LiveBalance, P.Validate, P.RunOps, Pays, Assigned, Draws, EscrowBacked, Solvent, Released,
         Opened;
    OpsStreams(r, e, ops, now);
  }
}
