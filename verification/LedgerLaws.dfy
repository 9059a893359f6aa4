/** What the ledger operations mean for the balances a node reports, and what they conserve. */
module LedgerLaws {
  import opened Base
  import opened Ledger

  // ---------------------------------------------------------------- emission and accrual

  lemma EmissionNeverSaturates(elapsed: u64)
    ensures SatMul(UBI, elapsed) == UBI * elapsed
  {
  }

  lemma SettleIsInvisible(a: Account, now: u64)
    ensures PendingEmission(Settle(a, now), now) == 0
    ensures AccountBalance(Settle(a, now), now) == AccountBalance(a, now) == Settle(a, now).settled
    ensures Settle(Settle(a, now), now) == Settle(a, now)
  {
  }

  /** The last instant a stream can still be flowing at, seen from `now`. */
  function Horizon(s: Stream, now: u64): u64 {
    if s.status.Stopped? then Min(now, s.status.at) else now
  }

  lemma MulMonotone(x: nat, y: nat, z: nat)
    requires y <= z
    ensures x * y <= x * z
  {
  }

  lemma CeilingCovers(deposit: nat, rate: nat, ticks: nat)
    requires rate > 0
    requires ticks >= deposit / rate + if deposit % rate > 0 then 1 else 0
    ensures rate * ticks >= deposit
  {
    var whole := deposit / rate;
    var ceiling := whole + if deposit % rate > 0 then 1 else 0;
    assert deposit == rate * whole + deposit % rate;
    MulMonotone(rate, ceiling, ticks);
    assert rate * ceiling == rate * whole + if deposit % rate > 0 then rate else 0;
  }

  /** The computed end of a stream never changes what it pays: only the deposit cap and a stop do. */
  lemma AccruedClosedForm(s: Stream, now: u64)
    ensures Accrued(s, now) == Min(s.rate * SatSub(Horizon(s, now), s.startedAt), s.deposit)
  {
    var until := Min(now, EndOrStop(s));
    var horizon := Horizon(s, now);
    assert until == Min(horizon, TEnd(s));
    if s.rate == 0 {
    } else if until < horizon {
      CeilingCovers(s.deposit, s.rate, SatSub(until, s.startedAt));
      MulMonotone(s.rate, SatSub(until, s.startedAt), SatSub(horizon, s.startedAt));
    }
  }

  function Ceiling(deposit: nat, rate: nat): nat
    requires rate > 0
  {
    deposit / rate + if deposit % rate > 0 then 1 else 0
  }

  lemma CeilingIsLeast(deposit: nat, rate: nat, n: nat)
    requires rate > 0
    ensures Ceiling(deposit, rate) <= n <==> rate * n >= deposit
  {
    if Ceiling(deposit, rate) <= n {
      CeilingCovers(deposit, rate, n);
    } else {
      var whole := deposit / rate;
      assert deposit == rate * whole + deposit % rate;
      if deposit % rate > 0 {
        MulMonotone(rate, n, whole);
      } else {
        MulMonotone(rate, n, whole - 1);
        assert rate * (whole - 1) == rate * whole - rate;
      }
    }
  }

  /** The computed end of a stream that fits 64 bits is the first instant by which its deposit has flowed. */
  lemma EndIsTheFirstInstant(s: Stream, t: u64)
    requires s.rate > 0 && s.startedAt <= t && TEnd(s) < U64_MAX
    ensures TEnd(s) <= t <==> s.rate * (t - s.startedAt) >= s.deposit
  {
    CeilingIsLeast(s.deposit, s.rate, t - s.startedAt);
    assert TEnd(s) == s.startedAt + Ceiling(s.deposit, s.rate);
  }

  lemma AccruedIsMonotone(s: Stream, t: u64, now: u64)
    requires t <= now
    ensures Accrued(s, t) <= Accrued(s, now) <= s.deposit
  {
    AccruedClosedForm(s, t);
    AccruedClosedForm(s, now);
    MulMonotone(s.rate, SatSub(Horizon(s, t), s.startedAt), SatSub(Horizon(s, now), s.startedAt));
  }

  lemma DrainedOwesNothing(s: Stream, now: u64)
    ensures Drained(s, now).drawn == s.drawn + Owed(s, now)
    ensures Owed(Drained(s, now), now) == 0
    ensures Drained(Drained(s, now), now) == Drained(s, now)
  {
  }

  // ---------------------------------------------------------------- reported balances

  /** Inflow not yet folded in, without the saturation of the reported figure. */
  ghost function ExactInflow(streams: seq<Stream>, a: Address, now: u64): nat {
    if streams == [] then 0
    else
      (if streams[0].to == a then Owed(streams[0], now) else 0) + ExactInflow(streams[1..], a, now)
  }

  ghost function ExactBalance(l: Ledger, a: Address, now: u64): nat {
    var acct := Lookup(l, a);
    acct.settled + PendingEmission(acct, now) + ExactInflow(l.streams, a, now)
  }

  lemma {:induction false} InflowIsExact(l: Ledger, a: Address, now: u64, id: nat)
    requires id <= |l.streams|
    ensures Inflow(l, a, now, id) == Min(U128_MAX, ExactInflow(l.streams[id..], a, now))
    decreases |l.streams| - id
  {
    if id < |l.streams| {
      InflowIsExact(l, a, now, id + 1);
      assert l.streams[id..][1..] == l.streams[id + 1..];
    }
  }

  /** The reported balance saturates the exact one once, wherever the saturating additions happen. */
  lemma LiveBalanceIsExact(l: Ledger, a: Address, now: u64)
    ensures LiveBalance(l, a, now) == Min(U128_MAX, ExactBalance(l, a, now))
  {
    InflowIsExact(l, a, now, 0);
    assert l.streams[0..] == l.streams;
  }

  lemma {:induction false} InflowAfterUpdate(streams: seq<Stream>, id: nat, s: Stream, a: Address, now: u64)
    requires id < |streams| && s.to == streams[id].to
    ensures ExactInflow(streams[id := s], a, now)
         == ExactInflow(streams, a, now)
          + if s.to == a then Owed(s, now) - Owed(streams[id], now) else 0
  {
    var updated := streams[id := s];
    if id == 0 {
      assert updated[1..] == streams[1..];
    } else {
      assert updated[1..] == streams[1..][id - 1 := s];
      InflowAfterUpdate(streams[1..], id - 1, s, a, now);
    }
  }

  lemma {:induction false} InflowAfterOpen(streams: seq<Stream>, s: Stream, a: Address, now: u64)
    ensures ExactInflow(streams + [s], a, now)
         == ExactInflow(streams, a, now) + if s.to == a then Owed(s, now) else 0
  {
    if streams != [] {
      assert (streams + [s])[1..] == streams[1..] + [s];
      InflowAfterOpen(streams[1..], s, a, now);
    }
  }

  // ---------------------------------------------------------------- settlement

  /** Nothing is left to settle for `a` at `now`. */
  ghost predicate IsSettled(l: Ledger, a: Address, now: u64) {
    && a in l.accounts
    && Settle(l.accounts[a], now) == l.accounts[a]
    && StreamsSettled(l, a, now)
  }

  ghost predicate StreamsSettled(l: Ledger, a: Address, now: u64) {
    forall i :: 0 <= i < |l.streams| && l.streams[i].to == a ==>
      Drained(l.streams[i], now) == l.streams[i] && Owed(l.streams[i], now) == 0
  }

  /** Everything `settle_incoming` may change, from stream `id` on. */
  ghost predicate SettlesFrom(l: Ledger, r: Ledger, a: Address, now: u64, id: nat)
    requires id <= |l.streams|
  {
    && r.accounts - {a} == l.accounts - {a}
    && (a in l.accounts ==> a in r.accounts)
    && Lookup(r, a).(settled := 0, lastSettledAt := 0) == Lookup(l, a).(settled := 0, lastSettledAt := 0)
    && Lookup(r, a).lastSettledAt in {Lookup(l, a).lastSettledAt, Max(now, Lookup(l, a).lastSettledAt)}
    && AccountBalance(Lookup(r, a), now) == SatAdd(AccountBalance(Lookup(l, a), now), Inflow(l, a, now, id))
    && |r.streams| == |l.streams|
    && forall i :: 0 <= i < |l.streams| ==>
      r.streams[i] == if i >= id && l.streams[i].to == a then Drained(l.streams[i], now) else l.streams[i]
  }

  lemma {:induction false} InflowFrame(l: Ledger, r: Ledger, a: Address, now: u64, id: nat)
    requires id <= |l.streams| == |r.streams| && l.streams[id..] == r.streams[id..]
    ensures Inflow(l, a, now, id) == Inflow(r, a, now, id)
  {
    InflowIsExact(l, a, now, id);
    InflowIsExact(r, a, now, id);
  }

  lemma SettleStreamPays(l: Ledger, id: nat, now: u64)
    requires id < |l.streams|
    ensures var a, r := l.streams[id].to, SettleStream(l, id, now);
      && r.accounts - {a} == l.accounts - {a}
      && a in r.accounts
      && Lookup(r, a).(settled := 0, lastSettledAt := 0) == Lookup(l, a).(settled := 0, lastSettledAt := 0)
      && Lookup(r, a).lastSettledAt == Max(now, Lookup(l, a).lastSettledAt)
      && AccountBalance(Lookup(r, a), now) == SatAdd(AccountBalance(Lookup(l, a), now), Owed(l.streams[id], now))
      && r.streams == l.streams[id := Drained(l.streams[id], now)]
  {
    SettleIsInvisible(Lookup(l, l.streams[id].to), now);
  }

  lemma {:induction false} SettleIncomingFrame(l: Ledger, a: Address, now: u64, id: nat)
    requires id <= |l.streams|
    ensures SettlesFrom(l, SettleIncomingFrom(l, a, now, id), a, now, id)
    decreases |l.streams| - id
  {
    if id < |l.streams| {
      if l.streams[id].to == a {
        hide Settle, AccountBalance, Drained, Owed;
        var l1 := SettleStream(l, id, now);
        SettleStreamPays(l, id, now);
        SettleIncomingFrame(l1, a, now, id + 1);
        assert l1.streams[id + 1..] == l.streams[id + 1..];
        InflowFrame(l1, l, a, now, id + 1);
      } else {
        SettleIncomingFrame(l, a, now, id + 1);
      }
    }
  }

  /** After folding, the settled balance of the account is exactly the balance the node reported. */
  lemma SettleIncomingFolds(l: Ledger, a: Address, now: u64)
    ensures var r := SettleIncoming(l, a, now);
      && SettlesFrom(l, r, a, now, 0)
      && Settle(Lookup(r, a), now).settled == LiveBalance(l, a, now)
      && StreamsSettled(r, a, now)
  {
    SettleIncomingFrame(l, a, now, 0);
    SettleIsInvisible(Lookup(SettleIncoming(l, a, now), a), now);
    forall i | 0 <= i < |l.streams| { DrainedOwesNothing(l.streams[i], now); }
  }

  lemma {:induction false} SettledIsFixed(l: Ledger, a: Address, now: u64, id: nat)
    requires id <= |l.streams| && IsSettled(l, a, now)
    ensures SettleIncomingFrom(l, a, now, id) == l
    decreases |l.streams| - id
  {
    if id < |l.streams| {
      if l.streams[id].to == a {
        assert SettleStream(l, id, now).accounts == l.accounts;
        assert SettleStream(l, id, now).streams == l.streams;
      }
      SettledIsFixed(l, a, now, id + 1);
    }
  }

  // ---------------------------------------------------------------- what a caller observes

  lemma {:induction false} InflowCongruent(s: seq<Stream>, t: seq<Stream>, a: Address, now: u64)
    requires |s| == |t|
    requires forall i :: 0 <= i < |s| ==> s[i].to == t[i].to
    requires forall i :: 0 <= i < |s| && s[i].to == a ==> Owed(s[i], now) == Owed(t[i], now)
    ensures ExactInflow(s, a, now) == ExactInflow(t, a, now)
  {
    if s != [] {
      InflowCongruent(s[1..], t[1..], a, now);
    }
  }

  lemma {:induction false} NoInflowOnceSettled(s: seq<Stream>, a: Address, now: u64)
    requires forall i :: 0 <= i < |s| && s[i].to == a ==> Owed(s[i], now) == 0
    ensures ExactInflow(s, a, now) == 0
  {
    if s != [] {
      NoInflowOnceSettled(s[1..], a, now);
    }
  }

  /** Folding the incoming streams of one account changes nobody's reported balance. */
  lemma SettleIncomingIsInvisible(l: Ledger, a: Address, b: Address, now: u64)
    ensures LiveBalance(SettleIncoming(l, a, now), b, now) == LiveBalance(l, b, now)
  {
    var r := SettleIncoming(l, a, now);
    SettleIncomingFolds(l, a, now);
    LiveBalanceIsExact(l, b, now);
    LiveBalanceIsExact(r, b, now);
    if a == b {
      NoInflowOnceSettled(r.streams, a, now);
      SettleIsInvisible(Lookup(r, a), now);
    } else {
      assert Lookup(r, b) == Lookup(l, b) by {
        assert b in l.accounts <==> b in l.accounts - {a};
        assert b in r.accounts <==> b in r.accounts - {a};
        assert b in l.accounts ==> (l.accounts - {a})[b] == l.accounts[b];
        assert b in r.accounts ==> (r.accounts - {a})[b] == r.accounts[b];
      }
      InflowCongruent(r.streams, l.streams, b, now);
    }
  }

  /** Reported balances after replacing one account and leaving the streams alone. */
  lemma LiveBalanceAfterPut(l: Ledger, a: Address, acct: Account, b: Address, now: u64)
    ensures LiveBalance(Put(l, a, acct), b, now)
         == if a == b then SatAdd(AccountBalance(acct, now), Inflow(l, a, now, 0)) else LiveBalance(l, b, now)
  {
    InflowFrame(Put(l, a, acct), l, b, now, 0);
  }

  lemma ChargedSender(l: Ledger, from: Address, now: u64)
    ensures var r := SettleIncoming(l, from, now); var sender := Settle(Lookup(r, from), now);
      && sender.settled == LiveBalance(l, from, now)
      && sender.nonce == Lookup(l, from).nonce
      && PendingEmission(sender, now) == 0
      && Inflow(r, from, now, 0) == 0
  {
    var r := SettleIncoming(l, from, now);
    SettleIncomingFolds(l, from, now);
    NoInflowOnceSettled(r.streams, from, now);
    InflowIsExact(r, from, now, 0);
    assert r.streams[0..] == r.streams;
  }

  lemma TransferDecision(l: Ledger, from: Address, to: Address, value: u128, nonce: u64, now: u64)
    ensures var s := ApplyTransfer(l, from, to, value, nonce, now);
      && (s.result.Ok? <==> nonce == Lookup(l, from).nonce && value <= LiveBalance(l, from, now))
      && (s.result.Err? ==> s.ledger == SettleIncoming(l, from, now))
  {
    ChargedSender(l, from, now);
  }

  lemma TransferNonces(l: Ledger, from: Address, to: Address, value: u128, nonce: u64, now: u64, b: Address)
    ensures var s := ApplyTransfer(l, from, to, value, nonce, now);
      Lookup(s.ledger, b).nonce == (if s.result.Ok? && b == from then Next64(nonce) else Lookup(l, b).nonce)
  {
    SettleKeepsNonces(l, from, now, b);
  }

  /** Reported balances after debiting a settled payer and writing its nonce. */
  lemma DebitMovesBalance(l: Ledger, from: Address, fee: u128, nonce: u64, now: u64, b: Address)
    requires Inflow(l, from, now, 0) == 0 && fee <= Settle(Lookup(l, from), now).settled
    ensures var sender := Settle(Lookup(l, from), now);
      LiveBalance(Put(l, from, sender.(settled := sender.settled - fee, nonce := nonce)), b, now)
      == LiveBalance(l, b, now) - if b == from then fee else 0
  {
    hide Inflow;
    var sender := Settle(Lookup(l, from), now);
    SettleIsInvisible(Lookup(l, from), now);
    LiveBalanceAfterPut(l, from, sender.(settled := sender.settled - fee, nonce := nonce), b, now);
  }

  /** Reported balances after crediting an account on top of what it had in an earlier ledger with the same
      streams. */
  lemma CreditMovesBalance(l: Ledger, earlier: Ledger, a: Address, fee: u128, now: u64, b: Address)
    requires l.streams == earlier.streams
    ensures var acct := Settle(Lookup(earlier, a), now);
      LiveBalance(Put(l, a, acct.(settled := SatAdd(acct.settled, fee))), b, now)
      == if b == a then SatAdd(LiveBalance(earlier, b, now), fee) else LiveBalance(l, b, now)
  {
    hide Inflow;
    var acct := Settle(Lookup(earlier, a), now);
    SettleIsInvisible(Lookup(earlier, a), now);
    LiveBalanceAfterPut(l, a, acct.(settled := SatAdd(acct.settled, fee)), b, now);
    InflowFrame(l, earlier, a, now, 0);
  }

  lemma TransferMovesBalance(l: Ledger, from: Address, to: Address, value: u128, nonce: u64, now: u64, b: Address)
    requires from != to && ApplyTransfer(l, from, to, value, nonce, now).result.Ok?
    ensures LiveBalance(ApplyTransfer(l, from, to, value, nonce, now).ledger, b, now) ==
         if b == from then LiveBalance(l, b, now) - value
         else if b == to then SatAdd(LiveBalance(l, b, now), value)
         else LiveBalance(l, b, now)
  {
    hide Inflow, SettleIncoming, LiveBalance, Settle;
    var l1 := SettleIncoming(l, from, now);
    ChargedSender(l, from, now);
    SettleIncomingIsInvisible(l, from, b, now);
    SettleIncomingIsInvisible(l, from, to, now);
    var sender := Settle(Lookup(l1, from), now);
    DebitMovesBalance(l1, from, value, Next64(sender.nonce), now, b);
    var l2 := Put(l1, from, sender.(settled := sender.settled - value, nonce := Next64(sender.nonce)));
    CreditMovesBalance(l2, l1, to, value, now, b);
  }

  /** A transfer goes through exactly when the nonce is right and the balance the node reports,
      undrawn stream inflow included, covers it; it then moves exactly `value` between the two
      reported balances and bumps one nonce. A refused transfer moves nobody's balance. */
  lemma TransferMeaning(l: Ledger, from: Address, to: Address, value: u128, nonce: u64, now: u64, b: Address)
    ensures var s := ApplyTransfer(l, from, to, value, nonce, now);
      && (s.result.Ok? <==> nonce == Lookup(l, from).nonce && value <= LiveBalance(l, from, now))
      && Lookup(s.ledger, b).nonce == (if s.result.Ok? && b == from then Next64(nonce) else Lookup(l, b).nonce)
      && LiveBalance(s.ledger, b, now) ==
         if s.result.Err? || from == to then LiveBalance(l, b, now)
         else if b == from then LiveBalance(l, b, now) - value
         else if b == to then SatAdd(LiveBalance(l, b, now), value)
         else LiveBalance(l, b, now)
  {
    var s := ApplyTransfer(l, from, to, value, nonce, now);
    TransferDecision(l, from, to, value, nonce, now);
    TransferNonces(l, from, to, value, nonce, now, b);
    SettleIncomingIsInvisible(l, from, b, now);
    if s.result.Ok? && from != to {
      TransferMovesBalance(l, from, to, value, nonce, now, b);
    } else if s.result.Ok? {
      var l1 := SettleIncoming(l, from, now);
      ChargedSender(l, from, now);
      var sender := Settle(Lookup(l1, from), now);
      LiveBalanceAfterPut(l1, from, sender.(nonce := Next64(sender.nonce)), b, now);
    }
  }

  lemma SettleKeepsNonces(l: Ledger, a: Address, now: u64, b: Address)
    ensures var r := SettleIncoming(l, a, now);
      && Lookup(r, b).nonce == Lookup(l, b).nonce
      && Lookup(r, b).verified == Lookup(l, b).verified
      && Lookup(r, b).verifiedAt == Lookup(l, b).verifiedAt
      && (b != a ==> Lookup(r, b) == Lookup(l, b))
  {
    var r := SettleIncoming(l, a, now);
    SettleIncomingFolds(l, a, now);
    if b != a {
      assert b in l.accounts <==> b in l.accounts - {a};
      assert b in r.accounts <==> b in r.accounts - {a};
      assert b in l.accounts ==> (l.accounts - {a})[b] == l.accounts[b];
      assert b in r.accounts ==> (r.accounts - {a})[b] == r.accounts[b];
    } else {
      assert Lookup(r, a).(settled := 0, lastSettledAt := 0).nonce == Lookup(r, a).nonce;
    }
  }

  lemma ChargeFeeDecision(l: Ledger, from: Address, gas: u64, now: u64, b: Address)
    ensures var s := ChargeFee(l, from, gas, now);
      && (s.result.Ok? <==> FeeForGas(gas) <= LiveBalance(l, from, now))
      && (s.result.Err? ==> s.ledger == SettleIncoming(l, from, now))
      && Lookup(s.ledger, b).nonce == Lookup(l, b).nonce
  {
    ChargedSender(l, from, now);
    SettleKeepsNonces(l, from, now, b);
  }

  /** The reported balance of `b` once `from` has paid a fee. The treasury is credited last, from what it had
      before, so a fee of its own adds to its balance. */
  function AfterFee(from: Address, b: Address, have: u128, fee: u128): int {
    if b == TREASURY then SatAdd(have, fee) else if b == from then have - fee else have
  }

  /** A fee is charged exactly when the reported balance covers it; the sender's reported balance then
      drops by the fee and the treasury's rises by it. */
  lemma ChargeFeeMeaning(l: Ledger, from: Address, gas: u64, now: u64, b: Address)
    ensures var s := ChargeFee(l, from, gas, now);
      && (s.result.Ok? <==> FeeForGas(gas) <= LiveBalance(l, from, now))
      && Lookup(s.ledger, b).nonce == Lookup(l, b).nonce
      && LiveBalance(s.ledger, b, now) ==
         if s.result.Err? then LiveBalance(l, b, now) else AfterFee(from, b, LiveBalance(l, b, now), FeeForGas(gas))
  {
    hide LiveBalance, SettleIncoming, Inflow, Settle;
    ChargeFeeDecision(l, from, gas, now, b);
    ChargedSender(l, from, now);
    SettleIncomingIsInvisible(l, from, b, now);
    var l1 := SettleIncoming(l, from, now);
    if FeeForGas(gas) <= Settle(Lookup(l1, from), now).settled {
      var sender := Settle(Lookup(l1, from), now);
      DebitMovesBalance(l1, from, FeeForGas(gas), sender.nonce, now, b);
      var l2 := Put(l1, from, sender.(settled := sender.settled - FeeForGas(gas)));
      CreditMovesBalance(l2, l1, TREASURY, FeeForGas(gas), now, b);
    }
  }

  /** Once a fee is charged there is nothing left to settle for the payer at that instant, so the
      settlement a later operation of the same transaction repeats is a no-op. */
  lemma ChargeFeeSettles(l: Ledger, from: Address, gas: u64, now: u64)
    ensures var s := ChargeFee(l, from, gas, now);
      s.result.Ok? ==> IsSettled(s.ledger, from, now) && SettleIncoming(s.ledger, from, now) == s.ledger
  {
    var s := ChargeFee(l, from, gas, now);
    SettleIncomingFolds(l, from, now);
    if s.result.Ok? {
      assert s.ledger.streams == SettleIncoming(l, from, now).streams;
      SettledIsFixed(s.ledger, from, now, 0);
    }
  }

  // ---------------------------------------------------------------- when settling writes nothing

  lemma {:induction false} SettlingSettles(l: Ledger, a: Address, now: u64, id: nat)
    requires id <= |l.streams|
    requires (a in l.accounts && Settle(l.accounts[a], now) == l.accounts[a])
      || exists i :: id <= i < |l.streams| && l.streams[i].to == a
    ensures var r := SettleIncomingFrom(l, a, now, id);
      a in r.accounts && Settle(r.accounts[a], now) == r.accounts[a]
    decreases |l.streams| - id
  {
    if id < |l.streams| {
      if l.streams[id].to == a {
        SettlingSettles(SettleStream(l, id, now), a, now, id + 1);
      } else {
        SettlingSettles(l, a, now, id + 1);
      }
    }
  }

  /** Folding an account's incoming streams leaves the store untouched exactly when it has none, or when
      everything was settled already. A charge or transfer that is then refused is refused without a
      trace in exactly these cases, since this fold is all it writes. */
  lemma SettleIncomingIsSilent(l: Ledger, a: Address, now: u64)
    ensures SettleIncoming(l, a, now) == l <==>
      (forall i :: 0 <= i < |l.streams| ==> l.streams[i].to != a) || IsSettled(l, a, now)
  {
    if forall i :: 0 <= i < |l.streams| ==> l.streams[i].to != a {
      NoIncoming(l, a, now, 0);
    } else {
      SettlingSettles(l, a, now, 0);
      SettleIncomingFolds(l, a, now);
      if IsSettled(l, a, now) { SettledIsFixed(l, a, now, 0); }
    }
  }

  lemma {:induction false} NoIncoming(l: Ledger, a: Address, now: u64, id: nat)
    requires id <= |l.streams| && forall i :: 0 <= i < |l.streams| ==> l.streams[i].to != a
    ensures SettleIncomingFrom(l, a, now, id) == l
    decreases |l.streams| - id
  {
    if id < |l.streams| { NoIncoming(l, a, now, id + 1); }
  }

  /** A refused charge that does leave a trace: one second of a stream is folded in on the way. */
  lemma RefusedChargeWrites()
    ensures var l := Ledger(map[1 := FRESH], [Stream(2, 1, 1, 10, 0, 0, Active)]);
      ChargeFee(l, 1, 21_000, 1).result.Err? && ChargeFee(l, 1, 21_000, 1).ledger != l
  {
    var l := Ledger(map[1 := FRESH], [Stream(2, 1, 1, 10, 0, 0, Active)]);
    SettleIncomingIsSilent(l, 1, 1);
    assert Owed(l.streams[0], 1) == 1;
    ChargeFeeDecision(l, 1, 21_000, 1, 1);
    LiveBalanceIsExact(l, 1, 1);
    assert ExactInflow(l.streams[1..], 1, 1) == 0;
  }

  // ---------------------------------------------------------------- settling part of the way

  ghost function Ticks(elapsed: nat): nat { UBI * elapsed / EMISSION_PERIOD_SECS }

  /** Emission over two stretches falls short of emission over both by at most one base unit, and is
      exact exactly when the two remainders do not carry. */
  lemma TicksSplit(d: nat, e: nat)
    ensures Ticks(d + e) - 1 <= Ticks(d) + Ticks(e) <= Ticks(d + e)
    ensures Ticks(d) + Ticks(e) == Ticks(d + e) <==>
      UBI * d % EMISSION_PERIOD_SECS + UBI * e % EMISSION_PERIOD_SECS < EMISSION_PERIOD_SECS
  {
    assert UBI * (d + e) == UBI * d + UBI * e;
  }

  /** Settling an account at `t` on the way to `now` never creates a unit and loses at most one. */
  lemma EarlySettlementLoses(a: Account, t: u64, now: u64)
    requires a.verified && Max(a.lastSettledAt, a.verifiedAt) <= t <= now
    requires a.settled + PendingEmission(a, now) <= U128_MAX
    ensures AccountBalance(a, now) - 1 <= AccountBalance(Settle(a, t), now) <= AccountBalance(a, now)
    ensures var since := Max(a.lastSettledAt, a.verifiedAt);
      AccountBalance(Settle(a, t), now) == AccountBalance(a, now) <==>
      UBI * (t - since) % EMISSION_PERIOD_SECS + UBI * (now - t) % EMISSION_PERIOD_SECS < EMISSION_PERIOD_SECS
  {
    var since := Max(a.lastSettledAt, a.verifiedAt);
    TicksSplit(t - since, now - t);
  }

  // ---------------------------------------------------------------- settling, seen later

  lemma DrainedOwesTheRest(s: Stream, now: u64, t: u64)
    requires now <= t
    ensures Owed(Drained(s, now), t) == Owed(s, t) - Owed(s, now)
  {
    AccruedIsMonotone(s, now, t);
    assert Accrued(Drained(s, now), t) == Accrued(s, t);
  }

  lemma {:induction false} InflowOfDrained(s: seq<Stream>, r: seq<Stream>, a: Address, now: u64, t: u64)
    requires now <= t && |r| == |s|
    requires forall i :: 0 <= i < |s| ==> r[i] == if s[i].to == a then Drained(s[i], now) else s[i]
    ensures ExactInflow(r, a, t) == ExactInflow(s, a, t) - ExactInflow(s, a, now)
  {
    hide Owed, Drained;
    if s != [] {
      assert Drained(s[0], now).to == s[0].to by { DrainedKeepsEnds(s[0], now); }
      DrainedOwesTheRest(s[0], now, t);
      InflowOfDrained(s[1..], r[1..], a, now, t);
    }
  }

  lemma DrainedKeepsEnds(s: Stream, now: u64)
    ensures Drained(s, now).to == s.to
  {
  }

  /** An account at `t`, from what it was worth at `now` with its inflow folded in. */
  lemma FoldedAccount(a: Account, f: Account, inflow: nat, now: u64, t: u64)
    requires now <= t && a.settled + PendingEmission(a, t) + inflow < U128_MAX
    requires f.verified == a.verified && f.verifiedAt == a.verifiedAt
    requires f.lastSettledAt == a.lastSettledAt || f.lastSettledAt == Max(now, a.lastSettledAt)
    requires AccountBalance(f, now) == a.settled + PendingEmission(a, now) + inflow
    ensures var kept, whole := f.settled + PendingEmission(f, t), a.settled + PendingEmission(a, t) + inflow;
      whole - 1 <= kept <= whole && (!a.verified ==> kept == whole)
  {
    EmissionNeverSaturates(SatSub(t, Max(a.lastSettledAt, a.verifiedAt)));
    EmissionNeverSaturates(SatSub(now, Max(a.lastSettledAt, a.verifiedAt)));
    EmissionNeverSaturates(SatSub(t, Max(f.lastSettledAt, f.verifiedAt)));
    EmissionNeverSaturates(SatSub(now, Max(f.lastSettledAt, f.verifiedAt)));
    var since := Max(a.lastSettledAt, a.verifiedAt);
    assert PendingEmission(a, now) <= PendingEmission(a, t);
    if a.verified && f.lastSettledAt != a.lastSettledAt && since <= now { TicksSplit(now - since, t - now); }
  }

  /** Settling the incoming streams of one account on the way to `t` never adds to a balance reported then, and
      costs the settled account at most one base unit of its own emission, and anybody else nothing. */
  lemma SettlingIsNearlyInvisibleLater(l: Ledger, a: Address, b: Address, now: u64, t: u64)
    requires now <= t && ExactBalance(l, a, t) < U128_MAX
    ensures var r := SettleIncoming(l, a, now);
      && ExactBalance(l, b, t) - 1 <= ExactBalance(r, b, t) <= ExactBalance(l, b, t)
      && (b != a || !Lookup(l, a).verified ==> ExactBalance(r, b, t) == ExactBalance(l, b, t))
  {
    hide Owed, Drained, PendingEmission, SettleIncoming;
    var r := SettleIncoming(l, a, now);
    SettleIncomingFolds(l, a, now);
    SettleKeepsNonces(l, a, now, b);
    if b != a {
      forall i | 0 <= i < |l.streams| ensures r.streams[i].to == l.streams[i].to {
        DrainedKeepsEnds(l.streams[i], now);
      }
      InflowCongruent(r.streams, l.streams, b, t);
    } else {
      InflowIsExact(l, a, now, 0);
      assert l.streams[0..] == l.streams;
      InflowOfDrained(l.streams, r.streams, a, now, t);
      InflowGrows(l.streams, a, now, t);
      EmissionGrows(Lookup(l, a), now, t);
      FoldedAccount(Lookup(l, a), Lookup(r, a), ExactInflow(l.streams, a, now), now, t);
    }
  }

  lemma EmissionGrows(a: Account, now: u64, t: u64)
    requires now <= t
    ensures PendingEmission(a, now) <= PendingEmission(a, t)
  {
  }

  lemma {:induction false} InflowGrows(s: seq<Stream>, a: Address, now: u64, t: u64)
    requires now <= t
    ensures ExactInflow(s, a, now) <= ExactInflow(s, a, t)
  {
    hide Accrued;
    if s != [] {
      AccruedIsMonotone(s[0], now, t);
      InflowGrows(s[1..], a, now, t);
    }
  }
}
