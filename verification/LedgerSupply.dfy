/** Conservation: the total supply at an instant, and what each ledger operation does to it. */
module LedgerSupply {
  import opened Base
  import opened Ledger
  import opened LedgerLaws

  /** What an account is worth at `now`, emission included, without saturation. */
  ghost function Worth(a: Account, now: u64): nat { a.settled + PendingEmission(a, now) }

  ghost function Pick(m: map<Address, Account>): (k: Address)
    requires m != map[]
    ensures k in m
  {
    assert |m| > 0;
    var k :| k in m;
    k
  }

  ghost function TotalWorth(m: map<Address, Account>, now: u64): nat
    decreases |m|
  {
    if m == map[] then 0 else Worth(m[Pick(m)], now) + TotalWorth(m - {Pick(m)}, now)
  }

  /** Collateral still held by a stream; a stopped stream has handed everything back. */
  ghost function Locked(s: Stream): nat { if s.status.Stopped? then 0 else SatSub(s.deposit, s.drawn) }

  ghost function TotalLocked(streams: seq<Stream>): nat {
    if streams == [] then 0 else Locked(streams[0]) + TotalLocked(streams[1..])
  }

  ghost function Supply(l: Ledger, now: u64): nat { TotalWorth(l.accounts, now) + TotalLocked(l.streams) }

  /** Solvency of one stream: it never pays out more than its deposit, a completed one has paid all of
      it, and a stopped one can never accrue past what it had paid when it stopped. */
  ghost predicate StreamOk(s: Stream) {
    && s.drawn <= s.deposit
    && s.from != s.to
    && (s.status.Completed? ==> s.drawn == s.deposit)
    && (s.status.Stopped? ==> Accrued(s, s.status.at) <= s.drawn)
  }

  ghost predicate StreamsOk(l: Ledger) { forall i :: 0 <= i < |l.streams| ==> StreamOk(l.streams[i]) }

  // ---------------------------------------------------------------- sums

  lemma {:induction false} TotalWorthSplit(m: map<Address, Account>, k: Address, now: u64)
    requires k in m
    ensures TotalWorth(m, now) == Worth(m[k], now) + TotalWorth(m - {k}, now)
    decreases |m|
  {
    var p := Pick(m);
    if p != k {
      assert |m - {p}| < |m|;
      TotalWorthSplit(m - {p}, k, now);
      TotalWorthSplit(m - {k}, p, now);
      assert m - {p} - {k} == m - {k} - {p};
    }
  }

  lemma TotalWorthPut(l: Ledger, a: Address, acct: Account, now: u64)
    ensures TotalWorth(Put(l, a, acct).accounts, now)
         == TotalWorth(l.accounts, now) - Worth(Lookup(l, a), now) + Worth(acct, now)
    ensures Worth(Lookup(l, a), now) <= TotalWorth(l.accounts, now)
  {
    TotalWorthSplit(Put(l, a, acct).accounts, a, now);
    if a in l.accounts {
      TotalWorthSplit(l.accounts, a, now);
      assert Put(l, a, acct).accounts - {a} == l.accounts - {a};
    } else {
      assert Put(l, a, acct).accounts - {a} == l.accounts;
    }
  }

  lemma {:induction false} TotalLockedUpdate(streams: seq<Stream>, id: nat, s: Stream)
    requires id < |streams|
    ensures TotalLocked(streams[id := s]) == TotalLocked(streams) - Locked(streams[id]) + Locked(s)
  {
    if id == 0 {
      assert streams[id := s][1..] == streams[1..];
    } else {
      assert streams[id := s][1..] == streams[1..][id - 1 := s];
      TotalLockedUpdate(streams[1..], id - 1, s);
    }
  }

  lemma {:induction false} TotalLockedOpen(streams: seq<Stream>, s: Stream)
    ensures TotalLocked(streams + [s]) == TotalLocked(streams) + Locked(s)
  {
    if streams != [] {
      assert (streams + [s])[1..] == streams[1..] + [s];
      TotalLockedOpen(streams[1..], s);
    }
  }

  // ---------------------------------------------------------------- steps

  lemma SettleKeepsWorth(a: Account, now: u64)
    requires Worth(a, now) <= U128_MAX
    ensures Settle(a, now).settled == Worth(a, now) == Worth(Settle(a, now), now)
  {
    SettleIsInvisible(a, now);
  }

  lemma StoppedNeverOwes(s: Stream, now: u64)
    requires StreamOk(s) && s.status.Stopped?
    ensures Owed(s, now) == 0
  {
    AccruedClosedForm(s, now);
    AccruedClosedForm(s, s.status.at);
    MulMonotone(s.rate, SatSub(Horizon(s, now), s.startedAt), SatSub(s.status.at, s.startedAt));
  }

  lemma DrainedIsOk(s: Stream, now: u64)
    requires StreamOk(s)
    ensures StreamOk(Drained(s, now))
    ensures Locked(Drained(s, now)) + Owed(s, now) == Locked(s)
  {
    AccruedIsMonotone(s, now, now);
    if s.status.Stopped? { StoppedNeverOwes(s, now); }
  }

  lemma SettleStreamConserves(l: Ledger, id: nat, now: u64)
    requires id < |l.streams| && StreamsOk(l) && Supply(l, now) <= U128_MAX
    ensures StreamsOk(SettleStream(l, id, now))
    ensures Supply(SettleStream(l, id, now), now) == Supply(l, now)
  {
    var s := l.streams[id];
    DrainedIsOk(s, now);
    TotalLockedUpdate(l.streams, id, Drained(s, now));
    LockedIsCounted(l.streams, id);
    var recipient := Settle(Lookup(l, s.to), now);
    var paid := recipient.(settled := SatAdd(recipient.settled, Owed(s, now)));
    TotalWorthPut(l, s.to, paid, now);
    SettleKeepsWorth(Lookup(l, s.to), now);
  }

  lemma {:induction false} LockedIsCounted(streams: seq<Stream>, id: nat)
    requires id < |streams|
    ensures Locked(streams[id]) <= TotalLocked(streams)
  {
    if id > 0 { LockedIsCounted(streams[1..], id - 1); }
  }

  lemma {:induction false} SettleIncomingConserves(l: Ledger, a: Address, now: u64, id: nat)
    requires id <= |l.streams| && StreamsOk(l) && Supply(l, now) <= U128_MAX
    ensures StreamsOk(SettleIncomingFrom(l, a, now, id))
    ensures Supply(SettleIncomingFrom(l, a, now, id), now) == Supply(l, now)
    decreases |l.streams| - id
  {
    if id < |l.streams| {
      if l.streams[id].to == a {
        SettleStreamConserves(l, id, now);
        SettleIncomingConserves(SettleStream(l, id, now), a, now, id + 1);
      } else {
        SettleIncomingConserves(l, a, now, id + 1);
      }
    }
  }

  lemma WorthIsCounted(l: Ledger, a: Address, now: u64)
    ensures Worth(Lookup(l, a), now) <= Supply(l, now)
  {
    TotalWorthPut(l, a, FRESH, now);
  }

  /** Debiting one account and crediting another by the same worth. */
  lemma MoveConserves(l: Ledger, from: Address, debited: Account, to: Address, credited: Account, value: nat, now: u64)
    requires from != to
    requires Worth(debited, now) + value == Worth(Lookup(l, from), now)
    requires Worth(credited, now) == Worth(Lookup(l, to), now) + value
    ensures Supply(Put(Put(l, from, debited), to, credited), now) == Supply(l, now)
  {
    TotalWorthPut(l, from, debited, now);
    TotalWorthPut(Put(l, from, debited), to, credited, now);
  }

  lemma SpentWorth(l: Ledger, from: Address, spent: u128, now: u64)
    requires Supply(l, now) <= U128_MAX
    ensures var sender := Settle(Lookup(l, from), now);
      && sender.settled == Worth(Lookup(l, from), now)
      && (spent <= sender.settled ==>
           Worth(sender.(settled := sender.settled - spent), now) + spent == Worth(Lookup(l, from), now))
  {
    WorthIsCounted(l, from, now);
    SettleKeepsWorth(Lookup(l, from), now);
  }

  lemma ReceivedWorth(l: Ledger, to: Address, received: u128, now: u64)
    requires Supply(l, now) <= U128_MAX
    requires Worth(Lookup(l, to), now) + received <= U128_MAX
    ensures var r := Settle(Lookup(l, to), now);
      Worth(r.(settled := SatAdd(r.settled, received)), now) == Worth(Lookup(l, to), now) + received
  {
    SettleKeepsWorth(Lookup(l, to), now);
  }

  lemma TwoWorths(l: Ledger, a: Address, b: Address, now: u64)
    requires a != b
    ensures Worth(Lookup(l, a), now) + Worth(Lookup(l, b), now) <= Supply(l, now)
  {
    TotalWorthPut(l, a, FRESH, now);
    TotalWorthPut(Put(l, a, FRESH), b, FRESH, now);
  }

  /** A charge moves the fee from the sender to the treasury. The one payer it is not neutral for is the
      treasury itself: the two copies of its account are written one over the other and the credit wins. */
  lemma ChargeFeeConserves(l: Ledger, from: Address, gas: u64, now: u64)
    requires StreamsOk(l)
    requires Supply(l, now) + (if from == TREASURY then FeeForGas(gas) else 0) <= U128_MAX
    ensures var s := ChargeFee(l, from, gas, now);
      && StreamsOk(s.ledger)
      && Supply(s.ledger, now) == Supply(l, now) + if s.result.Ok? && from == TREASURY then FeeForGas(gas) else 0
  {
    hide PendingEmission, TotalWorth, TotalLocked;
    var fee := FeeForGas(gas);
    var l1 := SettleIncoming(l, from, now);
    SettleIncomingConserves(l, from, now, 0);
    SpentWorth(l1, from, fee, now);
    var sender := Settle(Lookup(l1, from), now);
    if fee <= sender.settled {
      if from != TREASURY { TwoWorths(l1, from, TREASURY, now); } else { WorthIsCounted(l1, from, now); }
      ReceivedWorth(l1, TREASURY, fee, now);
      var debited := sender.(settled := sender.settled - fee);
      var treasury := Settle(Lookup(l1, TREASURY), now);
      var credited := treasury.(settled := SatAdd(treasury.settled, fee));
      if from == TREASURY {
        TotalWorthPut(l1, from, if fee == 0 then debited else credited, now);
        assert Put(Put(l1, from, debited), TREASURY, credited) == Put(l1, TREASURY, credited);
      } else if fee == 0 {
        TotalWorthPut(l1, from, debited, now);
      } else {
        MoveConserves(l1, from, debited, TREASURY, credited, fee, now);
      }
    }
  }

  lemma TransferConserves(l: Ledger, from: Address, to: Address, value: u128, nonce: u64, now: u64)
    requires StreamsOk(l) && Supply(l, now) <= U128_MAX
    ensures var s := ApplyTransfer(l, from, to, value, nonce, now);
      StreamsOk(s.ledger) && Supply(s.ledger, now) == Supply(l, now)
  {
    var l1 := SettleIncoming(l, from, now);
    SettleIncomingConserves(l, from, now, 0);
    SpentWorth(l1, from, value, now);
    var s := ApplyTransfer(l, from, to, value, nonce, now);
    if s.result.Ok? {
      var sender := Settle(Lookup(l1, from), now);
      if from == to {
        TotalWorthPut(l1, from, sender.(nonce := Next64(sender.nonce)), now);
      } else {
        TwoWorths(l1, from, to, now);
        ReceivedWorth(l1, to, value, now);
        var debited := sender.(settled := sender.settled - value, nonce := Next64(sender.nonce));
        var recipient := Settle(Lookup(l1, to), now);
        MoveConserves(l1, from, debited, to, recipient.(settled := SatAdd(recipient.settled, value)), value, now);
      }
    }
  }

  lemma OpenConserves(l: Ledger, from: Address, to: Address, rate: u128, deposit: u128, now: u64)
    requires StreamsOk(l) && Supply(l, now) <= U128_MAX
    ensures var s := OpenStream(l, from, to, rate, deposit, now);
      StreamsOk(s.ledger) && Supply(s.ledger, now) == Supply(l, now)
  {
    TotalWorthPut(l, from, FRESH, now);
    SettleKeepsWorth(Lookup(l, from), now);
    var sender := Settle(Lookup(l, from), now);
    if OpenStream(l, from, to, rate, deposit, now).result.Ok? {
      TotalWorthPut(l, from, sender.(settled := sender.settled - deposit), now);
      TotalLockedOpen(l.streams, Stream(from, to, rate, deposit, 0, now, Active));
    }
  }

  lemma StoppedIsOk(s: Stream, now: u64)
    requires StreamOk(s) && !s.status.Stopped?
    ensures StreamOk(Drained(s, now).(status := Stopped(now)))
  {
    var d := Drained(s, now).(status := Stopped(now));
    DrainedIsOk(s, now);
    AccruedClosedForm(s, now);
    AccruedClosedForm(d, now);
  }

  /** Stopping pays the recipient what accrued, refunds the rest, and conserves the total. */
  lemma StopConserves(l: Ledger, id: nat, caller: Address, now: u64)
    requires StreamsOk(l) && Supply(l, now) <= U128_MAX
    ensures var s := StopStream(l, id, caller, now);
      && StreamsOk(s.ledger)
      && Supply(s.ledger, now) == Supply(l, now)
      && (s.result.Ok? ==>
            s.result.value == l.streams[id].deposit - Max(Accrued(l.streams[id], now), l.streams[id].drawn))
  {
    if StopStream(l, id, caller, now).result.Ok? {
      var l1 := SettleStream(l, id, now);
      SettleStreamConserves(l, id, now);
      StoppedIsOk(l.streams[id], now);
      AccruedIsMonotone(l.streams[id], now, now);
      var s := l1.streams[id];
      TotalLockedUpdate(l1.streams, id, s.(status := Stopped(now)));
      LockedIsCounted(l1.streams, id);
      TotalWorthPut(l1, s.from, FRESH, now);
      SettleKeepsWorth(Lookup(l1, s.from), now);
      var sender := Settle(Lookup(l1, s.from), now);
      TotalWorthPut(l1, s.from, sender.(settled := SatAdd(sender.settled, SatSub(s.deposit, s.drawn))), now);
    }
  }
}
