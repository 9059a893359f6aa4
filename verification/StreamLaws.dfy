/** What opening and stopping a stream does to the balances a node reports (crates/runtime/src/lib.rs). */
module StreamLaws {
  import opened Base
  import opened Ledger
  import opened LedgerLaws
  import opened LedgerSupply

  // ---------------------------------------------------------------- no saturation below the supply bound

  lemma OwedIsLocked(s: Stream, now: u64)
    requires StreamOk(s)
    ensures Owed(s, now) <= Locked(s)
  {
    hide Accrued;
    AccruedIsMonotone(s, now, now);
    if s.status.Stopped? { StoppedNeverOwes(s, now); }
  }

  lemma {:induction false} InflowIsLocked(streams: seq<Stream>, a: Address, now: u64)
    requires forall i :: 0 <= i < |streams| ==> StreamOk(streams[i])
    ensures ExactInflow(streams, a, now) <= TotalLocked(streams)
  {
    if streams != [] {
      hide StreamOk, Owed, Locked;
      OwedIsLocked(streams[0], now);
      InflowIsLocked(streams[1..], a, now);
    }
  }

  /** A reported balance is part of the supply, so it is exact while the supply fits its width. */
  lemma ReportedIsExact(l: Ledger, a: Address, now: u64)
    requires StreamsOk(l) && Supply(l, now) <= U128_MAX
    ensures LiveBalance(l, a, now) == ExactBalance(l, a, now) <= Supply(l, now)
    ensures AccountBalance(Lookup(l, a), now) == Worth(Lookup(l, a), now)
  {
    InflowIsLocked(l.streams, a, now);
    LiveBalanceIsExact(l, a, now);
    TotalWorthPut(l, a, Lookup(l, a), now);
  }

  // ---------------------------------------------------------------- opening

  lemma OpenDecision(l: Ledger, from: Address, to: Address, rate: u128, deposit: u128, now: u64)
    ensures var s := OpenStream(l, from, to, rate, deposit, now);
      && (s.result.Ok? <==>
            from != to && 0 < rate <= MAX_RATE && 0 < deposit <= AccountBalance(Lookup(l, from), now))
      && (s.result.Err? ==> s.ledger == l)
      && (s.result.Ok? ==>
            && s.result.value == |l.streams|
            && s.ledger.streams == l.streams + [Stream(from, to, rate, deposit, 0, now, Active)])
  {
  }

  /** What a fresh stream has paid by `t`. */
  function Paid(rate: u128, deposit: u128, elapsed: nat): nat { Min(rate * elapsed, deposit) }

  lemma FreshStreamOwes(from: Address, to: Address, rate: u128, deposit: u128, now: u64, t: u64)
    requires now <= t
    ensures Owed(Stream(from, to, rate, deposit, 0, now, Active), t) == Paid(rate, deposit, t - now)
  {
    AccruedClosedForm(Stream(from, to, rate, deposit, 0, now, Active), t);
  }

  /** Opening takes the deposit from the sender and nothing from anybody else, and from then on the recipient's
      balance climbs at the rate until the deposit is drained. */
  lemma OpenMeaning(l: Ledger, from: Address, to: Address, rate: u128, deposit: u128, now: u64, b: Address, t: u64)
    requires StreamsOk(l) && Supply(l, now) <= U128_MAX && now <= t
    requires OpenStream(l, from, to, rate, deposit, now).result.Ok?
    ensures var r := OpenStream(l, from, to, rate, deposit, now).ledger;
      && LiveBalance(r, b, now) == LiveBalance(l, b, now) - (if b == from then deposit else 0)
      && (b != from ==>
            ExactBalance(r, b, t) == ExactBalance(l, b, t) + if b == to then Paid(rate, deposit, t - now) else 0)
  {
    hide Owed, Supply, StreamsOk;
    var r := OpenStream(l, from, to, rate, deposit, now).ledger;
    var s := Stream(from, to, rate, deposit, 0, now, Active);
    OpenDecision(l, from, to, rate, deposit, now);
    OpenConserves(l, from, to, rate, deposit, now);
    ReportedIsExact(l, b, now);
    ReportedIsExact(r, b, now);
    FreshStreamOwes(from, to, rate, deposit, now, now);
    FreshStreamOwes(from, to, rate, deposit, now, t);
    InflowAfterOpen(l.streams, s, b, now);
    InflowAfterOpen(l.streams, s, b, t);
    if b == from {
      SettleIsInvisible(Lookup(l, from), now);
    }
  }

  // ---------------------------------------------------------------- stopping

  lemma StopDecision(l: Ledger, id: nat, caller: Address, now: u64)
    ensures var s := StopStream(l, id, caller, now);
      && (s.result.Ok? <==> id < |l.streams| && l.streams[id].from == caller && l.streams[id].status.Active?)
      && (s.result.Err? ==> s.ledger == l)
  {
  }

  /** A stream once stopped owes nothing at any time. */
  lemma StoppedForGood(l: Ledger, id: nat, caller: Address, now: u64, t: u64)
    requires StreamsOk(l) && Supply(l, now) <= U128_MAX && StopStream(l, id, caller, now).result.Ok?
    ensures var r := StopStream(l, id, caller, now).ledger;
      |r.streams| == |l.streams| && r.streams[id].status == Stopped(now) && Owed(r.streams[id], t) == 0
  {
    hide Supply, Owed, Accrued;
    StopConserves(l, id, caller, now);
    var r := StopStream(l, id, caller, now).ledger;
    assert StreamOk(r.streams[id]);
    StoppedNeverOwes(r.streams[id], t);
  }

  lemma StopStreams(l: Ledger, id: nat, caller: Address, now: u64)
    requires StopStream(l, id, caller, now).result.Ok?
    ensures StopStream(l, id, caller, now).ledger.streams
         == l.streams[id := Drained(l.streams[id], now).(status := Stopped(now))]
  {
  }

  lemma CreditedWorth(a: Account, x: u128, now: u64)
    requires Worth(a, now) + x <= U128_MAX
    ensures var settled := Settle(a, now);
      Worth(settled.(settled := SatAdd(settled.settled, x)), now) == Worth(a, now) + x
  {
    SettleKeepsWorth(a, now);
  }

  lemma StopAccounts(l: Ledger, id: nat, caller: Address, now: u64, b: Address)
    requires StopStream(l, id, caller, now).result.Ok? && StreamOk(l.streams[id])
    requires Worth(Lookup(l, l.streams[id].to), now) + Owed(l.streams[id], now) <= U128_MAX
    requires Worth(Lookup(l, caller), now) + l.streams[id].deposit - l.streams[id].drawn <= U128_MAX
    ensures var s := StopStream(l, id, caller, now);
      Worth(Lookup(s.ledger, b), now) == Worth(Lookup(l, b), now)
        + (if b == caller then s.result.value else 0)
        + (if b == l.streams[id].to then Owed(l.streams[id], now) else 0)
  {
    hide Owed, Settle, Worth;
    var s := StopStream(l, id, caller, now);
    DrainedOwesNothing(l.streams[id], now);
    assert s.result.value <= l.streams[id].deposit - l.streams[id].drawn;
    CreditedWorth(Lookup(l, l.streams[id].to), Owed(l.streams[id], now), now);
    CreditedWorth(Lookup(l, caller), s.result.value, now);
  }

  /** Stopping hands the rest of the deposit back to the sender; nobody else's reported balance changes, the
      recipient's included, for what it was owed was reported already. */
  lemma StopMeaning(l: Ledger, id: nat, caller: Address, now: u64, b: Address)
    requires StreamsOk(l) && Supply(l, now) <= U128_MAX && StopStream(l, id, caller, now).result.Ok?
    ensures var s := StopStream(l, id, caller, now);
      && s.result.value == l.streams[id].deposit - Max(Accrued(l.streams[id], now), l.streams[id].drawn)
      && LiveBalance(s.ledger, b, now) == LiveBalance(l, b, now) + if b == caller then s.result.value else 0
  {
    var s := StopStream(l, id, caller, now);
    StopConserves(l, id, caller, now);
    StoppedForGood(l, id, caller, now, now);
    StopStreams(l, id, caller, now);
    StopRoom(l, id, now);
    StopAccounts(l, id, caller, now, b);
    InflowAfterUpdate(l.streams, id, s.ledger.streams[id], b, now);
    hide Supply, Owed, Accrued, Drained;
    ReportedIsExact(l, b, now);
    ReportedIsExact(s.ledger, b, now);
  }

  lemma StopRoom(l: Ledger, id: nat, now: u64)
    requires StreamsOk(l) && Supply(l, now) <= U128_MAX && id < |l.streams| && !l.streams[id].status.Stopped?
    ensures Worth(Lookup(l, l.streams[id].to), now) + Owed(l.streams[id], now) <= U128_MAX
    ensures Worth(Lookup(l, l.streams[id].from), now) + l.streams[id].deposit - l.streams[id].drawn <= U128_MAX
  {
    OwedIsLocked(l.streams[id], now);
    LockedIsCounted(l.streams, id);
    TotalWorthPut(l, l.streams[id].to, Lookup(l, l.streams[id].to), now);
    TotalWorthPut(l, l.streams[id].from, Lookup(l, l.streams[id].from), now);
  }

  /** Opening a stream and stopping it later splits the deposit exactly: what flowed goes to the recipient and
      the rest comes back. */
  lemma OpenThenStop(l: Ledger, from: Address, to: Address, rate: u128, deposit: u128, start: u64, stop: u64)
    requires StreamsOk(l) && start <= stop && Supply(l, start) <= U128_MAX
    requires OpenStream(l, from, to, rate, deposit, start).result.Ok?
    requires Supply(OpenStream(l, from, to, rate, deposit, start).ledger, stop) <= U128_MAX
    ensures var open := OpenStream(l, from, to, rate, deposit, start);
      var s := StopStream(open.ledger, open.result.value, from, stop);
      && s.result == Ok(deposit - Paid(rate, deposit, stop - start))
      && LiveBalance(s.ledger, to, stop) == ExactBalance(l, to, stop) + Paid(rate, deposit, stop - start)
  {
    hide Supply, Owed;
    var open := OpenStream(l, from, to, rate, deposit, start);
    OpenDecision(l, from, to, rate, deposit, start);
    OpenConserves(l, from, to, rate, deposit, start);
    OpenMeaning(l, from, to, rate, deposit, start, to, stop);
    StopDecision(open.ledger, open.result.value, from, stop);
    StopMeaning(open.ledger, open.result.value, from, stop, to);
    AccruedClosedForm(open.ledger.streams[open.result.value], stop);
    ReportedIsExact(open.ledger, to, stop);
  }
}
