/** Accounts, emission, gas fees, transfers and collateralised streams (crates/runtime/src/lib.rs).

    Every operation is a function from a ledger to the ledger it leaves behind, on failure too: the
    source writes through `&mut dyn State`, and two of its operations write before they can fail. */
module Ledger {
  import opened Base

  /** One UBI in base units; one UBI is emitted per verified account and hour. */
  const UBI: u128 := 1_000_000_000_000_000_000
  const EMISSION_PERIOD_SECS: nat := 3_600
  const GAS_PRICE_WEI: nat := 1_000_000_000
  const MAX_RATE: nat := 1_000 * 1_000_000_000_000_000_000 / 3_600
  const TREASURY: Address := 0x5542

  /** `nonce` counts transactions, on 64 bits. */
  datatype Account = Account(
    verified: bool, verifiedAt: u64, settled: u128, lastSettledAt: u64, nonce: u64)

  const FRESH: Account := Account(false, 0, 0, 0, 0)

  datatype StreamStatus = Active | Stopped(at: u64) | Completed

  datatype Stream = Stream(
    from: Address, to: Address, rate: u128, deposit: u128, drawn: u128, startedAt: u64,
    status: StreamStatus)

  /** Stream ids are handed out in sequence and never freed, so an id is an index. */
  datatype Ledger = Ledger(accounts: map<Address, Account>, streams: seq<Stream>)

  datatype LedgerError =
    | BadNonce(expected: u64, got: u64)
    | InsufficientBalance(have: u128, need: u128)
    | SelfStream
    | ZeroRate
    | ZeroDeposit
    | RateTooHigh
    | NoSuchStream
    | NotSender
    | NotActive

  /** What an operation leaves behind, and what it answers. */
  datatype Step<+T> = Step(ledger: Ledger, result: Result<T, LedgerError>)

  // ---------------------------------------------------------------- accounts

  function PendingEmission(a: Account, now: u64): u128 {
    if !a.verified then 0
    else SatMul(UBI, SatSub(now, Max(a.lastSettledAt, a.verifiedAt))) / EMISSION_PERIOD_SECS
  }

  function AccountBalance(a: Account, now: u64): u128 {
    SatAdd(a.settled, PendingEmission(a, now))
  }

  function Settle(a: Account, now: u64): Account {
    a.(settled := AccountBalance(a, now), lastSettledAt := Max(now, a.lastSettledAt))
  }

  function Lookup(l: Ledger, a: Address): Account {
    if a in l.accounts then l.accounts[a] else FRESH
  }

  function Put(l: Ledger, a: Address, account: Account): Ledger {
    l.(accounts := l.accounts[a := account])
  }

  // ---------------------------------------------------------------- streams

  function TEnd(s: Stream): u64 {
    if s.rate == 0 then s.startedAt
    else
      SatAdd64(SatAdd64(s.startedAt, Min(s.deposit / s.rate, U64_MAX)),
               if s.deposit % s.rate > 0 then 1 else 0)
  }

  function EndOrStop(s: Stream): u64 {
    if s.status.Stopped? then Min(s.status.at, TEnd(s)) else TEnd(s)
  }

  /** Gross lifetime payout of a stream by `now`, capped at its deposit. */
  function Accrued(s: Stream, now: u64): u128 {
    Min(SatMul(s.rate, SatSub(Min(now, EndOrStop(s)), s.startedAt)), s.deposit)
  }

  function Owed(s: Stream, now: u64): u128 { SatSub(Accrued(s, now), s.drawn) }

  /** The record of a stream after paying out what it owes at `now`. */
  function Drained(s: Stream, now: u64): Stream {
    var drawn := SatAdd(s.drawn, Owed(s, now));
    s.(drawn := drawn, status := if drawn >= s.deposit && s.status.Active? then Completed else s.status)
  }

  function SettleStream(l: Ledger, id: nat, now: u64): Ledger
    requires id < |l.streams|
  {
    var s := l.streams[id];
    var recipient := Settle(Lookup(l, s.to), now);
    var paid := recipient.(settled := SatAdd(recipient.settled, Owed(s, now)));
    Put(l, s.to, paid).(streams := l.streams[id := Drained(s, now)])
  }

  /** `settle_incoming` from stream `id` on; the source visits incoming ids in increasing order. */
  function SettleIncomingFrom(l: Ledger, a: Address, now: u64, id: nat): (r: Ledger)
    requires id <= |l.streams|
    ensures |r.streams| == |l.streams|
    decreases |l.streams| - id
  {
    if id == |l.streams| then l
    else if l.streams[id].to == a then SettleIncomingFrom(SettleStream(l, id, now), a, now, id + 1)
    else SettleIncomingFrom(l, a, now, id + 1)
  }

  function SettleIncoming(l: Ledger, a: Address, now: u64): Ledger {
    SettleIncomingFrom(l, a, now, 0)
  }

  /** Inflow of `a` not yet folded into its settled balance, over the streams from `id` on. */
  function Inflow(l: Ledger, a: Address, now: u64, id: nat): u128
    requires id <= |l.streams|
    decreases |l.streams| - id
  {
    if id == |l.streams| then 0
    else if l.streams[id].to == a then SatAdd(Owed(l.streams[id], now), Inflow(l, a, now, id + 1))
    else Inflow(l, a, now, id + 1)
  }

  /** `State::balance`: what the node reports as the balance of `a` at `now`. */
  function LiveBalance(l: Ledger, a: Address, now: u64): u128 {
    SatAdd(AccountBalance(Lookup(l, a), now), Inflow(l, a, now, 0))
  }

  // ---------------------------------------------------------------- operations

  function FeeForGas(gas: u64): u128 { gas * GAS_PRICE_WEI }

  function ChargeFee(l: Ledger, from: Address, gas: u64, now: u64): Step<u128> {
    var fee := FeeForGas(gas);
    var l1 := SettleIncoming(l, from, now);
    var sender := Settle(Lookup(l1, from), now);
    if sender.settled < fee then Step(l1, Err(InsufficientBalance(sender.settled, fee)))
    else
      var debited := sender.(settled := sender.settled - fee);
      if fee == 0 then Step(Put(l1, from, debited), Ok(0))
      else
        var treasury := Settle(Lookup(l1, TREASURY), now);
        var credited := treasury.(settled := SatAdd(treasury.settled, fee));
        Step(Put(Put(l1, from, debited), TREASURY, credited), Ok(fee))
  }

  function ApplyTransfer(l: Ledger, from: Address, to: Address, value: u128, nonce: u64, now: u64): Step<Unit> {
    var l1 := SettleIncoming(l, from, now);
    var sender := Settle(Lookup(l1, from), now);
    if nonce != sender.nonce then Step(l1, Err(BadNonce(sender.nonce, nonce)))
    else if sender.settled < value then Step(l1, Err(InsufficientBalance(sender.settled, value)))
    else if from == to then Step(Put(l1, from, sender.(nonce := Next64(sender.nonce))), Ok(Unit))
    else
      var recipient := Settle(Lookup(l1, to), now);
      var debited := sender.(settled := sender.settled - value, nonce := Next64(sender.nonce));
      var credited := recipient.(settled := SatAdd(recipient.settled, value));
      Step(Put(Put(l1, from, debited), to, credited), Ok(Unit))
  }

  function OpenStream(l: Ledger, from: Address, to: Address, rate: u128, deposit: u128, now: u64): Step<nat> {
    if from == to then Step(l, Err(SelfStream))
    else if rate == 0 then Step(l, Err(ZeroRate))
    else if deposit == 0 then Step(l, Err(ZeroDeposit))
    else if rate > MAX_RATE then Step(l, Err(RateTooHigh))
    else
      var sender := Settle(Lookup(l, from), now);
      if sender.settled < deposit then Step(l, Err(InsufficientBalance(sender.settled, deposit)))
      else
        var stream := Stream(from, to, rate, deposit, 0, now, Active);
        Step(Put(l, from, sender.(settled := sender.settled - deposit)).(streams := l.streams + [stream]),
             Ok(|l.streams|))
  }

  /** Answers the refund. */
  function StopStream(l: Ledger, id: nat, caller: Address, now: u64): Step<u128> {
    if id >= |l.streams| then Step(l, Err(NoSuchStream))
    else if l.streams[id].from != caller then Step(l, Err(NotSender))
    else if !l.streams[id].status.Active? then Step(l, Err(NotActive))
    else
      var l1 := SettleStream(l, id, now);
      var s := l1.streams[id];
      var refund := SatSub(s.deposit, s.drawn);
      var sender := Settle(Lookup(l1, s.from), now);
      var refunded := sender.(settled := SatAdd(sender.settled, refund));
      Step(Put(l1, s.from, refunded).(streams := l1.streams[id := s.(status := Stopped(now))]), Ok(refund))
  }
}
