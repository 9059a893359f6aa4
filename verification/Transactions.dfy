/** What a submitted transaction means to its sender, end to end: fee, settlement, nonce and op together. */
module Transactions {
  import opened Base
  import opened L = Ledger
  import opened LedgerLaws
  import opened World
  import opened Kernel
  import Nonces
  import Failures
  import opened Runs

  lemma ChargedTransferDecision(l: L.Ledger, tx: KernelTx, now: u64)
    requires tx.kind.Transfer?
    ensures var fee, have := FeeForGas(Gas(tx.kind)), LiveBalance(l, tx.from, now);
      var c := ChargeFee(l, tx.from, Gas(tx.kind), now);
      && (c.result.Ok? <==> fee <= have)
      && (c.result.Ok? ==>
           (ApplyTransfer(c.ledger, tx.from, tx.kind.to, tx.kind.value, tx.nonce, now).result.Ok? <==>
              tx.nonce == Lookup(l, tx.from).nonce && tx.kind.value <= AfterFee(tx.from, tx.from, have, fee)))
  {
    hide LiveBalance, ChargeFee, ApplyTransfer;
    var c := ChargeFee(l, tx.from, Gas(tx.kind), now);
    ChargeFeeMeaning(l, tx.from, Gas(tx.kind), now, tx.from);
    TransferDecision(c.ledger, tx.from, tx.kind.to, tx.kind.value, tx.nonce, now);
  }

  /** A transfer transaction is dropped exactly when the balance the node reports for the sender does not
      cover the fee, and commits exactly when its nonce is the stored one and what the fee leaves covers the
      value: everything the node reports as a balance, streamed inflow included, can be spent. */
  lemma TransferTxDecision(seams: Seams, b: Block, w: World, tx: KernelTx)
    requires tx.kind.Transfer?
    ensures var r := ApplyTx(seams, b, w, tx);
      var fee := FeeForGas(Gas(tx.kind)); var have := LiveBalance(w.ledger, tx.from, b.timestamp);
      && !r.TxPanic?
      && (r.Dropped? <==> have < fee)
      && (r.Mined? ==>
           (r.outcome.success <==>
              tx.nonce == Lookup(w.ledger, tx.from).nonce && tx.kind.value <= AfterFee(tx.from, tx.from, have, fee)))
  {
    hide LiveBalance, ChargeFee, ApplyTransfer;
    ChargedTransferDecision(w.ledger, tx, b.timestamp);
  }

  /** Reported balances after a committed transfer: the fee, then the value, which stays where it is when a
      sender pays itself. */
  lemma TransferTxMoves(seams: Seams, b: Block, w: World, tx: KernelTx, x: Address)
    requires tx.kind.Transfer?
    requires var r := ApplyTx(seams, b, w, tx); r.Mined? && r.outcome.success
    ensures var paid := AfterFee(tx.from, x, LiveBalance(w.ledger, x, b.timestamp), FeeForGas(Gas(tx.kind)));
      LiveBalance(ApplyTx(seams, b, w, tx).world.ledger, x, b.timestamp) ==
        if tx.from == tx.kind.to then paid
        else if x == tx.from then paid - tx.kind.value
        else if x == tx.kind.to then SatAdd(paid, tx.kind.value)
        else paid
  {
    hide LiveBalance, ChargeFee, ApplyTransfer;
    var now := b.timestamp;
    ChargeFeeMeaning(w.ledger, tx.from, Gas(tx.kind), now, x);
    var c := ChargeFee(w.ledger, tx.from, Gas(tx.kind), now);
    TransferMeaning(c.ledger, tx.from, tx.kind.to, tx.kind.value, tx.nonce, now, x);
  }

  /** Opening a stream draws on the settled balance only, but the fee charged in the same transaction has
      just folded the sender's inflow into it: here too the whole reported balance can be spent. */
  lemma OpenStreamTxDecision(seams: Seams, b: Block, w: World, tx: KernelTx)
    requires tx.kind.OpenStream?
    ensures var r := ApplyTx(seams, b, w, tx);
      var fee := FeeForGas(Gas(tx.kind)); var have := LiveBalance(w.ledger, tx.from, b.timestamp);
      && !r.TxPanic?
      && (r.Dropped? <==> have < fee)
      && (r.Mined? ==>
           (r.outcome.success <==>
              && tx.nonce == Lookup(w.ledger, tx.from).nonce
              && tx.kind.recipient != tx.from && 0 < tx.kind.rate <= MAX_RATE
              && 0 < tx.kind.deposit <= AfterFee(tx.from, tx.from, have, fee)))
  {
    hide LiveBalance, ChargeFee, Settle;
    var now := b.timestamp;
    ChargeFeeMeaning(w.ledger, tx.from, Gas(tx.kind), now, tx.from);
    var c := ChargeFee(w.ledger, tx.from, Gas(tx.kind), now);
    if c.result.Ok? {
      ChargeFeeSettles(w.ledger, tx.from, Gas(tx.kind), now);
      SettledIsReported(c.ledger, tx.from, now);
      var acct := Lookup(c.ledger, tx.from);
      SettledBump(acct, now);
    }
  }

  lemma SettledIsReported(l: L.Ledger, a: Address, now: u64)
    requires IsSettled(l, a, now)
    ensures Lookup(l, a).settled == LiveBalance(l, a, now)
  {
    NoInflowOnceSettled(l.streams, a, now);
    LiveBalanceIsExact(l, a, now);
    SettleIsInvisible(Lookup(l, a), now);
  }

  lemma SettledBump(a: Account, now: u64)
    requires Settle(a, now) == a
    ensures forall n: u64 {:trigger a.(nonce := n)} :: Settle(a.(nonce := n), now).settled == a.settled
  {
  }

  // ---------------------------------------------------------------- stale nonces

  /** The reported balances a failed transaction leaves: the fee has moved and nothing else. */
  lemma FailedTxMoves(seams: Seams, b: Block, w: World, tx: KernelTx, x: Address)
    requires var r := ApplyTx(seams, b, w, tx); r.Mined? && !r.outcome.success
    ensures LiveBalance(ApplyTx(seams, b, w, tx).world.ledger, x, b.timestamp)
         == AfterFee(tx.from, x, LiveBalance(w.ledger, x, b.timestamp), FeeForGas(Gas(tx.kind)))
  {
    hide ApplyTx, ChargeFee, LiveBalance;
    var c := ChargeFee(w.ledger, tx.from, Gas(tx.kind), b.timestamp);
    MinedWasCharged(seams, b, w, tx);
    Failures.FailedTxPostState(seams, b, w, tx);
    ChargeFeeMeaning(w.ledger, tx.from, Gas(tx.kind), b.timestamp, x);
    BumpIsInvisible(c.ledger, tx.from, Next64(tx.nonce), b.timestamp, x);
  }

  lemma MinedWasCharged(seams: Seams, b: Block, w: World, tx: KernelTx)
    ensures ApplyTx(seams, b, w, tx).Mined? ==> ChargeFee(w.ledger, tx.from, Gas(tx.kind), b.timestamp).result.Ok?
  {
    hide ChargeFee, ApplyOne;
  }

  lemma BumpIsInvisible(l: L.Ledger, a: Address, n: u64, now: u64, x: Address)
    ensures LiveBalance(Put(l, a, Lookup(l, a).(nonce := n)), x, now) == LiveBalance(l, x, now)
  {
    LiveBalanceAfterPut(l, a, Lookup(l, a).(nonce := n), x, now);
  }

  /** The family the nonce rule excludes. A charged transaction two or more behind its sender, or at the last nonce,
      resets the stored nonce to just past its own, and the transaction that had used that nonce is accepted
      again. */
  lemma StaleTxReopensNonce(seams: Seams, b: Block, w: World, stale: KernelTx, again: KernelTx)
    requires stale.from == again.from && again.kind.Transfer? && again.nonce == Next64(stale.nonce)
    requires Next64(stale.nonce) < Lookup(w.ledger, stale.from).nonce && !IsEscrow(stale.from)
    requires ApplyTx(seams, b, w, stale).Mined?
    requires var have := LiveBalance(ApplyTx(seams, b, w, stale).world.ledger, again.from, b.timestamp);
      var fee := FeeForGas(Gas(again.kind));
      fee <= have && again.kind.value <= AfterFee(again.from, again.from, have, fee)
    ensures var w1 := ApplyTx(seams, b, w, stale).world;
      && Lookup(w1.ledger, stale.from).nonce < Lookup(w.ledger, stale.from).nonce
      && var r := ApplyTx(seams, b, w1, again); r.Mined? && r.outcome.success
  {
    hide ApplyTx, LiveBalance;
    Nonces.TxNonces(seams, b, w, stale);
    TransferTxDecision(seams, b, ApplyTx(seams, b, w, stale).world, again);
  }

  /** A funded account 1 at nonce 1 in an otherwise empty world. */
  const ONE_ACCOUNT: World := World(
    L.Ledger(map[1 := Account(false, 0, UBI, 0, 1)], []), Humanity(map[], {}, [], {}, {}), Contracts([], []),
    Passports({}, map[], map[], None, map[], map[], None))

  const PAYMENT: KernelTx := KernelTx(7, 1, 1, 0, Transfer(2, 5))
  const STALE: KernelTx := KernelTx(8, 1, 0, 0, Transfer(2, 5))

  lemma OneAccountBalance(now: u64)
    ensures LiveBalance(ONE_ACCOUNT.ledger, 1, now) == UBI && !IsEscrow(1)
  {
    LiveBalanceIsExact(ONE_ACCOUNT.ledger, 1, now);
  }

  lemma PaymentFee()
    ensures FeeForGas(Gas(PAYMENT.kind)) == FeeForGas(Gas(STALE.kind)) == 21_000_000_000_000
  {
  }

  /** At that input: the payment commits, a stale transaction is mined and fails, and the same payment commits a
      second time. */
  lemma StaleTxReplays(seams: Seams, b: Block)
    ensures var events := [Tx(b, PAYMENT), Tx(b, STALE), Tx(b, PAYMENT)];
      && Run(seams, ONE_ACCOUNT, events).Some?
      && Commits(seams, Before(seams, ONE_ACCOUNT, events, 0), events[0])
      && Commits(seams, Before(seams, ONE_ACCOUNT, events, 2), events[2])
  {
    hide ApplyTx, LiveBalance, FeeForGas, Gas, IsEscrow;
    var w := ONE_ACCOUNT;
    OneAccountBalance(b.timestamp);
    PaymentFee();
    TransferTxDecision(seams, b, w, PAYMENT);
    TransferTxMoves(seams, b, w, PAYMENT, 1);
    Nonces.TxNoncesAreExact(seams, b, w, PAYMENT);
    var w1 := ApplyTx(seams, b, w, PAYMENT).world;
    TransferTxDecision(seams, b, w1, STALE);
    FailedTxMoves(seams, b, w1, STALE, 1);
    StaleTxReopensNonce(seams, b, w1, STALE, PAYMENT);
    ThreeEvents(seams, w, Tx(b, PAYMENT), Tx(b, STALE), Tx(b, PAYMENT));
  }

  /** A transaction at the last 64-bit nonce. */
  const LAST: KernelTx := KernelTx(10, 1, U64_MAX, 0, Transfer(2, 5))

  /** At that input: nonces 1 and then the last one are in increasing order, the second is mined and fails, and the
      count starts again at 0, so that the first payment commits again in its turn. */
  lemma LastNonceReopensAll(seams: Seams, b: Block)
    ensures var events := [Tx(b, PAYMENT), Tx(b, LAST), Tx(b, STALE), Tx(b, PAYMENT)];
      && Run(seams, ONE_ACCOUNT, events).Some?
      && Commits(seams, Before(seams, ONE_ACCOUNT, events, 0), events[0])
      && Lookup(Before(seams, ONE_ACCOUNT, events, 2).ledger, 1).nonce == 0
      && Commits(seams, Before(seams, ONE_ACCOUNT, events, 3), events[3])
  {
    hide ApplyTx, LiveBalance, FeeForGas, Gas, IsEscrow;
    var w := ONE_ACCOUNT;
    OneAccountBalance(b.timestamp);
    PaymentFee();
    assert FeeForGas(Gas(LAST.kind)) == FeeForGas(Gas(STALE.kind));
    TransferTxDecision(seams, b, w, PAYMENT);
    TransferTxMoves(seams, b, w, PAYMENT, 1);
    Nonces.TxNoncesAreExact(seams, b, w, PAYMENT);
    var w1 := ApplyTx(seams, b, w, PAYMENT).world;
    TransferTxDecision(seams, b, w1, LAST);
    FailedTxMoves(seams, b, w1, LAST, 1);
    Nonces.TxNoncesAreExact(seams, b, w1, LAST);
    var w2 := ApplyTx(seams, b, w1, LAST).world;
    TransferTxDecision(seams, b, w2, STALE);
    TransferTxMoves(seams, b, w2, STALE, 1);
    Nonces.TxNoncesAreExact(seams, b, w2, STALE);
    var w3 := ApplyTx(seams, b, w2, STALE).world;
    TransferTxDecision(seams, b, w3, PAYMENT);
    var events := [Tx(b, LAST), Tx(b, STALE), Tx(b, PAYMENT)];
    ThreeEvents(seams, w1, Tx(b, LAST), Tx(b, STALE), Tx(b, PAYMENT));
    assert [Tx(b, PAYMENT), Tx(b, LAST), Tx(b, STALE), Tx(b, PAYMENT)][1..] == events;
    assert Execute(seams, w, Tx(b, PAYMENT)) == Some(w1);
  }

  lemma ThreeEvents(seams: Seams, w: World, d: Event, e: Event, f: Event)
    requires Execute(seams, w, d).Some? && Execute(seams, Execute(seams, w, d).value, e).Some?
    requires Execute(seams, Execute(seams, Execute(seams, w, d).value, e).value, f).Some?
    ensures Run(seams, w, [d, e, f]).Some?
    ensures Before(seams, w, [d, e, f], 0) == w
    ensures Before(seams, w, [d, e, f], 1) == Execute(seams, w, d).value
    ensures Before(seams, w, [d, e, f], 2) == Execute(seams, Execute(seams, w, d).value, e).value
  {
    hide Execute;
    var w1 := Execute(seams, w, d).value;
    var w2 := Execute(seams, w1, e).value;
    var w3 := Execute(seams, w2, f).value;
    assert [d, e, f][1..] == [e, f] && [e, f][1..] == [f] && [f][1..] == [];
    assert Run(seams, w3, []) == Some(w3);
    assert Run(seams, w2, [f]).Some?;
    assert Run(seams, w1, [e, f]).Some?;
    assert Before(seams, w2, [f], 0) == w2;
    assert Before(seams, w1, [e, f], 1) == w2;
  }
}
