/** The one post-state of a failed transaction. */
module Failures {
  import opened Base
  import opened L = Ledger
  import opened LedgerLaws
  import opened World
  import opened Kernel
  import opened Humans
  import Lifecycle
  import PromptContracts

  /** The one registry call that writes before it can fail: a registration drops the subject's stale
      vouch edges, then finds that there is no juror to grade it. */
  predicate DropsEdgesBeforeFailing(w: World, tx: KernelTx) {
    && tx.kind.RequestVerification?
    && !Lifecycle.Registered(Lifecycle.StatusOf(w.humanity, tx.from))
    && w.humanity.jurors == {}
    && Lifecycle.ClearVouchEdges(w.humanity, tx.from) != w.humanity
  }

  lemma RegistryErrorIsNeutral(seams: Seams, b: Block, w: World, tx: KernelTx)
    requires !ConsumesOwnNonce(tx.kind) && !tx.kind.InvokeContract? && !tx.kind.SubmitEffect? && !tx.kind.SubmitVerdict?
    ensures var r := Dispatch(seams, b, w, tx);
      r.Ran? && r.result.Err? ==> (r.world == w <==> !DropsEdgesBeforeFailing(w, tx))
  {
  }

  lemma InvokeErrorIsNeutral(seams: Seams, b: Block, w: World, tx: KernelTx)
    requires tx.kind.InvokeContract? || tx.kind.SubmitEffect? || tx.kind.SubmitVerdict?
    ensures var r := Dispatch(seams, b, w, tx);
      r.Ran? && r.result.Err? ==> r.world == w
  {
    hide PromptContracts.ResolveCase, PromptContracts.NewExecCase, Lifecycle.Enforce;
  }

  lemma TransferErrorIsNeutral(seams: Seams, b: Block, w: World, tx: KernelTx)
    requires ConsumesOwnNonce(tx.kind) && IsSettled(w.ledger, tx.from, b.timestamp)
    ensures var r := Dispatch(seams, b, w, tx);
      r.Ran? && r.result.Err? ==> r.world == w
  {
    SettledIsFixed(w.ledger, tx.from, b.timestamp, 0);
    hide SettleIncomingFrom, Settle;
  }

  /** A runtime call that fails leaves the world as it found it, in exactly the worlds where it is not a
      registration dropping stale edges; the two kinds that transfer need their sender settled, which the
      fee has just done. */
  lemma ErrorIsNeutral(seams: Seams, b: Block, w: World, tx: KernelTx)
    requires IsSettled(w.ledger, tx.from, b.timestamp)
    ensures var r := Dispatch(seams, b, w, tx);
      r.Ran? && r.result.Err? ==> (r.world == w <==> !DropsEdgesBeforeFailing(w, tx))
  {
    hide Dispatch;
    if ConsumesOwnNonce(tx.kind) {
      TransferErrorIsNeutral(seams, b, w, tx);
    } else if tx.kind.InvokeContract? || tx.kind.SubmitEffect? || tx.kind.SubmitVerdict? {
      InvokeErrorIsNeutral(seams, b, w, tx);
    } else {
      RegistryErrorIsNeutral(seams, b, w, tx);
    }
  }

  /** In a world whose vouch edges are live the stale-edge case does not arise. */
  lemma LiveEdgesStay(w: World, tx: KernelTx)
    requires VouchesLive(w.humanity)
    ensures !DropsEdgesBeforeFailing(w, tx)
  {
    var h := w.humanity;
    if !Lifecycle.Registered(Lifecycle.StatusOf(h, tx.from)) {
      assert Lifecycle.ClearVouchEdges(h, tx.from).vouches == h.vouches;
    }
  }

  /** The charged world with nothing changed but the sender's nonce. */
  ghost function ChargedAndBumped(w: World, tx: KernelTx, now: u64): World {
    var charged := ChargeFee(w.ledger, tx.from, Gas(tx.kind), now).ledger;
    w.(ledger := Put(charged, tx.from, Lookup(charged, tx.from).(nonce := Next64(tx.nonce))))
  }

  lemma FailFixesNonce(w: World, tx: KernelTx, now: u64)
    requires IsSettled(w.ledger, tx.from, now)
    ensures Fail(w, tx, now).ledger == Put(w.ledger, tx.from, Lookup(w.ledger, tx.from).(nonce := Next64(tx.nonce)))
    ensures forall n: u64 {:trigger Put(w.ledger, tx.from, Lookup(w.ledger, tx.from).(nonce := n))} ::
      var l := Put(w.ledger, tx.from, Lookup(w.ledger, tx.from).(nonce := n));
      IsSettled(l, tx.from, now) && Fail(w.(ledger := l), tx, now) == Fail(w, tx, now)
  {
    forall n: u64 {:trigger Put(w.ledger, tx.from, Lookup(w.ledger, tx.from).(nonce := n))} ensures
      var l := Put(w.ledger, tx.from, Lookup(w.ledger, tx.from).(nonce := n));
      IsSettled(l, tx.from, now) && Fail(w.(ledger := l), tx, now) == Fail(w, tx, now)
    {
      var l := Put(w.ledger, tx.from, Lookup(w.ledger, tx.from).(nonce := n));
      SettleIgnoresNonce(Lookup(w.ledger, tx.from), n, now);
      assert Fail(w.(ledger := l), tx, now).ledger.accounts == Fail(w, tx, now).ledger.accounts;
    }
  }

  lemma SettleIgnoresNonce(a: Account, n: u64, now: u64)
    ensures Settle(a.(nonce := n), now) == Settle(a, now).(nonce := n)
  {
  }

  /** Whichever way a charged transaction fails - on the nonce check, in the transfer path, or in a
      hub call after its nonce was consumed - the world afterwards is the charged one with the sender's
      nonce set just past the transaction, and nothing else changed; except that a registration whose
      nonce was right may have dropped stale vouch edges. */
  lemma FailedTxPostState(seams: Seams, b: Block, w: World, tx: KernelTx)
    ensures var r := ApplyTx(seams, b, w, tx); var c := ChargedAndBumped(w, tx, b.timestamp);
      r.Mined? && !r.outcome.success ==>
        && r.world == c.(humanity := r.world.humanity)
        && (r.world == c <==> !(DropsEdgesBeforeFailing(w, tx) && tx.nonce == Lookup(w.ledger, tx.from).nonce))
  {
    hide Dispatch, ChargeFee, Settle;
    var now := b.timestamp;
    var charged := ChargeFee(w.ledger, tx.from, Gas(tx.kind), now);
    ChargeFeeDecision(w.ledger, tx.from, Gas(tx.kind), now, tx.from);
    if charged.result.Ok? {
      ChargeFeeSettles(w.ledger, tx.from, Gas(tx.kind), now);
      var w1 := w.(ledger := charged.ledger);
      FailFixesNonce(w1, tx, now);
      if ConsumesOwnNonce(tx.kind) {
        ErrorIsNeutral(seams, b, w1, tx);
      } else {
        var a := ConsumeNonce(w1, tx.from, tx.nonce, now);
        if a.result.Ok? {
          var acct := Lookup(w1.ledger, tx.from);
          assert a.world.ledger == Put(w1.ledger, tx.from, acct.(nonce := Next64(tx.nonce)));
          ErrorIsNeutral(seams, b, a.world, tx);
          if tx.kind.RequestVerification? { OnlyEdgesDrop(seams, b, a.world, tx); }
        }
      }
    }
  }

  lemma OnlyEdgesDrop(seams: Seams, b: Block, w: World, tx: KernelTx)
    requires tx.kind.RequestVerification?
    ensures var r := Dispatch(seams, b, w, tx);
      r.Ran? && (r.result.Err? ==> r.world == w.(humanity := r.world.humanity))
  {
  }

  /** The world once the nonce step of a transaction is done, if its kind has one and its nonce is the stored one. */
  function Consumed(w: World, tx: KernelTx): World {
    var acct := Lookup(w.ledger, tx.from);
    if ConsumesOwnNonce(tx.kind) || acct.nonce != tx.nonce then w
    else w.(ledger := Put(w.ledger, tx.from, acct.(nonce := Next64(tx.nonce))))
  }

  /** An op that fails for a settled sender leaves nothing behind but its consumed nonce. */
  lemma ApplyOneErrorIsNeutral(seams: Seams, b: Block, w: World, tx: KernelTx)
    requires IsSettled(w.ledger, tx.from, b.timestamp)
    ensures var r := ApplyOne(seams, b, w, tx);
      r.Ran? && r.result.Err? ==>
        (r.world == Consumed(w, tx)
         <==> !(DropsEdgesBeforeFailing(w, tx) && tx.nonce == Lookup(w.ledger, tx.from).nonce))
  {
    hide Dispatch, Settle;
    if ConsumesOwnNonce(tx.kind) {
      ErrorIsNeutral(seams, b, w, tx);
    } else {
      FailFixesNonce(w, tx, b.timestamp);
      SettledNonce(Lookup(w.ledger, tx.from), b.timestamp);
      if tx.nonce == Lookup(w.ledger, tx.from).nonce { ErrorIsNeutral(seams, b, Consumed(w, tx), tx); }
    }
  }

  lemma SettledNonce(a: Account, now: u64)
    ensures Settle(a, now).nonce == a.nonce
  {
  }
}
