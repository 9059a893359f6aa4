/** The kernel in the form the source gives it: a store updated in place, transaction by transaction, and
    swept once per block (crates/exec/src/apply.rs). Each method is proved against its function in
    `Kernel`. */
module Follower {
  import opened Base
  import L = Ledger
  import opened World
  import Kernel
  import Lifecycle
  import LedgerLaws
  import Failures
  import Nonces

  class Store {
    var ledger: L.Ledger
    var humanity: Humanity
    var contracts: Contracts
    var passports: Passports

    function View(): World
      reads this
    {
      World(ledger, humanity, contracts, passports)
    }

    constructor (w: World)
      ensures View() == w
    {
      ledger, humanity, contracts, passports := w.ledger, w.humanity, w.contracts, w.passports;
    }

    method Replace(w: World)
      modifies this
      ensures View() == w
    {
      ledger, humanity, contracts, passports := w.ledger, w.humanity, w.contracts, w.passports;
    }

    /** Goes through exactly when the nonce is the stored one, and then moves that one nonce on; nobody's reported
        balance changes. On a mismatch nothing is written. */
    method ConsumeNonce(from: Address, nonce: u64, now: u64) returns (r: Result<nat, OpError>)
      modifies this`ledger
      ensures r.Ok? <==> nonce == L.Lookup(old(ledger), from).nonce
      ensures r.Ok? ==> L.Lookup(ledger, from).nonce == Next64(nonce)
      ensures r.Err? ==> ledger == old(ledger)
      ensures r.Err? ==> r.error == OnLedger(L.BadNonce(L.Lookup(old(ledger), from).nonce, nonce))
      ensures forall a: Address :: a != from ==> L.Lookup(ledger, a) == L.Lookup(old(ledger), a)
      ensures forall a: Address :: L.LiveBalance(ledger, a, now) == L.LiveBalance(old(ledger), a, now)
      ensures Lifecycle.Answer(View(), r) == Kernel.ConsumeNonce(old(View()), from, nonce, now)
    {
      ghost var before := ledger;
      var acct := L.Settle(L.Lookup(ledger, from), now);
      if nonce != acct.nonce {
        return Err(OnLedger(L.BadNonce(acct.nonce, nonce)));
      }
      acct := acct.(nonce := Next64(acct.nonce));
      ledger := L.Put(ledger, from, acct);
      forall a: Address ensures L.LiveBalance(ledger, a, now) == L.LiveBalance(before, a, now) {
        SettledNonceIsInvisible(before, from, Next64(nonce), now, a);
      }
      r := Ok(0);
    }

    /** Answers `None` when the process panics. A success needs the stored nonce; whatever the answer, only the sender
        and escrows move a nonce; and a failure for a settled sender leaves nothing behind but a consumed nonce,
        stale vouch edges aside. */
    method ApplyOne(seams: Seams, b: Kernel.Block, tx: Kernel.KernelTx) returns (r: Option<Result<OpResult, OpError>>)
      modifies this
      ensures r.Some? && r.value.Ok? ==> L.Lookup(old(ledger), tx.from).nonce == tx.nonce
      ensures r.Some? ==> forall a: Address :: !IsEscrow(a) ==>
        var bumped := a == tx.from && tx.nonce == L.Lookup(old(ledger), a).nonce
          && (r.value.Ok? || !Kernel.ConsumesOwnNonce(tx.kind));
        L.Lookup(ledger, a).nonce == if bumped then Next64(tx.nonce) else L.Lookup(old(ledger), a).nonce
      ensures LedgerLaws.IsSettled(old(ledger), tx.from, b.timestamp)
        && !Failures.DropsEdgesBeforeFailing(old(View()), tx)
        ==> (r.Some? && r.value.Err? ==> View() == Failures.Consumed(old(View()), tx))
      ensures r.None? <==> Kernel.ApplyOne(seams, b, old(View()), tx).Panic?
      ensures r.Some? ==> Kernel.ApplyOne(seams, b, old(View()), tx) == Ran(View(), r.value)
    {
      hide Kernel.Dispatch, LedgerLaws.IsSettled, Failures.DropsEdgesBeforeFailing, Failures.Consumed, IsEscrow;
      ghost var before := View();
      Nonces.ApplyOneNoncesAreExact(seams, b, before, tx);
      if LedgerLaws.IsSettled(before.ledger, tx.from, b.timestamp) {
        Failures.ApplyOneErrorIsNeutral(seams, b, before, tx);
      }
      if !Kernel.ConsumesOwnNonce(tx.kind) {
        var consumed := ConsumeNonce(tx.from, tx.nonce, b.timestamp);
        if consumed.Err? {
          return Some(Err(consumed.error));
        }
      }
      var ran := Kernel.Dispatch(seams, b, View(), tx);
      if ran.Panic? {
        return None;
      }
      Replace(ran.world);
      r := Some(ran.result);
    }

    /** The fee, the op, and the post-state of a failed op. A dropped transaction has no outcome. */
    method ApplyTx(seams: Seams, b: Kernel.Block, tx: Kernel.KernelTx)
      returns (panicked: bool, outcome: Option<Kernel.OpOutcome>)
      modifies this
      ensures panicked <==> Kernel.ApplyTx(seams, b, old(View()), tx).TxPanic?
      ensures !panicked && outcome.None? ==> Kernel.ApplyTx(seams, b, old(View()), tx) == Kernel.Dropped(View())
      ensures !panicked && outcome.Some? ==>
        Kernel.ApplyTx(seams, b, old(View()), tx) == Kernel.Mined(View(), outcome.value)
    {
      hide Kernel.ApplyOne, L.ChargeFee;
      var charged := L.ChargeFee(ledger, tx.from, Kernel.Gas(tx.kind), b.timestamp);
      ledger := charged.ledger;
      if charged.result.Err? {
        return false, None;
      }
      var applied := ApplyOne(seams, b, tx);
      if applied.None? {
        return true, None;
      }
      match applied.value {
        case Ok(result) =>
          outcome := Some(Kernel.OpOutcome(true, None, result));
        case Err(e) =>
          var acct := L.Settle(L.Lookup(ledger, tx.from), b.timestamp);
          acct := acct.(nonce := Next64(tx.nonce));
          ledger := L.Put(ledger, tx.from, acct);
          outcome := Some(Kernel.OpOutcome(false, Some(e), NoResult));
      }
      panicked := false;
    }

    /** For each pending subject by address, ask the oracle and challenge the flagged. */
    method SweepSybilScan(seams: Seams, b: Kernel.Block)
      modifies this
      ensures View() == Kernel.SybilScan(seams, b, old(View()))
    {
      var pending := Kernel.PendingSubjects(humanity);
      var i := 0;
      assert pending[0..] == pending;
      while i < |pending|
        invariant i <= |pending|
        invariant Kernel.Scan(seams, b, old(View()), pending) == Kernel.Scan(seams, b, View(), pending[i..])
      {
        hide Kernel.ScanOne;
        var scanned := Kernel.ScanOne(seams, b, View(), pending[i]);
        assert pending[i..][1..] == pending[i + 1..];
        Replace(scanned);
        i := i + 1;
      }
    }

    /** The list is taken after the scan has run. */
    method SweepFinalize(b: Kernel.Block)
      modifies this
      ensures View() == Kernel.FinalizeAll(b, old(View()))
    {
      var pending := Kernel.PendingSubjects(humanity);
      var i := 0;
      assert pending[0..] == pending;
      while i < |pending|
        invariant i <= |pending|
        invariant Kernel.Finalize(b, old(View()), pending) == Kernel.Finalize(b, View(), pending[i..])
      {
        hide Lifecycle.FinalizeRegistration;
        var finalized := Lifecycle.FinalizeRegistration(View(), pending[i], b.number, b.timestamp);
        assert pending[i..][1..] == pending[i + 1..];
        Replace(finalized.world);
        i := i + 1;
      }
    }

    method RunSweeps(seams: Seams, b: Kernel.Block)
      modifies this
      ensures View() == Kernel.RunSweeps(seams, b, old(View()))
    {
      SweepSybilScan(seams, b);
      SweepFinalize(b);
    }

    method ApplyOps(seams: Seams, b: Kernel.Block, txs: seq<Kernel.KernelTx>)
      returns (panicked: bool, outcomes: seq<Kernel.OpOutcome>)
      modifies this
      ensures panicked <==> Kernel.ApplyOps(seams, b, old(View()), txs).BlockPanic?
      ensures !panicked ==> Kernel.ApplyOps(seams, b, old(View()), txs) == Kernel.BlockRan(View(), outcomes)
    {
      hide Kernel.ApplyTx, Kernel.RunSweeps;
      panicked, outcomes := false, [];
      var i := 0;
      assert txs[0..] == txs;
      while i < |txs|
        invariant i <= |txs|
        invariant Kernel.ApplyTxs(seams, b, old(View()), txs)
          == After(outcomes, Kernel.ApplyTxs(seams, b, View(), txs[i..]))
      {
        ghost var before := View();
        assert txs[i..][1..] == txs[i + 1..] && txs[i..][0] == txs[i];
        var died, outcome := ApplyTx(seams, b, txs[i]);
        if died {
          return true, [];
        }
        if outcome.Some? {
          AfterOne(outcomes, outcome.value, Kernel.ApplyTxs(seams, b, View(), txs[i + 1..]));
          outcomes := outcomes + [outcome.value];
        }
        i := i + 1;
      }
      RunSweeps(seams, b);
    }
  }

  lemma SettledNonceIsInvisible(l: L.Ledger, a: Address, n: u64, now: u64, x: Address)
    ensures L.LiveBalance(L.Put(l, a, L.Settle(L.Lookup(l, a), now).(nonce := n)), x, now) == L.LiveBalance(l, x, now)
  {
    LedgerLaws.SettleIsInvisible(L.Lookup(l, a), now);
    LedgerLaws.LiveBalanceAfterPut(l, a, L.Settle(L.Lookup(l, a), now).(nonce := n), x, now);
  }

  /** A block result with earlier outcomes put in front. */
  ghost function After(earlier: seq<Kernel.OpOutcome>, r: Kernel.BlockRan): Kernel.BlockRan {
    if r.BlockPanic? then r else r.(outcomes := earlier + r.outcomes)
  }

  lemma AfterOne(earlier: seq<Kernel.OpOutcome>, o: Kernel.OpOutcome, r: Kernel.BlockRan)
    ensures After(earlier + [o], r) == After(earlier, if r.BlockPanic? then r else r.(outcomes := [o] + r.outcomes))
  {
    if r.BlockRan? { assert earlier + [o] + r.outcomes == earlier + ([o] + r.outcomes); }
  }
}
