/** What each runtime call does to nonces and to who emits. */
module Nonces {
  import opened Base
  import opened L = Ledger
  import opened LedgerLaws
  import opened World
  import opened Kernel
  import opened Humans
  import Lifecycle
  import PromptContracts
  import Effects

  /** Nobody's nonce went down, escrows' aside: they sign nothing, and count their own transfers. */
  ghost predicate NoncesRise(l: L.Ledger, r: L.Ledger) {
    forall a: Address :: !IsEscrow(a) ==> Lookup(l, a).nonce <= Lookup(r, a).nonce
  }

  ghost predicate SameNonces(l: L.Ledger, r: L.Ledger) {
    forall a: Address :: Lookup(l, a).nonce == Lookup(r, a).nonce
  }

  /** Only nonces of escrow addresses may have changed. */
  ghost predicate OnlyEscrowNoncesMove(l: L.Ledger, r: L.Ledger) {
    forall a: Address :: !IsEscrow(a) ==> Lookup(r, a).nonce == Lookup(l, a).nonce
  }

  lemma SettleFrame(l: L.Ledger, a: Address, now: u64)
    ensures SameNonces(l, SettleIncoming(l, a, now)) && SameEmitters(l, SettleIncoming(l, a, now))
  {
    forall b: Address { SettleKeepsNonces(l, a, now, b); }
  }

  lemma ChargeFeeFrame(l: L.Ledger, from: Address, gas: u64, now: u64)
    ensures SameNonces(l, ChargeFee(l, from, gas, now).ledger) && SameEmitters(l, ChargeFee(l, from, gas, now).ledger)
  {
    SettleFrame(l, from, now);
  }

  lemma TransferFrame(l: L.Ledger, from: Address, to: Address, value: u128, nonce: u64, now: u64)
    ensures var s := ApplyTransfer(l, from, to, value, nonce, now);
      && SameEmitters(l, s.ledger)
      && forall b: Address ::
           Lookup(s.ledger, b).nonce == if s.result.Ok? && b == from then Next64(nonce) else Lookup(l, b).nonce
    ensures ApplyTransfer(l, from, to, value, nonce, now).result.Ok? ==> nonce == Lookup(l, from).nonce
  {
    SettleFrame(l, from, now);
  }

  lemma OpenFrame(l: L.Ledger, from: Address, to: Address, rate: u128, deposit: u128, now: u64)
    ensures var s := L.OpenStream(l, from, to, rate, deposit, now);
      SameNonces(l, s.ledger) && SameEmitters(l, s.ledger)
  {
  }

  /** Replacing an account by one with the same nonce and gate, whatever happens to the streams. */
  lemma PutFrame(l: L.Ledger, a: Address, acct: Account, streams: seq<Stream>)
    requires acct.nonce == Lookup(l, a).nonce
    requires acct.verified == Lookup(l, a).verified && acct.verifiedAt == Lookup(l, a).verifiedAt
    ensures var r := Put(l, a, acct).(streams := streams); SameNonces(l, r) && SameEmitters(l, r)
  {
  }

  lemma StopFrame(l: L.Ledger, id: nat, caller: Address, now: u64)
    ensures var s := L.StopStream(l, id, caller, now);
      SameNonces(l, s.ledger) && SameEmitters(l, s.ledger)
  {
    var s := L.StopStream(l, id, caller, now);
    if s.result.Ok? {
      hide Drained, Owed, AccountBalance, SameNonces, SameEmitters;
      var to := l.streams[id].to;
      var recipient := Settle(Lookup(l, to), now);
      var l1 := SettleStream(l, id, now);
      var paid := recipient.(settled := SatAdd(recipient.settled, Owed(l.streams[id], now)));
      PutFrame(l, to, paid, l1.streams);
      var sender := Settle(Lookup(l1, l1.streams[id].from), now);
      var refunded := sender.(settled := SatAdd(sender.settled, s.result.value));
      PutFrame(l1, l1.streams[id].from, refunded, s.ledger.streams);
      FrameChain(l, l1, s.ledger);
    }
  }

  lemma FrameChain(l: L.Ledger, m: L.Ledger, r: L.Ledger)
    requires SameNonces(l, m) && SameEmitters(l, m) && SameNonces(m, r) && SameEmitters(m, r)
    ensures SameNonces(l, r) && SameEmitters(l, r)
  {
  }

  // ---------------------------------------------------------------- effects

  ghost predicate RunFrame(r: PromptContracts.Run, q: PromptContracts.Run, escrow: Address) {
    && r.Run? && q.Run? && SameEmitters(r.ledger, q.ledger)
    && forall a: Address :: a != escrow ==> Lookup(q.ledger, a).nonce == Lookup(r.ledger, a).nonce
  }

  lemma RunOpFrame(r: PromptContracts.Run, escrow: Address, op: Effects.Op, now: u64)
    requires r.Run? && PromptContracts.RunOp(r, escrow, op, now).Run?
    ensures RunFrame(r, PromptContracts.RunOp(r, escrow, op, now), escrow)
  {
    match op
    case Transfer(to, amount) => TransferFrame(r.ledger, escrow, to, amount, r.nonce, now);
    case Refund(party, amount) => TransferFrame(r.ledger, escrow, party, amount, r.nonce, now);
    case OpenStream(to, rate, deposit) => OpenFrame(r.ledger, escrow, to, rate, deposit, now);
    case StopStream(id) => StopFrame(r.ledger, id, escrow, now);
    case SetVar(_, _) =>
    case Abort(_) =>
  }

  lemma {:induction false} RunOpsFrame(r: PromptContracts.Run, escrow: Address, ops: seq<Effects.Op>, now: u64)
    requires r.Run? && PromptContracts.RunOps(r, escrow, ops, now).Run?
    ensures RunFrame(r, PromptContracts.RunOps(r, escrow, ops, now), escrow)
    decreases |ops|
  {
    if ops != [] {
      RunOpFrame(r, escrow, ops[0], now);
      RunOpsFrame(PromptContracts.RunOp(r, escrow, ops[0], now), escrow, ops[1..], now);
    }
  }

  lemma EffectFrame(w: World, id: u64, ops: seq<Effects.Op>, now: u64)
    ensures var r := PromptContracts.ApplyEffect(w, id, ops, now);
      r.Applied? ==>
        && OnlyEscrowNoncesMove(w.ledger, r.world.ledger) && SameEmitters(w.ledger, r.world.ledger)
        && r.world.humanity == w.humanity && r.world.passports == w.passports
  {
    if PromptContracts.ApplyEffect(w, id, ops, now).Applied? {
      RunOpsFrame(PromptContracts.StartRun(w, id, now), ContractAddress(id), ops, now);
      assert IsEscrow(ContractAddress(id));
    }
  }

  lemma ResolveFrame(seams: Seams, w: World, c: ExecCase, block: u64, now: u64)
    ensures var r := PromptContracts.ResolveCase(seams, w, c, block, now);
      r.Resolved? ==>
        && OnlyEscrowNoncesMove(w.ledger, r.world.ledger) && SameEmitters(w.ledger, r.world.ledger)
        && r.world.humanity == w.humanity && r.world.passports == w.passports
  {
    forall ops { EffectFrame(w, c.contract, ops, now); }
  }

  // ---------------------------------------------------------------- every kind

  lemma EnforceFrame(w: World, c: Case)
    ensures SameNonces(w.ledger, Lifecycle.Enforce(w, c).ledger)
  {
  }

  lemma VerdictFrame(w: World, caseId: nat, juror: Address, verdict: CanonicalVerdict)
    ensures SameNonces(w.ledger, Lifecycle.SubmitVerdict(w, caseId, juror, verdict).world.ledger)
  {
    var a := Lifecycle.SubmitVerdict(w, caseId, juror, verdict);
    if a.result.Ok? {
      var h := w.humanity;
      var c := Lifecycle.WithVote(h.cases[caseId], juror, verdict);
      EnforceFrame(w.(humanity := h.(cases := h.cases[caseId := c])), c);
    }
  }

  lemma InvokeFrame(
    seams: Seams, w: World, id: u64, triggerRef: Hash, invoker: Address, entropy: u64, block: u64, now: u64)
    ensures var r := PromptContracts.InvokeContract(seams, w, id, triggerRef, invoker, entropy, block, now);
      r.Ran? ==>
        && OnlyEscrowNoncesMove(w.ledger, r.world.ledger) && SameEmitters(w.ledger, r.world.ledger)
        && r.world.humanity == w.humanity && r.world.passports == w.passports
  {
    if id < |w.contracts.contracts| {
      var c := PromptContracts.NewExecCase(seams, w, id, triggerRef, invoker, entropy, block, now);
      ResolveFrame(seams, w, c, block, now);
    }
  }

  lemma SubmitEffectFrame(
    seams: Seams, w: World, caseId: u64, interpreter: Address, ops: seq<Effects.Op>, block: u64, now: u64)
    ensures var r := PromptContracts.SubmitEffect(seams, w, caseId, interpreter, ops, block, now);
      r.Ran? ==>
        && OnlyEscrowNoncesMove(w.ledger, r.world.ledger) && SameEmitters(w.ledger, r.world.ledger)
        && r.world.humanity == w.humanity && r.world.passports == w.passports
  {
    if caseId < |w.contracts.cases| {
      var c := w.contracts.cases[caseId];
      ResolveFrame(seams, w, c.(effects := c.effects + [Submission(interpreter, ops)]), block, now);
    }
  }

  /** The kinds that move value or run contracts. */
  predicate MovesValue(kind: KernelKind) {
    kind.Transfer? || kind.OpenStream? || kind.StopStream? || kind.FundContract?
    || kind.InvokeContract? || kind.SubmitEffect?
  }

  lemma RegistryKindNonces(seams: Seams, b: Block, w: World, tx: KernelTx)
    requires !MovesValue(tx.kind)
    ensures var r := Dispatch(seams, b, w, tx); r.Ran? && SameNonces(w.ledger, r.world.ledger)
  {
    match tx.kind
    case SubmitVerdict(caseId, verdict) => VerdictFrame(w, caseId, tx.from, verdict);
    case _ =>
  }

  ghost predicate ValueFrame(w: World, tx: KernelTx, r: Ran) {
    r.Ran? ==>
      && SameEmitters(w.ledger, r.world.ledger)
      && r.world.humanity == w.humanity && r.world.passports == w.passports
      && ExactNonces(w, tx, r)
  }

  /** A call that consumes the sender's nonce finds the stored one and moves it on; no call changes any other nonce but
      escrows' own. */
  ghost predicate ExactNonces(w: World, tx: KernelTx, r: Ran)
    requires r.Ran?
  {
    && (r.result.Ok? && ConsumesOwnNonce(tx.kind) ==> Lookup(w.ledger, tx.from).nonce == tx.nonce)
    && forall a: Address :: !IsEscrow(a) ==>
         Lookup(r.world.ledger, a).nonce ==
           if r.result.Ok? && ConsumesOwnNonce(tx.kind) && a == tx.from then Next64(tx.nonce)
           else Lookup(w.ledger, a).nonce
  }

  lemma LedgerKindFrame(seams: Seams, b: Block, w: World, tx: KernelTx)
    requires tx.kind.Transfer? || tx.kind.OpenStream? || tx.kind.StopStream?
    ensures ValueFrame(w, tx, Dispatch(seams, b, w, tx))
  {
    var now := b.timestamp;
    match tx.kind
    case Transfer(to, value) => TransferFrame(w.ledger, tx.from, to, value, tx.nonce, now);
    case OpenStream(to, rate, deposit) => OpenFrame(w.ledger, tx.from, to, rate, deposit, now);
    case StopStream(id) => StopFrame(w.ledger, id, tx.from, now);
  }

  lemma FundFrame(w: World, tx: KernelTx, id: u64, now: u64)
    requires tx.kind.FundContract?
    ensures var a := PromptContracts.FundContract(w, tx.from, id, tx.value, tx.nonce, now);
      ValueFrame(w, tx, Ran(a.world, if a.result.Ok? then Ok(NoResult) else Err(a.result.error)))
  {
    TransferFrame(w.ledger, tx.from, ContractAddress(id), tx.value, tx.nonce, now);
  }

  lemma FundKindFrame(seams: Seams, b: Block, w: World, tx: KernelTx)
    requires tx.kind.FundContract?
    ensures ValueFrame(w, tx, Dispatch(seams, b, w, tx))
  {
    hide PromptContracts.FundContract;
    FundFrame(w, tx, tx.kind.funded, b.timestamp);
  }

  lemma InvokeKindFrame(seams: Seams, b: Block, w: World, tx: KernelTx)
    requires tx.kind.InvokeContract?
    ensures ValueFrame(w, tx, Dispatch(seams, b, w, tx))
  {
    hide PromptContracts.InvokeContract;
    InvokeFrame(seams, w, tx.kind.invoked, tx.kind.triggerRef, tx.from,
                seams.entropy(b.hash, b.number), b.number, b.timestamp);
  }

  lemma EffectKindFrame(seams: Seams, b: Block, w: World, tx: KernelTx)
    requires tx.kind.SubmitEffect?
    ensures ValueFrame(w, tx, Dispatch(seams, b, w, tx))
  {
    hide PromptContracts.SubmitEffect;
    SubmitEffectFrame(seams, w, tx.kind.effectCase, tx.from, tx.kind.effect, b.number, b.timestamp);
  }

  lemma ValueKindFrame(seams: Seams, b: Block, w: World, tx: KernelTx)
    requires MovesValue(tx.kind)
    ensures ValueFrame(w, tx, Dispatch(seams, b, w, tx))
  {
    if tx.kind.Transfer? || tx.kind.OpenStream? || tx.kind.StopStream? {
      LedgerKindFrame(seams, b, w, tx);
    } else if tx.kind.FundContract? {
      FundKindFrame(seams, b, w, tx);
    } else if tx.kind.InvokeContract? {
      InvokeKindFrame(seams, b, w, tx);
    } else {
      EffectKindFrame(seams, b, w, tx);
    }
  }

  /** What every runtime call does to nonces. */
  lemma DispatchNonces(seams: Seams, b: Block, w: World, tx: KernelTx)
    ensures var r := Dispatch(seams, b, w, tx); r.Ran? ==> ExactNonces(w, tx, r)
  {
    if MovesValue(tx.kind) { ValueKindFrame(seams, b, w, tx); } else { RegistryKindNonces(seams, b, w, tx); }
  }

  /** The nonce step and the call together: a success starts at the stored nonce, and a sender at the stored nonce
      moves one on, unless a kind that consumes its own fails. */
  lemma ApplyOneNoncesAreExact(seams: Seams, b: Block, w: World, tx: KernelTx)
    ensures var r := ApplyOne(seams, b, w, tx);
      r.Ran? ==>
        && (r.result.Ok? ==> Lookup(w.ledger, tx.from).nonce == tx.nonce)
        && forall a: Address :: !IsEscrow(a) ==>
             var bumped := a == tx.from && tx.nonce == Lookup(w.ledger, a).nonce
               && (r.result.Ok? || !ConsumesOwnNonce(tx.kind));
             Lookup(r.world.ledger, a).nonce == if bumped then Next64(tx.nonce) else Lookup(w.ledger, a).nonce
  {
    hide Dispatch, IsEscrow;
    if ConsumesOwnNonce(tx.kind) {
      DispatchNonces(seams, b, w, tx);
    } else {
      DispatchNonces(seams, b, ConsumeNonce(w, tx.from, tx.nonce, b.timestamp).world, tx);
    }
  }

  /** Every nonce after a transaction: its sender's is just past it if it was mined, and no other changed but
      escrows' own. */
  lemma TxNoncesAreExact(seams: Seams, b: Block, w: World, tx: KernelTx)
    ensures var r := ApplyTx(seams, b, w, tx);
      !r.TxPanic? ==> forall a: Address :: !IsEscrow(a) ==>
        Lookup(r.world.ledger, a).nonce ==
          if r.Mined? && a == tx.from then Next64(tx.nonce) else Lookup(w.ledger, a).nonce
  {
    hide ChargeFee, ApplyOne, IsEscrow;
    ChargeFeeFrame(w.ledger, tx.from, Gas(tx.kind), b.timestamp);
    var w1 := w.(ledger := ChargeFee(w.ledger, tx.from, Gas(tx.kind), b.timestamp).ledger);
    ApplyOneNoncesAreExact(seams, b, w1, tx);
  }

  /** What a transaction does to nonces. A dropped one changes none; a successful one started exactly at the stored
      nonce; a mined one leaves its sender just past its own nonce, on 64 bits. A nonce goes down in exactly two
      cases: a charged transaction two or more behind its sender's stored nonce, and a charged one at the last
      64-bit number, after which the count starts again at 0. */
  lemma TxNonces(seams: Seams, b: Block, w: World, tx: KernelTx)
    ensures var r := ApplyTx(seams, b, w, tx);
      && (r.Dropped? ==> SameNonces(w.ledger, r.world.ledger))
      && (r.Mined? && r.outcome.success ==> Lookup(w.ledger, tx.from).nonce == tx.nonce)
      && (r.Mined? && !r.outcome.success ==> Lookup(r.world.ledger, tx.from).nonce == Next64(tx.nonce))
      && (r.Mined? && !IsEscrow(tx.from) ==>
            && Lookup(r.world.ledger, tx.from).nonce == Next64(tx.nonce)
            && (NoncesRise(w.ledger, r.world.ledger) <==> Lookup(w.ledger, tx.from).nonce <= Next64(tx.nonce)))
  {
    TxNoncesAreExact(seams, b, w, tx);
    hide ApplyOne, ChargeFee, IsEscrow;
    ChargeFeeFrame(w.ledger, tx.from, Gas(tx.kind), b.timestamp);
    var w1 := w.(ledger := ChargeFee(w.ledger, tx.from, Gas(tx.kind), b.timestamp).ledger);
    ApplyOneNoncesAreExact(seams, b, w1, tx);
  }
}
