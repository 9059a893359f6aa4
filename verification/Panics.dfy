/** Which transactions end the process (crates/runtime/src/contracts.rs: the `expect`s of `apply_effect`). */
module Panics {
  import opened Base
  import opened L = Ledger
  import opened LedgerSupply
  import opened World
  import opened Kernel
  import opened Escrow
  import opened Lockstep
  import Effects
  import EffectQuorum
  import K = KernelSupply
  import P = PromptContracts

  /** A case whose committed effect passes validation and cannot be carried out. */
  predicate CasePanics(seams: Seams, w: World, c: ExecCase) {
    match EffectQuorum.TallyOf(seams, c.effects, |c.jury|)
    case Committed(s) =>
      && !Effects.IsAbort(s.ops) && c.contract < |w.contracts.contracts|
      && var e := ContractAddress(c.contract);
         P.Validate(w.contracts.contracts[c.contract], P.OwnedStreams(w.ledger, e), s.ops, 0).Ok?
         && !Runnable(w.ledger, e, s.ops, {})
    case _ => false
  }

  lemma EffectPanicsExactlyWhen(w: World, id: u64, ops: seq<Effects.Op>, now: u64)
    requires Sound(w, now)
    ensures P.ApplyEffect(w, id, ops, now).EffectPanic? <==>
      && id < |w.contracts.contracts|
      && var e := ContractAddress(id);
         P.Validate(w.contracts.contracts[id], P.OwnedStreams(w.ledger, e), ops, 0).Ok?
         && !Runnable(w.ledger, e, ops, {})
  {
    hide Runnable, P.Validate, Supply, StreamsOk, EscrowBacked;
    if id < |w.contracts.contracts| {
      BackedBelowSupply(w, id, now);
      var e := ContractAddress(id);
      if P.Validate(w.contracts.contracts[id], P.OwnedStreams(w.ledger, e), ops, 0).Ok? {
        ValidatedEffectRuns(w, id, ops, now);
      }
    }
  }

  lemma CasePanicsExactlyWhen(seams: Seams, w: World, c: ExecCase, block: u64, now: u64)
    requires Sound(w, now)
    ensures P.ResolveCase(seams, w, c, block, now).ResolvedPanic? <==> CasePanics(seams, w, c)
  {
    hide P.ApplyEffect, Runnable, P.Validate, Sound;
    var t := EffectQuorum.TallyOf(seams, c.effects, |c.jury|);
    if t.Committed? { EffectPanicsExactlyWhen(w, c.contract, t.item.ops, now); }
  }

  /** Whether the op of a transaction ends the process, in the world it starts from. */
  predicate OpPanics(seams: Seams, b: Block, w: World, tx: KernelTx) {
    && tx.kind.InvokeContract? && tx.kind.invoked < |w.contracts.contracts|
    && !w.contracts.contracts[tx.kind.invoked].terminated && w.humanity.jurors != {}
    && CasePanics(seams, w, P.NewExecCase(seams, w, tx.kind.invoked, tx.kind.triggerRef, tx.from,
                                          seams.entropy(b.hash, b.number), b.number, b.timestamp))
  }

  lemma DispatchPanicsExactlyWhen(seams: Seams, b: Block, w: World, tx: KernelTx)
    requires Sound(w, b.timestamp) && EffectQuorum.CasesOk(seams, w)
    ensures Dispatch(seams, b, w, tx).Panic? <==> OpPanics(seams, b, w, tx)
  {
    hide Sound, CasePanics, P.ResolveCase, P.SubmitEffect, P.NewExecCase, EffectQuorum.CasesOk;
    if tx.kind.SubmitEffect? {
      EffectQuorum.LateSubmissionFails(seams, w, tx.kind.effectCase, tx.from, tx.kind.effect, b.number, b.timestamp);
    } else if tx.kind.InvokeContract? && tx.kind.invoked < |w.contracts.contracts| {
      var entropy := seams.entropy(b.hash, b.number);
      var c := P.NewExecCase(seams, w, tx.kind.invoked, tx.kind.triggerRef, tx.from, entropy, b.number, b.timestamp);
      CasePanicsExactlyWhen(seams, w, c, b.number, b.timestamp);
    }
  }

  /** A transaction ends the process if and only if it pays its fee, has the stored nonce, and invokes a live contract
      whose jury commits an effect that passes validation and opens a stream to its own escrow or stops a stream
      that is not active, or twice. Nothing else in a block can. */
  lemma TxPanicsExactlyWhen(seams: Seams, b: Block, w: World, tx: KernelTx)
    requires K.WorldOk(w) && Sound(w, b.timestamp) && NoEscrowHumans(w) && !IsEscrow(tx.from)
    requires EffectQuorum.CasesOk(seams, w) && Supply(w.ledger, b.timestamp) + K.Fee(tx) < U128_MAX
    ensures ApplyTx(seams, b, w, tx).TxPanic? <==>
      && K.Pays(w, tx, b.timestamp) && K.Stepped(w, tx, b.timestamp).result.Ok?
      && OpPanics(seams, b, OpWorld(w, tx, b.timestamp), tx)
  {
    hide Dispatch, L.ChargeFee, Settle, Sound, K.WorldOk, NoEscrowHumans, IsEscrow, CasePanics, P.NewExecCase,
         EffectQuorum.CasesOk;
    OpWorldIsSound(w, tx, b.timestamp);
    EffectQuorum.SameCasesOk(seams, w, OpWorld(w, tx, b.timestamp));
    DispatchPanicsExactlyWhen(seams, b, OpWorld(w, tx, b.timestamp), tx);
  }
}
