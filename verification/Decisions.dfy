/** What a transaction costs and when it succeeds, for every kind, in terms of what is on file before it
    (crates/exec/src/apply.rs, crates/exec/src/op.rs and the runtime calls behind them). */
module Decisions {
  import opened Base
  import opened L = Ledger
  import opened LedgerLaws
  import opened World
  import opened Kernel
  import opened Lifecycle
  import P = PromptContracts
  import Transactions

  // ---------------------------------------------------------------- fees

  /** The fee of each kind in base units. */
  function Price(kind: KernelKind): nat {
    match kind
    case RequestVerification(_) => 0
    case Transfer(_, _) => 21_000_000_000_000
    case OpenStream(_, _, _) | StopStream(_) => 60_000_000_000_000
    case SubmitZkPassportProof(_) => 250_000_000_000_000
    case DeployContract(text, _) => Min(120_000 + 16 * |text|, U64_MAX) * 1_000_000_000
    case FundContract(_) | InvokeContract(_, _) | SubmitEffect(_, _) => 120_000_000_000_000
    case _ => 80_000_000_000_000
  }

  lemma FeeIsPrice(kind: KernelKind)
    ensures FeeForGas(Gas(kind)) == Price(kind)
  {
  }

  // ---------------------------------------------------------------- what each kind asks

  /** The standing of `a`; who is not on file is unverified. */
  predicate Stands(h: Humanity, a: Address, statuses: set<HumanStatus>) {
    if a in h.humans then h.humans[a].status in statuses else Unverified in statuses
  }

  /** Whether the op of a transaction is admitted, given what its sender has left once the fee is paid. */
  predicate Admits(seams: Seams, b: Block, w: World, tx: KernelTx, left: int) {
    var h, p, c := w.humanity, w.passports, w.contracts;
    match tx.kind
    case Transfer(_, value) => value <= left
    case OpenStream(to, rate, deposit) => to != tx.from && 0 < rate <= 277_777_777_777_777_777 && 0 < deposit <= left
    case StopStream(id) =>
      && id < |w.ledger.streams| && w.ledger.streams[id].from == tx.from && w.ledger.streams[id].status.Active?
      && (w.ledger.streams[id].to == tx.from ==>
            Max(w.ledger.streams[id].drawn, Accrued(w.ledger.streams[id], b.timestamp)) < w.ledger.streams[id].deposit)
    case RequestVerification(_) => Stands(h, tx.from, {Unverified, Revoked}) && h.jurors != {}
    case Vouch(vouchee) =>
      && vouchee != tx.from && Stands(h, tx.from, {Verified}) && Stands(h, vouchee, {Pending})
      && (tx.from, vouchee) !in h.vouches && |set e | e in h.vouches && e.0 == tx.from| < 10
    case Challenge(subject, _) =>
      && Stands(h, tx.from, {Verified}) && Stands(h, subject, {Pending, Verified, Challenged})
      && (forall i :: 0 <= i < |h.cases| && h.cases[i].subject == subject && h.cases[i].kind.Challenge? ==>
            !h.cases[i].status.Open?)
      && (tx.from, subject) !in h.cleared && h.jurors != {}
    case SubmitVerdict(id, _) =>
      && id < |h.cases| && h.cases[id].status.Open? && tx.from in h.cases[id].jury
      && forall i :: 0 <= i < |h.cases[id].votes| ==> h.cases[id].votes[i].juror != tx.from
    case SubmitZkPassportProof(z) =>
      && seams.passportBinds(p, z, tx.from, b.timestamp, b.number) && seams.verifyPassport(z)
      && Stands(h, tx.from, {Unverified, Pending, Verified, Challenged})
      && (tx.from in h.humans ==> h.humans[tx.from].assurance == Std)
      && z.nullifier < BN254_FR_MODULUS && z.nullifier !in p.nullifiers
    case RegisterCsca(_, _, _) | PinSelfIdentityRoot(_) | PinSelfOfacRoot(_, _) | RetireSelfRoot(_) =>
      p.governance == Some(tx.from)
    case RevokeCsca(key) => p.governance == Some(tx.from) && key in p.csca
    case DeployContract(text, parties) => 1 <= |parties| <= 16 && |text| <= 8192
    case FundContract(id) => id < |c.contracts| && !c.contracts[id].terminated && tx.value <= left
    case InvokeContract(id, _) => id < |c.contracts| && !c.contracts[id].terminated && h.jurors != {}
    case SubmitEffect(id, _) =>
      && id < |c.cases| && c.cases[id].status.ExecOpen? && tx.from in c.cases[id].jury
      && forall i :: 0 <= i < |c.cases[id].effects| ==> c.cases[id].effects[i].interpreter != tx.from
  }

  /** A kind that moves value, and so is admitted by the ledger. */
  predicate OnLedger(kind: KernelKind) {
    kind.Transfer? || kind.OpenStream? || kind.StopStream? || kind.FundContract?
  }

  lemma RegistryDecision(seams: Seams, b: Block, w: World, tx: KernelTx, left: int)
    requires !OnLedger(tx.kind)
    ensures var r := Dispatch(seams, b, w, tx); r.Ran? ==> (r.result.Ok? <==> Admits(seams, b, w, tx, left))
  {
    hide JuryFor, StatusAfter, Enforce, P.ResolveCase, P.NewExecCase;
    if tx.kind.Vouch? { OutgoingMeaning(w.humanity, tx.from); }
    if tx.kind.Challenge? { OpenMeaning(w.humanity, tx.kind.subject); }
  }

  lemma OutgoingMeaning(h: Humanity, a: Address)
    ensures VouchesOut(h, a) == set e | e in h.vouches && e.0 == a
  {
  }

  lemma OpenMeaning(h: Humanity, s: Address)
    ensures HasOpenChallenge(h, s) <==>
      !forall i :: 0 <= i < |h.cases| && h.cases[i].subject == s && h.cases[i].kind.Challenge? ==>
         !h.cases[i].status.Open?
  {
    if HasOpenChallenge(h, s) {
      var i :| 0 <= i < |h.cases| && IsOpenChallenge(h.cases[i], s);
      assert h.cases[i].subject == s;
    } else {
      forall i | 0 <= i < |h.cases| && h.cases[i].subject == s && h.cases[i].kind.Challenge?
        ensures !h.cases[i].status.Open?
      {
        assert !IsOpenChallenge(h.cases[i], s);
      }
    }
  }

  // ---------------------------------------------------------------- transactions

  lemma StopDecides(seams: Seams, b: Block, w: World, tx: KernelTx)
    requires tx.kind.StopStream? && ChargeFee(w.ledger, tx.from, Gas(tx.kind), b.timestamp).result.Ok?
    ensures var w1 := w.(ledger := ChargeFee(w.ledger, tx.from, Gas(tx.kind), b.timestamp).ledger);
      L.StopStream(w1.ledger, tx.kind.stream, tx.from, b.timestamp).result.Ok? <==> Admits(seams, b, w, tx, 0)
  {
    hide SettleIncomingFrom, Settle, Accrued;
    SettleIncomingFolds(w.ledger, tx.from, b.timestamp);
  }

  lemma LedgerDecision(seams: Seams, b: Block, w: World, tx: KernelTx)
    requires OnLedger(tx.kind) && ChargeFee(w.ledger, tx.from, Gas(tx.kind), b.timestamp).result.Ok?
    ensures var r := ApplyTx(seams, b, w, tx); var left := Left(w, tx, b.timestamp);
      r.Mined? && (r.outcome.success <==>
        tx.nonce == Lookup(w.ledger, tx.from).nonce && Admits(seams, b, w, tx, left))
  {
    FeeIsPrice(tx.kind);
    var now := b.timestamp;
    hide LiveBalance, ChargeFee, ApplyTransfer, L.StopStream, AccountBalance, Accrued;
    ChargeFeeMeaning(w.ledger, tx.from, Gas(tx.kind), now, tx.from);
    match tx.kind
    case Transfer(_, _) => Transactions.TransferTxDecision(seams, b, w, tx);
    case OpenStream(_, _, _) => Transactions.OpenStreamTxDecision(seams, b, w, tx);
    case StopStream(id) =>
      StopDecides(seams, b, w, tx);
      StopIgnoresAccounts(w, tx, now);
    case FundContract(id) =>
      var l1 := ChargeFee(w.ledger, tx.from, Gas(tx.kind), now).ledger;
      TransferDecision(l1, tx.from, ContractAddress(id), tx.value, tx.nonce, now);
  }

  /** What the sender of a charged transaction has left, as the node reports it. */
  function Left(w: World, tx: KernelTx, now: u64): int {
    AfterFee(tx.from, tx.from, LiveBalance(w.ledger, tx.from, now), Price(tx.kind))
  }

  lemma StopIgnoresAccounts(w: World, tx: KernelTx, now: u64)
    requires tx.kind.StopStream?
    ensures var w1 := w.(ledger := ChargeFee(w.ledger, tx.from, Gas(tx.kind), now).ledger);
      var a := ConsumeNonce(w1, tx.from, tx.nonce, now);
      a.result.Ok? ==>
        (L.StopStream(a.world.ledger, tx.kind.stream, tx.from, now).result.Ok? <==>
         L.StopStream(w1.ledger, tx.kind.stream, tx.from, now).result.Ok?)
  {
    hide ChargeFee, Settle, SettleStream;
  }

  lemma RegistryTxDecision(seams: Seams, b: Block, w: World, tx: KernelTx)
    requires !OnLedger(tx.kind) && ChargeFee(w.ledger, tx.from, Gas(tx.kind), b.timestamp).result.Ok?
    ensures var r := ApplyTx(seams, b, w, tx); var left := Left(w, tx, b.timestamp);
      !r.Dropped? && (r.Mined? ==> (r.outcome.success <==>
        tx.nonce == Lookup(w.ledger, tx.from).nonce && Admits(seams, b, w, tx, left)))
  {
    hide ChargeFee, Dispatch, LiveBalance, Price;
    var now := b.timestamp;
    ChargeFeeMeaning(w.ledger, tx.from, Gas(tx.kind), now, tx.from);
    var w1 := w.(ledger := ChargeFee(w.ledger, tx.from, Gas(tx.kind), now).ledger);
    var a := ConsumeNonce(w1, tx.from, tx.nonce, now);
    RegistryDecision(seams, b, a.world, tx, Left(w, tx, now));
    AdmitsIgnoresLedger(seams, b, w, a.world, tx, Left(w, tx, now));
  }

  lemma AdmitsIgnoresLedger(seams: Seams, b: Block, w: World, v: World, tx: KernelTx, left: int)
    requires !OnLedger(tx.kind) && v == w.(ledger := v.ledger)
    ensures Admits(seams, b, w, tx, left) <==> Admits(seams, b, v, tx, left)
  {
  }

  /** A transaction is dropped if and only if the balance the node reports for its sender does not cover the price of
      its kind, and one that is mined succeeds if and only if its nonce is the stored one and its op is admitted. */
  lemma TxSucceedsExactlyWhen(seams: Seams, b: Block, w: World, tx: KernelTx)
    ensures var r := ApplyTx(seams, b, w, tx); var have := LiveBalance(w.ledger, tx.from, b.timestamp);
      && (r.Dropped? <==> have < Price(tx.kind))
      && (r.Mined? ==>
           (r.outcome.success <==>
              && tx.nonce == Lookup(w.ledger, tx.from).nonce
              && Admits(seams, b, w, tx, AfterFee(tx.from, tx.from, have, Price(tx.kind)))))
  {
    hide LiveBalance, ChargeFee, ApplyOne, Admits, Price;
    FeeIsPrice(tx.kind);
    ChargeFeeMeaning(w.ledger, tx.from, Gas(tx.kind), b.timestamp, tx.from);
    if ChargeFee(w.ledger, tx.from, Gas(tx.kind), b.timestamp).result.Ok? {
      if OnLedger(tx.kind) { LedgerDecision(seams, b, w, tx); } else { RegistryTxDecision(seams, b, w, tx); }
    }
  }

  /** Registering is free: whatever the sender has, the transaction is mined, and with the stored nonce it succeeds if
      and only if its sender has no live registration and there are jurors. */
  lemma RegistrationIsFree(seams: Seams, b: Block, w: World, tx: KernelTx)
    requires tx.kind.RequestVerification? && tx.nonce == Lookup(w.ledger, tx.from).nonce
    ensures var r := ApplyTx(seams, b, w, tx);
      r.Mined? && (r.outcome.success <==> Stands(w.humanity, tx.from, {Unverified, Revoked}) && w.humanity.jurors != {})
  {
    hide LiveBalance, ChargeFee;
    TxSucceedsExactlyWhen(seams, b, w, tx);
  }

  // ---------------------------------------------------------------- errors

  predicate HasOpenCase(h: Humanity, s: Address) {
    exists i :: 0 <= i < |h.cases| && h.cases[i].subject == s && h.cases[i].kind.Challenge? && h.cases[i].status.Open?
  }

  /** What an error of a registry, passport or contract op says about its transaction. */
  predicate Explains(e: OpError, seams: Seams, b: Block, w: World, tx: KernelTx) {
    var h, p, c, from := w.humanity, w.passports, w.contracts, tx.from;
    match tx.kind
    case RequestVerification(_) =>
      || (e.AlreadyRegistered? && Stands(h, from, {Pending, Verified, Challenged}))
      || (e.NoJurors? && h.jurors == {})
    case Vouch(vouchee) =>
      && (e.SelfVouch? <==> vouchee == from)
      && (|| e.SelfVouch?
          || (e.VoucherNotVerified? && !Stands(h, from, {Verified}))
          || (e.VoucheeNotPending? && !Stands(h, vouchee, {Pending}))
          || (e.DuplicateVouch? && (from, vouchee) in h.vouches)
          || (e.VouchCapacityReached? && |set v | v in h.vouches && v.0 == from| >= 10))
    case Challenge(subject, _) =>
      || (e.ChallengerNotVerified? && !Stands(h, from, {Verified}))
      || (e.NotChallengeable? && Stands(h, subject, {Unverified, Revoked}))
      || (e.ChallengeAlreadyOpen? && HasOpenCase(h, subject))
      || (e.ChallengeOnCooldown? && (from, subject) in h.cleared)
      || (e.NoJurors? && h.jurors == {})
    case SubmitVerdict(id, _) =>
      || (e.NoSuchCase? && id >= |h.cases|)
      || (id < |h.cases|
          && (|| (e.CaseClosed? && !h.cases[id].status.Open?)
              || (e.NotOnJury? && from !in h.cases[id].jury)
              || (e.AlreadyVoted? && exists i :: 0 <= i < |h.cases[id].votes| && h.cases[id].votes[i].juror == from)))
    case SubmitZkPassportProof(z) =>
      || (e.PassportNotBound? && !seams.passportBinds(p, z, from, b.timestamp, b.number))
      || (e.SubjectRevoked? && Stands(h, from, {Revoked}))
      || (e.AlreadyEnhanced? && from in h.humans && h.humans[from].assurance != Std)
      || (e.NonCanonicalNullifier? && z.nullifier >= BN254_FR_MODULUS)
      || (e.NullifierAlreadyUsed? && z.nullifier in p.nullifiers)
      || (e.InvalidProof? && !seams.verifyPassport(z))
    case RevokeCsca(key) => (e.NotGovernance? && p.governance != Some(from)) || (e.UnknownCsca? && key !in p.csca)
    case DeployContract(text, parties) =>
      || (e.NoParties? && parties == [])
      || (e.TextTooLarge? && |text| > 8192)
      || (e.TooManyParties? && |parties| > 16)
    case InvokeContract(id, _) =>
      || (e.NoSuchContract? && id >= |c.contracts|)
      || (e.ContractTerminated? && id < |c.contracts| && c.contracts[id].terminated)
      || (e.NoInterpreters? && h.jurors == {})
    case SubmitEffect(id, _) =>
      || (e.NoSuchCase? && id >= |c.cases|)
      || (id < |c.cases|
          && (|| (e.CaseClosed? && !c.cases[id].status.ExecOpen?)
              || (e.NotOnJury? && from !in c.cases[id].jury)
              || (e.AlreadySubmitted?
                  && exists i :: 0 <= i < |c.cases[id].effects| && c.cases[id].effects[i].interpreter == from)))
    case _ => e.NotGovernance? && p.governance != Some(from)
  }

  lemma OpErrorIsTrue(seams: Seams, b: Block, w: World, tx: KernelTx)
    requires !OnLedger(tx.kind)
    ensures var r := Dispatch(seams, b, w, tx);
      r.Ran? && r.result.Err? ==> Explains(r.result.error, seams, b, w, tx)
  {
    hide JuryFor, StatusAfter, Enforce, P.ResolveCase, P.NewExecCase, HasOpenCase, HasOpenChallenge;
    if tx.kind.Vouch? { OutgoingMeaning(w.humanity, tx.from); }
    if tx.kind.Challenge? { OpenCaseMeaning(w.humanity, tx.kind.subject); }
  }

  lemma OpenCaseMeaning(h: Humanity, s: Address)
    ensures HasOpenChallenge(h, s) ==> HasOpenCase(h, s)
  {
    if HasOpenChallenge(h, s) {
      var i :| 0 <= i < |h.cases| && IsOpenChallenge(h.cases[i], s);
      assert h.cases[i].subject == s;
    }
  }

  /** The error of a mined transaction that does not move value tells the truth: its nonce is not the stored one, and
      both are named, or the error is one of its kind and holds of what is on file. */
  lemma ErrorIsTrue(seams: Seams, b: Block, w: World, tx: KernelTx)
    requires !OnLedger(tx.kind)
    requires var r := ApplyTx(seams, b, w, tx); r.Mined? && !r.outcome.success
    ensures var e := ApplyTx(seams, b, w, tx).outcome.revert; var stored := Lookup(w.ledger, tx.from).nonce;
      && e.Some?
      && (if tx.nonce != stored then e.value == OpError.OnLedger(BadNonce(stored, tx.nonce))
          else Explains(e.value, seams, b, w, tx))
  {
    hide ChargeFee, Dispatch, LiveBalance;
    var now := b.timestamp;
    ChargeFeeMeaning(w.ledger, tx.from, Gas(tx.kind), now, tx.from);
    var w1 := w.(ledger := ChargeFee(w.ledger, tx.from, Gas(tx.kind), now).ledger);
    var a := ConsumeNonce(w1, tx.from, tx.nonce, now);
    OpErrorIsTrue(seams, b, a.world, tx);
  }

  predicate IsShort(e: OpError, left: int, need: nat) {
    left < need && e.OnLedger? && e.error.InsufficientBalance? && e.error.have == left && e.error.need == need
  }

  predicate ExplainsLedger(e: OpError, w: World, tx: KernelTx, left: int, now: u64) {
    var stored, c := Lookup(w.ledger, tx.from).nonce, w.contracts.contracts;
    || (tx.nonce != stored && e == OpError.OnLedger(BadNonce(stored, tx.nonce)))
    || match tx.kind
       case Transfer(_, value) => IsShort(e, left, value)
       case OpenStream(to, rate, deposit) =>
         || (to == tx.from && e == OpError.OnLedger(SelfStream))
         || (rate == 0 && e == OpError.OnLedger(ZeroRate))
         || (deposit == 0 && e == OpError.OnLedger(ZeroDeposit))
         || (rate > 277_777_777_777_777_777 && e == OpError.OnLedger(RateTooHigh))
         || IsShort(e, left, deposit)
       case StopStream(id) =>
         || (id >= |w.ledger.streams| && e == OpError.OnLedger(NoSuchStream))
         || (id < |w.ledger.streams|
             && var s := w.ledger.streams[id];
                || (s.from != tx.from && e == OpError.OnLedger(NotSender))
                || ((!s.status.Active? || (s.to == tx.from && Max(s.drawn, Accrued(s, now)) >= s.deposit))
                    && e == OpError.OnLedger(NotActive)))
       case FundContract(id) =>
         || (id >= |c| && e == NoSuchContract)
         || (id < |c| && c[id].terminated && e == ContractTerminated)
         || IsShort(e, left, tx.value)
       case _ => false
  }

  lemma TransferError(l: L.Ledger, from: Address, to: Address, value: u128, nonce: u64, now: u64)
    ensures var r := ApplyTransfer(l, from, to, value, nonce, now).result; var stored := Lookup(l, from).nonce;
      r.Err? ==>
        || (nonce != stored && r.error == BadNonce(stored, nonce))
        || (LiveBalance(l, from, now) < value && r.error == InsufficientBalance(LiveBalance(l, from, now), value))
  {
    ChargedSender(l, from, now);
  }

  /** So does the error of one that moves value, with the balance its sender has left after the fee. */
  lemma LedgerErrorIsTrue(seams: Seams, b: Block, w: World, tx: KernelTx)
    requires OnLedger(tx.kind)
    requires var r := ApplyTx(seams, b, w, tx); r.Mined? && !r.outcome.success
    ensures var e := ApplyTx(seams, b, w, tx).outcome.revert;
      e.Some? && ExplainsLedger(e.value, w, tx, Left(w, tx, b.timestamp), b.timestamp)
  {
    FeeIsPrice(tx.kind);
    var now := b.timestamp;
    hide LiveBalance, ChargeFee, ApplyTransfer, AccountBalance, Accrued, SettleStream;
    ChargeFeeMeaning(w.ledger, tx.from, Gas(tx.kind), now, tx.from);
    var c := ChargeFee(w.ledger, tx.from, Gas(tx.kind), now);
    match tx.kind
    case Transfer(to, value) => TransferError(c.ledger, tx.from, to, value, tx.nonce, now);
    case FundContract(id) => TransferError(c.ledger, tx.from, ContractAddress(id), tx.value, tx.nonce, now);
    case OpenStream(_, _, _) =>
      ChargeFeeSettles(w.ledger, tx.from, Gas(tx.kind), now);
      Transactions.SettledIsReported(c.ledger, tx.from, now);
      Transactions.SettledBump(Lookup(c.ledger, tx.from), now);
    case StopStream(id) => ChargedStreams(w.ledger, tx.from, Gas(tx.kind), now);
  }

  lemma ChargedStreams(l: L.Ledger, from: Address, gas: u64, now: u64)
    requires ChargeFee(l, from, gas, now).result.Ok?
    ensures var r := ChargeFee(l, from, gas, now).ledger;
      && |r.streams| == |l.streams|
      && forall i :: 0 <= i < |l.streams| ==>
        && r.streams[i].from == l.streams[i].from
        && (r.streams[i].status.Active? <==>
              l.streams[i].status.Active?
              && (l.streams[i].to == from ==>
                    Max(l.streams[i].drawn, Accrued(l.streams[i], now)) < l.streams[i].deposit))
  {
    hide SettleIncomingFrom, Settle, Accrued;
    SettleIncomingFolds(l, from, now);
  }
}
