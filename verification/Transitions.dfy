/** Who can change whose standing: the status machine of the registry and the bound on vouching, over every
    transaction kind and the sweeps (crates/runtime/src/lifecycle.rs, crates/exec/src/apply.rs). */
module Transitions {
  import opened Base
  import opened L = Ledger
  import opened World
  import opened Kernel
  import opened Lifecycle
  import Nonces
  import Sweeps
  import opened Runs

  // ---------------------------------------------------------------- the status machine

  /** The moves a transaction can make with the status of `a`, from `s` to `t`: only `a` itself registers or
      proves a passport; others can put a verified `a` under challenge, and a jury can clear or revoke it. */
  predicate LegalMove(h: Humanity, tx: KernelTx, a: Address, s: HumanStatus, t: HumanStatus) {
    match tx.kind
    case RequestVerification(_) => a == tx.from && !Registered(s) && t == Pending
    case SubmitZkPassportProof(_) => a == tx.from && s != Revoked && t == Verified
    case Challenge(subject, _) => a == subject && s == Verified && t == Challenged && StatusOf(h, tx.from) == Verified
    case SubmitVerdict(id, _) =>
      && id < |h.cases| && h.cases[id].subject == a && h.cases[id].status.Open? && tx.from in h.cases[id].jury
      && (t == Revoked || (h.cases[id].kind.Challenge? && s == Challenged && t == Verified))
    case _ => false
  }

  lemma EnforceMoves(w: World, c: Case, a: Address)
    ensures var s, t := StatusOf(w.humanity, a), StatusOf(Enforce(w, c).humanity, a);
      s == t || (c.subject == a && (t == Revoked || (c.kind.Challenge? && s == Challenged && t == Verified)))
  {
  }

  lemma VerdictMoves(w: World, id: nat, juror: Address, verdict: CanonicalVerdict, a: Address)
    ensures var r := Lifecycle.SubmitVerdict(w, id, juror, verdict);
      var s, t := StatusOf(w.humanity, a), StatusOf(r.world.humanity, a);
      s == t ||
      (&& id < |w.humanity.cases| && w.humanity.cases[id].subject == a && w.humanity.cases[id].status.Open?
       && juror in w.humanity.cases[id].jury
       && (t == Revoked || (w.humanity.cases[id].kind.Challenge? && s == Challenged && t == Verified)))
  {
    hide Enforce, StatusAfter;
    if Lifecycle.SubmitVerdict(w, id, juror, verdict).result.Ok? {
      var h := w.humanity;
      var c := WithVote(h.cases[id], juror, verdict);
      EnforceMoves(w.(humanity := h.(cases := h.cases[id := c])), c, a);
    }
  }

  lemma RequestMoves(seams: Seams, w: World, subject: Address, ref: Hash, entropy: u64, block: u64, a: Address)
    ensures var s := StatusOf(w.humanity, a);
      var t := StatusOf(Lifecycle.RequestVerification(seams, w, subject, ref, entropy, block).world.humanity, a);
      s == t || (a == subject && !Registered(s) && t == Pending)
  {
    hide JuryFor, StatusAfter;
  }

  lemma ChallengeMoves(
    seams: Seams, w: World, challenger: Address, subject: Address, ref: Hash, entropy: u64, block: u64, a: Address)
    ensures var s := StatusOf(w.humanity, a);
      var t := StatusOf(OpenChallenge(seams, w, challenger, subject, ref, entropy, block, true).world.humanity, a);
      s == t || (a == subject && s == Verified && t == Challenged && StatusOf(w.humanity, challenger) == Verified)
  {
    hide JuryFor;
  }

  lemma ZkMoves(seams: Seams, w: World, subject: Address, z: ZkSubmission, now: u64, block: u64, a: Address)
    ensures var s := StatusOf(w.humanity, a);
      var t := StatusOf(Lifecycle.SubmitZkPassportProof(seams, w, subject, z, now, block).world.humanity, a);
      s == t || (a == subject && s != Revoked && t == Verified)
  {
  }

  lemma DispatchMoves(seams: Seams, b: Block, w: World, tx: KernelTx, a: Address)
    ensures var r := Dispatch(seams, b, w, tx);
      r.Ran? ==>
        var s, t := StatusOf(w.humanity, a), StatusOf(r.world.humanity, a);
        s == t || LegalMove(w.humanity, tx, a, s, t)
  {
    hide Lifecycle.SubmitVerdict, Lifecycle.RequestVerification, OpenChallenge, Lifecycle.SubmitZkPassportProof;
    if Nonces.MovesValue(tx.kind) {
      hide Dispatch, LegalMove;
      Nonces.ValueKindFrame(seams, b, w, tx);
    } else {
      var entropy := seams.entropy(b.hash, b.number);
      match tx.kind
      case SubmitVerdict(id, verdict) => VerdictMoves(w, id, tx.from, verdict, a);
      case RequestVerification(ref) => RequestMoves(seams, w, tx.from, ref, entropy, b.number, a);
      case Challenge(subject, ref) => ChallengeMoves(seams, w, tx.from, subject, ref, entropy, b.number, a);
      case SubmitZkPassportProof(z) => ZkMoves(seams, w, tx.from, z, b.timestamp, b.number, a);
      case _ =>
    }
  }

  /** Every transaction moves every status legally or not at all. */
  lemma TxMoves(seams: Seams, b: Block, w: World, tx: KernelTx, a: Address)
    ensures var r := ApplyTx(seams, b, w, tx);
      !r.TxPanic? ==>
        var s, t := StatusOf(w.humanity, a), StatusOf(r.world.humanity, a);
        s == t || (r.Mined? && LegalMove(w.humanity, tx, a, s, t))
  {
    hide ChargeFee, Dispatch, LegalMove, Settle;
    var w1 := w.(ledger := ChargeFee(w.ledger, tx.from, Gas(tx.kind), b.timestamp).ledger);
    if ConsumesOwnNonce(tx.kind) {
      DispatchMoves(seams, b, w1, tx, a);
    } else {
      DispatchMoves(seams, b, ConsumeNonce(w1, tx.from, tx.nonce, b.timestamp).world, tx, a);
    }
  }

  /** How a human can come to be verified: by its own passport proof, by a jury that clears it of a challenge,
      or by the sweep once it has passed liveness, the vouches and the challenge window unchallenged. */
  lemma VerifiedOnlyBy(seams: Seams, w: World, e: Event, a: Address)
    requires Execute(seams, w, e).Some?
    requires StatusOf(w.humanity, a) != Verified && StatusOf(Execute(seams, w, e).value.humanity, a) == Verified
    ensures match e
      case Sweep(b) =>
        Sweeps.MayFinalize(w.humanity, a, b.number) && !Sweeps.ScanFlags(seams, w.humanity, a)
      case Tx(b, tx) =>
        || (tx.kind.SubmitZkPassportProof? && tx.from == a)
        || (tx.kind.SubmitVerdict? && StatusOf(w.humanity, a) == Challenged)
  {
    hide RunSweeps, ApplyTx, Sweeps.MayFinalize;
    match e
    case Sweep(b) => Sweeps.SweepMeaning(seams, b, w, a);
    case Tx(b, tx) => TxMoves(seams, b, w, tx, a);
  }

  // ---------------------------------------------------------------- the bound on vouching

  ghost predicate WithinCapacity(h: Humanity) { forall a: Address :: |VouchesOut(h, a)| <= VOUCH_CAPACITY }

  lemma FewerEdges(h: Humanity, r: Humanity)
    requires WithinCapacity(h) && r.vouches <= h.vouches
    ensures WithinCapacity(r)
  {
    forall a: Address ensures |VouchesOut(r, a)| <= VOUCH_CAPACITY {
      assert VouchesOut(r, a) <= VouchesOut(h, a);
      SubsetSize(VouchesOut(r, a), VouchesOut(h, a));
    }
  }

  lemma {:induction false} SubsetSize<T>(a: set<T>, b: set<T>)
    requires a <= b
    ensures |a| <= |b|
    decreases a
  {
    if a != {} {
      var x :| x in a;
      SubsetSize(a - {x}, b - {x});
    }
  }

  lemma VouchKeepsCapacity(w: World, voucher: Address, vouchee: Address)
    requires WithinCapacity(w.humanity)
    ensures WithinCapacity(Lifecycle.Vouch(w, voucher, vouchee).world.humanity)
  {
    var h, r := w.humanity, Lifecycle.Vouch(w, voucher, vouchee).world.humanity;
    if r.vouches != h.vouches {
      forall a: Address ensures |VouchesOut(r, a)| <= VOUCH_CAPACITY {
        assert VouchesOut(r, a) == if a == voucher then VouchesOut(h, a) + {(voucher, vouchee)} else VouchesOut(h, a);
      }
    }
  }

  lemma VerdictEdges(w: World, id: nat, juror: Address, verdict: CanonicalVerdict)
    ensures Lifecycle.SubmitVerdict(w, id, juror, verdict).world.humanity.vouches <= w.humanity.vouches
  {
    hide StatusAfter;
  }

  lemma DispatchKeepsCapacity(seams: Seams, b: Block, w: World, tx: KernelTx)
    requires WithinCapacity(w.humanity)
    ensures var r := Dispatch(seams, b, w, tx); r.Ran? ==> WithinCapacity(r.world.humanity)
  {
    hide WithinCapacity, Lifecycle.SubmitVerdict, Lifecycle.Vouch;
    var r := Dispatch(seams, b, w, tx);
    if tx.kind.Vouch? {
      VouchKeepsCapacity(w, tx.from, tx.kind.vouchee);
    } else if Nonces.MovesValue(tx.kind) {
      hide Dispatch;
      Nonces.ValueKindFrame(seams, b, w, tx);
    } else {
      if tx.kind.SubmitVerdict? { VerdictEdges(w, tx.kind.verdictCase, tx.from, tx.kind.verdict); }
      assert r.world.humanity.vouches <= w.humanity.vouches;
      FewerEdges(w.humanity, r.world.humanity);
    }
  }

  lemma {:induction false} FinalizeEdges(b: Block, w: World, subjects: seq<Address>)
    ensures Finalize(b, w, subjects).humanity.vouches == w.humanity.vouches
    decreases |subjects|
  {
    hide FinalizeObstacle;
    if subjects != [] {
      FinalizeEdges(b, FinalizeRegistration(w, subjects[0], b.number, b.timestamp).world, subjects[1..]);
    }
  }

  lemma {:induction false} ScanEdges(seams: Seams, b: Block, w: World, subjects: seq<Address>)
    ensures Scan(seams, b, w, subjects).humanity.vouches == w.humanity.vouches
    decreases |subjects|
  {
    if subjects != [] { ScanEdges(seams, b, ScanOne(seams, b, w, subjects[0]), subjects[1..]); }
  }

  lemma EventKeepsCapacity(seams: Seams, w: World, e: Event)
    requires WithinCapacity(w.humanity) && Execute(seams, w, e).Some?
    ensures WithinCapacity(Execute(seams, w, e).value.humanity)
  {
    hide WithinCapacity, Dispatch, ChargeFee, Scan, Finalize, Settle;
    match e
    case Sweep(b) =>
      ScanEdges(seams, b, w, PendingSubjects(w.humanity));
      var w1 := SybilScan(seams, b, w);
      FinalizeEdges(b, w1, PendingSubjects(w1.humanity));
      FewerEdges(w.humanity, RunSweeps(seams, b, w).humanity);
    case Tx(b, tx) =>
      var w1 := w.(ledger := ChargeFee(w.ledger, tx.from, Gas(tx.kind), b.timestamp).ledger);
      if ConsumesOwnNonce(tx.kind) {
        DispatchKeepsCapacity(seams, b, w1, tx);
      } else {
        DispatchKeepsCapacity(seams, b, ConsumeNonce(w1, tx.from, tx.nonce, b.timestamp).world, tx);
      }
  }

  /** Along any run, nobody has more vouches out than the capacity. */
  lemma {:induction false} CapacityOverARun(seams: Seams, w: World, events: seq<Event>)
    requires WithinCapacity(w.humanity) && Run(seams, w, events).Some?
    ensures WithinCapacity(Run(seams, w, events).value.humanity)
    decreases |events|
  {
    hide WithinCapacity, Execute;
    if events != [] {
      EventKeepsCapacity(seams, w, events[0]);
      CapacityOverARun(seams, Execute(seams, w, events[0]).value, events[1..]);
    }
  }

  // ---------------------------------------------------------------- vouchers that fall later

  /** Striking down a human clears its vouch edges, but not the vouches others have received: whoever it
      vouched for finalises exactly as before. */
  lemma RevokedVoucherStillCounts(w: World, voucher: Address, a: Address, block: u64)
    requires a != voucher && voucher in w.humanity.humans
    ensures var h, r := w.humanity, Revoke(w, voucher).humanity;
      && StatusOf(r, voucher) == Revoked && (voucher, a) !in r.vouches
      && (Sweeps.MayFinalize(r, a, block) <==> Sweeps.MayFinalize(h, a, block))
  {
  }
}
