/** Whose vouches a finalisation counts (crates/runtime/src/lifecycle.rs). A human keeps the vouches it has
    received when a voucher is struck down; only the voucher's edges go. */
module Vouchers {
  import opened Base
  import opened L = Ledger
  import opened World
  import opened Kernel
  import opened Lifecycle
  import opened Humans
  import opened Runs
  import K = KernelSupply
  import Nonces
  import Sweeps

  type Pair = (Address, Address)

  /** The vouches a finalisation of `a` counts. */
  function Counted(h: Humanity, a: Address): set<Address> { if a in h.humans then h.humans[a].vouchesIn else {} }

  /** The vouchers with an edge to `a`, as `vouchers_of` lists them. */
  function EdgesInto(h: Humanity, a: Address): set<Address> { set e | e in h.vouches && e.1 == a :: e.0 }

  predicate StruckDown(h: Humanity, r: Humanity, v: Address) {
    Registered(StatusOf(h, v)) && !Registered(StatusOf(r, v))
  }

  // ---------------------------------------------------------------- history

  /** Whether a committed transaction gives the vouch `p` anew, or starts its vouchee's registration anew. */
  predicate Renews(tx: KernelTx, p: Pair) {
    match tx.kind
    case Vouch(vouchee) => p == (tx.from, vouchee)
    case RequestVerification(_) => p.1 == tx.from
    case _ => false
  }

  /** The vouches whose voucher has been struck down since it gave them, after one more event. */
  ghost function NextLapsed(seams: Seams, w: World, e: Event, lapsed: iset<Pair>): iset<Pair>
    requires Execute(seams, w, e).Some?
  {
    var h, r := w.humanity, Execute(seams, w, e).value.humanity;
    iset p: Pair |
      && (p in lapsed || (p.0 in Counted(h, p.1) && StruckDown(h, r, p.0)))
      && !(Commits(seams, w, e) && Renews(e.tx, p))
  }

  ghost function Lapsed(seams: Seams, w: World, events: seq<Event>, lapsed: iset<Pair>): iset<Pair>
    requires Run(seams, w, events).Some?
    decreases |events|
  {
    if events == [] then lapsed
    else Lapsed(seams, Execute(seams, w, events[0]).value, events[1..], NextLapsed(seams, w, events[0], lapsed))
  }

  // ---------------------------------------------------------------- invariant

  /** Edges come from humans in good standing, and the vouches a pending human has received are its edges and,
      apart from them, the lapsed vouches. */
  ghost predicate VouchesOk(h: Humanity, lapsed: iset<Pair>) {
    && (forall e :: e in h.vouches ==> Emits(StatusOf(h, e.0)))
    && (forall v: Address, a: Address :: StatusOf(h, a) == Pending ==>
          && (v in Counted(h, a) <==> (v, a) in h.vouches || (v, a) in lapsed)
          && !((v, a) in h.vouches && (v, a) in lapsed))
  }

  /** The lapsed vouches after a step from `h` to `r`, given which vouches it renews. */
  ghost predicate Steps(h: Humanity, r: Humanity, lapsed: iset<Pair>, next: iset<Pair>, renewed: iset<Pair>) {
    forall p: Pair :: p in next <==> (p in lapsed || (p.0 in Counted(h, p.1) && StruckDown(h, r, p.0))) && p !in renewed
  }

  /** A step that strikes nobody down, moves no edge and no count, and makes nobody pending. */
  ghost predicate Quiet(h: Humanity, r: Humanity) {
    && r.vouches == h.vouches
    && forall a: Address ::
         && (StatusOf(r, a) == Pending ==> StatusOf(h, a) == Pending && Counted(r, a) == Counted(h, a))
         && (Emits(StatusOf(h, a)) ==> Emits(StatusOf(r, a)))
         && (Registered(StatusOf(h, a)) ==> Registered(StatusOf(r, a)))
  }

  lemma QuietKeepsVouches(h: Humanity, r: Humanity, lapsed: iset<Pair>, next: iset<Pair>)
    requires VouchesOk(h, lapsed) && Quiet(h, r) && Steps(h, r, lapsed, next, iset{})
    ensures VouchesOk(r, next)
  {
    hide Emits, Registered;
    forall v: Address ensures !StruckDown(h, r, v) {}
    forall p: Pair ensures p in next <==> p in lapsed {}
  }

  lemma VouchKeepsVouches(w: World, voucher: Address, vouchee: Address, lapsed: iset<Pair>, next: iset<Pair>)
    requires VouchesOk(w.humanity, lapsed) && Lifecycle.Vouch(w, voucher, vouchee).result.Ok?
    requires Steps(w.humanity, Lifecycle.Vouch(w, voucher, vouchee).world.humanity,
                   lapsed, next, iset{(voucher, vouchee)})
    ensures VouchesOk(Lifecycle.Vouch(w, voucher, vouchee).world.humanity, next)
  {
    var h, r := w.humanity, Lifecycle.Vouch(w, voucher, vouchee).world.humanity;
    assert forall a: Address :: StatusOf(r, a) == StatusOf(h, a);
    forall v: Address ensures !StruckDown(h, r, v) {}
  }

  lemma RequestKeepsVouches(
    seams: Seams, w: World, subject: Address, ref: Hash, entropy: u64, block: u64, lapsed: iset<Pair>, next: iset<Pair>)
    requires VouchesOk(w.humanity, lapsed) && VouchesLive(w.humanity)
    requires Lifecycle.RequestVerification(seams, w, subject, ref, entropy, block).result.Ok?
    requires Steps(w.humanity, Lifecycle.RequestVerification(seams, w, subject, ref, entropy, block).world.humanity,
                   lapsed, next, iset p: Pair | p.1 == subject)
    ensures VouchesOk(Lifecycle.RequestVerification(seams, w, subject, ref, entropy, block).world.humanity, next)
  {
    hide JuryFor, StatusAfter;
    var h, r := w.humanity, Lifecycle.RequestVerification(seams, w, subject, ref, entropy, block).world.humanity;
    assert forall a: Address :: a != subject ==> StatusOf(r, a) == StatusOf(h, a) && Counted(r, a) == Counted(h, a);
    assert StatusOf(r, subject) == Pending && Counted(r, subject) == {};
    forall v: Address ensures !StruckDown(h, r, v) {}
    forall e | e in h.vouches ensures e.0 != subject {}
    assert forall v: Address, a: Address :: a != subject ==> ((v, a) in r.vouches <==> (v, a) in h.vouches);
  }

  // ---------------------------------------------------------------- verdicts

  lemma RevokeKeepsVouches(w: World, subject: Address, lapsed: iset<Pair>, next: iset<Pair>)
    requires VouchesOk(w.humanity, lapsed) && Registered(StatusOf(w.humanity, subject))
    requires Steps(w.humanity, Revoke(w, subject).humanity, lapsed, next, iset{})
    ensures VouchesOk(Revoke(w, subject).humanity, next)
  {
    var h, r := w.humanity, Revoke(w, subject).humanity;
    assert forall a: Address :: a != subject ==> StatusOf(r, a) == StatusOf(h, a) && Counted(r, a) == Counted(h, a);
    assert StatusOf(r, subject) == Revoked;
    forall v: Address ensures StruckDown(h, r, v) <==> v == subject {}
    assert forall v: Address, a: Address ::
      (v, a) in r.vouches <==> (v, a) in h.vouches && v != subject && a != subject;
  }

  lemma EnforceIsQuiet(w: World, c: Case)
    requires !(c.status.Committed? && c.status.verdict.verdict == Sybil)
    ensures Quiet(w.humanity, Enforce(w, c).humanity)
  {
  }

  lemma SameBefore(h: Humanity, g: Humanity, r: Humanity, lapsed: iset<Pair>, next: iset<Pair>)
    requires g == h.(cases := g.cases) && VouchesOk(h, lapsed) && Steps(h, r, lapsed, next, iset{})
    ensures VouchesOk(g, lapsed) && Steps(g, r, lapsed, next, iset{})
  {
    assert forall a: Address :: StatusOf(g, a) == StatusOf(h, a) && Counted(g, a) == Counted(h, a);
  }

  lemma VerdictKeepsVouches(
    w: World, id: nat, juror: Address, verdict: CanonicalVerdict, lapsed: iset<Pair>, next: iset<Pair>)
    requires VouchesOk(w.humanity, lapsed) && OpenCasesLive(w.humanity)
    requires Steps(w.humanity, Lifecycle.SubmitVerdict(w, id, juror, verdict).world.humanity, lapsed, next, iset{})
    ensures VouchesOk(Lifecycle.SubmitVerdict(w, id, juror, verdict).world.humanity, next)
  {
    hide StatusAfter, VouchesOk, Steps, Quiet;
    var h := w.humanity;
    var a := Lifecycle.SubmitVerdict(w, id, juror, verdict);
    if a.result.Err? {
      assert Quiet(h, h) by { QuietSelf(h); }
      QuietKeepsVouches(h, h, lapsed, next);
    } else {
      var c := WithVote(h.cases[id], juror, verdict);
      var w1 := w.(humanity := h.(cases := h.cases[id := c]));
      var r := Enforce(w1, c);
      SameBefore(h, w1.humanity, r.humanity, lapsed, next);
      if c.status.Committed? && c.status.verdict.verdict == Sybil {
        RevokeKeepsVouches(w1, c.subject, lapsed, next);
      } else {
        EnforceIsQuiet(w1, c);
        QuietKeepsVouches(w1.humanity, r.humanity, lapsed, next);
      }
    }
  }

  lemma QuietSelf(h: Humanity)
    ensures Quiet(h, h)
  {
  }

  // ---------------------------------------------------------------- every kind

  ghost function Renewed(tx: KernelTx, ok: bool): iset<Pair> { iset p: Pair | ok && Renews(tx, p) }

  lemma FailedRequestIsQuiet(
    seams: Seams, w: World, subject: Address, ref: Hash, entropy: u64, block: u64, lapsed: iset<Pair>)
    requires VouchesOk(w.humanity, lapsed) && VouchesLive(w.humanity)
    requires Lifecycle.RequestVerification(seams, w, subject, ref, entropy, block).result.Err?
    ensures Quiet(w.humanity, Lifecycle.RequestVerification(seams, w, subject, ref, entropy, block).world.humanity)
  {
    if !Registered(StatusOf(w.humanity, subject)) {
      assert ClearVouchEdges(w.humanity, subject).vouches == w.humanity.vouches;
    }
  }

  lemma ChallengeIsQuiet(
    seams: Seams, w: World, challenger: Address, subject: Address, ref: Hash, entropy: u64, block: u64)
    ensures Quiet(w.humanity, OpenChallenge(seams, w, challenger, subject, ref, entropy, block, true).world.humanity)
  {
    hide JuryFor;
  }

  lemma ZkIsQuiet(seams: Seams, w: World, subject: Address, z: ZkSubmission, now: u64, block: u64)
    ensures Quiet(w.humanity, Lifecycle.SubmitZkPassportProof(seams, w, subject, z, now, block).world.humanity)
  {
  }

  lemma OtherKindIsQuiet(seams: Seams, b: Block, w: World, tx: KernelTx)
    requires !tx.kind.Vouch? && !tx.kind.RequestVerification? && !tx.kind.SubmitVerdict?
    ensures var r := Dispatch(seams, b, w, tx); r.Ran? ==> Quiet(w.humanity, r.world.humanity)
  {
    hide Quiet, OpenChallenge, Lifecycle.SubmitZkPassportProof;
    QuietSelf(w.humanity);
    if Nonces.MovesValue(tx.kind) {
      hide Dispatch;
      Nonces.ValueKindFrame(seams, b, w, tx);
    } else {
      match tx.kind
      case Challenge(subject, ref) =>
        ChallengeIsQuiet(seams, w, tx.from, subject, ref, seams.entropy(b.hash, b.number), b.number);
      case SubmitZkPassportProof(z) => ZkIsQuiet(seams, w, tx.from, z, b.timestamp, b.number);
      case _ =>
    }
  }

  lemma NothingRenewed(tx: KernelTx, ok: bool)
    ensures !ok || !(tx.kind.Vouch? || tx.kind.RequestVerification?) ==> Renewed(tx, ok) == iset{}
    ensures ok && tx.kind.Vouch? ==> Renewed(tx, ok) == iset{(tx.from, tx.kind.vouchee)}
    ensures ok && tx.kind.RequestVerification? ==> Renewed(tx, ok) == iset p: Pair | p.1 == tx.from
  {
  }

  lemma DispatchKeepsVouches(seams: Seams, b: Block, w: World, tx: KernelTx, lapsed: iset<Pair>, next: iset<Pair>)
    requires VouchesOk(w.humanity, lapsed) && RegistryOk(w.humanity) && Dispatch(seams, b, w, tx).Ran?
    requires var r := Dispatch(seams, b, w, tx);
      Steps(w.humanity, r.world.humanity, lapsed, next, Renewed(tx, r.result.Ok?))
    ensures VouchesOk(Dispatch(seams, b, w, tx).world.humanity, next)
  {
    hide VouchesOk, Steps, Renewed, Lifecycle.Vouch, Lifecycle.RequestVerification, Lifecycle.SubmitVerdict, Quiet;
    var r := Dispatch(seams, b, w, tx);
    NothingRenewed(tx, r.result.Ok?);
    if tx.kind.SubmitVerdict? {
      VerdictKeepsVouches(w, tx.kind.verdictCase, tx.from, tx.kind.verdict, lapsed, next);
    } else if tx.kind.Vouch? {
      if r.result.Ok? {
        VouchKeepsVouches(w, tx.from, tx.kind.vouchee, lapsed, next);
      } else {
        FailedVouchIsQuiet(w, tx.from, tx.kind.vouchee);
        QuietKeepsVouches(w.humanity, r.world.humanity, lapsed, next);
      }
    } else if tx.kind.RequestVerification? {
      var entropy := seams.entropy(b.hash, b.number);
      if r.result.Ok? {
        RequestKeepsVouches(seams, w, tx.from, tx.kind.livenessRef, entropy, b.number, lapsed, next);
      } else {
        FailedRequestIsQuiet(seams, w, tx.from, tx.kind.livenessRef, entropy, b.number, lapsed);
        QuietKeepsVouches(w.humanity, r.world.humanity, lapsed, next);
      }
    } else {
      hide Dispatch;
      OtherKindIsQuiet(seams, b, w, tx);
      QuietKeepsVouches(w.humanity, r.world.humanity, lapsed, next);
    }
  }

  lemma FailedVouchIsQuiet(w: World, voucher: Address, vouchee: Address)
    ensures Lifecycle.Vouch(w, voucher, vouchee).result.Err? ==>
      Quiet(w.humanity, Lifecycle.Vouch(w, voucher, vouchee).world.humanity)
  {
  }

  // ---------------------------------------------------------------- sweeps

  lemma QuietChain(h: Humanity, g: Humanity, r: Humanity)
    requires Quiet(h, g) && Quiet(g, r)
    ensures Quiet(h, r)
  {
    hide Emits, Registered;
  }

  lemma {:induction false} ScanIsQuiet(seams: Seams, b: Block, w: World, subjects: seq<Address>)
    ensures Quiet(w.humanity, Scan(seams, b, w, subjects).humanity)
    decreases |subjects|
  {
    if subjects == [] {
      QuietSelf(w.humanity);
    } else {
      hide Quiet;
      var w1 := ScanOne(seams, b, w, subjects[0]);
      ScanOneIsQuiet(seams, b, w, subjects[0]);
      ScanIsQuiet(seams, b, w1, subjects[1..]);
      QuietChain(w.humanity, w1.humanity, Scan(seams, b, w, subjects).humanity);
    }
  }

  lemma ScanOneIsQuiet(seams: Seams, b: Block, w: World, subject: Address)
    ensures Quiet(w.humanity, ScanOne(seams, b, w, subject).humanity)
  {
  }

  lemma FinalizeOneIsQuiet(w: World, subject: Address, block: u64, now: u64)
    ensures Quiet(w.humanity, FinalizeRegistration(w, subject, block, now).world.humanity)
  {
  }

  lemma {:induction false} FinalizeIsQuiet(b: Block, w: World, subjects: seq<Address>)
    ensures Quiet(w.humanity, Finalize(b, w, subjects).humanity)
    decreases |subjects|
  {
    if subjects == [] {
      QuietSelf(w.humanity);
    } else {
      hide Quiet, FinalizeRegistration;
      var w1 := FinalizeRegistration(w, subjects[0], b.number, b.timestamp).world;
      FinalizeOneIsQuiet(w, subjects[0], b.number, b.timestamp);
      FinalizeIsQuiet(b, w1, subjects[1..]);
      QuietChain(w.humanity, w1.humanity, Finalize(b, w, subjects).humanity);
    }
  }

  lemma SweepIsQuiet(seams: Seams, b: Block, w: World)
    ensures Quiet(w.humanity, RunSweeps(seams, b, w).humanity)
  {
    hide Quiet, Scan, Finalize;
    ScanIsQuiet(seams, b, w, PendingSubjects(w.humanity));
    var w1 := SybilScan(seams, b, w);
    FinalizeIsQuiet(b, w1, PendingSubjects(w1.humanity));
    QuietChain(w.humanity, w1.humanity, RunSweeps(seams, b, w).humanity);
  }

  // ---------------------------------------------------------------- runs

  /** What became of the registry: what the call did, or nothing when it was never made. */
  lemma TxHumanity(seams: Seams, b: Block, w: World, tx: KernelTx)
    ensures var r := ApplyTx(seams, b, w, tx);
      r.TxPanic? || (r.world.humanity == w.humanity && !(r.Mined? && r.outcome.success)) ||
      exists w1: World :: w1.humanity == w.humanity &&
        (var d := Dispatch(seams, b, w1, tx);
         d.Ran? && r.Mined? && r.outcome.success == d.result.Ok? && r.world.humanity == d.world.humanity)
  {
    hide Dispatch, ChargeFee, Settle;
    var r := ApplyTx(seams, b, w, tx);
    var w1 := if ConsumesOwnNonce(tx.kind) then K.Charged(w, tx, b.timestamp) else K.Stepped(w, tx, b.timestamp).world;
    assert w1.humanity == w.humanity;
    var d := Dispatch(seams, b, w1, tx);
  }

  lemma TxKeepsVouches(seams: Seams, b: Block, w: World, tx: KernelTx, lapsed: iset<Pair>)
    requires VouchesOk(w.humanity, lapsed) && RegistryOk(w.humanity) && !ApplyTx(seams, b, w, tx).TxPanic?
    ensures VouchesOk(ApplyTx(seams, b, w, tx).world.humanity, NextLapsed(seams, w, Tx(b, tx), lapsed))
  {
    hide ApplyTx, Dispatch, RegistryOk, VouchesOk, StruckDown, Renews, Quiet;
    var e := Tx(b, tx);
    var r := ApplyTx(seams, b, w, tx);
    var next := NextLapsed(seams, w, e, lapsed);
    TxHumanity(seams, b, w, tx);
    if r.world.humanity == w.humanity && !(r.Mined? && r.outcome.success) {
      assert Steps(w.humanity, w.humanity, lapsed, next, iset{});
      QuietSelf(w.humanity);
      QuietKeepsVouches(w.humanity, w.humanity, lapsed, next);
    } else {
      var w1: World :| w1.humanity == w.humanity &&
        (var d := Dispatch(seams, b, w1, tx);
         d.Ran? && r.Mined? && r.outcome.success == d.result.Ok? && r.world.humanity == d.world.humanity);
      var d := Dispatch(seams, b, w1, tx);
      assert Commits(seams, w, e) == d.result.Ok?;
      assert Steps(w.humanity, d.world.humanity, lapsed, next, Renewed(tx, d.result.Ok?));
      DispatchKeepsVouches(seams, b, w1, tx, lapsed, next);
    }
  }

  lemma EventKeepsVouches(seams: Seams, w: World, e: Event, lapsed: iset<Pair>)
    requires VouchesOk(w.humanity, lapsed) && RegistryOk(w.humanity) && Execute(seams, w, e).Some?
    ensures VouchesOk(Execute(seams, w, e).value.humanity, NextLapsed(seams, w, e, lapsed))
  {
    hide VouchesOk, RegistryOk, ApplyTx, RunSweeps, Quiet;
    match e
    case Tx(b, tx) => TxKeepsVouches(seams, b, w, tx, lapsed);
    case Sweep(b) =>
      var r := RunSweeps(seams, b, w).humanity;
      var next := NextLapsed(seams, w, e, lapsed);
      SweepIsQuiet(seams, b, w);
      assert Steps(w.humanity, r, lapsed, next, iset{});
      QuietKeepsVouches(w.humanity, r, lapsed, next);
  }

  /** Along any run, the vouches a pending human has received are exactly the edges into it and, apart from them,
      the vouches whose voucher has been struck down since it gave them. */
  lemma {:induction false} VouchesOverARun(seams: Seams, w: World, events: seq<Event>, lapsed: iset<Pair>)
    requires HumansOk(w) && VouchesOk(w.humanity, lapsed) && Run(seams, w, events).Some?
    ensures VouchesOk(Run(seams, w, events).value.humanity, Lapsed(seams, w, events, lapsed))
    decreases |events|
  {
    hide VouchesOk, RegistryOk, EmissionGate, Execute, NextLapsed;
    if events != [] {
      EventKeepsVouches(seams, w, events[0], lapsed);
      EventKeepsHumans(seams, w, events[0]);
      var next := Execute(seams, w, events[0]).value;
      VouchesOverARun(seams, next, events[1..], NextLapsed(seams, w, events[0], lapsed));
    }
  }

  /** Of the vouchers counted for a human that a sweep verifies after any run, those that have stood ever since they
      vouched are exactly the edges into it, and these are in good standing after the sweep too. So the required
      number stand if and only if there are as many edges, and all counted ones if and only if the edges are all. */
  lemma CountedVouchersStandExactlyWhen(seams: Seams, w: World, events: seq<Event>, b: Block, a: Address)
    requires HumansOk(w) && VouchesOk(w.humanity, iset{}) && Run(seams, w, events).Some?
    requires var w1 := Run(seams, w, events).value;
      StatusOf(w1.humanity, a) != Verified && StatusOf(RunSweeps(seams, b, w1).humanity, a) == Verified
    ensures var h, lapsed := Run(seams, w, events).value.humanity, Lapsed(seams, w, events, iset{});
      var counted := Counted(h, a);
      && |counted| >= MIN_VOUCHES
      && EdgesInto(h, a) <= counted
      && (set v | v in counted && (v, a) !in lapsed) == EdgesInto(h, a)
      && (|set v | v in counted && (v, a) !in lapsed| >= MIN_VOUCHES <==> |EdgesInto(h, a)| >= MIN_VOUCHES)
      && ((forall v :: v in counted ==> (v, a) !in lapsed) <==> EdgesInto(h, a) == counted)
      && forall v :: v in EdgesInto(h, a) ==>
           Emits(StatusOf(RunSweeps(seams, b, Run(seams, w, events).value).humanity, v))
  {
    hide Run, RunSweeps, Lapsed, RegistryOk, EmissionGate;
    var w1 := Run(seams, w, events).value;
    var h := w1.humanity;
    var lapsed := Lapsed(seams, w, events, iset{});
    VouchesOverARun(seams, w, events, iset{});
    Sweeps.SweepMeaning(seams, b, w1, a);
    SweepIsQuiet(seams, b, w1);
    forall v: Address ensures v in EdgesInto(h, a) <==> (v, a) in h.vouches {
      if (v, a) in h.vouches { assert (v, a).0 in EdgesInto(h, a); }
    }
    assert (set v | v in Counted(h, a) && (v, a) !in lapsed) == EdgesInto(h, a);
  }
}
