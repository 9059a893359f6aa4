/** How a revoked human can come back (crates/runtime/src/lifecycle.rs). An upheld challenge stays on file and blocks
    finalisation for good. */
module Upheld {
  import opened Base
  import opened L = Ledger
  import opened World
  import opened Kernel
  import opened Lifecycle
  import opened Humans
  import opened Runs
  import K = KernelSupply
  import Nonces
  import Sweeps
  import Transitions

  predicate UpholdsAgainst(c: Case, a: Address) {
    c.subject == a && c.kind.Challenge? && c.status.Committed? && c.status.verdict.verdict == Sybil
  }

  predicate HasUpheld(h: Humanity, a: Address) { exists i :: 0 <= i < |h.cases| && UpholdsAgainst(h.cases[i], a) }

  /** Cases are only ever added, and a closed one never changes. */
  predicate CasesPersist(h: Humanity, r: Humanity) {
    |h.cases| <= |r.cases| && forall i :: 0 <= i < |h.cases| && !h.cases[i].status.Open? ==> r.cases[i] == h.cases[i]
  }

  /** Nobody is revoked without an upheld challenge on file. */
  ghost predicate RevokedIsUpheld(h: Humanity) { forall a: Address :: StatusOf(h, a) == Revoked ==> HasUpheld(h, a) }

  lemma UpheldPersists(h: Humanity, r: Humanity, a: Address)
    requires CasesPersist(h, r) && HasUpheld(h, a)
    ensures HasUpheld(r, a)
  {
    var i :| 0 <= i < |h.cases| && UpholdsAgainst(h.cases[i], a);
    assert UpholdsAgainst(r.cases[i], a);
  }

  lemma UpheldBlocks(h: Humanity, a: Address, block: u64)
    requires HasUpheld(h, a)
    ensures !Sweeps.MayFinalize(h, a, block)
  {
    var i :| 0 <= i < |h.cases| && UpholdsAgainst(h.cases[i], a);
    assert h.cases[i].subject == a;
  }

  // ---------------------------------------------------------------- calls

  lemma EnforceSameCases(w: World, c: Case)
    ensures Enforce(w, c).humanity.cases == w.humanity.cases
  {
  }

  lemma EnforceRevokes(w: World, c: Case, a: Address)
    ensures var s, t := StatusOf(w.humanity, a), StatusOf(Enforce(w, c).humanity, a);
      t == Revoked ==> s == Revoked || (c.subject == a && c.status.Committed? && c.status.verdict.verdict == Sybil)
  {
  }

  lemma VerdictCases(w: World, id: nat, juror: Address, verdict: CanonicalVerdict)
    requires OpenCasesLive(w.humanity) && RevokedIsUpheld(w.humanity)
    ensures var r := Lifecycle.SubmitVerdict(w, id, juror, verdict).world;
      CasesPersist(w.humanity, r.humanity) && RevokedIsUpheld(r.humanity)
  {
    hide Enforce, StatusAfter;
    var h := w.humanity;
    if Lifecycle.SubmitVerdict(w, id, juror, verdict).result.Ok? {
      var c := WithVote(h.cases[id], juror, verdict);
      var w1 := w.(humanity := h.(cases := h.cases[id := c]));
      var r := Enforce(w1, c).humanity;
      EnforceSameCases(w1, c);
      assert CasesPersist(h, r);
      forall a: Address | StatusOf(r, a) == Revoked ensures HasUpheld(r, a) {
        EnforceRevokes(w1, c, a);
        assert StatusOf(w1.humanity, a) == StatusOf(h, a);
        if StatusOf(h, a) == Revoked { UpheldPersists(h, r, a); } else { assert UpholdsAgainst(r.cases[id], a); }
      }
    }
  }

  /** A step that keeps cases and revokes nobody. */
  ghost predicate Clears(h: Humanity, r: Humanity) {
    CasesPersist(h, r) && forall a: Address :: StatusOf(r, a) == Revoked ==> StatusOf(h, a) == Revoked
  }

  lemma ClearsKeepsUpheld(h: Humanity, r: Humanity)
    requires Clears(h, r) && RevokedIsUpheld(h)
    ensures RevokedIsUpheld(r)
  {
    forall a: Address | StatusOf(r, a) == Revoked ensures HasUpheld(r, a) { UpheldPersists(h, r, a); }
  }

  lemma RequestClears(seams: Seams, w: World, subject: Address, ref: Hash, entropy: u64, block: u64)
    ensures Clears(w.humanity, Lifecycle.RequestVerification(seams, w, subject, ref, entropy, block).world.humanity)
  {
    hide JuryFor, StatusAfter;
  }

  lemma ChallengeClears(
    seams: Seams, w: World, challenger: Address, subject: Address, ref: Hash, entropy: u64, block: u64, strict: bool)
    ensures Clears(w.humanity, OpenChallenge(seams, w, challenger, subject, ref, entropy, block, strict).world.humanity)
  {
    hide JuryFor;
  }

  lemma ZkClears(seams: Seams, w: World, subject: Address, z: ZkSubmission, now: u64, block: u64)
    ensures Clears(w.humanity, Lifecycle.SubmitZkPassportProof(seams, w, subject, z, now, block).world.humanity)
  {
  }

  lemma VouchClears(w: World, voucher: Address, vouchee: Address)
    ensures Clears(w.humanity, Lifecycle.Vouch(w, voucher, vouchee).world.humanity)
  {
  }

  lemma SameClears(h: Humanity)
    ensures Clears(h, h)
  {
  }

  lemma DispatchKeepsUpheld(seams: Seams, b: Block, w: World, tx: KernelTx)
    requires OpenCasesLive(w.humanity) && RevokedIsUpheld(w.humanity)
    ensures var r := Dispatch(seams, b, w, tx);
      r.Ran? ==> CasesPersist(w.humanity, r.world.humanity) && RevokedIsUpheld(r.world.humanity)
  {
    hide Lifecycle.SubmitVerdict, Lifecycle.RequestVerification, OpenChallenge, Lifecycle.SubmitZkPassportProof,
         Lifecycle.Vouch, Clears, RevokedIsUpheld, OpenCasesLive, CasesPersist;
    var r := Dispatch(seams, b, w, tx);
    if tx.kind.SubmitVerdict? {
      VerdictCases(w, tx.kind.verdictCase, tx.from, tx.kind.verdict);
    } else {
      var entropy := seams.entropy(b.hash, b.number);
      SameClears(w.humanity);
      if Nonces.MovesValue(tx.kind) {
        hide Dispatch;
        Nonces.ValueKindFrame(seams, b, w, tx);
      } else {
        match tx.kind
        case RequestVerification(ref) => RequestClears(seams, w, tx.from, ref, entropy, b.number);
        case Challenge(subject, ref) => ChallengeClears(seams, w, tx.from, subject, ref, entropy, b.number, true);
        case SubmitZkPassportProof(z) => ZkClears(seams, w, tx.from, z, b.timestamp, b.number);
        case Vouch(vouchee) => VouchClears(w, tx.from, vouchee);
        case _ =>
      }
      if r.Ran? {
        assert Clears(w.humanity, r.world.humanity);
        ClearsKeepsUpheld(w.humanity, r.world.humanity);
        ClearsMeaning(w.humanity, r.world.humanity);
      }
    }
  }

  lemma ClearsMeaning(h: Humanity, r: Humanity)
    requires Clears(h, r)
    ensures CasesPersist(h, r)
  {
  }

  // ---------------------------------------------------------------- sweeps

  lemma ClearsChain(h: Humanity, g: Humanity, r: Humanity)
    requires Clears(h, g) && Clears(g, r)
    ensures Clears(h, r)
  {
  }

  lemma {:induction false} ScanClears(seams: Seams, b: Block, w: World, subjects: seq<Address>)
    ensures Clears(w.humanity, Scan(seams, b, w, subjects).humanity)
    decreases |subjects|
  {
    hide Clears, OpenChallenge;
    SameClears(w.humanity);
    if subjects != [] {
      var w1 := ScanOne(seams, b, w, subjects[0]);
      ChallengeClears(seams, w, HUMANITY_HUB, subjects[0], seams.sybilEvidence(subjects[0], b.hash),
                      seams.entropy(b.hash, b.number), b.number, false);
      ScanClears(seams, b, w1, subjects[1..]);
      ClearsChain(w.humanity, w1.humanity, Scan(seams, b, w, subjects).humanity);
    }
  }

  lemma {:induction false} FinalizeClears(b: Block, w: World, subjects: seq<Address>)
    ensures Clears(w.humanity, Finalize(b, w, subjects).humanity)
    decreases |subjects|
  {
    hide Clears, FinalizeRegistration;
    SameClears(w.humanity);
    if subjects != [] {
      var w1 := FinalizeRegistration(w, subjects[0], b.number, b.timestamp).world;
      FinalizeOneClears(w, subjects[0], b.number, b.timestamp);
      FinalizeClears(b, w1, subjects[1..]);
      ClearsChain(w.humanity, w1.humanity, Finalize(b, w, subjects).humanity);
    }
  }

  lemma FinalizeOneClears(w: World, subject: Address, block: u64, now: u64)
    ensures Clears(w.humanity, FinalizeRegistration(w, subject, block, now).world.humanity)
  {
  }

  // ---------------------------------------------------------------- runs

  lemma EventKeepsUpheld(seams: Seams, w: World, e: Event)
    requires OpenCasesLive(w.humanity) && RevokedIsUpheld(w.humanity) && Execute(seams, w, e).Some?
    ensures var r := Execute(seams, w, e).value;
      CasesPersist(w.humanity, r.humanity) && RevokedIsUpheld(r.humanity)
  {
    hide RevokedIsUpheld, Dispatch, ChargeFee, Scan, Finalize, Settle, OpenCasesLive, Clears;
    match e
    case Sweep(b) =>
      ScanClears(seams, b, w, PendingSubjects(w.humanity));
      var w1 := SybilScan(seams, b, w);
      FinalizeClears(b, w1, PendingSubjects(w1.humanity));
      ClearsChain(w.humanity, w1.humanity, RunSweeps(seams, b, w).humanity);
      ClearsKeepsUpheld(w.humanity, RunSweeps(seams, b, w).humanity);
      ClearsMeaning(w.humanity, RunSweeps(seams, b, w).humanity);
    case Tx(b, tx) =>
      DispatchKeepsUpheld(seams, b, K.Charged(w, tx, b.timestamp), tx);
      DispatchKeepsUpheld(seams, b, K.Stepped(w, tx, b.timestamp).world, tx);
  }

  lemma {:induction false} UpheldOverARun(seams: Seams, w: World, events: seq<Event>, i: nat)
    requires i <= |events| && HumansOk(w) && RevokedIsUpheld(w.humanity) && Run(seams, w, events).Some?
    ensures var r := Before(seams, w, events, i);
      && HumansOk(r) && RevokedIsUpheld(r.humanity)
      && forall a: Address :: HasUpheld(w.humanity, a) ==> HasUpheld(r.humanity, a)
    decreases |events|
  {
    hide Execute, RevokedIsUpheld, HasUpheld, CasesPersist, EmissionGate, VouchesLive, OneOpenChallenge,
         ChallengedHasCase;
    if i > 0 {
      var next := Execute(seams, w, events[0]).value;
      EventKeepsUpheld(seams, w, events[0]);
      EventKeepsHumans(seams, w, events[0]);
      forall a: Address | HasUpheld(w.humanity, a) ensures HasUpheld(next.humanity, a) {
        UpheldPersists(w.humanity, next.humanity, a);
      }
      UpheldOverARun(seams, next, events[1..], i - 1);
    }
  }

  lemma ComesBackByPassport(seams: Seams, w: World, e: Event, a: Address)
    requires HasUpheld(w.humanity, a) && Execute(seams, w, e).Some?
    requires !Emits(StatusOf(w.humanity, a)) && Emits(StatusOf(Execute(seams, w, e).value.humanity, a))
    ensures e.Tx? && e.tx.kind.SubmitZkPassportProof? && e.tx.from == a && StatusOf(w.humanity, a) != Revoked
  {
    hide ApplyTx, RunSweeps, Sweeps.MayFinalize;
    match e
    case Sweep(b) =>
      Sweeps.SweepMeaning(seams, b, w, a);
      UpheldBlocks(w.humanity, a, b.number);
    case Tx(b, tx) => Transitions.TxMoves(seams, b, w, tx, a);
  }

  lemma {:induction false} BeforeSplits(seams: Seams, w: World, events: seq<Event>, i: nat, j: nat)
    requires i <= j <= |events| && Run(seams, w, events).Some?
    ensures Run(seams, Before(seams, w, events, i), events[i..]).Some?
    ensures Before(seams, Before(seams, w, events, i), events[i..], j - i) == Before(seams, w, events, j)
    decreases |events|
  {
    hide Execute;
    if i == 0 {
      assert events[0..] == events;
    } else {
      BeforeSplits(seams, Execute(seams, w, events[0]).value, events[1..], i - 1, j - 1);
      assert events[1..][i - 1..] == events[i..];
    }
  }

  lemma {:induction false} NextBefore(seams: Seams, w: World, events: seq<Event>, j: nat)
    requires j < |events| && Run(seams, w, events).Some?
    ensures Execute(seams, Before(seams, w, events, j), events[j]) == Some(Before(seams, w, events, j + 1))
    decreases |events|
  {
    hide Execute;
    if j > 0 { NextBefore(seams, Execute(seams, w, events[0]).value, events[1..], j - 1); }
  }

  /** Along any run, a human once revoked emits again only by a passport proof of its own, after registering anew: no
      sweep and no jury ever brings it back. */
  lemma RevokedReturnsByPassportOnly(seams: Seams, w: World, events: seq<Event>, i: nat, j: nat, a: Address)
    requires HumansOk(w) && RevokedIsUpheld(w.humanity) && i <= j < |events| && Run(seams, w, events).Some?
    requires StatusOf(Before(seams, w, events, i).humanity, a) == Revoked
    requires !Emits(StatusOf(Before(seams, w, events, j).humanity, a))
    requires Emits(StatusOf(Before(seams, w, events, j + 1).humanity, a))
    ensures events[j].Tx? && events[j].tx.kind.SubmitZkPassportProof? && events[j].tx.from == a
    ensures StatusOf(Before(seams, w, events, j).humanity, a) != Revoked
  {
    hide Execute, HumansOk, HasUpheld, Emits, Before;
    var w1 := Before(seams, w, events, i);
    UpheldOverARun(seams, w, events, i);
    BeforeSplits(seams, w, events, i, j);
    UpheldOverARun(seams, w1, events[i..], j - i);
    NextBefore(seams, w, events, j);
    ComesBackByPassport(seams, Before(seams, w, events, j), events[j], a);
  }
}
