/** What the two end-of-block sweeps decide, for every pending human at once. */
module Sweeps {
  import opened Base
  import opened L = Ledger
  import opened World
  import opened Kernel
  import opened Lifecycle
  import Jury

  // ---------------------------------------------------------------- the gate

  /** Case `k` is the last registration of `s`. */
  predicate IsLastRegistration(cases: seq<Case>, s: Address, k: nat) {
    && k < |cases| && cases[k].subject == s && cases[k].kind.Registration?
    && forall j :: k < j < |cases| ==> !(cases[j].subject == s && cases[j].kind.Registration?)
  }

  /** Its jury found a human, and the challenge window of five blocks is over. */
  predicate PassedBy(c: Case, block: u64) {
    c.status.Committed? && c.status.verdict.verdict == Human && Min(c.openedAt + 5, U64_MAX) <= block
  }

  /** A pending human whose last registration passed liveness and the window, with two vouches received, and with no
      challenge against it that is open or was upheld. */
  predicate MayFinalize(h: Humanity, s: Address, block: u64) {
    && s in h.humans && h.humans[s].status == Pending
    && (exists k :: 0 <= k < |h.cases| && IsLastRegistration(h.cases, s, k) && PassedBy(h.cases[k], block))
    && |h.humans[s].vouchesIn| >= 2
    && forall j :: 0 <= j < |h.cases| && h.cases[j].subject == s && h.cases[j].kind.Challenge? ==>
         match h.cases[j].status
         case Open => false
         case Committed(v) => v.verdict != Sybil
         case Escalated => true
  }

  lemma {:induction false} LastIsLatest(cases: seq<Case>, s: Address)
    ensures forall k: nat :: IsLastRegistration(cases, s, k) ==> LatestRegistration(cases, s) == Some(cases[k])
    ensures LatestRegistration(cases, s).Some? ==> exists k :: 0 <= k < |cases| && IsLastRegistration(cases, s, k)
  {
    if cases != [] {
      var end := |cases| - 1;
      var rest := cases[..end];
      if cases[end].subject == s && cases[end].kind.Registration? {
        assert IsLastRegistration(cases, s, end);
      } else {
        LastIsLatest(rest, s);
        forall k: nat | k < |rest| ensures IsLastRegistration(rest, s, k) <==> IsLastRegistration(cases, s, k) {
        }
        if LatestRegistration(cases, s).Some? {
          var k :| 0 <= k < |rest| && IsLastRegistration(rest, s, k);
          assert IsLastRegistration(cases, s, k);
        }
      }
    }
  }

  /** The gate of the code, which walks back over the cases, is that condition. */
  lemma GateMeaning(h: Humanity, s: Address, block: u64)
    ensures FinalizeObstacle(h, s, block).None? <==> MayFinalize(h, s, block)
  {
    hide LatestRegistration;
    LastIsLatest(h.cases, s);
    if LatestRegistration(h.cases, s).Some? {
      var k :| 0 <= k < |h.cases| && IsLastRegistration(h.cases, s, k);
      assert LatestRegistration(h.cases, s) == Some(h.cases[k]);
    }
    forall j | 0 <= j < |h.cases| && h.cases[j].subject == s && h.cases[j].kind.Challenge? && MayFinalize(h, s, block)
      ensures !BlocksFinalization(h.cases[j], s)
    {
    }
    forall j | 0 <= j < |h.cases| && BlocksFinalization(h.cases[j], s) ensures HasPendingOrUpheldChallenge(h, s) {
    }
  }

  /** The scan files a challenge against this subject, unless one is already open. */
  predicate ScanFlags(seams: Seams, h: Humanity, subject: Address) {
    && seams.analyzeSybil(h.vouches, subject).verdict == Sybil
    && h.jurors != {}
    && (HUMANITY_HUB, subject) !in h.cleared
  }

  // ---------------------------------------------------------------- the scan

  /** A challenge as the scan files it in this block: by the hub, without votes, before a jury. */
  ghost predicate IsFiled(seams: Seams, b: Block, h: Humanity, c: Case) {
    && c.kind.Challenge? && c.status.Open? && c.votes == [] && c.challenger == HUMANITY_HUB
    && c.evidenceRef == seams.sybilEvidence(c.subject, b.hash) && c.openedAt == b.number
    && |c.jury| == Min(3, |h.jurors|) && Jury.Distinct(c.jury) && forall x :: x in c.jury ==> x in h.jurors
  }

  /** A scan only files challenges, at most one a subject; it changes no human, edge, juror or cooldown. */
  ghost predicate OnlyChallengesAdded(seams: Seams, b: Block, h: Humanity, r: Humanity) {
    && r == h.(cases := r.cases)
    && |h.cases| <= |r.cases| && r.cases[..|h.cases|] == h.cases
    && (forall i :: |h.cases| <= i < |r.cases| ==>
          IsFiled(seams, b, h, r.cases[i]) && !HasOpenChallenge(h, r.cases[i].subject))
    && forall i, j :: |h.cases| <= i < j < |r.cases| ==> r.cases[i].subject != r.cases[j].subject
  }

  lemma ScanOneAdds(seams: Seams, b: Block, w: World, subject: Address)
    requires StatusOf(w.humanity, subject) == Pending
    ensures var r := ScanOne(seams, b, w, subject);
      && r == w.(humanity := r.humanity)
      && OnlyChallengesAdded(seams, b, w.humanity, r.humanity)
      && forall s :: HasOpenChallenge(r.humanity, s) <==>
           HasOpenChallenge(w.humanity, s) || (s == subject && ScanFlags(seams, w.humanity, s))
  {
    var h, r := w.humanity, ScanOne(seams, b, w, subject).humanity;
    hide Jury.SelectJury;
    var entropy := seams.entropy(b.hash, b.number);
    Jury.JuryIsFair(h.jurors, JURY_SIZE, i => seams.draw(|h.cases|, entropy, i));
    if r != h {
      assert |r.cases| == |h.cases| + 1 && r.cases[..|h.cases|] == h.cases;
      assert IsOpenChallenge(r.cases[|h.cases|], subject);
      forall s ensures HasOpenChallenge(r, s) <==> HasOpenChallenge(h, s) || s == subject {
        OneMoreCase(h, r, s);
      }
    }
  }

  lemma OneMoreCase(h: Humanity, r: Humanity, s: Address)
    requires |r.cases| == |h.cases| + 1 && r.cases[..|h.cases|] == h.cases
    ensures HasOpenChallenge(r, s) <==> HasOpenChallenge(h, s) || IsOpenChallenge(r.cases[|h.cases|], s)
  {
    if HasOpenChallenge(h, s) {
      var i :| 0 <= i < |h.cases| && IsOpenChallenge(h.cases[i], s);
      assert r.cases[i] == h.cases[i];
    }
    if HasOpenChallenge(r, s) {
      var i :| 0 <= i < |r.cases| && IsOpenChallenge(r.cases[i], s);
      assert i < |h.cases| ==> r.cases[i] == h.cases[i];
    }
  }

  lemma AddedTwice(seams: Seams, b: Block, h: Humanity, m: Humanity, r: Humanity)
    requires OnlyChallengesAdded(seams, b, h, m) && OnlyChallengesAdded(seams, b, m, r)
    ensures OnlyChallengesAdded(seams, b, h, r)
  {
    hide IsFiled;
    assert r.cases[..|m.cases|][..|h.cases|] == r.cases[..|h.cases|];
    forall i | 0 <= i < |m.cases| ensures r.cases[i] == m.cases[i] { assert r.cases[..|m.cases|][i] == m.cases[i]; }
    forall i | |h.cases| <= i < |r.cases|
      ensures IsFiled(seams, b, h, r.cases[i]) && !HasOpenChallenge(h, r.cases[i].subject)
      ensures i < |m.cases| ==> HasOpenChallenge(m, r.cases[i].subject)
    {
      if i < |m.cases| {
        FiledIsOpen(seams, b, h, m.cases[i]);
        assert IsOpenChallenge(m.cases[i], r.cases[i].subject);
      } else {
        SameFiled(seams, b, h, m, r.cases[i]);
        StillOpen(h, m, r.cases[i].subject);
      }
    }
  }

  lemma FiledIsOpen(seams: Seams, b: Block, h: Humanity, c: Case)
    requires IsFiled(seams, b, h, c)
    ensures IsOpenChallenge(c, c.subject)
  {
  }

  lemma SameFiled(seams: Seams, b: Block, h: Humanity, m: Humanity, c: Case)
    requires IsFiled(seams, b, m, c) && m.jurors == h.jurors
    ensures IsFiled(seams, b, h, c)
  {
  }

  lemma StillOpen(h: Humanity, m: Humanity, s: Address)
    requires |h.cases| <= |m.cases| && m.cases[..|h.cases|] == h.cases
    ensures HasOpenChallenge(h, s) ==> HasOpenChallenge(m, s)
  {
    if HasOpenChallenge(h, s) {
      var i :| 0 <= i < |h.cases| && IsOpenChallenge(h.cases[i], s);
      assert m.cases[i] == h.cases[i];
    }
  }

  lemma {:induction false} ScanAdds(seams: Seams, b: Block, w: World, subjects: seq<Address>)
    requires forall x :: x in subjects ==> StatusOf(w.humanity, x) == Pending
    ensures var r := Scan(seams, b, w, subjects);
      && r == w.(humanity := r.humanity)
      && OnlyChallengesAdded(seams, b, w.humanity, r.humanity)
      && forall s :: HasOpenChallenge(r.humanity, s) <==>
           HasOpenChallenge(w.humanity, s) || (s in subjects && ScanFlags(seams, w.humanity, s))
    decreases |subjects|
  {
    if subjects != [] {
      hide ScanOne, HasOpenChallenge;
      var w1 := ScanOne(seams, b, w, subjects[0]);
      ScanOneAdds(seams, b, w, subjects[0]);
      forall x | x in subjects[1..] ensures StatusOf(w1.humanity, x) == Pending { assert x in subjects; }
      ScanAdds(seams, b, w1, subjects[1..]);
      var h, m, r := w.humanity, w1.humanity, Scan(seams, b, w, subjects).humanity;
      AddedTwice(seams, b, h, m, r);
      assert forall s :: s in subjects <==> s == subjects[0] || s in subjects[1..];
    }
  }

  // ---------------------------------------------------------------- finalisation

  lemma {:induction false} RegistrationIgnoresChallenges(cases: seq<Case>, more: seq<Case>, s: Address)
    requires forall i :: 0 <= i < |more| ==> more[i].kind.Challenge?
    ensures LatestRegistration(cases + more, s) == LatestRegistration(cases, s)
  {
    if more == [] {
      assert cases + more == cases;
    } else {
      var last := |more| - 1;
      assert (cases + more)[..|cases + more| - 1] == cases + more[..last];
      RegistrationIgnoresChallenges(cases, more[..last], s);
    }
  }

  /** Added open challenges stop exactly the finalisations they are against. */
  lemma ObstacleAfterScan(seams: Seams, b: Block, h: Humanity, r: Humanity, s: Address, block: u64)
    requires OnlyChallengesAdded(seams, b, h, r)
    ensures FinalizeObstacle(r, s, block).None? <==>
      FinalizeObstacle(h, s, block).None? && (HasOpenChallenge(r, s) ==> HasOpenChallenge(h, s))
  {
    assert r.cases == h.cases + r.cases[|h.cases|..];
    RegistrationIgnoresChallenges(h.cases, r.cases[|h.cases|..], s);
    BlocksAfterScan(seams, b, h, r, s);
    OpenChallengeBlocks(h, s);
    hide HasPendingOrUpheldChallenge, HasOpenChallenge, LatestRegistration, OnlyChallengesAdded;
    OnlyCases(seams, b, h, r);
  }

  lemma BlocksAfterScan(seams: Seams, b: Block, h: Humanity, r: Humanity, s: Address)
    requires OnlyChallengesAdded(seams, b, h, r)
    ensures HasPendingOrUpheldChallenge(r, s) <==>
      HasPendingOrUpheldChallenge(h, s) || (HasOpenChallenge(r, s) && !HasOpenChallenge(h, s))
  {
    hide IsFiled;
    OpenChallengeBlocks(r, s);
    forall i | 0 <= i < |h.cases| ensures r.cases[i] == h.cases[i] { assert r.cases[..|h.cases|][i] == h.cases[i]; }
    if HasPendingOrUpheldChallenge(h, s) {
      var i :| 0 <= i < |h.cases| && BlocksFinalization(h.cases[i], s);
      assert BlocksFinalization(r.cases[i], s);
    } else if HasPendingOrUpheldChallenge(r, s) {
      var i :| 0 <= i < |r.cases| && BlocksFinalization(r.cases[i], s);
      assert i >= |h.cases|;
      FiledIsOpen(seams, b, h, r.cases[i]);
      assert IsOpenChallenge(r.cases[i], s);
    }
  }

  lemma OpenChallengeBlocks(h: Humanity, s: Address)
    ensures HasOpenChallenge(h, s) ==> HasPendingOrUpheldChallenge(h, s)
  {
    if HasOpenChallenge(h, s) {
      var i :| 0 <= i < |h.cases| && IsOpenChallenge(h.cases[i], s);
      assert BlocksFinalization(h.cases[i], s);
    }
  }

  /** The human and the account of `s` as finalisation at `now` leaves them. */
  ghost predicate Finalised(w: World, r: World, s: Address, passes: bool, now: u64) {
    && (s in r.humanity.humans <==> s in w.humanity.humans)
    && (s in w.humanity.humans ==>
          r.humanity.humans[s] ==
            if passes then w.humanity.humans[s].(status := Verified, verifiedAt := now) else w.humanity.humans[s])
    && Lookup(r.ledger, s) ==
         if passes then Lookup(w.ledger, s).(verified := true, verifiedAt := now) else Lookup(w.ledger, s)
  }

  /** Finalising one subject leaves every other one exactly as it was, and as finalisable. */
  lemma FinalizeOne(w: World, x: Address, b: Block, s: Address)
    ensures var r := FinalizeRegistration(w, x, b.number, b.timestamp).world;
      && r == w.(ledger := r.ledger, humanity := w.humanity.(humans := r.humanity.humans))
      && r.ledger.streams == w.ledger.streams
      && (s != x ==> FinalizeObstacle(r.humanity, s, b.number) == FinalizeObstacle(w.humanity, s, b.number))
      && Finalised(w, r, s, s == x && FinalizeObstacle(w.humanity, s, b.number).None?, b.timestamp)
  {
  }

  lemma {:induction false} FinalizeExact(b: Block, w: World, subjects: seq<Address>, s: Address)
    requires Jury.Distinct(subjects)
    ensures var r := Finalize(b, w, subjects);
      && r == w.(ledger := r.ledger, humanity := w.humanity.(humans := r.humanity.humans))
      && r.ledger.streams == w.ledger.streams
      && Finalised(w, r, s, s in subjects && FinalizeObstacle(w.humanity, s, b.number).None?, b.timestamp)
    decreases |subjects|
  {
    hide FinalizeObstacle, FinalizeRegistration;
    if subjects != [] {
      var w1 := FinalizeRegistration(w, subjects[0], b.number, b.timestamp).world;
      FinalizeOne(w, subjects[0], b, s);
      FinalizeExact(b, w1, subjects[1..], s);
      assert s in subjects <==> s == subjects[0] || s in subjects[1..];
      if s == subjects[0] { assert s !in subjects[1..]; }
    }
  }

  /** The sweeps verify exactly the pending humans that may be finalised at this height and that the scan does not
      challenge in the same block, from this instant on, and change nobody else's record or account. Of the rest of
      the world they only add cases. */
  lemma SweepMeaning(seams: Seams, b: Block, w: World, s: Address)
    ensures var r := RunSweeps(seams, b, w);
      var passes := MayFinalize(w.humanity, s, b.number) && !ScanFlags(seams, w.humanity, s);
      && StatusOf(r.humanity, s) == (if passes then Verified else StatusOf(w.humanity, s))
      && Finalised(w, r, s, passes, b.timestamp)
      && r == w.(ledger := r.ledger, humanity := w.humanity.(humans := r.humanity.humans, cases := r.humanity.cases))
      && r.ledger.streams == w.ledger.streams
  {
    hide Scan, Finalize, ScanFlags, HasOpenChallenge, MayFinalize, FinalizeObstacle;
    ScanAdds(seams, b, w, PendingSubjects(w.humanity));
    var w1 := SybilScan(seams, b, w);
    GateMeaning(w.humanity, s, b.number);
    ObstacleAfterScan(seams, b, w.humanity, w1.humanity, s, b.number);
    NoObstacleMeansQuiet(w.humanity, s, b.number);
    NoObstacleMeansQuiet(w1.humanity, s, b.number);
    FinalizeExact(b, w1, PendingSubjects(w1.humanity), s);
    PendingAreListed(w.humanity, s);
    PendingAreListed(w1.humanity, s);
  }

  /** And the cases they add are the challenges of the scan: one against every pending human it flags that has none
      open already. */
  lemma SweepFiles(seams: Seams, b: Block, w: World, s: Address)
    ensures var r := RunSweeps(seams, b, w);
      && OnlyChallengesAdded(seams, b, w.humanity, w.humanity.(cases := r.humanity.cases))
      && (HasOpenChallenge(r.humanity, s) <==>
            HasOpenChallenge(w.humanity, s) || (StatusOf(w.humanity, s) == Pending && ScanFlags(seams, w.humanity, s)))
  {
    hide Scan, Finalize, ScanFlags, OnlyChallengesAdded;
    ScanAdds(seams, b, w, PendingSubjects(w.humanity));
    var w1 := SybilScan(seams, b, w);
    OnlyCases(seams, b, w.humanity, w1.humanity);
    PendingAreListed(w.humanity, s);
    PendingAreListed(w1.humanity, s);
    FinalizeExact(b, w1, PendingSubjects(w1.humanity), s);
    assert RunSweeps(seams, b, w).humanity.cases == w1.humanity.cases;
  }

  lemma OnlyCases(seams: Seams, b: Block, h: Humanity, r: Humanity)
    requires OnlyChallengesAdded(seams, b, h, r)
    ensures r == h.(cases := r.cases)
  {
  }

  lemma NoObstacleMeansQuiet(h: Humanity, s: Address, block: u64)
    ensures FinalizeObstacle(h, s, block).None? ==> !HasOpenChallenge(h, s) && StatusOf(h, s) == Pending
  {
    OpenChallengeBlocks(h, s);
  }

  lemma PendingAreListed(h: Humanity, s: Address)
    ensures s in PendingSubjects(h) <==> StatusOf(h, s) == Pending
    ensures Jury.Distinct(PendingSubjects(h))
  {
  }

  /** A human challenged by the scan of a block is not finalised in that block: it stays pending, with an
      open challenge against it. */
  lemma ChallengedIsNotFinalized(seams: Seams, b: Block, w: World, s: Address)
    requires StatusOf(w.humanity, s) == Pending
    requires HasOpenChallenge(SybilScan(seams, b, w).humanity, s)
    ensures StatusOf(RunSweeps(seams, b, w).humanity, s) == Pending
  {
    hide Scan, RunSweeps, ScanFlags, FinalizeObstacle;
    SweepMeaning(seams, b, w, s);
    ScanAdds(seams, b, w, PendingSubjects(w.humanity));
    NoObstacleMeansQuiet(w.humanity, s, b.number);
  }
}
