/** Invariants of the proof-of-humanity registry, and that every lifecycle operation keeps them. */
module Humans {
  import opened Base
  import opened L = Ledger
  import opened World
  import opened Lifecycle
  import Quorum

  // ---------------------------------------------------------------- invariants

  predicate Emits(s: HumanStatus) { s in {Verified, Challenged} }

  /** An account accrues emission exactly while its human is verified or under challenge, and from the
      instant recorded with the human. */
  ghost predicate EmissionGate(w: World) {
    forall a: Address ::
      && (Lookup(w.ledger, a).verified <==> Emits(StatusOf(w.humanity, a)))
      && (Emits(StatusOf(w.humanity, a)) ==> Lookup(w.ledger, a).verifiedAt == w.humanity.humans[a].verifiedAt)
  }

  /** Vouch edges only join humans whose registration is still live. */
  ghost predicate VouchesLive(h: Humanity) {
    forall e :: e in h.vouches ==> Registered(StatusOf(h, e.0)) && Registered(StatusOf(h, e.1))
  }

  /** A registration is graded when it is opened, so only a challenge is ever open; and an open
      challenge is against a live registration. */
  ghost predicate OpenCasesLive(h: Humanity) {
    forall i :: 0 <= i < |h.cases| && h.cases[i].status.Open? ==>
      h.cases[i].kind.Challenge? && Registered(StatusOf(h, h.cases[i].subject))
  }

  ghost predicate OneOpenChallenge(h: Humanity) {
    forall i, j :: 0 <= i < j < |h.cases| && h.cases[i].status.Open? && h.cases[j].status.Open? ==>
      h.cases[i].subject != h.cases[j].subject
  }

  /** Nobody is left under challenge without a case that can clear them. */
  ghost predicate ChallengedHasCase(h: Humanity) {
    forall a: Address :: StatusOf(h, a) == Challenged ==> HasOpenChallenge(h, a)
  }

  ghost predicate RegistryOk(h: Humanity) {
    VouchesLive(h) && OpenCasesLive(h) && OneOpenChallenge(h) && ChallengedHasCase(h)
  }

  ghost predicate HumansOk(w: World) { EmissionGate(w) && RegistryOk(w.humanity) }

  /** The ledger changed, but neither who emits nor since when. */
  ghost predicate SameEmitters(l: L.Ledger, r: L.Ledger) {
    forall a: Address ::
      Lookup(l, a).verified == Lookup(r, a).verified && Lookup(l, a).verifiedAt == Lookup(r, a).verifiedAt
  }

  lemma LedgerStepKeepsHumans(w: World, l: L.Ledger)
    requires HumansOk(w) && SameEmitters(w.ledger, l)
    ensures HumansOk(w.(ledger := l))
  {
  }

  // ---------------------------------------------------------------- preservation

  lemma TallyOfFullJuryIsClosed(votes: seq<Vote>)
    ensures StatusAfter(votes, |votes|) != Open
  {
    var i := Quorum.FirstWhere(votes, v => Quorum.AtQuorum(votes, VerdictKey, QUORUM, v));
    if i == |votes| {
      assert Quorum.Hopeless(votes, VerdictKey, |votes|, QUORUM);
    }
  }

  lemma RequestKeepsHumans(seams: Seams, w: World, subject: Address, livenessRef: Hash, entropy: u64, block: u64)
    requires HumansOk(w)
    ensures HumansOk(RequestVerification(seams, w, subject, livenessRef, entropy, block).world)
  {
    var a := RequestVerification(seams, w, subject, livenessRef, entropy, block);
    var h, r := w.humanity, a.world.humanity;
    if a.result.Ok? {
      TallyOfFullJuryIsClosed(r.cases[|h.cases|].votes);
      NoOpenCaseAgainst(h, subject);
      AppendedClosedCase(h, r, subject);
    }
  }

  lemma NoOpenCaseAgainst(h: Humanity, subject: Address)
    requires OpenCasesLive(h) && !Registered(StatusOf(h, subject))
    ensures forall i :: 0 <= i < |h.cases| && h.cases[i].status.Open? ==> h.cases[i].subject != subject
  {
  }

  /** Adding a closed case and changing one human, who is not under challenge afterwards. */
  lemma AppendedClosedCase(h: Humanity, r: Humanity, subject: Address)
    requires RegistryOk(h)
    requires |r.cases| == |h.cases| + 1 && r.cases[..|h.cases|] == h.cases && !r.cases[|h.cases|].status.Open?
    requires forall a: Address :: a != subject ==> StatusOf(r, a) == StatusOf(h, a)
    requires Registered(StatusOf(r, subject)) && StatusOf(r, subject) != Challenged
    ensures OpenCasesLive(r) && OneOpenChallenge(r) && ChallengedHasCase(r)
  {
    assert forall i :: 0 <= i < |h.cases| ==> r.cases[i] == h.cases[i];
    forall a: Address | StatusOf(r, a) == Challenged ensures HasOpenChallenge(r, a) {
      var i :| 0 <= i < |h.cases| && IsOpenChallenge(h.cases[i], a);
      assert IsOpenChallenge(r.cases[i], a);
    }
  }

  /** Statuses may change where the caller says, the cases stay. */
  lemma SameCases(h: Humanity, r: Humanity)
    requires OpenCasesLive(h) && OneOpenChallenge(h) && ChallengedHasCase(h) && r.cases == h.cases
    requires forall a: Address :: Registered(StatusOf(h, a)) ==> Registered(StatusOf(r, a))
    requires forall a: Address :: StatusOf(r, a) == Challenged ==> StatusOf(h, a) == Challenged
    ensures OpenCasesLive(r) && OneOpenChallenge(r) && ChallengedHasCase(r)
  {
    forall a: Address | StatusOf(r, a) == Challenged ensures HasOpenChallenge(r, a) {
      var i :| 0 <= i < |h.cases| && IsOpenChallenge(h.cases[i], a);
      assert IsOpenChallenge(r.cases[i], a);
    }
  }

  lemma VouchKeepsHumans(w: World, voucher: Address, vouchee: Address)
    requires HumansOk(w)
    ensures HumansOk(Vouch(w, voucher, vouchee).world)
  {
    var r := Vouch(w, voucher, vouchee).world.humanity;
    assert forall a: Address :: StatusOf(r, a) == StatusOf(w.humanity, a);
    SameCases(w.humanity, r);
  }

  lemma ChallengeKeepsHumans(
    seams: Seams, w: World, challenger: Address, subject: Address,
    evidenceRef: Hash, entropy: u64, block: u64, strict: bool)
    requires HumansOk(w)
    ensures HumansOk(OpenChallenge(seams, w, challenger, subject, evidenceRef, entropy, block, strict).world)
  {
    var a := OpenChallenge(seams, w, challenger, subject, evidenceRef, entropy, block, strict);
    if a.result.Ok? {
      AppendedOpenCase(w.humanity, a.world.humanity, subject);
    }
  }

  /** Adding an open challenge against a live registration that had none, and marking it challenged. */
  lemma AppendedOpenCase(h: Humanity, r: Humanity, subject: Address)
    requires RegistryOk(h) && r.vouches == h.vouches && !HasOpenChallenge(h, subject)
    requires |r.cases| == |h.cases| + 1 && r.cases[..|h.cases|] == h.cases
      && IsOpenChallenge(r.cases[|h.cases|], subject)
    requires forall a: Address :: a != subject ==> StatusOf(r, a) == StatusOf(h, a)
    requires Registered(StatusOf(h, subject)) && Registered(StatusOf(r, subject))
    ensures RegistryOk(r)
  {
    assert forall i :: 0 <= i < |h.cases| ==> r.cases[i] == h.cases[i];
    forall i | 0 <= i < |h.cases| && h.cases[i].status.Open? ensures h.cases[i].subject != subject {
      assert !IsOpenChallenge(h.cases[i], subject);
    }
    forall x: Address | StatusOf(r, x) == Challenged ensures HasOpenChallenge(r, x) {
      if x != subject {
        var i :| 0 <= i < |h.cases| && IsOpenChallenge(h.cases[i], x);
        assert IsOpenChallenge(r.cases[i], x);
      }
    }
  }

  lemma FinalizeKeepsHumans(w: World, subject: Address, block: u64, now: u64)
    requires HumansOk(w)
    ensures HumansOk(FinalizeRegistration(w, subject, block, now).world)
  {
    var r := FinalizeRegistration(w, subject, block, now).world;
    SameCases(w.humanity, r.humanity);
  }

  lemma ZkKeepsGate(seams: Seams, w: World, subject: Address, z: ZkSubmission, now: u64, block: u64)
    requires EmissionGate(w)
    ensures EmissionGate(SubmitZkPassportProof(seams, w, subject, z, now, block).world)
  {
  }

  lemma ZkKeepsHumans(seams: Seams, w: World, subject: Address, z: ZkSubmission, now: u64, block: u64)
    requires HumansOk(w)
    ensures HumansOk(SubmitZkPassportProof(seams, w, subject, z, now, block).world)
  {
    hide ChallengedHasCase, OneOpenChallenge, OpenCasesLive, EmissionGate;
    var r := SubmitZkPassportProof(seams, w, subject, z, now, block).world;
    ZkKeepsGate(seams, w, subject, z, now, block);
    SameCases(w.humanity, r.humanity);
  }

  // ---------------------------------------------------------------- verdicts

  /** Everything but the case that has just been decided is as it was, and no other case is open
      against its subject. */
  ghost predicate JustDecided(w: World, c: Case, id: nat) {
    && id < |w.humanity.cases| && w.humanity.cases[id] == c && !c.status.Open?
    && EmissionGate(w) && VouchesLive(w.humanity)
    && OpenCasesLive(w.humanity) && OneOpenChallenge(w.humanity)
    && Registered(StatusOf(w.humanity, c.subject))
    && (forall i :: 0 <= i < |w.humanity.cases| && w.humanity.cases[i].status.Open?
          ==> w.humanity.cases[i].subject != c.subject)
    && (forall a: Address :: a != c.subject && StatusOf(w.humanity, a) == Challenged
          ==> HasOpenChallenge(w.humanity, a))
  }

  lemma RevokeKeepsHumans(w: World, c: Case, id: nat)
    requires JustDecided(w, c, id)
    ensures HumansOk(Revoke(w, c.subject))
    ensures StatusOf(Revoke(w, c.subject).humanity, c.subject) == Revoked
  {
    var h, r := w.humanity, Revoke(w, c.subject).humanity;
    assert forall a: Address :: a != c.subject ==>
      StatusOf(r, a) == StatusOf(h, a) && (a in h.humans ==> r.humans[a].verifiedAt == h.humans[a].verifiedAt);
    forall a: Address | StatusOf(r, a) == Challenged ensures HasOpenChallenge(r, a) {
      var i :| 0 <= i < |h.cases| && IsOpenChallenge(h.cases[i], a);
      assert IsOpenChallenge(r.cases[i], a);
    }
  }

  lemma RestoreKeepsHumans(w: World, c: Case, id: nat)
    requires JustDecided(w, c, id)
    ensures HumansOk(Restore(w, c.subject))
    ensures Restore(w, c.subject).ledger.accounts.Keys >= w.ledger.accounts.Keys
  {
    var h, r := w.humanity, Restore(w, c.subject).humanity;
    forall a: Address | StatusOf(r, a) == Challenged ensures HasOpenChallenge(r, a) {
      var i :| 0 <= i < |h.cases| && IsOpenChallenge(h.cases[i], a);
      assert IsOpenChallenge(r.cases[i], a);
    }
    assert forall a: Address :: Registered(StatusOf(r, a)) <==> Registered(StatusOf(h, a));
  }

  lemma PunishKeepsHumans(w: World, challenger: Address, subject: Address)
    requires HumansOk(w)
    ensures HumansOk(PunishChallenger(w, challenger, subject))
  {
    var r := PunishChallenger(w, challenger, subject);
    assert forall a: Address :: StatusOf(r.humanity, a) == StatusOf(w.humanity, a);
    assert forall a: Address :: a in w.humanity.humans ==>
      r.humanity.humans[a].verifiedAt == w.humanity.humans[a].verifiedAt;
    SameCases(w.humanity, r.humanity);
  }

  lemma {:induction false} CommittedIsCommittable(votes: seq<Vote>, jurySize: nat)
    ensures StatusAfter(votes, jurySize).Committed? ==> StatusAfter(votes, jurySize).verdict.verdict != Uncertain
  {
  }

  lemma VerdictKeepsHumans(w: World, caseId: nat, juror: Address, verdict: CanonicalVerdict)
    requires HumansOk(w)
    ensures HumansOk(SubmitVerdict(w, caseId, juror, verdict).world)
  {
    var a := SubmitVerdict(w, caseId, juror, verdict);
    if a.result.Ok? {
      var h := w.humanity;
      var before := h.cases[caseId];
      var c := WithVote(before, juror, verdict);
      var w1 := w.(humanity := h.(cases := h.cases[caseId := c]));
      if c.status.Open? {
        VoteKeepsOpenCases(h, caseId, c);
      } else {
        VoteDecides(w, caseId, c);
        CommittedIsCommittable(c.votes, |c.jury|);
        match c.status {
          case Escalated => RestoreKeepsHumans(w1, c, caseId);
          case Committed(v) =>
            if v.verdict == Sybil {
              RevokeKeepsHumans(w1, c, caseId);
            } else {
              RestoreKeepsHumans(w1, c, caseId);
              PunishKeepsHumans(Restore(w1, c.subject), c.challenger, c.subject);
            }
        }
      }
    }
  }

  lemma VoteKeepsOpenCases(h: Humanity, id: nat, c: Case)
    requires RegistryOk(h) && id < |h.cases| && h.cases[id].status.Open? && c.status.Open?
    requires c.subject == h.cases[id].subject && c.kind == h.cases[id].kind
    ensures RegistryOk(h.(cases := h.cases[id := c]))
  {
    var r := h.(cases := h.cases[id := c]);
    forall a: Address | StatusOf(r, a) == Challenged ensures HasOpenChallenge(r, a) {
      assert StatusOf(h, a) == Challenged;
      var i :| 0 <= i < |h.cases| && IsOpenChallenge(h.cases[i], a);
      assert IsOpenChallenge(r.cases[i], a);
    }
    assert forall a: Address :: StatusOf(r, a) == StatusOf(h, a);
  }

  lemma VoteDecides(w: World, id: nat, c: Case)
    requires HumansOk(w) && id < |w.humanity.cases| && w.humanity.cases[id].status.Open? && !c.status.Open?
    requires c.subject == w.humanity.cases[id].subject && c.kind == w.humanity.cases[id].kind
    ensures JustDecided(w.(humanity := w.humanity.(cases := w.humanity.cases[id := c])), c, id)
    ensures c.kind.Challenge?
  {
    var h := w.humanity;
    var r := h.(cases := h.cases[id := c]);
    assert forall a: Address :: StatusOf(r, a) == StatusOf(h, a);
    forall i | 0 <= i < |r.cases| && r.cases[i].status.Open? ensures r.cases[i].subject != c.subject {
      assert i != id && r.cases[i] == h.cases[i];
    }
    forall a: Address | a != c.subject && StatusOf(r, a) == Challenged ensures HasOpenChallenge(r, a) {
      var i :| 0 <= i < |h.cases| && IsOpenChallenge(h.cases[i], a);
      assert IsOpenChallenge(r.cases[i], a);
    }
  }
}
