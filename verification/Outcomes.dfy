/** What a successful transaction writes to the registry, the passport registries and the contracts, for every kind
    (crates/runtime/src/lifecycle.rs, crates/runtime/src/contracts.rs). */
module Outcomes {
  import opened Base
  import opened L = Ledger
  import opened World
  import opened Kernel
  import opened Lifecycle
  import Jury
  import Quorum
  import P = PromptContracts
  import EffectQuorum
  import Escrow
  import Lockstep
  import StreamLaws
  import Effects

  // ---------------------------------------------------------------- votes

  /** The votes for a verdict with a confidence. */
  function For(votes: seq<Vote>, v: Verdict, c: Confidence): set<int> {
    set j | 0 <= j < |votes| && votes[j].verdict.verdict == v && votes[j].verdict.confidence == c
  }

  /** How many votes agree with vote `i` in verdict and confidence. */
  function Agreeing(votes: seq<Vote>, i: nat): nat
    requires i < |votes|
  {
    |For(votes, votes[i].verdict.verdict, votes[i].verdict.confidence)|
  }

  /** Vote `i` is the first with which another one agrees. */
  predicate IsDeciding(votes: seq<Vote>, i: nat) {
    i < |votes| && Agreeing(votes, i) >= 2 && forall j :: 0 <= j < i ==> Agreeing(votes, j) < 2
  }

  lemma ForPush(votes: seq<Vote>, x: Vote, v: Verdict, c: Confidence)
    ensures For(votes + [x], v, c) ==
      For(votes, v, c) + if x.verdict.verdict == v && x.verdict.confidence == c then {|votes|} else {}
  {
    forall j | 0 <= j < |votes| ensures (votes + [x])[j] == votes[j] {}
  }

  lemma {:induction false} CountIsSize(votes: seq<Vote>, v: Verdict, c: Confidence)
    ensures Quorum.Count(votes, VerdictKey, (v, c)) == |For(votes, v, c)|
  {
    if votes == [] {
      assert For(votes, v, c) == {};
    } else {
      var rest, x := votes[..|votes| - 1], votes[|votes| - 1];
      CountIsSize(rest, v, c);
      assert votes == rest + [x];
      ForPush(rest, x, v, c);
      assert |rest| !in For(rest, v, c);
    }
  }

  lemma AgreeingIsCount(votes: seq<Vote>, i: nat)
    requires i < |votes|
    ensures Quorum.Count(votes, VerdictKey, VerdictKey(votes[i])) == Agreeing(votes, i) >= 1
  {
    var v := votes[i].verdict;
    CountIsSize(votes, v.verdict, v.confidence);
    assert i in For(votes, v.verdict, v.confidence);
  }

  lemma DecidingMeaning(votes: seq<Vote>)
    ensures var d := Quorum.Deciding(votes, VerdictKey, QUORUM);
      forall i: nat :: IsDeciding(votes, i) <==> i == d < |votes|
  {
    hide Agreeing, VerdictKey;
    forall i | 0 <= i < |votes|
      ensures Quorum.AtQuorum(votes, VerdictKey, QUORUM, votes[i]) <==> Agreeing(votes, i) >= 2
    {
      AgreeingIsCount(votes, i);
    }
    var d := Quorum.Deciding(votes, VerdictKey, QUORUM);
    assert d < |votes| ==> IsDeciding(votes, d);
    forall i: nat | IsDeciding(votes, i) ensures i == d {
    }
  }

  lemma HopelessMeaning(votes: seq<Vote>, jurySize: nat)
    requires votes != [] && Quorum.Deciding(votes, VerdictKey, QUORUM) == |votes|
    ensures Quorum.Hopeless(votes, VerdictKey, jurySize, QUORUM) <==> |votes| >= jurySize
  {
    hide VerdictKey, Quorum.Count;
    forall i | 0 <= i < |votes| ensures Quorum.Count(votes, VerdictKey, VerdictKey(votes[i])) == 1 {
      AgreeingIsCount(votes, i);
      assert !Quorum.AtQuorum(votes, VerdictKey, QUORUM, votes[i]);
    }
    assert Quorum.Count(votes, VerdictKey, VerdictKey(votes[0])) == 1;
  }

  /** A case with a vote is decided by the first vote that another agrees with: it is committed to that verdict, or
      escalated when the verdict is to be uncertain. Without two alike it is escalated once every juror has voted, and
      open before. */
  lemma StatusMeaning(votes: seq<Vote>, jurySize: nat)
    requires votes != []
    ensures forall i: nat :: IsDeciding(votes, i) ==>
      StatusAfter(votes, jurySize) ==
        if votes[i].verdict.verdict == Uncertain then Escalated else Committed(votes[i].verdict)
    ensures (forall i: nat :: !IsDeciding(votes, i)) ==>
      StatusAfter(votes, jurySize) == if |votes| >= jurySize then Escalated else Open
  {
    hide IsDeciding, VerdictKey, Quorum.Deciding, Quorum.Hopeless;
    DecidingMeaning(votes);
    var d := Quorum.Deciding(votes, VerdictKey, QUORUM);
    if d == |votes| { HopelessMeaning(votes, jurySize); } else { assert IsDeciding(votes, d); }
  }

  // ---------------------------------------------------------------- registering, vouching, challenging

  ghost predicate IsJury(h: Humanity, jury: seq<Address>) {
    |jury| == Min(3, |h.jurors|) && Jury.Distinct(jury) && forall x :: x in jury ==> x in h.jurors
  }

  /** A case has been filed. */
  predicate Files(h: Humanity, r: Humanity) { |r.cases| == |h.cases| + 1 && r.cases[..|h.cases|] == h.cases }

  /** `subject` starts afresh, without vouches given or received, and the new registration is decided at once: every
      juror grades the same evidence, so two of them settle it, unless they cannot tell. */
  ghost predicate Registers(seams: Seams, b: Block, h: Humanity, r: Humanity, subject: Address, ref: Hash) {
    var grade := seams.gradeLiveness(ref);
    && r == h.(humans := h.humans[subject := HumanRecord(Pending, 0, ref, {}, 0, Std)], vouches := r.vouches,
               cases := r.cases)
    && (forall e :: e in r.vouches <==> e in h.vouches && e.0 != subject && e.1 != subject)
    && Files(h, r)
    && var c := r.cases[|h.cases|];
       && c.subject == c.challenger == subject && c.kind.Registration? && c.evidenceRef == ref
       && c.openedAt == b.number && IsJury(h, c.jury)
       && |c.votes| == |c.jury| && (forall i :: 0 <= i < |c.jury| ==> c.votes[i] == Vote(c.jury[i], grade))
       && c.status == if |h.jurors| >= 2 && grade.verdict != Uncertain then Committed(grade) else Escalated
  }

  lemma GradedAlike(votes: seq<Vote>, grade: CanonicalVerdict)
    requires votes != [] && forall i :: 0 <= i < |votes| ==> votes[i].verdict == grade
    ensures StatusAfter(votes, |votes|) ==
      if |votes| >= 2 && grade.verdict != Uncertain then Committed(grade) else Escalated
  {
    hide StatusAfter;
    StatusMeaning(votes, |votes|);
    var all := For(votes, grade.verdict, grade.confidence);
    if |votes| >= 2 {
      assert {0, 1} <= all;
      TwoAreTwo(all);
      assert IsDeciding(votes, 0);
    } else {
      assert all == {0};
      forall i: nat ensures !IsDeciding(votes, i) {
      }
    }
  }

  lemma TwoAreTwo(s: set<int>)
    requires {0, 1} <= s
    ensures |s| >= 2
  {
    assert s == {0, 1} + (s - {0, 1});
  }

  lemma JuryIsJury(seams: Seams, h: Humanity, entropy: u64)
    ensures IsJury(h, JuryFor(seams, h, entropy)) && |JuryFor(seams, h, entropy)| == Min(3, |h.jurors|)
  {
    hide Jury.SelectJury, Jury.Distinct;
    Jury.JuryIsFair(h.jurors, JURY_SIZE, i => seams.draw(|h.cases|, entropy, i));
  }

  lemma SameJury(seams: Seams, h: Humanity, r: Humanity, entropy: u64)
    requires r.jurors == h.jurors && r.cases == h.cases
    ensures JuryFor(seams, h, entropy) == JuryFor(seams, r, entropy)
  {
  }

  lemma RequestRegisters(seams: Seams, w: World, subject: Address, ref: Hash, b: Block)
    ensures var a := Lifecycle.RequestVerification(seams, w, subject, ref, seams.entropy(b.hash, b.number), b.number);
      a.result.Ok? ==>
        && a.result.value == |w.humanity.cases|
        && a.world == w.(humanity := a.world.humanity)
        && Registers(seams, b, w.humanity, a.world.humanity, subject, ref)
  {
    hide StatusAfter, JuryFor, IsJury;
    var entropy := seams.entropy(b.hash, b.number);
    var a := Lifecycle.RequestVerification(seams, w, subject, ref, entropy, b.number);
    if a.result.Ok? {
      var h := w.humanity;
      JuryIsJury(seams, h, entropy);
      JuryIsJury(seams, ClearVouchEdges(h, subject), entropy);
      SameJury(seams, h, ClearVouchEdges(h, subject), entropy);
      var c := a.world.humanity.cases[|h.cases|];
      GradedAlike(c.votes, seams.gradeLiveness(ref));
    }
  }

  ghost predicate Vouches(h: Humanity, r: Humanity, voucher: Address, vouchee: Address) {
    && vouchee in h.humans
    && r == h.(vouches := h.vouches + {(voucher, vouchee)},
               humans := h.humans[vouchee :=
                 h.humans[vouchee].(vouchesIn := h.humans[vouchee].vouchesIn + {voucher})])
  }

  /** An open case without votes is filed before a jury; a verified subject is under challenge from now on. */
  ghost predicate Challenges(b: Block, h: Humanity, r: Humanity, challenger: Address, subject: Address, ref: Hash) {
    && subject in h.humans
    && r == h.(cases := r.cases,
               humans := if h.humans[subject].status == Verified
                         then h.humans[subject := h.humans[subject].(status := Challenged)] else h.humans)
    && Files(h, r)
    && var c := r.cases[|h.cases|];
       && c.subject == subject && c.challenger == challenger && c.kind.Challenge? && c.evidenceRef == ref
       && c.openedAt == b.number && c.votes == [] && c.status.Open? && IsJury(h, c.jury)
  }

  lemma ChallengeFiles(seams: Seams, w: World, challenger: Address, subject: Address, ref: Hash, b: Block, must: bool)
    ensures var a := OpenChallenge(
        seams, w, challenger, subject, ref, seams.entropy(b.hash, b.number), b.number, must);
      a.result.Ok? ==>
        && a.result.value == |w.humanity.cases|
        && a.world == w.(humanity := a.world.humanity)
        && Challenges(b, w.humanity, a.world.humanity, challenger, subject, ref)
  {
    hide JuryFor, IsJury;
    JuryIsJury(seams, w.humanity, seams.entropy(b.hash, b.number));
  }

  // ---------------------------------------------------------------- verdicts

  function Less(h: HumanRecord, amount: nat): HumanRecord {
    h.(reputation := Max(h.reputation - amount, -9223372036854775808))
  }

  /** Whoever vouched for a human that is struck down loses standing, and its edges are cleared. */
  ghost predicate StrikesDown(h: Humanity, r: Humanity, s: Address) {
    && r == h.(humans := r.humans, vouches := r.vouches)
    && (forall e :: e in r.vouches <==> e in h.vouches && e.0 != s && e.1 != s)
    && r.humans.Keys == h.humans.Keys
    && forall a :: a in h.humans ==>
      r.humans[a] ==
        if a == s then h.humans[a].(status := Revoked, verifiedAt := 0, vouchesIn := {})
        else if s in h.humans && a in h.humans[s].vouchesIn then Less(h.humans[a], 100)
        else h.humans[a]
  }

  /** A challenged human is verified again, since when it was; and with `punish` its challenger loses standing and may
      not challenge it again. */
  ghost predicate Clears(h: Humanity, r: Humanity, s: Address, challenger: Address, punish: bool) {
    && r == h.(humans := r.humans, cleared := if punish then h.cleared + {(challenger, s)} else h.cleared)
    && r.humans.Keys == h.humans.Keys
    && forall a :: a in h.humans ==>
      var record := if a == s && h.humans[a].status == Challenged then h.humans[a].(status := Verified)
                    else h.humans[a];
      r.humans[a] == if punish && a == challenger then Less(record, 50) else record
  }

  /** What follows from the status that a case has got. */
  ghost predicate Follows(h: Humanity, r: Humanity, c: Case) {
    match c.status
    case Open => r == h
    case Escalated => if c.kind.Challenge? then Clears(h, r, c.subject, c.challenger, false) else r == h
    case Committed(v) =>
      if v.verdict == Sybil then StrikesDown(h, r, c.subject)
      else if v.verdict == Human && c.kind.Challenge? then Clears(h, r, c.subject, c.challenger, true)
      else r == h
  }

  /** Of all accounts only that of `a` changed, and only in whether it emits and since when. */
  ghost predicate OnlyGate(l: L.Ledger, r: L.Ledger, a: Address) {
    && r.streams == l.streams
    && (forall x: Address :: x != a ==> Lookup(r, x) == Lookup(l, x))
    && Lookup(r, a) == Lookup(l, a).(verified := Lookup(r, a).verified, verifiedAt := Lookup(r, a).verifiedAt)
  }

  lemma EnforceFollows(w: World, c: Case)
    ensures Follows(w.humanity, Enforce(w, c).humanity, c)
    ensures Enforce(w, c) == w.(humanity := Enforce(w, c).humanity, ledger := Enforce(w, c).ledger)
    ensures OnlyGate(w.ledger, Enforce(w, c).ledger, c.subject)
  {
  }

  /** The vote is added to the case, whose status is the one its votes give, with what follows. */
  ghost predicate Votes(h: Humanity, r: Humanity, id: nat, juror: Address, verdict: CanonicalVerdict) {
    && id < |h.cases| == |r.cases|
    && var c, votes := r.cases[id], h.cases[id].votes + [Vote(juror, verdict)];
       && c == h.cases[id].(votes := votes, status := c.status)
       && (forall i: nat :: IsDeciding(votes, i) ==>
             c.status == if votes[i].verdict.verdict == Uncertain then Escalated else Committed(votes[i].verdict))
       && ((forall i: nat :: !IsDeciding(votes, i)) ==>
             c.status == if |votes| >= |h.cases[id].jury| then Escalated else Open)
       && Follows(h.(cases := h.cases[id := c]), r, c)
  }

  lemma VerdictVotes(w: World, id: nat, juror: Address, verdict: CanonicalVerdict)
    ensures var a := Lifecycle.SubmitVerdict(w, id, juror, verdict);
      a.result.Ok? ==>
        && a.result.value == id
        && a.world == w.(humanity := a.world.humanity, ledger := a.world.ledger)
        && Votes(w.humanity, a.world.humanity, id, juror, verdict)
        && OnlyGate(w.ledger, a.world.ledger, w.humanity.cases[id].subject)
  {
    hide StatusAfter, Enforce, IsDeciding, Follows, OnlyGate;
    var a := Lifecycle.SubmitVerdict(w, id, juror, verdict);
    if a.result.Ok? {
      var h := w.humanity;
      var c := WithVote(h.cases[id], juror, verdict);
      EnforceFollows(w.(humanity := h.(cases := h.cases[id := c])), c);
      FollowsKeepsCases(h.(cases := h.cases[id := c]), a.world.humanity, c);
      StatusMeaning(c.votes, |c.jury|);
    }
  }

  lemma FollowsKeepsCases(h: Humanity, r: Humanity, c: Case)
    requires Follows(h, r, c)
    ensures r.cases == h.cases
  {
  }

  // ---------------------------------------------------------------- passports

  /** The nullifier is spent and the attributes are filed; a verified human has both proofs from now on, any other is
      verified from now on. */
  ghost predicate Proves(w: World, r: World, subject: Address, z: ZkSubmission, now: u64) {
    var h, p := w.humanity.humans, w.passports;
    && r == w.(ledger := r.ledger, humanity := w.humanity.(humans := r.humanity.humans), passports := r.passports)
    && r.passports == p.(nullifiers := p.nullifiers + {z.nullifier},
                         attributes := p.attributes[subject := z.attributes])
    && (forall a :: a != subject ==>
          (a in r.humanity.humans <==> a in h) && (a in h ==> r.humanity.humans[a] == h[a]))
    && subject in r.humanity.humans
    && r.humanity.humans[subject] ==
         (if subject !in h then HumanRecord(Verified, now, 0, {}, 0, Enh)
          else if h[subject].status == Verified then h[subject].(assurance := Dual)
          else h[subject].(status := Verified, verifiedAt := now, assurance := Enh))
    && OnlyGate(w.ledger, r.ledger, subject)
  }

  lemma ProofProves(seams: Seams, w: World, subject: Address, z: ZkSubmission, now: u64, block: u64)
    ensures var a := Lifecycle.SubmitZkPassportProof(seams, w, subject, z, now, block);
      a.result.Ok? ==>
        && Proves(w, a.world, subject, z, now)
        && a.result.value == a.world.humanity.humans[subject].assurance
  {
  }

  /** The governance registries: a key is entered, marked as revoked; a root is pinned at this block, or retired from
      every list. Nothing else changes. */
  ghost predicate Governs(b: Block, p: Passports, q: Passports, kind: KernelKind) {
    match kind
    case RegisterCsca(country, key, pubkey) =>
      q == p.(csca := p.csca[key := CscaEntry(country, pubkey, b.number, false)])
    case RevokeCsca(key) => key in p.csca && q == p.(csca := p.csca[key := p.csca[key].(revoked := true)])
    case PinSelfIdentityRoot(root) => q == p.(identityRoots := p.identityRoots[root := b.number])
    case PinSelfOfacRoot(list, root) => q == p.(ofacRoots := p.ofacRoots[(list, root) := b.number])
    case RetireSelfRoot(root) =>
      && q == p.(identityRoots := q.identityRoots, ofacRoots := q.ofacRoots)
      && (forall k :: k in q.identityRoots <==> k in p.identityRoots && k != root)
      && (forall k :: k in q.identityRoots ==> q.identityRoots[k] == p.identityRoots[k])
      && (forall k :: k in q.ofacRoots <==> k in p.ofacRoots && k.1 != root)
      && (forall k :: k in q.ofacRoots ==> q.ofacRoots[k] == p.ofacRoots[k])
    case _ => false
  }

  // ---------------------------------------------------------------- contracts

  /** A new contract with an empty escrow, stamped with the block and the transaction. */
  ghost predicate Deploys(seams: Seams, b: Block, c: Contracts, d: Contracts, tx: KernelTx) {
    && tx.kind.DeployContract? && |d.contracts| == |c.contracts| + 1 && d == c.(contracts := d.contracts)
    && d.contracts[..|c.contracts|] == c.contracts
    && var n := d.contracts[|c.contracts|];
       && n.escrow == 0 && (forall a :: a in n.parties <==> a in tx.kind.parties) && n.text == tx.kind.text
       && n.textRef == seams.textCommitment(n.text) && n.vars == map[] && !n.terminated
       && n.deployBlock == b.number && n.deployTx == tx.txHash
  }

  function SameHash(seams: Seams, effects: seq<Submission>, ops: seq<Effects.Op>): set<int> {
    set j | 0 <= j < |effects| && seams.effectHash(effects[j].ops) == seams.effectHash(ops)
  }

  /** Submission `i` is the first with whose hash another one agrees. */
  predicate Leads(seams: Seams, effects: seq<Submission>, i: nat) {
    && i < |effects| && |SameHash(seams, effects, effects[i].ops)| >= 2
    && forall j :: 0 <= j < i ==> |SameHash(seams, effects, effects[j].ops)| < 2
  }

  lemma {:induction false} GroupIsSize(seams: Seams, effects: seq<Submission>, ops: seq<Effects.Op>)
    ensures Quorum.Count(effects, (s: Submission) => seams.effectHash(s.ops), seams.effectHash(ops))
         == |SameHash(seams, effects, ops)|
  {
    if effects == [] {
      assert SameHash(seams, effects, ops) == {};
    } else {
      var rest, x := effects[..|effects| - 1], effects[|effects| - 1];
      GroupIsSize(seams, rest, ops);
      HashPush(seams, rest, x, ops);
      assert effects == rest + [x];
      assert |rest| !in SameHash(seams, rest, ops);
    }
  }

  lemma HashPush(seams: Seams, effects: seq<Submission>, x: Submission, ops: seq<Effects.Op>)
    ensures SameHash(seams, effects + [x], ops) == SameHash(seams, effects, ops)
      + if seams.effectHash(x.ops) == seams.effectHash(ops) then {|effects|} else {}
  {
    forall j | 0 <= j < |effects| ensures (effects + [x])[j] == effects[j] {}
  }

  lemma LeadsMeaning(seams: Seams, effects: seq<Submission>)
    ensures var d := Quorum.Deciding(effects, (s: Submission) => seams.effectHash(s.ops), QUORUM);
      forall i: nat :: Leads(seams, effects, i) <==> i == d < |effects|
  {
    hide SameHash;
    var key := (s: Submission) => seams.effectHash(s.ops);
    forall i | 0 <= i < |effects|
      ensures Quorum.AtQuorum(effects, key, QUORUM, effects[i]) <==> |SameHash(seams, effects, effects[i].ops)| >= 2
    {
      GroupIsSize(seams, effects, effects[i].ops);
    }
    var d := Quorum.Deciding(effects, key, QUORUM);
    assert d < |effects| ==> Leads(seams, effects, d);
    forall i: nat | Leads(seams, effects, i) ensures i == d {
    }
  }

  predicate SameButCases(w: World, r: World) {
    r.ledger == w.ledger && r.contracts.contracts == w.contracts.contracts
  }

  /** The ops of a case are committed and carried out if each is allowed and the escrow covers them, and dropped
      otherwise. */
  ghost predicate Settles(w: World, r: World, c: ExecCase, ops: seq<Effects.Op>, now: u64)
    requires c.contract < |w.contracts.contracts|
  {
    var k, e := w.contracts.contracts[c.contract], ContractAddress(c.contract);
    if (forall i :: 0 <= i < |ops| ==> Escrow.Allowed(k, w.ledger, e, ops[i]))
       && Min(Escrow.Draws(ops), U128_MAX) <= k.escrow
    then
      var applied := P.ApplyEffect(w, c.contract, ops, now);
      c.status == ExecCommitted(ops) && applied.Applied? && SameButCases(applied.world, r)
    else c.status.ExecAborted? && SameButCases(w, r)
  }

  /** A case with what the interpreter answers each juror about the contract as it stands is filed and closed: the first
      answer with whose hash another agrees is settled, and without one the case is aborted. */
  ghost predicate Invokes(seams: Seams, b: Block, w: World, r: World, id: u64, ref: Hash, invoker: Address) {
    && id < |w.contracts.contracts| && r == w.(ledger := r.ledger, contracts := r.contracts)
    && |r.contracts.cases| == |w.contracts.cases| + 1 && r.contracts.cases[..|w.contracts.cases|] == w.contracts.cases
    && var c, k := r.contracts.cases[|w.contracts.cases|], w.contracts.contracts[id];
       var owned := set i | 0 <= i < |w.ledger.streams| && w.ledger.streams[i].from == ContractAddress(id);
       var view := ContractView(id, k.escrow, k.parties, k.vars, owned, b.timestamp);
       && c.contract == id && c.triggerRef == ref && c.invoker == invoker && c.openedAt == b.number
       && c.resolvedAt == Some(b.number) && IsJury(w.humanity, c.jury) && |c.effects| == |c.jury|
       && (forall i :: 0 <= i < |c.jury| ==>
             c.effects[i] == Submission(c.jury[i], seams.interpret(c.jury[i], k.text, view, ref)))
       && (forall i: nat :: Leads(seams, c.effects, i) ==> Settles(w, r, c, c.effects[i].ops, b.timestamp))
       && ((forall i: nat :: !Leads(seams, c.effects, i)) ==> c.status.ExecAborted? && SameButCases(w, r))
  }

  lemma ResolveSettles(seams: Seams, w: World, c: ExecCase, block: u64, now: u64)
    requires |c.effects| == |c.jury| && c.contract < |w.contracts.contracts|
    ensures var r := P.ResolveCase(seams, w, c, block, now);
      r.Resolved? ==>
        && r.execCase == c.(status := r.execCase.status, resolvedAt := Some(block))
        && r.world == w.(ledger := r.world.ledger, contracts := r.world.contracts)
        && (forall i: nat :: Leads(seams, c.effects, i) ==> Settles(w, r.world, r.execCase, c.effects[i].ops, now))
        && ((forall i: nat :: !Leads(seams, c.effects, i)) ==>
              r.execCase.status.ExecAborted? && SameButCases(w, r.world))
  {
    hide Quorum.Deciding, Quorum.Hopeless, Leads;
    LeadsMeaning(seams, c.effects);
    EffectQuorum.FullJuryNeverWaits(seams, c.effects);
    var d := Quorum.Deciding(c.effects, (s: Submission) => seams.effectHash(s.ops), QUORUM);
    if d < |c.effects| {
      Escrow.ValidatesExactlyWhen(w.contracts.contracts[c.contract], w.ledger, ContractAddress(c.contract),
                                  c.effects[d].ops);
      hide P.Validate, P.RunOps, P.StartRun, P.OwnedStreams, Escrow.Draws;
      assert Leads(seams, c.effects, d);
      assert Effects.IsAbort(c.effects[d].ops) ==>
        !Escrow.Allowed(w.contracts.contracts[c.contract], w.ledger, ContractAddress(c.contract), c.effects[d].ops[0]);
    }
  }

  lemma InvocationInvokes(seams: Seams, w: World, id: u64, ref: Hash, invoker: Address, b: Block)
    ensures var a := P.InvokeContract(
        seams, w, id, ref, invoker, seams.entropy(b.hash, b.number), b.number, b.timestamp);
      a.Ran? && a.result.Ok? ==>
        a.result.value == CaseId(|w.contracts.cases|) && Invokes(seams, b, w, a.world, id, ref, invoker)
  {
    hide P.ResolveCase, Jury.SelectJury, IsJury, SameHash, Settles;
    var entropy := seams.entropy(b.hash, b.number);
    var a := P.InvokeContract(seams, w, id, ref, invoker, entropy, b.number, b.timestamp);
    if a.Ran? && a.result.Ok? {
      var c := P.NewExecCase(seams, w, id, ref, invoker, entropy, b.number, b.timestamp);
      assert IsJury(w.humanity, c.jury) by {
        hide *;
        InterpretersAreJury(seams, w, id, ref, invoker, b);
      }
      ResolveSettles(seams, w, c, b.number, b.timestamp);
      var r := P.ResolveCase(seams, w, c, b.number, b.timestamp);
      FiledSettles(seams, w, r.world, a.world, r.execCase, b.timestamp);
      assert r.Resolved? && r.world.contracts.cases == w.contracts.cases;
      var d, n := a.world.contracts.cases, |w.contracts.cases|;
      assert |d| == n + 1 && d[..n] == w.contracts.cases && d[n] == r.execCase;
      var k := w.contracts.contracts[id];
      var owned := set i | 0 <= i < |w.ledger.streams| && w.ledger.streams[i].from == ContractAddress(id);
      assert P.View(w, id, b.timestamp) == ContractView(id, k.escrow, k.parties, k.vars, owned, b.timestamp);
      assert a.world == w.(ledger := a.world.ledger, contracts := a.world.contracts);
    }
  }

  lemma InterpretersAreJury(seams: Seams, w: World, id: u64, ref: Hash, invoker: Address, b: Block)
    requires id < |w.contracts.contracts|
    ensures var c := P.NewExecCase(
        seams, w, id, ref, invoker, seams.entropy(b.hash, b.number), b.number, b.timestamp);
      IsJury(w.humanity, c.jury)
  {
    hide Jury.SelectJury, Jury.Distinct;
    var entropy := seams.entropy(b.hash, b.number);
    Jury.JuryIsFair(w.humanity.jurors, JURY_SIZE, i => seams.draw(|w.contracts.cases|, entropy, i));
  }

  /** Filing the case touches neither the ledger nor a contract. */
  lemma FiledSettles(seams: Seams, w: World, m: World, r: World, c: ExecCase, now: u64)
    requires c.contract < |w.contracts.contracts| && SameButCases(m, r)
    ensures forall ops :: Settles(w, m, c, ops, now) ==> Settles(w, r, c, ops, now)
    ensures SameButCases(w, m) ==> SameButCases(w, r)
  {
    hide P.ApplyEffect, Escrow.Draws, Escrow.Allowed;
  }

  // ---------------------------------------------------------------- every kind

  /** What a successful op of each kind writes besides balances and nonces; `w` is the world it starts from. */
  ghost predicate Writes(seams: Seams, b: Block, w: World, r: World, tx: KernelTx) {
    match tx.kind
    case Transfer(_, _) | OpenStream(_, _, _) | StopStream(_) => r == w.(ledger := r.ledger)
    case RequestVerification(ref) =>
      r == w.(humanity := r.humanity) && Registers(seams, b, w.humanity, r.humanity, tx.from, ref)
    case Vouch(vouchee) => r == w.(humanity := r.humanity) && Vouches(w.humanity, r.humanity, tx.from, vouchee)
    case Challenge(subject, ref) =>
      r == w.(humanity := r.humanity) && Challenges(b, w.humanity, r.humanity, tx.from, subject, ref)
    case SubmitVerdict(id, verdict) =>
      && r == w.(humanity := r.humanity, ledger := r.ledger)
      && Votes(w.humanity, r.humanity, id, tx.from, verdict)
      && OnlyGate(w.ledger, r.ledger, w.humanity.cases[id].subject)
    case SubmitZkPassportProof(z) => Proves(w, r, tx.from, z, b.timestamp)
    case DeployContract(_, _) =>
      r == w.(contracts := r.contracts) && Deploys(seams, b, w.contracts, r.contracts, tx)
    case FundContract(id) =>
      && id < |w.contracts.contracts|
      && var c := w.contracts.contracts[id];
         r == w.(ledger := r.ledger, contracts := w.contracts.(
                   contracts := w.contracts.contracts[id := c.(escrow := Min(c.escrow + tx.value, U128_MAX))]))
    case InvokeContract(id, ref) => Invokes(seams, b, w, r, id, ref, tx.from)
    case SubmitEffect(_, _) => r == w.(ledger := r.ledger, contracts := r.contracts)
    case _ => r == w.(passports := r.passports) && Governs(b, w.passports, r.passports, tx.kind)
  }

  /** What it answers: the number of what it created, or the assurance reached. */
  predicate Answers(w: World, r: World, tx: KernelTx, result: OpResult) {
    match tx.kind
    case OpenStream(_, _, _) => result == StreamId(|w.ledger.streams|)
    case RequestVerification(_) | Challenge(_, _) => result == CaseId(|w.humanity.cases|)
    case SubmitVerdict(id, _) => result == CaseId(id)
    case SubmitZkPassportProof(_) =>
      tx.from in r.humanity.humans && result == Reached(r.humanity.humans[tx.from].assurance)
    case DeployContract(_, _) => result == CaseId(|w.contracts.contracts|)
    case InvokeContract(_, _) => result == CaseId(|w.contracts.cases|)
    case SubmitEffect(id, _) => result == CaseId(id)
    case _ => result == NoResult
  }

  lemma OpWrites(seams: Seams, b: Block, w: World, tx: KernelTx)
    ensures var r := Dispatch(seams, b, w, tx);
      r.Ran? && r.result.Ok? ==> Writes(seams, b, w, r.world, tx) && Answers(w, r.world, tx, r.result.value)
  {
    hide Registers, Challenges, Votes, OnlyGate, Proves, Invokes, Lifecycle.RequestVerification, OpenChallenge,
         Lifecycle.SubmitVerdict, Lifecycle.SubmitZkPassportProof, P.InvokeContract, P.SubmitEffect, ApplyTransfer,
         L.OpenStream, L.StopStream;
    match tx.kind
    case RequestVerification(ref) => RequestRegisters(seams, w, tx.from, ref, b);
    case Challenge(subject, ref) => ChallengeFiles(seams, w, tx.from, subject, ref, b, true);
    case SubmitVerdict(id, verdict) => VerdictVotes(w, id, tx.from, verdict);
    case SubmitZkPassportProof(z) =>
      ProofProves(seams, w, tx.from, z, b.timestamp, b.number);
      ProofFilesHuman(seams, w, tx.from, z, b);
    case InvokeContract(id, ref) => InvocationInvokes(seams, w, id, ref, tx.from, b);
    case SubmitEffect(id, ops) => SubmissionFrame(seams, b, w, id, tx.from, ops);
    case OpenStream(to, rate, deposit) => StreamLaws.OpenDecision(w.ledger, tx.from, to, rate, deposit, b.timestamp);
    case _ =>
  }

  lemma ProofFilesHuman(seams: Seams, w: World, subject: Address, z: ZkSubmission, b: Block)
    ensures var a := Lifecycle.SubmitZkPassportProof(seams, w, subject, z, b.timestamp, b.number);
      a.result.Ok? ==> subject in a.world.humanity.humans
  {
  }

  lemma SubmissionFrame(seams: Seams, b: Block, w: World, id: u64, from: Address, ops: seq<Effects.Op>)
    ensures var a := P.SubmitEffect(seams, w, id, from, ops, b.number, b.timestamp);
      a.Ran? && a.result.Ok? ==>
        a.result.value == CaseId(id) && a.world == w.(ledger := a.world.ledger, contracts := a.world.contracts)
  {
    hide P.Validate, P.RunOps, Quorum.Tally;
  }

  /** What a successful transaction of each kind leaves on file and answers. The op starts from the world before it,
      but for the fee and the nonce. */
  lemma TxWrites(seams: Seams, b: Block, w: World, tx: KernelTx)
    requires var r := ApplyTx(seams, b, w, tx); r.Mined? && r.outcome.success
    ensures var r := ApplyTx(seams, b, w, tx); var start := Lockstep.OpWorld(w, tx, b.timestamp);
      && start == w.(ledger := start.ledger) && |start.ledger.streams| == |w.ledger.streams|
      && Writes(seams, b, start, r.world, tx) && Answers(start, r.world, tx, r.outcome.result)
  {
    hide Dispatch, ChargeFee, Settle, Writes, Answers;
    var start := Lockstep.OpWorld(w, tx, b.timestamp);
    OpWrites(seams, b, start, tx);
    ChargeKeepsStreams(w.ledger, tx.from, Gas(tx.kind), b.timestamp);
  }

  lemma ChargeKeepsStreams(l: L.Ledger, from: Address, gas: u64, now: u64)
    ensures |ChargeFee(l, from, gas, now).ledger.streams| == |l.streams|
  {
    hide Settle;
  }
}
