/** What a committed contract effect says about the interpreters' submissions
    (crates/runtime/src/contracts.rs). Submissions are tallied by the hash of their ops. */
module EffectQuorum {
  import opened Base
  import opened World
  import opened Kernel
  import opened Runs
  import Effects
  import Jury
  import L = Ledger
  import Lifecycle
  import K = KernelSupply
  import P = PromptContracts
  import Q = Quorum

  type Ops = seq<Effects.Op>

  function TallyOf(seams: Seams, effects: seq<Submission>, jurySize: nat): Q.Outcome<Submission> {
    Q.Tally(effects, (s: Submission) => seams.effectHash(s.ops), (s: Submission) => true, jurySize, QUORUM)
  }

  /** How many submissions are in the group of `ops`, and how many are `ops` to the letter. */
  function Grouped(seams: Seams, effects: seq<Submission>, ops: Ops): nat {
    Q.Count(effects, (s: Submission) => seams.effectHash(s.ops), seams.effectHash(ops))
  }

  function Verbatim(effects: seq<Submission>, ops: Ops): nat { Q.Count(effects, (s: Submission) => s.ops, ops) }

  /** How many submissions share the hash of `ops` and are something else. */
  function Colliding(seams: Seams, effects: seq<Submission>, ops: Ops): nat {
    Q.Count(effects, (s: Submission) => s.ops != ops && seams.effectHash(s.ops) == seams.effectHash(ops), true)
  }

  lemma {:induction false} GroupSplits(seams: Seams, effects: seq<Submission>, ops: Ops)
    ensures Verbatim(effects, ops) + Colliding(seams, effects, ops) == Grouped(seams, effects, ops)
  {
    if effects != [] { GroupSplits(seams, effects[..|effects| - 1], ops); }
  }

  // ---------------------------------------------------------------- cases

  /** Every selected juror has submitted, in turn and once, so the case is closed; and a committed effect is one of the
      submissions, with a quorum in its group. */
  ghost predicate CaseOk(seams: Seams, c: ExecCase) {
    && Jury.Distinct(c.jury) && |c.effects| == |c.jury|
    && (forall i :: 0 <= i < |c.jury| ==> c.effects[i].interpreter == c.jury[i])
    && !c.status.ExecOpen?
    && (c.status.ExecCommitted? ==>
          && (exists i :: 0 <= i < |c.effects| && c.effects[i].ops == c.status.ops)
          && Grouped(seams, c.effects, c.status.ops) >= QUORUM)
  }

  ghost predicate CasesOk(seams: Seams, w: World) {
    forall i :: 0 <= i < |w.contracts.cases| ==> CaseOk(seams, w.contracts.cases[i])
  }

  lemma FullJuryNeverWaits(seams: Seams, effects: seq<Submission>)
    ensures !TallyOf(seams, effects, |effects|).Waiting?
  {
    var key := (s: Submission) => seams.effectHash(s.ops);
    if Q.Deciding(effects, key, QUORUM) == |effects| {
      forall i | 0 <= i < |effects| ensures Q.Count(effects, key, key(effects[i])) < QUORUM {
        assert !Q.AtQuorum(effects, key, QUORUM, effects[i]);
      }
    }
  }

  lemma ResolvedIsOk(seams: Seams, w: World, c: ExecCase, block: u64, now: u64)
    requires Jury.Distinct(c.jury) && |c.effects| == |c.jury|
    requires forall i :: 0 <= i < |c.jury| ==> c.effects[i].interpreter == c.jury[i]
    ensures var r := P.ResolveCase(seams, w, c, block, now); r.Resolved? ==> CaseOk(seams, r.execCase)
  {
    hide P.ApplyEffect;
    var key := (s: Submission) => seams.effectHash(s.ops);
    FullJuryNeverWaits(seams, c.effects);
    var i := Q.Deciding(c.effects, key, QUORUM);
    if i < |c.effects| { assert Q.AtQuorum(c.effects, key, QUORUM, c.effects[i]); }
  }

  // ---------------------------------------------------------------- what a commitment means

  /** For a case on file: a quorum of distinct jurors submitted the committed ops to the letter if and only if no more
      submissions collide with them than the group has to spare. With a group of just a quorum that is none. */
  lemma CommittedVerbatimExactlyWhen(seams: Seams, c: ExecCase)
    requires CaseOk(seams, c) && c.status.ExecCommitted?
    ensures var ops := c.status.ops;
      && 1 <= Verbatim(c.effects, ops)
      && (Verbatim(c.effects, ops) >= QUORUM
          <==> Colliding(seams, c.effects, ops) <= Grouped(seams, c.effects, ops) - QUORUM)
  {
    var ops := c.status.ops;
    GroupSplits(seams, c.effects, ops);
    Q.CountAbsent(c.effects, (s: Submission) => s.ops, ops);
  }

  /** The interpreter answers every juror alike, as a function of its inputs does. */
  ghost predicate JurorBlind(seams: Seams) {
    forall p: Address, q: Address, text, view, ref ::
      seams.interpret(p, text, view, ref) == seams.interpret(q, text, view, ref)
  }

  /** All jurors submitted one effect, and it is the committed one. */
  ghost predicate Unanimous(c: ExecCase) {
    && (forall i, j :: 0 <= i < |c.effects| && 0 <= j < |c.effects| ==> c.effects[i].ops == c.effects[j].ops)
    && (c.status.ExecCommitted? ==> forall i :: 0 <= i < |c.effects| ==> c.effects[i].ops == c.status.ops)
  }

  lemma ResolvedIsUnanimous(seams: Seams, w: World, c: ExecCase, block: u64, now: u64)
    requires forall i, j :: 0 <= i < |c.effects| && 0 <= j < |c.effects| ==> c.effects[i].ops == c.effects[j].ops
    ensures var r := P.ResolveCase(seams, w, c, block, now);
      r.Resolved? && !c.status.ExecCommitted? ==> Unanimous(r.execCase)
  {
    hide P.ApplyEffect;
  }

  // ---------------------------------------------------------------- runs

  lemma InvokeKeepsCases(
    seams: Seams, w: World, id: u64, ref: Hash, invoker: Address, entropy: u64, block: u64, now: u64)
    requires CasesOk(seams, w)
    ensures var r := P.InvokeContract(seams, w, id, ref, invoker, entropy, block, now);
      r.Ran? ==> CasesOk(seams, r.world)
  {
    hide P.ResolveCase, CaseOk;
    if id < |w.contracts.contracts| {
      var c := P.NewExecCase(seams, w, id, ref, invoker, entropy, block, now);
      NewCaseIsFull(seams, w, id, ref, invoker, entropy, block, now);
      ResolvedIsOk(seams, w, c, block, now);
    }
  }

  lemma NewCaseIsFull(
    seams: Seams, w: World, id: u64, ref: Hash, invoker: Address, entropy: u64, block: u64, now: u64)
    requires id < |w.contracts.contracts|
    ensures var c := P.NewExecCase(seams, w, id, ref, invoker, entropy, block, now);
      && Jury.Distinct(c.jury) && |c.effects| == |c.jury|
      && (forall i :: 0 <= i < |c.jury| ==> c.effects[i].interpreter == c.jury[i])
  {
    hide Jury.SelectJury;
    Jury.JuryIsFair(w.humanity.jurors, JURY_SIZE, i => seams.draw(|w.contracts.cases|, entropy, i));
  }

  /** No submission after the invocation is ever accepted: every case on file is closed. */
  lemma LateSubmissionFails(seams: Seams, w: World, caseId: u64, juror: Address, ops: Ops, block: u64, now: u64)
    requires CasesOk(seams, w)
    ensures var r := P.SubmitEffect(seams, w, caseId, juror, ops, block, now);
      r.Ran? && r.world == w && (r.result == Err(NoSuchCase) || r.result == Err(CaseClosed))
  {
    if caseId < |w.contracts.cases| { assert CaseOk(seams, w.contracts.cases[caseId]); }
  }

  lemma DispatchKeepsCases(seams: Seams, b: Block, w: World, tx: KernelTx)
    requires CasesOk(seams, w)
    ensures var r := Dispatch(seams, b, w, tx); r.Ran? ==> CasesOk(seams, r.world)
  {
    hide P.InvokeContract, P.SubmitEffect, CasesOk;
    if tx.kind.InvokeContract? {
      var entropy := seams.entropy(b.hash, b.number);
      InvokeKeepsCases(seams, w, tx.kind.invoked, tx.kind.triggerRef, tx.from, entropy, b.number, b.timestamp);
    } else if tx.kind.SubmitEffect? {
      LateSubmissionFails(seams, w, tx.kind.effectCase, tx.from, tx.kind.effect, b.number, b.timestamp);
    } else {
      OtherKindSameCases(seams, b, w, tx);
      SameCasesOk(seams, w, Dispatch(seams, b, w, tx).world);
    }
  }

  lemma OtherKindSameCases(seams: Seams, b: Block, w: World, tx: KernelTx)
    requires !tx.kind.InvokeContract? && !tx.kind.SubmitEffect?
    ensures var r := Dispatch(seams, b, w, tx); r.Ran? && r.world.contracts.cases == w.contracts.cases
  {
  }

  lemma SameCasesOk(seams: Seams, w: World, r: World)
    requires CasesOk(seams, w) && r.contracts.cases == w.contracts.cases
    ensures CasesOk(seams, r)
  {
  }

  lemma {:induction false} FinalizeContracts(b: Block, w: World, subjects: seq<Address>)
    ensures Finalize(b, w, subjects).contracts == w.contracts
    decreases |subjects|
  {
    if subjects != [] {
      FinalizeContracts(b, Lifecycle.FinalizeRegistration(w, subjects[0], b.number, b.timestamp).world, subjects[1..]);
    }
  }

  lemma EventKeepsCases(seams: Seams, w: World, e: Event)
    requires CasesOk(seams, w) && Execute(seams, w, e).Some?
    ensures CasesOk(seams, Execute(seams, w, e).value)
  {
    hide CasesOk, Dispatch, L.ChargeFee, Scan, Finalize;
    match e
    case Sweep(b) =>
      ScanContracts(seams, b, w, PendingSubjects(w.humanity));
      var w1 := SybilScan(seams, b, w);
      FinalizeContracts(b, w1, PendingSubjects(w1.humanity));
      SameCasesOk(seams, w, RunSweeps(seams, b, w));
    case Tx(b, tx) =>
      var w1 := K.Charged(w, tx, b.timestamp);
      var w2 := K.Stepped(w, tx, b.timestamp).world;
      SameCasesOk(seams, w, w1);
      SameCasesOk(seams, w, w2);
      DispatchKeepsCases(seams, b, w1, tx);
      DispatchKeepsCases(seams, b, w2, tx);
      var r := ApplyOne(seams, b, w1, tx);
      if r.Ran? { SameCasesOk(seams, r.world, Fail(r.world, tx, b.timestamp)); }
  }

  /** Along any run, every case on file has been closed by the invocation that opened it. */
  lemma {:induction false} CasesOverARun(seams: Seams, w: World, events: seq<Event>)
    requires CasesOk(seams, w) && Run(seams, w, events).Some?
    ensures CasesOk(seams, Run(seams, w, events).value)
    decreases |events|
  {
    hide CasesOk, Execute;
    if events != [] {
      EventKeepsCases(seams, w, events[0]);
      CasesOverARun(seams, Execute(seams, w, events[0]).value, events[1..]);
    }
  }

  /** Hence no `submitEffect` transaction ever commits. */
  lemma NoSubmissionCommits(seams: Seams, w: World, e: Event)
    requires CasesOk(seams, w) && e.Tx? && e.tx.kind.SubmitEffect?
    ensures !Commits(seams, w, e)
  {
    hide CasesOk, L.ChargeFee, P.SubmitEffect;
    var tx, b := e.tx, e.block;
    var w2 := K.Stepped(w, tx, b.timestamp).world;
    SameCasesOk(seams, w, w2);
    LateSubmissionFails(seams, w2, tx.kind.effectCase, tx.from, tx.kind.effect, b.number, b.timestamp);
  }

  // ---------------------------------------------------------------- with one answer for every juror

  ghost predicate AllUnanimous(w: World) {
    forall i :: 0 <= i < |w.contracts.cases| ==> Unanimous(w.contracts.cases[i])
  }

  lemma NewCaseIsUniform(
    seams: Seams, w: World, id: u64, ref: Hash, invoker: Address, entropy: u64, block: u64, now: u64)
    requires id < |w.contracts.contracts| && JurorBlind(seams)
    ensures var c := P.NewExecCase(seams, w, id, ref, invoker, entropy, block, now);
      && c.status.ExecOpen?
      && forall i, j :: 0 <= i < |c.effects| && 0 <= j < |c.effects| ==> c.effects[i].ops == c.effects[j].ops
  {
    hide Jury.SelectJury;
  }

  lemma InvokeKeepsUnanimous(
    seams: Seams, w: World, id: u64, ref: Hash, invoker: Address, entropy: u64, block: u64, now: u64)
    requires AllUnanimous(w) && JurorBlind(seams)
    ensures var r := P.InvokeContract(seams, w, id, ref, invoker, entropy, block, now);
      r.Ran? ==> AllUnanimous(r.world)
  {
    hide P.ResolveCase, Unanimous, P.NewExecCase, JurorBlind;
    if id < |w.contracts.contracts| {
      var c := P.NewExecCase(seams, w, id, ref, invoker, entropy, block, now);
      NewCaseIsUniform(seams, w, id, ref, invoker, entropy, block, now);
      ResolvedIsUnanimous(seams, w, c, block, now);
    }
  }

  lemma DispatchKeepsUnanimous(seams: Seams, b: Block, w: World, tx: KernelTx)
    requires AllUnanimous(w) && CasesOk(seams, w) && JurorBlind(seams)
    ensures var r := Dispatch(seams, b, w, tx); r.Ran? ==> AllUnanimous(r.world)
  {
    hide P.InvokeContract, P.SubmitEffect, CasesOk, JurorBlind, Unanimous;
    if tx.kind.InvokeContract? {
      var entropy := seams.entropy(b.hash, b.number);
      InvokeKeepsUnanimous(seams, w, tx.kind.invoked, tx.kind.triggerRef, tx.from, entropy, b.number, b.timestamp);
    } else if tx.kind.SubmitEffect? {
      LateSubmissionFails(seams, w, tx.kind.effectCase, tx.from, tx.kind.effect, b.number, b.timestamp);
    } else {
      OtherKindSameCases(seams, b, w, tx);
    }
  }

  lemma SameCasesUnanimous(w: World, r: World)
    requires AllUnanimous(w) && r.contracts.cases == w.contracts.cases
    ensures AllUnanimous(r)
  {
    hide Unanimous;
  }

  lemma EventKeepsUnanimous(seams: Seams, w: World, e: Event)
    requires AllUnanimous(w) && CasesOk(seams, w) && JurorBlind(seams) && Execute(seams, w, e).Some?
    ensures AllUnanimous(Execute(seams, w, e).value)
  {
    hide CasesOk, AllUnanimous, JurorBlind, Dispatch, L.ChargeFee, Scan, Finalize;
    match e
    case Sweep(b) =>
      ScanContracts(seams, b, w, PendingSubjects(w.humanity));
      var w1 := SybilScan(seams, b, w);
      FinalizeContracts(b, w1, PendingSubjects(w1.humanity));
      SameCasesUnanimous(w, RunSweeps(seams, b, w));
    case Tx(b, tx) =>
      var w1, w2 := K.Charged(w, tx, b.timestamp), K.Stepped(w, tx, b.timestamp).world;
      SameCasesUnanimous(w, w1);
      SameCasesUnanimous(w, w2);
      SameCasesOk(seams, w, w1);
      SameCasesOk(seams, w, w2);
      DispatchKeepsUnanimous(seams, b, w1, tx);
      DispatchKeepsUnanimous(seams, b, w2, tx);
      var r := ApplyOne(seams, b, w1, tx);
      if r.Ran? { SameCasesUnanimous(r.world, Fail(r.world, tx, b.timestamp)); }
  }

  /** With an interpreter that is a function of its inputs, along any run every juror of every case has submitted the
      committed ops to the letter, whatever the hash. */
  lemma {:induction false} UnanimousOverARun(seams: Seams, w: World, events: seq<Event>)
    requires AllUnanimous(w) && CasesOk(seams, w) && JurorBlind(seams) && Run(seams, w, events).Some?
    ensures AllUnanimous(Run(seams, w, events).value)
    decreases |events|
  {
    hide CasesOk, AllUnanimous, JurorBlind, Execute;
    if events != [] {
      EventKeepsUnanimous(seams, w, events[0]);
      EventKeepsCases(seams, w, events[0]);
      UnanimousOverARun(seams, Execute(seams, w, events[0]).value, events[1..]);
    }
  }
}
