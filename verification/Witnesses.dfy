/** Small worlds in which a promise of the source fails, one for each exact condition proved elsewhere. */
module Witnesses {
  import opened Base
  import opened L = Ledger
  import opened LedgerLaws
  import opened LedgerSupply
  import opened World
  import opened Kernel
  import opened Lifecycle
  import opened Humans
  import opened Escrow
  import P = PromptContracts
  import Q = Quorum
  import Effects
  import EffectQuorum
  import Jury
  import Lockstep
  import StreamLaws
  import Sweeps
  import Transactions
  import Vouchers

  const NOBODY: Humanity := Humanity(map[], {}, [], {}, {})
  const NO_PASSPORTS: Passports := Passports({}, map[], map[], None, map[], map[], None)

  function Holding(balance: u128): Account { Account(false, 0, balance, 0, 0) }

  /** Contract 0 with an escrow of ten, backed to the unit, and a payer. */
  const PAYER: Address := 1
  const ONE_CONTRACT: World := World(
    L.Ledger(map[PAYER := Holding(UBI), ContractAddress(0) := Holding(10)], []), NOBODY,
    Contracts([Contract(10, {PAYER}, [], 0, map[], false, 0, 0)], []), NO_PASSPORTS)

  /** A one-op effect that passes validation and ends the process: a stream from the escrow to itself. */
  const TO_ITSELF: seq<Effects.Op> := [Effects.OpenStream(ContractAddress(0), 1, 1)]

  lemma OneContractIsBacked()
    ensures EscrowBacked(ONE_CONTRACT) && StreamsOk(ONE_CONTRACT.ledger)
  {
    assert ContractAddress(0) != PAYER;
  }

  lemma ToItselfValidates()
    ensures P.Validate(ONE_CONTRACT.contracts.contracts[0], {}, TO_ITSELF, 0).Ok?
  {
    assert TO_ITSELF[1..] == [];
  }

  lemma ValidatedEffectPanics(now: u64)
    ensures P.ApplyEffect(ONE_CONTRACT, 0, TO_ITSELF, now).EffectPanic?
  {
    OneContractIsBacked();
    assert P.OwnedStreams(ONE_CONTRACT.ledger, ContractAddress(0)) == {};
    ToItselfValidates();
    ValidatedEffectRuns(ONE_CONTRACT, 0, TO_ITSELF, now);
    assert !Feasible(ONE_CONTRACT.ledger, ContractAddress(0), TO_ITSELF[0], {});
  }

  // ---------------------------------------------------------------- record and account

  const GIFT: KernelTx := KernelTx(9, PAYER, 0, 0, Transfer(ContractAddress(0), 5))

  lemma OneContractBalances(now: u64)
    ensures LiveBalance(ONE_CONTRACT.ledger, PAYER, now) == UBI
    ensures LiveBalance(ONE_CONTRACT.ledger, ContractAddress(0), now) == 10
  {
    assert ContractAddress(0) != PAYER;
    LiveBalanceIsExact(ONE_CONTRACT.ledger, PAYER, now);
    LiveBalanceIsExact(ONE_CONTRACT.ledger, ContractAddress(0), now);
  }

  lemma GiftFee()
    ensures FeeForGas(Gas(GIFT.kind)) == 21_000_000_000_000
  {
  }

  lemma TransferKeepsContracts(seams: Seams, b: Block, w: World, tx: KernelTx)
    requires tx.kind.Transfer?
    ensures var r := ApplyTx(seams, b, w, tx); !r.TxPanic? ==> r.world.contracts == w.contracts
  {
    hide ChargeFee, ApplyTransfer, Settle;
  }

  /** A plain transfer to the escrow raises the account and not the record. */
  lemma PlainTransferDrifts(seams: Seams, b: Block)
    ensures var r := ApplyTx(seams, b, ONE_CONTRACT, GIFT);
      && r.Mined? && r.outcome.success && |r.world.contracts.contracts| == 1
      && Lockstep.Slack(ONE_CONTRACT, 0, b.timestamp) == 0
      && Lockstep.Slack(r.world, 0, b.timestamp) == 5
  {
    hide ApplyTx, LiveBalance, FeeForGas, Gas;
    OneContractBalances(b.timestamp);
    GiftFee();
    Transactions.TransferTxDecision(seams, b, ONE_CONTRACT, GIFT);
    Transactions.TransferTxMoves(seams, b, ONE_CONTRACT, GIFT, ContractAddress(0));
    TransferKeepsContracts(seams, b, ONE_CONTRACT, GIFT);
    assert ContractAddress(0) != TREASURY && ContractAddress(0) != PAYER;
  }

  const STREAM: KernelTx := KernelTx(11, PAYER, 0, 0, OpenStream(ContractAddress(0), 1, 5))

  /** The ledger after the payer's fee, nonce step and stream. */
  lemma StreamLedger(seams: Seams, b: Block)
    ensures var r := ApplyTx(seams, b, ONE_CONTRACT, STREAM);
      && r.Mined? && r.outcome.success && r.world.contracts == ONE_CONTRACT.contracts
      && Lookup(r.world.ledger, ContractAddress(0)) == Holding(10)
      && r.world.ledger.streams == [Stream(PAYER, ContractAddress(0), 1, 5, 0, b.timestamp, Active)]
  {
    assert ContractAddress(0) != PAYER && ContractAddress(0) != TREASURY && PAYER != TREASURY;
    assert FeeForGas(Gas(STREAM.kind)) == 60_000_000_000_000;
  }

  lemma EscrowBalance(l: L.Ledger, start: u64, t: u64)
    requires start <= t && Lookup(l, ContractAddress(0)) == Holding(10)
    requires l.streams == [Stream(PAYER, ContractAddress(0), 1, 5, 0, start, Active)]
    ensures LiveBalance(l, ContractAddress(0), t) == 10 + StreamLaws.Paid(1, 5, t - start)
  {
    hide Owed, LiveBalance;
    var e := ContractAddress(0);
    LiveBalanceIsExact(l, e, t);
    StreamLaws.FreshStreamOwes(PAYER, e, 1, 5, start, t);
    assert l.streams[1..] == [] && l.streams[0].to == e;
    assert ExactInflow(l.streams, e, t) == Owed(l.streams[0], t) + ExactInflow([], e, t);
    assert ExactInflow([], e, t) == 0;
    assert PendingEmission(Holding(10), t) == 0;
  }

  /** A stream to the escrow pays nothing unrecorded when it is opened, and a second later the account is ahead of the
      record. */
  lemma StreamDrifts(seams: Seams, b: Block)
    requires b.timestamp < U64_MAX
    ensures var r := ApplyTx(seams, b, ONE_CONTRACT, STREAM); var now := b.timestamp;
      && r.Mined? && r.outcome.success && |r.world.contracts.contracts| == 1
      && Lockstep.Unrecorded(seams, b, Lockstep.OpWorld(ONE_CONTRACT, STREAM, now), STREAM, ContractAddress(0)) == 0
      && Lockstep.Slack(r.world, 0, now) == 0
      && Lockstep.Slack(r.world, 0, now + 1) == 1
  {
    hide ApplyTx, LiveBalance;
    StreamLedger(seams, b);
    var l := ApplyTx(seams, b, ONE_CONTRACT, STREAM).world.ledger;
    EscrowBalance(l, b.timestamp, b.timestamp);
    EscrowBalance(l, b.timestamp, b.timestamp + 1);
  }

  // ---------------------------------------------------------------- vouchers

  const SUBJECT: Address := 1
  const FIRST: Address := 2
  const SECOND: Address := 3

  function Standing(status: HumanStatus, vouchesIn: set<Address>): HumanRecord {
    HumanRecord(status, 0, 0, vouchesIn, 0, Std)
  }

  const JURY: seq<Address> := [4, 5, 6]
  const CHALLENGER: Address := 7
  const IS_HUMAN: CanonicalVerdict := CanonicalVerdict(Human, High, 0)
  const IS_SYBIL: CanonicalVerdict := CanonicalVerdict(Sybil, High, 0)

  const LIVENESS: Case := Case(
    SUBJECT, SUBJECT, Registration, 0, JURY, [Vote(4, IS_HUMAN), Vote(5, IS_HUMAN), Vote(6, IS_HUMAN)],
    Committed(IS_HUMAN), 0)

  /** A challenge with one vote for it so far. */
  function Accused(a: Address): Case {
    Case(a, CHALLENGER, CaseKind.Challenge, 0, JURY, [Vote(4, IS_SYBIL)], Open, 0)
  }

  /** A pending human that has passed liveness before a jury, with the vouches of two humans who have been challenged
      since. */
  const VOUCHED: World := World(
    L.Ledger(map[FIRST := Account(true, 0, 0, 0, 0), SECOND := Account(true, 0, 0, 0, 0),
                 CHALLENGER := Account(true, 0, 0, 0, 0)], []),
    Humanity(map[SUBJECT := Standing(Pending, {FIRST, SECOND}), FIRST := Standing(Challenged, {}),
                 SECOND := Standing(Challenged, {}), CHALLENGER := Standing(Verified, {})],
             {(FIRST, SUBJECT), (SECOND, SUBJECT)}, [LIVENESS, Accused(FIRST), Accused(SECOND)], {}, {4, 5, 6}),
    Contracts([], []), NO_PASSPORTS)

  /** It meets every registry invariant. */
  lemma VouchedIsOk()
    ensures HumansOk(VOUCHED) && Vouchers.VouchesOk(VOUCHED.humanity, iset{})
  {
    var h := VOUCHED.humanity;
    assert IsOpenChallenge(h.cases[1], FIRST) && IsOpenChallenge(h.cases[2], SECOND);
  }

  /** The same after a second vote against each of the two. */
  function HalfDeserted(): World { Lifecycle.SubmitVerdict(VOUCHED, 1, 5, IS_SYBIL).world }

  function Deserted(): World { Lifecycle.SubmitVerdict(HalfDeserted(), 2, 5, IS_SYBIL).world }

  lemma TwoVotesCommit()
    ensures StatusAfter([Vote(4, IS_SYBIL), Vote(5, IS_SYBIL)], 3) == Committed(IS_SYBIL)
  {
    var votes := [Vote(4, IS_SYBIL), Vote(5, IS_SYBIL)];
    assert votes[..1] == [Vote(4, IS_SYBIL)] && votes[..1][..0] == [];
    assert Q.Count(votes[..1], VerdictKey, (Sybil, High)) == 1;
    assert Q.AtQuorum(votes, VerdictKey, QUORUM, votes[0]);
  }

  lemma SecondVoteRevokes(w: World, id: nat, a: Address)
    requires id < |w.humanity.cases| && w.humanity.cases[id] == Accused(a)
    ensures var r := Lifecycle.SubmitVerdict(w, id, 5, IS_SYBIL);
      var c := Accused(a).(votes := [Vote(4, IS_SYBIL), Vote(5, IS_SYBIL)], status := Committed(IS_SYBIL));
      r.result.Ok? && r.world == Revoke(w.(humanity := w.humanity.(cases := w.humanity.cases[id := c])), a)
  {
    hide StatusAfter, Revoke;
    TwoVotesCommit();
    assert Accused(a).votes + [Vote(5, IS_SYBIL)] == [Vote(4, IS_SYBIL), Vote(5, IS_SYBIL)];
    assert JURY[1] == 5;
  }

  lemma DesertedWorld()
    ensures var h := Deserted().humanity;
      && StatusOf(h, SUBJECT) == Pending && h.humans[SUBJECT].vouchesIn == {FIRST, SECOND}
      && StatusOf(h, FIRST) == Revoked && StatusOf(h, SECOND) == Revoked && h.vouches == {}
      && |h.cases| == 3 && h.cases[0] == LIVENESS
      && h.cases[1].subject == FIRST && h.cases[2].subject == SECOND
  {
    SecondVoteRevokes(VOUCHED, 1, FIRST);
    SecondVoteRevokes(HalfDeserted(), 2, SECOND);
    hide Lifecycle.SubmitVerdict;
    assert HalfDeserted().humanity.vouches == {(SECOND, SUBJECT)};
    assert Deserted().humanity.vouches == {};
  }

  lemma DesertedPasses(block: u64)
    requires block >= CHALLENGE_WINDOW
    ensures Sweeps.MayFinalize(Deserted().humanity, SUBJECT, block)
  {
    hide Deserted;
    var h := Deserted().humanity;
    DesertedWorld();
    assert Sweeps.IsLastRegistration(h.cases, SUBJECT, 0);
    assert |{FIRST, SECOND}| == 2;
  }

  /** A sweep verifies a human both of whose vouchers are revoked, with no edge left into it. */
  lemma RevokedVouchersVerify(seams: Seams, b: Block)
    requires b.number >= CHALLENGE_WINDOW && !Sweeps.ScanFlags(seams, Deserted().humanity, SUBJECT)
    ensures var h, r := Deserted().humanity, RunSweeps(seams, b, Deserted()).humanity;
      && StatusOf(h, SUBJECT) == Pending && StatusOf(r, SUBJECT) == Verified
      && StatusOf(r, FIRST) == Revoked && StatusOf(r, SECOND) == Revoked
      && Vouchers.EdgesInto(h, SUBJECT) == {} && Vouchers.Counted(h, SUBJECT) == {FIRST, SECOND}
  {
    hide RunSweeps, Deserted;
    DesertedWorld();
    DesertedPasses(b.number);
    Sweeps.SweepMeaning(seams, b, Deserted(), SUBJECT);
    Sweeps.SweepMeaning(seams, b, Deserted(), FIRST);
    Sweeps.SweepMeaning(seams, b, Deserted(), SECOND);
  }

  // ---------------------------------------------------------------- failing calls, fees and emission

  /** Nobody is a juror, and an edge into an unregistered account is left over. */
  const STALE_EDGE: World := World(
    L.Ledger(map[], []), Humanity(map[], {(FIRST, SUBJECT)}, [], {}, {}), Contracts([], []), NO_PASSPORTS)

  /** A registration that fails and has dropped the edge. */
  lemma FailedRequestDropsEdge(seams: Seams, ref: Hash, entropy: u64, block: u64)
    ensures var a := Lifecycle.RequestVerification(seams, STALE_EDGE, SUBJECT, ref, entropy, block);
      a.result == Err(NoJurors) && a.world.humanity.vouches == {} && a.world != STALE_EDGE
  {
    assert ClearVouchEdges(STALE_EDGE.humanity, SUBJECT).vouches == {};
    assert (FIRST, SUBJECT) in STALE_EDGE.humanity.vouches;
  }

  /** The treasury pays a fee and is the richer for it. */
  lemma TreasuryFeeMints(now: u64)
    ensures var l := L.Ledger(map[TREASURY := Holding(UBI)], []); var s := ChargeFee(l, TREASURY, 21_000, now);
      && s.result.Ok? && LiveBalance(l, TREASURY, now) == UBI
      && LiveBalance(s.ledger, TREASURY, now) == UBI + 21_000_000_000_000
  {
    var l := L.Ledger(map[TREASURY := Holding(UBI)], []);
    LiveBalanceIsExact(l, TREASURY, now);
    hide ChargeFee, LiveBalance;
    ChargeFeeMeaning(l, TREASURY, 21_000, now, TREASURY);
  }

  /** An hour's unsettled emission goes with a revocation. */
  lemma RevocationBurns()
    ensures LiveBalance(VOUCHED.ledger, FIRST, 3_600) == UBI
    ensures LiveBalance(Revoke(VOUCHED, FIRST).ledger, FIRST, 3_600) == 0
  {
    LiveBalanceIsExact(VOUCHED.ledger, FIRST, 3_600);
    LiveBalanceIsExact(Revoke(VOUCHED, FIRST).ledger, FIRST, 3_600);
  }

  /** Settled after one second, an account has one base unit less after two. */
  lemma SettlingEachSecondLoses()
    ensures var a := Account(true, 0, 0, 0, 0); AccountBalance(Settle(a, 1), 2) == AccountBalance(a, 2) - 1
  {
    var a := Account(true, 0, 0, 0, 0);
    assert PendingEmission(a, 1) == 277_777_777_777_777;
    assert PendingEmission(a, 2) == 555_555_555_555_555;
  }

  // ---------------------------------------------------------------- colliding effects

  const ONE_VAR: seq<Effects.Op> := [Effects.SetVar(1, 1)]
  const OTHER_VAR: seq<Effects.Op> := [Effects.SetVar(1, 2)]

  /** A contract and two jurors. */
  const TWO_JURORS: World := ONE_CONTRACT.(humanity := NOBODY.(jurors := {FIRST, SECOND}))

  /** An interpreter that answers two jurors differently, with one hash. */
  ghost predicate Disagree(seams: Seams) {
    && seams.effectHash(ONE_VAR) == seams.effectHash(OTHER_VAR)
    && forall text, view, ref ::
         seams.interpret(FIRST, text, view, ref) == ONE_VAR && seams.interpret(SECOND, text, view, ref) == OTHER_VAR
  }

  lemma SetVarApplies(ops: seq<Effects.Op>, now: u64)
    requires ops == ONE_VAR || ops == OTHER_VAR
    ensures P.ApplyEffect(TWO_JURORS, 0, ops, now).Applied? && !Effects.IsAbort(ops)
  {
    var c, e := TWO_JURORS.contracts.contracts[0], ContractAddress(0);
    var owned := P.OwnedStreams(TWO_JURORS.ledger, e);
    assert ops[1..] == [] && P.Validate(c, owned, [], 0).Ok?;
    assert P.Validate(c, owned, ops, 0) == P.Validate(c, owned, [], 0);
    var r := P.RunOp(P.StartRun(TWO_JURORS, 0, now), e, ops[0], now);
    assert r.Run? && P.RunOps(r, e, [], now) == r;
  }

  lemma TwoOfOneHash(seams: Seams, s: Submission, t: Submission)
    requires s.ops != t.ops && seams.effectHash(s.ops) == seams.effectHash(t.ops)
    ensures EffectQuorum.TallyOf(seams, [s, t], 2) == Q.Committed(s) && EffectQuorum.Verbatim([s, t], s.ops) == 1
  {
    var key := (s: Submission) => seams.effectHash(s.ops);
    assert [s, t][..1] == [s] && [s][..0] == [];
    assert Q.Count([s], key, key(s)) == 1;
    assert Q.AtQuorum([s, t], key, QUORUM, [s, t][0]);
    assert Q.Count([s], (s: Submission) => s.ops, s.ops) == 1;
  }

  /** Then an invocation commits ops that only one juror submitted. */
  lemma CollidingAnswersCommit(seams: Seams, ref: Hash, entropy: u64, block: u64, now: u64)
    requires Disagree(seams)
    ensures var r := P.InvokeContract(seams, TWO_JURORS, 0, ref, PAYER, entropy, block, now);
      && r.Ran? && |r.world.contracts.cases| == 1
      && var c := r.world.contracts.cases[0];
         c.status.ExecCommitted? && |c.jury| == 2 && EffectQuorum.Verbatim(c.effects, c.status.ops) == 1
  {
    hide Jury.SelectJury, P.ApplyEffect, EffectQuorum.Verbatim;
    var c := P.NewExecCase(seams, TWO_JURORS, 0, ref, PAYER, entropy, block, now);
    Jury.JuryIsFair({FIRST, SECOND}, JURY_SIZE, i => seams.draw(|TWO_JURORS.contracts.cases|, entropy, i));
    assert c.jury == Jury.SelectJury({FIRST, SECOND}, JURY_SIZE, i => seams.draw(0, entropy, i));
    assert |{FIRST, SECOND}| == 2;
    assert |c.jury| == 2 && c.jury[0] in c.jury && c.jury[1] in c.jury && c.jury[0] != c.jury[1];
    var s, t := c.effects[0], c.effects[1];
    assert c.effects == [s, t];
    assert ONE_VAR[0] != OTHER_VAR[0];
    TwoOfOneHash(seams, s, t);
    SetVarApplies(s.ops, now);
    assert EffectQuorum.TallyOf(seams, c.effects, |c.jury|) == Q.Committed(s);
    var r := P.ResolveCase(seams, TWO_JURORS, c, block, now);
    assert r.Resolved? && r.execCase == c.(status := ExecCommitted(s.ops), resolvedAt := Some(block));
    assert TWO_JURORS.humanity.jurors == {FIRST, SECOND} && FIRST in TWO_JURORS.humanity.jurors;
    assert r.world.contracts.cases == [];
    assert P.InvokeContract(seams, TWO_JURORS, 0, ref, PAYER, entropy, block, now) == P.FileNewCase(r);
  }

  // ---------------------------------------------------------------- votes

  function Same(x: int): int { x }

  predicate Any(x: int) { true }

  lemma CountFour(a: int, b: int, c: int, d: int, k: int)
    ensures Q.Count([a, b, c, d], Same, k)
         == (if a == k then 1 else 0) + (if b == k then 1 else 0) + (if c == k then 1 else 0)
            + (if d == k then 1 else 0)
  {
    assert [a, b, c, d][..3] == [a, b, c] && [a, b, c][..2] == [a, b] && [a, b][..1] == [a] && [a][..0] == [];
    assert Q.Count([a], Same, k) == if a == k then 1 else 0;
    assert Q.Count([a, b], Same, k) == (if a == k then 1 else 0) + if b == k then 1 else 0;
  }

  /** Four votes, two a side: the side that spoke first is committed. */
  lemma OrderDecidesATie(jurySize: nat)
    ensures multiset([0, 0, 1, 1]) == multiset([1, 1, 0, 0])
    ensures Q.Tally([0, 0, 1, 1], Same, Any, jurySize, 2) == Q.Committed(0)
    ensures Q.Tally([1, 1, 0, 0], Same, Any, jurySize, 2) == Q.Committed(1)
  {
    CountFour(0, 0, 1, 1, 0);
    CountFour(1, 1, 0, 0, 1);
    assert Q.AtQuorum([0, 0, 1, 1], Same, 2, [0, 0, 1, 1][0]);
    assert Q.AtQuorum([1, 1, 0, 0], Same, 2, [1, 1, 0, 0][0]);
  }

  /** One more vote overtakes a commitment: an earlier group reaches quorum after it. */
  lemma LateVoteOvertakes(jurySize: nat)
    ensures Q.Tally([0, 1, 1], Same, Any, jurySize, 2) == Q.Committed(1)
    ensures Q.Tally([0, 1, 1, 0], Same, Any, jurySize, 2) == Q.Committed(0)
  {
    assert [0, 1, 1][..2] == [0, 1] && [0, 1][..1] == [0] && [0][..0] == [];
    assert Q.Count([0], Same, 0) == 1 && Q.Count([0], Same, 1) == 0;
    assert Q.Count([0, 1], Same, 0) == 1 && Q.Count([0, 1], Same, 1) == 1;
    assert !Q.AtQuorum([0, 1, 1], Same, 2, [0, 1, 1][0]) && Q.AtQuorum([0, 1, 1], Same, 2, [0, 1, 1][1]);
    CountFour(0, 1, 1, 0, 0);
    assert Q.AtQuorum([0, 1, 1, 0], Same, 2, [0, 1, 1, 0][0]);
  }
}
