/** The proof-of-humanity lifecycle (crates/runtime/src/lifecycle.rs): registration, vouching,
    challenges, verdicts, finalisation, revocation and the passport route. */
module Lifecycle {
  import opened Base
  import opened Ledger
  import opened World
  import Jury
  import Quorum

  datatype Answer = Answer(world: World, result: Result<nat, OpError>)

  function StatusOf(h: Humanity, a: Address): HumanStatus {
    if a in h.humans then h.humans[a].status else Unverified
  }

  /** A claim that has begun and has not been struck down. */
  predicate Registered(s: HumanStatus) {
    match s
    case Unverified => false
    case Revoked => false
    case _ => true
  }

  /** Flip the account cache the emission path reads. The account is not settled here. */
  function SyncVerified(w: World, a: Address, verified: bool, at: u64): World {
    w.(ledger := Put(w.ledger, a, Lookup(w.ledger, a).(verified := verified, verifiedAt := at)))
  }

  function PutHuman(w: World, a: Address, h: HumanRecord): World {
    w.(humanity := w.humanity.(humans := w.humanity.humans[a := h]))
  }

  function Slashed(h: HumanRecord, amount: int): HumanRecord {
    h.(reputation := Max(h.reputation - amount, I64_MIN))
  }

  // ---------------------------------------------------------------- cases

  function VerdictKey(v: Vote): (Verdict, Confidence) { (v.verdict.verdict, v.verdict.confidence) }

  predicate Committable(v: Vote) { v.verdict.verdict != Uncertain }

  function StatusAfter(votes: seq<Vote>, jurySize: nat): CaseStatus {
    match Quorum.Tally(votes, VerdictKey, Committable, jurySize, QUORUM)
    case Waiting => Open
    case Committed(v) => Committed(v.verdict)
    case NoQuorum => Escalated
  }

  function JuryFor(seams: Seams, h: Humanity, entropy: u64): seq<Address> {
    Jury.SelectJury(h.jurors, JURY_SIZE, i => seams.draw(|h.cases|, entropy, i))
  }

  predicate IsOpenChallenge(c: Case, subject: Address) {
    c.subject == subject && c.kind.Challenge? && c.status.Open?
  }

  predicate HasOpenChallenge(h: Humanity, subject: Address) {
    exists i :: 0 <= i < |h.cases| && IsOpenChallenge(h.cases[i], subject)
  }

  predicate BlocksFinalization(c: Case, subject: Address) {
    && c.subject == subject && c.kind.Challenge?
    && (c.status.Open? || (c.status.Committed? && c.status.verdict.verdict == Sybil))
  }

  predicate HasPendingOrUpheldChallenge(h: Humanity, subject: Address) {
    exists i :: 0 <= i < |h.cases| && BlocksFinalization(h.cases[i], subject)
  }

  function LatestRegistration(cases: seq<Case>, subject: Address): Option<Case> {
    if cases == [] then None
    else
      var last := cases[|cases| - 1];
      if last.subject == subject && last.kind.Registration? then Some(last)
      else LatestRegistration(cases[..|cases| - 1], subject)
  }

  // ---------------------------------------------------------------- operations

  function ClearVouchEdges(h: Humanity, subject: Address): Humanity {
    h.(vouches := set e | e in h.vouches && e.0 != subject && e.1 != subject)
  }

  function RequestVerification(
    seams: Seams, w: World, subject: Address, livenessRef: Hash, entropy: u64, block: u64): Answer
  {
    if Registered(StatusOf(w.humanity, subject)) then Answer(w, Err(AlreadyRegistered))
    else
      var h := ClearVouchEdges(w.humanity, subject);
      if h.jurors == {} then Answer(w.(humanity := h), Err(NoJurors))
      else
        var jury := JuryFor(seams, h, entropy);
        var votes := seq(|jury|, i requires 0 <= i < |jury| => Vote(jury[i], seams.gradeLiveness(livenessRef)));
        var c := Case(subject, subject, Registration, livenessRef, jury, votes, StatusAfter(votes, |jury|), block);
        Answer(w.(humanity := h.(
                 cases := h.cases + [c],
                 humans := h.humans[subject := HumanRecord(Pending, 0, livenessRef, {}, 0, Std)])),
               Ok(|h.cases|))
  }

  function VouchesOut(h: Humanity, voucher: Address): set<(Address, Address)> {
    set e | e in h.vouches && e.0 == voucher
  }

  function Vouch(w: World, voucher: Address, vouchee: Address): Answer {
    var h := w.humanity;
    if voucher == vouchee then Answer(w, Err(SelfVouch))
    else if StatusOf(h, voucher) != Verified then Answer(w, Err(VoucherNotVerified))
    else if StatusOf(h, vouchee) != Pending then Answer(w, Err(VoucheeNotPending))
    else if (voucher, vouchee) in h.vouches then Answer(w, Err(DuplicateVouch))
    else if |VouchesOut(h, voucher)| >= VOUCH_CAPACITY then Answer(w, Err(VouchCapacityReached))
    else
      var record := h.humans[vouchee];
      Answer(w.(humanity := h.(
               vouches := h.vouches + {(voucher, vouchee)},
               humans := h.humans[vouchee := record.(vouchesIn := record.vouchesIn + {voucher})])),
             Ok(0))
  }

  function OpenChallenge(
    seams: Seams, w: World, challenger: Address, subject: Address, evidenceRef: Hash, entropy: u64, block: u64,
    requireVerified: bool): Answer
  {
    var h := w.humanity;
    if requireVerified && StatusOf(h, challenger) != Verified then Answer(w, Err(ChallengerNotVerified))
    else if !Registered(StatusOf(h, subject)) then Answer(w, Err(NotChallengeable))
    else if HasOpenChallenge(h, subject) then Answer(w, Err(ChallengeAlreadyOpen))
    else if (challenger, subject) in h.cleared then Answer(w, Err(ChallengeOnCooldown))
    else if h.jurors == {} then Answer(w, Err(NoJurors))
    else
      var c := Case(subject, challenger, Challenge, evidenceRef, JuryFor(seams, h, entropy), [], Open, block);
      var record := h.humans[subject];
      Answer(w.(humanity := h.(
               cases := h.cases + [c],
               humans := if record.status == Verified then h.humans[subject := record.(status := Challenged)]
                         else h.humans)),
             Ok(|h.cases|))
  }

  function Revoke(w: World, subject: Address): World {
    var h := w.humanity;
    var slashed :=
      if subject in h.humans then
        var record := h.humans[subject];
        (map a | a in h.humans :: if a in record.vouchesIn then Slashed(h.humans[a], SYBIL_SLASH) else h.humans[a])
          [subject := record.(status := Revoked, verifiedAt := 0, vouchesIn := {})]
      else h.humans;
    SyncVerified(w.(humanity := ClearVouchEdges(h.(humans := slashed), subject)), subject, false, 0)
  }

  /** A challenged human becomes verified again, with its old emission epoch. */
  function Restore(w: World, subject: Address): World {
    if StatusOf(w.humanity, subject) != Challenged then w
    else
      var record := w.humanity.humans[subject];
      PutHuman(SyncVerified(w, subject, true, record.verifiedAt), subject, record.(status := Verified))
  }

  /** The challenger of a cleared challenge is slashed and barred from filing against the subject again. */
  function PunishChallenger(w: World, challenger: Address, subject: Address): World {
    var h := w.humanity;
    w.(humanity := h.(
         humans := if challenger in h.humans
                   then h.humans[challenger := Slashed(h.humans[challenger], FALSE_CHALLENGE_SLASH)] else h.humans,
         cleared := h.cleared + {(challenger, subject)}))
  }

  /** What a case that has just got this status does to its subject and challenger. */
  function Enforce(w: World, c: Case): World {
    match c.status
    case Open => w
    case Escalated => if c.kind.Challenge? then Restore(w, c.subject) else w
    case Committed(v) =>
      match v.verdict
      case Sybil => Revoke(w, c.subject)
      case Uncertain => w
      case Human =>
        if c.kind.Challenge? then PunishChallenger(Restore(w, c.subject), c.challenger, c.subject) else w
  }

  predicate HasVoted(c: Case, juror: Address) { exists i :: 0 <= i < |c.votes| && c.votes[i].juror == juror }

  function WithVote(c: Case, juror: Address, verdict: CanonicalVerdict): Case {
    var votes := c.votes + [Vote(juror, verdict)];
    c.(votes := votes, status := StatusAfter(votes, |c.jury|))
  }

  function SubmitVerdict(w: World, caseId: nat, juror: Address, verdict: CanonicalVerdict): Answer {
    var h := w.humanity;
    if caseId >= |h.cases| then Answer(w, Err(NoSuchCase))
    else if !h.cases[caseId].status.Open? then Answer(w, Err(CaseClosed))
    else if juror !in h.cases[caseId].jury then Answer(w, Err(NotOnJury))
    else if HasVoted(h.cases[caseId], juror) then Answer(w, Err(AlreadyVoted))
    else
      var c := WithVote(h.cases[caseId], juror, verdict);
      Answer(Enforce(w.(humanity := h.(cases := h.cases[caseId := c])), c), Ok(caseId))
  }

  /** Why a registration cannot be finalised at this height, if it cannot. */
  function FinalizeObstacle(h: Humanity, subject: Address, block: u64): Option<OpError> {
    if StatusOf(h, subject) != Pending then Some(NotPending)
    else
      var reg := LatestRegistration(h.cases, subject);
      if !(reg.Some? && reg.value.status.Committed? && reg.value.status.verdict.verdict == Human)
      then Some(LivenessNotPassed)
      else if |h.humans[subject].vouchesIn| < MIN_VOUCHES then Some(InsufficientVouches)
      else if block < SatAdd64(reg.value.openedAt, CHALLENGE_WINDOW) then Some(ChallengeWindowOpen)
      else if HasPendingOrUpheldChallenge(h, subject) then Some(ChallengePending)
      else None
  }

  function FinalizeRegistration(w: World, subject: Address, block: u64, now: u64): Answer {
    var obstacle := FinalizeObstacle(w.humanity, subject, block);
    if obstacle.Some? then Answer(w, Err(obstacle.value))
    else
      var record := w.humanity.humans[subject];
      Answer(PutHuman(SyncVerified(w, subject, true, now), subject,
                      record.(status := Verified, verifiedAt := now)), Ok(0))
  }

  datatype ZkAnswer = ZkAnswer(world: World, result: Result<Assurance, OpError>)

  function SubmitZkPassportProof(
    seams: Seams, w: World, subject: Address, z: ZkSubmission, now: u64, block: u64): ZkAnswer
  {
    var h := w.humanity;
    if !seams.passportBinds(w.passports, z, subject, now, block) then ZkAnswer(w, Err(PassportNotBound))
    else if StatusOf(h, subject) == Revoked then ZkAnswer(w, Err(SubjectRevoked))
    else if subject in h.humans && h.humans[subject].assurance != Std then ZkAnswer(w, Err(AlreadyEnhanced))
    else if !IsCanonicalScalar(z.nullifier) then ZkAnswer(w, Err(NonCanonicalNullifier))
    else if z.nullifier in w.passports.nullifiers then ZkAnswer(w, Err(NullifierAlreadyUsed))
    else if !seams.verifyPassport(z) then ZkAnswer(w, Err(InvalidProof))
    else
      var w1 := w.(passports := w.passports.(
                     nullifiers := w.passports.nullifiers + {z.nullifier},
                     attributes := w.passports.attributes[subject := z.attributes]));
      if StatusOf(h, subject) == Verified then
        ZkAnswer(PutHuman(w1, subject, h.humans[subject].(assurance := Dual)), Ok(Dual))
      else
        var record := if subject in h.humans then h.humans[subject] else HumanRecord(Pending, 0, 0, {}, 0, Std);
        ZkAnswer(PutHuman(SyncVerified(w1, subject, true, now), subject,
                          record.(status := Verified, verifiedAt := now, assurance := Enh)),
                 Ok(Enh))
  }

  // ---------------------------------------------------------------- governance registries

  function RegisterCsca(w: World, caller: Address, key: Hash, country: Hash, pubkey: seq<byte>, block: u64): Answer {
    if w.passports.governance != Some(caller) then Answer(w, Err(NotGovernance))
    else
      Answer(w.(passports := w.passports.(
               csca := w.passports.csca[key := CscaEntry(country, pubkey, block, false)])), Ok(0))
  }

  function RevokeCsca(w: World, caller: Address, key: Hash): Answer {
    if w.passports.governance != Some(caller) then Answer(w, Err(NotGovernance))
    else if key !in w.passports.csca then Answer(w, Err(UnknownCsca))
    else
      Answer(w.(passports := w.passports.(
               csca := w.passports.csca[key := w.passports.csca[key].(revoked := true)])), Ok(0))
  }

  function PinSelfIdentityRoot(w: World, caller: Address, root: Hash, block: u64): Answer {
    if w.passports.governance != Some(caller) then Answer(w, Err(NotGovernance))
    else Answer(w.(passports := w.passports.(identityRoots := w.passports.identityRoots[root := block])), Ok(0))
  }

  function PinSelfOfacRoot(w: World, caller: Address, kind: byte, root: Hash, block: u64): Answer {
    if w.passports.governance != Some(caller) then Answer(w, Err(NotGovernance))
    else Answer(w.(passports := w.passports.(ofacRoots := w.passports.ofacRoots[(kind, root) := block])), Ok(0))
  }

  function RetireSelfRoot(w: World, caller: Address, root: Hash): Answer {
    if w.passports.governance != Some(caller) then Answer(w, Err(NotGovernance))
    else
      var p := w.passports;
      Answer(w.(passports := p.(
               identityRoots := p.identityRoots - {root},
               ofacRoots := p.ofacRoots - (set k | k in p.ofacRoots && k.1 == root))), Ok(0))
  }
}
