/** The consensus state of a node: the ledger, the proof-of-humanity registry, the prompt contracts and
    the passport registries (crates/runtime/src/lib.rs, `MemState`). */
module World {
  import opened Base
  import opened Ledger
  import opened Effects

  // ---------------------------------------------------------------- proof of humanity

  const MIN_VOUCHES := 2
  const VOUCH_CAPACITY := 10
  const JURY_SIZE := 3
  const QUORUM := 2
  const CHALLENGE_WINDOW: u64 := 5
  const SYBIL_SLASH := 100
  const FALSE_CHALLENGE_SLASH := 50
  const I64_MIN := -0x8000_0000_0000_0000
  const HUMANITY_HUB: Address := 0x5048

  datatype Verdict = Human | Sybil | Uncertain

  datatype Confidence = Low | Med | High

  datatype CanonicalVerdict = CanonicalVerdict(verdict: Verdict, confidence: Confidence, reasonsHash: Hash)

  datatype HumanStatus = Unverified | Pending | Verified | Challenged | Revoked

  datatype Assurance = Std | Enh | Dual

  datatype HumanRecord = HumanRecord(
    status: HumanStatus, verifiedAt: u64, livenessRef: Hash, vouchesIn: set<Address>, reputation: int,
    assurance: Assurance)

  datatype CaseKind = Registration | Challenge

  datatype CaseStatus = Open | Committed(verdict: CanonicalVerdict) | Escalated

  datatype Vote = Vote(juror: Address, verdict: CanonicalVerdict)

  datatype Case = Case(
    subject: Address, challenger: Address, kind: CaseKind, evidenceRef: Hash, jury: seq<Address>,
    votes: seq<Vote>, status: CaseStatus, openedAt: u64)

  /** Case ids are indices. `vouches` holds the edges (voucher, vouchee); `cleared` the pairs
      (challenger, subject) barred from a second challenge; `jurors` the active ones. */
  datatype Humanity = Humanity(
    humans: map<Address, HumanRecord>, vouches: set<(Address, Address)>, cases: seq<Case>,
    cleared: set<(Address, Address)>, jurors: set<Address>)

  // ---------------------------------------------------------------- prompt contracts

  const MAX_CONTRACT_TEXT_BYTES := 8192
  const MAX_CONTRACT_PARTIES := 16
  const CONTRACT_HUB: Address := 0x5043

  datatype Contract = Contract(
    escrow: u128, parties: set<Address>, text: seq<byte>, textRef: Hash, vars: map<Hash, Hash>,
    terminated: bool, deployBlock: u64, deployTx: Hash)

  datatype ExecStatus = ExecOpen | ExecCommitted(ops: seq<Op>) | ExecAborted

  datatype Submission = Submission(interpreter: Address, ops: seq<Op>)

  datatype ExecCase = ExecCase(
    contract: u64, triggerRef: Hash, invoker: Address, jury: seq<Address>, effects: seq<Submission>,
    status: ExecStatus, openedAt: u64, resolvedAt: Option<u64>)

  datatype Contracts = Contracts(contracts: seq<Contract>, cases: seq<ExecCase>)

  /** The escrow account of a contract: the hub tag in the high bytes, the id in the low eight. */
  function ContractAddress(id: u64): Address { CONTRACT_HUB * 0x1_0000_0000_0000_0000 + id }

  /** No account has the key of an escrow address, so no transaction is signed by one. */
  ghost predicate IsEscrow(a: Address) { exists id: u64 :: a == ContractAddress(id) }

  // ---------------------------------------------------------------- passport registries

  datatype CscaEntry = CscaEntry(country: Hash, pubkey: seq<byte>, addedAt: u64, revoked: bool)

  datatype Passports = Passports(
    nullifiers: set<Hash>, attributes: map<Address, seq<Hash>>, csca: map<Hash, CscaEntry>,
    governance: Option<Address>, identityRoots: map<Hash, u64>, ofacRoots: map<(byte, Hash), u64>,
    selfScope: Option<Hash>)

  datatype ZkSubmission = ZkSubmission(
    proof: seq<byte>, signals: seq<Hash>, schemeTag: byte, userContext: seq<byte>, nullifier: Hash,
    attributes: seq<Hash>)

  /** The order of the scalar field that passport proofs are over. */
  const BN254_FR_MODULUS: Hash := 0x30644e72e131a029b85045b68181585d2833e84879b9709143e1f593f0000001

  /** Byte by byte in the source, most significant first, which is the order of numbers. */
  predicate IsCanonicalScalar(n: Hash) { n < BN254_FR_MODULUS }

  datatype World = World(ledger: Ledger, humanity: Humanity, contracts: Contracts, passports: Passports)

  // ---------------------------------------------------------------- seams

  /** What an interpreter is shown of a contract. */
  datatype ContractView = ContractView(
    id: u64, escrow: u128, parties: set<Address>, vars: map<Hash, Hash>, streams: set<nat>, now: u64)

  /** The calls the kernel makes into code outside it: the AI oracle, the contract interpreter, the
      passport verifier, the juror PRNG and the hash functions. All are deterministic functions; the interpreter
      is asked once for each juror and may answer each of them differently. */
  datatype Seams = Seams(
    gradeLiveness: Hash -> CanonicalVerdict,
    analyzeSybil: (set<(Address, Address)>, Address) -> CanonicalVerdict,
    interpret: (Address, seq<byte>, ContractView, Hash) -> seq<Op>,
    effectHash: seq<Op> -> Hash,
    passportBinds: (Passports, ZkSubmission, Address, u64, u64) -> bool,
    verifyPassport: ZkSubmission -> bool,
    draw: (nat, u64, nat) -> nat,
    entropy: (Hash, u64) -> u64,
    sybilEvidence: (Address, Hash) -> Hash,
    textCommitment: seq<byte> -> Hash)

  // ---------------------------------------------------------------- results

  datatype OpError =
    | OnLedger(error: LedgerError)
    | AlreadyRegistered | NoJurors | VoucherNotVerified | VouchCapacityReached | SelfVouch | DuplicateVouch
    | VoucheeNotPending | NotChallengeable | ChallengerNotVerified | ChallengeAlreadyOpen | ChallengeOnCooldown
    | NoSuchCase | NotOnJury | CaseClosed | AlreadyVoted
    | NotPending | LivenessNotPassed | InsufficientVouches | ChallengeWindowOpen | ChallengePending
    | NotGovernance | UnknownCsca
    | PassportNotBound | SubjectRevoked | AlreadyEnhanced | NonCanonicalNullifier | NullifierAlreadyUsed | InvalidProof
    | NoParties | TextTooLarge | TooManyParties | NoSuchContract | ContractTerminated | NoInterpreters
    | AlreadySubmitted

  datatype OpResult = NoResult | StreamId(id: nat) | CaseId(caseId: nat) | Reached(assurance: Assurance)

  /** What an operation leaves behind and answers; `Panic` is a failed `expect`, which ends the process. */
  datatype Ran = Panic | Ran(world: World, result: Result<OpResult, OpError>)
}
