/** Prompt contracts: deploy, fund, invoke, interpreter effects and their atomic application
    (crates/runtime/src/contracts.rs). */
module PromptContracts {
  import opened Base
  import opened Effects
  import opened World
  import opened L = Ledger
  import Jury
  import Quorum

  datatype EffectError = Insolvent | RefundToNonParty | BadStream | NotOwnedStream | AbortOp

  datatype Answer = Answer(world: World, result: Result<nat, OpError>)

  function PutContract(w: World, id: u64, c: Contract): World
    requires id < |w.contracts.contracts|
  {
    w.(contracts := w.contracts.(contracts := w.contracts.contracts[id := c]))
  }

  /** The kernel stamps the block height and transaction hash on the record it has just created. */
  function DeployContract(
    seams: Seams, w: World, text: seq<byte>, parties: seq<Address>, block: u64, txHash: Hash): Answer {
    if parties == [] then Answer(w, Err(NoParties))
    else if |text| > MAX_CONTRACT_TEXT_BYTES then Answer(w, Err(TextTooLarge))
    else if |parties| > MAX_CONTRACT_PARTIES then Answer(w, Err(TooManyParties))
    else
      var c := Contract(0, (set p | p in parties), text, seams.textCommitment(text), map[], false, block, txHash);
      Answer(w.(contracts := w.contracts.(contracts := w.contracts.contracts + [c])), Ok(|w.contracts.contracts|))
  }

  function FundContract(w: World, funder: Address, id: u64, amount: u128, nonce: u64, now: u64): Answer {
    if id >= |w.contracts.contracts| then Answer(w, Err(NoSuchContract))
    else if w.contracts.contracts[id].terminated then Answer(w, Err(ContractTerminated))
    else
      var s := ApplyTransfer(w.ledger, funder, ContractAddress(id), amount, nonce, now);
      var w1 := w.(ledger := s.ledger);
      if s.result.Err? then Answer(w1, Err(OnLedger(s.result.error)))
      else
        var c := w.contracts.contracts[id];
        Answer(PutContract(w1, id, c.(escrow := SatAdd(c.escrow, amount))), Ok(0))
  }

  // ---------------------------------------------------------------- effects

  /** Phase 1: every op checked against escrow and authority, before anything is written. */
  function Validate(c: Contract, owned: set<nat>, ops: seq<Op>, draw: u128): Result<u128, EffectError> {
    if ops == [] then if draw > c.escrow then Err(Insolvent) else Ok(draw)
    else
      match ops[0]
      case Transfer(_, amount) => Validate(c, owned, ops[1..], SatAdd(draw, amount))
      case Refund(party, amount) =>
        if party !in c.parties then Err(RefundToNonParty) else Validate(c, owned, ops[1..], SatAdd(draw, amount))
      case OpenStream(_, rate, deposit) =>
        if rate == 0 || deposit == 0 || rate > MAX_RATE then Err(BadStream)
        else Validate(c, owned, ops[1..], SatAdd(draw, deposit))
      case StopStream(id) =>
        if id !in owned then Err(NotOwnedStream) else Validate(c, owned, ops[1..], draw)
      case SetVar(_, _) => Validate(c, owned, ops[1..], draw)
      case Abort(_) => Err(AbortOp)
  }

  /** The ledger and the contract record while an effect is being applied; `Stuck` is a failed `expect`. */
  datatype Run = Stuck | Run(ledger: L.Ledger, contract: Contract, nonce: u64)

  function RunOp(r: Run, escrow: Address, op: Op, now: u64): Run
    requires r.Run?
  {
    var c := r.contract;
    match op
    case Transfer(to, amount) =>
      var s := ApplyTransfer(r.ledger, escrow, to, amount, r.nonce, now);
      if s.result.Err? then Stuck else Run(s.ledger, c.(escrow := SatSub(c.escrow, amount)), Next64(r.nonce))
    case Refund(party, amount) =>
      var s := ApplyTransfer(r.ledger, escrow, party, amount, r.nonce, now);
      if s.result.Err? then Stuck else Run(s.ledger, c.(escrow := SatSub(c.escrow, amount)), Next64(r.nonce))
    case OpenStream(to, rate, deposit) =>
      var s := L.OpenStream(r.ledger, escrow, to, rate, deposit, now);
      if s.result.Err? then Stuck else Run(s.ledger, c.(escrow := SatSub(c.escrow, deposit)), r.nonce)
    case StopStream(id) =>
      var s := L.StopStream(r.ledger, id, escrow, now);
      if s.result.Err? then Stuck else Run(s.ledger, c.(escrow := SatAdd(c.escrow, s.result.value)), r.nonce)
    case SetVar(key, value) => r.(contract := c.(vars := c.vars[key := value]))
    case Abort(_) => Stuck
  }

  function RunOps(r: Run, escrow: Address, ops: seq<Op>, now: u64): Run
    decreases |ops|
  {
    if r.Stuck? || ops == [] then r else RunOps(RunOp(r, escrow, ops[0], now), escrow, ops[1..], now)
  }

  datatype Applied = EffectPanic | Rejected(error: EffectError) | Applied(world: World)

  function OwnedStreams(l: L.Ledger, a: Address): set<nat> {
    set i | 0 <= i < |l.streams| && l.streams[i].from == a
  }

  /** The escrow account is settled before any op runs. */
  function StartRun(w: World, id: u64, now: u64): Run
    requires id < |w.contracts.contracts|
  {
    var escrow := ContractAddress(id);
    var acct := Settle(Lookup(w.ledger, escrow), now);
    Run(Put(w.ledger, escrow, acct), w.contracts.contracts[id], acct.nonce)
  }

  function ApplyEffect(w: World, id: u64, ops: seq<Op>, now: u64): (r: Applied)
    ensures r.Applied? ==> r.world.contracts.cases == w.contracts.cases
  {
    if id >= |w.contracts.contracts| then Rejected(Insolvent)
    else
      var escrow := ContractAddress(id);
      var checked := Validate(w.contracts.contracts[id], OwnedStreams(w.ledger, escrow), ops, 0);
      if checked.Err? then Rejected(checked.error)
      else
        var r := RunOps(StartRun(w, id, now), escrow, ops, now);
        if r.Stuck? then EffectPanic else Applied(PutContract(w.(ledger := r.ledger), id, r.contract))
  }

  // ---------------------------------------------------------------- cases

  datatype Resolved = ResolvedPanic | Resolved(world: World, execCase: ExecCase)

  function ResolveCase(seams: Seams, w: World, c: ExecCase, block: u64, now: u64): (r: Resolved)
    ensures r.Resolved? ==> r.world.contracts.cases == w.contracts.cases
  {
    var aborted := c.(status := ExecAborted, resolvedAt := Some(block));
    match Quorum.Tally(c.effects, (s: Submission) => seams.effectHash(s.ops), (s: Submission) => true, |c.jury|, QUORUM)
    case Waiting => Resolved(w, c.(status := ExecOpen))
    case NoQuorum => Resolved(w, aborted)
    case Committed(s) =>
      if IsAbort(s.ops) then Resolved(w, aborted)
      else
        match ApplyEffect(w, c.contract, s.ops, now)
        case EffectPanic => ResolvedPanic
        case Rejected(_) => Resolved(w, aborted)
        case Applied(w1) => Resolved(w1, c.(status := ExecCommitted(s.ops), resolvedAt := Some(block)))
  }

  function View(w: World, id: u64, now: u64): ContractView
    requires id < |w.contracts.contracts|
  {
    var c := w.contracts.contracts[id];
    ContractView(id, c.escrow, c.parties, c.vars, OwnedStreams(w.ledger, ContractAddress(id)), now)
  }

  /** The case an invocation opens, with the effect computed for every selected interpreter. */
  function NewExecCase(
    seams: Seams, w: World, id: u64, triggerRef: Hash, invoker: Address, entropy: u64, block: u64, now: u64): ExecCase
    requires id < |w.contracts.contracts|
  {
    var jury := Jury.SelectJury(w.humanity.jurors, JURY_SIZE, i => seams.draw(|w.contracts.cases|, entropy, i));
    var text, view := w.contracts.contracts[id].text, View(w, id, now);
    var effects := seq(|jury|, i requires 0 <= i < |jury| =>
      Submission(jury[i], seams.interpret(jury[i], text, view, triggerRef)));
    ExecCase(id, triggerRef, invoker, jury, effects, ExecOpen, block, None)
  }

  function FileNewCase(r: Resolved): Ran {
    match r
    case ResolvedPanic => Panic
    case Resolved(w, c) =>
      Ran(w.(contracts := w.contracts.(cases := w.contracts.cases + [c])), Ok(CaseId(|w.contracts.cases|)))
  }

  function InvokeContract(
    seams: Seams, w: World, id: u64, triggerRef: Hash, invoker: Address, entropy: u64, block: u64, now: u64): Ran
  {
    if id >= |w.contracts.contracts| then Ran(w, Err(NoSuchContract))
    else if w.contracts.contracts[id].terminated then Ran(w, Err(ContractTerminated))
    else if w.humanity.jurors == {} then Ran(w, Err(NoInterpreters))
    else
      FileNewCase(ResolveCase(seams, w, NewExecCase(seams, w, id, triggerRef, invoker, entropy, block, now),
                              block, now))
  }

  predicate HasSubmitted(c: ExecCase, a: Address) { exists i :: 0 <= i < |c.effects| && c.effects[i].interpreter == a }

  function SubmitEffect(
    seams: Seams, w: World, caseId: u64, interpreter: Address, ops: seq<Op>, block: u64, now: u64): Ran {
    if caseId >= |w.contracts.cases| then Ran(w, Err(NoSuchCase))
    else
      var c := w.contracts.cases[caseId];
      if !c.status.ExecOpen? then Ran(w, Err(CaseClosed))
      else if interpreter !in c.jury then Ran(w, Err(NotOnJury))
      else if HasSubmitted(c, interpreter) then Ran(w, Err(AlreadySubmitted))
      else
        FileCase(ResolveCase(seams, w, c.(effects := c.effects + [Submission(interpreter, ops)]), block, now), caseId)
  }

  function FileCase(r: Resolved, caseId: u64): Ran
    requires r.Resolved? ==> caseId < |r.world.contracts.cases|
  {
    match r
    case ResolvedPanic => Panic
    case Resolved(w, c) =>
      Ran(w.(contracts := w.contracts.(cases := w.contracts.cases[caseId := c])), Ok(CaseId(caseId)))
  }
}
