/** The incremental scan of a sponsor account's daily spend
    (apps/proofofhumanity/scripts/sponsor-account-monitor.ts). The chain is fixed and given as a function
    from block numbers to blocks; the clock, the node's answers and interruptions are inputs of a run. */
module SponsorMonitor {
  import opened Base

  const SECONDS_PER_DAY: nat := 86_400

  datatype Receipt = Receipt(gasUsed: nat, effectiveGasPrice: nat, l1Fee: nat, success: bool)

  /** An entry of a block: a bare hash, or the transaction with its receipt. */
  datatype Entry =
    | HashOnly(hash: Hash)
    | Full(hash: Hash, from: Address, value: nat, receipt: Receipt)

  datatype Block = Block(timestamp: nat, transactions: seq<Entry>)

  type Chain = nat -> Block

  datatype Config = Config(chainId: nat, sponsor: Address, startBlock: nat, maximumBlocks: nat)

  datatype State = State(chainId: nat, sponsor: Address, throughBlock: nat, utcDay: nat, dailySpend: nat)

  datatype File = Missing | Invalid | Stored(state: State)

  datatype RunError = WrongChain | InvalidState | ForeignState | StartAhead | GapTooLarge(blocks: nat) | Interrupted

  /** Where a run is cut short, if it is. */
  datatype Interruption = Never | AtBlock(number: nat) | BeforeWrite | BeforeRename

  datatype Report = Report(state: State, hashes: seq<Hash>)

  /** One start of the monitor: what the node and the clock say, and where it is cut short. */
  datatype Attempt = Attempt(rpcChainId: nat, head: nat, day: nat, interruption: Interruption)

  // ---------------------------------------------------------------- spend, from scratch

  function UtcDay(timestamp: nat): nat { timestamp / SECONDS_PER_DAY }

  function TxSpend(t: Entry): nat
    requires t.Full?
  {
    t.receipt.gasUsed * t.receipt.effectiveGasPrice + t.receipt.l1Fee + (if t.receipt.success then t.value else 0)
  }

  predicate Counts(t: Entry, sponsor: Address) { t.Full? && t.from == sponsor }

  function TxsSpend(txs: seq<Entry>, sponsor: Address): nat {
    if txs == [] then 0
    else TxsSpend(txs[..|txs| - 1], sponsor) + (if Counts(txs[|txs| - 1], sponsor) then TxSpend(txs[|txs| - 1]) else 0)
  }

  function TxsHashes(txs: seq<Entry>, sponsor: Address): seq<Hash> {
    if txs == [] then []
    else TxsHashes(txs[..|txs| - 1], sponsor) + (if Counts(txs[|txs| - 1], sponsor) then [txs[|txs| - 1].hash] else [])
  }

  function BlockSpend(b: Block, sponsor: Address, day: nat): nat {
    if UtcDay(b.timestamp) == day then TxsSpend(b.transactions, sponsor) else 0
  }

  /** The sponsor's spend dated on `day` over the blocks `from <= n < end`. */
  function SpendBetween(chain: Chain, sponsor: Address, day: nat, from: nat, end: nat): nat
    decreases end
  {
    if end <= from then 0
    else SpendBetween(chain, sponsor, day, from, end - 1) + BlockSpend(chain(end - 1), sponsor, day)
  }

  function HashesBetween(chain: Chain, sponsor: Address, from: nat, end: nat): seq<Hash>
    decreases end
  {
    if end <= from then []
    else HashesBetween(chain, sponsor, from, end - 1) + TxsHashes(chain(end - 1).transactions, sponsor)
  }

  // ---------------------------------------------------------------- one run, as a function

  function FirstBlock(c: Config, f: File): nat {
    if f.Stored? then f.state.throughBlock + 1 else c.startBlock
  }

  function Carried(f: File, day: nat): nat {
    if f.Stored? && f.state.utcDay == day then f.state.dailySpend else 0
  }

  function BlockCount(first: nat, head: nat): nat { if head >= first then head - first + 1 else 0 }

  /** What stops a run before it reads any block. */
  function Refusal(c: Config, f: File, a: Attempt): Option<RunError> {
    var first := FirstBlock(c, f);
    if a.rpcChainId != c.chainId then Some(WrongChain)
    else if f.Invalid? then Some(InvalidState)
    else if f.Stored? && (f.state.chainId != c.chainId || f.state.sponsor != c.sponsor) then Some(ForeignState)
    else if f.Missing? && first > a.head then Some(StartAhead)
    else if BlockCount(first, a.head) > c.maximumBlocks then Some(GapTooLarge(BlockCount(first, a.head)))
    else None
  }

  predicate CutShort(c: Config, f: File, a: Attempt) {
    match a.interruption
    case Never => false
    case AtBlock(n) => FirstBlock(c, f) <= n <= a.head
    case _ => true
  }

  predicate Succeeds(c: Config, f: File, a: Attempt) { Refusal(c, f, a).None? && !CutShort(c, f, a) }

  function NextState(c: Config, chain: Chain, f: File, a: Attempt): State {
    State(c.chainId, c.sponsor, a.head, a.day,
          Carried(f, a.day) + SpendBetween(chain, c.sponsor, a.day, FirstBlock(c, f), a.head + 1))
  }

  function NextFile(c: Config, chain: Chain, f: File, a: Attempt): File {
    if Succeeds(c, f, a) then Stored(NextState(c, chain, f, a)) else f
  }

  /** The hashes a run reports. */
  function Reported(c: Config, chain: Chain, f: File, a: Attempt): seq<Hash> {
    if Succeeds(c, f, a) then HashesBetween(chain, c.sponsor, FirstBlock(c, f), a.head + 1) else []
  }

  // ---------------------------------------------------------------- one run, as it executes

  /** The monitor and its two files. */
  class Monitor {
    const config: Config
    var file: File
    var temporary: Option<State>

    constructor (config: Config)
      ensures this.config == config && file == Missing && temporary == None
    {
      this.config := config;
      file := Missing;
      temporary := None;
    }

    /** Replaces the state file through a temporary one; an interruption in between leaves the old state. */
    method StoreState(state: State, interruption: Interruption) returns (stored: bool)
      modifies this
      ensures stored == (interruption != BeforeWrite && interruption != BeforeRename)
      ensures file == if stored then Stored(state) else old(file)
      ensures interruption == BeforeWrite ==> temporary == old(temporary)
      ensures interruption == BeforeRename ==> temporary == Some(state)
    {
      if interruption == BeforeWrite { return false; }
      temporary := Some(state);
      if interruption == BeforeRename { return false; }
      file := Stored(state);
      temporary := None;
      return true;
    }

    /** Reads one block, adding the sponsor's transactions. */
    method ScanBlock(block: Block, day: nat, spent: nat, hashes: seq<Hash>) returns (spent': nat, hashes': seq<Hash>)
      ensures spent' == spent + BlockSpend(block, config.sponsor, day)
      ensures hashes' == hashes + TxsHashes(block.transactions, config.sponsor)
    {
      spent', hashes' := spent, hashes;
      var txs := block.transactions;
      for i := 0 to |txs|
        invariant spent' == spent + BlockSpend(block.(transactions := txs[..i]), config.sponsor, day)
        invariant hashes' == hashes + TxsHashes(txs[..i], config.sponsor)
      {
        assert txs[..i + 1][..i] == txs[..i];
        if !Counts(txs[i], config.sponsor) { continue; }
        if UtcDay(block.timestamp) == day { spent' := spent' + TxSpend(txs[i]); }
        hashes' := hashes' + [txs[i].hash];
      }
      assert txs[..|txs|] == txs;
    }

    method Run(chain: Chain, a: Attempt) returns (r: Result<Report, RunError>)
      modifies this
      ensures file == NextFile(config, chain, old(file), a)
      ensures r.Ok? <==> Succeeds(config, old(file), a)
      ensures r.Ok? ==> file == Stored(r.value.state) && r.value.hashes == Reported(config, chain, old(file), a)
      ensures var refusal := Refusal(config, old(file), a);
        r.Err? ==> r.error == if refusal.Some? then refusal.value else Interrupted
    {
      if a.rpcChainId != config.chainId { return Err(WrongChain); }
      if file.Invalid? { return Err(InvalidState); }
      if file.Stored? && (file.state.chainId != config.chainId || file.state.sponsor != config.sponsor) {
        return Err(ForeignState);
      }
      var spent := if file.Stored? && file.state.utcDay == a.day then file.state.dailySpend else 0;
      var hashes: seq<Hash> := [];
      var first := if file.Stored? then file.state.throughBlock + 1 else config.startBlock;
      if file.Missing? && first > a.head { return Err(StartAhead); }
      var count := BlockCount(first, a.head);
      if count > config.maximumBlocks { return Err(GapTooLarge(count)); }
      var number := first;
      while number <= a.head
        invariant first <= number && (number <= a.head + 1 || number == first)
        invariant spent == Carried(file, a.day) + SpendBetween(chain, config.sponsor, a.day, first, number)
        invariant hashes == HashesBetween(chain, config.sponsor, first, number)
        invariant a.interruption.AtBlock? ==> !(first <= a.interruption.number < number)
        invariant file == old(file)
        decreases a.head + 1 - number
      {
        if a.interruption == AtBlock(number) { return Err(Interrupted); }
        spent, hashes := ScanBlock(chain(number), a.day, spent, hashes);
        number := number + 1;
      }
      assert SpendBetween(chain, config.sponsor, a.day, first, number)
          == SpendBetween(chain, config.sponsor, a.day, first, a.head + 1);
      var state := State(config.chainId, config.sponsor, a.head, a.day, spent);
      var stored := StoreState(state, a.interruption);
      if !stored { return Err(Interrupted); }
      return Ok(Report(state, hashes));
    }
  }
}
