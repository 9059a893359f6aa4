/** What any sequence of monitor runs keeps. */
module SponsorMonitorLaws {
  import opened Base
  import opened SponsorMonitor

  // ---------------------------------------------------------------- sums over ranges

  lemma {:induction false} SpendSplits(chain: Chain, sponsor: Address, day: nat, from: nat, mid: nat, end: nat)
    requires from <= mid <= end
    ensures SpendBetween(chain, sponsor, day, from, end)
         == SpendBetween(chain, sponsor, day, from, mid) + SpendBetween(chain, sponsor, day, mid, end)
    decreases end
  {
    if mid < end { SpendSplits(chain, sponsor, day, from, mid, end - 1); }
  }

  lemma {:induction false} HashesSplit(chain: Chain, sponsor: Address, from: nat, mid: nat, end: nat)
    requires from <= mid <= end
    ensures HashesBetween(chain, sponsor, from, end)
         == HashesBetween(chain, sponsor, from, mid) + HashesBetween(chain, sponsor, mid, end)
    decreases end
  {
    if mid < end { HashesSplit(chain, sponsor, from, mid, end - 1); }
  }

  lemma {:induction false} NothingOnALaterDay(chain: Chain, sponsor: Address, day: nat, from: nat, end: nat)
    requires forall n :: from <= n < end ==> UtcDay(chain(n).timestamp) < day
    ensures SpendBetween(chain, sponsor, day, from, end) == 0
    decreases end
  {
    if from < end { NothingOnALaterDay(chain, sponsor, day, from, end - 1); }
  }

  // ---------------------------------------------------------------- what the figure is made of

  /** The cost of its gas, the fee of the rollup, and the value it moved, which a failed transaction keeps. */
  function GasCost(t: Entry): nat { if t.Full? then t.receipt.gasUsed * t.receipt.effectiveGasPrice else 0 }
  function RollupFee(t: Entry): nat { if t.Full? then t.receipt.l1Fee else 0 }
  function MovedValue(t: Entry): nat { if t.Full? && t.receipt.success then t.value else 0 }

  /** The sum of `part` over the transactions of `sponsor`. */
  function SumOf(txs: seq<Entry>, sponsor: Address, part: Entry -> nat): nat {
    if txs == [] then 0
    else (if txs[0].Full? && txs[0].from == sponsor then part(txs[0]) else 0) + SumOf(txs[1..], sponsor, part)
  }

  /** The same over the blocks `from <= n < end` with a timestamp within the day. */
  function DaySum(chain: Chain, sponsor: Address, day: nat, from: nat, end: nat, part: Entry -> nat): nat
    decreases end - from
  {
    if end <= from then 0
    else
      (if 86_400 * day <= chain(from).timestamp < 86_400 * (day + 1) then SumOf(chain(from).transactions, sponsor, part)
       else 0)
      + DaySum(chain, sponsor, day, from + 1, end, part)
  }

  lemma {:induction false} SumOfPush(txs: seq<Entry>, t: Entry, sponsor: Address, part: Entry -> nat)
    ensures SumOf(txs + [t], sponsor, part) == SumOf(txs, sponsor, part) + SumOf([t], sponsor, part)
  {
    if txs == [] {
      assert txs + [t] == [t];
    } else {
      assert (txs + [t])[1..] == txs[1..] + [t];
      SumOfPush(txs[1..], t, sponsor, part);
    }
  }

  lemma {:induction false} TxsSpendIsThreeSums(txs: seq<Entry>, sponsor: Address)
    ensures TxsSpend(txs, sponsor)
         == SumOf(txs, sponsor, GasCost) + SumOf(txs, sponsor, RollupFee) + SumOf(txs, sponsor, MovedValue)
  {
    if txs != [] {
      var rest, t := txs[..|txs| - 1], txs[|txs| - 1];
      TxsSpendIsThreeSums(rest, sponsor);
      assert txs == rest + [t];
      SumOfPush(rest, t, sponsor, GasCost);
      SumOfPush(rest, t, sponsor, RollupFee);
      SumOfPush(rest, t, sponsor, MovedValue);
    }
  }

  lemma DayMeaning(timestamp: nat, day: nat)
    ensures UtcDay(timestamp) == day <==> 86_400 * day <= timestamp < 86_400 * (day + 1)
  {
  }

  /** The spend of a day is the gas, the rollup fees and the values of the successful transactions, over the sponsor's
      transactions in the blocks of that day. */
  lemma {:induction false} SpendIsThreeSums(chain: Chain, sponsor: Address, day: nat, from: nat, end: nat)
    ensures SpendBetween(chain, sponsor, day, from, end)
         == DaySum(chain, sponsor, day, from, end, GasCost) + DaySum(chain, sponsor, day, from, end, RollupFee)
            + DaySum(chain, sponsor, day, from, end, MovedValue)
    decreases end - from
  {
    if from < end {
      hide SumOf, TxsSpend;
      SpendSplits(chain, sponsor, day, from, from + 1, end);
      SpendIsThreeSums(chain, sponsor, day, from + 1, end);
      TxsSpendIsThreeSums(chain(from).transactions, sponsor);
      DayMeaning(chain(from).timestamp, day);
      assert SpendBetween(chain, sponsor, day, from, from + 1) == BlockSpend(chain(from), sponsor, day);
    }
  }

  /** The entries are one, but for the value of a failed transaction. */
  predicate AlikeUpToFailedValue(s: Entry, t: Entry) {
    s == t || (s.Full? && t.Full? && !s.receipt.success && s == t.(value := s.value))
  }

  predicate ChainsAlike(c: Chain, d: Chain, from: nat, end: nat) {
    forall n :: from <= n < end ==>
      && c(n).timestamp == d(n).timestamp && |c(n).transactions| == |d(n).transactions|
      && forall i :: 0 <= i < |c(n).transactions| ==>
           AlikeUpToFailedValue(c(n).transactions[i], d(n).transactions[i])
  }

  lemma {:induction false} FailedValuesSum(s: seq<Entry>, t: seq<Entry>, sponsor: Address)
    requires |s| == |t| && forall i :: 0 <= i < |s| ==> AlikeUpToFailedValue(s[i], t[i])
    ensures TxsSpend(s, sponsor) == TxsSpend(t, sponsor)
  {
    if s != [] { FailedValuesSum(s[..|s| - 1], t[..|t| - 1], sponsor); }
  }

  /** What failed transactions would have moved never shows in the figure. */
  lemma {:induction false} FailedValuesDoNotCount(
    c: Chain, d: Chain, sponsor: Address, day: nat, from: nat, end: nat)
    requires ChainsAlike(c, d, from, end)
    ensures SpendBetween(c, sponsor, day, from, end) == SpendBetween(d, sponsor, day, from, end)
    decreases end
  {
    if from < end {
      hide TxsSpend, AlikeUpToFailedValue;
      FailedValuesSum(c(end - 1).transactions, d(end - 1).transactions, sponsor);
      FailedValuesDoNotCount(c, d, sponsor, day, from, end - 1);
    }
  }

  // ---------------------------------------------------------------- runs

  /** When a run goes through: the node is on the configured chain, the state file is absent or of this chain and
      sponsor, the start is not ahead of the head, at most the allowed number of blocks is new, and nothing cuts it
      short. */
  lemma SucceedsExactlyWhen(c: Config, f: File, a: Attempt)
    ensures Succeeds(c, f, a) <==>
      && a.rpcChainId == c.chainId
      && (match f
          case Missing => c.startBlock <= a.head < c.startBlock + c.maximumBlocks
          case Invalid => false
          case Stored(s) =>
            s.chainId == c.chainId && s.sponsor == c.sponsor && a.head <= s.throughBlock + c.maximumBlocks)
      && (match a.interruption
          case Never => true
          case AtBlock(n) => n > a.head || n < if f.Stored? then f.state.throughBlock + 1 else c.startBlock
          case _ => false)
  {
  }

  /** The state file after a sequence of attempts. */
  function Final(c: Config, chain: Chain, f: File, attempts: seq<Attempt>): File
    decreases |attempts|
  {
    if attempts == [] then f else Final(c, chain, NextFile(c, chain, f, attempts[0]), attempts[1..])
  }

  /** Everything the attempts reported, in order. */
  function AllReported(c: Config, chain: Chain, f: File, attempts: seq<Attempt>): seq<Hash>
    decreases |attempts|
  {
    if attempts == [] then []
    else Reported(c, chain, f, attempts[0]) + AllReported(c, chain, NextFile(c, chain, f, attempts[0]), attempts[1..])
  }

  function Numbers(from: nat, end: nat): (r: seq<nat>)
    ensures |r| == if end <= from then 0 else end - from
    ensures forall i :: 0 <= i < |r| ==> r[i] == from + i
  {
    if end <= from then [] else seq(end - from, i requires 0 <= i => from + i)
  }

  /** The blocks the successful attempts read, in order. */
  function AllScanned(c: Config, chain: Chain, f: File, attempts: seq<Attempt>): seq<nat>
    decreases |attempts|
  {
    if attempts == [] then []
    else
      (if Succeeds(c, f, attempts[0]) then Numbers(FirstBlock(c, f), attempts[0].head + 1) else [])
      + AllScanned(c, chain, NextFile(c, chain, f, attempts[0]), attempts[1..])
  }

  /** A successful attempt sees neither the head nor the day go back, and no new block dated after its day. */
  predicate InOrder(c: Config, chain: Chain, f: File, a: Attempt) {
    && (f.Stored? ==> f.state.throughBlock <= a.head && f.state.utcDay <= a.day)
    && forall n :: FirstBlock(c, f) <= n <= a.head ==> UtcDay(chain(n).timestamp) <= a.day
  }

  predicate HeadsInOrder(c: Config, chain: Chain, f: File, attempts: seq<Attempt>)
    decreases |attempts|
  {
    attempts == [] ||
    ((Succeeds(c, f, attempts[0]) && f.Stored? ==> f.state.throughBlock <= attempts[0].head)
     && HeadsInOrder(c, chain, NextFile(c, chain, f, attempts[0]), attempts[1..]))
  }

  predicate AllInOrder(c: Config, chain: Chain, f: File, attempts: seq<Attempt>)
    decreases |attempts|
  {
    attempts == [] ||
    ((Succeeds(c, f, attempts[0]) ==> InOrder(c, chain, f, attempts[0]))
     && AllInOrder(c, chain, NextFile(c, chain, f, attempts[0]), attempts[1..]))
  }

  /** The stored figure is the from-scratch one. */
  predicate Agrees(c: Config, chain: Chain, s: State) {
    s.dailySpend == SpendBetween(chain, c.sponsor, s.utcDay, c.startBlock, s.throughBlock + 1)
  }

  predicate Consistent(c: Config, chain: Chain, f: File) {
    f.Stored? ==>
      && c.startBlock <= f.state.throughBlock + 1 && Agrees(c, chain, f.state)
      && forall n :: c.startBlock <= n <= f.state.throughBlock ==> UtcDay(chain(n).timestamp) <= f.state.utcDay
  }

  lemma RunKeepsConsistent(c: Config, chain: Chain, f: File, a: Attempt)
    requires Consistent(c, chain, f) && (Succeeds(c, f, a) ==> InOrder(c, chain, f, a))
    ensures Consistent(c, chain, NextFile(c, chain, f, a))
  {
    if Succeeds(c, f, a) && f.Stored? {
      var first := FirstBlock(c, f);
      SpendSplits(chain, c.sponsor, a.day, c.startBlock, first, a.head + 1);
      if f.state.utcDay < a.day { NothingOnALaterDay(chain, c.sponsor, a.day, c.startBlock, first); }
    }
  }

  /** Over any sequence of runs, the stored daily spend is the sum recomputed from the start block: gas, rollup fees
      and values moved. */
  lemma {:induction false} StoredSpendIsFromScratch(c: Config, chain: Chain, f: File, attempts: seq<Attempt>)
    requires Consistent(c, chain, f) && AllInOrder(c, chain, f, attempts)
    ensures Consistent(c, chain, Final(c, chain, f, attempts))
    ensures var final := Final(c, chain, f, attempts);
      final.Stored? ==>
        var day, end := final.state.utcDay, final.state.throughBlock + 1;
        final.state.dailySpend == DaySum(chain, c.sponsor, day, c.startBlock, end, GasCost)
          + DaySum(chain, c.sponsor, day, c.startBlock, end, RollupFee)
          + DaySum(chain, c.sponsor, day, c.startBlock, end, MovedValue)
    decreases |attempts|
  {
    if attempts == [] {
      if f.Stored? { SpendIsThreeSums(chain, c.sponsor, f.state.utcDay, c.startBlock, f.state.throughBlock + 1); }
    }
    if attempts != [] {
      RunKeepsConsistent(c, chain, f, attempts[0]);
      StoredSpendIsFromScratch(c, chain, NextFile(c, chain, f, attempts[0]), attempts[1..]);
    }
  }

  // ---------------------------------------------------------------- each block once

  /** The successful runs read one contiguous range, each block once, and report each transaction once. */
  lemma {:induction false} EachBlockOnce(c: Config, chain: Chain, f: File, attempts: seq<Attempt>)
    requires HeadsInOrder(c, chain, f, attempts)
    ensures var final := Final(c, chain, f, attempts);
      && FirstBlock(c, f) <= FirstBlock(c, final)
      && AllScanned(c, chain, f, attempts) == Numbers(FirstBlock(c, f), FirstBlock(c, final))
      && AllReported(c, chain, f, attempts) == HashesBetween(chain, c.sponsor, FirstBlock(c, f), FirstBlock(c, final))
    decreases |attempts|
  {
    hide HashesBetween;
    if attempts == [] {
      NoHashes(chain, c.sponsor, FirstBlock(c, f));
    } else {
      var g := NextFile(c, chain, f, attempts[0]);
      var final := Final(c, chain, f, attempts);
      EachBlockOnce(c, chain, g, attempts[1..]);
      if Succeeds(c, f, attempts[0]) {
        assert FirstBlock(c, f) <= FirstBlock(c, g) == attempts[0].head + 1;
        HashesSplit(chain, c.sponsor, FirstBlock(c, f), FirstBlock(c, g), FirstBlock(c, final));
      }
    }
  }

  lemma NoHashes(chain: Chain, sponsor: Address, n: nat)
    ensures HashesBetween(chain, sponsor, n, n) == []
  {
  }

  // ---------------------------------------------------------------- refused and interrupted runs

  function Successes(c: Config, chain: Chain, f: File, attempts: seq<Attempt>): seq<Attempt>
    decreases |attempts|
  {
    if attempts == [] then []
    else if Succeeds(c, f, attempts[0]) then
      [attempts[0]] + Successes(c, chain, NextFile(c, chain, f, attempts[0]), attempts[1..])
    else Successes(c, chain, f, attempts[1..])
  }

  /** Refused and interrupted runs might as well not have been started. */
  lemma {:induction false} FailuresLeaveNoTrace(c: Config, chain: Chain, f: File, attempts: seq<Attempt>)
    ensures var kept := Successes(c, chain, f, attempts);
      && Final(c, chain, f, kept) == Final(c, chain, f, attempts)
      && AllScanned(c, chain, f, kept) == AllScanned(c, chain, f, attempts)
    decreases |attempts|
  {
    if attempts != [] {
      var g := NextFile(c, chain, f, attempts[0]);
      FailuresLeaveNoTrace(c, chain, g, attempts[1..]);
      if Succeeds(c, f, attempts[0]) {
        assert Successes(c, chain, f, attempts)[1..] == Successes(c, chain, g, attempts[1..]);
      }
    }
  }

  // ---------------------------------------------------------------- exactly when a run is right

  /** With the head not going back, a run keeps the figure right exactly when the day is the stored one, or no
      spend dated on the new day lies in a block read before. */
  lemma RunAgreesExactlyWhen(c: Config, chain: Chain, f: File, a: Attempt)
    requires Consistent(c, chain, f) && f.Stored? && Succeeds(c, f, a) && f.state.throughBlock <= a.head
    ensures Agrees(c, chain, NextFile(c, chain, f, a).state) <==>
      (a.day == f.state.utcDay
       || SpendBetween(chain, c.sponsor, a.day, c.startBlock, f.state.throughBlock + 1) == 0)
  {
    SpendSplits(chain, c.sponsor, a.day, c.startBlock, FirstBlock(c, f), a.head + 1);
  }

  /** When the head goes back, on whatever day and however far, the recorded block goes back with it, but not the
      figure: on the stored day it is right exactly when the blocks given up held no spend of the day, on another
      day exactly when the blocks kept hold none. */
  lemma HeadRegressAgreesExactlyWhen(c: Config, chain: Chain, f: File, a: Attempt)
    requires Consistent(c, chain, f) && f.Stored? && Succeeds(c, f, a) && a.head < f.state.throughBlock
    ensures Agrees(c, chain, NextFile(c, chain, f, a).state) <==>
      if a.day == f.state.utcDay
      then SpendBetween(chain, c.sponsor, a.day, Max(c.startBlock, a.head + 1), f.state.throughBlock + 1) == 0
      else SpendBetween(chain, c.sponsor, a.day, c.startBlock, a.head + 1) == 0
  {
    var through := f.state.throughBlock;
    NoSpend(chain, c.sponsor, a.day, FirstBlock(c, f), a.head + 1);
    if c.startBlock <= a.head + 1 {
      SpendSplits(chain, c.sponsor, a.day, c.startBlock, a.head + 1, through + 1);
    } else {
      NoSpend(chain, c.sponsor, a.day, c.startBlock, a.head + 1);
    }
  }

  /** And when the head then comes back, those blocks are counted twice. */
  lemma HeadRegressCountsTwice(c: Config, chain: Chain, f: File, back: Attempt, again: Attempt)
    requires Consistent(c, chain, f) && f.Stored?
    requires back.day == again.day == f.state.utcDay
    requires c.startBlock <= back.head + 1 <= f.state.throughBlock && again.head == f.state.throughBlock
    requires Succeeds(c, f, back) && Succeeds(c, NextFile(c, chain, f, back), again)
    ensures var g := NextFile(c, chain, NextFile(c, chain, f, back), again);
      && g.Stored? && g.state.throughBlock == f.state.throughBlock
      && g.state.dailySpend == f.state.dailySpend
           + SpendBetween(chain, c.sponsor, f.state.utcDay, back.head + 1, f.state.throughBlock + 1)
  {
    NoSpend(chain, c.sponsor, back.day, FirstBlock(c, f), back.head + 1);
  }

  lemma NoSpend(chain: Chain, sponsor: Address, day: nat, from: nat, end: nat)
    requires end <= from
    ensures SpendBetween(chain, sponsor, day, from, end) == 0
  {
  }

  // ---------------------------------------------------------------- at an input

  const SPONSOR: Address := 7
  const ONE_WEI: Entry := Full(0, SPONSOR, 1, Receipt(0, 0, 0, true))
  const SETUP: Config := Config(1, SPONSOR, 1, 500)

  /** A chain on which the sponsor spends one wei in every block of day 0. */
  function Spending(n: nat): Block { Block(0, [ONE_WEI]) }

  function Seen(head: nat): Attempt { Attempt(1, head, 0, Never) }

  /** The head goes from block 1 back to 0 and to 1 again: two wei are on file where one was spent. */
  lemma TwoWeiForOne()
    ensures var f := Final(SETUP, Spending, Missing, [Seen(1), Seen(0), Seen(1)]);
      && f.Stored? && f.state.throughBlock == 1 && f.state.dailySpend == 2
      && SpendBetween(Spending, SPONSOR, 0, 1, 2) == 1
  {
    var runs := [Seen(1), Seen(0), Seen(1)];
    assert runs[1..] == [Seen(0), Seen(1)] && runs[1..][1..] == [Seen(1)] && [Seen(1)][1..] == [];
    assert [ONE_WEI][..0] == [] && TxsSpend([ONE_WEI], SPONSOR) == 1;
    assert SpendBetween(Spending, SPONSOR, 0, 1, 2) == 1;
    var f1 := NextFile(SETUP, Spending, Missing, Seen(1));
    assert f1 == Stored(State(1, SPONSOR, 1, 0, 1));
    var f2 := NextFile(SETUP, Spending, f1, Seen(0));
    assert f2 == Stored(State(1, SPONSOR, 0, 0, 1));
    var f3 := NextFile(SETUP, Spending, f2, Seen(1));
    assert f3 == Stored(State(1, SPONSOR, 1, 0, 2));
    assert Final(SETUP, Spending, f3, []) == f3;
    assert Final(SETUP, Spending, f2, [Seen(1)]) == f3;
    assert Final(SETUP, Spending, f1, [Seen(0), Seen(1)]) == f3;
  }
}
