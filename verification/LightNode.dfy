/** The balance a light node shows between two verified anchors (apps/light-node/src/main.ts and ui.ts). */
module LightNode {
  import Base
  import Ledger
  import LedgerLaws
  import opened Decimal

  const EMISSION_RATE_NUM: nat := 1_000_000_000_000_000_000
  const EMISSION_RATE_DEN: nat := 3600
  const UBI: nat := 1_000_000_000_000_000_000
  const DECIMALS: nat := 4
  const DOT: CodeUnit := 46

  function Delta(elapsed: nat): nat { EMISSION_RATE_NUM * elapsed / EMISSION_RATE_DEN }

  /** Projects a balance anchored at `anchor` to `now`; a clock behind the anchor adds nothing. */
  function ProjectBalance(verified: nat, anchor: int, now: int): nat {
    verified + Delta(if now < anchor then 0 else now - anchor)
  }

  // ---------------------------------------------------------------- re-anchoring

  /** Projects through successive instants, re-anchoring at each. */
  function ProjectThrough(verified: nat, anchor: int, stops: seq<int>): nat
    decreases |stops|
  {
    if stops == [] then verified
    else ProjectThrough(ProjectBalance(verified, anchor, stops[0]), stops[0], stops[1..])
  }

  predicate Ascending(anchor: int, stops: seq<int>)
    decreases |stops|
  {
    stops != [] ==> anchor <= stops[0] && Ascending(stops[0], stops[1..])
  }

  function Last(anchor: int, stops: seq<int>): int
    decreases |stops|
  {
    if stops == [] then anchor else Last(stops[0], stops[1..])
  }

  function Remainder(elapsed: nat): nat { EMISSION_RATE_NUM * elapsed % EMISSION_RATE_DEN }

  /** The fractions of a base unit cut off at each instant, in 3600ths. */
  function CutOff(anchor: int, stops: seq<int>): nat
    requires Ascending(anchor, stops)
    decreases |stops|
  {
    if stops == [] then 0 else Remainder(stops[0] - anchor) + CutOff(stops[0], stops[1..])
  }

  lemma {:induction false} LastIsLater(anchor: int, stops: seq<int>)
    requires Ascending(anchor, stops)
    ensures anchor <= Last(anchor, stops)
    decreases |stops|
  {
    if stops != [] { LastIsLater(stops[0], stops[1..]); }
  }

  /** Projecting through any number of instants falls short of projecting once by exactly the whole base
      units among the fractions cut off on the way. */
  lemma {:induction false} ShortfallIsExact(verified: nat, anchor: int, stops: seq<int>)
    requires Ascending(anchor, stops)
    ensures ProjectThrough(verified, anchor, stops) + CutOff(anchor, stops) / EMISSION_RATE_DEN
         == ProjectBalance(verified, anchor, Last(anchor, stops))
    ensures EMISSION_RATE_NUM * (Last(anchor, stops) - anchor)
         == EMISSION_RATE_DEN * (ProjectThrough(verified, anchor, stops) - verified) + CutOff(anchor, stops)
    decreases |stops|
  {
    LastIsLater(anchor, stops);
    if stops != [] {
      var next := ProjectBalance(verified, anchor, stops[0]);
      ShortfallIsExact(next, stops[0], stops[1..]);
      LastIsLater(stops[0], stops[1..]);
    }
  }

  lemma {:induction false} CutOffIsSmall(anchor: int, stops: seq<int>)
    requires Ascending(anchor, stops)
    ensures CutOff(anchor, stops) <= 3599 * |stops|
    decreases |stops|
  {
    if stops != [] { CutOffIsSmall(stops[0], stops[1..]); }
  }

  /** Hence it never exceeds the single projection and misses at most one unit per intermediate instant. */
  lemma SegmentsLoseLittle(verified: nat, anchor: int, stops: seq<int>)
    requires Ascending(anchor, stops) && stops != []
    ensures var once := ProjectBalance(verified, anchor, Last(anchor, stops));
      once - (|stops| - 1) <= ProjectThrough(verified, anchor, stops) <= once
  {
    ShortfallIsExact(verified, anchor, stops);
    CutOffIsSmall(anchor, stops);
  }

  predicate OnNines(anchor: int, stops: seq<int>) {
    forall i :: 0 <= i < |stops| - 1 ==> (stops[i] - anchor) % 9 == 0
  }

  lemma NoRemainderOnNines(elapsed: nat)
    requires elapsed % 9 == 0
    ensures Remainder(elapsed) == 0
  {
    assert EMISSION_RATE_NUM * elapsed == EMISSION_RATE_DEN * (2_500_000_000_000_000 * (elapsed / 9));
  }

  lemma {:induction false} NinesCutLittle(anchor: int, stops: seq<int>)
    requires Ascending(anchor, stops) && OnNines(anchor, stops)
    ensures CutOff(anchor, stops) < EMISSION_RATE_DEN
    decreases |stops|
  {
    if |stops| > 1 {
      NoRemainderOnNines(stops[0] - anchor);
      forall i | 0 <= i < |stops| - 2 ensures (stops[1..][i] - stops[0]) % 9 == 0 {
        assert (stops[i + 1] - anchor) % 9 == 0;
      }
      NinesCutLittle(stops[0], stops[1..]);
    } else if |stops| == 1 {
      assert stops[1..] == [];
    }
  }

  /** Nothing is lost when every intermediate instant lies a multiple of nine seconds after the start. */
  lemma NinesAreExact(verified: nat, anchor: int, stops: seq<int>)
    requires Ascending(anchor, stops) && OnNines(anchor, stops)
    ensures ProjectThrough(verified, anchor, stops) == ProjectBalance(verified, anchor, Last(anchor, stops))
  {
    ShortfallIsExact(verified, anchor, stops);
    NinesCutLittle(anchor, stops);
  }

  /** Through a stop after one second, two seconds come out one base unit short. */
  lemma OneSecondStopLoses()
    ensures ProjectThrough(0, 0, [1, 2]) == ProjectBalance(0, 0, 2) - 1
  {
    assert [1, 2][1..] == [2] && [2][1..] == [];
    assert ProjectThrough(Delta(1), 1, [2]) == Delta(1) + Delta(1);
  }

  lemma ProjectionIsMonotone(verified: nat, anchor: int, t: int, now: int)
    requires t <= now
    ensures ProjectBalance(verified, anchor, t) <= ProjectBalance(verified, anchor, now)
  {
    var d, e := if t < anchor then 0 else t - anchor, if now < anchor then 0 else now - anchor;
    assert EMISSION_RATE_NUM * d <= EMISSION_RATE_NUM * e;
  }

  // ---------------------------------------------------------------- agreement with the chain

  /** Between anchors the node shows the chain's own balance of a verified account, or one base unit less, and
      leaves out what its incoming streams pay meanwhile. */
  lemma ProjectionTracksTheChain(l: Ledger.Ledger, a: Base.Address, t: Base.u64, now: Base.u64)
    requires var acct := Ledger.Lookup(l, a);
      acct.verified && acct.lastSettledAt <= t && acct.verifiedAt <= t <= now
    requires Ledger.Lookup(l, a).settled + Delta(now) + LedgerLaws.ExactInflow(l.streams, a, t) <= Base.U128_MAX
    requires Ledger.Lookup(l, a).settled + Delta(now) + LedgerLaws.ExactInflow(l.streams, a, now) <= Base.U128_MAX
    ensures var shown := ProjectBalance(Ledger.LiveBalance(l, a, t), t, now);
      var streamed := LedgerLaws.ExactInflow(l.streams, a, now) - LedgerLaws.ExactInflow(l.streams, a, t);
      Ledger.LiveBalance(l, a, now) - 1 <= shown + streamed <= Ledger.LiveBalance(l, a, now)
  {
    hide Ledger.LiveBalance;
    var acct := Ledger.Lookup(l, a);
    LedgerLaws.LiveBalanceIsExact(l, a, t);
    LedgerLaws.LiveBalanceIsExact(l, a, now);
    AccountProjection(acct, t, now);
  }

  lemma AccountProjection(a: Ledger.Account, t: Base.u64, now: Base.u64)
    requires a.verified && a.lastSettledAt <= t && a.verifiedAt <= t <= now
    requires a.settled + Delta(now) <= Base.U128_MAX
    ensures var chain := a.settled + Ledger.PendingEmission(a, now);
      chain - 1 <= ProjectBalance(a.settled + Ledger.PendingEmission(a, t), t, now) <= chain
    ensures a.settled + Ledger.PendingEmission(a, t)
      <= a.settled + Ledger.PendingEmission(a, now) <= a.settled + Delta(now)
  {
    var since := Base.Max(a.lastSettledAt, a.verifiedAt);
    ChainBalance(a, t, now);
    ChainBalance(a, now, now);
    ProjectionIsMonotone(0, since, t, now);
    ProjectionIsMonotone(0, 0, now - since, now);
    SegmentsLoseLittle(a.settled, since, [t, now]);
    assert [t, now][1..] == [now] && [now][1..] == [];
  }

  lemma ChainBalance(a: Ledger.Account, t: Base.u64, now: Base.u64)
    requires a.verified && a.lastSettledAt <= t <= now && a.verifiedAt <= t
    ensures Ledger.PendingEmission(a, t) == Delta(t - Base.Max(a.lastSettledAt, a.verifiedAt))
  {
  }

  // ---------------------------------------------------------------- display

  function Whole(n: nat): Text { Numeral(n / UBI) }

  function Fraction(n: nat): Text {
    var padded := PadStart(Numeral(n % UBI), 18);
    if |padded| < DECIMALS then padded else padded[..DECIMALS]
  }

  /** The displayed amount, without the locale's digit grouping. */
  function FormatUbi(n: nat): Text { Whole(n) + [DOT] + Fraction(n) }

  lemma Powers()
    ensures Pow10(4) == 10_000 && Pow10(14) == 100_000_000_000_000 && Pow10(18) == UBI
  {
    assert Pow10(4) == 10_000;
    assert Pow10(9) == 1_000_000_000;
    assert Pow10(14) == 100_000_000_000_000;
    assert Pow10(18) == UBI;
  }

  lemma PaddedFraction(n: nat)
    ensures var padded := PadStart(Numeral(n % UBI), 18);
      |padded| == 18 && AllDigits(padded) && Value(padded) == n % UBI
  {
    hide Numeral, Zeros, Pow10, Value;
    var s := Numeral(n % UBI);
    Powers();
    NumeralLength(n % UBI, 18);
    ValueOfNumeral(n % UBI);
    ValueOfZeros(18 - |s|);
    ValueSplit(Zeros(18 - |s|), s);
  }

  lemma FractionIsTheFloor(n: nat)
    ensures |Fraction(n)| == DECIMALS && AllDigits(Fraction(n))
    ensures Value(Fraction(n)) == n % UBI / 100_000_000_000_000
  {
    hide Numeral, PadStart, Pow10, Value;
    var padded := PadStart(Numeral(n % UBI), 18);
    PaddedFraction(n);
    var shown, hidden := padded[..DECIMALS], padded[DECIMALS..];
    assert padded == shown + hidden;
    ValueSplit(shown, hidden);
    ValueFits(hidden);
    Powers();
  }

  /** Whether `t` is digits with a dot before the last four. */
  predicate IsDisplay(t: Text) {
    && |t| > DECIMALS && t[|t| - DECIMALS - 1] == DOT
    && AllDigits(t[..|t| - DECIMALS - 1]) && AllDigits(t[|t| - DECIMALS..])
  }

  /** How many ten-thousandths of a UBI a displayed amount denotes. */
  function Denoted(t: Text): nat
    requires IsDisplay(t)
  {
    Value(t[..|t| - DECIMALS - 1] + t[|t| - DECIMALS..])
  }

  /** The digits shown denote the amount cut to ten-thousandths, with exactly four decimals. */
  lemma DisplayIsTheFloor(n: nat)
    ensures IsDisplay(FormatUbi(n))
    ensures Denoted(FormatUbi(n)) == n / 100_000_000_000_000
    ensures var v := Denoted(FormatUbi(n)); v * 100_000_000_000_000 <= n < (v + 1) * 100_000_000_000_000
  {
    hide Numeral, Fraction, Pow10, Value;
    FractionIsTheFloor(n);
    Powers();
    ValueOfNumeral(n / UBI);
    ValueSplit(Whole(n), Fraction(n));
    var t := FormatUbi(n);
    assert t[..|t| - DECIMALS - 1] == Whole(n) && t[|t| - DECIMALS..] == Fraction(n);
    assert n == UBI * (n / UBI) + n % UBI;
  }

  /** From one anchor, the displayed balance never goes down as time passes. */
  lemma DisplayNeverFalls(verified: nat, anchor: int, t: int, now: int)
    requires t <= now
    ensures var before, after := FormatUbi(ProjectBalance(verified, anchor, t)),
      FormatUbi(ProjectBalance(verified, anchor, now));
      IsDisplay(before) && IsDisplay(after) && Denoted(before) <= Denoted(after)
  {
    ProjectionIsMonotone(verified, anchor, t, now);
    DisplayIsTheFloor(ProjectBalance(verified, anchor, t));
    DisplayIsTheFloor(ProjectBalance(verified, anchor, now));
  }
}
