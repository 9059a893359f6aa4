/** The quorum tally shared by juror verdicts and contract effects (crates/runtime/src/humanity.rs). */
module Quorum {
  import opened Base

  datatype Outcome<+T> = Waiting | Committed(item: T) | NoQuorum

  datatype Group<T, K> = Group(key: K, count: nat, exemplar: T)

  /** How many of `items` fall in the group of `k`. */
  function Count<T, K(==)>(items: seq<T>, key: T -> K, k: K): nat {
    if items == [] then 0
    else Count(items[..|items| - 1], key, k) + if key(items[|items| - 1]) == k then 1 else 0
  }

  /** The lowest index whose element satisfies `p`, or the length. */
  function FirstWhere<T>(s: seq<T>, p: T -> bool): (i: nat)
    ensures i <= |s|
    ensures i < |s| ==> p(s[i])
    ensures forall j :: 0 <= j < i ==> !p(s[j])
  {
    if s == [] then 0
    else
      var i := FirstWhere(s[..|s| - 1], p);
      if i < |s| - 1 || p(s[|s| - 1]) then i else |s|
  }

  predicate AtQuorum<T, K(==)>(items: seq<T>, key: T -> K, quorum: nat, x: T) {
    Count(items, key, key(x)) >= quorum
  }

  /** No group can reach `quorum` once the jurors who have not spoken have done so. */
  predicate Hopeless<T, K(==)>(items: seq<T>, key: T -> K, jurySize: nat, quorum: nat) {
    && SatSub(jurySize, |items|) < quorum
    && forall i :: 0 <= i < |items| ==> Count(items, key, key(items[i])) + SatSub(jurySize, |items|) < quorum
  }

  /** The item a tally decides by. */
  function Deciding<T, K(==)>(items: seq<T>, key: T -> K, quorum: nat): (i: nat)
    ensures i <= |items|
    ensures i < |items| ==> AtQuorum(items, key, quorum, items[i])
    ensures forall j :: 0 <= j < i ==> !AtQuorum(items, key, quorum, items[j])
  {
    FirstWhere(items, x => AtQuorum(items, key, quorum, x))
  }

  /** What a tally answers, said without groups: the first item whose group has a quorum decides. */
  function Tally<T, K(==)>(items: seq<T>, key: T -> K, committable: T -> bool, jurySize: nat, quorum: nat): Outcome<T> {
    var i := Deciding(items, key, quorum);
    if i < |items| then if committable(items[i]) then Committed(items[i]) else NoQuorum
    else if Hopeless(items, key, jurySize, quorum) then NoQuorum
    else Waiting
  }

  // ---------------------------------------------------------------- the loop

  /** The items that opened a group, in order. */
  ghost function Openers<T, K>(items: seq<T>, key: T -> K): seq<T> {
    if items == [] then []
    else
      var rest, x := items[..|items| - 1], items[|items| - 1];
      if Count(rest, key, key(x)) == 0 then Openers(rest, key) + [x] else Openers(rest, key)
  }

  ghost predicate Grouped<T, K>(items: seq<T>, key: T -> K, groups: seq<Group<T, K>>) {
    var openers := Openers(items, key);
    && |groups| == |openers|
    && forall g :: 0 <= g < |groups| ==>
      groups[g] == Group(key(openers[g]), Count(items, key, key(openers[g])), openers[g])
  }

  lemma CountAppend<T, K>(items: seq<T>, x: T, key: T -> K, k: K)
    ensures Count(items + [x], key, k) == Count(items, key, k) + if key(x) == k then 1 else 0
  {
    assert (items + [x])[..|items|] == items;
  }

  lemma {:induction false} CountAbsent<T, K>(items: seq<T>, key: T -> K, k: K)
    ensures Count(items, key, k) == 0 <==> forall i :: 0 <= i < |items| ==> key(items[i]) != k
    ensures Count(items, key, k) <= |items|
  {
    if items != [] {
      CountAbsent(items[..|items| - 1], key, k);
    }
  }

  lemma {:induction false} OpenersAreComplete<T, K>(items: seq<T>, key: T -> K, k: K)
    ensures Count(items, key, k) > 0 <==> exists g :: 0 <= g < |Openers(items, key)| && key(Openers(items, key)[g]) == k
  {
    if items != [] {
      var rest, x := items[..|items| - 1], items[|items| - 1];
      OpenersAreComplete(rest, key, k);
      var openers := Openers(items, key);
      if Count(rest, key, k) > 0 {
        var g :| 0 <= g < |Openers(rest, key)| && key(Openers(rest, key)[g]) == k;
        assert key(openers[g]) == k;
      } else if key(x) == k {
        assert key(openers[|openers| - 1]) == k;
      }
    }
  }

  lemma {:induction false} OpenersAreDistinct<T, K>(items: seq<T>, key: T -> K)
    ensures forall g, h :: 0 <= g < h < |Openers(items, key)| ==>
      key(Openers(items, key)[g]) != key(Openers(items, key)[h])
  {
    if items != [] {
      var rest, x := items[..|items| - 1], items[|items| - 1];
      OpenersAreDistinct(rest, key);
      OpenersAreComplete(rest, key, key(x));
      var before, openers := Openers(rest, key), Openers(items, key);
      forall g, h | 0 <= g < h < |openers| ensures key(openers[g]) != key(openers[h]) {
        assert openers[g] == before[g];
        if h == |before| { assert openers[h] == x; } else { assert openers[h] == before[h]; }
      }
    }
  }

  method FindGroup<T, K(==)>(groups: seq<Group<T, K>>, k: K) returns (g: nat)
    ensures g <= |groups|
    ensures g < |groups| ==> groups[g].key == k
    ensures forall h :: 0 <= h < g ==> groups[h].key != k
  {
    g := 0;
    while g < |groups| && groups[g].key != k
      invariant g <= |groups|
      invariant forall h :: 0 <= h < g ==> groups[h].key != k
    {
      g := g + 1;
    }
  }

  method GroupItems<T, K(==)>(items: seq<T>, key: T -> K) returns (groups: seq<Group<T, K>>)
    ensures Grouped(items, key, groups)
  {
    groups := [];
    for n := 0 to |items|
      invariant Grouped(items[..n], key, groups)
    {
      var k := key(items[n]);
      var g := FindGroup(groups, k);
      ghost var seen := items[..n];
      assert items[..n + 1] == seen + [items[n]];
      assert items[..n + 1][..n] == seen;
      OpenersAreComplete(seen, key, k);
      OpenersAreDistinct(seen, key);
      if g < |groups| {
        groups := groups[g := groups[g].(count := groups[g].count + 1)];
      } else {
        groups := groups + [Group(k, 1, items[n])];
      }
      forall h | 0 <= h < |groups| { CountAppend(seen, items[n], key, groups[h].key); }
    }
    assert items[..|items|] == items;
  }

  method QuorumTally<T, K(==)>(items: seq<T>, key: T -> K, committable: T -> bool, jurySize: nat, quorum: nat)
    returns (r: Outcome<T>)
    ensures r == Tally(items, key, committable, jurySize, quorum)
  {
    var groups := GroupItems(items, key);
    var g := 0;
    var best := 0;
    while g < |groups| && groups[g].count < quorum
      invariant g <= |groups|
      invariant forall h :: 0 <= h < g ==> groups[h].count < quorum && groups[h].count <= best
      invariant best == 0 || exists h :: 0 <= h < g && groups[h].count == best
    {
      if groups[g].count > best { best := groups[g].count; }
      g := g + 1;
    }
    ghost var p := x => AtQuorum(items, key, quorum, x);
    FirstOpenerIsFirst(items, items, key, quorum);
    if g < |groups| {
      assert g == FirstWhere(Openers(items, key), p);
      r := if committable(groups[g].exemplar) then Committed(groups[g].exemplar) else NoQuorum;
    } else {
      BestDecides(items, key, groups, best, jurySize, quorum);
      r := if best + SatSub(jurySize, |items|) < quorum then NoQuorum else Waiting;
    }
  }

  /** Scanning the groups in order of appearance and scanning the items find the same item first. */
  lemma {:induction false} FirstOpenerIsFirst<T, K>(items: seq<T>, all: seq<T>, key: T -> K, quorum: nat)
    ensures var p := x => AtQuorum(all, key, quorum, x);
      var g, i := FirstWhere(Openers(items, key), p), FirstWhere(items, p);
      && (g == |Openers(items, key)| <==> i == |items|)
      && (i < |items| ==> Openers(items, key)[g] == items[i])
  {
    if items != [] {
      var rest, x := items[..|items| - 1], items[|items| - 1];
      FirstOpenerIsFirst(rest, all, key, quorum);
      CountAbsent(rest, key, key(x));
      if Count(rest, key, key(x)) == 0 {
        assert Openers(items, key)[..|Openers(rest, key)|] == Openers(rest, key);
      } else {
        var j :| 0 <= j < |rest| && key(rest[j]) == key(x);
      }
    }
  }

  lemma BestDecides<T, K>(
    items: seq<T>, key: T -> K, groups: seq<Group<T, K>>, best: nat, jurySize: nat, quorum: nat)
    requires Grouped(items, key, groups)
    requires forall h :: 0 <= h < |groups| ==> groups[h].count <= best
    requires best == 0 || exists h :: 0 <= h < |groups| && groups[h].count == best
    ensures Hopeless(items, key, jurySize, quorum) <==> best + SatSub(jurySize, |items|) < quorum
  {
    forall i | 0 <= i < |items| ensures Count(items, key, key(items[i])) <= best
    {
      CountAbsent(items, key, key(items[i]));
      OpenersAreComplete(items, key, key(items[i]));
      var h :| 0 <= h < |groups| && key(Openers(items, key)[h]) == key(items[i]);
    }
    if best > 0 {
      var h :| 0 <= h < |groups| && groups[h].count == best;
      CountAbsent(items, key, groups[h].key);
      var i :| 0 <= i < |items| && key(items[i]) == groups[h].key;
    }
  }

  // ---------------------------------------------------------------- laws

  lemma {:induction false} TwoGroupsFit<T, K>(items: seq<T>, key: T -> K, k: K, m: K)
    requires k != m
    ensures Count(items, key, k) + Count(items, key, m) <= |items|
  {
    if items != [] {
      TwoGroupsFit(items[..|items| - 1], key, k, m);
    }
  }

  lemma {:induction false} CountSplit<T, K>(a: seq<T>, b: seq<T>, key: T -> K, k: K)
    ensures Count(a + b, key, k) == Count(a, key, k) + Count(b, key, k)
  {
    if b == [] {
      assert a + b == a;
    } else {
      assert (a + b)[..|a + b| - 1] == a + b[..|b| - 1];
      CountSplit(a, b[..|b| - 1], key, k);
    }
  }

  lemma {:induction false} CountIsOrderFree<T, K>(items: seq<T>, other: seq<T>, key: T -> K, k: K)
    requires multiset(items) == multiset(other)
    ensures |items| == |other| && Count(items, key, k) == Count(other, key, k)
    decreases |items|
  {
    assert |multiset(items)| == |items| && |multiset(other)| == |other|;
    if items != [] {
      var last := |items| - 1;
      var x := items[last];
      assert x in multiset(other);
      var j :| 0 <= j < |other| && other[j] == x;
      var before, after := other[..j], other[j + 1..];
      assert other == before + [x] + after;
      assert items == items[..last] + [x];
      assert multiset(items) == multiset(items[..last]) + multiset{x};
      assert multiset(other) == multiset(before) + multiset{x} + multiset(after);
      assert multiset(before + after) == multiset(before) + multiset(after);
      assert multiset(items[..last]) == multiset(items) - multiset{x};
      CountIsOrderFree(items[..last], before + after, key, k);
      CountSplit(before + [x], after, key, k);
      CountAppend(before, x, key, k);
      CountSplit(before, after, key, k);
    }
  }

  /** Same kind of answer, and the same group when committed. */
  predicate SameAnswer<T, K(==)>(key: T -> K, r: Outcome<T>, q: Outcome<T>) {
    match r
    case Waiting => q.Waiting?
    case NoQuorum => q.NoQuorum?
    case Committed(x) => q.Committed? && key(q.item) == key(x)
  }

  ghost predicate CommitsByKey<T(!new), K>(key: T -> K, committable: T -> bool) {
    forall x, y :: key(x) == key(y) ==> committable(x) == committable(y)
  }

  /** While fewer than two quorums have spoken, two items at quorum are in the same group. */
  lemma QuorumIsUnique<T, K>(items: seq<T>, key: T -> K, quorum: nat, x: T, y: T)
    requires |items| < 2 * quorum && AtQuorum(items, key, quorum, x) && AtQuorum(items, key, quorum, y)
    ensures key(x) == key(y)
  {
    if key(x) != key(y) {
      TwoGroupsFit(items, key, key(x), key(y));
    }
  }

  ghost predicate OneQuorum<T, K>(items: seq<T>, key: T -> K, quorum: nat) {
    forall i, j ::
      (&& 0 <= i < |items| && 0 <= j < |items|
       && AtQuorum(items, key, quorum, items[i]) && AtQuorum(items, key, quorum, items[j]))
      ==> key(items[i]) == key(items[j])
  }

  ghost predicate NoneCommits<T, K>(items: seq<T>, key: T -> K, committable: T -> bool, quorum: nat) {
    forall i :: 0 <= i < |items| && AtQuorum(items, key, quorum, items[i]) ==> !committable(items[i])
  }

  /** Fewer than two quorums of items, as in every jury here, leave one group at quorum at most. */
  lemma FewItemsOneQuorum<T, K>(items: seq<T>, key: T -> K, quorum: nat)
    requires |items| < 2 * quorum
    ensures OneQuorum(items, key, quorum)
  {
    forall i, j | 0 <= i < |items| && 0 <= j < |items| && AtQuorum(items, key, quorum, items[i])
      && AtQuorum(items, key, quorum, items[j]) ensures key(items[i]) == key(items[j])
    {
      QuorumIsUnique(items, key, quorum, items[i], items[j]);
    }
  }

  ghost predicate SameCounts<T(!new), K(!new)>(items: seq<T>, other: seq<T>, key: T -> K) {
    |items| == |other| && forall k: K :: Count(items, key, k) == Count(other, key, k)
  }

  lemma SameHopeless<T(!new), K(!new)>(items: seq<T>, other: seq<T>, key: T -> K, jurySize: nat, quorum: nat)
    requires SameCounts(items, other, key) && Hopeless(items, key, jurySize, quorum)
    ensures Hopeless(other, key, jurySize, quorum)
  {
    forall j | 0 <= j < |other|
      ensures Count(other, key, key(other[j])) + SatSub(jurySize, |other|) < quorum
    {
      CountAbsent(items, key, key(other[j]));
      CountAbsent(other, key, key(other[j]));
    }
  }

  lemma QuorumCarriesOver<T(!new), K(!new)>(
    items: seq<T>, other: seq<T>, key: T -> K, quorum: nat, i: nat) returns (j: nat)
    requires SameCounts(items, other, key) && i < |items| && AtQuorum(items, key, quorum, items[i])
    ensures j < |other| && key(other[j]) == key(items[i]) && AtQuorum(other, key, quorum, other[j])
  {
    CountAbsent(items, key, key(items[i]));
    CountAbsent(other, key, key(items[i]));
    j :| 0 <= j < |other| && key(other[j]) == key(items[i]);
  }

  lemma SameTally<T(!new), K(!new)>(
    items: seq<T>, other: seq<T>, key: T -> K, committable: T -> bool, jurySize: nat, quorum: nat)
    requires multiset(items) == multiset(other) && CommitsByKey(key, committable)
    requires OneQuorum(items, key, quorum) || NoneCommits(items, key, committable, quorum)
    ensures SameAnswer(key, Tally(items, key, committable, jurySize, quorum),
                            Tally(other, key, committable, jurySize, quorum))
  {
    hide Hopeless, AtQuorum;
    assert SameCounts(items, other, key) && SameCounts(other, items, key) by {
      assert |multiset(items)| == |items| && |multiset(other)| == |other|;
      forall k: K ensures Count(items, key, k) == Count(other, key, k) {
        CountIsOrderFree(items, other, key, k);
      }
    }
    var i, j := Deciding(items, key, quorum), Deciding(other, key, quorum);
    if i < |items| {
      var n := QuorumCarriesOver(items, other, key, quorum, i);
      assert j < |other|;
    }
    if j < |other| {
      var m := QuorumCarriesOver(other, items, key, quorum, j);
      assert AtQuorum(items, key, quorum, items[m]) && key(items[m]) == key(other[j]);
    }
    if Hopeless(items, key, jurySize, quorum) { SameHopeless(items, other, key, jurySize, quorum); }
    if Hopeless(other, key, jurySize, quorum) { SameHopeless(other, items, key, jurySize, quorum); }
  }

  /** The items with the one at `m` moved to the front. */
  function Front<T>(items: seq<T>, m: nat): seq<T>
    requires m < |items|
  {
    [items[m]] + items[..m] + items[m + 1..]
  }

  lemma FrontPermutes<T>(items: seq<T>, m: nat)
    requires m < |items|
    ensures multiset(Front(items, m)) == multiset(items)
  {
    assert items == items[..m] + [items[m]] + items[m + 1..];
  }

  lemma FrontDecides<T(!new), K>(
    items: seq<T>, m: nat, key: T -> K, committable: T -> bool, jurySize: nat, quorum: nat)
    requires m < |items| && AtQuorum(items, key, quorum, items[m])
    ensures Tally(Front(items, m), key, committable, jurySize, quorum)
         == if committable(items[m]) then Committed(items[m]) else NoQuorum
  {
    var front := Front(items, m);
    FrontPermutes(items, m);
    CountIsOrderFree(items, front, key, key(items[m]));
    assert front[0] == items[m] && AtQuorum(front, key, quorum, front[0]);
  }

  /** The tally gives one answer for every order the items could come in, if and only if only one group is at quorum
      or none that is can be committed; otherwise the group opened first wins. */
  lemma TallyIsOrderFree<T(!new), K(!new)>(
    items: seq<T>, key: T -> K, committable: T -> bool, jurySize: nat, quorum: nat)
    requires CommitsByKey(key, committable)
    ensures (forall other: seq<T> :: multiset(other) == multiset(items) ==>
               SameAnswer(key, Tally(items, key, committable, jurySize, quorum),
                               Tally(other, key, committable, jurySize, quorum)))
      <==> (OneQuorum(items, key, quorum) || NoneCommits(items, key, committable, quorum))
  {
    if OneQuorum(items, key, quorum) || NoneCommits(items, key, committable, quorum) {
      forall other: seq<T> | multiset(other) == multiset(items)
        ensures SameAnswer(key, Tally(items, key, committable, jurySize, quorum),
                                Tally(other, key, committable, jurySize, quorum))
      {
        SameTally(items, other, key, committable, jurySize, quorum);
      }
    } else {
      var m :| 0 <= m < |items| && AtQuorum(items, key, quorum, items[m]) && committable(items[m]);
      var n := OtherGroup(items, key, quorum, m);
      FrontPermutes(items, m);
      FrontPermutes(items, n);
      FrontDecides(items, m, key, committable, jurySize, quorum);
      FrontDecides(items, n, key, committable, jurySize, quorum);
      assert !(SameAnswer(key, Tally(items, key, committable, jurySize, quorum),
                               Tally(Front(items, m), key, committable, jurySize, quorum))
               && SameAnswer(key, Tally(items, key, committable, jurySize, quorum),
                                  Tally(Front(items, n), key, committable, jurySize, quorum)));
    }
  }

  lemma OtherGroup<T, K>(items: seq<T>, key: T -> K, quorum: nat, m: nat) returns (n: nat)
    requires !OneQuorum(items, key, quorum) && m < |items|
    ensures n < |items| && AtQuorum(items, key, quorum, items[n]) && key(items[n]) != key(items[m])
  {
    var i, j :| 0 <= i < |items| && 0 <= j < |items| && AtQuorum(items, key, quorum, items[i])
      && AtQuorum(items, key, quorum, items[j]) && key(items[i]) != key(items[j]);
    n := if key(items[i]) == key(items[m]) then j else i;
  }

  lemma StaysCommitted<T(!new), K>(
    items: seq<T>, more: seq<T>, key: T -> K, committable: T -> bool, jurySize: nat, quorum: nat)
    requires Tally(items, key, committable, jurySize, quorum).Committed?
    requires forall i :: 0 <= i < Deciding(items, key, quorum) ==> Count(items, key, key(items[i])) + |more| < quorum
    ensures Tally(items + more, key, committable, jurySize, quorum) == Tally(items, key, committable, jurySize, quorum)
  {
    var all := items + more;
    var i, j := Deciding(items, key, quorum), Deciding(all, key, quorum);
    CountSplit(items, more, key, key(items[i]));
    assert all[i] == items[i] && AtQuorum(all, key, quorum, all[i]);
    assert j <= i;
    if j < i {
      CountSplit(items, more, key, key(items[j]));
      CountAbsent(more, key, key(items[j]));
    }
  }

  lemma OvertakenBy<T(!new), K>(
    items: seq<T>, left: nat, key: T -> K, committable: T -> bool, jurySize: nat, quorum: nat, i: nat)
    requires Tally(items, key, committable, jurySize, quorum).Committed?
    requires i < Deciding(items, key, quorum) && Count(items, key, key(items[i])) + left >= quorum
    ensures !SameAnswer(key, Tally(items, key, committable, jurySize, quorum),
                             Tally(items + seq(left, _ => items[i]), key, committable, jurySize, quorum))
  {
    var more := seq(left, _ => items[i]);
    var all := items + more;
    CountCopies(more, items[i], key);
    CountSplit(items, more, key, key(items[i]));
    assert all[i] == items[i] && AtQuorum(all, key, quorum, all[i]);
    var j := Deciding(all, key, quorum);
    assert j <= i && all[j] == items[j];
    CountSplit(items, more, key, key(items[j]));
    if key(items[j]) != key(items[i]) { CountAbsent(more, key, key(items[j])); }
    assert AtQuorum(all, key, quorum, all[j]) && !AtQuorum(items, key, quorum, items[j]);
    assert key(items[j]) == key(items[i]);
  }

  /** A commitment is final - whatever `left` more jurors say, the same group stays committed - if and only if no
      group opened before the committed one can still reach quorum. */
  lemma CommitmentIsFinal<T(!new), K>(
    items: seq<T>, left: nat, key: T -> K, committable: T -> bool, jurySize: nat, quorum: nat)
    requires Tally(items, key, committable, jurySize, quorum).Committed?
    ensures (forall more: seq<T> :: |more| <= left ==>
               SameAnswer(key, Tally(items, key, committable, jurySize, quorum),
                               Tally(items + more, key, committable, jurySize, quorum)))
      <==> forall i :: 0 <= i < Deciding(items, key, quorum) ==> Count(items, key, key(items[i])) + left < quorum
  {
    if forall i :: 0 <= i < Deciding(items, key, quorum) ==> Count(items, key, key(items[i])) + left < quorum {
      forall more: seq<T> | |more| <= left
        ensures SameAnswer(key, Tally(items, key, committable, jurySize, quorum),
                                Tally(items + more, key, committable, jurySize, quorum))
      {
        StaysCommitted(items, more, key, committable, jurySize, quorum);
      }
    } else {
      var i :| 0 <= i < Deciding(items, key, quorum) && Count(items, key, key(items[i])) + left >= quorum;
      OvertakenBy(items, left, key, committable, jurySize, quorum, i);
    }
  }

  /** "No quorum" is announced exactly when no completion of the vote could reach one: the tally neither
      gives up early nor waits in vain. */
  lemma NoQuorumIsExact<T(!new), K>(items: seq<T>, key: T -> K, jurySize: nat, quorum: nat, any: T)
    requires forall x :: !AtQuorum(items, key, quorum, x)
    ensures Hopeless(items, key, jurySize, quorum) <==>
      forall more: seq<T>, x :: |more| <= SatSub(jurySize, |items|) ==> !AtQuorum(items + more, key, quorum, x)
  {
    var unused := SatSub(jurySize, |items|);
    if Hopeless(items, key, jurySize, quorum) {
      forall more: seq<T>, x | |more| <= unused ensures !AtQuorum(items + more, key, quorum, x) {
        CountSplit(items, more, key, key(x));
        CountAbsent(more, key, key(x));
        CountAbsent(items, key, key(x));
      }
    } else {
      var x := any;
      if unused < quorum {
        var i :| 0 <= i < |items| && Count(items, key, key(items[i])) + unused >= quorum;
        x := items[i];
      }
      var more := seq(unused, _ => x);
      CountCopies(more, x, key);
      CountSplit(items, more, key, key(x));
      assert AtQuorum(items + more, key, quorum, x);
    }
  }

  lemma {:induction false} CountCopies<T, K>(copies: seq<T>, x: T, key: T -> K)
    requires forall i :: 0 <= i < |copies| ==> copies[i] == x
    ensures Count(copies, key, key(x)) == |copies|
  {
    if copies != [] {
      CountCopies(copies[..|copies| - 1], x, key);
    }
  }
}
