/** Deterministic juror selection (crates/runtime/src/humanity.rs). */
module Jury {
  import opened Base

  function Least(s: set<Address>): (m: Address)
    requires s != {}
    ensures m in s && forall x :: x in s ==> m <= x
  {
    LeastExists(s);
    var m :| m in s && forall x :: x in s ==> m <= x;
    m
  }

  lemma {:induction false} DescendToLeast(s: set<Address>, y: Address) returns (m: Address)
    requires y in s
    ensures m in s && forall x :: x in s ==> m <= x
    decreases y
  {
    if x :| x in s && x < y {
      m := DescendToLeast(s, x);
    } else {
      m := y;
    }
  }

  lemma LeastExists(s: set<Address>)
    requires s != {}
    ensures exists m :: m in s && forall x :: x in s ==> m <= x
  {
    var y :| y in s;
    var m := DescendToLeast(s, y);
  }

  /** The members of a set in increasing order. */
  function Sorted(s: set<Address>): (r: seq<Address>)
    ensures forall x :: x in r <==> x in s
    ensures forall i, j :: 0 <= i < j < |r| ==> r[i] < r[j]
  {
    if s == {} then []
    else
      var m := Least(s);
      [m] + Sorted(s - {m})
  }

  ghost predicate Distinct(s: seq<Address>) { forall i, j :: 0 <= i < j < |s| ==> s[i] != s[j] }

  function Swap(s: seq<Address>, i: nat, j: nat): (r: seq<Address>)
    requires i < |s| && j < |s|
    ensures |r| == |s|
  {
    s[i := s[j]][j := s[i]]
  }

  lemma SwapPermutes(s: seq<Address>, i: nat, j: nat)
    requires i < |s| && j < |s|
    ensures multiset(Swap(s, i, j)) == multiset(s)
  {
  }

  /** The place, from `i` on in a pool of `n`, that a draw points to. */
  function Place(n: nat, i: nat, draw: nat): (p: nat)
    requires i < n
    ensures i <= p < n
    ensures draw < n - i ==> p == i + draw
  {
    i + draw % (n - i)
  }

  /** The partial Fisher-Yates shuffle: swaps position `i` with a drawn later one, up to `size`. */
  function Shuffle(pool: seq<Address>, draw: nat -> nat, i: nat, size: nat): (r: seq<Address>)
    requires i <= size <= |pool|
    ensures |r| == |pool|
    decreases size - i
  {
    if i == size then pool
    else Shuffle(Swap(pool, i, Place(|pool|, i, draw(i))), draw, i + 1, size)
  }

  lemma {:induction false} ShufflePermutes(pool: seq<Address>, draw: nat -> nat, i: nat, size: nat)
    requires i <= size <= |pool|
    ensures multiset(Shuffle(pool, draw, i, size)) == multiset(pool)
    decreases size - i
  {
    hide Swap, Place;
    if i < size {
      SwapPermutes(pool, i, Place(|pool|, i, draw(i)));
      ShufflePermutes(Swap(pool, i, Place(|pool|, i, draw(i))), draw, i + 1, size);
    }
  }

  function SelectJury(candidates: set<Address>, size: nat, draw: nat -> nat): seq<Address> {
    var pool := Sorted(candidates);
    if |pool| <= size then pool else Shuffle(pool, draw, 0, size)[..size]
  }

  lemma DistinctByCount(r: seq<Address>, s: seq<Address>)
    requires multiset(r) == multiset(s) && Distinct(s)
    ensures Distinct(r)
  {
    forall i, j | 0 <= i < j < |r| ensures r[i] != r[j] {
      if r[i] == r[j] {
        var x := r[i];
        assert r == r[..i] + [x] + r[i + 1..j] + [x] + r[j + 1..];
        assert multiset(r)[x] >= 2;
        OnceIfDistinct(s, x);
        assert false;
      }
    }
  }

  lemma {:induction false} OnceIfDistinct(s: seq<Address>, x: Address)
    requires Distinct(s)
    ensures multiset(s)[x] <= 1
  {
    if s != [] {
      assert s == [s[0]] + s[1..];
      OnceIfDistinct(s[1..], x);
      if s[0] == x { assert x !in s[1..]; assert multiset(s[1..])[x] == 0; }
    }
  }

  /** A jury has at most `size` members, all distinct, all candidates; a small pool serves whole. */
  lemma JuryIsFair(candidates: set<Address>, size: nat, draw: nat -> nat)
    ensures var jury := SelectJury(candidates, size, draw);
      && |jury| == Min(size, |candidates|)
      && Distinct(jury)
      && (forall x :: x in jury ==> x in candidates)
      && (|candidates| <= size ==> forall x :: x in candidates ==> x in jury)
  {
    var pool := Sorted(candidates);
    SortedLength(candidates);
    if |pool| > size {
      var r := Shuffle(pool, draw, 0, size);
      ShufflePermutes(pool, draw, 0, size);
      DistinctByCount(r, pool);
      forall x | x in r[..size] ensures x in candidates {
        assert x in multiset(r);
        assert x in multiset(pool);
      }
    }
  }

  lemma {:induction false} SortedLength(s: set<Address>)
    ensures |Sorted(s)| == |s|
  {
    if s != {} { SortedLength(s - {Least(s)}); }
  }

  // ---------------------------------------------------------------- every choice has its draws

  /** The PRNG that answers `ds`. */
  function Answers(ds: seq<nat>): nat -> nat { (i: nat) => if i < |ds| then ds[i] else 0 }

  /** Draws as a fair PRNG gives them: the one for place `i` is a number below what is left of a pool of `n`. */
  predicate InRange(ds: seq<nat>, n: nat, i: nat) {
    i <= |ds| <= n && forall j :: i <= j < |ds| ==> ds[j] < n - j
  }

  lemma {:induction false} ShuffleKeepsPrefix(pool: seq<Address>, draw: nat -> nat, i: nat, size: nat)
    requires i <= size <= |pool|
    ensures forall j :: 0 <= j < i ==> Shuffle(pool, draw, i, size)[j] == pool[j]
    decreases size - i
  {
    hide Place;
    if i < size { ShuffleKeepsPrefix(Swap(pool, i, Place(|pool|, i, draw(i))), draw, i + 1, size); }
  }

  lemma {:induction false} SameDraws(pool: seq<Address>, d: nat -> nat, e: nat -> nat, i: nat, size: nat)
    requires i <= size <= |pool| && forall j :: i <= j < size ==> d(j) == e(j)
    ensures Shuffle(pool, d, i, size) == Shuffle(pool, e, i, size)
    decreases size - i
  {
    hide Place, Swap;
    if i < size { SameDraws(Swap(pool, i, Place(|pool|, i, d(i))), d, e, i + 1, size); }
  }

  lemma SwapIsDistinct(pool: seq<Address>, i: nat, p: nat)
    requires Distinct(pool) && i <= p < |pool|
    ensures Distinct(Swap(pool, i, p)) && forall x :: x in Swap(pool, i, p) <==> x in pool
  {
    var r := Swap(pool, i, p);
    SwapPermutes(pool, i, p);
    DistinctByCount(r, pool);
    forall x ensures x in r <==> x in pool { assert x in multiset(r) <==> x in multiset(pool); }
  }

  lemma {:induction false} DrawsFor(pool: seq<Address>, jury: seq<Address>, i: nat) returns (ds: seq<nat>)
    requires Distinct(pool) && Distinct(jury) && i <= |jury| <= |pool|
    requires (forall x :: x in jury ==> x in pool) && forall j :: 0 <= j < i ==> pool[j] == jury[j]
    ensures |ds| == |jury| && InRange(ds, |pool|, i)
    ensures Shuffle(pool, Answers(ds), i, |jury|)[..|jury|] == jury
    decreases |jury| - i
  {
    hide Place;
    if i == |jury| {
      ds := seq(|jury|, j => 0);
    } else {
      assert jury[i] in pool;
      var p :| 0 <= p < |pool| && pool[p] == jury[i];
      assert p >= i;
      var next := Swap(pool, i, p);
      SwapIsDistinct(pool, i, p);
      var rest := DrawsFor(next, jury, i + 1);
      ds := rest[i := p - i];
      assert Place(|pool|, i, Answers(ds)(i)) == p;
      SameDraws(next, Answers(ds), Answers(rest), i + 1, |jury|);
    }
  }

  lemma {:induction false} OneSetOfDraws(pool: seq<Address>, ds: seq<nat>, es: seq<nat>, i: nat)
    requires Distinct(pool) && |ds| == |es| && InRange(ds, |pool|, i) && InRange(es, |pool|, i)
    requires Shuffle(pool, Answers(ds), i, |ds|)[..|ds|] == Shuffle(pool, Answers(es), i, |es|)[..|es|]
    ensures forall j :: i <= j < |ds| ==> ds[j] == es[j]
    decreases |ds| - i
  {
    if i < |ds| {
      hide Place;
      var size := |ds|;
      var p, q := i + ds[i], i + es[i];
      var d, e := Shuffle(pool, Answers(ds), i, size), Shuffle(pool, Answers(es), i, size);
      assert Place(|pool|, i, Answers(ds)(i)) == p && Place(|pool|, i, Answers(es)(i)) == q;
      ShuffleKeepsPrefix(Swap(pool, i, p), Answers(ds), i + 1, size);
      ShuffleKeepsPrefix(Swap(pool, i, q), Answers(es), i + 1, size);
      assert d[i] == pool[p] && e[i] == pool[q];
      assert d[..size][i] == d[i] && e[..size][i] == e[i];
      assert p == q;
      SwapIsDistinct(pool, i, p);
      OneSetOfDraws(Swap(pool, i, p), ds, es, i + 1);
    }
  }

  /** The draws, in range, give this jury. */
  predicate Draw(candidates: set<Address>, jury: seq<Address>, ds: seq<nat>) {
    |ds| == |jury| && InRange(ds, |candidates|, 0) && SelectJury(candidates, |jury|, Answers(ds)) == jury
  }

  /** Every ordered choice of fewer than all candidates is the jury of exactly one sequence of draws in range: a PRNG
      that draws evenly chooses evenly. */
  lemma EveryJuryHasOneDraw(candidates: set<Address>, jury: seq<Address>)
    requires Distinct(jury) && (forall x :: x in jury ==> x in candidates) && |jury| < |candidates|
    ensures exists ds :: Draw(candidates, jury, ds)
    ensures forall ds, es :: Draw(candidates, jury, ds) && Draw(candidates, jury, es) ==> ds == es
  {
    hide Shuffle;
    var pool := Sorted(candidates);
    SortedLength(candidates);
    var draws := DrawsFor(pool, jury, 0);
    assert Draw(candidates, jury, draws);
    forall ds, es | Draw(candidates, jury, ds) && Draw(candidates, jury, es) ensures ds == es {
      OneSetOfDraws(pool, ds, es, 0);
    }
  }
}
