/** Splitting a list of intervals into blocks of neighbours that one read each may serve: what the merge
    tests of the Modbus and the S7 planner have in common. */
module IntervalSplit {
  import GreedySplit

  /** The addresses from start up to, but not including, end. */
  datatype Interval = Interval(start: int, end: int)

  /** Limits on gaps and on sizes. The size that is tested is that from the start of the block to the end
      of the interval that is to join, or (`whole`) of the block that would result. */
  datatype Bounds = Bounds(maxGap: int, maxSize: int, whole: bool)

  ghost predicate Sorted(s: seq<Interval>) { forall i, j :: 0 <= i < j < |s| ==> s[i].start <= s[j].start }

  /** Where the intervals s[a..k] end. */
  ghost function MaxEnd(s: seq<Interval>, a: nat, k: nat): int
    requires a < k <= |s|
  {
    if k == a + 1 then s[a].end
    else if s[k - 1].end > MaxEnd(s, a, k - 1) then s[k - 1].end else MaxEnd(s, a, k - 1)
  }

  /** s[k] may join a block that holds s[a..k]. */
  ghost predicate Merges(b: Bounds, s: seq<Interval>, a: nat, k: nat)
    requires a < k < |s|
  {
    && s[k].start - MaxEnd(s, a, k) <= b.maxGap && s[k].end - s[a].start <= b.maxSize
    && (b.whole ==> MaxEnd(s, a, k) - s[a].start <= b.maxSize)
  }

  ghost function JoinsOf(b: Bounds, s: seq<Interval>): GreedySplit.Joins {
    (a: nat, k: nat) => a < k < |s| && Merges(b, s, a, k)
  }

  /** A block of neighbours that one read may serve. */
  ghost predicate Feasible(b: Bounds, s: seq<Interval>, a: nat, c: nat) {
    a < c <= |s| && forall k: nat :: a < k < c ==> Merges(b, s, a, k)
  }

  /** A split of s[a..] into feasible blocks that end at the given cuts. */
  ghost predicate IsSplit(b: Bounds, s: seq<Interval>, a: nat, cuts: seq<nat>) {
    GreedySplit.IsSplit(JoinsOf(b, s), |s|, a, cuts)
  }

  /** The number of blocks that merging greedily makes of s[a..]. */
  ghost function Blocks(b: Bounds, s: seq<Interval>, a: nat): nat
    requires a <= |s|
  {
    GreedySplit.Blocks(JoinsOf(b, s), |s|, a)
  }

  lemma FeasibleIff(b: Bounds, s: seq<Interval>, a: nat, c: nat)
    ensures GreedySplit.Feasible(JoinsOf(b, s), |s|, a, c) <==> Feasible(b, s, a, c)
  {
    var joins := JoinsOf(b, s);
    assert forall k: nat :: joins(a, k) <==> a < k < |s| && Merges(b, s, a, k);
  }

  lemma {:induction false} MaxEndBounds(s: seq<Interval>, a: nat, k: nat)
    requires a < k <= |s|
    ensures forall i :: a <= i < k ==> s[i].end <= MaxEnd(s, a, k)
    ensures exists i :: a <= i < k && s[i].end == MaxEnd(s, a, k)
  {
    if k == a + 1 {
      assert s[a].end == MaxEnd(s, a, k);
    } else {
      MaxEndBounds(s, a, k - 1);
    }
  }

  /** The intervals behind b up to t joined the block of b, and s[t] did not: they all end before s[t] does,
      so without them the block that straddles t covers what it covered. */
  lemma BlockCutsCleanly(bounds: Bounds, s: seq<Interval>, b: nat, a: nat, t: nat, c: nat)
    requires Sorted(s) && b < a < t < c <= |s|
    requires Feasible(bounds, s, b, t) && !Merges(bounds, s, b, t) && Feasible(bounds, s, a, c)
    ensures Feasible(bounds, s, t, c)
  {
    assert Merges(bounds, s, b, t - 1);
    MaxEndBounds(s, b, t);
    forall i: nat | a <= i < t ensures s[i].end < s[t].end {
      assert Merges(bounds, s, b, i) && Merges(bounds, s, a, t);
      MaxEndBounds(s, a, t);
    }
    forall k: nat | t < k < c ensures Merges(bounds, s, t, k) {
      assert Merges(bounds, s, a, k);
      MaxEndBounds(s, a, k);
      MaxEndBounds(s, t, k);
    }
  }

  lemma SplitsCutCleanly(bounds: Bounds, s: seq<Interval>)
    requires Sorted(s)
    ensures GreedySplit.CutsCleanly(JoinsOf(bounds, s), |s|)
  {
    var (joins, n) := (JoinsOf(bounds, s), |s|);
    forall b: nat, a: nat, t: nat, c: nat |
      b < a < t < c && GreedySplit.Feasible(joins, n, b, t) && !joins(b, t) && GreedySplit.Feasible(joins, n, a, c)
      ensures GreedySplit.Feasible(joins, n, t, c)
    {
      FeasibleIff(bounds, s, b, t);
      FeasibleIff(bounds, s, a, c);
      BlockCutsCleanly(bounds, s, b, a, t, c);
      FeasibleIff(bounds, s, t, c);
    }
  }

  /** So merging greedily needs the fewest blocks. */
  lemma GreedyIsFewest(b: Bounds, s: seq<Interval>, cuts: seq<nat>)
    requires Sorted(s) && IsSplit(b, s, 0, cuts)
    ensures Blocks(b, s, 0) <= |cuts|
  {
    SplitsCutCleanly(b, s);
    GreedySplit.GreedyIsFewest(JoinsOf(b, s), |s|, cuts);
  }
}
