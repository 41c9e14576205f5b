/** Splitting a sorted list into blocks greedily: when no other split needs fewer blocks. */
module GreedySplit {

  /** joins(a, k): element k may be added to a block that holds the elements a..k. */
  type Joins = (nat, nat) -> bool

  ghost predicate Feasible(joins: Joins, n: nat, a: nat, c: nat) {
    a < c <= n && forall k: nat :: a < k < c ==> joins(a, k)
  }

  /** A split of the elements a..n into feasible blocks that end at the given cuts. */
  ghost predicate IsSplit(joins: Joins, n: nat, a: nat, cuts: seq<nat>)
    decreases cuts
  {
    if cuts == [] then a == n
    else Feasible(joins, n, a, cuts[0]) && IsSplit(joins, n, cuts[0], cuts[1..])
  }

  /** How far the block that holds a..k grows. */
  function GrowTo(joins: Joins, n: nat, a: nat, k: nat): (b: nat)
    requires a < k <= n
    ensures k <= b <= n
    decreases n - k
  {
    if k < n && joins(a, k) then GrowTo(joins, n, a, k + 1) else k
  }

  /** The number of blocks that the greedy split makes of a..n. */
  function Blocks(joins: Joins, n: nat, a: nat): nat
    requires a <= n
    decreases n - a
  {
    if a == n then 0 else 1 + Blocks(joins, n, GrowTo(joins, n, a, a + 1))
  }

  lemma {:induction false} GrowsMaximally(joins: Joins, n: nat, a: nat, k: nat)
    requires Feasible(joins, n, a, k)
    ensures var b := GrowTo(joins, n, a, k); Feasible(joins, n, a, b) && (b < n ==> !joins(a, b))
    decreases n - k
  {
    if k < n && joins(a, k) { GrowsMaximally(joins, n, a, k + 1); }
  }

  function Cuts(joins: Joins, n: nat, a: nat): seq<nat>
    requires a <= n
    decreases n - a
  {
    if a == n then [] else [GrowTo(joins, n, a, a + 1)] + Cuts(joins, n, GrowTo(joins, n, a, a + 1))
  }

  lemma {:induction false} GreedyIsSplit(joins: Joins, n: nat, a: nat)
    requires a <= n
    ensures IsSplit(joins, n, a, Cuts(joins, n, a)) && |Cuts(joins, n, a)| == Blocks(joins, n, a)
    decreases n - a
  {
    if a < n {
      GrowsMaximally(joins, n, a, a + 1);
      GreedyIsSplit(joins, n, GrowTo(joins, n, a, a + 1));
    }
  }

  /** Where element t could not join the block of b, a feasible block that starts behind b and reaches
      beyond t is still feasible when it is cut down to start at t. */
  ghost predicate CutsCleanly(joins: Joins, n: nat) {
    forall b: nat, a: nat, t: nat, c: nat ::
      b < a < t < c && Feasible(joins, n, b, t) && !joins(b, t) && Feasible(joins, n, a, c) ==> Feasible(joins, n, t, c)
  }

  /** Index b is a good place to start a block: a feasible block that straddles b is still feasible when
      it is cut down to start at b. This is not so for every b, since what is cut away may have covered
      a hole. */
  ghost predicate GoodStart(joins: Joins, n: nat, b: nat) {
    forall a: nat, c: nat :: a < b < c && Feasible(joins, n, a, c) ==> Feasible(joins, n, b, c)
  }

  /** Every place where the greedy split opens a block is a good start. */
  lemma NextStartIsGood(joins: Joins, n: nat, b: nat)
    requires CutsCleanly(joins, n) && b < n && GoodStart(joins, n, b)
    ensures GoodStart(joins, n, GrowTo(joins, n, b, b + 1))
  {
    var t := GrowTo(joins, n, b, b + 1);
    GrowsMaximally(joins, n, b, b + 1);
    forall a: nat, c: nat | a < t < c && Feasible(joins, n, a, c)
      ensures Feasible(joins, n, t, c)
    {
      if a <= b {
        assert false; // t would have joined the block of b
      }
    }
  }

  lemma {:induction false} GreedyStaysAhead(joins: Joins, n: nat, a: nat, b: nat, cuts: seq<nat>)
    requires CutsCleanly(joins, n) && a <= b <= n && GoodStart(joins, n, b) && IsSplit(joins, n, a, cuts)
    ensures Blocks(joins, n, b) <= |cuts|
    decreases cuts
  {
    if b < n {
      var c := cuts[0];
      if c <= b {
        GreedyStaysAhead(joins, n, c, b, cuts[1..]);
      } else {
        var t := GrowTo(joins, n, b, b + 1);
        GrowsMaximally(joins, n, b, b + 1);
        assert Feasible(joins, n, b, c);
        assert c <= t;
        NextStartIsGood(joins, n, b);
        GreedyStaysAhead(joins, n, c, t, cuts[1..]);
      }
    }
  }

  /** So the greedy split needs the fewest blocks. */
  lemma GreedyIsFewest(joins: Joins, n: nat, cuts: seq<nat>)
    requires CutsCleanly(joins, n) && IsSplit(joins, n, 0, cuts)
    ensures Blocks(joins, n, 0) <= |cuts|
  {
    GreedyStaysAhead(joins, n, 0, 0, cuts);
  }
}
