/** Counting over a sequence: how often its elements hold a given number, each by a count of its own. */
module Counting {

  function Total<T>(xs: seq<T>, f: (T, nat) -> nat, k: nat): nat {
    if xs == [] then 0 else f(xs[0], k) + Total(xs[1..], f, k)
  }

  lemma {:induction false} TotalAppend<T>(xs: seq<T>, x: T, f: (T, nat) -> nat, k: nat)
    ensures Total(xs + [x], f, k) == Total(xs, f, k) + f(x, k)
  {
    if xs == [] {
      assert xs + [x] == [x] && [x][1..] == [];
    } else {
      assert (xs + [x])[0] == xs[0] && (xs + [x])[1..] == xs[1..] + [x];
      TotalAppend(xs[1..], x, f, k);
    }
  }

  /** Replacing one element takes its own count away and puts the new one in. */
  lemma {:induction false} TotalUpdate<T>(xs: seq<T>, i: nat, x: T, f: (T, nat) -> nat, k: nat)
    requires i < |xs|
    ensures f(xs[i], k) <= Total(xs, f, k)
    ensures Total(xs[i := x], f, k) == Total(xs, f, k) - f(xs[i], k) + f(x, k)
  {
    if i == 0 {
      assert xs[0 := x][1..] == xs[1..];
    } else {
      assert xs[i := x][1..] == xs[1..][i - 1 := x];
      TotalUpdate(xs[1..], i - 1, x, f, k);
    }
  }

  lemma {:induction false} TotalZero<T>(xs: seq<T>, f: (T, nat) -> nat, k: nat)
    ensures Total(xs, f, k) == 0 <==> forall x :: x in xs ==> f(x, k) == 0
  {
    if xs != [] {
      TotalZero(xs[1..], f, k);
    }
  }
}
