/** The in-place byte reordering of conversion.go. */
module ByteOrdering {
  import opened ModbusTypes

  /** The position that position `k` of an n-byte value takes its byte from. */
  function Source(order: ByteOrder, n: nat, k: nat): (p: nat)
    requires k < n
    ensures p < n
  {
    match order
    case LittleEndian => n - 1 - k
    case MidBigEndian => if k >= 2 then 2 + Source(order, n - 2, k - 2) else if n >= 2 then 1 - k else k
    case MidLittleEndian =>
      if k >= 4 then 4 + Source(order, n - 4, k - 4) else if n < 4 then k else if k < 2 then k + 2 else k - 2
    case _ => k
  }

  function Reordered(data: seq<Byte>, order: ByteOrder): (r: seq<Byte>)
    ensures |r| == |data|
  {
    seq(|data|, k requires 0 <= k < |data| => data[Source(order, |data|, k)])
  }

  /** The order names, read off a four-byte value ABCD. */
  lemma OrderNames(a: Byte, b: Byte, c: Byte, d: Byte)
    ensures Reordered([a, b, c, d], BigEndian) == [a, b, c, d]
    ensures Reordered([a, b, c, d], LittleEndian) == [d, c, b, a]
    ensures Reordered([a, b, c, d], MidBigEndian) == [b, a, d, c]
    ensures Reordered([a, b, c, d], MidLittleEndian) == [c, d, a, b]
  {
    assert Source(LittleEndian, 4, 0) == 3 && Source(MidBigEndian, 4, 0) == 1 && Source(MidLittleEndian, 4, 0) == 2;
    assert Source(LittleEndian, 4, 1) == 2 && Source(MidBigEndian, 4, 1) == 0 && Source(MidLittleEndian, 4, 1) == 3;
    assert Source(LittleEndian, 4, 2) == 1 && Source(MidBigEndian, 4, 2) == 3 && Source(MidLittleEndian, 4, 2) == 0;
    assert Source(LittleEndian, 4, 3) == 0 && Source(MidBigEndian, 4, 3) == 2 && Source(MidLittleEndian, 4, 3) == 1;
  }

  lemma {:induction false} SourceInPairs(n: nat, k: nat)
    requires k < n
    ensures Source(MidBigEndian, n, k) == if k % 2 == 1 then k - 1 else if k + 1 < n then k + 1 else k
  {
    if k >= 2 { SourceInPairs(n - 2, k - 2); }
  }

  lemma {:induction false} SourceInFours(n: nat, k: nat)
    requires k < n
    ensures Source(MidLittleEndian, n, k) == if k - k % 4 + 4 <= n then k - k % 4 + (k % 4 + 2) % 4 else k
  {
    if k >= 4 {
      SourceInFours(n - 4, k - 4);
      assert (k - 4) % 4 == k % 4;
    } else {
      assert k % 4 == k;
    }
  }

  /** The four orders at every length: all bytes reversed; the bytes of each pair swapped, and an odd last byte
      kept; the halves of each four bytes swapped, and an incomplete group kept; and nothing moved. */
  lemma OrdersMean(data: seq<Byte>, k: nat)
    requires k < |data|
    ensures Reordered(data, LittleEndian)[k] == data[|data| - 1 - k]
    ensures Reordered(data, MidBigEndian)[k] ==
            data[if k % 2 == 1 then k - 1 else if k + 1 < |data| then k + 1 else k]
    ensures Reordered(data, MidLittleEndian)[k] ==
            if k - k % 4 + 4 <= |data| then data[k - k % 4 + (k % 4 + 2) % 4] else data[k]
    ensures Reordered(data, BigEndian) == data
    ensures forall name :: Reordered(data, OtherOrder(name)) == data
  {
    SourceInPairs(|data|, k);
    SourceInFours(|data|, k);
  }

  lemma {:induction false} SourceInvolution(order: ByteOrder, n: nat, k: nat)
    requires k < n
    ensures Source(order, n, Source(order, n, k)) == k
  {
    if order.MidBigEndian? && k >= 2 {
      SourceInvolution(order, n - 2, k - 2);
    } else if order.MidLittleEndian? && k >= 4 {
      SourceInvolution(order, n - 4, k - 4);
    }
  }

  lemma FullGroups(n: nat, k: nat)
    requires k < n
    ensures k - k % 4 + 4 <= n <==> k < n - n % 4
  {
  }

  /** Which bytes move at all, when the length is even. */
  lemma SourceMoves(order: ByteOrder, n: nat, k: nat)
    requires k < n && n % 2 == 0
    ensures order.LittleEndian? || order.MidBigEndian? ==> Source(order, n, k) != k
    ensures order.MidLittleEndian? ==> (Source(order, n, k) != k <==> k < n - n % 4)
    ensures order.BigEndian? || order.OtherOrder? ==> Source(order, n, k) == k
  {
    if order.MidBigEndian? {
      SourceInPairs(n, k);
    } else if order.MidLittleEndian? {
      SourceInFours(n, k);
      FullGroups(n, k);
    }
  }

  /** Reordering twice with the same order gives the data back, at every length. */
  lemma ReorderedInvolution(data: seq<Byte>, order: ByteOrder)
    ensures Reordered(Reordered(data, order), order) == data
  {
    var once := Reordered(data, order);
    var twice := Reordered(once, order);
    forall k: nat | k < |data| ensures twice[k] == data[k] {
      SourceInvolution(order, |data|, k);
      assert twice[k] == once[Source(order, |data|, k)];
    }
  }

  /** reorderBytes on the slice a[lo..hi] of a larger buffer: the slice is reordered in place and
      the rest of the buffer is left alone. */
  method ReorderBytes(a: array<Byte>, lo: nat, hi: nat, order: ByteOrder)
    requires lo <= hi <= a.Length
    modifies a
    ensures a[..lo] == old(a[..lo]) && a[hi..] == old(a[hi..])
    ensures a[lo..hi] == Reordered(old(a[lo..hi]), order)
  {
    var n := hi - lo;
    if n <= 1 {
      return;
    }
    match order
    case BigEndian =>
    case LittleEndian =>
      ReverseInPlace(a, lo, hi);
    case MidBigEndian =>
      SwapAdjacentInPlace(a, lo, hi);
    case MidLittleEndian =>
      SwapHalvesInPlace(a, lo, hi);
    case OtherOrder(_) =>
  }

  method ReverseInPlace(a: array<Byte>, lo: nat, hi: nat)
    requires lo < hi <= a.Length
    modifies a
    ensures a[..lo] == old(a[..lo]) && a[hi..] == old(a[hi..])
    ensures a[lo..hi] == Reordered(old(a[lo..hi]), LittleEndian)
  {
    var i, j := 0, hi - lo - 1;
    while i < j
      invariant 0 <= i <= hi - lo && i + j == hi - lo - 1
      invariant forall p :: 0 <= p < lo || hi <= p < a.Length ==> a[p] == old(a[p])
      invariant forall p :: lo <= p < hi ==>
        a[p] == if p < lo + i || lo + j < p then old(a[lo + hi - 1 - p]) else old(a[p])
    {
      a[lo + i], a[lo + j] := a[lo + j], a[lo + i];
      i, j := i + 1, j - 1;
    }
    ReversedSlice(old(a[..]), a[..], lo, hi);
    assert a[..][lo..hi] == a[lo..hi] && old(a[..])[lo..hi] == old(a[lo..hi]);
  }

  lemma ReversedSlice(was: seq<Byte>, now: seq<Byte>, lo: nat, hi: nat)
    requires lo <= hi <= |was| == |now| && forall p :: lo <= p < hi ==> now[p] == was[lo + hi - 1 - p]
    ensures now[lo..hi] == Reordered(was[lo..hi], LittleEndian)
  {
    forall k | 0 <= k < hi - lo ensures now[lo..hi][k] == was[lo..hi][hi - lo - 1 - k] {
      assert now[lo..hi][k] == now[lo + k];
    }
  }

  lemma PairwiseBlocks(s: seq<Byte>)
    requires |s| >= 2
    ensures Reordered(s, MidBigEndian) == [s[1], s[0]] + Reordered(s[2..], MidBigEndian)
  {
  }

  lemma FourwiseBlocks(s: seq<Byte>)
    requires |s| >= 4
    ensures Reordered(s, MidLittleEndian) == [s[2], s[3], s[0], s[1]] + Reordered(s[4..], MidLittleEndian)
  {
  }

  /** The slice lo..hi has been reordered up to lo + i, and the rest still has to be. */
  ghost predicate UpTo(b: seq<Byte>, lo: nat, hi: nat, i: nat, order: ByteOrder, result: seq<Byte>) {
    lo + i <= hi <= |b| && b[lo..lo + i] + Reordered(b[lo + i..hi], order) == result
  }

  lemma SwapOnePair(b: seq<Byte>, lo: nat, hi: nat, i: nat, result: seq<Byte>)
    requires UpTo(b, lo, hi, i, MidBigEndian, result) && lo + i + 1 < hi
    ensures UpTo(b[lo + i := b[lo + i + 1]][lo + i + 1 := b[lo + i]], lo, hi, i + 2, MidBigEndian, result)
  {
    var b' := b[lo + i := b[lo + i + 1]][lo + i + 1 := b[lo + i]];
    var s := b[lo + i..hi];
    PairwiseBlocks(s);
    assert b'[lo + (i + 2)..hi] == s[2..];
    assert b'[lo..lo + (i + 2)] == b[lo..lo + i] + [s[1], s[0]];
  }

  lemma SwapOneFour(b: seq<Byte>, lo: nat, hi: nat, i: nat, result: seq<Byte>)
    requires UpTo(b, lo, hi, i, MidLittleEndian, result) && lo + i + 3 < hi
    ensures var q := lo + i;
            UpTo(b[q := b[q + 2]][q + 1 := b[q + 3]][q + 2 := b[q]][q + 3 := b[q + 1]],
                 lo, hi, i + 4, MidLittleEndian, result)
  {
    var q := lo + i;
    var b' := b[q := b[q + 2]][q + 1 := b[q + 3]][q + 2 := b[q]][q + 3 := b[q + 1]];
    var s := b[q..hi];
    FourwiseBlocks(s);
    assert b'[lo + (i + 4)..hi] == s[4..];
    assert b'[lo..lo + (i + 4)] == b[lo..q] + [s[2], s[3], s[0], s[1]];
  }

  lemma NothingToReorder(s: seq<Byte>, order: ByteOrder)
    requires (order.MidBigEndian? && |s| < 2) || (order.MidLittleEndian? && |s| < 4)
    ensures Reordered(s, order) == s
  {
    assert forall k: nat :: k < |s| ==> Source(order, |s|, k) == k;
  }

  lemma ShortIsKept(b: seq<Byte>, lo: nat, hi: nat, i: nat, order: ByteOrder, result: seq<Byte>)
    requires UpTo(b, lo, hi, i, order, result)
    requires (order.MidBigEndian? && hi - lo - i < 2) || (order.MidLittleEndian? && hi - lo - i < 4)
    ensures b[lo..hi] == result
  {
    NothingToReorder(b[lo + i..hi], order);
    assert b[lo..hi] == b[lo..lo + i] + b[lo + i..hi];
  }

  method SwapAdjacentInPlace(a: array<Byte>, lo: nat, hi: nat)
    requires lo < hi <= a.Length
    modifies a
    ensures a[..lo] == old(a[..lo]) && a[hi..] == old(a[hi..])
    ensures a[lo..hi] == Reordered(old(a[lo..hi]), MidBigEndian)
  {
    ghost var result := Reordered(a[lo..hi], MidBigEndian);
    var i := 0;
    while i + 1 < hi - lo
      invariant 0 <= i <= hi - lo && UpTo(a[..], lo, hi, i, MidBigEndian, result)
      invariant forall p :: 0 <= p < lo || hi <= p < a.Length ==> a[p] == old(a[p])
      decreases hi - lo - i
    {
      SwapOnePair(a[..], lo, hi, i, result);
      a[lo + i], a[lo + i + 1] := a[lo + i + 1], a[lo + i];
      i := i + 2;
    }
    ShortIsKept(a[..], lo, hi, i, MidBigEndian, result);
  }

  method SwapHalvesInPlace(a: array<Byte>, lo: nat, hi: nat)
    requires lo < hi <= a.Length
    modifies a
    ensures a[..lo] == old(a[..lo]) && a[hi..] == old(a[hi..])
    ensures a[lo..hi] == Reordered(old(a[lo..hi]), MidLittleEndian)
  {
    ghost var result := Reordered(a[lo..hi], MidLittleEndian);
    var i := 0;
    while i + 3 < hi - lo
      invariant 0 <= i <= hi - lo && UpTo(a[..], lo, hi, i, MidLittleEndian, result)
      invariant forall p :: 0 <= p < lo || hi <= p < a.Length ==> a[p] == old(a[p])
      decreases hi - lo - i
    {
      SwapOneFour(a[..], lo, hi, i, result);
      a[lo + i], a[lo + i + 1], a[lo + i + 2], a[lo + i + 3] :=
        a[lo + i + 2], a[lo + i + 3], a[lo + i], a[lo + i + 1];
      i := i + 4;
    }
    ShortIsKept(a[..], lo, hi, i, MidLittleEndian, result);
  }
}
