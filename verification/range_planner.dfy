/** Batching of Modbus tags into address ranges: sortTagsByAddress and the merge loop that
    buildContiguousRanges (registers) and buildCoilRanges (coils) share word for word. */
module RangePlanner {
  import opened ModbusTypes

  /** MaxRegistersPerRead or MaxCoilsPerRead, and MaxGapSize. */
  datatype Limits = Limits(maxSize: U16, maxGap: U16)

  const REGISTER_LIMITS := Limits(100, 10)
  const COIL_LIMITS := Limits(1000, 32)

  datatype Range = Range(start: U16, end: U16, tags: seq<Tag>)

  // ----- Sorting

  function Insert(s: seq<Tag>, t: Tag): (r: seq<Tag>)
    ensures |r| == |s| + 1
  {
    if s == [] || s[|s| - 1].address <= t.address then s + [t]
    else Insert(s[..|s| - 1], t) + [s[|s| - 1]]
  }

  function StablySorted(tags: seq<Tag>): (r: seq<Tag>)
    ensures |r| == |tags|
  {
    if tags == [] then [] else Insert(StablySorted(tags[..|tags| - 1]), tags[|tags| - 1])
  }

  method SortTagsByAddress(tags: array<Tag>)
    modifies tags
    ensures tags[..] == StablySorted(old(tags[..]))
  {
    ghost var was := tags[..];
    var i := 0;
    while i < tags.Length
      invariant 0 <= i <= tags.Length
      invariant tags[..i] == StablySorted(was[..i]) && tags[i..] == was[i..]
    {
      SortedStep(was, i);
      assert tags[i] == tags[i..][0] == was[i];
      SinkIntoPlace(tags, i);
      assert tags[i + 1..] == was[i..][1..];
      i := i + 1;
    }
    assert was[..i] == was && tags[..i] == tags[..];
  }

  lemma SortedStep(tags: seq<Tag>, i: nat)
    requires i < |tags|
    ensures StablySorted(tags[..i + 1]) == Insert(StablySorted(tags[..i]), tags[i])
  {
    assert tags[..i + 1][..i] == tags[..i];
  }

  lemma InsertStep(s: seq<Tag>, x: Tag, t: Tag)
    ensures Insert(s + [x], t) == if x.address <= t.address then s + [x] + [t] else Insert(s, t) + [x]
  {
    assert (s + [x])[..|s|] == s;
  }

  /** The inner loop of the sort: swap tags[i] down past every tag with a greater address. */
  method SinkIntoPlace(tags: array<Tag>, i: nat)
    requires i < tags.Length
    modifies tags
    ensures tags[..i + 1] == Insert(old(tags[..i]), old(tags[i])) && tags[i + 1..] == old(tags[i + 1..])
  {
    ghost var result := Insert(tags[..i], tags[i]);
    var j := i;
    while j > 0 && tags[j].address < tags[j - 1].address
      invariant 0 <= j <= i
      invariant Insert(tags[..j], tags[j]) + tags[j + 1..i + 1] == result
      invariant tags[i + 1..] == old(tags[i + 1..])
    {
      ghost var front, x, t, rest := tags[..j - 1], tags[j - 1], tags[j], tags[j + 1..i + 1];
      assert tags[..j] == front + [x];
      InsertStep(front, x, t);
      tags[j], tags[j - 1] := tags[j - 1], tags[j];
      assert tags[..j - 1] == front && tags[j..i + 1] == [x] + rest;
      assert Insert(front, t) + ([x] + rest) == Insert(front, t) + [x] + rest;
      j := j - 1;
    }
    assert Insert(tags[..j], tags[j]) == tags[..j] + [tags[j]];
    assert tags[..i + 1] == tags[..j] + [tags[j]] + tags[j + 1..i + 1];
  }

  ghost predicate SortedByAddress(s: seq<Tag>) {
    forall i, j :: 0 <= i < j < |s| ==> s[i].address <= s[j].address
  }

  /** The tags at one address, in the order in which they occur. */
  ghost function AtAddress(s: seq<Tag>, address: U16): seq<Tag> {
    if s == [] then []
    else AtAddress(s[..|s| - 1], address) + if s[|s| - 1].address == address then [s[|s| - 1]] else []
  }

  lemma AtAddressSnoc(s: seq<Tag>, t: Tag, address: U16)
    ensures AtAddress(s + [t], address) == AtAddress(s, address) + if t.address == address then [t] else []
  {
    assert (s + [t])[..|s|] == s;
  }

  lemma {:induction false} InsertMultiset(s: seq<Tag>, t: Tag)
    ensures multiset(Insert(s, t)) == multiset(s) + multiset{t}
  {
    if s != [] && s[|s| - 1].address > t.address {
      assert s == s[..|s| - 1] + [s[|s| - 1]];
      InsertMultiset(s[..|s| - 1], t);
    }
  }

  lemma {:induction false} InsertSorted(s: seq<Tag>, t: Tag)
    requires SortedByAddress(s)
    ensures SortedByAddress(Insert(s, t))
  {
    if s != [] && s[|s| - 1].address > t.address {
      var front, last := s[..|s| - 1], s[|s| - 1];
      InsertSorted(front, t);
      var r := Insert(front, t);
      forall i | 0 <= i < |r| ensures r[i].address <= last.address {
        InsertMultiset(front, t);
        assert r[i] in multiset(front) + multiset{t};
        assert r[i] == t || r[i] in front;
      }
    }
  }

  lemma {:induction false} InsertStable(s: seq<Tag>, t: Tag, address: U16)
    ensures AtAddress(Insert(s, t), address) == AtAddress(s, address) + if t.address == address then [t] else []
  {
    AtAddressSnoc(s, t, address);
    if s != [] && s[|s| - 1].address > t.address {
      InsertStable(s[..|s| - 1], t, address);
      AtAddressSnoc(Insert(s[..|s| - 1], t), s[|s| - 1], address);
    }
  }

  /** The sort is a stable sort: the result is in address order, and the tags that share an address
      keep the order in which they were given. */
  lemma {:induction false} SortIsStable(tags: seq<Tag>, address: U16)
    ensures SortedByAddress(StablySorted(tags))
    ensures AtAddress(StablySorted(tags), address) == AtAddress(tags, address)
    ensures multiset(StablySorted(tags)) == multiset(tags)
  {
    if tags != [] {
      var front, last := tags[..|tags| - 1], tags[|tags| - 1];
      assert tags == front + [last];
      SortIsStable(front, address);
      InsertSorted(StablySorted(front), last);
      InsertStable(StablySorted(front), last, address);
      InsertMultiset(StablySorted(front), last);
    }
  }

  lemma AtOwnAddress(s: seq<Tag>)
    ensures s != [] ==> AtAddress(s, s[|s| - 1].address) != []
  {}

  /** There is only one such result: order and stability determine a sequence. */
  lemma {:induction false} StableSortIsUnique(x: seq<Tag>, y: seq<Tag>)
    requires SortedByAddress(x) && SortedByAddress(y)
    requires forall address :: AtAddress(x, address) == AtAddress(y, address)
    ensures x == y
  {
    if x == [] || y == [] {
      AtOwnAddress(x);
      AtOwnAddress(y);
    } else {
      var lx, ly := x[|x| - 1], y[|y| - 1];
      AtAddressIsFrom(y, lx.address);
      AtAddressIsFrom(x, ly.address);
      assert AtAddress(x, lx.address) != [] && AtAddress(y, ly.address) != [];
      var fx, fy := x[..|x| - 1], y[..|y| - 1];
      assert AtAddress(x, lx.address)[|AtAddress(x, lx.address)| - 1] == lx;
      assert AtAddress(y, lx.address)[|AtAddress(y, lx.address)| - 1] == ly;
      forall address: U16 ensures AtAddress(fx, address) == AtAddress(fy, address) {
        if address == lx.address {
          assert AtAddress(x, address)[..|AtAddress(x, address)| - 1] == AtAddress(fx, address);
          assert AtAddress(y, address)[..|AtAddress(y, address)| - 1] == AtAddress(fy, address);
        } else {
          assert AtAddress(x, address) == AtAddress(fx, address);
          assert AtAddress(y, address) == AtAddress(fy, address);
        }
      }
      StableSortIsUnique(fx, fy);
      assert x == fx + [lx] && y == fy + [ly];
    }
  }

  lemma {:induction false} AtAddressIsFrom(s: seq<Tag>, address: U16)
    ensures AtAddress(s, address) != [] ==> exists i :: 0 <= i < |s| && s[i].address == address
  {
    if s != [] {
      AtAddressIsFrom(s[..|s| - 1], address);
    }
  }

  // ----- Merging

  /** tagEnd in the code: the last register of a tag, in uint16 arithmetic. */
  function TagEnd(t: Tag): U16 { Wrap16(t.address + t.count - 1) }

  function Open(t: Tag): Range { Range(t.address, TagEnd(t), [t]) }

  function Extend(r: Range, t: Tag): Range {
    Range(r.start, if TagEnd(t) > r.end then TagEnd(t) else r.end, r.tags + [t])
  }

  /** The merge test. The gap is an int expression in the code, the new size a uint16 expression. */
  predicate Fits(lim: Limits, r: Range, t: Tag) {
    t.address - r.end - 1 <= lim.maxGap && Wrap16(TagEnd(t) - r.start + 1) <= lim.maxSize
  }

  /** The range that holds the tags s[a..k]. */
  function RangeOf(s: seq<Tag>, a: nat, k: nat): (r: Range)
    requires a < k <= |s|
    ensures r.tags == s[a..k] && r.start == s[a].address
  {
    if k == a + 1 then Open(s[a]) else Extend(RangeOf(s, a, k - 1), s[k - 1])
  }

  /** How far the range that holds s[a..k] grows. */
  function GrowTo(lim: Limits, s: seq<Tag>, a: nat, k: nat): (b: nat)
    requires a < k <= |s|
    ensures k <= b <= |s|
    decreases |s| - k
  {
    if k < |s| && Fits(lim, RangeOf(s, a, k), s[k]) then GrowTo(lim, s, a, k + 1) else k
  }

  function Plan(lim: Limits, s: seq<Tag>, a: nat): seq<Range>
    requires a <= |s|
    decreases |s| - a
  {
    if a == |s| then []
    else
      var b := GrowTo(lim, s, a, a + 1);
      [RangeOf(s, a, b)] + Plan(lim, s, b)
  }

  /** The plan from a range that holds s[a..k] and is still being extended. */
  ghost function Continue(lim: Limits, s: seq<Tag>, a: nat, k: nat): seq<Range>
    requires a < k <= |s|
  {
    var b := GrowTo(lim, s, a, k);
    [RangeOf(s, a, b)] + Plan(lim, s, b)
  }

  lemma ContinueStep(lim: Limits, s: seq<Tag>, a: nat, k: nat)
    requires a < k < |s|
    ensures Continue(lim, s, a, k) ==
            if Fits(lim, RangeOf(s, a, k), s[k]) then Continue(lim, s, a, k + 1)
            else [RangeOf(s, a, k)] + Continue(lim, s, k, k + 1)
  {}

  lemma Append<T>(done: seq<T>, x: T, rest: seq<T>)
    ensures done + ([x] + rest) == done + [x] + rest
  {}

  method BuildRanges(tags: seq<Tag>, lim: Limits) returns (ranges: seq<Range>)
    ensures ranges == Plan(lim, StablySorted(tags), 0)
  {
    if tags == [] {
      return [];
    }
    var sorted := new Tag[|tags|](i requires 0 <= i < |tags| => tags[i]);
    assert sorted[..] == tags;
    SortTagsByAddress(sorted);
    ghost var s := sorted[..];

    ranges := [];
    var current := Open(sorted[0]);
    ghost var a := 0;
    var i := 1;
    while i < sorted.Length
      invariant 0 <= a < i <= |s| && sorted[..] == s
      invariant current == RangeOf(s, a, i)
      invariant Plan(lim, s, 0) == ranges + Continue(lim, s, a, i)
    {
      ContinueStep(lim, s, a, i);
      Append(ranges, current, Continue(lim, s, i, i + 1));
      if Fits(lim, current, sorted[i]) {
        current := Extend(current, sorted[i]);
      } else {
        ranges := ranges + [current];
        current := Open(sorted[i]);
        a := i;
      }
      i := i + 1;
    }
    ranges := ranges + [current];
  }
}
