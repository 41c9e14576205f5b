/** Batching of S7 tags into byte ranges (buildS7ContiguousRanges). */
module S7Planner {
  import opened Grouping
  import GreedySplit
  import IntervalSplit

  datatype Area = DB | M | I | Q | T | C

  /** The grouping key: memory area and data block number. */
  datatype Key = Key(area: Area, db: int)

  datatype ParsedTag = ParsedTag(id: string, key: Key, offset: int, bitOffset: int, byteCount: nat) {
    function End(): int { offset + byteCount }
  }

  /** A tag inside a range, at an offset relative to the start of the range. */
  datatype TagInRange = TagInRange(id: string, offset: int, bitOffset: int, byteCount: nat) {
    function End(): int { offset + byteCount }
  }

  datatype ByteRange = ByteRange(key: Key, start: int, total: int, tags: seq<TagInRange>)

  datatype Config = Config(maxBytes: int, maxGap: nat)

  // ----- What a plan is worth

  /** The tag that an entry of a range stands for. */
  ghost function Stands(r: ByteRange, t: TagInRange): ParsedTag {
    ParsedTag(t.id, r.key, r.start + t.offset, t.bitOffset, t.byteCount)
  }

  ghost function Standing(r: ByteRange): seq<ParsedTag> {
    seq(|r.tags|, i requires 0 <= i < |r.tags| => Stands(r, r.tags[i]))
  }

  /** The tags of all ranges, in the order in which the ranges hold them. */
  ghost function Listed(ranges: seq<ByteRange>): seq<ParsedTag> {
    if ranges == [] then [] else Listed(ranges[..|ranges| - 1]) + Standing(ranges[|ranges| - 1])
  }

  ghost function Placed(ranges: seq<ByteRange>): multiset<ParsedTag> { multiset(Listed(ranges)) }

  /** Byte x belongs to a tag, or is at most the gap limit behind one. */
  ghost predicate Served(cfg: Config, tags: seq<TagInRange>, x: int) {
    exists i :: 0 <= i < |tags| && tags[i].offset <= x < tags[i].End() + cfg.maxGap
  }

  /** Every tag lies inside its range, no hole is wider than the gap limit, and the range is within
      the size limit if its tags are. */
  ghost predicate WellFormed(cfg: Config, r: ByteRange) {
    && r.tags != []
    && (forall i :: 0 <= i < |r.tags| ==> 0 <= r.tags[i].offset && r.tags[i].End() <= r.total)
    && (exists i :: 0 <= i < |r.tags| && r.tags[i].End() == r.total)
    && (forall x :: 0 <= x < r.total ==> Served(cfg, r.tags, x))
    && ((forall i :: 0 <= i < |r.tags| ==> r.tags[i].byteCount <= cfg.maxBytes) ==> r.total <= cfg.maxBytes)
  }

  ghost predicate AllWellFormed(cfg: Config, ranges: seq<ByteRange>) {
    forall i :: 0 <= i < |ranges| ==> WellFormed(cfg, ranges[i])
  }

  /** The first tag of q could not have joined r: the gap or the joint size is beyond the limit. */
  ghost predicate Forced(cfg: Config, r: ByteRange, q: ByteRange)
    requires q.tags != []
  {
    || q.start - (r.start + r.total) > cfg.maxGap
    || q.start + q.tags[0].byteCount - r.start > cfg.maxBytes
    || r.total > cfg.maxBytes
  }

  /** The ranges of one group come in address order, and each one was opened because it had to be. */
  ghost predicate OneGroup(cfg: Config, key: Key, ranges: seq<ByteRange>) {
    && AllWellFormed(cfg, ranges)
    && (forall i :: 0 <= i < |ranges| ==> ranges[i].key == key)
    && (forall i :: 0 < i < |ranges| ==>
          ranges[i - 1].start <= ranges[i].start && Forced(cfg, ranges[i - 1], ranges[i]))
  }

  function Data(mem: (Key, int) -> int, key: Key, start: int, n: nat): seq<int> {
    seq(n, k requires 0 <= k < n => mem(key, start + k))
  }

  /** The data of the range, sliced at a tag's offset, is the tag's own data, for any memory. */
  lemma SliceIsOwnData(cfg: Config, mem: (Key, int) -> int, r: ByteRange, i: nat)
    requires WellFormed(cfg, r) && i < |r.tags|
    ensures var t := r.tags[i];
            0 <= t.offset <= t.End() <= r.total &&
            Data(mem, r.key, r.start, r.total)[t.offset..t.End()] ==
            Data(mem, Stands(r, t).key, Stands(r, t).offset, t.byteCount)
  {
    var t := r.tags[i];
    var slice := Data(mem, r.key, r.start, r.total)[t.offset..t.End()];
    var own := Data(mem, r.key, r.start + t.offset, t.byteCount);
    forall k | 0 <= k < t.byteCount ensures slice[k] == own[k] {
      assert r.start + (t.offset + k) == (r.start + t.offset) + k;
    }
  }

  // ----- The planner

  ghost predicate SortedByOffset(tags: seq<ParsedTag>) {
    forall i, j :: 0 <= i < j < |tags| ==> tags[i].offset <= tags[j].offset
  }

  lemma InsertedSorted(s: seq<ParsedTag>, j: nat, t: ParsedTag)
    requires SortedByOffset(s) && j <= |s|
    requires j > 0 ==> s[j - 1].offset <= t.offset
    requires j < |s| ==> t.offset <= s[j].offset
    ensures SortedByOffset(s[..j] + [t] + s[j..])
  {
    forall i | 0 <= i < j ensures s[i].offset <= t.offset { assert s[i].offset <= s[j - 1].offset; }
    forall i | j <= i < |s| ensures t.offset <= s[i].offset { assert s[j].offset <= s[i].offset; }
  }

  lemma InsertedMultiset(s: seq<ParsedTag>, j: nat, t: ParsedTag)
    requires j <= |s|
    ensures multiset(s[..j] + [t] + s[j..]) == multiset(s) + multiset{t}
  {
    assert s == s[..j] + s[j..];
  }

  /** sort.Slice is not stable: callers may rely on a sorted permutation and no more. */
  method SortByOffset(tags: seq<ParsedTag>) returns (sorted: seq<ParsedTag>)
    ensures SortedByOffset(sorted) && multiset(sorted) == multiset(tags)
  {
    sorted := [];
    for i := 0 to |tags|
      invariant SortedByOffset(sorted) && multiset(sorted) == multiset(tags[..i])
    {
      assert tags[..i + 1] == tags[..i] + [tags[i]];
      sorted := InsertByOffset(sorted, tags[i]);
    }
    assert tags[..|tags|] == tags;
  }

  method InsertByOffset(s: seq<ParsedTag>, t: ParsedTag) returns (sorted: seq<ParsedTag>)
    requires SortedByOffset(s)
    ensures SortedByOffset(sorted) && multiset(sorted) == multiset(s) + multiset{t}
  {
    var j := |s|;
    while j > 0 && s[j - 1].offset > t.offset
      invariant 0 <= j <= |s|
      invariant j < |s| ==> t.offset <= s[j].offset
    {
      j := j - 1;
    }
    InsertedSorted(s, j, t);
    InsertedMultiset(s, j, t);
    sorted := s[..j] + [t] + s[j..];
  }

  function Open(t: ParsedTag): ByteRange {
    ByteRange(t.key, t.offset, t.byteCount, [TagInRange(t.id, 0, t.bitOffset, t.byteCount)])
  }

  lemma OpenFacts(cfg: Config, t: ParsedTag)
    ensures WellFormed(cfg, Open(t)) && Standing(Open(t)) == [t]
  {
    var r := Open(t);
    assert r.tags[0].End() == r.total;
    forall x | 0 <= x < r.total ensures Served(cfg, r.tags, x) {
      assert r.tags[0].offset <= x < r.tags[0].End() + cfg.maxGap;
    }
  }

  function Extend(r: ByteRange, t: ParsedTag): ByteRange {
    ByteRange(r.key, r.start, if t.End() > r.start + r.total then t.End() - r.start else r.total,
              r.tags + [TagInRange(t.id, t.offset - r.start, t.bitOffset, t.byteCount)])
  }

  lemma ExtendPlaces(r: ByteRange, t: ParsedTag)
    requires t.key == r.key
    ensures Standing(Extend(r, t)) == Standing(r) + [t]
  {
  }

  lemma ExtendServes(cfg: Config, r: ByteRange, t: ParsedTag, x: int)
    requires WellFormed(cfg, r) && t.offset - (r.start + r.total) <= cfg.maxGap
    requires 0 <= x < Extend(r, t).total
    ensures Served(cfg, Extend(r, t).tags, x)
  {
    var q, n := Extend(r, t), |r.tags|;
    if x < r.total {
      assert Served(cfg, r.tags, x);
      var i :| 0 <= i < n && r.tags[i].offset <= x < r.tags[i].End() + cfg.maxGap;
      assert q.tags[i] == r.tags[i];
    } else if x >= q.tags[n].offset {
      assert x < q.tags[n].End() + cfg.maxGap;
    } else {
      var e :| 0 <= e < n && r.tags[e].End() == r.total;
      assert q.tags[e] == r.tags[e];
    }
  }

  /** Merging t into r keeps the range well formed when the gap and the new size are within the limits. */
  lemma ExtendKeepsForm(cfg: Config, r: ByteRange, t: ParsedTag)
    requires WellFormed(cfg, r) && r.start <= t.offset
    requires t.offset - (r.start + r.total) <= cfg.maxGap
    requires t.End() - r.start <= cfg.maxBytes && r.total <= cfg.maxBytes
    ensures WellFormed(cfg, Extend(r, t))
  {
    var q, n := Extend(r, t), |r.tags|;
    forall x | 0 <= x < q.total ensures Served(cfg, q.tags, x) { ExtendServes(cfg, r, t, x); }
    var e := ExtendEnd(cfg, r, t);
    forall i | 0 <= i <= n ensures 0 <= q.tags[i].offset && q.tags[i].End() <= q.total {
      if i < n { assert q.tags[i] == r.tags[i]; }
    }
  }

  lemma ExtendEnd(cfg: Config, r: ByteRange, t: ParsedTag) returns (e: nat)
    requires WellFormed(cfg, r)
    ensures e < |Extend(r, t).tags| && Extend(r, t).tags[e].End() == Extend(r, t).total
  {
    e := |r.tags|;
    if t.End() <= r.start + r.total {
      e :| 0 <= e < |r.tags| && r.tags[e].End() == r.total;
      assert Extend(r, t).tags[e] == r.tags[e];
    }
  }

  lemma ListedSnoc(ranges: seq<ByteRange>, r: ByteRange)
    ensures Listed(ranges + [r]) == Listed(ranges) + Standing(r)
  {
    assert (ranges + [r])[..|ranges|] == ranges;
  }

  lemma {:induction false} ListedAppend(p: seq<ByteRange>, q: seq<ByteRange>)
    ensures Listed(p + q) == Listed(p) + Listed(q)
  {
    if q == [] {
      assert p + q == p;
    } else {
      var front, last := q[..|q| - 1], q[|q| - 1];
      assert p + q == (p + front) + [last];
      ListedAppend(p, front);
      ListedSnoc(p + front, last);
      assert q == front + [last] && Listed(q) == Listed(front) + Standing(last);
      assert Listed(p) + (Listed(front) + Standing(last)) == Listed(p) + Listed(front) + Standing(last);
    }
  }

  /** The plan of one group after its last range r has grown to q. */
  lemma GrowLast(cfg: Config, key: Key, done: seq<ByteRange>, r: ByteRange, q: ByteRange)
    requires OneGroup(cfg, key, done + [r]) && WellFormed(cfg, q) && r.tags != []
    requires q.key == r.key && q.start == r.start && r.tags[0] == q.tags[0]
    ensures OneGroup(cfg, key, done + [q])
  {
    var p, s := done + [r], done + [q];
    assert p[|done|] == r;
    forall i | 0 <= i < |s|
      ensures WellFormed(cfg, s[i]) && s[i].key == key
      ensures i > 0 ==> s[i - 1].start <= s[i].start && Forced(cfg, s[i - 1], s[i])
    {
      assert WellFormed(cfg, p[i]) && p[i].key == key;
      assert i > 0 ==> p[i - 1].start <= p[i].start && Forced(cfg, p[i - 1], p[i]);
    }
  }

  /** The plan of one group after a range q was opened behind r. */
  lemma OpenNext(cfg: Config, key: Key, done: seq<ByteRange>, r: ByteRange, q: ByteRange)
    requires OneGroup(cfg, key, done + [r]) && WellFormed(cfg, q) && q.key == key
    requires r.start <= q.start && Forced(cfg, r, q)
    ensures OneGroup(cfg, key, done + [r] + [q])
  {
    var p, s := done + [r], done + [r] + [q];
    assert p[|done|] == r;
    forall i | 0 <= i < |s|
      ensures WellFormed(cfg, s[i]) && s[i].key == key
      ensures i > 0 ==> s[i - 1].start <= s[i].start && Forced(cfg, s[i - 1], s[i])
    {
      if i < |p| {
        assert WellFormed(cfg, p[i]) && p[i].key == key;
        assert i > 0 ==> p[i - 1].start <= p[i].start && Forced(cfg, p[i - 1], p[i]);
      }
    }
  }

  /** The state of the merge loop after the given tags: finished ranges, and one that may still grow. */
  ghost predicate Merging(cfg: Config, key: Key, done: seq<ByteRange>, current: ByteRange, seen: seq<ParsedTag>) {
    && OneGroup(cfg, key, done + [current])
    && Listed(done) + Standing(current) == seen
    && seen != [] && current.start <= seen[|seen| - 1].offset
  }

  predicate Joins(cfg: Config, r: ByteRange, t: ParsedTag) {
    && t.offset - (r.start + r.total) <= cfg.maxGap
    && t.End() - r.start <= cfg.maxBytes && r.total <= cfg.maxBytes
  }

  lemma MergingStep(cfg: Config, key: Key, done: seq<ByteRange>, current: ByteRange, seen: seq<ParsedTag>, t: ParsedTag)
    requires Merging(cfg, key, done, current, seen) && t.key == key && seen[|seen| - 1].offset <= t.offset
    ensures Joins(cfg, current, t) ==> Merging(cfg, key, done, Extend(current, t), seen + [t])
    ensures !Joins(cfg, current, t) ==> Merging(cfg, key, done + [current], Open(t), seen + [t])
  {
    var p := done + [current];
    assert WellFormed(cfg, p[|done|]) && p[|done|].key == key;
    if Joins(cfg, current, t) {
      ExtendKeepsForm(cfg, current, t);
      ExtendPlaces(current, t);
      assert seen + [t] == Listed(done) + Standing(Extend(current, t));
      GrowLast(cfg, key, done, current, Extend(current, t));
    } else {
      ListedSnoc(done, current);
      OpenFacts(cfg, t);
      OpenNext(cfg, key, done, current, Open(t));
    }
  }

  /** One turn of the merge loop. */
  method Merge(done: seq<ByteRange>, last: ByteRange, t: ParsedTag, cfg: Config)
    returns (ranges: seq<ByteRange>, current: ByteRange)
    ensures if Joins(cfg, last, t) then ranges == done && current == Extend(last, t)
            else ranges == done + [last] && current == Open(t)
  {
    var tagEnd := t.offset + t.byteCount;
    var currentEnd := last.start + last.total;
    var gap := t.offset - currentEnd;
    var newTotalBytes := tagEnd - last.start;
    if newTotalBytes < last.total {
      newTotalBytes := last.total;
    }
    if gap <= cfg.maxGap && newTotalBytes <= cfg.maxBytes {
      return done, Extend(last, t);
    } else {
      return done + [last], Open(t);
    }
  }

  // ----- How many ranges a group needs

  ghost function Intervals(s: seq<ParsedTag>): (r: seq<IntervalSplit.Interval>)
    ensures |r| == |s|
  {
    seq(|s|, i requires 0 <= i < |s| => IntervalSplit.Interval(s[i].offset, s[i].End()))
  }

  ghost function BoundsOf(cfg: Config): IntervalSplit.Bounds { IntervalSplit.Bounds(cfg.maxGap, cfg.maxBytes, true) }

  /** The ranges hold their tags in offset order, and no split of the tags in that order into consecutive
      blocks within the limits has fewer blocks than there are ranges. */
  ghost predicate Fewest(cfg: Config, ranges: seq<ByteRange>) {
    && SortedByOffset(Listed(ranges))
    && forall cuts :: IntervalSplit.IsSplit(BoundsOf(cfg), Intervals(Listed(ranges)), 0, cuts) ==> |ranges| <= |cuts|
  }

  /** Where the range that is still open in the merge loop starts and ends, and how many ranges are to come. */
  ghost predicate Greedy(cfg: Config, s: seq<ParsedTag>, a: nat, i: nat, done: nat, current: ByteRange) {
    var (b, intervals) := (BoundsOf(cfg), Intervals(s));
    && a < i <= |s|
    && current.start == s[a].offset && current.start + current.total == IntervalSplit.MaxEnd(intervals, a, i)
    && done + 1 + IntervalSplit.Blocks(b, intervals, GreedySplit.GrowTo(IntervalSplit.JoinsOf(b, intervals), |s|, a, i))
       == IntervalSplit.Blocks(b, intervals, 0)
  }

  lemma GreedyStep(cfg: Config, s: seq<ParsedTag>, a: nat, i: nat, done: nat, current: ByteRange)
    requires Greedy(cfg, s, a, i, done, current) && i < |s|
    ensures Joins(cfg, current, s[i]) ==> Greedy(cfg, s, a, i + 1, done, Extend(current, s[i]))
    ensures !Joins(cfg, current, s[i]) ==> Greedy(cfg, s, i, i + 1, done + 1, Open(s[i]))
  {
    var joins := IntervalSplit.JoinsOf(BoundsOf(cfg), Intervals(s));
    assert joins(a, i) <==> Joins(cfg, current, s[i]);
  }

  /** The state of the merge loop before tag i. */
  ghost predicate Halfway(cfg: Config, key: Key, tags: seq<ParsedTag>, a: nat, i: nat,
                          done: seq<ByteRange>, current: ByteRange)
  {
    i <= |tags| && Merging(cfg, key, done, current, tags[..i]) && Greedy(cfg, tags, a, i, |done|, current)
  }

  lemma FirstTurn(cfg: Config, key: Key, tags: seq<ParsedTag>)
    requires tags != [] && tags[0].key == key
    ensures Halfway(cfg, key, tags, 0, 1, [], Open(tags[0]))
  {
    assert tags[..1] == [tags[0]];
    MergingStart(cfg, key, tags[0]);
  }

  lemma LastTurn(cfg: Config, key: Key, tags: seq<ParsedTag>, a: nat, done: seq<ByteRange>, current: ByteRange)
    requires Halfway(cfg, key, tags, a, |tags|, done, current) && SortedByOffset(tags)
    ensures var ranges := done + [current];
            OneGroup(cfg, key, ranges) && Listed(ranges) == tags && Fewest(cfg, ranges)
  {
    assert tags[..|tags|] == tags;
    ListedSnoc(done, current);
    GreedyIsFewest(cfg, tags, done + [current]);
  }

  lemma OneTurn(cfg: Config, key: Key, tags: seq<ParsedTag>, a: nat, i: nat, done: seq<ByteRange>, current: ByteRange)
    requires Halfway(cfg, key, tags, a, i, done, current) && i < |tags|
    requires SortedByOffset(tags) && tags[i].key == key
    ensures Joins(cfg, current, tags[i]) ==> Halfway(cfg, key, tags, a, i + 1, done, Extend(current, tags[i]))
    ensures !Joins(cfg, current, tags[i]) ==>
              Halfway(cfg, key, tags, i, i + 1, done + [current], Open(tags[i]))
  {
    assert tags[..i + 1] == tags[..i] + [tags[i]];
    MergingStep(cfg, key, done, current, tags[..i], tags[i]);
    GreedyStep(cfg, tags, a, i, |done|, current);
  }

  /** The merge loop over one group in address order. */
  method MergeGroup(key: Key, tags: seq<ParsedTag>, cfg: Config) returns (ranges: seq<ByteRange>)
    requires tags != [] && SortedByOffset(tags) && forall i :: 0 <= i < |tags| ==> tags[i].key == key
    ensures OneGroup(cfg, key, ranges) && Listed(ranges) == tags && Fewest(cfg, ranges)
  {
    ranges := [];
    var current := Open(tags[0]);
    ghost var a := 0;
    FirstTurn(cfg, key, tags);
    for i := 1 to |tags|
      invariant Halfway(cfg, key, tags, a, i, ranges, current)
    {
      OneTurn(cfg, key, tags, a, i, ranges, current);
      a := if Joins(cfg, current, tags[i]) then a else i;
      ranges, current := Merge(ranges, current, tags[i], cfg);
    }
    LastTurn(cfg, key, tags, a, ranges, current);
    ranges := ranges + [current];
  }

  lemma GreedyIsFewest(cfg: Config, s: seq<ParsedTag>, ranges: seq<ByteRange>)
    requires SortedByOffset(s) && Listed(ranges) == s
    requires |ranges| == IntervalSplit.Blocks(BoundsOf(cfg), Intervals(s), 0)
    ensures Fewest(cfg, ranges)
  {
    forall cuts | IntervalSplit.IsSplit(BoundsOf(cfg), Intervals(s), 0, cuts)
      ensures |ranges| <= |cuts|
    {
      IntervalSplit.GreedyIsFewest(BoundsOf(cfg), Intervals(s), cuts);
    }
  }

  lemma MergingStart(cfg: Config, key: Key, t: ParsedTag)
    requires t.key == key
    ensures Merging(cfg, key, [], Open(t), [t])
  {
    OpenFacts(cfg, t);
    assert [] + [Open(t)] == [Open(t)];
  }

  // ----- Groups

  lemma MultisetKeys(sorted: seq<ParsedTag>, group: seq<ParsedTag>, k: Key)
    requires multiset(sorted) == multiset(group)
    requires forall i :: 0 <= i < |group| ==> group[i].key == k
    ensures forall i :: 0 <= i < |sorted| ==> sorted[i].key == k
    ensures |sorted| == |group|
  {
    forall i | 0 <= i < |sorted| ensures sorted[i].key == k { assert sorted[i] in multiset(group); }
    assert |multiset(sorted)| == |multiset(group)|;
  }

  const KEY := (t: ParsedTag) => t.key

  const RANGE_KEY := (r: ByteRange) => r.key

  /** The ranges of one group, in the order in which an unstable sort may leave its tags. */
  method PlanGroup(parsed: seq<ParsedTag>, group: seq<ParsedTag>, key: Key, cfg: Config)
    returns (ranges: seq<ByteRange>)
    requires group != [] && group == OfKeys(parsed, KEY, {key})
    ensures OneGroup(cfg, key, ranges) && Placed(ranges) == multiset(group) && Fewest(cfg, ranges)
  {
    var sorted := SortByOffset(group);
    OfKeysFrom(parsed, KEY, {key});
    forall i | 0 <= i < |group| ensures group[i].key == key {
      assert group[i] in OfKeys(parsed, KEY, {key});
      assert KEY(group[i]) == key;
    }
    MultisetKeys(sorted, group, key);
    ranges := MergeGroup(key, sorted, cfg);
  }

  /** The ranges of one key are well formed, hold exactly its tags, and are as few as can be. */
  ghost predicate Planned(cfg: Config, parsed: seq<ParsedTag>, ranges: seq<ByteRange>, key: Key) {
    var (group, own) := (OfKeys(parsed, KEY, {key}), OfKeys(ranges, RANGE_KEY, {key}));
    OneGroup(cfg, key, own) && Placed(own) == multiset(group) && Fewest(cfg, own)
  }

  /** A plan over several groups, whose keys are among the given ones. */
  ghost predicate Sound(cfg: Config, keys: set<Key>, ranges: seq<ByteRange>) {
    && (forall i :: 0 <= i < |ranges| ==> WellFormed(cfg, ranges[i]) && ranges[i].key in keys)
    && (forall i :: 0 < i < |ranges| && ranges[i - 1].key == ranges[i].key ==>
          ranges[i - 1].start <= ranges[i].start && Forced(cfg, ranges[i - 1], ranges[i]))
  }

  lemma AppendGroup(cfg: Config, keys: set<Key>, ranges: seq<ByteRange>, key: Key, group: seq<ByteRange>)
    requires Sound(cfg, keys, ranges) && key !in keys && OneGroup(cfg, key, group)
    ensures Sound(cfg, keys + {key}, ranges + group) && Placed(ranges + group) == Placed(ranges) + Placed(group)
  {
    ListedAppend(ranges, group);
    var all, n := ranges + group, |ranges|;
    forall i | 0 <= i < |all|
      ensures WellFormed(cfg, all[i]) && all[i].key in keys + {key}
      ensures i > 0 && all[i - 1].key == all[i].key ==>
              all[i - 1].start <= all[i].start && Forced(cfg, all[i - 1], all[i])
    {
      if i > n { assert group[i - n - 1].start <= group[i - n].start && Forced(cfg, group[i - n - 1], group[i - n]); }
    }
  }

  ghost predicate AllPlanned(cfg: Config, parsed: seq<ParsedTag>, ranges: seq<ByteRange>) {
    forall key :: Planned(cfg, parsed, ranges, key)
  }

  /** The keys in done are planned, and there are no ranges of other keys. */
  ghost predicate PlannedSoFar(cfg: Config, parsed: seq<ParsedTag>, ranges: seq<ByteRange>, done: set<Key>) {
    forall key :: PlannedOrAbsent(cfg, parsed, ranges, done, key)
  }

  ghost predicate PlannedOrAbsent(cfg: Config, parsed: seq<ParsedTag>, ranges: seq<ByteRange>,
                                  done: set<Key>, key: Key)
  {
    if key in done then Planned(cfg, parsed, ranges, key) else OfKeys(ranges, RANGE_KEY, {key}) == []
  }

  lemma PlanOneMore(cfg: Config, parsed: seq<ParsedTag>, ranges: seq<ByteRange>, done: set<Key>,
                      key: Key, more: seq<ByteRange>)
    requires PlannedSoFar(cfg, parsed, ranges, done) && key !in done
    requires var group := OfKeys(parsed, KEY, {key});
             OneGroup(cfg, key, more) && Placed(more) == multiset(group) && Fewest(cfg, more)
    ensures PlannedSoFar(cfg, parsed, ranges + more, done + {key})
  {
    forall k
      ensures PlannedOrAbsent(cfg, parsed, ranges + more, done + {key}, k)
    {
      assert PlannedOrAbsent(cfg, parsed, ranges, done, k);
      OfKeysConcat(ranges, more, RANGE_KEY, {k});
      if k == key {
        OfKeysAll(more, RANGE_KEY, {k});
        assert [] + more == more;
      } else {
        OfKeysMisses(more, RANGE_KEY, {k});
        assert OfKeys(ranges, RANGE_KEY, {k}) + [] == OfKeys(ranges, RANGE_KEY, {k});
      }
    }
  }

  lemma NothingToPlan(cfg: Config, parsed: seq<ParsedTag>, ranges: seq<ByteRange>, key: Key)
    requires OfKeys(ranges, RANGE_KEY, {key}) == [] && OfKeys(parsed, KEY, {key}) == []
    ensures Planned(cfg, parsed, ranges, key)
  {
  }

  /** The state of the loop over the groups. */
  ghost predicate Building(cfg: Config, parsed: seq<ParsedTag>, ranges: seq<ByteRange>, done: set<Key>) {
    && Placed(ranges) == multiset(OfKeys(parsed, KEY, done))
    && Sound(cfg, done, ranges) && PlannedSoFar(cfg, parsed, ranges, done)
  }

  lemma BuildOneMore(cfg: Config, parsed: seq<ParsedTag>, ranges: seq<ByteRange>, done: set<Key>,
                       key: Key, more: seq<ByteRange>)
    requires Building(cfg, parsed, ranges, done) && key !in done
    requires var group := OfKeys(parsed, KEY, {key});
             OneGroup(cfg, key, more) && Placed(more) == multiset(group) && Fewest(cfg, more)
    ensures Building(cfg, parsed, ranges + more, done + {key})
  {
    OfKeysSplit(parsed, KEY, done, key);
    AppendGroup(cfg, done, ranges, key, more);
    PlanOneMore(cfg, parsed, ranges, done, key, more);
  }

  /** One turn of the loop over the groups. */
  method AddGroup(parsed: seq<ParsedTag>, group: seq<ParsedTag>, key: Key, cfg: Config, ranges: seq<ByteRange>,
                  ghost done: set<Key>)
    returns (all: seq<ByteRange>)
    requires Building(cfg, parsed, ranges, done) && key !in done
    requires group != [] && group == OfKeys(parsed, KEY, {key})
    ensures Building(cfg, parsed, all, done + {key})
  {
    var groupRanges := PlanGroup(parsed, group, key, cfg);
    BuildOneMore(cfg, parsed, ranges, done, key, groupRanges);
    all := ranges + groupRanges;
  }

  lemma BuildingStarts(cfg: Config, parsed: seq<ParsedTag>)
    ensures Building(cfg, parsed, [], {})
  {
    OfKeysNone(parsed, KEY);
  }

  lemma BuildingEnds(cfg: Config, parsed: seq<ParsedTag>, ranges: seq<ByteRange>, done: set<Key>)
    requires Building(cfg, parsed, ranges, done) && forall i :: 0 <= i < |parsed| ==> KEY(parsed[i]) in done
    ensures Placed(ranges) == multiset(parsed) && exists keys :: Sound(cfg, keys, ranges)
    ensures AllPlanned(cfg, parsed, ranges)
  {
    OfKeysAll(parsed, KEY, done);
    forall key
      ensures Planned(cfg, parsed, ranges, key)
    {
      assert PlannedOrAbsent(cfg, parsed, ranges, done, key);
      if key !in done {
        OfKeysMisses(parsed, KEY, {key});
        NothingToPlan(cfg, parsed, ranges, key);
      }
    }
  }

  /** The loop over the groups, which a Go map yields in any order. */
  method BuildGroups(parsed: seq<ParsedTag>, cfg: Config) returns (ranges: seq<ByteRange>, ghost done: set<Key>)
    ensures Building(cfg, parsed, ranges, done) && forall i :: 0 <= i < |parsed| ==> KEY(parsed[i]) in done
  {
    var groups := GroupBy(parsed, KEY);
    var remaining := groups.Keys;
    ranges, done := [], {};
    BuildingStarts(cfg, parsed);
    while remaining != {}
      invariant done !! remaining && done + remaining == groups.Keys
      invariant Building(cfg, parsed, ranges, done)
      decreases remaining
    {
      var key :| key in remaining;
      ranges := AddGroup(parsed, groups[key], key, cfg, ranges, done);
      remaining, done := remaining - {key}, done + {key};
    }
  }

  /** buildS7ContiguousRanges: for any order in which the groups come up, every parsed tag is placed
      exactly once, in a range of its own area and data block, at its own offset, and no group gets more
      ranges than the limits demand. */
  method BuildRanges(parsed: seq<ParsedTag>, cfg: Config) returns (ranges: seq<ByteRange>)
    ensures Placed(ranges) == multiset(parsed)
    ensures exists keys :: Sound(cfg, keys, ranges)
    ensures AllPlanned(cfg, parsed, ranges)
  {
    ghost var done;
    ranges, done := BuildGroups(parsed, cfg);
    BuildingEnds(cfg, parsed, ranges, done);
  }
}
