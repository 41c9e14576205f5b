/** What the planned ranges are worth: they partition the tags, cover them without wrapping, keep
    holes and sizes within the limits, and are as few as any split within those limits could be. */
module PlanProperties {
  import opened ModbusTypes
  import opened RangePlanner
  import GreedySplit
  import IntervalSplit

  ghost predicate AllEndInTable(s: seq<Tag>) { forall i :: 0 <= i < |s| ==> s[i].EndsInTable() }

  // ----- The uint16 tests mean what they say

  ghost function Intervals(s: seq<Tag>): (r: seq<IntervalSplit.Interval>)
    ensures |r| == |s|
  {
    seq(|s|, i requires 0 <= i < |s| => IntervalSplit.Interval(s[i].address, s[i].address + s[i].count))
  }

  ghost function BoundsOf(lim: Limits): IntervalSplit.Bounds { IntervalSplit.Bounds(lim.maxGap, lim.maxSize, false) }

  /** The last register of the tags s[a..k], as a number. */
  ghost function LastRegister(s: seq<Tag>, a: nat, k: nat): int
    requires a < k <= |s|
  {
    IntervalSplit.MaxEnd(Intervals(s), a, k) - 1
  }

  /** s[k] may join a range that holds s[a..k]: it leaves no hole beyond the limit behind them, and the
      registers from s[a] up to its end are within the size limit. */
  ghost predicate Merges(lim: Limits, s: seq<Tag>, a: nat, k: nat)
    requires a < k < |s|
  {
    IntervalSplit.Merges(BoundsOf(lim), Intervals(s), a, k)
  }

  ghost predicate BlockEndsInTable(s: seq<Tag>, a: nat, k: nat)
    requires k <= |s|
  {
    forall i :: a <= i < k ==> s[i].EndsInTable()
  }

  lemma {:induction false} RangeEndIsLast(s: seq<Tag>, a: nat, k: nat)
    requires a < k <= |s| && BlockEndsInTable(s, a, k)
    ensures RangeOf(s, a, k).end == LastRegister(s, a, k)
  {
    if k > a + 1 {
      RangeEndIsLast(s, a, k - 1);
    }
  }

  lemma {:induction false} LastRegisterBounds(s: seq<Tag>, a: nat, k: nat)
    requires a < k <= |s|
    ensures forall i :: a <= i < k ==> s[i].End() <= LastRegister(s, a, k)
    ensures exists i :: a <= i < k && s[i].End() == LastRegister(s, a, k)
  {
    var intervals := Intervals(s);
    IntervalSplit.MaxEndBounds(intervals, a, k);
    assert forall i :: a <= i < k ==> intervals[i].end == s[i].End() + 1;
  }

  /** s[k] leaves no hole beyond the limit behind s[a..k], and it ends with the last register of the table. */
  ghost predicate EndsTable(lim: Limits, s: seq<Tag>, a: nat, k: nat)
    requires a < k < |s|
  {
    s[k].End() == 65535 && s[k].address - LastRegister(s, a, k) - 1 <= lim.maxGap
  }

  /** The uint16 merge test on tags that end in their table: it wraps in the single case that the range
      starts with the first register of the table and the tag ends with the last. */
  lemma FitsIff(lim: Limits, s: seq<Tag>, a: nat, k: nat)
    requires SortedByAddress(s) && a < k < |s| && BlockEndsInTable(s, a, k + 1)
    ensures Fits(lim, RangeOf(s, a, k), s[k]) <==>
            Merges(lim, s, a, k) || (s[a].address == 0 && EndsTable(lim, s, a, k))
  {
    RangeEndIsLast(s, a, k);
    assert s[a].address <= s[k].address;
    FitsOrWraps(lim, RangeOf(s, a, k), s[k]);
  }

  lemma FitsOrWraps(lim: Limits, r: Range, t: Tag)
    requires t.EndsInTable() && r.start <= t.address
    ensures Fits(lim, r, t) <==>
            t.address - r.end - 1 <= lim.maxGap &&
            (t.End() - r.start + 1 <= lim.maxSize || t.End() - r.start == 65535)
  {
    TagEndIsEnd(t);
    assert 0 <= t.End() - r.start + 1 <= 0x1_0000;
  }

  lemma TagEndIsEnd(t: Tag)
    requires t.EndsInTable()
    ensures TagEnd(t) == t.End()
  {}

  // ----- Blocks and splits

  /** A block of consecutive tags that one read may serve. */
  ghost predicate Feasible(lim: Limits, s: seq<Tag>, a: nat, c: nat) {
    a < c <= |s| && forall k: nat :: a < k < c ==> Merges(lim, s, a, k)
  }

  /** A split of s[a..] into consecutive feasible blocks that end at the given cuts. */
  ghost predicate IsSplit(lim: Limits, s: seq<Tag>, a: nat, cuts: seq<nat>) {
    IntervalSplit.IsSplit(BoundsOf(lim), Intervals(s), a, cuts)
  }

  // ----- Ranges

  /** Register x belongs to a tag, or is at most the gap limit behind one. */
  ghost predicate Served(lim: Limits, tags: seq<Tag>, x: int) {
    exists i :: 0 <= i < |tags| && tags[i].address <= x <= tags[i].End() + lim.maxGap
  }

  ghost predicate Holds(r: Range, t: Tag) { r.start <= t.address && t.End() <= r.end }

  ghost predicate Inside(r: Range) { forall i :: 0 <= i < |r.tags| ==> Holds(r, r.tags[i]) }

  /** The whole table, whose number of registers wraps to zero. */
  predicate Whole(r: Range) { r.start == 0 && r.end == 65535 }

  /** The number of registers from start to end is a uint16. */
  predicate Countable(r: Range) { r.start <= r.end + 1 && !Whole(r) }

  /** A range that one read can serve: it is exactly the span of its tags, each hole inside it is
      within the gap limit, it exceeds the size limit only if one tag by itself is as long, and the
      number of its registers is a uint16. */
  ghost predicate WellFormed(lim: Limits, r: Range) {
    && Inside(r) && Countable(r)
    && (exists i :: 0 <= i < |r.tags| && r.tags[i].address == r.start)
    && (exists i :: 0 <= i < |r.tags| && r.tags[i].End() == r.end)
    && (forall x :: r.start <= x <= r.end ==> Served(lim, r.tags, x))
    && (r.end - r.start + 1 <= lim.maxSize || SpannedByOne(r))
  }

  /** One tag of the range is as long as the range. */
  ghost predicate SpannedByOne(r: Range) {
    exists i :: 0 <= i < |r.tags| && r.tags[i].address == r.start && r.tags[i].End() == r.end
  }

  ghost function TagsOf(ranges: seq<Range>): seq<Tag> {
    if ranges == [] then [] else ranges[0].tags + TagsOf(ranges[1..])
  }

  lemma {:induction false} BlockServes(lim: Limits, s: seq<Tag>, a: nat, k: nat, x: int)
    requires SortedByAddress(s) && Feasible(lim, s, a, k)
    requires s[a].address <= x <= LastRegister(s, a, k)
    ensures exists i :: a <= i < k && s[i].address <= x <= s[i].End() + lim.maxGap
  {
    if k > a + 1 && !(s[k - 1].address <= x <= s[k - 1].End()) {
      if x <= LastRegister(s, a, k - 1) {
        BlockServes(lim, s, a, k - 1, x);
      } else {
        assert Merges(lim, s, a, k - 1);
        LastRegisterBounds(s, a, k - 1);
      }
    }
  }

  lemma BlockServed(lim: Limits, s: seq<Tag>, a: nat, k: nat, x: int)
    requires SortedByAddress(s) && Feasible(lim, s, a, k)
    requires s[a].address <= x <= LastRegister(s, a, k)
    ensures Served(lim, s[a..k], x)
  {
    BlockServes(lim, s, a, k, x);
    var i :| a <= i < k && s[i].address <= x <= s[i].End() + lim.maxGap;
    assert s[a..k][i - a] == s[i];
  }

  lemma BlockIsWellFormed(lim: Limits, s: seq<Tag>, a: nat, k: nat)
    requires SortedByAddress(s) && Feasible(lim, s, a, k) && BlockEndsInTable(s, a, k) && !Whole(RangeOf(s, a, k))
    ensures WellFormed(lim, RangeOf(s, a, k))
  {
    var r := RangeOf(s, a, k);
    RangeEndIsLast(s, a, k);
    LastRegisterBounds(s, a, k);
    assert r.tags[0] == s[a];
    var i :| a <= i < k && s[i].End() == LastRegister(s, a, k);
    assert r.tags[i - a] == s[i];
    forall j | 0 <= j < |r.tags| ensures Holds(r, r.tags[j]) {
      assert r.tags[j] == s[a + j];
    }
    forall x | r.start <= x <= r.end ensures Served(lim, r.tags, x) {
      BlockServed(lim, s, a, k, x);
    }
    if i > a {
      assert Merges(lim, s, a, i);
    } else {
      assert r.tags[0].End() == r.end;
    }
  }

  lemma {:induction false} PlanPartitions(lim: Limits, s: seq<Tag>, a: nat)
    requires a <= |s|
    ensures TagsOf(Plan(lim, s, a)) == s[a..]
    decreases |s| - a
  {
    if a < |s| {
      var b := GrowTo(lim, s, a, a + 1);
      PlanPartitions(lim, s, b);
      assert Plan(lim, s, a)[1..] == Plan(lim, s, b);
      assert s[a..] == s[a..b] + s[b..];
    }
  }

  lemma {:induction false} GrownFits(lim: Limits, s: seq<Tag>, a: nat, k: nat, j: nat)
    requires a < k <= j <= |s| && j < GrowTo(lim, s, a, k)
    ensures Fits(lim, RangeOf(s, a, j), s[j])
    decreases j - k
  {
    if k < j { GrownFits(lim, s, a, k + 1, j); }
  }

  lemma {:induction false} GrowsPast(lim: Limits, s: seq<Tag>, a: nat, k: nat, m: nat)
    requires a < k <= m <= |s| && forall j: nat :: k <= j < m ==> Fits(lim, RangeOf(s, a, j), s[j])
    ensures GrowTo(lim, s, a, k) >= m
    decreases m - k
  {
    if k < m { GrowsPast(lim, s, a, k + 1, m); }
  }

  lemma {:induction false} RangeEndCovers(s: seq<Tag>, a: nat, k: nat, i: nat)
    requires a <= i < k <= |s|
    ensures TagEnd(s[i]) <= RangeOf(s, a, k).end
  {
    if i < k - 1 { RangeEndCovers(s, a, k - 1, i); }
  }

  lemma PlannedBlockIsFeasible(lim: Limits, s: seq<Tag>, a: nat)
    requires SortedByAddress(s) && a < |s|
    requires var b := GrowTo(lim, s, a, a + 1); BlockEndsInTable(s, a, b) && !Whole(RangeOf(s, a, b))
    ensures Feasible(lim, s, a, GrowTo(lim, s, a, a + 1))
  {
    var b := GrowTo(lim, s, a, a + 1);
    forall k: nat | a < k < b ensures Merges(lim, s, a, k) { PlannedTagMerges(lim, s, a, k); }
  }

  lemma PlannedTagMerges(lim: Limits, s: seq<Tag>, a: nat, k: nat)
    requires SortedByAddress(s) && a < k < |s| && k < GrowTo(lim, s, a, a + 1)
    requires var b := GrowTo(lim, s, a, a + 1); BlockEndsInTable(s, a, b) && !Whole(RangeOf(s, a, b))
    ensures Merges(lim, s, a, k)
  {
    RangeEndCovers(s, a, GrowTo(lim, s, a, a + 1), k);
    GrownFits(lim, s, a, a + 1, k);
    TagEndIsEnd(s[k]);
    FitsIff(lim, s, a, k);
  }

  /** A tag without registers at the start of the table makes every range that holds it the whole table. */
  lemma BlankBlockIsWhole(s: seq<Tag>, a: nat, k: nat, i: nat)
    requires SortedByAddress(s) && a <= i < k <= |s| && s[i].BlankStart()
    ensures Whole(RangeOf(s, a, k))
  {
    RangeEndCovers(s, a, k, i);
    assert s[a].address <= s[i].address;
  }

  lemma HeadWellFormedIff(lim: Limits, s: seq<Tag>, a: nat)
    requires SortedByAddress(s) && a < |s|
    ensures var r := RangeOf(s, a, GrowTo(lim, s, a, a + 1));
            WellFormed(lim, r) <==> (forall j :: 0 <= j < |r.tags| ==> r.tags[j].Within()) && !Whole(r)
  {
    var b := GrowTo(lim, s, a, a + 1);
    var r := RangeOf(s, a, b);
    if (forall j :: 0 <= j < |r.tags| ==> r.tags[j].Within()) && !Whole(r) {
      forall k: nat | a <= k < b ensures s[k].EndsInTable() {
        assert r.tags[k - a] == s[k];
        if s[k].BlankStart() { BlankBlockIsWhole(s, a, b, k); }
      }
      PlannedBlockIsFeasible(lim, s, a);
      BlockIsWellFormed(lim, s, a, b);
    } else if WellFormed(lim, r) {
      forall j | 0 <= j < |r.tags| ensures r.tags[j].Within() { assert Holds(r, r.tags[j]); }
    }
  }

  /** A planned range is well formed if and only if none of its tags reaches beyond the table and it is not
      the whole table. */
  lemma {:induction false} PlanWellFormedIff(lim: Limits, s: seq<Tag>, a: nat, i: nat)
    requires SortedByAddress(s) && a <= |s| && i < |Plan(lim, s, a)|
    ensures var r := Plan(lim, s, a)[i];
            WellFormed(lim, r) <==> (forall j :: 0 <= j < |r.tags| ==> r.tags[j].Within()) && !Whole(r)
    decreases i
  {
    var b := GrowTo(lim, s, a, a + 1);
    if i == 0 {
      HeadWellFormedIff(lim, s, a);
    } else {
      PlanWellFormedIff(lim, s, b, i - 1);
    }
  }

  // ----- Ranges that hold their tags

  lemma RangeIsInsideIff(s: seq<Tag>, a: nat, k: nat)
    requires SortedByAddress(s) && a < k <= |s|
    ensures Inside(RangeOf(s, a, k)) <==> forall i :: a <= i < k ==> s[i].Within()
  {
    var r := RangeOf(s, a, k);
    forall i: nat | a <= i < k
      ensures Holds(r, s[i]) <==> s[i].Within()
    {
      RangeEndCovers(s, a, k, i);
    }
    assert forall i :: a <= i < k ==> r.tags[i - a] == s[i];
  }

  /** Every range of the plan spans its tags if and only if no tag reaches beyond the table. (That does not
      mean that it can be read: see PlanIsSoundIff.) */
  lemma {:induction false} PlanHoldsIff(lim: Limits, s: seq<Tag>, a: nat)
    requires SortedByAddress(s) && a <= |s|
    ensures (forall i :: 0 <= i < |Plan(lim, s, a)| ==> Inside(Plan(lim, s, a)[i])) <==>
            (forall j :: a <= j < |s| ==> s[j].Within())
    decreases |s| - a
  {
    if a < |s| {
      var b := GrowTo(lim, s, a, a + 1);
      RangeIsInsideIff(s, a, b);
      PlanHoldsIff(lim, s, b);
      var (plan, rest) := (Plan(lim, s, a), Plan(lim, s, b));
      assert plan[0] == RangeOf(s, a, b) && plan[1..] == rest;
      assert forall i :: 1 <= i < |plan| ==> plan[i] == rest[i - 1];
      assert forall i :: 0 <= i < |rest| ==> rest[i] == plan[i + 1];
    }
  }

  // ----- When a range is the whole table

  /** The tags from s[a], at register 0, merge without a wrap until s[k] completes the table. */
  ghost predicate CompletesTable(lim: Limits, s: seq<Tag>, a: nat, k: nat) {
    a < k < |s| && Feasible(lim, s, a, k) && s[a].address == 0 && EndsTable(lim, s, a, k)
  }

  /** In a plan of s[b..], a tag at register 0 opens a range if it is the first or too wide to join another. */
  ghost predicate Opens(lim: Limits, s: seq<Tag>, b: nat, a: nat) {
    b <= a < |s| && (a == b || s[a].count > lim.maxSize)
  }

  /** The tags s[b..] contain a range that is the whole table. */
  ghost predicate FillsTable(lim: Limits, s: seq<Tag>, b: nat) {
    exists a: nat, k: nat :: Opens(lim, s, b, a) && CompletesTable(lim, s, a, k)
  }

  lemma {:induction false} FirstToEnd(s: seq<Tag>, a: nat, i: nat) returns (k: nat)
    requires a <= i < |s| && s[i].End() == 65535
    ensures a <= k <= i && s[k].End() == 65535 && forall j :: a <= j < k ==> s[j].End() != 65535
    decreases i
  {
    if j: int :| a <= j < i && s[j].End() == 65535 { k := FirstToEnd(s, a, j); } else { k := i; }
  }

  lemma WholeHeadIsCompleted(lim: Limits, s: seq<Tag>, a: nat)
    requires SortedByAddress(s) && AllEndInTable(s) && a < |s| && Whole(RangeOf(s, a, GrowTo(lim, s, a, a + 1)))
    ensures exists k: nat :: CompletesTable(lim, s, a, k)
  {
    var b := GrowTo(lim, s, a, a + 1);
    RangeEndIsLast(s, a, b);
    LastRegisterBounds(s, a, b);
    var i: nat :| a <= i < b && s[i].End() == LastRegister(s, a, b);
    var k := FirstToEnd(s, a, i);
    forall j: nat | a < j <= k
      ensures Merges(lim, s, a, j) || EndsTable(lim, s, a, j)
    {
      GrownFits(lim, s, a, a + 1, j);
      FitsIff(lim, s, a, j);
    }
    assert CompletesTable(lim, s, a, k);
  }

  lemma CompletedHeadIsWhole(lim: Limits, s: seq<Tag>, a: nat, k: nat)
    requires SortedByAddress(s) && AllEndInTable(s) && CompletesTable(lim, s, a, k)
    ensures Whole(RangeOf(s, a, GrowTo(lim, s, a, a + 1)))
  {
    forall j: nat | a + 1 <= j < k + 1 ensures Fits(lim, RangeOf(s, a, j), s[j]) { FitsOnTheWay(lim, s, a, k, j); }
    GrowsPast(lim, s, a, a + 1, k + 1);
    RangeEndCovers(s, a, GrowTo(lim, s, a, a + 1), k);
    TagEndIsEnd(s[k]);
  }

  lemma FitsOnTheWay(lim: Limits, s: seq<Tag>, a: nat, k: nat, j: nat)
    requires SortedByAddress(s) && AllEndInTable(s) && CompletesTable(lim, s, a, k) && a < j <= k
    ensures Fits(lim, RangeOf(s, a, j), s[j])
  {
    FitsIff(lim, s, a, j);
    if j < k { assert Merges(lim, s, a, j); }
  }

  /** A range that the rest of the plan makes the whole table starts at a tag that is too wide to have been
      merged into the first range. */
  lemma FillsTableLater(lim: Limits, s: seq<Tag>, b: nat)
    requires SortedByAddress(s) && AllEndInTable(s) && b < |s| && FillsTable(lim, s, GrowTo(lim, s, b, b + 1))
    ensures FillsTable(lim, s, b)
  {
    var t := GrowTo(lim, s, b, b + 1);
    var a: nat, k: nat :| Opens(lim, s, t, a) && CompletesTable(lim, s, a, k);
    if a == t {
      NotGrown(lim, s, b, b + 1);
      FitsIff(lim, s, b, t);
      LastRegisterBounds(s, b, t);
      assert s[b].address <= s[t].address && s[b].End() <= LastRegister(s, b, t);
    }
    assert Opens(lim, s, b, a);
  }

  lemma {:induction false} NotGrown(lim: Limits, s: seq<Tag>, a: nat, k: nat)
    requires a < k <= |s|
    ensures var b := GrowTo(lim, s, a, k); b < |s| ==> !Fits(lim, RangeOf(s, a, b), s[b])
    decreases |s| - k
  {
    if k < |s| && Fits(lim, RangeOf(s, a, k), s[k]) { NotGrown(lim, s, a, k + 1); }
  }

  lemma FillsTableNow(lim: Limits, s: seq<Tag>, b: nat)
    requires SortedByAddress(s) && AllEndInTable(s) && b < |s| && FillsTable(lim, s, b)
    ensures Whole(RangeOf(s, b, GrowTo(lim, s, b, b + 1))) || FillsTable(lim, s, GrowTo(lim, s, b, b + 1))
  {
    var t := GrowTo(lim, s, b, b + 1);
    var a: nat, k: nat :| Opens(lim, s, b, a) && CompletesTable(lim, s, a, k);
    if a == b {
      CompletedHeadIsWhole(lim, s, b, k);
    } else {
      assert s[b].address <= s[a].address;
      if a < t {
        GrownFits(lim, s, b, b + 1, a);
        FitsIff(lim, s, b, a);
        assert false;
      }
      assert Opens(lim, s, t, a);
    }
  }

  ghost predicate SomeWhole(ranges: seq<Range>) { exists i :: 0 <= i < |ranges| && Whole(ranges[i]) }

  lemma SomeWholeOf(head: Range, rest: seq<Range>)
    ensures SomeWhole([head] + rest) <==> Whole(head) || SomeWhole(rest)
  {
    var ranges := [head] + rest;
    assert ranges[0] == head && forall i :: 0 <= i < |rest| ==> ranges[i + 1] == rest[i];
    assert forall i :: 0 < i < |ranges| ==> rest[i - 1] == ranges[i];
  }

  /** Whether some planned range is the whole table can be read off the sorted tags. */
  lemma {:induction false} WholeRangeIff(lim: Limits, s: seq<Tag>, b: nat)
    requires SortedByAddress(s) && AllEndInTable(s) && b <= |s|
    ensures SomeWhole(Plan(lim, s, b)) <==> FillsTable(lim, s, b)
    decreases |s| - b
  {
    if b < |s| {
      var t := GrowTo(lim, s, b, b + 1);
      SomeWholeOf(RangeOf(s, b, t), Plan(lim, s, t));
      WholeRangeIff(lim, s, t);
      if FillsTable(lim, s, b) { FillsTableNow(lim, s, b); }
      if FillsTable(lim, s, t) { FillsTableLater(lim, s, b); }
      if Whole(RangeOf(s, b, t)) {
        WholeHeadIsCompleted(lim, s, b);
        assert Opens(lim, s, b, b);
      }
    }
  }

  // ----- Sound plans

  /** The sorted tags can be planned: their ends do not wrap, and no range of theirs is the whole table. */
  ghost predicate Plannable(lim: Limits, s: seq<Tag>) { AllEndInTable(s) && !FillsTable(lim, s, 0) }

  lemma SortedTagsAreTags(tags: seq<Tag>)
    ensures forall t :: t in StablySorted(tags) <==> t in tags
  {
    SortIsStable(tags, 0);
    forall t
      ensures t in StablySorted(tags) <==> t in tags
    {
      assert t in multiset(StablySorted(tags)) <==> t in multiset(tags);
    }
  }

  /** Where tag j of the plan is, and what its range covers. */
  lemma {:induction false} PlannedTag(lim: Limits, s: seq<Tag>, a: nat, j: nat) returns (i: nat)
    requires a <= j < |s|
    ensures i < |Plan(lim, s, a)| && s[j] in Plan(lim, s, a)[i].tags
    ensures SortedByAddress(s) ==> Plan(lim, s, a)[i].start <= s[j].address && TagEnd(s[j]) <= Plan(lim, s, a)[i].end
    decreases |s| - a
  {
    var b := GrowTo(lim, s, a, a + 1);
    if j < b {
      i := 0;
      RangeEndCovers(s, a, b, j);
      assert s[a..b][j - a] == s[j];
    } else {
      i := PlannedTag(lim, s, b, j);
      i := i + 1;
    }
  }

  lemma {:induction false} PlannedFrom(lim: Limits, s: seq<Tag>, a: nat, i: nat, t: Tag)
    requires a <= |s| && i < |Plan(lim, s, a)| && t in Plan(lim, s, a)[i].tags
    ensures t in s
    decreases i
  {
    if i > 0 { PlannedFrom(lim, s, GrowTo(lim, s, a, a + 1), i - 1, t); }
  }

  lemma SortedIsPlannable(lim: Limits, s: seq<Tag>)
    requires SortedByAddress(s) && forall i :: 0 <= i < |Plan(lim, s, 0)| ==> WellFormed(lim, Plan(lim, s, 0)[i])
    ensures Plannable(lim, s)
  {
    forall j: nat | j < |s| ensures s[j].EndsInTable() { WellPlannedTag(lim, s, j); }
    WholeRangeIff(lim, s, 0);
  }

  lemma WellPlannedTag(lim: Limits, s: seq<Tag>, j: nat)
    requires SortedByAddress(s) && forall i :: 0 <= i < |Plan(lim, s, 0)| ==> WellFormed(lim, Plan(lim, s, 0)[i])
    requires j < |s|
    ensures s[j].EndsInTable()
  {
    var i := PlannedTag(lim, s, 0, j);
    var r := Plan(lim, s, 0)[i];
    assert WellFormed(lim, r);
    var k: nat :| k < |r.tags| && r.tags[k] == s[j];
    assert Holds(r, s[j]);
    BlankEnd(s[j]);
  }

  lemma BlankEnd(t: Tag)
    ensures t.BlankStart() ==> TagEnd(t) == 65535 && t.address == 0
  {}

  lemma PlannableIsPlanned(lim: Limits, s: seq<Tag>, i: nat)
    requires SortedByAddress(s) && Plannable(lim, s) && i < |Plan(lim, s, 0)|
    ensures WellFormed(lim, Plan(lim, s, 0)[i])
  {
    var r := Plan(lim, s, 0)[i];
    forall j | 0 <= j < |r.tags|
      ensures r.tags[j].Within()
    {
      PlannedFrom(lim, s, 0, i, r.tags[j]);
    }
    WholeRangeIff(lim, s, 0);
    PlanWellFormedIff(lim, s, 0, i);
  }

  /** The plan always partitions the tags. All of its ranges are well formed if and only if the tags, sorted,
      are plannable. */
  lemma PlanIsSoundIff(lim: Limits, tags: seq<Tag>)
    ensures var ranges := Plan(lim, StablySorted(tags), 0);
            && multiset(TagsOf(ranges)) == multiset(tags)
            && ((forall i :: 0 <= i < |ranges| ==> WellFormed(lim, ranges[i])) <==>
                Plannable(lim, StablySorted(tags)))
  {
    SortIsStable(tags, 0);
    var s := StablySorted(tags);
    PlanPartitions(lim, s, 0);
    assert s[0..] == s;
    var ranges := Plan(lim, s, 0);
    if Plannable(lim, s) {
      forall i: nat | i < |ranges| ensures WellFormed(lim, ranges[i]) { PlannableIsPlanned(lim, s, i); }
    }
    if forall i :: 0 <= i < |ranges| ==> WellFormed(lim, ranges[i]) {
      SortedIsPlannable(lim, s);
    }
  }

  /** Tags that leave out the last register of the table are plannable, overlapping or without registers. */
  ghost predicate EndBeforeLast(tags: seq<Tag>) {
    forall t :: t in tags ==> 1 <= t.address + t.count <= 65535
  }

  /** So are tags of which no two, with the size limit and a gap between them, could span the table. All
      tags within the protocol limits on register and coil counts are such tags. */
  ghost predicate NoWiderThan(tags: seq<Tag>, m: nat) {
    forall t :: t in tags ==> t.EndsInTable() && t.count <= m
  }

  lemma EndBeforeLastIsPlannable(lim: Limits, tags: seq<Tag>)
    requires EndBeforeLast(tags)
    ensures Plannable(lim, StablySorted(tags))
  {
    SortedTagsAreTags(tags);
    var s := StablySorted(tags);
    assert forall i :: 0 <= i < |s| ==> s[i] in tags;
  }

  lemma NarrowIsPlannable(lim: Limits, tags: seq<Tag>, m: nat)
    requires NoWiderThan(tags, m) && lim.maxSize <= m && 2 * m + lim.maxGap < 0x1_0000
    ensures Plannable(lim, StablySorted(tags))
  {
    SortedTagsAreTags(tags);
    var s := StablySorted(tags);
    assert forall i :: 0 <= i < |s| ==> s[i] in tags;
    forall a: nat, k: nat
      ensures !CompletesTable(lim, s, a, k)
    {
      if CompletesTable(lim, s, a, k) { NarrowBlock(lim, s, a, k, m); }
    }
  }

  lemma NarrowBlock(lim: Limits, s: seq<Tag>, a: nat, k: nat, m: nat)
    requires Feasible(lim, s, a, k) && s[a].address == 0 && s[a].count <= m && lim.maxSize <= m
    ensures LastRegister(s, a, k) < m
  {
    LastRegisterBounds(s, a, k);
    var i: nat :| a <= i < k && s[i].End() == LastRegister(s, a, k);
    assert i > a ==> Merges(lim, s, a, i);
  }

  /** What the protocol limits let through is always planned well. */
  lemma PlanIsSound(lim: Limits, tags: seq<Tag>)
    requires EndBeforeLast(tags)
    ensures var ranges := Plan(lim, StablySorted(tags), 0);
            && multiset(TagsOf(ranges)) == multiset(tags)
            && forall i :: 0 <= i < |ranges| ==> WellFormed(lim, ranges[i])
  {
    EndBeforeLastIsPlannable(lim, tags);
    PlanIsSoundIff(lim, tags);
  }

  // ----- Tags that cannot be planned

  /** An instance: this tag at register 5 claims 65535 registers, its end wraps to 3, and it is merged
      into a range that does not hold it. */
  lemma UnaddressableTagEscapesItsRange(small: Tag, wide: Tag)
    requires small.address == 0 && small.count == 1 && wide.address == 5 && wide.count == 65535
    ensures Plan(REGISTER_LIMITS, StablySorted([small, wide]), 0) == [Range(0, 3, [small, wide])]
  {
    assert Fits(REGISTER_LIMITS, Open(small), wide);
    PlanOfTwo(REGISTER_LIMITS, small, wide);
  }

  lemma PlanOfTwo(lim: Limits, t: Tag, u: Tag)
    requires t.address <= u.address && Fits(lim, Open(t), u)
    ensures Plan(lim, StablySorted([t, u]), 0) == [Extend(Open(t), u)]
    ensures Extend(Open(t), u) == Range(t.address, if TagEnd(u) > TagEnd(t) then TagEnd(u) else TagEnd(t), [t, u])
  {
    assert [t, u][..1] == [t];
    assert StablySorted([t]) == [t] by { assert [t][..0] == []; }
    var s := StablySorted([t, u]);
    assert s == [t, u];
    assert RangeOf(s, 0, 1) == Open(t);
    assert RangeOf(s, 0, 2) == Extend(Open(t), u);
    assert GrowTo(lim, s, 0, 1) == GrowTo(lim, s, 0, 2) == 2;
  }

  /** Another: all tags exist, but together they are the whole table, whose size wraps to zero, so that it
      passes the size test. */
  lemma WholeTableIsMerged(first: Tag, others: Tag)
    requires first.address == 0 && first.count == 1 && others.address == 1 && others.count == 65535
    ensures Plan(REGISTER_LIMITS, StablySorted([first, others]), 0) == [Range(0, 65535, [first, others])]
  {
    assert Fits(REGISTER_LIMITS, Open(first), others);
    PlanOfTwo(REGISTER_LIMITS, first, others);
  }

  /** A tag without registers at register 0, which is what a tag message without a register count and an
      address gives, has 65535 for its last register. Whatever it is planned with is a range that is the
      whole table. */
  lemma BlankTagFillsTable(lim: Limits, tags: seq<Tag>, blank: Tag) returns (i: nat)
    requires blank in tags && blank.BlankStart()
    ensures var ranges := Plan(lim, StablySorted(tags), 0); i < |ranges| && blank in ranges[i].tags && Whole(ranges[i])
  {
    i := TagIsPlanned(lim, tags, blank);
    BlankEnd(blank);
  }

  lemma TagIsPlanned(lim: Limits, tags: seq<Tag>, t: Tag) returns (i: nat)
    requires t in tags
    ensures var ranges := Plan(lim, StablySorted(tags), 0);
            i < |ranges| && t in ranges[i].tags && ranges[i].start <= t.address && TagEnd(t) <= ranges[i].end
  {
    SortIsStable(tags, 0);
    SortedTagsAreTags(tags);
    var s := StablySorted(tags);
    var j: nat :| j < |s| && s[j] == t;
    i := PlannedTag(lim, s, 0, j);
  }

  /** An instance: it takes in any tag of the first registers, up to the size limit. */
  lemma BlankTagTakesOthersIn(lim: Limits, blank: Tag, t: Tag)
    requires blank.BlankStart() && 1 <= t.address + t.count <= lim.maxSize
    ensures Plan(lim, StablySorted([blank, t]), 0) == [Range(0, 65535, [blank, t])]
  {
    assert TagEnd(t) == t.End() && TagEnd(blank) == 65535;
    PlanOfTwo(lim, blank, t);
  }

  // ----- The plan needs the fewest reads

  lemma IntervalsAreSorted(s: seq<Tag>)
    requires SortedByAddress(s)
    ensures IntervalSplit.Sorted(Intervals(s))
  {}

  /** In such a plan the uint16 merge test is the exact one. */
  lemma FitsIsMerges(lim: Limits, s: seq<Tag>, a: nat, k: nat)
    requires AllEndInTable(s) && SortedByAddress(s) && !FillsTable(lim, s, a) && Feasible(lim, s, a, k) && k < |s|
    ensures Fits(lim, RangeOf(s, a, k), s[k]) <==> Merges(lim, s, a, k)
  {
    FitsIff(lim, s, a, k);
    assert !CompletesTable(lim, s, a, k) by { assert Opens(lim, s, a, a); }
  }

  lemma JoinsIff(lim: Limits, s: seq<Tag>, a: nat, k: nat)
    requires a < k < |s|
    ensures IntervalSplit.JoinsOf(BoundsOf(lim), Intervals(s))(a, k) <==> Merges(lim, s, a, k)
  {}

  lemma GrowOneMore(joins: GreedySplit.Joins, n: nat, a: nat, k: nat)
    requires a < k < n
    ensures GreedySplit.GrowTo(joins, n, a, k) == if joins(a, k) then GreedySplit.GrowTo(joins, n, a, k + 1) else k
  {}

  lemma {:induction false} GrowsGreedily(lim: Limits, s: seq<Tag>, joins: GreedySplit.Joins, a: nat, k: nat)
    requires AllEndInTable(s) && SortedByAddress(s) && !FillsTable(lim, s, a) && Feasible(lim, s, a, k)
    requires joins == IntervalSplit.JoinsOf(BoundsOf(lim), Intervals(s))
    ensures GrowTo(lim, s, a, k) == GreedySplit.GrowTo(joins, |s|, a, k)
    decreases |s| - k
  {
    if k < |s| {
      FitsIsMerges(lim, s, a, k);
      JoinsIff(lim, s, a, k);
      GrowOneMore(joins, |s|, a, k);
      if Merges(lim, s, a, k) { GrowsGreedily(lim, s, joins, a, k + 1); }
    }
  }

  lemma {:induction false} PlanIsGreedy(lim: Limits, s: seq<Tag>, a: nat)
    requires AllEndInTable(s) && SortedByAddress(s) && a <= |s| && !FillsTable(lim, s, a)
    ensures |Plan(lim, s, a)| == IntervalSplit.Blocks(BoundsOf(lim), Intervals(s), a)
    decreases |s| - a
  {
    if a < |s| {
      var b := GrowTo(lim, s, a, a + 1);
      GrowsGreedily(lim, s, IntervalSplit.JoinsOf(BoundsOf(lim), Intervals(s)), a, a + 1);
      if FillsTable(lim, s, b) { FillsTableLater(lim, s, a); }
      PlanIsGreedy(lim, s, b);
    }
  }

  /** The plan is itself such a split, one read per block. */
  lemma PlanIsSplit(lim: Limits, s: seq<Tag>)
    requires SortedByAddress(s) && Plannable(lim, s)
    ensures exists cuts :: IsSplit(lim, s, 0, cuts) && |cuts| == |Plan(lim, s, 0)|
  {
    var joins := IntervalSplit.JoinsOf(BoundsOf(lim), Intervals(s));
    PlanIsGreedy(lim, s, 0);
    GreedySplit.GreedyIsSplit(joins, |s|, 0);
    assert IsSplit(lim, s, 0, GreedySplit.Cuts(joins, |s|, 0));
  }

  /** No split of the sorted tags into consecutive blocks within the limits needs fewer reads than the plan.
      Overlapping tags, tags without registers and tags that are wider than the limit are included. */
  lemma PlanIsFewest(lim: Limits, tags: seq<Tag>, cuts: seq<nat>)
    requires Plannable(lim, StablySorted(tags)) && IsSplit(lim, StablySorted(tags), 0, cuts)
    ensures |Plan(lim, StablySorted(tags), 0)| <= |cuts|
  {
    var s := StablySorted(tags);
    SortIsStable(tags, 0);
    IntervalsAreSorted(s);
    PlanIsGreedy(lim, s, 0);
    IntervalSplit.GreedyIsFewest(BoundsOf(lim), Intervals(s), cuts);
  }
}
