/** Reading the tags of one register type: plan ranges, read them one after the other, and put together
    the data points, whatever fails on the way (readTagGroup and readCoilGroupBatched). */
module GroupRead {
  import opened Wrappers
  import opened ModbusTypes
  import opened Conversion
  import opened RangePlanner
  import opened PlanProperties
  import opened RegisterRead
  import CoilRead
  import IntervalSplit

  /** The four tables of a Modbus device; and of the n-th range that is read of a table, whether the device
      answers and whether the context is found cancelled before. */
  datatype Device = Device(
    holding: Memory,
    input: Memory,
    coils: CoilRead.Coils,
    discrete: CoilRead.Coils,
    answers: (RegisterType, nat) -> bool,
    cancelled: (RegisterType, nat) -> bool
  )

  /** A call that returns, or panics. */
  datatype Run<+T> = Done(value: T) | Panicked

  predicate HasBits(t: RegisterType) { t.Coil? || t.DiscreteInput? }

  predicate HasRegisters(t: RegisterType) { t.HoldingRegister? || t.InputRegister? }

  function Registers(dev: Device, t: RegisterType): Memory { if t.InputRegister? then dev.input else dev.holding }

  function Bits(dev: Device, t: RegisterType): CoilRead.Coils { if t.DiscreteInput? then dev.discrete else dev.coils }

  /** What ReadTag returns for the tag when the device answers. */
  function ReadAlone(dev: Device, t: Tag): Outcome<Value> {
    if t.IsBit() then CoilRead.Alone(Bits(dev, t.registerType), t)
    else if HasRegisters(t.registerType) then Alone(Registers(dev, t.registerType), t)
    else Err(if t.LimitError().Some? then t.LimitError().value else InvalidRegisterType)
  }

  ghost function TagsIn(points: seq<Point>): (r: seq<Tag>)
    ensures |r| == |points|
  {
    seq(|points|, i requires 0 <= i < |points| => points[i].tag)
  }

  /** Tags of one register type. */
  ghost predicate SameType(tags: seq<Tag>, t: RegisterType) {
    forall k :: 0 <= k < |tags| ==> tags[k].registerType == t
  }

  // ----- One range

  function Errors(tags: seq<Tag>, error: Error): (r: seq<Point>)
    ensures |r| == |tags|
  {
    seq(|tags|, i requires 0 <= i < |tags| => Point(tags[i], Err(error)))
  }

  function Paired(tags: seq<Tag>, values: seq<Outcome<Value>>): (r: seq<Point>)
    requires |values| == |tags|
    ensures |r| == |tags|
  {
    seq(|tags|, i requires 0 <= i < |tags| => Point(tags[i], values[i]))
  }

  /** The points of one range. Decoding a register tag that is too small for its type panics. */
  function RangeRun(dev: Device, r: Range, t: RegisterType, answers: bool): Run<seq<Point>> {
    if HasBits(t) then
      var res := CoilRead.CoilsRead(Bits(dev, t), answers, r, t);
      Done(if res.Ok? then Paired(r.tags, res.value) else Errors(r.tags, res.error))
    else
      var res := RegistersRead(Registers(dev, t), answers, r, t);
      if res == Err(OutOfBounds) then Panicked
      else Done(if res.Ok? then res.value else Errors(r.tags, res.error))
  }

  method ErrorPoints(tags: seq<Tag>, error: Error) returns (points: seq<Point>)
    ensures points == Errors(tags, error)
  {
    points := [];
    for i := 0 to |tags|
      invariant |points| == i
      invariant forall k :: 0 <= k < i ==> points[k] == Point(tags[k], Err(error))
    {
      points := points + [Point(tags[i], Err(error))];
    }
  }

  /** readRegisterRange or readCoilRange for one range, with error points for a failed read. */
  method ReadRange(dev: Device, r: Range, t: RegisterType, answers: bool) returns (run: Run<seq<Point>>)
    ensures run == RangeRun(dev, r, t, answers)
  {
    var points;
    if HasBits(t) {
      var values := CoilRead.ReadCoilRange(Bits(dev, t), answers, r, t);
      if values.Ok? {
        return Done(Paired(r.tags, values.value));
      }
      points := ErrorPoints(r.tags, values.error);
    } else {
      var read := ReadRegisterRange(Registers(dev, t), answers, r, t);
      if read.Ok? {
        return Done(read.value);
      }
      if read.error == OutOfBounds {
        return Panicked;
      }
      points := ErrorPoints(r.tags, read.error);
    }
    run := Done(points);
  }

  // ----- The loop over the ranges

  datatype LoopRun = All(points: seq<Point>) | CutOff | Crashed

  function RunAt(dev: Device, ranges: seq<Range>, t: RegisterType, i: nat): Run<seq<Point>>
    requires i < |ranges|
  {
    RangeRun(dev, ranges[i], t, dev.answers(t, i))
  }

  /** The loop from range i on. Before each range the context may turn out to be cancelled. */
  function RangesRun(dev: Device, ranges: seq<Range>, t: RegisterType, i: nat): LoopRun
    requires i <= |ranges|
    decreases |ranges| - i
  {
    if i == |ranges| then All([])
    else if dev.cancelled(t, i) then CutOff
    else
      var run := RunAt(dev, ranges, t, i);
      if run.Panicked? then Crashed else Behind(run.value, RangesRun(dev, ranges, t, i + 1))
  }

  function Behind(points: seq<Point>, run: LoopRun): LoopRun {
    if run.All? then All(points + run.points) else run
  }

  lemma BehindTwice(p: seq<Point>, q: seq<Point>, run: LoopRun)
    ensures Behind(p, Behind(q, run)) == Behind(p + q, run)
  {
    if run.All? { assert p + (q + run.points) == p + q + run.points; }
  }

  method ReadRanges(dev: Device, ranges: seq<Range>, t: RegisterType) returns (run: LoopRun)
    ensures run == RangesRun(dev, ranges, t, 0)
  {
    var points: seq<Point> := [];
    assert Behind([], RangesRun(dev, ranges, t, 0)) == RangesRun(dev, ranges, t, 0);
    for i := 0 to |ranges|
      invariant RangesRun(dev, ranges, t, 0) == Behind(points, RangesRun(dev, ranges, t, i))
    {
      if dev.cancelled(t, i) {
        return CutOff;
      }
      var rangeRun := ReadRange(dev, ranges[i], t, dev.answers(t, i));
      if rangeRun.Panicked? {
        return Crashed;
      }
      BehindTwice(points, rangeRun.value, RangesRun(dev, ranges, t, i + 1));
      points := points + rangeRun.value;
    }
    assert points + [] == points;
    run := All(points);
  }

  // ----- One group

  function LimitsOf(t: RegisterType): Limits { if HasBits(t) then COIL_LIMITS else REGISTER_LIMITS }

  function RangesOf(group: seq<Tag>, t: RegisterType): seq<Range> { Plan(LimitsOf(t), StablySorted(group), 0) }

  /** The points of a group. If it is cut off, ReadTags replaces them by error points for all of its tags. */
  function GroupRun(dev: Device, group: seq<Tag>, t: RegisterType): Run<seq<Point>> {
    match RangesRun(dev, RangesOf(group, t), t, 0)
    case All(points) => Done(points)
    case CutOff => Done(Errors(group, Cancelled))
    case Crashed => Panicked
  }

  method ReadTagGroup(dev: Device, group: seq<Tag>) returns (run: LoopRun)
    requires group != [] && SameType(group, group[0].registerType)
    ensures run == RangesRun(dev, RangesOf(group, group[0].registerType), group[0].registerType, 0)
  {
    var t := group[0].registerType;
    var ranges := BuildRanges(group, LimitsOf(t));
    run := ReadRanges(dev, ranges, t);
  }

  /** One turn of ReadTags' loop. */
  method ReadGroupOrErrors(dev: Device, group: seq<Tag>) returns (run: Run<seq<Point>>)
    requires group != [] && SameType(group, group[0].registerType)
    ensures run == GroupRun(dev, group, group[0].registerType)
  {
    var loopRun := ReadTagGroup(dev, group);
    match loopRun
    case All(points) => run := Done(points);
    case CutOff =>
      var points := ErrorPoints(group, Cancelled);
      run := Done(points);
    case Crashed => run := Panicked;
  }

  // ----- Every tag gets its point

  lemma RangeRunTags(dev: Device, r: Range, t: RegisterType, answers: bool)
    ensures RangeRun(dev, r, t, answers).Done? ==> TagsIn(RangeRun(dev, r, t, answers).value) == r.tags
  {
  }

  lemma {:induction false} RangesRunTags(dev: Device, ranges: seq<Range>, t: RegisterType, i: nat)
    requires i <= |ranges|
    ensures RangesRun(dev, ranges, t, i).All? ==>
              TagsIn(RangesRun(dev, ranges, t, i).points) == TagsOf(ranges[i..])
    decreases |ranges| - i
  {
    if i < |ranges| && RangesRun(dev, ranges, t, i).All? {
      RangeRunTags(dev, ranges[i], t, dev.answers(t, i));
      RangesRunTags(dev, ranges, t, i + 1);
      TagsInBoth(RunAt(dev, ranges, t, i).value, RangesRun(dev, ranges, t, i + 1).points);
      TagsOfRest(ranges, i);
    }
  }

  lemma TagsInBoth(p: seq<Point>, q: seq<Point>)
    ensures TagsIn(p + q) == TagsIn(p) + TagsIn(q)
  {
  }

  lemma TagsOfRest(ranges: seq<Range>, i: nat)
    requires i < |ranges|
    ensures TagsOf(ranges[i..]) == ranges[i].tags + TagsOf(ranges[i + 1..])
  {
    assert ranges[i..][0] == ranges[i] && ranges[i..][1..] == ranges[i + 1..];
  }

  lemma ErrorTags(tags: seq<Tag>, error: Error)
    ensures TagsIn(Errors(tags, error)) == tags
  {
  }

  /** A group that does not crash yields exactly one point for each of its tags. */
  lemma GroupRunTags(dev: Device, group: seq<Tag>, t: RegisterType)
    ensures GroupRun(dev, group, t).Done? ==> multiset(TagsIn(GroupRun(dev, group, t).value)) == multiset(group)
  {
    var ranges := RangesOf(group, t);
    if RangesRun(dev, ranges, t, 0).All? {
      RangesRunTags(dev, ranges, t, 0);
      assert ranges[0..] == ranges;
      PlanIsSoundIff(LimitsOf(t), group);
    } else {
      ErrorTags(group, Cancelled);
    }
  }

  // ----- When a group crashes

  /** Some tag of the range lies in the response and is too small for its type. */
  predicate Crashable(r: Range) {
    exists j :: 0 <= j < |r.tags| && InBuffer(2 * RegisterCount(r), r.start, r.tags[j]) && Undersized(r.tags[j])
  }

  lemma RangeCrashesIff(dev: Device, r: Range, t: RegisterType, answers: bool)
    requires SameType(r.tags, t)
    ensures RangeRun(dev, r, t, answers).Panicked? <==> HasRegisters(t) && answers && Crashable(r)
  {
    if HasRegisters(t) {
      CrashesIff(RegisterBytes(Registers(dev, t), r.start, RegisterCount(r)), r.start, r.tags);
    }
  }

  lemma {:induction false} NoCrash(dev: Device, ranges: seq<Range>, t: RegisterType, i: nat)
    requires i <= |ranges| && forall k: nat :: i <= k < |ranges| ==> !RunAt(dev, ranges, t, k).Panicked?
    ensures !RangesRun(dev, ranges, t, i).Crashed?
    decreases |ranges| - i
  {
    if i < |ranges| { NoCrash(dev, ranges, t, i + 1); }
  }

  lemma {:induction false} SomeCrash(dev: Device, ranges: seq<Range>, t: RegisterType, i: nat, k: nat)
    requires i <= k < |ranges| && RunAt(dev, ranges, t, k).Panicked? && forall n :: !dev.cancelled(t, n)
    ensures RangesRun(dev, ranges, t, i).Crashed?
    decreases k - i
  {
    if i < k { SomeCrash(dev, ranges, t, i + 1, k); }
  }

  /** The device that answers everything with zeros. */
  function Obliging(): Device {
    Device(_ => 0, _ => 0, _ => false, _ => false, (_, _) => true, (_, _) => false)
  }

  lemma PlannedTypes(group: seq<Tag>, t: RegisterType, i: nat)
    requires SameType(group, t) && i < |RangesOf(group, t)|
    ensures SameType(RangesOf(group, t)[i].tags, t)
  {
    SortedTagsAreTags(group);
    var r := RangesOf(group, t)[i];
    forall j | 0 <= j < |r.tags|
      ensures r.tags[j].registerType == t
    {
      PlannedFrom(LimitsOf(t), StablySorted(group), 0, i, r.tags[j]);
    }
  }

  ghost predicate NoneCrashable(group: seq<Tag>, t: RegisterType) {
    HasRegisters(t) ==> forall i :: 0 <= i < |RangesOf(group, t)| ==> !Crashable(RangesOf(group, t)[i])
  }

  lemma SafeGroupCompletes(dev: Device, group: seq<Tag>, t: RegisterType)
    requires SameType(group, t) && NoneCrashable(group, t)
    ensures GroupRun(dev, group, t).Done?
  {
    var ranges := RangesOf(group, t);
    forall i: nat | i < |ranges|
      ensures !RunAt(dev, ranges, t, i).Panicked?
    {
      PlannedTypes(group, t, i);
      RangeCrashesIff(dev, ranges[i], t, dev.answers(t, i));
    }
    NoCrash(dev, ranges, t, 0);
  }

  lemma CrashableGroupPanics(group: seq<Tag>, t: RegisterType)
    requires SameType(group, t) && !NoneCrashable(group, t)
    ensures GroupRun(Obliging(), group, t).Panicked?
  {
    var ranges := RangesOf(group, t);
    var i: nat :| i < |ranges| && Crashable(ranges[i]);
    PlannedTypes(group, t, i);
    RangeCrashesIff(Obliging(), ranges[i], t, true);
    SomeCrash(Obliging(), ranges, t, 0, i);
  }

  /** A group runs to its end on every device if and only if no range of its plan is crashable. */
  lemma GroupCompletesIff(group: seq<Tag>, t: RegisterType)
    requires SameType(group, t)
    ensures (forall dev :: GroupRun(dev, group, t).Done?) <==> NoneCrashable(group, t)
  {
    if NoneCrashable(group, t) {
      forall dev ensures GroupRun(dev, group, t).Done? { SafeGroupCompletes(dev, group, t); }
    } else {
      CrashableGroupPanics(group, t);
    }
  }

  lemma CrashableNeedsUndersized(group: seq<Tag>, t: RegisterType, i: nat)
    requires i < |RangesOf(group, t)| && Crashable(RangesOf(group, t)[i])
    ensures exists u :: u in group && Undersized(u)
  {
    var r := RangesOf(group, t)[i];
    var j :| 0 <= j < |r.tags| && Undersized(r.tags[j]);
    PlannedFrom(LimitsOf(t), StablySorted(group), 0, i, r.tags[j]);
    SortedTagsAreTags(group);
  }

  lemma UndersizedIsCrashable(group: seq<Tag>, t: RegisterType, u: Tag)
    requires Plannable(LimitsOf(t), StablySorted(group)) && u in group && Undersized(u) && HasRegisters(t)
    ensures !NoneCrashable(group, t)
  {
    SortIsStable(group, 0);
    var i := TagIsPlanned(LimitsOf(t), group, u);
    var r := RangesOf(group, t)[i];
    var j: nat :| j < |r.tags| && r.tags[j] == u;
    PlannableIsPlanned(LimitsOf(t), StablySorted(group), i);
    TagIsInBuffer(r, j);
    assert Crashable(r);
  }

  // ----- What the points of a group are

  /** Some range of the group is found cancelled. */
  ghost predicate IsCutOff(dev: Device, ranges: seq<Range>, t: RegisterType) {
    exists n :: 0 <= n < |ranges| && dev.cancelled(t, n)
  }

  /** The read of range i is left unanswered. (Tags of unknown register types are not read at all.) */
  predicate Unanswered(dev: Device, t: RegisterType, i: nat) { !t.OtherRegister? && !dev.answers(t, i) }

  /** The value that tag j of a range is given when the read of the range is answered. */
  function ValueIn(dev: Device, r: Range, t: RegisterType, j: nat): Outcome<Value>
    requires j < |r.tags|
  {
    if HasBits(t) then
      CoilRead.Picked(CoilRead.Packed(CoilRead.Bits(Bits(dev, t), r.start, CoilRead.CoilCount(r))), r.start, r.tags[j])
    else if HasRegisters(t) then
      PointAt(RegisterBytes(Registers(dev, t), r.start, RegisterCount(r)), r.start, r.tags, j).result
    else Err(InvalidRegisterType)
  }

  /** The point of tag j of range i. */
  ghost function PointIn(dev: Device, ranges: seq<Range>, t: RegisterType, i: nat, j: nat): Point
    requires i < |ranges| && j < |ranges[i].tags|
  {
    Point(ranges[i].tags[j],
          if IsCutOff(dev, ranges, t) then Err(Cancelled)
          else if Unanswered(dev, t, i) then Err(ReadFailed)
          else ValueIn(dev, ranges[i], t, j))
  }

  ghost predicate IsPointIn(dev: Device, ranges: seq<Range>, t: RegisterType, p: Point) {
    exists i: nat, j: nat :: i < |ranges| && j < |ranges[i].tags| && p == PointIn(dev, ranges, t, i, j)
  }

  lemma RangePointIs(dev: Device, r: Range, t: RegisterType, answers: bool, j: nat)
    requires j < |r.tags| && RangeRun(dev, r, t, answers).Done?
    ensures |RangeRun(dev, r, t, answers).value| == |r.tags|
    ensures RangeRun(dev, r, t, answers).value[j] ==
            Point(r.tags[j], if !t.OtherRegister? && !answers then Err(ReadFailed) else ValueIn(dev, r, t, j))
  {
    RangeRunTags(dev, r, t, answers);
  }

  lemma {:induction false} CutOffIff(dev: Device, ranges: seq<Range>, t: RegisterType, i: nat)
    requires i <= |ranges| && !RangesRun(dev, ranges, t, i).Crashed?
    ensures RangesRun(dev, ranges, t, i).CutOff? <==> exists n :: i <= n < |ranges| && dev.cancelled(t, n)
    decreases |ranges| - i
  {
    if i < |ranges| && !dev.cancelled(t, i) {
      CutOffIff(dev, ranges, t, i + 1);
      assert RangesRun(dev, ranges, t, i).CutOff? <==> RangesRun(dev, ranges, t, i + 1).CutOff?;
    }
  }

  lemma {:induction false} PointOrigin(dev: Device, ranges: seq<Range>, t: RegisterType, i: nat, p: Point)
    returns (k: nat)
    requires i <= |ranges| && RangesRun(dev, ranges, t, i).All? && p in RangesRun(dev, ranges, t, i).points
    ensures k < |ranges| && RunAt(dev, ranges, t, k).Done? && p in RunAt(dev, ranges, t, k).value
    decreases |ranges| - i
  {
    if p in RunAt(dev, ranges, t, i).value { k := i; } else { k := PointOrigin(dev, ranges, t, i + 1, p); }
  }

  lemma CutOffPointIs(dev: Device, group: seq<Tag>, t: RegisterType, p: Point)
    requires p in Errors(group, Cancelled) && IsCutOff(dev, RangesOf(group, t), t)
    ensures IsPointIn(dev, RangesOf(group, t), t, p)
  {
    var ranges := RangesOf(group, t);
    var i := TagIsPlanned(LimitsOf(t), group, p.tag);
    var j: nat :| j < |ranges[i].tags| && ranges[i].tags[j] == p.tag;
    assert p == PointIn(dev, ranges, t, i, j);
  }

  /** Every point of a group is determined by the plan: cancelled if the group was cut off, a failure if the
      one read of its range was left unanswered, and else the value that its place in the range gives. */
  lemma GroupPointIs(dev: Device, group: seq<Tag>, t: RegisterType, p: Point)
    requires GroupRun(dev, group, t).Done? && p in GroupRun(dev, group, t).value
    ensures IsPointIn(dev, RangesOf(group, t), t, p)
  {
    var ranges := RangesOf(group, t);
    CutOffIff(dev, ranges, t, 0);
    if RangesRun(dev, ranges, t, 0).CutOff? {
      CutOffPointIs(dev, group, t, p);
    } else {
      assert !IsCutOff(dev, ranges, t);
      var i := PointOrigin(dev, ranges, t, 0, p);
      PointOfRange(dev, ranges, t, i, p);
    }
  }

  lemma PointOfRange(dev: Device, ranges: seq<Range>, t: RegisterType, i: nat, p: Point)
    requires i < |ranges| && !IsCutOff(dev, ranges, t)
    requires RunAt(dev, ranges, t, i).Done? && p in RunAt(dev, ranges, t, i).value
    ensures IsPointIn(dev, ranges, t, p)
  {
    var points := RunAt(dev, ranges, t, i).value;
    var j: nat :| j < |points| && points[j] == p;
    RangeRunTags(dev, ranges[i], t, dev.answers(t, i));
    assert |points| == |TagsIn(points)|;
    RangePointIs(dev, ranges[i], t, dev.answers(t, i), j);
    assert p == PointIn(dev, ranges, t, i, j);
  }

  lemma ParsedError(data: seq<Byte>, u: Tag)
    ensures Parsed(data, u) != Err(ReadFailed) && Parsed(data, u) != Err(Cancelled)
  {
  }

  /** The two errors say exactly what happened. */
  lemma PointSaysWhy(dev: Device, ranges: seq<Range>, t: RegisterType, i: nat, j: nat)
    requires i < |ranges| && j < |ranges[i].tags|
    ensures var result := PointIn(dev, ranges, t, i, j).result;
            && (result == Err(Cancelled) <==> IsCutOff(dev, ranges, t))
            && (result == Err(ReadFailed) <==> !IsCutOff(dev, ranges, t) && Unanswered(dev, t, i))
  {
    var r := ranges[i];
    if HasRegisters(t) {
      var raw := RegisterBytes(Registers(dev, t), r.start, RegisterCount(r));
      var buf := BufferAt(raw, r.start, r.tags, j);
      if InBuffer(|buf|, r.start, r.tags[j]) { ParsedError(Slice(buf, r.start, r.tags[j]), r.tags[j]); }
    }
  }

  // ----- What the reads of a group ask for

  lemma MembersFrom(group: seq<Tag>, t: RegisterType, i: nat, j: nat)
    requires i < |RangesOf(group, t)| && j < |RangesOf(group, t)[i].tags|
    ensures RangesOf(group, t)[i].tags[j] in group
  {
    PlannedFrom(LimitsOf(t), StablySorted(group), 0, i, RangesOf(group, t)[i].tags[j]);
    SortedTagsAreTags(group);
  }

  /** For tags that may be read alone, every planned read of registers is within the protocol's 125 registers,
      and within 100 unless one tag is as long; every planned read of coils is within 2000, and within 1000
      unless one tag is as long. */
  lemma PlannedReadIsAllowed(group: seq<Tag>, t: RegisterType, i: nat)
    requires SameType(group, t) && Plannable(LimitsOf(t), StablySorted(group)) && i < |RangesOf(group, t)|
    requires forall u :: u in group ==> u.Readable()
    ensures var r := RangesOf(group, t)[i];
            && (HasRegisters(t) ==> 1 <= RegisterCount(r) <= 125 && (RegisterCount(r) <= 100 || SpannedByOne(r)))
            && (HasBits(t) ==> 1 <= CoilRead.CoilCount(r) <= 2000 && (CoilRead.CoilCount(r) <= 1000 || SpannedByOne(r)))
  {
    var r := RangesOf(group, t)[i];
    PlannedRangeIs(group, t, i);
    RangeLength(r);
    var first :| 0 <= first < |r.tags| && r.tags[first].address == r.start;
    MembersFrom(group, t, i, first);
    assert Holds(r, r.tags[first]);
    if SpannedByOne(r) {
      var j :| 0 <= j < |r.tags| && r.tags[j].address == r.start && r.tags[j].End() == r.end;
      MembersFrom(group, t, i, j);
    }
  }

  /** Every register of such a read belongs to a tag or lies at most 10 behind one, every coil at most 32. */
  lemma PlannedHolesAreSmall(group: seq<Tag>, t: RegisterType, i: nat, x: int) returns (j: nat)
    requires SameType(group, t) && Plannable(LimitsOf(t), StablySorted(group)) && i < |RangesOf(group, t)|
    requires RangesOf(group, t)[i].start <= x <= RangesOf(group, t)[i].end
    ensures var tags := RangesOf(group, t)[i].tags;
            j < |tags| && tags[j].address <= x < tags[j].address + tags[j].count + if HasBits(t) then 32 else 10
  {
    PlannedRangeIs(group, t, i);
    var r := RangesOf(group, t)[i];
    assert Served(LimitsOf(t), r.tags, x);
    j :| 0 <= j < |r.tags| && r.tags[j].address <= x <= r.tags[j].End() + LimitsOf(t).maxGap;
  }

  /** And no split of the group's tags by address into blocks with holes of at most 10 registers and sizes of
      at most 100 (32 and 1000 for coils) has fewer reads. */
  lemma GroupReadsAreFewest(group: seq<Tag>, t: RegisterType, cuts: seq<nat>)
    requires SameType(group, t) && Plannable(LimitsOf(t), StablySorted(group))
    requires var bounds := if HasBits(t) then IntervalSplit.Bounds(32, 1000, false)
                           else IntervalSplit.Bounds(10, 100, false);
             IntervalSplit.IsSplit(bounds, Intervals(StablySorted(group)), 0, cuts)
    ensures |RangesOf(group, t)| <= |cuts|
  {
    PlanIsFewest(LimitsOf(t), group, cuts);
  }

  // ----- When the value is the tag's own

  /** The batched value of a tag must agree with reading it alone: it may be read alone, asks for its first
      coil only if it is a coil tag, and no other register tag's decoding moves its bytes. */
  ghost predicate SafeTag(tags: multiset<Tag>, u: Tag) {
    && u.Readable()
    && if u.IsBit() then CoilRead.SingleBit(u) else forall v :: v in tags - multiset{u} ==> !Disturbs(v, u)
  }

  predicate Disjoint(t: Tag, u: Tag) { t.End() < u.address || u.End() < t.address }

  predicate KeepsOrder(t: Tag) { t.byteOrder.BigEndian? || t.byteOrder.OtherOrder? }

  /** Registers that only big-endian tags overlap are safe. */
  lemma DisjointOrBigEndianIsSafe(tags: multiset<Tag>, u: Tag)
    requires u.Readable() && (u.IsBit() ==> CoilRead.SingleBit(u))
    requires !u.IsBit() ==> forall v :: v in tags - multiset{u} ==> Disjoint(v, u) || KeepsOrder(v)
    ensures SafeTag(tags, u)
  {
    forall v | !u.IsBit() && v in tags - multiset{u}
      ensures !Disturbs(v, u)
    {
      assert MovedRegisters(v) <= v.count;
    }
  }

  lemma SafeTagIsUndisturbed(tags: seq<Tag>, i: nat)
    requires i < |tags| && SafeTag(multiset(tags), tags[i]) && !tags[i].IsBit()
    ensures Undisturbed(tags, i)
  {
    forall k | 0 <= k < i ensures !Disturbs(tags[k], tags[i]) {
      assert tags == tags[..i] + [tags[i]] + tags[i + 1..];
      assert tags[k] in tags[..i];
      assert multiset(tags) == multiset(tags[..i]) + multiset{tags[i]} + multiset(tags[i + 1..]);
      assert tags[k] in multiset(tags) - multiset{tags[i]};
    }
  }

  /** In a range that holds its tags and can be counted, a safe tag is given its own value. */
  lemma SafeValueIsOwn(dev: Device, r: Range, t: RegisterType, j: nat)
    requires Inside(r) && Countable(r) && SameType(r.tags, t)
    requires j < |r.tags| && SafeTag(multiset(r.tags), r.tags[j])
    ensures ValueIn(dev, r, t, j) == ReadAlone(dev, r.tags[j])
  {
    if HasBits(t) {
      CoilRead.CoilBatchingIsFaithfulIff(r, j);
    } else if HasRegisters(t) {
      SafeTagIsUndisturbed(r.tags, j);
      RangeReadRefinesAlone(Registers(dev, t), r, j);
    }
  }

  lemma {:induction false} TagsOfPart(ranges: seq<Range>, i: nat)
    requires i < |ranges|
    ensures multiset(ranges[i].tags) <= multiset(TagsOf(ranges))
  {
    if i > 0 { TagsOfPart(ranges[1..], i - 1); }
  }

  /** What a range inherits from the group that it was planned for. */
  lemma PlannedRangeIs(group: seq<Tag>, t: RegisterType, i: nat)
    requires SameType(group, t) && Plannable(LimitsOf(t), StablySorted(group)) && i < |RangesOf(group, t)|
    ensures var r := RangesOf(group, t)[i];
            WellFormed(LimitsOf(t), r) && multiset(r.tags) <= multiset(group) && SameType(r.tags, t)
  {
    SortIsStable(group, 0);
    PlannableIsPlanned(LimitsOf(t), StablySorted(group), i);
    PlanIsSoundIff(LimitsOf(t), group);
    PlannedTypes(group, t, i);
    TagsOfPart(RangesOf(group, t), i);
  }

  /** The point of a tag whose range has number i, when its value is its own. */
  ghost function OwnPoint(dev: Device, ranges: seq<Range>, t: RegisterType, i: nat, u: Tag): Point {
    Point(u, if IsCutOff(dev, ranges, t) then Err(Cancelled)
             else if Unanswered(dev, t, i) then Err(ReadFailed)
             else ReadAlone(dev, u))
  }

  /** So in a group that can be planned a safe tag gets its own value unless one of the two errors came in
      between, whatever the other tags of the group are. */
  lemma SafePointIsOwn(dev: Device, group: seq<Tag>, t: RegisterType, i: nat, j: nat)
    requires SameType(group, t) && Plannable(LimitsOf(t), StablySorted(group))
    requires i < |RangesOf(group, t)| && j < |RangesOf(group, t)[i].tags|
    requires SafeTag(multiset(group), RangesOf(group, t)[i].tags[j])
    ensures var (ranges, u) := (RangesOf(group, t), RangesOf(group, t)[i].tags[j]);
            PointIn(dev, ranges, t, i, j) == OwnPoint(dev, ranges, t, i, u)
  {
    PlannedRangeIs(group, t, i);
    SafeValueIsOwn(dev, RangesOf(group, t)[i], t, j);
  }

  // ----- Exactly when

  /** On every device, every tag of the range is given its own value. */
  ghost predicate GivesOwnValues(r: Range, t: RegisterType) {
    forall dev: Device, j: nat | j < |r.tags| :: ValueIn(dev, r, t, j) == ReadAlone(dev, r.tags[j])
  }

  /** Every tag of the range may be read alone, and none disturbs a later one. */
  ghost predicate Orderly(r: Range) { forall j: nat | j < |r.tags| :: Undisturbed(r.tags, j) && r.tags[j].Readable() }

  lemma OwnValueIff(dev: Device, r: Range, t: RegisterType, j: nat)
    requires HasRegisters(t) && SameType(r.tags, t) && j < |r.tags|
    ensures ValueIn(dev, r, t, j) == ReadAlone(dev, r.tags[j]) <==>
            ReadsOwn(Registers(dev, t), r, j)
  {}

  lemma RangeGivesOwnValuesIff(r: Range, t: RegisterType)
    requires HasRegisters(t) && SameType(r.tags, t) && RegisterRange(r)
    requires forall j :: 0 <= j < |r.tags| ==> IsNumber(r.tags[j])
    ensures GivesOwnValues(r, t) <==> Orderly(r)
  {
    BatchedValuesAreRightIff(r);
    if Orderly(r) {
      forall dev: Device, j: nat | j < |r.tags| ensures ValueIn(dev, r, t, j) == ReadAlone(dev, r.tags[j]) {
        OwnValueIff(dev, r, t, j);
      }
    }
    if GivesOwnValues(r, t) {
      forall mem: Memory, j: nat | j < |r.tags|
        ensures ReadsOwn(mem, r, j)
      {
        OwnValueIff(Device(mem, mem, _ => false, _ => false, (_, _) => true, (_, _) => false), r, t, j);
      }
    }
  }

  /** A group of register tags that can be planned, each a number of exactly its type's width, is given its
      own values on every device if and only if all may be read alone and none disturbs a later one of its
      range. */
  lemma GroupGivesOwnValuesIff(group: seq<Tag>, t: RegisterType)
    requires HasRegisters(t) && SameType(group, t) && Plannable(LimitsOf(t), StablySorted(group))
    requires forall u :: u in group ==> IsNumber(u)
    ensures (forall i :: 0 <= i < |RangesOf(group, t)| ==> GivesOwnValues(RangesOf(group, t)[i], t)) <==>
            (forall i :: 0 <= i < |RangesOf(group, t)| ==> Orderly(RangesOf(group, t)[i]))
  {
    forall i: nat | i < |RangesOf(group, t)|
      ensures GivesOwnValues(RangesOf(group, t)[i], t) <==> Orderly(RangesOf(group, t)[i])
    {
      var r := RangesOf(group, t)[i];
      PlannedRangeIs(group, t, i);
      forall j | 0 <= j < |r.tags| ensures IsNumber(r.tags[j]) { assert r.tags[j] in multiset(group); }
      RangeGivesOwnValuesIff(r, t);
    }
  }
}
