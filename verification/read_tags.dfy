/** ReadTags from end to end: group the tags by register type, read each group, and return one data
    point per tag. */
module ReadTags {
  import opened Wrappers
  import opened ModbusTypes
  import opened Conversion
  import opened RangePlanner
  import opened PlanProperties
  import opened RegisterRead
  import opened Grouping
  import opened GroupRead
  import opened RegisterValue
  import CoilRead

  const TYPE := (t: Tag) => t.registerType

  const POINT_TYPE := (p: Point) => p.tag.registerType

  function Group(tags: seq<Tag>, t: RegisterType): seq<Tag> { OfKeys(tags, TYPE, {t}) }

  /** The points of one register type, or the panic on the way to them. */
  function TypeRun(dev: Device, tags: seq<Tag>, t: RegisterType): Run<seq<Point>> { GroupRun(dev, Group(tags, t), t) }

  ghost predicate Completes(dev: Device, tags: seq<Tag>) { forall t :: TypeRun(dev, tags, t).Done? }

  lemma GroupIsOneType(tags: seq<Tag>, t: RegisterType)
    ensures SameType(Group(tags, t), t) && multiset(Group(tags, t)) <= multiset(tags)
    ensures forall u :: u in Group(tags, t) <==> u in tags && u.registerType == t
  {
    OfKeysFrom(tags, TYPE, {t});
    OfKeysHas(tags, TYPE, {t});
    var group := Group(tags, t);
    forall i | 0 <= i < |group| ensures group[i].registerType == t {
      assert group[i] in group && TYPE(group[i]) == group[i].registerType;
    }
  }

  // ----- When ReadTags completes

  /** A holding or input register tag with some registers, but fewer than its type is made of. */
  predicate TooSmall(u: Tag) { HasRegisters(u.registerType) && Undersized(u) }

  ghost predicate NoneTooSmall(tags: seq<Tag>) { forall u :: u in tags ==> !TooSmall(u) }

  ghost predicate NoRangeCrashes(tags: seq<Tag>) { forall t :: NoneCrashable(Group(tags, t), t) }

  lemma NoRangeCrashesCompletes(dev: Device, tags: seq<Tag>)
    requires NoRangeCrashes(tags)
    ensures Completes(dev, tags)
  {
    forall t
      ensures TypeRun(dev, tags, t).Done?
    {
      GroupIsOneType(tags, t);
      SafeGroupCompletes(dev, Group(tags, t), t);
    }
  }

  /** Without such a tag ReadTags completes on every device. Tags without any registers, tags beyond the
      table and tags of unknown register types do no harm. */
  lemma NoneTooSmallCompletes(dev: Device, tags: seq<Tag>)
    requires NoneTooSmall(tags)
    ensures Completes(dev, tags)
  {
    forall t
      ensures NoneCrashable(Group(tags, t), t)
    {
      GroupIsOneType(tags, t);
      if !NoneCrashable(Group(tags, t), t) {
        var i: nat :| i < |RangesOf(Group(tags, t), t)| && Crashable(RangesOf(Group(tags, t), t)[i]);
        CrashableNeedsUndersized(Group(tags, t), t, i);
      }
    }
    NoRangeCrashesCompletes(dev, tags);
  }

  /** The group of each register type can be planned. */
  ghost predicate AllPlannable(tags: seq<Tag>) {
    forall t :: HasRegisters(t) ==> Plannable(LimitsOf(t), StablySorted(Group(tags, t)))
  }

  lemma TooSmallCrashes(tags: seq<Tag>, u: Tag)
    requires AllPlannable(tags) && u in tags && TooSmall(u)
    ensures !Completes(Obliging(), tags)
  {
    var (t, group) := (u.registerType, Group(tags, u.registerType));
    GroupIsOneType(tags, t);
    UndersizedIsCrashable(group, t, u);
    CrashableGroupPanics(group, t);
    assert !TypeRun(Obliging(), tags, t).Done?;
  }

  /** ReadTags on tags that can be planned completes on every device if and only if no register tag is too
      small. */
  lemma CompletesIff(tags: seq<Tag>)
    requires AllPlannable(tags)
    ensures (forall dev :: Completes(dev, tags)) <==> NoneTooSmall(tags)
  {
    if NoneTooSmall(tags) {
      forall dev ensures Completes(dev, tags) { NoneTooSmallCompletes(dev, tags); }
    } else {
      var u :| u in tags && TooSmall(u);
      TooSmallCrashes(tags, u);
    }
  }

  /** These can be planned: all tags that leave out the last register of their table, and that, if they lie
      at its start, have registers. */
  lemma EndBeforeLastArePlannable(tags: seq<Tag>)
    requires EndBeforeLast(tags)
    ensures AllPlannable(tags)
  {
    forall t
      ensures Plannable(LimitsOf(t), StablySorted(Group(tags, t)))
    {
      GroupIsOneType(tags, t);
      EndBeforeLastIsPlannable(LimitsOf(t), Group(tags, t));
    }
  }

  lemma SomeRangeCrashes(tags: seq<Tag>)
    requires !NoRangeCrashes(tags)
    ensures !Completes(Obliging(), tags)
  {
    var t :| !NoneCrashable(Group(tags, t), t);
    GroupIsOneType(tags, t);
    CrashableGroupPanics(Group(tags, t), t);
    assert !TypeRun(Obliging(), tags, t).Done?;
  }

  /** For all tags, plannable or not, the exact condition is on the planned ranges. */
  lemma CompletesIffNoRangeCrashes(tags: seq<Tag>)
    ensures (forall dev :: Completes(dev, tags)) <==> NoRangeCrashes(tags)
  {
    if NoRangeCrashes(tags) {
      forall dev ensures Completes(dev, tags) { NoRangeCrashesCompletes(dev, tags); }
    } else {
      SomeRangeCrashes(tags);
    }
  }

  // ----- ReadTags

  /** The points of the types in done are there, type by type in order, and no others. */
  ghost predicate Collected(dev: Device, tags: seq<Tag>, points: seq<Point>, done: set<RegisterType>) {
    forall t :: CollectedAt(dev, tags, points, done, t)
  }

  ghost predicate CollectedAt(dev: Device, tags: seq<Tag>, points: seq<Point>, done: set<RegisterType>,
                              t: RegisterType)
  {
    if t in done then TypeRun(dev, tags, t) == Done(OfKeys(points, POINT_TYPE, {t}))
    else OfKeys(points, POINT_TYPE, {t}) == []
  }

  lemma TypeRunTags(dev: Device, tags: seq<Tag>, t: RegisterType)
    requires TypeRun(dev, tags, t).Done?
    ensures multiset(TagsIn(TypeRun(dev, tags, t).value)) == multiset(Group(tags, t))
    ensures forall p :: p in TypeRun(dev, tags, t).value ==> p.tag.registerType == t && p.tag in tags
  {
    GroupRunTags(dev, Group(tags, t), t);
    GroupIsOneType(tags, t);
    var points := TypeRun(dev, tags, t).value;
    forall p | p in points
      ensures p.tag in Group(tags, t)
    {
      var i :| 0 <= i < |points| && points[i] == p;
      assert TagsIn(points)[i] == p.tag;
      assert p.tag in multiset(TagsIn(points));
    }
  }

  lemma CollectOne(dev: Device, tags: seq<Tag>, points: seq<Point>, done: set<RegisterType>, t: RegisterType)
    requires Collected(dev, tags, points, done) && t !in done && TypeRun(dev, tags, t).Done?
    ensures Collected(dev, tags, points + TypeRun(dev, tags, t).value, done + {t})
  {
    var more := TypeRun(dev, tags, t).value;
    TypeRunTags(dev, tags, t);
    forall u
      ensures CollectedAt(dev, tags, points + more, done + {t}, u)
    {
      assert CollectedAt(dev, tags, points, done, u);
      OfKeysConcat(points, more, POINT_TYPE, {u});
      if u == t {
        OfKeysAll(more, POINT_TYPE, {u});
        assert [] + more == more;
      } else {
        OfKeysMisses(more, POINT_TYPE, {u});
        assert OfKeys(points, POINT_TYPE, {u}) + [] == OfKeys(points, POINT_TYPE, {u});
      }
    }
  }

  /** One data point per tag. */
  ghost predicate OnePerTag(points: seq<Point>, tags: seq<Tag>) { multiset(TagsIn(points)) == multiset(tags) }

  /** ReadTags. Its points of each register type are exactly those of that type's group, in order, whatever
      the order in which the groups are taken; it panics exactly if one of the groups does. If it does not,
      there is exactly one point for every requested tag, for every pattern of failed reads and at every
      point of cancellation. */
  method ReadAll(dev: Device, tags: seq<Tag>) returns (run: Run<seq<Point>>)
    ensures run.Done? <==> Completes(dev, tags)
    ensures run.Done? ==> forall t :: TypeRun(dev, tags, t) == Done(OfKeys(run.value, POINT_TYPE, {t}))
    ensures run.Done? ==> OnePerTag(run.value, tags)
    ensures NoneTooSmall(tags) ==> run.Done?
  {
    var groups := GroupBy(tags, TYPE);
    var remaining, done: set<RegisterType> := groups.Keys, {};
    var points: seq<Point> := [];
    OfKeysNone(tags, TYPE);
    if NoneTooSmall(tags) { NoneTooSmallCompletes(dev, tags); }
    while remaining != {}
      invariant done !! remaining && done + remaining == groups.Keys
      invariant OnePerTag(points, OfKeys(tags, TYPE, done)) && Collected(dev, tags, points, done)
      decreases remaining
    {
      var t :| t in remaining;
      var groupRun := ReadOneGroup(dev, tags, groups[t], t);
      if groupRun.Panicked? {
        return Panicked;
      }
      CollectOne(dev, tags, points, done, t);
      CountOne(dev, tags, points, done, t);
      points := points + groupRun.value;
      remaining, done := remaining - {t}, done + {t};
    }
    AllCollected(dev, tags, points, done);
    run := Done(points);
  }

  method ReadOneGroup(dev: Device, tags: seq<Tag>, group: seq<Tag>, t: RegisterType) returns (run: Run<seq<Point>>)
    requires group != [] && group == Group(tags, t)
    ensures run == TypeRun(dev, tags, t)
  {
    GroupIsOneType(tags, t);
    run := ReadGroupOrErrors(dev, group);
  }

  lemma CountOne(dev: Device, tags: seq<Tag>, points: seq<Point>, done: set<RegisterType>, t: RegisterType)
    requires OnePerTag(points, OfKeys(tags, TYPE, done)) && t !in done && TypeRun(dev, tags, t).Done?
    ensures OnePerTag(points + TypeRun(dev, tags, t).value, OfKeys(tags, TYPE, done + {t}))
  {
    var more := TypeRun(dev, tags, t).value;
    TypeRunTags(dev, tags, t);
    OfKeysSplit(tags, TYPE, done, t);
    CountBoth(points, more, OfKeys(tags, TYPE, done), Group(tags, t));
  }

  lemma CountBoth(p: seq<Point>, q: seq<Point>, a: seq<Tag>, b: seq<Tag>)
    requires OnePerTag(p, a) && OnePerTag(q, b)
    ensures multiset(TagsIn(p + q)) == multiset(a) + multiset(b)
  {
    TagsInBoth(p, q);
  }

  lemma AllCollected(dev: Device, tags: seq<Tag>, points: seq<Point>, done: set<RegisterType>)
    requires Collected(dev, tags, points, done) && forall i :: 0 <= i < |tags| ==> TYPE(tags[i]) in done
    ensures forall t :: TypeRun(dev, tags, t) == Done(OfKeys(points, POINT_TYPE, {t}))
    ensures Completes(dev, tags) && OfKeys(tags, TYPE, done) == tags
  {
    OfKeysAll(tags, TYPE, done);
    forall t
      ensures TypeRun(dev, tags, t) == Done(OfKeys(points, POINT_TYPE, {t}))
    {
      assert CollectedAt(dev, tags, points, done, t);
      if t !in done {
        OfKeysMisses(tags, TYPE, {t});
        assert Group(tags, t) == [] && RangesOf([], t) == [];
      }
    }
  }

  // ----- What the points are

  /** Every point is as the plan of its group says: cut off, failed with the one read of its range, or else
      the value that its place in the range gives. */
  lemma PointsAreRight(dev: Device, tags: seq<Tag>, points: seq<Point>, p: Point)
    requires p in points && forall t :: TypeRun(dev, tags, t) == Done(OfKeys(points, POINT_TYPE, {t}))
    ensures var t := p.tag.registerType; IsPointIn(dev, RangesOf(Group(tags, t), t), t, p)
  {
    var t := p.tag.registerType;
    OfKeysHas(points, POINT_TYPE, {t});
    assert POINT_TYPE(p) == t && p in OfKeys(points, POINT_TYPE, {t});
    assert TypeRun(dev, tags, t).Done?;
    GroupPointIs(dev, Group(tags, t), t, p);
  }

  /** A safe tag of a group that can be planned gets its own value, unless the group was cut off or the read
      of its range was left unanswered. Other tags of the group may be unsafe, and other groups anything. */
  lemma SafePointsAreOwn(dev: Device, tags: seq<Tag>, points: seq<Point>, p: Point) returns (i: nat)
    requires p in points && forall t :: TypeRun(dev, tags, t) == Done(OfKeys(points, POINT_TYPE, {t}))
    requires var (t, group) := (p.tag.registerType, Group(tags, p.tag.registerType));
             Plannable(LimitsOf(t), StablySorted(group)) && SafeTag(multiset(group), p.tag)
    ensures var (t, ranges) := (p.tag.registerType, RangesOf(Group(tags, p.tag.registerType), p.tag.registerType));
            && i < |ranges| && p.tag in ranges[i].tags
            && p == OwnPoint(dev, ranges, t, i, p.tag)
  {
    var t := p.tag.registerType;
    var group := Group(tags, t);
    var ranges := RangesOf(group, t);
    PointsAreRight(dev, tags, points, p);
    GroupIsOneType(tags, t);
    var k: nat, j: nat :| k < |ranges| && j < |ranges[k].tags| && p == PointIn(dev, ranges, t, k, j);
    SafePointIsOwn(dev, group, t, k, j);
    i := k;
  }

  /** In particular, if every planned read of its group is answered and nothing is cancelled, batching is
      invisible to such a tag. */
  lemma BatchingIsInvisible(dev: Device, tags: seq<Tag>, points: seq<Point>, p: Point)
    requires p in points && forall t :: TypeRun(dev, tags, t) == Done(OfKeys(points, POINT_TYPE, {t}))
    requires var (t, group) := (p.tag.registerType, Group(tags, p.tag.registerType));
             && Plannable(LimitsOf(t), StablySorted(group)) && SafeTag(multiset(group), p.tag)
             && forall i: nat :: i < |RangesOf(group, t)| ==> !dev.cancelled(t, i) && !Unanswered(dev, t, i)
    ensures p.result == ReadAlone(dev, p.tag)
    ensures p.tag.registerType.HoldingRegister? ==> p.result == Alone(dev.holding, p.tag)
    ensures p.tag.registerType.InputRegister? ==> p.result == Alone(dev.input, p.tag)
    ensures p.tag.registerType.Coil? ==> p.result == CoilRead.Alone(dev.coils, p.tag)
    ensures p.tag.registerType.DiscreteInput? ==> p.result == CoilRead.Alone(dev.discrete, p.tag)
    ensures p.tag.registerType.OtherRegister? ==> p.result == Err(InvalidRegisterType)
  {
    var i := SafePointsAreOwn(dev, tags, points, p);
  }

  /** From end to end: such a tag for one big-endian unsigned holding register gets what that register holds,
      and any for a coil whether the coil at its address is on. */
  lemma OwnRegisterOrCoil(dev: Device, tags: seq<Tag>, points: seq<Point>, p: Point)
    requires p in points && forall t :: TypeRun(dev, tags, t) == Done(OfKeys(points, POINT_TYPE, {t}))
    requires var (t, group) := (p.tag.registerType, Group(tags, p.tag.registerType));
             && Plannable(LimitsOf(t), StablySorted(group)) && SafeTag(multiset(group), p.tag)
             && forall i: nat :: i < |RangesOf(group, t)| ==> !dev.cancelled(t, i) && !Unanswered(dev, t, i)
    ensures p.tag.registerType.HoldingRegister? && p.tag.count == 1 && p.tag.dataType.UInt16? &&
            p.tag.byteOrder.BigEndian? ==>
              p.result == Ok(IntValue(UInt16, dev.holding(p.tag.address)))
    ensures p.tag.registerType.Coil? ==> p.result == Ok(BoolValue(dev.coils(p.tag.address)))
  {
    BatchingIsInvisible(dev, tags, points, p);
    if p.tag.registerType.HoldingRegister? && p.tag.count == 1 && p.tag.dataType.UInt16? {
      OneRegisterReads(dev.holding, p.tag);
    }
    if p.tag.registerType.Coil? {
      CoilRead.SingleCoilAlone(dev.coils, p.tag);
    }
  }
}
