/** Data points of the ingestion service, the object pool that recycles them, and ParsePayload, which
    fills a pooled object field by field. Instants are nanoseconds, text is bytes. */
module DataPoints {
  import opened Wrappers

  datatype Point = Point(
    topic: string,
    deviceId: string,
    tagId: string,
    value: Option<real>,
    valueStr: Option<string>,
    quality: int,
    unit: string,
    timestamp: Option<int>,
    sourceTimestamp: Option<int>,
    serverTimestamp: Option<int>,
    receivedAt: Option<int>
  )

  /** A new DataPoint, and what ReleaseDataPoint leaves behind. */
  const ZERO := Point("", "", "", None, None, 0, "", None, None, None, None)

  datatype JsonValue = Number(n: real) | Text(s: string) | Boolean(b: bool) | Other

  datatype Payload = Payload(
    value: JsonValue,
    quality: string,
    unit: string,
    timestamp: int,
    sourceTimestamp: int,
    deviceId: string,
    tagId: string
  )

  datatype ParseError = PayloadTooLarge | TopicTooLong | BadJson | NoValue | ValueTooLong | TooFarInFuture | TooOld

  type Outcome<T> = Result<T, ParseError>

  const MAX_TOPIC_LENGTH := 1024
  const MAX_PAYLOAD_SIZE := 65536
  const MAX_VALUE_STR_LEN := 4096
  const MILLISECOND := 1_000_000
  const MAX_SKEW := 3_600_000 * MILLISECOND
  const MAX_AGE := 30 * 24 * 3_600_000 * MILLISECOND

  /** A raw message: json.Unmarshal is a library call, so its result comes with the message. */
  datatype Message = Message(topic: string, size: nat, json: Option<Payload>, receivedAt: int)

  function QualityCode(q: string): int {
    if q in {"bad", "not_connected", "config_error", "device_failure", "timeout"} then 0
    else if q == "uncertain" then 64
    else 192
  }

  function NumericValue(v: JsonValue): Option<real> {
    match v
    case Number(n) => Some(n)
    case Boolean(b) => Some(if b then 1.0 else 0.0)
    case _ => None
  }

  function TextValue(v: JsonValue): Option<string> { if v.Text? then Some(v.s) else None }

  function Timestamp(p: Payload, receivedAt: int): int {
    if p.timestamp > 0 then p.timestamp * MILLISECOND else receivedAt
  }

  function ValueError(v: JsonValue): Option<ParseError> {
    if v.Other? then Some(NoValue)
    else if v.Text? && |v.s| > MAX_VALUE_STR_LEN then Some(ValueTooLong)
    else None
  }

  /** Only a timestamp that the message brings can be out of the accepted window. */
  function TimeError(timestamp: int, receivedAt: int): Option<ParseError> {
    var at := timestamp * MILLISECOND;
    if timestamp > 0 && at > receivedAt + MAX_SKEW then Some(TooFarInFuture)
    else if timestamp > 0 && at < receivedAt - MAX_AGE then Some(TooOld)
    else None
  }

  /** What a message means: the data point it carries, or the first thing that is wrong with it. */
  function Parsed(m: Message): Outcome<Point> {
    if m.size > MAX_PAYLOAD_SIZE then Err(PayloadTooLarge)
    else if |m.topic| > MAX_TOPIC_LENGTH then Err(TopicTooLong)
    else if m.json.None? then Err(BadJson)
    else
      var p := m.json.value;
      var at := Timestamp(p, m.receivedAt);
      if ValueError(p.value).Some? then Err(ValueError(p.value).value)
      else if TimeError(p.timestamp, m.receivedAt).Some? then Err(TimeError(p.timestamp, m.receivedAt).value)
      else Ok(Point(m.topic, p.deviceId, p.tagId, NumericValue(p.value), TextValue(p.value),
                    QualityCode(p.quality), p.unit, Some(at),
                    if p.sourceTimestamp > 0 then Some(p.sourceTimestamp * MILLISECOND) else None,
                    None, Some(m.receivedAt)))
  }

  /** Every point that gets through carries exactly one value, a known quality code and a time in the
      accepted window, and no point is rejected for its time when the message has none. */
  lemma ParsedPointIsSane(m: Message)
    ensures Parsed(m).Ok? ==>
      var p := Parsed(m).value;
      && (p.value.Some? <==> p.valueStr.None?)
      && (p.valueStr.Some? ==> |p.valueStr.value| <= 4096)
      && p.quality in {0, 64, 192}
      && p.timestamp.Some?
      && m.receivedAt - 2_592_000_000_000_000 <= p.timestamp.value <= m.receivedAt + 3_600_000_000_000
      && p.serverTimestamp.None?
    ensures m.json.Some? && m.json.value.timestamp <= 0 ==> Parsed(m) != Err(TooFarInFuture) && Parsed(m) != Err(TooOld)
  {
    var _ := QualityCode(if m.json.Some? then m.json.value.quality else "");
  }

  /** Which messages are rejected, in bytes, characters and nanoseconds. */
  lemma RejectedIff(m: Message)
    ensures Parsed(m).Err? <==>
            || m.size > 65536 || |m.topic| > 1024 || m.json.None?
            || m.json.value.value.Other?
            || (m.json.value.value.Text? && |m.json.value.value.s| > 4096)
            || (m.json.value.timestamp > 0 &&
                !(m.receivedAt - 2_592_000_000_000_000 <= m.json.value.timestamp * 1_000_000
                  <= m.receivedAt + 3_600_000_000_000))
  {
  }

  /** What an accepted message says: milliseconds become nanoseconds, the time of receipt stands in for a
      missing timestamp, true and false are 1 and 0. */
  lemma ParsedPointSays(m: Message)
    requires Parsed(m).Ok?
    ensures m.json.Some?
    ensures var (p, j) := (Parsed(m).value, m.json.value);
            && p.topic == m.topic && p.deviceId == j.deviceId && p.tagId == j.tagId && p.unit == j.unit
            && (j.value.Number? ==> p.value == Some(j.value.n))
            && (j.value.Boolean? ==> p.value == Some(if j.value.b then 1.0 else 0.0))
            && (j.value.Text? ==> p.valueStr == Some(j.value.s))
            && p.timestamp == Some(if j.timestamp > 0 then 1_000_000 * j.timestamp else m.receivedAt)
            && (j.sourceTimestamp > 0 ==> p.sourceTimestamp == Some(1_000_000 * j.sourceTimestamp))
            && (j.sourceTimestamp <= 0 ==> p.sourceTimestamp.None?)
            && p.receivedAt == Some(m.receivedAt)
  {
  }

  // ----- Qualities, from one service to the other

  /** The qualities that the protocol gateway publishes. */
  datatype Quality = Good | Bad | Uncertain | NotConnected | ConfigError | DeviceFailure | Timeout

  function WireName(q: Quality): string {
    match q
    case Good => "good"
    case Bad => "bad"
    case Uncertain => "uncertain"
    case NotConnected => "not_connected"
    case ConfigError => "config_error"
    case DeviceFailure => "device_failure"
    case Timeout => "timeout"
  }

  /** What the gateway publishes as good, uncertain or anything else is stored as good, uncertain or bad, by
      its OPC UA code. */
  lemma QualitySurvives(q: Quality)
    ensures QualityCode(WireName(q)) == 192 <==> q == Good
    ensures QualityCode(WireName(q)) == 64 <==> q == Uncertain
    ensures QualityCode(WireName(q)) == 0 <==> q != Good && q != Uncertain
  {
    match q
    case Good => assert "good"[0] == 'g';
    case Bad =>
    case Uncertain =>
    case NotConnected =>
    case ConfigError =>
    case DeviceFailure =>
    case Timeout =>
  }

  /** Any other name is stored as good. */
  lemma UnknownQualityIsGood(name: string)
    requires forall q :: name != WireName(q)
    ensures QualityCode(name) == 192
  {
    assert name != WireName(Bad) && name != WireName(Uncertain) && name != WireName(NotConnected);
    assert name != WireName(ConfigError) && name != WireName(DeviceFailure) && name != WireName(Timeout);
  }

  // ----- Objects

  /** What the assignments of ParsePayload make of an object with the fields `old`. The optional
      fields are assigned only when the message has them, the server timestamp never. */
  function Overwritten(old': Point, p: Point): Point {
    p.(value := if p.value.Some? then p.value else old'.value,
       valueStr := if p.valueStr.Some? then p.valueStr else old'.valueStr,
       sourceTimestamp := if p.sourceTimestamp.Some? then p.sourceTimestamp else old'.sourceTimestamp,
       serverTimestamp := old'.serverTimestamp)
  }

  /** So the object must have been zeroed for the result not to depend on its past. */
  lemma OverwritingIsTransparentIff(old': Point)
    ensures (forall m: Message :: Parsed(m).Ok? ==> Overwritten(old', Parsed(m).value) == Parsed(m).value) <==>
            old'.value.None? && old'.valueStr.None? && old'.sourceTimestamp.None? && old'.serverTimestamp.None?
  {
    var numeric := Message("", 0, Some(Payload(Number(0.0), "", "", 0, 0, "", "")), 0);
    var text := Message("", 0, Some(Payload(Text(""), "", "", 0, 0, "", "")), 0);
    assert Parsed(numeric).Ok? && Parsed(text).Ok?;
    if forall m: Message :: Parsed(m).Ok? ==> Overwritten(old', Parsed(m).value) == Parsed(m).value {
      assert Overwritten(old', Parsed(numeric).value) == Parsed(numeric).value;
      assert Overwritten(old', Parsed(text).value) == Parsed(text).value;
    } else {
      var m: Message :| Parsed(m).Ok? && Overwritten(old', Parsed(m).value) != Parsed(m).value;
      ParsedPointIsSane(m);
    }
  }

  class DataPoint {
    var topic: string
    var deviceId: string
    var tagId: string
    var value: Option<real>
    var valueStr: Option<string>
    var quality: int
    var unit: string
    var timestamp: Option<int>
    var sourceTimestamp: Option<int>
    var serverTimestamp: Option<int>
    var receivedAt: Option<int>

    function Fields(): Point
      reads this
    {
      Point(topic, deviceId, tagId, value, valueStr, quality, unit, timestamp,
            sourceTimestamp, serverTimestamp, receivedAt)
    }

    constructor ()
      ensures Fields() == ZERO
    {
      topic, deviceId, tagId, unit := "", "", "", "";
      value, valueStr, quality := None, None, 0;
      timestamp, sourceTimestamp, serverTimestamp, receivedAt := None, None, None, None;
    }

    method Clear()
      modifies this
      ensures Fields() == ZERO
    {
      topic, deviceId, tagId, unit := "", "", "", "";
      value, valueStr, quality := None, None, 0;
      timestamp, sourceTimestamp, serverTimestamp, receivedAt := None, None, None, None;
    }
  }

  /** dataPointPool, a sync.Pool: it may hand out any object that it holds, or a new one. */
  class Pool {
    var free: set<DataPoint>

    ghost predicate Valid()
      reads this, free
    {
      forall dp :: dp in free ==> dp.Fields() == ZERO
    }

    constructor ()
      ensures Valid() && free == {}
    {
      free := {};
    }

    method Acquire() returns (dp: DataPoint)
      requires Valid()
      modifies this
      ensures Valid() && free == old(free) - {dp}
      ensures dp.Fields() == ZERO && (dp in old(free) || fresh(dp))
    {
      var recycle: bool := *;
      if recycle && free != {} {
        dp :| dp in free;
        free := free - {dp};
      } else {
        dp := new DataPoint();
      }
    }

    method Release(dp: DataPoint)
      requires Valid()
      modifies this, dp
      ensures Valid() && free == old(free) + {dp}
    {
      dp.Clear();
      free := free + {dp};
    }
  }

  /** A batch of points, which owns them until it is released. */
  class PointBatch {
    var points: seq<DataPoint>

    ghost function Values(): (r: seq<Point>)
      reads this, points
    {
      seq(|points|, i requires 0 <= i < |points| reads this, points => points[i].Fields())
    }

    constructor ()
      ensures points == []
    {
      points := [];
    }

    method Add(dp: DataPoint)
      modifies this
      ensures points == old(points) + [dp]
      ensures Values() == old(Values()) + [dp.Fields()]
    {
      points := points + [dp];
    }

    /** Every point goes back to the pool zeroed, and the batch keeps no reference to any of them. */
    method Release(pool: Pool)
      requires pool.Valid()
      modifies this, points, pool
      ensures pool.Valid() && points == []
      ensures pool.free == old(pool.free) + (set dp | dp in old(points))
    {
      ghost var returned: set<DataPoint> := {};
      for i := 0 to |points|
        invariant pool.Valid() && points == old(points)
        invariant pool.free == old(pool.free) + returned
        invariant returned == set dp | dp in points[..i]
      {
        pool.Release(points[i]);
        assert points[..i + 1] == points[..i] + [points[i]];
        returned := returned + {points[i]};
      }
      assert points[..|points|] == points;
      points := [];
    }
  }

  /** The fields that are copied as they are. */
  method FillTopic(dp: DataPoint, m: Message, p: Payload)
    modifies dp`topic, dp`deviceId, dp`tagId, dp`unit, dp`receivedAt
    ensures dp.topic == m.topic && dp.deviceId == p.deviceId && dp.tagId == p.tagId && dp.unit == p.unit
    ensures dp.receivedAt == Some(m.receivedAt)
  {
    dp.topic, dp.deviceId, dp.tagId, dp.unit := m.topic, p.deviceId, p.tagId, p.unit;
    dp.receivedAt := Some(m.receivedAt);
  }

  method FillValue(dp: DataPoint, v: JsonValue) returns (rejected: Option<ParseError>)
    requires dp.value.None? && dp.valueStr.None?
    modifies dp`value, dp`valueStr
    ensures dp.value == NumericValue(v) && dp.valueStr == TextValue(v) && rejected == ValueError(v)
  {
    match v {
      case Number(n) => dp.value := Some(n);
      case Text(s) => dp.valueStr := Some(s);
      case Boolean(b) => dp.value := Some(if b then 1.0 else 0.0);
      case Other =>
    }
    if dp.value.None? && dp.valueStr.None? {
      return Some(NoValue);
    }
    if dp.valueStr.Some? && |dp.valueStr.value| > MAX_VALUE_STR_LEN {
      return Some(ValueTooLong);
    }
    rejected := None;
  }

  /** The timestamp of the message, if it lies in the accepted window, or the time of receipt; and the
      source timestamp. */
  method FillTimes(dp: DataPoint, p: Payload, receivedAt: int) returns (rejected: Option<ParseError>)
    requires dp.sourceTimestamp.None?
    modifies dp`timestamp, dp`sourceTimestamp
    ensures rejected == TimeError(p.timestamp, receivedAt)
    ensures rejected.None? ==>
              && dp.timestamp == Some(Timestamp(p, receivedAt))
              && dp.sourceTimestamp == if p.sourceTimestamp > 0 then Some(p.sourceTimestamp * MILLISECOND) else None
  {
    if p.timestamp > 0 {
      var at := p.timestamp * MILLISECOND;
      dp.timestamp := Some(at);
      if at > receivedAt + MAX_SKEW {
        return Some(TooFarInFuture);
      }
      if at < receivedAt - MAX_AGE {
        return Some(TooOld);
      }
    } else {
      dp.timestamp := Some(receivedAt);
    }
    if p.sourceTimestamp > 0 {
      dp.sourceTimestamp := Some(p.sourceTimestamp * MILLISECOND);
    }
    rejected := None;
  }

  /** The part of ParsePayload that works on the acquired object: field by field, with the checks that
      may still reject the message in between. */
  method Fill(dp: DataPoint, m: Message) returns (rejected: Option<ParseError>)
    requires m.size <= MAX_PAYLOAD_SIZE && |m.topic| <= MAX_TOPIC_LENGTH && m.json.Some?
    requires dp.Fields() == ZERO
    modifies dp
    ensures rejected.None? ==> Parsed(m) == Ok(dp.Fields())
    ensures rejected.Some? ==> Parsed(m) == Err(rejected.value)
  {
    var p := m.json.value;
    FillTopic(dp, m, p);
    rejected := FillValue(dp, p.value);
    if rejected.Some? {
      return;
    }
    dp.quality := QualityCode(p.quality);
    rejected := FillTimes(dp, p, m.receivedAt);
  }

  /** ParsePayload. Its result is a function of the message alone: it does not matter which object the
      pool hands out, and an object that is given up on the way goes back zeroed. */
  method ParsePayload(pool: Pool, m: Message) returns (r: Outcome<DataPoint>)
    requires pool.Valid()
    modifies pool, pool.free
    ensures pool.Valid()
    ensures r.Err? <==> Parsed(m).Err?
    ensures r.Err? ==> r.error == Parsed(m).error && old(pool.free) <= pool.free && fresh(pool.free - old(pool.free))
    ensures r.Ok? ==> r.value.Fields() == Parsed(m).value && pool.free == old(pool.free) - {r.value}
    ensures r.Ok? ==> r.value in old(pool.free) || fresh(r.value)
  {
    if m.size > MAX_PAYLOAD_SIZE {
      return Err(PayloadTooLarge);
    }
    if |m.topic| > MAX_TOPIC_LENGTH {
      return Err(TopicTooLong);
    }
    if m.json.None? {
      return Err(BadJson);
    }
    var dp := pool.Acquire();
    var rejected := Fill(dp, m);
    if rejected.Some? {
      pool.Release(dp);
      return Err(rejected.value);
    }
    r := Ok(dp);
  }
}
