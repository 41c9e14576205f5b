/** Reading a range of registers in one operation and decoding its tags out of the shared response
    buffer (readRegisterRange), compared with reading each tag on its own (ReadTag). */
module RegisterRead {
  import opened Wrappers
  import opened ModbusTypes
  import opened ByteOrdering
  import opened Conversion
  import opened RangePlanner
  import opened PlanProperties

  /** The registers of the device, which hold still while tags are read. */
  type Memory = nat -> U16

  /** The device as a sequence of bytes: register x is bytes 2x and 2x + 1, high byte first. */
  function ByteAt(mem: Memory, b: nat): Byte {
    if b % 2 == 0 then mem(b / 2) / 256 else mem(b / 2) % 256
  }

  /** The response to a read of n registers. */
  function RegisterBytes(mem: Memory, start: nat, n: nat): (r: seq<Byte>)
    ensures |r| == 2 * n
  {
    seq<Byte>(2 * n, k requires 0 <= k < 2 * n => ByteAt(mem, 2 * start + k))
  }

  /** The value of a tag that is read on its own. */
  function Alone(mem: Memory, t: Tag): Outcome<Value> {
    if t.LimitError().Some? then Err(t.LimitError().value) else Parsed(RegisterBytes(mem, t.address, t.count), t)
  }

  datatype Point = Point(tag: Tag, result: Outcome<Value>)

  // ----- One buffer for all tags

  function Offset(start: U16, t: Tag): nat { 2 * Wrap16(t.address - start) }

  predicate InBuffer(len: nat, start: U16, t: Tag) { Offset(start, t) + 2 * t.count <= len }

  /** The bytes of the buffer that a tag is decoded from. */
  function Slice(buf: seq<Byte>, start: U16, t: Tag): (r: seq<Byte>)
    requires InBuffer(|buf|, start, t)
    ensures |r| == 2 * t.count
  {
    buf[Offset(start, t)..Offset(start, t) + 2 * t.count]
  }

  /** The buffer after a tag was decoded from it. */
  function Touch(buf: seq<Byte>, start: U16, t: Tag): (r: seq<Byte>)
    ensures |r| == |buf|
  {
    if !InBuffer(|buf|, start, t) then buf
    else buf[..Offset(start, t)] + LeftBehind(Slice(buf, start, t), t) + buf[Offset(start, t) + 2 * t.count..]
  }

  function BufferAt(raw: seq<Byte>, start: U16, tags: seq<Tag>, i: nat): (r: seq<Byte>)
    requires i <= |tags|
    ensures |r| == |raw|
  {
    if i == 0 then raw else Touch(BufferAt(raw, start, tags, i - 1), start, tags[i - 1])
  }

  function PointAt(raw: seq<Byte>, start: U16, tags: seq<Tag>, i: nat): Point
    requires i < |tags|
  {
    var buf := BufferAt(raw, start, tags, i);
    Point(tags[i],
          if InBuffer(|buf|, start, tags[i]) then Parsed(Slice(buf, start, tags[i]), tags[i])
          else Err(InvalidDataLength))
  }

  function RegisterCount(r: Range): U16 { Wrap16(r.end - r.start + 1) }

  /** Decoding some tag of the range indexes past the tag's bytes. */
  predicate Crashes(raw: seq<Byte>, start: U16, tags: seq<Tag>) {
    exists i :: 0 <= i < |tags| && PointAt(raw, start, tags, i).result == Err(OutOfBounds)
  }

  function Points(raw: seq<Byte>, start: U16, tags: seq<Tag>): (r: seq<Point>)
    ensures |r| == |tags|
  {
    seq(|tags|, i requires 0 <= i < |tags| => PointAt(raw, start, tags, i))
  }

  /** The result of readRegisterRange, or the panic that ends it. */
  function RegistersRead(mem: Memory, answers: bool, r: Range, regType: RegisterType): Outcome<seq<Point>> {
    var raw := RegisterBytes(mem, r.start, RegisterCount(r));
    if !(regType.HoldingRegister? || regType.InputRegister?) then Err(InvalidRegisterType)
    else if !answers then Err(ReadFailed)
    else if Crashes(raw, r.start, r.tags) then Err(OutOfBounds)
    else Ok(Points(raw, r.start, r.tags))
  }

  /** Whether decoding crashes does not depend on the device: it does exactly if the response covers a
      tag that has fewer registers than its type. */
  lemma CrashesIff(raw: seq<Byte>, start: U16, tags: seq<Tag>)
    requires forall i :: 0 <= i < |tags| ==> !tags[i].IsBit()
    ensures Crashes(raw, start, tags) <==>
            exists i :: 0 <= i < |tags| && InBuffer(|raw|, start, tags[i]) && Undersized(tags[i])
  {
    forall i: nat | i < |tags|
      ensures PointAt(raw, start, tags, i).result == Err(OutOfBounds) <==>
              InBuffer(|raw|, start, tags[i]) && Undersized(tags[i])
    {
      if InBuffer(|raw|, start, tags[i]) {
        OutOfBoundsIff(Slice(BufferAt(raw, start, tags, i), start, tags[i]), tags[i]);
      }
    }
  }

  /** One turn of the loop of readRegisterRange: the tag's slice of the buffer, decoded in place. */
  method DecodeTag(data: array<Byte>, start: U16, tag: Tag) returns (result: Outcome<Value>)
    modifies data
    ensures data[..] == Touch(old(data[..]), start, tag)
    ensures result == if InBuffer(data.Length, start, tag) then Parsed(Slice(old(data[..]), start, tag), tag)
                      else Err(InvalidDataLength)
  {
    var offset := Offset(start, tag);
    result := Err(InvalidDataLength);
    if offset + 2 * tag.count <= data.Length {
      assert data[offset..offset + 2 * tag.count] == Slice(data[..], start, tag);
      assert data[..][..offset] == data[..offset];
      assert data[..][offset + 2 * tag.count..] == data[offset + 2 * tag.count..];
      result := ParseValue(data, offset, offset + 2 * tag.count, tag);
    }
  }

  /** readRegisterRange. Whether the device answers the one read of the range is up to `answers`. */
  method ReadRegisterRange(mem: Memory, answers: bool, r: Range, regType: RegisterType)
    returns (res: Outcome<seq<Point>>)
    ensures res == RegistersRead(mem, answers, r, regType)
  {
    if !(regType.HoldingRegister? || regType.InputRegister?) {
      return Err(InvalidRegisterType);
    }
    if !answers {
      return Err(ReadFailed);
    }
    ghost var raw := RegisterBytes(mem, r.start, RegisterCount(r));
    var data := new Byte[2 * RegisterCount(r)](k requires 0 <= k => ByteAt(mem, 2 * r.start + k));
    assert data[..] == raw;
    var points: seq<Point> := [];
    for i := 0 to |r.tags|
      invariant data[..] == BufferAt(raw, r.start, r.tags, i)
      invariant |points| == i
      invariant forall j :: 0 <= j < i ==>
        points[j] == PointAt(raw, r.start, r.tags, j) && points[j].result != Err(OutOfBounds)
    {
      var result := DecodeTag(data, r.start, r.tags[i]);
      if result == Err(OutOfBounds) {
        assert PointAt(raw, r.start, r.tags, i).result == Err(OutOfBounds);
        return Err(OutOfBounds);
      }
      points := points + [Point(r.tags[i], result)];
    }
    assert points == Points(raw, r.start, r.tags);
    res := Ok(points);
  }

  // ----- Which bytes decoding a tag moves

  /** How many registers, from the front of the tag, have bytes that its byte order moves. */
  function MovedRegisters(t: Tag): nat {
    match t.byteOrder
    case BigEndian | OtherOrder(_) => 0
    case LittleEndian | MidBigEndian => t.count
    case MidLittleEndian => t.count - t.count % 2
  }

  /** Decoding t first leaves some byte of u in another place. */
  predicate Disturbs(t: Tag, u: Tag) {
    var m := MovedRegisters(t);
    m > 0 && u.count > 0 && t.address < u.address + u.count && u.address < t.address + m
  }

  ghost predicate Spans(t: Tag, b: nat) { 2 * t.address <= b < 2 * (t.address + t.count) }

  /** The byte that lands on byte b when t is decoded. */
  ghost function Origin(t: Tag, b: nat): nat
    requires Spans(t, b)
  {
    2 * t.address + Source(t.byteOrder, 2 * t.count, b - 2 * t.address)
  }

  /** Where byte b was before t was decoded. */
  ghost function Before(t: Tag, b: nat): nat { if Spans(t, b) then Origin(t, b) else b }

  ghost predicate Moves(t: Tag, b: nat) { Spans(t, b) && Origin(t, b) != b }

  lemma MovesIff(t: Tag, b: nat)
    ensures Moves(t, b) <==> 2 * t.address <= b < 2 * (t.address + MovedRegisters(t))
  {
    if Spans(t, b) {
      SourceMoves(t.byteOrder, 2 * t.count, b - 2 * t.address);
      assert 2 * t.count - (2 * t.count) % 4 == 2 * (t.count - t.count % 2);
    }
  }

  lemma DisturbsIff(t: Tag, u: Tag)
    ensures Disturbs(t, u) <==> exists b: nat :: Moves(t, b) && Spans(u, b)
  {
    if Disturbs(t, u) {
      var b: nat := if t.address <= u.address then 2 * u.address else 2 * t.address;
      MovesIff(t, b);
    } else {
      forall b: nat ensures !(Moves(t, b) && Spans(u, b)) { MovesIff(t, b); }
    }
  }

  // ----- What the tags of a range see

  /** The response to the read of a range. */
  ghost function Raw(mem: Memory, r: Range): seq<Byte> { RegisterBytes(mem, r.start, RegisterCount(r)) }

  /** A range of register tags that all lie inside it, and whose number of registers does not wrap. */
  ghost predicate RegisterRange(r: Range) {
    Inside(r) && Countable(r) && forall i :: 0 <= i < |r.tags| ==> !r.tags[i].IsBit()
  }

  lemma RangeLength(r: Range)
    requires Countable(r)
    ensures RegisterCount(r) == r.end - r.start + 1
  {}

  /** In such a range the out-of-range branch never fires: each tag's slice is there, and it covers the
      tag's own registers. */
  lemma TagIsInBuffer(r: Range, i: nat)
    requires Inside(r) && Countable(r) && i < |r.tags|
    ensures InBuffer(2 * RegisterCount(r), r.start, r.tags[i])
    ensures Offset(r.start, r.tags[i]) == 2 * r.tags[i].address - 2 * r.start
  {
    RangeLength(r);
    assert Holds(r, r.tags[i]);
  }

  /** A tag with registers is out of range, and then on every device, exactly in a range that is the whole
      table. */
  lemma InBufferIff(r: Range, i: nat)
    requires Inside(r) && i < |r.tags| && r.tags[i].count >= 1
    ensures InBuffer(2 * RegisterCount(r), r.start, r.tags[i]) <==> !Whole(r)
    ensures Whole(r) ==>
              forall mem :: PointAt(Raw(mem, r), r.start, r.tags, i) == Point(r.tags[i], Err(InvalidDataLength))
  {
    assert Holds(r, r.tags[i]);
    if !Whole(r) { TagIsInBuffer(r, i); }
  }

  /** An instance: a tag without registers at register 0 keeps any tag of the first hundred registers from
      being read, whatever the device. */
  lemma BlankTagBlocksOthers(blank: Tag, t: Tag, mem: Memory)
    requires blank.BlankStart() && t.count >= 1 && t.address + t.count <= 100
    ensures var ranges := Plan(REGISTER_LIMITS, StablySorted([blank, t]), 0);
            && |ranges| == 1 && ranges[0].tags == [blank, t]
            && PointAt(Raw(mem, ranges[0]), ranges[0].start, ranges[0].tags, 1) == Point(t, Err(InvalidDataLength))
  {
    BlankTagTakesOthersIn(REGISTER_LIMITS, blank, t);
    InBufferIff(Range(0, 65535, [blank, t]), 1);
  }

  /** A buffer with the bytes o..o+n reordered. */
  function Spliced(buf: seq<Byte>, o: nat, n: nat, order: ByteOrder): (r: seq<Byte>)
    requires o + n <= |buf|
    ensures |r| == |buf|
  {
    buf[..o] + Reordered(buf[o..o + n], order) + buf[o + n..]
  }

  lemma Middle(front: seq<Byte>, middle: seq<Byte>, back: seq<Byte>, k: nat)
    requires k < |middle|
    ensures (front + middle + back)[|front| + k] == middle[k]
  {
  }

  lemma Reorders(data: seq<Byte>, order: ByteOrder, k: nat)
    requires k < |data|
    ensures Reordered(data, order)[k] == data[Source(order, |data|, k)]
  {
  }

  lemma SplicedInside(buf: seq<Byte>, o: nat, n: nat, order: ByteOrder, k: nat)
    requires o + n <= |buf| && k < n
    ensures Spliced(buf, o, n, order)[o + k] == buf[o + Source(order, n, k)]
  {
    var slice := buf[o..o + n];
    var (front, middle, back) := (buf[..o], Reordered(slice, order), buf[o + n..]);
    Middle(front, middle, back, k);
    Reorders(slice, order, k);
    assert |front| == o && slice[Source(order, n, k)] == buf[o + Source(order, n, k)];
  }

  lemma SplicedOutside(buf: seq<Byte>, o: nat, n: nat, order: ByteOrder, p: nat)
    requires o + n <= |buf| && p < |buf| && !(o <= p < o + n)
    ensures Spliced(buf, o, n, order)[p] == buf[p]
  {
  }

  lemma OffsetInRange(r: Range, t: Tag)
    requires Holds(r, t)
    ensures Offset(r.start, t) == 2 * (t.address - r.start) && InBuffer(2 * (r.end - r.start + 1), r.start, t)
  {
  }

  lemma TouchIsSpliced(buf: seq<Byte>, r: Range, t: Tag)
    requires Holds(r, t) && !t.IsBit() && |buf| == 2 * (r.end - r.start + 1)
    ensures Touch(buf, r.start, t) == Spliced(buf, 2 * (t.address - r.start), 2 * t.count, t.byteOrder)
  {
    OffsetInRange(r, t);
    var slice := Slice(buf, r.start, t);
    assert slice[..2 * t.count] == slice && slice[2 * t.count..] == [];
    assert LeftBehind(slice, t) == Reordered(slice, t.byteOrder);
  }

  /** Byte b of the device, as it stands in the buffer after the first i tags were decoded. */
  ghost function BufferByte(mem: Memory, tags: seq<Tag>, i: nat, b: nat): Byte
    requires i <= |tags|
  {
    if i == 0 then ByteAt(mem, b) else BufferByte(mem, tags, i - 1, Before(tags[i - 1], b))
  }

  /** The buffer holds the device's bytes from start on as they stand after i tags were decoded. */
  ghost predicate Shows(buf: seq<Byte>, mem: Memory, tags: seq<Tag>, start: nat, i: nat)
    requires i <= |tags|
  {
    forall p: nat :: p < |buf| ==> buf[p] == BufferByte(mem, tags, i, 2 * start + p)
  }

  /** Byte k of the tag that is decoded next comes from elsewhere in the tag. */
  lemma NextInside(buf: seq<Byte>, mem: Memory, tags: seq<Tag>, start: nat, i: nat, k: nat)
    requires i < |tags| && Shows(buf, mem, tags, start, i)
    requires start <= tags[i].address && 2 * (tags[i].address + tags[i].count - start) <= |buf| && k < 2 * tags[i].count
    ensures var (t, o) := (tags[i], 2 * (tags[i].address - start));
            Spliced(buf, o, 2 * t.count, t.byteOrder)[o + k] == BufferByte(mem, tags, i + 1, 2 * start + (o + k))
  {
    var (t, o) := (tags[i], 2 * (tags[i].address - start));
    SplicedInside(buf, o, 2 * t.count, t.byteOrder, k);
    var b := 2 * start + (o + k);
    assert b == 2 * t.address + k;
    assert Before(t, 2 * t.address + k) == 2 * t.address + Source(t.byteOrder, 2 * t.count, k);
  }

  lemma NextOutside(buf: seq<Byte>, mem: Memory, tags: seq<Tag>, start: nat, i: nat, p: nat)
    requires i < |tags| && Shows(buf, mem, tags, start, i) && p < |buf|
    requires start <= tags[i].address && 2 * (tags[i].address + tags[i].count - start) <= |buf|
    requires !(2 * (tags[i].address - start) <= p < 2 * (tags[i].address - start) + 2 * tags[i].count)
    ensures var (t, o) := (tags[i], 2 * (tags[i].address - start));
            Spliced(buf, o, 2 * t.count, t.byteOrder)[p] == BufferByte(mem, tags, i + 1, 2 * start + p)
  {
    var (t, o) := (tags[i], 2 * (tags[i].address - start));
    SplicedOutside(buf, o, 2 * t.count, t.byteOrder, p);
    assert !Spans(t, 2 * start + p);
  }

  lemma SplicedShows(buf: seq<Byte>, mem: Memory, tags: seq<Tag>, start: nat, i: nat)
    requires i < |tags| && Shows(buf, mem, tags, start, i)
    requires start <= tags[i].address && 2 * (tags[i].address + tags[i].count - start) <= |buf|
    ensures Shows(Spliced(buf, 2 * (tags[i].address - start), 2 * tags[i].count, tags[i].byteOrder),
                  mem, tags, start, i + 1)
  {
    var (o, n) := (2 * (tags[i].address - start), 2 * tags[i].count);
    var after := Spliced(buf, o, n, tags[i].byteOrder);
    forall p: nat | p < |after|
      ensures after[p] == BufferByte(mem, tags, i + 1, 2 * start + p)
    {
      if o <= p < o + n {
        NextInside(buf, mem, tags, start, i, p - o);
      } else {
        NextOutside(buf, mem, tags, start, i, p);
      }
    }
  }

  lemma BufferNext(raw: seq<Byte>, start: U16, tags: seq<Tag>, i: nat)
    requires 0 < i <= |tags|
    ensures BufferAt(raw, start, tags, i) == Touch(BufferAt(raw, start, tags, i - 1), start, tags[i - 1])
  {
  }

  lemma RawShows(mem: Memory, tags: seq<Tag>, start: nat, n: nat)
    ensures Shows(RegisterBytes(mem, start, n), mem, tags, start, 0)
  {
  }

  lemma {:induction false} BufferShows(mem: Memory, r: Range, i: nat)
    requires i <= |r.tags| && r.start <= r.end + 1
    requires forall k :: 0 <= k < |r.tags| ==> Holds(r, r.tags[k]) && !r.tags[k].IsBit()
    ensures Shows(BufferAt(RegisterBytes(mem, r.start, r.end - r.start + 1), r.start, r.tags, i),
                  mem, r.tags, r.start, i)
  {
    var raw := RegisterBytes(mem, r.start, r.end - r.start + 1);
    if i == 0 {
      RawShows(mem, r.tags, r.start, r.end - r.start + 1);
    } else {
      BufferShows(mem, r, i - 1);
      BufferNext(raw, r.start, r.tags, i);
      TouchShows(BufferAt(raw, r.start, r.tags, i - 1), BufferAt(raw, r.start, r.tags, i), mem, r, i - 1);
    }
  }

  lemma TouchShows(buf: seq<Byte>, after: seq<Byte>, mem: Memory, r: Range, i: nat)
    requires i < |r.tags| && Holds(r, r.tags[i]) && !r.tags[i].IsBit() && |buf| == 2 * (r.end - r.start + 1)
    requires Shows(buf, mem, r.tags, r.start, i) && after == Touch(buf, r.start, r.tags[i])
    ensures Shows(after, mem, r.tags, r.start, i + 1)
  {
    TouchIsSpliced(buf, r, r.tags[i]);
    SplicedShows(buf, mem, r.tags, r.start, i);
  }

  /** A byte that the tags p..q do not move keeps its value while they are decoded. */
  lemma {:induction false} KeptByte(mem: Memory, tags: seq<Tag>, p: nat, q: nat, b: nat)
    requires p <= q <= |tags| && forall j :: p <= j < q ==> !Moves(tags[j], b)
    ensures BufferByte(mem, tags, q, b) == BufferByte(mem, tags, p, b)
    decreases q
  {
    if p < q {
      KeptByte(mem, tags, p, q - 1, b);
      assert Before(tags[q - 1], b) == b;
    }
  }

  /** The bytes that tag i of the range is decoded from. */
  ghost function Seen(mem: Memory, r: Range, i: nat): seq<Byte>
    requires i < |r.tags| && InBuffer(2 * RegisterCount(r), r.start, r.tags[i])
  {
    Slice(BufferAt(Raw(mem, r), r.start, r.tags, i), r.start, r.tags[i])
  }

  ghost predicate SeesDevice(mem: Memory, r: Range, i: nat)
    requires RegisterRange(r) && i < |r.tags|
  {
    TagIsInBuffer(r, i);
    Seen(mem, r, i) == RegisterBytes(mem, r.tags[i].address, r.tags[i].count)
  }

  ghost predicate Undisturbed(tags: seq<Tag>, i: nat)
    requires i < |tags|
  {
    forall k :: 0 <= k < i ==> !Disturbs(tags[k], tags[i])
  }

  lemma SliceByte(buf: seq<Byte>, r: Range, t: Tag, p: nat)
    requires Holds(r, t) && |buf| == 2 * (r.end - r.start + 1) && p < 2 * t.count
    ensures InBuffer(|buf|, r.start, t)
    ensures 2 * r.start <= 2 * t.address + p < 2 * (r.end + 1)
    ensures Slice(buf, r.start, t)[p] == buf[2 * t.address + p - 2 * r.start]
  {
    OffsetInRange(r, t);
  }

  lemma SlicedShows(buf: seq<Byte>, mem: Memory, r: Range, i: nat, p: nat)
    requires i < |r.tags| && Holds(r, r.tags[i]) && |buf| == 2 * (r.end - r.start + 1) && p < 2 * r.tags[i].count
    requires Shows(buf, mem, r.tags, r.start, i)
    ensures InBuffer(|buf|, r.start, r.tags[i])
    ensures Slice(buf, r.start, r.tags[i])[p] == BufferByte(mem, r.tags, i, 2 * r.tags[i].address + p)
  {
    SliceByte(buf, r, r.tags[i], p);
    var q := 2 * r.tags[i].address + p - 2 * r.start;
    assert buf[q] == BufferByte(mem, r.tags, i, 2 * r.start + q);
  }

  lemma SeenByte(mem: Memory, r: Range, i: nat, p: nat)
    requires RegisterRange(r) && i < |r.tags| && p < 2 * r.tags[i].count
    ensures InBuffer(2 * RegisterCount(r), r.start, r.tags[i])
    ensures Seen(mem, r, i)[p] == BufferByte(mem, r.tags, i, 2 * r.tags[i].address + p)
  {
    RangeLength(r);
    assert Holds(r, r.tags[i]);
    BufferShows(mem, r, i);
    SlicedShows(BufferAt(Raw(mem, r), r.start, r.tags, i), mem, r, i, p);
  }

  lemma UndisturbedByte(mem: Memory, r: Range, i: nat, p: nat)
    requires RegisterRange(r) && i < |r.tags| && Undisturbed(r.tags, i) && p < 2 * r.tags[i].count
    ensures InBuffer(2 * RegisterCount(r), r.start, r.tags[i])
    ensures Seen(mem, r, i)[p] == ByteAt(mem, 2 * r.tags[i].address + p)
  {
    var b := 2 * r.tags[i].address + p;
    forall k | 0 <= k < i ensures !Moves(r.tags[k], b) { DisturbsIff(r.tags[k], r.tags[i]); }
    SeenByte(mem, r, i, p);
    KeptByte(mem, r.tags, 0, i, b);
  }

  lemma ByteByByte(mem: Memory, start: nat, n: nat, seen: seq<Byte>)
    requires |seen| == 2 * n && forall p: nat :: p < |seen| ==> seen[p] == ByteAt(mem, 2 * start + p)
    ensures seen == RegisterBytes(mem, start, n)
  {
  }

  lemma UndisturbedTagSeesDevice(mem: Memory, r: Range, i: nat)
    requires RegisterRange(r) && i < |r.tags| && Undisturbed(r.tags, i)
    ensures SeesDevice(mem, r, i)
  {
    TagIsInBuffer(r, i);
    SeenIsDevice(mem, r, i, Seen(mem, r, i));
  }

  lemma SeenIsDevice(mem: Memory, r: Range, i: nat, seen: seq<Byte>)
    requires RegisterRange(r) && i < |r.tags| && Undisturbed(r.tags, i)
    requires InBuffer(2 * RegisterCount(r), r.start, r.tags[i]) && seen == Seen(mem, r, i)
    ensures seen == RegisterBytes(mem, r.tags[i].address, r.tags[i].count)
  {
    forall p: nat | p < |seen|
      ensures seen[p] == ByteAt(mem, 2 * r.tags[i].address + p)
    {
      UndisturbedByte(mem, r, i, p);
    }
    ByteByByte(mem, r.tags[i].address, r.tags[i].count, seen);
  }

  /** For every device: a tag that no earlier tag of its range disturbs gets the value that its own
      registers spell. That is what it gets when it is read on its own, exactly if it may be. */
  lemma RangeReadRefinesAlone(mem: Memory, r: Range, i: nat)
    requires RegisterRange(r) && i < |r.tags| && Undisturbed(r.tags, i)
    ensures var t := r.tags[i];
            && PointAt(Raw(mem, r), r.start, r.tags, i) == Point(t, Parsed(RegisterBytes(mem, t.address, t.count), t))
            && (PointAt(Raw(mem, r), r.start, r.tags, i) == Point(t, Alone(mem, t)) <==> t.Readable())
  {
    UndisturbedTagSeesDevice(mem, r, i);
    TagIsInBuffer(r, i);
  }

  // ----- The condition is exact

  /** The device in which byte b is 1 and every other byte is 0. */
  ghost function Marked(b: nat): Memory {
    x => if x == b / 2 then (if b % 2 == 0 then 256 else 1) else 0
  }

  lemma MarkedByte(b: nat, c: nat)
    ensures ByteAt(Marked(b), c) == if b == c then 1 else 0
  {}

  /** If i is the first tag that an earlier tag disturbs, then only that tag k moves a byte b that it
      takes from i, and nobody before k moves the byte's origin. */
  lemma StolenByte(mem: Memory, tags: seq<Tag>, k: nat, i: nat, b: nat)
    requires k < i < |tags| && Moves(tags[k], b)
    requires forall j :: 0 <= j < i ==> Undisturbed(tags, j)
    ensures BufferByte(mem, tags, i, b) == ByteAt(mem, Origin(tags[k], b))
  {
    var t := tags[k];
    var origin := Origin(t, b);
    SourceInvolution(t.byteOrder, 2 * t.count, b - 2 * t.address);
    assert Moves(t, origin);
    forall j | 0 <= j < k ensures !Moves(tags[j], origin) {
      assert Undisturbed(tags, k);
      DisturbsIff(tags[j], t);
    }
    KeptByte(mem, tags, 0, k, origin);
    assert BufferByte(mem, tags, k + 1, b) == BufferByte(mem, tags, k, origin);
    forall j | k < j < i ensures !Moves(tags[j], b) {
      assert Undisturbed(tags, j);
      DisturbsIff(t, tags[j]);
    }
    KeptByte(mem, tags, k + 1, i, b);
  }

  /** So some device shows the first tag a byte that is not its own. */
  lemma FirstVictim(r: Range, k: nat, i: nat) returns (mem: Memory)
    requires RegisterRange(r) && k < i < |r.tags| && Disturbs(r.tags[k], r.tags[i])
    requires forall j :: 0 <= j < i ==> Undisturbed(r.tags, j)
    ensures !SeesDevice(mem, r, i)
  {
    var t, u := r.tags[k], r.tags[i];
    DisturbsIff(t, u);
    var b: nat :| Moves(t, b) && Spans(u, b);
    mem := Marked(b);
    MarkedByte(b, b);
    MarkedByte(b, Origin(t, b));
    StolenByte(mem, r.tags, k, i, b);
    var p := b - 2 * u.address;
    SeenByte(mem, r, i, p);
    assert RegisterBytes(mem, u.address, u.count)[p] == ByteAt(mem, b);
  }

  lemma {:induction false} SomeVictim(r: Range, n: nat) returns (mem: Memory, i: nat)
    requires RegisterRange(r) && n < |r.tags| && !Undisturbed(r.tags, n)
    ensures i < |r.tags| && !SeesDevice(mem, r, i)
    decreases n
  {
    if exists j: nat :: j < n && !Undisturbed(r.tags, j) {
      var j: nat :| j < n && !Undisturbed(r.tags, j);
      mem, i := SomeVictim(r, j);
    } else {
      i := n;
      var k :| 0 <= k < n && Disturbs(r.tags[k], r.tags[n]);
      mem := FirstVictim(r, k, n);
    }
  }

  /** Batching hands every tag the bytes that the device holds for it, on every device, exactly when
      no tag of the range disturbs a later one. Disjoint tags and big-endian tags never do. */
  lemma BatchingIsFaithfulIff(r: Range)
    requires RegisterRange(r)
    ensures (forall mem: Memory, i: nat | i < |r.tags| :: SeesDevice(mem, r, i)) <==>
            (forall i: nat | i < |r.tags| :: Undisturbed(r.tags, i))
  {
    forall mem: Memory, i: nat | i < |r.tags| && Undisturbed(r.tags, i) ensures SeesDevice(mem, r, i) {
      UndisturbedTagSeesDevice(mem, r, i);
    }
    if exists n: nat :: n < |r.tags| && !Undisturbed(r.tags, n) {
      var n: nat :| n < |r.tags| && !Undisturbed(r.tags, n);
      var mem, i := SomeVictim(r, n);
    }
  }

  /** From the shared buffer tag i gets what reading it alone gives. */
  ghost predicate ReadsOwn(mem: Memory, r: Range, i: nat)
    requires i < |r.tags|
  {
    PointAt(Raw(mem, r), r.start, r.tags, i) == Point(r.tags[i], Alone(mem, r.tags[i]))
  }

  /** A number of exactly its type's width. */
  predicate IsNumber(u: Tag) { Plain(u) && !u.dataType.Bool? && !u.dataType.OtherType? }

  /** The same for the decoded values, when every tag is such a number: every tag must be one that may be
      read on its own, and none may disturb a later one. */
  lemma BatchedValuesAreRightIff(r: Range)
    requires RegisterRange(r)
    requires forall i :: 0 <= i < |r.tags| ==> IsNumber(r.tags[i])
    ensures (forall mem: Memory, i: nat | i < |r.tags| :: ReadsOwn(mem, r, i)) <==>
            (forall i: nat | i < |r.tags| :: Undisturbed(r.tags, i) && r.tags[i].Readable())
  {
    forall mem: Memory, i: nat | i < |r.tags| && Undisturbed(r.tags, i) && r.tags[i].Readable()
      ensures ReadsOwn(mem, r, i)
    {
      RangeReadRefinesAlone(mem, r, i);
    }
    if exists n: nat :: n < |r.tags| && !Undisturbed(r.tags, n) {
      var n: nat :| n < |r.tags| && !Undisturbed(r.tags, n);
      var mem, i := SomeVictim(r, n);
      TagIsInBuffer(r, i);
      if ReadsOwn(mem, r, i) {
        DecodeInjective(Seen(mem, r, i), RegisterBytes(mem, r.tags[i].address, r.tags[i].count), r.tags[i]);
      }
    } else if exists n: nat :: n < |r.tags| && !r.tags[n].Readable() {
      var n: nat :| n < |r.tags| && !r.tags[n].Readable();
      assert Undisturbed(r.tags, n);
      RangeReadRefinesAlone(_ => 0, r, n);
      assert !ReadsOwn(_ => 0, r, n);
    }
  }
}
