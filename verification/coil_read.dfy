/** Coils and discrete inputs: bit packing (WriteMultipleCoils, and the responses to function codes
    01 and 02), reading a range of coils in one operation and picking the tags' bits out of the
    response (readCoilRange), compared with reading each tag on its own. */
module CoilRead {
  import opened Arithmetic
  import opened Wrappers
  import opened ModbusTypes
  import opened Conversion
  import opened RangePlanner
  import opened PlanProperties

  // ----- Packing, least significant bit first

  /** u | 1 << k */
  function SetBit(u: nat, k: nat): nat {
    if k == 0 then u - u % 2 + 1 else 2 * SetBit(u / 2, k - 1) + u % 2
  }

  /** Bit k of the number is element k of the sequence. */
  function PackBits(bits: seq<bool>): (u: nat)
    ensures u < Pow2(|bits|)
  {
    if bits == [] then 0 else (if bits[0] then 1 else 0) + 2 * PackBits(bits[1..])
  }

  /** Eight bits to a byte, the last byte filled up with zeros. */
  function Packed(values: seq<bool>): (r: seq<Byte>)
    ensures |r| == (|values| + 7) / 8
  {
    assert Pow2(8) == 256 by { assert Pow2(4) == 16; }
    if values == [] then []
    else if |values| <= 8 then PackBitsBound(values); [PackBits(values)]
    else [PackBits(values[..8])] + Packed(values[8..])
  }

  lemma {:induction false} Pow2Grows(m: nat, n: nat)
    requires m <= n
    ensures Pow2(m) <= Pow2(n)
    decreases n
  {
    if m < n { Pow2Grows(m, n - 1); }
  }

  lemma PackBitsBound(bits: seq<bool>)
    requires |bits| <= 8
    ensures PackBits(bits) < 256
  {
    Pow2Grows(|bits|, 8);
    assert Pow2(8) == 256 by { assert Pow2(4) == 16; }
  }

  lemma {:induction false} PackBitsBit(bits: seq<bool>, k: nat)
    ensures BitSet(PackBits(bits), k) <==> k < |bits| && bits[k]
  {
    if bits != [] {
      assert PackBits(bits) / 2 == PackBits(bits[1..]);
      if k > 0 { PackBitsBit(bits[1..], k - 1); }
    } else if k > 0 {
      PackBitsBit([], k - 1);
    }
  }

  /** Unpacking undoes packing: bit i % 8 of byte i / 8 is value i, for any number of values, and the
      bits behind the last value are zero. */
  lemma {:induction false} PackedBit(values: seq<bool>, i: nat)
    requires i / 8 < |Packed(values)|
    ensures BitSet(Packed(values)[i / 8], i % 8) <==> i < |values| && values[i]
  {
    if |values| <= 8 {
      PackBitsBit(values, i);
    } else if i < 8 {
      PackBitsBit(values[..8], i);
    } else {
      PackedBit(values[8..], i - 8);
      assert (i - 8) / 8 == i / 8 - 1 && (i - 8) % 8 == i % 8;
    }
  }

  lemma {:induction false} PackBitsSet(bits: seq<bool>, k: nat)
    requires k < |bits|
    ensures PackBits(bits[k := true]) == SetBit(PackBits(bits), k)
  {
    if k == 0 {
      assert bits[0 := true][1..] == bits[1..];
    } else {
      PackBitsSet(bits[1..], k - 1);
      assert bits[k := true][1..] == bits[1..][k - 1 := true];
      assert PackBits(bits) / 2 == PackBits(bits[1..]);
    }
  }

  lemma {:induction false} PackedSet(values: seq<bool>, i: nat)
    requires i < |values|
    ensures SetBit(Packed(values)[i / 8], i % 8) < 256
    ensures Packed(values[i := true]) == Packed(values)[i / 8 := SetBit(Packed(values)[i / 8], i % 8)]
  {
    var after := values[i := true];
    if |values| <= 8 {
      PackBitsSet(values, i);
      PackBitsBound(after);
      InFirstByte(i);
    } else if i < 8 {
      PackBitsSet(values[..8], i);
      PackBitsBound(after[..8]);
      InFirstByte(i);
      assert after[..8] == values[..8][i := true];
      assert after[8..] == values[8..];
    } else {
      PackedSet(values[8..], i - 8);
      BehindFirstByte(i);
      assert after[8..] == values[8..][i - 8 := true] && after[..8] == values[..8];
      UpdateBehindHead(PackBits(values[..8]), Packed(values[8..]), i / 8, SetBit(Packed(values)[i / 8], i % 8));
    }
  }

  lemma InFirstByte(i: nat)
    requires i < 8
    ensures i / 8 == 0 && i % 8 == i
  {
  }

  lemma BehindFirstByte(i: nat)
    requires i >= 8
    ensures i / 8 >= 1 && (i - 8) / 8 == i / 8 - 1 && (i - 8) % 8 == i % 8
  {
  }

  lemma UpdateBehindHead(head: nat, rest: seq<nat>, j: nat, x: nat)
    requires 1 <= j <= |rest|
    ensures ([head] + rest)[j := x] == [head] + rest[j - 1 := x]
    ensures ([head] + rest)[j] == rest[j - 1]
  {
  }

  lemma {:induction false} PackedZeros(values: seq<bool>)
    requires forall i :: 0 <= i < |values| ==> !values[i]
    ensures forall j :: 0 <= j < |Packed(values)| ==> Packed(values)[j] == 0
  {
    if |values| > 8 {
      PackBitsZero(values[..8]);
      PackedZeros(values[8..]);
    } else {
      PackBitsZero(values);
    }
  }

  lemma {:induction false} PackBitsZero(bits: seq<bool>)
    requires forall i :: 0 <= i < |bits| ==> !bits[i]
    ensures PackBits(bits) == 0
  {
    if bits != [] { PackBitsZero(bits[1..]); }
  }

  /** The packing loop of WriteMultipleCoils. */
  method PackCoils(values: seq<bool>) returns (bytes: array<Byte>)
    ensures fresh(bytes) && bytes[..] == Packed(values)
  {
    bytes := new Byte[(|values| + 7) / 8](_ => 0);
    ghost var sent := seq(|values|, _ => false);
    PackedZeros(sent);
    assert bytes[..] == Packed(sent);
    for i := 0 to |values|
      invariant |sent| == |values| && bytes[..] == Packed(sent)
      invariant forall j :: 0 <= j < |values| ==> sent[j] == (j < i && values[j])
    {
      if values[i] {
        PackedSet(sent, i);
        bytes[i / 8] := SetBit(bytes[i / 8], i % 8);
        sent := sent[i := true];
      }
    }
    assert sent == values;
  }

  // ----- Reading

  type Coils = nat -> bool

  function Bits(coils: Coils, start: nat, n: nat): (r: seq<bool>)
    ensures |r| == n
  {
    seq(n, k requires 0 <= k < n => coils(start + k))
  }

  /** The value of a coil tag that is read on its own. */
  function Alone(coils: Coils, t: Tag): Outcome<Value> {
    if t.LimitError().Some? then Err(t.LimitError().value) else Parsed(Packed(Bits(coils, t.address, t.count)), t)
  }

  function CoilCount(r: Range): U16 { Wrap16(r.end - r.start + 1) }

  /** The value that readCoilRange takes for a tag out of the response. */
  function Picked(data: seq<Byte>, start: U16, t: Tag): Outcome<Value> {
    var bit := Wrap16(t.address - start);
    if bit / 8 < |data| then Ok(BoolValue(BitSet(data[bit / 8], bit % 8))) else Err(InvalidDataLength)
  }

  /** The result of readCoilRange. */
  function CoilsRead(coils: Coils, answers: bool, r: Range, regType: RegisterType): Outcome<seq<Outcome<Value>>> {
    var data := Packed(Bits(coils, r.start, CoilCount(r)));
    if !(regType.Coil? || regType.DiscreteInput?) then Err(InvalidRegisterType)
    else if !answers then Err(ReadFailed)
    else Ok(AllPicked(data, r.start, r.tags))
  }

  function AllPicked(data: seq<Byte>, start: U16, tags: seq<Tag>): (r: seq<Outcome<Value>>)
    ensures |r| == |tags|
  {
    seq(|tags|, i requires 0 <= i < |tags| => Picked(data, start, tags[i]))
  }

  method ReadCoilRange(coils: Coils, answers: bool, r: Range, regType: RegisterType)
    returns (res: Outcome<seq<Outcome<Value>>>)
    ensures res == CoilsRead(coils, answers, r, regType)
  {
    if !(regType.Coil? || regType.DiscreteInput?) {
      return Err(InvalidRegisterType);
    }
    if !answers {
      return Err(ReadFailed);
    }
    var data := PackCoils(Bits(coils, r.start, CoilCount(r)));
    var values: seq<Outcome<Value>> := [];
    for i := 0 to |r.tags|
      invariant |values| == i
      invariant forall j :: 0 <= j < i ==> values[j] == Picked(data[..], r.start, r.tags[j])
    {
      var bitOffset := Wrap16(r.tags[i].address - r.start);
      if bitOffset / 8 >= data.Length {
        values := values + [Err(InvalidDataLength)];
      } else {
        values := values + [Ok(BoolValue(BitSet(data[bitOffset / 8], bitOffset % 8)))];
      }
    }
    assert values == AllPicked(data[..], r.start, r.tags);
    res := Ok(values);
  }

  /** A tag with coils gets the coil at its own address, and never the error branch, in every range that
      holds its tags and whose number of coils does not wrap. */
  lemma PickedIsOwnCoil(coils: Coils, r: Range, i: nat)
    requires Inside(r) && Countable(r) && i < |r.tags| && r.tags[i].count >= 1
    ensures Picked(Packed(Bits(coils, r.start, CoilCount(r))), r.start, r.tags[i]) ==
            Ok(BoolValue(coils(r.tags[i].address)))
  {
    var t := r.tags[i];
    assert Holds(r, t);
    var bits, k := Bits(coils, r.start, CoilCount(r)), t.address - r.start;
    assert CoilCount(r) == r.end - r.start + 1 && Wrap16(k) == k;
    assert k / 8 < |Packed(bits)|;
    PackedBit(bits, k);
  }

  /** In a range that is the whole table, on the other hand, every tag gets the error. */
  lemma NothingPickedIff(coils: Coils, r: Range, i: nat)
    requires Inside(r) && i < |r.tags| && r.tags[i].count >= 1
    ensures Picked(Packed(Bits(coils, r.start, CoilCount(r))), r.start, r.tags[i]) == Err(InvalidDataLength) <==>
            Whole(r)
  {
    assert Holds(r, r.tags[i]);
    if !Whole(r) { PickedIsOwnCoil(coils, r, i); }
  }

  /** An instance: a tag without coils at coil 0 keeps any tag of the first thousand coils from being read. */
  lemma BlankTagBlocksOthers(blank: Tag, t: Tag, coils: Coils)
    requires blank.BlankStart() && t.count >= 1 && t.address + t.count <= 1000
    ensures var ranges := Plan(COIL_LIMITS, StablySorted([blank, t]), 0);
            && |ranges| == 1 && ranges[0].tags == [blank, t]
            && Picked(Packed(Bits(coils, ranges[0].start, CoilCount(ranges[0]))), ranges[0].start, t) ==
               Err(InvalidDataLength)
  {
    BlankTagTakesOthersIn(COIL_LIMITS, blank, t);
    NothingPickedIff(coils, Range(0, 65535, [blank, t]), 1);
  }

  lemma {:induction false} LowestBit(u: nat, n: nat) returns (k: nat)
    requires 0 < u < Pow2(n)
    ensures k < n && BitSet(u, k)
  {
    if u % 2 == 1 {
      k := 0;
    } else {
      k := LowestBit(u / 2, n - 1);
      k := k + 1;
    }
  }

  lemma {:induction false} ZeroHasNoBits(k: nat)
    ensures !BitSet(0, k)
  {
    if k > 0 { ZeroHasNoBits(k - 1); }
  }

  ghost predicate On(coils: Coils, address: nat, k: nat) { coils(address + k) }

  /** What a tag reads on its own: the coil at its bit position, or whether any of the (at most
      eight) coils in the first byte is on. */
  lemma AloneMeans(coils: Coils, t: Tag)
    requires t.IsBit() && t.Readable()
    ensures t.bitPosition.Some? ==>
      var p := t.bitPosition.value;
      Alone(coils, t) == Ok(BoolValue(p < t.count && p < 8 && coils(t.address + p)))
    ensures t.bitPosition.None? ==>
      Alone(coils, t) == Ok(BoolValue(exists k: nat :: k < t.count && k < 8 && On(coils, t.address, k)))
  {
    var bits := Bits(coils, t.address, t.count);
    var first := Packed(bits)[0];
    var n := if t.count < 8 then t.count else 8;
    assert first == PackBits(bits[..n]) by { assert t.count <= 8 ==> bits[..n] == bits; }
    forall k: nat ensures BitSet(first, k) <==> k < n && On(coils, t.address, k) { PackBitsBit(bits[..n], k); }
    if first != 0 {
      var k := LowestBit(first, n);
    } else {
      forall k: nat ensures !BitSet(0, k) { ZeroHasNoBits(k); }
    }
  }

  lemma SingleCoilAlone(coils: Coils, t: Tag)
    requires t.IsBit() && t.Readable() && SingleBit(t)
    ensures Alone(coils, t) == Ok(BoolValue(coils(t.address)))
  {
    AloneMeans(coils, t);
    assert On(coils, t.address, 0) == coils(t.address);
  }

  /** Batching a coil tag gives, on every device, the value of reading it alone exactly when it may be
      read alone at all and is a single coil, or asks for bit 0. */
  lemma CoilBatchingIsFaithfulIff(r: Range, i: nat)
    requires Inside(r) && Countable(r) && i < |r.tags| && r.tags[i].IsBit()
    ensures (forall coils: Coils ::
               Picked(Packed(Bits(coils, r.start, CoilCount(r))), r.start, r.tags[i]) == Alone(coils, r.tags[i])) <==>
            SingleBit(r.tags[i]) && r.tags[i].Readable()
  {
    var t := r.tags[i];
    if !t.Readable() {
      var picked := Picked(Packed(Bits(_ => false, r.start, CoilCount(r))), r.start, t);
      assert picked.Ok? || picked.error == InvalidDataLength;
      assert Alone(_ => false, t).Err? && Alone(_ => false, t).error != InvalidDataLength;
    } else if SingleBit(t) {
      forall coils: Coils
        ensures Picked(Packed(Bits(coils, r.start, CoilCount(r))), r.start, t) == Alone(coils, t)
      {
        PickedIsOwnCoil(coils, r, i);
        SingleCoilAlone(coils, t);
      }
    } else {
      SomeCoilsDiffer(r, i);
    }
  }

  lemma SomeCoilsDiffer(r: Range, i: nat)
    requires Inside(r) && Countable(r) && i < |r.tags|
    requires r.tags[i].IsBit() && r.tags[i].Readable() && !SingleBit(r.tags[i])
    ensures exists coils: Coils ::
      Picked(Packed(Bits(coils, r.start, CoilCount(r))), r.start, r.tags[i]) != Alone(coils, r.tags[i])
  {
    var t := r.tags[i];
    if t.bitPosition.Some? {
      var coils: Coils := x => x == t.address;
      PickedIsOwnCoil(coils, r, i);
      AloneMeans(coils, t);
    } else {
      var coils: Coils := x => x == t.address + 1;
      PickedIsOwnCoil(coils, r, i);
      AloneMeans(coils, t);
      assert On(coils, t.address, 1);
    }
  }

  predicate SingleBit(t: Tag) {
    if t.bitPosition.Some? then t.bitPosition.value == 0 else t.count == 1
  }
}
