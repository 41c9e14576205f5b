/** Decoding and encoding of register values (conversion.go), for tags with unit scaling. */
module Conversion {
  import opened Arithmetic
  import opened Wrappers
  import opened ModbusTypes
  import opened ByteOrdering

  // ----- Big-endian numbers

  function Pow256(w: nat): (p: nat)
    ensures p >= 1
  {
    if w == 0 then 1 else 256 * Pow256(w - 1)
  }

  /** The unsigned number that the bytes spell, most significant byte first. */
  function FromBytes(s: seq<Byte>): nat {
    if s == [] then 0 else 256 * FromBytes(s[..|s| - 1]) + s[|s| - 1]
  }

  /** The w-byte big-endian form of u modulo 256^w. */
  function ToBytes(w: nat, u: nat): (s: seq<Byte>)
    ensures |s| == w
  {
    if w == 0 then [] else ToBytes(w - 1, u / 256) + [u % 256]
  }

  lemma {:induction false} FromToBytes(w: nat, u: nat)
    requires u < Pow256(w)
    ensures FromBytes(ToBytes(w, u)) == u
  {
    if w > 0 {
      FromToBytes(w - 1, u / 256);
      assert ToBytes(w, u)[..w - 1] == ToBytes(w - 1, u / 256);
    }
  }

  lemma {:induction false} ToFromBytes(s: seq<Byte>)
    ensures FromBytes(s) < Pow256(|s|)
    ensures ToBytes(|s|, FromBytes(s)) == s
  {
    if s != [] {
      var front := s[..|s| - 1];
      ToFromBytes(front);
      assert FromBytes(s) / 256 == FromBytes(front) && FromBytes(s) % 256 == s[|s| - 1];
    }
  }

  // ----- Fixed-width integers

  /** The width in bytes of a data type, and whether the Go type that holds it is signed. */
  function Width(t: DataType): nat {
    match t
    case Int32 | UInt32 | Float32 => 4
    case Int64 | UInt64 | Float64 => 8
    case _ => 2
  }

  predicate IsInteger(t: DataType) {
    t.Int16? || t.UInt16? || t.Int32? || t.UInt32? || t.Int64? || t.UInt64?
  }

  predicate IsSigned(t: DataType) { t.Int16? || t.Int32? || t.Int64? }

  /** The values of the Go integer type behind a data type. */
  predicate InRange(t: DataType, n: int) {
    var m := Pow256(Width(t));
    if IsSigned(t) then -(m as int) <= 2 * n < m else 0 <= n < m
  }

  /** The two integers agree in the bits that the data type keeps. */
  ghost predicate SameLowBits(t: DataType, a: int, b: int) { (a - b) % Pow256(Width(t)) == 0 }

  /** A Go conversion from an unsigned to a signed type of the same width. */
  function Reinterpret(t: DataType, u: nat): int {
    if IsSigned(t) && 2 * u >= Pow256(Width(t)) then u - Pow256(Width(t)) else u
  }

  // ----- parseValue

  /** u & (1 << p) != 0 */
  predicate BitSet(u: nat, p: nat) {
    if p == 0 then u % 2 == 1 else BitSet(u / 2, p - 1)
  }

  function Decode(ordered: seq<Byte>, tag: Tag): Outcome<Value> {
    if tag.dataType.OtherType? then Err(InvalidDataType)
    else if |ordered| < Width(tag.dataType) then Err(OutOfBounds)
    else
      var u := FromBytes(ordered[..Width(tag.dataType)]);
      match tag.dataType
      case Bool =>
        (match tag.bitPosition
         case Some(p) => Ok(BoolValue(BitSet(u, p)))
         case None => Ok(BoolValue(ordered[0] != 0 || ordered[1] != 0)))
      case Float32 | Float64 => Ok(FloatBits(tag.dataType, u))
      case _ => Ok(IntValue(tag.dataType, Reinterpret(tag.dataType, u)))
  }

  /** The result of parseValue as a function of the bytes it is given. */
  function Parsed(data: seq<Byte>, tag: Tag): Outcome<Value> {
    if data == [] then Err(InvalidDataLength)
    else if tag.IsBit() then
      (match tag.bitPosition
       case Some(p) => Ok(BoolValue(BitSet(data[0], p)))
       case None => Ok(BoolValue(data[0] != 0)))
    else if |data| < 2 * tag.count then Err(InvalidDataLength)
    else Decode(Reordered(data[..2 * tag.count], tag.byteOrder), tag)
  }

  /** A register tag with some registers, but fewer than its type is made of. Nothing on the way from a
      configuration message to a read rules this out. */
  predicate Undersized(tag: Tag) { !tag.IsBit() && 0 < tag.count < tag.ExpectedCount() }

  lemma Widths(t: Tag)
    ensures 2 * t.ExpectedCount() == Width(t.dataType)
  {
  }

  /** On the data that its own registers give, a tag is parsed past the end exactly when it is undersized,
      whatever the data. */
  lemma OutOfBoundsIff(data: seq<Byte>, tag: Tag)
    requires tag.IsBit() || |data| == 2 * tag.count
    ensures Parsed(data, tag) == Err(OutOfBounds) <==> Undersized(tag)
  {
    Widths(tag);
  }

  /** An instance: one register for a 32-bit integer. */
  lemma OneRegisterForInt32(tag: Tag)
    requires tag.registerType.HoldingRegister? && tag.dataType.Int32? && tag.count == 1
    ensures Parsed([0, 7], tag) == Err(OutOfBounds)
  {
    OutOfBoundsIff([0, 7], tag);
  }

  /** The effect of parseValue on the bytes it is given: they are left in the tag's order. */
  function LeftBehind(data: seq<Byte>, tag: Tag): (r: seq<Byte>)
    ensures |r| == |data|
  {
    if tag.IsBit() || |data| < 2 * tag.count then data
    else Reordered(data[..2 * tag.count], tag.byteOrder) + data[2 * tag.count..]
  }

  /** parseValue on the slice a[lo..hi]. It reorders the slice in place, so a caller that shares
      the buffer sees the change. */
  method ParseValue(a: array<Byte>, lo: nat, hi: nat, tag: Tag) returns (r: Outcome<Value>)
    requires lo <= hi <= a.Length
    modifies a
    ensures r == Parsed(old(a[lo..hi]), tag)
    ensures a[..] == old(a[..lo]) + LeftBehind(old(a[lo..hi]), tag) + old(a[hi..])
  {
    ghost var front, data, back := a[..lo], a[lo..hi], a[hi..];
    assert a[..] == front + data + back;
    if lo == hi {
      return Err(InvalidDataLength);
    }
    if tag.IsBit() {
      match tag.bitPosition
      case Some(p) => return Ok(BoolValue(BitSet(a[lo], p)));
      case None => return Ok(BoolValue(a[lo] != 0));
    }
    if hi - lo < 2 * tag.count {
      return Err(InvalidDataLength);
    }
    var end := lo + 2 * tag.count;
    ghost var n := end - lo;
    assert data[..n] == a[lo..end] && data[n..] + back == a[end..];
    r := ParseRegisters(a, lo, end, tag);
    LeftBehindInPlace(front, data, back, tag);
  }

  lemma LeftBehindInPlace(front: seq<Byte>, data: seq<Byte>, back: seq<Byte>, tag: Tag)
    requires !tag.IsBit() && |data| >= 2 * tag.count
    ensures var n := 2 * tag.count;
            front + Reordered(data[..n], tag.byteOrder) + (data[n..] + back) == front + LeftBehind(data, tag) + back
  {}

  /** The register branch: the bytes lo..hi are brought into order and decoded. */
  method ParseRegisters(a: array<Byte>, lo: nat, hi: nat, tag: Tag) returns (r: Outcome<Value>)
    requires lo <= hi <= a.Length
    modifies a
    ensures r == Decode(Reordered(old(a[lo..hi]), tag.byteOrder), tag)
    ensures a[..] == old(a[..lo]) + Reordered(old(a[lo..hi]), tag.byteOrder) + old(a[hi..])
  {
    ReorderBytes(a, lo, hi, tag.byteOrder);
    assert a[..] == a[..lo] + a[lo..hi] + a[hi..];
    r := Decode(a[lo..hi], tag);
  }

  // ----- valueToBytes

  /** The Go values that a write request carries: a bool, an integer of any Go width, a float (which is
      what JSON numbers are), NaN or an infinity, or a value that is none of these. */
  datatype WriteValue = WriteBool(b: bool) | WriteInt(n: GoInteger) | WriteFloat(x: real) | WriteNonFinite | WriteOther

  type GoInteger = n: int | -0x8000_0000_0000_0000 <= n < 0x1_0000_0000_0000_0000

  /** What the Go implementation makes of the value that is written: its bit pattern in the tag's
      floating-point type, and its conversion to an integer where the language leaves that open. */
  datatype GoConversion = GoConversion(floatBits: nat, openInteger: int)

  function Truthy(v: WriteValue): bool {
    match v
    case WriteBool(b) => b
    case WriteInt(n) => n != 0
    case WriteFloat(x) => x != 0.0
    case WriteNonFinite => true
    case WriteOther => false
  }

  /** Go defines the conversion of a float to the 64-bit type that the tag's type goes through: toUint64 for
      UInt64, toInt64 for all others. */
  predicate Converts(x: real, t: DataType) {
    var n := Truncated(x);
    if t.UInt64? then 0 <= n < 0x1_0000_0000_0000_0000 else -0x8000_0000_0000_0000 <= n < 0x8000_0000_0000_0000
  }

  /** toInt64 and toUint64: a float loses its fraction. */
  function Integer(v: WriteValue, t: DataType, go: GoConversion): Option<int> {
    match v
    case WriteInt(n) => Some(n)
    case WriteFloat(x) => Some(if Converts(x, t) then Truncated(x) else go.openInteger)
    case WriteNonFinite => Some(go.openInteger)
    case _ => None
  }

  /** The number that the bytes will spell. Conversions to a narrower Go integer keep the low bits. */
  function Number(v: WriteValue, t: DataType, go: GoConversion): Outcome<nat> {
    if t.Bool? then Ok(if Truthy(v) then 1 else 0)
    else if t.OtherType? then Err(InvalidDataType)
    else
      var n := Integer(v, t, go);
      if n.None? then Err(InvalidWriteValue)
      else if t.Float32? || t.Float64? then Ok(go.floatBits)
      else Ok(n.value % Pow256(Width(t)))
  }

  /** The result of valueToBytes. */
  function Encoded(v: WriteValue, tag: Tag, go: GoConversion): Outcome<seq<Byte>> {
    var u := Number(v, tag.dataType, go);
    if u.Err? then Err(u.error) else Ok(Reordered(ToBytes(Width(tag.dataType), u.value), tag.byteOrder))
  }

  method PutBigEndian(a: array<Byte>, u: nat)
    modifies a
    ensures a[..] == ToBytes(a.Length, u)
  {
    var k, rest := a.Length, u;
    while k > 0
      invariant 0 <= k <= a.Length
      invariant ToBytes(a.Length, u) == ToBytes(k, rest) + a[k..]
    {
      k := k - 1;
      a[k] := rest % 256;
      rest := rest / 256;
    }
  }

  method ValueToBytes(v: WriteValue, tag: Tag, go: GoConversion) returns (r: Outcome<array<Byte>>)
    ensures r.Err? <==> Encoded(v, tag, go).Err?
    ensures r.Err? ==> r.error == Encoded(v, tag, go).error
    ensures r.Ok? ==> fresh(r.value) && r.value[..] == Encoded(v, tag, go).value
  {
    var t, u := tag.dataType, 0;
    if t.Bool? {
      if Truthy(v) { u := 1; }
    } else if t.OtherType? {
      return Err(InvalidDataType);
    } else {
      var n := Integer(v, t, go);
      if n.None? {
        return Err(InvalidWriteValue);
      }
      u := if t.Float32? || t.Float64? then go.floatBits else n.value % Pow256(Width(t));
    }
    var bytes := new Byte[Width(t)];
    PutBigEndian(bytes, u);
    assert bytes[0..bytes.Length] == bytes[..];
    ReorderBytes(bytes, 0, bytes.Length, tag.byteOrder);
    assert bytes[0..bytes.Length] == bytes[..];
    r := Ok(bytes);
  }

  // ----- Round trips

  /** A register tag as it is written and read back: the type's own register count, no bit position. */
  predicate Plain(tag: Tag) {
    !tag.IsBit() && tag.count == tag.ExpectedCount() && tag.bitPosition.None?
  }

  lemma NarrowThenWiden16(n: int, t: DataType)
    requires t.Int16? || t.UInt16?
    ensures var r := Reinterpret(t, n % 0x1_0000);
            InRange(t, r) && (r - n) % 0x1_0000 == 0 && (r == n <==> InRange(t, n))
  {
    WordSizes();
    Modulo16(n);
  }

  lemma NarrowThenWiden32(n: int, t: DataType)
    requires t.Int32? || t.UInt32?
    ensures var r := Reinterpret(t, n % 0x1_0000_0000);
            InRange(t, r) && (r - n) % 0x1_0000_0000 == 0 && (r == n <==> InRange(t, n))
  {
    WordSizes();
    Modulo32(n);
  }

  lemma NarrowThenWiden64(n: int, t: DataType)
    requires t.Int64? || t.UInt64?
    ensures var r := Reinterpret(t, n % 0x1_0000_0000_0000_0000);
            InRange(t, r) && (r - n) % 0x1_0000_0000_0000_0000 == 0 && (r == n <==> InRange(t, n))
  {
    WordSizes();
    Modulo64(n);
  }

  /** Narrowing keeps the low bits and widening picks the value of the type with those bits. */
  lemma NarrowThenWiden(n: int, t: DataType)
    requires IsInteger(t)
    ensures var m := Pow256(Width(t)); var r := Reinterpret(t, n % m);
            InRange(t, r) && SameLowBits(t, r, n) && (r == n <==> InRange(t, n))
  {
    WordSizes();
    if Width(t) == 2 {
      NarrowThenWiden16(n, t);
    } else if Width(t) == 4 {
      NarrowThenWiden32(n, t);
    } else {
      NarrowThenWiden64(n, t);
    }
  }

  lemma Modulo16(n: int)
    ensures (n % 0x1_0000 - n) % 0x1_0000 == 0 && (n % 0x1_0000 - 0x1_0000 - n) % 0x1_0000 == 0
    ensures -0x1_0000 <= n < 0 ==> n % 0x1_0000 == n + 0x1_0000
  {}

  lemma Modulo32(n: int)
    ensures (n % 0x1_0000_0000 - n) % 0x1_0000_0000 == 0
    ensures (n % 0x1_0000_0000 - 0x1_0000_0000 - n) % 0x1_0000_0000 == 0
    ensures -0x1_0000_0000 <= n < 0 ==> n % 0x1_0000_0000 == n + 0x1_0000_0000
  {}

  lemma Modulo64(n: int)
    ensures (n % 0x1_0000_0000_0000_0000 - n) % 0x1_0000_0000_0000_0000 == 0
    ensures (n % 0x1_0000_0000_0000_0000 - 0x1_0000_0000_0000_0000 - n) % 0x1_0000_0000_0000_0000 == 0
    ensures -0x1_0000_0000_0000_0000 <= n < 0 ==> n % 0x1_0000_0000_0000_0000 == n + 0x1_0000_0000_0000_0000
  {}

  lemma WidenThenNarrow(u: nat, t: DataType)
    requires IsInteger(t) && u < Pow256(Width(t))
    ensures var r := Reinterpret(t, u);
            InRange(t, r) && r % Pow256(Width(t)) == u &&
            -0x8000_0000_0000_0000 <= r < 0x1_0000_0000_0000_0000
  {
    WordSizes();
    if Width(t) == 2 {
      Modulo16(Reinterpret(t, u));
    } else if Width(t) == 4 {
      Modulo32(Reinterpret(t, u));
    } else {
      Modulo64(Reinterpret(t, u));
    }
  }

  lemma ParsedInteger(data: seq<Byte>, tag: Tag)
    requires Plain(tag) && IsInteger(tag.dataType) && |data| == 2 * tag.count
    ensures Parsed(data, tag) ==
            Ok(IntValue(tag.dataType, Reinterpret(tag.dataType, FromBytes(Reordered(data, tag.byteOrder)))))
  {
    assert data[..2 * tag.count] == data;
    var ordered := Reordered(data, tag.byteOrder);
    assert ordered[..Width(tag.dataType)] == ordered;
  }

  lemma FromReordered(w: nat, u: nat, order: ByteOrder)
    requires u < Pow256(w)
    ensures FromBytes(Reordered(Reordered(ToBytes(w, u), order), order)) == u
  {
    FromToBytes(w, u);
    ReorderedInvolution(ToBytes(w, u), order);
  }

  lemma ParsedBytes(u: nat, tag: Tag)
    requires Plain(tag) && IsInteger(tag.dataType) && u < Pow256(Width(tag.dataType))
    ensures Parsed(Reordered(ToBytes(Width(tag.dataType), u), tag.byteOrder), tag) ==
            Ok(IntValue(tag.dataType, Reinterpret(tag.dataType, u)))
  {
    FromReordered(Width(tag.dataType), u, tag.byteOrder);
    ParsedInteger(Reordered(ToBytes(Width(tag.dataType), u), tag.byteOrder), tag);
  }

  lemma EncodedThenParsed(n: GoInteger, tag: Tag, go: GoConversion)
    requires Plain(tag) && IsInteger(tag.dataType)
    ensures Encoded(WriteInt(n), tag, go).Ok?
    ensures Parsed(Encoded(WriteInt(n), tag, go).value, tag) ==
            Ok(IntValue(tag.dataType, Reinterpret(tag.dataType, n % Pow256(Width(tag.dataType)))))
  {
    ParsedBytes(n % Pow256(Width(tag.dataType)), tag);
  }

  /** Encoding an integer and decoding it again gives the integer of the tag's type that agrees
      with it in the low bits, so it gives the same integer exactly when it fits the type. */
  lemma EncodeThenDecode(n: GoInteger, tag: Tag, go: GoConversion)
    requires Plain(tag) && IsInteger(tag.dataType)
    ensures Encoded(WriteInt(n), tag, go).Ok?
    ensures var r := Parsed(Encoded(WriteInt(n), tag, go).value, tag);
            r.Ok? && r.value.IntValue? && r.value.dataType == tag.dataType &&
            InRange(tag.dataType, r.value.n) &&
            SameLowBits(tag.dataType, r.value.n, n) &&
            (r.value.n == n <==> InRange(tag.dataType, n))
  {
    EncodedThenParsed(n, tag, go);
    NarrowThenWiden(n, tag.dataType);
  }

  /** A float is written as the integer that it truncates to, so one without a fraction comes back as
      itself under the same condition. */
  lemma FloatIsWrittenAsInteger(x: real, n: GoInteger, tag: Tag, go: GoConversion)
    requires Plain(tag) && IsInteger(tag.dataType)
    requires if tag.dataType.UInt64? then n >= 0 else n < 0x8000_0000_0000_0000
    requires if x >= 0.0 then n as real <= x < (n + 1) as real else (n - 1) as real < x <= n as real
    ensures Encoded(WriteFloat(x), tag, go) == Encoded(WriteInt(n), tag, go)
  {
    TruncatedIs(x, n);
  }

  lemma TruncatedIs(x: real, n: int)
    requires if x >= 0.0 then n as real <= x < (n + 1) as real else (n - 1) as real < x <= n as real
    ensures Truncated(x) == n
  {
  }

  /** A number that is written to a floating-point tag is read back with the bit pattern that Go gave it. */
  lemma EncodeThenDecodeFloat(v: WriteValue, tag: Tag, go: GoConversion)
    requires Plain(tag) && (tag.dataType.Float32? || tag.dataType.Float64?)
    requires !v.WriteBool? && !v.WriteOther? && go.floatBits < Pow256(Width(tag.dataType))
    ensures Encoded(v, tag, go).Ok?
    ensures Parsed(Encoded(v, tag, go).value, tag) == Ok(FloatBits(tag.dataType, go.floatBits))
  {
    EncodedFloat(v, tag, go);
    ParsedFloatBytes(go.floatBits, tag);
  }

  lemma EncodedFloat(v: WriteValue, tag: Tag, go: GoConversion)
    requires (tag.dataType.Float32? || tag.dataType.Float64?) && !v.WriteBool? && !v.WriteOther?
    ensures Encoded(v, tag, go) == Ok(Reordered(ToBytes(Width(tag.dataType), go.floatBits), tag.byteOrder))
  {}

  lemma ParsedFloatBytes(u: nat, tag: Tag)
    requires Plain(tag) && (tag.dataType.Float32? || tag.dataType.Float64?) && u < Pow256(Width(tag.dataType))
    ensures Parsed(Reordered(ToBytes(Width(tag.dataType), u), tag.byteOrder), tag) == Ok(FloatBits(tag.dataType, u))
  {
    FromReordered(Width(tag.dataType), u, tag.byteOrder);
    ParsedFloat(Reordered(ToBytes(Width(tag.dataType), u), tag.byteOrder), tag);
  }

  lemma ParsedFloat(data: seq<Byte>, tag: Tag)
    requires Plain(tag) && (tag.dataType.Float32? || tag.dataType.Float64?) && |data| == 2 * tag.count
    ensures Parsed(data, tag) == Ok(FloatBits(tag.dataType, FromBytes(Reordered(data, tag.byteOrder))))
  {
    assert data[..2 * tag.count] == data;
    var ordered := Reordered(data, tag.byteOrder);
    assert ordered[..Width(tag.dataType)] == ordered;
  }

  /** What is not a number of a 64-bit type is written as the integer that the implementation picks. */
  lemma OpenFloatIsWritten(v: WriteValue, tag: Tag, go: GoConversion)
    requires Plain(tag) && IsInteger(tag.dataType)
    requires v.WriteNonFinite? ||
             (v.WriteFloat? && (if tag.dataType.UInt64? then v.x <= -1.0 || v.x >= 0x1_0000_0000_0000_0000 as real
                                else v.x <= -0x8000_0000_0000_0001 as real || v.x >= 0x8000_0000_0000_0000 as real))
    requires -0x8000_0000_0000_0000 <= go.openInteger < 0x1_0000_0000_0000_0000
    ensures Encoded(v, tag, go) == Encoded(WriteInt(go.openInteger), tag, go)
  {
  }

  /** Which writes are refused. */
  lemma WriteIsRefusedIff(v: WriteValue, tag: Tag, go: GoConversion)
    ensures Encoded(v, tag, go) == Err(InvalidDataType) <==> tag.dataType.OtherType?
    ensures Encoded(v, tag, go) == Err(InvalidWriteValue) <==>
            !tag.dataType.OtherType? && !tag.dataType.Bool? && (v.WriteBool? || v.WriteOther?)
    ensures Encoded(v, tag, go).Err? ==> Encoded(v, tag, go).error in {InvalidDataType, InvalidWriteValue}
  {
  }

  /** Any value may be written to a boolean tag, and is read back as whether it is true or not zero. */
  lemma EncodeThenDecodeTruth(v: WriteValue, tag: Tag, go: GoConversion)
    requires Plain(tag) && tag.dataType.Bool?
    ensures Encoded(v, tag, go).Ok?
    ensures Parsed(Encoded(v, tag, go).value, tag) ==
            Ok(BoolValue((v.WriteBool? && v.b) || (v.WriteInt? && v.n != 0) || (v.WriteFloat? && v.x != 0.0) ||
                         v.WriteNonFinite?))
  {
    EncodeThenDecodeBool(Truthy(v), tag, go);
    assert Encoded(v, tag, go) == Encoded(WriteBool(Truthy(v)), tag, go);
  }

  lemma EncodeThenDecodeBool(b: bool, tag: Tag, go: GoConversion)
    requires Plain(tag) && tag.dataType.Bool?
    ensures Encoded(WriteBool(b), tag, go).Ok?
    ensures Parsed(Encoded(WriteBool(b), tag, go).value, tag) == Ok(BoolValue(b))
  {
    var u := if b then 1 else 0;
    var bytes := ToBytes(2, u);
    var sent := Reordered(bytes, tag.byteOrder);
    ReorderedInvolution(bytes, tag.byteOrder);
    assert bytes == ToBytes(1, u / 256) + [u % 256];
    assert bytes[1] == u;
    assert bytes[0] == 0 by { assert ToBytes(1, 0) == ToBytes(0, 0) + [0]; }
    assert sent[..2] == sent;
  }

  /** Decoding an integer tag and encoding the value again gives the device's bytes back. */
  lemma DecodeThenEncode(data: seq<Byte>, tag: Tag, go: GoConversion)
    requires Plain(tag) && IsInteger(tag.dataType) && |data| == 2 * tag.count
    ensures var r := Parsed(data, tag);
            r.Ok? && r.value.IntValue? && InRange(tag.dataType, r.value.n) &&
            -0x8000_0000_0000_0000 <= r.value.n < 0x1_0000_0000_0000_0000 &&
            Encoded(WriteInt(r.value.n), tag, go) == Ok(data)
  {
    ParsedInteger(data, tag);
    ReorderedBack(data, tag.byteOrder);
    Widths(tag);
    WidenThenNarrow(FromBytes(Reordered(data, tag.byteOrder)), tag.dataType);
    EncodedInteger(Parsed(data, tag).value.n, tag, go);
  }

  lemma ReorderedBack(data: seq<Byte>, order: ByteOrder)
    ensures var u := FromBytes(Reordered(data, order));
            u < Pow256(|data|) && Reordered(ToBytes(|data|, u), order) == data
  {
    ToFromBytes(Reordered(data, order));
    ReorderedInvolution(data, order);
  }

  lemma EncodedInteger(n: GoInteger, tag: Tag, go: GoConversion)
    requires IsInteger(tag.dataType)
    ensures var w := Width(tag.dataType);
            Encoded(WriteInt(n), tag, go) == Ok(Reordered(ToBytes(w, n % Pow256(w)), tag.byteOrder))
  {}

  lemma WordSizes()
    ensures Pow256(2) == 0x1_0000 && Pow256(4) == 0x1_0000_0000 && Pow256(8) == 0x1_0000_0000_0000_0000
  {
    assert Pow256(1) == 0x100;
    assert Pow256(2) == 0x1_0000;
    assert Pow256(3) == 0x100_0000;
    assert Pow256(4) == 0x1_0000_0000;
    assert Pow256(5) == 0x100_0000_0000;
    assert Pow256(6) == 0x1_0000_0000_0000;
    assert Pow256(7) == 0x100_0000_0000_0000;
  }

  /** Decoding a tag of exactly its type's width loses nothing: different bytes give different values. */
  lemma DecodeInjective(d1: seq<Byte>, d2: seq<Byte>, tag: Tag)
    requires Plain(tag) && (IsInteger(tag.dataType) || tag.dataType.Float32? || tag.dataType.Float64?)
    requires |d1| == |d2| == 2 * tag.count
    requires Parsed(d1, tag) == Parsed(d2, tag)
    ensures d1 == d2
  {
    if IsInteger(tag.dataType) {
      DecodeThenEncode(d1, tag, GoConversion(0, 0));
      DecodeThenEncode(d2, tag, GoConversion(0, 0));
    } else {
      ParsedFloat(d1, tag);
      ParsedFloat(d2, tag);
      ReorderedBack(d1, tag.byteOrder);
      ReorderedBack(d2, tag.byteOrder);
    }
  }
}
