/** Which number a register tag reads, in terms of the registers of the device: the composition of the read,
    the byte order and the decoding, for each order and each width. */
module RegisterValue {
  import opened Arithmetic
  import opened Wrappers
  import opened ModbusTypes
  import opened ByteOrdering
  import opened Conversion
  import opened RegisterRead

  /** A register tag that may be read on its own, with exactly n registers. */
  predicate OfWidth(t: Tag, n: nat) {
    (t.registerType.HoldingRegister? || t.registerType.InputRegister?) && t.count == n && t.address + n <= 65535
  }

  /** What the protocol limits refuse. */
  lemma AloneIsRefusedIff(mem: Memory, t: Tag)
    requires t.registerType.HoldingRegister? || t.registerType.InputRegister?
    ensures Alone(mem, t) == Err(InvalidRegisterCount) <==> t.count == 0
    ensures Alone(mem, t) == Err(ProtocolLimit) <==> t.count > 125 || (t.count > 0 && t.address + t.count > 65535)
  {
  }

  // ----- Words

  /** The i-th word of some bytes, most significant byte first. */
  function WordAt(s: seq<Byte>, i: nat): int
    requires 2 * i + 1 < |s|
  {
    s[2 * i] as int * 256 + s[2 * i + 1] as int
  }

  lemma WordBytes(mem: Memory, start: nat, n: nat, i: nat)
    requires i < n
    ensures RegisterBytes(mem, start, n)[2 * i] == mem(start + i) / 256
    ensures RegisterBytes(mem, start, n)[2 * i + 1] == mem(start + i) % 256
  {
    EvenAndOdd(start + i);
    assert RegisterBytes(mem, start, n)[2 * i] == ByteAt(mem, 2 * (start + i));
    assert RegisterBytes(mem, start, n)[2 * i + 1] == ByteAt(mem, 2 * (start + i) + 1);
  }

  lemma EvenAndOdd(x: nat)
    ensures (2 * x) % 2 == 0 && (2 * x) / 2 == x && (2 * x + 1) % 2 == 1 && (2 * x + 1) / 2 == x
  {
  }

  lemma TwoBytes(s: seq<Byte>)
    requires |s| == 2
    ensures FromBytes(s) == WordAt(s, 0)
  {
    assert FromBytes(s[..1]) == s[0] by { assert s[..1][..0] == []; }
  }

  lemma TwoMoreBytes(s: seq<Byte>)
    requires |s| >= 2 && |s| % 2 == 0
    ensures FromBytes(s) == FromBytes(s[..|s| - 2]) * 0x1_0000 + WordAt(s, |s| / 2 - 1)
  {
    var front := s[..|s| - 1];
    assert front[..|front| - 1] == s[..|s| - 2];
    assert FromBytes(front) == 256 * FromBytes(s[..|s| - 2]) + front[|front| - 1];
  }

  lemma FourBytes(s: seq<Byte>)
    requires |s| == 4
    ensures FromBytes(s) == WordAt(s, 0) * 0x1_0000 + WordAt(s, 1)
  {
    TwoBytes(s[..2]);
    TwoMoreBytes(s);
  }

  lemma EightBytes(s: seq<Byte>)
    requires |s| == 8
    ensures FromBytes(s) ==
            WordAt(s, 0) * 0x1_0000_0000_0000 + WordAt(s, 1) * 0x1_0000_0000 + WordAt(s, 2) * 0x1_0000 + WordAt(s, 3)
  {
    FourBytes(s[..4]);
    TwoMoreBytes(s[..6]);
    TwoMoreBytes(s);
    assert s[..6][..4] == s[..4];
  }

  /** The bytes of the device as the tag's byte order hands them to the decoder. */
  function Ordered(mem: Memory, t: Tag): (r: seq<Byte>)
    ensures |r| == 2 * t.count
  {
    Reordered(RegisterBytes(mem, t.address, t.count), t.byteOrder)
  }

  /** The two bytes of a register, exchanged. */
  function Swapped(w: U16): int { w % 256 * 256 + w / 256 }

  lemma WordsReversed(mem: Memory, start: nat, n: nat, i: nat)
    requires i < n
    ensures WordAt(Reordered(RegisterBytes(mem, start, n), LittleEndian), i) == Swapped(mem(start + n - 1 - i))
  {
    var data := RegisterBytes(mem, start, n);
    OrdersMean(data, 2 * i);
    OrdersMean(data, 2 * i + 1);
    WordBytes(mem, start, n, n - 1 - i);
    assert |data| - 1 - 2 * i == 2 * (n - 1 - i) + 1;
  }

  lemma WordsSwapped(mem: Memory, start: nat, n: nat, i: nat)
    requires i < n
    ensures WordAt(Reordered(RegisterBytes(mem, start, n), MidBigEndian), i) == Swapped(mem(start + i))
  {
    SwappedSources(i, n);
    WordBytes(mem, start, n, i);
  }

  lemma SwappedSources(i: nat, n: nat)
    requires i < n
    ensures Source(MidBigEndian, 2 * n, 2 * i) == 2 * i + 1 && Source(MidBigEndian, 2 * n, 2 * i + 1) == 2 * i
  {
    EvenAndOdd(i);
    SourceInPairs(2 * n, 2 * i);
    SourceInPairs(2 * n, 2 * i + 1);
  }

  function Partner(i: nat, n: nat): (p: nat)
    requires i < n
    ensures p < n
  {
    if i % 2 == 1 then i - 1 else if i + 1 < n then i + 1 else i
  }

  lemma WordsExchanged(mem: Memory, start: nat, n: nat, i: nat)
    requires i < n
    ensures WordAt(Reordered(RegisterBytes(mem, start, n), MidLittleEndian), i) == mem(start + Partner(i, n))
  {
    ExchangedSources(i, n);
    WordBytes(mem, start, n, Partner(i, n));
  }

  lemma ExchangedSources(i: nat, n: nat)
    requires i < n
    ensures Source(MidLittleEndian, 2 * n, 2 * i) == 2 * Partner(i, n)
    ensures Source(MidLittleEndian, 2 * n, 2 * i + 1) == 2 * Partner(i, n) + 1
  {
    SourceInFours(2 * n, 2 * i);
    SourceInFours(2 * n, 2 * i + 1);
    PairsInFours(i, n);
  }

  lemma WordsKept(mem: Memory, start: nat, n: nat, i: nat)
    requires i < n
    ensures WordAt(RegisterBytes(mem, start, n), i) == mem(start + i)
  {
    WordBytes(mem, start, n, i);
  }

  /** Where the words of the ordered bytes come from: the registers in order, in reverse with their bytes
      swapped, in order with their bytes swapped, or pairwise exchanged. */
  function WordFrom(mem: Memory, t: Tag, i: nat): int
    requires i < t.count
  {
    match t.byteOrder
    case BigEndian => mem(t.address + i)
    case LittleEndian => Swapped(mem(t.address + t.count - 1 - i))
    case MidBigEndian => Swapped(mem(t.address + i))
    case MidLittleEndian => mem(t.address + Partner(i, t.count))
    case OtherOrder(_) => mem(t.address + i)
  }

  lemma WordsOrdered(mem: Memory, t: Tag, i: nat)
    requires i < t.count
    ensures WordAt(Ordered(mem, t), i) == WordFrom(mem, t, i)
  {
    match t.byteOrder
    case BigEndian | OtherOrder(_) =>
      assert Ordered(mem, t) == RegisterBytes(mem, t.address, t.count);
      WordsKept(mem, t.address, t.count, i);
    case LittleEndian => WordsReversed(mem, t.address, t.count, i);
    case MidBigEndian => WordsSwapped(mem, t.address, t.count, i);
    case MidLittleEndian => WordsExchanged(mem, t.address, t.count, i);
  }

  /** Where the bytes of word i of n are in the groups of four that a mid-little-endian order works on. */
  lemma PairsInFours(i: nat, n: nat)
    requires i < n
    ensures i % 2 == 0 ==> (2 * i) % 4 == 0 && (2 * i + 1) % 4 == 1 && (i + 1 < n <==> 2 * i + 4 <= 2 * n)
    ensures i % 2 == 1 ==> (2 * i) % 4 == 2 && (2 * i + 1) % 4 == 3 && 2 * i + 2 <= 2 * n
  {
    if i % 2 == 0 { assert 2 * i == 4 * (i / 2); } else { assert 2 * i == 4 * (i / 2) + 2; }
  }

  // ----- Values

  /** A number of its type's width is what the ordered bytes spell, with the sign of the type. */
  lemma AloneIsNumber(mem: Memory, t: Tag)
    requires OfWidth(t, t.ExpectedCount()) && !t.dataType.Bool? && !t.dataType.OtherType?
    ensures var u := FromBytes(Ordered(mem, t));
            Alone(mem, t) == Ok(if t.dataType.Float32? || t.dataType.Float64? then FloatBits(t.dataType, u)
                                else IntValue(t.dataType, Reinterpret(t.dataType, u)))
  {
    Widths(t);
    AloneDecodes(mem, t);
    assert Ordered(mem, t)[..Width(t.dataType)] == Ordered(mem, t);
  }

  lemma AloneDecodes(mem: Memory, t: Tag)
    requires OfWidth(t, t.count) && 1 <= t.count <= 125
    ensures Alone(mem, t) == Decode(Ordered(mem, t), t)
  {
    var data := RegisterBytes(mem, t.address, t.count);
    assert data[..2 * t.count] == data;
  }

  lemma SignOf(t: DataType, u: nat)
    requires IsInteger(t)
    ensures t.Int16? ==> Reinterpret(t, u) == if u >= 0x8000 then u - 0x1_0000 else u
    ensures t.Int32? ==> Reinterpret(t, u) == if u >= 0x8000_0000 then u - 0x1_0000_0000 else u
    ensures t.Int64? ==>
              Reinterpret(t, u) == if u >= 0x8000_0000_0000_0000 then u - 0x1_0000_0000_0000_0000 else u
    ensures t.UInt16? || t.UInt32? || t.UInt64? ==> Reinterpret(t, u) == u
  {
    WordSizes();
  }

  lemma OneWordOrdered(mem: Memory, t: Tag)
    requires t.count == 1
    ensures var w: int := mem(t.address);
            FromBytes(Ordered(mem, t)) ==
            match t.byteOrder
            case BigEndian => w
            case LittleEndian => w % 256 * 256 + w / 256
            case MidBigEndian => w % 256 * 256 + w / 256
            case MidLittleEndian => w
            case OtherOrder(_) => w
  {
    WordsOrdered(mem, t, 0);
    TwoBytes(Ordered(mem, t));
  }

  /** One register: the number is the register, or the register with its two bytes swapped. */
  lemma OneRegisterReads(mem: Memory, t: Tag)
    requires OfWidth(t, 1) && (t.dataType.Int16? || t.dataType.UInt16?)
    ensures var w: int := mem(t.address);
            var n := match t.byteOrder
              case BigEndian => w
              case LittleEndian => w % 256 * 256 + w / 256
              case MidBigEndian => w % 256 * 256 + w / 256
              case MidLittleEndian => w
              case OtherOrder(_) => w;
            Alone(mem, t) ==
            Ok(IntValue(t.dataType, if t.dataType.Int16? && n >= 0x8000 then n - 0x1_0000 else n))
  {
    AloneIsNumber(mem, t);
    OneWordOrdered(mem, t);
    SignOf(t.dataType, FromBytes(Ordered(mem, t)));
  }

  lemma TwoWordsOrdered(mem: Memory, t: Tag)
    requires t.count == 2
    ensures var (w, x) := (mem(t.address), mem(t.address + 1));
            FromBytes(Ordered(mem, t)) ==
            match t.byteOrder
            case BigEndian => w as int * 0x1_0000 + x as int
            case LittleEndian => Swapped(x) * 0x1_0000 + Swapped(w)
            case MidBigEndian => Swapped(w) * 0x1_0000 + Swapped(x)
            case MidLittleEndian => x as int * 0x1_0000 + w as int
            case OtherOrder(_) => w as int * 0x1_0000 + x as int
  {
    WordsOrdered(mem, t, 0);
    WordsOrdered(mem, t, 1);
    FourBytes(Ordered(mem, t));
  }

  /** Two registers: in order, in reverse with their bytes swapped, in order with their bytes swapped, or
      exchanged. */
  lemma TwoRegistersRead(mem: Memory, t: Tag)
    requires OfWidth(t, 2) && (t.dataType.Int32? || t.dataType.UInt32? || t.dataType.Float32?)
    ensures var (w, x) := (mem(t.address), mem(t.address + 1));
            var n: int := match t.byteOrder
              case BigEndian => w as int * 0x1_0000 + x as int
              case LittleEndian => Swapped(x) * 0x1_0000 + Swapped(w)
              case MidBigEndian => Swapped(w) * 0x1_0000 + Swapped(x)
              case MidLittleEndian => x as int * 0x1_0000 + w as int
              case OtherOrder(_) => w as int * 0x1_0000 + x as int;
            n >= 0 && Alone(mem, t) ==
            Ok(if t.dataType.Float32? then FloatBits(Float32, n)
               else IntValue(t.dataType, if t.dataType.Int32? && n >= 0x8000_0000 then n - 0x1_0000_0000 else n))
  {
    AloneIsNumber(mem, t);
    TwoWordsOrdered(mem, t);
    if IsInteger(t.dataType) { SignOf(t.dataType, FromBytes(Ordered(mem, t))); }
  }

  /** The 64-bit number that four words spell, most significant word first. */
  function Spelled(a: int, b: int, c: int, d: int): int {
    a * 0x1_0000_0000_0000 + b * 0x1_0000_0000 + c * 0x1_0000 + d
  }

  lemma EightBytesOrdered(mem: Memory, t: Tag)
    requires t.count == 4
    ensures FromBytes(Ordered(mem, t)) ==
            Spelled(WordFrom(mem, t, 0), WordFrom(mem, t, 1), WordFrom(mem, t, 2), WordFrom(mem, t, 3))
  {
    WordsOrdered(mem, t, 0);
    WordsOrdered(mem, t, 1);
    WordsOrdered(mem, t, 2);
    WordsOrdered(mem, t, 3);
    EightBytes(Ordered(mem, t));
  }

  lemma FourWordsOrdered(mem: Memory, t: Tag)
    requires t.count == 4
    ensures var (w, x, y, z) := (mem(t.address), mem(t.address + 1), mem(t.address + 2), mem(t.address + 3));
            FromBytes(Ordered(mem, t)) ==
            match t.byteOrder
            case BigEndian => Spelled(w, x, y, z)
            case LittleEndian => Spelled(Swapped(z), Swapped(y), Swapped(x), Swapped(w))
            case MidBigEndian => Spelled(Swapped(w), Swapped(x), Swapped(y), Swapped(z))
            case MidLittleEndian => Spelled(x, w, z, y)
            case OtherOrder(_) => Spelled(w, x, y, z)
  {
    EightBytesOrdered(mem, t);
  }

  /** Four registers: in order, in reverse with their bytes swapped, in order with their bytes swapped, or
      pairwise exchanged. */
  lemma FourRegistersRead(mem: Memory, t: Tag)
    requires OfWidth(t, 4) && (t.dataType.Int64? || t.dataType.UInt64? || t.dataType.Float64?)
    ensures var (w, x, y, z) := (mem(t.address), mem(t.address + 1), mem(t.address + 2), mem(t.address + 3));
            var n := match t.byteOrder
              case BigEndian => Spelled(w, x, y, z)
              case LittleEndian => Spelled(Swapped(z), Swapped(y), Swapped(x), Swapped(w))
              case MidBigEndian => Spelled(Swapped(w), Swapped(x), Swapped(y), Swapped(z))
              case MidLittleEndian => Spelled(x, w, z, y)
              case OtherOrder(_) => Spelled(w, x, y, z);
            n >= 0 && Alone(mem, t) ==
            Ok(if t.dataType.Float64? then FloatBits(Float64, n)
               else IntValue(t.dataType, if t.dataType.Int64? && n >= 0x8000_0000_0000_0000
                                         then n - 0x1_0000_0000_0000_0000 else n))
  {
    AloneIsNumber(mem, t);
    FourWordsOrdered(mem, t);
    if IsInteger(t.dataType) { SignOf(t.dataType, FromBytes(Ordered(mem, t))); }
  }

  // ----- Tags that have more registers than their type

  lemma TwoOfMany(s: seq<Byte>)
    requires |s| >= 2
    ensures FromBytes(s[..2]) == WordAt(s, 0)
  {
    TwoBytes(s[..2]);
  }

  lemma FourOfMany(s: seq<Byte>)
    requires |s| >= 4
    ensures FromBytes(s[..4]) == WordAt(s, 0) * 0x1_0000 + WordAt(s, 1)
  {
    FourBytes(s[..4]);
  }

  lemma EightOfMany(s: seq<Byte>)
    requires |s| >= 8
    ensures FromBytes(s[..8]) == Spelled(WordAt(s, 0), WordAt(s, 1), WordAt(s, 2), WordAt(s, 3))
  {
    EightBytes(s[..8]);
  }

  /** A number is read from the first words of all of the tag's registers in the tag's order, so that a
      little-endian tag with more registers than its type reads the last ones. */
  lemma WiderTagReads(mem: Memory, t: Tag)
    requires OfWidth(t, t.count) && t.ExpectedCount() <= t.count <= 125 && !t.dataType.Bool? && !t.dataType.OtherType?
    ensures var u := match t.ExpectedCount()
              case 1 => WordFrom(mem, t, 0)
              case 2 => WordFrom(mem, t, 0) * 0x1_0000 + WordFrom(mem, t, 1)
              case _ => Spelled(WordFrom(mem, t, 0), WordFrom(mem, t, 1), WordFrom(mem, t, 2), WordFrom(mem, t, 3));
            u >= 0 && Alone(mem, t) ==
            Ok(if t.dataType.Float32? || t.dataType.Float64? then FloatBits(t.dataType, u)
               else IntValue(t.dataType, Reinterpret(t.dataType, u)))
  {
    AloneDecodes(mem, t);
    FirstWords(mem, t);
  }

  lemma FirstWords(mem: Memory, t: Tag)
    requires 1 <= t.ExpectedCount() <= t.count
    ensures FromBytes(Ordered(mem, t)[..Width(t.dataType)]) ==
            match t.ExpectedCount()
            case 1 => WordFrom(mem, t, 0)
            case 2 => WordFrom(mem, t, 0) * 0x1_0000 + WordFrom(mem, t, 1)
            case _ => Spelled(WordFrom(mem, t, 0), WordFrom(mem, t, 1), WordFrom(mem, t, 2), WordFrom(mem, t, 3))
  {
    Widths(t);
    var s := Ordered(mem, t);
    WordsOrdered(mem, t, 0);
    if t.ExpectedCount() == 1 {
      TwoOfMany(s);
    } else {
      WordsOrdered(mem, t, 1);
      if t.ExpectedCount() == 2 {
        FourOfMany(s);
      } else {
        WordsOrdered(mem, t, 2);
        WordsOrdered(mem, t, 3);
        EightOfMany(s);
      }
    }
  }

  // ----- Bits

  lemma {:induction false} BitSetIs(u: nat, p: nat)
    ensures BitSet(u, p) <==> u / Pow2(p) % 2 == 1
  {
    if p > 0 {
      BitSetIs(u / 2, p - 1);
      HalveTwice(u, Pow2(p - 1));
    }
  }

  lemma HalveTwice(u: nat, m: nat)
    requires m >= 1
    ensures u / 2 / m == u / (2 * m)
  {
    var q, r := u / 2 / m, u / 2 % m;
    assert u / 2 == q * m + r;
    assert u == q * (2 * m) + (2 * r + u % 2);
    assert 0 <= 2 * r + u % 2 < 2 * m;
    DivisionIsUnique(u, 2 * m, q, 2 * r + u % 2);
  }

  lemma DivisionIsUnique(u: nat, m: nat, q: nat, r: nat)
    requires m >= 1 && u == q * m + r && r < m
    ensures u / m == q
  {
    var d := u / m - q;
    assert u == (u / m) * m + u % m;
    assert d * m == r - u % m;
    MultipleIsFar(d, m);
  }

  lemma MultipleIsFar(d: int, m: int)
    requires m >= 0
    ensures d >= 1 ==> d * m >= m
    ensures d <= -1 ==> d * m <= -m
  {
  }

  /** A boolean tag of more registers is read from the first word in the tag's order. */
  lemma WiderBooleanReads(mem: Memory, t: Tag)
    requires OfWidth(t, t.count) && 1 <= t.count <= 125 && t.dataType.Bool?
    ensures var n := WordFrom(mem, t, 0);
            n >= 0 && Alone(mem, t) ==
            Ok(BoolValue(if t.bitPosition.Some? then n / Pow2(t.bitPosition.value) % 2 == 1 else n != 0))
  {
    AloneDecodes(mem, t);
    FirstWords(mem, t);
    if t.bitPosition.Some? { BitSetIs(WordFrom(mem, t, 0), t.bitPosition.value); }
    WordIsZeroIff(Ordered(mem, t));
    WordsOrdered(mem, t, 0);
  }

  lemma WordIsZeroIff(s: seq<Byte>)
    requires |s| >= 2
    ensures WordAt(s, 0) == 0 <==> s[0] == 0 && s[1] == 0
  {
  }

  /** A boolean tag of one register: bit p of the register, counted from its least significant bit (of the
      swapped register under the orders that swap), or whether the register is not zero. */
  lemma BooleanReads(mem: Memory, t: Tag)
    requires OfWidth(t, 1) && t.dataType.Bool?
    ensures var w := mem(t.address);
            var n := if t.byteOrder.LittleEndian? || t.byteOrder.MidBigEndian? then Swapped(w) else w;
            n >= 0 && Alone(mem, t) ==
            Ok(BoolValue(if t.bitPosition.Some? then n / Pow2(t.bitPosition.value) % 2 == 1 else w != 0))
  {
    WiderBooleanReads(mem, t);
    SwappedIsZeroIff(mem(t.address));
  }

  lemma SwappedIsZeroIff(w: U16)
    ensures Swapped(w) == 0 <==> w == 0
  {
  }
}
