/** The values that the Modbus adapter works on: tags, raw bytes and decoded values.
    Go's uint16 and byte are subset types of int; every wrap-around is written out where it happens. */
module ModbusTypes {
  import opened Wrappers

  type Byte = n: int | 0 <= n < 0x100
  type U16 = n: int | 0 <= n < 0x1_0000

  /** uint16 arithmetic: the result of an addition or subtraction modulo 2^16. */
  function Wrap16(n: int): U16 { n % 0x1_0000 }

  datatype RegisterType = Coil | DiscreteInput | HoldingRegister | InputRegister | OtherRegister(name: string)

  /** The byte orders that the switch in reorderBytes names; any other string leaves the data alone. */
  datatype ByteOrder = BigEndian | LittleEndian | MidBigEndian | MidLittleEndian | OtherOrder(name: string)

  datatype DataType =
    | Bool | Int16 | UInt16 | Int32 | UInt32 | Int64 | UInt64 | Float32 | Float64 | OtherType(name: string)

  datatype Tag = Tag(
    id: string,
    address: U16,
    count: U16,
    registerType: RegisterType,
    dataType: DataType,
    byteOrder: ByteOrder,
    bitPosition: Option<Byte>
  ) {
    /** The last register (or coil) of the tag, as a number that does not wrap. */
    function End(): int { address + count - 1 }

    /** The tag does not reach beyond its table. */
    predicate Within() { address + count <= 0x1_0000 }

    /** No registers at the start of the table: the last register of the tag wraps to 65535. */
    predicate BlankStart() { address + count == 0 }

    /** The last register of the tag does not wrap. */
    predicate EndsInTable() { Within() && !BlankStart() }

    /** What validateProtocolLimits asks of every register type: at least one register, and an end
        below 65536. The last register of a table is out of its reach. */
    predicate Addressable() { count >= 1 && address + count <= 65535 }

    /** The most registers or coils that one read may ask for. */
    function MostAtOnce(): nat {
      match registerType
      case HoldingRegister | InputRegister => 125
      case Coil | DiscreteInput => 2000
      case OtherRegister(_) => 65535
    }

    /** validateProtocolLimits lets the tag be read on its own. */
    predicate Readable() { Addressable() && count <= MostAtOnce() }

    /** validateProtocolLimits. */
    function LimitError(): (r: Option<Error>)
      ensures r.None? <==> Readable()
    {
      if count == 0 then Some(InvalidRegisterCount)
      else if count > MostAtOnce() || address + count > 65535 then Some(ProtocolLimit)
      else None
    }

    /** The number of registers that the data type needs (ExpectedRegisterCount). */
    function ExpectedCount(): U16 {
      match dataType
      case Int32 | UInt32 | Float32 => 2
      case Int64 | UInt64 | Float64 => 4
      case _ => 1
    }

    predicate IsBit() { registerType.Coil? || registerType.DiscreteInput? }
  }

  /** A decoded value; floating-point values stay the bit patterns they were read as. */
  datatype Value =
    | BoolValue(b: bool)
    | IntValue(dataType: DataType, n: int)
    | FloatBits(dataType: DataType, bits: nat)

  /** The error values of the code, and the run-time panic of an index past the data, which nothing
      recovers. */
  datatype Error =
    | InvalidDataLength | InvalidDataType | InvalidWriteValue | InvalidRegisterType
    | InvalidRegisterCount | ProtocolLimit | ReadFailed | Cancelled
    | OutOfBounds

  type Outcome<T> = Result<T, Error>
}
