/**
 * The data the logger handles: OpenMUC value types and values, records, log channels and record
 * containers, the five value tables and the dispatch from value type to table, and the exceptions
 * the store and the logger raise.
 */
module Types {
  import opened Wrappers

  type Int8 = x: int | -0x80 <= x < 0x80
  type Int16 = x: int | -0x8000 <= x < 0x8000
  type Int32 = x: int | -0x8000_0000 <= x < 0x8000_0000
  /** Java's long: timestamps and intervals in milliseconds, BIGINT cells. */
  type Int64 = x: int | -0x8000_0000_0000_0000 <= x < 0x8000_0000_0000_0000

  // ---------------------------------------------------------------------------------------------
  // Value types and their names

  /** The constants of OpenMUC's ValueType enumeration. */
  datatype ValueType = Boolean | Byte | ByteArray | Double | Float | Integer | Long | Short | String

  /** ValueType.name(): what the CHANNELS table stores in its VALUE_TYPE column. */
  function Name(vt: ValueType): string {
    match vt
    case Boolean => "BOOLEAN"
    case Byte => "BYTE"
    case ByteArray => "BYTE_ARRAY"
    case Double => "DOUBLE"
    case Float => "FLOAT"
    case Integer => "INTEGER"
    case Long => "LONG"
    case Short => "SHORT"
    case String => "STRING"
  }

  /** ValueType.valueOf(name); None where Java throws IllegalArgumentException. */
  function ValueOf(name: string): (r: Option<ValueType>)
    ensures r.Some? ==> Name(r.value) == name
  {
    if name == "BOOLEAN" then Some(Boolean)
    else if name == "BYTE" then Some(Byte)
    else if name == "BYTE_ARRAY" then Some(ByteArray)
    else if name == "DOUBLE" then Some(Double)
    else if name == "FLOAT" then Some(Float)
    else if name == "INTEGER" then Some(Integer)
    else if name == "LONG" then Some(Long)
    else if name == "SHORT" then Some(Short)
    else if name == "STRING" then Some(String)
    else None
  }

  /** The stored name of a value type parses back to that type. */
  lemma ValueOfName(vt: ValueType)
    ensures ValueOf(Name(vt)) == Some(vt)
  {
  }

  // ---------------------------------------------------------------------------------------------
  // Tables and the dispatch from value type to table

  /** The five value tables LONG_VALUES, INT_VALUES, BOOL_VALUES, STRING_VALUES, DOUBLE_VALUES. */
  datatype Table = LongValues | IntValues | BoolValues | StringValues | DoubleValues

  const AllTables: set<Table> := {LongValues, IntValues, BoolValues, StringValues, DoubleValues}

  /**
   * The table that holds the values of a channel of type vt: the switch used both to choose the
   * table of a read and to choose the partition of a write. Every type not named falls through
   * to DOUBLE_VALUES.
   */
  function TableFor(vt: ValueType): (t: Table)
    ensures vt in TypesStoredIn(t)
  {
    match vt
    case Long => LongValues
    case Integer | Short | Byte => IntValues
    case Boolean => BoolValues
    case ByteArray | String => StringValues
    case _ => DoubleValues
  }

  /** The value types whose channels each table stores, listed table by table. */
  function TypesStoredIn(t: Table): set<ValueType> {
    match t
    case LongValues => {Long}
    case IntValues => {Integer, Short, Byte}
    case BoolValues => {Boolean}
    case StringValues => {ByteArray, String}
    case DoubleValues => {Double, Float}
  }

  /** The dispatch agrees with the table-by-table listing, in both directions. */
  lemma TableForStoredIn(vt: ValueType, t: Table)
    ensures TableFor(vt) == t <==> vt in TypesStoredIn(t)
  {
  }

  /** Every type that no case of the switch names goes to DOUBLE_VALUES. */
  lemma TableForDefault(vt: ValueType)
    requires vt !in {Long, Integer, Short, Byte, Boolean, ByteArray, String}
    ensures TableFor(vt) == DoubleValues
  {
  }

  // ---------------------------------------------------------------------------------------------
  // Values

  /**
   * OpenMUC value objects as a tagged union. Floating-point numbers are exact reals: the model
   * compares them only for equality.
   */
  datatype Value =
    | BooleanValue(z: bool)
    | ByteValue(b: Int8)
    | ShortValue(h: Int16)
    | IntValue(i: Int32)
    | LongValue(l: Int64)
    | FloatValue(f: real)
    | DoubleValue(d: real)
    | StringValue(s: string)

  /** Value.getValueType(). */
  function TypeOf(v: Value): ValueType {
    match v
    case BooleanValue(_) => Boolean
    case ByteValue(_) => Byte
    case ShortValue(_) => Short
    case IntValue(_) => Integer
    case LongValue(_) => Long
    case FloatValue(_) => Float
    case DoubleValue(_) => Double
    case StringValue(_) => String
  }

  /** What a value carries, whatever its width: a number, a truth value or a text. */
  datatype Content = Number(n: real) | Truth(t: bool) | Text(s: string)

  function ContentOf(v: Value): Content {
    match v
    case BooleanValue(x) => Truth(x)
    case ByteValue(x) => Number(x as real)
    case ShortValue(x) => Number(x as real)
    case IntValue(x) => Number(x as real)
    case LongValue(x) => Number(x as real)
    case FloatValue(x) => Number(x)
    case DoubleValue(x) => Number(x)
    case StringValue(x) => Text(x)
  }

  /** The column type of each table: BIGINT, INT, BOOLEAN, VARCHAR, DOUBLE. */
  predicate Fits(t: Table, cell: Value) {
    match t
    case LongValues => cell.LongValue?
    case IntValues => cell.IntValue?
    case BoolValues => cell.BooleanValue?
    case StringValues => cell.StringValue?
    case DoubleValues => cell.DoubleValue?
  }

  /**
   * The cell a log call binds for a value destined for table t (asLong, asInt, asBoolean,
   * asString or asDouble). Only conversions within a value's own family are modelled: Byte and
   * Short widen to INT, Float widens to DOUBLE, and the others are stored as they are. Any other
   * pairing is None, a conversion failure.
   */
  function Convert(t: Table, v: Value): (c: Option<Value>)
    ensures c.Some? <==> t == TableFor(TypeOf(v))
    ensures c.Some? ==> Fits(t, c.value) && ContentOf(c.value) == ContentOf(v)
  {
    match v
    case LongValue(x) => if t == LongValues then Some(v) else None
    case IntValue(x) => if t == IntValues then Some(v) else None
    case ShortValue(x) => if t == IntValues then Some(IntValue(x)) else None
    case ByteValue(x) => if t == IntValues then Some(IntValue(x)) else None
    case BooleanValue(x) => if t == BoolValues then Some(v) else None
    case StringValue(x) => if t == StringValues then Some(v) else None
    case DoubleValue(x) => if t == DoubleValues then Some(v) else None
    case FloatValue(x) => if t == DoubleValues then Some(DoubleValue(x)) else None
  }

  /**
   * The value object getRecords builds from a row's VALUE column for a channel of type vt
   * (new LongValue(getLong), new IntValue(getInt), ...). A cell of the table's column type comes
   * back as the value that was stored.
   */
  function Decode(vt: ValueType, cell: Value): (v: Value)
    requires Fits(TableFor(vt), cell)
    ensures v == cell
  {
    match vt
    case Long => LongValue(cell.l)
    case Integer | Short | Byte => IntValue(cell.i)
    case Boolean => BooleanValue(cell.z)
    case ByteArray | String => StringValue(cell.s)
    case _ => DoubleValue(cell.d)
  }

  // ---------------------------------------------------------------------------------------------
  // Records, containers and channels

  /** A flag's code (Flag.getCode()). */
  type FlagCode = int

  /** The code of Flag.VALID. */
  const VALID: FlagCode := 1

  /** org.openmuc.framework.data.Record: every reference field may be null. */
  datatype Record = Record(value: Option<Value>, timestamp: Option<Int64>, flag: Option<FlagCode>)

  /** LogRecordContainer: a channel id and a record, either of which may be null. */
  datatype LogRecordContainer = Container(channelId: Option<string>, record: Option<Record>)

  /** LogChannel: what the host announces about a channel to log. */
  datatype LogChannel = LogChannel(id: string, description: Option<string>, unit: Option<string>, valueType: ValueType)

  /**
   * A container the store writes: it is non-null, its channel id is non-null and non-empty, its
   * record, the record's timestamp and the record's value are non-null.
   */
  predicate IsContainerValid(c: Option<LogRecordContainer>) {
    && c.Some?
    && c.value.channelId.Some? && c.value.channelId.value != ""
    && c.value.record.Some?
    && c.value.record.value.timestamp.Some?
    && c.value.record.value.value.Some?
  }

  /** The flag code a row stores: the record's own flag, or VALID when it has none. */
  function FlagCodeOf(flag: Option<FlagCode>): (code: FlagCode)
    ensures flag.None? ==> code == VALID
    ensures flag.Some? ==> code == flag.value
  {
    flag.GetOr(VALID)
  }

  // ---------------------------------------------------------------------------------------------
  // Exceptions

  /** Why an SQLException was raised. */
  datatype SqlReason = ConnectionClosed | OpenFailed | DuplicateKey

  /** The exceptions the core raises or lets through. */
  datatype Error =
    | SQLException(reason: SqlReason)
    | IOException(cause: Option<SqlReason>)
    | ClassNotFound
    | NullPointer
    | IllegalArgument
    | TypeConversion

  /** The exceptions a `catch (SQLException e)` handles. */
  predicate IsSqlException(e: Error) {
    e.SQLException?
  }
}
