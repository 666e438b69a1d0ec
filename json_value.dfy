/**
 * The closed tagged union behind `basic_json` (its nested `variant`), the
 * small-string storage choice, the pure tag queries and the equality operator.
 *
 * One constructor of `Value` per `value_types_t` tag. The union's raw storage
 * is not modelled: each constructor carries exactly the payload its tag makes
 * meaningful, and ownership is value semantics (a copy is a deep copy).
 */
module JsonValue {
  import opened Wrappers

  newtype int64 = x: int | -0x8000_0000_0000_0000 <= x < 0x8000_0000_0000_0000
  newtype uint64 = x: int | 0 <= x < 0x1_0000_0000_0000_0000

  const INT64_MAX: int := 0x7FFF_FFFF_FFFF_FFFF
  const TWO_POW_64: int := 0x1_0000_0000_0000_0000

  /** sizeof(char_type) for `json`, i.e. basic_json<std::string>. */
  const CharBytes: nat := 1

  /** small_string_capacity: sizeof(int64_t)/sizeof(char_type) - 1 (one unit is kept for the terminator). */
  const SmallStringCapacity: nat := 8 / CharBytes - 1

  /** The tags of `value_types_t`, in declaration order. */
  datatype Tag =
    | EmptyObjectT | SmallStringT | DoubleT | IntegerT | UIntegerT | BoolT | NullT
    | StringT | ObjectT | ArrayT | AnyT

  /** `is_simple`: the tags declared before `string_t`, whose payload lives inside the union. */
  predicate IsSimple(t: Tag)
  {
    t.EmptyObjectT? || t.SmallStringT? || t.DoubleT? || t.IntegerT? || t.UIntegerT? || t.BoolT? || t.NullT?
  }

  /**
   * The payload of `serializable_any`: the runtime type tag of the wrapped
   * `any_handle_impl<T>` (standing for `typeid`) and the wrapped value, kept opaque.
   */
  datatype AnyPayload = AnyPayload(typeId: nat, data: seq<int>)

  datatype Value =
    | EmptyObject                        // zero-allocation object placeholder
    | SmallString(chars: seq<char>)      // inline; |chars| is small_string_length_
    | Double(bits: bv64)                 // IEEE-754 bit pattern, kept opaque
    | Integer(i: int64)
    | UInteger(u: uint64)
    | Bool(b: bool)
    | Null
    | HeapString(chars: seq<char>)       // exact-length heap buffer
    | Object(members: seq<Member>)
    | Array(elements: seq<Value>)
    | Any(payload: AnyPayload)

  /** A `name_value_pair` of a `json_object`. */
  datatype Member = Member(name: string, value: Value)

  /** The exceptions the value layer throws; `IsOutOfRange` tells which are `std::out_of_range`. */
  datatype JsonError =
    | KeyNotFound(key: string)       // out_of_range "%s not found"
    | IndexOutOfRange(index: nat)    // out_of_range "Invalid array subscript"
    | NotAnObject                    // runtime_error: get/set/find on a non-object, operator[] "Not an object"
    | NotAnArray                     // runtime_error: at(i) or add on a non-array
    | BadObjectCast                  // runtime_error from object_value()
    | BadAnyCast                     // runtime_error from basic_json::any_cast on a non-any value
    | BadSerializableAnyCast         // runtime_error from serializable_any::cast on a type mismatch
    | NotAnInteger
    | NotAnUnsignedInteger

  predicate IsOutOfRange(e: JsonError)
  {
    e.KeyNotFound? || e.IndexOutOfRange?
  }

  function TagOf(v: Value): Tag
  {
    match v
    case EmptyObject => EmptyObjectT
    case SmallString(_) => SmallStringT
    case Double(_) => DoubleT
    case Integer(_) => IntegerT
    case UInteger(_) => UIntegerT
    case Bool(_) => BoolT
    case Null => NullT
    case HeapString(_) => StringT
    case Object(_) => ObjectT
    case Array(_) => ArrayT
    case Any(_) => AnyT
  }

  // ---------------------------------------------------------------------------
  // Representation invariant and string storage
  // ---------------------------------------------------------------------------

  /**
   * The invariant every constructor and assignment of the variant keeps: a
   * string is inline exactly when its length fits the small-string capacity.
   */
  predicate WellFormed(v: Value)
  {
    match v
    case SmallString(cs) => |cs| <= SmallStringCapacity
    case HeapString(cs) => |cs| > SmallStringCapacity
    case Array(xs) => forall i :: 0 <= i < |xs| ==> WellFormed(xs[i])
    case Object(ms) => forall i :: 0 <= i < |ms| ==> WellFormed(ms[i].value)
    case _ => true
  }

  /**
   * The string constructors and `assign(const string_type&)` / `assign_string`:
   * inline with a length byte when the length fits, otherwise one exact-length
   * heap buffer.
   */
  function MakeString(s: seq<char>): (r: Value)
    ensures IsString(r) && StringValue(r) == s
    ensures WellFormed(r)
    ensures r.SmallString? <==> |s| <= SmallStringCapacity
    ensures r.HeapString? <==> |s| > SmallStringCapacity
  {
    if |s| > SmallStringCapacity then HeapString(s) else SmallString(s)
  }

  /** The prefix of `s` up to its first NUL: what `char_traits::length` measures. */
  function TakeUntilNul(s: seq<char>): (r: seq<char>)
    ensures r <= s
    ensures '\0' !in r
    ensures |r| < |s| ==> s[|r|] == '\0'
  {
    if s == [] || s[0] == '\0' then [] else [s[0]] + TakeUntilNul(s[1..])
  }

  /** `variant(const char_type* s, const Alloc&)`: the length is found by scanning for NUL. */
  function MakeCString(buf: seq<char>): (r: Value)
    ensures IsString(r) && StringValue(r) <= buf && '\0' !in StringValue(r)
    ensures |StringValue(r)| < |buf| ==> buf[|StringValue(r)|] == '\0'
    ensures WellFormed(r)
  {
    MakeString(TakeUntilNul(buf))
  }

  // ---------------------------------------------------------------------------
  // Tag queries
  // ---------------------------------------------------------------------------

  predicate IsString(v: Value) { v.SmallString? || v.HeapString? }
  predicate IsNumber(v: Value) { v.Double? || v.Integer? || v.UInteger? }
  predicate IsObject(v: Value) { v.EmptyObject? || v.Object? }
  predicate IsArray(v: Value) { v.Array? }
  predicate IsScalar(v: Value) { IsNumber(v) || v.Bool? || v.Null? || v.Any? }

  function StringValue(v: Value): seq<char>
    requires IsString(v)
  {
    v.chars
  }

  /** The members an object iterates over; the empty-object placeholder has none. */
  function Members(v: Value): seq<Member>
    requires IsObject(v)
  {
    if v.EmptyObject? then [] else v.members
  }

  /** `size()`: members of an object, elements of an array, 0 for everything else (strings included). */
  function Size(v: Value): (r: nat)
    ensures IsObject(v) ==> r == |Members(v)|
    ensures IsArray(v) ==> r == |v.elements|
    ensures !IsObject(v) && !IsArray(v) ==> r == 0
  {
    match v
    case EmptyObject => 0
    case Object(ms) => |ms|
    case Array(xs) => |xs|
    case _ => 0
  }

  /** `empty()`: decided by the tag. */
  function Empty(v: Value): (r: bool)
    ensures IsObject(v) || IsArray(v) ==> (r <==> Size(v) == 0)
    ensures IsString(v) ==> (r <==> StringValue(v) == [])
    ensures IsScalar(v) ==> !r
    ensures v.EmptyObject? ==> r
  {
    match v
    case SmallString(cs) => |cs| == 0
    case HeapString(cs) => |cs| == 0
    case Array(xs) => |xs| == 0
    case EmptyObject => true
    case Object(ms) => |ms| == 0
    case _ => false
  }

  /** IEEE-754: the sign bit aside, all bits zero. */
  predicate IsZeroBits(d: bv64)
  {
    d & 0x7FFF_FFFF_FFFF_FFFF == 0
  }

  /** IEEE-754: exponent all ones, mantissa non-zero. */
  predicate IsNaNBits(d: bv64)
  {
    d & 0x7FF0_0000_0000_0000 == 0x7FF0_0000_0000_0000 && d & 0x000F_FFFF_FFFF_FFFF != 0
  }

  /** The mathematical value of an integer-tagged or boolean value. */
  function Numeric(v: Value): int
    requires v.Integer? || v.UInteger? || v.Bool?
  {
    match v
    case Integer(i) => i as int
    case UInteger(u) => u as int
    case Bool(b) => if b then 1 else 0
  }

  /** `as_bool()`: false for null, the empty-object placeholder and zero; true for any payload. */
  function AsBool(v: Value): (r: bool)
    ensures IsObject(v) || IsArray(v) || IsString(v) ==> (r <==> !Empty(v))
    ensures v.Integer? || v.UInteger? || v.Bool? ==> (r <==> Numeric(v) != 0)
    ensures v.Double? ==> (r <==> !IsZeroBits(v.bits))
    ensures v.Null? ==> !r
    ensures v.Any? ==> r
  {
    match v
    case Null => false
    case EmptyObject => false
    case Bool(b) => b
    case Double(d) => !IsZeroBits(d)           // d != 0.0, which NaN satisfies
    case Integer(i) => i != 0
    case UInteger(u) => u != 0
    case SmallString(cs) => |cs| != 0
    case HeapString(cs) => |cs| != 0
    case Array(xs) => |xs| != 0
    case Object(ms) => |ms| != 0
    case Any(_) => true
  }

  /** static_cast<int64_t> of an integer: two's-complement wrap-around. */
  function ToInt64(x: int): (r: int64)
    ensures (r as int - x) % TWO_POW_64 == 0
  {
    var m := x % TWO_POW_64;
    if m > INT64_MAX then (m - TWO_POW_64) as int64 else m as int64
  }

  /** static_cast<uint64_t> of an integer: reduction modulo 2^64. */
  function ToUInt64(x: int): (r: uint64)
    ensures (r as int - x) % TWO_POW_64 == 0
  {
    (x % TWO_POW_64) as uint64
  }

  /** `as_integer()` on the integer tags and bool; any other non-double tag throws "Not an integer". */
  function AsInteger(v: Value): (r: Result<int64, JsonError>)
    requires !v.Double?
    ensures r.Ok? <==> v.Integer? || v.UInteger? || v.Bool?
    ensures r.Ok? ==> (r.value as int - Numeric(v)) % TWO_POW_64 == 0
    ensures r.Err? ==> r.error == NotAnInteger
  {
    match v
    case Integer(i) => Ok(i)
    case UInteger(u) => Ok(ToInt64(u as int))
    case Bool(b) => Ok(if b then 1 else 0)
    case _ => Err(NotAnInteger)
  }

  /** `as_uinteger()` on the integer tags and bool; any other non-double tag throws. */
  function AsUInteger(v: Value): (r: Result<uint64, JsonError>)
    requires !v.Double?
    ensures r.Ok? <==> v.Integer? || v.UInteger? || v.Bool?
    ensures r.Ok? ==> (r.value as int - Numeric(v)) % TWO_POW_64 == 0
    ensures r.Err? ==> r.error == NotAnUnsignedInteger
  {
    match v
    case Integer(i) => Ok(ToUInt64(i as int))
    case UInteger(u) => Ok(u)
    case Bool(b) => Ok(if b then 1 else 0)
    case _ => Err(NotAnUnsignedInteger)
  }

  /** `is_integer()`: true exactly when `as_integer()` returns the value unchanged. */
  predicate IsInteger(v: Value)
    ensures IsInteger(v) ==> v.Integer? || v.UInteger?
    ensures v.Integer? || v.UInteger? ==> (IsInteger(v) <==> AsInteger(v).value as int == Numeric(v))
  {
    v.Integer? || (v.UInteger? && AsUInteger(v).value as int <= INT64_MAX)
  }

  /** `is_uinteger()`: true exactly when `as_uinteger()` returns the value unchanged. */
  predicate IsUInteger(v: Value)
    ensures IsUInteger(v) ==> v.Integer? || v.UInteger?
    ensures v.Integer? || v.UInteger? ==> (IsUInteger(v) <==> AsUInteger(v).value as int == Numeric(v))
  {
    v.UInteger? || (v.Integer? && AsInteger(v).value >= 0)
  }

  // ---------------------------------------------------------------------------
  // Any payload
  // ---------------------------------------------------------------------------

  /** `serializable_any::cast<T>`: the runtime type tag must match, otherwise "Bad serializable_any cast". */
  function Cast(p: AnyPayload, typeId: nat): (r: Result<seq<int>, JsonError>)
    ensures r.Ok? <==> p.typeId == typeId
    ensures r.Ok? ==> r.value == p.data
    ensures r.Err? ==> r.error == BadSerializableAnyCast
  {
    if p.typeId != typeId then Err(BadSerializableAnyCast) else Ok(p.data)
  }

  /** `basic_json::any_cast<T>`: "Bad any cast" on a non-any value, otherwise the payload's own cast. */
  function AnyCast(v: Value, typeId: nat): (r: Result<seq<int>, JsonError>)
    ensures r.Ok? <==> v.Any? && v.payload.typeId == typeId
    ensures !v.Any? ==> r == Err(BadAnyCast)
    ensures r.Ok? ==> r.value == v.payload.data
  {
    if !v.Any? then Err(BadAnyCast) else Cast(v.payload, typeId)
  }

  // ---------------------------------------------------------------------------
  // Equality (variant::operator==)
  // ---------------------------------------------------------------------------

  /** IEEE-754 `==` on two doubles: NaN equals nothing, +0 equals -0. */
  predicate DoubleEqual(a: bv64, b: bv64)
  {
    !IsNaNBits(a) && !IsNaNBits(b) && (a == b || (IsZeroBits(a) && IsZeroBits(b)))
  }

  /**
   * The numeric switch of `operator==`. int64 against uint64 goes through the
   * usual arithmetic conversion, so the int64 is reduced modulo 2^64. A double
   * against an integer converts the integer to double with rounding, which the
   * model does not define: `None`.
   */
  function NumericEqual(a: Value, b: Value): Option<bool>
    requires IsNumber(a) && IsNumber(b)
  {
    match (a, b)
    case (Integer(x), Integer(y)) => Some(x == y)
    case (Integer(x), UInteger(y)) => Some(ToUInt64(x as int) == y)
    case (UInteger(x), Integer(y)) => Some(x == ToUInt64(y as int))
    case (UInteger(x), UInteger(y)) => Some(x == y)
    case (Double(x), Double(y)) => Some(DoubleEqual(x, y))
    case _ => None
  }

  /**
   * `variant::operator==`. `Some(r)` is the C++ result; `None` when the
   * comparison reaches a double compared with an integer. Arrays and objects
   * compare their sizes, then their entries in order, stopping at the first
   * entry that decides.
   */
  function Equal(a: Value, b: Value): Option<bool>
    decreases a
  {
    if IsNumber(a) && IsNumber(b) then NumericEqual(a, b)
    else if TagOf(a) != TagOf(b) then Some(false)
    else
      match a
      case Bool(x) => Some(x == b.b)
      case Null => Some(true)
      case EmptyObject => Some(true)
      case SmallString(cs) => Some(cs == b.chars)
      case HeapString(cs) => Some(cs == b.chars)
      case Array(xs) => if |xs| != |b.elements| then Some(false) else ElementsEqual(a, b, 0)
      case Object(ms) => if |ms| != |b.members| then Some(false) else MembersEqual(a, b, 0)
      case Any(_) => Some(false)
      case _ => Some(false)
  }

  function ElementsEqual(a: Value, b: Value, i: nat): Option<bool>
    requires a.Array? && b.Array? && |a.elements| == |b.elements| && i <= |a.elements|
    decreases a, |a.elements| - i
  {
    if i == |a.elements| then Some(true)
    else
      match Equal(a.elements[i], b.elements[i])
      case Some(true) => ElementsEqual(a, b, i + 1)
      case other => other
  }

  function MembersEqual(a: Value, b: Value, i: nat): Option<bool>
    requires a.Object? && b.Object? && |a.members| == |b.members| && i <= |a.members|
    decreases a, |a.members| - i
  {
    if i == |a.members| then Some(true)
    else if a.members[i].name != b.members[i].name then Some(false)
    else
      match Equal(a.members[i].value, b.members[i].value)
      case Some(true) => MembersEqual(a, b, i + 1)
      case other => other
  }
}
