/**
 * Properties of `variant::operator==` (and so of `basic_json::operator==`):
 * symmetry, reflexivity where IEEE-754 and `any_t` allow it, when the result is
 * defined, the role of the small-string invariant, and the observable
 * consequences of the int64/uint64 conversion and the empty-object placeholder.
 */
module JsonEquality {
  import opened Wrappers
  import opened JsonValue

  // ---------------------------------------------------------------------------
  // Symmetry
  // ---------------------------------------------------------------------------

  lemma {:induction false} EqualSymmetric(a: Value, b: Value)
    ensures Equal(a, b) == Equal(b, a)
    decreases a
  {
    if IsNumber(a) && IsNumber(b) {
    } else if TagOf(a) != TagOf(b) {
    } else if a.Array? {
      if |a.elements| == |b.elements| {
        ElementsEqualSymmetric(a, b, 0);
      }
    } else if a.Object? {
      if |a.members| == |b.members| {
        MembersEqualSymmetric(a, b, 0);
      }
    }
  }

  lemma {:induction false} ElementsEqualSymmetric(a: Value, b: Value, i: nat)
    requires a.Array? && b.Array? && |a.elements| == |b.elements| && i <= |a.elements|
    ensures ElementsEqual(a, b, i) == ElementsEqual(b, a, i)
    decreases a, |a.elements| - i
  {
    if i < |a.elements| {
      EqualSymmetric(a.elements[i], b.elements[i]);
      ElementsEqualSymmetric(a, b, i + 1);
    }
  }

  lemma {:induction false} MembersEqualSymmetric(a: Value, b: Value, i: nat)
    requires a.Object? && b.Object? && |a.members| == |b.members| && i <= |a.members|
    ensures MembersEqual(a, b, i) == MembersEqual(b, a, i)
    decreases a, |a.members| - i
  {
    if i < |a.members| {
      EqualSymmetric(a.members[i].value, b.members[i].value);
      MembersEqualSymmetric(a, b, i + 1);
    }
  }

  // ---------------------------------------------------------------------------
  // Reflexivity
  // ---------------------------------------------------------------------------

  /** No `any_t` payload (never equal, even to itself) and no NaN anywhere inside. */
  predicate SelfComparable(v: Value)
  {
    match v
    case Any(_) => false
    case Double(d) => !IsNaNBits(d)
    case Array(xs) => forall i :: 0 <= i < |xs| ==> SelfComparable(xs[i])
    case Object(ms) => forall i :: 0 <= i < |ms| ==> SelfComparable(ms[i].value)
    case _ => true
  }

  lemma {:induction false} EqualReflexive(v: Value)
    requires SelfComparable(v)
    ensures Equal(v, v) == Some(true)
    decreases v
  {
    match v
    case Array(xs) => ElementsEqualReflexive(v, 0);
    case Object(ms) => MembersEqualReflexive(v, 0);
    case _ =>
  }

  lemma {:induction false} ElementsEqualReflexive(v: Value, i: nat)
    requires v.Array? && SelfComparable(v) && i <= |v.elements|
    ensures ElementsEqual(v, v, i) == Some(true)
    decreases v, |v.elements| - i
  {
    if i < |v.elements| {
      EqualReflexive(v.elements[i]);
      ElementsEqualReflexive(v, i + 1);
    }
  }

  lemma {:induction false} MembersEqualReflexive(v: Value, i: nat)
    requires v.Object? && SelfComparable(v) && i <= |v.members|
    ensures MembersEqual(v, v, i) == Some(true)
    decreases v, |v.members| - i
  {
    if i < |v.members| {
      EqualReflexive(v.members[i].value);
      MembersEqualReflexive(v, i + 1);
    }
  }

  /** An `any_t` value is unequal to everything, itself included. */
  lemma AnyNeverEqual(p: AnyPayload, x: Value)
    ensures Equal(Any(p), x) == Some(false) && Equal(x, Any(p)) == Some(false)
  {
    EqualSymmetric(Any(p), x);
  }

  /** A NaN double is unequal to itself; +0.0 and -0.0 are equal. */
  lemma DoubleSpecialCases(d: bv64)
    ensures IsNaNBits(d) ==> Equal(Double(d), Double(d)) == Some(false)
    ensures Equal(Double(0), Double(0x8000_0000_0000_0000)) == Some(true)
  {
  }

  // ---------------------------------------------------------------------------
  // Definedness: only a double meeting an integer is left open
  // ---------------------------------------------------------------------------

  /** No double anywhere inside the value. */
  predicate DoubleFree(v: Value)
  {
    match v
    case Double(_) => false
    case Array(xs) => forall i :: 0 <= i < |xs| ==> DoubleFree(xs[i])
    case Object(ms) => forall i :: 0 <= i < |ms| ==> DoubleFree(ms[i].value)
    case _ => true
  }

  lemma {:induction false} EqualDefinedWithoutDoubles(a: Value, b: Value)
    requires DoubleFree(a) && DoubleFree(b)
    ensures Equal(a, b).Some?
    decreases a
  {
    if IsNumber(a) && IsNumber(b) {
    } else if TagOf(a) != TagOf(b) {
    } else if a.Array? {
      if |a.elements| == |b.elements| {
        ElementsEqualDefined(a, b, 0);
      }
    } else if a.Object? {
      if |a.members| == |b.members| {
        MembersEqualDefined(a, b, 0);
      }
    }
  }

  lemma {:induction false} ElementsEqualDefined(a: Value, b: Value, i: nat)
    requires a.Array? && b.Array? && |a.elements| == |b.elements| && i <= |a.elements|
    requires DoubleFree(a) && DoubleFree(b)
    ensures ElementsEqual(a, b, i).Some?
    decreases a, |a.elements| - i
  {
    if i < |a.elements| {
      EqualDefinedWithoutDoubles(a.elements[i], b.elements[i]);
      ElementsEqualDefined(a, b, i + 1);
    }
  }

  lemma {:induction false} MembersEqualDefined(a: Value, b: Value, i: nat)
    requires a.Object? && b.Object? && |a.members| == |b.members| && i <= |a.members|
    requires DoubleFree(a) && DoubleFree(b)
    ensures MembersEqual(a, b, i).Some?
    decreases a, |a.members| - i
  {
    if i < |a.members| && a.members[i].name == b.members[i].name {
      EqualDefinedWithoutDoubles(a.members[i].value, b.members[i].value);
      MembersEqualDefined(a, b, i + 1);
    }
  }

  // ---------------------------------------------------------------------------
  // Strings and the small-string invariant
  // ---------------------------------------------------------------------------

  /**
   * Under the storage invariant two strings are equal exactly when their
   * characters are: equal content forces the same storage tag.
   */
  lemma StringEqualIffContent(a: Value, b: Value)
    requires IsString(a) && IsString(b) && WellFormed(a) && WellFormed(b)
    ensures Equal(a, b) == Some(StringValue(a) == StringValue(b))
    ensures StringValue(a) == StringValue(b) ==> TagOf(a) == TagOf(b)
  {
  }

  /** Without the invariant the tag check would tell apart two spellings of the same text. */
  lemma StorageMismatchUnequal()
    ensures Equal(SmallString("ab"), HeapString("ab")) == Some(false)
    ensures !WellFormed(HeapString("ab"))
  {
  }

  /** Strings built by the string constructors compare by content. */
  lemma MakeStringEqual(s: seq<char>, t: seq<char>)
    ensures Equal(MakeString(s), MakeString(t)) == Some(s == t)
  {
    StringEqualIffContent(MakeString(s), MakeString(t));
  }

  // ---------------------------------------------------------------------------
  // Cross-tag behaviour
  // ---------------------------------------------------------------------------

  /** Outside the numeric tags, a tag mismatch decides the comparison. */
  lemma DifferentTagsUnequal(a: Value, b: Value)
    requires !(IsNumber(a) && IsNumber(b)) && TagOf(a) != TagOf(b)
    ensures Equal(a, b) == Some(false)
  {
  }

  /** The zero-allocation placeholder and a dense empty object carry different tags and compare unequal. */
  lemma PlaceholderUnequalToEmptyObject()
    ensures Equal(EmptyObject, Object([])) == Some(false)
    ensures Size(EmptyObject) == Size(Object([])) == 0
  {
  }

  /**
   * int64 against uint64: the int64 is converted to uint64, so the values are
   * equal exactly when they agree modulo 2^64.
   */
  lemma IntegerUIntegerEqualModulo(x: int64, y: uint64)
    ensures Equal(Integer(x), UInteger(y)) == Some((x as int - y as int) % TWO_POW_64 == 0)
    ensures Equal(UInteger(y), Integer(x)) == Equal(Integer(x), UInteger(y))
  {
    var m := ToUInt64(x as int);
    assert (m as int - x as int) % TWO_POW_64 == 0;
    if (x as int - y as int) % TWO_POW_64 == 0 {
      assert (m as int - y as int) % TWO_POW_64 == 0;
    }
  }

  /** For a non-negative int64 that reduction is the identity: equality is mathematical. */
  lemma NonNegativeIntegerEqualsSameUInteger(x: int64, y: uint64)
    requires x >= 0
    ensures Equal(Integer(x), UInteger(y)) == Some(x as int == y as int)
  {
    IntegerUIntegerEqualModulo(x, y);
  }

  /** A negative int64 equals the uint64 it wraps to: -1 equals 2^64 - 1. */
  lemma NegativeOneEqualsUInt64Max()
    ensures Equal(Integer(-1), UInteger(0xFFFF_FFFF_FFFF_FFFF)) == Some(true)
  {
    IntegerUIntegerEqualModulo(-1, 0xFFFF_FFFF_FFFF_FFFF);
  }
}
