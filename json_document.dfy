/**
 * `basic_json` as a mutable object: one field holding the variant, and the
 * members that rewrite it in place. Each mutator is specified by the pure
 * function of the same operation in `JsonAccess` or `JsonProxy`; an exception
 * is returned as `Some(error)` and leaves the value as the C++ code leaves it.
 */
module JsonDocument {
  import opened Wrappers
  import opened JsonValue
  import opened JsonAccess
  import opened JsonAccessProperties
  import opened JsonProxy

  class Json {
    var value: Value

    /** The storage invariant of the held variant. */
    predicate Valid()
      reads this
    {
      WellFormed(value)
    }

    /** `basic_json()`: the zero-allocation empty-object placeholder. */
    constructor()
      ensures value == EmptyObject
      ensures Valid() && IsObject(value) && Size(value) == 0 && Empty(value)
    {
      value := EmptyObject;
    }

    /** `basic_json(const Alloc&)`: a dense, allocated empty object. */
    constructor WithAllocator()
      ensures value == Object([])
      ensures Valid() && IsObject(value) && Size(value) == 0 && Empty(value)
    {
      value := Object([]);
    }

    /** The copy constructor: a deep copy, so later changes to either side are not shared. */
    constructor Copy(other: Json)
      requires other.Valid()
      ensures value == other.value && Valid()
    {
      value := other.value;
    }

    /** `basic_json(const string_type&)` and the `const char_type*, size_t` form. */
    constructor FromString(s: seq<char>)
      ensures value == MakeString(s)
      ensures Valid()
    {
      value := MakeString(s);
    }

    /** The move constructor: starts as `null_t` and swaps, so the source is left null. */
    constructor Moved(other: Json)
      requires other.Valid()
      modifies other
      ensures value == old(other.value)
      ensures other.value == Null
      ensures Valid() && other.Valid()
    {
      value := Null;
      new;
      var t := value;
      value := other.value;
      other.value := t;
    }

    /** `swap`: exchanges the two variants; swapping with itself changes nothing. */
    method Swap(other: Json)
      requires Valid() && other.Valid()
      modifies this, other
      ensures value == old(other.value) && other.value == old(value)
      ensures Valid() && other.Valid()
    {
      if this != other {
        var t := value;
        value := other.value;
        other.value := t;
      }
    }

    /** Copy assignment: a deep copy of `other`; self-assignment changes nothing. */
    method CopyAssign(other: Json)
      requires other.Valid()
      modifies this
      ensures value == old(other.value)
      ensures other != this ==> other.value == old(other.value)
      ensures Valid()
    {
      if this != other {
        value := other.value;
      }
    }

    /** Move assignment: the variants are swapped, so `other` receives this value's former content. */
    method MoveAssign(other: Json)
      requires Valid() && other.Valid()
      modifies this, other
      ensures value == old(other.value)
      ensures other.value == old(value)
      ensures Valid() && other.Valid()
    {
      if this != other {
        Swap(other);
      }
    }

    // -------------------------------------------------------------------------
    // assign_*: destroy the old payload, store the new one
    // -------------------------------------------------------------------------

    /** `assign_string`: inline when the length fits the small-string capacity, else on the heap. */
    method AssignString(s: seq<char>)
      modifies this
      ensures value == MakeString(s)
      ensures Valid()
    {
      if |s| > SmallStringCapacity {
        value := HeapString(s);
      } else {
        value := SmallString(s);
      }
    }

    method AssignInteger(i: int64)
      modifies this
      ensures value == Integer(i) && Valid()
    {
      value := Integer(i);
    }

    method AssignUInteger(u: uint64)
      modifies this
      ensures value == UInteger(u) && Valid()
    {
      value := UInteger(u);
    }

    method AssignDouble(bits: bv64)
      modifies this
      ensures value == Double(bits) && Valid()
    {
      value := Double(bits);
    }

    method AssignBool(b: bool)
      modifies this
      ensures value == Bool(b) && Valid()
    {
      value := Bool(b);
    }

    method AssignNull()
      modifies this
      ensures value == Null && Valid()
    {
      value := Null;
    }

    /** `assign_object(const object&)`: always a dense object, even when `ms` is empty. */
    method AssignObject(ms: seq<Member>)
      modifies this
      ensures value == Object(ms)
      ensures Valid() <==> forall i :: 0 <= i < |ms| ==> WellFormed(ms[i].value)
    {
      value := Object(ms);
    }

    method AssignArray(xs: seq<Value>)
      modifies this
      ensures value == Array(xs)
      ensures Valid() <==> forall i :: 0 <= i < |xs| ==> WellFormed(xs[i])
    {
      value := Array(xs);
    }

    method AssignAny(p: AnyPayload)
      modifies this
      ensures value == Any(p) && Valid()
    {
      value := Any(p);
    }

    // -------------------------------------------------------------------------
    // Densifying mutators
    // -------------------------------------------------------------------------

    /** `create_object_implicitly`: only ever called on the placeholder. */
    method CreateObjectImplicitly()
      requires value.EmptyObject?
      modifies this
      ensures value == Object([]) && Valid()
    {
      value := Object([]);
    }

    /** `set(name, x)`. */
    method Set(name: string, x: Value) returns (err: Option<JsonError>)
      requires Valid() && WellFormed(x)
      modifies this
      ensures Valid()
      ensures err.None? <==> IsObject(old(value))
      ensures err.None? ==> value == JsonAccess.Set(old(value), name, x).value
      ensures err.Some? ==> err.value == NotAnObject && value == old(value)
    {
      if value.EmptyObject? {
        CreateObjectImplicitly();
      }
      if value.Object? {
        SetPreservesWellFormed(value, name, x);
        value := Object(ObjectSet(value.members, name, x));
        err := None;
      } else {
        err := Some(NotAnObject);
      }
    }

    /** `add(x)`: push_back on an array. */
    method Add(x: Value) returns (err: Option<JsonError>)
      requires Valid() && WellFormed(x)
      modifies this
      ensures Valid()
      ensures err.None? <==> old(value).Array?
      ensures err.None? ==> value == JsonAccess.Add(old(value), x).value
      ensures err.Some? ==> err.value == NotAnArray && value == old(value)
    {
      if value.Array? {
        AddPreservesWellFormed(value, x);
        value := Array(value.elements + [x]);
        err := None;
      } else {
        err := Some(NotAnArray);
      }
    }

    /** `add(pos, x)` and `add(index, x)`: insert before `pos` in an array. */
    method Insert(pos: nat, x: Value) returns (err: Option<JsonError>)
      requires value.Array? ==> pos <= Size(value)
      requires Valid() && WellFormed(x)
      modifies this
      ensures Valid()
      ensures err.None? <==> old(value).Array?
      ensures err.None? ==> value == JsonAccess.Insert(old(value), pos, x).value
      ensures err.Some? ==> err.value == NotAnArray && value == old(value)
    {
      if value.Array? {
        InsertPreservesWellFormed(value, pos, x);
        value := Array(value.elements[..pos] + [x] + value.elements[pos..]);
        err := None;
      } else {
        err := Some(NotAnArray);
      }
    }

    /** `erase(name)`: a no-op on the placeholder. */
    method Erase(name: string) returns (err: Option<JsonError>)
      requires Valid()
      modifies this
      ensures Valid()
      ensures err.None? <==> IsObject(old(value))
      ensures err.None? ==> value == JsonAccess.Erase(old(value), name).value
      ensures err.Some? ==> err.value == NotAnObject && value == old(value)
    {
      match value {
        case EmptyObject =>
          err := None;
        case Object(ms) =>
          ErasePreservesWellFormed(value, name);
          value := Object(ObjectErase(ms, name));
          err := None;
        case _ =>
          err := Some(NotAnObject);
      }
    }

    /** `reserve(n)`: densifies the placeholder; capacity itself is not modelled. */
    method Reserve(n: nat)
      requires Valid()
      modifies this
      ensures value == JsonAccess.Reserve(old(value)) && Valid()
    {
      if value.EmptyObject? {
        CreateObjectImplicitly();
      }
    }

    /** `object_value()`: densifies the placeholder and exposes the members. */
    method ObjectValue() returns (r: Result<seq<Member>, JsonError>)
      requires Valid()
      modifies this
      ensures Valid()
      ensures r == JsonAccess.ObjectValue(old(value))
      ensures value == Densify(old(value))
    {
      if value.EmptyObject? {
        CreateObjectImplicitly();
      }
      if value.Object? {
        r := Ok(value.members);
      } else {
        r := Err(BadObjectCast);
      }
    }

    /** Non-const `operator[](name)` on the root: densify or throw, then hand out a proxy. */
    method Index() returns (err: Option<JsonError>)
      requires Valid()
      modifies this
      ensures Valid()
      ensures err.None? <==> IsObject(old(value))
      ensures err.None? ==> value == RootIndex(old(value)).value
      ensures err.Some? ==> err.value == NotAnObject && value == old(value)
    {
      if value.EmptyObject? {
        CreateObjectImplicitly();
      }
      if value.Object? {
        err := None;
      } else {
        err := Some(NotAnObject);
      }
    }

    /** `root[k1]...[kn] = x`. */
    method ProxyAssign(path: seq<string>, x: Value) returns (err: Option<JsonError>)
      requires |path| >= 1 && Valid() && WellFormed(x)
      modifies this
      ensures Valid()
      ensures err.None? <==> AssignPath(old(value), path, x).Ok?
      ensures err.None? ==> value == AssignPath(old(value), path, x).value
      ensures err.Some? ==> err.value == NotAnObject && value == old(value)
    {
      err := Index();
      if err.Some? {
        return;
      }
      AssignThroughDensifiedRoot(old(value), path, x);
      AssignFailsIffBlocked(old(value), path, x);
      var res := AssignPath(value, path, x);
      if res.Ok? {
        AssignPathPreservesWellFormed(value, path, x);
        value := res.value;
      } else {
        err := Some(res.error);
      }
    }

    /** Reading `root[k1]...[kn]` through the non-const root: densifies the root, then resolves strictly. */
    method ProxyRead(path: seq<string>) returns (r: Result<Value, JsonError>)
      requires |path| >= 1 && Valid()
      modifies this
      ensures Valid()
      ensures r == ResolveStrict(old(value), path)
      ensures value == Densify(old(value))
    {
      var err := Index();
      if err.Some? {
        r := Err(err.value);
        return;
      }
      ReadThroughDensifiedRoot(old(value), path);
      r := ResolveStrict(value, path);
    }

    /** Non-const `root[k1]...[kn][i]`: missing names are inserted before `at(i)`. */
    method ProxyIndexAt(path: seq<string>, i: nat) returns (r: Result<Value, JsonError>)
      requires |path| >= 1 && Valid()
      modifies this
      ensures Valid()
      ensures IsObject(old(value)) ==> (value, r) == ProxyIndex(Densify(old(value)), path, i)
      ensures !IsObject(old(value)) ==> r == Err(NotAnObject) && value == old(value)
    {
      var err := Index();
      if err.Some? {
        r := Err(err.value);
        return;
      }
      var res := ProxyIndex(value, path, i);
      ProxyIndexPreservesWellFormed(value, path, i);
      value := res.0;
      r := res.1;
    }

    /** `count(name)`: find the first member called `name`, then step forward while the names match. */
    method Count(name: string) returns (count: nat)
      ensures count == CountSpec(value, name)
    {
      if !value.Object? {
        return 0;
      }
      var ms := value.members;
      var found := FindIndex(ms, name);
      if found.None? {
        return 0;
      }
      var it := found.value;
      count := 0;
      while it < |ms| && ms[it].name == name
        invariant found.value <= it <= |ms|
        invariant RunLength(ms, found.value, name) == count + RunLength(ms, it, name)
        decreases |ms| - it
      {
        count := count + 1;
        it := it + 1;
      }
    }
  }

  /**
   * `make_2d_array(m, n)` (with `fill` the default value, the placeholder) and
   * `make_2d_array(m, n, val)`: an array of `m` rows, each an array of `n` copies of `fill`.
   */
  method Make2dArray(m: nat, n: nat, fill: Value) returns (a: Value)
    ensures a.Array? && Size(a) == m
    ensures forall i :: 0 <= i < m ==> AtIndex(a, i).Ok? && AtIndex(a, i).value.Array? && Size(AtIndex(a, i).value) == n
    ensures forall i, j :: 0 <= i < m && 0 <= j < n ==> AtIndex(AtIndex(a, i).value, j) == Ok(fill)
    ensures WellFormed(fill) ==> WellFormed(a)
  {
    var row := seq(n, _ => fill);
    var rows := seq(m, _ => EmptyObject);
    for i := 0 to m
      invariant |rows| == m
      invariant forall k :: 0 <= k < i ==> rows[k] == Array(row)
    {
      rows := rows[i := Array(row)];
    }
    a := Array(rows);
  }
}
