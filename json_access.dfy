/**
 * The lookup and mutation operations of `basic_json` as functions from the old
 * value to a result or the new value: `at`, `find`, `get`, `count`, `set`,
 * `add`, `erase`, `reserve`, `object_value` and the implicit densification of
 * the empty-object placeholder.
 *
 * `json_object` is a sequence of members in iteration order; lookup finds the
 * first member with the name. `json_object::set` replaces the value of that
 * first member, or else appends a new member; `json_object::erase(name)`
 * removes that first member. `json_array` is a sequence of values.
 */
module JsonAccess {
  import opened Wrappers
  import opened JsonValue

  /** The index of the first member called `name`: `json_object::find`. */
  function FindIndex(ms: seq<Member>, name: string): (r: Option<nat>)
    ensures r.Some? ==> r.value < |ms| && ms[r.value].name == name
    ensures r.Some? ==> forall j :: 0 <= j < r.value ==> ms[j].name != name
    ensures r.None? ==> forall j :: 0 <= j < |ms| ==> ms[j].name != name
  {
    if |ms| == 0 then None
    else if ms[0].name == name then Some(0)
    else
      match FindIndex(ms[1..], name)
      case None => None
      case Some(i) => Some(i + 1)
  }

  predicate HasMember(ms: seq<Member>, name: string)
  {
    exists j :: 0 <= j < |ms| && ms[j].name == name
  }

  /** The first-match property determines `FindIndex` completely. */
  lemma {:induction false} FindIndexIsFirstMatch(ms: seq<Member>, name: string, i: nat)
    requires i <= |ms|
    requires forall j :: 0 <= j < i ==> ms[j].name != name
    requires i < |ms| ==> ms[i].name == name
    ensures FindIndex(ms, name) == if i < |ms| then Some(i) else None
  {
    if |ms| > 0 && ms[0].name != name {
      FindIndexIsFirstMatch(ms[1..], name, i - 1);
    }
  }

  /** `json_object::set(name, value)`: replace the first member called `name`, else append one. */
  function ObjectSet(ms: seq<Member>, name: string, x: Value): (r: seq<Member>)
    ensures FindIndex(r, name) == Some(if HasMember(ms, name) then FindIndex(ms, name).value else |ms|)
    ensures r[FindIndex(r, name).value].value == x
    ensures |r| == if HasMember(ms, name) then |ms| else |ms| + 1
    ensures forall j :: 0 <= j < |ms| ==> r[j].name == ms[j].name
    ensures forall j :: 0 <= j < |ms| && j != FindIndex(r, name).value ==> r[j] == ms[j]
  {
    match FindIndex(ms, name)
    case Some(i) =>
      FindIndexIsFirstMatch(ms[i := Member(name, x)], name, i);
      ms[i := Member(name, x)]
    case None =>
      FindIndexIsFirstMatch(ms + [Member(name, x)], name, |ms|);
      ms + [Member(name, x)]
  }

  /** `json_object::erase(name)`: remove the first member called `name`, if any. */
  function ObjectErase(ms: seq<Member>, name: string): (r: seq<Member>)
    ensures |r| == if HasMember(ms, name) then |ms| - 1 else |ms|
    ensures !HasMember(ms, name) ==> r == ms
    ensures multiset(r) <= multiset(ms)
  {
    match FindIndex(ms, name)
    case Some(i) =>
      assert ms == ms[..i] + [ms[i]] + ms[i + 1..];
      ms[..i] + ms[i + 1..]
    case None => ms
  }

  /** `create_object_implicitly`: the placeholder becomes a real, empty `object_t`. */
  function Densify(v: Value): (r: Value)
    ensures IsObject(v) ==> r.Object? && Members(r) == Members(v)
    ensures !v.EmptyObject? ==> r == v
  {
    if v.EmptyObject? then Object([]) else v
  }

  /** `at(name)`: strict lookup. */
  function At(v: Value, name: string): (r: Result<Value, JsonError>)
    ensures r.Ok? <==> IsObject(v) && HasMember(Members(v), name)
    ensures r.Ok? ==> r.value == Members(v)[FindIndex(Members(v), name).value].value
    ensures r.Err? && IsObject(v) ==> r.error == KeyNotFound(name) && IsOutOfRange(r.error)
    ensures !IsObject(v) ==> r == Err(NotAnObject)
  {
    match v
    case EmptyObject => Err(KeyNotFound(name))
    case Object(ms) =>
      (match FindIndex(ms, name)
       case None => Err(KeyNotFound(name))
       case Some(i) => Ok(ms[i].value))
    case _ => Err(NotAnObject)
  }

  /** `at(i)`: strict indexing. */
  function AtIndex(v: Value, i: nat): (r: Result<Value, JsonError>)
    ensures r.Ok? <==> v.Array? && i < Size(v)
    ensures r.Ok? ==> r.value == v.elements[i]
    ensures v.Array? && i >= Size(v) ==> r == Err(IndexOutOfRange(i)) && IsOutOfRange(r.error)
    ensures !v.Array? ==> r == Err(NotAnArray)
  {
    match v
    case Array(xs) => if i >= |xs| then Err(IndexOutOfRange(i)) else Ok(xs[i])
    case _ => Err(NotAnArray)
  }

  /** `find(name)`: the position of the first member called `name` (None is `members().end()`). */
  function Find(v: Value, name: string): (r: Result<Option<nat>, JsonError>)
    ensures r.Ok? <==> IsObject(v)
    ensures r.Ok? ==> (r.value.Some? <==> At(v, name).Ok?)
    ensures r.Ok? && r.value.Some? ==> r.value.value < Size(v) && Members(v)[r.value.value].value == At(v, name).value
    ensures r.Err? ==> r.error == NotAnObject
  {
    match v
    case EmptyObject => Ok(None)
    case Object(ms) => Ok(FindIndex(ms, name))
    case _ => Err(NotAnObject)
  }

  /** `get(name, default)`: lenient lookup, still refused on a non-object. */
  function Get(v: Value, name: string, default: Value): (r: Result<Value, JsonError>)
    ensures IsObject(v) ==> r == Ok(if At(v, name).Ok? then At(v, name).value else default)
    ensures !IsObject(v) ==> r == Err(NotAnObject)
  {
    match v
    case EmptyObject => Ok(default)
    case Object(ms) =>
      (match FindIndex(ms, name)
       case Some(i) => Ok(ms[i].value)
       case None => Ok(default))
    case _ => Err(NotAnObject)
  }

  /** `set(name, value)`: the placeholder is densified first; any other non-object throws. */
  function Set(v: Value, name: string, x: Value): (r: Result<Value, JsonError>)
    ensures r.Ok? <==> IsObject(v)
    ensures r.Ok? ==> r.value.Object? && At(r.value, name) == Ok(x)
    ensures r.Ok? ==> Size(r.value) == if HasMember(Members(v), name) then Size(v) else Size(v) + 1
    ensures r.Err? ==> r.error == NotAnObject
  {
    match v
    case EmptyObject => Ok(Object(ObjectSet([], name, x)))
    case Object(ms) => Ok(Object(ObjectSet(ms, name, x)))
    case _ => Err(NotAnObject)
  }

  /** `add(value)`: push_back on an array; anything else throws. */
  function Add(v: Value, x: Value): (r: Result<Value, JsonError>)
    ensures r.Ok? <==> v.Array?
    ensures r.Ok? ==> r.value.Array? && Size(r.value) == Size(v) + 1
    ensures r.Ok? ==> AtIndex(r.value, Size(v)) == Ok(x)
    ensures r.Ok? ==> forall i :: 0 <= i < Size(v) ==> AtIndex(r.value, i) == AtIndex(v, i)
    ensures r.Err? ==> r.error == NotAnArray
  {
    match v
    case Array(xs) => Ok(Array(xs + [x]))
    case _ => Err(NotAnArray)
  }

  /** `add(pos, value)`: insert before position `pos` of an array (`pos` must be a valid iterator). */
  function Insert(v: Value, pos: nat, x: Value): (r: Result<Value, JsonError>)
    requires v.Array? ==> pos <= Size(v)
    ensures r.Ok? <==> v.Array?
    ensures r.Ok? ==> r.value.Array? && Size(r.value) == Size(v) + 1 && AtIndex(r.value, pos) == Ok(x)
    ensures r.Ok? ==> forall i :: 0 <= i < pos ==> AtIndex(r.value, i) == AtIndex(v, i)
    ensures r.Ok? ==> forall i :: pos <= i < Size(v) ==> AtIndex(r.value, i + 1) == AtIndex(v, i)
    ensures r.Err? ==> r.error == NotAnArray
  {
    match v
    case Array(xs) => Ok(Array(xs[..pos] + [x] + xs[pos..]))
    case _ => Err(NotAnArray)
  }

  /** `erase(name)`: a no-op on the placeholder; throws on a non-object. */
  function Erase(v: Value, name: string): (r: Result<Value, JsonError>)
    ensures r.Ok? <==> IsObject(v)
    ensures r.Ok? ==> TagOf(r.value) == TagOf(v)
    ensures r.Ok? ==> Size(r.value) == if HasMember(Members(v), name) then Size(v) - 1 else Size(v)
    ensures r.Err? ==> r.error == NotAnObject
  {
    match v
    case EmptyObject => Ok(v)
    case Object(ms) => Ok(Object(ObjectErase(ms, name)))
    case _ => Err(NotAnObject)
  }

  /** `reserve(n)`: capacity is not modelled, so only the densification of the placeholder is visible. */
  function Reserve(v: Value): (r: Value)
    ensures IsObject(v) ==> r.Object? && Members(r) == Members(v)
    ensures !v.EmptyObject? ==> r == v
  {
    match v
    case EmptyObject => Densify(v)
    case _ => v
  }

  /** `object_value()`: densifies the placeholder and exposes the members, or throws "Bad object cast". */
  function ObjectValue(v: Value): (r: Result<seq<Member>, JsonError>)
    ensures r.Ok? <==> IsObject(v)
    ensures r.Ok? ==> r.value == Members(v)
    ensures r.Err? ==> r.error == BadObjectCast
  {
    match v
    case EmptyObject => Ok(Densify(v).members)
    case Object(ms) => Ok(ms)
    case _ => Err(BadObjectCast)
  }

  /** How many members from index `i` on are called `name` before another name interrupts them. */
  function RunLength(ms: seq<Member>, i: nat, name: string): (r: nat)
    requires i <= |ms|
    ensures i + r <= |ms|
    ensures forall j :: i <= j < i + r ==> ms[j].name == name
    ensures i + r < |ms| ==> ms[i + r].name != name
    decreases |ms| - i
  {
    if i < |ms| && ms[i].name == name then 1 + RunLength(ms, i + 1, name) else 0
  }

  /**
   * `count(name)`: from the first member called `name`, count forward while the
   * names compare equal. Only `object_t` is searched; every other tag gives 0.
   */
  function CountSpec(v: Value, name: string): nat
  {
    match v
    case Object(ms) =>
      (match FindIndex(ms, name)
       case None => 0
       case Some(i) => RunLength(ms, i, name))
    case _ => 0
  }

  /** The number of members called `name` anywhere in the object. */
  function Occurrences(ms: seq<Member>, name: string): nat
  {
    if |ms| == 0 then 0 else (if ms[0].name == name then 1 else 0) + Occurrences(ms[1..], name)
  }

  /** The members called `name` sit next to each other, as they do in a sorted object. */
  predicate Contiguous(ms: seq<Member>, name: string)
  {
    forall i, j, k :: 0 <= i < j < k < |ms| && ms[i].name == name && ms[k].name == name ==> ms[j].name == name
  }
}
