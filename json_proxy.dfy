/**
 * `json_proxy`: the object returned by `root[k1][k2]...[kn]`. A proxy holds only
 * its parent and a name, so a chain of proxies is a path of names from the
 * root. Reads resolve the path strictly with `at`; writes first run
 * `evaluate_with_default`, which inserts a fresh empty object for each missing
 * name on the way down, then act on the value they reach.
 *
 * All functions here take the root before the operation and return it after.
 */
module JsonProxy {
  import opened Wrappers
  import opened JsonValue
  import opened JsonAccess
  import opened JsonAccessProperties

  /**
   * `evaluate()` of the proxy for `path`: `root.at(k1).at(k2)...at(kn)`, so the
   * first missing name or non-object along the way throws.
   */
  function ResolveStrict(v: Value, path: seq<string>): (r: Result<Value, JsonError>)
    ensures |path| == 0 ==> r == Ok(v)
    ensures |path| > 0 && At(v, path[0]).Err? ==> r == Err(At(v, path[0]).error)
    decreases |path|
  {
    if |path| == 0 then Ok(v)
    else
      match At(v, path[0])
      case Err(e) => Err(e)
      case Ok(child) => ResolveStrict(child, path[1..])
  }

  /** The member value `evaluate_with_default` descends into: the existing one, or a new dense empty object. */
  function ChildOrFresh(ms: seq<Member>, name: string): (c: Value)
    ensures HasMember(ms, name) ==> c == ms[FindIndex(ms, name).value].value
    ensures !HasMember(ms, name) ==> c == Object([])
  {
    match FindIndex(ms, name)
    case Some(i) => ms[i].value
    case None => Object([])
  }

  /**
   * `evaluate_with_default()` of the proxy for `path`: the root as it is after
   * every missing name on the path has been inserted with an empty object.
   * `find` on a non-object along the path throws.
   */
  function EnsurePath(v: Value, path: seq<string>): (r: Result<Value, JsonError>)
    decreases |path|
  {
    if |path| == 0 then Ok(v)
    else if !IsObject(v) then Err(NotAnObject)
    else
      var ms := Members(v);
      match EnsurePath(ChildOrFresh(ms, path[0]), path[1..])
      case Err(e) => Err(e)
      case Ok(c) => Ok(Object(ObjectSet(ms, path[0], c)))
  }

  /**
   * `proxy = x` for the proxy at `path` (|path| >= 1): `evaluate_with_default()`
   * of its parent, then `set(last name, x)` on the value reached.
   */
  function AssignPath(v: Value, path: seq<string>, x: Value): (r: Result<Value, JsonError>)
    requires |path| >= 1
    decreases |path|
  {
    if |path| == 1 then Set(v, path[0], x)
    else if !IsObject(v) then Err(NotAnObject)
    else
      var ms := Members(v);
      match AssignPath(ChildOrFresh(ms, path[0]), path[1..], x)
      case Err(e) => Err(e)
      case Ok(c) => Ok(Object(ObjectSet(ms, path[0], c)))
  }

  /**
   * Non-const `proxy[i]` for the proxy at `path`: `evaluate_with_default().at(i)`.
   * Missing names are inserted first, and stay inserted when `at(i)` then throws.
   */
  function ProxyIndex(v: Value, path: seq<string>, i: nat): (r: (Value, Result<Value, JsonError>))
    ensures EnsurePath(v, path).Err? ==> r == (v, Err(EnsurePath(v, path).error))
    ensures EnsurePath(v, path).Ok? ==> r.0 == EnsurePath(v, path).value
  {
    match EnsurePath(v, path)
    case Err(e) => (v, Err(e))
    case Ok(w) =>
      match ResolveStrict(w, path)
      case Ok(t) => (w, AtIndex(t, i))
      case Err(e) => (w, Err(e))
  }

  /** Non-const `basic_json::operator[](name)` on the root: densify the placeholder, or throw "Not an object". */
  function RootIndex(v: Value): (r: Result<Value, JsonError>)
    ensures r.Ok? <==> IsObject(v)
    ensures r.Ok? ==> r.value.Object? && Members(r.value) == Members(v)
    ensures r.Err? ==> r.error == NotAnObject
  {
    if IsObject(v) then Ok(Densify(v)) else Err(NotAnObject)
  }

  // ---------------------------------------------------------------------------
  // Properties
  // ---------------------------------------------------------------------------

  /** Reading through the densified root resolves exactly as through the original. */
  lemma ReadThroughDensifiedRoot(v: Value, path: seq<string>)
    requires IsObject(v) && |path| >= 1
    ensures ResolveStrict(Densify(v), path) == ResolveStrict(v, path)
  {
    assert At(Densify(v), path[0]) == At(v, path[0]);
  }

  /** Assigning through the densified root gives the same result as through the original. */
  lemma AssignThroughDensifiedRoot(v: Value, path: seq<string>, x: Value)
    requires IsObject(v) && |path| >= 1
    ensures AssignPath(Densify(v), path, x) == AssignPath(v, path, x)
  {
    if v.EmptyObject? {
      assert Members(Densify(v)) == Members(v);
    }
  }

  /** A read of a missing path reports the first missing name and creates nothing. */
  lemma ReadOfMissingPathFails()
    ensures ResolveStrict(EmptyObject, ["x", "y"]) == Err(KeyNotFound("x"))
    ensures ResolveStrict(Object([Member("x", Object([]))]), ["x", "y"]) == Err(KeyNotFound("y"))
  {
    assert ["x", "y"][1..] == ["y"];
  }

  /** Read-after-write: after `proxy = x` succeeds, reading the same proxy yields `x`. */
  lemma {:induction false} AssignThenResolve(v: Value, path: seq<string>, x: Value)
    requires |path| >= 1 && AssignPath(v, path, x).Ok?
    ensures ResolveStrict(AssignPath(v, path, x).value, path) == Ok(x)
    decreases |path|
  {
    if |path| > 1 {
      var ms := Members(v);
      var c := AssignPath(ChildOrFresh(ms, path[0]), path[1..], x).value;
      AssignThenResolve(ChildOrFresh(ms, path[0]), path[1..], x);
      assert At(Object(ObjectSet(ms, path[0], c)), path[0]) == Ok(c);
    }
  }

  /** The nearest value on a strict walk down `path` that is not an object, if any, before the last name. */
  predicate BlockedBefore(v: Value, path: seq<string>, k: nat)
  {
    k < |path| && ResolveStrict(v, path[..k]).Ok? && !IsObject(ResolveStrict(v, path[..k]).value)
  }

  /**
   * `proxy = x` throws exactly when an existing value on the way to the last
   * name is not an object; missing names never make it throw.
   */
  lemma {:induction false} AssignFailsIffBlocked(v: Value, path: seq<string>, x: Value)
    requires |path| >= 1
    ensures AssignPath(v, path, x).Err? <==> exists k: nat :: BlockedBefore(v, path, k)
    ensures AssignPath(v, path, x).Err? ==> AssignPath(v, path, x).error == NotAnObject
    decreases |path|
  {
    assert path[..0] == [];
    if !IsObject(v) {
      assert BlockedBefore(v, path, 0);
    } else if |path| > 1 {
      var ms := Members(v);
      var child := ChildOrFresh(ms, path[0]);
      AssignFailsIffBlocked(child, path[1..], x);
      if HasMember(ms, path[0]) {
        if exists k: nat :: BlockedBefore(v, path, k) {
          var k: nat :| BlockedBefore(v, path, k);
          assert k > 0;
          BlockedShift(v, path, k - 1);
        }
        if exists k: nat :: BlockedBefore(child, path[1..], k) {
          var k: nat :| BlockedBefore(child, path[1..], k);
          BlockedShift(v, path, k);
        }
      } else {
        forall k: nat
          ensures !BlockedBefore(v, path, k)
        {
          NothingBlockedUnderMissing(v, path, k);
        }
        FreshIsNeverBlocked(path[1..], x);
      }
    }
  }

  /** When the first name exists, the walk continues into its value: blocking indices shift by one. */
  lemma BlockedShift(v: Value, path: seq<string>, k: nat)
    requires IsObject(v) && |path| > 1 && HasMember(Members(v), path[0]) && k < |path| - 1
    ensures BlockedBefore(ChildOrFresh(Members(v), path[0]), path[1..], k) <==> BlockedBefore(v, path, k + 1)
  {
    assert path[..k + 1] == [path[0]] + path[1..][..k];
    assert path[..k + 1][1..] == path[1..][..k];
  }

  /** When the first name is missing, a strict walk stops there, so nothing further down blocks. */
  lemma NothingBlockedUnderMissing(v: Value, path: seq<string>, k: nat)
    requires IsObject(v) && |path| > 1 && !HasMember(Members(v), path[0])
    ensures !BlockedBefore(v, path, k)
  {
    if 0 < k < |path| {
      assert path[..k][0] == path[0];
    } else {
      assert path[..0] == [];
    }
  }

  /** Below a fresh empty object every name is missing, so the assignment cannot fail. */
  lemma {:induction false} FreshIsNeverBlocked(path: seq<string>, x: Value)
    requires |path| >= 1
    ensures AssignPath(Object([]), path, x).Ok?
    decreases |path|
  {
    if |path| > 1 {
      FreshIsNeverBlocked(path[1..], x);
    }
  }

  /** `proxy = x` leaves every other top-level name as it was. */
  lemma AssignKeepsOtherTopNames(v: Value, path: seq<string>, x: Value, other: string)
    requires |path| >= 1 && AssignPath(v, path, x).Ok? && other != path[0]
    ensures At(AssignPath(v, path, x).value, other) == At(v, other)
  {
    if |path| == 1 {
      SetKeepsOtherNames(v, path[0], other, x);
    } else {
      var ms := Members(v);
      var c := AssignPath(ChildOrFresh(ms, path[0]), path[1..], x).value;
      SetKeepsOtherNames(v, path[0], other, c);
      assert AssignPath(v, path, x).value == Set(v, path[0], c).value;
    }
  }

  /** `root["a"]["b"] = x` on a default-constructed root yields `{"a":{"b":x}}`. */
  lemma NestedAssignOnEmptyRoot(x: Value)
    ensures AssignPath(EmptyObject, ["a", "b"], x) == Ok(Object([Member("a", Object([Member("b", x)]))]))
  {
    assert ["a", "b"][1..] == ["b"];
    assert ChildOrFresh([], "a") == Object([]);
    assert ObjectSet([], "b", x) == [Member("b", x)];
    assert AssignPath(Object([]), ["b"], x) == Ok(Object([Member("b", x)]));
    assert ObjectSet([], "a", Object([Member("b", x)])) == [Member("a", Object([Member("b", x)]))];
  }

  /** After `evaluate_with_default()` the whole path resolves. */
  lemma {:induction false} EnsurePathMakesPathResolve(v: Value, path: seq<string>)
    requires EnsurePath(v, path).Ok?
    ensures ResolveStrict(EnsurePath(v, path).value, path).Ok?
    decreases |path|
  {
    if |path| > 0 {
      var ms := Members(v);
      var c := EnsurePath(ChildOrFresh(ms, path[0]), path[1..]).value;
      EnsurePathMakesPathResolve(ChildOrFresh(ms, path[0]), path[1..]);
      assert At(Object(ObjectSet(ms, path[0], c)), path[0]) == Ok(c);
    }
  }

  /** When the path already resolves, `evaluate_with_default()` changes nothing. */
  lemma {:induction false} EnsureExistingPathUnchanged(v: Value, path: seq<string>)
    requires ResolveStrict(v, path).Ok?
    ensures EnsurePath(v, path) == Ok(v)
    decreases |path|
  {
    if |path| > 0 {
      var ms := Members(v);
      var i := FindIndex(ms, path[0]).value;
      EnsureExistingPathUnchanged(ms[i].value, path[1..]);
      assert ObjectSet(ms, path[0], ms[i].value) == ms;
    }
  }

  /** `root["a"][0]` on a default-constructed root inserts "a" and then throws, keeping the insertion. */
  lemma IndexThroughMissingNameKeepsInsertion()
    ensures ProxyIndex(EmptyObject, ["a"], 0) == (Object([Member("a", Object([]))]), Err(NotAnArray))
  {
    var w := Object([Member("a", Object([]))]);
    assert ObjectSet([], "a", Object([])) == w.members;
    assert EnsurePath(EmptyObject, ["a"]) == Ok(w);
    assert ResolveStrict(w, ["a"]) == Ok(Object([]));
  }

  /** The member `evaluate_with_default` descends into is well formed when the object is. */
  lemma ChildOrFreshWellFormed(v: Value, name: string)
    requires IsObject(v) && WellFormed(v)
    ensures WellFormed(ChildOrFresh(Members(v), name))
  {
    match FindIndex(Members(v), name)
    case Some(i) =>
      assert v.Object?;
    case None =>
  }

  /** `evaluate_with_default()` keeps the storage invariant: it only inserts empty objects. */
  lemma {:induction false} EnsurePathPreservesWellFormed(v: Value, path: seq<string>)
    requires WellFormed(v) && EnsurePath(v, path).Ok?
    ensures WellFormed(EnsurePath(v, path).value)
    decreases |path|
  {
    if |path| > 0 {
      var ms := Members(v);
      ChildOrFreshWellFormed(v, path[0]);
      EnsurePathPreservesWellFormed(ChildOrFresh(ms, path[0]), path[1..]);
      var c := EnsurePath(ChildOrFresh(ms, path[0]), path[1..]).value;
      SetPreservesWellFormed(v, path[0], c);
      assert EnsurePath(v, path).value == Set(v, path[0], c).value;
    }
  }

  /** `proxy = x` keeps the storage invariant when `x` is well formed. */
  lemma {:induction false} AssignPathPreservesWellFormed(v: Value, path: seq<string>, x: Value)
    requires |path| >= 1 && WellFormed(v) && WellFormed(x) && AssignPath(v, path, x).Ok?
    ensures WellFormed(AssignPath(v, path, x).value)
    decreases |path|
  {
    if |path| == 1 {
      SetPreservesWellFormed(v, path[0], x);
    } else {
      var ms := Members(v);
      ChildOrFreshWellFormed(v, path[0]);
      AssignPathPreservesWellFormed(ChildOrFresh(ms, path[0]), path[1..], x);
      var c := AssignPath(ChildOrFresh(ms, path[0]), path[1..], x).value;
      SetPreservesWellFormed(v, path[0], c);
      assert AssignPath(v, path, x).value == Set(v, path[0], c).value;
    }
  }

  /** Indexing through a proxy leaves a well-formed root well formed. */
  lemma ProxyIndexPreservesWellFormed(v: Value, path: seq<string>, i: nat)
    requires WellFormed(v)
    ensures WellFormed(ProxyIndex(v, path, i).0)
  {
    if EnsurePath(v, path).Ok? {
      EnsurePathPreservesWellFormed(v, path);
    }
  }
}
