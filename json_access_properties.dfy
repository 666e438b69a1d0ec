/**
 * How the lookup and mutation operations of `basic_json` relate to each other:
 * what `set` and `erase` leave alone, `set` followed by `erase` as an inverse,
 * idempotence of `set`, preservation of the string-storage invariant, and what
 * `count` counts when duplicate names are or are not adjacent.
 */
module JsonAccessProperties {
  import opened Wrappers
  import opened JsonValue
  import opened JsonAccess

  // ---------------------------------------------------------------------------
  // Occurrences of a name
  // ---------------------------------------------------------------------------

  lemma {:induction false} OccurrencesAppend(a: seq<Member>, b: seq<Member>, name: string)
    ensures Occurrences(a + b, name) == Occurrences(a, name) + Occurrences(b, name)
  {
    if |a| == 0 {
      assert a + b == b;
    } else {
      assert (a + b)[1..] == a[1..] + b;
      OccurrencesAppend(a[1..], b, name);
    }
  }

  lemma {:induction false} OccurrencesZeroIffAbsent(ms: seq<Member>, name: string)
    ensures Occurrences(ms, name) == 0 <==> !HasMember(ms, name)
  {
    if |ms| > 0 {
      OccurrencesZeroIffAbsent(ms[1..], name);
      if HasMember(ms, name) && ms[0].name != name {
        var j :| 0 <= j < |ms| && ms[j].name == name;
        assert ms[1..][j - 1].name == name;
      }
      if HasMember(ms[1..], name) {
        var j :| 0 <= j < |ms[1..]| && ms[1..][j].name == name;
        assert ms[j + 1].name == name;
      }
    }
  }

  // ---------------------------------------------------------------------------
  // set
  // ---------------------------------------------------------------------------

  /** `set(name, x)` does not change what any other name looks up to. */
  lemma SetKeepsOtherNames(v: Value, name: string, other: string, x: Value)
    requires IsObject(v) && other != name
    ensures At(Set(v, name, x).value, other) == At(v, other)
  {
    var ms := Members(v);
    assert Set(v, name, x).value == Object(ObjectSet(ms, name, x));
    ObjectSetKeepsOtherLookup(ms, name, x, other);
  }

  /** In the member sequence, `set` leaves the first match of every other name where it was. */
  lemma ObjectSetKeepsOtherLookup(ms: seq<Member>, name: string, x: Value, other: string)
    requires other != name
    ensures FindIndex(ObjectSet(ms, name, x), other) == FindIndex(ms, other)
    ensures FindIndex(ms, other).Some? ==> ObjectSet(ms, name, x)[FindIndex(ms, other).value] == ms[FindIndex(ms, other).value]
  {
    var r := ObjectSet(ms, name, x);
    match FindIndex(ms, other)
    case Some(k) =>
      FindIndexIsFirstMatch(r, other, k);
    case None =>
      FindIndexIsFirstMatch(r, other, |r|);
  }

  /** Setting the same member to the same value twice is the same as once. */
  lemma SetIdempotent(v: Value, name: string, x: Value)
    requires IsObject(v)
    ensures Set(Set(v, name, x).value, name, x) == Set(v, name, x)
  {
    var r := Set(v, name, x).value;
    var i := FindIndex(r.members, name).value;
    assert r.members[i] == Member(name, x);
    assert r.members[i := Member(name, x)] == r.members;
  }

  /** `set` keeps the storage invariant of the whole tree. */
  lemma SetPreservesWellFormed(v: Value, name: string, x: Value)
    requires IsObject(v) && WellFormed(v) && WellFormed(x)
    ensures WellFormed(Set(v, name, x).value)
  {
    var ms := Members(v);
    var r := ObjectSet(ms, name, x);
    var i := FindIndex(r, name).value;
    forall j | 0 <= j < |r|
      ensures WellFormed(r[j].value)
    {
      if j != i {
        assert r[j] == ms[j];
      }
    }
  }

  /** `add` keeps the storage invariant of the whole tree. */
  lemma AddPreservesWellFormed(v: Value, x: Value)
    requires v.Array? && WellFormed(v) && WellFormed(x)
    ensures WellFormed(Add(v, x).value)
  {
    var r := Add(v, x).value.elements;
    forall j | 0 <= j < |r|
      ensures WellFormed(r[j])
    {
      if j < |v.elements| {
        assert r[j] == v.elements[j];
      }
    }
  }

  /** `add(pos, x)` keeps the storage invariant of the whole tree. */
  lemma InsertPreservesWellFormed(v: Value, pos: nat, x: Value)
    requires v.Array? && pos <= Size(v) && WellFormed(v) && WellFormed(x)
    ensures WellFormed(Insert(v, pos, x).value)
  {
    var xs := v.elements;
    var r := Insert(v, pos, x).value.elements;
    forall j | 0 <= j < |r|
      ensures WellFormed(r[j])
    {
      if j < pos {
        assert r[j] == xs[j];
      } else if j > pos {
        assert r[j] == xs[j - 1];
      }
    }
  }

  /** `erase` keeps the storage invariant: every member left was a member before. */
  lemma ErasePreservesWellFormed(v: Value, name: string)
    requires IsObject(v) && WellFormed(v)
    ensures WellFormed(Erase(v, name).value)
  {
    if v.Object? {
      var ms := v.members;
      var r := ObjectErase(ms, name);
      forall j | 0 <= j < |r|
        ensures WellFormed(r[j].value)
      {
        assert r[j] in multiset(r);
        assert r[j] in multiset(ms);
        var k :| 0 <= k < |ms| && ms[k] == r[j];
      }
    }
  }

  /** Adding a new member and erasing it again restores the object (densified). */
  lemma SetThenEraseRestores(v: Value, name: string, x: Value)
    requires IsObject(v) && !HasMember(Members(v), name)
    ensures Erase(Set(v, name, x).value, name) == Ok(Densify(v))
  {
    var ms := Members(v);
    var r := ObjectSet(ms, name, x);
    assert r == ms + [Member(name, x)];
    assert FindIndex(r, name) == Some(|ms|);
    assert r[..|ms|] == ms && r[|ms| + 1..] == [];
    assert ObjectErase(r, name) == ms;
  }

  // ---------------------------------------------------------------------------
  // erase
  // ---------------------------------------------------------------------------

  /** `erase(name)` removes exactly one member called `name`, when there is one. */
  lemma EraseRemovesOneOccurrence(v: Value, name: string)
    requires IsObject(v)
    ensures var n := Occurrences(Members(v), name);
      Occurrences(Members(Erase(v, name).value), name) == if n == 0 then 0 else n - 1
  {
    var ms := Members(v);
    OccurrencesZeroIffAbsent(ms, name);
    match FindIndex(ms, name)
    case None =>
    case Some(i) =>
      OccurrencesRemoveAt(ms, i, name);
  }

  /** Removing the member at `i` lowers the count of its own name by one and of no other. */
  lemma OccurrencesRemoveAt(ms: seq<Member>, i: nat, name: string)
    requires i < |ms|
    ensures Occurrences(ms, name) == Occurrences(ms[..i] + ms[i + 1..], name) + (if ms[i].name == name then 1 else 0)
  {
    assert ms == ms[..i] + ([ms[i]] + ms[i + 1..]);
    OccurrencesAppend(ms[..i], [ms[i]] + ms[i + 1..], name);
    OccurrencesAppend([ms[i]], ms[i + 1..], name);
    OccurrencesAppend(ms[..i], ms[i + 1..], name);
    assert ([ms[i]] + ms[i + 1..])[1..] == ms[i + 1..];
  }

  /** With unique names, a key is gone after `erase`. */
  lemma EraseUniqueNameRemovesIt(v: Value, name: string)
    requires IsObject(v) && Occurrences(Members(v), name) <= 1
    ensures At(Erase(v, name).value, name) == Err(KeyNotFound(name))
  {
    EraseRemovesOneOccurrence(v, name);
    OccurrencesZeroIffAbsent(Members(Erase(v, name).value), name);
  }

  /** `erase(name)` does not change what any other name looks up to. */
  lemma EraseKeepsOtherNames(v: Value, name: string, other: string)
    requires IsObject(v) && other != name
    ensures At(Erase(v, name).value, other) == At(v, other)
  {
    var ms := Members(v);
    match FindIndex(ms, name)
    case None =>
    case Some(i) =>
      var r := ms[..i] + ms[i + 1..];
      assert Erase(v, name).value == Object(r);
      match FindIndex(ms, other)
      case None =>
        FindIndexIsFirstMatch(r, other, |r|);
      case Some(k) =>
        if k < i {
          FindIndexIsFirstMatch(r, other, k);
        } else {
          assert k != i;
          FindIndexIsFirstMatch(r, other, k - 1);
        }
  }

  // ---------------------------------------------------------------------------
  // count
  // ---------------------------------------------------------------------------

  /** `count(name)` is positive exactly when `at(name)` succeeds. */
  lemma CountPositiveIffPresent(v: Value, name: string)
    ensures CountSpec(v, name) > 0 <==> At(v, name).Ok?
  {
  }

  /** After a maximal run of `name` in a contiguous object, the name does not occur again. */
  lemma NothingAfterRun(ms: seq<Member>, name: string, i: nat)
    requires Contiguous(ms, name) && i < |ms| && ms[i].name == name
    ensures !HasMember(ms[i + RunLength(ms, i, name)..], name)
  {
  }

  /** From offset `i`, the occurrences of `name` are exactly its run when no later member carries it. */
  lemma {:induction false} OccurrencesFromRun(ms: seq<Member>, i: nat, name: string)
    requires i <= |ms|
    requires !HasMember(ms[i + RunLength(ms, i, name)..], name)
    ensures Occurrences(ms[i..], name) == RunLength(ms, i, name)
    decreases |ms| - i
  {
    if i < |ms| && ms[i].name == name {
      assert ms[i..][1..] == ms[i + 1..];
      OccurrencesFromRun(ms, i + 1, name);
    } else {
      OccurrencesZeroIffAbsent(ms[i..], name);
    }
  }

  /** A first match followed by a run and then no further match: the run is every occurrence. */
  lemma OccurrencesOfLoneRun(ms: seq<Member>, name: string, i: nat)
    requires FindIndex(ms, name) == Some(i)
    requires !HasMember(ms[i + RunLength(ms, i, name)..], name)
    ensures Occurrences(ms, name) == RunLength(ms, i, name)
  {
    assert ms == ms[..i] + ms[i..];
    OccurrencesAppend(ms[..i], ms[i..], name);
    OccurrencesZeroIffAbsent(ms[..i], name);
    OccurrencesFromRun(ms, i, name);
  }


  /**
   * When the members called `name` are adjacent, as in a name-sorted object,
   * `count` finds all of them.
   */
  lemma CountAdjacentIsOccurrences(ms: seq<Member>, name: string)
    requires Contiguous(ms, name)
    ensures CountSpec(Object(ms), name) == Occurrences(ms, name)
  {
    OccurrencesZeroIffAbsent(ms, name);
    match FindIndex(ms, name)
    case None =>
    case Some(i) =>
      NothingAfterRun(ms, name, i);
      OccurrencesOfLoneRun(ms, name, i);
  }

  /** With duplicates apart from each other, `count` stops at the first other name. */
  lemma CountStopsAtFirstGap()
    ensures var ms := [Member("a", Null), Member("b", Null), Member("a", Null)];
      CountSpec(Object(ms), "a") == 1 && Occurrences(ms, "a") == 2
  {
    var ms := [Member("a", Null), Member("b", Null), Member("a", Null)];
    assert RunLength(ms, 1, "a") == 0;
    assert ms[1..][1..][1..] == [];
  }
}
