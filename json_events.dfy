/**
 * `basic_json::to_stream(basic_json_output_handler&)`: a depth-first walk that
 * reports the value to a handler as a flat sequence of events. The handler is
 * modelled as an object that records every event it receives.
 */
module JsonEvents {
  import opened Wrappers
  import opened JsonValue

  /** The callbacks of `basic_json_output_handler` used by the walk. */
  datatype Event =
    | BeginObject
    | EndObject
    | BeginArray
    | EndArray
    | Name(name: string)
    | StringEvent(chars: seq<char>)
    | DoubleEvent(bits: bv64)
    | IntegerEvent(i: int64)
    | UIntegerEvent(u: uint64)
    | BoolEvent(b: bool)
    | NullEvent

  predicate IsValueEvent(e: Event)
  {
    e.StringEvent? || e.DoubleEvent? || e.IntegerEvent? || e.UIntegerEvent? || e.BoolEvent? || e.NullEvent?
  }

  /**
   * The events the walk reports for `v`. An `any_t` payload goes through the
   * generic `serialize`, which reports a null value.
   */
  function Events(v: Value): seq<Event>
    decreases v
  {
    match v
    case SmallString(cs) => [StringEvent(cs)]
    case HeapString(cs) => [StringEvent(cs)]
    case Double(d) => [DoubleEvent(d)]
    case Integer(i) => [IntegerEvent(i)]
    case UInteger(u) => [UIntegerEvent(u)]
    case Bool(b) => [BoolEvent(b)]
    case Null => [NullEvent]
    case EmptyObject => [BeginObject, EndObject]
    case Object(ms) => [BeginObject] + MembersEvents(v, |ms|) + [EndObject]
    case Array(xs) => [BeginArray] + ElementsEvents(v, |xs|) + [EndArray]
    case Any(_) => [NullEvent]
  }

  /** The events of the first `n` members: for each, its name and then its value's events. */
  function MembersEvents(v: Value, n: nat): seq<Event>
    requires v.Object? && n <= |v.members|
    decreases v, n
  {
    if n == 0 then []
    else MembersEvents(v, n - 1) + [Name(v.members[n - 1].name)] + Events(v.members[n - 1].value)
  }

  /** The events of the first `n` elements, in order. */
  function ElementsEvents(v: Value, n: nat): seq<Event>
    requires v.Array? && n <= |v.elements|
    decreases v, n
  {
    if n == 0 then [] else ElementsEvents(v, n - 1) + Events(v.elements[n - 1])
  }

  /** A `basic_json_output_handler` that keeps what it is told. */
  class Handler {
    var events: seq<Event>

    constructor()
      ensures events == []
    {
      events := [];
    }

    method Emit(e: Event)
      modifies this
      ensures events == old(events) + [e]
    {
      events := events + [e];
    }
  }

  /** `to_stream(handler)`: reports `v` to `h`, appending exactly `Events(v)`. */
  method ToStream(v: Value, h: Handler)
    modifies h
    ensures h.events == old(h.events) + Events(v)
    decreases v, 1
  {
    match v {
      case SmallString(cs) => h.Emit(StringEvent(cs));
      case HeapString(cs) => h.Emit(StringEvent(cs));
      case Double(d) => h.Emit(DoubleEvent(d));
      case Integer(i) => h.Emit(IntegerEvent(i));
      case UInteger(u) => h.Emit(UIntegerEvent(u));
      case Bool(b) => h.Emit(BoolEvent(b));
      case Null => h.Emit(NullEvent);
      case EmptyObject =>
        h.Emit(BeginObject);
        h.Emit(EndObject);
      case Object(ms) =>
        h.Emit(BeginObject);
        MembersToStream(v, h);
        h.Emit(EndObject);
      case Array(xs) =>
        h.Emit(BeginArray);
        ElementsToStream(v, h);
        h.Emit(EndArray);
      case Any(_) => h.Emit(NullEvent);
    }
  }

  /** The member loop of `to_stream` for an object: each name, then its value. */
  method MembersToStream(v: Value, h: Handler)
    requires v.Object?
    modifies h
    ensures h.events == old(h.events) + MembersEvents(v, |v.members|)
    decreases v, 0
  {
    var ms := v.members;
    var i := 0;
    while i < |ms|
      invariant 0 <= i <= |ms|
      invariant h.events == old(h.events) + MembersEvents(v, i)
    {
      h.Emit(Name(ms[i].name));
      ToStream(ms[i].value, h);
      i := i + 1;
    }
  }

  /** The element loop of `to_stream` for an array. */
  method ElementsToStream(v: Value, h: Handler)
    requires v.Array?
    modifies h
    ensures h.events == old(h.events) + ElementsEvents(v, |v.elements|)
    decreases v, 0
  {
    var xs := v.elements;
    var i := 0;
    while i < |xs|
      invariant 0 <= i <= |xs|
      invariant h.events == old(h.events) + ElementsEvents(v, i)
    {
      ToStream(xs[i], h);
      i := i + 1;
    }
  }

  // ---------------------------------------------------------------------------
  // Shape of the event sequence
  // ---------------------------------------------------------------------------

  /** A scalar or a string is reported by exactly one value event. */
  lemma ScalarIsOneValueEvent(v: Value)
    requires IsScalar(v) || IsString(v)
    ensures |Events(v)| == 1 && IsValueEvent(Events(v)[0])
  {
  }

  /** Objects (dense or not) are bracketed by begin/end object, arrays by begin/end array. */
  lemma ContainerBrackets(v: Value)
    ensures IsObject(v) ==> |Events(v)| >= 2 && Events(v)[0] == BeginObject && Events(v)[|Events(v)| - 1] == EndObject
    ensures IsArray(v) ==> |Events(v)| >= 2 && Events(v)[0] == BeginArray && Events(v)[|Events(v)| - 1] == EndArray
  {
  }

  /** The event stream does not tell the placeholder from a dense empty object, though `==` does. */
  lemma PlaceholderInvisibleInEvents()
    ensures Events(EmptyObject) == Events(Object([]))
    ensures Equal(EmptyObject, Object([])) == Some(false)
  {
  }

  function Delta(e: Event): int
  {
    match e
    case BeginObject => 1
    case BeginArray => 1
    case EndObject => -1
    case EndArray => -1
    case _ => 0
  }

  /** Open containers minus closed containers. */
  function Depth(es: seq<Event>): int
  {
    if |es| == 0 then 0 else Depth(es[..|es| - 1]) + Delta(es[|es| - 1])
  }

  /** Every begin is matched by a later end: no prefix closes more than it opened. */
  predicate Balanced(es: seq<Event>)
  {
    Depth(es) == 0 && forall k :: 0 <= k <= |es| ==> Depth(es[..k]) >= 0
  }

  lemma {:induction false} DepthAppend(a: seq<Event>, b: seq<Event>)
    ensures Depth(a + b) == Depth(a) + Depth(b)
    decreases |b|
  {
    if |b| == 0 {
      assert a + b == a;
    } else {
      var c := b[..|b| - 1];
      assert (a + b)[..|a + b| - 1] == a + c;
      DepthAppend(a, c);
    }
  }

  lemma BalancedAppend(a: seq<Event>, b: seq<Event>)
    requires Balanced(a) && Balanced(b)
    ensures Balanced(a + b)
  {
    DepthAppend(a, b);
    forall k | 0 <= k <= |a + b|
      ensures Depth((a + b)[..k]) >= 0
    {
      if k <= |a| {
        assert (a + b)[..k] == a[..k];
      } else {
        assert (a + b)[..k] == a + b[..k - |a|];
        DepthAppend(a, b[..k - |a|]);
      }
    }
  }

  lemma BalancedWrap(open: Event, d: seq<Event>, close: Event)
    requires Delta(open) == 1 && Delta(close) == -1 && Balanced(d)
    ensures Balanced([open] + d + [close])
  {
    var w := [open] + d + [close];
    DepthAppend([open] + d, [close]);
    DepthAppend([open], d);
    forall k | 0 <= k <= |w|
      ensures Depth(w[..k]) >= 0
    {
      if k == 0 {
      } else if k <= |d| + 1 {
        assert w[..k] == [open] + d[..k - 1];
        DepthAppend([open], d[..k - 1]);
      } else {
        assert w[..k] == w;
      }
    }
  }

  lemma NameThenBalanced(name: string, d: seq<Event>)
    requires Balanced(d)
    ensures Balanced([Name(name)] + d)
  {
    assert Balanced([Name(name)]) by {
      assert [Name(name)][..0] == [];
      assert [Name(name)][..1] == [Name(name)];
    }
    BalancedAppend([Name(name)], d);
  }

  /** Every value is reported as a well-bracketed event sequence. */
  lemma {:induction false} EventsBalanced(v: Value)
    ensures Balanced(Events(v))
    decreases v
  {
    match v
    case EmptyObject =>
      assert Events(v) == [BeginObject] + [] + [EndObject];
      BalancedWrap(BeginObject, [], EndObject);
    case Object(ms) =>
      MembersEventsBalanced(v, |ms|);
      BalancedWrap(BeginObject, MembersEvents(v, |ms|), EndObject);
    case Array(xs) =>
      ElementsEventsBalanced(v, |xs|);
      BalancedWrap(BeginArray, ElementsEvents(v, |xs|), EndArray);
    case _ =>
      var es := Events(v);
      assert |es| == 1 && Delta(es[0]) == 0;
      assert es[..0] == [] && es[..1] == es;
  }

  lemma {:induction false} MembersEventsBalanced(v: Value, n: nat)
    requires v.Object? && n <= |v.members|
    ensures Balanced(MembersEvents(v, n))
    decreases v, n
  {
    if n > 0 {
      MembersEventsBalanced(v, n - 1);
      EventsBalanced(v.members[n - 1].value);
      NameThenBalanced(v.members[n - 1].name, Events(v.members[n - 1].value));
      BalancedAppend(MembersEvents(v, n - 1), [Name(v.members[n - 1].name)] + Events(v.members[n - 1].value));
      assert MembersEvents(v, n)
        == MembersEvents(v, n - 1) + ([Name(v.members[n - 1].name)] + Events(v.members[n - 1].value));
    }
  }

  lemma {:induction false} ElementsEventsBalanced(v: Value, n: nat)
    requires v.Array? && n <= |v.elements|
    ensures Balanced(ElementsEvents(v, n))
    decreases v, n
  {
    if n > 0 {
      ElementsEventsBalanced(v, n - 1);
      EventsBalanced(v.elements[n - 1]);
      BalancedAppend(ElementsEvents(v, n - 1), Events(v.elements[n - 1]));
    }
  }
}
