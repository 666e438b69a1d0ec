# jsoncons core: the JSON value and its input sources

This project models two parts of jsoncons in Dafny and proves properties of
them.

**The JSON value.** `basic_json` holds its value in a tagged variant
(`variant`). The tags are:

- an empty-object placeholder;
- a short string stored in place, and a string on the heap;
- a double, a signed 64-bit integer and an unsigned 64-bit integer;
- a boolean and null;
- an object (a sequence of name/value members), an array;
- an `any` payload.

The modelled operations on that value are:

- construction and assignment of every kind;
- `swap`, copy and move;
- `size`, `empty`, `as_bool`, `as_integer`, `as_uinteger`, `is_integer`, `is_uinteger`;
- `at`, `find`, `get`, `count`, `set`, `add`, `erase`, `reserve`, `object_value`;
- `any_cast`;
- equality (`operator==`);
- `to_stream`, which replays a value as parse events;
- `make_2d_array`;
- the `json_proxy` chain returned by `operator[](name)`.

**The input sources.** Each source delivers characters or bytes to a parser:

- `string_source` and `bytes_source`: a cursor over a contiguous buffer;
- `iterator_source` and `binary_iterator_source`: a cursor over an iterator range;
- `stream_source`: a buffered reader over an `std::istream`;
- `source_reader`: reads from a source into a growable container, in two variants.

The modules are:

- `JsonValue`: the variant (`Value`), its well-formedness invariant, string
  construction, size, emptiness, the numeric conversions and the `any` casts.
- `JsonAccess`: member lookup, `set`, `erase`, `add`, `insert`, `get`, `find`
  and `count`, as functions over values.
- `JsonAccessProperties`: lemmas relating those functions: set then read, set
  is idempotent, erase undoes a set, and `count` against the number of
  occurrences.
- `JsonEquality`: `operator==` as a partial function. Comparisons that involve
  a double compared with an integer are not modelled. The module proves
  symmetry, reflexivity and the behaviour of NaN and signed zero.
- `JsonEvents`: `to_stream` as a method over a recording handler, proved
  against the event sequence `Events(v)`, which is always balanced.
- `JsonProxy`: the proxy chain `j["a"]["b"]...` as paths. It covers reading
  (`evaluate`), assignment (`evaluate_with_default` then `set`) and indexing.
- `JsonDocument`: `class Json`, a `basic_json` whose methods update its value
  in place and are proved against the functions above.
- `SourceCursor`, `SourceIterator`, `SourceStream`, `SourceReader`: the
  input-source family as classes over arrays.
  - `InputStream` stands in for the `std::istream`. Its `sgetn` replies are
    scripted, so that a short read or a throw can occur anywhere.
  - `Honest()` marks a stream whose `sgetn` always delivers what is asked,
    up to the end of its content.

## Model

| member | source | states |
|---|---|---|
| JsonValue.MakeString | src/jsoncons/json.hpp:512-527 | A string value holds exactly the given characters. It is stored in place iff its length is at most `small_string_capacity` (7 one-byte characters), otherwise on the heap. The result is well formed. |
| JsonValue.WellFormed | src/jsoncons/json.hpp:394 | The storage invariant the constructors and assignments keep: a string is stored in place exactly when its length is at most `small_string_capacity`, at every depth of arrays and objects. Its preservation is proved by `SetPreservesWellFormed`, `AddPreservesWellFormed`, `InsertPreservesWellFormed`, `ErasePreservesWellFormed` and the path lemmas. |
| JsonValue.IsString | src/jsoncons/json.hpp:911-914 | `is_string()`: either string tag, short or heap. |
| JsonValue.IsNumber | src/jsoncons/json.hpp:916-919 | `is_number()`: the double, integer and unsigned-integer tags. |
| JsonValue.IsObject | src/jsoncons/json.hpp:1965-1968 | `is_object()`: a real object or the empty-object placeholder. |
| JsonValue.IsArray | src/jsoncons/json.hpp:1970-1973 | `is_array()`: the array tag. |
| JsonValue.TakeUntilNul | src/jsoncons/json.hpp:529-545 | The characters before the first NUL: a prefix of the buffer, containing no NUL, ended either by the buffer's end or by a NUL. |
| JsonValue.MakeCString | src/jsoncons/json.hpp:529-545 | A string built from a NUL-terminated buffer holds every character before the first NUL: a NUL-free prefix of the buffer that ends at the buffer's end or at a NUL. The result is well formed. |
| JsonValue.Size | src/jsoncons/json.hpp:1775-1788 | The member count of an object (the placeholder counts 0), the element count of an array, and 0 for every other kind. |
| JsonValue.Empty | src/jsoncons/json.hpp:892-909 | Containers are empty iff their size is 0, and strings iff they have no characters. Scalars are never empty; the placeholder always is. |
| JsonValue.AsBool | src/jsoncons/json.hpp:2085-2113 | Containers and strings are true iff non-empty. Integers and booleans are true iff non-zero. A double is true iff its bits are not a (signed) zero. Null is false; `any` is true. |
| JsonValue.ToInt64 | src/jsoncons/json.hpp:813-814 | The two's-complement conversion to `int64_t`: congruent to the input modulo 2^64. |
| JsonValue.ToUInt64 | src/jsoncons/json.hpp:824-825 | The conversion to `uint64_t`: congruent to the input modulo 2^64. |
| JsonValue.AsInteger | src/jsoncons/json.hpp:2115-2130 | Succeeds iff the value is an integer, an unsigned integer or a boolean. It then returns the value converted modulo 2^64; otherwise it fails with the not-an-integer error. |
| JsonValue.AsUInteger | src/jsoncons/json.hpp:2132-2147 | The same for `as_uinteger`, with the not-an-unsigned-integer error. |
| JsonValue.IsInteger | src/jsoncons/json.hpp:1980-1983 | Holds only for integer tags. For those, it holds iff `as_integer` returns the number unchanged. |
| JsonValue.IsUInteger | src/jsoncons/json.hpp:1985-1988 | Holds only for integer tags. For those, it holds iff `as_uinteger` returns the number unchanged. |
| JsonValue.Cast | src/jsoncons/json.hpp:163-181 | `serializable_any::cast` succeeds iff the requested type is the stored one, returning the stored data. Otherwise it fails with the bad-cast error. |
| JsonValue.AnyCast | src/jsoncons/json.hpp:2716-2733 | `any_cast` succeeds iff the value is an `any` of the requested type. On a non-`any` value it fails with the bad-any-cast error. |
| JsonValue.Equal | src/jsoncons/json.hpp:802-880 | `variant::operator==`. Two numbers compare by value; otherwise different tags are unequal. Same-tag values compare by content: booleans, strings, element-wise arrays, member-wise objects. Null and the placeholder are equal to themselves; `any` is never equal. Its properties are the `JsonEquality` lemmas. |
| JsonValue.NumericEqual | src/jsoncons/json.hpp:804-850 | The number branch of `operator==`. Integers and unsigned integers compare after conversion modulo 2^64, and doubles by IEEE equality on their bits. A double against an integer is left undecided. |
| JsonValue.DoubleEqual | src/jsoncons/json.hpp:841-842 | IEEE equality of two doubles: false when either is NaN, true for +0 and -0, otherwise bit equality. |
| JsonValue.ElementsEqual | src/jsoncons/json.hpp:867-868 | Arrays of the same length are equal iff their elements are equal pairwise, in order. |
| JsonValue.MembersEqual | src/jsoncons/json.hpp:870-871 | Objects with the same number of members are equal iff their members are equal pairwise (same name, equal value), in order. |
| JsonAccess.FindIndex | src/jsoncons/json.hpp:2320-2333 | The index of the first member with the name, or none iff no member has it. |
| JsonAccess.FindIndexIsFirstMatch | src/jsoncons/json.hpp:2320-2333 | Any index with no earlier match, which is a match or the end, is what `FindIndex` returns. |
| JsonAccess.ObjectSet | src/jsoncons/json.hpp:2485-2499 | Replaces the value of the first member with the name, or appends a member when there is none. Every other member and every name is unchanged, and the length grows only when appending. |
| JsonAccess.ObjectErase | src/jsoncons/json.hpp:2470-2483 | Removes one member when the name is present and nothing otherwise. The result is a sub-multiset of the members. |
| JsonAccess.Densify | src/jsoncons/json.hpp:1800-1813 | The placeholder becomes a real empty object with the same members; every other value is unchanged. |
| JsonAccess.At | src/jsoncons/json.hpp:2209-2230 | Succeeds iff the value is an object with the name, returning the first match's value. A missing name gives the key-not-found error (an out-of-range error); a non-object gives the not-an-object error. |
| JsonAccess.AtIndex | src/jsoncons/json.hpp:2290-2303 | Succeeds iff the value is an array and the index is below its size. A large index gives the index-out-of-range error; a non-array gives the not-an-array error. |
| JsonAccess.Find | src/jsoncons/json.hpp:2320-2333 | Defined iff the value is an object. Finds a position iff `at` succeeds, and that position holds `at`'s value. |
| JsonAccess.Get | src/jsoncons/json.hpp:2380-2405 | On an object, the member's value when present, otherwise the default. On anything else, the not-an-object error. |
| JsonAccess.Set | src/jsoncons/json.hpp:2485-2499 | Succeeds iff the value is an object. Afterwards `at(name)` returns the new value, and the size grows by one only when the name was new. |
| JsonAccess.Add | src/jsoncons/json.hpp:2603-2615 | Succeeds iff the value is an array. The array grows by one, with the new element last and every earlier element unchanged. |
| JsonAccess.Insert | src/jsoncons/json.hpp:2629-2641 | Succeeds iff the value is an array. The new element is at the position; elements before it are unchanged, and elements after it shift up by one. |
| JsonAccess.Erase | src/jsoncons/json.hpp:2470-2483 | Succeeds iff the value is an object. The tag is kept, and the size drops by one exactly when the name was present. |
| JsonAccess.Reserve | src/jsoncons/json.hpp:2035-2055 | The placeholder becomes a real object with the same members; other values keep their content. |
| JsonAccess.ObjectValue | src/jsoncons/json.hpp:3133-3145 | Succeeds iff the value is an object, returning its members. Otherwise it fails with the bad-object-cast error. |
| JsonAccess.RunLength | src/jsoncons/json.hpp:1923-1946 | The length of the run of members with the name starting at an index: every member in it matches, and the next one does not. |
| JsonAccess.CountSpec | src/jsoncons/json.hpp:1923-1946 | `count(name)`: 0 on non-objects and when the name is absent, otherwise the run of matching members starting at the first match. `CountPositiveIffPresent` and `CountAdjacentIsOccurrences` relate it to `at` and to the number of occurrences. |
| JsonAccessProperties.SetKeepsOtherNames | src/jsoncons/json.hpp:2485-2499 | Setting one name leaves `at` of every other name unchanged. |
| JsonAccessProperties.ObjectSetKeepsOtherLookup | src/jsoncons/json.hpp:2485-2499 | Setting one name keeps the first-match index, and the member there, of every other name. |
| JsonAccessProperties.SetIdempotent | src/jsoncons/json.hpp:2485-2499 | Setting the same name to the same value twice is the same as setting it once. |
| JsonAccessProperties.SetPreservesWellFormed | src/jsoncons/json.hpp:2485-2499 | Setting a well-formed value into a well-formed object gives a well-formed object. |
| JsonAccessProperties.AddPreservesWellFormed | src/jsoncons/json.hpp:2603-2615 | Appending a well-formed element to a well-formed array gives a well-formed array. |
| JsonAccessProperties.InsertPreservesWellFormed | src/jsoncons/json.hpp:2629-2641 | Inserting a well-formed element into a well-formed array gives a well-formed array. |
| JsonAccessProperties.ErasePreservesWellFormed | src/jsoncons/json.hpp:2470-2483 | Erasing from a well-formed object gives a well-formed object: every member left was a member before. |
| JsonAccessProperties.SetThenEraseRestores | src/jsoncons/json.hpp:2470-2499 | Erasing a name that was just set as new gives back the original object, made dense. |
| JsonAccessProperties.EraseRemovesOneOccurrence | src/jsoncons/json.hpp:2470-2483 | Erase removes exactly one occurrence of the name when there is one, and none otherwise. |
| JsonAccessProperties.EraseUniqueNameRemovesIt | src/jsoncons/json.hpp:2470-2483 | After erasing a name that occurred at most once, `at` of it fails with key-not-found. |
| JsonAccessProperties.EraseKeepsOtherNames | src/jsoncons/json.hpp:2470-2483 | Erasing one name leaves `at` of every other name unchanged. |
| JsonAccessProperties.CountPositiveIffPresent | src/jsoncons/json.hpp:1923-1946 | `count(name)` is positive iff `at(name)` succeeds. |
| JsonAccessProperties.NothingAfterRun | src/jsoncons/json.hpp:1923-1946 | When a name's members are adjacent, no member after the run has the name. |
| JsonAccessProperties.OccurrencesFromRun | src/jsoncons/json.hpp:1923-1946 | With no match after a run, the occurrences from the run's start are the run's length. |
| JsonAccessProperties.OccurrencesOfLoneRun | src/jsoncons/json.hpp:1923-1946 | A first match followed by a run and then no further match: the run is every occurrence. |
| JsonAccessProperties.CountAdjacentIsOccurrences | src/jsoncons/json.hpp:1923-1946 | When a name's members are adjacent, `count` is the number of members with that name. |
| JsonAccessProperties.CountStopsAtFirstGap | src/jsoncons/json.hpp:1923-1946 | With members named a, b, a, `count("a")` is 1: the scan stops at the first non-matching member. |
| JsonEquality.EqualSymmetric | src/jsoncons/json.hpp:802-880 | `a == b` and `b == a` agree, including on which pairs are left unmodelled. |
| JsonEquality.EqualReflexive | src/jsoncons/json.hpp:802-880 | A value containing no NaN and no `any` is equal to itself. |
| JsonEquality.AnyNeverEqual | src/jsoncons/json.hpp:873-879 | An `any` value is unequal to every value, itself included. |
| JsonEquality.DoubleSpecialCases | src/jsoncons/json.hpp:841-842 | A NaN is unequal to itself, and +0.0 equals -0.0. |
| JsonEquality.EqualDefinedWithoutDoubles | src/jsoncons/json.hpp:802-880 | For values without doubles, the model decides equality for every pair. |
| JsonEquality.StringEqualIffContent | src/jsoncons/json.hpp:863-866 | Two well-formed strings are equal iff their characters are. Equal characters imply the same storage kind. |
| JsonEquality.StorageMismatchUnequal | src/jsoncons/json.hpp:852-855 | A short and a heap string with the same characters compare unequal, and the heap one is not well formed. |
| JsonEquality.MakeStringEqual | src/jsoncons/json.hpp:512-527 | Strings built by the constructor are equal iff their characters are. |
| JsonEquality.DifferentTagsUnequal | src/jsoncons/json.hpp:852-855 | Unless both are numbers, values with different tags are unequal. |
| JsonEquality.PlaceholderUnequalToEmptyObject | src/jsoncons/json.hpp:852-855 | The placeholder and a real empty object both have size 0, yet compare unequal. |
| JsonEquality.IntegerUIntegerEqualModulo | src/jsoncons/json.hpp:813-825 | A signed and an unsigned integer are equal iff they are congruent modulo 2^64, in either order. |
| JsonEquality.NonNegativeIntegerEqualsSameUInteger | src/jsoncons/json.hpp:813-825 | A non-negative signed integer equals an unsigned one iff the numbers are the same. |
| JsonEquality.NegativeOneEqualsUInt64Max | src/jsoncons/json.hpp:813-825 | -1 equals 18446744073709551615. |
| JsonEvents.Handler.Emit | src/jsoncons/json.hpp:1840-1898 | A handler call appends exactly one event. |
| JsonEvents.Events | src/jsoncons/json.hpp:1840-1898 | The events `to_stream` delivers for a value. A scalar or string is one value event; the placeholder is begin and end object. An object is begin object, then name and value events per member, then end object; an array is begin array, each element's events, then end array. An `any` is a null event. |
| JsonEvents.MembersEvents | src/jsoncons/json.hpp:1873-1877 | The events of the first n members: for each, a name event followed by its value's events. |
| JsonEvents.ElementsEvents | src/jsoncons/json.hpp:1885-1888 | The events of the first n elements, in order. |
| JsonEvents.ToStream | src/jsoncons/json.hpp:1840-1898 | `to_stream` delivers exactly the events `Events(v)` to the handler, after those it already had. |
| JsonEvents.MembersToStream | src/jsoncons/json.hpp:1873-1877 | The member loop delivers a name event, then the value's events, for each member in order. |
| JsonEvents.ElementsToStream | src/jsoncons/json.hpp:1885-1888 | The element loop delivers each element's events in order. |
| JsonEvents.ScalarIsOneValueEvent | src/jsoncons/json.hpp:1844-1864 | A scalar or string produces exactly one value event. |
| JsonEvents.ContainerBrackets | src/jsoncons/json.hpp:1865-1890 | Objects are bracketed by begin/end-object events, and arrays by begin/end-array events. |
| JsonEvents.PlaceholderInvisibleInEvents | src/jsoncons/json.hpp:1865-1868 | The placeholder streams like an empty object, although the two compare unequal. |
| JsonEvents.EventsBalanced | src/jsoncons/json.hpp:1840-1898 | Every value's events are balanced: every begin has its end, and no prefix closes more than it opened. |
| JsonProxy.ResolveStrict | src/jsoncons/json.hpp:969-977 | Reading through a proxy path follows `at` at each step. An empty path is the value itself, and a first step that fails gives that step's error. |
| JsonProxy.ChildOrFresh | src/jsoncons/json.hpp:979-988 | `evaluate_with_default` yields the member when present, otherwise a new empty object. |
| JsonProxy.EnsurePath | src/jsoncons/json.hpp:979-988 | `evaluate_with_default()` down a path: every missing name is inserted with an empty object, and a non-object on the way fails with not-an-object. `EnsurePathMakesPathResolve`, `EnsureExistingPathUnchanged` and `EnsurePathPreservesWellFormed` state its properties. |
| JsonProxy.AssignPath | src/jsoncons/json.hpp:1211-1227 | `proxy = x`: `evaluate_with_default()` of the parent path, then `set(last name, x)`. `AssignThenResolve`, `AssignFailsIffBlocked`, `AssignKeepsOtherTopNames` and `AssignPathPreservesWellFormed` state its properties. |
| JsonProxy.ProxyIndex | src/jsoncons/json.hpp:1239-1242 | Indexing through a proxy first creates the missing path. Its errors are the path's errors, and the new root is the one with the path created. |
| JsonProxy.RootIndex | src/jsoncons/json.hpp:1800-1813 | The root's `operator[](name)` succeeds iff the value is an object, making the placeholder a real empty object. Otherwise it fails with not-an-object. |
| JsonProxy.ReadThroughDensifiedRoot | src/jsoncons/json.hpp:1800-1813 | Making the root dense before reading does not change what a path reads. |
| JsonProxy.AssignThroughDensifiedRoot | src/jsoncons/json.hpp:1800-1813 | Making the root dense before assigning does not change the assignment's result. |
| JsonProxy.ReadOfMissingPathFails | src/jsoncons/json.hpp:969-977 | Reading `j["x"]["y"]` where a step is missing fails with key-not-found for that step. |
| JsonProxy.AssignThenResolve | src/jsoncons/json.hpp:1211-1227 | After a successful proxy assignment, reading the same path returns the assigned value. |
| JsonProxy.AssignFailsIffBlocked | src/jsoncons/json.hpp:979-988 | A proxy assignment fails iff some existing step on the path is not an object, and then fails with not-an-object. |
| JsonProxy.BlockedShift | src/jsoncons/json.hpp:979-988 | A step blocked below an existing first member is a blocked step of the whole path, one deeper. |
| JsonProxy.NothingBlockedUnderMissing | src/jsoncons/json.hpp:979-988 | Under a missing first member nothing on the path is blocked. |
| JsonProxy.FreshIsNeverBlocked | src/jsoncons/json.hpp:979-988 | Assigning any path into a new empty object always succeeds. |
| JsonProxy.AssignKeepsOtherTopNames | src/jsoncons/json.hpp:1211-1227 | A proxy assignment leaves every other top-level name unchanged. |
| JsonProxy.NestedAssignOnEmptyRoot | src/jsoncons/json.hpp:1211-1227 | `j["a"]["b"] = x` on a default `json` builds `{"a": {"b": x}}`. |
| JsonProxy.EnsurePathMakesPathResolve | src/jsoncons/json.hpp:979-988 | After the path is created, reading it succeeds. |
| JsonProxy.EnsureExistingPathUnchanged | src/jsoncons/json.hpp:979-988 | When the path already resolves, creating it changes nothing. |
| JsonProxy.IndexThroughMissingNameKeepsInsertion | src/jsoncons/json.hpp:1239-1242 | `j["a"][0]` on a default `json` inserts `"a": {}` and then fails with not-an-array; the insertion stays. |
| JsonProxy.ChildOrFreshWellFormed | src/jsoncons/json.hpp:979-988 | The member `evaluate_with_default` descends into is well formed when its object is. |
| JsonProxy.EnsurePathPreservesWellFormed | src/jsoncons/json.hpp:979-988 | Creating a path keeps a well-formed root well formed. |
| JsonProxy.AssignPathPreservesWellFormed | src/jsoncons/json.hpp:1211-1227 | Assigning a well-formed value through a proxy keeps a well-formed root well formed. |
| JsonProxy.ProxyIndexPreservesWellFormed | src/jsoncons/json.hpp:1239-1242 | Indexing through a proxy keeps a well-formed root well formed. |
| JsonDocument.Json.constructor | src/jsoncons/json.hpp:1665-1668 | A default `json` is the placeholder: an object of size 0 that is empty. |
| JsonDocument.Json.WithAllocator | src/jsoncons/json.hpp:1670-1673 | With an allocator, the default is a real empty object. |
| JsonDocument.Json.Copy | src/jsoncons/json.hpp:1675-1678 | A copy holds the same value and is well formed. |
| JsonDocument.Json.FromString | src/jsoncons/json.hpp:1735-1738 | Construction from characters holds the string value `MakeString` builds. |
| JsonDocument.Json.Moved | src/jsoncons/json.hpp:1685-1688 | The move constructor takes the value and leaves null behind; both objects are well formed. |
| JsonDocument.Json.Swap | src/jsoncons/json.hpp:921-934 | The two values are exchanged, and both stay well formed (`Valid()`). |
| JsonDocument.Json.CopyAssign | src/jsoncons/json.hpp:1749-1753 | The target takes the source's value and stays well formed; the source is unchanged. |
| JsonDocument.Json.MoveAssign | src/jsoncons/json.hpp:1755-1762 | The move assignment swaps: the source receives the target's old value, and both stay well formed. |
| JsonDocument.Json.AssignString | src/jsoncons/json.hpp:720-754 | Assigning characters stores the string value `MakeString` builds. |
| JsonDocument.Json.AssignInteger | src/jsoncons/json.hpp:756-761 | The value becomes that signed integer. |
| JsonDocument.Json.AssignUInteger | src/jsoncons/json.hpp:763-768 | The value becomes that unsigned integer. |
| JsonDocument.Json.AssignDouble | src/jsoncons/json.hpp:770-775 | The value becomes that double. |
| JsonDocument.Json.AssignBool | src/jsoncons/json.hpp:777-782 | The value becomes that boolean. |
| JsonDocument.Json.AssignNull | src/jsoncons/json.hpp:784-788 | The value becomes null. |
| JsonDocument.Json.AssignObject | src/jsoncons/json.hpp:676-681 | The value becomes that object; it is well formed iff every member value is. |
| JsonDocument.Json.AssignArray | src/jsoncons/json.hpp:698-703 | The value becomes that array; it is well formed iff every element is. |
| JsonDocument.Json.AssignAny | src/jsoncons/json.hpp:790-795 | The value becomes that `any` payload. |
| JsonDocument.Json.CreateObjectImplicitly | src/jsoncons/json.hpp:2021-2025 | The placeholder becomes a real empty object, which is well formed. |
| JsonDocument.Json.Set | src/jsoncons/json.hpp:2485-2499 | In place: fails with not-an-object, leaving the value unchanged, iff the value is not an object; otherwise becomes `JsonAccess.Set`'s result. Storing a well-formed value keeps the document well formed. |
| JsonDocument.Json.Add | src/jsoncons/json.hpp:2603-2615 | In place: fails with not-an-array, unchanged, iff the value is not an array; otherwise becomes `JsonAccess.Add`'s result. Storing a well-formed value keeps the document well formed. |
| JsonDocument.Json.Insert | src/jsoncons/json.hpp:2629-2641 | In place: fails with not-an-array, unchanged, iff the value is not an array; otherwise becomes `JsonAccess.Insert`'s result. Storing a well-formed value keeps the document well formed. |
| JsonDocument.Json.Erase | src/jsoncons/json.hpp:2470-2483 | In place: fails with not-an-object, unchanged, iff the value is not an object; otherwise becomes `JsonAccess.Erase`'s result. The document stays well formed. |
| JsonDocument.Json.Reserve | src/jsoncons/json.hpp:2035-2055 | In place: the placeholder becomes a real object; other values keep their content. The document stays well formed. |
| JsonDocument.Json.ObjectValue | src/jsoncons/json.hpp:3133-3145 | Returns the members or the bad-object-cast error; the placeholder is made dense, and the document stays well formed. |
| JsonDocument.Json.Index | src/jsoncons/json.hpp:1800-1813 | The root's `operator[](name)` fails with not-an-object iff the value is not an object; otherwise it densifies the placeholder. The document stays well formed. |
| JsonDocument.Json.ProxyAssign | src/jsoncons/json.hpp:1211-1227 | `j[p0]...[pk] = x` succeeds iff `AssignPath` does, and then the value is its result. Otherwise it fails with not-an-object and the value is unchanged. Assigning a well-formed value keeps the document well formed. |
| JsonDocument.Json.ProxyRead | src/jsoncons/json.hpp:969-977 | Reading through a proxy returns `ResolveStrict` of the old value; the root placeholder is made dense, and the document stays well formed. |
| JsonDocument.Json.ProxyIndexAt | src/jsoncons/json.hpp:1239-1242 | `j[p0]...[pk][i]` on an object gives `ProxyIndex` of the densified root, new value and result. On a non-object it fails with not-an-object, unchanged. The document stays well formed. |
| JsonDocument.Json.Count | src/jsoncons/json.hpp:1923-1946 | The loop returns `CountSpec`: the run of matches from the first match, or 0. |
| JsonDocument.Make2dArray | src/jsoncons/json.hpp:3253-3276 | An m by n array whose every cell is the fill value, well formed when the fill is. |
| SourceCursor.PositionAsWrittenNarrowChars | include/jsoncons/source.hpp:325-328 | For one-byte characters, `position()` as written is the 1-based offset. |
| SourceCursor.PositionAsWrittenWideChars | include/jsoncons/source.hpp:325-328 | For four-byte characters after four units, `position()` as written reports 2 instead of 5. |
| SourceCursor.PositionAsWrittenLags | include/jsoncons/source.hpp:325-328 | For units wider than a byte, `position()` as written lags the true position once a full unit width has been read. |
| SourceCursor.Position | include/jsoncons/source.hpp:511-514 | The intended `position()`: the 1-based element offset of the cursor, as `bytes_source` computes it. |
| SourceCursor.PositionAsWritten | include/jsoncons/source.hpp:325-328 | `string_source::position()` as written: the element offset divided by the unit width in bytes, plus one. |
| SourceCursor.StringSource.Empty | include/jsoncons/source.hpp:282-285 | A default `string_source` views nothing and is at end of input. |
| SourceCursor.StringSource.constructor | include/jsoncons/source.hpp:287-292 | A `string_source` over a string has exactly its characters remaining, with the cursor at the start. |
| SourceCursor.StringSource.FromCString | include/jsoncons/source.hpp:294-297 | A `string_source` over a NUL-terminated buffer has the characters before the first NUL remaining. |
| SourceCursor.StringSource.Moved | include/jsoncons/source.hpp:299-305 | The move constructor takes the view and cursor and leaves the source empty. |
| SourceCursor.StringSource.MoveAssign | include/jsoncons/source.hpp:307-313 | Move assignment exchanges views and cursors. |
| SourceCursor.StringSource.Eof | include/jsoncons/source.hpp:315-318 | `eof()` holds iff no units remain. |
| SourceCursor.StringSource.PositionReportedAsWritten | include/jsoncons/source.hpp:325-328 | `position()` as written, for this source's unit width. |
| SourceCursor.StringSource.CurrentPosition | include/jsoncons/source.hpp:325-328 | `position()` corrected: the 1-based offset of the cursor. |
| SourceCursor.StringSource.Peek | include/jsoncons/source.hpp:344-347 | Returns the unit at the cursor, or `{0, eof}` iff nothing remains. |
| SourceCursor.StringSource.Ignore | include/jsoncons/source.hpp:330-342 | Skips `min(count, remaining)` units. |
| SourceCursor.StringSource.Read | include/jsoncons/source.hpp:349-363 | Copies `min(length, remaining)` units into the buffer's prefix and leaves the rest untouched. The cursor and the corrected position advance by that count. |
| SourceCursor.BytesSource.Empty | include/jsoncons/source.hpp:483-486 | A default `bytes_source` views nothing and is at end of input. |
| SourceCursor.BytesSource.constructor | include/jsoncons/source.hpp:488-495 | A `bytes_source` over bytes has exactly them remaining. |
| SourceCursor.BytesSource.MoveAssign | include/jsoncons/source.hpp:497-499 | The defaulted move assignment takes the other's view and cursor. |
| SourceCursor.BytesSource.Eof | include/jsoncons/source.hpp:501-504 | `eof()` holds iff no bytes remain. |
| SourceCursor.BytesSource.CurrentPosition | include/jsoncons/source.hpp:511-514 | `position()`: the 1-based offset of the cursor. |
| SourceCursor.BytesSource.Peek | include/jsoncons/source.hpp:530-533 | Returns the byte at the cursor, or `{0, eof}` iff nothing remains. |
| SourceCursor.BytesSource.Ignore | include/jsoncons/source.hpp:516-528 | Skips `min(count, remaining)` bytes. |
| SourceCursor.BytesSource.Read | include/jsoncons/source.hpp:535-549 | Copies `min(length, remaining)` bytes and advances the cursor and position by that count. |
| SourceCursor.ReadChunk | include/jsoncons/source.hpp:349-363 | A read returns the next `min(n, remaining)` characters and consumes exactly those. |
| SourceCursor.ReadTwiceIsReadOnce | include/jsoncons/source.hpp:349-363 | Reading a then b units delivers the same characters as one read of a + b units. |
| SourceIterator.ToByte | include/jsoncons/source.hpp:599-616 | The `static_cast<uint8_t>` of an element: its value modulo 256, and the value itself when it is already a byte. |
| SourceIterator.Bytes | include/jsoncons/source.hpp:599-616 | Converts a range element by element with `ToByte`. |
| SourceIterator.IteratorSource.constructor | include/jsoncons/source.hpp:379-382 | The source has the whole range remaining, at position 0. |
| SourceIterator.IteratorSource.Eof | include/jsoncons/source.hpp:384-387 | `eof()` holds iff the range is exhausted. |
| SourceIterator.IteratorSource.Peek | include/jsoncons/source.hpp:408-411 | Returns the element at the cursor, or `{0, eof}` iff the range is exhausted. |
| SourceIterator.IteratorSource.Ignore | include/jsoncons/source.hpp:399-406 | Skips `min(count, remaining)` elements and advances the position by as many. |
| SourceIterator.IteratorSource.Read | include/jsoncons/source.hpp:413-447 | On a random-access range, copies `min(length, remaining)` elements and advances the position by that count. |
| SourceIterator.BinaryIteratorSource.constructor | include/jsoncons/source.hpp:565-568 | The source has the whole range remaining, at position 0. |
| SourceIterator.BinaryIteratorSource.Eof | include/jsoncons/source.hpp:570-573 | `eof()` holds iff the range is exhausted. |
| SourceIterator.BinaryIteratorSource.Peek | include/jsoncons/source.hpp:594-597 | Returns the byte conversion of the element at the cursor, or `{0, eof}` at the end. |
| SourceIterator.BinaryIteratorSource.Ignore | include/jsoncons/source.hpp:585-592 | Skips `min(count, remaining)` elements. |
| SourceIterator.BinaryIteratorSource.Read | include/jsoncons/source.hpp:599-616 | On a random-access range, stores the byte conversions of the next `min(length, remaining)` elements. |
| SourceIterator.NegativeElementWraps | include/jsoncons/source.hpp:599-616 | The element -1 is read as 255 and 256 as 0; 200 is read unchanged. |
| SourceIterator.ReadWholeRange | include/jsoncons/source.hpp:599-616 | Reading a whole range yields each element modulo 256. |
| SourceStream.StreamSource.Default | include/jsoncons/source.hpp:83-87 | A default `stream_source` reads from its own null stream, has no buffer, and is at end of input. |
| SourceStream.StreamSource.constructor | include/jsoncons/source.hpp:89-93 | A `stream_source` over a stream pends exactly the stream's content, with an empty buffer of the given size. |
| SourceStream.StreamSource.Swap | include/jsoncons/source.hpp:112-121 | Every field is exchanged; swapping a source with itself changes nothing. |
| SourceStream.StreamSource.Moved | include/jsoncons/source.hpp:95-100 | The move constructor takes every field, leaving the other at end of input on its null stream. |
| SourceStream.StreamSource.Eof | include/jsoncons/source.hpp:123-126 | `eof()`: the source's own end flag. It is set only when a refill finds the stream at eof, as the `Peek`, `FillBuffer`, `Ignore` and `Read` contracts state. |
| SourceStream.StreamSource.IsError | include/jsoncons/source.hpp:128-131 | `is_error()`: the stream's badbit, which a throwing `sgetn` sets (`FillBuffer`, `ReadDirect`). |
| SourceStream.StreamSource.FillBuffer | include/jsoncons/source.hpp:237-262 | Refills the buffer without losing or reordering pending input. At eof it marks end of input. A short fill means the stream hit eof; a throw sets badbit. On an honest stream it buffers `min(size, pending)`. |
| SourceStream.StreamSource.Peek | include/jsoncons/source.hpp:163-178 | Returns the first pending unit and consumes nothing; at the end it returns `{0, eof}` with an empty buffer. On an honest stream with a buffer, eof is reported iff nothing is pending. |
| SourceStream.StreamSource.IgnoreUnits | include/jsoncons/source.hpp:138-161 | Skips a prefix of the pending input no longer than asked. It stops short only at stream eof, or with no buffer. On an honest stream it skips `min(length, pending)`. End of input is set only if it was already set or a refill found the stream at eof. |
| SourceStream.StreamSource.Ignore | include/jsoncons/source.hpp:138-161 | Same as `IgnoreUnits`, stated on the position, including when end of input may be set. |
| SourceStream.StreamSource.ReadDirect | include/jsoncons/source.hpp:209-234 | Reads straight from the stream. A short read sets eofbit; a throw sets badbit and delivers nothing. |
| SourceStream.StreamSource.ReadViaBuffer | include/jsoncons/source.hpp:195-208 | A small read refills the buffer and copies from it. |
| SourceStream.StreamSource.ReadRest | include/jsoncons/source.hpp:191-234 | After the buffer is drained, the rest is read through the buffer or directly. The direct path at stream eof gives up. |
| SourceStream.StreamSource.DrainThenRead | include/jsoncons/source.hpp:180-235 | A read larger than the buffered units copies them first, then the rest. |
| SourceStream.StreamSource.ReadUnits | include/jsoncons/source.hpp:180-235 | Every path of `read`: a prefix of the pending input, in order, no longer than asked. A short read means stream eof with an empty buffer. |
| SourceStream.StreamSource.Read | include/jsoncons/source.hpp:180-235 | `read`, corrected to return the count it copied. The count is at most the length and the pending input. The units are the pending prefix, and the position and pending input advance by it. On an honest stream it is `min(length, pending)`. |
| SourceStream.StreamSource.ReadAsWritten | include/jsoncons/source.hpp:180-235 | `read` as written returns the count copied, or 0 after draining the buffer on the direct path at eof. After a peek at eof with a long read, that is the 0 case. |
| SourceStream.ReadAfterPeekLosesUnits | include/jsoncons/source.hpp:209-216 | Over "ab" with a 4-unit buffer, `peek()` then `read(p, 6)` copies "ab" but returns 0, where the corrected read returns 2. |
| SourceReader.ReadChunked | include/jsoncons/source.hpp:641-662 | `source_reader::read` into a contiguous container, corrected. It appends exactly the next r pending units, with r at most the length. Stopping short means the source is at eof; on an honest stream r is `min(length, pending)`. |
| SourceReader.ReadChunkedAsWritten | include/jsoncons/source.hpp:641-662 | As written: the container grows by whole chunks, so after the r units read it may carry zero fill. |
| SourceReader.ReadChunkedGrowsPastData | include/jsoncons/source.hpp:655-657 | Over "ab" after a peek, asking for 10 returns 2 but leaves 10 units in the container, 8 of them zero. The corrected read leaves exactly "ab". |
| SourceReader.PushBackUnits | include/jsoncons/source.hpp:678-688 | The inner loop appends one unit per successful one-unit read, stopping at the first failure. On an honest stream a stop means the input is exhausted. |
| SourceReader.ReadByUnit | include/jsoncons/source.hpp:664-694 | `source_reader::read` into a push-back container appends exactly the next r pending units. Stopping short means eof; on an honest stream r is `min(length, pending)`. |

## Left out

- Parsing, serialization to text, `json_type_traits` (`as<T>`, `is<T>`), iterators and ranges over members: these are not part of this model.
- Allocators, `create_instance`, `destroy_variant` and byte layout: the model holds values, not storage. The small-string capacity is still computed from the character width (7 for one-byte characters).
- Double arithmetic: a double is its IEEE bit pattern. NaN and signed zero are decided on the bits. Comparing a double with an integer is left undecided (`None`), because it needs floating-point conversion.
- JsonValue.AsInteger: requires the value not be a double, because `as_integer` on a double is a floating-point truncation. JsonValue.AsUInteger has the same requirement for the same reason.
- JsonEquality.EqualReflexive: stated only for values without NaN or `any`, because both of those are unequal to themselves in the source.
- Signed/unsigned equality follows the code's conversion modulo 2^64 (`-1 == 18446744073709551615`), not a comparison of the mathematical numbers.
- The member storage (`json_object`): `set` is modelled as replacing the first member with the name or appending a new one. Ordering and hashing policies of the object container are not modelled.
- `evaluate_with_default` inserts a missing member with a position hint (`set(members().begin(), ...)`). The model uses the ordinary `set`, so the position of a newly created intermediate member within its object is not captured.
- `reserve` capacities, `shrink_to_fit`, `resize`, `clear` and other capacity-only operations: they change no observable content.
- The serialization of a registered `any` type: `to_stream` of an `any` is modelled as the default `serialize`, which emits null.
- Deprecated aliases and convenience overloads that only forward to a modelled member.
- `is_error()` of the cursor and iterator sources is the constant false and has no member.
- Non-random-access iterator reads (`source.hpp` lines 449-463 and 618-632): only the random-access path is modelled.
- The standard stream: `InputStream` is a scripted stand-in. It models `sgetn`'s count, eofbit, badbit and a throw, where a throw consumes nothing. Real `std::istream` buffering and locale are not modelled.
- `memcpy` is modelled as a copy of units, not bytes.
- `source_reader` is modelled only over `stream_source`, the source whose reads can stop short. Over the cursor sources every read returns `min(length, remaining)`.

## Findings

| source | as written | input that shows it | evidently intended | confidence | as-written member | corrected member |
|---|---|---|---|---|---|---|
| include/jsoncons/source.hpp:325-328 | `string_source::position()` divides the element distance `current_ - data_` by `sizeof(value_type)`, although pointer subtraction already counts elements | a `string_source` of 4-byte characters after reading 4 units reports position 2 | `current_ - data_ + 1` (5), as `bytes_source::position()` does | high; not executed | SourceCursor.PositionAsWrittenWideChars | SourceCursor.StringSource.Read |
| include/jsoncons/source.hpp:211-216 | `stream_source::read` copies the buffered units and advances the position, then on the direct path finds the stream at eof and returns 0 | stream "ab", 4-unit buffer: `peek()` then `read(p, 6)` copies "ab" and returns 0 | return the number of units copied (2) | high; not executed | SourceStream.ReadAfterPeekLosesUnits | SourceStream.StreamSource.Read |
| include/jsoncons/source.hpp:655-657 | `source_reader::read` resizes the container by a whole chunk before reading and never shrinks it when fewer units arrive | stream "ab" after `peek()`, `read(source, v, 10)` over the corrected `stream_source::read`: returns 2, `v` holds 10 units | grow the container by the units actually read | medium; not executed | SourceReader.ReadChunkedGrowsPastData | SourceReader.ReadChunked |
