/**
 * The cursor sources: `string_source` over a contiguous run of characters and
 * `bytes_source` over a contiguous run of bytes. Each is the viewed buffer
 * (`data_` up to `end_`) and a cursor `current_`, held here as an offset into
 * the buffer; reads copy from the cursor and advance it.
 */
module SourceCursor {
  import opened Wrappers
  import opened JsonValue

  newtype byte = x: int | 0 <= x < 256

  /** `character_result`: the unit at the cursor, or `{0, true}` at the end. */
  datatype CharResult<T> = CharResult(value: T, eof: bool)

  /** The 1-based position of the unit at element offset `offset` from the start. */
  function Position(offset: nat): nat
  {
    offset + 1
  }

  /**
   * `string_source::position()` as written: the element distance is divided by
   * `sizeof(value_type)`, although pointer subtraction already counts elements.
   */
  function PositionAsWritten(offset: nat, unitBytes: nat): nat
    requires unitBytes >= 1
  {
    offset / unitBytes + 1
  }

  /** For one-byte characters the division is harmless. */
  lemma PositionAsWrittenNarrowChars(offset: nat)
    ensures PositionAsWritten(offset, 1) == Position(offset)
  {
  }

  /** For four-byte characters, after four units the reported position is 2 rather than 5. */
  lemma PositionAsWrittenWideChars()
    ensures PositionAsWritten(4, 4) == 2 && Position(4) == 5
  {
  }

  /** For units wider than a byte, the as-written position lags behind once a full unit width has been read. */
  lemma PositionAsWrittenLags(offset: nat, unitBytes: nat)
    requires unitBytes >= 2 && offset >= unitBytes
    ensures PositionAsWritten(offset, unitBytes) < Position(offset)
  {
    var q := offset / unitBytes;
    assert q * unitBytes <= offset;
    assert q * 2 <= q * unitBytes;
    assert q >= 1;
  }

  class StringSource {
    var data: seq<char>
    var current: nat
    /** sizeof(value_type) of the character type. */
    const unitBytes: nat

    predicate Valid()
      reads this
    {
      current <= |data| && unitBytes >= 1
    }

    /** The units not yet consumed. */
    function Remaining(): seq<char>
      reads this
      requires Valid()
    {
      data[current..]
    }

    /** `string_source()`: null pointers, so already at the end. */
    constructor Empty(unitBytes: nat)
      requires unitBytes >= 1
      ensures Valid() && this.unitBytes == unitBytes && data == [] && current == 0
      ensures Eof()
    {
      this.unitBytes := unitBytes;
      data := [];
      current := 0;
    }

    /** `string_source(const Sourceable&)`: a view of the whole sequence. */
    constructor (s: seq<char>, unitBytes: nat)
      requires unitBytes >= 1
      ensures Valid() && this.unitBytes == unitBytes && Remaining() == s && current == 0
    {
      this.unitBytes := unitBytes;
      data := s;
      current := 0;
    }

    /** `string_source(const value_type*)`: the view ends at the first NUL. */
    constructor FromCString(buf: seq<char>, unitBytes: nat)
      requires unitBytes >= 1
      ensures Valid() && this.unitBytes == unitBytes && current == 0
      ensures Remaining() == TakeUntilNul(buf)
    {
      this.unitBytes := unitBytes;
      data := TakeUntilNul(buf);
      current := 0;
    }

    /** The move constructor: takes over the view; `other` is left with null pointers. */
    constructor Moved(other: StringSource)
      requires other.Valid()
      modifies other
      ensures Valid() && unitBytes == other.unitBytes
      ensures data == old(other.data) && current == old(other.current)
      ensures other.data == [] && other.current == 0 && other.Valid()
    {
      unitBytes := other.unitBytes;
      data := other.data;
      current := other.current;
      new;
      other.data := [];
      other.current := 0;
    }

    /** Move assignment swaps the two views. */
    method MoveAssign(other: StringSource)
      requires Valid() && other.Valid() && other.unitBytes == unitBytes
      modifies this, other
      ensures Valid() && other.Valid()
      ensures data == old(other.data) && current == old(other.current)
      ensures other.data == old(data) && other.current == old(current)
    {
      var d, c := data, current;
      data, current := other.data, other.current;
      other.data, other.current := d, c;
    }

    /** `eof()`. */
    function Eof(): (r: bool)
      reads this
      ensures Valid() ==> (r <==> Remaining() == [])
    {
      current == |data|
    }

    /** `position()` as written (see `PositionAsWritten`). */
    function PositionReportedAsWritten(): nat
      reads this
      requires Valid()
    {
      PositionAsWritten(current, unitBytes)
    }

    /** `position()`, corrected: the 1-based offset of the cursor. */
    function CurrentPosition(): nat
      reads this
    {
      Position(current)
    }

    /** `peek()`: the unit at the cursor, consuming nothing. */
    function Peek(): (r: CharResult<char>)
      reads this
      requires Valid()
      ensures r.eof <==> Eof()
      ensures r.eof <==> Remaining() == []
      ensures !r.eof ==> r.value == Remaining()[0]
      ensures r.eof ==> r.value == 0 as char
    {
      if current < |data| then CharResult(data[current], false) else CharResult(0 as char, true)
    }

    /** `ignore(count)`: advance by `count`, but never past the end. */
    method Ignore(count: nat)
      requires Valid()
      modifies this
      ensures Valid() && data == old(data)
      ensures current == old(current) + Min(count, |data| - old(current))
      ensures Remaining() == old(Remaining())[Min(count, |old(Remaining())|)..]
    {
      var len: nat;
      if |data| - current < count {
        len := |data| - current;
      } else {
        len := count;
      }
      current := current + len;
    }

    /** `read(p, length)`: copy `min(length, end_ - current_)` units to `p` and advance. */
    method Read(p: array<char>, length: nat) returns (len: nat)
      requires Valid() && length <= p.Length
      modifies this, p
      ensures Valid() && data == old(data)
      ensures len == Min(length, |old(Remaining())|)
      ensures p[..len] == old(Remaining())[..len]
      ensures p[len..] == old(p[len..])
      ensures Remaining() == old(Remaining())[len..]
      ensures CurrentPosition() == old(CurrentPosition()) + len
    {
      if |data| - current < length {
        len := |data| - current;
      } else {
        len := length;
      }
      forall k | 0 <= k < len {
        p[k] := data[current + k];
      }
      current := current + len;
    }
  }

  class BytesSource {
    var data: seq<byte>
    var current: nat

    predicate Valid()
      reads this
    {
      current <= |data|
    }

    function Remaining(): seq<byte>
      reads this
      requires Valid()
    {
      data[current..]
    }

    /** `bytes_source()`: null pointers, so already at the end. */
    constructor Empty()
      ensures Valid() && data == [] && current == 0 && Eof()
    {
      data := [];
      current := 0;
    }

    /** `bytes_source(const Sourceable&)`: a view of the whole byte sequence. */
    constructor (s: seq<byte>)
      ensures Valid() && Remaining() == s && current == 0
    {
      data := s;
      current := 0;
    }

    /** The defaulted move assignment copies the pointers, so both sources end up viewing the same bytes. */
    method MoveAssign(other: BytesSource)
      requires other.Valid()
      modifies this
      ensures Valid() && data == other.data && current == other.current
    {
      data, current := other.data, other.current;
    }

    function Eof(): (r: bool)
      reads this
      ensures Valid() ==> (r <==> Remaining() == [])
    {
      current == |data|
    }

    /** `position()`: the 1-based offset of the cursor. */
    function CurrentPosition(): nat
      reads this
    {
      Position(current)
    }

    function Peek(): (r: CharResult<byte>)
      reads this
      requires Valid()
      ensures r.eof <==> Eof()
      ensures r.eof <==> Remaining() == []
      ensures !r.eof ==> r.value == Remaining()[0]
      ensures r.eof ==> r.value == 0
    {
      if current < |data| then CharResult(data[current], false) else CharResult(0, true)
    }

    method Ignore(count: nat)
      requires Valid()
      modifies this
      ensures Valid() && data == old(data)
      ensures current == old(current) + Min(count, |data| - old(current))
      ensures Remaining() == old(Remaining())[Min(count, |old(Remaining())|)..]
    {
      var len: nat;
      if |data| - current < count {
        len := |data| - current;
      } else {
        len := count;
      }
      current := current + len;
    }

    method Read(p: array<byte>, length: nat) returns (len: nat)
      requires Valid() && length <= p.Length
      modifies this, p
      ensures Valid() && data == old(data)
      ensures len == Min(length, |old(Remaining())|)
      ensures p[..len] == old(Remaining())[..len]
      ensures p[len..] == old(p[len..])
      ensures Remaining() == old(Remaining())[len..]
      ensures CurrentPosition() == old(CurrentPosition()) + len
    {
      if |data| - current < length {
        len := |data| - current;
      } else {
        len := length;
      }
      forall k | 0 <= k < len {
        p[k] := data[current + k];
      }
      current := current + len;
    }
  }

  /** One `read` of up to `n` units from `src`, returned as a sequence. */
  method ReadChunk(src: StringSource, n: nat) returns (chunk: seq<char>)
    requires src.Valid()
    modifies src
    ensures src.Valid() && src.data == old(src.data)
    ensures chunk == old(src.Remaining())[..Min(n, |old(src.Remaining())|)]
    ensures src.Remaining() == old(src.Remaining())[|chunk|..]
  {
    var p := new char[n];
    var len := src.Read(p, n);
    chunk := p[..len];
  }

  /** Reading a source in two chunks yields the same units, in order, as one read of the total. */
  method ReadTwiceIsReadOnce(s: seq<char>, a: nat, b: nat) returns (first: seq<char>, second: seq<char>, whole: seq<char>)
    ensures first + second == whole
    ensures whole == s[..Min(a + b, |s|)]
  {
    var one := new StringSource(s, 1);
    first := ReadChunk(one, a);
    second := ReadChunk(one, b);
    var all := new StringSource(s, 1);
    whole := ReadChunk(all, a + b);
    assert s[|first|..][..|second|] == s[|first|..|first| + |second|];
    assert s[..|first|] + s[|first|..|first| + |second|] == s[..|first| + |second|];
  }
}
