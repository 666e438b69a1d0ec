/**
 * The iterator sources: `iterator_source` and `binary_iterator_source` read
 * from a range `[first, last)` one element at a time, counting every element
 * they pass in `position_` (which starts at 0). The range is the sequence
 * `elements`; the iterator `current_` is an offset into it.
 */
module SourceIterator {
  import opened Wrappers
  import opened SourceCursor

  /** `static_cast<uint8_t>`: conversion to an unsigned 8-bit type keeps the value modulo 256. */
  function ToByte(x: int): (b: byte)
    ensures b as int == x % 256
    ensures 0 <= x < 256 ==> b as int == x
  {
    (x % 256) as byte
  }

  /** The bytes a binary iterator source yields for a range of elements. */
  function Bytes(xs: seq<int>): (bs: seq<byte>)
    ensures |bs| == |xs|
    ensures forall k :: 0 <= k < |xs| ==> bs[k] == ToByte(xs[k])
  {
    seq(|xs|, k requires 0 <= k < |xs| => ToByte(xs[k]))
  }

  class IteratorSource {
    var elements: seq<char>
    var current: nat
    var position: nat

    predicate Valid()
      reads this
    {
      current <= |elements|
    }

    function Remaining(): seq<char>
      reads this
      requires Valid()
    {
      elements[current..]
    }

    /** `iterator_source(first, last)`. */
    constructor (range: seq<char>)
      ensures Valid() && Remaining() == range && position == 0
    {
      elements := range;
      current := 0;
      position := 0;
    }

    function Eof(): (r: bool)
      reads this
      ensures Valid() ==> (r <==> Remaining() == [])
    {
      current == |elements|
    }

    function Peek(): (r: CharResult<char>)
      reads this
      requires Valid()
      ensures r.eof <==> Eof()
      ensures r.eof <==> Remaining() == []
      ensures !r.eof ==> r.value == Remaining()[0]
      ensures r.eof ==> r.value == 0 as char
    {
      if current < |elements| then CharResult(elements[current], false) else CharResult(0 as char, true)
    }

    /** `ignore(count)`: step past up to `count` elements, counting each in the position. */
    method Ignore(count: nat)
      requires Valid()
      modifies this
      ensures Valid() && elements == old(elements)
      ensures current == old(current) + Min(count, |elements| - old(current))
      ensures position == old(position) + Min(count, |old(Remaining())|)
      ensures Remaining() == old(Remaining())[Min(count, |old(Remaining())|)..]
    {
      var left: nat := count;
      while left > 0 && current != |elements|
        invariant old(current) <= current <= |elements| && elements == old(elements)
        invariant left <= count && current - old(current) == count - left
        invariant position == old(position) + (current - old(current))
        decreases left
      {
        position := position + 1;
        current := current + 1;
        left := left - 1;
      }
    }

    /** `read(data, length)`: copy element by element until `length` are copied or the range ends. */
    method Read(p: array<char>, length: nat) returns (n: nat)
      requires Valid() && length <= p.Length
      modifies this, p
      ensures Valid() && elements == old(elements)
      ensures n == Min(length, |old(Remaining())|)
      ensures p[..n] == old(Remaining())[..n]
      ensures p[n..] == old(p[n..])
      ensures Remaining() == old(Remaining())[n..]
      ensures position == old(position) + n
    {
      n := 0;
      while n < length && current != |elements|
        invariant old(current) <= current <= |elements| && elements == old(elements)
        invariant n <= length && current == old(current) + n
        invariant p[..n] == old(Remaining())[..n]
        invariant p[n..] == old(p[n..])
        invariant position == old(position)
        decreases length - n
      {
        p[n] := elements[current];
        n := n + 1;
        current := current + 1;
      }
      position := position + n;
    }
  }

  class BinaryIteratorSource {
    /** The range's elements, of the iterator's own value type. */
    var elements: seq<int>
    var current: nat
    var position: nat

    predicate Valid()
      reads this
    {
      current <= |elements|
    }

    function Remaining(): seq<int>
      reads this
      requires Valid()
    {
      elements[current..]
    }

    /** `binary_iterator_source(first, last)`. */
    constructor (range: seq<int>)
      ensures Valid() && Remaining() == range && position == 0
    {
      elements := range;
      current := 0;
      position := 0;
    }

    function Eof(): (r: bool)
      reads this
      ensures Valid() ==> (r <==> Remaining() == [])
    {
      current == |elements|
    }

    /** `peek()`: the element at the iterator, converted to a byte. */
    function Peek(): (r: CharResult<byte>)
      reads this
      requires Valid()
      ensures r.eof <==> Eof()
      ensures !r.eof ==> r.value == Bytes(Remaining())[0]
      ensures r.eof ==> r.value == 0
    {
      if current < |elements| then CharResult(ToByte(elements[current]), false) else CharResult(0, true)
    }

    method Ignore(count: nat)
      requires Valid()
      modifies this
      ensures Valid() && elements == old(elements)
      ensures current == old(current) + Min(count, |elements| - old(current))
      ensures position == old(position) + Min(count, |old(Remaining())|)
    {
      var left: nat := count;
      while left > 0 && current != |elements|
        invariant old(current) <= current <= |elements| && elements == old(elements)
        invariant left <= count && current - old(current) == count - left
        invariant position == old(position) + (current - old(current))
        decreases left
      {
        position := position + 1;
        current := current + 1;
        left := left - 1;
      }
    }

    /** `read(data, length)` for random-access iterators: each element is converted to a byte. */
    method Read(p: array<byte>, length: nat) returns (n: nat)
      requires Valid() && length <= p.Length
      modifies this, p
      ensures Valid() && elements == old(elements)
      ensures n == Min(length, |old(Remaining())|)
      ensures p[..n] == Bytes(old(Remaining()))[..n]
      ensures p[n..] == old(p[n..])
      ensures Remaining() == old(Remaining())[n..]
      ensures position == old(position) + n
    {
      n := 0;
      while n < length && current != |elements|
        invariant old(current) <= current <= |elements| && elements == old(elements)
        invariant n <= length && current == old(current) + n
        invariant p[..n] == Bytes(old(Remaining()))[..n]
        invariant p[n..] == old(p[n..])
        invariant position == old(position)
        decreases length - n
      {
        p[n] := ToByte(elements[current]);
        n := n + 1;
        current := current + 1;
      }
      position := position + n;
    }
  }

  /** Elements outside 0..255 wrap: a signed `-1` element is read as byte 255. */
  lemma NegativeElementWraps()
    ensures ToByte(-1) == 255 && ToByte(256) == 0 && ToByte(200) == 200
  {
  }

  /** Reading a binary range in full yields every element modulo 256, in order. */
  method ReadWholeRange(xs: seq<int>) returns (bs: seq<byte>)
    ensures bs == Bytes(xs)
    ensures forall k :: 0 <= k < |xs| ==> bs[k] as int == xs[k] % 256
  {
    var src := new BinaryIteratorSource(xs);
    var p := new byte[|xs|];
    var n := src.Read(p, |xs|);
    bs := p[..n];
  }
}
