/**
 * `stream_source`: a text source over a `std::basic_istream`. Units come out of
 * an internal buffer (`buffer_`, with the unread part starting at
 * `buffer_data_` and `buffer_length_` long); the buffer is refilled from the
 * stream buffer's `sgetn`, and a read at least as large as the buffer bypasses
 * it. `eof_` becomes true only when a refill or a direct read finds the
 * stream's eofbit already set.
 *
 * The stream is the environment: `InputStream` holds what it has still to
 * deliver, its state bits, and a script saying how each successive `sgetn`
 * call behaves (deliver at most so many units, or throw).
 */
module SourceStream {
  import opened Wrappers
  import opened SourceCursor

  const DefaultMaxBufferLength: nat := 16384

  /** How one `sgetn` call behaves: deliver at most `max` units, or throw. */
  datatype Reply = Deliver(max: nat) | Throw

  class InputStream {
    /** The units the stream has still to deliver. */
    var content: seq<char>
    /** The behaviour of the next `sgetn` calls; once it is empty, every call delivers as much as it can. */
    var replies: seq<Reply>
    var eofbit: bool
    var badbit: bool

    constructor (content: seq<char>, replies: seq<Reply>)
      ensures this.content == content && this.replies == replies && !eofbit && !badbit
    {
      this.content := content;
      this.replies := replies;
      eofbit := false;
      badbit := false;
    }

    /** `basic_null_istream`: delivers nothing. */
    constructor Null()
      ensures content == [] && replies == [] && !eofbit && !badbit
    {
      content := [];
      replies := [];
      eofbit := false;
      badbit := false;
    }

    /**
     * A stream with no scripted replies that holds nothing more once its eofbit
     * is set: every `sgetn` delivers as much as it can.
     */
    predicate Honest()
      reads this
    {
      replies == [] && (eofbit ==> content == [])
    }

    /** How many units the next `sgetn(_, n)` delivers, or `None` when it throws. */
    function NextCount(n: nat): (r: Option<nat>)
      reads this
      ensures r.Some? ==> r.value <= n && r.value <= |content|
      ensures replies == [] ==> r == Some(Min(n, |content|))
    {
      if replies == [] then Some(Min(n, |content|))
      else
        match replies[0]
        case Throw => None
        case Deliver(m) => Some(Min(Min(n, m), |content|))
    }

    /** `sgetn(_, n)`: hands over the next units; a throw consumes nothing. The state bits are the caller's business. */
    method Sgetn(n: nat) returns (got: Option<seq<char>>)
      modifies this
      ensures eofbit == old(eofbit) && badbit == old(badbit)
      ensures replies == if old(replies) == [] then [] else old(replies)[1..]
      ensures old(NextCount(n)).None? ==> got.None? && content == old(content)
      ensures old(NextCount(n)).Some? ==>
        got == Some(old(content)[..old(NextCount(n)).value]) && content == old(content)[old(NextCount(n)).value..]
    {
      var c := NextCount(n);
      if replies != [] {
        replies := replies[1..];
      }
      match c {
        case None =>
          got := None;
        case Some(k) =>
          got := Some(content[..k]);
          content := content[k..];
      }
    }
  }

  /** `a` with `s` written over it from `offset` on. */
  function Splice(a: seq<char>, offset: nat, s: seq<char>): (r: seq<char>)
    requires offset + |s| <= |a|
    ensures |r| == |a|
    ensures r[..offset] == a[..offset] && r[offset..offset + |s|] == s && r[offset + |s|..] == a[offset + |s|..]
  {
    a[..offset] + s + a[offset + |s|..]
  }

  /** Write `s` into `p` from `offset` on, leaving the rest of `p` alone: the `memcpy` and `sgetn` writes. */
  method CopyIn(p: array<char>, offset: nat, s: seq<char>)
    requires offset + |s| <= p.Length
    modifies p
    ensures p[..] == Splice(old(p[..]), offset, s)
    ensures p[offset..offset + |s|] == s
  {
    forall k | 0 <= k < |s| {
      p[offset + k] := s[k];
    }
    assert forall k :: 0 <= k < p.Length ==> p[..][k] == Splice(old(p[..]), offset, s)[k];
  }

  /** Two consecutive writes, `x` at the front and then `y` right after it, write `x + y` at the front. */
  lemma SpliceTwice(a: seq<char>, x: seq<char>, y: seq<char>)
    requires |x| + |y| <= |a|
    ensures Splice(Splice(a, 0, x), |x|, y) == Splice(a, 0, x + y)
  {
    var b := Splice(a, 0, x);
    assert b[..|x|] == x;
    assert b[|x| + |y|..] == a[|x| + |y|..];
  }

  class StreamSource {
    /** `null_is_`: the stream a default-constructed or moved-from source reads. */
    const nullStream: InputStream
    /** `stream_ptr_` (and `sbuf_`, its stream buffer). */
    var stream: InputStream
    var buffer: array<char>
    /** `buffer_data_ - buffer_.data()`. */
    var start: nat
    var bufferLength: nat
    var position: nat
    var eof: bool

    predicate Valid()
      reads this
    {
      start + bufferLength <= buffer.Length
    }

    /** Every unit still to be read: the rest of the buffer, then what the stream holds. */
    ghost function Pending(): seq<char>
      reads this`buffer, this`start, this`bufferLength, this`stream, buffer, stream`content
      requires start + bufferLength <= buffer.Length
    {
      (if bufferLength == 0 then [] else buffer[start..start + bufferLength]) + stream.content
    }

    /** `stream_source()`: reads the null stream, has no buffer, and is at end of file. */
    constructor Default()
      ensures Valid() && stream == nullStream && fresh(nullStream) && fresh(buffer)
      ensures buffer.Length == 0 && bufferLength == 0 && position == 0 && eof
      ensures stream.content == [] && stream.replies == [] && !stream.eofbit && !stream.badbit
    {
      nullStream := new InputStream.Null();
      stream := nullStream;
      buffer := new char[0];
      start := 0;
      bufferLength := 0;
      position := 0;
      eof := true;
    }

    /** `stream_source(is, buf_size)`: an empty buffer of `bufSize` units over `input`. */
    constructor (input: InputStream, bufSize: nat)
      ensures Valid() && stream == input && fresh(buffer) && fresh(nullStream)
      ensures buffer.Length == bufSize && bufferLength == 0 && position == 0 && !eof
      ensures Pending() == input.content
    {
      nullStream := new InputStream.Null();
      stream := input;
      buffer := new char[bufSize];
      start := 0;
      bufferLength := 0;
      position := 0;
      eof := false;
    }

    /** `swap`: exchanges everything except the owned null stream; swapping with itself changes nothing. */
    method Swap(other: StreamSource)
      requires Valid() && other.Valid()
      modifies this, other
      ensures Valid() && other.Valid()
      ensures stream == old(other.stream) && other.stream == old(stream)
      ensures buffer == old(other.buffer) && other.buffer == old(buffer)
      ensures start == old(other.start) && other.start == old(start)
      ensures bufferLength == old(other.bufferLength) && other.bufferLength == old(bufferLength)
      ensures position == old(other.position) && other.position == old(position)
      ensures eof == old(other.eof) && other.eof == old(eof)
    {
      if other != this {
        stream, other.stream := other.stream, stream;
        buffer, other.buffer := other.buffer, buffer;
        start, other.start := other.start, start;
        bufferLength, other.bufferLength := other.bufferLength, bufferLength;
        position, other.position := other.position, position;
        eof, other.eof := other.eof, eof;
      }
    }

    /**
     * The move constructor: starts like `stream_source()` and swaps, so the
     * moved-from source is left at end of file, reading this source's null stream.
     */
    constructor Moved(other: StreamSource)
      requires other.Valid()
      modifies other
      ensures Valid() && other.Valid()
      ensures stream == old(other.stream) && buffer == old(other.buffer) && start == old(other.start)
      ensures bufferLength == old(other.bufferLength) && position == old(other.position) && eof == old(other.eof)
      ensures other.stream == nullStream && fresh(nullStream)
      ensures other.buffer.Length == 0 && other.bufferLength == 0 && other.position == 0 && other.eof
    {
      nullStream := new InputStream.Null();
      stream := other.stream;
      buffer := other.buffer;
      start := other.start;
      bufferLength := other.bufferLength;
      position := other.position;
      eof := other.eof;
      new;
      other.stream := nullStream;
      other.buffer := new char[0];
      other.start := 0;
      other.bufferLength := 0;
      other.position := 0;
      other.eof := true;
    }

    /** `eof()`. */
    function Eof(): bool
      reads this
    {
      eof
    }

    /** `is_error()`: the stream's badbit. */
    function IsError(): bool
      reads this, stream
    {
      stream.badbit
    }

    /**
     * `fill_buffer()`: refill the (empty) buffer with one `sgetn` of the
     * buffer's size. `pre` is the pending input on entry, which a refill moves
     * from the stream into the buffer without changing it.
     */
    method FillBuffer(ghost pre: seq<char>)
      requires Valid() && bufferLength == 0 && pre == Pending()
      modifies this, buffer, stream
      ensures Valid() && buffer == old(buffer) && stream == old(stream) && position == old(position)
      ensures Pending() == pre
      ensures old(stream.eofbit) ==>
        eof && bufferLength == 0 && stream.eofbit && stream.content == old(stream.content) && stream.replies == old(stream.replies)
      ensures !old(stream.eofbit) ==> eof == old(eof)
      ensures !old(stream.eofbit) && old(stream.NextCount(buffer.Length)).Some? ==>
        bufferLength == old(stream.NextCount(buffer.Length)).value
      ensures old(stream.Honest()) ==> stream.Honest() && bufferLength == Min(buffer.Length, |pre|)
      ensures bufferLength < buffer.Length ==> stream.eofbit
      ensures stream.badbit <==>
        old(stream.badbit) || (!old(stream.eofbit) && old(stream.NextCount(buffer.Length)).None?)
    {
      if stream.eofbit {
        eof := true;
        bufferLength := 0;
        return;
      }
      var got := stream.Sgetn(buffer.Length);
      match got {
        case Some(s) =>
          if |s| < buffer.Length {
            stream.eofbit := true;
          }
          StoreChunk(s, pre);
        case None =>
          stream.badbit := true;
          stream.eofbit := true;
          bufferLength := 0;
      }
    }

    /** The buffer receives the units `s` that a refill took from the front of the pending units `pre`. */
    method StoreChunk(s: seq<char>, ghost pre: seq<char>)
      requires Valid() && bufferLength == 0 && |s| <= buffer.Length && pre == s + stream.content
      modifies this, buffer
      ensures Valid() && buffer == old(buffer) && stream == old(stream) && position == old(position) && eof == old(eof)
      ensures start == 0 && bufferLength == |s|
      ensures Pending() == pre
    {
      CopyIn(buffer, 0, s);
      start := 0;
      bufferLength := |s|;
    }

    /** `peek()`: the next unit, refilling an empty buffer first; consumes nothing. */
    method Peek() returns (r: CharResult<char>)
      requires Valid()
      modifies this, buffer, stream
      ensures Valid() && buffer == old(buffer) && stream == old(stream)
      ensures position == old(position)
      ensures Pending() == old(Pending())
      ensures !r.eof ==> old(Pending()) != [] && r.value == old(Pending())[0]
      ensures r.eof ==> r.value == 0 as char && bufferLength == 0
      ensures old(stream.Honest()) ==> stream.Honest()
      ensures old(stream.Honest()) && buffer.Length > 0 ==> (r.eof <==> old(Pending()) == [])
      ensures old(bufferLength) == 0 && old(stream.Honest()) ==> bufferLength == Min(buffer.Length, |old(Pending())|)
      ensures bufferLength < buffer.Length ==> old(bufferLength) > 0 || stream.eofbit
      ensures old(stream.eofbit) ==> stream.eofbit
      ensures eof == (old(eof) || (old(bufferLength) == 0 && old(stream.eofbit)))
    {
      if bufferLength == 0 {
        FillBuffer(Pending());
      }
      if bufferLength > 0 {
        r := CharResult(buffer[start], false);
      } else {
        r := CharResult(0 as char, true);
      }
    }

    /** Step past `n` of the pending units `pre`, all of them buffered. */
    method SkipBuffered(n: nat, ghost pre: seq<char>)
      requires Valid() && n <= bufferLength && pre == Pending()
      modifies this
      ensures Valid() && buffer == old(buffer) && stream == old(stream)
      ensures eof == old(eof) && bufferLength == old(bufferLength) - n
      ensures position == old(position) + n
      ensures n <= |pre| && Pending() == pre[n..]
    {
      ghost var before := buffer[start..start + bufferLength];
      start := start + n;
      bufferLength := bufferLength - n;
      position := position + n;
      assert buffer[start..start + bufferLength] == before[n..];
    }

    /** Copy `n` buffered units to `p[offset..]` and step past them: the `memcpy` steps of `read`. */
    method TakeBuffered(p: array<char>, offset: nat, n: nat, ghost pre: seq<char>)
      requires Valid() && p != buffer && n <= bufferLength && offset + n <= p.Length && pre == Pending()
      modifies this, p
      ensures Valid() && buffer == old(buffer) && stream == old(stream)
      ensures eof == old(eof) && bufferLength == old(bufferLength) - n
      ensures position == old(position) + n
      ensures n <= |pre| && Pending() == pre[n..]
      ensures p[..] == Splice(old(p[..]), offset, pre[..n])
    {
      assert buffer[start..start + n] == pre[..n];
      CopyIn(p, offset, buffer[start..start + n]);
      SkipBuffered(n, pre);
    }

    /** One round of the `ignore` loop: refill the empty buffer, then step past up to `want` units. */
    method IgnoreStep(want: nat, ghost pre: seq<char>) returns (got: nat)
      requires Valid() && bufferLength == 0 && want > 0 && pre == Pending()
      modifies this, buffer, stream
      ensures Valid() && buffer == old(buffer) && stream == old(stream)
      ensures got <= want && got <= |pre| && Pending() == pre[got..]
      ensures position == old(position) + got
      ensures got < want ==> bufferLength == 0
      ensures got == 0 ==> stream.eofbit || buffer.Length == 0
      ensures old(stream.Honest()) ==> stream.Honest()
      ensures old(stream.eofbit) ==> stream.eofbit && stream.content == old(stream.content) && got == 0
      ensures old(stream.Honest()) && buffer.Length > 0 && got == 0 ==> pre == []
      ensures old(eof) ==> eof
      ensures eof ==> old(eof) || stream.eofbit
    {
      FillBuffer(pre);
      if bufferLength == 0 {
        got := 0;
      } else {
        got := Min(bufferLength, want);
        SkipBuffered(got, pre);
      }
    }

    /** The `ignore` algorithm over the pending units `pre`: drain the buffer, then refill and skip until done. */
    method IgnoreUnits(length: nat, ghost pre: seq<char>) returns (len: nat)
      requires Valid() && pre == Pending()
      modifies this, buffer, stream
      ensures Valid() && buffer == old(buffer) && stream == old(stream)
      ensures len <= length && len <= |pre| && Pending() == pre[len..]
      ensures position == old(position) + len
      ensures len < length ==> stream.eofbit || buffer.Length == 0
      ensures old(stream.Honest()) && buffer.Length > 0 ==> len == Min(length, |pre|)
      ensures old(stream.eofbit) ==> stream.eofbit
      ensures old(eof) ==> eof
      ensures eof ==> old(eof) || stream.eofbit
    {
      ghost var deterministic := stream.Honest();
      len := Min(bufferLength, length);
      SkipBuffered(len, pre);
      while len < length
        invariant Valid() && buffer == old(buffer) && stream == old(stream)
        invariant len <= length && len <= |pre| && position == old(position) + len
        invariant Pending() == pre[len..]
        invariant len < length ==> bufferLength == 0
        invariant old(stream.eofbit) ==> stream.eofbit
        invariant deterministic ==> stream.Honest()
        invariant old(eof) ==> eof
        invariant eof ==> old(eof) || stream.eofbit
        decreases length - len
      {
        var got := IgnoreStep(length - len, pre[len..]);
        if got == 0 {
          break;
        }
        len := len + got;
      }
    }

    /** `ignore(length)`: skip up to `length` units, refilling the buffer as needed. */
    method Ignore(length: nat)
      requires Valid()
      modifies this, buffer, stream
      ensures Valid() && buffer == old(buffer) && stream == old(stream)
      ensures old(position) <= position <= old(position) + length
      ensures position - old(position) <= |old(Pending())|
      ensures Pending() == old(Pending())[position - old(position)..]
      ensures position - old(position) < length ==> stream.eofbit || buffer.Length == 0
      ensures old(stream.Honest()) && buffer.Length > 0 ==>
        position - old(position) == Min(length, |old(Pending())|)
      ensures old(stream.eofbit) ==> stream.eofbit
      ensures old(eof) ==> eof
      ensures eof ==> old(eof) || stream.eofbit
    {
      var skipped := IgnoreUnits(length, Pending());
    }

    /** The direct branch of `read`: one `sgetn` of `n` units straight into `p[offset..]`. */
    method ReadDirect(p: array<char>, offset: nat, n: nat, ghost pre: seq<char>) returns (got: nat, threw: bool)
      requires Valid() && p != buffer && bufferLength == 0 && !stream.eofbit && n > 0 && offset + n <= p.Length
      requires pre == Pending()
      modifies this, stream, p
      ensures Valid() && buffer == old(buffer) && stream == old(stream)
      ensures eof == old(eof) && bufferLength == 0
      ensures got <= n && got <= |pre| && Pending() == pre[got..]
      ensures position == old(position) + got
      ensures p[..] == Splice(old(p[..]), offset, pre[..got])
      ensures threw <==> old(stream.NextCount(n)).None?
      ensures threw ==> got == 0
      ensures stream.eofbit <==> got < n
      ensures stream.badbit <==> old(stream.badbit) || threw
      ensures old(stream.replies) == [] ==> stream.Honest() && got == Min(n, |pre|)
    {
      assert pre == stream.content;
      var r := stream.Sgetn(n);
      match r {
        case Some(s) =>
          CopyIn(p, offset, s);
          if |s| < n {
            stream.eofbit := true;
          }
          got, threw := |s|, false;
          position := position + got;
        case None =>
          stream.badbit := true;
          stream.eofbit := true;
          got, threw := 0, true;
      }
      assert stream.content == pre[got..];
    }

    /** The refill branch of `read`: refill the empty buffer, then copy up to `n` units to `p[offset..]`. */
    method ReadViaBuffer(p: array<char>, offset: nat, n: nat, ghost pre: seq<char>) returns (got: nat)
      requires Valid() && p != buffer && bufferLength == 0 && n < buffer.Length && offset + n <= p.Length
      requires pre == Pending()
      modifies this, buffer, stream, p
      ensures Valid() && buffer == old(buffer) && stream == old(stream)
      ensures got <= n && got <= |pre| && Pending() == pre[got..]
      ensures position == old(position) + got
      ensures p[..] == Splice(old(p[..]), offset, pre[..got])
      ensures got < n ==> stream.eofbit && bufferLength == 0
      ensures old(stream.eofbit) ==> stream.eofbit && got == 0 && eof
      ensures !old(stream.eofbit) ==> eof == old(eof)
      ensures old(stream.Honest()) ==> stream.Honest() && got == Min(n, |pre|)
    {
      FillBuffer(pre);
      if bufferLength > 0 {
        got := Min(bufferLength, n);
        TakeBuffered(p, offset, got, pre);
      } else {
        got := 0;
      }
    }

    /**
     * What `read` does once the buffer is drained and `n > 0` units are still
     * wanted: refill and copy when `n` is below the buffer size, otherwise
     * read directly, giving up (`abandoned`) when the stream is already at end
     * of file or `sgetn` throws.
     */
    method ReadRest(p: array<char>, offset: nat, n: nat, ghost pre: seq<char>) returns (got: nat, abandoned: bool)
      requires Valid() && p != buffer && bufferLength == 0 && n > 0 && offset + n <= p.Length
      requires pre == Pending()
      modifies this, buffer, stream, p
      ensures Valid() && buffer == old(buffer) && stream == old(stream)
      ensures got <= n && got <= |pre| && Pending() == pre[got..]
      ensures position == old(position) + got
      ensures p[..] == Splice(old(p[..]), offset, pre[..got])
      ensures got < n ==> stream.eofbit && bufferLength == 0
      ensures old(stream.eofbit) ==> stream.eofbit && got == 0 && eof
      ensures !old(stream.eofbit) ==> eof == old(eof)
      ensures old(stream.Honest()) ==> stream.Honest() && got == Min(n, |pre|)
      ensures abandoned ==> got == 0 && stream.eofbit
      ensures old(stream.eofbit) && n >= buffer.Length ==> abandoned
    {
      abandoned := false;
      if n < buffer.Length {
        got := ReadViaBuffer(p, offset, n, pre);
      } else if stream.eofbit {
        eof := true;
        bufferLength := 0;
        got, abandoned := 0, true;
      } else {
        got, abandoned := ReadDirect(p, offset, n, pre);
      }
    }

    /** `read` when the buffer holds fewer than `length` units: drain it, then go on with `ReadRest`. */
    method DrainThenRead(p: array<char>, length: nat, ghost pre: seq<char>) returns (len: nat, abandoned: bool)
      requires Valid() && length <= p.Length && p != buffer && pre == Pending() && bufferLength < length
      modifies this, buffer, stream, p
      ensures Valid() && buffer == old(buffer) && stream == old(stream)
      ensures old(bufferLength) <= len <= length && len <= |pre| && Pending() == pre[len..]
      ensures p[..] == Splice(old(p[..]), 0, pre[..len])
      ensures position == old(position) + len
      ensures len < length ==> stream.eofbit && bufferLength == 0
      ensures old(stream.eofbit) ==> stream.eofbit && len == old(bufferLength) && eof
      ensures !old(stream.eofbit) ==> eof == old(eof)
      ensures old(stream.Honest()) ==> stream.Honest() && len == Min(length, |pre|)
      ensures abandoned ==> len == old(bufferLength) && stream.eofbit
      ensures old(stream.eofbit) && length - old(bufferLength) >= buffer.Length ==> abandoned
    {
      ghost var p0 := p[..];
      var drained := bufferLength;
      TakeBuffered(p, 0, drained, pre);
      var got;
      got, abandoned := ReadRest(p, drained, length - drained, pre[drained..]);
      len := drained + got;
      assert pre[..drained] + pre[drained..][..got] == pre[..len];
      SpliceTwice(p0, pre[..drained], pre[drained..][..got]);
    }

    /**
     * The body of `read(p, length)`. `len` counts the units copied to `p`;
     * `abandoned` marks the two paths (stream already at end of file, or
     * `sgetn` throwing) on which the source then returns 0.
     */
    method ReadUnits(p: array<char>, length: nat, ghost pre: seq<char>) returns (len: nat, abandoned: bool)
      requires Valid() && length <= p.Length && p != buffer && pre == Pending()
      modifies this, buffer, stream, p
      ensures Valid() && buffer == old(buffer) && stream == old(stream)
      ensures len <= length && len <= |pre| && Pending() == pre[len..]
      ensures p[..] == Splice(old(p[..]), 0, pre[..len])
      ensures position == old(position) + len
      ensures len < length ==> stream.eofbit && bufferLength == 0
      ensures old(stream.eofbit) ==> stream.eofbit && len == Min(length, old(bufferLength))
      ensures old(stream.Honest()) ==> stream.Honest() && len == Min(length, |pre|)
      ensures eof == (old(eof) || (old(stream.eofbit) && len < length))
      ensures abandoned ==> len == old(bufferLength) && len < length && stream.eofbit
      ensures old(stream.eofbit) && old(bufferLength) < length && length - old(bufferLength) >= buffer.Length ==> abandoned
    {
      if length <= bufferLength {
        TakeBuffered(p, 0, length, pre);
        len, abandoned := length, false;
      } else {
        len, abandoned := DrainThenRead(p, length, pre);
      }
    }

    /** `read(p, length)`, corrected: returns the number of units copied to `p`. */
    method Read(p: array<char>, length: nat) returns (len: nat)
      requires Valid() && length <= p.Length && p != buffer
      modifies this, buffer, stream, p
      ensures Valid() && buffer == old(buffer) && stream == old(stream)
      ensures len <= length && len <= |old(Pending())|
      ensures p[..len] == old(Pending())[..len]
      ensures p[len..] == old(p[len..])
      ensures Pending() == old(Pending())[len..]
      ensures position == old(position) + len
      ensures len < length ==> stream.eofbit && bufferLength == 0
      ensures old(stream.eofbit) ==> stream.eofbit && len == Min(length, old(bufferLength))
      ensures old(stream.Honest()) ==> stream.Honest() && len == Min(length, |old(Pending())|)
      ensures eof == (old(eof) || (old(stream.eofbit) && len < length))
    {
      var abandoned;
      len, abandoned := ReadUnits(p, length, Pending());
    }

    /**
     * `read(p, length)` as written: on the end-of-file and exception paths of a
     * direct read it returns 0, even when units were already taken from the
     * buffer and copied to `p`. `copied` is how many really were.
     */
    method ReadAsWritten(p: array<char>, length: nat) returns (r: nat, ghost copied: nat)
      requires Valid() && length <= p.Length && p != buffer
      modifies this, buffer, stream, p
      ensures Valid() && buffer == old(buffer) && stream == old(stream)
      ensures copied <= length && copied <= |old(Pending())|
      ensures p[..copied] == old(Pending())[..copied] && Pending() == old(Pending())[copied..]
      ensures position == old(position) + copied
      ensures r == copied || (r == 0 && copied == old(bufferLength) && copied < length)
      ensures old(stream.eofbit) && old(bufferLength) < length && length - old(bufferLength) >= buffer.Length ==>
        r == 0 && copied == old(bufferLength)
    {
      var len, abandoned := ReadUnits(p, length, Pending());
      r := if abandoned then 0 else len;
      copied := len;
    }
  }

  /**
   * A source over a two-unit stream with a four-unit buffer: `peek` buffers both
   * units, then a read of six copies them and advances the position by two,
   * yet as written it reports that nothing was read.
   */
  method ReadAfterPeekLosesUnits() returns (r: nat, fixed: nat, copied: seq<char>)
    ensures r == 0 && fixed == 2 && copied == ['a', 'b']
  {
    var s1 := new InputStream(['a', 'b'], []);
    var src := new StreamSource(s1, 4);
    var c := src.Peek();
    assert src.bufferLength == 2 && src.stream.eofbit;
    var p := new char[6];
    ghost var copied0;
    r, copied0 := src.ReadAsWritten(p, 6);
    assert src.position == 2;

    var s2 := new InputStream(['a', 'b'], []);
    var src2 := new StreamSource(s2, 4);
    c := src2.Peek();
    var q := new char[6];
    fixed := src2.Read(q, 6);
    copied := q[..fixed];
  }
}
