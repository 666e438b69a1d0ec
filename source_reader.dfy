/**
 * `source_reader<stream_source>::read(source, v, length)`: pull up to `length`
 * units from a source into a growable container, in chunks of at most
 * `MaxBufferLength` units, stopping early once the source reports end of file.
 * The container is a `Container` whose `items` the reader extends.
 */
module SourceReader {
  import opened Wrappers
  import opened SourceStream

  /** `source_reader::max_buffer_length`. */
  const MaxBufferLength: nat := 16384

  /** The growable container `v` (a `std::vector` or `std::basic_string`). */
  class Container {
    var items: seq<char>

    constructor (items: seq<char>)
      ensures this.items == items
    {
      this.items := items;
    }
  }

  /** `k` value-initialized units, as `resize` appends them. */
  function Zeros(k: nat): (z: seq<char>)
    ensures |z| == k
  {
    if k == 0 then [] else [0 as char] + Zeros(k - 1)
  }

  /**
   * How far a source is from being done, for the termination of the reader
   * loops: 0 once `eof_` is set, 1 once only the stream's eofbit is, 2 before.
   * A read that delivers nothing moves a source down this order.
   */
  function Stage(source: StreamSource): nat
    reads source, source.stream
  {
    if source.eof then 0 else if source.stream.eofbit then 1 else 2
  }

  /** Appending the next units of `pre`, taken after its first `k`, extends the prefix read so far. */
  lemma Advance(pre: seq<char>, k: nat, chunk: seq<char>)
    requires k + |chunk| <= |pre| && chunk == pre[k..][..|chunk|]
    ensures pre[..k] + chunk == pre[..k + |chunk|]
    ensures pre[k..][|chunk|..] == pre[k + |chunk|..]
  {
  }

  lemma {:induction false} ZerosAdd(a: nat, b: nat)
    ensures Zeros(a) + Zeros(b) == Zeros(a + b)
  {
    if a > 0 {
      ZerosAdd(a - 1, b);
      assert Zeros(a) + Zeros(b) == [0 as char] + (Zeros(a - 1) + Zeros(b));
    }
  }

  /**
   * One round of the as-written reader: after `k` units of `pre` and `extra`
   * value-initialized units, the round appends `chunk`, the next units of
   * `pre`, and `m` more value-initialized ones. Once such units exist the
   * source is dry, so `chunk` is then empty.
   */
  lemma AppendRound(items0: seq<char>, pre: seq<char>, k: nat, extra: nat, chunk: seq<char>, m: nat)
    requires k + |chunk| <= |pre| && chunk == pre[k..][..|chunk|] && (extra > 0 ==> chunk == [])
    ensures items0 + pre[..k] + Zeros(extra) + chunk + Zeros(m) == items0 + pre[..k + |chunk|] + Zeros(extra + m)
  {
    if extra > 0 {
      ZerosAdd(extra, m);
      assert items0 + pre[..k] + Zeros(extra) + chunk + Zeros(m) == items0 + pre[..k] + (Zeros(extra) + Zeros(m));
    } else {
      Advance(pre, k, chunk);
      assert items0 + pre[..k] + Zeros(extra) + chunk + Zeros(m) == items0 + (pre[..k] + chunk) + Zeros(m);
    }
  }

  /**
   * The reader's progress: the source has given up the first `done` units of
   * `pre`, its pending input when the reader started, and the container holds
   * its former items `items0`, those units, and `extra` value-initialized units.
   */
  ghost predicate Filled(source: StreamSource, v: Container, pre: seq<char>, items0: seq<char>, done: nat, extra: nat)
    reads source, source.buffer, source.stream, v
  {
    source.Valid() && done <= |pre| && source.Pending() == pre[done..] && v.items == items0 + pre[..done] + Zeros(extra)
  }

  /** One chunk: `source.read` of `n` units into a fresh array, as the units copied. `rest` is the pending input. */
  method ReadChunk(source: StreamSource, n: nat, ghost rest: seq<char>) returns (chunk: seq<char>)
    requires source.Valid() && rest == source.Pending()
    modifies source, source.buffer, source.stream
    ensures source.Valid() && source.buffer == old(source.buffer) && source.stream == old(source.stream)
    ensures |chunk| <= n && |chunk| <= |rest|
    ensures chunk == rest[..|chunk|]
    ensures source.Pending() == rest[|chunk|..]
    ensures source.position == old(source.position) + |chunk|
    ensures |chunk| < n ==> source.stream.eofbit && source.bufferLength == 0
    ensures old(source.stream.eofbit) ==> source.stream.eofbit && |chunk| == Min(n, old(source.bufferLength))
    ensures old(source.stream.Honest()) ==> source.stream.Honest() && |chunk| == Min(n, |rest|)
    ensures source.eof == (old(source.eof) || (old(source.stream.eofbit) && |chunk| < n))
  {
    var p := new char[n](_ => 0 as char);
    var len := source.Read(p, n);
    chunk := p[..len];
  }

  /** One round of the corrected reader: read up to `n` units and append exactly those. */
  method AppendChunk(source: StreamSource, v: Container, n: nat, ghost pre: seq<char>, ghost items0: seq<char>, ghost done: nat)
    returns (got: nat)
    requires Filled(source, v, pre, items0, done, 0)
    modifies source, source.buffer, source.stream, v
    ensures source.buffer == old(source.buffer) && source.stream == old(source.stream)
    ensures got <= n && Filled(source, v, pre, items0, done + got, 0)
    ensures source.position == old(source.position) + got
    ensures got < n ==> source.stream.eofbit
    ensures old(source.stream.Honest()) ==> source.stream.Honest() && got == Min(n, |pre| - done)
    ensures source.eof == (old(source.eof) || (old(source.stream.eofbit) && got < n))
    ensures Stage(source) <= old(Stage(source))
    ensures !old(source.eof) && got < n ==> Stage(source) < old(Stage(source))
  {
    var chunk := ReadChunk(source, n, pre[done..]);
    AppendRound(items0, pre, done, 0, chunk, 0);
    assert Zeros(0) == [];
    v.items := v.items + chunk;
    got := |chunk|;
    assert v.items == items0 + pre[..done + got] + Zeros(0);
  }

  /**
   * The `data()` variant of `read`, corrected: each round appends exactly the
   * units the source delivered. Returns `length - unread`.
   */
  method ReadChunked(source: StreamSource, v: Container, length: nat) returns (r: nat)
    requires source.Valid()
    modifies source, source.buffer, source.stream, v
    ensures source.Valid() && source.buffer == old(source.buffer) && source.stream == old(source.stream)
    ensures r <= length && r <= |old(source.Pending())|
    ensures v.items == old(v.items) + old(source.Pending())[..r]
    ensures source.Pending() == old(source.Pending())[r..]
    ensures source.position == old(source.position) + r
    ensures r < length ==> source.eof
    ensures old(source.stream.Honest()) && !old(source.eof) ==> r == Min(length, |old(source.Pending())|)
  {
    ghost var pre := source.Pending();
    ghost var items0 := v.items;
    ghost var honest := source.stream.Honest() && !source.eof;
    var unread: nat := length;
    var n := Min(MaxBufferLength, unread);
    while n > 0 && !source.eof
      invariant source.buffer == old(source.buffer) && source.stream == old(source.stream)
      invariant unread <= length && Filled(source, v, pre, items0, length - unread, 0)
      invariant n == Min(MaxBufferLength, unread)
      invariant source.position == old(source.position) + (length - unread)
      invariant honest ==> source.stream.Honest() && (source.eof ==> length - unread == |pre|)
      decreases unread, Stage(source)
    {
      var actual := AppendChunk(source, v, n, pre, items0, length - unread);
      unread := unread - actual;
      n := Min(MaxBufferLength, unread);
    }
    r := length - unread;
  }

  /**
   * One round of the as-written reader: `v.resize(v.size() + n)`, then a read
   * of up to `n` units into the new tail; what the read does not fill stays
   * value-initialized. Once such units exist the source is dry.
   */
  method ResizeAndRead(source: StreamSource, v: Container, n: nat, ghost pre: seq<char>, ghost items0: seq<char>,
                       ghost done: nat, ghost extra: nat) returns (got: nat)
    requires n > 0 && Filled(source, v, pre, items0, done, extra)
    requires extra > 0 ==> source.stream.eofbit && source.bufferLength == 0
    modifies source, source.buffer, source.stream, v
    ensures source.buffer == old(source.buffer) && source.stream == old(source.stream)
    ensures got <= n && Filled(source, v, pre, items0, done + got, extra + (n - got))
    ensures extra + (n - got) > 0 ==> source.stream.eofbit && source.bufferLength == 0
    ensures source.position == old(source.position) + got
    ensures old(source.stream.eofbit) ==> got == Min(n, old(source.bufferLength))
    ensures source.eof == (old(source.eof) || (old(source.stream.eofbit) && got < n))
    ensures Stage(source) <= old(Stage(source))
    ensures !old(source.eof) && got < n ==> Stage(source) < old(Stage(source))
  {
    var chunk := ReadChunk(source, n, pre[done..]);
    AppendRound(items0, pre, done, extra, chunk, n - |chunk|);
    v.items := v.items + chunk + Zeros(n - |chunk|);
    got := |chunk|;
    assert v.items == items0 + pre[..done + got] + Zeros(extra + (n - got));
  }

  /**
   * The `data()` variant of `read` as written: each round resizes the
   * container by the full chunk size `n` before reading, and keeps that size
   * when fewer units arrive, so the container ends with value-initialized
   * units that were never read. `source.read` here is the corrected `Read`,
   * so that this discrepancy is seen on its own.
   */
  method ReadChunkedAsWritten(source: StreamSource, v: Container, length: nat) returns (r: nat)
    requires source.Valid()
    modifies source, source.buffer, source.stream, v
    ensures source.Valid() && source.buffer == old(source.buffer) && source.stream == old(source.stream)
    ensures r <= length && r <= |old(source.Pending())|
    ensures |v.items| >= |old(v.items)| + r
    ensures v.items == old(v.items) + old(source.Pending())[..r] + Zeros(|v.items| - |old(v.items)| - r)
    ensures source.Pending() == old(source.Pending())[r..]
    ensures source.position == old(source.position) + r
    ensures r < length ==> source.eof
    ensures old(source.stream.eofbit) && !old(source.eof) && old(source.bufferLength) < Min(MaxBufferLength, length) ==>
      r == old(source.bufferLength) && |v.items| == |old(v.items)| + Min(MaxBufferLength, length)
  {
    ghost var pre := source.Pending();
    ghost var items0 := v.items;
    ghost var scenario := source.stream.eofbit && !source.eof && source.bufferLength < Min(MaxBufferLength, length);
    ghost var bufferLength0 := source.bufferLength;
    ghost var rounds: nat := 0;
    // The value-initialized units appended so far.
    ghost var extra: nat := 0;
    var unread: nat := length;
    var n := Min(MaxBufferLength, unread);
    while n > 0 && !source.eof
      invariant source.buffer == old(source.buffer) && source.stream == old(source.stream)
      invariant unread <= length && Filled(source, v, pre, items0, length - unread, extra)
      invariant extra > 0 ==> source.stream.eofbit && source.bufferLength == 0
      invariant n == Min(MaxBufferLength, unread)
      invariant source.position == old(source.position) + (length - unread)
      invariant rounds == 0 ==> (unread == length && extra == 0 && source.eof == old(source.eof) &&
        source.bufferLength == bufferLength0 && source.stream.eofbit == old(source.stream.eofbit))
      invariant scenario && rounds > 0 ==>
        (source.eof && length - unread == bufferLength0 && (length - unread) + extra == Min(MaxBufferLength, length))
      decreases unread, Stage(source)
    {
      var actual := ResizeAndRead(source, v, n, pre, items0, length - unread, extra);
      extra := extra + (n - actual);
      unread := unread - actual;
      n := Min(MaxBufferLength, unread);
      rounds := rounds + 1;
    }
    r := length - unread;
  }

  /**
   * One round of the `push_back` variant: read one unit at a time and append
   * it, until `n` have arrived or a one-unit read delivers nothing.
   */
  method PushBackUnits(source: StreamSource, v: Container, n: nat, ghost pre: seq<char>, ghost items0: seq<char>,
                       ghost done: nat) returns (actual: nat)
    requires Filled(source, v, pre, items0, done, 0)
    modifies source, source.buffer, source.stream, v
    ensures source.buffer == old(source.buffer) && source.stream == old(source.stream)
    ensures actual <= n && Filled(source, v, pre, items0, done + actual, 0)
    ensures source.position == old(source.position) + actual
    ensures Stage(source) <= old(Stage(source))
    ensures !old(source.eof) && actual == 0 && n > 0 ==> Stage(source) < old(Stage(source))
    ensures source.eof != old(source.eof) ==> actual < n
    ensures old(source.stream.Honest()) ==> source.stream.Honest() && (actual < n ==> done + actual == |pre|)
  {
    ghost var honest := source.stream.Honest();
    actual := 0;
    while actual < n
      invariant source.buffer == old(source.buffer) && source.stream == old(source.stream)
      invariant actual <= n && Filled(source, v, pre, items0, done + actual, 0)
      invariant source.position == old(source.position) + actual
      invariant Stage(source) <= old(Stage(source)) && (actual == 0 ==> Stage(source) == old(Stage(source)))
      invariant source.eof == old(source.eof)
      invariant honest ==> source.stream.Honest()
      decreases n - actual
    {
      var got := AppendChunk(source, v, 1, pre, items0, done + actual);
      if got != 1 {
        break;
      }
      actual := actual + 1;
    }
  }

  /**
   * The `push_back` variant of `read`: rounds of `PushBackUnits` of at most
   * `MaxBufferLength` units each. It appends exactly the units read.
   */
  method ReadByUnit(source: StreamSource, v: Container, length: nat) returns (r: nat)
    requires source.Valid()
    modifies source, source.buffer, source.stream, v
    ensures source.Valid() && source.buffer == old(source.buffer) && source.stream == old(source.stream)
    ensures r <= length && r <= |old(source.Pending())|
    ensures v.items == old(v.items) + old(source.Pending())[..r]
    ensures source.Pending() == old(source.Pending())[r..]
    ensures source.position == old(source.position) + r
    ensures r < length ==> source.eof
    ensures old(source.stream.Honest()) && !old(source.eof) ==> r == Min(length, |old(source.Pending())|)
  {
    ghost var pre := source.Pending();
    ghost var items0 := v.items;
    ghost var honest := source.stream.Honest() && !source.eof;
    var unread: nat := length;
    var n := Min(MaxBufferLength, unread);
    while n > 0 && !source.eof
      invariant source.buffer == old(source.buffer) && source.stream == old(source.stream)
      invariant unread <= length && Filled(source, v, pre, items0, length - unread, 0)
      invariant n == Min(MaxBufferLength, unread)
      invariant source.position == old(source.position) + (length - unread)
      invariant honest ==> source.stream.Honest() && (source.eof ==> length - unread == |pre|)
      decreases unread, Stage(source)
    {
      var actual := PushBackUnits(source, v, n, pre, items0, length - unread);
      unread := unread - actual;
      n := Min(MaxBufferLength, unread);
    }
    r := length - unread;
  }

  /**
   * A source over a two-unit stream with a four-unit buffer: after `peek`
   * buffers both units, a reader asked for ten units returns 2 but, as
   * written, leaves the container ten units longer, eight of them never read.
   */
  method ReadChunkedGrowsPastData() returns (r: nat, items: seq<char>, fixed: nat, fixedItems: seq<char>)
    ensures r == 2 && |items| == 10 && items[..2] == ['a', 'b'] && items[2..] == Zeros(8)
    ensures fixed == 2 && fixedItems == ['a', 'b']
  {
    var s1 := new InputStream(['a', 'b'], []);
    var src := new StreamSource(s1, 4);
    var c := src.Peek();
    var v := new Container([]);
    r := ReadChunkedAsWritten(src, v, 10);
    items := v.items;

    var s2 := new InputStream(['a', 'b'], []);
    var src2 := new StreamSource(s2, 4);
    c := src2.Peek();
    var w := new Container([]);
    fixed := ReadChunked(src2, w, 10);
    fixedItems := w.items;
  }
}
