/** The forward byte stream the decoder reads from (a binary std::ifstream)
    and the byte reader `read_n_bytes` of citiroc_utils.hpp.

    The stream's observable state is its content, its get position and
    whether it has left the good state (`failed`: failbit, with or without
    eofbit; every operation modelled here sets eofbit only together with
    failbit). The pure functions below say what one operation does to that
    state; the class `Stream` performs the operations in place. */
module Streams {
  import opened Bytes

  datatype Cursor = Cursor(data: seq<byte>, pos: nat, failed: bool)

  /** A value read from a stream, and the stream's state afterwards. */
  datatype Step<T> = Step(value: T, next: Cursor)

  function Min(a: nat, b: nat): nat {
    if a <= b then a else b
  }

  /** The number of bytes at and after the get position (none once a seek has
      moved the position past the end). */
  function Available(c: Cursor): nat {
    if c.pos <= |c.data| then |c.data| - c.pos else 0
  }

  /** `istream::read(buf, n)`: a stream that is not good extracts nothing;
      otherwise up to `n` bytes are extracted, and extracting fewer than `n`
      puts the stream in the failed state. */
  function Extract(c: Cursor, n: nat): (r: Step<seq<byte>>)
    ensures r.next.data == c.data
    ensures r.next.pos == c.pos + |r.value|
    ensures |r.value| == if c.failed then 0 else Min(n, Available(c))
    ensures r.value != [] ==> r.next.pos <= |c.data| && r.value == c.data[c.pos..r.next.pos]
    ensures r.next.failed <==> c.failed || |r.value| < n
    ensures !r.next.failed && n > 0 ==> r.next.pos <= |c.data|
  {
    if c.failed || n == 0 then Step([], c)
    else if c.pos + n <= |c.data| then Step(c.data[c.pos..c.pos + n], c.(pos := c.pos + n))
    else if c.pos <= |c.data| then Step(c.data[c.pos..], c.(pos := |c.data|, failed := true))
    else Step([], c.(failed := true))
  }

  /** `read_n_bytes<N>(source)`: the next `n` bytes in stream order, the
      bytes a short read could not extract left at zero. */
  function ReadArray(c: Cursor, n: nat): (r: Step<seq<byte>>)
    ensures r.next == Extract(c, n).next
    ensures |r.value| == n
    ensures forall i :: 0 <= i < n ==>
              r.value[i] == if !c.failed && c.pos + i < |c.data| then c.data[c.pos + i] else 0
  {
    var e := Extract(c, n);
    Step(e.value + Zeros(n - |e.value|), e.next)
  }

  /** `read_n_bytes<T>(n, source)` with sizeof(T) == size, on a little-endian
      host: the bytes read land in the low bytes of a zero-initialised T
      (ReadUintRepresentation). */
  function ReadUint(c: Cursor, n: nat, size: nat): (r: Step<nat>)
    requires n <= size
    ensures r.next == Extract(c, n).next
    ensures r.value < Pow256(n)
    ensures c.failed ==> r == Step(0, c)
    ensures !c.failed && c.pos + n <= |c.data| ==>
              r.value == LittleEndian(c.data[c.pos..c.pos + n]) && r.next == c.(pos := c.pos + n)
  {
    var e := Extract(c, n);
    assert !c.failed && c.pos + n <= |c.data| ==> e.value == c.data[c.pos..c.pos + n];
    Pow256Monotone(|e.value|, n);
    Step(LittleEndian(e.value), e.next)
  }

  /** The integer `read_n_bytes<T>(n, source)` returns is the zero-filled
      array of the next `n` bytes, and its bytes above the first `n` stay zero. */
  lemma ReadUintRepresentation(c: Cursor, n: nat, size: nat)
    requires n <= size
    ensures ReadUint(c, n, size).value == LittleEndian(ReadArray(c, n).value)
    ensures ReadUint(c, n, size).value < Pow256(size)
    ensures ToLittleEndian(ReadUint(c, n, size).value, size) == ReadArray(c, n).value + Zeros(size - n)
  {
    ReadUintIsZeroFilledArray(c, n, size);
    ToLittleEndianZeroPadded(ReadArray(c, n).value, size);
  }

  lemma ReadUintIsZeroFilledArray(c: Cursor, n: nat, size: nat)
    requires n <= size
    ensures ReadUint(c, n, size).value == LittleEndian(ReadArray(c, n).value)
  {
    var e := Extract(c, n).value;
    LittleEndianZeroPadded(e, n - |e|);
  }

  /** Once a stream has failed, any number of further reads extract nothing,
      return zero and leave the stream as it was. */
  lemma {:induction false} FailedReadsYieldZero(c: Cursor, widths: seq<nat>)
    requires c.failed
    ensures ReadAll(c, widths) == Step(Zeros(|widths|), c)
  {
    if widths != [] {
      FailedReadsYieldZero(c, widths[1..]);
      assert [0] + Zeros(|widths| - 1) == Zeros(|widths|);
    }
  }

  /** Successive `read_n_bytes` calls of the given widths (each into an
      integer of exactly that width). */
  function ReadAll(c: Cursor, widths: seq<nat>): Step<seq<nat>>
    decreases |widths|
  {
    if widths == [] then Step([], c)
    else
      var first := ReadUint(c, widths[0], widths[0]);
      var rest := ReadAll(first.next, widths[1..]);
      Step([first.value] + rest.value, rest.next)
  }

  /** `data` holds the bytes `s` starting at position `p`. */
  predicate At(data: seq<byte>, p: nat, s: seq<byte>) {
    p + |s| <= |data| && data[p..p + |s|] == s
  }

  lemma AtSplit(data: seq<byte>, p: nat, a: seq<byte>, b: seq<byte>)
    requires At(data, p, a + b)
    ensures At(data, p, a) && At(data, p + |a|, b)
  {
    assert data[p..p + |a|] == (a + b)[..|a|];
    assert data[p + |a|..p + |a| + |b|] == (a + b)[|a|..];
  }

  lemma AtSlice(data: seq<byte>, p: nat, s: seq<byte>, off: nat, n: nat)
    requires At(data, p, s) && off + n <= |s|
    ensures At(data, p + off, s[off..off + n])
  {
    var window, field := data[p + off..p + off + n], s[off..off + n];
    forall k | 0 <= k < n
      ensures window[k] == field[k]
    {
      assert data[p + off + k] == data[p..p + |s|][off + k];
    }
    assert window == field;
  }

  /** Reading `|s|` bytes where the stream holds `s` yields their
      little-endian value and moves past them. */
  lemma ReadUintAt(c: Cursor, s: seq<byte>, size: nat)
    requires !c.failed && At(c.data, c.pos, s) && |s| <= size
    ensures ReadUint(c, |s|, size) == Step(LittleEndian(s), c.(pos := c.pos + |s|))
  {
  }

  /** Reading one little-endian field at the head of the bytes at `c`
      leaves the cursor at the bytes after it. */
  lemma ReadFieldAt(c: Cursor, field: seq<byte>, rest: seq<byte>)
    requires !c.failed && At(c.data, c.pos, field + rest)
    ensures ReadUint(c, |field|, |field|) == Step(LittleEndian(field), c.(pos := c.pos + |field|))
    ensures At(c.data, c.pos + |field|, rest)
  {
    AtSplit(c.data, c.pos, field, rest);
    ReadUintAt(c, field, |field|);
  }

  /** A binary input stream over fixed content. */
  class Stream {
    const data: seq<byte>
    var pos: nat
    var failed: bool

    function State(): Cursor
      reads this
    {
      Cursor(data, pos, failed)
    }

    /** A stream opened on `data`, at its start and good. */
    constructor (data: seq<byte>)
      ensures State() == Cursor(data, 0, false)
    {
      this.data := data;
      pos := 0;
      failed := false;
    }

    /** A stream whose file could not be opened: no content, failbit set. */
    constructor Unopened()
      ensures State() == Cursor([], 0, true)
    {
      data := [];
      pos := 0;
      failed := true;
    }

    /** `istream::read(buf, n)`; returns the bytes extracted. */
    method Read(n: nat) returns (bytes: seq<byte>)
      modifies this
      ensures Step(bytes, State()) == Extract(old(State()), n)
    {
      if failed || n == 0 {
        bytes := [];
      } else if pos + n <= |data| {
        bytes := data[pos..pos + n];
        pos := pos + n;
      } else if pos <= |data| {
        bytes := data[pos..];
        pos := |data|;
        failed := true;
      } else {
        bytes := [];
        failed := true;
      }
    }

    /** `read_n_bytes<T>(n, source)` with sizeof(T) == size. */
    method ReadNBytes(n: nat, size: nat) returns (v: nat)
      requires n <= size
      modifies this
      ensures Step(v, State()) == ReadUint(old(State()), n, size)
    {
      var bytes := Read(n);
      v := LittleEndian(bytes);
    }

    /** `read_n_bytes<N>(source)`. */
    method ReadNBytesArray(n: nat) returns (buf: seq<byte>)
      modifies this
      ensures Step(buf, State()) == ReadArray(old(State()), n)
    {
      var bytes := Read(n);
      buf := bytes + Zeros(n - |bytes|);
    }

    /** `tellg()`: the position, or −1 when the stream is not good. */
    method Tell() returns (p: int)
      ensures p == if failed then -1 else pos
    {
      p := if failed then -1 else pos;
    }

    /** `seekg(p)`: ignored by a stream that is not good; a negative
        position fails. Positions past the end are allowed. */
    method Seek(p: int)
      modifies this
      ensures failed == (old(failed) || p < 0)
      ensures pos == if failed then old(pos) else p
    {
      if !failed {
        if p < 0 {
          failed := true;
        } else {
          pos := p;
        }
      }
    }

    /** `seekg(off, std::ios::cur)`. */
    method SeekRelative(off: int)
      modifies this
      ensures failed == (old(failed) || old(pos) + off < 0)
      ensures pos == if failed then old(pos) else old(pos) + off
    {
      Seek(pos + off);
    }

    /** `clear()`: back to the good state. */
    method Clear()
      modifies this
      ensures State() == old(State()).(failed := false)
    {
      failed := false;
    }
  }
}
