/** The data source `bin_source` (citiroc_bin_source.hpp and .cpp): the
    25-byte file header, opening a file, handing the stream to an unpacker
    and the frame-counting scan `get_n_events`.

    A file is its 25-byte header followed by event frames; the first two
    bytes of every frame hold the frame's whole length, those two bytes
    included. */
module BinSource {
  import opened Bytes
  import opened Wrappers
  import opened Streams
  import opened CitirocTypes
  import opened Category
  import TimingUnpacker
  import SpectroscopyUnpacker

  /** `std::byteswap(read_n_bytes<uint32_t>(3, source)) >> 8`. */
  function JanusRel(raw: nat): (v: nat)
    requires raw < Pow256(4)
    ensures v < 0x100_0000
  {
    Pow256Values();
    ByteSwap(raw, 4) / 256
  }

  /** `read_file_header`: nine reads, the first two byte-swapped. */
  function DecodeFileHeader(c: Cursor): (r: Step<FileHeader>)
    ensures r.next.data == c.data
    ensures r.value.Valid() && r.value.janusRel < 0x100_0000
    ensures c.failed ==> r.next == c
    ensures !r.next.failed <==> !c.failed && c.pos + 25 <= |c.data|
    ensures !r.next.failed ==> r.next.pos == c.pos + 25
  {
    Pow256Values();
    var firmware := ReadUint(c, 2, 2);
    var janus := ReadUint(firmware.next, 3, 4);
    var board := ReadUint(janus.next, 2, 2);
    var run := ReadUint(board.next, 2, 2);
    var acqMode := ReadUint(run.next, 1, 1);
    var nbins := ReadUint(acqMode.next, 2, 2);
    var unit := ReadUint(nbins.next, 1, 1);
    var lsb := ReadUint(unit.next, 4, 4);
    var timestamp := ReadUint(lsb.next, 8, 8);
    Pow256Monotone(3, 4);
    Step(FileHeader(ByteSwap(firmware.value, 2), JanusRel(janus.value), board.value, run.value,
                    acqMode.value, nbins.value, unit.value, lsb.value, timestamp.value),
         timestamp.next)
  }

  /** Three bytes read into a uint32_t, byte-swapped and shifted right by 8,
      are the three bytes read most significant first. */
  lemma JanusIsBigEndian(s: seq<byte>)
    requires |s| == 3
    ensures LittleEndian(s) < Pow256(4)
    ensures JanusRel(LittleEndian(s)) == BigEndian(s)
  {
    Pow256Values();
    var padded := s + Zeros(1);
    LittleEndianZeroPadded(s, 1);
    ByteSwapOfLittleEndian(padded);
    assert padded[..3] == s;
  }

  /** Reading `n` bytes at offset `off` of bytes `s` that the stream holds
      at its position. */
  lemma ReadField(c: Cursor, s: seq<byte>, off: nat, n: nat, size: nat)
    requires !c.failed && n <= size && off + n <= |s| && At(c.data, c.pos, s)
    ensures ReadUint(c.(pos := c.pos + off), n, size) == Step(LittleEndian(s[off..off + n]), c.(pos := c.pos + off + n))
  {
    AtSlice(c.data, c.pos, s, off, n);
    ReadUintAt(c.(pos := c.pos + off), s[off..off + n], size);
  }

  /** DecodeFileHeader in terms of the outcome of its nine reads. */
  lemma DecodeFileHeaderOfFields(c: Cursor, f0: nat, f1: nat, f2: nat, f3: nat, f4: nat, f5: nat, f6: nat, f7: nat, f8: nat)
    requires f0 < Pow256(2) && f1 < Pow256(4)
    requires ReadUint(c, 2, 2) == Step(f0, c.(pos := c.pos + 2))
    requires ReadUint(c.(pos := c.pos + 2), 3, 4) == Step(f1, c.(pos := c.pos + 5))
    requires ReadUint(c.(pos := c.pos + 5), 2, 2) == Step(f2, c.(pos := c.pos + 7))
    requires ReadUint(c.(pos := c.pos + 7), 2, 2) == Step(f3, c.(pos := c.pos + 9))
    requires ReadUint(c.(pos := c.pos + 9), 1, 1) == Step(f4, c.(pos := c.pos + 10))
    requires ReadUint(c.(pos := c.pos + 10), 2, 2) == Step(f5, c.(pos := c.pos + 12))
    requires ReadUint(c.(pos := c.pos + 12), 1, 1) == Step(f6, c.(pos := c.pos + 13))
    requires ReadUint(c.(pos := c.pos + 13), 4, 4) == Step(f7, c.(pos := c.pos + 17))
    requires ReadUint(c.(pos := c.pos + 17), 8, 8) == Step(f8, c.(pos := c.pos + 25))
    ensures DecodeFileHeader(c) == Step(FileHeader(ByteSwap(f0, 2), JanusRel(f1), f2, f3, f4, f5, f6, f7, f8),
                                        c.(pos := c.pos + 25))
  {
  }

  /** The reads of firmware version and JANUS release. */
  lemma VersionReadsAt(c: Cursor, s: seq<byte>)
    requires !c.failed && |s| == 25 && At(c.data, c.pos, s)
    ensures ReadUint(c, 2, 2) == Step(LittleEndian(s[0..2]), c.(pos := c.pos + 2))
    ensures ReadUint(c.(pos := c.pos + 2), 3, 4) == Step(LittleEndian(s[2..5]), c.(pos := c.pos + 5))
  {
    ReadField(c, s, 0, 2, 2);
    ReadField(c, s, 2, 3, 4);
  }

  /** The reads of board id and run. */
  lemma BoardReadsAt(c: Cursor, s: seq<byte>)
    requires !c.failed && |s| == 25 && At(c.data, c.pos, s)
    ensures ReadUint(c.(pos := c.pos + 5), 2, 2) == Step(LittleEndian(s[5..7]), c.(pos := c.pos + 7))
    ensures ReadUint(c.(pos := c.pos + 7), 2, 2) == Step(LittleEndian(s[7..9]), c.(pos := c.pos + 9))
  {
    ReadField(c, s, 5, 2, 2);
    ReadField(c, s, 7, 2, 2);
  }

  /** The reads of acquisition mode, histogram bins and time unit. */
  lemma ModeReadsAt(c: Cursor, s: seq<byte>)
    requires !c.failed && |s| == 25 && At(c.data, c.pos, s)
    ensures ReadUint(c.(pos := c.pos + 9), 1, 1) == Step(LittleEndian(s[9..10]), c.(pos := c.pos + 10))
    ensures ReadUint(c.(pos := c.pos + 10), 2, 2) == Step(LittleEndian(s[10..12]), c.(pos := c.pos + 12))
    ensures ReadUint(c.(pos := c.pos + 12), 1, 1) == Step(LittleEndian(s[12..13]), c.(pos := c.pos + 13))
  {
    ReadField(c, s, 9, 1, 1);
    ReadField(c, s, 10, 2, 2);
    ReadField(c, s, 12, 1, 1);
  }

  /** The reads of time LSB and run timestamp. */
  lemma TimeReadsAt(c: Cursor, s: seq<byte>)
    requires !c.failed && |s| == 25 && At(c.data, c.pos, s)
    ensures ReadUint(c.(pos := c.pos + 13), 4, 4) == Step(LittleEndian(s[13..17]), c.(pos := c.pos + 17))
    ensures ReadUint(c.(pos := c.pos + 17), 8, 8) == Step(LittleEndian(s[17..25]), c.(pos := c.pos + 25))
  {
    ReadField(c, s, 13, 4, 4);
    ReadField(c, s, 17, 8, 8);
  }

  /** The header's layout: firmware version and JANUS release big-endian,
      every other field little-endian, in the order firmware version (2
      bytes), JANUS release (3), board id (2), run (2), acquisition mode (1),
      histogram bins (2), time unit (1), time LSB (4) and run timestamp (8). */
  lemma FileHeaderLayout(c: Cursor, s: seq<byte>)
    requires !c.failed && |s| == 25 && At(c.data, c.pos, s)
    ensures DecodeFileHeader(c) == Step(
              FileHeader(BigEndian(s[0..2]), BigEndian(s[2..5]), LittleEndian(s[5..7]), LittleEndian(s[7..9]),
                         s[9], LittleEndian(s[10..12]), s[12], LittleEndian(s[13..17]), LittleEndian(s[17..25])),
              c.(pos := c.pos + 25))
  {
    VersionReadsAt(c, s);
    BoardReadsAt(c, s);
    ModeReadsAt(c, s);
    TimeReadsAt(c, s);
    JanusIsBigEndian(s[2..5]);
    ByteSwapOfLittleEndian(s[0..2]);
    DecodeFileHeaderOfFields(c, LittleEndian(s[0..2]), LittleEndian(s[2..5]), LittleEndian(s[5..7]), LittleEndian(s[7..9]),
      LittleEndian(s[9..10]), LittleEndian(s[10..12]), LittleEndian(s[12..13]), LittleEndian(s[13..17]),
      LittleEndian(s[17..25]));
    assert LittleEndian(s[9..10]) == s[9] && LittleEndian(s[12..13]) == s[12];
  }

  /** A file shorter than its header leaves the stream failed after
      `read_file_header`. */
  lemma ShortHeaderFails(data: seq<byte>)
    requires |data| < 25
    ensures DecodeFileHeader(Cursor(data, 0, false)).next.failed
  {
  }

  lemma BigEndianOfReversed(s: seq<byte>)
    ensures BigEndian(Reverse(s)) == LittleEndian(s)
  {
    BigEndianIsReversedLittleEndian(Reverse(s));
    assert Reverse(Reverse(s)) == s;
  }

  /** The 25 bytes of a header on disk. */
  function EncodeFileHeader(h: FileHeader): (s: seq<byte>)
    requires h.Valid() && h.janusRel < 0x100_0000
    ensures |s| == 25
  {
    Pow256Values();
    Reverse(ToLittleEndian(h.firmwareVer, 2)) + (Reverse(ToLittleEndian(h.janusRel, 3))
    + (ToLittleEndian(h.boardId, 2) + (ToLittleEndian(h.run, 2) + ([h.acqMode]
    + (ToLittleEndian(h.eHistsNbins, 2) + ([h.toaTotUnit] + (ToLittleEndian(h.timeLsb, 4)
    + ToLittleEndian(h.runTimestamp, 8))))))))
  }

  /** Where each field lies in the bytes of a header. */
  lemma EncodedFileHeaderFields(h: FileHeader)
    requires h.Valid() && h.janusRel < 0x100_0000
    ensures h.firmwareVer < Pow256(2) && h.janusRel < Pow256(3) && h.boardId < Pow256(2) && h.run < Pow256(2)
    ensures h.eHistsNbins < Pow256(2) && h.timeLsb < Pow256(4) && h.runTimestamp < Pow256(8)
    ensures var s := EncodeFileHeader(h);
      s[0..2] == Reverse(ToLittleEndian(h.firmwareVer, 2)) && s[2..5] == Reverse(ToLittleEndian(h.janusRel, 3)) &&
      s[5..7] == ToLittleEndian(h.boardId, 2) && s[7..9] == ToLittleEndian(h.run, 2) && s[9] == h.acqMode &&
      s[10..12] == ToLittleEndian(h.eHistsNbins, 2) && s[12] == h.toaTotUnit &&
      s[13..17] == ToLittleEndian(h.timeLsb, 4) && s[17..25] == ToLittleEndian(h.runTimestamp, 8)
  {
    Pow256Values();
    var s := EncodeFileHeader(h);
    var firmware, janus := Reverse(ToLittleEndian(h.firmwareVer, 2)), Reverse(ToLittleEndian(h.janusRel, 3));
    var board, run, mode := ToLittleEndian(h.boardId, 2), ToLittleEndian(h.run, 2), [h.acqMode];
    var nbins, unit := ToLittleEndian(h.eHistsNbins, 2), [h.toaTotUnit];
    var lsb, timestamp := ToLittleEndian(h.timeLsb, 4), ToLittleEndian(h.runTimestamp, 8);
    var r7 := lsb + timestamp;
    var r6 := unit + r7;
    var r5 := nbins + r6;
    var r4 := mode + r5;
    var r3 := run + r4;
    var r2 := board + r3;
    var r1 := janus + r2;
    assert s == firmware + r1;
    AtSplit(s, 0, firmware, r1);
    AtSplit(s, 2, janus, r2);
    AtSplit(s, 5, board, r3);
    AtSplit(s, 7, run, r4);
    AtSplit(s, 9, mode, r5);
    AtSplit(s, 10, nbins, r6);
    AtSplit(s, 12, unit, r7);
    AtSplit(s, 13, lsb, timestamp);
    assert s[9..10] == mode && s[12..13] == unit;
  }

  /** Decoding the bytes of a header gives the header back and leaves the
      stream good, just after it. */
  lemma DecodeEncodedFileHeader(h: FileHeader, data: seq<byte>, p: nat)
    requires h.Valid() && h.janusRel < 0x100_0000
    requires At(data, p, EncodeFileHeader(h))
    ensures DecodeFileHeader(Cursor(data, p, false)) == Step(h, Cursor(data, p + 25, false))
  {
    EncodedFileHeaderFields(h);
    FileHeaderLayout(Cursor(data, p, false), EncodeFileHeader(h));
    BigEndianOfReversed(ToLittleEndian(h.firmwareVer, 2));
    BigEndianOfReversed(ToLittleEndian(h.janusRel, 3));
  }

  /** `read_file_header` on a stream. */
  method ReadFileHeader(source: Stream) returns (h: FileHeader)
    modifies source
    ensures Step(h, source.State()) == DecodeFileHeader(old(source.State()))
  {
    Pow256Values();
    var firmware := source.ReadNBytes(2, 2);
    var janus := source.ReadNBytes(3, 4);
    var board := source.ReadNBytes(2, 2);
    var run := source.ReadNBytes(2, 2);
    var acqMode := source.ReadNBytes(1, 1);
    var nbins := source.ReadNBytes(2, 2);
    var unit := source.ReadNBytes(1, 1);
    var lsb := source.ReadNBytes(4, 4);
    var timestamp := source.ReadNBytes(8, 8);
    Pow256Monotone(3, 4);
    h := FileHeader(ByteSwap(firmware, 2), JanusRel(janus), board, run, acqMode, nbins, unit, lsb, timestamp);
  }

  /** `hwid = board_id << 16`: the board id in the upper half of a
      uint32_t. */
  function Hwid(boardId: nat): (hwid: nat)
    requires boardId < 0x1_0000
    ensures hwid < 0x1_0000_0000
    ensures hwid % 0x1_0000 == 0 && hwid / 0x1_0000 == boardId
  {
    boardId * 0x1_0000
  }

  // ---------------------------------------------------------------------
  // The frame scan of get_n_events

  /** Where the scan stands after `seekg(0)` and `read_file_header`. A
      stream that is not good ignores the seek and the reads. */
  function ScanStart(c: Cursor): Cursor {
    DecodeFileHeader(if c.failed then c else c.(pos := 0)).next
  }

  function ScanMeasure(c: Cursor): nat {
    if c.pos <= |c.data| then |c.data| - c.pos + 1 else 0
  }

  /** The size a frame starts with, as the scan's 2-byte `read_n_bytes`
      yields it; None when that read leaves the stream not good
      (FrameSizeIsRead). */
  function FrameSize(c: Cursor): (size: Option<nat>)
    ensures size.Some? ==> !c.failed && c.pos + 2 <= |c.data| && size.value < 0x1_0000
  {
    if !c.failed && c.pos + 2 <= |c.data| then Some(c.data[c.pos] as int + 256 * c.data[c.pos + 1] as int) else None
  }

  lemma FrameSizeIsRead(c: Cursor)
    ensures ReadUint(c, 2, 2).next.failed <==> FrameSize(c).None?
    ensures FrameSize(c).Some? ==> ReadUint(c, 2, 2) == Step(FrameSize(c).value, c.(pos := c.pos + 2))
  {
    if FrameSize(c).Some? {
      var s := c.data[c.pos..c.pos + 2];
      assert s[1..][1..] == [];
      assert LittleEndian(s) == c.data[c.pos] as int + 256 * c.data[c.pos + 1] as int;
    }
  }

  /** The scan as written, from `c`, comes to an end: it reads a 2-byte
      size, stops if that read fails, and otherwise moves `size` bytes on
      from where the size began (2 bytes read, then a relative seek of
      size − 2). It ends exactly when no size it meets before the end of
      the data is 0. */
  predicate ScanEnds(c: Cursor)
    decreases ScanMeasure(c)
  {
    var size := FrameSize(c);
    size.None? || (size.value != 0 && ScanEnds(c.(pos := c.pos + size.value)))
  }

  /** The number of frames the scan as written counts from `c`. */
  function ScanCount(c: Cursor): (n: nat)
    requires ScanEnds(c)
    decreases ScanMeasure(c)
  {
    var size := FrameSize(c);
    if size.None? then 0 else 1 + ScanCount(c.(pos := c.pos + size.value))
  }

  /** The number of frames before the end of the data or the first frame of
      size 0, whichever comes first: the events `read_event` returns true
      for when frames are well formed. */
  function CountFrames(c: Cursor): (n: nat)
    decreases ScanMeasure(c)
  {
    var size := FrameSize(c);
    if size.None? || size.value == 0 then 0 else 1 + CountFrames(c.(pos := c.pos + size.value))
  }

  /** One frame of nonzero size, for both scans: the scan as written ends
      from its start exactly when it ends from the next frame, and each scan
      counts one more frame than from the next frame. */
  lemma FrameStep(c: Cursor, size: nat)
    requires FrameSize(c) == Some(size) && size != 0
    ensures ScanEnds(c) <==> ScanEnds(c.(pos := c.pos + size))
    ensures ScanEnds(c) ==> ScanCount(c) == 1 + ScanCount(c.(pos := c.pos + size))
    ensures CountFrames(c) == 1 + CountFrames(c.(pos := c.pos + size))
    ensures ScanMeasure(c.(pos := c.pos + size)) < ScanMeasure(c)
  {
  }

  /** Where the scan as written ends, the corrected count agrees with it. */
  lemma {:induction false} CountFramesAgrees(c: Cursor)
    requires ScanEnds(c)
    ensures CountFrames(c) == ScanCount(c)
    decreases ScanMeasure(c)
  {
    var size := FrameSize(c);
    if size.Some? {
      CountFramesAgrees(c.(pos := c.pos + size.value));
    }
  }

  /** A frame whose size field is 0: the read yields 0 and leaves the
      stream good, and the relative seek of 0 − 2 that follows takes it back
      to where the size began, so the scan as written repeats the same step
      for ever. */
  lemma ScanLoopsOnZeroSize(c: Cursor)
    requires !c.failed && At(c.data, c.pos, [0, 0])
    ensures var r := ReadUint(c, 2, 2);
      && r.value == 0 && !r.next.failed
      && r.next.pos + (r.value - 2) >= 0 && r.next.(pos := r.next.pos + (r.value - 2)) == c
    ensures !ScanEnds(c)
  {
    FrameSizeIsRead(c);
  }

  /** `c` is at a run of frames of the given sizes, none of them 0. */
  predicate FramesAt(c: Cursor, sizes: seq<nat>)
    decreases |sizes|
  {
    sizes == [] ||
    (&& FrameSize(c) == Some(sizes[0]) && sizes[0] != 0
     && FramesAt(c.(pos := c.pos + sizes[0]), sizes[1..]))
  }

  /** Where a run of frames of the given sizes starting at `c` ends. */
  function FramesEnd(c: Cursor, sizes: seq<nat>): (end: Cursor)
    ensures end.data == c.data && end.failed == c.failed && end.pos >= c.pos
    decreases |sizes|
  {
    if sizes == [] then c else FramesEnd(c.(pos := c.pos + sizes[0]), sizes[1..])
  }

  /** A run of frames ends where the run after its first frame ends. */
  lemma FramesEndHead(c: Cursor, sizes: seq<nat>)
    requires sizes != []
    ensures FramesEnd(c, sizes) == FramesEnd(c.(pos := c.pos + sizes[0]), sizes[1..])
  {
  }

  /** Both scans step over a run of frames one frame at a time. */
  lemma {:induction false} ScanOverFrames(c: Cursor, sizes: seq<nat>)
    requires FramesAt(c, sizes)
    ensures ScanEnds(c) <==> ScanEnds(FramesEnd(c, sizes))
    ensures ScanEnds(c) ==> ScanCount(c) == |sizes| + ScanCount(FramesEnd(c, sizes))
    ensures CountFrames(c) == |sizes| + CountFrames(FramesEnd(c, sizes))
    decreases |sizes|
  {
    if sizes != [] {
      FrameStep(c, sizes[0]);
      ScanOverFrames(c.(pos := c.pos + sizes[0]), sizes[1..]);
    }
  }

  /** At the end of the data both scans count nothing. */
  lemma EndOfData(c: Cursor)
    requires !c.failed && c.pos == |c.data|
    ensures ScanEnds(c) && ScanCount(c) == 0 && CountFrames(c) == 0
  {
  }

  /** At a size-0 frame the corrected count counts nothing and the scan as
      written never ends. */
  lemma ZeroFrame(c: Cursor)
    requires !c.failed && At(c.data, c.pos, [0, 0])
    ensures CountFrames(c) == 0 && !ScanEnds(c)
  {
    ScanLoopsOnZeroSize(c);
  }

  /** Data that ends right after a run of nonzero frames: the scan as written
      ends, and both scans count the frames. */
  lemma ScanCountsFrames(c: Cursor, sizes: seq<nat>)
    requires !c.failed && FramesAt(c, sizes) && FramesEnd(c, sizes).pos == |c.data|
    ensures ScanEnds(c) && ScanCount(c) == |sizes| && CountFrames(c) == |sizes|
  {
    ScanOverFrames(c, sizes);
    EndOfData(FramesEnd(c, sizes));
  }

  /** A run of nonzero frames closed by a size-0 frame: the corrected count
      counts the frames and the scan as written never ends. */
  lemma SentinelAfterFrames(c: Cursor, sizes: seq<nat>)
    requires !c.failed && FramesAt(c, sizes) && At(c.data, FramesEnd(c, sizes).pos, [0, 0])
    ensures CountFrames(c) == |sizes| && !ScanEnds(c)
  {
    ScanOverFrames(c, sizes);
    ZeroFrame(FramesEnd(c, sizes));
  }

  /** A file that starts with the bytes of a header: wherever its stream
      stands, good, the scan starts right after the header. */
  lemma ScanStartAfterHeader(h: FileHeader, file: seq<byte>)
    requires h.Valid() && h.janusRel < 0x100_0000
    requires At(file, 0, EncodeFileHeader(h))
    ensures DecodeFileHeader(Cursor(file, 0, false)) == Step(h, Cursor(file, 25, false))
    ensures forall c: Cursor | c.data == file && !c.failed :: ScanStart(c) == Cursor(file, 25, false)
  {
    DecodeEncodedFileHeader(h, file, 0);
  }

  /** Framed sizes start with a frame of the first size. */
  lemma FramesAtHead(c: Cursor, sizes: seq<nat>)
    requires sizes != [] && FrameSize(c) == Some(sizes[0]) && sizes[0] != 0
    requires FramesAt(c.(pos := c.pos + sizes[0]), sizes[1..])
    ensures FramesAt(c, sizes)
  {
  }

  lemma ConsAppend<T>(x: T, xs: seq<T>, ys: seq<T>)
    ensures [x] + (xs + ys) == [x] + xs + ys
  {
  }

  lemma HeadTail<T>(xs: seq<T>)
    requires xs != []
    ensures xs == [xs[0]] + xs[1..]
  {
  }

  /** The unpacker `get_unpacker(vaddr)` hands the stream to. */
  datatype Unpacker =
    | Timing(t: TimingUnpacker.BinUnpacker)
    | Spectroscopy(s: SpectroscopyUnpacker.BinUnpackerSpectroscopy)
  {
    function Target(): object {
      match this
      case Timing(t) => t
      case Spectroscopy(s) => s
    }

    predicate Ready()
      reads Target()
    {
      match this
      case Timing(t) => CoversBoardZero(t.lookup)
      case Spectroscopy(s) => CoversBoardZero(s.lookup)
    }
  }

  /** The Citiroc data source. A header whose firmware version is nonzero
      marks the source as open. */
  class BinSource {
    var file: seq<char>
    var source: Stream
    var fheader: FileHeader
    var hwid: nat
    var vaddr: nat

    predicate IsOpen()
      reads this
    {
      fheader.firmwareVer > 0
    }

    /** A new source: no file, a stream with nothing to read, a zeroed
        header, hwid and vaddr 0; not open. */
    constructor ()
      ensures file == [] && fheader == DefaultFileHeader && hwid == 0 && vaddr == 0
      ensures fresh(source) && source.State() == Cursor([], 0, false)
      ensures !IsOpen()
    {
      file := [];
      source := new Stream([]);
      fheader := DefaultFileHeader;
      hwid := 0;
      vaddr := 0;
    }

    /** `set_input`: replaces the file name only. */
    method SetInput(path: seq<char>)
      modifies this`file
      ensures file == path
    {
      file := path;
    }

    /** `close`: nothing to do. */
    method Close() returns (ok: bool)
      ensures ok
    {
      ok := true;
    }

    /** `skip_to_event`: does nothing. */
    method SkipToEvent(newEvent: int)
      ensures unchanged(this, source)
    {
    }

    /** `open`. `contents` is what opening `file` yields: its bytes, or None
        when it cannot be opened; `getVaddr` is the framework's
        `get_vadrr`. An open source is left alone. Otherwise the stream is
        replaced; a file that cannot be opened leaves the header, hwid and
        vaddr as they were; an opened file has its header read, whatever
        its length, and hwid and vaddr derived from it. */
    method Open(contents: Option<seq<byte>>, getVaddr: nat -> nat) returns (ok: bool)
      modifies this
      ensures file == old(file)
      ensures old(IsOpen()) ==>
                && ok && source == old(source) && fheader == old(fheader)
                && hwid == old(hwid) && vaddr == old(vaddr)
      ensures !old(IsOpen()) && contents.None? ==>
                && !ok && fresh(source) && source.State() == Cursor([], 0, true)
                && fheader == old(fheader) && hwid == old(hwid) && vaddr == old(vaddr)
      ensures !old(IsOpen()) && contents.Some? ==>
                && ok && fresh(source)
                && var r := DecodeFileHeader(Cursor(contents.value, 0, false));
                && fheader == r.value && source.State() == r.next
                && hwid == Hwid(fheader.boardId) && vaddr == getVaddr(hwid) % 0x1_0000
    {
      if fheader.firmwareVer > 0 {
        ok := true;
      } else if contents.None? {
        source := new Stream.Unopened();
        ok := false;
      } else {
        var stream := new Stream(contents.value);
        var h := ReadFileHeader(stream);
        source := stream;
        fheader := h;
        hwid := Hwid(h.boardId);
        vaddr := getVaddr(hwid) % 0x1_0000;
        ok := true;
      }
    }

    /** `read_current_event`: the unpacker's `execute` on the stream, and
        its result. */
    method ReadCurrentEvent(unpacker: Unpacker, currentEvent: nat) returns (ok: bool)
      requires unpacker.Ready()
      modifies source, unpacker.Target()
      ensures unpacker.Timing? ==>
                var r := TimingUnpacker.DecodeEvent(old(source.State()));
                && ok == r.value.Some? && source.State() == r.next
                && unpacker.t.records == if ok then TimingUnpacker.StoreHits(
                     old(unpacker.t.records), unpacker.t.lookup, unpacker.t.blank, r.value.value.hits)
                   else old(unpacker.t.records)
      ensures unpacker.Spectroscopy? ==>
                var r := SpectroscopyUnpacker.DecodeEvent(old(source.State()));
                && ok == r.value.Some? && source.State() == r.next
                && unpacker.s.records == if ok then SpectroscopyUnpacker.StoreHits(
                     old(unpacker.s.records), unpacker.s.lookup, unpacker.s.blank, r.value.value.hits)
                   else old(unpacker.s.records)
    {
      match unpacker
      case Timing(t) =>
        ok := t.Execute(currentEvent, currentEvent, vaddr, source, 0);
      case Spectroscopy(s) =>
        ok := s.Execute(currentEvent, currentEvent, vaddr, source, 0);
    }

    /** `get_n_events` as written. It only returns when the scan ends (see
        ScanLoopsOnZeroSize); it then returns the number of frames after
        the header and leaves the stream exactly as it found it. */
    method GetNEvents() returns (n: nat)
      requires ScanEnds(ScanStart(source.State()))
      modifies source
      ensures n == ScanCount(ScanStart(old(source.State())))
      ensures source.State() == old(source.State())
    {
      ghost var entry := source.State();
      var curPos := source.Tell();
      source.Seek(0);
      var _ := ReadFileHeader(source);
      assert entry.failed ==> source.State() == entry;
      n := SkipFrames();
      source.Clear();
      source.Seek(curPos);
    }

    /** The loop of `get_n_events`: read a size, stop when the read fails,
        otherwise seek to the end of the frame and count it. */
    method SkipFrames() returns (n: nat)
      requires ScanEnds(source.State())
      modifies source
      ensures n == ScanCount(old(source.State()))
      ensures old(source.failed) ==> source.State() == old(source.State())
    {
      ghost var entry := source.State();
      n := 0;
      while true
        invariant ScanEnds(source.State())
        invariant n + ScanCount(source.State()) == ScanCount(entry)
        invariant entry.failed ==> source.State() == entry
        decreases ScanMeasure(source.State())
      {
        ghost var c := source.State();
        var evsize := source.ReadNBytes(2, 2);
        FrameSizeIsRead(c);
        if source.failed {
          break;
        }
        assert evsize != 0;
        FrameStep(c, evsize);
        ghost var next := c.(pos := c.pos + evsize);
        source.SeekRelative(evsize as int - 2);
        assert source.State() == next;
        n := n + 1;
      }
    }

    /** The scan as it is evidently meant: a frame of size 0 ends it, as it
        ends the stream for `read_event`. */
    method CountEvents() returns (n: nat)
      modifies source
      ensures n == CountFrames(ScanStart(old(source.State())))
      ensures source.State() == old(source.State())
    {
      ghost var entry := source.State();
      var curPos := source.Tell();
      source.Seek(0);
      var _ := ReadFileHeader(source);
      assert entry.failed ==> source.State() == entry;
      n := SkipFramesToSentinel();
      source.Clear();
      source.Seek(curPos);
    }

    /** The corrected loop: it also stops at a size of 0. */
    method SkipFramesToSentinel() returns (n: nat)
      modifies source
      ensures n == CountFrames(old(source.State()))
      ensures old(source.failed) ==> source.State() == old(source.State())
    {
      ghost var entry := source.State();
      n := 0;
      while true
        invariant n + CountFrames(source.State()) == CountFrames(entry)
        invariant entry.failed ==> source.State() == entry
        decreases ScanMeasure(source.State())
      {
        ghost var c := source.State();
        var evsize := source.ReadNBytes(2, 2);
        FrameSizeIsRead(c);
        if source.failed || evsize == 0 {
          break;
        }
        FrameStep(c, evsize);
        ghost var next := c.(pos := c.pos + evsize);
        source.SeekRelative(evsize as int - 2);
        assert source.State() == next;
        n := n + 1;
      }
    }
  }
}
