/** A spectroscopy-mode data file read end to end: the 25-byte file header,
    then event frames written one behind the other, as `get_n_events` counts
    them (citiroc_bin_source.cpp) and as `read_event` decodes them
    (citiroc_bin_unpacker_spectroscopy.hpp). */
module SpectroscopyRuns {
  import opened Bytes
  import opened Wrappers
  import opened Streams
  import opened CitirocTypes
  import opened BinSource
  import opened SpectroscopyUnpacker

  /** A spectroscopy event `read_event` can decode whose size field is the length
      of its frame. */
  predicate FramedEvent(e: SpectroscopyEvent) {
    WellFormedEvent(e) && Framed(e)
  }

  /** From `c` on, the data holds the frames of `events` one right behind
      the other: the bytes of a file body written event by event. */
  predicate RunAt(c: Cursor, events: seq<SpectroscopyEvent>)
    decreases |events|
  {
    events == [] ||
    (&& FramedEvent(events[0])
     && At(c.data, c.pos, EncodeEvent(events[0]))
     && RunAt(c.(pos := c.pos + events[0].header.evsize), events[1..]))
  }

  /** Where a run of events starting at `c` ends. */
  function RunEnd(c: Cursor, events: seq<SpectroscopyEvent>): (end: Cursor)
    ensures end.data == c.data && end.failed == c.failed && end.pos >= c.pos
    decreases |events|
  {
    if events == [] then c else RunEnd(c.(pos := c.pos + events[0].header.evsize), events[1..])
  }

  lemma RunEndCons(c: Cursor, events: seq<SpectroscopyEvent>)
    requires events != []
    ensures RunEnd(c, events) == RunEnd(c.(pos := c.pos + events[0].header.evsize), events[1..])
  {
  }

  /** The frame sizes of a run of events. */
  function Sizes(events: seq<SpectroscopyEvent>): (sizes: seq<nat>)
    ensures |sizes| == |events|
    decreases |events|
  {
    if events == [] then [] else [events[0].header.evsize] + Sizes(events[1..])
  }

  /** The first size is the first event's, the others are the rest's. */
  lemma SizesHeadTail(events: seq<SpectroscopyEvent>)
    requires events != []
    ensures Sizes(events)[0] == events[0].header.evsize && Sizes(events)[1..] == Sizes(events[1..])
  {
  }

  /** The frames of a run end where the frames of its rest end. */
  lemma FramesEndSizes(c: Cursor, events: seq<SpectroscopyEvent>)
    requires events != []
    ensures FramesEnd(c, Sizes(events)) == FramesEnd(c.(pos := c.pos + events[0].header.evsize), Sizes(events[1..]))
  {
    SizesHeadTail(events);
    FramesEndHead(c, Sizes(events));
  }

  /** The size field of one framed event at `c` is its length. */
  lemma FrameSizeAt(e: SpectroscopyEvent, c: Cursor)
    requires FramedEvent(e) && !c.failed && At(c.data, c.pos, EncodeEvent(e))
    ensures |EncodeEvent(e)| == e.header.evsize > 0
    ensures FrameSize(c) == Some(e.header.evsize)
  {
    Pow256Values();
    var size := ToLittleEndian(e.header.evsize, 2);
    var enc := EncodeEvent(e);
    assert enc == size + enc[2..] by {
      assert EncodeHeader(e.header)[..2] == size;
    }
    AtSplit(c.data, c.pos, size, enc[2..]);
    ReadUintAt(c, size, 2);
    FrameSizeIsRead(c);
  }

  /** One framed event at `c` decodes back, and the frame after it starts
      right behind it. */
  lemma FramedEventAt(e: SpectroscopyEvent, c: Cursor)
    requires FramedEvent(e) && !c.failed && At(c.data, c.pos, EncodeEvent(e))
    ensures DecodeEvent(c) == Step(Some(e), c.(pos := c.pos + e.header.evsize))
  {
    FrameSizeAt(e, c);
    DecodeEncodedEvent(e, c.data, c.pos);
  }

  /** The frames of a run of framed events are a run of nonzero frames of
      their sizes, ending where the run ends. */
  lemma {:induction false} FramesOfRun(c: Cursor, events: seq<SpectroscopyEvent>)
    requires !c.failed && RunAt(c, events)
    ensures FramesAt(c, Sizes(events))
    ensures FramesEnd(c, Sizes(events)) == RunEnd(c, events)
    decreases |events|
  {
    if events != [] {
      FrameSizeAt(events[0], c);
      FramesOfRun(c.(pos := c.pos + events[0].header.evsize), events[1..]);
      FramesAtStep(c, events);
      FramesEndStep(c, events);
    }
  }

  /** A first frame of the first event's size, then the frames of the rest
      of the run. */
  lemma FramesAtStep(c: Cursor, events: seq<SpectroscopyEvent>)
    requires events != [] && events[0].header.evsize != 0 && FrameSize(c) == Some(events[0].header.evsize)
    requires FramesAt(c.(pos := c.pos + events[0].header.evsize), Sizes(events[1..]))
    ensures FramesAt(c, Sizes(events))
  {
    SizesHeadTail(events);
    FramesAtHead(c, Sizes(events));
  }

  /** The frames of a run end where the run ends. */
  lemma FramesEndStep(c: Cursor, events: seq<SpectroscopyEvent>)
    requires events != []
    requires var next := c.(pos := c.pos + events[0].header.evsize);
      FramesEnd(next, Sizes(events[1..])) == RunEnd(next, events[1..])
    ensures FramesEnd(c, Sizes(events)) == RunEnd(c, events)
  {
    FramesEndSizes(c, events);
    RunEndCons(c, events);
  }

  /** `c` is at a run of events that read_event decodes one after another,
      each `evsize` bytes long. */
  predicate EventsAt(c: Cursor, events: seq<SpectroscopyEvent>)
    decreases |events|
  {
    events == [] ||
    (&& DecodeEvent(c) == Step(Some(events[0]), c.(pos := c.pos + events[0].header.evsize))
     && EventsAt(c.(pos := c.pos + events[0].header.evsize), events[1..]))
  }

  /** read_event's sequence of events, one event on. */
  lemma DecodeAllStep(c: Cursor, e: SpectroscopyEvent, next: Cursor)
    requires DecodeEvent(c) == Step(Some(e), next)
    ensures DecodeAll(c) == [e] + DecodeAll(next)
  {
  }

  lemma DecodeAllCons(c: Cursor, e: SpectroscopyEvent, next: Cursor, rest: seq<SpectroscopyEvent>, end: Cursor)
    requires DecodeEvent(c) == Step(Some(e), next)
    requires DecodeAll(next) == rest + DecodeAll(end)
    ensures DecodeAll(c) == [e] + rest + DecodeAll(end)
  {
    DecodeAllStep(c, e, next);
    ConsAppend(e, rest, DecodeAll(end));
  }

  /** The first event of a run, then the rest of the run. */
  lemma DecodeOverEventsStep(c: Cursor, events: seq<SpectroscopyEvent>)
    requires events != [] && EventsAt(c, events)
    requires var next := c.(pos := c.pos + events[0].header.evsize);
      DecodeAll(next) == events[1..] + DecodeAll(RunEnd(next, events[1..]))
    ensures DecodeAll(c) == events + DecodeAll(RunEnd(c, events))
  {
    var next := c.(pos := c.pos + events[0].header.evsize);
    var end := RunEnd(c, events);
    assert end == RunEnd(next, events[1..]);
    DecodeAllCons(c, events[0], next, events[1..], end);
    HeadTail(events);
  }

  /** read_event returns a run of decodable events in order. */
  lemma {:induction false} DecodeOverEvents(c: Cursor, events: seq<SpectroscopyEvent>)
    requires EventsAt(c, events)
    ensures DecodeAll(c) == events + DecodeAll(RunEnd(c, events))
    decreases |events|
  {
    if events != [] {
      DecodeOverEvents(c.(pos := c.pos + events[0].header.evsize), events[1..]);
      DecodeOverEventsStep(c, events);
    }
  }

  /** read_event decodes the frames of a run of framed events back. */
  lemma {:induction false} EventsOfRun(c: Cursor, events: seq<SpectroscopyEvent>)
    requires !c.failed && RunAt(c, events)
    ensures EventsAt(c, events)
    decreases |events|
  {
    if events != [] {
      FramedEventAt(events[0], c);
      EventsOfRun(c.(pos := c.pos + events[0].header.evsize), events[1..]);
    }
  }

  /** At the end of the data, or at a size-0 frame, read_event returns
      false. */
  lemma NoEventAt(c: Cursor)
    requires !c.failed && (c.pos == |c.data| || At(c.data, c.pos, [0, 0]))
    ensures DecodeAll(c) == []
  {
    FrameSizeIsRead(c);
  }

  /** A file body that is exactly a run of framed events: the scan as
      written ends and counts them, and so does the corrected one. */
  lemma ScanCountsRun(c: Cursor, events: seq<SpectroscopyEvent>)
    requires !c.failed && RunAt(c, events) && RunEnd(c, events).pos == |c.data|
    ensures ScanEnds(c) && ScanCount(c) == |events| && CountFrames(c) == |events|
  {
    FramesOfRun(c, events);
    ScanCountsFrames(c, Sizes(events));
  }

  /** A file body that is exactly a run of framed events: read_event
      returns them in order, then returns false. */
  lemma DecodesRun(c: Cursor, events: seq<SpectroscopyEvent>)
    requires !c.failed && RunAt(c, events) && RunEnd(c, events).pos == |c.data|
    ensures DecodeAll(c) == events
  {
    EventsOfRun(c, events);
    DecodeOverEvents(c, events);
    NoEventAt(RunEnd(c, events));
  }

  /** A run of framed events closed by a size-0 frame: the corrected count
      counts the events and the scan as written never ends. */
  lemma SentinelAfterRun(c: Cursor, events: seq<SpectroscopyEvent>)
    requires !c.failed && RunAt(c, events) && At(c.data, RunEnd(c, events).pos, [0, 0])
    ensures CountFrames(c) == |events| && !ScanEnds(c)
  {
    FramesOfRun(c, events);
    SentinelAfterFrames(c, Sizes(events));
  }

  /** A run of framed events closed by a size-0 frame: read_event returns
      the events and then false. */
  lemma DecodesRunBeforeSentinel(c: Cursor, events: seq<SpectroscopyEvent>)
    requires !c.failed && RunAt(c, events) && At(c.data, RunEnd(c, events).pos, [0, 0])
    ensures DecodeAll(c) == events
  {
    EventsOfRun(c, events);
    DecodeOverEvents(c, events);
    NoEventAt(RunEnd(c, events));
  }

  /** A whole file: the bytes of header `h`, then the frames of `events` up
      to the end of the file. Opening it reads `h` and leaves the stream
      right after it; from any good position the count as written and the
      corrected count are |events|; read_event then returns the events in
      order, then false. */
  lemma ReadsFile(h: FileHeader, file: seq<byte>, events: seq<SpectroscopyEvent>)
    requires h.Valid() && h.janusRel < 0x100_0000
    requires At(file, 0, EncodeFileHeader(h))
    requires RunAt(Cursor(file, 25, false), events) && RunEnd(Cursor(file, 25, false), events).pos == |file|
    ensures DecodeFileHeader(Cursor(file, 0, false)) == Step(h, Cursor(file, 25, false))
    ensures forall c: Cursor | c.data == file && !c.failed ::
              ScanEnds(ScanStart(c)) && ScanCount(ScanStart(c)) == |events| && CountFrames(ScanStart(c)) == |events|
    ensures DecodeAll(Cursor(file, 25, false)) == events
  {
    ScanStartAfterHeader(h, file);
    ScanCountsRun(Cursor(file, 25, false), events);
    DecodesRun(Cursor(file, 25, false), events);
  }

  /** A whole file whose events are closed by a size-0 frame: the corrected
      count is |events| from any good position, the count as written never
      ends, and read_event returns the events, then false. */
  lemma ReadsFileBeforeSentinel(h: FileHeader, file: seq<byte>, events: seq<SpectroscopyEvent>)
    requires h.Valid() && h.janusRel < 0x100_0000
    requires At(file, 0, EncodeFileHeader(h))
    requires RunAt(Cursor(file, 25, false), events) && At(file, RunEnd(Cursor(file, 25, false), events).pos, [0, 0])
    ensures DecodeFileHeader(Cursor(file, 0, false)) == Step(h, Cursor(file, 25, false))
    ensures forall c: Cursor | c.data == file && !c.failed ::
              CountFrames(ScanStart(c)) == |events| && !ScanEnds(ScanStart(c))
    ensures DecodeAll(Cursor(file, 25, false)) == events
  {
    ScanStartAfterHeader(h, file);
    SentinelAfterRun(Cursor(file, 25, false), events);
    DecodesRunBeforeSentinel(Cursor(file, 25, false), events);
  }
}
