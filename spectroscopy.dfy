/** The spectroscopy-mode unpacker `bin_unpacker_spectroscopy`
    (citiroc_bin_unpacker_spectroscopy.hpp).

    Wire layout of one event: size(2) board(1) trigger timestamp(8)
    trigger id(8) channel mask(8) flags(2), then one hit per set bit of the
    channel mask, each channel(1) datatype(1), a low-gain PHA(2) when
    datatype bit 0x01 is set and a high-gain PHA(2) when bit 0x02 is set; all
    little-endian. A size of 0 ends the stream. */
module SpectroscopyUnpacker {
  import opened Bytes
  import opened Wrappers
  import opened Streams
  import opened Category

  /** One spectroscopy hit as `read_hit` decodes it: channel, datatype
      byte, and the optional low- and high-gain pulse heights. */
  datatype SpectroscopyHit = SpectroscopyHit(channel: byte, dataType: byte, lgpha: Option<int>, hgpha: Option<int>)

  const DefaultSpectroscopyHit := SpectroscopyHit(0, 0, None, None)

  /** The header fields `read_event` reads. */
  datatype SpectroscopyHeader = SpectroscopyHeader(
    evsize: nat, brd: nat, triggerTs: nat, triggerId: nat, chanMask: nat, flags: nat)

  datatype SpectroscopyEvent = SpectroscopyEvent(header: SpectroscopyHeader, hits: seq<SpectroscopyHit>)

  /** Datatype bit 0x01: the hit carries a low-gain PHA. */
  predicate HasLgPha(dataType: byte) {
    BitSet(dataType, 0)
  }

  /** Datatype bit 0x02: the hit carries a high-gain PHA. */
  predicate HasHgPha(dataType: byte) {
    BitSet(dataType, 1)
  }

  /** Bytes of a hit on the wire: 2, plus 2 for each pulse height present;
      the other bits of the datatype byte select nothing. */
  function HitSize(dataType: byte): nat {
    2 + (if HasLgPha(dataType) then 2 else 0) + (if HasHgPha(dataType) then 2 else 0)
  }

  /** A hit as `read_hit` can produce it: each pulse height present exactly
      when its flag bit is set, and within a uint16_t. */
  predicate WellFormedHit(h: SpectroscopyHit) {
    && (h.lgpha.Some? <==> HasLgPha(h.dataType))
    && (h.hgpha.Some? <==> HasHgPha(h.dataType))
    && (h.lgpha.Some? ==> 0 <= h.lgpha.value < 0x1_0000)
    && (h.hgpha.Some? ==> 0 <= h.hgpha.value < 0x1_0000)
  }

  /** An optional 2-byte pulse height, read when `present`. */
  function ReadPha(c: Cursor, present: bool): (r: Step<Option<int>>)
    ensures r.next.data == c.data
    ensures r.value.Some? <==> present
    ensures r.value.Some? ==> 0 <= r.value.value < 0x1_0000
    ensures c.failed ==> r.next == c
    ensures !r.next.failed ==> !c.failed && r.next.pos == c.pos + (if present then 2 else 0)
    ensures !r.next.failed && present ==> r.next.pos <= |c.data|
  {
    Pow256Values();
    if present then
      var raw := ReadUint(c, 2, 2);
      Step(Some(raw.value as int), raw.next)
    else Step(None, c)
  }

  /** The hit `read_hit` decodes from `c` (its reads only). */
  function DecodeHit(c: Cursor): (r: Step<SpectroscopyHit>)
    ensures r.next.data == c.data
    ensures WellFormedHit(r.value)
    ensures c.failed ==> r == Step(DefaultSpectroscopyHit, c)
    ensures !r.next.failed ==>
              && !c.failed
              && r.next.pos == c.pos + HitSize(r.value.dataType) <= |c.data|
              && r.value.channel == c.data[c.pos] && r.value.dataType == c.data[c.pos + 1]
  {
    Pow256Values();
    var channel := ReadUint(c, 1, 1);
    var dataType := ReadUint(channel.next, 1, 1);
    var lgpha := ReadPha(dataType.next, HasLgPha(dataType.value));
    var hgpha := ReadPha(lgpha.next, HasHgPha(dataType.value));
    Step(SpectroscopyHit(channel.value, dataType.value, lgpha.value, hgpha.value), hgpha.next)
  }

  /** Total wire size of a sequence of hits. */
  function HitsSize(hits: seq<SpectroscopyHit>): nat {
    if hits == [] then 0 else HitsSize(hits[..|hits| - 1]) + HitSize(hits[|hits| - 1].dataType)
  }

  /** The hits `read_event`'s loop decodes: `n` successive `read_hit`s. */
  function DecodeHits(c: Cursor, n: nat): (r: Step<seq<SpectroscopyHit>>)
    ensures |r.value| == n
    ensures r.next.data == c.data
    ensures forall i :: 0 <= i < n ==> WellFormedHit(r.value[i])
    ensures c.failed ==> r.next == c
    ensures !r.next.failed ==> !c.failed && r.next.pos == c.pos + HitsSize(r.value)
    ensures !r.next.failed && c.pos <= |c.data| ==> r.next.pos <= |c.data|
  {
    if n == 0 then Step([], c)
    else
      var prev := DecodeHits(c, n - 1);
      var hit := DecodeHit(prev.next);
      assert (prev.value + [hit.value])[..n - 1] == prev.value;
      Step(prev.value + [hit.value], hit.next)
  }

  /** A header within the widths of its wire fields. */
  predicate HeaderFits(h: SpectroscopyHeader) {
    && h.evsize < 0x1_0000 && h.brd < 0x100
    && h.triggerTs < 0x1_0000_0000_0000_0000 && h.triggerId < 0x1_0000_0000_0000_0000
    && h.chanMask < 0x1_0000_0000_0000_0000 && h.flags < 0x1_0000
  }

  /** A decoded event: a nonzero size, every header field within its width,
      and one hit per set bit of the 64-bit channel mask. */
  predicate WellFormedEvent(e: SpectroscopyEvent) {
    && 0 < e.header.evsize
    && HeaderFits(e.header)
    && |e.hits| == Popcount(e.header.chanMask, 64)
    && forall i :: 0 <= i < |e.hits| ==> WellFormedHit(e.hits[i])
  }

  /** The header fields `read_event` reads after the 2-byte size: board,
      trigger timestamp, trigger id, channel mask and flags (27 bytes). */
  function DecodeHeaderTail(c: Cursor, evsize: nat): (r: Step<SpectroscopyHeader>)
    ensures r.next.data == c.data
    ensures r.value.evsize == evsize
    ensures evsize < 0x1_0000 ==> HeaderFits(r.value)
    ensures c.failed ==> r.next == c
    ensures !r.next.failed ==> !c.failed && r.next.pos == c.pos + 27 <= |c.data|
  {
    Pow256Values();
    var brd := ReadUint(c, 1, 1);
    var ts := ReadUint(brd.next, 8, 8);
    var id := ReadUint(ts.next, 8, 8);
    var mask := ReadUint(id.next, 8, 8);
    var flags := ReadUint(mask.next, 2, 2);
    Step(SpectroscopyHeader(evsize, brd.value, ts.value, id.value, mask.value, flags.value), flags.next)
  }

  /** `read_event`'s reads: None when it returns false. The size is the only
      field checked; the hit count is the number of set bits of the mask,
      and the hits' channels are not compared with the mask's bits. */
  function DecodeEvent(c: Cursor): (r: Step<Option<SpectroscopyEvent>>)
    ensures r.next.data == c.data
    ensures r.value.None? <==> ReadUint(c, 2, 2).value == 0
    ensures r.value.None? ==> r.next == ReadUint(c, 2, 2).next
    ensures r.value.Some? ==> WellFormedEvent(r.value.value) && |r.value.value.hits| <= 64
    ensures r.value.Some? && !r.next.failed ==>
              !c.failed && r.next.pos == c.pos + 29 + HitsSize(r.value.value.hits) <= |c.data|
    ensures c.failed ==> r == Step(None, c)
  {
    Pow256Values();
    var evsize := ReadUint(c, 2, 2);
    if evsize.value == 0 then Step(None, evsize.next)
    else
      var header := DecodeHeaderTail(evsize.next, evsize.value);
      var hits := DecodeHits(header.next, Popcount(header.value.chanMask, 64));
      Step(Some(SpectroscopyEvent(header.value, hits.value)), hits.next)
  }

  /** The wire bytes of an optional pulse height. */
  function PhaBytes(pha: Option<int>): (s: seq<byte>)
    requires pha.Some? ==> 0 <= pha.value < 0x1_0000
    ensures |s| == if pha.Some? then 2 else 0
  {
    Pow256Values();
    if pha.Some? then ToLittleEndian(pha.value, 2) else []
  }

  lemma ReadPhaOfBytes(pha: Option<int>, present: bool, data: seq<byte>, p: nat)
    requires pha.Some? <==> present
    requires pha.Some? ==> 0 <= pha.value < 0x1_0000
    requires At(data, p, PhaBytes(pha))
    ensures ReadPha(Cursor(data, p, false), present) == Step(pha, Cursor(data, p + |PhaBytes(pha)|, false))
  {
    if pha.Some? {
      Pow256Values();
      ReadUintAt(Cursor(data, p, false), PhaBytes(pha), 2);
    }
  }

  /** The bytes of a hit on the wire; the inverse of DecodeHit. */
  function EncodeHit(h: SpectroscopyHit): (s: seq<byte>)
    requires WellFormedHit(h)
    ensures |s| == HitSize(h.dataType)
  {
    [h.channel, h.dataType] + PhaBytes(h.lgpha) + PhaBytes(h.hgpha)
  }

  /** Where the fields of an encoded hit lie. */
  lemma HitFieldsAt(h: SpectroscopyHit, data: seq<byte>, p: nat)
    requires WellFormedHit(h) && At(data, p, EncodeHit(h))
    ensures At(data, p, [h.channel, h.dataType])
    ensures At(data, p + 2, PhaBytes(h.lgpha))
    ensures At(data, p + 2 + |PhaBytes(h.lgpha)|, PhaBytes(h.hgpha))
  {
    var lg, hg := PhaBytes(h.lgpha), PhaBytes(h.hgpha);
    AtSplit(data, p, [h.channel, h.dataType] + lg, hg);
    AtSplit(data, p, [h.channel, h.dataType], lg);
  }

  /** Reading the channel and datatype bytes of an encoded hit. */
  lemma ReadHitPrefixOfBytes(h: SpectroscopyHit, c: Cursor)
    requires !c.failed && At(c.data, c.pos, [h.channel, h.dataType])
    ensures ReadUint(c, 1, 1) == Step(h.channel, c.(pos := c.pos + 1))
    ensures ReadUint(c.(pos := c.pos + 1), 1, 1) == Step(h.dataType, c.(pos := c.pos + 2))
  {
    AtSplit(c.data, c.pos, [h.channel], [h.dataType]);
    ReadUintAt(c, [h.channel], 1);
    ReadUintAt(c.(pos := c.pos + 1), [h.dataType], 1);
  }

  /** DecodeHit in terms of the outcome of its four reads. */
  lemma DecodeHitOfFields(c: Cursor, h: SpectroscopyHit, q: nat, next: Cursor)
    requires ReadUint(c, 1, 1) == Step(h.channel, c.(pos := c.pos + 1))
    requires ReadUint(c.(pos := c.pos + 1), 1, 1) == Step(h.dataType, c.(pos := c.pos + 2))
    requires ReadPha(c.(pos := c.pos + 2), HasLgPha(h.dataType)) == Step(h.lgpha, c.(pos := q))
    requires ReadPha(c.(pos := q), HasHgPha(h.dataType)) == Step(h.hgpha, next)
    ensures DecodeHit(c) == Step(h, next)
  {
  }

  /** Decoding the bytes of a hit gives the hit back and consumes exactly
      its wire size. */
  lemma DecodeEncodedHit(h: SpectroscopyHit, data: seq<byte>, p: nat)
    requires WellFormedHit(h) && At(data, p, EncodeHit(h))
    ensures DecodeHit(Cursor(data, p, false)) == Step(h, Cursor(data, p + HitSize(h.dataType), false))
  {
    var c := Cursor(data, p, false);
    var q := p + 2 + |PhaBytes(h.lgpha)|;
    HitFieldsAt(h, data, p);
    ReadHitPrefixOfBytes(h, c);
    ReadPhaOfBytes(h.lgpha, HasLgPha(h.dataType), data, p + 2);
    ReadPhaOfBytes(h.hgpha, HasHgPha(h.dataType), data, q);
    DecodeHitOfFields(c, h, q, c.(pos := q + |PhaBytes(h.hgpha)|));
  }

  function EncodeHits(hits: seq<SpectroscopyHit>): (s: seq<byte>)
    requires forall i :: 0 <= i < |hits| ==> WellFormedHit(hits[i])
    ensures |s| == HitsSize(hits)
  {
    if hits == [] then [] else EncodeHits(hits[..|hits| - 1]) + EncodeHit(hits[|hits| - 1])
  }

  lemma EncodeHitsSnoc(hits: seq<SpectroscopyHit>)
    requires hits != [] && forall i :: 0 <= i < |hits| ==> WellFormedHit(hits[i])
    ensures EncodeHits(hits) == EncodeHits(hits[..|hits| - 1]) + EncodeHit(hits[|hits| - 1])
    ensures HitsSize(hits) == HitsSize(hits[..|hits| - 1]) + HitSize(hits[|hits| - 1].dataType)
  {
  }

  lemma DecodeHitsStep(c: Cursor, n: nat, init: seq<SpectroscopyHit>, last: SpectroscopyHit, q: nat, q': nat)
    requires DecodeHits(c, n) == Step(init, Cursor(c.data, q, false))
    requires DecodeHit(Cursor(c.data, q, false)) == Step(last, Cursor(c.data, q', false))
    ensures DecodeHits(c, n + 1) == Step(init + [last], Cursor(c.data, q', false))
  {
  }

  /** Decoding the bytes of a run of hits gives them back. */
  lemma {:induction false} DecodeEncodedHits(hits: seq<SpectroscopyHit>, data: seq<byte>, p: nat)
    requires forall i :: 0 <= i < |hits| ==> WellFormedHit(hits[i])
    requires At(data, p, EncodeHits(hits))
    ensures DecodeHits(Cursor(data, p, false), |hits|) == Step(hits, Cursor(data, p + HitsSize(hits), false))
  {
    if hits != [] {
      var n := |hits| - 1;
      var init, last := hits[..n], hits[n];
      var q := p + HitsSize(init);
      var q' := q + HitSize(last.dataType);
      assert hits == init + [last];
      assert At(data, p, EncodeHits(init)) && At(data, q, EncodeHit(last)) && HitsSize(hits) == q' - p by {
        EncodeHitsSnoc(hits);
        AtSplit(data, p, EncodeHits(init), EncodeHit(last));
      }
      assert DecodeHits(Cursor(data, p, false), n) == Step(init, Cursor(data, q, false)) by {
        DecodeEncodedHits(init, data, p);
      }
      assert DecodeHit(Cursor(data, q, false)) == Step(last, Cursor(data, q', false)) by {
        DecodeEncodedHit(last, data, q);
      }
      DecodeHitsStep(Cursor(data, p, false), n, init, last, q, q');
    }
  }

  /** The 29 header bytes of an event. */
  function EncodeHeader(h: SpectroscopyHeader): (s: seq<byte>)
    requires HeaderFits(h)
    ensures |s| == 29
  {
    Pow256Values();
    ToLittleEndian(h.evsize, 2) + [h.brd] + ToLittleEndian(h.triggerTs, 8) + ToLittleEndian(h.triggerId, 8)
    + ToLittleEndian(h.chanMask, 8) + ToLittleEndian(h.flags, 2)
  }

  /** The bytes of an event on the wire. */
  function EncodeEvent(e: SpectroscopyEvent): (s: seq<byte>)
    requires WellFormedEvent(e)
    ensures |s| == 29 + HitsSize(e.hits)
  {
    EncodeHeader(e.header) + EncodeHits(e.hits)
  }

  /** Where the fields after the size lie in an encoded header. */
  lemma HeaderTailAt(h: SpectroscopyHeader, data: seq<byte>, p: nat)
    requires HeaderFits(h) && At(data, p, EncodeHeader(h)[2..])
    ensures At(data, p, [h.brd])
    ensures At(data, p + 1, ToLittleEndian(h.triggerTs, 8))
    ensures At(data, p + 9, ToLittleEndian(h.triggerId, 8))
    ensures At(data, p + 17, ToLittleEndian(h.chanMask, 8))
    ensures At(data, p + 25, ToLittleEndian(h.flags, 2))
  {
    Pow256Values();
    var brd, ts := [h.brd], ToLittleEndian(h.triggerTs, 8);
    var id, mask, flags := ToLittleEndian(h.triggerId, 8), ToLittleEndian(h.chanMask, 8), ToLittleEndian(h.flags, 2);
    assert EncodeHeader(h)[2..] == brd + ts + id + mask + flags;
    AtSplit(data, p, brd + ts + id + mask, flags);
    AtSplit(data, p, brd + ts + id, mask);
    AtSplit(data, p, brd + ts, id);
    AtSplit(data, p, brd, ts);
  }

  /** Reading the header fields after the size over their encoding gives
      them back. */
  lemma DecodeHeaderTailOfBytes(h: SpectroscopyHeader, c: Cursor)
    requires HeaderFits(h) && !c.failed && At(c.data, c.pos, EncodeHeader(h)[2..])
    ensures DecodeHeaderTail(c, h.evsize) == Step(h, c.(pos := c.pos + 27))
  {
    Pow256Values();
    var p := c.pos;
    HeaderTailAt(h, c.data, p);
    ReadUintAt(c, [h.brd], 1);
    ReadUintAt(c.(pos := p + 1), ToLittleEndian(h.triggerTs, 8), 8);
    ReadUintAt(c.(pos := p + 9), ToLittleEndian(h.triggerId, 8), 8);
    ReadUintAt(c.(pos := p + 17), ToLittleEndian(h.chanMask, 8), 8);
    ReadUintAt(c.(pos := p + 25), ToLittleEndian(h.flags, 2), 2);
  }

  /** DecodeEvent in terms of the outcome of its stages. */
  lemma DecodeEventOfFields(c: Cursor, e: SpectroscopyEvent, next: Cursor)
    requires e.header.evsize != 0
    requires ReadUint(c, 2, 2) == Step(e.header.evsize, c.(pos := c.pos + 2))
    requires DecodeHeaderTail(c.(pos := c.pos + 2), e.header.evsize) == Step(e.header, c.(pos := c.pos + 29))
    requires DecodeHits(c.(pos := c.pos + 29), Popcount(e.header.chanMask, 64)) == Step(e.hits, next)
    ensures DecodeEvent(c) == Step(Some(e), next)
  {
  }

  /** Decoding the bytes of an event gives the event back and consumes
      exactly its bytes. */
  lemma DecodeEncodedEvent(e: SpectroscopyEvent, data: seq<byte>, p: nat)
    requires WellFormedEvent(e) && At(data, p, EncodeEvent(e))
    ensures DecodeEvent(Cursor(data, p, false)) == Step(Some(e), Cursor(data, p + 29 + HitsSize(e.hits), false))
  {
    Pow256Values();
    var c := Cursor(data, p, false);
    var header := EncodeHeader(e.header);
    assert header == ToLittleEndian(e.header.evsize, 2) + header[2..];
    AtSplit(data, p, header, EncodeHits(e.hits));
    AtSplit(data, p, ToLittleEndian(e.header.evsize, 2), header[2..]);
    ReadUintAt(c, ToLittleEndian(e.header.evsize, 2), 2);
    DecodeHeaderTailOfBytes(e.header, c.(pos := p + 2));
    DecodeEncodedHits(e.hits, data, p + 29);
    DecodeEventOfFields(c, e, c.(pos := p + 29 + HitsSize(e.hits)));
  }

  /** The event's size field counts every byte of the event, itself
      included, as the frame scan of bin_source expects. */
  predicate Framed(e: SpectroscopyEvent)
    requires WellFormedEvent(e)
  {
    e.header.evsize == 29 + HitsSize(e.hits)
  }

  /** The events successive `read_event` calls return true for, up to the
      first call that returns false. */
  function DecodeAll(c: Cursor): seq<SpectroscopyEvent>
    decreases if c.failed then 0 else Available(c) + 1
  {
    var r := DecodeEvent(c);
    if r.value.None? then [] else [r.value.value] + DecodeAll(r.next)
  }

  /** What `read_hit` stores for a pulse height: the raw count, unscaled,
      or −1 when absent. */
  function StoredPha(pha: Option<int>): (v: int)
    ensures pha.None? ==> v == -1
    ensures pha.Some? ==> v == pha.value
  {
    match pha
    case None => -1
    case Some(x) => x
  }

  /** The category address a hit is routed to: the table entry of board 0
      and the hit's channel, whatever board the header names and whether or
      not the channel's bit is set in the mask. */
  function Route(lookup: Lookup, h: SpectroscopyHit): Address
    requires CoversBoardZero(lookup)
  {
    lookup[(0, h.channel)]
  }

  /** The category after `read_hit` files `h`: the record at the routed
      address (fetched, or made from `blank`) gets board = mod, channel =
      the raw channel, sipm = sipm and the two pulse heights. */
  function StoreHit(records: Records, lookup: Lookup, blank: SiPMRaw, h: SpectroscopyHit): (r: Records)
    requires CoversBoardZero(lookup)
    ensures r.Keys == records.Keys + {Route(lookup, h)}
    ensures forall a :: a in records && a != Route(lookup, h) ==> r[a] == records[a]
  {
    var a := Route(lookup, h);
    var obj := if a in records then records[a] else blank;
    records[a := obj.(board := a.0, channel := h.channel, sipm := a.1, lgpha := StoredPha(h.lgpha), hgpha := StoredPha(h.hgpha))]
  }

  function StoreHits(records: Records, lookup: Lookup, blank: SiPMRaw, hits: seq<SpectroscopyHit>): (r: Records)
    requires CoversBoardZero(lookup)
  {
    if hits == [] then records
    else StoreHit(StoreHits(records, lookup, blank, hits[..|hits| - 1]), lookup, blank, hits[|hits| - 1])
  }

  /** The record at an address is written by the LAST hit routed there:
      board = mod, channel = that hit's channel, sipm = sipm and its pulse
      heights. Its ToA and ToT are not written (HitsKeepTimes). */
  lemma {:induction false} LastHitWins(records: Records, lookup: Lookup, blank: SiPMRaw, hits: seq<SpectroscopyHit>, j: nat)
    requires CoversBoardZero(lookup)
    requires j < |hits|
    requires forall i :: j < i < |hits| ==> Route(lookup, hits[i]) != Route(lookup, hits[j])
    ensures var a := Route(lookup, hits[j]);
            var r := StoreHits(records, lookup, blank, hits);
            && a in r
            && r[a].board == a.0 && r[a].channel == hits[j].channel && r[a].sipm == a.1
            && r[a].lgpha == StoredPha(hits[j].lgpha) && r[a].hgpha == StoredPha(hits[j].hgpha)
  {
    var last := |hits| - 1;
    if j < last {
      LastHitWins(records, lookup, blank, hits[..last], j);
    }
  }

  /** `read_hit` never writes a record's ToA or ToT: every record holds the
      ToA and ToT it had before the hits, or those of the blank record when
      the hits created it. */
  lemma {:induction false} HitsKeepTimes(records: Records, lookup: Lookup, blank: SiPMRaw, hits: seq<SpectroscopyHit>, a: Address)
    requires CoversBoardZero(lookup)
    requires a in StoreHits(records, lookup, blank, hits)
    ensures var r := StoreHits(records, lookup, blank, hits)[a];
            var before := if a in records then records[a] else blank;
            r.toa == before.toa && r.tot == before.tot
  {
    if hits != [] {
      var prev := StoreHits(records, lookup, blank, hits[..|hits| - 1]);
      if a in prev {
        HitsKeepTimes(records, lookup, blank, hits[..|hits| - 1], a);
      } else {
        HitsNeverRemove(records, lookup, blank, hits[..|hits| - 1], a);
      }
    }
  }

  /** Filing hits never removes a record: an address absent after the hits
      was absent before them. */
  lemma {:induction false} HitsNeverRemove(records: Records, lookup: Lookup, blank: SiPMRaw, hits: seq<SpectroscopyHit>, a: Address)
    requires CoversBoardZero(lookup)
    requires a !in StoreHits(records, lookup, blank, hits)
    ensures a !in records
  {
    if hits != [] {
      HitsNeverRemove(records, lookup, blank, hits[..|hits| - 1], a);
    }
  }

  /** An address no hit is routed to keeps its record, or stays absent. */
  lemma {:induction false} UnroutedAddressUntouched(records: Records, lookup: Lookup, blank: SiPMRaw, hits: seq<SpectroscopyHit>, a: Address)
    requires CoversBoardZero(lookup)
    requires forall i :: 0 <= i < |hits| ==> Route(lookup, hits[i]) != a
    ensures a in StoreHits(records, lookup, blank, hits) <==> a in records
    ensures a in records ==> StoreHits(records, lookup, blank, hits)[a] == records[a]
  {
    if hits != [] {
      UnroutedAddressUntouched(records, lookup, blank, hits[..|hits| - 1], a);
    }
  }

  /** The spectroscopy-mode unpacker: its lookup table, the blank record the
      category makes for a new address, and the category's records. */
  class BinUnpackerSpectroscopy {
    const lookup: Lookup
    const blank: SiPMRaw
    var records: Records

    constructor (lookup: Lookup, blank: SiPMRaw, records: Records)
      ensures this.lookup == lookup && this.blank == blank && this.records == records
    {
      this.lookup := lookup;
      this.blank := blank;
      this.records := records;
    }

    /** `read_hit`: decode one hit and file it in the category. */
    method ReadHit(source: Stream)
      requires CoversBoardZero(lookup)
      modifies this, source
      ensures source.State() == DecodeHit(old(source.State())).next
      ensures records == StoreHit(old(records), lookup, blank, DecodeHit(old(source.State())).value)
    {
      var channel := source.ReadNBytes(1, 1);
      var dataType := source.ReadNBytes(1, 1);
      var lgpha: Option<int> := None;
      var hgpha: Option<int> := None;
      if HasLgPha(dataType) {
        var raw := source.ReadNBytes(2, 2);
        lgpha := Some(raw);
      }
      if HasHgPha(dataType) {
        var raw := source.ReadNBytes(2, 2);
        hgpha := Some(raw);
      }
      var a := lookup[(0, channel)];
      var obj := if a in records then records[a] else blank;
      obj := obj.(board := a.0, channel := channel, sipm := a.1);
      obj := obj.(lgpha := StoredPha(lgpha), hgpha := StoredPha(hgpha));
      records := records[a := obj];
    }

    /** `read_event`: false, after the 2-byte size, when the size is 0;
        otherwise the header and one hit per set mask bit are decoded and
        filed. */
    method ReadEvent(source: Stream) returns (ok: bool)
      requires CoversBoardZero(lookup)
      modifies this, source
      ensures var r := DecodeEvent(old(source.State()));
              && ok == r.value.Some?
              && source.State() == r.next
              && records == if ok then StoreHits(old(records), lookup, blank, r.value.value.hits) else old(records)
    {
      var evsize := source.ReadNBytes(2, 2);
      if evsize == 0 {
        return false;
      }
      var brd := source.ReadNBytes(1, 1);
      var triggerTs := source.ReadNBytes(8, 8);
      var triggerId := source.ReadNBytes(8, 8);
      var chanMask := source.ReadNBytes(8, 8);
      var nhits := Popcount(chanMask, 64);
      var flags := source.ReadNBytes(2, 2);
      ghost var start := source.State();
      ghost var before := records;
      for i := 0 to nhits
        invariant source.State() == DecodeHits(start, i).next
        invariant records == StoreHits(before, lookup, blank, DecodeHits(start, i).value)
      {
        ReadHit(source);
        assert DecodeHits(start, i + 1).value[..i] == DecodeHits(start, i).value;
      }
      return true;
    }

    /** `execute`: the event number, sequence number, subevent id and length
        are ignored. */
    method Execute(event: nat, seqNumber: nat, subevent: nat, source: Stream, length: nat) returns (ok: bool)
      requires CoversBoardZero(lookup)
      modifies this, source
      ensures var r := DecodeEvent(old(source.State()));
              && ok == r.value.Some?
              && source.State() == r.next
              && records == if ok then StoreHits(old(records), lookup, blank, r.value.value.hits) else old(records)
    {
      ok := ReadEvent(source);
    }
  }
}
