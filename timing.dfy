/** The timing-mode unpacker `bin_unpacker` (citiroc_bin_unpacker.hpp).

    Wire layout of one event: size(2) board(1) trigger timestamp(8)
    hit count(2), then that many hits, each channel(1) datatype(1), a ToA(4)
    when datatype bit 0x10 is set and a ToT(2) when bit 0x20 is set; all
    little-endian. A size of 0 ends the stream. */
module TimingUnpacker {
  import opened Bytes
  import opened Wrappers
  import opened Streams
  import opened CitirocTypes
  import opened Category

  /** Datatype bit 0x10: the hit carries a ToA. */
  predicate HasToa(dataType: byte) {
    BitSet(dataType, 4)
  }

  /** Datatype bit 0x20: the hit carries a ToT. */
  predicate HasTot(dataType: byte) {
    BitSet(dataType, 5)
  }

  /** Bytes of a hit on the wire, given its datatype byte: 2, plus 4 for a
      ToA, plus 2 for a ToT; the other bits of the byte select nothing. */
  function HitSize(dataType: byte): nat {
    2 + (if HasToa(dataType) then 4 else 0) + (if HasTot(dataType) then 2 else 0)
  }

  /** A hit as `read_hit` can produce it: ToA and ToT present exactly when
      their flag bits are set, ToA in the range of int, ToT of a uint16_t. */
  predicate WellFormedHit(h: TimingHit) {
    && (h.toa.Some? <==> HasToa(h.dataType))
    && (h.tot.Some? <==> HasTot(h.dataType))
    && (h.toa.Some? ==> -0x8000_0000 <= h.toa.value < 0x8000_0000)
    && (h.tot.Some? ==> 0 <= h.tot.value < 0x1_0000)
  }

  /** The optional ToA of a hit with datatype byte `dataType`: four bytes,
      converted to int, when bit 0x10 is set; nothing read otherwise. */
  function ReadToa(c: Cursor, dataType: byte): (r: Step<Option<int>>)
    ensures r.next.data == c.data
    ensures r.value.Some? <==> HasToa(dataType)
    ensures r.value.Some? ==> -0x8000_0000 <= r.value.value < 0x8000_0000
    ensures c.failed ==> r.next == c
    ensures !r.next.failed ==> !c.failed && r.next.pos == c.pos + (if r.value.Some? then 4 else 0)
    ensures !r.next.failed && r.value.Some? ==> r.next.pos <= |c.data|
  {
    Pow256Values();
    if HasToa(dataType) then
      var raw := ReadUint(c, 4, 4);
      Step(Some(AsInt32(raw.value)), raw.next)
    else Step(None, c)
  }

  /** The optional ToT of a hit: two bytes when bit 0x20 is set. */
  function ReadTot(c: Cursor, dataType: byte): (r: Step<Option<int>>)
    ensures r.next.data == c.data
    ensures r.value.Some? <==> HasTot(dataType)
    ensures r.value.Some? ==> 0 <= r.value.value < 0x1_0000
    ensures c.failed ==> r.next == c
    ensures !r.next.failed ==> !c.failed && r.next.pos == c.pos + (if r.value.Some? then 2 else 0)
    ensures !r.next.failed && r.value.Some? ==> r.next.pos <= |c.data|
  {
    Pow256Values();
    if HasTot(dataType) then
      var raw := ReadUint(c, 2, 2);
      Step(Some(raw.value as int), raw.next)
    else Step(None, c)
  }

  /** The hit `read_hit` decodes from `c` (its reads only). */
  function DecodeHit(c: Cursor): (r: Step<TimingHit>)
    ensures r.next.data == c.data
    ensures WellFormedHit(r.value)
    ensures c.failed ==> r == Step(DefaultTimingHit, c)
    ensures !r.next.failed ==>
              && !c.failed
              && r.next.pos == c.pos + HitSize(r.value.dataType) <= |c.data|
              && r.value.channel == c.data[c.pos] && r.value.dataType == c.data[c.pos + 1]
  {
    Pow256Values();
    var channel := ReadUint(c, 1, 1);
    var dataType := ReadUint(channel.next, 1, 1);
    var toa := ReadToa(dataType.next, dataType.value);
    var tot := ReadTot(toa.next, dataType.value);
    Step(TimingHit(channel.value, dataType.value, toa.value, tot.value), tot.next)
  }

  /** Total wire size of a sequence of hits. */
  function HitsSize(hits: seq<TimingHit>): nat {
    if hits == [] then 0 else HitsSize(hits[..|hits| - 1]) + HitSize(hits[|hits| - 1].dataType)
  }

  /** The hits `read_event`'s loop decodes: `n` successive `read_hit`s. */
  function DecodeHits(c: Cursor, n: nat): (r: Step<seq<TimingHit>>)
    ensures |r.value| == n
    ensures r.next.data == c.data
    ensures forall i :: 0 <= i < n ==> WellFormedHit(r.value[i])
    ensures c.failed ==> r.next == c
    ensures !r.next.failed ==> !c.failed && r.next.pos == c.pos + HitsSize(r.value)
    ensures !r.next.failed && c.pos <= |c.data| ==> r.next.pos <= |c.data|
  {
    if n == 0 then Step([], c)
    else
      var prev := DecodeHits(c, n - 1);
      var hit := DecodeHit(prev.next);
      assert (prev.value + [hit.value])[..n - 1] == prev.value;
      Step(prev.value + [hit.value], hit.next)
  }

  /** A decoded event: a nonzero size, every header field within its width,
      and exactly as many hits as the header announces. */
  predicate WellFormedEvent(e: Event<TimingHit>) {
    && 0 < e.header.evsize
    && HeaderFits(e.header)
    && |e.hits| == e.header.nhits
    && forall i :: 0 <= i < |e.hits| ==> WellFormedHit(e.hits[i])
  }

  /** `read_event`'s reads: None when it returns false. The size is the only
      field checked; neither it nor the stream state bounds what follows. */
  function DecodeEvent(c: Cursor): (r: Step<Option<Event<TimingHit>>>)
    ensures r.next.data == c.data
    ensures r.value.None? <==> ReadUint(c, 2, 2).value == 0
    ensures r.value.None? ==> r.next == ReadUint(c, 2, 2).next
    ensures r.value.Some? ==> WellFormedEvent(r.value.value)
    ensures r.value.Some? && !r.next.failed ==>
              !c.failed && r.next.pos == c.pos + 13 + HitsSize(r.value.value.hits) <= |c.data|
    ensures c.failed ==> r == Step(None, c)
  {
    Pow256Values();
    var evsize := ReadUint(c, 2, 2);
    if evsize.value == 0 then Step(None, evsize.next)
    else
      var brd := ReadUint(evsize.next, 1, 1);
      var trgts := ReadUint(brd.next, 8, 8);
      var nhits := ReadUint(trgts.next, 2, 2);
      var hits := DecodeHits(nhits.next, nhits.value);
      Step(Some(Event(EventHeader(evsize.value, brd.value, trgts.value, nhits.value), hits.value)), hits.next)
  }

  /** The wire bytes of an optional ToA: four, little-endian, of the uint32_t
      whose conversion to int is the ToA. */
  function ToaBytes(toa: Option<int>): (s: seq<byte>)
    requires toa.Some? ==> -0x8000_0000 <= toa.value < 0x8000_0000
    ensures |s| == if toa.Some? then 4 else 0
  {
    Pow256Values();
    if toa.Some? then ToLittleEndian(FromInt32(toa.value), 4) else []
  }

  /** The wire bytes of an optional ToT: two, little-endian. */
  function TotBytes(tot: Option<int>): (s: seq<byte>)
    requires tot.Some? ==> 0 <= tot.value < 0x1_0000
    ensures |s| == if tot.Some? then 2 else 0
  {
    Pow256Values();
    if tot.Some? then ToLittleEndian(tot.value, 2) else []
  }

  lemma ReadToaOfBytes(toa: Option<int>, dataType: byte, data: seq<byte>, p: nat)
    requires toa.Some? <==> HasToa(dataType)
    requires toa.Some? ==> -0x8000_0000 <= toa.value < 0x8000_0000
    requires At(data, p, ToaBytes(toa))
    ensures ReadToa(Cursor(data, p, false), dataType) == Step(toa, Cursor(data, p + |ToaBytes(toa)|, false))
  {
    if toa.Some? {
      Pow256Values();
      ReadUintAt(Cursor(data, p, false), ToaBytes(toa), 4);
    }
  }

  lemma ReadTotOfBytes(tot: Option<int>, dataType: byte, data: seq<byte>, p: nat)
    requires tot.Some? <==> HasTot(dataType)
    requires tot.Some? ==> 0 <= tot.value < 0x1_0000
    requires At(data, p, TotBytes(tot))
    ensures ReadTot(Cursor(data, p, false), dataType) == Step(tot, Cursor(data, p + |TotBytes(tot)|, false))
  {
    if tot.Some? {
      Pow256Values();
      ReadUintAt(Cursor(data, p, false), TotBytes(tot), 2);
    }
  }

  /** The bytes of a hit on the wire; the inverse of DecodeHit. */
  function EncodeHit(h: TimingHit): (s: seq<byte>)
    requires WellFormedHit(h)
    ensures |s| == HitSize(h.dataType)
  {
    [h.channel, h.dataType] + ToaBytes(h.toa) + TotBytes(h.tot)
  }

  /** Decoding the bytes of a hit gives the hit back and consumes exactly
      its wire size. */
  lemma DecodeEncodedHit(h: TimingHit, data: seq<byte>, p: nat)
    requires WellFormedHit(h) && At(data, p, EncodeHit(h))
    ensures DecodeHit(Cursor(data, p, false)) == Step(h, Cursor(data, p + HitSize(h.dataType), false))
  {
    var c := Cursor(data, p, false);
    var q := p + 2 + |ToaBytes(h.toa)|;
    HitFieldsAt(h, data, p);
    ReadHitPrefixOfBytes(h, c);
    ReadToaOfBytes(h.toa, h.dataType, data, p + 2);
    ReadTotOfBytes(h.tot, h.dataType, data, q);
    DecodeHitOfFields(c, h, q, c.(pos := q + |TotBytes(h.tot)|));
  }

  /** Where the fields of an encoded hit lie. */
  lemma HitFieldsAt(h: TimingHit, data: seq<byte>, p: nat)
    requires WellFormedHit(h) && At(data, p, EncodeHit(h))
    ensures At(data, p, [h.channel, h.dataType])
    ensures At(data, p + 2, ToaBytes(h.toa))
    ensures At(data, p + 2 + |ToaBytes(h.toa)|, TotBytes(h.tot))
  {
    var toa, tot := ToaBytes(h.toa), TotBytes(h.tot);
    AtSplit(data, p, [h.channel, h.dataType] + toa, tot);
    AtSplit(data, p, [h.channel, h.dataType], toa);
  }

  /** Reading the channel and datatype bytes of an encoded hit. */
  lemma ReadHitPrefixOfBytes(h: TimingHit, c: Cursor)
    requires !c.failed && At(c.data, c.pos, [h.channel, h.dataType])
    ensures ReadUint(c, 1, 1) == Step(h.channel, c.(pos := c.pos + 1))
    ensures ReadUint(c.(pos := c.pos + 1), 1, 1) == Step(h.dataType, c.(pos := c.pos + 2))
  {
    AtSplit(c.data, c.pos, [h.channel], [h.dataType]);
    ReadUintAt(c, [h.channel], 1);
    ReadUintAt(c.(pos := c.pos + 1), [h.dataType], 1);
  }

  /** DecodeHit in terms of the outcome of its four reads. */
  lemma DecodeHitOfFields(c: Cursor, h: TimingHit, q: nat, next: Cursor)
    requires ReadUint(c, 1, 1) == Step(h.channel, c.(pos := c.pos + 1))
    requires ReadUint(c.(pos := c.pos + 1), 1, 1) == Step(h.dataType, c.(pos := c.pos + 2))
    requires ReadToa(c.(pos := c.pos + 2), h.dataType) == Step(h.toa, c.(pos := q))
    requires ReadTot(c.(pos := q), h.dataType) == Step(h.tot, next)
    ensures DecodeHit(c) == Step(h, next)
  {
  }

  function EncodeHits(hits: seq<TimingHit>): (s: seq<byte>)
    requires forall i :: 0 <= i < |hits| ==> WellFormedHit(hits[i])
    ensures |s| == HitsSize(hits)
  {
    if hits == [] then [] else EncodeHits(hits[..|hits| - 1]) + EncodeHit(hits[|hits| - 1])
  }

  lemma {:induction false} DecodeEncodedHits(hits: seq<TimingHit>, data: seq<byte>, p: nat)
    requires forall i :: 0 <= i < |hits| ==> WellFormedHit(hits[i])
    requires At(data, p, EncodeHits(hits))
    ensures DecodeHits(Cursor(data, p, false), |hits|) == Step(hits, Cursor(data, p + HitsSize(hits), false))
  {
    if hits != [] {
      var n := |hits| - 1;
      var init, last := hits[..n], hits[n];
      var q := p + HitsSize(init);
      var q' := q + HitSize(last.dataType);
      assert hits == init + [last];
      assert At(data, p, EncodeHits(init)) && At(data, q, EncodeHit(last)) && HitsSize(hits) == q' - p by {
        EncodeHitsSnoc(hits);
        AtSplit(data, p, EncodeHits(init), EncodeHit(last));
      }
      assert DecodeHits(Cursor(data, p, false), n) == Step(init, Cursor(data, q, false)) by {
        DecodeEncodedHits(init, data, p);
      }
      assert DecodeHit(Cursor(data, q, false)) == Step(last, Cursor(data, q', false)) by {
        DecodeEncodedHit(last, data, q);
      }
      DecodeHitsStep(Cursor(data, p, false), n, init, last, q, q');
    }
  }

  lemma EncodeHitsSnoc(hits: seq<TimingHit>)
    requires hits != [] && forall i :: 0 <= i < |hits| ==> WellFormedHit(hits[i])
    ensures EncodeHits(hits) == EncodeHits(hits[..|hits| - 1]) + EncodeHit(hits[|hits| - 1])
    ensures HitsSize(hits) == HitsSize(hits[..|hits| - 1]) + HitSize(hits[|hits| - 1].dataType)
  {
  }

  lemma DecodeHitsStep(c: Cursor, n: nat, init: seq<TimingHit>, last: TimingHit, q: nat, q': nat)
    requires DecodeHits(c, n) == Step(init, Cursor(c.data, q, false))
    requires DecodeHit(Cursor(c.data, q, false)) == Step(last, Cursor(c.data, q', false))
    ensures DecodeHits(c, n + 1) == Step(init + [last], Cursor(c.data, q', false))
  {
  }

  /** A header within the widths of its wire fields. */
  predicate HeaderFits(h: EventHeader) {
    h.evsize < 0x1_0000 && h.brd < 0x100 && h.trgts < 0x1_0000_0000_0000_0000 && h.nhits < 0x1_0000
  }

  /** The 13 header bytes of an event: size(2) board(1) timestamp(8) hits(2). */
  function EncodeHeader(h: EventHeader): (s: seq<byte>)
    requires HeaderFits(h)
    ensures |s| == 13
  {
    Pow256Values();
    ToLittleEndian(h.evsize, 2) + [h.brd] + ToLittleEndian(h.trgts, 8) + ToLittleEndian(h.nhits, 2)
  }

  /** The bytes of an event on the wire. */
  function EncodeEvent(e: Event<TimingHit>): (s: seq<byte>)
    requires WellFormedEvent(e)
    ensures |s| == 13 + HitsSize(e.hits)
  {
    EncodeHeader(e.header) + EncodeHits(e.hits)
  }

  /** The event's size field counts every byte of the event, itself included,
      as the frame scan of bin_source expects. */
  predicate Framed(e: Event<TimingHit>)
    requires WellFormedEvent(e)
  {
    e.header.evsize == 13 + HitsSize(e.hits)
  }

  /** Reading the four header fields over their encoding gives them back. */
  lemma ReadHeaderOfBytes(h: EventHeader, c: Cursor)
    requires HeaderFits(h) && !c.failed && At(c.data, c.pos, EncodeHeader(h))
    ensures ReadUint(c, 2, 2) == Step(h.evsize, c.(pos := c.pos + 2))
    ensures ReadUint(c.(pos := c.pos + 2), 1, 1) == Step(h.brd, c.(pos := c.pos + 3))
    ensures ReadUint(c.(pos := c.pos + 3), 8, 8) == Step(h.trgts, c.(pos := c.pos + 11))
    ensures ReadUint(c.(pos := c.pos + 11), 2, 2) == Step(h.nhits, c.(pos := c.pos + 13))
  {
    Pow256Values();
    var size, brd := ToLittleEndian(h.evsize, 2), [h.brd];
    var ts, nh := ToLittleEndian(h.trgts, 8), ToLittleEndian(h.nhits, 2);
    var p := c.pos;
    assert EncodeHeader(h) == size + (brd + (ts + nh));
    ReadFieldAt(c, size, brd + (ts + nh));
    ReadFieldAt(c.(pos := p + 2), brd, ts + nh);
    ReadFieldAt(c.(pos := p + 3), ts, nh);
    ReadFieldAt(c.(pos := p + 11), nh, []);
  }

  /** Decoding the bytes of an event gives the event back and consumes
      exactly its bytes. */
  lemma DecodeEncodedEvent(e: Event<TimingHit>, data: seq<byte>, p: nat)
    requires WellFormedEvent(e) && At(data, p, EncodeEvent(e))
    ensures DecodeEvent(Cursor(data, p, false)) == Step(Some(e), Cursor(data, p + 13 + HitsSize(e.hits), false))
  {
    var c := Cursor(data, p, false);
    AtSplit(data, p, EncodeHeader(e.header), EncodeHits(e.hits));
    ReadHeaderOfBytes(e.header, c);
    DecodeEncodedHits(e.hits, data, p + 13);
    DecodeEventOfFields(c, e, c.(pos := p + 13 + HitsSize(e.hits)));
  }

  /** DecodeEvent in terms of the outcome of its five reads. */
  lemma DecodeEventOfFields(c: Cursor, e: Event<TimingHit>, next: Cursor)
    requires e.header.evsize != 0
    requires ReadUint(c, 2, 2) == Step(e.header.evsize, c.(pos := c.pos + 2))
    requires ReadUint(c.(pos := c.pos + 2), 1, 1) == Step(e.header.brd, c.(pos := c.pos + 3))
    requires ReadUint(c.(pos := c.pos + 3), 8, 8) == Step(e.header.trgts, c.(pos := c.pos + 11))
    requires ReadUint(c.(pos := c.pos + 11), 2, 2) == Step(e.header.nhits, c.(pos := c.pos + 13))
    requires DecodeHits(c.(pos := c.pos + 13), e.header.nhits) == Step(e.hits, next)
    ensures DecodeEvent(c) == Step(Some(e), next)
  {
  }

  /** The events successive `read_event` calls return true for, up to the
      first call that returns false. */
  function DecodeAll(c: Cursor): seq<Event<TimingHit>>
    decreases if c.failed then 0 else Available(c) + 1
  {
    var r := DecodeEvent(c);
    if r.value.None? then [] else [r.value.value] + DecodeAll(r.next)
  }

  /** What `read_hit` stores in SiPMRaw::toa: −1 when absent, otherwise the
      count halved (1 LSB = 0.5 ns), except that a count equal to −1 is kept
      as −1. */
  function StoredToa(toa: Option<int>): (t: real)
    ensures toa.None? ==> t == -1.0
    ensures toa == Some(-1) ==> t == -1.0
    ensures toa.Some? && toa.value != -1 ==> 2.0 * t == toa.value as real
  {
    var v := match toa case None => -1 case Some(x) => x;
    if v != -1 then v as real * 0.5 else -1.0
  }

  /** What `read_hit` stores in SiPMRaw::tot: −1 when absent, otherwise the
      count halved. */
  function StoredTot(tot: Option<int>): (t: real)
    ensures tot.None? ==> t == -1.0
    ensures tot.Some? && tot.value >= 0 ==> 2.0 * t == tot.value as real
  {
    var v := match tot case None => -1 case Some(x) => x;
    if v != -1 then v as real * 0.5 else -1.0
  }

  /** The category address a hit is routed to: the table entry of board 0
      and the hit's channel, whatever board the event header names. */
  function Route(lookup: Lookup, h: TimingHit): Address
    requires CoversBoardZero(lookup)
  {
    lookup[(0, h.channel)]
  }

  /** The category after `read_hit` files `h`: the record at the routed
      address (fetched, or made from `blank`) gets board = mod,
      channel = sipm and the stored ToA and ToT. */
  function StoreHit(records: Records, lookup: Lookup, blank: SiPMRaw, h: TimingHit): (r: Records)
    requires CoversBoardZero(lookup)
    ensures r.Keys == records.Keys + {Route(lookup, h)}
    ensures forall a :: a in records && a != Route(lookup, h) ==> r[a] == records[a]
  {
    var a := Route(lookup, h);
    var obj := if a in records then records[a] else blank;
    records[a := obj.(board := a.0, channel := a.1, toa := StoredToa(h.toa), tot := StoredTot(h.tot))]
  }

  function StoreHits(records: Records, lookup: Lookup, blank: SiPMRaw, hits: seq<TimingHit>): (r: Records)
    requires CoversBoardZero(lookup)
  {
    if hits == [] then records
    else StoreHit(StoreHits(records, lookup, blank, hits[..|hits| - 1]), lookup, blank, hits[|hits| - 1])
  }

  /** Every hit leaves a record at its address, and the record at an address
      is written by the LAST hit routed there: board = mod, channel = sipm
      and that hit's ToA and ToT. Its other fields are not written
      (HitsKeepOtherFields). */
  lemma {:induction false} LastHitWins(records: Records, lookup: Lookup, blank: SiPMRaw, hits: seq<TimingHit>, j: nat)
    requires CoversBoardZero(lookup)
    requires j < |hits|
    requires forall i :: j < i < |hits| ==> Route(lookup, hits[i]) != Route(lookup, hits[j])
    ensures var a := Route(lookup, hits[j]);
            var r := StoreHits(records, lookup, blank, hits);
            && a in r
            && r[a].board == a.0 && r[a].channel == a.1
            && r[a].toa == StoredToa(hits[j].toa) && r[a].tot == StoredTot(hits[j].tot)
  {
    var last := |hits| - 1;
    if j < last {
      LastHitWins(records, lookup, blank, hits[..last], j);
    }
  }

  /** `read_hit` never writes a record's sipm or pulse heights: every
      record holds those it had before the hits, or those of the blank
      record when the hits created it. */
  lemma {:induction false} HitsKeepOtherFields(records: Records, lookup: Lookup, blank: SiPMRaw, hits: seq<TimingHit>, a: Address)
    requires CoversBoardZero(lookup)
    requires a in StoreHits(records, lookup, blank, hits)
    ensures var r := StoreHits(records, lookup, blank, hits)[a];
            var before := if a in records then records[a] else blank;
            r.sipm == before.sipm && r.lgpha == before.lgpha && r.hgpha == before.hgpha
  {
    if hits != [] {
      var prev := StoreHits(records, lookup, blank, hits[..|hits| - 1]);
      if a in prev {
        HitsKeepOtherFields(records, lookup, blank, hits[..|hits| - 1], a);
      } else {
        HitsNeverRemove(records, lookup, blank, hits[..|hits| - 1], a);
      }
    }
  }

  /** Filing hits never removes a record: an address absent after the hits
      was absent before them. */
  lemma {:induction false} HitsNeverRemove(records: Records, lookup: Lookup, blank: SiPMRaw, hits: seq<TimingHit>, a: Address)
    requires CoversBoardZero(lookup)
    requires a !in StoreHits(records, lookup, blank, hits)
    ensures a !in records
  {
    if hits != [] {
      HitsNeverRemove(records, lookup, blank, hits[..|hits| - 1], a);
    }
  }

  /** An address no hit is routed to keeps its record, or stays absent. */
  lemma {:induction false} UnroutedAddressUntouched(records: Records, lookup: Lookup, blank: SiPMRaw, hits: seq<TimingHit>, a: Address)
    requires CoversBoardZero(lookup)
    requires forall i :: 0 <= i < |hits| ==> Route(lookup, hits[i]) != a
    ensures a in StoreHits(records, lookup, blank, hits) <==> a in records
    ensures a in records ==> StoreHits(records, lookup, blank, hits)[a] == records[a]
  {
    if hits != [] {
      UnroutedAddressUntouched(records, lookup, blank, hits[..|hits| - 1], a);
    }
  }

  /** The timing-mode unpacker: its lookup table, the blank record the
      category makes for a new address, and the category's records. */
  class BinUnpacker {
    const lookup: Lookup
    const blank: SiPMRaw
    var records: Records

    constructor (lookup: Lookup, blank: SiPMRaw, records: Records)
      ensures this.lookup == lookup && this.blank == blank && this.records == records
    {
      this.lookup := lookup;
      this.blank := blank;
      this.records := records;
    }

    /** `read_hit`: decode one hit and file it in the category. */
    method ReadHit(source: Stream)
      requires CoversBoardZero(lookup)
      modifies this, source
      ensures source.State() == DecodeHit(old(source.State())).next
      ensures records == StoreHit(old(records), lookup, blank, DecodeHit(old(source.State())).value)
    {
      Pow256Values();
      var channel := source.ReadNBytes(1, 1);
      var dataType := source.ReadNBytes(1, 1);
      var toa: Option<int> := None;
      var tot: Option<int> := None;
      if HasToa(dataType) {
        var raw := source.ReadNBytes(4, 4);
        toa := Some(AsInt32(raw));
      }
      if HasTot(dataType) {
        var raw := source.ReadNBytes(2, 2);
        tot := Some(raw);
      }
      var a := lookup[(0, channel)];
      var obj := if a in records then records[a] else blank;
      obj := obj.(board := a.0, channel := a.1);
      obj := obj.(toa := StoredToa(toa), tot := StoredTot(tot));
      records := records[a := obj];
    }

    /** `read_event`: false, after the 2-byte size, when the size is 0;
        otherwise the header and `nhits` hits are decoded and filed. */
    method ReadEvent(source: Stream) returns (ok: bool)
      requires CoversBoardZero(lookup)
      modifies this, source
      ensures var r := DecodeEvent(old(source.State()));
              && ok == r.value.Some?
              && source.State() == r.next
              && records == if ok then StoreHits(old(records), lookup, blank, r.value.value.hits) else old(records)
    {
      Pow256Values();
      var evsize := source.ReadNBytes(2, 2);
      if evsize == 0 {
        return false;
      }
      var brd := source.ReadNBytes(1, 1);
      var trgts := source.ReadNBytes(8, 8);
      var nhits := source.ReadNBytes(2, 2);
      ghost var start := source.State();
      ghost var before := records;
      for i := 0 to nhits
        invariant source.State() == DecodeHits(start, i).next
        invariant records == StoreHits(before, lookup, blank, DecodeHits(start, i).value)
      {
        ReadHit(source);
        assert DecodeHits(start, i + 1).value[..i] == DecodeHits(start, i).value;
      }
      return true;
    }

    /** `execute`: the event number, sequence number, subevent id and length
        are ignored. */
    method Execute(event: nat, seqNumber: nat, subevent: nat, source: Stream, length: nat) returns (ok: bool)
      requires CoversBoardZero(lookup)
      modifies this, source
      ensures var r := DecodeEvent(old(source.State()));
              && ok == r.value.Some?
              && source.State() == r.next
              && records == if ok then StoreHits(old(records), lookup, blank, r.value.value.hits) else old(records)
    {
      ok := ReadEvent(source);
    }
  }
}
