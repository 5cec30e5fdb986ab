/** The plain records of citiroc_types.hpp. Integer fields are unbounded
    here; the decoder's contracts state the bound each field's width puts on
    a decoded value. */
module CitirocTypes {
  import opened Bytes
  import opened Wrappers

  /** One timing-mode hit: channel, datatype byte, and the optional ToA
      (as the int a uint32_t count converts to) and ToT. */
  datatype TimingHit = TimingHit(channel: byte, dataType: byte, toa: Option<int>, tot: Option<int>)

  const DefaultTimingHit := TimingHit(0, 0, None, None)

  datatype EventHeader = EventHeader(evsize: nat, brd: nat, trgts: nat, nhits: nat)

  const DefaultEventHeader := EventHeader(0, 0, 0, 0)

  /** `event<T>`: a header and its hits. `prepare_hits` only reserves
      capacity, which a value does not have. */
  datatype Event<T> = Event(header: EventHeader, hits: seq<T>)

  datatype FileHeader = FileHeader(
    firmwareVer: nat,
    janusRel: nat,
    boardId: nat,
    run: nat,
    acqMode: nat,
    eHistsNbins: nat,
    toaTotUnit: nat,
    timeLsb: nat,
    runTimestamp: nat)
  {
    /** Every field within its declared width. */
    predicate Valid() {
      && firmwareVer < 0x1_0000
      && janusRel < 0x1_0000_0000
      && boardId < 0x1_0000
      && run < 0x1_0000
      && acqMode < 0x100
      && eHistsNbins < 0x1_0000
      && toaTotUnit < 0x100
      && timeLsb < 0x1_0000_0000
      && runTimestamp < 0x1_0000_0000_0000_0000
    }
  }

  const DefaultFileHeader := FileHeader(0, 0, 0, 0, 0, 0, 0, 0, 0)
}
