# Citiroc binary decoder, modelled in Dafny

This project models the part of the SABAT framework that reads binary data
files written by a CAEN Citiroc (JANUS) acquisition:

- `bin_source` opens a file, reads its 25-byte file header and derives the
  board's hardware id and virtual address. It hands the stream to an
  unpacker once per event. Its private `get_n_events` counts the event
  frames by skipping over them.
- `bin_unpacker` (timing mode) and `bin_unpacker_spectroscopy` read one
  event each: a 2-byte size (0 ends the stream), the event header, then the
  hits. Timing hits carry an optional ToA and ToT. Spectroscopy hits carry
  optional low- and high-gain pulse heights. Each hit is routed through a
  lookup table to a `SiPMRaw` record of the output category and written
  there.
- `read_n_bytes` reads `n` bytes of a stream into a zero-initialised array
  or integer.

Files:

| file | module | contents |
|---|---|---|
| bytes.dfy | `Bytes` | little- and big-endian values, `std::byteswap`, uint32 to int conversion, flag bits, population count |
| wrappers.dfy | `Wrappers` | `Option` |
| streams.dfy | `Streams` | the input stream: the pure step functions `Extract`, `ReadUint` and `ReadArray` on a `Cursor`, and the class `Stream` whose methods (`read`, `read_n_bytes`, `tellg`, `seekg`, `clear`) update it in place |
| types.dfy | `CitirocTypes` | `timing_hit`, `event_header`, `event`, `file_header` |
| category.dfy | `Category` | the lookup table and the `SiPMRaw` record |
| timing.dfy | `TimingUnpacker` | decoding of timing events as functions, their encodings and round trips, filing of hits, and the class `BinUnpacker` |
| spectroscopy.dfy | `SpectroscopyUnpacker` | the same for spectroscopy events, and the class `BinUnpackerSpectroscopy` |
| bin_source.dfy | `BinSource` | the file header codec, the frame scans and what they count over a run of frames, and the class `BinSource` |
| timing_runs.dfy | `TimingRuns` | a timing-mode file read end to end: the header, then a body written event by event |
| spectroscopy_runs.dfy | `SpectroscopyRuns` | the same for a spectroscopy-mode file |

Every operation that reads the stream has two forms:

- a pure function from the stream state before the call to the value read
  and the state after it (`DecodeFileHeader`, `DecodeEvent`, ...);
- a method of a class that performs the reads on a `Stream` object
  (`ReadFileHeader`, `BinUnpacker.ReadEvent`, ...), proved equal to that
  function.

The properties are lemmas about the functions:

- round trips from encoded bytes;
- the layout of the header;
- what the category holds after a run of hits;
- what the frame scans count, and what `read_event` returns, over a whole
  file of either mode written header first and then event by event.

## Model

| member | source | states |
|---|---|---|
| Streams.Extract | include/sabat/citiroc_utils.hpp:29 | `istream::read`: a failed stream extracts nothing; otherwise up to `n` bytes at the position are extracted, and a short read fails the stream; the position moves by the number extracted |
| Streams.ReadArray | include/sabat/citiroc_utils.hpp:17-23 | the array overload returns exactly `n` bytes: the stream's byte at each offset where one was available, 0 elsewhere; the stream ends as after `read` |
| Streams.ReadUint | include/sabat/citiroc_utils.hpp:25-31 | the integer overload: below 256^n; 0 and the stream untouched on a failed stream; the little-endian value of the next `n` bytes when they are all there |
| Streams.ReadUintRepresentation | include/sabat/citiroc_utils.hpp:25-31 | the integer read is the zero-filled array of the next `n` bytes, viewed little-endian, and its bytes above the `n`-th are zero |
| Streams.FailedReadsYieldZero | include/sabat/citiroc_utils.hpp:25-31 | once the stream has failed, any sequence of reads returns zeros and leaves the stream as it is |
| Streams.Stream.constructor | source/citiroc_bin_source.cpp:53 | a stream on the file's bytes starts at position 0, good |
| Streams.Stream.Unopened | source/citiroc_bin_source.cpp:53-59 | a stream on a file that cannot be opened has nothing to read and is failed |
| Streams.Stream.Read | include/sabat/citiroc_utils.hpp:21 | the in-place `read` does what `Extract` says |
| Streams.Stream.ReadNBytes | include/sabat/citiroc_utils.hpp:25-31 | the value and the new stream state are those of `ReadUint` |
| Streams.Stream.ReadNBytesArray | include/sabat/citiroc_utils.hpp:17-23 | the bytes and the new stream state are those of `ReadArray` |
| Streams.Stream.Tell | source/citiroc_bin_source.cpp:99 | `tellg` gives the position, or −1 on a failed stream |
| Streams.Stream.Seek | source/citiroc_bin_source.cpp:101 | `seekg` is ignored by a failed stream; a negative target fails the stream; any other target becomes the position |
| Streams.Stream.SeekRelative | source/citiroc_bin_source.cpp:115 | a seek relative to the current position, with the same rules |
| Streams.Stream.Clear | source/citiroc_bin_source.cpp:126 | `clear` makes the stream good and changes nothing else |
| Bytes.ByteSwapOfLittleEndian | source/citiroc_bin_source.cpp:33 | byte-swapping the integer read from bytes `s` gives the big-endian value of `s` |
| Bytes.BigEndianIsReversedLittleEndian | source/citiroc_bin_source.cpp:33-34 | reading bytes most significant first is reading them reversed, least significant first |
| Bytes.AsInt32 | include/sabat/citiroc_bin_unpacker.hpp:88 | the uint32_t ToA stored in an `optional<int>` lies in the range of int and equals the raw value modulo 2^32 |
| Bytes.FromInt32 | include/sabat/citiroc_bin_unpacker.hpp:88 | every int is the conversion of exactly the uint32_t given here, so the conversion loses nothing |
| Bytes.BitSetIsBitwiseAnd | include/sabat/citiroc_bin_unpacker.hpp:87-92 | the flag test used by the model agrees with the C++ `datatype & (1 << k)` on every byte |
| Bytes.Popcount | include/sabat/citiroc_bin_unpacker_spectroscopy.hpp:127 | `bitset<64>(mask).count()` is at most 64 |
| Bytes.PopcountOfZero | include/sabat/citiroc_bin_unpacker_spectroscopy.hpp:127 | an empty channel mask announces no hits |
| BinSource.JanusRel | source/citiroc_bin_source.cpp:34 | the JANUS release is below 2^24 |
| BinSource.JanusIsBigEndian | source/citiroc_bin_source.cpp:34 | three bytes read into a uint32_t, byte-swapped and shifted right by 8, are those three bytes read most significant first |
| BinSource.DecodeFileHeader | source/citiroc_bin_source.cpp:29-44 | `read_file_header` leaves the stream good exactly when the stream was good and 25 bytes were left, and then 25 bytes further on; on a failed stream it reads nothing; every field fits its C++ width |
| BinSource.FileHeaderLayout | source/citiroc_bin_source.cpp:33-41 | over 25 available bytes the header is: firmware version (2 bytes) and JANUS release (3) big-endian, then board id (2), run (2), acquisition mode (1), histogram bins (2), time unit (1), time LSB (4) and run timestamp (8) little-endian |
| BinSource.ShortHeaderFails | source/citiroc_bin_source.cpp:29-44 | a file shorter than 25 bytes leaves the stream failed after the header |
| BinSource.DecodeEncodedFileHeader | source/citiroc_bin_source.cpp:29-44 | decoding the 25 bytes written for any header gives that header back, and the stream stays good just after it |
| BinSource.ReadFileHeader | source/citiroc_bin_source.cpp:29-44 | the in-place reads produce the header and stream state `DecodeFileHeader` gives |
| BinSource.Hwid | source/citiroc_bin_source.cpp:71 | `board_id << 16` fits a uint32_t, has zero low half and the board id as high half |
| BinSource.FrameSizeIsRead | source/citiroc_bin_source.cpp:110-113 | the scan's 2-byte size read fails exactly when fewer than 2 bytes remain; otherwise it yields the frame size |
| BinSource.FrameStep | source/citiroc_bin_source.cpp:107-124 | over one frame of nonzero size, the scan as written ends from its start iff it ends from the next frame, and both scans count one more frame |
| BinSource.CountFramesAgrees | source/citiroc_bin_source.cpp:103-124 | wherever the loop as written ends, the corrected count gives the same number |
| BinSource.ScanLoopsOnZeroSize | source/citiroc_bin_source.cpp:110-115 | at a size field of 0 the read succeeds and yields 0, and the seek of 0 − 2 returns the stream to exactly where it was, so the loop as written never ends |
| BinSource.ScanOverFrames | source/citiroc_bin_source.cpp:107-124 | over a run of nonzero frames of given sizes, the loop as written ends from the run's start exactly when it ends from the run's end, and both counts are one per frame more there |
| BinSource.EndOfData | source/citiroc_bin_source.cpp:110-113 | at the end of the data the loop as written ends, and both counts are 0 |
| BinSource.ZeroFrame | source/citiroc_bin_source.cpp:110-115 | at a size-0 frame the corrected count is 0, and the loop as written does not end |
| BinSource.ScanCountsFrames | source/citiroc_bin_source.cpp:103-124 | a body that is exactly a run of nonzero frames: the loop as written ends, and both counts are the number of frames |
| BinSource.SentinelAfterFrames | source/citiroc_bin_source.cpp:103-124 | a run of nonzero frames closed by a size-0 frame: the corrected count is the number of frames, and the loop as written never ends |
| BinSource.ScanStartAfterHeader | source/citiroc_bin_source.cpp:101-103 | on a file that starts with the bytes of a header, reading the header gives it back and leaves the stream good at byte 25; the count's `seekg(0)` and header read reach byte 25 from any good position |
| BinSource.BinSource.constructor | include/sabat/citiroc_bin_source.hpp:37 | a new source has no file name, a zeroed header, hwid and vaddr 0 and is not open |
| BinSource.BinSource.SetInput | include/sabat/citiroc_bin_source.hpp:47 | only the file name changes |
| BinSource.BinSource.Close | include/sabat/citiroc_bin_source.hpp:51 | always succeeds |
| BinSource.BinSource.SkipToEvent | source/citiroc_bin_source.cpp:132 | changes neither the source nor its stream |
| BinSource.BinSource.Open | source/citiroc_bin_source.cpp:47-81 | an already-open source (nonzero firmware version) is left as it is and succeeds; a file that cannot be opened fails and leaves a failed stream, with header, hwid and vaddr unchanged; an opened file gets its header decoded from its start, whatever its length, hwid = board id << 16 and vaddr = `get_vadrr(hwid)` truncated to 16 bits |
| BinSource.BinSource.ReadCurrentEvent | source/citiroc_bin_source.cpp:83-95 | the result, the stream and the category are those of the selected unpacker's `read_event` |
| BinSource.BinSource.GetNEvents | source/citiroc_bin_source.cpp:97-130 | when the loop ends, it returns the number of frames after the header, as the scan as written counts them, and leaves the stream exactly as it found it, failed or not |
| BinSource.BinSource.SkipFrames | source/citiroc_bin_source.cpp:105-124 | the loop counts what the scan as written counts from the stream's state; a failed stream is left alone |
| BinSource.BinSource.CountEvents | source/citiroc_bin_source.cpp:97-130 | the corrected count: the number of frames after the header up to the end or the first size-0 frame; the stream is left as it was |
| BinSource.BinSource.SkipFramesToSentinel | source/citiroc_bin_source.cpp:105-124 | the corrected loop counts the frames up to the end or a size-0 frame |
| TimingUnpacker.ReadToa | include/sabat/citiroc_bin_unpacker.hpp:87-89 | a ToA is read, 4 bytes, exactly when datatype bit 0x10 is set, and lies in the range of int |
| TimingUnpacker.ReadTot | include/sabat/citiroc_bin_unpacker.hpp:90-92 | a ToT is read, 2 bytes, exactly when datatype bit 0x20 is set, and fits a uint16_t |
| TimingUnpacker.ReadToaOfBytes | include/sabat/citiroc_bin_unpacker.hpp:87-89 | the 4 bytes of a ToA read back as that ToA |
| TimingUnpacker.ReadTotOfBytes | include/sabat/citiroc_bin_unpacker.hpp:90-92 | the 2 bytes of a ToT read back as that ToT |
| TimingUnpacker.DecodeHit | include/sabat/citiroc_bin_unpacker.hpp:81-92 | a decoded hit has ToA and ToT exactly as its flag bits say; a good stream afterwards means the hit's bytes were all there: its channel and datatype bytes first, then the hit's size in bytes |
| TimingUnpacker.DecodeEncodedHit | include/sabat/citiroc_bin_unpacker.hpp:81-92 | decoding the bytes of any well-formed hit gives the hit back and consumes exactly its size |
| TimingUnpacker.DecodeHits | include/sabat/citiroc_bin_unpacker.hpp:134-136 | `nhits` calls of `read_hit` give `nhits` well-formed hits and consume their total size when the stream stays good |
| TimingUnpacker.DecodeEncodedHits | include/sabat/citiroc_bin_unpacker.hpp:134-136 | decoding the bytes of any sequence of well-formed hits gives the sequence back |
| TimingUnpacker.DecodeEvent | include/sabat/citiroc_bin_unpacker.hpp:120-139 | `read_event` returns false exactly when the size read is 0, after consuming only the size; otherwise the event has as many hits as its header's count and consumes 13 bytes plus their size |
| TimingUnpacker.ReadHeaderOfBytes | include/sabat/citiroc_bin_unpacker.hpp:122-130 | the 13 bytes of an event header read back field by field |
| TimingUnpacker.DecodeEncodedEvent | include/sabat/citiroc_bin_unpacker.hpp:120-139 | decoding the bytes of any well-formed event gives the event back and consumes exactly its bytes |
| TimingUnpacker.StoredToa | include/sabat/citiroc_bin_unpacker.hpp:110-113 | the stored ToA is −1 when absent or when the count is −1, and otherwise half the count (ns) |
| TimingUnpacker.StoredTot | include/sabat/citiroc_bin_unpacker.hpp:114-117 | the stored ToT is −1 when absent and otherwise half the count (ns) |
| TimingUnpacker.StoreHit | include/sabat/citiroc_bin_unpacker.hpp:101-117 | filing a hit adds at most its routed address to the category and leaves every other record unchanged |
| TimingUnpacker.LastHitWins | include/sabat/citiroc_bin_unpacker.hpp:101-117 | after a sequence of hits, an address holds board = mod, channel = sipm and the ToA and ToT of the last hit routed there |
| TimingUnpacker.UnroutedAddressUntouched | include/sabat/citiroc_bin_unpacker.hpp:101-117 | an address no hit is routed to keeps its record, or stays absent |
| TimingUnpacker.HitsKeepOtherFields | include/sabat/citiroc_bin_unpacker.hpp:101-117 | timing hits never write a record's sipm or pulse heights: a record keeps those it had before the hits, or the blank record's when the hits created it |
| TimingUnpacker.HitsNeverRemove | include/sabat/citiroc_bin_unpacker.hpp:103-106 | filing hits never removes a record: an address absent afterwards was absent before |
| TimingUnpacker.BinUnpacker.constructor | include/sabat/citiroc_bin_unpacker.hpp:52-66 | the unpacker holds the given lookup table and category |
| TimingUnpacker.BinUnpacker.ReadHit | include/sabat/citiroc_bin_unpacker.hpp:79-118 | the stream moves as `DecodeHit` says, and the category is updated by filing the decoded hit |
| TimingUnpacker.BinUnpacker.ReadEvent | include/sabat/citiroc_bin_unpacker.hpp:120-139 | the result and the stream are those of `DecodeEvent`; on true, the category has the event's hits filed in order; on false it is unchanged |
| TimingUnpacker.BinUnpacker.Execute | include/sabat/citiroc_bin_unpacker.hpp:68-76 | the same as `read_event`; the other arguments are ignored |
| SpectroscopyUnpacker.ReadPha | include/sabat/citiroc_bin_unpacker_spectroscopy.hpp:87-92 | a pulse height is read, 2 bytes, exactly when its flag bit is set, and fits a uint16_t |
| SpectroscopyUnpacker.ReadPhaOfBytes | include/sabat/citiroc_bin_unpacker_spectroscopy.hpp:87-92 | the 2 bytes of a pulse height read back as that pulse height |
| SpectroscopyUnpacker.DecodeHit | include/sabat/citiroc_bin_unpacker_spectroscopy.hpp:81-92 | the low-gain PHA is present exactly when bit 0x01 is set, the high-gain PHA exactly when bit 0x02 is set; a good stream afterwards means the hit's bytes were all there |
| SpectroscopyUnpacker.DecodeEncodedHit | include/sabat/citiroc_bin_unpacker_spectroscopy.hpp:81-92 | decoding the bytes of any well-formed hit gives the hit back and consumes exactly its size |
| SpectroscopyUnpacker.DecodeHits | include/sabat/citiroc_bin_unpacker_spectroscopy.hpp:142-144 | `nhits` calls of `read_hit` give `nhits` well-formed hits and consume their total size when the stream stays good |
| SpectroscopyUnpacker.DecodeEncodedHits | include/sabat/citiroc_bin_unpacker_spectroscopy.hpp:142-144 | decoding the bytes of any sequence of well-formed hits gives the sequence back |
| SpectroscopyUnpacker.DecodeHeaderTail | include/sabat/citiroc_bin_unpacker_spectroscopy.hpp:123-129 | board, trigger timestamp, trigger id, channel mask and flags take 27 bytes and fit their widths |
| SpectroscopyUnpacker.DecodeHeaderTailOfBytes | include/sabat/citiroc_bin_unpacker_spectroscopy.hpp:123-129 | those 27 bytes read back as the header fields |
| SpectroscopyUnpacker.DecodeEvent | include/sabat/citiroc_bin_unpacker_spectroscopy.hpp:115-147 | `read_event` returns false exactly when the size read is 0, after consuming only the size; otherwise the event has one hit per set bit of the channel mask, at most 64, and consumes 29 bytes plus their size |
| SpectroscopyUnpacker.DecodeEncodedEvent | include/sabat/citiroc_bin_unpacker_spectroscopy.hpp:115-147 | decoding the bytes of any well-formed event gives the event back and consumes exactly its bytes |
| SpectroscopyUnpacker.StoredPha | include/sabat/citiroc_bin_unpacker_spectroscopy.hpp:111-112 | the stored pulse height is the raw count, or −1 when absent |
| SpectroscopyUnpacker.StoreHit | include/sabat/citiroc_bin_unpacker_spectroscopy.hpp:101-112 | filing a hit adds at most its routed address to the category and leaves every other record unchanged |
| SpectroscopyUnpacker.LastHitWins | include/sabat/citiroc_bin_unpacker_spectroscopy.hpp:101-112 | after a sequence of hits, an address holds board = mod, the raw channel, sipm and the pulse heights of the last hit routed there |
| SpectroscopyUnpacker.UnroutedAddressUntouched | include/sabat/citiroc_bin_unpacker_spectroscopy.hpp:101-112 | an address no hit is routed to keeps its record, or stays absent |
| SpectroscopyUnpacker.HitsKeepTimes | include/sabat/citiroc_bin_unpacker_spectroscopy.hpp:101-112 | spectroscopy hits never write a record's ToA or ToT: a record keeps those it had before the hits, or the blank record's when the hits created it |
| SpectroscopyUnpacker.HitsNeverRemove | include/sabat/citiroc_bin_unpacker_spectroscopy.hpp:103-106 | filing hits never removes a record: an address absent afterwards was absent before |
| SpectroscopyUnpacker.BinUnpackerSpectroscopy.constructor | include/sabat/citiroc_bin_unpacker_spectroscopy.hpp:52-66 | the unpacker holds the given lookup table and category |
| SpectroscopyUnpacker.BinUnpackerSpectroscopy.ReadHit | include/sabat/citiroc_bin_unpacker_spectroscopy.hpp:79-113 | the stream moves as `DecodeHit` says, and the category is updated by filing the decoded hit |
| SpectroscopyUnpacker.BinUnpackerSpectroscopy.ReadEvent | include/sabat/citiroc_bin_unpacker_spectroscopy.hpp:115-147 | the result and the stream are those of `DecodeEvent`; on true, the category has the event's hits filed in order; on false it is unchanged |
| SpectroscopyUnpacker.BinUnpackerSpectroscopy.Execute | include/sabat/citiroc_bin_unpacker_spectroscopy.hpp:68-76 | the same as `read_event`; the other arguments are ignored |
| TimingRuns.FrameSizeAt | source/citiroc_bin_source.cpp:110 | the size field of a framed timing event, read as the count reads it, is the event's length, and is not 0 |
| TimingRuns.FramedEventAt | include/sabat/citiroc_bin_unpacker.hpp:120-139 | `read_event` decodes a framed timing event back from its bytes and stops where the next frame starts |
| TimingRuns.FramesOfRun | source/citiroc_bin_source.cpp:110-115 | a timing body written event by event is a run of nonzero frames, one per event, of the events' sizes, ending where the run ends |
| TimingRuns.EventsOfRun | include/sabat/citiroc_bin_unpacker.hpp:120-139 | in a timing body written event by event, `read_event` decodes each event back and stops right where the next one starts |
| TimingRuns.DecodeOverEvents | include/sabat/citiroc_bin_unpacker.hpp:120-139 | successive `read_event` calls return a run of decodable events in order, then whatever follows the run |
| TimingRuns.NoEventAt | include/sabat/citiroc_bin_unpacker.hpp:122-126 | at the end of the data, or at a size-0 frame, `read_event` returns false |
| TimingRuns.ScanCountsRun | source/citiroc_bin_source.cpp:97-130 | a timing body that is exactly a run of events: the loop as written ends and counts them, and so does the corrected one |
| TimingRuns.DecodesRun | include/sabat/citiroc_bin_unpacker.hpp:120-139 | a timing body that is exactly a run of events: `read_event` returns them in order, then false |
| TimingRuns.SentinelAfterRun | source/citiroc_bin_source.cpp:103-124 | a run of timing events closed by a size-0 frame: the corrected count counts the events; the loop as written never ends |
| TimingRuns.DecodesRunBeforeSentinel | include/sabat/citiroc_bin_unpacker.hpp:122-126 | a run of timing events closed by a size-0 frame: `read_event` returns the events, then false |
| TimingRuns.ReadsFile | source/citiroc_bin_source.cpp:97-130 | a whole timing file, header then events to its end: `open` reads back the header and leaves the stream at the first event; from any good position both counts are the number of events and the loop as written ends; `read_event` returns the events in order, then false |
| TimingRuns.ReadsFileBeforeSentinel | source/citiroc_bin_source.cpp:97-130 | a whole timing file whose events are closed by a size-0 frame: the header reads back, the corrected count is the number of events from any good position, the loop as written never ends, and `read_event` returns the events, then false |
| SpectroscopyRuns.FrameSizeAt | source/citiroc_bin_source.cpp:110 | the size field of a framed spectroscopy event, read as the count reads it, is the event's length, and is not 0 |
| SpectroscopyRuns.FramedEventAt | include/sabat/citiroc_bin_unpacker_spectroscopy.hpp:115-147 | `read_event` decodes a framed spectroscopy event back from its bytes and stops where the next frame starts |
| SpectroscopyRuns.FramesOfRun | source/citiroc_bin_source.cpp:110-115 | a spectroscopy body written event by event is a run of nonzero frames, one per event, of the events' sizes, ending where the run ends |
| SpectroscopyRuns.EventsOfRun | include/sabat/citiroc_bin_unpacker_spectroscopy.hpp:115-147 | in a spectroscopy body written event by event, `read_event` decodes each event back and stops right where the next one starts |
| SpectroscopyRuns.DecodeOverEvents | include/sabat/citiroc_bin_unpacker_spectroscopy.hpp:115-147 | successive `read_event` calls return a run of decodable events in order, then whatever follows the run |
| SpectroscopyRuns.NoEventAt | include/sabat/citiroc_bin_unpacker_spectroscopy.hpp:117-121 | at the end of the data, or at a size-0 frame, `read_event` returns false |
| SpectroscopyRuns.ScanCountsRun | source/citiroc_bin_source.cpp:97-130 | a spectroscopy body that is exactly a run of events: the loop as written ends and counts them, and so does the corrected one |
| SpectroscopyRuns.DecodesRun | include/sabat/citiroc_bin_unpacker_spectroscopy.hpp:115-147 | a spectroscopy body that is exactly a run of events: `read_event` returns them in order, then false |
| SpectroscopyRuns.SentinelAfterRun | source/citiroc_bin_source.cpp:103-124 | a run of spectroscopy events closed by a size-0 frame: the corrected count counts the events; the loop as written never ends |
| SpectroscopyRuns.DecodesRunBeforeSentinel | include/sabat/citiroc_bin_unpacker_spectroscopy.hpp:117-121 | a run of spectroscopy events closed by a size-0 frame: `read_event` returns the events, then false |
| SpectroscopyRuns.ReadsFile | source/citiroc_bin_source.cpp:97-130 | a whole spectroscopy file, header then events to its end: `open` reads back the header and leaves the stream at the first event; from any good position both counts are the number of events and the loop as written ends; `read_event` returns the events in order, then false |
| SpectroscopyRuns.ReadsFileBeforeSentinel | source/citiroc_bin_source.cpp:97-130 | a whole spectroscopy file whose events are closed by a size-0 frame: the header reads back, the corrected count is the number of events from any good position, the loop as written never ends, and `read_event` returns the events, then false |

## Left out

- Logging (spdlog) is not modelled. This includes the hit index `n` that `read_hit` uses only for logging.
- The `get_n_events` call in `open` is not modelled. It happens only at debug log level, for logging (citiroc_bin_source.cpp:77-79).
- Opening the file is the parameter `contents` of `BinSource.BinSource.Open`: the file's bytes, or None when it cannot be opened. The file system is not modelled.
- `get_vadrr` is the parameter `getVaddr`, and `get_unpacker(vaddr)` is the parameter `unpacker` of `ReadCurrentEvent`. Both are framework calls whose code is not part of this model.
- `init`: the category is a map of records, and the lookup table is a map held by the unpacker. Building them through the framework's model and database is not part of this model, and neither is the failure when the category is missing.
- The definition of `SiPMRaw` is not part of this model. `SiPMRaw` is modelled as a record with the fields `read_hit` writes. A new record is a copy of the unpacker's `blank` record.
- The lookup table's `get` on a missing key is not part of this model. The unpacker methods require that the table covers board 0 and every channel (`CoversBoardZero`). This loses nothing for a real table that maps only a board's wired channels: `Route` reads only the entries of the channels actually decoded, so a table padded to all 256 channels gives the same records.
- TimingUnpacker.StoredToa: the stored ToA and ToT are exact rationals. The conversion to the record's floating-point fields and its rounding are not modelled.
- `event::prepare_hits` only reserves capacity. It has no observable effect and no counterpart here.
- The size field of an event is read as the length of the whole frame, size field included. That is how `get_n_events` skips frames: 2 bytes read, then a seek of size − 2. Where a description of the format counts only the bytes after the size field, the model follows the code.
- The code never checks the acquisition mode against the unpacker. `open` fails only when the file cannot be opened. The model follows the code, and there is no separate failure for an unknown mode.
- `read_event` does not check the size field against the bytes it consumes, nor the hit channels against the channel mask. The model decodes as the code does, and the lemmas about file bodies are stated for events whose size field is their length (`TimingRuns.FramedEvent`, `SpectroscopyRuns.FramedEvent`).
- BinSource.BinSource.GetNEvents: proved only for streams on which its loop ends (`ScanEnds`), because the loop as written does not end at a size-0 frame (see Findings).
- `hwid` and `vaddr` are unbounded integers. `hwid` provably fits a uint32_t, and `vaddr` is truncated to 16 bits explicitly.
- `eofbit` and `failbit` are merged into one `failed` flag. Every operation used sets eofbit only together with failbit, and a failed stream ignores reads and seeks either way.
- `skip_to_event` is empty in the source and is modelled as doing nothing.
- The analysis tools, the framework (`unpacker`, `data_source`, categories, containers) and the clustering and calibration tasks are not part of this model.

## Findings

| source | as written | input that shows it | evidently intended | confidence | as-written member | corrected member |
|---|---|---|---|---|---|---|
| source/citiroc_bin_source.cpp:110-115 | `get_n_events` stops only when the 2-byte size read fails; after a size of 0 it seeks by 0 − 2, back onto the same size field | a file whose event frames are closed by the size-0 frame that `read_event` treats as the end of the stream: the size bytes `00 00` followed by any data | stop at a size of 0, as `read_event` does, and count the frames before it | not executed | BinSource.ScanLoopsOnZeroSize | BinSource.BinSource.CountEvents |
