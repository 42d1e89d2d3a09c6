/**
 The decoder side of a sound stream: what `_open` finds in a file and how
 `_getBuffer` and `_rewind` behave on it (src/soundstream.h:110-130).

 A decoded file is modelled as the sequence of PCM bytes the decoder would
 produce, read through a cursor. A read delivers at most the bytes requested,
 possibly fewer, and 0 bytes exactly at end of data; the readers here deliver
 at most `grain` bytes (an Ogg packet, a run of CAF frames). Bytes from position `badFrom` on cannot be decoded: a
 read that starts there fails.
 */
module Decoder {

  /** One byte of decoded PCM data (`char` in the source). */
  newtype byte = b: int | 0 <= b < 256

  /** The two OpenAL formats `_open` may report. */
  datatype Format = Mono16 | Stereo16

  /** The decoder variant chosen for a file. */
  datatype StreamType = TypeCaf | TypeOgg

  type Positive = n: nat | n > 0 witness 1

  /** What the decoder finds when it opens a file. */
  datatype Media = Media(
    format: Format,
    sampleRate: nat,
    pcm: seq<byte>,
    grain: Positive,
    seekable: bool,
    badFrom: nat)

  /** The decoder state before any file was opened: no data, and the
      constructor's defaults for format and rate (src/soundstream.cpp:36-37). */
  const NoFile := Media(Stereo16, 44100, [], 1, true, 0)

  /** How far reads can get: the end of data, or the first undecodable byte. */
  function Limit(m: Media): (l: nat)
    ensures l <= |m.pcm| && l <= m.badFrom && (l == |m.pcm| || l == m.badFrom)
  {
    if m.badFrom < |m.pcm| then m.badFrom else |m.pcm|
  }

  /** True when a read starting at `cursor` reports a decoding error. */
  predicate ReadFails(m: Media, cursor: nat) {
    m.badFrom <= cursor < |m.pcm|
  }

  function Min(a: nat, b: nat): nat { if a <= b then a else b }

  /** Outcome of one `_getBuffer` call: success, bytes delivered, EOF flag. */
  datatype ReadResult = ReadResult(ok: bool, count: nat, eof: bool)

  /** The header's contract for one `_getBuffer(index, readBytes, ...)` call
      on a decoder positioned at `cursor` that returned `r`: it fails exactly
      on undecodable data, delivering nothing; otherwise it delivers at most
      `readBytes` of the readable bytes (possibly fewer, as an Ogg packet or a
      run of CAF frames ends), 0 of them exactly at EOF, and at least one
      while data remains. */
  predicate ReadAllowed(m: Media, cursor: nat, readBytes: nat, r: ReadResult) {
    && (!r.ok <==> ReadFails(m, cursor))
    && (!r.ok ==> r.count == 0 && !r.eof)
    && (r.ok ==> r.count <= readBytes && cursor + r.count <= Limit(m) && (r.eof <==> r.count == 0))
    && (r.ok && readBytes > 0 && cursor < |m.pcm| ==> r.count > 0)
  }

  /** One `_getBuffer` call as the Ogg and CAF readers behave: at most
      `grain` bytes per call. It is one of the reads the contract allows, and
      EOF comes only at the end of the file. */
  function Read(m: Media, cursor: nat, readBytes: nat): (r: ReadResult)
    requires cursor <= Limit(m)
    ensures ReadAllowed(m, cursor, readBytes, r)
    ensures r.ok ==> r.count <= m.grain
    ensures r.ok && r.eof && readBytes > 0 ==> cursor == |m.pcm|
  {
    if ReadFails(m, cursor) then ReadResult(false, 0, false)
    else
      var n := Min(Min(readBytes, m.grain), Limit(m) - cursor);
      ReadResult(true, n, n == 0)
  }
}
