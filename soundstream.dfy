/**
 The streaming engine as the source has it: a `SoundStream` object whose
 methods update its fields in place (src/soundstream.h, src/soundstream.cpp).

 The decoder hooks `_getBuffer` and `_rewind` are methods of the same object,
 as they are virtual methods of the C++ class; they read the decoded bytes of
 `media` at `cursor`. The OpenAL source and buffers are the `sink` value. The
 wall clock is the `now` argument (milliseconds).

 Every method is proved to take the abstract state `Abs()` exactly as the
 corresponding function of module Engine says.
 */
module Streaming {
  import opened Decoder
  import opened Device
  import opened Filling
  import opened Engine

  class SoundStream {
    const kind: StreamType
    const bufferSize: nat
    /** The read buffer: allocated once with `bufferSize` bytes, never replaced. */
    const bufferData: array<byte>
    /** Front and back buffer ids. */
    const buffers: array<BufferId>

    var fileName: string
    var isOpen: bool         // `opened` in the source
    var ended: bool
    var loopInterval: int
    var loopTimerMark: nat
    var media: Media
    var cursor: nat
    var format: Format
    var sampleRate: nat
    var sink: Sink

    ghost function Abs(): Session
      reads this, bufferData, buffers
      requires buffers.Length == 2
    {
      Session(kind, bufferSize, bufferData[..], fileName, isOpen, ended, loopInterval,
              loopTimerMark, media, cursor, format, sampleRate, buffers[0], buffers[1], sink)
    }

    ghost predicate Valid()
      reads this, bufferData, buffers
    {
      bufferData.Length == bufferSize && buffers.Length == 2 && Wf(Abs())
    }

    /** The loop interval is an argument because the source leaves it
        uninitialised until `setLoop`. */
    constructor (t: StreamType, bufSize: nat, lp: int)
      ensures Valid() && fresh(bufferData) && fresh(buffers)
      ensures Abs() == Initial(t, bufferData[..], lp) && bufferSize == bufSize
    {
      kind := t;
      bufferSize := bufSize;
      bufferData := new byte[bufSize];
      buffers := new BufferId[2](_ => 0);
      fileName := "";
      sampleRate := 44100;
      format := Stereo16;
      isOpen := false;
      ended := false;
      loopInterval := lp;
      loopTimerMark := 0;
      media := NoFile;
      cursor := 0;
      sink := NoSource;
    }

    /** `open` (src/soundstream.cpp:55-80); `found` is what `_open` finds at
        `fName`, None when it cannot open it. */
    method Open(fName: string, found: Option<Media>) returns (ok: bool)
      requires Valid()
      modifies this, buffers
      ensures Valid() && (Abs(), ok) == OpenSpec(old(Abs()), fName, found)
    {
      if isOpen {
        return false;
      }
      fileName := fName;
      match found {
        case None =>
          return false;
        case Some(m) =>
          media, cursor, format, sampleRate := m, 0, m.format, m.sampleRate;
          isOpen := true;
          var (k, b0, b1) := Generate(sink);
          buffers[0], buffers[1] := b0, b1;
          sink := k;
          assert Abs() == old(Abs()).(fileName := fName, isOpen := true, media := m, cursor := 0,
            format := m.format, sampleRate := m.sampleRate, front := b0, back := b1, sink := k);
          return true;
      }
    }

    /** `defineAsMusic` (src/soundstream.cpp:85-95): only an open stream
        changes its source parameters. */
    method DefineAsMusic()
      requires Valid()
      modifies this
      ensures Valid()
      ensures Abs() == if old(isOpen) then old(Abs()).(sink := old(sink).(music := true)) else old(Abs())
    {
      if isOpen {
        sink := sink.(music := true);
      }
    }

    /** `release` (src/soundstream.cpp:108-133). */
    method Release()
      requires Valid()
      modifies this
      ensures Valid() && Abs() == ReleaseSpec(old(Abs()))
    {
      if isOpen {
        if !ended {
          sink := Stop(sink);
        }
        Empty();
        sink := Delete(sink, buffers[0], buffers[1]);
        // _release(): the decoder lets go of the file
        isOpen := false;
      }
    }

    /** `playback(rw)` (src/soundstream.cpp:138-173). */
    method Playback(rw: bool, now: nat) returns (ok: bool)
      requires Valid() && (isOpen ==> FillEnds(Abs()))
      modifies this, bufferData
      ensures Valid() && (Abs(), ok) == PlaybackSpec(old(Abs()), rw, now)
    {
      ghost var s0 := Abs();
      var numBuffers := 2;
      if isOpen {
        var playing := IsPlaying();
        if playing && !rw {
          return true;
        }
        if playing && rw {
          sink := Stop(sink);
          Empty();
        }
        ghost var s1 := Abs();
        assert s1 == if s0.sink.playing && rw then s0.(sink := Drain(Stop(s0.sink))) else s0;
        ok := Stream(buffers[0], rw, now);
        ghost var s2 := Abs();
        assert (s2, ok) == StreamSpec(s1, s0.front, rw, now);
        if !ok {
          assert (Abs(), ok) == PlaybackSpec(s0, rw, now);
          return false;
        }
        var second := Stream(buffers[1], false, now);
        if !second {
          numBuffers := 1;
        }
        ghost var s3 := Abs();
        assert (s3, second) == StreamSpec(s2, s0.back, false, now);
        assert buffers[..numBuffers] == if second then [s0.front, s0.back] else [s0.front];
        sink := Enqueue(sink, buffers[..numBuffers]);
        sink := Play(sink);
        assert Abs() == s3.(sink := Play(Enqueue(s3.sink, buffers[..numBuffers])));
        assert (Abs(), true) == PlaybackSpec(s0, rw, now);
        return true;
      }
      return false;
    }

    /** `isPlaying` (src/soundstream.cpp:178-188). */
    method IsPlaying() returns (playing: bool)
      requires Valid()
      ensures playing == IsPlayingSpec(Abs())
    {
      playing := isOpen && sink.playing;
    }

    /** `rewind` (src/soundstream.cpp:193-200). */
    method Rewind(now: nat) returns (ok: bool)
      requires Valid() && (isOpen ==> FillEnds(Abs()))
      modifies this, bufferData
      ensures Valid() && (Abs(), ok) == RewindSpec(old(Abs()), now)
    {
      if isOpen {
        ok := Playback(true, now);
      } else {
        ok := false;
      }
    }

    /** `update` (src/soundstream.cpp:205-255). */
    method Update(now: nat) returns (active: bool)
      requires Valid() && (isOpen ==> FillEnds(Abs()))
      modifies this, bufferData
      ensures Valid() && (Abs(), active) == UpdateSpec(old(Abs()), now)
    {
      active := true;
      if !isOpen {
        return false;
      }
      var processed: nat := sink.processed;
      if processed == 0 && ended {
        if loopInterval > 0 && ended {
          var elapsed := if now >= loopTimerMark then (now - loopTimerMark) / 1000 else 0;
          if elapsed >= loopInterval {
            active := Playback(true, now);
          }
        }
      }
      assert (Abs(), active) == if RestartDue(old(Abs()), now) then PlaybackSpec(old(Abs()), true, now) else (old(Abs()), true);
      active := RefillPass(processed, active, now);
    }

    /** The `while(processed--)` loop of `update` (src/soundstream.cpp:229-249):
        `processed` is the count the device reported before any restart. */
    method RefillPass(processed: nat, active: bool, now: nat) returns (stillActive: bool)
      requires Valid() && isOpen && FillEnds(Abs()) && processed <= sink.processed
      modifies this, bufferData
      ensures Valid() && (Abs(), stillActive) == Refill(old(Abs()), processed, active, now)
    {
      ghost var s1 := old(Abs());
      var pending: nat := processed;
      stillActive := active;
      while pending > 0
        invariant Valid() && isOpen && FillEnds(Abs())
        invariant pending <= sink.processed
        invariant Refill(Abs(), pending, stillActive, now) == Refill(s1, processed, active, now)
        decreases pending
      {
        stillActive := RefillOne(stillActive, now, pending);
        pending := pending - 1;
      }
      assert Refill(Abs(), 0, stillActive, now) == (Abs(), stillActive);
    }

    /** One turn of that loop (src/soundstream.cpp:231-248): unqueue the front
        buffer, which is a processed one, then refill it and queue it again
        while the stream is active and has not ended. */
    method RefillOne(active: bool, now: nat, ghost pending: nat) returns (stillActive: bool)
      requires Valid() && isOpen && FillEnds(Abs()) && 0 < pending <= sink.processed
      modifies this, bufferData
      ensures Valid() && isOpen && FillEnds(Abs()) && pending - 1 <= sink.processed
      ensures Refill(Abs(), pending - 1, stillActive, now) == Refill(old(Abs()), pending, active, now)
    {
      ghost var s0 := Abs();
      var buffer := sink.queue[0];
      sink := UnqueueOne(sink);
      stillActive := active;
      if active {
        stillActive := Stream(buffer, false, now);
        if stillActive && !ended {
          sink := Enqueue(sink, [buffer]);
        }
      }
      assert (Abs(), stillActive) == RefillStep(s0, active, now);
      RefillUnfold(s0, pending, active, now);
    }

    /** `stream(buffer, rw)` (src/soundstream.cpp:260-339). */
    method Stream(buffer: BufferId, rw: bool, now: nat) returns (ok: bool)
      requires Valid() && isOpen && FillEnds(Abs())
      modifies this, bufferData
      ensures Valid() && (Abs(), ok) == StreamSpec(old(Abs()), buffer, rw, now)
    {
      if rw {
        ended := false;
        var sought := DecoderRewind();
        if !sought {
          return false;
        }
      } else if ended {
        var playing := IsPlaying();
        if playing {
          sink := Stop(sink);
        }
        return loopInterval >= 0;
      }
      ok := StreamChunk(buffer, now);
    }

    /** The part of `stream` from the read loop on (src/soundstream.cpp:289-338):
        fill the scratch buffer, then load what was read into `buffer`, or stop
        the source when the file ended with nothing read. */
    method StreamChunk(buffer: BufferId, now: nat) returns (ok: bool)
      requires Valid() && isOpen && !ended && FillEnds(Abs())
      modifies this, bufferData
      ensures Valid() && (Abs(), ok) == FillChunk(old(Abs()), buffer, now)
    {
      ghost var s0 := Abs();
      var read, totalBytesReaded := FillLoop(now);
      assert bufferData[..] == Fill(s0.media, s0.cursor, bufferSize, loopInterval).data + s0.scratch[totalBytesReaded..];
      if !read {
        return false;
      }
      if totalBytesReaded > 0 {
        sink := BufferData(sink, buffer, bufferData[..totalBytesReaded]);
      } else if ended {
        sink := Stop(sink);
      }
      return true;
    }

    /** The read loop of `stream` (src/soundstream.cpp:289-325): read until the
        buffer is full or the file ends, seeking back to the start at EOF when
        the loop interval is 0. */
    method FillLoop(now: nat) returns (ok: bool, totalBytesReaded: nat)
      requires bufferData.Length == bufferSize && cursor <= Limit(media) && !ended
      requires FillTerminates(media, loopInterval)
      modifies this`cursor, this`ended, this`loopTimerMark, bufferData
      ensures var out := Fill(media, old(cursor), bufferSize, loopInterval);
        && ok == out.ok && totalBytesReaded == |out.data| && cursor == out.cursor
        && ended == out.eof
        && loopTimerMark == (if out.eof && loopInterval > 0 then now else old(loopTimerMark))
        && bufferData[..] == out.data + old(bufferData[..])[totalBytesReaded..]
    {
      ghost var whole := Fill(media, cursor, bufferSize, loopInterval);
      ghost var done: seq<byte> := [];
      ok := true;
      totalBytesReaded := 0;
      var readBytes: nat := bufferSize;
      while ok && totalBytesReaded < bufferSize && !ended
        invariant totalBytesReaded + readBytes == bufferSize && |done| == totalBytesReaded
        invariant bufferData[..] == done + old(bufferData[..])[totalBytesReaded..]
        invariant Progress(ok, whole, done, readBytes, now, old(loopTimerMark))
        decreases if ok && !ended then 1 else 0, readBytes, cursor
      {
        ok, totalBytesReaded, readBytes, done := ReadStep(now, totalBytesReaded, readBytes, done, whole, old(bufferData[..]));
      }
    }

    /** Where the read loop stands, with `done` read so far and `readBytes`
        still wanted, against `whole`, what the complete loop is to produce
        (see Filling.Fill): still reading with the rest of the fill ahead,
        failed, or ended at EOF; the loop timer is reset only on that end. */
    ghost predicate Progress(ok: bool, whole: FillOutcome, done: seq<byte>, readBytes: nat, now: nat, mark0: nat)
      reads this
    {
      && cursor <= Limit(media)
      && (!ended ==> loopTimerMark == mark0)
      && (ok && !ended ==>
            FillTerminates(media, loopInterval)
            && whole == Prepend(done, Fill(media, cursor, readBytes, loopInterval)))
      && (!ok ==> !ended && whole == FillOutcome(false, done, cursor, false))
      && (ended ==> whole == FillOutcome(true, done, cursor, true)
                    && loopTimerMark == if loopInterval > 0 then now else mark0)
    }

    /** One turn of the read loop (src/soundstream.cpp:290-324): one
        `_getBuffer` call at the fill position, then, at EOF, a seek back to
        the start (interval 0) or the end of the stream (any other interval).
        `done` is what the loop has read so far, `whole` what the whole loop
        is to produce and `orig` the buffer before the loop. */
    method ReadStep(now: nat, total: nat, readBytes: nat, ghost done: seq<byte>, ghost whole: FillOutcome,
                    ghost orig: seq<byte>)
      returns (ok: bool, total': nat, readBytes': nat, ghost done': seq<byte>)
      requires bufferData.Length == bufferSize && cursor <= Limit(media) && !ended
      requires FillTerminates(media, loopInterval)
      requires total + readBytes == bufferSize && |done| == total && total < bufferSize
      requires |orig| == bufferSize && bufferData[..] == done + orig[total..]
      requires whole == Prepend(done, Fill(media, cursor, readBytes, loopInterval))
      modifies this`cursor, this`ended, this`loopTimerMark, bufferData
      ensures total' + readBytes' == bufferSize && |done'| == total'
      ensures bufferData[..] == done' + orig[total'..]
      ensures ok && !ended ==> readBytes' < readBytes || (readBytes' == readBytes && cursor < old(cursor))
      ensures Progress(ok, whole, done', readBytes', now, old(loopTimerMark))
    {
      ghost var c0 := cursor;
      var read, bytesReaded, gotEof := DecoderGetBuffer(total, readBytes);
      ok, total', readBytes', done' := read, total, readBytes, done;
      if read {
        done' := done + media.pcm[c0..cursor];
        total' := total + bytesReaded;
        readBytes' := bufferSize - total';
      }
      FillAfterRead(media, c0, readBytes, loopInterval, done, whole, ReadResult(read, bytesReaded, gotEof),
                    cursor, readBytes', done');
      if read && gotEof {
        if loopInterval == 0 {
          ok := DecoderRewind();
        } else if loopInterval > 0 {
          ended := true;
          loopTimerMark := now;
        } else {
          ended := true;
        }
      }
    }

    /** `changeVolume` (src/soundstream.cpp:344-347): the source gain follows
        the volume; the source does not check that the stream is open. */
    method ChangeVolume(volume: int)
      requires Valid()
      modifies this
      ensures Valid() && Abs() == old(Abs()).(sink := old(sink).(volume := volume))
    {
      sink := sink.(volume := volume);
    }

    /** `setLoop` (src/soundstream.cpp:352-355). */
    method SetLoop(lp: int)
      requires Valid()
      modifies this
      ensures Valid() && Abs() == old(Abs()).(loopInterval := lp)
    {
      loopInterval := lp;
    }

    /** `empty` (src/soundstream.cpp:361-378): one unqueue per queued buffer. */
    method Empty()
      requires Valid()
      modifies this
      ensures Valid() && Abs() == EmptySpec(old(Abs()))
    {
      if isOpen {
        var queued := |sink.queue|;
        ghost var k0 := sink;
        while queued > 0
          modifies this`sink
          invariant 0 <= queued <= |k0.queue|
          invariant var taken := Min(|k0.queue| - queued, k0.processed);
            sink == k0.(queue := k0.queue[taken..], processed := k0.processed - taken)
        {
          sink := UnqueueOne(sink);
          queued := queued - 1;
        }
      }
    }

    /** `_rewind`: seek the decoder back to the first byte; fails when the
        file cannot seek (src/soundstream.h:119-121). */
    method DecoderRewind() returns (ok: bool)
      requires cursor <= Limit(media)
      modifies this`cursor
      ensures cursor <= Limit(media)
      ensures ok == media.seekable && cursor == (if ok then 0 else old(cursor))
    {
      if media.seekable {
        cursor := 0;
        return true;
      }
      return false;
    }

    /** `_getBuffer(index, readBytes, ...)` (src/soundstream.h:123-130): the
        decoder writes what it reads at `index` and nowhere else. Its callers
        rely only on the contract `ReadAllowed`, so the read loop is proved for
        every read size a decoder may choose. */
    method DecoderGetBuffer(index: nat, readBytes: nat) returns (ok: bool, bytesReaded: nat, gotEof: bool)
      requires cursor <= Limit(media) && index + readBytes <= bufferData.Length
      modifies this`cursor, bufferData
      ensures cursor <= Limit(media)
      ensures ReadAllowed(media, old(cursor), readBytes, ReadResult(ok, bytesReaded, gotEof))
      ensures cursor == old(cursor) + bytesReaded
      ensures bufferData[..] == old(bufferData[..index]) + media.pcm[old(cursor)..cursor]
                                + old(bufferData[index + bytesReaded..])
    {
      var r := Read(media, cursor, readBytes);
      if !r.ok {
        return false, 0, false;
      }
      forall j | 0 <= j < r.count {
        bufferData[index + j] := media.pcm[cursor + j];
      }
      cursor := cursor + r.count;
      return true, r.count, r.eof;
    }
  }
}
