/**
 What the streaming engine guarantees, proved about the functions of module
 Engine that the `SoundStream` class is proved to follow.
 */
module EngineProps {
  import opened Decoder
  import opened Device
  import opened Filling
  import opened Engine

  // ---------------------------------------------------------------- open

  /** `open` succeeds exactly on a closed stream whose file the decoder can
      open; it then owns two fresh buffers and an idle source, reads from the
      first byte with the file's format and rate, and keeps every other field,
      the ended flag included. On an open stream it changes nothing; on a file
      the decoder cannot open it records only the file name. */
  lemma OpenOutcome(s: Session, fName: string, found: Option<Media>)
    requires Wf(s)
    ensures var (t, ok) := OpenSpec(s, fName, found);
      && (ok <==> !s.isOpen && found.Some?)
      && (s.isOpen ==> t == s)
      && (!s.isOpen && found.None? ==> t == s.(fileName := fName))
      && (ok ==> t == s.(fileName := fName, isOpen := true, media := found.value, cursor := 0,
                          format := found.value.format, sampleRate := found.value.sampleRate,
                          front := t.front, back := t.back, sink := t.sink)
                 && t.sink.queue == [] && !t.sink.playing && t.sink.alive
                 && t.front != t.back && t.front >= s.sink.nextId && t.back >= s.sink.nextId)
  {
  }

  // ------------------------------------------------------------- release

  /** `release` on a closed stream changes nothing. On an open one it
      changes only the sink and the open flag: the stream is closed and its
      source and buffers are gone; releasing again changes nothing, and the
      stream can be opened again. What stays queued is what `empty` could not unqueue: nothing when
      the source was stopped first, the pending buffers when the stream had
      already ended and so was not stopped. */
  lemma ReleaseCloses(s: Session, fName: string, m: Media)
    requires Wf(s)
    ensures var t := ReleaseSpec(s);
      && (!s.isOpen ==> t == s)
      && t == s.(isOpen := false, sink := t.sink)
      && !t.isOpen && !t.sink.alive && !t.sink.playing
      && ReleaseSpec(t) == t
      && OpenSpec(t, fName, Some(m)).1
      && (s.isOpen ==> s.front !in t.sink.loaded && s.back !in t.sink.loaded)
      && t.sink.queue == (if !s.isOpen then s.sink.queue
                          else if s.ended then s.sink.queue[s.sink.processed..]
                          else [])
  {
  }

  // -------------------------------------------------------------- stream

  /** `stream` reports failure exactly when: rewinding a file that cannot
      seek; asked to wait after the end of a stream that never loops
      (interval < 0); or filling the chunk from the start (rewinding) or from
      the current position needs bytes past an undecodable one, or past the
      end of a file that loops with interval 0 and cannot seek. */
  lemma StreamFailsExactly(s: Session, buffer: BufferId, rw: bool, now: nat)
    requires Wf(s) && s.isOpen && FillEnds(s)
    ensures var m, l := s.media, Limit(s.media);
      !StreamSpec(s, buffer, rw, now).1 <==>
        if rw then
          !m.seekable || (s.bufferSize > l && (l < |m.pcm| || (s.loopInterval == 0 && !m.seekable)))
        else if s.ended then s.loopInterval < 0
        else s.cursor + s.bufferSize > l && (l < |m.pcm| || (s.loopInterval == 0 && !m.seekable))
  {
    if rw && s.media.seekable {
      FillFailsExactly(s.media, 0, s.bufferSize, s.loopInterval);
    } else if !rw && !s.ended {
      FillFailsExactly(s.media, s.cursor, s.bufferSize, s.loopInterval);
    }
  }

  /** Streaming from the start of a file that decodes without error and does
      not loop with interval 0 loads exactly its first `bufferSize` bytes (or
      the whole file, if shorter) into the buffer, and the stream ends exactly
      when the file is shorter than a chunk. */
  lemma RewoundStreamLoadsFileStart(s: Session, buffer: BufferId, now: nat)
    requires Wf(s) && s.isOpen && FillEnds(s)
    requires s.media.seekable && s.media.badFrom >= |s.media.pcm| && s.loopInterval != 0
    requires s.bufferSize > 0 && |s.media.pcm| > 0
    ensures var (t, ok) := StreamSpec(s, buffer, true, now);
      && ok
      && t.sink.loaded[buffer] == s.media.pcm[..Min(s.bufferSize, |s.media.pcm|)]
      && (t.ended <==> s.bufferSize > |s.media.pcm|)
      && (t.ended && s.loopInterval > 0 ==> t.loopTimerMark == now)
  {
    FillWithoutLoop(s.media, 0, s.bufferSize, s.loopInterval);
    assert s.media.pcm[0..Min(s.bufferSize, |s.media.pcm|)] == s.media.pcm[..Min(s.bufferSize, |s.media.pcm|)];
  }

  /** Where a chunk ends the stream: only a stream that does not loop with
      interval 0 ever ends, it ends at the last byte of the file, and an
      interval > 0 starts the loop timer at that moment. A call on a stream
      that has already ended only stops a source that still plays, and
      reports failure exactly when the interval is negative. */
  lemma StreamEndPolicy(s: Session, buffer: BufferId, rw: bool, now: nat)
    requires Wf(s) && s.isOpen && FillEnds(s)
    ensures var (t, ok) := StreamSpec(s, buffer, rw, now);
      && (t.ended && (rw || !s.ended) ==>
            s.loopInterval != 0 && t.cursor == |s.media.pcm|
            && (s.loopInterval > 0 ==> t.loopTimerMark == now))
      && (s.loopInterval == 0 && (rw || !s.ended) ==> !t.ended)
      && (!rw && s.ended ==>
            t == (if s.sink.playing then s.(sink := Stop(s.sink)) else s)
            && !t.sink.playing && (ok <==> s.loopInterval >= 0))
  {
  }

  // ------------------------------------------------------------ playback

  /** A `playback` that does not just return on a playing stream first
      stops and empties the queue of a playing stream it rewinds. It succeeds
      exactly when streaming the front buffer succeeds, and then leaves the
      source playing with nothing processed and, after what was queued, the
      front buffer followed by the back one exactly when streaming the back
      buffer succeeded too. A failed `playback` leaves the source stopped and
      the queue as the rewind left it. */
  lemma PlaybackQueues(s: Session, rw: bool, now: nat)
    requires Wf(s) && FillEnds(s) && s.isOpen && !(s.sink.playing && !rw)
    ensures var s1 := if s.sink.playing then s.(sink := Drain(Stop(s.sink))) else s;
      var (s2, ok1) := StreamSpec(s1, s.front, rw, now);
      var (t, ok) := PlaybackSpec(s, rw, now);
      && s1.sink.queue == (if s.sink.playing then [] else s.sink.queue)
      && (ok <==> ok1)
      && (ok ==> t.sink.playing && t.sink.processed == 0
                 && t.sink.queue == s1.sink.queue
                      + (if StreamSpec(s2, s.back, false, now).1 then [s.front, s.back] else [s.front]))
      && (!ok ==> !t.sink.playing && t.sink.queue == s1.sink.queue)
  {
  }

  /** `playback` on a closed stream fails and changes nothing; on a playing
      stream without rewind it succeeds and changes nothing. */
  lemma PlaybackNoOps(s: Session, rw: bool, now: nat)
    requires Wf(s) && (s.isOpen ==> FillEnds(s))
    ensures !s.isOpen ==> PlaybackSpec(s, rw, now) == (s, false)
    ensures s.isOpen && s.sink.playing && !rw ==> PlaybackSpec(s, rw, now) == (s, true)
  {
  }

  /** Rewinding a stopped stream whose spent buffers were never unqueued
      queues the buffer ids again behind them: the source replays the old
      chunks before the new ones. */
  lemma RewindKeepsSpentBuffers(s: Session, now: nat)
    requires Wf(s) && FillEnds(s) && s.isOpen && !s.sink.playing
    requires RewindSpec(s, now).1
    ensures |RewindSpec(s, now).0.sink.queue| > |s.sink.queue|
    ensures RewindSpec(s, now).0.sink.queue[..|s.sink.queue|] == s.sink.queue
    ensures |s.sink.queue| >= 2 ==> |RewindSpec(s, now).0.sink.queue| > 2
  {
    PlaybackQueues(s, true, now);
  }

  /** The first `playback` of a stream that has not ended, over a file that
      decodes without error and can seek, succeeds: the source plays the front
      buffer, then the back one, unless the front chunk already reached the
      end of a stream that never loops (interval < 0). */
  lemma FirstPlaybackPlays(s: Session, now: nat)
    requires Wf(s) && FillEnds(s) && s.isOpen && !s.sink.playing && s.sink.queue == [] && !s.ended
    requires s.media.badFrom >= |s.media.pcm| && s.media.seekable
    ensures var (t, ok) := PlaybackSpec(s, false, now);
      && ok && t.sink.playing
      && t.sink.queue == if s.loopInterval < 0 && s.cursor + s.bufferSize > |s.media.pcm|
                         then [s.front] else [s.front, s.back]
  {
    var (s2, ok1) := StreamSpec(s, s.front, false, now);
    FillFailsExactly(s.media, s.cursor, s.bufferSize, s.loopInterval);
    FillEofExactly(s.media, s.cursor, s.bufferSize, s.loopInterval);
    FillFailsExactly(s2.media, s2.cursor, s2.bufferSize, s2.loopInterval);
    PlaybackQueues(s, false, now);
  }

  /** A file that decodes to no bytes, played without interval-0 looping,
      still starts the source on success: the front buffer is queued though
      nothing was ever loaded into it. */
  lemma EmptyFilePlaybackStarts(s: Session, now: nat)
    requires Wf(s) && FillEnds(s) && s.isOpen && !s.sink.playing
    requires s.media.pcm == [] && s.media.seekable && s.loopInterval != 0 && s.bufferSize > 0
    ensures var (t, ok) := PlaybackSpec(s, true, now);
      && ok && t.ended && t.sink.playing && t.sink.loaded == s.sink.loaded
      && t.sink.queue[|s.sink.queue|] == s.front
  {
    PlaybackQueues(s, true, now);
  }

  // -------------------------------------------------------------- update

  /** `update` on a closed stream does nothing and reports false. With no
      buffer processed and no loop restart due, it does nothing and reports
      true. */
  lemma UpdateIdle(s: Session, now: nat)
    requires Wf(s) && (s.isOpen ==> FillEnds(s))
    ensures !s.isOpen ==> UpdateSpec(s, now) == (s, false)
    ensures s.isOpen && s.sink.processed == 0 && !RestartDue(s, now) ==> UpdateSpec(s, now) == (s, true)
  {
  }

  /** The loop policy of `update`: once a stream with interval > 0 has ended,
      nothing is processed and the loop timer has run `loopInterval` seconds,
      `update` is `playback` with rewind; in every other case it is the
      refill pass over the buffers the device has finished. */
  lemma UpdateRestartsWhenDue(s: Session, now: nat)
    requires Wf(s) && FillEnds(s) && s.isOpen
    ensures RestartDue(s, now) ==> UpdateSpec(s, now) == PlaybackSpec(s, true, now)
    ensures !RestartDue(s, now) ==> UpdateSpec(s, now) == Refill(s, s.sink.processed, true, now)
  {
  }

  /** A due restart over a seekable file that decodes without error
      succeeds: the source plays again, nothing processed, with the first
      bytes of the file in the front buffer. */
  lemma DueRestartReplays(s: Session, now: nat)
    requires Wf(s) && FillEnds(s) && s.isOpen && RestartDue(s, now)
    requires s.media.seekable && s.media.badFrom >= |s.media.pcm|
    requires s.bufferSize > 0 && |s.media.pcm| > 0
    ensures var (t, ok) := UpdateSpec(s, now);
      && ok && t.sink.playing && t.sink.processed == 0
      && t.sink.loaded[s.front] == s.media.pcm[..Min(s.bufferSize, |s.media.pcm|)]
  {
    UpdateRestartsWhenDue(s, now);
    var s1 := if s.sink.playing then s.(sink := Drain(Stop(s.sink))) else s;
    var (s2, ok1) := StreamSpec(s1, s.front, true, now);
    StreamFailsExactly(s1, s.front, true, now);
    RewoundStreamLoadsFileStart(s1, s.front, now);
    PlaybackQueues(s, true, now);
    var s3 := StreamSpec(s2, s.back, false, now).0;
    assert s.front in s3.sink.loaded - {s.back};
  }

  /** One turn of the refill loop takes the front buffer off the queue and
      puts it back at the end exactly when its refill succeeded without ending
      the stream; once the pass is inactive it stays inactive. */
  lemma RefillStepQueue(s: Session, active: bool, now: nat)
    requires Wf(s) && s.isOpen && FillEnds(s) && s.sink.processed > 0
    ensures var (t, a) := RefillStep(s, active, now);
      && (a ==> active)
      && t.sink.queue == s.sink.queue[1..] + (if a && !t.ended then [s.sink.queue[0]] else [])
  {
  }

  /** One turn of the refill loop never starts the source. */
  lemma RefillStepKeepsStopped(s: Session, active: bool, now: nat)
    requires Wf(s) && s.isOpen && FillEnds(s) && s.sink.processed > 0
    ensures RefillStep(s, active, now).0.sink.playing ==> s.sink.playing
  {
  }

  /** Nor does a whole refill pass. */
  lemma {:induction false} RefillKeepsStopped(s: Session, pending: nat, active: bool, now: nat)
    requires Wf(s) && s.isOpen && FillEnds(s) && pending <= s.sink.processed
    ensures Refill(s, pending, active, now).0.sink.playing ==> s.sink.playing
    decreases pending
  {
    if pending > 0 {
      var (t, a) := RefillStep(s, active, now);
      RefillStepKeepsStopped(s, active, now);
      RefillKeepsStopped(t, pending - 1, a, now);
    }
  }

  /** `update` never starts a stopped source except by the loop restart: a
      source that ran out of queued buffers stays stopped however many
      buffers `update` refills. */
  lemma UpdateStartsOnlyOnRestart(s: Session, now: nat)
    requires Wf(s) && FillEnds(s) && s.isOpen && !s.sink.playing && !RestartDue(s, now)
    ensures !UpdateSpec(s, now).0.sink.playing
  {
    RefillKeepsStopped(s, s.sink.processed, true, now);
  }

  /** A refill pass never ends a stream that loops with interval 0. */
  lemma {:induction false} RefillLoopingNeverEnds(s: Session, pending: nat, active: bool, now: nat)
    requires Wf(s) && s.isOpen && FillEnds(s) && pending <= s.sink.processed
    requires s.loopInterval == 0 && !s.ended
    ensures !Refill(s, pending, active, now).0.ended
    decreases pending
  {
    if pending > 0 {
      var (t, a) := RefillStep(s, active, now);
      RefillLoopingNeverEnds(t, pending - 1, a, now);
    }
  }

  /** A stream with loop interval 0 never ends: `update` leaves it not ended,
      whatever the device has processed. */
  lemma LoopingStreamNeverEnds(s: Session, now: nat)
    requires Wf(s) && FillEnds(s) && s.isOpen && s.loopInterval == 0 && !s.ended
    ensures !UpdateSpec(s, now).0.ended
  {
    RefillLoopingNeverEnds(s, s.sink.processed, true, now);
  }

  /** Once a refill reported failure, the rest of the pass only unqueues:
      nothing is streamed, loaded or queued, and the pass reports failure. */
  lemma {:induction false} RefillInactive(s: Session, pending: nat, now: nat)
    requires Wf(s) && s.isOpen && FillEnds(s) && pending <= s.sink.processed
    ensures Refill(s, pending, false, now) ==
      (s.(sink := s.sink.(queue := s.sink.queue[pending..], processed := s.sink.processed - pending)), false)
    decreases pending
  {
    if pending > 0 {
      var t := s.(sink := UnqueueOne(s.sink));
      RefillInactive(t, pending - 1, now);
      assert s.sink.queue[1..][pending - 1..] == s.sink.queue[pending..];
    }
  }

  /** After the end of a stream that may loop again (interval >= 0), a refill
      pass only unqueues the processed buffers: none is queued again, the
      stream stays ended at the same position, and the pass reports what it
      was given. */
  lemma {:induction false} EndedRefillDrains(s: Session, pending: nat, active: bool, now: nat)
    requires Wf(s) && s.isOpen && FillEnds(s) && pending <= s.sink.processed
    requires s.ended && s.loopInterval >= 0
    ensures var (t, a) := Refill(s, pending, active, now);
      && a == active && t.ended && t.cursor == s.cursor
      && t.sink.queue == s.sink.queue[pending..]
    decreases pending
  {
    if pending > 0 {
      var (t, a) := RefillStep(s, active, now);
      assert t.sink.queue == s.sink.queue[1..];
      EndedRefillDrains(t, pending - 1, a, now);
      assert s.sink.queue[1..][pending - 1..] == s.sink.queue[pending..];
    }
  }

  /** `update` reports false when it processes a buffer after the end of a
      stream that never loops (interval < 0). */
  lemma UpdateReportsEnd(s: Session, now: nat)
    requires Wf(s) && FillEnds(s) && s.isOpen && s.ended && s.loopInterval < 0 && s.sink.processed > 0
    ensures !UpdateSpec(s, now).1
  {
    var (t, a) := RefillStep(s, true, now);
    assert !a;
    RefillInactive(t, s.sink.processed - 1, now);
  }

  /** The last chunk of a stream that does not loop with interval 0 is
      loaded but never played when `update` reads it: if the one processed
      buffer is refilled with the final bytes of the file, those bytes go into
      the buffer, the stream ends, and the buffer is not queued again. */
  lemma UpdateDropsLastChunk(s: Session, now: nat)
    requires Wf(s) && FillEnds(s) && s.isOpen && !s.ended && s.sink.processed == 1
    requires s.loopInterval != 0 && s.media.badFrom >= |s.media.pcm|
    requires s.cursor < |s.media.pcm| < s.cursor + s.bufferSize
    ensures var (t, ok) := UpdateSpec(s, now);
      && ok && t.ended
      && t.sink.loaded[s.sink.queue[0]] == s.media.pcm[s.cursor..]
      && t.sink.queue == s.sink.queue[1..]
  {
    FillWithoutLoop(s.media, s.cursor, s.bufferSize, s.loopInterval);
    var (t, a) := RefillStep(s, true, now);
    assert Refill(t, 0, a, now) == (t, a);
  }
}
