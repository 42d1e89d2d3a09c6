/**
 The state of one `SoundStream` as a value, and what each of its operations
 does to it (src/soundstream.cpp). The class in Streaming keeps the same state
 in fields and is proved to follow these functions; the properties of the
 engine are proved about these functions in EngineProps.
 */
module Engine {
  import opened Decoder
  import opened Device
  import opened Filling

  datatype Session = Session(
    kind: StreamType,
    bufferSize: nat,
    scratch: seq<byte>,      // bufferData[0..bufferSize)
    fileName: string,
    isOpen: bool,
    ended: bool,
    loopInterval: int,
    loopTimerMark: nat,      // clock reading at the last loopTimer.reset()
    media: Media,            // what the decoder reads
    cursor: nat,             // the decoder's read position
    format: Format,
    sampleRate: nat,
    front: BufferId,         // buffers[0]
    back: BufferId,          // buffers[1]
    sink: Sink)

  /** Bookkeeping every reachable session keeps: the scratch buffer has its
      fixed size, the decoder position is readable, and an open session owns a
      live source whose queue holds only its own two buffers. */
  predicate Wf(s: Session) {
    && |s.scratch| == s.bufferSize
    && s.cursor <= Limit(s.media)
    && SinkWf(s.sink)
    && (s.isOpen ==> s.sink.alive && s.front != s.back && OwnBuffers(s))
    && (!s.isOpen ==> !s.sink.alive && !s.sink.playing)
  }

  predicate OwnBuffers(s: Session) {
    forall i :: 0 <= i < |s.sink.queue| ==> s.sink.queue[i] == s.front || s.sink.queue[i] == s.back
  }

  /** The fill loop ends (see Filling.FillTerminates). */
  predicate FillEnds(s: Session) {
    FillTerminates(s.media, s.loopInterval)
  }

  /** The fields only open, setLoop and release change. */
  predicate Fixed(s: Session, t: Session) {
    && t.kind == s.kind && t.bufferSize == s.bufferSize && t.fileName == s.fileName
    && t.isOpen == s.isOpen && t.loopInterval == s.loopInterval && t.media == s.media
    && t.format == s.format && t.sampleRate == s.sampleRate
    && t.front == s.front && t.back == s.back
  }

  /** A freshly constructed stream (src/soundstream.cpp:29-41) whose scratch
      buffer holds `scratch` (the source leaves its bytes uninitialised). The
      source leaves `loopInterval` uninitialised too; here it is `lp`. */
  function Initial(t: StreamType, scratch: seq<byte>, lp: int): (s: Session)
    ensures Wf(s) && !s.isOpen && !s.ended && s.bufferSize == |scratch|
  {
    Session(t, |scratch|, scratch, "", false, false, lp, 0,
            NoFile, 0, Stereo16, 44100, 0, 0, NoSource)
  }

  /** `open`: refused on an open stream; otherwise the decoder opens the file
      (`found` is what it finds there, None when it cannot) and on success the
      two buffers and the source are generated (src/soundstream.cpp:55-80). */
  function OpenSpec(s: Session, fName: string, found: Option<Media>): (r: (Session, bool))
    requires Wf(s)
    ensures Wf(r.0)
  {
    if s.isOpen then (s, false)
    else
      var s1 := s.(fileName := fName);
      match found
      case None => (s1, false)
      case Some(m) =>
        var (k, b0, b1) := Generate(s.sink);
        (s1.(isOpen := true, media := m, cursor := 0, format := m.format,
             sampleRate := m.sampleRate, front := b0, back := b1, sink := k), true)
  }

  datatype Option<T> = None | Some(value: T)

  /** `empty`: unqueue as many times as buffers are queued; only processed
      ones come off (src/soundstream.cpp:361-378). */
  function EmptySpec(s: Session): (r: Session)
    requires Wf(s)
    ensures Wf(r) && Fixed(s, r) && r == s.(sink := r.sink)
    ensures s.isOpen ==> r.sink.queue == s.sink.queue[s.sink.processed..] && r.sink.processed == 0
    ensures !s.isOpen ==> r == s
  {
    if s.isOpen then s.(sink := Drain(s.sink)) else s
  }

  /** `release` (src/soundstream.cpp:108-133). */
  function ReleaseSpec(s: Session): (r: Session)
    requires Wf(s)
    ensures Wf(r) && !r.isOpen
  {
    if !s.isOpen then s
    else
      var k1 := if !s.ended then Stop(s.sink) else s.sink;
      var k2 := Drain(k1);
      s.(sink := Delete(k2, s.front, s.back), isOpen := false)
  }

  /** `isPlaying` (src/soundstream.cpp:178-188): only an open stream can
      report a playing source. */
  function IsPlayingSpec(s: Session): (r: bool)
    ensures r ==> s.isOpen
  {
    s.isOpen && s.sink.playing
  }

  /** The fill loop and what follows it in `stream` (src/soundstream.cpp:289-338). */
  function FillChunk(s: Session, buffer: BufferId, now: nat): (r: (Session, bool))
    requires Wf(s) && s.isOpen && !s.ended && FillEnds(s)
    ensures Wf(r.0) && Fixed(s, r.0)
    ensures r.0.sink.queue == s.sink.queue && r.0.sink.processed >= s.sink.processed
    ensures r.0.sink.playing ==> s.sink.playing
    ensures r.0.sink.music == s.sink.music && r.0.sink.loaded - {buffer} == s.sink.loaded - {buffer}
  {
    var out := Fill(s.media, s.cursor, s.bufferSize, s.loopInterval);
    var s1 := s.(cursor := out.cursor, ended := out.eof,
                 scratch := out.data + s.scratch[|out.data|..],
                 loopTimerMark := if out.eof && s.loopInterval > 0 then now else s.loopTimerMark);
    if !out.ok then (s1, false)
    else if |out.data| > 0 then (s1.(sink := BufferData(s1.sink, buffer, out.data)), true)
    else if out.eof then (s1.(sink := Stop(s1.sink)), true)
    else (s1, true)
  }

  /** `stream(buffer, rw)` (src/soundstream.cpp:260-339). */
  function StreamSpec(s: Session, buffer: BufferId, rw: bool, now: nat): (r: (Session, bool))
    requires Wf(s) && s.isOpen && FillEnds(s)
    ensures Wf(r.0) && Fixed(s, r.0)
    ensures r.0.sink.queue == s.sink.queue && r.0.sink.processed >= s.sink.processed
    ensures r.0.sink.playing ==> s.sink.playing
    ensures r.0.sink.music == s.sink.music && r.0.sink.loaded - {buffer} == s.sink.loaded - {buffer}
  {
    if rw then
      var s1 := s.(ended := false);
      if !s.media.seekable then (s1, false)
      else FillChunk(s1.(cursor := 0), buffer, now)
    else if s.ended then
      (if s.sink.playing then s.(sink := Stop(s.sink)) else s, s.loopInterval >= 0)
    else FillChunk(s, buffer, now)
  }

  /** `playback(rw)` (src/soundstream.cpp:138-173). */
  function PlaybackSpec(s: Session, rw: bool, now: nat): (r: (Session, bool))
    requires Wf(s) && (s.isOpen ==> FillEnds(s))
    ensures Wf(r.0) && Fixed(s, r.0) && r.0.sink.music == s.sink.music
  {
    if !s.isOpen then (s, false)
    else if s.sink.playing && !rw then (s, true)
    else
      var s1 := if s.sink.playing && rw then s.(sink := Drain(Stop(s.sink))) else s;
      var (s2, ok1) := StreamSpec(s1, s.front, rw, now);
      if !ok1 then (s2, false)
      else
        var (s3, ok2) := StreamSpec(s2, s.back, false, now);
        var ids := if ok2 then [s.front, s.back] else [s.front];
        (s3.(sink := Play(Enqueue(s3.sink, ids))), true)
  }

  /** `rewind` (src/soundstream.cpp:193-200). */
  function RewindSpec(s: Session, now: nat): (r: (Session, bool))
    requires Wf(s) && (s.isOpen ==> FillEnds(s))
    ensures Wf(r.0) && Fixed(s, r.0)
  {
    if s.isOpen then PlaybackSpec(s, true, now) else (s, false)
  }

  /** Whole seconds since the loop timer was last reset. */
  function ElapsedSeconds(s: Session, now: nat): nat {
    if now >= s.loopTimerMark then (now - s.loopTimerMark) / 1000 else 0
  }

  /** The restart test at the top of `update` (src/soundstream.cpp:215-226). */
  predicate RestartDue(s: Session, now: nat) {
    s.sink.processed == 0 && s.ended && s.loopInterval > 0
    && ElapsedSeconds(s, now) >= s.loopInterval
  }

  /** One turn of the `while(processed--)` loop of `update`: unqueue the front
      buffer and, while the stream is still active, refill it and queue it
      again unless the file ended (src/soundstream.cpp:231-248). */
  function RefillStep(s: Session, active: bool, now: nat): (r: (Session, bool))
    requires Wf(s) && s.isOpen && FillEnds(s) && s.sink.processed > 0
    ensures Wf(r.0) && Fixed(s, r.0) && r.0.sink.processed >= s.sink.processed - 1
    ensures r.1 ==> active
  {
    var buffer := s.sink.queue[0];
    var s1 := s.(sink := UnqueueOne(s.sink));
    if !active then (s1, false)
    else
      var (s2, ok) := StreamSpec(s1, buffer, false, now);
      (if ok && !s2.ended then s2.(sink := Enqueue(s2.sink, [buffer])) else s2, ok)
  }

  /** The `while(processed--)` pass of `update` over the `pending` buffers the
      device has finished (src/soundstream.cpp:229-249). */
  function Refill(s: Session, pending: nat, active: bool, now: nat): (r: (Session, bool))
    requires Wf(s) && s.isOpen && FillEnds(s) && pending <= s.sink.processed
    ensures Wf(r.0) && Fixed(s, r.0)
    decreases pending
  {
    if pending == 0 then (s, active)
    else
      var (t, a) := RefillStep(s, active, now);
      Refill(t, pending - 1, a, now)
  }

  /** A pass over `pending` buffers is one step followed by a pass over the
      rest. */
  lemma RefillUnfold(s: Session, pending: nat, active: bool, now: nat)
    requires Wf(s) && s.isOpen && FillEnds(s) && 0 < pending <= s.sink.processed
    ensures var (t, a) := RefillStep(s, active, now);
      FillEnds(t) && pending - 1 <= t.sink.processed
      && Refill(s, pending, active, now) == Refill(t, pending - 1, a, now)
  {
  }

  /** `update` (src/soundstream.cpp:205-255). */
  function UpdateSpec(s: Session, now: nat): (r: (Session, bool))
    requires Wf(s) && (s.isOpen ==> FillEnds(s))
    ensures Wf(r.0) && Fixed(s, r.0)
  {
    if !s.isOpen then (s, false)
    else
      var (s1, active) := if RestartDue(s, now) then PlaybackSpec(s, true, now) else (s, true);
      Refill(s1, s.sink.processed, active, now)
  }
}
