/**
 A sound effect (src/sndfx.cpp): it picks a decoder for a file by its name,
 owns at most one `SoundStream`, and forwards its operations to that stream
 when there is one.
 */
module Effects {
  import opened Decoder
  import opened Filling
  import opened Engine
  import opened Streaming
  import opened EngineProps

  /** True when `pat` occurs in `s` starting at index `i`. */
  predicate OccursAt(s: string, pat: string, i: nat) {
    i + |pat| <= |s| && s[i..i + |pat|] == pat
  }

  /** `std::string::find(pat, from)`: the first index at or after `from`
      where `pat` occurs, None for `npos`. */
  function FindFrom(s: string, pat: string, from: nat): (r: Option<nat>)
    ensures r.Some? ==> from <= r.value && OccursAt(s, pat, r.value)
    ensures r.Some? ==> forall j :: from <= j < r.value ==> !OccursAt(s, pat, j)
    ensures r.None? ==> forall j :: from <= j ==> !OccursAt(s, pat, j)
    decreases |s| - from
  {
    if from + |pat| > |s| then None
    else if s[from..from + |pat|] == pat then Some(from)
    else FindFrom(s, pat, from + 1)
  }

  const OggExtension := ".ogg"

  /** The scratch buffer size both decoders give their stream
      (src/oggstream.cpp:31-33, src/cafstream.cpp:35-37). */
  const StreamBufferSize := 4096 * 16

  /** `createStream`: an Ogg stream whenever ".ogg" occurs anywhere in the
      name; otherwise a CAF stream on Apple platforms and none elsewhere
      (src/sndfx.cpp:112-131). */
  function CreateStreamKind(fileName: string, onApple: bool): (r: Option<StreamType>)
    ensures r == Some(TypeOgg) <==> exists i :: OccursAt(fileName, OggExtension, i)
    ensures r == Some(TypeCaf) <==> onApple && forall i :: !OccursAt(fileName, OggExtension, i)
    ensures r == None <==> !onApple && forall i :: !OccursAt(fileName, OggExtension, i)
  {
    var found := FindFrom(fileName, OggExtension, 0);
    if found.Some? then Some(TypeOgg)
    else if onApple then Some(TypeCaf)
    else None
  }

  /** The test is for a substring, not a suffix: a name with ".ogg" in the
      middle still gets the Ogg decoder, on every platform. */
  lemma OggInsideNameChoosesOgg(onApple: bool)
    ensures CreateStreamKind("theme.ogg.bak", onApple) == Some(TypeOgg)
    ensures CreateStreamKind("theme.caf", onApple) == (if onApple then Some(TypeCaf) else None)
  {
    assert OccursAt("theme.ogg.bak", OggExtension, 5);
    var name := "theme.caf";
    forall i: nat | i + |OggExtension| <= |name|
      ensures !OccursAt(name, OggExtension, i)
    {
      assert name[i..i + 4][0] == name[i] && name[i..i + 4][1] == name[i + 1];
    }
  }

  /** What both constructors do to the new stream once its decoder exists:
      open the file (the decoder finds `m` there), make the source
      listener-relative for music, set the loop interval, and start playback,
      whose result is only logged (src/sndfx.cpp:48-70, 89-102). */
  function Started(s: Session, fileName: string, m: Media, asMusic: bool, lp: int, now: nat): (t: Session)
    requires Wf(s) && !s.isOpen && FillTerminates(m, lp)
    ensures Wf(t) && t.isOpen && t.fileName == fileName && t.media == m
    ensures t.loopInterval == lp && t.sink.music == asMusic
  {
    var o := OpenSpec(s, fileName, Some(m)).0;
    var setup := if asMusic then o.(sink := o.sink.(music := true)) else o;
    PlaybackSpec(setup.(loopInterval := lp), false, now).0
  }

  /** Where a stream stands after `Started` on file `m` with interval `lp`:
      its source plays exactly when the first chunk of the file fills, and
      then holds the front buffer and possibly the back one behind it, none
      processed; otherwise nothing is queued. If the stream already ended, its
      interval is not 0 and the whole file was read. */
  predicate PlaybackStarted(t: Session, m: Media, lp: int) {
    && FillTerminates(m, lp)
    && (t.sink.playing <==> Fill(m, 0, t.bufferSize, lp).ok)
    && (t.sink.playing ==>
          t.sink.processed == 0 && (t.sink.queue == [t.front] || t.sink.queue == [t.front, t.back]))
    && (!t.sink.playing ==> t.sink.queue == [])
    && (t.ended ==> lp != 0 && t.cursor == |m.pcm|)
  }

  /** A new stream that has not ended is started as `PlaybackStarted` says. */
  lemma StartedPlays(s: Session, fileName: string, m: Media, asMusic: bool, lp: int, now: nat)
    requires Wf(s) && !s.isOpen && !s.ended && FillTerminates(m, lp)
    ensures PlaybackStarted(Started(s, fileName, m, asMusic, lp, now), m, lp)
  {
    var o := OpenSpec(s, fileName, Some(m)).0;
    var setup := (if asMusic then o.(sink := o.sink.(music := true)) else o).(loopInterval := lp);
    var (s2, ok1) := StreamSpec(setup, setup.front, false, now);
    PlaybackQueues(setup, false, now);
    StreamEndPolicy(setup, setup.front, false, now);
    StreamEndPolicy(s2, setup.back, false, now);
  }

  class SndFx {
    var sndStream: SoundStream?
    var removable: bool

    /** The stream object and the arrays it owns. */
    ghost function StreamRepr(): set<object>
      reads this
    {
      if sndStream == null then {} else {sndStream, sndStream.bufferData, sndStream.buffers}
    }

    ghost predicate Valid()
      reads this, StreamRepr()
    {
      sndStream != null ==> sndStream.Valid()
    }

    /** Loop-interval check for an open stream: the fill loop needs it. */
    ghost predicate CanStream()
      reads this, StreamRepr()
    {
      sndStream != null && sndStream.Valid() && (sndStream.isOpen ==> FillEnds(sndStream.Abs()))
    }

    /** The list-head constructor: no stream (src/sndfx.cpp:28-32). */
    constructor ListHead()
      ensures Valid() && sndStream == null && removable
    {
      sndStream := null;
      removable := true;
    }

    /** The positional constructor (src/sndfx.cpp:37-75): create the stream
        for the file, open it, set its loop interval and start it; a file that
        does not open leaves no stream. `found` is what the decoder finds in
        the file. The position and the other source parameters are not
        modelled. */
    constructor Positional(lp: int, fileName: string, found: Option<Media>, onApple: bool, now: nat)
      requires found.Some? ==> FillTerminates(found.value, lp)
      ensures Valid() && removable
      ensures sndStream != null <==> CreateStreamKind(fileName, onApple).Some? && found.Some?
      ensures sndStream != null ==>
        && fresh(sndStream) && sndStream.kind == CreateStreamKind(fileName, onApple).value
        && sndStream.isOpen && sndStream.fileName == fileName && sndStream.media == found.value
        && sndStream.loopInterval == lp && !sndStream.sink.music
        && PlaybackStarted(sndStream.Abs(), found.value, lp)
    {
      removable := true;
      var kind := CreateStreamKind(fileName, onApple);
      if kind.Some? {
        sndStream := new SoundStream(kind.value, StreamBufferSize, lp);
      } else {
        sndStream := null;
      }
      new;
      if sndStream != null {
        ghost var s0 := sndStream.Abs();
        OpenAndPlay(lp, fileName, found, false, now);
        if found.Some? {
          StartedPlays(s0, fileName, found.value, false, lp, now);
        }
      }
    }

    /** The music constructor (src/sndfx.cpp:80-107): as the positional one,
        but the source is made listener-relative with `defineAsMusic`. */
    constructor Music(lp: int, fileName: string, found: Option<Media>, onApple: bool, now: nat)
      requires found.Some? ==> FillTerminates(found.value, lp)
      ensures Valid() && removable
      ensures sndStream != null <==> CreateStreamKind(fileName, onApple).Some? && found.Some?
      ensures sndStream != null ==>
        && fresh(sndStream) && sndStream.kind == CreateStreamKind(fileName, onApple).value
        && sndStream.isOpen && sndStream.fileName == fileName && sndStream.media == found.value
        && sndStream.loopInterval == lp && sndStream.sink.music
        && PlaybackStarted(sndStream.Abs(), found.value, lp)
    {
      removable := true;
      var kind := CreateStreamKind(fileName, onApple);
      if kind.Some? {
        sndStream := new SoundStream(kind.value, StreamBufferSize, lp);
      } else {
        sndStream := null;
      }
      new;
      if sndStream != null {
        ghost var s0 := sndStream.Abs();
        OpenAndPlay(lp, fileName, found, true, now);
        if found.Some? {
          StartedPlays(s0, fileName, found.value, true, lp, now);
        }
      }
    }

    /** What both constructors do once the stream exists (src/sndfx.cpp:48-70
        and 89-102): open the file; on success make the source listener-relative
        for music, set the loop interval and start playback, whose failure is
        only logged; on failure drop the stream. */
    method OpenAndPlay(lp: int, fileName: string, found: Option<Media>, asMusic: bool, now: nat)
      requires sndStream != null && sndStream.Valid() && !sndStream.isOpen
      requires found.Some? ==> FillTerminates(found.value, lp)
      modifies this, StreamRepr()
      ensures removable == old(removable)
      ensures found.None? ==> sndStream == null
      ensures found.Some? ==>
        && sndStream == old(sndStream) && sndStream.Valid()
        && sndStream.Abs() == Started(old(sndStream.Abs()), fileName, found.value, asMusic, lp, now)
    {
      var isOpen := sndStream.Open(fileName, found);
      if isOpen {
        if asMusic {
          sndStream.DefineAsMusic();
        }
        sndStream.SetLoop(lp);
        var played := sndStream.Playback(false, now);
      } else {
        DeleteStream();
      }
    }

    /** `deleteStream` (src/sndfx.cpp:136-165): drop the stream, if any. */
    method DeleteStream()
      modifies this
      ensures sndStream == null && removable == old(removable)
    {
      if sndStream != null {
        sndStream := null;
      }
    }

    /** The destructor (src/sndfx.cpp:170-177): release the stream, then
        delete it. */
    method Destroy()
      requires Valid()
      modifies this, StreamRepr()
      ensures sndStream == null && removable == old(removable)
      ensures old(sndStream) != null ==>
        old(sndStream).Valid() && old(sndStream).Abs() == ReleaseSpec(old(sndStream.Abs()))
    {
      if sndStream != null {
        sndStream.Release();
        DeleteStream();
      }
    }

    /** `setLoop` (src/sndfx.cpp:182-188). */
    method SetLoop(lp: int)
      requires Valid()
      modifies StreamRepr()
      ensures Valid() && StreamRepr() == old(StreamRepr())
      ensures sndStream != null ==> sndStream.Abs() == old(sndStream.Abs()).(loopInterval := lp)
    {
      if sndStream != null {
        sndStream.SetLoop(lp);
      }
    }

    /** `defineAsMusic` (src/sndfx.cpp:193-199). */
    method DefineAsMusic()
      requires Valid()
      modifies StreamRepr()
      ensures Valid() && StreamRepr() == old(StreamRepr())
      ensures sndStream != null && old(sndStream.isOpen) ==>
        sndStream.Abs() == old(sndStream.Abs()).(sink := old(sndStream.sink).(music := true))
      ensures sndStream != null && !old(sndStream.isOpen) ==> sndStream.Abs() == old(sndStream.Abs())
    {
      if sndStream != null {
        sndStream.DefineAsMusic();
      }
    }

    /** `rewind` (src/sndfx.cpp:258-266). */
    method Rewind(now: nat) returns (ok: bool)
      requires Valid() && (sndStream != null ==> CanStream())
      modifies StreamRepr()
      ensures Valid() && StreamRepr() == old(StreamRepr())
      ensures sndStream == null ==> !ok
      ensures sndStream != null ==> (sndStream.Abs(), ok) == RewindSpec(old(sndStream.Abs()), now)
    {
      if sndStream != null {
        ok := sndStream.Rewind(now);
      } else {
        ok := false;
      }
    }

    /** `update` (src/sndfx.cpp:271-278). */
    method Update(now: nat) returns (active: bool)
      requires Valid() && (sndStream != null ==> CanStream())
      modifies StreamRepr()
      ensures Valid() && StreamRepr() == old(StreamRepr())
      ensures sndStream == null ==> !active
      ensures sndStream != null ==> (sndStream.Abs(), active) == UpdateSpec(old(sndStream.Abs()), now)
    {
      if sndStream != null {
        active := sndStream.Update(now);
      } else {
        active := false;
      }
    }

    /** `isPlaying` (src/sndfx.cpp:283-291). */
    method IsPlaying() returns (playing: bool)
      requires Valid()
      ensures playing <==> sndStream != null && IsPlayingSpec(sndStream.Abs())
    {
      if sndStream != null {
        playing := sndStream.IsPlaying();
      } else {
        playing := false;
      }
    }

    /** `changeVolume` (src/sndfx.cpp:296-302). */
    method ChangeVolume(volume: int)
      requires Valid()
      modifies StreamRepr()
      ensures Valid() && StreamRepr() == old(StreamRepr())
      ensures sndStream != null ==>
        sndStream.Abs() == old(sndStream.Abs()).(sink := old(sndStream.sink).(volume := volume))
    {
      if sndStream != null {
        sndStream.ChangeVolume(volume);
      }
    }

    /** `setRemoval` (src/sndfx.h:125). */
    method SetRemoval(r: bool)
      modifies this
      ensures removable == r && sndStream == old(sndStream)
    {
      removable := r;
    }

    /** `getRemoval` (src/sndfx.h:129). */
    method GetRemoval() returns (r: bool)
      ensures r == removable
    {
      r := removable;
    }
  }
}
