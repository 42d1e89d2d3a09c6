# kosound streaming engine in Dafny

This project models the streaming core of kosound, a small OpenAL sound
library:

- **`SoundStream`** is the engine that streams a decoded sound file to an
  OpenAL source through two buffers.
  - It opens a file through a decoder and fills a fixed-size scratch buffer
    with PCM bytes (`stream`).
  - It queues a front and a back buffer and starts the source (`playback`).
  - It refills each buffer the device has finished, then queues it again
    (`update`).
  - At end of file it follows the loop interval: a negative interval never
    loops, 0 loops at once, and a positive interval waits that many seconds
    before restarting.
- **`SndFx`** is the sound effect that owns one stream.
  - It chooses the decoder from the file name.
  - It forwards its operations to the stream when there is one.

## Modules

- **`Decoder`** (decoder.dfy) describes what `_open` finds in a file.
  - The file is its decoded bytes, whether the decoder can seek, and where
    undecodable data begins.
  - `ReadAllowed` is the `_getBuffer` contract: a read may deliver any number
    of bytes up to the request. `Read` is one read that follows it, delivering
    at most a packet (`grain`) per call.
- **`Device`** (device.dfy) is the OpenAL source and its two buffers, kept as
  a value.
  - It holds the queue of buffer ids, the number of them already processed,
    the playing flag, and the bytes loaded into each buffer.
  - Its functions are the OpenAL calls the engine makes. Each one follows the
    OpenAL 1.1 rules the engine relies on.
- **`Filling`** (fill.dfy) defines `Fill`, which gives what one run of the
  read loop in `stream` produces.
  - It does not depend on how the decoder splits its reads.
  - The lemmas there state the loop policy at end of file.
- **`Engine`** (engine.dfy) holds the engine state as a value (`Session`) and
  one function per operation.
- **`Streaming`** (soundstream.dfy) holds the class `SoundStream`.
  - Its fields mirror the C++ members (`isOpen` is the source's `opened`).
  - Its methods update them in place, with the read buffer as an array.
  - Each method is proved to move the abstract state `Abs()` exactly as the
    matching `Engine` function says.
- **`EngineProps`** (engine_props.dfy) proves what the engine guarantees
  about those functions.
- **`Effects`** (sndfx.dfy) holds the file-name dispatch and the class
  `SndFx`.

The wall clock is an argument `now` in milliseconds. The loop timer is the
clock reading at its last reset.

## Behaviour as the code has it

The model follows the code where it departs from what its comments suggest.

- After a stream with a negative interval has ended, `update` returns false only on the call that processes a buffer. Later calls, with nothing processed, return true again (`EngineProps.UpdateReportsEnd`, `EngineProps.UpdateIdle`). The header (src/soundstream.h:80-82) says it returns false when the stream is over. `update` also returns false on a closed stream (src/soundstream.cpp:254), when a refill's `stream` fails (src/soundstream.cpp:240) because of undecodable data or a failed interval-0 `_rewind` on a file that cannot seek (src/soundstream.cpp:305-311), and when the playback of a due restart fails (src/soundstream.cpp:223).
- A chunk refilled by `update` that reaches the end of the file is loaded but not queued again, so it is never heard (`EngineProps.UpdateDropsLastChunk`).
- A playback of a file with no data and interval != 0 succeeds and starts the source with an empty buffer queued (`EngineProps.EmptyFilePlaybackStarts`).
- `rewind` on a stopped stream whose spent buffers were never unqueued queues the two ids again behind them. The queue can then hold more than two entries (`EngineProps.RewindKeepsSpentBuffers`).
- `open` does not reset `ended`, and `update` never restarts a source that stopped because it ran out of queued data (`EngineProps.OpenOutcome`, `EngineProps.UpdateStartsOnlyOnRestart`).

## Model

| member | source | states |
|---|---|---|
| Decoder.Read | src/soundstream.h:123-130 | A read satisfies `ReadAllowed`, the `_getBuffer` contract. It fails exactly when it starts at undecodable data. Otherwise it delivers at most `readBytes` of the readable bytes, and EOF exactly when it delivers 0 bytes. With room left and data left it delivers at least one byte. This reader also delivers at most `grain` bytes, and reports EOF only at the end of the file. |
| Device.Stop | src/soundstream.cpp:115 | `alSourceStop` stops the source and marks every queued buffer processed. The queue itself is unchanged. |
| Device.Play | src/soundstream.cpp:168 | `alSourcePlay` starts the source. Every queued buffer becomes pending again. |
| Device.Enqueue | src/soundstream.cpp:167 | `alSourceQueueBuffers` appends the ids to the queue as pending buffers. |
| Device.UnqueueOne | src/soundstream.cpp:233 | `alSourceUnqueueBuffers(1)` removes the front buffer only when it is processed. Otherwise the sink is unchanged. |
| Device.Drain | src/soundstream.cpp:361-378 | Unqueueing once per queued buffer removes exactly the processed ones. The pending ones stay, and none are processed afterwards. |
| Device.BufferData | src/soundstream.cpp:329 | `alBufferData` replaces the bytes of one buffer and nothing else. |
| Device.Generate | src/soundstream.cpp:71-73 | `alGenBuffers(2)` and `alGenSources` give two distinct fresh buffer ids and a live, stopped source with an empty queue. |
| Device.Delete | src/soundstream.cpp:123-125 | Deleting the source and the buffers leaves a dead, stopped source and drops the data of both buffers. |
| Filling.Fill | src/soundstream.cpp:289-325 | A chunk holds at most the requested bytes. If it succeeds without EOF it is full. EOF is reported only when the loop interval is not 0, on a chunk that is not full, and at the end of the file. A failed chunk is not full. |
| Filling.FillAdvance | src/soundstream.cpp:301-302 | Reading `n` available bytes splits a chunk into those bytes followed by the fill from the new position. |
| Filling.FillAfterRead | src/soundstream.cpp:292-324 | One read-loop turn, for any read the `_getBuffer` contract allows. A failed read ends the chunk in failure. A read that delivers bytes leaves the same fill to do from the new position. An EOF read ends the stream (interval != 0), or, with interval 0, fails the chunk when `_rewind` fails or restarts the fill from byte 0 when it succeeds. |
| Filling.FillAtEnd | src/soundstream.cpp:303-324 | At end of file with room left, interval 0 continues from the start if the decoder can seek and fails if it cannot. Any other interval ends the stream with nothing more read. |
| Filling.FillFailsExactly | src/soundstream.cpp:292-311 | A chunk fails exactly when it needs bytes past the readable limit, and either an undecodable byte is reached or interval 0 meets a file that cannot seek. |
| Filling.FillEofExactly | src/soundstream.cpp:303-323 | A chunk ends the stream exactly when the interval is not 0, every byte decodes, and the file runs out before the chunk is full. |
| Filling.FillWithoutLoop | src/soundstream.cpp:292-325 | With interval != 0 a chunk is the next bytes of the file, as many as fit. It ends the stream exactly when the file ran out first, and fails exactly when undecodable data was hit first. |
| Filling.FillLoopsCyclically | src/soundstream.h:95-98 | With interval 0 on a seekable file that decodes and is not empty, a chunk is always full and continues the file cyclically without a gap. |
| Engine.Initial | src/soundstream.cpp:29-41 | A new stream is closed, has not ended, owns no source, and has a scratch buffer of `bufferSize` bytes. |
| Engine.OpenSpec | src/soundstream.cpp:55-80 | `open` keeps the engine's well-formedness; its outcome is stated by `EngineProps.OpenOutcome`. |
| Engine.EmptySpec | src/soundstream.cpp:361-378 | `empty` changes only the sink. On an open stream it unqueues exactly the processed buffers, from the front of the queue, and leaves none processed. On a closed stream it changes nothing. |
| Engine.ReleaseSpec | src/soundstream.cpp:108-133 | `release` always leaves the stream closed and well formed. |
| Engine.IsPlayingSpec | src/soundstream.cpp:178-188 | `isPlaying` reports a playing source only on an open stream. |
| Engine.FillChunk | src/soundstream.cpp:289-338 | The read loop plus loading the data does not change the queue or the open state. It never starts the source, never lowers the processed count, and loads no buffer other than the one given. |
| Engine.StreamSpec | src/soundstream.cpp:260-339 | `stream` keeps the queue and the source parameters. It never starts the source, and loads no buffer other than the one given. |
| Engine.PlaybackSpec | src/soundstream.cpp:138-173 | `playback` keeps well-formedness and changes neither the file, the loop interval nor the buffer ids. |
| Engine.RewindSpec | src/soundstream.cpp:193-200 | `rewind` keeps well-formedness and the fixed fields. |
| Engine.RefillStep | src/soundstream.cpp:231-248 | One turn of the refill loop lowers the processed count by at most one, and once inactive it stays inactive. |
| Engine.Refill | src/soundstream.cpp:229-249 | The refill pass keeps well-formedness and the fixed fields. |
| Engine.RefillUnfold | src/soundstream.cpp:229-249 | A pass over `pending` buffers is one turn followed by a pass over the rest. |
| Engine.UpdateSpec | src/soundstream.cpp:205-255 | `update` keeps well-formedness and the fixed fields. |
| EngineProps.OpenOutcome | src/soundstream.cpp:55-80 | `open` succeeds exactly on a closed stream whose file the decoder opens. It then owns two distinct fresh buffers and an idle source with an empty queue, reads from byte 0 with the file's format and rate, and keeps every other field; `ended` is not reset. On an open stream it changes nothing. On a file the decoder cannot open it records only the file name. |
| EngineProps.ReleaseCloses | src/soundstream.cpp:108-133 | `release` on a closed stream changes nothing. Otherwise it changes only the sink and the open flag: the stream is closed, its source is dead, and the data of both buffers is gone. A second release is a no-op, and the stream can be opened again. The queue keeps exactly the buffers `empty` could not unqueue: none if the source was stopped first, and the pending ones if the stream had ended. |
| EngineProps.StreamFailsExactly | src/soundstream.cpp:267-338 | `stream` returns false exactly when `_rewind` fails on a rewind, when it is called after the end of a stream with a negative interval, or when the chunk fails. |
| EngineProps.RewoundStreamLoadsFileStart | src/soundstream.cpp:267-331 | A rewound stream over a good file with interval != 0 loads the first `bufferSize` bytes, or the whole file if shorter. It ends exactly when the file is shorter than a chunk, and then a positive interval resets the timer. |
| EngineProps.StreamEndPolicy | src/soundstream.cpp:274-324 | Only a stream with interval != 0 ends, and then at the last byte of the file; an interval > 0 resets the timer then. With interval 0 the stream never ends. A call after the end changes nothing but stopping a playing source, and fails exactly when the interval is negative. |
| EngineProps.PlaybackQueues | src/soundstream.cpp:138-173 | A rewind of a playing source first empties its queue. `playback` succeeds exactly when streaming the front buffer succeeds. Then the source plays with nothing processed, and the queue gains the front buffer, followed by the back buffer exactly when streaming it succeeded too. On failure the source is stopped and nothing is queued. |
| EngineProps.PlaybackNoOps | src/soundstream.cpp:140-172 | `playback` on a closed stream returns false and changes nothing. On a playing stream without rewind it returns true and changes nothing. |
| EngineProps.FirstPlaybackPlays | src/soundstream.cpp:138-173 | The first playback of a stream that has not ended, over a good seekable file, succeeds and the source plays. Only the front buffer is queued when the interval is negative and the first chunk reaches the end of the file. Otherwise the front and back buffers are queued. |
| EngineProps.RewindKeepsSpentBuffers | src/soundstream.cpp:146-168 | Rewinding a stopped stream whose spent buffers were never unqueued queues the ids again behind them: the queue grows and keeps the spent ids first. With two spent buffers it then holds more than two entries. |
| EngineProps.EmptyFilePlaybackStarts | src/soundstream.cpp:327-336 | An empty file with interval != 0 still starts the source on a successful playback. The front buffer is queued though nothing was loaded into it. |
| EngineProps.UpdateIdle | src/soundstream.cpp:205-255 | `update` on a closed stream changes nothing and returns false. With nothing processed and no restart due, it changes nothing and returns true. |
| EngineProps.UpdateRestartsWhenDue | src/soundstream.cpp:214-249 | Once a stream with interval > 0 has ended, nothing is processed and the timer has run `loopInterval` seconds, `update` is `playback(true)`. In every other case it is the refill pass over the processed buffers. |
| EngineProps.DueRestartReplays | src/soundstream.cpp:214-226 | A due restart over a seekable, fully decodable file returns true. The source plays again with nothing processed, and the front buffer holds the first bytes of the file. |
| EngineProps.RefillStepQueue | src/soundstream.cpp:231-248 | Each turn takes the front buffer off and queues it again exactly when its refill succeeded without ending the stream. An inactive pass stays inactive. |
| EngineProps.RefillStepKeepsStopped | src/soundstream.cpp:231-248 | One turn of the refill loop never starts the source. |
| EngineProps.RefillKeepsStopped | src/soundstream.cpp:229-249 | A whole refill pass never starts the source. |
| EngineProps.UpdateStartsOnlyOnRestart | src/soundstream.cpp:214-249 | `update` starts a stopped source only through the loop restart. A source that ran dry stays stopped. |
| EngineProps.RefillLoopingNeverEnds | src/soundstream.cpp:229-249 | A refill pass never ends a stream with interval 0. |
| EngineProps.LoopingStreamNeverEnds | src/soundstream.h:95-98 | With interval 0, `update` never ends the stream. |
| EngineProps.RefillInactive | src/soundstream.cpp:236-248 | Once `active` is false the rest of the pass only unqueues the processed buffers and returns false. |
| EngineProps.EndedRefillDrains | src/soundstream.cpp:229-249 | After the end of a stream with interval >= 0, a refill pass unqueues the processed buffers without requeuing any. The stream stays ended at the same position, and the returned flag is unchanged. |
| EngineProps.UpdateReportsEnd | src/soundstream.cpp:278-286 | `update` returns false when it processes a buffer after the end of a stream that never loops. |
| EngineProps.UpdateDropsLastChunk | src/soundstream.cpp:238-247 | When `update` refills its one processed buffer with the final bytes of the file, those bytes are loaded and the stream ends. The buffer is not queued again, so that chunk is never played. |
| Streaming.SoundStream.constructor | src/soundstream.cpp:29-41 | The new object is `Engine.Initial`, with a freshly allocated read buffer of `bufSize` bytes. |
| Streaming.SoundStream.Open | src/soundstream.cpp:55-80 | The new state and result are exactly `OpenSpec`. |
| Streaming.SoundStream.DefineAsMusic | src/soundstream.cpp:85-95 | Only an open stream marks its source as listener-relative music. |
| Streaming.SoundStream.Release | src/soundstream.cpp:108-133 | The new state is exactly `ReleaseSpec`. |
| Streaming.SoundStream.Playback | src/soundstream.cpp:138-173 | The new state and result are exactly `PlaybackSpec`. |
| Streaming.SoundStream.IsPlaying | src/soundstream.cpp:178-188 | Returns `Engine.IsPlayingSpec`: true exactly when the stream is open and its source plays. |
| Streaming.SoundStream.Rewind | src/soundstream.cpp:193-200 | The new state and result are exactly `RewindSpec`. |
| Streaming.SoundStream.Update | src/soundstream.cpp:205-255 | The new state and result are exactly `UpdateSpec`. |
| Streaming.SoundStream.RefillPass | src/soundstream.cpp:229-249 | The `while(processed--)` loop produces exactly `Refill`. |
| Streaming.SoundStream.RefillOne | src/soundstream.cpp:231-248 | One loop turn takes the pass one step on. What remains is the pass over the remaining buffers. |
| Streaming.SoundStream.Stream | src/soundstream.cpp:260-339 | The new state and result are exactly `StreamSpec`. |
| Streaming.SoundStream.StreamChunk | src/soundstream.cpp:289-338 | The new state and result are exactly `FillChunk`. |
| Streaming.SoundStream.FillLoop | src/soundstream.cpp:289-325 | The loop returns success, byte count, position, ended flag and timer exactly as `Fill` gives them. The scratch buffer starts with the chunk's bytes, and the rest of it is untouched. |
| Streaming.SoundStream.ReadStep | src/soundstream.cpp:294-324 | One turn keeps `totalBytesReaded + readBytes == bufferSize`. It keeps the bytes read so far at the front of the buffer, and the loop's progress towards `Fill`. |
| Streaming.SoundStream.ChangeVolume | src/soundstream.cpp:344-347 | Only the source volume changes. |
| Streaming.SoundStream.SetLoop | src/soundstream.cpp:352-355 | Only the loop interval changes. |
| Streaming.SoundStream.Empty | src/soundstream.cpp:361-378 | The new state is exactly `EmptySpec`: the processed buffers are unqueued. |
| Streaming.SoundStream.DecoderRewind | src/soundstream.h:119-121 | `_rewind` succeeds exactly when the decoder can seek, and then the read position is byte 0. |
| Streaming.SoundStream.DecoderGetBuffer | src/soundstream.h:123-130 | The result satisfies `ReadAllowed`, and the position advances by the bytes delivered. Those bytes are written at `index` and nowhere else. The read loop relies on nothing more, so it is proved for any read size. |
| Effects.FindFrom | src/sndfx.cpp:114 | Returns the first index at or after `from` where the pattern occurs, and None exactly when there is none. |
| Effects.CreateStreamKind | src/sndfx.cpp:112-131 | A name gets Ogg exactly when ".ogg" occurs anywhere in it. Otherwise it gets CAF on Apple platforms and no stream elsewhere. |
| Effects.OggInsideNameChoosesOgg | src/sndfx.cpp:114-118 | "theme.ogg.bak" gets the Ogg decoder on every platform, while "theme.caf" does not. |
| Effects.Started | src/sndfx.cpp:48-70 | What the constructors do once the file opens leaves the stream open on the file, with the given interval, and marked as music exactly when asked. |
| Effects.StartedPlays | src/sndfx.cpp:48-70 | A new stream started this way meets `PlaybackStarted`. The source plays exactly when the first chunk of the file fills, with the front buffer and possibly the back one queued and none processed. Otherwise nothing is queued. A stream that already ended has interval != 0 and has read the whole file. |
| Effects.SndFx.ListHead | src/sndfx.cpp:28-32 | No stream, and removable. |
| Effects.SndFx.Positional | src/sndfx.cpp:37-75 | The effect is removable. It has a stream exactly when the name selects a decoder and the file opens. That stream is fresh, open on the file, has the given loop interval, and is not music. Its playback was started as `Effects.PlaybackStarted` says: the source plays exactly when the first chunk fills. |
| Effects.SndFx.Music | src/sndfx.cpp:80-107 | The same as `Positional`, except that the stream is marked as music. |
| Effects.SndFx.OpenAndPlay | src/sndfx.cpp:48-72 | If the file fails to open, the stream is deleted. Otherwise the stream's new state is exactly `Effects.Started` of the old one: opened, marked as music when asked, loop interval set, and playback run. `removable` is untouched. |
| Effects.SndFx.DeleteStream | src/sndfx.cpp:136-165 | Afterwards there is no stream, whether there was one or not. |
| Effects.SndFx.Destroy | src/sndfx.cpp:170-177 | The stream, if any, is released (`ReleaseSpec`) before it is deleted. |
| Effects.SndFx.SetLoop | src/sndfx.cpp:182-188 | Sets the stream's loop interval when there is a stream, and does nothing otherwise. |
| Effects.SndFx.DefineAsMusic | src/sndfx.cpp:193-199 | Forwards to the stream when there is one. |
| Effects.SndFx.Rewind | src/sndfx.cpp:258-266 | Returns false without a stream. Otherwise it returns the stream's `RewindSpec` result. |
| Effects.SndFx.Update | src/sndfx.cpp:271-278 | Returns false without a stream. Otherwise it returns the stream's `UpdateSpec` result. |
| Effects.SndFx.IsPlaying | src/sndfx.cpp:283-291 | Returns true exactly when there is a stream, it is open, and its source plays. |
| Effects.SndFx.ChangeVolume | src/sndfx.cpp:296-302 | Sets the stream's source volume when there is a stream. |
| Effects.SndFx.SetRemoval | src/sndfx.h:125 | Sets `removable` and keeps the stream. |
| Effects.SndFx.GetRemoval | src/sndfx.h:129 | Returns `removable`. |

## Left out

- OpenAL calls that only set float source parameters are not modelled. These are position, velocity, direction, rolloff, pitch, gain and reference distance, in `defineAsMusic` and in the positional constructor. The positional setters of `SndFx` (`redefinePosition`, `setVelocity`, `setRelative`, `setDirectionCone`) are pass-through float setters. `defineAsMusic` is a `music` flag on the sink.
- Streaming.SoundStream.ChangeVolume: the volume is recorded as given. The float gain `volume / 128.0` that OpenAL receives is not modelled.
- `check()` and the log messages have no effect on the engine's state and are left out.
- The Ogg and CAF decoders (src/oggstream.cpp, src/cafstream.cpp) are libvorbis and ExtAudioFile wrappers. Only the `_open`/`_getBuffer`/`_rewind` contract is modelled (`Decoder.Media`, `Decoder.Read`). The read loop is proved for every read that `ReadAllowed` permits. That covers the CAF reader's rounding to whole frames because every request is frame-aligned: the 4096*16-byte buffer and each read are whole numbers of 16-bit frames, so a request is never smaller than one frame while data remains (src/cafstream.cpp:185-205 reports EOF with 0 bytes on such a request, which `ReadAllowed` does not allow).
- `_release` is not modelled: the decoder's own resources are outside the model.
- src/sound.cpp (the process-wide device, the effect list and the listener trigonometry) is not part of this model.
- The device's own progress is not an operation of the model. No modelled operation marks a buffer processed while the source plays, or stops a starved source. Instead, the lemmas about `update` hold for every sink state: any processed count and any playing flag.
- OpenAL refuses `alBufferData` on a buffer that is still queued, but the model lets it load. The engine only loads unqueued buffers, except when `playback` runs on a stopped stream whose spent buffers are still queued, with or without rewind (`EngineProps.RewindKeepsSpentBuffers`); src/soundstream.cpp:143-156 stops and empties the queue only for a playing source.
- Filling.FillTerminates: the model requires the fill loop to end. With loop interval 0, a seekable file that decodes to no bytes makes `stream` rewind and read EOF forever. When the file cannot seek, `_rewind` fails and `stream` returns false, which is modelled. Members that stream an open stream require `loopInterval != 0 || |pcm| > 0 || !seekable` instead of modelling the hang. Closed streams need no such condition.
- Streaming.SoundStream.constructor: the source leaves `loopInterval` and the contents of the read buffer uninitialised. The model takes the interval as a constructor argument and the buffer as allocated.
- Integer widths are not modelled. The engine converts the byte counts (`unsigned long`) and the processed count (`int`) to 32-bit values, and the elapsed seconds are cast to `int`. The model uses unbounded integers.
- Memory management is reduced to whether `sndStream` is null. The type-cast `delete` in `deleteStream` and the `next`/`previous` list links are not modelled.
- `getSource` and `getType` are accessors with no behaviour to model.
- The `SoundStream` destructor (src/soundstream.cpp:46-50) calls `release` and frees the read buffer. It is not modelled separately: `SndFx` releases the stream before deleting it (src/sndfx.cpp:174), as `Effects.SndFx.Destroy` states, and memory is not modelled.
- The two `SndFx` constructors receive what the decoder finds in the file (`found`) and the platform (`onApple`) as arguments, instead of reading the file system and the build configuration.
