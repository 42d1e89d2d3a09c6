/**
 The audio sink a stream pushes buffers to: one OpenAL source and the two
 buffers generated for it. Only what the streaming engine observes is kept: the
 queue of buffer ids, how many of them the device has finished playing, whether
 the source plays, and the bytes last loaded into each buffer.

 The operations follow the OpenAL 1.1 source rules the engine relies on:
 only processed buffers can be unqueued (otherwise the call fails and changes
 nothing), stopping a source marks every queued buffer processed, and playing a
 stopped source makes every queued buffer pending again.
 */
module Device {
  import opened Decoder

  type BufferId = nat

  datatype Sink = Sink(
    queue: seq<BufferId>,
    processed: nat,
    playing: bool,
    loaded: map<BufferId, seq<byte>>,
    alive: bool,
    nextId: nat,
    music: bool,
    volume: int)

  /** Queue bookkeeping the device keeps consistent. */
  predicate SinkWf(k: Sink) {
    k.processed <= |k.queue|
  }

  /** A sink with no source generated yet. */
  const NoSource := Sink([], 0, false, map[], false, 1, false, 128)

  /** alSourceStop: the source stops and all queued buffers count as processed. */
  function Stop(k: Sink): (r: Sink)
    ensures !r.playing && r.queue == k.queue && r.processed == |k.queue|
  {
    k.(playing := false, processed := |k.queue|)
  }

  /** alSourcePlay on a source that is not playing. */
  function Play(k: Sink): (r: Sink)
    requires SinkWf(k)
    ensures SinkWf(r) && r.playing && r.queue == k.queue && r.processed == 0
  {
    k.(playing := true, processed := 0)
  }

  /** alSourceQueueBuffers: the ids go to the back of the queue, pending. */
  function Enqueue(k: Sink, ids: seq<BufferId>): (r: Sink)
    requires SinkWf(k)
    ensures SinkWf(r) && r.queue == k.queue + ids && r.processed == k.processed
  {
    k.(queue := k.queue + ids)
  }

  /** alSourceUnqueueBuffers(1): removes the front buffer if it was processed;
      on a buffer still pending the call fails and nothing changes. */
  function UnqueueOne(k: Sink): (r: Sink)
    requires SinkWf(k)
    ensures SinkWf(r)
    ensures k.processed > 0 ==> r.queue == k.queue[1..] && r.processed == k.processed - 1
    ensures k.processed == 0 ==> r == k
  {
    if k.processed > 0 then k.(queue := k.queue[1..], processed := k.processed - 1) else k
  }

  /** What `empty()` leaves: every processed buffer unqueued, the pending ones
      still queued (src/soundstream.cpp:361-378). */
  function Drain(k: Sink): (r: Sink)
    requires SinkWf(k)
    ensures SinkWf(r) && r.processed == 0 && r.queue == k.queue[k.processed..]
    ensures k.processed == |k.queue| ==> r.queue == []
  {
    k.(queue := k.queue[k.processed..], processed := 0)
  }

  /** alBufferData: the buffer now holds `data`. */
  function BufferData(k: Sink, id: BufferId, data: seq<byte>): (r: Sink)
    ensures r.loaded == k.loaded[id := data] && r.queue == k.queue && r.processed == k.processed
  {
    k.(loaded := k.loaded[id := data])
  }

  /** alGenBuffers(2) and alGenSources(1): two fresh distinct buffer ids and a
      new, empty, stopped source. */
  function Generate(k: Sink): (r: (Sink, BufferId, BufferId))
    ensures r.0.queue == [] && r.0.processed == 0 && !r.0.playing && r.0.alive
    ensures r.1 != r.2 && k.nextId <= r.1 < r.0.nextId && k.nextId <= r.2 < r.0.nextId
  {
    (k.(queue := [], processed := 0, playing := false, alive := true,
        nextId := k.nextId + 2, music := false, volume := 128),
     k.nextId, k.nextId + 1)
  }

  /** alDeleteSources and alDeleteBuffers: the source is gone, and so is the
      data of the two buffers. Whatever was still queued stays recorded. */
  function Delete(k: Sink, front: BufferId, back: BufferId): (r: Sink)
    ensures !r.alive && !r.playing && r.queue == k.queue
    ensures front !in r.loaded && back !in r.loaded
  {
    k.(alive := false, playing := false, loaded := k.loaded - {front, back})
  }
}
