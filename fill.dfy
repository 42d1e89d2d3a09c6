/**
 What one call of the fill loop in `SoundStream::stream` puts into the scratch
 buffer (src/soundstream.cpp:290-325), stated without reference to how the
 decoder splits its reads.

 Starting at decoder position `c`, the loop wants `need` bytes. It takes what
 the decoder can give up to `Limit`. If that is not enough, what happens next
 depends on why the reads stopped: a decoding error ends the call with failure;
 at end of data the loop interval decides: 0 rewinds and keeps filling, any
 other value stops filling and marks the stream ended.
 */
module Filling {
  import opened Decoder

  /** Result of filling one chunk: whether it succeeded, the bytes placed at
      the front of the scratch buffer, the decoder position afterwards, and
      whether end of data ended the stream. */
  datatype FillOutcome = FillOutcome(ok: bool, data: seq<byte>, cursor: nat, eof: bool)

  /** The fill loop stops on every input except a looping stream (interval 0)
      over a seekable file that decodes to no bytes at all: there it rewinds
      and reads EOF again forever. (When the file cannot seek, the rewind
      fails and the chunk fails.) */
  predicate FillTerminates(m: Media, loop: int) {
    loop != 0 || |m.pcm| > 0 || !m.seekable
  }

  function Prepend(d: seq<byte>, out: FillOutcome): FillOutcome {
    out.(data := d + out.data)
  }

  function Fill(m: Media, c: nat, need: nat, loop: int): (out: FillOutcome)
    requires c <= Limit(m) && FillTerminates(m, loop)
    ensures |out.data| <= need && out.cursor <= Limit(m)
    ensures out.ok && !out.eof ==> |out.data| == need
    ensures out.eof ==> out.ok && loop != 0 && |out.data| < need && out.cursor == |m.pcm|
    ensures !out.ok ==> !out.eof && |out.data| < need
    decreases need, c
  {
    var avail := Limit(m) - c;
    if need <= avail then FillOutcome(true, m.pcm[c..c + need], c + need, false)
    else
      var got := m.pcm[c..Limit(m)];
      if Limit(m) < |m.pcm| then FillOutcome(false, got, Limit(m), false)
      else if loop != 0 then FillOutcome(true, got, Limit(m), true)
      else if !m.seekable then FillOutcome(false, got, Limit(m), false)
      else
        var rest := Fill(m, 0, need - avail, loop);
        rest.(data := got + rest.data)
  }

  lemma PrependTwice(a: seq<byte>, b: seq<byte>, out: FillOutcome)
    ensures Prepend(a, Prepend(b, out)) == Prepend(a + b, out)
  {
    assert a + (b + out.data) == (a + b) + out.data;
  }

  /** Reading `n` bytes that are there splits the chunk: those bytes first,
      then whatever filling the rest from the new position gives. */
  lemma FillAdvance(m: Media, c: nat, need: nat, loop: int, n: nat)
    requires c + n <= Limit(m) && FillTerminates(m, loop)
    requires 0 < n <= need
    ensures Fill(m, c, need, loop) == Prepend(m.pcm[c..c + n], Fill(m, c + n, need - n, loop))
  {
    var l := Limit(m);
    if need <= l - c {
      assert m.pcm[c..c + need] == m.pcm[c..c + n] + m.pcm[c + n..c + need];
    } else {
      assert m.pcm[c..l] == m.pcm[c..c + n] + m.pcm[c + n..l];
      if l == |m.pcm| && loop == 0 && m.seekable {
        var rest := Fill(m, 0, need - (l - c), loop);
        assert need - n - (l - (c + n)) == need - (l - c);
        assert m.pcm[c..l] + rest.data == m.pcm[c..c + n] + (m.pcm[c + n..l] + rest.data);
      }
    }
  }

  /** One `_getBuffer` call is one step of the fill, whatever number of
      bytes the decoder chose to deliver within its contract. If `whole` is what
      filling gives once `prefix` has been read and the decoder is at `c`
      with `need` bytes still wanted, then after a read `r` that moved the
      decoder to `c'`, with `prefix'` read and `need'` wanted: a failed read
      ends the fill in failure, a read that delivers bytes leaves the same fill
      to do from the new position, and an EOF read ends it, fails it or starts
      it over from byte 0, as the loop interval and seekability say. */
  lemma FillAfterRead(m: Media, c: nat, need: nat, loop: int, prefix: seq<byte>, whole: FillOutcome,
                      r: ReadResult, c': nat, need': nat, prefix': seq<byte>)
    requires c <= Limit(m) && FillTerminates(m, loop) && need > 0
    requires whole == Prepend(prefix, Fill(m, c, need, loop)) && ReadAllowed(m, c, need, r)
    requires r.ok ==> c' == c + r.count && need' == need - r.count && prefix' == prefix + m.pcm[c..c']
    ensures !r.ok ==> whole == FillOutcome(false, prefix, c, false)
    ensures r.ok && !r.eof ==> c' <= Limit(m) && whole == Prepend(prefix', Fill(m, c', need', loop))
    ensures r.ok && r.eof ==> c' == |m.pcm| == Limit(m) && (loop == 0 && m.seekable ==> c' > 0)
    ensures r.ok && r.eof && loop != 0 ==> whole == FillOutcome(true, prefix', c', true)
    ensures r.ok && r.eof && loop == 0 && m.seekable ==> whole == Prepend(prefix', Fill(m, 0, need', loop))
    ensures r.ok && r.eof && loop == 0 && !m.seekable ==> whole == FillOutcome(false, prefix', c', false)
  {
    if !r.ok {
      assert prefix + [] == prefix;
    } else if r.count > 0 {
      FillAdvance(m, c, need, loop, r.count);
      PrependTwice(prefix, m.pcm[c..c'], Fill(m, c', need', loop));
    } else {
      FillAtEnd(m, need, loop);
      assert prefix + [] == prefix;
    }
  }

  /** Reaching end of data with room left: interval 0 continues from the
      start if the decoder can seek, any other interval ends the stream. */
  lemma FillAtEnd(m: Media, need: nat, loop: int)
    requires Limit(m) == |m.pcm| && FillTerminates(m, loop) && need > 0
    ensures loop != 0 ==> Fill(m, |m.pcm|, need, loop) == FillOutcome(true, [], |m.pcm|, true)
    ensures loop == 0 && m.seekable ==> Fill(m, |m.pcm|, need, loop) == Fill(m, 0, need, loop)
    ensures loop == 0 && !m.seekable ==> Fill(m, |m.pcm|, need, loop) == FillOutcome(false, [], |m.pcm|, false)
  {
    if loop == 0 && m.seekable {
      assert m.pcm[|m.pcm|..|m.pcm|] == [];
      var rest := Fill(m, 0, need, loop);
      assert [] + rest.data == rest.data;
    }
  }

  /** A chunk fails exactly when it needs bytes past the reachable limit and
      either an undecodable byte stops the reads, or the stream loops with
      interval 0 on a file that cannot seek back. */
  lemma {:induction false} FillFailsExactly(m: Media, c: nat, need: nat, loop: int)
    requires c <= Limit(m) && FillTerminates(m, loop)
    ensures !Fill(m, c, need, loop).ok <==>
      c + need > Limit(m) && (Limit(m) < |m.pcm| || (loop == 0 && !m.seekable))
    decreases need, c
  {
    var avail := Limit(m) - c;
    if need > avail && Limit(m) == |m.pcm| && loop == 0 && m.seekable {
      FillFailsExactly(m, 0, need - avail, loop);
    }
  }

  /** A chunk reports end of data exactly when the stream does not loop with
      interval 0, every byte decodes, and the file runs out before the chunk
      is full. */
  lemma FillEofExactly(m: Media, c: nat, need: nat, loop: int)
    requires c <= Limit(m) && FillTerminates(m, loop)
    ensures Fill(m, c, need, loop).eof <==>
      loop != 0 && Limit(m) == |m.pcm| && c + need > |m.pcm|
  {
  }

  /** A stream that does not loop on EOF (interval != 0) gets the next bytes of
      the file, as many as fit, and is ended exactly when the file ran out
      before the chunk was full. */
  lemma FillWithoutLoop(m: Media, c: nat, need: nat, loop: int)
    requires c <= Limit(m) && loop != 0
    ensures var out := Fill(m, c, need, loop);
      && out.data == m.pcm[c..Min(c + need, Limit(m))]
      && (out.eof <==> c + need > Limit(m) && Limit(m) == |m.pcm|)
      && (!out.ok <==> c + need > Limit(m) && Limit(m) < |m.pcm|)
  {
  }

  /** Byte `p` of the file played over and over without a gap. */
  function Looped(pcm: seq<byte>, p: nat): byte
    requires |pcm| > 0
    decreases p
  {
    if p < |pcm| then pcm[p] else Looped(pcm, p - |pcm|)
  }

  /** With interval 0 on a file that decodes and seeks without error, a chunk
      is always full and continues the file cyclically: the audio wraps from
      the last byte to the first without a gap. */
  lemma {:induction false} FillLoopsCyclically(m: Media, c: nat, need: nat)
    requires c <= |m.pcm| && |m.pcm| > 0 && m.badFrom >= |m.pcm| && m.seekable
    ensures var out := Fill(m, c, need, 0);
      && out.ok && !out.eof && |out.data| == need
      && forall i :: 0 <= i < need ==> out.data[i] == Looped(m.pcm, c + i)
    decreases need, c
  {
    var len := |m.pcm|;
    var out := Fill(m, c, need, 0);
    var avail := len - c;
    if need > avail {
      FillLoopsCyclically(m, 0, need - avail);
      var rest := Fill(m, 0, need - avail, 0);
      assert out.data == m.pcm[c..len] + rest.data;
      forall i | avail <= i < need ensures out.data[i] == Looped(m.pcm, c + i) {
        assert out.data[i] == rest.data[i - avail];
        assert c + i - len == i - avail;
      }
    }
  }
}
