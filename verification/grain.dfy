/** One cycle of the audio callback: from a parameter snapshot, the recording
    and the private playhead, fill a block of `n` frames on both channels and
    advance the playhead.

    `Render` is the reference definition, frame by frame; `RenderBlock` follows
    the callback's own order (read every frame, advance the playhead, then
    overwrite the block with silence when the grain is off) and is proved to
    compute the same cycle.
 */
module Grain {
  import opened Samples

  /** Frame `pos` of the grain loop lives at this index of the recording: the
      position within the grain, shifted by `start`, wrapped around the
      recording. Any `start`, including `start == bufLen`, gives an index in
      range. */
  function ReadIndex(start: nat, grainLen: nat, bufLen: nat, pos: nat): (k: nat)
    requires grainLen > 0 && bufLen > 0
    ensures k < bufLen
  {
    (start + pos % grainLen) % bufLen
  }

  /** Nothing the callback does divides by zero or indexes past a channel. */
  predicate Renderable<S>(buf: SampleBuffer<S>, snap: GrainParams, n: nat) {
    buf.Valid() && snap.len > 0 && (n > 0 ==> buf.len > 0)
  }

  /** What one channel plays at frame `i` of a block that starts at `head`. */
  function Frame<S>(samples: seq<S>, snap: GrainParams, head: nat, i: nat, silence: S): S
    requires snap.len > 0 && |samples| > 0
  {
    if snap.status then samples[ReadIndex(snap.start, snap.len, |samples|, head + i)] else silence
  }

  /** One channel's output block. */
  function Channel<S>(samples: seq<S>, snap: GrainParams, head: nat, n: nat, silence: S): (out: seq<S>)
    requires snap.len > 0 && (n > 0 ==> |samples| > 0)
  {
    seq(n, i requires 0 <= i < n => Frame(samples, snap, head, i, silence))
  }

  /** The outcome of one callback cycle: both output blocks and the new playhead. */
  datatype Cycle<S> = Cycle(outL: seq<S>, outR: seq<S>, head: nat)

  function Render<S>(buf: SampleBuffer<S>, snap: GrainParams, head: nat, n: nat, silence: S): (c: Cycle<S>)
    requires Renderable(buf, snap, n)
    ensures |c.outL| == n && |c.outR| == n
    ensures c.head < snap.len && c.head == (head + n) % snap.len
    ensures !snap.status ==> forall i :: 0 <= i < n ==> c.outL[i] == silence && c.outR[i] == silence
    ensures snap.status ==> forall i :: 0 <= i < n ==>
      var k := ReadIndex(snap.start, snap.len, buf.len, head + i);
      c.outL[i] == buf.left[k] && c.outR[i] == buf.right[k]
  {
    Cycle(Channel(buf.left, snap, head, n, silence),
          Channel(buf.right, snap, head, n, silence),
          (head + n) % snap.len)
  }

  /** The callback body in its own order: read the grain into both blocks,
      advance the playhead, then mute if the grain is off. */
  method RenderBlock<S>(buf: SampleBuffer<S>, snap: GrainParams, head: nat, n: nat, silence: S)
    returns (outL: seq<S>, outR: seq<S>, head': nat)
    requires Renderable(buf, snap, n)
    ensures head' == (head + n) % snap.len
    ensures Cycle(outL, outR, head') == Render(buf, snap, head, n, silence)
  {
    outL, outR := [], [];
    var i := 0;
    while i < n
      invariant 0 <= i <= n
      invariant |outL| == i && |outR| == i
      invariant forall j :: 0 <= j < i ==>
        outL[j] == buf.left[ReadIndex(snap.start, snap.len, buf.len, head + j)]
      invariant forall j :: 0 <= j < i ==>
        outR[j] == buf.right[ReadIndex(snap.start, snap.len, buf.len, head + j)]
    {
      var k := ReadIndex(snap.start, snap.len, buf.len, head + i);
      outL := outL + [buf.left[k]];
      outR := outR + [buf.right[k]];
      i := i + 1;
    }
    head' := (head + n) % snap.len;
    if !snap.status {
      outL := seq(n, _ => silence);
      outR := seq(n, _ => silence);
    }
    var c := Render(buf, snap, head, n, silence);
    assert outL == c.outL;
    assert outR == c.outR;
  }

  // ---------------------------------------------------------------------------
  // Modular arithmetic used by the lemmas below.

  lemma MulAtLeast(a: int, m: int)
    requires a >= 1 && m > 0
    ensures a * m >= m
  {
    assert a * m == (a - 1) * m + m;
    assert (a - 1) * m >= 0;
  }

  /** Division with remainder has a unique remainder. */
  lemma ModUnique(x: int, m: int, q: int, r: int)
    requires m > 0 && 0 <= r < m && x == q * m + r
    ensures x % m == r
  {
    var q', r' := x / m, x % m;
    assert x == q' * m + r';
    assert (q - q') * m == r' - r;
    if q > q' {
      MulAtLeast(q - q', m);
    } else if q < q' {
      MulAtLeast(q' - q, m);
    }
  }

  /** Adding a whole number of periods does not change a remainder. */
  lemma ModAddMultiple(x: int, k: int, m: int)
    requires m > 0
    ensures (x + k * m) % m == x % m
  {
    assert x + k * m == (x / m + k) * m + x % m;
    ModUnique(x + k * m, m, x / m + k, x % m);
  }

  /** Reducing before adding gives the same remainder. */
  lemma ModAddMod(a: nat, b: nat, m: nat)
    requires m > 0
    ensures (a % m + b) % m == (a + b) % m
  {
    assert a % m + b == (a + b) + (-(a / m)) * m;
    ModAddMultiple(a + b, -(a / m), m);
  }

  // ---------------------------------------------------------------------------
  // Properties of a cycle.

  /** When the grain fits inside the recording, playback stays inside the
      window `[start, start + len)` and reads it in order, without wrapping. */
  lemma ReadIndexInWindow(start: nat, grainLen: nat, bufLen: nat, pos: nat)
    requires grainLen > 0 && bufLen > 0 && start + grainLen <= bufLen
    ensures var k := ReadIndex(start, grainLen, bufLen, pos);
      start <= k < start + grainLen && k == start + pos % grainLen
  {
    ModUnique(start + pos % grainLen, bufLen, 0, start + pos % grainLen);
  }

  /** A start equal to the recording's length plays exactly like start 0. */
  lemma StartAtEndWrapsToZero(grainLen: nat, bufLen: nat, pos: nat)
    requires grainLen > 0 && bufLen > 0
    ensures ReadIndex(bufLen, grainLen, bufLen, pos) == ReadIndex(0, grainLen, bufLen, pos)
  {
    ModAddMultiple(pos % grainLen, 1, bufLen);
  }

  /** A grain starting at the recording's end renders exactly like the same
      grain starting at index 0. */
  lemma {:induction false} RenderStartAtEnd<S>(buf: SampleBuffer<S>, snap: GrainParams, head: nat, n: nat, silence: S)
    requires Renderable(buf, snap, n) && snap.start == buf.len
    ensures Render(buf, snap, head, n, silence) == Render(buf, snap.(start := 0), head, n, silence)
  {
    ChannelStartAtEnd(buf.left, snap, head, n, silence);
    ChannelStartAtEnd(buf.right, snap, head, n, silence);
  }

  lemma {:induction false} ChannelStartAtEnd<S>(samples: seq<S>, snap: GrainParams, head: nat, n: nat, silence: S)
    requires snap.len > 0 && (n > 0 ==> |samples| > 0) && snap.start == |samples|
    ensures Channel(samples, snap, head, n, silence) == Channel(samples, snap.(start := 0), head, n, silence)
  {
    var a, b := Channel(samples, snap, head, n, silence), Channel(samples, snap.(start := 0), head, n, silence);
    forall i | 0 <= i < n
      ensures a[i] == b[i]
    {
      StartAtEndWrapsToZero(snap.len, |samples|, head + i);
    }
  }

  /** Both channels of a buffer built at start-up are the same samples, so
      the two output blocks are identical. */
  lemma ChannelsIdentical<S>(bits: seq<S>, snap: GrainParams, head: nat, n: nat, silence: S)
    requires Renderable(LoadBuffer(bits), snap, n)
    ensures Render(LoadBuffer(bits), snap, head, n, silence).outL
         == Render(LoadBuffer(bits), snap, head, n, silence).outR
  {
  }

  /** The playhead moves the same way whether the grain is on or off. This is
      immediate from `Render`; that the callback's order (update, then mute)
      gives it is what `RenderBlock` proves. */
  lemma PlayheadIgnoresStatus<S>(buf: SampleBuffer<S>, snap: GrainParams, head: nat, n: nat, silence: S)
    requires Renderable(buf, snap, n)
    ensures Render(buf, snap.(status := true), head, n, silence).head
         == Render(buf, snap.(status := false), head, n, silence).head
  {
  }

  /** Continuing from a wrapped playhead reads the same index as continuing
      from the unwrapped one. */
  lemma ShiftedPosition(start: nat, grainLen: nat, bufLen: nat, pos: nat, i: nat)
    requires grainLen > 0 && bufLen > 0
    ensures ReadIndex(start, grainLen, bufLen, pos % grainLen + i) == ReadIndex(start, grainLen, bufLen, pos + i)
  {
    ModAddMod(pos, i, grainLen);
  }

  /** Two consecutive cycles under the same snapshot play exactly what one
      cycle of the combined length plays: there is no seam between blocks. */
  lemma {:induction false} Seamless<S>(buf: SampleBuffer<S>, snap: GrainParams, head: nat, n1: nat, n2: nat, silence: S)
    requires Renderable(buf, snap, n1 + n2)
    ensures var c1 := Render(buf, snap, head, n1, silence);
      var c2 := Render(buf, snap, c1.head, n2, silence);
      var c := Render(buf, snap, head, n1 + n2, silence);
      c1.outL + c2.outL == c.outL && c1.outR + c2.outR == c.outR && c2.head == c.head
  {
    SeamlessChannel(buf.left, snap, head, n1, n2, silence);
    SeamlessChannel(buf.right, snap, head, n1, n2, silence);
    ModAddMod(head + n1, n2, snap.len);
  }

  lemma {:induction false} SeamlessChannel<S>(samples: seq<S>, snap: GrainParams, head: nat, n1: nat, n2: nat, silence: S)
    requires snap.len > 0 && (n1 + n2 > 0 ==> |samples| > 0)
    ensures Channel(samples, snap, head, n1, silence) + Channel(samples, snap, (head + n1) % snap.len, n2, silence)
         == Channel(samples, snap, head, n1 + n2, silence)
  {
    var a := Channel(samples, snap, head, n1, silence);
    var b := Channel(samples, snap, (head + n1) % snap.len, n2, silence);
    var c := Channel(samples, snap, head, n1 + n2, silence);
    forall i | 0 <= i < n2
      ensures b[i] == c[n1 + i]
    {
      ShiftedPosition(snap.start, snap.len, |samples|, head + n1, i);
      assert head + n1 + i == head + (n1 + i);
    }
    assert a + b == c;
  }

  /** The output repeats with the grain's length as its period. */
  lemma {:induction false} Periodic<S>(buf: SampleBuffer<S>, snap: GrainParams, head: nat, n: nat, silence: S, i: nat)
    requires Renderable(buf, snap, n) && i + snap.len < n
    ensures var c := Render(buf, snap, head, n, silence);
      c.outL[i + snap.len] == c.outL[i] && c.outR[i + snap.len] == c.outR[i]
  {
    ModAddMultiple(head + i, 1, snap.len);
  }
}
