/** The looper's data: the in-memory recording (`SampleBuffer`) and the shared
    grain parameter record (`GrainParams`), with their construction at start-up.

    Sample values are never inspected by the looper, only copied or replaced by
    silence, so a sample is an abstract type parameter `S` throughout.
 */
module Samples {

  /** The recording is cut to at most ten seconds at 48 kHz. */
  const SAMPLE_BUFFER_MAX_LEN: nat := 10 * 48000

  /** `usize` on the 64-bit targets the program is built for. */
  const USIZE_MODULUS: nat := 0x1_0000_0000_0000_0000

  /** The recording, one sequence per output channel, `len` samples each. */
  datatype SampleBuffer<S> = SampleBuffer(len: nat, right: seq<S>, left: seq<S>) {
    /** Both channels hold exactly `len` samples, so every index below `len`
        can be read from either. */
    predicate Valid() {
      |left| == len && |right| == len
    }
  }

  /** The grain: play `len` samples from index `start` in a loop, or mute when
      `status` is false. The program's `updated` and `speed` fields are never
      read and are not part of this record. */
  datatype GrainParams = GrainParams(status: bool, len: nat, start: nat)

  /** Parameters the renderer can always use against a buffer of `bufLen`
      samples: a non-empty grain no longer than the buffer and a start no
      later than the buffer's end. */
  predicate Admissible(p: GrainParams, bufLen: nat) {
    1 <= p.len <= bufLen && p.start <= bufLen
  }

  function Min(a: nat, b: nat): (m: nat)
    ensures m <= a && m <= b && (m == a || m == b)
  {
    if a <= b then a else b
  }

  /** Builds the recording from the decoded samples: the longest prefix that
      fits the cap, copied into both channels. */
  function LoadBuffer<S>(bits: seq<S>): (b: SampleBuffer<S>)
    ensures b.Valid()
    ensures b.len <= SAMPLE_BUFFER_MAX_LEN && b.len <= |bits|
    ensures b.len == |bits| || b.len == SAMPLE_BUFFER_MAX_LEN
    ensures b.left <= bits && b.right <= bits
    ensures b.left == b.right
    ensures |bits| <= SAMPLE_BUFFER_MAX_LEN ==> b.left == bits
  {
    var n := Min(SAMPLE_BUFFER_MAX_LEN, |bits|);
    SampleBuffer(n, bits[..n], bits[..n])
  }

  /** The parameters in force before any command arrives: playing, the whole
      buffer as one grain. */
  function InitialParams(bufLen: nat): (p: GrainParams)
    ensures p.status
    ensures Admissible(p, bufLen) <==> bufLen >= 1
    ensures p.start == 0 && p.len == bufLen
  {
    GrainParams(true, bufLen, 0)
  }
}
