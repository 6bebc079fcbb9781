/** The whole looper as a sequential state machine: the recording, the grain
    parameters and the render side's playhead, driven by two kinds of event:
    an audio callback cycle of some block size, and a control message.

    The parameter lock is modelled by taking the parameters as one value per
    event: a cycle reads a single snapshot, a message replaces the record at
    once.
 */
module Engine {
  import opened Samples
  import opened Grain
  import opened Osc

  datatype State<S> = State(buffer: SampleBuffer<S>, grain: GrainParams, head: nat)

  datatype Event = Process(frames: nat) | Receive(msg: OscMessage)

  /** What keeps every later event free of panics: a non-empty, capped
      recording, usable parameters, and a playhead inside the recording. */
  predicate Inv<S>(s: State<S>) {
    && s.buffer.Valid()
    && 1 <= s.buffer.len <= SAMPLE_BUFFER_MAX_LEN
    && Admissible(s.grain, s.buffer.len)
    && s.head < s.buffer.len
  }

  /** The state at start-up: the capped recording, the initial parameters and
      the playhead at 0. An empty recording gives a zero-length grain, and the
      first cycle would divide by zero. */
  function Init<S>(bits: seq<S>): (s: State<S>)
    ensures s.buffer == LoadBuffer(bits) && s.head == 0
    ensures s.grain.status && s.grain.start == 0 && s.grain.len == s.buffer.len
    ensures Inv(s) <==> |bits| >= 1
    ensures |bits| == 0 ==> forall n: nat :: !Renderable(s.buffer, s.grain, n)
  {
    var buffer := LoadBuffer(bits);
    State(buffer, InitialParams(buffer.len), 0)
  }

  /** One event. A cycle renders with the current parameters as its snapshot
      and keeps only the new playhead; a message goes through the checked
      handler, which behaves as the program's handler on every message that
      handler can read (see `Osc.DeliverAsWritten` for the others). */
  function Step<S>(s: State<S>, e: Event, silence: S): (s': State<S>)
    requires Inv(s)
    ensures Inv(s')
    ensures s'.buffer == s.buffer
    // a cycle wraps the playhead against the grain and keeps the parameters
    ensures e.Process? ==> s'.grain == s.grain && s'.head < s.grain.len
    ensures e.Process? ==> s'.head == (s.head + e.frames) % s.grain.len
    // a message applies the handler and never moves the playhead
    ensures e.Receive? ==> s'.head == s.head
    ensures e.Receive? && ArgsPresent(e.msg) ==> s'.grain == Handle(s.grain, e.msg, s.buffer.len).params
    ensures e.Receive? && !ArgsPresent(e.msg) ==> s'.grain == s.grain
  {
    match e
    case Process(n) =>
      s.(head := Render(s.buffer, s.grain, s.head, n, silence).head)
    case Receive(msg) =>
      s.(grain := HandleChecked(s.grain, msg, s.buffer.len).params)
  }

  /** Any run of events from a good state stays good and keeps the recording. */
  function Run<S>(s: State<S>, events: seq<Event>, silence: S): (s': State<S>)
    requires Inv(s)
    ensures Inv(s') && s'.buffer == s.buffer
    decreases |events|
  {
    if |events| == 0 then s else Run(Step(s, events[0], silence), events[1..], silence)
  }

  /** The invariant rules out every panic of the callback: any block size
      can be rendered. */
  lemma InvRenderable<S>(s: State<S>)
    requires Inv(s)
    ensures forall n: nat :: Renderable(s.buffer, s.grain, n)
  {
  }

  /** All the `usize` sums the callback computes stay below 2^64 for any
      block a slice can hold: the playhead plus the block size, and the read
      offset `start + (head + i) % len`, which is below `start + len`. */
  lemma UsizeFits<S>(s: State<S>, n: nat)
    requires Inv(s) && n < USIZE_MODULUS / 2
    ensures s.head + n < USIZE_MODULUS
    ensures s.grain.start + s.grain.len < USIZE_MODULUS
  {
  }

  /** A params command with a negative start plays the grain from the
      beginning of the recording, as if the start were 0. */
  lemma {:induction false} NegativeStartPlaysFromZero<S>(s: State<S>, start: Int32, len: Int32, n: nat, silence: S)
    requires Inv(s) && start < 0 < len
    ensures var s' := Step(s, Receive(OscMessage(PARAMS_ADDR, [Int(start), Int(len)])), silence);
      Render(s'.buffer, s'.grain, s'.head, n, silence)
        == Render(s'.buffer, s'.grain.(start := 0), s'.head, n, silence)
  {
    NegativeStartClampsToEnd(s.grain, start, len, s.buffer.len);
    var s' := Step(s, Receive(OscMessage(PARAMS_ADDR, [Int(start), Int(len)])), silence);
    RenderStartAtEnd(s'.buffer, s'.grain, s'.head, n, silence);
  }
}
