/** The control side: an already-decoded OSC message is applied to the grain
    parameters. Two addresses are recognised; every rejected message leaves
    the parameters exactly as they were.
 */
module Osc {
  import opened Samples

  const I32_MIN: int := -0x8000_0000
  const I32_MAX: int := 0x7fff_ffff

  /** OSC's 32-bit integer argument. */
  type Int32 = x: int | I32_MIN <= x <= I32_MAX

  /** Rust's `x as usize` for an `i32`: sign extension to 64 bits, so a
      negative value becomes a huge one. */
  function AsUsize(x: Int32): (u: nat)
    ensures u < USIZE_MODULUS
    ensures (u - x) % USIZE_MODULUS == 0
    ensures x < 0 ==> u > I32_MAX
  {
    if x < 0 then x + USIZE_MODULUS else x
  }

  /** An OSC argument as decoded upstream. Only `Int` is accepted by the
      handler; `Other` stands for the float, double, blob, time-tag, char,
      colour, MIDI, array and infinitum argument types. */
  datatype OscArg = Int(i: Int32) | Long(l: int) | Str(s: string) | Bool(b: bool) | Nil | Other

  datatype OscMessage = OscMessage(addr: string, args: seq<OscArg>)

  const STATUS_ADDR: string := "/tadeusz/status"
  const PARAMS_ADDR: string := "/tadeusz/params"

  /** What the handler reported for a message. `MissingArgument` is only
      reported by `HandleChecked`. */
  datatype Outcome = StatusSet | GrainSet | WrongType | NonPositiveLen | UnknownRoute | MissingArgument {
    predicate Accepted() {
      this == StatusSet || this == GrainSet
    }
  }

  datatype Handled = Handled(params: GrainParams, outcome: Outcome)

  /** The arguments the handler indexes are there. The params command reads
      its second argument only after its first turned out to be an `Int`;
      unknown addresses read nothing. */
  predicate ArgsPresent(msg: OscMessage) {
    if msg.addr == STATUS_ADDR then |msg.args| >= 1
    else if msg.addr == PARAMS_ADDR then |msg.args| >= 1 && (msg.args[0].Int? ==> |msg.args| >= 2)
    else true
  }

  /** A params command the handler accepts: two `Int`s, the length positive. */
  predicate AcceptsGrain(msg: OscMessage)
    requires msg.addr == PARAMS_ADDR && ArgsPresent(msg)
  {
    msg.args[0].Int? && msg.args[1].Int? && msg.args[1].i > 0
  }

  function Handle(p: GrainParams, msg: OscMessage, bufLen: nat): (h: Handled)
    requires ArgsPresent(msg)
    ensures h.outcome != MissingArgument
    // all or nothing
    ensures !h.outcome.Accepted() ==> h.params == p
    // which messages are accepted, in both directions
    ensures h.outcome == StatusSet <==> msg.addr == STATUS_ADDR && msg.args[0].Int?
    ensures h.outcome == GrainSet <==> msg.addr == PARAMS_ADDR && AcceptsGrain(msg)
    ensures h.outcome == UnknownRoute <==> msg.addr != STATUS_ADDR && msg.addr != PARAMS_ADDR
    ensures h.outcome == NonPositiveLen <==>
      msg.addr == PARAMS_ADDR && msg.args[0].Int? && msg.args[1].Int? && msg.args[1].i <= 0
    // the status command turns the grain on exactly for argument 1, nothing else moves
    ensures h.outcome == StatusSet ==> h.params == p.(status := msg.args[0].i == 1)
    // the params command clamps both values to the recording and keeps the status
    ensures h.outcome == GrainSet ==>
      var start, len := AsUsize(msg.args[0].i), msg.args[1].i;
      && h.params.status == p.status
      && h.params.start <= bufLen && h.params.len <= len && h.params.len <= bufLen
      && (bufLen >= 1 ==> 1 <= h.params.len)
      && (start <= bufLen ==> h.params.start == start)
      && (start > bufLen ==> h.params.start == bufLen)
      && (len <= bufLen ==> h.params.len == len)
      && (len > bufLen ==> h.params.len == bufLen)
    // parameters the renderer can use stay usable
    ensures Admissible(p, bufLen) ==> Admissible(h.params, bufLen)
  {
    if msg.addr == STATUS_ADDR then
      match msg.args[0]
      case Int(status) => Handled(p.(status := status == 1), StatusSet)
      case _ => Handled(p, WrongType)
    else if msg.addr == PARAMS_ADDR then
      if msg.args[0].Int? && msg.args[1].Int? then
        var start, len := msg.args[0].i, msg.args[1].i;
        if len > 0 then
          Handled(p.(start := Min(AsUsize(start), bufLen), len := Min(AsUsize(len), bufLen)), GrainSet)
        else
          Handled(p, NonPositiveLen)
      else
        Handled(p, WrongType)
    else
      Handled(p, UnknownRoute)
  }

  /** Sending the same command twice leaves the parameters where sending it
      once did. */
  lemma HandleIdempotent(p: GrainParams, msg: OscMessage, bufLen: nat)
    requires ArgsPresent(msg)
    ensures var once := Handle(p, msg, bufLen).params;
      Handle(once, msg, bufLen).params == once
  {
  }

  /** A negative start is cast to a huge `usize` and clamps to the end of the
      recording. */
  lemma NegativeStartClampsToEnd(p: GrainParams, start: Int32, len: Int32, bufLen: nat)
    requires start < 0 < len && bufLen <= SAMPLE_BUFFER_MAX_LEN
    ensures Handle(p, OscMessage(PARAMS_ADDR, [Int(start), Int(len)]), bufLen).params.start == bufLen
  {
  }

  /** The handler with a missing argument reported as a rejection instead of
      an index panic, as the TODO above the handler asks. It behaves exactly
      like `Handle` on every message `Handle` can read, and it accepts every
      message. */
  function HandleChecked(p: GrainParams, msg: OscMessage, bufLen: nat): (h: Handled)
    ensures ArgsPresent(msg) ==> h == Handle(p, msg, bufLen)
    ensures !ArgsPresent(msg) ==> h.params == p && h.outcome == MissingArgument
    ensures Admissible(p, bufLen) ==> Admissible(h.params, bufLen)
  {
    if ArgsPresent(msg) then Handle(p, msg, bufLen) else Handled(p, MissingArgument)
  }

  // ---------------------------------------------------------------------------
  // The parameter lock and the handler's panics.

  /** The parameter lock as both threads see it. A thread that panics while
      it holds the write guard poisons the lock, and from then on every
      `unwrap` of a guard, read or write, panics. */
  datatype Lock = Healthy(params: GrainParams) | Poisoned

  /** The lock after one message, and whether the control thread survived it. */
  datatype Delivery = Delivery(lock: Lock, alive: bool)

  /** The handler as written, lock included. The status command indexes its
      argument before it takes the write lock, so a short status message kills
      the control thread but leaves the lock healthy. The params command takes
      the write lock first, so a short params message panics while holding it
      and poisons the lock. */
  function DeliverAsWritten(l: Lock, msg: OscMessage, bufLen: nat): (d: Delivery)
    ensures l.Healthy? && ArgsPresent(msg) ==>
      d == Delivery(Healthy(Handle(l.params, msg, bufLen).params), true)
    ensures !ArgsPresent(msg) ==> !d.alive
    ensures d.lock.Poisoned? <==> l.Poisoned? || (msg.addr == PARAMS_ADDR && !ArgsPresent(msg))
    // only an Int status argument or a params message reaches the write lock
    ensures msg.addr != PARAMS_ADDR && !(msg.addr == STATUS_ADDR && |msg.args| >= 1 && msg.args[0].Int?) ==>
      d.lock == l
    // on a poisoned lock the thread survives exactly the messages that never lock
    ensures l.Poisoned? ==>
      (d.alive <==> msg.addr != PARAMS_ADDR && (msg.addr == STATUS_ADDR ==> |msg.args| >= 1 && !msg.args[0].Int?))
  {
    if msg.addr == STATUS_ADDR then
      if |msg.args| == 0 then Delivery(l, false)
      else if !msg.args[0].Int? then Delivery(l, true)
      else if l.Poisoned? then Delivery(Poisoned, false)
      else Delivery(Healthy(Handle(l.params, msg, bufLen).params), true)
    else if msg.addr == PARAMS_ADDR then
      if l.Poisoned? || !ArgsPresent(msg) then Delivery(Poisoned, false)
      else Delivery(Healthy(Handle(l.params, msg, bufLen).params), true)
    else
      Delivery(l, true)
  }

  /** The audio callback unwraps its read guard on every cycle, so it can run
      only while the lock is healthy. */
  predicate CallbackCanRead(l: Lock) {
    l.Healthy?
  }

  /** One params message without arguments poisons the lock and stops the
      control thread, and no callback cycle can run after it. */
  lemma ShortParamsPoisonsLock(p: GrainParams, bufLen: nat)
    ensures var d := DeliverAsWritten(Healthy(p), OscMessage(PARAMS_ADDR, []), bufLen);
      d.lock == Poisoned && !d.alive && !CallbackCanRead(d.lock)
  {
  }

  /** The lock with the checked handler: every message leaves it healthy and
      the control thread running, and wherever the handler as written
      survives, both give the same lock. */
  function DeliverChecked(p: GrainParams, msg: OscMessage, bufLen: nat): (d: Delivery)
    ensures d.alive && CallbackCanRead(d.lock)
    ensures d.lock.params == HandleChecked(p, msg, bufLen).params
    ensures DeliverAsWritten(Healthy(p), msg, bufLen).alive ==> d == DeliverAsWritten(Healthy(p), msg, bufLen)
  {
    Delivery(Healthy(HandleChecked(p, msg, bufLen).params), true)
  }
}
