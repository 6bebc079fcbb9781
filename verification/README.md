# tadeusz looper — Dafny model

tadeusz is a small JACK looper. It keeps one recording in memory and plays a
sub-window of it, the *grain*, over and over on two output ports. A UDP/OSC
control thread can switch the grain on and off, or move and resize it, while
the audio callback is running.

This project models the sequential logic of `src/main.rs` as pure functions:

- `Samples`: the recording (`SampleBuffer`), which is capped at
  `SAMPLE_BUFFER_MAX_LEN = 10 * 48000` samples and copied into both channels.
  It also holds the grain record (`GrainParams`: `status`, `len`, `start`) and
  its initial value.
- `Grain`: one cycle of the audio callback. `Render` is the frame-by-frame
  reference definition. `RenderBlock` follows the callback's own order: read
  every frame, advance the playhead, then overwrite the block with silence if
  the grain is off. It is proved to produce the same cycle as `Render`.
- `Osc`: the `osc_handling` command handler. It works on already-decoded OSC
  messages and includes Rust's sign-extending `i32 as usize` cast.
- `Engine`: the program as a state machine, with `Osc.HandleChecked` in place
  of the handler. It runs over audio cycles and control messages, and keeps an
  invariant that rules out every panic of the render path. With the handler as
  written, one short params message poisons the lock and stops every later
  cycle (see Findings).

Sample values are never inspected, only copied or replaced by silence, so they
are a type parameter `S`. The `0.0` written when muting is a parameter
`silence`. The `RwLock` becomes a plain value: a cycle reads one snapshot of
the parameters, and a message replaces the record in one step.

Choices of `src/main.rs` that the model keeps as they are:
- `status` is a boolean: on plays the grain, off mutes both outputs.
- The status command takes an OSC int, and only `1` means on.
- The params command rejects only `len <= 0`. Any positive length is clamped
  to the buffer.
- `start` is clamped to `buffer.len` inclusive, so it may equal
  `buffer.len`. That start then plays like start 0.
- The program starts with the grain on.

## Model

| member | source | states |
|---|---|---|
| Samples.LoadBuffer | src/main.rs:86-91 | The buffer holds the longest prefix of the decoded samples that fits the cap, so it has the whole input when that fits. Both channels hold this same prefix, with `len` samples each. |
| Samples.InitialParams | src/main.rs:94-100 | The initial grain is on, starts at 0 and covers the whole buffer. It is usable by the renderer exactly when the recording is non-empty. |
| Grain.ReadIndex | src/main.rs:122-125 | The read index `(start + pos % len) % buffer.len` is inside the buffer for every `start`, including `start == buffer.len`, when both lengths are positive. |
| Grain.Render | src/main.rs:116-132 | Both blocks have `n` frames and the new playhead is `(head + n) % len`, below the grain length. When off, every frame of both blocks is silence. When on, frame `i` is exactly the sample at the read index of `head + i`, on each channel. |
| Grain.RenderBlock | src/main.rs:119-132 | The callback's loop writes both blocks, wraps the playhead to `(head + n) % len` and then mutes when off. It computes the same cycle as `Render`. |
| Grain.ReadIndexInWindow | src/main.rs:122-125 | When `start + len <= buffer.len`, every read lies in `[start, start + len)` and equals `start + pos % len`, so the grain is a contiguous window read in order. |
| Grain.StartAtEndWrapsToZero | src/main.rs:123 | A start equal to the buffer length reads the same index as start 0. |
| Grain.RenderStartAtEnd | src/main.rs:116-132 | A whole cycle with `start == buffer.len` equals the cycle with `start == 0`. |
| Grain.ChannelStartAtEnd | src/main.rs:122-125 | The same fact for one output channel. |
| Grain.ChannelsIdentical | src/main.rs:122-125 | For a buffer built at start-up (lines 89-90 copy one prefix into both channels), the left and right blocks are identical. |
| Grain.PlayheadIgnoresStatus | src/main.rs:127-132 | The playhead advances the same way whether the grain is on or off, because the mute comes after the update. |
| Grain.Seamless | src/main.rs:121-127 | Two consecutive cycles under one snapshot output exactly what one cycle of the combined length outputs, and end on the same playhead. There is no discontinuity at block boundaries. |
| Grain.SeamlessChannel | src/main.rs:121-127 | The same fact for one output channel. |
| Grain.Periodic | src/main.rs:122-127 | Inside a block, the output repeats with the grain length as its period. |
| Osc.AsUsize | src/main.rs:174 | The `i32 as usize` cast gives a value below 2^64 that is congruent to the input. A negative input becomes larger than any `i32`. |
| Osc.Handle | src/main.rs:158-187 | It never reports a missing argument. A rejected message leaves the record unchanged. The status command is accepted exactly when its argument is an Int, and it sets `status := (arg == 1)` and nothing else. The params command is accepted exactly when there are two Ints and `len > 0`. It then sets `start` and `len` to their values clamped to `buffer.len`, which keeps `1 <= len` for a non-empty buffer, and it keeps `status`. A non-positive len and an unknown address are each recognised exactly. A record the renderer can use stays usable. |
| Osc.HandleIdempotent | src/main.rs:160-175 | Applying the same message twice gives the same record as applying it once. |
| Osc.HandleChecked | src/main.rs:157-187 | It agrees with `Handle` on every message `Handle` can read. A message with a missing argument is rejected and leaves the record unchanged. A record the renderer can use stays usable. |
| Osc.DeliverAsWritten | src/main.rs:158-172 | On a healthy lock, a readable message gives the record `Handle` computes and the control thread survives. A message with a missing argument always stops the control thread. A message that never takes the write lock leaves the lock and its record as they were: an unknown address, a non-Int status argument, or a status message with no arguments, which panics at line 161 before locking. On a poisoned lock, the thread survives exactly those messages that never lock. The lock ends poisoned exactly when it already was, or when a params message lacks an argument, because that panic happens while the write guard is held. |
| Osc.ShortParamsPoisonsLock | src/main.rs:170-172 | A params message with no arguments poisons the lock and stops the control thread. After it, the callback's `read().unwrap()` at line 116 cannot succeed. |
| Osc.DeliverChecked | src/main.rs:157-187 | With the checked handler, every message leaves the lock healthy and the control thread running. It agrees with the handler as written on every message the latter survives. |
| Osc.NegativeStartClampsToEnd | src/main.rs:171-174 | An accepted params command with a negative start sets `start` to `buffer.len`. |
| Engine.Init | src/main.rs:86-104 | The start-up state holds the capped buffer and the playhead at 0. Its grain is on, starts at 0 and covers the whole buffer. It satisfies the no-panic invariant exactly when the recording is non-empty. For an empty recording, no cycle can be rendered: the grain length is 0. |
| Engine.Step | src/main.rs:116-132 | One cycle (these lines) or one message (the handler at lines 158-187) keeps the invariant and never changes the buffer. A cycle keeps the parameters and sets the playhead to `(head + n) % len`, which is below the grain length. A message never moves the playhead. A readable message gives the record `Handle` computes, and one with a missing argument leaves it unchanged. |
| Engine.Run | src/main.rs:138-144 | With `Osc.HandleChecked` in place of the handler, every interleaving of callback cycles and messages, starting from a good state, keeps the invariant and the buffer. |
| Engine.InvRenderable | src/main.rs:119-127 | Under the invariant, a block of any size can be rendered: no division by zero and no index past a channel. |
| Engine.UsizeFits | src/main.rs:123-127 | Under the invariant, `head + n` and `start + len` stay below 2^64 for any block size a slice can have. So the `usize` arithmetic of the callback does not overflow. |
| Engine.NegativeStartPlaysFromZero | src/main.rs:171-174 | After a params command with a negative start, the grain plays as if its start were 0. |

## Left out

- JACK client and port registration, activation, deactivation and callback scheduling (src/main.rs:51-63, 110-111, 138-150): foreign library calls. A callback cycle is an event with a block size.
- WAV reading and the 16-bit to `f32` conversion (src/main.rs:66-84): file I/O and floating point. The decoded samples are an abstract sequence.
- The UDP socket, the receive loop and `rosc` decoding (src/main.rs:142-144, 190-222): network I/O and a library outside this model. Messages arrive already decoded. A decode failure is only logged and changes nothing.
- `Arc`, `RwLock` and the thread spawn: concurrency. Each event sees the whole record at once, which matches one snapshot per cycle and one critical section per message.
- A missing OSC argument: `Osc.Handle` requires the arguments it indexes (`args[0]`, and `args[1]` once `args[0]` is an Int). The panic itself and its effect on the lock are modelled by `Osc.DeliverAsWritten` (see Findings). `Engine` uses `Osc.HandleChecked`, which rejects such a message instead.
- An OSC bundle reaches `unimplemented!` (line 215). It is never given to the model.
- Division by zero in the callback is excluded by `Grain.Renderable`. `Engine.InvRenderable` shows the invariant rules it out, and `Engine.Init` shows it can only arise from an empty recording. The callback holds only a read guard, so such a panic would not poison the lock.
- The `updated` and `speed` fields are never read, so they are not in `GrainParams`.
- Logging via `println!`. The handler's message is kept only as the `Osc.Outcome` value.
- Engine.UsizeFits: states the bounds for `start + len` rather than for each `start + (head + i) % len`. Every one of those sums is below `start + len`.
- `usize` is taken to be 64 bits wide.

## Findings

| source | as written | input that shows it | evidently intended | confidence | as-written member | corrected member |
|---|---|---|---|---|---|---|
| src/main.rs:170-172 | The params handler takes the write lock at line 170. Only then does it index `args[0]` and `args[1]`. | `/tadeusz/params` with no arguments, or with a single Int | A short message is rejected like a wrong-typed one and the lock stays usable, as the TODO at line 157 asks. As written, the panic poisons the lock, and every later callback panics at line 116. | medium, not executed | Osc.ShortParamsPoisonsLock | Osc.DeliverChecked |
