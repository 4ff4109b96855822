/**
 * The pure part of the real-time call-and-response interaction: its
 * configuration, the control-value properties, `_generate`, the silence
 * test, the decision each tick takes, the response length and the latency
 * push. The run loop that updates the interaction's state with these is the
 * class in module `RealTimeInteraction`.
 */
module InteractionSpec {
  import opened Wrappers
  import opened Music

  /** The interaction's states; `Augment` is declared but no transition reaches it. */
  datatype State = Idle | Listening | Responding | Augment

  /** A MIDI signal: a control change with the given number and value. */
  datatype MidiSignal = MidiSignal(control: int, value: int)

  /** The constructor arguments that the tick logic reads. */
  datatype Config = Config(
    clockSignal: Option<MidiSignal>,
    tickDuration: Option<real>,
    endCallSignal: Option<MidiSignal>,
    panicSignal: Option<MidiSignal>,
    mutateSignal: Option<MidiSignal>,
    allowOverlap: bool,
    metronomeChannel: Option<int>,
    minListenTicksControl: Option<int>,
    maxListenTicksControl: Option<int>,
    responseTicksControl: Option<int>,
    loopControl: Option<int>)

  /** The constructor's error message when the clock configuration is wrong. */
  const ClockConfigError := "Exactly one of `clock_signal` or `tick_duration` must be specified."

  /** The constructor's argument check: exactly one of the clock signal and the tick duration. */
  function CheckClockConfig(clockSignal: Option<MidiSignal>, tickDuration: Option<real>): (r: Outcome<string>)
    ensures r.Pass? <==> (clockSignal.None? != tickDuration.None?)
  {
    var nones := (if clockSignal.None? then 1 else 0) + (if tickDuration.None? then 1 else 0);
    if nones != 1 then Fail(ClockConfigError)
    else Pass
  }

  /** The hub's `control_value`: nothing for no control number or a control never received. */
  function ControlValue(controls: map<int, int>, number: Option<int>): (r: Option<int>)
    ensures r.Some? <==> number.Some? && number.value in controls
    ensures r.Some? ==> r.value == controls[number.value]
  {
    match number
    case None => None
    case Some(n) => if n in controls then Some(controls[n]) else None
  }

  /** A bound on the number of listen ticks: none (infinity) or a tick count. */
  datatype ListenLimit = Unbounded | AtMost(ticks: int)

  /** The minimum call length in ticks; 0 when the control has no value. */
  function MinListenTicks(cfg: Config, controls: map<int, int>): (r: int)
    ensures ControlValue(controls, cfg.minListenTicksControl).None? ==> r == 0
    ensures ControlValue(controls, cfg.minListenTicksControl).Some? ==>
      r == ControlValue(controls, cfg.minListenTicksControl).value
  {
    match ControlValue(controls, cfg.minListenTicksControl)
    case None => 0
    case Some(v) => v
  }

  /** The maximum call length in ticks; unbounded when the control value is absent or 0. */
  function MaxListenTicks(cfg: Config, controls: map<int, int>): (r: ListenLimit)
    ensures r.Unbounded? <==> ControlValue(controls, cfg.maxListenTicksControl) in {None, Some(0)}
    ensures r.AtMost? ==> Some(r.ticks) == ControlValue(controls, cfg.maxListenTicksControl)
  {
    match ControlValue(controls, cfg.maxListenTicksControl)
    case None => Unbounded
    case Some(v) => if v == 0 then Unbounded else AtMost(v)
  }

  /** Whether `listenTicks >= limit`; never for an unbounded limit. */
  predicate ReachedLimit(listenTicks: int, limit: ListenLimit)
  {
    limit.AtMost? && listenTicks >= limit.ticks
  }

  /**
   * Looping is on when a non-zero loop control number is configured and its
   * control value is 127 (a control number 0 is falsy and disables looping).
   */
  function ShouldLoop(cfg: Config, controls: map<int, int>): (r: bool)
    ensures r <==> cfg.loopControl.Some? && cfg.loopControl.value != 0 &&
                   cfg.loopControl.value in controls && controls[cfg.loopControl.value] == 127
  {
    match cfg.loopControl
    case None => false
    case Some(n) => n != 0 && ControlValue(controls, cfg.loopControl) == Some(127)
  }

  // ---------------------------------------------------------------------------
  // Generation

  /** A time window given to the generator. */
  datatype Section = Section(startTime: real, endTime: real)

  /** The options given to the generator: one input section, one generate section, a temperature. */
  datatype GeneratorOptions = GeneratorOptions(input: Section, generate: Section, temperature: real)

  /** The selected sequence generator: foreign code, any function of its input and options. */
  type Generator = (NoteSequence, GeneratorOptions) -> NoteSequence

  /**
   * The generator options of `_generate`: with every time taken relative to
   * `zeroTime`, the input section runs from 0 to the response start and the
   * generate section covers the response window.
   */
  function GenerationOptions(zeroTime: real, responseStart: real, responseEnd: real, temperature: real): (o: GeneratorOptions)
    ensures o.input.startTime == 0.0 && o.input.endTime == o.generate.startTime
    ensures o.generate.startTime + zeroTime == responseStart && o.generate.endTime + zeroTime == responseEnd
    ensures o.temperature == temperature
  {
    GeneratorOptions(
      Section(0.0, responseStart - zeroTime),
      Section(responseStart - zeroTime, responseEnd - zeroTime),
      temperature)
  }

  /** The input handed to the generator: the seed shifted so that `zeroTime` becomes 0. */
  function GenerationInput(input: NoteSequence, zeroTime: real): NoteSequence
  {
    AdjustSequenceTimes(input, -zeroTime)
  }

  /** Shifting the generator input forward by the zero time gives the seed back. */
  lemma GenerationInputInverse(input: NoteSequence, zeroTime: real)
    ensures AdjustSequenceTimes(GenerationInput(input, zeroTime), zeroTime) == input
  {
    AdjustInverse(input, -zeroTime);
  }

  /**
   * `_generate`: generate on the zero-based timeline, trim the result to the
   * requested window and shift it back. Whatever the generator returns, the
   * response lies in the absolute window `[responseStart, responseEnd)`.
   */
  function Generate(gen: Generator, input: NoteSequence, zeroTime: real, responseStart: real,
                    responseEnd: real, temperature: real): (r: NoteSequence)
    ensures InWindow(r, responseStart, responseEnd)
  {
    var options := GenerationOptions(zeroTime, responseStart, responseEnd, temperature);
    var generated := gen(GenerationInput(input, zeroTime), options);
    var trimmed := TrimNoteSequence(generated, responseStart - zeroTime, responseEnd - zeroTime);
    AdjustInWindow(trimmed, responseStart - zeroTime, responseEnd - zeroTime, zeroTime);
    AdjustSequenceTimes(trimmed, zeroTime)
  }

  /**
   * Generation depends only on times relative to `zeroTime`: shifting the
   * seed, the zero time and the window by the same delta shifts the response
   * by that delta.
   */
  lemma GenerateShift(gen: Generator, input: NoteSequence, zeroTime: real, responseStart: real,
                      responseEnd: real, temperature: real, delta: real)
    ensures Generate(gen, AdjustSequenceTimes(input, delta), zeroTime + delta, responseStart + delta,
                     responseEnd + delta, temperature)
         == AdjustSequenceTimes(Generate(gen, input, zeroTime, responseStart, responseEnd, temperature), delta)
  {
    AdjustCompose(input, delta, -(zeroTime + delta));
    assert delta + -(zeroTime + delta) == -zeroTime;
    assert GenerationInput(AdjustSequenceTimes(input, delta), zeroTime + delta) == GenerationInput(input, zeroTime);
    assert GenerationOptions(zeroTime + delta, responseStart + delta, responseEnd + delta, temperature)
        == GenerationOptions(zeroTime, responseStart, responseEnd, temperature);
    var options := GenerationOptions(zeroTime, responseStart, responseEnd, temperature);
    var trimmed := TrimNoteSequence(gen(GenerationInput(input, zeroTime), options),
                                    responseStart - zeroTime, responseEnd - zeroTime);
    assert (responseStart + delta) - (zeroTime + delta) == responseStart - zeroTime;
    assert (responseEnd + delta) - (zeroTime + delta) == responseEnd - zeroTime;
    AdjustCompose(trimmed, zeroTime, delta);
  }

  // ---------------------------------------------------------------------------
  // Tick inputs and hub events

  /** What the loop asks of the MIDI hub and the generator, in order. */
  datatype HubEvent =
    | CaptureStart(qpm: real, captureStart: real)
    | StateUpdate(state: State)
    | MetronomeStart(qpm: real, metronomeStart: real)
    | PlaybackStart(sequence: NoteSequence)
    | PlaybackUpdate(sequence: NoteSequence, startTime: Option<real>)
    | GenerateCall(input: NoteSequence, options: GeneratorOptions)
    | PlaybackStop

  /** The observations of one tick. */
  datatype TickInputs = TickInputs(
    captured: NoteSequence,     // the captor's sequence for this tick; its total time is the tick time
    controls: map<int, int>,    // the hub's control values during the tick
    qpm: real,                  // the interaction's current tempo
    temperature: real,          // the current generation temperature
    clockAfterGenerate: real,   // wall clock read when deciding whether the response is late
    clockForPush: real,         // wall clock read when computing how far to push it
    stopRequested: bool)        // the stop signal, checked first

  /** How a tick ends: the loop goes on, stops on request, or raises on a zero tick duration. */
  datatype TickOutcome = Continue | Stopped | DivisionByZero

  /** The branch a tick of `run`'s loop takes. */
  datatype TickCase = StopTick | IdleTick | TooShortTick | RespondTick | ListenTick

  // ---------------------------------------------------------------------------
  // Silence

  /** The latest end time of the captured notes, 0 when there are none. */
  function LastEndTime(notes: seq<Note>): (r: real)
    ensures |notes| == 0 ==> r == 0.0
    ensures forall i :: 0 <= i < |notes| ==> notes[i].endTime <= r
    ensures |notes| > 0 ==> exists i :: 0 <= i < |notes| && notes[i].endTime == r
    decreases |notes|
  {
    if |notes| == 0 then 0.0
    else if |notes| == 1 then notes[0].endTime
    else
      var rest := LastEndTime(notes[1..]);
      assert forall i :: 1 <= i < |notes| ==> notes[i] == notes[1..][i - 1];
      if notes[0].endTime >= rest then notes[0].endTime else rest
  }

  /** A tick is silent when no captured note ends after the previous tick. */
  predicate IsSilent(notes: seq<Note>, lastTickTime: real)
  {
    LastEndTime(notes) <= lastTickTime
  }

  /**
   * Silence, stated without the maximum: every note ends by the previous
   * tick, and an empty capture is silent when the previous tick is not
   * before time 0 (the empty maximum is 0).
   */
  lemma SilentIff(notes: seq<Note>, lastTickTime: real)
    ensures IsSilent(notes, lastTickTime) <==>
      (|notes| == 0 ==> 0.0 <= lastTickTime) &&
      forall i :: 0 <= i < |notes| ==> notes[i].endTime <= lastTickTime
  {
  }

  /** The listen count after the silence check: one more on a non-silent tick. */
  function CountListenTick(listenTicks: nat, silent: bool): (r: nat)
    ensures silent ==> r == listenTicks
    ensures !silent ==> r == listenTicks + 1
  {
    if silent then listenTicks else listenTicks + 1
  }

  // ---------------------------------------------------------------------------
  // Responding

  /** The response length: the response-ticks control (if non-zero) times the tick, else the call length. */
  function ResponseDuration(numTicks: Option<int>, tickDuration: real, tickTime: real, captureStart: real): (r: real)
    ensures numTicks.Some? && numTicks.value != 0 ==> r == numTicks.value as real * tickDuration
    ensures (numTicks.None? || numTicks.value == 0) ==> captureStart + r == tickTime
  {
    if numTicks.Some? && numTicks.value != 0 then numTicks.value as real * tickDuration
    else tickTime - captureStart
  }

  /** The latency push decision: no push, a push by whole ticks, or a division by zero. */
  datatype Push = NoPush | PushBy(ticks: int) | ZeroTick

  /**
   * The late-response test of `run`: when the response is at least a quarter tick late, push it
   * by `floor((now - start) / tick) + 1` ticks. With a positive tick the
   * pushed start lies after the clock reading used for the push
   * (`LatencyPushFewest`: and one tick fewer would not), and the push is at
   * least one tick when the clock did not go back between the readings.
   * A zero tick makes the floor division raise.
   */
  function LatencyPush(tickDuration: real, start: real, clockAfterGenerate: real, clockForPush: real): (p: Push)
    ensures p.NoPush? <==> clockAfterGenerate - start < tickDuration / 4.0
    ensures p.ZeroTick? <==> tickDuration == 0.0 && clockAfterGenerate - start >= 0.0
    ensures p.PushBy? && tickDuration > 0.0 ==> start + p.ticks as real * tickDuration > clockForPush
    ensures p.PushBy? && tickDuration > 0.0 && clockForPush >= clockAfterGenerate ==> p.ticks >= 1
  {
    if clockAfterGenerate - start >= tickDuration / 4.0 then
      if tickDuration == 0.0 then ZeroTick
      else
        var k := ((clockForPush - start) / tickDuration).Floor + 1;
        PushLandsAfter(start, clockForPush, tickDuration);
        PushBy(k)
    else NoPush
  }

  /**
   * The push is the fewest whole ticks that land after the clock reading:
   * with a positive tick, one tick fewer starts at or before it.
   */
  lemma LatencyPushFewest(tickDuration: real, start: real, clockAfterGenerate: real, clockForPush: real)
    ensures var p := LatencyPush(tickDuration, start, clockAfterGenerate, clockForPush);
      p.PushBy? && tickDuration > 0.0 ==>
        && start + p.ticks as real * tickDuration > clockForPush
        && start + (p.ticks - 1) as real * tickDuration <= clockForPush
  {
    if tickDuration > 0.0 {
      PushLandsAfter(start, clockForPush, tickDuration);
    }
  }

  /** The number of ticks a response is pushed by; 0 when it is not pushed or the push raises. */
  function PushTicks(tickDuration: real, start: real, clockAfterGenerate: real, clockForPush: real): (k: int)
    ensures LatencyPush(tickDuration, start, clockAfterGenerate, clockForPush).PushBy? ==>
      k == LatencyPush(tickDuration, start, clockAfterGenerate, clockForPush).ticks
    ensures !LatencyPush(tickDuration, start, clockAfterGenerate, clockForPush).PushBy? ==> k == 0
  {
    match LatencyPush(tickDuration, start, clockAfterGenerate, clockForPush)
    case PushBy(k) => k
    case _ => 0
  }

  /** Whole ticks past the floor of `x / d` cover more than `x`; the floor itself does not. */
  lemma PushLandsAfter(start: real, now: real, d: real)
    requires d != 0.0
    ensures d > 0.0 ==> start + (((now - start) / d).Floor + 1) as real * d > now
    ensures d > 0.0 ==> start + ((now - start) / d).Floor as real * d <= now
    ensures d > 0.0 && now >= start ==> ((now - start) / d).Floor + 1 >= 1
  {
    if d > 0.0 {
      var q := (now - start) / d;
      var k := q.Floor + 1;
      assert q * d == now - start;
      assert k as real > q;
      assert (k as real - q) * d > 0.0;
      assert q.Floor as real <= q;
      assert q.Floor as real * d <= q * d;
    }
  }

  /** A response together with the time its playback starts. */
  datatype Scheduled = Scheduled(response: NoteSequence, start: real)

  /**
   * The push and playback of `run`: schedule a generated response at the tick, pushed by whole
   * ticks when generation ran late; `None` when the push divides by zero.
   */
  function Schedule(generated: NoteSequence, duration: real, tickTime: real, tickDuration: real,
                    clockAfterGenerate: real, clockForPush: real): (r: Option<Scheduled>)
    ensures r.None? <==> tickDuration == 0.0 && clockAfterGenerate - tickTime >= 0.0
    ensures r.Some? ==>
      && r.value.start == tickTime + PushTicks(tickDuration, tickTime, clockAfterGenerate, clockForPush) as real * tickDuration
      && r.value.response == AdjustSequenceTimes(generated, r.value.start - tickTime)
      && (InWindow(generated, tickTime, tickTime + duration) ==>
            InWindow(r.value.response, r.value.start, r.value.start + duration))
      && (clockAfterGenerate - tickTime < tickDuration / 4.0 ==> r.value.start == tickTime)
      && (clockAfterGenerate - tickTime >= tickDuration / 4.0 && tickDuration > 0.0 ==> r.value.start > clockForPush)
  {
    match LatencyPush(tickDuration, tickTime, clockAfterGenerate, clockForPush)
    case ZeroTick => None
    case NoPush =>
      AdjustInverse(generated, 0.0);
      Some(Scheduled(generated, tickTime))
    case PushBy(k) =>
      var delta := k as real * tickDuration;
      AdjustInWindow(generated, tickTime, tickTime + duration, delta);
      Some(Scheduled(AdjustSequenceTimes(generated, delta), tickTime + delta))
  }

  /** A late response is pushed by the fewest whole ticks: its start is less than one tick after the clock reading. */
  lemma ScheduleFewestTicks(generated: NoteSequence, duration: real, tickTime: real, tickDuration: real,
                            clockAfterGenerate: real, clockForPush: real)
    requires tickDuration > 0.0 && clockAfterGenerate - tickTime >= tickDuration / 4.0
    ensures var r := Schedule(generated, duration, tickTime, tickDuration, clockAfterGenerate, clockForPush);
      r.Some? && clockForPush < r.value.start <= clockForPush + tickDuration
  {
    LatencyPushFewest(tickDuration, tickTime, clockAfterGenerate, clockForPush);
  }

  // ---------------------------------------------------------------------------
  // The decision of a tick

  /**
   * The branches of one pass of `run`'s loop: a stop request ends the loop; a tick with no captured
   * notes idles; otherwise the call ends when the end-call flag is set, the
   * tick was silent or the listen count reached its maximum, and then the
   * interaction responds unless the call is shorter than the minimum; a call
   * that does not end keeps listening.
   */
  function Classify(cfg: Config, inp: TickInputs, listenTicks: nat, endCall: bool, lastTickTime: real): (c: TickCase)
    ensures c == StopTick <==> inp.stopRequested
    ensures c == IdleTick <==> !inp.stopRequested && |inp.captured.notes| == 0
    ensures var silent := IsSilent(inp.captured.notes, lastTickTime);
            var counted := CountListenTick(listenTicks, silent);
            var ends := endCall || silent || ReachedLimit(counted, MaxListenTicks(cfg, inp.controls));
            && (c == ListenTick <==> !inp.stopRequested && |inp.captured.notes| > 0 && !ends)
            && (c == TooShortTick <==> !inp.stopRequested && |inp.captured.notes| > 0 && ends &&
                                       counted < MinListenTicks(cfg, inp.controls))
            && (c == RespondTick <==> !inp.stopRequested && |inp.captured.notes| > 0 && ends &&
                                      counted >= MinListenTicks(cfg, inp.controls))
  {
    if inp.stopRequested then StopTick
    else
      var silent := IsSilent(inp.captured.notes, lastTickTime);
      CaptureCase(cfg, inp.captured.notes, inp.controls, CountListenTick(listenTicks, silent), endCall, silent)
  }

  /**
   * The capture branch of a tick that was not stopped, from the captured
   * notes, the listen count after the silence check, the end-call flag and
   * the silence of the tick.
   */
  function CaptureCase(cfg: Config, notes: seq<Note>, controls: map<int, int>, counted: nat, endCall: bool,
                       silent: bool): TickCase
  {
    if |notes| == 0 then IdleTick
    else if endCall || silent || ReachedLimit(counted, MaxListenTicks(cfg, controls)) then
      if counted < MinListenTicks(cfg, controls) then TooShortTick else RespondTick
    else ListenTick
  }

  /**
   * A call keeps listening only while it is not silent, not ended by the
   * signal and below its maximum length; so with a maximum configured, a
   * call that reaches it and is long enough is answered.
   */
  lemma ListenBounded(cfg: Config, inp: TickInputs, listenTicks: nat, endCall: bool, lastTickTime: real)
    ensures Classify(cfg, inp, listenTicks, endCall, lastTickTime) == ListenTick ==>
      && !endCall && !IsSilent(inp.captured.notes, lastTickTime)
      && !ReachedLimit(listenTicks + 1, MaxListenTicks(cfg, inp.controls))
    ensures !inp.stopRequested && |inp.captured.notes| > 0 &&
            ReachedLimit(listenTicks + 1, MaxListenTicks(cfg, inp.controls)) &&
            listenTicks + 1 >= MinListenTicks(cfg, inp.controls) &&
            !IsSilent(inp.captured.notes, lastTickTime) ==>
      Classify(cfg, inp, listenTicks, endCall, lastTickTime) == RespondTick
  {
  }

  /** The call handed to the generator and the time it starts. */
  datatype Call = Call(seed: NoteSequence, start: real)

  /**
   * The call `run` answers: it runs from the captor's start; after a silent
   * tick it is moved forward one tick, its total time set to the tick time.
   */
  function CallToAnswer(captured: NoteSequence, captureStart: real, silent: bool, tickDuration: real, tickTime: real): (c: Call)
    ensures !silent ==> c == Call(captured, captureStart)
    ensures silent ==> c.start == captureStart + tickDuration && c.seed.totalTime == tickTime &&
                       c.seed.notes == AdjustSequenceTimes(captured, tickDuration).notes
  {
    if silent then Call(AdjustSequenceTimes(captured, tickDuration).(totalTime := tickTime), captureStart + tickDuration)
    else Call(captured, captureStart)
  }

  /** The generator call `_generate` makes to answer `call` over `[start, end)`. */
  function GenerateCallFor(call: Call, start: real, end: real, temperature: real): HubEvent
  {
    GenerateCall(GenerationInput(call.seed, call.start), GenerationOptions(call.start, start, end, temperature))
  }

  /** An answer: the call answered, the response length, the generator call and the generated response. */
  datatype Answer = Answer(call: Call, duration: real, ask: HubEvent, generated: NoteSequence)

  /**
   * How `run` answers a call at `tickTime`: the call (moved one tick on after
   * a silent tick), the response length, the generator call for the window
   * from the tick, and the generated response.
   */
  function AnswerTo(cfg: Config, gen: Generator, captured: NoteSequence, captorStart: real, silent: bool,
                    tickDuration: real, tickTime: real, inp: TickInputs): (a: Answer)
    ensures InWindow(a.generated, tickTime, tickTime + a.duration)
  {
    var call := CallToAnswer(captured, captorStart, silent, tickDuration, tickTime);
    var duration := ResponseDuration(ControlValue(inp.controls, cfg.responseTicksControl), tickDuration, tickTime, call.start);
    var generated := Generate(gen, call.seed, call.start, tickTime, tickTime + duration, inp.temperature);
    Answer(call, duration, GenerateCallFor(call, tickTime, tickTime + duration, inp.temperature), generated)
  }

  /** When and how the answer is played: `None` when its push raises. */
  function AnswerSchedule(a: Answer, tickTime: real, tickDuration: real, inp: TickInputs): Option<Scheduled>
  {
    Schedule(a.generated, a.duration, tickTime, tickDuration, inp.clockAfterGenerate, inp.clockForPush)
  }

  /**
   * The answer lasts the response-ticks value in ticks, or as long as the
   * call; it lies in the window from the tick; it is played from the tick
   * when generation was less than a quarter tick late, and otherwise pushed
   * by whole ticks to start after the clock, except that a zero tick raises.
   */
  lemma AnswerSchedules(cfg: Config, gen: Generator, captured: NoteSequence, captorStart: real, silent: bool,
                        tickDuration: real, tickTime: real, inp: TickInputs)
    ensures var a := AnswerTo(cfg, gen, captured, captorStart, silent, tickDuration, tickTime, inp);
            var s := AnswerSchedule(a, tickTime, tickDuration, inp);
            var n := ControlValue(inp.controls, cfg.responseTicksControl);
            && a.call == CallToAnswer(captured, captorStart, silent, tickDuration, tickTime)
            && (n.Some? && n.value != 0 ==> a.duration == n.value as real * tickDuration)
            && (n.None? || n.value == 0 ==> a.call.start + a.duration == tickTime)
            && InWindow(a.generated, tickTime, tickTime + a.duration)
            && (s.None? <==> tickDuration == 0.0 && inp.clockAfterGenerate - tickTime >= 0.0)
            && (s.Some? ==>
                  && s.value.response == AdjustSequenceTimes(a.generated, s.value.start - tickTime)
                  && InWindow(s.value.response, s.value.start, s.value.start + a.duration)
                  && (inp.clockAfterGenerate - tickTime < tickDuration / 4.0 ==> s.value.start == tickTime)
                  && (inp.clockAfterGenerate - tickTime >= tickDuration / 4.0 && tickDuration > 0.0 ==>
                        s.value.start > inp.clockForPush))
  {
  }

  /** The playback update a panic causes: the empty response. */
  function PanicRequests(panic: bool): seq<HubEvent>
  {
    if panic then [PlaybackUpdate(EmptySequence, None)] else []
  }

  /** The metronome restart of a tick: only without a clock signal and with a metronome channel. */
  function MetronomeRequests(cfg: Config, qpm: real, tickTime: real): seq<HubEvent>
  {
    if cfg.clockSignal.None? && cfg.metronomeChannel.Some? then [MetronomeStart(qpm, tickTime)] else []
  }

  /** What the capture branch of a tick asks of the hub and the generator. */
  function CaptureRequests(c: TickCase, a: Answer, s: Option<Scheduled>, response: NoteSequence, tickTime: real): seq<HubEvent>
  {
    match c
    case IdleTick => if response.totalTime <= tickTime then [StateUpdate(Idle)] else []
    case RespondTick =>
      [StateUpdate(Responding), a.ask] +
      (if s.Some? then [PlaybackUpdate(s.value.response, Some(s.value.start))] else [])
    case ListenTick => [StateUpdate(Listening)]
    case _ => []
  }

  /** The response being played, its start, and whether a mutation is pending. */
  datatype Playback = Playback(response: NoteSequence, start: real, mutate: bool)

  /** The playback after the loop-or-mutate step, and what the step asked of the hub and the generator. */
  datatype Looped = Looped(playback: Playback, requests: seq<HubEvent>)

  /**
   * The mutation of `run`: the response regenerated over the window of the
   * same length that follows it, seeded with the response itself.
   */
  function Mutation(gen: Generator, p: Playback, duration: real, temperature: real): (m: Playback)
    ensures m.start == p.start + duration && !m.mutate
    ensures InWindow(m.response, m.start, m.start + duration)
  {
    Playback(Generate(gen, p.response, p.start, p.start + duration, p.start + duration + duration, temperature),
             p.start + duration, false)
  }

  /** The generator call of the mutation. */
  function MutationCall(p: Playback, duration: real, temperature: real): HubEvent
  {
    GenerateCallFor(Call(p.response, p.start), p.start + duration, p.start + duration + duration, temperature)
  }

  /** The replay of `run`: the response moved to start at the tick. */
  function Replay(response: NoteSequence, start: real, tickTime: real): Playback
  {
    Playback(AdjustSequenceTimes(response, tickTime - start), tickTime, false)
  }

  /**
   * The end of a tick of `run`: a mutation with nothing to mutate is
   * dropped; once the response has finished by the tick and looping is on
   * or a mutation is pending, the response (first mutated, when a mutation
   * is pending) is replayed from the tick.
   */
  function LoopStep(cfg: Config, gen: Generator, p: Playback, duration: real, tickTime: real,
                    controls: map<int, int>, temperature: real): Looped
  {
    var mutating := p.mutate && |p.response.notes| > 0;
    if p.response.totalTime <= tickTime && (ShouldLoop(cfg, controls) || mutating) then
      if mutating then
        var m := Mutation(gen, p, duration, temperature);
        var replayed := Replay(m.response, m.start, tickTime);
        Looped(replayed, [MutationCall(p, duration, temperature), PlaybackUpdate(replayed.response, Some(tickTime))])
      else
        var replayed := Replay(p.response, p.start, tickTime);
        Looped(replayed, [PlaybackUpdate(replayed.response, Some(tickTime))])
    else
      Looped(p.(mutate := mutating), [])
  }

  /**
   * Without a pending mutation, the loop step leaves an unfinished response
   * alone and replays a finished one, when looping is on, shifted to start
   * at the tick, so that a response in its window stays in the window from
   * the tick; the replay is the one playback update of the step.
   */
  lemma LoopStepLoops(cfg: Config, gen: Generator, p: Playback, duration: real, tickTime: real,
                      controls: map<int, int>, temperature: real)
    ensures var r := LoopStep(cfg, gen, p, duration, tickTime, controls, temperature);
            var mutating := p.mutate && |p.response.notes| > 0;
            var replay := p.response.totalTime <= tickTime && (ShouldLoop(cfg, controls) || mutating);
            && (!replay ==> r.playback == p.(mutate := mutating) && r.requests == [])
            && (replay && !mutating ==>
                  && r.playback.response == AdjustSequenceTimes(p.response, tickTime - p.start)
                  && r.playback.start == tickTime && !r.playback.mutate
                  && r.requests == [PlaybackUpdate(r.playback.response, Some(tickTime))])
            && (replay && !mutating && NotesInWindow(p.response, p.start, p.start + duration) ==>
                  NotesInWindow(r.playback.response, tickTime, tickTime + duration))
  {
    if p.response.totalTime <= tickTime && ShouldLoop(cfg, controls) && !(p.mutate && |p.response.notes| > 0) {
      AdjustInWindow(p.response, p.start, p.start + duration, tickTime - p.start);
    }
  }

  /** The loop step of a finished response with a pending mutation: the mutation, replayed from the tick. */
  lemma MutatingStep(cfg: Config, gen: Generator, p: Playback, duration: real, tickTime: real,
                     controls: map<int, int>, temperature: real)
    requires p.response.totalTime <= tickTime && p.mutate && |p.response.notes| > 0
    ensures var m := Mutation(gen, p, duration, temperature);
            var replayed := Replay(m.response, m.start, tickTime);
            LoopStep(cfg, gen, p, duration, tickTime, controls, temperature) ==
              Looped(replayed, [MutationCall(p, duration, temperature), PlaybackUpdate(replayed.response, Some(tickTime))])
  {
  }

  /**
   * A pending mutation of a finished response asks the generator for the
   * window that follows the response, seeded with the response, and replays
   * the result from the tick, where it lies in the window from the tick.
   */
  lemma LoopStepMutates(cfg: Config, gen: Generator, p: Playback, duration: real, tickTime: real,
                        controls: map<int, int>, temperature: real)
    ensures var r := LoopStep(cfg, gen, p, duration, tickTime, controls, temperature);
            var next := p.start + duration;
            p.response.totalTime <= tickTime && p.mutate && |p.response.notes| > 0 ==>
              && r.playback.start == tickTime && !r.playback.mutate
              && InWindow(r.playback.response, tickTime, tickTime + duration)
              && r.requests == [GenerateCallFor(Call(p.response, p.start), next, next + duration, temperature),
                                PlaybackUpdate(r.playback.response, Some(tickTime))]
  {
    if p.response.totalTime <= tickTime && p.mutate && |p.response.notes| > 0 {
      MutatingStep(cfg, gen, p, duration, tickTime, controls, temperature);
      var m := Mutation(gen, p, duration, temperature);
      AdjustInWindow(m.response, m.start, m.start + duration, tickTime - m.start);
    }
  }

  /**
   * The response a pending mutation of a finished response leaves is what
   * the generator returns for the window that follows the response, seeded
   * with the response, moved to start at the tick.
   */
  lemma LoopStepMutation(cfg: Config, gen: Generator, p: Playback, duration: real, tickTime: real,
                         controls: map<int, int>, temperature: real)
    ensures var r := LoopStep(cfg, gen, p, duration, tickTime, controls, temperature);
            var next := p.start + duration;
            p.response.totalTime <= tickTime && p.mutate && |p.response.notes| > 0 ==>
              r.playback.response ==
                AdjustSequenceTimes(Generate(gen, p.response, p.start, next, next + duration, temperature), tickTime - next)
  {
    if p.response.totalTime <= tickTime && p.mutate && |p.response.notes| > 0 {
      MutatingStep(cfg, gen, p, duration, tickTime, controls, temperature);
    }
  }
}
