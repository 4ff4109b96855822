/**
 * The real-time call-and-response interaction: a class holding the state the
 * run loop keeps between clock ticks (listen count, previous tick time, the
 * current response and its window, the captor's start time) and the three
 * flags the MIDI callbacks set. `Step` is one iteration of the run loop;
 * everything it asks of the MIDI hub and the generator is appended to
 * `requests`, in order.
 */
module RealTimeInteraction {
  import opened Wrappers
  import opened Music
  import opened InteractionSpec

  class RealTimeMidiInteraction {
    const cfg: Config
    const gen: Generator
    var running: bool            // the run loop has not ended
    var listenTicks: nat         // non-silent ticks of the current call
    var lastTickTime: real       // time of the previous tick
    var response: NoteSequence   // the response being played
    var responseStart: real
    var responseDuration: real
    var captorStart: real        // start time of the captor's sequence
    var endCall: bool            // set by the end-call signal
    var panic: bool              // set by the panic signal
    var mutate: bool             // set by the mutate signal
    var requests: seq<HubEvent>  // what the interaction asked of the hub so far

    /** The response's notes lie in the window it was generated or scheduled for. */
    ghost predicate ResponseScheduled()
      reads this
    {
      NotesInWindow(response, responseStart, responseStart + responseDuration)
    }

    /**
     * The class invariant: exactly one of the clock signal and the tick
     * duration is configured (the constructor's check), a flag is only ever
     * set when its signal is configured (its callback is registered only
     * then), the response lies in its window, and the interaction never
     * reports the `Augment` state.
     */
    ghost predicate Valid()
      reads this
    {
      && (cfg.clockSignal.None? != cfg.tickDuration.None?)
      && (cfg.endCallSignal.None? ==> !endCall)
      && (cfg.panicSignal.None? ==> !panic)
      && (cfg.mutateSignal.None? ==> !mutate)
      && ResponseScheduled()
      && StateUpdate(Augment) !in requests
    }

    /**
     * The constructor's check and the start of `run` up to the loop: start
     * capturing at `startTime`, start the metronome when there is no clock
     * signal and a metronome channel, and start playing an empty response.
     * `loopStartTime` is the second clock reading, taken before the loop.
     */
    constructor(cfg: Config, gen: Generator, qpm: real, startTime: real, loopStartTime: real)
      requires CheckClockConfig(cfg.clockSignal, cfg.tickDuration).Pass?
      ensures Valid() && running
      ensures this.cfg == cfg && this.gen == gen
      ensures listenTicks == 0 && lastTickTime == loopStartTime && captorStart == startTime
      ensures response == EmptySequence && responseStart == 0.0 && responseDuration == 0.0
      ensures !endCall && !panic && !mutate
      ensures requests ==
        [CaptureStart(qpm, startTime)] +
        (if cfg.clockSignal.None? && cfg.metronomeChannel.Some? then [MetronomeStart(qpm, startTime)] else []) +
        [PlaybackStart(EmptySequence)]
    {
      this.cfg := cfg;
      this.gen := gen;
      running := true;
      listenTicks := 0;
      lastTickTime := loopStartTime;
      response := EmptySequence;
      responseStart := 0.0;
      responseDuration := 0.0;
      captorStart := startTime;
      endCall := false;
      panic := false;
      mutate := false;
      var log := [CaptureStart(qpm, startTime)];
      if cfg.clockSignal.None? && cfg.metronomeChannel.Some? {
        log := log + [MetronomeStart(qpm, startTime)];
      }
      requests := log + [PlaybackStart(EmptySequence)];
    }

    /** The end-call callback, registered only when an end-call signal is configured. */
    method EndCallCallback()
      requires Valid() && cfg.endCallSignal.Some?
      modifies this`endCall
      ensures Valid() && endCall
    {
      endCall := true;
    }

    /** The panic callback, registered only when a panic signal is configured. */
    method PanicCallback()
      requires Valid() && cfg.panicSignal.Some?
      modifies this`panic
      ensures Valid() && panic
    {
      panic := true;
    }

    /** The mutate callback, registered only when a mutate signal is configured. */
    method MutateCallback()
      requires Valid() && cfg.mutateSignal.Some?
      modifies this`mutate
      ensures Valid() && mutate
    {
      mutate := true;
    }

    /** The panic block of `run`: on panic, replace the response by an empty one and clear the flag. */
    method ClearOnPanic()
      requires Valid()
      modifies this`response, this`panic, this`requests
      ensures Valid() && !panic
      ensures response == (if old(panic) then EmptySequence else old(response))
      ensures requests == old(requests) + PanicRequests(old(panic))
    {
      if panic {
        response := EmptySequence;
        requests := requests + [PlaybackUpdate(EmptySequence, None)];
        panic := false;
      }
    }

    /** The metronome restart of `run`: without a clock signal, restart the metronome at the tick with the current tempo. */
    method RestartMetronome(qpm: real, tickTime: real)
      requires Valid()
      modifies this`requests
      ensures Valid()
      ensures requests == old(requests) + MetronomeRequests(cfg, qpm, tickTime)
      ensures cfg.clockSignal.None? && cfg.metronomeChannel.Some? ==> requests == old(requests) + [MetronomeStart(qpm, tickTime)]
    {
      if cfg.clockSignal.None? && cfg.metronomeChannel.Some? {
        requests := requests + [MetronomeStart(qpm, tickTime)];
      }
    }

    /**
     * The idle branch of `run`: nothing was captured. Report idling once the
     * response has finished playing, move the captor's start up to the tick,
     * and start a fresh call.
     */
    method ResetWhileIdle(tickTime: real)
      requires Valid()
      modifies this`captorStart, this`endCall, this`listenTicks, this`requests
      ensures Valid()
      ensures listenTicks == 0 && !endCall
      ensures captorStart == (if old(captorStart) < tickTime then tickTime else old(captorStart))
      ensures requests == old(requests) + (if response.totalTime <= tickTime then [StateUpdate(Idle)] else [])
    {
      if response.totalTime <= tickTime {
        requests := requests + [StateUpdate(Idle)];
      }
      if captorStart < tickTime {
        captorStart := tickTime;
      }
      endCall := false;
      listenTicks := 0;
    }

    /**
     * The generation half of the answer in `run`: report that the
     * interaction responds, move the call one tick forward after a silent
     * tick, take the response length from the response-ticks control (or the
     * call's length) and generate a response for the window starting at the tick.
     */
    method GenerateResponse(captured: NoteSequence, tickTime: real, tickDuration: real, silent: bool, inp: TickInputs)
      requires Valid()
      modifies this`response, this`responseStart, this`responseDuration, this`requests
      ensures Valid()
      ensures var a := AnswerTo(cfg, gen, captured, captorStart, silent, tickDuration, tickTime, inp);
              && responseDuration == a.duration && responseStart == tickTime && response == a.generated
              && requests == old(requests) + [StateUpdate(Responding), a.ask]
      ensures InWindow(response, responseStart, responseStart + responseDuration)
    {
      var a := AnswerTo(cfg, gen, captured, captorStart, silent, tickDuration, tickTime, inp);
      requests := requests + [StateUpdate(Responding), a.ask];
      response := a.generated;
      responseStart := tickTime;
      responseDuration := a.duration;
    }

    /**
     * The push and playback half of the answer in `run`: push a response
     * that was generated a quarter tick late by whole ticks past the clock,
     * play it from its start, and move the captor's start to the response
     * start (overlap allowed) or its end. A zero tick duration makes the push
     * raise (`fault`) before anything is played.
     */
    method PushAndPlay(tickTime: real, tickDuration: real, clockAfterGenerate: real, clockForPush: real)
      returns (fault: bool)
      requires Valid() && responseStart == tickTime
      requires InWindow(response, tickTime, tickTime + responseDuration)
      modifies this`response, this`responseStart, this`captorStart, this`requests
      ensures Valid()
      ensures fault <==> tickDuration == 0.0 && clockAfterGenerate - tickTime >= 0.0
      ensures fault ==> && response == old(response) && responseStart == tickTime && requests == old(requests)
                        && captorStart == old(captorStart)
      ensures !fault ==>
        && Some(Scheduled(response, responseStart)) ==
             Schedule(old(response), responseDuration, tickTime, tickDuration, clockAfterGenerate, clockForPush)
        && (clockAfterGenerate - tickTime < tickDuration / 4.0 ==> responseStart == tickTime)
        && (clockAfterGenerate - tickTime >= tickDuration / 4.0 && tickDuration > 0.0 ==> responseStart > clockForPush)
        && requests == old(requests) + [PlaybackUpdate(response, Some(responseStart))]
        && captorStart == (if cfg.allowOverlap then responseStart else responseStart + responseDuration)
    {
      var scheduled := Schedule(response, responseDuration, tickTime, tickDuration, clockAfterGenerate, clockForPush);
      if scheduled.None? {
        // the floor division by the zero tick raises
        return true;
      }
      assert scheduled == Some(Scheduled(scheduled.value.response, scheduled.value.start));
      response := scheduled.value.response;
      responseStart := scheduled.value.start;
      requests := requests + [PlaybackUpdate(response, Some(responseStart))];
      if cfg.allowOverlap {
        captorStart := responseStart;
      } else {
        captorStart := responseStart + responseDuration;
      }
      fault := false;
    }

    /** The end of a call in `run`: clear the end-call flag and the listen count. */
    method ClearCall()
      requires Valid()
      modifies this`endCall, this`listenTicks
      ensures Valid() && listenTicks == 0 && !endCall
    {
      endCall := false;
      listenTicks := 0;
    }

    /**
     * The answer branch of `run`: generate, then push and play, then clear
     * the end-call flag and the listen count. The response is the scheduled
     * answer to the call; a zero tick duration raises after generation and
     * leaves the captor and the call alone.
     */
    method Respond(captured: NoteSequence, tickTime: real, tickDuration: real, silent: bool, inp: TickInputs)
      returns (fault: bool)
      requires Valid()
      modifies this`response, this`responseStart, this`responseDuration, this`captorStart, this`requests,
               this`listenTicks, this`endCall
      ensures Valid()
      ensures var a := AnswerTo(cfg, gen, captured, old(captorStart), silent, tickDuration, tickTime, inp);
              var s := AnswerSchedule(a, tickTime, tickDuration, inp);
              && responseDuration == a.duration
              && (fault <==> s.None?)
              && (fault ==> && response == a.generated && responseStart == tickTime && captorStart == old(captorStart)
                            && listenTicks == old(listenTicks) && endCall == old(endCall))
              && (!fault ==> && s == Some(Scheduled(response, responseStart))
                             && captorStart == (if cfg.allowOverlap then responseStart else responseStart + responseDuration)
                             && listenTicks == 0 && !endCall)
              && requests == old(requests) + CaptureRequests(RespondTick, a, s, old(response), tickTime)
    {
      ghost var a := AnswerTo(cfg, gen, captured, captorStart, silent, tickDuration, tickTime, inp);
      GenerateResponse(captured, tickTime, tickDuration, silent, inp);
      fault := PushAndPlay(tickTime, tickDuration, inp.clockAfterGenerate, inp.clockForPush);
      if !fault {
        assert requests == old(requests) + ([StateUpdate(Responding), a.ask] + [PlaybackUpdate(response, Some(responseStart))]);
        ClearCall();
      }
    }

    /**
     * The capture branches of `run`, after the listen count was updated:
     * idle when nothing was captured; when the call ended, skip it if it is
     * shorter than the minimum or answer it, and in both cases clear the
     * end-call flag and the listen count; otherwise keep listening. A zero
     * tick duration raises while answering, before the call is reset.
     * `tickCase` is the branch `CaptureCase` names for the updated count.
     */
    method HandleCapture(captured: NoteSequence, tickTime: real, tickDuration: real, silent: bool,
                         inp: TickInputs, tickCase: TickCase)
      returns (fault: bool)
      requires Valid()
      requires tickCase == CaptureCase(cfg, captured.notes, inp.controls, listenTicks, endCall, silent)
      modifies this`response, this`responseStart, this`responseDuration, this`captorStart,
               this`listenTicks, this`endCall, this`requests
      ensures Valid()
      ensures fault ==> tickCase == RespondTick && tickDuration == 0.0
      ensures var a := AnswerTo(cfg, gen, captured, old(captorStart), silent, tickDuration, tickTime, inp);
              requests == old(requests) + CaptureRequests(tickCase, a, AnswerSchedule(a, tickTime, tickDuration, inp),
                                                          old(response), tickTime)
      ensures tickCase != RespondTick ==>
        && !fault && response == old(response) && responseStart == old(responseStart)
        && responseDuration == old(responseDuration)
      ensures tickCase == IdleTick ==>
        && listenTicks == 0 && !endCall
        && captorStart == (if old(captorStart) < tickTime then tickTime else old(captorStart))
      ensures tickCase == TooShortTick ==> captorStart == tickTime && listenTicks == 0 && !endCall
      ensures tickCase == RespondTick ==>
        var a := AnswerTo(cfg, gen, captured, old(captorStart), silent, tickDuration, tickTime, inp);
        var s := AnswerSchedule(a, tickTime, tickDuration, inp);
        && responseDuration == a.duration
        && (fault <==> s.None?)
        && (fault ==> && response == a.generated && responseStart == tickTime && captorStart == old(captorStart)
                      && listenTicks == old(listenTicks) && endCall == old(endCall))
        && (!fault ==> && s == Some(Scheduled(response, responseStart))
                       && captorStart == (if cfg.allowOverlap then responseStart else responseStart + responseDuration)
                       && listenTicks == 0 && !endCall)
      ensures tickCase == ListenTick ==>
        listenTicks == old(listenTicks) && endCall == old(endCall) && captorStart == old(captorStart)
    {
      fault := false;
      match tickCase {
        case IdleTick =>
          ResetWhileIdle(tickTime);
        case TooShortTick =>
          captorStart := tickTime;
          ClearCall();
        case RespondTick =>
          fault := Respond(captured, tickTime, tickDuration, silent, inp);
        case ListenTick =>
          requests := requests + [StateUpdate(Listening)];
      }
    }

    /** The mutate guard of `run`: a mutate request with no response to mutate is dropped. */
    method DropEmptyMutate()
      requires Valid()
      modifies this`mutate
      ensures Valid()
      ensures mutate == (old(mutate) && |response.notes| > 0)
    {
      if mutate && |response.notes| == 0 {
        mutate := false;
      }
    }

    /**
     * The mutation in `run`: replace the response by its continuation,
     * generated over the window that follows it and seeded with the response itself.
     */
    method MutateResponse(temperature: real)
      requires Valid()
      modifies this`response, this`responseStart, this`mutate, this`requests
      ensures Valid()
      ensures Playback(response, responseStart, mutate) ==
                Mutation(gen, Playback(old(response), old(responseStart), old(mutate)), responseDuration, temperature)
      ensures requests == old(requests) + [MutationCall(Playback(old(response), old(responseStart), old(mutate)),
                                                        responseDuration, temperature)]
    {
      var nextStart := responseStart + responseDuration;
      var nextEnd := nextStart + responseDuration;
      requests := requests + [GenerateCallFor(Call(response, responseStart), nextStart, nextEnd, temperature)];
      response := Generate(gen, response, responseStart, nextStart, nextEnd, temperature);
      responseStart := nextStart;
      mutate := false;
    }

    /** The replay in `run`: move the response to start at the tick and play it from there. */
    method ReplayAt(tickTime: real)
      requires Valid()
      modifies this`response, this`responseStart, this`mutate, this`requests
      ensures Valid()
      ensures Playback(response, responseStart, mutate) == Replay(old(response), old(responseStart), tickTime)
      ensures requests == old(requests) + [PlaybackUpdate(response, Some(tickTime))]
    {
      AdjustInWindow(response, responseStart, responseStart + responseDuration, tickTime - responseStart);
      response := AdjustSequenceTimes(response, tickTime - responseStart);
      responseStart := tickTime;
      mutate := false;
      requests := requests + [PlaybackUpdate(response, Some(tickTime))];
    }

    /**
     * The loop-or-mutate step of `run`: drop a mutate request when there is
     * nothing to mutate; then, once the response has finished playing and
     * looping is on or a mutation is pending, mutate it (if pending) and
     * replay it from this tick, as `LoopStep` describes.
     */
    method LoopOrMutate(tickTime: real, controls: map<int, int>, temperature: real)
      requires Valid()
      modifies this`response, this`responseStart, this`mutate, this`requests
      ensures Valid()
      ensures var r := LoopStep(cfg, gen, Playback(old(response), old(responseStart), old(mutate)), responseDuration,
                                tickTime, controls, temperature);
              && Playback(response, responseStart, mutate) == r.playback
              && requests == old(requests) + r.requests
    {
      DropEmptyMutate();
      if response.totalTime <= tickTime && (ShouldLoop(cfg, controls) || mutate) {
        if mutate {
          MutateResponse(temperature);
        }
        ReplayAt(tickTime);
      }
    }

    /**
     * The start of a tick of `run`: clear the response on panic, restart the
     * metronome at the tick when there is no clock signal, stamp the captured
     * sequence with the current tempo, and count a tick in which some note
     * ended after the previous tick.
     */
    method BeginTick(inp: TickInputs) returns (captured: NoteSequence, tickDuration: real, silent: bool)
      requires Valid()
      modifies this`response, this`panic, this`requests, this`listenTicks
      ensures Valid() && !panic
      ensures captured == inp.captured.(qpm := Some(inp.qpm))
      ensures tickDuration == inp.captured.totalTime - old(lastTickTime)
      ensures silent == IsSilent(inp.captured.notes, old(lastTickTime))
      ensures listenTicks == CountListenTick(old(listenTicks), silent)
      ensures response == (if old(panic) then EmptySequence else old(response))
      ensures requests == old(requests) + PanicRequests(old(panic)) + MetronomeRequests(cfg, inp.qpm, inp.captured.totalTime)
    {
      ClearOnPanic();
      var tickTime := inp.captured.totalTime;
      RestartMetronome(inp.qpm, tickTime);
      captured := inp.captured.(qpm := Some(inp.qpm));
      tickDuration := tickTime - lastTickTime;
      silent := IsSilent(captured.notes, lastTickTime);
      if !silent {
        listenTicks := listenTicks + 1;
      }
    }

    /** The run loop ends. */
    method Halt()
      requires Valid()
      modifies this`running
      ensures Valid() && !running
    {
      running := false;
    }

    /** The last statement of the loop body: this tick becomes the previous tick. */
    method AdvanceTo(tickTime: real)
      requires Valid()
      modifies this`lastTickTime
      ensures Valid() && lastTickTime == tickTime
    {
      lastTickTime := tickTime;
    }

    /**
     * A tick of the run loop up to the loop-or-mutate block: `BeginTick`, then
     * the branch `Classify` names for the state before the tick. It faults
     * only when it answers with a zero tick duration. The ghost parameters
     * `answer` and `schedule` carry no input of their own: the requires
     * clauses fix them to `AnswerTo` of the state before the tick and its
     * `AnswerSchedule`, so that the ensures clauses can name them; they
     * matter only when the tick answers.
     */
    method CaptureTick(inp: TickInputs, ghost answer: Answer, ghost schedule: Option<Scheduled>)
      returns (fault: bool, ghost captured: NoteSequence, ghost silent: bool, ghost tickDuration: real,
               ghost tickCase: TickCase)
      requires Valid() && !inp.stopRequested
      requires answer == AnswerTo(cfg, gen, inp.captured.(qpm := Some(inp.qpm)), captorStart,
                                  IsSilent(inp.captured.notes, lastTickTime), inp.captured.totalTime - lastTickTime,
                                  inp.captured.totalTime, inp)
      requires schedule == AnswerSchedule(answer, inp.captured.totalTime, inp.captured.totalTime - lastTickTime, inp)
      modifies this`response, this`responseStart, this`responseDuration, this`captorStart,
               this`listenTicks, this`endCall, this`requests, this`panic
      ensures Valid() && !panic
      ensures captured == inp.captured.(qpm := Some(inp.qpm))
      ensures silent == IsSilent(inp.captured.notes, old(lastTickTime))
      ensures tickDuration == inp.captured.totalTime - old(lastTickTime)
      ensures tickCase == Classify(cfg, inp, old(listenTicks), old(endCall), old(lastTickTime))
      ensures fault ==> tickCase == RespondTick && tickDuration == 0.0
      ensures tickCase == RespondTick ==> responseDuration == answer.duration && (fault <==> schedule.None?)
      ensures fault ==>
        response == answer.generated && responseStart == inp.captured.totalTime && captorStart == old(captorStart)
      ensures requests == old(requests) + PanicRequests(old(panic)) + MetronomeRequests(cfg, inp.qpm, inp.captured.totalTime)
                          + CaptureRequests(tickCase, answer, schedule, if old(panic) then EmptySequence else old(response),
                                            inp.captured.totalTime)
      ensures tickCase == RespondTick && !fault ==>
        && captorStart == (if cfg.allowOverlap then schedule.value.start else schedule.value.start + answer.duration)
        && (inp.clockAfterGenerate - inp.captured.totalTime >= tickDuration / 4.0 && tickDuration > 0.0 ==>
              schedule.value.start > inp.clockForPush)
        && listenTicks == 0 && !endCall
      ensures tickCase == RespondTick && !fault ==>
        response == schedule.value.response && responseStart == schedule.value.start
      ensures tickCase != RespondTick ==>
        && !fault && response == (if old(panic) then EmptySequence else old(response))
        && responseStart == old(responseStart) && responseDuration == old(responseDuration)
      ensures tickCase == IdleTick ==>
        && listenTicks == 0 && !endCall
        && captorStart == (if old(captorStart) < inp.captured.totalTime then inp.captured.totalTime else old(captorStart))
      ensures tickCase == TooShortTick ==> captorStart == inp.captured.totalTime && listenTicks == 0 && !endCall
      ensures tickCase == ListenTick ==>
        listenTicks == old(listenTicks) + 1 && endCall == old(endCall) && captorStart == old(captorStart)
    {
      var stamped, duration, quiet := BeginTick(inp);
      captured, tickDuration, silent := stamped, duration, quiet;
      var branch := CaptureCase(cfg, stamped.notes, inp.controls, listenTicks, endCall, quiet);
      tickCase := branch;
      fault := HandleCapture(stamped, inp.captured.totalTime, duration, quiet, inp, branch);
    }

    /**
     * The end of a tick of `run`: the run loop ends when the tick raised;
     * otherwise the loop-or-mutate step, and the tick becomes the previous
     * tick.
     */
    method FinishTick(fault: bool, tickTime: real, controls: map<int, int>, temperature: real)
      returns (outcome: TickOutcome)
      requires Valid() && running
      modifies this`response, this`responseStart, this`mutate, this`requests, this`lastTickTime, this`running
      ensures Valid()
      ensures outcome == (if fault then DivisionByZero else Continue)
      ensures running <==> !fault
      ensures fault ==> && response == old(response) && responseStart == old(responseStart) && mutate == old(mutate)
                        && requests == old(requests) && lastTickTime == old(lastTickTime)
      ensures !fault ==>
        var r := LoopStep(cfg, gen, Playback(old(response), old(responseStart), old(mutate)), responseDuration,
                          tickTime, controls, temperature);
        && Playback(response, responseStart, mutate) == r.playback
        && requests == old(requests) + r.requests
        && lastTickTime == tickTime
    {
      if fault {
        Halt();
        return DivisionByZero;
      }
      LoopOrMutate(tickTime, controls, temperature);
      AdvanceTo(tickTime);
      outcome := Continue;
    }

    /**
     * A tick of the run loop that was not asked to stop: `CaptureTick`, then
     * `FinishTick`, which ends the run loop when the tick faulted and otherwise
     * passes the response `mid` left by the capture through `LoopStep`
     * (giving `looped`). The ghost parameters `answer` and `schedule` only
     * name `AnswerTo` of the state before the tick and its `AnswerSchedule`,
     * as for `CaptureTick`.
     */
    method Tick(inp: TickInputs, ghost answer: Answer, ghost schedule: Option<Scheduled>)
      returns (outcome: TickOutcome, ghost captured: NoteSequence, ghost silent: bool, ghost tickDuration: real,
               ghost tickCase: TickCase, ghost mid: Playback, ghost looped: Looped)
      requires Valid() && running && !inp.stopRequested
      requires answer == AnswerTo(cfg, gen, inp.captured.(qpm := Some(inp.qpm)), captorStart,
                                  IsSilent(inp.captured.notes, lastTickTime), inp.captured.totalTime - lastTickTime,
                                  inp.captured.totalTime, inp)
      requires schedule == AnswerSchedule(answer, inp.captured.totalTime, inp.captured.totalTime - lastTickTime, inp)
      modifies this
      ensures Valid() && outcome != Stopped
      ensures running <==> outcome == Continue
      ensures !panic
      ensures outcome == Continue ==> lastTickTime == inp.captured.totalTime
      ensures captured == inp.captured.(qpm := Some(inp.qpm))
      ensures silent == IsSilent(inp.captured.notes, old(lastTickTime))
      ensures tickDuration == inp.captured.totalTime - old(lastTickTime)
      ensures tickCase == Classify(cfg, inp, old(listenTicks), old(endCall), old(lastTickTime))
      ensures outcome == Continue ==>
        looped == LoopStep(cfg, gen, mid, responseDuration, inp.captured.totalTime, inp.controls, inp.temperature)
      ensures outcome == DivisionByZero ==> tickCase == RespondTick && tickDuration == 0.0
      ensures tickCase == RespondTick ==>
        responseDuration == answer.duration && (outcome == DivisionByZero <==> schedule.None?)
      ensures outcome == DivisionByZero ==>
        && response == answer.generated && responseStart == inp.captured.totalTime && captorStart == old(captorStart)
        && requests == old(requests) + PanicRequests(old(panic)) + MetronomeRequests(cfg, inp.qpm, inp.captured.totalTime)
                       + CaptureRequests(RespondTick, answer, schedule, if old(panic) then EmptySequence else old(response),
                                         inp.captured.totalTime)
      ensures tickCase == RespondTick && outcome == Continue ==>
        && captorStart == (if cfg.allowOverlap then schedule.value.start else schedule.value.start + answer.duration)
        && (inp.clockAfterGenerate - inp.captured.totalTime >= tickDuration / 4.0 && tickDuration > 0.0 ==>
              schedule.value.start > inp.clockForPush)
        && listenTicks == 0 && !endCall
      ensures outcome == Continue ==>
        && (tickCase == RespondTick ==> mid == Playback(schedule.value.response, schedule.value.start, old(mutate)))
        && (tickCase != RespondTick ==>
              mid == Playback(if old(panic) then EmptySequence else old(response), old(responseStart), old(mutate)))
        && (tickCase != RespondTick ==> responseDuration == old(responseDuration))
        && Playback(response, responseStart, mutate) == looped.playback
        && requests == old(requests) + PanicRequests(old(panic)) + MetronomeRequests(cfg, inp.qpm, inp.captured.totalTime)
                       + CaptureRequests(tickCase, answer, schedule, if old(panic) then EmptySequence else old(response),
                                         inp.captured.totalTime)
                       + looped.requests
      ensures tickCase == IdleTick ==>
        && outcome == Continue && listenTicks == 0 && !endCall
        && captorStart == (if old(captorStart) < inp.captured.totalTime then inp.captured.totalTime else old(captorStart))
      ensures tickCase == TooShortTick ==>
        outcome == Continue && captorStart == inp.captured.totalTime && listenTicks == 0 && !endCall
      ensures tickCase == ListenTick ==>
        && outcome == Continue && listenTicks == old(listenTicks) + 1
        && endCall == old(endCall) && captorStart == old(captorStart)
    {
      var fault;
      fault, captured, silent, tickDuration, tickCase := CaptureTick(inp, answer, schedule);
      mid := Playback(response, responseStart, mutate);
      looped := LoopStep(cfg, gen, mid, responseDuration, inp.captured.totalTime, inp.controls, inp.temperature);
      outcome := FinishTick(fault, inp.captured.totalTime, inp.controls, inp.temperature);
    }

    /**
     * One iteration of the run loop: stop on request, or `Tick`; the loop
     * ends when the tick raises. Which branch a tick takes is `Classify` of
     * the state before the tick, and the response left by the capture
     * (`mid`) then goes through `LoopStep`. The ghost parameters `answer` and
     * `schedule` carry no input of their own: the requires clauses fix them
     * to `AnswerTo` of the state before the tick and its `AnswerSchedule`, so
     * that the ensures clauses can name them (they matter only when the tick
     * answers).
     */
    method Step(inp: TickInputs, ghost answer: Answer, ghost schedule: Option<Scheduled>)
      returns (outcome: TickOutcome, ghost captured: NoteSequence, ghost silent: bool, ghost tickDuration: real,
               ghost tickCase: TickCase, ghost mid: Playback, ghost looped: Looped)
      requires Valid() && running
      requires answer == AnswerTo(cfg, gen, inp.captured.(qpm := Some(inp.qpm)), captorStart,
                                  IsSilent(inp.captured.notes, lastTickTime), inp.captured.totalTime - lastTickTime,
                                  inp.captured.totalTime, inp)
      requires schedule == AnswerSchedule(answer, inp.captured.totalTime, inp.captured.totalTime - lastTickTime, inp)
      modifies this
      ensures Valid()
      ensures running <==> outcome == Continue
      ensures outcome == Stopped <==> inp.stopRequested
      ensures inp.stopRequested ==>
        && requests == old(requests) + [PlaybackStop]
        && listenTicks == old(listenTicks) && lastTickTime == old(lastTickTime)
        && response == old(response) && responseStart == old(responseStart)
        && responseDuration == old(responseDuration) && captorStart == old(captorStart)
        && endCall == old(endCall) && panic == old(panic) && mutate == old(mutate)
      ensures !inp.stopRequested ==> !panic
      ensures outcome == Continue ==> lastTickTime == inp.captured.totalTime
      ensures captured == inp.captured.(qpm := Some(inp.qpm))
      ensures silent == IsSilent(inp.captured.notes, old(lastTickTime))
      ensures tickDuration == inp.captured.totalTime - old(lastTickTime)
      ensures tickCase == Classify(cfg, inp, old(listenTicks), old(endCall), old(lastTickTime))
      ensures outcome == Continue ==>
        looped == LoopStep(cfg, gen, mid, responseDuration, inp.captured.totalTime, inp.controls, inp.temperature)
      ensures !inp.stopRequested ==>
        var tickTime := inp.captured.totalTime;
        var a, s := answer, schedule;
        var before := if old(panic) then EmptySequence else old(response);
        var begun := old(requests) + PanicRequests(old(panic)) + MetronomeRequests(cfg, inp.qpm, tickTime);
        && (outcome == DivisionByZero ==> tickCase == RespondTick && tickDuration == 0.0)
        && (tickCase == RespondTick ==> responseDuration == a.duration && (outcome == DivisionByZero <==> s.None?))
        && (outcome == DivisionByZero ==>
              && response == a.generated && responseStart == tickTime && captorStart == old(captorStart)
              && requests == begun + CaptureRequests(RespondTick, a, s, before, tickTime))
        && (tickCase == RespondTick && outcome == Continue ==>
              && captorStart == (if cfg.allowOverlap then s.value.start else s.value.start + a.duration)
              && (inp.clockAfterGenerate - tickTime >= tickDuration / 4.0 && tickDuration > 0.0 ==>
                    s.value.start > inp.clockForPush)
              && listenTicks == 0 && !endCall)
        && (outcome == Continue ==>
              && mid == (if tickCase == RespondTick
                         then Playback(s.value.response, s.value.start, old(mutate))
                         else Playback(before, old(responseStart), old(mutate)))
              && (tickCase != RespondTick ==> responseDuration == old(responseDuration))
              && Playback(response, responseStart, mutate) == looped.playback
              && requests == begun + CaptureRequests(tickCase, a, s, before, tickTime) + looped.requests)
        && (tickCase == IdleTick ==>
              && outcome == Continue && listenTicks == 0 && !endCall
              && captorStart == (if old(captorStart) < tickTime then tickTime else old(captorStart)))
        && (tickCase == TooShortTick ==>
              && outcome == Continue && captorStart == tickTime && listenTicks == 0 && !endCall)
        && (tickCase == ListenTick ==>
              && outcome == Continue && listenTicks == old(listenTicks) + 1
              && endCall == old(endCall) && captorStart == old(captorStart))
    {
      if inp.stopRequested {
        captured := inp.captured.(qpm := Some(inp.qpm));
        silent := IsSilent(inp.captured.notes, lastTickTime);
        tickDuration := inp.captured.totalTime - lastTickTime;
        mid := Playback(response, responseStart, mutate);
        requests := requests + [PlaybackStop];
        running := false;
        return Stopped, captured, silent, tickDuration, StopTick, mid, Looped(mid, []);
      }
      outcome, captured, silent, tickDuration, tickCase, mid, looped := Tick(inp, answer, schedule);
    }
  }
}
