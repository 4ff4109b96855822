# Real-time MIDI call and response: a Dafny model

This project models the core of a MIDI jamming system. A player plays into a
MIDI hub. A note-sequence generator answers in the player's tempo, either
after every call or in real time. The parts modelled are:

- **The real-time interaction** (`RealTimeMidiInteraction`): a tick-driven
  state machine. Each tick it does the following:
  - answers a panic by clearing the response;
  - restarts the metronome at the current tempo;
  - counts the ticks in which the player played;
  - ends a call on the end-call signal, a silent tick or the listen limit;
  - asks the generator for a response between the tick and the requested
    number of response ticks;
  - pushes the response's start forward by whole ticks when generation ran
    late;
  - plays the response, and later either loops it or mutates it.

  `InteractionSpec` holds the pure parts, among them `Classify`, the decision
  table of one tick. The class's `Step` is proved against them. Its ghost
  parameters and results name the tick's intermediate values: the answer
  and its schedule, the stamped call, the silence test, the tick duration,
  the branch, and the playback before and after the loop-or-mutate step.
- **The launcher** (`SynmagMidi`):
  - the default configuration and the drum and piano set-ups merged over it;
  - validation of a configuration;
  - the map from control names to control-change numbers, and the mapper that
    reassigns them;
  - the choice between an external clock and a one-bar tick;
  - the optional signals and the metronome channel;
  - the control-learning prompt, which, as written, raises on any selection
    because Python 3's `dict.keys()` cannot be indexed;
  - the arguments handed to the interaction.
- **MIDI helpers** (`MidiUtil`, `LegacyMidiUtil`): transposing the notes of
  every non-drum instrument in place, and a mock output port that queues the
  messages it is sent.
- **The scraper's link helpers** (`Scrape`): cutting a download link out of a
  search-engine redirect, and resuming a list of links at the checkpoint.

`Music` models magenta's `adjust_sequence_times` and `trim_note_sequence` by
their documented behaviour. `Strings` models Python's `str.split` and `int`
applied to a string.

## Model

| member | source | states |
|---|---|---|
| Strings.ParseInt | generators/interfaces/synmag_midi.py:141 | Python's `int` on a typed line; what it promises is stated by `ParseDecimal` |
| Strings.ParseDecimal | generators/interfaces/synmag_midi.py:141 | reading back the written form of any integer gives that integer |
| Music.AdjustSequenceTimes | generators/interfaces/real_time_midi_interaction.py:416-417 | every note start and end, and the total time, move by exactly `delta`; pitch, velocity, note count and tempo are unchanged |
| Music.AdjustCompose | generators/interfaces/real_time_midi_interaction.py:243-246 | shifting by `d1` and then by `d2` is one shift by `d1 + d2` |
| Music.AdjustInverse | generators/interfaces/real_time_midi_interaction.py:243-246 | shifting by zero is the identity, and shifting by `-d` undoes a shift by `d` |
| Music.TrimNotes | generators/interfaces/real_time_midi_interaction.py:244-245 | trimming never adds notes, and every kept note starts in `[start, end)` and ends by `end` |
| Music.TrimNotesKeeps | generators/interfaces/real_time_midi_interaction.py:244-245 | the kept notes are exactly the input notes that start in the window, each with its end clipped to the window end |
| Music.TrimNoteSequence | generators/interfaces/real_time_midi_interaction.py:244-245 | a trimmed sequence lies in the window; its total time is capped at the window end and its tempo is kept |
| Music.AllInWindowIff | generators/interfaces/real_time_midi_interaction.py:244-245 | lying in a window is the per-note condition: start in `[start, end)` and end by `end` |
| Music.AdjustInWindow | generators/interfaces/real_time_midi_interaction.py:416-417 | a sequence lying in a window, shifted by `delta`, lies in the window shifted by `delta` |
| InteractionSpec.CheckClockConfig | generators/interfaces/real_time_midi_interaction.py:142-144 | the configuration passes exactly when one of the clock signal and the tick duration is given, not both or neither |
| InteractionSpec.ControlValue | generators/interfaces/real_time_midi_interaction.py:188-189 | a value exactly when a control number is configured and the hub has a value for it, and then it is that value |
| InteractionSpec.MinListenTicks | generators/interfaces/real_time_midi_interaction.py:185-190 | the control value when there is one, and 0 otherwise |
| InteractionSpec.MaxListenTicks | generators/interfaces/real_time_midi_interaction.py:192-197 | unbounded exactly when the control value is absent or 0; otherwise the limit is that value |
| InteractionSpec.ShouldLoop | generators/interfaces/real_time_midi_interaction.py:199-202 | looping holds exactly when a non-zero loop control number is configured and its value is 127 |
| InteractionSpec.GenerationOptions | generators/interfaces/real_time_midi_interaction.py:219-231 | relative to the zero time, the input section runs from 0 to the response start and the generate section covers the response window; the temperature is passed on |
| InteractionSpec.GenerationInput | generators/interfaces/real_time_midi_interaction.py:242-243 | the seed shifted so that the zero time becomes 0; what it promises is stated by `GenerationInputInverse` |
| InteractionSpec.GenerationInputInverse | generators/interfaces/real_time_midi_interaction.py:242-243 | the seed handed to the generator, shifted forward by the zero time, is the call again |
| InteractionSpec.Generate | generators/interfaces/real_time_midi_interaction.py:204-246 | the response lies in the requested window `[responseStart, responseEnd)` on the wall clock, whatever the generator returns |
| InteractionSpec.GenerateShift | generators/interfaces/real_time_midi_interaction.py:218-246 | moving the call, the zero time and the window by the same delta moves the response by that delta |
| InteractionSpec.LastEndTime | generators/interfaces/real_time_midi_interaction.py:312-315 | 0 for no notes; otherwise no note ends after it and some note ends at it |
| InteractionSpec.SilentIff | generators/interfaces/real_time_midi_interaction.py:317-318 | a tick is silent exactly when every captured note ends by the previous tick (for no notes: when the previous tick is not before 0) |
| InteractionSpec.CountListenTick | generators/interfaces/real_time_midi_interaction.py:320-321 | a silent tick leaves the listen count alone; any other tick adds one |
| InteractionSpec.ResponseDuration | generators/interfaces/real_time_midi_interaction.py:353-361 | a non-zero response-ticks value gives that many ticks; otherwise the response lasts from the capture start to the tick |
| InteractionSpec.LatencyPush | generators/interfaces/real_time_midi_interaction.py:370-373 | no push exactly when the response is less than a quarter tick late; a late response with a zero tick raises; with a positive tick a pushed response starts after the clock reading, and the push is at least one tick when the clock did not go back between the two readings |
| InteractionSpec.LatencyPushFewest | generators/interfaces/real_time_midi_interaction.py:372-373 | with a positive tick the push is the fewest whole ticks that land after the clock reading: it lands after it, and one tick fewer does not |
| InteractionSpec.PushTicks | generators/interfaces/real_time_midi_interaction.py:372-373 | the number of ticks of the push; 0 when there is no push, when the push raises, or when the push is by zero ticks (the clock went back) |
| InteractionSpec.PushLandsAfter | generators/interfaces/real_time_midi_interaction.py:372-374 | for a positive tick, one tick past the floor of the lateness over the tick lands after the clock reading while the floor itself does not, and is at least one tick when the clock reading is not before the start |
| InteractionSpec.Schedule | generators/interfaces/real_time_midi_interaction.py:370-376 | nothing exactly when the push divides by zero; otherwise the response is shifted by the push, starts at the tick when it was not late and, with a positive tick, after the clock reading when it was late, and lies in its shifted window |
| InteractionSpec.ScheduleFewestTicks | generators/interfaces/real_time_midi_interaction.py:370-376 | with a positive tick a late response starts after the clock reading and at most one tick after it, so it is pushed by the fewest whole ticks |
| InteractionSpec.Classify | generators/interfaces/real_time_midi_interaction.py:296-396 | stop exactly on a stop request; idle exactly when nothing was captured; otherwise the call ends on the end-call flag, silence or the maximum, and is then answered exactly when the counted ticks reach the minimum, else skipped; a call that does not end keeps listening |
| InteractionSpec.CaptureCase | generators/interfaces/real_time_midi_interaction.py:323-396 | the capture branch from the captured notes, the updated listen count, the end-call flag and the silence test; `Classify` states its decision table for the state before the tick |
| InteractionSpec.ListenBounded | generators/interfaces/real_time_midi_interaction.py:331-334 | a listening tick is not silent, not ended and below the maximum; a non-silent call that reaches a set maximum and the minimum is answered |
| InteractionSpec.CallToAnswer | generators/interfaces/real_time_midi_interaction.py:344-351 | after a non-silent tick the call and its start are as captured; after a silent tick both move one tick forward and the call ends at the tick |
| InteractionSpec.AnswerTo | generators/interfaces/real_time_midi_interaction.py:341-368 | the generated answer lies in the window from the tick for the response duration |
| InteractionSpec.AnswerSchedules | generators/interfaces/real_time_midi_interaction.py:341-389 | the answer is to the call as captured (moved one tick on after a silent tick); it lasts the response-ticks value in ticks, or from the call start to the tick when that value is absent or 0; it lies in the window from the tick; its schedule is none exactly when a late answer has a zero tick; otherwise the scheduled response is the answer shifted to the scheduled start, lies in the shifted window, starts at the tick when generation was less than a quarter tick late, and after the clock reading when it was late and the tick is positive |
| InteractionSpec.Mutation | generators/interfaces/real_time_midi_interaction.py:405-414 | the mutated response starts where the old one ends, lies in the window of the same length from there, and clears the mutation |
| InteractionSpec.LoopStep | generators/interfaces/real_time_midi_interaction.py:399-420 | the loop-or-mutate block on a playback; what it does is stated by `LoopStepLoops`, `LoopStepMutates` and `LoopStepMutation` |
| InteractionSpec.LoopStepLoops | generators/interfaces/real_time_midi_interaction.py:399-420 | without a pending mutation: an unfinished response, or one with looping off, is left alone and nothing is asked; a finished response with looping on is shifted by the tick minus its start, starts at the tick and is played from the tick, and a response in its window stays in the window from the tick |
| InteractionSpec.LoopStepMutates | generators/interfaces/real_time_midi_interaction.py:399-420 | a pending mutation of a finished response asks the generator for the window that follows the response, seeded with the response, then plays the result from the tick, where it starts and lies in the window from the tick, and clears the mutation |
| InteractionSpec.LoopStepMutation | generators/interfaces/real_time_midi_interaction.py:405-418 | after a pending mutation of a finished response, the response is what the generator returns for the window that follows the old response, shifted to start at the tick |
| RealTimeInteraction.RealTimeMidiInteraction.constructor | generators/interfaces/real_time_midi_interaction.py:262-291 | needs exactly one of clock signal and tick duration; starts with no listen ticks, an empty response and no flag set; asks the hub to capture, to start the metronome when there is no clock but a channel, and to play the empty response |
| RealTimeInteraction.RealTimeMidiInteraction.EndCallCallback | generators/interfaces/real_time_midi_interaction.py:170-173 | sets the end-call flag, which only a configured end-call signal can do |
| RealTimeInteraction.RealTimeMidiInteraction.PanicCallback | generators/interfaces/real_time_midi_interaction.py:175-178 | sets the panic flag, which only a configured panic signal can do |
| RealTimeInteraction.RealTimeMidiInteraction.MutateCallback | generators/interfaces/real_time_midi_interaction.py:180-183 | sets the mutate flag, which only a configured mutate signal can do |
| RealTimeInteraction.RealTimeMidiInteraction.ClearOnPanic | generators/interfaces/real_time_midi_interaction.py:298-301 | on panic the response becomes empty and the player is given it; the flag is cleared; without panic nothing changes |
| RealTimeInteraction.RealTimeMidiInteraction.RestartMetronome | generators/interfaces/real_time_midi_interaction.py:305-308 | without a clock signal and with a metronome channel, the metronome is restarted at the tick with the current tempo; otherwise nothing is asked |
| RealTimeInteraction.RealTimeMidiInteraction.ResetWhileIdle | generators/interfaces/real_time_midi_interaction.py:323-330 | reports idle once the response has finished playing, moves the captor start up to the tick, and clears the end-call flag and the listen count |
| RealTimeInteraction.RealTimeMidiInteraction.GenerateResponse | generators/interfaces/real_time_midi_interaction.py:341-368 | reports responding and asks the generator once; the response is the generated answer to the call over the window from the tick for the response duration, and lies in that window |
| RealTimeInteraction.RealTimeMidiInteraction.PushAndPlay | generators/interfaces/real_time_midi_interaction.py:370-389 | the response and its start are the schedule of the generated response; it is played from its start; the captor restarts at the response start with overlap, else at its end; a zero tick raises and changes nothing |
| RealTimeInteraction.RealTimeMidiInteraction.ClearCall | generators/interfaces/real_time_midi_interaction.py:391-393 | the end-call flag and the listen count are cleared, and the class invariant is kept |
| RealTimeInteraction.RealTimeMidiInteraction.Respond | generators/interfaces/real_time_midi_interaction.py:341-393 | the response duration is the answer's; it raises exactly when the answer has no schedule (a late answer with a zero tick), and then holds the generated answer at the tick and leaves the captor, the listen count and the end-call flag alone; otherwise the response and its start are the answer's schedule, the captor restarts at the response start with overlap and at its end without, and the call is cleared; it asks for the responding report, the generator call and, when scheduled, the playback |
| RealTimeInteraction.RealTimeMidiInteraction.HandleCapture | generators/interfaces/real_time_midi_interaction.py:323-396 | for the branch `CaptureCase` names: idle reports idle only when the response has finished, moves the captor start up to the tick and clears the call; a short call puts the captor at the tick, clears the call and asks nothing; an answer is as `Respond`; listening reports listening and keeps the call; only an answer changes the response and its duration |
| RealTimeInteraction.RealTimeMidiInteraction.DropEmptyMutate | generators/interfaces/real_time_midi_interaction.py:399-401 | the mutate flag stays set only when there is a response with notes |
| RealTimeInteraction.RealTimeMidiInteraction.MutateResponse | generators/interfaces/real_time_midi_interaction.py:405-414 | the response is regenerated, seeded with itself, over the window that follows it, which becomes its start; the flag is cleared |
| RealTimeInteraction.RealTimeMidiInteraction.ReplayAt | generators/interfaces/real_time_midi_interaction.py:416-420 | the response is shifted to start at the tick and played from there |
| RealTimeInteraction.RealTimeMidiInteraction.LoopOrMutate | generators/interfaces/real_time_midi_interaction.py:399-420 | the new response, its start, the mutate flag and the added requests are exactly those `LoopStep` gives for the old playback |
| RealTimeInteraction.RealTimeMidiInteraction.BeginTick | generators/interfaces/real_time_midi_interaction.py:298-321 | on panic the response is cleared and the panic update is asked before the metronome restart; the call gets the current tempo; the tick duration is the time since the previous tick; the silence test follows the captured notes and a non-silent tick is counted |
| RealTimeInteraction.RealTimeMidiInteraction.Halt | generators/interfaces/real_time_midi_interaction.py:372-373 | the run loop ends (the floor division by a zero tick raises out of `run`), and the class invariant is kept |
| RealTimeInteraction.RealTimeMidiInteraction.AdvanceTo | generators/interfaces/real_time_midi_interaction.py:422 | the tick becomes the previous tick, and the class invariant is kept |
| RealTimeInteraction.RealTimeMidiInteraction.CaptureTick | generators/interfaces/real_time_midi_interaction.py:298-396 | follows `Classify` of the state before the tick; the requests are the panic update, the metronome restart and the branch's requests; it raises only when answering with a zero tick, and then holds the generated answer at the tick; an answer that does not raise is played at its schedule, which starts after the clock reading when late with a positive tick, restarts the captor and clears the call; the other branches keep the response (cleared on panic) and set the captor and the call as `HandleCapture` does |
| RealTimeInteraction.RealTimeMidiInteraction.FinishTick | generators/interfaces/real_time_midi_interaction.py:398-422 | a raised tick ends the run loop and changes nothing else; otherwise the response, its start, the mutate flag and the requests follow `LoopStep`, and the tick becomes the previous tick |
| RealTimeInteraction.RealTimeMidiInteraction.Tick | generators/interfaces/real_time_midi_interaction.py:298-422 | a tick not asked to stop: the branch is `Classify` of the state before the tick; the loop ends exactly when answering with a zero tick, and then the generated answer is held at the tick; otherwise the response left by the capture (the schedule of the answer, or the old response) goes through `LoopStep`, whose playback and requests are the new state, after the panic, metronome and branch requests; the captor, the listen count and the end-call flag follow the branch, and the tick becomes the previous tick |
| RealTimeInteraction.RealTimeMidiInteraction.Step | generators/interfaces/real_time_midi_interaction.py:294-422 | stops exactly on a stop request, asking only to stop playback and changing nothing else; otherwise it is `Tick`: the same branch, new state and requests, with `answer` and `schedule` the answer `AnswerTo` gives for the state before the tick and its schedule |
| SynmagMidi.Merge | generators/interfaces/synmag_midi.py:345-346 | the merged keys are the union of both key sets; an override wins, and every other key keeps its default |
| SynmagMidi.ControlName | generators/interfaces/synmag_midi.py:408-410 | removes `_control_number` at the end of a flag, or just before a final newline where `$` also matches; other flags are unchanged |
| SynmagMidi.NameOfFlag | generators/interfaces/synmag_midi.py:408-409 | a name followed by the suffix ends in the suffix, and stripping it gives back the name |
| SynmagMidi.ControlMapOf | generators/interfaces/synmag_midi.py:408-410 | the keys are exactly the names of the flags |
| SynmagMidi.ControlMapEntry | generators/interfaces/synmag_midi.py:408-410 | a flag whose name no other flag shares maps to its own configured value |
| SynmagMidi.ControlFlagNames | generators/interfaces/synmag_midi.py:68-81 | all twelve control flags end in the suffix, and no two give the same name |
| SynmagMidi.ControlMapEntries | generators/interfaces/synmag_midi.py:408-410 | every control flag's name maps to that flag's configured value |
| SynmagMidi.ControlMap | generators/interfaces/synmag_midi.py:408-410 | the map has exactly the twelve control names, each bound to its flag's optional control number |
| SynmagMidi.UpdatedMap | generators/interfaces/synmag_midi.py:125-129 | unchanged exactly when the control is already assigned; otherwise the signal maps to the control; other signals keep their controls; the control is assigned afterwards; distinct controls stay distinct |
| SynmagMidi.CCMapper.constructor | generators/interfaces/synmag_midi.py:100-104 | the mapper holds the given map, and the update event is not set |
| SynmagMidi.CCMapper.UpdateSignal | generators/interfaces/synmag_midi.py:118-130 | the map becomes the updated map, and the update event is set in both branches |
| SynmagMidi.ReplyTo | generators/interfaces/synmag_midi.py:137-143 | `q` quits, a line `int` refuses repeats the prompt, and any number raises because `cc_map.keys()` cannot be indexed in Python 3 |
| SynmagMidi.LearnSessionEnds | generators/interfaces/synmag_midi.py:132-143 | the session ends at the first line that is `q` or a number: it returns on `q`, raises on a number, and raises at the end of the input when every line was refused |
| SynmagMidi.SelectionRaises | generators/interfaces/synmag_midi.py:137-143 | a session whose first line is the written form of any integer, such as `1` for the first signal, raises, whatever follows |
| SynmagMidi.CCMapper.UpdateMap | generators/interfaces/synmag_midi.py:132-154 | the prompt loop ends as `LearnSession` of the lines typed says, and leaves the map and the update event unchanged |
| SynmagMidi.ValidateMidiConfig | generators/interfaces/synmag_midi.py:157-181 | invalid exactly when ports are to be listed or no bundle is given; a valid result warns about using only the first generator exactly when the bundle list has a comma and no generator-select control |
| SynmagMidi.SelectClock | generators/interfaces/synmag_midi.py:414-420 | a clock control gives a clock signal with value 127; without one the tick is one 4/4 bar at the tempo; a zero tempo without a clock has no tick; the choice always passes the clock check |
| SynmagMidi.SignalFromControlMap | generators/interfaces/synmag_midi.py:422-425 | no signal exactly when the name has no control number, else a signal on that control with value 127 |
| SynmagMidi.SignalOf | generators/interfaces/synmag_midi.py:422-425 | the same signal read straight from a configured option: none exactly when the option is None, else its control number with value 127 |
| SynmagMidi.MetronomeChannel | generators/interfaces/synmag_midi.py:430-432 | the configured channel when the metronome is enabled, else none |
| SynmagMidi.StartInteraction | generators/interfaces/synmag_midi.py:414-432 | a zero tempo without a clock raises; otherwise (`StartedWith`) the clock check passes, the tick is one bar at the configured tempo, the clock, end-call, panic and mutate signals are exactly their configured controls with value 127 (none when unset), the metronome channel is the configured one exactly when the metronome is enabled, and the listen, response and loop controls are the configured ones |
| SynmagMidi.RunnerWith | generators/interfaces/synmag_midi.py:385-432 | rejected exactly when validation fails; with `learn_controls` set, fails exactly when the learning session does not end with `q`; a zero tempo without a clock raises; otherwise the interaction is `StartedWith` the configuration: the clock, end-call, panic and mutate signals are exactly their configured controls with value 127 (none when unset), the metronome channel is the configured one exactly when the metronome is enabled, the listen, response and loop controls are the configured ones (the session as written never changes them), the clock check passes, and the tick is one bar at the configured tempo |
| SynmagMidi.RunnerAsWritten | generators/interfaces/synmag_midi.py:233-263 | the interaction always gets tempo 120 and no overlap, whatever the configuration says |
| SynmagMidi.Runner | generators/interfaces/synmag_midi.py:233-263 | the interaction gets the configured tempo and overlap setting, so a tick without a clock is one bar at the interaction's own tempo |
| SynmagMidi.AsWrittenIgnoresConfig | generators/interfaces/synmag_midi.py:244-254 | without a clock control, the tick is one bar at the interaction's tempo exactly when the configured tempo is 120 |
| SynmagMidi.DefaultTempoAndOverlap | generators/interfaces/synmag_midi.py:39-66 | the default configuration has tempo 120 and no overlap |
| SynmagMidi.OneBarAtOneTempo | generators/interfaces/synmag_midi.py:414-417 | a tick that is one bar at one tempo is one bar at another tempo exactly when the two tempos are equal |
| SynmagMidi.DrumsOverlap | generators/interfaces/synmag_midi.py:320-346 | the merged drum configuration asks for overlap |
| SynmagMidi.PianoOverlap | generators/interfaces/synmag_midi.py:355-381 | the merged piano configuration asks for overlap |
| MidiUtil.Transpose | utils/midi_util.py:144-145 | the same number of notes in the same order, each with its pitch raised by `n` and nothing else changed |
| MidiUtil.TransposeCompose | utils/midi_util.py:144-145 | transposing by `a` and then by `b` is transposing by `a + b` |
| MidiUtil.TransposeZero | utils/midi_util.py:144-145 | transposing by 0 changes nothing |
| MidiUtil.TransposeInverse | utils/midi_util.py:144-145 | transposing by `n` and then by `-n` restores the notes |
| MidiUtil.ShiftInstrumentNotes | utils/midi_util.py:139-146 | in place, every non-drum instrument's notes become their transposition by `n`, and drum notes are unchanged |
| MidiUtil.MockMidiPort.constructor | utils/midi_util.py:15-17 | a new port's queue is empty |
| MidiUtil.MockMidiPort.Send | utils/midi_util.py:19-21 | the message is stamped with the clock reading and added at the back of the queue |
| LegacyMidiUtil.ShiftInstrumentNotes | util/midi_util.py:85-91 | the older copy transposes in place exactly as the newer one does |
| Scrape.Scrub | scrape.py:45-52 | empty for a link of at most 29 characters; otherwise the longest prefix of the rest of the link that has no '&' |
| Scrape.RedirectPrefixLength | scrape.py:45-50 | the redirect prefix in the docstring is exactly the 29 characters cut |
| Scrape.ScrubRedirect | scrape.py:45-52 | scrubbing the redirect to a link without '&', followed by '&' and parameters, gives back the link |
| Scrape.GetRemainingDownloadLinks | scrape.py:22-27 | none exactly when the checkpoint is not in the list; otherwise the links from its first occurrence onwards, starting with the checkpoint itself |

## Left out

- Threads, events and blocking: the run loop's thread, `threading.Event` and the wait for the next tick are not modelled. A tick is one call of `Step`, whose inputs say which callbacks fired.
- Wall clock: the two clock readings one tick takes are inputs of `Step`, `time.time()` is a parameter of `MockMidiPort.Send`, and `time.sleep` is left out.
- Control values: the source reads the hub several times within one tick. The model reads one snapshot of control values per tick.
- Magenta helpers and the generator: `adjust_sequence_times` and `trim_note_sequence` are modelled by their documented behaviour. The generator is a function parameter, and its sampling is not modelled.
- The state control: the model records each state report of the loop, but not the control change `_update_state` sends for it, nor its log line.
- Floating point: times and tempos are exact reals, so float rounding is not modelled.
- Logging and console output: the validation messages and the mapper's messages are not modelled. That includes the warning printing only the first character of the bundle list.
- The learning prompt: `_print_instructions` and the prompt's messages are not modelled. `CCMapper.UpdateMap` models the prompt loop as it runs under Python 3, where a selection raises before a callback is registered, so the callback registration and the wait for a control change are never reached. The single update such a callback would make is `CCMapper.UpdateSignal`.
- `Strings.ParseInt`: only whitespace and digits below 128 are modelled; Python's `int` also accepts other Unicode whitespace and decimal digits.
- The rest of `runner`: generator loading, hub construction, starting the interaction and the sleep loop are I/O and are not modelled. The call-and-response interaction takes the same arguments as the real-time one and is not modelled separately. The launcher builds it, because the default set-ups leave `real_time_midi` false.
- Temperature and tempo controls: their values reach the tick as inputs (`TickInputs`). The mapping from a control value to a temperature or tempo is not modelled.
- The generator-select control is passed to the interaction but not kept in `Config`. Switching generators is not modelled.
- `RealTimeInteraction.RealTimeMidiInteraction.constructor`: it merges `__init__` with the set-up at the top of `run`.
- `MidiUtil.ShiftInstrumentNotes`: it requires that no two instruments share a notes array. It does not model a note object shared by two instruments. Notes are values updated in their array.
- `SynmagMidi.DrumsOverlap`: the full drum and piano runs are not computed. Only the overlap setting of the merged set-ups is proved.
- The rest of the MIDI helpers: pretty_midi conversions, synthesis and chroma are not modelled.
- The rest of the scraper: the download, extraction, file I/O and the HTML scraping are not modelled. The checkpoint file is replaced by the constant the source returns.
- The Augment state: it is declared, but no tick reports it, and the class invariant states so.

## Findings

| source | as written | input that shows it | evidently intended | confidence | as-written member | corrected member |
|---|---|---|---|---|---|---|
| generators/interfaces/synmag_midi.py:244-254 | the interaction's tempo, generator-select control and `allow_overlap` are read from `default_midi_config`, not from the merged configuration | the drum set-up asks for overlap, but the interaction gets `allow_overlap` false; a configuration with qpm 60 and no clock control gets a 4-second tick while the interaction runs at 120 qpm, so a tick is two bars | the interaction gets the merged configuration's values | not executed | SynmagMidi.AsWrittenIgnoresConfig | SynmagMidi.Runner |
