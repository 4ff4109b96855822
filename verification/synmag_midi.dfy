/**
 * The MIDI front end of the interaction: the configuration dictionaries,
 * their merge for the drum and piano set-ups, the check of a configuration,
 * the map from control names to control numbers, the control-change mapper
 * that learns that map, and the derivation of the interaction's clock,
 * signals and metronome channel from a configuration.
 */
module SynmagMidi {
  import opened Wrappers
  import opened Strings
  import opened InteractionSpec

  /** A configuration value: the kinds of Python value a MIDI configuration holds. */
  datatype Value = NoneValue | Bool(b: bool) | Int(i: int) | Real(r: real) | Str(s: string)

  /** A MIDI configuration: a dictionary from option names to values. */
  type MidiConfig = map<string, Value>

  /** Python truthiness: None, False, 0, 0.0 and the empty string are false. */
  predicate Truthy(v: Value)
  {
    match v
    case NoneValue => false
    case Bool(b) => b
    case Int(i) => i != 0
    case Real(r) => r != 0.0
    case Str(s) => s != ""
  }

  /** A value that is either None or an integer (a control number, a channel). */
  predicate IsOptionalInt(v: Value)
  {
    v.NoneValue? || v.Int?
  }

  /** The optional integer an `IsOptionalInt` value stands for. */
  function OptionalInt(v: Value): (r: Option<int>)
    requires IsOptionalInt(v)
    ensures r.None? <==> v.NoneValue?
    ensures r.Some? ==> v == Int(r.value)
  {
    if v.Int? then Some(v.i) else None
  }

  /** A value Python can divide by: an integer or a float. */
  predicate Numeric(v: Value)
  {
    v.Int? || v.Real?
  }

  function AsReal(v: Value): real
    requires Numeric(v)
  {
    if v.Int? then v.i as real else v.r
  }

  // ---------------------------------------------------------------------
  // The configurations and their merge
  // ---------------------------------------------------------------------

  /** The configuration every run starts from. */
  const DefaultMidiConfig: MidiConfig := map[
    "list_ports" := Bool(false),
    "input_ports" := Str("synmag_in"),
    "output_ports" := Str("magenta_out"),
    "passthrough" := Bool(true),
    ClockFlag := NoneValue,
    EndCallFlag := NoneValue,
    PanicFlag := NoneValue,
    MutateFlag := NoneValue,
    MinListenTicksFlag := NoneValue,
    MaxListenTicksFlag := NoneValue,
    ResponseTicksFlag := NoneValue,
    TemperatureFlag := NoneValue,
    "allow_overlap" := Bool(false),
    "enable_metronome" := Bool(true),
    "metronome_channel" := Int(1),
    "qpm" := Int(120),
    TempoFlag := NoneValue,
    LoopFlag := NoneValue,
    "bundle_files" := NoneValue,
    GeneratorSelectFlag := NoneValue,
    StateFlag := NoneValue,
    "playback_offset" := Real(0.0),
    "playback_channel" := Int(0),
    "learn_controls" := Bool(false),
    "log" := Str("WARN"),
    "real_time_midi" := Bool(false)
  ]

  /**
   * `defaults.copy()` followed by `update(overrides)`: every key of either,
   * the override's value where both have one.
   */
  function Merge(defaults: MidiConfig, overrides: MidiConfig): (r: MidiConfig)
    ensures r.Keys == defaults.Keys + overrides.Keys
    ensures forall k :: k in overrides ==> r[k] == overrides[k]
    ensures forall k :: k in defaults && k !in overrides ==> r[k] == defaults[k]
  {
    defaults + overrides
  }

  /** The drum set-up's overrides; `bundle` is the drum bundle path read from the environment. */
  function DrumsOverrides(bundle: string): MidiConfig
  {
    map[
      "input_ports" := Str("IAC Driver IAC Bus 3"),
      "output_ports" := Str("IAC Driver IAC Bus 4"),
      "passthrough" := Bool(false),
      "qpm" := Int(120),
      "allow_overlap" := Bool(true),
      "enable_metronome" := Bool(false),
      ClockFlag := Int(1),
      EndCallFlag := Int(2),
      MinListenTicksFlag := Int(3),
      MaxListenTicksFlag := Int(4),
      ResponseTicksFlag := Int(5),
      TemperatureFlag := Int(6),
      TempoFlag := Int(7),
      GeneratorSelectFlag := Int(8),
      StateFlag := Int(9),
      LoopFlag := Int(10),
      PanicFlag := Int(11),
      MutateFlag := Int(12),
      "bundle_files" := Str(bundle),
      "playback_offset" := Real(-0.035),
      "playback_channel" := Int(2),
      "log" := Str("INFO")
    ]
  }

  /** The piano set-up's overrides; `bundle` is the piano bundle path read from the environment. */
  function PianoOverrides(bundle: string): MidiConfig
  {
    map[
      "input_ports" := Str("IAC Driver IAC Bus 1"),
      "output_ports" := Str("IAC Driver IAC Bus 2"),
      "passthrough" := Bool(false),
      "qpm" := Int(120),
      "allow_overlap" := Bool(true),
      "enable_metronome" := Bool(false),
      "log" := Str("DEBUG"),
      ClockFlag := Int(1),
      EndCallFlag := Int(2),
      MinListenTicksFlag := Int(3),
      MaxListenTicksFlag := Int(4),
      ResponseTicksFlag := Int(5),
      TemperatureFlag := Int(6),
      TempoFlag := Int(7),
      GeneratorSelectFlag := Int(8),
      StateFlag := Int(9),
      LoopFlag := Int(10),
      PanicFlag := Int(11),
      MutateFlag := Int(12),
      "bundle_files" := Str(bundle),
      "playback_offset" := Real(-0.035),
      "playback_channel" := Str("1&")
    ]
  }

  /** The configuration `run_default_drums` runs: its overrides merged over the defaults. */
  function DrumsConfig(bundle: string): MidiConfig
  {
    Merge(DefaultMidiConfig, DrumsOverrides(bundle))
  }

  /** The configuration `run_default_piano` runs: its overrides merged over the defaults. */
  function PianoConfig(bundle: string): MidiConfig
  {
    Merge(DefaultMidiConfig, PianoOverrides(bundle))
  }

  // ---------------------------------------------------------------------
  // The control map
  // ---------------------------------------------------------------------

  const ControlSuffix := "_control_number"

  /** The names the control map uses for the options. */
  const ClockName := "clock"
  const EndCallName := "end_call"
  const PanicName := "panic"
  const MutateName := "mutate"
  const MinListenTicksName := "min_listen_ticks"
  const MaxListenTicksName := "max_listen_ticks"
  const ResponseTicksName := "response_ticks"
  const TemperatureName := "temperature"
  const TempoName := "tempo"
  const LoopName := "loop"
  const GeneratorSelectName := "generator_select"
  const StateName := "state"

  /** The options that hold control numbers: a control name followed by the suffix. */
  const ClockFlag := ClockName + ControlSuffix
  const EndCallFlag := EndCallName + ControlSuffix
  const PanicFlag := PanicName + ControlSuffix
  const MutateFlag := MutateName + ControlSuffix
  const MinListenTicksFlag := MinListenTicksName + ControlSuffix
  const MaxListenTicksFlag := MaxListenTicksName + ControlSuffix
  const ResponseTicksFlag := ResponseTicksName + ControlSuffix
  const TemperatureFlag := TemperatureName + ControlSuffix
  const TempoFlag := TempoName + ControlSuffix
  const LoopFlag := LoopName + ControlSuffix
  const GeneratorSelectFlag := GeneratorSelectName + ControlSuffix
  const StateFlag := StateName + ControlSuffix

  /** The control-number options in the order the map is built. */
  const ControlFlags: seq<string> := [
    ClockFlag,
    EndCallFlag,
    PanicFlag,
    MutateFlag,
    MinListenTicksFlag,
    MaxListenTicksFlag,
    ResponseTicksFlag,
    TemperatureFlag,
    TempoFlag,
    LoopFlag,
    GeneratorSelectFlag,
    StateFlag
  ]

  predicate EndsWith(s: string, suffix: string)
  {
    |suffix| <= |s| && s[|s| - |suffix|..] == suffix
  }

  /**
   * `re.sub("_control_number$", "", flag)`: the suffix is removed at the
   * end of the string, or just before a final newline, where `$` also matches.
   */
  function ControlName(flag: string): (name: string)
    ensures EndsWith(flag, ControlSuffix) ==> name + ControlSuffix == flag
    ensures !EndsWith(flag, ControlSuffix) && EndsWith(flag, ControlSuffix + "\n") ==>
      |name| >= 1 && name[..|name| - 1] + ControlSuffix + "\n" == flag && name[|name| - 1] == '\n'
    ensures !EndsWith(flag, ControlSuffix) && !EndsWith(flag, ControlSuffix + "\n") ==> name == flag
  {
    if EndsWith(flag, ControlSuffix) then
      assert flag == flag[..|flag| - |ControlSuffix|] + flag[|flag| - |ControlSuffix|..];
      flag[..|flag| - |ControlSuffix|]
    else if EndsWith(flag, ControlSuffix + "\n") then
      var k := |flag| - |ControlSuffix| - 1;
      assert flag == flag[..k] + flag[k..];
      assert (flag[..k] + "\n")[..k] == flag[..k];
      flag[..k] + "\n"
    else
      flag
  }

  /** Stripping the suffix from a name followed by the suffix gives back the name. */
  lemma NameOfFlag(name: string)
    ensures EndsWith(name + ControlSuffix, ControlSuffix)
    ensures ControlName(name + ControlSuffix) == name
  {
    var f := name + ControlSuffix;
    assert f[|f| - |ControlSuffix|..] == ControlSuffix;
    assert f[..|name|] == name;
  }

  /** Whether every option in `flags` is present and holds a control number or None. */
  predicate FlagsPresent(flags: seq<string>, config: MidiConfig)
  {
    forall f :: f in flags ==> f in config && IsOptionalInt(config[f])
  }

  /**
   * The dictionary comprehension over `flags`: each flag's name maps to the
   * flag's value; where two flags share a name, the later flag's value wins.
   */
  function ControlMapOf(flags: seq<string>, config: MidiConfig): (m: map<string, Option<int>>)
    requires FlagsPresent(flags, config)
    ensures forall f :: f in flags ==> ControlName(f) in m
    ensures forall name :: name in m ==> exists f :: f in flags && ControlName(f) == name
    decreases |flags|
  {
    if |flags| == 0 then map[]
    else
      var last := flags[|flags| - 1];
      assert forall f :: f in flags ==> f == last || f in flags[..|flags| - 1];
      ControlMapOf(flags[..|flags| - 1], config)[ControlName(last) := OptionalInt(config[last])]
  }

  /** The entry for a flag whose name no other flag shares is that flag's value. */
  lemma {:induction false} ControlMapEntry(flags: seq<string>, config: MidiConfig, f: string)
    requires FlagsPresent(flags, config)
    requires f in flags
    requires forall g :: g in flags && ControlName(g) == ControlName(f) ==> g == f
    ensures ControlMapOf(flags, config)[ControlName(f)] == OptionalInt(config[f])
    decreases |flags|
  {
    var init, last := flags[..|flags| - 1], flags[|flags| - 1];
    assert flags == init + [last];
    if last != f {
      assert f in init;
      ControlMapEntry(init, config, f);
      assert ControlName(last) != ControlName(f);
    }
  }


  /** Each flag's name is its control name, and no two flags share one. */
  lemma ControlFlagNames()
    ensures forall f :: f in ControlFlags ==> EndsWith(f, ControlSuffix)
    ensures forall f, g :: f in ControlFlags && g in ControlFlags && ControlName(f) == ControlName(g) ==> f == g
  {
    NameOfFlag(ClockName); NameOfFlag(EndCallName); NameOfFlag(PanicName);
    NameOfFlag(MutateName); NameOfFlag(MinListenTicksName); NameOfFlag(MaxListenTicksName);
    NameOfFlag(ResponseTicksName); NameOfFlag(TemperatureName); NameOfFlag(TempoName);
    NameOfFlag(LoopName); NameOfFlag(GeneratorSelectName); NameOfFlag(StateName);
  }

  /** The control map's entries for the twelve control-number options. */
  lemma ControlMapEntries(config: MidiConfig)
    requires FlagsPresent(ControlFlags, config)
    ensures forall f :: f in ControlFlags ==>
      ControlName(f) in ControlMapOf(ControlFlags, config) &&
      ControlMapOf(ControlFlags, config)[ControlName(f)] == OptionalInt(config[f])
  {
    ControlFlagNames();
    forall f | f in ControlFlags
      ensures ControlMapOf(ControlFlags, config)[ControlName(f)] == OptionalInt(config[f])
    {
      ControlMapEntry(ControlFlags, config, f);
    }
  }

  /**
   * The control map built from a configuration: one entry per option,
   * under the option's control name, holding the option's control number.
   */
  function ControlMap(config: MidiConfig): (m: map<string, Option<int>>)
    requires FlagsPresent(ControlFlags, config)
    ensures m.Keys == set f | f in ControlFlags :: ControlName(f)
    ensures forall f :: f in ControlFlags ==> m[ControlName(f)] == OptionalInt(config[f])
  {
    ControlMapEntries(config);
    var m := ControlMapOf(ControlFlags, config);
    assert m.Keys == set f | f in ControlFlags :: ControlName(f);
    m
  }

  // ---------------------------------------------------------------------
  // Learning the control map
  // ---------------------------------------------------------------------

  /** Whether no control number is assigned to two different signals. */
  ghost predicate DistinctControls(m: map<string, Option<int>>)
  {
    forall a, b :: a in m && b in m && a != b && m[a].Some? ==> m[a] != m[b]
  }

  /**
   * The map after a control change with number `control` arrives for
   * `signal`: an assigned number is refused, a free one is assigned to the
   * signal (freeing the number the signal had before).
   */
  function UpdatedMap(m: map<string, Option<int>>, signal: string, control: int): (r: map<string, Option<int>>)
    ensures r == m <==> Some(control) in m.Values
    ensures r != m ==> r.Keys == m.Keys + {signal} && r[signal] == Some(control)
    ensures forall k :: k in m && k != signal ==> k in r && r[k] == m[k]
    ensures Some(control) in r.Values
    ensures DistinctControls(m) ==> DistinctControls(r)
  {
    if Some(control) in m.Values then m
    else
      var r := m[signal := Some(control)];
      assert r[signal] == Some(control);
      assert signal in m ==> r[signal] != m[signal];
      r
  }

  /** What the mapper's prompt does with one line typed at it. */
  datatype Reply = QuitReply | InvalidReply | RaisingReply

  /**
   * A line typed at the prompt of `update_map`: `q` quits; a line `int`
   * refuses is reported and the prompt repeats; a number raises, because the
   * signals are `cc_map.keys()`, a view Python 3 cannot index.
   */
  function ReplyTo(response: string): (r: Reply)
    ensures r.QuitReply? <==> response == "q"
    ensures r.InvalidReply? <==> response != "q" && ParseInt(response).None?
    ensures r.RaisingReply? <==> response != "q" && ParseInt(response).Some?
  {
    if response == "q" then QuitReply
    else if ParseInt(response).None? then InvalidReply
    else RaisingReply
  }

  /** How the prompt loop of `update_map` ends. */
  datatype SessionEnd = Quit | EndOfInput | SelectionRaised

  /**
   * The prompt loop over the lines typed: it returns on `q`, raises on a
   * number, and raises `EOFError` when the input runs out.
   */
  function LearnSession(responses: seq<string>): SessionEnd
    decreases |responses|
  {
    if |responses| == 0 then EndOfInput
    else match ReplyTo(responses[0])
      case QuitReply => Quit
      case RaisingReply => SelectionRaised
      case InvalidReply => LearnSession(responses[1..])
  }

  /**
   * The session ends at the first line that is `q` or a number: it returns
   * on `q` and raises on a number; with no such line the input runs out.
   */
  lemma {:induction false} LearnSessionEnds(responses: seq<string>, i: nat)
    requires i <= |responses|
    requires forall j :: 0 <= j < i ==> ReplyTo(responses[j]).InvalidReply?
    ensures i == |responses| ==> LearnSession(responses) == EndOfInput
    ensures i < |responses| && responses[i] == "q" ==> LearnSession(responses) == Quit
    ensures i < |responses| && responses[i] != "q" && ParseInt(responses[i]).Some? ==>
      LearnSession(responses) == SelectionRaised
    decreases i
  {
    if i > 0 {
      var rest := responses[1..];
      assert ReplyTo(responses[0]).InvalidReply?;
      assert forall j :: 0 <= j < i - 1 ==> rest[j] == responses[j + 1];
      LearnSessionEnds(rest, i - 1);
    }
  }

  /** Typing any number at the prompt, such as `1` for the first signal, raises. */
  lemma SelectionRaises(k: int, rest: seq<string>)
    ensures LearnSession([Decimal(k)] + rest) == SelectionRaised
  {
    ParseDecimal(k);
    DecimalStart(k);
    assert Decimal(k) != "q";
  }

  /** The control-change mapper: learns control numbers for named signals. */
  class CCMapper {
    /** The signal names and their control numbers; the caller's map, updated in place. */
    var ccMap: map<string, Option<int>>
    /** Set once a control change has been handled, to release the prompt waiting for it. */
    var updateEvent: bool

    constructor(ccMap: map<string, Option<int>>)
      ensures this.ccMap == ccMap && !updateEvent
    {
      this.ccMap := ccMap;
      updateEvent := false;
    }

    /** Handles a control change with number `control` while `signal` is being learnt. */
    method UpdateSignal(signal: string, control: int)
      modifies this`ccMap, this`updateEvent
      ensures ccMap == UpdatedMap(old(ccMap), signal, control)
      ensures updateEvent
    {
      if Some(control) !in ccMap.Values {
        ccMap := ccMap[signal := Some(control)];
      }
      updateEvent := true;
    }

    /**
     * The prompt loop of `update_map` over the lines typed. It never gets as
     * far as learning a control: it returns on `q` and raises on a number or
     * at the end of the input, so the map and the event are left alone.
     */
    method UpdateMap(responses: seq<string>) returns (end: SessionEnd)
      ensures end == LearnSession(responses)
    {
      var i := 0;
      while i < |responses|
        invariant i <= |responses|
        invariant LearnSession(responses[i..]) == LearnSession(responses)
      {
        assert responses[i..][1..] == responses[i + 1..];
        var reply := ReplyTo(responses[i]);
        if reply.QuitReply? {
          return Quit;
        } else if reply.RaisingReply? {
          return SelectionRaised;
        }
        i := i + 1;
      }
      return EndOfInput;
    }
  }

  // ---------------------------------------------------------------------
  // Checking a configuration
  // ---------------------------------------------------------------------

  /**
   * The outcome of the check: the configuration is refused, or accepted,
   * with a warning when several bundles are given but no generator-select
   * control, so only the first generator can be used.
   */
  datatype Validation = Invalid | Valid(firstGeneratorOnly: bool)

  /** The options the check reads, in the order it reads them. */
  predicate ValidationInputs(config: MidiConfig)
  {
    && "list_ports" in config
    && (!Truthy(config["list_ports"]) ==>
         "bundle_files" in config && (config["bundle_files"].NoneValue? || config["bundle_files"].Str?))
    && (!Truthy(config["list_ports"]) && config["bundle_files"].Str? && ',' in config["bundle_files"].s ==>
         GeneratorSelectFlag in config)
  }

  function ValidateMidiConfig(config: MidiConfig): (r: Validation)
    requires ValidationInputs(config)
    ensures r.Invalid? <==> Truthy(config["list_ports"]) || config["bundle_files"].NoneValue?
    ensures r.Valid? ==>
      (r.firstGeneratorOnly <==> ',' in config["bundle_files"].s && config[GeneratorSelectFlag].NoneValue?)
  {
    if Truthy(config["list_ports"]) then Invalid
    else if config["bundle_files"].NoneValue? then Invalid
    else
      var bundles := config["bundle_files"].s;
      SplitCount(bundles, ',');
      Valid(|Split(bundles, ',')| > 1 && config[GeneratorSelectFlag].NoneValue?)
  }

  // ---------------------------------------------------------------------
  // Deriving the interaction's arguments
  // ---------------------------------------------------------------------

  /** Whether `tick` seconds are one 4/4 bar, four quarter notes, at `qpm` quarters per minute. */
  predicate OneBar(tick: real, qpm: real)
  {
    tick * qpm == 240.0
  }

  /** The clock arguments: a clock signal or a tick duration in seconds. */
  datatype ClockSelection = ClockSelection(clockSignal: Option<MidiSignal>, tickDuration: Option<real>)

  /**
   * The clock signal when a clock control is configured, otherwise a tick of
   * one 4/4 bar at `qpm`; nothing when that division is by zero.
   */
  function SelectClock(clock: Option<int>, qpm: real): (r: Option<ClockSelection>)
    ensures r.None? <==> clock.None? && qpm == 0.0
    ensures r.Some? ==> CheckClockConfig(r.value.clockSignal, r.value.tickDuration).Pass?
    ensures r.Some? && clock.Some? ==> r.value.clockSignal == Some(MidiSignal(clock.value, 127))
    ensures r.Some? && clock.None? ==> r.value.tickDuration.Some? && OneBar(r.value.tickDuration.value, qpm)
  {
    match clock
    case None =>
      if qpm == 0.0 then None
      else Some(ClockSelection(None, Some(4.0 * (60.0 / qpm))))
    case Some(c) => Some(ClockSelection(Some(MidiSignal(c, 127)), None))
  }

  /** The signal for a control name: none when the name has no control number. */
  function SignalFromControlMap(controlMap: map<string, Option<int>>, name: string): (r: Option<MidiSignal>)
    requires name in controlMap
    ensures r.None? <==> controlMap[name].None?
    ensures r.Some? ==> r.value == MidiSignal(controlMap[name].value, 127)
  {
    match controlMap[name]
    case None => None
    case Some(c) => Some(MidiSignal(c, 127))
  }

  /** The metronome channel: the configured one when the metronome is enabled, else None. */
  function MetronomeChannel(config: MidiConfig): (r: Value)
    requires "enable_metronome" in config
    requires Truthy(config["enable_metronome"]) ==> "metronome_channel" in config
    ensures Truthy(config["enable_metronome"]) ==> r == config["metronome_channel"]
    ensures !Truthy(config["enable_metronome"]) ==> r == NoneValue
  {
    if Truthy(config["enable_metronome"]) then config["metronome_channel"] else NoneValue
  }

  /** The interaction's tempo and the arguments its tick logic reads. */
  datatype Setup = Setup(qpm: real, cfg: Config)

  /**
   * How far `runner` gets: the configuration is refused, the control-learning
   * session raises, the tick duration divides by a zero tempo, or the
   * interaction is built.
   */
  datatype RunOutcome = Rejected | LearningFailed(end: SessionEnd) | ZeroTempo | Started(setup: Setup, firstGeneratorOnly: bool)

  /** The options `runner` reads, each of the kind it uses it as. */
  predicate RunnerInputs(config: MidiConfig)
  {
    && ValidationInputs(config)
    && FlagsPresent(ControlFlags, config)
    && "learn_controls" in config
    && "qpm" in config && Numeric(config["qpm"])
    && "enable_metronome" in config
    && (Truthy(config["enable_metronome"]) ==>
         "metronome_channel" in config && IsOptionalInt(config["metronome_channel"]))
  }

  /** The control map's entries for the eight controls the interaction is built from. */
  lemma InteractionControls(config: MidiConfig)
    requires FlagsPresent(ControlFlags, config)
    ensures var m := ControlMap(config);
      && ClockName in m && m[ClockName] == OptionalInt(config[ClockFlag])
      && EndCallName in m && m[EndCallName] == OptionalInt(config[EndCallFlag])
      && PanicName in m && m[PanicName] == OptionalInt(config[PanicFlag])
      && MutateName in m && m[MutateName] == OptionalInt(config[MutateFlag])
      && MinListenTicksName in m && m[MinListenTicksName] == OptionalInt(config[MinListenTicksFlag])
      && MaxListenTicksName in m && m[MaxListenTicksName] == OptionalInt(config[MaxListenTicksFlag])
      && ResponseTicksName in m && m[ResponseTicksName] == OptionalInt(config[ResponseTicksFlag])
      && LoopName in m && m[LoopName] == OptionalInt(config[LoopFlag])
  {
    NameOfFlag(ClockName); NameOfFlag(EndCallName); NameOfFlag(PanicName); NameOfFlag(MutateName);
    NameOfFlag(MinListenTicksName); NameOfFlag(MaxListenTicksName); NameOfFlag(ResponseTicksName);
    NameOfFlag(LoopName);
  }

  /** The signal a control option stands for: the control with value 127, or none. */
  function SignalOf(v: Value): (r: Option<MidiSignal>)
    requires IsOptionalInt(v)
    ensures r.None? <==> v.NoneValue?
    ensures r.Some? ==> v == Int(r.value.control) && r.value.value == 127
  {
    if v.Int? then Some(MidiSignal(v.i, 127)) else None
  }

  /**
   * The interaction `runner` builds from `config` and `interactionArgs`: the
   * clock or a one-bar tick, every optional signal on its configured control
   * with value 127, the metronome channel exactly when the metronome is
   * enabled, the four tick controls as configured, and the tempo and overlap
   * flag from `interactionArgs`.
   */
  predicate StartedWith(config: MidiConfig, interactionArgs: MidiConfig, setup: Setup)
    requires RunnerInputs(config)
    requires "qpm" in interactionArgs && Numeric(interactionArgs["qpm"]) && "allow_overlap" in interactionArgs
  {
    && CheckClockConfig(setup.cfg.clockSignal, setup.cfg.tickDuration).Pass?
    && setup.cfg.clockSignal == SignalOf(config[ClockFlag])
    && (setup.cfg.tickDuration.Some? ==> OneBar(setup.cfg.tickDuration.value, AsReal(config["qpm"])))
    && setup.qpm == AsReal(interactionArgs["qpm"])
    && setup.cfg.allowOverlap == Truthy(interactionArgs["allow_overlap"])
    && setup.cfg.endCallSignal == SignalOf(config[EndCallFlag])
    && setup.cfg.panicSignal == SignalOf(config[PanicFlag])
    && setup.cfg.mutateSignal == SignalOf(config[MutateFlag])
    && (Truthy(config["enable_metronome"]) ==> setup.cfg.metronomeChannel == OptionalInt(config["metronome_channel"]))
    && (!Truthy(config["enable_metronome"]) ==> setup.cfg.metronomeChannel.None?)
    && setup.cfg.minListenTicksControl == OptionalInt(config[MinListenTicksFlag])
    && setup.cfg.maxListenTicksControl == OptionalInt(config[MaxListenTicksFlag])
    && setup.cfg.responseTicksControl == OptionalInt(config[ResponseTicksFlag])
    && setup.cfg.loopControl == OptionalInt(config[LoopFlag])
  }

  /**
   * `runner` after the control map is settled: the clock, the optional
   * signals and the metronome channel from the configuration, the tempo and
   * the overlap flag from `interactionArgs`.
   */
  function StartInteraction(config: MidiConfig, interactionArgs: MidiConfig, firstGeneratorOnly: bool): (r: RunOutcome)
    requires RunnerInputs(config)
    requires "qpm" in interactionArgs && Numeric(interactionArgs["qpm"]) && "allow_overlap" in interactionArgs
    ensures r.ZeroTempo? || r.Started?
    ensures r.ZeroTempo? <==> config[ClockFlag].NoneValue? && AsReal(config["qpm"]) == 0.0
    ensures r.Started? ==> r.firstGeneratorOnly == firstGeneratorOnly && StartedWith(config, interactionArgs, r.setup)
  {
    var controlMap := ControlMap(config);
    InteractionControls(config);
    match SelectClock(controlMap[ClockName], AsReal(config["qpm"]))
    case None => ZeroTempo
    case Some(clock) =>
      var cfg := Config(
        clock.clockSignal,
        clock.tickDuration,
        SignalFromControlMap(controlMap, EndCallName),
        SignalFromControlMap(controlMap, PanicName),
        SignalFromControlMap(controlMap, MutateName),
        Truthy(interactionArgs["allow_overlap"]),
        OptionalInt(MetronomeChannel(config)),
        controlMap[MinListenTicksName],
        controlMap[MaxListenTicksName],
        controlMap[ResponseTicksName],
        controlMap[LoopName]);
      Started(Setup(AsReal(interactionArgs["qpm"]), cfg), firstGeneratorOnly)
  }

  /**
   * `runner` up to the construction of the interaction, with the tempo and
   * the overlap flag read from `interactionArgs`: the configuration itself
   * as intended, the default configuration as the code is written. With
   * `learn_controls` set, the mapper's session runs first and ends as
   * `session` says (`LearnSession` of the lines typed at its prompt); it
   * either raises or returns on `q` without changing the control map, so the
   * controls are the configured ones.
   */
  function RunnerWith(config: MidiConfig, interactionArgs: MidiConfig, session: SessionEnd): (r: RunOutcome)
    requires RunnerInputs(config)
    requires "qpm" in interactionArgs && Numeric(interactionArgs["qpm"]) && "allow_overlap" in interactionArgs
    ensures r.Rejected? <==> ValidateMidiConfig(config).Invalid?
    ensures r.LearningFailed? <==>
      ValidateMidiConfig(config).Valid? && Truthy(config["learn_controls"]) && session != Quit
    ensures r.LearningFailed? ==> r.end == session
    ensures r.ZeroTempo? <==>
      && ValidateMidiConfig(config).Valid? && (!Truthy(config["learn_controls"]) || session == Quit)
      && config[ClockFlag].NoneValue? && AsReal(config["qpm"]) == 0.0
    ensures r.Started? ==>
      r.firstGeneratorOnly == ValidateMidiConfig(config).firstGeneratorOnly && StartedWith(config, interactionArgs, r.setup)
  {
    match ValidateMidiConfig(config)
    case Invalid => Rejected
    case Valid(firstGeneratorOnly) =>
      if Truthy(config["learn_controls"]) && session != Quit then LearningFailed(session)
      else StartInteraction(config, interactionArgs, firstGeneratorOnly)
  }

  /** `runner` as written: the interaction's tempo and overlap flag come from the defaults. */
  function RunnerAsWritten(config: MidiConfig, console: seq<string>): (r: RunOutcome)
    requires RunnerInputs(config)
    ensures r.Started? ==> r.setup.qpm == 120.0 && !r.setup.cfg.allowOverlap
  {
    DefaultTempoAndOverlap();
    RunnerWith(config, DefaultMidiConfig, LearnSession(console))
  }

  /**
   * `runner` as intended: every argument comes from the configuration run,
   * so a tick without a clock is one bar at the interaction's own tempo.
   */
  function Runner(config: MidiConfig, console: seq<string>): (r: RunOutcome)
    requires RunnerInputs(config)
    requires "allow_overlap" in config
    ensures r.Started? ==> r.setup.qpm == AsReal(config["qpm"])
    ensures r.Started? && r.setup.cfg.tickDuration.Some? ==> OneBar(r.setup.cfg.tickDuration.value, r.setup.qpm)
    ensures r.Started? ==> r.setup.cfg.allowOverlap == Truthy(config["allow_overlap"])
  {
    RunnerWith(config, config, LearnSession(console))
  }

  /**
   * As written, the interaction always runs at the default tempo, so without
   * a clock control the tick is one bar at the interaction's tempo only when
   * the configured tempo is that default, 120.
   */
  lemma {:induction false} AsWrittenIgnoresConfig(config: MidiConfig, console: seq<string>)
    requires RunnerInputs(config)
    ensures RunnerAsWritten(config, console).Started? && RunnerAsWritten(config, console).setup.cfg.tickDuration.Some? ==>
      (OneBar(RunnerAsWritten(config, console).setup.cfg.tickDuration.value, RunnerAsWritten(config, console).setup.qpm) <==>
       AsReal(config["qpm"]) == 120.0)
  {
    var r := RunnerAsWritten(config, console);
    if r.Started? && r.setup.cfg.tickDuration.Some? {
      OneBarAtOneTempo(r.setup.cfg.tickDuration.value, AsReal(config["qpm"]), 120.0);
    }
  }

  /** The default configuration's tempo and overlap flag. */
  lemma DefaultTempoAndOverlap()
    ensures "qpm" in DefaultMidiConfig && AsReal(DefaultMidiConfig["qpm"]) == 120.0
    ensures "allow_overlap" in DefaultMidiConfig && !Truthy(DefaultMidiConfig["allow_overlap"])
  {
  }

  /** A duration is one bar at no more than one tempo. */
  lemma OneBarAtOneTempo(tick: real, qpm: real, other: real)
    requires OneBar(tick, qpm)
    ensures OneBar(tick, other) <==> qpm == other
  {
    if tick * other == 240.0 {
      assert tick * (qpm - other) == 0.0;
      assert tick != 0.0;
    }
  }

  /** The drum set-up asks for overlap (the default configuration does not). */
  lemma DrumsOverlap(bundle: string)
    ensures "allow_overlap" in DrumsConfig(bundle) && Truthy(DrumsConfig(bundle)["allow_overlap"])
  {
    assert DrumsOverrides(bundle)["allow_overlap"] == Bool(true);
  }

  /** The piano set-up asks for overlap too. */
  lemma PianoOverlap(bundle: string)
    ensures "allow_overlap" in PianoConfig(bundle) && Truthy(PianoConfig(bundle)["allow_overlap"])
  {
    assert PianoOverrides(bundle)["allow_overlap"] == Bool(true);
  }
}
