/** The playback options of src/commands/playbackOptions.ts: how the flags are encoded, the
    `mixrampdelay` fallback, and the values `getvol` and `replay_gain_status` report. */
module PlaybackOptions {
  import opened Wrappers
  import opened Text
  import opened Util
  import opened Arguments

  /** A flag as the daemon takes it: `1` for true, `0` for false. */
  function Flag(b: bool): string
  {
    if b then "1" else "0"
  }

  /** `setRandom`. */
  function SetRandom(random: bool): (cmd: string)
    ensures cmd == "random " + IntToString(if random then 1 else 0)
  {
    "random " + Flag(random)
  }

  /** `setRepeat`. */
  function SetRepeat(repeat: bool): (cmd: string)
    ensures cmd == "repeat " + IntToString(if repeat then 1 else 0)
  {
    "repeat " + Flag(repeat)
  }

  /** `setConsume`. */
  function SetConsume(consume: bool): (cmd: string)
    ensures cmd == "consume " + IntToString(if consume then 1 else 0)
  {
    "consume " + Flag(consume)
  }

  /** The argument of `setSingle`: on or off, or the one-shot mode. */
  datatype Single = Switch(on: bool) | Oneshot

  /** `setSingle`. */
  function SetSingle(single: Single): (cmd: string)
    ensures single == Oneshot <==> cmd == "single oneshot"
    ensures single.Switch? ==> cmd == "single " + IntToString(if single.on then 1 else 0)
  {
    "single " + (if single == Oneshot then "oneshot" else Flag(single.on))
  }

  /** A flag reads back as 1 for true and 0 for false. */
  lemma FlagReadsBack(b: bool)
    ensures ReadsAsOptional(Flag(b), Some(if b then 1 else 0))
    ensures ' ' !in Flag(b)
  {
    assert Flag(b) == IntToString(if b then 1 else 0);
    OptionalIntReadsBack(Some(if b then 1 else 0));
  }

  /** `random`, `repeat` and `consume` carry one argument, 1 for true and 0 for false. */
  lemma FlagArguments(b: bool)
    ensures var args := Split(SetRandom(b), ' ');
      args == ["random", Flag(b)] && ReadsAsOptional(args[1], Some(if b then 1 else 0))
    ensures var args := Split(SetRepeat(b), ' ');
      args == ["repeat", Flag(b)] && ReadsAsOptional(args[1], Some(if b then 1 else 0))
    ensures var args := Split(SetConsume(b), ' ');
      args == ["consume", Flag(b)] && ReadsAsOptional(args[1], Some(if b then 1 else 0))
  {
    var random, repeat, consume := "random", "repeat", "consume";
    assert ' ' !in random && ' ' !in repeat && ' ' !in consume;
    FlagReadsBack(b);
    assert SetRandom(b) == random + " " + Flag(b);
    assert SetRepeat(b) == repeat + " " + Flag(b);
    assert SetConsume(b) == consume + " " + Flag(b);
    WordPair(random, Flag(b));
    WordPair(repeat, Flag(b));
    WordPair(consume, Flag(b));
  }

  /** `single` carries `oneshot` for the one-shot mode and otherwise 1 or 0. */
  lemma SingleArguments(single: Single)
    ensures var args := Split(SetSingle(single), ' ');
      && |args| == 2 && args[0] == "single"
      && (single == Oneshot <==> args[1] == "oneshot")
      && (single.Switch? ==> ReadsAsOptional(args[1], Some(if single.on then 1 else 0)))
  {
    var verb, oneshot := "single", "oneshot";
    assert ' ' !in verb && ' ' !in oneshot;
    var arg := if single == Oneshot then oneshot else Flag(single.on);
    if single.Switch? {
      FlagReadsBack(single.on);
      assert Flag(single.on) != oneshot;
    }
    assert SetSingle(single) == verb + " " + arg;
    WordPair(verb, arg);
  }

  /** `setMixrampDelay`: `nan` disables the delay and is what a delay of 0 sends. */
  function SetMixrampDelay(seconds: int): (cmd: string)
    ensures seconds == 0 <==> cmd == "mixrampdelay nan"
    ensures seconds != 0 ==> cmd == "mixrampdelay " + IntToString(seconds)
  {
    var arg := if seconds != 0 then IntToString(seconds) else "nan";
    assert seconds > 0 ==> IsDigit(arg[0]);
    assert ("mixrampdelay " + arg)[13] == arg[0];
    "mixrampdelay " + arg
  }

  /** `mixrampdelay` carries `nan` exactly for 0 seconds, and the seconds otherwise. */
  lemma MixrampDelayArguments(seconds: int)
    ensures var args := Split(SetMixrampDelay(seconds), ' ');
      && |args| == 2 && args[0] == "mixrampdelay"
      && (seconds == 0 <==> args[1] == "nan")
      && (seconds != 0 ==> ReadsAsOptional(args[1], Some(seconds)))
  {
    var verb, nan := "mixrampdelay", "nan";
    assert ' ' !in verb && ' ' !in nan;
    var arg := if seconds != 0 then IntToString(seconds) else nan;
    OptionalIntReadsBack(Some(seconds));
    assert !IsDigit('n');
    assert seconds != 0 ==> arg != nan;
    assert SetMixrampDelay(seconds) == verb + " " + arg;
    WordPair(verb, arg);
  }

  /** `getVolume`: nothing when the first line is missing or empty, else the number after
      the `volume: ` key. */
  function GetVolume(lines: seq<string>): (volume: Option<JsNumber>)
    ensures volume.None? <==> |lines| == 0 || lines[0] == ""
    ensures volume.Some? ==> volume.value == ToNumber(Drop(lines[0], 8))
  {
    if |lines| > 0 && lines[0] != "" then Some(ToNumber(Drop(lines[0], 8))) else None
  }

  /** The volume the daemon reports comes back as that number. */
  lemma GetVolumeRoundTrip(volume: nat, more: seq<string>)
    ensures GetVolume([KeyLine(("volume", NatToString(volume)))] + more) == Some(Finite(volume))
  {
    var line := KeyLine(("volume", NatToString(volume)));
    assert line == "volume: " + NatToString(volume);
    assert Drop(line, 8) == NatToString(volume);
    NumberOfNatToString(volume, "");
  }

  /** The replay gain modes. */
  datatype ReplayGainMode = Off | Track | Album | Auto

  function ModeName(mode: ReplayGainMode): string
  {
    match mode
    case Off => "off"
    case Track => "track"
    case Album => "album"
    case Auto => "auto"
  }

  /** `setReplayGainMode`. */
  function SetReplayGainMode(mode: ReplayGainMode): (cmd: string)
    ensures StartsWith(cmd, "replay_gain_mode ") && cmd[17..] == ModeName(mode)
  {
    "replay_gain_mode " + ModeName(mode)
  }

  /** `replay_gain_mode` carries the mode's name, and distinct modes send distinct names. */
  lemma ReplayGainModeArguments(mode: ReplayGainMode, other: ReplayGainMode)
    ensures Split(SetReplayGainMode(mode), ' ') == ["replay_gain_mode", ModeName(mode)]
    ensures mode != other ==> ModeName(mode) != ModeName(other)
  {
    var verb, name := "replay_gain_mode", ModeName(mode);
    assert ' ' !in verb && ' ' !in name;
    assert SetReplayGainMode(mode) == verb + " " + name;
    WordPair(verb, name);
  }

  /** `getReplayGainMode`: the first line minus the `replay_gain_mode: ` key; reading the
      first line of an empty response throws. */
  function GetReplayGainMode(lines: seq<string>): (mode: Result<string>)
    ensures mode.Err? <==> |lines| == 0
    ensures |lines| > 0 ==> mode.value == Drop(lines[0], 18)
  {
    if |lines| == 0 then Err(UndefinedPropertyError) else Ok(Drop(lines[0], 18))
  }

  /** The mode the daemon reports comes back by name. */
  lemma GetReplayGainModeRoundTrip(mode: ReplayGainMode, more: seq<string>)
    ensures GetReplayGainMode([KeyLine(("replay_gain_mode", ModeName(mode)))] + more) == Ok(ModeName(mode))
  {
    var key := "replay_gain_mode";
    var line := KeyLine((key, ModeName(mode)));
    assert |key| + 2 == 18;
    assert line == key + ": " + ModeName(mode);
    assert line[|key| + 2..] == ModeName(mode);
  }
}
