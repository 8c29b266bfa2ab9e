/** The connection commands of src/commands/connection.ts that take or return lists: the
    tag-type and protocol-feature switches and the tag-type and feature listings. */
module Connection {
  import opened Wrappers
  import opened Text
  import opened Util
  import opened Arguments

  /** `verb action name…`, or nothing at all for an empty list of names. */
  function ListCommand(verb: string, action: string, names: seq<string>): (cmd: Option<string>)
    ensures cmd.None? <==> |names| == 0
  {
    if |names| < 1 then None else Some(verb + " " + action + " " + Join(names, " "))
  }

  /** `disableTagTypes`. */
  function DisableTagTypes(names: seq<string>): (cmd: Option<string>)
    ensures cmd.None? <==> |names| == 0
    ensures cmd.Some? ==> cmd.value == "tagtypes disable " + Join(names, " ")
  {
    ListCommand("tagtypes", "disable", names)
  }

  /** `enableTagTypes`. */
  function EnableTagTypes(names: seq<string>): (cmd: Option<string>)
    ensures cmd.None? <==> |names| == 0
    ensures cmd.Some? ==> cmd.value == "tagtypes enable " + Join(names, " ")
  {
    ListCommand("tagtypes", "enable", names)
  }

  /** `enableProtocolFeatures`. */
  function EnableProtocolFeatures(features: seq<string>): (cmd: Option<string>)
    ensures cmd.None? <==> |features| == 0
    ensures cmd.Some? ==> cmd.value == "protocol enable " + Join(features, " ")
  {
    ListCommand("protocol", "enable", features)
  }

  /** `disableProtocolFeatures`. */
  function DisableProtocolFeatures(features: seq<string>): (cmd: Option<string>)
    ensures cmd.None? <==> |features| == 0
    ensures cmd.Some? ==> cmd.value == "protocol disable " + Join(features, " ")
  {
    ListCommand("protocol", "disable", features)
  }

  /** Names without spaces reach the daemon as separate arguments, in order, after the
      verb and the action; an empty list sends no command. */
  lemma ListCommandArguments(verb: string, action: string, names: seq<string>)
    requires ' ' !in verb && ' ' !in action
    requires forall i :: 0 <= i < |names| ==> ' ' !in names[i]
    ensures ListCommand(verb, action, names).None? <==> |names| == 0
    ensures |names| > 0 ==> Split(ListCommand(verb, action, names).value, ' ') == [verb, action] + names
  {
    if |names| > 0 {
      JoinSpaced(names);
      assert ([action] + names)[1..] == names;
      assert Spaced([action] + names) == " " + action + Spaced(names);
      assert ListCommand(verb, action, names).value == verb + Spaced([action] + names);
      SplitSpaced(verb, [action] + names);
    }
  }

  /** The four switches send nothing for an empty list and otherwise their verb, their
      action and the names. */
  lemma SwitchArguments(names: seq<string>)
    requires forall i :: 0 <= i < |names| ==> ' ' !in names[i]
    ensures |names| == 0 ==> DisableTagTypes(names).None? && EnableTagTypes(names).None?
    ensures |names| == 0 ==> EnableProtocolFeatures(names).None? && DisableProtocolFeatures(names).None?
    ensures |names| > 0 ==> Split(DisableTagTypes(names).value, ' ') == ["tagtypes", "disable"] + names
    ensures |names| > 0 ==> Split(EnableTagTypes(names).value, ' ') == ["tagtypes", "enable"] + names
    ensures |names| > 0 ==> Split(EnableProtocolFeatures(names).value, ' ') == ["protocol", "enable"] + names
    ensures |names| > 0 ==> Split(DisableProtocolFeatures(names).value, ' ') == ["protocol", "disable"] + names
  {
    var tagtypes, protocol, enable, disable := "tagtypes", "protocol", "enable", "disable";
    assert ' ' !in tagtypes && ' ' !in protocol && ' ' !in enable && ' ' !in disable;
    ListCommandArguments(tagtypes, disable, names);
    ListCommandArguments(tagtypes, enable, names);
    ListCommandArguments(protocol, enable, names);
    ListCommandArguments(protocol, disable, names);
  }

  /** `setEnabledTagTypes`: `tagtypes reset`, followed by the names when there are any. */
  function SetEnabledTagTypes(names: seq<string>): (cmd: string)
    ensures cmd == "tagtypes reset" + Spaced(names)
  {
    var cmd := "tagtypes reset";
    if |names| > 0 then
      JoinSpaced(names);
      cmd + " " + Join(names, " ")
    else cmd
  }

  /** A verb, an action and spaced-out names split into the three, count and order kept. */
  lemma WordsThenSpaced(verb: string, action: string, names: seq<string>)
    requires ' ' !in verb && ' ' !in action
    requires forall i :: 0 <= i < |names| ==> ' ' !in names[i]
    ensures Split(verb + " " + action + Spaced(names), ' ') == [verb, action] + names
  {
    var rest := action + Spaced(names);
    AppendAssociative(verb + " ", action, Spaced(names));
    assert verb + " " + action + Spaced(names) == verb + [' '] + rest;
    SplitCons(verb, rest, ' ');
    SplitSpaced(action, names);
  }

  /** `tagtypes reset` is always sent; the names follow it as separate arguments. */
  lemma SetEnabledTagTypesArguments(names: seq<string>)
    requires forall i :: 0 <= i < |names| ==> ' ' !in names[i]
    ensures Split(SetEnabledTagTypes(names), ' ') == ["tagtypes", "reset"] + names
  {
    var verb, action := "tagtypes", "reset";
    assert ' ' !in verb && ' ' !in action;
    assert "tagtypes reset" == verb + " " + action;
    WordsThenSpaced(verb, action, names);
  }

  /** `tagTypes`, `getAvailableTagTypes`, `getEnabledProtocolFeatures` and
      `getAvailableProtocolFeatures`: each line minus its nine-character key
      (`tagtype: ` or `feature: `). */
  function Names(lines: seq<string>): (names: seq<string>)
    ensures |names| == |lines|
    ensures forall i :: 0 <= i < |lines| ==> names[i] == Drop(lines[i], 9)
  {
    DropEach(lines, 9)
  }

  /** The listed tag types and features come back in order, none lost or added. */
  lemma NamesRoundTrip(names: seq<string>)
    ensures Names(KeyLines("tagtype", names)) == names
    ensures Names(KeyLines("feature", names)) == names
  {
    DropEachOfKeyLines("tagtype", names);
    DropEachOfKeyLines("feature", names);
  }
}
