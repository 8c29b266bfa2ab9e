/** The queue commands of src/commands/currentPlaylist.ts whose arguments are optional: the
    position of `add`/`addid` and `playlistinfo`, the ranges of `delete`, `playlistinfo`, `plchanges`,
    `plchangesposid`, `shuffle` and `rangeid`, the tag of `cleartagid`, and the song id
    `addid` returns. */
module CurrentPlaylist {
  import opened Wrappers
  import opened Text
  import opened Arguments
  import opened StoredPlaylists

  // ---------------------------------------------------------------------------------
  // `add` and `addId`

  /** `add "uri"`, followed by the position when one is given. */
  function Add(uri: string, position: Option<int>): (cmd: string)
    ensures StartsWith(cmd, QuotedCommand("add", uri))
    ensures position.None? <==> cmd == QuotedCommand("add", uri)
    ensures position.Some? ==> cmd == QuotedCommand("add", uri) + " " + IntToString(position.value)
  {
    AppendNumber(QuotedCommand("add", uri), position)
  }

  /** `addid "uri"`, followed by the position when one is given. */
  function AddId(uri: string, position: Option<int>): (cmd: string)
    ensures StartsWith(cmd, QuotedCommand("addid", uri))
    ensures position.None? <==> cmd == QuotedCommand("addid", uri)
    ensures position.Some? ==> cmd == QuotedCommand("addid", uri) + " " + IntToString(position.value)
  {
    AppendNumber(QuotedCommand("addid", uri), position)
  }

  /** After the verbatim quoted uri comes nothing without a position, and exactly the
      position, read back as a number, with one. */
  lemma PositionArgument(verb: string, uri: string, position: Option<int>)
    ensures var cmd := AppendNumber(QuotedCommand(verb, uri), position);
      && StartsWith(cmd, verb + " \"" + uri + "\"")
      && var args := Split(cmd[|QuotedCommand(verb, uri)|..], ' ');
      && args[0] == ""
      && (position.None? <==> |args| == 1)
      && (position.Some? ==> |args| == 2 && ReadsAsOptional(args[1], position))
  {
    var base := QuotedCommand(verb, uri);
    var args: seq<string> := if position.Some? then [OptionalInt(position)] else [];
    OptionalIntReadsBack(position);
    if position.Some? {
      SpacedOne(base, OptionalInt(position));
    }
    assert AppendNumber(base, position)[|base|..] == "" + Spaced(args);
    SplitSpaced("", args);
  }

  /** `playlistinfo`, followed by the position when one is given. */
  function PlaylistInfo(position: Option<int>): (cmd: string)
    ensures StartsWith(cmd, "playlistinfo")
    ensures position.None? <==> cmd == "playlistinfo"
    ensures position.Some? ==> cmd == "playlistinfo " + IntToString(position.value)
  {
    AppendNumber("playlistinfo", position)
  }

  /** `playlistInfo` sends the verb alone without a position, and with one a single further
      argument reading back as the position. */
  lemma PlaylistInfoArguments(position: Option<int>)
    ensures var args := Split(PlaylistInfo(position), ' ');
      && args[0] == "playlistinfo"
      && (position.None? <==> |args| == 1)
      && (position.Some? ==> |args| == 2 && ReadsAsOptional(args[1], position))
  {
    var verb := "playlistinfo";
    assert ' ' !in verb;
    OptionalIntReadsBack(position);
    if position.Some? {
      WordPair(verb, OptionalInt(position));
    } else {
      SplitNone(verb, ' ');
    }
  }

  /** `addId`'s result: the number after the `Id: ` of the first line; reading the first
      line of an empty response throws. */
  function AddIdResult(lines: seq<string>): (r: Result<JsNumber>)
    ensures r.Err? <==> |lines| == 0
    ensures |lines| > 0 ==> r.value == ToNumber(Drop(lines[0], 4))
  {
    if |lines| == 0 then Err(UndefinedPropertyError) else Ok(ToNumber(Drop(lines[0], 4)))
  }

  /** The id the daemon reports comes back as that number. */
  lemma AddIdReadsId(id: nat, more: seq<string>)
    ensures AddIdResult(["Id: " + NatToString(id)] + more) == Ok(Finite(id))
  {
    var line := "Id: " + NatToString(id);
    assert Drop(line, 4) == NatToString(id);
    NumberOfNatToString(id, "");
  }

  // ---------------------------------------------------------------------------------
  // Ranges

  /** `delete start:`, followed by the end when one is given. */
  function DeleteRange(start: int, end: Option<int>): (cmd: string)
    ensures cmd == "delete " + RangeText(Some(start), end)
  {
    "delete " + IntToString(start) + ":" + (if end.Some? then IntToString(end.value) else "")
  }

  /** `playlistinfo start:`, followed by the end when one is given. */
  function PlaylistRangeInfo(start: int, end: Option<int>): (cmd: string)
    ensures cmd == "playlistinfo " + RangeText(Some(start), end)
  {
    "playlistinfo " + IntToString(start) + ":" + (if end.Some? then IntToString(end.value) else "")
  }

  /** A word followed by a range splits into the word and the range, which reads back. */
  lemma RangeCommand(verb: string, start: Option<int>, end: Option<int>)
    requires ' ' !in verb
    ensures var args := Split(verb + " " + RangeText(start, end), ' ');
      |args| == 2 && args[0] == verb && ReadsAsRange(args[1], start, end)
  {
    var range := RangeText(start, end);
    RangeRoundTrip(start, end);
    SpacedOne(verb, range);
    SplitSpaced(verb, [range]);
  }

  /** `delete` and `playlistinfo` always carry one range argument, which reads back as the
      start and the end, the end field empty when none is given. */
  lemma ClosedRangeArguments(start: int, end: Option<int>)
    ensures var args := Split(DeleteRange(start, end), ' ');
      |args| == 2 && args[0] == "delete" && ReadsAsRange(args[1], Some(start), end)
    ensures var args := Split(PlaylistRangeInfo(start, end), ' ');
      |args| == 2 && args[0] == "playlistinfo" && ReadsAsRange(args[1], Some(start), end)
  {
    var delete, info := "delete", "playlistinfo";
    assert ' ' !in delete && ' ' !in info;
    assert DeleteRange(start, end) == delete + " " + RangeText(Some(start), end);
    assert PlaylistRangeInfo(start, end) == info + " " + RangeText(Some(start), end);
    RangeCommand(delete, Some(start), end);
    RangeCommand(info, Some(start), end);
  }

  /** `plchanges version`, followed by ` start:`[end] when a start is given. */
  function PlaylistChanges(version: int, start: Option<int>, end: Option<int>): (cmd: string)
    ensures start.None? ==> cmd == "plchanges " + IntToString(version)
    ensures start.Some? ==> cmd == "plchanges " + IntToString(version) + " " + RangeText(start, end)
  {
    AppendRange("plchanges " + IntToString(version), start, end)
  }

  /** `plchangesposid version`, followed by ` start:`[end] when a start is given. */
  function PlaylistChangesPosId(version: int, start: Option<int>, end: Option<int>): (cmd: string)
    ensures start.None? ==> cmd == "plchangesposid " + IntToString(version)
    ensures start.Some? ==> cmd == "plchangesposid " + IntToString(version) + " " + RangeText(start, end)
  {
    AppendRange("plchangesposid " + IntToString(version), start, end)
  }

  /** `shuffle`, followed by ` start:`[end] when a start is given. */
  function Shuffle(start: Option<int>, end: Option<int>): (cmd: string)
    ensures start.None? ==> cmd == "shuffle"
    ensures start.Some? ==> cmd == "shuffle " + RangeText(start, end)
  {
    AppendRange("shuffle", start, end)
  }

  /** A word with an optional range appended: the range follows only when a start is given
      (an end alone is dropped), and then reads back. */
  lemma OptionalRangeCommand(verb: string, start: Option<int>, end: Option<int>)
    requires ' ' !in verb
    ensures var args := Split(AppendRange(verb, start, end), ' ');
      && |args| == (if start.Some? then 2 else 1) && args[0] == verb
      && (start.Some? ==> ReadsAsRange(args[1], start, end))
  {
    if start.Some? {
      RangeCommand(verb, start, end);
    } else {
      SplitNone(verb, ' ');
    }
  }

  /** A word, a number and an optional range: the number reads back, and the range follows
      it only when a start is given. */
  lemma VersionedRangeCommand(verb: string, version: int, start: Option<int>, end: Option<int>)
    requires ' ' !in verb
    ensures var args := Split(AppendRange(verb + " " + IntToString(version), start, end), ' ');
      && |args| == (if start.Some? then 3 else 2) && args[0] == verb
      && ReadsAsOptional(args[1], Some(version))
      && (start.Some? ==> ReadsAsRange(args[2], start, end))
  {
    var v := OptionalInt(Some(version));
    OptionalIntReadsBack(Some(version));
    RangeRoundTrip(start, end);
    if start.Some? {
      var range := RangeText(start, end);
      SpacedTwo(verb, v, range);
      SplitSpaced(verb, [v, range]);
    } else {
      SpacedOne(verb, v);
      SplitSpaced(verb, [v]);
    }
  }

  /** The version of `plchanges`/`plchangesposid` reads back, and the range follows it only
      when a start is given. */
  lemma PlaylistChangesArguments(version: int, start: Option<int>, end: Option<int>)
    ensures var args := Split(PlaylistChanges(version, start, end), ' ');
      && |args| == (if start.Some? then 3 else 2) && args[0] == "plchanges"
      && ReadsAsOptional(args[1], Some(version))
      && (start.Some? ==> ReadsAsRange(args[2], start, end))
    ensures var args := Split(PlaylistChangesPosId(version, start, end), ' ');
      && |args| == (if start.Some? then 3 else 2) && args[0] == "plchangesposid"
      && ReadsAsOptional(args[1], Some(version))
      && (start.Some? ==> ReadsAsRange(args[2], start, end))
  {
    PlaylistChangesIsVersioned(version, start, end);
    PlaylistChangesPosIdIsVersioned(version, start, end);
    VersionedRangeCommand("plchanges", version, start, end);
    VersionedRangeCommand("plchangesposid", version, start, end);
  }

  lemma PlaylistChangesIsVersioned(version: int, start: Option<int>, end: Option<int>)
    ensures ' ' !in "plchanges"
    ensures PlaylistChanges(version, start, end) == AppendRange("plchanges" + " " + IntToString(version), start, end)
  {
    assert "plchanges" + " " == "plchanges ";
  }

  lemma PlaylistChangesPosIdIsVersioned(version: int, start: Option<int>, end: Option<int>)
    ensures ' ' !in "plchangesposid"
    ensures PlaylistChangesPosId(version, start, end) == AppendRange("plchangesposid" + " " + IntToString(version), start, end)
  {
    assert "plchangesposid" + " " == "plchangesposid ";
  }

  /** `shuffle` carries the range only when a start is given. */
  lemma ShuffleArguments(start: Option<int>, end: Option<int>)
    ensures var args := Split(Shuffle(start, end), ' ');
      && |args| == (if start.Some? then 2 else 1) && args[0] == "shuffle"
      && (start.Some? ==> ReadsAsRange(args[1], start, end))
  {
    var shuffle := "shuffle";
    assert ' ' !in shuffle;
    assert Shuffle(start, end) == AppendRange(shuffle, start, end);
    OptionalRangeCommand(shuffle, start, end);
  }

  /** `rangeid songId start:end`, each side of the colon empty when not given. */
  function RangeId(songId: int, start: Option<int>, end: Option<int>): (cmd: string)
    ensures cmd == "rangeid " + IntToString(songId) + " " + RangeText(start, end)
  {
    "rangeid " + IntToString(songId) + " " + (if start.Some? then IntToString(start.value) else "")
      + ":" + (if end.Some? then IntToString(end.value) else "")
  }

  lemma IdRangeCommand(verb: string, id: int, start: Option<int>, end: Option<int>)
    requires ' ' !in verb
    ensures var args := Split(verb + " " + IntToString(id) + " " + RangeText(start, end), ' ');
      && |args| == 3 && args[0] == verb
      && ReadsAsOptional(args[1], Some(id))
      && ReadsAsRange(args[2], start, end)
  {
    var v := OptionalInt(Some(id));
    var range := RangeText(start, end);
    OptionalIntReadsBack(Some(id));
    RangeRoundTrip(start, end);
    SpacedTwo(verb, v, range);
    SplitSpaced(verb, [v, range]);
  }

  /** `rangeid` always carries exactly one colon, the start before it and the end after it,
      each present exactly when given. */
  lemma RangeIdArguments(songId: int, start: Option<int>, end: Option<int>)
    ensures var args := Split(RangeId(songId, start, end), ' ');
      && |args| == 3 && args[0] == "rangeid"
      && ReadsAsOptional(args[1], Some(songId))
      && ReadsAsRange(args[2], start, end)
  {
    var verb := "rangeid";
    assert ' ' !in verb;
    var a, b := OptionalInt(start), OptionalInt(end);
    var head := verb + " " + IntToString(songId) + " ";
    assert "rangeid " == verb + " ";
    assert RangeId(songId, start, end) == head + a + ":" + b;
    AppendAssociative(head, a, ":");
    AppendAssociative(head, a + ":", b);
    IdRangeCommand(verb, songId, start, end);
  }

  // ---------------------------------------------------------------------------------
  // `clearTagId`

  /** `cleartagid songId`, followed by the quoted tag only for a non-empty one. */
  function ClearTagId(songId: int, tag: Option<string>): (cmd: string)
    ensures StartsWith(cmd, "cleartagid " + IntToString(songId))
    ensures (tag.None? || tag.value == "") <==> cmd == "cleartagid " + IntToString(songId)
    ensures tag.Some? && tag.value != "" ==> cmd == "cleartagid " + IntToString(songId) + " \"" + tag.value + "\""
  {
    var cmd := "cleartagid " + IntToString(songId);
    if tag.Some? && tag.value != "" then cmd + " \"" + tag.value + "\"" else cmd
  }

  /** Without a non-empty tag every tag of the song is cleared; with one, the tag follows
      the id as a single quoted argument (for a tag without spaces). */
  lemma ClearTagIdArguments(songId: int, tag: Option<string>)
    requires tag.Some? ==> ' ' !in tag.value
    ensures var args := Split(ClearTagId(songId, tag), ' ');
      && args[0] == "cleartagid" && ReadsAsOptional(args[1], Some(songId))
      && ((tag.None? || tag.value == "") <==> |args| == 2)
      && (tag.Some? && tag.value != "" ==> |args| == 3 && args[2] == "\"" + tag.value + "\"")
  {
    var verb := "cleartagid";
    var id := OptionalInt(Some(songId));
    assert ' ' !in verb;
    OptionalIntReadsBack(Some(songId));
    assert "cleartagid " == verb + " ";
    if tag.Some? && tag.value != "" {
      var quoted := "\"" + tag.value + "\"";
      assert ' ' !in quoted;
      var cmd := verb + " " + id;
      assert " \"" == " " + "\"";
      AppendAssociative(cmd, " ", "\"");
      AppendAssociative(cmd + " ", "\"", tag.value);
      AppendAssociative(cmd + " ", "\"" + tag.value, "\"");
      SpacedTwo(verb, id, quoted);
      SplitSpaced(verb, [id, quoted]);
    } else {
      SpacedOne(verb, id);
      SplitSpaced(verb, [id]);
    }
  }
}
