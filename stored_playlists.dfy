/** The stored-playlist commands of src/commands/storedPlaylists.ts: the `load` range and
    position arguments, `playlistadd`, `searchplaylist` and the uris `listplaylist` returns. */
module StoredPlaylists {
  import opened Wrappers
  import opened Text
  import opened Util
  import opened DatabaseCommands
  import opened Arguments

  /** `verb "name"`: the name in double quotes, taken verbatim. */
  function QuotedCommand(verb: string, name: string): (cmd: string)
    ensures |cmd| == |verb| + |name| + 3
  {
    verb + " \"" + name + "\""
  }

  /** `listPlaylist`: each line minus its `file: ` key. */
  function ListPlaylist(lines: seq<string>): (uris: seq<string>)
    ensures |uris| == |lines|
    ensures forall i :: 0 <= i < |lines| ==> uris[i] == Drop(lines[i], 6)
  {
    DropEach(lines, 6)
  }

  /** The uris of a playlist listing come back in order, none lost or added. */
  lemma ListPlaylistRoundTrip(uris: seq<string>)
    ensures ListPlaylist(KeyLines("file", uris)) == uris
  {
    DropEachOfKeyLines("file", uris);
  }

  /** `searchPlaylist`: `searchplaylist "name"` followed by the filter. */
  function SearchPlaylist(name: string, filter: Filter): (cmd: string)
    ensures StartsWith(cmd, QuotedCommand("searchplaylist", name))
    ensures cmd == QuotedCommand("searchplaylist", name) + AddFilter("", filter)
  {
    AddFilter(QuotedCommand("searchplaylist", name), filter)
  }

  /** `load`: the optional range, then the optional position, which always comes after a
      range (` 0:` when no start is given). */
  function Load(name: string, start: Option<int>, end: Option<int>, position: Option<int>): (cmd: string)
    ensures StartsWith(cmd, QuotedCommand("load", name))
    ensures start.None? && position.None? ==> cmd == QuotedCommand("load", name)
  {
    var cmd := AppendRange(QuotedCommand("load", name), start, end);
    if position.Some? then
      (if start.None? then cmd + " 0:" else cmd) + " " + IntToString(position.value)
    else cmd
  }

  /** The arguments `load` puts after the quoted name. */
  function LoadArgs(start: Option<int>, end: Option<int>, position: Option<int>): seq<string>
  {
    if start.None? && position.None? then []
    else if position.None? then [RangeText(start, end)]
    else if start.None? then [RangeText(Some(0), None), OptionalInt(position)]
    else [RangeText(start, end), OptionalInt(position)]
  }

  lemma LoadIsSpaced(name: string, start: Option<int>, end: Option<int>, position: Option<int>)
    ensures Load(name, start, end, position) == QuotedCommand("load", name) + Spaced(LoadArgs(start, end, position))
  {
    var base := QuotedCommand("load", name);
    if position.Some? {
      var p := OptionalInt(position);
      if start.None? {
        assert IntToString(0) == "0";
        assert RangeText(Some(0), None) == "0:";
        assert Load(name, start, end, position) == base + " " + "0:" + " " + p;
        SpacedTwo(base, "0:", p);
      } else {
        SpacedTwo(base, RangeText(start, end), p);
      }
    } else if start.Some? {
      SpacedOne(base, RangeText(start, end));
    }
  }

  /** What the daemon reads after `load "name"`: the range when a start is given, and a
      range followed by the position when a position is given, the range being `0:` (to
      the end) when there is no start; an end without a start is dropped. */
  lemma LoadArguments(name: string, start: Option<int>, end: Option<int>, position: Option<int>)
    ensures var args := Split(Load(name, start, end, position)[|QuotedCommand("load", name)|..], ' ');
      && args[0] == ""
      && (start.None? && position.None? ==> |args| == 1)
      && (start.Some? && position.None? ==> |args| == 2 && ReadsAsRange(args[1], start, end))
      && (start.None? && position.Some? ==> |args| == 3 && ReadsAsRange(args[1], Some(0), None))
      && (start.Some? && position.Some? ==> |args| == 3 && ReadsAsRange(args[1], start, end))
      && (position.Some? ==> ReadsAsOptional(args[2], position))
  {
    var base := QuotedCommand("load", name);
    var args := LoadArgs(start, end, position);
    LoadIsSpaced(name, start, end, position);
    var suffix := Load(name, start, end, position)[|base|..];
    assert suffix == "" + Spaced(args);
    LoadArgsRead(start, end, position);
    SplitSpaced("", args);
  }

  lemma LoadArgsRead(start: Option<int>, end: Option<int>, position: Option<int>)
    ensures var args := LoadArgs(start, end, position);
      && (forall i :: 0 <= i < |args| ==> ' ' !in args[i])
      && (start.None? && position.None? ==> |args| == 0)
      && (start.Some? && position.None? ==> |args| == 1 && ReadsAsRange(args[0], start, end))
      && (start.None? && position.Some? ==> |args| == 2 && ReadsAsRange(args[0], Some(0), None))
      && (start.Some? && position.Some? ==> |args| == 2 && ReadsAsRange(args[0], start, end))
      && (position.Some? ==> ReadsAsOptional(args[1], position))
  {
    RangeRoundTrip(start, end);
    RangeRoundTrip(Some(0), None);
    OptionalIntReadsBack(position);
  }

  /** What follows a command once a number is appended: one empty piece and the number. */
  lemma NumberTail(base: string, position: Option<int>)
    ensures var cmd := AppendNumber(base, position);
      && StartsWith(cmd, base)
      && (position.None? <==> cmd == base)
      && (position.Some? ==> Split(cmd[|base|..], ' ') == ["", IntToString(position.value)])
  {
    OptionalIntReadsBack(position);
    if position.Some? {
      var arg := OptionalInt(position);
      assert AppendNumber(base, position)[|base|..] == "" + [' '] + arg;
      SplitCons("", arg, ' ');
      SplitNone(arg, ' ');
    }
  }

  /** `playlistAdd`: `playlistadd "name" "uri"` and the position when one is given. */
  function PlaylistAdd(name: string, uri: string, position: Option<int>): (cmd: string)
    ensures var base := QuotedCommand("playlistadd", name) + " \"" + uri + "\"";
      && StartsWith(cmd, base)
      && (position.None? <==> cmd == base)
      && (position.Some? ==> Split(cmd[|base|..], ' ') == ["", IntToString(position.value)])
  {
    var base := QuotedCommand("playlistadd", name) + " \"" + uri + "\"";
    NumberTail(base, position);
    AppendNumber(base, position)
  }
}
