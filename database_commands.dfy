/** The database commands of src/commands/database.ts: the filter, sort and window suffixes
    every search command is built from, the grouping of `list … group …` responses, the
    chunked picture download, and the value extraction of `listall` and `list`. */
module DatabaseCommands {
  import opened Wrappers
  import opened Text
  import opened Responses
  import opened Util
  import opened DatabaseObjects
  import opened Arguments

  // ---------------------------------------------------------------------------------
  // `addFilter`

  /** A filter: an expression in the daemon's filter syntax, or tag/needle pairs. */
  datatype Filter = Expression(expression: string) | TagFilters(filters: seq<(string, string)>)

  /** `s.replace(/c/g, r)`. */
  function ReplaceAll(s: string, c: char, r: string): string
  {
    if |s| == 0 then "" else (if s[0] == c then r else [s[0]]) + ReplaceAll(s[1..], c, r)
  }

  /** The two replacements `addFilter` makes on an expression: backslashes doubled first,
      then every double quote preceded by a backslash. */
  function Escape(s: string): (r: string)
    ensures r == EscapeEach(s)
    ensures Unescape(r) == s && NoBareQuote(r)
  {
    EscapeIsPerCharacter(s);
    UnescapeEscapeEach(s);
    ReplaceAll(ReplaceAll(s, '\\', "\\\\"), '"', "\\\"")
  }

  /** What one character of the expression becomes. */
  function EscapeChar(c: char): string
  {
    if c == '\\' then "\\\\" else if c == '"' then "\\\"" else [c]
  }

  function EscapeEach(s: string): string
  {
    if |s| == 0 then "" else EscapeChar(s[0]) + EscapeEach(s[1..])
  }

  lemma {:induction false} ReplaceAllAppend(a: string, b: string, c: char, r: string)
    ensures ReplaceAll(a + b, c, r) == ReplaceAll(a, c, r) + ReplaceAll(b, c, r)
  {
    if |a| > 0 {
      assert (a + b)[1..] == a[1..] + b;
      ReplaceAllAppend(a[1..], b, c, r);
    } else {
      assert a + b == b;
    }
  }

  /** The two passes together escape each character on its own: the second pass never
      touches what the first one wrote. */
  lemma {:induction false} EscapeIsPerCharacter(s: string)
    ensures ReplaceAll(ReplaceAll(s, '\\', "\\\\"), '"', "\\\"") == EscapeEach(s)
  {
    if |s| > 0 {
      var first := BackslashPass(s[0]);
      assert ReplaceAll(s, '\\', "\\\\") == first + ReplaceAll(s[1..], '\\', "\\\\");
      ReplaceAllAppend(first, ReplaceAll(s[1..], '\\', "\\\\"), '"', "\\\"");
      QuotePassOfBackslashPass(s[0]);
      EscapeIsPerCharacter(s[1..]);
    }
  }

  /** What the first pass makes of one character. */
  function BackslashPass(c: char): string
  {
    if c == '\\' then "\\\\" else [c]
  }

  lemma QuotePassOfBackslashPass(c: char)
    ensures ReplaceAll(BackslashPass(c), '"', "\\\"") == EscapeChar(c)
  {
    if c == '\\' {
      var t := BackslashPass(c);
      assert t == ['\\'] + ['\\'];
      ReplaceAllAppend(['\\'], ['\\'], '"', "\\\"");
      assert ReplaceAll(['\\'], '"', "\\\"") == ['\\'] + ReplaceAll([], '"', "\\\"");
    } else if c == '"' {
      assert ReplaceAll([c], '"', "\\\"") == "\\\"" + ReplaceAll([], '"', "\\\"");
    } else {
      assert ReplaceAll([c], '"', "\\\"") == [c] + ReplaceAll([], '"', "\\\"");
    }
  }

  /** Removing the backslash in front of each escaped character. */
  function Unescape(t: string): string
  {
    if |t| == 0 then ""
    else if t[0] == '\\' && |t| >= 2 then [t[1]] + Unescape(t[2..])
    else [t[0]] + Unescape(t[1..])
  }

  /** True when every double quote of `t` is escaped, so a quoted argument holding `t`
      ends at its own closing quote. */
  predicate NoBareQuote(t: string)
  {
    if |t| == 0 then true
    else if t[0] == '\\' then |t| >= 2 && NoBareQuote(t[2..])
    else t[0] != '"' && NoBareQuote(t[1..])
  }

  lemma {:induction false} UnescapeEscapeEach(s: string)
    ensures Unescape(EscapeEach(s)) == s
    ensures NoBareQuote(EscapeEach(s))
  {
    if |s| > 0 {
      var e := EscapeEach(s);
      var rest := EscapeEach(s[1..]);
      assert e == EscapeChar(s[0]) + rest;
      UnescapeEscapeEach(s[1..]);
      if s[0] == '\\' || s[0] == '"' {
        assert e[0] == '\\' && e[1] == s[0] && e[2..] == rest;
      } else {
        assert e[0] == s[0] && e[1..] == rest;
      }
      assert s == [s[0]] + s[1..];
    }
  }

  /** The tag/needle pairs, each as ` tag "needle"`, verbatim. */
  function TagClause(f: (string, string)): string
  {
    " " + f.0 + " \"" + f.1 + "\""
  }

  function TagClauses(fs: seq<(string, string)>): (r: string)
    ensures |fs| == 0 <==> r == ""
  {
    if |fs| == 0 then "" else TagClause(fs[0]) + TagClauses(fs[1..])
  }

  /** The `forEach` over the pairs, appending as it goes. */
  function AddTagFilters(cmd: string, fs: seq<(string, string)>): (r: string)
    ensures r == cmd + TagClauses(fs)
    decreases |fs|
  {
    if |fs| == 0 then cmd
    else
      var r := AddTagFilters(cmd + TagClause(fs[0]), fs[1..]);
      assert cmd + TagClause(fs[0]) + TagClauses(fs[1..]) == cmd + TagClauses(fs);
      r
  }

  /** `addFilter`: the expression escaped and quoted, or each pair in order; the command
      is always kept as the start. */
  function AddFilter(cmd: string, filter: Filter): (r: string)
    ensures StartsWith(r, cmd)
    ensures filter.Expression? ==> r == cmd + " \"" + EscapeEach(filter.expression) + "\""
    ensures filter.TagFilters? ==> r == cmd + TagClauses(filter.filters)
  {
    match filter
    case Expression(e) =>
      EscapeIsPerCharacter(e);
      cmd + " \"" + Escape(e) + "\""
    case TagFilters(fs) => AddTagFilters(cmd, fs)
  }

  /** The quoted argument `addFilter` appends for an expression has no bare quote inside, and
      unescaping it gives back the expression. */
  lemma ExpressionFilterRoundTrip(cmd: string, expression: string)
    ensures var r := AddFilter(cmd, Expression(expression));
      && |r| >= |cmd| + 3
      && r[|cmd|..|cmd| + 2] == " \"" && r[|r| - 1] == '"'
      && NoBareQuote(r[|cmd| + 2..|r| - 1])
      && Unescape(r[|cmd| + 2..|r| - 1]) == expression
  {
    var r := AddFilter(cmd, Expression(expression));
    var e := EscapeEach(expression);
    assert r == cmd + " \"" + e + "\"";
    assert r[|cmd| + 2..|r| - 1] == e;
    UnescapeEscapeEach(expression);
  }

  // ---------------------------------------------------------------------------------
  // `addSort` and `addWindow`

  /** `addSort`: ` sort X` when a sort tag is given, nothing otherwise. */
  function AddSort(cmd: string, sort: Option<string>): (r: string)
    ensures StartsWith(r, cmd)
    ensures sort.None? <==> r == cmd
    ensures sort.Some? ==> r[|cmd|..] == " sort " + sort.value
  {
    if sort.Some? then cmd + " sort " + sort.value else cmd
  }

  const WindowKeyword := " window "

  /** `addWindow`: ` window start:end`, or ` window start:` without an end; nothing without a
      start, whatever the end. */
  function AddWindow(cmd: string, start: Option<int>, end: Option<int>): (r: string)
    ensures StartsWith(r, cmd)
    ensures start.None? ==> r == cmd
    ensures start.Some? ==> r == cmd + WindowKeyword + RangeText(start, end)
  {
    if start.Some? then
      cmd + WindowKeyword + RangeText(start, end)
    else cmd
  }

  /** The window reads back: its text splits at its one colon into the start and the end,
      the end being the empty field when it was not given. */
  lemma WindowRoundTrip(cmd: string, start: int, end: Option<int>)
    ensures ReadsAsRange(AddWindow(cmd, Some(start), end)[|cmd| + |WindowKeyword|..], Some(start), end)
  {
    var r := AddWindow(cmd, Some(start), end);
    assert r[|cmd| + |WindowKeyword|..] == RangeText(Some(start), end);
    RangeRoundTrip(Some(start), end);
  }

  // ---------------------------------------------------------------------------------
  // `listAll` and `list`

  /** `listAll`: each line from two characters past its first colon (from the second
      character when there is none). */
  function ListAll(lines: seq<string>): (paths: seq<string>)
    ensures |paths| == |lines|
    ensures forall i :: 0 <= i < |lines| ==> paths[i] == Drop(lines[i], IndexOf(lines[i], ':') + 2)
  {
    seq(|lines|, i requires 0 <= i < |lines| => Drop(lines[i], IndexOf(lines[i], ':') + 2))
  }

  /** `list`: each line minus the tag name and the `: ` after it. */
  function List(tagType: string, lines: seq<string>): (values: seq<string>)
    ensures |values| == |lines|
    ensures forall i :: 0 <= i < |lines| ==> values[i] == Drop(lines[i], |tagType| + 2)
  {
    DropEach(lines, |tagType| + 2)
  }

  /** `listAll` recovers the values of well-formed lines whose keys hold no colon. */
  lemma ListAllRecoversValues(pairs: seq<(string, string)>)
    requires forall i :: 0 <= i < |pairs| ==> ':' !in pairs[i].0
    ensures ListAll(seq(|pairs|, i requires 0 <= i < |pairs| => KeyLine(pairs[i]))) ==
            seq(|pairs|, i requires 0 <= i < |pairs| => pairs[i].1)
  {
    var lines := seq(|pairs|, i requires 0 <= i < |pairs| => KeyLine(pairs[i]));
    forall i | 0 <= i < |pairs|
      ensures ListAll(lines)[i] == pairs[i].1
    {
      var k := pairs[i].0;
      assert lines[i] == k + [':'] + (" " + pairs[i].1);
      IndexOfAppend(k + [':'], " " + pairs[i].1, ':');
      assert IndexOf(lines[i], ':') == |k|;
      assert lines[i][|k| + 2..] == pairs[i].1;
    }
  }

  /** `list` recovers the values of the lines that carry the requested tag. */
  lemma ListRecoversValues(tagType: string, values: seq<string>)
    ensures List(tagType, KeyLines(tagType, values)) == values
  {
    DropEachOfKeyLines(tagType, values);
  }

  // ---------------------------------------------------------------------------------
  // `listGrouped`

  /** The loop state of `listGrouped`: the finished lists, the current grouping values and
      the tag values collected under them. */
  datatype ListState = ListState(result: seq<GroupedTagList>, group: seq<string>, tags: seq<string>)

  /** `saveCurrentTags`. */
  function SaveCurrentTags(s: ListState): ListState
  {
    if |s.tags| > 0 then ListState(s.result + [GroupedTagList(s.group, s.tags)], s.group, []) else s
  }

  /** The state after the counted lines `pairs`. */
  function ListStateOf(pairs: seq<Pair>, groupingTags: seq<string>): (s: ListState)
    ensures |s.group| == |groupingTags|
  {
    if |pairs| == 0 then ListState([], seq(|groupingTags|, _ => ""), [])
    else
      var s := ListStateOf(pairs[..|pairs| - 1], groupingTags);
      var p := pairs[|pairs| - 1];
      if p.0 in groupingTags then
        var s' := SaveCurrentTags(s);
        s'.(group := s'.group[IndexOf(groupingTags, p.0) := p.1])
      else s.(tags := s.tags + [p.1])
  }

  /** The lists `listGrouped` returns for the counted lines `pairs`. */
  function GroupedLists(pairs: seq<Pair>, groupingTags: seq<string>): seq<GroupedTagList>
  {
    SaveCurrentTags(ListStateOf(pairs, groupingTags)).result
  }

  /** `listGrouped` after the command is sent: grouping lines update the current group
      (finishing the list collected so far), other lines add a tag value. */
  method ListGrouped(groupingTags: seq<string>, lines: seq<string>) returns (result: seq<GroupedTagList>)
    ensures result == GroupedLists(Pairs(lines), groupingTags)
  {
    result := [];
    var currentGroup := seq(|groupingTags|, _ => "");
    var currentTags: seq<string> := [];
    var i := 0;
    while i < |lines|
      invariant 0 <= i <= |lines|
      invariant ListState(result, currentGroup, currentTags) == ListStateOf(Pairs(lines[..i]), groupingTags)
    {
      var line := lines[i];
      assert lines[..i + 1][..i] == lines[..i];
      assert lines[..i + 1][i] == line;
      var colonIndex := IndexOf(line, ':');
      if colonIndex > 0 {
        var key := line[..colonIndex];
        var value := Drop(line, colonIndex + 2);
        assert KeyValue(line) == Some((key, value));
        assert Pairs(lines[..i + 1]) == Pairs(lines[..i]) + [(key, value)];
        assert Pairs(lines[..i + 1])[..|Pairs(lines[..i + 1])| - 1] == Pairs(lines[..i]);
        if key in groupingTags {
          if |currentTags| > 0 {
            result := result + [GroupedTagList(currentGroup, currentTags)];
            currentTags := [];
          }
          currentGroup := currentGroup[IndexOf(groupingTags, key) := value];
        } else {
          currentTags := currentTags + [value];
        }
      }
      i := i + 1;
    }
    assert lines[..i] == lines;
    if |currentTags| > 0 {
      result := result + [GroupedTagList(currentGroup, currentTags)];
    }
  }

  /** The values of the lines that are not grouping lines, in order. */
  function TagValues(pairs: seq<Pair>, groupingTags: seq<string>): seq<string>
  {
    if |pairs| == 0 then []
    else
      var vs := TagValues(pairs[..|pairs| - 1], groupingTags);
      var p := pairs[|pairs| - 1];
      if p.0 in groupingTags then vs else vs + [p.1]
  }

  function AllTags(lists: seq<GroupedTagList>): seq<string>
  {
    if |lists| == 0 then [] else AllTags(lists[..|lists| - 1]) + lists[|lists| - 1].tags
  }

  lemma AllTagsSnoc(lists: seq<GroupedTagList>, l: GroupedTagList)
    ensures AllTags(lists + [l]) == AllTags(lists) + l.tags
  {
    assert (lists + [l])[..|lists|] == lists;
  }

  predicate Shaped(lists: seq<GroupedTagList>, n: nat)
  {
    forall k :: 0 <= k < |lists| ==> |lists[k].group| == n && |lists[k].tags| > 0
  }

  lemma {:induction false} ListStateShape(pairs: seq<Pair>, groupingTags: seq<string>)
    ensures StateShaped(ListStateOf(pairs, groupingTags), |groupingTags|, TagValues(pairs, groupingTags))
  {
    if |pairs| > 0 {
      var init := pairs[..|pairs| - 1];
      ListStateShape(init, groupingTags);
      ListStepShape(init, groupingTags, pairs[|pairs| - 1]);
      assert init + [pairs[|pairs| - 1]] == pairs;
    }
  }

  /** The shape facts the loop state keeps. */
  predicate StateShaped(s: ListState, n: nat, values: seq<string>)
  {
    Shaped(s.result, n) && AllTags(s.result) + s.tags == values
  }

  lemma ListStepShape(pairs: seq<Pair>, groupingTags: seq<string>, p: Pair)
    requires StateShaped(ListStateOf(pairs, groupingTags), |groupingTags|, TagValues(pairs, groupingTags))
    ensures StateShaped(ListStateOf(pairs + [p], groupingTags), |groupingTags|, TagValues(pairs + [p], groupingTags))
  {
    if p.0 in groupingTags {
      GroupingStepShape(pairs, groupingTags, p);
    } else {
      TagLineStepShape(pairs, groupingTags, p);
    }
  }

  lemma GroupingStepShape(pairs: seq<Pair>, groupingTags: seq<string>, p: Pair)
    requires p.0 in groupingTags
    requires StateShaped(ListStateOf(pairs, groupingTags), |groupingTags|, TagValues(pairs, groupingTags))
    ensures StateShaped(ListStateOf(pairs + [p], groupingTags), |groupingTags|, TagValues(pairs + [p], groupingTags))
  {
    var all := pairs + [p];
    assert all[..|all| - 1] == pairs && all[|all| - 1] == p;
    var s := ListStateOf(pairs, groupingTags);
    var t := ListStateOf(all, groupingTags);
    assert TagValues(all, groupingTags) == TagValues(pairs, groupingTags);
    if |s.tags| > 0 {
      assert t.result == s.result + [GroupedTagList(s.group, s.tags)] && t.tags == [];
      SaveStep(s.result, s.group, s.tags, |groupingTags|, TagValues(pairs, groupingTags));
    } else {
      assert t.result == s.result && t.tags == s.tags;
    }
  }

  lemma TagLineStepShape(pairs: seq<Pair>, groupingTags: seq<string>, p: Pair)
    requires p.0 !in groupingTags
    requires StateShaped(ListStateOf(pairs, groupingTags), |groupingTags|, TagValues(pairs, groupingTags))
    ensures StateShaped(ListStateOf(pairs + [p], groupingTags), |groupingTags|, TagValues(pairs + [p], groupingTags))
  {
    var all := pairs + [p];
    assert all[..|all| - 1] == pairs && all[|all| - 1] == p;
    var s := ListStateOf(pairs, groupingTags);
    var t := ListStateOf(all, groupingTags);
    assert t.result == s.result && t.tags == s.tags + [p.1];
    assert TagValues(all, groupingTags) == TagValues(pairs, groupingTags) + [p.1];
    TagStep(s.result, s.tags, TagValues(pairs, groupingTags), p.1);
  }

  lemma TagStep(result: seq<GroupedTagList>, tags: seq<string>, values: seq<string>, v: string)
    requires AllTags(result) + tags == values
    ensures AllTags(result) + (tags + [v]) == values + [v]
  {
  }

  lemma SaveStep(result: seq<GroupedTagList>, group: seq<string>, tags: seq<string>, n: nat, values: seq<string>)
    requires Shaped(result, n) && |group| == n && |tags| > 0
    requires AllTags(result) + tags == values
    ensures Shaped(result + [GroupedTagList(group, tags)], n)
    ensures AllTags(result + [GroupedTagList(group, tags)]) + [] == values
  {
    AllTagsSnoc(result, GroupedTagList(group, tags));
  }

  /** Every list has a non-empty tag list and one grouping value per grouping tag, and the
      tag lists together are the non-grouping values in line order. */
  lemma GroupedListsShape(pairs: seq<Pair>, groupingTags: seq<string>)
    ensures Shaped(GroupedLists(pairs, groupingTags), |groupingTags|)
    ensures AllTags(GroupedLists(pairs, groupingTags)) == TagValues(pairs, groupingTags)
  {
    var s := ListStateOf(pairs, groupingTags);
    ListStateShape(pairs, groupingTags);
    if |s.tags| > 0 {
      AllTagsSnoc(s.result, GroupedTagList(s.group, s.tags));
    } else {
      assert s.tags == [];
      assert AllTags(s.result) + [] == AllTags(s.result);
    }
  }

  /** The value of the last line with key `key`, or the empty text. */
  function LatestValue(pairs: seq<Pair>, key: string): string
  {
    if |pairs| == 0 then ""
    else if pairs[|pairs| - 1].0 == key then pairs[|pairs| - 1].1
    else LatestValue(pairs[..|pairs| - 1], key)
  }

  /** The current group holds, per grouping tag, the most recent value given for it (the
      empty text before any); a repeated grouping tag is only ever filled at its first
      position. */
  lemma {:induction false} GroupIsLatest(pairs: seq<Pair>, groupingTags: seq<string>)
    ensures forall j :: 0 <= j < |groupingTags| ==>
      ListStateOf(pairs, groupingTags).group[j] ==
        if IndexOf(groupingTags, groupingTags[j]) == j then LatestValue(pairs, groupingTags[j]) else ""
  {
    if |pairs| > 0 {
      var init := pairs[..|pairs| - 1];
      var p := pairs[|pairs| - 1];
      GroupIsLatest(init, groupingTags);
      forall j | 0 <= j < |groupingTags|
        ensures ListStateOf(pairs, groupingTags).group[j] ==
          if IndexOf(groupingTags, groupingTags[j]) == j then LatestValue(pairs, groupingTags[j]) else ""
      {
        if p.0 == groupingTags[j] {
          assert p.0 in groupingTags;
        }
      }
    }
  }

  /** A grouping line that ends a run of tag values finishes exactly one list: those values
      under the group current before the line. */
  lemma GroupingLineFinishes(pairs: seq<Pair>, groupingTags: seq<string>, p: Pair)
    requires p.0 in groupingTags
    requires |ListStateOf(pairs, groupingTags).tags| > 0
    ensures var s := ListStateOf(pairs, groupingTags);
      ListStateOf(pairs + [p], groupingTags).result == s.result + [GroupedTagList(s.group, s.tags)]
  {
    assert (pairs + [p])[..|pairs|] == pairs;
  }

  /** Later lines never change a finished list. */
  lemma {:induction false} FinishedListsStay(pairs: seq<Pair>, more: seq<Pair>, groupingTags: seq<string>)
    ensures var r := ListStateOf(pairs, groupingTags).result;
      var r' := ListStateOf(pairs + more, groupingTags).result;
      |r| <= |r'| && r'[..|r|] == r
  {
    if |more| > 0 {
      var all := pairs + more;
      assert all[..|all| - 1] == pairs + more[..|more| - 1];
      FinishedListsStay(pairs, more[..|more| - 1], groupingTags);
    } else {
      assert pairs + more == pairs;
    }
  }

  // ---------------------------------------------------------------------------------
  // `downloadPicture`

  /** The bytes held after the download loop, with the loop stopping once a chunk brings no
      bytes: while fewer than `size` are held, the chunk at the current length is appended. */
  function Fetched(buffer: seq<Byte>, size: nat, chunk: nat -> seq<Byte>): (data: seq<Byte>)
    ensures |data| >= |buffer| && data[..|buffer|] == buffer
    ensures |data| >= size || |chunk(|data|)| == 0
    decreases size - |buffer|
  {
    if |buffer| >= size || |chunk(|buffer|)| == 0 then buffer
    else
      var data := Fetched(buffer + chunk(|buffer|), size, chunk);
      assert data[..|buffer|] == data[..|buffer + chunk(|buffer|)|][..|buffer|];
      data
  }

  /** The offsets that loop requests, the one answered by an empty chunk included. */
  function FetchOffsets(buffer: seq<Byte>, size: nat, chunk: nat -> seq<Byte>): seq<nat>
    decreases size - |buffer|
  {
    if |buffer| >= size then []
    else if |chunk(|buffer|)| == 0 then [|buffer|]
    else [|buffer|] + FetchOffsets(buffer + chunk(|buffer|), size, chunk)
  }

  /** The chunks received for a list of offsets, in order. */
  function Chunks(offsets: seq<nat>, chunk: nat -> seq<Byte>): seq<Byte>
  {
    if |offsets| == 0 then [] else chunk(offsets[0]) + Chunks(offsets[1..], chunk)
  }

  /** The download loop's transcript: the first further request asks for the bytes right after
      the first chunk, each next offset is the previous one plus the bytes it brought, every
      request is made while fewer than `size` bytes are held, only the last request may bring
      nothing, and the result is the first chunk followed by all the others in order. */
  lemma FetchTranscript(buffer: seq<Byte>, size: nat, chunk: nat -> seq<Byte>)
    ensures var offsets := FetchOffsets(buffer, size, chunk);
      && (|offsets| > 0 ==> offsets[0] == |buffer|)
      && (forall k :: 0 <= k < |offsets| ==> offsets[k] < size)
      && (forall k :: 0 <= k < |offsets| - 1 ==> offsets[k + 1] == offsets[k] + |chunk(offsets[k])|)
      && (forall k :: 0 <= k < |offsets| - 1 ==> |chunk(offsets[k])| > 0)
      && Fetched(buffer, size, chunk) == buffer + Chunks(offsets, chunk)
  {
    FetchOffsetsShape(buffer, size, chunk);
    FetchedIsChunks(buffer, size, chunk);
  }

  /** The offsets requested, one after the other. */
  lemma {:induction false} FetchOffsetsShape(buffer: seq<Byte>, size: nat, chunk: nat -> seq<Byte>)
    ensures var offsets := FetchOffsets(buffer, size, chunk);
      && (|offsets| > 0 ==> offsets[0] == |buffer|)
      && (forall k :: 0 <= k < |offsets| ==> offsets[k] < size)
      && (forall k :: 0 <= k < |offsets| - 1 ==> offsets[k + 1] == offsets[k] + |chunk(offsets[k])|)
      && (forall k :: 0 <= k < |offsets| - 1 ==> |chunk(offsets[k])| > 0)
    decreases size - |buffer|
  {
    if |buffer| < size && |chunk(|buffer|)| > 0 {
      var next := buffer + chunk(|buffer|);
      FetchOffsetsShape(next, size, chunk);
      var offsets := FetchOffsets(buffer, size, chunk);
      var rest := FetchOffsets(next, size, chunk);
      assert offsets == [|buffer|] + rest;
      forall k | 0 <= k < |offsets| ensures offsets[k] < size {
        if k > 0 {
          assert offsets[k] == rest[k - 1];
        }
      }
      forall k | 0 <= k < |offsets| - 1
        ensures offsets[k + 1] == offsets[k] + |chunk(offsets[k])| && |chunk(offsets[k])| > 0
      {
        if k > 0 {
          assert offsets[k] == rest[k - 1] && offsets[k + 1] == rest[k];
        }
      }
    }
  }

  /** The bytes held are the first chunk followed by the answers to the requests, in order. */
  lemma {:induction false} FetchedIsChunks(buffer: seq<Byte>, size: nat, chunk: nat -> seq<Byte>)
    ensures Fetched(buffer, size, chunk) == buffer + Chunks(FetchOffsets(buffer, size, chunk), chunk)
    decreases size - |buffer|
  {
    var offsets := FetchOffsets(buffer, size, chunk);
    if |buffer| >= size {
      assert buffer + [] == buffer;
    } else if |chunk(|buffer|)| == 0 {
      assert Chunks(offsets, chunk) == [] by {
        assert offsets[1..] == [];
      }
      assert buffer + [] == buffer;
    } else {
      var next := buffer + chunk(|buffer|);
      FetchedIsChunks(next, size, chunk);
      var rest := FetchOffsets(next, size, chunk);
      assert offsets[1..] == rest;
      AppendAssociative(buffer, chunk(|buffer|), Chunks(rest, chunk));
    }
  }

  /** When every chunk brings bytes, the loop ends holding at least `size` bytes. */
  lemma FetchedReachesSize(buffer: seq<Byte>, size: nat, chunk: nat -> seq<Byte>)
    requires forall offset :: |chunk(offset)| > 0
    ensures |Fetched(buffer, size, chunk)| >= size
  {
  }

  /** The bytes held after `n` turns of the loop as written, which appends whatever the
      answer brings (`new Uint8Array(binary!)` is empty for an empty or missing blob) and
      tests only `buffer.byteLength < length`. */
  function AsWrittenHeld(buffer: seq<Byte>, size: nat, chunk: nat -> seq<Byte>, n: nat): (data: seq<Byte>)
    ensures |data| >= |buffer|
    decreases n
  {
    if n == 0 || |buffer| >= size then buffer
    else AsWrittenHeld(buffer + chunk(|buffer|), size, chunk, n - 1)
  }

  /** As written, once the answer for the current offset is empty the loop holds the same
      bytes, still fewer than `size`, after any number of turns: it never ends. */
  lemma {:induction false} EmptyChunkNeverEnds(buffer: seq<Byte>, size: nat, chunk: nat -> seq<Byte>, n: nat)
    requires |buffer| < size && chunk(|buffer|) == []
    ensures AsWrittenHeld(buffer, size, chunk, n) == buffer
    ensures |AsWrittenHeld(buffer, size, chunk, n)| < size
  {
    if n > 0 {
      assert buffer + chunk(|buffer|) == buffer;
      EmptyChunkNeverEnds(buffer, size, chunk, n - 1);
    }
  }

  /** When every chunk brings bytes, the loop as written and the one that stops on an empty
      chunk hold the same bytes once it has had enough turns. */
  lemma {:induction false} AsWrittenAgrees(buffer: seq<Byte>, size: nat, chunk: nat -> seq<Byte>, n: nat)
    requires forall offset :: |chunk(offset)| > 0
    requires n >= size - |buffer|
    ensures AsWrittenHeld(buffer, size, chunk, n) == Fetched(buffer, size, chunk)
    decreases n
  {
    if n > 0 && |buffer| < size {
      AsWrittenAgrees(buffer + chunk(|buffer|), size, chunk, n - 1);
    }
  }

  /** The number `+values.get('size')!` gives: NaN when the key is absent. */
  function SizeOf(values: ValueMap): JsNumber
  {
    if "size" in values then ToNumber(values["size"]) else NaN
  }

  /** The request for the bytes from `offset` on. */
  function ChunkRequest(cmd: string, offset: nat): string
  {
    cmd + " " + NatToString(offset)
  }

  /** The requests for a list of offsets, in order. */
  function ChunkRequests(cmd: string, offsets: seq<nat>): (requests: seq<string>)
    ensures |requests| == |offsets|
    ensures forall k :: 0 <= k < |offsets| ==> requests[k] == ChunkRequest(cmd, offsets[k])
  {
    if |offsets| == 0 then [] else [ChunkRequest(cmd, offsets[0])] + ChunkRequests(cmd, offsets[1..])
  }

  /** `downloadPicture`: `first` answers the request for offset 0 and `chunk` gives the
      binary answer to each later request. Without a record or a binary part in the first
      answer there is no picture; otherwise the loop fetches until `size` bytes are held (not
      at all when `size` is not a number) or an answer brings no bytes. `requests` lists the
      commands sent. */
  method DownloadPicture(cmd: string, first: MPDResponse, chunk: nat -> seq<Byte>)
    returns (picture: Option<Picture>, requests: seq<string>)
    ensures picture.None? <==> Records(first.lines, []) == [] || first.binary.None?
    ensures |requests| >= 1 && requests[0] == ChunkRequest(cmd, 0)
    ensures picture.None? ==> requests == [ChunkRequest(cmd, 0)]
    ensures picture.Some? ==>
      var values := Records(first.lines, [])[0];
      var size := if SizeOf(values).Finite? then SizeOf(values).value else 0;
      && picture.value == Picture(Fetched(first.binary.value, size, chunk), Get(values, "type"))
      && requests == [ChunkRequest(cmd, 0)] + ChunkRequests(cmd, FetchOffsets(first.binary.value, size, chunk))
  {
    requests := [ChunkRequest(cmd, 0)];
    var records := Parse(first.lines, [], (valueMap: ValueMap) => valueMap);
    if |records| > 0 && first.binary.Some? {
      var values := records[0];
      var length := SizeOf(values);
      var size := if length.Finite? then length.value else 0;
      var buffer := first.binary.value;
      var stalled := false;
      while !stalled && length.Finite? && |buffer| < length.value
        invariant !stalled ==> Fetched(buffer, size, chunk) == Fetched(first.binary.value, size, chunk)
        invariant !stalled ==> (requests + ChunkRequests(cmd, FetchOffsets(buffer, size, chunk)) ==
          [ChunkRequest(cmd, 0)] + ChunkRequests(cmd, FetchOffsets(first.binary.value, size, chunk)))
        invariant stalled ==> buffer == Fetched(first.binary.value, size, chunk)
        invariant stalled ==>
          requests == [ChunkRequest(cmd, 0)] + ChunkRequests(cmd, FetchOffsets(first.binary.value, size, chunk))
        decreases size - |buffer|, if stalled then 0 else 1
      {
        var received := chunk(|buffer|);
        var request := ChunkRequest(cmd, |buffer|);
        if |received| == 0 {
          assert FetchOffsets(buffer, size, chunk) == [|buffer|];
          assert ChunkRequests(cmd, [|buffer|]) == [request];
          requests := requests + [request];
          stalled := true;
        } else {
          var next := buffer + received;
          var rest := FetchOffsets(next, size, chunk);
          assert FetchOffsets(buffer, size, chunk) == [|buffer|] + rest;
          assert ChunkRequests(cmd, [|buffer|] + rest) == [request] + ChunkRequests(cmd, rest) by {
            assert ([|buffer|] + rest)[1..] == rest;
          }
          AppendAssociative(requests, [request], ChunkRequests(cmd, rest));
          requests := requests + [request];
          buffer := next;
        }
      }
      if !stalled {
        assert FetchOffsets(buffer, size, chunk) == [];
        AppendEmpty(requests);
      }
      picture := Some(Picture(buffer, Get(values, "type")));
    } else {
      picture := None;
    }
  }
}
