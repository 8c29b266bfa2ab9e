/** The response grouper of src/transform.ts (`groupResponseLines`): tokens in, protocol
    units out (the greeting, a success with its lines and binary payload, or a failure),
    following the response syntax of the Music Player Daemon protocol. */
module ResponseGrouping {
  import opened Wrappers
  import opened Text
  import opened Responses
  import opened FrameDecoding

  const GreetingPrefix := "OK MPD "

  /** A non-empty run of decimal digits followed by the character `c`: the value of the
      digits and the text after `c`. */
  function NumberThen(s: string, c: char): (r: Option<(nat, string)>)
    ensures r.Some? ==> |r.value.1| < |s|
    ensures r.Some? ==> var d := LeadingDigits(s);
      d != "" && s == d + [c] + r.value.1 && r.value.0 == DigitsValue(d)
  {
    var d := LeadingDigits(s);
    if d == "" || |s| == |d| || s[|d|] != c then None
    else Some((DigitsValue(d), s[|d| + 1..]))
  }

  lemma NumberThenOf(n: nat, c: char, rest: string)
    requires !IsDigit(c)
    ensures NumberThen(NatToString(n) + [c] + rest, c) == Some((n, rest))
  {
    DigitsThen(NatToString(n), c, rest);
    DigitsValueOfNatToString(n);
  }

  /** `/^OK MPD ([0-9]+)\.([0-9]+)\.([0-9]+)/` on a line: the version it announces.
      Each group takes the longest digit run, which is the only way the pattern can match;
      anything may follow the third number. */
  function MatchGreeting(line: string): (v: Option<Version>)
    ensures v.Some? ==> StartsWith(line, GreetingPrefix)
  {
    if !StartsWith(line, GreetingPrefix) then None
    else
      match NumberThen(line[7..], '.')
      case None => None
      case Some(major) =>
        match NumberThen(major.1, '.')
        case None => None
        case Some(minor) =>
          var patch := LeadingDigits(minor.1);
          if patch == "" then None
          else Some(Version(major.0, minor.0, DigitsValue(patch)))
  }

  /** The text of a greeting announcing `v`. */
  function Greeting(v: Version): string
  {
    GreetingPrefix + NatToString(v.major) + "." + NatToString(v.minor) + "." + NatToString(v.patch)
  }

  /** A line made of the greeting prefix, three digit runs separated by dots and a tail. */
  function GreetingText(major: string, minor: string, patch: string, rest: string): string
  {
    GreetingPrefix + major + "." + minor + "." + patch + rest
  }

  /** Three non-empty digit runs (leading zeros allowed) and a tail not starting with a
      digit: the parts the greeting pattern can match a line as, with each group taking the
      longest run. */
  predicate GreetingParts(major: string, minor: string, patch: string, rest: string)
  {
    && major != "" && AllDigits(major)
    && minor != "" && AllDigits(minor)
    && patch != "" && AllDigits(patch)
    && (rest == "" || !IsDigit(rest[0]))
  }

  /** Every line of that shape matches, announcing the values of its three digit runs. */
  lemma MatchGreetingOfParts(major: string, minor: string, patch: string, rest: string)
    requires GreetingParts(major, minor, patch, rest)
    ensures MatchGreeting(GreetingText(major, minor, patch, rest)) ==
      Some(Version(DigitsValue(major), DigitsValue(minor), DigitsValue(patch)))
  {
    var s2 := patch + rest;
    var s1 := minor + "." + s2;
    var s0 := major + "." + s1;
    var line := GreetingText(major, minor, patch, rest);
    PartsShape(major, minor, patch, rest);
    assert line[..7] == GreetingPrefix;
    assert line[7..] == s0;
    DigitsThen(major, '.', s1);
    DigitsThen(minor, '.', s2);
    LeadingDigitsOfDigits(patch, rest);
  }

  /** A line the greeting pattern matches has exactly that shape, and the version is the
      value of its three digit runs. */
  lemma MatchedGreetingParts(line: string)
    requires MatchGreeting(line).Some?
    ensures exists major, minor, patch, rest ::
      && GreetingParts(major, minor, patch, rest)
      && line == GreetingText(major, minor, patch, rest)
      && MatchGreeting(line).value == Version(DigitsValue(major), DigitsValue(minor), DigitsValue(patch))
  {
    var major, minor, patch, rest := MatchedPieces(line);
    PartsWitness(line, major, minor, patch, rest, MatchGreeting(line).value);
  }

  lemma PartsWitness(line: string, major: string, minor: string, patch: string, rest: string, v: Version)
    requires GreetingParts(major, minor, patch, rest)
    requires line == GreetingText(major, minor, patch, rest)
    requires v == Version(DigitsValue(major), DigitsValue(minor), DigitsValue(patch))
    ensures exists major, minor, patch, rest ::
      && GreetingParts(major, minor, patch, rest)
      && line == GreetingText(major, minor, patch, rest)
      && v == Version(DigitsValue(major), DigitsValue(minor), DigitsValue(patch))
  {
  }

  /** The digit runs and the tail of a matched greeting. */
  lemma MatchedPieces(line: string) returns (major: string, minor: string, patch: string, rest: string)
    requires MatchGreeting(line).Some?
    ensures GreetingParts(major, minor, patch, rest)
    ensures line == GreetingText(major, minor, patch, rest)
    ensures MatchGreeting(line).value == Version(DigitsValue(major), DigitsValue(minor), DigitsValue(patch))
  {
    var s0 := line[7..];
    assert line == GreetingPrefix + s0 by {
      assert line[..7] == GreetingPrefix;
    }
    var s1 := NumberThen(s0, '.').value.1;
    var s2 := NumberThen(s1, '.').value.1;
    major, minor, patch := LeadingDigits(s0), LeadingDigits(s1), LeadingDigits(s2);
    rest := s2[|patch|..];
    assert s2 == patch + rest;
    Regroup(line, s0, major, s1, minor, s2, patch, rest);
  }

  /** The greeting text reassembled from its pieces. */
  lemma Regroup(line: string, s0: string, major: string, s1: string, minor: string, s2: string,
                patch: string, rest: string)
    requires line == GreetingPrefix + s0
    requires s0 == major + ['.'] + s1 && s1 == minor + ['.'] + s2 && s2 == patch + rest
    ensures line == GreetingText(major, minor, patch, rest)
  {
    PartsShape(major, minor, patch, rest);
  }

  lemma DigitsThen(d: string, c: char, rest: string)
    requires d != "" && AllDigits(d) && !IsDigit(c)
    ensures NumberThen(d + [c] + rest, c) == Some((DigitsValue(d), rest))
  {
    var s := d + [c] + rest;
    assert s == d + ([c] + rest);
    LeadingDigitsOfDigits(d, [c] + rest);
    assert s[|d|] == c;
    assert s[|d| + 1..] == rest;
  }

  /** The greeting text regrouped around its separators. */
  lemma PartsShape(major: string, minor: string, patch: string, rest: string)
    ensures GreetingText(major, minor, patch, rest) ==
      GreetingPrefix + (major + "." + (minor + "." + (patch + rest)))
  {
  }

  /** The greeting `OK MPD x.y.z` yields the version (x, y, z), whatever non-digit text
      follows it. */
  lemma GreetingVersion(v: Version, rest: string)
    requires rest == "" || !IsDigit(rest[0])
    ensures MatchGreeting(Greeting(v) + rest) == Some(v)
  {
    var a, b, c := NatToString(v.major), NatToString(v.minor), NatToString(v.patch);
    assert Greeting(v) + rest == GreetingText(a, b, c, rest);
    MatchGreetingOfParts(a, b, c, rest);
    DigitsValueOfNatToString(v.major);
    DigitsValueOfNatToString(v.minor);
    DigitsValueOfNatToString(v.patch);
  }

  /** The characters JavaScript's `.` does not match. */
  predicate IsLineTerminator(c: char)
  {
    c == '\n' || c == '\r' || c == '\U{2028}' || c == '\U{2029}'
  }

  /** What `(.*)` captures: the text up to the first line terminator. */
  function UpToLineTerminator(s: string): (r: string)
    ensures StartsWith(s, r)
    ensures forall i :: 0 <= i < |r| ==> !IsLineTerminator(r[i])
    ensures |r| < |s| ==> IsLineTerminator(s[|r|])
  {
    if |s| == 0 || IsLineTerminator(s[0]) then "" else [s[0]] + UpToLineTerminator(s[1..])
  }

  const AckPrefix := "ACK ["

  /** `/ACK \[([0-9]+)@[0-9]+\] \{[^\}]*\} (.*)/` matched at the very start of `s`: the code
      and the message. `[^\}]*\}` can only end at the first closing brace. */
  function MatchFailureAt(s: string): Option<(nat, string)>
  {
    if !StartsWith(s, AckPrefix) then None
    else
      match NumberThen(s[5..], '@')
      case None => None
      case Some(code) =>
        match NumberThen(code.1, ']')
        case None => None
        case Some(index) =>
          if !StartsWith(index.1, " {") then None
          else
            var command := index.1[2..];
            var close := IndexOf(command, '}');
            if close < 0 || !StartsWith(command[close..], "} ") then None
            else Some((code.0, UpToLineTerminator(command[close + 2..])))
  }

  /** `failureRegExp.exec(s)`: the pattern is not anchored, so the leftmost position where
      it matches wins. */
  function FindFailure(s: string): Option<(nat, string)>
    decreases |s|
  {
    match MatchFailureAt(s)
    case Some(m) => Some(m)
    case None => if s == "" then None else FindFailure(s[1..])
  }

  const UnknownErrorPrefix := "Unknown error: "

  /** The failure an `ACK [` line stands for: the parsed code and message, or code -1 and
      `Unknown error: <line>` when the pattern does not match. */
  function FailureOf(line: string): (e: MPDError)
    ensures e.errorCode == -1 <==> FindFailure(line).None?
    ensures e.errorCode == -1 ==> e.errorMessage == UnknownErrorPrefix + line
  {
    match FindFailure(line)
    case Some(m) => MPDError(m.0, m.1)
    case None => MPDError(-1, UnknownErrorPrefix + line)
  }

  /** The text of a failure line. */
  function AckLine(code: nat, index: nat, command: string, message: string): string
  {
    AckPrefix + NatToString(code) + "@" + NatToString(index) + "] {" + command + "} " + message
  }

  /** After the two numbers: the command name up to the first `}` and the message. */
  lemma CommandAndMessage(command: string, message: string)
    requires '}' !in command
    ensures var t := command + "} " + message;
      && IndexOf(t, '}') == |command|
      && t[|command|..] == "} " + message
      && t[|command| + 2..] == message
  {
    var t := command + "} " + message;
    assert t == (command + "}") + (" " + message);
    IndexOfAppend(command + "}", " " + message, '}');
    assert (command + "}")[..|command|] == command;
  }

  /** `ACK [code@index] {command} message` yields exactly that code and that message. */
  lemma FailureFields(code: nat, index: nat, command: string, message: string)
    requires '}' !in command
    requires forall i :: 0 <= i < |message| ==> !IsLineTerminator(message[i])
    ensures FailureOf(AckLine(code, index, command, message)) == MPDError(code, message)
  {
    AckLineMatches(code, index, command, message);
  }

  lemma AckLineMatches(code: nat, index: nat, command: string, message: string)
    requires '}' !in command
    requires forall i :: 0 <= i < |message| ==> !IsLineTerminator(message[i])
    ensures MatchFailureAt(AckLine(code, index, command, message)) == Some((code, message))
  {
    var t := command + "} " + message;
    var s2 := " {" + t;
    var s1 := NatToString(index) + "]" + s2;
    var s0 := NatToString(code) + "@" + s1;
    var line := AckLine(code, index, command, message);
    AckLineShape(code, index, command, message);
    assert line[..5] == AckPrefix;
    assert line[5..] == s0;
    NumberThenOf(code, '@', s1);
    NumberThenOf(index, ']', s2);
    assert s2[..2] == " {";
    assert s2[2..] == t;
    CommandAndMessage(command, message);
    UpToWholeLine(message);
  }

  /** The failure line regrouped around its separators. */
  lemma AckLineShape(code: nat, index: nat, command: string, message: string)
    ensures AckLine(code, index, command, message) ==
      AckPrefix + (NatToString(code) + "@" + (NatToString(index) + "]" + (" {" + (command + "} " + message))))
  {
  }

  lemma {:induction false} UpToWholeLine(s: string)
    requires forall i :: 0 <= i < |s| ==> !IsLineTerminator(s[i])
    ensures UpToLineTerminator(s) == s
  {
    if |s| > 0 {
      UpToWholeLine(s[1..]);
    }
  }

  /** The grouper's state: the flags `initialized` and `receivingList` and the response
      being accumulated. */
  datatype GrouperState = GrouperState(initialized: bool, receivingList: bool, currentResponse: MPDResponse)

  const InitialState := GrouperState(false, false, EmptyResponse)

  /** What one call of `transform` does to the output stream. */
  datatype Output = Nothing | Emit(unit: ResponseUnit) | StreamError(reason: string)

  datatype Grouped = Grouped(state: GrouperState, output: Output)

  /** How a token prints in a template literal. */
  function Describe(t: Token): string
  {
    match t
    case TextLine(text) => text
    case BinaryBlob(_) => "[object ArrayBuffer]"
  }

  /** One call of `transform`, as the code is written. */
  function GroupStep(s: GrouperState, t: Token): (r: Grouped)
    ensures r.output.Emit? && r.output.unit.InitialResponse? ==> !s.initialized
    ensures s.initialized ==> !r.output.StreamError? && r.state.initialized
  {
    if !s.initialized then
      if t.TextLine? && MatchGreeting(t.text).Some? then
        Grouped(s.(initialized := true), Emit(InitialResponse(MatchGreeting(t.text).value)))
      else
        Grouped(s, StreamError("Unexpected initial message: " + Describe(t)))
    else
      match t
      case TextLine(line) =>
        if line == "OK" then
          if !s.receivingList then Grouped(GrouperState(true, false, EmptyResponse), Emit(Success(s.currentResponse)))
          else Grouped(s.(receivingList := false), Nothing)
        else if line == "list_OK" then
          Grouped(GrouperState(true, true, EmptyResponse), Emit(Success(s.currentResponse)))
        else if StartsWith(line, AckPrefix) then
          Grouped(s.(currentResponse := EmptyResponse), Emit(Failure(FailureOf(line))))
        else
          Grouped(s.(currentResponse := s.currentResponse.(lines := s.currentResponse.lines + [line])), Nothing)
      case BinaryBlob(data) =>
        Grouped(s.(currentResponse := s.currentResponse.(binary := Some(data))), Nothing)
  }

  /** `GroupStep` with the intent the `ACK` branch evidently has: a failure also ends an
      open command list, since the daemon abandons the rest of the list. */
  function CorrectedGroupStep(s: GrouperState, t: Token): (r: Grouped)
    ensures s.initialized && t.TextLine? && StartsWith(t.text, AckPrefix) ==> !r.state.receivingList
  {
    var r := GroupStep(s, t);
    if s.initialized && t.TextLine? && StartsWith(t.text, AckPrefix)
    then Grouped(r.state.(receivingList := false), r.output)
    else r
  }

  /** One step of the grouper on token `t`, as written or corrected. */
  function StepWith(s: GrouperState, t: Token, corrected: bool): Grouped
  {
    if corrected then CorrectedGroupStep(s, t) else GroupStep(s, t)
  }

  /** The units a token sequence produces, the state left behind, and the reason the
      stream was errored, if it was (nothing after that is read). */
  datatype GroupedAll = GroupedAll(state: GrouperState, units: seq<ResponseUnit>, error: Option<string>)

  function GroupAll(s: GrouperState, ts: seq<Token>, corrected: bool): GroupedAll
    decreases |ts|
  {
    if |ts| == 0 then GroupedAll(s, [], None)
    else
      var r := StepWith(s, ts[0], corrected);
      match r.output
      case StreamError(reason) => GroupedAll(r.state, [], Some(reason))
      case Nothing => GroupAll(r.state, ts[1..], corrected)
      case Emit(u) =>
        var rest := GroupAll(r.state, ts[1..], corrected);
        GroupedAll(rest.state, [u] + rest.units, rest.error)
  }

  /** Once initialized, the grouper never produces a greeting again and never errors. */
  lemma {:induction false} NoGreetingAfterInitialization(s: GrouperState, ts: seq<Token>, corrected: bool)
    requires s.initialized
    ensures GroupAll(s, ts, corrected).error.None?
    ensures forall i :: 0 <= i < |GroupAll(s, ts, corrected).units| ==>
      !GroupAll(s, ts, corrected).units[i].InitialResponse?
    decreases |ts|
  {
    if |ts| > 0 {
      var r := StepWith(s, ts[0], corrected);
      NoGreetingAfterInitialization(r.state, ts[1..], corrected);
    }
  }

  /** From the start of a connection the first unit is the greeting and no other unit is;
      a first token that is not a greeting line errors the stream without any unit. */
  lemma GreetingComesFirst(ts: seq<Token>, corrected: bool)
    ensures var g := GroupAll(InitialState, ts, corrected);
      && (|g.units| > 0 ==> g.units[0].InitialResponse?)
      && (forall i :: 1 <= i < |g.units| ==> !g.units[i].InitialResponse?)
      && (|ts| > 0 && !(ts[0].TextLine? && MatchGreeting(ts[0].text).Some?) ==>
            g.units == [] && g.error == Some("Unexpected initial message: " + Describe(ts[0])))
  {
    if |ts| > 0 {
      var r := StepWith(InitialState, ts[0], corrected);
      if r.output.Emit? {
        NoGreetingAfterInitialization(r.state, ts[1..], corrected);
      }
    }
  }

  /** A content line: not a terminator and not a failure. */
  predicate ContentLine(line: string)
  {
    line != "OK" && line != "list_OK" && !StartsWith(line, AckPrefix)
  }

  function TextLines(lines: seq<string>): (ts: seq<Token>)
    ensures |ts| == |lines|
    ensures forall i :: 0 <= i < |lines| ==> ts[i] == TextLine(lines[i])
  {
    seq(|lines|, i requires 0 <= i < |lines| => TextLine(lines[i]))
  }

  lemma ContentStep(s: GrouperState, line: string, corrected: bool)
    requires s.initialized && ContentLine(line)
    ensures StepWith(s, TextLine(line), corrected) ==
      Grouped(s.(currentResponse := s.currentResponse.(lines := s.currentResponse.lines + [line])), Nothing)
  {
  }

  /** `OK` ends a single command's response, or, inside a list, the list itself. */
  lemma OkStep(s: GrouperState, corrected: bool)
    requires s.initialized
    ensures StepWith(s, TextLine("OK"), corrected) ==
      if s.receivingList then Grouped(s.(receivingList := false), Nothing)
      else Grouped(Ready, Emit(Success(s.currentResponse)))
  {
    assert !StartsWith("OK", AckPrefix);
  }

  /** `list_OK` ends the response of a list member and keeps the list open. */
  lemma ListOkStep(s: GrouperState, corrected: bool)
    requires s.initialized
    ensures StepWith(s, TextLine("list_OK"), corrected) ==
      Grouped(GrouperState(true, true, EmptyResponse), Emit(Success(s.currentResponse)))
  {
    assert "list_OK"[..5][0] == 'l';
    assert !StartsWith("list_OK", AckPrefix);
  }

  /** Content lines are appended, in order, to the current response and produce nothing. */
  lemma {:induction false} ContentAccumulates(s: GrouperState, body: seq<string>, rest: seq<Token>, corrected: bool)
    requires s.initialized
    requires forall i :: 0 <= i < |body| ==> ContentLine(body[i])
    ensures GroupAll(s, TextLines(body) + rest, corrected) ==
      GroupAll(s.(currentResponse := s.currentResponse.(lines := s.currentResponse.lines + body)), rest, corrected)
    decreases |body|
  {
    if |body| == 0 {
      assert TextLines(body) + rest == rest;
      assert s.currentResponse.lines + body == s.currentResponse.lines;
    } else {
      var ts := TextLines(body) + rest;
      var s1 := s.(currentResponse := s.currentResponse.(lines := s.currentResponse.lines + [body[0]]));
      ContentStep(s, body[0], corrected);
      assert ts[0] == TextLine(body[0]);
      assert GroupAll(s, ts, corrected) == GroupAll(s1, ts[1..], corrected);
      assert ts[1..] == TextLines(body[1..]) + rest;
      ContentAccumulates(s1, body[1..], rest, corrected);
      assert s1.currentResponse.lines + body[1..] == s.currentResponse.lines + body;
    }
  }

  /** State between responses: initialized, outside a list, nothing accumulated. */
  const Ready := GrouperState(true, false, EmptyResponse)

  /** A single command's response: its content lines, then `OK`, give one success holding
      exactly those lines. */
  lemma SingleResponse(body: seq<string>, corrected: bool)
    requires forall i :: 0 <= i < |body| ==> ContentLine(body[i])
    ensures GroupAll(Ready, TextLines(body) + [TextLine("OK")], corrected) ==
      GroupedAll(Ready, [Success(MPDResponse(body, None))], None)
  {
    ContentAccumulates(Ready, body, [TextLine("OK")], corrected);
    assert EmptyResponse.lines + body == body;
    OkStep(GrouperState(true, false, MPDResponse(body, None)), corrected);
  }

  /** The daemon's reply to a command list of `command_list_ok_begin`: each member's lines
      closed by `list_OK`, and one `OK` at the end. */
  function ListReply(bodies: seq<seq<string>>): seq<Token>
  {
    if |bodies| == 0 then [TextLine("OK")]
    else TextLines(bodies[0]) + [TextLine("list_OK")] + ListReply(bodies[1..])
  }

  function Successes(bodies: seq<seq<string>>): (units: seq<ResponseUnit>)
    ensures |units| == |bodies|
    ensures forall k :: 0 <= k < |bodies| ==> units[k] == Success(MPDResponse(bodies[k], None))
  {
    seq(|bodies|, k requires 0 <= k < |bodies| => Success(MPDResponse(bodies[k], None)))
  }

  /** A command list with N members yields exactly N successes, each holding only the
      lines between its own boundaries, and the final `OK` yields nothing. */
  lemma {:induction false} CommandListResponses(bodies: seq<seq<string>>, receivingList: bool, corrected: bool)
    requires forall k, i :: 0 <= k < |bodies| && 0 <= i < |bodies[k]| ==> ContentLine(bodies[k][i])
    requires |bodies| > 0 || receivingList
    ensures GroupAll(GrouperState(true, receivingList, EmptyResponse), ListReply(bodies), corrected) ==
      GroupedAll(Ready, Successes(bodies), None)
    decreases |bodies|
  {
    var s := GrouperState(true, receivingList, EmptyResponse);
    if |bodies| == 0 {
      OkStep(s, corrected);
      assert Successes(bodies) == [];
    } else {
      var rest := [TextLine("list_OK")] + ListReply(bodies[1..]);
      assert ListReply(bodies) == TextLines(bodies[0]) + rest;
      ContentAccumulates(s, bodies[0], rest, corrected);
      assert EmptyResponse.lines + bodies[0] == bodies[0];
      var s1 := GrouperState(true, receivingList, MPDResponse(bodies[0], None));
      var inList := GrouperState(true, true, EmptyResponse);
      ListOkStep(s1, corrected);
      assert rest[0] == TextLine("list_OK") && rest[1..] == ListReply(bodies[1..]);
      CommandListResponses(bodies[1..], true, corrected);
      assert GroupAll(s1, rest, corrected) ==
        GroupedAll(Ready, [Success(MPDResponse(bodies[0], None))] + Successes(bodies[1..]), None);
      assert [Success(MPDResponse(bodies[0], None))] + Successes(bodies[1..]) == Successes(bodies);
    }
  }

  /** A blob sets the binary payload of the current response: a blob then `OK` give one
      success with no lines and exactly that payload. */
  lemma BinaryResponse(data: seq<Byte>, corrected: bool)
    ensures GroupAll(Ready, [BinaryBlob(data), TextLine("OK")], corrected) ==
      GroupedAll(Ready, [Success(MPDResponse([], Some(data)))], None)
  {
    var s1 := GrouperState(true, false, MPDResponse([], Some(data)));
    assert StepWith(Ready, BinaryBlob(data), corrected) == Grouped(s1, Nothing);
    var ts := [BinaryBlob(data), TextLine("OK")];
    assert ts[1..] == [TextLine("OK")];
    OkStep(s1, corrected);
    assert GroupAll(s1, ts[1..], corrected) == GroupedAll(Ready, [Success(MPDResponse([], Some(data)))], None);
  }

  /** The bytes of a binary reply: `binary: N`, the N bytes, the delimiter, then `OK`. */
  function BlobReplyBytes(data: seq<Byte>): seq<Byte>
  {
    Bytes(BlobHeader(|data|)) + [LineFeed] + data + [LineFeed] + Bytes("OK") + [LineFeed]
  }

  lemma BlobReplyDecode(data: seq<Byte>)
    ensures Decode(BlobReplyBytes(data), NoBlob) == Decoded([BinaryBlob(data), TextLine("OK")], [], NoBlob)
  {
    var ts := [BinaryBlob(data), TextLine("OK")];
    assert SendableLine("OK");
    var e0 := Bytes(BlobHeader(|data|)) + [LineFeed] + data + [LineFeed];
    var e1 := Bytes("OK") + [LineFeed];
    assert EncodeToken(ts[0]) == e0;
    assert EncodeToken(ts[1]) == e1;
    assert ts[1..][1..] == [];
    assert Encode(ts[1..]) == e1 + [];
    assert Encode(ts) == e0 + e1;
    AppendAssociative(e0, Bytes("OK"), [LineFeed]);
    DecodeEncode(ts);
  }

  /** A binary reply such as `binary: 5\nHELLO\nOK\n`, after the greeting, whatever bytes
      it carries (line feeds included), yields one success with no lines and exactly those
      bytes as its payload, and leaves nothing buffered. */
  lemma BlobReply(data: seq<Byte>)
    ensures var d := Decode(BlobReplyBytes(data), NoBlob);
      && d == Decoded([BinaryBlob(data), TextLine("OK")], [], NoBlob)
      && GroupAll(Ready, d.tokens, false) == GroupedAll(Ready, [Success(MPDResponse([], Some(data)))], None)
  {
    BlobReplyDecode(data);
    BinaryResponse(data, false);
  }

  lemma AckIsNoTerminator(ack: string)
    requires StartsWith(ack, AckPrefix)
    ensures ack != "OK" && ack != "list_OK"
  {
    assert ack[0] == ack[..5][0] == 'A';
  }

  /** An `ACK` line emits its failure and discards the current response. As written it
      leaves `receivingList` as it was; corrected, it clears it. */
  lemma AckStep(s: GrouperState, ack: string, corrected: bool)
    requires s.initialized && StartsWith(ack, AckPrefix)
    ensures StepWith(s, TextLine(ack), corrected) ==
      Grouped(GrouperState(true, s.receivingList && !corrected, EmptyResponse), Emit(Failure(FailureOf(ack))))
  {
    AckIsNoTerminator(ack);
  }

  /** As written, an `ACK` inside a command list leaves `receivingList` set, so the `OK`
      ending the reply to the next single command emits nothing: that command's response
      is never delivered, and its lines stay in the grouper for the response after it. */
  lemma AckLeavesListOpen(current: MPDResponse, ack: string, body: seq<string>)
    requires StartsWith(ack, AckPrefix)
    requires forall i :: 0 <= i < |body| ==> ContentLine(body[i])
    ensures GroupAll(GrouperState(true, true, current), [TextLine(ack)] + TextLines(body) + [TextLine("OK")], false) ==
      GroupedAll(GrouperState(true, false, MPDResponse(body, None)), [Failure(FailureOf(ack))], None)
  {
    var s := GrouperState(true, true, current);
    var ts := [TextLine(ack)] + TextLines(body) + [TextLine("OK")];
    var s1 := GrouperState(true, true, EmptyResponse);
    var rest := GroupAll(s1, ts[1..], false);
    assert rest == GroupedAll(GrouperState(true, false, MPDResponse(body, None)), [], None) by {
      assert ts[1..] == TextLines(body) + [TextLine("OK")];
      ContentAccumulates(s1, body, [TextLine("OK")], false);
      assert EmptyResponse.lines + body == body;
      OkStep(GrouperState(true, true, MPDResponse(body, None)), false);
    }
    assert GroupAll(s, ts, false) == GroupedAll(rest.state, [Failure(FailureOf(ack))] + rest.units, rest.error) by {
      AckStep(s, ack, false);
      assert ts[0] == TextLine(ack);
    }
  }

  /** With the correction, an `ACK` closes the list, so the next command's reply is
      delivered: a failure, then the following content and `OK`, give the failure and a
      success with that content, whatever state the list was in. */
  lemma CorrectedAckEndsList(receivingList: bool, current: MPDResponse, ack: string, body: seq<string>)
    requires StartsWith(ack, AckPrefix)
    requires forall i :: 0 <= i < |body| ==> ContentLine(body[i])
    ensures GroupAll(GrouperState(true, receivingList, current), [TextLine(ack)] + TextLines(body) + [TextLine("OK")], true) ==
      GroupedAll(Ready, [Failure(FailureOf(ack)), Success(MPDResponse(body, None))], None)
  {
    var s := GrouperState(true, receivingList, current);
    var ts := [TextLine(ack)] + TextLines(body) + [TextLine("OK")];
    var rest := GroupAll(Ready, ts[1..], true);
    assert rest == GroupedAll(Ready, [Success(MPDResponse(body, None))], None) by {
      assert ts[1..] == TextLines(body) + [TextLine("OK")];
      SingleResponse(body, true);
    }
    assert GroupAll(s, ts, true) == GroupedAll(rest.state, [Failure(FailureOf(ack))] + rest.units, rest.error) by {
      AckStep(s, ack, true);
      assert ts[0] == TextLine(ack);
    }
  }

  /** The reply to a command list whose first member succeeds and whose second fails
      (`list_OK`, then the `ACK`), followed by the reply to one more command. As written the
      third command's success is missing; corrected, it is delivered. */
  lemma FailedListThenCommand(ack: string, body: seq<string>)
    requires StartsWith(ack, AckPrefix)
    requires forall i :: 0 <= i < |body| ==> ContentLine(body[i])
    ensures var ts := [TextLine("list_OK"), TextLine(ack)] + TextLines(body) + [TextLine("OK")];
      && GroupAll(Ready, ts, false).units == [Success(EmptyResponse), Failure(FailureOf(ack))]
      && GroupAll(Ready, ts, true).units == [Success(EmptyResponse), Failure(FailureOf(ack)), Success(MPDResponse(body, None))]
  {
    var ts := [TextLine("list_OK"), TextLine(ack)] + TextLines(body) + [TextLine("OK")];
    var inList := GrouperState(true, true, EmptyResponse);
    assert ts[0] == TextLine("list_OK");
    assert ts[1..] == [TextLine(ack)] + TextLines(body) + [TextLine("OK")];
    ListOkStep(Ready, false);
    ListOkStep(Ready, true);
    AckLeavesListOpen(EmptyResponse, ack, body);
    CorrectedAckEndsList(true, EmptyResponse, ack, body);
    assert GroupAll(Ready, ts, false).units == [Success(EmptyResponse)] + GroupAll(inList, ts[1..], false).units;
    assert GroupAll(Ready, ts, true).units == [Success(EmptyResponse)] + GroupAll(inList, ts[1..], true).units;
  }

  /** The grouper of one connection (the closure state of `groupResponseLines`). */
  class ResponseGrouper {
    var initialized: bool
    var receivingList: bool
    var currentResponse: MPDResponse

    function State(): GrouperState
      reads this
    {
      GrouperState(initialized, receivingList, currentResponse)
    }

    constructor ()
      ensures State() == InitialState
    {
      initialized := false;
      receivingList := false;
      currentResponse := EmptyResponse;
    }

    /** `transform`: consume one token. `controller.enqueue` becomes `Emit`, and
        `controller.error` becomes `StreamError`. */
    method Transform(data: Token) returns (out: Output)
      modifies this
      ensures Grouped(State(), out) == GroupStep(old(State()), data)
    {
      if !initialized {
        if data.TextLine? {
          var version := MatchGreeting(data.text);
          if version.Some? {
            initialized := true;
            return Emit(InitialResponse(version.value));
          }
        }
        return StreamError("Unexpected initial message: " + Describe(data));
      } else if data.TextLine? {
        var line := data.text;
        if line == "OK" {
          out := Nothing;
          if !receivingList {
            out := Emit(Success(currentResponse));
            currentResponse := EmptyResponse;
          }
          receivingList := false;
        } else if line == "list_OK" {
          out := Emit(Success(currentResponse));
          currentResponse := EmptyResponse;
          receivingList := true;
        } else if StartsWith(line, AckPrefix) {
          out := Emit(Failure(FailureOf(line)));
          currentResponse := EmptyResponse;
        } else {
          currentResponse := currentResponse.(lines := currentResponse.lines + [line]);
          out := Nothing;
        }
      } else {
        currentResponse := currentResponse.(binary := Some(data.data));
        out := Nothing;
      }
    }
  }
}
