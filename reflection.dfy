/** The reflection commands of src/commands/reflection.ts: `config`, the command and URL
    handler lists, and the grouping of the `decoders` response into decoder plugins. */
module Reflection {
  import opened Wrappers
  import opened Text
  import opened Util

  // ---------------------------------------------------------------------------------
  // `config`, `commands`, `notCommands`, `urlHandlers`

  /** `config`: the one record `parse` builds without markers, absent when the response has
      no counted line. */
  method Config(lines: seq<string>) returns (config: Option<ValueMap>)
    ensures config.Some? <==> |Pairs(lines)| > 0
    ensures config.Some? ==> config.value == ValueMapOf(Pairs(lines))
  {
    var records := Parse(lines, [], (valueMap: ValueMap) => valueMap);
    if |Pairs(lines)| > 0 {
      NoMarkersSingleGroup(Pairs(lines));
    }
    if |records| > 0 {
      config := Some(records[0]);
    } else {
      config := None;
    }
  }

  /** `commands` and `notCommands`: each line minus `command: `. */
  function Commands(lines: seq<string>): (names: seq<string>)
    ensures |names| == |lines|
    ensures forall i :: 0 <= i < |lines| ==> names[i] == Drop(lines[i], 9)
  {
    DropEach(lines, 9)
  }

  /** `urlHandlers`: each line minus `handler: `. */
  function UrlHandlers(lines: seq<string>): (handlers: seq<string>)
    ensures |handlers| == |lines|
    ensures forall i :: 0 <= i < |lines| ==> handlers[i] == Drop(lines[i], 9)
  {
    DropEach(lines, 9)
  }

  /** The nine characters dropped are exactly `command: ` and `handler: `, so the names come
      back in order. */
  lemma CommandsRoundTrip(names: seq<string>)
    ensures Commands(KeyLines("command", names)) == names
    ensures UrlHandlers(KeyLines("handler", names)) == names
  {
    DropEachOfKeyLines("command", names);
    DropEachOfKeyLines("handler", names);
  }

  // ---------------------------------------------------------------------------------
  // `decoders`

  /** A decoder plugin with its suffixes and MIME types (`new Decoder(name)` starts with
      both lists empty). */
  datatype Decoder = Decoder(name: string, suffixes: seq<string>, mimeTypes: seq<string>)

  /** The loop state: the decoders pushed so far and the current one, if any. */
  datatype DecoderScan = DecoderScan(decoders: seq<Decoder>, current: Option<Decoder>)

  /** Pushing onto the current decoder before any `plugin` line reads a property of
      `undefined`, which throws. */
  const NoCurrentDecoder := UndefinedPropertyError

  predicate IsPluginLine(line: string) { StartsWith(line, "plugin") }
  predicate IsSuffixLine(line: string) { !IsPluginLine(line) && StartsWith(line, "suffix") }
  predicate IsMimeLine(line: string) { !IsPluginLine(line) && !IsSuffixLine(line) && StartsWith(line, "mime_type") }

  /** One line of the `forEach`. */
  function ScanLine(s: DecoderScan, line: string): Result<DecoderScan>
  {
    if IsPluginLine(line) then
      Ok(DecoderScan(s.decoders + (if s.current.Some? then [s.current.value] else []),
                     Some(Decoder(Drop(line, 8), [], []))))
    else if IsSuffixLine(line) then
      if s.current.None? then Err(NoCurrentDecoder)
      else Ok(s.(current := Some(s.current.value.(suffixes := s.current.value.suffixes + [Drop(line, 8)]))))
    else if IsMimeLine(line) then
      if s.current.None? then Err(NoCurrentDecoder)
      else Ok(s.(current := Some(s.current.value.(mimeTypes := s.current.value.mimeTypes + [Drop(line, 11)]))))
    else Ok(s)
  }

  /** The state after `lines`. */
  function Scan(lines: seq<string>): (r: Result<DecoderScan>)
    ensures r.Err? ==> r.message == NoCurrentDecoder
    ensures r.Ok? ==> |r.value.decoders| <= |lines|
  {
    if |lines| == 0 then Ok(DecoderScan([], None))
    else
      match Scan(lines[..|lines| - 1])
      case Err(m) => Err(m)
      case Ok(s) => ScanLine(s, lines[|lines| - 1])
  }

  /** What `decoders` returns as written: only the decoders pushed inside the loop. */
  function AsWrittenDecoders(lines: seq<string>): (r: Result<seq<Decoder>>)
    ensures r.Err? ==> r.message == NoCurrentDecoder
    ensures r.Ok? ==> |r.value| <= |lines|
  {
    match Scan(lines)
    case Err(m) => Err(m)
    case Ok(s) => Ok(s.decoders)
  }

  /** What `decoders` evidently means to return: the last decoder pushed too. */
  function CorrectedDecoders(lines: seq<string>): Result<seq<Decoder>>
  {
    match Scan(lines)
    case Err(m) => Err(m)
    case Ok(s) => Ok(s.decoders + if s.current.Some? then [s.current.value] else [])
  }

  /** `decoders` after the command is sent, as written. */
  method Decoders(lines: seq<string>) returns (r: Result<seq<Decoder>>)
    ensures r == AsWrittenDecoders(lines)
  {
    var decoders: seq<Decoder> := [];
    var currentDecoder: Option<Decoder> := None;
    var i := 0;
    while i < |lines|
      invariant 0 <= i <= |lines|
      invariant Scan(lines[..i]) == Ok(DecoderScan(decoders, currentDecoder))
    {
      var line := lines[i];
      assert lines[..i + 1][..i] == lines[..i];
      assert lines[..i + 1][i] == line;
      assert Scan(lines[..i + 1]) == ScanLine(DecoderScan(decoders, currentDecoder), line);
      if StartsWith(line, "plugin") {
        if currentDecoder.Some? {
          decoders := decoders + [currentDecoder.value];
        } else {
          assert decoders + [] == decoders;
        }
        currentDecoder := Some(Decoder(Drop(line, 8), [], []));
      } else if StartsWith(line, "suffix") {
        if currentDecoder.None? {
          r := Err(NoCurrentDecoder);
          ScanErrorStays(lines, i + 1);
          return;
        }
        currentDecoder := Some(currentDecoder.value.(suffixes := currentDecoder.value.suffixes + [Drop(line, 8)]));
      } else if StartsWith(line, "mime_type") {
        if currentDecoder.None? {
          r := Err(NoCurrentDecoder);
          ScanErrorStays(lines, i + 1);
          return;
        }
        currentDecoder := Some(currentDecoder.value.(mimeTypes := currentDecoder.value.mimeTypes + [Drop(line, 11)]));
      }
      i := i + 1;
    }
    assert lines[..i] == lines;
    r := Ok(decoders);
  }

  /** An exception ends the scan: no later line undoes it. */
  lemma {:induction false} ScanErrorStays(lines: seq<string>, n: nat)
    requires n <= |lines| && Scan(lines[..n]) == Err(NoCurrentDecoder)
    ensures Scan(lines) == Err(NoCurrentDecoder)
    decreases |lines| - n
  {
    if n < |lines| {
      assert lines[..n + 1][..n] == lines[..n];
      ScanErrorStays(lines, n + 1);
    } else {
      assert lines[..n] == lines;
    }
  }

  /** The names after the `plugin` lines, in order. */
  function PluginNames(lines: seq<string>): seq<string>
  {
    if |lines| == 0 then []
    else PluginNames(lines[..|lines| - 1]) + if IsPluginLine(lines[|lines| - 1]) then [Drop(lines[|lines| - 1], 8)] else []
  }

  function Names(ds: seq<Decoder>): seq<string>
  {
    if |ds| == 0 then [] else Names(ds[..|ds| - 1]) + [ds[|ds| - 1].name]
  }

  lemma NamesSnoc(ds: seq<Decoder>, d: Decoder)
    ensures Names(ds + [d]) == Names(ds) + [d.name]
  {
    assert (ds + [d])[..|ds|] == ds;
  }

  /** The scan keeps one decoder per `plugin` line seen, the current one being the last. */
  lemma {:induction false} ScanNames(lines: seq<string>)
    requires Scan(lines).Ok?
    ensures var s := Scan(lines).value;
      Names(s.decoders) + (if s.current.Some? then [s.current.value.name] else []) == PluginNames(lines)
    ensures Scan(lines).value.current.None? <==> PluginNames(lines) == []
  {
    if |lines| > 0 {
      var init := lines[..|lines| - 1];
      var line := lines[|lines| - 1];
      ScanNames(init);
      var s := Scan(init).value;
      if IsPluginLine(line) && s.current.Some? {
        NamesSnoc(s.decoders, s.current.value);
      }
    }
  }

  /** The corrected list has one decoder per `plugin` line, named by that line minus its
      first 8 characters, in order. */
  lemma CorrectedNames(lines: seq<string>)
    requires CorrectedDecoders(lines).Ok?
    ensures Names(CorrectedDecoders(lines).value) == PluginNames(lines)
  {
    ScanNames(lines);
    var s := Scan(lines).value;
    if s.current.Some? {
      NamesSnoc(s.decoders, s.current.value);
    } else {
      assert s.decoders + [] == s.decoders;
    }
  }

  /** As written, the decoder of the last `plugin` line is lost: the result is the corrected
      one without its last element, so k `plugin` lines give max(k - 1, 0) decoders. */
  lemma AsWrittenLosesLastDecoder(lines: seq<string>)
    requires AsWrittenDecoders(lines).Ok?
    ensures CorrectedDecoders(lines).Ok?
    ensures var fixed := CorrectedDecoders(lines).value;
      && |fixed| == |PluginNames(lines)|
      && (|fixed| == 0 ==> AsWrittenDecoders(lines).value == [])
      && (|fixed| > 0 ==> AsWrittenDecoders(lines).value == fixed[..|fixed| - 1])
  {
    ScanNames(lines);
    CorrectedNames(lines);
    NamesLength(CorrectedDecoders(lines).value);
    var s := Scan(lines).value;
    if s.current.None? {
      NamesLength(s.decoders);
    }
  }

  lemma {:induction false} NamesLength(ds: seq<Decoder>)
    ensures |Names(ds)| == |ds|
  {
    if |ds| > 0 {
      NamesLength(ds[..|ds| - 1]);
    }
  }

  /** One concrete response that shows it: a single plugin gives no decoder at all. */
  lemma SinglePluginLost()
    ensures AsWrittenDecoders(["plugin: mad", "suffix: mp3"]) == Ok([])
    ensures CorrectedDecoders(["plugin: mad", "suffix: mp3"]) == Ok([Decoder("mad", ["mp3"], [])])
  {
    var lines := ["plugin: mad", "suffix: mp3"];
    assert lines[..1] == ["plugin: mad"];
    assert ["plugin: mad"][..0] == [];
    assert StartsWith("plugin: mad", "plugin");
    assert "suffix: mp3"[..6][0] != "plugin"[0];
    assert !StartsWith("suffix: mp3", "plugin");
    assert StartsWith("suffix: mp3", "suffix");
    assert Drop("plugin: mad", 8) == "mad";
    assert Drop("suffix: mp3", 8) == "mp3";
    var none: seq<Decoder> := [];
    assert none + [] == none;
    assert Scan(lines[..1]) == Ok(DecoderScan(none, Some(Decoder("mad", [], []))));
    assert IsSuffixLine("suffix: mp3");
    var empty: seq<string> := [];
    assert empty + ["mp3"] == ["mp3"];
    assert Scan(lines) == Ok(DecoderScan(none, Some(Decoder("mad", ["mp3"], []))));
    assert none + [Decoder("mad", ["mp3"], [])] == [Decoder("mad", ["mp3"], [])];
  }

  /** The suffix values among `lines`, minus 8 characters each, in order. */
  function SuffixValues(lines: seq<string>): seq<string>
  {
    if |lines| == 0 then []
    else SuffixValues(lines[..|lines| - 1]) + if IsSuffixLine(lines[|lines| - 1]) then [Drop(lines[|lines| - 1], 8)] else []
  }

  /** The MIME type values among `lines`, minus 11 characters each, in order. */
  function MimeValues(lines: seq<string>): seq<string>
  {
    if |lines| == 0 then []
    else MimeValues(lines[..|lines| - 1]) + if IsMimeLine(lines[|lines| - 1]) then [Drop(lines[|lines| - 1], 11)] else []
  }

  predicate NoPluginLine(lines: seq<string>)
  {
    forall i :: 0 <= i < |lines| ==> !IsPluginLine(lines[i])
  }

  /** The lines after a `plugin` line, up to the next one, all go to its decoder: its suffixes
      and MIME types are exactly theirs, in order. */
  lemma {:induction false} SectionFillsCurrent(before: seq<string>, plugin: string, section: seq<string>)
    requires IsPluginLine(plugin) && NoPluginLine(section)
    requires Scan(before + [plugin]).Ok?
    ensures Scan(before + [plugin] + section).Ok?
    ensures Scan(before + [plugin] + section).value ==
      DecoderScan(Scan(before + [plugin]).value.decoders,
                  Some(Decoder(Drop(plugin, 8), SuffixValues(section), MimeValues(section))))
  {
    var head := before + [plugin];
    assert head[..|head| - 1] == before;
    if |section| == 0 {
      assert head + section == head;
    } else {
      var init := section[..|section| - 1];
      var line := section[|section| - 1];
      assert forall i :: 0 <= i < |init| ==> init[i] == section[i];
      SectionFillsCurrent(before, plugin, init);
      var all := head + section;
      assert all[..|all| - 1] == head + init;
      assert all[|all| - 1] == line;
      assert !IsPluginLine(line);
      var sv, mv := SuffixValues(init), MimeValues(init);
      assert sv + [] == sv && mv + [] == mv;
    }
  }


  /** Line `i` adds a suffix or MIME type while no `plugin` line came before it. */
  predicate Orphan(lines: seq<string>, i: int)
  {
    0 <= i < |lines| && (IsSuffixLine(lines[i]) || IsMimeLine(lines[i])) && NoPluginLine(lines[..i])
  }

  lemma {:induction false} NoPluginNames(lines: seq<string>)
    ensures PluginNames(lines) == [] <==> NoPluginLine(lines)
  {
    if |lines| > 0 {
      var init := lines[..|lines| - 1];
      NoPluginNames(init);
      assert forall i :: 0 <= i < |init| ==> init[i] == lines[i];
      if NoPluginLine(init) && !IsPluginLine(lines[|lines| - 1]) {
        assert forall i :: 0 <= i < |lines| ==> i == |init| || lines[i] == init[i];
      }
    }
  }

  /** `decoders` throws exactly when a `suffix` or `mime_type` line comes before every
      `plugin` line. */
  lemma {:induction false} DecodersFail(lines: seq<string>)
    ensures Scan(lines).Err? <==> exists i :: Orphan(lines, i)
  {
    if |lines| > 0 {
      var init := lines[..|lines| - 1];
      var n := |init|;
      DecodersFail(init);
      forall i | 0 <= i < n
        ensures Orphan(init, i) <==> Orphan(lines, i)
      {
        assert init[..i] == lines[..i];
      }
      assert lines[..n] == init;
      if Scan(init).Ok? {
        ScanNames(init);
        NoPluginNames(init);
        if Scan(lines).Err? {
          assert Orphan(lines, n);
        } else {
          assert !Orphan(lines, n);
        }
      } else {
        var i :| Orphan(init, i);
        assert Orphan(lines, i);
      }
    }
  }
}
