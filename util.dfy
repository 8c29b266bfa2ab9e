/** The helpers of src/util.ts: the key/value record parser every command uses to read a
    response, and the predicates that tell the kinds of response unit apart. */
module Util {
  import opened Wrappers
  import opened Text
  import opened Responses

  /** A response record: the `Map<string, string>` that `parse` fills. */
  type ValueMap = map<string, string>

  /** A counted line: its key and its value. */
  type Pair = (string, string)

  // ---------------------------------------------------------------------------------
  // Response units

  /** The names of the fields a unit's JavaScript object carries. */
  function FieldNames(u: ResponseUnit): set<string>
  {
    match u
    case InitialResponse(_) => {"version"}
    case Success(r) => if r.binary.Some? then {"lines", "binary"} else {"lines"}
    case Failure(_) => {"errorCode", "errorMessage"}
  }

  /** `isInitialResponse`: the unit has a `version` field, which only the greeting has. */
  function IsInitialResponse(u: ResponseUnit): (r: bool)
    ensures r <==> u.InitialResponse?
  {
    "version" in FieldNames(u)
  }

  /** `isError`: the unit has an `errorMessage` field, which only a failure has. */
  function IsError(u: ResponseUnit): (r: bool)
    ensures r <==> u.Failure?
  {
    "errorMessage" in FieldNames(u)
  }

  /** `stringStartsWith` is `Text.StartsWith`; it holds exactly when `prefix` is a prefix. */
  lemma StringStartsWith(str: string, prefix: string)
    ensures StartsWith(str, prefix) <==> exists rest :: str == prefix + rest
  {
    if StartsWith(str, prefix) {
      assert str == prefix + str[|prefix|..];
    }
    if exists rest :: str == prefix + rest {
      var rest :| str == prefix + rest;
      assert str[..|prefix|] == prefix;
    }
  }

  // ---------------------------------------------------------------------------------
  // The reference definition of `parse`

  /** The key and value of a line that counts: its first `:` is past the first character; the
      key is the text before it and the value starts two characters after it. */
  function KeyValue(line: string): (r: Option<Pair>)
    ensures r.Some? <==> IndexOf(line, ':') > 0
    ensures r.Some? ==> |r.value.0| > 0 && ':' !in r.value.0 && StartsWith(line, r.value.0 + ":")
    ensures r.Some? ==> r.value.1 == Drop(line, |r.value.0| + 2)
  {
    var colonIndex := IndexOf(line, ':');
    if colonIndex > 0 then
      assert line[..colonIndex + 1] == line[..colonIndex] + ":";
      Some((line[..colonIndex], Drop(line, colonIndex + 2)))
    else None
  }

  /** The counted lines, in order. */
  function Pairs(lines: seq<string>): (ps: seq<Pair>)
    ensures |ps| <= |lines|
  {
    if |lines| == 0 then []
    else
      var ps := Pairs(lines[..|lines| - 1]);
      match KeyValue(lines[|lines| - 1])
      case Some(p) => ps + [p]
      case None => ps
  }

  /** Splitting the lines splits their pairs: the pairs keep the order of their lines. */
  lemma {:induction false} PairsAppend(a: seq<string>, b: seq<string>)
    ensures Pairs(a + b) == Pairs(a) + Pairs(b)
    decreases |b|
  {
    if |b| == 0 {
      assert a + b == a;
    } else {
      var front := b[..|b| - 1];
      PairsAppend(a, front);
      assert (a + b)[..|a + b| - 1] == a + front;
      assert (a + b)[|a + b| - 1] == b[|b| - 1];
      AppendAssociative(Pairs(a), Pairs(front), Pairs([b[|b| - 1]]));
      assert Pairs(b) == Pairs(front) + Pairs([b[|b| - 1]]) by {
        assert [b[|b| - 1]][..0] == [];
      }
    }
  }

  /** A pair comes out exactly when some line reads as it, and there are none exactly when no
      line counts. */
  lemma {:induction false} PairsMembers(lines: seq<string>)
    ensures forall p :: p in Pairs(lines) <==> exists l :: l in lines && KeyValue(l) == Some(p)
    ensures Pairs(lines) == [] <==> forall l :: l in lines ==> KeyValue(l).None?
  {
    if |lines| > 0 {
      var front := lines[..|lines| - 1];
      var last := lines[|lines| - 1];
      PairsMembers(front);
      assert lines == front + [last];
      assert forall l :: l in lines <==> l in front || l == last;
    }
  }

  /** The pairs cut into records: a marker key starts a new record unless it is the first
      counted line. */
  function Group(pairs: seq<Pair>, markers: seq<string>): (gs: seq<seq<Pair>>)
    ensures |gs| == 0 <==> |pairs| == 0
  {
    if |pairs| == 0 then []
    else
      var gs := Group(pairs[..|pairs| - 1], markers);
      var last := pairs[|pairs| - 1];
      if |gs| == 0 then [[last]]
      else if last.0 in markers then gs + [[last]]
      else gs[..|gs| - 1] + [gs[|gs| - 1] + [last]]
  }

  /** Adding one value: a key already present keeps its old value followed by `;` and the
      new one. */
  function Insert(m: ValueMap, key: string, value: string): (r: ValueMap)
    ensures r.Keys == m.Keys + {key}
    ensures forall k :: k in m && k != key ==> r[k] == m[k]
  {
    if key in m then m[key := m[key] + ";" + value] else m[key := value]
  }

  /** The map one record's pairs build. */
  function ValueMapOf(pairs: seq<Pair>): ValueMap
  {
    if |pairs| == 0 then map[]
    else
      var last := pairs[|pairs| - 1];
      Insert(ValueMapOf(pairs[..|pairs| - 1]), last.0, last.1)
  }

  /** The records `parse` builds, before `convert`. */
  function Records(lines: seq<string>, markers: seq<string>): seq<ValueMap>
  {
    var gs := Group(Pairs(lines), markers);
    seq(|gs|, i requires 0 <= i < |gs| => ValueMapOf(gs[i]))
  }

  // ---------------------------------------------------------------------------------
  // Properties of the reference definition

  function Flatten<T>(gs: seq<seq<T>>): seq<T>
  {
    if |gs| == 0 then [] else Flatten(gs[..|gs| - 1]) + gs[|gs| - 1]
  }

  /** `gs` cuts `pairs` into non-empty records, each starting where the first one or a marker
      key does, with no marker key inside a record. */
  predicate WellGrouped(gs: seq<seq<Pair>>, pairs: seq<Pair>, markers: seq<string>)
  {
    && Flatten(gs) == pairs
    && (forall i :: 0 <= i < |gs| ==> |gs[i]| > 0)
    && (forall i :: 0 < i < |gs| ==> gs[i][0].0 in markers)
    && (forall i, j :: 0 <= i < |gs| && 0 < j < |gs[i]| ==> gs[i][j].0 !in markers)
  }

  /** The grouping is a cut of the counted lines at the markers: nothing lost, nothing
      reordered, and (since every record is non-empty) a marker key on the first counted line
      starts no extra empty record. */
  lemma {:induction false} GroupIsWellGrouped(pairs: seq<Pair>, markers: seq<string>)
    ensures WellGrouped(Group(pairs, markers), pairs, markers)
  {
    if |pairs| > 0 {
      var init := pairs[..|pairs| - 1];
      var last := pairs[|pairs| - 1];
      var gs := Group(init, markers);
      GroupIsWellGrouped(init, markers);
      assert pairs == init + [last];
      if |gs| == 0 || last.0 in markers {
        WellGroupedNewRecord(gs, init, last, markers);
      } else {
        WellGroupedExtend(gs, init, last, markers);
      }
    }
  }

  /** A pair that starts a record keeps the cut well grouped when it is the first pair or a
      marker. */
  lemma WellGroupedNewRecord(gs: seq<seq<Pair>>, init: seq<Pair>, last: Pair, markers: seq<string>)
    requires WellGrouped(gs, init, markers)
    requires |gs| == 0 || last.0 in markers
    ensures WellGrouped(gs + [[last]], init + [last], markers)
  {
    var gs' := gs + [[last]];
    assert gs'[..|gs|] == gs;
    assert Flatten(gs') == Flatten(gs) + [last];
    if |gs| == 0 {
      assert Flatten(gs) == [];
      assert init == [];
    }
  }

  /** A pair that is not a marker keeps the cut well grouped when it joins the last record. */
  lemma WellGroupedExtend(gs: seq<seq<Pair>>, init: seq<Pair>, last: Pair, markers: seq<string>)
    requires WellGrouped(gs, init, markers)
    requires |gs| > 0 && last.0 !in markers
    ensures WellGrouped(gs[..|gs| - 1] + [gs[|gs| - 1] + [last]], init + [last], markers)
  {
    var front := gs[..|gs| - 1];
    var g := gs[|gs| - 1] + [last];
    var gs' := front + [g];
    assert gs'[..|gs'| - 1] == front;
    assert Flatten(gs) == Flatten(front) + gs[|gs| - 1];
    assert Flatten(gs') == Flatten(front) + gs[|gs| - 1] + [last];
    forall i, j | 0 <= i < |gs'| && 0 < j < |gs'[i]|
      ensures gs'[i][j].0 !in markers
    {
      if i == |gs'| - 1 && j == |g| - 1 {
        assert gs'[i][j] == last;
      } else if i == |gs'| - 1 {
        assert gs'[i][j] == gs[i][j];
      } else {
        assert gs'[i] == gs[i];
      }
    }
  }

  /** The number of counted lines after the first whose key is a marker. */
  function LaterMarkers(pairs: seq<Pair>, markers: seq<string>): nat
  {
    if |pairs| <= 1 then 0
    else LaterMarkers(pairs[..|pairs| - 1], markers) + (if pairs[|pairs| - 1].0 in markers then 1 else 0)
  }

  /** The number of records: none without counted lines, otherwise one plus the marker keys
      after the first counted line. */
  lemma {:induction false} RecordCount(lines: seq<string>, markers: seq<string>)
    ensures |Records(lines, markers)| ==
      if |Pairs(lines)| == 0 then 0 else 1 + LaterMarkers(Pairs(lines), markers)
  {
    GroupCount(Pairs(lines), markers);
  }

  lemma {:induction false} GroupCount(pairs: seq<Pair>, markers: seq<string>)
    ensures |Group(pairs, markers)| == if |pairs| == 0 then 0 else 1 + LaterMarkers(pairs, markers)
  {
    if |pairs| > 0 {
      GroupCount(pairs[..|pairs| - 1], markers);
    }
  }

  /** Without markers there is at most one record. */
  lemma {:induction false} NoMarkersOneRecord(lines: seq<string>)
    ensures |Records(lines, [])| <= 1
  {
    GroupCount(Pairs(lines), []);
    NoMarkersNoneLater(Pairs(lines));
  }

  lemma {:induction false} NoMarkersNoneLater(pairs: seq<Pair>)
    ensures LaterMarkers(pairs, []) == 0
  {
    if |pairs| > 1 {
      NoMarkersNoneLater(pairs[..|pairs| - 1]);
    }
  }

  /** The values given for `key`, in order. */
  function ValuesOf(pairs: seq<Pair>, key: string): seq<string>
  {
    if |pairs| == 0 then []
    else
      var vs := ValuesOf(pairs[..|pairs| - 1], key);
      if pairs[|pairs| - 1].0 == key then vs + [pairs[|pairs| - 1].1] else vs
  }

  lemma {:induction false} JoinSnoc(parts: seq<string>, part: string, sep: string)
    requires |parts| > 0
    ensures Join(parts + [part], sep) == Join(parts, sep) + sep + part
  {
    if |parts| == 1 {
      assert (parts + [part])[1..] == [part];
    } else {
      assert (parts + [part])[1..] == parts[1..] + [part];
      JoinSnoc(parts[1..], part, sep);
    }
  }

  /** A key of a record maps to all of its values in input order, joined by `;`; keys that
      never occur are absent. */
  lemma {:induction false} RepeatedKeys(pairs: seq<Pair>, key: string)
    ensures key in ValueMapOf(pairs) <==> |ValuesOf(pairs, key)| > 0
    ensures key in ValueMapOf(pairs) ==> ValueMapOf(pairs)[key] == Join(ValuesOf(pairs, key), ";")
  {
    if |pairs| > 0 {
      var init := pairs[..|pairs| - 1];
      var last := pairs[|pairs| - 1];
      RepeatedKeys(init, key);
      if last.0 == key && |ValuesOf(init, key)| > 0 {
        JoinSnoc(ValuesOf(init, key), last.1, ";");
      }
    }
  }

  /** Without markers, the counted lines form one record. */
  lemma {:induction false} NoMarkersSingleGroup(pairs: seq<Pair>)
    requires |pairs| > 0
    ensures Group(pairs, []) == [pairs]
  {
    var init := pairs[..|pairs| - 1];
    if |init| > 0 {
      NoMarkersSingleGroup(init);
      var gs := Group(init, []);
      assert gs[..|gs| - 1] == [];
      assert init + [pairs[|pairs| - 1]] == pairs;
    } else {
      assert Group(init, []) == [];
      assert pairs == [pairs[|pairs| - 1]];
    }
  }

  // ---------------------------------------------------------------------------------
  // Lines read by position

  /** A response line as the daemon writes it: key, colon, space, value. */
  function KeyLine(p: Pair): string
  {
    p.0 + ": " + p.1
  }

  /** The lines the daemon writes for `values` under one key. */
  function KeyLines(key: string, values: seq<string>): (lines: seq<string>)
    ensures |lines| == |values|
    ensures forall i :: 0 <= i < |values| ==> lines[i] == KeyLine((key, values[i]))
  {
    seq(|values|, i requires 0 <= i < |values| => KeyLine((key, values[i])))
  }

  /** `lines.map(line => line.substring(k))`. */
  function DropEach(lines: seq<string>, k: nat): (r: seq<string>)
    ensures |r| == |lines|
    ensures forall i :: 0 <= i < |lines| ==> r[i] == Drop(lines[i], k)
  {
    seq(|lines|, i requires 0 <= i < |lines| => Drop(lines[i], k))
  }

  /** Dropping as many characters as the key and its `: ` take gives back the values, order
      and count kept. */
  lemma DropEachOfKeyLines(key: string, values: seq<string>)
    ensures DropEach(KeyLines(key, values), |key| + 2) == values
  {
    var lines := KeyLines(key, values);
    forall i | 0 <= i < |values|
      ensures DropEach(lines, |key| + 2)[i] == values[i]
    {
      assert lines[i] == key + ": " + values[i];
      assert lines[i][|key| + 2..] == values[i];
    }
  }

  // ---------------------------------------------------------------------------------
  // `parse`

  /** The `forEach` callback of `parse`: a line whose first `:` is past index 0 finishes the
      open record when its key is a marker and some line counted before, then joins the
      record open; any other line changes nothing. */
  method ParseLine<T>(line: string, markers: seq<string>, convert: ValueMap -> T,
                      result: seq<T>, currentValueMap: ValueMap, lineCount: nat)
    returns (result': seq<T>, currentValueMap': ValueMap, lineCount': nat)
    ensures Progress(result', currentValueMap', lineCount') ==
      if KeyValue(line).Some? then
        Advance(Progress(result, currentValueMap, lineCount), KeyValue(line).value, markers, convert)
      else Progress(result, currentValueMap, lineCount)
  {
    result', currentValueMap', lineCount' := result, currentValueMap, lineCount;
    var colonIndex := IndexOf(line, ':');
    if colonIndex > 0 {
      var key := line[..colonIndex];
      var value := Drop(line, colonIndex + 2);
      assert KeyValue(line) == Some((key, value));
      if lineCount' > 0 && key in markers {
        result' := result' + [convert(currentValueMap')];
        currentValueMap' := map[];
      }
      ghost var open := currentValueMap';
      if key in currentValueMap' {
        var multiValue := currentValueMap'[key] + ";" + value;
        currentValueMap' := currentValueMap'[key := multiValue];
      } else {
        currentValueMap' := currentValueMap'[key := value];
      }
      assert currentValueMap' == Insert(open, key, value);
      lineCount' := lineCount' + 1;
    }
  }

  /** `parse`: the records of the counted lines, cut at the marker keys, each passed through
      `convert`. */
  method Parse<T>(lines: seq<string>, markers: seq<string>, convert: ValueMap -> T) returns (result: seq<T>)
    ensures |result| == |Records(lines, markers)|
    ensures forall i :: 0 <= i < |result| ==> result[i] == convert(Records(lines, markers)[i])
  {
    result := [];
    var currentValueMap: ValueMap := map[];
    var lineCount := 0;
    var i := 0;
    while i < |lines|
      invariant 0 <= i <= |lines|
      invariant Progress(result, currentValueMap, lineCount) == ProgressOf(Pairs(lines[..i]), markers, convert)
    {
      PairsStep(lines, i);
      if KeyValue(lines[i]).Some? {
        ProgressStep(Pairs(lines[..i]), KeyValue(lines[i]).value, markers, convert);
      }
      result, currentValueMap, lineCount := ParseLine(lines[i], markers, convert, result, currentValueMap, lineCount);
      i := i + 1;
    }
    assert lines[..i] == lines;
    ParseFinal(lines, markers, convert, Progress(result, currentValueMap, lineCount));
    if lineCount > 0 {
      result := result + [convert(currentValueMap)];
    }
  }

  /** Closing the record the loop leaves open, if any line counted, gives the records. */
  lemma ParseFinal<T>(lines: seq<string>, markers: seq<string>, convert: ValueMap -> T, st: Progress<T>)
    requires st == ProgressOf(Pairs(lines), markers, convert)
    ensures var final := if st.lineCount > 0 then st.result + [convert(st.current)] else st.result;
            && |final| == |Records(lines, markers)|
            && forall i :: 0 <= i < |final| ==> final[i] == convert(Records(lines, markers)[i])
  {
    ProgressIsRecords(Pairs(lines), markers, convert);
    ParseDone(lines, markers, st.result, st.current, convert);
  }

  /** The loop state of `parse`: the records finished so far, converted, the map of the
      record still open, and the number of counted lines. */
  datatype Progress<T> = Progress(result: seq<T>, current: ValueMap, lineCount: nat)

  /** The loop state after one more counted line `p`: a marker after the first counted line
      finishes the open record, and the pair joins the record then open. */
  function Advance<T>(st: Progress<T>, p: Pair, markers: seq<string>, convert: ValueMap -> T): Progress<T>
  {
    if st.lineCount > 0 && p.0 in markers then
      Progress(st.result + [convert(st.current)], Insert(map[], p.0, p.1), st.lineCount + 1)
    else Progress(st.result, Insert(st.current, p.0, p.1), st.lineCount + 1)
  }

  /** The loop state after the counted lines `ps`. */
  function ProgressOf<T>(ps: seq<Pair>, markers: seq<string>, convert: ValueMap -> T): (st: Progress<T>)
    ensures st.lineCount == |ps|
  {
    if |ps| == 0 then Progress([], map[], 0)
    else Advance(ProgressOf(ps[..|ps| - 1], markers, convert), ps[|ps| - 1], markers, convert)
  }

  lemma ProgressStep<T>(ps: seq<Pair>, p: Pair, markers: seq<string>, convert: ValueMap -> T)
    ensures ProgressOf(ps + [p], markers, convert) == Advance(ProgressOf(ps, markers, convert), p, markers, convert)
  {
    assert (ps + [p])[..|ps|] == ps;
  }

  /** One more line adds its pair, if it counts, to the pairs of the lines before it. */
  lemma PairsStep(lines: seq<string>, i: nat)
    requires i < |lines|
    ensures Pairs(lines[..i + 1]) ==
      if KeyValue(lines[i]).Some? then Pairs(lines[..i]) + [KeyValue(lines[i]).value] else Pairs(lines[..i])
  {
    assert lines[..i + 1][..i] == lines[..i];
    assert lines[..i + 1][i] == lines[i];
  }

  /** The loop state agrees with the records of the reference definition. */
  lemma {:induction false} ProgressIsRecords<T>(ps: seq<Pair>, markers: seq<string>, convert: ValueMap -> T)
    ensures |ps| == 0 ==> ProgressOf(ps, markers, convert) == Progress([], map[], 0)
    ensures |ps| > 0 ==> ParsedSoFar(Group(ps, markers), ProgressOf(ps, markers, convert).result,
                                     ProgressOf(ps, markers, convert).current, convert)
  {
    if |ps| > 0 {
      var init := ps[..|ps| - 1];
      var p := ps[|ps| - 1];
      assert init + [p] == ps;
      ProgressIsRecords(init, markers, convert);
      var st := ProgressOf(init, markers, convert);
      if |init| > 0 && p.0 in markers {
        ParseNewRecord(init, p, markers, st.result, st.current, convert);
      } else {
        ParseSameRecord(init, p, markers, st.result, st.current, convert);
      }
    }
  }

  /** Closing the last open record gives every record, converted, in order. */
  lemma ParseDone<T>(lines: seq<string>, markers: seq<string>, result: seq<T>, current: ValueMap,
                     convert: ValueMap -> T)
    requires |Pairs(lines)| == 0 ==> result == []
    requires |Pairs(lines)| > 0 ==> ParsedSoFar(Group(Pairs(lines), markers), result, current, convert)
    ensures var final := if |Pairs(lines)| > 0 then result + [convert(current)] else result;
            && |final| == |Records(lines, markers)|
            && forall i :: 0 <= i < |final| ==> final[i] == convert(Records(lines, markers)[i])
  {
  }

  /** The loop state of `parse` for the records `gs` met so far: the finished ones converted
      in `result`, the last one still open as `current`. */
  ghost predicate ParsedSoFar<T>(gs: seq<seq<Pair>>, result: seq<T>, current: ValueMap, convert: ValueMap -> T)
  {
    && |gs| == |result| + 1
    && (forall j :: 0 <= j < |result| ==> result[j] == convert(ValueMapOf(gs[j])))
    && current == ValueMapOf(gs[|gs| - 1])
  }

  /** A marker key past the first counted line closes the open record and starts a new one. */
  lemma ParseNewRecord<T>(ps: seq<Pair>, p: Pair, markers: seq<string>, result: seq<T>,
                          current: ValueMap, convert: ValueMap -> T)
    requires |ps| > 0 && p.0 in markers
    requires ParsedSoFar(Group(ps, markers), result, current, convert)
    ensures ParsedSoFar(Group(ps + [p], markers), result + [convert(current)], Insert(map[], p.0, p.1), convert)
  {
    var ps' := ps + [p];
    assert ps'[..|ps'| - 1] == ps;
    assert [p][..0] == [];
  }

  /** Any other counted line joins the open record (the first one opens it). */
  lemma ParseSameRecord<T>(ps: seq<Pair>, p: Pair, markers: seq<string>, result: seq<T>,
                           current: ValueMap, convert: ValueMap -> T)
    requires |ps| == 0 ==> result == [] && current == map[]
    requires |ps| > 0 ==> ParsedSoFar(Group(ps, markers), result, current, convert) && p.0 !in markers
    ensures ParsedSoFar(Group(ps + [p], markers), result, Insert(current, p.0, p.1), convert)
  {
    var ps' := ps + [p];
    assert ps'[..|ps'| - 1] == ps;
    if |ps| == 0 {
      assert [p][..0] == [];
    } else {
      var gs := Group(ps, markers);
      var g := gs[|gs| - 1] + [p];
      assert g[..|g| - 1] == gs[|gs| - 1];
    }
  }
}
