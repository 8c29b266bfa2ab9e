/** The numeric arguments the command builders append: a number, and a `start:end` range
    whose sides may each be left empty. A number is written as a template literal writes an
    integer, so a negative one (a position relative to the current song, say) keeps its sign. */
module Arguments {
  import opened Wrappers
  import opened Text

  /** A number in decimal, or nothing when it is not given. */
  function OptionalInt(n: Option<int>): (s: string)
    ensures n.None? <==> s == ""
  {
    if n.Some? then IntToString(n.value) else ""
  }

  /** `start:end`, each side empty when it is not given. */
  function RangeText(start: Option<int>, end: Option<int>): string
  {
    OptionalInt(start) + ":" + OptionalInt(end)
  }

  /** The integer the daemon reads from a numeric argument: decimal digits, optionally after
      one minus sign; nothing for any other text. */
  function IntegerValue(field: string): (r: Option<int>)
    ensures r.Some? ==> field != "" && ' ' !in field && ':' !in field
  {
    if field != "" && AllDigits(field) then Some(DigitsValue(field) as int)
    else if |field| > 1 && field[0] == '-' && AllDigits(field[1..]) then Some(-(DigitsValue(field[1..]) as int))
    else None
  }

  /** A field the daemon reads as the given number, or the empty field for none. */
  predicate ReadsAsOptional(field: string, n: Option<int>)
  {
    && (n.None? <==> field == "")
    && (n.Some? ==> IntegerValue(field) == Some(n.value))
  }

  /** An argument made of exactly two fields around one colon, read as start and end. */
  predicate ReadsAsRange(arg: string, start: Option<int>, end: Option<int>)
  {
    var fields := Split(arg, ':');
    |fields| == 2 && ReadsAsOptional(fields[0], start) && ReadsAsOptional(fields[1], end)
  }

  /** The text of any integer, negative ones included, reads back as that integer. */
  lemma IntToStringReadsBack(i: int)
    ensures IntegerValue(IntToString(i)) == Some(i)
  {
    var d := NatToString(if i < 0 then -i else i);
    DigitsValueOfNatToString(if i < 0 then -i else i);
    if i < 0 {
      var s := IntToString(i);
      assert s == "-" + d && s[1..] == d;
      assert !IsDigit('-');
      assert !AllDigits(s);
    }
  }

  /** A number's text reads back, and holds neither a colon nor a space. */
  lemma OptionalIntReadsBack(n: Option<int>)
    ensures ReadsAsOptional(OptionalInt(n), n)
    ensures ':' !in OptionalInt(n) && ' ' !in OptionalInt(n)
  {
    if n.Some? {
      IntToStringReadsBack(n.value);
    }
  }

  /** A range reads back as the start and end it was built from, and holds no space. */
  lemma RangeRoundTrip(start: Option<int>, end: Option<int>)
    ensures ReadsAsRange(RangeText(start, end), start, end)
    ensures ' ' !in RangeText(start, end)
  {
    OptionalIntReadsBack(start);
    OptionalIntReadsBack(end);
    var a := OptionalInt(start);
    var b := OptionalInt(end);
    assert RangeText(start, end) == a + [':'] + b;
    SplitCons(a, b, ':');
    SplitNone(b, ':');
  }

  /** ` position` appended when a position is given. */
  function AppendNumber(cmd: string, n: Option<int>): (r: string)
    ensures n.None? ==> r == cmd
    ensures n.Some? ==> r == cmd + " " + OptionalInt(n)
  {
    if n.Some? then cmd + " " + IntToString(n.value) else cmd
  }

  /** ` start:end` (or ` start:`) appended when a start is given; an end alone is dropped. */
  function AppendRange(cmd: string, start: Option<int>, end: Option<int>): (r: string)
    ensures start.None? ==> r == cmd
    ensures start.Some? ==> r == cmd + " " + RangeText(start, end)
  {
    if start.Some? then
      cmd + " " + RangeText(start, end)
    else cmd
  }

  /** Arguments each preceded by one space, as a command line carries them. */
  function Spaced(args: seq<string>): string
  {
    if |args| == 0 then "" else " " + args[0] + Spaced(args[1..])
  }

  lemma SpacedSnoc(args: seq<string>, arg: string)
    ensures Spaced(args + [arg]) == Spaced(args) + " " + arg
  {
    if |args| > 0 {
      assert (args + [arg])[1..] == args[1..] + [arg];
      SpacedSnoc(args[1..], arg);
    }
  }

  lemma SpacedOne(cmd: string, a: string)
    ensures cmd + " " + a == cmd + Spaced([a])
  {
    assert Spaced([a]) == " " + a + Spaced([]);
  }

  lemma SpacedTwo(cmd: string, a: string, b: string)
    ensures cmd + " " + a + " " + b == cmd + Spaced([a, b])
  {
    assert [a, b][1..] == [b];
    SpacedOne("", b);
    assert Spaced([a, b]) == " " + a + Spaced([b]);
  }

  /** Names joined with single spaces, after one more space, are the names spaced out. */
  lemma {:induction false} JoinSpaced(names: seq<string>)
    requires |names| > 0
    ensures " " + Join(names, " ") == Spaced(names)
    decreases |names|
  {
    if |names| == 1 {
      assert Spaced(names) == " " + names[0] + Spaced([]);
    } else {
      JoinSpaced(names[1..]);
      assert " " + Join(names, " ") == " " + names[0] + (" " + Join(names[1..], " "));
    }
  }

  /** A word and one space-free argument split into the two. */
  lemma WordPair(verb: string, arg: string)
    requires ' ' !in verb && ' ' !in arg
    ensures Split(verb + " " + arg, ' ') == [verb, arg]
  {
    assert verb + " " + arg == verb + [' '] + arg;
    SplitCons(verb, arg, ' ');
    SplitNone(arg, ' ');
  }

  /** The daemon splits a command line at its spaces: a word followed by space-free
      arguments splits back into the word and the arguments, count and order kept. */
  lemma {:induction false} SplitSpaced(word: string, args: seq<string>)
    requires ' ' !in word
    requires forall i :: 0 <= i < |args| ==> ' ' !in args[i]
    ensures Split(word + Spaced(args), ' ') == [word] + args
    decreases |args|
  {
    if |args| == 0 {
      assert word + Spaced(args) == word;
      SplitNone(word, ' ');
    } else {
      assert word + Spaced(args) == word + [' '] + (args[0] + Spaced(args[1..]));
      SplitCons(word, args[0] + Spaced(args[1..]), ' ');
      SplitSpaced(args[0], args[1..]);
      assert [args[0]] + args[1..] == args;
    }
  }
}
