/** The frame decoder of src/transform.ts (`decodeLines`): byte chunks of any size in,
    text lines and binary blobs out. A residual buffer and a pending blob length survive
    from one chunk to the next. */
module FrameDecoding {
  import opened Wrappers
  import opened Text

  /** What the decoder hands on: a text line or a binary blob. */
  datatype Token = TextLine(text: string) | BinaryBlob(data: seq<Byte>)

  /** The value of `binaryLength`: undefined, a parsed length, or NaN (a `binary: `
      header whose text does not start with a digit). */
  datatype BinaryLength = NoBlob | Length(n: nat) | NotANumber

  const BinaryPrefix := "binary: "

  /** `parseInt(decodedLine.substring(8))` for a `binary: ` header. */
  function HeaderLength(line: string): BinaryLength
  {
    match ParseInt(Drop(line, 8))
    case Finite(n) => Length(n)
    case NaN => NotANumber
  }

  /** Tokens emitted so far together with the decoder's state. */
  datatype Decoded = Decoded(tokens: seq<Token>, buffer: seq<Byte>, binaryLength: BinaryLength)

  function Rank(b: BinaryLength): nat
  {
    if b.NotANumber? then 1 else 0
  }

  /** One turn of the `while (true)` loop of `transform`; None when the loop breaks. */
  function Step(buffer: seq<Byte>, binaryLength: BinaryLength): (r: Option<Decoded>)
    ensures r.Some? ==> |r.value.buffer| < |buffer| || Rank(r.value.binaryLength) < Rank(binaryLength)
  {
    match binaryLength
    case NoBlob =>
      var i := IndexOf(buffer, LineFeed);
      if i < 0 then None
      else
        var line := Latin1(buffer[..i]);
        if StartsWith(line, BinaryPrefix) then Some(Decoded([], buffer[i + 1..], HeaderLength(line)))
        else Some(Decoded([TextLine(line)], buffer[i + 1..], NoBlob))
    case Length(n) =>
      if |buffer| <= n then None
      else
        Some(Decoded([BinaryBlob(buffer[..n])], buffer[n + 1..], NoBlob))
    case NotANumber =>
      // `buffer.slice(0, NaN)` is empty and `buffer.subarray(NaN + 1)` is the whole buffer
      Some(Decoded([BinaryBlob([])], buffer, NoBlob))
  }

  /** Without a pending blob: with no line feed in the buffer the loop breaks, emitting
      nothing and keeping the buffer; otherwise a turn takes exactly the bytes before the
      first line feed and that line feed off the buffer, and emits them as a text line
      unless they form a `binary: ` header, which only sets the pending length. */
  lemma StepOnLine(buffer: seq<Byte>)
    ensures LineFeed !in buffer ==> Step(buffer, NoBlob).None?
    ensures LineFeed in buffer ==> Step(buffer, NoBlob).Some?
    ensures Step(buffer, NoBlob).Some? ==>
      var r := Step(buffer, NoBlob).value;
      var n := |buffer| - |r.buffer| - 1;
      var line := Latin1(buffer[..n]);
      && 0 <= n && buffer == buffer[..n] + [LineFeed] + r.buffer
      && LineFeed !in buffer[..n]
      && if StartsWith(line, BinaryPrefix)
         then r.tokens == [] && r.binaryLength == HeaderLength(line)
         else r.tokens == [TextLine(line)] && r.binaryLength == NoBlob
  {
    if LineFeed in buffer {
      StepOnLineFound(buffer);
    }
  }

  lemma StepOnLineFound(buffer: seq<Byte>)
    requires LineFeed in buffer
    ensures Step(buffer, NoBlob).Some?
    ensures var r := Step(buffer, NoBlob).value;
      var n := |buffer| - |r.buffer| - 1;
      var line := Latin1(buffer[..n]);
      && 0 <= n && buffer == buffer[..n] + [LineFeed] + r.buffer
      && LineFeed !in buffer[..n]
      && if StartsWith(line, BinaryPrefix)
         then r.tokens == [] && r.binaryLength == HeaderLength(line)
         else r.tokens == [TextLine(line)] && r.binaryLength == NoBlob
  {
    var i := IndexOf(buffer, LineFeed);
    AroundIndex(buffer, i);
    assert |Step(buffer, NoBlob).value.buffer| == |buffer| - i - 1;
  }

  /** With a pending length n: the loop breaks while the buffer holds at most n bytes;
      otherwise a turn emits the first n bytes, unscanned, as a blob, drops the byte after
      them and clears the pending length. */
  lemma StepOnBlob(buffer: seq<Byte>, n: nat)
    ensures Step(buffer, Length(n)).None? <==> |buffer| <= n
    ensures Step(buffer, Length(n)).Some? ==>
      var r := Step(buffer, Length(n)).value;
      && r.tokens == [BinaryBlob(buffer[..n])]
      && buffer == buffer[..n] + [buffer[n]] + r.buffer
      && r.binaryLength == NoBlob
  {
    if n < |buffer| {
      AroundIndex(buffer, n);
    }
  }

  /** The loop of `transform`, run until it breaks: every token it emits, and the state
      it leaves, which is one where the loop breaks at once. */
  function Decode(buffer: seq<Byte>, binaryLength: BinaryLength): (d: Decoded)
    ensures Step(d.buffer, d.binaryLength).None?
    decreases |buffer|, Rank(binaryLength)
  {
    match Step(buffer, binaryLength)
    case None => Decoded([], buffer, binaryLength)
    case Some(s) =>
      var rest := Decode(s.buffer, s.binaryLength);
      Decoded(s.tokens + rest.tokens, rest.buffer, rest.binaryLength)
  }

  /** A turn that can be taken on `x` is taken the same way on `x + y`. */
  lemma StepAppend(x: seq<Byte>, y: seq<Byte>, binaryLength: BinaryLength)
    requires Step(x, binaryLength).Some?
    ensures var s := Step(x, binaryLength).value;
      Step(x + y, binaryLength) == Some(Decoded(s.tokens, s.buffer + y, s.binaryLength))
  {
    match binaryLength
    case NoBlob => StepAppendLine(x, y);
    case Length(n) => StepAppendBlob(x, y, n);
    case NotANumber =>
  }

  lemma StepAppendLine(x: seq<Byte>, y: seq<Byte>)
    requires LineFeed in x
    ensures var s := Step(x, NoBlob).value;
      Step(x + y, NoBlob) == Some(Decoded(s.tokens, s.buffer + y, s.binaryLength))
  {
    IndexOfAppend(x, y, LineFeed);
    var i := IndexOf(x, LineFeed);
    assert (x + y)[..i] == x[..i];
    assert (x + y)[i + 1..] == x[i + 1..] + y;
  }

  lemma StepAppendBlob(x: seq<Byte>, y: seq<Byte>, n: nat)
    requires n < |x|
    ensures var s := Step(x, Length(n)).value;
      Step(x + y, Length(n)) == Some(Decoded(s.tokens, s.buffer + y, s.binaryLength))
  {
    assert (x + y)[..n] == x[..n];
    assert (x + y)[n + 1..] == x[n + 1..] + y;
  }

  /** Decoding `x + y` decodes `x` first and then the residue of `x` followed by `y`. */
  lemma {:induction false} DecodeAppend(x: seq<Byte>, y: seq<Byte>, binaryLength: BinaryLength)
    ensures var d := Decode(x, binaryLength);
      var e := Decode(d.buffer + y, d.binaryLength);
      Decode(x + y, binaryLength) == Decoded(d.tokens + e.tokens, e.buffer, e.binaryLength)
    decreases |x|, Rank(binaryLength), 1
  {
    var step := Step(x, binaryLength);
    if step.None? {
      var e := Decode(x + y, binaryLength);
      assert [] + e.tokens == e.tokens;
    } else {
      DecodeAppendStep(x, y, binaryLength, step.value);
    }
  }

  /** DecodeAppend when the loop takes a first turn `s` on `x`. */
  lemma {:induction false} DecodeAppendStep(x: seq<Byte>, y: seq<Byte>, binaryLength: BinaryLength, s: Decoded)
    requires Step(x, binaryLength) == Some(s)
    ensures var d := Decode(x, binaryLength);
      var e := Decode(d.buffer + y, d.binaryLength);
      Decode(x + y, binaryLength) == Decoded(d.tokens + e.tokens, e.buffer, e.binaryLength)
    decreases |x|, Rank(binaryLength), 0
  {
    StepAppend(x, y, binaryLength);
    DecodeFirst(x, binaryLength, s);
    DecodeFirst(x + y, binaryLength, Decoded(s.tokens, s.buffer + y, s.binaryLength));
    DecodeAppend(s.buffer, y, s.binaryLength);
    var d := Decode(s.buffer, s.binaryLength);
    var e := Decode(d.buffer + y, d.binaryLength);
    AppendAssociative(s.tokens, d.tokens, e.tokens);
  }

  /** When the loop takes a first turn `s`, decoding is that turn and then the rest. */
  lemma DecodeFirst(buffer: seq<Byte>, binaryLength: BinaryLength, s: Decoded)
    requires Step(buffer, binaryLength) == Some(s)
    ensures var r := Decode(s.buffer, s.binaryLength);
      Decode(buffer, binaryLength) == Decoded(s.tokens + r.tokens, r.buffer, r.binaryLength)
  {
  }

  /** All chunks, one after another. */
  function Concat(chunks: seq<seq<Byte>>): seq<Byte>
  {
    if |chunks| == 0 then [] else chunks[0] + Concat(chunks[1..])
  }

  /** Calls of `transform` on each chunk in turn, from the given state. */
  function FeedAll(buffer: seq<Byte>, binaryLength: BinaryLength, chunks: seq<seq<Byte>>): Decoded
    decreases |chunks|
  {
    if |chunks| == 0 then Decoded([], buffer, binaryLength)
    else
      var d := Decode(buffer + chunks[0], binaryLength);
      var rest := FeedAll(d.buffer, d.binaryLength, chunks[1..]);
      Decoded(d.tokens + rest.tokens, rest.buffer, rest.binaryLength)
  }

  /** Chunk-boundary independence: from any state the decoder can rest in, feeding a byte
      string in chunks, cut anywhere (mid-line, mid-blob), gives the same tokens and the
      same residual state as feeding it in one piece. */
  lemma {:induction false} ChunkBoundaryIndependence(buffer: seq<Byte>, binaryLength: BinaryLength, chunks: seq<seq<Byte>>)
    requires Step(buffer, binaryLength).None?
    ensures FeedAll(buffer, binaryLength, chunks) == Decode(buffer + Concat(chunks), binaryLength)
    decreases |chunks|
  {
    if |chunks| == 0 {
      assert buffer + Concat(chunks) == buffer;
    } else {
      var d := Decode(buffer + chunks[0], binaryLength);
      ChunkBoundaryIndependence(d.buffer, d.binaryLength, chunks[1..]);
      DecodeAppend(buffer + chunks[0], Concat(chunks[1..]), binaryLength);
      AppendAssociative(buffer, chunks[0], Concat(chunks[1..]));
    }
  }

  /** A text line the daemon can send as such: one byte per character, no line feed, and
      not a `binary: ` header. */
  predicate SendableLine(text: string)
  {
    IsLatin1(text) && '\n' !in text && !StartsWith(text, BinaryPrefix)
  }

  predicate SendableToken(t: Token)
  {
    t.TextLine? ==> SendableLine(t.text)
  }

  /** `binary: <n>` */
  function BlobHeader(n: nat): (s: string)
    ensures IsLatin1(s) && '\n' !in s && StartsWith(s, BinaryPrefix)
  {
    NatToStringIsLatin1(n);
    BinaryPrefix + NatToString(n)
  }

  /** How the daemon puts a token on the wire: a line and its line feed, or a `binary: N`
      header line followed by the N bytes and one delimiter byte. */
  function EncodeToken(t: Token): seq<Byte>
    requires SendableToken(t)
  {
    match t
    case TextLine(text) => Bytes(text) + [LineFeed]
    case BinaryBlob(data) => Bytes(BlobHeader(|data|)) + [LineFeed] + data + [LineFeed]
  }

  function Encode(ts: seq<Token>): seq<Byte>
    requires forall i :: 0 <= i < |ts| ==> SendableToken(ts[i])
  {
    if |ts| == 0 then [] else EncodeToken(ts[0]) + Encode(ts[1..])
  }

  lemma LineFeedNotInBytes(s: string)
    requires IsLatin1(s) && '\n' !in s
    ensures LineFeed !in Bytes(s)
  {
  }

  /** The decoder takes one encoded token off the front of any byte string. */
  lemma DecodeEncodedToken(t: Token, rest: seq<Byte>)
    requires SendableToken(t)
    ensures Decode(EncodeToken(t) + rest, NoBlob) ==
      var r := Decode(rest, NoBlob); Decoded([t] + r.tokens, r.buffer, r.binaryLength)
  {
    match t
    case TextLine(text) =>
      assert EncodeToken(t) + rest == Bytes(text) + [LineFeed] + rest;
      StepOnText(text, rest);
      DecodeFirst(EncodeToken(t) + rest, NoBlob, Decoded([t], rest, NoBlob));
    case BinaryBlob(data) =>
      var tail := data + [LineFeed] + rest;
      assert EncodeToken(t) + rest == Bytes(BlobHeader(|data|)) + [LineFeed] + tail;
      StepOnHeader(|data|, tail);
      DecodeFirst(EncodeToken(t) + rest, NoBlob, Decoded([], tail, Length(|data|)));
      StepOnEncodedBlob(data, rest);
      DecodeFirst(tail, Length(|data|), Decoded([t], rest, NoBlob));
      var r := Decode(tail, Length(|data|));
      AppendEmpty(r.tokens);
  }

  /** A line the daemon can send is emitted as it is, and its line feed is consumed. */
  lemma StepOnText(text: string, rest: seq<Byte>)
    requires SendableLine(text)
    ensures Step(Bytes(text) + [LineFeed] + rest, NoBlob) == Some(Decoded([TextLine(text)], rest, NoBlob))
  {
    var bytes := Bytes(text) + [LineFeed] + rest;
    LineFeedNotInBytes(text);
    IndexOfAppend(Bytes(text) + [LineFeed], rest, LineFeed);
    assert IndexOf(Bytes(text) + [LineFeed], LineFeed) == |text| by {
      assert (Bytes(text) + [LineFeed])[..|text|] == Bytes(text);
    }
    assert bytes[..|text|] == Bytes(text);
    assert bytes[|text| + 1..] == rest;
    Latin1OfBytes(text);
  }

  /** With the pending length of a blob, the blob and its delimiter are taken whole. */
  lemma StepOnEncodedBlob(data: seq<Byte>, rest: seq<Byte>)
    ensures Step(data + [LineFeed] + rest, Length(|data|)) == Some(Decoded([BinaryBlob(data)], rest, NoBlob))
  {
    var tail := data + [LineFeed] + rest;
    assert tail[..|data|] == data;
    assert tail[|data| + 1..] == rest;
  }

  /** Round trip: decoding the daemon's encoding of a token sequence gives back exactly
      that sequence and leaves nothing behind; in particular no blob byte is read as a line
      feed and no `binary: ` header reaches the output as text. */
  lemma {:induction false} DecodeEncode(ts: seq<Token>)
    requires forall i :: 0 <= i < |ts| ==> SendableToken(ts[i])
    ensures Decode(Encode(ts), NoBlob) == Decoded(ts, [], NoBlob)
  {
    if |ts| > 0 {
      DecodeEncodedToken(ts[0], Encode(ts[1..]));
      DecodeEncode(ts[1..]);
      assert [ts[0]] + ts[1..] == ts;
    }
  }

  /** No text line among `ts` is a `binary: ` header. */
  predicate NoHeaderText(ts: seq<Token>)
  {
    forall i :: 0 <= i < |ts| ==> ts[i].TextLine? ==> !StartsWith(ts[i].text, BinaryPrefix)
  }

  /** No `binary: ` header is ever emitted as a text line. */
  lemma {:induction false} NoHeaderEmittedAsText(buffer: seq<Byte>, binaryLength: BinaryLength)
    ensures NoHeaderText(Decode(buffer, binaryLength).tokens)
    decreases |buffer|, Rank(binaryLength)
  {
    match Step(buffer, binaryLength)
    case None =>
    case Some(s) =>
      NoHeaderEmittedAsText(s.buffer, s.binaryLength);
      DecodeFirst(buffer, binaryLength, s);
      StepEmitsNoHeader(buffer, binaryLength);
      NoHeaderTextAppend(s.tokens, Decode(s.buffer, s.binaryLength).tokens);
  }

  lemma StepEmitsNoHeader(buffer: seq<Byte>, binaryLength: BinaryLength)
    requires Step(buffer, binaryLength).Some?
    ensures NoHeaderText(Step(buffer, binaryLength).value.tokens)
  {
  }

  lemma NoHeaderTextAppend(a: seq<Token>, b: seq<Token>)
    requires NoHeaderText(a) && NoHeaderText(b)
    ensures NoHeaderText(a + b)
  {
    forall i | 0 <= i < |a + b|
      ensures (a + b)[i].TextLine? ==> !StartsWith((a + b)[i].text, BinaryPrefix)
    {
      if i >= |a| {
        assert (a + b)[i] == b[i - |a|];
      }
    }
  }

  /** A `binary: N` header line sets the pending length to N and emits nothing. */
  lemma StepOnHeader(n: nat, rest: seq<Byte>)
    ensures Step(Bytes(BlobHeader(n)) + [LineFeed] + rest, NoBlob) == Some(Decoded([], rest, Length(n)))
  {
    var header := BlobHeader(n);
    var bytes := Bytes(header) + [LineFeed] + rest;
    LineFeedNotInBytes(header);
    IndexOfAppend(Bytes(header) + [LineFeed], rest, LineFeed);
    assert IndexOf(Bytes(header) + [LineFeed], LineFeed) == |header| by {
      assert (Bytes(header) + [LineFeed])[..|header|] == Bytes(header);
    }
    assert bytes[..|header|] == Bytes(header);
    assert bytes[|header| + 1..] == rest;
    Latin1OfBytes(header);
    assert Drop(header, 8) == NatToString(n);
    NumberOfNatToString(n, "");
    assert NatToString(n) + "" == NatToString(n);
  }

  /** A header with length N is followed, as the next token, by a blob of exactly N bytes as
      soon as more than N bytes are buffered behind it. */
  lemma HeaderThenBlob(n: nat, rest: seq<Byte>)
    requires n < |rest|
    ensures Decode(Bytes(BlobHeader(n)) + [LineFeed] + rest, NoBlob).tokens ==
      [BinaryBlob(rest[..n])] + Decode(rest[n + 1..], NoBlob).tokens
  {
    StepOnHeader(n, rest);
    StepOnBlob(rest, n);
  }

  /** The decoder of one connection (the closure state of `decodeLines`). */
  class LineDecoder {
    var buffer: seq<Byte>
    var binaryLength: BinaryLength

    constructor ()
      ensures buffer == [] && binaryLength == NoBlob
    {
      buffer := [];
      binaryLength := NoBlob;
    }

    /** `transform`: append the chunk to the residual buffer and emit every complete
        line and blob. */
    method Transform(chunk: seq<Byte>) returns (tokens: seq<Token>)
      modifies this
      ensures Decoded(tokens, buffer, binaryLength) == Decode(old(buffer) + chunk, old(binaryLength))
    {
      buffer := buffer + chunk;
      tokens := [];
      ghost var all := Decode(buffer, binaryLength);
      while true
        invariant tokens + Decode(buffer, binaryLength).tokens == all.tokens
        invariant Decode(buffer, binaryLength).buffer == all.buffer
        invariant Decode(buffer, binaryLength).binaryLength == all.binaryLength
        decreases |buffer|, Rank(binaryLength)
      {
        ghost var buffer0, binaryLength0, tokens0 := buffer, binaryLength, tokens;
        if binaryLength == NoBlob {
          var lineSeparatorIndex := IndexOf(buffer, LineFeed);
          if lineSeparatorIndex < 0 {
            assert Step(buffer, binaryLength).None?;
            break;
          }
          var decodedLine := Latin1(buffer[..lineSeparatorIndex]);
          buffer := buffer[lineSeparatorIndex + 1..];
          if StartsWith(decodedLine, BinaryPrefix) {
            binaryLength := HeaderLength(decodedLine);
            assert Step(buffer0, NoBlob) == Some(Decoded([], buffer, binaryLength));
          } else {
            tokens := tokens + [TextLine(decodedLine)];
            assert Step(buffer0, NoBlob) == Some(Decoded([TextLine(decodedLine)], buffer, NoBlob));
          }
        } else {
          if binaryLength.Length? && |buffer| <= binaryLength.n {
            assert Step(buffer, binaryLength).None?;
            break;
          }
          // with a NaN length, `slice(0, NaN)` is empty and `subarray(NaN + 1)` keeps all
          var blob := if binaryLength.Length? then buffer[..binaryLength.n] else [];
          tokens := tokens + [BinaryBlob(blob)];
          buffer := if binaryLength.Length? then buffer[binaryLength.n + 1..] else buffer;
          binaryLength := NoBlob;
          assert Step(buffer0, binaryLength0) == Some(Decoded([BinaryBlob(blob)], buffer, NoBlob));
        }
        ghost var step := Step(buffer0, binaryLength0).value;
        ghost var rest := Decode(buffer, binaryLength);
        assert step.buffer == buffer && step.binaryLength == binaryLength;
        assert Decode(buffer0, binaryLength0) == Decoded(step.tokens + rest.tokens, rest.buffer, rest.binaryLength);
        assert tokens == tokens0 + step.tokens;
        AppendAssociative(tokens0, step.tokens, rest.tokens);
      }
    }
  }
}
