/**
 The line decoder inside `sendMessage` of components/VoraCompanionProFinal.jsx,
 as functions. The response body arrives as a sequence of already-decoded text
 chunks. Each chunk is split on '\n' on its own, the lines whose trimmed form
 starts with "data: " are kept, and each kept line is handled in order:
 a leading "data: " is cut off, a `[DONE]` payload ends the handling of that
 chunk, and any other payload is parsed and its content token appended to the
 reply. `JSON.parse` followed by `choices?.[0]?.delta?.content || ''` is the
 parameter `extract`: `None` when parsing (or the property access) throws,
 `Some("")` when the content is missing or falsy, `Some(t)` otherwise.
 */
module StreamDecoder {
  import opened JsString

  datatype Option<T> = None | Some(value: T)

  const DataPrefix: string := "data: "
  const DoneSentinel: string := "[DONE]"
  const Newline: char := '\n'

  /** The filter on each split line: `line.trim().startsWith('data: ')`. */
  predicate IsDataLine(line: string) {
    StartsWith(Trim(line), DataPrefix)
  }

  /**
   `line.replace(/^data: /, '')`: the anchored prefix is removed only where it
   opens the untrimmed line.
   */
  function StripDataPrefix(line: string): (payload: string)
    ensures StartsWith(line, DataPrefix) ==> line == DataPrefix + payload
    ensures !StartsWith(line, DataPrefix) ==> payload == line
  {
    if StartsWith(line, DataPrefix) then line[|DataPrefix|..] else line
  }

  /** `xs.filter(keep)`: the elements that pass, in their order. */
  function Filter<T>(xs: seq<T>, keep: T -> bool): (kept: seq<T>)
    ensures |kept| <= |xs|
    decreases |xs|
  {
    if xs == [] then []
    else
      var last := xs[|xs| - 1];
      Filter(xs[..|xs| - 1], keep) + if keep(last) then [last] else []
  }

  /** The filter keeps exactly the elements that pass. */
  lemma {:induction false} FilterKeeps<T>(xs: seq<T>, keep: T -> bool)
    ensures forall x :: x in Filter(xs, keep) <==> x in xs && keep(x)
    decreases |xs|
  {
    if xs != [] {
      FilterKeeps(xs[..|xs| - 1], keep);
      assert xs == xs[..|xs| - 1] + [xs[|xs| - 1]];
    }
  }

  /** The lines of one chunk that the inner loop visits: `chunk.split('\n').filter(isDataLine)`. */
  function DataLines(chunk: string): seq<string> {
    Filter(Split(chunk, Newline), IsDataLine)
  }

  /** What one visited line does to the reply. */
  datatype LineOutcome =
    | Sentinel            // payload `[DONE]`: leave the lines of this chunk
    | Unparsable          // the parse threw: logged, line skipped
    | Token(text: string) // the token appended to the reply

  /** The tokens a visited line appends to the reply: its token, or none. */
  function Emitted(outcome: LineOutcome): seq<string> {
    if outcome.Token? then [outcome.text] else []
  }

  function Classify(line: string, extract: string -> Option<string>): LineOutcome {
    var payload := StripDataPrefix(line);
    if payload == DoneSentinel then Sentinel
    else match extract(payload)
      case None => Unparsable
      case Some(t) => Token(t)
  }

  /**
   Among the lines that pass the filter, only the literal line
   `data: [DONE]` is the sentinel: the test is on the payload left by the
   anchored strip, so an indented `  data: [DONE]` or a `data: [DONE]\r`
   does not end its chunk.
   */
  lemma SentinelLineIsLiteral(line: string, extract: string -> Option<string>)
    requires IsDataLine(line)
    ensures Classify(line, extract) == Sentinel <==> line == DataPrefix + DoneSentinel
  {
    var framed := DataPrefix + DoneSentinel;
    assert framed[..|DataPrefix|] == DataPrefix && framed[|DataPrefix|..] == DoneSentinel;
    if StartsWith(line, DataPrefix) {
      assert line == DataPrefix + line[|DataPrefix|..];
    } else {
      OpensWithOtherChar(DoneSentinel);
      assert line != DoneSentinel;
      assert line != framed;
    }
  }

  /** Whether some line of `lines` is a `[DONE]` line. */
  predicate HasSentinel(lines: seq<string>, extract: string -> Option<string>) {
    lines != [] && (Classify(lines[0], extract) == Sentinel || HasSentinel(lines[1..], extract))
  }

  /** `HasSentinel` holds exactly when one of the lines classifies as the sentinel. */
  lemma {:induction false} HasSentinelIff(lines: seq<string>, extract: string -> Option<string>)
    ensures HasSentinel(lines, extract) <==> exists i :: 0 <= i < |lines| && Classify(lines[i], extract) == Sentinel
    decreases |lines|
  {
    if lines != [] {
      HasSentinelIff(lines[1..], extract);
      if HasSentinel(lines[1..], extract) {
        var i :| 0 <= i < |lines[1..]| && Classify(lines[1..][i], extract) == Sentinel;
        assert lines[i + 1] == lines[1..][i];
      }
      if exists i :: 0 <= i < |lines| && Classify(lines[i], extract) == Sentinel {
        var i :| 0 <= i < |lines| && Classify(lines[i], extract) == Sentinel;
        if i > 0 { assert lines[1..][i - 1] == lines[i]; }
      }
    }
  }

  /**
   The tokens the inner `for` loop appends, in order: it stops at the first
   sentinel, and every token comes from a line of the input.
   */
  function LineTokens(lines: seq<string>, extract: string -> Option<string>): (tokens: seq<string>)
    ensures |tokens| <= |lines|
  {
    if lines == [] then []
    else match Classify(lines[0], extract)
      case Sentinel => []
      case Unparsable => LineTokens(lines[1..], extract)
      case Token(t) => [t] + LineTokens(lines[1..], extract)
  }

  /** Every token the inner loop yields is the extracted content of one of its lines. */
  lemma {:induction false} LineTokensFromLines(lines: seq<string>, extract: string -> Option<string>)
    ensures forall t :: t in LineTokens(lines, extract) ==> exists l :: l in lines && Classify(l, extract) == Token(t)
    decreases |lines|
  {
    if lines != [] {
      LineTokensFromLines(lines[1..], extract);
      assert forall l :: l in lines[1..] ==> l in lines;
    }
  }

  /** The tokens one chunk contributes. */
  function ChunkTokens(chunk: string, extract: string -> Option<string>): seq<string> {
    LineTokens(DataLines(chunk), extract)
  }

  /** `f` applied to each element, the results concatenated in order. */
  function FlatMap<T, U>(xs: seq<T>, f: T -> seq<U>): seq<U>
    decreases |xs|
  {
    if xs == [] then [] else FlatMap(xs[..|xs| - 1], f) + f(xs[|xs| - 1])
  }

  /** `ChunkTokens` as a function of the chunk alone, for a fixed `extract`. */
  function ChunkDecoder(extract: string -> Option<string>): string -> seq<string> {
    chunk => ChunkTokens(chunk, extract)
  }

  /** The tokens of the whole stream: the chunks' tokens, chunk after chunk. */
  function Tokens(chunks: seq<string>, extract: string -> Option<string>): seq<string> {
    FlatMap(chunks, ChunkDecoder(extract))
  }

  /** The in-order concatenation of a sequence of sequences (of tokens: the text they spell). */
  function Concat<T>(parts: seq<seq<T>>): seq<T>
    decreases |parts|
  {
    if parts == [] then [] else Concat(parts[..|parts| - 1]) + parts[|parts| - 1]
  }

  /** The final value of the accumulator `result`. */
  function StreamText(chunks: seq<string>, extract: string -> Option<string>): string {
    Concat(Tokens(chunks, extract))
  }

  /**
   The successive values written to the last message's text, one per token:
   the k-th is the concatenation of the first k+1 tokens.
   */
  function Snapshots(tokens: seq<string>): (texts: seq<string>)
    ensures |texts| == |tokens|
    decreases |tokens|
  {
    if tokens == [] then [] else Snapshots(tokens[..|tokens| - 1]) + [Concat(tokens)]
  }

  /** The k-th value written is the accumulator after the first k+1 tokens. */
  lemma {:induction false} SnapshotsAt(tokens: seq<string>)
    ensures forall k :: 0 <= k < |tokens| ==> Snapshots(tokens)[k] == Concat(tokens[..k + 1])
    decreases |tokens|
  {
    if tokens != [] {
      var init := tokens[..|tokens| - 1];
      SnapshotsAt(init);
      forall k | 0 <= k < |tokens| ensures Snapshots(tokens)[k] == Concat(tokens[..k + 1]) {
        if k < |init| {
          assert init[..k + 1] == tokens[..k + 1];
        } else {
          assert tokens[..k + 1] == tokens;
        }
      }
    }
  }

  // ---------------------------------------------------------------------
  // Algebra of the pieces
  // ---------------------------------------------------------------------

  lemma {:induction false} ConcatAppend<T>(a: seq<seq<T>>, b: seq<seq<T>>)
    ensures Concat(a + b) == Concat(a) + Concat(b)
    decreases |b|
  {
    if b == [] {
      assert a + b == a;
    } else {
      var b', last := b[..|b| - 1], b[|b| - 1];
      calc {
        Concat(a + b);
        { assert (a + b)[..|a + b| - 1] == a + b' && (a + b)[|a + b| - 1] == last; }
        Concat(a + b') + last;
        { ConcatAppend(a, b'); }
        Concat(a) + Concat(b') + last;
        Concat(a) + (Concat(b') + last);
      }
    }
  }

  lemma {:induction false} FlatMapAppend<T, U>(a: seq<T>, b: seq<T>, f: T -> seq<U>)
    ensures FlatMap(a + b, f) == FlatMap(a, f) + FlatMap(b, f)
    decreases |b|
  {
    if b == [] {
      assert a + b == a;
    } else {
      var b' := b[..|b| - 1];
      assert (a + b)[..|a + b| - 1] == a + b';
      FlatMapAppend(a, b', f);
    }
  }

  lemma {:induction false} FilterAppend<T>(a: seq<T>, b: seq<T>, keep: T -> bool)
    ensures Filter(a + b, keep) == Filter(a, keep) + Filter(b, keep)
    decreases |b|
  {
    if b == [] {
      assert a + b == a;
    } else {
      var b' := b[..|b| - 1];
      assert (a + b)[..|a + b| - 1] == a + b';
      FilterAppend(a, b', keep);
    }
  }

  /**
   The inner loop's tokens over two runs of lines: the second run is reached
   only when no sentinel occurs in the first.
   */
  lemma {:induction false} LineTokensAppend(a: seq<string>, b: seq<string>, extract: string -> Option<string>)
    ensures LineTokens(a + b, extract) ==
            if HasSentinel(a, extract) then LineTokens(a, extract)
            else LineTokens(a, extract) + LineTokens(b, extract)
    decreases |a|
  {
    if a == [] {
      assert a + b == b;
    } else {
      assert (a + b)[0] == a[0];
      assert (a + b)[1..] == a[1..] + b;
      LineTokensAppend(a[1..], b, extract);
    }
  }

  lemma TokensAppend(a: seq<string>, b: seq<string>, extract: string -> Option<string>)
    ensures Tokens(a + b, extract) == Tokens(a, extract) + Tokens(b, extract)
  {
    FlatMapAppend(a, b, ChunkDecoder(extract));
  }

  /** One step of the inner loop, read off the line it visits. */
  lemma LineTokensStep(lines: seq<string>, j: nat, extract: string -> Option<string>)
    requires j < |lines|
    ensures Classify(lines[j], extract) == Sentinel ==> LineTokens(lines[j..], extract) == []
    ensures Classify(lines[j], extract) != Sentinel ==>
              LineTokens(lines[j..], extract) == Emitted(Classify(lines[j], extract)) + LineTokens(lines[j + 1..], extract)
  {
    assert lines[j..][0] == lines[j] && lines[j..][1..] == lines[j + 1..];
    assert [] + LineTokens(lines[j + 1..], extract) == LineTokens(lines[j + 1..], extract);
  }

  /** One step of the outer loop: the next chunk's tokens follow those before it. */
  lemma TokensStep(chunks: seq<string>, i: nat, extract: string -> Option<string>)
    requires i < |chunks|
    ensures Tokens(chunks[..i + 1], extract) == Tokens(chunks[..i], extract) + ChunkTokens(chunks[i], extract)
  {
    assert chunks[..i + 1][..i] == chunks[..i];
    assert ChunkDecoder(extract)(chunks[i]) == ChunkTokens(chunks[i], extract);
  }

  /** Appending one token extends the accumulator by it and adds one snapshot, the new accumulator. */
  lemma AccumulateStep(tokens: seq<string>, t: string)
    ensures Concat(tokens + [t]) == Concat(tokens) + t
    ensures Snapshots(tokens + [t]) == Snapshots(tokens) + [Concat(tokens) + t]
  {
    assert (tokens + [t])[..|tokens|] == tokens;
  }

  // ---------------------------------------------------------------------
  // Properties of the decoder
  // ---------------------------------------------------------------------

  /**
   The chunks are decoded independently and in order: the reply of a stream
   is the reply of its first part followed by the reply of the rest.
   */
  lemma StreamTextAppend(a: seq<string>, b: seq<string>, extract: string -> Option<string>)
    ensures StreamText(a + b, extract) == StreamText(a, extract) + StreamText(b, extract)
  {
    TokensAppend(a, b, extract);
    ConcatAppend(Tokens(a, extract), Tokens(b, extract));
  }

  /**
   A chunk written as separate lines is decoded line by line: splitting it
   gives back exactly those lines, so its tokens are the inner loop's tokens
   over the lines kept by the filter.
   */
  lemma ChunkOfLines(lines: seq<string>, extract: string -> Option<string>)
    requires |lines| >= 1
    requires forall i :: 0 <= i < |lines| ==> Newline !in lines[i]
    ensures ChunkTokens(Join(lines, Newline), extract) == LineTokens(Filter(lines, IsDataLine), extract)
  {
    SplitJoin(lines, Newline);
  }

  /** A `[DONE]` payload contributes nothing and drops every later line of its chunk. */
  lemma SentinelStopsChunk(before: seq<string>, done: string, after: seq<string>,
                           extract: string -> Option<string>)
    requires Classify(done, extract) == Sentinel
    ensures LineTokens(before + [done] + after, extract) == LineTokens(before, extract)
  {
    assert before + [done] + after == before + ([done] + after);
    LineTokensAppend(before, [done] + after, extract);
  }

  /**
   Only the end of the stream ends decoding: whatever a chunk holds, a
   `[DONE]` line included, the chunks after it are decoded as well.
   */
  lemma LaterChunksStillDecoded(chunks: seq<string>, i: nat, extract: string -> Option<string>)
    requires i < |chunks|
    ensures StreamText(chunks, extract) ==
            StreamText(chunks[..i], extract) + Concat(ChunkTokens(chunks[i], extract))
            + StreamText(chunks[i + 1..], extract)
  {
    var before, after := chunks[..i], chunks[i + 1..];
    assert chunks == before + ([chunks[i]] + after);
    StreamTextAppend(before, [chunks[i]] + after, extract);
    StreamTextAppend([chunks[i]], after, extract);
    OneChunk(chunks[i], extract);
  }

  /** A line whose parse throws contributes nothing; the lines after it are still handled. */
  lemma UnparsableLineSkipped(before: seq<string>, bad: string, after: seq<string>,
                              extract: string -> Option<string>)
    requires Classify(bad, extract) == Unparsable
    ensures LineTokens(before + [bad] + after, extract) == LineTokens(before + after, extract)
  {
    assert before + [bad] + after == before + ([bad] + after);
    LineTokensAppend(before, [bad] + after, extract);
    LineTokensAppend(before, after, extract);
  }

  /** A parsed line appends its token after those of the lines before it, ahead of those after it. */
  lemma TokenLineAppends(before: seq<string>, line: string, after: seq<string>,
                         extract: string -> Option<string>)
    requires !HasSentinel(before, extract)
    requires Classify(line, extract).Token?
    ensures LineTokens(before + [line] + after, extract) ==
            LineTokens(before, extract) + [Classify(line, extract).text] + LineTokens(after, extract)
  {
    var rest := [line] + after;
    var t, x, y := Classify(line, extract).text, LineTokens(before, extract), LineTokens(after, extract);
    assert LineTokens(rest, extract) == [t] + y by {
      LineTokensStep(rest, 0, extract);
      assert rest[0..] == rest && rest[0] == line && rest[1..] == after;
    }
    calc {
      LineTokens(before + [line] + after, extract);
      { assert before + [line] + after == before + rest; }
      LineTokens(before + rest, extract);
      { LineTokensAppend(before, rest, extract); }
      x + ([t] + y);
      x + [t] + y;
    }
  }

  /** A line that fails the filter never contributes a token. */
  lemma NonDataLineIgnored(before: seq<string>, line: string, after: seq<string>,
                           extract: string -> Option<string>)
    requires !IsDataLine(line)
    ensures LineTokens(Filter(before + [line] + after, IsDataLine), extract) ==
            LineTokens(Filter(before + after, IsDataLine), extract)
  {
    FilterAppend(before + [line], after, IsDataLine);
    FilterAppend(before, [line], IsDataLine);
    FilterAppend(before, after, IsDataLine);
    assert Filter([line], IsDataLine) == [];
    assert Filter(before, IsDataLine) + [] == Filter(before, IsDataLine);
  }

  /**
   The last message's text only grows: each value written is a prefix of the
   next one and of the final reply, and the last one written is the reply.
   */
  lemma SnapshotsGrow(tokens: seq<string>)
    ensures forall k :: 0 <= k < |Snapshots(tokens)| - 1 ==> Snapshots(tokens)[k] <= Snapshots(tokens)[k + 1]
    ensures forall k :: 0 <= k < |Snapshots(tokens)| ==> Snapshots(tokens)[k] <= Concat(tokens)
    ensures tokens != [] ==> Snapshots(tokens)[|tokens| - 1] == Concat(tokens)
  {
    var texts := Snapshots(tokens);
    SnapshotsAt(tokens);
    forall k | 0 <= k < |texts| - 1 ensures texts[k] <= texts[k + 1] {
      assert tokens[..k + 2][..k + 1] == tokens[..k + 1];
    }
    forall k | 0 <= k < |texts| ensures texts[k] <= Concat(tokens) {
      assert tokens == tokens[..k + 1] + tokens[k + 1..];
      ConcatAppend(tokens[..k + 1], tokens[k + 1..]);
    }
    assert tokens != [] ==> tokens[..|tokens|] == tokens;
  }

  /**
   A line contributes a token exactly when its trimmed form starts with
   "data: ", its payload is not `[DONE]` and the payload parses; the token is
   then the extracted content, and any other line contributes nothing.
   */
  lemma LineContributesIff(line: string, extract: string -> Option<string>)
    requires Newline !in line
    ensures ChunkTokens(line, extract) != [] <==>
            IsDataLine(line) && StripDataPrefix(line) != DoneSentinel && extract(StripDataPrefix(line)).Some?
    ensures ChunkTokens(line, extract) != [] ==>
            ChunkTokens(line, extract) == [extract(StripDataPrefix(line)).value]
  {
    SplitJoin([line], Newline);
    assert Split(line, Newline) == [line];
    assert [line][1..] == [];
  }

  /**
   The strip is anchored at the start of the untrimmed line: a data line with
   leading whitespace keeps its "data: " and the whole line goes to the parse
   (which for JSON then throws, so the line is skipped).
   */
  lemma IndentedDataLine(p: string, rest: string, extract: string -> Option<string>)
    requires p != [] && AllWhitespace(p)
    requires StartsWith(rest, DataPrefix) && !AllWhitespace(rest[|DataPrefix|..])
    ensures IsDataLine(p + rest)
    ensures StripDataPrefix(p + rest) == p + rest
    ensures Classify(p + rest, extract) ==
            if extract(p + rest).Some? then Token(extract(p + rest).value) else Unparsable
  {
    TrimmedDataLine(p, rest);
    assert (p + rest)[0] == p[0];
    assert DoneSentinel[0] == '[';
  }

  /**
   Whitespace, then `data: `, then a payload that is not all whitespace (a
   trailing '\r' included) trims to a string that still opens with `data: `.
   */
  lemma TrimmedDataLine(p: string, rest: string)
    requires AllWhitespace(p)
    requires StartsWith(rest, DataPrefix) && !AllWhitespace(rest[|DataPrefix|..])
    ensures IsDataLine(p + rest)
  {
    var n := TrailingWhitespace(rest);
    var m, q := rest[..|rest| - n], rest[|rest| - n..];
    var x := rest[|DataPrefix|..];
    var i :| 0 <= i < |x| && !IsWhitespace(x[i]);
    assert rest[|DataPrefix| + i] == x[i];
    TrailingWhitespaceBelow(rest, |DataPrefix| + i);
    assert m[..|DataPrefix|] == rest[..|DataPrefix|];
    assert m[0] == 'd';
    assert m[|m| - 1] == rest[|rest| - 1 - n];
    assert p + m + q == p + rest;
    TrimCharacterization(p, m, q);
  }

  /** An event line `data: <payload>` passes the filter and strips to its payload. */
  lemma FramedLine(payload: string)
    requires !AllWhitespace(payload)
    ensures IsDataLine(DataPrefix + payload)
    ensures StripDataPrefix(DataPrefix + payload) == payload
  {
    var line := DataPrefix + payload;
    assert line[..|DataPrefix|] == DataPrefix && line[|DataPrefix|..] == payload;
    assert [] + line == line;
    TrimmedDataLine([], line);
  }

  /** A chunk that carries exactly one well-framed event line `data: <payload>\n`. */
  lemma FramedChunk(payload: string, extract: string -> Option<string>)
    requires !AllWhitespace(payload) && Newline !in payload
    ensures ChunkTokens(DataPrefix + payload + [Newline], extract) ==
            if payload == DoneSentinel then []
            else match extract(payload)
              case None => []
              case Some(t) => [t]
  {
    var line := DataPrefix + payload;
    assert Newline !in line by {
      assert forall i :: 0 <= i < |payload| ==> line[|DataPrefix| + i] == payload[i];
    }
    FramedLine(payload);
    DataLineChunk(line, extract);
    assert DataPrefix + payload + [Newline] == line + [Newline];
    assert [line][0] == line && [line][1..] == [];
  }

  /** A chunk made of one line that passes the filter, and its newline, is that line alone. */
  lemma DataLineChunk(line: string, extract: string -> Option<string>)
    requires Newline !in line && IsDataLine(line)
    ensures ChunkTokens(line + [Newline], extract) == LineTokens([line], extract)
  {
    var lines := [line, ""];
    assert !IsDataLine("") by { assert |Trim("")| == 0; }
    assert Filter(lines, IsDataLine) == [line] by {
      assert lines[..1] == [line] && [line][..0] == [];
      assert Filter(lines, IsDataLine) == Filter([line], IsDataLine);
    }
    assert Join(lines, Newline) == line + [Newline] + Join([""], Newline) by {
      assert lines[1..] == [""];
    }
    assert line + [Newline] + "" == line + [Newline];
    ChunkOfLines(lines, extract);
  }

  // ---------------------------------------------------------------------
  // Worked streams
  // ---------------------------------------------------------------------

  const PonPayload: string := "{\"choices\":[{\"delta\":{\"content\":\"pon\"}}]}"
  const GPayload: string := "{\"choices\":[{\"delta\":{\"content\":\"g\"}}]}"

  /** The reply to "ping" streamed as two content events and the sentinel, one per chunk. */
  const PingReply: seq<string> :=
    [DataPrefix + PonPayload + "\n", DataPrefix + GPayload + "\n", DataPrefix + DoneSentinel + "\n"]

  /** A stream of one chunk yields that chunk's tokens. */
  lemma OneChunk(c: string, extract: string -> Option<string>)
    ensures Tokens([c], extract) == ChunkTokens(c, extract)
  {
    var f := ChunkDecoder(extract);
    assert [c][..0] == [];
    assert FlatMap([c], f) == FlatMap([], f) + f(c);
    assert f(c) == ChunkTokens(c, extract);
  }

  lemma PonChunk(extract: string -> Option<string>)
    requires extract(PonPayload) == Some("pon")
    ensures ChunkTokens(PingReply[0], extract) == ["pon"]
  {
    assert Newline !in PonPayload && !IsWhitespace(PonPayload[0]);
    FramedChunk(PonPayload, extract);
  }

  lemma GChunk(extract: string -> Option<string>)
    requires extract(GPayload) == Some("g")
    ensures ChunkTokens(PingReply[1], extract) == ["g"]
  {
    assert Newline !in GPayload && !IsWhitespace(GPayload[0]);
    FramedChunk(GPayload, extract);
  }

  lemma DoneChunk(extract: string -> Option<string>)
    ensures ChunkTokens(PingReply[2], extract) == []
  {
    assert Newline !in DoneSentinel && !IsWhitespace(DoneSentinel[0]);
    FramedChunk(DoneSentinel, extract);
  }

  /** A stream of three chunks yields their tokens in order. */
  lemma ThreeChunks(c1: string, c2: string, c3: string, extract: string -> Option<string>)
    ensures Tokens([c1, c2, c3], extract) ==
            ChunkTokens(c1, extract) + ChunkTokens(c2, extract) + ChunkTokens(c3, extract)
  {
    assert [c1, c2, c3] == [c1, c2] + [c3];
    TokensAppend([c1, c2], [c3], extract);
    TwoChunks(c1, c2, extract);
    OneChunk(c3, extract);
  }

  lemma PingReplyTokens(extract: string -> Option<string>)
    requires extract(PonPayload) == Some("pon") && extract(GPayload) == Some("g")
    ensures Tokens(PingReply, extract) == ["pon", "g"]
  {
    PonChunk(extract);
    GChunk(extract);
    DoneChunk(extract);
    ThreeChunks(PingReply[0], PingReply[1], PingReply[2], extract);
    assert PingReply == [PingReply[0], PingReply[1], PingReply[2]];
  }

  /** The reply to "ping" built from the tokens "pon" and "g" is "pong". */
  lemma PingReplyIsPong(extract: string -> Option<string>)
    requires extract(PonPayload) == Some("pon") && extract(GPayload) == Some("g")
    ensures StreamText(PingReply, extract) == "pong"
  {
    PingReplyTokens(extract);
    assert ["pon", "g"][..1] == ["pon"];
    assert ["pon"][..0] == [];
  }

  /** An event line cut in the middle of its JSON: the payload part the first chunk carries. */
  const CutHeadPayload: string := "{\"choices\":[{\"delta\":{\"con"
  /** The rest of that line, which the second chunk carries before the newline. */
  const CutTailLine: string := "tent\":\"pon\"}}]}"
  const CutHead: string := DataPrefix + CutHeadPayload
  const CutTail: string := CutTailLine + "\n"

  lemma CutHeadSkipped(extract: string -> Option<string>)
    requires extract(CutHeadPayload) == None
    ensures ChunkTokens(CutHead, extract) == []
  {
    assert !IsWhitespace(CutHeadPayload[0]);
    FramedLine(CutHeadPayload);
    assert Newline !in CutHead;
    LineContributesIff(CutHead, extract);
  }

  /** A chunk made of one line that fails the filter, and its newline, contributes nothing. */
  lemma FilteredChunk(line: string, extract: string -> Option<string>)
    requires Newline !in line && !IsDataLine(line)
    ensures ChunkTokens(line + [Newline], extract) == []
  {
    assert line + [Newline] == Join([line, ""], Newline);
    ChunkOfLines([line, ""], extract);
    assert Trim("") == "";
    assert Filter([line, ""], IsDataLine) == [] by {
      assert [line, ""][..1] == [line];
      assert [line][..0] == [];
    }
  }

  /** A line that opens with a character other than whitespace or 'd' fails the filter. */
  lemma OpensWithOtherChar(line: string)
    requires line != [] && !IsWhitespace(line[0]) && line[0] != DataPrefix[0]
    ensures !IsDataLine(line)
  {
    assert LeadingWhitespace(line) == 0;
    assert line[0..] == line;
    var r := Trim(line);
    assert r != [] by { assert !AllWhitespace(line); }
    assert r[0] == line[0];
  }

  lemma CutTailFiltered(extract: string -> Option<string>)
    ensures ChunkTokens(CutTail, extract) == []
  {
    assert CutTailLine[0] == 't';
    OpensWithOtherChar(CutTailLine);
    assert Newline !in CutTailLine;
    FilteredChunk(CutTailLine, extract);
  }

  lemma CutPiecesJoin()
    ensures CutHead + CutTail == PingReply[0]
  {
    assert CutHeadPayload + CutTailLine == PonPayload;
  }

  /** Two chunks yield their tokens in order. */
  lemma TwoChunks(c1: string, c2: string, extract: string -> Option<string>)
    ensures Tokens([c1, c2], extract) == ChunkTokens(c1, extract) + ChunkTokens(c2, extract)
  {
    assert [c1, c2] == [c1] + [c2];
    TokensAppend([c1], [c2], extract);
    OneChunk(c1, extract);
    OneChunk(c2, extract);
  }

  /**
   Each chunk is split on its own, so an event line delivered in two chunks is
   not put back together: the head's payload is incomplete JSON and is
   skipped, the tail fails the filter, and the token is lost, whereas the
   same characters in one chunk give it.
   */
  lemma CutLineIsLost(extract: string -> Option<string>)
    requires extract(PonPayload) == Some("pon")
    requires extract(CutHeadPayload) == None
    ensures CutHead + CutTail == PingReply[0]
    ensures StreamText([PingReply[0]], extract) == "pon"
    ensures StreamText([CutHead, CutTail], extract) == ""
  {
    CutPiecesJoin();
    PonChunk(extract);
    OneChunk(PingReply[0], extract);
    assert ["pon"][..0] == [];
    CutHeadSkipped(extract);
    CutTailFiltered(extract);
    TwoChunks(CutHead, CutTail, extract);
  }
}
