/**
 How server-sent events are written: frames of `data:` lines among other lines, each
 line ended by a line feed with or without a carriage return, and a frame ended by an
 empty line. What the frame splitter and the data reader make of it are the payloads.
 */
module SseWriting {
  import opened Outcomes
  import opened SseFraming

  datatype Line = Data(blanks: string, payload: string) | Other(text: string)

  datatype Newline = Lf | CrLf

  /** At least one line, with a line end between each two. */
  datatype Frame = Last(line: Line) | More(line: Line, end: Newline, rest: Frame)

  /** Frames, each ended by an empty line, and possibly one that the end of the stream cuts short. */
  datatype Stream = End | Unended(frame: Frame) | Ended(frame: Frame, first: Newline, second: Newline, rest: Stream)

  // ---- Well-formed writing ------------------------------------------------------------

  predicate NoBreak(s: string) {
    forall i | 0 <= i < |s| :: s[i] != '\r' && s[i] != '\n'
  }

  /** A payload does not begin with a blank, and no line breaks inside; other lines are not empty and no data lines. */
  predicate IsLine(l: Line) {
    match l
    case Data(blanks, payload) =>
      NoBreak(blanks) && NoBreak(payload) && (forall i | 0 <= i < |blanks| :: IsBlank(blanks[i]))
      && (payload == "" || !IsBlank(payload[0]))
    case Other(text) => text != "" && NoBreak(text) && !("data:" <= text)
  }

  predicate IsFrame(f: Frame) {
    IsLine(f.line) && (f.More? ==> IsFrame(f.rest))
  }

  predicate IsStream(s: Stream) {
    match s
    case End => true
    case Unended(frame) => IsFrame(frame)
    case Ended(frame, _, _, rest) => IsFrame(frame) && IsStream(rest)
  }

  // ---- The text ----------------------------------------------------------------------------

  function NewlineText(n: Newline): string {
    if n.Lf? then "\n" else "\r\n"
  }

  function LineText(l: Line): string {
    match l
    case Data(blanks, payload) => "data:" + blanks + payload
    case Other(text) => text
  }

  function FrameText(f: Frame): string {
    if f.Last? then LineText(f.line) else LineText(f.line) + (NewlineText(f.end) + FrameText(f.rest))
  }

  function StreamText(s: Stream): string {
    match s
    case End => ""
    case Unended(frame) => FrameText(frame)
    case Ended(frame, first, second, rest) => FrameText(frame) + (NewlineText(first) + NewlineText(second) + StreamText(rest))
  }

  // ---- What was written -----------------------------------------------------------------------

  function PayloadLines(f: Frame): seq<string> {
    (if f.line.Data? then [f.line.payload] else []) + if f.More? then PayloadLines(f.rest) else []
  }

  /** The payload of a frame: those of its data lines, joined by line feeds. */
  function Payload(f: Frame): string {
    JoinLines(PayloadLines(f))
  }

  function JoinLines(lines: seq<string>): string {
    if |lines| == 0 then ""
    else if |lines| == 1 then lines[0]
    else lines[0] + "\n" + JoinLines(lines[1..])
  }

  /** The payloads of a stream in order; a frame without one counts for nothing. */
  function Payloads(s: Stream): seq<string> {
    match s
    case End => []
    case Unended(frame) => NonEmpty(Payload(frame))
    case Ended(frame, _, _, rest) => NonEmpty(Payload(frame)) + Payloads(rest)
  }

  function NonEmpty(payload: string): seq<string> {
    if payload == "" then [] else [payload]
  }

  // ---- Lines ------------------------------------------------------------------------------------

  lemma LineTextHasNoBreak(l: Line)
    requires IsLine(l)
    ensures LineText(l) != "" && NoBreak(LineText(l))
  {}

  lemma NewlineIsLineEnd(n: Newline, rest: string)
    ensures LineEnd(NewlineText(n) + rest) == |NewlineText(n)|
    ensures (NewlineText(n) + rest)[|NewlineText(n)|..] == rest
  {
    var t := NewlineText(n) + rest;
    assert t[0] == NewlineText(n)[0];
    if n.CrLf? { assert t[1] == '\n'; }
  }

  /** Within a line nothing is split off; its end is where it stops. */
  lemma {:induction false} SplitLine(line: string, rest: string, before: string)
    requires NoBreak(line) && (rest == "" || LineEnd(rest) > 0)
    ensures SplitLines(line + rest, before)
            == [before + line] + if rest == "" then [] else SplitLines(rest[LineEnd(rest)..])
    decreases |line|
  {
    if line == "" {
      assert line + rest == rest && before + line == before;
    } else {
      var text := line + rest;
      assert text[0] == line[0] && text[1..] == line[1..] + rest;
      SplitLine(line[1..], rest, before + [line[0]]);
      assert before + [line[0]] + line[1..] == before + line;
    }
  }

  function LineTexts(f: Frame): seq<string> {
    [LineText(f.line)] + if f.More? then LineTexts(f.rest) else []
  }

  lemma {:induction false} FrameSplitsIntoLines(f: Frame)
    requires IsFrame(f)
    ensures SplitLines(FrameText(f)) == LineTexts(f)
  {
    var line := LineText(f.line);
    LineTextHasNoBreak(f.line);
    if f.Last? {
      SplitLine(line, "", "");
      assert line + "" == line && "" + line == line;
    } else {
      var rest := NewlineText(f.end) + FrameText(f.rest);
      NewlineIsLineEnd(f.end, FrameText(f.rest));
      SplitLine(line, rest, "");
      assert "" + line == line;
      FrameSplitsIntoLines(f.rest);
    }
  }

  lemma {:induction false} TrimBlanks(blanks: string, payload: string)
    requires (forall i | 0 <= i < |blanks| :: IsBlank(blanks[i])) && (payload == "" || !IsBlank(payload[0]))
    ensures TrimStart(blanks + payload) == payload
  {
    if blanks == "" {
      assert blanks + payload == payload;
    } else {
      assert (blanks + payload)[0] == blanks[0] && (blanks + payload)[1..] == blanks[1..] + payload;
      TrimBlanks(blanks[1..], payload);
    }
  }

  lemma LineIsData(l: Line)
    requires IsLine(l)
    ensures FIELD <= LineText(l) <==> l.Data?
    ensures l.Data? ==> TrimStart(LineText(l)[|FIELD|..]) == l.payload
  {
    if l.Data? {
      assert LineText(l)[..5] == "data:" && LineText(l)[5..] == l.blanks + l.payload;
      TrimBlanks(l.blanks, l.payload);
    }
  }

  lemma {:induction false} DataLinesOfFrame(f: Frame)
    requires IsFrame(f)
    ensures DataLines(LineTexts(f)) == PayloadLines(f)
  {
    LineIsData(f.line);
    if f.More? {
      DataLinesOfFrame(f.rest);
      assert LineTexts(f)[1..] == LineTexts(f.rest);
    } else {
      assert LineTexts(f)[1..] == [];
    }
  }

  lemma {:induction false} JoinIsJoinLines(lines: seq<string>)
    ensures Join(lines) == JoinLines(lines)
  {
    if |lines| > 1 { JoinIsJoinLines(lines[1..]); }
  }

  /** The data read from a written frame is its payload. */
  lemma SseDataIsPayload(f: Frame)
    requires IsFrame(f)
    ensures SseData(FrameText(f)) == Payload(f)
  {
    FrameSplitsIntoLines(f);
    DataLinesOfFrame(f);
    JoinIsJoinLines(PayloadLines(f));
  }

  // ---- Frames ---------------------------------------------------------------------------------------

  lemma {:induction false} NoMatchInLine(line: string, rest: string)
    requires NoBreak(line)
    ensures FirstMatch(line + rest) == match FirstMatch(rest) case None => None case Some((i, n)) => Some((i + |line|, n))
    decreases |line|
  {
    if line == "" {
      assert line + rest == rest;
    } else {
      var text := line + rest;
      assert text[0] == line[0] && text[1..] == line[1..] + rest;
      NoMatchInLine(line[1..], rest);
    }
  }

  /** A line end before a line is no separator. */
  lemma NoMatchAtNewline(n: Newline, rest: string)
    requires rest != "" && rest[0] != '\r' && rest[0] != '\n'
    ensures FirstMatch(NewlineText(n) + rest)
            == match FirstMatch(rest) case None => None case Some((i, m)) => Some((i + |NewlineText(n)|, m))
  {
    var text := NewlineText(n) + rest;
    NewlineIsLineEnd(n, rest);
    assert LineEnd(rest) == 0 && FrameEnd(text) == 0;
    if n.CrLf? {
      assert text[1..] == "\n" + rest;
      NewlineIsLineEnd(Lf, rest);
      assert FrameEnd("\n" + rest) == 0 && ("\n" + rest)[1..] == rest;
    } else {
      assert text[1..] == rest;
    }
  }

  lemma FrameTextStarts(f: Frame)
    requires IsFrame(f)
    ensures FrameText(f) != "" && FrameText(f)[0] != '\r' && FrameText(f)[0] != '\n'
  {
    LineTextHasNoBreak(f.line);
  }

  lemma ConcatOnce(x: string, y: string, z: string)
    ensures x + y + z == x + (y + z)
  {}

  /** No separator inside a frame. */
  lemma {:induction false} NoMatchInFrame(f: Frame, rest: string)
    requires IsFrame(f)
    ensures FirstMatch(FrameText(f) + rest)
            == match FirstMatch(rest) case None => None case Some((i, n)) => Some((i + |FrameText(f)|, n))
  {
    var line := LineText(f.line);
    LineTextHasNoBreak(f.line);
    if f.Last? {
      NoMatchInLine(line, rest);
    } else {
      var inner := FrameText(f.rest) + rest;
      FrameTextStarts(f.rest);
      NoMatchInFrame(f.rest, rest);
      NoMatchAtNewline(f.end, inner);
      NoMatchInLine(line, NewlineText(f.end) + inner);
      ConcatOnce(line, NewlineText(f.end) + FrameText(f.rest), rest);
      ConcatOnce(NewlineText(f.end), FrameText(f.rest), rest);
    }
  }

  lemma SeparatorMatches(first: Newline, second: Newline, rest: string)
    ensures var text := NewlineText(first) + NewlineText(second) + rest;
            FirstMatch(text) == Some((0, |NewlineText(first)| + |NewlineText(second)|))
  {
    var text := NewlineText(first) + NewlineText(second) + rest;
    ConcatOnce(NewlineText(first), NewlineText(second), rest);
    NewlineIsLineEnd(first, NewlineText(second) + rest);
    NewlineIsLineEnd(second, rest);
    assert FrameEnd(text) == |NewlineText(first)| + |NewlineText(second)|;
  }

  function FrameTexts(s: Stream): seq<string> {
    match s
    case End => [""]
    case Unended(frame) => [FrameText(frame)]
    case Ended(frame, _, _, rest) => [FrameText(frame)] + FrameTexts(rest)
  }

  lemma Slices(a: string, b: string, c: string)
    ensures (a + (b + c))[..|a|] == a && (a + (b + c))[|a| + |b|..] == c
  {}

  lemma EndedFrameSplits(frame: Frame, first: Newline, second: Newline, rest: string)
    requires IsFrame(frame)
    ensures SplitFrames(FrameText(frame) + (NewlineText(first) + NewlineText(second) + rest)) == [FrameText(frame)] + SplitFrames(rest)
  {
    var f, sep := FrameText(frame), NewlineText(first) + NewlineText(second);
    EndedFrameMatches(frame, first, second, rest);
    Slices(f, sep, rest);
    SplitBetween(f + (sep + rest), f, |f| + |sep|, rest);
  }

  lemma EndedFrameMatches(frame: Frame, first: Newline, second: Newline, rest: string)
    requires IsFrame(frame)
    ensures FirstMatch(FrameText(frame) + (NewlineText(first) + NewlineText(second) + rest))
            == Some((|FrameText(frame)|, |NewlineText(first)| + |NewlineText(second)|))
  {
    SeparatorMatches(first, second, rest);
    NoMatchInFrame(frame, NewlineText(first) + NewlineText(second) + rest);
  }

  lemma SplitBetween(text: string, f: string, k: nat, rest: string)
    requires |f| <= k <= |text| && FirstMatch(text) == Some((|f|, k - |f|)) && text[..|f|] == f && text[k..] == rest
    ensures SplitFrames(text) == [f] + SplitFrames(rest)
  {
    SplitAtMatch(text, |f|, k - |f|);
  }

  /** Splitting a written stream gives its frames, and an empty one after the last empty line. */
  lemma {:induction false} StreamSplitsIntoFrames(s: Stream)
    requires IsStream(s)
    ensures SplitFrames(StreamText(s)) == FrameTexts(s)
  {
    match s
    case End =>
    case Unended(frame) =>
      NoMatchInFrame(frame, "");
      assert FrameText(frame) + "" == FrameText(frame);
    case Ended(frame, first, second, rest) =>
      EndedFrameSplits(frame, first, second, StreamText(rest));
      StreamSplitsIntoFrames(rest);
  }

  lemma {:induction false} CarriedFrames(s: Stream)
    requires IsStream(s)
    ensures DataOf(FrameTexts(s)) == Payloads(s)
  {
    match s
    case End =>
      CarriedOne(SseData, "");
      assert SplitLines("") == [""] && DataLines([""]) == [] by { assert [""][1..] == []; }
    case Unended(frame) =>
      CarriedOne(SseData, FrameText(frame));
      SseDataIsPayload(frame);
    case Ended(frame, _, _, rest) =>
      SseDataIsPayload(frame);
      CarriedConcat(SseData, [FrameText(frame)], FrameTexts(rest));
      CarriedOne(SseData, FrameText(frame));
      CarriedFrames(rest);
  }

  /** What a written stream carries are the payloads that were written. */
  lemma StreamCarriesPayloads(s: Stream)
    requires IsStream(s)
    ensures DataOf(SplitFrames(StreamText(s))) == Payloads(s)
  {
    StreamSplitsIntoFrames(s);
    CarriedFrames(s);
  }
}
