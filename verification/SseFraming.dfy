/**
 Server-sent event framing (section 9.2.6 of the WHATWG HTML Living Standard):
 the incremental reader of the subscription client refines the batch splitter
 of the request client, for every way a stream can be cut into chunks.
 */
module SseFraming {
  import opened Outcomes
  import Utf8

  const CR: char := '\r'
  const LF: char := '\n'

  // ---- Separators -----------------------------------------------------------

  /** The length of the line end `\r?\n` at the start of `s`, 0 if there is none. */
  function LineEnd(s: string): (n: nat)
    ensures n <= |s| && n <= 2
  {
    if |s| >= 1 && s[0] == LF then 1
    else if |s| >= 2 && s[0] == CR && s[1] == LF then 2
    else 0
  }

  /** The length of the frame separator `\r?\n\r?\n` at the start of `s`, 0 if there is none. */
  function FrameEnd(s: string): (n: nat)
    ensures n <= |s| && n <= 4 && (n == 0 || n >= 2)
  {
    var first := LineEnd(s);
    if first == 0 then 0
    else
      var second := LineEnd(s[first..]);
      if second == 0 then 0 else first + second
  }

  /** `regex.exec`: the leftmost separator, as (index, length). */
  function FirstMatch(s: string): (m: Option<(nat, nat)>)
    ensures m.Some? ==> m.value.0 + m.value.1 <= |s| && m.value.1 >= 2
  {
    if s == "" then None
    else if FrameEnd(s) > 0 then Some((0, FrameEnd(s)))
    else
      match FirstMatch(s[1..])
      case None => None
      case Some((i, n)) => Some((i + 1, n))
  }

  /** `text.split(/\r?\n\r?\n/)`. */
  function SplitFrames(text: string): (frames: seq<string>)
    ensures frames != []
    decreases |text|
  {
    match FirstMatch(text)
    case None => [text]
    case Some((i, n)) => [text[..i]] + SplitFrames(text[i + n..])
  }

  // ---- Frame data -----------------------------------------------------------

  /** `frame.split(/\r?\n/)`. */
  function SplitLines(text: string, line: string := ""): seq<string>
    decreases |text|
  {
    if text == "" then [line]
    else if LineEnd(text) > 0 then [line] + SplitLines(text[LineEnd(text)..])
    else SplitLines(text[1..], line + [text[0]])
  }

  /** The blanks JavaScript trims: white space and line terminators of ECMAScript. */
  predicate IsBlank(c: char) {
    c == ' ' || '\t' <= c <= '\r' || c == '\U{A0}' || c == '\U{1680}' || '\U{2000}' <= c <= '\U{200A}'
    || c == '\U{2028}' || c == '\U{2029}' || c == '\U{202F}' || c == '\U{205F}' || c == '\U{3000}' || c == '\U{FEFF}'
  }

  /** The 25 code points of white space and line ends in ECMAScript. */
  lemma BlankCodePoints(c: char)
    ensures IsBlank(c) <==>
            c as int in {0x9, 0xA, 0xB, 0xC, 0xD, 0x20, 0xA0, 0x1680, 0x2000, 0x2001, 0x2002, 0x2003, 0x2004, 0x2005, 0x2006, 0x2007, 0x2008,
                         0x2009, 0x200A, 0x2028, 0x2029, 0x202F, 0x205F, 0x3000, 0xFEFF}
  {}

  function TrimStart(s: string): string {
    if s != "" && IsBlank(s[0]) then TrimStart(s[1..]) else s
  }

  const FIELD := "data:"

  function DataLines(lines: seq<string>): seq<string> {
    if lines == [] then []
    else (if FIELD <= lines[0] then [TrimStart(lines[0][|FIELD|..])] else []) + DataLines(lines[1..])
  }

  function Join(lines: seq<string>): string {
    if lines == [] then ""
    else if |lines| == 1 then lines[0]
    else lines[0] + [LF] + Join(lines[1..])
  }

  function SseData(frame: string): string {
    Join(DataLines(SplitLines(frame)))
  }

  /** What the frames carry under a reading of a frame, the empty readings left out. */
  function Carried(read: string -> string, frames: seq<string>): seq<string> {
    if frames == [] then [] else Kept(read(frames[0])) + Carried(read, frames[1..])
  }

  function Kept(data: string): seq<string> {
    if data == "" then [] else [data]
  }

  /** The data of the frames that carry any, in order. */
  function DataOf(frames: seq<string>): seq<string> {
    Carried(SseData, frames)
  }

  predicate IsAllBlank(s: string) {
    forall i | 0 <= i < |s| :: IsBlank(s[i])
  }

  // ---- Splitting is stable under more input ----------------------------------

  lemma FrameEndStable(s: string, more: string)
    requires FrameEnd(s) > 0
    ensures FrameEnd(s + more) == FrameEnd(s)
  {
    var first := LineEnd(s);
    assert LineEnd(s + more) == first;
    assert (s + more)[first..] == s[first..] + more;
  }

  /** Four characters decide whether a separator starts here. */
  lemma FrameEndDecided(s: string, more: string)
    requires |s| >= 4
    ensures FrameEnd(s + more) == FrameEnd(s)
  {
    var first := LineEnd(s);
    assert LineEnd(s + more) == first;
    assert (s + more)[first..] == s[first..] + more;
    assert LineEnd(s[first..] + more) == LineEnd(s[first..]);
  }

  /** A separator found early is the one the whole text has. */
  lemma {:induction false} FirstMatchStable(s: string, more: string)
    requires FirstMatch(s).Some?
    ensures FirstMatch(s + more) == FirstMatch(s)
  {
    assert (s + more)[1..] == s[1..] + more;
    if FrameEnd(s) > 0 {
      FrameEndStable(s, more);
    } else {
      FirstMatchStable(s[1..], more);
      if |s| >= 4 {
        FrameEndDecided(s, more);
      } else if FrameEnd(s + more) > 0 {
        ShortTextHasNoSecondMatch(s, more);
      }
    }
  }

  lemma ShortTextHasNoSecondMatch(s: string, more: string)
    requires 1 <= |s| <= 3 && FrameEnd(s) == 0 < FrameEnd(s + more)
    ensures FirstMatch(s[1..]).None?
  {
    var t := s + more;
    assert t[0] == s[0];
    assert |s| >= 2 ==> t[1] == s[1];
    assert |s| == 3 ==> t[2] == s[2];
    assert |s| == 3 ==> s[2..] == [s[2]];
  }

  lemma SplitAtMatch(text: string, i: nat, n: nat)
    requires FirstMatch(text) == Some((i, n))
    ensures SplitFrames(text) == [text[..i]] + SplitFrames(text[i + n..])
  {}

  lemma SplitAfterMatch(buffer: string, more: string)
    requires FirstMatch(buffer).Some?
    ensures var (i, n) := FirstMatch(buffer).value;
            SplitFrames(buffer + more) == [buffer[..i]] + SplitFrames(buffer[i + n..] + more)
  {
    FirstMatchStable(buffer, more);
    var (i, n) := FirstMatch(buffer).value;
    assert (buffer + more)[..i] == buffer[..i];
    assert (buffer + more)[i + n..] == buffer[i + n..] + more;
    SplitAtMatch(buffer + more, i, n);
  }

  // ---- The pending buffer stays close to the frame it belongs to --------------

  function Size(s: string): nat {
    |Utf8.Encode(s)|
  }

  lemma SizeConcat(a: string, b: string)
    ensures Size(a + b) == Size(a) + Size(b)
  {
    Utf8.EncodeConcat(a, b);
  }

  lemma {:induction false} MatchInsidePrefix(s: string, more: string)
    requires FirstMatch(s + more).Some?
    requires var (i, n) := FirstMatch(s + more).value; i + n <= |s|
    ensures FirstMatch(s).Some?
  {
    var (i, n) := FirstMatch(s + more).value;
    if i == 0 {
      assert FrameEnd(s + more) == n;
      if |s| >= 4 {
        FrameEndDecided(s, more);
      } else {
        ShortMatchInsidePrefix(s, more);
      }
    } else {
      assert (s + more)[1..] == s[1..] + more;
      MatchInsidePrefix(s[1..], more);
    }
  }

  lemma ShortMatchInsidePrefix(s: string, more: string)
    requires 2 <= |s| <= 3 && 0 < FrameEnd(s + more) <= |s|
    ensures FrameEnd(s) == FrameEnd(s + more)
  {
    var t := s + more;
    assert t[0] == s[0] && t[1] == s[1];
    assert |s| == 3 ==> t[2] == s[2];
    var first := LineEnd(t);
    assert t[first..] == s[first..] + more;
  }

  lemma SeparatorCharacters(s: string, k: nat)
    requires k <= FrameEnd(s)
    ensures Size(s[..k]) == k
    decreases k
  {
    if k > 0 {
      var first := LineEnd(s);
      assert s[k - 1] == CR || s[k - 1] == LF by {
        if k - 1 >= first { assert s[k - 1] == s[first..][k - 1 - first]; }
      }
      SeparatorCharacters(s, k - 1);
      assert s[..k] == s[..k - 1] + [s[k - 1]];
      SizeConcat(s[..k - 1], [s[k - 1]]);
      assert [s[k - 1]][1..] == "";
    }
  }

  lemma {:induction false} MatchIsSeparator(s: string)
    requires FirstMatch(s).Some?
    ensures var (i, n) := FirstMatch(s).value; FrameEnd(s[i..]) == n
  {
    var (i, n) := FirstMatch(s).value;
    if i > 0 {
      MatchIsSeparator(s[1..]);
      assert s[1..][i - 1..] == s[i..];
    } else {
      assert s[0..] == s;
    }
  }

  lemma SlicesJoin(s: string, i: nat, k: nat)
    requires i + k <= |s|
    ensures s[..i] + s[i..][..k] == s[..i + k]
  {}

  /** The buffer ends inside the separator that ends its frame. */
  lemma SeparatorCutOff(buffer: string, future: string, i: nat, n: nat)
    requires FirstMatch(buffer + future) == Some((i, n)) && i < |buffer| < i + n
    ensures Size(buffer) <= Size((buffer + future)[..i]) + 3
  {
    var whole := buffer + future;
    var k := |buffer| - i;
    MatchIsSeparator(whole);
    SeparatorCharacters(whole[i..], k);
    SlicesJoin(whole, i, k);
    assert whole[..i + k] == buffer;
    SizeConcat(whole[..i], whole[i..][..k]);
  }

  /** A buffer without a separator exceeds the frame it belongs to by at most three bytes. */
  lemma PendingBufferIsSmall(buffer: string, future: string)
    requires FirstMatch(buffer).None?
    ensures Size(buffer) <= Size(SplitFrames(buffer + future)[0]) + 3
  {
    var whole := buffer + future;
    match FirstMatch(whole)
    case None =>
      SizeConcat(buffer, future);
    case Some((i, n)) =>
      SplitAtMatch(whole, i, n);
      if i + n <= |buffer| {
        MatchInsidePrefix(buffer, future);
      } else if |buffer| <= i {
        assert whole[..i] == buffer + future[..i - |buffer|];
        SizeConcat(buffer, future[..i - |buffer|]);
      } else {
        SeparatorCutOff(buffer, future, i, n);
      }
  }

  // ---- What a sequence of frames carries ----------------------------------------

  lemma ConcatTwice(x: seq<string>, y: seq<string>, z: seq<string>)
    ensures x + (y + z) == (x + y) + z
  {}

  lemma {:induction false} CarriedConcat(read: string -> string, a: seq<string>, b: seq<string>)
    ensures Carried(read, a + b) == Carried(read, a) + Carried(read, b)
  {
    if a == [] {
      assert a + b == b;
    } else {
      CarriedConcat(read, a[1..], b);
      assert (a + b)[0] == a[0] && (a + b)[1..] == a[1..] + b;
      ConcatTwice(Kept(read(a[0])), Carried(read, a[1..]), Carried(read, b));
    }
  }

  lemma CarriedOne(read: string -> string, frame: string)
    ensures Carried(read, [frame]) == Kept(read(frame))
  {
    assert [frame][1..] == [];
  }
}
