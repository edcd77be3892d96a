/**
 The two readers of server-sent events: the incremental one of the subscription
 client and the batch one of the request client. Their results are stated for the
 frames of the text, and for the payloads that were written into it.
 */
module SseReaders {
  import opened Outcomes
  import opened SseFraming
  import opened SseWriting

  function Flatten(chunks: seq<string>): string {
    if chunks == [] then "" else chunks[0] + Flatten(chunks[1..])
  }

  lemma BlankIsNoField(line: string)
    requires IsAllBlank(line)
    ensures !(FIELD <= line)
  {
    assert line != "" ==> IsBlank(line[0]) && !IsBlank(FIELD[0]);
  }

  lemma {:induction false} BlankFrameHasNoData(text: string, line: string)
    requires IsAllBlank(text) && IsAllBlank(line)
    ensures DataLines(SplitLines(text, line)) == []
    decreases |text|
  {
    if text == "" {
      BlankIsNoField(line);
    } else if LineEnd(text) > 0 {
      var rest := text[LineEnd(text)..];
      BlankFrameHasNoData(rest, "");
      BlankIsNoField(line);
      var lines := [line] + SplitLines(rest);
      assert lines[1..] == SplitLines(rest);
    } else {
      BlankFrameHasNoData(text[1..], line + [text[0]]);
    }
  }

  datatype StreamEnd = Finished | EventTooLarge | InvalidJson

  /** `messages` are the parsed data strings, as far as reading came. */
  ghost predicate AreParsed<M>(parse: string -> Option<M>, data: seq<string>, messages: seq<M>) {
    |messages| <= |data| && forall i | 0 <= i < |messages| :: parse(data[i]) == Some(messages[i])
  }

  ghost predicate FramesFit(text: string, maxEventBytes: nat) {
    AllFit(SplitFrames(text), maxEventBytes)
  }

  ghost predicate AllFit(frames: seq<string>, maxEventBytes: nat) {
    forall i | 0 <= i < |frames| :: Size(frames[i]) + 3 <= maxEventBytes
  }

  /** The size limit that a reader enforces. */
  ghost predicate NoneOver(frames: seq<string>, maxEventBytes: nat) {
    forall i | 0 <= i < |frames| :: Size(frames[i]) <= maxEventBytes
  }

  /** One more frame adds its own data after the data of the frames before it. */
  lemma FrameStep(read: string -> string, frames: seq<string>, done: seq<string>, frame: string, rest: seq<string>)
    requires frames == done + ([frame] + rest)
    ensures frames == (done + [frame]) + rest && frames[|done|] == frame
    ensures Carried(read, done + [frame]) == Carried(read, done) + Kept(read(frame))
    ensures Carried(read, done) <= Carried(read, done + [frame]) <= Carried(read, frames)
    ensures rest == [] ==> Carried(read, done + [frame]) == Carried(read, frames)
  {
    var more := done + [frame];
    FrameJoin(done, frame, rest);
    CarriedConcat(read, done, [frame]);
    CarriedOne(read, frame);
    CarriedGrows(read, more, rest);
  }

  lemma FrameJoin(done: seq<string>, frame: string, rest: seq<string>)
    ensures done + ([frame] + rest) == (done + [frame]) + rest
    ensures (done + ([frame] + rest))[|done|] == frame
  {}

  lemma CarriedGrows(read: string -> string, done: seq<string>, rest: seq<string>)
    ensures Carried(read, done) <= Carried(read, done + rest)
    ensures rest == [] ==> Carried(read, done) == Carried(read, done + rest)
  {
    CarriedConcat(read, done, rest);
  }

  lemma FrameAt(frames: seq<string>, next: nat)
    requires next < |frames|
    ensures frames == frames[..next] + ([frames[next]] + frames[next + 1..])
    ensures frames[..next + 1] == frames[..next] + [frames[next]]
  {}

  /** The data of one more frame. */
  lemma CarriedNext(read: string -> string, frames: seq<string>, next: nat)
    requires next < |frames|
    ensures Carried(read, frames[..next + 1]) == Carried(read, frames[..next]) + Kept(read(frames[next]))
    ensures Carried(read, frames[..next + 1]) <= Carried(read, frames)
  {
    FrameAt(frames, next);
    FrameStep(read, frames, frames[..next], frames[next], frames[next + 1..]);
  }

  /** The data of the frames of a whole text under a reading of a frame. */
  ghost function Expected(read: string -> string, text: string): seq<string> {
    Carried(read, SplitFrames(text))
  }

  ghost predicate Reads<M>(parse: string -> Option<M>, data: seq<string>, messages: seq<M>, end: StreamEnd) {
    && AreParsed(parse, data, messages)
    && (end.Finished? ==> |messages| == |data|)
    && (end.InvalidJson? ==> |messages| < |data| && parse(data[|messages|]).None?)
  }

  /** One step of either loop: the data of a frame, if any, is parsed and passed on. */
  method PassOn<M>(data: string, parse: string -> Option<M>, messages: seq<M>, ghost before: seq<string>, ghost all: seq<string>)
    returns (messages': seq<M>, ok: bool)
    requires |messages| == |before| && AreParsed(parse, before, messages)
    requires before + Kept(data) <= all
    ensures ok ==> |messages'| == |before + Kept(data)| && AreParsed(parse, before + Kept(data), messages')
    ensures !ok ==> messages' == messages && Reads(parse, all, messages, InvalidJson)
  {
    messages', ok := messages, true;
    if data != "" {
      assert (before + Kept(data))[|before|] == data;
      var parsed := parse(data);
      if parsed.None? {
        return messages, false;
      }
      messages' := messages + [parsed.value];
    }
  }

  /** What the loops keep: the frames cut off so far are `done`, and `messages` is what they carried. */
  ghost predicate Progress<M>(read: string -> string, parse: string -> Option<M>, frames: seq<string>,
                              done: seq<string>, unread: string, messages: seq<M>)
  {
    && frames == done + SplitFrames(unread)
    && |messages| == |Carried(read, done)|
    && AreParsed(parse, Carried(read, done), messages)
  }

  lemma ProgressIsPrefix<M>(read: string -> string, parse: string -> Option<M>, frames: seq<string>,
                            done: seq<string>, unread: string, messages: seq<M>)
    requires Progress(read, parse, frames, done, unread, messages)
    ensures AreParsed(parse, Carried(read, frames), messages)
  {
    CarriedConcat(read, done, SplitFrames(unread));
  }

  /** Cutting the first frame off the buffer. */
  lemma CutOne(read: string -> string, frames: seq<string>, done: seq<string>, buffer: string, future: string, i: nat, n: nat)
    requires FirstMatch(buffer) == Some((i, n)) && frames == done + SplitFrames(buffer + future)
    ensures frames == (done + [buffer[..i]]) + SplitFrames(buffer[i + n..] + future)
    ensures |done| < |frames| && frames[|done|] == buffer[..i]
    ensures Carried(read, done + [buffer[..i]]) == Carried(read, done) + Kept(read(buffer[..i]))
    ensures Carried(read, done + [buffer[..i]]) <= Carried(read, frames)
  {
    SplitAfterMatch(buffer, future);
    FrameStep(read, frames, done, buffer[..i], SplitFrames(buffer[i + n..] + future));
  }

  /** The inner loop: cut every complete frame off the buffer. `end` is `Finished` when it went through. */
  method CutFrames<M>(whole: string, maxEventBytes: nat, read: string -> string, parse: string -> Option<M>,
                      received: seq<M>, ghost frames: seq<string>, ghost cut: seq<string>, ghost future: string)
    returns (buffer: string, messages: seq<M>, end: StreamEnd, ghost done: seq<string>)
    requires Progress(read, parse, frames, cut, whole + future, received) && NoneOver(cut, maxEventBytes)
    ensures end.Finished? ==> NoneOver(done, maxEventBytes)
    ensures end.Finished? ==> FirstMatch(buffer).None? && Progress(read, parse, frames, done, buffer + future, messages)
    ensures !end.Finished? ==> Reads(parse, Carried(read, frames), messages, end)
    ensures end.EventTooLarge? ==> !AllFit(frames, maxEventBytes)
  {
    buffer, messages, end, done := whole, received, Finished, cut;
    while FirstMatch(buffer).Some?
      invariant Progress(read, parse, frames, done, buffer + future, messages) && NoneOver(done, maxEventBytes)
      decreases |buffer|
    {
      var (i, n) := FirstMatch(buffer).value;
      var frame := buffer[..i];
      ProgressIsPrefix(read, parse, frames, done, buffer + future, messages);
      CutOne(read, frames, done, buffer, future, i, n);
      buffer := buffer[i + n..];
      if Size(frame) > maxEventBytes {
        end := EventTooLarge;
        return;
      }
      var ok;
      messages, ok := PassOn(read(frame), parse, messages, Carried(read, done), Carried(read, frames));
      if !ok {
        end := InvalidJson;
        return;
      }
      done := done + [frame];
    }
  }

  lemma NextChunk(buffer: string, chunks: seq<string>, next: nat)
    requires next < |chunks|
    ensures buffer + Flatten(chunks[next..]) == (buffer + chunks[next]) + Flatten(chunks[next + 1..])
  {
    assert chunks[next..][1..] == chunks[next + 1..];
  }

  lemma PendingFits<M>(read: string -> string, parse: string -> Option<M>, text: string, done: seq<string>,
                       buffer: string, future: string, messages: seq<M>, maxEventBytes: nat)
    requires Progress(read, parse, SplitFrames(text), done, buffer + future, messages) && FirstMatch(buffer).None?
    ensures AreParsed(parse, Expected(read, text), messages)
    ensures Size(buffer) > maxEventBytes ==> !FramesFit(text, maxEventBytes)
  {
    ProgressIsPrefix(read, parse, SplitFrames(text), done, buffer + future, messages);
    PendingBufferIsSmall(buffer, future);
    assert SplitFrames(text)[|done|] == SplitFrames(buffer + future)[0];
  }

  /** The reader's loops, for any reading of a frame that gives no data for a blank one. */
  method ReadChunks<M>(chunks: seq<string>, maxEventBytes: nat, read: string -> string, parse: string -> Option<M>)
    returns (messages: seq<M>, end: StreamEnd)
    requires forall s | IsAllBlank(s) :: read(s) == ""
    ensures Reads(parse, Expected(read, Flatten(chunks)), messages, end)
    ensures FramesFit(Flatten(chunks), maxEventBytes) ==> !end.EventTooLarge?
    ensures end.Finished? ==> NoneOver(SplitFrames(Flatten(chunks)), maxEventBytes)
  {
    ghost var text := Flatten(chunks);
    ghost var done: seq<string> := [];
    ghost var rest := text;
    var buffer, next := "", 0;
    messages, end := [], Finished;
    assert chunks[0..] == chunks && "" + text == text && [] + SplitFrames(text) == SplitFrames(text);
    while next < |chunks|
      invariant next <= |chunks| && rest == Flatten(chunks[next..])
      invariant IsPending(read, parse, text, done, buffer, rest, messages, maxEventBytes)
    {
      ghost var future := Flatten(chunks[next + 1..]);
      NextChunk(buffer, chunks, next);
      buffer, messages, end, done := ReadChunk(buffer, chunks[next], maxEventBytes, read, parse, messages, text, done, future);
      if !end.Finished? {
        return;
      }
      next, rest := next + 1, future;
    }
    assert rest == "" && buffer + rest == buffer;
    messages, end := ReadLast(buffer, maxEventBytes, read, parse, messages, text, done);
  }

  /** Between two chunks the buffer holds no separator and is within the limit, as are the frames cut off. */
  ghost predicate IsPending<M>(read: string -> string, parse: string -> Option<M>, text: string, done: seq<string>,
                               buffer: string, future: string, messages: seq<M>, maxEventBytes: nat)
  {
    && Progress(read, parse, SplitFrames(text), done, buffer + future, messages)
    && FirstMatch(buffer).None? && NoneOver(done, maxEventBytes) && Size(buffer) <= maxEventBytes
  }

  /** One chunk: appended to the buffer, cut into frames, and what is left measured. */
  method ReadChunk<M>(pending: string, chunk: string, maxEventBytes: nat, read: string -> string, parse: string -> Option<M>,
                      received: seq<M>, ghost text: string, ghost cut: seq<string>, ghost future: string)
    returns (buffer: string, messages: seq<M>, end: StreamEnd, ghost done: seq<string>)
    requires Progress(read, parse, SplitFrames(text), cut, (pending + chunk) + future, received) && NoneOver(cut, maxEventBytes)
    ensures end.Finished? ==> IsPending(read, parse, text, done, buffer, future, messages, maxEventBytes)
    ensures !end.Finished? ==> Reads(parse, Expected(read, text), messages, end)
    ensures end.EventTooLarge? ==> !FramesFit(text, maxEventBytes)
  {
    buffer, messages, end, done :=
      CutFrames(pending + chunk, maxEventBytes, read, parse, received, SplitFrames(text), cut, future);
    if end.Finished? {
      PendingFits(read, parse, text, done, buffer, future, messages, maxEventBytes);
      if Size(buffer) > maxEventBytes {
        end := EventTooLarge;
      }
    }
  }

  /** After the last chunk, what the buffer holds is the last frame of the text. */
  method ReadLast<M>(buffer: string, maxEventBytes: nat, read: string -> string, parse: string -> Option<M>,
                     received: seq<M>, ghost text: string, ghost done: seq<string>)
    returns (messages: seq<M>, end: StreamEnd)
    requires IsAllBlank(buffer) ==> read(buffer) == ""
    requires FirstMatch(buffer).None? && Progress(read, parse, SplitFrames(text), done, buffer, received)
    requires NoneOver(done, maxEventBytes) && Size(buffer) <= maxEventBytes
    ensures NoneOver(SplitFrames(text), maxEventBytes)
    ensures Reads(parse, Expected(read, text), messages, end)
    ensures end.EventTooLarge? ==> !FramesFit(text, maxEventBytes)
  {
    assert buffer + "" == buffer && SplitFrames(buffer) == [buffer];
    FrameStep(read, SplitFrames(text), done, buffer, []);
    PendingFits(read, parse, text, done, buffer, "", received, maxEventBytes);
    messages, end := ReadTail(buffer, maxEventBytes, read, parse, received, Carried(read, done), Expected(read, text));
  }

  /** The unterminated last frame, read unless it is blank. */
  method ReadTail<M>(buffer: string, maxEventBytes: nat, read: string -> string, parse: string -> Option<M>,
                     received: seq<M>, ghost before: seq<string>, ghost all: seq<string>)
    returns (messages: seq<M>, end: StreamEnd)
    requires IsAllBlank(buffer) ==> read(buffer) == ""
    requires |received| == |before| && AreParsed(parse, before, received) && before + Kept(read(buffer)) == all
    ensures Reads(parse, all, messages, end)
    ensures end.EventTooLarge? ==> Size(buffer) > maxEventBytes
  {
    if IsAllBlank(buffer) {
      return received, Finished;
    }
    if Size(buffer) > maxEventBytes {
      return received, EventTooLarge;
    }
    var ok;
    messages, ok := PassOn(read(buffer), parse, received, before, all);
    end := if ok then Finished else InvalidJson;
  }

  /**
   The subscription reader: it grows a buffer chunk by chunk and cuts off every
   complete frame. However the stream is chunked, it sees the data of exactly the
   frames of the whole text, the unterminated last one included; it stops early
   only at data that is not JSON or at a frame that does not fit with three
   bytes to spare. When it has finished no frame was over the limit. Of a written
   stream these data are the payloads, in order.
   */
  method IterateSseMessages<M>(chunks: seq<string>, maxEventBytes: nat, parse: string -> Option<M>)
    returns (messages: seq<M>, end: StreamEnd)
    ensures Reads(parse, DataOf(SplitFrames(Flatten(chunks))), messages, end)
    ensures FramesFit(Flatten(chunks), maxEventBytes) ==> !end.EventTooLarge?
    ensures end.Finished? ==> NoneOver(SplitFrames(Flatten(chunks)), maxEventBytes)
    ensures forall s: Stream | IsStream(s) && StreamText(s) == Flatten(chunks) :: Reads(parse, Payloads(s), messages, end)
  {
    forall s | IsAllBlank(s) ensures SseData(s) == "" {
      BlankFrameHasNoData(s, "");
    }
    messages, end := ReadChunks(chunks, maxEventBytes, SseData, parse);
    forall s: Stream | IsStream(s) && StreamText(s) == Flatten(chunks) ensures Reads(parse, Payloads(s), messages, end) {
      StreamCarriesPayloads(s);
    }
  }

  /** The first reply to a request among the data of a text: what is not JSON, or another message, is skipped. */
  ghost predicate IsFirstReply<M>(parse: string -> Option<M>, answers: M -> bool, data: seq<string>, at: nat) {
    at < |data| && parse(data[at]).Some? && answers(parse(data[at]).value)
    && forall i | 0 <= i < at :: parse(data[i]).None? || !answers(parse(data[i]).value)
  }

  ghost predicate HasNoReply<M>(parse: string -> Option<M>, answers: M -> bool, data: seq<string>) {
    forall i | 0 <= i < |data| :: parse(data[i]).None? || !answers(parse(data[i]).value)
  }

  /** The request reader's loop, for any reading of a frame: the first matching message wins. */
  method FindReply<M>(text: string, read: string -> string, parse: string -> Option<M>, answers: M -> bool)
    returns (reply: Option<M>, ghost at: nat)
    ensures reply.Some? ==>
      IsFirstReply(parse, answers, Expected(read, text), at) && parse(Expected(read, text)[at]) == reply
    ensures reply.None? ==> HasNoReply(parse, answers, Expected(read, text))
  {
    var events := SplitFrames(text);
    ghost var seen: seq<string> := [];
    var next := 0;
    at := 0;
    while next < |events|
      invariant next <= |events| && seen == Carried(read, events[..next])
      invariant HasNoReply(parse, answers, seen)
    {
      var data := read(events[next]);
      CarriedNext(read, events, next);
      next, at, seen := next + 1, |seen|, seen + Kept(data);
      if data == "" { continue; }
      assert seen[at] == data;
      var message := parse(data);
      if message.Some? && answers(message.value) {
        return message, at;
      }
    }
    assert events[..next] == events;
    reply := None;
  }

  /** The request reader splits the whole text at once. */
  method ParseSseJsonRpc<M>(text: string, parse: string -> Option<M>, answers: M -> bool)
    returns (reply: Option<M>, ghost at: nat)
    ensures reply.Some? ==>
      IsFirstReply(parse, answers, DataOf(SplitFrames(text)), at) && parse(DataOf(SplitFrames(text))[at]) == reply
    ensures reply.None? ==> HasNoReply(parse, answers, DataOf(SplitFrames(text)))
    ensures forall s: Stream | IsStream(s) && StreamText(s) == text ::
      if reply.None? then HasNoReply(parse, answers, Payloads(s))
      else IsFirstReply(parse, answers, Payloads(s), at) && parse(Payloads(s)[at]) == reply
  {
    reply, at := FindReply(text, SseData, parse, answers);
    forall s: Stream | IsStream(s) && StreamText(s) == text ensures DataOf(SplitFrames(text)) == Payloads(s) {
      StreamCarriesPayloads(s);
    }
  }

  /** Both readers agree on a stream of valid JSON: the first reply in the stream is the batch reader's reply. */
  method BothReadersAgree<M>(chunks: seq<string>, maxEventBytes: nat, parse: string -> Option<M>, answers: M -> bool)
    returns (messages: seq<M>, reply: Option<M>)
    requires FramesFit(Flatten(chunks), maxEventBytes)
    requires forall data | data in DataOf(SplitFrames(Flatten(chunks))) :: parse(data).Some?
    ensures reply.Some? ==> exists at :: 0 <= at < |messages| && messages[at] == reply.value && answers(messages[at])
                                         && forall i | 0 <= i < at :: !answers(messages[i])
    ensures reply.None? ==> forall i | 0 <= i < |messages| :: !answers(messages[i])
  {
    var end;
    messages, end := IterateSseMessages(chunks, maxEventBytes, parse);
    ghost var data := DataOf(SplitFrames(Flatten(chunks)));
    ghost var at: nat;
    reply, at := ParseSseJsonRpc(Flatten(chunks), parse, answers);
    assert forall i | 0 <= i < |data| :: data[i] in data;
    assert |messages| == |data|;
    if reply.Some? {
      assert messages[at] == reply.value;
    }
  }
}
