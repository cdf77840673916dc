/** Reassembling a judge's reply from a server-sent event stream: `data:` lines only, each ended by
    a line feed (a subset of sections 9.2.5 and 9.2.6 of the WHATWG HTML Living Standard). */
module JudgeStream {
  import opened KeyValue
  import opened LineFeed
  import opened Seqs
  import opened Text
  import opened Wrappers

  const DATA := "data:"
  const DONE := "[DONE]"
  const STREAM_ERROR := "judge stream error: "
  const EMPTY := "judge returned empty stream (oMLX silent failure)"
  const NULL_EVENT := "TypeError"

  /** What `JSON.parse` makes of a payload, as far as the loop looks at it. `error` is there only if
      it is truthy; reading a property of a null event throws. */
  datatype Payload = Unparsable | Null | Value(error: Option<string>, delta: Option<string>)

  datatype Event = Skip | Failure(message: string) | Delta(text: string)

  /** The payload a line carries: only a `data:` line has one, and `[DONE]` is none. */
  function PayloadOf(line: string): Option<string> {
    var t := Trim(line);
    if !(DATA <= t) then None
    else
      var payload := Trim(t[|DATA|..]);
      if payload == DONE then None else Some(payload)
  }

  function EventOf(parse: string -> Payload, line: string): Event {
    match PayloadOf(line)
    case None => Skip
    case Some(payload) =>
      match parse(payload)
      case Unparsable => Skip
      case Null => Failure(NULL_EVENT)
      case Value(Some(message), _) => Failure(STREAM_ERROR + message)
      case Value(None, Some(delta)) => Delta(delta)
      case Value(None, None) => Skip
  }

  function FirstFailure(parse: string -> Payload, lines: seq<string>): Option<string> {
    if lines == [] then None
    else if EventOf(parse, lines[0]).Failure? then Some(EventOf(parse, lines[0]).message)
    else FirstFailure(parse, lines[1..])
  }

  function DeltaOf(parse: string -> Payload): string -> string {
    line => if EventOf(parse, line).Delta? then EventOf(parse, line).text else ""
  }

  /** The reply of a whole body: the first failure among its complete lines, or else all its deltas
      together, unless they are blank. */
  function Reply(parse: string -> Payload, body: string): Result<string, string> {
    var lines := Complete(body);
    match FirstFailure(parse, lines)
    case Some(message) => Err(message)
    case None =>
      var out := FlatMap(DeltaOf(parse), lines);
      if Trim(out) == "" then Err(EMPTY) else Ok(out)
  }

  function Concat(chunks: seq<string>): string {
    if chunks == [] then "" else Concat(chunks[..|chunks| - 1]) + chunks[|chunks| - 1]
  }

  lemma {:induction false} FirstFailureConcat(parse: string -> Payload, a: seq<string>, b: seq<string>)
    ensures FirstFailure(parse, a + b) == if FirstFailure(parse, a).Some? then FirstFailure(parse, a) else FirstFailure(parse, b)
  {
    if a == [] {
      assert a + b == b;
    } else {
      FirstFailureConcat(parse, a[1..], b);
      assert (a + b)[1..] == a[1..] + b;
    }
  }

  /** The lines handled so far, none of them a failure, and the text collected from them. */
  ghost predicate Collected(parse: string -> Payload, lines: seq<string>, out: string) {
    FirstFailure(parse, lines) == None && out == FlatMap(DeltaOf(parse), lines)
  }

  lemma CollectLine(parse: string -> Payload, lines: seq<string>, out: string, line: string)
    requires Collected(parse, lines, out)
    ensures match EventOf(parse, line)
            case Failure(message) => FirstFailure(parse, lines + [line]) == Some(message)
            case Skip => Collected(parse, lines + [line], out)
            case Delta(text) => Collected(parse, lines + [line], out + text)
  {
    FirstFailureConcat(parse, lines, [line]);
    assert [line][1..] == [];
    FlatMapAppend(DeltaOf(parse), lines, line);
    assert out + "" == out;
  }

  /** A failure in the part of the body that has arrived decides the reply. */
  lemma FailureStands(parse: string -> Payload, chunks: seq<string>, n: nat, lines: seq<string>, rest: seq<string>)
    requires n <= |chunks| && Complete(Concat(chunks[..n])) == lines + rest
    requires FirstFailure(parse, lines).Some?
    ensures Reply(parse, Concat(chunks)) == Err(FirstFailure(parse, lines).value)
  {
    FirstFailureConcat(parse, lines, rest);
    FailureStays(parse, chunks, n);
  }

  lemma {:induction false} FailureStays(parse: string -> Payload, chunks: seq<string>, n: nat)
    requires n <= |chunks| && FirstFailure(parse, Complete(Concat(chunks[..n]))).Some?
    ensures FirstFailure(parse, Complete(Concat(chunks))) == FirstFailure(parse, Complete(Concat(chunks[..n])))
    decreases |chunks|
  {
    if n == |chunks| {
      assert chunks[..n] == chunks;
    } else {
      var before, chunk := chunks[..|chunks| - 1], chunks[|chunks| - 1];
      assert before[..n] == chunks[..n];
      FailureStays(parse, before, n);
      MoreText(Concat(before), chunk);
      FirstFailureConcat(parse, Complete(Concat(before)), Complete(Pending(Concat(before)) + chunk));
    }
  }

  /** The read loop. Its result is a function of the concatenated body: how the body was cut into
      chunks does not matter, and a failure is the first of the body even though nothing behind it
      is read. */
  method StreamChatOnce(chunks: seq<string>, parse: string -> Payload) returns (reply: Result<string, string>)
    ensures reply == Reply(parse, Concat(chunks))
  {
    var buf, out := "", "";
    ghost var lines: seq<string> := [];
    NoNewlinePending("");
    var i := 0;
    while i < |chunks|
      invariant 0 <= i <= |chunks|
      invariant lines == Complete(Concat(chunks[..i])) && buf == Pending(Concat(chunks[..i]))
      invariant Collected(parse, lines, out)
    {
      assert chunks[..i + 1][..i] == chunks[..i];
      MoreText(Concat(chunks[..i]), chunks[i]);
      buf := buf + chunks[i];
      ghost var text := Concat(chunks[..i + 1]);
      var nl := IndexOf(buf, NEWLINE);
      while nl >= 0
        invariant nl == IndexOf(buf, NEWLINE)
        invariant Complete(text) == lines + Complete(buf) && Pending(text) == Pending(buf)
        invariant Collected(parse, lines, out)
        decreases |buf|
      {
        IndexOfFirst(buf, NEWLINE);
        CutLine(buf, nl);
        var line := buf[..nl];
        buf := buf[nl + 1..];
        Associate(lines, [line], Complete(buf));
        CollectLine(parse, lines, out, line);
        lines := lines + [line];
        nl := IndexOf(buf, NEWLINE);
        match EventOf(parse, line)
        case Skip =>
        case Failure(message) =>
          FailureStands(parse, chunks, i + 1, lines, Complete(buf));
          return Err(message);
        case Delta(delta) =>
          out := out + delta;
      }
      IndexOfFirst(buf, NEWLINE);
      NoNewlinePending(buf);
      assert lines + [] == lines;
      i := i + 1;
    }
    assert chunks[..i] == chunks;
    if Trim(out) == "" {
      return Err(EMPTY);
    }
    return Ok(out);
  }

  /** An unterminated last line is never looked at, whatever it holds. */
  lemma UnterminatedLineIgnored(parse: string -> Payload, body: string, tail: string)
    requires NEWLINE !in tail
    ensures Reply(parse, body + [NEWLINE] + tail) == Reply(parse, body + [NEWLINE])
  {
    SplitConcat(body, tail, NEWLINE);
    SplitConcat(body, "", NEWLINE);
    assert body + [NEWLINE] + "" == body + [NEWLINE];
    SplitPieces(tail, NEWLINE);
  }

  /** White space around a line, a carriage return among it, changes nothing. */
  lemma PaddedLineSame(parse: string -> Payload, before: string, line: string, after: string)
    requires AllSpace(before) && AllSpace(after)
    ensures EventOf(parse, before + line + after) == EventOf(parse, line)
  {
    TrimAround(before, line, after);
  }

  /** `[DONE]` does not end the stream: it is skipped like any line without a payload, and the
      reply is that of the lines around it. */
  lemma DoneLineSkipped(parse: string -> Payload, a: string, b: string)
    ensures Reply(parse, a + [NEWLINE] + (DATA + DONE + [NEWLINE] + b)) == Reply(parse, a + [NEWLINE] + b)
  {
    var line := DATA + DONE;
    DoneIsSkip(parse);
    SplitConcat(a, line + [NEWLINE] + b, NEWLINE);
    SplitConcat(line, b, NEWLINE);
    SplitConcat(a, b, NEWLINE);
    SplitPieces(line, NEWLINE);
    var before, after := Split(a, NEWLINE), Complete(b);
    assert Complete(a + [NEWLINE] + (line + [NEWLINE] + b)) == before + ([line] + after);
    assert Complete(a + [NEWLINE] + b) == before + after;
    FirstFailureConcat(parse, before, [line] + after);
    FirstFailureConcat(parse, before, after);
    FirstFailureConcat(parse, [line], after);
    FlatMapConcat(DeltaOf(parse), before, [line] + after);
    FlatMapConcat(DeltaOf(parse), before, after);
    FlatMapConcat(DeltaOf(parse), [line], after);
    assert [line][1..] == [];
    assert FlatMap(DeltaOf(parse), [line]) == "";
    assert "" + FlatMap(DeltaOf(parse), after) == FlatMap(DeltaOf(parse), after);
  }

  lemma DoneIsSkip(parse: string -> Payload)
    ensures EventOf(parse, DATA + DONE) == Skip && NEWLINE !in DATA + DONE
  {
    TrimFixed(DATA + DONE);
    TrimFixed(DONE);
    assert (DATA + DONE)[|DATA|..] == DONE;
  }

  // ---------------------------------------------------------------- the reply, by the spelling of the lines

  /** The line is `data:` and the payload, with white space around either. */
  ghost predicate Carries(line: string, payload: string) {
    Tight(payload) && exists w, gap, tail :: AllSpace(w) && AllSpace(gap) && AllSpace(tail) && line == w + ("data:" + gap + payload) + tail
  }

  lemma PayloadByTrim(a: string, b: string)
    requires Trim(a) == Trim(b)
    ensures PayloadOf(a) == PayloadOf(b)
  {
  }

  lemma EmptyPayload(gap: string)
    requires AllSpace(gap)
    ensures PayloadOf("data:" + gap) == Some("")
  {
    assert "data:" + gap == "" + "data:" + gap;
    TrimPadded("", "data:", gap);
    TrimFixed("");
    assert "data:"[5..] == "";
  }

  lemma WholePayload(gap: string, payload: string)
    requires AllSpace(gap) && Tight(payload) && payload != ""
    ensures PayloadOf("data:" + (gap + payload)) == if payload == "[DONE]" then None else Some(payload)
  {
    var t := "data:" + (gap + payload);
    assert t[0] == 'd' && t[|t| - 1] == payload[|payload| - 1];
    TrimFixed(t);
    assert t[5..] == gap + payload + "";
    TrimPadded(gap, payload, "");
  }

  lemma CarriedIsPayload(line: string, payload: string)
    requires Carries(line, payload)
    ensures PayloadOf(line) == if payload == "[DONE]" then None else Some(payload)
  {
    var w, gap, tail :| AllSpace(w) && AllSpace(gap) && AllSpace(tail) && line == w + ("data:" + gap + payload) + tail;
    TrimAround(w, "data:" + gap + payload, tail);
    PayloadByTrim(line, "data:" + gap + payload);
    if payload == "" {
      EmptyPayload(gap);
      assert "data:" + gap + payload == "data:" + gap;
    } else {
      WholePayload(gap, payload);
      Associate("data:", gap, payload);
    }
  }

  lemma PayloadIsCarried(line: string)
    requires DATA <= Trim(line)
    ensures Carries(line, Trim(Trim(line)[|DATA|..]))
  {
    var rest := Trim(line)[|DATA|..];
    var w, tail := Around(line);
    var gap, behind := Around(rest);
    TrimSplits(rest);
    CarriedBy(line, w, gap, Trim(rest), behind, tail);
  }

  lemma CarriedBy(line: string, w: string, gap: string, payload: string, behind: string, tail: string)
    requires AllSpace(w) && AllSpace(gap) && AllSpace(behind) && AllSpace(tail) && Tight(payload)
    requires line == w + ("data:" + (gap + payload + behind)) + tail
    ensures Carries(line, payload)
  {
    AllSpaceConcat(behind, tail);
    assert line == w + ("data:" + gap + payload) + (behind + tail);
  }

  lemma PayloadSpelled(line: string, payload: string)
    ensures PayloadOf(line) == Some(payload) <==> Carries(line, payload) && payload != "[DONE]"
  {
    if PayloadOf(line) == Some(payload) {
      PayloadIsCarried(line);
    }
    if Carries(line, payload) {
      CarriedIsPayload(line, payload);
    }
  }

  /** The line adds this text to the reply: its payload is a value with that delta, or it has none, or one
      that does not parse or holds no delta, and adds nothing. */
  ghost predicate Adds(parse: string -> Payload, line: string, text: string) {
    || (exists p :: Carries(line, p) && p != "[DONE]" && parse(p) == Value(None, Some(text)))
    || (text == "" && forall p :: Carries(line, p) && p != "[DONE]" ==> parse(p) == Unparsable || parse(p) == Value(None, None))
  }

  /** The line ends the reading: its payload is null, or a value with an error. */
  ghost predicate Breaks(parse: string -> Payload, line: string, message: string) {
    exists p :: Carries(line, p) && p != "[DONE]"
             && ((parse(p) == Null && message == "TypeError")
                 || (parse(p).Value? && parse(p).error.Some? && message == "judge stream error: " + parse(p).error.value))
  }

  lemma EventSpelled(parse: string -> Payload, line: string, text: string)
    ensures Adds(parse, line, text) <==> EventOf(parse, line) == Delta(text) || (EventOf(parse, line) == Skip && text == "")
    ensures Breaks(parse, line, text) <==> EventOf(parse, line) == Failure(text)
  {
    forall p ensures PayloadOf(line) == Some(p) <==> Carries(line, p) && p != "[DONE]" {
      PayloadSpelled(line, p);
    }
    if PayloadOf(line).Some? {
      assert Carries(line, PayloadOf(line).value);
    }
  }

  predicate AddsAs(event: Event, text: string) {
    event == Delta(text) || (event == Skip && text == "")
  }

  lemma {:induction false} AddedUp(parse: string -> Payload, lines: seq<string>, texts: seq<string>)
    requires |lines| == |texts| && forall i | 0 <= i < |lines| :: AddsAs(EventOf(parse, lines[i]), texts[i])
    ensures Collected(parse, lines, Concat(texts))
  {
    if lines != [] {
      var n := |lines| - 1;
      AddedUp(parse, lines[..n], texts[..n]);
      assert AddsAs(EventOf(parse, lines[n]), texts[n]);
      CollectLine(parse, lines[..n], Concat(texts[..n]), lines[n]);
      assert lines == lines[..n] + [lines[n]];
      assert Concat(texts[..n]) + "" == Concat(texts[..n]);
    }
  }

  lemma AddedLines(parse: string -> Payload, lines: seq<string>, texts: seq<string>)
    requires |lines| == |texts| && forall i | 0 <= i < |lines| :: Adds(parse, lines[i], texts[i])
    ensures Collected(parse, lines, Concat(texts))
  {
    forall i | 0 <= i < |lines| ensures AddsAs(EventOf(parse, lines[i]), texts[i]) {
      EventSpelled(parse, lines[i], texts[i]);
    }
    AddedUp(parse, lines, texts);
  }

  /** When every complete line adds a text, the reply is these texts together, unless that is blank. */
  lemma ReplyIsDeltas(parse: string -> Payload, body: string, texts: seq<string>)
    requires |texts| == |Complete(body)| && forall i | 0 <= i < |texts| :: Adds(parse, Complete(body)[i], texts[i])
    ensures Reply(parse, body)
         == if Trim(Concat(texts)) == "" then Err("judge returned empty stream (oMLX silent failure)") else Ok(Concat(texts))
  {
    AddedLines(parse, Complete(body), texts);
  }

  /** And when one ends the reading behind lines that add something, the reply is its error. */
  lemma ReplyIsFailure(parse: string -> Payload, body: string, texts: seq<string>, message: string)
    requires |texts| < |Complete(body)| && forall i | 0 <= i < |texts| :: Adds(parse, Complete(body)[i], texts[i])
    requires Breaks(parse, Complete(body)[|texts|], message)
    ensures Reply(parse, body) == Err(message)
  {
    var lines, n := Complete(body), |texts|;
    assert forall i | 0 <= i < n :: lines[..n][i] == lines[i];
    AddedLines(parse, lines[..n], texts);
    EventSpelled(parse, lines[n], message);
    FailureBehind(parse, lines, n, message);
  }

  lemma FailureBehind(parse: string -> Payload, lines: seq<string>, n: nat, message: string)
    requires n < |lines| && FirstFailure(parse, lines[..n]) == None && EventOf(parse, lines[n]) == Failure(message)
    ensures FirstFailure(parse, lines) == Some(message)
  {
    assert lines == lines[..n] + lines[n..];
    FirstFailureConcat(parse, lines[..n], lines[n..]);
  }

  /** There is no third kind of line, so these two say what every reply is. */
  lemma AddsOrBreaks(parse: string -> Payload, line: string) returns (text: string)
    ensures Adds(parse, line, text) || Breaks(parse, line, text)
  {
    match EventOf(parse, line) {
      case Skip => text := "";
      case Delta(delta) => text := delta;
      case Failure(message) => text := message;
    }
    EventSpelled(parse, line, text);
  }
}
