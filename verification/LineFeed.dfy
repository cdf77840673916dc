/** The line buffering between a spawned job and its supervisor: two byte streams arrive in chunks
    of any size and order, each with a buffer of its own, and whole lines go to one callback. */
module LineFeed {
  import opened Text
  import opened Seqs

  /** The lines of `text` that a newline ends. */
  function Complete(text: string): seq<string> {
    var pieces := Split(text, NEWLINE);
    pieces[..|pieces| - 1]
  }

  /** What follows the last newline of `text`. */
  function Pending(text: string): string {
    var pieces := Split(text, NEWLINE);
    pieces[|pieces| - 1]
  }

  lemma NoNewlinePending(text: string)
    requires NEWLINE !in text
    ensures Complete(text) == [] && Pending(text) == text
  {
    SplitPieces(text, NEWLINE);
  }

  lemma FirstLineOff(line: string, rest: string)
    requires NEWLINE !in line
    ensures Complete(line + [NEWLINE] + rest) == [line] + Complete(rest)
    ensures Pending(line + [NEWLINE] + rest) == Pending(rest)
  {
    SplitConcat(line, rest, NEWLINE);
    SplitPieces(line, NEWLINE);
  }

  /** The line cut off at a first newline, and what is left, have the lines of the whole. */
  lemma CutLine(text: string, i: nat)
    requires i < |text| && text[i] == NEWLINE && NEWLINE !in text[..i]
    ensures Complete(text) == [text[..i]] + Complete(text[i + 1..]) && Pending(text) == Pending(text[i + 1..])
  {
    var line, rest := text[..i], text[i + 1..];
    FirstLineOff(line, rest);
    assert text == line + [NEWLINE] + rest;
  }

  /** Complete lines, each with its newline, and the pending rest make up the text again. */
  lemma LinesRebuild(text: string)
    ensures NoneContains(Complete(text), NEWLINE) && NEWLINE !in Pending(text)
    ensures Complete(text) == [] ==> text == Pending(text)
    ensures Complete(text) != [] ==> text == Join(Complete(text), NEWLINE) + [NEWLINE] + Pending(text)
  {
    SplitPieces(text, NEWLINE);
    JoinSplit(text, NEWLINE);
    assert Split(text, NEWLINE) == Complete(text) + [Pending(text)];
    if Complete(text) != [] {
      JoinAppend(Complete(text), Pending(text), NEWLINE);
    }
  }

  /** A further chunk only needs the pending rest. */
  lemma MoreText(text: string, chunk: string)
    ensures Complete(text + chunk) == Complete(text) + Complete(Pending(text) + chunk)
    ensures Pending(text + chunk) == Pending(Pending(text) + chunk)
  {
    LinesRebuild(text);
    var lines, rest := Complete(text), Pending(text);
    if lines == [] {
      assert lines + Complete(rest + chunk) == Complete(rest + chunk);
    } else {
      var head := Join(lines, NEWLINE);
      assert text + chunk == head + [NEWLINE] + (rest + chunk);
      SplitConcat(head, rest + chunk, NEWLINE);
      SplitJoin(lines, NEWLINE);
    }
  }

  // ---------------------------------------------------------------- one job

  datatype Stream = Stdout | Stderr

  /** A line handed to the callback. The callback sees the text alone. */
  datatype Delivery = Delivery(stream: Stream, line: string)

  datatype Event = Data(stream: Stream, chunk: string) | OnLine

  /** Whether a callback is set, both buffers, and the lines handed over so far. */
  datatype State = State(listening: bool, stdout: string, stderr: string, delivered: seq<Delivery>) {
    function Buffered(stream: Stream): string {
      if stream.Stdout? then stdout else stderr
    }
  }

  const START := State(false, "", "", [])

  function From(stream: Stream): string -> Delivery {
    line => Delivery(stream, line)
  }

  function Step(state: State, event: Event): State {
    match event
    case OnLine => state.(listening := true)
    case Data(stream, chunk) =>
      var text := state.Buffered(stream) + chunk;
      var fed := if stream.Stdout? then state.(stdout := Pending(text)) else state.(stderr := Pending(text));
      if state.listening then fed.(delivered := state.delivered + Map(From(stream), Complete(text))) else fed
  }

  class Buffer {
    var s: string

    constructor ()
      ensures s == ""
    {
      s := "";
    }
  }

  class JobChild {
    const stdout: Buffer
    const stderr: Buffer
    var listening: bool
    var delivered: seq<Delivery>

    constructor ()
      ensures fresh(stdout) && fresh(stderr) && Valid()
      ensures Current() == START
    {
      stdout := new Buffer();
      stderr := new Buffer();
      listening := false;
      delivered := [];
    }

    ghost predicate Valid() {
      stdout != stderr
    }

    function Current(): State
      reads this, stdout, stderr
    {
      State(listening, stdout.s, stderr.s, delivered)
    }

    /** `makeFeed`: appends the chunk and cuts off line after line. */
    method Feed(stream: Stream, buf: Buffer, chunk: string)
      modifies buf, this`delivered
      ensures buf.s == Pending(old(buf.s) + chunk)
      ensures delivered
           == old(delivered) + if listening then Map(From(stream), Complete(old(buf.s) + chunk)) else []
    {
      buf.s := buf.s + chunk;
      ghost var text, cut: seq<string> := buf.s, [];
      var idx := IndexOf(buf.s, NEWLINE);
      assert Map(From(stream), cut) == [];
      while idx != -1
        invariant idx == IndexOf(buf.s, NEWLINE)
        invariant Complete(text) == cut + Complete(buf.s) && Pending(text) == Pending(buf.s)
        invariant delivered == old(delivered) + if listening then Map(From(stream), cut) else []
        decreases |buf.s|
      {
        IndexOfFirst(buf.s, NEWLINE);
        CutLine(buf.s, idx);
        var line := buf.s[..idx];
        Associate(cut, [line], Complete(buf.s[idx + 1..]));
        MapConcat(From(stream), cut, [line]);
        assert Map(From(stream), [line]) == [Delivery(stream, line)];
        Associate(old(delivered), Map(From(stream), cut), [Delivery(stream, line)]);
        buf.s := buf.s[idx + 1..];
        if listening {
          delivered := delivered + [Delivery(stream, line)];
        }
        cut := cut + [line];
        idx := IndexOf(buf.s, NEWLINE);
      }
      IndexOfFirst(buf.s, NEWLINE);
      NoNewlinePending(buf.s);
      assert cut + [] == cut;
    }

    method Handle(event: Event)
      requires Valid()
      modifies this, stdout, stderr
      ensures Current() == Step(old(Current()), event)
    {
      match event
      case OnLine =>
        listening := true;
      case Data(stream, chunk) =>
        Feed(stream, if stream.Stdout? then stdout else stderr, chunk);
    }
  }

  // ---------------------------------------------------------------- every schedule

  function Run(events: seq<Event>): State {
    if events == [] then START
    else
      var n := |events| - 1;
      Step(Run(events[..n]), events[n])
  }

  /** All the text one stream has carried. */
  function Received(events: seq<Event>, stream: Stream): string {
    if events == [] then ""
    else
      var n := |events| - 1;
      Received(events[..n], stream) +
      match events[n]
      case Data(from, chunk) => if from == stream then chunk else ""
      case OnLine => ""
  }

  /** The part of it that came before a callback was set. */
  function Unheard(events: seq<Event>, stream: Stream): string {
    if events == [] then ""
    else
      var n := |events| - 1;
      if OnLine in events[..n] then Unheard(events[..n], stream) else Received(events, stream)
  }

  /** The lines the callback got from one stream, in order. */
  function LinesOf(stream: Stream, delivered: seq<Delivery>): seq<string> {
    if delivered == [] then []
    else (if delivered[0].stream == stream then [delivered[0].line] else []) + LinesOf(stream, delivered[1..])
  }

  lemma {:induction false} LinesOfConcat(stream: Stream, a: seq<Delivery>, b: seq<Delivery>)
    ensures LinesOf(stream, a + b) == LinesOf(stream, a) + LinesOf(stream, b)
  {
    if a == [] {
      assert a + b == b;
    } else {
      LinesOfConcat(stream, a[1..], b);
      Associate(if a[0].stream == stream then [a[0].line] else [], LinesOf(stream, a[1..]), LinesOf(stream, b));
      assert (a + b)[1..] == a[1..] + b;
    }
  }

  lemma {:induction false} LinesOfTagged(stream: Stream, from: Stream, lines: seq<string>)
    ensures LinesOf(stream, Map(From(from), lines)) == if from == stream then lines else []
  {
    if lines != [] {
      LinesOfTagged(stream, from, lines[1..]);
      assert Map(From(from), lines)[1..] == Map(From(from), lines[1..]);
      assert lines == [lines[0]] + lines[1..];
    }
  }

  lemma {:induction false} Listening(events: seq<Event>)
    ensures Run(events).listening <==> OnLine in events
  {
    if events != [] {
      var n := |events| - 1;
      Listening(events[..n]);
      assert events == events[..n] + [events[n]];
    }
  }

  /** For every splitting of both streams into chunks and every interleaving of the chunks: each
      stream's buffer is what follows its last newline, and the lines delivered from it, behind
      those that were complete before the callback was set, are its complete lines in order. */
  lemma {:induction false} StreamsReconstructed(events: seq<Event>, stream: Stream)
    ensures var state := Run(events);
      && state.Buffered(stream) == Pending(Received(events, stream))
      && Complete(Received(events, stream)) == Complete(Unheard(events, stream)) + LinesOf(stream, state.delivered)
  {
    if events == [] {
      NoNewlinePending("");
    } else {
      var n := |events| - 1;
      var before, event := events[..n], events[n];
      StreamsReconstructed(before, stream);
      Listening(before);
      assert Received(before, stream) + "" == Received(before, stream);
      if event.Data? {
        var text := Run(before).Buffered(event.stream) + event.chunk;
        if event.stream == stream {
          MoreText(Received(before, stream), event.chunk);
        }
        if OnLine in before {
          HeardMore(stream, event.stream, Run(before).delivered, Complete(text));
          Associate(Complete(Unheard(before, stream)), LinesOf(stream, Run(before).delivered), Complete(text));
        } else {
          NothingHeard(before, stream);
        }
      } else if OnLine !in before {
        NothingHeard(before, stream);
      }
    }
  }

  lemma HeardMore(stream: Stream, from: Stream, delivered: seq<Delivery>, lines: seq<string>)
    ensures LinesOf(stream, delivered + Map(From(from), lines))
         == LinesOf(stream, delivered) + if from == stream then lines else []
  {
    LinesOfConcat(stream, delivered, Map(From(from), lines));
    LinesOfTagged(stream, from, lines);
  }

  lemma {:induction false} NothingHeard(events: seq<Event>, stream: Stream)
    requires OnLine !in events
    ensures Run(events).delivered == []
  {
    if events != [] {
      var n := |events| - 1;
      assert OnLine !in events[..n];
      Listening(events[..n]);
      NothingHeard(events[..n], stream);
    }
  }

  /** So once the callback is set first, what is delivered from a stream depends on its text alone,
      and with the buffer it spells that text. */
  lemma ChunkingDoesNotMatter(a: seq<Event>, b: seq<Event>, stream: Stream)
    requires a != [] && b != [] && a[0] == OnLine && b[0] == OnLine
    requires Received(a, stream) == Received(b, stream)
    ensures LinesOf(stream, Run(a).delivered) == LinesOf(stream, Run(b).delivered)
    ensures Run(a).Buffered(stream) == Run(b).Buffered(stream)
    ensures var lines, rest := LinesOf(stream, Run(a).delivered), Run(a).Buffered(stream);
      Received(a, stream) == if lines == [] then rest else Join(lines, NEWLINE) + [NEWLINE] + rest
  {
    StreamsReconstructed(a, stream);
    StreamsReconstructed(b, stream);
    HeardFromTheStart(a, stream);
    HeardFromTheStart(b, stream);
    NoNewlinePending("");
    LinesRebuild(Received(a, stream));
    assert [] + LinesOf(stream, Run(a).delivered) == LinesOf(stream, Run(a).delivered);
    assert [] + LinesOf(stream, Run(b).delivered) == LinesOf(stream, Run(b).delivered);
  }

  lemma {:induction false} HeardFromTheStart(events: seq<Event>, stream: Stream)
    requires events != [] && events[0] == OnLine
    ensures Unheard(events, stream) == ""
  {
    if |events| > 1 {
      HeardFromTheStart(events[..|events| - 1], stream);
      assert events[..|events| - 1][0] == OnLine;
    } else {
      assert events[..0] == [];
      assert Received(events, stream) == "" + "";
    }
  }
}
