/** The last turns of a conversation, read from the end of its transcript: the fast path looks at a
    bounded tail of the file only. A transcript is modelled as characters, a byte each. */
module TailRead {
  import LineFeed
  import opened Seqs
  import opened Text
  import opened Wrappers

  /** What `JSON.parse` and `textOf` make of a line; reading a property of a null event throws. */
  datatype Event = Rejected | Null | Event(kind: string, text: string)

  datatype Reading = Skip | Throws | Turn(text: string)

  /** How the walk treats a line. */
  function ReadLine(parse: string -> Event, line: string): Reading {
    if Trim(line) == "" then Skip
    else
      match parse(Trim(line))
      case Rejected => Skip
      case Null => Throws
      case Event(kind, text) => if kind in {"user", "assistant"} && Trim(text) != "" then Turn(Trim(text)) else Skip
  }

  function Reader(parse: string -> Event): string -> Reading {
    line => ReadLine(parse, line)
  }

  function Cut(text: string, chars: nat): string {
    if |text| <= chars then text else text[..chars]
  }

  /** The walk from the last line back until there are enough turns; none if it throws. */
  function Walk(read: string -> Reading, chars: nat, lines: seq<string>, wanted: nat): Option<seq<string>> {
    if wanted == 0 || lines == [] then Some([])
    else
      var n := |lines| - 1;
      match read(lines[n])
      case Skip => Walk(read, chars, lines[..n], wanted)
      case Throws => None
      case Turn(text) =>
        match Walk(read, chars, lines[..n], wanted - 1)
        case None => None
        case Some(turns) => Some(turns + [Cut(text, chars)])
  }

  /** The end of the file, at most so many characters of it. */
  function Tail(file: string, most: nat): string {
    if |file| > most then file[|file| - most..] else file
  }

  datatype Options = Options(maxTurns: nat, maxBytes: nat, perTurnChars: nat)

  /** The turns that a text yields. */
  function TurnsOf(read: string -> Reading, o: Options, text: string): Option<seq<string>> {
    Walk(read, o.perTurnChars, Split(text, NEWLINE), o.maxTurns)
  }

  function Context(turns: Option<seq<string>>): string {
    match turns
    case None => ""
    case Some(list) => Trim(Join(list, ' '))
  }

  lemma WalkBack(read: string -> Reading, chars: nat, lines: seq<string>, wanted: nat)
    requires lines != [] && wanted > 0
    ensures var (whole, before) := (Walk(read, chars, lines, wanted), lines[..|lines| - 1]);
      match read(lines[|lines| - 1])
      case Skip => whole == Walk(read, chars, before, wanted)
      case Throws => whole == None
      case Turn(text) => whole == Before(Walk(read, chars, before, wanted - 1), [Cut(text, chars)])
  {
  }

  /** The loop from the last line back. */
  method WalkLines(read: string -> Reading, lines: seq<string>, wanted: nat, chars: nat) returns (result: Option<seq<string>>)
    ensures result == Walk(read, chars, lines, wanted)
  {
    var turns: seq<string> := [];
    var i := |lines|;
    ghost var rest := lines;
    BeforeSame(Walk(read, chars, lines, wanted));
    while i > 0 && |turns| < wanted
      invariant 0 <= i <= |lines| && |turns| <= wanted && rest == lines[..i]
      invariant Walk(read, chars, lines, wanted) == Before(Walk(read, chars, rest, wanted - |turns|), turns)
    {
      WalkBack(read, chars, rest, wanted - |turns|);
      i := i - 1;
      rest := rest[..i];
      match read(lines[i])
      case Skip =>
      case Throws =>
        return None;
      case Turn(text) =>
        BeforeCons(Walk(read, chars, rest, wanted - |turns| - 1), Cut(text, chars), turns);
        turns := [Cut(text, chars)] + turns;
    }
    BeforeNothing(turns);
    return Some(turns);
  }

  /** `recentConversationContext`: the walk over the tail, given the file if there is one; an
      exception makes the context empty. */
  method RecentConversationContext(parse: string -> Event, file: Option<string>, o: Options) returns (context: string)
    ensures context == if file.None? then "" else Context(TurnsOf(Reader(parse), o, Tail(file.value, o.maxBytes)))
  {
    if file.None? {
      return "";
    }
    var lines := Split(Tail(file.value, o.maxBytes), NEWLINE);
    var turns := WalkLines(Reader(parse), lines, o.maxTurns, o.perTurnChars);
    if turns.None? {
      return "";
    }
    return Trim(Join(turns.value, ' '));
  }

  /** Earlier turns in front of later ones. */
  function Before(earlier: Option<seq<string>>, later: seq<string>): Option<seq<string>> {
    match earlier
    case None => None
    case Some(turns) => Some(turns + later)
  }

  lemma BeforeCons(earlier: Option<seq<string>>, turn: string, later: seq<string>)
    ensures Before(Before(earlier, [turn]), later) == Before(earlier, [turn] + later)
  {
    if earlier.Some? {
      Associate(earlier.value, [turn], later);
    }
  }

  lemma BeforeSame(earlier: Option<seq<string>>)
    ensures Before(earlier, []) == earlier
  {
    if earlier.Some? {
      BeforeNothing(earlier.value);
    }
  }

  lemma BeforeNothing(turns: seq<string>)
    ensures Before(Some([]), turns) == Some(turns) && Before(Some(turns), []) == Some(turns)
  {
    assert [] + turns == turns && turns + [] == turns;
  }

  // ---------------------------------------------------------------- against the whole file

  /** The turns of some last lines, completed from the lines before them if there are too few. */
  function GoOn(read: string -> Reading, o: Options, before: seq<string>, last: Option<seq<string>>): Option<seq<string>>
    requires last.Some? ==> |last.value| <= o.maxTurns
  {
    if last.None? then None else Before(Walk(read, o.perTurnChars, before, o.maxTurns - |last.value|), last.value)
  }

  /** The last lines decide as long as they have turns enough, or throw; otherwise the walk goes on
      into the lines before for what is missing. */
  lemma {:induction false} WalkOn(read: string -> Reading, chars: nat, before: seq<string>, lines: seq<string>, wanted: nat)
    ensures var last := Walk(read, chars, lines, wanted);
      && (last.Some? ==> |last.value| <= wanted)
      && Walk(read, chars, before + lines, wanted)
         == if last.None? then None else Before(Walk(read, chars, before, wanted - |last.value|), last.value)
    decreases |lines|
  {
    if lines == [] || wanted == 0 {
      assert lines == [] ==> before + lines == before;
      var whole := Walk(read, chars, before, wanted);
      if whole.Some? {
        BeforeNothing(whole.value);
      }
    } else {
      var n := |lines| - 1;
      assert (before + lines)[..|before| + n] == before + lines[..n];
      match read(lines[n])
      case Skip =>
        WalkOn(read, chars, before, lines[..n], wanted);
      case Throws =>
      case Turn(text) =>
        WalkOn(read, chars, before, lines[..n], wanted - 1);
        var last := Walk(read, chars, lines[..n], wanted - 1);
        if last.Some? {
          var earlier := Walk(read, chars, before, wanted - 1 - |last.value|);
          if earlier.Some? {
            Associate(earlier.value, last.value, [Cut(text, chars)]);
          }
        }
    }
  }

  lemma GlueFirst(start: string, b: string)
    requires NEWLINE !in start
    ensures Split(start + b, NEWLINE) == [start + Split(b, NEWLINE)[0]] + Split(b, NEWLINE)[1..]
  {
    IndexOfFirst(b, NEWLINE);
    var i := IndexOf(b, NEWLINE);
    if i < 0 {
      SplitPieces(b, NEWLINE);
      SplitPieces(start + b, NEWLINE);
    } else {
      var first, rest := b[..i], b[i + 1..];
      assert b == first + [NEWLINE] + rest;
      SplitConcat(first, rest, NEWLINE);
      SplitPieces(first, NEWLINE);
      assert start + b == (start + first) + [NEWLINE] + rest;
      SplitConcat(start + first, rest, NEWLINE);
      SplitPieces(start + first, NEWLINE);
    }
  }

  /** The lines of the file before the tail's first whole line. */
  function LinesBefore(file: string, most: nat): seq<string> {
    var tail := Tail(file, most);
    var head := file[..|file| - |tail|];
    LineFeed.Complete(head) + [LineFeed.Pending(head) + Split(tail, NEWLINE)[0]]
  }

  /** The lines of the tail behind its first one, which may be cut. */
  function WholeLines(tail: string): seq<string> {
    Split(tail, NEWLINE)[1..]
  }

  /** The tail's lines but for its first, which may be cut, are the file's last lines. */
  lemma TailLines(file: string, most: nat)
    ensures Split(file, NEWLINE) == LinesBefore(file, most) + WholeLines(Tail(file, most))
  {
    var tail := Tail(file, most);
    var head := file[..|file| - |tail|];
    assert file == head + tail;
    GluedLines(head, tail);
  }

  lemma GluedLines(head: string, tail: string)
    ensures Split(head + tail, NEWLINE)
         == (LineFeed.Complete(head) + [LineFeed.Pending(head) + Split(tail, NEWLINE)[0]]) + WholeLines(tail)
  {
    var done, start := LineFeed.Complete(head), LineFeed.Pending(head);
    assert NEWLINE !in start by {
      LineFeed.LinesRebuild(head);
    }
    LinesGlued(head, tail);
    GlueFirst(start, tail);
    Associate(done, [start + Split(tail, NEWLINE)[0]], WholeLines(tail));
  }

  lemma LinesGlued(head: string, tail: string)
    ensures Split(head + tail, NEWLINE) == LineFeed.Complete(head) + Split(LineFeed.Pending(head) + tail, NEWLINE)
  {
    LineFeed.MoreText(head, tail);
    LinesOfText(head + tail);
    LinesOfText(LineFeed.Pending(head) + tail);
    Associate(LineFeed.Complete(head), LineFeed.Complete(LineFeed.Pending(head) + tail), [LineFeed.Pending(LineFeed.Pending(head) + tail)]);
  }

  lemma LinesOfText(text: string)
    ensures Split(text, NEWLINE) == LineFeed.Complete(text) + [LineFeed.Pending(text)]
  {
  }

  /** Both walks go through the whole lines of the tail first. */
  lemma BothWalks(read: string -> Reading, o: Options, file: string)
    ensures var tail := Tail(file, o.maxBytes);
      var last := Walk(read, o.perTurnChars, WholeLines(tail), o.maxTurns);
      && (last.Some? ==> |last.value| <= o.maxTurns)
      && TurnsOf(read, o, file) == GoOn(read, o, LinesBefore(file, o.maxBytes), last)
      && TurnsOf(read, o, tail) == GoOn(read, o, [Split(tail, NEWLINE)[0]], last)
  {
    var tail := Tail(file, o.maxBytes);
    TailLines(file, o.maxBytes);
    WalkOn(read, o.perTurnChars, LinesBefore(file, o.maxBytes), WholeLines(tail), o.maxTurns);
    WalkOn(read, o.perTurnChars, [Split(tail, NEWLINE)[0]], WholeLines(tail), o.maxTurns);
    assert Split(tail, NEWLINE) == [Split(tail, NEWLINE)[0]] + WholeLines(tail);
  }

  /** When the whole lines of the tail have turns enough, or throw, the tail gives exactly what the
      whole file gives, whatever is in the cut line. */
  lemma TailDecides(read: string -> Reading, o: Options, file: string)
    requires var last := Walk(read, o.perTurnChars, WholeLines(Tail(file, o.maxBytes)), o.maxTurns);
      last.None? || |last.value| == o.maxTurns
    ensures TurnsOf(read, o, Tail(file, o.maxBytes)) == TurnsOf(read, o, file)
  {
    BothWalks(read, o, file);
  }

  /** The tail starts where the file or one of its lines does, so that its first line is whole. */
  predicate CutAtLine(file: string, most: nat) {
    |file| <= most || file[|file| - most - 1] == NEWLINE
  }

  /** A cut line that is no turn is dropped; a first line that is whole is one of the file's. Either
      way the tail's turns are the last ones of the whole file's, and all of them exactly if the tail
      has enough or the file has no more. */
  lemma CutLineDropped(read: string -> Reading, o: Options, file: string)
    requires read(Split(Tail(file, o.maxBytes), NEWLINE)[0]).Skip? || CutAtLine(file, o.maxBytes)
    requires TurnsOf(read, o, file).Some?
    ensures var few, all := TurnsOf(read, o, Tail(file, o.maxBytes)), TurnsOf(read, o, file).value;
      && few.Some? && |few.value| <= |all| && all[|all| - |few.value|..] == few.value
      && (few == Some(all) <==> |few.value| == o.maxTurns || |all| == |few.value|)
  {
    var tail := Tail(file, o.maxBytes);
    if CutAtLine(file, o.maxBytes) {
      WholeTail(read, o, file);
    } else {
      BothWalks(read, o, file);
      SkippedLine(read, o, Split(tail, NEWLINE)[0], Walk(read, o.perTurnChars, WholeLines(tail), o.maxTurns));
    }
  }

  /** Cut at a line, the tail's lines are all the file's, and the walk over the file goes through
      them first. */
  lemma WholeTail(read: string -> Reading, o: Options, file: string)
    requires CutAtLine(file, o.maxBytes)
    ensures var few := TurnsOf(read, o, Tail(file, o.maxBytes));
      && (few.Some? ==> |few.value| <= o.maxTurns)
      && exists before :: TurnsOf(read, o, file) == GoOn(read, o, before, few)
  {
    var tail := Tail(file, o.maxBytes);
    var few := TurnsOf(read, o, tail);
    if |file| <= o.maxBytes {
      WalkOn(read, o.perTurnChars, [], Split(file, NEWLINE), o.maxTurns);
      assert [] + Split(file, NEWLINE) == Split(file, NEWLINE);
      assert TurnsOf(read, o, file) == GoOn(read, o, [], few);
    } else {
      var n := |file| - o.maxBytes - 1;
      SplitConcat(file[..n], tail, NEWLINE);
      assert file == file[..n] + [NEWLINE] + tail;
      WalkOn(read, o.perTurnChars, Split(file[..n], NEWLINE), Split(tail, NEWLINE), o.maxTurns);
      assert TurnsOf(read, o, file) == GoOn(read, o, Split(file[..n], NEWLINE), few);
    }
  }

  lemma SkippedLine(read: string -> Reading, o: Options, line: string, last: Option<seq<string>>)
    requires read(line).Skip? && (last.Some? ==> |last.value| <= o.maxTurns)
    ensures GoOn(read, o, [line], last) == last
  {
    if last.Some? {
      assert [line][..0] == [];
      assert Walk(read, o.perTurnChars, [line], o.maxTurns - |last.value|) == Some([]);
      BeforeNothing(last.value);
    }
  }

  /** Without throwing lines the walk finds the last turns of all. */
  lemma {:induction false} WalkIsLastTurns(read: string -> Reading, chars: nat, lines: seq<string>, wanted: nat)
    requires forall line | line in lines :: !read(line).Throws?
    ensures Walk(read, chars, lines, wanted) == Some(LastOf(FlatMap(TurnOf(read, chars), lines), wanted))
    decreases |lines|
  {
    if lines == [] || wanted == 0 {
      assert LastOf(FlatMap(TurnOf(read, chars), lines), 0) == [];
    } else {
      var n := |lines| - 1;
      var before, line := lines[..n], lines[n];
      assert lines == before + [line] && line in lines;
      WalkIsLastTurns(read, chars, before, if read(line).Turn? then wanted - 1 else wanted);
      TurnsAppend(read, chars, before, line, wanted);
    }
  }

  lemma TurnsAppend(read: string -> Reading, chars: nat, before: seq<string>, line: string, wanted: nat)
    requires wanted > 0
    ensures var all := FlatMap(TurnOf(read, chars), before);
      LastOf(FlatMap(TurnOf(read, chars), before + [line]), wanted)
      == if read(line).Turn? then LastOf(all, wanted - 1) + [Cut(read(line).text, chars)] else LastOf(all, wanted)
  {
    var all := FlatMap(TurnOf(read, chars), before);
    FlatMapAppend(TurnOf(read, chars), before, line);
    if read(line).Turn? {
      LastOfAppend(all, Cut(read(line).text, chars), wanted);
    } else {
      assert all + [] == all;
    }
  }

  function LastOf(turns: seq<string>, wanted: nat): seq<string> {
    if |turns| <= wanted then turns else turns[|turns| - wanted..]
  }

  lemma LastOfAppend(turns: seq<string>, turn: string, wanted: nat)
    requires wanted > 0
    ensures LastOf(turns + [turn], wanted) == LastOf(turns, wanted - 1) + [turn]
  {
  }

  function TurnOf(read: string -> Reading, chars: nat): string -> seq<string> {
    line => if read(line).Turn? then [Cut(read(line).text, chars)] else []
  }

  // ---------------------------------------------------------------- the context, by what the lines tell

  /** The line is a user's or an assistant's event that says something, and what it says. */
  ghost predicate Tells(parse: string -> Event, line: string, text: string) {
    exists kind, raw ::
      && Trim(line) != "" && parse(Trim(line)) == Event(kind, raw)
      && (kind == "user" || kind == "assistant") && text == Trim(raw) && text != ""
  }

  lemma TellsIsTurn(parse: string -> Event, line: string, text: string)
    ensures ReadLine(parse, line) == Turn(text) <==> Tells(parse, line, text)
  {
    if ReadLine(parse, line) == Turn(text) {
      var event := parse(Trim(line));
      assert event == Event(event.kind, event.text);
    }
  }

  /** What the lines tell, in order. */
  ghost predicate Told(parse: string -> Event, lines: seq<string>, texts: seq<string>) {
    if lines == [] then texts == []
    else if exists text :: Tells(parse, lines[0], text) then
      texts != [] && Tells(parse, lines[0], texts[0]) && Told(parse, lines[1..], texts[1..])
    else Told(parse, lines[1..], texts)
  }

  lemma {:induction false} TurnsTold(parse: string -> Event, chars: nat, lines: seq<string>, texts: seq<string>)
    requires Told(parse, lines, texts)
    ensures |FlatMap(TurnOf(Reader(parse), chars), lines)| == |texts|
    ensures forall i | 0 <= i < |texts| :: FlatMap(TurnOf(Reader(parse), chars), lines)[i] == Cut(texts[i], chars)
  {
    if lines != [] {
      var line, rest := lines[0], FlatMap(TurnOf(Reader(parse), chars), lines[1..]);
      if exists text :: Tells(parse, line, text) {
        TellsIsTurn(parse, line, texts[0]);
        TurnsTold(parse, chars, lines[1..], texts[1..]);
        assert FlatMap(TurnOf(Reader(parse), chars), lines) == [Cut(texts[0], chars)] + rest;
      } else {
        if ReadLine(parse, line).Turn? {
          TellsIsTurn(parse, line, ReadLine(parse, line).text);
        }
        TurnsTold(parse, chars, lines[1..], texts);
        assert FlatMap(TurnOf(Reader(parse), chars), lines) == [] + rest && [] + rest == rest;
      }
    }
  }

  /** No line's event is null, whose reading would throw. */
  predicate NoNull(parse: string -> Event, lines: seq<string>) {
    forall line | line in lines :: Trim(line) != "" ==> parse(Trim(line)) != Null
  }

  /** The first so many characters of a text, or all. */
  predicate FirstOf(part: string, whole: string, chars: nat) {
    part <= whole && |part| == if |whole| < chars then |whole| else chars
  }

  /** The last texts, as many as are wanted or there are, each cut. */
  predicate LastParts(parts: seq<string>, texts: seq<string>, chars: nat, wanted: nat) {
    && |parts| == (if |texts| < wanted then |texts| else wanted)
    && forall i | 0 <= i < |parts| :: FirstOf(parts[i], texts[|texts| - |parts| + i], chars)
  }

  /** The context of a text none of whose lines throws: of what its lines tell the last ones, as many as
      are wanted or there are, each cut to its first characters, with a space between them. */
  lemma ContextTold(parse: string -> Event, o: Options, text: string, texts: seq<string>) returns (parts: seq<string>)
    requires Told(parse, Split(text, NEWLINE), texts) && NoNull(parse, Split(text, NEWLINE))
    ensures Context(TurnsOf(Reader(parse), o, text)) == Trim(Join(parts, ' '))
    ensures LastParts(parts, texts, o.perTurnChars, o.maxTurns)
  {
    var turns := TurnsOfTold(parse, o, text, texts);
    parts := LastOf(turns, o.maxTurns);
    LastCut(turns, texts, o.perTurnChars, o.maxTurns);
  }

  lemma TurnsOfTold(parse: string -> Event, o: Options, text: string, texts: seq<string>) returns (turns: seq<string>)
    requires Told(parse, Split(text, NEWLINE), texts) && NoNull(parse, Split(text, NEWLINE))
    ensures TurnsOf(Reader(parse), o, text) == Some(LastOf(turns, o.maxTurns))
    ensures |turns| == |texts| && forall i | 0 <= i < |texts| :: turns[i] == Cut(texts[i], o.perTurnChars)
  {
    var lines := Split(text, NEWLINE);
    NoneThrows(parse, lines);
    WalkIsLastTurns(Reader(parse), o.perTurnChars, lines, o.maxTurns);
    TurnsTold(parse, o.perTurnChars, lines, texts);
    turns := FlatMap(TurnOf(Reader(parse), o.perTurnChars), lines);
  }

  lemma NoneThrows(parse: string -> Event, lines: seq<string>)
    requires NoNull(parse, lines)
    ensures forall line | line in lines :: !Reader(parse)(line).Throws?
  {
  }

  lemma LastCut(turns: seq<string>, texts: seq<string>, chars: nat, wanted: nat)
    requires |turns| == |texts| && forall i | 0 <= i < |texts| :: turns[i] == Cut(texts[i], chars)
    ensures LastParts(LastOf(turns, wanted), texts, chars, wanted)
  {
    var parts := LastOf(turns, wanted);
    forall i | 0 <= i < |parts| ensures FirstOf(parts[i], texts[|texts| - |parts| + i], chars) {
      assert parts[i] == turns[|texts| - |parts| + i];
      CutIsFirst(texts[|texts| - |parts| + i], chars);
    }
  }

  lemma CutIsFirst(text: string, chars: nat)
    ensures FirstOf(Cut(text, chars), text, chars)
  {
  }
}
