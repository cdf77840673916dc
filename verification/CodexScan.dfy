/** The line scanners of the Codex installer. Each walks a `config.toml` once with a flag; the
    specification tags every line with its nearest preceding `[` line and selects by tag. */
module CodexScan {
  import opened Wrappers
  import opened Text
  import opened Seqs

  const NLM_TABLE := "[mcp_servers.nlm-memory]"
  const NLM_SUBTABLE := "[mcp_servers.nlm-memory."
  const LEGACY_NAME := "nlm-memory-ts"
  const LEGACY_SUFFIX := "@nlm-memory-ts"
  const LEGACY_TABLE := "[mcp_servers.nlm-memory-ts]"
  const LEGACY_QUOTED_TABLE := "[mcp_servers.\"nlm-memory-ts\"]"

  predicate Includes(s: string, pat: string) {
    Find(s, pat, 0) >= 0
  }

  predicate IsHeader(line: string) {
    "[" <= Trim(line)
  }

  predicate IsNlmTable(line: string) {
    Trim(line) == NLM_TABLE
  }

  predicate IsNlmHeader(line: string) {
    IsHeader(line) && (IsNlmTable(line) || NLM_SUBTABLE <= Trim(line))
  }

  predicate IsStaleHeader(line: string) {
    var t := Trim(line);
    IsHeader(line) && t[|t| - 1] == ']'
    && (Includes(t, LEGACY_SUFFIX) || t == LEGACY_TABLE || t == LEGACY_QUOTED_TABLE)
  }

  predicate IsStaleComment(line: string) {
    var t := Trim(line);
    ("# >>>" <= t || "# <<<" <= t) && Includes(t, LEGACY_NAME)
  }

  // ---------------------------------------------------------------- tagging

  /** A line and the table header it stands under. */
  datatype Tagged = Tagged(text: string, owner: Option<string>)

  function OwnerFrom(line: string, current: Option<string>): Option<string> {
    if IsHeader(line) then Some(line) else current
  }

  /** The nearest `[` line at or before line `i`. */
  function OwnerOf(lines: seq<string>, i: int): Option<string>
    requires i < |lines|
  {
    if i < 0 then None else OwnerFrom(lines[i], OwnerOf(lines, i - 1))
  }

  /** The lines before position `n` whose tag satisfies `p`. */
  function Selected(p: Tagged -> bool, lines: seq<string>, n: nat): seq<string>
    requires n <= |lines|
  {
    if n == 0 then []
    else Selected(p, lines, n - 1) + if p(Tagged(lines[n - 1], OwnerOf(lines, n - 1))) then [lines[n - 1]] else []
  }

  function Select(p: Tagged -> bool, lines: seq<string>): seq<string> {
    Selected(p, lines, |lines|)
  }

  /** Lines that are not junk and stand under no header satisfying `doomed`. */
  function Outside(doomed: string -> bool, junk: string -> bool): Tagged -> bool {
    (x: Tagged) => !junk(x.text) && !(x.owner.Some? && doomed(x.owner.value))
  }

  function NoJunk(): string -> bool { line => false }

  function Keeps(): Tagged -> bool { Outside(IsNlmHeader, NoJunk()) }

  function Dropped(): Tagged -> bool {
    (x: Tagged) => x.owner.Some? && IsNlmHeader(x.owner.value)
  }

  function Captured(): Tagged -> bool {
    (x: Tagged) => x.owner.Some? && IsNlmHeader(x.owner.value) && !IsHeader(x.text)
  }

  function Fresh(): Tagged -> bool { Outside(IsStaleHeader, IsStaleComment) }

  // ---------------------------------------------------------------- the scanners

  method KeptLines(lines: seq<string>) returns (kept: seq<string>)
    ensures kept == Select(Keeps(), lines)
  {
    kept := [];
    var dropping := false;
    for i := 0 to |lines|
      invariant kept == Selected(Keeps(), lines, i)
      invariant dropping <==> OwnerOf(lines, i - 1).Some? && IsNlmHeader(OwnerOf(lines, i - 1).value)
    {
      var line := lines[i];
      if IsHeader(line) {
        dropping := IsNlmHeader(line);
        if dropping {
          continue;
        }
      }
      if !dropping {
        kept := kept + [line];
      }
    }
  }

  /** The lines before the next header. */
  function BodyOf(lines: seq<string>): seq<string> {
    if lines == [] || IsHeader(lines[0]) then [] else [lines[0]] + BodyOf(lines[1..])
  }

  /** For each nlm header, in order, the lines between it and the next header. */
  function Bodies(lines: seq<string>): seq<seq<string>> {
    if lines == [] then []
    else (if IsNlmHeader(lines[0]) then [BodyOf(lines[1..])] else []) + Bodies(lines[1..])
  }

  /** What the loop still adds, with the group it is filling. */
  function StillToCome(capturing: bool, buf: seq<string>, rest: seq<string>): seq<seq<string>> {
    (if capturing then [buf + BodyOf(rest)] else []) + Bodies(rest)
  }

  lemma ComeStep(out: seq<seq<string>>, capturing: bool, buf: seq<string>, line: string, rest: seq<string>)
    requires !capturing ==> buf == []
    ensures out + StillToCome(capturing, buf, [line] + rest)
         == if IsHeader(line) then (if capturing then out + [buf] else out) + StillToCome(IsNlmHeader(line), [], rest)
            else out + StillToCome(capturing, if capturing then buf + [line] else buf, rest)
  {
    var here := [line] + rest;
    assert here[1..] == rest;
    if IsHeader(line) {
      assert buf + [] == buf && [] + BodyOf(rest) == BodyOf(rest);
      var coming := StillToCome(IsNlmHeader(line), [], rest);
      assert Bodies(here) == coming;
      if capturing {
        Associate(out, [buf], coming);
      } else {
        assert [] + coming == coming;
      }
    } else {
      assert [] + Bodies(rest) == Bodies(rest);
      Associate(buf, [line], BodyOf(rest));
    }
  }

  /** Bodies of the nlm tables, one group per header, and all groups together. */
  method NlmTableBodies(lines: seq<string>) returns (out: seq<seq<string>>)
    ensures out == Bodies(lines)
    ensures FlatMap(Same(), out) == Select(Captured(), lines)
    ensures out != [] <==> Any(IsNlmHeader, lines)
  {
    out := GroupLines(lines);
    BodiesAreCaptured(lines);
    BodiesAny(lines);
  }

  method GroupLines(lines: seq<string>) returns (out: seq<seq<string>>)
    ensures out == Bodies(lines)
  {
    out := [];
    var capturing := false;
    var buf: seq<string> := [];
    assert [] + ([] + Bodies(lines)) == Bodies(lines);
    assert lines[0..] == lines;
    for i := 0 to |lines|
      invariant out + StillToCome(capturing, buf, lines[i..]) == Bodies(lines)
      invariant !capturing ==> buf == []
    {
      var line := lines[i];
      assert lines[i..] == [line] + lines[i + 1..];
      ComeStep(out, capturing, buf, line, lines[i + 1..]);
      if IsHeader(line) {
        if capturing {
          out := out + [buf];
          buf := [];
        }
        capturing := IsNlmHeader(line);
        continue;
      }
      if capturing {
        buf := buf + [line];
      }
    }
    assert lines[|lines|..] == [];
    assert buf + [] == buf && [buf] + [] == [buf] && out + [] == out;
    if capturing {
      out := out + [buf];
    }
  }

  lemma {:induction false} BodiesAny(lines: seq<string>)
    ensures Bodies(lines) != [] <==> Any(IsNlmHeader, lines)
  {
    if lines != [] {
      BodiesAny(lines[1..]);
      AnySplit(IsNlmHeader, lines[0], lines[1..]);
      assert lines == [lines[0]] + lines[1..];
    }
  }

  /** The groups together are the lines tagged as captured. */
  lemma BodiesAreCaptured(lines: seq<string>)
    ensures FlatMap(Same(), Bodies(lines)) == Select(Captured(), lines)
  {
    SelectIsScan(Captured(), lines);
    BodiesAreScanned(lines, None);
  }

  /** Scanning from under some header: first the rest of its body, if it is an nlm header. */
  lemma {:induction false} BodiesAreScanned(lines: seq<string>, current: Option<string>)
    ensures Scan(Captured(), lines, current)
         == (if current.Some? && IsNlmHeader(current.value) then BodyOf(lines) else []) + FlatMap(Same(), Bodies(lines))
  {
    if lines != [] {
      var owner := OwnerFrom(lines[0], current);
      BodiesAreScanned(lines[1..], owner);
      GroupFirst(lines);
      var rest := FlatMap(Same(), Bodies(lines[1..]));
      assert [] + rest == rest && [] + (BodyOf(lines[1..]) + rest) == BodyOf(lines[1..]) + rest;
      Associate([lines[0]], BodyOf(lines[1..]), rest);
    }
  }

  lemma GroupFirst(lines: seq<string>)
    requires lines != []
    ensures FlatMap(Same(), Bodies(lines))
         == (if IsNlmHeader(lines[0]) then BodyOf(lines[1..]) else []) + FlatMap(Same(), Bodies(lines[1..]))
  {
    var rest := Bodies(lines[1..]);
    if IsNlmHeader(lines[0]) {
      assert ([BodyOf(lines[1..])] + rest)[1..] == rest;
    } else {
      assert [] + rest == rest;
    }
  }

  function NotHeader(): string -> bool { line => !IsHeader(line) }

  function Same(): seq<string> -> seq<string> { group => group }

  predicate UnderStale(lines: seq<string>, i: int)
    requires i < |lines|
  {
    OwnerOf(lines, i).Some? && IsStaleHeader(OwnerOf(lines, i).value)
  }

  lemma FreshStep(lines: seq<string>, i: nat)
    requires i < |lines|
    ensures UnderStale(lines, i) <==> if IsHeader(lines[i]) then IsStaleHeader(lines[i]) else UnderStale(lines, i - 1)
    ensures IsStaleHeader(lines[i]) ==> IsHeader(lines[i])
    ensures Selected(Fresh(), lines, i + 1)
         == Selected(Fresh(), lines, i) + if IsStaleComment(lines[i]) || UnderStale(lines, i) then [] else [lines[i]]
  {
  }

  method FreshLines(lines: seq<string>) returns (out: seq<string>)
    ensures out == Select(Fresh(), lines)
  {
    out := [];
    var inStaleTable := false;
    for i := 0 to |lines|
      invariant out == Selected(Fresh(), lines, i)
      invariant inStaleTable <==> UnderStale(lines, i - 1)
    {
      var line := lines[i];
      FreshStep(lines, i);
      if IsStaleComment(line) {
        CommentIsNoHeader(line);
        continue;
      }
      if IsStaleHeader(line) {
        inStaleTable := true;
        continue;
      }
      if inStaleTable {
        if IsHeader(line) {
          inStaleTable := false;
        } else {
          continue;
        }
      }
      out := out + [line];
    }
  }

  lemma CommentIsNoHeader(line: string)
    requires IsStaleComment(line)
    ensures !IsHeader(line)
  {
    assert Trim(line)[0] == '#';
  }

  // ---------------------------------------------------------------- removing whole sections

  /** `Select`, scanning forwards from a line that stands under `current`. */
  function Scan(p: Tagged -> bool, lines: seq<string>, current: Option<string>): seq<string> {
    if lines == [] then []
    else
      var owner := OwnerFrom(lines[0], current);
      (if p(Tagged(lines[0], owner)) then [lines[0]] else []) + Scan(p, lines[1..], owner)
  }

  lemma {:induction false} SelectedThenScan(p: Tagged -> bool, lines: seq<string>, i: nat)
    requires i <= |lines|
    ensures Selected(p, lines, i) + Scan(p, lines[i..], OwnerOf(lines, i - 1)) == Select(p, lines)
    decreases |lines| - i
  {
    if i == |lines| {
      assert Scan(p, lines[i..], OwnerOf(lines, i - 1)) == [];
    } else {
      var owner := OwnerOf(lines, i);
      var mine := if p(Tagged(lines[i], owner)) then [lines[i]] else [];
      assert lines[i..][1..] == lines[i + 1..];
      SelectedThenScan(p, lines, i + 1);
      Associate(Selected(p, lines, i), mine, Scan(p, lines[i + 1..], owner));
    }
  }

  lemma SelectIsScan(p: Tagged -> bool, lines: seq<string>)
    ensures Select(p, lines) == Scan(p, lines, None)
  {
    SelectedThenScan(p, lines, 0);
    assert lines[0..] == lines;
  }

  lemma {:induction false} ScanConcatStep(p: Tagged -> bool, line: string, rest: seq<string>, current: Option<string>)
    ensures Scan(p, [line] + rest, current)
         == (if p(Tagged(line, OwnerFrom(line, current))) then [line] else []) + Scan(p, rest, OwnerFrom(line, current))
  {
    assert ([line] + rest)[1..] == rest;
  }

  function Both(p: Tagged -> bool, q: Tagged -> bool): Tagged -> bool {
    (x: Tagged) => p(x) && q(x)
  }

  /** Dropping whole sections never moves a surviving line under another header: whatever is
      selected afterwards is what its original tag would have selected. */
  lemma {:induction false} ScanAfterSections(doomed: string -> bool, junk: string -> bool, q: Tagged -> bool,
                                             lines: seq<string>, before: Option<string>, after: Option<string>)
    requires forall line | junk(line) :: !IsHeader(line)
    requires after == before || (before.Some? && doomed(before.value))
    ensures Scan(q, Scan(Outside(doomed, junk), lines, before), after)
         == Scan(Both(Outside(doomed, junk), q), lines, before)
  {
    if lines != [] {
      var owner := OwnerFrom(lines[0], before);
      var rest := Scan(Outside(doomed, junk), lines[1..], owner);
      if Outside(doomed, junk)(Tagged(lines[0], owner)) {
        ScanConcatStep(q, lines[0], rest, after);
        ScanAfterSections(doomed, junk, q, lines[1..], owner, owner);
      } else {
        assert [] + rest == rest;
        ScanAfterSections(doomed, junk, q, lines[1..], owner, after);
      }
    }
  }

  lemma {:induction false} ScanSame(p: Tagged -> bool, q: Tagged -> bool, lines: seq<string>, current: Option<string>)
    requires forall x :: p(x) <==> q(x)
    ensures Scan(p, lines, current) == Scan(q, lines, current)
  {
    if lines != [] {
      ScanSame(p, q, lines[1..], OwnerFrom(lines[0], current));
    }
  }

  /** The two section removals commute, line by line. */
  lemma RemovalsCommute(lines: seq<string>)
    ensures Select(Keeps(), Select(Fresh(), lines)) == Select(Fresh(), Select(Keeps(), lines))
  {
    SelectIsScan(Fresh(), lines);
    SelectIsScan(Keeps(), lines);
    SelectIsScan(Keeps(), Select(Fresh(), lines));
    SelectIsScan(Fresh(), Select(Keeps(), lines));
    CommentsAreNoHeaders();
    ScanAfterSections(IsStaleHeader, IsStaleComment, Keeps(), lines, None, None);
    ScanAfterSections(IsNlmHeader, NoJunk(), Fresh(), lines, None, None);
    ScanSame(Both(Keeps(), Fresh()), Both(Fresh(), Keeps()), lines, None);
  }

  lemma CommentsAreNoHeaders()
    ensures forall line | IsStaleComment(line) :: !IsHeader(line)
  {
    forall line | IsStaleComment(line) ensures !IsHeader(line) {
      CommentIsNoHeader(line);
    }
  }

  /** Each removal is idempotent, and leaves no line the body capture would find. */
  lemma RemovalsIdempotent(lines: seq<string>)
    ensures Select(Keeps(), Select(Keeps(), lines)) == Select(Keeps(), lines)
    ensures Select(Fresh(), Select(Fresh(), lines)) == Select(Fresh(), lines)
    ensures Select(Dropped(), Select(Keeps(), lines)) == []
  {
    SelectIsScan(Fresh(), lines);
    SelectIsScan(Keeps(), lines);
    SelectIsScan(Keeps(), Select(Keeps(), lines));
    SelectIsScan(Fresh(), Select(Fresh(), lines));
    SelectIsScan(Dropped(), Select(Keeps(), lines));
    CommentsAreNoHeaders();
    ScanAfterSections(IsStaleHeader, IsStaleComment, Fresh(), lines, None, None);
    ScanSame(Both(Fresh(), Fresh()), Fresh(), lines, None);
    ScanAfterSections(IsNlmHeader, NoJunk(), Keeps(), lines, None, None);
    ScanSame(Both(Keeps(), Keeps()), Keeps(), lines, None);
    ScanAfterSections(IsNlmHeader, NoJunk(), Dropped(), lines, None, None);
    ScanSame(Both(Keeps(), Dropped()), Nothing(), lines, None);
    ScanNothing(lines, None);
  }

  function Nothing(): Tagged -> bool { x => false }

  lemma {:induction false} ScanNothing(lines: seq<string>, current: Option<string>)
    ensures Scan(Nothing(), lines, current) == []
  {
    if lines != [] {
      ScanNothing(lines[1..], OwnerFrom(lines[0], current));
    }
  }

  /** What removal loses, sorted by kind: every nlm header of the file, and exactly the lines
      the body capture returns. */
  lemma RemovalLoses(lines: seq<string>, n: nat)
    requires n <= |lines|
    ensures Filter(IsHeader, Selected(Dropped(), lines, n)) == Filter(IsNlmHeader, lines[..n])
    ensures Filter(NotHeader(), Selected(Dropped(), lines, n)) == Selected(Captured(), lines, n)
  {
    forall x: Tagged ensures SortsAs(IsHeader, IsNlmHeader, Dropped(), Captured(), x) {
    }
    SelectedSorts(IsHeader, IsNlmHeader, NotHeader(), Dropped(), Captured(), lines, n);
  }

  /** Headers are dropped if they are own; other lines are captured if they are dropped. */
  ghost predicate SortsAs(header: string -> bool, own: string -> bool, dropped: Tagged -> bool, captured: Tagged -> bool, x: Tagged) {
    && (own(x.text) ==> header(x.text))
    && (header(x.text) && x.owner == Some(x.text) ==> (dropped(x) <==> own(x.text)) && !captured(x))
    && (!header(x.text) ==> (dropped(x) <==> captured(x)))
  }

  lemma {:induction false} SelectedSorts(header: string -> bool, own: string -> bool, other: string -> bool,
                                         dropped: Tagged -> bool, captured: Tagged -> bool, lines: seq<string>, n: nat)
    requires n <= |lines| && (forall s :: header(s) <==> IsHeader(s)) && (forall s :: other(s) <==> !header(s))
    requires forall x :: SortsAs(header, own, dropped, captured, x)
    ensures Filter(header, Selected(dropped, lines, n)) == Filter(own, lines[..n])
    ensures Filter(other, Selected(dropped, lines, n)) == Selected(captured, lines, n)
  {
    if n > 0 {
      SelectedSorts(header, own, other, dropped, captured, lines, n - 1);
      var line, lost := lines[n - 1], Selected(dropped, lines, n - 1);
      assert SortsAs(header, own, dropped, captured, Tagged(line, OwnerOf(lines, n - 1)));
      assert lines[..n] == lines[..n - 1] + [line];
      FilterAppend(own, lines[..n - 1], line);
      FilterAppend(header, lost, line);
      FilterAppend(other, lost, line);
      assert lost + [] == lost;
    }
  }

  /** No line is invented or duplicated: the file is what removal keeps plus what it loses. */
  lemma RemovalConserves(lines: seq<string>, n: nat)
    requires n <= |lines|
    ensures multiset(lines[..n]) == multiset(Selected(Keeps(), lines, n)) + multiset(Selected(Dropped(), lines, n))
  {
    forall x: Tagged ensures Keeps()(x) <==> !Dropped()(x) {
      KeptOrDropped(x);
    }
    EitherSelected(Keeps(), Dropped(), lines, n);
  }

  lemma {:induction false} EitherSelected(p: Tagged -> bool, q: Tagged -> bool, lines: seq<string>, n: nat)
    requires n <= |lines| && forall x :: p(x) <==> !q(x)
    ensures multiset(lines[..n]) == multiset(Selected(p, lines, n)) + multiset(Selected(q, lines, n))
  {
    if n > 0 {
      EitherSelected(p, q, lines, n - 1);
      EitherStep(p, q, lines, n, OwnerOf(lines, n - 1), Selected(p, lines, n - 1), Selected(q, lines, n - 1));
    }
  }

  lemma EitherStep(p: Tagged -> bool, q: Tagged -> bool, lines: seq<string>, n: nat,
                   owner: Option<string>, kept: seq<string>, lost: seq<string>)
    requires 0 < n <= |lines| && (p(Tagged(lines[n - 1], owner)) <==> !q(Tagged(lines[n - 1], owner)))
    requires multiset(lines[..n - 1]) == multiset(kept) + multiset(lost)
    ensures var x := Tagged(lines[n - 1], owner);
      multiset(lines[..n]) == multiset(kept + if p(x) then [x.text] else []) + multiset(lost + if q(x) then [x.text] else [])
  {
    assert lines[..n] == lines[..n - 1] + [lines[n - 1]];
    assert kept + [] == kept && lost + [] == lost;
  }

  lemma KeptOrDropped(x: Tagged)
    ensures Keeps()(x) <==> !Dropped()(x)
  {
  }
}
