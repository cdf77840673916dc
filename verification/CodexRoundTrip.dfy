/** What connecting and disconnecting promise about `config.toml`. */
module CodexRoundTrip {
  import opened Wrappers
  import opened Text
  import opened Seqs
  import opened CodexScan
  import opened CodexConfig

  // ---------------------------------------------------------------- the block is found again

  /** What disconnecting leaves of a base that the block was placed behind. */
  function Settled(base: string): string {
    if base == "" then ""
    else if EndsWith(base, "\n\n") then base[..|base| - 1]
    else if EndsWith(base, "\n") then base
    else base + "\n"
  }

  lemma LeadSplits(base: string)
    requires base != ""
    ensures base + Separator(base) == Settled(base) + "\n"
  {
    if EndsWith(base, "\n\n") {
      assert base[|base| - 2..] == "\n\n";
      assert base[|base| - 1] == base[|base| - 2..][1];
      assert base + "" == base;
    } else if !EndsWith(base, "\n") {
      Associate(base, "\n", "\n");
      assert "\n" + "\n" == "\n\n";
    }
  }

  /** A one-line pattern absent from `base` does not start before the block either. */
  lemma NothingBefore(base: string, rest: string, pat: string, i: int)
    requires base != "" && pat != "" && NEWLINE !in pat && !Occurs(base, pat)
    requires 0 <= i < |base + Separator(base)|
    ensures !OccursAt(base + Separator(base) + rest, pat, i)
  {
    var lead := base + Separator(base);
    var s := lead + rest;
    if i + |pat| <= |base| {
      assert base[i..i + |pat|] == s[i..i + |pat|];
      assert !OccursAt(base, pat, i);
    } else if i + |pat| <= |s| {
      var p := if Separator(base) == "" then |base| - 1 else if i < |base| then |base| else i;
      LeadNewline(base, p);
      assert s[i..i + |pat|][p - i] == s[p] == lead[p];
      assert pat[p - i] in pat;
    }
  }

  lemma LeadNewline(base: string, p: int)
    requires base != ""
    requires |base| <= p < |base + Separator(base)| || (Separator(base) == "" && p == |base| - 1)
    ensures (base + Separator(base))[p] == NEWLINE
  {
    LeadSplits(base);
    var lead := base + Separator(base);
    if Separator(base) == "" {
      assert lead == base;
    } else {
      assert lead[p] == Separator(base)[p - |base|];
    }
  }

  lemma PartsAt(lead: string, begin: string, inside: string, end: string, tail: string)
    ensures OccursAt(lead + begin + inside + end + tail, begin, |lead|)
    ensures OccursAt(lead + begin + inside + end + tail, end, |lead| + |begin| + |inside|)
    ensures forall i | |lead| + |begin| <= i < |lead| + |begin| + |inside| :: (lead + begin + inside + end + tail)[i] in inside
  {
    var s := lead + begin + inside + end + tail;
    assert s[|lead|..|lead| + |begin|] == begin;
    var e := |lead| + |begin| + |inside|;
    assert s[e..e + |end|] == end;
    forall i | |lead| + |begin| <= i < e ensures s[i] in inside {
      assert s[i] == inside[i - |lead| - |begin|];
    }
  }

  lemma BlockFound(s: string, begin: string, end: string, b: nat, e: nat)
    requires |end| > 0 && OccursAt(s, begin, b) && OccursAt(s, end, e) && b + |begin| <= e
    requires forall i | 0 <= i < b :: !OccursAt(s, begin, i)
    requires forall i | b + |begin| <= i < e :: s[i] != end[0]
    ensures BlockSpan(s, begin, end) == Some((b, e + |end|))
  {
    FindAt(s, begin, 0, b);
    forall i | b + |begin| <= i < e ensures !OccursAt(s, end, i) {
      if i + |end| <= |s| {
        FirstChar(s, i, |end|);
      }
    }
    FindAt(s, end, b + |begin|, e);
  }

  lemma FirstChar(s: string, i: nat, n: nat)
    requires 0 < n && i + n <= |s|
    ensures s[i..i + n][0] == s[i]
  {
  }

  /** Cutting recovers the text before and behind a block whose inside is free of the end marker's
      first character. */
  lemma CutPlaced(lead: string, begin: string, inside: string, end: string, rest: string, s: string)
    requires |begin| > 0 && |end| > 0 && end[0] !in inside
    requires s == lead + begin + inside + end + ("\n" + rest)
    requires forall i | 0 <= i < |lead| :: !OccursAt(s, begin, i)
    ensures CutBlock(s, begin, end) == (if lead != "" && lead[|lead| - 1] == NEWLINE then lead[..|lead| - 1] else lead) + rest
  {
    PartsAt(lead, begin, inside, end, "\n" + rest);
    BlockFound(s, begin, end, |lead|, |lead| + |begin| + |inside|);
    CutOutBetween(s, lead, |lead| + |begin| + |inside| + |end|, rest);
  }

  lemma CutOutBetween(s: string, lead: string, past: nat, rest: string)
    requires |lead| <= past < |s| && lead <= s && s[past..] == "\n" + rest
    ensures CutOut(s, |lead|, past) == (if lead != "" && lead[|lead| - 1] == NEWLINE then lead[..|lead| - 1] else lead) + rest
  {
    assert s[past] == s[past..][0] && s[past + 1..] == s[past..][1..] == rest && s[..|lead|] == lead;
    if lead != "" {
      assert s[..|lead| - 1] == lead[..|lead| - 1];
    }
  }

  lemma StdioNoHash()
    ensures '#' !in NLM_TABLE && '#' !in "command = \"nlm\"" && '#' !in "args = [\"mcp\"]"
  {
    assert '#' !in NLM_TABLE by { }
    assert '#' !in "command = \"nlm\"" by { }
    assert '#' !in "args = [\"mcp\"]" by { }
  }

  lemma HttpNoHash(port: string)
    requires '#' !in port
    ensures '#' !in "url = \"http://127.0.0.1:" + port + "/mcp\"" && '#' !in "bearer_token_env_var = \"NLM_MCP_TOKEN\""
  {
    assert '#' !in "url = \"http://127.0.0.1:" by { }
    assert '#' !in "/mcp\"" by { }
    assert '#' !in "bearer_token_env_var = \"NLM_MCP_TOKEN\"" by { }
  }

  lemma EntriesNoHash(transport: Transport, port: string)
    requires '#' !in port
    ensures '#' !in FirstEntry(transport, port) && '#' !in SecondEntry(transport) && '#' !in NLM_TABLE
  {
    StdioNoHash();
    HttpNoHash(port);
  }

  lemma StdioNoNewline()
    ensures NEWLINE !in NLM_TABLE && NEWLINE !in "command = \"nlm\"" && NEWLINE !in "args = [\"mcp\"]"
  {
    assert NEWLINE !in NLM_TABLE by { }
    assert NEWLINE !in "command = \"nlm\"" by { }
    assert NEWLINE !in "args = [\"mcp\"]" by { }
  }

  lemma HttpNoNewline(port: string)
    requires NEWLINE !in port
    ensures NEWLINE !in "url = \"http://127.0.0.1:" + port + "/mcp\"" && NEWLINE !in "bearer_token_env_var = \"NLM_MCP_TOKEN\""
  {
    assert NEWLINE !in "url = \"http://127.0.0.1:" by { }
    assert NEWLINE !in "/mcp\"" by { }
    assert NEWLINE !in "bearer_token_env_var = \"NLM_MCP_TOKEN\"" by { }
  }

  lemma EntriesNoNewline(transport: Transport, port: string)
    requires NEWLINE !in port
    ensures NEWLINE !in FirstEntry(transport, port) && NEWLINE !in SecondEntry(transport) && NEWLINE !in NLM_TABLE
  {
    StdioNoNewline();
    HttpNoNewline(port);
  }

  lemma TomlPlain(transport: Transport, port: string)
    requires '#' !in port
    ensures '#' !in Toml(transport, port)
  {
    EntriesNoHash(transport, port);
  }

  lemma SentinelsPlain()
    ensures NEWLINE !in SENTINEL_BEGIN && NEWLINE !in SENTINEL_END
  {
    assert NEWLINE !in SENTINEL_BEGIN by { }
    assert NEWLINE !in SENTINEL_END by { }
  }

  /** Disconnecting after the block was placed leaves the base up to one newline, and whatever was
      written behind the block as it is. */
  lemma StripPlaced(base: string, transport: Transport, port: string, rest: string)
    requires '#' !in port && !Occurs(base, SENTINEL_BEGIN)
    ensures StripSentinelBlock(Placed(base, Toml(transport, port)) + rest) == Settled(base) + rest
  {
    var toml, lead := Toml(transport, port), base + Separator(base);
    var inside := "\n" + toml;
    TomlPlain(transport, port);
    SentinelsPlain();
    var s := Placed(base, toml) + rest;
    PlacedParts(lead, SENTINEL_BEGIN, "\n", toml, SENTINEL_END, rest);
    Associate(lead, Block(toml), rest);
    forall i | 0 <= i < |lead| ensures !OccursAt(s, SENTINEL_BEGIN, i) {
      NothingBefore(base, Block(toml) + rest, SENTINEL_BEGIN, i);
    }
    CutPlaced(lead, SENTINEL_BEGIN, inside, SENTINEL_END, rest, s);
    if base != "" {
      LeadSplits(base);
    }
  }

  function WithoutLast(s: string): string {
    if s != "" && s[|s| - 1] == NEWLINE then s[..|s| - 1] else s
  }

  function WithoutFirst(s: string): string {
    if s != "" && s[0] == NEWLINE then s[1..] else s
  }

  /** The text has no marker before position `past` from position `from` on. */
  ghost predicate NoneFrom(s: string, pat: string, from: nat, past: nat) {
    forall i | from <= i < past :: !OccursAt(s, pat, i)
  }

  /** What a disconnect cuts, whatever stands between the markers and around them: everything from the
      first begin marker to the end of the first end marker behind it, one newline before, and one
      behind. */
  lemma StripSpelled(s: string, before: string, mid: string, after: string)
    requires s == before + "# >>> nlm-memory (managed by nlm connect codex)" + mid + "# <<< nlm-memory" + after
    requires NoneFrom(s, SENTINEL_BEGIN, 0, |before|)
    requires NoneFrom(s, SENTINEL_END, |before| + |SENTINEL_BEGIN|, |before| + |SENTINEL_BEGIN| + |mid|)
    ensures StripSentinelBlock(s) == WithoutLast(before) + WithoutFirst(after)
  {
    MarkersSpelled();
    SpelledParts(before, SENTINEL_BEGIN, mid, SENTINEL_END, after);
    CutSpelled(s, before, SENTINEL_BEGIN, |mid|, SENTINEL_END, after);
  }

  lemma CutSpelled(s: string, before: string, begin: string, gap: nat, end: string, after: string)
    requires var (e, past) := (|before| + |begin| + gap, |before| + |begin| + gap + |end|);
      && OccursAt(s, begin, |before|) && OccursAt(s, end, e) && before <= s && past <= |s| && s[past..] == after
      && NoneFrom(s, begin, 0, |before|) && NoneFrom(s, end, |before| + |begin|, e)
    ensures CutBlock(s, begin, end) == WithoutLast(before) + WithoutFirst(after)
  {
    var e := |before| + |begin| + gap;
    SpanFound(s, begin, end, |before|, e);
    CutAround(s, before, e + |end|, after);
  }

  lemma SpelledParts(before: string, begin: string, mid: string, end: string, after: string)
    ensures var s := before + begin + mid + end + after;
      var (e, past) := (|before| + |begin| + |mid|, |before| + |begin| + |mid| + |end|);
      OccursAt(s, begin, |before|) && OccursAt(s, end, e) && before <= s && past <= |s| && s[past..] == after
  {
    PartsAt(before, begin, mid, end, after);
    SpelledEnds(before, begin, mid, end, after);
  }

  lemma SpelledEnds(before: string, begin: string, mid: string, end: string, after: string)
    ensures var (s, past) := (before + begin + mid + end + after, |before| + |begin| + |mid| + |end|);
      before <= s && past <= |s| && s[past..] == after
  {
    HeadAndTail(before, begin + mid + end, after);
    Associate(before, begin, mid);
    Associate(before, begin + mid, end);
  }

  lemma SpanFound(s: string, begin: string, end: string, b: nat, e: nat)
    requires OccursAt(s, begin, b) && OccursAt(s, end, e) && b + |begin| <= e
    requires NoneFrom(s, begin, 0, b) && NoneFrom(s, end, b + |begin|, e)
    ensures BlockSpan(s, begin, end) == Some((b, e + |end|))
  {
    FindAt(s, begin, 0, b);
    FindAt(s, end, b + |begin|, e);
  }

  lemma HeadAndTail(before: string, block: string, after: string)
    ensures before <= before + block + after && (before + block + after)[|before + block|..] == after
  {
  }

  lemma MarkersSpelled()
    ensures SENTINEL_BEGIN == "# >>> nlm-memory (managed by nlm connect codex)" && SENTINEL_END == "# <<< nlm-memory"
  {
  }

  lemma CutAround(s: string, before: string, past: nat, after: string)
    requires |before| <= past <= |s| && before <= s && s[past..] == after
    ensures CutOut(s, |before|, past) == WithoutLast(before) + WithoutFirst(after)
  {
    assert s[..|before|] == before;
    if past < |s| {
      assert s[past] == after[0] && s[past + 1..] == after[1..];
    }
    if before != "" {
      assert s[..|before| - 1] == before[..|before| - 1];
    }
  }

  /** The first begin marker stands here, with no end marker behind it. */
  ghost predicate OrphanAt(s: string, b: nat) {
    && OccursAt(s, SENTINEL_BEGIN, b) && NoneFrom(s, SENTINEL_BEGIN, 0, b)
    && NoneFrom(s, SENTINEL_END, b + |SENTINEL_BEGIN|, |s|)
  }

  /** And a text without such a pair of markers stays as it is. */
  lemma StripNothing(s: string)
    requires !Occurs(s, SENTINEL_BEGIN)
      || exists b: nat :: OrphanAt(s, b)
    ensures StripSentinelBlock(s) == s
  {
    FindFirst(s, SENTINEL_BEGIN, 0);
    if Occurs(s, SENTINEL_BEGIN) {
      var b: nat :| OrphanAt(s, b);
      FindAt(s, SENTINEL_BEGIN, 0, b);
      FindFirst(s, SENTINEL_END, b + |SENTINEL_BEGIN|);
    }
  }

  lemma PlacedParts(lead: string, begin: string, nl: string, toml: string, end: string, rest: string)
    ensures lead + (begin + nl + toml + end + nl) + rest == lead + begin + (nl + toml) + end + (nl + rest)
  {
  }

  // ---------------------------------------------------------------- rounds of connect and disconnect

  /** Text with no managed block begun in it and no nlm table of the user's own. */
  predicate Clean(content: string) {
    Find(content, SENTINEL_BEGIN, 0) < 0 && !HasNlmMcpTable(content)
  }

  lemma AbsentMeans(content: string, pat: string)
    ensures Find(content, pat, 0) < 0 <==> !Occurs(content, pat)
  {
    FindFirst(content, pat, 0);
  }

  lemma LinesOfNewline(s: string)
    ensures Split(s + "\n", NEWLINE) == Split(s, NEWLINE) + [""]
  {
    SplitConcat(s, "", NEWLINE);
    assert s + [NEWLINE] + "" == s + "\n";
  }

  /** How `Settled` changes the text: not at all, or by one newline at the end. */
  lemma SettledShape(base: string)
    ensures Settled(base) == base || base == Settled(base) + "\n" || Settled(base) == base + "\n"
  {
    if base != "" && EndsWith(base, "\n\n") {
      assert base[|base| - 1] == base[|base| - 2..][1];
    }
  }

  /** So no two lines of the user's are ever joined, whether before or behind the block: each line
      is still there, in order, and only blank lines come and go. */
  lemma NoLinesJoined(base: string, transport: Transport, port: string, rest: string, p: string -> bool)
    requires '#' !in port && !Occurs(base, SENTINEL_BEGIN) && !p("")
    ensures Filter(p, Split(StripSentinelBlock(Placed(base, Toml(transport, port)) + rest), NEWLINE))
         == Filter(p, Split(base, NEWLINE)) + Filter(p, Split(rest, NEWLINE))
  {
    StripPlaced(base, transport, port, rest);
    if base == "" {
      assert "" + rest == rest;
      assert Split("", NEWLINE) == [""] && [""][1..] == [] && Filter(p, [""]) == [];
    } else {
      var text := SettledText(base);
      SplitConcat(text, rest, NEWLINE);
      FilterConcat(p, Split(text, NEWLINE), Split(rest, NEWLINE));
      BlankEnd(p, text);
      BlankEnd(p, text + "\n");
    }
  }

  lemma SettledText(base: string) returns (text: string)
    requires base != ""
    ensures Settled(base) == text + "\n"
    ensures base == text || base == text + "\n" || base == text + "\n" + "\n"
  {
    if EndsWith(base, "\n\n") {
      text := base[..|base| - 2];
      assert base[|base| - 2..] == "\n\n" && base == text + base[|base| - 2..];
    } else if EndsWith(base, "\n") {
      text := base[..|base| - 1];
    } else {
      text := base;
    }
  }

  lemma BlankEnd(p: string -> bool, text: string)
    requires !p("")
    ensures Filter(p, Split(text + "\n", NEWLINE)) == Filter(p, Split(text, NEWLINE))
  {
    LinesOfNewline(text);
    FilterAppend(p, Split(text, NEWLINE), "");
  }

  lemma PrefixAbsent(s: string, pat: string)
    requires pat != "" && NEWLINE !in pat
    ensures Occurs(s + "\n", pat) <==> Occurs(s, pat)
  {
    var t := s + "\n";
    forall i ensures OccursAt(t, pat, i) <==> OccursAt(s, pat, i) {
      if 0 <= i && i + |pat| <= |s| {
        assert t[i..i + |pat|] == s[i..i + |pat|];
      } else if 0 <= i && i + |pat| == |s| + 1 {
        assert t[i..i + |pat|][|s| - i] == NEWLINE;
        assert pat[|pat| - 1] in pat;
      }
    }
  }

  lemma TablesOfNewline(s: string)
    ensures HasNlmMcpTable(s + "\n") <==> HasNlmMcpTable(s)
  {
    LinesOfNewline(s);
    AnyAppend(IsNlmTable, Split(s, NEWLINE), "");
    assert !IsNlmTable("");
  }

  lemma SettledClean(base: string)
    requires Clean(base)
    ensures Clean(Settled(base))
  {
    SettledShape(base);
    SentinelsPlain();
    AbsentMeans(base, SENTINEL_BEGIN);
    AbsentMeans(Settled(base), SENTINEL_BEGIN);
    PrefixAbsent(base, SENTINEL_BEGIN);
    PrefixAbsent(Settled(base), SENTINEL_BEGIN);
    TablesOfNewline(base);
    TablesOfNewline(Settled(base));
  }

  /** One connect followed by one disconnect. */
  function Round(content: string, transport: Transport, port: string): string {
    StripSentinelBlock(Connected(content, transport, port).0)
  }

  lemma RoundSettles(content: string, transport: Transport, port: string)
    requires Clean(content) && '#' !in port
    ensures Connected(content, transport, port) == (Placed(content, Toml(transport, port)), Written)
    ensures Round(content, transport, port) == Settled(content)
    ensures Clean(Settled(content))
  {
    AbsentMeans(content, SENTINEL_BEGIN);
    StripPlaced(content, transport, port, "");
    assert Placed(content, Toml(transport, port)) + "" == Placed(content, Toml(transport, port));
    assert Settled(content) + "" == Settled(content);
    SettledClean(content);
  }

  lemma RoundIsSettled(content: string, transport: Transport, port: string)
    requires Clean(content) && '#' !in port
    ensures Round(content, transport, port) == Settled(content) && Clean(Settled(content))
  {
    RoundSettles(content, transport, port);
  }

  function Rounder(transport: Transport, port: string): string -> string {
    content => Round(content, transport, port)
  }

  function Rounds(content: string, transport: Transport, port: string, k: nat): string {
    Iterate(Rounder(transport, port), content, k)
  }

  lemma SettledMeasure(base: string)
    ensures DropTrailing(Settled(base), NEWLINE) == DropTrailing(base, NEWLINE)
    ensures |Settled(base)| <= |base| + 1
    ensures base == "" || EndsWith(base, "\n") ==> |Settled(base)| <= |base|
    ensures Settled(base) == "" || EndsWith(Settled(base), "\n")
  {
    SettledShape(base);
    DropOne(base);
    DropOne(Settled(base));
    NewlineEnds(base);
    NewlineEnds(Settled(base));
  }

  /** What settling keeps of a text: it, or a text with the same end up to newlines and no longer
      than settling made it. */
  function SettledFrom(content: string): string -> bool {
    (c: string) => c == content ||
      (DropTrailing(c, NEWLINE) == DropTrailing(content, NEWLINE) && (c == "" || EndsWith(c, "\n"))
       && |c| <= if content == "" || EndsWith(content, "\n") then |content| else |content| + 1)
  }

  lemma SettlingKeepsText(content: string, k: nat)
    ensures DropTrailing(Iterate(Settled, content, k), NEWLINE) == DropTrailing(content, NEWLINE)
    ensures |Iterate(Settled, content, k)| <= |content| + 1
    ensures content == "" || EndsWith(content, "\n") ==> |Iterate(Settled, content, k)| <= |content|
  {
    forall c | SettledFrom(content)(c) ensures SettledFrom(content)(Settled(c)) {
      SettledMeasure(c);
    }
    IterateKeeps(Settled, SettledFrom(content), content, k);
    assert SettledFrom(content)(Iterate(Settled, content, k));
  }

  /** Any number of rounds keeps the text up to trailing newlines, and never leaves it longer
      than it was plus one newline. */
  lemma RoundsKeepText(content: string, transport: Transport, port: string, k: nat)
    requires Clean(content) && '#' !in port
    ensures DropTrailing(Rounds(content, transport, port, k), NEWLINE) == DropTrailing(content, NEWLINE)
    ensures |Rounds(content, transport, port, k)| <= |content| + 1
  {
    forall c | Clean(c) ensures Rounder(transport, port)(c) == Settled(c) && Clean(Settled(c)) {
      RoundIsSettled(c, transport, port);
    }
    IterateSame(Rounder(transport, port), Settled, Clean, content, k);
    SettlingKeepsText(content, k);
  }

  lemma EndsAt(s: string, tail: string)
    ensures EndsWith(s, tail) <==> |s| >= |tail| && forall k | 0 <= k < |tail| :: s[|s| - |tail| + k] == tail[k]
  {
    if |s| >= |tail| {
      var end := s[|s| - |tail|..];
      assert forall k | 0 <= k < |tail| :: end[k] == s[|s| - |tail| + k];
    }
  }

  /** Ending in newlines, by position. */
  lemma NewlineEnds(s: string)
    ensures EndsWith(s, "\n") <==> |s| >= 1 && s[|s| - 1] == NEWLINE
    ensures EndsWith(s, "\n\n") <==> |s| >= 2 && s[|s| - 1] == NEWLINE && s[|s| - 2] == NEWLINE
    ensures EndsWith(s, "\n\n\n")
        <==> |s| >= 3 && s[|s| - 1] == NEWLINE && s[|s| - 2] == NEWLINE && s[|s| - 3] == NEWLINE
  {
    EndsAt(s, "\n");
    EndsAt(s, "\n\n");
    EndsAt(s, "\n\n\n");
  }

  lemma DropOne(s: string)
    ensures DropTrailing(s + "\n", NEWLINE) == DropTrailing(s, NEWLINE)
    ensures EndsWith(s + "\n", "\n")
  {
    assert (s + "\n")[..|s|] == s;
  }

  /** A round changes nothing exactly when the file is empty or ends in exactly one newline. */
  lemma RoundFixed(content: string, transport: Transport, port: string)
    requires Clean(content) && '#' !in port
    ensures Round(content, transport, port) == content
        <==> content == "" || (EndsWith(content, "\n") && !EndsWith(content, "\n\n"))
  {
    RoundSettles(content, transport, port);
  }

  /** Connecting twice equals connecting once, unless the file ends in three newlines or more;
      then each further connect acts as on the file with one newline less. */
  lemma ConnectTwice(content: string, transport: Transport, port: string)
    requires Clean(content) && '#' !in port
    ensures var once := Connected(content, transport, port).0; var twice := Connected(once, transport, port).0;
      && (twice == once <==> !EndsWith(content, "\n\n\n"))
      && (EndsWith(content, "\n\n\n") ==>
            (|twice| == |once| - 1 && twice == Connected(content[..|content| - 1], transport, port).0))
  {
    RoundSettles(content, transport, port);
    var settled, toml := Settled(content), Toml(transport, port);
    assert Connected(Connected(content, transport, port).0, transport, port).0 == Placed(settled, toml);
    SeparatorAfter(content);
    if EndsWith(content, "\n\n\n") {
      RoundSettles(settled, transport, port);
    } else {
      assert settled + Separator(settled) == content + Separator(content);
    }
  }

  lemma SeparatorAfter(base: string)
    ensures !EndsWith(base, "\n\n\n") ==> Settled(base) + Separator(Settled(base)) == base + Separator(base)
    ensures EndsWith(base, "\n\n\n") ==> Settled(base) == base[..|base| - 1]
                                         && Separator(base) == Separator(Settled(base)) == ""
  {
    var settled := Settled(base);
    NewlineEnds(base);
    NewlineEnds(settled);
    if base != "" && !EndsWith(base, "\n\n\n") {
      if EndsWith(base, "\n\n") {
        assert Separator(base) == "" && Separator(settled) == "\n";
        DropThenAdd(base);
      } else if !EndsWith(base, "\n") {
        assert Separator(base) == "\n" + "\n" && Separator(settled) == "\n";
        Associate(base, "\n", "\n");
      }
    }
  }

  lemma DropThenAdd(s: string)
    requires s != "" && s[|s| - 1] == NEWLINE
    ensures s[..|s| - 1] + "\n" == s == s + ""
  {
  }

  // ---------------------------------------------------------------- an orphaned begin marker

  /** Markers that start alike and differ soon, with that start nowhere else in the first. */
  predicate Apart(begin: string, end: string) {
    && |begin| > 2 && |end| > 2 && begin[2] != end[2]
    && forall k | 0 < k < |begin| :: begin[k] != end[0]
  }

  lemma SentinelsApart()
    ensures Apart(SENTINEL_BEGIN, SENTINEL_END) && SENTINEL_END[0] == '#'
  {
    assert '#' !in SENTINEL_BEGIN[1..] by { }
    assert forall k | 0 < k < |SENTINEL_BEGIN| :: SENTINEL_BEGIN[k] == SENTINEL_BEGIN[1..][k - 1];
  }

  /** The end marker does not start between the begin marker and its own place. */
  lemma NoEndInBlock(lead: string, begin: string, inside: string, end: string, s: string, i: nat)
    requires s == lead + begin + inside + end + "\n" && Apart(begin, end) && end[0] !in inside
    requires |lead| <= i < |lead| + |begin| + |inside|
    ensures !OccursAt(s, end, i)
  {
    if i + |end| <= |s| {
      assert s[i..i + |end|][0] == s[i] && s[i..i + |end|][2] == s[i + 2];
      if i == |lead| {
        assert s[i + 2] == begin[2];
      } else if i < |lead| + |begin| {
        assert s[i] == begin[i - |lead|];
      } else {
        assert s[i] == inside[i - |lead| - |begin|];
      }
    }
  }

  /** Cutting from a begin marker in `content`, which has no end marker of its own behind it. */
  lemma CutFromOrphan(content: string, lead: string, begin: string, inside: string, end: string, s: string, b: nat)
    requires s == lead + begin + inside + end + "\n" && content <= lead && b + |begin| <= |content|
    requires Apart(begin, end) && end[0] !in inside
    requires OccursAt(s, begin, b) && forall i | 0 <= i < b :: !OccursAt(s, begin, i)
    requires forall i | b + |begin| <= i < |lead| :: !OccursAt(s, end, i)
    ensures CutBlock(s, begin, end) == if b > 0 && content[b - 1] == NEWLINE then content[..b - 1] else content[..b]
  {
    var e := |lead| + |begin| + |inside|;
    EndPlace(lead, begin, inside, end, s);
    forall i | b + |begin| <= i < e ensures !OccursAt(s, end, i) {
      if i >= |lead| {
        NoEndInBlock(lead, begin, inside, end, s, i);
      }
    }
    SpanFrom(s, begin, end, b, e);
    CutToEnd(s, content, b, e + |end|);
  }

  lemma EndPlace(lead: string, begin: string, inside: string, end: string, s: string)
    requires s == lead + begin + inside + end + "\n"
    ensures var e := |lead| + |begin| + |inside|;
      OccursAt(s, end, e) && |s| == e + |end| + 1 && s[e + |end|] == NEWLINE && lead <= s
  {
    PartsAt(lead, begin, inside, end, "\n");
  }

  lemma SpanFrom(s: string, begin: string, end: string, b: nat, e: nat)
    requires OccursAt(s, begin, b) && OccursAt(s, end, e) && b + |begin| <= e
    requires forall i | 0 <= i < b :: !OccursAt(s, begin, i)
    requires forall i | b + |begin| <= i < e :: !OccursAt(s, end, i)
    ensures BlockSpan(s, begin, end) == Some((b, e + |end|))
  {
    FindAt(s, begin, 0, b);
    FindAt(s, end, b + |begin|, e);
  }

  lemma CutToEnd(s: string, content: string, b: nat, past: nat)
    requires b <= |content| && content <= s && b <= past && |s| == past + 1 && s[past] == NEWLINE
    ensures CutOut(s, b, past) == if b > 0 && content[b - 1] == NEWLINE then content[..b - 1] else content[..b]
  {
    assert s[past + 1..] == "" && s[..b] == content[..b];
    if b > 0 {
      assert s[b - 1] == content[b - 1] && s[..b - 1] == content[..b - 1];
    }
  }

  /** A file with a begin marker and no end marker is left alone by a disconnect, but a connect puts
      the block at its end, and the next disconnect then takes the orphaned marker for the block's
      own: everything from it on is deleted. */
  lemma OrphanedBeginEatsText(content: string, transport: Transport, port: string, b: nat)
    requires '#' !in port && Find(content, SENTINEL_BEGIN, 0) == b
    requires !Occurs(content, SENTINEL_END) && !HasNlmMcpTable(content)
    ensures StripSentinelBlock(content) == content && b <= |content|
    ensures Round(content, transport, port) == if b > 0 && content[b - 1] == NEWLINE then content[..b - 1] else content[..b]
  {
    OrphanIsNoBlock(content, b);
    var toml, lead := Toml(transport, port), content + Separator(content);
    var s := Placed(content, toml);
    TomlPlain(transport, port);
    SentinelsApart();
    SentinelsPlain();
    BeginStays(content, Separator(content) + Block(toml), b);
    Associate(content, Separator(content), Block(toml));
    forall i | 0 <= i < |lead| ensures !OccursAt(s, SENTINEL_END, i) {
      NothingBefore(content, Block(toml), SENTINEL_END, i);
    }
    PlacedParts(lead, SENTINEL_BEGIN, "\n", toml, SENTINEL_END, "");
    NothingBehind(s, lead + SENTINEL_BEGIN + ("\n" + toml) + SENTINEL_END);
    CutFromOrphan(content, lead, SENTINEL_BEGIN, "\n" + toml, SENTINEL_END, s, b);
  }

  lemma NothingBehind(s: string, head: string)
    requires s + "" == head + ("\n" + "")
    ensures s == head + "\n"
  {
    assert s + "" == s && "\n" + "" == "\n";
  }

  lemma OrphanIsNoBlock(content: string, b: nat)
    requires Find(content, SENTINEL_BEGIN, 0) == b && !Occurs(content, SENTINEL_END)
    ensures StripSentinelBlock(content) == content && b + |SENTINEL_BEGIN| <= |content| && content != ""
  {
    FindFirst(content, SENTINEL_BEGIN, 0);
    FindFirst(content, SENTINEL_END, b + |SENTINEL_BEGIN|);
  }

  /** The first begin marker is still the first in a longer text. */
  lemma BeginStays(content: string, more: string, b: nat)
    requires Find(content, SENTINEL_BEGIN, 0) == b
    ensures OccursAt(content + more, SENTINEL_BEGIN, b)
    ensures forall i | 0 <= i < b :: !OccursAt(content + more, SENTINEL_BEGIN, i)
  {
    FindFirst(content, SENTINEL_BEGIN, 0);
    var n := |SENTINEL_BEGIN|;
    assert (content + more)[b..b + n] == content[b..b + n];
    forall i | 0 <= i < b ensures !OccursAt(content + more, SENTINEL_BEGIN, i) {
      assert (content + more)[i..i + n] == content[i..i + n];
      assert !OccursAt(content, SENTINEL_BEGIN, i);
    }
  }

  // ---------------------------------------------------------------- exactly one table

  /** Replacing blank runs keeps every line that is not blank, in order. */
  lemma {:induction false} CollapseKeepsLines(s: string, p: string -> bool)
    requires !p("")
    ensures Split(CollapseBlankRuns(s), NEWLINE)[0] == Split(s, NEWLINE)[0]
    ensures Filter(p, Split(CollapseBlankRuns(s), NEWLINE)[1..]) == Filter(p, Split(s, NEWLINE)[1..])
  {
    if s != "" {
      CollapseKeepsLines(s[1..], p);
      var all, some := Split(s[1..], NEWLINE), Split(CollapseBlankRuns(s[1..]), NEWLINE);
      FilterFirst(p, all);
      FilterFirst(p, some);
      if "\n\n\n" <= s {
        assert s[0] == NEWLINE && s[1] == NEWLINE;
        assert Split(s, NEWLINE) == [""] + all && all[0] == "";
        assert Split(s, NEWLINE)[1..] == all;
      } else {
        var c := CollapseBlankRuns(s);
        assert c[0] == s[0] && c[1..] == CollapseBlankRuns(s[1..]);
        assert Split(c, NEWLINE) == Grow(s[0], some, NEWLINE);
        if s[0] == NEWLINE {
          assert ([""] + some)[1..] == some && ([""] + all)[1..] == all;
        }
      }
    }
  }

  lemma FilterFirst(p: string -> bool, lines: seq<string>)
    requires |lines| >= 1
    ensures Filter(p, lines) == (if p(lines[0]) then [lines[0]] else []) + Filter(p, lines[1..])
  {
  }

  lemma CollapseKeeps(s: string, p: string -> bool)
    requires !p("")
    ensures Filter(p, Split(CollapseBlankRuns(s), NEWLINE)) == Filter(p, Split(s, NEWLINE))
  {
    CollapseKeepsLines(s, p);
    FilterFirst(p, Split(s, NEWLINE));
    FilterFirst(p, Split(CollapseBlankRuns(s), NEWLINE));
  }

  lemma {:induction false} FilterNone(p: string -> bool, lines: seq<string>)
    ensures Filter(p, lines) == [] <==> !Any(p, lines)
  {
    if lines != [] {
      FilterNone(p, lines[1..]);
      AnySplit(p, lines[0], lines[1..]);
      assert lines == [lines[0]] + lines[1..];
    }
  }

  function Newlines(n: nat): string {
    if n == 0 then "" else "\n" + Newlines(n - 1)
  }

  /** A run of newlines between texts becomes at most two, and each text is treated by itself. */
  lemma {:induction false} RunBecomesTwo(a: string, n: nat, b: string)
    requires (a != "" ==> a[|a| - 1] != NEWLINE) && (b != "" ==> b[0] != NEWLINE)
    ensures CollapseBlankRuns(a + (Newlines(n) + b))
         == CollapseBlankRuns(a) + (Newlines(if n <= 2 then n else 2) + CollapseBlankRuns(b))
    decreases |a|
  {
    if a == "" {
      LeadingRun(n, b);
      assert "" + (Newlines(n) + b) == Newlines(n) + b;
      var run := Newlines(if n <= 2 then n else 2) + CollapseBlankRuns(b);
      assert "" + run == run;
    } else {
      var s := a + (Newlines(n) + b);
      assert s[0] == a[0] && s[1..] == a[1..] + (Newlines(n) + b);
      RunBecomesTwo(a[1..], n, b);
      assert "\n\n\n" <= s <==> "\n\n\n" <= a by {
        FirstThree(a, Newlines(n) + b);
      }
      Associate([a[0]], CollapseBlankRuns(a[1..]), Newlines(if n <= 2 then n else 2) + CollapseBlankRuns(b));
    }
  }

  lemma FirstThree(a: string, rest: string)
    requires a != "" && a[|a| - 1] != NEWLINE
    ensures "\n\n\n" <= a + rest <==> "\n\n\n" <= a
  {
    assert (a + rest)[|a| - 1] == a[|a| - 1];
  }

  lemma {:induction false} LeadingRun(n: nat, b: string)
    requires b != "" ==> b[0] != NEWLINE
    ensures CollapseBlankRuns(Newlines(n) + b) == Newlines(if n <= 2 then n else 2) + CollapseBlankRuns(b)
  {
    if n == 0 {
      assert "" + b == b && "" + CollapseBlankRuns(b) == CollapseBlankRuns(b);
    } else {
      var s := Newlines(n) + b;
      assert s[0] == NEWLINE && s[1..] == Newlines(n - 1) + b;
      LeadingRun(n - 1, b);
      ThreeOrMore(n, b);
      if n < 3 {
        Associate("\n", Newlines(n - 1), CollapseBlankRuns(b));
      }
    }
  }

  lemma ThreeOrMore(n: nat, b: string)
    requires b != "" ==> b[0] != NEWLINE
    ensures "\n\n\n" <= Newlines(n) + b <==> n >= 3
  {
    if n >= 3 {
      assert Newlines(n - 1) == "\n" + Newlines(n - 2) && Newlines(n - 2) == "\n" + Newlines(n - 3);
      assert Newlines(n) == "\n\n\n" + Newlines(n - 3);
      assert Newlines(n) + b == "\n\n\n" + (Newlines(n - 3) + b);
    } else {
      assert Newlines(1) == "\n" && Newlines(2) == "\n\n";
      assert b != "" ==> (Newlines(n) + b)[n] == b[0];
    }
  }

  function TableLines(content: string): seq<string> {
    Filter(IsNlmTable, Split(content, NEWLINE))
  }

  lemma TableLinesNewline(s: string, rest: string)
    ensures TableLines(s + "\n" + rest) == TableLines(s) + TableLines(rest)
  {
    SplitConcat(s, rest, NEWLINE);
    FilterConcat(IsNlmTable, Split(s, NEWLINE), Split(rest, NEWLINE));
  }

  lemma FilterOne(p: string -> bool, line: string)
    ensures Filter(p, [line]) == if p(line) then [line] else []
  {
    FilterAppend(p, [], line);
    assert [] + [line] == [line];
  }

  lemma TableLinesOne(line: string)
    requires NEWLINE !in line
    ensures TableLines(line) == if IsNlmTable(line) then [line] else []
  {
    SplitPieces(line, NEWLINE);
    FilterOne(IsNlmTable, line);
  }

  lemma SettledTableLines(base: string)
    ensures TableLines(Settled(base)) == TableLines(base)
  {
    SettledShape(base);
    TableLinesNewline(base, "");
    TableLinesNewline(Settled(base), "");
    assert base + "\n" + "" == base + "\n" && Settled(base) + "\n" + "" == Settled(base) + "\n";
    TableLinesOne("");
  }

  lemma NotTable(line: string)
    requires line != "" && !IsSpace(line[0]) && line[0] != '['
    ensures !IsNlmTable(line)
  {
    TrimEndSplits(line);
  }

  lemma Nested(a: string, b: string, c: string, d: string, e: string)
    ensures a + "\n" + (b + "\n" + c + "\n" + d + "\n") + e + "\n"
         == a + "\n" + (b + "\n" + (c + "\n" + (d + "\n" + (e + "\n" + ""))))
  {
  }

  /** The block holds the one table line, between its sentinels and entries. */
  lemma BlockTableLines(transport: Transport, port: string)
    requires NEWLINE !in port
    ensures TableLines(Block(Toml(transport, port))) == [NLM_TABLE]
  {
    var begin, first, second, end := SENTINEL_BEGIN, FirstEntry(transport, port), SecondEntry(transport), SENTINEL_END;
    Nested(begin, NLM_TABLE, first, second, end);
    SentinelsPlain();
    EntriesNoNewline(transport, port);
    BlockLinesSorted(transport, port);
    FiveLines(begin, NLM_TABLE, first, second, end);
  }

  lemma BlockLinesSorted(transport: Transport, port: string)
    ensures !IsNlmTable(SENTINEL_BEGIN) && !IsNlmTable(SENTINEL_END) && IsNlmTable(NLM_TABLE)
    ensures !IsNlmTable(FirstEntry(transport, port)) && !IsNlmTable(SecondEntry(transport))
  {
    NotTable(SENTINEL_BEGIN);
    NotTable(SENTINEL_END);
    NotTable(FirstEntry(transport, port));
    NotTable(SecondEntry(transport));
    TrimFixed(NLM_TABLE);
  }

  lemma NoTableLine(line: string, rest: string)
    requires NEWLINE !in line && !IsNlmTable(line)
    ensures TableLines(line + "\n" + rest) == TableLines(rest)
  {
    TableLinesNewline(line, rest);
    TableLinesOne(line);
  }

  lemma FiveLines(a: string, b: string, c: string, d: string, e: string)
    requires NEWLINE !in a && NEWLINE !in b && NEWLINE !in c && NEWLINE !in d && NEWLINE !in e
    requires !IsNlmTable(a) && IsNlmTable(b) && !IsNlmTable(c) && !IsNlmTable(d) && !IsNlmTable(e)
    ensures TableLines(a + "\n" + (b + "\n" + (c + "\n" + (d + "\n" + (e + "\n" + ""))))) == [b]
  {
    var r4 := e + "\n" + "";
    var r3 := d + "\n" + r4;
    var r2 := c + "\n" + r3;
    NoTableLine(e, "");
    NoTableLine(d, r4);
    NoTableLine(c, r3);
    TableLinesNewline(b, r2);
    TableLinesOne(b);
    TableLinesOne("");
    NoTableLine(a, b + "\n" + r2);
  }

  /** Whatever the file held, a connect that reports `Written` or `MigratedStdio` leaves exactly
      one line that declares the nlm table: the block's own. */
  lemma ExactlyOneTable(existing: string, transport: Transport, port: string)
    requires NEWLINE !in port
    ensures var (text, result) := Connected(existing, transport, port);
      !result.SkippedExisting? ==> TableLines(text) == [NLM_TABLE]
  {
    var base, toml := StripSentinelBlock(existing), Toml(transport, port);
    FilterNone(IsNlmTable, Split(base, NEWLINE));
    PlacedTableLines(base, transport, port);
    RemovalLeavesNone(base);
    PlacedTableLines(WithoutNlmTables(base), transport, port);
  }

  lemma PlacedTableLines(base: string, transport: Transport, port: string)
    requires NEWLINE !in port
    ensures TableLines(Placed(base, Toml(transport, port))) == TableLines(base) + [NLM_TABLE]
  {
    var block := Block(Toml(transport, port));
    BlockTableLines(transport, port);
    if base == "" {
      TableLinesOne("");
      assert "" + "" + block == block;
    } else {
      LeadSplits(base);
      SettledTableLines(base);
      TableLinesNewline(Settled(base), block);
    }
  }

  lemma RemovalLeavesNone(base: string)
    ensures TableLines(WithoutNlmTables(base)) == []
  {
    var lines := Split(base, NEWLINE);
    var kept := Select(Keeps(), lines);
    assert !IsNlmTable("");
    CollapseKeeps(Join(kept, NEWLINE), IsNlmTable);
    SplitPieces(base, NEWLINE);
    SelectMembers(Keeps(), lines, |lines|);
    KeptAreNotTables(lines, |lines|);
    if kept == [] {
      TableLinesOne("");
    } else {
      SplitJoin(kept, NEWLINE);
      FilterNone(IsNlmTable, kept);
    }
  }

  lemma {:induction false} KeptAreNotTables(lines: seq<string>, n: nat)
    requires n <= |lines|
    ensures forall line | line in Selected(Keeps(), lines, n) :: !IsNlmTable(line)
  {
    if n > 0 {
      KeptAreNotTables(lines, n - 1);
      if IsNlmTable(lines[n - 1]) {
        assert Trim(lines[n - 1])[..1] == "[";
        assert OwnerOf(lines, n - 1) == Some(lines[n - 1]);
      }
    }
  }

  // ---------------------------------------------------------------- migration is conservative

  /** A migration deletes nothing but nlm headers, blank lines, comments and entries under the
      three keys the installer itself used to write. */
  lemma MigrationDeletesOnlyOurs(lines: seq<string>, line: string)
    requires IsOurStdio(lines) && line in Select(Dropped(), lines)
    ensures IsNlmHeader(line) || !Meaningful(line) || Entry(line).0 in ALLOWED_KEYS
  {
    var dropped := Select(Dropped(), lines);
    assert lines[..|lines|] == lines;
    RemovalLoses(lines, |lines|);
    FilterMembers(IsHeader, dropped);
    FilterMembers(NotHeader(), dropped);
    FilterMembers(IsNlmHeader, lines);
    FilterMembers(Meaningful, Select(Captured(), lines));
    if IsHeader(line) {
      assert line in Filter(IsHeader, dropped);
    } else {
      assert line in Filter(NotHeader(), dropped);
    }
  }

  /** A table with an entry under any other key, a `url` say, is never touched. */
  lemma CustomTableIsSkipped(existing: string, transport: Transport, port: string, entry: string)
    requires var base := StripSentinelBlock(existing);
      HasNlmMcpTable(base) && entry in Select(Captured(), Split(base, NEWLINE))
    requires Meaningful(entry) && Entry(entry).0 !in ALLOWED_KEYS
    ensures Connected(existing, transport, port) == (StripSentinelBlock(existing), SkippedExisting)
  {
    FilterMembers(Meaningful, Select(Captured(), Split(StripSentinelBlock(existing), NEWLINE)));
  }
}
