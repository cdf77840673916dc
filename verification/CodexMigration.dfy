/** The upgrade from the stdio tables this installer used to write: wherever they stand in the file,
    sub-tables included, a connect over http recognises them, replaces them, and leaves everything
    else. */
module CodexMigration {
  import opened Wrappers
  import opened Text
  import opened Seqs
  import opened CodexScan
  import opened CodexConfig
  import opened CodexRoundTrip

  /** The header a line after these lines would stand under. */
  function OwnerAfter(lines: seq<string>, current: Option<string>): Option<string> {
    if lines == [] then current else OwnerAfter(lines[1..], OwnerFrom(lines[0], current))
  }

  lemma {:induction false} ScanConcat(p: Tagged -> bool, a: seq<string>, b: seq<string>, current: Option<string>)
    ensures Scan(p, a + b, current) == Scan(p, a, current) + Scan(p, b, OwnerAfter(a, current))
  {
    if a == [] {
      assert a + b == b;
    } else {
      var owner := OwnerFrom(a[0], current);
      ScanConcat(p, a[1..], b, owner);
      assert (a + b)[0] == a[0] && (a + b)[1..] == a[1..] + b;
      Associate(if p(Tagged(a[0], owner)) then [a[0]] else [], Scan(p, a[1..], owner), Scan(p, b, OwnerAfter(a[1..], owner)));
    }
  }

  predicate NoNlmHeader(lines: seq<string>) {
    forall line | line in lines :: !IsNlmHeader(line)
  }

  predicate Foreign(owner: Option<string>) {
    owner.None? || !IsNlmHeader(owner.value)
  }

  /** Lines under other people's headers are kept, all of them, and none is captured. */
  lemma {:induction false} ScanForeign(lines: seq<string>, current: Option<string>)
    requires NoNlmHeader(lines) && (Foreign(current) || lines == [] || IsHeader(lines[0]))
    ensures Scan(Keeps(), lines, current) == lines && Scan(Captured(), lines, current) == []
    ensures lines != [] || Foreign(current) ==> Foreign(OwnerAfter(lines, current))
  {
    if lines != [] {
      var owner := OwnerFrom(lines[0], current);
      assert !IsNlmHeader(lines[0]) && Foreign(owner);
      assert forall line | line in lines[1..] :: line in lines;
      ScanForeign(lines[1..], owner);
      assert Keeps()(Tagged(lines[0], owner)) && !Captured()(Tagged(lines[0], owner));
      assert lines == [lines[0]] + lines[1..];
    }
  }

  /** Every header among the lines is an nlm header, a sub-table's. */
  predicate OwnHeaders(lines: seq<string>) {
    forall line | line in lines :: IsHeader(line) ==> IsNlmHeader(line)
  }

  /** Lines under an nlm header, sub-tables among them, are dropped, all of them; captured are those
      that are no headers. */
  lemma {:induction false} ScanOwn(lines: seq<string>, owner: string)
    requires IsNlmHeader(owner) && OwnHeaders(lines)
    ensures Scan(Keeps(), lines, Some(owner)) == [] && Scan(Captured(), lines, Some(owner)) == Filter(NotHeader(), lines)
  {
    if lines != [] {
      var next := OwnerFrom(lines[0], Some(owner));
      assert forall line | line in lines[1..] :: line in lines;
      assert next.Some? && IsNlmHeader(next.value);
      ScanOwn(lines[1..], next.value);
      assert !Keeps()(Tagged(lines[0], next)) && (Captured()(Tagged(lines[0], next)) <==> NotHeader()(lines[0]));
    }
  }

  lemma NlmTableIsHeader()
    ensures IsNlmHeader(NLM_TABLE)
  {
    TrimFixed(NLM_TABLE);
    assert NLM_TABLE[..1] == "[";
  }

  lemma SelectPieces(p: Tagged -> bool, before: seq<string>, body: seq<string>, after: seq<string>)
    ensures Select(p, before + ([NLM_TABLE] + (body + after)))
         == Scan(p, before, None) + ((if p(Tagged(NLM_TABLE, Some(NLM_TABLE))) then [NLM_TABLE] else [])
            + (Scan(p, body, Some(NLM_TABLE)) + Scan(p, after, OwnerAfter(body, Some(NLM_TABLE)))))
  {
    var rest := [NLM_TABLE] + (body + after);
    SelectIsScan(p, before + rest);
    ScanConcat(p, before, rest, None);
    NlmTableIsHeader();
    ScanConcatStep(p, NLM_TABLE, body + after, OwnerAfter(before, None));
    ScanConcat(p, body, after, Some(NLM_TABLE));
  }

  /** A file with one nlm table and its sub-tables in the middle: what is captured and what is kept
      of it. */
  lemma TableInTheMiddle(before: seq<string>, body: seq<string>, after: seq<string>)
    requires NoNlmHeader(before) && NoNlmHeader(after) && (after == [] || IsHeader(after[0])) && OwnHeaders(body)
    ensures Select(Captured(), before + ([NLM_TABLE] + (body + after))) == Filter(NotHeader(), body)
    ensures Select(Keeps(), before + ([NLM_TABLE] + (body + after))) == before + after
  {
    NlmTableIsHeader();
    ScanForeign(before, None);
    ScanOwn(body, NLM_TABLE);
    ScanForeign(after, OwnerAfter(body, Some(NLM_TABLE)));
    SelectPieces(Captured(), before, body, after);
    SelectPieces(Keeps(), before, body, after);
    assert !Captured()(Tagged(NLM_TABLE, Some(NLM_TABLE))) && !Keeps()(Tagged(NLM_TABLE, Some(NLM_TABLE)));
    NothingAround(Filter(NotHeader(), body), after);
  }

  lemma NothingAround(body: seq<string>, after: seq<string>)
    ensures [] + ([] + (body + [])) == body
    ensures [] + ([] + after) == after
  {
  }

  /** `key = value` is read as the entry it spells. */
  lemma EntryShape(key: string, value: string)
    requires Tight(key) && Tight(value) && key != "" && value != "" && '=' !in key && key[0] != '#' && key[0] != '['
    ensures var line := key + " = " + value; Meaningful(line) && !IsHeader(line) && Entry(line) == (key, value)
  {
    var line := key + " = " + value;
    assert line[0] == key[0] && line[|line| - 1] == value[|value| - 1];
    TrimFixed(line);
    assert line == (key + " ") + ['='] + (" " + value);
    IndexOfAfter(key + " ", '=', " " + value);
    assert line[..|key| + 1] == "" + key + " " && line[|key| + 2..] == " " + value + "";
    TrimPadded("", key, " ");
    TrimPadded(" ", value, "");
  }

  /** A meaningful line of a body sets the one further key the installer wrote. */
  predicate FormatOnly(lines: seq<string>) {
    forall line | line in lines && Meaningful(line) :: Entry(line).0 == "NLM_FORMAT"
  }

  predicate OurCommand(value: string) {
    Tight(value) && value != "" && BaseName(StripQuotes(value)) in {"nlm", "nlm.js", "node"}
  }

  predicate OurArgs(value: string) {
    Tight(value) && value != "" && HasMcpSubcommand(value)
  }

  lemma KeysTight()
    ensures Tight("command") && Tight("args") && '=' !in "command" && '=' !in "args"
  {
  }

  lemma CommandAndArgs(command: string, args: string)
    requires OurCommand(command) && OurArgs(args)
    ensures var c := "command" + " = " + command; Meaningful(c) && !IsHeader(c) && Entry(c) == ("command", command)
    ensures var a := "args" + " = " + args; Meaningful(a) && !IsHeader(a) && Entry(a) == ("args", args)
  {
    KeysTight();
    EntryShape("command", command);
    EntryShape("args", args);
  }

  /** A command of ours, arguments with the subcommand, and behind them blank lines, comments and the
      format setting: that looks ours, whatever else the values hold. */
  lemma StdioBodyLooksOurs(command: string, args: string, more: seq<string>)
    requires OurCommand(command) && OurArgs(args) && FormatOnly(more)
    ensures LooksOurs(["command" + " = " + command, "args" + " = " + args] + more)
  {
    var c, a := "command" + " = " + command, "args" + " = " + args;
    CommandAndArgs(command, args);
    FilterConcat(Meaningful, [c, a], more);
    FilterAll(Meaningful, [c, a]);
    FilterMembers(Meaningful, more);
    OursByValue(c, a, Filter(Meaningful, more), [c, a] + more);
  }

  lemma OursByValue(c: string, a: string, more: seq<string>, body: seq<string>)
    requires Filter(Meaningful, body) == [c, a] + more
    requires Entry(c).0 == "command" && OurCommand(Entry(c).1) && Entry(a).0 == "args" && OurArgs(Entry(a).1)
    requires forall line | line in more :: Entry(line).0 == "NLM_FORMAT"
    ensures LooksOurs(body)
  {
    var entries := [c, a] + more;
    ValuesOf(c, a, more);
    forall line | line in entries ensures Entry(line).0 in ALLOWED_KEYS {
      assert line == c || line == a || line in more;
    }
  }

  lemma ValuesOf(c: string, a: string, more: seq<string>)
    requires Entry(c).0 == "command" && Entry(a).0 == "args"
    ensures ValueOf([c, a] + more, "command") == Entry(c).1 && ValueOf([c, a] + more, "args") == Entry(a).1
  {
    var entries := [c, a] + more;
    assert entries[0] == c && entries[1..][0] == a;
    assert |"args"| != |"command"|;
  }

  /** The two forms the installer itself wrote: the installed command, and node running the script. */
  lemma InstallerForms(script: string)
    ensures OurCommand("\"nlm\"") && OurArgs("[\"mcp\"]")
    ensures OurCommand("\"node\"") && OurArgs("[\"" + script + "\", \"mcp\"]")
  {
    NlmCommandIsOurs();
    NodeCommandIsOurs();
    ScriptArgsAreOurs(script);
  }

  lemma NlmCommandIsOurs()
    ensures OurCommand("\"nlm\"") && OurArgs("[\"mcp\"]")
  {
    assert StripQuotes("\"nlm\"") == "nlm";
    SplitPieces("nlm", '/');
    assert Filter((part: string) => part != "", ["nlm"]) == ["nlm"];
    var v := "[\"mcp\"]";
    assert QuotedMcpAt(v, 1);
  }

  lemma NodeCommandIsOurs()
    ensures OurCommand("\"node\"")
  {
    assert StripQuotes("\"node\"") == "node";
    SplitPieces("node", '/');
    assert Filter((part: string) => part != "", ["node"]) == ["node"];
  }

  lemma ScriptArgsAreOurs(script: string)
    ensures OurArgs("[\"" + script + "\", \"mcp\"]")
  {
    var v := "[\"" + script + "\", \"mcp\"]";
    var i := |script| + 5;
    assert QuotedMcpAt(v, i);
  }

  /** Connecting over http to a file that holds such a table, anywhere and with its sub-tables,
      migrates it: the table goes with everything under it, every other line stays, and the managed
      block is placed at the end. */
  lemma OwnTableMigrates(before: seq<string>, body: seq<string>, after: seq<string>, port: string)
    requires NoNlmHeader(before) && NoNlmHeader(after) && (after == [] || IsHeader(after[0])) && OwnHeaders(body)
    requires LooksOurs(Filter(NotHeader(), body))
    requires NoneContains(before + body + after, NEWLINE)
    requires !Occurs(Join(before + ([NLM_TABLE] + (body + after)), NEWLINE), SENTINEL_BEGIN)
    ensures Connected(Join(before + ([NLM_TABLE] + (body + after)), NEWLINE), Http, port)
         == (Placed(CollapseBlankRuns(Join(before + after, NEWLINE)), Toml(Http, port)), MigratedStdio)
  {
    var lines := before + ([NLM_TABLE] + (body + after));
    TableInTheMiddle(before, body, after);
    OneLiners(before, body, after);
    NlmTableIsHeader();
    HoldsTable(lines, |before|);
    MigratedIf(lines, before + after, port);
  }

  lemma HoldsTable(lines: seq<string>, i: nat)
    requires i < |lines| && lines[i] == NLM_TABLE
    ensures Any(IsNlmTable, lines) && Any(IsNlmHeader, lines)
  {
    TrimFixed(NLM_TABLE);
    NlmTableIsHeader();
  }

  /** The connect of a file without sentinel text, by its lines. */
  lemma MigratedIf(lines: seq<string>, kept: seq<string>, port: string)
    requires lines != [] && NoneContains(lines, NEWLINE) && !Occurs(Join(lines, NEWLINE), SENTINEL_BEGIN)
    requires Any(IsNlmTable, lines) && IsOurStdio(lines) && Select(Keeps(), lines) == kept
    ensures Connected(Join(lines, NEWLINE), Http, port)
         == (Placed(CollapseBlankRuns(Join(kept, NEWLINE)), Toml(Http, port)), MigratedStdio)
  {
    SplitJoin(lines, NEWLINE);
    AbsentMeans(Join(lines, NEWLINE), SENTINEL_BEGIN);
  }

  lemma OneLiners(before: seq<string>, body: seq<string>, after: seq<string>)
    requires NoneContains(before + body + after, NEWLINE)
    ensures NoneContains(before + ([NLM_TABLE] + (body + after)), NEWLINE)
  {
    StdioNoNewline();
    forall line | line in before || line in body || line in after ensures NEWLINE !in line {
      assert line in before + body + after;
    }
  }

  const ENV_TABLE := "[mcp_servers.nlm-memory.env]"

  /** For instance: the two entries, and the format setting in its sub-table. */
  lemma StdioTableWithEnv(command: string, args: string, gap: seq<string>, format: string)
    requires OurCommand(command) && OurArgs(args) && forall line | line in gap :: !Meaningful(line)
    requires Meaningful(format) && Entry(format).0 == "NLM_FORMAT" && !IsHeader(format)
    ensures var body := ["command" + " = " + command, "args" + " = " + args] + gap + [ENV_TABLE, format];
      OwnHeaders(body) && LooksOurs(Filter(NotHeader(), body))
  {
    var start := ["command" + " = " + command, "args" + " = " + args];
    CommandAndArgs(command, args);
    GapHasNoHeader(gap);
    EnvBehind(start + gap, format);
    Associate(start, gap, [format]);
    StdioBodyLooksOurs(command, args, gap + [format]);
  }

  lemma EnvBehind(lines: seq<string>, format: string)
    requires (forall line | line in lines :: !IsHeader(line)) && !IsHeader(format)
    ensures OwnHeaders(lines + [ENV_TABLE, format])
    ensures Filter(NotHeader(), lines + [ENV_TABLE, format]) == lines + [format]
  {
    EnvIsNlmHeader();
    FilterConcat(NotHeader(), lines, [ENV_TABLE, format]);
    FilterAll(NotHeader(), lines);
    EnvFiltered(format);
  }

  lemma EnvIsNlmHeader()
    ensures IsNlmHeader(ENV_TABLE)
  {
    TrimFixed(ENV_TABLE);
    assert ENV_TABLE[..|NLM_SUBTABLE|] == NLM_SUBTABLE && ENV_TABLE[..1] == "[";
  }

  lemma EnvFiltered(format: string)
    requires !IsHeader(format)
    ensures Filter(NotHeader(), [ENV_TABLE, format]) == [format]
  {
    EnvIsNlmHeader();
    var lines := [ENV_TABLE, format];
    assert lines[1..] == [format] && [format][1..] == [];
    assert !NotHeader()(ENV_TABLE) && NotHeader()(format);
    assert Filter(NotHeader(), [format]) == [format] + Filter(NotHeader(), []);
    assert [] + [format] == [format];
  }

  lemma GapHasNoHeader(gap: seq<string>)
    requires forall line | line in gap :: !Meaningful(line)
    ensures forall line | line in gap :: !IsHeader(line)
  {
    forall line | line in gap ensures !IsHeader(line) {
      assert Trim(line) != "" ==> Trim(line)[0] == '#';
    }
  }
}
