/** `nlm connect codex` and `nlm disconnect codex` on the text of `config.toml`: a block between
    two sentinel comments is put at the end of the file and cut out again by index. */
module CodexConfig {
  import opened Wrappers
  import opened Text
  import opened Seqs
  import opened CodexScan

  const SENTINEL_BEGIN := "# >>> nlm-memory" + " (managed by nlm connect codex)"
  const SENTINEL_END := "# <<< nlm-memory"

  datatype Transport = Http | Stdio

  datatype WriteResult = Written | SkippedExisting | MigratedStdio

  predicate EndsWith(s: string, tail: string) {
    |s| >= |tail| && s[|s| - |tail|..] == tail
  }

  // ---------------------------------------------------------------- cutting the block out

  /** The text without `[start, past)` and without one newline on either side of it. */
  function CutOut(content: string, start: nat, past: nat): string
    requires start <= past <= |content|
  {
    var cutEnd := if past < |content| && content[past] == NEWLINE then past + 1 else past;
    var cutStart := if start > 0 && content[start - 1] == NEWLINE then start - 1 else start;
    content[..cutStart] + content[cutEnd..]
  }

  /** Where the block stands: from the first `begin` to the end of the first `end` behind it. */
  function BlockSpan(content: string, begin: string, end: string): (r: Option<(nat, nat)>)
    ensures r.Some? ==> r.value.0 <= r.value.1 <= |content|
  {
    var beginIdx := Find(content, begin, 0);
    if beginIdx < 0 then None
    else
      var endIdx := Find(content, end, beginIdx + |begin|);
      if endIdx < 0 then None else Some((beginIdx, endIdx + |end|))
  }

  /** Cuts the block out; an unterminated `begin` changes nothing. */
  function CutBlock(content: string, begin: string, end: string): string {
    match BlockSpan(content, begin, end)
    case None => content
    case Some(span) => CutOut(content, span.0, span.1)
  }

  function StripSentinelBlock(content: string): string {
    CutBlock(content, SENTINEL_BEGIN, SENTINEL_END)
  }

  // ---------------------------------------------------------------- the tables

  predicate HasNlmMcpTable(content: string) {
    Any(IsNlmTable, Split(content, NEWLINE))
  }

  /** Replaces every run of three or more newlines by two. */
  function CollapseBlankRuns(s: string): string {
    if s == "" then ""
    else if "\n\n\n" <= s then CollapseBlankRuns(s[1..])
    else [s[0]] + CollapseBlankRuns(s[1..])
  }

  function WithoutNlmTables(content: string): string {
    CollapseBlankRuns(Join(Select(Keeps(), Split(content, NEWLINE)), NEWLINE))
  }

  method RemoveNlmMcpTables(content: string) returns (r: string)
    ensures r == WithoutNlmTables(content)
  {
    var kept := KeptLines(Split(content, NEWLINE));
    r := CollapseBlankRuns(Join(kept, NEWLINE));
  }

  // ---------------------------------------------------------------- is the table ours?

  /** A line of a table body that is neither blank nor a comment. */
  predicate Meaningful(line: string) {
    Trim(line) != "" && Trim(line)[0] != '#'
  }

  function Entry(line: string): (string, string) {
    var t := Trim(line);
    var eq := IndexOf(t, '=');
    IndexOfFirst(t, '=');
    if eq < 0 then ("", "") else (Trim(t[..eq]), Trim(t[eq + 1..]))
  }

  const ALLOWED_KEYS: set<string> := {"command", "args", "NLM_FORMAT"}

  function ValueOf(lines: seq<string>, key: string): string {
    if lines == [] then "" else if Entry(lines[0]).0 == key then Entry(lines[0]).1 else ValueOf(lines[1..], key)
  }

  predicate IsQuote(c: char) {
    c == '"' || c == '\''
  }

  function StripQuotes(s: string): string {
    var t := if s != "" && IsQuote(s[0]) then s[1..] else s;
    if t != "" && IsQuote(t[|t| - 1]) then t[..|t| - 1] else t
  }

  function BaseName(command: string): string {
    var parts := Filter((part: string) => part != "", Split(command, '/'));
    if parts == [] then command else parts[|parts| - 1]
  }

  /** A quoted `mcp`, at the start of the text or after `[`, `,` or white space. */
  predicate QuotedMcpAt(v: string, i: nat) {
    i + 5 <= |v| && IsQuote(v[i]) && v[i + 1..i + 4] == "mcp" && IsQuote(v[i + 4])
    && (i == 0 || v[i - 1] == '[' || v[i - 1] == ',' || IsSpace(v[i - 1]))
  }

  predicate HasMcpSubcommand(v: string) {
    exists i | 0 <= i < |v| :: QuotedMcpAt(v, i)
  }

  /** The entries of the bodies are what the installer's old stdio form would have written. */
  predicate LooksOurs(body: seq<string>) {
    var entries := Filter(Meaningful, body);
    && entries != []
    && (forall line | line in entries :: Entry(line).0 in ALLOWED_KEYS)
    && BaseName(StripQuotes(ValueOf(entries, "command"))) in {"nlm", "nlm.js", "node"}
    && HasMcpSubcommand(ValueOf(entries, "args"))
  }

  predicate IsOurStdio(lines: seq<string>) {
    Any(IsNlmHeader, lines) && LooksOurs(Select(Captured(), lines))
  }

  function Rejoined(): seq<string> -> seq<string> {
    group => Split(Join(group, NEWLINE), NEWLINE)
  }

  method IsOurStdioTable(content: string) returns (r: bool)
    ensures r <==> IsOurStdio(Split(content, NEWLINE))
  {
    var lines := Split(content, NEWLINE);
    var bodies := NlmTableBodies(lines);
    if bodies == [] {
      return false;
    }
    SplitPieces(content, NEWLINE);
    SelectMembers(Captured(), lines, |lines|);
    RejoiningIsHarmless(bodies);
    var entries := Filter(Meaningful, FlatMap(Rejoined(), bodies));
    r := entries != []
      && (forall line | line in entries :: Entry(line).0 in ALLOWED_KEYS)
      && BaseName(StripQuotes(ValueOf(entries, "command"))) in {"nlm", "nlm.js", "node"}
      && HasMcpSubcommand(ValueOf(entries, "args"));
  }

  lemma {:induction false} SelectMembers(p: Tagged -> bool, lines: seq<string>, n: nat)
    requires n <= |lines|
    ensures forall line | line in Selected(p, lines, n) :: line in lines
  {
    if n > 0 {
      SelectMembers(p, lines, n - 1);
    }
  }

  /** Joining a body and splitting it again adds at most a blank line. */
  lemma {:induction false} RejoiningIsHarmless(groups: seq<seq<string>>)
    requires NoneContains(FlatMap(Same(), groups), NEWLINE)
    ensures Filter(Meaningful, FlatMap(Rejoined(), groups)) == Filter(Meaningful, FlatMap(Same(), groups))
  {
    if groups != [] {
      var group, rest := groups[0], groups[1..];
      assert FlatMap(Same(), groups) == group + FlatMap(Same(), rest);
      RejoiningIsHarmless(rest);
      FilterConcat(Meaningful, group, FlatMap(Same(), rest));
      FilterConcat(Meaningful, Rejoined()(group), FlatMap(Rejoined(), rest));
      if group == [] {
        assert Rejoined()(group) == [""];
        FilterAppend(Meaningful, [], "");
        assert [] + [""] == [""];
        assert !Meaningful("");
      } else {
        assert NoneContains(group, NEWLINE);
        SplitJoin(group, NEWLINE);
      }
    }
  }

  // ---------------------------------------------------------------- connect and disconnect

  function FirstEntry(transport: Transport, port: string): string {
    match transport
    case Stdio => "command = \"nlm\""
    case Http => "url = \"http://127.0.0.1:" + port + "/mcp\""
  }

  function SecondEntry(transport: Transport): string {
    match transport
    case Stdio => "args = [\"mcp\"]"
    case Http => "bearer_token_env_var = \"NLM_MCP_TOKEN\""
  }

  /** `codexMcpToml`: one table of two entries. */
  function Toml(transport: Transport, port: string): string {
    NLM_TABLE + "\n" + FirstEntry(transport, port) + "\n" + SecondEntry(transport) + "\n"
  }

  function Block(toml: string): string {
    SENTINEL_BEGIN + "\n" + toml + SENTINEL_END + "\n"
  }

  function Separator(base: string): string {
    if base == "" || EndsWith(base, "\n\n") then "" else if EndsWith(base, "\n") then "\n" else "\n\n"
  }

  function Placed(base: string, toml: string): string {
    base + Separator(base) + Block(toml)
  }

  /** The specification of `ConfigFile.Connect`: the new text and the reported result. */
  function Connected(existing: string, transport: Transport, port: string): (string, WriteResult) {
    var base, toml := StripSentinelBlock(existing), Toml(transport, port);
    if !HasNlmMcpTable(base) then (Placed(base, toml), Written)
    else if transport.Http? && IsOurStdio(Split(base, NEWLINE)) then (Placed(WithoutNlmTables(base), toml), MigratedStdio)
    else (base, SkippedExisting)
  }

  class ConfigFile {
    /** None while the file does not exist. */
    var text: Option<string>

    method Connect(transport: Transport, port: string) returns (result: WriteResult)
      modifies this
      ensures var existing := if old(text).Some? then old(text).value else "";
        text == Some(Connected(existing, transport, port).0) && result == Connected(existing, transport, port).1
    {
      var existing := if text.Some? then text.value else "";
      var base := StripSentinelBlock(existing);
      var migrated := false;
      if HasNlmMcpTable(base) {
        var ours := IsOurStdioTable(base);
        if transport.Http? && ours {
          base := RemoveNlmMcpTables(base);
          migrated := true;
        } else {
          EmptyHasNoTable();
          if base != existing {
            text := Some(base);
          }
          return SkippedExisting;
        }
      }
      text := Some(base + Separator(base) + Block(Toml(transport, port)));
      return if migrated then MigratedStdio else Written;
    }

    method Disconnect() returns (removed: bool)
      modifies this
      ensures removed <==> old(text).Some? && StripSentinelBlock(old(text).value) != old(text).value
      ensures text == if old(text).None? then None else Some(StripSentinelBlock(old(text).value))
    {
      if text.None? {
        return false;
      }
      var next := StripSentinelBlock(text.value);
      if next == text.value {
        return false;
      }
      text := Some(next);
      return true;
    }
  }

  lemma EmptyHasNoTable()
    ensures !HasNlmMcpTable("") && StripSentinelBlock("") == ""
  {
    FindFirst("", SENTINEL_BEGIN, 0);
    assert !IsNlmTable("");
  }
}
