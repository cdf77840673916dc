/** Whose nlm table is it? The installer's own test, told from the spelling of the table's lines: which
    keys they set, which binary the command runs, and whether the arguments name the subcommand. */
module CodexOwnership {
  import opened Wrappers
  import opened Text
  import opened Seqs
  import opened KeyValue
  import opened CodexScan
  import opened CodexConfig
  import opened CodexRoundTrip
  import opened CodexMigration

  // ---------------------------------------------------------------- the command

  predicate QuoteOrNothing(s: string) {
    s == "" || s == "\"" || s == "'"
  }

  predicate EndsPath(dir: string) {
    dir == "" || dir[|dir| - 1] == '/'
  }

  predicate AllSlashes(s: string) {
    forall c | c in s :: c == '/'
  }

  /** A path, perhaps in quotes, whose last name is one that the installer wrote. */
  ghost predicate RunsNlm(value: string) {
    exists open, dir, name, slashes, close ::
      && QuoteOrNothing(open) && EndsPath(dir) && (name == "nlm" || name == "nlm.js" || name == "node")
      && AllSlashes(slashes) && QuoteOrNothing(close) && value == open + (dir + name + slashes) + close
  }

  function NotEmpty(): string -> bool { (part: string) => part != "" }

  function Parts(s: string): seq<string> {
    Filter(NotEmpty(), Split(s, '/'))
  }

  lemma BaseNameOf(s: string)
    ensures BaseName(s) == if Parts(s) == [] then s else Parts(s)[|Parts(s)| - 1]
  {
    var parts := Filter((part: string) => part != "", Split(s, '/'));
    SameFilter((part: string) => part != "", NotEmpty(), Split(s, '/'));
  }

  lemma {:induction false} SameFilter(p: string -> bool, q: string -> bool, xs: seq<string>)
    requires forall x :: p(x) <==> q(x)
    ensures Filter(p, xs) == Filter(q, xs)
  {
    if xs != [] {
      SameFilter(p, q, xs[1..]);
    }
  }

  lemma PartsOne(name: string)
    requires '/' !in name
    ensures Parts(name) == if name == "" then [] else [name]
  {
    SplitPieces(name, '/');
    FilterOne(NotEmpty(), name);
  }

  lemma PartsBehind(s: string, rest: string)
    ensures Parts(s + "/" + rest) == Parts(s) + Parts(rest)
  {
    SplitConcat(s, rest, '/');
    FilterConcat(NotEmpty(), Split(s, '/'), Split(rest, '/'));
  }

  lemma FirstSlash(slashes: string)
    requires AllSlashes(slashes) && slashes != ""
    ensures slashes == "" + "/" + slashes[1..] && AllSlashes(slashes[1..]) && slashes[|slashes| - 1] == '/'
  {
    assert slashes[0] in slashes && slashes[|slashes| - 1] in slashes;
    assert forall c | c in slashes[1..] :: c in slashes;
  }

  lemma {:induction false} PartsOfSlashes(slashes: string)
    requires AllSlashes(slashes)
    ensures Parts(slashes) == []
  {
    if slashes == "" {
      PartsOne("");
    } else {
      FirstSlash(slashes);
      PartsOfSlashes(slashes[1..]);
      PartsBehind("", slashes[1..]);
      PartsOne("");
      assert [] + Parts(slashes[1..]) == Parts(slashes[1..]);
    }
  }

  lemma PartsBeforeSlashes(name: string, slashes: string)
    requires '/' !in name && name != "" && AllSlashes(slashes)
    ensures Parts(name + slashes) == [name]
  {
    PartsOne(name);
    if slashes == "" {
      assert name + slashes == name;
    } else {
      FirstSlash(slashes);
      assert name + slashes == name + "/" + slashes[1..];
      PartsBehind(name, slashes[1..]);
      PartsOfSlashes(slashes[1..]);
      assert [name] + [] == [name];
    }
  }

  /** The last name of a path; slashes at its end do not count. */
  lemma LastName(dir: string, name: string, slashes: string)
    requires EndsPath(dir) && '/' !in name && name != "" && AllSlashes(slashes)
    ensures BaseName(dir + name + slashes) == name
  {
    var s := dir + name + slashes;
    BaseNameOf(s);
    PartsBeforeSlashes(name, slashes);
    if dir == "" {
      assert s == name + slashes;
    } else {
      var d := dir[..|dir| - 1];
      assert s == d + "/" + (name + slashes);
      PartsBehind(d, name + slashes);
    }
  }

  /** Every path with a name in it is a directory, its last name, and slashes. */
  lemma {:induction false} SplitPath(s: string) returns (dir: string, name: string, slashes: string)
    requires !AllSlashes(s)
    ensures EndsPath(dir) && '/' !in name && name != "" && AllSlashes(slashes) && s == dir + name + slashes
  {
    var n := |s| - 1;
    assert s == s[..n] + [s[n]];
    if s[n] == '/' {
      dir, name, slashes := SplitPath(s[..n]);
      slashes := slashes + "/";
    } else {
      dir, name := CutName(s);
      slashes := "";
      assert dir + name + "" == dir + name;
    }
  }

  lemma {:induction false} CutName(s: string) returns (dir: string, name: string)
    ensures EndsPath(dir) && '/' !in name && s == dir + name && (s != "" && s[|s| - 1] != '/' ==> name != "")
  {
    if s == "" || s[|s| - 1] == '/' {
      dir, name := s, "";
      assert s + "" == s;
    } else {
      var n := |s| - 1;
      dir, name := CutName(s[..n]);
      name := name + [s[n]];
      assert s == s[..n] + [s[n]];
    }
  }

  lemma {:induction false} BaseNameOfSlashes(s: string)
    requires AllSlashes(s)
    ensures BaseName(s) == s
  {
    PartsOfSlashes(s);
    BaseNameOf(s);
  }

  /** What `StripQuotes` takes off. */
  lemma StripParts(value: string) returns (open: string, close: string)
    ensures QuoteOrNothing(open) && QuoteOrNothing(close) && value == open + StripQuotes(value) + close
  {
    open := if value != "" && IsQuote(value[0]) then [value[0]] else "";
    var t := value[|open|..];
    close := if t != "" && IsQuote(t[|t| - 1]) then [t[|t| - 1]] else "";
    assert value == open + t;
  }

  lemma StripExactly(open: string, inner: string, close: string)
    requires QuoteOrNothing(open) && QuoteOrNothing(close) && inner != ""
    requires (open == "" ==> !IsQuote(inner[0])) && !IsQuote(inner[|inner| - 1])
    ensures StripQuotes(open + inner + close) == inner
  {
    var value := open + inner + close;
    var t := inner + close;
    assert value[0] == if open == "" then inner[0] else open[0];
    assert value == open + t;
    assert t[|t| - 1] == if close == "" then inner[|inner| - 1] else close[0];
    assert t[..|inner|] == inner;
  }

  lemma PathLast(dir: string, name: string, slashes: string)
    requires AllSlashes(slashes) && name != "" && !IsQuote(name[|name| - 1])
    ensures var path := dir + name + slashes; path != "" && !IsQuote(path[|path| - 1])
  {
    if slashes != "" {
      FirstSlash(slashes);
    }
  }

  /** A quote before and behind a path comes off; the path may lose a first quote of its own. */
  lemma StripAround(open: string, dir: string, name: string, slashes: string, close: string) returns (rest: string)
    requires QuoteOrNothing(open) && QuoteOrNothing(close) && EndsPath(dir) && AllSlashes(slashes)
    requires name != "" && !IsQuote(name[0]) && !IsQuote(name[|name| - 1])
    ensures EndsPath(rest) && StripQuotes(open + (dir + name + slashes) + close) == rest + name + slashes
    ensures open != "" ==> rest == dir
  {
    PathLast(dir, name, slashes);
    if open == "" && dir != "" && IsQuote(dir[0]) {
      rest := dir[1..];
      PathLast(rest, name, slashes);
      StripExactly([dir[0]], rest + name + slashes, close);
      assert open + (dir + name + slashes) + close == [dir[0]] + (rest + name + slashes) + close;
    } else {
      rest := dir;
      assert (dir + name + slashes)[0] == if dir == "" then name[0] else dir[0];
      StripExactly(open, dir + name + slashes, close);
    }
  }

  lemma Binaries(name: string)
    requires name == "nlm" || name == "nlm.js" || name == "node"
    ensures '/' !in name && name != "" && !IsQuote(name[0]) && !IsQuote(name[|name| - 1]) && !AllSlashes(name)
  {
    assert name[0] in name;
  }

  /** The test on the command is one on its spelling. */
  lemma CommandSpelled(value: string)
    ensures BaseName(StripQuotes(value)) in {"nlm", "nlm.js", "node"} <==> RunsNlm(value)
  {
    if BaseName(StripQuotes(value)) in {"nlm", "nlm.js", "node"} {
      var path := StripQuotes(value);
      Binaries(BaseName(path));
      assert !AllSlashes(path) by {
        if AllSlashes(path) {
          BaseNameOfSlashes(path);
        }
      }
      var open, close := StripParts(value);
      var dir, name, slashes := SplitPath(path);
      LastName(dir, name, slashes);
    }
    if RunsNlm(value) {
      var open, dir, name, slashes, close :|
        && QuoteOrNothing(open) && EndsPath(dir) && (name == "nlm" || name == "nlm.js" || name == "node")
        && AllSlashes(slashes) && QuoteOrNothing(close) && value == open + (dir + name + slashes) + close;
      Binaries(name);
      var rest := StripAround(open, dir, name, slashes, close);
      LastName(rest, name, slashes);
    }
  }

  // ---------------------------------------------------------------- the arguments

  predicate OpensWord(before: string) {
    before == "" || before[|before| - 1] == '[' || before[|before| - 1] == ',' || IsSpace(before[|before| - 1])
  }

  /** A quoted `mcp` at the start, or behind a bracket, a comma or white space. */
  ghost predicate NamesMcp(value: string) {
    exists before, open, close, after ::
      OpensWord(before) && IsQuote(open) && IsQuote(close) && value == before + [open, 'm', 'c', 'p', close] + after
  }

  lemma McpAt(value: string, before: string, word: string, after: string)
    requires OpensWord(before) && |word| == 5 && IsQuote(word[0]) && IsQuote(word[4]) && word[1..4] == "mcp"
    requires value == before + word + after
    ensures QuotedMcpAt(value, |before|)
  {
    var i := |before|;
    assert value[i..i + 5] == word;
    assert value[i + 1..i + 4] == value[i..i + 5][1..4];
    assert i > 0 ==> value[i - 1] == before[i - 1];
  }

  lemma McpParts(value: string, i: nat)
    requires QuotedMcpAt(value, i)
    ensures OpensWord(value[..i]) && value == value[..i] + [value[i], 'm', 'c', 'p', value[i + 4]] + value[i + 5..]
  {
    var word := value[i + 1..i + 4];
    assert word[0] == value[i + 1] && word[1] == value[i + 2] && word[2] == value[i + 3];
    assert value[i..i + 5] == [value[i], 'm', 'c', 'p', value[i + 4]];
    assert value == value[..i] + value[i..i + 5] + value[i + 5..];
  }

  /** The test on the arguments is one on their spelling. */
  lemma ArgsSpelled(value: string)
    ensures HasMcpSubcommand(value) <==> NamesMcp(value)
  {
    if HasMcpSubcommand(value) {
      var i :| 0 <= i < |value| && QuotedMcpAt(value, i);
      McpParts(value, i);
    }
    if NamesMcp(value) {
      var before, open, close, after :|
        OpensWord(before) && IsQuote(open) && IsQuote(close) && value == before + [open, 'm', 'c', 'p', close] + after;
      assert [open, 'm', 'c', 'p', close][1..4] == "mcp";
      McpAt(value, before, [open, 'm', 'c', 'p', close], after);
    }
  }

  // ---------------------------------------------------------------- the table

  /** The first line of the body that sets the key gives it a value of this form. */
  ghost predicate FirstSets(body: seq<string>, key: string, form: string -> bool) {
    exists i: nat, value :: i < |body| && SetsFirst(body, i, key, value) && form(value)
  }

  ghost predicate SetsFirst(body: seq<string>, i: nat, key: string, value: string)
    requires i < |body|
  {
    Spells(body[i], key, value) && forall j | 0 <= j < i :: !Sets(body[j], key)
  }

  ghost predicate Sets(line: string, key: string) {
    exists value :: Spells(line, key, value)
  }

  /** The body has entries, no keys but the three, a command that runs nlm and arguments with the
      subcommand. */
  ghost predicate WrittenByUs(body: seq<string>) {
    && (exists line | line in body :: Meaningful(line))
    && (forall line | line in body && Meaningful(line) :: Sets(line, "command") || Sets(line, "args") || Sets(line, "NLM_FORMAT"))
    && FirstSets(body, "command", RunsNlm) && FirstSets(body, "args", NamesMcp)
  }

  predicate PlainKey(key: string) {
    KeyText(key) && key[0] != '#'
  }

  lemma OurKeys()
    ensures PlainKey("command") && PlainKey("args") && PlainKey("NLM_FORMAT")
  {
  }

  /** An entry is what the line spells. */
  lemma EntrySpelled(line: string, key: string, value: string)
    requires PlainKey(key)
    ensures Spells(line, key, value) <==> Entry(line) == (key, value)
    ensures Spells(line, key, value) ==> Meaningful(line)
  {
    if Spells(line, key, value) {
      SpelledIsCut(line, key, value);
    }
    if Entry(line) == (key, value) {
      IndexOfFirst(Trim(line), '=');
      CutIsSpelled(line, key, value);
    }
  }

  lemma SetsSpelled(line: string, key: string)
    requires PlainKey(key)
    ensures Sets(line, key) <==> Entry(line).0 == key
    ensures Sets(line, key) ==> Meaningful(line)
  {
    EntrySpelled(line, key, Entry(line).1);
    forall value | Spells(line, key, value) ensures Entry(line).0 == key && Meaningful(line) {
      EntrySpelled(line, key, value);
    }
  }

  /** Blank lines and comments do not matter to the value of a key. */
  lemma {:induction false} ValueAmong(body: seq<string>, key: string)
    requires PlainKey(key)
    ensures ValueOf(Filter(Meaningful, body), key) == ValueOf(body, key)
  {
    if body != [] {
      ValueAmong(body[1..], key);
      SetsSpelled(body[0], key);
      var rest := Filter(Meaningful, body[1..]);
      if Meaningful(body[0]) {
        assert ([body[0]] + rest)[1..] == rest;
      } else {
        assert [] + rest == rest;
      }
    }
  }

  lemma SetsLater(body: seq<string>, i: nat, key: string, value: string)
    requires 0 < i < |body|
    ensures SetsFirst(body, i, key, value) <==> !Sets(body[0], key) && SetsFirst(body[1..], i - 1, key, value)
  {
    var rest := body[1..];
    assert forall j | 0 <= j < |rest| :: rest[j] == body[j + 1];
    if SetsFirst(rest, i - 1, key, value) && !Sets(body[0], key) {
      forall j | 0 <= j < i ensures !Sets(body[j], key) {
        assert j > 0 ==> body[j] == rest[j - 1];
      }
    }
  }

  lemma {:induction false} ValueAt(body: seq<string>, i: nat, key: string, value: string)
    requires PlainKey(key) && i < |body| && SetsFirst(body, i, key, value)
    ensures ValueOf(body, key) == value
  {
    EntrySpelled(body[i], key, value);
    if i > 0 {
      SetsSpelled(body[0], key);
      SetsLater(body, i, key, value);
      ValueAt(body[1..], i - 1, key, value);
    }
  }

  lemma {:induction false} ValueFrom(body: seq<string>, key: string) returns (i: nat)
    requires PlainKey(key) && ValueOf(body, key) != ""
    ensures i < |body| && SetsFirst(body, i, key, ValueOf(body, key))
  {
    SetsSpelled(body[0], key);
    if Entry(body[0]).0 == key {
      i := 0;
      EntrySpelled(body[0], key, Entry(body[0]).1);
    } else {
      i := ValueFrom(body[1..], key);
      i := i + 1;
      SetsLater(body, i, key, ValueOf(body, key));
    }
  }

  lemma FirstSetsIff(body: seq<string>, key: string, form: string -> bool)
    requires PlainKey(key) && !form("")
    ensures FirstSets(body, key, form) <==> form(ValueOf(body, key))
  {
    if FirstSets(body, key, form) {
      var i: nat, value :| i < |body| && SetsFirst(body, i, key, value) && form(value);
      ValueAt(body, i, key, value);
    }
    if form(ValueOf(body, key)) {
      var i := ValueFrom(body, key);
    }
  }

  lemma NothingRunsNothing()
    ensures !RunsNlm("") && !NamesMcp("")
  {
    CommandSpelled("");
    SplitPieces("", '/');
    BaseNameOfSlashes("");
    ArgsSpelled("");
  }

  lemma KeysSpelled(body: seq<string>)
    ensures (forall line | line in Filter(Meaningful, body) :: Entry(line).0 in ALLOWED_KEYS)
       <==> forall line | line in body && Meaningful(line) :: Sets(line, "command") || Sets(line, "args") || Sets(line, "NLM_FORMAT")
  {
    OurKeys();
    FilterMembers(Meaningful, body);
    forall line: string
      ensures Entry(line).0 in ALLOWED_KEYS <==> Sets(line, "command") || Sets(line, "args") || Sets(line, "NLM_FORMAT")
    {
      SetsSpelled(line, "command");
      SetsSpelled(line, "args");
      SetsSpelled(line, "NLM_FORMAT");
    }
  }

  lemma EntriesExist(body: seq<string>)
    ensures Filter(Meaningful, body) != [] <==> exists line | line in body :: Meaningful(line)
  {
    var entries := Filter(Meaningful, body);
    FilterMembers(Meaningful, body);
    if entries != [] {
      assert entries[0] in entries;
    }
  }

  /** The installer's test on a table's body is one on the spelling of its lines. */
  lemma OursSpelled(body: seq<string>)
    ensures LooksOurs(body) <==> WrittenByUs(body)
  {
    OurKeys();
    NothingRunsNothing();
    ValueAmong(body, "command");
    ValueAmong(body, "args");
    CommandSpelled(ValueOf(body, "command"));
    ArgsSpelled(ValueOf(body, "args"));
    FirstSetsIff(body, "command", RunsNlm);
    FirstSetsIff(body, "args", NamesMcp);
    EntriesExist(body);
    KeysSpelled(body);
  }

  // ---------------------------------------------------------------- the block itself

  lemma BlockLines(transport: Transport, port: string)
    requires NEWLINE !in port
    ensures Split(Block(Toml(transport, port)), NEWLINE)
         == [SENTINEL_BEGIN, NLM_TABLE, FirstEntry(transport, port), SecondEntry(transport), SENTINEL_END, ""]
  {
    var begin, first, second, end := SENTINEL_BEGIN, FirstEntry(transport, port), SecondEntry(transport), SENTINEL_END;
    Nested(begin, NLM_TABLE, first, second, end);
    SentinelsPlain();
    EntriesNoNewline(transport, port);
    var r4 := end + "\n" + "";
    var r3 := second + "\n" + r4;
    var r2 := first + "\n" + r3;
    LineOff(end, "");
    LineOff(second, r4);
    LineOff(first, r3);
    LineOff(NLM_TABLE, r2);
    LineOff(begin, NLM_TABLE + "\n" + r2);
    SplitPieces("", NEWLINE);
  }

  lemma LineOff(line: string, rest: string)
    requires NEWLINE !in line
    ensures Split(line + "\n" + rest, NEWLINE) == [line] + Split(rest, NEWLINE)
  {
    SplitConcat(line, rest, NEWLINE);
    SplitPieces(line, NEWLINE);
  }

  /** An entry as the block writes it. */
  lemma WrittenEntry(key: string, value: string)
    requires PlainKey(key) && key[0] != '[' && Tight(value) && value != ""
    ensures var line := key + " = " + value; Spells(line, key, value) && Meaningful(line) && !IsHeader(line)
  {
    var line := key + " = " + value;
    EntryShape(key, value);
    EntrySpelled(line, key, value);
  }

  lemma BlockCaptured(first: string, second: string)
    requires !IsHeader(first) && !IsHeader(second) && Meaningful(first) && Meaningful(second)
    ensures Filter(Meaningful, Select(Captured(), [SENTINEL_BEGIN, NLM_TABLE, first, second, SENTINEL_END, ""])) == [first, second]
  {
    SentinelsAreComments();
    var body := [first, second, SENTINEL_END, ""];
    assert [SENTINEL_BEGIN] + ([NLM_TABLE] + (body + [])) == [SENTINEL_BEGIN, NLM_TABLE, first, second, SENTINEL_END, ""];
    TableInTheMiddle([SENTINEL_BEGIN], body, []);
    FilterAll(NotHeader(), body);
    EntriesOf(first, second, SENTINEL_END, "");
  }

  lemma EntriesOf(first: string, second: string, third: string, fourth: string)
    requires Meaningful(first) && Meaningful(second) && !Meaningful(third) && !Meaningful(fourth)
    ensures Filter(Meaningful, [first, second, third, fourth]) == [first, second]
  {
    assert [first, second, third, fourth] == [first, second] + [third, fourth];
    FilterConcat(Meaningful, [first, second], [third, fourth]);
    FilterAll(Meaningful, [first, second]);
    NoneKept(Meaningful, [third, fourth]);
  }

  lemma {:induction false} NoneKept(p: string -> bool, lines: seq<string>)
    requires forall line | line in lines :: !p(line)
    ensures Filter(p, lines) == []
  {
    if lines != [] {
      assert lines[0] in lines && forall line | line in lines[1..] :: line in lines;
      NoneKept(p, lines[1..]);
    }
  }

  lemma SentinelsAreComments()
    ensures !IsHeader(SENTINEL_BEGIN) && !IsHeader(SENTINEL_END) && !IsHeader("") && !Meaningful(SENTINEL_END) && !Meaningful("")
  {
    TrimEndSplits(SENTINEL_BEGIN);
    TrimEndSplits(SENTINEL_END);
    assert Trim(SENTINEL_BEGIN)[0] == '#' && Trim(SENTINEL_END)[0] == '#';
  }

  lemma BlockEntries(transport: Transport, port: string, k1: string, v1: string, k2: string, v2: string)
    requires NEWLINE !in port && FirstEntry(transport, port) == k1 + " = " + v1 && SecondEntry(transport) == k2 + " = " + v2
    requires PlainKey(k1) && k1[0] != '[' && Tight(v1) && v1 != "" && PlainKey(k2) && k2[0] != '[' && Tight(v2) && v2 != ""
    ensures var entries := Filter(Meaningful, Select(Captured(), Split(Block(Toml(transport, port)), NEWLINE)));
      |entries| == 2 && Spells(entries[0], k1, v1) && Spells(entries[1], k2, v2)
  {
    BlockLines(transport, port);
    WrittenEntry(k1, v1);
    WrittenEntry(k2, v2);
    BlockCaptured(FirstEntry(transport, port), SecondEntry(transport));
  }

  lemma HttpEntries(port: string)
    ensures var url := "\"http://127.0.0.1:" + port + "/mcp\""; FirstEntry(Http, port) == "url" + " = " + url && Tight(url) && url != ""
    ensures SecondEntry(Http) == "bearer_token_env_var" + " = " + "\"NLM_MCP_TOKEN\""
  {
    var url := "\"http://127.0.0.1:" + port + "/mcp\"";
    assert url[0] == '"' && url[|url| - 1] == '"';
  }

  lemma HttpKeys()
    ensures PlainKey("url") && PlainKey("bearer_token_env_var") && Tight("\"NLM_MCP_TOKEN\"")
  {
  }

  /** Read back, the block that an http connect writes has exactly two entries: the endpoint on its port,
      and the variable that holds the token. */
  lemma HttpBlockSets(port: string)
    requires NEWLINE !in port
    ensures var entries := Filter(Meaningful, Select(Captured(), Split(Block(Toml(Http, port)), NEWLINE)));
      && |entries| == 2 && Spells(entries[0], "url", "\"http://127.0.0.1:" + port + "/mcp\"")
      && Spells(entries[1], "bearer_token_env_var", "\"NLM_MCP_TOKEN\"")
  {
    HttpEntries(port);
    HttpKeys();
    BlockEntries(Http, port, "url", "\"http://127.0.0.1:" + port + "/mcp\"", "bearer_token_env_var", "\"NLM_MCP_TOKEN\"");
  }

  lemma StdioEntries(port: string)
    ensures FirstEntry(Stdio, port) == "command" + " = " + "\"nlm\"" && SecondEntry(Stdio) == "args" + " = " + "[\"mcp\"]"
    ensures Tight("\"nlm\"") && Tight("[\"mcp\"]")
  {
  }

  /** And the one of a stdio connect. */
  lemma StdioBlockSets(port: string)
    requires NEWLINE !in port
    ensures var entries := Filter(Meaningful, Select(Captured(), Split(Block(Toml(Stdio, port)), NEWLINE)));
      |entries| == 2 && Spells(entries[0], "command", "\"nlm\"") && Spells(entries[1], "args", "[\"mcp\"]")
  {
    StdioEntries(port);
    OurKeys();
    BlockEntries(Stdio, port, "command", "\"nlm\"", "args", "[\"mcp\"]");
  }

  // ---------------------------------------------------------------- what a connect does

  lemma Declared(lines: seq<string>)
    ensures Any(IsNlmTable, lines) <==> exists line | line in lines :: Trim(line) == "[mcp_servers.nlm-memory]"
    ensures Any(IsNlmTable, lines) ==> Any(IsNlmHeader, lines)
  {
    NoneIn(IsNlmTable, lines);
    if Any(IsNlmTable, lines) {
      var i :| 0 <= i < |lines| && IsNlmTable(lines[i]);
      assert NLM_TABLE[..1] == "[";
      assert IsNlmHeader(lines[i]);
    }
  }

  /** The three outcomes, by the lines that are left when the managed block is cut out: the table is
      added where no line declares it, an http connect replaces one that this installer wrote, and any
      other is left with the file as it stands. */
  lemma ConnectOutcomes(existing: string, transport: Transport, port: string)
    ensures var base := StripSentinelBlock(existing);
      var (lines, (text, result)) := (Split(base, NEWLINE), Connected(existing, transport, port));
      var declared := exists line | line in lines :: Trim(line) == "[mcp_servers.nlm-memory]";
      && (result.Written? <==> !declared)
      && (result.MigratedStdio? <==> declared && transport == Http && WrittenByUs(Select(Captured(), lines)))
      && (result.SkippedExisting? ==> text == base)
  {
    var lines := Split(StripSentinelBlock(existing), NEWLINE);
    OursSpelled(Select(Captured(), lines));
    Declared(lines);
  }

  lemma OtherBinary(dir: string, name: string)
    requires '/' !in name && '"' !in name && '\'' !in name && name != "" && name != "nlm" && name != "nlm.js" && name != "node"
    ensures !RunsNlm("\"" + dir + "/" + name + "\"")
  {
    var value := "\"" + dir + "/" + name + "\"";
    assert name[0] in name && name[|name| - 1] in name;
    assert value == "\"" + ((dir + "/") + name + "") + "\"";
    var rest := StripAround("\"", dir + "/", name, "", "\"");
    LastName(dir + "/", name, "");
    CommandSpelled(value);
  }

  /** A table whose command is any other program, a wrapper script of the user's say, is left alone. */
  lemma WrapperIsSkipped(existing: string, transport: Transport, port: string, i: nat, dir: string, name: string)
    requires '/' !in name && '"' !in name && '\'' !in name && name != "" && name != "nlm" && name != "nlm.js" && name != "node"
    requires var base := StripSentinelBlock(existing);
      && HasNlmMcpTable(base) && i < |Select(Captured(), Split(base, NEWLINE))|
      && SetsFirst(Select(Captured(), Split(base, NEWLINE)), i, "command", "\"" + dir + "/" + name + "\"")
    ensures Connected(existing, transport, port) == (StripSentinelBlock(existing), SkippedExisting)
  {
    var body := Select(Captured(), Split(StripSentinelBlock(existing), NEWLINE));
    OurKeys();
    OtherBinary(dir, name);
    ValueAt(body, i, "command", "\"" + dir + "/" + name + "\"");
    NothingRunsNothing();
    FirstSetsIff(body, "command", RunsNlm);
    OursSpelled(body);
  }

  /** So is one whose arguments do not name the subcommand, or that has none. */
  lemma OtherArgsAreSkipped(existing: string, transport: Transport, port: string)
    requires var base := StripSentinelBlock(existing);
      HasNlmMcpTable(base) && !FirstSets(Select(Captured(), Split(base, NEWLINE)), "args", NamesMcp)
    ensures Connected(existing, transport, port) == (StripSentinelBlock(existing), SkippedExisting)
  {
    OursSpelled(Select(Captured(), Split(StripSentinelBlock(existing), NEWLINE)));
  }
}
