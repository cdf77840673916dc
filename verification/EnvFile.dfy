/** The `.env` editor behind `nlm config` against the loader every hook runs at start-up.
    The editor rewrites the text of a file; the loader turns a file into variables. The
    theorems say when the two agree about a key, and that nothing else is disturbed. */
module EnvFile {
  import opened Wrappers
  import opened Text
  import opened Seqs

  const QUOTE := '"'
  const EXPORT := "export"

  // ---------------------------------------------------------------- editor

  /** The variable names `nlm config` edits: no white space, no `=`, not a comment. */
  predicate ValidKey(key: string) {
    key != "" && key[0] != '#' && '=' !in key && forall c | c in key :: !IsSpace(c)
  }

  /** The text after `export` and the white space that must follow it; empty if there is no such start. */
  function AfterExport(t: string): string {
    if EXPORT <= t then t[|EXPORT|..] else ""
  }

  /** What `^(\s*)(export\s+)?KEY=` matches on the line, if it matches. */
  function EditorPrefix(line: string, key: string): Option<string> {
    var w, t := LeadSpace(line), TrimStart(line);
    var gap, exported := LeadSpace(AfterExport(t)), TrimStart(AfterExport(t));
    if gap != "" && key + "=" <= exported then Some(w + EXPORT + gap + key + "=")
    else if key + "=" <= t then Some(w + key + "=")
    else None
  }

  /** The lines the editor rewrites or removes for `key`. */
  function Edits(key: string): string -> bool {
    line => EditorPrefix(line, key).Some?
  }

  predicate Special(c: char) {
    IsSpace(c) || c == '#' || c == QUOTE || c == '\''
  }

  function Escape(v: string): string {
    if v == "" then ""
    else (if v[0] == QUOTE then "\\\"" else [v[0]]) + Escape(v[1..])
  }

  function FormatValue(v: string): string {
    if exists c | c in v :: Special(c) then [QUOTE] + Escape(v) + [QUOTE] else v
  }

  /** One line through the editor: nothing if it is removed. */
  function EditLine(line: string, key: string, value: Option<string>): seq<string> {
    match EditorPrefix(line, key)
    case None => [line]
    case Some(prefix) => if value.None? then [] else [prefix + FormatValue(value.value)]
  }

  function Editor(key: string, value: Option<string>): string -> seq<string> {
    line => EditLine(line, key, value)
  }

  function PopBlank(lines: seq<string>): seq<string> {
    if lines != [] && lines[|lines| - 1] == "" then PopBlank(lines[..|lines| - 1]) else lines
  }

  /** The file's lines after one edit. */
  function Edited(lines: seq<string>, key: string, value: Option<string>): seq<string> {
    if Any(Edits(key), lines) || value.None? then FlatMap(Editor(key, value), lines)
    else PopBlank(lines) + [key + "=" + FormatValue(value.value), ""]
  }

  /** The specification of `ApplyEnvAssignment`, on the file's text. */
  function Applied(contents: string, key: string, value: Option<string>): string {
    Join(Edited(Split(contents, NEWLINE), key, value), NEWLINE)
  }

  method AppendAssignment(lines: seq<string>, key: string, value: string) returns (out: seq<string>)
    ensures out == PopBlank(lines) + [key + "=" + FormatValue(value), ""]
  {
    out := lines;
    while out != [] && out[|out| - 1] == ""
      invariant PopBlank(out) == PopBlank(lines)
    {
      out := out[..|out| - 1];
    }
    out := out + [key + "=" + FormatValue(value)];
    out := out + [""];
  }

  method EditOne(line: string, key: string, value: Option<string>) returns (out: seq<string>, matched: bool)
    ensures matched == Edits(key)(line)
    ensures out == Editor(key, value)(line)
    ensures !matched ==> out == [line]
  {
    var prefix := EditorPrefix(line, key);
    matched := prefix.Some?;
    if !matched {
      out := [line];
    } else if value.None? {
      out := [];
    } else {
      out := [prefix.value + FormatValue(value.value)];
    }
  }

  lemma EditedSoFar(lines: seq<string>, key: string, value: Option<string>, i: nat)
    requires i < |lines|
    ensures Any(Edits(key), lines[..i + 1]) <==> Any(Edits(key), lines[..i]) || Edits(key)(lines[i])
    ensures FlatMap(Editor(key, value), lines[..i + 1]) == FlatMap(Editor(key, value), lines[..i]) + Editor(key, value)(lines[i])
    ensures lines[..i + 1] == lines[..i] + [lines[i]]
  {
    FlatMapAppend(Editor(key, value), lines[..i], lines[i]);
    AnyAppend(Edits(key), lines[..i], lines[i]);
    assert lines[..i + 1] == lines[..i] + [lines[i]];
  }

  method EditMatchingLines(lines: seq<string>, key: string, value: Option<string>)
    returns (out: seq<string>, found: bool)
    ensures found <==> Any(Edits(key), lines)
    ensures out == FlatMap(Editor(key, value), lines)
    ensures !found ==> out == lines
  {
    found := false;
    out := [];
    for i := 0 to |lines|
      invariant found <==> Any(Edits(key), lines[..i])
      invariant out == FlatMap(Editor(key, value), lines[..i])
      invariant !found ==> out == lines[..i]
    {
      EditedSoFar(lines, key, value, i);
      var replacement, matched := EditOne(lines[i], key, value);
      out := out + replacement;
      found := found || matched;
    }
    assert lines[..|lines|] == lines;
  }

  method ApplyEnvAssignment(contents: string, key: string, value: Option<string>) returns (r: string)
    ensures r == Applied(contents, key, value)
  {
    var out, found := EditMatchingLines(Split(contents, NEWLINE), key, value);
    if !found && value.Some? {
      out := AppendAssignment(out, key, value.value);
    }
    r := Join(out, NEWLINE);
  }

  // ---------------------------------------------------------------- loader

  function Unquote(v: string): string {
    if v != "" && v[0] == v[|v| - 1] && v[0] in [QUOTE, '\''] then
      if |v| == 1 then "" else v[1..|v| - 1]
    else v
  }

  /** The assignment the loader reads on one line, if any. */
  function Assignment(line: string): Option<(string, string)> {
    var t := Trim(line);
    var eq := IndexOf(t, '=');
    IndexOfFirst(t, '=');
    if t == "" || t[0] == '#' || eq < 0 then None
    else
      var key := Trim(t[..eq]);
      if key == "" then None else Some((key, Unquote(Trim(t[eq + 1..]))))
  }

  /** The lines the loader takes as assignments to `key`. */
  function Names(key: string): string -> bool {
    line => Assignment(line).Some? && Assignment(line).value.0 == key
  }

  /** What a fresh process sees for `key`: the first line that names it wins. */
  function Loaded(lines: seq<string>, key: string): Option<string> {
    if lines == [] then None
    else if Names(key)(lines[0]) then Some(Assignment(lines[0]).value.1)
    else Loaded(lines[1..], key)
  }

  lemma {:induction false} LoadedConcat(a: seq<string>, b: seq<string>, k: string)
    ensures Loaded(a + b, k) == if Loaded(a, k).Some? then Loaded(a, k) else Loaded(b, k)
  {
    if a == [] {
      assert a + b == b;
    } else {
      LoadedConcat(a[1..], b, k);
      assert (a + b)[1..] == a[1..] + b;
    }
  }

  /** A file of the search path; no contents if it is missing or cannot be read. */
  datatype EnvSource = EnvSource(path: string, contents: Option<string>)

  function SourceLines(): EnvSource -> seq<string> {
    (source: EnvSource) => if source.contents.Some? then Split(source.contents.value, NEWLINE) else []
  }

  /** The lines of all files of the search path, one file behind the other. */
  function AllLines(sources: seq<EnvSource>): seq<string> {
    FlatMap(SourceLines(), sources)
  }

  function Readable(): EnvSource -> bool {
    (source: EnvSource) => source.contents.Some?
  }

  class ProcessEnv {
    var vars: map<string, string>

    /** Variables already set are never overridden; the others take their first assignment. */
    method Autoload(contents: string)
      modifies this
      ensures forall k | k in old(vars) :: k in vars && vars[k] == old(vars)[k]
      ensures forall k | k !in old(vars) :: k in vars <==> Loaded(Split(contents, NEWLINE), k).Some?
      ensures forall k | k !in old(vars) && k in vars :: Loaded(Split(contents, NEWLINE), k) == Some(vars[k])
    {
      var lines := Split(contents, NEWLINE);
      for i := 0 to |lines|
        invariant forall k | k in old(vars) :: k in vars && vars[k] == old(vars)[k]
        invariant forall k | k !in old(vars) ::
            Loaded(lines, k) == if k in vars then Some(vars[k]) else Loaded(lines[i..], k)
      {
        assert lines[i..][1..] == lines[i + 1..];
        match Assignment(lines[i]) {
          case None =>
          case Some(pair) =>
            if pair.0 !in vars {
              vars := vars[pair.0 := pair.1];
            }
        }
      }
    }

    /** The whole search path: variables already set stay, and every other takes its first assignment
        in the order of the files. */
    method AutoloadAll(sources: seq<EnvSource>) returns (loaded: seq<EnvSource>)
      modifies this
      ensures forall k | k in old(vars) :: k in vars && vars[k] == old(vars)[k]
      ensures forall k | k !in old(vars) :: k in vars <==> Loaded(AllLines(sources), k).Some?
      ensures forall k | k !in old(vars) && k in vars :: Loaded(AllLines(sources), k) == Some(vars[k])
      ensures loaded == Filter(Readable(), sources)
    {
      loaded := [];
      for i := 0 to |sources|
        invariant forall k | k in old(vars) :: k in vars && vars[k] == old(vars)[k]
        invariant forall k | k !in old(vars) ::
            Loaded(AllLines(sources), k) == if k in vars then Some(vars[k]) else Loaded(AllLines(sources[i..]), k)
        invariant loaded == Filter(Readable(), sources[..i])
      {
        var source := sources[i];
        NextSource(sources, i);
        if source.contents.Some? {
          Autoload(source.contents.value);
          loaded := loaded + [source];
        }
      }
      assert sources[..|sources|] == sources;
    }
  }

  lemma NextSource(sources: seq<EnvSource>, i: nat)
    requires i < |sources|
    ensures forall k ::
      Loaded(AllLines(sources[i..]), k)
      == if Loaded(SourceLines()(sources[i]), k).Some? then Loaded(SourceLines()(sources[i]), k) else Loaded(AllLines(sources[i + 1..]), k)
    ensures Filter(Readable(), sources[..i + 1]) == Filter(Readable(), sources[..i]) + if sources[i].contents.Some? then [sources[i]] else []
  {
    assert sources[i..][1..] == sources[i + 1..];
    assert sources[..i + 1] == sources[..i] + [sources[i]];
    FilterAppend(Readable(), sources[..i], sources[i]);
    forall k
      ensures Loaded(AllLines(sources[i..]), k)
           == if Loaded(SourceLines()(sources[i]), k).Some? then Loaded(SourceLines()(sources[i]), k) else Loaded(AllLines(sources[i + 1..]), k)
    {
      LoadedConcat(SourceLines()(sources[i]), AllLines(sources[i + 1..]), k);
    }
  }
}
