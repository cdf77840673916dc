/** Single lines of a `.env` file under the editor and under the loader. */
module EnvLines {
  import opened Wrappers
  import opened Text
  import opened Seqs
  import opened EnvFile

  // ---------------------------------------------------------------- one line

  /** A text that may stand before the equals sign. */
  predicate ValidName(name: string) {
    name != "" && '=' !in name && name[0] != '#' && Tight(name)
  }

  lemma StaysTight(start: string, end: string)
    requires Tight(start) && start != "" && (end != "" ==> !IsSpace(end[|end| - 1]))
    ensures Tight(start + end)
  {
    var core := start + end;
    assert core[0] == start[0];
    assert core[|core| - 1] == if end == "" then start[|start| - 1] else end[|end| - 1];
  }

  lemma TrimAssignment(w: string, name: string, rest: string)
    requires AllSpace(w) && name != "" && !IsSpace(name[0])
    ensures Trim(w + (name + "=" + rest)) == name + "=" + TrimEnd(rest)
  {
    TrimEndSplits(rest);
    var kept := TrimEnd(rest);
    var core := name + "=" + kept;
    StaysTight(name + "=", kept);
    Associate(name + "=", kept, TailSpace(rest));
    Associate(w, core, TailSpace(rest));
    TrimPadded(w, core, TailSpace(rest));
  }

  /** A line `w NAME = rest` is read as an assignment to NAME. */
  lemma AssignmentOf(w: string, name: string, rest: string)
    requires AllSpace(w) && ValidName(name)
    ensures Assignment(w + (name + "=" + rest)).Some?
    ensures Assignment(w + (name + "=" + rest)).value.0 == name
    ensures Tight(rest) ==> Assignment(w + (name + "=" + rest)).value.1 == Unquote(rest)
  {
    TrimAssignment(w, name, rest);
    var kept := TrimEnd(rest);
    var core := name + "=" + kept;
    IndexOfAfter(name, '=', kept);
    assert core[0] == name[0];
    assert core[..|name|] == name && core[|name| + 1..] == kept;
    TrimFixed(name);
    if Tight(rest) {
      TrimFixed(rest);
    }
  }

  lemma AssignmentBehind(w: string, name: string, rest: string)
    requires AllSpace(w) && ValidName(name)
    ensures Assignment(w + (name + "=") + rest).Some?
    ensures Assignment(w + (name + "=") + rest).value.0 == name
    ensures Tight(rest) ==> Assignment(w + (name + "=") + rest).value.1 == Unquote(rest)
  {
    Associate(w, name + "=", rest);
    AssignmentOf(w, name, rest);
  }

  /** The name under which the loader reads `export KEY=`: `export`, white space and the key. */
  predicate Exported(name: string, key: string) {
    && |name| > |EXPORT| + |key| && EXPORT <= name && name[|name| - |key|..] == key
    && AllSpace(name[|EXPORT|..|name| - |key|])
  }

  lemma ExportedName(gap: string, key: string)
    requires ValidKey(key) && AllSpace(gap) && gap != ""
    ensures Exported(EXPORT + gap + key, key) && ValidName(EXPORT + gap + key)
  {
    var name := EXPORT + gap + key;
    assert name[|EXPORT|..|name| - |key|] == gap && name[|name| - |key|..] == key;
    assert name[0] == 'e' && name[|name| - 1] == key[|key| - 1];
  }

  /** What precedes the value on a line the editor matches: white space, then NAME and `=`,
      where NAME is the key itself or the key behind `export`. */
  lemma EditedShape(line: string, key: string) returns (w: string, name: string)
    requires ValidKey(key) && Edits(key)(line)
    ensures AllSpace(w) && ValidName(name)
    ensures name == key || Exported(name, key)
    ensures EditorPrefix(line, key) == Some(w + (name + "="))
    ensures w + (name + "=") <= line
  {
    TrimStartSplits(line);
    w := LeadSpace(line);
    var t := TrimStart(line);
    var body := AfterExport(t);
    TrimStartSplits(body);
    var gap, exported := LeadSpace(body), TrimStart(body);
    if gap != "" && key + "=" <= exported {
      name := EXPORT + gap + key;
      ExportedName(gap, key);
      assert t == EXPORT + body;
      Associate(EXPORT + gap, key, "=");
      Associate(EXPORT, gap, key + "=");
      assert name + "=" <= t;
      Associate(w, EXPORT + gap, key + "=");
      Associate(w, EXPORT, gap);
      Associate(w + EXPORT + gap, key, "=");
    } else {
      name := key;
      Associate(w, key, "=");
    }
  }

  /** A line that starts with a key does not start with `export` and white space. */
  lemma NotExported(key: string, tail: string)
    requires ValidKey(key)
    ensures LeadSpace(AfterExport(key + "=" + tail)) == ""
  {
    var t := key + "=" + tail;
    assert t[|key|] == '=';
    if EXPORT <= t && t[|EXPORT|..] != "" && |key| > |EXPORT| {
      assert t[|EXPORT|..][0] == key[|EXPORT|];
    }
  }

  lemma PlainPrefix(w: string, key: string, tail: string)
    requires ValidKey(key) && AllSpace(w)
    ensures EditorPrefix(w + (key + "=" + tail), key) == Some(w + key + "=")
  {
    TrimStartPadded(w, key + "=" + tail);
    NotExported(key, tail);
    assert key + "=" <= key + "=" + tail;
  }

  lemma ExportedPrefix(w: string, gap: string, key: string, tail: string)
    requires ValidKey(key) && AllSpace(w) && AllSpace(gap) && gap != ""
    ensures EditorPrefix(w + (EXPORT + (gap + (key + "=" + tail))), key) == Some(w + EXPORT + gap + key + "=")
  {
    var body := gap + (key + "=" + tail);
    TrimStartPadded(w, EXPORT + body);
    TrimStartPadded(gap, key + "=" + tail);
    assert AfterExport(EXPORT + body) == body;
    assert key + "=" <= key + "=" + tail;
  }

  lemma RegroupPrefix(a: string, b: string, c: string, d: string, e: string)
    ensures (a + b + c + d) + e == a + (b + (c + (d + e)))
  {
  }

  /** Editing a line again finds the same place in it. */
  lemma PrefixStable(line: string, key: string, tail: string)
    requires ValidKey(key) && Edits(key)(line)
    ensures EditorPrefix(EditorPrefix(line, key).value + tail, key) == EditorPrefix(line, key)
  {
    TrimStartSplits(line);
    var w, t := LeadSpace(line), TrimStart(line);
    var gap, exported := LeadSpace(AfterExport(t)), TrimStart(AfterExport(t));
    TrimStartSplits(AfterExport(t));
    if gap != "" && key + "=" <= exported {
      ExportedPrefix(w, gap, key, tail);
      RegroupPrefix(w, EXPORT, gap, key + "=", tail);
      Associate(w + EXPORT + gap, key, "=");
    } else {
      PlainPrefix(w, key, tail);
      Associate(w, key, "=");
      Associate(w, key + "=", tail);
    }
  }

  // ---------------------------------------------------------------- values

  lemma {:induction false} EscapeFixed(v: string)
    ensures |Escape(v)| >= |v|
    ensures Escape(v) == v <==> QUOTE !in v
    ensures forall c | c in Escape(v) :: c in v || c == '\\'
  {
    if v != "" {
      EscapeFixed(v[1..]);
      assert v == [v[0]] + v[1..];
    }
  }

  /** The loader undoes the editor's quoting, but not its escaping. */
  lemma FormatThenUnquote(v: string)
    ensures Tight(FormatValue(v)) && Unquote(FormatValue(v)) == Escape(v)
    ensures NEWLINE !in v ==> NEWLINE !in FormatValue(v)
  {
    EscapeFixed(v);
    var f := FormatValue(v);
    if exists c | c in v :: Special(c) {
      assert f[0] == QUOTE && f[|f| - 1] == QUOTE && f[1..|f| - 1] == Escape(v);
    } else if v != "" {
      assert v[0] in v && v[|v| - 1] in v;
      assert Escape(v) == v;
    }
  }

  /** A line the editor wrote names what it named before, now with the new value. */
  lemma EditedLineLoads(line: string, key: string, v: string)
    requires ValidKey(key) && Edits(key)(line)
    ensures var after := EditLine(line, key, Some(v))[0];
      && Assignment(line).Some? && Assignment(after).Some?
      && Assignment(after).value == (Assignment(line).value.0, Escape(v))
      && (Assignment(line).value.0 == key || Exported(Assignment(line).value.0, key))
  {
    var w, name := EditedShape(line, key);
    var prefix := w + (name + "=");
    AssignmentBehind(w, name, line[|prefix|..]);
    assert line == prefix + line[|prefix|..];
    FormatThenUnquote(v);
    AssignmentBehind(w, name, FormatValue(v));
  }

  // ---------------------------------------------------------------- the three kinds of lines

  /** `KEY=`, behind optional white space. */
  predicate PlainLine(key: string, line: string) {
    key + "=" <= TrimStart(line)
  }

  /** `KEY =`, with white space before the equals sign. */
  predicate SpacedLine(key: string, line: string) {
    var t := TrimStart(line);
    key <= t && LeadSpace(t[|key|..]) != "" && "=" <= TrimStart(t[|key|..])
  }

  /** `export KEY=`. */
  predicate ExportLine(key: string, line: string) {
    var body := AfterExport(TrimStart(line));
    LeadSpace(body) != "" && key + "=" <= TrimStart(body)
  }

  lemma SpacedParts(key: string, line: string, gap: string, rest: string)
    requires gap != "" && AllSpace(gap) && TrimStart(line) == key + gap + "=" + rest
    ensures SpacedLine(key, line)
  {
    var t := TrimStart(line);
    assert t[|key|..] == gap + ("=" + rest);
    TrimStartPadded(gap, "=" + rest);
  }

  lemma SpacedGap(key: string, line: string) returns (gap: string, rest: string)
    requires SpacedLine(key, line)
    ensures gap != "" && AllSpace(gap) && TrimStart(line) == key + gap + "=" + rest
  {
    var t := TrimStart(line);
    var after := t[|key|..];
    TrimStartSplits(after);
    gap, rest := LeadSpace(after), TrimStart(after)[1..];
    assert t == key + after && TrimStart(after) == "=" + rest;
  }

  /** The shape of a spaced line, spelled out. */
  lemma SpacedShape(key: string, line: string)
    ensures SpacedLine(key, line)
       <==> exists gap, rest :: gap != "" && AllSpace(gap) && TrimStart(line) == key + gap + "=" + rest
  {
    if SpacedLine(key, line) {
      var gap, rest := SpacedGap(key, line);
    }
    forall gap, rest | gap != "" && AllSpace(gap) && TrimStart(line) == key + gap + "=" + rest ensures SpacedLine(key, line) {
      SpacedParts(key, line, gap, rest);
    }
  }

  lemma KeyIsName(key: string)
    requires ValidKey(key)
    ensures ValidName(key)
  {
    assert key[0] in key && key[|key| - 1] in key;
  }

  /** The loader takes a plain or a spaced line as the key. */
  lemma KindsAreNamed(key: string, line: string)
    requires ValidName(key) && (PlainLine(key, line) || SpacedLine(key, line))
    ensures Names(key)(line)
  {
    TrimStartSplits(line);
    var w, t := LeadSpace(line), TrimStart(line);
    if PlainLine(key, line) {
      var rest := t[|key| + 1..];
      assert t == key + "=" + rest;
      AssignmentOf(w, key, rest);
    } else {
      var gap, rest := SpacedGap(key, line);
      AssignmentSpaced(w, key, gap, rest);
    }
  }

  /** `KEY =rest` is read as an assignment to KEY. */
  lemma AssignmentSpaced(w: string, key: string, gap: string, rest: string)
    requires AllSpace(w) && AllSpace(gap) && ValidName(key)
    ensures Assignment(w + (key + gap + "=" + rest)).Some?
    ensures Assignment(w + (key + gap + "=" + rest)).value.0 == key
    ensures Tight(rest) ==> Assignment(w + (key + gap + "=" + rest)).value.1 == Unquote(rest)
  {
    var name := key + gap;
    assert name[0] == key[0];
    SpacesNotEquals(gap);
    TrimAssignment(w, name, rest);
    TrimName(key, gap);
    AssignmentOfCore(w + (name + "=" + rest), name, TrimEnd(rest));
    if Tight(rest) {
      TrimFixed(rest);
    }
  }

  lemma TrimName(key: string, gap: string)
    requires AllSpace(gap) && Tight(key)
    ensures Trim(key + gap) == key
  {
    assert "" + key + gap == key + gap;
    TrimPadded("", key, gap);
  }

  /** What is read from a line that trims to `NAME=VALUE`. */
  lemma AssignmentOfCore(line: string, name: string, kept: string)
    requires Trim(line) == name + "=" + kept && name != "" && name[0] != '#' && '=' !in name && Trim(name) != ""
    ensures Assignment(line) == Some((Trim(name), Unquote(Trim(kept))))
  {
    var core := name + "=" + kept;
    IndexOfAfter(name, '=', kept);
    assert core[0] == name[0] && core[..|name|] == name && core[|name| + 1..] == kept;
  }

  lemma SpacesNotEquals(gap: string)
    requires AllSpace(gap)
    ensures '=' !in gap
  {
  }

  lemma NameParts(name: string, key: string) returns (gap: string)
    requires name != "" && !IsSpace(name[0]) && Trim(name) == key
    ensures name == key + gap && AllSpace(gap)
  {
    TrimEndSplits(name);
    gap := TailSpace(name);
  }

  lemma StartOfTrim(line: string) returns (tail: string)
    ensures TrimStart(line) == Trim(line) + tail
    ensures Trim(line) != "" ==> !IsSpace(Trim(line)[0])
  {
    TrimStartSplits(line);
    TrimEndSplits(TrimStart(line));
    tail := TailSpace(TrimStart(line));
  }

  lemma GapParts(key: string, gap: string, rest: string, tail: string)
    ensures (key + gap + "=" + rest) + tail == key + gap + "=" + (rest + tail)
  {
  }

  /** The text before the first equals sign of a line the loader takes as the key. */
  lemma NamedParts(key: string, line: string) returns (name: string, rest: string)
    requires key != "" && Names(key)(line)
    ensures Trim(line) == name + "=" + rest && Trim(name) == key
  {
    var t := Trim(line);
    IndexOfFirst(t, '=');
    var eq := IndexOf(t, '=');
    CutAtEquals(t, eq);
    name, rest := t[..eq], t[eq + 1..];
  }

  lemma CutAtEquals(t: string, i: nat)
    requires i < |t| && t[i] == '='
    ensures t == t[..i] + "=" + t[i + 1..]
  {
  }

  /** And no other line. */
  lemma NamedIsKind(key: string, line: string)
    requires key != "" && Names(key)(line)
    ensures PlainLine(key, line) || SpacedLine(key, line)
  {
    var name, rest := NamedParts(key, line);
    var tail := StartOfTrim(line);
    assert name != "" && name[0] == Trim(line)[0];
    var gap := NameParts(name, key);
    GapParts(key, gap, rest, tail);
    KindOfGap(key, line, gap, rest + tail);
  }

  lemma KindOfGap(key: string, line: string, gap: string, rest: string)
    requires AllSpace(gap) && TrimStart(line) == key + gap + "=" + rest
    ensures PlainLine(key, line) || SpacedLine(key, line)
  {
    if gap == "" {
      assert key + gap == key;
    } else {
      SpacedParts(key, line, gap, rest);
    }
  }

  /** For a valid key: the loader takes plain and spaced lines, the editor plain and `export` lines,
      and a spaced line is neither of the editor's. So what the loader takes and the editor misses
      is exactly `KEY` with white space before the equals sign. */
  lemma LineKinds(key: string, line: string)
    requires ValidKey(key)
    ensures Names(key)(line) <==> PlainLine(key, line) || SpacedLine(key, line)
    ensures Edits(key)(line) <==> PlainLine(key, line) || ExportLine(key, line)
    ensures Names(key)(line) && !Edits(key)(line) <==> SpacedLine(key, line)
    ensures Edits(key)(line) && !Names(key)(line) <==> ExportLine(key, line)
  {
    KeyIsName(key);
    if Names(key)(line) {
      NamedIsKind(key, line);
    }
    if PlainLine(key, line) || SpacedLine(key, line) {
      KindsAreNamed(key, line);
    }
    if SpacedLine(key, line) {
      SpacedIsNotEdited(key, line);
    }
    if PlainLine(key, line) {
      PlainIsNotExport(key, line);
    }
  }

  lemma PlainIsNotExport(key: string, line: string)
    requires ValidKey(key) && PlainLine(key, line)
    ensures !ExportLine(key, line)
  {
    var t := TrimStart(line);
    NotExported(key, t[|key| + 1..]);
    assert t == key + "=" + t[|key| + 1..];
  }

  lemma SpacedIsNotEdited(key: string, line: string)
    requires ValidKey(key) && SpacedLine(key, line)
    ensures !PlainLine(key, line) && !ExportLine(key, line)
  {
    var gap, rest := SpacedGap(key, line);
    var t := TrimStart(line);
    assert t[|key|] == gap[0] && IsSpace(gap[0]);
    assert EXPORT <= t && |key| > |EXPORT| ==> t[|EXPORT|] == key[|EXPORT|] && key[|EXPORT|] in key;
    if |key| < |EXPORT| {
      assert !IsSpace(EXPORT[|key|]) && t[|key|] != EXPORT[|key|];
    }
    if EXPORT <= t && |key| == |EXPORT| {
      assert t[|key|..] == gap + ("=" + rest);
      TrimStartPadded(gap, "=" + rest);
      assert key[0] in key;
    }
  }

  // ---------------------------------------------------------------- every name of a key

  /** The names under which the loader reads a line that the editor matches for the key. */
  predicate OfKey(name: string, key: string) {
    name == key || Exported(name, key)
  }

  lemma NameOfKey(name: string, key: string)
    requires ValidKey(key) && OfKey(name, key)
    ensures ValidName(name)
  {
    if name == key {
      KeyIsName(key);
    } else {
      var gap := name[|EXPORT|..|name| - |key|];
      ExportedName(gap, key);
      assert name == EXPORT + gap + key;
    }
  }

  /** A line the editor matches is a plain line of one of the key's names. */
  lemma EditedIsPlain(key: string, line: string)
    requires ValidKey(key) && Edits(key)(line)
    ensures Assignment(line).Some?
    ensures OfKey(Assignment(line).value.0, key) && PlainLine(Assignment(line).value.0, line)
  {
    var w, name := EditedShape(line, key);
    var rest := line[|w + (name + "=")|..];
    assert line == w + (name + "=") + rest;
    AssignmentBehind(w, name, rest);
    Associate(w, name + "=", rest);
    TrimStartPadded(w, name + "=" + rest);
    assert name + "=" <= name + "=" + rest;
  }

  /** A plain line of one of the key's names is matched by the editor. */
  lemma PlainIsEdited(key: string, name: string, line: string)
    requires ValidKey(key) && OfKey(name, key) && PlainLine(name, line)
    ensures Edits(key)(line)
  {
    TrimStartSplits(line);
    if name != key {
      var w, t, gap := LeadSpace(line), TrimStart(line), name[|EXPORT|..|name| - |key|];
      var rest := t[|name| + 1..];
      ExportedParts(name, gap, key, rest);
      assert t == name + "=" + rest;
      ExportedPrefix(w, gap, key, rest);
    }
  }

  lemma ExportedParts(name: string, gap: string, key: string, rest: string)
    requires Exported(name, key) && gap == name[|EXPORT|..|name| - |key|]
    ensures name + "=" + rest == EXPORT + (gap + (key + "=" + rest)) && gap != "" && AllSpace(gap)
  {
    assert name == EXPORT + gap + key;
  }

  /** The lines of one of the key's names: the loader takes its plain and spaced lines, and of these
      the editor matches the plain ones. */
  lemma NamedKinds(key: string, name: string, line: string)
    requires ValidKey(key) && OfKey(name, key)
    ensures Names(name)(line) <==> PlainLine(name, line) || SpacedLine(name, line)
    ensures Names(name)(line) ==> (Edits(key)(line) <==> PlainLine(name, line))
    ensures Names(name)(line) && !Edits(key)(line) <==> SpacedLine(name, line)
  {
    NameOfKey(name, key);
    if Names(name)(line) {
      NamedIsKind(name, line);
    }
    if PlainLine(name, line) || SpacedLine(name, line) {
      KindsAreNamed(name, line);
    }
    if Names(name)(line) && Edits(key)(line) {
      EditedIsPlain(key, line);
    }
    if PlainLine(name, line) {
      PlainIsEdited(key, name, line);
      PlainIsNotSpaced(name, line);
    }
  }

  lemma PlainIsNotSpaced(name: string, line: string)
    requires PlainLine(name, line)
    ensures !SpacedLine(name, line)
  {
    var t := TrimStart(line);
    assert t[|name|] == '=' && t[|name|..][0] == '=';
  }

  /** No other name is on a line the editor matches. */
  lemma OtherNames(key: string, name: string, line: string)
    requires ValidKey(key) && !OfKey(name, key) && Names(name)(line)
    ensures !Edits(key)(line)
  {
    if Edits(key)(line) {
      EditedIsPlain(key, line);
    }
  }
}
