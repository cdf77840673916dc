/** What the `.env` editor and the `.env` loader promise each other. */
module EnvRoundTrip {
  import opened Wrappers
  import opened Text
  import opened Seqs
  import opened EnvFile
  import opened EnvLines

  // ---------------------------------------------------------------- lists of lines

  lemma {:induction false} LoadedSome(lines: seq<string>, k: string)
    ensures Loaded(lines, k).Some? <==> Any(Names(k), lines)
  {
    if lines != [] {
      LoadedSome(lines[1..], k);
      AnySplit(Names(k), lines[0], lines[1..]);
      assert lines == [lines[0]] + lines[1..];
    }
  }

  lemma LoadedOne(line: string, k: string)
    ensures Loaded([line], k) == if Names(k)(line) then Some(Assignment(line).value.1) else None
  {
    assert Loaded([line][1..], k) == None;
  }

  /** The first line the loader takes as `name` is one the editor matches for `key`. */
  predicate FirstNamedIsEdited(lines: seq<string>, key: string, name: string) {
    FirstIs(Edits(key), Names(name), lines)
  }

  /** What the edit of existing lines does to any variable at all. */
  lemma {:induction false} LoadedEdited(lines: seq<string>, key: string, v: string, k: string)
    requires ValidKey(key)
    ensures Loaded(FlatMap(Editor(key, Some(v)), lines), k)
         == if FirstNamedIsEdited(lines, key, k) then Some(Escape(v)) else Loaded(lines, k)
  {
    if lines != [] {
      var first := Editor(key, Some(v))(lines[0]);
      LoadedEdited(lines[1..], key, v, k);
      LoadedConcat(first, FlatMap(Editor(key, Some(v)), lines[1..]), k);
      LoadedOne(first[0], k);
      if Edits(key)(lines[0]) {
        EditedLineLoads(lines[0], key, v);
      }
    }
  }

  lemma {:induction false} LoadedOther(lines: seq<string>, key: string, value: Option<string>, k: string)
    requires ValidKey(key) && !OfKey(k, key)
    ensures Loaded(FlatMap(Editor(key, value), lines), k) == Loaded(lines, k)
  {
    if lines != [] {
      var first := Editor(key, value)(lines[0]);
      LoadedOther(lines[1..], key, value, k);
      LoadedConcat(first, FlatMap(Editor(key, value), lines[1..]), k);
      if Edits(key)(lines[0]) {
        EditedLineLoads(lines[0], key, if value.Some? then value.value else "");
      }
      if first != [] {
        LoadedOne(first[0], k);
      }
    }
  }

  /** No line assigns the key with white space before the equals sign. */
  predicate NoneSpaced(lines: seq<string>, key: string) {
    forall line | line in lines :: !SpacedLine(key, line)
  }

  lemma {:induction false} LoadedRemoved(lines: seq<string>, key: string)
    requires ValidKey(key)
    ensures Loaded(FlatMap(Editor(key, None), lines), key).None? <==> NoneSpaced(lines, key)
  {
    if lines != [] {
      LoadedRemoved(lines[1..], key);
      LoadedConcat(Editor(key, None)(lines[0]), FlatMap(Editor(key, None), lines[1..]), key);
      RemovedOne(lines[0], key);
      NoneSpacedSplit(lines[0], lines[1..], key);
      assert lines == [lines[0]] + lines[1..];
    }
  }

  lemma RemovedOne(line: string, key: string)
    requires ValidKey(key)
    ensures Loaded(Editor(key, None)(line), key).None? <==> !SpacedLine(key, line)
  {
    LineKinds(key, line);
    if !Edits(key)(line) {
      assert Editor(key, None)(line) == [line];
      LoadedOne(line, key);
    }
  }

  lemma NoneSpacedSplit(line: string, rest: seq<string>, key: string)
    ensures NoneSpaced([line] + rest, key) <==> !SpacedLine(key, line) && NoneSpaced(rest, key)
  {
    assert line in [line] + rest && forall other | other in rest :: other in [line] + rest;
  }

  function NotEdited(key: string): string -> bool {
    line => !Edits(key)(line)
  }

  /** Removing a key filters its lines out. */
  lemma {:induction false} RemovedIsFilter(lines: seq<string>, key: string)
    ensures FlatMap(Editor(key, None), lines) == Filter(NotEdited(key), lines)
  {
    if lines != [] {
      RemovedIsFilter(lines[1..], key);
      RemovedLine(lines[0], key);
    }
  }

  lemma RemovedLine(line: string, key: string)
    ensures Editor(key, None)(line) == if NotEdited(key)(line) then [line] else []
  {
    if Edits(key)(line) {
      assert EditorPrefix(line, key).Some?;
    } else {
      assert EditorPrefix(line, key).None?;
    }
  }

  lemma {:induction false} PopBlankSplits(lines: seq<string>)
    ensures PopBlank(lines) <= lines
    ensures forall k :: Loaded(PopBlank(lines), k) == Loaded(lines, k)
    ensures PopBlank(lines) != [] ==> PopBlank(lines)[|PopBlank(lines)| - 1] != ""
  {
    if lines != [] && lines[|lines| - 1] == "" {
      var shorter := lines[..|lines| - 1];
      PopBlankSplits(shorter);
      assert lines == shorter + [""];
      forall k ensures Loaded(lines, k) == Loaded(shorter, k) {
        LoadedConcat(shorter, [""], k);
        LoadedOne("", k);
      }
    }
  }

  lemma {:induction false} NothingEdited(lines: seq<string>, key: string, value: Option<string>)
    requires !Any(Edits(key), lines)
    ensures FlatMap(Editor(key, value), lines) == lines
  {
    if lines != [] {
      assert lines == [lines[0]] + lines[1..];
      AnySplit(Edits(key), lines[0], lines[1..]);
      NothingEdited(lines[1..], key, value);
    }
  }

  lemma {:induction false} EditedTwice(lines: seq<string>, key: string, v: string, value: Option<string>)
    requires ValidKey(key)
    ensures FlatMap(Editor(key, value), FlatMap(Editor(key, Some(v)), lines)) == FlatMap(Editor(key, value), lines)
    ensures Any(Edits(key), FlatMap(Editor(key, Some(v)), lines)) <==> Any(Edits(key), lines)
  {
    if lines != [] {
      var once := Editor(key, Some(v))(lines[0]);
      var rest := FlatMap(Editor(key, Some(v)), lines[1..]);
      EditedTwice(lines[1..], key, v, value);
      OneTwice(lines[0], key, v, value);
      FlatMapConcat(Editor(key, value), once, rest);
      AnyConcat(Edits(key), once, rest);
      AnyConcat(Edits(key), [lines[0]], lines[1..]);
      assert lines == [lines[0]] + lines[1..];
    }
  }

  lemma OneTwice(line: string, key: string, v: string, value: Option<string>)
    requires ValidKey(key)
    ensures FlatMap(Editor(key, value), Editor(key, Some(v))(line)) == Editor(key, value)(line)
    ensures Any(Edits(key), Editor(key, Some(v))(line)) <==> Any(Edits(key), [line])
  {
    var once := Editor(key, Some(v))(line);
    FlatMapAppend(Editor(key, value), [], once[0]);
    assert [] + [once[0]] == once;
    AnySplit(Edits(key), once[0], []);
    AnySplit(Edits(key), line, []);
    if Edits(key)(line) {
      PrefixStable(line, key, FormatValue(v));
    }
  }

  // ---------------------------------------------------------------- whole files

  function Lines(contents: string): seq<string> {
    Split(contents, NEWLINE)
  }

  /** The lines of an edited file are the edited lines, when the value adds none of its own. */
  lemma AppliedLines(contents: string, key: string, value: Option<string>)
    requires ValidKey(key)
    requires value.Some? ==> NEWLINE !in value.value
    ensures var edited := Edited(Lines(contents), key, value);
      Lines(Applied(contents, key, value)) == if edited == [] then [""] else edited
  {
    var edited := Edited(Lines(contents), key, value);
    SplitPieces(contents, NEWLINE);
    EditedPieces(Lines(contents), key, value);
    if edited != [] {
      SplitJoin(edited, NEWLINE);
    }
  }

  lemma EditedPieces(lines: seq<string>, key: string, value: Option<string>)
    requires ValidKey(key) && NoneContains(lines, NEWLINE)
    requires value.Some? ==> NEWLINE !in value.value
    ensures NoneContains(Edited(lines, key, value), NEWLINE)
  {
    MappedPieces(lines, key, value);
    if value.Some? {
      FormatThenUnquote(value.value);
    }
    if !Any(Edits(key), lines) && value.Some? {
      PopBlankSplits(lines);
      assert NEWLINE !in key + "=" + FormatValue(value.value);
    }
  }

  lemma {:induction false} MappedPieces(lines: seq<string>, key: string, value: Option<string>)
    requires ValidKey(key) && NoneContains(lines, NEWLINE)
    requires value.Some? ==> NEWLINE !in value.value
    ensures NoneContains(FlatMap(Editor(key, value), lines), NEWLINE)
  {
    if lines != [] {
      MappedPieces(lines[1..], key, value);
      if Edits(key)(lines[0]) && value.Some? {
        var w, name := EditedShape(lines[0], key);
        FormatThenUnquote(value.value);
        assert lines[0] in lines;
        assert NEWLINE !in w + (name + "=");
      }
    }
  }

  /** The line the loader will use is one the editor rewrites, or neither of them has a line. */
  predicate OwnsByParse(lines: seq<string>, key: string) {
    if Any(Edits(key), lines) then FirstNamedIsEdited(lines, key, key) else !Any(Names(key), lines)
  }

  function Plain(name: string): string -> bool {
    line => PlainLine(name, line)
  }

  function Spaced(name: string): string -> bool {
    line => SpacedLine(name, line)
  }

  function Assigns(name: string): string -> bool {
    line => PlainLine(name, line) || SpacedLine(name, line)
  }

  /** The first plain or spaced line is a plain one. */
  predicate PlainFirst(lines: seq<string>, name: string) {
    FirstIs(Plain(name), Assigns(name), lines)
  }

  predicate NoLineOf(lines: seq<string>, key: string) {
    forall line | line in lines :: !PlainLine(key, line) && !SpacedLine(key, line) && !ExportLine(key, line)
  }

  /** By the shape of the lines: the first `KEY=` comes before any `KEY =`, or the file has neither
      of them and no `export KEY=`. */
  predicate EditorOwns(lines: seq<string>, key: string) {
    PlainFirst(lines, key) || NoLineOf(lines, key)
  }

  /** What the editor rewrites of a variable's lines, by their shape: nothing but for the key's own
      names, and of these the first line if it is plain. */
  lemma PlainFirstIsEdited(lines: seq<string>, key: string, name: string)
    requires ValidKey(key)
    ensures FirstNamedIsEdited(lines, key, name) <==> OfKey(name, key) && PlainFirst(lines, name)
    ensures FirstNamedIsEdited(lines, key, name) ==> Any(Edits(key), lines)
  {
    if OfKey(name, key) {
      forall line | line in lines
        ensures Names(name)(line) <==> Assigns(name)(line)
        ensures Names(name)(line) ==> (Edits(key)(line) <==> Plain(name)(line))
      {
        NamedKinds(key, name, line);
      }
      FirstIsSame(Edits(key), Names(name), Plain(name), Assigns(name), lines);
    }
    if FirstNamedIsEdited(lines, key, name) {
      FirstIsAny(Edits(key), Names(name), lines);
      var i :| 0 <= i < |lines| && Names(name)(lines[i]) && Edits(key)(lines[i]);
      if !OfKey(name, key) {
        OtherNames(key, name, lines[i]);
      }
    }
  }

  lemma NoLineIsNone(lines: seq<string>, key: string)
    requires ValidKey(key)
    ensures NoLineOf(lines, key) <==> !Any(Edits(key), lines) && !Any(Names(key), lines)
  {
    NoneIn(Edits(key), lines);
    NoneIn(Names(key), lines);
    forall line | line in lines
      ensures !PlainLine(key, line) && !SpacedLine(key, line) && !ExportLine(key, line) <==> !Edits(key)(line) && !Names(key)(line)
    {
      LineKinds(key, line);
    }
  }

  lemma OwnsByShape(lines: seq<string>, key: string)
    requires ValidKey(key)
    ensures EditorOwns(lines, key) <==> OwnsByParse(lines, key)
  {
    PlainFirstIsEdited(lines, key, key);
    NoLineIsNone(lines, key);
  }

  lemma NewLineLoads(key: string, v: string)
    requires ValidKey(key)
    ensures Names(key)(key + "=" + FormatValue(v))
    ensures Assignment(key + "=" + FormatValue(v)).value.1 == Escape(v)
    ensures EditorPrefix(key + "=" + FormatValue(v), key) == Some(key + "=")
  {
    FormatThenUnquote(v);
    AssignmentOf("", key, FormatValue(v));
    var line := key + "=" + FormatValue(v);
    assert "" + line == line;
    PlainPrefix("", key, FormatValue(v));
    assert "" + key == key;
  }

  /** What the loader sees under the edited key. */
  lemma LoadedAfterSet(lines: seq<string>, key: string, v: string)
    requires ValidKey(key)
    ensures Loaded(Edited(lines, key, Some(v)), key)
         == if EditorOwns(lines, key) then Some(Escape(v)) else Loaded(lines, key)
  {
    OwnsByShape(lines, key);
    if Any(Edits(key), lines) {
      LoadedEdited(lines, key, v, key);
    } else {
      var kept, line := PopBlank(lines), key + "=" + FormatValue(v);
      PopBlankSplits(lines);
      NewLineLoads(key, v);
      LoadedConcat(kept, [line, ""], key);
      LoadedSome(lines, key);
      assert Loaded([line, ""], key) == Some(Escape(v));
    }
  }

  lemma TrimMember(s: string, c: char)
    requires c in Trim(s)
    ensures c in s
  {
    TrimSplits(s);
  }

  lemma AssignmentChars(line: string, c: char)
    requires Assignment(line).Some? && c in Assignment(line).value.1
    ensures c in line
  {
    var t := Trim(line);
    IndexOfFirst(t, '=');
    TrimMember(t[IndexOf(t, '=') + 1..], c);
    TrimMember(line, c);
  }

  /** No value the loader takes from a text contains a newline. */
  lemma {:induction false} LoadedOneLine(lines: seq<string>, k: string)
    requires NoneContains(lines, NEWLINE)
    ensures Loaded(lines, k).Some? ==> NEWLINE !in Loaded(lines, k).value
  {
    if lines != [] {
      LoadedOneLine(lines[1..], k);
      assert lines[0] in lines;
      if Names(k)(lines[0]) && NEWLINE in Assignment(lines[0]).value.1 {
        AssignmentChars(lines[0], NEWLINE);
      }
    }
  }

  /** Setting a key and reloading gives the value back exactly when the value has neither a double
      quote nor a newline, in a file where the first `KEY=` comes before any `KEY =`, or that has no
      line of the key at all. In any other file a one-line value has no effect on what is loaded. */
  lemma SetThenLoad(contents: string, key: string, v: string)
    requires ValidKey(key)
    ensures EditorOwns(Lines(contents), key) ==>
      (Loaded(Lines(Applied(contents, key, Some(v))), key) == Some(v) <==> QUOTE !in v && NEWLINE !in v)
    ensures !EditorOwns(Lines(contents), key) && NEWLINE !in v ==>
      Loaded(Lines(Applied(contents, key, Some(v))), key) == Loaded(Lines(contents), key)
  {
    var after := Applied(contents, key, Some(v));
    if NEWLINE in v {
      SplitPieces(after, NEWLINE);
      LoadedOneLine(Lines(after), key);
    } else {
      EscapeFixed(v);
      AppliedLines(contents, key, Some(v));
      LoadedAfterSet(Lines(contents), key, v);
      LoadedSome(Edited(Lines(contents), key, Some(v)), key);
      LoadedSome(Lines(contents), key);
      LoadedBlank(key);
    }
  }

  lemma LoadedBlank(k: string)
    ensures Loaded([""], k) == None
  {
    LoadedOne("", k);
  }

  /** After removing a key the loader sees none, exactly when no line of the file is `KEY =`. */
  lemma UnsetThenLoad(contents: string, key: string)
    requires ValidKey(key)
    ensures Loaded(Lines(Applied(contents, key, None)), key).None?
       <==> forall line | line in Lines(contents) :: !SpacedLine(key, line)
  {
    AppliedLines(contents, key, None);
    LoadedRemoved(Lines(contents), key);
    LoadedBlank(key);
  }

  /** Removing a key leaves of its own names, `KEY` and `export KEY`, the lines with white space before
      the equals sign, and every other variable as it was. So a variable loads as before exactly if it
      is not one of these names, or its first line is not a plain one, or the first of the lines left
      says the same. */
  lemma UnsetOthersLoad(contents: string, key: string, k: string)
    requires ValidKey(key)
    ensures var (lines, after) := (Lines(contents), Lines(Applied(contents, key, None)));
      && Loaded(after, k) == (if OfKey(k, key) then Loaded(Filter(Spaced(k), lines), k) else Loaded(lines, k))
      && (Loaded(after, k) == Loaded(lines, k)
          <==> !OfKey(k, key) || !PlainFirst(lines, k) || Loaded(Filter(Spaced(k), lines), k) == Loaded(lines, k))
  {
    var lines := Lines(contents);
    RemovedText(contents, key, k);
    RemovedIsFilter(lines, key);
    PlainFirstIsEdited(lines, key, k);
    if !FirstNamedIsEdited(lines, key, k) {
      KeptLoads(lines, key, k);
    }
    if OfKey(k, key) {
      forall line | line in lines && Names(k)(line) ensures NotEdited(key)(line) <==> Spaced(k)(line) {
        NamedKinds(key, k, line);
      }
      SameFilterLoads(NotEdited(key), Spaced(k), lines, k);
    }
  }

  /** Only the lines that name a variable matter to it. */
  lemma {:induction false} SameFilterLoads(p: string -> bool, q: string -> bool, lines: seq<string>, k: string)
    requires forall line | line in lines && Names(k)(line) :: p(line) <==> q(line)
    ensures Loaded(Filter(p, lines), k) == Loaded(Filter(q, lines), k)
  {
    if lines != [] {
      var line, rest := lines[0], lines[1..];
      assert line in lines && forall other | other in rest :: other in lines;
      SameFilterLoads(p, q, rest, k);
      FilteredFirst(p, lines, k);
      FilteredFirst(q, lines, k);
    }
  }

  lemma FilteredFirst(p: string -> bool, lines: seq<string>, k: string)
    requires lines != []
    ensures Loaded(Filter(p, lines), k)
         == if p(lines[0]) && Names(k)(lines[0]) then Some(Assignment(lines[0]).value.1) else Loaded(Filter(p, lines[1..]), k)
  {
    LoadedConcat(if p(lines[0]) then [lines[0]] else [], Filter(p, lines[1..]), k);
    LoadedOne(lines[0], k);
  }

  lemma RemovedText(contents: string, key: string, k: string)
    requires ValidKey(key)
    ensures Loaded(Lines(Applied(contents, key, None)), k) == Loaded(FlatMap(Editor(key, None), Lines(contents)), k)
  {
    AppliedLines(contents, key, None);
    LoadedBlank(k);
  }

  lemma {:induction false} KeptLoads(lines: seq<string>, key: string, k: string)
    requires !FirstNamedIsEdited(lines, key, k)
    ensures Loaded(Filter(NotEdited(key), lines), k) == Loaded(lines, k)
  {
    if lines != [] {
      FilteredFirst(NotEdited(key), lines, k);
      if !Names(k)(lines[0]) {
        KeptLoads(lines[1..], key, k);
      }
    }
  }

  /** Every other variable loads as before, but for the one that the loader makes of
      `export KEY=`. */
  lemma OtherKeysLoad(contents: string, key: string, value: Option<string>, k: string)
    requires ValidKey(key) && !OfKey(k, key)
    requires value.Some? ==> NEWLINE !in value.value
    ensures Loaded(Lines(Applied(contents, key, value)), k) == Loaded(Lines(contents), k)
  {
    var lines := Lines(contents);
    AppliedLines(contents, key, value);
    LoadedOther(lines, key, value, k);
    LoadedBlank(k);
    if !Any(Edits(key), lines) && value.Some? {
      AppendedOther(lines, key, value.value, k);
    }
  }

  lemma AppendedOther(lines: seq<string>, key: string, v: string, k: string)
    requires ValidKey(key) && k != key && !Any(Edits(key), lines)
    ensures Loaded(Edited(lines, key, Some(v)), k) == Loaded(lines, k)
  {
    var line := key + "=" + FormatValue(v);
    PopBlankSplits(lines);
    NewLineLoads(key, v);
    LoadedBlank(k);
    LoadedConcat(PopBlank(lines), [line, ""], k);
    assert [line, ""][1..] == [""];
  }

  /** And that one, `export KEY`, loads as before exactly if its first line has white space before the
      equals sign, or there is none, or it held the new value already. */
  lemma ExportedKeyLoads(contents: string, key: string, v: string, k: string)
    requires ValidKey(key) && Exported(k, key) && NEWLINE !in v
    ensures var lines := Lines(contents);
      Loaded(Lines(Applied(contents, key, Some(v))), k) == Loaded(lines, k)
      <==> !PlainFirst(lines, k) || Loaded(lines, k) == Some(Escape(v))
  {
    var lines := Lines(contents);
    AppliedLines(contents, key, Some(v));
    LoadedBlank(k);
    PlainFirstIsEdited(lines, key, k);
    if Any(Edits(key), lines) {
      LoadedEdited(lines, key, v, k);
    } else {
      AppendedOther(lines, key, v, k);
    }
  }

  /** Setting twice is setting once, with the last value. */
  lemma SetTwice(contents: string, key: string, first: string, last: string)
    requires ValidKey(key) && NEWLINE !in first
    ensures Applied(Applied(contents, key, Some(first)), key, Some(last)) == Applied(contents, key, Some(last))
  {
    var lines := Lines(contents);
    AppliedLines(contents, key, Some(first));
    if Any(Edits(key), lines) {
      EditedTwice(lines, key, first, Some(last));
    } else {
      EditAppended(lines, key, first, Some(last));
    }
  }

  /** A second edit after one that appended the key meets only the appended line. */
  lemma EditAppended(lines: seq<string>, key: string, v: string, value: Option<string>)
    requires ValidKey(key) && !Any(Edits(key), lines)
    ensures Edited(Edited(lines, key, Some(v)), key, value)
         == PopBlank(lines) + if value.None? then [""] else [key + "=" + FormatValue(value.value), ""]
  {
    var kept, line := PopBlank(lines), key + "=" + FormatValue(v);
    var once := kept + [line, ""];
    NewLineLoads(key, v);
    UneditedPrefix(lines, key);
    assert FlatMap(Editor(key, value), once) == FlatMap(Editor(key, value), kept) + FlatMap(Editor(key, value), [line, ""]) by {
      FlatMapConcat(Editor(key, value), kept, [line, ""]);
    }
    NothingEdited(kept, key, value);
    EditPair(line, key, value);
    assert Any(Edits(key), once) by {
      assert Edits(key)(once[|kept|]);
    }
  }

  lemma UneditedPrefix(lines: seq<string>, key: string)
    requires !Any(Edits(key), lines)
    ensures !Any(Edits(key), PopBlank(lines))
  {
    var kept := PopBlank(lines);
    PopBlankSplits(lines);
    AnyConcat(Edits(key), kept, lines[|kept|..]);
    assert lines == kept + lines[|kept|..];
  }

  lemma EditPair(line: string, key: string, value: Option<string>)
    requires ValidKey(key) && EditorPrefix(line, key) == Some(key + "=")
    ensures FlatMap(Editor(key, value), [line, ""])
         == if value.None? then [""] else [key + "=" + FormatValue(value.value), ""]
  {
    assert EditorPrefix("", key) == None;
    assert [line, ""][1..] == [""] && [""][1..] == [];
    assert FlatMap(Editor(key, value), [""]) == [""] + FlatMap(Editor(key, value), []);
  }

  lemma {:induction false} PopBlankText(contents: string)
    ensures Join(PopBlank(Lines(contents)), NEWLINE) == DropTrailing(contents, NEWLINE)
    ensures PopBlank(Lines(contents)) == [] <==> DropTrailing(contents, NEWLINE) == ""
  {
    if contents == "" {
      assert PopBlank([""]) == [];
    } else if contents[|contents| - 1] == NEWLINE {
      var shorter := contents[..|contents| - 1];
      PopBlankText(shorter);
      PopBlankNewline(shorter);
      assert shorter + [NEWLINE] == contents;
    } else {
      SplitLast(contents, NEWLINE);
      JoinSplit(contents, NEWLINE);
      assert PopBlank(Lines(contents)) == Lines(contents);
    }
  }

  lemma PopBlankNewline(shorter: string)
    ensures PopBlank(Lines(shorter + [NEWLINE])) == PopBlank(Lines(shorter))
    ensures DropTrailing(shorter + [NEWLINE], NEWLINE) == DropTrailing(shorter, NEWLINE)
  {
    var contents := shorter + [NEWLINE];
    SplitConcat(shorter, "", NEWLINE);
    assert contents + "" == contents && contents[..|shorter|] == shorter;
    assert (Lines(shorter) + [""])[..|Lines(shorter)|] == Lines(shorter);
  }

  /** Setting and then removing an absent key restores the file up to its trailing newlines. */
  lemma SetThenUnset(contents: string, key: string, v: string)
    requires ValidKey(key) && NEWLINE !in v && !Any(Edits(key), Lines(contents))
    ensures var body := DropTrailing(contents, NEWLINE);
      Applied(Applied(contents, key, Some(v)), key, None) == if body == "" then "" else body + [NEWLINE]
  {
    var lines := Lines(contents);
    AppliedLines(contents, key, Some(v));
    EditAppended(lines, key, v, None);
    PopBlankText(contents);
    var kept := PopBlank(lines);
    if kept == [] {
      assert kept + [""] == [""];
    } else {
      JoinAppend(kept, "", NEWLINE);
    }
  }

  // ---------------------------------------------------------------- files that fail

  lemma SpacedLoads(key: string, gap: string, rest: string)
    requires ValidKey(key) && gap != "" && AllSpace(gap) && Tight(rest)
    ensures SpacedLine(key, key + gap + "=" + rest) && !PlainLine(key, key + gap + "=" + rest)
    ensures Loaded([key + gap + "=" + rest], key) == Some(Unquote(rest))
  {
    var line := key + gap + "=" + rest;
    KeyIsName(key);
    assert "" + line == line && line[0] == key[0];
    AssignmentSpaced("", key, gap, rest);
    SpacedParts(key, line, gap, rest);
    SpacedIsNotEdited(key, line);
    LoadedOne(line, key);
  }

  lemma SpacedIsNotOwned(key: string, line: string)
    requires SpacedLine(key, line) && !PlainLine(key, line)
    ensures !EditorOwns([line], key)
  {
    assert [line][0] == line;
  }

  /** In a file of one line `KEY =x`, whatever the key and the value, neither setting nor unsetting
      the key has any effect. */
  lemma SpacedKeyStays(key: string, gap: string, rest: string, v: string)
    requires ValidKey(key) && gap != "" && AllSpace(gap) && Tight(rest)
    requires NEWLINE !in gap && NEWLINE !in rest && NEWLINE !in v
    ensures var contents := key + gap + "=" + rest;
      && Loaded(Lines(Applied(contents, key, Some(v))), key) == Some(Unquote(rest))
      && Loaded(Lines(Applied(contents, key, None)), key) == Some(Unquote(rest))
  {
    var contents := key + gap + "=" + rest;
    assert NEWLINE !in contents;
    SplitPieces(contents, NEWLINE);
    SpacedLoads(key, gap, rest);
    SpacedIsNotOwned(key, contents);
    SetThenLoad(contents, key, v);
    LineKinds(key, contents);
    UnsetOthersLoad(contents, key, key);
  }

  lemma ExportIsNotOwned(key: string, gap: string, rest: string)
    requires ValidKey(key) && gap != "" && AllSpace(gap)
    ensures var line := EXPORT + (gap + (key + "=" + rest)); ExportLine(key, line) && !EditorOwns([line], key) && !Names(key)(line)
  {
    var line, name := EXPORT + (gap + (key + "=" + rest)), EXPORT + gap + key;
    assert "" + line == line && "" + (name + "=" + rest) == line;
    ExportedPrefix("", gap, key, rest);
    ExportedName(gap, key);
    AssignmentOf("", name, rest);
    assert |name| > |key|;
    LineKinds(key, line);
    ExportAlone(key, line);
  }

  lemma ExportAlone(key: string, line: string)
    requires ExportLine(key, line) && !PlainLine(key, line)
    ensures !EditorOwns([line], key)
  {
    assert line in [line] && [line][1..] == [] && !PlainFirst([], key);
  }

  /** In a file of one line `export KEY=x` setting the key leaves it unset. */
  lemma ExportedKeyStaysUnset(key: string, gap: string, rest: string, v: string)
    requires ValidKey(key) && gap != "" && AllSpace(gap)
    requires NEWLINE !in gap && NEWLINE !in rest && NEWLINE !in v
    ensures var contents := EXPORT + (gap + (key + "=" + rest));
      Loaded(Lines(contents), key) == None && Loaded(Lines(Applied(contents, key, Some(v))), key) == None
  {
    var contents := EXPORT + (gap + (key + "=" + rest));
    assert NEWLINE !in EXPORT && NEWLINE !in contents;
    SplitPieces(contents, NEWLINE);
    ExportIsNotOwned(key, gap, rest);
    LoadedOne(contents, key);
    SetThenLoad(contents, key, v);
  }

  /** A file without a line of the key gets one that loads the escaped value. */
  lemma EmptyFileSet(key: string, v: string)
    requires ValidKey(key) && NEWLINE !in v
    ensures Loaded(Lines(Applied("", key, Some(v))), key) == Some(Escape(v))
  {
    AppliedLines("", key, Some(v));
    BlankHasNoKey(key);
    LoadedAfterSet([""], key, v);
    LoadedBlank(key);
  }

  lemma BlankHasNoKey(key: string)
    requires ValidKey(key)
    ensures Lines("") == [""] && EditorOwns([""], key)
  {
    assert TrimStart("") == "" && AfterExport("") == "";
    assert NoLineOf([""], key);
  }

  /** A lone double quote comes back with the backslash the editor put before it. */
  lemma QuoteComesBackEscaped(key: string, v: string)
    requires ValidKey(key) && v == [QUOTE]
    ensures Loaded(Lines(Applied("", key, Some(v))), key) == Some(['\\', QUOTE])
  {
    EscapedQuote(v);
    assert NEWLINE !in v;
    EmptyFileSet(key, v);
  }

  lemma EscapedQuote(v: string)
    requires v == [QUOTE]
    ensures Escape(v) == ['\\', QUOTE]
  {
    assert v[1..] == [];
  }
}
