/** What the `.env` loader takes from a file and what the editor writes into one, told from the spelling
    of the lines. */
module EnvSpelling {
  import opened Wrappers
  import opened Text
  import opened Seqs
  import opened KeyValue
  import opened EnvFile
  import opened EnvLines
  import opened EnvRoundTrip

  // ---------------------------------------------------------------- what one line says

  predicate QuoteMark(c: char) {
    c == '"' || c == '\''
  }

  /** The text begins and ends with one and the same quote. */
  predicate InQuotes(text: string) {
    text != "" && QuoteMark(text[0]) && text[|text| - 1] == text[0]
  }

  /** What a value means: between two quotes of one kind the text between them, a lone quote nothing,
      and any other text itself. */
  ghost predicate Means(value: string, text: string) {
    || (exists q :: QuoteMark(q) && value == [q] + text + [q])
    || ((value == "\"" || value == "'") && text == "")
    || (!InQuotes(value) && text == value)
  }

  lemma MeansUnquoted(value: string, text: string)
    ensures Means(value, text) <==> Unquote(value) == text
  {
    forall q | QuoteMark(q) && value == [q] + text + [q] ensures Unquote(value) == text {
      assert value[1..|value| - 1] == text;
    }
    if InQuotes(value) && |value| > 1 {
      assert value == [value[0]] + value[1..|value| - 1] + [value[0]];
    }
  }

  lemma NameIsKey(name: string)
    requires ValidName(name)
    ensures KeyText(name)
  {
  }

  /** The loader takes a line as an assignment exactly if it spells one, to a name that is no comment. */
  lemma AssignmentSpelled(line: string, name: string, text: string)
    ensures Assignment(line) == Some((name, text)) <==> ValidName(name) && exists value :: Spells(line, name, value) && Means(value, text)
  {
    if Assignment(line) == Some((name, text)) {
      AssignedName(line);
      var t := Trim(line);
      IndexOfFirst(t, '=');
      var value := Trim(t[IndexOf(t, '=') + 1..]);
      CutIsSpelled(line, name, value);
      MeansUnquoted(value, text);
    }
    if ValidName(name) {
      forall value | Spells(line, name, value) && Means(value, text) ensures Assignment(line) == Some((name, text)) {
        SpelledAssigns(line, name, value);
        MeansUnquoted(value, text);
      }
    }
  }

  lemma SpelledAssigns(line: string, name: string, value: string)
    requires ValidName(name) && Spells(line, name, value)
    ensures Assignment(line) == Some((name, Unquote(value)))
  {
    NameIsKey(name);
    SpelledIsCut(line, name, value);
  }

  /** The name of an assignment is one that can stand before an equals sign. */
  lemma AssignedName(line: string)
    requires Assignment(line).Some?
    ensures ValidName(Assignment(line).value.0)
  {
    var t := Trim(line);
    IndexOfFirst(t, '=');
    var left := t[..IndexOf(t, '=')];
    TrimSplits(line);
    TrimSplits(left);
    assert left != "" && left[0] == t[0] && !IsSpace(left[0]);
    TrimEndSplits(left);
    assert Trim(left) == TrimEnd(left) && Trim(left)[0] == left[0];
    forall c | c in Trim(left) ensures c in left {
    }
  }

  // ---------------------------------------------------------------- what a file says

  /** The line spells an assignment to the name. */
  ghost predicate AssignsTo(line: string, name: string) {
    exists value :: Spells(line, name, value)
  }

  /** The first line that spells an assignment to the name gives it a value of this meaning. */
  ghost predicate Says(lines: seq<string>, name: string, text: string) {
    exists i: nat, value :: i < |lines| && SaysAt(lines, i, name, value) && Means(value, text)
  }

  ghost predicate SaysAt(lines: seq<string>, i: nat, name: string, value: string)
    requires i < |lines|
  {
    Spells(lines[i], name, value) && forall j | 0 <= j < i :: !AssignsTo(lines[j], name)
  }

  lemma NamesSpelled(line: string, name: string)
    ensures Names(name)(line) <==> ValidName(name) && AssignsTo(line, name)
  {
    if Names(name)(line) {
      AssignmentSpelled(line, name, Assignment(line).value.1);
    }
    if ValidName(name) {
      forall value | Spells(line, name, value) ensures Names(name)(line) {
        SpelledAssigns(line, name, value);
      }
    }
  }

  lemma LoadedFirst(lines: seq<string>, name: string, i: nat)
    requires i < |lines| && Names(name)(lines[i]) && !Any(Names(name), lines[..i])
    ensures Loaded(lines, name) == Some(Assignment(lines[i]).value.1)
  {
    assert lines == lines[..i] + lines[i..];
    LoadedSome(lines[..i], name);
    LoadedConcat(lines[..i], lines[i..], name);
  }

  lemma {:induction false} LoadedFrom(lines: seq<string>, name: string) returns (i: nat)
    requires Loaded(lines, name).Some?
    ensures i < |lines| && Names(name)(lines[i]) && !Any(Names(name), lines[..i])
  {
    if Names(name)(lines[0]) {
      i := 0;
    } else {
      i := LoadedFrom(lines[1..], name);
      AnyTake(Names(name), lines, i);
      i := i + 1;
    }
  }

  lemma FirstNamed(lines: seq<string>, name: string, i: nat, value: string)
    requires i < |lines| && ValidName(name)
    ensures SaysAt(lines, i, name, value) <==> Spells(lines[i], name, value) && Names(name)(lines[i]) && !Any(Names(name), lines[..i])
  {
    forall j | 0 <= j <= i ensures Names(name)(lines[j]) <==> AssignsTo(lines[j], name) {
      NamesSpelled(lines[j], name);
    }
    FirstOf(Names(name), lines, i);
  }

  lemma FirstOf(p: string -> bool, lines: seq<string>, i: nat)
    requires i <= |lines|
    ensures !Any(p, lines[..i]) <==> forall j | 0 <= j < i :: !p(lines[j])
  {
    forall j | 0 <= j < i ensures lines[..i][j] == lines[j] {
    }
  }

  lemma LoadedIsSaid(lines: seq<string>, name: string, text: string)
    requires Loaded(lines, name) == Some(text)
    ensures ValidName(name) && Says(lines, name, text)
  {
    var i := LoadedFrom(lines, name);
    LoadedFirst(lines, name, i);
    AssignmentSpelled(lines[i], name, text);
    var value :| Spells(lines[i], name, value) && Means(value, text);
    FirstNamed(lines, name, i, value);
  }

  lemma SaidIsLoaded(lines: seq<string>, name: string, text: string)
    requires ValidName(name) && Says(lines, name, text)
    ensures Loaded(lines, name) == Some(text)
  {
    var i: nat, value :| i < |lines| && SaysAt(lines, i, name, value) && Means(value, text);
    FirstNamed(lines, name, i, value);
    LoadedFirst(lines, name, i);
    AssignmentSpelled(lines[i], name, text);
  }

  /** What a fresh process sees under a name: for any name that can stand before an equals sign, what the
      first line that spells an assignment to it means, with a pair of quotes of either kind taken off;
      for any other name nothing. */
  lemma LoadedSpelled(lines: seq<string>, name: string, text: string)
    ensures Loaded(lines, name) == Some(text) <==> ValidName(name) && Says(lines, name, text)
  {
    if Loaded(lines, name) == Some(text) {
      LoadedIsSaid(lines, name, text);
    }
    if ValidName(name) && Says(lines, name, text) {
      SaidIsLoaded(lines, name, text);
    }
  }

  lemma PlainlySpelled(name: string, value: string)
    requires Tight(value)
    ensures Spells(name + "=" + value, name, value)
  {
    assert name + "=" + value == "" + (name + "" + "=" + ("" + value + ""));
    SpelledBy(name + "=" + value, name, value, "", "", "", "");
  }

  lemma QuotedMeans(text: string, quote: char)
    requires quote == '"' || quote == '\''
    ensures var value := [quote] + text + [quote]; Tight(value) && Means(value, text)
  {
  }

  /** For instance: a name set in single or in double quotes loads what is between them. */
  lemma QuotedLoads(name: string, text: string, quote: char)
    requires ValidName(name) && (quote == '"' || quote == '\'')
    ensures Loaded([name + "=" + ([quote] + text + [quote])], name) == Some(text)
  {
    var value := [quote] + text + [quote];
    QuotedMeans(text, quote);
    PlainlySpelled(name, value);
    assert SaysAt([name + "=" + value], 0, name, value);
    SaidIsLoaded([name + "=" + value], name, text);
  }

  // ---------------------------------------------------------------- what the editor writes

  /** Takes off the backslash before every double quote. */
  function Unescape(s: string): string {
    if s == "" then ""
    else if |s| > 1 && s[0] == '\\' && s[1] == QUOTE then [QUOTE] + Unescape(s[2..])
    else [s[0]] + Unescape(s[1..])
  }

  lemma {:induction false} EscapeUndone(v: string)
    ensures Unescape(Escape(v)) == v
    ensures forall i | 0 <= i < |Escape(v)| && Escape(v)[i] == QUOTE :: i > 0 && Escape(v)[i - 1] == '\\'
  {
    if v != "" {
      var (rest, e) := (Escape(v[1..]), Escape(v));
      EscapeUndone(v[1..]);
      assert v == [v[0]] + v[1..];
      if v[0] == QUOTE {
        assert e == ['\\', QUOTE] + rest && e[2..] == rest;
      } else {
        assert e == [v[0]] + rest && e[1..] == rest;
      }
      forall i | 0 <= i < |e| && e[i] == QUOTE ensures i > 0 && e[i - 1] == '\\' {
        var k := |e| - |rest|;
        if i >= k {
          assert rest[i - k] == QUOTE;
        }
      }
    }
  }

  lemma SpecialQuoted(v: string)
    requires exists c | c in v :: Special(c)
    ensures FormatValue(v) == "\"" + Escape(v) + "\"" && FormatValue(v) != v
  {
    EscapeFixed(v);
  }

  /** What the editor writes for a value: the value itself if no character of it is white space, a hash
      mark or a quote, and else, between double quotes, the value with a backslash put before each double
      quote and nothing else changed. */
  lemma FormatSpelled(v: string)
    ensures (forall c | c in v :: !IsSpace(c) && c != '#' && c != '"' && c != '\'') <==> FormatValue(v) == v
    ensures FormatValue(v) != v ==>
      exists escaped :: FormatValue(v) == "\"" + escaped + "\"" && Unescape(escaped) == v
                     && forall i | 0 <= i < |escaped| && escaped[i] == '"' :: i > 0 && escaped[i - 1] == '\\'
  {
    EscapeUndone(v);
    if exists c | c in v :: Special(c) {
      SpecialQuoted(v);
    }
  }
}
