/** The lines that the Codex scanners look for, spelled out, and what the scanners make of a file with a
    stale section in the middle. */
module CodexHeaders {
  import opened Wrappers
  import opened Text
  import opened Seqs
  import opened CodexScan
  import opened CodexMigration

  lemma OccursParts(s: string, pat: string, i: int)
    requires OccursAt(s, pat, i)
    ensures s == s[..i] + pat + s[i + |pat|..]
  {
  }

  lemma IncludesParts(s: string, pat: string) returns (i: nat)
    requires Includes(s, pat)
    ensures OccursAt(s, pat, i)
  {
    FindFirst(s, pat, 0);
    i := Find(s, pat, 0);
  }

  lemma IncludedAt(a: string, pat: string, b: string)
    ensures Includes(a + pat + b, pat)
  {
    var s := a + pat + b;
    assert OccursAt(s, pat, |a|);
    FindFirst(s, pat, 0);
  }

  /** An nlm header declares the table itself or a dotted sub-table of it, and no other table whose name
      begins so. */
  lemma NlmHeaderSpelled(line: string)
    ensures IsNlmHeader(line)
       <==> Trim(line) == "[mcp_servers.nlm-memory]" || exists rest :: Trim(line) == "[mcp_servers.nlm-memory." + rest
  {
    var (t, sub) := (Trim(line), NLM_SUBTABLE);
    if IsNlmHeader(line) && !IsNlmTable(line) {
      assert t == sub + t[|sub|..];
    }
    forall rest | t == sub + rest ensures IsNlmHeader(line) {
      assert t[..1] == "[" && sub <= t;
    }
    if t == NLM_TABLE {
      assert t[..1] == "[";
    }
  }

  ghost predicate StaleName(t: string) {
    || (exists a, b :: t == "[" + a + "@nlm-memory-ts" + b + "]")
    || t == "[mcp_servers.nlm-memory-ts]" || t == "[mcp_servers.\"nlm-memory-ts\"]"
  }

  /** A stale header carries the old marketplace suffix, or declares the old table, with its name bare or
      in quotes. */
  lemma StaleHeaderSpelled(line: string)
    ensures IsStaleHeader(line) <==> StaleName(Trim(line))
  {
    var t := Trim(line);
    if IsStaleHeader(line) && Includes(t, LEGACY_SUFFIX) {
      var i := IncludesParts(t, LEGACY_SUFFIX);
      SuffixInside(t, i);
    }
    forall a, b | t == "[" + a + "@nlm-memory-ts" + b + "]" ensures IsStaleHeader(line) {
      IncludedAt("[" + a, LEGACY_SUFFIX, b + "]");
      assert t == ("[" + a) + LEGACY_SUFFIX + (b + "]");
      assert t[..1] == "[";
    }
    if t == LEGACY_TABLE || t == LEGACY_QUOTED_TABLE {
      assert t[..1] == "[";
    }
  }

  lemma SuffixInside(t: string, i: nat)
    requires "[" <= t && t[|t| - 1] == ']' && OccursAt(t, LEGACY_SUFFIX, i)
    ensures exists a, b :: t == "[" + a + "@nlm-memory-ts" + b + "]"
  {
    var past := i + |LEGACY_SUFFIX|;
    assert t[i..past][0] == '@' && t[i..past][|LEGACY_SUFFIX| - 1] == 's';
    assert 1 <= i && past <= |t| - 1;
    var a, b := t[1..i], t[past..|t| - 1];
    assert t == "[" + a + t[i..past] + b + "]";
  }

  predicate StaleCommentAs(t: string, sentinel: string, a: string, b: string) {
    (sentinel == "# >>>" || sentinel == "# <<<") && t == sentinel + a + "nlm-memory-ts" + b
  }

  /** A stale comment is a sentinel of either kind that carries the old name. */
  lemma StaleCommentSpelled(line: string)
    ensures IsStaleComment(line) <==> exists sentinel, a, b :: StaleCommentAs(Trim(line), sentinel, a, b)
  {
    var t := Trim(line);
    if IsStaleComment(line) {
      var i := IncludesParts(t, LEGACY_NAME);
      NameBehind(t, i);
      CommentParts(t, i);
    }
    forall sentinel, a, b | StaleCommentAs(t, sentinel, a, b) ensures IsStaleComment(line) {
      IncludedAt(sentinel + a, LEGACY_NAME, b);
      SentinelFirst(sentinel, a + LEGACY_NAME + b);
      Associate(sentinel, a + LEGACY_NAME, b);
      Associate(sentinel, a, LEGACY_NAME);
    }
  }

  lemma SentinelFirst(sentinel: string, rest: string)
    ensures sentinel <= sentinel + rest
  {
  }

  lemma CommentParts(t: string, i: nat)
    requires ("# >>>" <= t || "# <<<" <= t) && 5 <= i && OccursAt(t, LEGACY_NAME, i)
    ensures StaleCommentAs(t, t[..5], t[5..i], t[i + |LEGACY_NAME|..])
  {
    assert t == t[..5] + t[5..i] + t[i..i + |LEGACY_NAME|] + t[i + |LEGACY_NAME|..];
  }

  lemma NameBehind(t: string, i: nat)
    requires ("# >>>" <= t || "# <<<" <= t) && OccursAt(t, LEGACY_NAME, i)
    ensures i >= 5
  {
    assert t[i] == LEGACY_NAME[0];
  }

  // ---------------------------------------------------------------- a stale section

  predicate NothingStale(lines: seq<string>) {
    forall line | line in lines :: !IsStaleHeader(line) && !IsStaleComment(line)
  }

  predicate NotStale(owner: Option<string>) {
    owner.None? || !IsStaleHeader(owner.value)
  }

  lemma {:induction false} ScanFresh(lines: seq<string>, current: Option<string>)
    requires NothingStale(lines) && (NotStale(current) || lines == [] || IsHeader(lines[0]))
    ensures Scan(Fresh(), lines, current) == lines
    ensures lines != [] || NotStale(current) ==> NotStale(OwnerAfter(lines, current))
  {
    if lines != [] {
      var owner := OwnerFrom(lines[0], current);
      assert lines[0] in lines && forall line | line in lines[1..] :: line in lines;
      ScanFresh(lines[1..], owner);
      assert Fresh()(Tagged(lines[0], owner));
      assert lines == [lines[0]] + lines[1..];
    }
  }

  lemma {:induction false} ScanStale(lines: seq<string>, owner: string)
    requires IsStaleHeader(owner) && forall line | line in lines :: !IsHeader(line)
    ensures Scan(Fresh(), lines, Some(owner)) == [] && OwnerAfter(lines, Some(owner)) == Some(owner)
  {
    if lines != [] {
      assert lines[0] in lines && forall line | line in lines[1..] :: line in lines;
      ScanStale(lines[1..], owner);
      assert !Fresh()(Tagged(lines[0], Some(owner)));
    }
  }

  /** A file with a stale section in the middle, with comments of the old installer anywhere in it: the
      section goes up to the next header, and nothing else. */
  lemma StaleInTheMiddle(before: seq<string>, header: string, body: seq<string>, after: seq<string>)
    requires IsStaleHeader(header) && NothingStale(before) && NothingStale(after) && (after == [] || IsHeader(after[0]))
    requires forall line | line in body :: !IsHeader(line)
    ensures Select(Fresh(), before + ([header] + (body + after))) == before + after
  {
    var rest := [header] + (body + after);
    SelectIsScan(Fresh(), before + rest);
    ScanFresh(before, None);
    ScanConcat(Fresh(), before, rest, None);
    ScanConcatStep(Fresh(), header, body + after, OwnerAfter(before, None));
    assert !Fresh()(Tagged(header, Some(header)));
    ScanConcat(Fresh(), body, after, Some(header));
    ScanStale(body, header);
    ScanFresh(after, Some(header));
    assert [] + ([] + after) == after;
  }

  /** And a lone comment of the old installer goes by itself. */
  lemma StaleCommentGoes(before: seq<string>, comment: string, after: seq<string>)
    requires IsStaleComment(comment) && NothingStale(before) && NothingStale(after)
    ensures Select(Fresh(), before + ([comment] + after)) == before + after
  {
    var rest := [comment] + after;
    var owner := OwnerAfter(before, None);
    SelectIsScan(Fresh(), before + rest);
    ScanFresh(before, None);
    ScanConcat(Fresh(), before, rest, None);
    ScanConcatStep(Fresh(), comment, after, owner);
    assert Trim(comment)[0] == '#';
    assert !IsHeader(comment) && !Fresh()(Tagged(comment, owner));
    ScanFresh(after, owner);
    assert [] + after == after;
  }
}
