/** Text as the repository's line editors use it: splitting on one character, joining back,
    trimming, and searching for a substring. */
module Text {
  import opened Seqs

  const NEWLINE := '\n'

  // ---------------------------------------------------------------- white space

  /** The characters that JavaScript's `trim` and `\s` treat as white space. */
  predicate IsSpace(c: char) {
    var n := c as int;
    9 <= n <= 13 || n == 32 || n == 160 || n == 0x1680 || 0x2000 <= n <= 0x200a
    || n == 0x2028 || n == 0x2029 || n == 0x202f || n == 0x205f || n == 0x3000 || n == 0xfeff
  }

  predicate AllSpace(s: string) {
    forall c | c in s :: IsSpace(c)
  }

  /** Starts and ends with something other than white space, or is empty. */
  predicate Tight(s: string) {
    s != "" ==> !IsSpace(s[0]) && !IsSpace(s[|s| - 1])
  }

  function TrimStart(s: string): string {
    if s != "" && IsSpace(s[0]) then TrimStart(s[1..]) else s
  }

  /** What `TrimStart` removes. */
  function LeadSpace(s: string): string {
    if s != "" && IsSpace(s[0]) then [s[0]] + LeadSpace(s[1..]) else ""
  }

  function TrimEnd(s: string): string {
    if s != "" && IsSpace(s[|s| - 1]) then TrimEnd(s[..|s| - 1]) else s
  }

  /** What `TrimEnd` removes. */
  function TailSpace(s: string): string {
    if s != "" && IsSpace(s[|s| - 1]) then TailSpace(s[..|s| - 1]) + [s[|s| - 1]] else ""
  }

  function Trim(s: string): string {
    TrimEnd(TrimStart(s))
  }

  lemma {:induction false} TrimStartSplits(s: string)
    ensures s == LeadSpace(s) + TrimStart(s)
    ensures AllSpace(LeadSpace(s))
    ensures TrimStart(s) != "" ==> !IsSpace(TrimStart(s)[0])
  {
    if s != "" && IsSpace(s[0]) {
      TrimStartSplits(s[1..]);
      assert s == [s[0]] + s[1..];
    }
  }

  lemma {:induction false} TrimEndSplits(s: string)
    ensures s == TrimEnd(s) + TailSpace(s)
    ensures AllSpace(TailSpace(s))
    ensures TrimEnd(s) != "" ==> !IsSpace(TrimEnd(s)[|TrimEnd(s)| - 1])
    ensures TrimEnd(s) != "" ==> TrimEnd(s)[0] == s[0]
  {
    if s != "" && IsSpace(s[|s| - 1]) {
      TrimEndSplits(s[..|s| - 1]);
      assert s == s[..|s| - 1] + [s[|s| - 1]];
    }
  }

  /** Every text is its trimmed core between two runs of white space. */
  lemma TrimSplits(s: string)
    ensures s == LeadSpace(s) + Trim(s) + TailSpace(TrimStart(s))
    ensures Tight(Trim(s))
  {
    var t := TrimStart(s);
    TrimStartSplits(s);
    TrimEndSplits(t);
    Associate(LeadSpace(s), TrimEnd(t), TailSpace(t));
  }

  lemma {:induction false} TrimStartPadded(before: string, s: string)
    requires AllSpace(before)
    requires s != "" ==> !IsSpace(s[0])
    ensures TrimStart(before + s) == s && LeadSpace(before + s) == before
  {
    if before == "" {
      assert before + s == s;
    } else {
      TrimStartPadded(before[1..], s);
      assert (before + s)[1..] == before[1..] + s;
    }
  }

  lemma {:induction false} TrimEndPadded(s: string, after: string)
    requires AllSpace(after)
    requires s != "" ==> !IsSpace(s[|s| - 1])
    ensures TrimEnd(s + after) == s
  {
    if after == "" {
      assert s + after == s;
    } else {
      var shorter := after[..|after| - 1];
      TrimEndPadded(s, shorter);
      assert (s + after)[..|s + after| - 1] == s + shorter;
    }
  }

  /** White space around a tight text trims away. */
  lemma TrimPadded(before: string, core: string, after: string)
    requires AllSpace(before) && AllSpace(after) && Tight(core)
    ensures Trim(before + core + after) == core
  {
    if core == "" {
      assert before + core + after == (before + after) + "";
      TrimStartPadded(before + after, "");
    } else {
      assert before + core + after == before + (core + after);
      TrimStartPadded(before, core + after);
      TrimEndPadded(core, after);
    }
  }

  lemma AllSpaceConcat(a: string, b: string)
    requires AllSpace(a) && AllSpace(b)
    ensures AllSpace(a + b)
  {
  }

  lemma TrimAround(before: string, s: string, after: string)
    requires AllSpace(before) && AllSpace(after)
    ensures Trim(before + s + after) == Trim(s)
  {
    var left, core, right := LeadSpace(s), Trim(s), TailSpace(TrimStart(s));
    TrimSplits(s);
    TrimStartSplits(s);
    TrimEndSplits(TrimStart(s));
    AllSpaceConcat(before, left);
    AllSpaceConcat(right, after);
    TrimPadded(before + left, core, right + after);
    RegroupAround(before, left, core, right, after);
  }

  lemma RegroupAround(a: string, b: string, c: string, d: string, e: string)
    ensures a + (b + c + d) + e == (a + b) + c + (d + e)
  {
  }

  lemma TrimFixed(s: string)
    requires Tight(s)
    ensures Trim(s) == s && TrimEnd(s) == s && TrimStart(s) == s
  {
  }

  // ---------------------------------------------------------------- splitting

  /** The pieces of `[x] + s`, given the pieces of `s`. */
  function Grow(x: char, rest: seq<string>, c: char): seq<string>
    requires |rest| >= 1
  {
    if x == c then [""] + rest else [[x] + rest[0]] + rest[1..]
  }

  /** The pieces of `s` between the occurrences of `c`. */
  function Split(s: string, c: char): (r: seq<string>)
    ensures |r| >= 1
  {
    if s == "" then [""] else Grow(s[0], Split(s[1..], c), c)
  }

  function Join(lines: seq<string>, c: char): string {
    if |lines| == 0 then "" else if |lines| == 1 then lines[0] else lines[0] + [c] + Join(lines[1..], c)
  }

  predicate NoneContains(lines: seq<string>, c: char) {
    forall line | line in lines :: c !in line
  }

  lemma {:induction false} SplitPieces(s: string, c: char)
    ensures NoneContains(Split(s, c), c)
    ensures c !in s ==> Split(s, c) == [s]
  {
    if s != "" {
      SplitPieces(s[1..], c);
      assert s == [s[0]] + s[1..];
    }
  }

  lemma {:induction false} JoinSplit(s: string, c: char)
    ensures Join(Split(s, c), c) == s
  {
    if s != "" {
      JoinSplit(s[1..], c);
      JoinGrow(s[0], Split(s[1..], c), c);
    }
  }

  lemma JoinGrow(x: char, rest: seq<string>, c: char)
    requires |rest| >= 1
    ensures Join(Grow(x, rest, c), c) == [x] + Join(rest, c)
  {
    var g := Grow(x, rest, c);
    if x == c {
      assert g[1..] == rest;
    } else if |rest| > 1 {
      assert g[1..] == rest[1..];
      assert [x] + (rest[0] + [c] + Join(rest[1..], c)) == ([x] + rest[0]) + [c] + Join(rest[1..], c);
    }
  }

  lemma {:induction false} SplitConcat(a: string, b: string, c: char)
    ensures Split(a + [c] + b, c) == Split(a, c) + Split(b, c)
  {
    if a == "" {
      assert a + [c] + b == [c] + b;
    } else {
      var s := a + [c] + b;
      assert s[0] == a[0] && s[1..] == a[1..] + [c] + b;
      SplitConcat(a[1..], b, c);
      GrowConcat(a[0], Split(a[1..], c), Split(b, c), c);
    }
  }

  lemma GrowConcat(x: char, first: seq<string>, second: seq<string>, c: char)
    requires |first| >= 1
    ensures Grow(x, first + second, c) == Grow(x, first, c) + second
  {
    assert (first + second)[1..] == first[1..] + second;
  }

  lemma {:induction false} SplitJoin(lines: seq<string>, c: char)
    requires |lines| >= 1 && NoneContains(lines, c)
    ensures Split(Join(lines, c), c) == lines
  {
    SplitPieces(lines[0], c);
    if |lines| > 1 {
      SplitJoin(lines[1..], c);
      SplitConcat(lines[0], Join(lines[1..], c), c);
      assert [lines[0]] + lines[1..] == lines;
    } else {
      assert lines == [lines[0]];
    }
  }

  lemma {:induction false} JoinAppend(lines: seq<string>, line: string, c: char)
    requires |lines| >= 1
    ensures Join(lines + [line], c) == Join(lines, c) + [c] + line
  {
    assert (lines + [line])[1..] == lines[1..] + [line];
    if |lines| > 1 {
      JoinAppend(lines[1..], line, c);
      Associate(lines[0] + [c], Join(lines[1..], c) + [c], line);
      Associate(lines[0] + [c], Join(lines[1..], c), [c]);
    }
  }

  lemma {:induction false} SplitLast(s: string, c: char)
    requires s != "" && s[|s| - 1] != c
    ensures Split(s, c)[|Split(s, c)| - 1] != ""
  {
    if |s| > 1 {
      SplitLast(s[1..], c);
    }
  }

  /** The text without its trailing `c`s. */
  function DropTrailing(s: string, c: char): string {
    if s != "" && s[|s| - 1] == c then DropTrailing(s[..|s| - 1], c) else s
  }

  // ---------------------------------------------------------------- searching

  /** `indexOf` of one character: its first position, or -1. */
  function IndexOf(s: string, c: char): int {
    if s == "" then -1
    else if s[0] == c then 0
    else
      var i := IndexOf(s[1..], c);
      if i < 0 then -1 else i + 1
  }

  lemma {:induction false} IndexOfFirst(s: string, c: char)
    ensures -1 <= IndexOf(s, c) < |s|
    ensures c in s <==> IndexOf(s, c) >= 0
    ensures c in s ==> s[IndexOf(s, c)] == c && c !in s[..IndexOf(s, c)]
  {
    if s != "" {
      IndexOfFirst(s[1..], c);
      assert s == [s[0]] + s[1..];
      var i := IndexOf(s[1..], c);
      if s[0] != c && i >= 0 {
        assert s[..i + 1] == [s[0]] + s[1..][..i];
      }
    }
  }

  lemma {:induction false} IndexOfAfter(a: string, c: char, b: string)
    requires c !in a
    ensures IndexOf(a + [c] + b, c) == |a|
  {
    if a != "" {
      IndexOfAfter(a[1..], c, b);
      assert (a + [c] + b)[1..] == a[1..] + [c] + b;
    }
  }

  /** Does `pat` occur in `s` at position `i`? */
  predicate OccursAt(s: string, pat: string, i: int) {
    0 <= i && i + |pat| <= |s| && s[i..i + |pat|] == pat
  }

  ghost predicate Occurs(s: string, pat: string) {
    exists i :: OccursAt(s, pat, i)
  }

  /** `indexOf(pat, from)`: the first occurrence at or after `from`, or -1. */
  function Find(s: string, pat: string, from: nat): (r: int)
    requires from <= |s|
    ensures r >= 0 ==> from <= r && r + |pat| <= |s|
    decreases |s| - from
  {
    if OccursAt(s, pat, from) then from
    else if from < |s| then Find(s, pat, from + 1)
    else -1
  }

  lemma {:induction false} FindFirst(s: string, pat: string, from: nat)
    requires from <= |s|
    ensures -1 <= Find(s, pat, from)
    ensures Find(s, pat, from) >= 0 ==> from <= Find(s, pat, from) && OccursAt(s, pat, Find(s, pat, from))
    ensures forall i | from <= i && (Find(s, pat, from) < 0 || i < Find(s, pat, from)) :: !OccursAt(s, pat, i)
    decreases |s| - from
  {
    if !OccursAt(s, pat, from) && from < |s| {
      FindFirst(s, pat, from + 1);
    }
  }

  lemma FindAt(s: string, pat: string, from: nat, at: nat)
    requires from <= at && OccursAt(s, pat, at)
    requires forall i | from <= i < at :: !OccursAt(s, pat, i)
    ensures Find(s, pat, from) == at
  {
    FindFirst(s, pat, from);
  }
}
