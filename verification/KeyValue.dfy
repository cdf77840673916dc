/** A line `key = value`, spelled out, as the `.env` loader and the Codex installer both read it: cut at
    the first equals sign, with the white space around both parts dropped. */
module KeyValue {
  import opened Text
  import opened Seqs

  /** What may stand before the equals sign. */
  predicate KeyText(key: string) {
    key != "" && Tight(key) && '=' !in key
  }

  /** The line is `key = value` with white space anywhere around the two. */
  ghost predicate Spells(line: string, key: string, value: string) {
    Tight(value) && exists w, gap, pad, tail ::
      AllSpace(w) && AllSpace(gap) && AllSpace(pad) && AllSpace(tail) && line == w + (key + gap + "=" + (pad + value + tail))
  }

  lemma SpelledBy(line: string, key: string, value: string, w: string, gap: string, pad: string, tail: string)
    requires AllSpace(w) && AllSpace(gap) && AllSpace(pad) && AllSpace(tail) && Tight(value)
    requires line == w + (key + gap + "=" + (pad + value + tail))
    ensures Spells(line, key, value)
  {
  }

  /** The two parts of a text around its first equals sign, trimmed. */
  ghost predicate CutsTo(core: string, key: string, value: string) {
    IndexOf(core, '=') >= 0 && IndexOf(core, '=') < |core|
    && Trim(core[..IndexOf(core, '=')]) == key && Trim(core[IndexOf(core, '=') + 1..]) == value
  }

  lemma NoEquals(s: string)
    requires AllSpace(s)
    ensures '=' !in s
  {
  }

  lemma TrimKey(key: string, gap: string)
    requires Tight(key) && AllSpace(gap)
    ensures Trim(key + gap) == key
  {
    assert "" + key + gap == key + gap;
    TrimPadded("", key, gap);
  }

  lemma OnlySpace(pad: string, tail: string)
    requires AllSpace(pad) && AllSpace(tail)
    ensures Trim(TrimEnd(pad + tail)) == ""
  {
    AllSpaceConcat(pad, tail);
    assert pad + tail == "" + (pad + tail);
    TrimEndPadded("", pad + tail);
  }

  lemma EndsTight(pad: string, value: string)
    requires Tight(value) && value != ""
    ensures !IsSpace((pad + value)[|pad + value| - 1])
  {
  }

  /** What is left of the text behind the equals sign when the line's end is trimmed. */
  lemma TrimRest(pad: string, value: string, tail: string)
    requires AllSpace(pad) && AllSpace(tail) && Tight(value)
    ensures Trim(TrimEnd(pad + value + tail)) == value
  {
    if value == "" {
      OnlySpace(pad, tail);
      assert pad + value == pad;
    } else {
      EndsTight(pad, value);
      TrimEndPadded(pad + value, tail);
      assert pad + value + "" == pad + value;
      TrimPadded(pad, value, "");
    }
  }

  lemma CoreOf(w: string, name: string, rest: string)
    requires AllSpace(w) && name != "" && !IsSpace(name[0])
    ensures Trim(w + (name + "=" + rest)) == name + "=" + TrimEnd(rest)
  {
    TrimEndSplits(rest);
    var core := name + "=" + TrimEnd(rest);
    assert core[0] == name[0];
    assert core[|core| - 1] == if TrimEnd(rest) == "" then '=' else TrimEnd(rest)[|TrimEnd(rest)| - 1];
    Associate(name + "=", TrimEnd(rest), TailSpace(rest));
    Associate(w, core, TailSpace(rest));
    TrimPadded(w, core, TailSpace(rest));
  }

  /** What a spelled line is cut to. */
  lemma SpelledIsCut(line: string, key: string, value: string)
    requires KeyText(key) && Spells(line, key, value)
    ensures CutsTo(Trim(line), key, value) && Trim(line)[0] == key[0]
  {
    var w, gap, pad, tail :| AllSpace(w) && AllSpace(gap) && AllSpace(pad) && AllSpace(tail)
                          && line == w + (key + gap + "=" + (pad + value + tail));
    var (name, rest) := (key + gap, pad + value + tail);
    NoEquals(gap);
    CoreOf(w, name, rest);
    IndexOfAfter(name, '=', TrimEnd(rest));
    var core := name + "=" + TrimEnd(rest);
    assert core[..|name|] == name && core[|name| + 1..] == TrimEnd(rest);
    TrimKey(key, gap);
    TrimRest(pad, value, tail);
  }

  /** And every line that is cut so is spelled so. */
  lemma CutIsSpelled(line: string, key: string, value: string)
    requires CutsTo(Trim(line), key, value)
    ensures Spells(line, key, value)
  {
    var core, eq := Trim(line), IndexOf(Trim(line), '=');
    var (left, right) := (core[..eq], core[eq + 1..]);
    IndexOfFirst(core, '=');
    assert core == left + "=" + right;
    var w, tail := Around(line);
    var b, d := Around(left);
    var e, g := Around(right);
    TrimSplits(right);
    FromParts(line, left, right, w, b, key, d, e, value, g, tail);
  }

  /** The white space that `Trim` drops, before and behind. */
  lemma Around(s: string) returns (before: string, after: string)
    ensures AllSpace(before) && AllSpace(after) && s == before + Trim(s) + after
  {
    TrimSplits(s);
    TrimStartSplits(s);
    TrimEndSplits(TrimStart(s));
    before, after := LeadSpace(s), TailSpace(TrimStart(s));
  }

  lemma FromParts(line: string, left: string, right: string, a: string, b: string, key: string, d: string, e: string, value: string, g: string, h: string)
    requires AllSpace(a) && AllSpace(b) && AllSpace(d) && AllSpace(e) && AllSpace(g) && AllSpace(h) && Tight(value)
    requires line == a + (left + "=" + right) + h && left == b + key + d && right == e + value + g
    ensures Spells(line, key, value)
  {
    Regroup(a, b, key, d, e, value, g, h);
    AllSpaceConcat(a, b);
    AllSpaceConcat(g, h);
    SpelledBy(line, key, value, a + b, d, e, g + h);
  }

  lemma Regroup(a: string, b: string, c: string, d: string, e: string, f: string, g: string, h: string)
    ensures a + ((b + c + d) + "=" + (e + f + g)) + h == (a + b) + (c + d + "=" + (e + f + (g + h)))
  {
  }
}
