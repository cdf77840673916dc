/** The per-conversation memo two hooks share. A fire loads it, selects hits against it and,
    in live mode only, records what it injects. */
module RecallMemo {
  import opened Wrappers
  import opened Seqs
  import opened RecallSelect

  const PER_FIRE_CAP := 3
  const PER_CONVERSATION_CAP := 10

  datatype Mode = Shadow | Live

  /** What the prompt classifier decided; only `Evaluate` reaches recall. */
  datatype Gate = Generative | Skip | Evaluate

  /** One hook fire. A recall that timed out or failed has no hits. */
  datatype Fire =
    | Prompt(gate: Gate, mode: Mode, floors: Floors, recall: Option<seq<Hit>>)
    | SessionStart(mode: Mode, floors: Floors, recall: Option<seq<Hit>>)

  function IdOf(): Hit -> string { (hit: Hit) => hit.id }

  function Ids(hits: seq<Hit>): seq<string> { Map(IdOf(), hits) }

  function IdSet(ids: seq<string>): set<string> { set id | id in ids }

  function HitsOf(fire: Fire): seq<Hit> {
    if fire.recall.Some? then fire.recall.value else []
  }

  function Chosen(memo: set<string>, fire: Fire): seq<Hit> {
    SelectHits(HitsOf(fire), memo, fire.floors, PER_FIRE_CAP, PER_CONVERSATION_CAP)
  }

  /** The ids a fire puts into the conversation. */
  function Injected(memo: set<string>, fire: Fire): seq<string> {
    if fire.mode.Shadow? || (fire.Prompt? && !fire.gate.Evaluate?) then [] else Ids(Chosen(memo, fire))
  }

  function After(memo: set<string>, fire: Fire): set<string> {
    memo + IdSet(Injected(memo, fire))
  }

  // ---------------------------------------------------------------- the hooks

  class Conversation {
    /** The ids in the memo file; none while there is no file. A file that cannot be read holds no
        ids. */
    var file: Option<set<string>>

    function Memo(): set<string>
      reads this
    {
      if file.Some? then file.value else {}
    }

    method RecordSurfaced(ids: seq<string>)
      modifies this
      ensures file == Some(old(Memo()) + IdSet(ids))
    {
      var merged := Memo();
      for i := 0 to |ids|
        invariant merged == Memo() + IdSet(ids[..i])
        invariant file == old(file)
      {
        assert ids[..i + 1] == ids[..i] + [ids[i]];
        merged := merged + {ids[i]};
      }
      assert ids[..|ids|] == ids;
      file := Some(merged);
    }

    method PromptRecall(gate: Gate, mode: Mode, floors: Floors, recall: Option<seq<Hit>>) returns (block: seq<string>)
      modifies this
      ensures block == Injected(old(Memo()), Prompt(gate, mode, floors, recall))
      ensures Memo() == After(old(Memo()), Prompt(gate, mode, floors, recall))
      ensures block == [] ==> file == old(file)
    {
      if gate.Generative? || gate.Skip? {
        return [];
      }
      var hits := if recall.Some? then recall.value else [];
      var selected := SelectHits(hits, Memo(), floors, PER_FIRE_CAP, PER_CONVERSATION_CAP);
      if mode.Live? && selected != [] {
        RecordSurfaced(Ids(selected));
        return Ids(selected);
      }
      return [];
    }

    method SessionStartRecall(mode: Mode, floors: Floors, recall: Option<seq<Hit>>) returns (block: seq<string>)
      modifies this
      ensures block == Injected(old(Memo()), SessionStart(mode, floors, recall))
      ensures Memo() == After(old(Memo()), SessionStart(mode, floors, recall))
      ensures block == [] ==> file == old(file)
    {
      var hits := if recall.Some? then recall.value else [];
      var selected := SelectHits(hits, Memo(), floors, PER_FIRE_CAP, PER_CONVERSATION_CAP);
      if mode.Live? && selected != [] {
        RecordSurfaced(Ids(selected));
        return Ids(selected);
      }
      return [];
    }

    /** The session-end hook deletes the memo file, if there is one, and reports whether there was. */
    method ClearSurfaced() returns (removed: bool)
      modifies this
      ensures Memo() == {} && file == None
      ensures removed <==> old(file).Some?
    {
      removed := file.Some?;
      file := None;
    }
  }

  // ---------------------------------------------------------------- one fire

  predicate DistinctIds(hits: seq<Hit>) {
    forall i, j | 0 <= i < j < |hits| :: hits[i].id != hits[j].id
  }

  /** `part` is `whole` with some elements left out. */
  predicate InOrder<A(==)>(part: seq<A>, whole: seq<A>) {
    part == [] || (whole != [] &&
      ((part[0] == whole[0] && InOrder(part[1..], whole[1..])) || InOrder(part, whole[1..])))
  }

  lemma {:induction false} FilterInOrder(p: Hit -> bool, hits: seq<Hit>, n: nat)
    ensures InOrder(Take(Filter(p, hits), n), hits)
    decreases hits, n
  {
    if hits != [] {
      var rest := Filter(p, hits[1..]);
      if p(hits[0]) {
        assert Filter(p, hits)[1..] == rest;
        if n > 0 {
          FilterInOrder(p, hits[1..], n - 1);
          assert Take(Filter(p, hits), n)[1..] == Take(rest, n - 1);
        }
      } else {
        assert [] + rest == rest;
        FilterInOrder(p, hits[1..], n);
      }
    }
  }

  lemma {:induction false} FilterDistinct(p: Hit -> bool, hits: seq<Hit>)
    requires DistinctIds(hits)
    ensures DistinctIds(Filter(p, hits))
  {
    if hits != [] {
      FilterDistinct(p, hits[1..]);
      FilterMembers(p, hits[1..]);
      var rest := Filter(p, hits[1..]);
      forall i | 0 <= i < |rest| ensures rest[i].id != hits[0].id {
        assert rest[i] in hits[1..];
      }
    }
  }

  /** A fire chooses at most three hits, in the order recall ranked them, none already in the
      memo, and never enough to take the memo past ten. */
  lemma ChosenFacts(memo: set<string>, fire: Fire)
    ensures |Chosen(memo, fire)| <= PER_FIRE_CAP
    ensures |memo| <= PER_CONVERSATION_CAP ==> |memo| + |Chosen(memo, fire)| <= PER_CONVERSATION_CAP
    ensures |memo| >= PER_CONVERSATION_CAP ==> Chosen(memo, fire) == []
    ensures InOrder(Chosen(memo, fire), HitsOf(fire))
    ensures forall hit | hit in Chosen(memo, fire) :: hit.id !in memo
    ensures DistinctIds(HitsOf(fire)) ==> DistinctIds(Chosen(memo, fire))
  {
    var eligible := Eligible(fire.floors.absolute, RelativeCut(HitsOf(fire), fire.floors), memo);
    FilterInOrder(eligible, HitsOf(fire), Limit(PER_FIRE_CAP, PER_CONVERSATION_CAP, memo));
    FilterMembers(eligible, HitsOf(fire));
    assert forall hit | hit in Chosen(memo, fire) :: eligible(hit);
    if DistinctIds(HitsOf(fire)) {
      FilterDistinct(eligible, HitsOf(fire));
    }
  }

  /** What a live fire that reaches recall injects: of the hits that clear both floors, the relative
      one taken from their median score, and are not in the memo, at most three and never past ten,
      and all of them while these caps leave room. */
  lemma LiveFireInjects(memo: set<string>, fire: Fire, m: real)
    requires fire.mode.Live? && (fire.Prompt? ==> fire.gate.Evaluate?)
    requires HitsOf(fire) != [] ==> UpperMedian(HitsOf(fire), m)
    ensures var injected := Injected(memo, fire);
      && (forall id | id in injected :: exists hit :: hit in HitsOf(fire) && hit.id == id && Wanted(hit, memo, fire.floors, m))
      && |injected| <= 3 && (injected != [] ==> |memo| + |injected| <= 10)
      && (|injected| < 3 && |memo| + |injected| < 10 ==>
            forall hit | hit in HitsOf(fire) && Wanted(hit, memo, fire.floors, m) :: hit.id in injected)
  {
    var (chosen, injected) := (Chosen(memo, fire), Injected(memo, fire));
    SelectedExactly(HitsOf(fire), memo, fire.floors, PER_FIRE_CAP, PER_CONVERSATION_CAP, m);
    MapAt(IdOf(), chosen);
    forall id | id in injected ensures exists hit :: hit in HitsOf(fire) && hit.id == id && Wanted(hit, memo, fire.floors, m) {
      var i :| 0 <= i < |injected| && injected[i] == id;
      assert chosen[i] in chosen;
    }
    forall hit | hit in chosen ensures hit.id in injected {
      var i :| 0 <= i < |chosen| && chosen[i] == hit;
      assert injected[i] == hit.id;
    }
  }

  lemma InjectedFacts(memo: set<string>, fire: Fire)
    ensures |Injected(memo, fire)| <= PER_FIRE_CAP
    ensures |memo| <= PER_CONVERSATION_CAP ==> |memo| + |Injected(memo, fire)| <= PER_CONVERSATION_CAP
    ensures |memo| >= PER_CONVERSATION_CAP ==> Injected(memo, fire) == []
    ensures forall id | id in Injected(memo, fire) :: id !in memo
    ensures DistinctIds(HitsOf(fire)) ==> Distinct(Injected(memo, fire))
  {
    ChosenFacts(memo, fire);
    MapAt(IdOf(), Chosen(memo, fire));
  }

  lemma {:induction false} IdSetSize(ids: seq<string>)
    ensures |IdSet(ids)| <= |ids|
    ensures Distinct(ids) ==> |IdSet(ids)| == |ids|
  {
    if ids != [] {
      IdSetSize(ids[1..]);
      assert ids == [ids[0]] + ids[1..];
      assert IdSet(ids) == {ids[0]} + IdSet(ids[1..]);
    }
  }

  // ---------------------------------------------------------------- whole conversations, one fire at a time

  function RunFires(memo: set<string>, fires: seq<Fire>): set<string>
    decreases fires
  {
    if fires == [] then memo else RunFires(After(memo, fires[0]), fires[1..])
  }

  /** What each fire of a conversation injects. */
  function InjectedBy(memo: set<string>, fires: seq<Fire>): (r: seq<seq<string>>)
    ensures |r| == |fires|
    decreases fires
  {
    if fires == [] then [] else [Injected(memo, fires[0])] + InjectedBy(After(memo, fires[0]), fires[1..])
  }

  function TotalInjected(injected: seq<seq<string>>): nat {
    if injected == [] then 0 else |injected[0]| + TotalInjected(injected[1..])
  }

  predicate DistinctRecalls(fires: seq<Fire>) {
    forall fire | fire in fires :: DistinctIds(HitsOf(fire))
  }

  lemma InjectedByStep(memo: set<string>, fires: seq<Fire>)
    requires fires != []
    ensures InjectedBy(memo, fires)[0] == Injected(memo, fires[0])
    ensures InjectedBy(memo, fires)[1..] == InjectedBy(After(memo, fires[0]), fires[1..])
  {
  }

  /** No fire injects an id that the memo held before the run, or more than three ids. */
  lemma {:induction false} FiresInjectFresh(memo: set<string>, fires: seq<Fire>, i: nat)
    requires i < |fires|
    ensures |InjectedBy(memo, fires)[i]| <= PER_FIRE_CAP
    ensures IdSet(InjectedBy(memo, fires)[i]) !! memo
    decreases fires
  {
    InjectedByStep(memo, fires);
    InjectedFacts(memo, fires[0]);
    if i > 0 {
      FiresInjectFresh(After(memo, fires[0]), fires[1..], i - 1);
      assert InjectedBy(memo, fires)[i] == InjectedBy(memo, fires)[1..][i - 1];
    }
  }

  /** No id is injected by two fires. */
  lemma {:induction false} NoRepeat(memo: set<string>, fires: seq<Fire>, i: nat, j: nat)
    requires i < j < |fires|
    ensures IdSet(InjectedBy(memo, fires)[i]) !! IdSet(InjectedBy(memo, fires)[j])
    decreases fires
  {
    InjectedByStep(memo, fires);
    assert InjectedBy(memo, fires)[j] == InjectedBy(memo, fires)[1..][j - 1];
    if i == 0 {
      FiresInjectFresh(After(memo, fires[0]), fires[1..], j - 1);
    } else {
      NoRepeat(After(memo, fires[0]), fires[1..], i - 1, j - 1);
      assert InjectedBy(memo, fires)[i] == InjectedBy(memo, fires)[1..][i - 1];
    }
  }

  function AllIds(injected: seq<seq<string>>): set<string> {
    if injected == [] then {} else IdSet(injected[0]) + AllIds(injected[1..])
  }

  /** The memo is what it was plus the union of everything injected. */
  lemma {:induction false} MemoIsUnion(memo: set<string>, fires: seq<Fire>)
    ensures RunFires(memo, fires) == memo + AllIds(InjectedBy(memo, fires))
    decreases fires
  {
    if fires != [] {
      InjectedByStep(memo, fires);
      MemoIsUnion(After(memo, fires[0]), fires[1..]);
    }
  }

  /** The memo never passes ten ids; when no recall repeats an id, it grows by exactly what is
      injected. */
  lemma {:induction false} MemoCapped(memo: set<string>, fires: seq<Fire>)
    requires |memo| <= PER_CONVERSATION_CAP
    ensures |RunFires(memo, fires)| <= PER_CONVERSATION_CAP
    ensures DistinctRecalls(fires) ==> |RunFires(memo, fires)| == |memo| + TotalInjected(InjectedBy(memo, fires))
    decreases fires
  {
    if fires != [] {
      var first := Injected(memo, fires[0]);
      InjectedByStep(memo, fires);
      InjectedFacts(memo, fires[0]);
      IdSetSize(first);
      assert IdSet(first) !! memo;
      assert |After(memo, fires[0])| == |memo| + |IdSet(first)|;
      assert forall fire | fire in fires[1..] :: fire in fires;
      MemoCapped(After(memo, fires[0]), fires[1..]);
    }
  }

  /** A run over two parts is a run over the second from where the first ended. */
  lemma {:induction false} RunConcat(memo: set<string>, a: seq<Fire>, b: seq<Fire>)
    ensures RunFires(memo, a + b) == RunFires(RunFires(memo, a), b)
    ensures InjectedBy(memo, a + b) == InjectedBy(memo, a) + InjectedBy(RunFires(memo, a), b)
    decreases a
  {
    if a == [] {
      assert a + b == b;
    } else {
      var next := After(memo, a[0]);
      RunConcat(next, a[1..], b);
      assert (a + b)[0] == a[0] && (a + b)[1..] == a[1..] + b;
      Associate([Injected(memo, a[0])], InjectedBy(next, a[1..]), InjectedBy(RunFires(next, a[1..]), b));
    }
  }

  lemma ShadowAlone(memo: set<string>, fire: Fire)
    requires fire.mode.Shadow? || (fire.Prompt? && !fire.gate.Evaluate?)
    ensures RunFires(memo, [fire]) == memo && InjectedBy(memo, [fire]) == [[]]
  {
    assert IdSet([]) == {} && memo + {} == memo && [fire][1..] == [];
    assert RunFires(memo, [fire]) == RunFires(After(memo, fire), []);
    assert InjectedBy(memo, [fire]) == [Injected(memo, fire)] + InjectedBy(After(memo, fire), []);
  }

  /** A shadow fire, like a gated prompt, injects nothing and changes nothing: not the memo, and not
      what any other fire of the conversation injects. */
  lemma ShadowChangesNothing(memo: set<string>, before: seq<Fire>, fire: Fire, after: seq<Fire>)
    requires fire.mode.Shadow? || (fire.Prompt? && !fire.gate.Evaluate?)
    ensures RunFires(memo, before + [fire] + after) == RunFires(memo, before + after)
    ensures var without := InjectedBy(memo, before + after);
      InjectedBy(memo, before + [fire] + after) == without[..|before|] + [[]] + without[|before|..]
  {
    RunConcat(memo, before + [fire], after);
    RunConcat(memo, before, [fire]);
    RunConcat(memo, before, after);
    ShadowAlone(RunFires(memo, before), fire);
    CutBetween(InjectedBy(memo, before), InjectedBy(RunFires(memo, before), after));
  }

  lemma CutBetween<A>(a: seq<A>, b: seq<A>)
    ensures (a + b)[..|a|] == a && (a + b)[|a|..] == b
  {
  }
}
