/** Hook processes of one conversation that overlap: each loads the memo and selects, and only
    later records. Recording is one step. */
module RecallInterleaved {
  import opened Wrappers
  import opened Seqs
  import opened RecallSelect
  import opened RecallMemo

  /** The ids a process has selected and not yet recorded. */
  type Pending = seq<string>

  /** The memo and what each of the processes has in flight. */
  datatype State = State(memo: set<string>, pending: seq<Pending>)

  datatype Event =
    | Load(worker: nat, fire: Fire)
    | Record(worker: nat)
    | Clear

  /** A worker with ids in flight records before it serves another fire. */
  function Next(s: State, e: Event): State {
    match e
    case Load(w, fire) =>
      if w < |s.pending| && s.pending[w] == [] then s.(pending := s.pending[w := Injected(s.memo, fire)]) else s
    case Record(w) =>
      if w < |s.pending| then State(s.memo + IdSet(s.pending[w]), s.pending[w := []]) else s
    case Clear => s.(memo := {})
  }

  function Run(s: State, events: seq<Event>): State
    decreases events
  {
    if events == [] then s else Run(Next(s, events[0]), events[1..])
  }

  function InFlight(pending: seq<Pending>): nat {
    if pending == [] then 0 else |pending[0]| + InFlight(pending[1..])
  }

  /** Ten ids for the conversation, and a fire's cap for every further process. */
  function Bound(workers: nat): nat
    requires workers >= 1
  {
    PER_CONVERSATION_CAP + PER_FIRE_CAP * (workers - 1)
  }

  /** The inductive invariant: the memo together with everything in flight. */
  predicate Within(s: State) {
    && |s.pending| >= 1
    && (forall w | 0 <= w < |s.pending| :: |s.pending[w]| <= PER_FIRE_CAP)
    && |s.memo| + InFlight(s.pending) <= Bound(|s.pending|)
  }

  lemma {:induction false} InFlightUpdate(pending: seq<Pending>, w: nat, ids: Pending)
    requires w < |pending|
    ensures InFlight(pending[w := ids]) == InFlight(pending) - |pending[w]| + |ids|
  {
    if w > 0 {
      InFlightUpdate(pending[1..], w - 1, ids);
      assert pending[w := ids][1..] == pending[1..][w - 1 := ids];
    } else {
      assert pending[0 := ids][1..] == pending[1..];
    }
  }

  lemma {:induction false} InFlightBound(pending: seq<Pending>)
    requires forall w | 0 <= w < |pending| :: |pending[w]| <= PER_FIRE_CAP
    ensures InFlight(pending) <= PER_FIRE_CAP * |pending|
  {
    if pending != [] {
      InFlightBound(pending[1..]);
    }
  }

  lemma {:induction false} OthersBound(pending: seq<Pending>, w: nat)
    requires w < |pending| && forall v | 0 <= v < |pending| :: |pending[v]| <= PER_FIRE_CAP
    ensures InFlight(pending) - |pending[w]| <= PER_FIRE_CAP * (|pending| - 1)
  {
    if w > 0 {
      OthersBound(pending[1..], w - 1);
    } else {
      InFlightBound(pending[1..]);
    }
  }

  /** Every step keeps the invariant. */
  lemma StepKeepsWithin(s: State, e: Event)
    requires Within(s)
    ensures Within(Next(s, e)) && |Next(s, e).pending| == |s.pending|
  {
    match e {
      case Load(w, fire) =>
        if w < |s.pending| && s.pending[w] == [] {
          var ids := Injected(s.memo, fire);
          InjectedFacts(s.memo, fire);
          InFlightUpdate(s.pending, w, ids);
          OthersBound(s.pending, w);
        }
      case Record(w) =>
        if w < |s.pending| {
          InFlightUpdate(s.pending, w, []);
          IdSetSize(s.pending[w]);
          assert |s.memo + IdSet(s.pending[w])| <= |s.memo| + |IdSet(s.pending[w])|;
        }
      case Clear =>
    }
  }

  /** A clear at any moment empties the memo and leaves what is in flight, so that ids selected before it
      can still be recorded behind it. */
  lemma {:induction false} ClearForgets(s: State, events: seq<Event>)
    ensures Run(s, events + [Clear]) == State({}, Run(s, events).pending)
    decreases events
  {
    if events == [] {
      assert Run(s, [Clear]) == Run(Next(s, Clear), [Clear][1..]);
      assert [] + [Clear] == [Clear];
    } else {
      ClearForgets(Next(s, events[0]), events[1..]);
      assert (events + [Clear])[1..] == events[1..] + [Clear];
    }
  }

  function Start(workers: nat): State {
    State({}, seq(workers, w => []))
  }

  lemma {:induction false} NothingInFlight(pending: seq<Pending>)
    requires forall w | 0 <= w < |pending| :: pending[w] == []
    ensures InFlight(pending) == 0
  {
    if pending != [] {
      NothingInFlight(pending[1..]);
    }
  }

  lemma {:induction false} RunKeepsWithin(s: State, events: seq<Event>)
    requires Within(s)
    ensures Within(Run(s, events)) && |Run(s, events).pending| == |s.pending|
    decreases events
  {
    if events != [] {
      StepKeepsWithin(s, events[0]);
      RunKeepsWithin(Next(s, events[0]), events[1..]);
    }
  }

  /** However `workers` processes interleave, the memo never holds more than the bound. */
  lemma MemoBounded(workers: nat, events: seq<Event>)
    requires workers >= 1
    ensures |Run(Start(workers), events).memo| <= Bound(workers)
  {
    NothingInFlight(Start(workers).pending);
    RunKeepsWithin(Start(workers), events);
  }

  // ---------------------------------------------------------------- the bound is attained

  lemma {:induction false} RunConcat(s: State, a: seq<Event>, b: seq<Event>)
    ensures Run(s, a + b) == Run(Run(s, a), b)
    decreases a
  {
    if a == [] {
      assert a + b == b;
    } else {
      RunConcat(Next(s, a[0]), a[1..], b);
      assert (a + b)[1..] == a[1..] + b;
    }
  }

  function Name(n: nat): (r: string)
    ensures |r| == n
  {
    if n == 0 then "" else ['s'] + Name(n - 1)
  }

  /** `count` hits named from `first` on, all of one score. */
  function FreshHits(first: nat, count: nat): (r: seq<Hit>)
    ensures |r| == count && forall i | 0 <= i < count :: r[i] == Hit(Name(first + i), 1.0)
    decreases count
  {
    if count == 0 then [] else [Hit(Name(first), 1.0)] + FreshHits(first + 1, count - 1)
  }

  function FreshFire(first: nat, count: nat): Fire {
    Prompt(Evaluate, Live, Floors(0.0, 0.0), Some(FreshHits(first, count)))
  }

  function NamesFrom(first: nat, count: nat): set<string> { set i | first <= i < first + count :: Name(i) }

  function Names(n: nat): set<string> { NamesFrom(0, n) }

  lemma NamesGrow(n: nat, count: nat)
    ensures Names(n + count) == Names(n) + NamesFrom(n, count)
  {
  }

  /** The ids of a fresh fire, as a set. */
  lemma FreshIdSet(known: nat, first: nat, count: nat)
    requires known <= first && count <= PER_FIRE_CAP && known + count <= PER_CONVERSATION_CAP
    ensures IdSet(Injected(Names(known), FreshFire(first, count))) == NamesFrom(first, count)
  {
    var ids := Injected(Names(known), FreshFire(first, count));
    FreshInjected(known, first, count);
    forall i | first <= i < first + count ensures Name(i) in ids {
      assert ids[i - first] == Name(i);
    }
  }

  lemma {:induction false} NamesSize(n: nat)
    ensures |Names(n)| == n
  {
    if n > 0 {
      NamesSize(n - 1);
      assert Names(n) == Names(n - 1) + {Name(n - 1)};
      assert forall i | 0 <= i < n - 1 :: |Name(i)| == i;
      assert Name(n - 1) !in Names(n - 1);
    }
  }

  /** A fire with fresh hits injects them all while the budget lasts. */
  lemma FreshInjected(known: nat, first: nat, count: nat)
    requires known <= first && count <= PER_FIRE_CAP && known + count <= PER_CONVERSATION_CAP
    ensures |Injected(Names(known), FreshFire(first, count))| == count
    ensures forall i | 0 <= i < count :: Injected(Names(known), FreshFire(first, count))[i] == Name(first + i)
  {
    var fire, hits, memo := FreshFire(first, count), FreshHits(first, count), Names(known);
    NamesSize(known);
    var eligible := Eligible(0.0, RelativeCut(hits, fire.floors), memo);
    forall hit | hit in hits ensures eligible(hit) {
      var i :| 0 <= i < count && hits[i] == hit;
      assert |hit.id| == first + i;
    }
    FilterAll(eligible, hits);
    MapAt(IdOf(), hits);
  }

  /** The memo at seven, one process after the other loads three fresh ids: `loaded` of them
      are done. */
  lemma {:induction false} LoadAll(s: State, loaded: nat) returns (events: seq<Event>)
    requires s.memo == Names(7) && loaded <= |s.pending|
    requires forall w | 0 <= w < |s.pending| :: s.pending[w] == []
    ensures Run(s, events).memo == Names(7) && |Run(s, events).pending| == |s.pending|
    ensures forall w | 0 <= w < |s.pending| ::
        IdSet(Run(s, events).pending[w]) == (if w < loaded then NamesFrom(7 + 3 * w, 3) else {})
    ensures forall w | loaded <= w < |s.pending| :: Run(s, events).pending[w] == []
  {
    if loaded == 0 {
      events := [];
    } else {
      var before := LoadAll(s, loaded - 1);
      var w := loaded - 1;
      var first := 7 + 3 * w;
      var load := Load(w, FreshFire(first, 3));
      events := before + [load];
      RunConcat(s, before, [load]);
      var t := Run(s, before);
      assert Run(t, [load]) == Next(t, load);
      FreshIdSet(7, first, 3);
    }
  }

  /** Then they all record. */
  lemma {:induction false} RecordAll(s: State, done: nat) returns (events: seq<Event>)
    requires s.memo == Names(7) && done <= |s.pending|
    requires forall w | 0 <= w < |s.pending| :: IdSet(s.pending[w]) == NamesFrom(7 + 3 * w, 3)
    ensures Run(s, events).memo == Names(7 + 3 * done) && |Run(s, events).pending| == |s.pending|
    ensures forall w | done <= w < |s.pending| :: Run(s, events).pending[w] == s.pending[w]
  {
    if done == 0 {
      events := [];
    } else {
      var before := RecordAll(s, done - 1);
      var w := done - 1;
      events := before + [Record(w)];
      RunConcat(s, before, [Record(w)]);
      var t := Run(s, before);
      assert Run(t, [Record(w)]) == Next(t, Record(w));
      NamesGrow(7 + 3 * w, 3);
    }
  }

  /** One process alone brings the memo to seven. */
  lemma Warmup(workers: nat) returns (events: seq<Event>)
    requires workers >= 1
    ensures Run(Start(workers), events) == State(Names(7), Start(workers).pending)
  {
    var s0 := Start(workers);
    assert Names(0) == {};
    var e1 := FireAlone(s0, 0, 3);
    var s1 := State(Names(3), s0.pending);
    var e2 := FireAlone(s1, 3, 3);
    var s2 := State(Names(6), s0.pending);
    var e3 := FireAlone(s2, 6, 1);
    RunConcat(s0, e1, e2);
    RunConcat(s0, e1 + e2, e3);
    events := e1 + e2 + e3;
  }

  lemma FireAlone(s: State, known: nat, count: nat) returns (events: seq<Event>)
    requires |s.pending| >= 1 && s.pending[0] == [] && s.memo == Names(known)
    requires count <= PER_FIRE_CAP && known + count <= PER_CONVERSATION_CAP
    ensures Run(s, events) == State(Names(known + count), s.pending)
  {
    var load := Load(0, FreshFire(known, count));
    events := [load, Record(0)];
    FreshIdSet(known, known, count);
    NamesGrow(known, count);
    var ids := Injected(Names(known), FreshFire(known, count));
    TwoSteps(s, load, Record(0));
    assert s.pending[0 := ids][0 := []] == s.pending;
  }

  lemma TwoSteps(s: State, a: Event, b: Event)
    ensures Run(s, [a, b]) == Next(Next(s, a), b)
  {
    assert [a, b][1..] == [b] && [b][1..] == [];
    assert Run(s, [a, b]) == Run(Next(s, a), [b]) == Run(Next(Next(s, a), b), []);
  }

  /** Some interleaving of `workers` processes fills the memo up to the bound exactly. */
  lemma BoundAttained(workers: nat) returns (events: seq<Event>)
    requires workers >= 1
    ensures |Run(Start(workers), events).memo| == Bound(workers)
  {
    var warm := Warmup(workers);
    var s1 := Run(Start(workers), warm);
    var loads := LoadAll(s1, workers);
    var s2 := Run(s1, loads);
    var records := RecordAll(s2, workers);
    RunConcat(Start(workers), warm, loads);
    RunConcat(Start(workers), warm + loads, records);
    events := warm + loads + records;
    NamesSize(7 + 3 * workers);
  }
}
