/** The checkpointed replay run: three loops over the sampled pairs that save their records to a
    state file, stop when the budget is spent or the process dies, and resume from the file. */
module Replay {
  import opened Wrappers
  import opened Seqs
  import opened ReplayModel

  /** How one invocation of the program ended. */
  datatype Outcome = Crashed | Checkpointed | Finished

  /** Whether a loop ran to its end. */
  datatype Progress = Through | Stopped(outcome: Outcome)

  // ---------------------------------------------------------------- where a pair stands

  /** A pair still to be generated has had at most its first generator call. */
  lemma UngeneratedCase(ph: Phases, sample: seq<Pair>, records: seq<Pair>, i: nat)
    requires LawfulSample(ph, sample) && OnTrack(ph, sample, records)
    requires i < |records| && !GenerationDone(records[i])
    ensures !SettledPair(records[i])
    ensures var p, a, g := records[i], ph.half(sample[i]), ph.generate(sample[i]);
      && (p.responseA.None? ==> Cost(a) == Cost(p) + 1)
      && (p.responseA.Some? ==> p == a)
      && (if GenerationDone(a) then a == g else Cost(g) == Cost(a) + 1)
      && GenerationDone(g)
  {
    UpToAt(ph, sample, |sample|, i);
    EachAt(Placed(ph, sample), records, i);
  }

  /** A generated pair still to be judged is exactly as generation left it. */
  lemma UnjudgedCase(ph: Phases, sample: seq<Pair>, records: seq<Pair>, i: nat)
    requires LawfulSample(ph, sample) && OnTrack(ph, sample, records)
    requires i < |records| && GenerationDone(records[i]) && !JudgingDone(records[i])
    ensures records[i] == ph.generate(sample[i]) && !SettledPair(records[i])
    ensures var j := ph.judge(records[i]); Cost(j) == Cost(records[i]) && GenerationDone(j) && JudgingDone(j)
  {
    UpToAt(ph, sample, |sample|, i);
    EachAt(Placed(ph, sample), records, i);
  }

  /** A pair that generation and judging are done with. */
  lemma JudgedCase(ph: Phases, sample: seq<Pair>, records: seq<Pair>, i: nat)
    requires LawfulSample(ph, sample) && OnTrack(ph, sample, records)
    requires i < |records| && GenerationDone(records[i]) && JudgingDone(records[i])
    ensures var p, j, twice := records[i], Settle(ph)(sample[i]), i in Twice(ph, sample);
      && (p == j || (twice && p == ph.again(j)))
      && (p.doubleJudged ==> twice && p == ph.again(j))
      && p.winner == j.winner && p.order == j.order
      && ph.again(p) == ph.again(j) && Kept(p, ph.again(p)) && Cost(ph.again(p)) == Cost(p)
      && JudgingDone(ph.again(p)) && GenerationDone(ph.again(p))
  {
    UpToAt(ph, sample, |sample|, i);
    EachAt(Placed(ph, sample), records, i);
  }

  lemma KeptTransitive(a: Pair, b: Pair, c: Pair)
    requires Kept(a, b) && Kept(b, c)
    ensures Kept(a, c)
  {
  }

  // ---------------------------------------------------------------- what every saved state keeps

  /** Every generator call made for a pair shows in its record, but for at most one per crash. */
  function Counted(calls: seq<nat>, crashes: nat): (nat, Pair) -> bool {
    (i: nat, p: Pair) => i < |calls| && Cost(p) <= calls[i] <= Cost(p) + crashes
  }

  ghost predicate Accounted(records: seq<Pair>, calls: seq<nat>, crashes: nat) {
    |records| == |calls| && Each(Counted(calls, crashes), records)
  }

  function KeptFrom(before: seq<Pair>): (nat, Pair) -> bool {
    (i: nat, p: Pair) => i < |before| && Kept(before[i], p)
  }

  ghost predicate AllKept(before: seq<Pair>, after: seq<Pair>) {
    |before| == |after| && Each(KeptFrom(before), after)
  }

  ghost predicate Recorded(ph: Phases, sample: seq<Pair>, records: seq<Pair>, calls: seq<nat>, crashes: nat) {
    OnTrack(ph, sample, records) && Accounted(records, calls, crashes)
  }

  lemma Advance(ph: Phases, sample: seq<Pair>, records: seq<Pair>, calls: seq<nat>, crashes: nat, i: nat, q: Pair, spent: nat)
    requires Recorded(ph, sample, records, calls, crashes) && i < |records|
    requires OnPath(ph, sample[i], q, i in Twice(ph, sample)) && Cost(q) == Cost(records[i]) + spent
    ensures Recorded(ph, sample, records[i := q], calls[i := calls[i] + spent], crashes)
  {
    EachUpdate(Placed(ph, sample), records, i, q);
    AccountUpdate(records, calls, crashes, i, q, spent);
  }

  /** A step that costs no generator call. */
  lemma AdvanceFree(ph: Phases, sample: seq<Pair>, records: seq<Pair>, calls: seq<nat>, crashes: nat, i: nat, q: Pair)
    requires Recorded(ph, sample, records, calls, crashes) && i < |records|
    requires OnPath(ph, sample[i], q, i in Twice(ph, sample)) && Cost(q) == Cost(records[i])
    ensures Recorded(ph, sample, records[i := q], calls, crashes)
  {
    Advance(ph, sample, records, calls, crashes, i, q, 0);
    assert calls[i := calls[i] + 0] == calls;
  }

  lemma AccountUpdate(records: seq<Pair>, calls: seq<nat>, crashes: nat, i: nat, q: Pair, spent: nat)
    requires Accounted(records, calls, crashes) && i < |records| && Cost(q) == Cost(records[i]) + spent
    ensures Accounted(records[i := q], calls[i := calls[i] + spent], crashes)
  {
    var records', calls' := records[i := q], calls[i := calls[i] + spent];
    forall j | 0 <= j < |records| ensures Counted(calls', crashes)(j, records'[j]) {
      EachAt(Counted(calls, crashes), records, j);
    }
    EachFrom(Counted(calls', crashes), records');
  }

  /** A crash loses at most the one call whose record was not saved. */
  lemma Lose(ph: Phases, sample: seq<Pair>, records: seq<Pair>, calls: seq<nat>, crashes: nat, i: nat, lost: nat)
    requires Recorded(ph, sample, records, calls, crashes) && i < |records| && lost <= 1
    ensures Recorded(ph, sample, records, calls[i := calls[i] + lost], crashes + 1)
  {
    var calls' := calls[i := calls[i] + lost];
    forall j | 0 <= j < |records| ensures Counted(calls', crashes + 1)(j, records[j]) {
      EachAt(Counted(calls, crashes), records, j);
    }
    EachFrom(Counted(calls', crashes + 1), records);
  }

  lemma LoseNothing(ph: Phases, sample: seq<Pair>, records: seq<Pair>, calls: seq<nat>, crashes: nat)
    requires Recorded(ph, sample, records, calls, crashes)
    ensures Recorded(ph, sample, records, calls, crashes + 1)
  {
    forall j | 0 <= j < |records| ensures Counted(calls, crashes + 1)(j, records[j]) {
      EachAt(Counted(calls, crashes), records, j);
    }
    EachFrom(Counted(calls, crashes + 1), records);
  }

  /** One generator call for pair `i`: its record in memory accounts for it, and if the process dies
      before the save the crash does. */
  ghost predicate CallRecorded(ph: Phases, sample: seq<Pair>, records: seq<Pair>, calls: seq<nat>, crashes: nat, i: nat, q: Pair) {
    && i < |records| && i < |calls|
    && Recorded(ph, sample, records[i := q], calls[i := calls[i] + 1], crashes)
    && Recorded(ph, sample, records, calls[i := calls[i] + 1], crashes + 1)
  }

  lemma CallAdvances(ph: Phases, sample: seq<Pair>, records: seq<Pair>, calls: seq<nat>, crashes: nat, i: nat, q: Pair)
    requires Recorded(ph, sample, records, calls, crashes) && i < |records|
    requires OnPath(ph, sample[i], q, i in Twice(ph, sample)) && Cost(q) == Cost(records[i]) + 1
    ensures CallRecorded(ph, sample, records, calls, crashes, i, q)
  {
    Advance(ph, sample, records, calls, crashes, i, q, 1);
    Lose(ph, sample, records, calls, crashes, i, 1);
  }

  predicate AllGenerated(records: seq<Pair>) {
    forall i | 0 <= i < |records| :: GenerationDone(records[i])
  }

  predicate AllJudged(records: seq<Pair>) {
    forall i | 0 <= i < |records| :: JudgingDone(records[i])
  }

  lemma KeptReflexive(records: seq<Pair>)
    ensures AllKept(records, records)
  {
    EachFrom(KeptFrom(records), records);
  }

  lemma KeptUpdate(records: seq<Pair>, i: nat, q: Pair)
    requires i < |records| && (SettledPair(records[i]) ==> Kept(records[i], q))
    ensures AllKept(records, records[i := q])
  {
    KeptReflexive(records);
    EachUpdate(KeptFrom(records), records, i, q);
  }

  /** Once every pair is judged, the subsample is the one of an uninterrupted run. */
  lemma SubsampleStable(ph: Phases, sample: seq<Pair>, records: seq<Pair>)
    requires LawfulSample(ph, sample) && OnTrack(ph, sample, records) && AllGenerated(records) && AllJudged(records)
    ensures Subsample(ph, records) == Twice(ph, sample)
  {
    var settled := Map(Settle(ph), sample);
    MapAt(Settle(ph), sample);
    forall i | 0 <= i < |sample| ensures records[i].winner == settled[i].winner && records[i].order == settled[i].order {
      JudgedCase(ph, sample, records, i);
    }
    SameSubsample(ph, records, settled);
  }

  lemma UninterruptedAt(ph: Phases, sample: seq<Pair>, i: nat)
    requires i < |sample|
    ensures |Uninterrupted(ph, sample)| == |sample|
    ensures Uninterrupted(ph, sample)[i]
         == if i in Twice(ph, sample) then ph.again(Settle(ph)(sample[i])) else Settle(ph)(sample[i])
  {
    MapAt(Settle(ph), sample);
    MapIndexedAt(Finisher(ph, Twice(ph, sample)), Map(Settle(ph), sample));
  }

  lemma UninterruptedLength(ph: Phases, sample: seq<Pair>)
    ensures |Uninterrupted(ph, sample)| == |sample|
  {
    MapAt(Settle(ph), sample);
    MapIndexedAt(Finisher(ph, Twice(ph, sample)), Map(Settle(ph), sample));
  }

  predicate InRange(positions: seq<nat>, n: nat) {
    forall j | 0 <= j < |positions| :: positions[j] < n
  }

  lemma AllKeptTransitive(a: seq<Pair>, b: seq<Pair>, c: seq<Pair>)
    requires AllKept(a, b) && AllKept(b, c)
    ensures AllKept(a, c)
  {
    forall i | 0 <= i < |a| ensures KeptFrom(a)(i, c[i]) {
      EachAt(KeptFrom(a), b, i);
      EachAt(KeptFrom(b), c, i);
      KeptTransitive(a[i], b[i], c[i]);
    }
    EachFrom(KeptFrom(a), c);
  }

  /** The first `k` pairs of the subsample have been judged again. */
  ghost predicate Redone(ph: Phases, sample: seq<Pair>, records: seq<Pair>, subsample: seq<nat>, k: nat)
    requires k <= |subsample| && |records| == |sample| && InRange(subsample, |records|)
  {
    forall j | 0 <= j < k :: records[subsample[j]] == ph.again(Settle(ph)(sample[subsample[j]]))
  }

  lemma RedoneStep(ph: Phases, sample: seq<Pair>, records: seq<Pair>, subsample: seq<nat>, k: nat)
    requires k < |subsample| && |records| == |sample| && InRange(subsample, |records|)
    requires Redone(ph, sample, records, subsample, k)
    requires ph.again(records[subsample[k]]) == ph.again(Settle(ph)(sample[subsample[k]]))
    ensures Redone(ph, sample, records[subsample[k] := ph.again(records[subsample[k]])], subsample, k + 1)
  {
  }

  /** Judged records whose subsample is done are the records of an uninterrupted run. */
  lemma AllDone(ph: Phases, sample: seq<Pair>, records: seq<Pair>, subsample: seq<nat>)
    requires LawfulSample(ph, sample) && OnTrack(ph, sample, records) && AllGenerated(records) && AllJudged(records)
    requires subsample == Twice(ph, sample) && InRange(subsample, |records|)
    requires Redone(ph, sample, records, subsample, |subsample|)
    ensures records == Uninterrupted(ph, sample)
  {
    UninterruptedLength(ph, sample);
    forall i | 0 <= i < |sample| ensures records[i] == Uninterrupted(ph, sample)[i] {
      UninterruptedAt(ph, sample, i);
      JudgedCase(ph, sample, records, i);
      if i in subsample {
        var k :| 0 <= k < |subsample| && subsample[k] == i;
        assert records[subsample[k]] == ph.again(Settle(ph)(sample[subsample[k]]));
      }
    }
  }

  function NoCalls(n: nat): (r: seq<nat>)
    ensures |r| == n && forall i | 0 <= i < n :: r[i] == 0
  {
    seq(n, i => 0)
  }

  /** The sample as drawn is a recorded state. */
  lemma FreshStart(ph: Phases, sample: seq<Pair>, calls: seq<nat>, crashes: nat)
    requires LawfulSample(ph, sample) && calls == NoCalls(|sample|)
    ensures Recorded(ph, sample, sample, calls, crashes)
  {
    forall i | 0 <= i < |sample| ensures Placed(ph, sample)(i, sample[i]) && Counted(calls, crashes)(i, sample[i]) {
      UpToAt(ph, sample, |sample|, i);
    }
    EachFrom(Placed(ph, sample), sample);
    EachFrom(Counted(calls, crashes), sample);
  }

  /** At most two generator calls a pair, and one more for each crash. */
  predicate CallsBounded(sample: seq<Pair>, calls: seq<nat>, crashes: nat) {
    |calls| == |sample| && forall i | 0 <= i < |sample| :: calls[i] <= 2 + crashes
  }

  lemma CallBound(ph: Phases, sample: seq<Pair>, records: seq<Pair>, calls: seq<nat>, crashes: nat)
    requires LawfulSample(ph, sample) && Recorded(ph, sample, records, calls, crashes)
    ensures CallsBounded(sample, calls, crashes)
  {
    forall i | 0 <= i < |sample| ensures calls[i] <= 2 + crashes {
      UpToAt(ph, sample, |sample|, i);
      EachAt(Placed(ph, sample), records, i);
      EachAt(Counted(calls, crashes), records, i);
      CostBound(ph, sample[i], records[i], i in Twice(ph, sample));
    }
  }

  lemma CostBound(ph: Phases, s: Pair, p: Pair, twice: bool)
    requires LawfulAt(ph, s) && OnPath(ph, s, p, twice)
    ensures Cost(p) <= 2
  {
  }

  /** Which points of a run interrupt it: the process dies there, or a look at the clock finds the
      budget spent. */
  datatype Schedule = Schedule(deadly: nat -> bool, late: nat -> bool) {
    predicate Interrupts(t: nat) { deadly(t) || late(t) }

    /** From point `before` to point `now` time goes on; what did not go well was interrupted at the
        last point. */
    predicate Onward(before: nat, now: nat, well: bool) {
      before <= now && (!well ==> before < now && Interrupts(now - 1))
    }
  }

  /** A report with the records of a run that nothing interrupted. */
  function Undisturbed(ph: Phases, sample: seq<Pair>): (nat, seq<Pair>) -> bool {
    (i: nat, report: seq<Pair>) => report == Uninterrupted(ph, sample)
  }

  class Evaluation {
    const ph: Phases
    const sample: seq<Pair>
    const schedule: Schedule

    /** How many of these points the run has passed, over all invocations. */
    var tick: nat
    /** The state file; replaced atomically, so a crash leaves the old or the new contents. */
    var file: Option<seq<Pair>>
    /** The records in memory, lost when the process ends. */
    var pairs: seq<Pair>
    /** Every report written. */
    var reports: seq<seq<Pair>>

    /** Generator calls made for each pair, over all invocations. */
    ghost var calls: seq<nat>
    ghost var crashes: nat
    /** The report is out and the state file deleted. */
    ghost var done: bool

    constructor (ph: Phases, sample: seq<Pair>, schedule: Schedule)
      requires LawfulSample(ph, sample)
      ensures Valid() && this.ph == ph && this.sample == sample && this.schedule == schedule
      ensures file == None && reports == [] && crashes == 0 && !done && tick == 0
    {
      this.ph, this.sample, this.schedule := ph, sample, schedule;
      file, pairs, reports, tick := None, [], [], 0;
      calls, crashes, done := NoCalls(|sample|), 0, false;
    }

    /** The state file is one a run can leave, and every call is accounted for. */
    ghost predicate Sound()
      reads this
    {
      && LawfulSample(ph, sample)
      && (file.Some? ==> Recorded(ph, sample, file.value, calls, crashes))
      && (file.None? && !done ==> calls == NoCalls(|sample|))
    }

    ghost predicate Valid()
      reads this
    {
      Sound() && Each(Undisturbed(ph, sample), reports)
    }

    /** Memory and file agree. */
    ghost predicate Running()
      reads this
    {
      Sound() && file == Some(pairs)
    }

    method SaveState()
      modifies this`file
      ensures file == Some(pairs)
    {
      file := Some(pairs);
    }

    /** A look at the clock: is the budget spent? */
    method BudgetSpent() returns (spent: bool)
      modifies this`tick
      ensures tick == old(tick) + 1 && spent == schedule.late(old(tick))
    {
      spent := schedule.late(tick);
      tick := tick + 1;
    }

    /** A point where the process may die. */
    method Dies() returns (dies: bool)
      modifies this`tick
      ensures tick == old(tick) + 1 && dies == schedule.deadly(old(tick))
    {
      dies := schedule.deadly(tick);
      tick := tick + 1;
    }

    /** One generator call for pair `i`, recorded in memory only; the process may die before it
        or after it. */
    method Generate(i: nat, q: Pair) returns (dies: bool)
      requires Running() && i < |pairs| && CallRecorded(ph, sample, pairs, calls, crashes, i, q)
      modifies this`pairs, this`calls, this`crashes, this`tick
      ensures dies ==> Sound() && crashes == old(crashes) + 1
      ensures schedule.Onward(old(tick), tick, !dies)
      ensures !dies ==> pairs == old(pairs)[i := q] && crashes == old(crashes)
      ensures !dies ==> Recorded(ph, sample, pairs, calls, crashes)
    {
      dies := Dies();
      if dies {
        Crash();
        return;
      }
      pairs := pairs[i := q];
      dies := ReceiveCall(i, q);
    }

    /** The answer to the call arrives, and the process may die before it is saved. */
    method ReceiveCall(i: nat, ghost q: Pair) returns (dies: bool)
      requires LawfulSample(ph, sample) && file.Some? && CallRecorded(ph, sample, file.value, calls, crashes, i, q)
      modifies this`calls, this`crashes, this`tick
      ensures tick == old(tick) + 1 && dies == schedule.deadly(old(tick))
      ensures dies ==> Sound() && crashes == old(crashes) + 1
      ensures !dies ==> crashes == old(crashes) && Recorded(ph, sample, file.value[i := q], calls, crashes)
    {
      calls := calls[i := calls[i] + 1];
      dies := Dies();
      if dies {
        crashes := crashes + 1;
      }
    }

    /** The process dies with nothing unsaved but what costs no call. */
    method Crash()
      requires Sound() && file.Some?
      modifies this`crashes
      ensures Sound() && crashes == old(crashes) + 1
    {
      LoseNothing(ph, sample, file.value, calls, crashes);
      crashes := crashes + 1;
    }

    /** Arm B of a pair whose arm A is saved. */
    method GenerateRest(i: nat) returns (alive: bool)
      requires Running() && i < |pairs| && pairs[i] == ph.half(sample[i]) && !GenerationDone(pairs[i])
      modifies this`file, this`pairs, this`calls, this`crashes, this`tick
      ensures Sound() && crashes == old(crashes) + if alive then 0 else 1
      ensures schedule.Onward(old(tick), tick, alive)
      ensures file == if alive then Some(old(pairs)[i := ph.generate(sample[i])]) else old(file)
      ensures alive ==> Running()
    {
      UngeneratedCase(ph, sample, pairs, i);
      CallAdvances(ph, sample, pairs, calls, crashes, i, ph.generate(sample[i]));
      var dies := Generate(i, ph.generate(sample[i]));
      if dies {
        return false;
      }
      SaveState();
      return true;
    }

    /** Generates one pair: arm A unless it is already there, then arm B, saving after each. */
    method GeneratePair(i: nat) returns (alive: bool)
      requires Running() && i < |pairs| && !GenerationDone(pairs[i])
      modifies this`file, this`pairs, this`calls, this`crashes, this`tick
      ensures Sound() && crashes == old(crashes) + if alive then 0 else 1
      ensures schedule.Onward(old(tick), tick, alive)
      ensures file == old(file) || file == Some(old(pairs)[i := ph.half(sample[i])])
           || file == Some(old(pairs)[i := ph.generate(sample[i])])
      ensures alive ==> Running() && pairs == old(pairs)[i := ph.generate(sample[i])]
    {
      UngeneratedCase(ph, sample, pairs, i);
      if pairs[i].responseA.None? {
        CallAdvances(ph, sample, pairs, calls, crashes, i, ph.half(sample[i]));
        var dies := Generate(i, ph.half(sample[i]));
        if dies {
          return false;
        }
        SaveState();
        if GenerationDone(pairs[i]) {
          return true;
        }
      }
      ghost var halfway := pairs;
      alive := GenerateRest(i);
      assert halfway[i := ph.generate(sample[i])] == old(pairs)[i := ph.generate(sample[i])];
    }

    /** One turn of the generation loop. */
    method GenerateAt(i: nat) returns (progress: Progress)
      requires Running() && i < |pairs|
      modifies this`file, this`pairs, this`calls, this`crashes, this`tick
      ensures Sound() && file.Some? && AllKept(old(pairs), file.value)
      ensures progress.Through? ==> Running() && crashes == old(crashes) && GenerationDone(pairs[i])
      ensures progress.Through? ==> pairs == old(pairs)[i := pairs[i]]
      ensures progress.Stopped? ==> progress.outcome in {Crashed, Checkpointed}
      ensures schedule.Onward(old(tick), tick, progress.Through?)
      ensures progress.Stopped? ==> crashes == old(crashes) + if progress.outcome.Crashed? then 1 else 0
    {
      KeptReflexive(pairs);
      if GenerationDone(pairs[i]) {
        return Through;
      }
      var spent := BudgetSpent();
      if spent {
        SaveState();
        return Stopped(Checkpointed);
      }
      UngeneratedCase(ph, sample, pairs, i);
      KeptUpdate(pairs, i, ph.half(sample[i]));
      KeptUpdate(pairs, i, ph.generate(sample[i]));
      var alive := GeneratePair(i);
      return if alive then Through else Stopped(Crashed);
    }

    /** The generation loop. */
    method GenerateAll() returns (progress: Progress)
      requires Running()
      modifies this`file, this`pairs, this`calls, this`crashes, this`tick
      ensures Sound() && file.Some? && AllKept(old(pairs), file.value)
      ensures progress.Through? ==> Running() && AllGenerated(pairs) && crashes == old(crashes)
      ensures progress.Stopped? ==> progress.outcome in {Crashed, Checkpointed}
      ensures schedule.Onward(old(tick), tick, progress.Through?)
      ensures progress.Stopped? ==> crashes == old(crashes) + if progress.outcome.Crashed? then 1 else 0
    {
      KeptReflexive(pairs);
      for i := 0 to |pairs|
        invariant Running() && |pairs| == |sample| && crashes == old(crashes) && old(tick) <= tick
        invariant AllKept(old(pairs), pairs)
        invariant AllGenerated(pairs[..i])
      {
        ghost var before := pairs;
        progress := GenerateAt(i);
        AllKeptTransitive(old(pairs), before, file.value);
        if progress.Stopped? {
          return;
        }
        assert pairs[..i + 1] == before[..i] + [pairs[i]];
      }
      assert pairs[..|pairs|] == pairs;
      return Through;
    }

    /** Records what judging made of pair `i` and saves it, if the process lives on. */
    method RecordPair(i: nat, q: Pair) returns (alive: bool)
      requires Running() && i < |pairs| && Recorded(ph, sample, pairs[i := q], calls, crashes)
      modifies this`file, this`pairs, this`crashes, this`tick
      ensures Sound() && crashes == old(crashes) + if alive then 0 else 1
      ensures schedule.Onward(old(tick), tick, alive)
      ensures file == if alive then Some(old(pairs)[i := q]) else old(file)
      ensures alive ==> Running() && pairs == old(pairs)[i := q]
    {
      pairs := pairs[i := q];
      var dies := Dies();
      if dies {
        Crash();
        return false;
      }
      SaveState();
      return true;
    }

    /** Judges one pair. No judge call is made while a pair is ungenerated. */
    method JudgePair(i: nat) returns (alive: bool)
      requires Running() && AllGenerated(pairs) && i < |pairs| && !JudgingDone(pairs[i])
      modifies this`file, this`pairs, this`crashes, this`tick
      ensures Sound() && crashes == old(crashes) + if alive then 0 else 1
      ensures schedule.Onward(old(tick), tick, alive)
      ensures file == old(file) || file == Some(old(pairs)[i := ph.judge(old(pairs[i]))])
      ensures alive ==> Running() && pairs == old(pairs)[i := ph.judge(old(pairs[i]))]
    {
      UnjudgedCase(ph, sample, pairs, i);
      AdvanceFree(ph, sample, pairs, calls, crashes, i, ph.judge(pairs[i]));
      alive := RecordPair(i, ph.judge(pairs[i]));
    }

    /** One turn of the judging loop. */
    method JudgeAt(i: nat) returns (progress: Progress)
      requires Running() && AllGenerated(pairs) && i < |pairs|
      modifies this`file, this`pairs, this`crashes, this`tick
      ensures Sound() && file.Some? && AllKept(old(pairs), file.value)
      ensures progress.Through? ==> Running() && crashes == old(crashes) && AllGenerated(pairs) && JudgingDone(pairs[i])
      ensures progress.Through? ==> pairs == old(pairs)[i := pairs[i]]
      ensures progress.Stopped? ==> progress.outcome in {Crashed, Checkpointed}
      ensures schedule.Onward(old(tick), tick, progress.Through?)
      ensures progress.Stopped? ==> crashes == old(crashes) + if progress.outcome.Crashed? then 1 else 0
    {
      KeptReflexive(pairs);
      if JudgingDone(pairs[i]) {
        return Through;
      }
      var spent := BudgetSpent();
      if spent {
        SaveState();
        return Stopped(Checkpointed);
      }
      UnjudgedCase(ph, sample, pairs, i);
      KeptUpdate(pairs, i, ph.judge(pairs[i]));
      var alive := JudgePair(i);
      return if alive then Through else Stopped(Crashed);
    }

    /** The judging loop. */
    method JudgeAll() returns (progress: Progress)
      requires Running() && AllGenerated(pairs)
      modifies this`file, this`pairs, this`crashes, this`tick
      ensures Sound() && file.Some? && AllKept(old(pairs), file.value)
      ensures progress.Through? ==> Running() && AllGenerated(pairs) && AllJudged(pairs) && crashes == old(crashes)
      ensures progress.Stopped? ==> progress.outcome in {Crashed, Checkpointed}
      ensures schedule.Onward(old(tick), tick, progress.Through?)
      ensures progress.Stopped? ==> crashes == old(crashes) + if progress.outcome.Crashed? then 1 else 0
    {
      KeptReflexive(pairs);
      for i := 0 to |pairs|
        invariant Running() && |pairs| == |sample| && crashes == old(crashes) && old(tick) <= tick
        invariant AllKept(old(pairs), pairs) && AllGenerated(pairs)
        invariant AllJudged(pairs[..i])
      {
        ghost var before := pairs;
        progress := JudgeAt(i);
        AllKeptTransitive(old(pairs), before, file.value);
        if progress.Stopped? {
          return;
        }
        assert pairs[..i + 1] == before[..i] + [pairs[i]];
      }
      assert pairs[..|pairs|] == pairs;
      return Through;
    }

    /** Judges one pair of the subsample again; a failed call leaves it for the next run. */
    method JudgeAgain(i: nat) returns (alive: bool)
      requires Running() && AllGenerated(pairs) && AllJudged(pairs) && i < |pairs| && i in Twice(ph, sample)
      modifies this`file, this`pairs, this`crashes, this`tick
      ensures Sound() && crashes == old(crashes) + if alive then 0 else 1
      ensures schedule.Onward(old(tick), tick, alive)
      ensures file == old(file) || file == Some(old(pairs)[i := ph.again(old(pairs[i]))])
      ensures alive ==> Running() && pairs == old(pairs)[i := ph.again(old(pairs[i]))]
    {
      JudgedCase(ph, sample, pairs, i);
      AdvanceFree(ph, sample, pairs, calls, crashes, i, ph.again(pairs[i]));
      alive := RecordPair(i, ph.again(pairs[i]));
    }

    /** One turn of the double-judging loop. */
    method JudgeAgainAt(subsample: seq<nat>, k: nat) returns (progress: Progress)
      requires Running() && AllGenerated(pairs) && AllJudged(pairs) && subsample == Twice(ph, sample) && InRange(subsample, |pairs|)
      requires k < |subsample| && Redone(ph, sample, pairs, subsample, k)
      modifies this`file, this`pairs, this`crashes, this`tick
      ensures Sound() && file.Some? && AllKept(old(pairs), file.value)
      ensures progress.Through? ==> Running() && crashes == old(crashes) && AllGenerated(pairs) && AllJudged(pairs)
      ensures progress.Through? ==> |pairs| == |sample| && Redone(ph, sample, pairs, subsample, k + 1)
      ensures progress.Stopped? ==> progress.outcome in {Crashed, Checkpointed}
      ensures schedule.Onward(old(tick), tick, progress.Through?)
      ensures progress.Stopped? ==> crashes == old(crashes) + if progress.outcome.Crashed? then 1 else 0
    {
      var i := subsample[k];
      JudgedCase(ph, sample, pairs, i);
      RedoneStep(ph, sample, pairs, subsample, k);
      if pairs[i].doubleJudged {
        KeptReflexive(pairs);
        assert pairs[i := ph.again(pairs[i])] == pairs;
        return Through;
      }
      progress := JudgeAgainNow(i);
    }

    /** The same for a pair that is due. */
    method JudgeAgainNow(i: nat) returns (progress: Progress)
      requires Running() && AllGenerated(pairs) && AllJudged(pairs) && i < |pairs| && i in Twice(ph, sample)
      modifies this`file, this`pairs, this`crashes, this`tick
      ensures Sound() && file.Some? && AllKept(old(pairs), file.value)
      ensures progress.Through? ==> Running() && crashes == old(crashes) && pairs == old(pairs)[i := ph.again(old(pairs[i]))]
      ensures progress.Stopped? ==> progress.outcome in {Crashed, Checkpointed}
      ensures schedule.Onward(old(tick), tick, progress.Through?)
      ensures progress.Stopped? ==> crashes == old(crashes) + if progress.outcome.Crashed? then 1 else 0
    {
      KeptReflexive(pairs);
      JudgedCase(ph, sample, pairs, i);
      var spent := BudgetSpent();
      if spent {
        SaveState();
        return Stopped(Checkpointed);
      }
      KeptUpdate(pairs, i, ph.again(pairs[i]));
      var alive := JudgeAgain(i);
      if alive {
        return Through;
      }
      return Stopped(Crashed);
    }

    /** The double-judging loop over the subsample. */
    method JudgeAllAgain() returns (progress: Progress)
      requires Running() && AllGenerated(pairs) && AllJudged(pairs)
      modifies this`file, this`pairs, this`crashes, this`tick
      ensures Sound() && file.Some? && AllKept(old(pairs), file.value)
      ensures progress.Through? ==> Running() && pairs == Uninterrupted(ph, sample) && crashes == old(crashes)
      ensures progress.Stopped? ==> progress.outcome in {Crashed, Checkpointed}
      ensures schedule.Onward(old(tick), tick, progress.Through?)
      ensures progress.Stopped? ==> crashes == old(crashes) + if progress.outcome.Crashed? then 1 else 0
    {
      SubsampleStable(ph, sample, pairs);
      var subsample := Subsample(ph, pairs);
      assert InRange(subsample, |pairs|) by {
        assert forall j | 0 <= j < |subsample| :: subsample[j] in subsample;
      }
      KeptReflexive(pairs);
      for k := 0 to |subsample|
        invariant Running() && |pairs| == |sample| && crashes == old(crashes) && old(tick) <= tick
        invariant AllKept(old(pairs), pairs) && AllGenerated(pairs) && AllJudged(pairs)
        invariant Redone(ph, sample, pairs, subsample, k)
      {
        ghost var before := pairs;
        progress := JudgeAgainAt(subsample, k);
        AllKeptTransitive(old(pairs), before, file.value);
        if progress.Stopped? {
          return;
        }
      }
      AllDone(ph, sample, pairs, subsample);
      return Through;
    }

    /** The three loops, from records that are saved. */
    method RunLoops() returns (progress: Progress)
      requires Running()
      modifies this`file, this`pairs, this`calls, this`crashes, this`tick
      ensures Sound() && file.Some? && AllKept(old(pairs), file.value)
      ensures progress.Through? ==> Running() && pairs == Uninterrupted(ph, sample) && crashes == old(crashes)
      ensures progress.Stopped? ==> progress.outcome in {Crashed, Checkpointed}
      ensures schedule.Onward(old(tick), tick, progress.Through?)
      ensures progress.Stopped? ==> crashes == old(crashes) + if progress.outcome.Crashed? then 1 else 0
    {
      progress := GenerateAll();
      if progress.Through? {
        ghost var generated := pairs;
        progress := RunJudging();
        AllKeptTransitive(old(pairs), generated, file.value);
      }
    }

    /** Both judging phases of a file whose pairs are all generated. */
    method RunJudging() returns (progress: Progress)
      requires Running() && AllGenerated(pairs)
      modifies this`file, this`pairs, this`crashes, this`tick
      ensures Sound() && file.Some? && AllKept(old(pairs), file.value)
      ensures progress.Through? ==> Running() && pairs == Uninterrupted(ph, sample) && crashes == old(crashes)
      ensures progress.Stopped? ==> progress.outcome in {Crashed, Checkpointed}
      ensures schedule.Onward(old(tick), tick, progress.Through?)
      ensures progress.Stopped? ==> crashes == old(crashes) + if progress.outcome.Crashed? then 1 else 0
    {
      progress := JudgeAll();
      if progress.Through? {
        ghost var judged := pairs;
        progress := JudgeAllAgain();
        AllKeptTransitive(old(pairs), judged, file.value);
      }
    }

    /** The report, then the end of the state file. The process may die before the report is out, or
        between the two. */
    method Report() returns (outcome: Outcome)
      requires Valid() && Running() && !done && pairs == Uninterrupted(ph, sample)
      modifies this`reports, this`file, this`done, this`crashes, this`tick
      ensures Valid() && (done <==> outcome.Finished?) && !outcome.Checkpointed?
      ensures reports == old(reports) + [pairs] || (outcome.Crashed? && reports == old(reports))
      ensures file == if outcome.Finished? then None else old(file)
      ensures crashes == old(crashes) + if outcome.Crashed? then 1 else 0
      ensures schedule.Onward(old(tick), tick, outcome.Finished?)
    {
      var dies := Dies();
      if !dies {
        EachAppend(Undisturbed(ph, sample), reports, pairs);
        reports := reports + [pairs];
        dies := Dies();
      }
      if dies {
        Crash();
        return Crashed;
      }
      file := None;
      done := true;
      return Finished;
    }

    /** Takes up the state file, or draws the sample and saves it. */
    method LoadState() returns (alive: bool)
      requires Sound() && !done
      modifies this`pairs, this`file, this`crashes, this`tick
      ensures Sound() && crashes == old(crashes) + if alive then 0 else 1
      ensures schedule.Onward(old(tick), tick, alive)
      ensures alive ==> Running()
      ensures old(file).Some? ==> alive && file == old(file)
      ensures file == old(file) || file == Some(sample)
    {
      if file.Some? {
        pairs := file.value;
        return true;
      }
      pairs := sample;
      var dies := Dies();
      if dies {
        crashes := crashes + 1;
        return false;
      }
      FreshStart(ph, sample, calls, crashes);
      SaveState();
      return true;
    }

    /** One invocation of the program. It ends with the report of an uninterrupted run, or leaves
        a state file in which every pair settled before is as it was. */
    method Invoke() returns (outcome: Outcome)
      requires Valid() && !done
      modifies this
      ensures Valid() && (done <==> outcome.Finished?)
      ensures outcome.Finished? ==> reports == old(reports) + [Uninterrupted(ph, sample)]
      ensures old(file).Some? && outcome.Finished? ==> AllKept(old(file).value, Uninterrupted(ph, sample))
      ensures old(file).Some? && !outcome.Finished? ==> file.Some? && AllKept(old(file).value, file.value)
      ensures crashes == old(crashes) + if outcome.Crashed? then 1 else 0
      ensures schedule.Onward(old(tick), tick, outcome.Finished?)
      ensures CallsBounded(sample, calls, crashes)
    {
      var alive := LoadState();
      if !alive {
        return Crashed;
      }
      var progress := RunLoops();
      CallBound(ph, sample, file.value, calls, crashes);
      if progress.Stopped? {
        return progress.outcome;
      }
      outcome := Report();
    }

    /** Any number of invocations, each interrupted anywhere or not at all. Every report written
        holds the records of an uninterrupted run, and a pair costs at most two generator calls
        beyond one for every crash. If no report is finished, the schedule still interrupts at a
        point as late as the number of invocations. */
    method RunToReport(invocations: nat) returns (finished: bool)
      requires Valid() && !done && file == None && reports == [] && crashes == 0
      modifies this
      ensures Valid() && (finished <==> done)
      ensures Each(Undisturbed(ph, sample), reports)
      ensures finished ==> reports != []
      ensures !finished && invocations > 0 ==> tick >= invocations && schedule.Interrupts(tick - 1)
      ensures CallsBounded(sample, calls, crashes)
      ensures crashes <= invocations
    {
      for k := 0 to invocations
        invariant Valid() && !done && crashes <= k
        invariant k <= tick && (k > 0 ==> schedule.Interrupts(tick - 1))
        invariant CallsBounded(sample, calls, crashes)
      {
        var outcome := Invoke();
        if outcome.Finished? {
          return true;
        }
      }
      return false;
    }
  }

  method EvaluatePhases(ph: Phases, sample: seq<Pair>, schedule: Schedule, invocations: nat)
    returns (report: Option<seq<Pair>>)
    requires forall s | s in sample :: LawfulAt(ph, s)
    ensures report.Some? ==> report.value == Uninterrupted(ph, sample)
    ensures report.None? && invocations > 0 ==> exists t: nat | t >= invocations - 1 :: schedule.Interrupts(t)
  {
    SampleUpTo(ph, sample, |sample|);
    var evaluation := new Evaluation(ph, sample, schedule);
    var finished := evaluation.RunToReport(invocations);
    report := None;
    if finished {
      EachAt(Undisturbed(ph, sample), evaluation.reports, 0);
      report := Some(evaluation.reports[0]);
    } else if invocations > 0 {
      assert schedule.Interrupts(evaluation.tick - 1);
    }
  }

  /** The evaluation over its model calls, under any schedule of crashes and budget exits: a report
      that comes out holds the records of an uninterrupted run, and one does come out once there are
      more invocations than points up to the schedule's last interruption. So a single invocation
      that nothing interrupts reports. */
  method Evaluate(o: Oracle, sample: seq<Pair>, schedule: Schedule, invocations: nat)
    returns (report: Option<seq<Pair>>)
    requires forall s | s in sample :: Fresh(s)
    ensures report.Some? ==> report.value == Uninterrupted(PhasesOf(o), sample)
    ensures report.None? && invocations > 0 ==> exists t: nat | t >= invocations - 1 :: schedule.Interrupts(t)
  {
    var ph := PhasesOf(o);
    forall s | s in sample ensures LawfulAt(PhasesOf(o), s) {
      PhasesLawful(o, s);
    }
    report := EvaluatePhases(ph, sample, schedule, invocations);
  }

  /** At the report every pair is exactly one of generation-failed, judge-failed and won; a
      winner comes with both responses and the order they were judged in. */
  lemma ReportedPair(o: Oracle, sample: seq<Pair>, i: nat)
    requires i < |sample| && forall s | s in sample :: Fresh(s)
    ensures i < |Uninterrupted(PhasesOf(o), sample)|
    ensures var p := Uninterrupted(PhasesOf(o), sample)[i];
      && SameSample(p, sample[i])
      && (if p.genFailed then !p.judgeFailed && p.winner.None? else if p.judgeFailed then p.winner.None? else p.winner.Some?)
      && (p.winner.Some? ==> p.responseA.Some? && p.responseB.Some? && p.order.Some?)
  {
    var ph := PhasesOf(o);
    assert sample[i] in sample;
    PhasesLawful(o, sample[i]);
    UninterruptedAt(ph, sample, i);
    if i in Twice(ph, sample) {
      WonTwice(ph, sample, i);
    }
    ReportedFacts(ph, sample[i], Uninterrupted(ph, sample)[i], i in Twice(ph, sample));
  }

  lemma ReportedFacts(ph: Phases, s: Pair, p: Pair, twice: bool)
    requires LawfulAt(ph, s) && (twice ==> Settle(ph)(s).winner.Some?)
    requires p == if twice then ph.again(Settle(ph)(s)) else Settle(ph)(s)
    ensures SameSample(p, s) && Consistent(p) && GenerationDone(p) && JudgingDone(p)
  {
  }
}
