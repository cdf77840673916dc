/** The embedding worker pool: workers share one counter, claim the next index between two awaits,
    and write what they get at the index they claimed. A turn is one stretch of a worker between
    awaits: up to its first await, or from one awaited answer to the next await or its end. Any
    worker may take the next turn. */
module EmbedPool {
  import opened Wrappers

  datatype Worker = Unstarted | Waiting(i: nat) | Done | Failed(i: nat) {
    predicate Settled() { Done? || Failed? }

    predicate Holds(j: nat) { (Waiting? || Failed?) && i == j }
  }

  /** The texts to embed, and what the service answers to each. */
  datatype Job<V> = Job(texts: seq<string>, embed: string -> Result<V, string>) {
    function Answer(i: nat): Result<V, string>
      requires i < |texts|
    {
      embed(texts[i])
    }
  }

  /** `next`, `out`, the workers, and the indices the service was asked about, in order. */
  datatype State<V> = State(next: nat, out: seq<Option<V>>, workers: seq<Worker>, asked: seq<nat>)

  predicate InRange<V>(job: Job<V>, s: State<V>) {
    && |s.out| == |job.texts|
    && forall w | 0 <= w < |s.workers| && (s.workers[w].Waiting? || s.workers[w].Failed?) :: s.workers[w].i < |job.texts|
  }

  function Start<V>(job: Job<V>, concurrency: nat): State<V> {
    State(0, seq(|job.texts|, _ => None), seq(concurrency, _ => Unstarted), [])
  }

  /** The `while` test of worker `w`, and the claim behind it. */
  function Claim<V>(job: Job<V>, s: State<V>, w: nat): State<V>
    requires w < |s.workers|
  {
    if s.next < |job.texts| then
      s.(next := s.next + 1, workers := s.workers[w := Waiting(s.next)], asked := s.asked + [s.next])
    else s.(workers := s.workers[w := Done])
  }

  /** One turn of worker `w`; a settled worker has none left. */
  function Step<V>(job: Job<V>, s: State<V>, w: nat): State<V>
    requires w < |s.workers| && InRange(job, s)
  {
    match s.workers[w]
    case Unstarted => Claim(job, s, w)
    case Waiting(i) =>
      (match job.Answer(i)
       case Ok(v) => Claim(job, s.(out := s.out[i := Some(v)]), w)
       case Err(_) => s.(workers := s.workers[w := Failed(i)]))
    case _ => s
  }

  // ---------------------------------------------------------------- what every turn keeps

  function UpTo(n: nat): (r: seq<nat>)
    ensures |r| == n && forall i | 0 <= i < n :: r[i] == i
  {
    if n == 0 then [] else UpTo(n - 1) + [n - 1]
  }

  predicate Held(workers: seq<Worker>, j: nat) {
    exists w | 0 <= w < |workers| :: workers[w].Holds(j)
  }

  /** Every index below the counter was claimed once: its result is written, or exactly one worker
      holds it. No other index was touched. */
  ghost predicate Inv<V>(job: Job<V>, s: State<V>) {
    && InRange(job, s) && s.next <= |job.texts| && s.asked == UpTo(s.next)
    && (forall j | 0 <= j < |job.texts| && s.out[j].Some? :: j < s.next && job.Answer(j) == Ok(s.out[j].value))
    && (forall j | 0 <= j < s.next && s.out[j].None? :: Held(s.workers, j))
    && (forall w | 0 <= w < |s.workers| :: WorkerOk(job, s, s.workers[w]))
    && (forall v, w | 0 <= v < w < |s.workers| && !s.workers[v].Unstarted? && !s.workers[v].Done? :: !s.workers[w].Holds(s.workers[v].i))
  }

  predicate WorkerOk<V>(job: Job<V>, s: State<V>, worker: Worker)
    requires |s.out| == |job.texts|
  {
    match worker
    case Unstarted => true
    case Waiting(i) => i < s.next && i < |job.texts| && s.out[i].None?
    case Failed(i) => i < s.next && i < |job.texts| && s.out[i].None? && job.Answer(i).Err?
    case Done => s.next >= |job.texts|
  }

  lemma StartKeeps<V>(job: Job<V>, concurrency: nat)
    ensures Inv(job, Start(job, concurrency))
  {
  }

  lemma HeldUpdate(workers: seq<Worker>, w: nat, worker: Worker, j: nat)
    requires w < |workers| && Held(workers, j) && !workers[w].Holds(j)
    ensures Held(workers[w := worker], j)
  {
    var v :| 0 <= v < |workers| && workers[v].Holds(j);
    assert workers[w := worker][v].Holds(j);
  }

  lemma StepHolds<V>(job: Job<V>, s: State<V>, w: nat)
    requires w < |s.workers| && Inv(job, s)
    ensures var t := Step(job, s, w);
      forall j | 0 <= j < t.next && t.out[j].None? :: Held(t.workers, j)
  {
    var t := Step(job, s, w);
    forall j | 0 <= j < t.next && t.out[j].None? ensures Held(t.workers, j) {
      if t.workers[w].Holds(j) {
        assert Held(t.workers, j);
      } else {
        HeldUpdate(s.workers, w, t.workers[w], j);
      }
    }
  }

  lemma StepWorkers<V>(job: Job<V>, s: State<V>, w: nat)
    requires w < |s.workers| && Inv(job, s)
    ensures var t := Step(job, s, w);
      && InRange(job, t) && (forall v | 0 <= v < |t.workers| :: WorkerOk(job, t, t.workers[v]))
      && (forall u, v | 0 <= u < v < |t.workers| && !t.workers[u].Unstarted? && !t.workers[u].Done? :: !t.workers[v].Holds(t.workers[u].i))
  {
    var t := Step(job, s, w);
    assert WorkerOk(job, s, s.workers[w]);
    forall v | 0 <= v < |t.workers| ensures WorkerOk(job, t, t.workers[v]) {
      assert WorkerOk(job, s, s.workers[v]);
    }
  }

  lemma StepKeeps<V>(job: Job<V>, s: State<V>, w: nat)
    requires w < |s.workers| && Inv(job, s)
    ensures Inv(job, Step(job, s, w))
  {
    StepHolds(job, s, w);
    StepWorkers(job, s, w);
    assert WorkerOk(job, s, s.workers[w]);
  }

  // ---------------------------------------------------------------- progress

  function Weight(worker: Worker): nat {
    match worker
    case Unstarted => 1
    case Waiting(_) => 1
    case _ => 0
  }

  function Weights(workers: seq<Worker>): nat {
    if workers == [] then 0 else Weight(workers[0]) + Weights(workers[1..])
  }

  lemma {:induction false} WeightsUpdate(workers: seq<Worker>, w: nat, worker: Worker)
    requires w < |workers|
    ensures Weights(workers[w := worker]) == Weights(workers) - Weight(workers[w]) + Weight(worker)
  {
    if w == 0 {
      assert workers[w := worker][1..] == workers[1..];
    } else {
      WeightsUpdate(workers[1..], w - 1, worker);
      assert workers[w := worker][1..] == workers[1..][w - 1 := worker];
    }
  }

  /** The turns left: one for every unclaimed index, and one for every worker that is not settled. */
  function TurnsLeft<V>(job: Job<V>, s: State<V>): int {
    |job.texts| - s.next + Weights(s.workers)
  }

  /** Every turn of an unsettled worker uses exactly one up. */
  lemma TurnUsesOne<V>(job: Job<V>, s: State<V>, w: nat)
    requires w < |s.workers| && InRange(job, s) && !s.workers[w].Settled()
    ensures TurnsLeft(job, Step(job, s, w)) == TurnsLeft(job, s) - 1
  {
    WeightsUpdate(s.workers, w, Step(job, s, w).workers[w]);
  }

  lemma {:induction false} StartWeights(concurrency: nat)
    ensures Weights(seq(concurrency, _ => Unstarted)) == concurrency
  {
    if concurrency > 0 {
      StartWeights(concurrency - 1);
      assert seq(concurrency, _ => Unstarted)[1..] == seq(concurrency - 1, _ => Unstarted);
    }
  }

  // ---------------------------------------------------------------- every interleaving

  /** The state after the workers named in the schedule took their turns. */
  ghost function Run<V>(job: Job<V>, concurrency: nat, schedule: seq<nat>): (s: State<V>)
    requires forall w | w in schedule :: w < concurrency
    ensures Inv(job, s) && |s.workers| == concurrency
  {
    if schedule == [] then
      StartKeeps(job, concurrency);
      Start(job, concurrency)
    else
      var n := |schedule| - 1;
      assert schedule[n] in schedule && forall w | w in schedule[..n] :: w in schedule;
      var s := Run(job, concurrency, schedule[..n]);
      StepKeeps(job, s, schedule[n]);
      Step(job, s, schedule[n])
  }

  /** In every interleaving the service is asked about the indices in order, each once. */
  lemma ClaimedOnce<V>(job: Job<V>, concurrency: nat, schedule: seq<nat>)
    requires forall w | w in schedule :: w < concurrency
    ensures var asked := Run(job, concurrency, schedule).asked;
      |asked| <= |job.texts| && forall i | 0 <= i < |asked| :: asked[i] == i
  {
  }

  /** How many turns in the schedule went to a worker that was not settled. */
  ghost function TurnsTaken<V>(job: Job<V>, concurrency: nat, schedule: seq<nat>): nat
    requires forall w | w in schedule :: w < concurrency
  {
    if schedule == [] then 0
    else
      var n := |schedule| - 1;
      assert schedule[n] in schedule && forall w | w in schedule[..n] :: w in schedule;
      TurnsTaken(job, concurrency, schedule[..n])
      + if Run(job, concurrency, schedule[..n]).workers[schedule[n]].Settled() then 0 else 1
  }

  lemma {:induction false} TurnsAddUp<V>(job: Job<V>, concurrency: nat, schedule: seq<nat>)
    requires forall w | w in schedule :: w < concurrency
    ensures TurnsTaken(job, concurrency, schedule) + TurnsLeft(job, Run(job, concurrency, schedule)) == |job.texts| + concurrency
  {
    if schedule == [] {
      StartWeights(concurrency);
    } else {
      var n := |schedule| - 1;
      assert schedule[n] in schedule && forall w | w in schedule[..n] :: w in schedule;
      TurnsAddUp(job, concurrency, schedule[..n]);
      var s := Run(job, concurrency, schedule[..n]);
      if !s.workers[schedule[n]].Settled() {
        TurnUsesOne(job, s, schedule[n]);
      }
    }
  }

  lemma {:induction false} DoneWeights(workers: seq<Worker>)
    requires AllDone(workers)
    ensures Weights(workers) == 0
  {
    if workers != [] {
      assert workers[0].Done?;
      assert forall w | 0 <= w < |workers[1..]| :: workers[1..][w] == workers[w + 1];
      DoneWeights(workers[1..]);
    }
  }

  /** No schedule keeps the pool busy for more than one turn a text and one a worker, and every
      schedule that finishes it takes exactly that many. */
  lemma EveryScheduleEnds<V>(job: Job<V>, concurrency: nat, schedule: seq<nat>)
    requires forall w | w in schedule :: w < concurrency
    ensures TurnsTaken(job, concurrency, schedule) <= |job.texts| + concurrency
    ensures concurrency > 0 && AllDone(Run(job, concurrency, schedule).workers)
            ==> TurnsTaken(job, concurrency, schedule) == |job.texts| + concurrency
  {
    TurnsAddUp(job, concurrency, schedule);
    var s := Run(job, concurrency, schedule);
    if concurrency > 0 && AllDone(s.workers) {
      DoneWeights(s.workers);
      assert WorkerOk(job, s, s.workers[0]);
    }
  }

  predicate AllDone(workers: seq<Worker>) {
    forall w | 0 <= w < |workers| :: workers[w].Done?
  }

  /** Once all workers are done, every result is the answer to its own text. */
  lemma DoneMeansFilled<V>(job: Job<V>, s: State<V>)
    requires Inv(job, s) && AllDone(s.workers) && |s.workers| > 0
    ensures forall i | 0 <= i < |job.texts| :: s.out[i].Some? && job.Answer(i) == Ok(s.out[i].value)
  {
    assert WorkerOk(job, s, s.workers[0]);
    assert forall i | 0 <= i < |job.texts| :: s.out[i].None? ==> Held(s.workers, i);
  }

  /** A worker that failed did so on a text that the service fails on. */
  lemma FailedMeansFailing<V>(job: Job<V>, s: State<V>, w: nat)
    requires Inv(job, s) && w < |s.workers| && s.workers[w].Failed?
    ensures s.workers[w].i < |job.texts| && job.Answer(s.workers[w].i).Err?
  {
    assert WorkerOk(job, s, s.workers[w]);
  }

  class Pool<V> {
    const job: Job<V>
    const out: array<Option<V>>
    var next: nat
    var workers: seq<Worker>
    ghost var asked: seq<nat>

    constructor (job: Job<V>, concurrency: nat)
      ensures this.job == job && fresh(out) && Current() == Start(job, concurrency)
    {
      this.job := job;
      out := new Option<V>[|job.texts|](_ => None);
      next := 0;
      workers := seq(concurrency, _ => Unstarted);
      asked := [];
      new;
      assert out[..] == seq(|job.texts|, _ => None);
    }

    ghost function Current(): State<V>
      reads this, out
    {
      State(next, out[..], workers, asked)
    }

    /** What worker `w` does until its next await: store the awaited vector, if it awaits one, and
        go through the `while` test to the next claim or the end. */
    method Turn(w: nat)
      requires w < |workers| && InRange(job, Current())
      modifies this, out
      ensures Current() == Step(job, old(Current()), w)
    {
      if workers[w].Settled() {
        return;
      }
      if workers[w].Waiting? {
        var i := workers[w].i;
        var answer := job.Answer(i);
        if answer.Err? {
          workers := workers[w := Failed(i)];
          return;
        }
        out[i] := Some(answer.value);
      }
      if next < |job.texts| {
        var i := next;
        next := next + 1;
        workers := workers[w := Waiting(i)];
        asked := asked + [i];
      } else {
        workers := workers[w := Done];
      }
    }
  }

  /** What the loop keeps: the workers and texts, every turn's invariant, and that none has failed. */
  ghost predicate Going<V>(job: Job<V>, concurrency: nat, s: State<V>) {
    && |s.workers| == concurrency && Inv(job, s)
    && (forall w | 0 <= w < |s.workers| :: !s.workers[w].Failed?)
    && (concurrency == 0 ==> s == Start(job, concurrency))
  }

  lemma GoingOn<V>(job: Job<V>, concurrency: nat, s: State<V>, w: nat)
    requires Going(job, concurrency, s) && w < concurrency && !s.workers[w].Done?
    ensures var t := Step(job, s, w);
      |t.workers| == concurrency && TurnsLeft(job, t) < TurnsLeft(job, s) &&
      if t.workers[w].Failed? then t.workers[w].i < |job.texts| && job.Answer(t.workers[w].i).Err? else Going(job, concurrency, t)
  {
    StepKeeps(job, s, w);
    TurnUsesOne(job, s, w);
    if Step(job, s, w).workers[w].Failed? {
      FailedMeansFailing(job, Step(job, s, w), w);
    }
  }

  /** `embedAll` under any scheduler: with a worker, it returns every answer at its own index
      unless the service fails on some text, and then it throws that failure; without one it
      returns at once with nothing filled in. */
  method EmbedAll<V>(job: Job<V>, concurrency: nat) returns (r: Result<seq<Option<V>>, string>)
    ensures r.Ok? <==> concurrency == 0 || forall i | 0 <= i < |job.texts| :: job.Answer(i).Ok?
    ensures r.Ok? ==> |r.value| == |job.texts|
    ensures r.Ok? && concurrency > 0 ==> forall i | 0 <= i < |job.texts| :: r.value[i].Some? && job.Answer(i) == Ok(r.value[i].value)
    ensures r.Ok? && concurrency == 0 ==> forall i | 0 <= i < |job.texts| :: r.value[i] == None
    ensures r.Err? ==> exists i | 0 <= i < |job.texts| :: job.Answer(i) == Err(r.error)
  {
    var pool := new Pool(job, concurrency);
    StartKeeps(job, concurrency);
    while !AllDone(pool.workers)
      invariant pool.job == job && fresh(pool) && fresh(pool.out) && Going(job, concurrency, pool.Current())
      decreases TurnsLeft(job, pool.Current())
    {
      var w :| 0 <= w < |pool.workers| && !pool.workers[w].Done?;
      GoingOn(job, concurrency, pool.Current(), w);
      pool.Turn(w);
      if pool.workers[w].Failed? {
        return Err(job.Answer(pool.workers[w].i).error);
      }
    }
    if concurrency > 0 {
      DoneMeansFilled(job, pool.Current());
    }
    return Ok(pool.out[..]);
  }
}
