/** The recall-impact replay evaluation as values: what one model call does to one pair, and
    what a run that nothing interrupts makes of the whole sample. */
module ReplayModel {
  import opened Wrappers
  import opened Seqs

  datatype Arm = ArmA | ArmB

  datatype Order = Order(x: Arm, y: Arm)

  datatype Verdict = FavoursX | FavoursY | NoPreference

  datatype Winner = Won(arm: Arm) | Tie

  /** A sampled pair and everything the three phases record about it. */
  datatype Pair = Pair(
    ts: string, prompt: string, block: string,
    responseA: Option<string>, responseB: Option<string>, genFailed: bool,
    order: Option<Order>, malformed: bool, winner: Option<Winner>, judgeFailed: bool,
    doubleJudged: bool, doubleWinner: Option<Winner>)

  /** Which of the at most three judge calls about a pair this is. */
  datatype Attempt = First | Retry | Second

  /** The deterministic surroundings: model calls (None when the call throws), reply parsing,
      the seeded order and the seeded draws of the shuffle. */
  datatype Oracle = Oracle(
    generate: (string, Option<string>) -> Option<string>,
    judge: (string, string, string, Attempt) -> Option<string>,
    parse: string -> Option<Verdict>,
    orderFor: string -> Order,
    draw: (nat, nat) -> nat,
    doubleJudge: bool)

  const DOUBLE_JUDGE_N := 20

  // ---------------------------------------------------------------- one pair

  function AskA(o: Oracle, p: Pair): Pair {
    match o.generate(p.prompt, Some(p.block))
    case None => p.(genFailed := true)
    case Some(text) => p.(responseA := Some(text))
  }

  function AskB(o: Oracle, p: Pair): Pair {
    match o.generate(p.prompt, None)
    case None => p.(genFailed := true)
    case Some(text) => p.(responseB := Some(text))
  }

  predicate GenerationDone(p: Pair) {
    p.genFailed || (p.responseA.Some? && p.responseB.Some?)
  }

  predicate Judgeable(p: Pair) {
    !p.genFailed && p.responseA.Some? && p.responseB.Some?
  }

  predicate JudgingDone(p: Pair) {
    !Judgeable(p) || p.winner.Some? || p.judgeFailed
  }

  /** What the resume message counts as settled. */
  predicate SettledPair(p: Pair) {
    p.winner.Some? || p.genFailed || p.judgeFailed
  }

  function ResponseOf(p: Pair, arm: Arm): string
    requires Judgeable(p)
  {
    if arm == ArmA then p.responseA.value else p.responseB.value
  }

  function Resolve(order: Order, verdict: Verdict): Winner {
    match verdict
    case NoPreference => Tie
    case FavoursX => Won(order.x)
    case FavoursY => Won(order.y)
  }

  function JudgeReply(o: Oracle, p: Pair, order: Order, attempt: Attempt): Option<string>
    requires Judgeable(p)
  {
    o.judge(p.prompt, ResponseOf(p, order.x), ResponseOf(p, order.y), attempt)
  }

  /** One judging: a malformed reply is asked for once more, then counts as a tie. */
  function AskJudge(o: Oracle, p: Pair): Pair
    requires Judgeable(p)
  {
    var order := o.orderFor(p.ts);
    var q := p.(order := Some(order));
    match JudgeReply(o, p, order, First)
    case None => q.(judgeFailed := true)
    case Some(text) =>
      match o.parse(text)
      case Some(verdict) => q.(winner := Some(Resolve(order, verdict)))
      case None =>
        match JudgeReply(o, p, order, Retry)
        case None => q.(judgeFailed := true)
        case Some(again) =>
          match o.parse(again)
          case Some(verdict) => q.(winner := Some(Resolve(order, verdict)))
          case None => q.(malformed := true, winner := Some(Tie))
  }

  function AskDouble(o: Oracle, p: Pair): Pair
    requires Judgeable(p) && p.order.Some?
  {
    match JudgeReply(o, p, p.order.value, Second)
    case None => p
    case Some(text) =>
      var w := match o.parse(text) case Some(v) => Resolve(p.order.value, v) case None => Tie;
      p.(doubleJudged := true, doubleWinner := Some(w))
  }

  // ---------------------------------------------------------------- phases, for one pair

  function AfterA(o: Oracle, p: Pair): Pair {
    if GenerationDone(p) || p.responseA.Some? then p else AskA(o, p)
  }

  function Generated(o: Oracle, p: Pair): Pair {
    var q := AfterA(o, p);
    if GenerationDone(q) then q else AskB(o, q)
  }

  function Judged(o: Oracle, p: Pair): Pair {
    if JudgingDone(p) then p else AskJudge(o, p)
  }

  function Doubled(o: Oracle, p: Pair): Pair {
    if p.doubleJudged || !Judgeable(p) || p.order.None? then p else AskDouble(o, p)
  }

  /** The phases of an evaluation, each a function on one pair, and its double-judge setting. */
  datatype Phases = Phases(
    half: Pair -> Pair, generate: Pair -> Pair, judge: Pair -> Pair, again: Pair -> Pair,
    doubleJudge: bool, draw: (nat, nat) -> nat)

  function PhasesOf(o: Oracle): Phases {
    Phases((p: Pair) => AfterA(o, p), (p: Pair) => Generated(o, p), (p: Pair) => Judged(o, p), (p: Pair) => Doubled(o, p),
           o.doubleJudge, o.draw)
  }

  /** Generation and judging. */
  function Settle(ph: Phases): Pair -> Pair {
    (p: Pair) => ph.judge(ph.generate(p))
  }

  // ---------------------------------------------------------------- the whole sample

  function Swap<A>(xs: seq<A>, i: nat, j: nat): (r: seq<A>)
    requires i < |xs| && j < |xs|
    ensures |r| == |xs|
  {
    xs[i := xs[j]][j := xs[i]]
  }

  /** The seeded Fisher-Yates shuffle, from position `i` down. */
  function Shuffle<A>(xs: seq<A>, i: nat, draw: nat -> nat): (r: seq<A>)
    requires i < |xs| || i == 0
    ensures |r| == |xs|
    decreases i
  {
    if i == 0 then xs else Shuffle(Swap(xs, i, draw(i) % (i + 1)), i - 1, draw)
  }

  /** Shuffling loses and invents nothing. */
  lemma {:induction false} ShufflePermutes<A>(xs: seq<A>, i: nat, draw: nat -> nat)
    requires i < |xs| || i == 0
    ensures multiset(Shuffle(xs, i, draw)) == multiset(xs)
    decreases i
  {
    if i > 0 {
      ShufflePermutes(Swap(xs, i, draw(i) % (i + 1)), i - 1, draw);
    }
  }

  lemma {:induction false} ShuffleSame<A>(xs: seq<A>, i: nat, draw: nat -> nat, other: nat -> nat)
    requires (i < |xs| || i == 0) && forall k | 0 < k <= i :: draw(k) == other(k)
    ensures Shuffle(xs, i, draw) == Shuffle(xs, i, other)
    decreases i
  {
    if i > 0 {
      ShuffleSame(Swap(xs, i, draw(i) % (i + 1)), i - 1, draw, other);
    }
  }

  /** The same elements, and in the same places from position `n` on. */
  ghost predicate SettledFrom<A>(xs: seq<A>, ys: seq<A>, n: nat) {
    |xs| == |ys| && multiset(xs) == multiset(ys) && forall k | n <= k < |xs| :: xs[k] == ys[k]
  }

  /** And every permutation comes out for some draws: no position is out of any record's reach. */
  lemma {:induction false} ShuffleReaches<A>(xs: seq<A>, ys: seq<A>, i: nat) returns (draw: nat -> nat)
    requires i < |xs| && SettledFrom(xs, ys, i + 1)
    ensures Shuffle(xs, i, draw) == ys
    decreases i
  {
    var j := FindsPlace(xs, ys, i);
    if i == 0 {
      draw := k => 0;
      assert xs == ys;
    } else {
      SwapSettles(xs, ys, i, j);
      var rest := ShuffleReaches(Swap(xs, i, j), ys, i - 1);
      draw := DrawFirst(i, j, rest);
      ShuffleStep(xs, i, j, rest);
    }
  }

  function DrawFirst(i: nat, j: nat, rest: nat -> nat): nat -> nat {
    k => if k == i then j else rest(k)
  }

  lemma ShuffleStep<A>(xs: seq<A>, i: nat, j: nat, rest: nat -> nat)
    requires 0 < i < |xs| && j <= i
    ensures Shuffle(xs, i, DrawFirst(i, j, rest)) == Shuffle(Swap(xs, i, j), i - 1, rest)
  {
    var draw := DrawFirst(i, j, rest);
    assert draw(i) % (i + 1) == j;
    ShuffleSame(Swap(xs, i, j), i - 1, draw, rest);
  }

  lemma FindsPlace<A>(xs: seq<A>, ys: seq<A>, i: nat) returns (j: nat)
    requires i < |xs| && SettledFrom(xs, ys, i + 1)
    ensures j <= i && xs[j] == ys[i]
  {
    var (a, b) := (xs[..i + 1], ys[..i + 1]);
    assert xs == a + xs[i + 1..] && ys == b + xs[i + 1..];
    var tail := multiset(xs[i + 1..]);
    assert multiset(a) + tail == multiset(b) + tail;
    assert multiset(a) == (multiset(a) + tail) - tail;
    assert multiset(b) == (multiset(b) + tail) - tail;
    assert b[i] in b;
    assert b[i] in multiset(b);
    assert b[i] in a;
    j :| 0 <= j <= i && a[j] == b[i];
  }

  lemma SwapSettles<A>(xs: seq<A>, ys: seq<A>, i: nat, j: nat)
    requires j <= i < |xs| && SettledFrom(xs, ys, i + 1) && xs[j] == ys[i]
    ensures SettledFrom(Swap(xs, i, j), ys, i)
  {
  }

  /** Positions of the pairs among the first `n` that have a winner and an order. */
  function JudgedPositions(pairs: seq<Pair>, n: nat): (r: seq<nat>)
    requires n <= |pairs|
    ensures forall k | k in r :: k < n && pairs[k].winner.Some? && pairs[k].order.Some?
  {
    if n == 0 then []
    else
      var before := JudgedPositions(pairs, n - 1);
      if pairs[n - 1].winner.Some? && pairs[n - 1].order.Some? then before + [n - 1] else before
  }

  function Shuffled(ph: Phases, judged: seq<nat>): (r: seq<nat>)
    ensures forall k | k in r :: k in judged
  {
    var last := if judged == [] then 0 else |judged| - 1;
    var r := Shuffle(judged, last, i => ph.draw(|judged|, i));
    ShufflePermutes(judged, last, i => ph.draw(|judged|, i));
    assert forall k | k in r :: k in multiset(r);
    r
  }

  /** The first twenty of the shuffled positions, if there is a double judging at all. */
  function Drawn(ph: Phases, judged: seq<nat>): (r: seq<nat>)
    ensures forall k | k in r :: k in judged
  {
    TakeMembers(Shuffled(ph, judged), DOUBLE_JUDGE_N);
    if !ph.doubleJudge then [] else Take(Shuffled(ph, judged), DOUBLE_JUDGE_N)
  }

  /** The pairs judged a second time. */
  function Subsample(ph: Phases, pairs: seq<Pair>): (r: seq<nat>)
    ensures forall k | k in r :: k < |pairs| && pairs[k].winner.Some? && pairs[k].order.Some?
  {
    Drawn(ph, JudgedPositions(pairs, |pairs|))
  }

  /** The last phase, on the pair at one position. */
  function Finisher(ph: Phases, twice: seq<nat>): (nat, Pair) -> Pair {
    (i, p: Pair) => if i in twice then ph.again(p) else p
  }

  /** The positions judged twice in a run from these records. */
  function Twice(ph: Phases, pairs: seq<Pair>): seq<nat> {
    Subsample(ph, Map(Settle(ph), pairs))
  }

  /** The pair records of a run that nothing interrupts. */
  function Uninterrupted(ph: Phases, pairs: seq<Pair>): seq<Pair> {
    MapIndexed(Finisher(ph, Twice(ph, pairs)), Map(Settle(ph), pairs))
  }

  // ---------------------------------------------------------------- the path of one pair

  predicate Fresh(p: Pair) {
    && p.responseA.None? && p.responseB.None? && !p.genFailed && p.order.None? && !p.malformed
    && p.winner.None? && !p.judgeFailed && !p.doubleJudged && p.doubleWinner.None?
  }

  /** The states a pair passes through, from its sampled state `s`; `twice` says whether it is
      judged a second time. */
  predicate OnPath(ph: Phases, s: Pair, p: Pair, twice: bool) {
    || p == s
    || p == ph.half(s)
    || p == ph.generate(s)
    || p == ph.judge(ph.generate(s))
    || (twice && p == ph.again(ph.judge(ph.generate(s))))
  }

  /** Facts of a pair at any point of the path: a winner implies both responses and the order;
      the failure marks exclude each other and the winner. */
  predicate Consistent(p: Pair) {
    && (p.winner.Some? ==> Judgeable(p) && p.order.Some? && !p.judgeFailed)
    && (p.genFailed ==> p.responseB.None? && !p.judgeFailed && p.winner.None?)
    && (p.judgeFailed ==> Judgeable(p) && p.winner.None?)
    && (p.doubleJudged ==> p.winner.Some? && p.doubleWinner.Some?)
    && (p.malformed ==> p.winner == Some(Tie))
  }

  /** Generator calls a pair's record accounts for. */
  function Cost(p: Pair): nat {
    (if p.responseA.Some? then 1 else 0) + (if p.responseB.Some? then 1 else 0) + if p.genFailed then 1 else 0
  }

  /** A settled pair keeps all but its double-judging fields. */
  predicate Kept(before: Pair, after: Pair) {
    SettledPair(before) ==> after.(doubleJudged := before.doubleJudged, doubleWinner := before.doubleWinner) == before
  }

  /** What the phases guarantee along the path of a fresh pair: each is done once it was done,
      later phases leave the fields of earlier ones alone, and every generator call shows. */
  predicate LawfulAt(ph: Phases, s: Pair) {
    var a := ph.half(s);
    var g := ph.generate(s);
    var j := ph.judge(g);
    var d := ph.again(j);
    && LawfulGeneration(s, a, g, ph.generate(a)) && ph.generate(g) == g
    && LawfulJudging(g, j) && ph.generate(j) == j && ph.judge(j) == j
    && (j.winner.Some? ==> ph.generate(d) == d && ph.judge(d) == d && Consistent(d))
    && ph.again(d) == d && LawfulAgain(j, d)
  }

  predicate LawfulGeneration(s: Pair, a: Pair, g: Pair, aThenB: Pair) {
    && Fresh(s) && Unjudged(a) && Unjudged(g) && SameSample(a, s) && SameSample(g, s)
    && Consistent(s) && Consistent(a) && Consistent(g)
    && aThenB == g && GenerationDone(g) && (GenerationDone(a) ==> a == g) && (a.genFailed || a.responseA.Some?)
    && Cost(a) == 1 && Cost(g) == if GenerationDone(a) then 1 else 2
  }

  predicate LawfulJudging(g: Pair, j: Pair) {
    SameGeneration(j, g) && Consistent(j) && JudgingDone(j) && !j.doubleJudged && (JudgingDone(g) ==> j == g)
  }

  predicate LawfulAgain(j: Pair, d: Pair) {
    SameGeneration(d, j) && d.winner == j.winner && d.order == j.order && Kept(j, d)
  }

  /** Only the generation fields change before judging. */
  predicate Unjudged(p: Pair) {
    p.order.None? && !p.malformed && p.winner.None? && !p.judgeFailed && !p.doubleJudged && p.doubleWinner.None?
  }

  lemma GeneratedFacts(o: Oracle, s: Pair)
    requires Fresh(s)
    ensures var a, g := AfterA(o, s), Generated(o, s);
      && Generated(o, a) == g && Generated(o, g) == g && GenerationDone(g)
      && Unjudged(a) && Unjudged(g) && (a.genFailed ==> a.responseB.None?) && (g.genFailed ==> g.responseB.None?)
      && SameSample(a, s) && SameSample(g, s)
  {
  }

  predicate SameSample(p: Pair, q: Pair) {
    p.ts == q.ts && p.prompt == q.prompt && p.block == q.block
  }

  predicate SameGeneration(p: Pair, q: Pair) {
    SameSample(p, q) && p.responseA == q.responseA && p.responseB == q.responseB && p.genFailed == q.genFailed
  }

  lemma JudgedFacts(o: Oracle, g: Pair)
    requires Unjudged(g)
    ensures var j := Judged(o, g);
      && SameGeneration(j, g) && JudgingDone(j) && !j.doubleJudged && j.doubleWinner.None?
      && (j.winner.Some? ==> Judgeable(j) && j.order.Some? && !j.judgeFailed)
      && (j.judgeFailed ==> Judgeable(j)) && (j.malformed ==> j.winner == Some(Tie))
  {
  }

  lemma DoubledFacts(o: Oracle, j: Pair)
    ensures var d := Doubled(o, j);
      && SameGeneration(d, j) && d.order == j.order && d.winner == j.winner && d.judgeFailed == j.judgeFailed
      && d.malformed == j.malformed && Doubled(o, d) == d
      && (d != j ==> d.doubleJudged && d.doubleWinner.Some? && Judgeable(j) && j.order.Some?)
  {
  }

  lemma GeneratedDone(o: Oracle, p: Pair)
    requires GenerationDone(p)
    ensures Generated(o, p) == p && AfterA(o, p) == p
  {
  }

  lemma JudgedDone(o: Oracle, p: Pair)
    requires JudgingDone(p)
    ensures Judged(o, p) == p
  {
  }

  lemma JudgedOnceDone(o: Oracle, j: Pair)
    requires GenerationDone(j) && JudgingDone(j)
    ensures Generated(o, j) == j && Judged(o, j) == j
    ensures Generated(o, Doubled(o, j)) == Doubled(o, j)
    ensures j.winner.Some? ==> Judged(o, Doubled(o, j)) == Doubled(o, j)
  {
    var d := Doubled(o, j);
    DoubledFacts(o, j);
    GeneratedDone(o, j);
    JudgedDone(o, j);
    GeneratedDone(o, d);
    if j.winner.Some? {
      JudgedDone(o, d);
    }
  }

  /** The evaluation's own phases are lawful. */
  lemma PhasesLawful(o: Oracle, s: Pair)
    requires Fresh(s)
    ensures LawfulAt(PhasesOf(o), s)
  {
    var g := Generated(o, s);
    var j := Judged(o, g);
    GeneratedFacts(o, s);
    JudgedFacts(o, g);
    DoubledFacts(o, j);
    JudgedOnceDone(o, j);
  }

  /** Finishing from any point of the path ends where the whole path ends. */
  lemma PathFinishes(ph: Phases, s: Pair, p: Pair, twice: bool)
    requires LawfulAt(ph, s) && OnPath(ph, s, p, twice)
    requires twice ==> Settle(ph)(s).winner.Some?
    ensures Settle(ph)(p) == Settle(ph)(s) || (twice && p == ph.again(Settle(ph)(s)) && Settle(ph)(p) == p)
    ensures ph.again(Settle(ph)(p)) == ph.again(Settle(ph)(s))
    ensures Settle(ph)(p).winner == Settle(ph)(s).winner && Settle(ph)(p).order == Settle(ph)(s).order
    ensures Consistent(p) && SameSample(p, s)
  {
  }

  lemma WonTwice(ph: Phases, sample: seq<Pair>, i: nat)
    requires i < |sample| && i in Twice(ph, sample)
    ensures Settle(ph)(sample[i]).winner.Some? && Settle(ph)(sample[i]).order.Some?
  {
    MapAt(Settle(ph), sample);
  }

  /** A record at its position is on the path of the pair sampled there. */
  function Placed(ph: Phases, sample: seq<Pair>): (nat, Pair) -> bool {
    (i: nat, p: Pair) => i < |sample| && OnPath(ph, sample[i], p, i in Twice(ph, sample))
  }

  /** The sampled pairs with what has been recorded about them so far. */
  ghost predicate OnTrack(ph: Phases, sample: seq<Pair>, pairs: seq<Pair>) {
    |pairs| == |sample| && Each(Placed(ph, sample), pairs)
  }

  lemma {:induction false} SamePositions(a: seq<Pair>, b: seq<Pair>, n: nat)
    requires n <= |a| == |b|
    requires forall i | 0 <= i < n :: a[i].winner == b[i].winner && a[i].order == b[i].order
    ensures JudgedPositions(a, n) == JudgedPositions(b, n)
  {
    if n > 0 {
      SamePositions(a, b, n - 1);
    }
  }

  lemma SameSubsample(ph: Phases, a: seq<Pair>, b: seq<Pair>)
    requires |a| == |b| && forall i | 0 <= i < |a| :: a[i].winner == b[i].winner && a[i].order == b[i].order
    ensures Subsample(ph, a) == Subsample(ph, b)
  {
    SamePositions(a, b, |a|);
  }

  /** Crash and resume equivalence: a run that takes up any recorded state and is not interrupted
      again ends with the records of a run that was never interrupted. */
  lemma ResumeEquivalence(ph: Phases, sample: seq<Pair>, pairs: seq<Pair>)
    requires OnTrack(ph, sample, pairs) && forall s | s in sample :: LawfulAt(ph, s)
    ensures Uninterrupted(ph, pairs) == Uninterrupted(ph, sample)
  {
    var settled, resumed := Map(Settle(ph), sample), Map(Settle(ph), pairs);
    var twice := Twice(ph, sample);
    MapAt(Settle(ph), sample);
    MapAt(Settle(ph), pairs);
    forall i | 0 <= i < |sample|
      ensures resumed[i].winner == settled[i].winner && resumed[i].order == settled[i].order
      ensures Finisher(ph, twice)(i, resumed[i]) == Finisher(ph, twice)(i, settled[i])
    {
      if i in twice {
        WonTwice(ph, sample, i);
      }
      assert sample[i] in sample;
      EachAt(Placed(ph, sample), pairs, i);
      PathFinishes(ph, sample[i], pairs[i], i in twice);
    }
    SameSubsample(ph, resumed, settled);
    MapIndexedAt(Finisher(ph, twice), settled);
    MapIndexedAt(Finisher(ph, twice), resumed);
  }

  /** Every sampled pair is fresh and its phases lawful; the pairs judged twice are won. */
  ghost predicate LawfulUpTo(ph: Phases, sample: seq<Pair>, n: nat)
    requires n <= |sample|
  {
    n == 0 || (LawfulUpTo(ph, sample, n - 1) && LawfulAt(ph, sample[n - 1])
               && (n - 1 in Twice(ph, sample) ==> Settle(ph)(sample[n - 1]).winner.Some?))
  }

  ghost predicate LawfulSample(ph: Phases, sample: seq<Pair>) {
    LawfulUpTo(ph, sample, |sample|)
  }

  lemma {:induction false} UpToAt(ph: Phases, sample: seq<Pair>, n: nat, i: nat)
    requires i < n <= |sample| && LawfulUpTo(ph, sample, n)
    ensures LawfulAt(ph, sample[i]) && (i in Twice(ph, sample) ==> Settle(ph)(sample[i]).winner.Some?)
  {
    if i < n - 1 {
      UpToAt(ph, sample, n - 1, i);
    }
  }

  lemma {:induction false} SampleUpTo(ph: Phases, sample: seq<Pair>, n: nat)
    requires n <= |sample| && forall s | s in sample :: LawfulAt(ph, s)
    ensures LawfulUpTo(ph, sample, n)
  {
    if n > 0 {
      SampleUpTo(ph, sample, n - 1);
      assert sample[n - 1] in sample;
      if n - 1 in Twice(ph, sample) {
        WonTwice(ph, sample, n - 1);
      }
    }
  }
}
