/** What a report says about one pair, in terms of the generator and the judge alone. */
module ReplayReport {
  import opened Wrappers
  import opened Seqs
  import opened ReplayModel
  import opened Replay

  /** Generation from a fresh pair: arm A sees the block, arm B does not, and is only asked if A
      answered. */
  lemma GeneratedResponses(o: Oracle, s: Pair)
    requires Fresh(s)
    ensures var (g, a, b) := (Generated(o, s), o.generate(s.prompt, Some(s.block)), o.generate(s.prompt, None));
      g.responseA == a && g.responseB == (if a.Some? then b else None) && (g.genFailed <==> a.None? || b.None?)
  {
  }

  /** Judging and double judging leave what was generated alone. */
  lemma ReportKeepsGeneration(o: Oracle, sample: seq<Pair>, i: nat)
    requires i < |sample| && forall s | s in sample :: Fresh(s)
    ensures i < |Uninterrupted(PhasesOf(o), sample)|
    ensures SameGeneration(Uninterrupted(PhasesOf(o), sample)[i], Generated(o, sample[i]))
  {
    var s := sample[i];
    assert s in sample;
    UninterruptedAt(PhasesOf(o), sample, i);
    GeneratedFacts(o, s);
    JudgedFacts(o, Generated(o, s));
    DoubledFacts(o, Judged(o, Generated(o, s)));
  }

  /** A reported pair holds the generator's answers with and without its block, and failed
      generation exactly if one of the two calls fails. */
  lemma ReportedResponses(o: Oracle, sample: seq<Pair>, i: nat)
    requires i < |sample| && forall s | s in sample :: Fresh(s)
    ensures i < |Uninterrupted(PhasesOf(o), sample)|
    ensures var (p, s) := (Uninterrupted(PhasesOf(o), sample)[i], sample[i]);
      var (a, b) := (o.generate(s.prompt, Some(s.block)), o.generate(s.prompt, None));
      p.responseA == a && p.responseB == (if a.Some? then b else None) && (p.genFailed <==> a.None? || b.None?)
  {
    assert sample[i] in sample;
    GeneratedResponses(o, sample[i]);
    ReportKeepsGeneration(o, sample, i);
  }

  // ---------------------------------------------------------------- what the judge's replies make of a pair

  /** The text of the arm shown at one place. */
  function Shown(a: string, b: string, arm: Arm): string {
    if arm == ArmA then a else b
  }

  /** What the judge answers about a pair with these two responses. */
  function Answer(o: Oracle, s: Pair, a: string, b: string, attempt: Attempt): Option<string> {
    var order := o.orderFor(s.ts);
    o.judge(s.prompt, Shown(a, b, order.x), Shown(a, b, order.y), attempt)
  }

  /** The call came back with a reply that does not parse. */
  predicate Unreadable(o: Oracle, reply: Option<string>) {
    reply.Some? && o.parse(reply.value).None?
  }

  /** The call came back with a reply that parses to the verdict. */
  predicate Reads(o: Oracle, reply: Option<string>, verdict: Verdict) {
    reply.Some? && o.parse(reply.value) == Some(verdict)
  }

  /** The verdict of the first of the two replies that parses; a call that throws ends the judging. */
  predicate FirstRead(o: Oracle, first: Option<string>, retry: Option<string>, verdict: Verdict) {
    Reads(o, first, verdict) || (Unreadable(o, first) && Reads(o, retry, verdict))
  }

  /** What one judging records, by the replies to its two calls. */
  predicate RecordsVerdict(o: Oracle, p: Pair, order: Order, first: Option<string>, retry: Option<string>) {
    && (p.malformed <==> Unreadable(o, first) && Unreadable(o, retry))
    && (p.judgeFailed <==> first.None? || (Unreadable(o, first) && retry.None?))
    && (p.judgeFailed <==> p.winner.None?)
    && (p.malformed ==> p.winner == Some(Tie))
    && (FirstRead(o, first, retry, FavoursX) ==> p.winner == Some(Won(order.x)))
    && (FirstRead(o, first, retry, FavoursY) ==> p.winner == Some(Won(order.y)))
    && (FirstRead(o, first, retry, NoPreference) ==> p.winner == Some(Tie))
    && p.order == Some(order)
  }

  lemma JudgedVerdict(o: Oracle, g: Pair)
    requires Judgeable(g) && Unjudged(g)
    ensures var (a, b) := (g.responseA.value, g.responseB.value);
      RecordsVerdict(o, Judged(o, g), o.orderFor(g.ts), Answer(o, g, a, b, First), Answer(o, g, a, b, Retry))
  {
  }

  /** A reported pair whose two responses were generated: it is malformed exactly if both judge calls
      reply and neither reply parses; it failed judging exactly if the first call throws, or the first
      reply does not parse and the retry throws; otherwise it is won by the arm shown at the place
      that the first reply that parses favours. */
  lemma ReportedVerdict(o: Oracle, sample: seq<Pair>, i: nat)
    requires i < |sample| && forall s | s in sample :: Fresh(s)
    ensures i < |Uninterrupted(PhasesOf(o), sample)|
    ensures var (p, s) := (Uninterrupted(PhasesOf(o), sample)[i], sample[i]);
      var (a, b) := (o.generate(s.prompt, Some(s.block)), o.generate(s.prompt, None));
      && (a.None? || b.None? ==> p.winner.None? && p.order.None? && !p.judgeFailed && !p.malformed)
      && (a.Some? && b.Some? ==>
            RecordsVerdict(o, p, o.orderFor(s.ts), Answer(o, s, a.value, b.value, First), Answer(o, s, a.value, b.value, Retry)))
  {
    var s := sample[i];
    assert s in sample;
    var g := Generated(o, s);
    GeneratedFacts(o, s);
    GeneratedResponses(o, s);
    UninterruptedAt(PhasesOf(o), sample, i);
    DoubledFacts(o, Judged(o, g));
    if Judgeable(g) {
      JudgedVerdict(o, g);
    }
  }

  // ---------------------------------------------------------------- the second judging

  lemma {:induction false} JudgedPositionsFacts(pairs: seq<Pair>, n: nat)
    requires n <= |pairs|
    ensures Distinct(JudgedPositions(pairs, n))
    ensures forall k | 0 <= k < n :: k in JudgedPositions(pairs, n) <==> pairs[k].winner.Some? && pairs[k].order.Some?
  {
    if n > 0 {
      JudgedPositionsFacts(pairs, n - 1);
    }
  }

  lemma {:induction false} ShuffleDistinct<A>(xs: seq<A>, i: nat, draw: nat -> nat)
    requires (i < |xs| || i == 0) && Distinct(xs)
    ensures Distinct(Shuffle(xs, i, draw))
    decreases i
  {
    if i > 0 {
      ShuffleDistinct(Swap(xs, i, draw(i) % (i + 1)), i - 1, draw);
    }
  }

  lemma ShuffledFacts(ph: Phases, judged: seq<nat>)
    requires Distinct(judged)
    ensures Distinct(Shuffled(ph, judged))
    ensures forall k :: k in Shuffled(ph, judged) <==> k in judged
  {
    var last := if judged == [] then 0 else |judged| - 1;
    var draw := (i: nat) => ph.draw(|judged|, i);
    ShuffleDistinct(judged, last, draw);
    ShufflePermutes(judged, last, draw);
    forall k ensures k in Shuffle(judged, last, draw) <==> k in judged {
      assert k in Shuffle(judged, last, draw) <==> k in multiset(Shuffle(judged, last, draw));
      assert k in judged <==> k in multiset(judged);
    }
  }

  lemma DrawnFacts(ph: Phases, judged: seq<nat>)
    requires Distinct(judged)
    ensures Distinct(Drawn(ph, judged)) && |Drawn(ph, judged)| <= 20
    ensures ph.doubleJudge && |Drawn(ph, judged)| < 20 ==> forall k | k in judged :: k in Drawn(ph, judged)
    ensures !ph.doubleJudge ==> Drawn(ph, judged) == []
  {
    ShuffledFacts(ph, judged);
    TakeMembers(Shuffled(ph, judged), DOUBLE_JUDGE_N);
  }

  lemma ReportedWinner(o: Oracle, sample: seq<Pair>, k: nat)
    requires k < |sample| && forall s | s in sample :: Fresh(s)
    ensures |Uninterrupted(PhasesOf(o), sample)| == |sample|
    ensures var settled := Settle(PhasesOf(o))(sample[k]);
      Uninterrupted(PhasesOf(o), sample)[k].winner == settled.winner && (settled.winner.Some? ==> settled.order.Some?)
  {
    assert sample[k] in sample;
    UninterruptedAt(PhasesOf(o), sample, k);
    GeneratedFacts(o, sample[k]);
    JudgedFacts(o, Generated(o, sample[k]));
    DoubledFacts(o, Judged(o, Generated(o, sample[k])));
  }

  lemma TwiceFacts(ph: Phases, sample: seq<Pair>)
    ensures var twice := Twice(ph, sample);
      && Distinct(twice) && |twice| <= 20 && (!ph.doubleJudge ==> twice == [])
      && (ph.doubleJudge && |twice| < 20 ==> forall k: nat | k < |sample| ::
            Settle(ph)(sample[k]).winner.Some? && Settle(ph)(sample[k]).order.Some? ==> k in twice)
  {
    var settled := Map(Settle(ph), sample);
    MapAt(Settle(ph), sample);
    JudgedPositionsFacts(settled, |settled|);
    DrawnFacts(ph, JudgedPositions(settled, |settled|));
  }

  /** Of a full run's won pairs at most twenty are judged a second time, each once, and all of them if
      there are fewer; a pilot judges none. */
  lemma TwiceDrawn(o: Oracle, sample: seq<Pair>)
    requires forall s | s in sample :: Fresh(s)
    ensures |Uninterrupted(PhasesOf(o), sample)| == |sample|
    ensures var (twice, reported) := (Twice(PhasesOf(o), sample), Uninterrupted(PhasesOf(o), sample));
      && Distinct(twice) && |twice| <= 20
      && (forall k | k in twice :: k < |sample| && reported[k].winner.Some?)
      && (o.doubleJudge && |twice| < 20 ==> forall k: nat | k < |sample| && reported[k].winner.Some? :: k in twice)
      && (!o.doubleJudge ==> twice == [])
  {
    var ph := PhasesOf(o);
    UninterruptedLength(ph, sample);
    TwiceFacts(ph, sample);
    MapAt(Settle(ph), sample);
    forall k: nat | k < |sample|
      ensures Uninterrupted(ph, sample)[k].winner == Settle(ph)(sample[k]).winner
      ensures Settle(ph)(sample[k]).winner.Some? ==> Settle(ph)(sample[k]).order.Some?
      ensures k in Twice(ph, sample) ==> Settle(ph)(sample[k]).winner.Some?
    {
      ReportedWinner(o, sample, k);
      if k in Twice(ph, sample) {
        WonTwice(ph, sample, k);
      }
    }
  }

  /** What the second judging records, by the reply to its one call. */
  predicate RecordsAgain(o: Oracle, p: Pair, order: Order, twice: bool, reply: Option<string>) {
    && (p.doubleJudged <==> twice && reply.Some?)
    && (p.doubleJudged <==> p.doubleWinner.Some?)
    && (p.doubleJudged && Unreadable(o, reply) ==> p.doubleWinner == Some(Tie))
    && (p.doubleJudged && Reads(o, reply, FavoursX) ==> p.doubleWinner == Some(Won(order.x)))
    && (p.doubleJudged && Reads(o, reply, FavoursY) ==> p.doubleWinner == Some(Won(order.y)))
    && (p.doubleJudged && Reads(o, reply, NoPreference) ==> p.doubleWinner == Some(Tie))
  }

  lemma DoubledVerdict(o: Oracle, j: Pair)
    requires Judgeable(j) && !j.doubleJudged && j.doubleWinner.None? && j.order == Some(o.orderFor(j.ts))
    ensures RecordsAgain(o, Doubled(o, j), j.order.value, true, Answer(o, j, j.responseA.value, j.responseB.value, Second))
  {
  }

  /** A reported pair was judged twice exactly if it was drawn and the second call replied, in the
      order of the first judging; its second winner is the arm shown at the favoured place, and nobody
      if that reply does not parse. */
  lemma ReportedAgain(o: Oracle, sample: seq<Pair>, i: nat)
    requires i < |sample| && forall s | s in sample :: Fresh(s)
    ensures i < |Uninterrupted(PhasesOf(o), sample)|
    ensures var (p, s) := (Uninterrupted(PhasesOf(o), sample)[i], sample[i]);
      var (a, b) := (o.generate(s.prompt, Some(s.block)), o.generate(s.prompt, None));
      && (a.None? || b.None? ==> !p.doubleJudged)
      && (a.Some? && b.Some? ==>
            RecordsAgain(o, p, o.orderFor(s.ts), i in Twice(PhasesOf(o), sample), Answer(o, s, a.value, b.value, Second)))
  {
    var (ph, s) := (PhasesOf(o), sample[i]);
    assert s in sample;
    var g := Generated(o, s);
    GeneratedFacts(o, s);
    GeneratedResponses(o, s);
    JudgedFacts(o, g);
    UninterruptedAt(ph, sample, i);
    if i in Twice(ph, sample) {
      WonTwice(ph, sample, i);
      JudgedVerdict(o, g);
      DoubledVerdict(o, Judged(o, g));
    }
  }

  // ---------------------------------------------------------------- a judge that reads the responses only

  /** Which of two responses is better; at most one of them is. */
  ghost predicate Preference(better: (string, string) -> bool) {
    forall x, y :: better(x, y) ==> !better(y, x)
  }

  /** A reply that comes and parses favours the better response, wherever it is shown. */
  ghost predicate Fair(o: Oracle, better: (string, string) -> bool) {
    forall prompt, x, y, attempt ::
      var reply := o.judge(prompt, x, y, attempt);
      reply.Some? && o.parse(reply.value).Some? ==>
        o.parse(reply.value) == Some(if better(x, y) then FavoursX else if better(y, x) then FavoursY else NoPreference)
  }

  /** The judge always replies, and a retry or a second judging gets a reply that parses; a first one
      need not. */
  ghost predicate Replies(o: Oracle) {
    forall prompt, x, y, attempt ::
      var reply := o.judge(prompt, x, y, attempt);
      reply.Some? && (attempt != First ==> o.parse(reply.value).Some?)
  }

  /** Both arms are shown, in one order or the other. */
  ghost predicate ShowsBoth(o: Oracle) {
    forall key :: o.orderFor(key) == Order(ArmA, ArmB) || o.orderFor(key) == Order(ArmB, ArmA)
  }

  function BetterArm(better: (string, string) -> bool, a: string, b: string): Winner {
    if better(a, b) then Won(ArmA) else if better(b, a) then Won(ArmB) else Tie
  }

  /** The winner that a reply names, if it parses, is the better arm. */
  lemma ReadsFairly(o: Oracle, better: (string, string) -> bool, s: Pair, a: string, b: string, attempt: Attempt, verdict: Verdict)
    requires Preference(better) && Fair(o, better) && ShowsBoth(o)
    requires Reads(o, Answer(o, s, a, b, attempt), verdict)
    ensures Resolve(o.orderFor(s.ts), verdict) == BetterArm(better, a, b)
  {
    var order := o.orderFor(s.ts);
    var (x, y) := (Shown(a, b, order.x), Shown(a, b, order.y));
    assert o.parse(o.judge(s.prompt, x, y, attempt).value).Some?;
  }

  lemma ReadOrNot(o: Oracle, reply: Option<string>)
    ensures reply.None? || Unreadable(o, reply) || Reads(o, reply, FavoursX) || Reads(o, reply, FavoursY) || Reads(o, reply, NoPreference)
  {
    if reply.Some? && o.parse(reply.value).Some? {
      match o.parse(reply.value).value
      case FavoursX =>
      case FavoursY =>
      case NoPreference =>
    }
  }

  /** Fair replies make a fair record: a winner that no malformed judging left is the better arm, and
      so is a second winner whose reply parses. */
  lemma RecordedFairly(o: Oracle, better: (string, string) -> bool, s: Pair, p: Pair, a: string, b: string, twice: bool)
    requires Preference(better) && Fair(o, better) && ShowsBoth(o)
    requires RecordsVerdict(o, p, o.orderFor(s.ts), Answer(o, s, a, b, First), Answer(o, s, a, b, Retry))
    requires RecordsAgain(o, p, o.orderFor(s.ts), twice, Answer(o, s, a, b, Second))
    ensures p.winner.Some? && !p.malformed ==> p.winner == Some(BetterArm(better, a, b))
    ensures p.doubleJudged && !Unreadable(o, Answer(o, s, a, b, Second)) ==> p.doubleWinner == Some(BetterArm(better, a, b))
  {
    forall attempt, verdict | Reads(o, Answer(o, s, a, b, attempt), verdict)
      ensures Resolve(o.orderFor(s.ts), verdict) == BetterArm(better, a, b)
    {
      ReadsFairly(o, better, s, a, b, attempt, verdict);
    }
    ReadOrNot(o, Answer(o, s, a, b, First));
    ReadOrNot(o, Answer(o, s, a, b, Retry));
    ReadOrNot(o, Answer(o, s, a, b, Second));
  }

  /** The order in which a pair is shown does not matter: with a judge whose replies are fair when they
      parse, a pair that is won, and not by a malformed judging, is won by the arm with the better
      response, and a second judging agrees or is a tie. */
  lemma WonFairly(o: Oracle, better: (string, string) -> bool, sample: seq<Pair>, i: nat)
    requires i < |sample| && forall s | s in sample :: Fresh(s)
    requires Preference(better) && Fair(o, better) && ShowsBoth(o)
    ensures i < |Uninterrupted(PhasesOf(o), sample)|
    ensures var p := Uninterrupted(PhasesOf(o), sample)[i];
      && (p.winner.Some? ==> p.responseA.Some? && p.responseB.Some?)
      && (p.winner.Some? && !p.malformed ==> p.winner == Some(BetterArm(better, p.responseA.value, p.responseB.value)))
      && (p.doubleJudged ==>
            p.winner.Some? && p.doubleWinner in {Some(BetterArm(better, p.responseA.value, p.responseB.value)), Some(Tie)})
  {
    ReportedResponses(o, sample, i);
    var (p, s) := (Uninterrupted(PhasesOf(o), sample)[i], sample[i]);
    ReportedVerdict(o, sample, i);
    ReportedAgain(o, sample, i);
    if p.responseA.Some? && p.responseB.Some? {
      RecordedFairly(o, better, s, p, p.responseA.value, p.responseB.value, i in Twice(PhasesOf(o), sample));
    }
    TwiceDrawn(o, sample);
  }

  /** And with one that always replies, and readably when asked again, every generated pair is won
      so, and a second judging agrees. */
  lemma ReportedFairly(o: Oracle, better: (string, string) -> bool, sample: seq<Pair>, i: nat)
    requires i < |sample| && forall s | s in sample :: Fresh(s)
    requires Preference(better) && Fair(o, better) && Replies(o) && ShowsBoth(o)
    ensures i < |Uninterrupted(PhasesOf(o), sample)|
    ensures var p := Uninterrupted(PhasesOf(o), sample)[i];
      !p.genFailed ==>
        && p.responseA.Some? && p.responseB.Some?
        && p.winner == Some(BetterArm(better, p.responseA.value, p.responseB.value))
        && (p.doubleJudged ==> p.doubleWinner == p.winner)
  {
    ReportedResponses(o, sample, i);
    var (p, s) := (Uninterrupted(PhasesOf(o), sample)[i], sample[i]);
    ReportedVerdict(o, sample, i);
    ReportedAgain(o, sample, i);
    if !p.genFailed {
      var (a, b) := (p.responseA.value, p.responseB.value);
      RecordedFairly(o, better, s, p, a, b, i in Twice(PhasesOf(o), sample));
      forall attempt ensures Answer(o, s, a, b, attempt).Some? && (attempt != First ==> !Unreadable(o, Answer(o, s, a, b, attempt))) {
        var order := o.orderFor(s.ts);
        assert o.judge(s.prompt, Shown(a, b, order.x), Shown(a, b, order.y), attempt).Some?;
      }
    }
  }
}
