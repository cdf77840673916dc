/** The labelling passes over sampled pairs: strided workers judge every row once whatever order
    they run in, calls that fail leave an outcome too, and a retry of the failed rows is merged in. */
module LabelPass {
  import opened Seqs
  import opened Wrappers

  const CONCURRENCY := 3

  datatype Row = Row(pairId: string, stratum: string)

  /** A call either gives a reply, which may or may not hold a verdict, or it throws. */
  datatype Reply<V> = Judged(verdict: Option<V>) | Threw(message: string)

  datatype Outcome<V> = Outcome(pairId: string, stratum: string, verdict: Option<V>, error: Option<string>) {
    /** The test the source uses: an empty error message is falsy. */
    predicate Failing() { error.Some? && error.value != "" }

    predicate Parsed() { verdict.Some? }

    predicate ParseFail() { verdict.None? && !Failing() }
  }

  function OutcomeOf<V>(row: Row, reply: Reply<V>): Outcome<V> {
    match reply
    case Judged(verdict) => Outcome(row.pairId, row.stratum, verdict, None)
    case Threw(message) => Outcome(row.pairId, row.stratum, None, Some(message))
  }

  // ---------------------------------------------------------------- one pass, as interleaved turns

  /** Where each worker is, the outcomes, the count of rows done, and which rows were judged. */
  datatype State<V> = State(at: seq<nat>, out: map<string, Outcome<V>>, done: nat, judged: seq<nat>)

  /** Worker `w` gets its reply, records the outcome and strides on. */
  function Turn<V>(rows: seq<Row>, ask: Row -> Reply<V>, s: State<V>, w: nat): State<V>
    requires w < |s.at|
  {
    var i := s.at[w];
    if i >= |rows| then s
    else
      State(s.at[w := i + |s.at|], s.out[rows[i].pairId := OutcomeOf(rows[i], ask(rows[i]))], s.done + 1, s.judged + [i])
  }

  function Start<V>(workers: nat): State<V> {
    State(seq(workers, w => w), map[], 0, [])
  }

  /** The outcomes of some rows, recorded in this order. */
  function Recorded<V>(rows: seq<Row>, ask: Row -> Reply<V>, judged: seq<nat>): map<string, Outcome<V>>
    requires forall i | i in judged :: i < |rows|
  {
    if judged == [] then map[]
    else
      var n := |judged| - 1;
      assert judged[n] in judged && forall i | i in judged[..n] :: i in judged;
      var i := judged[n];
      Recorded(rows, ask, judged[..n])[rows[i].pairId := OutcomeOf(rows[i], ask(rows[i]))]
  }

  /** Worker `w` has judged the rows of its residue class before its position, each once. */
  ghost predicate Inv<V>(rows: seq<Row>, ask: Row -> Reply<V>, s: State<V>) {
    && |s.at| > 0
    && (forall w: nat {:trigger At(w)} :: At(w) && w < |s.at| ==> s.at[w] % |s.at| == w)
    && (forall i | i in s.judged :: i < |rows|)
    && (forall i: nat {:trigger At(i)} :: At(i) && i < |rows| ==> (i in s.judged <==> i < s.at[i % |s.at|]))
    && Distinct(s.judged) && s.done == |s.judged|
    && s.out == Recorded(rows, ask, s.judged)
  }

  lemma {:induction false} MultipleAtLeast(n: nat, d: nat)
    requires d > 0
    ensures n * d >= n
  {
    if d > 1 {
      MultipleAtLeast(n, d - 1);
      assert n * d == n * (d - 1) + n;
    }
  }

  lemma MultipleIsFar(n: int, d: int)
    requires n >= 0
    ensures d > 0 ==> n * d >= n
    ensures d < 0 ==> n * d <= -n
  {
    if d > 0 {
      MultipleAtLeast(n, d);
    } else if d < 0 {
      MultipleAtLeast(n, -d);
      assert n * d == -(n * -d);
    }
  }

  lemma SmallMod(i: nat, n: nat)
    requires i < n
    ensures i % n == i
  {
  }

  lemma ModAtMost(i: nat, n: nat)
    requires n > 0
    ensures i % n <= i
  {
  }

  lemma NextInClass(i: nat, n: nat)
    requires n > 0
    ensures (i + n) % n == i % n
  {
    var q, r := i / n, i % n;
    assert i + n == n * (q + 1) + r;
    SameQuotient(i + n, n, q + 1, r);
  }

  lemma SameQuotient(x: nat, n: nat, q: int, r: int)
    requires n > 0 && x == n * q + r && 0 <= r < n
    ensures x % n == r
  {
    var d := x / n - q;
    assert n * d == r - x % n;
    MultipleIsFar(n, d);
  }

  /** Between a position and the next of its class there is no other member of the class. */
  lemma OnlyOneInStride(i: nat, at: nat, n: nat)
    requires n > 0 && i % n == at % n && at <= i < at + n
    ensures i == at
  {
    var d := i / n - at / n;
    assert n * d == i - at;
    MultipleIsFar(n, d);
  }

  lemma StartKeeps<V>(rows: seq<Row>, ask: Row -> Reply<V>, workers: nat)
    requires workers > 0
    ensures Inv(rows, ask, Start(workers))
  {
    forall w: nat | At(w) && w < workers ensures Start<V>(workers).at[w] % workers == w {
      SmallMod(w, workers);
    }
    forall i: nat | At(i) && i < |rows| ensures i >= Start<V>(workers).at[i % workers] {
      ModAtMost(i, workers);
    }
  }

  lemma ReachedBy<V>(rows: seq<Row>, ask: Row -> Reply<V>, s: State<V>, w: nat, i: nat)
    requires Inv(rows, ask, s) && w < |s.at| && s.at[w] < |rows| && i < |rows|
    ensures var at := s.at[w := s.at[w] + |s.at|];
      i < at[i % |s.at|] <==> i in s.judged || i == s.at[w]
  {
    var n := |s.at|;
    assert At(w) && At(i);
    if i % n == w && s.at[w] <= i < s.at[w] + n {
      OnlyOneInStride(i, s.at[w], n);
    }
  }

  lemma TurnKeeps<V>(rows: seq<Row>, ask: Row -> Reply<V>, s: State<V>, w: nat)
    requires w < |s.at| && Inv(rows, ask, s)
    ensures Inv(rows, ask, Turn(rows, ask, s, w))
  {
    var i, t := s.at[w], Turn(rows, ask, s, w);
    if i < |rows| {
      assert At(w) && At(i);
      NextInClass(i, |s.at|);
      assert i !in s.judged;
      assert t.judged[..|s.judged|] == s.judged;
      forall j: nat | At(j) && j < |rows| ensures j in t.judged <==> j < t.at[j % |t.at|] {
        ReachedBy(rows, ask, s, w, j);
      }
    }
  }

  /** What a pass leaves once every worker has run past the end: every row was judged, once. */
  lemma PassEnds<V>(rows: seq<Row>, ask: Row -> Reply<V>, s: State<V>)
    requires Inv(rows, ask, s) && forall w | 0 <= w < |s.at| :: s.at[w] >= |rows|
    ensures forall i: nat | i < |rows| :: i in s.judged
    ensures OneOutcomeEach(rows, ask, s.out)
  {
    forall i: nat | i < |rows| ensures i in s.judged {
      assert At(i) && s.at[i % |s.at|] >= |rows|;
    }
    RecordedOutcomes(rows, ask, s.judged);
  }

  /** Exactly the rows' ids have an outcome, and each is that of a row with the id. */
  ghost predicate OneOutcomeEach<V>(rows: seq<Row>, ask: Row -> Reply<V>, out: map<string, Outcome<V>>) {
    && (forall row | row in rows :: row.pairId in out)
    && (forall id | id in out :: exists row | row in rows :: row.pairId == id && out[id] == OutcomeOf(row, ask(row)))
  }

  lemma {:induction false} RecordedOutcomes<V>(rows: seq<Row>, ask: Row -> Reply<V>, judged: seq<nat>)
    requires forall i | i in judged :: i < |rows|
    ensures var out := Recorded(rows, ask, judged);
      && (forall i | i in judged :: rows[i].pairId in out)
      && (forall id | id in out :: exists row | row in rows :: row.pairId == id && out[id] == OutcomeOf(row, ask(row)))
  {
    if judged != [] {
      var n := |judged| - 1;
      assert judged[n] in judged && forall i | i in judged[..n] :: i in judged;
      RecordedOutcomes(rows, ask, judged[..n]);
      assert judged == judged[..n] + [judged[n]];
      assert rows[judged[n]] in rows;
    }
  }

  function Distance(at: seq<nat>, end: nat): nat {
    if at == [] then 0 else (if at[0] < end then end - at[0] else 0) + Distance(at[1..], end)
  }

  lemma {:induction false} DistanceShrinks(at: seq<nat>, end: nat, w: nat, further: nat)
    requires w < |at| && at[w] < end && at[w] < further
    ensures Distance(at[w := further], end) < Distance(at, end)
  {
    if w == 0 {
      assert at[w := further][1..] == at[1..];
    } else {
      DistanceShrinks(at[1..], end, w - 1, further);
      assert at[w := further][1..] == at[1..][w - 1 := further];
    }
  }

  /** The variables the workers of one pass share, and where each of them is. */
  class Pass<V> {
    var at: seq<nat>
    var out: map<string, Outcome<V>>
    var done: nat
    ghost var judged: seq<nat>

    constructor ()
      ensures Current() == Start(CONCURRENCY)
    {
      at := seq(CONCURRENCY, w => w);
      out, done, judged := map[], 0, [];
    }

    ghost function Current(): State<V>
      reads this
    {
      State(at, out, done, judged)
    }

    /** Worker `w` gets its reply or exception, records it and strides on. */
    method Advance(rows: seq<Row>, ask: Row -> Reply<V>, w: nat)
      requires w < |at| && at[w] < |rows|
      modifies this
      ensures Current() == Turn(rows, ask, old(Current()), w)
    {
      var i := at[w];
      var row := rows[i];
      match ask(row) {
        case Judged(verdict) => out := out[row.pairId := Outcome(row.pairId, row.stratum, verdict, None)];
        case Threw(message) => out := out[row.pairId := Outcome(row.pairId, row.stratum, None, Some(message))];
      }
      done, judged := done + 1, judged + [i];
      at := at[w := i + |at|];
    }

    /** The same, with what every turn keeps. */
    method TakeTurn(rows: seq<Row>, ask: Row -> Reply<V>, w: nat)
      requires w < |at| && at[w] < |rows| && Inv(rows, ask, Current())
      modifies this
      ensures Inv(rows, ask, Current()) && Distance(at, |rows|) < Distance(old(at), |rows|)
    {
      TurnKeeps(rows, ask, Current(), w);
      DistanceShrinks(at, |rows|, w, at[w] + |at|);
      Advance(rows, ask, w);
    }
  }

  /** `runPass` under any scheduler of its workers. */
  method RunPass<V>(rows: seq<Row>, ask: Row -> Reply<V>) returns (out: map<string, Outcome<V>>, ghost judged: seq<nat>)
    ensures OneOutcomeEach(rows, ask, out)
    ensures Distinct(judged) && forall i: nat :: i in judged <==> i < |rows|
  {
    var pass := new Pass<V>();
    StartKeeps(rows, ask, CONCURRENCY);
    while exists w | 0 <= w < |pass.at| :: pass.at[w] < |rows|
      invariant fresh(pass) && Inv(rows, ask, pass.Current())
      decreases Distance(pass.at, |rows|)
    {
      var w :| 0 <= w < |pass.at| && pass.at[w] < |rows|;
      pass.TakeTurn(rows, ask, w);
    }
    PassEnds(rows, ask, pass.Current());
    out, judged := pass.out, pass.judged;
  }

  // ---------------------------------------------------------------- the retry

  function Failed<V>(out: map<string, Outcome<V>>): Row -> bool {
    (row: Row) => row.pairId in out && out[row.pairId].Failing()
  }

  /** The outcome a row ends with: the retry's if the first call failed and the retry did not. */
  function FinalOutcome<V>(row: Row, first: Row -> Reply<V>, second: Row -> Reply<V>): Outcome<V> {
    Retried(OutcomeOf(row, first(row)), OutcomeOf(row, second(row)))
  }

  function Retried<V>(a: Outcome<V>, b: Outcome<V>): Outcome<V> {
    if a.Failing() && !b.Failing() then b else a
  }

  /** What an outcome records of the call about row `p`, and of the retry about row `q`: the verdict of
      the first call, parsed or not, if that call gave a reply; if it threw a message, the verdict of
      the retry if that gave one, and else the first message; but an empty message counts as none, so
      a first call that throws it is not retried and a retry that throws it replaces the first. */
  predicate Records<V(==)>(o: Outcome<V>, p: Row, a: Reply<V>, q: Row, b: Reply<V>) {
    match a
    case Judged(verdict) => o == Outcome(p.pairId, p.stratum, verdict, None)
    case Threw(message) =>
      if message == "" then o == Outcome(p.pairId, p.stratum, None, Some(""))
      else
        match b
        case Judged(verdict) => o == Outcome(q.pairId, q.stratum, verdict, None)
        case Threw(again) =>
          if again == "" then o == Outcome(q.pairId, q.stratum, None, Some("")) else o == Outcome(p.pairId, p.stratum, None, Some(message))
  }

  lemma RetriedRecords<V>(p: Row, a: Reply<V>, q: Row, b: Reply<V>)
    ensures Records(Retried(OutcomeOf(p, a), OutcomeOf(q, b)), p, a, q, b)
  {
  }

  /** The outcome comes from the calls about rows with this id: one of the first pass, and if that
      failed one of the retry. */
  ghost predicate FromRows<V>(rows: seq<Row>, first: Row -> Reply<V>, second: Row -> Reply<V>, id: string, outcome: Outcome<V>) {
    exists p, q | p in rows && q in rows :: p.pairId == id && q.pairId == id && Records(outcome, p, first(p), q, second(q))
  }

  /** No two rows share an id. */
  predicate DistinctIds(rows: seq<Row>) {
    forall p, q | p in rows && q in rows && p.pairId == q.pairId :: p == q
  }

  lemma OutcomeOfRow<V>(rows: seq<Row>, ask: Row -> Reply<V>, out: map<string, Outcome<V>>, row: Row)
    requires OneOutcomeEach(rows, ask, out) && DistinctIds(rows) && row in rows
    ensures row.pairId in out && out[row.pairId] == OutcomeOf(row, ask(row))
  {
  }

  lemma KeysAreIds<V>(rows: seq<Row>, ask: Row -> Reply<V>, out: map<string, Outcome<V>>)
    requires OneOutcomeEach(rows, ask, out)
    ensures out.Keys == set row | row in rows :: row.pairId
  {
  }

  /** The first outcomes with the second ones set over them, but for those that failed again and
      for `todo`. */
  function MergedBut<V>(first: map<string, Outcome<V>>, second: map<string, Outcome<V>>, todo: set<string>): map<string, Outcome<V>> {
    map id | id in first.Keys + second.Keys && (id in first || (id !in todo && !second[id].Failing())) ::
      if id in second && id !in todo && !second[id].Failing() then second[id] else first[id]
  }

  lemma MergeStep<V>(first: map<string, Outcome<V>>, second: map<string, Outcome<V>>, todo: set<string>, id: string)
    requires id in todo && id in second
    ensures var so := MergedBut(first, second, todo);
      MergedBut(first, second, todo - {id}) == if second[id].Failing() then so else so[id := second[id]]
  {
  }

  lemma MergeStarts<V>(first: map<string, Outcome<V>>, second: map<string, Outcome<V>>)
    ensures MergedBut(first, second, second.Keys) == first
  {
  }

  /** Setting the second pass's outcomes over the first's, as the loop over the second map does. */
  method Merge<V>(first: map<string, Outcome<V>>, second: map<string, Outcome<V>>) returns (out: map<string, Outcome<V>>)
    ensures out == MergedBut(first, second, {})
  {
    out := first;
    MergeStarts(first, second);
    var todo := second.Keys;
    while todo != {}
      invariant todo <= second.Keys && out == MergedBut(first, second, todo)
      decreases todo
    {
      var id :| id in todo;
      MergeStep(first, second, todo, id);
      if !second[id].Failing() {
        out := out[id := second[id]];
      }
      todo := todo - {id};
    }
  }

  lemma RetriedOnlyFailed<V>(rows: seq<Row>, second: Row -> Reply<V>, one: map<string, Outcome<V>>, two: map<string, Outcome<V>>)
    requires OneOutcomeEach(Filter(Failed(one), rows), second, two)
    ensures forall id | id in two :: id in one && one[id].Failing()
    ensures forall row | row in rows && Failed(one)(row) :: row in Filter(Failed(one), rows) && row.pairId in two
  {
    FilterMembers(Failed(one), rows);
  }

  lemma MergedRow<V>(rows: seq<Row>, first: Row -> Reply<V>, second: Row -> Reply<V>,
                     one: map<string, Outcome<V>>, two: map<string, Outcome<V>>, row: Row)
    requires OneOutcomeEach(rows, first, one) && OneOutcomeEach(Filter(Failed(one), rows), second, two)
    requires DistinctIds(rows) && row in rows
    ensures row.pairId in MergedBut(one, two, {}) && MergedBut(one, two, {})[row.pairId] == FinalOutcome(row, first, second)
  {
    var failed := Filter(Failed(one), rows);
    RetriedOnlyFailed(rows, second, one, two);
    FilterMembers(Failed(one), rows);
    OutcomeOfRow(rows, first, one, row);
    if Failed(one)(row) {
      OutcomeOfRow(failed, second, two, row);
    }
  }

  lemma MergedFromRows<V>(rows: seq<Row>, first: Row -> Reply<V>, second: Row -> Reply<V>,
                          one: map<string, Outcome<V>>, two: map<string, Outcome<V>>, id: string)
    requires OneOutcomeEach(rows, first, one) && OneOutcomeEach(Filter(Failed(one), rows), second, two)
    requires id in one
    ensures id in MergedBut(one, two, {}) && FromRows(rows, first, second, id, MergedBut(one, two, {})[id])
  {
    RetriedOnlyFailed(rows, second, one, two);
    var p :| p in rows && p.pairId == id && one[id] == OutcomeOf(p, first(p));
    MergedAt(one, two, id);
    if id in two {
      FilterMembers(Failed(one), rows);
      var q :| q in Filter(Failed(one), rows) && q.pairId == id && two[id] == OutcomeOf(q, second(q));
      assert one[id].Failing();
      RetriedRecords(p, first(p), q, second(q));
    } else {
      assert !Failed(one)(p) && !one[id].Failing();
      RetriedRecords(p, first(p), p, second(p));
    }
  }

  lemma MergedAt<V>(one: map<string, Outcome<V>>, two: map<string, Outcome<V>>, id: string)
    requires id in one
    ensures id in MergedBut(one, two, {})
    ensures MergedBut(one, two, {})[id] == if id in two && !two[id].Failing() then two[id] else one[id]
  {
  }

  lemma MergedKeys<V>(rows: seq<Row>, second: Row -> Reply<V>, one: map<string, Outcome<V>>, two: map<string, Outcome<V>>)
    requires OneOutcomeEach(Filter(Failed(one), rows), second, two)
    ensures MergedBut(one, two, {}).Keys == one.Keys
  {
    RetriedOnlyFailed(rows, second, one, two);
  }

  function Keep<V>(out: map<string, Outcome<V>>, p: Outcome<V> -> bool): set<string> {
    set id | id in out && p(out[id])
  }

  /** Every outcome is counted once: as parsed, as a parse failure, or as a failed call. */
  lemma CountedOnce<V>(out: map<string, Outcome<V>>)
    requires forall id | id in out && out[id].Parsed() :: !out[id].Failing()
    ensures |Keep(out, (o: Outcome<V>) => o.Parsed())| + |Keep(out, (o: Outcome<V>) => o.ParseFail())|
            + |Keep(out, (o: Outcome<V>) => o.Failing())| == |out|
  {
    var parsed, blank, failing := Keep(out, (o: Outcome<V>) => o.Parsed()), Keep(out, (o: Outcome<V>) => o.ParseFail()),
                                  Keep(out, (o: Outcome<V>) => o.Failing());
    assert parsed + blank + failing == out.Keys;
    assert |parsed + blank| == |parsed| + |blank| && (parsed + blank) !! failing;
  }

  /** `main` up to the counts: a first pass, a second over the rows that failed, and the merge.
      Every row ends with exactly one outcome, whichever calls failed. */
  method LabelAll<V>(rows: seq<Row>, first: Row -> Reply<V>, second: Row -> Reply<V>) returns (out: map<string, Outcome<V>>)
    ensures out.Keys == set row | row in rows :: row.pairId
    ensures DistinctIds(rows) ==> forall row | row in rows :: Records(out[row.pairId], row, first(row), row, second(row))
    ensures forall id | id in out :: FromRows(rows, first, second, id, out[id])
  {
    var one, two: map<string, Outcome<V>>;
    ghost var judged;
    one, judged := RunPass(rows, first);
    KeysAreIds(rows, first, one);
    var failed := Filter(Failed(one), rows);
    two := map[];
    if failed != [] {
      two, judged := RunPass(failed, second);
    }
    out := Merge(one, two);
    MergedKeys(rows, second, one, two);
    forall id | id in out ensures FromRows(rows, first, second, id, out[id]) {
      MergedFromRows(rows, first, second, one, two, id);
    }
    if DistinctIds(rows) {
      forall row | row in rows ensures Records(out[row.pairId], row, first(row), row, second(row)) {
        MergedRow(rows, first, second, one, two, row);
        RetriedRecords(row, first(row), row, second(row));
      }
    }
  }

  /** A failed call can still be counted as a parse failure, and exactly so: the first call threw
      an empty message, or the first threw a message and the retry an empty one. */
  lemma FailureCountedAsParseFail<V>(row: Row, first: Row -> Reply<V>, second: Row -> Reply<V>)
    ensures var final := FinalOutcome(row, first, second);
      final.ParseFail() && final.error.Some?
      <==> first(row) == Threw("") || (first(row).Threw? && first(row).message != "" && second(row) == Threw(""))
  {
  }
}
