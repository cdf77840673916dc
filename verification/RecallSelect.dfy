/** Which recall hits a hook fire injects: an absolute floor, a floor relative to the fire's
    median score, de-duplication against the memo, and two caps. */
module RecallSelect {
  import opened Seqs

  datatype Hit = Hit(id: string, score: real)

  /** The two floors, as read from the environment. */
  datatype Floors = Floors(absolute: real, relative: real)

  function ScoreOf(): Hit -> real { (hit: Hit) => hit.score }

  function Scores(hits: seq<Hit>): seq<real> {
    Map(ScoreOf(), hits)
  }

  function Insert(x: real, sorted: seq<real>): seq<real> {
    if sorted == [] || x <= sorted[0] then [x] + sorted else [sorted[0]] + Insert(x, sorted[1..])
  }

  function Sort(xs: seq<real>): (r: seq<real>)
    ensures |r| == |xs|
  {
    if xs == [] then []
    else
      var rest := Sort(xs[1..]);
      InsertLength(xs[0], rest);
      Insert(xs[0], rest)
  }

  lemma {:induction false} InsertLength(x: real, sorted: seq<real>)
    ensures |Insert(x, sorted)| == |sorted| + 1
  {
    if sorted != [] && x > sorted[0] {
      InsertLength(x, sorted[1..]);
    }
  }

  /** The upper median; zero for no hits. */
  function MedianScore(hits: seq<Hit>): real {
    var sorted := Sort(Scores(hits));
    if sorted == [] then 0.0 else sorted[|sorted| / 2]
  }

  function RelativeCut(hits: seq<Hit>, floors: Floors): real {
    if floors.relative > 0.0 then floors.relative * MedianScore(hits) else 0.0
  }

  function Clears(absolute: real, cut: real): Hit -> bool {
    (hit: Hit) => hit.score >= absolute && hit.score >= cut
  }

  function Eligible(absolute: real, cut: real, surfaced: set<string>): Hit -> bool {
    (hit: Hit) => hit.score >= absolute && hit.score >= cut && hit.id !in surfaced
  }

  function Limit(perFire: nat, perConversation: nat, surfaced: set<string>): nat {
    var budget := if |surfaced| < perConversation then perConversation - |surfaced| else 0;
    if perFire < budget then perFire else budget
  }

  function SelectHits(hits: seq<Hit>, surfaced: set<string>, floors: Floors, perFire: nat, perConversation: nat): seq<Hit> {
    var eligible := Filter(Eligible(floors.absolute, RelativeCut(hits, floors), surfaced), hits);
    Take(eligible, Limit(perFire, perConversation, surfaced))
  }

  /** The caps cut by rank: what is selected is every eligible hit of some first part of the hits. */
  lemma SelectedIsPrefix(hits: seq<Hit>, surfaced: set<string>, floors: Floors, perFire: nat, perConversation: nat) returns (m: nat)
    ensures m <= |hits|
    ensures SelectHits(hits, surfaced, floors, perFire, perConversation)
         == Filter(Eligible(floors.absolute, RelativeCut(hits, floors), surfaced), hits[..m])
  {
    m := TakeFiltered(Eligible(floors.absolute, RelativeCut(hits, floors), surfaced), hits, Limit(perFire, perConversation, surfaced));
  }

  lemma {:induction false} TakeFiltered<A>(p: A -> bool, xs: seq<A>, n: nat) returns (m: nat)
    ensures m <= |xs| && Take(Filter(p, xs), n) == Filter(p, xs[..m])
    decreases |xs|
  {
    if xs == [] || n == 0 {
      m := 0;
    } else {
      var rest := TakeFiltered(p, xs[1..], if p(xs[0]) then n - 1 else n);
      m := rest + 1;
      assert xs[..m] == [xs[0]] + xs[1..][..rest];
      assert xs[..m][1..] == xs[1..][..rest];
      var tail := Filter(p, xs[1..]);
      assert p(xs[0]) ==> Take([xs[0]] + tail, n) == [xs[0]] + Take(tail, n - 1);
      assert [] + tail == tail && [] + Take(tail, n) == Take(tail, n);
    }
  }

  /** So a selected hit never displaces an eligible one that recall ranked before it. */
  lemma SelectedBest(hits: seq<Hit>, surfaced: set<string>, floors: Floors, perFire: nat, perConversation: nat, i: nat, j: nat)
    requires i < j < |hits| && Distinct(hits)
    requires Eligible(floors.absolute, RelativeCut(hits, floors), surfaced)(hits[i])
    requires hits[j] in SelectHits(hits, surfaced, floors, perFire, perConversation)
    ensures hits[i] in SelectHits(hits, surfaced, floors, perFire, perConversation)
  {
    var eligible := Eligible(floors.absolute, RelativeCut(hits, floors), surfaced);
    var m := SelectedIsPrefix(hits, surfaced, floors, perFire, perConversation);
    FilterMembers(eligible, hits[..m]);
    assert hits[j] in hits[..m];
    var k :| 0 <= k < m && hits[k] == hits[j];
    assert hits[..m][i] == hits[i];
  }

  // ---------------------------------------------------------------- at least half clear the floors

  ghost predicate Sorted(xs: seq<real>) {
    forall i, j | 0 <= i < j < |xs| :: xs[i] <= xs[j]
  }

  lemma {:induction false} InsertSorted(x: real, sorted: seq<real>)
    requires Sorted(sorted)
    ensures Sorted(Insert(x, sorted))
    ensures forall y | y in Insert(x, sorted) :: y == x || y in sorted
  {
    if sorted != [] && x > sorted[0] {
      InsertSorted(x, sorted[1..]);
      var rest := Insert(x, sorted[1..]);
      forall i | 0 <= i < |rest| ensures sorted[0] <= rest[i] {
        assert rest[i] in rest;
      }
    }
  }

  lemma {:induction false} SortSorted(xs: seq<real>)
    ensures Sorted(Sort(xs))
  {
    if xs != [] {
      SortSorted(xs[1..]);
      InsertSorted(xs[0], Sort(xs[1..]));
    }
  }

  function CountFrom(xs: seq<real>, cut: real): nat {
    if xs == [] then 0 else (if xs[0] >= cut then 1 else 0) + CountFrom(xs[1..], cut)
  }

  lemma {:induction false} CountInsert(x: real, sorted: seq<real>, cut: real)
    ensures CountFrom(Insert(x, sorted), cut) == CountFrom([x] + sorted, cut)
  {
    if sorted != [] && x > sorted[0] {
      CountInsert(x, sorted[1..], cut);
      assert ([x] + sorted)[1..] == sorted && ([x] + sorted[1..])[1..] == sorted[1..];
    }
  }

  lemma {:induction false} CountSort(xs: seq<real>, cut: real)
    ensures CountFrom(Sort(xs), cut) == CountFrom(xs, cut)
  {
    if xs != [] {
      CountSort(xs[1..], cut);
      CountInsert(xs[0], Sort(xs[1..]), cut);
      assert ([xs[0]] + Sort(xs[1..]))[1..] == Sort(xs[1..]);
    }
  }

  lemma {:induction false} CountTail(xs: seq<real>, m: nat, cut: real)
    requires m <= |xs| && forall i | m <= i < |xs| :: xs[i] >= cut
    ensures CountFrom(xs, cut) >= |xs| - m
  {
    if xs != [] {
      CountTail(xs[1..], if m == 0 then 0 else m - 1, cut);
    }
  }

  lemma {:induction false} CountClearing(hits: seq<Hit>, cut: real)
    requires cut >= 0.0
    ensures |Filter(Clears(0.0, cut), hits)| == CountFrom(Scores(hits), cut)
  {
    if hits != [] {
      CountClearing(hits[1..], cut);
      assert Scores(hits)[1..] == Scores(hits[1..]);
    }
  }

  lemma {:induction false} SortMembers(xs: seq<real>)
    ensures forall y | y in Sort(xs) :: y in xs
  {
    if xs != [] {
      SortMembers(xs[1..]);
      SortSorted(xs[1..]);
      InsertSorted(xs[0], Sort(xs[1..]));
    }
  }

  lemma CutBounds(hits: seq<Hit>, floors: Floors)
    requires MedianScore(hits) >= 0.0 && floors.relative <= 1.0
    ensures 0.0 <= RelativeCut(hits, floors) <= MedianScore(hits)
  {
    var median := MedianScore(hits);
    ScaleDown(floors.relative, median);
    assert RelativeCut(hits, floors) == if floors.relative > 0.0 then floors.relative * median else 0.0;
  }

  lemma SortedFrom(xs: seq<real>, m: nat)
    requires Sorted(xs) && m < |xs|
    ensures forall i | m <= i < |xs| :: xs[i] >= xs[m]
  {
  }

  /** With non-negative scores, no absolute floor and a relative floor of at most one, at least
      half of the hits, rounded up, clear the floors. */
  lemma HalfClear(hits: seq<Hit>, floors: Floors)
    requires forall hit | hit in hits :: hit.score >= 0.0
    requires floors.absolute == 0.0 && floors.relative <= 1.0
    ensures 2 * |Filter(Clears(0.0, RelativeCut(hits, floors)), hits)| >= |hits|
  {
    if hits != [] {
      var xs := Scores(hits);
      var sorted := Sort(xs);
      var median := sorted[|sorted| / 2];
      var cut := RelativeCut(hits, floors);
      MapAt(ScoreOf(), hits);
      SortSorted(xs);
      SortMembers(xs);
      assert median in xs;
      assert median >= 0.0;
      CutBounds(hits, floors);
      SortedFrom(sorted, |sorted| / 2);
      CountTail(sorted, |sorted| / 2, cut);
      CountSort(xs, cut);
      CountClearing(hits, cut);
    }
  }

  lemma ScaleDown(factor: real, x: real)
    requires factor <= 1.0 && x >= 0.0
    ensures factor > 0.0 ==> 0.0 <= factor * x <= x
  {
    if factor > 0.0 {
      assert (1.0 - factor) * x >= 0.0;
    }
  }

  // ---------------------------------------------------------------- the median, by counting

  function Below(m: real): Hit -> bool { (hit: Hit) => hit.score < m }

  function Above(m: real): Hit -> bool { (hit: Hit) => hit.score > m }

  /** One of the scores, with at most half of the hits below it and less than half above. */
  ghost predicate UpperMedian(hits: seq<Hit>, m: real) {
    && (exists i | 0 <= i < |hits| :: hits[i].score == m)
    && 2 * |Filter(Below(m), hits)| <= |hits|
    && 2 * |Filter(Above(m), hits)| < |hits|
  }

  function CountIf(p: real -> bool, xs: seq<real>): nat {
    if xs == [] then 0 else (if p(xs[0]) then 1 else 0) + CountIf(p, xs[1..])
  }

  lemma {:induction false} CountIfInsert(p: real -> bool, x: real, sorted: seq<real>)
    ensures CountIf(p, Insert(x, sorted)) == (if p(x) then 1 else 0) + CountIf(p, sorted)
  {
    assert ([x] + sorted)[1..] == sorted;
    if sorted != [] && x > sorted[0] {
      CountIfInsert(p, x, sorted[1..]);
      assert ([sorted[0]] + Insert(x, sorted[1..]))[1..] == Insert(x, sorted[1..]);
    }
  }

  lemma {:induction false} CountIfSort(p: real -> bool, xs: seq<real>)
    ensures CountIf(p, Sort(xs)) == CountIf(p, xs)
  {
    if xs != [] {
      CountIfSort(p, xs[1..]);
      CountIfInsert(p, xs[0], Sort(xs[1..]));
    }
  }

  /** What satisfies `p` lies in a stretch of the list. */
  lemma {:induction false} CountIfWithin(p: real -> bool, xs: seq<real>, from: nat, past: nat)
    requires from <= past <= |xs| && forall i | 0 <= i < |xs| && p(xs[i]) :: from <= i < past
    ensures CountIf(p, xs) <= past - from
  {
    if xs != [] {
      assert p(xs[0]) ==> from == 0 < past;
      forall i | 0 <= i < |xs[1..]| && p(xs[1..][i]) ensures from <= i + 1 < past {
        assert xs[1..][i] == xs[i + 1];
      }
      CountIfWithin(p, xs[1..], if from == 0 then 0 else from - 1, if past == 0 then 0 else past - 1);
    }
  }

  lemma {:induction false} CountHits(q: Hit -> bool, p: real -> bool, hits: seq<Hit>)
    requires forall hit: Hit :: q(hit) <==> p(hit.score)
    ensures |Filter(q, hits)| == CountIf(p, Scores(hits))
  {
    if hits != [] {
      CountHits(q, p, hits[1..]);
      assert Scores(hits)[0] == hits[0].score && Scores(hits)[1..] == Scores(hits[1..]);
    }
  }

  lemma MedianIsUpper(hits: seq<Hit>)
    requires hits != []
    ensures UpperMedian(hits, MedianScore(hits))
  {
    var (xs, sorted) := (Scores(hits), Sort(Scores(hits)));
    MapAt(ScoreOf(), hits);
    SortSorted(xs);
    SortMembers(xs);
    var (h, m) := (|sorted| / 2, MedianScore(hits));
    assert m in xs;
    var (below, above) := ((x: real) => x < m, (x: real) => x > m);
    CountIfWithin(below, sorted, 0, h);
    CountIfWithin(above, sorted, h + 1, |sorted|);
    CountIfSort(below, xs);
    CountIfSort(above, xs);
    CountHits(Below(m), below, hits);
    CountHits(Above(m), above, hits);
  }

  lemma {:induction false} BelowOrAbove(hits: seq<Hit>, low: real, high: real)
    requires low < high
    ensures |Filter(Below(high), hits)| + |Filter(Above(low), hits)| >= |hits|
  {
    if hits != [] {
      BelowOrAbove(hits[1..], low, high);
    }
  }

  /** The median score of a fire's hits is the one score with at most half of them below it and less
      than half above. */
  lemma MedianCounted(hits: seq<Hit>, m: real)
    requires hits != []
    ensures m == MedianScore(hits) <==> UpperMedian(hits, m)
  {
    var median := MedianScore(hits);
    MedianIsUpper(hits);
    if UpperMedian(hits, m) && m < median {
      BelowOrAbove(hits, m, median);
    } else if UpperMedian(hits, m) && median < m {
      BelowOrAbove(hits, median, m);
    }
  }

  /** What a relative floor asks for when the median score is `m`; without one, a score that is not
      negative. */
  function CutOf(relative: real, m: real): real {
    if relative > 0.0 then relative * m else 0.0
  }

  /** The hit clears both floors under that median, and is not in the memo. */
  predicate Wanted(hit: Hit, surfaced: set<string>, floors: Floors, m: real) {
    hit.score >= floors.absolute && hit.score >= CutOf(floors.relative, m) && hit.id !in surfaced
  }

  /** Exactly what is selected from hits with that median: of those that clear both floors and are not
      in the memo never more than the caps allow, and when the caps leave room, all. */
  lemma SelectedExactly(hits: seq<Hit>, surfaced: set<string>, floors: Floors, perFire: nat, perConversation: nat, m: real)
    requires hits != [] ==> UpperMedian(hits, m)
    ensures var selected := SelectHits(hits, surfaced, floors, perFire, perConversation);
      && (forall hit | hit in selected :: hit in hits && Wanted(hit, surfaced, floors, m))
      && |selected| <= perFire && (selected != [] ==> |surfaced| + |selected| <= perConversation)
      && (|selected| < perFire && |surfaced| + |selected| < perConversation ==>
            forall hit | hit in hits && Wanted(hit, surfaced, floors, m) :: hit in selected)
  {
    var eligible := Eligible(floors.absolute, RelativeCut(hits, floors), surfaced);
    if hits != [] {
      MedianCounted(hits, m);
    }
    FilterMembers(eligible, hits);
    TakeMembers(Filter(eligible, hits), Limit(perFire, perConversation, surfaced));
  }

  // ---------------------------------------------------------------- scale invariance

  function Times(k: real): real -> real { x => k * x }

  function Rescale(k: real): Hit -> Hit { (hit: Hit) => Hit(hit.id, k * hit.score) }

  function Scaled(k: real, hits: seq<Hit>): seq<Hit> {
    Map(Rescale(k), hits)
  }

  lemma KeepsOrder(k: real, x: real, y: real)
    requires k > 0.0
    ensures k * x <= k * y <==> x <= y
  {
    if x <= y {
      assert k * (y - x) >= 0.0;
    } else {
      assert k * (x - y) > 0.0;
    }
  }

  ghost predicate OrderKeeping(f: real -> real) {
    forall x, y :: f(x) <= f(y) <==> x <= y
  }

  lemma TimesKeepsOrder(k: real)
    requires k > 0.0
    ensures OrderKeeping(Times(k))
  {
    forall x, y ensures Times(k)(x) <= Times(k)(y) <==> x <= y {
      KeepsOrder(k, x, y);
    }
  }

  lemma {:induction false} InsertMapped(f: real -> real, x: real, sorted: seq<real>)
    requires OrderKeeping(f)
    ensures Insert(f(x), Map(f, sorted)) == Map(f, Insert(x, sorted))
  {
    MapCons(f, x, sorted);
    if sorted != [] {
      assert Map(f, sorted)[0] == f(sorted[0]) && Map(f, sorted)[1..] == Map(f, sorted[1..]);
      if x > sorted[0] {
        assert !(f(x) <= f(sorted[0]));
        InsertMapped(f, x, sorted[1..]);
        MapCons(f, sorted[0], Insert(x, sorted[1..]));
      } else {
        assert f(x) <= f(sorted[0]);
      }
    }
  }

  lemma {:induction false} SortMapped(f: real -> real, xs: seq<real>)
    requires OrderKeeping(f)
    ensures Sort(Map(f, xs)) == Map(f, Sort(xs))
  {
    if xs != [] {
      SortMapped(f, xs[1..]);
      InsertMapped(f, xs[0], Sort(xs[1..]));
      assert Map(f, xs)[0] == f(xs[0]) && Map(f, xs)[1..] == Map(f, xs[1..]);
    }
  }

  lemma ScoresScaled(k: real, hits: seq<Hit>)
    ensures Scores(Scaled(k, hits)) == Map(Times(k), Scores(hits))
  {
    MapAt(Rescale(k), hits);
    MapAt(ScoreOf(), hits);
    MapAt(ScoreOf(), Scaled(k, hits));
    MapAt(Times(k), Scores(hits));
    assert forall i | 0 <= i < |hits| :: Scores(Scaled(k, hits))[i] == Map(Times(k), Scores(hits))[i];
  }

  lemma MedianMapped(k: real, hits: seq<Hit>)
    requires k > 0.0 && hits != []
    ensures MedianScore(Scaled(k, hits)) == Times(k)(MedianScore(hits))
  {
    var sorted := Sort(Scores(hits));
    ScoresScaled(k, hits);
    TimesKeepsOrder(k);
    SortMapped(Times(k), Scores(hits));
    MapAt(ScoreOf(), hits);
    MapAt(Times(k), sorted);
    assert Map(Times(k), sorted)[|sorted| / 2] == Times(k)(sorted[|sorted| / 2]);
  }

  lemma CutScaled(k: real, hits: seq<Hit>, floors: Floors)
    requires k > 0.0
    ensures RelativeCut(Scaled(k, hits), floors) == k * RelativeCut(hits, floors)
  {
    if hits != [] {
      MedianMapped(k, hits);
      Reorder(floors.relative, k, MedianScore(hits));
    }
  }

  lemma Reorder(a: real, b: real, c: real)
    ensures a * (b * c) == b * (a * c)
  {
  }

  lemma FilterScaled(k: real, cut: real, surfaced: set<string>, hits: seq<Hit>)
    requires k > 0.0
    ensures Filter(Eligible(0.0, k * cut, surfaced), Scaled(k, hits)) == Scaled(k, Filter(Eligible(0.0, cut, surfaced), hits))
  {
    forall hit: Hit ensures Eligible(0.0, k * cut, surfaced)(Rescale(k)(hit)) <==> Eligible(0.0, cut, surfaced)(hit) {
      KeepsOrder(k, cut, hit.score);
      KeepsOrder(k, 0.0, hit.score);
    }
    FilterMap(Eligible(0.0, k * cut, surfaced), Eligible(0.0, cut, surfaced), Rescale(k), hits);
  }

  lemma TakeMap<A, B>(f: A -> B, xs: seq<A>, n: nat)
    ensures Take(Map(f, xs), n) == Map(f, Take(xs, n))
  {
    MapAt(f, xs);
    MapAt(f, Take(xs, n));
  }

  /** With no absolute floor, multiplying every score by one positive factor selects the same
      hits: the engine's score scale does not matter. */
  lemma SelectionScaleInvariant(k: real, hits: seq<Hit>, surfaced: set<string>, relative: real, perFire: nat, perConversation: nat)
    requires k > 0.0
    ensures SelectHits(Scaled(k, hits), surfaced, Floors(0.0, relative), perFire, perConversation)
         == Scaled(k, SelectHits(hits, surfaced, Floors(0.0, relative), perFire, perConversation))
  {
    var floors := Floors(0.0, relative);
    CutScaled(k, hits, floors);
    SelectIsUnderCut(hits, surfaced, relative, perFire, perConversation);
    SelectIsUnderCut(Scaled(k, hits), surfaced, relative, perFire, perConversation);
    UnderCutScaled(k, RelativeCut(hits, floors), RelativeCut(Scaled(k, hits), floors), hits, surfaced, Limit(perFire, perConversation, surfaced));
  }

  lemma SelectIsUnderCut(hits: seq<Hit>, surfaced: set<string>, relative: real, perFire: nat, perConversation: nat)
    ensures var floors := Floors(0.0, relative);
      SelectHits(hits, surfaced, floors, perFire, perConversation)
      == UnderCut(RelativeCut(hits, floors), hits, surfaced, Limit(perFire, perConversation, surfaced))
  {
  }

  function UnderCut(cut: real, hits: seq<Hit>, surfaced: set<string>, n: nat): seq<Hit> {
    Take(Filter(Eligible(0.0, cut, surfaced), hits), n)
  }

  lemma UnderCutScaled(k: real, cut: real, scaledCut: real, hits: seq<Hit>, surfaced: set<string>, n: nat)
    requires k > 0.0 && scaledCut == k * cut
    ensures UnderCut(scaledCut, Scaled(k, hits), surfaced, n) == Scaled(k, UnderCut(cut, hits, surfaced, n))
  {
    FilterScaled(k, cut, surfaced, hits);
    TakeMap(Rescale(k), Filter(Eligible(0.0, cut, surfaced), hits), n);
  }
}
