/** The list operations the source's loops compute: `filter` and `flatMap`. */
module Seqs {

  lemma Associate<A>(a: seq<A>, b: seq<A>, c: seq<A>)
    ensures a + (b + c) == (a + b) + c
  {
  }

  lemma PrefixesOfOne<A>(a: seq<A>, x: seq<A>, b: seq<A>, y: seq<A>)
    requires a + x == b + y
    ensures a <= b || b <= a
  {
    if |a| <= |b| {
      assert (a + x)[..|a|] == a && (b + y)[..|a|] == b[..|a|];
    } else {
      assert (a + x)[..|b|] == a[..|b|] && (b + y)[..|b|] == b;
    }
  }

  function FlatMap<A, B>(f: A -> seq<B>, xs: seq<A>): seq<B> {
    if xs == [] then [] else f(xs[0]) + FlatMap(f, xs[1..])
  }

  lemma {:induction false} FlatMapConcat<A, B>(f: A -> seq<B>, xs: seq<A>, ys: seq<A>)
    ensures FlatMap(f, xs + ys) == FlatMap(f, xs) + FlatMap(f, ys)
  {
    if xs == [] {
      assert xs + ys == ys;
    } else {
      FlatMapConcat(f, xs[1..], ys);
      Associate(f(xs[0]), FlatMap(f, xs[1..]), FlatMap(f, ys));
      assert (xs + ys)[1..] == xs[1..] + ys;
    }
  }

  lemma FlatMapAppend<A, B>(f: A -> seq<B>, xs: seq<A>, y: A)
    ensures FlatMap(f, xs + [y]) == FlatMap(f, xs) + f(y)
  {
    FlatMapConcat(f, xs, [y]);
    assert FlatMap(f, [y][1..]) == [];
  }

  function Filter<A>(p: A -> bool, xs: seq<A>): (r: seq<A>) {
    if xs == [] then [] else (if p(xs[0]) then [xs[0]] else []) + Filter(p, xs[1..])
  }

  lemma {:induction false} FilterMembers<A>(p: A -> bool, xs: seq<A>)
    ensures forall x | x in Filter(p, xs) :: x in xs && p(x)
    ensures forall x | x in xs && p(x) :: x in Filter(p, xs)
  {
    if xs != [] {
      FilterMembers(p, xs[1..]);
      assert xs == [xs[0]] + xs[1..];
    }
  }

  lemma {:induction false} FilterConcat<A>(p: A -> bool, xs: seq<A>, ys: seq<A>)
    ensures Filter(p, xs + ys) == Filter(p, xs) + Filter(p, ys)
  {
    if xs == [] {
      assert xs + ys == ys;
    } else {
      FilterConcat(p, xs[1..], ys);
      Associate(if p(xs[0]) then [xs[0]] else [], Filter(p, xs[1..]), Filter(p, ys));
      assert (xs + ys)[1..] == xs[1..] + ys;
    }
  }

  lemma FilterAppend<A>(p: A -> bool, xs: seq<A>, y: A)
    ensures Filter(p, xs + [y]) == Filter(p, xs) + if p(y) then [y] else []
  {
    FilterConcat(p, xs, [y]);
    assert Filter(p, [y][1..]) == [];
  }

  lemma {:induction false} FilterAll<A>(p: A -> bool, xs: seq<A>)
    requires forall x | x in xs :: p(x)
    ensures Filter(p, xs) == xs
  {
    if xs != [] {
      FilterAll(p, xs[1..]);
      assert xs == [xs[0]] + xs[1..];
    }
  }

  function Map<A, B>(f: A -> B, xs: seq<A>): seq<B> {
    if xs == [] then [] else [f(xs[0])] + Map(f, xs[1..])
  }

  lemma {:induction false} MapAt<A, B>(f: A -> B, xs: seq<A>)
    ensures |Map(f, xs)| == |xs|
    ensures forall i | 0 <= i < |xs| :: Map(f, xs)[i] == f(xs[i])
  {
    if xs != [] {
      MapAt(f, xs[1..]);
    }
  }

  lemma MapCons<A, B>(f: A -> B, x: A, xs: seq<A>)
    ensures Map(f, [x] + xs) == [f(x)] + Map(f, xs)
  {
    assert ([x] + xs)[1..] == xs;
  }

  lemma {:induction false} MapConcat<A, B>(f: A -> B, xs: seq<A>, ys: seq<A>)
    ensures Map(f, xs + ys) == Map(f, xs) + Map(f, ys)
  {
    if xs == [] {
      assert xs + ys == ys;
    } else {
      MapConcat(f, xs[1..], ys);
      assert xs + ys == [xs[0]] + (xs[1..] + ys);
      MapCons(f, xs[0], xs[1..] + ys);
    }
  }

  lemma {:induction false} FilterMap<A, B>(p: B -> bool, q: A -> bool, f: A -> B, xs: seq<A>)
    requires forall x | x in xs :: p(f(x)) <==> q(x)
    ensures Filter(p, Map(f, xs)) == Map(f, Filter(q, xs))
  {
    if xs != [] {
      FilterMap(p, q, f, xs[1..]);
      var rest := Filter(q, xs[1..]);
      assert Map(f, xs)[1..] == Map(f, xs[1..]);
      MapCons(f, xs[0], rest);
      assert [] + rest == rest && [] + Map(f, rest) == Map(f, rest);
    }
  }

  /** `slice(0, n)`. */
  function Take<A>(xs: seq<A>, n: nat): seq<A> {
    if n < |xs| then xs[..n] else xs
  }

  lemma TakeMembers<A>(xs: seq<A>, n: nat)
    ensures forall x | x in Take(xs, n) :: x in xs
    ensures |Take(xs, n)| < n ==> Take(xs, n) == xs
  {
  }

  predicate Distinct<A(==)>(xs: seq<A>) {
    forall i, j | 0 <= i < j < |xs| :: xs[i] != xs[j]
  }

  /** `some`: does any element satisfy `p`? */
  predicate Any<A>(p: A -> bool, xs: seq<A>) {
    exists i | 0 <= i < |xs| :: p(xs[i])
  }

  lemma NoneIn<A>(p: A -> bool, xs: seq<A>)
    ensures !Any(p, xs) <==> forall x | x in xs :: !p(x)
  {
    if !Any(p, xs) {
      forall x | x in xs ensures !p(x) {
        var i :| 0 <= i < |xs| && xs[i] == x;
      }
    }
  }

  lemma AnyConcat<A>(p: A -> bool, xs: seq<A>, ys: seq<A>)
    ensures Any(p, xs + ys) <==> Any(p, xs) || Any(p, ys)
  {
    if Any(p, xs) {
      var i :| 0 <= i < |xs| && p(xs[i]);
      assert p((xs + ys)[i]);
    }
    if Any(p, ys) {
      var i :| 0 <= i < |ys| && p(ys[i]);
      assert p((xs + ys)[|xs| + i]);
    }
  }

  lemma AnySplit<A>(p: A -> bool, x: A, xs: seq<A>)
    ensures Any(p, [x] + xs) <==> p(x) || Any(p, xs)
  {
    AnyConcat(p, [x], xs);
    if p(x) {
      assert p([x][0]);
    }
  }

  lemma AnyAppend<A>(p: A -> bool, xs: seq<A>, y: A)
    ensures Any(p, xs + [y]) <==> Any(p, xs) || p(y)
  {
    AnyConcat(p, xs, [y]);
    if p(y) {
      assert p([y][0]);
    }
  }

  lemma AnyTake<A>(p: A -> bool, xs: seq<A>, n: nat)
    requires n < |xs|
    ensures Any(p, xs[..n + 1]) <==> p(xs[0]) || Any(p, xs[1..][..n])
  {
    AnySplit(p, xs[0], xs[1..][..n]);
    assert xs[..n + 1] == [xs[0]] + xs[1..][..n];
  }

  /** The first element that satisfies `among` satisfies `p`. */
  predicate FirstIs<A>(p: A -> bool, among: A -> bool, xs: seq<A>) {
    xs != [] && if among(xs[0]) then p(xs[0]) else FirstIs(p, among, xs[1..])
  }

  lemma {:induction false} FirstIsAny<A>(p: A -> bool, among: A -> bool, xs: seq<A>)
    requires FirstIs(p, among, xs)
    ensures exists i | 0 <= i < |xs| :: among(xs[i]) && p(xs[i])
  {
    if among(xs[0]) {
      assert p(xs[0]);
    } else {
      FirstIsAny(p, among, xs[1..]);
      var i :| 0 <= i < |xs[1..]| && among(xs[1..][i]) && p(xs[1..][i]);
      assert xs[i + 1] == xs[1..][i];
    }
  }

  lemma {:induction false} FirstIsSame<A>(p: A -> bool, among: A -> bool, q: A -> bool, beyond: A -> bool, xs: seq<A>)
    requires forall x | x in xs :: (among(x) <==> beyond(x)) && (among(x) ==> (p(x) <==> q(x)))
    ensures FirstIs(p, among, xs) <==> FirstIs(q, beyond, xs)
  {
    if xs != [] {
      assert xs[0] in xs && forall x | x in xs[1..] :: x in xs;
      FirstIsSame(p, among, q, beyond, xs[1..]);
    }
  }

  function Iterate<A>(f: A -> A, x: A, k: nat): A
    decreases k
  {
    if k == 0 then x else Iterate(f, f(x), k - 1)
  }

  lemma {:induction false} IterateKeeps<A(!new)>(f: A -> A, inv: A -> bool, x: A, k: nat)
    requires inv(x) && forall y | inv(y) :: inv(f(y))
    ensures inv(Iterate(f, x, k))
    decreases k
  {
    if k > 0 {
      IterateKeeps(f, inv, f(x), k - 1);
    }
  }

  /** Two functions that agree on an invariant both keep have the same iterates. */
  lemma {:induction false} IterateSame<A(!new)>(f: A -> A, g: A -> A, inv: A -> bool, x: A, k: nat)
    requires inv(x) && forall y | inv(y) :: f(y) == g(y) && inv(g(y))
    ensures Iterate(f, x, k) == Iterate(g, x, k)
    decreases k
  {
    if k > 0 {
      IterateSame(f, g, inv, g(x), k - 1);
    }
  }

  /** Maps every element together with its position. */
  function MapIndexed<A, B>(f: (nat, A) -> B, xs: seq<A>): seq<B> {
    if xs == [] then [] else
      var n := |xs| - 1;
      MapIndexed(f, xs[..n]) + [f(n, xs[n])]
  }

  lemma {:induction false} MapIndexedAt<A, B>(f: (nat, A) -> B, xs: seq<A>)
    ensures |MapIndexed(f, xs)| == |xs|
    ensures forall i | 0 <= i < |xs| :: MapIndexed(f, xs)[i] == f(i, xs[i])
  {
    if xs != [] {
      MapIndexedAt(f, xs[..|xs| - 1]);
    }
  }

  /** Marks a position at which a property of all elements is wanted. */
  predicate At(i: nat) { true }

  /** All elements satisfy `p`, each at its position. */
  ghost predicate Each<A>(p: (nat, A) -> bool, xs: seq<A>) {
    forall i: nat {:trigger At(i)} :: At(i) && i < |xs| ==> p(i, xs[i])
  }

  lemma EachAt<A>(p: (nat, A) -> bool, xs: seq<A>, i: nat)
    requires i < |xs| && Each(p, xs)
    ensures p(i, xs[i])
  {
    assert At(i);
  }

  lemma EachFrom<A>(p: (nat, A) -> bool, xs: seq<A>)
    requires forall i | 0 <= i < |xs| :: p(i, xs[i])
    ensures Each(p, xs)
  {
  }

  lemma EachAppend<A>(p: (nat, A) -> bool, xs: seq<A>, x: A)
    requires Each(p, xs) && p(|xs|, x)
    ensures Each(p, xs + [x])
  {
  }

  lemma EachUpdate<A>(p: (nat, A) -> bool, xs: seq<A>, i: nat, x: A)
    requires i < |xs| && Each(p, xs) && p(i, x)
    ensures Each(p, xs[i := x])
  {
  }
}
