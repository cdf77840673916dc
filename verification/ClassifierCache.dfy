/** The classifier's on-disk cache: results and failures alike are stored, so the client is asked at
    most once about a body. Hashing is taken to be injective, so a row is keyed by the text that is
    hashed, and a stored result is taken to read back as it was written. */
module ClassifierCache {
  import opened Seqs
  import opened Wrappers

  const ERROR_CHARS := 500

  /** What the client would answer to this request, and how long it would take. */
  datatype Request<R> = Request(provider: string, model: string, body: string, answer: Result<R, string>, elapsed: nat)

  datatype Row<R> = Row(result: Option<R>, failed: bool, error: Option<string>, elapsed: nat)

  function KeyOf(provider: string, model: string, body: string): string {
    provider + ":" + model + ":" + body
  }

  function Key<R>(request: Request<R>): string {
    KeyOf(request.provider, request.model, request.body)
  }

  function Sliced(text: string): string {
    if |text| <= ERROR_CHARS then text else text[..ERROR_CHARS]
  }

  /** What the caller gets when the client is asked. */
  function Asked<R>(request: Request<R>): Row<R> {
    match request.answer
    case Ok(result) => Row(Some(result), false, None, request.elapsed)
    case Err(message) => Row(None, true, Some(message), request.elapsed)
  }

  /** What is stored then, and what every later caller gets. */
  function Stored<R>(request: Request<R>): Row<R> {
    match request.answer
    case Ok(_) => Asked(request)
    case Err(message) => Asked(request).(error := Some(Sliced(message)))
  }

  /** The rows, what each request returned, and whether the client was asked. */
  datatype State<R> = State(rows: map<string, Row<R>>, entries: seq<Row<R>>, asked: seq<bool>)

  function Serve<R>(s: State<R>, request: Request<R>): State<R> {
    if Key(request) in s.rows then
      State(s.rows, s.entries + [s.rows[Key(request)]], s.asked + [false])
    else
      State(s.rows[Key(request) := Stored(request)], s.entries + [Asked(request)], s.asked + [true])
  }

  class Cache<R> {
    var rows: map<string, Row<R>>
    ghost var entries: seq<Row<R>>
    ghost var asked: seq<bool>

    constructor ()
      ensures Current() == State(map[], [], [])
    {
      rows, entries, asked := map[], [], [];
    }

    ghost function Current(): State<R>
      reads this
    {
      State(rows, entries, asked)
    }

    /** `classify`: a stored failure is returned as it is, without asking again. */
    method Classify(request: Request<R>) returns (entry: Row<R>)
      requires forall key | key in rows :: WellFormed(rows[key])
      modifies this
      ensures Current() == Serve(old(Current()), request)
      ensures entry == entries[|entries| - 1]
      ensures forall key | key in rows :: WellFormed(rows[key])
    {
      var key := Key(request);
      if key in rows {
        var row := rows[key];
        entry := if row.failed then Row(None, true, row.error, row.elapsed) else Row(row.result, false, None, row.elapsed);
        entries, asked := entries + [entry], asked + [false];
        return;
      }
      match request.answer
      case Ok(result) =>
        entry := Row(Some(result), false, None, request.elapsed);
        rows := rows[key := entry];
        entries, asked := entries + [entry], asked + [true];
      case Err(message) =>
        entry := Row(None, true, Some(message), request.elapsed);
        rows := rows[key := Row(None, true, Some(Sliced(message)), request.elapsed)];
        entries, asked := entries + [entry], asked + [true];
    }
  }

  /** A row has a result or an error, as `failed` says. */
  predicate WellFormed<R>(row: Row<R>) {
    if row.failed then row.result.None? else row.error.None?
  }

  function Run<R>(requests: seq<Request<R>>): State<R> {
    if requests == [] then State(map[], [], [])
    else Serve(Run(requests[..|requests| - 1]), requests[|requests| - 1])
  }

  /** The first request with this key. */
  function FirstWith<R>(requests: seq<Request<R>>, key: string): (i: nat)
    ensures i <= |requests|
    ensures i < |requests| ==> Key(requests[i]) == key
    ensures forall j | 0 <= j < i :: Key(requests[j]) != key
  {
    if requests == [] then 0
    else
      var n := |requests| - 1;
      var i := FirstWith(requests[..n], key);
      if i < n then i else if Key(requests[n]) == key then n else n + 1
  }

  lemma {:induction false} RowsHoldFirst<R>(requests: seq<Request<R>>, key: string)
    ensures var i, rows := FirstWith(requests, key), Run(requests).rows;
      if i < |requests| then key in rows && rows[key] == Stored(requests[i]) else key !in rows
  {
    if requests != [] {
      RowsHoldFirst(requests[..|requests| - 1], key);
    }
  }

  /** Over every run the client is asked exactly for the first request with a key, whatever it
      answers; each later one gets what was stored for that first one. */
  lemma {:induction false} AskedOnlyFirst<R>(requests: seq<Request<R>>, i: nat)
    requires i < |requests|
    ensures var s, f := Run(requests), FirstWith(requests, Key(requests[i]));
      && |s.asked| == |s.entries| == |requests| && f <= i
      && (s.asked[i] <==> f == i)
      && s.entries[i] == if f == i then Asked(requests[i]) else Stored(requests[f])
    decreases |requests|
  {
    var n := |requests| - 1;
    var before := requests[..n];
    if n > 0 {
      AskedOnlyFirst(before, if i < n then i else 0);
    }
    if i == n {
      RowsHoldFirst(before, Key(requests[n]));
    }
  }

  /** The entry holds what the client answered: its result, or its failure with the message, cut to five
      hundred characters for every caller but the first; and the time that the call took. */
  predicate Gets<R(==)>(entry: Row<R>, request: Request<R>, first: bool) {
    && entry.elapsed == request.elapsed
    && match request.answer
       case Ok(result) => !entry.failed && entry.result == Some(result) && entry.error == None
       case Err(message) =>
         && entry.failed && entry.result == None && entry.error.Some? && entry.error.value <= message
         && |entry.error.value| == if !first && |message| > 500 then 500 else |message|
  }

  /** Every caller gets what the client answers to the first request with its key. */
  lemma {:induction false} CallerGets<R>(requests: seq<Request<R>>, f: nat, i: nat)
    requires f <= i < |requests| && Key(requests[f]) == Key(requests[i])
    requires forall j | 0 <= j < f :: Key(requests[j]) != Key(requests[i])
    ensures |Run(requests).entries| == |requests| && Gets(Run(requests).entries[i], requests[f], f == i)
  {
    AskedOnlyFirst(requests, i);
    assert FirstWith(requests, Key(requests[i])) == f;
  }

  /** Two requests with one key get the same result and the same failed flag; the error text is the
      same as well exactly if neither was the first or it fits the stored length. */
  lemma SameAnswer<R>(requests: seq<Request<R>>, i: nat, j: nat)
    requires i < j < |requests| && Key(requests[i]) == Key(requests[j])
    ensures var s, f := Run(requests), FirstWith(requests, Key(requests[i]));
      && |s.asked| == |s.entries| == |requests| && !s.asked[j]
      && s.entries[j].result == s.entries[i].result && s.entries[j].failed == s.entries[i].failed
      && (s.entries[j] == s.entries[i] <==> f != i || requests[i].answer.Ok? || |requests[i].answer.error| <= ERROR_CHARS)
  {
    AskedOnlyFirst(requests, i);
    AskedOnlyFirst(requests, j);
  }

  /** Under one provider and model the key tells all bodies apart. */
  lemma BodyKeys(provider: string, model: string, b1: string, b2: string)
    ensures KeyOf(provider, model, b1) == KeyOf(provider, model, b2) <==> b1 == b2
  {
    var head := provider + ":" + model + ":";
    assert (head + b1)[|head|..] == b1 && (head + b2)[|head|..] == b2;
  }

  /** Everything of a key before the body. */
  function HeadOf(provider: string, model: string): string {
    provider + ":" + model + ":"
  }

  /** Two caches on one database, of whatever providers and models, can meet on some key exactly if
      one's head is a prefix of the other's. */
  lemma HeadsShareIff(p1: string, m1: string, p2: string, m2: string)
    ensures (exists b1, b2 :: KeyOf(p1, m1, b1) == KeyOf(p2, m2, b2))
       <==> HeadOf(p1, m1) <= HeadOf(p2, m2) || HeadOf(p2, m2) <= HeadOf(p1, m1)
  {
    var h1, h2 := HeadOf(p1, m1), HeadOf(p2, m2);
    if h1 <= h2 {
      assert KeyOf(p1, m1, h2[|h1|..]) == KeyOf(p2, m2, "");
    } else if h2 <= h1 {
      assert KeyOf(p2, m2, h1[|h2|..]) == KeyOf(p1, m1, "");
    }
    forall b1, b2 | KeyOf(p1, m1, b1) == KeyOf(p2, m2, b2) ensures h1 <= h2 || h2 <= h1 {
      PrefixesOfOne(h1, b1, h2, b2);
    }
  }

  /** Under one provider two models can share a key exactly if one, with its colon, is a prefix of
      the other: what a caller can see from the list of models. */
  lemma ModelsShareIff(provider: string, m1: string, m2: string)
    ensures (exists b1, b2 :: KeyOf(provider, m1, b1) == KeyOf(provider, m2, b2))
       <==> m1 + ":" <= m2 + ":" || m2 + ":" <= m1 + ":"
  {
    var head := provider + ":";
    HeadsShareIff(provider, m1, provider, m2);
    PrefixBehind(head, m1 + ":", m2 + ":");
    PrefixBehind(head, m2 + ":", m1 + ":");
    assert HeadOf(provider, m1) == head + (m1 + ":") && HeadOf(provider, m2) == head + (m2 + ":");
  }

  lemma PrefixBehind(head: string, a: string, b: string)
    ensures head + a <= head + b <==> a <= b
  {
    assert (head + b)[|head|..] == b;
    if head + a <= head + b {
      assert (head + b)[..|head + a|][|head|..] == b[..|a|] && (head + a)[|head|..] == a;
    }
  }

  lemma KeyRest(provider: string, m1: string, b1: string, m2: string, b2: string)
    ensures KeyOf(provider, m1, b1) == KeyOf(provider, m2, b2) <==> m1 + ":" + b1 == m2 + ":" + b2
  {
    var head, t1, t2 := provider + ":", m1 + ":" + b1, m2 + ":" + b2;
    assert KeyOf(provider, m1, b1) == head + t1 && KeyOf(provider, m2, b2) == head + t2;
    assert (head + t1)[|head|..] == t1 && (head + t2)[|head|..] == t2;
  }

  /** A request shares its key with another model's or body's exactly if its own model or body has a
      colon. */
  lemma KeySharedIff(provider: string, model: string, body: string)
    ensures ':' in model || ':' in body
       <==> exists m, b :: KeyOf(provider, m, b) == KeyOf(provider, model, body) && (m, b) != (model, body)
  {
    if ':' in body {
      var k :| 0 <= k < |body| && body[k] == ':';
      var m, b := model + ":" + body[..k], body[k + 1..];
      assert model + ":" + body == m + ":" + b;
      KeyRest(provider, m, b, model, body);
      assert |m| > |model|;
    } else if ':' in model {
      var k :| 0 <= k < |model| && model[k] == ':';
      var m, b := model[..k], model[k + 1..] + ":" + body;
      assert model + ":" + body == m + ":" + b;
      KeyRest(provider, m, b, model, body);
      assert |m| < |model|;
    } else {
      forall m, b | KeyOf(provider, m, b) == KeyOf(provider, model, body) ensures (m, b) == (model, body) {
        OnlyColon(provider, model, body, m, b);
      }
    }
  }

  lemma OnlyColon(provider: string, model: string, body: string, m: string, b: string)
    requires ':' !in model && ':' !in body && KeyOf(provider, m, b) == KeyOf(provider, model, body)
    ensures m == model && b == body
  {
    KeyRest(provider, m, b, model, body);
    var text := model + ":" + body;
    assert text[|m|] == ':';
    assert |m| == |model|;
    assert text[..|m|] == m && text[..|m|] == model && text[|m| + 1..] == b && text[|m| + 1..] == body;
  }

  /** The smallest case: two sizes of one model name. */
  lemma ModelsCanShareAKey()
    ensures KeyOf("ollama", "qwen3", "8b:text") == KeyOf("ollama", "qwen3:8b", "text")
    ensures "qwen3" + ":" <= "qwen3:8b" + ":"
  {
  }
}
