/** The judge's on-disk cache: a reply is parsed before it is stored, one bad reply is retried, and
    what is stored once is what every later request gets. Hashing is taken to be injective, so a
    row is keyed by the text that is hashed. */
module JudgeCache {
  import opened Seqs
  import opened Text
  import opened Wrappers

  /** One call of the model: the whole reply, or an exception. */
  datatype Attempt = Reply(text: string) | Threw(message: string)

  /** A request to a model, with what the model would answer to its first and second call. */
  datatype Request = Request(model: string, system: string, user: string, first: Attempt, second: Attempt)

  function KeyOf(model: string, system: string, user: string): string {
    model + ":" + system + [NEWLINE] + user
  }

  function Key(request: Request): string {
    KeyOf(request.model, request.system, request.user)
  }

  /** What comes of a request that is not in the cache. */
  datatype Missed<J> = Missed(stored: Option<string>, answer: Result<J, string>, calls: nat)

  function Miss<J>(parse: string -> Result<J, string>, request: Request): Missed<J> {
    if request.first.Threw? then Missed(None, Err(request.first.message), 1)
    else if parse(request.first.text).Ok? then Missed(Some(request.first.text), parse(request.first.text), 1)
    else if request.second.Threw? then Missed(None, Err(request.second.message), 2)
    else if parse(request.second.text).Ok? then Missed(Some(request.second.text), parse(request.second.text), 2)
    else Missed(None, parse(request.second.text), 2)
  }

  /** A served request: its key, what the caller got, and how often the model was called. */
  datatype Served<J> = Served(key: string, answer: Result<J, string>, calls: nat)

  datatype State<J> = State(rows: map<string, string>, hits: nat, misses: nat, served: seq<Served<J>>)

  function Serve<J>(parse: string -> Result<J, string>, s: State<J>, request: Request): State<J> {
    var key := Key(request);
    if key in s.rows then
      State(s.rows, s.hits + 1, s.misses, s.served + [Served(key, parse(s.rows[key]), 0)])
    else
      var missed := Miss(parse, request);
      State(if missed.stored.Some? then s.rows[key := missed.stored.value] else s.rows,
            s.hits, s.misses + 1, s.served + [Served(key, missed.answer, missed.calls)])
  }

  class Cache<J> {
    const model: string
    const parse: string -> Result<J, string>
    var rows: map<string, string>
    var hits: nat
    var misses: nat
    ghost var served: seq<Served<J>>

    constructor (model: string, parse: string -> Result<J, string>, rows: map<string, string>)
      ensures this.model == model && this.parse == parse && Current() == State(rows, 0, 0, [])
    {
      this.model, this.parse, this.rows := model, parse, rows;
      hits, misses, served := 0, 0, [];
    }

    ghost function Current(): State<J>
      reads this
    {
      State(rows, hits, misses, served)
    }

    /** `judge`, given what the cache's model would answer. */
    method Judge(system: string, user: string, first: Attempt, second: Attempt) returns (answer: Result<J, string>)
      modifies this
      ensures Current() == Serve(parse, old(Current()), Request(model, system, user, first, second))
      ensures answer == served[|served| - 1].answer
    {
      var key := KeyOf(model, system, user);
      if key in rows {
        hits := hits + 1;
        answer := parse(rows[key]);
        served := served + [Served(key, answer, 0)];
        return;
      }
      misses := misses + 1;
      answer := Err("");
      var attempt := 0;
      while attempt < 2
        invariant 0 <= attempt <= 2 && misses == old(misses) + 1
        invariant rows == old(rows) && hits == old(hits) && served == old(served)
        invariant attempt > 0 ==> first.Reply? && parse(first.text).Err?
        invariant attempt > 1 ==> second.Reply? && answer.Err? && answer == parse(second.text)
      {
        var reply := if attempt == 0 then first else second;
        attempt := attempt + 1;
        if reply.Threw? {
          answer := Err(reply.message);
          served := served + [Served(key, answer, attempt)];
          return;
        }
        answer := parse(reply.text);
        if answer.Ok? {
          rows := rows[key := reply.text];
          served := served + [Served(key, answer, attempt)];
          return;
        }
      }
      served := served + [Served(key, answer, 2)];
    }
  }

  // ---------------------------------------------------------------- every run

  /** Any requests, of whatever models and processes, on a database with some rows. */
  function Run<J>(parse: string -> Result<J, string>, rows: map<string, string>, requests: seq<Request>): State<J> {
    if requests == [] then State(rows, 0, 0, [])
    else Serve(parse, Run(parse, rows, requests[..|requests| - 1]), requests[|requests| - 1])
  }

  /** Every stored reply parses. */
  predicate AllParse<J>(parse: string -> Result<J, string>, rows: map<string, string>) {
    forall key | key in rows :: parse(rows[key]).Ok?
  }

  function Calls<J>(served: seq<Served<J>>): nat {
    if served == [] then 0 else Calls(served[..|served| - 1]) + served[|served| - 1].calls
  }

  /** Every stored reply parses, and a request that was answered has its reply stored. */
  ghost predicate Inv<J>(parse: string -> Result<J, string>, s: State<J>) {
    && AllParse(parse, s.rows)
    && (forall i | 0 <= i < |s.served| && s.served[i].answer.Ok? ::
          s.served[i].key in s.rows && parse(s.rows[s.served[i].key]) == s.served[i].answer)
    && |s.served| == s.hits + s.misses && Calls(s.served) <= 2 * s.misses
  }

  lemma ServeKeeps<J>(parse: string -> Result<J, string>, s: State<J>, request: Request)
    requires Inv(parse, s)
    ensures Inv(parse, Serve(parse, s, request))
  {
    var t := Serve(parse, s, request);
    assert t.served[..|t.served| - 1] == s.served;
  }

  lemma {:induction false} RunServes<J>(parse: string -> Result<J, string>, rows: map<string, string>, requests: seq<Request>)
    ensures |Run(parse, rows, requests).served| == |requests|
    ensures forall i | 0 <= i < |requests| ::
      Run(parse, rows, requests).served[i].key == Key(requests[i])
  {
    if requests != [] {
      var before := requests[..|requests| - 1];
      RunServes(parse, rows, before);
      ServeAdds(parse, Run(parse, rows, before), requests[|before|]);
    }
  }

  lemma ServeAdds<J>(parse: string -> Result<J, string>, s: State<J>, request: Request)
    ensures var t := Serve(parse, s, request);
      |t.served| == |s.served| + 1 && t.served[..|s.served|] == s.served
      && t.served[|s.served|].key == Key(request)
  {
  }

  /** Over every run from a database whose replies parse, each stored reply parses, so a hit never
      throws. */
  lemma {:induction false} StoredRepliesParse<J>(parse: string -> Result<J, string>, rows: map<string, string>, requests: seq<Request>)
    requires AllParse(parse, rows)
    ensures Inv(parse, Run(parse, rows, requests))
  {
    if requests != [] {
      var before := requests[..|requests| - 1];
      StoredRepliesParse(parse, rows, before);
      var s := Run(parse, rows, before);
      ServeKeeps(parse, s, requests[|before|]);
      assert Run(parse, rows, requests) == Serve(parse, s, requests[|before|]);
    } else {
      NothingServed(parse, rows);
    }
  }

  lemma NothingServed<J>(parse: string -> Result<J, string>, rows: map<string, string>)
    requires AllParse(parse, rows)
    ensures Inv(parse, State(rows, 0, 0, []))
  {
  }

  lemma ServeHit<J>(parse: string -> Result<J, string>, s: State<J>, request: Request, i: nat)
    requires Inv(parse, s) && i < |s.served| && s.served[i].answer.Ok?
    requires s.served[i].key == Key(request)
    ensures var t := Serve(parse, s, request);
      t.served == s.served + [Served(s.served[i].key, s.served[i].answer, 0)]
  {
  }

  predicate Parses<J>(parse: string -> Result<J, string>, attempt: Attempt) {
    attempt.Reply? && parse(attempt.text).Ok?
  }

  predicate Unparsable<J>(parse: string -> Result<J, string>, attempt: Attempt) {
    attempt.Reply? && parse(attempt.text).Err?
  }

  /** What a request that has to ask gets: the judgement in the first of the two replies that parses, the
      second being asked for only if the first does not parse; else the exception that ended the asking,
      or what is wrong with the second reply. */
  predicate Asks<J(==)>(parse: string -> Result<J, string>, served: Served<J>, first: Attempt, second: Attempt) {
    && (Parses(parse, first) ==> served.answer == parse(first.text))
    && (Unparsable(parse, first) && second.Reply? ==> served.answer == parse(second.text))
    && (first.Threw? ==> served.answer == Err(first.message))
    && (Unparsable(parse, first) && second.Threw? ==> served.answer == Err(second.message))
    && served.calls == if Unparsable(parse, first) then 2 else 1
  }

  /** A key has a row exactly if it had one before the run, or some request with it was answered. */
  lemma {:induction false} RowsKnown<J>(parse: string -> Result<J, string>, rows: map<string, string>, requests: seq<Request>, key: string)
    requires AllParse(parse, rows)
    ensures var s := Run(parse, rows, requests);
      && |s.served| == |requests|
      && (key in s.rows <==> key in rows || exists i | 0 <= i < |requests| :: Key(requests[i]) == key && s.served[i].answer.Ok?)
      && (key in rows ==> s.rows[key] == rows[key])
  {
    RunServes(parse, rows, requests);
    if requests != [] {
      var n := |requests| - 1;
      var (before, s) := (requests[..n], Run(parse, rows, requests[..n]));
      RowsKnown(parse, rows, before, key);
      StoredRepliesParse(parse, rows, before);
      ServeAdds(parse, s, requests[n]);
      RowAdded(parse, s, requests[n], key);
      forall i | 0 <= i < n ensures Run(parse, rows, requests).served[i] == s.served[i] && Key(before[i]) == Key(requests[i]) {
      }
    }
  }

  lemma RowAdded<J>(parse: string -> Result<J, string>, s: State<J>, request: Request, key: string)
    requires Inv(parse, s)
    ensures var t := Serve(parse, s, request);
      && |t.served| == |s.served| + 1
      && (key in t.rows <==> key in s.rows || (Key(request) == key && t.served[|s.served|].answer.Ok?))
      && (key in s.rows ==> t.rows[key] == s.rows[key])
  {
  }

  lemma ServedNow<J>(parse: string -> Result<J, string>, s: State<J>, request: Request)
    ensures |Serve(parse, s, request).served| == |s.served| + 1
    ensures Key(request) in s.rows ==>
      Serve(parse, s, request).served[|s.served|] == Served(Key(request), parse(s.rows[Key(request)]), 0)
    ensures Key(request) !in s.rows ==> Asks(parse, Serve(parse, s, request).served[|s.served|], request.first, request.second)
  {
  }

  /** The requests before `i`, served as if they were all. */
  lemma ServedBefore<J>(parse: string -> Result<J, string>, rows: map<string, string>, requests: seq<Request>, i: nat)
    requires AllParse(parse, rows) && i < |requests|
    ensures var (s, served) := (Run(parse, rows, requests[..i]), Run(parse, rows, requests).served);
      && |served| == |requests| && |s.served| == i && s.served == served[..i]
      && Serve(parse, s, requests[i]).served == served[..i + 1]
  {
    RunServes(parse, rows, requests);
    ServedStays(parse, rows, requests, i);
    ServedStays(parse, rows, requests, i + 1);
    assert requests[..i + 1][..i] == requests[..i];
  }

  lemma UnansweredRow<J>(parse: string -> Result<J, string>, rows: map<string, string>, requests: seq<Request>, i: nat)
    requires AllParse(parse, rows) && i < |requests|
    ensures var (key, served) := (Key(requests[i]), Run(parse, rows, requests).served);
      && |served| == |requests|
      && (key in Run(parse, rows, requests[..i]).rows
          <==> key in rows || exists j | 0 <= j < i :: Key(requests[j]) == key && served[j].answer.Ok?)
      && (key in rows ==> Run(parse, rows, requests[..i]).rows[key] == rows[key])
  {
    var (key, before, served) := (Key(requests[i]), requests[..i], Run(parse, rows, requests).served);
    ServedBefore(parse, rows, requests, i);
    RowsKnown(parse, rows, before, key);
    assert forall j | 0 <= j < i :: before[j] == requests[j] && Run(parse, rows, before).served[j] == served[j];
    if exists j | 0 <= j < i :: Key(requests[j]) == key && served[j].answer.Ok? {
      var j :| 0 <= j < i && Key(requests[j]) == key && served[j].answer.Ok?;
      assert Key(before[j]) == key && Run(parse, rows, before).served[j].answer.Ok?;
    }
  }

  /** Once a request was answered, every later one with the same key gets the same answer without
      the model being called. */
  lemma AnsweredOnceForAll<J>(parse: string -> Result<J, string>, rows: map<string, string>, requests: seq<Request>, i: nat, j: nat)
    requires AllParse(parse, rows) && i < j < |requests|
    requires Key(requests[i]) == Key(requests[j])
    ensures var served := Run(parse, rows, requests).served;
      |served| == |requests| && (served[i].answer.Ok? ==> served[j].answer == served[i].answer && served[j].calls == 0)
  {
    var s := Run(parse, rows, requests[..j]);
    ServedBefore(parse, rows, requests, j);
    StoredRepliesParse(parse, rows, requests[..j]);
    RunServes(parse, rows, requests[..j]);
    assert s.served[i] == Run(parse, rows, requests).served[i] && requests[..j][i] == requests[i];
    if s.served[i].answer.Ok? {
      ServeHit(parse, s, requests[j], i);
      assert Serve(parse, s, requests[j]).served[j] == Run(parse, rows, requests).served[j];
    }
  }

  /** Who has to ask, and what is answered: a request whose key had a row before the run gets the
      judgement of that row without a call; any other asks unless an earlier request with its key was
      answered. */
  lemma ServedAs<J>(parse: string -> Result<J, string>, rows: map<string, string>, requests: seq<Request>, i: nat)
    requires AllParse(parse, rows) && i < |requests|
    ensures var (key, served) := (Key(requests[i]), Run(parse, rows, requests).served);
      && |served| == |requests|
      && (key in rows ==> served[i] == Served(key, parse(rows[key]), 0))
      && (key !in rows && (forall j | 0 <= j < i :: Key(requests[j]) == key ==> served[j].answer.Err?) ==>
            Asks(parse, served[i], requests[i].first, requests[i].second))
  {
    ServedBefore(parse, rows, requests, i);
    UnansweredRow(parse, rows, requests, i);
    ServedNow(parse, Run(parse, rows, requests[..i]), requests[i]);
    assert Run(parse, rows, requests).served[..i + 1][i] == Run(parse, rows, requests).served[i];
  }

  lemma {:induction false} ServedStays<J>(parse: string -> Result<J, string>, rows: map<string, string>, requests: seq<Request>, n: nat)
    requires n <= |requests|
    ensures |Run(parse, rows, requests[..n]).served| == n <= |Run(parse, rows, requests).served|
    ensures Run(parse, rows, requests[..n]).served == Run(parse, rows, requests).served[..n]
    decreases |requests|
  {
    RunServes(parse, rows, requests);
    RunServes(parse, rows, requests[..n]);
    if n == |requests| {
      assert requests[..n] == requests;
    } else {
      var before := requests[..|requests| - 1];
      assert before[..n] == requests[..n];
      ServedStays(parse, rows, before, n);
      ServeAdds(parse, Run(parse, rows, before), requests[|before|]);
    }
  }

  // ---------------------------------------------------------------- keys

  lemma KeyRest(model: string, s1: string, u1: string, s2: string, u2: string)
    ensures KeyOf(model, s1, u1) == KeyOf(model, s2, u2) <==> s1 + [NEWLINE] + u1 == s2 + [NEWLINE] + u2
  {
    var head, t1, t2 := model + ":", s1 + [NEWLINE] + u1, s2 + [NEWLINE] + u2;
    assert KeyOf(model, s1, u1) == head + t1 && KeyOf(model, s2, u2) == head + t2;
    assert (head + t1)[|head|..] == t1 && (head + t2)[|head|..] == t2;
  }

  /** One system prompt, whatever is in it: the key tells the user prompts apart. */
  lemma SameSystemKeys(model: string, system: string, u1: string, u2: string)
    ensures KeyOf(model, system, u1) == KeyOf(model, system, u2) <==> u1 == u2
  {
    var head := system + [NEWLINE];
    KeyRest(model, system, u1, system, u2);
    assert (head + u1)[|head|..] == u1 && (head + u2)[|head|..] == u2;
  }

  /** System prompts without newlines: the key tells all requests apart. */
  lemma PlainSystemKeys(model: string, s1: string, u1: string, s2: string, u2: string)
    requires NEWLINE !in s1 && NEWLINE !in s2
    ensures KeyOf(model, s1, u1) == KeyOf(model, s2, u2) <==> s1 == s2 && u1 == u2
  {
    KeyRest(model, s1, u1, s2, u2);
    IndexOfAfter(s1, NEWLINE, u1);
    IndexOfAfter(s2, NEWLINE, u2);
    if s1 + [NEWLINE] + u1 == s2 + [NEWLINE] + u2 {
      assert (s1 + [NEWLINE] + u1)[..|s1|] == s1 && (s2 + [NEWLINE] + u2)[..|s2|] == s2;
      SameSystemKeys(model, s1, u1, u2);
    }
  }

  /** A request shares its key with some other request exactly if one of its prompts has a newline. */
  lemma KeySharedIff(model: string, system: string, user: string)
    ensures NEWLINE in system || NEWLINE in user
       <==> exists s, u :: KeyOf(model, s, u) == KeyOf(model, system, user) && (s, u) != (system, user)
  {
    if NEWLINE in user {
      var k :| 0 <= k < |user| && user[k] == NEWLINE;
      var s, u := system + [NEWLINE] + user[..k], user[k + 1..];
      assert system + [NEWLINE] + user == s + [NEWLINE] + u;
      KeyRest(model, s, u, system, user);
      assert |s| > |system|;
    } else if NEWLINE in system {
      var k :| 0 <= k < |system| && system[k] == NEWLINE;
      var s, u := system[..k], system[k + 1..] + [NEWLINE] + user;
      assert system + [NEWLINE] + user == s + [NEWLINE] + u;
      KeyRest(model, s, u, system, user);
      assert |s| < |system|;
    } else {
      forall s, u | KeyOf(model, s, u) == KeyOf(model, system, user) ensures (s, u) == (system, user) {
        OnlyNewline(model, system, user, s, u);
      }
    }
  }

  lemma OnlyNewline(model: string, system: string, user: string, s: string, u: string)
    requires NEWLINE !in system && NEWLINE !in user && KeyOf(model, s, u) == KeyOf(model, system, user)
    ensures s == system && u == user
  {
    KeyRest(model, s, u, system, user);
    var text := system + [NEWLINE] + user;
    assert text[|s|] == NEWLINE;
    assert |s| == |system|;
    assert text[..|s|] == s && text[..|s|] == system && text[|s| + 1..] == u && text[|s| + 1..] == user;
  }

  /** Two models can share a key exactly if one, with its colon, is a prefix of the other. */
  lemma ModelsShareIff(m1: string, m2: string)
    ensures (exists s1, u1, s2, u2 :: KeyOf(m1, s1, u1) == KeyOf(m2, s2, u2))
       <==> m1 + ":" <= m2 + ":" || m2 + ":" <= m1 + ":"
  {
    var h1, h2 := m1 + ":", m2 + ":";
    if h1 <= h2 {
      PrefixShares(m1, m2);
    } else if h2 <= h1 {
      PrefixShares(m2, m1);
    }
    forall s1, u1, s2, u2 | KeyOf(m1, s1, u1) == KeyOf(m2, s2, u2) ensures h1 <= h2 || h2 <= h1 {
      KeyParts(m1, s1, u1);
      KeyParts(m2, s2, u2);
      PrefixesOfOne(h1, s1 + [NEWLINE] + u1, h2, s2 + [NEWLINE] + u2);
    }
  }

  lemma KeyParts(model: string, system: string, user: string)
    ensures KeyOf(model, system, user) == (model + ":") + (system + [NEWLINE] + user)
  {
  }

  lemma PrefixShares(m1: string, m2: string)
    requires m1 + ":" <= m2 + ":"
    ensures KeyOf(m1, (m2 + ":")[|m1| + 1..], "") == KeyOf(m2, "", "")
  {
    var h1, h2 := m1 + ":", m2 + ":";
    assert h2 == h1 + h2[|h1|..];
    Associate(h1, h2[|h1|..], [NEWLINE] + "");
  }

  /** Whatever the models: a request shares its key with some other request exactly if its model or
      system prompt has a colon or one of its prompts has a newline. */
  lemma AnyModelKeySharedIff(model: string, system: string, user: string)
    ensures ':' in model || ':' in system || NEWLINE in system || NEWLINE in user
       <==> exists m, s, u :: KeyOf(m, s, u) == KeyOf(model, system, user) && (m, s, u) != (model, system, user)
  {
    if NEWLINE in system || NEWLINE in user {
      KeySharedIff(model, system, user);
      var s, u :| KeyOf(model, s, u) == KeyOf(model, system, user) && (s, u) != (system, user);
      assert (model, s, u) != (model, system, user);
    } else if ':' in system {
      var k :| 0 <= k < |system| && system[k] == ':';
      var m, s := model + ":" + system[..k], system[k + 1..];
      assert system == system[..k] + ":" + s;
      MovedColon(model, system[..k], s, user);
      assert |m| > |model|;
    } else if ':' in model {
      var k :| 0 <= k < |model| && model[k] == ':';
      var m, s := model[..k], model[k + 1..] + ":" + system;
      assert model == m + ":" + model[k + 1..];
      MovedColon(m, model[k + 1..], system, user);
      assert |m| < |model|;
    } else {
      forall m, s, u | KeyOf(m, s, u) == KeyOf(model, system, user) ensures (m, s, u) == (model, system, user) {
        OnlyOneSplit(model, system, user, m, s, u);
      }
    }
  }

  /** `a:b:c` as a model `a` or a model `a:b`. */
  lemma MovedColon(a: string, b: string, c: string, user: string)
    ensures KeyOf(a, b + ":" + c, user) == KeyOf(a + ":" + b, c, user)
  {
  }

  lemma OnlyOneSplit(model: string, system: string, user: string, m: string, s: string, u: string)
    requires ':' !in model && ':' !in system && NEWLINE !in system && NEWLINE !in user
    requires KeyOf(m, s, u) == KeyOf(model, system, user)
    ensures m == model && s == system && u == user
  {
    var text := KeyOf(model, system, user);
    ColonAndNewline(model, system, user);
    ColonAndNewline(m, s, u);
    assert |m| == |model|;
    assert text[..|m|] == m && text[..|m|] == model;
    OnlyNewline(model, system, user, s, u);
  }

  lemma ColonAndNewline(model: string, system: string, user: string)
    ensures var text, n := KeyOf(model, system, user), |model| + 1 + |system|;
      && n < |text| && text[|model|] == ':' && text[n] == NEWLINE
      && (forall i | 0 <= i < |model| :: text[i] == model[i])
      && (forall i | |model| < i < n :: text[i] == system[i - |model| - 1])
      && (forall i | n < i < |text| :: text[i] == user[i - n - 1])
  {
  }
}
