/** `nlm scope backfill`: scopes derived for sessions cascade to facts, exemplars, signals and
    workstreams; only rows without a scope are ever filled. */
module ScopeBackfill {
  import opened Wrappers

  const GLOBAL := "global"

  /** What the head of a transcript says about its working directory; an empty one is `NoCwd`. */
  datatype Reading = Missing | Malformed | NoCwd | Cwd(path: string)

  datatype Session = Session(scope: Option<string>, transcript: Option<string>, workstream: Option<string>)

  /** A fact, exemplar or signal, with the session it came from. */
  datatype Row = Row(scope: Option<string>, session: Option<string>)

  type Sessions = map<string, Session>
  type Table = map<string, Row>
  type Workstreams = map<string, Option<string>>

  datatype Snapshot = Snapshot(sessions: Sessions, facts: Table, exemplars: Table, signals: Table, workstreams: Workstreams)

  datatype TableResult = TableResult(total: nat, byScope: map<string, nat>)

  datatype BackfillResult = BackfillResult(
    sessions: TableResult, facts: TableResult, exemplars: TableResult, signals: TableResult, workstreams: TableResult)

  /** The transcripts and the alias map, fixed during a run. */
  datatype Source = Source(read: string -> Reading, derive: string -> Option<string>)

  // ---------------------------------------------------------------- specifications

  function ScopeFrom(source: Source, session: Session): Option<string> {
    if session.scope.Some? || session.transcript.None? then None
    else
      match source.read(session.transcript.value)
      case Cwd(path) => source.derive(path)
      case _ => None
  }

  function Derived(source: Source, sessions: Sessions): map<string, string> {
    map id | id in sessions && ScopeFrom(source, sessions[id]).Some? :: ScopeFrom(source, sessions[id]).value
  }

  function Stamped(source: Source, sessions: Sessions): Sessions {
    map id | id in sessions ::
      if ScopeFrom(source, sessions[id]).Some? then sessions[id].(scope := ScopeFrom(source, sessions[id])) else sessions[id]
  }

  predicate AnyScope(scope: string) { true }

  predicate NotGlobal(scope: string) { scope != GLOBAL }

  /** The scope a row is about to take over from its session. */
  function Inherited(sessions: Sessions, allowed: string -> bool, row: Row): Option<string> {
    if row.scope.None? && row.session.Some? && row.session.value in sessions then
      match sessions[row.session.value].scope
      case None => None
      case Some(scope) => if allowed(scope) then Some(scope) else None
    else None
  }

  function Pending(sessions: Sessions, allowed: string -> bool, table: Table): set<string> {
    set id | id in table && Inherited(sessions, allowed, table[id]).Some?
  }

  function PendingScopes(sessions: Sessions, allowed: string -> bool, table: Table): set<string> {
    set id | id in Pending(sessions, allowed, table) :: Inherited(sessions, allowed, table[id]).value
  }

  function Cascaded(sessions: Sessions, allowed: string -> bool, table: Table): Table {
    map id | id in table ::
      if Inherited(sessions, allowed, table[id]).Some? then table[id].(scope := Inherited(sessions, allowed, table[id]))
      else table[id]
  }

  /** The scopes of a workstream's members, None among them for a member without one. */
  function MemberScopes(sessions: Sessions, workstream: string): set<Option<string>> {
    set id | id in sessions && sessions[id].workstream == Some(workstream) :: sessions[id].scope
  }

  /** The scope all members of a workstream have, if it has members and they all agree. */
  ghost function AgreedScope(sessions: Sessions, workstream: string): Option<string> {
    if exists scope :: MemberScopes(sessions, workstream) == {Some(scope)} then
      var scope :| MemberScopes(sessions, workstream) == {Some(scope)};
      Some(scope)
    else None
  }

  /** The workstreams about to be stamped, with their scopes. */
  ghost function AgreedWorkstreams(sessions: Sessions, workstreams: Workstreams): map<string, string> {
    map ws | ws in workstreams && workstreams[ws].None? && AgreedScope(sessions, ws).Some? :: AgreedScope(sessions, ws).value
  }

  ghost function StampedWorkstreams(sessions: Sessions, workstreams: Workstreams): Workstreams {
    StampedWith(workstreams, AgreedWorkstreams(sessions, workstreams))
  }

  /** The numbers reported for one cascaded table. Each scope is counted once, however many rows
      take it. */
  function CascadeResult(sessions: Sessions, allowed: string -> bool, table: Table): TableResult {
    TableResult(|Pending(sessions, allowed, table)|, Ones(PendingScopes(sessions, allowed, table)))
  }

  // ---------------------------------------------------------------- sums over scopes

  ghost function Sum(counts: map<string, nat>): nat {
    if counts == map[] then 0
    else
      var k :| k in counts;
      counts[k] + Sum(counts - {k})
  }

  lemma {:induction false} SumRemove(counts: map<string, nat>, k: string)
    requires k in counts
    ensures Sum(counts) == counts[k] + Sum(counts - {k})
  {
    var j :| j in counts && Sum(counts) == counts[j] + Sum(counts - {j});
    if j != k {
      SumRemove(counts - {j}, k);
      SumRemove(counts - {k}, j);
      assert counts - {j} - {k} == counts - {k} - {j};
    }
  }

  function Inc(counts: map<string, nat>, scope: string): map<string, nat> {
    counts[scope := (if scope in counts then counts[scope] else 0) + 1]
  }

  lemma SumInc(counts: map<string, nat>, scope: string)
    ensures Sum(Inc(counts, scope)) == Sum(counts) + 1
  {
    SumRemove(Inc(counts, scope), scope);
    if scope in counts {
      SumRemove(counts, scope);
      assert Inc(counts, scope) - {scope} == counts - {scope};
    } else {
      assert Inc(counts, scope) - {scope} == counts;
    }
  }

  lemma {:induction false} SumOfOnes(counts: map<string, nat>)
    requires forall k | k in counts :: counts[k] == 1
    ensures Sum(counts) == |counts|
  {
    if counts != map[] {
      var k :| k in counts;
      SumRemove(counts, k);
      SumOfOnes(counts - {k});
      assert (counts - {k}).Keys == counts.Keys - {k};
    }
  }

  // ---------------------------------------------------------------- the run

  /** SELECT scope, COUNT(*) GROUP BY scope, over the rows about to be stamped. */
  function GroupCounts(sessions: Sessions, allowed: string -> bool, table: Table): map<string, nat> {
    map scope | scope in PendingScopes(sessions, allowed, table) :: |PendingIn(sessions, allowed, table, {scope})|
  }

  function PendingIn(sessions: Sessions, allowed: string -> bool, table: Table, scopes: set<string>): set<string> {
    set id | id in Pending(sessions, allowed, table) && Inherited(sessions, allowed, table[id]).value in scopes
  }

  lemma PendingInGrows(sessions: Sessions, allowed: string -> bool, table: Table, scopes: set<string>, scope: string)
    requires scope !in scopes
    ensures |PendingIn(sessions, allowed, table, scopes + {scope})|
         == |PendingIn(sessions, allowed, table, scopes)| + |PendingIn(sessions, allowed, table, {scope})|
  {
    var known, more := PendingIn(sessions, allowed, table, scopes), PendingIn(sessions, allowed, table, {scope});
    assert PendingIn(sessions, allowed, table, scopes + {scope}) == known + more && known !! more;
  }

  lemma AllPendingIn(sessions: Sessions, allowed: string -> bool, table: Table)
    ensures PendingIn(sessions, allowed, table, PendingScopes(sessions, allowed, table)) == Pending(sessions, allowed, table)
    ensures PendingIn(sessions, allowed, table, {}) == {}
  {
  }

  function Ones(scopes: set<string>): map<string, nat> { map scope | scope in scopes :: 1 }

  /** The numbers once the groups of `scopes` are added up. */
  function Partial(sessions: Sessions, allowed: string -> bool, table: Table, scopes: set<string>): TableResult {
    TableResult(|PendingIn(sessions, allowed, table, scopes)|, Ones(scopes))
  }

  function AddGroup(result: TableResult, scope: string, n: nat): TableResult {
    TableResult(result.total + n, Inc(result.byScope, scope))
  }

  lemma CountStep(sessions: Sessions, allowed: string -> bool, table: Table, todo: set<string>, scope: string)
    requires scope in todo && todo <= PendingScopes(sessions, allowed, table)
    ensures var all, groups := PendingScopes(sessions, allowed, table), GroupCounts(sessions, allowed, table);
      scope in groups && Partial(sessions, allowed, table, all - (todo - {scope}))
                      == AddGroup(Partial(sessions, allowed, table, all - todo), scope, groups[scope])
  {
    var done := PendingScopes(sessions, allowed, table) - todo;
    PendingInGrows(sessions, allowed, table, done, scope);
    assert PendingScopes(sessions, allowed, table) - (todo - {scope}) == done + {scope};
    assert Ones(done + {scope}) == Inc(Ones(done), scope);
  }

  /** Adds up the groups. Each scope group raises its counter by one, not by its size. */
  method CountGroups(sessions: Sessions, allowed: string -> bool, table: Table) returns (result: TableResult)
    ensures result == CascadeResult(sessions, allowed, table)
  {
    var groups := GroupCounts(sessions, allowed, table);
    var all := PendingScopes(sessions, allowed, table);
    result := TableResult(0, map[]);
    CountEnds(sessions, allowed, table);
    var todo := all;
    while todo != {}
      invariant todo <= all
      invariant result == Partial(sessions, allowed, table, all - todo)
      decreases todo
    {
      var scope :| scope in todo;
      CountStep(sessions, allowed, table, todo, scope);
      result := AddGroup(result, scope, groups[scope]);
      todo := todo - {scope};
    }
  }

  lemma CountEnds(sessions: Sessions, allowed: string -> bool, table: Table)
    ensures var all := PendingScopes(sessions, allowed, table);
      && Partial(sessions, allowed, table, all - all) == TableResult(0, map[])
      && Partial(sessions, allowed, table, all - {}) == CascadeResult(sessions, allowed, table)
  {
    var all := PendingScopes(sessions, allowed, table);
    AllPendingIn(sessions, allowed, table);
    assert all - all == {} && all - {} == all && Ones({}) == map[];
  }

  function PendingSessions(sessions: Sessions): set<string> {
    set id | id in sessions && sessions[id].scope.None? && sessions[id].transcript.Some?
  }

  function Unread(source: Source, sessions: Sessions, reading: Reading): set<string> {
    set id | id in PendingSessions(sessions) && source.read(sessions[id].transcript.value) == reading
  }

  datatype Skipped = Skipped(missing: nat, malformed: nat, noCwd: nat)

  function SkippedIn(source: Source, sessions: Sessions): Skipped {
    Skipped(|Unread(source, sessions, Missing)|, |Unread(source, sessions, Malformed)|, |Unread(source, sessions, NoCwd)|)
  }

  /** One element fewer to do is at most one more done. */
  lemma OneDone<A>(all: set<A>, todo: set<A>, x: A)
    requires x in todo
    ensures |all - (todo - {x})| == |all - todo| + if x in all then 1 else 0
  {
    if x in all {
      assert all - (todo - {x}) == (all - todo) + {x};
    } else {
      assert all - (todo - {x}) == all - todo;
    }
  }

  /** What has been found out once `todo` is left. */
  ghost function Found(source: Source, sessions: Sessions, todo: set<string>): (map<string, string>, Skipped) {
    (Derived(source, sessions) - todo,
     Skipped(|Unread(source, sessions, Missing) - todo|, |Unread(source, sessions, Malformed) - todo|, |Unread(source, sessions, NoCwd) - todo|))
  }

  function AddSession(source: Source, session: Session, id: string, found: (map<string, string>, Skipped)): (map<string, string>, Skipped)
    requires session.transcript.Some?
  {
    var (derived, skipped) := found;
    match source.read(session.transcript.value)
    case Missing => (derived, skipped.(missing := skipped.missing + 1))
    case Malformed => (derived, skipped.(malformed := skipped.malformed + 1))
    case NoCwd => (derived, skipped.(noCwd := skipped.noCwd + 1))
    case Cwd(path) =>
      match source.derive(path)
      case None => found
      case Some(scope) => (derived[id := scope], skipped)
  }

  lemma DeriveStep(source: Source, sessions: Sessions, todo: set<string>, id: string)
    requires id in todo && todo <= PendingSessions(sessions)
    ensures Found(source, sessions, todo - {id}) == AddSession(source, sessions[id], id, Found(source, sessions, todo))
  {
    OneDone(Unread(source, sessions, Missing), todo, id);
    OneDone(Unread(source, sessions, Malformed), todo, id);
    OneDone(Unread(source, sessions, NoCwd), todo, id);
    DerivedStep(source, sessions, todo, id);
  }

  lemma DerivedStep(source: Source, sessions: Sessions, todo: set<string>, id: string)
    requires id in todo && todo <= PendingSessions(sessions)
    ensures Derived(source, sessions) - (todo - {id})
         == match ScopeFrom(source, sessions[id])
            case Some(scope) => (Derived(source, sessions) - todo)[id := scope]
            case None => Derived(source, sessions) - todo
  {
  }

  lemma DeriveEnds(source: Source, sessions: Sessions)
    ensures Found(source, sessions, PendingSessions(sessions)) == (map[], Skipped(0, 0, 0))
    ensures Found(source, sessions, {}) == (Derived(source, sessions), SkippedIn(source, sessions))
  {
    var all := PendingSessions(sessions);
    assert forall reading :: Unread(source, sessions, reading) - all == {};
    assert forall reading :: Unread(source, sessions, reading) - {} == Unread(source, sessions, reading);
    assert Derived(source, sessions) - all == map[];
    assert Derived(source, sessions) - {} == Derived(source, sessions);
  }

  method DeriveScopes(source: Source, sessions: Sessions) returns (derived: map<string, string>, skipped: Skipped)
    ensures derived == Derived(source, sessions)
    ensures skipped == SkippedIn(source, sessions)
  {
    derived, skipped := map[], Skipped(0, 0, 0);
    DeriveEnds(source, sessions);
    var todo := PendingSessions(sessions);
    while todo != {}
      invariant todo <= PendingSessions(sessions)
      invariant (derived, skipped) == Found(source, sessions, todo)
      decreases todo
    {
      var id :| id in todo;
      DeriveStep(source, sessions, todo, id);
      var found := AddSession(source, sessions[id], id, (derived, skipped));
      derived, skipped := found.0, found.1;
      todo := todo - {id};
    }
  }

  function SessionsWithScope(derived: map<string, string>, scope: string): set<string> {
    set id | id in derived && derived[id] == scope
  }

  lemma WithScopeAdd(derived: map<string, string>, id: string, scope: string, other: string)
    requires id !in derived
    ensures |SessionsWithScope(derived[id := scope], other)|
         == |SessionsWithScope(derived, other)| + if other == scope then 1 else 0
  {
    if other == scope {
      assert SessionsWithScope(derived[id := scope], other) == SessionsWithScope(derived, other) + {id};
    } else {
      assert SessionsWithScope(derived[id := scope], other) == SessionsWithScope(derived, other);
    }
  }

  /** Every id once, in all and under its scope. */
  function Tally(derived: map<string, string>): TableResult {
    TableResult(|derived|, map scope | scope in derived.Values :: |SessionsWithScope(derived, scope)|)
  }

  ghost predicate Tallied(counts: map<string, nat>, derived: map<string, string>) {
    && Sum(counts) == |derived|
    && (forall scope | scope in counts :: counts[scope] >= 1)
    && forall scope :: |SessionsWithScope(derived, scope)| == if scope in counts then counts[scope] else 0
  }

  lemma TalliedIsTally(counts: map<string, nat>, derived: map<string, string>)
    requires Tallied(counts, derived)
    ensures TableResult(|derived|, counts) == Tally(derived) && Sum(counts) == |derived|
  {
    forall scope ensures scope in counts <==> scope in derived.Values {
      if scope in counts {
        var id :| id in SessionsWithScope(derived, scope);
      }
      if scope in derived.Values {
        var id :| id in derived && derived[id] == scope;
        assert id in SessionsWithScope(derived, scope);
      }
    }
  }

  lemma TallyOne(counts: map<string, nat>, derived: map<string, string>, id: string, scope: string)
    requires Tallied(counts, derived) && id !in derived
    ensures Tallied(Inc(counts, scope), derived[id := scope])
  {
    SumInc(counts, scope);
    forall other
      ensures |SessionsWithScope(derived[id := scope], other)|
           == if other in Inc(counts, scope) then Inc(counts, scope)[other] else 0
    {
      WithScopeAdd(derived, id, scope, other);
    }
  }

  lemma TallyStep(counts: map<string, nat>, derived: map<string, string>, todo: set<string>, id: string)
    requires id in todo && todo <= derived.Keys && Tallied(counts, derived - todo)
    ensures Tallied(Inc(counts, derived[id]), derived - (todo - {id}))
    ensures |derived - (todo - {id})| == |derived - todo| + 1
  {
    TallyOne(counts, derived - todo, id, derived[id]);
    assert derived - (todo - {id}) == (derived - todo)[id := derived[id]];
  }

  lemma TallyEnds(derived: map<string, string>)
    ensures derived - derived.Keys == map[] && Tallied(map[], map[])
    ensures derived - {} == derived
  {
    assert forall scope :: SessionsWithScope(map[], scope) == {};
  }

  /** The session numbers count every derived session once, in all and under its scope. */
  method CountSessions(derived: map<string, string>) returns (result: TableResult)
    ensures result == Tally(derived) && Sum(result.byScope) == result.total
  {
    result := TableResult(0, map[]);
    TallyEnds(derived);
    var todo := derived.Keys;
    while todo != {}
      invariant todo <= derived.Keys
      invariant result.total == |derived - todo| && Tallied(result.byScope, derived - todo)
      decreases todo
    {
      var id :| id in todo;
      TallyStep(result.byScope, derived, todo, id);
      result := TableResult(result.total + 1, Inc(result.byScope, derived[id]));
      todo := todo - {id};
    }
    TalliedIsTally(result.byScope, derived);
  }

  // ---------------------------------------------------------------- the database

  /** The contents after one applied run. */
  ghost function After(source: Source, s: Snapshot): Snapshot {
    var sessions := Stamped(source, s.sessions);
    Snapshot(sessions, Cascaded(sessions, AnyScope, s.facts), Cascaded(sessions, AnyScope, s.exemplars),
             Cascaded(sessions, NotGlobal, s.signals), StampedWorkstreams(sessions, s.workstreams))
  }

  /** The numbers a run on these contents reports. */
  ghost function Report(source: Source, s: Snapshot): BackfillResult {
    var sessions := Stamped(source, s.sessions);
    BackfillResult(Tally(Derived(source, s.sessions)), CascadeResult(sessions, AnyScope, s.facts),
                   CascadeResult(sessions, AnyScope, s.exemplars), CascadeResult(sessions, NotGlobal, s.signals),
                   Tally(AgreedWorkstreams(sessions, s.workstreams)))
  }

  /** The sessions once `todo` is left to stamp. */
  function StampedBut(source: Source, sessions: Sessions, todo: set<string>): Sessions {
    map id | id in sessions ::
      if ScopeFrom(source, sessions[id]).Some? && id !in todo then sessions[id].(scope := ScopeFrom(source, sessions[id]))
      else sessions[id]
  }

  lemma StampStep(source: Source, sessions: Sessions, todo: set<string>, id: string)
    requires id in todo && todo <= Derived(source, sessions).Keys
    ensures var now := StampedBut(source, sessions, todo);
      id in now && now[id].scope.None?
      && StampedBut(source, sessions, todo - {id}) == now[id := now[id].(scope := Some(Derived(source, sessions)[id]))]
  {
  }

  lemma StampEnds(source: Source, sessions: Sessions)
    ensures StampedBut(source, sessions, Derived(source, sessions).Keys) == sessions
    ensures StampedBut(source, sessions, {}) == Stamped(source, sessions)
  {
  }

  /** The workstreams once those in `agreed` have been stamped. */
  function StampedWith(workstreams: Workstreams, agreed: map<string, string>): Workstreams {
    map ws | ws in workstreams :: if ws in agreed then Some(agreed[ws]) else workstreams[ws]
  }

  lemma StampOneMore(workstreams: Workstreams, agreed: map<string, string>, ws: string, scope: string)
    requires ws in workstreams
    ensures StampedWith(workstreams, agreed[ws := scope]) == StampedWith(workstreams, agreed)[ws := Some(scope)]
  {
  }

  /** The agreed scopes found once `todo` is left to look at. */
  ghost function AgreedBut(sessions: Sessions, workstreams: Workstreams, todo: set<string>): map<string, string> {
    AgreedWorkstreams(sessions, workstreams) - todo
  }

  /** What holds of the workstreams and the numbers while `todo` is left to look at. */
  ghost predicate Looked(sessions: Sessions, begin: Workstreams, todo: set<string>, now: Workstreams, result: TableResult) {
    LookedWith(begin, AgreedBut(sessions, begin, todo), now, result)
  }

  ghost predicate LookedWith(begin: Workstreams, agreed: map<string, string>, now: Workstreams, result: TableResult) {
    now == StampedWith(begin, agreed) && result.total == |agreed| && Tallied(result.byScope, agreed)
  }

  lemma LookOne(begin: Workstreams, agreed: map<string, string>, ws: string, scope: string, now: Workstreams, result: TableResult)
    requires ws in begin && ws !in agreed && LookedWith(begin, agreed, now, result)
    ensures LookedWith(begin, agreed[ws := scope], now[ws := Some(scope)], TableResult(result.total + 1, Inc(result.byScope, scope)))
  {
    TallyOne(result.byScope, agreed, ws, scope);
    StampOneMore(begin, agreed, ws, scope);
  }

  lemma LookStarts(sessions: Sessions, begin: Workstreams, all: set<string>)
    requires all == set ws | ws in begin && begin[ws].None?
    ensures Looked(sessions, begin, all, begin, TableResult(0, map[]))
  {
    assert AgreedBut(sessions, begin, all) == map[] && StampedWith(begin, map[]) == begin;
    TallyEnds(map[]);
  }

  lemma AgreedStep(sessions: Sessions, begin: Workstreams, todo: set<string>, ws: string)
    requires ws in todo && ws in begin && begin[ws].None?
    ensures ws !in AgreedBut(sessions, begin, todo)
    ensures AgreedBut(sessions, begin, todo - {ws})
         == match AgreedScope(sessions, ws)
            case None => AgreedBut(sessions, begin, todo)
            case Some(scope) => AgreedBut(sessions, begin, todo)[ws := scope]
  {
  }

  lemma LookStep(sessions: Sessions, begin: Workstreams, todo: set<string>, ws: string, now: Workstreams, result: TableResult)
    requires ws in todo && ws in begin && begin[ws].None?
    requires Looked(sessions, begin, todo, now, result)
    ensures match AgreedScope(sessions, ws)
            case None => Looked(sessions, begin, todo - {ws}, now, result)
            case Some(scope) =>
              Looked(sessions, begin, todo - {ws}, now[ws := Some(scope)], TableResult(result.total + 1, Inc(result.byScope, scope)))
  {
    AgreedStep(sessions, begin, todo, ws);
    if AgreedScope(sessions, ws).Some? {
      LookOne(begin, AgreedBut(sessions, begin, todo), ws, AgreedScope(sessions, ws).value, now, result);
    }
  }

  lemma LookEnds(sessions: Sessions, begin: Workstreams, now: Workstreams, result: TableResult)
    requires Looked(sessions, begin, {}, now, result)
    ensures now == StampedWorkstreams(sessions, begin)
    ensures result == Tally(AgreedWorkstreams(sessions, begin)) && Sum(result.byScope) == result.total
  {
    assert AgreedBut(sessions, begin, {}) == AgreedWorkstreams(sessions, begin);
    TalliedIsTally(result.byScope, AgreedWorkstreams(sessions, begin));
  }

  /** The vote of one workstream's members. */
  method Vote(sessions: Sessions, ws: string) returns (scope: Option<string>)
    ensures scope == AgreedScope(sessions, ws)
  {
    var scopes := MemberScopes(sessions, ws);
    if scopes == {} {
      return None;
    }
    if None in scopes {
      return None;
    }
    if |scopes| != 1 {
      assert forall s: string :: |{Some(s)}| == 1;
      return None;
    }
    scope :| scope in scopes;
    assert |scopes - {scope}| == 0;
    assert scopes == {Some(scope.value)};
  }

  class Database {
    var sessions: Sessions
    var facts: Table
    var exemplars: Table
    var signals: Table
    var workstreams: Workstreams

    function Contents(): Snapshot
      reads this
    {
      Snapshot(sessions, facts, exemplars, signals, workstreams)
    }

    /** UPDATE sessions SET scope WHERE id = ? AND scope IS NULL, for every derived scope. */
    method StampSessions(source: Source, derived: map<string, string>)
      requires derived == Derived(source, sessions)
      modifies this`sessions
      ensures sessions == Stamped(source, old(sessions))
    {
      var todo := derived.Keys;
      StampEnds(source, sessions);
      while todo != {}
        invariant todo <= derived.Keys
        invariant sessions == StampedBut(source, old(sessions), todo)
        decreases todo
      {
        var id :| id in todo;
        StampStep(source, old(sessions), todo, id);
        if id in sessions && sessions[id].scope.None? {
          sessions := sessions[id := sessions[id].(scope := Some(derived[id]))];
        }
        todo := todo - {id};
      }
    }

    method StampWorkstreams() returns (result: TableResult)
      modifies this`workstreams
      ensures workstreams == StampedWorkstreams(sessions, old(workstreams))
      ensures result == Tally(AgreedWorkstreams(sessions, old(workstreams))) && Sum(result.byScope) == result.total
    {
      var todo := set ws | ws in workstreams && workstreams[ws].None?;
      result := TableResult(0, map[]);
      LookStarts(sessions, workstreams, todo);
      while todo != {}
        invariant forall ws | ws in todo :: ws in old(workstreams) && old(workstreams)[ws].None?
        invariant Looked(sessions, old(workstreams), todo, workstreams, result)
        decreases todo
      {
        var ws :| ws in todo;
        var scope := Vote(sessions, ws);
        LookStep(sessions, old(workstreams), todo, ws, workstreams, result);
        if scope.Some? {
          result := TableResult(result.total + 1, Inc(result.byScope, scope.value));
          workstreams := workstreams[ws := scope];
        }
        todo := todo - {ws};
      }
      LookEnds(sessions, old(workstreams), workstreams, result);
    }

    /** Each table is counted before its rows are stamped. */
    method CascadeTables() returns (factCounts: TableResult, exemplarCounts: TableResult, signalCounts: TableResult)
      modifies this`facts, this`exemplars, this`signals
      ensures facts == Cascaded(sessions, AnyScope, old(facts)) && factCounts == CascadeResult(sessions, AnyScope, old(facts))
      ensures exemplars == Cascaded(sessions, AnyScope, old(exemplars))
      ensures exemplarCounts == CascadeResult(sessions, AnyScope, old(exemplars))
      ensures signals == Cascaded(sessions, NotGlobal, old(signals)) && signalCounts == CascadeResult(sessions, NotGlobal, old(signals))
    {
      factCounts := CountGroups(sessions, AnyScope, facts);
      facts := Cascaded(sessions, AnyScope, facts);
      exemplarCounts := CountGroups(sessions, AnyScope, exemplars);
      exemplars := Cascaded(sessions, AnyScope, exemplars);
      signalCounts := CountGroups(sessions, NotGlobal, signals);
      signals := Cascaded(sessions, NotGlobal, signals);
    }

    /** The cascade inside the transaction. */
    method PerformUpdates(source: Source, derived: map<string, string>) returns (result: BackfillResult)
      requires derived == Derived(source, sessions)
      modifies this
      ensures Contents() == After(source, old(Contents()))
      ensures result == Report(source, old(Contents()))
    {
      var counted := CountSessions(derived);
      StampSessions(source, derived);
      var factCounts, exemplarCounts, signalCounts := CascadeTables();
      var workstreamCounts := StampWorkstreams();
      result := BackfillResult(counted, factCounts, exemplarCounts, signalCounts, workstreamCounts);
    }

    /** An applied run and a dry run report the same numbers; a dry run is rolled back and leaves
        every row as it was. */
    method RunScopeBackfill(source: Source, apply: bool) returns (result: BackfillResult, skipped: Skipped)
      modifies this
      ensures Contents() == if apply then After(source, old(Contents())) else old(Contents())
      ensures result == Report(source, old(Contents())) && skipped == SkippedIn(source, old(sessions))
    {
      var derived: map<string, string>;
      derived, skipped := DeriveScopes(source, sessions);
      var begin := Contents();
      result := PerformUpdates(source, derived);
      if !apply {
        sessions, facts, exemplars, signals, workstreams :=
          begin.sessions, begin.facts, begin.exemplars, begin.signals, begin.workstreams;
      }
    }
  }

  // ---------------------------------------------------------------- theorems

  lemma StampedTwice(source: Source, sessions: Sessions)
    ensures Derived(source, Stamped(source, sessions)) == map[]
    ensures Stamped(source, Stamped(source, sessions)) == Stamped(source, sessions)
  {
    var once := Stamped(source, sessions);
    forall id | id in once ensures ScopeFrom(source, once[id]) == None {
    }
  }

  lemma CascadedTwice(sessions: Sessions, allowed: string -> bool, table: Table)
    ensures Pending(sessions, allowed, Cascaded(sessions, allowed, table)) == {}
    ensures Cascaded(sessions, allowed, Cascaded(sessions, allowed, table)) == Cascaded(sessions, allowed, table)
    ensures CascadeResult(sessions, allowed, Cascaded(sessions, allowed, table)) == TableResult(0, map[])
  {
    var once := Cascaded(sessions, allowed, table);
    forall id | id in once ensures Inherited(sessions, allowed, once[id]) == None {
    }
    assert Ones({}) == map[];
  }

  lemma WorkstreamsTwice(sessions: Sessions, workstreams: Workstreams)
    ensures AgreedWorkstreams(sessions, StampedWorkstreams(sessions, workstreams)) == map[]
    ensures StampedWorkstreams(sessions, StampedWorkstreams(sessions, workstreams)) == StampedWorkstreams(sessions, workstreams)
  {
    var once := StampedWorkstreams(sessions, workstreams);
    forall ws | ws in once && once[ws].None? ensures AgreedScope(sessions, ws).None? {
    }
  }

  /** One applied run reaches a fixed point: a second changes nothing and reports zero. */
  lemma FixedPoint(source: Source, s: Snapshot)
    ensures After(source, After(source, s)) == After(source, s)
    ensures var zero := TableResult(0, map[]);
      Report(source, After(source, s)) == BackfillResult(zero, zero, zero, zero, zero)
  {
    var sessions := Stamped(source, s.sessions);
    StampedTwice(source, s.sessions);
    CascadedTwice(sessions, AnyScope, s.facts);
    CascadedTwice(sessions, AnyScope, s.exemplars);
    CascadedTwice(sessions, NotGlobal, s.signals);
    WorkstreamsTwice(sessions, s.workstreams);
    TallyNothing();
  }

  lemma TallyNothing()
    ensures Tally(map[]) == TableResult(0, map[])
  {
    var nothing: map<string, string> := map[];
    assert nothing.Values == {};
  }

  /** The rows of a table that had no scope and have one now. */
  function NewlyStamped(before: Table, after: Table): set<string> {
    set id | id in before && id in after && before[id].scope.None? && after[id].scope.Some?
  }

  /** For each cascaded table the reported total is the number of rows that got a scope. */
  lemma TotalCountsStamped(sessions: Sessions, allowed: string -> bool, table: Table)
    ensures CascadeResult(sessions, allowed, table).total == |NewlyStamped(table, Cascaded(sessions, allowed, table))|
  {
    assert NewlyStamped(table, Cascaded(sessions, allowed, table)) == Pending(sessions, allowed, table);
  }

  lemma TallyGrows(derived: map<string, string>, id: string, scope: string)
    requires id !in derived && Tallied(Tally(derived).byScope, derived)
    ensures Tallied(Tally(derived[id := scope]).byScope, derived[id := scope])
  {
    TallyOne(Tally(derived).byScope, derived, id, scope);
    TalliedIsTally(Inc(Tally(derived).byScope, scope), derived[id := scope]);
  }

  lemma {:induction false} TallyIsTallied(derived: map<string, string>)
    ensures Tallied(Tally(derived).byScope, derived)
    decreases derived.Keys
  {
    if derived == map[] {
      TallyEnds(derived);
      TallyNothing();
    } else {
      var id :| id in derived;
      TallyIsTallied(derived - {id});
      TallyGrows(derived - {id}, id, derived[id]);
      assert derived == (derived - {id})[id := derived[id]];
    }
  }

  /** The sessions that had no scope and have one now. */
  function NewlyScoped(before: Sessions, after: Sessions): set<string> {
    set id | id in before && id in after && before[id].scope.None? && after[id].scope.Some?
  }

  /** For sessions the reported total is both the number of rows that got a scope and the sum of
      the per-scope counts. */
  lemma SessionTotals(source: Source, sessions: Sessions)
    ensures var result := Tally(Derived(source, sessions));
      result.total == |NewlyScoped(sessions, Stamped(source, sessions))| == Sum(result.byScope)
  {
    var derived := Derived(source, sessions);
    TallyIsTallied(derived);
    assert derived.Keys == NewlyScoped(sessions, Stamped(source, sessions));
  }

  /** The workstreams that had no scope and have one now. */
  function NewlyAgreed(before: Workstreams, after: Workstreams): set<string> {
    set ws | ws in before && ws in after && before[ws].None? && after[ws].Some?
  }

  /** The same for workstreams. */
  lemma WorkstreamTotals(sessions: Sessions, workstreams: Workstreams)
    ensures var result := Tally(AgreedWorkstreams(sessions, workstreams));
      result.total == |NewlyAgreed(workstreams, StampedWorkstreams(sessions, workstreams))| == Sum(result.byScope)
  {
    var agreed := AgreedWorkstreams(sessions, workstreams);
    TallyIsTallied(agreed);
    NewlyAgreedIs(workstreams, agreed);
  }

  lemma NewlyAgreedIs(workstreams: Workstreams, agreed: map<string, string>)
    requires forall ws | ws in agreed :: ws in workstreams && workstreams[ws].None?
    ensures NewlyAgreed(workstreams, StampedWith(workstreams, agreed)) == agreed.Keys
  {
  }

  /** The total of a cascaded table equals the sum of its per-scope counts exactly when no two of
      the rows about to be stamped take the same scope: each scope is counted once, not per row. */
  lemma TotalIsSumIffScopesDiffer(sessions: Sessions, allowed: string -> bool, table: Table)
    ensures var result := CascadeResult(sessions, allowed, table);
      result.total == Sum(result.byScope)
      <==> forall a, b | a in Pending(sessions, allowed, table) && b in Pending(sessions, allowed, table) && a != b ::
             Inherited(sessions, allowed, table[a]) != Inherited(sessions, allowed, table[b])
  {
    var rows, scopes := Pending(sessions, allowed, table), PendingScopes(sessions, allowed, table);
    SumOfOnes(Ones(scopes));
    assert Ones(scopes).Keys == scopes;
    var taken := map id | id in rows :: Inherited(sessions, allowed, table[id]).value;
    ImageSize(taken);
    assert taken.Keys == rows && taken.Values == scopes;
  }

  lemma ImageGrows(f: map<string, string>, a: string)
    requires a in f
    ensures f.Values == (f - {a}).Values + {f[a]}
  {
    forall v | v in f.Values ensures v in (f - {a}).Values + {f[a]} {
      var b :| b in f && f[b] == v;
      assert b != a ==> b in f - {a} && (f - {a})[b] == v;
    }
  }

  ghost predicate Injective(f: map<string, string>) {
    forall a, b | a in f && b in f && a != b :: f[a] != f[b]
  }

  lemma InjectiveStep(f: map<string, string>, a: string)
    requires a in f
    ensures Injective(f) <==> Injective(f - {a}) && f[a] !in (f - {a}).Values
  {
    var rest := f - {a};
    assert forall b | b in rest :: b in f && b != a && f[b] == rest[b] && rest[b] in rest.Values;
    if f[a] in rest.Values {
      var b :| b in rest && rest[b] == f[a];
      assert a != b && f[a] == f[b];
    }
  }

  /** A finite image is as large as its domain exactly when the function is injective on it. */
  lemma {:induction false} ImageSize(f: map<string, string>)
    ensures |f.Values| <= |f.Keys|
    ensures |f.Values| == |f.Keys| <==> Injective(f)
    decreases f.Keys
  {
    if f == map[] {
      assert f.Values == {};
    } else {
      var a :| a in f;
      ImageSize(f - {a});
      ImageGrows(f, a);
      InjectiveStep(f, a);
      OneMore((f - {a}).Values, f[a]);
      assert (f - {a}).Keys == f.Keys - {a};
    }
  }

  lemma OneMore(s: set<string>, x: string)
    ensures |s + {x}| == |s| + if x in s then 0 else 1
  {
    if x in s {
      assert s + {x} == s;
    }
  }

  /** Two facts of one scoped session are enough: two rows are stamped, one is counted. */
  lemma TwoFactsCountedOnce()
    ensures var sessions := map["s" := Session(Some("p"), None, None)];
      var facts := map["f" := Row(None, Some("s")), "g" := Row(None, Some("s"))];
      var result := CascadeResult(sessions, AnyScope, facts);
      result.total == 2 && result.byScope == map["p" := 1] && Sum(result.byScope) == 1
  {
    var sessions := map["s" := Session(Some("p"), None, None)];
    var facts := map["f" := Row(None, Some("s")), "g" := Row(None, Some("s"))];
    assert "f" != "g";
    assert Pending(sessions, AnyScope, facts) == {"f", "g"};
    assert Inherited(sessions, AnyScope, facts["f"]) == Some("p");
    assert "f" in Pending(sessions, AnyScope, facts);
    assert PendingScopes(sessions, AnyScope, facts) == {"p"};
    SumOfOnes(Ones({"p"}));
    assert Ones({"p"}) == map["p" := 1];
  }

  /** A scope that was there never changes, and no row appears or disappears. */
  lemma ScopesNeverChange(source: Source, s: Snapshot)
    ensures var t := After(source, s);
      && t.sessions.Keys == s.sessions.Keys && t.workstreams.Keys == s.workstreams.Keys
      && t.facts.Keys == s.facts.Keys && t.exemplars.Keys == s.exemplars.Keys && t.signals.Keys == s.signals.Keys
      && (forall id | id in s.sessions && s.sessions[id].scope.Some? :: t.sessions[id] == s.sessions[id])
      && (forall id | id in s.facts && s.facts[id].scope.Some? :: t.facts[id] == s.facts[id])
      && (forall id | id in s.exemplars && s.exemplars[id].scope.Some? :: t.exemplars[id] == s.exemplars[id])
      && (forall id | id in s.signals && s.signals[id].scope.Some? :: t.signals[id] == s.signals[id])
      && (forall ws | ws in s.workstreams && s.workstreams[ws].Some? :: t.workstreams[ws] == s.workstreams[ws])
  {
  }

  /** The scope a row's session has in these contents. */
  function SessionScope(sessions: Sessions, row: Row): Option<string> {
    if row.session.Some? && row.session.value in sessions then sessions[row.session.value].scope else None
  }

  /** Afterwards every fact and exemplar of a scoped session is scoped, and one that was not
      before has its session's scope; the same holds of signals but for the global scope, which no
      signal newly takes. */
  lemma CascadeReachesAll(source: Source, s: Snapshot, id: string)
    ensures var t := After(source, s);
      && (id in s.facts && SessionScope(t.sessions, s.facts[id]).Some? ==> t.facts[id].scope.Some?)
      && (id in s.exemplars && SessionScope(t.sessions, s.exemplars[id]).Some? ==> t.exemplars[id].scope.Some?)
      && (id in s.facts && s.facts[id].scope.None? ==> t.facts[id].scope == SessionScope(t.sessions, s.facts[id]))
      && (id in s.exemplars && s.exemplars[id].scope.None? ==> t.exemplars[id].scope == SessionScope(t.sessions, s.exemplars[id]))
      && (id in s.signals && s.signals[id].scope.None? ==>
            var scope := SessionScope(t.sessions, s.signals[id]);
            t.signals[id].scope == if scope == Some("global") then None else scope)
  {
  }

  /** A newly stamped workstream has members, and every one of them has its scope. */
  lemma WorkstreamsAgree(source: Source, s: Snapshot, ws: string)
    requires ws in s.workstreams && s.workstreams[ws].None?
    ensures var t := After(source, s); var scopes := MemberScopes(t.sessions, ws);
      t.workstreams[ws].Some? <==> exists scope :: scopes == {Some(scope)}
    ensures var t := After(source, s);
      t.workstreams[ws].Some? ==>
        forall id | id in t.sessions && t.sessions[id].workstream == Some(ws) :: t.sessions[id].scope == t.workstreams[ws]
  {
    var t := After(source, s);
    if t.workstreams[ws].Some? {
      var scope :| MemberScopes(t.sessions, ws) == {Some(scope)} && t.workstreams[ws] == Some(scope);
      forall id | id in t.sessions && t.sessions[id].workstream == Some(ws) ensures t.sessions[id].scope == Some(scope) {
        assert t.sessions[id].scope in MemberScopes(t.sessions, ws);
      }
    }
  }

  /** What a run does to a session, by its transcript alone: without a scope it takes the one derived
      from the directory that its transcript names, if there is one, and keeps everything else. */
  lemma SessionsTakeDerived(source: Source, s: Snapshot, id: string)
    requires id in s.sessions
    ensures var (before, after) := (s.sessions[id], After(source, s).sessions[id]);
      && after.transcript == before.transcript && after.workstream == before.workstream
      && (before.scope.Some? ==> after.scope == before.scope)
      && (before.scope.None? ==> forall scope ::
            after.scope == Some(scope)
            <==> exists file, path ::
                   before.transcript == Some(file) && source.read(file) == Cwd(path) && source.derive(path) == Some(scope))
  {
    var before := s.sessions[id];
    if before.scope.None? && before.transcript.Some? && source.read(before.transcript.value).Cwd? {
      assert source.read(before.transcript.value) == Cwd(source.read(before.transcript.value).path);
    }
  }

  /** Of a fact, exemplar or signal a run changes the scope and nothing else. */
  lemma RowsKeepSessions(source: Source, s: Snapshot, id: string)
    ensures var t := After(source, s);
      && (id in s.facts ==> t.facts[id] == s.facts[id].(scope := t.facts[id].scope))
      && (id in s.exemplars ==> t.exemplars[id] == s.exemplars[id].(scope := t.exemplars[id].scope))
      && (id in s.signals ==> t.signals[id] == s.signals[id].(scope := t.signals[id].scope))
  {
  }

  /** The sessions without a scope whose transcript reads so. */
  function WaitingWith(source: Source, sessions: Sessions, reading: Reading): set<string> {
    set id | id in sessions && sessions[id].scope.None? && sessions[id].transcript.Some?
             && source.read(sessions[id].transcript.value) == reading
  }

  /** Each skip is counted under its own reason, and a run reports each table under its own name: the
      total of each is the number of its rows that have a scope afterwards and had none before. */
  lemma ReportCounts(source: Source, s: Snapshot)
    ensures var (t, report, skipped) := (After(source, s), Report(source, s), SkippedIn(source, s.sessions));
      && skipped.missing == |WaitingWith(source, s.sessions, Missing)|
      && skipped.malformed == |WaitingWith(source, s.sessions, Malformed)|
      && skipped.noCwd == |WaitingWith(source, s.sessions, NoCwd)|
      && report.sessions.total == |NewlyScoped(s.sessions, t.sessions)|
      && report.facts.total == |NewlyStamped(s.facts, t.facts)|
      && report.exemplars.total == |NewlyStamped(s.exemplars, t.exemplars)|
      && report.signals.total == |NewlyStamped(s.signals, t.signals)|
      && report.workstreams.total == |NewlyAgreed(s.workstreams, t.workstreams)|
  {
    var sessions := Stamped(source, s.sessions);
    forall reading ensures WaitingWith(source, s.sessions, reading) == Unread(source, s.sessions, reading) {
    }
    SessionTotals(source, s.sessions);
    TotalCountsStamped(sessions, AnyScope, s.facts);
    TotalCountsStamped(sessions, AnyScope, s.exemplars);
    TotalCountsStamped(sessions, NotGlobal, s.signals);
    WorkstreamTotals(sessions, s.workstreams);
  }

  /** Of these the ones that take the scope. */
  function SessionsTaking(before: Sessions, after: Sessions, scope: string): set<string> {
    set id | id in NewlyScoped(before, after) && after[id].scope == Some(scope)
  }

  function RowsTaking(before: Table, after: Table, scope: string): set<string> {
    set id | id in NewlyStamped(before, after) && after[id].scope == Some(scope)
  }

  function WorkstreamsTaking(before: Workstreams, after: Workstreams, scope: string): set<string> {
    set ws | ws in NewlyAgreed(before, after) && after[ws] == Some(scope)
  }

  /** A counter for every scope that something takes, and for no other. */
  predicate CountsEach(counts: map<string, nat>, scope: string, taking: set<string>) {
    if taking == {} then scope !in counts else scope in counts && counts[scope] == |taking|
  }

  predicate CountsOnce(counts: map<string, nat>, scope: string, taking: set<string>) {
    if taking == {} then scope !in counts else scope in counts && counts[scope] == 1
  }

  /** The per-scope numbers of a report: for sessions and workstreams how many newly take the scope, for
      the other tables one if any row does. */
  lemma ReportScopes(source: Source, s: Snapshot, scope: string)
    ensures var (t, report) := (After(source, s), Report(source, s));
      && CountsEach(report.sessions.byScope, scope, SessionsTaking(s.sessions, t.sessions, scope))
      && CountsEach(report.workstreams.byScope, scope, WorkstreamsTaking(s.workstreams, t.workstreams, scope))
      && CountsOnce(report.facts.byScope, scope, RowsTaking(s.facts, t.facts, scope))
      && CountsOnce(report.exemplars.byScope, scope, RowsTaking(s.exemplars, t.exemplars, scope))
      && CountsOnce(report.signals.byScope, scope, RowsTaking(s.signals, t.signals, scope))
  {
    var sessions := Stamped(source, s.sessions);
    SessionScopes(source, s.sessions, scope);
    WorkstreamScopes(sessions, s.workstreams, scope);
    CascadeScopes(sessions, AnyScope, s.facts, scope);
    CascadeScopes(sessions, AnyScope, s.exemplars, scope);
    CascadeScopes(sessions, NotGlobal, s.signals, scope);
  }

  lemma CascadeScopes(sessions: Sessions, allowed: string -> bool, table: Table, scope: string)
    ensures CountsOnce(CascadeResult(sessions, allowed, table).byScope, scope, RowsTaking(table, Cascaded(sessions, allowed, table), scope))
  {
    var taking := RowsTaking(table, Cascaded(sessions, allowed, table), scope);
    assert taking == PendingIn(sessions, allowed, table, {scope});
    if scope in PendingScopes(sessions, allowed, table) {
      var id :| id in Pending(sessions, allowed, table) && Inherited(sessions, allowed, table[id]).value == scope;
      assert id in taking;
    }
    if taking != {} {
      var id :| id in taking;
      assert id in Pending(sessions, allowed, table) && Inherited(sessions, allowed, table[id]).value == scope;
    }
  }

  lemma TallyCounts(derived: map<string, string>, scope: string)
    ensures CountsEach(Tally(derived).byScope, scope, SessionsWithScope(derived, scope))
  {
    if scope in derived.Values {
      var id :| id in derived && derived[id] == scope;
      assert id in SessionsWithScope(derived, scope);
    }
  }

  lemma SessionScopes(source: Source, sessions: Sessions, scope: string)
    ensures CountsEach(Tally(Derived(source, sessions)).byScope, scope, SessionsTaking(sessions, Stamped(source, sessions), scope))
  {
    TallyCounts(Derived(source, sessions), scope);
    assert SessionsTaking(sessions, Stamped(source, sessions), scope) == SessionsWithScope(Derived(source, sessions), scope);
  }

  lemma WorkstreamScopes(sessions: Sessions, workstreams: Workstreams, scope: string)
    ensures CountsEach(Tally(AgreedWorkstreams(sessions, workstreams)).byScope, scope,
                       WorkstreamsTaking(workstreams, StampedWorkstreams(sessions, workstreams), scope))
  {
    var agreed := AgreedWorkstreams(sessions, workstreams);
    TallyCounts(agreed, scope);
    NewlyAgreedIs(workstreams, agreed);
    assert WorkstreamsTaking(workstreams, StampedWith(workstreams, agreed), scope) == SessionsWithScope(agreed, scope);
  }
}
