/** The fallback hook table `~/.codex/hooks.json`: our groups are merged into the user's and
    taken out again by a marker in their commands. */
module CodexHooks {
  import opened Wrappers
  import opened Text
  import opened Seqs

  const LEGACY_HOOK_MARKER := "/plugin/scripts/"

  datatype HookEntry = HookEntry(command: string, statusMessage: Option<string>)

  datatype HookGroup = HookGroup(matcher: Option<string>, hooks: seq<HookEntry>)

  type HookTable = map<string, seq<HookGroup>>

  predicate HasMarker(command: string) {
    Find(command, LEGACY_HOOK_MARKER, 0) >= 0
  }

  /** A group that some command of ours belongs to. */
  predicate Marked(group: HookGroup) {
    exists i | 0 <= i < |group.hooks| :: HasMarker(group.hooks[i].command)
  }

  function Unmarked(): HookGroup -> bool { group => !Marked(group) }

  function GroupsOf(table: HookTable, event: string): seq<HookGroup> {
    if event in table then table[event] else []
  }

  // ---------------------------------------------------------------- our groups

  function ScriptCommand(dir: string, script: string): string {
    "NLM_HOOK_RUNTIME=codex node \"" + dir + "/" + script + "\""
  }

  const EVENTS: seq<string> := ["SessionStart", "UserPromptSubmit", "Stop"]

  lemma EventsDistinct()
    ensures |EVENTS| == 3 && forall i, j | 0 <= i < j < |EVENTS| :: EVENTS[i] != EVENTS[j]
  {
    assert |EVENTS[0]| == 12 && |EVENTS[1]| == 16 && |EVENTS[2]| == 4;
  }

  function OurGroup(dir: string, event: string): HookGroup {
    if event == "SessionStart" then
      HookGroup(None, [HookEntry(ScriptCommand(dir, "session-start-hook.mjs"), Some("nlm-memory: cold-start recall"))])
    else if event == "UserPromptSubmit" then
      HookGroup(None, [HookEntry(ScriptCommand(dir, "prompt-recall-hook.mjs"), Some("nlm-memory: recalling prior sessions"))])
    else
      HookGroup(None, [HookEntry(ScriptCommand(dir, "stop-hook.mjs"), None)])
  }

  // ---------------------------------------------------------------- specifications

  function WrittenEvent(table: HookTable, dir: string, event: string): seq<HookGroup> {
    Filter(Unmarked(), GroupsOf(table, event)) + [OurGroup(dir, event)]
  }

  /** The table after our groups were merged under the first `n` of our events. */
  function WrittenFirst(table: HookTable, dir: string, n: nat): HookTable
    requires n <= |EVENTS|
  {
    if n == 0 then table
    else
      var before := WrittenFirst(table, dir, n - 1);
      before[EVENTS[n - 1] := WrittenEvent(before, dir, EVENTS[n - 1])]
  }

  function Written(table: HookTable, dir: string): HookTable {
    WrittenFirst(table, dir, |EVENTS|)
  }

  function Removed(table: HookTable): HookTable {
    map event | event in table && Filter(Unmarked(), table[event]) != [] :: Filter(Unmarked(), table[event])
  }

  predicate AnyMarked(table: HookTable) {
    exists event | event in table :: Any(Marked, table[event])
  }

  // ---------------------------------------------------------------- the file

  class HooksFile {
    /** None while the file, or its `hooks` field, does not exist. */
    var hooks: Option<HookTable>

    method WriteLegacyHooks(dir: string)
      modifies this
      ensures hooks == Some(Written(if old(hooks).Some? then old(hooks).value else map[], dir))
    {
      ghost var before: HookTable := if hooks.Some? then hooks.value else map[];
      var table: HookTable := if hooks.Some? then hooks.value else map[];
      for i := 0 to |EVENTS|
        invariant table == WrittenFirst(before, dir, i)
      {
        var kept := Filter(Unmarked(), GroupsOf(table, EVENTS[i]));
        table := table[EVENTS[i] := kept + [OurGroup(dir, EVENTS[i])]];
      }
      hooks := Some(table);
    }

    /** The file is rewritten only if some group was ours; then every event left without groups
        goes too. */
    method RemoveLegacyHooks() returns (mutated: bool)
      modifies this
      ensures mutated <==> old(hooks).Some? && AnyMarked(old(hooks).value)
      ensures hooks == if mutated then Some(Removed(old(hooks).value)) else old(hooks)
    {
      if hooks.None? {
        return false;
      }
      mutated := false;
      ghost var before := hooks.value;
      var table := hooks.value;
      var pending := table.Keys;
      RemoveEnds(before);
      while pending != {}
        invariant hooks == Some(before) && pending <= before.Keys
        invariant table == RemovedBut(before, pending)
        invariant mutated <==> MarkedBut(before, pending)
        decreases pending
      {
        var event :| event in pending;
        RemoveStep(before, pending, event);
        MarkStep(before, pending, event);
        var groups := table[event];
        var kept := Filter(Unmarked(), groups);
        FilterShortens(groups);
        if |kept| != |groups| {
          mutated := true;
        }
        table := if kept == [] then table - {event} else table[event := kept];
        pending := pending - {event};
      }
      if mutated {
        hooks := Some(table);
      }
    }
  }

  /** The table while the events in `pending` are still to be filtered. */
  function RemovedBut(table: HookTable, pending: set<string>): HookTable {
    map event | event in table && (event in pending || Filter(Unmarked(), table[event]) != []) ::
      if event in pending then table[event] else Filter(Unmarked(), table[event])
  }

  predicate MarkedBut(table: HookTable, pending: set<string>) {
    exists event | event in table && event !in pending :: Any(Marked, table[event])
  }

  lemma RemoveStep(table: HookTable, pending: set<string>, event: string)
    requires event in pending && event in table
    ensures var now, kept := RemovedBut(table, pending), Filter(Unmarked(), table[event]);
      && event in now && now[event] == table[event]
      && RemovedBut(table, pending - {event}) == if kept == [] then now - {event} else now[event := kept]
  {
  }

  lemma MarkStep(table: HookTable, pending: set<string>, event: string)
    requires event in pending && event in table
    ensures MarkedBut(table, pending - {event}) <==> MarkedBut(table, pending) || Any(Marked, table[event])
  {
    if MarkedBut(table, pending) {
      var other :| other in table && other !in pending && Any(Marked, table[other]);
      assert other !in pending - {event};
    }
    if MarkedBut(table, pending - {event}) {
      var other :| other in table && other !in pending - {event} && Any(Marked, table[other]);
      assert other == event || other !in pending;
    }
    if Any(Marked, table[event]) {
      assert event !in pending - {event};
    }
  }

  lemma RemoveEnds(table: HookTable)
    ensures RemovedBut(table, table.Keys) == table && !MarkedBut(table, table.Keys)
    ensures RemovedBut(table, {}) == Removed(table) && (MarkedBut(table, {}) <==> AnyMarked(table))
  {
  }

  /** Filtering drops groups exactly when one is marked. */
  lemma {:induction false} FilterShortens(groups: seq<HookGroup>)
    ensures |Filter(Unmarked(), groups)| <= |groups|
    ensures |Filter(Unmarked(), groups)| != |groups| <==> Any(Marked, groups)
    ensures !Any(Marked, groups) ==> Filter(Unmarked(), groups) == groups
  {
    if groups != [] {
      FilterShortens(groups[1..]);
      AnySplit(Marked, groups[0], groups[1..]);
      assert groups == [groups[0]] + groups[1..];
    }
  }

  // ---------------------------------------------------------------- theorems

  /** The scripts directory carries the marker: `<repo>/plugin/scripts`. */
  predicate ScriptsDir(dir: string) {
    var tail := "/plugin/scripts";
    |dir| >= |tail| && dir[|dir| - |tail|..] == tail
  }

  lemma OursIsMarked(dir: string, event: string)
    requires ScriptsDir(dir)
    ensures Marked(OurGroup(dir, event))
  {
    var group := OurGroup(dir, event);
    var command := group.hooks[0].command;
    var head := "NLM_HOOK_RUNTIME=codex node \"";
    var script := if event == "SessionStart" then "session-start-hook.mjs"
      else if event == "UserPromptSubmit" then "prompt-recall-hook.mjs" else "stop-hook.mjs";
    assert command == ScriptCommand(dir, script);
    MarkerInside(head, dir, script + "\"");
    Associate(head + dir + "/", script, "\"");
    FindFirst(command, LEGACY_HOOK_MARKER, 0);
  }

  lemma MarkerInside(head: string, dir: string, tail: string)
    requires ScriptsDir(dir)
    ensures OccursAt(head + dir + "/" + tail, LEGACY_HOOK_MARKER, |head| + |dir| - |"/plugin/scripts"|)
  {
    var s := head + dir + "/" + tail;
    var i := |head| + |dir| - |"/plugin/scripts"|;
    assert s[i..i + |LEGACY_HOOK_MARKER|] == dir[|dir| - |"/plugin/scripts"|..] + "/";
  }

  lemma {:induction false} FilterTwice(groups: seq<HookGroup>)
    ensures Filter(Unmarked(), Filter(Unmarked(), groups)) == Filter(Unmarked(), groups)
  {
    FilterMembers(Unmarked(), groups);
    FilterAll(Unmarked(), Filter(Unmarked(), groups));
  }

  /** What writing does to one event's groups. */
  lemma {:induction false} WrittenAt(table: HookTable, dir: string, event: string, n: nat)
    requires n <= |EVENTS|
    ensures GroupsOf(WrittenFirst(table, dir, n), event)
         == if event in EVENTS[..n] then WrittenEvent(table, dir, event) else GroupsOf(table, event)
    ensures event in WrittenFirst(table, dir, n) <==> event in table || event in EVENTS[..n]
  {
    if n > 0 {
      EventsDistinct();
      WrittenAt(table, dir, event, n - 1);
      assert EVENTS[..n] == EVENTS[..n - 1] + [EVENTS[n - 1]];
    }
  }

  lemma WrittenGroups(table: HookTable, dir: string, event: string)
    ensures GroupsOf(Written(table, dir), event)
         == if event in EVENTS then WrittenEvent(table, dir, event) else GroupsOf(table, event)
    ensures event in Written(table, dir) <==> event in table || event in EVENTS
  {
    WrittenAt(table, dir, event, |EVENTS|);
    assert EVENTS[..|EVENTS|] == EVENTS;
  }

  /** One event after a second write: the same groups exactly when ours is marked. */
  lemma EventTwice(table: HookTable, dir: string, event: string)
    requires event in EVENTS
    ensures WrittenEvent(Written(table, dir), dir, event) == WrittenEvent(table, dir, event) <==> Marked(OurGroup(dir, event))
  {
    var kept, ours := Filter(Unmarked(), GroupsOf(table, event)), OurGroup(dir, event);
    WrittenGroups(table, dir, event);
    FilterTwice(GroupsOf(table, event));
    FilterAppend(Unmarked(), kept, ours);
    if Marked(ours) {
      assert kept + [] == kept;
    } else {
      assert |WrittenEvent(Written(table, dir), dir, event)| == |kept| + 2;
    }
  }

  /** Writing twice equals writing once: exactly when our own groups carry the marker, as they
      do for a scripts directory of the repository. */
  lemma WriteTwice(table: HookTable, dir: string)
    ensures Written(Written(table, dir), dir) == Written(table, dir)
        <==> forall event | event in EVENTS :: Marked(OurGroup(dir, event))
    ensures ScriptsDir(dir) ==> forall event | event in EVENTS :: Marked(OurGroup(dir, event))
  {
    var once, twice := Written(table, dir), Written(Written(table, dir), dir);
    forall event
      ensures (event in twice <==> event in once)
        && (GroupsOf(twice, event) == GroupsOf(once, event) <==> event in EVENTS ==> Marked(OurGroup(dir, event)))
    {
      WrittenGroups(table, dir, event);
      WrittenGroups(once, dir, event);
      if event in EVENTS {
        EventTwice(table, dir, event);
      }
    }
    SameTables(twice, once);
    if ScriptsDir(dir) {
      forall event | event in EVENTS ensures Marked(OurGroup(dir, event)) {
        OursIsMarked(dir, event);
      }
    }
  }

  lemma SameTables(a: HookTable, b: HookTable)
    requires forall event :: event in a <==> event in b
    ensures a == b <==> forall event :: GroupsOf(a, event) == GroupsOf(b, event)
  {
    if forall event :: GroupsOf(a, event) == GroupsOf(b, event) {
      assert a.Keys == b.Keys;
      forall event | event in a ensures a[event] == b[event] {
        assert GroupsOf(a, event) == GroupsOf(b, event);
      }
    }
  }

  /** The user's own groups survive a write and a removal, all of them and in order. */
  lemma UserGroupsSurvive(table: HookTable, dir: string, event: string)
    requires ScriptsDir(dir)
    ensures Filter(Unmarked(), GroupsOf(Written(table, dir), event)) == Filter(Unmarked(), GroupsOf(table, event))
    ensures GroupsOf(Removed(Written(table, dir)), event) == Filter(Unmarked(), GroupsOf(table, event))
  {
    var mine := Filter(Unmarked(), GroupsOf(table, event));
    WrittenGroups(table, dir, event);
    if event in EVENTS {
      OursIsMarked(dir, event);
      FilterTwice(GroupsOf(table, event));
      FilterAppend(Unmarked(), mine, OurGroup(dir, event));
      assert mine + [] == mine;
    }
    RemovedGroups(Written(table, dir), event);
  }

  lemma RemovedGroups(table: HookTable, event: string)
    ensures GroupsOf(Removed(table), event) == Filter(Unmarked(), GroupsOf(table, event))
  {
    assert Filter(Unmarked(), []) == [];
  }

  /** Removing after writing, on a file without marked groups, finds ours and gives back that
      file minus the events whose group list is empty. */
  lemma RemoveAfterWrite(table: HookTable, dir: string)
    requires ScriptsDir(dir) && !AnyMarked(table)
    ensures AnyMarked(Written(table, dir))
    ensures Removed(Written(table, dir)) == map event | event in table && table[event] != [] :: table[event]
  {
    var written, rest := Written(table, dir), map event | event in table && table[event] != [] :: table[event];
    assert EVENTS[0] in EVENTS;
    WrittenGroups(table, dir, EVENTS[0]);
    OursIsMarked(dir, EVENTS[0]);
    AnyAppend(Marked, Filter(Unmarked(), GroupsOf(table, EVENTS[0])), OurGroup(dir, EVENTS[0]));
    forall event
      ensures GroupsOf(Removed(written), event) == GroupsOf(rest, event)
      ensures event in Removed(written) <==> event in rest
    {
      UserGroupsSurvive(table, dir, event);
      FilterShortens(GroupsOf(table, event));
      assert event in Removed(written) <==> GroupsOf(Removed(written), event) != [];
    }
    SameTables(Removed(written), rest);
  }

  /** The script that belongs to an event, and what Codex shows while it runs. */
  predicate Runs(event: string, script: string, status: Option<string>) {
    || (event == "SessionStart" && script == "session-start-hook.mjs" && status == Some("nlm-memory: cold-start recall"))
    || (event == "UserPromptSubmit" && script == "prompt-recall-hook.mjs" && status == Some("nlm-memory: recalling prior sessions"))
    || (event == "Stop" && script == "stop-hook.mjs" && status == None)
  }

  /** The group has one command, which runs the event's script from the directory under the Codex runtime. */
  ghost predicate RunsScript(group: HookGroup, dir: string, event: string) {
    && group.matcher == None && |group.hooks| == 1
    && exists script :: Runs(event, script, group.hooks[0].statusMessage)
                     && group.hooks[0].command == "NLM_HOOK_RUNTIME=codex node \"" + dir + "/" + script + "\""
  }

  predicate RunsOneOfOurs(event: string) {
    event == "SessionStart" || event == "UserPromptSubmit" || event == "Stop"
  }

  /** What a write leaves of ours: under each of three events one group with one command, which runs the
      event's script from the scripts directory under the Codex runtime; under any other event nothing. */
  lemma OursAfterWrite(table: HookTable, dir: string, event: string)
    requires ScriptsDir(dir)
    ensures var ours := Filter(Marked, GroupsOf(Written(table, dir), event));
      if RunsOneOfOurs(event) then |ours| == 1 && RunsScript(ours[0], dir, event)
      else ours == Filter(Marked, GroupsOf(table, event))
  {
    OurEvents(event);
    WrittenGroups(table, dir, event);
    if RunsOneOfOurs(event) {
      var kept, group := Filter(Unmarked(), GroupsOf(table, event)), OurGroup(dir, event);
      OursIsMarked(dir, event);
      FilterAppend(Marked, kept, group);
      NoMarkedLeft(GroupsOf(table, event));
      assert [] + [group] == [group];
      OurScript(dir, event);
    }
  }

  lemma OurEvents(event: string)
    ensures event in EVENTS <==> RunsOneOfOurs(event)
  {
    assert EVENTS == ["SessionStart", "UserPromptSubmit", "Stop"];
    assert EVENTS[0] == "SessionStart" && EVENTS[1] == "UserPromptSubmit" && EVENTS[2] == "Stop";
  }

  lemma OurScript(dir: string, event: string)
    requires RunsOneOfOurs(event)
    ensures RunsScript(OurGroup(dir, event), dir, event)
  {
    EventsDistinct();
    var script := if event == "SessionStart" then "session-start-hook.mjs"
      else if event == "UserPromptSubmit" then "prompt-recall-hook.mjs" else "stop-hook.mjs";
    var entry := OurGroup(dir, event).hooks[0];
    assert Runs(event, script, entry.statusMessage) && entry.command == ScriptCommand(dir, script);
  }

  lemma {:induction false} NoMarkedLeft(groups: seq<HookGroup>)
    ensures Filter(Marked, Filter(Unmarked(), groups)) == []
  {
    if groups != [] {
      NoMarkedLeft(groups[1..]);
      var rest := Filter(Unmarked(), groups[1..]);
      if Marked(groups[0]) {
        assert [] + rest == rest;
      } else {
        assert ([groups[0]] + rest)[1..] == rest;
      }
    }
  }

  /** The marker, spelled out: a group is ours if a command in it has the scripts path in it. */
  lemma MarkedSpelled(group: HookGroup)
    ensures Marked(group) <==> exists hook, a, b :: hook in group.hooks && hook.command == a + "/plugin/scripts/" + b
  {
    forall command: string ensures HasMarker(command) <==> exists a, b :: command == a + "/plugin/scripts/" + b {
      MarkerSpelled(command);
    }
    if Marked(group) {
      var i :| 0 <= i < |group.hooks| && HasMarker(group.hooks[i].command);
      assert group.hooks[i] in group.hooks;
    }
    forall hook, a, b | hook in group.hooks && hook.command == a + "/plugin/scripts/" + b ensures Marked(group) {
      var i :| 0 <= i < |group.hooks| && group.hooks[i] == hook;
      assert HasMarker(group.hooks[i].command);
    }
  }

  lemma MarkerSpelled(command: string)
    ensures HasMarker(command) <==> exists a, b :: command == a + "/plugin/scripts/" + b
  {
    FindFirst(command, LEGACY_HOOK_MARKER, 0);
    if HasMarker(command) {
      var i := Find(command, LEGACY_HOOK_MARKER, 0);
      assert command == command[..i] + LEGACY_HOOK_MARKER + command[i + |LEGACY_HOOK_MARKER|..];
    }
    forall a, b | command == a + "/plugin/scripts/" + b ensures HasMarker(command) {
      assert OccursAt(command, LEGACY_HOOK_MARKER, |a|);
    }
  }
}
