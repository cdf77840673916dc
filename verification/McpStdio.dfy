/** The life of an MCP stdio server: whatever stops it, the server is closed before the storage,
    each once, and the caller gets control back only after both, with the error that wins. */
module McpStdio {
  import opened Wrappers

  /** What the outside world can observe, in the order it happens. */
  datatype Effect = CloseServer | ServerClosed | CloseStorage | StorageClosed | ListenersOff | ReturnToCaller

  /** Where `runMcpStdio` itself is waiting. */
  datatype MainState = Connecting | AwaitingStop | AwaitingShutdown | Settled

  /** Where the one shutdown promise is. */
  datatype Shutdown = Unasked | Queued | ClosingServer | ClosingStorage | CleaningUp | Complete

  /** One turn of the event loop. */
  datatype Turn =
    | ConnectSettles(ok: bool)        // the transport is connected, or connecting threw
    | StopEvent                       // stdin end, close or error, SIGINT or SIGTERM
    | ServerOnClose(throws: bool)     // the server reports it closed; the previous handler may throw
    | ShutdownStarts                  // the queued shutdown job runs
    | ServerCloseSettles(ok: bool)
    | StorageCloseSettles(ok: bool)
    | CleanupRuns                     // the `finally` behind the shutdown
    | StopNoticed                     // `stopped` has resolved
    | ShutdownNoticed                 // the awaited shutdown has settled

  /** Everything a run observes, with or without a server. */
  function WholeRun(server: bool): seq<Effect> {
    (if server then [CloseServer, ServerClosed] else []) + [CloseStorage, StorageClosed, ListenersOff, ReturnToCaller]
  }

  /** How many effects the shutdown has had. */
  function Progress(server: bool, closing: Shutdown): nat {
    var closed := if server then 2 else 0;
    match closing
    case Unasked => 0
    case Queued => 0
    case ClosingServer => 1
    case ClosingStorage => closed + 1
    case CleaningUp => closed + 2
    case Complete => closed + 3
  }

  /** The shutdown promise after a turn: asked for at most once, then one step at a time. */
  function NextShutdown(closing: Shutdown, main: MainState, server: bool, turn: Turn): Shutdown {
    match closing
    case Unasked =>
      if turn.StopEvent? || (turn.ServerOnClose? && server) || (main.Connecting? && turn == ConnectSettles(false)) then Queued
      else Unasked
    case Queued => if turn.ShutdownStarts? then (if server then ClosingServer else ClosingStorage) else Queued
    case ClosingServer => if turn.ServerCloseSettles? then ClosingStorage else ClosingServer
    case ClosingStorage => if turn.StorageCloseSettles? then CleaningUp else ClosingStorage
    case CleaningUp => if turn.CleanupRuns? then Complete else CleaningUp
    case Complete => Complete
  }

  function NextMain(closing: Shutdown, main: MainState, turn: Turn): MainState {
    match main
    case Connecting => if turn.ConnectSettles? then (if turn.ok then AwaitingStop else AwaitingShutdown) else Connecting
    case AwaitingStop => if turn.StopNoticed? && closing.Complete? then AwaitingShutdown else AwaitingStop
    case AwaitingShutdown => if turn.ShutdownNoticed? && closing.Complete? then Settled else AwaitingShutdown
    case Settled => Settled
  }

  /** What can go wrong with an error of its own: creating or connecting the server, and the closes. */
  datatype Culprit = StartUp | ServerClose | StorageClose

  /** How the call ends. */
  datatype Ending = Resolves | Rejects(culprit: Culprit)

  /** What has gone wrong. */
  datatype Failures = Failures(startUp: bool, server: bool, storage: bool)

  /** A later step's error replaces an earlier one's. */
  function EndingOf(f: Failures): Ending {
    if f.storage then Rejects(StorageClose)
    else if f.server then Rejects(ServerClose)
    else if f.startUp then Rejects(StartUp)
    else Resolves
  }

  function NextFailures(closing: Shutdown, main: MainState, f: Failures, turn: Turn): Failures {
    match turn
    case ConnectSettles(false) => if main.Connecting? then f.(startUp := true) else f
    case ServerCloseSettles(false) => if closing.ClosingServer? then f.(server := true) else f
    case StorageCloseSettles(false) => if closing.ClosingStorage? then f.(storage := true) else f
    case _ => f
  }

  /** The whole protocol state, and its run over some turns. */
  datatype Protocol = Protocol(main: MainState, closing: Shutdown, failures: Failures)

  function Begin(createThrows: bool, inputEnded: bool): Protocol {
    Protocol(if createThrows then AwaitingShutdown else if inputEnded then AwaitingStop else Connecting,
             if createThrows || inputEnded then Queued else Unasked,
             Failures(createThrows, false, false))
  }

  function Next(p: Protocol, server: bool, turn: Turn): Protocol {
    Protocol(NextMain(p.closing, p.main, turn), NextShutdown(p.closing, p.main, server, turn),
             NextFailures(p.closing, p.main, p.failures, turn))
  }

  function After(createThrows: bool, inputEnded: bool, turns: seq<Turn>): Protocol {
    if turns == [] then Begin(createThrows, inputEnded)
    else
      var n := |turns| - 1;
      Next(After(createThrows, inputEnded, turns[..n]), !createThrows, turns[n])
  }

  class Session {
    var main: MainState
    var server: bool
    var closing: Shutdown
    /** `finish` was called. */
    var finished: bool
    /** The stdin and signal listeners are registered. */
    var listening: bool
    /** The server's `onclose` is ours. */
    var hooked: bool
    var log: seq<Effect>
    /** `createServer` or `connect` threw; the exception waits for the `finally`. */
    var startFailed: bool
    /** What the shutdown promise rejects with. */
    var closeError: Option<Culprit>
    var ending: Option<Ending>
    ghost var failures: Failures

    ghost predicate Valid()
      reads this
    {
      && (closing.ClosingServer? ==> server)
      && (main.AwaitingShutdown? ==> !closing.Unasked?)
      && (main.Settled? ==> closing.Complete?)
      && (finished <==> closing.Complete?)
      && (listening <==> !closing.Complete?)
      && (hooked <==> server && !closing.Complete?)
      && log == (if main.Settled? then WholeRun(server) else WholeRun(server)[..Progress(server, closing)])
      && (failures.storage ==> closing.CleaningUp? || closing.Complete?)
      && startFailed == failures.startUp
      && closeError == (if failures.storage then Some(StorageClose) else if failures.server then Some(ServerClose) else None)
      && ending == if main.Settled? then Some(EndingOf(failures)) else None
    }

    /** Where the session is in the protocol. */
    ghost function Current(): Protocol
      reads this
    {
      Protocol(main, closing, failures)
    }

    /** The synchronous start: listeners, server, and either the connection or, with the input
        already ended, a stop. A throwing `createServer` goes straight to the clean-up. */
    constructor (createThrows: bool, inputEnded: bool)
      ensures Valid() && log == [] && !main.Settled?
      ensures server <==> !createThrows
      ensures Current() == Begin(createThrows, inputEnded)
    {
      listening, finished, log := true, false, [];
      startFailed, closeError, ending := createThrows, None, None;
      failures := Failures(createThrows, false, false);
      server, hooked := !createThrows, !createThrows;
      if createThrows {
        closing, main := Queued, AwaitingShutdown;
      } else if inputEnded {
        closing, main := Queued, AwaitingStop;
      } else {
        closing, main := Unasked, Connecting;
      }
    }

    /** `shutdown()`: starts the one shutdown, or finds it started. */
    method AskShutdown()
      requires Valid()
      modifies this`closing
      ensures Valid() && log == old(log) && !closing.Unasked?
      ensures closing == if old(closing).Unasked? then Queued else old(closing)
    {
      if closing.Unasked? {
        closing := Queued;
      }
    }

    /** Connecting settles: without an error the main flow waits for a stop, with one it goes to its
        `finally`. */
    method HandleConnect(turn: Turn)
      requires Valid() && turn.ConnectSettles?
      modifies this
      ensures Valid() && server == old(server) && old(log) <= log
      ensures Current() == Next(old(Current()), server, turn)
    {
      if main.Connecting? {
        if turn.ok {
          main := AwaitingStop;
        } else {
          startFailed := true;
          failures := failures.(startUp := true);
          AskShutdown();
          main := AwaitingShutdown;
        }
      }
    }

    /** A listener fires. */
    method HandleStop(turn: Turn)
      requires Valid() && (turn.StopEvent? || turn.ServerOnClose?)
      modifies this
      ensures Valid() && server == old(server) && old(log) <= log
      ensures Current() == Next(old(Current()), server, turn)
    {
      if turn.StopEvent? {
        if listening {
          AskShutdown();
        }
      } else if hooked {
        AskShutdown();
      }
    }

    /** The main flow goes on behind one of its awaits. */
    method HandleNoticed(turn: Turn)
      requires Valid() && (turn.StopNoticed? || turn.ShutdownNoticed?)
      modifies this
      ensures Valid() && server == old(server) && old(log) <= log
      ensures Current() == Next(old(Current()), server, turn)
    {
      if turn.StopNoticed? {
        if main.AwaitingStop? && finished {
          AskShutdown();
          main := AwaitingShutdown;
        }
      } else if main.AwaitingShutdown? && closing.Complete? {
        log := log + [ReturnToCaller];
        ending := Some(if closeError.Some? then Rejects(closeError.value) else if startFailed then Rejects(StartUp) else Resolves);
        main := Settled;
      }
    }

    /** The shutdown job starts, or the server's close settles. */
    method HandleServerClose(turn: Turn)
      requires Valid() && (turn.ShutdownStarts? || turn.ServerCloseSettles?)
      modifies this
      ensures Valid() && server == old(server) && old(log) <= log
      ensures Current() == Next(old(Current()), server, turn)
    {
      if turn.ShutdownStarts? {
        if closing.Queued? {
          if server {
            log := log + [CloseServer];
            closing := ClosingServer;
          } else {
            log := log + [CloseStorage];
            closing := ClosingStorage;
          }
        }
      } else if closing.ClosingServer? {
        if !turn.ok {
          closeError := Some(ServerClose);
          failures := failures.(server := true);
        }
        log := log + [ServerClosed];
        log := log + [CloseStorage];
        closing := ClosingStorage;
      }
    }

    /** The storage's close settles. */
    method HandleStorageClose(turn: Turn)
      requires Valid() && turn.StorageCloseSettles?
      modifies this
      ensures Valid() && server == old(server) && old(log) <= log
      ensures Current() == Next(old(Current()), server, turn)
    {
      if closing.ClosingStorage? {
        if !turn.ok {
          closeError := Some(StorageClose);
          failures := failures.(storage := true);
        }
        log := log + [StorageClosed];
        closing := CleaningUp;
      }
    }

    /** The clean-up behind the shutdown runs. */
    method HandleCleanup()
      requires Valid()
      modifies this
      ensures Valid() && server == old(server) && old(log) <= log
      ensures Current() == Next(old(Current()), server, CleanupRuns)
    {
      if closing.CleaningUp? {
        listening, hooked, finished := false, false, true;
        log := log + [ListenersOff];
        closing := Complete;
      }
    }

    /** One turn; a turn whose promise is not pending, or whose listener is gone, does nothing. */
    method Handle(turn: Turn)
      requires Valid()
      modifies this
      ensures Valid() && server == old(server) && old(log) <= log
      ensures Current() == Next(old(Current()), server, turn)
    {
      match turn
      case ConnectSettles(_) => HandleConnect(turn);
      case StopEvent => HandleStop(turn);
      case ServerOnClose(_) => HandleStop(turn);
      case ShutdownStarts => HandleServerClose(turn);
      case ServerCloseSettles(_) => HandleServerClose(turn);
      case StorageCloseSettles(_) => HandleStorageClose(turn);
      case CleanupRuns => HandleCleanup();
      case StopNoticed => HandleNoticed(turn);
      case ShutdownNoticed => HandleNoticed(turn);
    }

    /** Turns left until the caller gets control back. */
    function Remaining(): nat
      reads this
    {
      var toMain := match main case Connecting => 3 case AwaitingStop => 2 case AwaitingShutdown => 1 case Settled => 0;
      var toShutdown := match closing
        case Unasked => 6 case Queued => 5 case ClosingServer => 4 case ClosingStorage => 3 case CleaningUp => 2
        case Complete => 0;
      toMain + toShutdown
    }

    /** No deadlock: once a stop was asked for and every pending promise settles, whether kept or
        broken, the caller gets control back with the whole run behind it. */
    method RunOut(ok: bool)
      requires Valid() && !closing.Unasked?
      modifies this
      ensures Valid() && main.Settled? && log == WholeRun(server) && server == old(server)
      ensures ending == Some(EndingOf(failures))
    {
      while !main.Settled?
        invariant Valid() && !closing.Unasked? && server == old(server)
        decreases Remaining()
      {
        var turn :=
          if main.Connecting? then ConnectSettles(ok)
          else if closing.Queued? then ShutdownStarts
          else if closing.ClosingServer? then ServerCloseSettles(ok)
          else if closing.ClosingStorage? then StorageCloseSettles(ok)
          else if closing.CleaningUp? then CleanupRuns
          else if main.AwaitingStop? then StopNoticed
          else ShutdownNoticed;
        ghost var before := Remaining();
        Handle(turn);
        assert Remaining() < before;
      }
    }
  }

  // ---------------------------------------------------------------- the run, told from the turns alone

  /** How the call was started. */
  datatype Start = Start(createThrows: bool, inputEnded: bool) {
    /** The synchronous start asks for the shutdown itself. */
    predicate Asks() { createThrows || inputEnded }
  }

  predicate Connects(turn: Turn) { turn.ConnectSettles? }
  predicate FailsToConnect(turn: Turn) { turn == ConnectSettles(false) }
  predicate StartsShutdown(turn: Turn) { turn.ShutdownStarts? }
  predicate SettlesServer(turn: Turn) { turn.ServerCloseSettles? }
  predicate SettlesStorage(turn: Turn) { turn.StorageCloseSettles? }
  predicate CleansUp(turn: Turn) { turn.CleanupRuns? }
  predicate NoticesStop(turn: Turn) { turn.StopNoticed? }
  predicate NoticesShutdown(turn: Turn) { turn.ShutdownNoticed? }

  /** Some turn of kind `now` finds `before` already true. */
  ghost predicate Follows(s: Start, now: Turn -> bool, before: (Start, seq<Turn>) -> bool, turns: seq<Turn>) {
    exists i | 0 <= i < |turns| :: now(turns[i]) && before(s, turns[..i])
  }

  predicate Always(s: Start, turns: seq<Turn>) { true }

  /** The server is still being connected. */
  ghost predicate StillConnecting(s: Start, turns: seq<Turn>) {
    !s.Asks() && !Follows(s, Connects, Always, turns)
  }

  /** The server could not be connected. */
  ghost predicate ConnectFailed(s: Start, turns: seq<Turn>) {
    Follows(s, FailsToConnect, StillConnecting, turns)
  }

  predicate Stops(s: Start, turn: Turn) {
    turn.StopEvent? || (turn.ServerOnClose? && !s.createThrows)
  }

  /** Something has stopped the server: it could not be created or connected, the input had ended, a
      listener fired, or the server reported its own close. */
  ghost predicate Asked(s: Start, turns: seq<Turn>) {
    s.Asks() || (exists i | 0 <= i < |turns| :: Stops(s, turns[i])) || ConnectFailed(s, turns)
  }

  /** The shutdown job has run, behind a stop. */
  ghost predicate ShutdownStarted(s: Start, turns: seq<Turn>) {
    Follows(s, StartsShutdown, Asked, turns)
  }

  /** The server's close has settled, behind the start of the shutdown; there may be no server. */
  ghost predicate ServerDown(s: Start, turns: seq<Turn>) {
    if s.createThrows then ShutdownStarted(s, turns) else Follows(s, SettlesServer, ShutdownStarted, turns)
  }

  /** And behind it the storage's. */
  ghost predicate StorageDown(s: Start, turns: seq<Turn>) {
    Follows(s, SettlesStorage, ServerDown, turns)
  }

  /** And behind it the clean-up has run. */
  ghost predicate CleanedUp(s: Start, turns: seq<Turn>) {
    Follows(s, CleansUp, StorageDown, turns)
  }

  ghost predicate StoppedAndConnected(s: Start, turns: seq<Turn>) {
    CleanedUp(s, turns) && !StillConnecting(s, turns)
  }

  /** The main flow has come to its `finally`: by an error at the start, or awake behind the clean-up. */
  ghost predicate InFinally(s: Start, turns: seq<Turn>) {
    s.createThrows || ConnectFailed(s, turns) || Follows(s, NoticesStop, StoppedAndConnected, turns)
  }

  ghost predicate CleanedUpInFinally(s: Start, turns: seq<Turn>) {
    CleanedUp(s, turns) && InFinally(s, turns)
  }

  /** And out of it. */
  ghost predicate Returned(s: Start, turns: seq<Turn>) {
    Follows(s, NoticesShutdown, CleanedUpInFinally, turns)
  }

  lemma FollowsStep(s: Start, now: Turn -> bool, before: (Start, seq<Turn>) -> bool, turns: seq<Turn>, turn: Turn)
    ensures Follows(s, now, before, turns + [turn]) <==> Follows(s, now, before, turns) || (now(turn) && before(s, turns))
  {
    var all := turns + [turn];
    assert all[..|turns|] == turns && all[|turns|] == turn;
    forall i | 0 <= i < |turns| ensures all[i] == turns[i] && all[..i] == turns[..i] {
    }
  }

  /** How far the shutdown is, in terms of what the turns have brought. */
  ghost predicate ClosingTells(s: Start, turns: seq<Turn>, closing: Shutdown) {
    && (closing.Unasked? <==> !Asked(s, turns))
    && (closing.Unasked? || closing.Queued? <==> !ShutdownStarted(s, turns))
    && (closing.Unasked? || closing.Queued? || closing.ClosingServer? <==> !ServerDown(s, turns))
    && (closing.CleaningUp? || closing.Complete? <==> StorageDown(s, turns))
    && (closing.Complete? <==> CleanedUp(s, turns))
  }

  /** And the main flow. */
  ghost predicate MainTells(s: Start, turns: seq<Turn>, main: MainState) {
    && (main.Connecting? <==> StillConnecting(s, turns))
    && (main.AwaitingShutdown? || main.Settled? <==> InFinally(s, turns))
    && (main.Settled? <==> Returned(s, turns))
  }

  lemma AskedStep(s: Start, turns: seq<Turn>, turn: Turn)
    ensures Asked(s, turns + [turn])
       <==> Asked(s, turns) || Stops(s, turn) || (FailsToConnect(turn) && StillConnecting(s, turns))
  {
    var all := turns + [turn];
    FollowsStep(s, FailsToConnect, StillConnecting, turns, turn);
    assert all[|turns|] == turn && forall i | 0 <= i < |turns| :: all[i] == turns[i];
  }

  lemma ClosingStep(s: Start, turns: seq<Turn>, turn: Turn, main: MainState, closing: Shutdown)
    requires ClosingTells(s, turns, closing) && (main.Connecting? <==> StillConnecting(s, turns))
    ensures ClosingTells(s, turns + [turn], NextShutdown(closing, main, !s.createThrows, turn))
  {
    AskedStep(s, turns, turn);
    FollowsStep(s, StartsShutdown, Asked, turns, turn);
    FollowsStep(s, SettlesServer, ShutdownStarted, turns, turn);
    FollowsStep(s, SettlesStorage, ServerDown, turns, turn);
    FollowsStep(s, CleansUp, StorageDown, turns, turn);
  }

  lemma MainStep(s: Start, turns: seq<Turn>, turn: Turn, main: MainState, closing: Shutdown)
    requires MainTells(s, turns, main) && (closing.Complete? <==> CleanedUp(s, turns))
    ensures MainTells(s, turns + [turn], NextMain(closing, main, turn))
  {
    FollowsStep(s, Connects, Always, turns, turn);
    FollowsStep(s, FailsToConnect, StillConnecting, turns, turn);
    FollowsStep(s, NoticesStop, StoppedAndConnected, turns, turn);
    FollowsStep(s, NoticesShutdown, CleanedUpInFinally, turns, turn);
  }

  /** The protocol state after any turns, told from the turns alone. In particular the shutdown has
      been asked for exactly if something has stopped the server, and the call has ended exactly if
      every step has settled behind the one before it. */
  lemma {:induction false} TurnsTell(s: Start, turns: seq<Turn>)
    ensures var p := After(s.createThrows, s.inputEnded, turns); ClosingTells(s, turns, p.closing) && MainTells(s, turns, p.main)
  {
    if turns != [] {
      var n := |turns| - 1;
      var p := After(s.createThrows, s.inputEnded, turns[..n]);
      TurnsTell(s, turns[..n]);
      assert turns[..n] + [turns[n]] == turns;
      ClosingStep(s, turns[..n], turns[n], p.main, p.closing);
      MainStep(s, turns[..n], turns[n], p.main, p.closing);
    }
  }

  lemma FollowsAt(s: Start, now: Turn -> bool, before: (Start, seq<Turn>) -> bool, turns: seq<Turn>, i: nat, n: nat)
    requires i < n <= |turns| && now(turns[i]) && before(s, turns[..i])
    ensures Follows(s, now, before, turns[..n])
  {
    assert turns[..n][..i] == turns[..i] && turns[..n][i] == turns[i];
  }

  /** So a call that something has stopped, and whose pending steps then settle one behind the other,
      with whatever else in between, has ended: it cannot hang. */
  lemma InOrderEnds(s: Start, turns: seq<Turn>, start: nat, server: nat, storage: nat, cleanup: nat, noticed: nat, ended: nat)
    requires start < server < storage < cleanup < noticed < ended < |turns|
    requires Asked(s, turns[..start]) && !StillConnecting(s, turns[..noticed])
    requires turns[start].ShutdownStarts? && turns[server].ServerCloseSettles? && turns[storage].StorageCloseSettles?
    requires turns[cleanup].CleanupRuns? && turns[noticed].StopNoticed? && turns[ended].ShutdownNoticed?
    ensures Returned(s, turns)
  {
    FollowsAt(s, StartsShutdown, Asked, turns, start, server);
    FollowsAt(s, StartsShutdown, Asked, turns, start, storage);
    if !s.createThrows {
      FollowsAt(s, SettlesServer, ShutdownStarted, turns, server, storage);
    }
    FollowsAt(s, SettlesStorage, ServerDown, turns, storage, cleanup);
    FollowsAt(s, CleansUp, StorageDown, turns, cleanup, noticed);
    FollowsAt(s, CleansUp, StorageDown, turns, cleanup, ended);
    FollowsAt(s, NoticesStop, StoppedAndConnected, turns, noticed, ended);
    FollowsAt(s, NoticesShutdown, CleanedUpInFinally, turns, ended, |turns|);
    assert turns[..|turns|] == turns;
  }

  // ---------------------------------------------------------------- failures

  predicate Failed(f: Failures, culprit: Culprit) {
    match culprit
    case StartUp => f.startUp
    case ServerClose => f.server
    case StorageClose => f.storage
  }

  predicate FailsToCloseServer(turn: Turn) { turn == ServerCloseSettles(false) }
  predicate FailsToCloseStorage(turn: Turn) { turn == StorageCloseSettles(false) }

  ghost predicate ClosesServer(s: Start, turns: seq<Turn>) { ShutdownStarted(s, turns) && !ServerDown(s, turns) }
  ghost predicate ClosesStorage(s: Start, turns: seq<Turn>) { ServerDown(s, turns) && !StorageDown(s, turns) }

  /** A step settled with an error while it was awaited; a server that could not be created is a failed
      start-up too. */
  ghost predicate WentWrong(s: Start, turns: seq<Turn>, culprit: Culprit) {
    match culprit
    case StartUp => s.createThrows || ConnectFailed(s, turns)
    case ServerClose => Follows(s, FailsToCloseServer, ClosesServer, turns)
    case StorageClose => Follows(s, FailsToCloseStorage, ClosesStorage, turns)
  }

  lemma WrongStep(s: Start, turns: seq<Turn>, turn: Turn, culprit: Culprit)
    ensures WentWrong(s, turns + [turn], culprit) <==> WentWrong(s, turns, culprit) || match culprit
      case StartUp => FailsToConnect(turn) && StillConnecting(s, turns)
      case ServerClose => FailsToCloseServer(turn) && ClosesServer(s, turns)
      case StorageClose => FailsToCloseStorage(turn) && ClosesStorage(s, turns)
  {
    match culprit
    case StartUp => FollowsStep(s, FailsToConnect, StillConnecting, turns, turn);
    case ServerClose => FollowsStep(s, FailsToCloseServer, ClosesServer, turns, turn);
    case StorageClose => FollowsStep(s, FailsToCloseStorage, ClosesStorage, turns, turn);
  }

  lemma FailureStep(p: Protocol, server: bool, turn: Turn, culprit: Culprit)
    ensures Failed(Next(p, server, turn).failures, culprit) <==> Failed(p.failures, culprit) || match culprit
      case StartUp => FailsToConnect(turn) && p.main.Connecting?
      case ServerClose => FailsToCloseServer(turn) && p.closing.ClosingServer?
      case StorageClose => FailsToCloseStorage(turn) && p.closing.ClosingStorage?
  {
  }

  lemma AwaitedTold(s: Start, turns: seq<Turn>, p: Protocol)
    requires ClosingTells(s, turns, p.closing) && MainTells(s, turns, p.main)
    ensures p.main.Connecting? <==> StillConnecting(s, turns)
    ensures p.closing.ClosingServer? <==> ClosesServer(s, turns)
    ensures p.closing.ClosingStorage? <==> ClosesStorage(s, turns)
  {
  }

  /** The start-up or a close counts as failed exactly if it settled with an error while it was
      awaited. */
  lemma {:induction false} FailuresHappened(s: Start, turns: seq<Turn>, culprit: Culprit)
    ensures Failed(After(s.createThrows, s.inputEnded, turns).failures, culprit) <==> WentWrong(s, turns, culprit)
  {
    if turns == [] {
      NothingWrongYet(s, culprit);
    } else {
      var n := |turns| - 1;
      var p := After(s.createThrows, s.inputEnded, turns[..n]);
      FailuresHappened(s, turns[..n], culprit);
      TurnsTell(s, turns[..n]);
      AwaitedTold(s, turns[..n], p);
      assert turns[..n] + [turns[n]] == turns;
      WrongStep(s, turns[..n], turns[n], culprit);
      FailureStep(p, !s.createThrows, turns[n], culprit);
    }
  }

  lemma NothingWrongYet(s: Start, culprit: Culprit)
    ensures Failed(Begin(s.createThrows, s.inputEnded).failures, culprit) <==> WentWrong(s, [], culprit)
  {
  }

  // ---------------------------------------------------------------- the whole call

  function When(happened: bool, effect: Effect): seq<Effect> {
    if happened then [effect] else []
  }

  /** The effects of the steps taken so far. */
  function Effects(server: bool, started: bool, serverDown: bool, storageDown: bool, cleanedUp: bool, returned: bool): seq<Effect> {
    When(server && started, CloseServer) + When(server && serverDown, ServerClosed) + When(serverDown, CloseStorage)
    + When(storageDown, StorageClosed) + When(cleanedUp, ListenersOff) + When(returned, ReturnToCaller)
  }

  /** What the turns have made observable. */
  ghost function Observed(s: Start, turns: seq<Turn>): seq<Effect> {
    Effects(!s.createThrows, ShutdownStarted(s, turns), ServerDown(s, turns), StorageDown(s, turns), CleanedUp(s, turns), Returned(s, turns))
  }

  lemma EffectsSoFar(server: bool, closing: Shutdown, returned: bool)
    requires (closing.ClosingServer? ==> server) && (returned ==> closing.Complete?)
    ensures var queued := closing.Unasked? || closing.Queued?;
      Effects(server, !queued, !queued && !closing.ClosingServer?, closing.CleaningUp? || closing.Complete?, closing.Complete?, returned)
      == if returned then WholeRun(server) else WholeRun(server)[..Progress(server, closing)]
  {
    var whole := [CloseStorage, StorageClosed, ListenersOff, ReturnToCaller];
    assert [] + whole == whole;
    if server {
      assert WholeRun(server) == [CloseServer, ServerClosed, CloseStorage, StorageClosed, ListenersOff, ReturnToCaller];
    }
    match closing
    case Unasked =>
    case Queued =>
    case ClosingServer =>
    case ClosingStorage =>
    case CleaningUp =>
    case Complete =>
  }

  lemma ObservedTold(s: Start, turns: seq<Turn>, p: Protocol)
    requires ClosingTells(s, turns, p.closing) && MainTells(s, turns, p.main)
    requires (p.closing.ClosingServer? ==> !s.createThrows) && (p.main.Settled? ==> p.closing.Complete?)
    ensures var whole := WholeRun(!s.createThrows);
      Observed(s, turns) == if p.main.Settled? then whole else whole[..Progress(!s.createThrows, p.closing)]
  {
    EffectsSoFar(!s.createThrows, p.closing, p.main.Settled?);
  }

  /** The error that wins: of the storage close, or else of the server close, or else of creating or
      connecting the server. */
  ghost predicate EndsWith(s: Start, turns: seq<Turn>, ending: Ending) {
    match ending
    case Rejects(StorageClose) => WentWrong(s, turns, StorageClose)
    case Rejects(ServerClose) => WentWrong(s, turns, ServerClose) && !WentWrong(s, turns, StorageClose)
    case Rejects(StartUp) => WentWrong(s, turns, StartUp) && !WentWrong(s, turns, ServerClose) && !WentWrong(s, turns, StorageClose)
    case Resolves => forall culprit :: !WentWrong(s, turns, culprit)
  }

  lemma EndingTold(s: Start, turns: seq<Turn>)
    ensures EndsWith(s, turns, EndingOf(After(s.createThrows, s.inputEnded, turns).failures))
  {
    FailuresHappened(s, turns, StartUp);
    FailuresHappened(s, turns, ServerClose);
    FailuresHappened(s, turns, StorageClose);
    forall culprit: Culprit ensures culprit.StartUp? || culprit.ServerClose? || culprit.StorageClose? {
    }
  }

  /** The log and the ending of a session in state `p`. */
  predicate Shows(server: bool, p: Protocol, log: seq<Effect>, ending: Option<Ending>) {
    && (p.closing.ClosingServer? ==> server) && (p.main.Settled? ==> p.closing.Complete?)
    && log == (if p.main.Settled? then WholeRun(server) else WholeRun(server)[..Progress(server, p.closing)])
    && ending == if p.main.Settled? then Some(EndingOf(p.failures)) else None
  }

  method RunTurns(createThrows: bool, inputEnded: bool, turns: seq<Turn>) returns (log: seq<Effect>, ending: Option<Ending>)
    ensures Shows(!createThrows, After(createThrows, inputEnded, turns), log, ending)
  {
    var session := new Session(createThrows, inputEnded);
    for i := 0 to |turns|
      invariant session.Valid() && session.server == !createThrows
      invariant session.Current() == After(createThrows, inputEnded, turns[..i])
    {
      assert turns[..i + 1][..i] == turns[..i];
      session.Handle(turns[i]);
    }
    assert turns[..|turns|] == turns;
    log, ending := session.log, session.ending;
  }

  lemma ShownTold(s: Start, turns: seq<Turn>, log: seq<Effect>, ending: Option<Ending>)
    requires Shows(!s.createThrows, After(s.createThrows, s.inputEnded, turns), log, ending)
    ensures log == Observed(s, turns) && log <= WholeRun(!s.createThrows)
    ensures ending.Some? <==> log == WholeRun(!s.createThrows)
    ensures ending.Some? <==> Returned(s, turns)
    ensures ending.Some? ==> EndsWith(s, turns, ending.value)
  {
    var p := After(s.createThrows, s.inputEnded, turns);
    TurnsTell(s, turns);
    ObservedTold(s, turns, p);
    ShownIsPrefix(!s.createThrows, p, log, ending);
    EndingTold(s, turns);
  }

  lemma ShownIsPrefix(server: bool, p: Protocol, log: seq<Effect>, ending: Option<Ending>)
    requires Shows(server, p, log, ending)
    ensures log <= WholeRun(server) && (ending.Some? <==> log == WholeRun(server)) && (ending.Some? <==> p.main.Settled?)
  {
    assert |WholeRun(server)| == if server then 6 else 4;
    assert Progress(server, p.closing) < |WholeRun(server)|;
  }

  /** For every order of turns: what is observed is told from the turns alone, and is a prefix of the
      one whole run. So the server's close starts at most once, the storage's close starts only after it
      settled and at most once, and control returns only after the storage closed and the listeners are
      gone, and then nothing is missing. The call ends then, and only then, and with the error that
      wins. */
  method RunMcpStdio(createThrows: bool, inputEnded: bool, turns: seq<Turn>) returns (log: seq<Effect>, ending: Option<Ending>)
    ensures log == Observed(Start(createThrows, inputEnded), turns) && log <= WholeRun(!createThrows)
    ensures ending.Some? <==> log == WholeRun(!createThrows)
    ensures ending.Some? <==> Returned(Start(createThrows, inputEnded), turns)
    ensures ending.Some? ==> EndsWith(Start(createThrows, inputEnded), turns, ending.value)
  {
    log, ending := RunTurns(createThrows, inputEnded, turns);
    ShownTold(Start(createThrows, inputEnded), turns, log, ending);
  }

  /** What being a prefix of the whole run says about single effects. */
  lemma PrefixMeans(server: bool, log: seq<Effect>, i: nat)
    requires log <= WholeRun(server) && i < |log|
    ensures forall j | 0 <= j < |log| && j != i :: log[j] != log[i]
    ensures log[i] == CloseStorage && server ==> ServerClosed in log[..i]
    ensures log[i] == ReturnToCaller ==> StorageClosed in log[..i] && ListenersOff in log[..i]
  {
    var whole := WholeRun(server);
    assert forall j | 0 <= j < |log| :: log[j] == whole[j];
    if log[i] == CloseStorage && server {
      assert i == 2 && log[..i][1] == ServerClosed;
    }
    if log[i] == ReturnToCaller {
      var n := |whole|;
      assert i == n - 1 && log[..i][n - 2] == ListenersOff && log[..i][n - 3] == StorageClosed;
    }
  }
}
