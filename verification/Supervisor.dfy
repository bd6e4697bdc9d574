/** The supervisor of `diverge dev`: restarts a child process over a one-slot channel, behind a circuit breaker. */
module Supervisor {
  import opened Text
  import opened ConfigWatcher

  const MAX_RAPID: nat := 3
  const RAPID_THRESHOLD: int := 3_000_000_000

  // ----- the breaker and the channel

  datatype Breaker = Breaker(rapidFails: nat, halted: bool)

  function Recorded(b: Breaker, rapid: bool): Breaker {
    if rapid then Breaker(b.rapidFails + 1, b.halted || b.rapidFails + 1 >= MAX_RAPID)
    else Breaker(0, b.halted)
  }

  class Process {
    var rapidFails: nat
    var halted: bool
    var restartCh: Option<map<string, string>>

    constructor ()
      ensures Breaker(rapidFails, halted) == Breaker(0, false) && restartCh == None
    {
      rapidFails, halted, restartCh := 0, false, None;
    }

    method RecordChildExit(elapsed: int)
      modifies this`rapidFails, this`halted
      ensures Breaker(rapidFails, halted)
           == Recorded(Breaker(old(rapidFails), old(halted)), elapsed < RAPID_THRESHOLD)
    {
      if elapsed < RAPID_THRESHOLD {
        rapidFails := rapidFails + 1;
        if rapidFails >= MAX_RAPID { halted := true; }
      } else {
        rapidFails := 0;
      }
    }

    /** A request is dropped when one is already pending. */
    method RequestRestart(envDiff: map<string, string>)
      modifies this`restartCh
      ensures restartCh == if old(restartCh).None? then Some(envDiff) else old(restartCh)
    {
      if restartCh.None? { restartCh := Some(envDiff); }
    }
  }

  // ----- the protocol: every interleaving of watcher, supervisor and children

  datatype Point =
    | Starting                     // about to read the environment
    | Built(env: Option<EnvMap>)   // environment read, child not started yet
    | Running                      // in the select, one child being waited for
    | Stopping(quit: bool)         // child told to stop, not reaped yet
    | Waiting                      // child gone, waiting for a request or a signal
    | Returned

  /** Children are numbered in starting order; `live` gives the environment each live one was built from, `env` that
      of the last one started.
      `envRead` remembers that the supervisor has read the environment, `missed` that the first sync came later,
      `leaked` that a restart began over a child still running. */
  datatype State = State(
    point: Point, cur: nat, started: nat, live: map<nat, Option<EnvMap>>, env: Option<EnvMap>,
    slot: bool, latest: Option<EnvMap>, notifying: bool,
    breaker: Breaker, exits: seq<bool>, envRead: bool, missed: bool, leaked: bool)

  function Init(latest: Option<EnvMap>): State {
    State(Starting, 0, 0, map[], None, false, latest, false, Breaker(0, false), [], false, false, false)
  }

  datatype Event =
    | Sync(poll: Option<Snapshot>)
    | Notify
    | ReadEnv
    | StartOk
    | StartFails
    | ChildDies(child: nat)
    | SeesExit(elapsed: int, shuttingDown: bool)
    | TakesRestart
    | Signalled
    | Reaps(elapsed: int)

  ghost predicate Enabled(s: State, e: Event) {
    match e
    case Sync(_) => !s.notifying
    case Notify => s.notifying
    case ReadEnv => s.point == Starting
    case StartOk => s.point.Built?
    case StartFails => s.point.Built?
    case ChildDies(c) => c in s.live
    case SeesExit(_, _) => s.point == Running && s.cur !in s.live
    case TakesRestart => s.slot && s.point in {Running, Waiting}
    case Signalled => s.point in {Running, Waiting}
    case Reaps(_) => s.point.Stopping? && s.cur !in s.live
  }

  function Exited(s: State, rapid: bool, next: Point): State {
    s.(breaker := Recorded(s.breaker, rapid), exits := s.exits + [rapid], point := next)
  }

  function Polled(s: State, latest: Option<EnvMap>, announce: bool): State {
    s.(latest := latest, notifying := announce,
       missed := s.missed || (s.envRead && s.latest.None? && latest.Some?))
  }

  function Step(s: State, e: Event): State {
    match e
    case Sync(poll) =>
      var (latest, announce) := Synced(s.latest, poll);
      Polled(s, latest, announce)
    case Notify => s.(slot := true, notifying := false)
    case ReadEnv => s.(point := Built(s.latest), envRead := true)
    case StartOk =>
      if s.point.Built?
      then s.(point := Running, cur := s.started, started := s.started + 1, env := s.point.env,
              live := s.live[s.started := s.point.env])
      else s
    case StartFails => s.(point := Returned)
    case ChildDies(c) => s.(live := s.live - {c})
    case SeesExit(elapsed, shuttingDown) =>
      Exited(s, elapsed < RAPID_THRESHOLD, if shuttingDown then Returned else Waiting)
    case TakesRestart =>
      if s.point == Waiting then s.(slot := false, point := Starting)
      else if s.breaker.halted then s.(slot := false, point := Starting, leaked := s.leaked || s.cur in s.live)
      else s.(slot := false, point := Stopping(false))
    case Signalled => s.(point := if s.point == Waiting then Returned else Stopping(true))
    case Reaps(elapsed) =>
      if s.point == Stopping(true) then s.(point := Returned)
      else
        var rapid := elapsed < RAPID_THRESHOLD;
        Exited(s, rapid, if Recorded(s.breaker, rapid).halted then Waiting else Starting)
  }

  function RunFrom(s: State, es: seq<Event>): State
    decreases |es|
  {
    if es == [] then s else RunFrom(Step(s, es[0]), es[1..])
  }

  ghost predicate Possible(s: State, es: seq<Event>)
    decreases |es|
  {
    es == [] || (Enabled(s, es[0]) && Possible(Step(s, es[0]), es[1..]))
  }

  // ----- the session itself

  /** The watcher and the supervisor at work: each method is one atomic piece of either loop. */
  class Session {
    const watcher: Watcher
    const process: Process
    var point: Point
    var cur: nat
    var started: nat
    var live: map<nat, Option<EnvMap>>
    var announced: Option<map<string, string>>
    ghost var env: Option<EnvMap>
    ghost var exits: seq<bool>
    ghost var envRead: bool
    ghost var missed: bool
    ghost var leaked: bool

    constructor ()
      ensures View() == Init(None) && fresh(watcher) && fresh(process)
    {
      watcher := new Watcher();
      process := new Process();
      point, cur, started, live, announced := Starting, 0, 0, map[], None;
      env, exits, envRead, missed, leaked := None, [], false, false, false;
    }

    ghost function View(): State
      reads this, watcher, process
    {
      State(point, cur, started, live, env, process.restartCh.Some?, watcher.lastEnvMap, announced.Some?,
            Breaker(process.rapidFails, process.halted), exits, envRead, missed, leaked)
    }

    method Poll(poll: Option<Snapshot>)
      requires Enabled(View(), Sync(poll))
      modifies this, watcher
      ensures View() == Step(old(View()), Sync(poll))
    {
      ghost var was := watcher.lastEnvMap;
      announced := watcher.SyncOnce(poll);
      missed := missed || (envRead && was.None? && watcher.lastEnvMap.Some?);
    }

    method Announce()
      requires Enabled(View(), Notify)
      modifies this, process
      ensures View() == Step(old(View()), Notify)
    {
      process.RequestRestart(announced.value);
      announced := None;
    }

    /** startChild reads the environment first and starts the process later. */
    method BuildEnv()
      requires Enabled(View(), ReadEnv)
      modifies this
      ensures View() == Step(old(View()), ReadEnv)
    {
      point, envRead := Built(watcher.lastEnvMap), true;
    }

    method StartChild(ok: bool)
      requires point.Built?
      modifies this
      ensures View() == Step(old(View()), if ok then StartOk else StartFails)
    {
      if !ok {
        point := Returned;
        return;
      }
      live, env := live[started := point.env], point.env;
      point, cur, started := Running, started, started + 1;
    }

    method Die(child: nat)
      requires Enabled(View(), ChildDies(child))
      modifies this
      ensures View() == Step(old(View()), ChildDies(child))
    {
      live := live - {child};
    }

    method SeeExit(elapsed: int, shuttingDown: bool)
      requires Enabled(View(), SeesExit(elapsed, shuttingDown))
      modifies this, process
      ensures View() == Step(old(View()), SeesExit(elapsed, shuttingDown))
    {
      process.RecordChildExit(elapsed);
      exits := exits + [elapsed < RAPID_THRESHOLD];
      point := if shuttingDown then Returned else Waiting;
    }

    method TakeRestart()
      requires Enabled(View(), TakesRestart)
      modifies this, process
      ensures View() == Step(old(View()), TakesRestart)
    {
      process.restartCh := None;
      if point == Waiting {
        point := Starting;
      } else if process.halted {
        point := Starting;
        leaked := leaked || cur in live;
      } else {
        point := Stopping(false);
      }
    }

    method Signal()
      requires Enabled(View(), Signalled)
      modifies this
      ensures View() == Step(old(View()), Signalled)
    {
      point := if point == Waiting then Returned else Stopping(true);
    }

    method Reap(elapsed: int)
      requires Enabled(View(), Reaps(elapsed))
      modifies this, process
      ensures View() == Step(old(View()), Reaps(elapsed))
    {
      if point.quit {
        point := Returned;
        return;
      }
      process.RecordChildExit(elapsed);
      exits := exits + [elapsed < RAPID_THRESHOLD];
      point := if process.halted then Waiting else Starting;
    }

    method Do(e: Event)
      requires Enabled(View(), e)
      modifies this, watcher, process
      ensures View() == Step(old(View()), e)
    {
      match e {
        case Sync(poll) => Poll(poll);
        case Notify => Announce();
        case ReadEnv => BuildEnv();
        case StartOk => StartChild(true);
        case StartFails => StartChild(false);
        case ChildDies(c) => Die(c);
        case SeesExit(elapsed, shuttingDown) => SeeExit(elapsed, shuttingDown);
        case TakesRestart => TakeRestart();
        case Signalled => Signal();
        case Reaps(elapsed) => Reap(elapsed);
      }
    }

    /** Any possible interleaving, played on the objects, ends in the state the run function gives. */
    method Play(es: seq<Event>)
      requires Possible(View(), es)
      modifies this, watcher, process
      ensures View() == RunFrom(old(View()), es)
    {
      assert es[0..] == es;
      for i := 0 to |es|
        invariant Possible(View(), es[i..]) && RunFrom(View(), es[i..]) == RunFrom(old(View()), es)
      {
        assert es[i..][1..] == es[i + 1..];
        Do(es[i]);
      }
    }
  }

  // ----- no change is lost

  /** An environment is the latest, or something will bring a later one. */
  ghost predicate CaughtUp(s: State, env: Option<EnvMap>) { env == s.latest || s.slot || s.notifying }

  /** A child runs, or one that exited on its own waits to be brought back. */
  predicate Serving(s: State) { s.point == Running || (s.point == Waiting && !s.breaker.halted) }

  ghost predicate NoLostChange(s: State) {
    && (s.point.Built? ==> CaughtUp(s, s.point.env))
    && (Serving(s) ==> CaughtUp(s, s.env))
  }

  // ----- one child at a time

  ghost predicate OneChild(s: State) {
    && s.live.Keys <= {s.cur}
    && (s.point in {Starting, Waiting, Returned} || s.point.Built? ==> s.live == map[])
  }

  function Trailing(exits: seq<bool>): nat {
    if exits == [] || !exits[|exits| - 1] then 0 else 1 + Trailing(exits[..|exits| - 1])
  }

  ghost predicate ThreeRapidInARow(exits: seq<bool>) {
    exists i :: 0 <= i <= |exits| - 3 && exits[i] && exits[i + 1] && exits[i + 2]
  }

  ghost predicate Agrees(b: Breaker, exits: seq<bool>) {
    && b.rapidFails == Trailing(exits)
    && (b.halted <==> ThreeRapidInARow(exits))
  }

  ghost predicate Numbered(s: State) {
    && (forall c :: c in s.live ==> c < s.started)
    && (s.point == Running || s.point.Stopping? ==> s.started == s.cur + 1)
    && (s.point.Built? || Serving(s) ==> s.envRead)
    && (s.cur in s.live ==> s.live[s.cur] == s.env)
  }

  ghost predicate Invariant(s: State) {
    && Numbered(s) && Agrees(s.breaker, s.exits)
    && (s.leaked ==> s.breaker.halted)
    && (!s.leaked ==> OneChild(s))
    && (!s.missed ==> NoLostChange(s))
  }

  lemma TrailingPush(exits: seq<bool>, rapid: bool)
    ensures Trailing(exits + [rapid]) == if rapid then Trailing(exits) + 1 else 0
  {
    assert (exits + [rapid])[..|exits|] == exits;
  }

  predicate LastTwo(exits: seq<bool>) { |exits| >= 2 && exits[|exits| - 1] && exits[|exits| - 2] }

  lemma TrailingTwo(exits: seq<bool>)
    ensures Trailing(exits) >= 2 <==> LastTwo(exits)
  {
    if exits != [] {
      var front := exits[..|exits| - 1];
      if front != [] { assert front[|front| - 1] == exits[|exits| - 2]; }
    }
  }

  lemma ThreePush(exits: seq<bool>, rapid: bool)
    ensures ThreeRapidInARow(exits + [rapid]) <==> ThreeRapidInARow(exits) || (rapid && LastTwo(exits))
  {
    var xs, n := exits + [rapid], |exits|;
    if ThreeRapidInARow(exits) {
      var i :| 0 <= i <= n - 3 && exits[i] && exits[i + 1] && exits[i + 2];
      assert xs[i] && xs[i + 1] && xs[i + 2];
    }
    if rapid && LastTwo(exits) { assert xs[n - 2] && xs[n - 1] && xs[n]; }
    if ThreeRapidInARow(xs) {
      var i :| 0 <= i <= |xs| - 3 && xs[i] && xs[i + 1] && xs[i + 2];
      if i <= n - 3 { assert exits[i] && exits[i + 1] && exits[i + 2]; }
    }
  }

  lemma RecordedAgrees(exits: seq<bool>, b: Breaker, rapid: bool)
    requires Agrees(b, exits)
    ensures Agrees(Recorded(b, rapid), exits + [rapid])
  {
    TrailingPush(exits, rapid);
    TrailingTwo(exits);
    ThreePush(exits, rapid);
  }

  /** A step records one exit or none. */
  lemma RecordsAtMostOne(s: State, e: Event) returns (records: bool, rapid: bool)
    ensures var t := Step(s, e);
            if records then t.exits == s.exits + [rapid] && t.breaker == Recorded(s.breaker, rapid)
            else t.exits == s.exits && t.breaker == s.breaker
  {
    records := e.SeesExit? || (e.Reaps? && s.point != Stopping(true));
    rapid := records && e.elapsed < RAPID_THRESHOLD;
  }

  lemma StepKeepsBreaker(s: State, e: Event)
    requires Agrees(s.breaker, s.exits)
    ensures Agrees(Step(s, e).breaker, Step(s, e).exits)
  {
    var records, rapid := RecordsAtMostOne(s, e);
    if records { RecordedAgrees(s.exits, s.breaker, rapid); }
  }

  lemma LeakNeedsOpenBreaker(s: State, e: Event)
    requires s.leaked ==> s.breaker.halted
    ensures Step(s, e).leaked ==> Step(s, e).breaker.halted
  {
    var records, rapid := RecordsAtMostOne(s, e);
    if Step(s, e).leaked && !s.leaked { assert e.TakesRestart? && s.breaker.halted; }
  }

  lemma StepKeepsNumbers(s: State, e: Event)
    requires Numbered(s) && Enabled(s, e)
    ensures Numbered(Step(s, e))
  {
    if e.StartOk? || e.ChildDies? {
      assert Step(s, e).live.Keys <= s.live.Keys + {s.started};
    } else {
      OnlyStartsAndDeathsCount(s, e);
      OnlyStartsNumber(s, e);
    }
  }

  lemma OnlyStartsAndDeathsCount(s: State, e: Event)
    ensures !e.StartOk? && !e.ChildDies? ==> Step(s, e).live == s.live
  {
    match e {
      case Sync(_) =>
      case TakesRestart =>
      case Reaps(_) =>
      case _ =>
    }
  }

  lemma OnlyStartsNumber(s: State, e: Event)
    ensures !e.StartOk? ==> Step(s, e).started == s.started && Step(s, e).cur == s.cur
  {
    match e {
      case Sync(_) =>
      case TakesRestart =>
      case Reaps(_) =>
      case _ =>
    }
  }

  lemma StepKeepsOneChild(s: State, e: Event)
    requires Numbered(s) && Enabled(s, e) && OneChild(s) && !Step(s, e).leaked
    ensures OneChild(Step(s, e))
  {
  }

  lemma StepLosesNothing(s: State, e: Event)
    requires Numbered(s) && Enabled(s, e) && !Step(s, e).missed && NoLostChange(s)
    ensures NoLostChange(Step(s, e))
  {
  }

  lemma StepKeepsInvariant(s: State, e: Event)
    requires Invariant(s) && Enabled(s, e)
    ensures Invariant(Step(s, e))
  {
    StepKeepsBreaker(s, e);
    LeakNeedsOpenBreaker(s, e);
    StepKeepsNumbers(s, e);
    if !Step(s, e).leaked { StepKeepsOneChild(s, e); }
    if !Step(s, e).missed { StepLosesNothing(s, e); }
  }

  lemma {:induction false} RunKeepsInvariant(s: State, es: seq<Event>)
    requires Invariant(s) && Possible(s, es)
    ensures Invariant(RunFrom(s, es))
    decreases |es|
  {
    if es != [] {
      StepKeepsInvariant(s, es[0]);
      RunKeepsInvariant(Step(s, es[0]), es[1..]);
    }
  }

  /** Once the first sync has happened the environment is never forgotten, so it is never missed. */
  lemma {:induction false} SyncedStaysSynced(s: State, es: seq<Event>)
    requires s.latest.Some? && !s.missed && Possible(s, es)
    ensures RunFrom(s, es).latest.Some? && !RunFrom(s, es).missed
    decreases |es|
  {
    if es != [] {
      StepStaysSynced(s, es[0]);
      SyncedStaysSynced(Step(s, es[0]), es[1..]);
    }
  }

  lemma StepStaysSynced(s: State, e: Event)
    requires s.latest.Some? && !s.missed
    ensures Step(s, e).latest.Some? && !Step(s, e).missed
  {
  }

  /** Unless the first sync came after the environment was first read: in every interleaving the current child, or the
      one that exited on its own and is waited for, was built from the latest environment, or a restart is pending or
      under way, or the watcher is about to ask for one. With a sync before the start that exception does not arise. */
  lemma NoChangeIsLost(latest: Option<EnvMap>, es: seq<Event>)
    requires Possible(Init(latest), es)
    ensures !RunFrom(Init(latest), es).missed ==> NoLostChange(RunFrom(Init(latest), es))
    ensures latest.Some? ==> !RunFrom(Init(latest), es).missed
  {
    RunKeepsInvariant(Init(latest), es);
    if latest.Some? { SyncedStaysSynced(Init(latest), es); }
  }

  /** The environment was read before any sync, and no request is pending to have it read again. */
  predicate ReadTooEarly(s: State) {
    && s.latest.None? && !s.slot
    && (s.point == Built(None) || (Serving(s) && s.env == None))
  }

  /** The exact step at which a change is lost: the first sync, when the environment was read before it. */
  lemma LateFirstSyncIsMissed(s: State, e: Event)
    requires Invariant(s) && Enabled(s, e) && NoLostChange(s)
    ensures NoLostChange(Step(s, e)) <==> !(e.Sync? && e.poll.Some? && ReadTooEarly(s))
  {
  }

  /** Waiting, and nothing will bring the latest environment. */
  ghost predicate Stranded(s: State) { s.point == Waiting && !CaughtUp(s, s.env) }

  /** With the first sync in time, the exact step at which a change that was taken up is dropped again: the stop for its
      own restart is the third rapid exit in a row, and nothing newer is on its way. */
  lemma BreakerDropsChangeExactly(s: State, e: Event)
    requires Invariant(s) && Enabled(s, e) && !Stranded(s) && s.latest.Some? && !s.missed
    ensures Stranded(Step(s, e))
       <==> && e.Reaps? && s.point == Stopping(false) && ThreeRapidInARow(ExitsWith(s, e.elapsed))
            && !CaughtUp(s, s.env)
  {
    if !Elsewhere(e) { ArrivesExactly(s, e); }
    DropStep(s, e);
  }

  lemma DropStep(s: State, e: Event)
    requires Invariant(s) && Enabled(s, e) && !Stranded(s) && s.latest.Some? && !s.missed
    ensures Stranded(Step(s, e)) <==> Step(s, e).point == Waiting && e.Reaps? && !CaughtUp(s, s.env)
  {
  }

  /** It happens in runs from the start, before the child is started as well as after. */
  lemma LateFirstSyncIsReachable(p: Snapshot)
    ensures var es := [ReadEnv, Sync(Some(p))];
            Possible(Init(None), es) && !NoLostChange(RunFrom(Init(None), es))
    ensures var es := [ReadEnv, StartOk, Sync(Some(p))];
            Possible(Init(None), es) && !NoLostChange(RunFrom(Init(None), es))
  {
    var s := Init(None);
    var a := Step(s, ReadEnv);
    var b := Step(a, StartOk);
    var c := Step(a, Sync(Some(p)));
    var d := Step(b, Sync(Some(p)));
    TraceIsRun([s, a, c], [ReadEnv, Sync(Some(p))]);
    TraceIsRun([s, a, b, d], [ReadEnv, StartOk, Sync(Some(p))]);
  }

  /** In every run the breaker's counter is the length of the trailing streak of rapid exits and it is open iff
      three exits in a row were rapid; until then at most one child lives, and none once Run has returned. */
  lemma BreakerAndReaping(latest: Option<EnvMap>, es: seq<Event>)
    requires Possible(Init(latest), es)
    ensures var s := RunFrom(Init(latest), es);
            && s.breaker.rapidFails == Trailing(s.exits)
            && (s.breaker.halted <==> ThreeRapidInARow(s.exits))
            && (!s.breaker.halted ==> |s.live| <= 1 && (s.point == Returned ==> s.live == map[]))
  {
    RunKeepsInvariant(Init(latest), es);
    var s := RunFrom(Init(latest), es);
    if !s.leaked { AtMostOne(s.live, s.cur); }
  }

  lemma AtMostOne(live: map<nat, Option<EnvMap>>, cur: nat)
    requires live.Keys <= {cur}
    ensures |live| <= 1
  {
    if live.Keys != {} { assert live.Keys == {cur}; }
    assert |live| == |live.Keys|;
  }

  /** The exact step at which a second child becomes possible: a request taken over a running child while
      the breaker is open. */
  lemma SecondChildExactly(s: State, e: Event)
    requires Invariant(s) && Enabled(s, e) && OneChild(s) && !s.leaked
    ensures OneChild(Step(s, e)) <==> !(e.TakesRestart? && s.point == Running && s.breaker.halted && s.cur in s.live)
  {
  }

  /** All an open breaker stops is the restart right after a reap: a restart begins exactly when a request is taken,
      and every request is. */
  lemma OpenBreakerStillRestarts(s: State, e: Event)
    requires Invariant(s) && Enabled(s, e) && s.breaker.halted && s.point != Starting
    ensures Step(s, e).point == Starting <==> e.TakesRestart?
  {
    match e {
      case TakesRestart =>
      case Reaps(_) =>
      case Sync(_) =>
      case _ =>
    }
  }

  // ----- where a step leads

  /** Steps that are not the supervisor's own. */
  predicate Elsewhere(e: Event) { e.Sync? || e.Notify? || e.ChildDies? }

  /** The history of exits once this one is recorded. */
  function ExitsWith(s: State, elapsed: int): seq<bool> { s.exits + [elapsed < RAPID_THRESHOLD] }

  /** Where the supervisor goes, by where it arrives. `open` says that the breaker is open, `opens` that it is once the
      exit of a reaped child is recorded. */
  ghost predicate Arrives(s: State, e: Event, p: Point, open: bool, opens: bool) {
    && (p == Starting
        <==> (e.TakesRestart? && (s.point == Waiting || open)) || (e.Reaps? && s.point == Stopping(false) && !opens))
    && (p == Waiting
        <==> (e.SeesExit? && !e.shuttingDown) || (e.Reaps? && s.point == Stopping(false) && opens))
    && (p == Returned
        <==> || e.StartFails? || (e.SeesExit? && e.shuttingDown)
             || (e.Signalled? && s.point == Waiting) || (e.Reaps? && s.point == Stopping(true)))
    && (p == Stopping(false) <==> e.TakesRestart? && s.point == Running && !open)
    && (p == Stopping(true) <==> e.Signalled? && s.point == Running)
    && (p == Running <==> e.StartOk?) && (p.Built? <==> e.ReadEnv?)
  }

  lemma OtherSteps(s: State, e: Event)
    requires Enabled(s, e) && !Elsewhere(e) && !e.TakesRestart? && !e.Reaps?
    ensures Arrives(s, e, Step(s, e).point, s.breaker.halted, false)
  {
  }

  lemma TakingSteps(s: State)
    requires Enabled(s, TakesRestart)
    ensures Arrives(s, TakesRestart, Step(s, TakesRestart).point, s.breaker.halted, false)
  {
    var p := Step(s, TakesRestart).point;
    if s.point == Running && !s.breaker.halted { assert p == Stopping(false); } else { assert p == Starting; }
  }

  lemma ReapingSteps(s: State, elapsed: int)
    requires Enabled(s, Reaps(elapsed))
    ensures var opens := Recorded(s.breaker, elapsed < RAPID_THRESHOLD).halted;
            Arrives(s, Reaps(elapsed), Step(s, Reaps(elapsed)).point, s.breaker.halted, opens)
  {
    var p, opens := Step(s, Reaps(elapsed)).point, Recorded(s.breaker, elapsed < RAPID_THRESHOLD).halted;
    if s.point == Stopping(true) { assert p == Returned; }
    else if opens { assert p == Waiting; }
    else { assert p == Starting; }
  }

  lemma ArrivesByBreaker(s: State, e: Event)
    requires Enabled(s, e) && !Elsewhere(e)
    ensures var opens := e.Reaps? && Recorded(s.breaker, e.elapsed < RAPID_THRESHOLD).halted;
            Arrives(s, e, Step(s, e).point, s.breaker.halted, opens)
  {
    if e.TakesRestart? { TakingSteps(s); }
    else if e.Reaps? { ReapingSteps(s, e.elapsed); }
    else { OtherSteps(s, e); }
  }

  /** The breaker is what the history of exits says. */
  lemma ArrivesExactly(s: State, e: Event)
    requires Invariant(s) && Enabled(s, e) && !Elsewhere(e)
    ensures var opens := e.Reaps? && ThreeRapidInARow(ExitsWith(s, e.elapsed));
            Arrives(s, e, Step(s, e).point, ThreeRapidInARow(s.exits), opens)
  {
    ArrivesByBreaker(s, e);
    if e.Reaps? { RecordedAgrees(s.exits, s.breaker, e.elapsed < RAPID_THRESHOLD); }
  }

  /** A requested restart starts a child, unless this very stop is the third rapid exit in a row. */
  lemma ReapRestartsExactly(s: State, elapsed: int)
    requires Invariant(s) && Enabled(s, Reaps(elapsed)) && s.point == Stopping(false)
    ensures Step(s, Reaps(elapsed)).point == Starting <==> !ThreeRapidInARow(ExitsWith(s, elapsed))
  {
    ArrivesExactly(s, Reaps(elapsed));
  }

  /** What the other fields record: an exit nobody asked for and a stop for a restart count, a request is pending from
      its announcement until it is taken, and the rest of the supervisor's state stays where it was. */
  lemma RecordsExactly(s: State, e: Event)
    requires Enabled(s, e)
    ensures var t := Step(s, e);
            && t.exits == (if e.SeesExit? || (e.Reaps? && s.point == Stopping(false)) then ExitsWith(s, e.elapsed)
                           else s.exits)
            && (t.slot <==> e.Notify? || (s.slot && !e.TakesRestart?))
            && (t.started == s.started + (if e.StartOk? then 1 else 0))
            && (Elsewhere(e) ==> t.point == s.point)
  {
    var records, rapid := RecordsAtMostOne(s, e);
    OnlyStartsNumber(s, e);
  }

  /** A start uses the environment read for it. */
  lemma StartsWithWhatWasRead(s: State, e: Event)
    requires Enabled(s, e)
    ensures e.ReadEnv? ==> Step(s, e).point == Built(s.latest)
    ensures e.StartOk? ==> Step(s, e).live == s.live[s.started := s.point.env] && Step(s, e).env == s.point.env
    ensures e.StartOk? ==> Step(s, e).cur == s.started
  {
  }

  // ----- every request is carried out

  /** A restart is under way. */
  predicate Restarting(s: State) { s.point in {Starting, Stopping(false)} || s.point.Built? }

  lemma StepKeepsRestarting(s: State, e: Event)
    requires Enabled(s, e) && Restarting(s) && !e.StartOk? && !e.StartFails?
    ensures Restarting(Step(s, e)) || (!s.breaker.halted && Step(s, e).breaker.halted)
            || (s.point == Stopping(false) && s.breaker.halted)
  {
    if !Elsewhere(e) { ArrivesByBreaker(s, e); }
  }

  /** Once open the breaker stays open. */
  lemma {:induction false} StaysOpen(s: State, es: seq<Event>)
    requires s.breaker.halted
    ensures RunFrom(s, es).breaker.halted
    decreases |es|
  {
    if es != [] {
      var records, rapid := RecordsAtMostOne(s, es[0]);
      StaysOpen(Step(s, es[0]), es[1..]);
    }
  }

  lemma {:induction false} RestartGoesOn(s: State, es: seq<Event>)
    requires Restarting(s) && (s.point == Stopping(false) ==> !s.breaker.halted) && Possible(s, es)
    requires forall i :: 0 <= i < |es| ==> !es[i].StartOk? && !es[i].StartFails?
    ensures Restarting(RunFrom(s, es)) || (!s.breaker.halted && RunFrom(s, es).breaker.halted)
    decreases |es|
  {
    if es != [] {
      var t := Step(s, es[0]);
      StepKeepsRestarting(s, es[0]);
      if t.breaker.halted && !s.breaker.halted { StaysOpen(t, es[1..]); } else { RestartGoesOn(t, es[1..]); }
    }
  }

  /** From the moment a request is taken until a child is started or fails to, the restart is under way, in every
      continuation, unless the breaker opens meanwhile. */
  lemma RequestIsCarriedOut(s: State, es: seq<Event>)
    requires Enabled(s, TakesRestart) && Possible(Step(s, TakesRestart), es)
    requires forall i :: 0 <= i < |es| ==> !es[i].StartOk? && !es[i].StartFails?
    ensures var t := RunFrom(Step(s, TakesRestart), es); Restarting(t) || (!s.breaker.halted && t.breaker.halted)
  {
    RestartGoesOn(Step(s, TakesRestart), es);
  }

  /** The supervisor's last own step in a run. */
  function LastOwn(es: seq<Event>): Option<Event> {
    if es == [] then None
    else if Elsewhere(es[|es| - 1]) then LastOwn(es[..|es| - 1])
    else Some(es[|es| - 1])
  }

  lemma {:induction false} RunSplit(s: State, es: seq<Event>, e: Event)
    requires Possible(s, es + [e])
    ensures Possible(s, es) && Enabled(RunFrom(s, es), e) && RunFrom(s, es + [e]) == Step(RunFrom(s, es), e)
    decreases |es|
  {
    if es == [] {
      assert (es + [e])[1..] == [];
    } else {
      assert (es + [e])[1..] == es[1..] + [e];
      RunSplit(Step(s, es[0]), es[1..], e);
    }
  }

  /** In every run: a child is being waited for exactly when the last step was its start, and with a closed breaker the
      supervisor waits without one exactly when the last child exited and nobody had asked for it. */
  lemma {:induction false} LastStepTells(latest: Option<EnvMap>, es: seq<Event>)
    requires Possible(Init(latest), es)
    ensures var s, last := RunFrom(Init(latest), es), LastOwn(es);
            && (s.point == Running <==> last == Some(StartOk))
            && (!s.breaker.halted ==>
                  (s.point == Waiting <==> last.Some? && last.value.SeesExit? && !last.value.shuttingDown))
    decreases |es|
  {
    if es != [] {
      var front, e := es[..|es| - 1], es[|es| - 1];
      assert es == front + [e];
      RunSplit(Init(latest), front, e);
      var s := RunFrom(Init(latest), front);
      LastStepTells(latest, front);
      if !Elsewhere(e) { ArrivesByBreaker(s, e); }
    }
  }

  /** In every run the remembered environment is that of the last poll that found the group running. */
  lemma {:induction false} LatestIsLastPolled(s: State, es: seq<Event>, i: nat)
    requires Possible(s, es) && i < |es| && es[i].Sync? && es[i].poll.Some? && es[i].poll.value.running
    requires forall j :: i < j < |es| && es[j].Sync? && es[j].poll.Some? ==> !es[j].poll.value.running
    ensures RunFrom(s, es).latest == Some(es[i].poll.value.env)
    decreases |es|
  {
    var front, e := es[..|es| - 1], es[|es| - 1];
    assert es == front + [e];
    RunSplit(s, front, e);
    if i < |front| { LatestIsLastPolled(s, front, i); }
    if e.Sync? { PollFollowsGroup(RunFrom(s, front).latest, e.poll); }
  }

  // ----- what an open breaker leads to

  /** The states of a run, one by one. */
  ghost predicate Traces(ss: seq<State>, es: seq<Event>) {
    && |ss| == |es| + 1
    && forall i :: 0 <= i < |es| ==> Enabled(ss[i], es[i]) && ss[i + 1] == Step(ss[i], es[i])
  }

  lemma {:induction false} TraceIsRun(ss: seq<State>, es: seq<Event>)
    requires Traces(ss, es)
    ensures Possible(ss[0], es) && RunFrom(ss[0], es) == ss[|es|]
    decreases |es|
  {
    if es != [] {
      assert Traces(ss[1..], es[1..]);
      TraceIsRun(ss[1..], es[1..]);
    }
  }

  lemma {:induction false} RunConcat(s: State, first: seq<Event>, second: seq<Event>)
    requires Possible(s, first) && Possible(RunFrom(s, first), second)
    ensures Possible(s, first + second) && RunFrom(s, first + second) == RunFrom(RunFrom(s, first), second)
    decreases |first|
  {
    if first == [] {
      assert first + second == second;
    } else {
      assert (first + second)[1..] == first[1..] + second;
      RunConcat(Step(s, first[0]), first[1..], second);
    }
  }

  /** A child starts; the configuration changes under it. */
  lemma StartThenChange(s: State, env: EnvMap) returns (es: seq<Event>, t: State)
    requires s.point == Starting && !s.notifying && s.latest.Some? && s.latest.value != env
    ensures Possible(s, es) && RunFrom(s, es) == t
    ensures t == s.(point := Running, cur := s.started, started := s.started + 1, envRead := true, env := s.latest,
                    live := s.live[s.started := s.latest], latest := Some(env), slot := true)
  {
    es := [ReadEnv, StartOk, Sync(Some(Snapshot(env, true))), Notify];
    var a := Step(s, es[0]);
    var b := Step(a, es[1]);
    var c := Step(b, es[2]);
    t := Step(c, es[3]);
    TraceIsRun([s, a, b, c, t], es);
  }

  /** The child crashes at once; the pending change brings it back. */
  lemma CrashThenRestart(s: State) returns (es: seq<Event>, t: State)
    requires s.point == Running && s.cur in s.live && s.slot
    ensures Possible(s, es) && RunFrom(s, es) == t
    ensures t == Exited(s, true, Starting).(slot := false, live := s.live - {s.cur})
  {
    es := [ChildDies(s.cur), SeesExit(0, false), TakesRestart];
    var a := Step(s, es[0]);
    var b := Step(a, es[1]);
    t := Step(b, es[2]);
    TraceIsRun([s, a, b, t], es);
  }

  /** Any number of crashes in a row. */
  lemma {:induction false} Crashes(s: State, n: nat, env0: EnvMap, env1: EnvMap) returns (es: seq<Event>, t: State)
    requires s.point == Starting && !s.notifying && s.latest == Some(env0) && env0 != env1 && s.live == map[]
    ensures Possible(s, es) && RunFrom(s, es) == t
    ensures t.point == Starting && !t.notifying && t.live == map[] && t.latest in {Some(env0), Some(env1)}
    ensures t.breaker.rapidFails == s.breaker.rapidFails + n
    ensures t.breaker.halted == (s.breaker.halted || (n > 0 && s.breaker.rapidFails + n >= MAX_RAPID))
    decreases n
  {
    if n == 0 {
      es, t := [], s;
    } else {
      var es1, a := StartThenChange(s, env1);
      var es2, b := CrashThenRestart(a);
      RunConcat(s, es1, es2);
      assert b.live == map[];
      var es3;
      es3, t := Crashes(b, n - 1, env1, env0);
      RunConcat(s, es1 + es2, es3);
      es := es1 + es2 + es3;
    }
  }

  /** A restart whose stop is the third rapid exit: the change it was for is dropped. */
  lemma DroppedChangeIsReachable(env0: EnvMap, env1: EnvMap)
    requires env0 != env1
    ensures exists es :: Possible(Init(Some(env0)), es) && Stranded(RunFrom(Init(Some(env0)), es))
  {
    var s := Init(Some(env0));
    var es1, a := Crashes(s, 2, env0, env1);
    var es2, b := StartThenChange(a, if a.latest == Some(env0) then env1 else env0);
    RunConcat(s, es1, es2);
    var es3, t := StopOnRestart(b);
    RunConcat(s, es1 + es2, es3);
    assert Stranded(RunFrom(s, es1 + es2 + es3));
  }

  lemma StopOnRestart(s: State) returns (es: seq<Event>, t: State)
    requires s.point == Running && s.slot && s.cur in s.live && !s.breaker.halted && s.breaker.rapidFails == 2
    ensures Possible(s, es) && RunFrom(s, es) == t
    ensures t.point == Waiting && !t.slot && t.notifying == s.notifying && t.env == s.env && t.latest == s.latest
  {
    es := [TakesRestart, ChildDies(s.cur), Reaps(0)];
    var a := Step(s, es[0]);
    var b := Step(a, es[1]);
    t := Step(b, es[2]);
    TraceIsRun([s, a, b, t], es);
  }

  /** Two children at once. */
  lemma SecondChildStarts(s: State) returns (es: seq<Event>, t: State)
    requires s.point == Running && s.breaker.halted && s.cur in s.live && s.started == s.cur + 1 && s.slot
    ensures Possible(s, es) && RunFrom(s, es) == t && t.point == Running && t.cur == s.started
    ensures s.cur in t.live && t.cur in t.live
  {
    es := [TakesRestart, ReadEnv, StartOk];
    var a := Step(s, es[0]);
    var b := Step(a, es[1]);
    t := Step(b, es[2]);
    TraceIsRun([s, a, b, t], es);
  }

  /** A return that reaps the current child and leaves any other alive. */
  lemma ReturnOverChild(s: State, other: nat) returns (es: seq<Event>, t: State)
    requires s.point == Running && s.cur in s.live && other in s.live && other != s.cur
    ensures Possible(s, es) && RunFrom(s, es) == t && t.point == Returned && other in t.live
  {
    es := [Signalled, ChildDies(s.cur), Reaps(RAPID_THRESHOLD)];
    var a := Step(s, es[0]);
    var b := Step(a, es[1]);
    t := Step(b, es[2]);
    TraceIsRun([s, a, b, t], es);
  }

  /** So both limits of the breaker's promise are met in some run from the start. */
  lemma LeakIsReachable(env0: EnvMap, env1: EnvMap)
    requires env0 != env1
    ensures exists es :: Possible(Init(Some(env0)), es) && |RunFrom(Init(Some(env0)), es).live| >= 2
    ensures exists es :: Possible(Init(Some(env0)), es)
              && RunFrom(Init(Some(env0)), es).point == Returned && RunFrom(Init(Some(env0)), es).live != map[]
  {
    var s := Init(Some(env0));
    var es1, a := Crashes(s, 3, env0, env1);
    var es2, b := StartThenChange(a, if a.latest == Some(env0) then env1 else env0);
    RunConcat(s, es1, es2);
    var es3, t := SecondChildStarts(b);
    var es4, u := ReturnOverChild(t, b.cur);
    RunConcat(s, es1 + es2, es3);
    assert {b.cur, b.started} <= t.live.Keys && |t.live| == |t.live.Keys|;
    TwoMembers(t.live.Keys, b.cur, b.started);
    RunConcat(s, es1 + es2 + es3, es4);
    assert RunFrom(s, es1 + es2 + es3).live == t.live;
    assert RunFrom(s, es1 + es2 + es3 + es4).live == u.live;
  }

  lemma TwoMembers(xs: set<nat>, x: nat, y: nat)
    requires x in xs && y in xs && x != y
    ensures |xs| >= 2
  {
    assert xs == {x} + (xs - {x}) && y in xs - {x};
  }
}
