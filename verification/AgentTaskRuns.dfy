/** What every run of the AgentTask controller keeps, with users and the meter server acting in between. */
module AgentTaskRuns {
  import opened Common
  import opened Text
  import opened AgentTask
  import opened AgentTaskStep

  // ----- one step

  /** After an error-free reconcile a live token belongs to a task that may run. */
  lemma LiveTokenOnlyWhenRunnable(w: World, o: Oracle)
    requires Operates(w, o) && o.gateOn && w.task.status.phase != Pausing
    requires After(w, o).1 && After(w, o).0.token == Live
    ensures !After(w, o).0.task.spec.suspended
    ensures After(w, o).0.task.status.phase in {Pending, Provisioning, Active}
  {
  }

  ghost predicate PausedAndLive(w: World) { w.token == Live && w.task.status.phase == Paused }

  /** A pause that is written now: the patch takes, and nothing revokes the token after it. */
  predicate PauseKeepsToken(o: Oracle) { o.patch.Took() && (!o.patch.Done? || !o.revoke.Took()) }

  /** Resuming a paused task leaves it paused with a live token: an old one that a failure before minting or a lost
      patch leaves in place, or a new one minted before the failure. */
  predicate ResumeKeepsToken(w: World, o: Oracle) {
    if OverLimit(w.task) then w.token == Live && !o.revoke.Took()
    else if ResumeStops(w.task, o) then w.token == Live
    else if PodAfterPoll(w.task, o) == "" then w.token == Live && !o.patch.Took()
    else (w.token == Live || (o.hasMinter && o.mint.Took())) && (MintOrResumeFails(o) || !o.patch.Took())
  }

  /** Whether a reconcile leaves a paused task with a live token, read off the task and the calls' outcomes. */
  predicate LeavesPausedAndLive(w: World, o: Oracle) {
    var t, paused := w.task, w.task.status.phase == Paused;
    if !o.gateOn then w.token == Live && (paused || o.patch.Took())
    else if t.spec.suspended then
      if !ComputeStopped(t, o) || !o.hibernateOk then w.token == Live && paused
      else w.token == Live && if paused then !o.revoke.Took() else PauseKeepsToken(o)
    else if o.provider.Unresolved? then w.token == Live && paused && !o.patch.Took()
    else if t.status.phase == Active then
      && !TimedOut(t, o.now) && OverLimit(t) && ComputeStopped(t, o) && o.hibernateOk
      && w.token == Live && PauseKeepsToken(o)
    else paused && ResumeKeepsToken(w, o)
  }

  /** Exactly when a reconcile leaves a paused task with a live token. It is never so after an error-free reconcile
      with the gate on, and a token that was not live before can only come from a resume that fails after minting. */
  lemma LiveTokenWhilePaused(w: World, o: Oracle)
    requires Operates(w, o) && w.task.status.phase != Pausing
    ensures PausedAndLive(After(w, o).0) <==> LeavesPausedAndLive(w, o)
    ensures LeavesPausedAndLive(w, o) ==> !o.gateOn || !After(w, o).1
    ensures LeavesPausedAndLive(w, o) && !o.gateOn ==> w.token == Live
    ensures LeavesPausedAndLive(w, o) && o.gateOn && w.token != Live ==>
              && w.task.status.phase == Paused && !w.task.spec.suspended && o.hasMinter && o.mint.Took()
              && (!o.mint.Done? || (o.provider.Resolved? && o.provider.suspender && !o.resumeOk) || o.patch.Lost?)
  {
  }

  /** Exactly when a finished task leaves its phase. */
  lemma TerminalLeavesExactly(w: World, o: Oracle)
    requires Operates(w, o) && Terminal(w.task.status.phase)
    ensures After(w, o).0.task.status.phase != w.task.status.phase
       <==> o.patch.Took()
            && (|| !o.gateOn
                || (w.task.spec.suspended && ComputeStopped(w.task, o) && o.hibernateOk)
                || (!w.task.spec.suspended && o.provider.Unresolved? && w.task.status.phase == Completed))
  {
  }

  // ----- runs

  /** What others do between reconciles: users edit the spec or delete the task; the meter server
      counts usage, pauses a running task over its limits, and revokes its token. */
  datatype Action =
    | EditSpec(spec: Spec)
    | Meter(iteration: int, tokensConsumed: int, costUSD: Option<real>, pause: bool)
    | MeterRevoke
    | RequestDelete

  predicate Enabled(w: World, a: Action) {
    a.Meter? ==> !w.task.spec.suspended && w.task.status.phase !in {Paused, Completed, Failed}
  }

  function Act(w: World, a: Action): World {
    match a
    case EditSpec(spec) => w.(task := w.task.(spec := spec))
    case Meter(iteration, tokens, cost, pause) =>
      var st := w.task.status.(iteration := iteration, tokensConsumed := tokens, costUSD := cost);
      w.(task := w.task.(status := if pause then st.(phase := Paused) else st))
    case MeterRevoke => if w.token.Live? then w.(token := Revoked) else w
    case RequestDelete => w.(task := w.task.(meta := w.task.meta.(deleting := true)))
  }

  datatype Event = Reconciled(o: Oracle) | Acted(a: Action)

  predicate Allowed(w: World, e: Event) {
    match e
    case Reconciled(_) => true
    case Acted(a) => Enabled(w, a)
  }

  function Next(w: World, e: Event): World {
    match e
    case Reconciled(o) => After(w, o).0
    case Acted(a) => Act(w, a)
  }

  function RunFrom(w: World, es: seq<Event>): World
    decreases |es|
  {
    if es == [] then w else RunFrom(Next(w, es[0]), es[1..])
  }

  predicate RunAllowed(w: World, es: seq<Event>)
    decreases |es|
  {
    es == [] || (Allowed(w, es[0]) && RunAllowed(Next(w, es[0]), es[1..]))
  }

  /** A task as created: timestamps on the API server are whole seconds. */
  predicate Fresh(w: World) {
    && w.token == Absent && w.task.status.phase == Unset
    && !w.task.meta.finalizer && !w.task.meta.deleting
    && w.task.meta.activeSince == None && w.task.meta.creation % SECOND == 0
  }

  predicate Invariant(w: World) {
    && (w.token != Absent ==> w.task.meta.finalizer)
    && w.task.status.phase != Pausing
    && w.task.meta.creation % SECOND == 0
  }

  predicate MarkAfterCreation(w: World) {
    w.task.meta.activeSince.Some? ==> w.task.meta.activeSince.value >= w.task.meta.creation
  }

  /** Cutting an instant to whole seconds does not take it across a whole second. */
  lemma WholeSecondsKeepOrder(c: int, m: int)
    requires c % SECOND == 0
    ensures WholeSeconds(m) >= c <==> m >= c
  {
    assert (m - m % SECOND) % SECOND == 0;
  }

  lemma StepKeepsTokenHeld(w: World, e: Event)
    requires Invariant(w) && Allowed(w, e)
    ensures Next(w, e).token != Absent ==> Next(w, e).task.meta.finalizer
  {
    if e.Reconciled? && Operates(w, e.o) { ReconcileMarksExactly(w, e.o); }
  }

  lemma StepKeepsPhaseKnown(w: World, e: Event)
    requires w.task.status.phase != Pausing
    ensures Next(w, e).task.status.phase != Pausing
  {
  }

  /** The reconcile resumes a paused task and writes the mark. */
  predicate WritesMark(w: World, o: Oracle) {
    && Steady(w, o) && w.task.status.phase == Paused
    && !OverLimit(w.task) && NeedsMark(w.task, o) && o.metaPatch.Took()
  }

  function MetaAfter(w: World, o: Oracle): Meta {
    if WritesMark(w, o) then w.task.meta.(activeSince := Some(WholeSeconds(o.markNow))) else w.task.meta
  }

  lemma PausingKeepsMeta(w: World, o: Oracle)
    ensures GateOff(w, o).0.task.meta == w.task.meta && Suspended(w, o).0.task.meta == w.task.meta
  {
  }

  lemma StartingKeepsMeta(w: World, o: Oracle)
    ensures Provision(w, o).0.task.meta == w.task.meta && PollProvisioning(w, o).0.task.meta == w.task.meta
  {
  }

  lemma RunningKeepsMeta(w: World, o: Oracle)
    ensures RunActive(w, o).0.task.meta == w.task.meta
  {
  }

  lemma ResumingMarks(w: World, o: Oracle)
    ensures ResumePaused(w, o).0.task.meta == if OverLimit(w.task) then w.task.meta else Marked(w, o).task.meta
  {
  }

  lemma ReconcileMarksExactly(w: World, o: Oracle)
    requires Operates(w, o)
    ensures After(w, o).0.task.meta == MetaAfter(w, o)
  {
    if !o.gateOn || w.task.spec.suspended {
      PausingKeepsMeta(w, o);
    } else if o.provider.Resolved? {
      match w.task.status.phase {
        case Active => RunningKeepsMeta(w, o);
        case Paused => ResumingMarks(w, o);
        case _ => StartingKeepsMeta(w, o);
      }
    }
  }

  /** The mark is written by a resume that needs it and by nothing else, and creation never changes. */
  lemma StepMarksExactly(w: World, e: Event)
    ensures Next(w, e).task.meta.creation == w.task.meta.creation
    ensures Next(w, e).task.meta.activeSince
         == if e.Reconciled? && WritesMark(w, e.o) then Some(WholeSeconds(e.o.markNow)) else w.task.meta.activeSince
  {
    if e.Reconciled? && Operates(w, e.o) { ReconcileMarksExactly(w, e.o); }
  }

  /** A mark falls behind creation exactly when it is written by a clock set back to before the creation. */
  lemma StepKeepsMarkExactly(w: World, e: Event)
    requires Invariant(w) && MarkAfterCreation(w)
    ensures MarkAfterCreation(Next(w, e))
       <==> !(e.Reconciled? && WritesMark(w, e.o) && e.o.markNow < w.task.meta.creation)
  {
    StepMarksExactly(w, e);
    if e.Reconciled? { WholeSecondsKeepOrder(w.task.meta.creation, e.o.markNow); }
  }

  lemma StepKeepsInvariant(w: World, e: Event)
    requires Invariant(w) && Allowed(w, e)
    ensures Invariant(Next(w, e))
  {
    StepKeepsTokenHeld(w, e);
    StepKeepsPhaseKnown(w, e);
    StepMarksExactly(w, e);
  }

  /** In every run whose clock is never set back to before the creation, the mark is at or after the creation. */
  lemma {:induction false} RunKeepsMark(w: World, es: seq<Event>)
    requires Invariant(w) && MarkAfterCreation(w) && RunAllowed(w, es)
    requires forall i :: 0 <= i < |es| && es[i].Reconciled? ==> es[i].o.markNow >= w.task.meta.creation
    ensures MarkAfterCreation(RunFrom(w, es))
    decreases |es|
  {
    if es != [] {
      StepKeepsInvariant(w, es[0]);
      StepKeepsMarkExactly(w, es[0]);
      StepMarksExactly(w, es[0]);
      RunKeepsMark(Next(w, es[0]), es[1..]);
    }
  }

  /** In every run a token exists only while the finalizer is held. */
  lemma {:induction false} RunKeepsInvariant(w: World, es: seq<Event>)
    requires Invariant(w) && RunAllowed(w, es)
    ensures Invariant(RunFrom(w, es))
    decreases |es|
  {
    if es != [] {
      StepKeepsInvariant(w, es[0]);
      RunKeepsInvariant(Next(w, es[0]), es[1..]);
    }
  }

  /** In every run from creation, whatever failed before, an error-free reconcile with the gate on
      leaves no live token on a task that is suspended, paused or finished. */
  lemma ErrorFreeReconcileInAnyRun(w: World, es: seq<Event>, o: Oracle)
    requires Fresh(w) && RunAllowed(w, es)
    requires Operates(RunFrom(w, es), o) && o.gateOn && After(RunFrom(w, es), o).1
    ensures var v := After(RunFrom(w, es), o).0;
            v.token == Live ==> !v.task.spec.suspended && v.task.status.phase in {Pending, Provisioning, Active}
  {
    RunKeepsInvariant(w, es);
    var v := After(RunFrom(w, es), o).0;
    if v.token == Live { LiveTokenOnlyWhenRunnable(RunFrom(w, es), o); }
  }

  /** Every call succeeds and the sandbox is ready at once. */
  const SMOOTH := Oracle(0, 0, Fetched, true, Resolved(true), true, true, true, true, Done, Done, Done,
                         true, Done, false, Done, Done, true, Some(Poll(Other, true, "pod", false)), None)

  /** From creation to a running task with a live token. */
  lemma SmoothStart(w: World)
    requires Fresh(w) && !w.task.spec.suspended
    ensures var b := RunFrom(w, [Reconciled(SMOOTH), Reconciled(SMOOTH)]);
            && RunAllowed(w, [Reconciled(SMOOTH), Reconciled(SMOOTH)])
            && b.task == w.task.(meta := b.task.meta, status := w.task.status.(phase := Active, podName := "pod"))
            && b.task.meta == w.task.meta.(finalizer := true) && b.token == Live
  {
    var a := Next(w, Reconciled(SMOOTH));
    OneStep(a, Reconciled(SMOOTH), []);
    OneStep(w, Reconciled(SMOOTH), [Reconciled(SMOOTH)]);
  }

  ghost predicate ReachesPausedAndLive(w: World, es: seq<Event>) {
    RunAllowed(w, es) && PausedAndLive(RunFrom(w, es))
  }

  /** Reached from creation: paused with a live token, by an error-free reconcile with the gate closed. */
  lemma ClosedGateReachesIt(w: World)
    requires Fresh(w) && !w.task.spec.suspended
    ensures ReachesPausedAndLive(w, [Reconciled(SMOOTH), Reconciled(SMOOTH), Reconciled(SMOOTH.(gateOn := false))])
  {
    SmoothStart(w);
    var e := Reconciled(SMOOTH.(gateOn := false));
    ThenOne(w, [Reconciled(SMOOTH), Reconciled(SMOOTH)], e);
  }

  /** By a resume that fails after minting, though the meter server had revoked the token. */
  lemma FailedResumeReachesIt(w: World)
    requires Fresh(w) && !w.task.spec.suspended
    ensures ReachesPausedAndLive(w, [Reconciled(SMOOTH), Reconciled(SMOOTH), Acted(Meter(0, 0, None, true)),
                                     Acted(MeterRevoke), Reconciled(SMOOTH.(resumeOk := false))])
  {
    SmoothStart(w);
    var start := [Reconciled(SMOOTH), Reconciled(SMOOTH)];
    var m, r, e := Acted(Meter(0, 0, None, true)), Acted(MeterRevoke), Reconciled(SMOOTH.(resumeOk := false));
    ThenOne(w, start, m);
    ThenOne(w, start + [m], r);
    ThenOne(w, start + [m] + [r], e);
    assert start + [m] + [r] + [e] == [Reconciled(SMOOTH), Reconciled(SMOOTH), m, r, e];
  }

  /** By a task over its limit whose token could not be revoked, with the gate on and nothing being resumed. */
  lemma LostRevokeReachesIt(w: World)
    requires Fresh(w) && !w.task.spec.suspended && w.task.spec.maxIterations == 1 && w.task.spec.timeoutSeconds == 0
    ensures ReachesPausedAndLive(w, [Reconciled(SMOOTH), Reconciled(SMOOTH), Acted(Meter(2, 0, None, false)),
                                     Reconciled(SMOOTH.(revoke := Lost))])
  {
    SmoothStart(w);
    var start := [Reconciled(SMOOTH), Reconciled(SMOOTH)];
    var m, e := Acted(Meter(2, 0, None, false)), Reconciled(SMOOTH.(revoke := Lost));
    ThenOne(w, start, m);
    ThenOne(w, start + [m], e);
    assert start + [m] + [e] == [Reconciled(SMOOTH), Reconciled(SMOOTH), m, e];
  }

  /** By a suspension whose status patch takes although an error comes back. */
  lemma UnseenPauseReachesIt(w: World, spec: Spec)
    requires Fresh(w) && !w.task.spec.suspended && spec.suspended
    ensures ReachesPausedAndLive(w, [Reconciled(SMOOTH), Reconciled(SMOOTH), Acted(EditSpec(spec)),
                                     Reconciled(SMOOTH.(patch := DoneUnseen))])
  {
    SmoothStart(w);
    var start := [Reconciled(SMOOTH), Reconciled(SMOOTH)];
    var m, e := Acted(EditSpec(spec)), Reconciled(SMOOTH.(patch := DoneUnseen));
    ThenOne(w, start, m);
    ThenOne(w, start + [m], e);
    assert start + [m] + [e] == [Reconciled(SMOOTH), Reconciled(SMOOTH), m, e];
  }

  lemma {:induction false} ThenOne(w: World, es: seq<Event>, e: Event)
    ensures RunFrom(w, es + [e]) == Next(RunFrom(w, es), e)
    ensures RunAllowed(w, es + [e]) == (RunAllowed(w, es) && Allowed(RunFrom(w, es), e))
    decreases |es|
  {
    if es == [] {
      OneStep(w, e, []);
      assert es + [e] == [e] + [];
    } else {
      assert (es + [e])[1..] == es[1..] + [e];
      ThenOne(Next(w, es[0]), es[1..], e);
    }
  }

  lemma OneStep(w: World, e: Event, es: seq<Event>)
    ensures RunFrom(w, [e] + es) == RunFrom(Next(w, e), es)
    ensures RunAllowed(w, [e] + es) == (Allowed(w, e) && RunAllowed(Next(w, e), es))
  {
    assert ([e] + es)[1..] == es;
  }

  /** A run from creation in which a completed task is paused by a closed gate. */
  lemma CompletedIsLeft(w: World)
    requires Fresh(w) && !w.task.spec.suspended && w.task.spec.timeoutSeconds == 0 && !OverLimit(w.task)
    ensures var done := SMOOTH.(poll := Some(Poll(Succeeded, false, "", false)));
            var es := [Reconciled(SMOOTH), Reconciled(SMOOTH), Reconciled(done)];
            var e := Reconciled(SMOOTH.(gateOn := false));
            && RunAllowed(w, es + [e])
            && RunFrom(w, es).task.status.phase == Completed && RunFrom(w, es + [e]).task.status.phase == Paused
  {
    SmoothStart(w);
    var start := [Reconciled(SMOOTH), Reconciled(SMOOTH)];
    var done := SMOOTH.(poll := Some(Poll(Succeeded, false, "", false)));
    ThenOne(w, start, Reconciled(done));
    ThenOne(w, start + [Reconciled(done)], Reconciled(SMOOTH.(gateOn := false)));
    assert start + [Reconciled(done)] == [Reconciled(SMOOTH), Reconciled(SMOOTH), Reconciled(done)];
  }

  /** Nobody suspends, closes the gate or unregisters the provider. */
  predicate Undisturbed(e: Event) {
    match e
    case Reconciled(o) => o.gateOn && o.provider.Resolved?
    case Acted(a) => a.EditSpec? ==> !a.spec.suspended
  }

  /** Completed and Failed are absorbing in undisturbed runs. */
  lemma {:induction false} TerminalIsAbsorbing(w: World, es: seq<Event>)
    requires Terminal(w.task.status.phase) && !w.task.spec.suspended
    requires RunAllowed(w, es) && forall i :: 0 <= i < |es| ==> Undisturbed(es[i])
    ensures RunFrom(w, es).task.status.phase == w.task.status.phase
    decreases |es|
  {
    if es != [] {
      assert Undisturbed(es[0]);
      var v := Next(w, es[0]);
      if es[0].Reconciled? && Operates(w, es[0].o) { TerminalLeavesExactly(w, es[0].o); }
      assert v.task.status.phase == w.task.status.phase && !v.task.spec.suspended;
      TerminalIsAbsorbing(v, es[1..]);
    }
  }

  // ----- resuming

  /** Between the two readings of the clock it was set back by more than the timeout. */
  predicate SetBack(t: Task, o: Oracle) { o.now - WholeSeconds(o.markNow) > t.spec.timeoutSeconds * SECOND }

  /** A reconcile that leaves Paused finds the task timed out at that instant only if its clock was set back by more
      than the timeout while it ran; at the instant of the mark it is never timed out. */
  lemma ResumeDoesNotTimeOut(w: World, o: Oracle)
    requires MarkAfterCreation(w)
    requires w.task.status.phase == Paused && After(w, o).0.task.status.phase in {Active, Pending}
    ensures TimedOut(After(w, o).0.task, o.now) <==> NeedsMark(w.task, o) && SetBack(w.task, o)
    ensures o.now <= o.markNow ==> !TimedOut(After(w, o).0.task, o.now)
    ensures NeedsMark(w.task, o) ==> !TimedOut(After(w, o).0.task, o.markNow)
  {
    PhaseChangeHasReason(w, o);
    ReconcileMarksExactly(w, o);
    ResumeKeepsSpec(w, o);
    if NeedsMark(w.task, o) {
      assert w.task.spec.timeoutSeconds * SECOND >= SECOND;
      assert o.markNow - WholeSeconds(o.markNow) < SECOND;
    }
  }

  /** Leaving Paused for a running phase takes a written mark if one is needed, and edits no spec. */
  lemma ResumeKeepsSpec(w: World, o: Oracle)
    requires w.task.status.phase == Paused && After(w, o).0.task.status.phase in {Active, Pending}
    ensures After(w, o).0.task.spec == w.task.spec && (NeedsMark(w.task, o) ==> WritesMark(w, o))
  {
  }

  // ----- the resume command

  function Wrap(x: int, min: int, max: int): (r: int)
    requires min <= 0 < max
    ensures min <= r <= max
    ensures min <= x <= max ==> r == x
  {
    (x - min) % (max - min + 1) + min
  }

  predicate InRange(t: Task) {
    && MIN_INT32 <= t.spec.maxIterations <= MAX_INT32 && MIN_INT32 <= t.status.iteration <= MAX_INT32
    && MIN_INT64 <= t.spec.budgetTokens <= MAX_INT64 && MIN_INT64 <= t.status.tokensConsumed <= MAX_INT64
  }

  /** The --budget argument once parsed. */
  datatype BudgetArg = NotGiven | Invalid | Bump(usd: real)

  function AmountOf(usd: Option<real>): real { if usd.Some? then usd.value else 0.0 }

  class TaskEditor {
    var task: Task

    constructor (t: Task)
      ensures task == t
    {
      task := t;
    }

    /** Bumps the budgets, lifts a reached iteration limit by five and clears suspension; a refused
        argument changes nothing. Integers wrap as int32 and int64 do. */
    method ApplyResume(budget: BudgetArg, tokens: int) returns (ok: bool)
      requires InRange(task) && MIN_INT64 <= tokens <= MAX_INT64
      modifies this
      ensures ok == (tokens >= 0 && !budget.Invalid? && (budget.Bump? ==> budget.usd > 0.0))
      ensures !ok ==> task == old(task)
      ensures ok ==> task.meta == old(task.meta) && task.status == old(task.status) && InRange(task)
      ensures ok ==> !task.spec.suspended && !OverIterations(task)
      ensures ok ==> task.spec.maxIterations
                     == if 0 < old(task.spec.maxIterations) <= task.status.iteration
                        then Wrap(task.status.iteration + 5, MIN_INT32, MAX_INT32) else old(task.spec.maxIterations)
      ensures ok ==> task.spec.budgetTokens == Wrap(old(task.spec.budgetTokens) + tokens, MIN_INT64, MAX_INT64)
      ensures ok ==> task.spec.budgetUSD
                     == if budget.Bump? then Some(AmountOf(old(task.spec.budgetUSD)) + budget.usd)
                        else old(task.spec.budgetUSD)
      ensures ok ==> task.spec.timeoutSeconds == old(task.spec.timeoutSeconds)
      ensures ok ==> task.spec.podProvider == old(task.spec.podProvider)
    {
      if tokens < 0 || budget.Invalid? || (budget.Bump? && budget.usd <= 0.0) { return false; }
      if budget.Bump? {
        var existing := if task.spec.budgetUSD.Some? then task.spec.budgetUSD.value else 0.0;
        task := task.(spec := task.spec.(budgetUSD := Some(existing + budget.usd)));
      }
      if tokens > 0 {
        task := task.(spec := task.spec.(budgetTokens := Wrap(task.spec.budgetTokens + tokens, MIN_INT64, MAX_INT64)));
      }
      if task.spec.maxIterations > 0 && task.status.iteration >= task.spec.maxIterations {
        WrappedBumpLifts(task.status.iteration);
        task := task.(spec := task.spec.(maxIterations := Wrap(task.status.iteration + 5, MIN_INT32, MAX_INT32)));
      }
      task := task.(spec := task.spec.(suspended := false));
      return true;
    }
  }

  /** Five more iterations are above the count, or wrap to a negative limit, which means no limit. */
  lemma WrappedBumpLifts(iteration: int)
    requires 0 < iteration <= MAX_INT32
    ensures var m := Wrap(iteration + 5, MIN_INT32, MAX_INT32); m > iteration || m <= 0
  {
  }

  /** Once resumed within its money and token budgets, a paused task's next error-free reconcile runs it
      again, and a reconcile at the same instant neither times it out nor pauses it. */
  lemma ResumeIsNotSelfDefeating(w: World, o: Oracle, p: Oracle)
    requires MarkAfterCreation(w) && w.task.status.phase == Paused && !(NeedsMark(w.task, o) && SetBack(w.task, o))
    requires !w.task.spec.suspended && !OverIterations(w.task) && !OverUSD(w.task) && !OverTokens(w.task)
    requires Operates(w, o) && o.gateOn && o.provider.Resolved? && After(w, o).1
    requires Operates(After(w, o).0, p) && p.gateOn && p.provider.Resolved? && p.now == o.now
    ensures After(w, o).0.task.status.phase in {Active, Pending}
    ensures After(After(w, o).0, p).0.task.status.phase != Paused
    ensures After(After(w, o).0, p).0.task.status.phase == Failed ==>
              After(w, o).0.task.status.phase == Active && p.poll.Some? && p.poll.value.phase == Broken
  {
    ResumeDoesNotTimeOut(w, o);
  }
}
