/** What one reconcile of an AgentTask changes, told by what it arrives at: phase, token, finalizer, pod name. */
module AgentTaskStep {
  import opened Common
  import opened Text
  import opened AgentTask

  predicate Terminal(p: Phase) { p == Completed || p == Failed }

  /** The reconcile gets as far as the feature gate. */
  predicate Operates(w: World, o: Oracle) { o.fetch.Fetched? && !w.task.meta.deleting && w.task.meta.finalizer }

  /** The task is operated and its phase decides what happens. */
  predicate Steady(w: World, o: Oracle) {
    Operates(w, o) && o.gateOn && !w.task.spec.suspended && o.provider.Resolved?
  }

  /** Suspends, as far as the gate lets it. */
  predicate Suspending(w: World, o: Oracle) { Operates(w, o) && o.gateOn && w.task.spec.suspended }

  // ----- what the calls of a reconcile came to

  /** Everything that had to stop did: the preview, a sandbox that can be suspended, the pod of a plain provider. */
  predicate Stops(t: Task, o: Oracle) {
    && o.hibernateOk && (o.provider == Resolved(true) ==> o.suspendOk)
    && (o.provider == Resolved(false) && t.spec.podProvider ==> o.teardownOk)
  }

  predicate MintFails(o: Oracle) { o.hasMinter && !o.mint.Done? }

  /** The timeout, if there is one, has passed since an instant. */
  predicate Expired(t: Task, since: int, now: int) {
    t.spec.timeoutSeconds > 0 && since + t.spec.timeoutSeconds * SECOND < now
  }

  predicate ResumeStops(t: Task, o: Oracle) {
    (Expired(t, t.meta.creation, o.now) && !o.metaPatch.Done?) || !o.hibernateOk
  }

  predicate MintOrResumeFails(o: Oracle) { MintFails(o) || (o.provider == Resolved(true) && !o.resumeOk) }

  predicate Starts(t: Task) { t.status.phase == Unset || t.status.phase == Pending }

  /** Past the iteration limit, or at the token or money budget, as far as one is set. */
  predicate Spent(t: Task) {
    || 0 < t.spec.maxIterations < t.status.iteration
    || 0 < t.spec.budgetTokens <= t.status.tokensConsumed
    || (t.spec.budgetUSD.Some? && t.status.costUSD.Some? && 0.0 < t.spec.budgetUSD.value <= t.status.costUSD.value)
  }

  /** Running for longer than the timeout since the mark, or without one since the creation. */
  predicate TimesOut(t: Task, o: Oracle) {
    && t.status.phase == Active
    && match t.meta.activeSince
       case Some(mark) => Expired(t, mark, o.now)
       case None => Expired(t, t.meta.creation, o.now)
  }

  predicate Exceeds(t: Task, o: Oracle) { t.status.phase == Active && !TimesOut(t, o) && Spent(t) }

  /** Running on, so that the sandbox is polled. */
  predicate RunsOn(t: Task, o: Oracle) { t.status.phase == Active && !TimesOut(t, o) && !Spent(t) }

  /** The sandbox ended in the given way. */
  predicate Ends(t: Task, o: Oracle, how: SandboxPhase) {
    (t.status.phase == Provisioning || RunsOn(t, o)) && o.poll.Some? && o.poll.value.phase == how
  }

  predicate Resumes(t: Task, o: Oracle) { t.status.phase == Paused && !Spent(t) && !ResumeStops(t, o) }

  /** A pod is known, and no poll says that it has ended or is gone. */
  predicate HasPod(t: Task, o: Oracle) {
    t.status.podName != "" && (o.poll.Some? ==> o.poll.value.phase == Other && !o.poll.value.podGone)
  }

  // ----- the phase

  /** The reason to be in a phase, from whichever phase: all of them lie in the task and the outcomes of the calls. */
  predicate Reason(w: World, o: Oracle, p: Phase) {
    var t := w.task;
    match p
    case Paused => !o.gateOn || (t.spec.suspended && Stops(t, o)) || (Steady(w, o) && Exceeds(t, o) && Stops(t, o))
    case Failed =>
      && o.gateOn && !t.spec.suspended
      && (o.provider.Unresolved? || (TimesOut(t, o) && o.teardownOk) || Ends(t, o, Broken))
    case Completed => Steady(w, o) && Ends(t, o, Succeeded)
    case Active =>
      && Steady(w, o)
      && (|| (Starts(t) && !MintFails(o) && o.provisioned.Some? && o.provisioned.value.ready)
          || (t.status.phase == Provisioning && Ends(t, o, Other) && o.poll.value.ready)
          || (Resumes(t, o) && HasPod(t, o) && !MintOrResumeFails(o)))
    case Provisioning =>
      Steady(w, o) && Starts(t) && !MintFails(o) && o.provisioned.Some? && !o.provisioned.value.ready
    case Pending =>
      && Steady(w, o)
      && (|| (Starts(t) && (MintFails(o) || o.provisioned.None?))
          || (Resumes(t, o) && !HasPod(t, o)))
    case Unset => false
    case Pausing => false
  }

  lemma NotOperated(w: World, o: Oracle)
    requires !Operates(w, o)
    ensures After(w, o).0.task.status == w.task.status
  {
  }

  lemma BeforePhases(w: World, o: Oracle, p: Phase)
    requires Operates(w, o) && !Steady(w, o) && p != w.task.status.phase
    ensures After(w, o).0.task.status.phase == p <==> o.patch.Took() && Reason(w, o, p)
  {
  }

  lemma FromStart(w: World, o: Oracle, p: Phase)
    requires Steady(w, o) && Starts(w.task) && p != w.task.status.phase
    ensures After(w, o).0.task.status.phase == p <==> o.patch.Took() && Reason(w, o, p)
  {
  }

  lemma FromProvisioning(w: World, o: Oracle, p: Phase)
    requires Steady(w, o) && w.task.status.phase == Provisioning && p != Provisioning
    ensures After(w, o).0.task.status.phase == p <==> o.patch.Took() && Reason(w, o, p)
  {
  }

  lemma FromActive(w: World, o: Oracle, p: Phase)
    requires Steady(w, o) && w.task.status.phase == Active && p != Active
    ensures After(w, o).0.task.status.phase == p <==> o.patch.Took() && Reason(w, o, p)
  {
  }

  lemma FromPaused(w: World, o: Oracle, p: Phase)
    requires Steady(w, o) && w.task.status.phase == Paused && p != Paused
    ensures After(w, o).0.task.status.phase == p <==> o.patch.Took() && Reason(w, o, p)
  {
  }

  lemma FromEnd(w: World, o: Oracle, p: Phase)
    requires Steady(w, o) && w.task.status.phase in {Completed, Failed, Pausing} && p != w.task.status.phase
    ensures After(w, o).0.task.status.phase != p && !Reason(w, o, p)
  {
  }

  /** Exactly when a task goes from its phase to another one, edge by edge. */
  lemma PhaseExactly(w: World, o: Oracle, p: Phase)
    requires p != w.task.status.phase
    ensures After(w, o).0.task.status.phase == p <==> Operates(w, o) && o.patch.Took() && Reason(w, o, p)
  {
    if !Operates(w, o) {
      NotOperated(w, o);
    } else if !Steady(w, o) {
      BeforePhases(w, o, p);
    } else {
      match w.task.status.phase {
        case Unset => FromStart(w, o, p);
        case Pending => FromStart(w, o, p);
        case Provisioning => FromProvisioning(w, o, p);
        case Active => FromActive(w, o, p);
        case Paused => FromPaused(w, o, p);
        case _ => FromEnd(w, o, p);
      }
    }
  }

  /** A phase that changed had its reason. */
  lemma PhaseChangeHasReason(w: World, o: Oracle)
    requires After(w, o).0.task.status.phase != w.task.status.phase
    ensures Operates(w, o) && o.patch.Took() && Reason(w, o, After(w, o).0.task.status.phase)
  {
    PhaseExactly(w, o, After(w, o).0.task.status.phase);
  }

  // ----- the token

  /** A new token is stored. */
  predicate Mints(w: World, o: Oracle) {
    && Steady(w, o) && o.hasMinter && o.mint.Took()
    && (|| Starts(w.task) || (RunsOn(w.task, o) && o.refreshes)
        || (Resumes(w.task, o) && HasPod(w.task, o)))
  }

  /** The reconcile gets as far as revoking, and the revocation takes. */
  predicate Revokes(w: World, o: Oracle) {
    var t := w.task;
    && o.revoke.Took()
    && (|| (Suspending(w, o) && Stops(t, o) && (t.status.phase == Paused || o.patch.Done?))
        || (Steady(w, o)
            && (|| Terminal(t.status.phase) || (t.status.phase == Paused && Spent(t))
                || (TimesOut(t, o) && (!o.teardownOk || o.patch.Done?))
                || (Exceeds(t, o) && Stops(t, o) && o.patch.Done?)
                || ((Ends(t, o, Broken) || Ends(t, o, Succeeded)) && o.patch.Done?))))
  }

  /** Deletion gets as far as the token, and the deletion takes. */
  predicate Removes(w: World, o: Oracle) {
    && o.fetch.Fetched? && w.task.meta.deleting && w.task.meta.finalizer
    && (o.provider.Resolved? ==> o.teardownOk) && o.delete.Took()
  }

  predicate TokenTold(w: World, o: Oracle, v: World) {
    && (v.token == Live <==> (w.token == Live || Mints(w, o)) && !Revokes(w, o) && !Removes(w, o))
    && (v.token == Absent <==> (w.token == Absent && !Mints(w, o)) || Removes(w, o))
  }

  lemma TokenBeforePhases(w: World, o: Oracle)
    requires !Steady(w, o)
    ensures TokenTold(w, o, After(w, o).0)
  {
  }

  lemma TokenRunning(w: World, o: Oracle)
    requires Steady(w, o) && w.task.status.phase == Active
    ensures TokenTold(w, o, After(w, o).0)
  {
  }

  lemma TokenOtherwise(w: World, o: Oracle)
    requires Steady(w, o) && w.task.status.phase != Active
    ensures TokenTold(w, o, After(w, o).0)
  {
  }

  /** Exactly when a token is live, and when there is none, after a reconcile. */
  lemma TokenExactly(w: World, o: Oracle)
    ensures TokenTold(w, o, After(w, o).0)
  {
    if !Steady(w, o) { TokenBeforePhases(w, o); }
    else if w.task.status.phase == Active { TokenRunning(w, o); }
    else { TokenOtherwise(w, o); }
  }

  // ----- the finalizer

  /** A held finalizer falls exactly when the task is being deleted, its provider, if there is one, tore the sandbox
      down, the token is known to be deleted and the update takes; a missing one is taken exactly by an update on a
      task that is not being deleted. */
  lemma FinalizerExactly(w: World, o: Oracle)
    ensures After(w, o).0.task.meta.finalizer
       <==> if w.task.meta.finalizer
            then !(&& o.fetch.Fetched? && w.task.meta.deleting && (o.provider.Resolved? ==> o.teardownOk)
                   && o.delete.Done? && o.update.Took())
            else o.fetch.Fetched? && !w.task.meta.deleting && o.update.Took()
  {
  }

  // ----- the pod name, and what no reconcile touches

  /** The name is given up: by the pause of a pod provider, or by a resume that finds no pod. */
  predicate Drops(w: World, o: Oracle) {
    || (w.task.spec.podProvider && Stops(w.task, o)
        && ((Suspending(w, o) && w.task.status.phase != Paused) || (Steady(w, o) && Exceeds(w.task, o))))
    || (Steady(w, o) && Resumes(w.task, o) && !HasPod(w.task, o))
  }

  /** The name the provider told, where it counts: an empty one only while the sandbox is being set up. */
  function Told(w: World, o: Oracle): Option<string> {
    if !Steady(w, o) then None
    else if Starts(w.task) && !MintFails(o) && o.provisioned.Some? then Some(o.provisioned.value.podName)
    else if w.task.status.phase == Provisioning && Ends(w.task, o, Other) then Some(o.poll.value.podName)
    else if (w.task.status.phase == Provisioning || RunsOn(w.task, o)) && o.poll.Some? && o.poll.value.podName != ""
    then Some(o.poll.value.podName)
    else None
  }

  predicate PodTold(w: World, o: Oracle, v: World) {
    v.task.status.podName == if !o.patch.Took() then w.task.status.podName
                             else if Drops(w, o) then ""
                             else if Told(w, o).Some? then Told(w, o).value
                             else w.task.status.podName
  }

  lemma PodBeforePhases(w: World, o: Oracle)
    requires !Steady(w, o)
    ensures PodTold(w, o, After(w, o).0)
  {
  }

  lemma PodRunning(w: World, o: Oracle)
    requires Steady(w, o) && w.task.status.phase == Active
    ensures PodTold(w, o, After(w, o).0)
  {
  }

  lemma PodOtherwise(w: World, o: Oracle)
    requires Steady(w, o) && w.task.status.phase != Active
    ensures PodTold(w, o, After(w, o).0)
  {
  }

  /** The pod name after a reconcile. */
  lemma PodNameExactly(w: World, o: Oracle)
    ensures PodTold(w, o, After(w, o).0)
  {
    if !Steady(w, o) { PodBeforePhases(w, o); }
    else if w.task.status.phase == Active { PodRunning(w, o); }
    else { PodOtherwise(w, o); }
  }

  predicate OthersKept(t: Task, u: Task) {
    && u.spec == t.spec && u.meta.deleting == t.meta.deleting && u.status.iteration == t.status.iteration
    && u.status.tokensConsumed == t.status.tokensConsumed && u.status.costUSD == t.status.costUSD
  }

  lemma KeptBeforePhases(w: World, o: Oracle)
    requires !Steady(w, o)
    ensures OthersKept(w.task, After(w, o).0.task)
  {
  }

  lemma KeptRunning(w: World, o: Oracle)
    requires Steady(w, o) && w.task.status.phase == Active
    ensures OthersKept(w.task, After(w, o).0.task)
  {
  }

  lemma KeptOtherwise(w: World, o: Oracle)
    requires Steady(w, o) && w.task.status.phase != Active
    ensures OthersKept(w.task, After(w, o).0.task)
  {
  }

  /** Specification, usage counts and deletion mark are the users' and the meter server's alone. */
  lemma LeavesOthersAlone(w: World, o: Oracle)
    ensures OthersKept(w.task, After(w, o).0.task)
  {
    if !Steady(w, o) { KeptBeforePhases(w, o); }
    else if w.task.status.phase == Active { KeptRunning(w, o); }
    else { KeptOtherwise(w, o); }
  }

  // ----- what it means that no error came back

  /** What an operated task is to be after a reconcile. */
  predicate Achieved(w: World, o: Oracle, v: World) {
    var t, p := w.task, v.task.status.phase;
    if !o.gateOn then p == Paused
    else if t.spec.suspended then p == Paused && v.token != Live && Stops(t, o)
    else
      && o.provider.Resolved?
      && (Starts(t) ==> p in {Active, Provisioning} && (o.hasMinter ==> v.token == Live))
      && (TimesOut(t, o) ==> p == Failed && v.token != Live && o.teardownOk)
      && (Exceeds(t, o) ==> p == Paused && v.token != Live && Stops(t, o))
      && (Ends(t, o, Succeeded) ==> p == Completed && v.token != Live)
      && (Ends(t, o, Broken) ==> p == Failed && v.token != Live)
      && (t.status.phase == Paused ==> if Spent(t) then p == Paused && v.token != Live else p in {Active, Pending})
      && (t.status.phase == Paused && p == Active && o.hasMinter ==> v.token == Live)
      && (Terminal(t.status.phase) ==> p == t.status.phase && v.token != Live)
  }

  lemma AchievedBeforePhases(w: World, o: Oracle)
    requires Operates(w, o) && !Steady(w, o) && After(w, o).1
    ensures Achieved(w, o, After(w, o).0)
  {
  }

  lemma AchievedRunning(w: World, o: Oracle)
    requires Steady(w, o) && w.task.status.phase == Active && After(w, o).1
    ensures Achieved(w, o, After(w, o).0)
  {
  }

  lemma AchievedOtherwise(w: World, o: Oracle)
    requires Steady(w, o) && w.task.status.phase != Active && After(w, o).1
    ensures Achieved(w, o, After(w, o).0)
  {
  }

  /** An error-free reconcile has done all there was to do: a timed-out task has failed without a live token, one over
      its limits or suspended is paused without one, a new one is provisioned with one, a deleted one let go. */
  lemma ErrorFreeAchieves(w: World, o: Oracle)
    requires After(w, o).1 && o.fetch.Fetched?
    ensures Operates(w, o) ==> Achieved(w, o, After(w, o).0)
    ensures w.task.meta.deleting && w.task.meta.finalizer ==>
              !After(w, o).0.task.meta.finalizer && After(w, o).0.token == Absent
    ensures !w.task.meta.deleting ==> After(w, o).0.task.meta.finalizer
  {
    FinalizerExactly(w, o);
    if Operates(w, o) {
      if !Steady(w, o) { AchievedBeforePhases(w, o); }
      else if w.task.status.phase == Active { AchievedRunning(w, o); }
      else { AchievedOtherwise(w, o); }
    }
  }

  /** Every call succeeds; a poll may fail. */
  predicate AllWell(o: Oracle) {
    && !o.fetch.FetchFails? && o.provider.Resolved? && o.teardownOk && o.suspendOk && o.resumeOk && o.hibernateOk
    && o.update.Done? && o.patch.Done? && o.metaPatch.Done? && (o.hasMinter ==> o.mint.Done?)
    && o.delete.Done? && o.revoke.Done? && o.provisioned.Some?
  }

  /** An error needs a call that failed. */
  lemma AllWellIsErrorFree(w: World, o: Oracle)
    requires AllWell(o)
    ensures After(w, o).1
  {
  }

  /** A task past its timeout, exactly: failed if the teardown succeeds and the patch takes, and without a live token
      when no error comes back. */
  lemma TimeoutIsEnforced(w: World, o: Oracle)
    requires Steady(w, o) && TimesOut(w.task, o)
    ensures After(w, o).0.task.status.phase == Failed <==> o.teardownOk && o.patch.Took()
    ensures After(w, o).1 ==> After(w, o).0.token != Live
  {
    PhaseExactly(w, o, Failed);
    if After(w, o).1 { ErrorFreeAchieves(w, o); }
  }
}
