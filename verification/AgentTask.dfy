/** The AgentTask lifecycle controller: one reconcile as a step that may fail at every external call. */
module AgentTask {
  import opened Common
  import opened Text

  const SECOND: int := 1_000_000_000

  datatype Phase = Unset | Pending | Provisioning | Active | Pausing | Paused | Completed | Failed

  /** The task's capability token in the token store. */
  datatype Token = Absent | Live | Revoked

  datatype Meta = Meta(creation: int, activeSince: Option<int>, deleting: bool, finalizer: bool)

  /** Amounts that are unset or do not parse are None. */
  datatype Spec = Spec(suspended: bool, timeoutSeconds: int, maxIterations: int, budgetTokens: int,
                       budgetUSD: Option<real>, podProvider: bool)

  datatype Status = Status(phase: Phase, podName: string, iteration: int, tokensConsumed: int, costUSD: Option<real>)

  datatype Task = Task(meta: Meta, spec: Spec, status: Status)

  /** What the cluster holds between reconciles. */
  datatype World = World(task: Task, token: Token)

  datatype SandboxPhase = Succeeded | Broken | Other

  /** podGone: the provider says that the pod or its claim no longer exists. */
  datatype Poll = Poll(phase: SandboxPhase, ready: bool, podName: string, podGone: bool)

  /** Reading the task: a task that is not found is nothing to do, any other failure is an error. */
  datatype Fetch = Fetched | NotFound | FetchFails

  datatype Provider = Unresolved | Resolved(suspender: bool)

  /** Everything outside the controller that one reconcile meets. */
  datatype Oracle = Oracle(
    now: int, markNow: int,
    fetch: Fetch, gateOn: bool, provider: Provider,
    teardownOk: bool, suspendOk: bool, resumeOk: bool, hibernateOk: bool,
    update: Write, patch: Write, metaPatch: Write,
    hasMinter: bool, mint: Write, refreshes: bool, delete: Write, revoke: Write, seesRevoked: bool,
    provisioned: Option<Poll>, poll: Option<Poll>)

  // ----- limits and the timeout clock

  predicate OverIterations(t: Task) { t.spec.maxIterations > 0 && t.status.iteration > t.spec.maxIterations }

  predicate OverUSD(t: Task) {
    && t.spec.budgetUSD.Some? && t.status.costUSD.Some?
    && t.spec.budgetUSD.value > 0.0 && t.status.costUSD.value >= t.spec.budgetUSD.value
  }

  predicate OverTokens(t: Task) { t.spec.budgetTokens > 0 && t.status.tokensConsumed >= t.spec.budgetTokens }

  predicate OverLimit(t: Task) { OverIterations(t) || OverUSD(t) || OverTokens(t) }

  function ActiveStart(t: Task): int {
    if t.meta.activeSince.Some? then t.meta.activeSince.value else t.meta.creation
  }

  predicate TimedOutSince(t: Task, start: int, now: int) {
    t.spec.timeoutSeconds > 0 && now - start > t.spec.timeoutSeconds * SECOND
  }

  predicate TimedOut(t: Task, now: int) { TimedOutSince(t, ActiveStart(t), now) }

  /** An instant written in RFC 3339 (section 5.6, no fraction) and read back. */
  function WholeSeconds(t: int): int { t - t % SECOND }

  // ----- the step on the stored world

  function Stored(w: World, st: Status, write: Write): World {
    if write.Took() then w.(task := w.task.(status := st)) else w
  }

  function WithPhase(w: World, p: Phase, write: Write): World {
    Stored(w, w.task.status.(phase := p), write)
  }

  function AfterMint(w: World, o: Oracle): (World, bool) {
    if !o.hasMinter then (w, true)
    else (if o.mint.Took() then w.(token := Live) else w, o.mint.Done?)
  }

  /** A token already revoked, or reported missing, counts as revoked. */
  function AfterRevoke(w: World, o: Oracle): (World, bool) {
    if w.token.Revoked? && o.seesRevoked then (w, true)
    else (if w.token.Live? && o.revoke.Took() then w.(token := Revoked) else w, o.revoke.Done?)
  }

  function Deleting(w: World, o: Oracle): (World, bool) {
    if !w.task.meta.finalizer then (w, true)
    else if o.provider.Resolved? && !o.teardownOk then (w, false)
    else
      var d := if o.delete.Took() then w.(token := Absent) else w;
      if !o.delete.Done? then (d, false)
      else (SetFinalizer(d, false, o), o.update.Done?)
  }

  function SetFinalizer(w: World, held: bool, o: Oracle): World {
    if o.update.Took() then w.(task := w.task.(meta := w.task.meta.(finalizer := held))) else w
  }

  function GateOff(w: World, o: Oracle): (World, bool) {
    if w.task.status.phase == Paused then (w, true) else (WithPhase(w, Paused, o.patch), o.patch.Done?)
  }

  /** Suspending compute: a suspender suspends, a plain pod provider tears down, others do nothing. */
  predicate ComputeStopped(t: Task, o: Oracle) {
    o.provider.Unresolved? || (if o.provider.suspender then o.suspendOk else t.spec.podProvider ==> o.teardownOk)
  }

  function PausedStatus(t: Task): Status {
    t.status.(phase := Paused, podName := if t.spec.podProvider then "" else t.status.podName)
  }

  function Suspended(w: World, o: Oracle): (World, bool) {
    if !ComputeStopped(w.task, o) || !o.hibernateOk then (w, false)
    else if w.task.status.phase == Paused then AfterRevoke(w, o)
    else if o.patch.Done? then AfterRevoke(Stored(w, PausedStatus(w.task), o.patch), o)
    else (Stored(w, PausedStatus(w.task), o.patch), false)
  }

  function Provision(w: World, o: Oracle): (World, bool) {
    var (m, ok) := AfterMint(w, o);
    if !ok || o.provisioned.None? then (WithPhase(m, Pending, o.patch), false)
    else
      var r := o.provisioned.value;
      (Stored(m, m.task.status.(phase := if r.ready then Active else Provisioning, podName := r.podName), o.patch),
       o.patch.Done?)
  }

  function TerminalStatus(t: Task, p: Poll): Status
    requires p.phase != Other
  {
    t.status.(phase := if p.phase == Succeeded then Completed else Failed,
              podName := if p.podName != "" then p.podName else t.status.podName)
  }

  function SandboxEnded(w: World, p: Poll, o: Oracle): (World, bool)
    requires p.phase != Other
  {
    var s := Stored(w, TerminalStatus(w.task, p), o.patch);
    if o.patch.Done? then AfterRevoke(s, o) else (s, false)
  }

  function PollProvisioning(w: World, o: Oracle): (World, bool) {
    if o.poll.None? then (w, true)
    else
      var p := o.poll.value;
      if p.phase != Other then SandboxEnded(w, p, o)
      else
        (Stored(w, w.task.status.(podName := p.podName, phase := if p.ready then Active else Provisioning), o.patch),
         o.patch.Done?)
  }

  function RunActive(w: World, o: Oracle): (World, bool) {
    if TimedOut(w.task, o.now) then
      if !o.teardownOk then (AfterRevoke(w, o).0, false)
      else if o.patch.Done? then AfterRevoke(WithPhase(w, Failed, o.patch), o)
      else (WithPhase(w, Failed, o.patch), false)
    else if OverLimit(w.task) then
      if !ComputeStopped(w.task, o) || !o.hibernateOk then (w, false)
      else if o.patch.Done? then AfterRevoke(Stored(w, PausedStatus(w.task), o.patch), o)
      else (Stored(w, PausedStatus(w.task), o.patch), false)
    else
      var m := if o.refreshes then AfterMint(w, o).0 else w;
      if o.poll.Some? && o.poll.value.phase != Other then SandboxEnded(m, o.poll.value, o)
      else if o.poll.Some? && o.poll.value.podName != "" then
        (Stored(m, m.task.status.(podName := o.poll.value.podName), o.patch), true)
      else (m, true)
  }

  predicate NeedsMark(t: Task, o: Oracle) { TimedOutSince(t, t.meta.creation, o.now) }

  function Marked(w: World, o: Oracle): World {
    if NeedsMark(w.task, o) && o.metaPatch.Took()
    then w.(task := w.task.(meta := w.task.meta.(activeSince := Some(WholeSeconds(o.markNow))))) else w
  }

  function PodAfterPoll(t: Task, o: Oracle): string {
    if t.status.podName != "" && o.poll.Some? && (o.poll.value.phase != Other || o.poll.value.podGone) then ""
    else t.status.podName
  }

  function ResumePaused(w: World, o: Oracle): (World, bool) {
    if OverLimit(w.task) then AfterRevoke(w, o)
    else
      var m := Marked(w, o);
      if NeedsMark(w.task, o) && !o.metaPatch.Done? then (m, false)
      else if !o.hibernateOk then (m, false)
      else
        var pod := PodAfterPoll(w.task, o);
        if pod == "" then
          (Stored(m, m.task.status.(phase := Pending, podName := ""), o.patch), o.patch.Done?)
        else
          var (t, ok) := AfterMint(m, o);
          if !ok || (o.provider.Resolved? && o.provider.suspender && !o.resumeOk) then (t, false)
          else (WithPhase(t, Active, o.patch), o.patch.Done?)
  }

  /** One reconcile: the world it leaves and whether it returned without error. */
  function After(w: World, o: Oracle): (World, bool) {
    if !o.fetch.Fetched? then (w, o.fetch.NotFound?)
    else if w.task.meta.deleting then Deleting(w, o)
    else if !w.task.meta.finalizer then (SetFinalizer(w, true, o), o.update.Done?)
    else if !o.gateOn then GateOff(w, o)
    else if w.task.spec.suspended then Suspended(w, o)
    else if o.provider.Unresolved? then (WithPhase(w, Failed, o.patch), false)
    else match w.task.status.phase
      case Unset => Provision(w, o)
      case Pending => Provision(w, o)
      case Provisioning => PollProvisioning(w, o)
      case Active => RunActive(w, o)
      case Paused => ResumePaused(w, o)
      case Completed => AfterRevoke(w, o)
      case Failed => AfterRevoke(w, o)
      case Pausing => (w, true)
  }

  // ----- the controller itself: a fetched copy is edited and written back piece by piece

  class Reconciler {
    var stored: Task
    var token: Token

    constructor (w: World)
      ensures Cluster() == w
    {
      stored, token := w.task, w.token;
    }

    function Cluster(): World
      reads this
    {
      World(stored, token)
    }

    method PatchStatus(task: Task, write: Write) returns (ok: bool)
      modifies this`stored
      ensures Cluster() == Stored(old(Cluster()), task.status, write) && ok == write.Done?
    {
      if write.Took() { stored := stored.(status := task.status); }
      ok := write.Done?;
    }

    method UpdateFinalizer(held: bool, o: Oracle) returns (ok: bool)
      modifies this`stored
      ensures Cluster() == SetFinalizer(old(Cluster()), held, o) && ok == o.update.Done?
    {
      if o.update.Took() { stored := stored.(meta := stored.meta.(finalizer := held)); }
      ok := o.update.Done?;
    }

    method MintAndSaveToken(o: Oracle) returns (ok: bool)
      modifies this`token
      ensures (Cluster(), ok) == AfterMint(old(Cluster()), o)
    {
      if !o.hasMinter { return true; }
      if o.mint.Took() { token := Live; }
      ok := o.mint.Done?;
    }

    method RevokeToken(o: Oracle) returns (ok: bool)
      modifies this`token
      ensures (Cluster(), ok) == AfterRevoke(old(Cluster()), o)
    {
      if token.Revoked? && o.seesRevoked { return true; }
      if token.Live? && o.revoke.Took() { token := Revoked; }
      ok := o.revoke.Done?;
    }

    method HandleTerminalSandboxPhase(fetched: Task, p: Poll, o: Oracle) returns (handled: bool, ok: bool)
      requires fetched == stored
      modifies this
      ensures handled == (p.phase != Other)
      ensures if handled then (Cluster(), ok) == SandboxEnded(old(Cluster()), p, o)
              else Cluster() == old(Cluster()) && ok
    {
      if p.phase == Other { return false, true; }
      var task := fetched;
      if p.podName != "" { task := task.(status := task.status.(podName := p.podName)); }
      if p.phase == Succeeded {
        task := task.(status := task.status.(phase := Completed));
      } else {
        task := task.(status := task.status.(phase := Failed));
      }
      ok := PatchStatus(task, o.patch);
      if !ok { return true, false; }
      ok := RevokeToken(o);
      return true, ok;
    }

    /** Writes Paused, and drops the pod name where the provider just tore the pod down. */
    method PausePatch(fetched: Task, o: Oracle) returns (ok: bool)
      requires fetched == stored
      modifies this`stored
      ensures Cluster() == Stored(old(Cluster()), PausedStatus(fetched), o.patch) && ok == o.patch.Done?
    {
      var task := fetched.(status := fetched.status.(phase := Paused));
      if task.spec.podProvider { task := task.(status := task.status.(podName := "")); }
      ok := PatchStatus(task, o.patch);
    }

    method StopCompute(task: Task, o: Oracle) returns (ok: bool)
      ensures ok == ComputeStopped(task, o)
    {
      ok := true;
      if o.provider.Resolved? {
        if o.provider.suspender {
          ok := o.suspendOk;
        } else if task.spec.podProvider {
          ok := o.teardownOk;
        }
      }
    }

    method ReconcileDeleting(o: Oracle) returns (ok: bool)
      modifies this
      ensures (Cluster(), ok) == Deleting(old(Cluster()), o)
    {
      if stored.meta.finalizer {
        if o.provider.Resolved? && !o.teardownOk { return false; }
        if o.delete.Took() { token := Absent; }
        if !o.delete.Done? { return false; }
        ok := UpdateFinalizer(false, o);
        return ok;
      }
      return true;
    }

    method ReconcileSuspended(o: Oracle) returns (ok: bool)
      modifies this
      ensures (Cluster(), ok) == Suspended(old(Cluster()), o)
    {
      var task := stored;
      ok := StopCompute(task, o);
      if !ok || !o.hibernateOk { return false; }
      if task.status.phase != Paused {
        ok := PausePatch(task, o);
        if !ok { return false; }
      }
      ok := RevokeToken(o);
    }

    method ReconcilePending(o: Oracle) returns (ok: bool)
      modifies this
      ensures (Cluster(), ok) == Provision(old(Cluster()), o)
    {
      var task := stored;
      var minted := MintAndSaveToken(o);
      if !minted || o.provisioned.None? {
        task := task.(status := task.status.(phase := Pending));
        var _ := PatchStatus(task, o.patch);
        return false;
      }
      var res := o.provisioned.value;
      task := task.(status := task.status.(podName := res.podName));
      if res.ready {
        task := task.(status := task.status.(phase := Active));
      } else {
        task := task.(status := task.status.(phase := Provisioning));
      }
      ok := PatchStatus(task, o.patch);
    }

    method ReconcileProvisioning(o: Oracle) returns (ok: bool)
      requires stored.status.phase == Provisioning
      modifies this
      ensures (Cluster(), ok) == PollProvisioning(old(Cluster()), o)
    {
      var task := stored;
      if o.poll.None? { return true; }
      var sb := o.poll.value;
      var handled, done := HandleTerminalSandboxPhase(task, sb, o);
      if handled { return done; }
      task := task.(status := task.status.(podName := sb.podName));
      if sb.ready { task := task.(status := task.status.(phase := Active)); }
      ok := PatchStatus(task, o.patch);
    }

    method ReconcileActive(o: Oracle) returns (ok: bool)
      requires o.provider.Resolved?
      modifies this
      ensures (Cluster(), ok) == RunActive(old(Cluster()), o)
    {
      var task := stored;
      var startTime := ActiveStart(task);
      if task.spec.timeoutSeconds > 0 && o.now - startTime > task.spec.timeoutSeconds * SECOND {
        if !o.teardownOk {
          var _ := RevokeToken(o);
          return false;
        }
        task := task.(status := task.status.(phase := Failed));
        ok := PatchStatus(task, o.patch);
        if !ok { return false; }
        ok := RevokeToken(o);
        return ok;
      }
      if OverLimit(task) {
        ok := StopCompute(task, o);
        if !ok || !o.hibernateOk { return false; }
        ok := PausePatch(task, o);
        if !ok { return false; }
        ok := RevokeToken(o);
        return ok;
      }
      if o.refreshes { var _ := MintAndSaveToken(o); }
      if o.poll.Some? {
        var handled, done := HandleTerminalSandboxPhase(task, o.poll.value, o);
        if handled { return done; }
        if o.poll.value.podName != "" {
          task := task.(status := task.status.(podName := o.poll.value.podName));
        }
      }
      var _ := PatchStatus(task, o.patch);
      return true;
    }

    method ReconcilePaused(o: Oracle) returns (ok: bool)
      modifies this
      ensures (Cluster(), ok) == ResumePaused(old(Cluster()), o)
    {
      var task := stored;
      if OverLimit(task) {
        ok := RevokeToken(o);
        return ok;
      }
      if task.spec.timeoutSeconds > 0 && o.now - task.meta.creation > task.spec.timeoutSeconds * SECOND {
        task := task.(meta := task.meta.(activeSince := Some(WholeSeconds(o.markNow))));
        if o.metaPatch.Took() { stored := stored.(meta := task.meta); }
        if !o.metaPatch.Done? { return false; }
      }
      if !o.hibernateOk { return false; }
      if task.status.podName != "" && o.poll.Some? {
        if o.poll.value.phase != Other || o.poll.value.podGone {
          task := task.(status := task.status.(podName := ""));
        }
      }
      if task.status.podName != "" {
        ok := MintAndSaveToken(o);
        if !ok { return false; }
        if o.provider.Resolved? && o.provider.suspender && !o.resumeOk { return false; }
        task := task.(status := task.status.(phase := Active));
      } else {
        task := task.(status := task.status.(phase := Pending));
      }
      ok := PatchStatus(task, o.patch);
    }

    /** The whole reconcile leaves the cluster exactly as After says. */
    method Reconcile(o: Oracle) returns (ok: bool)
      modifies this
      ensures (Cluster(), ok) == After(old(Cluster()), o)
    {
      if !o.fetch.Fetched? { return o.fetch.NotFound?; }
      var task := stored;
      if task.meta.deleting {
        ok := ReconcileDeleting(o);
        return ok;
      }
      if !task.meta.finalizer {
        ok := UpdateFinalizer(true, o);
        return ok;
      }
      if !o.gateOn {
        if task.status.phase != Paused {
          task := task.(status := task.status.(phase := Paused));
          ok := PatchStatus(task, o.patch);
          return ok;
        }
        return true;
      }
      if task.spec.suspended {
        ok := ReconcileSuspended(o);
        return ok;
      }
      if o.provider.Unresolved? {
        task := task.(status := task.status.(phase := Failed));
        var _ := PatchStatus(task, o.patch);
        return false;
      }
      match task.status.phase {
        case Unset => ok := ReconcilePending(o);
        case Pending => ok := ReconcilePending(o);
        case Provisioning => ok := ReconcileProvisioning(o);
        case Active => ok := ReconcileActive(o);
        case Paused => ok := ReconcilePaused(o);
        case Completed => ok := RevokeToken(o);
        case Failed => ok := RevokeToken(o);
        case Pausing => ok := true;
      }
    }
  }
}
