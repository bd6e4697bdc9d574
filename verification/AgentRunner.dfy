/** The metered agent loop: report usage, run the agent, check, and push once everything passes. */
module AgentRunner {
  import opened Common
  import opened Text

  /** What one run leaves behind, in order. A push remembers whether a preview URL was configured for its checks. */
  datatype Event =
    | Usage(iter: int, id: string, accepted: bool)
    | Agent(iter: int)
    | Health(iter: int, ok: bool)
    | Verify(iter: int, ok: bool)
    | Push(iter: int, probed: bool)
    | PRReport(iter: int, id: string)

  type Int32 = x: int | MIN_INT32 <= x <= MAX_INT32

  /** The meter server's answer: the new iteration limit (none if not positive) and the preview URL it knows. */
  datatype MeterResponse = MeterResponse(maxIterations: Int32, previewURL: string)
  datatype Metered = Metered(accepted: bool, response: Option<MeterResponse>)

  datatype Worktree = StatusFails | Clean | Dirty

  /** Everything outside the runner, iteration by iteration. */
  datatype Oracle = Oracle(
    nonce: Option<string>,
    meter: int -> Metered, agentOk: int -> bool, healthOk: int -> bool, verifyOk: int -> bool,
    worktree: int -> Worktree, addOk: int -> bool, commitOk: int -> bool, pushOk: int -> bool,
    pullRequest: int -> Option<string>, reportOk: (int, int) -> bool,
    digest: string -> string)

  datatype Outcome = Succeeded(committed: bool) | Aborted | NextIteration

  // ----- request ids

  function RunPrefix(task: string, runID: string): string { task + "-" + runID + "-" }
  function UsageID(task: string, runID: string, iter: int): string { RunPrefix(task, runID) + ("iter-" + Dec(iter)) }
  function PullRequestID(task: string, runID: string, hash: string): string { RunPrefix(task, runID) + ("pr-" + hash) }

  /** Ids of different iterations differ, and none is the id of a pull-request report. */
  lemma IDsDiffer(task: string, runID: string, i: int, j: int, hash: string)
    ensures UsageID(task, runID, i) == UsageID(task, runID, j) ==> i == j
    ensures UsageID(task, runID, i) != PullRequestID(task, runID, hash)
  {
    var p := RunPrefix(task, runID);
    if UsageID(task, runID, i) == UsageID(task, runID, j) {
      SameTail(p, "iter-" + Dec(i), "iter-" + Dec(j));
      SameTail("iter-", Dec(i), Dec(j));
      DecInjective(i, j);
    }
    assert UsageID(task, runID, i)[|p|] == 'i' && PullRequestID(task, runID, hash)[|p|] == 'p';
  }

  // ----- what a trace must be

  /** Each agent command directly follows an accepted meter report of the same iteration. */
  ghost predicate AgentsAreMetered(t: seq<Event>) {
    forall p :: 0 <= p < |t| && t[p].Agent? ==>
      p > 0 && t[p - 1].Usage? && t[p - 1].accepted && t[p - 1].iter == t[p].iter
  }

  /** The preview answered healthily in the push's own iteration, with no agent command since. */
  ghost predicate HealthySince(t: seq<Event>, q: int, p: int) {
    && 0 <= q < p < |t| && t[q].Health? && t[q].ok && t[p].Push? && t[q].iter == t[p].iter
    && forall r :: q < r < p ==> !t[r].Agent?
  }

  ghost predicate PushChecked(t: seq<Event>, p: nat, hasVerify: bool)
    requires p < |t| && t[p].Push?
  {
    && (hasVerify ==> p > 0 && t[p - 1] == Verify(t[p].iter, true))
    && (t[p].probed ==> exists q :: HealthySince(t, q, p))
  }

  ghost predicate PushesAreChecked(t: seq<Event>, hasVerify: bool) {
    forall p: nat :: p < |t| && t[p].Push? ==> PushChecked(t, p, hasVerify)
  }

  ghost predicate HasPush(t: seq<Event>) { exists p :: 0 <= p < |t| && t[p].Push? }

  ghost predicate NoPush(t: seq<Event>) { forall p :: 0 <= p < |t| ==> !t[p].Push? && !t[p].PRReport? }

  /** At most one push; only pull-request reports come after it. */
  ghost predicate PushIsLast(t: seq<Event>) {
    forall p, q :: 0 <= p < q < |t| && (t[p].Push? || t[p].PRReport?) ==> t[q].PRReport?
  }

  ghost predicate UsageIncreases(t: seq<Event>, below: int) {
    && (forall p :: 0 <= p < |t| && t[p].Usage? ==> t[p].iter < below)
    && (forall p, q :: 0 <= p < q < |t| && t[p].Usage? && t[q].Usage? ==> t[p].iter < t[q].iter)
  }

  ghost predicate FormedID(e: Event, task: string, runID: string) {
    && (e.Usage? ==> e.id == if task == "" then "" else UsageID(task, runID, e.iter))
    && (e.PRReport? ==> if task == "" then e.id == "" else exists h :: e.id == PullRequestID(task, runID, h))
  }

  ghost predicate IDsAreFormed(t: seq<Event>, task: string, runID: string) {
    forall p :: 0 <= p < |t| ==> FormedID(t[p], task, runID)
  }

  /** Distinct usage ids, all different from a report's. */
  ghost predicate IDsAreDistinct(t: seq<Event>) {
    && (forall p, q :: 0 <= p < q < |t| && t[p].Usage? && t[q].Usage? ==> t[p].id != t[q].id)
    && (forall p, q :: 0 <= p < |t| && 0 <= q < |t| && t[p].Usage? && t[q].PRReport? ==> t[p].id != t[q].id)
  }

  lemma FormedIDsAreDistinct(t: seq<Event>, task: string, runID: string, below: int)
    requires IDsAreFormed(t, task, runID) && UsageIncreases(t, below) && task != ""
    ensures IDsAreDistinct(t)
  {
    forall p, q | 0 <= p < q < |t| && t[p].Usage? && t[q].Usage? ensures t[p].id != t[q].id {
      assert FormedID(t[p], task, runID) && FormedID(t[q], task, runID);
      IDsDiffer(task, runID, t[p].iter, t[q].iter, "");
    }
    forall p, q | 0 <= p < |t| && 0 <= q < |t| && t[p].Usage? && t[q].PRReport? ensures t[p].id != t[q].id {
      assert FormedID(t[p], task, runID) && FormedID(t[q], task, runID);
      var h :| t[q].id == PullRequestID(task, runID, h);
      IDsDiffer(task, runID, t[p].iter, t[p].iter, h);
    }
  }

  // ----- one iteration's events

  ghost predicate Segment(s: seq<Event>, iter: int, hasVerify: bool, task: string, runID: string) {
    && s != [] && s[0].Usage?
    && (forall p :: 0 <= p < |s| ==> s[p].iter == iter)
    && (forall p :: 0 < p < |s| ==> !s[p].Usage?)
    && AgentsAreMetered(s) && PushesAreChecked(s, hasVerify) && PushIsLast(s) && IDsAreFormed(s, task, runID)
  }

  /** An iteration in progress: nothing pushed yet. */
  ghost predicate Open(s: seq<Event>, iter: int, hasVerify: bool, task: string, runID: string) {
    Segment(s, iter, hasVerify, task, runID) && NoPush(s)
  }

  /** All of it, for a run's trace before iteration `below`. */
  ghost predicate GoodTrace(t: seq<Event>, below: int, hasVerify: bool, task: string, runID: string) {
    && AgentsAreMetered(t) && PushesAreChecked(t, hasVerify) && PushIsLast(t)
    && UsageIncreases(t, below) && IDsAreFormed(t, task, runID)
  }

  lemma AppendAgents(t: seq<Event>, s: seq<Event>)
    requires AgentsAreMetered(t) && AgentsAreMetered(s) && (s != [] ==> s[0].Usage?)
    ensures AgentsAreMetered(t + s)
  {
    var u, n := t + s, |t|;
    forall p | 0 <= p < |u| && u[p].Agent?
      ensures p > 0 && u[p - 1].Usage? && u[p - 1].accepted && u[p - 1].iter == u[p].iter
    {
      if p >= n {
        assert u[p] == s[p - n] && u[p - 1] == s[p - n - 1];
      } else {
        assert u[p] == t[p] && u[p - 1] == t[p - 1];
      }
    }
  }

  lemma InConcat(t: seq<Event>, s: seq<Event>, p: nat)
    requires p < |t + s|
    ensures (t + s)[p] == if p < |t| then t[p] else s[p - |t|]
  {
  }

  lemma ShiftedHealth(t: seq<Event>, s: seq<Event>, q: int, p: int)
    requires HealthySince(s, q, p)
    ensures HealthySince(t + s, q + |t|, p + |t|)
  {
    forall r | q < r <= p || r == q ensures (t + s)[r + |t|] == s[r] { InConcat(t, s, r + |t|); }
    forall r | q + |t| < r < p + |t| ensures !(t + s)[r].Agent? { InConcat(t, s, r); }
  }

  lemma ShiftedCheck(t: seq<Event>, s: seq<Event>, p: nat, hasVerify: bool)
    requires p < |s| && s[p].Push? && PushChecked(s, p, hasVerify)
    ensures (t + s)[p + |t|] == s[p] && PushChecked(t + s, p + |t|, hasVerify)
  {
    if s[p].probed {
      var q :| HealthySince(s, q, p);
      ShiftedHealth(t, s, q, p);
    }
  }

  lemma AppendPushes(t: seq<Event>, s: seq<Event>, hasVerify: bool)
    requires NoPush(t) && PushesAreChecked(s, hasVerify)
    ensures PushesAreChecked(t + s, hasVerify)
  {
    var u := t + s;
    forall p: nat | p < |u| && u[p].Push? ensures PushChecked(u, p, hasVerify) {
      InConcat(t, s, p);
      ShiftedCheck(t, s, p - |t|, hasVerify);
    }
  }

  /** A push stays checked when more events follow. */
  lemma StaysChecked(s: seq<Event>, e: Event, p: nat, hasVerify: bool)
    requires p < |s| && s[p].Push? && PushChecked(s, p, hasVerify)
    ensures PushChecked(s + [e], p, hasVerify)
  {
    if s[p].probed {
      var q :| HealthySince(s, q, p);
      assert HealthySince(s + [e], q, p);
    }
  }

  lemma AppendLast(t: seq<Event>, s: seq<Event>)
    requires NoPush(t) && PushIsLast(s)
    ensures PushIsLast(t + s)
  {
    var u := t + s;
    forall p, q | 0 <= p < q < |u| && (u[p].Push? || u[p].PRReport?) ensures u[q].PRReport? {
      InConcat(t, s, p);
      InConcat(t, s, q);
    }
  }

  lemma AppendUsage(t: seq<Event>, s: seq<Event>, iter: int)
    requires UsageIncreases(t, iter) && (forall p :: 0 <= p < |s| ==> s[p].iter == iter)
    requires forall p :: 0 < p < |s| ==> !s[p].Usage?
    ensures UsageIncreases(t + s, iter + 1)
  {
    var u, n := t + s, |t|;
    forall p | 0 <= p < |u| ensures u[p] == if p < n then t[p] else s[p - n] {}
  }

  lemma AppendIDs(t: seq<Event>, s: seq<Event>, task: string, runID: string)
    requires IDsAreFormed(t, task, runID) && IDsAreFormed(s, task, runID)
    ensures IDsAreFormed(t + s, task, runID)
  {
    forall p | 0 <= p < |t + s| ensures FormedID((t + s)[p], task, runID) { InConcat(t, s, p); }
  }

  lemma Append(t: seq<Event>, s: seq<Event>, iter: int, hasVerify: bool, task: string, runID: string)
    requires NoPush(t) && GoodTrace(t, iter, hasVerify, task, runID) && Segment(s, iter, hasVerify, task, runID)
    ensures GoodTrace(t + s, iter + 1, hasVerify, task, runID)
    ensures NoPush(s) ==> NoPush(t + s)
  {
    AppendAgents(t, s);
    AppendPushes(t, s, hasVerify);
    AppendLast(t, s);
    AppendUsage(t, s, iter);
    AppendIDs(t, s, task, runID);
  }

  /** One more event of the iteration. */
  lemma Extend(s: seq<Event>, e: Event, iter: int, hasVerify: bool, task: string, runID: string)
    requires Segment(s, iter, hasVerify, task, runID) && e.iter == iter && !e.Usage? && FormedID(e, task, runID)
    requires e.Agent? ==> |s| == 1 && s[0].accepted
    requires e.Push? ==> NoPush(s) && PushChecked(s + [e], |s|, hasVerify)
    requires NoPush(s) || e.PRReport?
    ensures Segment(s + [e], iter, hasVerify, task, runID)
    ensures NoPush(s) && !e.Push? && !e.PRReport? ==> NoPush(s + [e])
  {
    ExtendChecks(s, e, hasVerify);
    AppendIDs(s, [e], task, runID);
    ExtendOrder(s, e);
  }

  lemma ExtendChecks(s: seq<Event>, e: Event, hasVerify: bool)
    requires PushesAreChecked(s, hasVerify) && (e.Push? ==> PushChecked(s + [e], |s|, hasVerify))
    ensures PushesAreChecked(s + [e], hasVerify)
  {
    var u := s + [e];
    forall p: nat | p < |u| && u[p].Push? ensures PushChecked(u, p, hasVerify) {
      if p < |s| { StaysChecked(s, e, p, hasVerify); }
    }
  }

  lemma ExtendOrder(s: seq<Event>, e: Event)
    requires AgentsAreMetered(s) && PushIsLast(s) && s != []
    requires e.Agent? ==> s[|s| - 1].Usage? && s[|s| - 1].accepted && s[|s| - 1].iter == e.iter
    requires NoPush(s) || e.PRReport?
    ensures AgentsAreMetered(s + [e]) && PushIsLast(s + [e])
  {
    var u := s + [e];
    forall p | 0 <= p < |u| && u[p].Agent?
      ensures p > 0 && u[p - 1].Usage? && u[p - 1].accepted && u[p - 1].iter == u[p].iter
    {
      if p < |s| { assert u[p] == s[p]; }
    }
    forall p, q | 0 <= p < q < |u| && (u[p].Push? || u[p].PRReport?) ensures u[q].PRReport? {
      assert u[p] == s[p];
    }
  }

  lemma PushIsChecked(s: seq<Event>, iter: int, probed: bool, hasVerify: bool)
    requires hasVerify ==> s != [] && s[|s| - 1] == Verify(iter, true)
    requires probed ==> HealthyTail(s, iter)
    ensures PushChecked(s + [Push(iter, probed)], |s|, hasVerify)
  {
    if probed {
      var q :| 0 <= q < |s| && s[q] == Health(iter, true) && forall r :: q < r < |s| ==> !s[r].Agent?;
      assert HealthySince(s + [Push(iter, probed)], q, |s|);
    }
  }

  /** A healthy answer with no agent command after it. */
  ghost predicate HealthyTail(s: seq<Event>, iter: int) {
    exists q :: 0 <= q < |s| && s[q] == Health(iter, true) && forall r :: q < r < |s| ==> !s[r].Agent?
  }

  // ----- what a run does, as a function of its setup and of everything outside

  datatype Setup = Setup(taskName: string, configRunID: string, hasAgent: bool, hasVerify: bool)

  /** What changes during a run. */
  datatype Live = Live(maxIterations: int, previewURL: string, runID: string)

  function ChosenRunID(c: Setup, runID: string, o: Oracle): Option<string> {
    if runID != "" then Some(runID) else if c.configRunID != "" then Some(c.configRunID) else o.nonce
  }

  function Adopted(l: Live, m: Metered): (r: Live)
    ensures r.maxIterations == l.maxIterations || 0 < r.maxIterations <= MAX_INT32
  {
    if m.response.None? then l
    else
      var r := m.response.value;
      l.(maxIterations := if r.maxIterations > 0 then r.maxIterations else l.maxIterations,
         previewURL := if TrimSpace(r.previewURL) != "" then TrimSpace(r.previewURL) else l.previewURL)
  }

  /** Reports of one pull request from an attempt on; a success is the last, and there are at most three. */
  function Reports(iter: int, id: string, o: Oracle, attempt: nat): seq<Event>
    decreases 4 - attempt
  {
    if attempt > 3 then []
    else [PRReport(iter, id)] + if o.reportOk(iter, attempt) then [] else Reports(iter, id, o, attempt + 1)
  }

  lemma ReportsStep(t: seq<Event>, iter: int, id: string, o: Oracle, attempt: nat)
    requires attempt <= 3
    ensures t + Reports(iter, id, o, attempt)
         == if o.reportOk(iter, attempt) then t + [PRReport(iter, id)]
            else (t + [PRReport(iter, id)]) + Reports(iter, id, o, attempt + 1)
  {
    NothingAdded([PRReport(iter, id)]);
    Regroup(t, [PRReport(iter, id)], Reports(iter, id, o, attempt + 1));
  }

  function ReportID(c: Setup, runID: string, url: string, o: Oracle): string {
    if c.taskName == "" then "" else PullRequestID(c.taskName, runID, o.digest(TrimSpace(url)))
  }

  function Delivery(c: Setup, runID: string, iter: int, o: Oracle, probed: bool): (Outcome, seq<Event>) {
    match o.worktree(iter)
    case StatusFails => (Aborted, [])
    case Clean => (Succeeded(false), [])
    case Dirty =>
      if !o.addOk(iter) || !o.commitOk(iter) then (Aborted, [])
      else if !o.pushOk(iter) then (Aborted, [Push(iter, probed)])
      else
        var pr := o.pullRequest(iter);
        var reports :=
          if pr.Some? && pr.value != "" then Reports(iter, ReportID(c, runID, pr.value, o), o, 1) else [];
        (Succeeded(true), [Push(iter, probed)] + reports)
  }

  function Checks(c: Setup, l: Live, iter: int, o: Oracle): (bool, seq<Event>) {
    var health := if l.previewURL != "" then [Health(iter, o.healthOk(iter))] else [];
    if l.previewURL != "" && !o.healthOk(iter) then (false, health)
    else if c.hasVerify then (o.verifyOk(iter), health + [Verify(iter, o.verifyOk(iter))])
    else (true, health)
  }

  /** The iteration once the agent command is done. */
  function Checked(c: Setup, l: Live, iter: int, o: Oracle): (Outcome, seq<Event>) {
    var (passed, checks) := Checks(c, l, iter, o);
    if !passed then (NextIteration, checks)
    else
      var (out, events) := Delivery(c, l.runID, iter, o, l.previewURL != "");
      (out, checks + events)
  }

  /** An iteration once its meter report was accepted. */
  function Worked(c: Setup, l: Live, iter: int, o: Oracle): (Outcome, seq<Event>) {
    if !c.hasAgent then Checked(c, l, iter, o)
    else if !o.agentOk(iter) then (Aborted, [Agent(iter)])
    else
      var (out, events) := Checked(c, l, iter, o);
      (out, [Agent(iter)] + events)
  }

  datatype Turn = Turn(out: Outcome, events: seq<Event>, live: Live)

  function Iterated(c: Setup, l: Live, iter: int, o: Oracle): (r: Turn)
    ensures r.live.maxIterations == l.maxIterations || 0 < r.live.maxIterations <= MAX_INT32
  {
    var runID := if c.taskName == "" then Some(l.runID) else ChosenRunID(c, l.runID, o);
    if runID.None? then Turn(Aborted, [], l)
    else
      var m := o.meter(iter);
      var live := Adopted(l.(runID := runID.value), m);
      var usage := Usage(iter, if c.taskName == "" then "" else UsageID(c.taskName, runID.value, iter), m.accepted);
      if !m.accepted then Turn(Aborted, [usage], live)
      else
        var (out, events) := Worked(c, live, iter, o);
        Turn(out, [usage] + events, live)
  }

  /** The rest of a run: how it ends, the iteration count it reports and its events. */
  datatype Played = Played(out: Outcome, iterations: int, events: seq<Event>)

  function Play(c: Setup, l: Live, iter: int, o: Oracle): Played
    decreases Larger(l.maxIterations, MAX_INT32) - iter
  {
    if iter > l.maxIterations then Played(NextIteration, l.maxIterations, [])
    else
      var t := Iterated(c, l, iter, o);
      if !t.out.NextIteration? then Played(t.out, iter, t.events) else After(t.events, Play(c, t.live, iter + 1, o))
  }

  function After(events: seq<Event>, p: Played): Played { p.(events := events + p.events) }

  lemma StartsWithNothing(p: Played)
    ensures After([], p) == p
  {
    assert [] + p.events == p.events;
  }

  lemma PlayUnfolds(c: Setup, l: Live, iter: int, o: Oracle, trace: seq<Event>)
    requires iter <= l.maxIterations
    ensures var t := Iterated(c, l, iter, o);
            After(trace, Play(c, l, iter, o))
            == if !t.out.NextIteration? then Played(t.out, iter, trace + t.events)
               else After(trace + t.events, Play(c, t.live, iter + 1, o))
  {
    var t := Iterated(c, l, iter, o);
    Regroup(trace, t.events, Play(c, t.live, iter + 1, o).events);
  }

  // ----- the runner

  class Runner {
    const taskName: string
    const configRunID: string
    const hasAgent: bool
    const hasVerify: bool
    var maxIterations: int
    var previewURL: string
    var runID: string

    constructor (taskName: string, configRunID: string, hasAgent: bool, hasVerify: bool,
                 maxIterations: int, previewURL: string)
      ensures Given() == Setup(taskName, configRunID, hasAgent, hasVerify)
      ensures Now() == Live(maxIterations, previewURL, "")
    {
      this.taskName, this.configRunID, this.hasAgent, this.hasVerify := taskName, configRunID, hasAgent, hasVerify;
      this.maxIterations, this.previewURL, runID := maxIterations, previewURL, "";
    }

    function Given(): Setup { Setup(taskName, configRunID, hasAgent, hasVerify) }

    function Now(): Live
      reads this
    {
      Live(maxIterations, previewURL, runID)
    }

    /** The run's id, chosen once and kept. */
    method EnsureRunID(o: Oracle) returns (ok: bool)
      modifies this`runID
      ensures ok == ChosenRunID(Given(), old(runID), o).Some?
      ensures runID == if ok then ChosenRunID(Given(), old(runID), o).value else old(runID)
    {
      if runID != "" { return true; }
      if configRunID != "" {
        runID := configRunID;
        return true;
      }
      if o.nonce.None? { return false; }
      runID := o.nonce.value;
      return true;
    }

    /** Takes over the limit and the preview URL that the server sent. */
    method Adopt(m: Metered)
      modifies this`maxIterations, this`previewURL
      ensures Now() == Adopted(old(Now()), m)
    {
      if m.response.None? { return; }
      var r := m.response.value;
      if r.maxIterations > 0 { maxIterations := r.maxIterations; }
      if TrimSpace(r.previewURL) != "" { previewURL := TrimSpace(r.previewURL); }
    }

    /** Reports the pull request, trying up to three times. */
    method ReportPullRequest(iter: int, url: string, o: Oracle) returns (t: seq<Event>)
      ensures t == Reports(iter, ReportID(Given(), runID, url, o), o, 1)
    {
      t := [];
      var id := if taskName == "" then "" else PullRequestID(taskName, runID, o.digest(TrimSpace(url)));
      for attempt := 1 to 4
        invariant t + Reports(iter, id, o, attempt) == Reports(iter, id, o, 1)
      {
        ReportsStep(t, iter, id, o, attempt);
        t := t + [PRReport(iter, id)];
        if o.reportOk(iter, attempt) { return; }
      }
      NothingAdded(t);
    }

    /** Commits and pushes what the checks let through. */
    method Deliver(iter: int, o: Oracle) returns (out: Outcome, t: seq<Event>)
      ensures (out, t) == Delivery(Given(), runID, iter, o, previewURL != "")
    {
      t := [];
      if o.worktree(iter) == StatusFails { return Aborted, t; }
      if o.worktree(iter) == Clean { return Succeeded(false), t; }
      if !o.addOk(iter) { return Aborted, t; }
      if !o.commitOk(iter) { return Aborted, t; }
      t := [Push(iter, previewURL != "")];
      if !o.pushOk(iter) { return Aborted, t; }
      if o.pullRequest(iter).Some? && o.pullRequest(iter).value != "" {
        var reports := ReportPullRequest(iter, o.pullRequest(iter).value, o);
        t := t + reports;
      } else {
        assert t + [] == t;
      }
      return Succeeded(true), t;
    }

    method Check(iter: int, o: Oracle) returns (passed: bool, t: seq<Event>)
      ensures (passed, t) == Checks(Given(), Now(), iter, o)
    {
      t := [];
      if previewURL != "" {
        t := [Health(iter, o.healthOk(iter))];
        if !o.healthOk(iter) { return false, t; }
      }
      if hasVerify {
        t := t + [Verify(iter, o.verifyOk(iter))];
        if !o.verifyOk(iter) { return false, t; }
      }
      return true, t;
    }

    /** The iteration after its meter report was accepted. */
    method Work(iter: int, o: Oracle) returns (out: Outcome, t: seq<Event>)
      ensures (out, t) == Worked(Given(), Now(), iter, o)
    {
      var agent := [];
      if hasAgent {
        agent := [Agent(iter)];
        if !o.agentOk(iter) { return Aborted, agent; }
      }
      var passed, checks := Check(iter, o);
      assert [] + checks == checks;
      if !passed { return NextIteration, agent + checks; }
      var delivered;
      out, delivered := Deliver(iter, o);
      t := agent + (checks + delivered);
      assert [] + (checks + delivered) == checks + delivered;
    }

    method Iterate(iter: int, o: Oracle) returns (out: Outcome, s: seq<Event>)
      modifies this
      ensures Turn(out, s, Now()) == Iterated(Given(), old(Now()), iter, o)
    {
      var id := "";
      if taskName != "" {
        var ok := EnsureRunID(o);
        if !ok { return Aborted, []; }
        id := UsageID(taskName, runID, iter);
      }
      var m := o.meter(iter);
      s := [Usage(iter, id, m.accepted)];
      Adopt(m);
      if !m.accepted { return Aborted, s; }
      var worked;
      out, worked := Work(iter, o);
      s := s + worked;
    }

    /** The body of the loop. */
    method Round(iter: int, o: Oracle, t: seq<Event>, ghost played: Played) returns (out: Outcome, trace: seq<Event>)
      requires iter <= maxIterations && played == After(t, Play(Given(), Now(), iter, o))
      modifies this
      ensures maxIterations == old(maxIterations) || maxIterations <= MAX_INT32
      ensures played == if out.NextIteration? then After(trace, Play(Given(), Now(), iter + 1, o))
                        else Played(out, iter, trace)
    {
      PlayUnfolds(Given(), Now(), iter, o, t);
      var events;
      out, events := Iterate(iter, o);
      trace := t + events;
    }

    /** The loop ends, and does what Play says. */
    method Run(o: Oracle) returns (succeeded: bool, committed: bool, iterations: int, trace: seq<Event>)
      modifies this
      ensures var p := Play(Given(), old(Now()).(runID := ""), 1, o);
              && trace == p.events && iterations == p.iterations
              && succeeded == p.out.Succeeded? && committed == (p.out == Succeeded(true))
    {
      runID := "";
      trace := [];
      ghost var played := Play(Given(), Now(), 1, o);
      StartsWithNothing(played);
      var iter := 1;
      while iter <= maxIterations
        invariant played == After(trace, Play(Given(), Now(), iter, o))
        decreases Larger(maxIterations, MAX_INT32) - iter
      {
        var out;
        out, trace := Round(iter, o, trace, played);
        if !out.NextIteration? {
          return out.Succeeded?, out == Succeeded(true), iter, trace;
        }
        iter := iter + 1;
      }
      NothingAdded(trace);
      return false, false, maxIterations, trace;
    }
  }

  // ----- every run

  lemma {:induction false} ReportsExtend(s: seq<Event>, iter: int, id: string, o: Oracle, attempt: nat,
                                         hasVerify: bool, task: string, runID: string)
    requires Segment(s, iter, hasVerify, task, runID) && FormedID(PRReport(iter, id), task, runID)
    ensures Segment(s + Reports(iter, id, o, attempt), iter, hasVerify, task, runID)
    decreases 4 - attempt
  {
    var e := PRReport(iter, id);
    if attempt > 3 {
      assert s + [] == s;
    } else {
      Extend(s, e, iter, hasVerify, task, runID);
      if o.reportOk(iter, attempt) {
        assert [e] + [] == [e];
      } else {
        ReportsExtend(s + [e], iter, id, o, attempt + 1, hasVerify, task, runID);
        Regroup(s, [e], Reports(iter, id, o, attempt + 1));
      }
    }
  }

  lemma DeliveryExtends(c: Setup, runID: string, iter: int, o: Oracle, probed: bool, s: seq<Event>)
    requires Open(s, iter, c.hasVerify, c.taskName, runID)
    requires c.hasVerify ==> s[|s| - 1] == Verify(iter, true)
    requires probed ==> HealthyTail(s, iter)
    ensures Segment(s + Delivery(c, runID, iter, o, probed).1, iter, c.hasVerify, c.taskName, runID)
  {
    var (out, events) := Delivery(c, runID, iter, o, probed);
    if events == [] {
      assert s + [] == s;
    } else {
      var push := Push(iter, probed);
      PushIsChecked(s, iter, probed, c.hasVerify);
      Extend(s, push, iter, c.hasVerify, c.taskName, runID);
      if |events| > 1 {
        var id := ReportID(c, runID, o.pullRequest(iter).value, o);
        ReportsExtend(s + [push], iter, id, o, 1, c.hasVerify, c.taskName, runID);
        Regroup(s, [push], Reports(iter, id, o, 1));
      } else {
        assert events == [push];
      }
    }
  }

  lemma DeliveryPushes(c: Setup, runID: string, iter: int, o: Oracle, probed: bool)
    ensures Delivery(c, runID, iter, o, probed).0 == Succeeded(true) ==> HasPush(Delivery(c, runID, iter, o, probed).1)
  {
    var (out, events) := Delivery(c, runID, iter, o, probed);
    if out == Succeeded(true) { assert events[0].Push?; }
  }

  lemma ChecksExtend(c: Setup, l: Live, iter: int, o: Oracle, s: seq<Event>)
    requires Open(s, iter, c.hasVerify, c.taskName, l.runID)
    ensures var (passed, checks) := Checks(c, l, iter, o);
            && Open(s + checks, iter, c.hasVerify, c.taskName, l.runID)
            && (passed && c.hasVerify ==> (s + checks)[|s + checks| - 1] == Verify(iter, true))
            && (passed && l.previewURL != "" ==> HealthyTail(s + checks, iter))
  {
    var (passed, checks) := Checks(c, l, iter, o);
    var health := if l.previewURL != "" then [Health(iter, o.healthOk(iter))] else [];
    if l.previewURL != "" { Extend(s, Health(iter, o.healthOk(iter)), iter, c.hasVerify, c.taskName, l.runID); }
    else { assert s + health == s; }
    if checks != health {
      var v := Verify(iter, o.verifyOk(iter));
      Extend(s + health, v, iter, c.hasVerify, c.taskName, l.runID);
      assert s + health + [v] == s + checks;
    }
    if passed && l.previewURL != "" { assert (s + checks)[|s|] == Health(iter, true); }
  }

  ghost predicate Continues(s: seq<Event>, out: Outcome, events: seq<Event>,
                            iter: int, hasVerify: bool, task: string, runID: string) {
    && Segment(s + events, iter, hasVerify, task, runID)
    && (out.NextIteration? ==> NoPush(s + events))
    && (out == Succeeded(true) ==> HasPush(s + events))
  }

  lemma ContinuesAfter(s: seq<Event>, a: seq<Event>, out: Outcome, events: seq<Event>,
                       iter: int, hasVerify: bool, task: string, runID: string)
    requires Continues(s + a, out, events, iter, hasVerify, task, runID)
    ensures Continues(s, out, a + events, iter, hasVerify, task, runID)
  {
    Regroup(s, a, events);
  }

  lemma DeliveryContinues(c: Setup, runID: string, iter: int, o: Oracle, probed: bool, s: seq<Event>)
    requires Open(s, iter, c.hasVerify, c.taskName, runID)
    requires c.hasVerify ==> s[|s| - 1] == Verify(iter, true)
    requires probed ==> HealthyTail(s, iter)
    ensures var d := Delivery(c, runID, iter, o, probed);
            Continues(s, d.0, d.1, iter, c.hasVerify, c.taskName, runID)
  {
    DeliveryExtends(c, runID, iter, o, probed, s);
    DeliveryPushes(c, runID, iter, o, probed);
    var (out, events) := Delivery(c, runID, iter, o, probed);
    if out == Succeeded(true) { PushStays(s, events); }
  }

  lemma CheckedExtends(c: Setup, l: Live, iter: int, o: Oracle, s: seq<Event>)
    requires Open(s, iter, c.hasVerify, c.taskName, l.runID)
    ensures var r := Checked(c, l, iter, o); Continues(s, r.0, r.1, iter, c.hasVerify, c.taskName, l.runID)
  {
    var (passed, checks) := Checks(c, l, iter, o);
    ChecksExtend(c, l, iter, o, s);
    if passed {
      var d := Delivery(c, l.runID, iter, o, l.previewURL != "");
      DeliveryContinues(c, l.runID, iter, o, l.previewURL != "", s + checks);
      ContinuesAfter(s, checks, d.0, d.1, iter, c.hasVerify, c.taskName, l.runID);
    }
  }

  lemma WorkedExtends(c: Setup, l: Live, iter: int, o: Oracle, s: seq<Event>)
    requires Open(s, iter, c.hasVerify, c.taskName, l.runID) && |s| == 1 && s[0].accepted
    ensures var r := Worked(c, l, iter, o); Continues(s, r.0, r.1, iter, c.hasVerify, c.taskName, l.runID)
  {
    if c.hasAgent {
      var r := Checked(c, l, iter, o);
      Extend(s, Agent(iter), iter, c.hasVerify, c.taskName, l.runID);
      CheckedExtends(c, l, iter, o, s + [Agent(iter)]);
      ContinuesAfter(s, [Agent(iter)], r.0, r.1, iter, c.hasVerify, c.taskName, l.runID);
    } else {
      CheckedExtends(c, l, iter, o, s);
    }
  }

  /** The id under which a run reports. */
  function FinalID(c: Setup, o: Oracle): string {
    var id := ChosenRunID(c, "", o);
    if c.taskName == "" || id.None? then "" else id.value
  }

  lemma IteratedIsSegment(c: Setup, l: Live, iter: int, o: Oracle)
    requires l.runID == "" || l.runID == FinalID(c, o)
    ensures var t := Iterated(c, l, iter, o);
            && (t.live.runID == "" || t.live.runID == FinalID(c, o))
            && (t.events == [] ==> t.out == Aborted)
            && (t.events != [] ==> Segment(t.events, iter, c.hasVerify, c.taskName, FinalID(c, o)))
            && (t.out.NextIteration? ==> NoPush(t.events))
            && (t.out == Succeeded(true) ==> HasPush(t.events))
  {
    var t := Iterated(c, l, iter, o);
    if t.events != [] {
      var usage := t.events[0];
      assert t.live.runID == FinalID(c, o);
      assert Open([usage], iter, c.hasVerify, c.taskName, FinalID(c, o));
      if usage.accepted { WorkedExtends(c, t.live, iter, o, [usage]); } else { assert t.events == [usage]; }
    }
  }

  lemma NothingAdded(t: seq<Event>)
    ensures t + [] == t
  {
  }

  /** One more iteration keeps a good trace good. */
  lemma TurnKeepsGood(c: Setup, l: Live, iter: int, o: Oracle, t: seq<Event>)
    requires l.runID == "" || l.runID == FinalID(c, o)
    requires NoPush(t) && GoodTrace(t, iter, c.hasVerify, c.taskName, FinalID(c, o))
    ensures var turn := Iterated(c, l, iter, o);
            && (turn.live.runID == "" || turn.live.runID == FinalID(c, o))
            && GoodTrace(t + turn.events, iter + 1, c.hasVerify, c.taskName, FinalID(c, o))
            && (turn.out.NextIteration? ==> NoPush(t + turn.events))
            && (turn.out == Succeeded(true) ==> HasPush(t + turn.events))
  {
    var turn := Iterated(c, l, iter, o);
    IteratedIsSegment(c, l, iter, o);
    if turn.events == [] {
      NothingAdded(t);
    } else {
      Append(t, turn.events, iter, c.hasVerify, c.taskName, FinalID(c, o));
      if turn.out == Succeeded(true) { PushStays(t, turn.events); }
    }
  }

  /** The rest of a run keeps a good trace good. */
  lemma {:induction false} PlayKeepsGood(c: Setup, l: Live, iter: int, o: Oracle, t: seq<Event>) returns (below: int)
    requires l.runID == "" || l.runID == FinalID(c, o)
    requires NoPush(t) && GoodTrace(t, iter, c.hasVerify, c.taskName, FinalID(c, o))
    ensures var p := Play(c, l, iter, o);
            && GoodTrace(t + p.events, below, c.hasVerify, c.taskName, FinalID(c, o))
            && (p.out == Succeeded(true) ==> HasPush(t + p.events))
    decreases Larger(l.maxIterations, MAX_INT32) - iter
  {
    below := iter;
    NothingAdded(t);
    if iter <= l.maxIterations {
      var turn := Iterated(c, l, iter, o);
      TurnKeepsGood(c, l, iter, o, t);
      below := iter + 1;
      if turn.out.NextIteration? {
        below := PlayKeepsGood(c, turn.live, iter + 1, o, t + turn.events);
        Regroup(t, turn.events, Play(c, turn.live, iter + 1, o).events);
      }
    }
  }

  /** In every run each agent command follows an accepted report of its own iteration, there is at most one push,
      it follows that iteration's own passed checks with no agent command in between, a committed run has pushed,
      and the request ids of a named task are pairwise distinct. */
  lemma EveryRunIsGood(c: Setup, l: Live, o: Oracle)
    requires l.runID == ""
    ensures var p := Play(c, l, 1, o);
            && AgentsAreMetered(p.events) && PushesAreChecked(p.events, c.hasVerify) && PushIsLast(p.events)
            && (p.out == Succeeded(true) ==> HasPush(p.events))
            && (c.taskName != "" ==> IDsAreDistinct(p.events))
  {
    var p := Play(c, l, 1, o);
    var below := PlayKeepsGood(c, l, 1, o, []);
    assert [] + p.events == p.events;
    if c.taskName != "" { FormedIDsAreDistinct(p.events, c.taskName, FinalID(c, o), below); }
  }

  /** Everything outside goes well and a pull request is opened at once. */
  function AllGoesWell(): Oracle {
    Oracle(Some("n"), (i: int) => Metered(true, None), (i: int) => true, (i: int) => true, (i: int) => true,
           (i: int) => Dirty, (i: int) => true, (i: int) => true, (i: int) => true,
           (i: int) => Some("url"), (i: int, k: int) => true, (s: string) => "")
  }

  /** A nameless task reports its usage and its pull request under one id, in its first iteration. */
  lemma NamelessRepeats(c: Setup, l: Live)
    requires c.taskName == "" && l.runID == "" && l.maxIterations >= 1
    ensures !IDsAreDistinct(Play(c, l, 1, AllGoesWell()).events)
  {
    var o := AllGoesWell();
    var t := Play(c, l, 1, o).events;
    var d := Delivery(c, "", 1, o, l.previewURL != "").1;
    assert Reports(1, "", o, 1) == [PRReport(1, "")];
    assert d == [Push(1, l.previewURL != ""), PRReport(1, "")];
    assert t[0] == Usage(1, "", true);
    assert t[|t| - 1] == PRReport(1, "");
  }

  /** Exactly when the request ids of a run are distinct whatever happens outside: when the task has a name, or the
      limit allows no iteration at all. */
  lemma DistinctIDsExactly(c: Setup, l: Live)
    requires l.runID == ""
    ensures (forall o :: IDsAreDistinct(Play(c, l, 1, o).events)) <==> c.taskName != "" || l.maxIterations < 1
  {
    if c.taskName != "" {
      forall o ensures IDsAreDistinct(Play(c, l, 1, o).events) { EveryRunIsGood(c, l, o); }
    } else if l.maxIterations >= 1 {
      NamelessRepeats(c, l);
    }
  }

  ghost predicate LimitsWithin(o: Oracle, b: int) {
    forall i: int :: o.meter(i).response.Some? ==> o.meter(i).response.value.maxIterations <= b
  }

  ghost predicate IterationsWithin(es: seq<Event>, from: int, b: int) {
    forall p :: 0 <= p < |es| ==> from <= es[p].iter <= b
  }

  lemma IteratedInOne(c: Setup, l: Live, iter: int, o: Oracle)
    requires l.runID == "" || l.runID == FinalID(c, o)
    ensures IterationsWithin(Iterated(c, l, iter, o).events, iter, iter)
  {
    IteratedIsSegment(c, l, iter, o);
  }

  /** No run goes on past the largest limit it started with or was sent. */
  lemma {:induction false} RunIsBounded(c: Setup, l: Live, iter: int, o: Oracle, b: int)
    requires l.runID == "" || l.runID == FinalID(c, o)
    requires LimitsWithin(o, b) && l.maxIterations <= b
    ensures IterationsWithin(Play(c, l, iter, o).events, iter, b) && Play(c, l, iter, o).iterations <= b
    decreases Larger(l.maxIterations, MAX_INT32) - iter
  {
    if iter <= l.maxIterations {
      var turn := Iterated(c, l, iter, o);
      IteratedIsSegment(c, l, iter, o);
      IteratedInOne(c, l, iter, o);
      if turn.out.NextIteration? {
        assert o.meter(iter).response.Some? ==> o.meter(iter).response.value.maxIterations <= b;
        RunIsBounded(c, turn.live, iter + 1, o, b);
        var rest := Play(c, turn.live, iter + 1, o).events;
        forall p | 0 <= p < |turn.events + rest| ensures iter <= (turn.events + rest)[p].iter <= b {
          InConcat(turn.events, rest, p);
        }
      }
    }
  }

  lemma PushStays(t: seq<Event>, s: seq<Event>)
    requires HasPush(s)
    ensures HasPush(t + s)
  {
    var p :| 0 <= p < |s| && s[p].Push?;
    assert (t + s)[|t| + p].Push?;
  }

  function Larger(a: int, b: int): int { if a < b then b else a }
}
