/** How a run of the metered agent loop ends, and which events it leaves, read off what happens outside it. */
module AgentRunnerRuns {
  import opened Common
  import opened Text
  import opened AgentRunner

  // ----- what an iteration works with

  /** The last positive limit sent in the first iterations, or the one given at the start. */
  function LimitAfter(given: int, o: Oracle, n: nat): int {
    if n == 0 then given
    else
      var r := o.meter(n).response;
      if r.Some? && r.value.maxIterations > 0 then r.value.maxIterations else LimitAfter(given, o, n - 1)
  }

  /** The last preview URL sent that is not blank, or the one given at the start. */
  function URLAfter(given: string, o: Oracle, n: nat): string {
    if n == 0 then given
    else
      var r := o.meter(n).response;
      if r.Some? && TrimSpace(r.value.previewURL) != "" then TrimSpace(r.value.previewURL)
      else URLAfter(given, o, n - 1)
  }

  /** A run of a named task needs an id: configured, or made from a nonce. */
  predicate Nameable(c: Setup, o: Oracle) { c.taskName == "" || c.configRunID != "" || o.nonce.Some? }

  /** The meter accepted the iteration's report and its agent command, if there is one, succeeded. */
  predicate Works(c: Setup, o: Oracle, i: int) {
    Nameable(c, o) && o.meter(i).accepted && (c.hasAgent ==> o.agentOk(i))
  }

  predicate Healthy(o: Oracle, i: int, url: string) { url != "" ==> o.healthOk(i) }

  predicate Passes(c: Setup, o: Oracle, i: int, url: string) {
    Works(c, o, i) && Healthy(o, i, url) && (c.hasVerify ==> o.verifyOk(i))
  }

  predicate Committed(o: Oracle, i: int) { o.worktree(i) == Dirty && o.addOk(i) && o.commitOk(i) }

  predicate Delivered(o: Oracle, i: int) { Committed(o, i) && o.pushOk(i) }

  // ----- one iteration

  lemma DeliveryExactly(c: Setup, runID: string, iter: int, o: Oracle, probed: bool)
    ensures var out := Delivery(c, runID, iter, o, probed).0;
            && (out == Succeeded(true) <==> Delivered(o, iter))
            && (out == Succeeded(false) <==> o.worktree(iter) == Clean)
            && (out == Aborted <==> o.worktree(iter) != Clean && !Delivered(o, iter))
  {
  }

  lemma ChecksExactly(c: Setup, l: Live, iter: int, o: Oracle)
    ensures Checks(c, l, iter, o).0 <==> Healthy(o, iter, l.previewURL) && (c.hasVerify ==> o.verifyOk(iter))
  {
  }

  ghost predicate Known(c: Setup, l: Live, o: Oracle) { l.runID == "" || l.runID == FinalID(c, o) }

  lemma NameableExactly(c: Setup, l: Live, o: Oracle)
    requires Known(c, l, o) && c.taskName != ""
    ensures ChosenRunID(c, l.runID, o).Some? <==> Nameable(c, o)
    ensures Nameable(c, o) ==> ChosenRunID(c, l.runID, o).value == FinalID(c, o)
  {
  }

  /** How one iteration ends. */
  lemma TurnExactly(c: Setup, l: Live, iter: int, o: Oracle)
    requires Known(c, l, o)
    ensures var t := Iterated(c, l, iter, o);
            var passes := Passes(c, o, iter, t.live.previewURL);
            && (t.out == NextIteration <==> Works(c, o, iter) && !passes)
            && (t.out == Succeeded(true) <==> passes && Delivered(o, iter))
            && (t.out == Succeeded(false) <==> passes && o.worktree(iter) == Clean)
            && (Nameable(c, o) ==> t.live == Adopted(l.(runID := t.live.runID), o.meter(iter)))
            && Known(c, t.live, o)
  {
    var t := Iterated(c, l, iter, o);
    if c.taskName != "" { NameableExactly(c, l, o); }
    if Works(c, o, iter) {
      ChecksExactly(c, t.live, iter, o);
      DeliveryExactly(c, t.live.runID, iter, o, t.live.previewURL != "");
    }
  }

  // ----- the whole run

  function URLAt(l: Live, o: Oracle, n: nat): string { URLAfter(l.previewURL, o, n) }

  predicate Retried(c: Setup, l: Live, o: Oracle, n: nat) { Works(c, o, n) && !Passes(c, o, n, URLAt(l, o, n)) }

  /** The run gets to iteration n: each up to it is within the limit known by then, each before it failed its checks. */
  ghost predicate Reaches(c: Setup, l: Live, o: Oracle, n: nat) {
    && (forall i: nat :: i < n ==> i < LimitAfter(l.maxIterations, o, i))
    && (forall i: nat :: 1 <= i < n ==> Retried(c, l, o, i))
  }

  /** The run ends in iteration n this way and reports k iterations. */
  ghost predicate Ends(c: Setup, l: Live, o: Oracle, n: nat, out: Outcome, k: int) {
    && Reaches(c, l, o, n)
    && var passes := n > 0 && Passes(c, o, n, URLAt(l, o, n));
       match out
       case Succeeded(true) => k == n && passes && Delivered(o, n)
       case Succeeded(false) => k == n && passes && o.worktree(n) == Clean
       case Aborted =>
         n > 0 && k == n && (!Works(c, o, n) || (passes && o.worktree(n) != Clean && !Delivered(o, n)))
       case NextIteration =>
         (n > 0 ==> Retried(c, l, o, n)) && LimitAfter(l.maxIterations, o, n) <= n
         && k == LimitAfter(l.maxIterations, o, n)
  }

  lemma AtMostOneEnd(c: Setup, l: Live, o: Oracle, m: nat, out: Outcome, j: int, n: nat, out': Outcome, k: int)
    requires Ends(c, l, o, m, out, j) && Ends(c, l, o, n, out', k)
    ensures m == n && out == out' && j == k
  {
    if m < n { EndIsFinal(c, l, o, m, out, j, n); }
    if n < m { EndIsFinal(c, l, o, n, out', k, m); }
  }

  lemma EndIsFinal(c: Setup, l: Live, o: Oracle, m: nat, out: Outcome, j: int, n: nat)
    requires Ends(c, l, o, m, out, j) && m < n
    ensures !Reaches(c, l, o, n)
  {
    if Reaches(c, l, o, n) { ReachedBefore(c, l, o, m, n); }
  }

  lemma ReachedBefore(c: Setup, l: Live, o: Oracle, m: nat, n: nat)
    requires Reaches(c, l, o, n) && m < n
    ensures m < LimitAfter(l.maxIterations, o, m) && (m > 0 ==> Retried(c, l, o, m))
  {
  }

  /** The run in progress, about to begin iteration n + 1 of a run that started with `start`. */
  ghost predicate Underway(c: Setup, start: Live, o: Oracle, n: nat, l: Live) {
    && Known(c, l, o) && Reaches(c, start, o, n) && (n > 0 ==> Retried(c, start, o, n))
    && l.maxIterations == LimitAfter(start.maxIterations, o, n) && l.previewURL == URLAt(start, o, n)
  }

  lemma OneMoreReached(c: Setup, start: Live, o: Oracle, n: nat, l: Live)
    requires Underway(c, start, o, n, l) && n + 1 <= l.maxIterations
    ensures Reaches(c, start, o, n + 1)
  {
  }

  lemma OneMoreTurn(c: Setup, start: Live, o: Oracle, n: nat, l: Live)
    requires Underway(c, start, o, n, l) && n + 1 <= l.maxIterations
    ensures var t := Iterated(c, l, n + 1, o);
            if t.out.NextIteration? then Underway(c, start, o, n + 1, t.live)
            else Ends(c, start, o, n + 1, t.out, n + 1)
  {
    var t := Iterated(c, l, n + 1, o);
    OneMoreReached(c, start, o, n, l);
    TurnExactly(c, l, n + 1, o);
    if Nameable(c, o) { assert t.live.previewURL == URLAt(start, o, n + 1); }
  }

  lemma NoMoreTurns(c: Setup, start: Live, o: Oracle, n: nat, l: Live)
    requires Underway(c, start, o, n, l) && n + 1 > l.maxIterations
    ensures Ends(c, start, o, n, NextIteration, l.maxIterations)
  {
  }

  /** How a run goes on: it is over, this iteration ends it, or the next ones do. */
  lemma PlayOnce(c: Setup, l: Live, iter: int, o: Oracle)
    ensures var p, t := Play(c, l, iter, o), Iterated(c, l, iter, o);
            if iter > l.maxIterations then p == Played(NextIteration, l.maxIterations, [])
            else if !t.out.NextIteration? then p == Played(t.out, iter, t.events)
            else p == After(t.events, Play(c, t.live, iter + 1, o))
  {
  }

  lemma {:induction false} PlayEnds(c: Setup, start: Live, o: Oracle, n: nat, l: Live) returns (m: nat)
    requires Underway(c, start, o, n, l)
    ensures var p := Play(c, l, n + 1, o); Ends(c, start, o, m, p.out, p.iterations)
    decreases Larger(l.maxIterations, MAX_INT32) - (n + 1)
  {
    PlayOnce(c, l, n + 1, o);
    if n + 1 > l.maxIterations {
      m := n;
      NoMoreTurns(c, start, o, n, l);
    } else {
      var t := Iterated(c, l, n + 1, o);
      OneMoreTurn(c, start, o, n, l);
      if t.out.NextIteration? { m := PlayEnds(c, start, o, n + 1, t.live); } else { m := n + 1; }
    }
  }

  lemma RunEnds(c: Setup, l: Live, o: Oracle) returns (m: nat)
    requires l.runID == ""
    ensures var p := Play(c, l, 1, o); Ends(c, l, o, m, p.out, p.iterations)
  {
    m := PlayEnds(c, l, o, 0, l);
  }

  /** A run ends in exactly one way, the one that the outside decides. */
  lemma RunEndsExactly(c: Setup, l: Live, o: Oracle, out: Outcome, k: int)
    requires l.runID == ""
    ensures var p := Play(c, l, 1, o); p.out == out && p.iterations == k <==> exists n :: Ends(c, l, o, n, out, k)
  {
    var p := Play(c, l, 1, o);
    var m := RunEnds(c, l, o);
    if n: nat :| Ends(c, l, o, n, out, k) { AtMostOneEnd(c, l, o, m, p.out, p.iterations, n, out, k); }
  }

  /** A run is committed exactly when the iteration it ends in had an accepted report, a good agent command, passed
      checks, something to commit, and a commit and a push that succeeded. */
  lemma CommittedExactly(c: Setup, l: Live, o: Oracle)
    requires l.runID == ""
    ensures Play(c, l, 1, o).out == Succeeded(true)
       <==> exists n: nat :: n > 0 && Reaches(c, l, o, n) && Passes(c, o, n, URLAt(l, o, n)) && Delivered(o, n)
  {
    var p := Play(c, l, 1, o);
    RunEndsExactly(c, l, o, p.out, p.iterations);
    if n: nat :| n > 0 && Reaches(c, l, o, n) && Passes(c, o, n, URLAt(l, o, n)) && Delivered(o, n) {
      assert Ends(c, l, o, n, Succeeded(true), n);
      RunEndsExactly(c, l, o, Succeeded(true), n);
    }
  }

  // ----- which events a run leaves

  /** The id of a report: none for a task without a name. */
  ghost function UsageIDOf(c: Setup, o: Oracle, i: int): string {
    if c.taskName == "" then "" else UsageID(c.taskName, FinalID(c, o), i)
  }

  /** What an iteration leaves once its report was accepted. */
  ghost predicate LeavesAtWork(c: Setup, o: Oracle, e: Event, url: string) {
    match e
    case Usage(_, _, _) => false
    case Agent(i) => o.meter(i).accepted && c.hasAgent
    case Health(i, ok) => Works(c, o, i) && url != "" && ok == o.healthOk(i)
    case Verify(i, ok) => Works(c, o, i) && Healthy(o, i, url) && c.hasVerify && ok == o.verifyOk(i)
    case Push(i, probed) => Passes(c, o, i, url) && Committed(o, i) && probed == (url != "")
    case PRReport(i, id) =>
      && Passes(c, o, i, url) && Delivered(o, i) && o.pullRequest(i).Some? && o.pullRequest(i).value != ""
      && id == ReportID(c, FinalID(c, o), o.pullRequest(i).value, o)
  }

  ghost predicate Leaves(c: Setup, o: Oracle, e: Event, url: string) {
    && Nameable(c, o)
    && if e.Usage? then e.id == UsageIDOf(c, o, e.iter) && e.accepted == o.meter(e.iter).accepted
       else LeavesAtWork(c, o, e, url)
  }

  /** One report, or up to three, until one succeeds. */
  function Attempts(o: Oracle, i: int): nat { if o.reportOk(i, 1) then 1 else if o.reportOk(i, 2) then 2 else 3 }

  lemma ReportsExactly(iter: int, id: string, o: Oracle)
    ensures Reports(iter, id, o, 1) == seq(Attempts(o, iter), _ => PRReport(iter, id))
  {
    var e := PRReport(iter, id);
    assert Reports(iter, id, o, 4) == [];
    assert Reports(iter, id, o, 3) == [e];
    assert !o.reportOk(iter, 2) ==> Reports(iter, id, o, 2) == [e] + [e];
    assert o.reportOk(iter, 2) ==> Reports(iter, id, o, 2) == [e];
  }

  lemma DeliveryLeaves(c: Setup, runID: string, iter: int, o: Oracle, probed: bool, e: Event)
    ensures e in Delivery(c, runID, iter, o, probed).1
       <==> || (e == Push(iter, probed) && Committed(o, iter))
            || (&& Delivered(o, iter) && o.pullRequest(iter).Some? && o.pullRequest(iter).value != ""
                && e == PRReport(iter, ReportID(c, runID, o.pullRequest(iter).value, o)))
  {
    if Delivered(o, iter) && o.pullRequest(iter).Some? && o.pullRequest(iter).value != "" {
      var id := ReportID(c, runID, o.pullRequest(iter).value, o);
      ReportsExactly(iter, id, o);
      assert Reports(iter, id, o, 1)[0] == PRReport(iter, id);
    }
  }

  lemma ChecksLeave(c: Setup, l: Live, iter: int, o: Oracle, e: Event)
    ensures e in Checks(c, l, iter, o).1
       <==> || (e == Health(iter, o.healthOk(iter)) && l.previewURL != "")
            || (e == Verify(iter, o.verifyOk(iter)) && Healthy(o, iter, l.previewURL) && c.hasVerify)
  {
  }

  lemma CheckedLeaves(c: Setup, l: Live, iter: int, o: Oracle, e: Event)
    requires Works(c, o, iter) && (c.taskName != "" ==> l.runID == FinalID(c, o)) && !e.Agent?
    ensures e in Checked(c, l, iter, o).1 <==> e.iter == iter && LeavesAtWork(c, o, e, l.previewURL)
  {
    ChecksExactly(c, l, iter, o);
    ChecksLeave(c, l, iter, o, e);
    DeliveryLeaves(c, l.runID, iter, o, l.previewURL != "", e);
  }

  lemma NoAgentLater(c: Setup, l: Live, iter: int, o: Oracle, i: int)
    ensures Agent(i) !in Checked(c, l, iter, o).1
  {
    ChecksLeave(c, l, iter, o, Agent(i));
    DeliveryLeaves(c, l.runID, iter, o, l.previewURL != "", Agent(i));
  }

  lemma WorkLeaves(c: Setup, l: Live, iter: int, o: Oracle, e: Event)
    requires Nameable(c, o) && o.meter(iter).accepted && (c.taskName != "" ==> l.runID == FinalID(c, o))
    ensures e in Worked(c, l, iter, o).1 <==> e.iter == iter && LeavesAtWork(c, o, e, l.previewURL)
  {
    if e.Agent? { NoAgentLater(c, l, iter, o, e.iter); }
    else if Works(c, o, iter) { CheckedLeaves(c, l, iter, o, e); }
  }

  lemma TurnLeaves(c: Setup, l: Live, iter: int, o: Oracle, e: Event)
    requires Known(c, l, o)
    ensures var t := Iterated(c, l, iter, o);
            e in t.events <==> e.iter == iter && Leaves(c, o, e, t.live.previewURL)
  {
    var t := Iterated(c, l, iter, o);
    if c.taskName != "" { NameableExactly(c, l, o); }
    if Nameable(c, o) && o.meter(iter).accepted { WorkLeaves(c, t.live, iter, o, e); }
  }

  ghost predicate LeftByRun(c: Setup, l: Live, o: Oracle, e: Event) {
    e.iter > 0 && Reaches(c, l, o, e.iter) && Leaves(c, o, e, URLAt(l, o, e.iter))
  }

  lemma TurnLeavesInRun(c: Setup, start: Live, o: Oracle, n: nat, l: Live, e: Event)
    requires Underway(c, start, o, n, l) && n + 1 <= l.maxIterations
    ensures e in Iterated(c, l, n + 1, o).events <==> e.iter == n + 1 && LeftByRun(c, start, o, e)
  {
    OneMoreReached(c, start, o, n, l);
    TurnLeaves(c, l, n + 1, o, e);
    TurnExactly(c, l, n + 1, o);
    if Nameable(c, o) { assert Iterated(c, l, n + 1, o).live.previewURL == URLAt(start, o, n + 1); }
  }

  lemma {:induction false} PlayLeaves(c: Setup, start: Live, o: Oracle, n: nat, l: Live, e: Event)
    requires Underway(c, start, o, n, l)
    ensures e in Play(c, l, n + 1, o).events <==> e.iter > n && LeftByRun(c, start, o, e)
    decreases Larger(l.maxIterations, MAX_INT32) - (n + 1)
  {
    PlayOnce(c, l, n + 1, o);
    if n + 1 > l.maxIterations {
      NoMoreTurns(c, start, o, n, l);
      if e.iter > n { EndIsFinal(c, start, o, n, NextIteration, l.maxIterations, e.iter); }
    } else {
      var t := Iterated(c, l, n + 1, o);
      OneMoreTurn(c, start, o, n, l);
      TurnLeavesInRun(c, start, o, n, l, e);
      if t.out.NextIteration? { PlayLeaves(c, start, o, n + 1, t.live, e); }
      else if e.iter > n + 1 { EndIsFinal(c, start, o, n + 1, t.out, n + 1, e.iter); }
    }
  }

  /** Exactly the events of a run: each iteration it gets to is reported, runs the agent command if there is one, probes
      the preview if a URL is known by then, verifies what is healthy, pushes what passed and was committed, and reports
      the pull request of what was pushed. */
  lemma EventsExactly(c: Setup, l: Live, o: Oracle, e: Event)
    requires l.runID == ""
    ensures e in Play(c, l, 1, o).events <==> LeftByRun(c, l, o, e)
  {
    PlayLeaves(c, l, o, 0, l, e);
  }
}
