/** `diverge dev --watch-env`: the watcher polls the preview group and reports environment changes. */
module ConfigWatcher {
  import opened Text

  type EnvMap = map<string, string>

  /** One poll that reached the cluster: the environment it yields and whether the group is Running. */
  datatype Snapshot = Snapshot(env: EnvMap, running: bool)

  function Describe(prev: EnvMap, current: EnvMap, k: string): string
    requires k in prev || k in current
  {
    if k !in prev then current[k] + " (added)"
    else if k !in current then prev[k] + " (removed)"
    else prev[k] + " → " + current[k]
  }

  /** The keys on which two environments differ, each described. */
  ghost function EnvDiff(prev: EnvMap, current: EnvMap): map<string, string> {
    map k | k in prev.Keys + current.Keys && !(k in prev && k in current && prev[k] == current[k])
      :: Describe(prev, current, k)
  }

  /** The diff is empty exactly when nothing changed. */
  lemma EmptyDiffMeansEqual(prev: EnvMap, current: EnvMap)
    ensures EnvDiff(prev, current) == map[] <==> prev == current
  {
    var d := EnvDiff(prev, current);
    if d == map[] {
      forall k | k in prev.Keys + current.Keys ensures k in prev && k in current && prev[k] == current[k] {
        assert k !in d;
      }
      assert prev.Keys == current.Keys;
    }
  }

  /** What is announced tells the change: from the same environment, equal diffs come from equal changes. */
  lemma DiffTellsChange(prev: EnvMap, current: EnvMap, other: EnvMap)
    requires EnvDiff(prev, current) == EnvDiff(prev, other)
    ensures current == other
  {
    forall k | k in prev.Keys + current.Keys + other.Keys
      ensures (k in current <==> k in other) && (k in current ==> current[k] == other[k])
    {
      SameAt(prev, current, other, k);
    }
    assert current.Keys == other.Keys;
  }

  lemma SameAt(prev: EnvMap, current: EnvMap, other: EnvMap, k: string)
    requires EnvDiff(prev, current) == EnvDiff(prev, other)
    ensures (k in current <==> k in other) && (k in current ==> current[k] == other[k])
  {
    var d, e := EnvDiff(prev, current), EnvDiff(prev, other);
    assert k in d <==> k in e;
    if k in d {
      assert d[k] == Describe(prev, current, k) && e[k] == Describe(prev, other, k);
      DescribedSame(prev, current, other, k);
    }
  }

  lemma DescribedSame(prev: EnvMap, current: EnvMap, other: EnvMap, k: string)
    requires k in prev || (k in current && k in other)
    requires Describe(prev, current, k) == Describe(prev, other, k)
    ensures (k in current <==> k in other) && (k in current ==> current[k] == other[k])
  {
    if k !in prev {
      Cut(current[k], " (added)");
      Cut(other[k], " (added)");
    } else {
      NotBoth(prev[k]);
      if k in current { After(prev[k] + " → ", current[k]); }
      if k in other { After(prev[k] + " → ", other[k]); }
    }
  }

  lemma Cut(v: string, end: string)
    ensures (v + end)[..|v + end| - |end|] == v
  {
  }

  lemma After(start: string, v: string)
    ensures (start + v)[|start|..] == v
  {
  }

  /** A removal is never described like a change. */
  lemma NotBoth(v: string)
    ensures forall w :: v + " (removed)" != v + " → " + w
  {
    forall w ensures v + " (removed)" != v + " → " + w {
      assert (v + " (removed)")[|v| + 1] == '(' && (v + " → " + w)[|v| + 1] == '→';
    }
  }

  /** The diff so far is right about k. */
  ghost predicate Settled(prev: EnvMap, current: EnvMap, diff: map<string, string>, k: string)
    requires k in prev || k in current
  {
    if k in prev && k in current && prev[k] == current[k] then k !in diff
    else k in diff && diff[k] == Describe(prev, current, k)
  }

  lemma SettledIsDiff(prev: EnvMap, current: EnvMap, diff: map<string, string>)
    requires diff.Keys <= current.Keys + prev.Keys
    requires forall k :: k in current.Keys + prev.Keys ==> Settled(prev, current, diff, k)
    ensures diff == EnvDiff(prev, current)
  {
    var d := EnvDiff(prev, current);
    forall k | k in current.Keys + prev.Keys ensures k in diff <==> k in d {
      assert Settled(prev, current, diff, k);
    }
    assert diff.Keys == d.Keys;
    forall k | k in d ensures diff[k] == d[k] {
      assert Settled(prev, current, diff, k);
    }
  }

  /** What a poll does to the remembered environment, and whether it announces a change. */
  function Synced(latest: Option<EnvMap>, poll: Option<Snapshot>): (Option<EnvMap>, bool) {
    if poll.None? then (latest, false)
    else if latest.None? then (Some(poll.value.env), false)
    else if poll.value.running && poll.value.env != latest.value then (Some(poll.value.env), true)
    else (latest, false)
  }

  /** After a poll of a running group the remembered environment is the group's; any other poll leaves one that is
      known alone. A change of a known environment is announced, and nothing else is. */
  lemma PollFollowsGroup(latest: Option<EnvMap>, poll: Option<Snapshot>)
    ensures var (now, announce) := Synced(latest, poll);
            && (poll.Some? && (poll.value.running || latest.None?) ==> now == Some(poll.value.env))
            && (poll.None? || (latest.Some? && !poll.value.running) ==> now == latest)
            && (announce <==> latest.Some? && now != latest)
  {
  }

  class Watcher {
    var lastEnvMap: Option<EnvMap>

    constructor ()
      ensures lastEnvMap == None
    {
      lastEnvMap := None;
    }

    method ComputeEnvDiff(current: EnvMap) returns (diff: map<string, string>)
      ensures diff == if lastEnvMap.None? then map[] else EnvDiff(lastEnvMap.value, current)
    {
      if lastEnvMap.None? { return map[]; }
      var prev := lastEnvMap.value;
      diff := map[];
      var todo := current.Keys;
      while todo != {}
        invariant todo <= current.Keys && diff.Keys <= current.Keys - todo
        invariant forall k :: k in current.Keys - todo ==> Settled(prev, current, diff, k)
        decreases todo
      {
        var k :| k in todo;
        ghost var before := diff;
        if k !in prev {
          diff := diff[k := current[k] + " (added)"];
        } else if prev[k] != current[k] {
          diff := diff[k := prev[k] + " → " + current[k]];
        }
        forall j | j in current.Keys - (todo - {k}) ensures Settled(prev, current, diff, j) {
          if j != k { assert Settled(prev, current, before, j); }
        }
        todo := todo - {k};
      }
      todo := prev.Keys;
      while todo != {}
        invariant todo <= prev.Keys && diff.Keys <= current.Keys + (prev.Keys - todo)
        invariant forall k :: k in current.Keys + (prev.Keys - todo) ==> Settled(prev, current, diff, k)
        decreases todo
      {
        var k :| k in todo;
        ghost var before := diff;
        if k !in current { diff := diff[k := prev[k] + " (removed)"]; }
        forall j | j in current.Keys + (prev.Keys - (todo - {k})) ensures Settled(prev, current, diff, j) {
          if j != k || j in current { assert Settled(prev, current, before, j); }
        }
        todo := todo - {k};
      }
      SettledIsDiff(prev, current, diff);
    }

    /** Returns the change to announce, if any; the first environment ever seen is only remembered. */
    method SyncOnce(poll: Option<Snapshot>) returns (announced: Option<map<string, string>>)
      modifies this
      ensures (lastEnvMap, announced.Some?) == Synced(old(lastEnvMap), poll)
      ensures announced.Some? ==> announced.value == EnvDiff(old(lastEnvMap).value, poll.value.env)
    {
      announced := None;
      if poll.None? { return; }
      var envMap := poll.value.env;
      if lastEnvMap.Some? { EmptyDiffMeansEqual(lastEnvMap.value, envMap); }
      if poll.value.running {
        var diff := ComputeEnvDiff(envMap);
        if |diff| > 0 {
          lastEnvMap := Some(envMap);
          announced := Some(diff);
        }
      }
      if lastEnvMap == None { lastEnvMap := Some(envMap); }
    }
  }
}
