/** The baseline-drift ledger: a fingerprint kept as an annotation around every Deploy of a preview environment. */
module DriftLedger {
  import opened Common
  import opened Text

  datatype Policy = Warn | Sync | Ignore

  /** The drift-policy annotation; anything unknown, or nothing, warns. */
  function PolicyOf(raw: string): Policy {
    if EqualFold(TrimSpace(raw), "ignore") then Ignore
    else if ToLower(TrimSpace(raw)) == "sync" then Sync
    else Warn
  }

  /** The word, in letters of any case, with any blanks around it. */
  ghost predicate Spells(raw: string, word: string) {
    exists a, w, b :: raw == a + w + b && Blank(a) && Blank(b) && EqualFold(w, word)
  }

  lemma SpellsExactly(raw: string, word: string)
    requires word != "" && forall i :: 0 <= i < |word| ==> 'a' <= word[i] <= 'z'
    ensures Spells(raw, word) <==> EqualFold(TrimSpace(raw), word)
  {
    if EqualFold(TrimSpace(raw), word) {
      var a, b := BlanksAround(raw);
      assert raw == a + TrimSpace(raw) + b;
    }
    if Spells(raw, word) {
      var a, w, b :| raw == a + w + b && Blank(a) && Blank(b) && EqualFold(w, word);
      LettersAreSolid(w, word);
      TrimBetween(a, w, b);
    }
  }

  lemma LettersAreSolid(w: string, word: string)
    requires EqualFold(w, word) && word != "" && forall i :: 0 <= i < |word| ==> 'a' <= word[i] <= 'z'
    ensures Solid(w)
  {
    var l, m := ToLower(w), ToLower(word);
    assert l[0] == m[0] == word[0] && l[|l| - 1] == m[|m| - 1] == word[|word| - 1];
  }

  lemma LowerWord(word: string)
    requires forall i :: 0 <= i < |word| ==> 'a' <= word[i] <= 'z'
    ensures ToLower(word) == word
  {
  }

  /** Which annotation means which policy. */
  lemma PolicyExactly(raw: string)
    ensures PolicyOf(raw) == Ignore <==> Spells(raw, "ignore")
    ensures PolicyOf(raw) == Sync <==> Spells(raw, "sync")
  {
    SpellsExactly(raw, "ignore");
    SpellsExactly(raw, "sync");
    LowerWord("sync");
    LowerWord("ignore");
  }

  datatype Fingerprint = Unreadable | Fp(value: string)

  /** What one reconcile meets: the fingerprint when first and when last computed, and the calls' outcomes. */
  datatype Oracle = Oracle(first: Fingerprint, last: Fingerprint, hasDeployer: bool, deployOk: bool, persist: Write)

  /** The fingerprint annotation as stored and as held in memory, the two conditions, and the annotation that
      each Deploy of this reconcile saw. */
  datatype Ledger = Ledger(stored: Option<string>, mem: Option<string>, drift: Option<bool>, ready: Option<bool>,
                           deploys: seq<string>)

  function Get(a: Option<string>): string { if a.Some? then a.value else "" }
  function Trimmed(a: Option<string>): string { TrimSpace(Get(a)) }

  function Persisted(l: Ledger, fp: string, o: Oracle): Ledger {
    match o.persist
    case Done => l.(stored := Some(fp), mem := Some(fp))
    case Lost => l
    case DoneUnseen => l.(stored := Some(fp))
  }

  datatype Drifted = Drifted(ledger: Ledger, drifted: bool, synced: bool, ok: bool)

  function AfterDrift(l: Ledger, policy: Policy, fp: Fingerprint, o: Oracle): Drifted {
    if policy == Ignore then Drifted(l, false, false, true)
    else if fp.Unreadable? then Drifted(l, false, false, false)
    else if fp.value == "" then Drifted(l, false, false, true)
    else
      var prev := Trimmed(l.mem);
      if prev == "" then
        var p := Persisted(l, fp.value, o);
        Drifted(if o.persist.Done? then p.(drift := Some(false)) else p, false, false, o.persist.Done?)
      else if prev == fp.value then Drifted(l.(drift := Some(false)), false, false, true)
      else if policy == Sync then AfterSync(l, prev, fp.value, o)
      else Drifted(l.(drift := Some(true)), true, false, true)
  }

  function AfterSync(l: Ledger, prev: string, fp: string, o: Oracle): Drifted {
    var d := l.(mem := Some(prev), deploys := l.deploys + if o.hasDeployer then [fp] else []);
    if o.hasDeployer && !o.deployOk then Drifted(d, true, false, false)
    else
      var p := Persisted(d, fp, o);
      if o.persist.Done? then Drifted(p.(drift := Some(false)), false, true, true) else Drifted(p, true, false, false)
  }

  /** The Deploy of this reconcile, with the fingerprint injected for it when none is recorded yet. */
  function AfterDeploy(l: Ledger, recorded: bool, policy: Policy, o: Oracle): Ledger {
    var inject := !recorded && policy != Ignore && o.first.Fp? && o.first.value != "";
    var seen := if inject then o.first.value else Get(l.mem);
    l.(deploys := l.deploys + [seen], mem := if inject then None else l.mem)
  }

  /** One reconcile and whether it went through. */
  function After(l: Ledger, policy: Policy, o: Oracle): (Ledger, bool) {
    var recorded := Trimmed(l.mem) != "";
    var d := if recorded then AfterDrift(l, policy, o.first, o) else Drifted(l, false, false, true);
    if !d.ok then (d.ledger.(ready := Some(false)), false)
    else
      var deploying := o.hasDeployer && !d.synced;
      var a := if deploying then AfterDeploy(d.ledger, recorded, policy, o) else d.ledger;
      if deploying && !o.deployOk then (a.(ready := Some(false)), false)
      else
        var r := a.(ready := Some(true));
        (if recorded then r else AfterDrift(r, policy, o.last, o).ledger, true)
  }

  // ----- the reconciler: annotations edited in place around the Deploy call

  class Reconciler {
    const policy: Policy
    var stored: Option<string>
    var mem: Option<string>
    var drift: Option<bool>
    var ready: Option<bool>
    var deploys: seq<string>

    /** From the drift-policy annotation and the fingerprint annotation of the environment as read. */
    constructor (driftPolicy: string, stored: Option<string>)
      ensures policy == PolicyOf(driftPolicy) && Books() == Ledger(stored, stored, None, None, [])
    {
      policy := PolicyOf(driftPolicy);
      this.stored, mem, drift, ready, deploys := stored, stored, None, None, [];
    }

    ghost function Books(): Ledger
      reads this
    {
      Ledger(stored, mem, drift, ready, deploys)
    }

    method PersistAnnotation(fp: string, o: Oracle) returns (ok: bool)
      modifies this
      ensures Books() == Persisted(old(Books()), fp, o) && ok == o.persist.Done?
    {
      if !o.persist.Lost? { stored := Some(fp); }
      if o.persist.Done? { mem := Some(fp); }
      ok := o.persist.Done?;
    }

    method Deploy(o: Oracle) returns (ok: bool)
      modifies this`deploys
      ensures deploys == old(deploys) + [Get(mem)] && ok == o.deployOk
    {
      deploys := deploys + [if mem.Some? then mem.value else ""];
      ok := o.deployOk;
    }

    method ReconcileBaselineDrift(fp: Fingerprint, o: Oracle) returns (drifted: bool, synced: bool, ok: bool)
      modifies this
      ensures Drifted(Books(), drifted, synced, ok) == AfterDrift(old(Books()), policy, fp, o)
    {
      if policy == Ignore { return false, false, true; }
      if fp.Unreadable? { return false, false, false; }
      if fp.value == "" { return false, false, true; }
      var prevFP := Trimmed(mem);
      if prevFP == "" {
        ok := PersistAnnotation(fp.value, o);
        if !ok { return false, false, false; }
        drift := Some(false);
        return false, false, true;
      }
      if prevFP == fp.value {
        drift := Some(false);
        return false, false, true;
      }
      if policy == Sync {
        mem := Some(fp.value);
        if o.hasDeployer {
          ok := Deploy(o);
          if !ok {
            mem := Some(prevFP);
            return true, false, false;
          }
        }
        mem := Some(prevFP);
        ok := PersistAnnotation(fp.value, o);
        if !ok { return true, false, false; }
        drift := Some(false);
        return false, true, true;
      }
      drift := Some(true);
      return true, false, true;
    }

    /** Leaves the books exactly as After says, on every exit. */
    method ReconcileDeploy(o: Oracle) returns (ok: bool)
      modifies this
      ensures (Books(), ok) == After(old(Books()), policy, o)
    {
      var prevFP := Trimmed(mem);
      var already := false;
      if prevFP != "" {
        var _, synced, fine := ReconcileBaselineDrift(o.first, o);
        if !fine {
          ready := Some(false);
          return false;
        }
        already := synced;
      }
      if o.hasDeployer && !already {
        var injected := false;
        if prevFP == "" && policy != Ignore {
          if o.first.Fp? && o.first.value != "" {
            mem := Some(o.first.value);
            injected := true;
          }
        }
        ok := Deploy(o);
        if injected { mem := None; }
        if !ok {
          ready := Some(false);
          return false;
        }
      }
      ready := Some(true);
      if prevFP == "" { var _, _, _ := ReconcileBaselineDrift(o.last, o); }
      ok := true;
    }
  }

  // ----- what the ledger promises

  /** A reconcile starts from a freshly read environment. */
  ghost predicate Start(l: Ledger) { l.mem == l.stored && l.deploys == [] }

  /** A fingerprint as computed, "sha256:" and hex digits or nothing, has no surrounding blanks. */
  ghost predicate Proper(fp: Fingerprint) { fp.Fp? && TrimSpace(fp.value) == fp.value }

  /** With the baseline fixed and readable, a reconcile that goes through ran Deploy exactly once, and the stored
      fingerprint is blank or the one that Deploy saw. */
  lemma StoredIsWhatDeploySaw(l: Ledger, policy: Policy, o: Oracle)
    requires Start(l) && Proper(o.first) && o.first == o.last && o.hasDeployer && After(l, policy, o).1
    ensures var r := After(l, policy, o).0;
            |r.deploys| == 1 && (Trimmed(r.stored) == "" || Trimmed(r.stored) == TrimSpace(r.deploys[0]))
  {
  }

  predicate Recorded(l: Ledger) { Trimmed(l.stored) != "" }

  /** A recorded fingerprint cannot be compared: the environment goes no further. */
  predicate CannotCompare(l: Ledger, policy: Policy, o: Oracle) {
    Recorded(l) && policy != Ignore && o.first.Unreadable?
  }

  /** Exactly when a reconcile goes through, and that the ready condition says so on every exit. */
  lemma ReadyExactly(l: Ledger, policy: Policy, o: Oracle)
    requires Start(l)
    ensures After(l, policy, o).1
       <==> && !CannotCompare(l, policy, o) && (o.hasDeployer ==> o.deployOk)
            && (SyncBegins(l, policy, o) ==> o.persist.Done?)
    ensures After(l, policy, o).0.ready == Some(After(l, policy, o).1)
  {
  }

  /** What each Deploy saw: there is one, unless there is no deployer or nothing to compare with, and it is given the
      new fingerprint by a sync or where none is recorded, otherwise what is stored. */
  lemma DeploysExactly(l: Ledger, policy: Policy, o: Oracle)
    requires Start(l)
    ensures After(l, policy, o).0.deploys
         == if !o.hasDeployer || CannotCompare(l, policy, o) then []
            else if SyncBegins(l, policy, o) || Injects(l, policy, o) then [o.first.value]
            else [Get(l.stored)]
  {
  }

  /** What is stored afterwards, and what the drift condition says. */
  lemma StoredExactly(l: Ledger, policy: Policy, o: Oracle)
    requires Start(l)
    ensures After(l, policy, o).0.stored
         == if Patches(l, policy, o) && o.persist.Took()
            then Some(if Recorded(l) then o.first.value else o.last.value) else l.stored
    ensures After(l, policy, o).0.drift
         == if Patches(l, policy, o) then (if o.persist.Done? then Some(false) else l.drift)
            else if Recorded(l) && policy != Ignore && Known(o.first) && !SyncBegins(l, policy, o)
            then Some(o.first.value != Trimmed(l.stored)) else l.drift
  {
    TrimTwice(Get(l.stored), IsSpace);
    assert TrimSpace("") == "";
  }

  /** The baseline must hold still: one that moves between the two readings is recorded though never deployed. */
  lemma MovedBaselineIsRecorded(l: Ledger, policy: Policy, o: Oracle)
    requires Start(l) && Trimmed(l.stored) == "" && policy != Ignore && o.hasDeployer && o.deployOk && o.persist.Done?
    requires Proper(o.first) && Proper(o.last) && o.first.value != "" && o.last.value != ""
    ensures After(l, policy, o).1
    ensures var r := After(l, policy, o).0; Trimmed(r.stored) == TrimSpace(r.deploys[0]) <==> o.first == o.last
  {
  }

  /** The reconcile stops before it writes the drift condition: the Deploy or the patch that comes first fails. */
  predicate DriftUnwritten(l: Ledger, policy: Policy, o: Oracle) {
    && (Trimmed(l.stored) == "" || SyncBegins(l, policy, o))
    && ((o.hasDeployer && !o.deployOk) || !o.persist.Done?)
  }

  /** The drift condition is True exactly when the stored fingerprint differs from the current one. */
  ghost predicate DriftTold(l: Ledger, policy: Policy, o: Oracle)
    requires o.first.Fp?
  {
    var r := After(l, policy, o).0;
    r.drift == Some(true) <==> Trimmed(r.stored) != o.first.value
  }

  /** For a policy that looks and a nonempty fingerprint, on every exit: the condition tells the truth, except exactly
      when it was not written and the old one happens to be wrong about what is stored now. A reconcile that goes
      through, its patch included, has always written it. */
  lemma DriftConditionExact(l: Ledger, policy: Policy, o: Oracle)
    requires Start(l) && policy != Ignore && Proper(o.first) && o.first == o.last && o.first.value != ""
    ensures DriftTold(l, policy, o)
       <==> (DriftUnwritten(l, policy, o) ==>
               (l.drift == Some(true) <==> !(Patches(l, policy, o) && o.persist.Took())))
    ensures !DriftUnwritten(l, policy, o) ==> After(l, policy, o).0.drift.Some?
    ensures After(l, policy, o).1 && o.persist.Done? ==> !DriftUnwritten(l, policy, o)
  {
    TrimTwice(Get(l.stored), IsSpace);
  }

  /** A sync whose Deploy fails leaves the condition False although the stored fingerprint differs. */
  lemma FailedSyncHidesDrift(was: string, fp: string)
    requires was != "" && TrimSpace(was) == was && fp != "" && TrimSpace(fp) == fp && was != fp
    ensures var o := Oracle(Fp(fp), Fp(fp), true, false, Done);
            var (r, ok) := After(Ledger(Some(was), Some(was), Some(false), None, []), Sync, o);
            !ok && r.drift == Some(false) && r.stored == Some(was)
  {
  }

  /** Under the sync policy drift never outlives a reconcile that goes through. */
  lemma SyncConverges(l: Ledger, o: Oracle)
    requires Start(l) && Proper(o.first) && o.first == o.last && o.first.value != ""
    requires o.persist.Done? && After(l, Sync, o).1
    ensures Trimmed(After(l, Sync, o).0.stored) == o.first.value && After(l, Sync, o).0.drift == Some(false)
  {
  }

  /** Absent, or a value without surrounding blanks: all the controller itself ever writes. */
  ghost predicate Normal(a: Option<string>) { a.Some? ==> a.value != "" && TrimSpace(a.value) == a.value }

  ghost predicate InStep(l: Ledger, policy: Policy, o: Oracle) {
    var r := After(l, policy, o).0;
    r.mem == r.stored
  }

  ghost predicate ProperOracle(o: Oracle) {
    (o.first.Fp? ==> Proper(o.first)) && (o.last.Fp? ==> Proper(o.last))
  }

  predicate Known(fp: Fingerprint) { fp.Fp? && fp.value != "" }

  /** Drift is found and the policy is to sync. */
  predicate SyncBegins(l: Ledger, policy: Policy, o: Oracle) {
    Trimmed(l.stored) != "" && policy == Sync && Known(o.first) && o.first.value != Trimmed(l.stored)
  }

  /** Nothing is recorded yet, and the Deploy is given the fingerprint beforehand. */
  predicate Injects(l: Ledger, policy: Policy, o: Oracle) {
    Trimmed(l.stored) == "" && o.hasDeployer && policy != Ignore && Known(o.first)
  }

  /** The reconcile gets as far as patching the annotation. */
  predicate Patches(l: Ledger, policy: Policy, o: Oracle) {
    && (o.hasDeployer ==> o.deployOk)
    && if Trimmed(l.stored) == "" then policy != Ignore && Known(o.last) else SyncBegins(l, policy, o)
  }

  /** Memory and store part: the patch took although an error came back; or no patch took, and a sync put the stored
      value back without its blanks or the injected fingerprint was deleted over a blank one. */
  predicate Parts(l: Ledger, policy: Policy, o: Oracle) {
    if Patches(l, policy, o) && o.persist.Took() then o.persist.DoneUnseen?
    else
      || (SyncBegins(l, policy, o) && l.stored != Some(Trimmed(l.stored)))
      || (Injects(l, policy, o) && l.stored.Some?)
  }

  /** On every exit, failing ones included, the annotation in memory is the stored one, except exactly as said. */
  lemma InStepExactly(l: Ledger, policy: Policy, o: Oracle)
    requires Start(l) && ProperOracle(o)
    ensures InStep(l, policy, o) <==> !Parts(l, policy, o)
  {
    TrimTwice(Get(l.stored), IsSpace);
  }

  /** An unseen patch, in a reconcile that goes through: the fingerprint is stored and memory has none. */
  lemma UnseenPatchParts(fp: string, drift: Option<bool>)
    requires fp != "" && TrimSpace(fp) == fp
    ensures var o := Oracle(Fp(fp), Fp(fp), true, true, DoneUnseen);
            var (r, ok) := After(Ledger(None, None, drift, None, []), Warn, o);
            ok && r.stored == Some(fp) && r.mem == None
  {
    assert TrimSpace("") == "";
  }

  /** From a stored value without blanks only an unseen patch parts them, and the value keeps being without blanks. */
  lemma NormalStaysInStep(l: Ledger, policy: Policy, o: Oracle)
    requires Start(l) && Normal(l.stored) && ProperOracle(o)
    ensures InStep(l, policy, o) <==> !(Patches(l, policy, o) && o.persist.DoneUnseen?)
    ensures Normal(After(l, policy, o).0.stored)
  {
    InStepExactly(l, policy, o);
  }

  /** Leaving unseen patches aside, all reconciles of a stored value stay in step exactly when it is absent or has
      no surrounding blanks. */
  lemma InStepForAllExactly(l: Ledger)
    requires Start(l)
    ensures (forall policy, o :: ProperOracle(o) && !o.persist.DoneUnseen? ==> InStep(l, policy, o))
       <==> Normal(l.stored)
  {
    if Normal(l.stored) {
      forall policy, o | ProperOracle(o) && !o.persist.DoneUnseen? ensures InStep(l, policy, o) {
        NormalStaysInStep(l, policy, o);
      }
    } else {
      var fp := if Trimmed(l.stored) == "a" then "b" else "a";
      assert TrimSpace(fp) == fp by { assert !IsSpace(fp[0]); }
      var o := Oracle(Fp(fp), Fp(fp), true, false, Lost);
      BlanksFallOut(l, o);
    }
  }

  lemma BlanksFallOut(l: Ledger, o: Oracle)
    requires Start(l) && !Normal(l.stored)
    requires Proper(o.first) && o.first.value != "" && o.first.value != Trimmed(l.stored)
    requires o.hasDeployer && !o.deployOk
    ensures !InStep(l, Sync, o)
  {
  }

  /** Up to surrounding blanks only an unseen patch parts them, whatever was stored. */
  lemma InStepUpToBlanks(l: Ledger, policy: Policy, o: Oracle)
    requires Start(l) && ProperOracle(o)
    ensures Trimmed(After(l, policy, o).0.mem) == Trimmed(After(l, policy, o).0.stored)
       <==> !(Patches(l, policy, o) && o.persist.DoneUnseen?)
  {
    InStepExactly(l, policy, o);
    if Parts(l, policy, o) {
      if Patches(l, policy, o) && o.persist.DoneUnseen? {
        UnseenPatchShows(l, policy, o);
      } else {
        BlanksTrim(l, policy, o);
      }
    }
  }

  lemma UnseenPatchShows(l: Ledger, policy: Policy, o: Oracle)
    requires Start(l) && ProperOracle(o) && Patches(l, policy, o) && o.persist.DoneUnseen?
    ensures Trimmed(After(l, policy, o).0.mem) != Trimmed(After(l, policy, o).0.stored)
  {
    TrimTwice(Get(l.stored), IsSpace);
    assert TrimSpace("") == "";
  }

  lemma BlanksTrim(l: Ledger, policy: Policy, o: Oracle)
    requires Start(l) && Parts(l, policy, o) && !(Patches(l, policy, o) && o.persist.Took())
    ensures Trimmed(After(l, policy, o).0.mem) == Trimmed(After(l, policy, o).0.stored)
  {
    TrimTwice(Get(l.stored), IsSpace);
    assert TrimSpace("") == "";
  }

  // ----- runs

  /** One reconcile after another, the environment read afresh each time; the policy and baseline may change. */
  function RunFrom(stored: Option<string>, drift: Option<bool>, rounds: seq<(Policy, Oracle)>)
    : (Option<string>, Option<bool>)
    decreases |rounds|
  {
    if rounds == [] then (stored, drift)
    else
      var r := After(Ledger(stored, stored, drift, None, []), rounds[0].0, rounds[0].1).0;
      RunFrom(r.stored, r.drift, rounds[1..])
  }

  lemma {:induction false} RunStaysNormal(stored: Option<string>, drift: Option<bool>, rounds: seq<(Policy, Oracle)>)
    requires Normal(stored) && forall i :: 0 <= i < |rounds| ==> ProperOracle(rounds[i].1)
    ensures Normal(RunFrom(stored, drift, rounds).0)
    decreases |rounds|
  {
    if rounds != [] {
      var l := Ledger(stored, stored, drift, None, []);
      NormalStaysInStep(l, rounds[0].0, rounds[0].1);
      var r := After(l, rounds[0].0, rounds[0].1).0;
      RunStaysNormal(r.stored, r.drift, rounds[1..]);
    }
  }

  /** In every run of a new environment, unseen patches included, an exit leaves memory and store apart exactly when
      that very reconcile's patch took unseen; the next reconcile reads the store again. */
  lemma EveryReconcileInStep(rounds: seq<(Policy, Oracle)>, policy: Policy, o: Oracle)
    requires (forall i :: 0 <= i < |rounds| ==> ProperOracle(rounds[i].1)) && ProperOracle(o)
    ensures var (stored, drift) := RunFrom(None, None, rounds);
            var l := Ledger(stored, stored, drift, None, []);
            InStep(l, policy, o) <==> !(Patches(l, policy, o) && o.persist.DoneUnseen?)
  {
    RunStaysNormal(None, None, rounds);
    var (stored, drift) := RunFrom(None, None, rounds);
    NormalStaysInStep(Ledger(stored, stored, drift, None, []), policy, o);
  }
}
