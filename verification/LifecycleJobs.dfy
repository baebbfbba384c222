/** What the repository's lock scripts are for (desktop/app.go): what a turn, a build, a
    setter, a rebuild and a mutation hold while they do their work, and which of them
    therefore never work at the same time. */
module LifecycleJobs {
  import opened Options
  import opened LifecycleLocks

  /** What a thread has arrived to do. */
  datatype Job =
    | Turn(tab: Tab)
    | Build
    | Setter(tab: Tab)
    | Rebuild(tab: Tab, repairs: nat)
    | Mutation(tabs: seq<Tab>)

  predicate Sensible(job: Job) {
    job.Mutation? ==> DistinctTabs(job.tabs)
  }

  function ScriptOf(job: Job): seq<Op> {
    match job
    case Turn(tab) => TurnScript(tab)
    case Build => BUILD_SCRIPT
    case Setter(tab) => SetterScript(tab)
    case Rebuild(tab, repairs) => RebuildScript(tab, repairs)
    case Mutation(tabs) => MutationScript(tabs)
  }

  /** The work has begun and not ended. */
  predicate AtWork(script: seq<Op>, pc: nat)
    requires pc <= |script|
  {
    exists k :: 0 <= k < pc && script[k] == Begin && forall e :: k < e < pc ==> script[e] != End
  }

  /** In state s thread i, which arrived for the job, is at work on it. */
  predicate Works(s: State, i: nat, job: Job) {
    && i < |s.threads| && s.threads[i].script == ScriptOf(job)
    && s.threads[i].pc <= |s.threads[i].script| && AtWork(s.threads[i].script, s.threads[i].pc)
  }

  predicate HasGate(l: Locks, i: nat, tab: Tab) {
    tab in l.gates && l.gates[tab] == i
  }

  /** The locks thread i must have for the job. */
  predicate Secured(l: Locks, i: nat, job: Job) {
    match job
    case Turn(tab) => i in l.readers && HasGate(l, i, tab)
    case Build => i in l.readers
    case Setter(tab) => HasGate(l, i, tab)
    case Rebuild(tab, _) => l.rebuild == Some(i) && HasGate(l, i, tab)
    case Mutation(tabs) =>
      l.rebuild == Some(i) && l.writer == Some(i) && forall tab :: tab in tabs ==> HasGate(l, i, tab)
  }

  /** The same of what one thread holds. */
  predicate Suffices(h: Held, job: Job) {
    match job
    case Turn(tab) => h.read && tab in h.gates
    case Build => h.read
    case Setter(tab) => tab in h.gates
    case Rebuild(tab, _) => h.rebuild && tab in h.gates
    case Mutation(tabs) => h.rebuild && h.write && forall tab :: tab in tabs ==> tab in h.gates
  }

  // --------------------------------------------------- along one script

  lemma {:induction false} LeadsThere(script: seq<Op>, p: nat, ops: seq<Op>, b: Held)
    requires p + |ops| <= |script| && script[p..p + |ops|] == ops && Leads(HeldAt(script, p), ops, b)
    ensures HeldAt(script, p + |ops|) == b
    decreases |ops|
  {
    if ops != [] {
      assert script[p] == ops[0] && script[p + 1..p + |ops|] == ops[1..];
      LeadsThere(script, p + 1, ops[1..], b);
    }
  }

  lemma ShortJobsHold(job: Job, pc: nat)
    requires (job.Turn? || job.Build? || job.Setter?) && pc <= |ScriptOf(job)| && AtWork(ScriptOf(job), pc)
    ensures Suffices(HeldAt(ScriptOf(job), pc), job)
  {
    var script := ScriptOf(job);
    var k :| 0 <= k < pc && script[k] == Begin && forall e :: k < e < pc ==> script[e] != End;
    assert script[k + 1] == End && pc == k + 1;
    assert HeldAt(script, 1) == After(NOTHING, script[0]);
    assert HeldAt(script, 2) == After(HeldAt(script, 1), script[1]);
    assert HeldAt(script, pc) == HeldAt(script, k);
  }

  lemma {:induction false} RepairsOnly(n: nat)
    ensures |Repairs(n)| == 2 * n && forall k :: 0 <= k < 2 * n ==> Repairs(n)[k] in {RLock, RUnlock}
  {
    if n > 0 {
      RepairsOnly(n - 1);
    }
  }

  lemma {:induction false} RebuildHolds(tab: Tab, repairs: nat, pc: nat)
    requires 3 <= pc <= |RebuildScript(tab, repairs)| - 3
    ensures Suffices(HeldAt(RebuildScript(tab, repairs), pc), Rebuild(tab, repairs))
  {
    var script := RebuildScript(tab, repairs);
    if pc == 3 {
      assert HeldAt(script, 1) == After(NOTHING, LockRebuild);
      assert HeldAt(script, 2) == After(HeldAt(script, 1), LockGate(tab));
      assert HeldAt(script, 3) == After(HeldAt(script, 2), Begin);
    } else {
      RebuildHolds(tab, repairs, pc - 1);
      RepairsOnly(repairs);
      assert script[pc - 1] == Repairs(repairs)[pc - 4];
    }
  }

  lemma RebuildAtWork(tab: Tab, repairs: nat, pc: nat)
    requires pc <= |RebuildScript(tab, repairs)|
    ensures AtWork(RebuildScript(tab, repairs), pc) <==> 3 <= pc <= |RebuildScript(tab, repairs)| - 3
  {
    var script := RebuildScript(tab, repairs);
    RepairsOnly(repairs);
    var end := |script| - 3;
    assert script == [LockRebuild, LockGate(tab), Begin] + Repairs(repairs) + [End, UnlockGate(tab), UnlockRebuild];
    assert forall k :: 3 <= k < end ==> script[k] == Repairs(repairs)[k - 3];
    hide RebuildScript, Repairs;
    OneStretch(script, 2, end, pc);
  }

  /** With one Begin and an End behind it, the work lies in between. */
  lemma OneStretch(script: seq<Op>, begin: nat, end: nat, pc: nat)
    requires begin < end < |script| && pc <= |script| && script[begin] == Begin && script[end] == End
    requires forall k :: 0 <= k < |script| && k != begin ==> script[k] != Begin
    requires forall k :: begin < k < end ==> script[k] != End
    ensures AtWork(script, pc) <==> begin < pc <= end
  {
  }

  lemma {:induction false} GateOpsOnly(tabs: seq<Tab>, n: nat)
    requires n <= |tabs|
    ensures |GateOps(tabs, n)| == n && forall k :: 0 <= k < n ==> GateOps(tabs, n)[k].LockGate?
  {
    if n > 0 {
      GateOpsOnly(tabs, n - 1);
    }
  }

  lemma {:induction false} UngateOpsOnly(tabs: seq<Tab>, n: nat)
    requires n <= |tabs|
    ensures |UngateOps(tabs, n)| == n && forall k :: 0 <= k < n ==> UngateOps(tabs, n)[k].UnlockGate?
  {
    if n > 0 {
      UngateOpsOnly(tabs, n - 1);
    }
  }

  lemma MutationAtWork(tabs: seq<Tab>, pc: nat)
    requires pc <= |MutationScript(tabs)|
    ensures AtWork(MutationScript(tabs), pc) <==> pc == |tabs| + 4
  {
    var script, n := MutationScript(tabs), |tabs|;
    GateOpsOnly(tabs, n);
    UngateOpsOnly(tabs, n);
    var locks, unlocks := [LockRebuild, Announce, AcquireWrite] + GateOps(tabs, n),
      UngateOps(tabs, n) + [UnlockWrite, UnlockRebuild];
    assert script == locks + [Begin, End] + unlocks;
    assert forall k :: 0 <= k < |locks| ==> script[k] == locks[k];
    assert forall k :: 0 <= k < |unlocks| ==> unlocks[k] != Begin;
    assert forall k :: 0 <= k < |locks| ==> locks[k] != Begin;
    forall k | 0 <= k < |script| && k != n + 3 ensures script[k] != Begin {
      assert k < |locks| || k == n + 4 || script[k] == unlocks[k - |locks| - 2];
    }
    hide MutationScript, GateOps, UngateOps;
    OneStretch(script, n + 3, n + 4, pc);
  }

  lemma MutationHolds(tabs: seq<Tab>)
    requires DistinctTabs(tabs)
    ensures |MutationScript(tabs)| > |tabs| + 4
    ensures Suffices(HeldAt(MutationScript(tabs), |tabs| + 4), Mutation(tabs))
  {
    var script, n, enter := MutationScript(tabs), |tabs|, [LockRebuild, Announce, AcquireWrite];
    GateOpsOnly(tabs, n);
    GatesLead(tabs, n);
    LeadsThree(NOTHING, LockRebuild, Announce, AcquireWrite, Mutating({}));
    assert script[0..3] == enter && script[3..3 + n] == GateOps(tabs, n) && script[n + 3] == Begin;
    LeadsThere(script, 0, enter, Mutating({}));
    LeadsThere(script, 3, GateOps(tabs, n), Mutating(TabSet(tabs, n)));
    assert HeldAt(script, n + 4) == Mutating(TabSet(tabs, n));
    forall tab | tab in tabs ensures tab in TabSet(tabs, n) {
      var k :| 0 <= k < n && tabs[k] == tab;
    }
  }

  /** At work, a thread holds what its job needs. */
  lemma JobHolds(job: Job, pc: nat)
    requires Sensible(job) && pc <= |ScriptOf(job)| && AtWork(ScriptOf(job), pc)
    ensures Suffices(HeldAt(ScriptOf(job), pc), job)
  {
    hide HeldAt, Suffices, AtWork;
    match job {
      case Rebuild(tab, repairs) =>
        RebuildAtWork(tab, repairs, pc);
        RebuildHolds(tab, repairs, pc);
      case Mutation(tabs) =>
        MutationAtWork(tabs, pc);
        MutationHolds(tabs);
      case _ => ShortJobsHold(job, pc);
    }
  }

  /** Every job does come to its work, and its script is disciplined. */
  lemma JobsWork(job: Job) returns (pc: nat)
    requires Sensible(job)
    ensures Disciplined(ScriptOf(job)) && pc <= |ScriptOf(job)| && AtWork(ScriptOf(job), pc)
  {
    hide Disciplined;
    match job {
      case Turn(tab) => SmallScriptsAreDisciplined(tab); pc := 3; assert ScriptOf(job)[2] == Begin;
      case Build => SmallScriptsAreDisciplined(0); pc := 2; assert ScriptOf(job)[1] == Begin;
      case Setter(tab) => SmallScriptsAreDisciplined(tab); pc := 2; assert ScriptOf(job)[1] == Begin;
      case Rebuild(tab, repairs) =>
        RebuildIsDisciplined(tab, repairs);
        RebuildAtWork(tab, repairs, 3);
        pc := 3;
      case Mutation(tabs) =>
        MutationIsDisciplined(tabs);
        MutationHolds(tabs);
        MutationAtWork(tabs, |tabs| + 4);
        pc := |tabs| + 4;
    }
  }

  // ------------------------------------------------------------- over runs

  lemma LocksRecord(s: State, i: nat, job: Job)
    requires Inv(s) && i < |s.threads| && Suffices(HeldBy(s.threads[i]), job)
    ensures Secured(s.locks, i, job)
  {
    var held := HeldByAll(s.threads);
    assert held[i] == HeldBy(s.threads[i]);
    hide Disciplined, HeldBy, GatesMatch;
    GatesRecorded(s.locks.gates, held, i);
  }

  lemma GatesRecorded(gates: map<Tab, nat>, held: seq<Held>, i: nat)
    requires GatesMatch(gates, held) && i < |held|
    ensures forall tab :: tab in held[i].gates ==> tab in gates && gates[tab] == i
  {
  }

  /** In every run, whatever else goes on: a thread at work on its job has the locks of
      that job. A turn reads and has its tab's gate; a rebuild rebuilds and has its
      tab's gate; a mutation rebuilds, writes, and has the gates of all its tabs. */
  lemma WorkIsSecured(states: seq<State>, k: nat, i: nat, job: Job)
    requires Run(states) && k < |states| && Sensible(job) && Works(states[k], i, job)
    ensures Secured(states[k].locks, i, job)
  {
    RunsKeepInv(states, k);
    hide Run, Inv, Suffices, Secured, AtWork;
    var t := states[k].threads[i];
    JobHolds(job, t.pc);
    assert Suffices(HeldBy(t), job) by { ThreadIsValid(states[k], i); }
    LocksRecord(states[k], i, job);
  }

  lemma ThreadIsValid(s: State, i: nat)
    requires Inv(s) && i < |s.threads|
    ensures ThreadValid(s.threads[i])
  {
  }

  /** Whether the gate of this tab is one the job takes. */
  predicate UsesGate(job: Job, tab: Tab) {
    match job
    case Turn(t) => t == tab
    case Build => false
    case Setter(t) => t == tab
    case Rebuild(t, _) => t == tab
    case Mutation(tabs) => tab in tabs
  }

  /** Two jobs that must not be at work together: a mutation and anything that starts a
      turn, builds, rebuilds or mutates; two rebuilds; and two that use one gate. */
  ghost predicate Conflict(a: Job, b: Job) {
    || (a.Mutation? && !b.Setter?) || (b.Mutation? && !a.Setter?)
    || (a.Rebuild? && b.Rebuild?)
    || exists tab :: UsesGate(a, tab) && UsesGate(b, tab)
  }

  lemma SecuredExclude(l: Locks, i: nat, j: nat, a: Job, b: Job)
    requires i != j && Secured(l, i, a) && Secured(l, j, b) && (l.writer.Some? ==> l.readers == {})
    ensures !Conflict(a, b)
  {
    forall tab | UsesGate(a, tab) ensures !UsesGate(b, tab) {
      assert HasGate(l, i, tab);
      assert UsesGate(b, tab) ==> HasGate(l, j, tab);
    }
  }

  /** In every run conflicting jobs are never at work at the same time: no turn is
      between admission and release while a mutation is inside, and no turn of a tab
      while that tab is rebuilt. */
  lemma ConflictsNeverMeet(states: seq<State>, k: nat, i: nat, j: nat, a: Job, b: Job)
    requires Run(states) && k < |states| && i != j && Sensible(a) && Sensible(b)
    requires Works(states[k], i, a) && Works(states[k], j, b)
    ensures !Conflict(a, b)
  {
    WorkIsSecured(states, k, i, a);
    WorkIsSecured(states, k, j, b);
    RunsKeepInv(states, k);
    assert Match(states[k].locks, HeldByAll(states[k].threads));
    hide Run, Inv, Secured, Conflict, Works;
    SecuredExclude(states[k].locks, i, j, a, b);
  }
}
