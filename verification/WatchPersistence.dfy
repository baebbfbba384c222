/** Persisting watch subscriptions (SetWatch, seedWatchers and watcherVersion in
    desktop/bot_bridge.go): calls change the map under one mutex and write the
    config under another, in any interleaving, and any write may fail. */
module WatchPersistence {
  import opened Options

  /** A subscribed chat, with the key it is stored under. */
  datatype Route = Route(key: string, chatId: string, payload: string)

  type Watchers = map<string, Route>

  /** Where SetWatch call number n (n-1 in calls) stands: it waits for persistMu,
      holds it, has written the config, has stored its number, has settled the
      dirty flag, or has returned. */
  datatype Pc = Waiting | Holding | Wrote | Committed | Settled | Returned(ok: bool)

  /** Call n's snapshot is snaps[n]; snaps[0] is the config the hub started from.
      watchSeq is the number of calls. */
  datatype State = State(
    watchers: Watchers,
    calls: seq<Pc>,
    snaps: seq<Watchers>,
    dirty: bool,
    persistHolder: Option<nat>,
    lastPersistSeq: nat,
    disk: Watchers)

  function Started(config: Watchers): State {
    State(config, [], [config], false, None, 0, config)
  }

  datatype Step =
    | SetWatch(route: Route, enable: bool)
    | LockPersist(call: nat)
    | SkipStale(call: nat)
    | WriteFails(call: nat)
    | WriteSucceeds(call: nat)
    | Commit(call: nat)
    | Settle(call: nat)
    | UnlockPersist(call: nat)
    | Seed(routes: seq<Route>, expectedSeq: nat, chatBlank: string -> bool)

  predicate At(s: State, call: nat, pc: Pc) {
    call < |s.calls| && s.calls[call] == pc
  }

  predicate Enabled(s: State, step: Step) {
    match step
    case SetWatch(_, _) => true
    case LockPersist(c) => At(s, c, Waiting) && s.persistHolder.None?
    case SkipStale(c) => At(s, c, Holding) && c + 1 <= s.lastPersistSeq
    case WriteFails(c) => At(s, c, Holding) && c + 1 > s.lastPersistSeq
    case WriteSucceeds(c) => At(s, c, Holding) && c + 1 > s.lastPersistSeq
    case Commit(c) => At(s, c, Wrote)
    case Settle(c) => At(s, c, Committed)
    case UnlockPersist(c) => At(s, c, Settled)
    case Seed(_, _, _) => s.persistHolder.None?
  }

  function Seeded(routes: seq<Route>, chatBlank: string -> bool): Watchers {
    if routes == [] then map[]
    else
      var last := routes[|routes| - 1];
      var before := Seeded(routes[..|routes| - 1], chatBlank);
      if chatBlank(last.chatId) then before else before[last.key := last]
  }

  /** The condition under which a seed is applied. */
  predicate SeedApplies(s: State, expectedSeq: nat) {
    |s.calls| == expectedSeq && !s.dirty
  }

  function Next(s: State, step: Step): State
    requires Enabled(s, step)
    requires |s.snaps| == |s.calls| + 1
  {
    match step
    case SetWatch(route, enable) =>
      var watchers := if enable then s.watchers[route.key := route] else s.watchers - {route.key};
      s.(watchers := watchers, calls := s.calls + [Waiting], snaps := s.snaps + [watchers], dirty := true)
    case LockPersist(c) => s.(calls := s.calls[c := Holding], persistHolder := Some(c))
    case SkipStale(c) => s.(calls := s.calls[c := Returned(true)], persistHolder := None)
    case WriteFails(c) => s.(calls := s.calls[c := Returned(false)], persistHolder := None)
    case WriteSucceeds(c) => s.(calls := s.calls[c := Wrote], disk := s.snaps[c + 1])
    case Commit(c) => s.(calls := s.calls[c := Committed], lastPersistSeq := c + 1)
    case Settle(c) => s.(calls := s.calls[c := Settled], dirty := if |s.calls| == c + 1 then false else s.dirty)
    case UnlockPersist(c) => s.(calls := s.calls[c := Returned(true)], persistHolder := None)
    case Seed(routes, expectedSeq, chatBlank) =>
      if SeedApplies(s, expectedSeq) then s.(watchers := Seeded(routes, chatBlank)) else s
  }

  /** Number of the call whose snapshot the config file holds. */
  function DiskSeq(s: State): nat {
    if s.persistHolder.Some? && At(s, s.persistHolder.value, Wrote) then s.persistHolder.value + 1 else s.lastPersistSeq
  }

  predicate HoldsPersist(pc: Pc) {
    pc.Holding? || pc.Wrote? || pc.Committed? || pc.Settled?
  }

  predicate Stored(pc: Pc) {
    pc.Committed? || pc.Settled? || pc == Returned(true)
  }

  ghost predicate Inv(s: State) {
    && |s.snaps| == |s.calls| + 1
    && s.lastPersistSeq <= |s.calls|
    && (forall c :: s.persistHolder == Some(c) <==> 0 <= c < |s.calls| && HoldsPersist(s.calls[c]))
    && DiskSeq(s) <= |s.calls| && s.disk == s.snaps[DiskSeq(s)]
    && (s.lastPersistSeq > 0 ==> Stored(s.calls[s.lastPersistSeq - 1]))
    && (forall c :: 0 <= c < |s.calls| ==>
          && (s.calls[c].Wrote? ==> c + 1 > s.lastPersistSeq)
          && (s.calls[c].Committed? || s.calls[c].Settled? ==> c + 1 == s.lastPersistSeq)
          && (s.calls[c] == Returned(true) ==> c + 1 <= s.lastPersistSeq))
    && (s.dirty <==> |s.calls| > 0 && !(s.calls[|s.calls| - 1].Settled? || s.calls[|s.calls| - 1] == Returned(true)))
  }

  lemma StartKeepsInv(config: Watchers)
    ensures Inv(Started(config))
  {
  }

  /** What a step owes: the invariant, and that neither the stored number nor
      the snapshot on disk moves backwards. */
  ghost predicate Advances(s: State, t: State) {
    && Inv(t)
    && s.lastPersistSeq <= t.lastPersistSeq && DiskSeq(s) <= DiskSeq(t)
    && |s.calls| <= |t.calls| && |s.snaps| <= |t.snaps| && t.snaps[..|s.snaps|] == s.snaps
  }

  lemma CallKeepsInv(s: State, step: Step)
    requires Inv(s) && Enabled(s, step) && step.SetWatch?
    ensures Advances(s, Next(s, step))
  {
    hide Seeded;
    var t := Next(s, step);
    assert forall c :: 0 <= c < |s.calls| ==> t.calls[c] == s.calls[c];
  }

  lemma LockKeepsInv(s: State, step: Step)
    requires Inv(s) && Enabled(s, step) && (step.LockPersist? || step.SkipStale? || step.WriteFails?)
    ensures Advances(s, Next(s, step))
  {
    hide Seeded;
    var t := Next(s, step);
    assert forall c :: 0 <= c < |s.calls| && c != step.call ==> t.calls[c] == s.calls[c];
  }

  lemma WriteKeepsInv(s: State, step: Step)
    requires Inv(s) && Enabled(s, step) && (step.WriteSucceeds? || step.Commit?)
    ensures Advances(s, Next(s, step))
  {
    hide Seeded;
    var t := Next(s, step);
    assert forall c :: 0 <= c < |s.calls| && c != step.call ==> t.calls[c] == s.calls[c];
  }

  lemma SettleKeepsInv(s: State, step: Step)
    requires Inv(s) && Enabled(s, step) && (step.Settle? || step.UnlockPersist?)
    ensures Advances(s, Next(s, step))
  {
    hide Seeded;
    var t := Next(s, step);
    assert forall c :: 0 <= c < |s.calls| && c != step.call ==> t.calls[c] == s.calls[c];
  }

  /** Every step keeps the invariant and never moves the stored number, or the
      snapshot on disk, backwards. */
  lemma StepKeepsInv(s: State, step: Step)
    requires Inv(s) && Enabled(s, step)
    ensures Advances(s, Next(s, step))
  {
    hide Advances, Inv;
    match step {
      case SetWatch(_, _) => CallKeepsInv(s, step);
      case LockPersist(_) => LockKeepsInv(s, step);
      case SkipStale(_) => LockKeepsInv(s, step);
      case WriteFails(_) => LockKeepsInv(s, step);
      case WriteSucceeds(_) => WriteKeepsInv(s, step);
      case Commit(_) => WriteKeepsInv(s, step);
      case Settle(_) => SettleKeepsInv(s, step);
      case UnlockPersist(_) => SettleKeepsInv(s, step);
      case Seed(_, _, _) => SeedKeepsInv(s, step);
    }
  }

  lemma SeedKeepsInv(s: State, step: Step)
    requires Inv(s) && Enabled(s, step) && step.Seed?
    ensures Advances(s, Next(s, step))
  {
  }

  function After(config: Watchers, steps: seq<Step>): Option<State>
    ensures After(config, steps).Some? ==> |After(config, steps).value.snaps| == |After(config, steps).value.calls| + 1
  {
    if steps == [] then Some(Started(config))
    else
      var before, step := After(config, steps[..|steps| - 1]), steps[|steps| - 1];
      if before.Some? && Enabled(before.value, step) then Some(Next(before.value, step)) else None
  }

  lemma {:induction false} RunsKeepInv(config: Watchers, steps: seq<Step>)
    requires After(config, steps).Some?
    ensures Inv(After(config, steps).value)
  {
    if steps != [] {
      RunsKeepInv(config, steps[..|steps| - 1]);
      StepKeepsInv(After(config, steps[..|steps| - 1]).value, steps[|steps| - 1]);
    } else {
      StartKeepsInv(config);
    }
  }

  /** In every interleaving: the config holds exactly the snapshot of a call; a
      call that reported success is on disk or superseded by a newer one that is;
      and when nothing is unsaved, the newest snapshot is on disk. */
  lemma ConfigHoldsASnapshot(config: Watchers, steps: seq<Step>)
    requires After(config, steps).Some?
    ensures
      var s := After(config, steps).value;
      && DiskSeq(s) < |s.snaps| && s.disk == s.snaps[DiskSeq(s)] && s.lastPersistSeq <= DiskSeq(s)
      && (forall c :: 0 <= c < |s.calls| && s.calls[c] == Returned(true) ==> c + 1 <= DiskSeq(s))
      && (!s.dirty ==> s.lastPersistSeq == |s.calls| && s.disk == s.snaps[|s.calls|])
  {
    RunsKeepInv(config, steps);
  }

  /** If the latest call succeeded, the config is that call's snapshot; the dirty
      flag says exactly whether that is so. */
  lemma LatestSuccessIsOnDisk(config: Watchers, steps: seq<Step>)
    requires After(config, steps).Some? && After(config, steps).value.calls != []
    ensures
      var s := After(config, steps).value;
      s.calls[|s.calls| - 1] == Returned(true) ==> s.disk == s.snaps[|s.calls|] && !s.dirty
  {
    RunsKeepInv(config, steps);
  }

  /** Snapshots never go backwards on disk over any stretch of a run, and the
      snapshots taken so far stay as they were. */
  lemma {:induction false} DiskNeverGoesBack(config: Watchers, steps: seq<Step>, k: nat)
    requires k <= |steps| && After(config, steps).Some?
    ensures After(config, steps[..k]).Some? && Inv(After(config, steps[..k]).value)
    ensures Advances(After(config, steps[..k]).value, After(config, steps).value)
  {
    if k == |steps| {
      assert steps[..k] == steps;
      RunsKeepInv(config, steps);
    } else {
      var init := steps[..|steps| - 1];
      DiskNeverGoesBack(config, init, k);
      assert init[..k] == steps[..k];
      RunsKeepInv(config, init);
      StepKeepsInv(After(config, init).value, steps[|steps| - 1]);
      AdvancesComposes(After(config, steps[..k]).value, After(config, init).value, After(config, steps).value);
    }
  }

  lemma AdvancesComposes(s: State, t: State, u: State)
    requires Inv(s) && Advances(s, t) && Advances(t, u)
    ensures Advances(s, u)
  {
    hide Inv;
    assert u.snaps[..|s.snaps|] == u.snaps[..|t.snaps|][..|s.snaps|];
  }

  // ------------------------------------------- what the snapshots hold

  predicate ForKey(step: Step, key: string) {
    step.SetWatch? && step.route.key == key
  }

  /** Step i is a refresh that takes effect. */
  predicate Refreshes(config: Watchers, steps: seq<Step>, i: nat)
    requires i < |steps|
  {
    && steps[i].Seed? && After(config, steps[..i]).Some?
    && SeedApplies(After(config, steps[..i]).value, steps[i].expectedSeq)
  }

  /** No refresh took effect from step from on; base is what the last one installed, or
      the config the hub started from. */
  predicate CountsFrom(config: Watchers, steps: seq<Step>, from: nat, base: Watchers) {
    && from <= |steps|
    && (from == 0 ==> base == config)
    && (from > 0 ==>
          Refreshes(config, steps, from - 1) && base == Seeded(steps[from - 1].routes, steps[from - 1].chatBlank))
    && forall i :: from <= i < |steps| ==> !Refreshes(config, steps, i)
  }

  predicate NoCommandFor(steps: seq<Step>, from: nat, key: string) {
    forall i :: from <= i < |steps| ==> !ForKey(steps[i], key)
  }

  /** The last command for this chat asked for this subscription, or there was none and
      the base had it. */
  predicate AskedFor(steps: seq<Step>, from: nat, base: Watchers, key: string, route: Route) {
    || (exists i :: from <= i < |steps| && steps[i] == SetWatch(route, true) && route.key == key
                    && NoCommandFor(steps, i + 1, key))
    || (NoCommandFor(steps, from, key) && Holds(base, key, route))
  }

  predicate Holds(w: Watchers, key: string, route: Route) {
    key in w && w[key] == route
  }

  lemma LastStep(config: Watchers, steps: seq<Step>)
    requires steps != [] && After(config, steps).Some?
    ensures
      var init, step := steps[..|steps| - 1], steps[|steps| - 1];
      && After(config, init).Some? && Enabled(After(config, init).value, step)
      && After(config, steps) == Some(Next(After(config, init).value, step))
  {
  }

  lemma {:induction false} CountsFromSomewhere(config: Watchers, steps: seq<Step>) returns (from: nat, base: Watchers)
    requires After(config, steps).Some?
    ensures CountsFrom(config, steps, from, base)
  {
    if steps == [] {
      from, base := 0, config;
    } else {
      var n := |steps| - 1;
      LastStep(config, steps);
      hide After, Seeded;
      if Refreshes(config, steps, n) {
        from, base := |steps|, Seeded(steps[n].routes, steps[n].chatBlank);
      } else {
        from, base := CountsFromSomewhere(config, steps[..n]);
        hide CountsFrom, Refreshes;
        CountsOn(config, steps, from, base);
      }
    }
  }

  lemma CountsOn(config: Watchers, steps: seq<Step>, from: nat, base: Watchers)
    requires steps != [] && CountsFrom(config, steps[..|steps| - 1], from, base)
    requires !Refreshes(config, steps, |steps| - 1)
    ensures CountsFrom(config, steps, from, base)
  {
    hide After, SeedApplies, Seeded;
    var n := |steps| - 1;
    forall i | 0 <= i < n ensures Refreshes(config, steps[..n], i) == Refreshes(config, steps, i) {
      assert steps[..n][..i] == steps[..i] && steps[..n][i] == steps[i];
    }
    hide Refreshes;
  }

  lemma CountsFromBefore(config: Watchers, steps: seq<Step>, from: nat, base: Watchers, k: nat)
    requires CountsFrom(config, steps, from, base) && from <= k <= |steps|
    ensures CountsFrom(config, steps[..k], from, base)
  {
    assert forall i :: 0 <= i < k ==> steps[..k][..i] == steps[..i];
    hide After, SeedApplies, Seeded;
    forall i | from <= i < k ensures !Refreshes(config, steps[..k], i) {
      assert !Refreshes(config, steps, i);
    }
  }

  lemma OneStepAsAsked(s: State, step: Step, key: string, route: Route)
    requires Enabled(s, step) && |s.snaps| == |s.calls| + 1 && !(step.Seed? && SeedApplies(s, step.expectedSeq))
    ensures ForKey(step, key) ==>
              (Holds(Next(s, step).watchers, key, route) <==> step == SetWatch(route, true))
    ensures !ForKey(step, key) ==> (Holds(Next(s, step).watchers, key, route) <==> Holds(s.watchers, key, route))
  {
  }

  lemma OneMoreAsked(steps: seq<Step>, from: nat, base: Watchers, key: string, route: Route)
    requires from < |steps|
    ensures
      var init, step := steps[..|steps| - 1], steps[|steps| - 1];
      AskedFor(steps, from, base, key, route) <==>
        if ForKey(step, key) then step == SetWatch(route, true) else AskedFor(init, from, base, key, route)
  {
    var n := |steps| - 1;
    var init := steps[..n];
    forall i | from <= i <= n
      ensures NoCommandFor(steps, i, key) <==> NoCommandFor(init, i, key) && !ForKey(steps[n], key)
    {
      assert forall j :: 0 <= j < n ==> init[j] == steps[j];
      assert forall j :: i <= j < |steps| ==> j == n || steps[j] == init[j];
    }
    assert NoCommandFor(steps, n + 1, key);
    if AskedFor(init, from, base, key, route) && !ForKey(steps[n], key) && !NoCommandFor(init, from, key) {
      var i :| from <= i < n && init[i] == SetWatch(route, true) && route.key == key && NoCommandFor(init, i + 1, key);
      assert steps[i] == init[i] && NoCommandFor(steps, i + 1, key);
    }
    if AskedFor(steps, from, base, key, route) && !ForKey(steps[n], key) && !NoCommandFor(steps, from, key) {
      var i :| from <= i < |steps| && steps[i] == SetWatch(route, true) && route.key == key
               && NoCommandFor(steps, i + 1, key);
      assert i < n && init[i] == steps[i] && NoCommandFor(init, i + 1, key);
    }
  }

  /** In every state of every run the hub watches exactly what was asked for last, since
      the refresh that took effect last. */
  lemma {:induction false} WatchersAsAsked(config: Watchers, steps: seq<Step>, from: nat, base: Watchers, key: string,
                                           route: Route)
    requires After(config, steps).Some? && CountsFrom(config, steps, from, base)
    ensures Holds(After(config, steps).value.watchers, key, route) <==> AskedFor(steps, from, base, key, route)
    decreases |steps|
  {
    if steps == [] {
      assert NoCommandFor(steps, 0, key);
    } else {
      LastStep(config, steps);
      var n := |steps| - 1;
      if from == |steps| {
        assert NoCommandFor(steps, from, key);
        hide After, Seeded;
      } else {
        CountsFromBefore(config, steps, from, base, n);
        WatchersAsAsked(config, steps[..n], from, base, key, route);
        assert !Refreshes(config, steps, n);
        OneMoreAsked(steps, from, base, key, route);
        hide After, Next, Enabled, AskedFor, ForKey, Holds;
        OneStepAsAsked(After(config, steps[..n]).value, steps[n], key, route);
      }
    }
  }

  /** The snapshot of a command is what the hub watched as the command returned from the
      mutex. */
  lemma SnapshotIsWatchers(config: Watchers, steps: seq<Step>, k: nat)
    requires k < |steps| && steps[k].SetWatch? && After(config, steps).Some?
    ensures After(config, steps[..k + 1]).Some?
    ensures
      var at, now := After(config, steps[..k + 1]).value, After(config, steps).value;
      at.calls != [] && |at.calls| < |now.snaps| && now.snaps[|at.calls|] == at.watchers
  {
    DiskNeverGoesBack(config, steps, k + 1);
    LastStep(config, steps[..k + 1]);
    assert steps[..k + 1][..k] == steps[..k] && steps[..k + 1][k] == steps[k];
    hide *;
    var at, now := After(config, steps[..k + 1]).value, After(config, steps).value;
    CommandSnaps(After(config, steps[..k]).value, steps[k]);
    StretchFacts(at, now);
    assert now.snaps[..|at.snaps|][|at.calls|] == at.watchers;
  }

  lemma CommandSnaps(s: State, step: Step)
    requires step.SetWatch? && Enabled(s, step) && |s.snaps| == |s.calls| + 1
    ensures
      var t := Next(s, step);
      |t.calls| == |s.calls| + 1 && |t.snaps| == |t.calls| + 1 && t.snaps[|t.calls|] == t.watchers
  {
  }

  lemma {:induction false} NoCommandNoCall(config: Watchers, steps: seq<Step>, k: nat)
    requires k <= |steps| && After(config, steps).Some? && After(config, steps[..k]).Some?
    requires forall i :: k <= i < |steps| ==> !steps[i].SetWatch?
    ensures |After(config, steps).value.calls| == |After(config, steps[..k]).value.calls|
  {
    if k == |steps| {
      assert steps[..k] == steps;
    } else {
      LastStep(config, steps);
      assert steps[..|steps| - 1][..k] == steps[..k] && !steps[|steps| - 1].SetWatch?;
      NoCommandNoCall(config, steps[..|steps| - 1], k);
    }
  }

  /** Once the latest command has reported success, the config holds exactly the
      subscriptions last asked for: k is that command, from and base say since when
      commands count for it. */
  lemma DiskHoldsWhatWasAskedFor(config: Watchers, steps: seq<Step>, k: nat, from: nat, base: Watchers, key: string,
                                 route: Route)
    requires After(config, steps).Some? && k < |steps| && steps[k].SetWatch?
    requires forall i :: k < i < |steps| ==> !steps[i].SetWatch?
    requires CountsFrom(config, steps[..k + 1], from, base)
    requires
      var s := After(config, steps).value;
      s.calls != [] && s.calls[|s.calls| - 1] == Returned(true)
    ensures Holds(After(config, steps).value.disk, key, route) <==> AskedFor(steps[..k + 1], from, base, key, route)
  {
    hide After, Holds, AskedFor, CountsFrom;
    LatestSuccessIsOnDisk(config, steps);
    SnapshotIsWatchers(config, steps, k);
    NoCommandNoCall(config, steps, k + 1);
    WatchersAsAsked(config, steps[..k + 1], from, base, key, route);
  }

  /** A seed changes the runtime map only when no watch command ran since the
      version it was given, and every command so far is saved. */
  lemma SeedNeedsEverythingSaved(config: Watchers, steps: seq<Step>, routes: seq<Route>, expectedSeq: nat,
                                 chatBlank: string -> bool)
    requires After(config, steps).Some? && Enabled(After(config, steps).value, Seed(routes, expectedSeq, chatBlank))
    ensures
      var s := After(config, steps).value;
      var t := Next(s, Seed(routes, expectedSeq, chatBlank));
      t.watchers != s.watchers ==> |s.calls| == expectedSeq == s.lastPersistSeq && s.disk == s.snaps[expectedSeq]
  {
    RunsKeepInv(config, steps);
  }

  /** The newest command has got past its config write. */
  predicate NewestWritten(s: State) {
    s.calls == [] ||
    var newest := s.calls[|s.calls| - 1];
    newest.Wrote? || newest.Committed? || newest.Settled? || newest == Returned(true)
  }

  /** A refresh samples the version after k1 steps, reads the config after k2 and
      seeds at the end. An applied seed installs exactly the snapshot that was on
      disk at the read. That is the newest one if and only if the newest command
      had got past its write by then; a clean flag at the sampling guarantees it. */
  lemma RefreshInstallsNewestIff(config: Watchers, steps: seq<Step>, k1: nat, k2: nat, routes: seq<Route>,
                                 chatBlank: string -> bool)
    requires k1 <= k2 <= |steps| && After(config, steps).Some? && After(config, steps[..k1]).Some?
    requires After(config, steps[..k2]).Some?
    requires Seeded(routes, chatBlank) == After(config, steps[..k2]).value.disk
    requires SeedApplies(After(config, steps).value, |After(config, steps[..k1]).value.calls|)
    requires After(config, steps).value.persistHolder.None?
    ensures
      var (sampled, read, s) :=
        (After(config, steps[..k1]).value, After(config, steps[..k2]).value, After(config, steps).value);
      var t := Next(s, Seed(routes, |sampled.calls|, chatBlank));
      && s.disk == s.snaps[|s.calls|]
      && DiskSeq(read) < |s.snaps| && t.watchers == s.snaps[DiskSeq(read)]
      && (DiskSeq(read) == |s.calls| <==> NewestWritten(read))
      && (!sampled.dirty ==> NewestWritten(read))
  {
    DiskNeverGoesBack(config, steps, k2);
    DiskNeverGoesBack(config, steps[..k2], k1);
    assert steps[..k2][..k1] == steps[..k1];
    RefreshOverStretch(
      After(config, steps[..k1]).value, After(config, steps[..k2]).value, After(config, steps).value, routes,
          chatBlank);
  }

  lemma RefreshOverStretch(sampled: State, read: State, s: State, routes: seq<Route>, chatBlank: string -> bool)
    requires Inv(sampled) && Inv(read) && Inv(s) && Advances(sampled, read) && Advances(read, s)
    requires SeedApplies(s, |sampled.calls|) && s.persistHolder.None? && Seeded(routes, chatBlank) == read.disk
    ensures s.disk == s.snaps[|s.calls|]
    ensures DiskSeq(read) < |s.snaps|
    ensures Next(s, Seed(routes, |sampled.calls|, chatBlank)).watchers == s.snaps[DiskSeq(read)]
    ensures DiskSeq(read) == |s.calls| <==> NewestWritten(read)
    ensures !sampled.dirty ==> NewestWritten(read)
  {
    hide *;
    NewestWrittenIff(sampled);
    NewestWrittenIff(read);
    NewestWrittenIff(s);
    StretchFacts(sampled, read);
    StretchFacts(read, s);
    SeedInstalls(s, |sampled.calls|, routes, chatBlank);
    assert s.snaps[..|s.snaps|] == s.snaps == read.snaps;
  }

  lemma SeedInstalls(s: State, expectedSeq: nat, routes: seq<Route>, chatBlank: string -> bool)
    requires SeedApplies(s, expectedSeq) && s.persistHolder.None? && |s.snaps| == |s.calls| + 1
    ensures |s.calls| == expectedSeq && !s.dirty && Enabled(s, Seed(routes, expectedSeq, chatBlank))
    ensures Next(s, Seed(routes, expectedSeq, chatBlank)).watchers == Seeded(routes, chatBlank)
  {
  }

  lemma StretchFacts(s: State, t: State)
    requires Advances(s, t)
    ensures |s.calls| <= |t.calls| && |s.snaps| <= |t.snaps| && t.snaps[..|s.snaps|] == s.snaps
    ensures DiskSeq(s) <= DiskSeq(t)
  {
    hide Inv, DiskSeq;
  }

  lemma NewestWrittenIff(s: State)
    requires Inv(s)
    ensures |s.snaps| == |s.calls| + 1 && DiskSeq(s) <= |s.calls| && s.disk == s.snaps[DiskSeq(s)]
    ensures DiskSeq(s) == |s.calls| <==> NewestWritten(s)
    ensures !s.dirty ==> NewestWritten(s)
  {
  }

  /** The family in which a refresh is not fresh: the command is counted, the
      version sampled and the config read, and only then does the write land. The
      seed is applied, and a subscription that was reported as saved is gone from
      the running hub although it is still on disk. */
  lemma StaleReadDropsASavedWatch(route: Route, chatBlank: string -> bool)
    ensures
      var steps := [SetWatch(route, true), LockPersist(0), WriteSucceeds(0), Commit(0), Settle(0), UnlockPersist(0),
        Seed([], 1, chatBlank)];
      && After(map[], steps).Some? && After(map[], steps[..1]).Some?
      && After(map[], steps[..1]).value.disk == Seeded([], chatBlank) && |After(map[], steps[..1]).value.calls| == 1
      && var s := After(map[], steps).value;
      s.calls == [Returned(true)] && route.key !in s.watchers && route.key in s.disk
  {
    var w := [SetWatch(route, true)];
    var s1, s3 := CommandWrites(route);
    var s6 := CommandReturns(route, s3);
    var written := w + [LockPersist(0)] + [WriteSucceeds(0)];
    var all := written + [Commit(0)] + [Settle(0)] + [UnlockPersist(0)];
    var s7 := Then(map[], all, s6, Seed([], 1, chatBlank));
    var steps := [SetWatch(route, true), LockPersist(0), WriteSucceeds(0), Commit(0), Settle(0), UnlockPersist(0),
      Seed([], 1, chatBlank)];
    assert all + [Seed([], 1, chatBlank)] == steps && steps[..1] == w;
    hide After;
  }

  /** A command is counted, and its write lands. */
  lemma CommandWrites(route: Route) returns (s1: State, s3: State)
    ensures After(map[], [SetWatch(route, true)]) == Some(s1) && s1.disk == map[] && |s1.calls| == 1
    ensures After(map[], [SetWatch(route, true)] + [LockPersist(0)] + [WriteSucceeds(0)]) == Some(s3)
    ensures s3.calls == [Wrote] && |s3.snaps| == 2 && s3.dirty && s3.disk == s3.watchers == map[route.key := route]
  {
    var w := [SetWatch(route, true)];
    s1 := Next(Started(map[]), w[0]);
    assert After(map[], w) == Some(s1) by { assert w[..0] == []; }
    assert s1.calls == [Waiting] && s1.snaps == [map[], s1.watchers];
    var s2 := Then(map[], w, s1, LockPersist(0));
    assert s2.calls == [Holding];
    s3 := Then(map[], w + [LockPersist(0)], s2, WriteSucceeds(0));
    assert s3.calls == [Wrote];
    hide After;
  }

  /** The command goes on to report success. */
  lemma CommandReturns(route: Route, s3: State) returns (s6: State)
    requires After(map[], [SetWatch(route, true)] + [LockPersist(0)] + [WriteSucceeds(0)]) == Some(s3)
    requires s3.calls == [Wrote] && |s3.snaps| == 2
    ensures After(map[], [SetWatch(route, true)] + [LockPersist(0)] + [WriteSucceeds(0)] + [Commit(0)] + [Settle(0)]
        + [UnlockPersist(0)]) == Some(s6)
    ensures s6.calls == [Returned(true)] && |s6.snaps| == 2 && !s6.dirty && s6.persistHolder.None? && s6.disk == s3.disk
  {
    hide After;
    var written := [SetWatch(route, true)] + [LockPersist(0)] + [WriteSucceeds(0)];
    var s4 := Then(map[], written, s3, Commit(0));
    assert s4.calls == [Committed];
    var s5 := Then(map[], written + [Commit(0)], s4, Settle(0));
    assert s5.calls == [Settled];
    s6 := Then(map[], written + [Commit(0)] + [Settle(0)], s5, UnlockPersist(0));
    assert s6.calls == [Returned(true)];
  }

  lemma Then(config: Watchers, steps: seq<Step>, s: State, step: Step) returns (t: State)
    requires After(config, steps) == Some(s) && Enabled(s, step) && |s.snaps| == |s.calls| + 1
    ensures t == Next(s, step) && After(config, steps + [step]) == Some(t)
  {
    t := Next(s, step);
    assert (steps + [step])[..|steps|] == steps;
  }

  /** Config rows without a chat are dropped, and of those left with one key the last
      wins. */
  lemma {:induction false} SeededHolds(routes: seq<Route>, chatBlank: string -> bool, key: string)
    ensures key in Seeded(routes, chatBlank) <==> exists r :: r in routes && r.key == key && !chatBlank(r.chatId)
    ensures key in Seeded(routes, chatBlank) ==>
              exists i :: 0 <= i < |routes| && IsLastFor(routes, chatBlank, key, i)
                          && routes[i] == Seeded(routes, chatBlank)[key]
  {
    if routes != [] {
      var init, last := routes[..|routes| - 1], routes[|routes| - 1];
      SeededHolds(init, chatBlank, key);
      assert routes == init + [last];
      if key in Seeded(routes, chatBlank) {
        if last.key == key && !chatBlank(last.chatId) {
          assert IsLastFor(routes, chatBlank, key, |routes| - 1);
        } else {
          var i :| 0 <= i < |init| && IsLastFor(init, chatBlank, key, i) && init[i] == Seeded(init, chatBlank)[key];
          assert IsLastFor(routes, chatBlank, key, i);
        }
      }
    }
  }

  predicate IsLastFor(routes: seq<Route>, chatBlank: string -> bool, key: string, i: nat)
    requires i < |routes|
  {
    && routes[i].key == key && !chatBlank(routes[i].chatId)
    && forall j :: i < j < |routes| ==> routes[j].key != key || chatBlank(routes[j].chatId)
  }
}
