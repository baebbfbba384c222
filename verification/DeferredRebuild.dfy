/** The retry loop for rebuilds that had to wait (desktop/deferred_rebuild.go):
    the fields under its mutex, and every interleaving of callers, retry loops and
    kicks. */
module DeferredRebuild {
  import opened Options

  /** What the mutex guards; stop says whether the stop channel has been made. */
  datatype Fields = Fields(pending: map<string, string>, enabled: bool, running: bool, stopped: bool, stop: bool)

  /** A loop is started exactly when it is armed, idle, not stopped, and has work. */
  predicate MayStart(f: Fields) {
    f.enabled && !f.running && !f.stopped && f.pending != map[]
  }

  function Started(f: Fields): Fields {
    if MayStart(f) then f.(running := true, stop := true) else f
  }

  function Armed(f: Fields): Fields {
    Started(f.(enabled := true))
  }

  /** Blank names are refused, and everything after the stop. */
  predicate Accepts(f: Fields, tab: string) {
    tab != "" && !f.stopped
  }

  function Scheduled(f: Fields, tab: string, setting: string): Fields {
    if Accepts(f, tab) then Started(f.(pending := f.pending[tab := setting])) else f
  }

  function Ticked(f: Fields, markIdle: bool): Fields {
    if (f.stopped || f.pending == map[]) && markIdle then f.(running := false) else f
  }

  class DeferredRebuildState {
    var pending: map<string, string>
    var enabled: bool
    var running: bool
    var stopped: bool
    var stop: bool

    function Current(): Fields
      reads this
    {
      Fields(pending, enabled, running, stopped, stop)
    }

    constructor ()
      ensures Current() == Fields(map[], false, false, false, false)
    {
      pending, enabled, running, stopped, stop := map[], false, false, false, false;
    }

    method StartLoopLocked() returns (started: bool)
      modifies this
      ensures started == MayStart(old(Current())) && Current() == Started(old(Current()))
    {
      if !enabled || running || stopped || |pending| == 0 {
        return false;
      }
      running := true;
      if !stop {
        stop := true;
      }
      started := true;
    }

    method Enable() returns (started: bool)
      modifies this
      ensures started == MayStart(old(Current()).(enabled := true)) && Current() == Armed(old(Current()))
    {
      enabled := true;
      started := StartLoopLocked();
    }

    method Schedule(tab: string, setting: string) returns (started: bool)
      modifies this
      ensures Current() == Scheduled(old(Current()), tab, setting)
      ensures
        var before := old(Current());
        started == (Accepts(before, tab) && MayStart(before.(pending := old(pending)[tab := setting])))
    {
      if tab == "" || stopped {
        return false;
      }
      pending := pending[tab := setting];
      started := StartLoopLocked();
    }

    method Clear(tab: string)
      modifies this
      ensures Current() == old(Current()).(pending := old(pending) - {tab})
    {
      pending := pending - {tab};
    }

    /** Closes the stop channel if there is one; a second stop does nothing. */
    method Stop() returns (closed: bool)
      modifies this
      ensures Current() == old(Current()).(stopped := true) && closed == (!old(stopped) && old(stop))
    {
      if stopped {
        return false;
      }
      stopped := true;
      closed := stop;
    }

    /** Either there is nothing to do, or the pass works on a copy of what is pending. */
    method Tick(markIdle: bool) returns (done: bool, work: map<string, string>)
      modifies this
      ensures done == (old(stopped) || old(pending) == map[])
      ensures Current() == Ticked(old(Current()), markIdle) && (!done ==> work == old(pending))
    {
      work := map[];
      if stopped || |pending| == 0 {
        if markIdle {
          running := false;
        }
        return true, work;
      }
      return false, pending;
    }
  }

  // ---------------------------------------------------------- interleavings

  /** A loop selects, has a tick to work off, is retrying what it copied, has seen
      the stop, or has returned. */
  datatype Loop = Selecting | Ticking | Retrying(work: map<string, string>) | SawStop | Exited

  /** A kick makes one pass of its own; kicks holds what each kick has copied, emptied
      when it returns. */
  datatype State = State(fields: Fields, loops: seq<Loop>, kicks: seq<map<string, string>>, closes: nat)

  const IDLE := State(Fields(map[], false, false, false, false), [], [], 0)

  datatype Step =
    | Enable
    | Schedule(tab: string, setting: string)
    | Clear(tab: string)
    | Stop
    | Kick
    | TickerFires(loop: nat)
    | SeesStop(loop: nat)
    | LeavesOnStop(loop: nat)
    | Tick(loop: nat)
    | RetryClears(loop: nat, tab: string)
    | Retried(loop: nat)
    | KickClears(kick: nat, tab: string)
    | KickReturns(kick: nat)

  predicate At(s: State, loop: nat, pc: Loop) {
    loop < |s.loops| && s.loops[loop] == pc
  }

  predicate Enabled(s: State, step: Step) {
    match step
    case TickerFires(l) => At(s, l, Selecting)
    case SeesStop(l) => At(s, l, Selecting) && s.closes > 0
    case LeavesOnStop(l) => At(s, l, SawStop)
    case Tick(l) => At(s, l, Ticking)
    case RetryClears(l, tab) => l < |s.loops| && s.loops[l].Retrying? && tab in s.loops[l].work
    case Retried(l) => l < |s.loops| && s.loops[l].Retrying?
    case KickClears(q, tab) => q < |s.kicks| && tab in s.kicks[q]
    case KickReturns(q) => q < |s.kicks|
    case _ => true
  }

  /** Clearing deletes by tab alone, whatever label is recorded by then. */
  function Cleared(s: State, tab: string): State {
    s.(fields := s.fields.(pending := s.fields.pending - {tab}))
  }

  predicate Erases(step: Step, tab: string) {
    (step.Clear? || step.RetryClears? || step.KickClears?) && step.tab == tab
  }

  /** A field change that may have started a loop. */
  function WithLoop(s: State, before: Fields, after: Fields): State {
    s.(fields := after, loops := if MayStart(before) then s.loops + [Selecting] else s.loops)
  }

  function Next(s: State, step: Step): State
    requires Enabled(s, step)
  {
    var f := s.fields;
    match step
    case Enable => WithLoop(s, f.(enabled := true), Armed(f))
    case Schedule(tab, setting) =>
      if Accepts(f, tab) then WithLoop(s, f.(pending := f.pending[tab := setting]), Scheduled(f, tab, setting)) else s
    case Clear(tab) => Cleared(s, tab)
    case Stop => s.(fields := f.(stopped := true), closes := if !f.stopped && f.stop then s.closes + 1 else s.closes)
    case Kick =>
      var kicks := if f.stopped || f.pending == map[] then s.kicks else s.kicks + [f.pending];
      s.(fields := Ticked(f, false), kicks := kicks)
    case TickerFires(l) => s.(loops := s.loops[l := Ticking])
    case SeesStop(l) => s.(loops := s.loops[l := SawStop])
    case LeavesOnStop(l) => s.(fields := f.(running := false), loops := s.loops[l := Exited])
    case Tick(l) =>
      var pc := if f.stopped || f.pending == map[] then Exited else Retrying(f.pending);
      s.(fields := Ticked(f, true), loops := s.loops[l := pc])
    case RetryClears(_, tab) => Cleared(s, tab)
    case Retried(l) => s.(loops := s.loops[l := Selecting])
    case KickClears(_, tab) => Cleared(s, tab)
    case KickReturns(q) => s.(kicks := s.kicks[q := map[]])
  }

  ghost predicate Inv(s: State) {
    var f := s.fields;
    && (f.enabled && !f.stopped && f.pending != map[] ==> f.running)
    && (f.running ==> exists l :: 0 <= l < |s.loops| && !s.loops[l].Exited?)
    && (forall l :: 0 <= l < |s.loops| && !s.loops[l].Exited? ==> f.running)
    && (forall l, m :: 0 <= l < m < |s.loops| ==> s.loops[l].Exited? || s.loops[m].Exited?)
    && (forall l :: 0 <= l < |s.loops| && s.loops[l].SawStop? ==> s.closes > 0)
    && (f.running ==> f.stop)
    && s.closes <= 1 && (s.closes == 1 <==> f.stopped && f.stop)
  }

  lemma StartingKeepsInv(s: State, step: Step)
    requires Inv(s) && (step.Enable? || step.Schedule?)
    ensures Inv(Next(s, step))
  {
    var t := Next(s, step);
    assert forall l :: 0 <= l < |s.loops| ==> t.loops[l] == s.loops[l];
    if |t.loops| > |s.loops| {
      assert t.loops[|s.loops|] == Selecting;
    }
  }

  lemma LoopKeepsInv(s: State, step: Step)
    requires Inv(s) && Enabled(s, step) && !step.Enable? && !step.Schedule?
    ensures Inv(Next(s, step))
  {
    hide Accepts, Started;
    var t := Next(s, step);
    assert |t.loops| == |s.loops|;
    if step.TickerFires? || step.SeesStop? || step.LeavesOnStop? || step.Tick? || step.Retried? {
      assert forall l :: 0 <= l < |s.loops| && l != step.loop ==> t.loops[l] == s.loops[l];
      assert !s.loops[step.loop].Exited?;
    }
    if t.fields.running {
      var l :| 0 <= l < |s.loops| && !s.loops[l].Exited?;
      assert !t.loops[l].Exited?;
    }
  }

  function After(steps: seq<Step>): Option<State> {
    if steps == [] then Some(IDLE)
    else
      var before, step := After(steps[..|steps| - 1]), steps[|steps| - 1];
      if before.Some? && Enabled(before.value, step) then Some(Next(before.value, step)) else None
  }

  lemma {:induction false} RunsKeepInv(steps: seq<Step>)
    requires After(steps).Some?
    ensures Inv(After(steps).value)
  {
    if steps != [] {
      var init, step := steps[..|steps| - 1], steps[|steps| - 1];
      RunsKeepInv(init);
      hide Inv, Next;
      if step.Enable? || step.Schedule? {
        StartingKeepsInv(After(init).value, step);
      } else {
        LoopKeepsInv(After(init).value, step);
      }
    }
  }

  /** Steps of loop l alone up to and including its next pass. */
  function NextPass(l: nat, pc: Loop): seq<Step> {
    match pc
    case Selecting => [TickerFires(l), Tick(l)]
    case Ticking => [Tick(l)]
    case Retrying(_) => [Retried(l), TickerFires(l), Tick(l)]
    case _ => []
  }

  /** Taking steps from a state. */
  function Play(s: State, steps: seq<Step>): Option<State>
    decreases |steps|
  {
    if steps == [] then Some(s) else if Enabled(s, steps[0]) then Play(Next(s, steps[0]), steps[1..]) else None
  }

  /** A loop that is alive and bound for a pass that takes up all that is pending:
      its own next steps are enabled, and lead there. */
  ghost predicate TakesUpPending(s: State, l: nat) {
    && l < |s.loops| && !s.loops[l].Exited? && !s.loops[l].SawStop?
    && Play(s, NextPass(l, s.loops[l])).Some?
    && At(Play(s, NextPass(l, s.loops[l])).value, l, Retrying(s.fields.pending))
  }

  lemma LiveLoopTakesUp(s: State, l: nat)
    requires l < |s.loops| && !s.loops[l].Exited? && !s.loops[l].SawStop?
    requires !s.fields.stopped && s.fields.pending != map[]
    ensures TakesUpPending(s, l)
  {
    match s.loops[l]
    case Ticking => PlayOne(s, Tick(l));
    case Selecting =>
      PlayOne(Next(s, TickerFires(l)), Tick(l));
      assert NextPass(l, s.loops[l])[1..] == [Tick(l)];
    case Retrying(_) =>
      var t := Next(s, Retried(l));
      PlayOne(Next(t, TickerFires(l)), Tick(l));
      assert NextPass(l, s.loops[l])[1..] == [TickerFires(l), Tick(l)] && [TickerFires(l), Tick(l)][1..] == [Tick(l)];
      assert Play(t, [TickerFires(l), Tick(l)]) == Play(Next(t, TickerFires(l)), [Tick(l)]);
  }

  lemma PlayOne(s: State, step: Step)
    requires Enabled(s, step)
    ensures Play(s, [step]) == Some(Next(s, step))
  {
    assert [step][1..] == [];
  }

  /** No wake-up is lost, in any interleaving: once armed and not stopped, pending
      work has a running loop, which is the only one alive and whose own next steps
      lead to a pass that takes up all of it. The stop channel is closed at most once,
      and only a stop closes it. */
  lemma NoWakeupIsLost(steps: seq<Step>)
    requires After(steps).Some?
    ensures
      var s := After(steps).value;
      && (s.fields.enabled && !s.fields.stopped && s.fields.pending != map[] ==>
            s.fields.running && exists l :: 0 <= l < |s.loops| && TakesUpPending(s, l))
      && (forall l, m :: 0 <= l < m < |s.loops| ==> s.loops[l].Exited? || s.loops[m].Exited?)
      && (s.fields.running <==> exists l :: 0 <= l < |s.loops| && !s.loops[l].Exited?)
      && s.closes <= 1 && (s.closes == 1 ==> s.fields.stopped)
  {
    RunsKeepInv(steps);
    var s := After(steps).value;
    hide After;
    if s.fields.enabled && !s.fields.stopped && s.fields.pending != map[] {
      var l :| 0 <= l < |s.loops| && !s.loops[l].Exited?;
      assert !s.loops[l].SawStop?;
      LiveLoopTakesUp(s, l);
    }
  }

  lemma LastStep(steps: seq<Step>)
    requires steps != [] && After(steps).Some?
    ensures
      var init, step := steps[..|steps| - 1], steps[|steps| - 1];
      && After(init).Some? && Enabled(After(init).value, step)
      && After(steps) == Some(Next(After(init).value, step))
  {
  }

  /** Over runs, whatever other callers do in between: a tab pending at some point
      and not cleared since is in the work of the next pass that begins, unless the
      loop was stopped. */
  lemma NextPassTakesTheTab(steps: seq<Step>, k: nat, l: nat, tab: string)
    requires k < |steps| && After(steps).Some? && steps[|steps| - 1] == Tick(l)
    requires After(steps[..k]).Some? && tab in After(steps[..k]).value.fields.pending
    requires forall i :: k <= i < |steps| ==> !Erases(steps[i], tab)
    requires !After(steps).value.fields.stopped
    ensures
      var s := After(steps).value;
      l < |s.loops| && s.loops[l].Retrying? && tab in s.loops[l].work
  {
    var init := steps[..|steps| - 1];
    assert init[..k] == steps[..k];
    StaysPending(init, k, tab);
    assert After(steps).value == Next(After(init).value, Tick(l));
    hide After;
  }

  lemma OneStepKeepsATab(s: State, step: Step, tab: string)
    requires Enabled(s, step) && !Erases(step, tab) && tab in s.fields.pending
    ensures tab in Next(s, step).fields.pending
  {
  }

  lemma {:induction false} StaysPending(steps: seq<Step>, k: nat, tab: string)
    requires k <= |steps| && After(steps).Some?
    requires After(steps[..k]).Some? && tab in After(steps[..k]).value.fields.pending
    requires forall i :: k <= i < |steps| ==> !Erases(steps[i], tab)
    ensures tab in After(steps).value.fields.pending
  {
    if k == |steps| {
      assert steps[..k] == steps;
    } else {
      var init := steps[..|steps| - 1];
      assert init[..k] == steps[..k] && !Erases(steps[|steps| - 1], tab);
      LastStep(steps);
      hide After, Next, Enabled, Erases;
      StaysPending(init, k, tab);
      OneStepKeepsATab(After(init).value, steps[|steps| - 1], tab);
    }
  }

  // ------------------------------------------- labels scheduled during a pass

  predicate Pending(s: State, tab: string, setting: string) {
    tab in s.fields.pending && s.fields.pending[tab] == setting
  }

  /** Step k records setting for the tab, and no later step records another. */
  ghost predicate LastScheduled(steps: seq<Step>, k: nat, tab: string, setting: string) {
    && k < |steps| && After(steps).Some? && steps[k] == Schedule(tab, setting)
    && After(steps[..k]).Some? && Accepts(After(steps[..k]).value.fields, tab)
    && forall i :: k < i < |steps| ==> !(steps[i].Schedule? && steps[i].tab == tab)
  }

  lemma OneStepOnALabel(s: State, step: Step, tab: string, setting: string)
    requires Enabled(s, step) && !(step.Schedule? && step.tab == tab)
    ensures Erases(step, tab) ==> tab !in Next(s, step).fields.pending
    ensures !Erases(step, tab) ==> (tab in Next(s, step).fields.pending <==> tab in s.fields.pending)
    ensures !Erases(step, tab) ==> (Pending(Next(s, step), tab, setting) <==> Pending(s, tab, setting))
  {
  }

  lemma JustScheduled(s: State, tab: string, setting: string)
    requires Accepts(s.fields, tab)
    ensures Pending(Next(s, Schedule(tab, setting)), tab, setting)
  {
  }

  /** The label recorded last is still pending exactly when nobody erased the tab since. */
  lemma {:induction false} LabelPendingIff(steps: seq<Step>, k: nat, tab: string, setting: string)
    requires LastScheduled(steps, k, tab, setting)
    ensures Pending(After(steps).value, tab, setting) <==> forall i :: k < i < |steps| ==> !Erases(steps[i], tab)
    ensures !Pending(After(steps).value, tab, setting) ==> tab !in After(steps).value.fields.pending
  {
    hide After, Next, Enabled, Erases, Accepts;
    var init, step := steps[..|steps| - 1], steps[|steps| - 1];
    assert init[..k] == steps[..k];
    LastStep(steps);
    if k == |init| {
      JustScheduled(After(init).value, tab, setting);
    } else {
      assert forall i :: k < i < |init| ==> init[i] == steps[i];
      LabelPendingIff(init, k, tab, setting);
      OneStepOnALabel(After(init).value, step, tab, setting);
      assert (forall i :: k < i < |steps| ==> !Erases(steps[i], tab))
        <==> (forall i :: k < i < |init| ==> !Erases(init[i], tab)) && !Erases(step, tab);
    }
  }

  /** Loop l began a pass at step j and has not finished it since. */
  ghost predicate InPass(steps: seq<Step>, j: nat, l: nat) {
    && j < |steps| && steps[j] == Tick(l) && After(steps).Some?
    && (forall i :: j < i < |steps| ==> steps[i] != Retried(l))
    && After(steps[..j + 1]).Some? && l < |After(steps[..j + 1]).value.loops|
    && After(steps[..j + 1]).value.loops[l].Retrying?
  }

  lemma OneStepOfAPass(s: State, step: Step, l: nat)
    requires Enabled(s, step) && l < |s.loops| && s.loops[l].Retrying? && step != Retried(l)
    ensures At(Next(s, step), l, s.loops[l])
  {
  }

  lemma PassBegins(steps: seq<Step>, l: nat)
    requires steps != [] && After(steps).Some? && steps[|steps| - 1] == Tick(l)
    requires l < |After(steps).value.loops| && After(steps).value.loops[l].Retrying?
    ensures
      var init := steps[..|steps| - 1];
      After(init).Some? && At(After(steps).value, l, Retrying(After(init).value.fields.pending))
  {
    LastStep(steps);
    hide After;
  }

  /** A pass works to its end on what it copied as it began. */
  lemma {:induction false} PassKeepsItsCopy(steps: seq<Step>, j: nat, l: nat)
    requires InPass(steps, j, l)
    ensures After(steps[..j]).Some? && At(After(steps).value, l, Retrying(After(steps[..j]).value.fields.pending))
  {
    hide After, Next, Enabled;
    if j + 1 == |steps| {
      assert steps[..j + 1] == steps && steps[..|steps| - 1] == steps[..j];
      PassBegins(steps, l);
    } else {
      var init := steps[..|steps| - 1];
      assert init[..j + 1] == steps[..j + 1] && init[..j] == steps[..j] && steps[|steps| - 1] != Retried(l);
      LastStep(steps);
      PassKeepsItsCopy(init, j, l);
      OneStepOfAPass(After(init).value, steps[|steps| - 1], l);
    }
  }

  lemma OneRetries(s: State, l: nat, step: Step)
    requires Inv(s) && l < |s.loops| && s.loops[l].Retrying? && step.RetryClears? && Enabled(s, step)
    ensures step.loop == l
  {
  }

  lemma {:induction false} PrefixesRun(steps: seq<Step>, k: nat)
    requires k <= |steps| && After(steps).Some?
    ensures After(steps[..k]).Some?
  {
    if k == |steps| {
      assert steps[..k] == steps;
    } else {
      assert steps[..|steps| - 1][..k] == steps[..k];
      PrefixesRun(steps[..|steps| - 1], k);
    }
  }

  lemma PassPrefix(steps: seq<Step>, j: nat, l: nat, i: nat)
    requires InPass(steps, j, l) && j < i <= |steps|
    ensures InPass(steps[..i], j, l)
  {
    hide After;
    PrefixesRun(steps, i);
    assert steps[..i][..j + 1] == steps[..j + 1];
  }

  /** While loop l is in a pass no other loop clears anything. */
  lemma OnlyThePassClears(steps: seq<Step>, j: nat, l: nat, i: nat)
    requires InPass(steps, j, l) && j < i < |steps| && steps[i].RetryClears?
    ensures steps[i].loop == l
  {
    hide Next, Enabled, Inv, After;
    var init, upTo := steps[..i], steps[..i + 1];
    PassPrefix(steps, j, l, i);
    PrefixesRun(steps, i + 1);
    hide InPass;
    assert upTo[..i] == init;
    PassKeepsItsCopy(init, j, l);
    LastStep(upTo);
    RunsKeepInv(init);
    OneRetries(After(init).value, l, steps[i]);
  }

  /** A label scheduled while a pass is under way is not what that pass retries, and it
      outlives the pass exactly when the pass does not clear the tab: the clear asks
      for the tab alone. The other callers and the kicks leave the tab alone here. */
  lemma LateLabelSurvivesIff(steps: seq<Step>, j: nat, k: nat, l: nat, tab: string, setting: string)
    requires InPass(steps, j, l) && j < k && LastScheduled(steps, k, tab, setting)
    requires forall i :: k < i < |steps| && Erases(steps[i], tab) ==> steps[i].RetryClears?
    ensures After(steps[..j]).Some? && At(After(steps).value, l, Retrying(After(steps[..j]).value.fields.pending))
    ensures Pending(After(steps).value, tab, setting)
      <==> forall i :: k < i < |steps| ==> steps[i] != RetryClears(l, tab)
  {
    PassKeepsItsCopy(steps, j, l);
    LabelPendingIff(steps, k, tab, setting);
    forall i | k < i < |steps| ensures Erases(steps[i], tab) <==> steps[i] == RetryClears(l, tab) {
      if steps[i].RetryClears? {
        OnlyThePassClears(steps, j, l, i);
      }
    }
    hide After;
  }

  lemma Extended(steps: seq<Step>, step: Step)
    requires After(steps).Some? && Enabled(After(steps).value, step)
    ensures After(steps + [step]) == Some(Next(After(steps).value, step))
  {
    assert (steps + [step])[..|steps|] == steps;
  }

  function LateRun(tab: string, early: string, late: string): seq<Step> {
    [Enable, Schedule(tab, early), TickerFires(0), Tick(0), Schedule(tab, late), RetryClears(0, tab), Retried(0),
     TickerFires(0), Tick(0)]
  }

  /** The fields and the only loop after each step of that run. */
  function LateState(tab: string, early: string, late: string, k: nat): State {
    var pending := if k < 2 || k > 5 then map[] else if k < 5 then map[tab := early] else map[tab := late];
    var loops :=
      if k < 2 then []
      else if k == 2 || k == 7 then [Selecting]
      else if k == 3 || k == 8 then [Ticking]
      else if k < 7 then [Retrying(map[tab := early])]
      else [Exited];
    State(Fields(pending, k > 0, 2 <= k < 9, false, k >= 2), loops, [], 0)
  }

  /** If loop l is in a pass at all, it works on this. */
  predicate Retries(s: State, l: nat, work: map<string, string>) {
    l < |s.loops| && s.loops[l].Retrying? ==> s.loops[l].work == work
  }

  lemma LateStep(tab: string, early: string, late: string, k: nat)
    requires tab != "" && k < 9
    ensures
      var s, step := LateState(tab, early, late, k), LateRun(tab, early, late)[k];
      Enabled(s, step) && Next(s, step) == LateState(tab, early, late, k + 1)
  {
    assert map[tab := late] - {tab} == map[] && map[tab := early][tab := late] == map[tab := late];
    assert tab in map[tab := early];
  }

  lemma {:induction false} LateRunGoes(tab: string, early: string, late: string, k: nat)
    requires tab != "" && k <= 9
    ensures After(LateRun(tab, early, late)[..k]) == Some(LateState(tab, early, late, k))
  {
    var run := LateRun(tab, early, late);
    assert LateState(tab, early, late, 0) == IDLE;
    hide Next, Enabled, LateState;
    if k > 0 {
      LateRunGoes(tab, early, late, k - 1);
      LateStep(tab, early, late, k - 1);
      assert run[..k] == run[..k - 1] + [run[k - 1]];
      Extended(run[..k - 1], run[k - 1]);
    }
  }

  /** A pass that clears after a label was scheduled behind it: the loop goes idle with
      nothing pending, and no pass ever took the label up. */
  lemma ClearErasesALateLabel(tab: string, early: string, late: string)
    requires tab != "" && early != late
    ensures
      var run := LateRun(tab, early, late);
      && LastScheduled(run, 4, tab, late)
      && After(run) == Some(State(Fields(map[], true, false, false, true), [Exited], [], 0))
      && forall k, l | 0 <= k <= |run| :: After(run[..k]).Some? ==> Retries(After(run[..k]).value, l, map[tab := early])
  {
    var run := LateRun(tab, early, late);
    LateRunGoes(tab, early, late, 9);
    LateRunGoes(tab, early, late, 4);
    assert run[..9] == run;
    hide After, Next, Enabled, LateRun;
    forall k, l | 0 <= k <= 9 && After(run[..k]).Some?
      ensures Retries(After(run[..k]).value, l, map[tab := early])
    {
      LateRunGoes(tab, early, late, k);
    }
  }

  /** After the stop, the loop that is left is on its way out: each of its steps
      leads to its exit, and nothing starts another. */
  lemma StopIsFinal(steps: seq<Step>, step: Step, l: nat)
    requires After(steps).Some? && After(steps).value.fields.stopped
    requires Enabled(After(steps).value, step) && l < |After(steps).value.loops|
    ensures
      var s := After(steps).value;
      var t := Next(s, step);
      && t.fields.stopped && |t.loops| == |s.loops| && t.fields.pending.Keys <= s.fields.pending.Keys
      && (step == Tick(l) || step == LeavesOnStop(l) ==> t.loops[l].Exited? && !t.fields.running)
      && (s.loops[l].Selecting? && s.fields.running ==> Enabled(s, SeesStop(l)))
  {
    RunsKeepInv(steps);
    hide After;
  }

  /** A kick makes a pass of its own over all that is pending, which may clear any of it,
      and leaves the loop alone. */
  lemma KickIsAPass(s: State, tab: string)
    requires !s.fields.stopped && tab in s.fields.pending
    ensures
      var t := Next(s, Kick);
      && t.fields == s.fields && t.loops == s.loops && Enabled(t, KickClears(|s.kicks|, tab))
      && tab !in Next(t, KickClears(|s.kicks|, tab)).fields.pending
      && !Enabled(Next(t, KickReturns(|s.kicks|)), KickClears(|s.kicks|, tab))
  {
  }

  /** Why a kick must not mark the state idle: a kick that did, on a live loop with
      nothing pending, would let the next schedule start a second loop. */
  lemma MarkingKickWouldFork(s: State, tab: string, setting: string)
    requires Inv(s) && s.fields.enabled && !s.fields.stopped && s.fields.pending == map[]
    requires s.fields.running && tab != ""
    ensures
      var kicked := s.(fields := Ticked(s.fields, true));
      var t := Next(kicked, Schedule(tab, setting));
      exists l, m :: 0 <= l < m < |t.loops| && !t.loops[l].Exited? && !t.loops[m].Exited?
    ensures Next(Next(s, Kick), Schedule(tab, setting)).loops == s.loops
  {
    var kicked := s.(fields := Ticked(s.fields, true));
    var t := Next(kicked, Schedule(tab, setting));
    var l :| 0 <= l < |s.loops| && !s.loops[l].Exited?;
    assert tab in t.fields.pending;
    assert t.loops == s.loops + [Selecting];
    assert t.loops[l] == s.loops[l] && t.loops[|s.loops|] == Selecting;
  }
}
