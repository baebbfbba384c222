/** The runtime lifecycle lock protocol (desktop/app.go): runtimeRebuildMu, the
    read-write runtimeAdmissionMu and one turnStartMu per tab. Any number of
    threads run lock scripts; sync.RWMutex blocks new readers once a writer queues. */
module LifecycleLocks {
  import opened Options

  type Tab = nat

  /** One lock operation. Write locking announces itself, then waits for readers. Begin
      and End bound what a thread holds its locks for. */
  datatype Op =
    | LockRebuild | UnlockRebuild
    | RLock | RUnlock
    | Announce | AcquireWrite | UnlockWrite
    | LockGate(tab: Tab) | UnlockGate(tab: Tab)
    | Begin | End

  datatype Thread = Thread(script: seq<Op>, pc: nat)

  /** What a thread holds after a prefix of its script. */
  datatype Held = Held(rebuild: bool, read: bool, queued: bool, write: bool, gates: set<Tab>)

  const NOTHING := Held(false, false, false, false, {})

  function After(h: Held, op: Op): Held {
    match op
    case LockRebuild => h.(rebuild := true)
    case UnlockRebuild => h.(rebuild := false)
    case RLock => h.(read := true)
    case RUnlock => h.(read := false)
    case Announce => h.(queued := true)
    case AcquireWrite => h.(queued := false, write := true)
    case UnlockWrite => h.(write := false)
    case LockGate(tab) => h.(gates := h.gates + {tab})
    case UnlockGate(tab) => h.(gates := h.gates - {tab})
    case Begin | End => h
  }

  function HeldAt(script: seq<Op>, pc: nat): Held
    requires pc <= |script|
  {
    if pc == 0 then NOTHING else After(HeldAt(script, pc - 1), script[pc - 1])
  }

  /** The lock order discipline: rebuilding is taken first and never by a read
      holder; the write side only under the rebuild lock, before any gate; a gate
      holder reads only under the rebuild lock, and takes further gates only under
      the write side. */
  predicate Allowed(h: Held, op: Op) {
    match op
    case LockRebuild => h == NOTHING
    case RLock => !h.read && !h.queued && !h.write && (h.gates != {} ==> h.rebuild)
    case Announce => h.rebuild && !h.read && !h.queued && !h.write && h.gates == {}
    case AcquireWrite => h.queued
    case LockGate(tab) => !h.queued && tab !in h.gates && (h.gates != {} ==> h.write)
    case UnlockRebuild => h.rebuild && !h.queued && !h.write
    case RUnlock => h.read && !h.queued
    case UnlockWrite => h.write && !h.queued
    case UnlockGate(tab) => !h.queued && tab in h.gates
    case Begin | End => !h.queued
  }

  /** Every operation is allowed where it stands, and nothing is held at the end. */
  predicate Disciplined(script: seq<Op>) {
    && (forall k :: 0 <= k < |script| ==> Allowed(HeldAt(script, k), script[k]))
    && HeldAt(script, |script|) == NOTHING
  }

  // ----------------------------------------------------- the system's state

  /** Who holds each lock; queued is a writer waiting for readers to leave. */
  datatype Locks = Locks(
    rebuild: Option<nat>,
    readers: set<nat>,
    queued: Option<nat>,
    writer: Option<nat>,
    gates: map<Tab, nat>)

  datatype State = State(threads: seq<Thread>, locks: Locks)

  const EMPTY := State([], Locks(None, {}, None, None, map[]))

  predicate Finished(t: Thread) {
    t.pc >= |t.script|
  }

  /** Go's blocking rules. */
  predicate Free(l: Locks, op: Op) {
    match op
    case LockRebuild => l.rebuild.None?
    case RLock => l.queued.None? && l.writer.None?
    case Announce => l.queued.None? && l.writer.None?
    case AcquireWrite => l.readers == {}
    case LockGate(tab) => tab !in l.gates
    case _ => true
  }

  function Locked(l: Locks, i: nat, op: Op): Locks {
    match op
    case LockRebuild => l.(rebuild := Some(i))
    case UnlockRebuild => l.(rebuild := None)
    case RLock => l.(readers := l.readers + {i})
    case RUnlock => l.(readers := l.readers - {i})
    case Announce => l.(queued := Some(i))
    case AcquireWrite => l.(queued := None, writer := Some(i))
    case UnlockWrite => l.(writer := None)
    case LockGate(tab) => l.(gates := l.gates[tab := i])
    case UnlockGate(tab) => l.(gates := l.gates - {tab})
    case Begin | End => l
  }

  function Next(t: Thread): Op
    requires t.pc < |t.script|
  {
    t.script[t.pc]
  }

  predicate Enabled(s: State, i: nat) {
    i < |s.threads| && s.threads[i].pc < |s.threads[i].script| && Free(s.locks, Next(s.threads[i]))
  }

  function Take(s: State, i: nat): State
    requires Enabled(s, i)
  {
    var t := s.threads[i];
    State(s.threads[i := t.(pc := t.pc + 1)], Locked(s.locks, i, Next(t)))
  }

  function Arrive(s: State, script: seq<Op>): State {
    s.(threads := s.threads + [Thread(script, 0)])
  }

  ghost predicate Steps(s: State, t: State) {
    || (exists script :: Disciplined(script) && t == Arrive(s, script))
    || (exists i :: Enabled(s, i) && t == Take(s, i))
  }

  /** A run from the empty system: threads arrive and step in any interleaving. */
  ghost predicate Run(states: seq<State>) {
    && states != [] && states[0] == EMPTY
    && (forall k :: 0 <= k < |states| - 1 ==> Steps(states[k], states[k + 1]))
  }

  // ------------------------------------------------------------- invariant

  /** The locks record exactly what the threads hold, and a holder of the write
      side excludes readers and other writers. */
  ghost predicate Match(l: Locks, held: seq<Held>) {
    && (l.rebuild.Some? ==> l.rebuild.value < |held| && held[l.rebuild.value].rebuild)
    && (forall i :: i in l.readers ==> i < |held| && held[i].read)
    && (l.queued.Some? ==> l.queued.value < |held| && held[l.queued.value].queued)
    && (l.writer.Some? ==> l.writer.value < |held| && held[l.writer.value].write)
    && (forall i :: 0 <= i < |held| ==>
          && (held[i].rebuild ==> l.rebuild == Some(i)) && (held[i].read ==> i in l.readers)
          && (held[i].queued ==> l.queued == Some(i)) && (held[i].write ==> l.writer == Some(i)))
    && GatesMatch(l.gates, held)
    && (l.writer.Some? ==> l.readers == {} && l.queued.None?)
  }

  ghost predicate GatesMatch(gates: map<Tab, nat>, held: seq<Held>) {
    && (forall tab :: tab in gates ==> gates[tab] < |held| && tab in held[gates[tab]].gates)
    && (forall i, tab :: 0 <= i < |held| && tab in held[i].gates ==> tab in gates && gates[tab] == i)
  }

  predicate ThreadValid(t: Thread) {
    t.pc <= |t.script| && Disciplined(t.script)
  }

  predicate ThreadsValid(threads: seq<Thread>) {
    forall i :: 0 <= i < |threads| ==> ThreadValid(threads[i])
  }

  function HeldBy(t: Thread): Held
    requires ThreadValid(t)
  {
    HeldAt(t.script, t.pc)
  }

  function HeldByAll(threads: seq<Thread>): (held: seq<Held>)
    requires ThreadsValid(threads)
    ensures |held| == |threads| && forall i :: 0 <= i < |threads| ==> held[i] == HeldBy(threads[i])
  {
    seq(|threads|, i requires 0 <= i < |threads| => HeldBy(threads[i]))
  }

  ghost predicate Inv(s: State) {
    ThreadsValid(s.threads) && Match(s.locks, HeldByAll(s.threads))
  }

  lemma ThreadStep(t: Thread)
    requires ThreadValid(t) && !Finished(t)
    ensures Allowed(HeldBy(t), Next(t)) && ThreadValid(t.(pc := t.pc + 1))
    ensures HeldBy(t.(pc := t.pc + 1)) == After(HeldBy(t), Next(t))
  {
    hide After, Allowed;
    var next := t.(pc := t.pc + 1);
    assert HeldAt(next.script, next.pc) == After(HeldAt(t.script, t.pc), t.script[t.pc]);
  }

  lemma LockingKeepsMatch(l: Locks, held: seq<Held>, i: nat, op: Op)
    requires Match(l, held) && i < |held| && Allowed(held[i], op) && Free(l, op)
    ensures Match(Locked(l, i, op), held[i := After(held[i], op)])
  {
    LockingKeepsGates(l, held, i, op);
    hide GatesMatch;
  }

  lemma LockingKeepsGates(l: Locks, held: seq<Held>, i: nat, op: Op)
    requires GatesMatch(l.gates, held) && i < |held| && Allowed(held[i], op) && Free(l, op)
    ensures GatesMatch(Locked(l, i, op).gates, held[i := After(held[i], op)])
  {
    match op {
      case LockGate(tab) => GateLocked(l.gates, held, i, tab, After(held[i], op));
      case UnlockGate(tab) => GateUnlocked(l.gates, held, i, tab, After(held[i], op));
      case _ => GatesUntouched(l.gates, held, i, After(held[i], op));
    }
    hide GatesMatch;
  }

  lemma GateLocked(gates: map<Tab, nat>, held: seq<Held>, i: nat, tab: Tab, now: Held)
    requires GatesMatch(gates, held) && i < |held| && tab !in gates && now.gates == held[i].gates + {tab}
    ensures GatesMatch(gates[tab := i], held[i := now])
  {
  }

  lemma GateUnlocked(gates: map<Tab, nat>, held: seq<Held>, i: nat, tab: Tab, now: Held)
    requires GatesMatch(gates, held) && i < |held| && tab in held[i].gates && now.gates == held[i].gates - {tab}
    ensures GatesMatch(gates - {tab}, held[i := now])
  {
    assert gates[tab] == i;
    var (left, after) := (gates - {tab}, held[i := now]);
    forall t | t in left ensures left[t] < |after| && t in after[left[t]].gates {
      assert t in held[gates[t]].gates;
    }
    forall k, t | 0 <= k < |after| && t in after[k].gates ensures t in left && left[t] == k {
      assert t in held[k].gates;
    }
  }

  lemma GatesUntouched(gates: map<Tab, nat>, held: seq<Held>, i: nat, now: Held)
    requires GatesMatch(gates, held) && i < |held| && now.gates == held[i].gates
    ensures GatesMatch(gates, held[i := now])
  {
  }

  lemma ArriveKeepsInv(s: State, script: seq<Op>)
    requires Inv(s) && Disciplined(script)
    ensures Inv(Arrive(s, script))
  {
    hide Disciplined;
    var t := Arrive(s, script);
    assert HeldByAll(t.threads) == HeldByAll(s.threads) + [NOTHING];
  }

  lemma TakeKeepsInv(s: State, i: nat)
    requires Inv(s) && Enabled(s, i)
    ensures Inv(Take(s, i))
  {
    var t, op := Take(s, i), Next(s.threads[i]);
    ThreadStep(s.threads[i]);
    hide Disciplined, Match, Free, Locked, After, Allowed;
    LockingKeepsMatch(s.locks, HeldByAll(s.threads), i, op);
    assert HeldByAll(t.threads) == HeldByAll(s.threads)[i := After(HeldBy(s.threads[i]), op)];
  }

  lemma StepKeepsInv(s: State, t: State)
    requires Inv(s) && Steps(s, t)
    ensures Inv(t)
  {
    hide Inv, Enabled, Take, Arrive, Disciplined;
    if i: nat :| Enabled(s, i) && t == Take(s, i) {
      TakeKeepsInv(s, i);
    } else {
      var script :| Disciplined(script) && t == Arrive(s, script);
      ArriveKeepsInv(s, script);
    }
  }

  lemma RunStarts(states: seq<State>)
    requires Run(states)
    ensures Inv(states[0])
  {
    assert HeldByAll([]) == [];
  }

  lemma RunStep(states: seq<State>, k: nat)
    requires Run(states) && 0 < k < |states|
    ensures Steps(states[k - 1], states[k])
  {
    hide Steps;
  }

  lemma {:induction false} RunsKeepInv(states: seq<State>, k: nat)
    requires Run(states) && k < |states|
    ensures Inv(states[k])
  {
    if k > 0 {
      RunsKeepInv(states, k - 1);
      RunStep(states, k);
      StepKeepsInv(states[k - 1], states[k]);
    } else {
      RunStarts(states);
    }
    hide *;
  }

  // ---------------------------------------------------------------- safety

  /** In every reachable state, while one thread holds the write side no other
      thread is between its admission and its release, and none rebuilds. */
  lemma WriterExcludesTurns(states: seq<State>, k: nat, i: nat, j: nat)
    requires Run(states) && k < |states| && i < |states[k].threads| && j < |states[k].threads| && i != j
    ensures ThreadsValid(states[k].threads)
    ensures HeldBy(states[k].threads[i]).write ==>
              var other := HeldBy(states[k].threads[j]);
              !other.read && !other.write && !other.rebuild
  {
    RunsKeepInv(states, k);
    var s := states[k];
    if HeldBy(s.threads[i]).write {
      WritingFacts(s.threads[i]);
      hide Disciplined;
      var held := HeldByAll(s.threads);
      assert held[i].write && held[i].rebuild;
      assert s.locks.writer == Some(i) && s.locks.rebuild == Some(i);
      assert held[j] == HeldBy(s.threads[j]);
    }
  }

  predicate WritingSane(h: Held) {
    && (h.queued || h.write ==> h.rebuild)
    && (h.queued ==> h.gates == {} && !h.read && !h.write)
    && !(h.read && h.write)
  }

  lemma NothingIsSane()
    ensures WritingSane(NOTHING)
  {
  }

  lemma AllowedKeepsSane(h: Held, op: Op)
    requires WritingSane(h) && Allowed(h, op) && (h.queued ==> op == AcquireWrite)
    ensures WritingSane(After(h, op))
  {
  }

  lemma QueuedAcquires(h: Held, op: Op)
    requires h.queued && Allowed(h, op)
    ensures op == AcquireWrite
  {
  }

  /** A writer, queued or holding, rebuilds; a queued one goes on to acquire. */
  lemma WritingFacts(t: Thread)
    requires ThreadValid(t)
    ensures WritingSane(HeldBy(t))
    ensures HeldBy(t).queued ==> !Finished(t) && Next(t) == AcquireWrite
  {
    SaneAt(t.script, t.pc);
  }

  lemma {:induction false} SaneAt(script: seq<Op>, pc: nat)
    requires Disciplined(script) && pc <= |script|
    ensures WritingSane(HeldAt(script, pc))
    ensures HeldAt(script, pc).queued ==> pc < |script| && script[pc] == AcquireWrite
  {
    hide After, WritingSane;
    if pc == 0 {
      assert WritingSane(NOTHING) by { NothingIsSane(); }
    } else {
      SaneAt(script, pc - 1);
      AllowedKeepsSane(HeldAt(script, pc - 1), script[pc - 1]);
    }
    if HeldAt(script, pc).queued {
      assert pc < |script| by { assert NOTHING.queued == false; }
      assert Allowed(HeldAt(script, pc), script[pc]);
      QueuedAcquires(HeldAt(script, pc), script[pc]);
    }
  }

  /** A waiting writer lets no further reader in, so what it waits for only shrinks. */
  lemma WaitingWriterAdmitsNoReader(s: State, i: nat)
    requires s.locks.queued.Some? && Enabled(s, i)
    ensures Take(s, i).locks.readers <= s.locks.readers
    ensures Take(s, i).locks.queued == s.locks.queued || s.locks.readers == {}
  {
  }

  // -------------------------------------------------------- deadlock freedom

  lemma HolderIsUnfinished(t: Thread)
    requires ThreadValid(t) && HeldBy(t) != NOTHING
    ensures !Finished(t) && Allowed(HeldBy(t), Next(t))
  {
    hide After, Allowed;
  }

  /** A gate holder that is no writer waits for no gate, and reads only while it
      rebuilds. */
  lemma PlainGateHolderIsFree(h: Held, op: Op, l: Locks)
    requires Allowed(h, op) && h.gates != {} && !h.write && !h.queued
    requires l.queued.Some? || l.writer.Some? ==> !h.rebuild
    ensures Free(l, op)
  {
  }

  lemma GateRecorded(l: Locks, held: seq<Held>, tab: Tab)
    requires Match(l, held) && tab in l.gates
    ensures l.gates[tab] < |held|
    ensures
      var holder := held[l.gates[tab]];
      && tab in holder.gates && (holder.write ==> l.writer == Some(l.gates[tab]))
      && (holder.queued ==> l.queued == Some(l.gates[tab])) && (holder.rebuild ==> l.rebuild == Some(l.gates[tab]))
  {
  }

  /** The thread holding this gate can always move. */
  lemma GateHolderMoves(s: State, tab: Tab)
    requires Inv(s) && tab in s.locks.gates && s.locks.writer != Some(s.locks.gates[tab])
    requires s.locks.queued.Some? || s.locks.writer.Some? ==> s.locks.rebuild != Some(s.locks.gates[tab])
    ensures Enabled(s, s.locks.gates[tab])
  {
    var g := s.locks.gates[tab];
    var held := HeldByAll(s.threads);
    GateRecorded(s.locks, held, tab);
    hide Match;
    HolderIsUnfinished(s.threads[g]);
    WritingFacts(s.threads[g]);
    hide Disciplined, Allowed, Free, HeldBy;
    assert held[g] == HeldBy(s.threads[g]) && !held[g].write && !held[g].queued;
    PlainGateHolderIsFree(held[g], Next(s.threads[g]), s.locks);
  }

  lemma WriterRebuilds(s: State)
    requires Inv(s)
    ensures s.locks.writer.Some? ==> s.locks.rebuild == s.locks.writer
    ensures s.locks.queued.Some? ==> s.locks.rebuild == s.locks.queued
  {
    var held := HeldByAll(s.threads);
    if s.locks.writer.Some? {
      assert held[s.locks.writer.value].write;
      WritingFacts(s.threads[s.locks.writer.value]);
    }
    if s.locks.queued.Some? {
      assert held[s.locks.queued.value].queued;
      WritingFacts(s.threads[s.locks.queued.value]);
    }
  }

  /** While a thread is unfinished, some thread can move. */
  lemma NeverDeadlocks(s: State, i: nat) returns (j: nat)
    requires Inv(s) && i < |s.threads| && !Finished(s.threads[i])
    ensures Enabled(s, j)
  {
    hide Inv, Enabled;
    if s.locks.writer.Some? {
      j := WriterPathMoves(s);
    } else if s.locks.queued.Some? {
      j := QueuePathMoves(s);
    } else {
      j := PlainThreadMoves(s, i);
    }
  }

  lemma WriterPathMoves(s: State) returns (j: nat)
    requires Inv(s) && s.locks.writer.Some?
    ensures Enabled(s, j)
  {
    WriterRebuilds(s);
    j := s.locks.writer.value;
    assert HeldByAll(s.threads)[j].write;
    HolderIsUnfinished(s.threads[j]);
    WritingFacts(s.threads[j]);
    hide Disciplined;
    if !Enabled(s, j) {
      var tab := Next(s.threads[j]).tab;
      assert s.locks.gates[tab] != j;
      GateHolderMoves(s, tab);
      j := s.locks.gates[tab];
    }
  }

  lemma QueuePathMoves(s: State) returns (j: nat)
    requires Inv(s) && s.locks.queued.Some? && s.locks.writer.None?
    ensures Enabled(s, j)
  {
    WriterRebuilds(s);
    j := s.locks.queued.value;
    assert HeldByAll(s.threads)[j].queued;
    WritingFacts(s.threads[j]);
    if s.locks.readers != {} {
      j :| j in s.locks.readers;
      var h := HeldByAll(s.threads)[j];
      assert h == HeldBy(s.threads[j]) && h.read && !h.rebuild;
      HolderIsUnfinished(s.threads[j]);
      hide Disciplined;
      if !Enabled(s, j) {
        var tab := Next(s.threads[j]).tab;
        assert s.locks.gates[tab] != s.locks.queued.value;
        GateHolderMoves(s, tab);
        j := s.locks.gates[tab];
      }
    }
  }

  /** With no writer holding or queued: an unfinished thread, the holder of the
      rebuild lock it waits for, or the holder of the gate one of them waits for. */
  lemma PlainThreadMoves(s: State, i: nat) returns (j: nat)
    requires Inv(s) && s.locks.writer.None? && s.locks.queued.None? && i < |s.threads| && !Finished(s.threads[i])
    ensures Enabled(s, j)
  {
    j := i;
    ThreadStep(s.threads[i]);
    if Next(s.threads[i]) in {LockRebuild} && s.locks.rebuild.Some? {
      j := s.locks.rebuild.value;
      assert HeldByAll(s.threads)[j].rebuild;
      HolderIsUnfinished(s.threads[j]);
    }
    var h := HeldByAll(s.threads)[j];
    assert h == HeldBy(s.threads[j]) && Allowed(h, Next(s.threads[j])) && !h.queued;
    hide Disciplined;
    if !Enabled(s, j) {
      var tab := Next(s.threads[j]).tab;
      GateHolderMoves(s, tab);
      j := s.locks.gates[tab];
    }
  }

  // ---------------------------------------------- every operation completes

  function Remaining(threads: seq<Thread>): int {
    if threads == [] then 0
    else Remaining(threads[..|threads| - 1]) + |threads[|threads| - 1].script| - threads[|threads| - 1].pc
  }

  lemma {:induction false} RemainingUpdate(threads: seq<Thread>, i: nat, t: Thread)
    requires i < |threads| && t.script == threads[i].script
    ensures Remaining(threads[i := t]) == Remaining(threads) - (t.pc - threads[i].pc)
  {
    var n := |threads| - 1;
    if i < n {
      RemainingUpdate(threads[..n], i, t);
      assert threads[i := t][..n] == threads[..n][i := t];
    } else {
      assert threads[i := t][..n] == threads[..n];
    }
  }

  lemma TakeUsesOneStep(s: State, i: nat)
    requires Enabled(s, i)
    ensures Remaining(Take(s, i).threads) == Remaining(s.threads) - 1
  {
    hide Locked, Free;
    RemainingUpdate(s.threads, i, Take(s, i).threads[i]);
  }

  lemma {:induction false} NothingRemains(threads: seq<Thread>)
    requires forall i :: 0 <= i < |threads| ==> threads[i].pc <= |threads[i].script|
    ensures Remaining(threads) >= 0
    ensures Remaining(threads) == 0 <==> forall i :: 0 <= i < |threads| ==> Finished(threads[i])
  {
    if threads != [] {
      var init := threads[..|threads| - 1];
      NothingRemains(init);
      assert forall i :: 0 <= i < |init| ==> init[i] == threads[i];
    }
  }

  /** A schedule: states linked by steps, without further arrivals. */
  ghost predicate Schedule(states: seq<State>) {
    states != [] && forall k :: 0 <= k < |states| - 1 ==>
        exists i: nat :: Enabled(states[k], i) && states[k + 1] == Take(states[k], i)
  }

  lemma {:induction false} ScheduleUsesUpSteps(states: seq<State>, k: nat)
    requires Schedule(states) && Inv(states[0]) && k < |states|
    ensures Inv(states[k]) && Remaining(states[k].threads) == Remaining(states[0].threads) - k
  {
    if k > 0 {
      ScheduleUsesUpSteps(states, k - 1);
      hide Inv, Enabled, Take, Remaining;
      var s := states[k - 1];
      var i: nat :| Enabled(s, i) && states[k] == Take(s, i);
      TakeKeepsInv(s, i);
      TakeUsesOneStep(s, i);
    }
  }

  ghost predicate Stuck(s: State) {
    forall j: nat :: !Enabled(s, j)
  }

  predicate AllFinished(s: State) {
    forall i :: 0 <= i < |s.threads| ==> Finished(s.threads[i])
  }

  /** Whatever the scheduler does, once arrivals stop every thread finishes, in
      exactly as many steps as their scripts have left. */
  lemma EveryScheduleCompletes(states: seq<State>)
    requires Schedule(states) && Inv(states[0])
    ensures |states| - 1 <= Remaining(states[0].threads)
    ensures Stuck(states[|states| - 1]) <==> AllFinished(states[|states| - 1])
    ensures Stuck(states[|states| - 1]) <==> |states| - 1 == Remaining(states[0].threads)
  {
    var last := states[|states| - 1];
    ScheduleUsesUpSteps(states, |states| - 1);
    NothingRemains(last.threads);
    if !AllFinished(last) {
      var i :| 0 <= i < |last.threads| && !Finished(last.threads[i]);
      var j := NeverDeadlocks(last, i);
    }
  }

  // ------------------------------------------------- the repository's scripts

  /** beginTabTurn to tabTurnAdmission.finish or abort: read, gate; released gate
      first. */
  function TurnScript(tab: Tab): seq<Op> {
    [RLock, LockGate(tab), Begin, End, UnlockGate(tab), RUnlock]
  }

  /** buildTabControllerWithContext on its own. */
  const BUILD_SCRIPT: seq<Op> := [RLock, Begin, End, RUnlock]

  /** Mode, goal and approval setters take one gate only. */
  function SetterScript(tab: Tab): seq<Op> {
    [LockGate(tab), Begin, End, UnlockGate(tab)]
  }

  function Repairs(n: nat): seq<Op> {
    if n == 0 then [] else Repairs(n - 1) + [RLock, RUnlock]
  }

  /** SetModelForTab and the other rebuilds: rebuild, gate, then the read side
      once per workspace repair. */
  function RebuildScript(tab: Tab, repairs: nat): seq<Op> {
    [LockRebuild, LockGate(tab), Begin] + Repairs(repairs) + [End, UnlockGate(tab), UnlockRebuild]
  }

  function GateOps(tabs: seq<Tab>, n: nat): seq<Op>
    requires n <= |tabs|
  {
    if n == 0 then [] else GateOps(tabs, n - 1) + [LockGate(tabs[n - 1])]
  }

  function UngateOps(tabs: seq<Tab>, n: nat): seq<Op>
    requires n <= |tabs|
  {
    if n == 0 then [] else [UnlockGate(tabs[n - 1])] + UngateOps(tabs, n - 1)
  }

  /** lockRuntimeMutation with lockRuntimeTurnGates over tabs (session rebinding
      is the case of one tab, teardown that of none). */
  function MutationScript(tabs: seq<Tab>): seq<Op> {
    [LockRebuild, Announce, AcquireWrite] + GateOps(tabs, |tabs|) + [Begin, End] + UngateOps(tabs, |tabs|)
    + [UnlockWrite, UnlockRebuild]
  }

  /** A script prefix that is allowed from one holding and leaves another. */
  ghost predicate Leads(a: Held, ops: seq<Op>, b: Held)
    decreases |ops|
  {
    if ops == [] then a == b else Allowed(a, ops[0]) && Leads(After(a, ops[0]), ops[1..], b)
  }

  lemma {:induction false} LeadsJoin(a: Held, x: seq<Op>, b: Held, y: seq<Op>, c: Held)
    requires Leads(a, x, b) && Leads(b, y, c)
    ensures Leads(a, x + y, c)
    decreases |x|
  {
    if x == [] {
      assert x + y == y;
    } else {
      LeadsJoin(After(a, x[0]), x[1..], b, y, c);
      assert (x + y)[1..] == x[1..] + y;
    }
  }

  lemma {:induction false} LeadsIsDisciplined(script: seq<Op>, pc: nat)
    requires pc <= |script| && Leads(HeldAt(script, pc), script[pc..], NOTHING)
    ensures forall k :: pc <= k < |script| ==> Allowed(HeldAt(script, k), script[k])
    ensures HeldAt(script, |script|) == NOTHING
    decreases |script| - pc
  {
    if pc < |script| {
      assert script[pc..][1..] == script[pc + 1..];
      LeadsIsDisciplined(script, pc + 1);
    }
  }

  lemma LeadsThree(a: Held, x: Op, y: Op, z: Op, b: Held)
    requires Allowed(a, x) && Allowed(After(a, x), y) && Allowed(After(After(a, x), y), z)
    requires After(After(After(a, x), y), z) == b
    ensures Leads(a, [x, y, z], b)
  {
    assert [x, y, z][1..] == [y, z] && [y, z][1..] == [z] && [z][1..] == [];
    assert Leads(b, [], b) && Leads(After(After(a, x), y), [z], b) && Leads(After(a, x), [y, z], b);
    hide After, Allowed;
  }

  lemma SmallScriptsAreDisciplined(tab: Tab)
    ensures Disciplined(TurnScript(tab)) && Disciplined(BUILD_SCRIPT) && Disciplined(SetterScript(tab))
  {
    var turn, setter := TurnScript(tab), SetterScript(tab);
    assert HeldAt(turn, 1) == Held(false, true, false, false, {});
    var reading, both, gate := Held(false, true, false, false, {}), Held(false, true, false, false, {tab}),
      Held(false, false, false, false, {tab});
    assert HeldAt(turn, 1) == HeldAt(BUILD_SCRIPT, 1) == reading && HeldAt(setter, 1) == gate;
    assert HeldAt(turn, 2) == both && HeldAt(BUILD_SCRIPT, 2) == reading && HeldAt(setter, 2) == gate;
    assert HeldAt(turn, 3) == both && HeldAt(BUILD_SCRIPT, 3) == reading && HeldAt(setter, 3) == gate;
    assert HeldAt(turn, 4) == both && HeldAt(BUILD_SCRIPT, 4) == HeldAt(setter, 4) == NOTHING;
    assert HeldAt(turn, 5) == reading && HeldAt(turn, 6) == NOTHING;
  }

  lemma {:induction false} RepairsLead(tab: Tab, n: nat)
    ensures Leads(Held(true, false, false, false, {tab}), Repairs(n), Held(true, false, false, false, {tab}))
  {
    if n > 0 {
      var h := Held(true, false, false, false, {tab});
      RepairsLead(tab, n - 1);
      assert [RLock, RUnlock][1..] == [RUnlock];
      assert Leads(h, [RLock, RUnlock], h);
      LeadsJoin(h, Repairs(n - 1), h, [RLock, RUnlock], h);
    }
  }

  lemma RebuildIsDisciplined(tab: Tab, repairs: nat)
    ensures Disciplined(RebuildScript(tab, repairs))
  {
    var h := Held(true, false, false, false, {tab});
    var enter, leave := [LockRebuild, LockGate(tab), Begin], [End, UnlockGate(tab), UnlockRebuild];
    LeadsThree(NOTHING, LockRebuild, LockGate(tab), Begin, h);
    LeadsThree(h, End, UnlockGate(tab), UnlockRebuild, NOTHING);
    RepairsLead(tab, repairs);
    LeadsJoin(NOTHING, enter, h, Repairs(repairs), h);
    LeadsJoin(NOTHING, enter + Repairs(repairs), h, leave, NOTHING);
    assert RebuildScript(tab, repairs)[0..] == RebuildScript(tab, repairs);
    LeadsIsDisciplined(RebuildScript(tab, repairs), 0);
  }

  predicate DistinctTabs(tabs: seq<Tab>) {
    forall i, j :: 0 <= i < j < |tabs| ==> tabs[i] != tabs[j]
  }

  function TabSet(tabs: seq<Tab>, n: nat): set<Tab>
    requires n <= |tabs|
  {
    set k | 0 <= k < n :: tabs[k]
  }

  function Mutating(gates: set<Tab>): Held {
    Held(true, false, false, true, gates)
  }

  lemma {:induction false} GatesLead(tabs: seq<Tab>, n: nat)
    requires DistinctTabs(tabs) && n <= |tabs|
    ensures Leads(Mutating({}), GateOps(tabs, n), Mutating(TabSet(tabs, n)))
  {
    if n > 0 {
      GatesLead(tabs, n - 1);
      assert TabSet(tabs, n) == TabSet(tabs, n - 1) + {tabs[n - 1]};
      assert Leads(Mutating(TabSet(tabs, n - 1)), [LockGate(tabs[n - 1])], Mutating(TabSet(tabs, n)));
      LeadsJoin(Mutating({}), GateOps(tabs, n - 1), Mutating(TabSet(tabs, n - 1)), [LockGate(tabs[n - 1])],
          Mutating(TabSet(tabs, n)));
    }
  }

  lemma {:induction false} UngatesLead(tabs: seq<Tab>, n: nat)
    requires DistinctTabs(tabs) && n <= |tabs|
    ensures Leads(Mutating(TabSet(tabs, n)), UngateOps(tabs, n), Mutating({}))
  {
    if n > 0 {
      UngatesLead(tabs, n - 1);
      assert TabSet(tabs, n) - {tabs[n - 1]} == TabSet(tabs, n - 1);
      assert UngateOps(tabs, n)[1..] == UngateOps(tabs, n - 1);
    }
  }

  lemma MutationIsDisciplined(tabs: seq<Tab>)
    requires DistinctTabs(tabs)
    ensures Disciplined(MutationScript(tabs))
  {
    var enter, leave := [LockRebuild, Announce, AcquireWrite], [UnlockWrite, UnlockRebuild];
    assert leave[1..] == [UnlockRebuild];
    LeadsThree(NOTHING, LockRebuild, Announce, AcquireWrite, Mutating({}));
    assert Leads(Mutating({}), leave, NOTHING);
    GatesLead(tabs, |tabs|);
    UngatesLead(tabs, |tabs|);
    var gates := TabSet(tabs, |tabs|);
    LeadsJoin(NOTHING, enter, Mutating({}), GateOps(tabs, |tabs|), Mutating(gates));
    var locked := enter + GateOps(tabs, |tabs|);
    assert [Begin, End][1..] == [End] && Leads(Mutating(gates), [Begin, End], Mutating(gates));
    LeadsJoin(NOTHING, locked, Mutating(gates), [Begin, End], Mutating(gates));
    LeadsJoin(NOTHING, locked + [Begin, End], Mutating(gates), UngateOps(tabs, |tabs|), Mutating({}));
    LeadsJoin(NOTHING, locked + [Begin, End] + UngateOps(tabs, |tabs|), Mutating({}), leave, NOTHING);
    assert MutationScript(tabs)[0..] == MutationScript(tabs);
    LeadsIsDisciplined(MutationScript(tabs), 0);
  }

  /** Why read holders must never take the rebuild lock: one such thread and one
      mutation reach a state where neither can move. */
  lemma ReaderTakingRebuildDeadlocks(tabs: seq<Tab>)
    ensures
      var rogue := [RLock, LockRebuild, UnlockRebuild, RUnlock];
      var s0 := Arrive(Arrive(EMPTY, MutationScript(tabs)), rogue);
      && !Disciplined(rogue)
      && Enabled(s0, 1) && Enabled(Take(s0, 1), 0) && Enabled(Take(Take(s0, 1), 0), 0)
      && var s := Take(Take(Take(s0, 1), 0), 0);
         !Finished(s.threads[0]) && !Finished(s.threads[1]) && forall j :: !Enabled(s, j)
  {
    var rogue := [RLock, LockRebuild, UnlockRebuild, RUnlock];
    assert HeldAt(rogue, 1).read && !Allowed(HeldAt(rogue, 1), rogue[1]);
    var m := MutationScript(tabs);
    assert m[0] == LockRebuild && m[1] == Announce && m[2] == AcquireWrite;
  }

  // ----------------------------------------------------- one admission token

  /** Lock counts a turn admission releases. */
  class Barrier {
    var readHolds: nat
    var gateHeld: set<Tab>
    constructor ()
      ensures readHolds == 0 && gateHeld == {}
    {
      readHolds, gateHeld := 0, {};
    }
  }

  /** tabTurnAdmission: owns one read hold and one gate until released. */
  class TabTurnAdmission {
    const barrier: Barrier
    const tab: Tab
    var released: bool

    predicate Valid()
      reads this, barrier
    {
      !released ==> barrier.readHolds > 0 && tab in barrier.gateHeld
    }

    constructor (barrier: Barrier, tab: Tab)
      requires tab !in barrier.gateHeld
      modifies barrier
      ensures this.barrier == barrier && this.tab == tab && !released && Valid()
      ensures barrier.readHolds == old(barrier.readHolds) + 1 && barrier.gateHeld == old(barrier.gateHeld) + {tab}
    {
      this.barrier, this.tab, released := barrier, tab, false;
      new;
      barrier.readHolds := barrier.readHolds + 1;
      barrier.gateHeld := barrier.gateHeld + {tab};
    }

    /** The first call releases both locks; later calls change nothing. */
    method Finish(running: bool) returns (started: bool)
      requires Valid()
      modifies this, barrier
      ensures Valid() && released
      ensures started == (running && !old(released))
      ensures barrier.readHolds == old(barrier.readHolds) - (if old(released) then 0 else 1)
      ensures barrier.gateHeld == if old(released) then old(barrier.gateHeld) else old(barrier.gateHeld) - {tab}
    {
      if released {
        return false;
      }
      released := true;
      started := running;
      barrier.gateHeld := barrier.gateHeld - {tab};
      barrier.readHolds := barrier.readHolds - 1;
    }
  }

  /** A turn that finishes and then runs its deferred abort releases once. */
  method StartTurn(barrier: Barrier, tab: Tab, running: bool, finishes: bool) returns (started: bool)
    requires tab !in barrier.gateHeld
    modifies barrier
    ensures barrier.readHolds == old(barrier.readHolds) && barrier.gateHeld == old(barrier.gateHeld)
    ensures started == (running && finishes)
  {
    var admission := new TabTurnAdmission(barrier, tab);
    started := false;
    if finishes {
      started := admission.Finish(running);
    }
    var _ := admission.Finish(false);
  }
}
