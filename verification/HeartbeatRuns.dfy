/** Which slots the heartbeat engine runs, and how it writes run state back
    (tick, executeTask, heartbeatTaskDueAt and mergeRunUpdatesLocked in
    desktop/heartbeat.go). Stored times are Unix milliseconds with 0 for never;
    slots are local times, zone milliseconds ahead. */
module HeartbeatRuns {
  import opened Options
  import opened HeartbeatCalendar
  import opened HeartbeatSchedule

  /** One end of a time window: blank, unreadable, or minutes past midnight. */
  datatype ClockText = Blank | Unreadable | Minutes(value: int)

  /** What a user or an editor of the config file owns. A rule and an interval are
      None when the text does not parse. */
  datatype Definition = Definition(
    text: string,
    enabled: bool,
    schedule: Option<Schedule>,
    interval: Option<int>,
    windowStart: ClockText,
    windowEnd: ClockText)

  datatype HeartbeatTask = HeartbeatTask(id: string, def: Definition, topicId: string, lastRunAt: int, createdAt: int)

  predicate WellFormed(t: HeartbeatTask) {
    t.def.schedule.Some? ==> Parsed(t.def.schedule.value)
  }

  // ------------------------------------------------------------- being due

  predicate WithinTimeWindow(d: Definition, local: int) {
    var minutes := ClockOf(local) / MINUTE;
    match (d.windowStart, d.windowEnd)
    case (Minutes(start), Minutes(end)) =>
      if start < end then start <= minutes < end else start <= minutes || minutes < end
    case (Minutes(start), _) => start <= minutes
    case (_, Minutes(end)) => minutes < end
    case _ => true
  }

  /** The interval rule, used when there is no schedule rule or it finds no slot. */
  predicate IntervalDue(t: HeartbeatTask, zone: int, now: int) {
    var base := if t.lastRunAt != 0 then t.lastRunAt else t.createdAt;
    && t.def.interval.Some? && t.def.interval.value > 0
    && (base != 0 ==> now - base >= t.def.interval.value)
    && ((t.def.windowStart.Blank? && t.def.windowEnd.Blank?) || WithinTimeWindow(t.def, now + zone))
  }

  /** A window is the stretch of the day clock that starts at its start: up to its end,
      around midnight if need be, the whole day if both are the same. Without an end it
      lasts to midnight, without a start from midnight. */
  lemma WindowIsAStretch(d: Definition, local: int)
    requires d.windowStart.Minutes? ==> 0 <= d.windowStart.value < 1440
    requires d.windowEnd.Minutes? ==> 0 <= d.windowEnd.value < 1440
    ensures
      var minute := local % 86_400_000 / 60_000;
      var start := if d.windowStart.Minutes? then d.windowStart.value else 0;
      var last := if d.windowEnd.Minutes? then (d.windowEnd.value - 1) % 1440 else 1439;
      && (d.windowStart.Minutes? ==>
            (WithinTimeWindow(d, local) <==> (minute - start) % 1440 <= (last - start) % 1440))
      && (!d.windowStart.Minutes? && d.windowEnd.Minutes? ==>
            (WithinTimeWindow(d, local) <==> minute < d.windowEnd.value))
      && (!d.windowStart.Minutes? && !d.windowEnd.Minutes? ==> WithinTimeWindow(d, local))
  {
  }

  /** Without a rule a task is due an interval after its last run; one that never ran,
      an interval after it was made; one without either time, at once. A window only
      puts that off. */
  lemma IntervalCountsFrom(t: HeartbeatTask, zone: int, now: int)
    requires t.def.schedule.None? && t.def.interval.Some? && t.def.interval.value > 0
    ensures
      var open := (t.def.windowStart.Blank? && t.def.windowEnd.Blank?) || WithinTimeWindow(t.def, now + zone);
      && (t.lastRunAt != 0 ==> (Due(t, zone, now) <==> open && t.lastRunAt + t.def.interval.value <= now))
      && (t.lastRunAt == 0 && t.createdAt != 0 ==>
            (Due(t, zone, now) <==> open && t.createdAt + t.def.interval.value <= now))
      && (t.lastRunAt == 0 && t.createdAt == 0 ==> (Due(t, zone, now) <==> open))
  {
  }

  /** What biweekly weeks are counted from. */
  function Anchor(t: HeartbeatTask, now: int): int {
    if t.createdAt != 0 then t.createdAt else if t.lastRunAt != 0 then t.lastRunAt else now
  }

  /** A biweekly task keeps to every second week, Monday to Sunday, from the one it was
      made in; one without that time, from that of its last run. */
  lemma BiweeklyKeepsItsWeeks(t: HeartbeatTask, zone: int, now: int, slot: int)
    requires t.def.schedule.Some? && t.def.schedule.value.Biweekly? && Unconsumed(t, zone, now, slot)
    ensures
      var from := if t.createdAt != 0 then t.createdAt else t.lastRunAt;
      from != 0 ==> ((DayOf(slot) + 3) / 7 - (DayOf(from + zone) + 3) / 7) % 2 == 0
  {
    assert SameParity(Anchor(t, now) + zone, DayOf(slot));
    hide IsSlot, DayOf;
  }

  /** The schedule rule decides, rather than the interval. */
  predicate RuleDecides(t: HeartbeatTask, zone: int, now: int) {
    t.def.schedule.Some? && !FindsNone(t.def.schedule.value, Anchor(t, now) + zone, now + zone)
  }

  /** A slot that has come, is not older than the task, and is newer than the last
      run. */
  predicate Unconsumed(t: HeartbeatTask, zone: int, now: int, slot: int)
    requires t.def.schedule.Some?
  {
    && IsSlot(t.def.schedule.value, Anchor(t, now) + zone, slot) && slot <= now + zone
    && (t.createdAt != 0 ==> t.createdAt + zone <= slot)
    && (t.lastRunAt != 0 ==> t.lastRunAt + zone < slot)
  }

  /** Under a rule, a task is due when any unconsumed slot exists, except in the
      monthly case that finds the next slot. */
  ghost predicate Due(t: HeartbeatTask, zone: int, now: int) {
    if RuleDecides(t, zone, now)
    then !FindsNext(t.def.schedule.value, now + zone) && exists slot :: Unconsumed(t, zone, now, slot)
    else IntervalDue(t, zone, now)
  }

  method HeartbeatTaskDueAt(t: HeartbeatTask, zone: int, now: int) returns (due: bool)
    requires WellFormed(t)
    ensures due == Due(t, zone, now)
  {
    hide FindsNone, FindsNext, IsSlot, WithinTimeWindow;
    if t.def.schedule.Some? {
      var s := t.def.schedule.value;
      var scheduled := PreviousScheduleAt(s, Anchor(t, now) + zone, now + zone);
      if scheduled.Some? {
        assert !FindsNext(s, now + zone) && Unconsumed(t, zone, now, scheduled.value) ==> Due(t, zone, now);
        if t.createdAt != 0 && scheduled.value < t.createdAt + zone {
          return false;
        }
        if t.lastRunAt != 0 && t.lastRunAt + zone >= scheduled.value {
          return false;
        }
        return scheduled.value <= now + zone;
      }
    }
    if t.def.interval.None? || t.def.interval.value <= 0 {
      return false;
    }
    var base := t.lastRunAt;
    if base == 0 {
      base := t.createdAt;
    }
    var hasTimeWindow := !t.def.windowStart.Blank? || !t.def.windowEnd.Blank?;
    if base == 0 {
      return if hasTimeWindow then WithinTimeWindow(t.def, now + zone) else true;
    }
    if now - base < t.def.interval.value {
      return false;
    }
    return if hasTimeWindow then WithinTimeWindow(t.def, now + zone) else true;
  }

  // ------------------------------------------------------------------ runs

  /** How executing a due task ends: submitted, an error that still counts as a
      run, or put off to the next tick. */
  datatype Outcome = Submitted | Errored | PutOff

  /** One tick, as one task sees it. */
  datatype Tick = Tick(now: int, end: int, outcome: Outcome)

  function Executed(t: HeartbeatTask, tick: Tick): HeartbeatTask {
    match tick.outcome
    case Submitted => t.(lastRunAt := tick.end, createdAt := if t.createdAt == 0 then tick.end else t.createdAt)
    case Errored => t.(lastRunAt := tick.end)
    case PutOff => t
  }

  ghost function AfterTick(t: HeartbeatTask, zone: int, tick: Tick): HeartbeatTask {
    if t.def.enabled && Due(t, zone, tick.now) then Merged(t, map[t.id := Executed(t, tick)]) else t
  }

  ghost function AfterTicks(t: HeartbeatTask, zone: int, ticks: seq<Tick>): HeartbeatTask {
    if ticks == [] then t else AfterTick(AfterTicks(t, zone, ticks[..|ticks| - 1]), zone, ticks[|ticks| - 1])
  }

  /** The scheduler runs ticks one after the other on a clock that does not go
      back. */
  predicate InOrder(ticks: seq<Tick>) {
    && (forall i :: 0 <= i < |ticks| ==> 0 < ticks[i].now <= ticks[i].end)
    && (forall i, j :: 0 <= i < j < |ticks| ==> ticks[i].end <= ticks[j].now)
  }

  /** Tick runs the task for this slot. */
  ghost predicate Runs(t: HeartbeatTask, zone: int, tick: Tick, slot: int) {
    && t.def.enabled && Due(t, zone, tick.now) && RuleDecides(t, zone, tick.now) && !tick.outcome.PutOff?
    && Latest(t.def.schedule.value, Anchor(t, tick.now) + zone, tick.now + zone, slot)
  }

  /** What a run for a slot means at its tick. */
  lemma RunTakesAnUnconsumedSlot(t: HeartbeatTask, zone: int, tick: Tick, slot: int)
    requires Runs(t, zone, tick, slot) && 0 < tick.now <= tick.end
    ensures Unconsumed(t, zone, tick.now, slot)
    ensures AfterTick(t, zone, tick).lastRunAt == tick.end && slot <= AfterTick(t, zone, tick).lastRunAt + zone
    ensures tick.outcome.Submitted? && t.createdAt == 0 ==> AfterTick(t, zone, tick).createdAt == tick.end
  {
    hide IsSlot, FindsNone, FindsNext;
    var u :| Unconsumed(t, zone, tick.now, u);
    assert u <= slot;
  }

  /** After a tick that ran, the last run is never earlier than that tick's end. */
  lemma {:induction false} LastRunGrows(t: HeartbeatTask, zone: int, ticks: seq<Tick>, i: nat, j: nat)
    requires InOrder(ticks) && i < j <= |ticks| && AfterTicks(t, zone, ticks[..i + 1]).lastRunAt == ticks[i].end
    ensures AfterTicks(t, zone, ticks[..j]).lastRunAt >= ticks[i].end
    ensures AfterTicks(t, zone, ticks[..j]).def == AfterTicks(t, zone, ticks[..i + 1]).def
  {
    hide Due;
    if i + 1 < j {
      LastRunGrows(t, zone, ticks, i, j - 1);
      assert ticks[..j][..j - 1] == ticks[..j - 1];
    }
  }

  /** Over any run of ticks, for every kind of rule, the slots that are run strictly
      increase, so a slot runs at most once; each is not after its tick and not
      older than the task. */
  lemma SlotsRunInOrder(t: HeartbeatTask, zone: int, ticks: seq<Tick>, i: nat, j: nat, a: int, b: int)
    requires InOrder(ticks) && i < j < |ticks|
    requires Runs(AfterTicks(t, zone, ticks[..i]), zone, ticks[i], a)
    requires Runs(AfterTicks(t, zone, ticks[..j]), zone, ticks[j], b)
    ensures a <= ticks[i].now + zone < b <= ticks[j].now + zone
    ensures AfterTicks(t, zone, ticks[..i]).createdAt != 0 ==> AfterTicks(t, zone, ticks[..i]).createdAt + zone <= a
  {
    hide Runs, Due, IsSlot, AfterTick;
    RunTakesAnUnconsumedSlot(AfterTicks(t, zone, ticks[..i]), zone, ticks[i], a);
    RunTakesAnUnconsumedSlot(AfterTicks(t, zone, ticks[..j]), zone, ticks[j], b);
    assert ticks[..i + 1][..i] == ticks[..i];
    LastRunGrows(t, zone, ticks, i, j);
  }

  /** A creation time once set is never changed by ticks. */
  lemma {:induction false} CreatedAtStays(t: HeartbeatTask, zone: int, ticks: seq<Tick>)
    requires t.createdAt != 0
    ensures AfterTicks(t, zone, ticks).createdAt == t.createdAt
  {
    hide Due;
    if ticks != [] {
      CreatedAtStays(t, zone, ticks[..|ticks| - 1]);
    }
  }

  /** When a weekly or biweekly rule finds no slot, the interval decides. With no time
      window the task is then due exactly when its interval has passed since its last
      run, or its creation. It runs off its slot, for a latest slot that was already
      run, exactly when the last run lies between that slot and an interval ago; with
      an interval of at least the rule's window that cannot be, and the task is due
      only if its latest slot was missed. */
  lemma OffSlotRunIff(t: HeartbeatTask, zone: int, now: int)
    requires WellFormed(t) && t.def.schedule.Some? && FindsNone(t.def.schedule.value, Anchor(t, now) + zone, now + zone)
    requires t.def.interval.Some? && t.def.interval.value > 0 && t.def.windowStart.Blank? && t.def.windowEnd.Blank?
    requires t.lastRunAt != 0
    ensures
      var (s, every) := (t.def.schedule.value, t.def.interval.value);
      var slot := (DayOf(now + zone) - WindowDays(s)) * DAY + s.clock;
      && Latest(s, Anchor(t, now) + zone, now + zone, slot)
      && (Due(t, zone, now) <==> t.lastRunAt <= now - every)
      && (Due(t, zone, now) && slot <= t.lastRunAt + zone <==> slot - zone <= t.lastRunAt <= now - every)
      && (every >= WindowDays(s) * DAY && Due(t, zone, now) ==> t.lastRunAt + zone < slot)
  {
    var s := t.def.schedule.value;
    hide Latest, IsSlot, FindsNext;
    MissedSlotIsOneWindowAgo(s, Anchor(t, now) + zone, now + zone);
    assert s.clock > ClockOf(now + zone);
    assert now + zone == DayOf(now + zone) * DAY + ClockOf(now + zone);
    var slot := (DayOf(now + zone) - WindowDays(s)) * DAY + s.clock;
    assert now + zone - WindowDays(s) * DAY < slot;
  }

  /** An interval of a day on a rule for one weekday: the morning of that day, before
      its time, the task runs off its slot although the slot of last week was run. */
  lemma DailyIntervalRunsOffSlot(t: HeartbeatTask, day: int, clock: int, earlier: int)
    requires 0 <= earlier < clock < DAY && t.lastRunAt == (day - 7) * DAY + clock != 0
    requires t.def.schedule == Some(Weekly([Weekday(day)], clock)) && t.def.interval == Some(DAY)
    requires t.def.windowStart.Blank? && t.def.windowEnd.Blank?
    ensures
      var now := day * DAY + earlier;
      && Due(t, 0, now) && !RuleDecides(t, 0, now)
      && Latest(t.def.schedule.value, Anchor(t, now), now, t.lastRunAt)
  {
    hide Latest, Weekday;
    OwnDayFindsNothing(day, clock, earlier, Anchor(t, day * DAY + earlier));
  }

  // ---------------------------------------------------------------- merging

  function Merged(t: HeartbeatTask, updates: map<string, HeartbeatTask>): HeartbeatTask {
    if t.id !in updates then t
    else
      var u := updates[t.id];
      t.(topicId := if u.topicId != "" then u.topicId else t.topicId,
         lastRunAt := if u.lastRunAt != 0 then u.lastRunAt else t.lastRunAt,
         createdAt := if t.createdAt == 0 && u.createdAt != 0 then u.createdAt else t.createdAt)
  }

  class HeartbeatEngine {
    var tasks: seq<HeartbeatTask>
    /** The config file; None when it is missing or unreadable. */
    var disk: Option<seq<HeartbeatTask>>

    constructor (tasks: seq<HeartbeatTask>, disk: Option<seq<HeartbeatTask>>)
      ensures this.tasks == tasks && this.disk == disk
    {
      this.tasks, this.disk := tasks, disk;
    }

    /** The task list becomes the file's list, as it is now, with only the run state
        of the updated tasks taken over; it is saved if the save succeeds. */
    method MergeRunUpdatesLocked(updates: map<string, HeartbeatTask>, saveSucceeds: bool)
      modifies this
      ensures updates == map[] ==> tasks == old(tasks) && disk == old(disk)
      ensures updates != map[] ==>
                var base := if old(disk).Some? then old(disk).value else old(tasks);
                && |tasks| == |base| && (forall i :: 0 <= i < |base| ==> tasks[i] == Merged(base[i], updates))
                && (forall i :: 0 <= i < |base| ==> tasks[i].id == base[i].id && tasks[i].def == base[i].def)
                && disk == if saveSucceeds then Some(tasks) else old(disk)
    {
      if updates == map[] {
        return;
      }
      var list := if disk.Some? then disk.value else tasks;
      var i := 0;
      while i < |list|
        invariant 0 <= i <= |list|
        invariant tasks == old(tasks) && disk == old(disk)
        invariant |list| == |if disk.Some? then disk.value else tasks|
        invariant forall k :: 0 <= k < i ==> list[k] == Merged((if disk.Some? then disk.value else tasks)[k], updates)
        invariant forall k :: i <= k < |list| ==> list[k] == (if disk.Some? then disk.value else tasks)[k]
      {
        if list[i].id in updates {
          var update := updates[list[i].id];
          var task := list[i];
          if update.topicId != "" {
            task := task.(topicId := update.topicId);
          }
          if update.lastRunAt != 0 {
            task := task.(lastRunAt := update.lastRunAt);
          }
          if task.createdAt == 0 && update.createdAt != 0 {
            task := task.(createdAt := update.createdAt);
          }
          list := list[i := task];
        }
        i := i + 1;
      }
      tasks := list;
      if saveSucceeds {
        disk := Some(list);
      }
    }
  }

  /** A manual trigger can overlap a tick: both start from the same stored task and
      merge one after the other. A slot the first one covered is unconsumed again
      exactly when the run time merged last is set and older than the slot. */
  lemma SecondMergeReopensIff(t: HeartbeatTask, first: HeartbeatTask, second: HeartbeatTask, zone: int, now: int,
                              slot: int)
    requires t.def.schedule.Some? && t.createdAt != 0 && first.lastRunAt != 0
    requires IsSlot(t.def.schedule.value, t.createdAt + zone, slot)
    requires t.createdAt + zone <= slot <= first.lastRunAt + zone && slot <= now + zone
    ensures
      var merged := Merged(Merged(t, map[t.id := first]), map[t.id := second]);
      && !Unconsumed(Merged(t, map[t.id := first]), zone, now, slot)
      && (Unconsumed(merged, zone, now, slot) <==> second.lastRunAt != 0 && second.lastRunAt + zone < slot)
  {
    hide IsSlot;
  }

  /** The family in which it happens: the tick takes its snapshot, the user triggers
      the task, whose run covers the slot and is merged, and the tick, having found
      the task busy, merges the unchanged snapshot over it. The stored run time goes
      back and the task is due a second time for a slot that has run. */
  lemma PutOffTickReopensTheSlot(t: HeartbeatTask, zone: int, tick: Tick, slot: int, later: int)
    requires tick.outcome.PutOff? && tick.now <= tick.end <= later && t.createdAt != 0 && t.lastRunAt != 0
    requires t.def.schedule.Some? && Unconsumed(t, zone, tick.now, slot)
    requires RuleDecides(t, zone, later) && !FindsNext(t.def.schedule.value, later + zone)
    ensures
      var triggered := Merged(t, map[t.id := Executed(t, tick.(outcome := Submitted))]);
      var merged := Merged(triggered, map[t.id := Executed(t, tick)]);
      && merged.lastRunAt == t.lastRunAt && (tick.end != 0 ==> !Unconsumed(triggered, zone, later, slot))
      && Due(merged, zone, later)
  {
    hide IsSlot, FindsNone, FindsNext;
    var triggered := Merged(t, map[t.id := Executed(t, tick.(outcome := Submitted))]);
    var merged := Merged(triggered, map[t.id := Executed(t, tick)]);
    assert RuleDecides(merged, zone, later);
    assert Unconsumed(merged, zone, later, slot);
  }
}
