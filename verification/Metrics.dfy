/** The counter pipeline (desktop/metrics_app.go): session counts in memory, a
    pending file on disk, and a flush that moves the file aside, posts it, and folds
    it back when the post fails. */
module Metrics {
  import opened Options

  /** Signal to bucket to count. */
  type Counters = map<string, map<string, int>>

  function Get(c: Counters, signal: string, bucket: string): int {
    if signal in c && bucket in c[signal] then c[signal][bucket] else 0
  }

  function Added(c: Counters, signal: string, bucket: string, n: int): Counters {
    var buckets := if signal in c then c[signal] else map[];
    c[signal := buckets[bucket := Get(c, signal, bucket) + n]]
  }

  lemma AddedHolds(c: Counters, signal: string, bucket: string, n: int)
    ensures forall s, b ::
        Get(Added(c, signal, bucket, n), s, b) == Get(c, s, b) + if s == signal && b == bucket then n else 0
  {
  }

  /** Pointwise sum. */
  function Merged(c: Counters, other: Counters): Counters {
    map s | s in c.Keys + other.Keys ::
      map b | b in (if s in c then c[s].Keys else {}) + (if s in other then other[s].Keys else {}) ::
          Get(c, s, b) + Get(other, s, b)
  }

  lemma MergedHolds(c: Counters, other: Counters)
    ensures forall s, b :: Get(Merged(c, other), s, b) == Get(c, s, b) + Get(other, s, b)
  {
  }

  class CounterTable {
    var c: Counters

    constructor (c: Counters)
      ensures this.c == c
    {
      this.c := c;
    }

    method Add(signal: string, bucket: string, n: int)
      modifies this
      ensures c == Added(old(c), signal, bucket, n)
    {
      if signal !in c {
        c := c[signal := map[]];
      }
      c := c[signal := c[signal][bucket := (if bucket in c[signal] then c[signal][bucket] else 0) + n]];
    }

    /** Map iteration order does not matter: whatever it is, every count is the sum. */
    method Merge(other: Counters)
      modifies this
      ensures forall s, b :: Get(c, s, b) == Get(old(c), s, b) + Get(other, s, b)
    {
      var signals := other.Keys;
      while signals != {}
        invariant signals <= other.Keys
        invariant forall s, b :: Get(c, s, b) == Get(old(c), s, b) + if s in signals then 0 else Get(other, s, b)
        decreases |signals|
      {
        var signal :| signal in signals;
        ghost var before := c;
        var buckets := other[signal].Keys;
        while buckets != {}
          invariant buckets <= other[signal].Keys
          invariant forall s, b ::
              Get(c, s, b) == Get(before, s, b) + if s == signal && b !in buckets then Get(other, s, b) else 0
          decreases |buckets|
        {
          var bucket :| bucket in buckets;
          AddedHolds(c, signal, bucket, other[signal][bucket]);
          Add(signal, bucket, other[signal][bucket]);
          buckets := buckets - {bucket};
        }
        signals := signals - {signal};
      }
    }
  }

  // ------------------------------------------------------------- the system

  /** Where a flush stands: it has set the file aside, has read it and is posting, is
      folding it back, is about to remove it, or is done. */
  datatype Flush = SetAside | Posting(flat: Counters) | FoldingBack | Removing | Done

  /** How a post ends: delivered and known to be, not delivered, or delivered with the
      answer lost, which the application takes for a failure. */
  datatype Reply = Accepted | Refused | Lost

  /** Counts are in the sessions' memory, in the hands of a persist, in the pending
      file, in the file set aside, or posted. Twice is what lost answers made the
      application post although it was delivered. */
  datatype State = State(
    memory: seq<Counters>,
    inFlight: seq<Counters>,
    pending: Option<Counters>,
    sending: Option<Counters>,
    flushes: seq<Flush>,
    posted: Counters,
    twice: Counters,
    counted: Counters)

  datatype Step =
    | NewSession
    | Inc(session: nat, signal: string, bucket: string)
    | PersistTakes(session: nat)
    | PersistMerges(persist: nat)
    | FlushSetsAside
    | FlushReads(flush: nat)
    | FlushPosts(flush: nat, reply: Reply)
    | FlushFolds(flush: nat)
    | FlushRemoves(flush: nat)

  /** The counters sent: only positive counts are. */
  function Positive(c: Counters): Counters {
    map s | s in c :: map b | b in c[s] && c[s][b] > 0 :: c[s][b]
  }

  ghost predicate HasPositive(c: Counters) {
    exists s, b :: Get(c, s, b) > 0
  }

  ghost predicate NonNegative(c: Counters) {
    forall s, b :: Get(c, s, b) >= 0
  }

  predicate Enabled(s: State, step: Step) {
    match step
    case NewSession => true
    case Inc(i, _, _) => i < |s.memory|
    case PersistTakes(i) => i < |s.memory|
    case PersistMerges(i) => i < |s.inFlight|
    case FlushSetsAside => true
    case FlushReads(i) => i < |s.flushes| && s.flushes[i].SetAside?
    case FlushPosts(i, _) => i < |s.flushes| && s.flushes[i].Posting?
    case FlushFolds(i) => i < |s.flushes| && s.flushes[i].FoldingBack?
    case FlushRemoves(i) => i < |s.flushes| && s.flushes[i].Removing?
  }

  function Read(file: Option<Counters>): Counters {
    if file.Some? then file.value else map[]
  }

  function Without(q: seq<Counters>, i: nat): seq<Counters>
    requires i < |q|
  {
    q[..i] + q[i + 1..]
  }

  ghost function Next(s: State, step: Step): State
    requires Enabled(s, step)
  {
    match step
    case NewSession => s.(memory := s.memory + [map[]])
    case Inc(i, signal, bucket) =>
      s.(memory := s.memory[i := Added(s.memory[i], signal, bucket, 1)], counted := Added(s.counted, signal, bucket, 1))
    case PersistTakes(i) =>
      if s.memory[i] == map[] then s
      else s.(memory := s.memory[i := map[]], inFlight := s.inFlight + [s.memory[i]])
    case PersistMerges(i) =>
      s.(pending := Some(Merged(Read(s.pending), s.inFlight[i])), inFlight := Without(s.inFlight, i))
    case FlushSetsAside =>
      if s.pending.None? then s else s.(pending := None, sending := s.pending, flushes := s.flushes + [SetAside])
    case FlushReads(i) => s.(flushes := s.flushes[i := Posting(Positive(Read(s.sending)))])
    case FlushPosts(i, reply) =>
      var flat := s.flushes[i].flat;
      if !HasPositive(flat) then s.(flushes := s.flushes[i := Removing])
      else if reply.Accepted? then s.(posted := Merged(s.posted, flat), flushes := s.flushes[i := Removing])
      else if reply.Refused? then s.(flushes := s.flushes[i := FoldingBack])
      else s.(posted := Merged(s.posted, flat), twice := Merged(s.twice, flat), flushes := s.flushes[i := FoldingBack])
    case FlushFolds(i) =>
      s.(pending := Some(Merged(Read(s.pending), Read(s.sending))), flushes := s.flushes[i := Removing])
    case FlushRemoves(i) => s.(sending := None, flushes := s.flushes[i := Done])
  }

  // ----------------------------------------------------------- conservation

  function Sum(q: seq<Counters>, signal: string, bucket: string): int {
    if q == [] then 0 else Get(q[0], signal, bucket) + Sum(q[1..], signal, bucket)
  }

  lemma {:induction false} SumJoins(p: seq<Counters>, q: seq<Counters>, signal: string, bucket: string)
    ensures Sum(p + q, signal, bucket) == Sum(p, signal, bucket) + Sum(q, signal, bucket)
  {
    if p == [] {
      assert p + q == q;
    } else {
      SumJoins(p[1..], q, signal, bucket);
      assert (p + q)[1..] == p[1..] + q;
    }
  }

  lemma SumReplaces(q: seq<Counters>, i: nat, c: Counters, signal: string, bucket: string)
    requires i < |q|
    ensures Sum(q[i := c], signal, bucket) ==
        Sum(q, signal, bucket) - Get(q[i], signal, bucket) + Get(c, signal, bucket)
    ensures Sum(Without(q, i), signal, bucket) == Sum(q, signal, bucket) - Get(q[i], signal, bucket)
  {
    assert q == q[..i] + ([q[i]] + q[i + 1..]);
    assert q[i := c] == q[..i] + ([c] + q[i + 1..]);
    SumJoins(q[..i], [q[i]] + q[i + 1..], signal, bucket);
    SumJoins(q[..i], [c] + q[i + 1..], signal, bucket);
    SumJoins(q[..i], q[i + 1..], signal, bucket);
    assert ([q[i]] + q[i + 1..])[1..] == q[i + 1..] && ([c] + q[i + 1..])[1..] == q[i + 1..];
  }

  /** The newest flush; earlier ones are done when flushes follow one another. */
  function Newest(s: State): Flush {
    if s.flushes == [] then Done else s.flushes[|s.flushes| - 1]
  }

  /** The file set aside still has to be posted or folded back. */
  predicate Carries(flush: Flush) {
    flush.SetAside? || flush.Posting? || flush.FoldingBack?
  }

  /** Everything counted that is somewhere. The file set aside counts until its
      counts are posted or folded back. */
  function Held(s: State, signal: string, bucket: string): int {
    Sum(s.memory, signal, bucket) + Sum(s.inFlight, signal, bucket) + Get(Read(s.pending), signal, bucket)
    + (if Carries(Newest(s)) then Get(Read(s.sending), signal, bucket) else 0) + Get(s.posted, signal, bucket)
  }

  predicate AllDone(flushes: seq<Flush>) {
    forall i :: 0 <= i < |flushes| ==> flushes[i].Done?
  }

  ghost predicate FilesInv(s: State) {
    && (forall i :: 0 <= i < |s.memory| ==> NonNegative(s.memory[i]))
    && (forall i :: 0 <= i < |s.inFlight| ==> NonNegative(s.inFlight[i]))
    && NonNegative(Read(s.pending)) && NonNegative(Read(s.sending))
    && (forall i :: 0 <= i < |s.flushes| - 1 ==> s.flushes[i].Done?)
    && (Newest(s).Posting? ==> Newest(s).flat == Positive(Read(s.sending)))
  }

  ghost predicate Inv(s: State) {
    && FilesInv(s)
    && forall signal, bucket :: Held(s, signal, bucket) == Get(s.counted, signal, bucket) + Get(s.twice, signal, bucket)
  }

  lemma NothingHeld(signal: string, bucket: string)
    ensures Get(map[], signal, bucket) == 0
  {
  }

  /** Leaving out what is not positive leaves every count. */
  lemma PositiveHolds(c: Counters, signal: string, bucket: string)
    requires NonNegative(c)
    ensures Get(Positive(c), signal, bucket) == Get(c, signal, bucket)
    ensures !HasPositive(Positive(c)) ==> Get(c, signal, bucket) == 0
  {
    assert Get(c, signal, bucket) >= 0;
    if Get(c, signal, bucket) > 0 {
      assert Get(Positive(c), signal, bucket) > 0;
    }
  }

  /** Flushes follow one another: none starts while another is under way. */
  predicate Follows(s: State, step: Step) {
    step.FlushSetsAside? ==> AllDone(s.flushes)
  }

  lemma CountingKeepsHeld(s: State, step: Step, signal: string, bucket: string)
    requires Inv(s) && Enabled(s, step) && (step.NewSession? || step.Inc? || step.PersistTakes? || step.PersistMerges?)
    ensures
      var t := Next(s, step);
      Held(t, signal, bucket) == Get(t.counted, signal, bucket) + Get(t.twice, signal, bucket)
  {
    hide Added, Merged, Without, Get, Positive, FilesInv;
    NothingHeld(signal, bucket);
    assert Held(s, signal, bucket) == Get(s.counted, signal, bucket) + Get(s.twice, signal, bucket);
    match step {
      case NewSession => SumJoins(s.memory, [map[]], signal, bucket);
      case Inc(i, sig, b) =>
        AddedHolds(s.memory[i], sig, b, 1);
        AddedHolds(s.counted, sig, b, 1);
        SumReplaces(s.memory, i, Added(s.memory[i], sig, b, 1), signal, bucket);
      case PersistTakes(i) =>
        SumReplaces(s.memory, i, map[], signal, bucket);
        SumJoins(s.inFlight, [s.memory[i]], signal, bucket);
      case PersistMerges(i) =>
        MergedHolds(Read(s.pending), s.inFlight[i]);
        SumReplaces(s.inFlight, i, map[], signal, bucket);
      case _ =>
    }
  }

  lemma PostKeepsHeld(s: State, i: nat, reply: Reply, signal: string, bucket: string)
    requires Inv(s) && Enabled(s, FlushPosts(i, reply))
    ensures
      var t := Next(s, FlushPosts(i, reply));
      Held(t, signal, bucket) == Get(t.counted, signal, bucket) + Get(t.twice, signal, bucket)
  {
    hide Added, Merged, Without, Get, Positive, Sum, HasPositive, NonNegative;
    var flat := s.flushes[i].flat;
    assert Held(s, signal, bucket) == Get(s.counted, signal, bucket) + Get(s.twice, signal, bucket);
    assert i == |s.flushes| - 1;
    PositiveHolds(Read(s.sending), signal, bucket);
    MergedHolds(s.posted, flat);
    MergedHolds(s.twice, flat);
  }

  lemma FoldKeepsHeld(s: State, i: nat, signal: string, bucket: string)
    requires Inv(s) && Enabled(s, FlushFolds(i))
    ensures
      var t := Next(s, FlushFolds(i));
      Held(t, signal, bucket) == Get(t.counted, signal, bucket) + Get(t.twice, signal, bucket)
  {
    hide Added, Merged, Without, Get, Positive, Sum, HasPositive, NonNegative;
    assert Held(s, signal, bucket) == Get(s.counted, signal, bucket) + Get(s.twice, signal, bucket);
    assert i == |s.flushes| - 1;
    MergedHolds(Read(s.pending), Read(s.sending));
  }

  lemma MoveKeepsHeld(s: State, step: Step, signal: string, bucket: string)
    requires Inv(s) && Enabled(s, step) && Follows(s, step)
    requires (step.FlushSetsAside? || step.FlushReads? || step.FlushRemoves?)
    ensures
      var t := Next(s, step);
      Held(t, signal, bucket) == Get(t.counted, signal, bucket) + Get(t.twice, signal, bucket)
  {
    hide Added, Merged, Without, Get, Positive, Sum, HasPositive, NonNegative;
    NothingHeld(signal, bucket);
    assert Held(s, signal, bucket) == Get(s.counted, signal, bucket) + Get(s.twice, signal, bucket);
  }

  lemma StepKeepsHeld(s: State, step: Step, signal: string, bucket: string)
    requires Inv(s) && Enabled(s, step) && Follows(s, step)
    ensures
      var t := Next(s, step);
      Held(t, signal, bucket) == Get(t.counted, signal, bucket) + Get(t.twice, signal, bucket)
  {
    hide *;
    match step {
      case FlushPosts(i, reply) => PostKeepsHeld(s, i, reply, signal, bucket);
      case FlushFolds(i) => FoldKeepsHeld(s, i, signal, bucket);
      case FlushSetsAside => MoveKeepsHeld(s, step, signal, bucket);
      case FlushReads(_) => MoveKeepsHeld(s, step, signal, bucket);
      case FlushRemoves(_) => MoveKeepsHeld(s, step, signal, bucket);
      case _ => CountingKeepsHeld(s, step, signal, bucket);
    }
  }

  lemma StepKeepsInv(s: State, step: Step)
    requires Inv(s) && Enabled(s, step) && Follows(s, step)
    ensures Inv(Next(s, step))
  {
    var t := Next(s, step);
    forall signal, bucket
      ensures Held(t, signal, bucket) == Get(t.counted, signal, bucket) + Get(t.twice, signal, bucket)
    {
      StepKeepsHeld(s, step, signal, bucket);
    }
    StepKeepsFiles(s, step);
    hide Next, FilesInv, Held;
  }

  lemma NothingIsNonNegative()
    ensures NonNegative(map[])
  {
  }

  lemma AddedStays(c: Counters, signal: string, bucket: string)
    requires NonNegative(c)
    ensures NonNegative(Added(c, signal, bucket, 1)) && NonNegative(map[])
  {
    AddedHolds(c, signal, bucket, 1);
    hide Added;
  }

  lemma MergedStays(c: Counters, other: Counters)
    requires NonNegative(c) && NonNegative(other)
    ensures NonNegative(Merged(c, other)) && NonNegative(map[])
  {
    MergedHolds(c, other);
    hide Merged;
  }

  lemma CountingKeepsFiles(s: State, step: Step)
    requires FilesInv(s) && Enabled(s, step)
    requires (step.NewSession? || step.Inc? || step.PersistTakes? || step.PersistMerges?)
    ensures FilesInv(Next(s, step))
  {
    hide Added, Merged, Positive, NonNegative, HasPositive;
    NothingIsNonNegative();
    match step {
      case Inc(i, sig, b) => AddedStays(s.memory[i], sig, b);
      case PersistMerges(i) => MergedStays(Read(s.pending), s.inFlight[i]);
      case _ =>
    }
  }

  lemma PostKeepsFiles(s: State, i: nat, reply: Reply)
    requires FilesInv(s) && Enabled(s, FlushPosts(i, reply))
    ensures FilesInv(Next(s, FlushPosts(i, reply)))
  {
    hide Added, Merged, Positive, NonNegative, HasPositive;
  }

  lemma MoveKeepsFiles(s: State, step: Step)
    requires FilesInv(s) && Enabled(s, step) && Follows(s, step)
    requires step.FlushSetsAside? || step.FlushReads? || step.FlushFolds? || step.FlushRemoves?
    ensures FilesInv(Next(s, step))
  {
    hide Added, Merged, Positive, NonNegative, HasPositive;
    NothingIsNonNegative();
    if step.FlushFolds? {
      MergedStays(Read(s.pending), Read(s.sending));
    }
  }

  lemma StepKeepsFiles(s: State, step: Step)
    requires FilesInv(s) && Enabled(s, step) && Follows(s, step)
    ensures FilesInv(Next(s, step))
  {
    hide *;
    match step {
      case FlushPosts(i, reply) => PostKeepsFiles(s, i, reply);
      case FlushSetsAside => MoveKeepsFiles(s, step);
      case FlushReads(_) => MoveKeepsFiles(s, step);
      case FlushFolds(_) => MoveKeepsFiles(s, step);
      case FlushRemoves(_) => MoveKeepsFiles(s, step);
      case _ => CountingKeepsFiles(s, step);
    }
  }

  ghost function After(start: State, steps: seq<Step>): Option<State> {
    if steps == [] then Some(start)
    else
      var before, step := After(start, steps[..|steps| - 1]), steps[|steps| - 1];
      if before.Some? && Enabled(before.value, step) then Some(Next(before.value, step)) else None
  }

  ghost predicate OneAtATime(start: State, steps: seq<Step>) {
    steps == [] ||
    var init := steps[..|steps| - 1];
    OneAtATime(start, init) && (After(start, init).Some? ==> Follows(After(start, init).value, steps[|steps| - 1]))
  }

  /** A launch finds the pending file of earlier sessions, and perhaps one that was
      set aside and never removed. */
  function Launched(pending: Option<Counters>, leftover: Option<Counters>): State {
    State([], [], pending, leftover, [], map[], map[], Read(pending))
  }

  /** In every interleaving of increments, persists of any number of sessions, and
      flushes one after the other: what is in memory, in flight, pending, set aside
      and posted adds up, per signal and bucket, to what was pending at launch, what
      was counted since, and what lost answers made the application post again. */
  lemma {:induction false} CountsAreConserved(pending: Option<Counters>, leftover: Option<Counters>, steps: seq<Step>)
    requires NonNegative(Read(pending)) && NonNegative(Read(leftover))
    requires After(Launched(pending, leftover), steps).Some? && OneAtATime(Launched(pending, leftover), steps)
    ensures Inv(After(Launched(pending, leftover), steps).value)
    ensures
      var s := After(Launched(pending, leftover), steps).value;
      forall signal, bucket :: Held(s, signal, bucket) == Get(s.counted, signal, bucket) + Get(s.twice, signal, bucket)
  {
    if steps != [] {
      hide Next, Held, NonNegative, FilesInv;
      CountsAreConserved(pending, leftover, steps[..|steps| - 1]);
      StepKeepsInv(After(Launched(pending, leftover), steps[..|steps| - 1]).value, steps[|steps| - 1]);
    }
  }

  /** Nothing is posted twice as long as no answer to a post is lost. */
  lemma {:induction false} NoLostAnswerNothingTwice(start: State, steps: seq<Step>)
    requires After(start, steps).Some?
    ensures (forall i :: 0 <= i < |steps| ==> !(steps[i].FlushPosts? && steps[i].reply.Lost?)) ==>
        After(start, steps).value.twice == start.twice
  {
    if steps != [] {
      var init := steps[..|steps| - 1];
      NoLostAnswerNothingTwice(start, init);
      assert (forall i :: 0 <= i < |steps| ==> !(steps[i].FlushPosts? && steps[i].reply.Lost?)) ==>
          forall i :: 0 <= i < |init| ==> !(init[i].FlushPosts? && init[i].reply.Lost?);
      hide Added, Merged, Positive, HasPositive;
    }
  }

  /** One lost answer posts a second time exactly what was delivered. */
  lemma LostAnswerPostsTwice(s: State, i: nat, signal: string, bucket: string)
    requires Inv(s) && Enabled(s, FlushPosts(i, Lost))
    ensures
      var t := Next(s, FlushPosts(i, Lost));
      && Get(t.twice, signal, bucket) == Get(s.twice, signal, bucket) + Get(Read(s.sending), signal, bucket)
      && Get(t.posted, signal, bucket) == Get(s.posted, signal, bucket) + Get(Read(s.sending), signal, bucket)
      && (HasPositive(s.flushes[i].flat) ==> t.flushes[i].FoldingBack?)
  {
    hide Added, Merged, Positive, HasPositive, Held, Get;
    assert s.flushes[i].flat == Positive(Read(s.sending));
    PositiveHolds(Read(s.sending), signal, bucket);
    MergedHolds(s.posted, s.flushes[i].flat);
    MergedHolds(s.twice, s.flushes[i].flat);
  }

  /** Counted grows by exactly one count per increment. */
  function Increments(steps: seq<Step>, signal: string, bucket: string): nat {
    if steps == [] then 0
    else
      var last := steps[|steps| - 1];
      Increments(steps[..|steps| - 1], signal, bucket)
        + if last.Inc? && last.signal == signal && last.bucket == bucket then 1 else 0
  }

  lemma {:induction false} CountedIsIncrements(start: State, steps: seq<Step>, signal: string, bucket: string)
    requires After(start, steps).Some?
    ensures Get(After(start, steps).value.counted, signal, bucket) ==
        Get(start.counted, signal, bucket) + Increments(steps, signal, bucket)
  {
    if steps != [] {
      CountedIsIncrements(start, steps[..|steps| - 1], signal, bucket);
      var s := After(start, steps[..|steps| - 1]).value;
      var last := steps[|steps| - 1];
      if last.Inc? {
        AddedHolds(s.counted, last.signal, last.bucket, 1);
      }
      hide Added, Merged, Positive;
    }
  }

  /** A flush that sets the file aside while an earlier one has it aside writes over
      it. After any run of flushes one at a time, such a step loses exactly what the
      earlier flush still carried, so counts stay conserved if and only if that was
      nothing. */
  lemma OverlappingFlushLosesIff(pending: Option<Counters>, leftover: Option<Counters>, steps: seq<Step>,
                                 signal: string, bucket: string)
    requires NonNegative(Read(pending)) && NonNegative(Read(leftover))
    requires OneAtATime(Launched(pending, leftover), steps) && After(Launched(pending, leftover), steps).Some?
    requires
      var s := After(Launched(pending, leftover), steps).value;
      Carries(Newest(s)) && s.pending.Some?
    ensures
      var s := After(Launched(pending, leftover), steps).value;
      var overlapping := After(Launched(pending, leftover), steps + [FlushSetsAside]);
      && overlapping.Some?
      && var t := overlapping.value;
         && Held(t, signal, bucket) == Held(s, signal, bucket) - Get(Read(s.sending), signal, bucket)
         && (Held(t, signal, bucket) == Get(t.counted, signal, bucket) + Get(t.twice, signal, bucket)
             <==> Get(Read(s.sending), signal, bucket) == 0)
  {
    CountsAreConserved(pending, leftover, steps);
    assert (steps + [FlushSetsAside])[..|steps|] == steps;
    var s := After(Launched(pending, leftover), steps).value;
    assert Held(s, signal, bucket) == Get(s.counted, signal, bucket) + Get(s.twice, signal, bucket);
    hide Sum, Get, Inv;
  }
}
