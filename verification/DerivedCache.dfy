/** The single-flight cache of derived history state (historyDerivedCache in
    desktop/history_slice.go): its bookkeeping in place, and every interleaving of
    the calls that use it. */
module DerivedCache {
  import opened Options
  import opened Sets

  /** historyDerivedCacheEntries. */
  const LIMIT := 4

  /** An entry is named by the call that leads its computation. */
  datatype Cache = Cache(entries: map<string, nat>, order: seq<string>)

  predicate NoRepeats(order: seq<string>) {
    forall i, j :: 0 <= i < j < |order| ==> order[i] != order[j]
  }

  /** Order lists exactly the keys, each once. */
  ghost predicate Good(c: Cache) {
    NoRepeats(c.order) && forall k :: k in c.order <==> k in c.entries
  }

  // ------------------------------------------------------------ bookkeeping

  function Without(order: seq<string>, key: string): seq<string> {
    if order == [] then [] else if order[0] == key then order[1..] else [order[0]] + Without(order[1..], key)
  }

  lemma WithoutFrom(order: seq<string>, i: nat, key: string)
    requires i < |order|
    ensures Without(order[i..], key) ==
              if order[i] == key then order[i + 1..] else [order[i]] + Without(order[i + 1..], key)
  {
    assert order[i..][1..] == order[i + 1..];
  }

  function Touched(order: seq<string>, key: string): seq<string> {
    Without(order, key) + [key]
  }

  /** Entries whose ready channel is closed may go. */
  predicate Removable(c: Cache, closed: set<nat>, key: string) {
    key !in c.entries || c.entries[key] in closed
  }

  function OldestRemovable(c: Cache, closed: set<nat>, start: nat): (i: nat)
    requires start <= |c.order|
    ensures start <= i <= |c.order| && (i < |c.order| ==> Removable(c, closed, c.order[i]))
    ensures forall j :: start <= j < i ==> !Removable(c, closed, c.order[j])
    decreases |c.order| - start
  {
    if start == |c.order| || Removable(c, closed, c.order[start]) then start else OldestRemovable(c, closed, start + 1)
  }

  function Evicted(c: Cache, i: nat): (d: Cache)
    requires i < |c.order|
    ensures |d.order| == |c.order| - 1
  {
    Cache(c.entries - {c.order[i]}, c.order[..i] + c.order[i + 1..])
  }

  function Pruned(c: Cache, closed: set<nat>): Cache
    decreases |c.order|
  {
    var i := OldestRemovable(c, closed, 0);
    if |c.entries| <= LIMIT || i == |c.order| then c else Pruned(Evicted(c, i), closed)
  }

  class HistoryDerivedCache {
    var entries: map<string, nat>
    var order: seq<string>

    ghost function Contents(): Cache
      reads this
    {
      Cache(entries, order)
    }

    constructor ()
      ensures Contents() == Cache(map[], []) && Good(Contents())
    {
      entries, order := map[], [];
    }

    method RemoveFromOrder(key: string)
      modifies this`order
      ensures order == Without(old(order), key)
    {
      var i := 0;
      assert order[0..] == order && Without([], key) == [];
      hide Without;
      while i < |order|
        invariant 0 <= i <= |order| && order == old(order)
        invariant Without(order, key) == order[..i] + Without(order[i..], key)
      {
        WithoutFrom(order, i, key);
        if order[i] == key {
          order := order[..i] + order[i + 1..];
          return;
        }
        i := i + 1;
      }
    }

    method TouchLocked(key: string)
      modifies this`order
      ensures order == Touched(old(order), key)
    {
      RemoveFromOrder(key);
      order := order + [key];
    }

    /** The inner loop of pruneLocked. */
    method FindRemovable(closed: set<nat>) returns (i: nat)
      ensures i == OldestRemovable(Contents(), closed, 0)
    {
      i := 0;
      while i < |order| && !Removable(Cache(entries, order), closed, order[i])
        invariant 0 <= i <= |order|
        invariant OldestRemovable(Contents(), closed, 0) == OldestRemovable(Contents(), closed, i)
      {
        i := i + 1;
      }
    }

    method PruneLocked(closed: set<nat>)
      modifies this
      ensures Contents() == Pruned(old(Contents()), closed)
    {
      while |entries| > LIMIT
        invariant Pruned(Contents(), closed) == Pruned(old(Contents()), closed)
        decreases |order|
      {
        ghost var before := Contents();
        var i := FindRemovable(closed);
        hide Removable, OldestRemovable;
        if i == |order| {
          return;
        }
        assert OldestRemovable(before, closed, 0) == i;
        assert Evicted(before, i) == Cache(entries - {order[i]}, order[..i] + order[i + 1..]);
        entries, order := entries - {order[i]}, order[..i] + order[i + 1..];
      }
    }

    /** The locked part of a call that starts: joins the entry of a known key, or
        becomes its leader. */
    method Enter(key: string, call: nat, closed: set<nat>) returns (leader: nat)
      modifies this
      ensures (leader, Contents()) == Entered(old(Contents()), key, call, closed)
    {
      if key in entries {
        leader := entries[key];
        TouchLocked(key);
        return;
      }
      leader := call;
      entries := entries[key := call];
      order := order + [key];
      PruneLocked(closed);
    }

    /** The locked part of a leader that has computed. */
    method Finalize(key: string, call: nat, failed: bool, closed: set<nat>)
      modifies this
      ensures Contents() == Finalized(old(Contents()), key, call, failed, closed)
    {
      if failed && key in entries && entries[key] == call {
        entries := entries - {key};
        RemoveFromOrder(key);
      }
      PruneLocked(closed);
    }
  }

  function Entered(c: Cache, key: string, call: nat, closed: set<nat>): (nat, Cache) {
    if key in c.entries then (c.entries[key], Cache(c.entries, Touched(c.order, key)))
    else (call, Pruned(Cache(c.entries[key := call], c.order + [key]), closed))
  }

  function Finalized(c: Cache, key: string, call: nat, failed: bool, closed: set<nat>): Cache {
    Pruned(
      if failed && key in c.entries && c.entries[key] == call
      then Cache(c.entries - {key}, Without(c.order, key))
      else c,
      closed)
  }

  lemma {:induction false} WithoutHolds(order: seq<string>, key: string)
    requires NoRepeats(order)
    ensures NoRepeats(Without(order, key)) && forall k :: k in Without(order, key) <==> k in order && k != key
  {
    if order != [] {
      var rest := order[1..];
      assert order == [order[0]] + rest;
      WithoutHolds(rest, key);
      if order[0] == key {
        assert key !in rest;
      } else {
        assert order[0] !in rest;
        assert NoRepeats([order[0]] + Without(rest, key));
      }
    }
  }

  /** A hit moves its key to the end of the use order and leaves the others in theirs. */
  lemma {:induction false} TouchMovesToEnd(order: seq<string>, key: string, at: nat)
    requires at < |order| && order[at] == key && key !in order[..at]
    ensures Touched(order, key) == order[..at] + order[at + 1..] + [key]
  {
    if at > 0 {
      assert order[1..][..at - 1] == order[..at][1..];
      TouchMovesToEnd(order[1..], key, at - 1);
      assert order[..at][0] == order[0] && order[0] != key;
      assert Without(order, key) == [order[0]] + Without(order[1..], key);
      assert Touched(order[1..], key)[..|order| - 2] == Without(order[1..], key);
      assert order[..at] == [order[0]] + order[1..][..at - 1];
      assert order[at + 1..] == order[1..][at..];
    }
  }

  /** An entry just used is the last of the finished ones to go. */
  lemma HitGoesLast(c: Cache, key: string, closed: set<nat>, other: string)
    requires Good(c) && key in c.entries && other in c.entries && other != key && c.entries[other] in closed
    ensures
      var p := Pruned(Cache(c.entries, Touched(c.order, key)), closed);
      other in p.entries ==> key in p.entries
  {
    var hit := Cache(c.entries, Touched(c.order, key));
    TouchKeepsGood(c, key);
    PruneHolds(hit, closed);
    hide Pruned, PrunedWell, Without;
    var b := |hit.order| - 1;
    assert other in hit.order && hit.order[b] == key;
    var a :| 0 <= a < |hit.order| && hit.order[a] == other;
    assert a < b && Removable(hit, closed, hit.order[a]);
  }

  lemma TouchKeepsGood(c: Cache, key: string)
    requires Good(c) && key in c.entries
    ensures Good(Cache(c.entries, Touched(c.order, key)))
  {
    WithoutHolds(c.order, key);
  }

  lemma CutOut(order: seq<string>, i: nat)
    requires NoRepeats(order) && i < |order|
    ensures
      var rest := order[..i] + order[i + 1..];
      NoRepeats(rest) && forall k :: k in rest <==> k in order && k != order[i]
  {
    var rest := order[..i] + order[i + 1..];
    forall k | k in order && k != order[i] ensures k in rest {
      var j :| 0 <= j < |order| && order[j] == k;
      assert rest[if j < i then j else j - 1] == k;
    }
  }

  lemma EvictionKeepsGood(c: Cache, i: nat)
    requires Good(c) && i < |c.order|
    ensures Good(Evicted(c, i)) && |Evicted(c, i).entries| == |c.entries| - 1
  {
    CutOut(c.order, i);
    hide NoRepeats;
    assert Evicted(c, i).entries.Keys == c.entries.Keys - {c.order[i]};
    assert c.order[i] in c.order;
  }

  /** What pruning may and must do: it drops closed entries only, and only down to
      the limit; it ends at the limit or when every entry is open. */
  ghost predicate PrunedWell(c: Cache, closed: set<nat>, p: Cache) {
    && Good(p)
    && (forall k :: k in p.entries ==> k in c.entries && p.entries[k] == c.entries[k])
    && (forall k :: k in c.entries && k !in p.entries ==> c.entries[k] in closed)
    && (|p.entries| <= LIMIT || forall k :: k in p.entries ==> p.entries[k] !in closed)
    && (p == c || |p.entries| >= LIMIT)
  }

  /** A closed entry that is kept has everything behind it kept as well. */
  ghost predicate OldestFirst(c: Cache, closed: set<nat>, p: Cache) {
    forall a, b :: 0 <= a < b < |c.order| && c.order[a] in p.entries && Removable(c, closed, c.order[a]) ==>
      c.order[b] in p.entries
  }

  /** Pruning is least-recently-used eviction of finished entries. */
  lemma {:induction false} PruneHolds(c: Cache, closed: set<nat>)
    requires Good(c)
    ensures PrunedWell(c, closed, Pruned(c, closed)) && OldestFirst(c, closed, Pruned(c, closed))
    decreases |c.order|
  {
    var i := OldestRemovable(c, closed, 0);
    if |c.entries| > LIMIT && i < |c.order| {
      hide *;
      assert Pruned(c, closed) == Pruned(Evicted(c, i), closed) by {
        PrunedUnfolds(c, closed);
      }
      EvictionKeepsGood(c, i);
      PruneHolds(Evicted(c, i), closed);
      EvictsOne(c, closed, i);
      PrunedWellCarries(c, closed, c.order[i], Evicted(c, i), Pruned(Evicted(c, i), closed));
      OldestFirstCarries(c, closed, i, Pruned(Evicted(c, i), closed));
    } else {
      assert Pruned(c, closed) == c;
      forall k | k in c.entries ensures |c.entries| <= LIMIT || c.entries[k] !in closed {
        assert k in c.order;
      }
    }
  }

  lemma PrunedUnfolds(c: Cache, closed: set<nat>)
    ensures
      var i := OldestRemovable(c, closed, 0);
      |c.entries| > LIMIT && i < |c.order| ==> Pruned(c, closed) == Pruned(Evicted(c, i), closed)
  {
  }

  /** The oldest entry that may go is a finished one; evicting it removes it alone. */
  lemma EvictsOne(c: Cache, closed: set<nat>, i: nat)
    requires Good(c) && i < |c.order| && Removable(c, closed, c.order[i])
    ensures c.order[i] in c.entries && c.entries[c.order[i]] in closed
    ensures Evicted(c, i).entries == c.entries - {c.order[i]}
  {
    assert c.order[i] in c.order;
    hide NoRepeats;
  }

  lemma PrunedWellCarries(c: Cache, closed: set<nat>, key: string, d: Cache, p: Cache)
    requires |c.entries| > LIMIT && key in c.entries && c.entries[key] in closed && d.entries == c.entries - {key}
    requires |d.entries| == |c.entries| - 1 && PrunedWell(d, closed, p)
    ensures PrunedWell(c, closed, p)
  {
    hide Good;
  }

  lemma OldestFirstCarries(c: Cache, closed: set<nat>, i: nat, p: Cache)
    requires Good(c) && i < |c.order| && (forall j :: 0 <= j < i ==> !Removable(c, closed, c.order[j]))
    requires (forall k :: k in p.entries ==> k in Evicted(c, i).entries) && OldestFirst(Evicted(c, i), closed, p)
    ensures OldestFirst(c, closed, p)
  {
    hide Good, NoRepeats;
    var d := Evicted(c, i);
    forall a, b | 0 <= a < b < |c.order| && c.order[a] in p.entries && Removable(c, closed, c.order[a])
      ensures c.order[b] in p.entries
    {
      assert c.order[a] in d.entries && a != i;
      assert d.order[a - 1] == c.order[a] && d.order[b - 1] == c.order[b];
    }
  }

  // ---------------------------------------------------------- interleavings

  type Value = map<string, string>

  datatype Pc = Computing | Ready(result: Result<Value>) | Waiting | Returned(result: Result<Value>)

  /** A leader is its own leader; a call with a blank key leads nothing. */
  datatype Call = Call(key: string, leader: nat, pc: Pc)

  datatype State = State(cache: Cache, calls: seq<Call>)

  datatype Step =
    | Start(key: string)
    | Computed(call: nat, result: Result<Value>)
    | Finish(call: nat)
    | Wake(call: nat)

  const EMPTY := State(Cache(map[], []), [])

  predicate IsClosed(c: Call) {
    c.pc.Ready? || c.pc.Returned?
  }

  function Closed(s: State): set<nat> {
    set l: nat | l < |s.calls| && IsClosed(s.calls[l])
  }

  predicate Enabled(s: State, step: Step) {
    match step
    case Start(_) => true
    case Computed(c, _) => c < |s.calls| && s.calls[c].pc.Computing?
    case Finish(c) => c < |s.calls| && s.calls[c].pc.Ready?
    case Wake(c) =>
      && c < |s.calls| && s.calls[c].pc.Waiting? && s.calls[c].leader < |s.calls|
      && IsClosed(s.calls[s.calls[c].leader])
  }

  function Next(s: State, step: Step): State
    requires Enabled(s, step)
  {
    match step
    case Start(key) =>
      var n := |s.calls|;
      if key == "" then s.(calls := s.calls + [Call("", n, Computing)])
      else
        var (leader, cache) := Entered(s.cache, key, n, Closed(s));
        State(cache, s.calls + [Call(key, leader, if leader == n then Computing else Waiting)])
    case Computed(c, result) =>
      s.(calls := s.calls[c := s.calls[c].(pc := if s.calls[c].key == "" then Returned(result) else Ready(result))])
    case Finish(c) =>
      var call := s.calls[c];
      State(Finalized(s.cache, call.key, c, call.pc.result.Err?, Closed(s)),
            s.calls[c := call.(pc := Returned(call.pc.result))])
    case Wake(c) =>
      s.(calls := s.calls[c := s.calls[c].(pc := Returned(s.calls[s.calls[c].leader].pc.result))])
  }

  /** Each cached key names a leader of that key, and once that leader is done it
      succeeded. */
  ghost predicate EntriesInv(s: State) {
    forall k :: k in s.cache.entries ==>
                  var l := s.cache.entries[k];
                  && k != "" && l < |s.calls| && s.calls[l].key == k && s.calls[l].leader == l
                  && (s.calls[l].pc.Returned? ==> s.calls[l].pc.result.Ok?)
  }

  /** Each call has a leader of its key, whose result it returns; a leader at work
      is the cached one. */
  ghost predicate CallsInv(s: State) {
    forall c {:trigger s.calls[c]} :: 0 <= c < |s.calls| ==>
                  var call := s.calls[c];
                  && call.leader < |s.calls| && s.calls[call.leader].key == call.key
                  && s.calls[call.leader].leader == call.leader
                  && (call.pc.Waiting? ==> call.leader != c)
                  && (call.pc.Computing? || call.pc.Ready? ==> call.leader == c)
                  && (call.pc.Computing? && call.key != "" ==>
                       call.key in s.cache.entries && s.cache.entries[call.key] == c)
                  && (call.pc.Returned? ==>
                       IsClosed(s.calls[call.leader]) && s.calls[call.leader].pc.result == call.pc.result)
                  && (call.pc.Ready? ==> call.key != "")
  }

  /** Over the limit, every entry is still being led. */
  ghost predicate SizeInv(s: State) {
    |s.cache.entries| > LIMIT ==>
      forall k :: k in s.cache.entries ==> s.cache.entries[k] < |s.calls| && !s.calls[s.cache.entries[k]].pc.Returned?
  }

  ghost predicate Inv(s: State) {
    Good(s.cache) && EntriesInv(s) && CallsInv(s) && SizeInv(s)
  }

  /** Pruning keeps what holds before it, given which channels are closed. */
  lemma PruneKeepsInv(c: Cache, calls: seq<Call>, closed: set<nat>)
    requires Good(c) && EntriesInv(State(c, calls)) && CallsInv(State(c, calls))
    requires forall l :: l in closed ==> l < |calls| && IsClosed(calls[l])
    requires forall l :: 0 <= l < |calls| && calls[l].pc.Returned? ==> l in closed
    ensures Inv(State(Pruned(c, closed), calls))
  {
    PruneHolds(c, closed);
    hide *;
    PruneKeepsParts(c, calls, closed, Pruned(c, closed));
  }

  lemma PruneKeepsParts(c: Cache, calls: seq<Call>, closed: set<nat>, p: Cache)
    requires PrunedWell(c, closed, p) && EntriesInv(State(c, calls)) && CallsInv(State(c, calls))
    requires forall l :: l in closed ==> l < |calls| && IsClosed(calls[l])
    requires forall l :: 0 <= l < |calls| && calls[l].pc.Returned? ==> l in closed
    ensures Inv(State(p, calls))
  {
    hide Good;
    var t := State(p, calls);
    assert EntriesInv(t);
    assert SizeInv(t);
    assert CallsInv(t) by {
      forall i | 0 <= i < |calls| && calls[i].pc.Computing? && calls[i].key != ""
        ensures calls[i].key in p.entries && p.entries[calls[i].key] == i
      {
        assert i !in closed;
      }
    }
  }

  lemma MissKeepsInv(s: State, key: string)
    requires Inv(s) && key != "" && key !in s.cache.entries
    ensures Inv(Next(s, Start(key)))
  {
    hide Pruned;
    var n := |s.calls|;
    var c := Cache(s.cache.entries[key := n], s.cache.order + [key]);
    var t := State(c, s.calls + [Call(key, n, Computing)]);
    assert Good(c) by {
      assert key !in s.cache.order;
    }
    LeaderJoins(s, key);
    hide EntriesInv, CallsInv;
    PruneKeepsInv(c, t.calls, Closed(s));
  }

  lemma LeaderJoins(s: State, key: string)
    requires EntriesInv(s) && CallsInv(s) && key != "" && key !in s.cache.entries
    ensures
      var n := |s.calls|;
      var t := State(Cache(s.cache.entries[key := n], s.cache.order + [key]), s.calls + [Call(key, n, Computing)]);
      EntriesInv(t) && CallsInv(t)
  {
  }

  lemma BlankKeepsInv(s: State)
    requires Inv(s)
    ensures Inv(Next(s, Start("")))
  {
    CallJoins(s, s.cache, Call("", |s.calls|, Computing));
    hide Good, EntriesInv, CallsInv, SizeInv;
  }

  lemma HitKeepsInv(s: State, key: string)
    requires Inv(s) && key != "" && key in s.cache.entries
    ensures Inv(Next(s, Start(key)))
  {
    TouchKeepsGood(s.cache, key);
    CallJoins(s, Cache(s.cache.entries, Touched(s.cache.order, key)), Call(key, s.cache.entries[key], Waiting));
    assert s.cache.entries[key] < |s.calls|;
    hide Good, Touched, CallsInv, SizeInv;
  }

  /** A call that joins an entry, or computes for itself. */
  lemma CallJoins(s: State, cache: Cache, call: Call)
    requires EntriesInv(s) && CallsInv(s) && SizeInv(s) && cache.entries == s.cache.entries
    requires (call.pc.Computing? && call.key == "" && call.leader == |s.calls|) ||
             (call.pc.Waiting? && call.key in cache.entries && call.leader == cache.entries[call.key])
    ensures var t := State(cache, s.calls + [call]); EntriesInv(t) && CallsInv(t) && SizeInv(t)
  {
    var calls := s.calls + [call];
    assert calls[|s.calls|] == call;
    assert forall c :: 0 <= c < |s.calls| ==> calls[c] == s.calls[c];
    var t := State(cache, calls);
    assert EntriesInv(t) && SizeInv(t);
    if call.pc.Waiting? {
      assert cache.entries[call.key] < |s.calls| && s.calls[call.leader].key == call.key
        && s.calls[call.leader].leader == call.leader;
    }
    CallsGrow(s, cache, call);
  }

  lemma CallsGrow(s: State, cache: Cache, call: Call)
    requires CallsInv(s) && cache.entries == s.cache.entries
    requires (call.pc.Computing? && call.key == "" && call.leader == |s.calls|) ||
             (call.pc.Waiting? && call.leader < |s.calls| && s.calls[call.leader].key == call.key
               && s.calls[call.leader].leader == call.leader)
    ensures CallsInv(State(cache, s.calls + [call]))
  {
    var calls := s.calls + [call];
    assert calls[|s.calls|] == call;
    assert forall c :: 0 <= c < |s.calls| ==> calls[c] == s.calls[c];
    assert forall c :: 0 <= c < |s.calls| ==>
      s.calls[c].leader < |s.calls| && calls[s.calls[c].leader] == s.calls[s.calls[c].leader];
  }

  lemma StartKeepsInv(s: State, key: string)
    requires Inv(s)
    ensures Inv(Next(s, Start(key)))
  {
    hide Good, Pruned, Touched;
    if key == "" {
      BlankKeepsInv(s);
    } else if key in s.cache.entries {
      HitKeepsInv(s, key);
    } else {
      MissKeepsInv(s, key);
    }
  }

  lemma FinishKeepsInv(s: State, call: nat)
    requires Inv(s) && Enabled(s, Finish(call))
    ensures Inv(Next(s, Finish(call)))
  {
    hide Pruned, Without;
    var key := s.calls[call].key;
    var c := Dropped(s, call);
    WithoutHolds(s.cache.order, key);
    assert Good(c);
    LeaderLeaves(s, call);
    hide EntriesInv, CallsInv;
    PruneKeepsInv(c, s.calls[call := s.calls[call].(pc := Returned(s.calls[call].pc.result))], Closed(s));
  }

  /** The cache without a failed leader's entry. */
  function Dropped(s: State, call: nat): Cache
    requires Enabled(s, Finish(call))
  {
    var key := s.calls[call].key;
    if s.calls[call].pc.result.Err? && key in s.cache.entries && s.cache.entries[key] == call
    then Cache(s.cache.entries - {key}, Without(s.cache.order, key)) else s.cache
  }

  lemma LeaderLeaves(s: State, call: nat)
    requires EntriesInv(s) && CallsInv(s) && Enabled(s, Finish(call))
    ensures
      var t := State(Dropped(s, call), s.calls[call := s.calls[call].(pc := Returned(s.calls[call].pc.result))]);
      EntriesInv(t) && CallsInv(t)
  {
    hide Without;
  }

  /** Only the state of one call moves on; what is closed stays as it is. */
  ghost predicate Moves(s: State, t: State) {
    && t.cache == s.cache && |t.calls| == |s.calls|
    && forall i :: 0 <= i < |s.calls| ==>
                     && t.calls[i].key == s.calls[i].key && t.calls[i].leader == s.calls[i].leader
                     && (IsClosed(s.calls[i]) ==> IsClosed(t.calls[i]) && t.calls[i].pc.result == s.calls[i].pc.result)
  }

  lemma MovesKeepCalls(s: State, t: State, c: nat)
    requires CallsInv(s) && Moves(s, t) && c < |s.calls|
    requires forall i :: 0 <= i < |s.calls| && i != c ==> t.calls[i] == s.calls[i]
    requires !t.calls[c].pc.Waiting? && !t.calls[c].pc.Computing?
    requires t.calls[c].pc.Ready? ==> t.calls[c].leader == c && t.calls[c].key != ""
    requires t.calls[c].pc.Returned? ==>
               var l := t.calls[c].leader;
               l < |t.calls| && IsClosed(t.calls[l]) && t.calls[l].pc.result == t.calls[c].pc.result
    ensures CallsInv(t)
  {
  }

  lemma ComputedKeepsInv(s: State, call: nat, result: Result<Value>)
    requires Inv(s) && Enabled(s, Computed(call, result))
    ensures Inv(Next(s, Computed(call, result)))
  {
    hide Good;
    var t := Next(s, Computed(call, result));
    assert Moves(s, t);
    MovesKeepCalls(s, t, call);
    assert s.calls[call].key == "" ==> forall k :: k in s.cache.entries ==> s.cache.entries[k] != call;
    hide CallsInv, Moves;
    assert EntriesInv(t) && SizeInv(t);
  }

  lemma WakeKeepsInv(s: State, call: nat)
    requires Inv(s) && Enabled(s, Wake(call))
    ensures Inv(Next(s, Wake(call)))
  {
    hide Good;
    var t := Next(s, Wake(call));
    assert s.calls[call].leader != call;
    assert Moves(s, t);
    MovesKeepCalls(s, t, call);
    assert forall k :: k in s.cache.entries ==> s.cache.entries[k] != call;
    hide CallsInv, Moves;
    assert EntriesInv(t) && SizeInv(t);
  }

  function After(steps: seq<Step>): Option<State> {
    if steps == [] then Some(EMPTY)
    else
      var before, step := After(steps[..|steps| - 1]), steps[|steps| - 1];
      if before.Some? && Enabled(before.value, step) then Some(Next(before.value, step)) else None
  }

  lemma {:induction false} RunsKeepInv(steps: seq<Step>)
    requires After(steps).Some?
    ensures Inv(After(steps).value)
  {
    if steps != [] {
      hide Inv, Next;
      var init, step := steps[..|steps| - 1], steps[|steps| - 1];
      RunsKeepInv(init);
      var before := After(init).value;
      match step {
        case Start(key) => StartKeepsInv(before, key);
        case Computed(c, result) => ComputedKeepsInv(before, c, result);
        case Finish(c) => FinishKeepsInv(before, c);
        case Wake(c) => WakeKeepsInv(before, c);
      }
    }
  }

  /** In every interleaving: at most one computation per non-blank key is in
      flight; a call returns its leader's result; no finished failure is cached; the
      use order lists the cached keys without repeats; and nobody waits in vain. */
  lemma CacheIsCorrect(steps: seq<Step>)
    requires After(steps).Some?
    ensures
      var s := After(steps).value;
      && Good(s.cache)
      && (forall a, b ::
            && 0 <= a < b < |s.calls| && s.calls[a].pc.Computing? && s.calls[b].pc.Computing?
            && s.calls[a].key == s.calls[b].key
            ==> s.calls[a].key == "")
      && (forall c :: 0 <= c < |s.calls| && s.calls[c].pc.Returned? ==>
            var l := s.calls[c].leader;
            l < |s.calls| && s.calls[l].key == s.calls[c].key && IsClosed(s.calls[l])
              && s.calls[l].pc.result == s.calls[c].pc.result)
      && (forall k :: k in s.cache.entries ==>
            var l := s.cache.entries[k];
            l < |s.calls| && s.calls[l].key == k && (s.calls[l].pc.Returned? ==> s.calls[l].pc.result.Ok?))
      && (forall c :: 0 <= c < |s.calls| && s.calls[c].pc.Waiting? ==>
            Enabled(s, Wake(c)) || Enabled(s, Computed(s.calls[c].leader, Err)))
  {
    RunsKeepInv(steps);
    hide After, NoRepeats;
  }

  /** Leaders that have not put their results away. */
  function Unfinished(s: State): set<nat> {
    set l: nat | l < |s.calls| && s.calls[l].leader == l && !s.calls[l].pc.Returned?
  }

  /** The cache exceeds its limit only by entries still being computed or put away;
      once all calls are idle at most four entries remain. */
  lemma CacheStaysSmall(steps: seq<Step>)
    requires After(steps).Some?
    ensures
      var s := After(steps).value;
      && (|s.cache.entries| <= LIMIT || |s.cache.entries| <= |Unfinished(s)|)
      && (Unfinished(s) == {} ==> |s.cache.entries| <= LIMIT)
  {
    RunsKeepInv(steps);
    hide After, CallsInv;
    var s := After(steps).value;
    if |s.cache.entries| > LIMIT {
      var leaders := set k | k in s.cache.entries :: s.cache.entries[k];
      assert leaders <= Unfinished(s);
      InjectiveSize(s.cache.entries, leaders);
      SubsetSize(leaders, Unfinished(s));
    }
  }

  lemma {:induction false} InjectiveSize(m: map<string, nat>, image: set<nat>)
    requires forall j, k :: j in m && k in m && m[j] == m[k] ==> j == k
    requires image == set k | k in m :: m[k]
    ensures |image| == |m|
    decreases |m|
  {
    if m == map[] {
      assert image == {};
    } else {
      var k :| k in m;
      var rest := m - {k};
      assert rest.Keys == m.Keys - {k};
      var less := set j | j in rest :: rest[j];
      forall l ensures l in less <==> l in image - {m[k]} {
        if l in image - {m[k]} {
          var j :| j in m && m[j] == l;
          assert j in rest;
        }
      }
      assert less == image - {m[k]};
      InjectiveSize(rest, less);
    }
  }

  /** Every computation that succeeds computes f. */
  ghost predicate Computes(steps: seq<Step>, f: string -> Value) {
    forall i :: 0 <= i < |steps| && steps[i].Computed? && steps[i].result.Ok? && After(steps[..i]).Some?
                && steps[i].call < |After(steps[..i]).value.calls| ==>
                  steps[i].result.value == f(After(steps[..i]).value.calls[steps[i].call].key)
  }

  /** The cache agrees with the function it caches: whatever a call returns, unless
      it failed, is the function's value for its own key. */
  lemma {:induction false} CacheAgreesWithFunction(steps: seq<Step>, f: string -> Value)
    requires After(steps).Some? && Computes(steps, f)
    ensures
      var s := After(steps).value;
      forall c :: 0 <= c < |s.calls| && IsClosed(s.calls[c]) && s.calls[c].pc.result.Ok? ==>
        s.calls[c].pc.result.value == f(s.calls[c].key)
  {
    if steps != [] {
      var init, step := steps[..|steps| - 1], steps[|steps| - 1];
      assert forall i :: 0 <= i < |init| ==> init[..i] == steps[..i] && init[i] == steps[i];
      assert Computes(init, f);
      CacheAgreesWithFunction(init, f);
      RunsKeepInv(init);
      StepAgrees(After(init).value, step, f);
    }
  }

  lemma StepAgrees(s: State, step: Step, f: string -> Value)
    requires CallsInv(s) && Enabled(s, step)
    requires step.Computed? && step.result.Ok? ==> step.result.value == f(s.calls[step.call].key)
    requires forall c :: 0 <= c < |s.calls| && IsClosed(s.calls[c]) && s.calls[c].pc.result.Ok? ==>
        s.calls[c].pc.result.value == f(s.calls[c].key)
    ensures
      var t := Next(s, step);
      forall c :: 0 <= c < |t.calls| && IsClosed(t.calls[c]) && t.calls[c].pc.result.Ok? ==>
        t.calls[c].pc.result.value == f(t.calls[c].key)
  {
    hide Entered, Finalized;
  }
}
