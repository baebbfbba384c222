/** All-or-nothing export of several files (saveExclusiveExportPayloads and its
    helpers in desktop/app.go), on a file system that others use at the same time:
    before every call they may act, and calls may fail. */
module ExclusiveExport {
  import opened Options

  type Bytes = seq<int>

  /** Staging names are random and long; nobody else uses them. */
  datatype Path = User(name: string) | Staging(name: string)

  /** Directory entries lead to inodes. The last six fields are bookkeeping for
      the statements: the inodes made here, the names at which others have removed or
      replaced one of them, whether a call made here has hit a file of theirs, whether
      they replaced a file in the window between a check and the removal after it, and
      whether a call made here failed of its own or because its name was taken. */
  datatype World = World(
    names: map<Path, nat>,
    contents: map<nat, Bytes>,
    used: nat,
    clock: nat,
    ours: set<nat>,
    touched: set<Path>,
    harmed: bool,
    raced: bool,
    faulted: bool,
    met: bool)

  ghost predicate Sane(w: World) {
    && (forall n :: n in w.names ==> w.names[n] < w.used)
    && (forall i :: i in w.ours ==> i < w.used && i in w.contents)
  }

  ghost predicate SameStaging(w: World, v: World) {
    forall n: Path :: n.Staging? ==> (n in v.names <==> n in w.names) && (n in w.names ==> v.names[n] == w.names[n])
  }

  /** Names of files made here stay where others do not touch them. */
  ghost predicate KeepsUntouched(w: World, v: World) {
    && w.touched <= v.touched
    && (forall n :: n in w.names && w.names[n] in w.ours && n !in v.touched ==>
         n in v.names && v.names[n] == w.names[n])
  }

  /** What others may do: anything to their own files; remove or replace files made
      here, but neither write them nor give them new names; never touch staging
      names. */
  ghost predicate Interferes(w: World, v: World) {
    && v.ours == w.ours && w.used <= v.used && v.harmed == w.harmed && v.raced == w.raced
    && v.clock == w.clock && v.faulted == w.faulted && v.met == w.met
    && (forall n :: n in v.names ==> v.names[n] < v.used)
    && SameStaging(w, v)
    && (forall n :: n in v.names && v.names[n] in w.ours ==> n in w.names && w.names[n] == v.names[n])
    && (forall i :: i in w.ours && i in w.contents ==> i in v.contents && v.contents[i] == w.contents[i])
    && KeepsUntouched(w, v)
    && (forall n :: n in v.touched && n !in w.touched ==>
          n in w.names && w.names[n] in w.ours && (n !in v.names || v.names[n] != w.names[n]))
  }

  // ------------------------------------------------------------ system calls

  function Created(w: World, path: Path): World {
    w.(names := w.names[path := w.used], contents := w.contents[w.used := []],
       used := w.used + 1, ours := w.ours + {w.used})
  }

  /** A write that fails leaves the file empty. */
  function Written(w: World, inode: nat, payload: Bytes, ok: bool): World {
    w.(contents := w.contents[inode := if ok then payload else []], harmed := w.harmed || inode !in w.ours,
       faulted := w.faulted || !ok)
  }

  /** A call that fails, for its name being taken or else of its own. */
  function Failed(w: World, taken: bool): World {
    if taken then w.(met := true) else w.(faulted := true)
  }

  function Linked(w: World, path: Path, inode: nat): World {
    w.(names := w.names[path := inode])
  }

  function Removed(w: World, path: Path): World {
    w.(names := w.names - {path}, harmed := w.harmed || (path in w.names && w.names[path] !in w.ours))
  }

  datatype Committed = Committed(path: Path, inode: nat)

  /** What goes on around the calls made here only adds to what is ours: staging
      names, contents, and all names that others did not touch stay. */
  ghost predicate Adds(w: World, v: World) {
    && Sane(v) && w.ours <= v.ours && w.used <= v.used
    && (w.faulted ==> v.faulted) && (w.met ==> v.met)
    && (forall n: Path :: n.Staging? && n in w.names && w.names[n] in w.ours ==>
         n in v.names && v.names[n] == w.names[n])
    && (forall i :: i in w.ours && i in w.contents ==> i in v.contents && v.contents[i] == w.contents[i])
    && KeepsUntouched(w, v)
  }

  /** Files made here have no other names than these. */
  ghost predicate OnlyAt(w: World, staged: seq<Path>, committed: seq<Committed>) {
    forall n :: n in w.names && w.names[n] in w.ours ==> n in staged || Committed(n, w.names[n]) in committed
  }

  /** A file of others was hit exactly if they put it there within the window between
      check and removal. */
  predicate Blameless(w: World) {
    w.harmed <==> w.raced
  }

  /** No file made here has gained a name. */
  ghost predicate NoNewNames(w: World, v: World) {
    forall n :: n in v.names && v.names[n] in v.ours ==>
      n in w.names && w.names[n] in w.ours && w.names[n] == v.names[n]
  }

  lemma AddsComposes(u: World, v: World, w: World)
    requires Adds(u, v) && Adds(v, w)
    ensures Adds(u, w)
  {
  }

  lemma InterferenceAdds(w: World, v: World)
    requires Sane(w) && Interferes(w, v)
    ensures Adds(w, v) && NoNewNames(w, v) && Blameless(v) == Blameless(w)
  {
  }

  /** Taking back a name bound since. */
  lemma RemovalAdds(w: World, v: World, path: Path)
    requires Adds(w, v) && path !in w.names
    ensures Adds(w, Removed(v, path))
  {
  }

  /** Removing what the name leads to by now, after it led to our file when looked at. */
  lemma RacedRemoval(w: World, seen: World, now: World, path: Path, inode: nat)
    requires Adds(w, seen) && NoNewNames(w, seen) && path in seen.names && seen.names[path] == inode
    requires Adds(seen, now) && NoNewNames(seen, now) && now.ours == seen.ours == w.ours
    ensures
      var before := now.(raced := now.raced || (path in now.names && now.names[path] != inode));
      var v := Removed(before, path);
      && Sane(before) && Sane(v) && Adds(w, before) && NoNewNames(w, before) && NoNewNames(w, v) && path !in v.names
      && (inode in w.ours && Blameless(now) ==> Blameless(v))
  {
    AddsComposes(w, seen, now);
  }

  /** Whatever others do, in any world there can be. */
  ghost predicate WellBehaved(others: World -> World) {
    forall w :: Sane(w) ==> Interferes(w, others(w))
  }

  function Ticked(w: World): World {
    w.(clock := w.clock + 1)
  }

  /** removeExportFileIfSame: the check, and, if it passes, the removal, with others
      acting before each. */
  function RemovedIfSame(w: World, others: World -> World, path: Path, inode: nat): World {
    var seen := others(Ticked(w));
    if path in seen.names && seen.names[path] == inode then
      var now := others(Ticked(seen));
      Removed(now.(raced := now.raced || (path in now.names && now.names[path] != inode)), path)
    else
      seen
  }

  class FileSystem {
    var world: World
    const others: World -> World
    /** Whether the call made at this time fails for reasons of its own. */
    const faults: nat -> bool
    const suffixes: nat -> string

    ghost predicate Valid()
      reads this
    {
      Sane(world) && WellBehaved(others) && (world.faulted ==> FaultBy(world.clock))
    }

    ghost predicate FaultBy(time: nat) {
      exists t: nat :: t <= time && faults(t)
    }

    /** Nobody else acts, no call fails of its own, and suffixes do not repeat. */
    ghost predicate Quiet() {
      && (forall w :: others(w) == w) && (forall t :: !faults(t))
      && (forall s, t :: s != t ==> suffixes(s) != suffixes(t))
    }

    /** None of the staging names still to come is in use. */
    ghost predicate Fresh()
      reads this
    {
      forall t: nat :: t > world.clock ==> Staging(suffixes(t)) !in world.names
    }

    constructor (world: World, others: World -> World, faults: nat -> bool, suffixes: nat -> string)
      requires Sane(world) && WellBehaved(others) && !world.faulted
      ensures Valid() && this.world == world && this.others == others
      ensures this.faults == faults && this.suffixes == suffixes
    {
      this.world, this.others, this.faults, this.suffixes := world, others, faults, suffixes;
    }

    /** Time passes and others act. */
    method Wait()
      requires Valid()
      modifies this
      ensures Valid() && world == others(Ticked(old(world)))
      ensures Adds(old(world), world) && NoNewNames(old(world), world)
      ensures Blameless(world) == Blameless(old(world)) && world.ours == old(world).ours
      ensures SameStaging(old(world), world)
    {
      var now := Ticked(world);
      world := others(now);
      InterferenceAdds(now, world);
    }

    function Lstat(path: Path): Option<nat>
      reads this
    {
      if path in world.names then Some(world.names[path]) else None
    }

    method CreateExclusive(path: Path) returns (inode: Option<nat>)
      requires Valid()
      modifies this
      ensures Valid()
      ensures inode.None? <==> path in old(world).names || faults(old(world).clock)
      ensures inode.None? ==> world == Failed(old(world), path in old(world).names)
      ensures inode.Some? ==>
          path !in old(world).names && inode.value == old(world).used && world == Created(old(world), path)
    {
      if path in world.names || faults(world.clock) {
        world := Failed(world, path in world.names);
        return None;
      }
      inode := Some(world.used);
      world := Created(world, path);
    }

    method Write(inode: nat, payload: Bytes) returns (ok: bool)
      requires Valid()
      modifies this
      ensures Valid() && ok == !faults(old(world).clock) && world == Written(old(world), inode, payload, ok)
    {
      ok := !faults(world.clock);
      world := Written(world, inode, payload, ok);
    }

    /** A call on an open file that makes no name: open, stat, chmod, sync or close. */
    method Proceed() returns (ok: bool)
      requires Valid()
      modifies this
      ensures Valid() && ok == !faults(old(world).clock)
      ensures world == if ok then old(world) else Failed(old(world), false)
    {
      ok := !faults(world.clock);
      if !ok {
        world := Failed(world, false);
      }
    }

    method Link(source: Path, target: Path) returns (ok: bool)
      requires Valid() && source in world.names
      modifies this
      ensures Valid()
      ensures ok <==> target !in old(world).names && !faults(old(world).clock)
      ensures !ok ==> world == Failed(old(world), target in old(world).names)
      ensures ok ==>
                && source in old(world).names && target !in old(world).names
                && world == Linked(old(world), target, old(world).names[source])
    {
      if target in world.names || faults(world.clock) {
        world := Failed(world, target in world.names);
        return false;
      }
      world := Linked(world, target, world.names[source]);
      ok := true;
    }

    method Remove(path: Path)
      requires Valid()
      modifies this
      ensures Valid() && world == Removed(old(world), path)
    {
      world := Removed(world, path);
    }

    /** Removes the name if it still leads to the file made here. Others may act
        between the check and the removal. */
    method RemoveExportFileIfSame(path: Path, inode: nat) returns (ghost before: World)
      requires Valid()
      modifies this
      ensures Valid() && world == RemovedIfSame(old(world), others, path, inode)
      ensures Adds(old(world), before) && (world == before || world == Removed(before, path))
      ensures NoNewNames(old(world), world) && NoNewNames(old(world), before)
      ensures path !in world.names || world.names[path] != inode
      ensures inode in old(world).ours && Blameless(old(world)) ==> Blameless(world)
    {
      hide Adds, NoNewNames, Removed, SameStaging, Blameless;
      ghost var w := world;
      Wait();
      before := world;
      if Lstat(path) == Some(inode) {
        ghost var seen := world;
        Wait();
        RacedRemoval(w, seen, world, path, inode);
        if path in world.names && world.names[path] != inode {
          world := world.(raced := true);
        }
        before := world;
        Remove(path);
      }
    }
  }

  /** The promise not to touch what others create has a window: whatever the world
      in which a published file is about to be rolled back, others can put a file of
      theirs in its place after the check has passed, and lose it. */
  lemma WindowHitsAnother(w: World, path: Path, inode: nat, theirs: Bytes) returns (others: World -> World)
    requires Sane(w) && path.User? && path in w.names && w.names[path] == inode && inode in w.ours
    ensures WellBehaved(others)
    ensures
      var now := others(Ticked(others(Ticked(w))));
      && path in now.names && now.names[path] !in now.ours
      && now.names[path] in now.contents && now.contents[now.names[path]] == theirs
      && var x := RemovedIfSame(w, others, path, inode);
         path !in x.names && x.harmed && x.raced
  {
    others := (v: World) => if v.clock == w.clock + 2 then Replaced(v, path, theirs) else v;
    forall v | Sane(v) ensures Interferes(v, others(v)) {
      ReplacingInterferes(v, path, theirs);
    }
  }

  /** Others put a new file in the place of whatever the name leads to. */
  function Replaced(w: World, path: Path, theirs: Bytes): World {
    if path.User? then
      var touched := if path in w.names && w.names[path] in w.ours then w.touched + {path} else w.touched;
      w.(names := w.names[path := w.used], contents := w.contents[w.used := theirs],
         used := w.used + 1, touched := touched)
    else w
  }

  lemma ReplacingInterferes(w: World, path: Path, theirs: Bytes)
    requires Sane(w)
    ensures Interferes(w, Replaced(w, path, theirs)) && Interferes(w, w)
  {
  }

  // ----------------------------------------------------------------- export

  /** exportTempCreateAttempts. */
  const TEMP_CREATE_ATTEMPTS := 100

  /** A staging file, made here. */
  predicate IsStaged(w: World, path: Path) {
    path.Staging? && path in w.names && w.names[path] in w.ours && w.names[path] in w.contents
  }

  ghost predicate Holds(w: World, path: Path, payload: Bytes) {
    IsStaged(w, path) && w.contents[w.names[path]] == payload
  }

  /** Apart from one name for one file, no file made here has gained a name. */
  ghost predicate OnlyNew(w: World, v: World, path: Path, inode: nat) {
    forall n :: n in v.names && v.names[n] in v.ours && !(n == path && v.names[n] == inode) ==>
                  n in w.names && w.names[n] in w.ours && w.names[n] == v.names[n]
  }

  lemma AddsItself(w: World)
    requires Sane(w)
    ensures Adds(w, w)
  {
  }

  /** The name still leads to the file it was given to. */
  predicate Leads(w: World, c: Committed) {
    c.path in w.names && w.names[c.path] == c.inode
  }

  /** Since w the target has come to lead to a file made here. */
  ghost predicate Bound(w: World, v: World, target: Path, inode: nat) {
    && Adds(w, v) && OnlyNew(w, v, target, inode) && inode in v.ours && inode in v.contents
    && (target in v.touched || Leads(v, Committed(target, inode)))
  }

  /** Nothing has come to be left behind since w. */
  ghost predicate Clean(w: World, v: World) {
    Adds(w, v) && NoNewNames(w, v)
  }

  lemma CleanComposes(u: World, v: World, w: World)
    requires Clean(u, v) && Clean(v, w)
    ensures Clean(u, w)
  {
  }

  /** No trouble has come since. */
  predicate Undisturbed(w: World, v: World) {
    v.touched == w.touched && v.faulted == w.faulted && v.met == w.met
  }

  /** The same names in user directories. */
  ghost predicate SameUsers(w: World, v: World) {
    forall n: Path :: n.User? ==> (n in v.names <==> n in w.names)
  }

  lemma FailureIsClean(w: World, taken: bool)
    requires Sane(w)
    ensures Clean(w, Failed(w, taken)) && Blameless(Failed(w, taken)) == Blameless(w)
    ensures Failed(w, taken).ours == w.ours && Failed(w, taken).names == w.names
    ensures Failed(w, taken).touched == w.touched && (if taken then Failed(w, taken).met else Failed(w, taken).faulted)
  {
  }

  lemma LinkBinds(w: World, target: Path, inode: nat)
    requires Sane(w) && target !in w.names && inode in w.ours
    ensures Bound(w, Linked(w, target, inode), target, inode) && Blameless(Linked(w, target, inode)) == Blameless(w)
    ensures Linked(w, target, inode).contents == w.contents && Undisturbed(w, Linked(w, target, inode))
    ensures Linked(w, target, inode).names == w.names[target := inode]
  {
  }

  lemma CreationBinds(w: World, target: Path)
    requires Sane(w) && target !in w.names
    ensures Bound(w, Created(w, target), target, w.used) && w.used !in w.ours
    ensures Blameless(Created(w, target)) == Blameless(w)
  {
  }

  lemma BoundKeeps(w: World, v: World, x: World, target: Path, inode: nat)
    requires Bound(w, v, target, inode) && Clean(v, x)
    ensures Bound(w, x, target, inode) && inode in v.contents && x.contents[inode] == v.contents[inode]
  {
  }

  lemma BoundWrites(w: World, v: World, target: Path, inode: nat, payload: Bytes, ok: bool)
    requires Bound(w, v, target, inode) && inode !in w.ours
    ensures
      var x := Written(v, inode, payload, ok);
      && Bound(w, x, target, inode) && (ok ==> x.contents[inode] == payload) && Blameless(x) == Blameless(v)
      && (!ok ==> x.faulted) && (ok ==> Undisturbed(v, x)) && x.names == v.names
  {
  }

  lemma BoundTakenBack(w: World, v: World, before: World, x: World, target: Path, inode: nat)
    requires Bound(w, v, target, inode) && target !in w.names && Clean(v, before) && NoNewNames(v, x)
    requires x == before || x == Removed(before, target)
    requires target !in x.names || x.names[target] != inode
    ensures Clean(w, x)
  {
    AddsComposes(w, v, before);
    if x == Removed(before, target) {
      RemovalAdds(w, before, target);
    }
    hide Adds;
  }

  lemma BoundSince(u: World, w: World, v: World, target: Path, inode: nat)
    requires Clean(u, w) && Bound(w, v, target, inode)
    ensures Bound(u, v, target, inode)
  {
  }

  lemma HoldsKeeps(w: World, v: World, temp: Path, payload: Bytes)
    requires Clean(w, v) && Holds(w, temp, payload)
    ensures Holds(v, temp, payload)
  {
  }

  /** The status and mode of the new staging file; if that fails, it is removed. */
  method CheckTempFile(fs: FileSystem, path: Path, inode: nat, ghost w1: World) returns (ok: bool)
    requires fs.Valid() && Sane(w1) && path.Staging? && path !in w1.names && inode == w1.used
    requires fs.world == Created(w1, path)
    modifies fs
    ensures fs.Valid() && Blameless(fs.world) == Blameless(w1)
    ensures !ok ==> Clean(w1, fs.world) && fs.world.faulted
    ensures ok ==>
              && Holds(fs.world, path, []) && fs.world.names[path] == inode && inode !in w1.ours
              && Bound(w1, fs.world, path, inode)
    ensures fs.Quiet() ==> ok && fs.world == Ticked(old(fs.world))
  {
    hide Adds, NoNewNames, OnlyNew, Created, Blameless, Removed, Bound, Failed;
    CreationBinds(w1, path);
    CreationHolds(w1, path);
    ghost var w2 := fs.world;
    fs.Wait();
    ghost var w3 := fs.world;
    BoundKeeps(w1, w2, w3, path, inode);
    HoldsKeeps(w2, w3, path, []);
    FailureIsClean(w3, false);
    ok := fs.Proceed();
    if !ok {
      ghost var w4 := fs.world;
      BoundKeeps(w1, w3, w4, path, inode);
      HoldsKeeps(w3, w4, path, []);
      RemovalOfOurs(w4, path);
      fs.Remove(path);
      AddsItself(w4);
      NoNewItself(w4);
      BoundTakenBack(w1, w4, w4, fs.world, path, inode);
    }
  }

  /** Reserves a new staging file; if it fails, none is left, and some call failed or
      all names tried were taken. */
  method CreateExportTempFile(fs: FileSystem) returns (temp: Option<Path>)
    requires fs.Valid()
    modifies fs
    ensures fs.Valid() && Blameless(fs.world) == Blameless(old(fs.world))
    ensures temp.None? ==> Clean(old(fs.world), fs.world) && (fs.world.faulted || fs.world.met)
    ensures temp.Some? ==>
              && Holds(fs.world, temp.value, []) && fs.world.names[temp.value] !in old(fs.world).ours
              && Bound(old(fs.world), fs.world, temp.value, fs.world.names[temp.value])
    ensures fs.Quiet() && old(fs.Fresh()) ==>
              && temp.Some? && fs.Fresh() && Undisturbed(old(fs.world), fs.world)
              && SameUsers(old(fs.world), fs.world)
  {
    hide Adds, NoNewNames, OnlyNew, Created, Blameless, Removed, Bound, Failed, SameStaging, Interferes, WellBehaved;
    hide Holds;
    ghost var w0 := fs.world;
    AddsItself(w0);
    NoNewItself(w0);
    var attempt := 0;
    while attempt < TEMP_CREATE_ATTEMPTS
      invariant fs.Valid() && Clean(w0, fs.world) && Blameless(fs.world) == Blameless(w0)
      invariant fs.world.ours == w0.ours
      invariant attempt > 0 ==> fs.world.met
      invariant fs.Quiet() && old(fs.Fresh()) ==> attempt == 0 && fs.world == w0
    {
      ghost var w := fs.world;
      fs.Wait();
      ghost var w1 := fs.world;
      CleanComposes(w0, w, w1);
      var path := Staging(fs.suffixes(fs.world.clock));
      FailureIsClean(w1, path in w1.names);
      var inode := fs.CreateExclusive(path);
      if inode.None? {
        CleanComposes(w0, w1, fs.world);
        if path !in fs.world.names {
          return None;
        }
      } else {
        CreationHolds(w1, path);
        var ok := CheckTempFile(fs, path, inode.value, w1);
        if !ok {
          CleanComposes(w0, w1, fs.world);
          return None;
        }
        BoundSince(w0, w1, fs.world, path, inode.value);
        return Some(path);
      }
      attempt := attempt + 1;
    }
    temp := None;
  }

  lemma CreationHolds(w: World, path: Path)
    requires path.Staging?
    ensures Holds(Created(w, path), path, []) && Created(w, path).names == w.names[path := w.used]
    ensures Undisturbed(w, Created(w, path)) && Created(w, path).clock == w.clock
  {
  }

  lemma RemovalOfOurs(w: World, path: Path)
    requires path in w.names && w.names[path] in w.ours
    ensures NoNewNames(w, Removed(w, path)) && Blameless(Removed(w, path)) == Blameless(w)
    ensures path !in Removed(w, path).names && (w.faulted ==> Removed(w, path).faulted)
  {
  }

  /** Publishes a staged file under its target, by a hard link, or by an exclusive
      create and a copy; if it fails, the target is not left behind, and a call failed,
      the target was taken, or others touched it. */
  method CommitStagedExportFile(fs: FileSystem, temp: Path, target: Path, ghost payload: Bytes)
    returns (inode: Option<nat>)
    requires fs.Valid() && Holds(fs.world, temp, payload) && target.User?
    modifies fs
    ensures fs.Valid() && (Blameless(old(fs.world)) ==> Blameless(fs.world))
    ensures inode.None? ==> Clean(old(fs.world), fs.world)
    ensures inode.None? ==> fs.world.faulted || fs.world.met || target in fs.world.touched
    ensures inode.Some? ==>
              && Bound(old(fs.world), fs.world, target, inode.value) && inode.value in fs.world.contents
              && fs.world.contents[inode.value] == payload
    ensures fs.Quiet() ==> (inode.Some? <==> target !in old(fs.world).names)
    ensures fs.Quiet() && inode.Some? ==>
              fs.world.names == old(fs.world).names[target := inode.value] && Undisturbed(old(fs.world), fs.world)
  {
    hide Adds, NoNewNames, OnlyNew, Linked, Blameless, Removed, Bound, SameStaging, Failed;
    ghost var w0 := fs.world;
    fs.Wait();
    HoldsKeeps(w0, fs.world, temp, payload);
    var stagedInfo := fs.Lstat(temp);
    ghost var w1 := fs.world;
    FailureIsClean(w1, target in w1.names);
    var linked := fs.Link(temp, target);
    if linked {
      LinkBinds(w1, target, stagedInfo.value);
      ghost var w2 := fs.world;
      fs.Wait();
      ghost var w3 := fs.world;
      BoundKeeps(w1, w2, w3, target, stagedInfo.value);
      BoundSince(w0, w1, w3, target, stagedInfo.value);
      BoundIsOurs(w1, w3, target, stagedInfo.value);
      var current := fs.Lstat(target);
      if current.None? {
        ghost var before := fs.RemoveExportFileIfSame(target, stagedInfo.value);
        BoundTakenBack(w1, w3, before, fs.world, target, stagedInfo.value);
        CleanComposes(w0, w1, fs.world);
        TouchedStays(w3, before, fs.world, target);
        return None;
      }
      if current != stagedInfo {
        BoundTakenBack(w1, w3, w3, w3, target, stagedInfo.value) by { AddsItself(w3); NoNewItself(w3); }
        CleanComposes(w0, w1, w3);
        return None;
      }
      return stagedInfo;
    }
    ghost var w2 := fs.world;
    CleanComposes(w0, w1, w2);
    HoldsKeeps(w1, w2, temp, payload);
    inode := CopyStagedExportFile(fs, temp, target, payload);
    if inode.Some? {
      BoundSince(w0, w2, fs.world, target, inode.value);
    } else {
      CleanComposes(w0, w2, fs.world);
    }
  }

  /** What others touched stays noted, and so does a call that failed. */
  predicate TroubleStays(w: World, v: World) {
    w.touched <= v.touched && (w.faulted ==> v.faulted) && (w.met ==> v.met)
  }

  lemma TouchedStays(w: World, before: World, v: World, path: Path)
    requires Adds(w, before) && (v == before || v == Removed(before, path))
    ensures TroubleStays(w, v) && w.ours <= v.ours
  {
  }

  lemma BoundIsOurs(w: World, v: World, target: Path, inode: nat)
    requires Bound(w, v, target, inode)
    ensures inode in v.ours && inode in v.contents && (target in v.touched || Leads(v, Committed(target, inode)))
  {
  }

  lemma NoNewItself(w: World)
    ensures NoNewNames(w, w)
  {
  }

  /** The fallback without hard links. */
  method CopyStagedExportFile(fs: FileSystem, temp: Path, target: Path, ghost payload: Bytes)
    returns (inode: Option<nat>)
    requires fs.Valid() && Holds(fs.world, temp, payload) && target.User?
    modifies fs
    ensures fs.Valid() && (Blameless(old(fs.world)) ==> Blameless(fs.world))
    ensures inode.None? ==> Clean(old(fs.world), fs.world) && (fs.world.faulted || fs.world.met)
    ensures inode.Some? ==>
              && Bound(old(fs.world), fs.world, target, inode.value) && inode.value in fs.world.contents
              && fs.world.contents[inode.value] == payload
    ensures fs.Quiet() && target in old(fs.world).names ==> inode.None?
  {
    hide Adds, NoNewNames, OnlyNew, Created, Written, Blameless, Removed, Bound, SameStaging, Failed;
    ghost var w0 := fs.world;
    fs.Wait();
    ghost var w := fs.world;
    FailureIsClean(w, false);
    var ok := fs.Proceed();
    if !ok {
      CleanComposes(w0, w, fs.world);
      return None;
    }
    HoldsKeeps(w0, fs.world, temp, payload);
    var source := fs.Lstat(temp).value;
    var data := fs.world.contents[source];
    ghost var w1 := fs.world;
    FailureIsClean(w1, target in w1.names);
    inode := fs.CreateExclusive(target);
    if inode.None? {
      CleanComposes(w0, w1, fs.world);
      return None;
    }
    CreationBinds(w1, target);
    ghost var w2 := fs.world;
    fs.Wait();
    ghost var w3 := fs.world;
    BoundKeeps(w1, w2, w3, target, inode.value);
    BoundIsOurs(w1, w3, target, inode.value);
    ok := fs.Write(inode.value, data);
    BoundWrites(w1, w3, target, inode.value, data, ok);
    ghost var w4 := fs.world;
    fs.Wait();
    BoundKeeps(w1, w4, fs.world, target, inode.value);
    if ok {
      ghost var w6 := fs.world;
      FailureIsClean(w6, false);
      ok := fs.Proceed();
      if !ok {
        BoundKeeps(w1, w6, fs.world, target, inode.value);
      }
    } else {
      FaultStays(w4, fs.world);
    }
    ghost var w5 := fs.world;
    if !ok {
      BoundIsOurs(w1, w5, target, inode.value);
      ghost var before := fs.RemoveExportFileIfSame(target, inode.value);
      BoundTakenBack(w1, w5, before, fs.world, target, inode.value);
      CleanComposes(w0, w1, fs.world);
      TouchedStays(w5, before, fs.world, target);
      return None;
    }
    BoundSince(w0, w1, w5, target, inode.value);
    BoundIsOurs(w1, w5, target, inode.value);
  }

  lemma FaultStays(w: World, v: World)
    requires Adds(w, v)
    ensures TroubleStays(w, v)
  {
  }

  method RollbackCommittedExportFiles(fs: FileSystem, committed: seq<Committed>, ghost staged: seq<Path>)
    requires fs.Valid() && OnlyAt(fs.world, staged, committed) && Blameless(fs.world)
    requires forall t :: t in staged ==> IsStaged(fs.world, t)
    requires forall c :: c in committed ==> c.path.User? && c.inode in fs.world.ours
    modifies fs
    ensures fs.Valid() && OnlyAt(fs.world, staged, []) && Blameless(fs.world)
    ensures forall t :: t in staged ==> IsStaged(fs.world, t)
    ensures TroubleStays(old(fs.world), fs.world)
  {
    hide OnlyAt, Blameless, IsStaged, Adds, NoNewNames, Removed, RemovedIfSame, SameStaging;
    var k := 0;
    while k < |committed|
      invariant 0 <= k <= |committed| && fs.Valid() && OnlyAt(fs.world, staged, committed[k..]) && Blameless(fs.world)
      invariant forall t :: t in staged ==> IsStaged(fs.world, t)
      invariant forall c :: c in committed ==> c.path.User? && c.inode in fs.world.ours
      invariant TroubleStays(old(fs.world), fs.world)
    {
      ghost var w := fs.world;
      var file := committed[k];
      assert committed[k..] == [file] + committed[k + 1..];
      ghost var before := fs.RemoveExportFileIfSame(file.path, file.inode);
      RolledBackOne(w, before, fs.world, staged, file, committed[k + 1..]);
      TouchedStays(w, before, fs.world, file.path);
      k := k + 1;
    }
    assert committed[k..] == [];
  }

  lemma RolledBackOne(w: World, before: World, v: World, staged: seq<Path>, file: Committed, rest: seq<Committed>)
    requires OnlyAt(w, staged, [file] + rest) && NoNewNames(w, v) && Adds(w, before)
    requires (v == before || v == Removed(before, file.path))
    requires (file.path !in v.names || v.names[file.path] != file.inode) && file.path.User?
    requires forall t :: t in staged ==> IsStaged(w, t)
    ensures OnlyAt(v, staged, rest) && forall t :: t in staged ==> IsStaged(v, t)
  {
  }

  /** The file is there as it was, also under its name unless others touched that. */
  ghost predicate FileStays(w: World, v: World, c: Committed) {
    && w.touched <= v.touched && c.inode in v.ours
    && c.inode in w.contents && c.inode in v.contents && v.contents[c.inode] == w.contents[c.inode]
    && (Leads(w, c) && c.path !in v.touched ==> Leads(v, c))
  }

  lemma StagedRemoved(w: World, v: World, t: Path, rest: seq<Path>, committed: seq<Committed>)
    requires OnlyAt(w, [t] + rest, committed) && Adds(w, v) && NoNewNames(w, v) && SameStaging(w, v)
    requires t.Staging? && (t in w.names ==> w.names[t] in w.ours) && v.ours == w.ours
    requires forall c :: c in committed ==> c.path.User? && c.inode in w.ours && c.inode in w.contents
    ensures
      var x := Removed(v, t);
      && OnlyAt(x, rest, committed) && Blameless(x) == Blameless(v) && TroubleStays(w, x) && SameUsers(v, x)
      && Undisturbed(v, x) && SameStagingBut(w, x, t) && x.ours == w.ours
      && forall c :: c in committed ==> FileStays(w, x, c)
  {
  }

  /** No staging name but this one has come or changed. */
  ghost predicate SameStagingBut(w: World, v: World, but: Path) {
    forall n: Path :: n.Staging? && n in v.names && n != but ==> n in w.names && v.names[n] == w.names[n]
  }

  lemma FilesStayOn(u: World, w: World, v: World, committed: seq<Committed>)
    requires forall c :: c in committed ==> FileStays(u, w, c)
    requires forall c :: c in committed ==> FileStays(w, v, c)
    ensures forall c :: c in committed ==> FileStays(u, v, c)
  {
  }

  lemma StagedStaysOurs(w: World, v: World, staged: seq<Path>, t: Path)
    requires SameStagingBut(w, v, t) && t !in v.names && v.ours == w.ours
    requires forall t :: t in staged ==> t.Staging? && (t in w.names ==> w.names[t] in w.ours)
    ensures forall t :: t in staged ==> t.Staging? && (t in v.names ==> v.names[t] in v.ours)
  {
  }

  /** The deferred removal of staging files. */
  method RemoveStaged(fs: FileSystem, staged: seq<Path>, ghost committed: seq<Committed>)
    requires fs.Valid() && OnlyAt(fs.world, staged, committed) && Blameless(fs.world)
    requires forall t :: t in staged ==> t.Staging? && (t in fs.world.names ==> fs.world.names[t] in fs.world.ours)
    requires forall c :: c in committed ==> c.path.User? && c.inode in fs.world.ours && c.inode in fs.world.contents
    modifies fs
    ensures fs.Valid() && OnlyAt(fs.world, [], committed) && Blameless(fs.world)
    ensures forall c :: c in committed ==> FileStays(old(fs.world), fs.world, c)
    ensures TroubleStays(old(fs.world), fs.world)
    ensures fs.Quiet() ==> Undisturbed(old(fs.world), fs.world)
  {
    hide OnlyAt, Adds, NoNewNames, SameStaging, Blameless, SameStagingBut;
    ghost var w0 := fs.world;
    var k := 0;
    while k < |staged|
      invariant 0 <= k <= |staged| && fs.Valid() && OnlyAt(fs.world, staged[k..], committed) && Blameless(fs.world)
      invariant forall t :: t in staged ==> t.Staging? && (t in fs.world.names ==> fs.world.names[t] in fs.world.ours)
      invariant forall c :: c in committed ==> FileStays(w0, fs.world, c)
      invariant fs.world.ours == w0.ours && TroubleStays(w0, fs.world)
      invariant fs.Quiet() ==> Undisturbed(w0, fs.world)
    {
      ghost var w := fs.world;
      assert staged[k..] == [staged[k]] + staged[k + 1..];
      fs.Wait();
      StagedRemoved(w, fs.world, staged[k], staged[k + 1..], committed);
      fs.Remove(staged[k]);
      FilesStayOn(w0, w, fs.world, committed);
      StagedStaysOurs(w, fs.world, staged, staged[k]);
      k := k + 1;
    }
    assert staged[k..] == [];
  }

  // ------------------------------------------------------------- the batch

  ghost predicate AllStaged(w: World, staged: seq<Path>) {
    forall t :: t in staged ==> IsStaged(w, t)
  }

  /** The first staging files hold the first payloads. */
  ghost predicate Prepared(w: World, staged: seq<Path>, payloads: seq<Result<Bytes>>) {
    && |staged| <= |payloads|
    && forall i :: 0 <= i < |staged| ==> payloads[i].Ok? && Holds(w, staged[i], payloads[i].value)
  }

  /** The first targets are published: each led to its payload when it was, and does
      so still unless others touched that name. */
  ghost predicate Published(w: World, committed: seq<Committed>, targets: seq<Path>, payloads: seq<Result<Bytes>>) {
    && |committed| <= |targets| == |payloads|
    && forall i :: 0 <= i < |committed| ==>
                     var c := committed[i];
                     && c.path == targets[i] && c.path.User? && c.inode in w.ours && c.inode in w.contents
                     && payloads[i].Ok? && w.contents[c.inode] == payloads[i].value
                     && (c.path in w.touched || Leads(w, c))
  }

  lemma CleanKeepsBatch(w: World, v: World, staged: seq<Path>, committed: seq<Committed>, targets: seq<Path>,
                        payloads: seq<Result<Bytes>>)
    requires Clean(w, v)
    ensures AllStaged(w, staged) ==> AllStaged(v, staged)
    ensures Prepared(w, staged, payloads) ==> Prepared(v, staged, payloads)
    ensures OnlyAt(w, staged, committed) ==> OnlyAt(v, staged, committed)
    ensures Published(w, committed, targets, payloads) ==> Published(v, committed, targets, payloads)
  {
  }

  lemma TempJoins(w: World, v: World, staged: seq<Path>, temp: Path, payloads: seq<Result<Bytes>>)
    requires IsStaged(v, temp) && Bound(w, v, temp, v.names[temp])
    requires AllStaged(w, staged) && OnlyAt(w, staged, []) && Prepared(w, staged, payloads)
    ensures AllStaged(v, staged) && AllStaged(v, staged + [temp])
    ensures OnlyAt(v, staged + [temp], []) && Prepared(v, staged, payloads)
  {
  }

  lemma TempFilled(v: World, x: World, staged: seq<Path>, temp: Path, payload: Bytes, ok: bool,
                   payloads: seq<Result<Bytes>>)
    requires IsStaged(v, temp) && x == Written(v, v.names[temp], payload, ok) && Sane(v)
    requires AllStaged(v, staged + [temp]) && OnlyAt(v, staged + [temp], []) && Prepared(v, staged, payloads)
    requires forall t :: t in staged ==> v.names[t] != v.names[temp]
    ensures Sane(x) && AllStaged(x, staged + [temp]) && OnlyAt(x, staged + [temp], []) && Prepared(x, staged, payloads)
    ensures (ok ==> Holds(x, temp, payload) && Undisturbed(v, x)) && (!ok ==> x.faulted)
    ensures Blameless(x) == Blameless(v) && x.names == v.names && x.clock == v.clock
  {
    forall i | 0 <= i < |staged| ensures Holds(x, staged[i], payloads[i].value) {
      assert staged[i] in staged;
    }
  }

  lemma TargetJoins(w: World, v: World, staged: seq<Path>, committed: seq<Committed>, inode: nat, targets: seq<Path>,
                    payloads: seq<Result<Bytes>>)
    requires |committed| < |targets| == |payloads| && targets[|committed|].User? && payloads[|committed|].Ok?
    requires Bound(w, v, targets[|committed|], inode) && v.contents[inode] == payloads[|committed|].value
    requires AllStaged(w, staged) && Prepared(w, staged, payloads) && OnlyAt(w, staged, committed)
    requires Published(w, committed, targets, payloads)
    ensures
      var c := committed + [Committed(targets[|committed|], inode)];
      AllStaged(v, staged) && Prepared(v, staged, payloads) && OnlyAt(v, staged, c)
        && Published(v, c, targets, payloads)
  {
  }

  /** Writes a payload to its staging file. */
  method FillTempFile(fs: FileSystem, ghost staged: seq<Path>, temp: Path, payload: Bytes,
                      ghost payloads: seq<Result<Bytes>>)
    returns (ok: bool)
    requires |staged| < |payloads| && payloads[|staged|] == Ok(payload) && fs.Valid() && Blameless(fs.world)
    requires AllStaged(fs.world, staged) && AllStaged(fs.world, staged + [temp])
    requires OnlyAt(fs.world, staged + [temp], []) && Prepared(fs.world, staged, payloads) && IsStaged(fs.world, temp)
    requires forall t :: t in staged ==> t in fs.world.names && fs.world.names[t] != fs.world.names[temp]
    modifies fs
    ensures fs.Valid() && Blameless(fs.world)
    ensures AllStaged(fs.world, staged + [temp]) && OnlyAt(fs.world, staged + [temp], [])
    ensures if ok then Prepared(fs.world, staged + [temp], payloads) else fs.world.faulted
    ensures fs.Quiet() ==>
              && ok && Undisturbed(old(fs.world), fs.world) && fs.world.names == old(fs.world).names
              && fs.world.clock >= old(fs.world).clock
  {
    hide Clean, Bound, Written, Blameless, OnlyAt, Holds, Adds, NoNewNames, SameStaging, AllStaged, Prepared, Failed;
    ghost var more := staged + [temp];
    ghost var w1 := fs.world;
    fs.Wait();
    ghost var w2 := fs.world;
    CleanIs(w1, w2);
    CleanKeepsBatch(w1, w2, more, [], [], payloads);
    CleanKeepsBatch(w1, w2, staged, [], [], payloads);
    TempStaysNew(w1, w2, staged, temp);
    ok := fs.Write(fs.Lstat(temp).value, payload);
    ghost var w3 := fs.world;
    TempFilled(w2, w3, staged, temp, payload, ok, payloads);
    fs.Wait();
    ghost var w4 := fs.world;
    CleanIs(w3, w4);
    FaultStays(w3, w4);
    CleanKeepsBatch(w3, w4, more, [], [], payloads);
    CleanKeepsBatch(w3, w4, staged, [], [], payloads);
    if !ok {
      return;
    }
    HoldsKeeps(w3, w4, temp, payload);
    FailureIsClean(w4, false);
    CleanKeepsBatch(w4, Failed(w4, false), more, [], [], payloads);
    ok := fs.Proceed();
    if ok {
      PreparedGrows(fs.world, staged, temp, payloads);
    }
  }

  /** Stages one more payload; if it fails, the payload cannot be read, or a call failed
      or met a taken name. */
  method StageExportFile(fs: FileSystem, staged: seq<Path>, payloads: seq<Result<Bytes>>)
    returns (more: seq<Path>, ok: bool)
    requires |staged| < |payloads| && fs.Valid() && Blameless(fs.world)
    requires AllStaged(fs.world, staged) && OnlyAt(fs.world, staged, []) && Prepared(fs.world, staged, payloads)
    modifies fs
    ensures fs.Valid() && Blameless(fs.world) && AllStaged(fs.world, more) && OnlyAt(fs.world, more, [])
    ensures ok ==> |more| == |staged| + 1 && Prepared(fs.world, more, payloads)
    ensures !ok ==> payloads[|staged|].Err? || fs.world.faulted || fs.world.met
    ensures fs.Quiet() && old(fs.Fresh()) ==>
              && (payloads[|staged|].Ok? ==> ok) && fs.Fresh() && Undisturbed(old(fs.world), fs.world)
              && SameUsers(old(fs.world), fs.world)
  {
    hide Clean, Bound, Written, Blameless, OnlyAt, Holds, Adds, NoNewNames, SameStaging, AllStaged, Prepared, Failed;
    ghost var w0 := fs.world;
    var payload := payloads[|staged|];
    if payload.Err? {
      return staged, false;
    }
    var temp := CreateExportTempFile(fs);
    if temp.None? {
      CleanKeepsBatch(w0, fs.world, staged, [], [], payloads);
      return staged, false;
    }
    ghost var w1 := fs.world;
    HoldsIsStaged(w1, temp.value, []);
    TempJoins(w0, w1, staged, temp.value, payloads);
    TempIsNew(w0, w1, staged, temp.value);
    more := staged + [temp.value];
    ok := FillTempFile(fs, staged, temp.value, payload.value, payloads);
  }

  lemma PreparedGrows(w: World, staged: seq<Path>, temp: Path, payloads: seq<Result<Bytes>>)
    requires |staged| < |payloads| && Prepared(w, staged, payloads) && payloads[|staged|].Ok?
    requires Holds(w, temp, payloads[|staged|].value)
    ensures Prepared(w, staged + [temp], payloads)
  {
  }

  predicate Readable(payloads: seq<Result<Bytes>>) {
    forall k :: 0 <= k < |payloads| ==> payloads[k].Ok?
  }

  /** Writes every payload to a staging file of its own. Also on failure all staging
      files made are returned. */
  method StageExportFiles(fs: FileSystem, payloads: seq<Result<Bytes>>) returns (staged: seq<Path>, ok: bool)
    requires fs.Valid() && fs.world.ours == {} && Blameless(fs.world)
    modifies fs
    ensures fs.Valid() && Blameless(fs.world) && AllStaged(fs.world, staged) && OnlyAt(fs.world, staged, [])
    ensures ok ==> |staged| == |payloads| && Prepared(fs.world, staged, payloads)
    ensures !ok ==> !Readable(payloads) || fs.world.faulted || fs.world.met
    ensures fs.Quiet() && old(fs.Fresh()) ==>
              (Readable(payloads) ==> ok) && Undisturbed(old(fs.world), fs.world) && SameUsers(old(fs.world), fs.world)
  {
    staged := [];
    StartsClean(fs.world, payloads);
    while |staged| < |payloads|
      invariant |staged| <= |payloads| && fs.Valid() && Blameless(fs.world)
      invariant AllStaged(fs.world, staged) && OnlyAt(fs.world, staged, []) && Prepared(fs.world, staged, payloads)
      invariant fs.Quiet() && old(fs.Fresh()) ==>
                  fs.Fresh() && Undisturbed(old(fs.world), fs.world) && SameUsers(old(fs.world), fs.world)
      decreases |payloads| - |staged|
    {
      hide AllStaged, OnlyAt, Prepared, Blameless, FileSystem.Quiet, FileSystem.Fresh;
      staged, ok := StageExportFile(fs, staged, payloads);
      if !ok {
        return;
      }
    }
    ok := true;
  }

  function Unary(n: nat): string {
    seq(n, _ => '0')
  }

  /** There are quiet worlds: nobody acting is well-behaved, and suffixes can differ. */
  lemma QuietIsPossible(w: World)
    requires Sane(w)
    ensures WellBehaved((v: World) => v) && forall s: nat, t: nat :: s != t ==> Unary(s) != Unary(t)
  {
    forall s: nat, t: nat | s != t ensures Unary(s) != Unary(t) {
      assert |Unary(s)| == s && |Unary(t)| == t;
    }
  }

  /** The first n targets are not there, and all different. */
  predicate Publishable(w: World, targets: seq<Path>, n: nat)
    requires n <= |targets|
  {
    forall i :: 0 <= i < n ==> targets[i] !in w.names && targets[i] !in targets[..i]
  }

  /** The user names are those there were and the first n targets. */
  ghost predicate UsersAnd(w: World, v: World, targets: seq<Path>, n: nat)
    requires n <= |targets|
  {
    forall p: Path :: p.User? ==> (p in v.names <==> p in w.names || p in targets[..n])
  }

  /** Where publishing stands after some targets. */
  ghost predicate Publishing(w: World, staged: seq<Path>, committed: seq<Committed>, targets: seq<Path>,
                             payloads: seq<Result<Bytes>>)
  {
    && AllStaged(w, staged) && Prepared(w, staged, payloads)
    && OnlyAt(w, staged, committed) && Published(w, committed, targets, payloads)
  }

  /** The first n targets, and only those, have been added, without trouble. */
  ghost predicate Quietly(w: World, v: World, targets: seq<Path>, n: nat)
    requires n <= |targets|
  {
    Publishable(w, targets, n) && UsersAnd(w, v, targets, n) && Undisturbed(w, v)
  }

  lemma NoneYet(w: World, staged: seq<Path>, targets: seq<Path>, payloads: seq<Result<Bytes>>)
    requires |staged| == |targets| == |payloads|
    requires AllStaged(w, staged) && OnlyAt(w, staged, []) && Prepared(w, staged, payloads)
    ensures Publishing(w, staged, [], targets, payloads) && Quietly(w, w, targets, 0)
  {
  }

  /** One more target can be published exactly if its name is free by now. */
  lemma NextTarget(w: World, v: World, targets: seq<Path>, n: nat)
    requires n < |targets| && targets[n].User? && Quietly(w, v, targets, n)
    ensures targets[n] !in v.names <==> Publishable(w, targets, n + 1)
  {
  }

  lemma OneMoreTarget(w: World, v: World, x: World, targets: seq<Path>, n: nat, inode: nat)
    requires n < |targets| && Quietly(w, v, targets, n) && Publishable(w, targets, n + 1)
    requires x.names == v.names[targets[n] := inode] && Undisturbed(v, x)
    ensures Quietly(w, x, targets, n + 1)
  {
    assert targets[..n + 1] == targets[..n] + [targets[n]];
  }

  lemma NotAllPublishable(w: World, targets: seq<Path>, n: nat)
    requires n <= |targets| && !Publishable(w, targets, n)
    ensures !Publishable(w, targets, |targets|)
  {
  }

  /** Publishes one more target, or says why not. */
  method CommitNext(fs: FileSystem, staged: seq<Path>, targets: seq<Path>, ghost payloads: seq<Result<Bytes>>,
                    committed: seq<Committed>, ghost w0: World)
    returns (info: Option<nat>)
    requires fs.Valid() && Blameless(fs.world) && |committed| < |staged| == |targets| == |payloads|
    requires targets[|committed|].User? && Publishing(fs.world, staged, committed, targets, payloads)
    modifies fs
    ensures fs.Valid() && Blameless(fs.world)
    ensures info.Some? ==>
              Publishing(fs.world, staged, committed + [Committed(targets[|committed|], info.value)], targets, payloads)
    ensures info.None? ==> Publishing(fs.world, staged, committed, targets, payloads)
    ensures info.None? ==> fs.world.faulted || fs.world.met || targets[|committed|] in fs.world.touched
    ensures fs.Quiet() && Quietly(w0, old(fs.world), targets, |committed|) ==>
              && (info.Some? <==> Publishable(w0, targets, |committed| + 1))
              && (info.Some? ==> Quietly(w0, fs.world, targets, |committed| + 1))
  {
    ghost var w := fs.world;
    var target := targets[|committed|];
    if fs.Quiet() && Quietly(w0, w, targets, |committed|) {
      NextTarget(w0, w, targets, |committed|);
    }
    hide Clean, Bound, OnlyAt, Holds, AllStaged, Blameless, FileSystem.Quiet, FileSystem.Valid, Published, Quietly;
    hide Publishable, Undisturbed;
    assert Holds(w, staged[|committed|], payloads[|committed|].value);
    info := CommitStagedExportFile(fs, staged[|committed|], target, payloads[|committed|].value);
    if info.None? {
      CleanKeepsBatch(w, fs.world, staged, committed, targets, payloads);
    } else {
      TargetJoins(w, fs.world, staged, committed, info.value, targets, payloads);
      if fs.Quiet() && Quietly(w0, w, targets, |committed|) {
        OneMoreTarget(w0, w, fs.world, targets, |committed|, info.value);
      }
    }
  }

  /** Publishes the staged files in order; rolls back what was published when one
      cannot be. */
  method CommitExportFiles(fs: FileSystem, staged: seq<Path>, targets: seq<Path>, ghost payloads: seq<Result<Bytes>>)
    returns (committed: seq<Committed>, ok: bool)
    requires fs.Valid() && Blameless(fs.world) && |staged| == |targets| == |payloads|
    requires forall t :: t in targets ==> t.User?
    requires AllStaged(fs.world, staged) && OnlyAt(fs.world, staged, []) && Prepared(fs.world, staged, payloads)
    modifies fs
    ensures fs.Valid() && Blameless(fs.world) && AllStaged(fs.world, staged)
    ensures !ok ==> OnlyAt(fs.world, staged, [])
    ensures ok ==>
              && |committed| == |targets| && OnlyAt(fs.world, staged, committed)
              && Published(fs.world, committed, targets, payloads)
    ensures !ok ==> fs.world.faulted || fs.world.met || exists t :: t in targets && t in fs.world.touched
    ensures fs.Quiet() ==> (ok <==> Publishable(old(fs.world), targets, |targets|))
    ensures fs.Quiet() && ok ==> Undisturbed(old(fs.world), fs.world)
  {
    hide OnlyAt, AllStaged, Blameless, FileSystem.Quiet, FileSystem.Valid, Prepared, Published, Publishable, UsersAnd;
    hide Undisturbed, IsStaged;
    ghost var w0 := fs.world;
    committed := [];
    NoneYet(w0, staged, targets, payloads);
    while |committed| < |staged|
      invariant |committed| <= |staged| && fs.Valid() && Blameless(fs.world)
      invariant Publishing(fs.world, staged, committed, targets, payloads)
      invariant fs.Quiet() ==> Quietly(w0, fs.world, targets, |committed|)
      decreases |staged| - |committed|
    {
      var target := targets[|committed|];
      var info := CommitNext(fs, staged, targets, payloads, committed, w0);
      if info.None? {
        if fs.Quiet() {
          NotAllPublishable(w0, targets, |committed| + 1);
        }
        AllStagedIs(fs.world, staged);
        PublishedIsOurs(fs.world, committed, targets, payloads);
        assert target in targets;
        RollbackCommittedExportFiles(fs, committed, staged);
        AllStagedIs(fs.world, staged);
        return committed, false;
      }
      committed := committed + [Committed(target, info.value)];
    }
    ok := true;
  }

  lemma AllStagedIs(w: World, staged: seq<Path>)
    ensures AllStaged(w, staged) <==> forall t :: t in staged ==> IsStaged(w, t)
  {
  }

  lemma SameUsersPublishable(w: World, v: World, targets: seq<Path>)
    requires SameUsers(w, v) && forall t :: t in targets ==> t.User?
    ensures Publishable(w, targets, |targets|) <==> Publishable(v, targets, |targets|)
  {
  }

  /** Both stages, after the inspection. */
  method StageAndCommit(fs: FileSystem, targets: seq<Path>, payloads: seq<Result<Bytes>>)
    returns (staged: seq<Path>, committed: seq<Committed>, ok: bool)
    requires fs.Valid() && fs.world.ours == {} && Blameless(fs.world) && |targets| == |payloads|
    requires forall t :: t in targets ==> t.User?
    modifies fs
    ensures fs.Valid() && Blameless(fs.world) && AllStaged(fs.world, staged)
    ensures !ok ==> OnlyAt(fs.world, staged, [])
    ensures ok ==>
              && |committed| == |targets| && OnlyAt(fs.world, staged, committed) && Readable(payloads)
              && Published(fs.world, committed, targets, payloads)
    ensures !ok ==>
              || !Readable(payloads) || fs.world.faulted || fs.world.met
              || exists t :: t in targets && t in fs.world.touched
    ensures fs.Quiet() && old(fs.Fresh()) ==>
              (ok <==> Readable(payloads) && Publishable(old(fs.world), targets, |targets|))
    ensures fs.Quiet() && old(fs.Fresh()) && ok ==> Undisturbed(old(fs.world), fs.world)
  {
    hide Prepared, Holds, Published, AllStaged, IsStaged, OnlyAt, Blameless, FileSystem.Quiet, FileSystem.Valid;
    hide Readable, Publishable, SameUsers;
    ghost var w0 := fs.world;
    committed := [];
    staged, ok := StageExportFiles(fs, payloads);
    ghost var w := fs.world;
    if ok {
      PreparedIsReadable(w, staged, payloads);
      if fs.Quiet() && old(fs.Fresh()) {
        SameUsersPublishable(w0, w, targets);
      }
      committed, ok := CommitExportFiles(fs, staged, targets, payloads);
    }
  }

  /** The world after k looks, with others acting before each. */
  function Observed(w: World, others: World -> World, k: nat): World {
    if k == 0 then w else others(Ticked(Observed(w, others, k - 1)))
  }

  /** Target k is there when it is looked at. */
  predicate FoundAt(w: World, others: World -> World, targets: seq<Path>, k: nat)
    requires k < |targets|
  {
    targets[k] in Observed(w, others, k + 1).names
  }

  lemma FoundIff(w: World, others: World -> World, targets: seq<Path>, k: nat)
    requires k < |targets|
    ensures Observed(w, others, k + 1) == others(Ticked(Observed(w, others, k)))
    ensures FoundAt(w, others, targets, k) <==> targets[k] in Observed(w, others, k + 1).names
  {
  }

  /** The inspection of the targets: nothing is made, and an existing one, and only that,
      refuses. */
  method TargetsAreFree(fs: FileSystem, targets: seq<Path>) returns (free: bool)
    requires fs.Valid() && fs.world.ours == {} && Blameless(fs.world)
    modifies fs
    ensures fs.Valid() && fs.world.ours == {} && Blameless(fs.world)
    ensures free <==> forall k :: 0 <= k < |targets| ==> !FoundAt(old(fs.world), fs.others, targets, k)
    ensures free ==> fs.world == Observed(old(fs.world), fs.others, |targets|)
    ensures !free ==> exists k :: 0 <= k < |targets| && FoundAt(old(fs.world), fs.others, targets, k)
                               && fs.world == Observed(old(fs.world), fs.others, k + 1)
  {
    ghost var w0 := fs.world;
    assert Observed(w0, fs.others, 0) == w0;
    hide Adds, NoNewNames, SameStaging, Blameless, Observed, FoundAt, Interferes;
    var k := 0;
    while k < |targets|
      invariant 0 <= k <= |targets| && fs.Valid() && fs.world.ours == {} && Blameless(fs.world)
      invariant fs.world == Observed(w0, fs.others, k)
      invariant forall j :: 0 <= j < k ==> !FoundAt(w0, fs.others, targets, j)
    {
      fs.Wait();
      FoundIff(w0, fs.others, targets, k);
      if fs.Lstat(targets[k]).Some? {
        return false;
      }
      k := k + 1;
    }
    free := true;
  }

  lemma {:induction false} QuietLooks(w: World, others: World -> World, k: nat)
    requires forall w :: others(w) == w
    ensures Observed(w, others, k) == w.(clock := w.clock + k)
  {
    if k > 0 {
      QuietLooks(w, others, k - 1);
    }
  }

  /** In a quiet world the looks find what was there, and change nothing. */
  lemma QuietInspection(fs: FileSystem, w: World, targets: seq<Path>)
    requires fs.Quiet()
    ensures Publishable(w, targets, |targets|) ==> forall k :: 0 <= k < |targets| ==> !FoundAt(w, fs.others, targets, k)
    ensures
      var v := Observed(w, fs.others, |targets|);
      && Undisturbed(w, v) && v.names == w.names && v.clock >= w.clock
      && (Publishable(w, targets, |targets|) <==> Publishable(v, targets, |targets|))
  {
    forall k: nat {
      QuietLooks(w, fs.others, k);
    }
    assert forall k :: 0 <= k < |targets| ==> (FoundAt(w, fs.others, targets, k) <==> targets[k] in w.names);
  }

  /** As many targets as payloads, and at least one; all different and not there; and
      every payload can be read. */
  predicate Exportable(w: World, targets: seq<Path>, payloads: seq<Result<Bytes>>) {
    |targets| == |payloads| > 0 && Publishable(w, targets, |targets|) && Readable(payloads)
  }

  /** Exports all files or none. On failure at any stage no name leads to a file made
      here: neither a target nor a staging file is left. On success every target
      leads to its payload, except those at which others removed or replaced the file
      made here, and no staging file is left. In both cases a file of others was removed
      or overwritten if and only if they put one in the place of a file made here
      between the check and the removal that follows it.

      It fails only for a reason: the numbers do not fit, a target was found at the
      inspection (which leaves the world as it was found), a payload cannot be read, a
      call failed of its own or met a taken name, or others touched a target. Left alone,
      it succeeds exactly where the targets and the payloads allow it. */
  method SaveExclusiveExportPayloads(fs: FileSystem, targets: seq<Path>, payloads: seq<Result<Bytes>>)
    returns (ok: bool)
    requires fs.Valid() && fs.world.ours == {} && !fs.world.harmed && !fs.world.raced
    requires forall t :: t in targets ==> t.User?
    modifies fs
    ensures fs.Valid() && (fs.world.harmed <==> fs.world.raced)
    ensures !ok ==> forall n :: n in fs.world.names ==> fs.world.names[n] !in fs.world.ours
    ensures ok ==> |targets| == |payloads| > 0 && Readable(payloads)
    ensures ok ==> forall k :: 0 <= k < |targets| ==> !FoundAt(old(fs.world), fs.others, targets, k)
    ensures ok ==> forall n :: n in fs.world.names && fs.world.names[n] in fs.world.ours ==> n in targets
    ensures ok ==> forall i :: 0 <= i < |targets| && targets[i] !in fs.world.touched ==>
                            && targets[i] in fs.world.names && fs.world.names[targets[i]] in fs.world.ours
                            && payloads[i].Ok? && fs.world.contents[fs.world.names[targets[i]]] == payloads[i].value
    ensures !ok ==>
              || |targets| != |payloads| || targets == [] || !Readable(payloads)
              || (exists k :: 0 <= k < |targets| && FoundAt(old(fs.world), fs.others, targets, k)
                              && fs.world == Observed(old(fs.world), fs.others, k + 1))
              || fs.world.faulted || fs.world.met || (exists t :: t in targets && t in fs.world.touched)
    ensures fs.Quiet() && old(fs.Fresh()) ==> (ok <==> Exportable(old(fs.world), targets, payloads))
    ensures fs.Quiet() && old(fs.Fresh()) && ok ==> Undisturbed(old(fs.world), fs.world)
  {
    if |targets| == 0 || |targets| != |payloads| {
      return false;
    }
    ghost var w0 := fs.world;
    if fs.Quiet() {
      QuietInspection(fs, w0, targets);
    }
    hide FileSystem.Quiet, FileSystem.Valid, Observed, FoundAt, Publishable, Readable;
    var free := TargetsAreFree(fs, targets);
    if !free {
      return false;
    }
    ghost var w1 := fs.world;
    hide Published, AllStaged, IsStaged, OnlyAt, FileStays;
    var staged, committed;
    staged, committed, ok := StageAndCommit(fs, targets, payloads);
    ghost var w := fs.world;
    AllStagedIs(w, staged);
    StagedIsOurs(w, staged);
    if !ok {
      RemoveStaged(fs, staged, []);
      NothingLeft(fs.world);
      return;
    }
    PublishedIsOurs(w, committed, targets, payloads);
    RemoveStaged(fs, staged, committed);
    AllPublished(w, fs.world, committed, targets, payloads);
  }

  lemma PreparedIsReadable(w: World, staged: seq<Path>, payloads: seq<Result<Bytes>>)
    requires Prepared(w, staged, payloads) && |staged| == |payloads|
    ensures Readable(payloads)
  {
  }

  lemma NothingLeft(w: World)
    requires OnlyAt(w, [], [])
    ensures forall n :: n in w.names ==> w.names[n] !in w.ours
  {
  }

  lemma StagedIsOurs(w: World, staged: seq<Path>)
    requires AllStaged(w, staged)
    ensures forall t :: t in staged ==> t.Staging? && t in w.names && w.names[t] in w.ours
  {
  }

  lemma PublishedIsOurs(w: World, committed: seq<Committed>, targets: seq<Path>, payloads: seq<Result<Bytes>>)
    requires Published(w, committed, targets, payloads)
    ensures forall c :: c in committed ==> c.path.User? && c.inode in w.ours && c.inode in w.contents
  {
  }

  /** What publishing gave is there after the staging files are gone. */
  lemma AllPublished(w: World, v: World, committed: seq<Committed>, targets: seq<Path>, payloads: seq<Result<Bytes>>)
    requires Published(w, committed, targets, payloads) && |committed| == |targets| && OnlyAt(v, [], committed)
    requires forall c :: c in committed ==> FileStays(w, v, c)
    ensures forall n :: n in v.names && v.names[n] in v.ours ==> n in targets
    ensures forall i :: 0 <= i < |targets| && targets[i] !in v.touched ==>
                            && targets[i] in v.names && v.names[targets[i]] in v.ours
                            && v.names[targets[i]] in v.contents
                            && payloads[i].Ok? && v.contents[v.names[targets[i]]] == payloads[i].value
  {
    forall n | n in v.names && v.names[n] in v.ours ensures n in targets {
      var i :| 0 <= i < |committed| && committed[i] == Committed(n, v.names[n]);
      assert n == targets[i];
    }
    forall i | 0 <= i < |targets| && targets[i] !in v.touched
      ensures targets[i] in v.names && v.names[targets[i]] == committed[i].inode && committed[i].inode in v.ours
      ensures payloads[i].Ok? && v.contents[committed[i].inode] == payloads[i].value
    {
      assert committed[i] in committed;
    }
  }

  lemma StartsClean(w: World, payloads: seq<Result<Bytes>>)
    requires w.ours == {}
    ensures OnlyAt(w, [], []) && Prepared(w, [], payloads) && AllStaged(w, [])
  {
  }

  lemma CleanIs(w: World, v: World)
    requires Adds(w, v) && NoNewNames(w, v)
    ensures Clean(w, v)
  {
  }

  lemma HoldsIsStaged(w: World, temp: Path, payload: Bytes)
    requires Holds(w, temp, payload)
    ensures IsStaged(w, temp)
  {
  }

  lemma TempIsNew(w: World, v: World, staged: seq<Path>, temp: Path)
    requires AllStaged(w, staged) && IsStaged(v, temp) && Bound(w, v, temp, v.names[temp]) && v.names[temp] !in w.ours
    ensures forall t :: t in staged ==> t in v.names && v.names[t] != v.names[temp]
  {
  }

  lemma TempStaysNew(w: World, v: World, staged: seq<Path>, temp: Path)
    requires Clean(w, v) && AllStaged(w, staged) && IsStaged(w, temp)
    requires forall t :: t in staged ==> t in w.names && w.names[t] != w.names[temp]
    ensures IsStaged(v, temp) && forall t :: t in staged ==> t in v.names && v.names[t] != v.names[temp]
  {
  }
}
