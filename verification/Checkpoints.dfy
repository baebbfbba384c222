/** The rewind list (CheckpointsForTab and insertCheckpointFilePreview in
    desktop/app.go): one backward walk gives every turn the files a rewind to it
    would touch, with a bounded sorted preview that is shifted in place. */
module Checkpoints {
  import opened Sets

  /** checkpointFilePreviewLimit. */
  const PREVIEW_LIMIT := 60

  // ---------------------------------------------------------- string order

  /** Byte-wise order of Go strings; a character stands for a byte. */
  predicate Less(a: string, b: string) {
    b != "" && (a == "" || a[0] < b[0] || (a[0] == b[0] && Less(a[1..], b[1..])))
  }

  lemma {:induction false} LessIsTotal(a: string, b: string)
    ensures (Less(a, b) && !Less(b, a) && a != b) || (Less(b, a) && !Less(a, b) && a != b) || (a == b && !Less(a, b))
  {
    if a != "" && b != "" && a[0] == b[0] {
      LessIsTotal(a[1..], b[1..]);
      assert a == [a[0]] + a[1..] && b == [b[0]] + b[1..];
    }
  }

  /** It is the dictionary order: the first difference decides, and a proper prefix comes
      first. */
  lemma {:induction false} LessIff(a: string, b: string)
    ensures Less(a, b) <==>
              exists k :: 0 <= k <= |a| && k < |b| && a[..k] == b[..k] && (k == |a| || a[k] < b[k])
  {
    if a == "" {
      assert b != "" ==> a[..0] == b[..0];
    } else if b != "" && a[0] == b[0] {
      LessIff(a[1..], b[1..]);
      if Less(a[1..], b[1..]) {
        var k :| 0 <= k <= |a| - 1 && k < |b| - 1 && a[1..][..k] == b[1..][..k]
                 && (k == |a| - 1 || a[1..][k] < b[1..][k]);
        assert a[..k + 1] == [a[0]] + a[1..][..k] && b[..k + 1] == [b[0]] + b[1..][..k];
      }
      if k :| 0 <= k <= |a| && k < |b| && a[..k] == b[..k] && (k == |a| || a[k] < b[k]) {
        assert k > 0;
        assert a[1..][..k - 1] == a[..k][1..] && b[1..][..k - 1] == b[..k][1..];
      }
    } else if b != "" {
      if Less(a, b) {
        assert a[..0] == b[..0];
      }
      StartsAgree(a, b);
    }
  }

  lemma StartsAgree(a: string, b: string)
    requires a != "" && b != ""
    ensures forall k :: 0 < k <= |a| && k <= |b| && a[..k] == b[..k] ==> a[0] == b[0]
  {
    forall k | 0 < k <= |a| && k <= |b| && a[..k] == b[..k] ensures a[0] == b[0] {
      assert a[..k][0] == a[0] && b[..k][0] == b[0];
    }
  }

  lemma {:induction false} LessIsTransitive(a: string, b: string, c: string)
    requires Less(a, b) && Less(b, c)
    ensures Less(a, c)
  {
    if a != "" && a[0] == b[0] && b[0] == c[0] {
      LessIsTransitive(a[1..], b[1..], c[1..]);
    }
  }

  ghost predicate Increasing(p: seq<string>) {
    forall i, j :: 0 <= i < j < |p| ==> Less(p[i], p[j])
  }

  // --------------------------------------------------------------- previews

  /** p is the limit least non-empty paths of a set, in order. */
  ghost predicate IsPreview(p: seq<string>, paths: set<string>, limit: nat) {
    && Increasing(p) && |p| <= limit
    && (forall x :: x in p ==> x in paths && x != "")
    && (forall x :: x in paths && x != "" && x !in p ==> |p| == limit && forall y :: y in p ==> Less(y, x))
  }

  lemma {:induction false} IncreasingIsItsSet(p: seq<string>)
    requires Increasing(p)
    ensures |p| == |set x | x in p|
  {
    hide Less;
    if p != [] {
      var init, last := p[..|p| - 1], p[|p| - 1];
      IncreasingIsItsSet(init);
      LastIsNew(p);
      hide Increasing;
      assert p == init + [last];
      assert (set x | x in p) == (set x | x in init) + {last};
    }
  }

  lemma LastIsNew(p: seq<string>)
    requires Increasing(p) && p != []
    ensures p[|p| - 1] !in p[..|p| - 1]
  {
    hide Less;
    var last := p[|p| - 1];
    if last in p[..|p| - 1] {
      var i :| 0 <= i < |p| - 1 && p[i] == last;
      LessIsTotal(p[i], last);
    }
  }

  /** A preview holds every non-empty path when they fit, and is full otherwise. */
  lemma PreviewSize(p: seq<string>, paths: set<string>, limit: nat)
    requires IsPreview(p, paths, limit)
    ensures |p| == if |paths - {""}| <= limit then |paths - {""}| else limit
  {
    var shown := set x | x in p;
    IncreasingIsItsSet(p);
    var hidden := paths - {""} - shown;
    assert paths - {""} == shown + hidden && shown !! hidden;
    if hidden != {} {
      var x :| x in hidden;
      assert |p| == limit;
    }
  }

  /** The preview of a set is unique. */
  lemma PreviewUnique(p: seq<string>, q: seq<string>, paths: set<string>, limit: nat)
    requires IsPreview(p, paths, limit) && IsPreview(q, paths, limit)
    ensures p == q
  {
    PreviewSize(p, paths, limit);
    PreviewSize(q, paths, limit);
    SameMembers(p, q, paths, limit);
    SameMembers(q, p, paths, limit);
    IncreasingUnique(p, q);
  }

  lemma SameMembers(p: seq<string>, q: seq<string>, paths: set<string>, limit: nat)
    requires IsPreview(p, paths, limit) && IsPreview(q, paths, limit) && |p| == |q|
    ensures forall x :: x in p ==> x in q
  {
    forall x | x in p ensures x in q {
      if x !in q {
        assert forall y :: y in q ==> Less(y, x);
        forall y | y in q ensures y in p {
          LessIsTotal(y, x);
        }
        IncreasingIsItsSet(p);
        IncreasingIsItsSet(q);
        var ps, qs := set y | y in p, set y | y in q;
        assert qs <= ps - {x};
        SubsetSize(qs, ps - {x});
      }
    }
  }

  lemma {:induction false} IncreasingUnique(p: seq<string>, q: seq<string>)
    requires Increasing(p) && Increasing(q) && forall x :: x in p <==> x in q
    ensures p == q
  {
    if p == [] {
      assert forall i :: 0 <= i < |q| ==> q[i] in q;
    } else {
      assert p[0] in q && q != [];
      assert q[0] in p;
      HeadIsLeast(p, q[0]);
      HeadIsLeast(q, p[0]);
      LessIsTotal(p[0], q[0]);
      TailMembers(p);
      TailMembers(q);
      IncreasingUnique(p[1..], q[1..]);
      assert p == [p[0]] + p[1..] && q == [q[0]] + q[1..];
    }
  }

  lemma HeadIsLeast(p: seq<string>, x: string)
    requires Increasing(p) && x in p
    ensures p[0] == x || Less(p[0], x)
  {
    var i :| 0 <= i < |p| && p[i] == x;
  }

  lemma TailMembers(p: seq<string>)
    requires Increasing(p) && p != []
    ensures forall x :: x in p[1..] <==> x in p && x != p[0]
  {
    assert p == [p[0]] + p[1..];
    forall x | x in p[1..] ensures x != p[0] {
      var i :| 0 <= i < |p[1..]| && p[1..][i] == x;
      assert Less(p[0], p[i + 1]);
      LessIsTotal(p[0], x);
    }
  }

  // -------------------------------------------------------------- insertion

  /** Where a path belongs: the number of paths less than it. */
  ghost predicate IsSlotOf(p: seq<string>, path: string, index: nat) {
    && index <= |p|
    && (forall i :: 0 <= i < index ==> Less(p[i], path))
    && (forall i :: index <= i < |p| ==> !Less(p[i], path))
  }

  /** sort.SearchStrings. */
  method SearchStrings(a: array<string>, length: nat, path: string) returns (index: nat)
    requires length <= a.Length && Increasing(a[..length])
    ensures IsSlotOf(a[..length], path, index)
  {
    var low, high := 0, length;
    while low < high
      invariant 0 <= low <= high <= length
      invariant forall i :: 0 <= i < low ==> Less(a[i], path)
      invariant forall i :: high <= i < length ==> !Less(a[i], path)
    {
      var mid := (low + high) / 2;
      if Less(a[mid], path) {
        forall i | 0 <= i < mid ensures Less(a[i], path) {
          assert Less(a[..length][i], a[..length][mid]);
          LessIsTransitive(a[i], a[mid], path);
        }
        low := mid + 1;
      } else {
        forall i | mid < i < length ensures !Less(a[i], path) {
          assert Less(a[..length][mid], a[..length][i]);
          LessIsTotal(a[i], path);
          if Less(a[i], path) {
            LessIsTransitive(a[mid], a[i], path);
          }
        }
        high := mid;
      }
    }
    index := low;
  }

  ghost function Placed(p: seq<string>, path: string, index: nat, limit: nat): seq<string>
    requires index <= |p| <= limit
  {
    var longer := p[..index] + [path] + p[index..];
    if |longer| <= limit then longer else longer[..limit]
  }

  /** Inserts into the sorted preview in place, dropping the greatest path when it
      is full. The limit is the array's length. */
  method InsertCheckpointFilePreview(preview: array<string>, length: nat, path: string, ghost paths: set<string>)
    returns (newLength: nat)
    requires length <= preview.Length && IsPreview(preview[..length], paths, preview.Length)
    modifies preview
    ensures newLength <= preview.Length && IsPreview(preview[..newLength], paths + {path}, preview.Length)
  {
    hide IsPreview, Less;
    ghost var was := preview[..length];
    ghost var limit := preview.Length;
    PreviewIncreases(was, paths, limit);
    if preview.Length == 0 || path == "" {
      NothingToInsert(was, paths, path, limit);
      return length;
    }
    var index := SearchStrings(preview, length, path);
    if index < length && preview[index] == path {
      AlreadyThere(was, paths, path, limit);
      return length;
    }
    assert path !in was by {
      NotThere(was, path, index);
    }
    PlacedIsPreview(was, paths, path, index, limit);
    if length < preview.Length {
      ShiftRight(preview, index, length);
      preview[index] := path;
      assert preview[..length + 1] == was[..index] + [path] + was[index..];
      return length + 1;
    }
    if index >= preview.Length {
      assert (was[..index] + [path] + was[index..])[..limit] == was;
      return length;
    }
    ShiftRight(preview, index, length - 1);
    preview[index] := path;
    assert preview[..length] == was[..index] + [path] + was[index..length - 1];
    assert (was[..index] + [path] + was[index..])[..limit] == was[..index] + [path] + was[index..length - 1];
    return length;
  }

  /** copy(a[low+1:], a[low:high]). */
  method ShiftRight(a: array<string>, low: nat, high: nat)
    requires low <= high < a.Length
    modifies a
    ensures forall i :: low < i <= high ==> a[i] == old(a[i - 1])
    ensures forall i :: 0 <= i < a.Length && !(low < i <= high) ==> a[i] == old(a[i])
  {
    var j := high;
    while j > low
      invariant low <= j <= high
      invariant forall i :: j < i <= high ==> a[i] == old(a[i - 1])
      invariant forall i :: 0 <= i < a.Length && !(j < i <= high) ==> a[i] == old(a[i])
    {
      a[j] := a[j - 1];
      j := j - 1;
    }
  }

  lemma PreviewIncreases(p: seq<string>, paths: set<string>, limit: nat)
    requires IsPreview(p, paths, limit)
    ensures Increasing(p)
  {
  }

  lemma NothingToInsert(p: seq<string>, paths: set<string>, path: string, limit: nat)
    requires IsPreview(p, paths, limit) && (limit == 0 || path == "")
    ensures IsPreview(p, paths + {path}, limit)
  {
    hide Less;
  }

  lemma AlreadyThere(p: seq<string>, paths: set<string>, path: string, limit: nat)
    requires IsPreview(p, paths, limit) && path in p
    ensures IsPreview(p, paths + {path}, limit)
  {
    hide Less;
    assert paths + {path} == paths;
  }

  lemma NotThere(p: seq<string>, path: string, index: nat)
    requires Increasing(p) && IsSlotOf(p, path, index) && (index < |p| ==> p[index] != path)
    ensures path !in p
    ensures forall i :: index <= i < |p| ==> Less(path, p[i])
  {
    forall i | 0 <= i < |p| ensures p[i] != path && (index <= i ==> Less(path, p[i])) {
      LessIsTotal(p[i], path);
      if index < i {
        assert Less(p[index], p[i]);
        LessIsTotal(p[index], path);
        LessIsTransitive(path, p[index], p[i]);
      }
    }
  }

  lemma LongerHolds(p: seq<string>, path: string, index: nat)
    requires Increasing(p) && index <= |p|
    requires forall i :: 0 <= i < index ==> Less(p[i], path)
    requires forall i :: index <= i < |p| ==> Less(path, p[i])
    ensures
      var longer := p[..index] + [path] + p[index..];
      Increasing(longer) && forall x :: x in longer <==> x in p || x == path
  {
    hide Less;
    var longer := p[..index] + [path] + p[index..];
    assert p == p[..index] + p[index..];
    forall i, j | 0 <= i < j < |longer| ensures Less(longer[i], longer[j]) {
      if j == index {
        assert longer[i] == p[i] && longer[j] == path;
      } else if i == index {
        assert longer[i] == path && longer[j] == p[j - 1];
      } else {
        assert longer[i] == p[if i < index then i else i - 1] && longer[j] == p[if j < index then j else j - 1];
      }
    }
  }

  lemma PlacedIsPreview(p: seq<string>, paths: set<string>, path: string, index: nat, limit: nat)
    requires IsPreview(p, paths, limit) && path != "" && limit > 0
    requires IsSlotOf(p, path, index) && (index < |p| ==> p[index] != path)
    ensures IsPreview(Placed(p, path, index, limit), paths + {path}, limit)
  {
    NotThere(p, path, index);
    LongerHolds(p, path, index);
    hide Less, Increasing;
    var longer := p[..index] + [path] + p[index..];
    if |p| < limit {
      assert Placed(p, path, index, limit) == longer;
    } else {
      TrimmedIsPreview(p, paths, path, longer, limit);
    }
  }

  /** Dropping the greatest path of a full preview. */
  lemma TrimmedIsPreview(p: seq<string>, paths: set<string>, path: string, longer: seq<string>, limit: nat)
    requires IsPreview(p, paths, limit) && path != "" && |longer| == limit + 1 && limit > 0
    requires Increasing(longer) && forall x :: x in longer <==> x in p || x == path
    ensures IsPreview(longer[..limit], paths + {path}, limit)
  {
    hide Less;
    var q, last := longer[..limit], longer[limit];
    assert longer == q + [last];
    assert Increasing(q) by {
      assert forall i :: 0 <= i < |q| ==> q[i] == longer[i];
    }
    assert forall x :: x in q ==> x in longer;
    assert forall y :: y in q ==> Less(y, last);
    forall x | x in paths + {path} && x != "" && x !in q ensures forall y :: y in q ==> Less(y, x) {
      if x != last {
        assert x !in longer && forall y :: y in p ==> Less(y, x);
        forall y | y in q ensures Less(y, x) {
          LessIsTotal(y, last);
          if y !in p {
            assert last in longer && last in p;
            LessIsTransitive(y, last, x);
          }
        }
      }
    }
  }

  // --------------------------------------------------------------- the walk

  datatype Turn = Turn(paths: seq<string>, canUndoFiles: bool)

  /** A row's list of files is a slice of its own. */
  datatype CheckpointMeta = CheckpointMeta(
    files: array<string>, turnFileCount: nat, canUndoFiles: bool, canCode: bool, fileCount: nat, filesTruncated: bool)

  /** Files touched in turn i or later. */
  function FilesFrom(turns: seq<Turn>, i: nat): set<string>
    requires i <= |turns|
    decreases |turns| - i
  {
    if i == |turns| then {} else (set f | f in turns[i].paths) + FilesFrom(turns, i + 1)
  }

  /** Code can be rewound when some turn from here on changed files and all that
      did can be undone. */
  predicate CanRewind(turns: seq<Turn>, i: nat) {
    && (exists j :: i <= j < |turns| && turns[j].paths != [])
    && (forall j :: i <= j < |turns| && turns[j].paths != [] ==> turns[j].canUndoFiles)
  }

  ghost predicate RowShows(turns: seq<Turn>, i: nat, row: CheckpointMeta)
    requires i < |turns|
    reads row.files
  {
    && row.turnFileCount == |turns[i].paths| && row.canUndoFiles == turns[i].canUndoFiles
    && row.canCode == CanRewind(turns, i)
    && row.fileCount == |FilesFrom(turns, i)|
    && IsPreview(row.files[..], FilesFrom(turns, i), PREVIEW_LIMIT)
    && row.filesTruncated == (row.fileCount > row.files.Length)
  }

  /** Every row is its turn's cumulative view, also after the walk has gone on to
      shift the shared preview for earlier turns. */
  method CheckpointsForTab(turns: seq<Turn>) returns (out: seq<CheckpointMeta>)
    ensures |out| == |turns|
    ensures forall i :: 0 <= i < |out| ==> fresh(out[i].files) && RowShows(turns, i, out[i])
  {
    hide IsPreview, CanRewind, FilesFrom;
    var preview: array<string> := new string[PREVIEW_LIMIT](_ => "");
    var length: nat := 0;
    var hasCodeAfter, canCodeAfter := false, true;
    var fileSet: set<string> := {};
    out := [];
    WalkStarts(turns);
    assert preview[..length] == [];
    var i := |turns|;
    while i > 0
      invariant 0 <= i <= |turns| && |out| == |turns| - i && length <= PREVIEW_LIMIT && fresh(preview)
      invariant fileSet == FilesFrom(turns, i)
      invariant hasCodeAfter == exists j :: i <= j < |turns| && turns[j].paths != []
      invariant canCodeAfter == forall j :: i <= j < |turns| && turns[j].paths != [] ==> turns[j].canUndoFiles
      invariant IsPreview(preview[..length], fileSet, PREVIEW_LIMIT)
      invariant forall k :: 0 <= k < |out| ==> fresh(out[k].files) && out[k].files != preview
      invariant forall k :: 0 <= k < |out| ==> RowShows(turns, i + k, out[k])
    {
      i := i - 1;
      if |turns[i].paths| > 0 {
        hasCodeAfter := true;
        if !turns[i].canUndoFiles {
          canCodeAfter := false;
        }
      }
      fileSet, length := AddFiles(turns, i, preview, length, fileSet);
      var files :=
        new string[length](j requires 0 <= j < length && length <= preview.Length reads preview => preview[j]);
      assert files[..] == preview[..length];
      CanRewindIs(turns, i, hasCodeAfter, canCodeAfter);
      var canRewind := hasCodeAfter && canCodeAfter;
      var truncated := |fileSet| > length;
      out := [CheckpointMeta(files, |turns[i].paths|, turns[i].canUndoFiles, canRewind, |fileSet|, truncated)] + out;
    }
  }

  /** The inner loop over one turn's files. */
  method AddFiles(turns: seq<Turn>, i: nat, preview: array<string>, length: nat, fileSet: set<string>)
    returns (newSet: set<string>, newLength: nat)
    requires i < |turns| && fileSet == FilesFrom(turns, i + 1)
    requires length <= preview.Length && IsPreview(preview[..length], fileSet, preview.Length)
    modifies preview
    ensures newSet == FilesFrom(turns, i)
    ensures newLength <= preview.Length && IsPreview(preview[..newLength], newSet, preview.Length)
  {
    hide IsPreview;
    newSet, newLength := fileSet, length;
    var k := 0;
    while k < |turns[i].paths|
      invariant 0 <= k <= |turns[i].paths| && newLength <= preview.Length
      invariant newSet == fileSet + set f | f in turns[i].paths[..k]
      invariant IsPreview(preview[..newLength], newSet, preview.Length)
    {
      var f := turns[i].paths[k];
      assert turns[i].paths[..k + 1] == turns[i].paths[..k] + [f];
      if f !in newSet {
        newLength := InsertCheckpointFilePreview(preview, newLength, f, newSet);
        newSet := newSet + {f};
      }
      k := k + 1;
    }
    assert turns[i].paths[..k] == turns[i].paths;
  }

  lemma WalkStarts(turns: seq<Turn>)
    ensures FilesFrom(turns, |turns|) == {} && IsPreview([], {}, PREVIEW_LIMIT)
  {
  }

  lemma CanRewindIs(turns: seq<Turn>, i: nat, some: bool, all: bool)
    requires some == exists j :: i <= j < |turns| && turns[j].paths != []
    requires all == forall j :: i <= j < |turns| && turns[j].paths != [] ==> turns[j].canUndoFiles
    ensures (some && all) == CanRewind(turns, i)
  {
  }

  /** Exactly the files of later-or-equal turns count. */
  lemma {:induction false} FilesFromHolds(turns: seq<Turn>, i: nat, f: string)
    requires i <= |turns|
    ensures f in FilesFrom(turns, i) <==> exists j :: i <= j < |turns| && f in turns[j].paths
    decreases |turns| - i
  {
    if i < |turns| {
      FilesFromHolds(turns, i + 1, f);
    }
  }
}
