/** The budget cut of a history page: the forward sliding window over message
    groups and the backward greedy walk over event rows
    (desktop/history_slice.go) keep the same suffix. */
module HistoryCut {

  /** Rows and inline bytes of one group. */
  datatype Weight = Weight(rows: nat, bytes: nat)

  function Total(ws: seq<Weight>): Weight {
    if ws == [] then Weight(0, 0)
    else
      var rest := Total(ws[1..]);
      Weight(ws[0].rows + rest.rows, ws[0].bytes + rest.bytes)
  }

  predicate Within(w: Weight, maxRows: nat, maxBytes: nat) {
    w.rows <= maxRows && w.bytes <= maxBytes
  }

  predicate Fits(ws: seq<Weight>, k: nat, maxRows: nat, maxBytes: nat)
    requires k <= |ws|
  {
    Within(Total(ws[k..]), maxRows, maxBytes)
  }

  /** k is where the longest suffix within both budgets starts, or the newest
      group alone when even that is too big. */
  ghost predicate IsCut(ws: seq<Weight>, k: nat, maxRows: nat, maxBytes: nat) {
    && k < |ws|
    && (k == |ws| - 1 || Fits(ws, k, maxRows, maxBytes))
    && (forall j :: 0 <= j < k ==> !Fits(ws, j, maxRows, maxBytes))
  }

  lemma {:induction false} TotalAppend(ws: seq<Weight>, w: Weight)
    ensures Total(ws + [w]) == Weight(Total(ws).rows + w.rows, Total(ws).bytes + w.bytes)
  {
    if ws == [] {
      assert ws + [w] == [w];
    } else {
      assert (ws + [w])[1..] == ws[1..] + [w];
      TotalAppend(ws[1..], w);
    }
  }

  lemma {:induction false} FitsMonotone(ws: seq<Weight>, j: nat, k: nat, maxRows: nat, maxBytes: nat)
    requires j <= k <= |ws| && Fits(ws, j, maxRows, maxBytes)
    ensures Fits(ws, k, maxRows, maxBytes)
    decreases k - j
  {
    if j < k {
      assert ws[j..][1..] == ws[j + 1..];
      FitsMonotone(ws, j + 1, k, maxRows, maxBytes);
    }
  }

  lemma CutUnique(ws: seq<Weight>, j: nat, k: nat, maxRows: nat, maxBytes: nat)
    requires IsCut(ws, j, maxRows, maxBytes) && IsCut(ws, k, maxRows, maxBytes)
    ensures j == k
  {
  }

  /** The cut as a function, walked from the newest group. */
  function Cut(ws: seq<Weight>, maxRows: nat, maxBytes: nat): nat
    requires ws != []
  {
    CutFrom(ws, |ws| - 1, maxRows, maxBytes)
  }

  function CutFrom(ws: seq<Weight>, k: nat, maxRows: nat, maxBytes: nat): (r: nat)
    requires k < |ws|
    ensures r <= k
  {
    if k == 0 || !Fits(ws, k - 1, maxRows, maxBytes) then k else CutFrom(ws, k - 1, maxRows, maxBytes)
  }

  lemma {:induction false} CutFromIsCut(ws: seq<Weight>, k: nat, maxRows: nat, maxBytes: nat)
    requires k < |ws| && (k == |ws| - 1 || Fits(ws, k, maxRows, maxBytes))
    ensures IsCut(ws, CutFrom(ws, k, maxRows, maxBytes), maxRows, maxBytes)
  {
    if k > 0 {
      if Fits(ws, k - 1, maxRows, maxBytes) {
        CutFromIsCut(ws, k - 1, maxRows, maxBytes);
      } else {
        forall j | 0 <= j < k ensures !Fits(ws, j, maxRows, maxBytes) {
          if Fits(ws, j, maxRows, maxBytes) {
            FitsMonotone(ws, j, k - 1, maxRows, maxBytes);
          }
        }
      }
    }
  }

  lemma CutIsCut(ws: seq<Weight>, maxRows: nat, maxBytes: nat)
    requires ws != []
    ensures IsCut(ws, Cut(ws, maxRows, maxBytes), maxRows, maxBytes)
  {
    CutFromIsCut(ws, |ws| - 1, maxRows, maxBytes);
  }

  /** A group dropped once stays dropped when a newer group arrives. */
  lemma DroppedStaysDropped(ws: seq<Weight>, w: Weight, j: nat, maxRows: nat, maxBytes: nat)
    requires j <= |ws| && !Fits(ws, j, maxRows, maxBytes)
    ensures !Fits(ws + [w], j, maxRows, maxBytes)
  {
    assert (ws + [w])[j..] == ws[j..] + [w];
    TotalAppend(ws[j..], w);
  }

  /** One step of the sliding window: append the newest weight, then drop the
      oldest while over budget. Running counts are kept, never recomputed. */
  method Slide(ghost before: seq<Weight>, ghost start: nat, kept: seq<Weight>, counts: Weight, w: Weight,
               maxRows: nat, maxBytes: nat)
    returns (dropped: nat, left: seq<Weight>, total: Weight)
    requires before == [] ==> start == 0
    requires before != [] ==> IsCut(before, start, maxRows, maxBytes)
    requires kept == before[start..] && counts == Total(kept)
    ensures dropped <= |kept| && left == (kept + [w])[dropped..] && total == Total(left)
    ensures IsCut(before + [w], start + dropped, maxRows, maxBytes)
    ensures left == (before + [w])[start + dropped..]
  {
    ghost var all := before + [w];
    left := kept + [w];
    total := Weight(counts.rows + w.rows, counts.bytes + w.bytes);
    TotalAppend(kept, w);
    forall j | 0 <= j < start ensures !Fits(all, j, maxRows, maxBytes) {
      DroppedStaysDropped(before, w, j, maxRows, maxBytes);
    }
    hide Total, Fits;
    assert left == all[start..];
    dropped, left, total := DropOldest(all, start, left, total, maxRows, maxBytes);
    assert left == (kept + [w])[dropped..] by {
      assert (kept + [w])[dropped..] == all[start..][dropped..];
    }
  }

  /** The inner loop: dropping the oldest while over budget. */
  method DropOldest(ghost all: seq<Weight>, ghost start: nat, kept: seq<Weight>, counts: Weight,
                    maxRows: nat, maxBytes: nat)
    returns (dropped: nat, left: seq<Weight>, total: Weight)
    requires start < |all| && kept == all[start..] && counts == Total(kept)
    requires forall j :: 0 <= j < start ==> !Fits(all, j, maxRows, maxBytes)
    ensures dropped < |kept| && left == all[start + dropped..] && total == Total(left)
    ensures IsCut(all, start + dropped, maxRows, maxBytes)
  {
    left, total, dropped := kept, counts, 0;
    while |left| > 1 && (total.rows > maxRows || total.bytes > maxBytes)
      invariant start + dropped < |all| && left == all[start + dropped..] && total == Total(left)
      invariant forall j :: 0 <= j < start + dropped ==> !Fits(all, j, maxRows, maxBytes)
    {
      assert !Fits(all, start + dropped, maxRows, maxBytes);
      total := Weight(total.rows - left[0].rows, total.bytes - left[0].bytes);
      left, dropped := left[1..], dropped + 1;
      assert left == all[start + dropped..];
    }
  }

  /** The backward walk over one-row groups keeps the same suffix. */
  method BackwardCut(bytes: seq<nat>, maxRows: nat, maxBytes: nat) returns (start: nat)
    requires bytes != []
    ensures start == Cut(RowWeights(bytes), maxRows, maxBytes)
  {
    ghost var ws := RowWeights(bytes);
    var kept: nat, rowCount: nat, byteCount: nat := 0, 0, 0;
    start := |bytes|;
    var i := |bytes| - 1;
    while i >= 0
      invariant -1 <= i < |bytes| && start == i + 1 && kept == |bytes| - start
      invariant Total(ws[start..]) == Weight(rowCount, byteCount) && rowCount == kept
      invariant kept > 1 ==> Fits(ws, start, maxRows, maxBytes)
    {
      assert ws[i..][1..] == ws[i + 1..];
      if kept > 0 && (rowCount + 1 > maxRows || byteCount + bytes[i] > maxBytes) {
        break;
      }
      kept, rowCount, byteCount := kept + 1, rowCount + 1, byteCount + bytes[i];
      start, i := i, i - 1;
    }
    forall j | 0 <= j < start ensures !Fits(ws, j, maxRows, maxBytes) {
      if Fits(ws, j, maxRows, maxBytes) {
        FitsMonotone(ws, j, start - 1, maxRows, maxBytes);
      }
    }
    CutIsCut(ws, maxRows, maxBytes);
    CutUnique(ws, start, Cut(ws, maxRows, maxBytes), maxRows, maxBytes);
  }

  function RowWeights(bytes: seq<nat>): (ws: seq<Weight>)
    ensures |ws| == |bytes| && forall k :: 0 <= k < |bytes| ==> ws[k] == Weight(1, bytes[k])
  {
    seq(|bytes|, k requires 0 <= k < |bytes| => Weight(1, bytes[k]))
  }
}
