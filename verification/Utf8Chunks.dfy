/** Splitting a long field into rune-aligned chunks (historyContentChunkCount,
    historyContentChunkEnd and historyContentChunkAt in desktop/history_slice.go).
    Strings are bytes, as in Go; well-formedness is that of sections 3 and 4 of
    RFC 3629. */
module Utf8Chunks {

  type Byte = b: int | 0 <= b < 256

  /** historyContentChunkBytes: 256 KiB. */
  const CHUNK := 262_144

  // ------------------------------------------------------------------ UTF-8

  predicate Tail(b: Byte) {
    0x80 <= b <= 0xBF
  }

  /** utf8.RuneStart. */
  predicate RuneStart(b: Byte) {
    !Tail(b)
  }

  /** Length of the character at the front, 0 if there is none. */
  function CharLength(s: seq<Byte>): (n: nat)
    ensures n <= 4 && n <= |s|
    ensures n > 0 ==> RuneStart(s[0]) && forall i :: 0 < i < n ==> Tail(s[i])
  {
    if |s| >= 1 && s[0] <= 0x7F then 1
    else if |s| >= 2 && 0xC2 <= s[0] <= 0xDF && Tail(s[1]) then 2
    else if |s| >= 3 && Tail(s[1]) && Tail(s[2]) &&
            ((s[0] == 0xE0 && 0xA0 <= s[1]) || 0xE1 <= s[0] <= 0xEC
             || (s[0] == 0xED && s[1] <= 0x9F) || 0xEE <= s[0] <= 0xEF) then 3
    else if |s| >= 4 && Tail(s[1]) && Tail(s[2]) && Tail(s[3]) &&
            ((s[0] == 0xF0 && 0x90 <= s[1]) || 0xF1 <= s[0] <= 0xF3 || (s[0] == 0xF4 && s[1] <= 0x8F)) then 4
    else 0
  }

  predicate WellFormed(s: seq<Byte>) {
    s == [] || (CharLength(s) > 0 && WellFormed(s[CharLength(s)..]))
  }

  /** Cutting well-formed text where a character starts leaves two well-formed
      parts. */
  lemma {:induction false} CutAtStart(s: seq<Byte>, i: nat)
    requires WellFormed(s) && i <= |s| && (i < |s| ==> RuneStart(s[i]))
    ensures WellFormed(s[..i]) && WellFormed(s[i..])
  {
    if i == 0 {
      assert s[i..] == s;
    } else {
      var n := CharLength(s);
      assert n <= i;
      CutAtStart(s[n..], i - n);
      assert s[n..][i - n..] == s[i..];
      assert s[..i][n..] == s[n..][..i - n];
      assert CharLength(s[..i]) == n;
    }
  }

  /** A character is at most four bytes, so a start is never far back. */
  lemma {:induction false} StartIsNear(s: seq<Byte>, i: nat) returns (j: nat)
    requires WellFormed(s) && i < |s|
    ensures j <= i <= j + 3 && RuneStart(s[j])
  {
    var n := CharLength(s);
    if i < n {
      j := 0;
    } else {
      j := StartIsNear(s[n..], i - n);
      j := j + n;
    }
  }

  // ----------------------------------------------------------------- chunks

  function BackedOff(s: seq<Byte>, off: nat, end: nat): (e: nat)
    requires off <= end < |s|
    ensures off <= e <= end && (e > off ==> RuneStart(s[e]))
    ensures forall j :: e < j <= end ==> Tail(s[j])
    decreases end
  {
    if end > off && !RuneStart(s[end]) then BackedOff(s, off, end - 1) else end
  }

  function ChunkEnd(s: seq<Byte>, off: nat): (e: nat)
    requires off <= |s|
    ensures off <= e <= |s| && e <= off + CHUNK
  {
    if off + CHUNK >= |s| then |s| else BackedOff(s, off, off + CHUNK)
  }

  /** The chunk that starts here would be empty. */
  predicate Stuck(s: seq<Byte>, off: nat) {
    off + CHUNK < |s| && forall j :: off < j <= off + CHUNK ==> Tail(s[j])
  }

  lemma NoProgressIff(s: seq<Byte>, off: nat)
    requires off < |s|
    ensures ChunkEnd(s, off) == off <==> Stuck(s, off)
  {
  }

  /** Offset after k turns of the chunk loop. */
  function Offset(s: seq<Byte>, k: nat): (off: nat)
    ensures off <= |s|
  {
    if k == 0 then 0 else ChunkEnd(s, Offset(s, k - 1))
  }

  ghost predicate LoopEnds(s: seq<Byte>) {
    exists k: nat :: Offset(s, k) == |s|
  }

  /** Nowhere in the text do 256 KiB of continuation bytes follow an offset, with
      more to come: a condition on the bytes alone, true of all well-formed text. */
  ghost predicate Progresses(s: seq<Byte>) {
    forall off :: 0 <= off < |s| ==> !Stuck(s, off)
  }

  /** For any bytes at all, the chunk loop ends if and only if no such stretch of
      continuation bytes is anywhere in them: the loop cannot step over one. */
  lemma LoopEndsIff(s: seq<Byte>)
    ensures LoopEnds(s) <==> Progresses(s)
  {
    if Progresses(s) {
      LoopProgresses(s, 0);
    } else {
      var off :| 0 <= off < |s| && Stuck(s, off);
      forall k: nat ensures Offset(s, k) < |s| {
        StaysBefore(s, off, k);
      }
    }
  }

  lemma {:induction false} StaysBefore(s: seq<Byte>, off: nat, k: nat)
    requires Stuck(s, off)
    ensures Offset(s, k) <= off
  {
    if k > 0 {
      StaysBefore(s, off, k - 1);
      var o, e := Offset(s, k - 1), ChunkEnd(s, Offset(s, k - 1));
      assert e > o ==> RuneStart(s[e]);
    }
  }

  lemma {:induction false} LoopProgresses(s: seq<Byte>, k: nat)
    requires Progresses(s)
    ensures LoopEnds(s)
    decreases |s| - Offset(s, k)
  {
    if Offset(s, k) < |s| {
      NoProgressIff(s, Offset(s, k));
      LoopProgresses(s, k + 1);
    }
  }

  /** Bytes on which the loop does not end: 256 KiB and one of continuation bytes,
      in any text. */
  lemma ContinuationBytesNeverEnd(before: seq<Byte>, after: seq<Byte>, b: Byte)
    requires Tail(b)
    ensures !LoopEnds(before + seq(CHUNK + 1, i => b) + after)
  {
    var run := seq(CHUNK + 1, i => b);
    var s := before + run + after;
    assert forall j :: |before| <= j < |before| + CHUNK + 1 ==> s[j] == run[j - |before|] == b;
    assert Stuck(s, |before|);
    LoopEndsIff(s);
  }

  lemma WellFormedProgresses(s: seq<Byte>)
    requires WellFormed(s)
    ensures Progresses(s)
  {
    forall off | 0 <= off < |s| ensures !Stuck(s, off) {
      if off + CHUNK < |s| {
        var j := StartIsNear(s, off + CHUNK);
        assert !Tail(s[j]);
      }
    }
  }

  ghost function ChunksFrom(s: seq<Byte>, off: nat): seq<seq<Byte>>
    requires Progresses(s) && off <= |s|
    decreases |s| - off
  {
    if off == |s| then []
    else
      NoProgressIff(s, off);
      [s[off..ChunkEnd(s, off)]] + ChunksFrom(s, ChunkEnd(s, off))
  }

  /** The empty string is one empty chunk. */
  ghost function Chunks(s: seq<Byte>): seq<seq<Byte>>
    requires Progresses(s)
  {
    if s == [] then [[]] else ChunksFrom(s, 0)
  }

  method HistoryContentChunkEnd(s: seq<Byte>, off: nat) returns (end: nat)
    requires off <= |s|
    ensures end == ChunkEnd(s, off)
  {
    end := off + CHUNK;
    if end >= |s| {
      return |s|;
    }
    while end > off && !RuneStart(s[end])
      invariant off <= end <= off + CHUNK && end < |s|
      invariant BackedOff(s, off, end) == BackedOff(s, off, off + CHUNK)
    {
      end := end - 1;
    }
  }

  method HistoryContentChunkCount(s: seq<Byte>) returns (chunks: nat)
    requires Progresses(s)
    ensures chunks == |Chunks(s)|
  {
    if |s| == 0 {
      return 1;
    }
    chunks := 0;
    var off: nat := 0;
    while off < |s|
      invariant off <= |s| && chunks + |ChunksFrom(s, off)| == |ChunksFrom(s, 0)|
      decreases |s| - off
    {
      NoProgressIff(s, off);
      off := HistoryContentChunkEnd(s, off);
      chunks := chunks + 1;
    }
  }

  /** A chunk past the end is empty; a negative index means the first. */
  method HistoryContentChunkAt(s: seq<Byte>, index: int) returns (chunk: seq<Byte>, chunks: nat)
    requires Progresses(s)
    ensures chunks == |Chunks(s)|
    ensures index < chunks ==> chunk == Chunks(s)[if index < 0 then 0 else index]
    ensures index >= chunks ==> chunk == []
  {
    chunks := HistoryContentChunkCount(s);
    var wanted := if index < 0 then 0 else index;
    var off: nat := 0;
    var i: nat := 0;
    while i < wanted && off < |s|
      invariant i <= wanted && off <= |s|
      invariant i <= |ChunksFrom(s, 0)| && ChunksFrom(s, off) == ChunksFrom(s, 0)[i..]
    {
      NoProgressIff(s, off);
      assert ChunksFrom(s, off)[1..] == ChunksFrom(s, ChunkEnd(s, off));
      off := HistoryContentChunkEnd(s, off);
      i := i + 1;
    }
    if off >= |s| {
      return [], chunks;
    }
    var end := HistoryContentChunkEnd(s, off);
    assert ChunksFrom(s, off)[0] == s[off..ChunkEnd(s, off)];
    return s[off..end], chunks;
  }

  function Joined(chunks: seq<seq<Byte>>): seq<Byte> {
    if chunks == [] then [] else chunks[0] + Joined(chunks[1..])
  }

  lemma {:induction false} ChunksFromHold(s: seq<Byte>, off: nat)
    requires WellFormed(s) && Progresses(s) && off <= |s| && (off < |s| ==> RuneStart(s[off]))
    ensures Joined(ChunksFrom(s, off)) == s[off..]
    ensures forall c :: c in ChunksFrom(s, off) ==> WellFormed(c) && 0 < |c| <= CHUNK
    ensures forall i :: 0 <= i < |ChunksFrom(s, off)| - 1 ==> |ChunksFrom(s, off)[i]| >= CHUNK - 3
    decreases |s| - off
  {
    hide WellFormed, CharLength, RuneStart;
    if off < |s| {
      NoProgressIff(s, off);
      var end := ChunkEnd(s, off);
      ChunkHolds(s, off);
      hide ChunkEnd, Stuck;
      ChunksFromHold(s, end);
      assert s[off..end] + s[end..] == s[off..];
      assert ChunksFrom(s, off) == [s[off..end]] + ChunksFrom(s, end);
      assert ChunksFrom(s, off)[1..] == ChunksFrom(s, end);
    }
  }

  /** One chunk of well-formed text. */
  lemma ChunkHolds(s: seq<Byte>, off: nat)
    requires WellFormed(s) && Progresses(s) && off < |s| && RuneStart(s[off])
    ensures
      var end := ChunkEnd(s, off);
      && off < end && WellFormed(s[off..end]) && (end < |s| ==> RuneStart(s[end]) && end - off >= CHUNK - 3)
  {
    hide WellFormed, CharLength;
    NoProgressIff(s, off);
    var end := ChunkEnd(s, off);
    CutAtStart(s, off);
    assert end < |s| ==> s[off..][end - off] == s[end];
    CutAtStart(s[off..], end - off);
    assert s[off..][..end - off] == s[off..end];
    if end < |s| {
      var j := StartIsNear(s, off + CHUNK);
      assert j <= end;
    }
  }

  /** For all well-formed text the chunks join to the text, and each is well-formed
      and at most 256 KiB; none is empty unless the text is, and all but the last
      are within three bytes of full. */
  lemma ChunksReassemble(s: seq<Byte>)
    requires WellFormed(s)
    ensures Progresses(s) && Joined(Chunks(s)) == s
    ensures forall c :: c in Chunks(s) ==> WellFormed(c) && |c| <= CHUNK && (s != [] ==> c != [])
    ensures forall i :: 0 <= i < |Chunks(s)| - 1 ==> |Chunks(s)[i]| >= CHUNK - 3
  {
    WellFormedProgresses(s);
    if s != [] {
      ChunksFromHold(s, 0);
      assert s[0..] == s;
    }
  }
}
