/** The prompt history tape (promptHistoryTape in desktop/app.go): sessions are
    read on demand, newest first, and paged by cursor. Reading one is a parameter,
    scan, since the file may be missing or unreadable; whatever the first read gives
    is kept. */
module PromptTape {
  import opened Options

  type Entry = string

  const PAGE_LIMIT := 50
  const MAX_PAGE_LIMIT := 200

  datatype Cursor = Cursor(nonce: string, session: int, offset: int)

  datatype Page = Page(entries: seq<Entry>, olderCursor: Option<Cursor>)
  {
    predicate HasOlder() {
      olderCursor.Some?
    }
  }

  function PromptHistoryLimit(limit: int): (r: int)
    ensures 1 <= r <= 200 && (1 <= limit <= 200 ==> r == limit)
    ensures (limit <= 0 ==> r == 50) && (limit > 200 ==> r == 200)
  {
    if limit <= 0 then PAGE_LIMIT else if limit > MAX_PAGE_LIMIT then MAX_PAGE_LIMIT else limit
  }

  type Loaded = map<string, seq<Entry>>

  /** The entries a session has: those read before, else those a read gives now,
      else none. */
  function EntriesOf(loaded: Loaded, scan: string -> Result<seq<Entry>>, path: string): seq<Entry> {
    if path in loaded then loaded[path] else if scan(path).Ok? then scan(path).value else []
  }

  /** Later holds what was kept before and, beyond that, only what reading gives. */
  ghost predicate KeepsReads(later: Loaded, earlier: Loaded, scan: string -> Result<seq<Entry>>) {
    && earlier.Keys <= later.Keys
    && forall path :: path in later ==> later[path] == EntriesOf(earlier, scan, path)
  }

  function DropFirst(entries: seq<Entry>, offset: nat): seq<Entry> {
    if offset >= |entries| then [] else entries[offset..]
  }

  /** The entries from one position of the tape up to another. */
  function Between(tape: seq<seq<Entry>>, s0: nat, o0: nat, s1: nat, o1: nat): seq<Entry>
    requires s0 <= s1 <= |tape|
    decreases s1 - s0
  {
    if s0 < s1 then DropFirst(tape[s0], o0) + Between(tape, s0 + 1, 0, s1, o1)
    else if s0 == |tape| || o1 <= o0 || o1 > |tape[s0]| then []
    else tape[s0][o0..o1]
  }

  /** Everything, session after session. */
  function Everything(tape: seq<seq<Entry>>): seq<Entry> {
    if tape == [] then [] else tape[0] + Everything(tape[1..])
  }

  /** The sessions' entries, given what is kept and what reading gives. */
  function TapeOf(sessions: seq<string>, loaded: Loaded, scan: string -> Result<seq<Entry>>): (tape: seq<seq<Entry>>)
    ensures |tape| == |sessions| && forall k :: 0 <= k < |tape| ==> tape[k] == EntriesOf(loaded, scan, sessions[k])
  {
    seq(|sessions|, k requires 0 <= k < |sessions| => EntriesOf(loaded, scan, sessions[k]))
  }

  /** Reading on changes no session's entries. */
  lemma TapeStays(sessions: seq<string>, later: Loaded, earlier: Loaded, scan: string -> Result<seq<Entry>>)
    requires KeepsReads(later, earlier, scan)
    ensures TapeOf(sessions, later, scan) == TapeOf(sessions, earlier, scan)
  {
  }

  /** A position: inside a session, at the start of one, or the end. */
  predicate IsPosition(tape: seq<seq<Entry>>, s: nat, o: nat) {
    s <= |tape| && (o > 0 ==> s < |tape| && o <= |tape[s]|)
  }

  /** Adjacent stretches join. */
  lemma {:induction false} BetweenJoins(tape: seq<seq<Entry>>, s0: nat, o0: nat, s1: nat, o1: nat, s2: nat, o2: nat)
    requires s0 <= s1 <= s2 && IsPosition(tape, s1, o1) && IsPosition(tape, s2, o2)
    requires (s0 == s1 ==> o0 <= o1) && (s1 == s2 ==> o1 <= o2)
    ensures Between(tape, s0, o0, s1, o1) + Between(tape, s1, o1, s2, o2) == Between(tape, s0, o0, s2, o2)
    decreases s1 - s0
  {
    if s0 < s1 {
      BetweenJoins(tape, s0 + 1, 0, s1, o1, s2, o2);
      hide Between;
      FirstSession(tape, s0, o0, s1, o1);
      FirstSession(tape, s0, o0, s2, o2);
      Associates(DropFirst(tape[s0], o0), Between(tape, s0 + 1, 0, s1, o1), Between(tape, s1, o1, s2, o2));
    } else if s1 < |tape| {
      JoinsWithinSession(tape, s1, o0, o1, s2, o2);
    }
  }

  lemma FirstSession(tape: seq<seq<Entry>>, s0: nat, o0: nat, s1: nat, o1: nat)
    requires s0 < s1 <= |tape|
    ensures Between(tape, s0, o0, s1, o1) == DropFirst(tape[s0], o0) + Between(tape, s0 + 1, 0, s1, o1)
  {
  }

  lemma Associates(a: seq<Entry>, b: seq<Entry>, c: seq<Entry>)
    ensures (a + b) + c == a + (b + c)
  {
  }

  lemma JoinsWithinSession(tape: seq<seq<Entry>>, s1: nat, o0: nat, o1: nat, s2: nat, o2: nat)
    requires s1 <= s2 && s1 < |tape| && IsPosition(tape, s1, o1) && IsPosition(tape, s2, o2) && o0 <= o1
    requires (s1 == s2 ==> o1 <= o2)
    ensures Between(tape, s1, o0, s1, o1) + Between(tape, s1, o1, s2, o2) == Between(tape, s1, o0, s2, o2)
  {
    Splits(tape[s1], o0, o1, if s1 == s2 then o2 else |tape[s1]|);
    if s1 < s2 {
      FirstSession(tape, s1, o0, s2, o2);
      FirstSession(tape, s1, o1, s2, o2);
      var rest := Between(tape, s1 + 1, 0, s2, o2);
      Associates(Between(tape, s1, o0, s1, o1), DropFirst(tape[s1], o1), rest);
    }
  }

  lemma Splits(e: seq<Entry>, a: nat, b: nat, c: nat)
    requires a <= b <= c <= |e|
    ensures e[a..b] + e[b..c] == e[a..c]
    ensures c == |e| ==> e[a..b] + DropFirst(e, b) == DropFirst(e, a)
  {
  }

  lemma {:induction false} WholeTape(tape: seq<seq<Entry>>, k: nat)
    requires k <= |tape|
    ensures Between(tape, k, 0, |tape|, 0) == Everything(tape[k..])
    decreases |tape| - k
  {
    if k < |tape| {
      WholeTape(tape, k + 1);
      assert tape[k..][1..] == tape[k + 1..];
      assert DropFirst(tape[k], 0) == tape[k];
    }
  }

  class PromptHistoryTape {
    const nonce: string
    const sessions: seq<string>
    var loaded: Loaded

    constructor (nonce: string, sessions: seq<string>)
      ensures this.nonce == nonce && this.sessions == sessions && loaded == map[]
    {
      this.nonce, this.sessions, loaded := nonce, sessions, map[];
    }

    /** A session is read once; one that cannot be read counts as empty, now and
        later. */
    method EntriesForSession(index: nat, scan: string -> Result<seq<Entry>>) returns (entries: Result<seq<Entry>>)
      requires index < |sessions|
      modifies this`loaded
      ensures entries == if sessions[index] in old(loaded) then Ok(old(loaded)[sessions[index]])
        else scan(sessions[index])
      ensures loaded == old(loaded)[sessions[index] := EntriesOf(old(loaded), scan, sessions[index])]
    {
      var path := sessions[index];
      if path in loaded {
        assert loaded == loaded[path := loaded[path]];
        return Ok(loaded[path]);
      }
      entries := scan(path);
      loaded := loaded[path := if entries.Ok? then entries.value else []];
    }

    function StartSession(cursor: Option<Cursor>): nat {
      if cursor.Some? && cursor.value.nonce == nonce && cursor.value.session > 0 then cursor.value.session else 0
    }

    function StartOffset(cursor: Option<Cursor>): nat {
      if cursor.Some? && cursor.value.nonce == nonce && cursor.value.offset > 0 then cursor.value.offset else 0
    }

    /** A cursor of this tape goes on where it says; none, or one of another tape, starts
        anew. */
    lemma StartsWhere(cursor: Option<Cursor>)
      ensures cursor.None? || cursor.value.nonce != nonce ==> StartSession(cursor) == 0 && StartOffset(cursor) == 0
      ensures cursor.Some? && cursor.value.nonce == nonce && cursor.value.session >= 0 && cursor.value.offset >= 0 ==>
                StartSession(cursor) == cursor.value.session && StartOffset(cursor) == cursor.value.offset
    {
    }

    /** Where a page ends. */
    function EndSession(page: Page): int {
      if page.HasOlder() then page.olderCursor.value.session else |sessions|
    }

    function EndOffset(page: Page): int {
      if page.HasOlder() then page.olderCursor.value.offset else 0
    }

    /** A page is the sessions' entries from its cursor up to the next one, or to the
        end. A page with a next cursor is full, and that cursor is further on. */
    method ReadOlder(cursor: Option<Cursor>, limit: nat, scan: string -> Result<seq<Entry>>) returns (page: Page)
      modifies this`loaded
      ensures KeepsReads(loaded, old(loaded), scan)
      ensures |page.entries| <= limit
      ensures (page.HasOlder() ==> |page.entries| == limit && page.olderCursor.value.nonce == nonce)
      ensures StartSession(cursor) > |sessions| ==> page == Page([], None)
      ensures StartSession(cursor) <= |sessions| ==>
                var (s0, o0, s1, o1) := (StartSession(cursor), StartOffset(cursor), EndSession(page), EndOffset(page));
                var tape := TapeOf(sessions, old(loaded), scan);
                && s0 <= s1 <= |sessions| && 0 <= o1
                && page.entries == Between(tape, s0, o0, s1, o1)
                && (forall k :: s0 <= k < s1 ==> sessions[k] in loaded)
                && (limit > 0 ==> IsPosition(tape, s1, o1))
                && (limit > 0 && page.HasOlder() ==> s1 < |sessions| && (s0 < s1 || o0 < o1))
    {
      hide Between, Reached, KeepsReads, IsPosition, EntriesOf;
      ghost var tape := TapeOf(sessions, loaded, scan);
      NothingRead(loaded, scan, tape);
      ghost var s0: nat, o0: nat := StartSession(cursor), StartOffset(cursor);
      var c := Cursor(nonce, 0, 0);
      if cursor.Some? && cursor.value.nonce == nonce {
        c := cursor.value;
      }
      var sessionIndex: nat := if c.session < 0 then 0 else c.session;
      var offset: nat := if c.offset < 0 then 0 else c.offset;
      var out: seq<Entry> := [];
      if s0 <= |sessions| {
        ReachedStarts(tape, s0, o0);
      }
      while sessionIndex < |sessions| && |out| < limit
        invariant |out| <= limit && KeepsReads(loaded, old(loaded), scan)
        invariant s0 > |sessions| ==> sessionIndex == s0 && out == []
        invariant s0 <= |sessions| ==> Reached(tape, s0, o0, sessionIndex, offset, out)
        invariant s0 <= |sessions| ==>
            s0 <= sessionIndex <= |sessions| && forall k :: s0 <= k < sessionIndex ==> sessions[k] in loaded
        decreases |sessions| - sessionIndex, limit - |out|
      {
        ghost var before := loaded;
        var entries := EntriesForSession(sessionIndex, scan);
        ReadsOneMore(sessions, before, old(loaded), scan, sessionIndex, entries);
        if entries.Err? || offset >= |entries.value| {
          Skips(tape, s0, o0, sessionIndex, offset, out);
          sessionIndex, offset := sessionIndex + 1, 0;
        } else {
          var end := if |entries.value| < offset + limit - |out| then |entries.value| else offset + limit - |out|;
          Takes(tape, s0, o0, sessionIndex, offset, end, out);
          out := out + entries.value[offset..end];
          offset := end;
          if offset >= |entries.value| && |out| < limit {
            Skips(tape, s0, o0, sessionIndex, offset, out);
            sessionIndex, offset := sessionIndex + 1, 0;
          }
        }
      }
      if sessionIndex < |sessions| {
        KeptIsRead(sessions, loaded, old(loaded), scan, sessionIndex);
        if sessions[sessionIndex] in loaded && offset >= |loaded[sessions[sessionIndex]]| {
          Skips(tape, s0, o0, sessionIndex, offset, out);
          sessionIndex, offset := sessionIndex + 1, 0;
        }
      }
      page := Page(out, if sessionIndex < |sessions| then Some(Cursor(nonce, sessionIndex, offset)) else None);
      if s0 <= |sessions| {
        ReachedEnds(tape, s0, o0, sessionIndex, offset, out);
      }
    }

    /** Reads page after page until there is no older one: the entries of all
        sessions, in order. */
    method ReadAll(scan: string -> Result<seq<Entry>>) returns (out: seq<Entry>)
      modifies this`loaded
      ensures KeepsReads(loaded, old(loaded), scan) && (forall path :: path in sessions ==> path in loaded)
      ensures out == Everything(TapeOf(sessions, old(loaded), scan))
    {
      hide Between, Everything, KeepsReads;
      ghost var tape := TapeOf(sessions, loaded, scan);
      out := [];
      var cursor: Option<Cursor> := None;
      ghost var s: nat, o: nat := 0, 0;
      NothingRead(loaded, scan, tape);
      while true
        invariant s == StartSession(cursor) && o == StartOffset(cursor) && KeepsReads(loaded, old(loaded), scan)
        invariant IsPosition(tape, s, o) && out == Between(tape, 0, 0, s, o)
        invariant forall k :: 0 <= k < s ==> sessions[k] in loaded
        decreases |sessions| - s, if s < |sessions| then |tape[s]| - o else 0
      {
        ghost var before := loaded;
        TapeStays(sessions, before, old(loaded), scan);
        var page := ReadOlder(cursor, MAX_PAGE_LIMIT, scan);
        ReadsCompose(loaded, before, old(loaded), scan);
        ghost var s1: nat, o1: nat := EndSession(page), EndOffset(page);
        BetweenJoins(tape, 0, 0, s, o, s1, o1);
        out := out + page.entries;
        if page.olderCursor.None? {
          WholeTape(tape, 0);
          assert tape[0..] == tape;
          return;
        }
        cursor := page.olderCursor;
        s, o := s1, o1;
      }
    }
  }

  lemma NothingRead(loaded: Loaded, scan: string -> Result<seq<Entry>>, tape: seq<seq<Entry>>)
    ensures KeepsReads(loaded, loaded, scan) && Between(tape, 0, 0, 0, 0) == []
  {
  }

  lemma ReachedStarts(tape: seq<seq<Entry>>, s0: nat, o0: nat)
    requires s0 <= |tape|
    ensures Reached(tape, s0, o0, s0, o0, [])
  {
  }

  lemma ReadsOneMore(sessions: seq<string>, before: Loaded, start: Loaded, scan: string -> Result<seq<Entry>>, k: nat,
                     entries: Result<seq<Entry>>)
    requires k < |sessions| && KeepsReads(before, start, scan)
    requires entries == if sessions[k] in before then Ok(before[sessions[k]]) else scan(sessions[k])
    ensures KeepsReads(before[sessions[k] := EntriesOf(before, scan, sessions[k])], start, scan)
    ensures TapeOf(sessions, start, scan)[k] == if entries.Ok? then entries.value else []
  {
  }

  lemma KeptIsRead(sessions: seq<string>, loaded: Loaded, start: Loaded, scan: string -> Result<seq<Entry>>, k: nat)
    requires k < |sessions| && KeepsReads(loaded, start, scan)
    ensures sessions[k] in loaded ==> loaded[sessions[k]] == TapeOf(sessions, start, scan)[k]
  {
  }

  lemma ReadsCompose(c: Loaded, b: Loaded, a: Loaded, scan: string -> Result<seq<Entry>>)
    requires KeepsReads(c, b, scan) && KeepsReads(b, a, scan)
    ensures KeepsReads(c, a, scan) && b.Keys <= c.Keys
  {
  }

  /** The loop has gathered all entries up to its position. */
  ghost predicate Reached(tape: seq<seq<Entry>>, s0: nat, o0: nat, s: nat, o: nat, out: seq<Entry>) {
    && s0 <= s <= |tape|
    && if s == s0 && out == [] then o == o0
       else IsPosition(tape, s, o) && out == Between(tape, s0, o0, s, o) && (s == s0 ==> o0 < o)
  }

  lemma ReachedEnds(tape: seq<seq<Entry>>, s0: nat, o0: nat, s: nat, o: nat, out: seq<Entry>)
    requires Reached(tape, s0, o0, s, o, out)
    ensures s0 <= s <= |tape| && out == Between(tape, s0, o0, s, if s < |tape| then o else 0)
    ensures out != [] || s > s0 ==> IsPosition(tape, s, if s < |tape| then o else 0) && (s == s0 ==> o0 < o)
    ensures out == [] && s == |tape| ==> IsPosition(tape, s, 0)
  {
  }

  /** A session with nothing left adds nothing. */
  lemma Skips(tape: seq<seq<Entry>>, s0: nat, o0: nat, s: nat, o: nat, out: seq<Entry>)
    requires Reached(tape, s0, o0, s, o, out) && s < |tape| && o >= |tape[s]|
    ensures Reached(tape, s0, o0, s + 1, 0, out)
  {
    if !(s == s0 && out == []) {
      Moves(tape, s0, o0, s, o);
    }
  }

  /** The end of a session is the start of the next. */
  lemma {:induction false} Moves(tape: seq<seq<Entry>>, s0: nat, o0: nat, s: nat, o: nat)
    requires s0 <= s < |tape| && (o == |tape[s]| || |tape[s]| == o == 0) && (s == s0 ==> o0 <= o)
    ensures Between(tape, s0, o0, s, o) == Between(tape, s0, o0, s + 1, 0)
    decreases s - s0
  {
    if s0 < s {
      Moves(tape, s0 + 1, 0, s, o);
    } else {
      assert Between(tape, s0 + 1, 0, s + 1, 0) == [];
    }
  }

  lemma Takes(tape: seq<seq<Entry>>, s0: nat, o0: nat, s: nat, o: nat, end: nat, out: seq<Entry>)
    requires Reached(tape, s0, o0, s, o, out) && s < |tape| && o < end <= |tape[s]|
    ensures Reached(tape, s0, o0, s, end, out + tape[s][o..end])
  {
    if !(s == s0 && out == []) {
      BetweenJoins(tape, s0, o0, s, o, s, end);
    }
  }
}
