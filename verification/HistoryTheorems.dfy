/** Main results about windowed history: following cursors reproduces the full
    conversion, pages respect their budgets, content references resolve to the
    full conversion's rows, and the input on which priming goes wrong. */
module HistoryTheorems {
  import opened Options
  import opened HistoryTypes
  import opened HistoryConvert
  import opened HistoryLookups
  import opened HistoryTodos
  import opened HistoryCut
  import opened HistoryPaging
  import opened HistoryRows
  import opened HistorySteers

  // ------------------------------------------------- following the cursors

  /** Every page, oldest first, reached by following NextCursor from cursor;
      request number k brings its own budgets. */
  function Follow(ss: Session, requests: nat -> Request, k: nat, cursor: Option<Cursor>): seq<Entry>
    requires ss.Valid()
    decreases PageEnd(ss, cursor)
  {
    var page := PageOf(ss, requests(k).(cursor := cursor));
    (if page.hasOlder then Follow(ss, requests, k + 1, page.next) else []) + page.entries
  }

  predicate OwnCursor(ss: Session, cursor: Option<Cursor>) {
    cursor.Some? ==>
      && cursor.value.revision == ss.src.revision && cursor.value.revKnown == ss.src.revKnown
      && cursor.value.digest == ss.src.digest
  }

  /** One page is the matching slice of the full conversion. */
  lemma PageIsFullSlice(ss: Session, req: Request)
    requires ss.Valid() && PagesExactly(ss) && OwnCursor(ss, req.cursor)
    requires PageEnd(ss, req.cursor) > 0
    ensures
      var page, hi := PageOf(ss, req), PageEnd(ss, req.cursor);
      var start := PageStart(ss, req, hi);
      && page.entries == Entries(FrameOf(ss.src), FullTable(ss), start, hi)
      && page.hasOlder == (start > 0) && !page.stale
      && (page.hasOlder ==> page.next.Some? && page.next.value.before == start < hi && OwnCursor(ss, page.next))
  {
    var hi := PageEnd(ss, req.cursor);
    var lo := CandidateLo(ss.src, Normalized(req).turns, hi);
    var start := PageStart(ss, req, hi);
    CandidateWindowIsFull(ss, Normalized(req).turns, hi);
    hide WindowTable, FullTable, PageStart;
    EntriesAgree(FrameOf(ss.src), WindowTable(ss, lo, hi), FullTable(ss), start, hi);
  }

  lemma NothingBeforeStart(ss: Session, req: Request)
    requires ss.Valid() && PageEnd(ss, req.cursor) == 0
    ensures PageOf(ss, req).entries == [] && !PageOf(ss, req).hasOlder
  {
  }

  /** No duplication, no omission: for every log and every choice of budgets per
      request, the pages joined oldest first are the full conversion up to the
      cursor. */
  lemma {:induction false} PagesJoinToFullConversion(ss: Session, requests: nat -> Request, k: nat,
      cursor: Option<Cursor>)
    requires ss.Valid() && PagesExactly(ss) && OwnCursor(ss, cursor)
    ensures Follow(ss, requests, k, cursor) == Entries(FrameOf(ss.src), FullTable(ss), 0, PageEnd(ss, cursor))
    decreases PageEnd(ss, cursor)
  {
    hide PageOf, PageStart, FullTable, PagesExactly;
    var req := requests(k).(cursor := cursor);
    var hi := PageEnd(ss, cursor);
    if hi == 0 {
      NothingBeforeStart(ss, req);
    } else {
      PageIsFullSlice(ss, req);
      var page, start := PageOf(ss, req), PageStart(ss, req, hi);
      if start > 0 {
        PagesJoinToFullConversion(ss, requests, k + 1, page.next);
        EntriesJoin(FrameOf(ss.src), FullTable(ss), 0, start, hi);
      }
    }
  }

  /** The whole chain carries exactly the rows of one full conversion. */
  lemma ChainReproducesEveryRow(ss: Session, requests: nat -> Request)
    requires ss.Valid() && PagesExactly(ss)
    ensures RowsOf(Follow(ss, requests, 0, None)) == Concat(FullTable(ss))
  {
    PagesJoinToFullConversion(ss, requests, 0, None);
    hide FullTable;
    EntriesCarryRows(FrameOf(ss.src), FullTable(ss), |ss.src.msgs|);
    assert FullTable(ss)[..|ss.src.msgs|] == FullTable(ss);
  }

  /** Without planner displays nothing can diverge, whatever the steer rows. */
  lemma {:induction false} NoPlannerNoDivergence(ss: Session, end: nat)
    requires end <= |ss.src.msgs| && ss.Initial().queues == map[]
    ensures NoSteerDivergence(ss.rules, ss.src.msgs, ss.Initial(), end)
  {
    forall i | 0 <= i < end
      ensures !Divergent(ss.rules, Converted(ss.rules, ss.src.msgs, ss.Initial(), 0, i), ss.src.msgs[i])
    {
      NoPlannerTurnsNoState(ss.rules, ss.src.msgs, ss.Initial(), i);
    }
  }

  /** When every steer row also counts as synthetic, priming is always exact. */
  lemma SyntheticSteersAreExact(ss: Session)
    requires forall m :: m in ss.src.msgs && m.role == User && ss.rules.steer(ss.rules.userText(m)).Some? ==>
               ss.rules.synthetic(ss.rules.displayContent(m))
    ensures NoSteerDivergence(ss.rules, ss.src.msgs, ss.Initial(), |ss.src.msgs|)
  {
  }

  // --------------------------------------------------------------- budgets

  lemma {:induction false} FlattenedWeight(rules: TextRules, gs: seq<Group>)
    ensures WeightOf(rules, Flatten(gs)) == Total(Weights(rules, gs))
  {
    if gs != [] {
      var init, last := gs[..|gs| - 1], gs[|gs| - 1];
      FlattenedWeight(rules, init);
      InlineBytesJoin(rules, Flatten(init), last.entries);
      assert Weights(rules, gs) == Weights(rules, init) + [WeightOf(rules, last.entries)];
      TotalAppend(Weights(rules, init), WeightOf(rules, last.entries));
    }
  }

  lemma {:induction false} InlineBytesJoin(rules: TextRules, a: seq<Entry>, b: seq<Entry>)
    ensures InlineBytes(rules, a + b) == InlineBytes(rules, a) + InlineBytes(rules, b)
  {
    if b == [] {
      assert a + b == a;
    } else {
      assert (a + b)[..|a + b| - 1] == a + b[..|b| - 1];
      InlineBytesJoin(rules, a, b[..|b| - 1]);
    }
  }

  lemma {:induction false} GroupOf(fr: Frame, table: RowTable, lo: nat, n: nat, i: nat) returns (k: nat)
    requires TableFor(fr, table) && lo <= i < n <= |table| && table[i] != []
    ensures k < |Groups(fr, table, lo, n)| && Groups(fr, table, lo, n)[k].index == i
    decreases n
  {
    if i == n - 1 {
      k := |Groups(fr, table, lo, n)| - 1;
    } else {
      k := GroupOf(fr, table, lo, n - 1, i);
    }
  }

  lemma {:induction false} GroupIndexesIncrease(fr: Frame, table: RowTable, lo: nat, n: nat, j: nat, k: nat)
    requires TableFor(fr, table) && lo <= n <= |table| && j < k < |Groups(fr, table, lo, n)|
    ensures Groups(fr, table, lo, n)[j].index < Groups(fr, table, lo, n)[k].index
    decreases n
  {
    if k < |Groups(fr, table, lo, n - 1)| {
      GroupIndexesIncrease(fr, table, lo, n - 1, j, k);
    } else {
      GroupsInRange(fr, table, lo, n - 1);
      assert Groups(fr, table, lo, n)[j] == Groups(fr, table, lo, n - 1)[j];
    }
  }

  /** The kept entries are within both budgets, unless they are one message
      alone. */
  lemma CutWithinBudgets(rules: TextRules, fr: Frame, table: RowTable, lo: nat, hi: nat, maxRows: nat, maxBytes: nat)
    requires TableFor(fr, table) && lo < hi <= |table|
    ensures
      var start := CutStart(rules, fr, table, lo, hi, maxRows, maxBytes);
      var es := Entries(fr, table, start, hi);
      Within(WeightOf(rules, es), maxRows, maxBytes) || es == EntriesOf(fr, start, table[start]) || es == []
  {
    var gs := Groups(fr, table, lo, hi);
    if gs == [] {
      NoGroupsNoEntries(fr, table, lo, hi);
    } else {
      CutIsCut(Weights(rules, gs), maxRows, maxBytes);
      var c := Cut(Weights(rules, gs), maxRows, maxBytes);
      SuffixWeight(rules, fr, table, lo, hi, c);
      if c == |gs| - 1 {
        KeptGroupsFlatten(fr, table, lo, hi, c);
        assert gs[c..] == [gs[c]] && Flatten(gs[c..]) == gs[c].entries;
        GroupEntries(fr, table, lo, hi, c);
      }
    }
  }

  /** No earlier message of the window with rows could have been kept too. */
  lemma CutIsLongest(rules: TextRules, fr: Frame, table: RowTable, lo: nat, hi: nat, maxRows: nat, maxBytes: nat,
                     i: nat)
    requires TableFor(fr, table) && lo < hi <= |table|
    requires lo <= i < CutStart(rules, fr, table, lo, hi, maxRows, maxBytes) && table[i] != []
    ensures !Within(WeightOf(rules, Entries(fr, table, i, hi)), maxRows, maxBytes)
  {
    var gs := Groups(fr, table, lo, hi);
    var k := GroupOf(fr, table, lo, hi, i);
    CutIsCut(Weights(rules, gs), maxRows, maxBytes);
    var c := Cut(Weights(rules, gs), maxRows, maxBytes);
    if c < k {
      GroupIndexesIncrease(fr, table, lo, hi, c, k);
    }
    assert k < c && !Fits(Weights(rules, gs), k, maxRows, maxBytes);
    SuffixWeight(rules, fr, table, lo, hi, k);
  }

  lemma {:induction false} GroupEntries(fr: Frame, table: RowTable, lo: nat, n: nat, k: nat)
    requires TableFor(fr, table) && lo <= n <= |table| && k < |Groups(fr, table, lo, n)|
    ensures lo <= Groups(fr, table, lo, n)[k].index < n
    ensures Groups(fr, table, lo, n)[k].entries ==
        EntriesOf(fr, Groups(fr, table, lo, n)[k].index, table[Groups(fr, table, lo, n)[k].index])
    decreases n
  {
    if n > lo && k < |Groups(fr, table, lo, n - 1)| {
      GroupEntries(fr, table, lo, n - 1, k);
    }
  }

  lemma SuffixWeight(rules: TextRules, fr: Frame, table: RowTable, lo: nat, hi: nat, k: nat)
    requires TableFor(fr, table) && lo <= hi <= |table| && k < |Groups(fr, table, lo, hi)|
    ensures lo <= Groups(fr, table, lo, hi)[k].index < hi
    ensures WeightOf(rules, Entries(fr, table, Groups(fr, table, lo, hi)[k].index, hi))
         == Total(Weights(rules, Groups(fr, table, lo, hi))[k..])
  {
    var gs := Groups(fr, table, lo, hi);
    KeptGroupsFlatten(fr, table, lo, hi, k);
    FlattenedWeight(rules, gs[k..]);
    assert Weights(rules, gs[k..]) == Weights(rules, gs)[k..];
  }

  /** A window reaches back to the first message of the oldest turn wanted, or, where
      that is too large to read, to the oldest message from which it is not. */
  lemma WindowReachesBack(src: Source, turns: nat, hi: nat, i: nat)
    requires SourceValid(src) && turns >= 1 && 0 < hi <= |src.msgs| && i < CandidateLo(src, turns, hi)
    ensures src.turns[i] + turns <= src.turns[hi - 1] || OverCap(src, i, hi)
  {
    ShrunkOverCap(src, TurnLo(src, turns, hi), hi, i);
  }

  lemma {:induction false} ShrunkOverCap(src: Source, lo: nat, hi: nat, i: nat)
    requires lo < hi && i < Shrunk(src, lo, hi)
    ensures i >= lo ==> OverCap(src, i, hi)
    decreases hi - lo
  {
    if lo < i {
      ShrunkOverCap(src, lo + 1, hi, i);
    }
  }

  /** A page reaches back over at most the requested number of visible turns. */
  lemma PageStaysWithinTurns(ss: Session, req: Request)
    requires ss.Valid() && PageEnd(ss, req.cursor) > 0
    ensures forall e :: e in PageOf(ss, req).entries && e.turn > 0 ==>
              var newest := ss.src.turns[PageEnd(ss, req.cursor) - 1];
              e.turn <= newest && newest - e.turn < Normalized(req).turns
  {
    var page, hi := PageOf(ss, req), PageEnd(ss, req.cursor);
    if page.stale { return; }
    var lo := CandidateLo(ss.src, Normalized(req).turns, hi);
    var start := PageStart(ss, req, hi);
    var table := WindowTable(ss, lo, hi);
    hide WindowTable, PageStart;
    EntryOrderIncreases(FrameOf(ss.src), table, start, hi);
    forall e | e in page.entries && e.turn > 0
      ensures e.turn <= ss.src.turns[hi - 1] && ss.src.turns[hi - 1] - e.turn < Normalized(req).turns
    {
      assert lo <= start <= e.order < hi && e.turn == ss.src.turns[e.order];
    }
  }

  // ------------------------------------------------------- expired cursors

  /** An identity of another state: known where this one's revision is not or the other
      way round, of another digest, or of another known revision. */
  predicate OtherState(src: Source, revision: int, revKnown: bool, digest: string) {
    revKnown != src.revKnown || digest != src.digest || (revKnown && revision != src.revision)
  }

  /** A page is refused if and only if its request has a cursor of another state, and
      then it shows nothing and leads nowhere. */
  lemma StaleIff(ss: Session, req: Request)
    requires ss.Valid()
    ensures
      var page, c := PageOf(ss, req), req.cursor;
      && (page.stale <==> c.Some? && OtherState(ss.src, c.value.revision, c.value.revKnown, c.value.digest))
      && (page.stale ==> page.entries == [] && page.next.None? && !page.hasOlder && page.revision == ss.src.revision)
  {
  }

  /** Along a chain over a session that changes: whichever page issued it, a cursor is
      refused by the session as it is now if and only if the state has changed since in
      its revision or its digest. */
  lemma CursorExpiresIff(earlier: Session, now: Session, issuing: Request, req: Request)
    requires earlier.Valid() && now.Valid() && PageOf(earlier, issuing).next.Some?
    ensures
      PageOf(now, req.(cursor := PageOf(earlier, issuing).next)).stale <==>
        earlier.src.revKnown != now.src.revKnown || earlier.src.revision != now.src.revision
        || earlier.src.digest != now.src.digest
  {
    hide WindowTable, PageStart, CandidateLo, Entries, StartTurn, EndTurn;
    StaleIff(now, req.(cursor := PageOf(earlier, issuing).next));
  }

  // ---------------------------------------------------- content references

  /** historyFieldValueForSource: one message re-converted on its own to fetch
      the row a content reference names. */
  method RowForReference(ss: Session, msgIndex: int, sub: int, revision: int, revKnown: bool, digest: string)
    returns (r: Result<Option<Row>>)
    requires ss.Valid()
    ensures OtherState(ss.src, revision, revKnown, digest) || !(0 <= msgIndex < |ss.src.msgs|) ==> r == Ok(None)
    ensures AlwaysReadable(ss.src) ==> r.Ok?
    ensures r.Ok? && !OtherState(ss.src, revision, revKnown, digest) && 0 <= msgIndex < |ss.src.msgs| ==>
              var rows := WindowRows(ss, msgIndex, msgIndex + 1, msgIndex);
              r.value == if 0 <= sub < |rows| then Some(rows[sub]) else None
  {
    hide ConvertRows, ConvertState, Consumed, WindowLookups, LookAlike;
    if !IdentityMatches(ss.src, revision, revKnown, digest) || msgIndex < 0 || msgIndex >= |ss.src.msgs| {
      return Ok(None);
    }
    var msg := Fetch(ss.src, msgIndex, msgIndex + 1);
    if msg.Err? {
      return Err;
    }
    var look := ReadLookups(ss, msgIndex, msgIndex + 1);
    if look.Err? {
      return Err;
    }
    var state := new HistoryMessageConvertState(ss.rules, ss.planner);
    var primed := PrimeHistoryPlannerState(ss, state, msgIndex);
    if !primed {
      return Err;
    }
    RowsAlike(ss.rules, state.State(), msgIndex, msg.value[0], look.value, WindowLookups(ss, msgIndex, msgIndex + 1));
    var rows := state.ConvertHistoryMessage(ss.rules, msgIndex, msg.value[0], look.value);
    assert rows == WindowRows(ss, msgIndex, msgIndex + 1, msgIndex);
    r := Ok(if 0 <= sub < |rows| then Some(rows[sub]) else None);
  }

  /** A reference finds the rows the full conversion gives its message if and only if
      none of them is lost behind a steer row; this does not depend on how pages
      are cut. */
  lemma ReferenceResolvesIff(ss: Session, msgIndex: nat)
    requires msgIndex < |ss.src.msgs| && KeysTellSteersApart(ss.rules, ss.src.msgs) && LookupsExact(ss.src.msgs)
    requires ShownUsersAreAuthored(ss.rules, ss.src.msgs)
    ensures WindowRows(ss, msgIndex, msgIndex + 1, msgIndex) == FullRows(ss, msgIndex)
            <==> forall i :: 0 <= i < msgIndex ==> !LostRow(ss, i, msgIndex)
  {
    hide KeysTellSteersApart, LookupsExact, ShownUsersAreAuthored, LostRow, WindowRows, FullRows;
    WindowExactIff(ss, msgIndex, msgIndex + 1);
  }

  // ----------------------------------------------------- in-memory sources

  predicate VisibleUser(rules: TextRules, m: Message) {
    m.role == User && rules.steer(rules.userText(m)).None? && !rules.synthetic(rules.displayContent(m))
  }

  function VisibleTurns(rules: TextRules, msgs: seq<Message>, end: nat): nat
    requires end <= |msgs|
  {
    if end == 0 then 0 else VisibleTurns(rules, msgs, end - 1) + if VisibleUser(rules, msgs[end - 1]) then 1 else 0
  }

  lemma VisibleTurnsStep(rules: TextRules, msgs: seq<Message>, i: nat)
    requires i <= |msgs|
    ensures VisibleTurns(rules, msgs, 0) == 0
    ensures i < |msgs| ==>
              VisibleTurns(rules, msgs, i + 1)
                == VisibleTurns(rules, msgs, i) + if VisibleUser(rules, msgs[i]) then 1 else 0
  {
  }

  /** A turn begins with each user message that is neither a steer nor synthetic. */
  lemma TurnBeginsIff(rules: TextRules, msgs: seq<Message>, i: nat)
    requires i < |msgs|
    ensures
      var m := msgs[i];
      var begins := m.role == User && rules.steer(rules.userText(m)).None? && !rules.synthetic(rules.displayContent(m));
      VisibleTurns(rules, msgs, i + 1) == VisibleTurns(rules, msgs, i) + if begins then 1 else 0
  {
  }

  /** Where nothing hides it, a message is counted as a turn exactly if it is shown as a
      user's own bubble. */
  lemma UserRowsAreTurns(rules: TextRules, s: PlannerState, index: int, m: Message, look: Lookups)
    requires m.decisionReceipt.None? && !m.localOnly && !StaysHidden(rules, s, m)
    ensures
      var rows := ConvertRows(rules, s, index, m, look);
      VisibleUser(rules, m) <==> rows != [] && rows[0].role == "user" && m.role == User
  {
    ShowsWhat(rules, s, index, m, look);
    hide ConvertRows, ShowsCall, PresentBefore;
  }

  lemma {:induction false} VisibleTurnsGrow(rules: TextRules, msgs: seq<Message>, j: nat, k: nat)
    requires j <= k <= |msgs|
    ensures VisibleTurns(rules, msgs, j) <= VisibleTurns(rules, msgs, k)
  {
    if j < k {
      VisibleTurnsGrow(rules, msgs, j, k - 1);
    }
  }

  /** newInMemoryHistorySliceSource: classifying one snapshot. */
  method NewInMemoryHistorySliceSource(rules: TextRules, sessionId: string, msgs: seq<Message>, revision: int,
                                       revKnown: bool, digest: string, epoch: int)
    returns (src: Source)
    requires revKnown || revision == 0
    ensures SourceValid(src) && AlwaysReadable(src) && src.msgs == msgs && src.spanBytes.None?
    ensures src.sessionId == sessionId
    ensures src.revision == revision && src.revKnown == revKnown && src.digest == digest && src.epoch == epoch
    ensures forall i :: 0 <= i < |msgs| ==> src.turns[i] == VisibleTurns(rules, msgs, i + 1)
    ensures src.totalTurns == VisibleTurns(rules, msgs, |msgs|)
  {
    hide VisibleUser, VisibleTurns;
    var turns: seq<int>, roles: seq<Role>, turn := [], [], 0;
    assert VisibleTurns(rules, msgs, 0) == 0 by { VisibleTurnsStep(rules, msgs, 0); }
    for i := 0 to |msgs|
      invariant |turns| == |roles| == i && turn == VisibleTurns(rules, msgs, i)
      invariant forall j :: 0 <= j < i ==> roles[j] == msgs[j].role && turns[j] == VisibleTurns(rules, msgs, j + 1)
    {
      VisibleTurnsStep(rules, msgs, i);
      if VisibleUser(rules, msgs[i]) {
        turn := turn + 1;
      }
      turns, roles := turns + [turn], roles + [msgs[i].role];
    }
    forall j, k | 0 <= j <= k < |turns| ensures turns[j] <= turns[k] {
      VisibleTurnsGrow(rules, msgs, j + 1, k + 1);
    }
    src := Source(sessionId, msgs, turns, roles, turn, revision, revKnown, digest, epoch, None,
        (lo: nat, hi: nat) => true);
  }

  /** A log with turns as classified by its source, whose shown user rows are authored
      and carry no receipt, and no window of which is over the raw-span cap, is paged
      exactly whatever its steer rows and planner displays: windows of such a source
      begin with turns. A log in memory has no cap at all. */
  lemma UncappedPagesJoin(ss: Session, requests: nat -> Request)
    requires ss.Valid() && NoWindowOverCap(ss.src)
    requires forall i :: 0 <= i < |ss.src.msgs| ==> ss.src.turns[i] == VisibleTurns(ss.rules, ss.src.msgs, i + 1)
    requires ShownUsersAreAuthored(ss.rules, ss.src.msgs)
    requires forall m :: m in ss.src.msgs && VisibleUser(ss.rules, m) ==> m.decisionReceipt.None?
    requires KeysTellSteersApart(ss.rules, ss.src.msgs) && LookupsExact(ss.src.msgs)
    ensures RowsOf(Follow(ss, requests, 0, None)) == Concat(FullTable(ss))
  {
    hide KeysTellSteersApart, LookupsExact, NoLostRows, Follow, FullTable, VisibleTurns, Resets, NoWindowOverCap;
    forall k | 0 < k < |ss.src.msgs| && ss.src.turns[k] > ss.src.turns[k - 1] ensures Resets(ss.rules, ss.src.msgs[k]) {
      VisibleTurnsStep(ss.rules, ss.src.msgs, k);
      assert ss.src.msgs[k] in ss.src.msgs;
      VisibleResets(ss.rules, ss.src.msgs[k]);
    }
    ChainReproducesEveryRow(ss, requests);
  }

  lemma VisibleResets(rules: TextRules, m: Message)
    requires VisibleUser(rules, m) && m.decisionReceipt.None? && rules.authored(rules.userText(m))
    ensures Resets(rules, m)
  {
  }
}
