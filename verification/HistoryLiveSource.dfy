/** Turn classification of a live session (liveHistorySliceSource in
    desktop/history_slice.go): the persisted part is read off the display index, the
    unsaved tail is classified on the spot. */
module HistoryLiveSource {
  import opened Options
  import opened HistoryTypes
  import opened HistoryLookups
  import opened HistoryTheorems

  datatype IndexEntry = IndexEntry(authoredTurn: int, role: Role)

  datatype DisplayIndex = DisplayIndex(
    entries: seq<IndexEntry>,
    authoredTurns: int,
    revisionKnown: bool,
    revision: int,
    digest: string)

  datatype PersistedState = PersistedState(
    revision: int,
    revisionKnown: bool,
    digest: string,
    epoch: int,
    appendOnlyTail: bool)

  const NEVER_PERSISTED := PersistedState(0, false, "", 0, false)

  /** The index describes a saved prefix of this very log. */
  predicate Usable(index: DisplayIndex, ps: PersistedState, total: nat) {
    && ps.appendOnlyTail && total > 0 && |index.entries| <= total
    && index.revisionKnown == ps.revisionKnown && (ps.revisionKnown ==> index.revision == ps.revision)
    && index.digest == ps.digest
  }

  /** What the index should say of the messages it covers. */
  predicate IndexAgrees(rules: TextRules, index: DisplayIndex, msgs: seq<Message>)
    requires |index.entries| <= |msgs|
  {
    && index.authoredTurns == VisibleTurns(rules, msgs, |index.entries|)
    && forall i :: 0 <= i < |index.entries| ==>
        index.entries[i] == IndexEntry(VisibleTurns(rules, msgs, i + 1), msgs[i].role)
  }

  /** Turns of message i: from the index, or counted on from its last turn. */
  function LiveTurn(rules: TextRules, index: DisplayIndex, msgs: seq<Message>, i: nat): int
    requires i < |msgs| && |index.entries| <= |msgs|
  {
    if i < |index.entries| then index.entries[i].authoredTurn
    else index.authoredTurns + VisibleTurns(rules, msgs, i + 1) - VisibleTurns(rules, msgs, |index.entries|)
  }

  /** The last turn after the tail was counted. */
  function LiveTotal(rules: TextRules, index: DisplayIndex, msgs: seq<Message>): int
    requires |index.entries| <= |msgs|
  {
    index.authoredTurns + VisibleTurns(rules, msgs, |msgs|) - VisibleTurns(rules, msgs, |index.entries|)
  }

  method LiveHistorySliceSource(rules: TextRules, sessionId: string, msgs: seq<Message>, ps: Option<PersistedState>,
                                index: Option<DisplayIndex>)
    returns (src: Source, fromIndex: bool)
    requires ps.Some? ==> ps.value.revisionKnown || ps.value.revision == 0
    ensures fromIndex <==>
              && ps.Some? && index.Some? && ps.value.appendOnlyTail && |msgs| > 0
              && |index.value.entries| <= |msgs|
              && index.value.revisionKnown == ps.value.revisionKnown && index.value.digest == ps.value.digest
              && (ps.value.revisionKnown ==> index.value.revision == ps.value.revision)
    ensures src.msgs == msgs && AlwaysReadable(src) && |src.turns| == |src.roles| == |msgs|
    ensures
      var state := if ps.Some? then ps.value else NEVER_PERSISTED;
      && src.revision == state.revision && src.revKnown == state.revisionKnown
      && src.digest == state.digest && src.epoch == state.epoch
    ensures forall i :: 0 <= i < |msgs| ==>
              src.turns[i] ==
                if fromIndex then LiveTurn(rules, index.value, msgs, i) else VisibleTurns(rules, msgs, i + 1)
    ensures forall i :: 0 <= i < |msgs| ==>
              src.roles[i] == if fromIndex then LiveRole(index.value, msgs, i) else msgs[i].role
    ensures src.totalTurns ==
              if fromIndex then LiveTotal(rules, index.value, msgs) else VisibleTurns(rules, msgs, |msgs|)
  {
    if ps.None? || index.None? || !Usable(index.value, ps.value, |msgs|) {
      var state := if ps.Some? then ps.value else NEVER_PERSISTED;
      src := NewInMemoryHistorySliceSource(rules, sessionId, msgs, state.revision, state.revisionKnown, state.digest,
                                           state.epoch);
      return src, false;
    }
    hide VisibleTurns;
    var idx := index.value;
    var turns: seq<int>, roles: seq<Role> := [], [];
    for i := 0 to |idx.entries|
      invariant |turns| == |roles| == i
      invariant forall k :: 0 <= k < i ==> turns[k] == idx.entries[k].authoredTurn && roles[k] == idx.entries[k].role
    {
      turns, roles := turns + [idx.entries[i].authoredTurn], roles + [idx.entries[i].role];
    }
    var total: int;
    turns, roles, total := CountTail(rules, idx, msgs, turns, roles);
    src := Source(sessionId, msgs, turns, roles, total, ps.value.revision, ps.value.revisionKnown, ps.value.digest,
                  ps.value.epoch, None, (lo: nat, hi: nat) => true);
    fromIndex := true;
  }

  /** The role of message i: from the index, or its own. */
  function LiveRole(index: DisplayIndex, msgs: seq<Message>, i: nat): Role
    requires i < |msgs|
  {
    if i < |index.entries| then index.entries[i].role else msgs[i].role
  }

  /** The loop over the unsaved tail. */
  method CountTail(rules: TextRules, index: DisplayIndex, msgs: seq<Message>, saved: seq<int>, savedRoles: seq<Role>)
    returns (turns: seq<int>, roles: seq<Role>, turn: int)
    requires |saved| == |savedRoles| == |index.entries| <= |msgs|
    requires forall k :: 0 <= k < |saved| ==>
               saved[k] == index.entries[k].authoredTurn && savedRoles[k] == index.entries[k].role
    ensures |turns| == |roles| == |msgs| && turn == LiveTotal(rules, index, msgs)
    ensures forall k :: 0 <= k < |msgs| ==> turns[k] == LiveTurn(rules, index, msgs, k)
    ensures forall k :: 0 <= k < |msgs| ==> roles[k] == LiveRole(index, msgs, k)
  {
    hide VisibleTurns, VisibleUser;
    turns, roles, turn := saved, savedRoles, index.authoredTurns;
    for j := |index.entries| to |msgs|
      invariant |turns| == |roles| == j
      invariant turn == index.authoredTurns + VisibleTurns(rules, msgs, j) - VisibleTurns(rules, msgs, |index.entries|)
      invariant forall k :: 0 <= k < j ==> turns[k] == LiveTurn(rules, index, msgs, k)
      invariant forall k :: 0 <= k < j ==> roles[k] == LiveRole(index, msgs, k)
    {
      VisibleTurnsStep(rules, msgs, j);
      if VisibleUser(rules, msgs[j]) {
        turn := turn + 1;
      }
      turns, roles := turns + [turn], roles + [msgs[j].role];
    }
  }

  /** Every message gets the turn and the role the slow classification gives it. */
  predicate ClassifiesAlike(rules: TextRules, index: DisplayIndex, msgs: seq<Message>)
    requires |index.entries| <= |msgs|
  {
    && (forall i :: 0 <= i < |msgs| ==> LiveTurn(rules, index, msgs, i) == VisibleTurns(rules, msgs, i + 1))
    && (forall i :: 0 <= i < |index.entries| ==> index.entries[i].role == msgs[i].role)
  }

  /** The fast classification is the slow one, turns, roles and total, if and only if the
      index agrees with it on the messages it covers: the tail then counts on exactly.
      Only for a log without unsaved messages does the total say anything that the turns
      do not. */
  lemma IndexedIsFullIff(rules: TextRules, index: DisplayIndex, msgs: seq<Message>)
    requires |index.entries| <= |msgs|
    ensures
      ClassifiesAlike(rules, index, msgs) && LiveTotal(rules, index, msgs) == VisibleTurns(rules, msgs, |msgs|)
      <==> IndexAgrees(rules, index, msgs)
    ensures |index.entries| < |msgs| ==> (ClassifiesAlike(rules, index, msgs) <==> IndexAgrees(rules, index, msgs))
  {
    hide VisibleTurns;
    var n := |index.entries|;
    if ClassifiesAlike(rules, index, msgs) {
      if n < |msgs| {
        assert LiveTurn(rules, index, msgs, n) == VisibleTurns(rules, msgs, n + 1);
      }
      forall i | 0 <= i < n ensures index.entries[i].authoredTurn == VisibleTurns(rules, msgs, i + 1) {
        assert LiveTurn(rules, index, msgs, i) == VisibleTurns(rules, msgs, i + 1);
      }
    }
  }

  predicate Ascending(turns: seq<int>) {
    forall i, j :: 0 <= i <= j < |turns| ==> turns[i] <= turns[j]
  }

  function LiveTurns(rules: TextRules, index: DisplayIndex, msgs: seq<Message>): (turns: seq<int>)
    requires |index.entries| <= |msgs|
    ensures |turns| == |msgs| && forall i :: 0 <= i < |msgs| ==> turns[i] == LiveTurn(rules, index, msgs, i)
  {
    seq(|msgs|, i requires 0 <= i < |msgs| => LiveTurn(rules, index, msgs, i))
  }

  function SavedTurns(index: DisplayIndex): (turns: seq<int>)
    ensures |turns| == |index.entries| && forall i :: 0 <= i < |turns| ==> turns[i] == index.entries[i].authoredTurn
  {
    seq(|index.entries|, i requires 0 <= i < |index.entries| => index.entries[i].authoredTurn)
  }

  /** Paging needs turns that do not decrease. The live source has them if and only
      if the index does, without rising above the turn of the first unsaved message. */
  lemma LiveTurnsAscendIff(rules: TextRules, index: DisplayIndex, msgs: seq<Message>)
    requires |index.entries| <= |msgs|
    ensures
      var n := |index.entries|;
      Ascending(LiveTurns(rules, index, msgs)) <==>
      && Ascending(SavedTurns(index))
      && (n < |msgs| ==> forall i :: 0 <= i < n ==> index.entries[i].authoredTurn <= LiveTurn(rules, index, msgs, n))
  {
    hide VisibleTurns;
    var n := |index.entries|;
    var live, saved := LiveTurns(rules, index, msgs), SavedTurns(index);
    assert forall i :: 0 <= i < n ==> live[i] == saved[i];
    forall i, j | n <= i <= j < |msgs| ensures live[i] <= live[j] {
      VisibleTurnsGrow(rules, msgs, i + 1, j + 1);
    }
    if Ascending(live) && n < |msgs| {
      assert forall i :: 0 <= i < n ==> live[i] <= live[n];
    }
    if
      && Ascending(saved) && n < |msgs|
      && forall i :: 0 <= i < n ==> index.entries[i].authoredTurn <= LiveTurn(rules, index, msgs, n)
    {
      forall i, j | 0 <= i < n <= j < |msgs| ensures live[i] <= live[j] {
        assert live[n] <= live[j];
      }
    }
  }
}
