/** Cross-page lookups of the windowed history reader: tool results past the
    window's newer edge, and todo arguments streamed in bounded chunks
    (desktop/history_slice.go, desktop/app.go). */
module HistoryLookups {
  import opened Options
  import opened HistoryTypes
  import opened HistoryConvert

  const LOOKUP_CHUNK_MESSAGES: nat := 128

  /** The windowed read view over one session (historySliceSource). readable
      says which window reads succeed; spanBytes is the raw transcript span, absent
      for in-memory sources. */
  datatype Source = Source(
    sessionId: string,
    msgs: seq<Message>,
    turns: seq<int>,
    roles: seq<Role>,
    totalTurns: int,
    revision: int,
    revKnown: bool,
    digest: string,
    epoch: int,
    spanBytes: Option<(nat, nat) -> int>,
    readable: (nat, nat) -> bool)

  predicate SourceValid(src: Source) {
    && |src.turns| == |src.msgs| && |src.roles| == |src.msgs| && (src.revKnown || src.revision == 0)
    && (forall i :: 0 <= i < |src.msgs| ==> src.roles[i] == src.msgs[i].role)
    && (forall i :: 0 <= i < |src.turns| ==> src.turns[i] >= 0)
    && (forall i, j :: 0 <= i <= j < |src.turns| ==> src.turns[i] <= src.turns[j])
  }

  predicate AlwaysReadable(src: Source) {
    forall lo: nat, hi: nat | lo < hi <= |src.msgs| :: src.readable(lo, hi)
  }

  function Fetch(src: Source, lo: nat, hi: nat): Result<seq<Message>>
    requires lo <= hi <= |src.msgs|
  {
    if lo == hi || src.readable(lo, hi) then Ok(src.msgs[lo..hi]) else Err
  }

  function Min(a: int, b: int): int {
    if a <= b then a else b
  }

  // ---------------------------------------------------------- tool results

  predicate IsResult(m: Message, id: string) {
    m.role == Tool && m.toolCallId == id && id != ""
  }

  /** Index of the newest result for id in lo..hi, or -1. */
  function LastResult(msgs: seq<Message>, lo: nat, hi: nat, id: string): (r: int)
    requires lo <= hi <= |msgs|
    ensures r == -1 || (lo <= r < hi && IsResult(msgs[r], id))
    decreases hi
  {
    if hi == lo then -1
    else if IsResult(msgs[hi - 1], id) then hi - 1
    else LastResult(msgs, lo, hi - 1, id)
  }

  /** Index of the oldest result for id in lo..hi, or -1. */
  function FirstResult(msgs: seq<Message>, lo: nat, hi: nat, id: string): (r: int)
    requires lo <= hi <= |msgs|
    ensures r == -1 || (lo <= r < hi && IsResult(msgs[r], id))
    decreases hi
  {
    if hi == lo then -1
    else
      var r := FirstResult(msgs, lo, hi - 1, id);
      if r != -1 then r else if IsResult(msgs[hi - 1], id) then hi - 1 else -1
  }

  /** Content the page finds for a call: newest result inside the window,
      otherwise the first one past its newer edge. */
  function WindowIndex(msgs: seq<Message>, lo: nat, hi: nat, id: string): int
    requires lo <= hi <= |msgs|
  {
    var inside := LastResult(msgs, lo, hi, id);
    if inside != -1 then inside else FirstResult(msgs, hi, |msgs|, id)
  }

  function ContentAt(msgs: seq<Message>, index: int): string
    requires index < |msgs|
  {
    if index < 0 then "" else msgs[index].content
  }

  function WindowContent(msgs: seq<Message>, lo: nat, hi: nat, id: string): string
    requires lo <= hi <= |msgs|
  {
    ContentAt(msgs, WindowIndex(msgs, lo, hi, id))
  }

  function LogContent(msgs: seq<Message>, id: string): string {
    ContentAt(msgs, LastResult(msgs, 0, |msgs|, id))
  }

  /** Exactly when every window around the call at index i finds what a full
      conversion finds. It holds when an id has one result, after its call. */
  predicate LookupExactAt(msgs: seq<Message>, i: nat, id: string)
    requires i < |msgs|
  {
    && (LastResult(msgs, 0, i + 1, id) != -1 ==>
         ContentAt(msgs, LastResult(msgs, 0, i + 1, id)) == LogContent(msgs, id))
    && (forall k :: i <= k < |msgs| && IsResult(msgs[k], id) ==> msgs[k].content == LogContent(msgs, id))
    && (LastResult(msgs, i, |msgs|, id) == -1 ==> LogContent(msgs, id) == "")
  }

  lemma {:induction false} LastResultIsNewest(msgs: seq<Message>, lo: nat, hi: nat, id: string)
    requires lo <= hi <= |msgs|
    ensures forall k :: lo <= k < hi && LastResult(msgs, lo, hi, id) < k ==> !IsResult(msgs[k], id)
    decreases hi
  {
    if hi > lo {
      LastResultIsNewest(msgs, lo, hi - 1, id);
    }
  }

  lemma {:induction false} FirstResultIsOldest(msgs: seq<Message>, lo: nat, hi: nat, id: string)
    requires lo <= hi <= |msgs|
    ensures FirstResult(msgs, lo, hi, id) == -1 ==> forall k :: lo <= k < hi ==> !IsResult(msgs[k], id)
    decreases hi
  {
    if hi > lo {
      FirstResultIsOldest(msgs, lo, hi - 1, id);
    }
  }

  lemma LastResultIs(msgs: seq<Message>, lo: nat, hi: nat, id: string, r: nat)
    requires lo <= r < hi <= |msgs| && IsResult(msgs[r], id)
    requires forall k :: r < k < hi ==> !IsResult(msgs[k], id)
    ensures LastResult(msgs, lo, hi, id) == r
  {
    LastResultIsNewest(msgs, lo, hi, id);
  }

  lemma LookupExactIff(msgs: seq<Message>, i: nat, id: string)
    requires i < |msgs|
    ensures (forall lo: nat, hi: nat | lo <= i < hi <= |msgs| ::
        WindowContent(msgs, lo, hi, id) == LogContent(msgs, id))
            <==> LookupExactAt(msgs, i, id)
  {
    if LookupExactAt(msgs, i, id) {
      forall lo: nat, hi: nat | lo <= i < hi <= |msgs|
        ensures WindowContent(msgs, lo, hi, id) == LogContent(msgs, id)
      {
        var inside := LastResult(msgs, lo, hi, id);
        LastResultIsNewest(msgs, lo, hi, id);
        if inside != -1 && inside < i {
          LastResultIs(msgs, 0, i + 1, id, inside);
        }
        if inside == -1 && FirstResult(msgs, hi, |msgs|, id) == -1 {
          FirstResultIsOldest(msgs, hi, |msgs|, id);
          assert LastResult(msgs, i, |msgs|, id) == -1;
        }
      }
    }
    if forall lo: nat, hi: nat | lo <= i < hi <= |msgs| :: WindowContent(msgs, lo, hi, id) == LogContent(msgs, id) {
      var before := LastResult(msgs, 0, i + 1, id);
      if before != -1 {
        assert WindowContent(msgs, 0, i + 1, id) == ContentAt(msgs, before);
      }
      forall k | i <= k < |msgs| && IsResult(msgs[k], id) ensures msgs[k].content == LogContent(msgs, id) {
        LastResultIs(msgs, i, k + 1, id, k);
        assert WindowContent(msgs, i, k + 1, id) == msgs[k].content;
      }
      if LastResult(msgs, i, |msgs|, id) == -1 {
        LastResultIsNewest(msgs, i, |msgs|, id);
        assert LastResult(msgs, i, i + 1, id) == -1 && FirstResult(msgs, i + 1, |msgs|, id) == -1;
        assert WindowContent(msgs, i, i + 1, id) == "";
      }
    }
  }

  /** One result per call id, never before its call. */
  ghost predicate ResultsFollowCalls(msgs: seq<Message>) {
    && (forall i, j, id {:trigger IsResult(msgs[i], id), IsResult(msgs[j], id)} ::
          0 <= i < |msgs| && 0 <= j < |msgs| && IsResult(msgs[i], id) && IsResult(msgs[j], id) ==> i == j)
    && (forall i, j, tc {:trigger tc in msgs[i].toolCalls, IsResult(msgs[j], tc.id)} ::
          0 <= i < |msgs| && 0 <= j < |msgs| && tc in msgs[i].toolCalls && IsResult(msgs[j], tc.id) ==> i < j)
  }

  /** Every call of the log is looked up exactly. */
  ghost predicate LookupsExact(msgs: seq<Message>) {
    forall i, tc :: 0 <= i < |msgs| && tc in msgs[i].toolCalls ==> LookupExactAt(msgs, i, tc.id)
  }

  lemma OrdinaryLogsAreExact(msgs: seq<Message>)
    requires ResultsFollowCalls(msgs)
    ensures LookupsExact(msgs)
  {
    forall i, tc | 0 <= i < |msgs| && tc in msgs[i].toolCalls ensures LookupExactAt(msgs, i, tc.id) {
      var last := LastResult(msgs, 0, |msgs|, tc.id);
      LastResultIsNewest(msgs, 0, |msgs|, tc.id);
      if last != -1 {
        assert i < last;
        assert LastResult(msgs, 0, i + 1, tc.id) == -1;
        LastResultIs(msgs, i, |msgs|, tc.id, last);
      }
    }
  }

  /** historyToolResultsByID: the newest result of every id. */
  method HistoryToolResultsById(msgs: seq<Message>) returns (out: map<string, Message>)
    ensures forall id :: id in out <==> LastResult(msgs, 0, |msgs|, id) != -1
    ensures forall id :: id in out ==> out[id] == msgs[LastResult(msgs, 0, |msgs|, id)]
  {
    out := map[];
    for n := 0 to |msgs|
      invariant forall id :: id in out <==> LastResult(msgs, 0, n, id) != -1
      invariant forall id :: id in out ==> out[id] == msgs[LastResult(msgs, 0, n, id)]
    {
      if msgs[n].role != Tool || msgs[n].toolCallId == "" {
        continue;
      }
      out := out[msgs[n].toolCallId := msgs[n]];
    }
  }

  function CallIdsOf(calls: seq<ToolCall>): set<string> {
    set tc | tc in calls && tc.id != "" :: tc.id
  }

  function CallIds(msgs: seq<Message>): set<string> {
    if msgs == [] then {} else CallIds(msgs[..|msgs| - 1]) + CallIdsOf(msgs[|msgs| - 1].toolCalls)
  }

  lemma {:induction false} CallIdsHas(msgs: seq<Message>, k: nat, tc: ToolCall)
    requires k < |msgs| && tc in msgs[k].toolCalls && tc.id != ""
    ensures tc.id in CallIds(msgs)
  {
    if k < |msgs| - 1 {
      CallIdsHas(msgs[..|msgs| - 1], k, tc);
    }
  }

  lemma {:induction false} LastResultInWindow(msgs: seq<Message>, lo: nat, hi: nat, n: nat, id: string)
    requires lo <= hi <= |msgs| && n <= hi - lo
    ensures LastResult(msgs[lo..hi], 0, n, id) == -1 <==> LastResult(msgs, lo, lo + n, id) == -1
    ensures LastResult(msgs[lo..hi], 0, n, id) != -1 ==>
              LastResult(msgs[lo..hi], 0, n, id) + lo == LastResult(msgs, lo, lo + n, id)
  {
    if n > 0 {
      LastResultInWindow(msgs, lo, hi, n - 1, id);
      assert msgs[lo..hi][n - 1] == msgs[lo + n - 1];
    }
  }

  method WantedIds(window: seq<Message>, have: set<string>) returns (want: set<string>)
    ensures want == CallIds(window) - have
  {
    want := {};
    for n := 0 to |window|
      invariant want == CallIds(window[..n]) - have
    {
      var calls := window[n].toolCalls;
      for k := 0 to |calls|
        invariant want == (CallIds(window[..n]) + CallIdsOf(calls[..k])) - have
      {
        assert calls[..k + 1] == calls[..k] + [calls[k]];
        if calls[k].id != "" && calls[k].id !in have {
          want := want + {calls[k].id};
        }
      }
      assert calls[..|calls|] == calls;
      assert window[..n + 1][..n] == window[..n];
    }
    assert window[..|window|] == window;
  }

  /** extendHistoryToolResults: results of window calls found past the edge. */
  method ExtendHistoryToolResults(src: Source, window: seq<Message>, hi: nat, toolResults: map<string, Message>)
    returns (r: Result<map<string, Message>>)
    requires SourceValid(src) && hi <= |src.msgs|
    ensures AlwaysReadable(src) ==> r.Ok?
    ensures r.Ok? ==> r.value.Keys <= toolResults.Keys + CallIds(window)
    ensures r.Ok? ==> forall id :: id in toolResults ==> id in r.value && r.value[id] == toolResults[id]
    ensures r.Ok? ==> forall id :: id in CallIds(window) && id !in toolResults ==>
              var first := FirstResult(src.msgs, hi, |src.msgs|, id);
              (id in r.value <==> first != -1) && (id in r.value ==> r.value[id] == src.msgs[first])
  {
    hide FirstResult, CallIds, AlwaysReadable;
    var want := WantedIds(window, toolResults.Keys);
    ghost var wanted := want;
    FirstResultNone(src.msgs, hi);
    var out := toolResults;
    var i := hi;
    while i < |src.msgs| && want != {}
      invariant hi <= i <= |src.msgs|
      invariant want <= wanted && out.Keys <= toolResults.Keys + wanted
      invariant forall id :: id in toolResults ==> id in out && out[id] == toolResults[id]
      invariant forall id :: id in want ==> id !in out && FirstResult(src.msgs, hi, i, id) == -1
      invariant forall id :: id in wanted && id !in want ==>
                  id in out && FirstResult(src.msgs, hi, i, id) != -1
                    && out[id] == src.msgs[FirstResult(src.msgs, hi, i, id)]
    {
      FirstResultStep(src.msgs, hi, i);
      if src.roles[i] == Tool {
        var msgs := Fetch(src, i, i + 1);
        if msgs.Err? {
          Unreadable(src, i, i + 1);
          return Err;
        }
        var m := msgs.value[0];
        if m.toolCallId != "" && m.toolCallId in want {
          out := out[m.toolCallId := m];
          want := want - {m.toolCallId};
        }
      }
      i := i + 1;
    }
    forall id | id in wanted && id !in want
      ensures FirstResult(src.msgs, hi, |src.msgs|, id) == FirstResult(src.msgs, hi, i, id)
    {
      FirstResultStable(src.msgs, hi, i, |src.msgs|, id);
    }
    r := Ok(out);
  }

  lemma FirstResultNone(msgs: seq<Message>, lo: nat)
    requires lo <= |msgs|
    ensures forall id :: FirstResult(msgs, lo, lo, id) == -1
  {
  }

  lemma FirstResultStep(msgs: seq<Message>, lo: nat, i: nat)
    requires lo <= i < |msgs|
    ensures forall id :: FirstResult(msgs, lo, i + 1, id) ==
                         if FirstResult(msgs, lo, i, id) != -1 then FirstResult(msgs, lo, i, id)
                           else if IsResult(msgs[i], id) then i else -1
  {
  }

  lemma Unreadable(src: Source, lo: nat, hi: nat)
    requires lo < hi <= |src.msgs| && Fetch(src, lo, hi).Err?
    ensures !AlwaysReadable(src)
  {
  }

  lemma {:induction false} FirstResultStable(msgs: seq<Message>, lo: nat, mid: nat, hi: nat, id: string)
    requires lo <= mid <= hi <= |msgs| && FirstResult(msgs, lo, mid, id) != -1
    ensures FirstResult(msgs, lo, hi, id) == FirstResult(msgs, lo, mid, id)
    decreases hi
  {
    if hi > mid {
      FirstResultStable(msgs, lo, mid, hi - 1, id);
    }
  }

  /** The map a page converts with, restricted to the calls it shows. */
  function WindowResults(msgs: seq<Message>, lo: nat, hi: nat): map<string, Message>
    requires lo <= hi <= |msgs|
  {
    map id | id in CallIds(msgs[lo..hi]) && 0 <= WindowIndex(msgs, lo, hi, id) :: msgs[WindowIndex(msgs, lo, hi, id)]
  }

  function LogIds(msgs: seq<Message>): set<string> {
    set m | m in msgs :: m.toolCallId
  }

  /** The map a full conversion uses. */
  function LogResults(msgs: seq<Message>): map<string, Message> {
    map id | id in LogIds(msgs) && 0 <= LastResult(msgs, 0, |msgs|, id) :: msgs[LastResult(msgs, 0, |msgs|, id)]
  }

  lemma LogResultsContent(msgs: seq<Message>, id: string)
    ensures ResultContent(LogResults(msgs), id) == LogContent(msgs, id)
  {
    var last := LastResult(msgs, 0, |msgs|, id);
    if last != -1 {
      assert msgs[last] in msgs;
    }
  }

  /** The window lookup method: newest results inside, extended past the edge. */
  method WindowToolResults(src: Source, lo: nat, hi: nat) returns (r: Result<map<string, Message>>)
    requires SourceValid(src) && lo <= hi <= |src.msgs|
    ensures AlwaysReadable(src) ==> r.Ok?
    ensures r.Ok? ==> forall id :: id in CallIds(src.msgs[lo..hi]) ==>
              ResultContent(r.value, id) == WindowContent(src.msgs, lo, hi, id)
    ensures r.Ok? ==> ResultContent(r.value, "") == ""
  {
    var window := src.msgs[lo..hi];
    var inside := HistoryToolResultsById(window);
    forall id ensures id in inside <==> LastResult(src.msgs, lo, hi, id) != -1
              ensures id in inside ==> inside[id] == src.msgs[LastResult(src.msgs, lo, hi, id)]
    {
      LastResultInWindow(src.msgs, lo, hi, hi - lo, id);
    }
    r := ExtendHistoryToolResults(src, window, hi, inside);
  }
}
