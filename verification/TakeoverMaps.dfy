/** Explicit takeover of desktop sessions by chats (Takeover, Release,
    reclaimFromDesktop and DriveInput in desktop/bot_bridge.go). */
module TakeoverMaps {
  import opened Options

  datatype ChatType = Dm | Direct | Shared

  datatype Route = Route(platform: string, connectionId: string, domain: string, chatType: ChatType, chatId: string)
  {
    function Key(): string {
      platform + "|" + connectionId + "|" + domain + "|" + chatId
    }
  }

  datatype Session = Session(detached: bool, running: bool)

  /** Both directions of the binding: tab to driving route, route key to tab. */
  datatype Bindings = Bindings(byTab: map<string, Route>, byKey: map<string, string>)

  /** Each direction is the inverse of the other. */
  ghost predicate MutualInverse(b: Bindings) {
    && (forall tab :: tab in b.byTab ==> b.byTab[tab].Key() in b.byKey && b.byKey[b.byTab[tab].Key()] == tab)
    && (forall key :: key in b.byKey ==> b.byKey[key] in b.byTab && b.byTab[b.byKey[key]].Key() == key)
  }

  datatype Refusal = NotDirectChat | UnknownSession | DetachedSession | HeldByAnother

  function TakeoverRefusal(b: Bindings, route: Route, tab: string, session: Option<Session>): Option<Refusal> {
    if route.chatType != Dm then Some(NotDirectChat)
    else if session.None? then Some(UnknownSession)
    else if session.value.detached then Some(DetachedSession)
    else if tab in b.byTab && b.byTab[tab].Key() != route.Key() then Some(HeldByAnother)
    else None
  }

  function Bound(b: Bindings, route: Route, tab: string): Bindings {
    var key := route.Key();
    var freed := if key in b.byKey && b.byKey[key] != tab then b.byTab - {b.byKey[key]} else b.byTab;
    Bindings(freed[tab := route], b.byKey[key := tab])
  }

  function Released(b: Bindings, key: string): Bindings {
    if key in b.byKey then Bindings(b.byTab - {b.byKey[key]}, b.byKey - {key}) else b
  }

  function Reclaimed(b: Bindings, tab: string): Bindings {
    if tab in b.byTab then Bindings(b.byTab - {tab}, b.byKey - {b.byTab[tab].Key()}) else b
  }

  /** DriveInput's automatic release, with the tab it read in an earlier critical
      section. */
  function LateReleased(b: Bindings, key: string, tab: string): Bindings {
    Bindings(b.byTab - {tab}, b.byKey - {key})
  }

  class BotBridgeHub {
    var takeovers: map<string, Route>
    var takeoverTabs: map<string, string>

    function Current(): Bindings
      reads this
    {
      Bindings(takeovers, takeoverTabs)
    }

    constructor ()
      ensures Current() == Bindings(map[], map[]) && MutualInverse(Current())
    {
      takeovers, takeoverTabs := map[], map[];
    }

    /** Returns the refusal, or the tab whose takeover the switch dissolved. */
    method Takeover(route: Route, tab: string, session: Option<Session>)
      returns (refusal: Option<Refusal>, released: Option<string>)
      modifies this
      ensures refusal == TakeoverRefusal(old(Current()), route, tab, session)
      ensures refusal.None? <==>
                && route.chatType == Dm && session.Some? && !session.value.detached
                && !(tab in old(takeovers) && old(takeovers)[tab].Key() != route.Key())
      ensures refusal.None? ==> tab in takeovers && takeovers[tab] == route && DrivesOnly(Current(), route.Key(), tab)
      ensures refusal.Some? ==> Current() == old(Current())
      ensures refusal.None? ==> Current() == Bound(old(Current()), route, tab)
      ensures released.Some? <==>
          refusal.None? && route.Key() in old(takeoverTabs) && old(takeoverTabs)[route.Key()] != tab
      ensures released.Some? ==> released.value == old(takeoverTabs)[route.Key()]
      ensures old(MutualInverse(Current())) ==> MutualInverse(Current())
    {
      ghost var before := Current();
      released := None;
      if route.chatType != Dm {
        return Some(NotDirectChat), None;
      }
      if session.None? {
        return Some(UnknownSession), None;
      }
      if session.value.detached {
        return Some(DetachedSession), None;
      }
      if tab in takeovers && takeovers[tab].Key() != route.Key() {
        return Some(HeldByAnother), None;
      }
      if route.Key() in takeoverTabs && takeoverTabs[route.Key()] != tab {
        released := Some(takeoverTabs[route.Key()]);
        takeovers := takeovers - {takeoverTabs[route.Key()]};
      }
      takeovers := takeovers[tab := route];
      takeoverTabs := takeoverTabs[route.Key() := tab];
      refusal := None;
      if MutualInverse(before) {
        TakeoverKeepsInverse(before, route, tab, session);
      }
    }

    method Release(route: Route) returns (tab: Option<string>)
      modifies this
      ensures Current() == Released(old(Current()), route.Key())
      ensures tab == if route.Key() in old(takeoverTabs) then Some(old(takeoverTabs)[route.Key()]) else None
      ensures old(MutualInverse(Current())) ==> MutualInverse(Current())
    {
      if route.Key() !in takeoverTabs {
        return None;
      }
      tab := Some(takeoverTabs[route.Key()]);
      takeovers := takeovers - {tab.value};
      takeoverTabs := takeoverTabs - {route.Key()};
    }

    method ReclaimFromDesktop(tab: string) returns (driver: Option<Route>)
      modifies this
      ensures Current() == Reclaimed(old(Current()), tab)
      ensures driver == if tab in old(takeovers) then Some(old(takeovers)[tab]) else None
      ensures old(MutualInverse(Current())) ==> MutualInverse(Current()) && tab !in takeovers
    {
      if tab !in takeovers {
        return None;
      }
      driver := Some(takeovers[tab]);
      takeovers := takeovers - {tab};
      takeoverTabs := takeoverTabs - {driver.value.Key()};
    }

    /** The second critical section of DriveInput. */
    method DriveInputLateRelease(route: Route, tab: string, session: Option<Session>) returns (gone: bool)
      modifies this
      ensures gone == (session.None? || session.value.detached)
      ensures Current() == if gone then LateReleased(old(Current()), route.Key(), tab) else old(Current())
      ensures gone && old(MutualInverse(Current())) ==>
          (MutualInverse(Current()) <==> BindingSettled(old(Current()), route.Key(), tab))
    {
      ghost var before := Current();
      if MutualInverse(before) {
        LateReleaseKeepsInverseIff(before, route.Key(), tab);
      }
      gone := session.None? || session.value.detached;
      if gone {
        takeoverTabs := takeoverTabs - {route.Key()};
        takeovers := takeovers - {tab};
      }
    }
  }

  /** The chat drives this tab; the one it drove before is free. */
  ghost predicate DrivesOnly(b: Bindings, key: string, tab: string) {
    && key in b.byKey && b.byKey[key] == tab
    && (MutualInverse(b) ==> forall t :: t in b.byTab && b.byTab[t].Key() == key ==> t == tab)
  }

  /** Chats of one connection have keys of their own, whatever kind of chat they are. */
  lemma KeyTellsChats(a: Route, b: Route)
    requires a.platform == b.platform && a.connectionId == b.connectionId && a.domain == b.domain
    ensures a.Key() == b.Key() <==> a.chatId == b.chatId
  {
    var prefix := a.platform + "|" + a.connectionId + "|" + a.domain + "|";
    assert a.Key()[|prefix|..] == a.chatId && b.Key()[|prefix|..] == b.chatId;
  }

  /** A takeover is refused in four cases only, tested in this order. */
  lemma RefusedIff(b: Bindings, route: Route, tab: string, session: Option<Session>)
    ensures
      var held := tab in b.byTab && b.byTab[tab].Key() != route.Key();
      var refusal := TakeoverRefusal(b, route, tab, session);
      && (refusal == Some(NotDirectChat) <==> route.chatType != Dm)
      && (refusal == Some(UnknownSession) <==> route.chatType == Dm && session.None?)
      && (refusal == Some(DetachedSession) <==> route.chatType == Dm && session.Some? && session.value.detached)
      && (refusal == Some(HeldByAnother) <==>
            route.chatType == Dm && session.Some? && !session.value.detached && held)
      && (refusal.None? <==> route.chatType == Dm && session.Some? && !session.value.detached && !held)
  {
  }

  /** Whatever is done to the hub, in any order: only direct chats ever drive a tab. */
  lemma {:induction false} OnlyDirectChatsDrive(ops: seq<Op>, tab: string)
    ensures tab in ApplyAll(ops).byTab ==> ApplyAll(ops).byTab[tab].chatType == Dm
  {
    if ops != [] {
      OnlyDirectChatsDrive(ops[..|ops| - 1], tab);
    }
  }

  // -------------------------------------------------------- mutual inverses

  /** A takeover touches no other chat and gives no other tab a driver. */
  lemma BoundTouchesOne(b: Bindings, route: Route, tab: string)
    ensures forall key :: key != route.Key() ==> (key in Bound(b, route, tab).byKey <==> key in b.byKey)
    ensures forall key :: key != route.Key() && key in b.byKey ==> Bound(b, route, tab).byKey[key] == b.byKey[key]
    ensures forall t :: t in Bound(b, route, tab).byTab && t != tab ==>
        t in b.byTab && Bound(b, route, tab).byTab[t] == b.byTab[t]
  {
  }

  /** A chat switching tabs keeps both maps inverse. */
  lemma TakeoverKeepsInverse(b: Bindings, route: Route, tab: string, session: Option<Session>)
    requires MutualInverse(b) && TakeoverRefusal(b, route, tab, session).None?
    ensures MutualInverse(Bound(b, route, tab))
  {
    BoundTouchesOne(b, route, tab);
    var c := Bound(b, route, tab);
    forall t | t in c.byTab && t != tab ensures c.byTab[t].Key() != route.Key() {
      assert t in b.byTab && b.byKey[b.byTab[t].Key()] == t;
    }
  }

  lemma ReleaseKeepsInverse(b: Bindings, key: string)
    requires MutualInverse(b)
    ensures MutualInverse(Released(b, key))
  {
  }

  lemma ReclaimKeepsInverse(b: Bindings, tab: string)
    requires MutualInverse(b)
    ensures MutualInverse(Reclaimed(b, tab)) && tab !in Reclaimed(b, tab).byTab
    ensures forall key :: key in Reclaimed(b, tab).byKey ==> Reclaimed(b, tab).byKey[key] != tab
  {
  }

  /** What the binding read earlier must still be when the release happens. */
  predicate BindingSettled(b: Bindings, key: string, tab: string) {
    (key in b.byKey && b.byKey[key] == tab) || (key !in b.byKey && tab !in b.byTab)
  }

  /** The automatic release keeps the maps inverse exactly when the binding it
      read is still current or already released on both sides. */
  lemma LateReleaseKeepsInverseIff(b: Bindings, key: string, tab: string)
    requires MutualInverse(b)
    ensures MutualInverse(LateReleased(b, key, tab)) <==> BindingSettled(b, key, tab)
  {
    var c := LateReleased(b, key, tab);
    if !BindingSettled(b, key, tab) {
      if key in b.byKey {
        var other := b.byKey[key];
        assert other in c.byTab && c.byTab[other].Key() == key && key !in c.byKey;
      } else {
        var holder := b.byTab[tab].Key();
        assert holder in c.byKey && c.byKey[holder] == tab && tab !in c.byTab;
      }
    }
  }

  datatype Op =
    | DoTakeover(route: Route, tab: string, session: Option<Session>)
    | DoRelease(route: Route)
    | DoReclaim(tab: string)
    | DoLateRelease(route: Route, tab: string)

  function Apply(b: Bindings, op: Op): Bindings {
    match op
    case DoTakeover(route, tab, session) =>
      if TakeoverRefusal(b, route, tab, session).None? then Bound(b, route, tab) else b
    case DoRelease(route) => Released(b, route.Key())
    case DoReclaim(tab) => Reclaimed(b, tab)
    case DoLateRelease(route, tab) => LateReleased(b, route.Key(), tab)
  }

  function ApplyAll(ops: seq<Op>): Bindings {
    if ops == [] then Bindings(map[], map[]) else Apply(ApplyAll(ops[..|ops| - 1]), ops[|ops| - 1])
  }

  /** Every late release in the run found its binding settled. */
  ghost predicate LateReleasesSettled(ops: seq<Op>) {
    forall k :: 0 <= k < |ops| && ops[k].DoLateRelease? ==>
      BindingSettled(ApplyAll(ops[..k]), ops[k].route.Key(), ops[k].tab)
  }

  /** Up to its first unsettled late release every run keeps the maps inverse. */
  lemma {:induction false} RunsKeepInverse(ops: seq<Op>)
    requires LateReleasesSettled(ops)
    ensures MutualInverse(ApplyAll(ops))
  {
    if ops != [] {
      var init, b := ops[..|ops| - 1], ApplyAll(ops[..|ops| - 1]);
      assert forall k :: 0 <= k < |init| ==> init[..k] == ops[..k];
      RunsKeepInverse(init);
      match ops[|ops| - 1] {
        case DoTakeover(route, tab, session) =>
          if TakeoverRefusal(b, route, tab, session).None? {
            TakeoverKeepsInverse(b, route, tab, session);
          }
        case DoRelease(route) => ReleaseKeepsInverse(b, route.Key());
        case DoReclaim(tab) => ReclaimKeepsInverse(b, tab);
        case DoLateRelease(route, tab) => LateReleaseKeepsInverseIff(b, route.Key(), tab);
      }
    }
  }

  /** The unsettled family, from the empty hub: a chat reads its tab, the desktop
      reclaims it and a second chat takes it over before the first chat's release
      runs. The second chat then drives a tab the desktop no longer sees as taken
      and cannot reclaim. */
  lemma StaleReleaseStrandsTheNextDriver(first: Route, second: Route, tab: string)
    requires first.chatType == Dm && second.chatType == Dm && first.Key() != second.Key()
    ensures
      var open := Some(Session(false, false));
      var ops :=
        [DoTakeover(first, tab, open), DoReclaim(tab), DoTakeover(second, tab, open), DoLateRelease(first, tab)];
      var b := ApplyAll(ops);
      && !MutualInverse(b)
      && second.Key() in b.byKey && b.byKey[second.Key()] == tab
      && tab !in b.byTab && Reclaimed(b, tab) == b
  {
    var open := Some(Session(false, false));
    var ops := [DoTakeover(first, tab, open), DoReclaim(tab), DoTakeover(second, tab, open), DoLateRelease(first, tab)];
    assert ops[..3][..2] == ops[..2] && ops[..2][..1] == ops[..1] && ops[..1][..0] == [];
    assert ApplyAll(ops[..1]) == Bindings(map[tab := first], map[first.Key() := tab]);
    assert ApplyAll(ops[..2]) == Bindings(map[], map[]);
    assert ApplyAll(ops[..3]) == Bindings(map[tab := second], map[second.Key() := tab]);
    var b := ApplyAll(ops);
    assert b == Bindings(map[], map[second.Key() := tab]);
    assert second.Key() in b.byKey;
  }
}
