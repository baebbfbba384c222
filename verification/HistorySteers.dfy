/** When a primed window shows the rows of the full conversion. Priming takes a
    planner display at a steer row, conversion does not (desktop/app.go); a display
    of a cancelled turn then holds back, in a window that starts later, what the full
    conversion shows until the next authored user turn. */
module HistorySteers {
  import opened Options
  import opened HistoryTypes
  import opened HistoryConvert
  import opened HistoryLookups
  import opened HistoryTodos
  import opened HistoryPaging

  predicate IsSteer(rules: TextRules, m: Message) {
    rules.steer(rules.userText(m)).Some?
  }

  function KeyOf(rules: TextRules, m: Message): string {
    rules.displayKey(rules.userText(m))
  }

  /** The key is a digest of the text the steer test reads, so no steer shares its
      key with a message that is none. */
  predicate KeysTellSteersApart(rules: TextRules, msgs: seq<Message>) {
    forall a, b :: a in msgs && b in msgs && IsSteer(rules, a) && !IsSteer(rules, b) ==>
      KeyOf(rules, a) != KeyOf(rules, b)
  }

  /** Held back while a cancelled planner turn suppresses the canonical one. */
  predicate HeldBack(rules: TextRules, m: Message) {
    GateOf(rules, true, m).Held?
  }

  /** Ends the suppression: an authored user turn. */
  predicate Resets(rules: TextRules, m: Message) {
    var gate := GateOf(rules, true, m);
    gate.SteerNotice? || gate.Hidden? || gate.Shown?
  }

  /** The priming pass takes a display of a cancelled turn at this steer row. */
  predicate PopsSuppression(ss: Session, i: nat)
    requires i < |ss.src.msgs|
  {
    var (s, m) := (Consumed(ss.rules, ss.src.msgs, ss.Initial(), i), ss.src.msgs[i]);
    && GateOf(ss.rules, s.suppress, m).SteerNotice? && !ss.rules.synthetic(ss.rules.displayContent(m))
    && Queued(s, KeyOf(ss.rules, m)) && Suppresses(s.queues[KeyOf(ss.rules, m)][0])
  }

  /** No authored user turn from lo up to, not including, hi. */
  predicate NoReset(ss: Session, lo: nat, hi: nat)
    requires hi <= |ss.src.msgs|
  {
    forall k :: lo <= k < hi ==> !Resets(ss.rules, ss.src.msgs[k])
  }

  /** Message j has rows, is held back while suppressed, and follows, before any
      authored user turn, a steer row at which priming takes a suppressing display. */
  predicate LostRow(ss: Session, i: nat, j: nat)
    requires i < j < |ss.src.msgs|
  {
    PopsSuppression(ss, i) && NoReset(ss, i + 1, j) && HeldBack(ss.rules, ss.src.msgs[j]) && FullRows(ss, j) != []
  }

  predicate NoLostRows(ss: Session) {
    forall i, j :: 0 <= i < j < |ss.src.msgs| ==> !LostRow(ss, i, j)
  }

  /** No row is lost to the window lo..hi. */
  predicate NoLostRowsIn(ss: Session, lo: nat, hi: nat)
    requires hi <= |ss.src.msgs|
  {
    forall i, j :: 0 <= i < lo <= j < hi ==> !LostRow(ss, i, j)
  }

  /** The window lo..hi shows the rows of the full conversion. */
  predicate WindowExact(ss: Session, lo: nat, hi: nat)
    requires hi <= |ss.src.msgs|
  {
    forall k :: lo <= k < hi ==> WindowRows(ss, lo, hi, k) == FullRows(ss, k)
  }

  // --------------------------------------------------- related hidden states

  function QueueAt(s: PlannerState, key: string): seq<PlannerDisplayTurn> {
    if key in s.queues then s.queues[key] else []
  }

  /** Displays are recorded with rows. */
  predicate NoEmptyDisplays(s: PlannerState) {
    forall key :: key in s.queues ==> forall d :: d in s.queues[key] ==> d.messages != []
  }

  /** Queues that messages other than steers cannot tell apart. */
  ghost predicate SameQueues(rules: TextRules, msgs: seq<Message>, p: PlannerState, c: PlannerState) {
    forall m :: m in msgs && !IsSteer(rules, m) ==> QueueAt(p, KeyOf(rules, m)) == QueueAt(c, KeyOf(rules, m))
  }

  /** A suppressing display taken before lo still holds back message n. */
  ghost predicate Masked(ss: Session, lo: nat, n: nat)
    requires lo <= n <= |ss.src.msgs|
  {
    exists i :: 0 <= i < lo && PopsSuppression(ss, i) && NoReset(ss, i + 1, n)
  }

  /** The state of a primed window against that of the full conversion. */
  ghost predicate Related(ss: Session, p: PlannerState, c: PlannerState, lo: nat, n: nat)
    requires lo <= n <= |ss.src.msgs|
  {
    && SameQueues(ss.rules, ss.src.msgs, p, c) && NoEmptyDisplays(c)
    && (p.suppress == c.suppress || (p.suppress && !c.suppress && Masked(ss, lo, n)))
  }

  /** Taking the head of one queue on both sides, or of a steer's on one side. */
  lemma AttachBoth(rules: TextRules, msgs: seq<Message>, p: PlannerState, c: PlannerState, m: Message)
    requires SameQueues(rules, msgs, p, c) && NoEmptyDisplays(c) && m in msgs && !IsSteer(rules, m)
    requires p.suppress == c.suppress
    ensures
      var (p', c') := (Attach(p, KeyOf(rules, m)), Attach(c, KeyOf(rules, m)));
      SameQueues(rules, msgs, p', c') && NoEmptyDisplays(c') && p'.suppress == c'.suppress
  {
    var key := KeyOf(rules, m);
    assert QueueAt(p, key) == QueueAt(c, key);
    var (p', c') := (Attach(p, key), Attach(c, key));
    forall o | o in msgs && !IsSteer(rules, o) ensures QueueAt(p', KeyOf(rules, o)) == QueueAt(c', KeyOf(rules, o)) {
      assert QueueAt(p, KeyOf(rules, o)) == QueueAt(c, KeyOf(rules, o));
    }
    AttachKeepsDisplays(c, key);
    hide Suppresses;
  }

  lemma AttachKeepsDisplays(c: PlannerState, key: string)
    requires NoEmptyDisplays(c)
    ensures NoEmptyDisplays(Attach(c, key))
  {
    hide Suppresses;
  }

  lemma AttachSteer(rules: TextRules, msgs: seq<Message>, p: PlannerState, c: PlannerState, m: Message)
    requires KeysTellSteersApart(rules, msgs) && SameQueues(rules, msgs, p, c) && m in msgs && IsSteer(rules, m)
    ensures SameQueues(rules, msgs, Attach(p, KeyOf(rules, m)), c)
  {
    hide Suppresses;
    var p' := Attach(p, KeyOf(rules, m));
    forall o | o in msgs && !IsSteer(rules, o) ensures QueueAt(p', KeyOf(rules, o)) == QueueAt(c, KeyOf(rules, o)) {
      assert KeyOf(rules, o) != KeyOf(rules, m);
    }
  }

  // ------------------------------------------------------------ one message

  /** A message not held back on either side: priming against converting. */
  lemma OpenPrime(ss: Session, c: PlannerState, n: nat)
    requires n < |ss.src.msgs| && KeysTellSteersApart(ss.rules, ss.src.msgs)
    requires
      var (p, m) := (Consumed(ss.rules, ss.src.msgs, ss.Initial(), n), ss.src.msgs[n]);
      && SameQueues(ss.rules, ss.src.msgs, p, c) && NoEmptyDisplays(c)
      && GateOf(ss.rules, p.suppress, m) == GateOf(ss.rules, c.suppress, m)
      && (var gate := GateOf(ss.rules, c.suppress, m);
          gate.SteerNotice? || gate.Hidden? || gate.Shown?)
    ensures
      var (p, m) := (Consumed(ss.rules, ss.src.msgs, ss.Initial(), n), ss.src.msgs[n]);
      Related(ss, ConsumeState(ss.rules, p, m), ConvertState(ss.rules, c, m), n + 1, n + 1)
  {
    hide Consumed, KeysTellSteersApart, SameQueues, NoEmptyDisplays, Attach, Suppresses;
    var (p, m) := (Consumed(ss.rules, ss.src.msgs, ss.Initial(), n), ss.src.msgs[n]);
    var (p0, c0) := (p.(suppress := false), c.(suppress := false));
    FlagsAside(ss, p, c);
    if m.role == User && IsSteer(ss.rules, m) {
      AttachSteer(ss.rules, ss.src.msgs, p0, c0, m);
      if !ss.rules.synthetic(ss.rules.displayContent(m)) {
        SteerPops(ss, n);
      }
    } else if m.role == User && !ss.rules.synthetic(ss.rules.displayContent(m)) {
      AttachBoth(ss.rules, ss.src.msgs, p0, c0, m);
    }
  }

  lemma FlagsAside(ss: Session, p: PlannerState, c: PlannerState)
    requires SameQueues(ss.rules, ss.src.msgs, p, c) && NoEmptyDisplays(c)
    ensures SameQueues(ss.rules, ss.src.msgs, p.(suppress := false), c.(suppress := false))
    ensures NoEmptyDisplays(c.(suppress := false))
    ensures SameQueues(ss.rules, ss.src.msgs, p, c.(suppress := false))
  {
  }

  /** If taking a steer's display arms the suppression, this row is the witness. */
  lemma SteerPops(ss: Session, n: nat)
    requires n < |ss.src.msgs|
    requires
      var (p, m) := (Consumed(ss.rules, ss.src.msgs, ss.Initial(), n), ss.src.msgs[n]);
      GateOf(ss.rules, p.suppress, m).SteerNotice? && !ss.rules.synthetic(ss.rules.displayContent(m))
    ensures
      var (p, m) := (Consumed(ss.rules, ss.src.msgs, ss.Initial(), n), ss.src.msgs[n]);
      Attach(p.(suppress := false), KeyOf(ss.rules, m)).suppress ==> Masked(ss, n + 1, n + 1)
  {
    hide Consumed, Suppresses;
    var (p, m) := (Consumed(ss.rules, ss.src.msgs, ss.Initial(), n), ss.src.msgs[n]);
    if Attach(p.(suppress := false), KeyOf(ss.rules, m)).suppress {
      assert PopsSuppression(ss, n) && NoReset(ss, n + 1, n + 1);
    }
  }

  lemma MaskedOn(ss: Session, lo: nat, n: nat)
    requires lo <= n < |ss.src.msgs| && Masked(ss, lo, n) && !Resets(ss.rules, ss.src.msgs[n])
    ensures Masked(ss, lo, n + 1)
  {
    var i :| 0 <= i < lo && PopsSuppression(ss, i) && NoReset(ss, i + 1, n);
    assert NoReset(ss, i + 1, n + 1);
  }

  lemma MaskedLater(ss: Session, n: nat)
    requires n < |ss.src.msgs| && Masked(ss, n, n + 1)
    ensures Masked(ss, n + 1, n + 1)
  {
    var i :| 0 <= i < n && PopsSuppression(ss, i) && NoReset(ss, i + 1, n + 1);
  }

  /** A message without rows, or one that is no user row, takes no display. */
  predicate TakesNothing(rules: TextRules, c: PlannerState, m: Message) {
    GateOf(rules, c.suppress, m).Shown? && m.role == User ==> !Queued(c, KeyOf(rules, m))
  }

  lemma NoRowsTakesNothing(rules: TextRules, c: PlannerState, i: nat, m: Message, look: Lookups)
    requires NoEmptyDisplays(c) && ConvertRows(rules, c, i, m, look) == []
    ensures TakesNothing(rules, c, m)
  {
    hide ShownRows;
    var key := KeyOf(rules, m);
    if Queued(c, key) {
      assert c.queues[key][0] in c.queues[key];
      assert AttachedRows(c, key) != [];
    }
  }

  /** The gate is the same whether suppressed or not, unless held back. */
  lemma GateIgnoresFlag(rules: TextRules, m: Message)
    ensures !HeldBack(rules, m) ==> GateOf(rules, false, m) == GateOf(rules, true, m)
  {
  }

  /** Under the mask a held-back message leaves the hidden states related. */
  lemma HeldStep(ss: Session, p: PlannerState, c: PlannerState, lo: nat, n: nat)
    requires lo <= n < |ss.src.msgs| && Related(ss, p, c, lo, n) && p.suppress && !c.suppress
    requires HeldBack(ss.rules, ss.src.msgs[n]) && TakesNothing(ss.rules, c, ss.src.msgs[n])
    ensures Related(ss, p, ConvertState(ss.rules, c, ss.src.msgs[n]), lo, n + 1)
  {
    hide SameQueues, NoEmptyDisplays, Masked;
    FlagsAside(ss, p, c);
    MaskedOn(ss, lo, n);
  }

  /** One step of priming against one step of converting. */
  lemma PrimeStep(ss: Session, n: nat)
    requires n < |ss.src.msgs| && KeysTellSteersApart(ss.rules, ss.src.msgs)
    requires
      var (p, c) :=
        (Consumed(ss.rules, ss.src.msgs, ss.Initial(), n), Converted(ss.rules, ss.src.msgs, ss.Initial(), 0, n));
      && Related(ss, p, c, n, n)
      && (p.suppress != c.suppress && HeldBack(ss.rules, ss.src.msgs[n]) ==> TakesNothing(ss.rules, c, ss.src.msgs[n]))
    ensures
      Related(ss, Consumed(ss.rules, ss.src.msgs, ss.Initial(), n + 1),
          Converted(ss.rules, ss.src.msgs, ss.Initial(), 0, n + 1), n + 1, n + 1)
  {
    var m := ss.src.msgs[n];
    var (p, c) :=
      (Consumed(ss.rules, ss.src.msgs, ss.Initial(), n), Converted(ss.rules, ss.src.msgs, ss.Initial(), 0, n));
    var (p', c') := (ConsumeState(ss.rules, p, m), ConvertState(ss.rules, c, m));
    assert Consumed(ss.rules, ss.src.msgs, ss.Initial(), n + 1) == p'
      && Converted(ss.rules, ss.src.msgs, ss.Initial(), 0, n + 1) == c';
    hide Consumed, Converted, SameQueues, NoEmptyDisplays, Masked, KeysTellSteersApart, Attach, TakesNothing;
    GateIgnoresFlag(ss.rules, m);
    if p.suppress != c.suppress && HeldBack(ss.rules, m) {
      HeldStep(ss, p, c, n, n);
      assert p' == p;
      RelatedLater(ss, p', c', n);
    } else {
      var gate := GateOf(ss.rules, c.suppress, m);
      assert GateOf(ss.rules, p.suppress, m) == gate;
      if gate.SteerNotice? || gate.Hidden? || gate.Shown? {
        OpenPrime(ss, c, n);
      } else {
        assert p' == p && c' == c;
        if p.suppress != c.suppress {
          MaskedOn(ss, n, n);
          MaskedLater(ss, n);
        }
      }
    }
  }

  lemma RelatedLater(ss: Session, p: PlannerState, c: PlannerState, n: nat)
    requires n < |ss.src.msgs| && Related(ss, p, c, n, n + 1)
    ensures Related(ss, p, c, n + 1, n + 1)
  {
    if p.suppress != c.suppress {
      MaskedLater(ss, n);
    }
    hide Masked;
  }

  lemma StartsRelated(ss: Session)
    ensures Related(ss, ss.Initial(), ss.Initial(), 0, 0)
  {
    hide Masked;
    DisplaysHaveRows(ss.rules, ss.planner);
  }

  lemma DisplaysHaveRows(rules: TextRules, turns: seq<PlannerDisplayTurn>)
    ensures NoEmptyDisplays(InitialState(rules, turns))
  {
    forall hash, d | d in DisplaysFor(rules, turns, hash) ensures d.messages != [] {
      DisplayHasRows(rules, turns, hash, d);
    }
  }

  lemma {:induction false} DisplayHasRows(rules: TextRules, turns: seq<PlannerDisplayTurn>, hash: string,
                                          d: PlannerDisplayTurn)
    requires d in DisplaysFor(rules, turns, hash)
    ensures d.messages != []
  {
    var init := turns[..|turns| - 1];
    if d in DisplaysFor(rules, init, hash) {
      DisplayHasRows(rules, init, hash, d);
    }
  }

  /** The two states stay related while nothing held back takes a display. */
  lemma {:induction false} PrimingRelates(ss: Session, n: nat)
    requires n <= |ss.src.msgs| && KeysTellSteersApart(ss.rules, ss.src.msgs)
    requires forall k :: 0 <= k < n ==> MaskTakesNothing(ss, k)
    ensures Related(ss, Consumed(ss.rules, ss.src.msgs, ss.Initial(), n),
        Converted(ss.rules, ss.src.msgs, ss.Initial(), 0, n), n, n)
  {
    hide Related, TakesNothing, KeysTellSteersApart;
    if n == 0 {
      StartsRelated(ss);
    } else {
      PrimingRelates(ss, n - 1);
      MaskedIfApart(ss, n - 1);
      PrimeStep(ss, n - 1);
    }
  }

  /** What the full conversion does not take while the primed state is masked. */
  ghost predicate MaskTakesNothing(ss: Session, n: nat)
    requires n < |ss.src.msgs|
  {
    var c := Converted(ss.rules, ss.src.msgs, ss.Initial(), 0, n);
    Masked(ss, n, n) && !c.suppress && NoEmptyDisplays(c) && HeldBack(ss.rules, ss.src.msgs[n]) ==>
        TakesNothing(ss.rules, c, ss.src.msgs[n])
  }

  lemma MaskedIfApart(ss: Session, n: nat)
    requires n < |ss.src.msgs| && MaskTakesNothing(ss, n)
    requires
      Related(ss, Consumed(ss.rules, ss.src.msgs, ss.Initial(), n),
          Converted(ss.rules, ss.src.msgs, ss.Initial(), 0, n), n, n)
    ensures
      var (p, c) :=
        (Consumed(ss.rules, ss.src.msgs, ss.Initial(), n), Converted(ss.rules, ss.src.msgs, ss.Initial(), 0, n));
      p.suppress != c.suppress && HeldBack(ss.rules, ss.src.msgs[n]) ==> TakesNothing(ss.rules, c, ss.src.msgs[n])
  {
    hide Consumed, Converted, TakesNothing, SameQueues, Masked, HeldBack;
  }

  // -------------------------------------------------------- rows of a window

  lemma SameHead(ss: Session, w: PlannerState, c: PlannerState, m: Message)
    requires SameQueues(ss.rules, ss.src.msgs, w, c) && m in ss.src.msgs && !IsSteer(ss.rules, m)
    ensures AttachedRows(w, KeyOf(ss.rules, m)) == AttachedRows(c, KeyOf(ss.rules, m))
  {
    assert QueueAt(w, KeyOf(ss.rules, m)) == QueueAt(c, KeyOf(ss.rules, m));
  }

  /** A message at a gate that is the same on both sides has the same rows. */
  lemma OpenWindowStep(ss: Session, w: PlannerState, c: PlannerState, n: nat, look: Lookups)
    requires n < |ss.src.msgs| && SameQueues(ss.rules, ss.src.msgs, w, c) && NoEmptyDisplays(c)
    requires GateOf(ss.rules, w.suppress, ss.src.msgs[n]) == GateOf(ss.rules, c.suppress, ss.src.msgs[n])
    ensures
      var m := ss.src.msgs[n];
      var (w', c') := (ConvertState(ss.rules, w, m), ConvertState(ss.rules, c, m));
      && ConvertRows(ss.rules, w, n, m, look) == ConvertRows(ss.rules, c, n, m, look)
      && SameQueues(ss.rules, ss.src.msgs, w', c') && NoEmptyDisplays(c')
      && (w'.suppress == c'.suppress || (w' == w && c' == c && !Resets(ss.rules, m)))
  {
    hide SameQueues, NoEmptyDisplays, Attach, AttachedRows, ShownRows;
    var m := ss.src.msgs[n];
    FlagsAside(ss, w, c);
    GateIgnoresFlag(ss.rules, m);
    if GateOf(ss.rules, c.suppress, m).Shown? && m.role == User {
      AttachBoth(ss.rules, ss.src.msgs, w.(suppress := false), c.(suppress := false), m);
      SameHead(ss, w, c, m);
    }
  }

  /** One message of a window: the same rows, and states that stay related. */
  lemma WindowStep(ss: Session, w: PlannerState, c: PlannerState, lo: nat, n: nat, look: Lookups)
    requires lo <= n < |ss.src.msgs| && Related(ss, w, c, lo, n)
    requires w.suppress != c.suppress && HeldBack(ss.rules, ss.src.msgs[n]) ==>
        ConvertRows(ss.rules, c, n, ss.src.msgs[n], look) == []
    ensures ConvertRows(ss.rules, w, n, ss.src.msgs[n], look) == ConvertRows(ss.rules, c, n, ss.src.msgs[n], look)
    ensures Related(ss, ConvertState(ss.rules, w, ss.src.msgs[n]), ConvertState(ss.rules, c, ss.src.msgs[n]), lo, n + 1)
  {
    hide SameQueues, NoEmptyDisplays, Masked, TakesNothing, Resets;
    var m := ss.src.msgs[n];
    GateIgnoresFlag(ss.rules, m);
    if w.suppress != c.suppress && HeldBack(ss.rules, m) {
      NoRowsTakesNothing(ss.rules, c, n, m, look);
      HeldStep(ss, w, c, lo, n);
    } else {
      OpenWindowStep(ss, w, c, n, look);
      if w.suppress != c.suppress && !Resets(ss.rules, m) {
        MaskedOn(ss, lo, n);
      }
      hide ConvertRows, ConvertState, GateOf;
    }
  }

  /** If no row is lost to a window from lo, held-back messages under the mask have
      none to show. */
  lemma MaskShowsNothing(ss: Session, lo: nat, n: nat)
    requires lo <= n < |ss.src.msgs| && Masked(ss, lo, n) && HeldBack(ss.rules, ss.src.msgs[n])
    requires NoLostRowsIn(ss, lo, n + 1)
    ensures FullRows(ss, n) == []
  {
    hide FullRows, HeldBack, PopsSuppression;
    var i :| 0 <= i < lo && PopsSuppression(ss, i) && NoReset(ss, i + 1, n);
    assert !LostRow(ss, i, n);
  }

  lemma {:induction false} WindowFollows(ss: Session, lo: nat, n: nat)
    requires lo <= n <= |ss.src.msgs| && NoLostRowsIn(ss, lo, n)
    requires
      Related(ss, Consumed(ss.rules, ss.src.msgs, ss.Initial(), lo),
          Converted(ss.rules, ss.src.msgs, ss.Initial(), 0, lo), lo, lo)
    ensures Related(ss, WindowState(ss, lo, n), Converted(ss.rules, ss.src.msgs, ss.Initial(), 0, n), lo, n)
    decreases n
  {
    hide LostRow, ConvertRows, ConvertState, FullLookups, SameQueues, NoEmptyDisplays, Masked, HeldBack;
    if n > lo {
      WindowFollows(ss, lo, n - 1);
      var (w, c) := (WindowState(ss, lo, n - 1), Converted(ss.rules, ss.src.msgs, ss.Initial(), 0, n - 1));
      if w.suppress != c.suppress && HeldBack(ss.rules, ss.src.msgs[n - 1]) {
        MaskShowsNothing(ss, lo, n - 1);
      }
      WindowStep(ss, w, c, lo, n - 1, FullLookups(ss));
    }
  }

  lemma WindowRowIsFull(ss: Session, lo: nat, hi: nat, k: nat)
    requires lo <= k < hi <= |ss.src.msgs| && LookupsExact(ss.src.msgs) && NoLostRowsIn(ss, lo, hi)
    requires
      Related(ss, Consumed(ss.rules, ss.src.msgs, ss.Initial(), lo),
          Converted(ss.rules, ss.src.msgs, ss.Initial(), 0, lo), lo, lo)
    ensures WindowRows(ss, lo, hi, k) == FullRows(ss, k)
  {
    hide LostRow, ConvertRows, ConvertState, FullLookups, WindowLookups, SameQueues, NoEmptyDisplays, Masked, HeldBack;
    hide LookAlike, LookupsExact;
    WindowFollows(ss, lo, k);
    var (w, c) := (WindowState(ss, lo, k), Converted(ss.rules, ss.src.msgs, ss.Initial(), 0, k));
    if w.suppress != c.suppress && HeldBack(ss.rules, ss.src.msgs[k]) {
      MaskShowsNothing(ss, lo, k);
    }
    WindowStep(ss, w, c, lo, k, FullLookups(ss));
    WindowLooksLikeFull(ss, lo, hi, k);
    RowsAlike(ss.rules, w, k, ss.src.msgs[k], WindowLookups(ss, lo, hi), FullLookups(ss));
  }

  // ----------------------------------------------------------- a lost row is lost

  lemma {:induction false} MaskLasts(ss: Session, i: nat, n: nat)
    requires i < n <= |ss.src.msgs| && PopsSuppression(ss, i) && NoReset(ss, i + 1, n)
    ensures Consumed(ss.rules, ss.src.msgs, ss.Initial(), n).suppress
  {
    hide Suppresses;
    if n > i + 1 {
      MaskLasts(ss, i, n - 1);
      assert !Resets(ss.rules, ss.src.msgs[n - 1]);
    }
  }

  lemma {:induction false} MaskLastsInWindow(ss: Session, lo: nat, n: nat)
    requires lo <= n <= |ss.src.msgs| && Consumed(ss.rules, ss.src.msgs, ss.Initial(), lo).suppress
    requires NoReset(ss, lo, n)
    ensures WindowState(ss, lo, n).suppress
    decreases n
  {
    hide Consumed;
    if n > lo {
      MaskLastsInWindow(ss, lo, n - 1);
      assert !Resets(ss.rules, ss.src.msgs[n - 1]);
    }
  }

  /** In every window that starts after the steer row, whatever the rules, the lost
      row is missing. */
  lemma LostRowIsMissing(ss: Session, lo: nat, hi: nat, i: nat, j: nat)
    requires i < lo <= j < hi <= |ss.src.msgs| && LostRow(ss, i, j)
    ensures WindowRows(ss, lo, hi, j) == [] && FullRows(ss, j) != []
  {
    hide PopsSuppression, FullRows;
    assert NoReset(ss, i + 1, lo) && NoReset(ss, lo, j);
    MaskLasts(ss, i, lo);
    MaskLastsInWindow(ss, lo, j);
    hide WindowState;
  }

  // --------------------------------------------------------- exact conditions

  /** For every log whose calls are looked up exactly: all windows show the rows of
      the full conversion if and only if no message with rows follows, before the
      next authored user turn, a steer row at which priming takes a display of a
      cancelled turn. */
  lemma AllWindowsExactIff(ss: Session)
    requires KeysTellSteersApart(ss.rules, ss.src.msgs) && LookupsExact(ss.src.msgs)
    ensures (forall lo, hi :: 0 <= lo <= hi <= |ss.src.msgs| ==> WindowExact(ss, lo, hi)) <==> NoLostRows(ss)
  {
    hide KeysTellSteersApart, LookupsExact, LostRow, WindowRows, FullRows, Related;
    if NoLostRows(ss) {
      forall lo, hi | 0 <= lo <= hi <= |ss.src.msgs| ensures WindowExact(ss, lo, hi) {
        NoLossIsExact(ss, lo, hi);
      }
    } else {
      var i, j :| 0 <= i < j < |ss.src.msgs| && LostRow(ss, i, j);
      LostRowIsMissing(ss, j, j + 1, i, j);
      assert !WindowExact(ss, j, j + 1);
    }
  }

  lemma NoLossIsExact(ss: Session, lo: nat, hi: nat)
    requires lo <= hi <= |ss.src.msgs| && KeysTellSteersApart(ss.rules, ss.src.msgs) && LookupsExact(ss.src.msgs)
    requires NoLostRows(ss)
    ensures WindowExact(ss, lo, hi)
  {
    hide KeysTellSteersApart, LookupsExact, LostRow, WindowRows, FullRows, Related;
    NoLossRelates(ss, lo);
    forall k | lo <= k < hi ensures WindowRows(ss, lo, hi, k) == FullRows(ss, k) {
      WindowRowIsFull(ss, lo, hi, k);
    }
  }

  lemma NoLossRelates(ss: Session, lo: nat)
    requires lo <= |ss.src.msgs| && KeysTellSteersApart(ss.rules, ss.src.msgs) && NoLostRows(ss)
    ensures
      Related(ss, Consumed(ss.rules, ss.src.msgs, ss.Initial(), lo),
          Converted(ss.rules, ss.src.msgs, ss.Initial(), 0, lo), lo, lo)
  {
    hide KeysTellSteersApart, LostRow, Related, Masked, HeldBack, FullRows, TakesNothing;
    forall k | 0 <= k < lo ensures MaskTakesNothing(ss, k) {
      NoLossTakesNothing(ss, k);
    }
    PrimingRelates(ss, lo);
  }

  lemma NoLossTakesNothing(ss: Session, k: nat)
    requires k < |ss.src.msgs| && NoLostRows(ss)
    ensures MaskTakesNothing(ss, k)
  {
    hide LostRow, Masked, HeldBack, TakesNothing, NoEmptyDisplays, ConvertRows, FullLookups;
    var c := Converted(ss.rules, ss.src.msgs, ss.Initial(), 0, k);
    if Masked(ss, k, k) && NoEmptyDisplays(c) && HeldBack(ss.rules, ss.src.msgs[k]) {
      MaskShowsNothing(ss, k, k);
      NoRowsTakesNothing(ss.rules, c, k, ss.src.msgs[k], FullLookups(ss));
    }
  }

  /** What is shown as a user's own bubble counts as an authored turn. */
  predicate ShownUsersAreAuthored(rules: TextRules, msgs: seq<Message>) {
    forall m :: m in msgs && m.role == User && !IsSteer(rules, m) && !rules.synthetic(rules.displayContent(m)) ==>
      rules.authored(rules.userText(m))
  }

  lemma AuthoredTakesNothing(ss: Session, k: nat)
    requires k < |ss.src.msgs| && ShownUsersAreAuthored(ss.rules, ss.src.msgs)
    ensures MaskTakesNothing(ss, k)
  {
    hide Masked, NoEmptyDisplays, Queued, Converted;
    assert ss.src.msgs[k] in ss.src.msgs;
  }

  lemma AuthoredRelates(ss: Session, lo: nat)
    requires lo <= |ss.src.msgs| && KeysTellSteersApart(ss.rules, ss.src.msgs)
    requires ShownUsersAreAuthored(ss.rules, ss.src.msgs)
    ensures
      Related(ss, Consumed(ss.rules, ss.src.msgs, ss.Initial(), lo),
          Converted(ss.rules, ss.src.msgs, ss.Initial(), 0, lo), lo, lo)
  {
    hide KeysTellSteersApart, ShownUsersAreAuthored, Related, MaskTakesNothing;
    forall k | 0 <= k < lo ensures MaskTakesNothing(ss, k) {
      AuthoredTakesNothing(ss, k);
    }
    PrimingRelates(ss, lo);
  }

  /** The same for one window, whatever was lost before it. */
  lemma WindowExactIff(ss: Session, lo: nat, hi: nat)
    requires lo <= hi <= |ss.src.msgs| && KeysTellSteersApart(ss.rules, ss.src.msgs) && LookupsExact(ss.src.msgs)
    requires ShownUsersAreAuthored(ss.rules, ss.src.msgs)
    ensures WindowExact(ss, lo, hi) <==> NoLostRowsIn(ss, lo, hi)
  {
    hide KeysTellSteersApart, ShownUsersAreAuthored, LookupsExact, LostRow, WindowRows, FullRows, Related;
    AuthoredRelates(ss, lo);
    if NoLostRowsIn(ss, lo, hi) {
      forall k | lo <= k < hi ensures WindowRows(ss, lo, hi, k) == FullRows(ss, k) {
        WindowRowIsFull(ss, lo, hi, k);
      }
    } else {
      var i, j :| 0 <= i < lo <= j < hi && LostRow(ss, i, j);
      LostRowIsMissing(ss, lo, hi, i, j);
    }
  }

  /** A window that starts with an authored user turn, or with the log, loses
      nothing. */
  lemma TurnStartLosesNothing(ss: Session, lo: nat, hi: nat)
    requires lo < hi <= |ss.src.msgs| && (lo == 0 || Resets(ss.rules, ss.src.msgs[lo]))
    ensures NoLostRowsIn(ss, lo, hi)
  {
    hide PopsSuppression, FullRows, Resets, HeldBack;
    forall i, j | 0 <= i < lo <= j < hi ensures !LostRow(ss, i, j) {
      if j == lo {
        ResetsIsNotHeld(ss.rules, ss.src.msgs[j]);
      }
    }
  }

  lemma ResetsIsNotHeld(rules: TextRules, m: Message)
    ensures !(Resets(rules, m) && HeldBack(rules, m))
  {
  }

  /** Where the hidden states of priming and conversion never differ, no row is
      lost. */
  lemma NoDivergenceLosesNothing(ss: Session)
    requires NoSteerDivergence(ss.rules, ss.src.msgs, ss.Initial(), |ss.src.msgs|)
    ensures NoLostRows(ss)
  {
    var msgs := ss.src.msgs;
    PrimingAgreesIff(ss.rules, msgs, ss.Initial(), |msgs|);
    forall i, j | 0 <= i < j < |msgs| ensures !LostRow(ss, i, j) {
      assert Consumed(ss.rules, msgs, ss.Initial(), i) == Converted(ss.rules, msgs, ss.Initial(), 0, i);
      assert !Divergent(ss.rules, Converted(ss.rules, msgs, ss.Initial(), 0, i), msgs[i]);
    }
  }

  // ----------------------------------------------------------- pages a source cuts

  /** No window that a request can ask for is cut for its raw span; so for every log in
      memory, and for every stored one that is not larger than the cap. */
  predicate NoWindowOverCap(src: Source)
    requires SourceValid(src)
  {
    forall turns, hi | 1 <= turns <= MAX_TURNS && 0 < hi <= |src.msgs| :: !OverCap(src, TurnLo(src, turns, hi), hi)
  }

  /** A source whose visible turns begin with authored user turns, none too large to be
      read whole: its windows begin there, too. */
  predicate WindowsStartTurns(ss: Session)
    requires SourceValid(ss.src)
  {
    && NoWindowOverCap(ss.src) && ShownUsersAreAuthored(ss.rules, ss.src.msgs)
    && forall k :: 0 < k < |ss.src.msgs| && ss.src.turns[k] > ss.src.turns[k - 1] ==> Resets(ss.rules, ss.src.msgs[k])
  }

  /** What makes every page show the rows of the full conversion: calls find their
      results, and either no row is lost to any window, or windows begin with turns. */
  ghost predicate PagesExactly(ss: Session)
    requires ss.Valid()
  {
    && LookupsExact(ss.src.msgs) && KeysTellSteersApart(ss.rules, ss.src.msgs)
    && (NoLostRows(ss) || WindowsStartTurns(ss))
  }

  lemma CandidateStartsTurn(ss: Session, turns: nat, hi: nat)
    requires ss.Valid() && WindowsStartTurns(ss) && 1 <= turns <= MAX_TURNS && 0 < hi <= |ss.src.msgs|
    ensures var lo := CandidateLo(ss.src, turns, hi); lo == 0 || Resets(ss.rules, ss.src.msgs[lo])
  {
    hide Resets, ShownUsersAreAuthored, OverCap;
    assert CandidateLo(ss.src, turns, hi) == TurnLo(ss.src, turns, hi);
  }

  /** The window a page is cut from shows the rows of the full conversion. */
  lemma CandidateWindowIsFull(ss: Session, turns: nat, hi: nat)
    requires ss.Valid() && PagesExactly(ss) && 1 <= turns <= MAX_TURNS && 0 < hi <= |ss.src.msgs|
    ensures
      var lo := CandidateLo(ss.src, turns, hi);
      forall i :: lo <= i < hi ==> WindowTable(ss, lo, hi)[i] == FullTable(ss)[i]
  {
    hide KeysTellSteersApart, LookupsExact, LostRow, ShownUsersAreAuthored, Resets, CandidateLo, WindowRows, FullRows;
    hide SourceValid, NoWindowOverCap;
    var lo := CandidateLo(ss.src, turns, hi);
    if NoLostRows(ss) {
      NoLossIsExact(ss, lo, hi);
    } else {
      CandidateStartsTurn(ss, turns, hi);
      TurnStartLosesNothing(ss, lo, hi);
      WindowExactIff(ss, lo, hi);
    }
  }
}
