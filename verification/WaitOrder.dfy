/** In which order the thread-safe wait list wakes.

    The wait list runs beside a trace: who joined the list, in order, whom wakes took out of
    it, in order, and who was taken out by a cancel. */
module WaitOrder {
  import opened Wrappers
  import opened Lists
  import Machine
  import WL = WaitList

  datatype Trace = Trace(arrived: seq<nat>, popped: seq<nat>, gone: set<nat>)

  datatype State = State(wl: WL.State, tr: Trace)

  function Init(threads: nat): (s: State) {
    State(WL.Init(threads), Trace([], [], {}))
  }

  function Note(tr: Trace, s: WL.State, t: nat): (r: Trace)
    requires t < |s.threads|
  {
    match s.threads[t]
    case Suspends(w, at) => if at.Committed? then tr.(arrived := tr.arrived + [w]) else tr
    case Popping => if s.list != [] then tr.(popped := tr.popped + [s.list[0]]) else tr
    case Draining => if s.list != [] then tr.(popped := tr.popped + [s.list[0]]) else tr
    case Unlinking(w) => if w in s.list then tr.(gone := tr.gone + {w}) else tr
    case _ => tr
  }

  function Step(s: State, l: WL.Label): (r: Option<State>) {
    match WL.Step(s.wl, l)
    case None => None
    case Some(wl') => Some(State(wl', if l.Begin? then s.tr else Note(s.tr, s.wl, l.t)))
  }

  /** Of those who joined, wakes took out the first, except whom cancels took; the rest is the
      list. */
  ghost predicate InOrder(s: State) {
    && Distinct(s.tr.arrived)
    && Drop(s.tr.arrived, s.tr.gone) == s.tr.popped + s.wl.list
  }

  /** Whoever wakes took out was woken or is about to be, and likewise for cancels. */
  ghost predicate OutcomeOk(s: State, w: nat) {
    && (w in s.tr.arrived ==> w in s.wl.h.status && WL.Pending(s.wl.h.status[w]))
    && (w in s.tr.popped ==> w in s.wl.h.status && s.wl.h.status[w].Unlinked? && w !in s.tr.gone)
    && (w in s.tr.gone ==> w in s.wl.h.status && s.wl.h.status[w].Unlinked?)
    && (w in s.wl.h.outcome ==> if s.wl.h.outcome[w].Woken? then w in s.tr.popped else w in s.tr.gone)
  }

  ghost predicate Outcomes(s: State) {
    forall w :: OutcomeOk(s, w)
  }

  ghost predicate DutyOk(s: State, t: nat)
    requires t < |s.wl.threads|
  {
    var pc := s.wl.threads[t];
    pc.Completing? ==> if pc.outcome.Woken? then pc.w in s.tr.popped else pc.w in s.tr.gone
  }

  ghost predicate Inv(s: State) {
    && WL.Inv(s.wl) && InOrder(s) && Outcomes(s)
    && (forall t :: 0 <= t < |s.wl.threads| ==> DutyOk(s, t))
  }

  lemma {:induction false} DropOne(list: seq<nat>, w: nat)
    requires Distinct(list)
    ensures Drop(list, {w}) == Without(list, w)
  {
    if list == [] {
    } else if list[0] == w {
      DropNone(list[1..], {w});
    } else {
      DropOne(list[1..], w);
    }
  }

  /** A cancel of `w` takes it out of the account and out of the list alike. */
  lemma CancelOrder(arrived: seq<nat>, popped: seq<nat>, list: seq<nat>, gone: set<nat>, w: nat)
    requires Drop(arrived, gone) == popped + list && Distinct(list) && w !in popped
    ensures Drop(arrived, gone + {w}) == popped + Without(list, w)
  {
    var more := gone + {w};
    DropTwice(arrived, gone, more);
    DropConcat(popped, list, more);
    DropHas(arrived, gone);
    forall x | x in popped || x in list ensures x !in gone {
      assert x in popped + list;
    }
    DropNone(popped, more);
    DropSame(list, more, {w});
    DropOne(list, w);
  }

  lemma OrderOfCancel(s: State, l: WL.Label)
    requires Inv(s) && Step(s, l).Some? && !l.Begin? && s.wl.threads[l.t].Unlinking?
    ensures InOrder(Step(s, l).value)
  {
    var w := s.wl.threads[l.t].w;
    assert WL.ThreadOk(s.wl, l.t) && OutcomeOk(s, w);
    if w in s.wl.list {
      CancelOrder(s.tr.arrived, s.tr.popped, s.wl.list, s.tr.gone, w);
    }
  }

  lemma OrderOfArrival(s: State, l: WL.Label)
    requires Inv(s) && Step(s, l).Some? && !l.Begin? && s.wl.threads[l.t].Suspends?
    ensures InOrder(Step(s, l).value)
  {
    var pc := s.wl.threads[l.t];
    WL.ArrivalOrder(s.wl, l);
    assert WL.ThreadOk(s.wl, l.t) && OutcomeOk(s, pc.w);
    DropConcat(s.tr.arrived, [pc.w], s.tr.gone);
  }

  lemma OrderOfWake(s: State, l: WL.Label)
    requires InOrder(s) && Step(s, l).Some? && !l.Begin?
    requires !s.wl.threads[l.t].Unlinking? && !s.wl.threads[l.t].Suspends?
    ensures InOrder(Step(s, l).value)
  {
    WL.ArrivalOrder(s.wl, l);
  }

  lemma OrderOfStart(s: State, l: WL.Label)
    requires InOrder(s) && Step(s, l).Some? && l.Begin?
    ensures InOrder(Step(s, l).value)
  {
  }

  lemma OrderStep(s: State, l: WL.Label)
    requires Inv(s) && Step(s, l).Some?
    ensures InOrder(Step(s, l).value)
  {
    if l.Begin? {
      OrderOfStart(s, l);
    } else if s.wl.threads[l.t].Unlinking? {
      OrderOfCancel(s, l);
    } else if s.wl.threads[l.t].Suspends? {
      OrderOfArrival(s, l);
    } else {
      OrderOfWake(s, l);
    }
  }

  predicate Touches(pc: WL.Pc) {
    pc.Suspends? || pc.Unlinking? || pc.Completing?
  }

  /** How the account of waiter `w` moves, by a thread that has a waiter in hand. */
  lemma OutcomeTouched(s: State, l: WL.Label, w: nat)
    requires OutcomeOk(s, w) && Step(s, l).Some? && !l.Begin? && Touches(s.wl.threads[l.t])
    requires WL.ThreadOk(s.wl, l.t) && DutyOk(s, l.t) && WL.ListOk(s.wl.list, s.wl.h.status)
    ensures OutcomeOk(Step(s, l).value, w)
  {
    match s.wl.threads[l.t]
    case Suspends(_, _) =>
    case Unlinking(_) =>
    case Completing(_, _, _) =>
  }

  lemma OutcomeStep(s: State, l: WL.Label, w: nat)
    requires Inv(s) && Step(s, l).Some?
    ensures OutcomeOk(Step(s, l).value, w)
  {
    assert OutcomeOk(s, w);
    if l.Begin? {
      OutcomeBegun(s, l, w);
    } else if Touches(s.wl.threads[l.t]) {
      assert WL.ThreadOk(s.wl, l.t) && DutyOk(s, l.t);
      OutcomeTouched(s, l, w);
    } else {
      OutcomeWoken(s, l, w);
    }
  }

  lemma OutcomeBegun(s: State, l: WL.Label, w: nat)
    requires OutcomeOk(s, w) && Step(s, l).Some? && l.Begin?
    ensures OutcomeOk(Step(s, l).value, w)
  {
  }

  lemma OutcomeWoken(s: State, l: WL.Label, w: nat)
    requires OutcomeOk(s, w) && WL.ListOk(s.wl.list, s.wl.h.status)
    requires Step(s, l).Some? && !l.Begin? && !Touches(s.wl.threads[l.t])
    ensures OutcomeOk(Step(s, l).value, w)
  {
  }

  lemma DutyOfOwn(s: State, l: WL.Label)
    requires Inv(s) && Step(s, l).Some?
    ensures var s' := Step(s, l).value; l.t < |s'.wl.threads| == |s.wl.threads| && DutyOk(s', l.t)
  {
    if !l.Begin? && s.wl.threads[l.t].Unlinking? {
      DutyOfCancel(s, l);
    } else {
      DutyOfPop(s, l);
    }
  }

  lemma DutyOfCancel(s: State, l: WL.Label)
    requires WL.ListOk(s.wl.list, s.wl.h.status) && Step(s, l).Some? && !l.Begin? && s.wl.threads[l.t].Unlinking?
    ensures var s' := Step(s, l).value; l.t < |s'.wl.threads| == |s.wl.threads| && DutyOk(s', l.t)
  {
  }

  lemma DutyOfPop(s: State, l: WL.Label)
    requires Step(s, l).Some? && (!l.Begin? ==> !s.wl.threads[l.t].Unlinking?)
    ensures var s' := Step(s, l).value; l.t < |s'.wl.threads| == |s.wl.threads| && DutyOk(s', l.t)
  {
  }

  /** A thread moves nobody else, and the trace only grows. */
  lemma OthersStay(s: State, l: WL.Label)
    requires Step(s, l).Some?
    ensures WL.OthersSame(s.wl, Step(s, l).value.wl, l.t)
  {
  }

  lemma TraceGrows(tr: Trace, s: WL.State, t: nat)
    requires t < |s.threads|
    ensures tr.popped <= Note(tr, s, t).popped && tr.gone <= Note(tr, s, t).gone
  {
  }

  lemma DutyOfOther(s: State, l: WL.Label, s': State, t: nat)
    requires t < |s.wl.threads| && t != l.t && DutyOk(s, t) && WL.OthersSame(s.wl, s'.wl, l.t)
    requires s.tr.popped <= s'.tr.popped && s.tr.gone <= s'.tr.gone
    ensures DutyOk(s', t)
  {
  }

  lemma StepInv(s: State, l: WL.Label)
    requires Inv(s) && Step(s, l).Some?
    ensures Inv(Step(s, l).value)
  {
    var s' := Step(s, l).value;
    WL.StepInv(s.wl, l);
    OrderStep(s, l);
    forall w ensures OutcomeOk(s', w) {
      OutcomeStep(s, l, w);
    }
    DutyOfOwn(s, l);
    OthersStay(s, l);
    TraceGrows(s.tr, s.wl, l.t);
    forall t | 0 <= t < |s'.wl.threads| && t != l.t ensures DutyOk(s', t) {
      assert DutyOk(s, t);
      DutyOfOther(s, l, s', t);
    }
  }

  ghost function Run(threads: nat, labels: seq<WL.Label>): (s: Option<State>) {
    Machine.Exec((s, l) => Step(s, l), Init(threads), labels)
  }

  /** The trace only watches. */
  lemma {:induction false} SameRun(s: State, labels: seq<WL.Label>)
    ensures var r, r' := Machine.Exec((x, l) => WL.Step(x, l), s.wl, labels),
      Machine.Exec((x, l) => Step(x, l), s, labels);
      if r.None? then r'.None? else r'.Some? && r'.value.wl == r.value
    decreases |labels|
  {
    if labels == [] {
    } else if Step(s, labels[0]).Some? {
      SameRun(Step(s, labels[0]).value, labels[1..]);
    }
  }

  /** In every run: waiters are woken in the order in which they joined the list, but for those
      that a cancel took out, and whoever joined and was neither is still in the list, in
      that order. */
  lemma RunsInOrder(threads: nat, labels: seq<WL.Label>)
    requires WL.Run(threads, labels).Some?
    ensures Run(threads, labels).Some? && Run(threads, labels).value.wl == WL.Run(threads, labels).value
    ensures InOrder(Run(threads, labels).value) && Outcomes(Run(threads, labels).value)
  {
    SameRun(Init(threads), labels);
    WL.InitInv(threads);
    assert Inv(Init(threads));
    forall s, l | Inv(s) && Step(s, l).Some? ensures Inv(Step(s, l).value) { StepInv(s, l); }
    Machine.RunsKeep((s, l) => Step(s, l), s => Inv(s), Init(threads), labels);
  }
}
