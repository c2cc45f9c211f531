/** Who wakes the receivers of a multi-consumer channel (`channel/mp.rs` over
    `wait_list.rs`).

    The ring and the wait list `rx_waiters` run side by side.  A sender that has taken a
    ticket runs `wake_one` before it writes its value; a receiver that found the ring
    empty may suspend, blocking if a load of `head` and then of `tail` agree.  Tasks
    `0 .. |places|` act on both as threads of the same number; further threads of the list
    only cancel sleeping waiters, for tasks that are interrupted. */
module Channel {
  import opened Wrappers
  import Machine
  import Ring
  import WL = WaitList

  datatype Place =
    | Free
    | Sending(waked: bool)                                   // has the call to wake_one returned?
    | Receiving(woken: bool)                                 // in the loop of `recv`
    | Waiting(w: nat, woken: bool, seen: Option<nat>)        // inside `suspend`; the head it loaded
    | Asleep(w: nat)

  datatype State<T> = State(ring: Ring.State<T>, rx: WL.State, places: seq<Place>, who: map<nat, nat>)

  datatype Label<T> =
    | BeginSend(t: nat, value: T)
    | BeginRecv(t: nat)
    | Call(t: nat, spurious: bool)   // the next operation on the ring
    | WakeStart(t: nat)
    | WakeGo(t: nat)
    | Retry(t: nat)
    | Wait(t: nat, w: nat)
    | SuspendGo(t: nat)
    | Resume(t: nat)
    | GiveUp(t: nat)                 // `try_recv`, or `recv` by an interrupted task, found nothing
    | Other(t: nat, l: WL.Label)     // a cancel by some other thread

  function Init<T>(n: nat, threads: nat, others: nat): (s: State<T>) {
    State(Ring.Init(n, threads), WL.Init(threads + others), seq(threads, _ => Free), map[])
  }

  function Step<T>(s: State<T>, l: Label<T>): (r: Option<State<T>>) {
    if l.Other? then
      if l.t < |s.places| || l.l.t != l.t || (l.l.Begin? && !l.l.op.Cancel?) then None
      else OtherStep(s, WL.Step(s.rx, l.l))
    else if l.t >= |s.places| || l.t >= |s.ring.threads| || l.t >= |s.rx.threads| then None
    else match l {
      case BeginSend(t, value) =>
        if s.places[t] != Free then None
        else OnRing(s, t, Sending(false), Ring.Step(s.ring, Ring.Begin(t, Ring.Send(value))))
      case BeginRecv(t) =>
        if s.places[t] != Free then None
        else OnRing(s, t, Receiving(false), Ring.Step(s.ring, Ring.Begin(t, Ring.Recv)))
      case Call(t, spurious) =>
        if !s.places[t].Sending? && !s.places[t].Receiving? then None
        else if s.ring.threads[t].Ready? || (s.places[t] == Sending(false) && s.ring.threads[t].Claimed?) then None
        else CallStep(s, t, Ring.Step(s.ring, NextCall(t, s.ring.threads[t], spurious)))
      case WakeStart(t) =>
        if s.places[t] != Sending(false) || !s.ring.threads[t].Claimed? then None
        else OnList(s, t, Sending(false), WL.Step(s.rx, WL.Begin(t, WL.WakeOne)))
      case WakeGo(t) =>
        if s.places[t] != Sending(false) || s.rx.threads[t] == WL.Idle then None
        else WakeStep(s, t, WL.Step(s.rx, WL.Go(t, false)))
      case Retry(t) =>
        if !s.places[t].Receiving? || !s.ring.threads[t].Ready? then None
        else OnRing(s, t, s.places[t], Ring.Step(s.ring, Ring.Begin(t, Ring.Recv)))
      case Wait(t, w) =>
        if !s.places[t].Receiving? || !s.ring.threads[t].Ready? then None
        else WaitStep(s, t, w, s.places[t].woken, WL.Step(s.rx, WL.Begin(t, WL.Suspend(w))))
      case SuspendGo(t) =>
        if !s.places[t].Waiting? || !s.rx.threads[t].Suspends? then None
        else if s.rx.threads[t].at.Marked? && s.places[t].seen.None? then
          Some(s.(places := s.places[t := s.places[t].(seen := Some(s.ring.head))]))
        else ParkStep(s, t, WL.Step(s.rx, WL.Go(t, Blocks(s, t))))
      case Resume(t) =>
        if !s.places[t].Asleep? || WL.Times(s.rx.h, s.places[t].w) == 0 then None
        else Some(s.(places := s.places[t := Receiving(WokenUp(s.rx, s.places[t].w))]))
      case GiveUp(t) =>
        if !s.places[t].Receiving? || !s.ring.threads[t].Ready? then None
        else Some(s.(places := s.places[t := Free]))
      case Other(_, _) => None
    }
  }

  function OtherStep<T>(s: State<T>, rx: Option<WL.State>): (r: Option<State<T>>) {
    if rx.None? then None else Some(s.(rx := rx.value))
  }

  predicate WokenUp(rx: WL.State, w: nat) {
    w in rx.h.outcome && rx.h.outcome[w].Woken?
  }

  /** `len() == 0`: the head loaded earlier against the tail now. */
  predicate Blocks<T>(s: State<T>, t: nat)
    requires t < |s.places| && s.places[t].Waiting?
  {
    s.places[t].seen == Some(s.ring.tail)
  }

  function NextCall<T>(t: nat, pc: Ring.Pc<T>, spurious: bool): (r: Ring.Label<T>) {
    match pc
    case Start(_) => Ring.Load(t)
    case Loaded(_, _) => Ring.Check(t)
    case Matched(_, _) => Ring.Cas(t, spurious)
    case Claimed(_, _) => Ring.Touch(t)
    case _ => Ring.Publish(t)
  }

  function OnRing<T>(s: State<T>, t: nat, place: Place, ring: Option<Ring.State<T>>): (r: Option<State<T>>)
    requires t < |s.places|
  {
    if ring.None? then None else Some(s.(ring := ring.value, places := s.places[t := place]))
  }

  function OnList<T>(s: State<T>, t: nat, place: Place, rx: Option<WL.State>): (r: Option<State<T>>)
    requires t < |s.places|
  {
    if rx.None? then None else Some(s.(rx := rx.value, places := s.places[t := place]))
  }

  /** A send that returns, and a receive that got an item, leave the loop. */
  function CallStep<T>(s: State<T>, t: nat, ring: Option<Ring.State<T>>): (r: Option<State<T>>)
    requires t < |s.places|
  {
    if ring.None? then None
    else
      var back := t < |ring.value.threads| && ring.value.threads[t].Ready?
        && !(s.places[t].Receiving? && ring.value.threads[t].last.Empty?);
      OnRing(s, t, if back then Free else s.places[t], ring)
  }

  function WakeStep<T>(s: State<T>, t: nat, rx: Option<WL.State>): (r: Option<State<T>>)
    requires t < |s.places|
  {
    if rx.None? then None
    else OnList(s, t, Sending(t < |rx.value.threads| && rx.value.threads[t] == WL.Idle), rx)
  }

  function WaitStep<T>(s: State<T>, t: nat, w: nat, woken: bool, rx: Option<WL.State>): (r: Option<State<T>>)
    requires t < |s.places|
  {
    if rx.None? then None
    else Some(s.(rx := rx.value, places := s.places[t := Waiting(w, woken, None)], who := s.who[w := t]))
  }

  function ParkStep<T>(s: State<T>, t: nat, rx: Option<WL.State>): (r: Option<State<T>>)
    requires t < |s.places| && s.places[t].Waiting?
  {
    if rx.None? then None
    else
      var w, woken := s.places[t].w, s.places[t].woken;
      if t < |rx.value.threads| && rx.value.threads[t] == WL.Idle then
        OnList(s, t, if w in rx.value.h.status && WL.Pending(rx.value.h.status[w]) then Asleep(w)
          else Receiving(woken), rx)
      else
        var marked := t < |rx.value.threads| && rx.value.threads[t].Suspends? && rx.value.threads[t].at.Marked?;
        OnList(s, t, Waiting(w, woken, if marked then s.places[t].seen else None), rx)
  }

  // ----- the invariant

  ghost predicate PlaceOk<T>(s: State<T>, t: nat)
    requires t < |s.places| == |s.ring.threads| <= |s.rx.threads|
  {
    var pc, rx := s.ring.threads[t], s.rx.threads[t];
    match s.places[t]
    case Free => pc.Ready? && rx == WL.Idle
    case Sending(waked) =>
      && !pc.Ready? && pc.op.Send?
      && (waked ==> Ring.Owner(pc) && rx == WL.Idle)
      && (!waked ==> !pc.Touched?)
      && (rx == WL.Idle || (pc.Claimed?
        && (rx.Looking? || rx.Popping? || (rx.Completing? && rx.outcome.Woken? && !rx.holding))))
    case Receiving(_) => rx == WL.Idle && (if pc.Ready? then pc.last.Empty? else pc.op.Recv?)
    case Waiting(w, _, seen) =>
      && pc.Ready? && pc.last.Empty? && rx.Suspends? && rx.w == w && w in s.who && s.who[w] == t
      && (seen.Some? ==> rx.at.Marked? && seen.value <= s.ring.head)
    case Asleep(w) =>
      && pc.Ready? && pc.last.Empty? && rx == WL.Idle
      && w in s.rx.h.status && WL.Pending(s.rx.h.status[w]) && w in s.who && s.who[w] == t
  }

  ghost predicate SleeperOk<T>(s: State<T>, w: nat)
    requires w in s.rx.h.status
  {
    && w in s.who && s.who[w] < |s.places|
    && (s.rx.h.status[w].Suspending? ==> s.places[s.who[w]].Waiting? && s.places[s.who[w]].w == w)
    && (WL.Pending(s.rx.h.status[w]) && WL.Times(s.rx.h, w) == 0 ==> s.places[s.who[w]] == Asleep(w))
  }

  /** A sender on its way to wake, or a woken receiver that has neither taken an item
      nor decided to sleep again. */
  predicate Helps<T>(s: State<T>, t: nat)
    requires t < |s.places| == |s.ring.threads| <= |s.rx.threads|
  {
    match s.places[t]
    case Free => false
    case Sending(waked) => !waked && s.ring.threads[t].Claimed?
    case Receiving(woken) => woken && !Ring.Owner(s.ring.threads[t])
    case Waiting(_, woken, _) => woken && s.rx.threads[t].Suspends? && !s.rx.threads[t].at.Committed?
    case Asleep(w) => WL.Times(s.rx.h, w) > 0 && WokenUp(s.rx, w)
  }

  ghost predicate SameSize<T>(s: State<T>) {
    |s.places| == |s.ring.threads| <= |s.rx.threads|
  }

  ghost function Helpers<T>(s: State<T>): (r: set<nat>)
    requires SameSize(s)
  {
    set t: nat | t < |s.places| && Helps(s, t)
  }

  ghost predicate Covered<T>(s: State<T>)
    requires SameSize(s)
  {
    WL.Sleepers(s.rx) ==> s.ring.tail - s.ring.head <= |Helpers(s)|
  }

  predicate OtherOk(pc: WL.Pc) {
    pc == WL.Idle || pc.Unlinking? || (pc.Completing? && pc.outcome.Cancelled? && !pc.holding)
  }

  ghost predicate Links<T>(s: State<T>) {
    && SameSize(s)
    && (forall t :: 0 <= t < |s.places| ==> PlaceOk(s, t))
    && (forall t :: |s.places| <= t < |s.rx.threads| ==> OtherOk(s.rx.threads[t]))
    && (forall w :: w in s.rx.h.status ==> SleeperOk(s, w))
  }

  ghost predicate Base<T>(s: State<T>) {
    Ring.Inv(s.ring) && WL.Inv(s.rx) && Links(s)
  }

  ghost predicate Inv<T>(s: State<T>) {
    Base(s) && Covered(s)
  }

  lemma InitInv<T>(n: nat, threads: nat, others: nat)
    requires n >= 2
    ensures Inv<T>(Init(n, threads, others))
  {
    WL.InitInv(threads + others);
    Ring.InitInv<T>(n, threads);
  }

  /** How the helpers change when only thread `t` moves. */
  lemma HelpersMove<T>(s: State<T>, s': State<T>, t: nat)
    requires SameSize(s) && SameSize(s') && t < |s.places| == |s'.places|
    requires forall u :: 0 <= u < |s.places| && u != t ==> (Helps(s', u) <==> Helps(s, u))
    ensures |Helpers(s')| == |Helpers(s)| + (if Helps(s', t) then 1 else 0) - (if Helps(s, t) then 1 else 0)
  {
    if Helps(s', t) && !Helps(s, t) {
      assert Helpers(s') == Helpers(s) + {t};
    } else if !Helps(s', t) && Helps(s, t) {
      assert Helpers(s') == Helpers(s) - {t};
    } else {
      assert Helpers(s') == Helpers(s);
    }
  }

  // ----- steps on the ring

  predicate OnRingOnly<T>(l: Label<T>) {
    l.BeginSend? || l.BeginRecv? || l.Call? || l.Retry?
  }

  /** A ring step by `t`, after which `t` stands at `place`. */
  lemma RingLinks<T>(s: State<T>, t: nat, ring': Ring.State<T>, place: Place)
    requires Links(s) && t < |s.places| && Ring.Effect(s.ring, ring', t)
    requires s.rx.threads[t] == WL.Idle && !place.Waiting? && !place.Asleep? && !s.places[t].Waiting?
      && !s.places[t].Asleep?
    requires PlaceOk(s.(ring := ring', places := s.places[t := place]), t)
    ensures Links(s.(ring := ring', places := s.places[t := place]))
  {
    var s' := s.(ring := ring', places := s.places[t := place]);
    forall u | 0 <= u < |s.places| ensures PlaceOk(s', u) { assert PlaceOk(s, u); }
    forall x | x in s'.rx.h.status ensures SleeperOk(s', x) { assert SleeperOk(s, x); }
  }

  /** The ring label behind a label of the channel. */
  function Behind<T>(s: State<T>, l: Label<T>): (r: Ring.Label<T>)
    requires OnRingOnly(l) && l.t < |s.ring.threads|
  {
    match l
    case BeginSend(t, value) => Ring.Begin(t, Ring.Send(value))
    case Call(t, spurious) => NextCall(t, s.ring.threads[t], spurious)
    case _ => Ring.Begin(l.t, Ring.Recv)
  }

  lemma RingStep<T>(s: State<T>, l: Label<T>)
    requires Links(s) && Step(s, l).Some? && OnRingOnly(l)
    ensures var s', t := Step(s, l).value, l.t;
      && Ring.Step(s.ring, Behind(s, l)) == Some(s'.ring)
      && s' == s.(ring := s'.ring, places := s.places[t := s'.places[t]])
      && Ring.Effect(s.ring, s'.ring, t)
      && PlaceOk(s', t)
      && s.rx.threads[t] == WL.Idle
      && !s'.places[t].Waiting? && !s'.places[t].Asleep? && !s.places[t].Waiting? && !s.places[t].Asleep?
  {
    assert PlaceOk(s, l.t);
    Ring.StepSeen(s.ring, Behind(s, l));
  }

  lemma RingCovered<T>(s: State<T>, l: Label<T>)
    requires Inv(s) && Step(s, l).Some? && OnRingOnly(l)
    ensures SameSize(Step(s, l).value) && Covered(Step(s, l).value)
  {
    var s' := Step(s, l).value;
    assert PlaceOk(s, l.t);
    RingStep(s, l);
    Ring.StepSeen(s.ring, Behind(s, l));
    HelpersMove(s, s', l.t);
  }

  lemma RingInv<T>(s: State<T>, l: Label<T>)
    requires Inv(s) && Step(s, l).Some? && OnRingOnly(l)
    ensures Inv(Step(s, l).value)
  {
    var s' := Step(s, l).value;
    RingStep(s, l);
    Ring.StepInv(s.ring, Behind(s, l));
    RingLinks(s, l.t, s'.ring, s'.places[l.t]);
    RingCovered(s, l);
  }

  // ----- steps on the wait list

  lemma StartWakeInv<T>(s: State<T>, t: nat)
    requires Inv(s) && Step(s, WakeStart(t)).Some?
    ensures Inv(Step(s, WakeStart(t)).value)
  {
    var s' := Step(s, WakeStart(t)).value;
    assert PlaceOk(s, t);
    WL.StepInv(s.rx, WL.Begin(t, WL.WakeOne));
    forall u | 0 <= u < |s.places| ensures PlaceOk(s', u) { assert PlaceOk(s, u); }
    forall x | x in s'.rx.h.status ensures SleeperOk(s', x) { assert SleeperOk(s, x); }
    WL.SameSleepers(s.rx, s'.rx, t);
    HelpersMove(s, s', t);
  }

  lemma WakeLinks<T>(s: State<T>, t: nat, rx': WL.State)
    requires Links(s) && t < |s.places| && s.places[t] == Sending(false) && s.rx.threads[t] != WL.Idle
    requires WL.WakeEffect(s.rx, rx', t)
    requires s.rx.list != [] ==> s.rx.list[0] in s.rx.h.status && s.rx.h.status[s.rx.list[0]].Linked?
    requires s.rx.threads[t].Completing? ==> s.rx.threads[t].w in s.rx.h.status
    ensures Links(WakeStep(s, t, Some(rx')).value)
  {
    var s' := WakeStep(s, t, Some(rx')).value;
    assert PlaceOk(s, t);
    forall u | 0 <= u < |s.places| ensures PlaceOk(s', u) { assert PlaceOk(s, u); }
    forall x | x in s'.rx.h.status ensures SleeperOk(s', x) { assert SleeperOk(s, x); }
  }

  /** A sender that wakes a receiver passes its help on; one that finds nobody to wake
      stops helping when nobody sleeps. */
  lemma WakeCovered<T>(s: State<T>, t: nat, rx': WL.State)
    requires Links(s) && Covered(s) && WL.Inv(s.rx) && t < |s.places|
    requires s.places[t] == Sending(false) && s.rx.threads[t] != WL.Idle
    requires WL.WakeEffect(s.rx, rx', t)
    ensures SameSize(WakeStep(s, t, Some(rx')).value) && Covered(WakeStep(s, t, Some(rx')).value)
  {
    var s', pc := WakeStep(s, t, Some(rx')).value, s.rx.threads[t];
    assert PlaceOk(s, t) && WL.ThreadOk(s.rx, t);
    if pc.Completing? {
      var u := s.who[pc.w];
      assert SleeperOk(s, pc.w) && PlaceOk(s, u) && s.places[u] == Asleep(pc.w);
      forall v | 0 <= v < |s.places| && v != t && v != u ensures Helps(s', v) <==> Helps(s, v) { assert PlaceOk(s, v); }
      assert Helpers(s') == Helpers(s) - {t} + {u};
      WL.SameSleepers(s.rx, rx', t);
    } else if rx'.threads[t] == WL.Idle {
      forall u | 0 <= u < |rx'.threads| && rx'.threads[u].Suspends? ensures !rx'.threads[u].at.Committed? {
        assert s.rx.threads[u] == rx'.threads[u] && WL.ThreadOk(s.rx, u);
      }
    } else {
      WL.SameSleepers(s.rx, rx', t);
      HelpersMove(s, s', t);
    }
  }

  lemma WakeInv<T>(s: State<T>, t: nat)
    requires Inv(s) && Step(s, WakeGo(t)).Some?
    ensures Inv(Step(s, WakeGo(t)).value)
  {
    var rx' := WL.Step(s.rx, WL.Go(t, false)).value;
    assert PlaceOk(s, t) && WL.ThreadOk(s.rx, t);
    WL.StepInv(s.rx, WL.Go(t, false));
    WL.WakeSeen(s.rx, t);
    WakeLinks(s, t, rx');
    WakeCovered(s, t, rx');
  }

  /** Beginning to wait touches no other place, and no other waiter. */
  lemma WaitPlace<T>(s: State<T>, t: nat, w: nat, u: nat)
    requires SameSize(s) && Step(s, Wait(t, w)).Some? && w !in s.rx.h.status
    requires PlaceOk(s, t) && u < |s.places| && PlaceOk(s, u)
    requires s.rx.threads[u].Suspends? ==> s.rx.threads[u].w in s.rx.h.status
    ensures PlaceOk(Step(s, Wait(t, w)).value, u)
  {
  }

  lemma WaitSleeper<T>(s: State<T>, t: nat, w: nat, x: nat)
    requires SameSize(s) && Step(s, Wait(t, w)).Some? && x in Step(s, Wait(t, w)).value.rx.h.status
    requires PlaceOk(s, t) && (if x in s.rx.h.status then SleeperOk(s, x) else x !in s.rx.h.times)
    ensures SleeperOk(Step(s, Wait(t, w)).value, x)
  {
  }

  lemma WaitInv<T>(s: State<T>, t: nat, w: nat)
    requires Inv(s) && Step(s, Wait(t, w)).Some?
    ensures Inv(Step(s, Wait(t, w)).value)
  {
    var s' := Step(s, Wait(t, w)).value;
    assert PlaceOk(s, t);
    WL.StepInv(s.rx, WL.Begin(t, WL.Suspend(w)));
    forall u | 0 <= u < |s.places| ensures PlaceOk(s', u) {
      assert PlaceOk(s, u) && WL.ThreadOk(s.rx, u);
      WaitPlace(s, t, w, u);
    }
    forall x | x in s'.rx.h.status ensures SleeperOk(s', x) {
      assert x in s.rx.h.status ==> SleeperOk(s, x);
      WaitSleeper(s, t, w, x);
    }
    WaitCovered(s, t, w);
  }

  lemma WaitCovered<T>(s: State<T>, t: nat, w: nat)
    requires SameSize(s) && Covered(s) && Step(s, Wait(t, w)).Some? && PlaceOk(s, t)
    ensures SameSize(Step(s, Wait(t, w)).value) && Covered(Step(s, Wait(t, w)).value)
  {
    var s' := Step(s, Wait(t, w)).value;
    WL.SameSleepers(s.rx, s'.rx, t);
    HelpersMove(s, s', t);
  }

  lemma SeenInv<T>(s: State<T>, t: nat)
    requires Inv(s) && t < |s.places| && s.places[t].Waiting? && s.rx.threads[t].Suspends? && s.rx.threads[t].at.Marked?
    ensures Inv(s.(places := s.places[t := s.places[t].(seen := Some(s.ring.head))]))
  {
    var s' := s.(places := s.places[t := s.places[t].(seen := Some(s.ring.head))]);
    forall u | 0 <= u < |s.places| ensures PlaceOk(s', u) { assert PlaceOk(s, u); }
    forall x | x in s'.rx.h.status ensures SleeperOk(s', x) { assert SleeperOk(s, x); }
    HelpersMove(s, s', t);
  }

  lemma ParkLinks<T>(s: State<T>, t: nat, w: nat, rx': WL.State, blocks: bool)
    requires Links(s) && t < |s.places| && s.places[t].Waiting? && s.places[t].w == w
    requires w in s.rx.h.status && s.rx.h.status[w].Suspending?
    requires WL.SuspendEffect(s.rx, rx', t, w, blocks)
    ensures Links(ParkStep(s, t, Some(rx')).value)
  {
    var s' := ParkStep(s, t, Some(rx')).value;
    assert PlaceOk(s, t);
    forall u | 0 <= u < |s.places| ensures PlaceOk(s', u) { assert PlaceOk(s, u); }
    forall x | x in s'.rx.h.status ensures SleeperOk(s', x) { assert SleeperOk(s, x); }
  }

  /** A receiver commits to sleep only at an instant when no ticket is unclaimed. */
  lemma ParkCovered<T>(s: State<T>, t: nat, w: nat, rx': WL.State)
    requires Links(s) && Covered(s) && t < |s.places| && s.places[t].Waiting? && s.places[t].w == w
    requires s.ring.head <= s.ring.tail
    requires WL.SuspendEffect(s.rx, rx', t, w, Blocks(s, t))
    ensures SameSize(ParkStep(s, t, Some(rx')).value) && Covered(ParkStep(s, t, Some(rx')).value)
  {
    var s' := ParkStep(s, t, Some(rx')).value;
    assert PlaceOk(s, t);
    if !Blocks(s, t) {
      WL.SameSleepers(s.rx, rx', t);
      HelpersMove(s, s', t);
    }
  }

  lemma ParkInv<T>(s: State<T>, t: nat)
    requires Inv(s) && Step(s, SuspendGo(t)).Some?
    requires !(s.rx.threads[t].at.Marked? && s.places[t].seen.None?)
    ensures Inv(Step(s, SuspendGo(t)).value)
  {
    var w, b := s.places[t].w, Blocks(s, t);
    var rx' := WL.Step(s.rx, WL.Go(t, b)).value;
    assert PlaceOk(s, t) && WL.ThreadOk(s.rx, t);
    WL.StepInv(s.rx, WL.Go(t, b));
    WL.SuspendSeen(s.rx, t, b);
    ParkLinks(s, t, w, rx', b);
    ParkCovered(s, t, w, rx');
  }

  lemma ResumeInv<T>(s: State<T>, t: nat)
    requires Inv(s) && Step(s, Resume(t)).Some?
    ensures Inv(Step(s, Resume(t)).value)
  {
    var s' := Step(s, Resume(t)).value;
    assert PlaceOk(s, t);
    forall u | 0 <= u < |s.places| ensures PlaceOk(s', u) { assert PlaceOk(s, u); }
    forall x | x in s'.rx.h.status ensures SleeperOk(s', x) { assert SleeperOk(s, x); }
    HelpersMove(s, s', t);
  }

  lemma OtherLinks<T>(s: State<T>, t: nat, rx': WL.State)
    requires Links(s) && |s.places| <= t < |s.rx.threads| && WL.CancelEffect(s.rx, rx', t)
    ensures Links(s.(rx := rx'))
  {
    var s' := s.(rx := rx');
    forall u | 0 <= u < |s.places| ensures PlaceOk(s', u) { assert PlaceOk(s, u); }
    forall x | x in s'.rx.h.status ensures SleeperOk(s', x) { assert SleeperOk(s, x); }
  }

  /** A cancel takes no help away. */
  lemma OtherHelps<T>(s: State<T>, t: nat, rx': WL.State, u: nat)
    requires SameSize(s) && u < |s.places| <= t && PlaceOk(s, u) && Helps(s, u) && WL.CancelEffect(s.rx, rx', t)
    requires s.places[u].Asleep? ==> WL.Times(rx'.h, s.places[u].w) <= 1
    ensures Helps(s.(rx := rx'), u)
  {
  }

  lemma OtherInv<T>(s: State<T>, t: nat, l: WL.Label)
    requires Inv(s) && Step(s, Other(t, l)).Some?
    ensures Inv(Step(s, Other(t, l)).value)
  {
    var rx' := WL.Step(s.rx, l).value;
    var s' := s.(rx := rx');
    assert OtherOk(s.rx.threads[t]) && WL.ThreadOk(s.rx, t);
    WL.StepInv(s.rx, l);
    WL.CancelSeen(s.rx, l);
    OtherLinks(s, t, rx');
    WL.SameSleepers(s.rx, rx', t);
    forall u | u in Helpers(s) ensures u in Helpers(s') {
      assert PlaceOk(s, u);
      assert s.places[u].Asleep? ==> WL.WaiterOk(rx', s.places[u].w);
      OtherHelps(s, t, rx', u);
    }
    assert Helpers(s') == Helpers(s) + (Helpers(s') - Helpers(s));
  }

  // ----- giving up

  /** A receiver that was woken gives up. */
  predicate Abandons<T>(s: State<T>, l: Label<T>) {
    l.GiveUp? && l.t < |s.places| && s.places[l.t] == Receiving(true)
  }

  /** Whoever gives up leaves the rest covered, unless it was woken and every helper is
      needed: then the wake is lost. */
  lemma GiveUpDecides<T>(s: State<T>, t: nat)
    requires Inv(s) && Step(s, GiveUp(t)).Some?
    ensures Base(Step(s, GiveUp(t)).value)
    ensures Covered(Step(s, GiveUp(t)).value) <==>
      !(s.places[t] == Receiving(true) && WL.Sleepers(s.rx) && s.ring.tail - s.ring.head == |Helpers(s)|)
  {
    var s' := Step(s, GiveUp(t)).value;
    assert PlaceOk(s, t);
    forall u | 0 <= u < |s.places| ensures PlaceOk(s', u) { assert PlaceOk(s, u); }
    forall x | x in s'.rx.h.status ensures SleeperOk(s', x) { assert SleeperOk(s, x); }
    HelpersMove(s, s', t);
  }

  lemma StepInv<T>(s: State<T>, l: Label<T>)
    requires Inv(s) && Step(s, l).Some? && !Abandons(s, l)
    ensures Inv(Step(s, l).value)
  {
    match l
    case WakeStart(t) => StartWakeInv(s, t);
    case WakeGo(t) => WakeInv(s, t);
    case Wait(t, w) => WaitInv(s, t, w);
    case SuspendGo(t) =>
      if s.rx.threads[t].at.Marked? && s.places[t].seen.None? {
        SeenInv(s, t);
      } else {
        ParkInv(s, t);
      }
    case Resume(t) => ResumeInv(s, t);
    case GiveUp(t) => GiveUpDecides(s, t);
    case Other(t, wl) => OtherInv(s, t, wl);
    case _ => RingInv(s, l);
  }

  // ----- what holds of every run

  /** Runs in which no receiver that was woken gives up. */
  function Patient<T>(s: State<T>, l: Label<T>): (r: Option<State<T>>) {
    if Abandons(s, l) then None else Step(s, l)
  }

  ghost function Run<T>(n: nat, threads: nat, others: nat, labels: seq<Label<T>>): (s: Option<State<T>>) {
    Machine.Exec((s, l) => Patient(s, l), Init(n, threads, others), labels)
  }

  /** While a receiver sleeps (or has decided to), the values nobody has claimed are at
      most as many as the senders still on their way to wake plus the woken receivers
      that have neither taken an item nor gone back to sleep. */
  lemma RunsAreCovered<T(!new)>(n: nat, threads: nat, others: nat, labels: seq<Label<T>>)
    requires n >= 2 && Run(n, threads, others, labels).Some?
    ensures var s := Run(n, threads, others, labels).value;
      Inv(s) && Covered(s)
  {
    InitInv<T>(n, threads, others);
    forall s: State<T>, l | Inv(s) && Patient(s, l).Some? ensures Inv(Patient(s, l).value) { StepInv(s, l); }
    Machine.RunsKeep((s, l) => Patient(s, l), s => Inv(s), Init<T>(n, threads, others), labels);
  }

  /** So no receiver sleeps beside an item with nobody coming. */
  lemma NoItemLeftBehind<T>(s: State<T>)
    requires Inv(s) && WL.Sleepers(s.rx) && s.ring.head < s.ring.tail
    ensures exists t :: 0 <= t < |s.places| && Helps(s, t)
  {
    assert Helpers(s) != {};
    var t :| t in Helpers(s);
  }

  // ----- a wake that is lost

  /** Everybody is back, the value is there, and yet a receiver sleeps with nobody coming. */
  ghost predicate Stranded<T>(s: State<T>) {
    && SameSize(s) && WL.Sleepers(s.rx) && s.ring.head < s.ring.tail
    && (forall t :: 0 <= t < |s.places| ==>
          s.ring.threads[t].Ready? && s.rx.threads[t] == WL.Idle && !Helps(s, t))
  }

  ghost predicate Reached<T(!new)>(s: State<T>) {
    Machine.Reaches((x, l) => Step(x, l), Init<T>(2, 3, 0), s)
  }

  lemma After<T(!new)>(s: State<T>, l: Label<T>) returns (s': State<T>)
    requires Reached(s) && Step(s, l).Some?
    ensures s' == Step(s, l).value && Reached(s')
  {
    Machine.ReachStep((x, l) => Step(x, l), Init<T>(2, 3, 0), s, l);
    s' := Step(s, l).value;
  }

  /** The ring before anything was sent. */
  ghost predicate Unused<T>(ring: Ring.State<T>) {
    && ring.head == 0 && ring.tail == 0 && ring.sent == [] && ring.seqs == [0, 1] && |ring.data| == 2
      && |ring.turn| == 2
    && |ring.threads| == 3 && forall t :: 0 <= t < 3 ==> ring.threads[t] == Ring.Ready(Ring.Empty)
  }

  /** A receiver looks and finds nothing. */
  lemma FindsNothing<T(!new)>(s: State<T>, t: nat) returns (s': State<T>)
    requires Reached(s) && t < |s.places| == 3 && |s.rx.threads| == 3 && s.places[t] == Free && Unused(s.ring)
    ensures Reached(s') && Unused(s'.ring) && s' == s.(ring := s'.ring, places := s.places[t := Receiving(false)])
  {
    s' := After(s, BeginRecv(t));
    s' := After(s', Call(t, false));
    s' := After(s', Call(t, false));
    assert s'.places == s.places[t := Receiving(false)];
  }

  /** Then it goes to sleep: it takes the lock, */
  lemma Enters<T(!new)>(s: State<T>, t: nat, w: nat) returns (s': State<T>)
    requires Reached(s) && t < |s.places| == 3 && s.places[t] == Receiving(false) && Unused(s.ring)
    requires |s.rx.threads| == 3 && s.rx.threads[t] == WL.Idle && w !in s.rx.h.status && s.rx.lock == None
    ensures Reached(s') && s'.ring == s.ring && s'.places == s.places[t := Waiting(w, false, None)]
    ensures s'.rx == s.rx.(lock := Some(t), threads := s.rx.threads[t := WL.Suspends(w, WL.Inside)],
                           h := s.rx.h.(status := s.rx.h.status[w := WL.Suspending(t)]))
  {
    s' := After(s, Wait(t, w));
    assert s'.places[t] == Waiting(w, false, None) && s'.rx.threads[t] == WL.Suspends(w, WL.Arriving);
    s' := After(s', SuspendGo(t));
    assert s'.rx.threads == s.rx.threads[t := WL.Suspends(w, WL.Inside)];
    assert s'.places == s.places[t := Waiting(w, false, None)];
  }

  /** finds the list open and marks it, */
  lemma Marks<T(!new)>(s: State<T>, t: nat, w: nat) returns (s': State<T>)
    requires Reached(s) && t < |s.places| == 3 && s.places[t] == Waiting(w, false, None) && |s.ring.threads| == 3
    requires |s.rx.threads| == 3 && s.rx.threads[t] == WL.Suspends(w, WL.Inside) && !s.rx.closed
    ensures Reached(s') && s'.ring == s.ring && s'.places == s.places
    ensures s'.rx == s.rx.(empty := false, threads := s.rx.threads[t := WL.Suspends(w, WL.Marked)])
  {
    s' := After(s, SuspendGo(t));
    s' := After(s', SuspendGo(t));
    assert s'.rx.threads == s.rx.threads[t := WL.Suspends(w, WL.Marked)];
    assert s'.places == s.places;
  }

  /** compares the counters, */
  lemma Commits<T(!new)>(s: State<T>, t: nat, w: nat) returns (s': State<T>)
    requires Reached(s) && t < |s.places| == 3 && s.places[t] == Waiting(w, false, None)
    requires s.ring.head == s.ring.tail && |s.ring.threads| == 3
    requires |s.rx.threads| == 3 && s.rx.threads[t] == WL.Suspends(w, WL.Marked)
    ensures Reached(s') && s'.ring == s.ring && s'.places == s.places
    ensures s'.rx == s.rx.(threads := s.rx.threads[t := WL.Suspends(w, WL.Committed)])
  {
    s' := After(s, SuspendGo(t));
    assert Blocks(s', t);
    s' := After(s', SuspendGo(t));
    assert s'.places == s.places;
  }

  /** and joins the list. */
  lemma Joins<T(!new)>(s: State<T>, t: nat, w: nat) returns (s': State<T>)
    requires Reached(s) && t < |s.places| == 3 && s.places[t] == Waiting(w, false, None) && |s.ring.threads| == 3
    requires |s.rx.threads| == 3 && s.rx.threads[t] == WL.Suspends(w, WL.Committed)
    ensures Reached(s') && s'.ring == s.ring && s'.places == s.places[t := Asleep(w)]
    ensures s'.rx == s.rx.(lock := None, list := s.rx.list + [w], threads := s.rx.threads[t := WL.Idle],
                           h := s.rx.h.(status := s.rx.h.status[w := WL.Linked]))
  {
    s' := After(s, SuspendGo(t));
  }

  lemma GoesToSleep<T(!new)>(s: State<T>, t: nat, w: nat) returns (s': State<T>)
    requires Reached(s) && t < |s.places| == 3 && s.places[t] == Free && Unused(s.ring)
    requires |s.rx.threads| == 3 && s.rx.threads[t] == WL.Idle && w !in s.rx.h.status && s.rx.lock == None
      && !s.rx.closed
    ensures Reached(s') && Unused(s'.ring) && s'.places == s.places[t := Asleep(w)]
    ensures s'.rx == s.rx.(list := s.rx.list + [w], empty := false,
      h := s.rx.h.(status := s.rx.h.status[w := WL.Linked]))
  {
    s' := FindsNothing(s, t);
    s' := Enters(s', t, w);
    s' := Marks(s', t, w);
    s' := Commits(s', t, w);
    s' := Joins(s', t, w);
    assert s'.rx.threads == s.rx.threads && s'.places == s.places[t := Asleep(w)];
    assert s'.rx.h.status == s.rx.h.status[w := WL.Linked];
  }

  /** Task 2 sees a free slot, */
  lemma Sees<T(!new)>(s: State<T>, value: T) returns (s': State<T>)
    requires Reached(s) && Unused(s.ring) && s.places == [Asleep(0), Asleep(1), Free] && |s.rx.threads| == 3
    ensures Reached(s') && s'.places == [Asleep(0), Asleep(1), Sending(false)] && s'.rx == s.rx
    ensures s'.ring == s.ring.(threads := s.ring.threads[2 := Ring.Loaded(Ring.Send(value), 0)])
  {
    s' := After(s, BeginSend(2, value));
    s' := After(s', Call(2, false));
    assert s'.ring.threads == s.ring.threads[2 := Ring.Loaded(Ring.Send(value), 0)];
  }

  /** and takes the first ticket. */
  lemma Claims<T(!new)>(s: State<T>, value: T) returns (s': State<T>)
    requires Reached(s) && s.places == [Asleep(0), Asleep(1), Sending(false)] && |s.rx.threads| == 3
    requires s.ring.tail == 0 && s.ring.sent == [] && s.ring.seqs == [0, 1] && |s.ring.data| == |s.ring.turn| == 2
    requires |s.ring.threads| == 3 && s.ring.threads[2] == Ring.Loaded(Ring.Send(value), 0)
    ensures Reached(s') && s'.places == s.places && s'.rx == s.rx
    ensures s'.ring == s.ring.(tail := 1, sent := [value],
      threads := s.ring.threads[2 := Ring.Claimed(Ring.Send(value), 0)])
  {
    s' := After(s, Call(2, false));
    assert s'.ring.threads == s.ring.threads[2 := Ring.Matched(Ring.Send(value), 0)];
    s' := After(s', Call(2, false));
  }

  /** Then it wakes the first sleeper: it pops the waiter */
  lemma Pops<T(!new)>(s: State<T>) returns (s': State<T>)
    requires Reached(s) && s.places == [Asleep(0), Asleep(1), Sending(false)]
    requires |s.ring.threads| == 3 && s.ring.threads[2].Claimed?
    requires s.rx.list == [0, 1] && !s.rx.empty && s.rx.lock == None && s.rx.threads == [WL.Idle, WL.Idle, WL.Idle]
    ensures Reached(s') && s'.places == s.places && s'.ring == s.ring
    ensures s'.rx.list == [1] && s'.rx.threads == [WL.Idle, WL.Idle, WL.Completing(0, WL.Woken, false)]
    ensures s'.rx.h.times == s.rx.h.times
  {
    s' := After(s, WakeStart(2));
    s' := After(s', WakeGo(2));
    s' := After(s', WakeGo(2));
  }

  /** and completes it. */
  lemma Completes<T(!new)>(s: State<T>) returns (s': State<T>)
    requires Reached(s) && s.places == [Asleep(0), Asleep(1), Sending(false)] && |s.ring.threads| == 3
    requires s.rx.threads == [WL.Idle, WL.Idle, WL.Completing(0, WL.Woken, false)] && s.rx.h.times == map[]
    ensures Reached(s') && s'.places == [Asleep(0), Asleep(1), Sending(true)] && s'.ring == s.ring
    ensures s'.rx.list == s.rx.list && s'.rx.threads == [WL.Idle, WL.Idle, WL.Idle]
    ensures WL.Times(s'.rx.h, 0) == 1 && WokenUp(s'.rx, 0) && WL.Times(s'.rx.h, 1) == 0
  {
    s' := After(s, WakeGo(2));
  }

  /** The woken receiver begins again, */
  lemma Resumes<T(!new)>(s: State<T>, value: T) returns (s': State<T>)
    requires Reached(s) && s.places == [Asleep(0), Asleep(1), Sending(true)] && |s.rx.threads| == 3
    requires WL.Times(s.rx.h, 0) == 1 && WokenUp(s.rx, 0) && |s.ring.data| == |s.ring.turn| == |s.ring.seqs| == 2
    requires s.ring.threads == [Ring.Ready(Ring.Empty), Ring.Ready(Ring.Empty), Ring.Claimed(Ring.Send(value), 0)]
    ensures Reached(s') && s'.places == [Receiving(true), Asleep(1), Sending(true)] && s'.rx == s.rx
    ensures s'.ring == s.ring.(threads := [Ring.Start(Ring.Recv), Ring.Ready(Ring.Empty),
      Ring.Claimed(Ring.Send(value), 0)])
  {
    s' := After(s, Resume(0));
    s' := After(s', Retry(0));
  }

  /** looks before the value is published, */
  lemma Looks<T(!new)>(s: State<T>, value: T) returns (s': State<T>)
    requires Reached(s) && s.places == [Receiving(true), Asleep(1), Sending(true)] && |s.rx.threads| == 3
    requires s.ring.head == 0 && s.ring.seqs == [0, 1] && |s.ring.data| == |s.ring.turn| == 2
    requires s.ring.threads == [Ring.Start(Ring.Recv), Ring.Ready(Ring.Empty), Ring.Claimed(Ring.Send(value), 0)]
    ensures Reached(s') && s'.places == s.places && s'.rx == s.rx
    ensures s'.ring == s.ring.(threads := [Ring.Ready(Ring.Empty), Ring.Ready(Ring.Empty),
      Ring.Claimed(Ring.Send(value), 0)])
  {
    s' := After(s, Call(0, false));
    s' := After(s', Call(0, false));
  }

  /** and gives up. */
  lemma GivesUp<T(!new)>(s: State<T>) returns (s': State<T>)
    requires Reached(s) && s.places == [Receiving(true), Asleep(1), Sending(true)] && |s.rx.threads| == 3
    requires |s.ring.threads| == 3 && s.ring.threads[0] == Ring.Ready(Ring.Empty)
    ensures Reached(s') && s'.places == [Free, Asleep(1), Sending(true)] && s'.rx == s.rx && s'.ring == s.ring
  {
    s' := After(s, GiveUp(0));
  }

  lemma Publishes<T(!new)>(s: State<T>, value: T) returns (s': State<T>)
    requires Reached(s) && s.places == [Free, Asleep(1), Sending(true)] && |s.rx.threads| == 3
    requires |s.ring.data| == |s.ring.turn| == |s.ring.seqs| == 2
    requires s.ring.threads == [Ring.Ready(Ring.Empty), Ring.Ready(Ring.Empty), Ring.Claimed(Ring.Send(value), 0)]
    ensures Reached(s') && s'.places == [Free, Asleep(1), Free] && s'.rx == s.rx
    ensures s'.ring.head == s.ring.head && s'.ring.tail == s.ring.tail
    ensures s'.ring.threads == [Ring.Ready(Ring.Empty), Ring.Ready(Ring.Empty), Ring.Ready(Ring.Sent)]
  {
    s' := After(s, Call(2, false));
    s' := After(s', Call(2, false));
  }

  /** The wake goes to the first of two sleeping receivers; it looks before the value is
      published, is interrupted and gives up; and the second sleeps on beside the value. */
  lemma WakeIsLost<T(!new)>(value: T)
    ensures exists s: State<T> :: Reached(s) && Stranded(s)
  {
    var s := BothAsleep<T>();
    s := Sees(s, value);
    s := Claims(s, value);
    s := Pops(s);
    s := Completes(s);
    s := Resumes(s, value);
    s := Looks(s, value);
    s := GivesUp(s);
    s := Publishes(s, value);
    assert Stranded(s);
  }

  lemma BothAsleep<T(!new)>() returns (s: State<T>)
    ensures Reached(s) && Unused(s.ring) && s.places == [Asleep(0), Asleep(1), Free]
    ensures s.rx.list == [0, 1] && !s.rx.empty && s.rx.lock == None && s.rx.threads == [WL.Idle, WL.Idle, WL.Idle]
    ensures s.rx.h.times == map[]
  {
    s := Init(2, 3, 0);
    Machine.ReachSelf((x: State<T>, l: Label<T>) => Step(x, l), s);
    s := GoesToSleep(s, 0, 0);
    s := GoesToSleep(s, 1, 1);
  }
}
