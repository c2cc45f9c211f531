/** The broadcast channel of `async_std/sync/broadcast.rs`, operation by operation: who is
    counted, what is found, and who is woken.

    Sending is a `fetch_add` of `tail`, a load of `rx_count`, the write under the slot's
    lock, and `wake_all`; subscribing is a `fetch_add` of `rx_count` and a load of `tail`.
    `try_recv` runs under the slot's lock and is one step.  Tasks `0 .. |places|` are threads
    of the wait list, each with one receiver or inside one send; further threads only cancel
    sleeping waiters.  Senders do not close the channel. */
module BroadcastSteps {
  import opened Wrappers
  import Machine
  import Ring
  import WL = WaitList

  datatype Slot<T> = Slot(sequence: nat, remaining: nat, data: Option<T>)

  datatype Place<T> =
    | Free
    | Joining                                           // counted, before the load of `tail`
    | Member(pos: nat)                                  // a receiver
    | Waiting(pos: nat, w: nat)                         // inside `suspend`
    | Asleep(pos: nat, w: nat)
    | Claimed(ticket: nat, value: T)                    // send: before the load of `rx_count`
    | Counted(ticket: nat, value: T, receivers: nat)    // before the write
    | Waking(ticket: nat, begun: bool)                  // wrote; `wake_all`

  datatype State<T> = State(
    tail: nat,
    count: nat,
    slots: seq<Slot<T>>,
    sent: seq<T>,
    places: seq<Place<T>>,
    rx: WL.State,
    who: map<nat, nat>)

  datatype Label<T> =
    | Join(t: nat)
    | Enter(t: nat)
    | Leave(t: nat)
    | Synchronize(t: nat)
    | Receive(t: nat)
    | Send(t: nat, value: T)
    | Count(t: nat)
    | Write(t: nat)
    | Wait(t: nat, w: nat)
    | SuspendGo(t: nat)
    | Resume(t: nat)
    | WakeStart(t: nat)
    | WakeGo(t: nat)
    | Other(t: nat, l: WL.Label)     // a cancel by some other thread

  function Init<T>(n: nat, threads: nat, others: nat): (s: State<T>) {
    State(0, 0, seq(n, (i: nat) => Slot(i, 0, None)), [], seq(threads, _ => Free), WL.Init(threads + others), map[])
  }

  function At<T>(s: State<T>, t: nat, place: Place<T>): (r: State<T>)
    requires t < |s.places|
  {
    s.(places := s.places[t := place])
  }

  /** `try_recv` at position `pos`. */
  function ReceiveStep<T>(s: State<T>, t: nat, pos: nat): (r: State<T>)
    requires t < |s.places| && |s.slots| > 0
  {
    var i := Ring.Slot(pos, |s.slots|);
    var slot := s.slots[i];
    if slot.sequence == pos + 1 then
      var remaining := if slot.remaining > 0 then slot.remaining - 1 else 0;
      At(s, t, Member(pos + 1)).(
        slots := s.slots[i := slot.(remaining := remaining, data := if remaining == 0 then None else slot.data)])
    else if slot.sequence < pos + 1 || s.tail < |s.slots| then s
    else At(s, t, Member(s.tail - |s.slots|))
  }

  function WriteStep<T>(s: State<T>, t: nat, ticket: nat, value: T, receivers: nat): (r: State<T>)
    requires t < |s.places| && |s.slots| > 0
  {
    var slot := Slot(ticket + 1, receivers, if receivers == 0 then None else Some(value));
    At(s, t, if receivers == 0 then Free else Waking(ticket, false)).(
      slots := s.slots[Ring.Slot(ticket, |s.slots|) := slot])
  }

  /** The steps on the counters and slots. */
  function CounterStep<T>(s: State<T>, l: Label<T>): (r: Option<State<T>>)
    requires l.t < |s.places| && |s.slots| > 0 && OnCounters(l)
  {
    var place := s.places[l.t];
    match l
    case Join(t) => if place != Free then None else Some(At(s, t, Joining).(count := s.count + 1))
    case Enter(t) => if place != Joining then None else Some(At(s, t, Member(s.tail)))
    case Leave(t) =>
      if !place.Member? then None else Some(At(s, t, Free).(count := if s.count > 0 then s.count - 1 else 0))
    case Synchronize(t) => if !place.Member? then None else Some(At(s, t, Member(s.tail)))
    case Receive(t) => if !place.Member? then None else Some(ReceiveStep(s, t, place.pos))
    case Send(t, value) =>
      if place != Free then None
      else Some(At(s, t, Claimed(s.tail, value)).(tail := s.tail + 1, sent := s.sent + [value]))
    case Count(t) =>
      if !place.Claimed? then None else Some(At(s, t, Counted(place.ticket, place.value, s.count)))
    case Write(t) =>
      if !place.Counted? then None else Some(WriteStep(s, t, place.ticket, place.value, place.receivers))
  }

  predicate OnCounters<T>(l: Label<T>) {
    l.Join? || l.Enter? || l.Leave? || l.Synchronize? || l.Receive? || l.Send? || l.Count? || l.Write?
  }

  /** The steps on the wait list. */
  function ListStep<T>(s: State<T>, l: Label<T>): (r: Option<State<T>>)
    requires l.t < |s.places| && l.t < |s.rx.threads| && !OnCounters(l) && !l.Other?
  {
    var place := s.places[l.t];
    match l
    case Wait(t, w) =>
      if !place.Member? then None
      else Moved(s.(who := s.who[w := t]), t, Waiting(place.pos, w), WL.Step(s.rx, WL.Begin(t, WL.Suspend(w))))
    case SuspendGo(t) =>
      if !place.Waiting? then None else ParkStep(s, t, place, WL.Step(s.rx, WL.Go(t, s.tail == place.pos)))
    case Resume(t) =>
      if !place.Asleep? || WL.Times(s.rx.h, place.w) == 0 then None else Some(At(s, t, Member(place.pos)))
    case WakeStart(t) =>
      if !place.Waking? || place.begun then None
      else Moved(s, t, Waking(place.ticket, true), WL.Step(s.rx, WL.Begin(t, WL.WakeAll)))
    case WakeGo(t) =>
      if !place.Waking? || !place.begun then None
      else
        var rx := WL.Step(s.rx, WL.Go(t, false));
        Moved(s, t, if rx.Some? && t < |rx.value.threads| && rx.value.threads[t] == WL.Idle then Free else place, rx)
  }

  function Moved<T>(s: State<T>, t: nat, place: Place<T>, rx: Option<WL.State>): (r: Option<State<T>>)
    requires t < |s.places|
  {
    if rx.None? then None else Some(At(s, t, place).(rx := rx.value))
  }

  /** When suspend returns, the receiver sleeps or goes on. */
  function ParkStep<T>(s: State<T>, t: nat, place: Place<T>, rx: Option<WL.State>): (r: Option<State<T>>)
    requires t < |s.places| && place.Waiting?
  {
    if rx.None? then None
    else
      var returned := t < |rx.value.threads| && rx.value.threads[t] == WL.Idle;
      var pending := place.w in rx.value.h.status && WL.Pending(rx.value.h.status[place.w]);
      Moved(s, t, if !returned then place else if pending then Asleep(place.pos, place.w) else Member(place.pos), rx)
  }

  function Step<T>(s: State<T>, l: Label<T>): (r: Option<State<T>>) {
    if |s.slots| == 0 then None
    else if l.Other? then
      if l.t < |s.places| || l.l.t != l.t || (l.l.Begin? && !l.l.op.Cancel?) then None
      else OtherStep(s, WL.Step(s.rx, l.l))
    else if l.t >= |s.places| || l.t >= |s.rx.threads| then None
    else if OnCounters(l) then CounterStep(s, l)
    else ListStep(s, l)
  }

  function OtherStep<T>(s: State<T>, rx: Option<WL.State>): (r: Option<State<T>>) {
    if rx.None? then None else Some(s.(rx := rx.value))
  }

  // ----- who is counted

  predicate IsReceiver<T>(p: Place<T>) {
    p.Joining? || HasPos(p)
  }

  predicate HasPos<T>(p: Place<T>) {
    p.Member? || p.Waiting? || p.Asleep?
  }

  predicate Sends<T>(p: Place<T>) {
    p.Claimed? || p.Counted? || p.Waking?
  }

  ghost function Receivers<T>(places: seq<Place<T>>): (ts: set<nat>) {
    set t: nat | t < |places| && IsReceiver(places[t])
  }

  predicate IsDue<T>(p: Place<T>, k: nat) {
    HasPos(p) && p.pos <= k
  }

  /** The receivers that are still to get ticket `k`. */
  ghost function Due<T>(places: seq<Place<T>>, k: nat): (ts: set<nat>) {
    set t: nat | t < |places| && IsDue(places[t], k)
  }

  lemma Removed(ts: set<nat>, t: nat)
    ensures |ts| == |ts - {t}| + (if t in ts then 1 else 0)
  {
    if t in ts {
      assert ts == (ts - {t}) + {t};
    } else {
      assert ts == ts - {t};
    }
  }

  lemma ReceiversMove<T>(places: seq<Place<T>>, t: nat, p: Place<T>)
    requires t < |places|
    ensures |Receivers(places[t := p])| ==
      |Receivers(places)| + (if IsReceiver(p) then 1 else 0) - (if IsReceiver(places[t]) then 1 else 0)
  {
    var before, after := Receivers(places), Receivers(places[t := p]);
    assert after - {t} == before - {t};
    Removed(before, t);
    Removed(after, t);
  }

  lemma DueMove<T>(places: seq<Place<T>>, t: nat, p: Place<T>, k: nat)
    requires t < |places|
    ensures |Due(places[t := p], k)| ==
      |Due(places, k)| + (if IsDue(p, k) then 1 else 0) - (if IsDue(places[t], k) then 1 else 0)
  {
    var before, after := Due(places, k), Due(places[t := p], k);
    assert after - {t} == before - {t};
    Removed(before, t);
    Removed(after, t);
  }

  lemma DueAreReceivers<T>(places: seq<Place<T>>, k: nat)
    ensures |Due(places, k)| <= |Receivers(places)|
  {
    var due, all := Due(places, k), Receivers(places);
    assert due <= all;
    assert all == due + (all - due);
  }

  /** What a receiver or sender is entitled to. */
  ghost predicate PlaceOk<T>(s: State<T>, t: nat)
    requires t < |s.places|
  {
    var p := s.places[t];
    && (HasPos(p) ==> p.pos <= s.tail)
    && (Sends(p) ==> p.ticket < s.tail)
    && ((p.Claimed? || p.Counted?) && p.ticket < |s.sent| ==> p.value == s.sent[p.ticket])
    // Whoever subscribes later begins after the ticket.
    && (p.Counted? ==> |Due(s.places, p.ticket)| <= p.receivers)
  }

  /** A slot was not used yet, or holds a ticket, whose value is there while somebody is due to
      get it. */
  ghost predicate SlotOk<T>(s: State<T>, i: nat)
    requires i < |s.slots|
  {
    var slot := s.slots[i];
    if slot.sequence == i then slot == Slot(i, 0, None)
    else
      && 0 < slot.sequence <= s.tail == |s.sent| && Ring.Slot(slot.sequence - 1, |s.slots|) == i
      && |Due(s.places, slot.sequence - 1)| <= slot.remaining
      && slot.data == (if slot.remaining > 0 then Some(s.sent[slot.sequence - 1]) else None)
  }

  ghost predicate OneTicket<T>(s: State<T>) {
    forall t, u :: 0 <= t < u < |s.places| && Sends(s.places[t]) && Sends(s.places[u]) ==>
      s.places[t].ticket != s.places[u].ticket
  }

  ghost predicate Counts<T>(s: State<T>) {
    && |s.slots| > 0 && |s.sent| == s.tail && s.count == |Receivers(s.places)|
    && (forall t :: 0 <= t < |s.places| ==> PlaceOk(s, t))
    && (forall i :: 0 <= i < |s.slots| ==> SlotOk(s, i))
    && OneTicket(s)
  }

  lemma InitCounts<T>(n: nat, threads: nat, others: nat)
    requires n > 0
    ensures Counts<T>(Init(n, threads, others))
  {
    var s := Init<T>(n, threads, others);
    assert Receivers(s.places) == {};
  }

  /** A new receiver begins at the tail, and one that moves on is due for less. */
  ghost predicate NotMoreDue<T>(s: State<T>, s': State<T>) {
    forall k: nat :: k < s.tail ==> |Due(s'.places, k)| <= |Due(s.places, k)|
  }

  lemma CounterDue<T>(s: State<T>, l: Label<T>)
    requires Counts(s) && l.t < |s.places| && OnCounters(l) && CounterStep(s, l).Some?
    ensures var s' := CounterStep(s, l).value;
      && NotMoreDue(s, s') && |s'.places| == |s.places|
      && s'.places == s.places[l.t := s'.places[l.t]] && s'.count == |Receivers(s'.places)|
      && s'.rx == s.rx && s'.who == s.who && |s'.slots| == |s.slots|
  {
    var s' := CounterStep(s, l).value;
    assert PlaceOk(s, l.t);
    if l.Receive? {
      PastLap(s, l.t);
    }
    ReceiversMove(s.places, l.t, s'.places[l.t]);
    forall k: nat | k < s.tail ensures |Due(s'.places, k)| <= |Due(s.places, k)| {
      DueMove(s.places, l.t, s'.places[l.t], k);
    }
  }

  /** A receiver whose slot is a lap ahead is more than a lap behind the tail. */
  lemma PastLap<T>(s: State<T>, t: nat)
    requires Counts(s) && t < |s.places| && HasPos(s.places[t])
    ensures var n, pos := |s.slots|, s.places[t].pos;
      var seen := s.slots[Ring.Slot(pos, n)].sequence;
      && (seen > pos + 1 ==> pos + n < s.tail)
      && (seen == pos + 1 ==> pos < s.tail && s.slots[Ring.Slot(pos, n)].remaining > 0)
  {
    var n, pos := |s.slots|, s.places[t].pos;
    var i := Ring.Slot(pos, n);
    var seen := s.slots[i].sequence;
    assert SlotOk(s, i);
    SlotBelow(pos, n);
    if seen == pos + 1 {
      assert t in Due(s.places, pos);
    } else if seen > pos + 1 {
      Ring.SlotApart(pos, seen - 1, n);
    }
  }

  lemma {:induction false} SlotBelow(k: nat, n: nat)
    requires n > 0
    ensures Ring.Slot(k, n) <= k
    decreases k
  {
    if k < n {
    } else {
      SlotBelow(k - n, n);
    }
  }

  lemma CounterPlace<T>(s: State<T>, l: Label<T>, t: nat)
    requires Counts(s) && l.t < |s.places| && OnCounters(l) && CounterStep(s, l).Some? && t < |s.places|
    requires NotMoreDue(s, CounterStep(s, l).value)
    ensures |CounterStep(s, l).value.places| == |s.places| && PlaceOk(CounterStep(s, l).value, t)
  {
    assert PlaceOk(s, t) && PlaceOk(s, l.t);
    if l.Count? {
      DueAreReceivers(s.places, s.places[l.t].ticket);
    } else if l.Receive? {
      PastLap(s, l.t);
    }
  }

  /** The written slot, and the one a value was got from. */
  lemma TouchedSlot<T>(s: State<T>, l: Label<T>, i: nat)
    requires Counts(s) && l.t < |s.places| && (l.Receive? || l.Write?) && CounterStep(s, l).Some? && i < |s.slots|
    requires NotMoreDue(s, CounterStep(s, l).value)
    requires i == Ring.Slot(if l.Write? then s.places[l.t].ticket else s.places[l.t].pos, |s.slots|)
    ensures |CounterStep(s, l).value.slots| == |s.slots| && SlotOk(CounterStep(s, l).value, i)
  {
    var s' := CounterStep(s, l).value;
    assert SlotOk(s, i) && PlaceOk(s, l.t);
    if l.Receive? {
      var pos := s.places[l.t].pos;
      PastLap(s, l.t);
      if s.slots[i].sequence == pos + 1 {
        DueMove(s.places, l.t, s'.places[l.t], pos);
      }
    } else {
      SlotBelow(s.places[l.t].ticket, |s.slots|);
      DueMove(s.places, l.t, s'.places[l.t], s.places[l.t].ticket);
    }
  }

  lemma CounterSlot<T>(s: State<T>, l: Label<T>, i: nat)
    requires Counts(s) && l.t < |s.places| && OnCounters(l) && CounterStep(s, l).Some? && i < |s.slots|
    requires NotMoreDue(s, CounterStep(s, l).value)
    ensures |CounterStep(s, l).value.slots| == |s.slots| && SlotOk(CounterStep(s, l).value, i)
  {
    assert SlotOk(s, i);
    if l.Receive? && i == Ring.Slot(s.places[l.t].pos, |s.slots|) {
      TouchedSlot(s, l, i);
    } else if l.Write? && i == Ring.Slot(s.places[l.t].ticket, |s.slots|) {
      TouchedSlot(s, l, i);
    }
  }

  lemma CounterTickets<T>(s: State<T>, l: Label<T>)
    requires Counts(s) && l.t < |s.places| && OnCounters(l) && CounterStep(s, l).Some?
    ensures OneTicket(CounterStep(s, l).value)
  {
    forall t | 0 <= t < |s.places| && Sends(s.places[t]) ensures s.places[t].ticket < s.tail {
      assert PlaceOk(s, t);
    }
  }

  lemma CounterInv<T>(s: State<T>, l: Label<T>)
    requires Counts(s) && l.t < |s.places| && OnCounters(l) && CounterStep(s, l).Some?
    ensures Counts(CounterStep(s, l).value)
  {
    var s' := CounterStep(s, l).value;
    CounterDue(s, l);
    CounterTickets(s, l);
    forall t | 0 <= t < |s'.places| ensures PlaceOk(s', t) { CounterPlace(s, l, t); }
    forall i | 0 <= i < |s'.slots| ensures SlotOk(s', i) { CounterSlot(s, l, i); }
  }

  // ----- who sleeps, and who will wake

  /** What a place says about the place in the wait list. */
  ghost predicate Linked<T>(s: State<T>, t: nat)
    requires t < |s.places| <= |s.rx.threads|
  {
    var pc := s.rx.threads[t];
    match s.places[t]
    case Waiting(_, w) => pc.Suspends? && pc.w == w && w in s.who && s.who[w] == t
    case Asleep(_, w) =>
      pc == WL.Idle && w in s.rx.h.status && WL.Pending(s.rx.h.status[w]) && w in s.who && s.who[w] == t
    case Waking(_, begun) => if begun then WL.InWakeAll(pc) else pc == WL.Idle
    case _ => pc == WL.Idle
  }

  /** Each sleeping waiter is some receiver's. */
  ghost predicate SleeperOk<T>(s: State<T>, w: nat)
    requires w in s.rx.h.status
  {
    && w in s.who && s.who[w] < |s.places|
    && (s.rx.h.status[w].Suspending? ==> s.places[s.who[w]].Waiting? && s.places[s.who[w]].w == w)
    && (WL.Pending(s.rx.h.status[w]) && WL.Times(s.rx.h, w) == 0 ==>
          s.places[s.who[w]].Asleep? && s.places[s.who[w]].w == w)
  }

  predicate OtherOk(pc: WL.Pc) {
    pc == WL.Idle || pc.Unlinking? || (pc.Completing? && pc.outcome.Cancelled? && !pc.holding)
  }

  ghost predicate Links<T>(s: State<T>) {
    && |s.places| <= |s.rx.threads|
    && (forall t :: 0 <= t < |s.places| ==> Linked(s, t))
    && (forall t :: |s.places| <= t < |s.rx.threads| ==> OtherOk(s.rx.threads[t]))
    && (forall w :: w in s.rx.h.status ==> SleeperOk(s, w))
  }

  /** The receiver sleeps in the list, or has decided to. */
  ghost predicate Sleeps<T>(s: State<T>, r: nat)
    requires r < |s.places| <= |s.rx.threads|
  {
    match s.places[r]
    case Waiting(_, _) => s.rx.threads[r].Suspends? && s.rx.threads[r].at.Committed?
    case Asleep(_, w) => w in s.rx.h.status && s.rx.h.status[w].Linked?
    case _ => false
  }

  /** A send of a ticket that the position waits for, which has not finished its `wake_all`. */
  ghost predicate Coming<T>(places: seq<Place<T>>, pos: nat) {
    exists t :: 0 <= t < |places| && Covers(places[t], pos)
  }

  predicate Covers<T>(p: Place<T>, pos: nat) {
    Sends(p) && pos <= p.ticket
  }

  /** No receiver sleeps behind the tail unless a send is on its way to wake it. */
  ghost predicate Covered<T>(s: State<T>)
    requires |s.places| <= |s.rx.threads|
  {
    forall r :: 0 <= r < |s.places| && Sleeps(s, r) && s.places[r].pos < s.tail ==> Coming(s.places, s.places[r].pos)
  }

  ghost predicate Inv<T>(s: State<T>) {
    Counts(s) && WL.Inv(s.rx) && Links(s) && Covered(s)
  }

  lemma InitInv<T>(n: nat, threads: nat, others: nat)
    requires n > 0
    ensures Inv<T>(Init(n, threads, others))
  {
    InitCounts<T>(n, threads, others);
    WL.InitInv(threads + others);
  }

  // ----- steps on the counters

  /** Only `t` moves, and not in the wait list. */
  lemma CounterLinks<T>(s: State<T>, l: Label<T>)
    requires Counts(s) && Links(s) && l.t < |s.places| && OnCounters(l) && CounterStep(s, l).Some?
    ensures Links(CounterStep(s, l).value)
  {
    var s', t := CounterStep(s, l).value, l.t;
    CounterDue(s, l);
    assert Linked(s, t);
    forall u | 0 <= u < |s.places| ensures Linked(s', u) { assert Linked(s, u); }
    forall w | w in s'.rx.h.status ensures SleeperOk(s', w) { assert SleeperOk(s, w); }
  }

  /** The ticket of a send that gives its value back is waited for by nobody. */
  lemma RejectedCoversNobody<T>(s: State<T>, t: nat, r: nat)
    requires Counts(s) && t < |s.places| && r < |s.places| && s.places[t].Counted? && s.places[t].receivers == 0
    requires HasPos(s.places[r])
    ensures !Covers(s.places[t], s.places[r].pos)
  {
    assert PlaceOk(s, t);
    var due := Due(s.places, s.places[t].ticket);
    assert due == {};
    assert r !in due;
  }

  /** A position that some send was coming for is come for by the same one still, or by the
      one that takes the ticket now. */
  lemma StillComing<T>(s: State<T>, l: Label<T>, r: nat)
    requires Counts(s) && Links(s) && Covered(s) && l.t < |s.places| && OnCounters(l) && CounterStep(s, l).Some?
    requires r < |s.places| && Sleeps(s, r) && s.places[r].pos < CounterStep(s, l).value.tail
    ensures Coming(CounterStep(s, l).value.places, s.places[r].pos)
  {
    var s', t, pos := CounterStep(s, l).value, l.t, s.places[r].pos;
    if pos < s.tail {
      var u :| 0 <= u < |s.places| && Covers(s.places[u], pos);
      if u == t && l.Write? && s.places[t].receivers == 0 {
        RejectedCoversNobody(s, t, r);
      }
      assert Covers(s'.places[u], pos);
    } else {
      assert Covers(s'.places[t], pos);
    }
  }

  lemma CounterCovered<T>(s: State<T>, l: Label<T>)
    requires Counts(s) && Links(s) && Covered(s) && l.t < |s.places| && OnCounters(l) && CounterStep(s, l).Some?
    requires Links(CounterStep(s, l).value)
    ensures Covered(CounterStep(s, l).value)
  {
    var s' := CounterStep(s, l).value;
    CounterDue(s, l);
    forall r | 0 <= r < |s'.places| && Sleeps(s', r) && s'.places[r].pos < s'.tail
      ensures Coming(s'.places, s'.places[r].pos)
    {
      assert r != l.t && Sleeps(s, r);
      StillComing(s, l, r);
    }
  }

  // ----- steps on the wait list

  /** As far as the counters go, `t` has not moved, or has finished a send. */
  ghost predicate SameCounts<T>(s: State<T>, s': State<T>, t: nat) {
    && s'.tail == s.tail && s'.count == s.count && s'.slots == s.slots && s'.sent == s.sent
    && t < |s.places| && |s'.places| == |s.places| && s'.places == s.places[t := s'.places[t]]
    && SameClaim(s.places[t], s'.places[t])
  }

  predicate SameClaim<T>(p: Place<T>, q: Place<T>) {
    if HasPos(p) then HasPos(q) && q.pos == p.pos
    else p.Waking? && (q == Free || (q.Waking? && q.ticket == p.ticket))
  }

  lemma CountsStay<T>(s: State<T>, s': State<T>, t: nat)
    requires Counts(s) && SameCounts(s, s', t)
    ensures Counts(s')
  {
    ReceiversMove(s.places, t, s'.places[t]);
    forall k: nat ensures |Due(s'.places, k)| == |Due(s.places, k)| { DueMove(s.places, t, s'.places[t], k); }
    forall u | 0 <= u < |s.places| ensures PlaceOk(s', u) { assert PlaceOk(s, u); }
    forall i | 0 <= i < |s.slots| ensures SlotOk(s', i) { assert SlotOk(s, i); }
  }

  /** Nobody has begun to sleep, and no send has finished. */
  lemma CoverStays<T>(s: State<T>, s': State<T>, t: nat)
    requires |s.places| <= |s.rx.threads| && |s'.places| <= |s'.rx.threads| && Covered(s) && SameCounts(s, s', t)
    requires forall r :: 0 <= r < |s.places| && Sleeps(s', r) && s'.places[r].pos < s.tail ==> Sleeps(s, r)
    requires Sends(s.places[t]) ==> Sends(s'.places[t])
    ensures Covered(s')
  {
    forall r | 0 <= r < |s'.places| && Sleeps(s', r) && s'.places[r].pos < s'.tail
      ensures Coming(s'.places, s'.places[r].pos)
    {
      var u :| 0 <= u < |s.places| && Covers(s.places[u], s.places[r].pos);
      assert Covers(s'.places[u], s.places[r].pos);
    }
  }

  lemma WaitPlace<T>(s: State<T>, t: nat, w: nat, u: nat)
    requires |s.slots| > 0 && |s.places| <= |s.rx.threads| && Step(s, Wait(t, w)).Some?
    requires Linked(s, t) && u < |s.places| && Linked(s, u)
    requires s.rx.threads[u].Suspends? ==> s.rx.threads[u].w in s.rx.h.status
    ensures var s' := Step(s, Wait(t, w)).value;
      |s'.places| == |s.places| <= |s'.rx.threads| && Linked(s', u) && (Sleeps(s', u) ==> Sleeps(s, u))
  {
  }

  lemma WaitSleeper<T>(s: State<T>, t: nat, w: nat, x: nat)
    requires |s.places| <= |s.rx.threads| && Step(s, Wait(t, w)).Some?
    requires x in Step(s, Wait(t, w)).value.rx.h.status
    requires Linked(s, t) && (if x in s.rx.h.status then SleeperOk(s, x) else x !in s.rx.h.times)
    ensures SleeperOk(Step(s, Wait(t, w)).value, x)
  {
  }

  lemma WaitInv<T>(s: State<T>, t: nat, w: nat)
    requires Inv(s) && Step(s, Wait(t, w)).Some?
    ensures Inv(Step(s, Wait(t, w)).value)
  {
    var s' := Step(s, Wait(t, w)).value;
    assert Linked(s, t);
    WL.StepInv(s.rx, WL.Begin(t, WL.Suspend(w)));
    forall u | 0 <= u < |s.places| ensures Linked(s', u) && (Sleeps(s', u) ==> Sleeps(s, u)) {
      assert Linked(s, u) && WL.ThreadOk(s.rx, u);
      WaitPlace(s, t, w, u);
    }
    forall x | x in s'.rx.h.status ensures SleeperOk(s', x) {
      assert x in s.rx.h.status ==> SleeperOk(s, x);
      WaitSleeper(s, t, w, x);
    }
    CountsStay(s, s', t);
    CoverStays(s, s', t);
  }

  lemma ParkPlace<T>(s: State<T>, t: nat, rx': WL.State, u: nat)
    requires |s.places| <= |s.rx.threads| && t < |s.places| && s.places[t].Waiting? && Linked(s, t)
    requires WL.SuspendEffect(s.rx, rx', t, s.places[t].w, s.tail == s.places[t].pos)
    requires u < |s.places| && Linked(s, u)
    ensures var s' := ParkStep(s, t, s.places[t], Some(rx')).value;
      && Linked(s', u)
      && (Sleeps(s', u) && s'.places[u].pos < s.tail ==> Sleeps(s, u))
  {
  }

  lemma ParkInv<T>(s: State<T>, t: nat)
    requires Inv(s) && Step(s, SuspendGo(t)).Some?
    ensures Inv(Step(s, SuspendGo(t)).value)
  {
    var s', b := Step(s, SuspendGo(t)).value, s.tail == s.places[t].pos;
    var rx' := WL.Step(s.rx, WL.Go(t, b)).value;
    assert Linked(s, t) && WL.ThreadOk(s.rx, t);
    WL.StepInv(s.rx, WL.Go(t, b));
    WL.SuspendSeen(s.rx, t, b);
    forall u | 0 <= u < |s.places|
      ensures Linked(s', u) && (Sleeps(s', u) && s'.places[u].pos < s.tail ==> Sleeps(s, u))
    {
      assert Linked(s, u);
      ParkPlace(s, t, rx', u);
    }
    forall x | x in s'.rx.h.status ensures SleeperOk(s', x) { assert SleeperOk(s, x); }
    CountsStay(s, s', t);
    CoverStays(s, s', t);
  }

  lemma ResumeInv<T>(s: State<T>, t: nat)
    requires Inv(s) && Step(s, Resume(t)).Some?
    ensures Inv(Step(s, Resume(t)).value)
  {
    var s' := Step(s, Resume(t)).value;
    assert Linked(s, t);
    forall u | 0 <= u < |s.places| ensures Linked(s', u) { assert Linked(s, u); }
    forall x | x in s'.rx.h.status ensures SleeperOk(s', x) { assert SleeperOk(s, x); }
    CountsStay(s, s', t);
    CoverStays(s, s', t);
  }

  lemma WakeStartInv<T>(s: State<T>, t: nat)
    requires Inv(s) && Step(s, WakeStart(t)).Some?
    ensures Inv(Step(s, WakeStart(t)).value)
  {
    var s' := Step(s, WakeStart(t)).value;
    assert Linked(s, t);
    WL.StepInv(s.rx, WL.Begin(t, WL.WakeAll));
    forall u | 0 <= u < |s.places| ensures Linked(s', u) { assert Linked(s, u); }
    forall x | x in s'.rx.h.status ensures SleeperOk(s', x) { assert SleeperOk(s, x); }
    CountsStay(s, s', t);
    CoverStays(s, s', t);
  }

  lemma WakeLinks<T>(s: State<T>, t: nat, rx': WL.State)
    requires Links(s) && t < |s.places| && s.places[t].Waking? && s.places[t].begun && WL.WakeAllEffect(s.rx, rx', t)
    ensures var q := if rx'.threads[t] == WL.Idle then Free else s.places[t];
      Links(At(s, t, q).(rx := rx'))
  {
    var s' := At(s, t, if rx'.threads[t] == WL.Idle then Free else s.places[t]).(rx := rx');
    forall u | 0 <= u < |s.places| ensures Linked(s', u) { assert Linked(s, u); }
    forall x | x in s'.rx.h.status ensures SleeperOk(s', x) { assert SleeperOk(s, x); }
  }

  lemma WakeGoInv<T>(s: State<T>, t: nat)
    requires Inv(s) && Step(s, WakeGo(t)).Some?
    ensures Inv(Step(s, WakeGo(t)).value)
  {
    var s' := Step(s, WakeGo(t)).value;
    var rx' := WL.Step(s.rx, WL.Go(t, false)).value;
    assert Linked(s, t);
    WL.StepInv(s.rx, WL.Go(t, false));
    WL.WakeAllSeen(s.rx, t);
    WakeLinks(s, t, rx');
    CountsStay(s, s', t);
    if rx'.threads[t] == WL.Idle {
      forall r | 0 <= r < |s'.places| ensures !Sleeps(s', r) { assert Linked(s', r); }
    } else {
      CoverStays(s, s', t);
    }
  }

  lemma OtherCounts<T>(s: State<T>, rx': WL.State)
    requires Counts(s)
    ensures Counts(s.(rx := rx'))
  {
    var s' := s.(rx := rx');
    forall u | 0 <= u < |s.places| ensures PlaceOk(s', u) { assert PlaceOk(s, u); }
    forall i | 0 <= i < |s.slots| ensures SlotOk(s', i) { assert SlotOk(s, i); }
  }

  lemma OtherInv<T>(s: State<T>, t: nat, l: WL.Label)
    requires Inv(s) && Step(s, Other(t, l)).Some?
    ensures Inv(Step(s, Other(t, l)).value)
  {
    var rx' := WL.Step(s.rx, l).value;
    var s' := s.(rx := rx');
    assert OtherOk(s.rx.threads[t]) && WL.ThreadOk(s.rx, t);
    WL.StepInv(s.rx, l);
    WL.CancelSeen(s.rx, l);
    OtherLinks(s, t, rx');
    OtherCounts(s, rx');
    forall r | 0 <= r < |s'.places| && Sleeps(s', r) ensures Sleeps(s, r) { assert Linked(s, r); }
  }

  lemma OtherLinks<T>(s: State<T>, t: nat, rx': WL.State)
    requires Links(s) && |s.places| <= t < |s.rx.threads| && WL.CancelEffect(s.rx, rx', t)
    ensures Links(s.(rx := rx'))
  {
    var s' := s.(rx := rx');
    forall u | 0 <= u < |s.places| ensures Linked(s', u) { assert Linked(s, u); }
    forall x | x in s'.rx.h.status ensures SleeperOk(s', x) { assert SleeperOk(s, x); }
  }

  lemma StepInv<T>(s: State<T>, l: Label<T>)
    requires Inv(s) && Step(s, l).Some?
    ensures Inv(Step(s, l).value)
  {
    match l
    case Wait(t, w) => WaitInv(s, t, w);
    case SuspendGo(t) => ParkInv(s, t);
    case Resume(t) => ResumeInv(s, t);
    case WakeStart(t) => WakeStartInv(s, t);
    case WakeGo(t) => WakeGoInv(s, t);
    case Other(t, wl) => OtherInv(s, t, wl);
    case _ =>
      CounterInv(s, l);
      CounterDue(s, l);
      CounterLinks(s, l);
      CounterCovered(s, l);
  }

  // ----- what holds of every run

  ghost function Run<T>(n: nat, threads: nat, others: nat, labels: seq<Label<T>>): (s: Option<State<T>>) {
    Machine.Exec((s, l) => Step(s, l), Init(n, threads, others), labels)
  }

  lemma RunsKeepInv<T(!new)>(n: nat, threads: nat, others: nat, labels: seq<Label<T>>)
    requires n > 0 && Run(n, threads, others, labels).Some?
    ensures Inv(Run(n, threads, others, labels).value) && |Run(n, threads, others, labels).value.slots| == n
  {
    InitInv<T>(n, threads, others);
    forall s: State<T>, l | Inv(s) && |s.slots| == n && Step(s, l).Some?
      ensures Inv(Step(s, l).value) && |Step(s, l).value.slots| == n
    {
      StepInv(s, l);
    }
    Machine.RunsKeep((s, l) => Step(s, l), s => Inv(s) && |s.slots| == n, Init<T>(n, threads, others), labels);
  }

  /** In every run: for every ticket that stands in a slot, the receivers that are still to
      get it are no more than `remaining`; and for every ticket whose send has counted, no
      more than it counted, however the subscriptions fall between its two operations. */
  lemma EveryReceiverIsCounted<T(!new)>(n: nat, threads: nat, others: nat, labels: seq<Label<T>>)
    requires n > 0 && Run(n, threads, others, labels).Some?
    ensures var s := Run(n, threads, others, labels).value;
      && (forall i :: 0 <= i < |s.slots| && s.slots[i].sequence != i ==>
            && 0 < s.slots[i].sequence <= |s.sent|
            && |Due(s.places, s.slots[i].sequence - 1)| <= s.slots[i].remaining
            && s.slots[i].data ==
                 (if s.slots[i].remaining > 0 then Some(s.sent[s.slots[i].sequence - 1]) else None))
      && (forall t :: 0 <= t < |s.places| && s.places[t].Counted? ==>
            |Due(s.places, s.places[t].ticket)| <= s.places[t].receivers)
  {
    RunsKeepInv(n, threads, others, labels);
    var s := Run(n, threads, others, labels).value;
    forall i | 0 <= i < |s.slots| && s.slots[i].sequence != i
      ensures 0 < s.slots[i].sequence <= |s.sent|
      ensures |Due(s.places, s.slots[i].sequence - 1)| <= s.slots[i].remaining
      ensures s.slots[i].data == if s.slots[i].remaining > 0 then Some(s.sent[s.slots[i].sequence - 1]) else None
    {
      assert SlotOk(s, i);
    }
    forall t | 0 <= t < |s.places| && s.places[t].Counted?
      ensures |Due(s.places, s.places[t].ticket)| <= s.places[t].receivers
    {
      assert PlaceOk(s, t);
    }
  }

  /** So a receiver whose slot has its ticket finds the value there, and is the last to get it
      when it moves it out. */
  lemma ReceiverFindsValue<T(!new)>(n: nat, threads: nat, others: nat, labels: seq<Label<T>>, t: nat)
    requires n > 0 && Run(n, threads, others, labels).Some?
    requires var s := Run(n, threads, others, labels).value;
      && t < |s.places| && s.places[t].Member?
      && |s.slots| == n && s.slots[Ring.Slot(s.places[t].pos, n)].sequence == s.places[t].pos + 1
    ensures var s := Run(n, threads, others, labels).value;
      var pos := s.places[t].pos;
      var slot := s.slots[Ring.Slot(pos, n)];
      && pos < |s.sent| && slot.remaining > 0 && slot.data == Some(s.sent[pos])
      && (slot.remaining == 1 ==> Due(s.places, pos) == {t})
  {
    RunsKeepInv(n, threads, others, labels);
    var s := Run(n, threads, others, labels).value;
    var pos := s.places[t].pos;
    PastLap(s, t);
    assert SlotOk(s, Ring.Slot(pos, n));
    SlotBelow(pos, n);
    var due := Due(s.places, pos);
    if s.slots[Ring.Slot(pos, n)].remaining == 1 {
      assert due == {t} + (due - {t});
      assert |due| == 1 + |due - {t}|;
    }
  }

  /** In every run, cancels included: a receiver sleeps, or has decided to, behind the tail only
      while a send of a ticket it waits for has not finished its `wake_all`. */
  lemma NobodySleepsBehindTheTail<T(!new)>(n: nat, threads: nat, others: nat, labels: seq<Label<T>>)
    requires n > 0 && Run(n, threads, others, labels).Some?
    ensures var s := Run(n, threads, others, labels).value;
      && |s.places| <= |s.rx.threads|
      && (forall w :: w in s.rx.list ==>
            w in s.who && s.who[w] < |s.places| && s.places[s.who[w]].Asleep? && Sleeps(s, s.who[w]))
      && (forall r :: 0 <= r < |s.places| && Sleeps(s, r) && s.places[r].pos < s.tail ==>
            exists t :: 0 <= t < |s.places| && Sends(s.places[t]) && s.places[t].ticket >= s.places[r].pos)
  {
    RunsKeepInv(n, threads, others, labels);
    var s := Run(n, threads, others, labels).value;
    forall w | w in s.rx.list
      ensures w in s.who && s.who[w] < |s.places| && s.places[s.who[w]].Asleep? && Sleeps(s, s.who[w])
    {
      assert SleeperOk(s, w) && WL.WaiterOk(s.rx, w);
    }
    forall r | 0 <= r < |s.places| && Sleeps(s, r) && s.places[r].pos < s.tail
      ensures exists t :: 0 <= t < |s.places| && Sends(s.places[t]) && s.places[t].ticket >= s.places[r].pos
    {
      var t :| 0 <= t < |s.places| && Covers(s.places[t], s.places[r].pos);
    }
  }

  // ----- sends that overtake each other

  /** A send a lap ahead has already written the slot. */
  predicate Overtaken<T>(s: State<T>, l: Label<T>) {
    && l.Write? && l.t < |s.places| && s.places[l.t].Counted? && |s.slots| > 0
    && s.slots[Ring.Slot(s.places[l.t].ticket, |s.slots|)].sequence > s.places[l.t].ticket + 1
  }

  /** Runs in which no send is overtaken by a whole lap between its ticket and its write. */
  function Orderly<T>(s: State<T>, l: Label<T>): (r: Option<State<T>>) {
    if Overtaken(s, l) then None else Step(s, l)
  }

  predicate Writes<T>(p: Place<T>, k: nat) {
    (p.Claimed? || p.Counted?) && p.ticket == k
  }

  /** The send of that ticket has written. */
  ghost predicate Written<T>(s: State<T>, k: nat) {
    k < s.tail && forall t :: 0 <= t < |s.places| ==> !Writes(s.places[t], k)
  }

  /** No slot falls behind a ticket that was written to it. */
  ghost predicate Kept<T>(s: State<T>) {
    |s.slots| > 0 && forall k: nat :: Written(s, k) ==> s.slots[Ring.Slot(k, |s.slots|)].sequence >= k + 1
  }

  lemma KeptStep<T>(s: State<T>, l: Label<T>)
    requires Kept(s) && Orderly(s, l).Some?
    ensures Kept(Step(s, l).value)
  {
    var s' := Step(s, l).value;
    forall k: nat | Written(s', k) ensures s'.slots[Ring.Slot(k, |s'.slots|)].sequence >= k + 1 {
      KeptAt(s, l, k);
    }
  }

  lemma WrittenBefore<T>(s: State<T>, l: Label<T>, k: nat)
    requires Step(s, l).Some? && Written(Step(s, l).value, k)
    requires !(l.Write? && l.t < |s.places| && Writes(s.places[l.t], k))
    ensures Written(s, k)
  {
    var s' := Step(s, l).value;
    if l.Send? && k == s.tail {
      assert Writes(s'.places[l.t], k);
    }
    forall t | 0 <= t < |s.places| ensures !Writes(s.places[t], k) {
      assert !Writes(s'.places[t], k);
    }
  }

  lemma KeptAt<T>(s: State<T>, l: Label<T>, k: nat)
    requires Kept(s) && Orderly(s, l).Some? && Written(Step(s, l).value, k)
    ensures |Step(s, l).value.slots| == |s.slots|
    ensures Step(s, l).value.slots[Ring.Slot(k, |s.slots|)].sequence >= k + 1
  {
    if !(l.Write? && l.t < |s.places| && Writes(s.places[l.t], k)) {
      WrittenBefore(s, l, k);
    }
  }

  /** In an orderly run, a receiver less than a lap behind finds its next value as soon as it
      was written. */
  lemma OrderlyRunsDeliver<T(!new)>(n: nat, threads: nat, others: nat, labels: seq<Label<T>>, t: nat)
    requires n > 0
    requires Machine.Exec((s, l) => Orderly(s, l), Init<T>(n, threads, others), labels).Some?
    requires var s := Machine.Exec((s, l) => Orderly(s, l), Init<T>(n, threads, others), labels).value;
      && t < |s.places| && s.places[t].Member? && Written(s, s.places[t].pos) && s.tail <= s.places[t].pos + n
    ensures var s := Machine.Exec((s, l) => Orderly(s, l), Init<T>(n, threads, others), labels).value;
      var pos := s.places[t].pos;
      && |s.slots| == n && pos < |s.sent|
      && s.slots[Ring.Slot(pos, n)].sequence == pos + 1 && s.slots[Ring.Slot(pos, n)].data == Some(s.sent[pos])
      && Step(s, Receive(t)).Some? && Step(s, Receive(t)).value.places[t] == Member(pos + 1)
  {
    OrderlyRunsKeep(n, threads, others, labels);
    var s := Machine.Exec((s, l) => Orderly(s, l), Init<T>(n, threads, others), labels).value;
    var pos := s.places[t].pos;
    var i := Ring.Slot(pos, n);
    assert SlotOk(s, i) && Linked(s, t);
    SlotBelow(pos, n);
    PastLap(s, t);
  }

  lemma OrderlyRunsKeep<T(!new)>(n: nat, threads: nat, others: nat, labels: seq<Label<T>>)
    requires n > 0 && Machine.Exec((s, l) => Orderly(s, l), Init<T>(n, threads, others), labels).Some?
    ensures var s := Machine.Exec((s, l) => Orderly(s, l), Init<T>(n, threads, others), labels).value;
      Inv(s) && |s.slots| == n && Kept(s)
  {
    InitInv<T>(n, threads, others);
    forall s: State<T>, l | Inv(s) && |s.slots| == n && Kept(s) && Orderly(s, l).Some?
      ensures Inv(Orderly(s, l).value) && |Orderly(s, l).value.slots| == n && Kept(Orderly(s, l).value)
    {
      StepInv(s, l);
      KeptStep(s, l);
    }
    Machine.RunsKeep((s, l) => Orderly(s, l), s => Inv(s) && |s.slots| == n && Kept(s), Init<T>(n, threads, others),
      labels);
  }

  /** A send that was overtaken puts its own value over the later one: whoever waits for that
      finds nothing, though it was sent and written. */
  lemma OvertakenSendHides<T>(s: State<T>, l: Label<T>, r: nat)
    requires Inv(s) && Overtaken(s, l) && Step(s, l).Some? && r < |s.places| && s.places[r].Member?
    requires var i := Ring.Slot(s.places[l.t].ticket, |s.slots|);
      Ring.Slot(s.places[r].pos, |s.slots|) == i && s.places[r].pos + 1 == s.slots[i].sequence
    ensures var s' := Step(s, l).value;
      s'.places[r] == s.places[r] && s.places[r].pos < s'.tail && Step(s', Receive(r)) == Some(s')
  {
    assert SlotOk(s, Ring.Slot(s.places[l.t].ticket, |s.slots|)) && Linked(s, r);
    SlotBelow(s.places[r].pos, |s.slots|);
    var s' := Step(s, l).value;
    assert s'.places[r := s'.places[r]] == s'.places;
  }

  /** And that happens: in a channel of one slot, the second of two sends writes first. */
  lemma SendsDoOvertake<T(!new)>(a: T, b: T)
    ensures exists s: State<T> ::
      && Machine.Reaches((x, l) => Step(x, l), Init<T>(1, 3, 0), s)
      && s.sent == [a, b] && Written(s, 0) && Written(s, 1) && |s.places| == 3 && s.places[2] == Member(1)
      && Step(s, Receive(2)) == Some(s)
  {
    var s := TwoTickets(a, b);
    s := LaterWrites(s, a, b);
    s := EarlierWrites(s, a, b);
    s := After(s, Receive(2));
    assert s.places == [Waking(0, false), Waking(1, false), Member(1)];
  }

  lemma LaterWrites<T(!new)>(s: State<T>, a: T, b: T) returns (s': State<T>)
    requires Machine.Reaches((x, l) => Step(x, l), Init<T>(1, 3, 0), s) && |s.rx.threads| == 3
    requires s.slots == [Slot(0, 0, None)] && s.count == 1 && s.places == [Claimed(0, a), Claimed(1, b), Member(0)]
    ensures Machine.Reaches((x, l) => Step(x, l), Init<T>(1, 3, 0), s') && s'.rx == s.rx
    ensures s'.slots == [Slot(2, 1, Some(b))] && s'.places == [Claimed(0, a), Waking(1, false), Member(0)]
    ensures s'.count == 1 && s'.tail == s.tail && s'.sent == s.sent
  {
    s' := After(s, Count(1));
    s' := After(s', Write(1));
  }

  lemma EarlierWrites<T(!new)>(s: State<T>, a: T, b: T) returns (s': State<T>)
    requires Machine.Reaches((x, l) => Step(x, l), Init<T>(1, 3, 0), s) && |s.rx.threads| == 3
    requires s.slots == [Slot(2, 1, Some(b))] && s.count == 1
    requires s.places == [Claimed(0, a), Waking(1, false), Member(0)]
    ensures Machine.Reaches((x, l) => Step(x, l), Init<T>(1, 3, 0), s') && s'.rx == s.rx
    ensures s'.slots == [Slot(1, 1, Some(a))] && s'.places == [Waking(0, false), Waking(1, false), Member(0)]
    ensures s'.tail == s.tail && s'.sent == s.sent
  {
    s' := After(s, Count(0));
    s' := After(s', Write(0));
  }

  lemma TwoTickets<T(!new)>(a: T, b: T) returns (s: State<T>)
    ensures Machine.Reaches((x, l) => Step(x, l), Init<T>(1, 3, 0), s)
    ensures s.slots == [Slot(0, 0, None)] && s.tail == 2 && s.count == 1 && s.sent == [a, b]
    ensures s.places == [Claimed(0, a), Claimed(1, b), Member(0)] && |s.rx.threads| == 3
  {
    s := OneReceiver<T>();
    s := After(s, Send(0, a));
    assert s.places == [Claimed(0, a), Free, Member(0)] && s.sent == [a];
    s := After(s, Send(1, b));
  }

  lemma OneReceiver<T(!new)>() returns (s: State<T>)
    ensures Machine.Reaches((x, l) => Step(x, l), Init<T>(1, 3, 0), s)
    ensures s.slots == [Slot(0, 0, None)] && s.tail == 0 && s.count == 1 && s.sent == []
    ensures s.places == [Free, Free, Member(0)] && |s.rx.threads| == 3
  {
    Machine.ReachSelf((x: State<T>, l: Label<T>) => Step(x, l), Init<T>(1, 3, 0));
    s := After(Init<T>(1, 3, 0), Join(2));
    assert s.places == [Free, Free, Joining];
    s := After(s, Enter(2));
  }

  lemma After<T(!new)>(s: State<T>, l: Label<T>) returns (s': State<T>)
    requires Machine.Reaches((x, l) => Step(x, l), Init<T>(1, 3, 0), s) && Step(s, l).Some?
    ensures s' == Step(s, l).value
    ensures Machine.Reaches((x, l) => Step(x, l), Init<T>(1, 3, 0), s')
  {
    Machine.ReachStep((x, l) => Step(x, l), Init<T>(1, 3, 0), s, l);
    s' := Step(s, l).value;
  }
}
