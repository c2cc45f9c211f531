/** The single-thread wait list `RawWaitList` of `async_std/sync/wait_list.rs`, over the
    intrusive lists of module LinkedList.

    Completing a waiter runs code of its owner at once, inside the wake call, and that
    code may use the list again: wait, cancel a waiter, or wake one or all.  A finite
    `Script` says what one callback does; every method is proved for all scripts.

    Waiters are numbered as they arrive.  The ghost account says who sleeps where: in
    `main`, or in one of `frames`, the local lists of the `wake_all` calls still running,
    the outermost first.  `lists` holds the nodes themselves. */
module RawWaitList {
  import opened Wrappers
  import opened Lists
  import LinkedList
  import opened WaiterLists

  datatype Script = Script(acts: seq<Action>)

  datatype Action =
    | Wait(interrupted: bool)
    | Return(w: nat)                       // the waiter, completed, goes on
    | Cancel(w: nat, on: Script)           // `on`: what the owner of the waiter then does
    | WakeOne(on: Script)
    | WakeAll(ons: seq<Script>)
    | Close(ons: seq<Script>)

  datatype WaitError = WaitClosed | WaitCancelled

  /** How a waiter was completed: cancelled, or by the wake call of that number. */
  datatype How = Cancelled | WokenBy(call: nat)

  datatype Completion = Completion(w: nat, how: How)

  /** Where a waiter is. */
  datatype Place = InMain | InFrame(i: nat) | Completed(j: nat)

  ghost function CancelledIn(log: seq<Completion>): (r: set<nat>) {
    set j | 0 <= j < |log| && log[j].how.Cancelled? :: log[j].w
  }

  lemma CancelledInPlus(log: seq<Completion>, e: Completion)
    ensures CancelledIn(log + [e]) == CancelledIn(log) + if e.how.Cancelled? then {e.w} else {}
  {
    forall x | x in CancelledIn(log) ensures x in CancelledIn(log + [e]) {
      var j :| 0 <= j < |log| && log[j].how.Cancelled? && log[j].w == x;
      assert (log + [e])[j] == log[j];
    }
    if e.how.Cancelled? {
      assert (log + [e])[|log|] == e;
    }
  }

  /** The waiters that wake call `c` completed, in order. */
  ghost function WokenIn(log: seq<Completion>, c: nat): (r: seq<nat>) {
    if log == [] then []
    else
      var e := log[|log| - 1];
      WokenIn(log[..|log| - 1], c) + if e.how == WokenBy(c) then [e.w] else []
  }

  lemma {:induction false} WokenInConcat(log: seq<Completion>, more: seq<Completion>, c: nat)
    requires forall j :: 0 <= j < |more| ==> more[j].how != WokenBy(c)
    ensures WokenIn(log + more, c) == WokenIn(log, c)
  {
    if more == [] {
      assert log + more == log;
    } else {
      WokenInConcat(log, more[..|more| - 1], c);
      assert (log + more)[..|log + more| - 1] == log + more[..|more| - 1];
    }
  }

  lemma {:induction false} WokenInAre(log: seq<Completion>, c: nat, x: nat)
    requires x in WokenIn(log, c)
    ensures Completion(x, WokenBy(c)) in log
  {
    var e := log[|log| - 1];
    if e.how == WokenBy(c) && e.w == x {
    } else {
      WokenInAre(log[..|log| - 1], c, x);
    }
  }

  // ----- the account

  /** Who sleeps where, how many wake calls were begun, who was completed and how, and
      where each waiter is. */
  datatype Ledger = Ledger(main: seq<nat>, frames: seq<seq<nat>>, calls: nat, log: seq<Completion>, place: seq<Place>)

  ghost predicate Holds(place: seq<Place>, s: seq<nat>, p: Place) {
    && Increasing(s)
    && (forall x :: x in s ==> x < |place| && place[x] == p)
  }

  ghost predicate Placed(l: Ledger, x: nat)
    requires x < |l.place|
  {
    match l.place[x]
    case InMain => x in l.main
    case InFrame(i) => i < |l.frames| && x in l.frames[i]
    case Completed(j) => j < |l.log| && l.log[j].w == x
  }

  ghost predicate Logged(l: Ledger, j: nat)
    requires j < |l.log|
  {
    && l.log[j].w < |l.place| && l.place[l.log[j].w] == Completed(j)
    && (l.log[j].how.WokenBy? ==> l.log[j].how.call < l.calls)
  }

  /** Every waiter is in one list, or completed once. */
  ghost predicate Sound(l: Ledger) {
    && Holds(l.place, l.main, InMain)
    && (forall i :: 0 <= i < |l.frames| ==> Holds(l.place, l.frames[i], InFrame(i)))
    && (forall j :: 0 <= j < |l.log| ==> Logged(l, j))
    && (forall x :: 0 <= x < |l.place| ==> Placed(l, x))
  }

  ghost predicate Asleep(l: Ledger, w: nat) {
    w < |l.place| && !l.place[w].Completed?
  }

  ghost function Complete(l: Ledger, w: nat, how: How): (r: Ledger)
    requires w < |l.place|
  {
    l.(log := l.log + [Completion(w, how)], place := l.place[w := Completed(|l.log|)])
  }

  /** Completing somebody who is in no list any more. */
  lemma CompleteOk(l: Ledger, l': Ledger, w: nat, how: How)
    requires Sound(l) && Asleep(l, w)
      && l' == Complete(l, w, how).(main := l'.main, frames := l'.frames, calls := l'.calls)
    requires l.calls <= l'.calls && (how.WokenBy? ==> how.call < l'.calls) && |l'.frames| == |l.frames|
    requires Increasing(l'.main) && forall x :: x in l'.main <==> x in l.main && x != w
    requires forall i :: 0 <= i < |l.frames| ==>
      Increasing(l'.frames[i]) && forall x :: x in l'.frames[i] <==> x in l.frames[i] && x != w
    ensures Sound(l')
    ensures CancelledIn(l'.log) == CancelledIn(l.log) + if how.Cancelled? then {w} else {}
  {
    CancelledInPlus(l.log, Completion(w, how));
    forall i | 0 <= i < |l.frames| ensures Holds(l'.place, l'.frames[i], InFrame(i)) {
      assert Holds(l.place, l.frames[i], InFrame(i));
    }
    forall j | 0 <= j < |l'.log| ensures Logged(l', j) {
      assert j < |l.log| ==> Logged(l, j);
    }
    forall x | 0 <= x < |l'.place| ensures Placed(l', x) {
      assert Placed(l, x);
    }
  }

  // ----- what any callback may have done to the lists of the calls around it

  /** Nothing is uncompleted, a running call's list loses just the cancelled, and no earlier
      call completes anything. */
  ghost predicate After(l: Ledger, l': Ledger) {
    && l.log <= l'.log && |l.frames| == |l'.frames| && l.calls <= l'.calls
    && (forall i :: 0 <= i < |l.frames| ==> l'.frames[i] == Drop(l.frames[i], CancelledIn(l'.log)))
    && (forall j :: |l.log| <= j < |l'.log| && l'.log[j].how.WokenBy? ==> l'.log[j].how.call >= l.calls)
  }

  lemma AfterTrans(l0: Ledger, l1: Ledger, l2: Ledger)
    requires After(l0, l1) && After(l1, l2)
    ensures After(l0, l2)
  {
    assert CancelledIn(l1.log) <= CancelledIn(l2.log);
    forall i | 0 <= i < |l0.frames| ensures l2.frames[i] == Drop(l0.frames[i], CancelledIn(l2.log)) {
      DropTwice(l0.frames[i], CancelledIn(l1.log), CancelledIn(l2.log));
    }
  }

  lemma NotCancelled(l: Ledger, s: seq<nat>, p: Place)
    requires Sound(l) && Holds(l.place, s, p) && !p.Completed?
    ensures Drop(s, CancelledIn(l.log)) == s
  {
    forall x | x in CancelledIn(l.log) ensures x !in s {
      var j :| 0 <= j < |l.log| && l.log[j].how.Cancelled? && l.log[j].w == x;
      assert Logged(l, j);
    }
    DropNone(s, CancelledIn(l.log));
  }

  lemma AfterSelf(l: Ledger)
    requires Sound(l)
    ensures After(l, l)
  {
    forall i | 0 <= i < |l.frames| ensures Drop(l.frames[i], CancelledIn(l.log)) == l.frames[i] {
      NotCancelled(l, l.frames[i], InFrame(i));
    }
  }

  // ----- the operations on the account

  ghost function Arrived(l: Ledger): (r: Ledger) {
    l.(main := l.main + [|l.place|], place := l.place + [InMain])
  }

  lemma ArrivedOk(l: Ledger)
    requires Sound(l)
    ensures Sound(Arrived(l)) && After(l, Arrived(l))
  {
    var r := Arrived(l);
    AfterSelf(l);
    forall i | 0 <= i < |l.main| ensures l.main[i] < |l.place| {
      assert l.main[i] in l.main;
    }
    forall i | 0 <= i < |l.frames| ensures Holds(r.place, r.frames[i], InFrame(i)) {
      assert Holds(l.place, l.frames[i], InFrame(i));
    }
    forall j | 0 <= j < |l.log| ensures Logged(r, j) {
      assert Logged(l, j);
    }
    forall x | 0 <= x < |r.place| ensures Placed(r, x) {
      assert x < |l.place| ==> Placed(l, x);
    }
  }

  ghost function Unlinked(l: Ledger, w: nat): (r: Ledger)
    requires w < |l.place|
  {
    Complete(l, w, Cancelled).(main := Drop(l.main, {w}), frames := DropEach(l.frames, w))
  }

  lemma UnlinkedOk(l: Ledger, w: nat)
    requires Sound(l) && Asleep(l, w)
    ensures Sound(Unlinked(l, w)) && After(l, Unlinked(l, w))
  {
    var r, gone := Unlinked(l, w), CancelledIn(l.log) + {w};
    DropIncreasing(l.main, {w});
    DropHas(l.main, {w});
    forall i | 0 <= i < |l.frames|
      ensures Increasing(r.frames[i]) && r.frames[i] == Drop(l.frames[i], gone)
      ensures forall x :: x in r.frames[i] <==> x in l.frames[i] && x != w
    {
      assert Holds(l.place, l.frames[i], InFrame(i));
      DropIncreasing(l.frames[i], {w});
      DropHas(l.frames[i], {w});
      NotCancelled(l, l.frames[i], InFrame(i));
      DropTwice(l.frames[i], CancelledIn(l.log), gone);
      DropSameOn(l.frames[i], {w}, gone, CancelledIn(l.log));
    }
    CompleteOk(l, r, w, Cancelled);
  }

  lemma DropSameOn(s: seq<nat>, a: set<nat>, b: set<nat>, c: set<nat>)
    requires b == c + a && Drop(s, c) == s
    ensures Drop(s, a) == Drop(s, b)
  {
    DropHas(s, c);
    DropSame(s, a, b);
  }

  /** The front of the main list is completed by a new wake call. */
  ghost function WokenMain(l: Ledger): (r: Ledger)
    requires l.main != [] && l.main[0] < |l.place|
  {
    Complete(l, l.main[0], WokenBy(l.calls)).(main := l.main[1..], calls := l.calls + 1)
  }

  lemma WokenMainOk(l: Ledger)
    requires Sound(l) && l.main != []
    ensures l.main[0] < |l.place| && Sound(WokenMain(l)) && After(l, WokenMain(l))
  {
    var w := l.main[0];
    assert w in l.main && l.main == [w] + l.main[1..];
    forall i | 0 <= i < |l.frames| ensures w !in l.frames[i] {
      assert Holds(l.place, l.frames[i], InFrame(i));
    }
    AfterSelf(l);
    CompleteOk(l, WokenMain(l), w, WokenBy(l.calls));
    assert CancelledIn(WokenMain(l).log) == CancelledIn(l.log);
  }

  /** The front of the innermost local list is completed by wake call `c`. */
  ghost function WokenLocal(l: Ledger, c: nat): (r: Ledger)
    requires |l.frames| > 0 && l.frames[|l.frames| - 1] != [] && l.frames[|l.frames| - 1][0] < |l.place|
  {
    Complete(l, l.frames[|l.frames| - 1][0], WokenBy(c)).(frames := PoppedLast(l.frames))
  }

  lemma WokenLocalOk(l: Ledger, c: nat)
    requires Sound(l) && c < l.calls && |l.frames| > 0 && l.frames[|l.frames| - 1] != []
    ensures l.frames[|l.frames| - 1][0] < |l.place| && Sound(WokenLocal(l, c))
    ensures CancelledIn(WokenLocal(l, c).log) == CancelledIn(l.log)
  {
    var f := |l.frames| - 1;
    var ids := l.frames[f];
    var w := ids[0];
    assert Holds(l.place, ids, InFrame(f)) && w in ids && ids == [w] + ids[1..];
    var r := WokenLocal(l, c);
    forall i | 0 <= i < |l.frames|
      ensures Increasing(r.frames[i]) && forall x :: x in r.frames[i] <==> x in l.frames[i] && x != w
    {
      assert Holds(l.place, l.frames[i], InFrame(i));
    }
    CompleteOk(l, r, w, WokenBy(c));
  }

  /** The outcome of a pop for wake call `c`. */
  ghost predicate Popped(l: Ledger, r: Ledger, c: nat) {
    && |l.frames| > 0 && |r.place| == |l.place|
    && if Innermost(l) == [] then r == l
       else Innermost(l)[0] < |l.place| && r == WokenLocal(l, c)
  }

  lemma PoppedOk(l: Ledger, c: nat) returns (r: Ledger)
    requires Sound(l) && c < l.calls && |l.frames| > 0
    ensures Popped(l, r, c) && Sound(r) && r.main == l.main && r.frames == PoppedLast(l.frames)
    ensures forall x :: 0 <= x < |l.place| ==>
      (r.place[x].Completed? <==> l.place[x].Completed? || (Innermost(l) != [] && x == Innermost(l)[0]))
  {
    r := l;
    if Innermost(l) != [] {
      WokenLocalOk(l, c);
      r := WokenLocal(l, c);
    }
  }

  /** The main list becomes the innermost local list, of a new wake call. */
  ghost function Begun(l: Ledger): (r: Ledger) {
    l.(main := [], frames := l.frames + [l.main], calls := l.calls + 1,
       place := seq(|l.place|, x requires 0 <= x < |l.place| => if l.place[x] == InMain then InFrame(|l.frames|)
         else l.place[x]))
  }

  lemma BegunOk(l: Ledger)
    requires Sound(l)
    ensures Sound(Begun(l)) && Progress(Begun(l), l.main, l.calls)
    ensures forall x :: 0 <= x < |l.place| ==> Begun(l).place[x].Completed? == l.place[x].Completed?
  {
    var r := Begun(l);
    forall i | 0 <= i < |r.frames| ensures Holds(r.place, r.frames[i], InFrame(i)) {
      assert i < |l.frames| ==> Holds(l.place, l.frames[i], InFrame(i));
    }
    forall j | 0 <= j < |l.log| ensures Logged(r, j) {
      assert Logged(l, j);
    }
    forall x | 0 <= x < |l.place| ensures Placed(r, x) {
      assert Placed(l, x);
    }
    NothingYet(l);
  }

  lemma NothingYet(l: Ledger)
    requires Sound(l)
    ensures WokenIn(l.log, l.calls) == [] && Drop(l.main, CancelledIn(l.log)) == l.main
  {
    forall j | 0 <= j < |l.log| ensures l.log[j].how != WokenBy(l.calls) {
      assert Logged(l, j);
    }
    WokenInConcat([], l.log, l.calls);
    assert [] + l.log == l.log;
    NotCancelled(l, l.main, InMain);
  }

  /** A wake call returns; its list is empty. */
  ghost function Joined(l: Ledger): (r: Ledger)
    requires |l.frames| > 0
  {
    l.(frames := l.frames[..|l.frames| - 1])
  }

  lemma JoinedOk(l: Ledger)
    requires Sound(l) && |l.frames| > 0 && l.frames[|l.frames| - 1] == []
    ensures Sound(Joined(l))
  {
    var r := Joined(l);
    forall j | 0 <= j < |l.log| ensures Logged(r, j) {
      assert Logged(l, j);
    }
    forall x | 0 <= x < |l.place| ensures Placed(r, x) {
      assert Placed(l, x);
    }
  }

  // ----- a drain

  /** Woken so far plus still listed is the snapshot without the cancelled. */
  ghost predicate Progress(l: Ledger, snap: seq<nat>, c: nat) {
    |l.frames| > 0 && c < l.calls && Drop(snap, CancelledIn(l.log)) == WokenIn(l.log, c) + l.frames[|l.frames| - 1]
  }

  ghost function Innermost(l: Ledger): (r: seq<nat>)
    requires |l.frames| > 0
  {
    l.frames[|l.frames| - 1]
  }

  /** The account as wake call `c` found it around itself. */
  ghost function Outer(l: Ledger, c: nat): (r: Ledger)
    requires |l.frames| > 0
  {
    Joined(l).(calls := c)
  }

  lemma OuterAfter(l: Ledger, l': Ledger, c: nat)
    requires After(l, l') && |l.frames| > 0 && c <= l.calls
    ensures After(Outer(l, c), Outer(l', c))
  {
  }

  /** The next one is woken; nothing has run yet. */
  lemma ProgressStep(l: Ledger, snap: seq<nat>, c: nat)
    requires Sound(l) && Progress(l, snap, c) && Innermost(l) != []
    ensures Innermost(l)[0] < |l.place| && Progress(WokenLocal(l, c), snap, c)
    ensures After(Outer(l, c), Outer(WokenLocal(l, c), c))
  {
    WokenLocalOk(l, c);
    AfterSelf(l);
    OuterAfter(l, l, c);
    var r, ids := WokenLocal(l, c), Innermost(l);
    assert r.log[..|r.log| - 1] == l.log;
    Regroup(WokenIn(l.log, c), ids);
    assert Outer(r, c).frames == Outer(l, c).frames;
  }

  lemma Regroup(done: seq<nat>, ids: seq<nat>)
    requires ids != []
    ensures done + ids == done + [ids[0]] + ids[1..]
  {
  }

  /** What a callback does to the progress of the call around it. */
  lemma ProgressKept(l: Ledger, l': Ledger, snap: seq<nat>, c: nat)
    requires Sound(l') && Progress(l, snap, c) && After(l, l')
    ensures Progress(l', snap, c) && |l'.frames[|l'.frames| - 1]| <= |l.frames[|l.frames| - 1]|
  {
    var rest, gone, more := l.frames[|l.frames| - 1], CancelledIn(l'.log), l'.log[|l.log|..];
    assert l'.log == l.log + more;
    WokenInConcat(l.log, more, c);
    assert CancelledIn(l.log) <= gone;
    DropTwice(snap, CancelledIn(l.log), gone);
    DropConcat(WokenIn(l.log, c), rest, gone);
    DropHas(rest, gone);
    forall x | x in WokenIn(l'.log, c) ensures x !in gone {
      WokenInAre(l'.log, c, x);
      var j :| 0 <= j < |l'.log| && l'.log[j] == Completion(x, WokenBy(c));
      assert Logged(l', j);
      assert forall k :: 0 <= k < |l'.log| && l'.log[k].w == x ==> Logged(l', k);
    }
    DropNone(WokenIn(l'.log, c), gone);
  }

  /** From one point of a drain to a later one. */
  ghost predicate Draining(l: Ledger, l': Ledger, snap: seq<nat>, c: nat) {
    && Progress(l, snap, c) && Progress(l', snap, c)
    && After(Outer(l, c), Outer(l', c))
  }

  lemma DrainingSelf(l: Ledger, snap: seq<nat>, c: nat)
    requires Sound(l) && Progress(l, snap, c)
    ensures Draining(l, l, snap, c)
  {
    AfterSelf(l);
    OuterAfter(l, l, c);
  }

  lemma DrainingTrans(l0: Ledger, l1: Ledger, l2: Ledger, snap: seq<nat>, c: nat)
    requires Draining(l0, l1, snap, c) && Draining(l1, l2, snap, c)
    ensures Draining(l0, l2, snap, c)
  {
    AfterTrans(Outer(l0, c), Outer(l1, c), Outer(l2, c));
  }

  /** One is woken, then its owner's callback runs. */
  lemma DrainingRound(l0: Ledger, l1: Ledger, l2: Ledger, snap: seq<nat>, c: nat)
    requires Sound(l0) && Progress(l0, snap, c) && Innermost(l0) != [] && Popped(l0, l1, c)
    requires Sound(l2) && After(l1, l2)
    ensures Draining(l0, l2, snap, c) && |Innermost(l2)| < |Innermost(l0)|
    ensures Innermost(l1) == [] ==> Innermost(l2) == []
  {
    ProgressStep(l0, snap, c);
    ProgressKept(l1, l2, snap, c);
    OuterAfter(l1, l2, c);
    DrainingTrans(l0, l1, l2, snap, c);
  }

  /** Once the local list is empty, everyone who was in it at first is completed. */
  lemma AllCompleted(l0: Ledger, l: Ledger, snap: seq<nat>, c: nat)
    requires Sound(l0) && Sound(l) && Progress(l, snap, c) && l.frames[|l.frames| - 1] == [] && l0.log <= l.log
    requires Holds(l0.place, snap, InMain)
    ensures forall x :: x in snap ==> x < |l.place| && l.place[x].Completed? && l.place[x].j >= |l0.log|
  {
    DropHas(snap, CancelledIn(l.log));
    forall x | x in snap ensures x < |l.place| && l.place[x].Completed? && l.place[x].j >= |l0.log| {
      if x !in CancelledIn(l.log) {
        WokenInAre(l.log, c, x);
      }
      var j :| 0 <= j < |l.log| && l.log[j].w == x;
      assert Logged(l, j) && (j < |l0.log| ==> Logged(l0, j));
    }
  }

  /** A wake call completes, in order, whoever was there and was not cancelled first, and
      nobody else; and everyone who was there has been completed since, once. */
  ghost predicate Drained(l: Ledger, l': Ledger) {
    && WokenIn(l'.log, l.calls) == Drop(l.main, CancelledIn(l'.log))
    && (forall x :: x in l.main ==> x < |l'.place| && l'.place[x].Completed? && l'.place[x].j >= |l.log|)
  }

  lemma DrainDone(l0: Ledger, l: Ledger)
    requires Sound(l0) && Sound(l) && Draining(Begun(l0), l, l0.main, l0.calls) && Innermost(l) == []
    ensures |l.frames| > 0 && l.frames[|l.frames| - 1] == []
    ensures After(l0, Joined(l)) && Drained(l0, Joined(l))
  {
    AllCompleted(l0, l, l0.main, l0.calls);
    assert Outer(Begun(l0), l0.calls).frames == l0.frames;
  }

  // ----- the list

  class RawWaitList {
    const lists: WaiterLists
    var closed: bool
    var count: nat
    /** The waits that were begun and have not returned; they belong to the waiters. */
    var waits: set<nat>
    ghost var ledger: Ledger

    constructor ()
      ensures Valid() && fresh(lists) && fresh(lists.Repr)
      ensures ledger == Ledger([], [], 0, [], []) && !closed && count == 0
    {
      lists := new WaiterLists();
      closed, count, waits := false, 0, {};
      ledger := Ledger([], [], 0, [], []);
    }

    /** The nodes are where the account says. */
    ghost predicate Valid()
      reads this, lists, lists.Repr
    {
      && Sound(ledger) && lists.Valid() && this !in lists.Repr
      && lists.main == ledger.main && lists.frames == ledger.frames && |lists.nodes| == |ledger.place|
      && (forall x :: 0 <= x < |ledger.place| ==> (ledger.place[x].Completed? <==> x in lists.free))
      && Counted()
    }

    /** `count` counts the waits, those of all who sleep among them. */
    ghost predicate Counted()
      reads this
    {
      && count == |waits| && (forall x :: x in waits ==> x < |ledger.place|)
      && (forall x :: Asleep(ledger, x) ==> x in waits)
    }

    /** A waiter is asleep exactly if its node is linked. */
    lemma AsleepIffLinked(w: nat)
      requires Valid() && w < |ledger.place|
      ensures lists.nodes[w].Linked() <==> Asleep(ledger, w)
      ensures Asleep(ledger, w) ==> lists.Listed(w)
    {
      assert Placed(ledger, w);
      lists.ListedAreLinked(w);
    }

    /** `wait` up to its suspension. */
    method Wait(interrupted: bool) returns (r: Result<nat, WaitError>)
      requires Valid()
      modifies this, lists.Repr
      ensures Valid() && fresh(lists.Repr - old(lists.Repr)) && lists.locals == old(lists.locals)
        && closed == old(closed)
      ensures r == if closed then Err(WaitClosed) else if interrupted then Err(WaitCancelled)
        else Ok(|old(ledger).place|)
      ensures if r.Ok? then ledger == Arrived(old(ledger)) && count == old(count) + 1 else unchanged(this)
    {
      if closed {
        return Err(WaitClosed);
      }
      if interrupted {
        return Err(WaitCancelled);
      }
      count := count + 1;
      var w := lists.Add();
      waits := waits + {w};
      ArrivedOk(ledger);
      ledger := Arrived(ledger);
      return Ok(w);
    }

    /** A completed waiter returns from `wait`. */
    method Return(w: nat)
      requires Valid()
      modifies this`count, this`waits
      ensures Valid()
      ensures if w in old(waits) && !Asleep(ledger, w) then waits == old(waits) - {w} && count == old(count) - 1
        else unchanged(this)
    {
      if w in waits {
        AsleepIffLinked(w);
        if !lists.nodes[w].Linked() {
          waits, count := waits - {w}, count - 1;
        }
      }
    }

    /** The cancel's first half: the waiter leaves whichever list holds it. */
    method Unlink(w: nat)
      requires Valid() && Asleep(ledger, w)
      modifies this`ledger, lists.Repr
      ensures Valid() && lists.Repr == old(lists.Repr) && lists.locals == old(lists.locals)
      ensures ledger == Unlinked(old(ledger), w) && After(old(ledger), ledger)
    {
      AsleepIffLinked(w);
      lists.Remove(w);
      UnlinkedOk(ledger, w);
      ledger := Unlinked(ledger, w);
    }

    /** The front of the main list is unlinked, for a wake call of its own. */
    method PopMain() returns (node: Option<LinkedList.Node>)
      requires Valid()
      modifies this`ledger, lists.Repr
      ensures Valid() && lists.Repr == old(lists.Repr) && lists.locals == old(lists.locals)
      ensures if old(ledger).main == [] then node == None && ledger == old(ledger)
        else
          && old(ledger).main[0] < |lists.nodes| && node == Some(lists.nodes[old(ledger).main[0]])
          && |lists.nodes| == |old(ledger).place| && ledger == WokenMain(old(ledger)) && After(old(ledger), ledger)
    {
      node := lists.PopMain();
      if node.Some? {
        WokenMainOk(ledger);
        ledger := WokenMain(ledger);
      }
    }

    /** The front of the innermost local list is unlinked, for wake call `c`. */
    method PopFrame(local: LinkedList.List, ghost c: nat) returns (node: Option<LinkedList.Node>)
      requires Valid() && c < ledger.calls && |lists.locals| > 0 && local == lists.locals[|lists.locals| - 1]
      modifies this`ledger, lists.Repr
      ensures Valid() && lists.Repr == old(lists.Repr) && lists.locals == old(lists.locals) && |old(ledger).frames| > 0
      ensures Popped(old(ledger), ledger, c) && closed == old(closed)
      ensures var ids := Innermost(old(ledger));
        if ids == [] then node == None else ids[0] < |lists.nodes| && node == Some(lists.nodes[ids[0]])
    {
      ghost var r := PoppedOk(ledger, c);
      node := lists.PopLocal(local);
      ledger := r;
    }

    method Cancel(w: nat, on: Script)
      requires Valid()
      modifies this, lists.Repr
      ensures Valid() && fresh(lists.Repr - old(lists.Repr)) && lists.locals == old(lists.locals)
      ensures After(old(ledger), ledger) && (old(closed) ==> closed)
      ensures old(Asleep(ledger, w)) ==> old(ledger).log + [Completion(w, Cancelled)] <= ledger.log
      decreases on, 2
    {
      AfterSelf(ledger);
      if w < |lists.nodes| {
        AsleepIffLinked(w);
        if lists.nodes[w].Linked() {
          Unlink(w);
          ghost var ledger1 := ledger;
          Run(on);
          AfterTrans(old(ledger), ledger1, ledger);
        }
      }
    }

    method WakeOne(on: Script) returns (woken: bool)
      requires Valid()
      modifies this, lists.Repr
      ensures Valid() && fresh(lists.Repr - old(lists.Repr)) && lists.locals == old(lists.locals)
      ensures After(old(ledger), ledger) && (old(closed) ==> closed)
      ensures woken == (old(ledger).main != [])
      ensures woken ==> old(ledger).log + [Completion(old(ledger).main[0], WokenBy(old(ledger).calls))] <= ledger.log
      decreases on, 2
    {
      AfterSelf(ledger);
      var node := PopMain();
      if node.None? {
        return false;
      }
      ghost var ledger1 := ledger;
      Run(on);
      AfterTrans(old(ledger), ledger1, ledger);
      return true;
    }

    method Act(a: Action)
      requires Valid()
      modifies this, lists.Repr
      ensures Valid() && fresh(lists.Repr - old(lists.Repr)) && lists.locals == old(lists.locals)
      ensures After(old(ledger), ledger) && (old(closed) ==> closed)
      decreases a, 6
    {
      AfterSelf(ledger);
      match a {
        case Wait(interrupted) =>
          ArrivedOk(ledger);
          var _ := Wait(interrupted);
        case Return(w) =>
          Return(w);
        case Cancel(w, on) =>
          Cancel(w, on);
        case WakeOne(on) =>
          var _ := WakeOne(on);
        case WakeAll(ons) =>
          var _ := WakeAll(ons);
        case Close(ons) =>
          var _ := Close(ons);
      }
    }

    /** A callback. */
    method Run(s: Script)
      requires Valid()
      modifies this, lists.Repr
      ensures Valid() && fresh(lists.Repr - old(lists.Repr)) && lists.locals == old(lists.locals)
      ensures After(old(ledger), ledger) && (old(closed) ==> closed)
      decreases s, 0
    {
      AfterSelf(ledger);
      for i := 0 to |s.acts|
        invariant Valid() && fresh(lists.Repr - old(lists.Repr)) && lists.locals == old(lists.locals)
        invariant After(old(ledger), ledger) && (old(closed) ==> closed)
      {
        ghost var ledger1 := ledger;
        Act(s.acts[i]);
        AfterTrans(old(ledger), ledger1, ledger);
      }
    }

    method Close(ons: seq<Script>) returns (n: nat)
      requires Valid()
      modifies this, lists.Repr
      ensures Valid() && fresh(lists.Repr - old(lists.Repr)) && lists.locals == old(lists.locals)
      ensures After(old(ledger), ledger) && closed && n == old(count)
      ensures Drained(old(ledger), ledger)
      decreases ons, 5
    {
      closed := true;
      n := WakeAll(ons);
    }

    method Begin() returns (local: LinkedList.List)
      requires Valid()
      modifies this`ledger, lists.Repr
      ensures Valid() && fresh(lists.Repr - old(lists.Repr)) && lists.locals == old(lists.locals) + [local]
      ensures ledger == Begun(old(ledger)) && Progress(ledger, old(ledger).main, old(ledger).calls)
    {
      local := lists.Split();
      BegunOk(ledger);
      ledger := Begun(ledger);
    }

    ghost method Join()
      requires Valid() && |ledger.frames| > 0 && ledger.frames[|ledger.frames| - 1] == []
      modifies this`ledger, lists
      ensures Valid() && lists.Repr == old(lists.Repr) && |old(lists.locals)| > 0
      ensures ledger == Joined(old(ledger)) && lists.locals == old(lists.locals)[..|old(lists.locals)| - 1]
    {
      lists.Join();
      JoinedOk(ledger);
      ledger := Joined(ledger);
    }

    /** The callback of the k-th waiter that a drain wakes, if it does anything. */
    method Callback(ons: seq<Script>, k: nat)
      requires Valid()
      modifies this, lists.Repr
      ensures Valid() && fresh(lists.Repr - old(lists.Repr)) && lists.locals == old(lists.locals)
      ensures After(old(ledger), ledger) && (old(closed) ==> closed)
      decreases ons, 0
    {
      AfterSelf(ledger);
      if k < |ons| {
        Run(ons[k]);
      }
    }

    method LocalIsEmpty(local: LinkedList.List) returns (empty: bool)
      requires Valid() && |lists.locals| > 0 && local == lists.locals[|lists.locals| - 1]
      ensures |ledger.frames| > 0 && (empty <==> Innermost(ledger) == [])
    {
      empty := lists.LocalIsEmpty(local);
    }

    /** What a round does before the callback. */
    method PopNext(local: LinkedList.List, ghost c: nat) returns (last: bool)
      requires Valid() && c < ledger.calls && |lists.locals| > 0 && local == lists.locals[|lists.locals| - 1]
      modifies this`ledger, lists.Repr
      ensures Valid() && lists.Repr == old(lists.Repr) && lists.locals == old(lists.locals)
      ensures Popped(old(ledger), ledger, c) && |ledger.frames| > 0 && (last <==> Innermost(ledger) == [])
    {
      var _ := PopFrame(local, c);
      last := LocalIsEmpty(local);
    }

    /** What a round does after its pop. */
    method Serve(ghost before: Ledger, ghost snap: seq<nat>, ghost c: nat, ons: seq<Script>, k: nat)
      requires Valid() && Sound(before) && Progress(before, snap, c) && Innermost(before) != []
        && Popped(before, ledger, c)
      modifies this, lists.Repr
      ensures Valid() && fresh(lists.Repr - old(lists.Repr)) && lists.locals == old(lists.locals)
      ensures Draining(before, ledger, snap, c) && (old(closed) ==> closed) && |Innermost(ledger)| < |Innermost(before)|
      ensures |old(ledger).frames| > 0 && (Innermost(old(ledger)) == [] ==> Innermost(ledger) == [])
      decreases ons, 1
    {
      ghost var ledger1 := ledger;
      Callback(ons, k);
      DrainingRound(before, ledger1, ledger, snap, c);
    }

    /** One round of the drain.  If the waiter was the only one left, the list is not asked
        again; otherwise callbacks may have emptied it. */
    method DrainOne(local: LinkedList.List, ghost snap: seq<nat>, ghost c: nat, ons: seq<Script>, k: nat)
      returns (empty: bool)
      requires Valid() && Progress(ledger, snap, c) && |lists.locals| > 0 && local == lists.locals[|lists.locals| - 1]
      requires Innermost(ledger) != []
      modifies this, lists.Repr
      ensures Valid() && fresh(lists.Repr - old(lists.Repr)) && lists.locals == old(lists.locals)
      ensures Draining(old(ledger), ledger, snap, c) && (old(closed) ==> closed)
      ensures |Innermost(ledger)| < |Innermost(old(ledger))| && (empty <==> Innermost(ledger) == [])
      decreases ons, 2
    {
      ghost var ledger0 := ledger;
      empty := PopNext(local, c);
      Serve(ledger0, snap, c, ons, k);
      if !empty {
        empty := LocalIsEmpty(local);
      }
    }

    /** `while let Some(node) = list.pop_front()`, where popping is asking whether the list
        is empty and, if not, unlinking the first. */
    method Drain(local: LinkedList.List, ghost snap: seq<nat>, ghost c: nat, ons: seq<Script>)
      requires Valid() && Progress(ledger, snap, c) && |lists.locals| > 0 && local == lists.locals[|lists.locals| - 1]
      modifies this, lists.Repr
      ensures Valid() && fresh(lists.Repr - old(lists.Repr)) && lists.locals == old(lists.locals)
      ensures Draining(old(ledger), ledger, snap, c) && (old(closed) ==> closed) && Innermost(ledger) == []
      decreases ons, 3
    {
      DrainingSelf(ledger, snap, c);
      var k := 0;
      var empty := LocalIsEmpty(local);
      while !empty
        invariant Valid() && fresh(lists.Repr - old(lists.Repr)) && lists.locals == old(lists.locals)
        invariant Draining(old(ledger), ledger, snap, c) && (old(closed) ==> closed)
        invariant empty <==> Innermost(ledger) == []
        decreases |Innermost(ledger)|
      {
        ghost var ledger1 := ledger;
        empty := DrainOne(local, snap, c, ons, k);
        DrainingTrans(old(ledger), ledger1, ledger, snap, c);
        k := k + 1;
      }
    }

    /** It answers the number of waits at the call. */
    method WakeAll(ons: seq<Script>) returns (n: nat)
      requires Valid()
      modifies this, lists.Repr
      ensures Valid() && fresh(lists.Repr - old(lists.Repr)) && lists.locals == old(lists.locals)
      ensures After(old(ledger), ledger) && (old(closed) ==> closed)
      ensures n == old(count) && Drained(old(ledger), ledger)
      decreases ons, 4
    {
      ghost var ledger0 := ledger;
      n := count;
      var local := Begin();
      Drain(local, ledger0.main, ledger0.calls, ons);
      DrainDone(ledger0, ledger);
      assert lists.locals[..|lists.locals| - 1] == old(lists.locals);
      Join();
    }
  }
}
