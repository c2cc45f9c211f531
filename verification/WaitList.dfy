/** The thread-safe wait list of `wait_list.rs`.

    Labels are the atomic operations a thread performs: taking the spin lock, the
    loads and stores of `closed` and `empty`, the caller's `should_block`, and the
    completion of a request.  A critical section in which no atomic is touched (pop
    or unlink, then unlock) is one label. */
module WaitList {
  import opened Wrappers
  import Machine
  import opened Lists

  datatype Op = Suspend(w: nat) | WakeOne | WakeAll | Close | Cancel(w: nat)

  datatype Outcome = Woken | Cancelled

  /** How far a call of `suspend` has come. */
  datatype Phase =
    | Arriving                   // wants the lock
    | Inside                     // holds the lock, `closed` not yet read
    | Open                       // not closed
    | Marked                     // stored `empty = false`
    | Aborting                   // `should_block` said no
    | Refusing(closed: bool)     // will return Done and unlock
    | Committed                  // `should_block` said yes

  datatype Pc =
    | Idle
    | Suspends(w: nat, at: Phase)
    | Looking                    // wake_one: before the load of `empty`
    | Popping                    // saw `empty == false`, wants the lock
    | Closing                    // close: before the store of `closed`
    | LookingAll                 // wake_all: before the load of `empty`
    | LockingAll                 // saw `empty == false`, wants the lock
    | Draining                   // holds the lock
    | Unlinking(w: nat)          // cancel: wants the lock
    | Completing(w: nat, outcome: Outcome, holding: bool)   // unlinked `w`; still holding the lock?

  /** A waiter whose suspend returned Pending is linked until some thread unlinks it. */
  datatype Status = Suspending(agent: nat) | Linked | Unlinked(agent: nat) | Refused(closed: bool)

  /** What became of each waiter, how often and how it was completed, and which
      waiters were cancelled. */
  datatype History = History(
    status: map<nat, Status>,
    times: map<nat, nat>,
    outcome: map<nat, Outcome>,
    cancels: set<nat>)

  datatype State = State(
    lock: Option<nat>,
    list: seq<nat>,
    closed: bool,
    empty: bool,
    threads: seq<Pc>,
    h: History)

  datatype Label = Begin(t: nat, op: Op) | Go(t: nat, blocks: bool)

  function Init(threads: nat): (r: State) {
    State(None, [], false, false, seq(threads, _ => Idle), History(map[], map[], map[], {}))
  }

  /** How often waiter `w` was completed. */
  function Times(h: History, w: nat): (r: nat) {
    if w in h.times then h.times[w] else 0
  }

  function SetStatus(h: History, w: nat, status: Status): (r: History) {
    h.(status := h.status[w := status])
  }

  predicate Pending(status: Status) {
    status.Linked? || status.Unlinked?
  }

  function Start(s: State, t: nat, op: Op): (r: Option<State>)
    requires t < |s.threads|
  {
    match op
    case Suspend(w) =>
      if w in s.h.status then None
      else Some(s.(threads := s.threads[t := Suspends(w, Arriving)], h := SetStatus(s.h, w, Suspending(t))))
    case WakeOne => Some(s.(threads := s.threads[t := Looking]))
    case WakeAll => Some(s.(threads := s.threads[t := LookingAll]))
    case Close => Some(s.(threads := s.threads[t := Closing]))
    case Cancel(w) =>
      if w in s.h.status && Pending(s.h.status[w]) && w !in s.h.cancels
      then Some(s.(threads := s.threads[t := Unlinking(w)], h := s.h.(cancels := s.h.cancels + {w})))
      else None
  }

  function SuspendStep(s: State, t: nat, w: nat, at: Phase, blocks: bool): (r: Option<State>)
    requires t < |s.threads|
  {
    match at
    case Arriving =>
      if s.lock == None then Some(s.(lock := Some(t), threads := s.threads[t := Suspends(w, Inside)])) else None
    case Inside =>
      Some(s.(threads := s.threads[t := Suspends(w, if s.closed then Refusing(true) else Open)]))
    case Open =>
      Some(s.(empty := false, threads := s.threads[t := Suspends(w, Marked)]))
    case Marked =>
      Some(s.(threads := s.threads[t := Suspends(w, if blocks then Committed else Aborting)]))
    case Aborting =>
      Some(s.(empty := s.list == [], threads := s.threads[t := Suspends(w, Refusing(false))]))
    case Refusing(closed) =>
      Some(s.(lock := None, threads := s.threads[t := Idle], h := SetStatus(s.h, w, Refused(closed))))
    case Committed =>
      Some(s.(lock := None, list := s.list + [w], threads := s.threads[t := Idle], h := SetStatus(s.h, w, Linked)))
  }

  /** Pop the front waiter, keeping the lock or not. */
  function Pop(s: State, t: nat, holding: bool): (r: State)
    requires t < |s.threads| && s.list != []
  {
    s.(list := s.list[1..], threads := s.threads[t := Completing(s.list[0], Woken, holding)],
       h := SetStatus(s.h, s.list[0], Unlinked(t)))
  }

  function WakeStep(s: State, t: nat): (r: Option<State>)
    requires t < |s.threads|
  {
    match s.threads[t]
    case Looking =>
      Some(s.(threads := s.threads[t := if s.empty then Idle else Popping]))
    case Popping =>
      if s.lock != None then None
      else if s.list == [] then Some(s.(threads := s.threads[t := Idle]))
      else Some(Pop(s, t, false))
    case Closing =>
      Some(s.(closed := true, threads := s.threads[t := LookingAll]))
    case LookingAll =>
      Some(s.(threads := s.threads[t := if s.empty then Idle else LockingAll]))
    case LockingAll =>
      if s.lock == None then Some(s.(lock := Some(t), threads := s.threads[t := Draining])) else None
    case Draining =>
      if s.list == [] then Some(s.(lock := None, threads := s.threads[t := Idle]))
      else Some(Pop(s, t, true))
    case _ => None
  }

  function CancelStep(s: State, t: nat, w: nat): (r: Option<State>)
    requires t < |s.threads|
  {
    if s.lock != None then None
    else if w in s.h.status && s.h.status[w].Linked? then
      Some(s.(list := Without(s.list, w), threads := s.threads[t := Completing(w, Cancelled, false)],
              h := SetStatus(s.h, w, Unlinked(t))))
    else Some(s.(threads := s.threads[t := Idle]))
  }

  /** `Request::complete`; `wake_all` unlocks after the last waiter. */
  function Complete(s: State, t: nat, w: nat, outcome: Outcome, holding: bool): (r: State)
    requires t < |s.threads|
  {
    s.(lock := if holding && s.list == [] then None else s.lock,
       threads := s.threads[t := if holding && s.list != [] then Draining else Idle],
       h := s.h.(times := s.h.times[w := Times(s.h, w) + 1], outcome := s.h.outcome[w := outcome]))
  }

  function Step(s: State, l: Label): (r: Option<State>) {
    if l.t >= |s.threads| then None
    else if l.Begin? then if s.threads[l.t] == Idle then Start(s, l.t, l.op) else None
    else match s.threads[l.t]
      case Suspends(w, at) => SuspendStep(s, l.t, w, at, l.blocks)
      case Unlinking(w) => CancelStep(s, l.t, w)
      case Completing(w, outcome, holding) => Some(Complete(s, l.t, w, outcome, holding))
      case _ => WakeStep(s, l.t)
  }

  // ----- the invariant

  /** Past the check of `closed`, so still able to join the list. */
  predicate MayJoin(pc: Pc) {
    pc.Suspends? && (pc.at.Open? || pc.at.Marked? || pc.at.Committed?)
  }

  predicate HoldsLock(pc: Pc) {
    (pc.Suspends? && !pc.at.Arriving?) || pc.Draining? || (pc.Completing? && pc.holding)
  }

  ghost predicate ThreadOk(s: State, t: nat)
    requires t < |s.threads|
  {
    match s.threads[t]
    case Suspends(w, at) =>
      && w in s.h.status && s.h.status[w] == Suspending(t)
      && (at.Marked? || at.Aborting? || at.Committed? ==> !s.empty)
      && (at.Refusing? && at.closed ==> s.closed)
    case Unlinking(w) =>
      w in s.h.cancels && w in s.h.status && Pending(s.h.status[w])
    case Completing(w, outcome, _) =>
      && w in s.h.status && s.h.status[w] == Unlinked(t) && Times(s.h, w) == 0
      && (outcome.Cancelled? ==> w in s.h.cancels)
    case _ => true
  }

  ghost predicate WaiterOk(s: State, w: nat)
    requires w in s.h.status
  {
    && (!s.h.status[w].Unlinked? ==> Times(s.h, w) == 0)
    && (s.h.status[w].Refused? && s.h.status[w].closed ==> s.closed)
    && Times(s.h, w) <= 1
    && (s.h.status[w].Unlinked? && Times(s.h, w) == 0 ==>
          var t := s.h.status[w].agent;
          t < |s.threads| && s.threads[t].Completing? && s.threads[t].w == w)
    && (Times(s.h, w) == 1 <==> w in s.h.outcome)
    && (w in s.h.outcome && s.h.outcome[w] == Cancelled ==> w in s.h.cancels)
  }

  /** The list holds exactly the linked waiters, each once. */
  ghost predicate ListOk(list: seq<nat>, status: map<nat, Status>) {
    && Distinct(list)
    && (forall i :: 0 <= i < |list| ==> list[i] in status && status[list[i]].Linked?)
    && (forall w :: w in status && status[w].Linked? ==> w in list)
  }

  /** Only thread `t` has moved. */
  ghost predicate OthersSame(s: State, s': State, t: nat) {
    && t < |s.threads| == |s'.threads|
    && forall u :: 0 <= u < |s.threads| && u != t ==> s'.threads[u] == s.threads[u]
  }

  ghost predicate LockOk(s: State) {
    && (s.lock.Some? ==> s.lock.value < |s.threads| && HoldsLock(s.threads[s.lock.value]))
    && (forall t :: 0 <= t < |s.threads| && HoldsLock(s.threads[t]) ==> s.lock == Some(t))
    && (s.list != [] ==> !s.empty)
  }

  ghost predicate Inv(s: State) {
    && LockOk(s)
    && ListOk(s.list, s.h.status)
    && (forall t :: 0 <= t < |s.threads| ==> ThreadOk(s, t))
    && (forall w :: w in s.h.status ==> WaiterOk(s, w))
    && (forall w :: w in s.h.times || w in s.h.outcome ==> w in s.h.status)
  }

  lemma InitInv(threads: nat)
    ensures Inv(Init(threads))
  {
  }

  lemma PopList(list: seq<nat>, status: map<nat, Status>, t: nat)
    requires ListOk(list, status) && list != []
    ensures ListOk(list[1..], status[list[0] := Unlinked(t)])
  {
    assert list == [list[0]] + list[1..];
  }

  lemma AppendList(list: seq<nat>, status: map<nat, Status>, w: nat)
    requires ListOk(list, status) && (w in status ==> !status[w].Linked?)
    ensures ListOk(list + [w], status[w := Linked])
  {
  }

  lemma UnlinkList(list: seq<nat>, status: map<nat, Status>, w: nat, t: nat)
    requires ListOk(list, status) && w in status && status[w].Linked?
    ensures ListOk(Without(list, w), status[w := Unlinked(t)])
  {
    assert w in list;
    WithoutContents(list, w);
  }

  lemma OtherList(list: seq<nat>, status: map<nat, Status>, w: nat, other: Status)
    requires ListOk(list, status) && (w in status ==> !status[w].Linked?) && !other.Linked?
    ensures ListOk(list, status[w := other])
  {
  }

  lemma StartThread(s: State, t: nat, op: Op, u: nat)
    requires t < |s.threads| && s.threads[t] == Idle && Start(s, t, op).Some?
    requires u < |s.threads| && ThreadOk(s, u)
    ensures ThreadOk(Start(s, t, op).value, u)
  {
  }

  lemma StartWaiter(s: State, t: nat, op: Op, w: nat)
    requires t < |s.threads| && s.threads[t] == Idle && Start(s, t, op).Some?
    requires if w in s.h.status then WaiterOk(s, w) else w !in s.h.times && w !in s.h.outcome
    requires w in Start(s, t, op).value.h.status
    ensures WaiterOk(Start(s, t, op).value, w)
  {
  }

  lemma StartInv(s: State, t: nat, op: Op)
    requires Inv(s) && t < |s.threads| && s.threads[t] == Idle && Start(s, t, op).Some?
    ensures Inv(Start(s, t, op).value)
  {
    var s' := Start(s, t, op).value;
    if op.Suspend? {
      OtherList(s.list, s.h.status, op.w, Suspending(t));
    }
    forall u | 0 <= u < |s.threads| ensures ThreadOk(s', u) {
      assert ThreadOk(s, u);
      StartThread(s, t, op, u);
    }
    forall w | w in s'.h.status ensures WaiterOk(s', w) {
      assert w in s.h.status ==> WaiterOk(s, w);
      StartWaiter(s, t, op, w);
    }
  }

  lemma CommitInv(s: State, t: nat, w: nat, blocks: bool)
    requires Inv(s) && t < |s.threads| && s.threads[t] == Suspends(w, Committed)
    ensures Inv(SuspendStep(s, t, w, Committed, blocks).value)
  {
    var s' := SuspendStep(s, t, w, Committed, blocks).value;
    assert ThreadOk(s, t) && WaiterOk(s, w);
    AppendList(s.list, s.h.status, w);
    forall u | 0 <= u < |s.threads| ensures ThreadOk(s', u) { assert ThreadOk(s, u); }
    forall x | x in s'.h.status ensures WaiterOk(s', x) { assert WaiterOk(s, x); }
  }

  lemma RefuseInv(s: State, t: nat, w: nat, closed: bool, blocks: bool)
    requires Inv(s) && t < |s.threads| && s.threads[t] == Suspends(w, Refusing(closed))
    ensures Inv(SuspendStep(s, t, w, Refusing(closed), blocks).value)
  {
    var s' := SuspendStep(s, t, w, Refusing(closed), blocks).value;
    assert ThreadOk(s, t) && WaiterOk(s, w);
    OtherList(s.list, s.h.status, w, Refused(closed));
    forall u | 0 <= u < |s.threads| ensures ThreadOk(s', u) { assert ThreadOk(s, u); }
    forall x | x in s'.h.status ensures WaiterOk(s', x) { assert WaiterOk(s, x); }
  }

  /** A step that leaves every account alone, by a thread with no waiter to complete. */
  lemma SameAccount(s: State, s': State, t: nat, w: nat)
    requires w in s.h.status && WaiterOk(s, w) && s'.h == s.h && (s.closed ==> s'.closed)
    requires OthersSame(s, s', t) && !s.threads[t].Completing?
    ensures WaiterOk(s', w)
  {
  }

  /** Before it commits or refuses, suspend changes no waiter's account. */
  lemma InsideThreads(s: State, t: nat, w: nat, at: Phase, blocks: bool, u: nat)
    requires t < |s.threads| && s.threads[t] == Suspends(w, at) && !at.Committed? && !at.Refusing?
    requires SuspendStep(s, t, w, at, blocks).Some? && LockOk(s)
    requires u < |s.threads| && ThreadOk(s, t) && ThreadOk(s, u)
    ensures ThreadOk(SuspendStep(s, t, w, at, blocks).value, u)
  {
    assert u != t && !at.Arriving? ==> !HoldsLock(s.threads[u]);
  }

  lemma InsideLock(s: State, t: nat, w: nat, at: Phase, blocks: bool)
    requires t < |s.threads| && s.threads[t] == Suspends(w, at) && !at.Committed? && !at.Refusing?
    requires SuspendStep(s, t, w, at, blocks).Some? && LockOk(s)
    ensures var s' := SuspendStep(s, t, w, at, blocks).value;
      LockOk(s') && OthersSame(s, s', t) && s'.h == s.h && s'.list == s.list && s'.closed == s.closed
  {
  }

  lemma InsideInv(s: State, t: nat, w: nat, at: Phase, blocks: bool)
    requires Inv(s) && t < |s.threads| && s.threads[t] == Suspends(w, at) && !at.Committed? && !at.Refusing?
    requires SuspendStep(s, t, w, at, blocks).Some?
    ensures Inv(SuspendStep(s, t, w, at, blocks).value)
  {
    var s' := SuspendStep(s, t, w, at, blocks).value;
    InsideLock(s, t, w, at, blocks);
    forall u | 0 <= u < |s.threads| ensures ThreadOk(s', u) {
      assert ThreadOk(s, t) && ThreadOk(s, u);
      InsideThreads(s, t, w, at, blocks, u);
    }
    forall x | x in s.h.status ensures WaiterOk(s', x) {
      assert WaiterOk(s, x);
      SameAccount(s, s', t, x);
    }
  }

  lemma SuspendInv(s: State, t: nat, w: nat, at: Phase, blocks: bool)
    requires Inv(s) && t < |s.threads| && s.threads[t] == Suspends(w, at)
    requires SuspendStep(s, t, w, at, blocks).Some?
    ensures Inv(SuspendStep(s, t, w, at, blocks).value)
  {
    match at
    case Committed => CommitInv(s, t, w, blocks);
    case Refusing(closed) => RefuseInv(s, t, w, closed, blocks);
    case _ => InsideInv(s, t, w, at, blocks);
  }

  lemma PopInv(s: State, t: nat, holding: bool)
    requires Inv(s) && t < |s.threads| && s.list != []
    requires if holding then s.threads[t].Draining? else s.threads[t].Popping? && s.lock == None
    ensures Inv(Pop(s, t, holding))
  {
    var s' := Pop(s, t, holding);
    PopList(s.list, s.h.status, t);
    assert WaiterOk(s, s.list[0]);
    forall u | 0 <= u < |s.threads| ensures ThreadOk(s', u) { assert ThreadOk(s, u); }
    forall x | x in s'.h.status ensures WaiterOk(s', x) { assert WaiterOk(s, x); }
  }

  lemma WakeOneInv(s: State, t: nat)
    requires Inv(s) && t < |s.threads| && (s.threads[t].Looking? || s.threads[t].Popping?)
    requires WakeStep(s, t).Some?
    ensures Inv(WakeStep(s, t).value)
  {
    var s' := WakeStep(s, t).value;
    if s.threads[t].Popping? && s.list != [] {
      PopInv(s, t, false);
    } else {
      forall u | 0 <= u < |s.threads| ensures ThreadOk(s', u) { assert ThreadOk(s, u); }
      forall x | x in s'.h.status ensures WaiterOk(s', x) { assert WaiterOk(s, x); }
    }
  }

  lemma WakeAllInv(s: State, t: nat)
    requires Inv(s) && t < |s.threads|
      && (s.threads[t].Closing? || s.threads[t].LookingAll? || s.threads[t].LockingAll? || s.threads[t].Draining?)
    requires WakeStep(s, t).Some?
    ensures Inv(WakeStep(s, t).value)
  {
    var s' := WakeStep(s, t).value;
    if s.threads[t].Draining? && s.list != [] {
      PopInv(s, t, true);
    } else {
      forall u | 0 <= u < |s.threads| ensures ThreadOk(s', u) { assert ThreadOk(s, u); }
      forall x | x in s'.h.status ensures WaiterOk(s', x) { assert WaiterOk(s, x); }
    }
  }

  lemma CancelInv(s: State, t: nat, w: nat)
    requires Inv(s) && t < |s.threads| && s.threads[t] == Unlinking(w) && CancelStep(s, t, w).Some?
    ensures Inv(CancelStep(s, t, w).value)
  {
    var s' := CancelStep(s, t, w).value;
    assert ThreadOk(s, t) && WaiterOk(s, w);
    if s.h.status[w].Linked? {
      UnlinkList(s.list, s.h.status, w, t);
      assert w in s.list;
    }
    forall u | 0 <= u < |s.threads| ensures ThreadOk(s', u) { assert ThreadOk(s, u); }
    forall x | x in s'.h.status ensures WaiterOk(s', x) { assert WaiterOk(s, x); }
  }

  lemma CompleteInv(s: State, t: nat, w: nat, outcome: Outcome, holding: bool)
    requires Inv(s) && t < |s.threads| && s.threads[t] == Completing(w, outcome, holding)
    ensures Inv(Complete(s, t, w, outcome, holding))
  {
    var s' := Complete(s, t, w, outcome, holding);
    assert ThreadOk(s, t) && WaiterOk(s, w);
    forall u | 0 <= u < |s.threads| ensures ThreadOk(s', u) { assert ThreadOk(s, u); }
    forall x | x in s'.h.status ensures WaiterOk(s', x) { assert WaiterOk(s, x); }
  }

  lemma StepInv(s: State, l: Label)
    requires Inv(s) && Step(s, l).Some?
    ensures Inv(Step(s, l).value)
  {
    var pc := s.threads[l.t];
    if l.Begin? {
      StartInv(s, l.t, l.op);
    } else if pc.Suspends? {
      SuspendInv(s, l.t, pc.w, pc.at, l.blocks);
    } else if pc.Unlinking? {
      CancelInv(s, l.t, pc.w);
    } else if pc.Completing? {
      CompleteInv(s, l.t, pc.w, pc.outcome, pc.holding);
    } else if pc.Looking? || pc.Popping? {
      WakeOneInv(s, l.t);
    } else {
      WakeAllInv(s, l.t);
    }
  }

  // ----- what holds of every run

  ghost function Run(threads: nat, labels: seq<Label>): (r: Option<State>) {
    Machine.Exec((s, l) => Step(s, l), Init(threads), labels)
  }

  /** In every interleaving: a linked or committed waiter keeps `empty` false; a waiter
      is completed at most once, and only after its suspend returned Pending and it
      was unlinked; a pending waiter is either linked, or completed, or in the hands of
      exactly one thread that is about to complete it; and one completed as cancelled
      was cancelled. */
  ghost predicate Safe(s: State) {
    && (s.list != [] ==> !s.empty)
    && (forall t :: 0 <= t < |s.threads| && s.threads[t].Suspends? && s.threads[t].at.Committed? ==> !s.empty)
    && (forall w :: w in s.h.times ==> w in s.h.status)
    && (forall w :: w in s.h.status ==>
          && Times(s.h, w) <= 1
          && (w in s.list <==> s.h.status[w].Linked?)
          && (Times(s.h, w) == 1 ==> s.h.status[w].Unlinked?)
          && (s.h.status[w].Unlinked? && Times(s.h, w) == 0 ==>
                var t := s.h.status[w].agent;
                && t < |s.threads| && s.threads[t].Completing? && s.threads[t].w == w
                && forall u :: 0 <= u < |s.threads| && s.threads[u].Completing? && s.threads[u].w == w ==> u == t)
          && (w in s.h.outcome && s.h.outcome[w].Cancelled? ==> w in s.h.cancels))
  }

  lemma RunsAreSafe(threads: nat, labels: seq<Label>)
    requires Run(threads, labels).Some?
    ensures var s := Run(threads, labels).value;
      Inv(s) && Safe(s) && Distinct(s.list)
  {
    InitInv(threads);
    forall s, l | Inv(s) && Step(s, l).Some? ensures Inv(Step(s, l).value) { StepInv(s, l); }
    Machine.RunsKeep((s, l) => Step(s, l), s => Inv(s), Init(threads), labels);
    InvIsSafe(Run(threads, labels).value);
  }

  lemma InvIsSafe(s: State)
    requires Inv(s)
    ensures Safe(s)
  {
    forall t | 0 <= t < |s.threads| && s.threads[t].Suspends? && s.threads[t].at.Committed? ensures !s.empty {
      assert ThreadOk(s, t);
    }
    forall w | w in s.h.status && s.h.status[w].Unlinked? && Times(s.h, w) == 0
      ensures forall u :: 0 <= u < |s.threads| && s.threads[u].Completing? && s.threads[u].w == w ==>
        u == s.h.status[w].agent
    {
      forall u | 0 <= u < |s.threads| && s.threads[u].Completing? && s.threads[u].w == w
        ensures u == s.h.status[w].agent
      {
        assert ThreadOk(s, u);
      }
    }
    forall w | w in s.h.status ensures WaiterOk(s, w) {}
  }

  /** Waiters join at the back and leave from the front. */
  lemma ArrivalOrder(s: State, l: Label)
    requires Step(s, l).Some? && !l.Begin? && !s.threads[l.t].Unlinking?
    ensures var s', pc := Step(s, l).value, s.threads[l.t];
      s'.list == (if pc.Suspends? && pc.at.Committed? then s.list + [pc.w]
                  else if (pc.Popping? || pc.Draining?) && s.list != [] then s.list[1..]
                  else s.list)
    ensures var pc := s.threads[l.t];
      (pc.Popping? || pc.Draining?) && s.list != [] ==>
        Step(s, l).value.threads[l.t] == Completing(s.list[0], Woken, pc.Draining?)
  {
  }

  /** A cancel takes out its own waiter and nobody else. */
  lemma CancelTakesOne(s: State, l: Label)
    requires Inv(s) && Step(s, l).Some? && !l.Begin? && s.threads[l.t].Unlinking?
    ensures var w, list' := s.threads[l.t].w, Step(s, l).value.list;
      if w in s.list then exists i :: 0 <= i < |s.list| && s.list[i] == w && list' == s.list[..i] + s.list[i + 1..]
      else list' == s.list
  {
    var w := s.threads[l.t].w;
    assert ThreadOk(s, l.t);
    var i := Position(s.list, w);
    assert w in s.list ==> s.list[i] == w;
  }

  // ----- what the users of a wait list see of a step

  /** Some waiter sleeps, or has decided to. */
  ghost predicate Sleepers(s: State) {
    s.list != [] || exists t :: 0 <= t < |s.threads| && s.threads[t].Suspends? && s.threads[t].at.Committed?
  }

  /** A step of `suspend(w)` by thread `t`. */
  ghost predicate SuspendEffect(s: State, s': State, t: nat, w: nat, blocks: bool) {
    && OthersSame(s, s', t)
    && s.threads[t].Suspends? && s.threads[t].w == w
    && s'.h.times == s.h.times && s'.h.outcome == s.h.outcome
    && (forall x :: x in s'.h.status ==> x in s.h.status || x == w)
    && (forall x :: x in s.h.status && x != w ==> x in s'.h.status && s'.h.status[x] == s.h.status[x])
    && match s'.threads[t]
       case Idle =>
         && w in s'.h.status
         && (if s.threads[t].at.Committed? then s'.h.status[w].Linked? && s'.list == s.list + [w]
             else s.threads[t].at.Refusing? && s'.h.status[w].Refused? && s'.list == s.list)
       case Suspends(w', at) =>
         && w' == w && s'.list == s.list && s'.h.status == s.h.status
         && (at.Committed? ==> blocks)
       case _ => false
  }

  lemma SuspendSeen(s: State, t: nat, blocks: bool)
    requires t < |s.threads| && s.threads[t].Suspends? && Step(s, Go(t, blocks)).Some?
    ensures SuspendEffect(s, Step(s, Go(t, blocks)).value, t, s.threads[t].w, blocks)
  {
  }

  /** A step of `wake_one` by thread `t`. */
  ghost predicate WakeEffect(s: State, s': State, t: nat) {
    && OthersSame(s, s', t)
    && match s.threads[t]
       case Looking =>
         && s'.list == s.list && s'.h == s.h
         && s'.threads[t] == if s.empty then Idle else Popping
       case Popping =>
         && s.lock == None && s'.h.times == s.h.times && s'.h.outcome == s.h.outcome
         && (if s.list == [] then s'.list == [] && s'.threads[t] == Idle && s'.h.status == s.h.status
             else
               && s'.list == s.list[1..] && s'.threads[t] == Completing(s.list[0], Woken, false)
               && s'.h.status == s.h.status[s.list[0] := Unlinked(t)])
       case Completing(w, _, _) =>
         && s'.list == s.list && s'.h.status == s.h.status && s'.threads[t] == Idle
         && s'.h.times == s.h.times[w := Times(s.h, w) + 1]
         && s'.h.outcome == s.h.outcome[w := Woken]
       case _ => false
  }

  lemma WakeSeen(s: State, t: nat)
    requires t < |s.threads| && Step(s, Go(t, false)).Some?
    requires s.threads[t].Looking? || s.threads[t].Popping?
      || (s.threads[t].Completing? && s.threads[t].outcome.Woken? && !s.threads[t].holding)
    ensures WakeEffect(s, Step(s, Go(t, false)).value, t)
  {
  }

  /** A step of `wake_all` by thread `t`; when it returns, nobody sleeps. */
  ghost predicate WakeAllEffect(s: State, s': State, t: nat) {
    && OthersSame(s, s', t)
    && (s'.threads[t] == Idle || InWakeAll(s'.threads[t]))
    && (s'.threads[t] == Idle ==> !Sleepers(s'))
    && (forall x :: x in s.h.status <==> x in s'.h.status)
    && (forall x :: x in s.h.status ==>
          && (s'.h.status[x] == s.h.status[x] || (s.h.status[x].Linked? && s'.h.status[x].Unlinked?))
          && Times(s.h, x) <= Times(s'.h, x))
  }

  predicate InWakeAll(pc: Pc) {
    pc.LookingAll? || pc.LockingAll? || pc.Draining? || (pc.Completing? && pc.outcome.Woken? && pc.holding)
  }

  lemma WakeAllSeen(s: State, t: nat)
    requires Inv(s) && t < |s.threads| && InWakeAll(s.threads[t]) && Step(s, Go(t, false)).Some?
    ensures WakeAllEffect(s, Step(s, Go(t, false)).value, t)
  {
    var s' := Step(s, Go(t, false)).value;
    assert ThreadOk(s, t);
    if s'.threads[t] == Idle {
      NobodySleeps(s, t);
    }
  }

  /** Whoever has decided to sleep holds the lock, and keeps `empty` false. */
  lemma NobodySleeps(s: State, t: nat)
    requires Inv(s) && t < |s.threads| && InWakeAll(s.threads[t]) && Step(s, Go(t, false)).Some?
    requires Step(s, Go(t, false)).value.threads[t] == Idle
    ensures !Sleepers(Step(s, Go(t, false)).value)
  {
    var s' := Step(s, Go(t, false)).value;
    forall u | 0 <= u < |s'.threads| && s'.threads[u].Suspends? ensures !s'.threads[u].at.Committed? {
      assert s.threads[u] == s'.threads[u] && ThreadOk(s, u);
    }
  }

  /** A step of a cancel by thread `t`. */
  ghost predicate CancelEffect(s: State, s': State, t: nat) {
    && OthersSame(s, s', t)
    && (s'.threads[t] == Idle || s'.threads[t].Unlinking?
      || (s'.threads[t].Completing? && s'.threads[t].outcome.Cancelled? && !s'.threads[t].holding))
    && (forall x :: x in s.h.status <==> x in s'.h.status)
    && (forall x :: x in s.h.status ==>
          && (s'.h.status[x] == s.h.status[x] || (s.h.status[x].Linked? && s'.h.status[x].Unlinked?))
          && Times(s.h, x) <= Times(s'.h, x)
          && (Times(s'.h, x) != Times(s.h, x) ==> s.threads[t].Completing? && s.threads[t].w == x)
          && (x in s.h.outcome && Times(s'.h, x) == Times(s.h, x) ==>
            x in s'.h.outcome && s'.h.outcome[x] == s.h.outcome[x]))
    && (s'.list != [] ==> s.list != [])
  }

  lemma CancelSeen(s: State, l: Label)
    requires Inv(s) && Step(s, l).Some?
    requires if l.Begin? then l.op.Cancel? else
      || s.threads[l.t].Unlinking?
      || (s.threads[l.t].Completing? && s.threads[l.t].outcome.Cancelled? && !s.threads[l.t].holding)
    ensures CancelEffect(s, Step(s, l).value, l.t)
  {
    assert ThreadOk(s, l.t);
  }

  /** A thread that has not just committed adds no sleeper. */
  lemma SameSleepers(s: State, s': State, t: nat)
    requires OthersSame(s, s', t)
    requires s'.list != [] ==> Sleepers(s)
    requires s'.threads[t].Suspends? && s'.threads[t].at.Committed? ==> Sleepers(s)
    ensures Sleepers(s') ==> Sleepers(s)
  {
    if s'.list == [] && Sleepers(s') {
      var u :| 0 <= u < |s'.threads| && s'.threads[u].Suspends? && s'.threads[u].at.Committed?;
      assert u != t ==> s.threads[u] == s'.threads[u];
    }
  }

  // ----- close

  /** Nobody can be stranded: closed, nobody linked, nobody past the check of `closed`. */
  ghost predicate Shut(s: State) {
    s.closed && s.list == [] && forall t :: 0 <= t < |s.threads| ==> !MayJoin(s.threads[t])
  }

  lemma ShutStays(s: State, l: Label)
    requires Shut(s) && Step(s, l).Some?
    ensures Shut(Step(s, l).value)
  {
    if !l.Begin? && s.threads[l.t].Unlinking? {
      assert Without([], s.threads[l.t].w) == [];
    }
  }

  /** A close that takes the lock leaves the list shut when it is done. */
  lemma DrainShuts(s: State, l: Label)
    requires Inv(s) && s.closed && Step(s, l).Some? && !l.Begin?
    requires s.threads[l.t].Draining? || (s.threads[l.t].Completing? && s.threads[l.t].holding)
    requires Step(s, l).value.threads[l.t] == Idle
    ensures Shut(Step(s, l).value)
  {
    var s' := Step(s, l).value;
    forall t | 0 <= t < |s'.threads| ensures !MayJoin(s'.threads[t]) {
      assert HoldsLock(s.threads[l.t]);
    }
  }

  /** A close whose load of `empty` said true returns at once.  From then on some run
      links a waiter to the closed list exactly when, at that load, a suspend had read
      `closed` but not yet stored `empty`. */
  lemma CloseCanMiss(s: State, t: nat)
    requires Inv(s) && t < |s.threads| && s.closed && s.empty && s.threads[t].LookingAll?
    ensures (exists labels :: labels != [] && labels[0] == Go(t, false) && Links(s, labels))
      <==> (exists u :: 0 <= u < |s.threads| && s.threads[u].Suspends? && s.threads[u].at.Open?)
  {
    var s1 := Step(s, Go(t, false)).value;
    if u :| 0 <= u < |s.threads| && s.threads[u].Suspends? && s.threads[u].at.Open? {
      MissedWaiter(s, t, u);
    } else {
      forall u | 0 <= u < |s1.threads| ensures !MayJoin(s1.threads[u]) {
        assert ThreadOk(s, u);
      }
      forall labels | labels != [] && labels[0] == Go(t, false) ensures !Links(s, labels) {
        forall x, l | Shut(x) && Step(x, l).Some? ensures Shut(Step(x, l).value) { ShutStays(x, l); }
        Machine.RunsKeep((x, l) => Step(x, l), x => Shut(x), s1, labels[1..]);
      }
    }
  }

  ghost predicate Links(s: State, labels: seq<Label>) {
    var r := Machine.Exec((x, l) => Step(x, l), s, labels);
    r.Some? && r.value.list != []
  }

  lemma MissedWaiter(s: State, t: nat, u: nat)
    requires Inv(s) && t < |s.threads| && s.closed && s.empty && s.threads[t].LookingAll?
    requires u < |s.threads| && s.threads[u].Suspends? && s.threads[u].at.Open?
    ensures exists labels :: labels != [] && labels[0] == Go(t, false) && Links(s, labels)
  {
    var step := (x: State, l: Label) => Step(x, l);
    var go := Go(u, true);
    var s1 := Step(s, Go(t, false)).value;
    Machine.ExecThree(step, s1, go, go, go);
    var labels := [Go(t, false)] + [go, go, go];
    assert labels[1..] == [go, go, go];
    assert Links(s, labels);
  }

  /** Such a miss happens: a waiter sleeps on a closed list and nobody will come.  (The
      first suspend does not block, which is what sets `empty`.) */
  lemma CloseDoesMiss()
    ensures exists s ::
      && Machine.Reaches((x, l) => Step(x, l), Init(2), s)
      && s.closed && s.list != [] && s.threads == [Idle, Idle]
  {
    var go := Go(0, false);
    var s := AbortedSuspend();
    s := After(s, Begin(0, Suspend(1)));
    s := After(s, go);
    s := After(s, go);
    s := After(s, Begin(1, Close));
    s := After(s, Go(1, false));
    s := After(s, Go(1, false));
    s := LateSuspend(s);
  }

  lemma LateSuspend(s: State) returns (s': State)
    requires Machine.Reaches((x, l) => Step(x, l), Init(2), s)
    requires s.list == [] && s.closed && s.threads == [Suspends(1, Open), Idle]
    ensures Machine.Reaches((x, l) => Step(x, l), Init(2), s')
    ensures s'.list == [1] && s'.closed && s'.threads == [Idle, Idle]
  {
    s' := After(s, Go(0, false));
    s' := After(s', Go(0, true));
    s' := After(s', Go(0, false));
  }

  lemma AbortedSuspend() returns (s: State)
    ensures Machine.Reaches((x, l) => Step(x, l), Init(2), s)
    ensures s.lock == None && s.list == [] && !s.closed && s.empty && s.threads == [Idle, Idle] && 1 !in s.h.status
  {
    s := HalfSuspend();
    var go := Go(0, false);
    s := After(s, go);
    s := After(s, go);
    s := After(s, go);
  }

  lemma HalfSuspend() returns (s: State)
    ensures Machine.Reaches((x, l) => Step(x, l), Init(2), s)
    ensures s.lock == Some(0) && s.list == [] && !s.closed && s.threads == [Suspends(0, Marked), Idle]
      && 1 !in s.h.status
  {
    Machine.ReachSelf((x, l) => Step(x, l), Init(2));
    var go := Go(0, false);
    s := After(Init(2), Begin(0, Suspend(0)));
    s := After(s, go);
    s := After(s, go);
    s := After(s, go);
  }

  lemma After(s: State, l: Label) returns (s': State)
    requires Machine.Reaches((x, l) => Step(x, l), Init(2), s) && Step(s, l).Some?
    ensures s' == Step(s, l).value
    ensures Machine.Reaches((x, l) => Step(x, l), Init(2), s')
  {
    Machine.ReachStep((x, l) => Step(x, l), Init(2), s, l);
    s' := Step(s, l).value;
  }
}
