/** The thread pool of `threadpool/mod.rs`: a locked queue, a condition variable, an
    idle count, and a `closed` flag that is stored without the lock.

    A worker's loop is split where the lock is released or `closed` is read; submitting,
    cancelling and cancelling everything are one critical section each.  `idle` is only
    touched under the lock.  Work items are numbered and never reused. */
module ThreadPool {
  import opened Wrappers
  import Machine
  import opened Lists

  datatype Pc =
    | NotStarted
    | Checking               // holds the lock, before the load of `closed`
    | Popping                // holds the lock, saw it open
    | Sleeping               // waits on the condition variable
    | Awake(notified: bool)  // notified, or woken spuriously; wants the lock
    | Running(item: nat)     // popped it, lock released
    | Relocking              // completed it, wants the lock
    | Exited

  /** `cur` is `cur_work`, `cancelled` the flag of the worker's task context. */
  datatype Worker = Worker(pc: Pc, cur: Option<nat>, cancelled: bool)

  /** `closing` counts the threads between storing `closed` and taking the lock. */
  datatype Queue = Queue(lock: Option<nat>, items: seq<nat>, idle: int, closed: bool, closing: nat)

  /** `worker` is the pointer that a pop leaves in the item; without one there is none. */
  datatype Status = Queued | Popped(agent: nat) | Done(ok: bool, worker: Option<nat>)

  /** `astray`: whose cancel looked for the worker of an item that never had one. */
  datatype History = History(status: map<nat, Status>, times: map<nat, nat>, cancels: set<nat>, astray: set<nat>)

  datatype State = State(q: Queue, workers: seq<Worker>, h: History)

  datatype Label =
    | Enter(i: nat)                         // take the lock: at the start, or after waking up
    | Spurious(i: nat)                      // the condition variable may wake anybody
    | Check(i: nat)
    | Pop(i: nat)
    | Finish(i: nat)                        // the callback returned; complete(true)
    | Relock(i: nat)
    | Submit(item: nat, target: nat)        // `target` is whom notify_one picks
    | Cancel(item: nat)
    | StoreClosed
    | CancelAll(close: bool)
    | DropQueue

  function Init(n: nat): (r: State) {
    State(Queue(None, [], n, false, 0), seq(n, _ => Worker(NotStarted, None, false)), History(map[], map[], {}, {}))
  }

  function Times(h: History, item: nat): (r: nat) {
    if item in h.times then h.times[item] else 0
  }

  function Complete(h: History, item: nat, ok: bool, worker: Option<nat>): (r: History) {
    h.(status := h.status[item := Done(ok, worker)], times := h.times[item := Times(h, item) + 1])
  }

  /** `cancel_all` on the queue: complete every item in order with false. */
  function CompleteAll(h: History, items: seq<nat>): (r: History)
    decreases |items|
  {
    if items == [] then h else CompleteAll(Complete(h, items[0], false, None), items[1..])
  }

  function SetPc(s: State, i: nat, pc: Pc): (r: State)
    requires i < |s.workers|
  {
    s.(workers := s.workers[i := s.workers[i].(pc := pc)])
  }

  function NotifyAll(workers: seq<Worker>): (r: seq<Worker>)
    ensures |r| == |workers|
    ensures forall i :: 0 <= i < |r| ==>
      r[i] == (if workers[i].pc == Sleeping then workers[i].(pc := Awake(true)) else workers[i])
  {
    seq(|workers|, i requires 0 <= i < |workers| => if workers[i].pc == Sleeping then workers[i].(pc := Awake(true))
      else workers[i])
  }

  predicate SomeoneSleeps(workers: seq<Worker>) {
    exists i :: 0 <= i < |workers| && workers[i].pc == Sleeping
  }

  function PopStep(s: State, i: nat): (r: State)
    requires i < |s.workers|
  {
    if s.q.items == [] then
      SetPc(s, i, Sleeping).(q := s.q.(lock := None, idle := s.q.idle + 1))
    else
      var item := s.q.items[0];
      s.(q := s.q.(lock := None, items := s.q.items[1..]),
         workers := s.workers[i := Worker(Running(item), Some(item), false)],
         h := s.h.(status := s.h.status[item := Popped(i)]))
  }

  function SubmitStep(s: State, item: nat, target: nat): (r: Option<State>) {
    var s' := s.(q := s.q.(items := s.q.items + [item]), h := s.h.(status := s.h.status[item := Queued]));
    if s.q.idle == 0 || !SomeoneSleeps(s.workers) then Some(s')
    else if target < |s.workers| && s.workers[target].pc == Sleeping then Some(SetPc(s', target, Awake(true)))
    else None
  }

  /** `cancel_direct` of an item that is not linked, which looks at the item's worker. */
  function CancelAt(s: State, item: nat, worker: Option<nat>): (r: State) {
    match worker
    case None => s.(h := s.h.(astray := s.h.astray + {item}))
    case Some(i) =>
      if i < |s.workers| && s.workers[i].cur == Some(item)
      then s.(workers := s.workers[i := s.workers[i].(cancelled := true)])
      else s
  }

  function CancelStep(s: State, item: nat): (r: Option<State>) {
    if item !in s.h.status || item in s.h.cancels then None
    else
      var s' := s.(h := s.h.(cancels := s.h.cancels + {item}));
      match s.h.status[item]
      case Queued =>
        Some(s'.(q := s.q.(items := Without(s.q.items, item)), h := Complete(s'.h, item, false, None)))
      case Popped(i) => Some(CancelAt(s', item, Some(i)))
      case Done(_, worker) => Some(CancelAt(s', item, worker))
  }

  function Step(s: State, l: Label): (r: Option<State>) {
    match l
    case Enter(i) =>
      if i < |s.workers| && (s.workers[i].pc == NotStarted || s.workers[i].pc.Awake?) && s.q.lock == None
      then Some(SetPc(s, i, Checking).(q := s.q.(lock := Some(i), idle := s.q.idle - 1)))
      else None
    case Spurious(i) =>
      if i < |s.workers| && s.workers[i].pc == Sleeping then Some(SetPc(s, i, Awake(false))) else None
    case Check(i) =>
      if i >= |s.workers| || s.workers[i].pc != Checking then None
      else if s.q.closed then Some(SetPc(s, i, Exited).(q := s.q.(lock := None)))
      else Some(SetPc(s, i, Popping))
    case Pop(i) =>
      if i >= |s.workers| || s.workers[i].pc != Popping then None else Some(PopStep(s, i))
    case Finish(i) =>
      if i >= |s.workers| || !s.workers[i].pc.Running? then None
      else Some(SetPc(s, i, Relocking).(h := Complete(s.h, s.workers[i].pc.item, true, Some(i))))
    case Relock(i) =>
      if i < |s.workers| && s.workers[i].pc == Relocking && s.q.lock == None
      then Some(s.(q := s.q.(lock := Some(i)), workers := s.workers[i := s.workers[i].(pc := Checking, cur := None)]))
      else None
    case Submit(item, target) =>
      if s.q.lock != None || item in s.h.status then None else SubmitStep(s, item, target)
    case Cancel(item) =>
      if s.q.lock != None then None else CancelStep(s, item)
    case StoreClosed =>
      Some(s.(q := s.q.(closed := true, closing := s.q.closing + 1)))
    case CancelAll(close) =>
      if s.q.lock != None || (close && s.q.closing == 0) then None
      else Some(State(s.q.(items := [], closing := if close then s.q.closing - 1 else s.q.closing),
                      NotifyAll(s.workers), CompleteAll(s.h, s.q.items)))
    case DropQueue =>
      if exists i :: 0 <= i < |s.workers| && s.workers[i].pc != Exited then None
      else Some(s.(q := s.q.(items := []), h := CompleteAll(s.h, s.q.items)))
  }

  // ----- the invariant

  predicate HoldsLock(pc: Pc) {
    pc == Checking || pc == Popping
  }

  predicate IsIdle(pc: Pc) {
    pc == NotStarted || pc == Sleeping || pc.Awake?
  }

  ghost function IdleSet(workers: seq<Worker>): (r: set<nat>) {
    set i: nat | i < |workers| && IsIdle(workers[i].pc)
  }

  /** Notified, and not yet back in possession of the lock. */
  ghost function NotifiedSet(workers: seq<Worker>): (r: set<nat>) {
    set i: nat | i < |workers| && workers[i].pc == Awake(true)
  }

  /** The queue holds exactly the queued items, each once. */
  ghost predicate ListOk(items: seq<nat>, status: map<nat, Status>) {
    && Distinct(items)
    && (forall k :: 0 <= k < |items| ==> items[k] in status && status[items[k]].Queued?)
    && (forall x :: x in status && status[x].Queued? ==> x in items)
  }

  /** The worker that popped the item. */
  function WorkerOf(status: Status): (i: Option<nat>) {
    match status
    case Queued => None
    case Popped(i) => Some(i)
    case Done(_, worker) => worker
  }

  ghost predicate WorkerOk(s: State, i: nat)
    requires i < |s.workers|
  {
    var w := s.workers[i];
    && (HoldsLock(w.pc) ==> s.q.lock == Some(i))
    && (w.pc == Popping && s.q.closed ==> s.q.closing > 0)
    && (w.pc == Sleeping && s.q.closed ==> s.q.closing > 0)
    && (w.pc.Running? ==> w.cur == Some(w.pc.item) && w.pc.item in s.h.status && s.h.status[w.pc.item] == Popped(i))
    && (w.cur.Some? ==>
          && (w.cancelled ==> w.cur.value in s.h.cancels)
          && w.cur.value in s.h.status && WorkerOf(s.h.status[w.cur.value]) == Some(i))
  }

  ghost predicate ItemOk(s: State, x: nat)
    requires x in s.h.status
  {
    && Times(s.h, x) == (if s.h.status[x].Done? then 1 else 0)
    && (s.h.status[x].Popped? ==> s.h.status[x].agent < |s.workers| && s.workers[s.h.status[x].agent].pc == Running(x))
    && (s.h.status[x].Done? ==> (s.h.status[x].ok <==> s.h.status[x].worker.Some?))
    && (x in s.h.astray ==> s.h.status[x] == Done(false, None) && x in s.h.cancels)
  }

  /** No worker sleeps beside unclaimed work. */
  ghost predicate Claimed(s: State) {
    SomeoneSleeps(s.workers) && !s.q.closed ==>
      |s.q.items| <= |NotifiedSet(s.workers)| + (if s.q.lock.Some? then 1 else 0)
  }

  ghost predicate LockOk(s: State) {
    s.q.lock.Some? ==> s.q.lock.value < |s.workers| && HoldsLock(s.workers[s.q.lock.value].pc)
  }

  ghost predicate Inv(s: State) {
    && LockOk(s)
    && s.q.idle == |IdleSet(s.workers)|
    && (s.q.closing > 0 ==> s.q.closed)
    && ListOk(s.q.items, s.h.status)
    && Claimed(s)
    && (forall i :: 0 <= i < |s.workers| ==> WorkerOk(s, i))
    && (forall x :: x in s.h.status ==> ItemOk(s, x))
    && (forall x :: x in s.h.times || x in s.h.astray ==> x in s.h.status)
  }

  lemma InitInv(n: nat)
    ensures Inv(Init(n))
  {
    AllIdle(Init(n).workers);
  }

  lemma {:induction false} AllIdle(workers: seq<Worker>)
    requires forall i :: 0 <= i < |workers| ==> IsIdle(workers[i].pc)
    ensures |IdleSet(workers)| == |workers|
    decreases |workers|
  {
    if workers == [] {
      assert IdleSet(workers) == {};
    } else {
      var n := |workers| - 1;
      AllIdle(workers[..n]);
      assert IdleSet(workers) == IdleSet(workers[..n]) + {n};
    }
  }

  /** One worker moves: how the idle and the notified change. */
  lemma IdleMove(workers: seq<Worker>, i: nat, w: Worker)
    requires i < |workers|
    ensures |IdleSet(workers[i := w])| ==
      |IdleSet(workers)| + (if IsIdle(w.pc) then 1 else 0) - (if IsIdle(workers[i].pc) then 1 else 0)
  {
    if IsIdle(w.pc) && !IsIdle(workers[i].pc) {
      assert IdleSet(workers[i := w]) == IdleSet(workers) + {i};
    } else if !IsIdle(w.pc) && IsIdle(workers[i].pc) {
      assert IdleSet(workers[i := w]) == IdleSet(workers) - {i};
    } else {
      assert IdleSet(workers[i := w]) == IdleSet(workers);
    }
  }

  lemma NotifiedMove(workers: seq<Worker>, i: nat, w: Worker)
    requires i < |workers|
    ensures |NotifiedSet(workers[i := w])| == |NotifiedSet(workers)|
      + (if w.pc == Awake(true) then 1 else 0) - (if workers[i].pc == Awake(true) then 1 else 0)
  {
    if w.pc == Awake(true) && workers[i].pc != Awake(true) {
      assert NotifiedSet(workers[i := w]) == NotifiedSet(workers) + {i};
    } else if w.pc != Awake(true) && workers[i].pc == Awake(true) {
      assert NotifiedSet(workers[i := w]) == NotifiedSet(workers) - {i};
    } else {
      assert NotifiedSet(workers[i := w]) == NotifiedSet(workers);
    }
  }

  predicate OfWorker(l: Label) {
    l.Enter? || l.Spurious? || l.Check? || l.Finish? || l.Relock?
  }

  /** A step of a worker keeps the facts about any worker, and about any item. */
  lemma WorkerMoves(s: State, l: Label, j: nat)
    requires Step(s, l).Some? && OfWorker(l) && LockOk(s) && WorkerOk(s, l.i)
    requires j < |s.workers| && WorkerOk(s, j)
    ensures WorkerOk(Step(s, l).value, j)
  {
  }

  lemma WorkerItem(s: State, l: Label, x: nat)
    requires Step(s, l).Some? && OfWorker(l) && WorkerOk(s, l.i)
    requires x in s.h.status && ItemOk(s, x)
    ensures ItemOk(Step(s, l).value, x)
  {
  }

  lemma WorkerInv(s: State, l: Label)
    requires Inv(s) && Step(s, l).Some? && OfWorker(l)
    ensures Inv(Step(s, l).value)
  {
    var s' := Step(s, l).value;
    assert WorkerOk(s, l.i);
    IdleMove(s.workers, l.i, s'.workers[l.i]);
    NotifiedMove(s.workers, l.i, s'.workers[l.i]);
    forall j | 0 <= j < |s.workers| ensures WorkerOk(s', j) {
      assert WorkerOk(s, j);
      WorkerMoves(s, l, j);
    }
    forall x | x in s'.h.status ensures ItemOk(s', x) {
      assert ItemOk(s, x);
      WorkerItem(s, l, x);
    }
  }

  lemma PopList(items: seq<nat>, status: map<nat, Status>, i: nat)
    requires ListOk(items, status) && items != []
    ensures ListOk(items[1..], status[items[0] := Popped(i)])
  {
    assert items == [items[0]] + items[1..];
  }

  lemma PopInv(s: State, i: nat)
    requires Inv(s) && Step(s, Pop(i)).Some?
    ensures Inv(Step(s, Pop(i)).value)
  {
    var s' := Step(s, Pop(i)).value;
    assert WorkerOk(s, i);
    IdleMove(s.workers, i, s'.workers[i]);
    NotifiedMove(s.workers, i, s'.workers[i]);
    if s.q.items != [] {
      PopList(s.q.items, s.h.status, i);
      assert ItemOk(s, s.q.items[0]);
    }
    forall j | 0 <= j < |s.workers| ensures WorkerOk(s', j) { assert WorkerOk(s, j); }
    forall x | x in s'.h.status ensures ItemOk(s', x) { assert ItemOk(s, x); }
  }

  lemma SubmitInv(s: State, item: nat, target: nat)
    requires Inv(s) && Step(s, Submit(item, target)).Some?
    ensures Inv(Step(s, Submit(item, target)).value)
  {
    var s' := Step(s, Submit(item, target)).value;
    if i :| 0 <= i < |s.workers| && s.workers[i].pc == Sleeping {
      assert i in IdleSet(s.workers);
      IdleMove(s.workers, target, s'.workers[target]);
      NotifiedMove(s.workers, target, s'.workers[target]);
    }
    forall j | 0 <= j < |s.workers| ensures WorkerOk(s', j) { assert WorkerOk(s, j); }
    forall x | x in s'.h.status ensures ItemOk(s', x) { if x != item { assert ItemOk(s, x); } }
  }

  lemma WithoutList(items: seq<nat>, status: map<nat, Status>, item: nat, status': Status)
    requires ListOk(items, status) && item in status && status[item].Queued? && !status'.Queued?
    ensures ListOk(Without(items, item), status[item := status']) && |Without(items, item)| == |items| - 1
  {
    assert item in items;
    WithoutContents(items, item);
  }

  lemma CancelQueuedInv(s: State, item: nat)
    requires Inv(s) && Step(s, Cancel(item)).Some? && s.h.status[item].Queued?
    ensures Inv(Step(s, Cancel(item)).value)
  {
    var s' := Step(s, Cancel(item)).value;
    assert ItemOk(s, item);
    WithoutList(s.q.items, s.h.status, item, Done(false, None));
    forall j | 0 <= j < |s.workers| ensures WorkerOk(s', j) { assert WorkerOk(s, j); }
    forall x | x in s'.h.status ensures ItemOk(s', x) { assert ItemOk(s, x); }
  }

  lemma CancelAtWorker(s: State, item: nat, i: nat)
    requires Step(s, Cancel(item)).Some? && !s.h.status[item].Queued? && i < |s.workers| && WorkerOk(s, i)
    ensures |Step(s, Cancel(item)).value.workers| == |s.workers| && WorkerOk(Step(s, Cancel(item)).value, i)
  {
  }

  lemma CancelAtItem(s: State, item: nat, x: nat)
    requires Step(s, Cancel(item)).Some? && !s.h.status[item].Queued? && ItemOk(s, item)
    requires x in s.h.status && ItemOk(s, x)
    ensures Step(s, Cancel(item)).value.h.status == s.h.status && ItemOk(Step(s, Cancel(item)).value, x)
  {
  }

  /** A cancel that finds the item unlinked touches no item, and at most the flag of the worker
      that popped it; whether that worker still runs it does not matter. */
  lemma CancelAtInv(s: State, item: nat)
    requires Inv(s) && Step(s, Cancel(item)).Some? && !s.h.status[item].Queued?
    ensures Inv(Step(s, Cancel(item)).value)
  {
    var s', worker := Step(s, Cancel(item)).value, WorkerOf(s.h.status[item]);
    assert ItemOk(s, item);
    if worker.Some? && worker.value < |s.workers| {
      IdleMove(s.workers, worker.value, s'.workers[worker.value]);
      NotifiedMove(s.workers, worker.value, s'.workers[worker.value]);
    }
    forall j | 0 <= j < |s.workers| ensures WorkerOk(s', j) {
      assert WorkerOk(s, j);
      CancelAtWorker(s, item, j);
    }
    forall x | x in s'.h.status ensures ItemOk(s', x) {
      assert ItemOk(s, x);
      CancelAtItem(s, item, x);
    }
  }

  /** A drain completes item `x` once, with false, if it was listed, and else leaves it alone. */
  ghost predicate DrainedAt(h: History, h': History, items: seq<nat>, x: nat) {
    && (x in h'.status <==> x in h.status || x in items)
    && (x in h'.times <==> x in h.times || x in items)
    && (x in items ==> h'.status[x] == Done(false, None) && Times(h', x) == Times(h, x) + 1)
    && (x in h.status && x !in items ==> h'.status[x] == h.status[x])
    && (x !in items ==> Times(h', x) == Times(h, x))
  }

  lemma {:induction false} CompleteAllAt(h: History, items: seq<nat>, x: nat)
    requires Distinct(items)
    ensures CompleteAll(h, items).cancels == h.cancels && CompleteAll(h, items).astray == h.astray
    ensures DrainedAt(h, CompleteAll(h, items), items, x)
    decreases |items|
  {
    if items == [] {
    } else {
      assert items == [items[0]] + items[1..];
      CompleteAllAt(Complete(h, items[0], false, None), items[1..], x);
    }
  }

  /** Draining the queue completes each queued item once, with false, and nothing else. */
  lemma CompleteAllEffect(h: History, items: seq<nat>)
    requires Distinct(items)
    ensures var h' := CompleteAll(h, items);
      && h'.cancels == h.cancels && h'.astray == h.astray
      && (forall x :: x in h'.status <==> x in h.status || x in items)
      && (forall x :: x in h'.times <==> x in h.times || x in items)
      && (forall x :: x in items ==> h'.status[x] == Done(false, None) && Times(h', x) == Times(h, x) + 1)
      && (forall x :: x in h.status && x !in items ==> h'.status[x] == h.status[x])
      && (forall x :: x !in items ==> Times(h', x) == Times(h, x))
  {
    var h' := CompleteAll(h, items);
    CompleteAllAt(h, items, 0);
    forall x: nat
      ensures x in h'.status <==> x in h.status || x in items
      ensures x in h'.times <==> x in h.times || x in items
      ensures x in items ==> h'.status[x] == Done(false, None) && Times(h', x) == Times(h, x) + 1
      ensures x in h.status && x !in items ==> h'.status[x] == h.status[x]
      ensures x !in items ==> Times(h', x) == Times(h, x)
    {
      CompleteAllAt(h, items, x);
    }
  }

  lemma NotifyAllSets(workers: seq<Worker>)
    ensures IdleSet(NotifyAll(workers)) == IdleSet(workers)
    ensures !SomeoneSleeps(NotifyAll(workers))
  {
    forall i: nat ensures i in IdleSet(NotifyAll(workers)) <==> i in IdleSet(workers) {}
  }

  lemma DrainItems(s: State, s': State)
    requires Inv(s) && s'.h == CompleteAll(s.h, s.q.items) && s'.q.items == []
    requires |s'.workers| == |s.workers|
    requires forall i :: 0 <= i < |s.workers| && s.workers[i].pc.Running? ==> s'.workers[i].pc == s.workers[i].pc
    ensures ListOk(s'.q.items, s'.h.status)
    ensures forall x :: x in s'.h.status ==> ItemOk(s', x)
    ensures forall x :: x in s'.h.times || x in s'.h.astray ==> x in s'.h.status
    ensures s'.h.cancels == s.h.cancels
    ensures forall x :: x in s.h.status ==>
      x in s'.h.status && !s'.h.status[x].Queued? && (s'.h.status[x] == s.h.status[x] || s.h.status[x].Queued?)
  {
    CompleteAllEffect(s.h, s.q.items);
    forall x | x in s'.h.status ensures ItemOk(s', x) { assert ItemOk(s, x); }
  }

  lemma CancelAllInv(s: State, close: bool)
    requires Inv(s) && Step(s, CancelAll(close)).Some?
    ensures Inv(Step(s, CancelAll(close)).value)
  {
    var s' := Step(s, CancelAll(close)).value;
    DrainItems(s, s');
    NotifyAllSets(s.workers);
    forall j | 0 <= j < |s.workers| ensures WorkerOk(s', j) { assert WorkerOk(s, j); }
  }

  lemma DropInv(s: State)
    requires Inv(s) && Step(s, DropQueue).Some?
    ensures Inv(Step(s, DropQueue).value)
  {
    var s' := Step(s, DropQueue).value;
    DrainItems(s, s');
    forall j | 0 <= j < |s.workers| ensures WorkerOk(s', j) { assert WorkerOk(s, j); }
  }

  lemma StoreInv(s: State)
    requires Inv(s)
    ensures Inv(Step(s, StoreClosed).value)
  {
    var s' := Step(s, StoreClosed).value;
    forall j | 0 <= j < |s.workers| ensures WorkerOk(s', j) { assert WorkerOk(s, j); }
    forall x | x in s'.h.status ensures ItemOk(s', x) { assert ItemOk(s, x); }
  }

  lemma StepInv(s: State, l: Label)
    requires Inv(s) && Step(s, l).Some?
    ensures Inv(Step(s, l).value)
  {
    match l
    case Pop(i) => PopInv(s, i);
    case Submit(item, target) => SubmitInv(s, item, target);
    case Cancel(item) => if s.h.status[item].Queued? { CancelQueuedInv(s, item); } else { CancelAtInv(s, item); }
    case StoreClosed => StoreInv(s);
    case CancelAll(close) => CancelAllInv(s, close);
    case DropQueue => DropInv(s);
    case _ => WorkerInv(s, l);
  }

  // ----- what holds of every run

  ghost function Run(n: nat, labels: seq<Label>): (r: Option<State>) {
    Machine.Exec((s, l) => Step(s, l), Init(n), labels)
  }

  lemma RunsKeepInv(n: nat, labels: seq<Label>)
    requires Run(n, labels).Some?
    ensures Inv(Run(n, labels).value)
  {
    InitInv(n);
    forall s, l | Inv(s) && Step(s, l).Some? ensures Inv(Step(s, l).value) { StepInv(s, l); }
    Machine.RunsKeep((s, l) => Step(s, l), s => Inv(s), Init(n), labels);
  }

  /** With the lock free and the pool open, a sleeping worker means that every queued
      item has a notified worker on its way to the lock; and once every close has run
      through, no worker sleeps. */
  lemma NobodyOversleeps(n: nat, labels: seq<Label>)
    requires Run(n, labels).Some?
    ensures var s := Run(n, labels).value;
      && (s.q.lock == None && !s.q.closed && SomeoneSleeps(s.workers) ==> |s.q.items| <= |NotifiedSet(s.workers)|)
      && (s.q.closed && s.q.closing == 0 ==> !SomeoneSleeps(s.workers))
  {
    RunsKeepInv(n, labels);
    var s := Run(n, labels).value;
    if i :| 0 <= i < |s.workers| && s.workers[i].pc == Sleeping {
      assert WorkerOk(s, i);
    }
  }

  /** Every submitted item is queued, or in the hands of exactly the worker that popped
      it, or was completed, exactly once in all. */
  ghost predicate ItemSafe(s: State, x: nat)
    requires x in s.h.status
  {
    && Times(s.h, x) == (if s.h.status[x].Done? then 1 else 0)
    && (x in s.q.items <==> s.h.status[x].Queued?)
    && (s.h.status[x].Popped? ==> s.h.status[x].agent < |s.workers| && s.workers[s.h.status[x].agent].pc == Running(x))
    && (forall i :: 0 <= i < |s.workers| && s.workers[i].pc == Running(x) ==> s.h.status[x] == Popped(i))
  }

  /** A worker's cancelled flag is up only if the item it runs was cancelled. */
  ghost predicate FlagSafe(w: Worker, cancels: set<nat>) {
    w.pc.Running? && w.cancelled ==> w.pc.item in cancels
  }

  lemma CompletedOnce(n: nat, labels: seq<Label>)
    requires Run(n, labels).Some?
    ensures var s := Run(n, labels).value;
      && (forall x :: x in s.h.status ==> ItemSafe(s, x))
      && (forall i :: 0 <= i < |s.workers| ==> FlagSafe(s.workers[i], s.h.cancels))
  {
    RunsKeepInv(n, labels);
    var s := Run(n, labels).value;
    forall i | 0 <= i < |s.workers| ensures FlagSafe(s.workers[i], s.h.cancels) { assert WorkerOk(s, i); }
    forall x | x in s.h.status ensures ItemSafe(s, x) {
      assert ItemOk(s, x);
      forall i | 0 <= i < |s.workers| && s.workers[i].pc == Running(x)
        ensures s.h.status[x] == Popped(i)
      {
        assert WorkerOk(s, i);
      }
    }
  }

  /** When the queue is dropped after the workers, nothing is left uncompleted. */
  lemma DropCompletesAll(s: State)
    requires Inv(s) && Step(s, DropQueue).Some?
    ensures var h' := Step(s, DropQueue).value.h;
      forall x :: x in s.h.status ==> x in h'.status && h'.status[x].Done? && Times(h', x) == 1
  {
    DropInv(s);
    CompleteAllEffect(s.h, s.q.items);
    forall x | x in s.h.status
      ensures var h' := CompleteAll(s.h, s.q.items); x in h'.status && h'.status[x].Done? && Times(h', x) == 1
    {
      assert ItemOk(s, x);
    }
  }

  /** The answer is true exactly from the worker that ran the item; every other way out
      of the pool answers false. */
  lemma AnswerMeansRun(s: State, l: Label, x: nat)
    requires Inv(s) && Step(s, l).Some? && x in s.h.status && !s.h.status[x].Done?
    requires x in Step(s, l).value.h.status && Step(s, l).value.h.status[x].Done?
    ensures Step(s, l).value.h.status[x].ok <==> l.Finish? && s.workers[l.i].pc == Running(x)
    ensures !Step(s, l).value.h.status[x].ok ==> x in s.q.items && (l == Cancel(x) || l.CancelAll? || l.DropQueue?)
  {
    if l.CancelAll? || l.DropQueue? {
      AnswerOfAll(s, l, x);
    } else {
      AnswerOfOne(s, l, x);
    }
  }

  lemma AnswerOfAll(s: State, l: Label, x: nat)
    requires Distinct(s.q.items) && Step(s, l).Some? && (l.CancelAll? || l.DropQueue?)
    requires x in s.h.status && !s.h.status[x].Done?
    requires x in Step(s, l).value.h.status && Step(s, l).value.h.status[x].Done?
    ensures !Step(s, l).value.h.status[x].ok && x in s.q.items
  {
    CompleteAllAt(s.h, s.q.items, x);
  }

  lemma AnswerOfOne(s: State, l: Label, x: nat)
    requires ListOk(s.q.items, s.h.status) && Step(s, l).Some? && !l.CancelAll? && !l.DropQueue?
    requires x in s.h.status && !s.h.status[x].Done?
    requires x in Step(s, l).value.h.status && Step(s, l).value.h.status[x].Done?
    ensures Step(s, l).value.h.status[x].ok <==> l.Finish? && s.workers[l.i].pc == Running(x)
    ensures !Step(s, l).value.h.status[x].ok ==> x in s.q.items && l == Cancel(x)
  {
  }

  lemma CancelQueued(s: State, x: nat)
    requires ListOk(s.q.items, s.h.status) && x !in s.h.cancels && s.q.lock == None
    requires x in s.h.status && s.h.status[x].Queued?
    ensures Step(s, Cancel(x)).Some?
    ensures var s' := Step(s, Cancel(x)).value;
      x !in s'.q.items && s'.h.status == s.h.status[x := Done(false, None)] && s'.workers == s.workers
  {
    assert x in s.q.items;
    WithoutContents(s.q.items, x);
  }

  /** Only the worker that popped an item can have it as its current one. */
  lemma CurrentOfOne(s: State, x: nat)
    requires Inv(s) && x in s.h.status
    ensures forall i :: 0 <= i < |s.workers| && s.workers[i].cur == Some(x) ==> WorkerOf(s.h.status[x]) == Some(i)
    ensures forall i :: 0 <= i < |s.workers| && s.workers[i].pc == Running(x) ==>
      s.workers[i].cur == Some(x) && s.h.status[x] == Popped(i)
    ensures s.h.status[x].Popped? ==> exists i :: 0 <= i < |s.workers| && s.workers[i].pc == Running(x)
  {
    assert ItemOk(s, x);
    forall i | 0 <= i < |s.workers|
      ensures s.workers[i].cur == Some(x) ==> WorkerOf(s.h.status[x]) == Some(i)
      ensures s.workers[i].pc == Running(x) ==> s.workers[i].cur == Some(x) && s.h.status[x] == Popped(i)
    {
      assert WorkerOk(s, i);
    }
  }

  /** A cancel completes a queued item at once, and completes no other.  Otherwise it raises
      the flag of the one worker that has the item as its current work, if there is one: it
      runs the item, or has completed it and not yet taken the lock again. */
  lemma CancelReaches(s: State, x: nat)
    requires Inv(s) && x !in s.h.cancels && s.q.lock == None && x in s.h.status
    ensures Step(s, Cancel(x)).Some?
    ensures var s' := Step(s, Cancel(x)).value;
      if s.h.status[x].Queued?
      then x !in s'.q.items && s'.h.status == s.h.status[x := Done(false, None)] && s'.workers == s.workers
      else
        && s'.q == s.q && s'.h.status == s.h.status && s'.h.times == s.h.times && |s'.workers| == |s.workers|
        && forall i :: 0 <= i < |s.workers| ==>
             s'.workers[i] == if s.workers[i].cur == Some(x) then s.workers[i].(cancelled := true) else s.workers[i]
    ensures s.h.status[x].Popped? ==> exists i ::
      0 <= i < |s.workers| && s.workers[i].pc == Running(x) && Step(s, Cancel(x)).value.workers[i].cancelled
  {
    CurrentOfOne(s, x);
    if s.h.status[x].Queued? {
      CancelQueued(s, x);
    }
  }

  /** The worker that `cancel_direct` looks at exists, except when the item was completed by
      `cancel_all` (or the queue's drop) and so never popped. */
  lemma CancelGoesAstray(s: State, x: nat)
    requires Inv(s) && Step(s, Cancel(x)).Some?
    ensures x in Step(s, Cancel(x)).value.h.astray <==> s.h.status[x].Done? && !s.h.status[x].ok
  {
    assert ItemOk(s, x);
  }

  /** And that happens: `cancel_all` takes the lock before the cancel. */
  lemma CancelDoesGoAstray()
    ensures exists s :: Machine.Reaches((x, l) => Step(x, l), Init(1), s) && s.h.astray == {0}
  {
    var step := (x: State, l: Label) => Step(x, l);
    var a, b, c := Submit(0, 0), CancelAll(false), Cancel(0);
    var s1 := Step(Init(1), a).value;
    assert [] + [0] == [0] && s1.q.items == [0];
    var s2 := Step(s1, b).value;
    assert CompleteAll(s1.h, [0]) == Complete(s1.h, 0, false, None);
    assert s2.h.status[0] == Done(false, None);
    Machine.ExecThree(step, Init(1), a, b, c);
    var s := Step(s2, c).value;
    assert Machine.Exec(step, Init(1), [a, b, c]) == Some(s);
    assert s.h.astray == {0};
  }
}
