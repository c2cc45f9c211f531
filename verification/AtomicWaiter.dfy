/** The single-waiter cell of `wait_list.rs`: one atomic word that holds nothing, a
    request, or the closed marker.  Any number of threads suspend, wake, close and
    cancel; a label is one atomic operation. */
module AtomicWaiter {
  import opened Wrappers
  import Machine

  datatype Word = Null | Held(r: nat) | Shut

  datatype Outcome = Woken | Cancelled

  datatype Answer = Pending | Refused(closed: bool)

  datatype Op = Suspend(r: nat) | Wake | Close | Cancel(r: nat)

  datatype Pc =
    | Idle
    | Storing(r: nat)                                   // suspend: before the swap
    | Checking(r: nat, prev: Word)                      // before `should_block`
    | Returning(r: nat, prev: Word, withdrawn: bool)    // completes the waiter it replaced, returns
    | Taking(close: bool)                               // wake or close: before the swap
    | Withdrawing(r: nat)                               // cancel: before the exchange
    | Completing(r: nat, outcome: Outcome)

  /** Where a request is: with its own suspend, in the word, with the thread that took it
      out, completed, or never to be completed. */
  datatype Status = New | Stored | Taken(agent: nat) | Completed | Dropped

  /** History: where each request is, which thread runs its suspend, what that returned,
      how often and how it was completed, and which requests were cancelled. */
  datatype History = History(
    status: map<nat, Status>,
    runner: map<nat, nat>,
    answer: map<nat, Answer>,
    times: map<nat, nat>,
    cancels: set<nat>)

  datatype State = State(word: Word, threads: seq<Pc>, h: History)

  datatype Label = Begin(t: nat, op: Op) | Go(t: nat, blocks: bool)

  function Init(threads: nat): (r: State) {
    State(Null, seq(threads, _ => Idle), History(map[], map[], map[], map[], {}))
  }

  function Times(h: History, r: nat): (result: nat) {
    if r in h.times then h.times[r] else 0
  }

  function SetStatus(h: History, r: nat, status: Status): (result: History) {
    h.(status := h.status[r := status])
  }

  function Complete(h: History, r: nat): (result: History) {
    h.(status := h.status[r := Completed], times := h.times[r := Times(h, r) + 1])
  }

  /** Thread `t` swaps `word` for what it finds; a request found becomes its duty. */
  function TakenBy(h: History, word: Word, t: nat): (r: History) {
    if word.Held? then SetStatus(h, word.r, Taken(t)) else h
  }

  function Start(s: State, t: nat, op: Op): (r: Option<State>)
    requires t < |s.threads|
  {
    match op
    case Suspend(r) =>
      if r in s.h.status then None
      else Some(s.(threads := s.threads[t := Storing(r)],
        h := s.h.(status := s.h.status[r := New], runner := s.h.runner[r := t])))
    case Wake => Some(s.(threads := s.threads[t := Taking(false)]))
    case Close => Some(s.(threads := s.threads[t := Taking(true)]))
    case Cancel(r) =>
      if r in s.h.answer && s.h.answer[r] == Pending && r !in s.h.cancels
      then Some(s.(threads := s.threads[t := Withdrawing(r)], h := s.h.(cancels := s.h.cancels + {r})))
      else None
  }

  function SuspendStep(s: State, t: nat, blocks: bool): (r: Option<State>)
    requires t < |s.threads|
  {
    match s.threads[t]
    case Storing(r) =>
      if s.word == Shut then Some(s.(threads := s.threads[t := Checking(r, Shut)], h := SetStatus(s.h, r, Dropped)))
      else Some(s.(word := Held(r), threads := s.threads[t := Checking(r, s.word)],
        h := SetStatus(TakenBy(s.h, s.word, t), r, Stored)))
    case Checking(r, prev) =>
      if !blocks && s.word == Held(r) then
        Some(s.(word := Null, threads := s.threads[t := Returning(r, prev, true)], h := SetStatus(s.h, r, Dropped)))
      else
        Some(s.(threads := s.threads[t := Returning(r, prev, false)]))
    case Returning(r, prev, withdrawn) =>
      var answer := if prev == Shut then Refused(true) else if withdrawn then Refused(false) else Pending;
      var h := if prev.Held? then Complete(s.h, prev.r) else s.h;
      Some(s.(threads := s.threads[t := Idle], h := h.(answer := h.answer[r := answer])))
    case _ => None
  }

  function WakeStep(s: State, t: nat): (r: Option<State>)
    requires t < |s.threads|
  {
    match s.threads[t]
    case Taking(close) =>
      if s.word == Shut then Some(s.(threads := s.threads[t := Idle]))
      else Some(s.(word := if close then Shut else Null,
                   threads := s.threads[t := if s.word.Held? then Completing(s.word.r, Woken) else Idle],
                   h := TakenBy(s.h, s.word, t)))
    case Withdrawing(r) =>
      if s.word == Held(r) then
        Some(s.(word := Null, threads := s.threads[t := Completing(r, Cancelled)], h := TakenBy(s.h, s.word, t)))
      else Some(s.(threads := s.threads[t := Idle]))
    case Completing(r, _) =>
      Some(s.(threads := s.threads[t := Idle], h := Complete(s.h, r)))
    case _ => None
  }

  function Step(s: State, l: Label): (r: Option<State>) {
    if l.t >= |s.threads| then None
    else if l.Begin? then if s.threads[l.t] == Idle then Start(s, l.t, l.op) else None
    else if InSuspend(s.threads[l.t]) then SuspendStep(s, l.t, l.blocks)
    else WakeStep(s, l.t)
  }

  predicate InSuspend(pc: Pc) {
    pc.Storing? || pc.Checking? || pc.Returning?
  }

  // ----- the invariant

  /** The request that thread has taken out and must complete. */
  function Duty(pc: Pc): (r: Word) {
    match pc
    case Checking(_, prev) => prev
    case Returning(_, prev, _) => prev
    case Completing(r, _) => Held(r)
    case _ => Null
  }

  predicate Alive(status: Status) {
    status.Stored? || status.Taken? || status.Completed?
  }

  ghost predicate ThreadOk(s: State, t: nat)
    requires t < |s.threads|
  {
    var pc := s.threads[t];
    && (InSuspend(pc) ==> pc.r in s.h.status && pc.r in s.h.runner && s.h.runner[pc.r] == t && pc.r !in s.h.answer)
    && (Duty(pc).Held? ==> Duty(pc).r in s.h.status && s.h.status[Duty(pc).r] == Taken(t))
    && match pc
       case Storing(r) => s.h.status[r] == New
       case Checking(r, prev) =>
         if prev == Shut then s.word == Shut && s.h.status[r] == Dropped else Alive(s.h.status[r])
       case Returning(r, prev, withdrawn) =>
         && (prev == Shut ==> s.word == Shut)
         && if prev == Shut || withdrawn then s.h.status[r] == Dropped else Alive(s.h.status[r])
       case _ => true
  }

  ghost predicate RequestOk(s: State, r: nat)
    requires r in s.h.status
  {
    && (s.h.status[r].Stored? <==> s.word == Held(r))
    && (s.h.status[r].Taken? ==> s.h.status[r].agent < |s.threads| && Duty(s.threads[s.h.status[r].agent]) == Held(r))
    && Times(s.h, r) == (if s.h.status[r].Completed? then 1 else 0)
    && (r in s.h.answer ==> if s.h.answer[r].Pending? then Alive(s.h.status[r]) else s.h.status[r] == Dropped)
    && (r in s.h.answer && s.h.answer[r] == Refused(true) ==> s.word == Shut)
    && (r !in s.h.answer ==>
          r in s.h.runner && s.h.runner[r] < |s.threads| && InSuspend(s.threads[s.h.runner[r]])
            && s.threads[s.h.runner[r]].r == r)
    && (s.h.status[r] == New ==> r !in s.h.answer && s.threads[s.h.runner[r]].Storing?)
  }

  ghost predicate WordOk(s: State) {
    s.word.Held? ==> s.word.r in s.h.status && s.h.status[s.word.r].Stored?
  }

  ghost predicate Inv(s: State) {
    && WordOk(s)
    && (forall t :: 0 <= t < |s.threads| ==> ThreadOk(s, t))
    && (forall r :: r in s.h.status ==> RequestOk(s, r))
    && (forall r :: r in s.h.times || r in s.h.answer || r in s.h.runner ==> r in s.h.status)
  }

  lemma InitInv(threads: nat)
    ensures Inv(Init(threads))
  {
  }

  lemma StartInv(s: State, t: nat, op: Op)
    requires Inv(s) && t < |s.threads| && s.threads[t] == Idle && Start(s, t, op).Some?
    ensures Inv(Start(s, t, op).value)
  {
    var s' := Start(s, t, op).value;
    forall u | 0 <= u < |s.threads| ensures ThreadOk(s', u) { assert ThreadOk(s, u); }
    forall r | r in s'.h.status ensures RequestOk(s', r) { if r in s.h.status { assert RequestOk(s, r); } }
  }

  /** The facts about thread `t` and the request in its hands. */
  ghost predicate Own(s: State, t: nat)
    requires t < |s.threads|
  {
    && WordOk(s) && ThreadOk(s, t)
    && (InSuspend(s.threads[t]) ==> s.threads[t].r in s.h.status && RequestOk(s, s.threads[t].r))
  }

  lemma SuspendThreads(s: State, t: nat, blocks: bool, u: nat)
    requires t < |s.threads| && InSuspend(s.threads[t]) && Own(s, t)
    requires u < |s.threads| && ThreadOk(s, u)
    ensures ThreadOk(SuspendStep(s, t, blocks).value, u)
  {
  }

  lemma StoringRequests(s: State, t: nat, blocks: bool, r: nat)
    requires t < |s.threads| && s.threads[t].Storing? && Own(s, t)
    requires r in s.h.status && RequestOk(s, r)
    ensures RequestOk(SuspendStep(s, t, blocks).value, r)
  {
  }

  lemma CheckingRequests(s: State, t: nat, blocks: bool, r: nat)
    requires t < |s.threads| && s.threads[t].Checking? && Own(s, t)
    requires r in s.h.status && RequestOk(s, r)
    ensures RequestOk(SuspendStep(s, t, blocks).value, r)
  {
  }

  lemma ReturningRequests(s: State, t: nat, blocks: bool, r: nat)
    requires t < |s.threads| && s.threads[t].Returning? && Own(s, t)
    requires r in s.h.status && RequestOk(s, r)
    ensures RequestOk(SuspendStep(s, t, blocks).value, r)
  {
  }

  lemma SuspendInv(s: State, t: nat, blocks: bool)
    requires Inv(s) && t < |s.threads| && InSuspend(s.threads[t])
    ensures Inv(SuspendStep(s, t, blocks).value)
  {
    var s' := SuspendStep(s, t, blocks).value;
    assert ThreadOk(s, t) && RequestOk(s, s.threads[t].r);
    forall u | 0 <= u < |s.threads| ensures ThreadOk(s', u) {
      assert ThreadOk(s, u);
      SuspendThreads(s, t, blocks, u);
    }
    forall r | r in s.h.status ensures RequestOk(s', r) {
      assert RequestOk(s, r);
      match s.threads[t]
      case Storing(_) => StoringRequests(s, t, blocks, r);
      case Checking(_, _) => CheckingRequests(s, t, blocks, r);
      case Returning(_, _, _) => ReturningRequests(s, t, blocks, r);
    }
  }

  lemma WakeThreads(s: State, t: nat, u: nat)
    requires t < |s.threads| && WakeStep(s, t).Some? && Own(s, t)
    requires u < |s.threads| && ThreadOk(s, u)
    ensures ThreadOk(WakeStep(s, t).value, u)
  {
  }

  lemma WakeRequests(s: State, t: nat, r: nat)
    requires t < |s.threads| && WakeStep(s, t).Some? && Own(s, t)
    requires r in s.h.status && RequestOk(s, r)
    ensures RequestOk(WakeStep(s, t).value, r)
  {
    match s.threads[t]
    case Taking(_) =>
    case Withdrawing(_) =>
    case Completing(_, _) =>
  }

  lemma WakeInv(s: State, t: nat)
    requires Inv(s) && t < |s.threads| && WakeStep(s, t).Some?
    ensures Inv(WakeStep(s, t).value)
  {
    var s' := WakeStep(s, t).value;
    assert ThreadOk(s, t);
    forall u | 0 <= u < |s.threads| ensures ThreadOk(s', u) {
      assert ThreadOk(s, u);
      WakeThreads(s, t, u);
    }
    forall r | r in s.h.status ensures RequestOk(s', r) {
      assert RequestOk(s, r);
      WakeRequests(s, t, r);
    }
  }

  lemma StepInv(s: State, l: Label)
    requires Inv(s) && Step(s, l).Some?
    ensures Inv(Step(s, l).value)
  {
    if l.Begin? {
      StartInv(s, l.t, l.op);
    } else if InSuspend(s.threads[l.t]) {
      SuspendInv(s, l.t, l.blocks);
    } else {
      WakeInv(s, l.t);
    }
  }

  // ----- what holds of every run

  ghost function Run(threads: nat, labels: seq<Label>): (r: Option<State>) {
    Machine.Exec((s, l) => Step(s, l), Init(threads), labels)
  }

  /** A request is completed at most once, never if its suspend returned Done; a pending
      one that is no longer stored is completed, or exactly one thread is about to. */
  ghost predicate Safe(s: State) {
    forall r :: r in s.h.status ==>
      && Times(s.h, r) <= 1
      && (r in s.h.answer && s.h.answer[r].Refused? ==> Times(s.h, r) == 0 && s.word != Held(r) && NobodysDuty(s, r))
      && (r in s.h.answer && s.h.answer[r].Pending? && s.word != Held(r) && Times(s.h, r) == 0 ==>
            exists t :: 0 <= t < |s.threads| && OnlyDuty(s, t, r))
  }

  ghost predicate NobodysDuty(s: State, r: nat) {
    forall t :: 0 <= t < |s.threads| ==> Duty(s.threads[t]) != Held(r)
  }

  ghost predicate OnlyDuty(s: State, t: nat, r: nat)
    requires t < |s.threads|
  {
    Duty(s.threads[t]) == Held(r) && forall u :: 0 <= u < |s.threads| && u != t ==> Duty(s.threads[u]) != Held(r)
  }

  lemma InvIsSafe(s: State)
    requires Inv(s)
    ensures Safe(s)
  {
    forall r | r in s.h.status
      ensures RequestOk(s, r)
      ensures forall t :: 0 <= t < |s.threads| && Duty(s.threads[t]) == Held(r) ==> s.h.status[r] == Taken(t)
      ensures s.h.status[r].Taken? ==> OnlyDuty(s, s.h.status[r].agent, r)
    {
      assert RequestOk(s, r);
      forall t | 0 <= t < |s.threads| && Duty(s.threads[t]) == Held(r)
        ensures s.h.status[r] == Taken(t)
      {
        assert ThreadOk(s, t);
      }
    }
  }

  lemma RunsAreSafe(threads: nat, labels: seq<Label>)
    requires Run(threads, labels).Some?
    ensures Inv(Run(threads, labels).value) && Safe(Run(threads, labels).value)
  {
    InitInv(threads);
    forall s, l | Inv(s) && Step(s, l).Some? ensures Inv(Step(s, l).value) { StepInv(s, l); }
    Machine.RunsKeep((s, l) => Step(s, l), s => Inv(s), Init(threads), labels);
    InvIsSafe(Run(threads, labels).value);
  }

  /** Once closed, closed for good: nothing is stored any more. */
  lemma {:induction false} ClosedForGood(s: State, labels: seq<Label>)
    requires s.word == Shut && Machine.Exec((x, l) => Step(x, l), s, labels).Some?
    ensures Machine.Exec((x, l) => Step(x, l), s, labels).value.word == Shut
    decreases |labels|
  {
    if labels == [] {
    } else {
      ClosedForGood(Step(s, labels[0]).value, labels[1..]);
    }
  }

  /** A close that goes through leaves the closed marker, and whoever was stored is
      handed to the closer. */
  lemma CloseTakesTheWaiter(s: State, t: nat)
    requires Inv(s) && t < |s.threads| && s.threads[t] == Taking(true)
    ensures var s' := Step(s, Go(t, false)).value;
      && s'.word == Shut
      && (s.word.Held? ==> OnlyDuty(s', t, s.word.r))
  {
    var s' := Step(s, Go(t, false)).value;
    StepInv(s, Go(t, false));
    forall u | 0 <= u < |s'.threads| && u != t && s.word.Held?
      ensures Duty(s'.threads[u]) != s.word
    {
      assert ThreadOk(s', u);
    }
  }
}
