/** The asynchronous mutex of `mutex.rs`: a three-valued word and a wait list.

    Tasks `0 .. |tasks|` act on the wait list as threads of the same number; threads
    beyond that only cancel sleeping waiters.  Spinning is a load that may be repeated
    any number of times. */
module Mutex {
  import opened Wrappers
  import Machine
  import WL = WaitList

  datatype Word = Unlocked | Locked | Contended

  datatype Task =
    | Outside
    | Contending(woken: bool)   // at the top of the contended loop, perhaps after being woken
    | Swapping(woken: bool)     // will swap in Contended
    | Denied                    // found the lock taken
    | Parking(w: nat)           // inside `suspend`
    | Asleep(w: nat)            // suspend returned Pending
    | Holding
    | Unlocking                 // swapped out Contended, inside `wake_one`

  /** `who` is history: the task each waiter belongs to. */
  datatype State = State(word: Word, tasks: seq<Task>, wl: WL.State, who: map<nat, nat>)

  datatype Label =
    | Lock(t: nat, once: bool)          // `lock`, or `try_lock` if `once`
    | Look(t: nat, giveUp: bool)        // the load in try_spin_lock
    | Swap(t: nat)
    | Interrupted(t: nat, quit: bool)   // in the loop, or by the check inside `wait`
    | Wait(t: nat, w: nat)
    | Park(t: nat)                      // a step of suspend
    | Resume(t: nat)
    | Unlock(t: nat)
    | Wake(t: nat)                      // a step of wake_one
    | Other(l: WL.Label)                // a cancel by some other thread

  function Init(tasks: nat, others: nat): (r: State) {
    State(Unlocked, seq(tasks, _ => Outside), WL.Init(tasks + others), map[])
  }

  function SetTask(s: State, t: nat, task: Task): (r: State)
    requires t < |s.tasks|
  {
    s.(tasks := s.tasks[t := task])
  }

  function Step(s: State, l: Label): (r: Option<State>) {
    match l {
      case Lock(t, once) =>
        if t >= |s.tasks| || s.tasks[t] != Outside then None
        else if s.word.Unlocked? then Some(SetTask(s, t, Holding).(word := Locked))
        else Some(SetTask(s, t, if once then Outside else Contending(false)))
      case Look(t, giveUp) =>
        if t >= |s.tasks| || !s.tasks[t].Contending? then None
        else if s.word.Contended? then Some(SetTask(s, t, Denied))
        else if s.word.Locked? && !giveUp then Some(s)
        else Some(SetTask(s, t, Swapping(s.tasks[t].woken)))
      case Swap(t) =>
        if t >= |s.tasks| || !s.tasks[t].Swapping? then None
        else Some(SetTask(s, t, if s.word.Unlocked? then Holding else Denied).(word := Contended))
      case Interrupted(t, quit) =>
        if t >= |s.tasks| || s.tasks[t] != Denied then None
        else Some(SetTask(s, t, if quit then Outside else Contending(false)))
      case Wait(t, w) =>
        if t >= |s.tasks| || s.tasks[t] != Denied then None
        else WaitStep(s, t, w, WL.Step(s.wl, WL.Begin(t, WL.Suspend(w))))
      case Park(t) =>
        if t >= |s.tasks| || !s.tasks[t].Parking? then None
        else ParkStep(s, t, WL.Step(s.wl, WL.Go(t, s.word.Contended?)))
      case Resume(t) =>
        if t >= |s.tasks| || !s.tasks[t].Asleep? || WL.Times(s.wl.h, s.tasks[t].w) == 0 then None
        else Some(SetTask(s, t, Contending(WokenUp(s.wl, s.tasks[t].w))))
      case Unlock(t) =>
        if t >= |s.tasks| || s.tasks[t] != Holding then None
        else if !s.word.Contended? then Some(SetTask(s, t, Outside).(word := Unlocked))
        else UnlockStep(s, t, WL.Step(s.wl, WL.Begin(t, WL.WakeOne)))
      case Wake(t) =>
        if t >= |s.tasks| || s.tasks[t] != Unlocking then None
        else WakeStep(s, t, WL.Step(s.wl, WL.Go(t, false)))
      case Other(wl) =>
        if wl.t < |s.tasks| || (wl.Begin? && !wl.op.Cancel?) then None
        else OtherStep(s, WL.Step(s.wl, wl))
    }
  }

  function WaitStep(s: State, t: nat, w: nat, wl: Option<WL.State>): (r: Option<State>)
    requires t < |s.tasks|
  {
    if wl.None? then None
    else Some(SetTask(s, t, Parking(w)).(wl := wl.value, who := s.who[w := t]))
  }

  function ParkStep(s: State, t: nat, wl: Option<WL.State>): (r: Option<State>)
    requires t < |s.tasks| && s.tasks[t].Parking?
  {
    if wl.None? then None
    else
      var w := s.tasks[t].w;
      if t < |wl.value.threads| && wl.value.threads[t] == WL.Idle then
        if w in wl.value.h.status && WL.Pending(wl.value.h.status[w])
        then Some(SetTask(s, t, Asleep(w)).(wl := wl.value))
        else Some(SetTask(s, t, Contending(false)).(wl := wl.value))
      else Some(s.(wl := wl.value))
  }

  function UnlockStep(s: State, t: nat, wl: Option<WL.State>): (r: Option<State>)
    requires t < |s.tasks|
  {
    if wl.None? then None
    else Some(SetTask(s, t, Unlocking).(word := Unlocked, wl := wl.value))
  }

  function WakeStep(s: State, t: nat, wl: Option<WL.State>): (r: Option<State>)
    requires t < |s.tasks|
  {
    if wl.None? then None
    else if t < |wl.value.threads| && wl.value.threads[t] == WL.Idle then Some(SetTask(s, t, Outside).(wl := wl.value))
    else Some(s.(wl := wl.value))
  }

  function OtherStep(s: State, wl: Option<WL.State>): (r: Option<State>) {
    if wl.None? then None else Some(s.(wl := wl.value))
  }

  /** Completed by a wake rather than a cancellation. */
  predicate WokenUp(wl: WL.State, w: nat) {
    w in wl.h.outcome && wl.h.outcome[w].Woken?
  }

  // ----- the invariant

  /** What a task's place says about its place in the wait list. */
  ghost predicate TaskOk(s: State, t: nat)
    requires t < |s.tasks| <= |s.wl.threads|
  {
    var pc := s.wl.threads[t];
    match s.tasks[t]
    case Parking(w) => pc.Suspends? && pc.w == w && w in s.who && s.who[w] == t
    case Unlocking => pc.Looking? || pc.Popping? || (pc.Completing? && pc.outcome.Woken? && !pc.holding)
    case Asleep(w) => pc == WL.Idle && w in s.wl.h.status && WL.Pending(s.wl.h.status[w]) && w in s.who && s.who[w] == t
    case _ => pc == WL.Idle
  }

  ghost predicate OtherOk(pc: WL.Pc) {
    pc == WL.Idle || pc.Unlinking? || (pc.Completing? && pc.outcome.Cancelled? && !pc.holding)
  }

  /** A waiter that is linked, or unlinked but not yet completed, is some task's. */
  ghost predicate SleeperOk(s: State, w: nat)
    requires w in s.wl.h.status
  {
    w in s.who && s.who[w] < |s.tasks|
    && (s.wl.h.status[w].Suspending? ==> s.tasks[s.who[w]] == Parking(w))
    && (WL.Pending(s.wl.h.status[w]) && WL.Times(s.wl.h, w) == 0 ==> s.tasks[s.who[w]] == Asleep(w))
  }

  ghost predicate OneHolder(s: State) {
    && (forall t, u :: 0 <= t < u < |s.tasks| && s.tasks[t] == Holding ==> s.tasks[u] != Holding)
    && (s.word.Unlocked? <==> forall t :: 0 <= t < |s.tasks| ==> s.tasks[t] != Holding)
  }

  /** Task `t` will wake a waiter, or was woken and will set the word. */
  ghost predicate Covers(s: State, t: nat)
    requires t < |s.tasks|
  {
    || s.tasks[t] == Unlocking
    || (s.tasks[t].Asleep? && WL.Times(s.wl.h, s.tasks[t].w) == 1 && WokenUp(s.wl, s.tasks[t].w))
    || s.tasks[t] == Contending(true)
    || s.tasks[t] == Swapping(true)
  }

  ghost predicate Covered(s: State) {
    WL.Sleepers(s.wl) ==> s.word.Contended? || exists t :: 0 <= t < |s.tasks| && Covers(s, t)
  }

  ghost predicate Links(s: State) {
    && |s.tasks| <= |s.wl.threads|
    && (forall t :: 0 <= t < |s.tasks| ==> TaskOk(s, t))
    && (forall t :: |s.tasks| <= t < |s.wl.threads| ==> OtherOk(s.wl.threads[t]))
    && (forall w :: w in s.wl.h.status ==> SleeperOk(s, w))
  }

  ghost predicate Inv(s: State) {
    WL.Inv(s.wl) && Links(s) && OneHolder(s) && Covered(s)
  }

  lemma InitInv(tasks: nat, others: nat)
    ensures Inv(Init(tasks, others))
  {
    WL.InitInv(tasks + others);
  }

  // ----- steps on the word alone

  lemma CoveredFrame(s: State, s': State, t: nat)
    requires Covered(s) && s'.wl == s.wl && |s'.tasks| == |s.tasks| && t < |s.tasks|
    requires forall u :: 0 <= u < |s.tasks| && u != t ==> s'.tasks[u] == s.tasks[u]
    requires s'.word.Contended? || Covers(s', t) || (!Covers(s, t) && (s.word.Contended? ==> Covers(s', t)))
    ensures Covered(s')
  {
    if WL.Sleepers(s.wl) && !s'.word.Contended? {
      if Covers(s', t) {
      } else {
        var u :| 0 <= u < |s.tasks| && Covers(s, u);
        assert Covers(s', u);
      }
    }
  }

  /** A task that takes the lock finds it unlocked, and one that gives it up unlocks it. */
  lemma HolderStays(s: State, s': State, t: nat)
    requires OneHolder(s) && |s'.tasks| == |s.tasks| && t < |s.tasks|
    requires forall u :: 0 <= u < |s.tasks| && u != t ==> s'.tasks[u] == s.tasks[u]
    requires if s'.tasks[t] == Holding then s.word.Unlocked? && !s'.word.Unlocked?
             else if s.tasks[t] == Holding then s'.word.Unlocked?
             else s'.word.Unlocked? <==> s.word.Unlocked?
    ensures OneHolder(s')
  {
    if u :| 0 <= u < |s.tasks| && s.tasks[u] == Holding {
      assert u != t ==> s'.tasks[u] == Holding;
    }
  }

  predicate OnWord(l: Label) {
    l.Lock? || l.Look? || l.Swap? || l.Interrupted?
  }

  lemma WordInv(s: State, l: Label)
    requires Inv(s) && Step(s, l).Some? && OnWord(l)
    ensures Inv(Step(s, l).value)
  {
    var s' := Step(s, l).value;
    assert TaskOk(s, l.t);
    CoveredFrame(s, s', l.t);
    HolderStays(s, s', l.t);
    forall u | 0 <= u < |s.tasks| ensures TaskOk(s', u) { assert TaskOk(s, u); }
    forall w | w in s'.wl.h.status ensures SleeperOk(s', w) { assert SleeperOk(s, w); }
  }

  lemma ResumeInv(s: State, t: nat)
    requires Inv(s) && Step(s, Resume(t)).Some?
    ensures Inv(Step(s, Resume(t)).value)
  {
    var s' := Step(s, Resume(t)).value;
    assert TaskOk(s, t) && WL.WaiterOk(s.wl, s.tasks[t].w);
    CoveredFrame(s, s', t);
    forall u | 0 <= u < |s.tasks| ensures TaskOk(s', u) { assert TaskOk(s, u); }
    forall w | w in s'.wl.h.status ensures SleeperOk(s', w) { assert SleeperOk(s, w); }
  }

  // ----- steps in the wait list

  /** Sleepers do not appear, and no other task stops covering them. */
  lemma CoverStays(s: State, s': State, t: nat)
    requires Covered(s) && |s'.tasks| == |s.tasks|
    requires s'.word == s.word
    requires WL.Sleepers(s'.wl) ==> WL.Sleepers(s.wl) || s.word.Contended?
    requires forall u :: 0 <= u < |s.tasks| && u != t && Covers(s, u) ==> Covers(s', u)
    requires t < |s.tasks| && Covers(s, t) ==> Covers(s', t) || !WL.Sleepers(s'.wl)
    ensures Covered(s')
  {
    if WL.Sleepers(s'.wl) && !s'.word.Contended? {
      var u :| 0 <= u < |s.tasks| && Covers(s, u);
      assert Covers(s', u);
    }
  }

  lemma WaitInv(s: State, t: nat, w: nat)
    requires Inv(s) && Step(s, Wait(t, w)).Some?
    ensures Inv(Step(s, Wait(t, w)).value)
  {
    var s' := Step(s, Wait(t, w)).value;
    WL.StepInv(s.wl, WL.Begin(t, WL.Suspend(w)));
    assert TaskOk(s, t);
    forall u | 0 <= u < |s.tasks| ensures TaskOk(s', u) { assert TaskOk(s, u) && WL.ThreadOk(s.wl, u); }
    forall x | x in s'.wl.h.status ensures SleeperOk(s', x) { if x != w { assert SleeperOk(s, x); } }
    WL.SameSleepers(s.wl, s'.wl, t);
    CoverStays(s, s', t);
    HolderStays(s, s', t);
  }

  lemma ParkLinks(s: State, t: nat, w: nat, wl': WL.State, blocks: bool)
    requires Links(s) && t < |s.tasks| && s.tasks[t] == Parking(w)
    requires w in s.wl.h.status && s.wl.h.status[w].Suspending?
    requires WL.SuspendEffect(s.wl, wl', t, w, blocks)
    ensures Links(ParkStep(s, t, Some(wl')).value)
  {
    var s' := ParkStep(s, t, Some(wl')).value;
    assert TaskOk(s, t);
    forall u | 0 <= u < |s.tasks| ensures TaskOk(s', u) { assert TaskOk(s, u); }
    forall x | x in s'.wl.h.status ensures SleeperOk(s', x) { assert SleeperOk(s, x); }
  }

  lemma ParkCovered(s: State, t: nat, w: nat, wl': WL.State)
    requires Covered(s) && Links(s) && t < |s.tasks| && s.tasks[t] == Parking(w)
    requires w in s.wl.h.status && s.wl.h.status[w].Suspending?
    requires WL.SuspendEffect(s.wl, wl', t, w, s.word.Contended?)
    ensures Covered(ParkStep(s, t, Some(wl')).value)
  {
    var s' := ParkStep(s, t, Some(wl')).value;
    if !s.word.Contended? {
      WL.SameSleepers(s.wl, wl', t);
    }
    CoverStays(s, s', t);
  }

  lemma ParkInv(s: State, t: nat)
    requires Inv(s) && Step(s, Park(t)).Some?
    ensures Inv(Step(s, Park(t)).value)
  {
    var w := s.tasks[t].w;
    var l := WL.Go(t, s.word.Contended?);
    var wl' := WL.Step(s.wl, l).value;
    assert TaskOk(s, t) && WL.ThreadOk(s.wl, t);
    WL.StepInv(s.wl, l);
    WL.SuspendSeen(s.wl, t, s.word.Contended?);
    ParkLinks(s, t, w, wl', s.word.Contended?);
    ParkCovered(s, t, w, wl');
    HolderStays(s, ParkStep(s, t, Some(wl')).value, t);
  }

  lemma UnlockInv(s: State, t: nat)
    requires Inv(s) && Step(s, Unlock(t)).Some?
    ensures Inv(Step(s, Unlock(t)).value)
  {
    var s' := Step(s, Unlock(t)).value;
    assert TaskOk(s, t);
    if s.word.Contended? {
      WL.StepInv(s.wl, WL.Begin(t, WL.WakeOne));
      assert Covers(s', t);
    } else {
      CoveredFrame(s, s', t);
    }
    forall u | 0 <= u < |s.tasks| ensures TaskOk(s', u) { assert TaskOk(s, u); }
    forall x | x in s'.wl.h.status ensures SleeperOk(s', x) { assert SleeperOk(s, x); }
  }

  lemma WakeLinks(s: State, t: nat, wl': WL.State)
    requires Links(s) && t < |s.tasks| && s.tasks[t] == Unlocking
    requires WL.WakeEffect(s.wl, wl', t)
    requires s.wl.list != [] ==> s.wl.list[0] in s.wl.h.status && s.wl.h.status[s.wl.list[0]].Linked?
    requires s.wl.threads[t].Completing? ==> s.wl.threads[t].w in s.wl.h.status
    ensures Links(WakeStep(s, t, Some(wl')).value)
  {
    var s' := WakeStep(s, t, Some(wl')).value;
    assert TaskOk(s, t);
    forall u | 0 <= u < |s.tasks| ensures TaskOk(s', u) { assert TaskOk(s, u); }
    forall x | x in s'.wl.h.status ensures SleeperOk(s', x) { assert SleeperOk(s, x); }
  }

  /** Handing the duty on: the unlocker covers until it completes the waiter it popped,
      which covers from then on; if it pops nobody, nobody sleeps. */
  lemma WakeCovered(s: State, t: nat, wl': WL.State)
    requires Covered(s) && Links(s) && WL.Inv(s.wl) && t < |s.tasks| && s.tasks[t] == Unlocking
    requires WL.WakeEffect(s.wl, wl', t)
    ensures Covered(WakeStep(s, t, Some(wl')).value)
  {
    var s', pc := WakeStep(s, t, Some(wl')).value, s.wl.threads[t];
    assert TaskOk(s, t) && WL.ThreadOk(s.wl, t);
    if pc.Completing? {
      assert SleeperOk(s, pc.w);
      assert Covers(s', s.who[pc.w]);
    } else if s'.tasks[t] == Unlocking {
      assert Covers(s', t);
    } else {
      assert s'.wl.list == [];
      forall u | 0 <= u < |s'.wl.threads| && s'.wl.threads[u].Suspends? ensures !s'.wl.threads[u].at.Committed? {
        assert s.wl.threads[u] == s'.wl.threads[u] && WL.ThreadOk(s.wl, u);
      }
      assert !WL.Sleepers(s'.wl);
    }
  }

  lemma WakeInv(s: State, t: nat)
    requires Inv(s) && Step(s, Wake(t)).Some?
    ensures Inv(Step(s, Wake(t)).value)
  {
    var wl' := WL.Step(s.wl, WL.Go(t, false)).value;
    assert TaskOk(s, t) && WL.ThreadOk(s.wl, t);
    WL.StepInv(s.wl, WL.Go(t, false));
    WL.WakeSeen(s.wl, t);
    WakeLinks(s, t, wl');
    WakeCovered(s, t, wl');
    HolderStays(s, WakeStep(s, t, Some(wl')).value, t);
  }

  lemma OtherLinks(s: State, t: nat, wl': WL.State)
    requires Links(s) && |s.tasks| <= t < |s.wl.threads| && WL.CancelEffect(s.wl, wl', t)
    ensures Links(s.(wl := wl'))
  {
    var s' := s.(wl := wl');
    forall u | 0 <= u < |s.tasks| ensures TaskOk(s', u) { assert TaskOk(s, u); }
    forall x | x in s'.wl.h.status ensures SleeperOk(s', x) { assert SleeperOk(s, x); }
  }

  lemma OtherCovers(s: State, t: nat, wl': WL.State, u: nat)
    requires u < |s.tasks| <= |s.wl.threads| && TaskOk(s, u) && Covers(s, u) && WL.CancelEffect(s.wl, wl', t)
    requires s.tasks[u].Asleep? ==> WL.Times(wl'.h, s.tasks[u].w) <= 1
    ensures Covers(s.(wl := wl'), u)
  {
  }

  lemma OtherCovered(s: State, t: nat, wl': WL.State)
    requires Links(s) && Covered(s) && |s.tasks| <= t && WL.Inv(wl') && WL.CancelEffect(s.wl, wl', t)
    ensures Covered(s.(wl := wl'))
  {
    var s' := s.(wl := wl');
    WL.SameSleepers(s.wl, wl', t);
    forall u | 0 <= u < |s.tasks| && Covers(s, u) ensures Covers(s', u) {
      assert TaskOk(s, u);
      assert s.tasks[u].Asleep? ==> WL.WaiterOk(wl', s.tasks[u].w);
      OtherCovers(s, t, wl', u);
    }
    CoverStays(s, s', t);
  }

  lemma OtherInv(s: State, l: WL.Label)
    requires Inv(s) && Step(s, Other(l)).Some?
    ensures Inv(Step(s, Other(l)).value)
  {
    var wl' := WL.Step(s.wl, l).value;
    assert l.t < |s.wl.threads| && OtherOk(s.wl.threads[l.t]) && WL.ThreadOk(s.wl, l.t);
    WL.StepInv(s.wl, l);
    WL.CancelSeen(s.wl, l);
    OtherLinks(s, l.t, wl');
    OtherCovered(s, l.t, wl');
  }

  lemma StepInv(s: State, l: Label)
    requires Inv(s) && Step(s, l).Some?
    ensures Inv(Step(s, l).value)
  {
    match l
    case Wait(t, w) => WaitInv(s, t, w);
    case Park(t) => ParkInv(s, t);
    case Resume(t) => ResumeInv(s, t);
    case Unlock(t) => UnlockInv(s, t);
    case Wake(t) => WakeInv(s, t);
    case Other(wl) => OtherInv(s, wl);
    case _ => WordInv(s, l);
  }

  // ----- what holds of every run

  ghost function Run(tasks: nat, others: nat, labels: seq<Label>): (r: Option<State>) {
    Machine.Exec((s, l) => Step(s, l), Init(tasks, others), labels)
  }

  /** Mutual exclusion, and no lost wake: while a waiter sleeps, the word is Contended
      (so that the holder will wake somebody), or an unlocker that saw Contended has
      yet to pop or complete a waiter, or a waiter it woke has yet to load or swap. */
  lemma RunsAreSafe(tasks: nat, others: nat, labels: seq<Label>)
    requires Run(tasks, others, labels).Some?
    ensures var s := Run(tasks, others, labels).value;
      Inv(s) && OneHolder(s) && Covered(s)
  {
    InitInv(tasks, others);
    forall s, l | Inv(s) && Step(s, l).Some? ensures Inv(Step(s, l).value) { StepInv(s, l); }
    Machine.RunsKeep((s, l) => Step(s, l), s => Inv(s), Init(tasks, others), labels);
  }

  /** A waiter never sleeps on a free lock with everybody at rest: if no task is inside
      `unlock` or between waking up and its next look at the word, a sleeper means that
      some task holds the lock and will find the word Contended when it unlocks. */
  lemma SleeperHasHolder(s: State)
    requires Inv(s) && WL.Sleepers(s.wl)
    requires forall t :: 0 <= t < |s.tasks| ==> !Covers(s, t)
    ensures s.word.Contended?
    ensures exists t :: 0 <= t < |s.tasks| && s.tasks[t] == Holding
  {
  }

  /** After every run: whoever asks for the lock gets it if and only if nobody holds it, and a
      task that is turned away leaves the word Contended behind, for the one who does. */
  lemma LockOutcome(tasks: nat, others: nat, labels: seq<Label>, l: Label)
    requires Run(tasks, others, labels).Some? && Step(Run(tasks, others, labels).value, l).Some?
    ensures var s := Run(tasks, others, labels).value;
      var s' := Step(s, l).value;
      var held := exists t :: 0 <= t < |s.tasks| && s.tasks[t] == Holding;
      && (l.Lock? || l.Swap? ==> (s'.tasks[l.t] == Holding <==> !held))
      && ((l.Look? || l.Swap?) && s'.tasks[l.t] == Denied ==> held && s'.word.Contended?)
  {
    RunsAreSafe(tasks, others, labels);
  }
}
