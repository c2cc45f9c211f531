/** A receiver that waits for a oneshot value (`Receiver::recv`, `Sender::send` and the drops of
    `channel/oneshot.rs` over `AtomicWaiter`).

    The oneshot channel and its `rx_waiter` run side by side.  In the waiter cell, thread 0 is
    the sender, thread 1 the receiver, and thread 2 whoever cancels a wait. */
module OneshotWait {
  import opened Wrappers
  import Machine
  import AW = AtomicWaiter
  import OS = Oneshot

  /** What the receiver does besides the channel: nothing, or it is inside `suspend`, or
      suspend returned Pending. */
  datatype Place = Free | Suspending(r: nat) | Waiting(r: nat)

  /** `txBusy` and `rxBusy`: that side is inside the close of the receiver's waiter. */
  datatype State<T> = State(os: OS.State<T>, rx: AW.State, place: Place, txBusy: bool, rxBusy: bool)

  datatype Label<T> =
    | Channel(l: OS.Label<T>)        // any operation that does not close the receiver's waiter
    | TxClose                        // the sender begins that close, or takes a step of it
    | RxClose                        // the receiver, likewise
    | Wait(r: nat)
    | SuspendGo
    | Resume                         // the wait is over; `recv` goes on with `try_recv`
    | Cancel(r: nat)
    | CancelGo

  function Init<T>(): (s: State<T>) {
    State(OS.Init(), AW.Init(3), Free, false, false)
  }

  /** The places from which a step closes the receiver's waiter. */
  predicate TxCloses<T>(os: OS.State<T>) {
    os.tx == OS.Stored || os.tx == OS.Leaving(true)
  }

  predicate RxCloses<T>(os: OS.State<T>) {
    os.rx == OS.Closing(true)
  }

  function Step<T>(s: State<T>, l: Label<T>): (r: Option<State<T>>) {
    match l
    case Channel(cl) =>
      if (cl.TxGo? && TxCloses(s.os)) || (cl.RxGo? && RxCloses(s.os)) then None
      else if (cl.TryRecv? || cl.Close? || cl.DropReceiver?) && s.place != Free then None
      else OnChannel(s, OS.Step(s.os, cl))
    case TxClose =>
      if !TxCloses(s.os) || |s.rx.threads| < 3 then None
      else if s.txBusy then TxCloseGo(s, AW.Step(s.rx, AW.Go(0, false)))
      else OnWaiter(s.(txBusy := true), AW.Step(s.rx, AW.Begin(0, AW.Close)))
    case RxClose =>
      if !RxCloses(s.os) || |s.rx.threads| < 3 then None
      else if s.rxBusy then RxCloseGo(s, AW.Step(s.rx, AW.Go(1, false)))
      else OnWaiter(s.(rxBusy := true), AW.Step(s.rx, AW.Begin(1, AW.Close)))
    case Wait(r) =>
      if s.place != Free || s.os.rx != OS.Idle then None
      else OnWaiter(s.(place := Suspending(r)), AW.Step(s.rx, AW.Begin(1, AW.Suspend(r))))
    case SuspendGo =>
      if !s.place.Suspending? then None
      else SuspendStep(s, AW.Step(s.rx, AW.Go(1, true)))
    case Resume =>
      if !s.place.Waiting? || AW.Times(s.rx.h, s.place.r) == 0 then None
      else Some(s.(place := Free))
    case Cancel(r) => OnWaiter(s, AW.Step(s.rx, AW.Begin(2, AW.Cancel(r))))
    case CancelGo => OnWaiter(s, AW.Step(s.rx, AW.Go(2, false)))
  }

  function OnChannel<T>(s: State<T>, os: Option<OS.State<T>>): (r: Option<State<T>>) {
    if os.None? then None else Some(s.(os := os.value))
  }

  function OnWaiter<T>(s: State<T>, rx: Option<AW.State>): (r: Option<State<T>>) {
    if rx.None? then None else Some(s.(rx := rx.value))
  }

  predicate IdleIn(rx: AW.State, t: nat) {
    t < |rx.threads| && rx.threads[t] == AW.Idle
  }

  /** When the close returns, the sender goes on in the channel. */
  function TxCloseGo<T>(s: State<T>, rx: Option<AW.State>): (r: Option<State<T>>) {
    if rx.None? then None
    else if IdleIn(rx.value, 0) then OnChannel(s.(rx := rx.value, txBusy := false), OS.Step(s.os, OS.TxGo))
    else Some(s.(rx := rx.value))
  }

  function RxCloseGo<T>(s: State<T>, rx: Option<AW.State>): (r: Option<State<T>>) {
    if rx.None? then None
    else if IdleIn(rx.value, 1) then OnChannel(s.(rx := rx.value, rxBusy := false), OS.Step(s.os, OS.RxGo))
    else Some(s.(rx := rx.value))
  }

  /** When suspend returns, the receiver waits, or goes on at once. */
  function SuspendStep<T>(s: State<T>, rx: Option<AW.State>): (r: Option<State<T>>)
    requires s.place.Suspending?
  {
    if rx.None? then None
    else if !IdleIn(rx.value, 1) then Some(s.(rx := rx.value))
    else if s.place.r in rx.value.h.answer && rx.value.h.answer[s.place.r] == AW.Pending
    then Some(s.(rx := rx.value, place := Waiting(s.place.r)))
    else Some(s.(rx := rx.value, place := Free))
  }

  // ----- the invariant

  /** The sender has been through its close of the receiver's waiter. */
  predicate Passed<T>(os: OS.State<T>) {
    match os.tx
    case Fresh => false
    case Written => false
    case Stored => false
    case Leaving(_) => os.h.payload.Some?
    case _ => true
  }

  /** A thread inside a close: before the swap, or with the waiter it found. */
  predicate InClose(pc: AW.Pc) {
    pc == AW.Taking(true) || (pc.Completing? && pc.outcome.Woken?)
  }

  predicate InCancel(pc: AW.Pc) {
    pc == AW.Idle || pc.Withdrawing? || (pc.Completing? && pc.outcome.Cancelled?)
  }

  ghost predicate Threads<T>(s: State<T>)
    requires |s.rx.threads| == 3
  {
    && (if s.txBusy then TxCloses(s.os) && InClose(s.rx.threads[0]) else s.rx.threads[0] == AW.Idle)
    && (if s.rxBusy then RxCloses(s.os) && s.place == Free && InClose(s.rx.threads[1])
        else match s.place
          case Free => s.rx.threads[1] == AW.Idle
          case Suspending(r) => s.os.rx == OS.Idle && AW.InSuspend(s.rx.threads[1]) && s.rx.threads[1].r == r
          case Waiting(r) => s.os.rx == OS.Idle && s.rx.threads[1] == AW.Idle)
    && InCancel(s.rx.threads[2])
  }

  ghost predicate Closed<T>(s: State<T>)
    requires |s.rx.threads| == 3
  {
    && (Passed(s.os) || (s.txBusy && s.rx.threads[0].Completing?) ==> s.rx.word == AW.Shut)
    && (Passed(s.os) ==> !s.rx.threads[0].Completing?)
    && (s.place.Waiting? ==> s.place.r in s.rx.h.answer && s.rx.h.answer[s.place.r] == AW.Pending)
    && (s.os.tx == OS.Fresh ==> s.os.h.payload == None)
  }

  ghost predicate Outer<T>(s: State<T>) {
    |s.rx.threads| == 3 && Threads(s) && Closed(s)
  }

  ghost predicate Inv<T>(s: State<T>) {
    OS.Inv(s.os) && AW.Inv(s.rx) && Outer(s)
  }

  /** What a step of thread `t` leaves of the rest of the cell. */
  ghost predicate OnlyThread(rx: AW.State, rx': AW.State, t: nat) {
    && |rx'.threads| == |rx.threads|
    && (forall u :: 0 <= u < |rx.threads| && u != t ==> rx'.threads[u] == rx.threads[u])
    && (rx.word == AW.Shut ==> rx'.word == AW.Shut)
  }

  lemma CellStep(rx: AW.State, l: AW.Label)
    requires AW.Step(rx, l).Some?
    ensures OnlyThread(rx, AW.Step(rx, l).value, l.t)
  {
  }

  /** The answer to a request is given once. */
  lemma AnswerStays(rx: AW.State, l: AW.Label, r: nat)
    requires AW.Inv(rx) && AW.Step(rx, l).Some? && r in rx.h.answer
    ensures r in AW.Step(rx, l).value.h.answer && AW.Step(rx, l).value.h.answer[r] == rx.h.answer[r]
  {
    assert AW.ThreadOk(rx, l.t);
  }

  /** A step of a close leaves the cell closed, and the closer with the waiter it found, or
      with nothing more to do. */
  lemma CloseStep(rx: AW.State, t: nat)
    requires t < |rx.threads| && InClose(rx.threads[t])
    ensures AW.Step(rx, AW.Go(t, false)).Some?
    ensures var rx' := AW.Step(rx, AW.Go(t, false)).value;
      && OnlyThread(rx, rx', t) && rx'.h.answer == rx.h.answer
      && (rx.threads[t] == AW.Taking(true) || rx.word == AW.Shut ==> rx'.word == AW.Shut)
      && (rx'.threads[t] == AW.Idle || (InClose(rx'.threads[t]) && rx'.threads[t].Completing? && rx.word != AW.Shut))
  {
  }

  lemma StepInv<T>(s: State<T>, l: Label<T>)
    requires Inv(s) && Step(s, l).Some?
    ensures Inv(Step(s, l).value)
  {
    InnerInv(s, l);
    match l
    case Channel(cl) => ChannelOuter(s, l);
    case TxClose => TxCloseOuter(s);
    case RxClose => RxCloseOuter(s);
    case Resume =>
    case _ => WaiterOuter(s, l);
  }

  lemma InnerInv<T>(s: State<T>, l: Label<T>)
    requires Inv(s) && Step(s, l).Some?
    ensures OS.Inv(Step(s, l).value.os) && AW.Inv(Step(s, l).value.rx)
  {
    var s' := Step(s, l).value;
    match l
    case Channel(cl) => OS.StepInv(s.os, cl);
    case TxClose =>
      AW.StepInv(s.rx, if s.txBusy then AW.Go(0, false) else AW.Begin(0, AW.Close));
      if s'.os != s.os { OS.StepInv(s.os, OS.TxGo); }
    case RxClose =>
      AW.StepInv(s.rx, if s.rxBusy then AW.Go(1, false) else AW.Begin(1, AW.Close));
      if s'.os != s.os { OS.StepInv(s.os, OS.RxGo); }
    case Resume =>
    case _ => AW.StepInv(s.rx, WaiterLabel(l));
  }

  lemma ChannelOuter<T>(s: State<T>, l: Label<T>)
    requires Outer(s) && l.Channel? && Step(s, l).Some?
    ensures Outer(Step(s, l).value)
  {
  }

  lemma TxCloseOuter<T>(s: State<T>)
    requires Outer(s) && Step(s, TxClose).Some?
    ensures Outer(Step(s, TxClose).value)
  {
    if s.txBusy {
      CloseStep(s.rx, 0);
    } else {
      CellStep(s.rx, AW.Begin(0, AW.Close));
    }
  }

  lemma RxCloseOuter<T>(s: State<T>)
    requires Outer(s) && Step(s, RxClose).Some?
    ensures Outer(Step(s, RxClose).value)
  {
    if s.rxBusy {
      CloseStep(s.rx, 1);
    } else {
      CellStep(s.rx, AW.Begin(1, AW.Close));
    }
  }

  function WaiterLabel<T>(l: Label<T>): (r: AW.Label)
    requires l.Wait? || l.SuspendGo? || l.Cancel? || l.CancelGo?
  {
    match l
    case Wait(r) => AW.Begin(1, AW.Suspend(r))
    case SuspendGo => AW.Go(1, true)
    case Cancel(r) => AW.Begin(2, AW.Cancel(r))
    case _ => AW.Go(2, false)
  }

  lemma WaiterOuter<T>(s: State<T>, l: Label<T>)
    requires Outer(s) && AW.Inv(s.rx)
    requires (l.Wait? || l.SuspendGo? || l.Cancel? || l.CancelGo?) && Step(s, l).Some?
    ensures Outer(Step(s, l).value)
  {
    CellStep(s.rx, WaiterLabel(l));
    if s.place.Waiting? {
      AnswerStays(s.rx, WaiterLabel(l), s.place.r);
    }
  }

  // ----- what holds of every run

  ghost function Run<T>(labels: seq<Label<T>>): (s: Option<State<T>>) {
    Machine.Exec((s, l) => Step(s, l), Init<T>(), labels)
  }

  lemma RunsKeepInv<T(!new)>(labels: seq<Label<T>>)
    requires Run(labels).Some?
    ensures Inv(Run(labels).value)
  {
    AW.InitInv(3);
    assert Inv(Init<T>());
    forall s: State<T>, l | Inv(s) && Step(s, l).Some? ensures Inv(Step(s, l).value) { StepInv(s, l); }
    Machine.RunsKeep((s, l) => Step(s, l), s => Inv(s), Init<T>(), labels);
  }

  /** In a closed cell, a pending request is completed, or one thread alone is about to. */
  lemma PendingHasDuty(rx: AW.State, r: nat)
    requires AW.Inv(rx) && r in rx.h.answer && rx.h.answer[r] == AW.Pending && rx.word == AW.Shut
    ensures AW.Times(rx.h, r) == 1 || exists t :: 0 <= t < |rx.threads| && AW.OnlyDuty(rx, t, r)
  {
    AW.InvIsSafe(rx);
    assert AW.RequestOk(rx, r);
  }

  /** Once `send`, or the sender's drop, is past its close, a receiver that waits has been
      completed, or a cancel has taken its request and alone is about to complete it; and a
      receiver that comes later does not wait. */
  lemma SendWakesReceiver<T(!new)>(labels: seq<Label<T>>)
    requires Run(labels).Some? && Passed(Run(labels).value.os)
    ensures var s := Run(labels).value;
      && s.rx.word == AW.Shut && |s.rx.threads| == 3
      && (s.place.Waiting? ==> AW.Times(s.rx.h, s.place.r) == 1 || AW.OnlyDuty(s.rx, 2, s.place.r))
  {
    RunsKeepInv(labels);
    var s := Run(labels).value;
    if s.place.Waiting? && AW.Times(s.rx.h, s.place.r) != 1 {
      PendingHasDuty(s.rx, s.place.r);
    }
  }

  /** Once `send` is past its close, a `try_recv` that nothing disturbs moves the value out,
      unless the value is gone already or `send` is taking it back. */
  lemma WokenFindsValue<T(!new)>(labels: seq<Label<T>>)
    requires Run(labels).Some?
    requires var os := Run(labels).value.os;
      Passed(os) && os.h.payload.Some? && os.h.taken == [] && os.tx != OS.Reading && os.rx == OS.Idle
    ensures var os := Run(labels).value.os;
      var end := Machine.Exec((s, l) => OS.Step(s, l), os, [OS.TryRecv, OS.RxGo, OS.RxGo]);
      end.Some? && end.value.h.taken == [OS.Taken(OS.Receiver, os.h.payload.value)]
  {
    RunsKeepInv(labels);
    var os := Run(labels).value.os;
    assert os.sent && os.cell == os.h.payload;
    var s1 := OS.Step(os, OS.TryRecv).value;
    var s2 := OS.Step(s1, OS.RxGo).value;
    var step := (s: OS.State<T>, l: OS.Label<T>) => OS.Step(s, l);
    var go: seq<OS.Label<T>> := [OS.RxGo, OS.RxGo];
    assert ([OS.TryRecv] + go)[1..] == go && go[1..] == [OS.RxGo]
      && [OS.TryRecv, OS.RxGo, OS.RxGo] == [OS.TryRecv] + go;
    assert Machine.Exec(step, s2, [OS.RxGo]) == OS.Step(s2, OS.RxGo);
  }
}
