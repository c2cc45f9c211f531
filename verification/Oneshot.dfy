/** The oneshot channel of `channel/oneshot.rs`: one sender, one receiver, a cell, the
    flag `sent`, and the closed marks of the two waiters.  A label is one operation on
    shared memory by the sender or the receiver. */
module Oneshot {
  import opened Wrappers
  import Machine

  datatype Tx =
    | Fresh                     // may send, or be dropped
    | Written                   // the value is in the cell
    | Stored                    // `sent` is set
    | Notified                  // the receiver's waiter is closed
    | Reclaiming                // saw its own waiter closed, before the swap
    | Reading                   // the swap found the value
    | Leaving(rxToo: bool)      // drop: before closing its own waiter, then the receiver's
    | Left

  datatype Rx =
    | Idle
    | Taking(dropping: bool)    // before the swap of `sent`
    | Holding(dropping: bool)   // the swap found the value
    | Marking                   // has the value, will close the sender's waiter
    | Asking                    // found nothing, before the load of the closed mark
    | Closing(rxToo: bool)
    | DropClosing               // drop: before closing the sender's waiter
    | Gone

  datatype Taker = Receiver | ReceiverDrop | Sender

  datatype Taken<T> = Taken(who: Taker, value: T)

  /** What was sent, who moved a value out, what `send` returned, what `try_recv` last
      returned, whether `close` has finished, and whether a `try_recv` begun after that
      came back empty. */
  datatype History<T> = History(
    payload: Option<T>,
    taken: seq<Taken<T>>,
    result: Option<Option<T>>,
    closed: bool,
    guarded: bool)

  datatype State<T> = State(sent: bool, cell: Option<T>, txClosed: bool, tx: Tx, rx: Rx, h: History<T>)

  datatype Label<T> =
    | Send(value: T)
    | DropSender
    | TxGo
    | TryRecv
    | Close
    | DropReceiver
    | RxGo

  function Init<T>(): (r: State<T>) {
    State(false, None, false, Fresh, Idle, History(None, [], None, false, false))
  }

  /** Move the value out of the cell; the cell is uninitialised afterwards. */
  function MoveOut<T>(s: State<T>, who: Taker): (r: State<T>) {
    if s.cell.None? then s
    else s.(cell := None, h := s.h.(taken := s.h.taken + [Taken(who, s.cell.value)]))
  }

  function TxStep<T>(s: State<T>): (r: Option<State<T>>) {
    match s.tx
    case Written => Some(s.(sent := true, tx := Stored))
    case Stored => Some(s.(tx := Notified))
    case Notified =>
      if s.txClosed then Some(s.(tx := Reclaiming))
      else Some(s.(tx := Leaving(false), h := s.h.(result := Some(None))))
    case Reclaiming =>
      if s.sent then Some(s.(sent := false, tx := Reading))
      else Some(s.(tx := Leaving(false), h := s.h.(result := Some(None))))
    case Reading =>
      var s' := MoveOut(s, Sender);
      Some(s'.(tx := Leaving(false), h := s'.h.(result := Some(s.cell))))
    case Leaving(rxToo) =>
      if !rxToo then Some(s.(txClosed := true, tx := Leaving(true))) else Some(s.(tx := Left))
    case _ => None
  }

  function RxStep<T>(s: State<T>): (r: Option<State<T>>) {
    match s.rx
    case Taking(dropping) =>
      if s.sent then Some(s.(sent := false, rx := Holding(dropping)))
      else if dropping then Some(s.(rx := Gone))
      else Some(s.(rx := Asking, h := s.h.(guarded := s.h.guarded || s.h.closed)))
    case Holding(dropping) =>
      Some(MoveOut(s, if dropping then ReceiverDrop else Receiver).(rx := if dropping then Gone else Marking))
    case Marking => Some(s.(txClosed := true, rx := Idle))
    case Asking => Some(s.(rx := Idle))
    case Closing(rxToo) =>
      if !rxToo then Some(s.(txClosed := true, rx := Closing(true)))
      else Some(s.(rx := Idle, h := s.h.(closed := true)))
    case DropClosing => Some(s.(txClosed := true, rx := Taking(true)))
    case _ => None
  }

  function Step<T>(s: State<T>, l: Label<T>): (r: Option<State<T>>) {
    match l
    case Send(value) =>
      if s.tx != Fresh then None
      else Some(s.(cell := Some(value), tx := Written, h := s.h.(payload := Some(value))))
    case DropSender => if s.tx != Fresh then None else Some(s.(tx := Leaving(false)))
    case TxGo => TxStep(s)
    case TryRecv => if s.rx != Idle then None else Some(s.(rx := Taking(false)))
    case Close => if s.rx != Idle then None else Some(s.(rx := Closing(false)))
    case DropReceiver => if s.rx != Idle then None else Some(s.(rx := DropClosing))
    case RxGo => RxStep(s)
  }

  /** The value is still in the cell, and somebody can or will move it out. */
  ghost predicate Inv<T>(s: State<T>) {
    && (s.tx == Fresh ==> s.h.payload == None)
    && (s.h.payload.None? ==>
          && !s.sent && s.cell == None && s.h.taken == []
          && s.tx in {Fresh, Leaving(false), Leaving(true), Left} && !s.rx.Holding?)
    && (s.h.payload.Some? ==>
          // The value is untaken exactly while the cell holds it.
          && (s.cell == s.h.payload || s.cell == None)
          && (s.cell.Some? <==> s.h.taken == [])
          && |s.h.taken| <= 1
          && (forall k :: 0 <= k < |s.h.taken| ==> s.h.taken[k].value == s.h.payload.value)
          // Exactly one party may take it.
          && (s.cell.Some? ==>
                || (s.tx == Written && !s.sent && !s.rx.Holding?)
                || (s.tx == Reading && !s.sent && !s.rx.Holding?)
                || (s.rx.Holding? && !s.sent && s.tx != Written && s.tx != Reading)
                || (s.sent && s.tx != Written && s.tx != Reading && !s.rx.Holding?))
          && (s.cell.None? ==> !s.sent && s.tx != Written && s.tx != Reading && !s.rx.Holding?))
    && (s.rx == Gone || s.rx == Taking(true) || s.rx == Holding(true) || s.h.closed || s.rx == Closing(true) ==>
      s.txClosed)
    && (s.rx == Gone && s.sent ==> s.tx in {Stored, Notified, Reclaiming})
    && (s.tx in {Leaving(false), Leaving(true), Left} && s.h.payload.Some? ==> s.h.result.Some?)
    && (s.tx in {Fresh, Written, Stored, Notified, Reclaiming, Reading} ==> s.h.result.None?)
    && (s.h.guarded ==> s.h.closed)
    && (s.h.taken != [] && s.h.taken[0].who == ReceiverDrop ==> s.rx == Gone)
    && (s.h.result.Some? && s.h.result.value.Some? <==> s.h.taken != [] && s.h.taken[0].who == Sender)
    && (s.h.result.Some? && s.h.result.value.Some? ==> s.h.result.value == s.h.payload)
    && (s.h.guarded && s.sent ==> s.tx in {Stored, Notified, Reclaiming})
  }

  lemma TxInv<T>(s: State<T>)
    requires Inv(s) && TxStep(s).Some?
    ensures Inv(TxStep(s).value)
  {
  }

  lemma RxInv<T>(s: State<T>)
    requires Inv(s) && RxStep(s).Some?
    ensures Inv(RxStep(s).value)
  {
  }

  lemma StepInv<T>(s: State<T>, l: Label<T>)
    requires Inv(s) && Step(s, l).Some?
    ensures Inv(Step(s, l).value)
  {
    match l
    case TxGo => TxInv(s);
    case RxGo => RxInv(s);
    case _ =>
  }

  // ----- what holds of every run

  ghost function Run<T>(labels: seq<Label<T>>): (r: Option<State<T>>) {
    Machine.Exec((s, l) => Step(s, l), Init<T>(), labels)
  }

  /** The sender has been dropped or has sent and gone, and the receiver was dropped. */
  predicate Over<T>(s: State<T>) {
    s.tx == Left && s.rx == Gone
  }

  lemma RunsKeepInv<T(!new)>(labels: seq<Label<T>>)
    requires Run(labels).Some?
    ensures Inv(Run(labels).value)
  {
    forall s: State<T>, l | Inv(s) && Step(s, l).Some? ensures Inv(Step(s, l).value) { StepInv(s, l); }
    Machine.RunsKeep((s, l) => Step(s, l), s => Inv(s), Init<T>(), labels);
  }

  /** In every run the sent value, unchanged, is moved out at most once, and exactly once
      when both ends are gone; nothing is moved out if nothing was sent; `send` returns
      the value exactly when it was the sender that took it back. */
  lemma MovedOutOnce<T(!new)>(labels: seq<Label<T>>)
    requires Run(labels).Some?
    ensures var s := Run(labels).value;
      && |s.h.taken| <= 1
      && (s.h.payload.None? ==> s.h.taken == [])
      && (s.h.taken != [] ==> s.h.payload == Some(s.h.taken[0].value))
      && (s.h.payload.Some? && Over(s) ==> |s.h.taken| == 1 && s.cell == None)
      && (s.h.payload.Some? && Over(s) ==> s.h.result.Some?)
      && (s.h.result.Some? && s.h.result.value.Some? <==> s.h.taken != [] && s.h.taken[0].who == Sender)
      && (s.h.result.Some? && s.h.result.value.Some? ==> s.h.result.value == s.h.payload)
  {
    RunsKeepInv(labels);
  }

  /** Whoever reads the cell finds a value there. */
  lemma CellIsFull<T>(s: State<T>)
    requires Inv(s) && (s.rx.Holding? || s.tx == Reading)
    ensures s.cell.Some? && s.cell == s.h.payload && s.h.taken == []
    ensures !(s.rx.Holding? && s.tx == Reading)
  {
  }

  // ----- the close-then-receive guarantee

  /** The value reached the receiver's hands, or came back from `send`. */
  ghost predicate Accounted<T>(s: State<T>) {
    s.h.taken != [] && (s.h.taken[0].who == Receiver || (s.h.result.Some? && s.h.result.value.Some?))
  }

  /** After a close and an empty `try_recv`, the flag can only be set while `send` is
      past its store and has not yet tried to take the value back. */
  lemma FlagAfterGuard<T>(s: State<T>)
    requires Inv(s) && s.h.guarded && s.sent
    ensures s.tx in {Stored, Notified, Reclaiming} && s.txClosed
  {
  }

  /** The documentation promises that a receiver that closes, tries to receive and is then
      dropped either has the value or makes `send` return it.  That holds exactly when
      the flag is not set at the instant the drop looks at it; otherwise the drop
      discards the value and `send` returns Ok. */
  lemma DropDecides<T(!new)>(before: seq<Label<T>>, after: seq<Label<T>>)
    requires Run(before).Some? && Run(before).value.rx == Taking(true)
    requires Run(before + [RxGo] + after).Some?
    requires Over(Run(before + [RxGo] + after).value) && Run(before + [RxGo] + after).value.h.payload.Some?
    ensures Accounted(Run(before + [RxGo] + after).value) <==> !Run(before).value.sent
    ensures !Accounted(Run(before + [RxGo] + after).value) ==> Run(before + [RxGo] + after).value.h.result == Some(None)
  {
    RunsKeepInv(before);
    assert before + [RxGo] + after == before + ([RxGo] + after);
    Machine.ExecConcat((x: State<T>, l: Label<T>) => Step(x, l), Init<T>(), before, [RxGo] + after);
    assert ([RxGo] + after)[1..] == after;
    var s := Run(before).value;
    StepInv(s, RxGo);
    FateStays(Step(s, RxGo).value, s.sent, after);
  }

  /** The guarantee does hold for a receiver whose drop does not look into the middle of a
      `send`: if it closed and tried to receive first, and its drop looks before the store
      or after `send` has returned, nothing is lost. */
  lemma GuaranteeHolds<T(!new)>(before: seq<Label<T>>, after: seq<Label<T>>)
    requires Run(before).Some? && Run(before).value.rx == Taking(true)
    requires Run(before).value.h.guarded && Run(before).value.tx !in {Stored, Notified, Reclaiming}
    requires Run(before + [RxGo] + after).Some?
    requires Over(Run(before + [RxGo] + after).value) && Run(before + [RxGo] + after).value.h.payload.Some?
    ensures Accounted(Run(before + [RxGo] + after).value)
  {
    RunsKeepInv(before);
    DropDecides(before, after);
  }

  /** Once the drop has looked, it has taken the value (or is about to), or never will. */
  ghost predicate Fate<T>(s: State<T>, found: bool) {
    && Inv(s)
    && (if found then s.rx == Holding(true) || (s.rx == Gone && s.h.taken != [] && s.h.taken[0].who == ReceiverDrop)
        else s.rx == Gone && (s.h.taken != [] ==> s.h.taken[0].who != ReceiverDrop))
  }

  lemma FateStep<T>(s: State<T>, found: bool, l: Label<T>)
    requires Fate(s, found) && Step(s, l).Some?
    ensures Fate(Step(s, l).value, found)
  {
    StepInv(s, l);
  }

  lemma {:induction false} FateStays<T>(s: State<T>, found: bool, labels: seq<Label<T>>)
    requires Fate(s, found) && Machine.Exec((x, l) => Step(x, l), s, labels).Some?
    ensures Fate(Machine.Exec((x, l) => Step(x, l), s, labels).value, found)
    decreases |labels|
  {
    if labels == [] {
    } else {
      FateStep(s, found, labels[0]);
      FateStays(Step(s, labels[0]).value, found, labels[1..]);
    }
  }

  /** The receiver is gone, so what is sent comes back. */
  ghost predicate Doomed<T>(s: State<T>) {
    && Inv(s) && s.rx == Gone
    && (s.tx in {Stored, Notified, Reclaiming} ==> s.sent)
    && (s.h.result.Some? && s.h.payload.Some? ==> s.h.result == Some(s.h.payload))
  }

  lemma DoomedStep<T>(s: State<T>, l: Label<T>)
    requires Doomed(s) && Step(s, l).Some?
    ensures Doomed(Step(s, l).value)
  {
    StepInv(s, l);
  }

  lemma {:induction false} DoomedRuns<T>(s: State<T>, labels: seq<Label<T>>)
    requires Doomed(s) && Machine.Exec((x, l) => Step(x, l), s, labels).Some?
    ensures Doomed(Machine.Exec((x, l) => Step(x, l), s, labels).value)
    decreases |labels|
  {
    if labels == [] {
    } else {
      DoomedStep(s, labels[0]);
      DoomedRuns(Step(s, labels[0]).value, labels[1..]);
    }
  }

  /** If the receiver is dropped before a value is sent, `send` gives the value back. */
  lemma SendAfterDropFails<T>(s: State<T>, labels: seq<Label<T>>)
    requires Inv(s) && s.rx == Gone && s.tx == Fresh
    requires Machine.Exec((x, l) => Step(x, l), s, labels).Some?
    ensures var s' := Machine.Exec((x, l) => Step(x, l), s, labels).value;
      s'.h.payload.Some? && s'.h.result.Some? ==> s'.h.result == Some(s'.h.payload)
  {
    DoomedRuns(s, labels);
  }

  /** The promise does fail: close, an empty `try_recv`, and a drop between the sender's
      store and its look at the closed mark. */
  lemma PromiseFails<T(!new)>(value: T)
    ensures exists s: State<T> ::
      Machine.Reaches((x, l) => Step(x, l), Init<T>(), s) && Over(s) && s.h.guarded && s.h.payload == Some(value)
        && !Accounted(s) && s.h.result == Some(None)
  {
    Machine.ReachSelf((x: State<T>, l: Label<T>) => Step(x, l), Init<T>());
    var s := After(Init<T>(), Close);
    s := After(s, RxGo);
    s := After(s, RxGo);
    s := After(s, TryRecv);
    s := After(s, RxGo);
    s := After(s, RxGo);
    assert s == State(false, None, true, Fresh, Idle, History(None, [], None, true, true));
    s := After(s, Send(value));
    s := After(s, TxGo);
    s := After(s, DropReceiver);
    s := After(s, RxGo);
    s := After(s, RxGo);
    s := After(s, RxGo);
    assert s == State(false, None, true, Stored, Gone,
      History(Some(value), [Taken(ReceiverDrop, value)], None, true, true));
    s := After(s, TxGo);
    s := After(s, TxGo);
    s := After(s, TxGo);
    s := After(s, TxGo);
    s := After(s, TxGo);
  }

  lemma After<T(!new)>(s: State<T>, l: Label<T>) returns (s': State<T>)
    requires Machine.Reaches((x, l) => Step(x, l), Init<T>(), s) && Step(s, l).Some?
    ensures s' == Step(s, l).value
    ensures Machine.Reaches((x, l) => Step(x, l), Init<T>(), s')
  {
    Machine.ReachStep((x, l) => Step(x, l), Init<T>(), s, l);
    s' := Step(s, l).value;
  }
}
