/** `Branch` of `coroutines/branch.rs`: two futures run side by side, one result.

    What a child future does is up to its environment: it may finish while it is being
    run, later, or inside its own cancel.  The `Script` datatypes say which, and every
    method below is proved for all scripts.  Running or cancelling one child does not
    finish the other.  A panic of a child is one of its values. */
module Branch {
  import opened Wrappers

  /** What is kept of a child: the future, its cancel token, its result, or nothing. */
  datatype Handle<+O> = Ready | Pending | Done(value: O) | Empty

  datatype RunScript<+O> = Finishes(value: O) | Starts

  datatype CancelScript<+O> = Later | Inside(value: O)

  datatype Output<+O1, +O2> = Output(isFirst: bool, first: Option<O1>, second: Option<O2>)

  /** The child as its environment sees it. */
  datatype Child<+O> = NotStarted | InProgress | Finished(value: O)

  datatype Event<+O1, +O2> =
    | FirstFinishes(v: O1, k: CancelScript<O2>)    // `k`: what the other does if cancelled now
    | SecondFinishes(w: O2, c: CancelScript<O1>)
    | CancelBoth(k1: CancelScript<O1>, k2: CancelScript<O2>)

  class Branch<O1, O2> {
    var first: Handle<O1>
    var second: Handle<O2>
    var interrupt: bool
    const cancelIfFirst: O1 -> bool
    const cancelIfSecond: O2 -> bool

    /** The children themselves, which belong to the environment. */
    var child1: Child<O1>
    var child2: Child<O2>
    /** How often each child's cancel token was run. */
    ghost var cancels1: nat
    ghost var cancels2: nat
    /** The results handed to the caller: by `run` returning Done, or by the callback. */
    ghost var returned: seq<Output<O1, O2>>
    var calledBack: seq<Output<O1, O2>>
    /** Which child finished, in order; true is the first child. */
    ghost var order: seq<bool>
    /** `run` has returned. */
    ghost var started: bool
    /** In `run`, the second child finished and the first then finished inside its cancel. */
    ghost var overtaken: bool

    constructor (cancelIfFirst: O1 -> bool, cancelIfSecond: O2 -> bool)
      ensures Fresh()
    {
      first, second, interrupt := Ready, Ready, false;
      this.cancelIfFirst, this.cancelIfSecond := cancelIfFirst, cancelIfSecond;
      child1, child2, cancels1, cancels2 := NotStarted, NotStarted, 0, 0;
      returned, calledBack, order := [], [], [];
      started, overtaken := false, false;
    }

    ghost predicate Fresh()
      reads this
    {
      && first == Ready && second == Ready && !interrupt
      && child1 == NotStarted && child2 == NotStarted && cancels1 == 0 && cancels2 == 0
      && returned == [] && calledBack == [] && order == []
      && !started && !overtaken
    }

    /** Both children were started and no result was handed over yet. */
    ghost predicate Waiting()
      reads this
    {
      && child1 != NotStarted && child2 != NotStarted
      && returned == [] && calledBack == []
      && (child1.Finished? ==> first == Done(child1.value))
      && (child2.Finished? ==> second == Done(child2.value))
      && (child1.InProgress? ==> (first == Pending && cancels1 == 0) || first == Empty)
      && (child2.InProgress? ==> (second == Pending && cancels2 == 0) || second == Empty)
      // With both in progress, either both tokens are here or a cancel took both and
      // the next completion must not look for the other token.
      && (child1.InProgress? && child2.InProgress? ==>
            if interrupt then first == Empty && second == Empty else first == Pending && second == Pending)
      && cancels1 <= 1 && cancels2 <= 1
      && order == FinishOrder()
      && !overtaken
    }

    ghost function FinishOrder(): (r: seq<bool>)
      reads this
    {
      if child1.Finished? && child2.Finished? then order
      else if child1.Finished? then [true]
      else if child2.Finished? then [false]
      else []
    }

    /** The one result, after every started child has finished, with what they returned. */
    ghost predicate Delivered()
      reads this
    {
      && |returned| + |calledBack| == 1
      && child1.Finished? && !child2.InProgress?
      && |order| == (if child2.Finished? then 2 else 1) && (child2.NotStarted? ==> order == [true])
      && Result().first == Some(child1.value)
      && Result().second == (if child2.Finished? then Some(child2.value) else None)
      // The flag names a child that has a result: what `Select::from_branch` relies on.
      && (if Result().isFirst then Result().first.Some? else Result().second.Some?)
      // It is the child that finished first, except on one path.
      && (Result().isFirst == order[0] <==> !overtaken)
      && cancels1 <= 1 && cancels2 <= 1
    }

    ghost function Result(): (r: Output<O1, O2>)
      requires |returned| + |calledBack| == 1
      reads this
    {
      if |returned| == 1 then returned[0] else calledBack[0]
    }

    /** Between calls from outside: waiting with a child in progress, or delivered. */
    ghost predicate Valid()
      reads this
    {
      && started
      && (Delivered() || (Waiting() && (child1.InProgress? || child2.InProgress?)))
      && (interrupt && !Delivered() ==> child1.InProgress? && child2.InProgress?)
      // A missing token was run.
      && (child1.InProgress? && first == Empty ==> cancels1 == 1)
      && (child2.InProgress? && second == Empty ==> cancels2 == 1)
    }

    /** How many children are still in progress. */
    ghost function Open(): (r: nat)
      reads this
    {
      (if child1.InProgress? then 1 else 0) + (if child2.InProgress? then 1 else 0)
    }

    // ----- completions

    /** `Request::complete` on the caller's request, with both results. */
    method CallBack(isFirst: bool)
      requires first.Done? && second.Done?
      modifies this`first, this`second, this`calledBack
      ensures calledBack == old(calledBack) + [Output(isFirst, Some(old(first).value), Some(old(second).value))]
    {
      var a, b := first.value, second.value;
      first, second := Empty, Empty;
      calledBack := calledBack + [Output(isFirst, Some(a), Some(b))];
    }

    /** `complete_single`, after the child's result was stored.  `c` and `k` say what the
        children do if they are cancelled now. */
    method CompleteSingle(isFirst: bool, shouldCancel: bool, c: CancelScript<O1>, k: CancelScript<O2>)
      requires Waiting() && Open() <= 1
      requires if isFirst then child1.Finished? else child2.Finished?
      requires Open() == 0 ==> |order| == 2 && order[1] == isFirst
      requires Open() == 1 && !interrupt && shouldCancel ==> if isFirst then second == Pending else first == Pending
      modifies this`first, this`second, this`interrupt, this`calledBack, this`child1, this`child2, this`cancels1,
        this`cancels2, this`order
      ensures old(interrupt) ==>
        && !interrupt && Waiting()
        && unchanged(`first, `second, `calledBack, `child1, `child2, `cancels1, `cancels2, `order)
      ensures !old(interrupt) ==> !interrupt
      // The last completion delivers, naming the other child as the first.
      ensures !old(interrupt) && old(Open()) == 0 ==>
        && unchanged(`child1, `child2, `cancels1, `cancels2, `order)
        && calledBack == [Output(!isFirst, Some(child1.value), Some(child2.value))]
      ensures !old(interrupt) && old(Open()) == 1 && !shouldCancel ==>
        Waiting() && unchanged(`first, `second, `calledBack, `child1, `child2, `cancels1, `cancels2, `order)
      // A first completion that asks for it runs the other token, once.
      ensures !old(interrupt) && old(Open()) == 1 && shouldCancel && isFirst ==>
        && unchanged(`child1, `cancels1) && cancels2 == 1
        && (if k.Inside? then child2 == Finished(k.value) && order == [true, false]
              && calledBack == [Output(true, Some(child1.value), Some(k.value))]
            else Waiting() && second == Empty && unchanged(`first, `child2, `order, `calledBack))
      ensures !old(interrupt) && old(Open()) == 1 && shouldCancel && !isFirst ==>
        && unchanged(`child2, `cancels2) && cancels1 == 1
        && (if c.Inside? then child1 == Finished(c.value) && order == [false, true]
              && calledBack == [Output(false, Some(c.value), Some(child2.value))]
            else Waiting() && first == Empty && unchanged(`second, `child1, `order, `calledBack))
      decreases Open(), 3
    {
      if interrupt {
        interrupt := false;
        return;
      }
      if first.Done? && second.Done? {
        CallBack(!isFirst);
        return;
      }
      if !shouldCancel {
        return;
      }
      if isFirst {
        CancelSecond(k);
      } else {
        CancelFirst(c);
      }
    }

    /** `run_cancel` with the first child's token, taken before: the child must be in
        progress, and the other finished or its callback must not look for the token. */
    method RunFirstCancel(c: CancelScript<O1>)
      requires Waiting() && child1.InProgress? && first == Empty && cancels1 == 0
      requires child2.Finished? || interrupt
      modifies this`first, this`second, this`interrupt, this`calledBack, this`child1, this`child2, this`cancels1,
        this`cancels2, this`order
      ensures cancels1 == 1 && unchanged(`child2, `cancels2)
      ensures c.Later? ==> Waiting() && unchanged(`first, `second, `interrupt, `child1, `order, `calledBack)
      ensures c.Inside? ==> !interrupt && child1 == Finished(c.value) && order == old(order) + [true]
      ensures c.Inside? && old(interrupt) ==> Waiting() && unchanged(`second, `calledBack) && first == Done(c.value)
      ensures c.Inside? && !old(interrupt) ==> calledBack == [Output(false, Some(c.value), Some(old(child2).value))]
      decreases Open(), 1
    {
      cancels1 := cancels1 + 1;
      if c.Inside? {
        CompleteFirst(c.value, Later);
      }
    }

    method RunSecondCancel(k: CancelScript<O2>)
      requires Waiting() && child2.InProgress? && second == Empty && cancels2 == 0
      requires child1.Finished? || interrupt
      modifies this`first, this`second, this`interrupt, this`calledBack, this`child1, this`child2, this`cancels1,
        this`cancels2, this`order
      ensures cancels2 == 1 && unchanged(`child1, `cancels1)
      ensures k.Later? ==> Waiting() && unchanged(`first, `second, `interrupt, `child2, `order, `calledBack)
      ensures k.Inside? ==> !interrupt && child2 == Finished(k.value) && order == old(order) + [false]
      ensures k.Inside? && old(interrupt) ==> Waiting() && unchanged(`first, `calledBack) && second == Done(k.value)
      ensures k.Inside? && !old(interrupt) ==> calledBack == [Output(true, Some(old(child1).value), Some(k.value))]
      decreases Open(), 1
    {
      cancels2 := cancels2 + 1;
      if k.Inside? {
        CompleteSecond(k.value, Later);
      }
    }

    /** `FutureHandle::cancel`, on a child whose token must still be there. */
    method CancelFirst(c: CancelScript<O1>)
      requires Waiting() && first == Pending && child2.Finished?
      modifies this`first, this`second, this`interrupt, this`calledBack, this`child1, this`child2, this`cancels1,
        this`cancels2, this`order
      ensures cancels1 == 1 && unchanged(`child2, `cancels2)
      ensures c.Later? ==> Waiting() && first == Empty && unchanged(`second, `interrupt, `child1, `order, `calledBack)
      ensures c.Inside? ==> !interrupt && child1 == Finished(c.value) && order == [false, true]
      ensures c.Inside? && old(interrupt) ==> Waiting() && unchanged(`second, `calledBack) && first == Done(c.value)
      ensures c.Inside? && !old(interrupt) ==> calledBack == [Output(false, Some(c.value), Some(child2.value))]
      decreases Open(), 2
    {
      first := Empty;
      RunFirstCancel(c);
    }

    method CancelSecond(k: CancelScript<O2>)
      requires Waiting() && second == Pending && child1.Finished?
      modifies this`first, this`second, this`interrupt, this`calledBack, this`child1, this`child2, this`cancels1,
        this`cancels2, this`order
      ensures cancels2 == 1 && unchanged(`child1, `cancels1)
      ensures k.Later? ==> Waiting() && second == Empty && unchanged(`first, `interrupt, `child2, `order, `calledBack)
      ensures k.Inside? ==> !interrupt && child2 == Finished(k.value) && order == [true, false]
      ensures k.Inside? && old(interrupt) ==> Waiting() && unchanged(`first, `calledBack) && second == Done(k.value)
      ensures k.Inside? && !old(interrupt) ==> calledBack == [Output(true, Some(child1.value), Some(k.value))]
      decreases Open(), 2
    {
      second := Empty;
      RunSecondCancel(k);
    }

    /** The first child's callback; it fires once, while the child is in progress. */
    method CompleteFirst(v: O1, k: CancelScript<O2>)
      requires Waiting() && child1.InProgress?
      modifies this`first, this`second, this`interrupt, this`calledBack, this`child1, this`child2, this`cancels1,
        this`cancels2, this`order
      ensures child1 == Finished(v) && !interrupt && unchanged(`cancels1)
      ensures old(interrupt) || (old(child2.InProgress?) && !cancelIfFirst(v)) ==>
        Waiting() && first == Done(v) && order == old(order) + [true]
          && unchanged(`second, `child2, `cancels2, `calledBack)
      ensures !old(interrupt) && old(child2.Finished?) ==>
        order == [false, true] && calledBack == [Output(false, Some(v), Some(old(child2).value))]
          && unchanged(`child2, `cancels2)
      ensures !old(interrupt) && old(child2.InProgress?) && cancelIfFirst(v) ==>
        && cancels2 == 1
        && (if k.Inside? then child2 == Finished(k.value) && order == [true, false]
              && calledBack == [Output(true, Some(v), Some(k.value))]
            else Waiting() && first == Done(v) && second == Empty && order == [true] && unchanged(`child2, `calledBack))
      decreases Open(), 0
    {
      child1, order := Finished(v), order + [true];
      first := Done(v);
      CompleteSingle(true, cancelIfFirst(v), Later, k);
    }

    method CompleteSecond(w: O2, c: CancelScript<O1>)
      requires Waiting() && child2.InProgress?
      modifies this`first, this`second, this`interrupt, this`calledBack, this`child1, this`child2, this`cancels1,
        this`cancels2, this`order
      ensures child2 == Finished(w) && !interrupt && unchanged(`cancels2)
      ensures old(interrupt) || (old(child1.InProgress?) && !cancelIfSecond(w)) ==>
        Waiting() && second == Done(w) && order == old(order) + [false]
          && unchanged(`first, `child1, `cancels1, `calledBack)
      ensures !old(interrupt) && old(child1.Finished?) ==>
        order == [true, false] && calledBack == [Output(true, Some(old(child1).value), Some(w))]
          && unchanged(`child1, `cancels1)
      ensures !old(interrupt) && old(child1.InProgress?) && cancelIfSecond(w) ==>
        && cancels1 == 1
        && (if c.Inside? then child1 == Finished(c.value) && order == [false, true]
              && calledBack == [Output(false, Some(c.value), Some(w))]
            else
              && Waiting() && second == Done(w) && first == Empty && order == [false]
              && unchanged(`child1, `calledBack))
      decreases Open(), 0
    {
      child2, order := Finished(w), order + [false];
      second := Done(w);
      CompleteSingle(false, cancelIfSecond(w), c, Later);
    }

    // ----- run and cancel

    /** The part of `run` after the second child finished at once. */
    method FinishSecond(w: O2, c: CancelScript<O1>) returns (result: Option<Output<O1, O2>>)
      requires started && second == Ready && child2 == NotStarted && !interrupt && !overtaken
      requires returned == [] && calledBack == [] && cancels1 == 0 && cancels2 == 0
      requires if child1.InProgress? then first == Pending && order == []
        else child1.Finished? && first == Done(child1.value) && order == [true]
      modifies this
      ensures Valid() && child2 == Finished(w) && !interrupt && calledBack == []
      ensures child1 ==
        if old(child1.InProgress?) && cancelIfSecond(w) && c.Inside? then Finished(c.value) else old(child1)
      ensures returned == (if result.Some? then [result.value] else [])
      ensures result.Some? <==> old(child1.Finished?) || (cancelIfSecond(w) && c.Inside?)
      ensures overtaken <==> old(child1.InProgress?) && cancelIfSecond(w) && c.Inside?
      ensures cancels1 == (if old(child1.InProgress?) && cancelIfSecond(w) then 1 else 0) && cancels2 == 0
    {
      second, child2, order := Done(w), Finished(w), order + [false];
      var done := first.Done?;
      if !done && cancelIfSecond(w) {
        interrupt := true;
        CancelFirst(c);
        if !interrupt {
          done, overtaken := true, true;
        }
        interrupt := false;
      }
      result := None;
      if done {
        result := Some(Output(done, Some(first.value), Some(second.value)));
        first, second := Empty, Empty;
        returned := [result.value];
      }
    }

    /** `run`.  `c` says what the first child does if it is cancelled here. */
    method Run(r1: RunScript<O1>, r2: RunScript<O2>, c: CancelScript<O1>) returns (result: Option<Output<O1, O2>>)
      requires Fresh()
      modifies this
      ensures Valid()
      ensures returned == (if result.Some? then [result.value] else []) && calledBack == []
      ensures child1 ==
        (match r1
         case Finishes(v) => Finished(v)
         case Starts =>
           if r2.Finishes? && cancelIfSecond(r2.value) && c.Inside? then Finished(c.value) else InProgress)
      ensures !child2.NotStarted? ==> child2 == if r2.Finishes? then Finished(r2.value) else InProgress
      // The second child is left out exactly when the first finished at once and asked for it.
      ensures child2.NotStarted? <==> r1.Finishes? && cancelIfFirst(r1.value)
      ensures child2.NotStarted? ==> result == Some(Output(true, Some(r1.value), None))
      ensures !child2.NotStarted? ==>
        (result.Some? <==> r2.Finishes? && (r1.Finishes? || (cancelIfSecond(r2.value) && c.Inside?)))
      ensures overtaken <==> r1.Starts? && r2.Finishes? && cancelIfSecond(r2.value) && c.Inside?
      ensures cancels1 == (if r1.Starts? && r2.Finishes? && cancelIfSecond(r2.value) then 1 else 0) && cancels2 == 0
      ensures !interrupt
    {
      started := true;
      result := None;
      match r1 {
        case Finishes(v) =>
          first, child1, order := Done(v), Finished(v), [true];
          if cancelIfFirst(v) {
            first := Empty;
            result := Some(Output(true, Some(v), None));
            returned := [result.value];
            return;
          }
        case Starts =>
          first, child1 := Pending, InProgress;
      }
      match r2 {
        case Finishes(w) =>
          result := FinishSecond(w, c);
        case Starts =>
          second, child2 := Pending, InProgress;
      }
    }

    /** `cancel_all`, the cancel of the branch itself. */
    method CancelAll(c: CancelScript<O1>, k: CancelScript<O2>)
      requires Valid() && !Delivered()
      modifies this`first, this`second, this`interrupt, this`calledBack, this`child1, this`child2, this`cancels1,
        this`cancels2, this`order
      ensures Valid()
      // Every child in progress was asked to stop, once, now or before.
      ensures old(child1).InProgress? ==> cancels1 == 1
      ensures old(child2).InProgress? ==> cancels2 == 1
      ensures old(child1).InProgress? && old(cancels1) == 0 && c.Inside? ==> child1 == Finished(c.value)
      ensures old(child2).InProgress? && old(cancels2) == 0 && k.Inside? ==> child2 == Finished(k.value)
      ensures !(old(child1).InProgress? && old(cancels1) == 0 && c.Inside?) ==> unchanged(`child1)
      ensures !(old(child2).InProgress? && old(cancels2) == 0 && k.Inside?) ==> unchanged(`child2)
      ensures Delivered() <==> Open() == 0
    {
      var token1, token2 := first.Pending?, second.Pending?;
      if token1 { first := Empty; }
      if token2 { second := Empty; }
      if token1 && token2 {
        interrupt := true;
      }
      if token1 {
        RunFirstCancel(c);
      }
      if token2 {
        RunSecondCancel(k);
      }
    }

    /** Whether the environment may do this now: a callback fires only for a child in
        progress, and a branch that has delivered is not cancelled. */
    predicate Legal(e: Event<O1, O2>)
      reads this
    {
      match e
      case FirstFinishes(_, _) => child1.InProgress?
      case SecondFinishes(_, _) => child2.InProgress?
      case CancelBoth(_, _) => child1.InProgress? || child2.InProgress?
    }

    /** A whole life: `run`, then any events, those the environment cannot cause skipped. */
    method Drive(r1: RunScript<O1>, r2: RunScript<O2>, c: CancelScript<O1>, events: seq<Event<O1, O2>>)
      returns (result: Option<Output<O1, O2>>)
      requires Fresh()
      modifies this
      ensures Valid() && (Delivered() <==> Open() == 0)
      ensures returned == (if result.Some? then [result.value] else [])
      ensures |returned| + |calledBack| == (if Open() == 0 then 1 else 0)
      ensures cancels1 <= 1 && cancels2 <= 1
      // The reported order is right except when the second child finished inside `run`,
      // asked for a cancel, and the first finished inside that cancel.
      ensures Open() == 0 ==>
        (Result().isFirst == order[0] <==> !(r1.Starts? && r2.Finishes? && cancelIfSecond(r2.value) && c.Inside?))
    {
      result := Run(r1, r2, c);
      for i := 0 to |events|
        invariant Valid() && returned == (if result.Some? then [result.value] else [])
        invariant overtaken <==> r1.Starts? && r2.Finishes? && cancelIfSecond(r2.value) && c.Inside?
      {
        if Legal(events[i]) {
          match events[i] {
            case FirstFinishes(v, k) => CompleteFirst(v, k);
            case SecondFinishes(w, c') => CompleteSecond(w, c');
            case CancelBoth(c', k) => CancelAll(c', k);
          }
        }
      }
    }
  }
}
