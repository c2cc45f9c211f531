/** Running what `select!` generates: a tree of branches whose children are branches or tasks.

    The children of a `Branch` are whatever its environment makes them.  Here they are made
    branches themselves, so that every call that one branch makes on its child is a call that
    the child's contract allows, and what the child answers is what the parent expects. */
module SelectRun {
  import opened Wrappers
  import opened Select
  import B = Branch

  /** A task of that number, or a branch over two futures. */
  datatype Fut<V> =
    | Lone(i: nat)
    | Both(k: nat, b: B.Branch<Value<V>, Value<V>>, left: Fut<V>, right: Fut<V>)

  /** What each task does if it is run, or cancelled, now. */
  datatype Plan<!V> = Plan(runs: nat -> B.RunScript<V>, stops: nat -> B.CancelScript<V>)

  datatype Event<!V> = TaskFinishes(i: nat, v: V, plan: Plan<V>) | Cancel(plan: Plan<V>)

  function Shape<V>(f: Fut<V>): (t: Tree) {
    match f
    case Lone(i) => Leaf(i)
    case Both(k, _, l, r) => Node(k, Shape(l), Shape(r))
  }

  function Objects<V>(f: Fut<V>): (os: set<object>) {
    match f
    case Lone(_) => {}
    case Both(_, b, l, r) => {b} + Objects(l) + Objects(r)
  }

  ghost predicate Apart<V>(f: Fut<V>) {
    match f
    case Lone(_) => true
    case Both(_, b, l, r) =>
      && b !in Objects(l) && b !in Objects(r) && Objects(l) !! Objects(r)
      && Apart(l) && Apart(r)
  }

  function ValueOf<V>(o: B.Output<Value<V>, Value<V>>): (v: Value<V>) {
    Output(o.isFirst, o.first, o.second)
  }

  /** A branch was not started, or has a child in progress and delivered nothing, or has
      delivered that value, once. */
  ghost predicate BranchIs<V>(b: B.Branch<Value<V>, Value<V>>, c: B.Child<Value<V>>)
    reads b
  {
    match c
    case NotStarted => b.Fresh()
    case InProgress => b.Valid() && !b.Delivered()
    case Finished(v) => b.Valid() && b.Delivered() && v == ValueOf(b.Result())
  }

  /** The future is where its parent takes it to be. */
  ghost predicate Is<V>(f: Fut<V>, c: B.Child<Value<V>>)
    reads Objects(f)
  {
    match f
    case Lone(_) => c.Finished? ==> c.value.Plain?
    case Both(_, b, l, r) => BranchIs(b, c) && Is(l, b.child1) && Is(r, b.child2)
  }

  function Started<V>(r: B.RunScript<Value<V>>): (c: B.Child<Value<V>>) {
    if r.Finishes? then B.Finished(r.value) else B.InProgress
  }

  function Stopped<V>(k: B.CancelScript<Value<V>>): (c: B.Child<Value<V>>) {
    if k.Inside? then B.Finished(k.value) else B.InProgress
  }

  function Answered<V>(o: Option<Value<V>>): (c: B.Child<Value<V>>) {
    if o.Some? then B.Finished(o.value) else B.InProgress
  }

  /** The branches of a tree are there already. */
  lemma Allocated<V>(f: Fut<V>)
    ensures forall o :: o in Objects(f) ==> allocated(o)
  {
    match f
    case Lone(_) =>
    case Both(_, b, l, r) =>
      Allocated(l);
      Allocated(r);
      assert allocated(b);
  }

  // ----- one branch, whose children have answered

  method RunBranch<V>(b: B.Branch<Value<V>, Value<V>>, r1: B.RunScript<Value<V>>, r2: B.RunScript<Value<V>>,
      c: B.CancelScript<Value<V>>)
    returns (r: B.RunScript<Value<V>>)
    requires BranchIs(b, B.NotStarted)
    modifies b
    ensures BranchIs(b, Started(r))
    ensures b.child1 ==
      (if r1.Starts? && r2.Finishes? && b.cancelIfSecond(r2.value) then Stopped(c) else Started(r1))
    ensures b.child2 == if r1.Finishes? && b.cancelIfFirst(r1.value) then B.NotStarted else Started(r2)
  {
    var result := b.Run(r1, r2, c);
    r := if result.Some? then B.Finishes(ValueOf(result.value)) else B.Starts;
  }

  method CancelBranch<V>(b: B.Branch<Value<V>, Value<V>>, c1: B.CancelScript<Value<V>>, c2: B.CancelScript<Value<V>>)
    returns (k: B.CancelScript<Value<V>>)
    requires BranchIs(b, B.InProgress)
    requires (c1.Inside? ==> b.first.Pending?) && (c2.Inside? ==> b.second.Pending?)
    modifies b
    ensures BranchIs(b, Stopped(k))
    ensures b.child1 == if c1.Inside? then Stopped(c1) else old(b.child1)
    ensures b.child2 == if c2.Inside? then Stopped(c2) else old(b.child2)
  {
    b.CancelAll(c1, c2);
    k := if b.calledBack != [] then B.Inside(ValueOf(b.calledBack[0])) else B.Later;
  }

  /** Whether the branch will cancel its second child when the first one finishes so. */
  predicate StopsSecond<V>(b: B.Branch<Value<V>, Value<V>>, v: Value<V>)
    reads b
  {
    !b.interrupt && b.child2.InProgress? && b.cancelIfFirst(v)
  }

  predicate StopsFirst<V>(b: B.Branch<Value<V>, Value<V>>, w: Value<V>)
    reads b
  {
    !b.interrupt && b.child1.InProgress? && b.cancelIfSecond(w)
  }

  method FinishFirst<V>(b: B.Branch<Value<V>, Value<V>>, v: Value<V>, k: B.CancelScript<Value<V>>)
    returns (out: Option<Value<V>>)
    requires BranchIs(b, B.InProgress) && b.child1.InProgress?
    modifies b
    ensures BranchIs(b, Answered(out)) && b.child1 == B.Finished(v)
    ensures b.child2 == if old(StopsSecond(b, v)) then Stopped(k) else old(b.child2)
  {
    b.CompleteFirst(v, k);
    out := if b.calledBack != [] then Some(ValueOf(b.calledBack[0])) else None;
  }

  method FinishSecond<V>(b: B.Branch<Value<V>, Value<V>>, w: Value<V>, c: B.CancelScript<Value<V>>)
    returns (out: Option<Value<V>>)
    requires BranchIs(b, B.InProgress) && b.child2.InProgress?
    modifies b
    ensures BranchIs(b, Answered(out)) && b.child2 == B.Finished(w)
    ensures b.child1 == if old(StopsFirst(b, w)) then Stopped(c) else old(b.child1)
  {
    b.CompleteSecond(w, c);
    out := if b.calledBack != [] then Some(ValueOf(b.calledBack[0])) else None;
  }

  // ----- the whole tree

  /** `run`. */
  method Start<V>(f: Fut<V>, plan: Plan<V>) returns (r: B.RunScript<Value<V>>)
    requires Apart(f) && Is(f, B.NotStarted)
    modifies Objects(f)
    ensures Is(f, Started(r))
    decreases f, 0
  {
    match f {
      case Lone(i) =>
        r := match plan.runs(i) case Finishes(v) => B.Finishes(Plain(v)) case Starts => B.Starts;
      case Both(_, b, left, right) =>
        Allocated(left);
        Allocated(right);
        assert b.child1 == B.NotStarted && b.child2 == B.NotStarted;
        var r1 := Start(left, plan);
        r := StartRest(b, left, right, r1, plan);
    }
  }

  /** The second child is run unless the first one finished and asked for a cancel, and the first
      one is cancelled if the second one asks for that. */
  method StartRest<V>(b: B.Branch<Value<V>, Value<V>>, left: Fut<V>, right: Fut<V>, r1: B.RunScript<Value<V>>,
      plan: Plan<V>)
    returns (r: B.RunScript<Value<V>>)
    requires Apart(Both(0, b, left, right)) && Is(left, Started(r1)) && Is(right, B.NotStarted)
    requires BranchIs(b, B.NotStarted)
    modifies b, Objects(left), Objects(right)
    ensures BranchIs(b, Started(r)) && Is(left, b.child1) && Is(right, b.child2)
    decreases right, 1
  {
    Allocated(left);
    Allocated(right);
    var r2 := B.Starts;
    if !(r1.Finishes? && b.cancelIfFirst(r1.value)) {
      r2 := Start(right, plan);
    }
    var c := StopIf(r1.Starts? && r2.Finishes? && b.cancelIfSecond(r2.value), left, Started(r1), plan);
    r := RunBranch(b, r1, r2, c);
  }

  /** The cancel token, while the future is in progress. */
  method Stop<V>(f: Fut<V>, plan: Plan<V>) returns (k: B.CancelScript<Value<V>>)
    requires Apart(f) && Is(f, B.InProgress)
    modifies Objects(f)
    ensures Is(f, Stopped(k))
    decreases f, 0
  {
    match f {
      case Lone(i) =>
        k := match plan.stops(i) case Inside(v) => B.Inside(Plain(v)) case Later => B.Later;
      case Both(_, b, left, right) =>
        Allocated(left);
        Allocated(right);
        assert b.first.Pending? ==> b.child1 == B.InProgress;
        assert b.second.Pending? ==> b.child2 == B.InProgress;
        var c1 := StopIf(b.first.Pending?, left, b.child1, plan);
        var c2 := StopIf(b.second.Pending?, right, b.child2, plan);
        k := CancelBranch(b, c1, c2);
    }
  }

  method StopIf<V>(stop: bool, f: Fut<V>, ghost c: B.Child<Value<V>>, plan: Plan<V>)
    returns (k: B.CancelScript<Value<V>>)
    requires Apart(f) && Is(f, c) && (stop ==> c.InProgress?)
    modifies Objects(f)
    ensures Is(f, if stop then Stopped(k) else c) && (!stop ==> k == B.Later)
    decreases f, 1
  {
    k := B.Later;
    if stop {
      k := Stop(f, plan);
    }
  }

  /** The callback of task `i` fires, if that task is in progress: it goes up the tree for as
      long as a branch has its result by it. */
  method Finish<V>(f: Fut<V>, i: nat, v: V, plan: Plan<V>) returns (out: Option<Value<V>>)
    requires Apart(f) && Is(f, B.InProgress)
    modifies Objects(f)
    ensures Is(f, Answered(out))
    decreases f, 0
  {
    out := None;
    match f {
      case Lone(j) =>
        out := if i == j then Some(Plain(v)) else None;
      case Both(_, b, left, right) =>
        if i in Leaves(Shape(left)) {
          if b.child1.InProgress? {
            out := FinishLeft(b, left, right, i, v, plan);
          }
        } else if b.child2.InProgress? {
          out := FinishRight(b, left, right, i, v, plan);
        }
    }
  }

  method FinishLeft<V>(b: B.Branch<Value<V>, Value<V>>, left: Fut<V>, right: Fut<V>, i: nat, v: V, plan: Plan<V>)
    returns (out: Option<Value<V>>)
    requires Apart(Both(0, b, left, right)) && Is(left, b.child1) && Is(right, b.child2)
    requires BranchIs(b, B.InProgress) && b.child1.InProgress?
    modifies b, Objects(left), Objects(right)
    ensures BranchIs(b, Answered(out)) && Is(left, b.child1) && Is(right, b.child2)
    decreases left, 1
  {
    Allocated(left);
    Allocated(right);
    out := None;
    var sub := Finish(left, i, v, plan);
    if sub.Some? {
      out := LeftFinished(b, left, right, sub.value, plan);
    }
  }

  /** The first child is through, and the branch may cancel the other one. */
  method LeftFinished<V>(b: B.Branch<Value<V>, Value<V>>, left: Fut<V>, right: Fut<V>, v: Value<V>, plan: Plan<V>)
    returns (out: Option<Value<V>>)
    requires Apart(Both(0, b, left, right)) && Is(left, B.Finished(v)) && Is(right, b.child2)
    requires BranchIs(b, B.InProgress) && b.child1.InProgress?
    modifies b, Objects(right)
    ensures BranchIs(b, Answered(out)) && Is(left, b.child1) && Is(right, b.child2)
  {
    Allocated(left);
    Allocated(right);
    var stop := StopIf(StopsSecond(b, v), right, b.child2, plan);
    out := FinishFirst(b, v, stop);
  }

  method FinishRight<V>(b: B.Branch<Value<V>, Value<V>>, left: Fut<V>, right: Fut<V>, i: nat, v: V, plan: Plan<V>)
    returns (out: Option<Value<V>>)
    requires Apart(Both(0, b, left, right)) && Is(left, b.child1) && Is(right, b.child2)
    requires BranchIs(b, B.InProgress) && b.child2.InProgress?
    modifies b, Objects(left), Objects(right)
    ensures BranchIs(b, Answered(out)) && Is(left, b.child1) && Is(right, b.child2)
    decreases right, 1
  {
    Allocated(left);
    Allocated(right);
    out := None;
    var sub := Finish(right, i, v, plan);
    if sub.Some? {
      out := RightFinished(b, left, right, sub.value, plan);
    }
  }

  /** The second child is through, and the branch may cancel the other one. */
  method RightFinished<V>(b: B.Branch<Value<V>, Value<V>>, left: Fut<V>, right: Fut<V>, v: Value<V>, plan: Plan<V>)
    returns (out: Option<Value<V>>)
    requires Apart(Both(0, b, left, right)) && Is(right, B.Finished(v)) && Is(left, b.child1)
    requires BranchIs(b, B.InProgress) && b.child2.InProgress?
    modifies b, Objects(left)
    ensures BranchIs(b, Answered(out)) && Is(left, b.child1) && Is(right, b.child2)
  {
    Allocated(left);
    Allocated(right);
    var stop := StopIf(StopsFirst(b, v), left, b.child1, plan);
    out := FinishSecond(b, v, stop);
  }

  // ----- what is delivered

  /** Task `i` of the future has finished with `v`. */
  ghost predicate Gave<V>(f: Fut<V>, c: B.Child<Value<V>>, i: nat, v: V)
    reads Objects(f)
  {
    match f
    case Lone(j) => i == j && c == B.Finished(Plain(v))
    case Both(_, b, l, r) => Gave(l, b.child1, i, v) || Gave(r, b.child2, i, v)
  }

  /** What a tree of branches delivers fits the tree, and the task to which the flags lead has
      finished, with the value that is found there. */
  lemma {:induction false} DeliveredFits<V>(f: Fut<V>, c: B.Child<Value<V>>)
    requires Is(f, c) && c.Finished?
    ensures Fits(c.value, Shape(f))
    ensures var (i, v) := Follow(c.value, Shape(f)); Gave(f, c, i, v)
    decreases f
  {
    match f
    case Lone(_) =>
    case Both(_, b, l, r) =>
      DeliveredFits(l, b.child1);
      if b.child2.Finished? {
        DeliveredFits(r, b.child2);
      }
  }

  /** Some task of the future is in progress. */
  ghost predicate Runs<V>(f: Fut<V>, c: B.Child<Value<V>>)
    reads Objects(f)
  {
    match f
    case Lone(_) => c.InProgress?
    case Both(_, b, l, r) => Runs(l, b.child1) || Runs(r, b.child2)
  }

  /** A tree is in progress exactly while one of its tasks is: it neither waits for nothing nor
      leaves a task behind. */
  lemma {:induction false} InProgressWhileTasksRun<V>(f: Fut<V>, c: B.Child<Value<V>>)
    requires Is(f, c)
    ensures Runs(f, c) <==> c.InProgress?
    decreases f
  {
    match f
    case Lone(_) =>
    case Both(_, b, l, r) =>
      InProgressWhileTasksRun(l, b.child1);
      InProgressWhileTasksRun(r, b.child2);
  }

  /** The branches of a tree, not started; `cancels` are their closures. */
  method Build<V>(t: Tree, cancels: nat -> (Value<V> -> bool, Value<V> -> bool)) returns (f: Fut<V>)
    ensures fresh(Objects(f)) && Apart(f) && Is(f, B.NotStarted) && Shape(f) == t
    decreases t
  {
    match t {
      case Leaf(i) => f := Lone(i);
      case Node(k, l, r) =>
        var left := Build(l, cancels);
        Allocated(left);
        var right := Build(r, cancels);
        Allocated(right);
        var b := new B.Branch<Value<V>, Value<V>>(cancels(k).0, cancels(k).1);
        f := Both(k, b, left, right);
    }
  }

  /** A whole life of a tree of branches, whatever its tasks do: it delivers once none of its
      tasks is in progress, and then what it delivers fits it, and the generated code assigns exactly once, the value of
      a task that has finished with it. */
  method Drive<V>(t: Tree, cancels: nat -> (Value<V> -> bool, Value<V> -> bool), plan: Plan<V>, events: seq<Event<V>>)
    returns (f: Fut<V>, out: Option<Value<V>>)
    ensures fresh(Objects(f)) && Shape(f) == t && Is(f, Answered(out))
    ensures out == None <==> Runs(f, Answered(out))
    ensures out.Some? ==>
      && Fits(out.value, t) && Eval(FirstCode(t), out.value, None) == Some([Follow(out.value, t)])
      && var (i, v) := Follow(out.value, t); Gave(f, Answered(out), i, v)
  {
    f := Build(t, cancels);
    Allocated(f);
    var r := Start(f, plan);
    out := if r.Finishes? then Some(r.value) else None;
    var e := 0;
    while e < |events| && out == None
      invariant e <= |events| && Is(f, Answered(out))
    {
      match events[e] {
        case TaskFinishes(i, v, p) => out := Finish(f, i, v, p);
        case Cancel(p) =>
          var k := Stop(f, p);
          out := if k.Inside? then Some(k.value) else None;
      }
      e := e + 1;
    }
    InProgressWhileTasksRun(f, Answered(out));
    if out.Some? {
      DeliveredFits(f, Answered(out));
      DecodesOnce(t, out.value, None);
    }
  }
}
