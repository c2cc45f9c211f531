/** The `select!` macro of `macros/src/asynchronous/branch.rs`: it pairs n futures into a
    tree of branches and generates the code that finds, in the nested result, which future
    finished first.

    The generated code is a small language with an evaluator.  In its arms `result` and
    `other` are bound as the patterns of the source bind them.  Resuming a panic
    (`runtime::join`) is the identity here. */
module Select {
  import opened Wrappers
  import opened Bits

  /** What is run: one of the futures, or the branch of that number. */
  datatype Task = Future(i: nat) | RunBranch(k: nat)

  /** `let mut branchK = Branch::new(a, b, ..)`, K being its index. */
  datatype BranchVar = BranchVar(a: Task, b: Task)

  datatype Code =
    | Assign(i: nat)                                 // select_result = N_i(result)
    | Ignore                                         // let _ = other
    | Match(firstA: Code, secondB: Code, firstB: Code, secondA: Code)   // match from_branch(result)
    | IfOther(a: Code, b: Code)                      // if let Some(BranchOutput(_, a, b)) = other

  datatype Value<V> = Plain(v: V) | Output(isFirst: bool, a: Option<Value<V>>, b: Option<Value<V>>)

  /** The assignments to `select_result`, in order; None if the code would run into
      `unreachable_unchecked` or does not fit the value. */
  function Eval<V>(c: Code, result: Value<V>, other: Option<Value<V>>): (r: Option<seq<(nat, V)>>) {
    match c
    case Assign(i) => if result.Plain? then Some([(i, result.v)]) else None
    case Ignore => Some([])
    case Match(firstA, secondB, firstB, secondA) =>
      if result.Plain? then None
      else if result.isFirst && result.a.Some? then
        Then(Eval(firstA, result.a.value, result.b), Eval(secondB, result.a.value, result.b))
      else if !result.isFirst && result.b.Some? then
        Then(Eval(firstB, result.b.value, result.a), Eval(secondA, result.b.value, result.a))
      else None
    case IfOther(a, b) =>
      if other == None then Some([])
      else if other.value.Plain? then None
      else Then(Eval(a, result, other.value.a), Eval(b, result, other.value.b))
  }

  function Then<T>(s: Option<seq<T>>, t: Option<seq<T>>): (r: Option<seq<T>>) {
    if s.Some? && t.Some? then Some(s.value + t.value) else None
  }

  // ----- trees

  datatype Tree = Leaf(i: nat) | Node(k: nat, left: Tree, right: Tree)

  function TaskOf(t: Tree): (r: Task) {
    match t
    case Leaf(i) => Future(i)
    case Node(k, _, _) => RunBranch(k)
  }

  function Leaves(t: Tree): (r: seq<nat>) {
    match t
    case Leaf(i) => [i]
    case Node(_, l, r) => Leaves(l) + Leaves(r)
  }

  /** How often branch `k` occurs. */
  function Uses(t: Tree, k: nat): (r: nat) {
    match t
    case Leaf(_) => 0
    case Node(j, l, r) => (if j == k then 1 else 0) + Uses(l, k) + Uses(r, k)
  }

  function Depth(t: Tree): (r: nat) {
    match t
    case Leaf(_) => 0
    case Node(_, l, r) => 1 + Max(Depth(l), Depth(r))
  }

  function Max(a: nat, b: nat): (r: nat) {
    if a < b then b else a
  }

  /** The branch variables are those of the tree. */
  ghost predicate Declares(vars: seq<BranchVar>, t: Tree) {
    match t
    case Leaf(_) => true
    case Node(k, l, r) =>
      k < |vars| && vars[k] == BranchVar(TaskOf(l), TaskOf(r)) && Declares(vars, l) && Declares(vars, r)
  }

  function FirstCode(t: Tree): (r: Code) {
    match t
    case Leaf(i) => Assign(i)
    case Node(_, l, r) => Match(FirstCode(l), SecondCode(r), FirstCode(r), SecondCode(l))
  }

  function SecondCode(t: Tree): (r: Code) {
    match t
    case Leaf(_) => Ignore
    case Node(_, l, r) => IfOther(SecondCode(l), SecondCode(r))
  }

  // ----- the generated code is right

  /** A result a tree of branches can have: the child named by the flag has finished. */
  ghost predicate Fits<V>(v: Value<V>, t: Tree) {
    match t
    case Leaf(_) => v.Plain?
    case Node(_, l, r) =>
      && v.Output? && (v.a.Some? ==> Fits(v.a.value, l)) && (v.b.Some? ==> Fits(v.b.value, r))
      && (if v.isFirst then v.a.Some? else v.b.Some?)
  }

  ghost predicate FitsOption<V>(v: Option<Value<V>>, t: Tree) {
    v.Some? ==> Fits(v.value, t)
  }

  /** The future that the flags lead to, and its value. */
  function Follow<V>(v: Value<V>, t: Tree): (r: (nat, V))
    requires Fits(v, t)
  {
    match t
    case Leaf(i) => (i, v.v)
    case Node(_, l, r) => if v.isFirst then Follow(v.a.value, l) else Follow(v.b.value, r)
  }

  lemma NoMore<T>(s: seq<T>)
    ensures Then(Some(s), Some([])) == Some(s)
  {
    assert s + [] == s;
  }

  lemma {:induction false} SecondAssignsNothing<V>(t: Tree, result: Value<V>, other: Option<Value<V>>)
    requires FitsOption(other, t)
    ensures Eval(SecondCode(t), result, other) == Some([])
  {
    if !t.Node? || other.None? {
    } else {
      SecondAssignsNothing(t.left, result, other.value.a);
      SecondAssignsNothing(t.right, result, other.value.b);
      NoMore<(nat, V)>([]);
    }
  }

  /** Whatever the tree and the result, the code assigns exactly once: the variant of the
      future the flags lead to, with that future's value. */
  lemma {:induction false} DecodesOnce<V>(t: Tree, v: Value<V>, other: Option<Value<V>>)
    requires Fits(v, t)
    ensures Eval(FirstCode(t), v, other) == Some([Follow(v, t)])
    decreases t
  {
    match t {
      case Leaf(_) =>
      case Node(_, l, r) =>
        if v.isFirst {
          DecodesOnce(l, v.a.value, v.b);
          SecondAssignsNothing(r, v.a.value, v.b);
          NoMore([Follow(v, t)]);
        } else {
          DecodesOnce(r, v.b.value, v.a);
          SecondAssignsNothing(l, v.b.value, v.a);
          NoMore([Follow(v, t)]);
        }
    }
  }

  // ----- pairing

  /** An entry of the deque. */
  datatype Item = Item(task: Task, first: Code, second: Code)

  function ItemOf(t: Tree): (r: Item) {
    Item(TaskOf(t), FirstCode(t), SecondCode(t))
  }

  function Range(n: nat): (s: seq<nat>)
    ensures |s| == n && forall i :: 0 <= i < n ==> s[i] == i
  {
    seq(n, i => i)
  }

  function AllLeaves(ts: seq<Tree>): (r: seq<nat>) {
    if ts == [] then [] else Leaves(ts[0]) + AllLeaves(ts[1..])
  }

  function AllUses(ts: seq<Tree>, k: nat): (r: nat) {
    if ts == [] then 0 else Uses(ts[0], k) + AllUses(ts[1..], k)
  }

  lemma AssocSeq(a: seq<nat>, b: seq<nat>, c: seq<nat>)
    ensures a + (b + c) == a + b + c
  {
  }

  lemma {:induction false} LeavesConcat(s: seq<Tree>, t: seq<Tree>)
    ensures AllLeaves(s + t) == AllLeaves(s) + AllLeaves(t)
  {
    if s == [] {
      assert s + t == t;
    } else {
      LeavesConcat(s[1..], t);
      assert (s + t)[1..] == s[1..] + t;
      assert AllLeaves(s + t) == Leaves(s[0]) + (AllLeaves(s[1..]) + AllLeaves(t));
      AssocSeq(Leaves(s[0]), AllLeaves(s[1..]), AllLeaves(t));
    }
  }

  lemma {:induction false} UsesConcat(s: seq<Tree>, t: seq<Tree>, k: nat)
    ensures AllUses(s + t, k) == AllUses(s, k) + AllUses(t, k)
  {
    if s == [] {
      assert s + t == t;
    } else {
      UsesConcat(s[1..], t, k);
      assert (s + t)[1..] == s[1..] + t;
    }
  }

  /** The least number of halvings, rounding up, that leave one. */
  function CeilLog2(n: nat): (r: nat) {
    if n <= 1 then 0 else 1 + CeilLog2((n + 1) / 2)
  }

  /** It is the rounded-up logarithm. */
  lemma {:induction false} CeilLog2Bounds(n: nat)
    requires n >= 1
    ensures n <= Pow2(CeilLog2(n))
    ensures n >= 2 ==> CeilLog2(n) >= 1 && Pow2(CeilLog2(n) - 1) < n
  {
    if n < 2 {
    } else {
      CeilLog2Bounds((n + 1) / 2);
    }
  }

  lemma {:induction false} DeclaresMore(vars: seq<BranchVar>, t: Tree, v: BranchVar)
    requires Declares(vars, t)
    ensures Declares(vars + [v], t)
  {
    if !t.Node? {
    } else {
      DeclaresMore(vars, t.left, v);
      DeclaresMore(vars, t.right, v);
    }
  }

  /** The tasks in source order, and every branch once. */
  ghost predicate Accounts(ts: seq<Tree>, n: nat, branches: nat) {
    AllLeaves(ts) == Range(n) && forall k: nat :: AllUses(ts, k) == if k < branches then 1 else 0
  }

  /** The state of the deque: the trees still to be paired in this round, then those made in
      it, which have one level more. */
  ghost predicate Deque(futures: seq<Item>, vars: seq<BranchVar>, todo: seq<Tree>, made: seq<Tree>, n: nat, d: nat) {
    && futures == Items(todo + made)
    && Accounts(made + todo, n, |vars|)
    && |todo| + |made| + |vars| == n
    && (forall t :: t in todo ==> Depth(t) <= d && Declares(vars, t))
    && (forall t :: t in made ==> Depth(t) <= d + 1 && Declares(vars, t))
    && (if made == [] then todo != [] && Depth(todo[0]) == d else Depth(made[0]) == d + 1)
  }

  function Items(ts: seq<Tree>): (s: seq<Item>)
    ensures |s| == |ts| && forall i :: 0 <= i < |ts| ==> s[i] == ItemOf(ts[i])
  {
    seq(|ts|, i requires 0 <= i < |ts| => ItemOf(ts[i]))
  }

  lemma PairLeaves(todo: seq<Tree>, made: seq<Tree>, k: nat)
    requires |todo| >= 2
    ensures AllLeaves(made + [Node(k, todo[0], todo[1])] + todo[2..]) == AllLeaves(made + todo)
  {
    var node := [Node(k, todo[0], todo[1])];
    LeavesConcat(made, todo);
    LeavesConcat(made + node, todo[2..]);
    LeavesConcat(made, node);
    assert todo[1..][1..] == todo[2..];
    assert AllLeaves(node) == Leaves(todo[0]) + Leaves(todo[1]);
    assert AllLeaves(todo) == Leaves(todo[0]) + (Leaves(todo[1]) + AllLeaves(todo[2..]));
  }

  lemma PairUses(todo: seq<Tree>, made: seq<Tree>, j: nat, k: nat)
    requires |todo| >= 2
    ensures AllUses(made + [Node(j, todo[0], todo[1])] + todo[2..], k) ==
      AllUses(made + todo, k) + if j == k then 1 else 0
  {
    var node := [Node(j, todo[0], todo[1])];
    UsesConcat(made, todo, k);
    UsesConcat(made + node, todo[2..], k);
    UsesConcat(made, node, k);
    assert todo[1..][1..] == todo[2..];
  }

  lemma PairAccounts(todo: seq<Tree>, made: seq<Tree>, n: nat, k: nat)
    requires |todo| >= 2 && Accounts(made + todo, n, k)
    ensures Accounts(made + [Node(k, todo[0], todo[1])] + todo[2..], n, k + 1)
  {
    PairLeaves(todo, made, k);
    forall j: nat ensures AllUses(made + [Node(k, todo[0], todo[1])] + todo[2..], j) == if j < k + 1 then 1 else 0 {
      PairUses(todo, made, k, j);
    }
  }

  /** One turn of the inner loop. */
  lemma PairStep(futures: seq<Item>, vars: seq<BranchVar>, todo: seq<Tree>, made: seq<Tree>, n: nat, d: nat)
    requires Deque(futures, vars, todo, made, n, d) && |todo| >= 2
    ensures var node := Node(|vars|, todo[0], todo[1]);
      && futures[0] == ItemOf(todo[0]) && futures[1] == ItemOf(todo[1])
      && Deque(futures[2..] + [ItemOf(node)], vars + [BranchVar(futures[0].task, futures[1].task)], todo[2..],
        made + [node], n, d)
  {
    var node := Node(|vars|, todo[0], todo[1]);
    var v := BranchVar(TaskOf(todo[0]), TaskOf(todo[1]));
    assert todo[0] in todo && todo[1] in todo;
    PairAccounts(todo, made, n, |vars|);
    assert made + [node] + todo[2..] == (made + [node]) + todo[2..];
    forall t | t in todo || t in made ensures Declares(vars + [v], t) {
      DeclaresMore(vars, t, v);
    }
    assert Declares(vars + [v], node);
    assert futures[2..] + [ItemOf(node)] == Items(todo[2..] + (made + [node]));
  }

  /** An odd one out moves behind those made, where its leaves belong. */
  lemma RoundEnd(futures: seq<Item>, vars: seq<BranchVar>, todo: seq<Tree>, made: seq<Tree>, n: nat, d: nat)
    requires Deque(futures, vars, todo, made, n, d) && |todo| <= 1 && made != []
    ensures Deque(if todo == [] then futures else futures[1..] + [futures[0]], vars, made + todo, [], n, d + 1)
  {
    var trees := made + todo;
    assert [] + trees == trees == trees + [];
    if todo == [] {
      assert todo + made == trees;
    } else {
      Rotated(todo[0], made);
      assert todo == [todo[0]];
    }
  }

  lemma Rotated(x: Tree, made: seq<Tree>)
    ensures var f := Items([x] + made); f[1..] + [f[0]] == Items(made + [x])
  {
  }

  datatype Expansion = Expansion(vars: seq<BranchVar>, task: Task, code: Code)

  /** The expansion of a `select!` of n tasks, refused below two. */
  method Expand(n: nat) returns (r: Option<Expansion>, ghost tree: Tree)
    ensures r == None <==> n < 2
    ensures r.Some? ==> r.value.task == TaskOf(tree) && r.value.code == FirstCode(tree) && Declares(r.value.vars, tree)
    // n - 1 branches, each used once, with the tasks in source order.
    ensures r.Some? ==>
      && |r.value.vars| == n - 1 && Leaves(tree) == Range(n)
      && forall k: nat :: Uses(tree, k) == if k < n - 1 then 1 else 0
    ensures r.Some? ==> Depth(tree) == CeilLog2(n)
  {
    r, tree := None, Leaf(0);
    if n < 2 {
      return;
    }
    var futures, vars: seq<BranchVar>;
    ghost var trees, d: nat;
    futures, trees := Futures(n);
    vars, d := [], 0;
    assert trees + [] == trees && [] + trees == trees;
    while |futures| >= 2
      invariant |futures| >= 1 && Deque(futures, vars, trees, [], n, d) && d + CeilLog2(|futures|) == CeilLog2(n)
      decreases |futures|
    {
      futures, vars, trees := Round(futures, vars, trees, n, d);
      d := d + 1;
    }
    tree := trees[0];
    assert [] + trees == trees == [tree];
    Single(tree, n, |vars|);
    r := Some(Expansion(vars, futures[0].task, futures[0].first));
  }

  lemma Single(t: Tree, n: nat, k: nat)
    requires Accounts([t], n, k)
    ensures Leaves(t) == Range(n) && forall j: nat :: Uses(t, j) == if j < k then 1 else 0
  {
    assert AllLeaves([t]) == Leaves(t) + [];
    assert forall j: nat :: AllUses([t], j) == Uses(t, j);
  }

  method Futures(n: nat) returns (futures: seq<Item>, ghost trees: seq<Tree>)
    ensures |trees| == n && futures == Items(trees) && Accounts(trees, n, 0)
    ensures forall t :: t in trees ==> t.Leaf?
  {
    futures, trees := [], [];
    for i := 0 to n
      invariant |trees| == i && futures == Items(trees) && Accounts(trees, i, 0) && forall t :: t in trees ==> t.Leaf?
    {
      futures := futures + [Item(Future(i), Assign(i), Ignore)];
      LeavesConcat(trees, [Leaf(i)]);
      forall k: nat ensures AllUses(trees + [Leaf(i)], k) == 0 {
        UsesConcat(trees, [Leaf(i)], k);
      }
      trees := trees + [Leaf(i)];
    }
  }

  /** The body of the outer loop: pairs from the front, and an odd one goes to the back. */
  method Round(futures: seq<Item>, vars: seq<BranchVar>, ghost trees: seq<Tree>, ghost n: nat, ghost d: nat)
    returns (futures': seq<Item>, vars': seq<BranchVar>, ghost trees': seq<Tree>)
    requires Deque(futures, vars, trees, [], n, d) && |futures| >= 2
    ensures Deque(futures', vars', trees', [], n, d + 1) && |futures'| == (|futures| + 1) / 2
  {
    futures', vars' := futures, vars;
    var len := |futures|;
    ghost var todo: seq<Tree>, made: seq<Tree> := trees, [];
    for i := 0 to len / 2
      invariant Deque(futures', vars', todo, made, n, d) && |todo| == len - 2 * i && |made| == i
    {
      PairStep(futures', vars', todo, made, n, d);
      var a, b := futures'[0], futures'[1];
      ghost var node := Node(|vars'|, todo[0], todo[1]);
      var item := Item(RunBranch(|vars'|), Match(a.first, b.second, b.first, a.second), IfOther(a.second, b.second));
      futures', vars' := futures'[2..] + [item], vars' + [BranchVar(a.task, b.task)];
      todo, made := todo[2..], made + [node];
    }
    RoundEnd(futures', vars', todo, made, n, d);
    trees' := made + todo;
    if len % 2 != 0 {
      futures' := futures'[1..] + [futures'[0]];
    }
  }
}
