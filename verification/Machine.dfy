/** Runs of a labelled transition system.

    A protocol is a partial function `step` from a state and a label to the next
    state; `None` means that the label is not enabled.  One label is one atomic
    operation of one thread, so a sequence of labels is an interleaving. */
module Machine {
  import opened Wrappers

  /** The state reached by performing `labels` in order, if all are enabled. */
  ghost function Exec<S, L>(step: (S, L) -> Option<S>, s: S, labels: seq<L>): (r: Option<S>)
    decreases |labels|
  {
    if labels == [] then Some(s)
    else match step(s, labels[0])
      case None => None
      case Some(s') => Exec(step, s', labels[1..])
  }

  /** Whatever every step keeps, every run keeps. */
  lemma {:induction false} RunsKeep<S(!new), L(!new)>(step: (S, L) -> Option<S>, inv: S -> bool, s: S, labels: seq<L>)
    requires forall x, l :: inv(x) && step(x, l).Some? ==> inv(step(x, l).value)
    requires inv(s)
    ensures Exec(step, s, labels).Some? ==> inv(Exec(step, s, labels).value)
    decreases |labels|
  {
    if labels == [] {
    } else if step(s, labels[0]).Some? {
      RunsKeep(step, inv, step(s, labels[0]).value, labels[1..]);
    }
  }

  /** A run can be cut anywhere. */
  lemma {:induction false} ExecConcat<S, L>(step: (S, L) -> Option<S>, s: S, first: seq<L>, second: seq<L>)
    requires Exec(step, s, first).Some?
    ensures Exec(step, s, first + second) == Exec(step, Exec(step, s, first).value, second)
    decreases |first|
  {
    if first == [] {
      assert first + second == second;
    } else {
      assert (first + second)[1..] == first[1..] + second;
      ExecConcat(step, step(s, first[0]).value, first[1..], second);
    }
  }

  /** Three steps in a row. */
  lemma ExecThree<S, L>(step: (S, L) -> Option<S>, s: S, a: L, b: L, c: L)
    requires step(s, a).Some? && step(step(s, a).value, b).Some?
    ensures Exec(step, s, [a, b, c]) == step(step(step(s, a).value, b).value, c)
  {
    var s1 := step(s, a).value;
    var s2 := step(s1, b).value;
    assert [a, b, c][1..] == [b, c] && [b, c][1..] == [c] && [c][1..] == [];
    assert Exec(step, s2, [c]) == step(s2, c);
    assert Exec(step, s1, [b, c]) == step(s2, c);
  }

  ghost predicate Reaches<S, L(!new)>(step: (S, L) -> Option<S>, s: S, s': S) {
    exists labels :: Exec(step, s, labels) == Some(s')
  }

  lemma ReachSelf<S, L(!new)>(step: (S, L) -> Option<S>, s: S)
    ensures Reaches(step, s, s)
  {
    assert Exec(step, s, []) == Some(s);
  }

  /** One more step. */
  lemma ReachStep<S, L(!new)>(step: (S, L) -> Option<S>, s: S, s': S, l: L)
    requires Reaches(step, s, s') && step(s', l).Some?
    ensures Reaches(step, s, step(s', l).value)
  {
    var labels :| Exec(step, s, labels) == Some(s');
    ExecConcat(step, s, labels, [l]);
    assert [l][1..] == [];
  }
}
