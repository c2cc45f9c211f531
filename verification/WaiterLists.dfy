/** The pointer side of `RawWaitList`: one node a waiter, the list itself, and the local list
    of every `wake_all` still running.  The ghost sequences say which waiters each holds;
    waiters are numbered as they arrive. */
module WaiterLists {
  import opened Wrappers
  import opened Lists
  import opened LinkedList

  // ----- nodes by number

  predicate Numbers(ids: seq<nat>, n: nat) {
    forall i :: 0 <= i < |ids| ==> ids[i] < n
  }

  ghost function NodesOf(nodes: seq<Node>, ids: seq<nat>): (s: seq<Node>)
    requires Numbers(ids, |nodes|)
  {
    if ids == [] then [] else [nodes[ids[0]]] + NodesOf(nodes, ids[1..])
  }

  lemma {:induction false} NodesOfAt(nodes: seq<Node>, ids: seq<nat>)
    requires Numbers(ids, |nodes|)
    ensures var s := NodesOf(nodes, ids); |s| == |ids| && forall i :: 0 <= i < |ids| ==> s[i] == nodes[ids[i]]
  {
    if ids == [] {
    } else {
      NodesOfAt(nodes, ids[1..]);
    }
  }

  lemma {:induction false} SameNodes(nodes: seq<Node>, more: seq<Node>, ids: seq<nat>)
    requires Numbers(ids, |nodes|) && nodes <= more
    ensures NodesOf(more, ids) == NodesOf(nodes, ids)
  {
    if ids == [] {
    } else {
      SameNodes(nodes, more, ids[1..]);
    }
  }

  lemma {:induction false} NodesOfMore(nodes: seq<Node>, ids: seq<nat>, w: nat)
    requires Numbers(ids, |nodes|) && w < |nodes|
    ensures NodesOf(nodes, ids + [w]) == NodesOf(nodes, ids) + [nodes[w]]
  {
    if ids == [] {
    } else {
      NodesOfMore(nodes, ids[1..], w);
      assert (ids + [w])[1..] == ids[1..] + [w];
    }
  }

  lemma {:induction false} MinusNumber(nodes: seq<Node>, ids: seq<nat>, w: nat)
    requires Distinct(nodes) && Numbers(ids, |nodes|) && w < |nodes| && Distinct(ids)
    ensures Numbers(Drop(ids, {w}), |nodes|)
    ensures Minus(NodesOf(nodes, ids), nodes[w]) == NodesOf(nodes, Drop(ids, {w}))
  {
    if ids == [] {
    } else {
      var rest := ids[1..];
      if ids[0] == w {
        DropNone(rest, {w});
      } else {
        MinusNumber(nodes, rest, w);
        var r := Drop(rest, {w});
        assert ([ids[0]] + r)[1..] == r && ([nodes[ids[0]]] + NodesOf(nodes, rest))[1..] == NodesOf(nodes, rest);
      }
    }
  }

  /** Each of the lists without `w`. */
  ghost function DropEach(frames: seq<seq<nat>>, w: nat): (r: seq<seq<nat>>)
    ensures |r| == |frames| && forall i :: 0 <= i < |frames| ==> r[i] == Drop(frames[i], {w})
  {
    seq(|frames|, i requires 0 <= i < |frames| => Drop(frames[i], {w}))
  }

  /** The innermost list without its front, if it has one. */
  ghost function PoppedLast(frames: seq<seq<nat>>): (r: seq<seq<nat>>)
    requires |frames| > 0
    ensures frames[|frames| - 1] == [] ==> r == frames
  {
    var f := |frames| - 1;
    frames[..f] + [if frames[f] == [] then [] else frames[f][1..]]
  }

  ghost predicate ShowsIn(nodes: seq<Node>, l: List, ids: seq<nat>)
    reads l
  {
    Numbers(ids, |nodes|) && l.base !in nodes && l.ring == [l.base] + NodesOf(nodes, ids)
  }

  lemma WorldOf(lists: set<List>, fewer: set<List>)
    requires World(lists) && fewer <= lists
    ensures World(fewer)
  {
  }

  predicate Unfold(k: nat) {
    true
  }

  class WaiterLists {
    const list: List
    var nodes: seq<Node>
    ghost var locals: seq<List>
    ghost var main: seq<nat>
    ghost var frames: seq<seq<nat>>
    /** The waiters that were unlinked. */
    ghost var free: set<nat>
    ghost var Repr: set<object>

    ghost function All(): (r: set<List>)
      reads this
    {
      {list} + set l | l in locals
    }

    /** That list holds just the nodes of those waiters, in that order. */
    ghost predicate Shows(l: List, ids: seq<nat>)
      reads this`nodes, l
    {
      ShowsIn(nodes, l, ids)
    }

    ghost predicate Owns()
      reads this
    {
      && this in Repr && list in Repr && list.base in Repr
      && (forall i :: 0 <= i < |locals| ==> locals[i] in Repr && locals[i].base in Repr)
      && (forall i :: 0 <= i < |nodes| ==> nodes[i] in Repr)
    }

    ghost predicate Shape()
      reads this, Repr
    {
      && Owns() && |frames| == |locals|
      && Shows(list, main)
      && (forall i :: 0 <= i < |locals| ==> Shows(locals[i], frames[i]))
      && Distinct(nodes) && Distinct(locals) && list !in locals
      && (forall l :: l in All() ==> l.Repr() <= Repr)
    }

    ghost predicate Listed(w: nat)
      reads this
    {
      w in main || exists i :: 0 <= i < |frames| && w in frames[i]
    }

    /** What holds of the nodes, stated so that only a proof that names `Unfold` goes into
        it; the users of the lists need not. */
    ghost predicate Valid()
      reads this, Repr
    {
      && this in Repr && |frames| == |locals| && (forall w :: w in free ==> w < |nodes|)
      && forall k: nat :: Unfold(k) ==> Inside()
    }

    ghost predicate Inside()
      reads this, Repr
    {
      && Shape() && World(All())
      && (forall w :: w in free ==> w < |nodes| && nodes[w].prev == null)
    }

    constructor ()
      ensures Valid() && fresh(Repr) && main == [] && frames == [] && nodes == [] && free == {}
    {
      list := new List();
      nodes, locals, main, frames, free := [], [], [], [], {};
      new;
      Repr := {this, list, list.base};
      list.Pin({});
      assert All() == {} + {list};
    }

    lemma ListedAreLinked(w: nat)
      requires Valid() && w < |nodes|
      ensures Listed(w) ==> nodes[w].Linked() && w !in free
      ensures w in free ==> !nodes[w].Linked()
      ensures (Listed(w) ==> exists l :: l in All() && l.ring != [] && nodes[w] in l.ring[1..])
    {
      assert Unfold(0);
      if w in main {
        InList(list, main, w);
      } else if i :| 0 <= i < |frames| && w in frames[i] {
        InList(locals[i], frames[i], w);
      }
    }

    lemma InList(l: List, ids: seq<nat>, w: nat)
      requires Inside() && l in All() && Shows(l, ids) && w in ids
      ensures |l.ring| > 0 && nodes[w] in l.ring[1..] && nodes[w].Linked()
    {
      var k :| 0 <= k < |ids| && ids[k] == w;
      NodesOfAt(nodes, ids);
      assert l.ring[1..][k] == nodes[w];
      Inverse(All(), l, nodes[w]);
    }

    lemma DistinctNumbers(l: List, ids: seq<nat>)
      requires Inside() && l in All() && Shows(l, ids)
      ensures Distinct(ids) && Distinct(l.ring)
    {
      assert l.Circular();
      NodesOfAt(nodes, ids);
      forall i, j | 0 <= i < j < |ids| ensures ids[i] != ids[j] {
        assert l.ring[i + 1] == nodes[ids[i]] && l.ring[j + 1] == nodes[ids[j]];
      }
    }

    /** The nodes that an unlink of `w` writes. */
    lemma Neighbours(w: nat)
      requires Inside() && w < |nodes| && Listed(w)
      ensures var x := nodes[w];
        && x.prev != null && x.next != null && x.prev in Repr && x.next in Repr
        && x.prev.Linked() && x.next.Linked()
    {
      ListedAreLinked(w);
      var l :| l in All() && nodes[w] in l.ring[1..];
      Inverse(All(), l, nodes[w]);
      Inverse(All(), l, nodes[w].prev);
      Inverse(All(), l, nodes[w].next);
      RingOwned(l);
    }

    lemma RingOwned(l: List)
      requires Inside() && l in All()
      ensures l in Repr && forall x :: x in l.ring ==> x in Repr
    {
      assert l.Repr() <= Repr && l.base in l.Repr() by {
        assert l.Circular();
      }
      forall x | x in l.ring ensures x in Repr {
        assert x in l.Repr();
      }
    }

    /** What an unlink of `w` leaves of a list. */
    lemma Shorter(l: List, ids: seq<nat>, w: nat)
      requires Inside() && l in All() && Shows(l, ids) && w < |nodes|
      ensures Numbers(Drop(ids, {w}), |nodes|)
      ensures Minus(l.ring, nodes[w]) == [l.base] + NodesOf(nodes, Drop(ids, {w}))
    {
      DistinctNumbers(l, ids);
      MinusNumber(nodes, ids, w);
      assert l.ring[1..] == NodesOf(nodes, ids);
    }

    /** `node.unlink_unchecked()` on a sleeping waiter. */
    method Remove(w: nat)
      requires Valid() && w < |nodes| && Listed(w)
      modifies Repr
      ensures Valid() && Repr == old(Repr) && nodes == old(nodes) && locals == old(locals)
      ensures main == Drop(old(main), {w}) && frames == DropEach(old(frames), w) && free == old(free) + {w}
    {
      assert Unfold(0);
      Neighbours(w);
      Cut(w);
      Settle(locals, Drop(main, {w}), DropEach(frames, w), free + {w}, Repr);
    }

    method Cut(w: nat)
      requires Inside() && w < |nodes| && Listed(w)
      modifies nodes[w], nodes[w].prev, nodes[w].next, All()`ring
      ensures World(All()) && nodes[w].prev == null
      ensures Numbers(Drop(main, {w}), |nodes|) && list.ring == [list.base] + NodesOf(nodes, Drop(main, {w}))
      ensures forall i :: 0 <= i < |frames| ==> Numbers(Drop(frames[i], {w}), |nodes|)
      ensures forall i :: 0 <= i < |frames| ==>
        locals[i].ring == [locals[i].base] + NodesOf(nodes, Drop(frames[i], {w}))
      ensures forall u :: u in free ==> nodes[u].prev == null
      ensures old(nodes[w].prev) in Repr && old(nodes[w].next) in Repr
    {
      ListedAreLinked(w);
      Neighbours(w);
      Shorter(list, main, w);
      forall i | 0 <= i < |frames|
        ensures Numbers(Drop(frames[i], {w}), |nodes|)
        ensures Minus(locals[i].ring, nodes[w]) == [locals[i].base] + NodesOf(nodes, Drop(frames[i], {w}))
      {
        Shorter(locals[i], frames[i], w);
      }
      var _ := nodes[w].Unlink(All());
    }

    lemma FreeApart()
      requires Inside()
      ensures forall u, l :: u in free && l in All() ==> nodes[u] !in l.ring
    {
      forall u, l | u in free && l in All() ensures nodes[u] !in l.ring {
        InNoList(All(), nodes[u]);
      }
    }

    // ----- one pointer operation each, then its account

    method Link(node: Node)
      requires Inside() && node.prev == null && forall l :: l in All() ==> node !in l.ring
      requires node !in nodes
      modifies node, list.Repr(), list`ring
      ensures World(All()) && list.ring == old(list.ring) + [node]
      ensures forall u :: u in free ==> nodes[u].prev == null
    {
      FreeApart();
      list.Append(node, All());
    }

    /** A pinned local list, empty. */
    method NewList() returns (local: List)
      requires Inside()
      ensures fresh(local) && fresh(local.base) && local.ring == [local.base]
      ensures World(All() + {local})
    {
      local := new List();
      forall l | l in All() ensures local.base !in l.ring {
        RingOwned(l);
      }
      local.Pin(All());
    }

    method TakeAll(local: List)
      requires Inside() && local !in All() && local.ring == [local.base] && local.base !in nodes
        && World(All() + {local})
      modifies list.Repr(), local.base, list`ring, local`ring
      ensures World(All() + {local}) && Shows(list, []) && Shows(local, main)
      ensures forall i :: 0 <= i < |locals| ==> Shows(locals[i], frames[i])
      ensures forall u :: u in free ==> nodes[u].prev == null
    {
      FreeApart();
      forall u | u in free ensures nodes[u] !in list.ring && nodes[u] != local.base {
      }
      list.MoveElements(local, All() + {local});
    }

    lemma FrontOf(l: List, ids: seq<nat>)
      requires Shows(l, ids)
      ensures |l.ring| == |ids| + 1 && (ids == [] ==> l.ring == [l.base])
      ensures ids != [] ==>
        && l.ring[1] == nodes[ids[0]] && Numbers(ids[1..], |nodes|)
        && l.ring[2..] == NodesOf(nodes, ids[1..])
    {
      NodesOfAt(nodes, ids);
      assert l.ring[1..] == NodesOf(nodes, ids);
      assert ids != [] ==> l.ring[2..] == NodesOf(nodes, ids)[1..];
    }

    method TakeFront(l: List, ghost ids: seq<nat>) returns (node: Option<Node>)
      requires Valid() && l in All() && Shows(l, ids)
      modifies l.Repr(), All()`ring
      ensures World(All()) && forall m :: m in All() && m != l ==> m.ring == old(m.ring)
      ensures ids == [] ==> node == None && l.ring == old(l.ring)
      ensures ids != [] ==>
        && node == Some(nodes[ids[0]]) && nodes[ids[0]].prev == null
        && Shows(l, ids[1..])
      ensures forall u :: u in free ==> nodes[u].prev == null
    {
      assert Unfold(0);
      FreeApart();
      FrontOf(l, ids);
      node := l.PopFront(All());
    }

    lemma LocalsShow()
      requires Valid() && |locals| > 0
      ensures list in All() && list !in locals && Shows(list, main)
      ensures forall i :: 0 <= i < |locals| ==> locals[i] in All() && Shows(locals[i], frames[i])
      ensures forall i :: 0 <= i < |locals| - 1 ==> locals[i] != locals[|locals| - 1]
      ensures forall u :: u in free ==> u < |nodes|
      ensures forall i :: 0 <= i < |frames| && frames[i] != [] ==> frames[i][0] < |nodes|
    {
      assert Unfold(0);
    }

    method TakeLocal(local: List) returns (node: Option<Node>)
      requires Valid() && |locals| > 0 && local == locals[|locals| - 1]
      modifies local.Repr(), All()`ring
      ensures World(All()) && Shows(list, main)
      ensures var less := PoppedLast(frames);
        && (forall i :: 0 <= i < |locals| ==> Shows(locals[i], less[i]))
      ensures var ids := frames[|frames| - 1];
        if ids == [] then node == None
        else ids[0] < |nodes| && node == Some(nodes[ids[0]]) && nodes[ids[0]].prev == null
      ensures forall u :: u in free ==> nodes[u].prev == null
    {
      LocalsShow();
      node := TakeFront(local, frames[|frames| - 1]);
    }

    /** What a new node changes. */
    method LinkNew(node: Node)
      requires Inside() && node.prev == null && node !in Repr
      modifies node, list.Repr(), list`ring
      ensures World(All()) && Distinct(nodes + [node]) && ShowsIn(nodes + [node], list, main + [|nodes|])
      ensures forall i :: 0 <= i < |locals| ==> ShowsIn(nodes + [node], locals[i], frames[i])
      ensures forall u :: u in free ==> nodes[u].prev == null
    {
      ghost var more := nodes + [node];
      forall l | l in All() ensures node !in l.ring {
        RingOwned(l);
      }
      SameNodes(nodes, more, main);
      forall i | 0 <= i < |frames| ensures NodesOf(more, frames[i]) == NodesOf(nodes, frames[i]) {
        SameNodes(nodes, more, frames[i]);
      }
      NodesOfMore(more, main, |nodes|);
      Link(node);
    }

    lemma RingIn(l: List, ids: seq<nat>, repr: set<object>)
      requires Shows(l, ids) && l.base in repr && forall i :: 0 <= i < |nodes| ==> nodes[i] in repr
      ensures l.Repr() <= repr
    {
      NodesOfAt(nodes, ids);
    }

    /** The pointers are as this account says. */
    ghost predicate Ready(nodes': seq<Node>, locals': seq<List>, main': seq<nat>, frames': seq<seq<nat>>,
      free': set<nat>, repr: set<object>)
      reads repr, {list} + set l | l in locals'
      reads set l, x | l in {list} + (set m | m in locals') && x in l.Repr() :: x
    {
      && this in repr && list in repr && list.base in repr
      && (forall i :: 0 <= i < |locals'| ==> locals'[i] in repr && locals'[i].base in repr)
      && (forall i :: 0 <= i < |nodes'| ==> nodes'[i] in repr)
      && |frames'| == |locals'| && Distinct(nodes') && Distinct(locals') && list !in locals'
      && World({list} + set l | l in locals')
      && ShowsIn(nodes', list, main') && (forall i :: 0 <= i < |locals'| ==> ShowsIn(nodes', locals'[i], frames'[i]))
      && (forall w :: w in free' ==> w < |nodes'| && nodes'[w].prev == null)
    }

    /** The account follows the pointers. */
    ghost method Settle(locals': seq<List>, main': seq<nat>, frames': seq<seq<nat>>, free': set<nat>, repr: set<object>)
      requires Ready(nodes, locals', main', frames', free', repr)
      modifies this`locals, this`main, this`frames, this`free, this`Repr
      ensures Valid() && locals == locals' && main == main' && frames == frames' && free == free' && Repr == repr
    {
      RingIn(list, main', repr);
      forall i | 0 <= i < |locals'| ensures locals'[i].Repr() <= repr {
        RingIn(locals'[i], frames'[i], repr);
      }
      locals, main, frames, free, Repr := locals', main', frames', free', repr;
      assert Inside() by {
        assert Owns() && forall l :: l in All() ==> l.Repr() <= Repr;
      }
    }

    method AddNode() returns (node: Node)
      requires Inside()
      modifies Repr
      ensures fresh(node) && unchanged(this)
      ensures Ready(nodes + [node], locals, main + [|nodes|], frames, free, Repr + {node})
    {
      node := new Node();
      RingOwned(list);
      LinkNew(node);
    }

    /** A new waiter is appended. */
    method Add() returns (w: nat)
      requires Valid()
      modifies Repr
      ensures Valid() && fresh(Repr - old(Repr)) && w == |old(nodes)| && |nodes| == w + 1 && nodes[..w] == old(nodes)
      ensures main == old(main) + [w] && frames == old(frames) && locals == old(locals) && free == old(free)
    {
      assert Unfold(0);
      w := |nodes|;
      var node := AddNode();
      nodes := nodes + [node];
      Settle(locals, main + [w], frames, free, Repr + {node});
    }

    method SplitOff() returns (local: List)
      requires Inside()
      modifies Repr
      ensures fresh(local) && fresh(local.base) && unchanged(this)
      ensures Ready(nodes, locals + [local], [], frames + [main], free, Repr + {local, local.base})
    {
      RingOwned(list);
      local := NewList();
      TakeAll(local);
      assert All() + {local} == {list} + set l | l in locals + [local];
    }

    /** The local list of a wake call takes over all waiters. */
    method Split() returns (local: List)
      requires Valid()
      modifies Repr
      ensures Valid() && fresh(Repr - old(Repr)) && nodes == old(nodes)
      ensures main == [] && frames == old(frames) + [old(main)] && locals == old(locals) + [local] && free == old(free)
    {
      assert Unfold(0);
      local := SplitOff();
      Settle(locals + [local], [], frames + [main], free, Repr + {local, local.base});
    }

    /** The front waiter, unlinked. */
    method PopMain() returns (node: Option<Node>)
      requires Valid()
      modifies Repr
      ensures Valid() && Repr == old(Repr) && nodes == old(nodes) && locals == old(locals) && frames == old(frames)
      ensures if old(main) == [] then node == None && main == [] && free == old(free)
        else
          && main == old(main)[1..] && free == old(free) + {old(main)[0]}
          && old(main)[0] < |nodes| && node == Some(nodes[old(main)[0]])
    {
      assert Unfold(0);
      RingOwned(list);
      node := TakeFront(list, main);
      if main != [] {
        Settle(locals, main[1..], frames, free + {main[0]}, Repr);
      }
    }

    /** What a pop leaves alone. */
    lemma Owned(local: List)
      requires Valid() && local in locals
      ensures local in Repr && local.Repr() <= Repr && All() == {list} + set l | l in locals
      ensures this in Repr && list in Repr && list.base in Repr && (forall i :: 0 <= i < |nodes| ==> nodes[i] in Repr)
      ensures forall i :: 0 <= i < |locals| ==> locals[i] in Repr && locals[i].base in Repr
      ensures |frames| == |locals| && Distinct(nodes) && Distinct(locals) && list !in locals
      ensures forall l :: l in All() ==> l in Repr
      ensures forall u :: u in free ==> u < |nodes|
    {
      assert Unfold(0);
      RingOwned(local);
    }

    method PopOff(local: List) returns (node: Option<Node>)
      requires Valid() && |locals| > 0 && local == locals[|locals| - 1]
      modifies Repr
      ensures unchanged(this)
      ensures var ids := frames[|frames| - 1];
        && Ready(nodes, locals, main, PoppedLast(frames), if ids == [] then free else free + {ids[0]}, Repr)
        && if ids == [] then node == None else ids[0] < |nodes| && node == Some(nodes[ids[0]])
    {
      Owned(local);
      node := TakeLocal(local);
    }

    /** The front waiter of the innermost local list, unlinked. */
    method PopLocal(local: List) returns (node: Option<Node>)
      requires Valid() && |locals| > 0 && local == locals[|locals| - 1]
      modifies Repr
      ensures Valid() && Repr == old(Repr) && nodes == old(nodes) && locals == old(locals) && main == old(main)
      ensures frames == PoppedLast(old(frames))
      ensures var ids := old(frames)[|old(frames)| - 1];
        if ids == [] then node == None && free == old(free)
        else ids[0] < |nodes| && node == Some(nodes[ids[0]]) && free == old(free) + {ids[0]}
    {
      ghost var ids := frames[|frames| - 1];
      node := PopOff(local);
      Settle(locals, main, PoppedLast(frames), if ids == [] then free else free + {ids[0]}, Repr);
    }

    method LocalIsEmpty(local: List) returns (empty: bool)
      requires Valid() && |locals| > 0 && local == locals[|locals| - 1]
      ensures empty <==> frames[|frames| - 1] == []
    {
      assert Unfold(0);
      assert Shows(local, frames[|frames| - 1]);
      empty := local.IsEmpty(All());
    }

    /** A wake call returns; its local list is empty. */
    ghost method Join()
      requires Valid() && |locals| > 0 && frames[|frames| - 1] == []
      modifies this
      ensures Valid() && Repr == old(Repr) && nodes == old(nodes) && main == old(main)
      ensures frames == old(frames)[..|old(frames)| - 1] && locals == old(locals)[..|old(locals)| - 1]
        && free == old(free)
    {
      assert Unfold(0);
      ghost var less := locals[..|locals| - 1];
      WorldOf(All(), {list} + set l | l in less);
      Settle(less, main, frames[..|frames| - 1], free, Repr);
    }
  }
}
