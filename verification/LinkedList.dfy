/** The intrusive circular list of `container/intrusive/linked_list.rs`.

    A list knows its nodes only through the pointers of its base.  The ghost `ring` names
    them, base first, in order; `World` is a set of pinned lists no two of which share a
    node. */
module LinkedList {
  import opened Wrappers
  import opened Lists

  ghost predicate Adjacent(x: Node, y: Node)
    reads x, y
  {
    x.next == y && y.prev == x
  }

  function Succ(i: nat, n: nat): (r: nat) {
    if i + 1 == n then 0 else i + 1
  }

  /** Each node is adjacent to the one after it, the last to the first. */
  ghost predicate Ring(s: seq<Node>)
    reads s
  {
    |s| > 0 && Distinct(s) && forall i :: 0 <= i < |s| ==> Adjacent(s[i], s[Succ(i, |s|)])
  }

  ghost predicate World(lists: set<List>)
    reads lists, set l, x | l in lists && x in l.Repr() :: x
  {
    && (forall l :: l in lists ==> l.Circular())
    && (forall l, m :: l in lists && m in lists && l != m ==> Apart(l.ring, m.ring))
  }

  ghost predicate Apart(s: seq<Node>, t: seq<Node>) {
    forall i, j :: 0 <= i < |s| && 0 <= j < |t| ==> s[i] != t[j]
  }

  ghost function Minus(s: seq<Node>, x: Node): (r: seq<Node>)
    ensures x !in s ==> r == s
  {
    if s == [] then [] else if s[0] == x then s[1..] else [s[0]] + Minus(s[1..], x)
  }

  lemma {:induction false} MinusAt(s: seq<Node>, k: nat)
    requires k < |s| && forall i :: 0 <= i < k ==> s[i] != s[k]
    ensures Minus(s, s[k]) == s[..k] + s[k + 1..]
  {
    if k == 0 {
    } else {
      MinusAt(s[1..], k - 1);
      assert s[..k] == [s[0]] + s[1..][..k - 1];
    }
  }

  // ----- rings

  /** The ring closes around a node whose neighbours were joined. */
  lemma RingWithout(s: seq<Node>, k: nat)
    requires 0 < k < |s| && Distinct(s) && Adjacent(s[k - 1], s[Succ(k, |s|)])
    requires forall i :: 0 <= i < |s| && i != k && i != k - 1 ==> Adjacent(s[i], s[Succ(i, |s|)])
    ensures Ring(s[..k] + s[k + 1..])
  {
    var r := s[..k] + s[k + 1..];
    assert forall i :: 0 <= i < |r| ==> r[i] == s[if i < k then i else i + 1];
    forall i | 0 <= i < |r| ensures Adjacent(r[i], r[Succ(i, |r|)]) {
      var j := if i < k then i else i + 1;
      assert j != k - 1 ==> Adjacent(s[j], s[Succ(j, |s|)]);
    }
  }

  /** The ring with a node put between its last and its first. */
  lemma RingWith(s: seq<Node>, x: Node)
    requires |s| > 0 && Distinct(s) && x !in s && Adjacent(s[|s| - 1], x) && Adjacent(x, s[0])
    requires forall i :: 0 <= i < |s| - 1 ==> Adjacent(s[i], s[Succ(i, |s|)])
    ensures Ring(s + [x])
  {
    var r := s + [x];
    forall i | 0 <= i < |r| ensures Adjacent(r[i], r[Succ(i, |r|)]) {
      assert i < |s| - 1 ==> Adjacent(s[i], s[Succ(i, |s|)]);
    }
  }

  /** The ring with another base. */
  lemma RingRebased(s: seq<Node>, x: Node)
    requires |s| > 1 && Distinct(s) && x !in s && Adjacent(s[|s| - 1], x) && Adjacent(x, s[1])
    requires forall i :: 1 <= i < |s| - 1 ==> Adjacent(s[i], s[Succ(i, |s|)])
    ensures Ring([x] + s[1..])
  {
    var r := [x] + s[1..];
    assert forall i :: 0 < i < |r| ==> r[i] == s[i];
    forall i | 0 <= i < |r| ensures Adjacent(r[i], r[Succ(i, |r|)]) {
      assert 1 <= i < |s| - 1 ==> Adjacent(s[i], s[Succ(i, |s|)]);
    }
  }

  // ----- worlds

  /** Neighbours point at each other, and a node of a list has both pointers. */
  lemma Inverse(lists: set<List>, l: List, x: Node)
    requires World(lists) && l in lists && x in l.ring
    ensures x.Linked() && x.next != null && x.next in l.ring && x.prev in l.ring
    ensures x.next.prev == x && x.prev.next == x
  {
    var s := l.ring;
    var k :| 0 <= k < |s| && s[k] == x;
    assert l.Circular();
    assert Adjacent(s[k], s[Succ(k, |s|)]);
    var before := if k == 0 then |s| - 1 else k - 1;
    assert Succ(before, |s|) == k && Adjacent(s[before], s[k]);
  }

  /** A node without pointers is in no list. */
  lemma InNoList(lists: set<List>, x: Node)
    requires World(lists) && (!x.Linked() || x.next == null)
    ensures forall l :: l in lists ==> x !in l.ring
  {
    forall l | l in lists ensures x !in l.ring {
      if x in l.ring { Inverse(lists, l, x); }
    }
  }

  /** A node is in at most one list. */
  lemma InOneList(lists: set<List>, l: List, m: List, x: Node)
    requires World(lists) && l in lists && m in lists && x in l.ring && x in m.ring
    ensures l == m
  {
    assert l != m ==> Apart(l.ring, m.ring);
  }

  lemma Shorter(s: seq<Node>, t: seq<Node>, k: nat)
    requires Apart(s, t) && k < |s|
    ensures Apart(s[..k] + s[k + 1..], t) && Apart(t, s[..k] + s[k + 1..])
  {
  }

  lemma Swapped(s: seq<Node>, u: seq<Node>, t: seq<Node>)
    requires Apart(s, t) && Apart(u, t) && |s| > 0 && |u| == 1
    ensures var moved := u + s[1..];
      Apart(moved, t) && Apart(t, moved) && Apart(s[..1], t) && Apart(t, s[..1])
  {
  }

  /** The place of a node in its ring, and what taking it out leaves of each. */
  lemma Place(lists: set<List>, l: List, x: Node) returns (k: nat)
    requires World(lists) && l in lists && |l.ring| > 0 && x in l.ring[1..]
    ensures 0 < k < |l.ring| && l.ring[k] == x
    ensures Minus(l.ring, x) == l.ring[..k] + l.ring[k + 1..]
    ensures x.prev == l.ring[k - 1] && x.next == l.ring[Succ(k, |l.ring|)]
    ensures forall m :: m in lists && m != l ==> Minus(m.ring, x) == m.ring
    ensures forall m :: m in lists && m != l ==> x !in m.ring && x.prev !in m.ring && x.next !in m.ring
  {
    k :| 0 < k < |l.ring| && l.ring[k] == x;
    assert l.Circular();
    MinusAt(l.ring, k);
    Inverse(lists, l, x);
    assert Adjacent(l.ring[k - 1], l.ring[Succ(k - 1, |l.ring|)]) && Adjacent(x, l.ring[Succ(k, |l.ring|)]);
    assert forall m :: m in lists && m != l ==> Apart(l.ring, m.ring);
  }

  /** Where the base of a list points. */
  lemma Ends(lists: set<List>, l: List)
    requires World(lists) && l in lists
    ensures var s := l.ring;
      && |s| > 0 && s[0] == l.base && l.base.next == s[Succ(0, |s|)] && l.base.prev == s[|s| - 1]
      && (l.base.next == l.base <==> |s| == 1) && (l.base.prev == l.base <==> |s| == 1)
  {
    var s := l.ring;
    assert l.Circular();
    assert Adjacent(s[0], s[Succ(0, |s|)]) && Adjacent(s[|s| - 1], s[Succ(|s| - 1, |s|)]);
  }

  class Node {
    var prev: Node?
    var next: Node?

    constructor ()
      ensures prev == null && next == null
    {
      prev, next := null, null;
    }

    predicate Linked()
      reads this
    {
      prev != null
    }

    static method SetPtrs(node: Node, prev: Node?, next: Node?)
      modifies node, prev, next
      // The node, which may be among its own neighbours.
      ensures node.prev == if next == node then node else if prev != null then prev else old(node.prev)
      ensures node.next == if next != null then next else if prev == node then node else old(node.next)
      // Its neighbours, which may be one.
      ensures prev != null && prev != node ==> prev.next == node
      ensures next != null ==> next.prev == node
      ensures prev != null && prev != node && prev != next ==> prev.prev == old(prev.prev)
      ensures next != null && next != node && next != prev ==> next.next == old(next.next)
    {
      if prev != null {
        node.prev := prev;
        prev.next := node;
      }
      if next != null {
        node.next := next;
        next.prev := node;
      }
    }

    static method SetCircular(node: Node)
      modifies node
      ensures node.prev == node && node.next == node
    {
      SetPtrs(node, node, null);
    }

    method UnlinkUnchecked(ghost ring: seq<Node>, ghost k: nat)
      requires Ring(ring) && 0 < k < |ring| && ring[k] == this
      modifies this, prev, next
      ensures prev == null && next == null
      ensures Ring(ring[..k] + ring[k + 1..])
    {
      assert Adjacent(ring[k - 1], ring[Succ(k - 1, |ring|)]) && Adjacent(ring[k], ring[Succ(k, |ring|)]);
      var p, n := prev, next;
      prev, next := null, null;
      p.next := n;
      n.prev := p;
      forall i | 0 <= i < |ring| && i != k && i != k - 1 ensures Adjacent(ring[i], ring[Succ(i, |ring|)]) {
        assert old(Adjacent(ring[i], ring[Succ(i, |ring|)]));
      }
      RingWithout(ring, k);
    }

    /** `unlink`: the node leaves whichever list holds it, and an unlinked node is refused. */
    method Unlink(ghost lists: set<List>) returns (ok: bool)
      requires World(lists) && (Linked() ==> exists l :: l in lists && this in l.ring[1..])
      modifies this, prev, next, lists`ring
      ensures World(lists) && prev == null && (ok ==> next == null)
      ensures ok == old(Linked())
      ensures forall l :: l in lists ==> l.ring == Minus(old(l.ring), this)
    {
      if prev == null {
        InNoList(lists, this);
        return false;
      }
      ghost var l :| l in lists && this in l.ring[1..];
      ghost var k := Place(lists, l, this);
      UnlinkUnchecked(l.ring, k);
      ghost var shorter := l.ring[..k] + l.ring[k + 1..];
      forall m | m in lists && m != l ensures m.Circular() && Apart(shorter, m.ring) && Apart(m.ring, shorter) {
        assert old(m.Circular()) && Apart(l.ring, m.ring);
        Shorter(l.ring, m.ring, k);
      }
      l.ring := shorter;
      return true;
    }
  }

  class List {
    const base: Node
    ghost var ring: seq<Node>

    /** A new list is not pinned. */
    constructor ()
      ensures fresh(base) && base.prev == null && base.next == null && ring == [base]
    {
      base := new Node();
      ring := [base];
    }

    ghost function Repr(): (r: set<Node>)
      reads this
    {
      set x | x in ring
    }

    ghost predicate Circular()
      reads this, Repr()
    {
      Ring(ring) && ring[0] == base
    }

    /** Pinning adds an empty list to the world. */
    method Pin(ghost lists: set<List>)
      requires World(lists) && this !in lists && ring == [base] && forall l :: l in lists ==> base !in l.ring
      modifies base
      ensures World(lists + {this})
    {
      Node.SetCircular(base);
    }

    method IsEmpty(ghost lists: set<List>) returns (empty: bool)
      requires World(lists) && this in lists
      ensures empty <==> ring == [base]
    {
      Ends(lists, this);
      empty := base.next == base;
    }

    method Append(node: Node, ghost lists: set<List>)
      requires World(lists) && this in lists && forall l :: l in lists ==> node !in l.ring
      modifies node, Repr(), this`ring
      ensures World(lists) && ring == old(ring) + [node]
    {
      Ends(lists, this);
      Node.SetPtrs(node, base.prev, base);
      forall i | 0 <= i < |ring| - 1 ensures Adjacent(ring[i], ring[Succ(i, |ring|)]) {
        assert old(Adjacent(ring[i], ring[Succ(i, |ring|)]));
      }
      RingWith(ring, node);
      ring := ring + [node];
    }

    method PopFront(ghost lists: set<List>) returns (r: Option<Node>)
      requires World(lists) && this in lists
      modifies Repr(), lists`ring
      ensures World(lists)
      ensures |old(ring)| == 1 ==> r == None && ring == old(ring)
      ensures |old(ring)| > 1 ==>
        && r == Some(old(ring)[1]) && ring == [base] + old(ring)[2..]
        && !r.value.Linked() && r.value.next == null
      ensures forall l :: l in lists && l != this ==> l.ring == old(l.ring)
    {
      Ends(lists, this);
      var empty := IsEmpty(lists);
      if empty {
        return None;
      }
      var head := base.next;
      assert head == ring[1] && head in ring[1..] && head.prev == base by {
        Inverse(lists, this, base);
      }
      ghost var k := Place(lists, this, head);
      assert k == 1;
      var _ := head.Unlink(lists);
      return Some(head);
    }

    /** The nodes change list without being visited. */
    method MoveElements(other: List, ghost lists: set<List>)
      requires World(lists) && this in lists && other in lists && other != this && other.ring == [other.base]
      modifies Repr(), other.base, this`ring, other`ring
      ensures World(lists)
      ensures ring == [base] && other.ring == [other.base] + old(ring)[1..]
    {
      var empty := IsEmpty(lists);
      if !empty {
        MoveAll(other, lists);
      }
    }

    method MoveAll(other: List, ghost lists: set<List>)
      requires World(lists) && this in lists && other in lists && other != this && other.ring == [other.base]
      requires |ring| > 1
      modifies Repr(), other.base, this`ring, other`ring
      ensures World(lists)
      ensures ring == [base] && other.ring == [other.base] + old(ring)[1..]
    {
      Ends(lists, this);
      Ends(lists, other);
      assert Circular() && Apart(ring, other.ring);
      ghost var moved := other.ring + ring[1..];
      forall m | m in lists && m != this && m != other
        ensures Apart(m.ring, moved) && Apart(moved, m.ring) && Apart(m.ring, ring[..1]) && Apart(ring[..1], m.ring)
      {
        assert Apart(ring, m.ring) && Apart(other.ring, m.ring);
        Swapped(ring, other.ring, m.ring);
      }
      assert Apart(ring[..1], moved) && Apart(moved, ring[..1]);
      Splice(base, other.base, ring);
      forall m | m in lists && m != this && m != other ensures m.Circular() {
        assert old(m.Circular()) && Apart(ring, m.ring) && Apart(other.ring, m.ring);
      }
      ring, other.ring := ring[..1], moved;
      forall l, m | l in lists && m in lists && l != m ensures Apart(l.ring, m.ring) {
        assert l in {this, other} || m in {this, other} || old(Apart(l.ring, m.ring));
      }
    }

    static method Splice(base: Node, other: Node, ghost ring: seq<Node>)
      requires Ring(ring) && |ring| > 1 && ring[0] == base && other !in ring
      modifies base, other, base.prev, base.next
      ensures Ring([other] + ring[1..]) && Ring([base])
    {
      assert Adjacent(ring[0], ring[Succ(0, |ring|)]) && Adjacent(ring[|ring| - 1], ring[Succ(|ring| - 1, |ring|)]);
      Node.SetPtrs(other, base.prev, base.next);
      Node.SetCircular(base);
      forall i | 1 <= i < |ring| - 1 ensures Adjacent(ring[i], ring[Succ(i, |ring|)]) {
        assert old(Adjacent(ring[i], ring[Succ(i, |ring|)]));
      }
      RingRebased(ring, other);
    }
  }
}
