/** Tearing a ring down: `drop_all` and the guard that runs it again when the
    destructor of a value unwinds. */
module RingDrop {
  import opened Wrappers
  import Ring

  class Channel<T> {
    var head: nat
    const tail: nat
    const data: array<Option<T>>

    /** The values not yet received, oldest first. */
    ghost var pending: seq<T>

    ghost predicate Valid()
      reads this, data
    {
      && data.Length > 0
      && head <= tail <= head + data.Length
      && |pending| == tail - head
      && (forall k :: head <= k < tail ==> data[Ring.Slot(k, data.Length)] == Some(pending[k - head]))
      && (forall k :: tail <= k < head + data.Length ==> data[Ring.Slot(k, data.Length)] == None)
    }

    /** The channel as its last owner finds it: no call is running. */
    constructor (ghost s: Ring.State<T>, head: nat, tail: nat, data: array<Option<T>>)
      requires Ring.Inv(s) && Ring.Quiet(s)
      requires head == s.head && tail == s.tail && data[..] == s.data
      ensures Valid() && this.data == data
      ensures s.head <= s.tail <= |s.sent| && pending == Ring.Queue(s)
    {
      this.head, this.tail, this.data := head, tail, data;
      Ring.QuietContents(s);
      this.pending := Ring.Queue(s);
      new;
      assert forall i :: 0 <= i < data.Length ==> data[i] == data[..][i] == s.data[i];
    }

    /** One turn of the loop of `drop_all`, up to the destructor. */
    method TakeFront() returns (value: T)
      requires Valid() && head != tail
      modifies this, data
      ensures Valid() && head == old(head) + 1
      ensures old(pending) == [value] + pending
    {
      var i := Ring.Slot(head, data.Length);
      SlotsDiffer(head, data.Length);
      Ring.SlotLap(head, data.Length);
      value := data[i].value;
      head := head + 1;
      data[i] := None;
      pending := pending[1..];
    }

    /** `drop_all`: drops the pending values in order, advancing `head` before each, until
        none is left or a destructor unwinds.  A value counts as dropped when its
        destructor was started. */
    method DropAll(unwinds: T -> bool) returns (dropped: seq<T>, unwound: bool)
      requires Valid()
      modifies this, data
      ensures Valid()
      ensures dropped + pending == old(pending)
      ensures !unwound ==> pending == [] && head == tail
      ensures unwound ==> dropped != [] && unwinds(dropped[|dropped| - 1])
      ensures forall i :: 0 <= i < |dropped| - (if unwound then 1 else 0) ==> !unwinds(dropped[i])
    {
      dropped, unwound := [], false;
      while head != tail
        invariant Valid()
        invariant dropped + pending == old(pending)
        invariant forall i :: 0 <= i < |dropped| ==> !unwinds(dropped[i])
        decreases tail - head
      {
        var value := TakeFront();
        dropped := dropped + [value];
        if unwinds(value) {
          return dropped, true;
        }
      }
    }

    /** `Drop`: the guard runs `drop_all` once more if the first run unwinds; a second
        unwinding while the first is in progress aborts the process.  Unless that
        happens, every pending value is dropped exactly once. */
    method Drop(unwinds: T -> bool) returns (dropped: seq<T>, aborted: bool)
      requires Valid()
      modifies this, data
      ensures Valid()
      ensures dropped + pending == old(pending)
      ensures !aborted ==> dropped == old(pending) && (forall i :: 0 <= i < data.Length ==> data[i] == None)
      ensures aborted ==> exists i, j :: 0 <= i < j < |dropped| && unwinds(dropped[i]) && unwinds(dropped[j])
    {
      var unwound;
      dropped, unwound := DropAll(unwinds);
      aborted := false;
      if unwound {
        var rest;
        rest, aborted := DropAll(unwinds);
        if aborted {
          assert unwinds((dropped + rest)[|dropped| - 1]) && unwinds((dropped + rest)[|dropped + rest| - 1]);
        }
        dropped := dropped + rest;
      }
      if !aborted {
        forall i | 0 <= i < data.Length ensures data[i] == None {
          var k := TicketOf(i, head, data.Length);
        }
      }
    }
  }

  /** The tickets of one lap have different slots. */
  lemma SlotsDiffer(head: nat, n: nat)
    requires n > 0
    ensures forall k :: head < k < head + n ==> Ring.Slot(k, n) != Ring.Slot(head, n)
  {
    forall k | head < k < head + n ensures Ring.Slot(k, n) != Ring.Slot(head, n) {
      if Ring.Slot(k, n) == Ring.Slot(head, n) {
        Ring.SlotApart(head, k, n);
        assert false;
      }
    }
  }

  /** Every slot serves one ticket of the lap that starts at `head`. */
  lemma {:induction false} TicketOf(i: nat, head: nat, n: nat) returns (k: nat)
    requires i < n
    ensures head <= k < head + n && Ring.Slot(k, n) == i
    decreases head
  {
    if head == 0 {
      k := i;
    } else {
      k := TicketOf(i, head - 1, n);
      if k == head - 1 {
        Ring.SlotLap(k, n);
        k := k + n;
      }
    }
  }
}
