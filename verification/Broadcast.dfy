/** The broadcast channel of `async_std/sync/broadcast.rs`: every receiver sees every value,
    unless it lags a whole lap behind.

    Each `send` and each `try_recv` is one step.  The receivers are kept in one map from
    their number to their position; a receiver is the only one to change its entry. */
module Broadcast {
  import opened Wrappers
  import Ring
  import RingDrop

  /** `data` is None while the memory is uninitialised. */
  datatype Slot<T> = Slot(sequence: nat, remaining: nat, data: Option<T>)

  datatype RecvError = Empty | Closed | Lagged(missed: nat)

  /** What became of a value: given back, in its slot, moved to the last receiver due to
      get it, or destroyed. */
  datatype Fate = Rejected | Stored | Moved(rx: nat) | Dropped

  /** A receiver's life: where it began, the tickets it received, and the tickets it
      was told it missed or skipped on its own account. */
  datatype History = History(start: nat, got: seq<nat>, lagged: nat, skipped: nat)

  ghost predicate HistoryOk(h: History, pos: nat) {
    && h.start + |h.got| + h.lagged + h.skipped == pos
    && Ascends(h.got, h.start, pos)
  }

  /** The tickets ascend, from `lo` on and below `hi`. */
  ghost predicate Ascends(tickets: seq<nat>, lo: nat, hi: nat) {
    if tickets == [] then lo <= hi
    else
      var n := |tickets| - 1;
      tickets[n] < hi && Ascends(tickets[..n], lo, tickets[n])
  }

  lemma {:induction false} AscendsMeans(tickets: seq<nat>, lo: nat, hi: nat)
    requires Ascends(tickets, lo, hi)
    ensures lo <= hi && forall i :: 0 <= i < |tickets| ==> lo <= tickets[i] < hi
    ensures forall i, j :: 0 <= i < j < |tickets| ==> tickets[i] < tickets[j]
    decreases |tickets|
  {
    if tickets == [] {
    } else {
      var n := |tickets| - 1;
      AscendsMeans(tickets[..n], lo, tickets[n]);
      assert forall i :: 0 <= i < n ==> tickets[i] == tickets[..n][i];
    }
  }

  lemma GotOne(h: History, pos: nat)
    requires HistoryOk(h, pos)
    ensures HistoryOk(h.(got := h.got + [pos]), pos + 1)
  {
  }

  function Missed(h: History, n: nat): (r: History) {
    h.(lagged := h.lagged + n)
  }

  /** The receiver moved one ticket, which it received. */
  ghost predicate Taken(r: nat, positions: map<nat, nat>, histories: map<nat, History>,
                        positions': map<nat, nat>, histories': map<nat, History>)
    requires r in positions && r in histories
  {
    && positions' == positions[r := positions[r] + 1]
    && histories' == histories[r := histories[r].(got := histories[r].got + [positions[r]])]
  }

  /** The receiver moved to ticket `head`, and was told how many it missed. */
  ghost predicate Skipped(r: nat, head: nat, positions: map<nat, nat>, histories: map<nat, History>,
                          positions': map<nat, nat>, histories': map<nat, History>)
    requires r in positions && r in histories
  {
    && positions[r] <= head && positions' == positions[r := head]
    && histories' == histories[r := Missed(histories[r], head - positions[r])]
  }

  /** A fate is final unless the value is still in its slot. */
  ghost predicate Settles(before: seq<Fate>, after: seq<Fate>) {
    |before| <= |after| && forall k :: 0 <= k < |before| && !before[k].Stored? ==> after[k] == before[k]
  }

  lemma {:induction false} SizeOfKeys<K, V>(m: map<K, V>)
    ensures |m.Keys| == |m|
    decreases |m|
  {
    if m == map[] {
    } else {
      var k :| k in m;
      SizeOfKeys(m - {k});
      assert (m - {k}).Keys == m.Keys - {k};
    }
  }

  /** The receivers that are still to reach ticket `k`. */
  ghost function WaitingAt(positions: map<nat, nat>, k: nat): (rs: set<nat>) {
    set r | r in positions && positions[r] <= k
  }

  /** A receiver that moves on is waited for no more by the tickets it passes, and by the
      others as before. */
  lemma WaitingMoves(positions: map<nat, nat>, r: nat, pos: nat, k: nat)
    requires r in positions && positions[r] <= pos
    ensures var before, after := WaitingAt(positions, k), WaitingAt(positions[r := pos], k);
      |after| == |before| - (if positions[r] <= k < pos then 1 else 0)
  {
    var before, after := WaitingAt(positions, k), WaitingAt(positions[r := pos], k);
    if positions[r] <= k < pos {
      assert after == before - {r} && r in before;
    } else {
      assert after == before;
    }
  }

  lemma WaitingLeaves(positions: map<nat, nat>, r: nat, k: nat)
    requires r in positions
    ensures |WaitingAt(positions - {r}, k)| <= |WaitingAt(positions, k)|
  {
    assert WaitingAt(positions - {r}, k) == WaitingAt(positions, k) - {r};
  }

  /** A slot filled under ticket `k`; it is initialised while somebody is due to get it. */
  ghost predicate SlotOk<T>(s: Slot<T>, k: nat, value: T, fate: Fate, waiting: set<nat>) {
    && s.sequence == k + 1
    && (s.remaining > 0 <==> fate.Stored?)
    && s.data == (if fate.Stored? then Some(value) else None)
    && |waiting| <= s.remaining
  }

  /** Which values were dropped on the way from one to the other: distinct tickets, each
      in its slot until then. */
  ghost predicate Accounts<T>(sent: seq<T>, before: seq<Fate>, after: seq<Fate>, which: seq<nat>, dropped: seq<T>) {
    && |which| == |dropped| && |before| == |after| == |sent|
    && (forall i :: 0 <= i < |which| ==>
          which[i] < |before| && before[which[i]].Stored? && after[which[i]].Dropped? && dropped[i] == sent[which[i]])
    && (forall i, j :: 0 <= i < j < |which| ==> which[i] != which[j])
    && (forall k :: 0 <= k < |before| && k !in which ==> after[k] == before[k])
  }

  lemma AccountsConcat<T>(sent: seq<T>, before: seq<Fate>, which: seq<nat>, dropped: seq<T>, between: seq<Fate>,
                                more: seq<nat>, rest: seq<T>, after: seq<Fate>)
    requires Accounts(sent, before, between, which, dropped) && Accounts(sent, between, after, more, rest)
    ensures Accounts(sent, before, after, which + more, dropped + rest)
  {
    var w := which + more;
    assert forall m :: m in w <==> m in which || m in more;
    forall i | 0 <= i < |which| ensures which[i] !in more && after[which[i]] == between[which[i]] {
      assert between[which[i]].Dropped?;
    }
    forall j | 0 <= j < |more| ensures more[j] !in which && before[more[j]] == between[more[j]] {
      assert between[more[j]].Stored?;
    }
  }

  /** Each of two runs ended with a destructor that unwound. */
  lemma TwoUnwound<T>(dropped: seq<T>, rest: seq<T>, unwinds: T -> bool)
    requires dropped != [] && rest != [] && unwinds(dropped[|dropped| - 1]) && unwinds(rest[|rest| - 1])
    ensures exists i, j :: 0 <= i < j < |dropped + rest| && unwinds((dropped + rest)[i]) && unwinds((dropped + rest)[j])
  {
    assert unwinds((dropped + rest)[|dropped| - 1]) && unwinds((dropped + rest)[|dropped + rest| - 1]);
  }

  ghost function Evict(fates: seq<Fate>, k: int): (r: seq<Fate>)
    requires k < |fates|
    ensures |r| == |fates| && Settles(fates, r) && (k >= 0 ==> !r[k].Stored?)
    ensures forall i :: 0 <= i < |fates| && i != k ==> r[i] == fates[i]
  {
    if k >= 0 && fates[k].Stored? then fates[k := Dropped] else fates
  }

  class Channel<T(==)> {
    const slots: array<Slot<T>>
    var tail: nat
    var txCount: nat
    var rxCount: nat
    var closed: bool
    var positions: map<nat, nat>
    var nextRx: nat

    ghost var sent: seq<T>
    ghost var fates: seq<Fate>
    ghost var histories: map<nat, History>

    /** A channel with one sender and no receiver yet; its size is a power of two. */
    constructor (slots: array<Slot<T>>)
      requires slots.Length > 0 && forall i :: 0 <= i < slots.Length ==> slots[i] == Slot(i, 0, None)
      ensures Valid() && this.slots == slots && tail == 0 && positions == map[] && txCount == 1
    {
      this.slots := slots;
      tail, txCount, rxCount, closed, positions, nextRx := 0, 1, 0, false, map[], 0;
      sent, fates, histories := [], [], map[];
    }

    ghost predicate Valid()
      reads this, slots
    {
      && slots.Length > 0 && |sent| == |fates| == tail && (closed <==> txCount == 0)
      && rxCount == |positions|
      && (forall k :: 0 <= k < tail <= k + slots.Length ==> Retains(k))
      && (forall k :: 0 <= k && k + slots.Length < tail ==> !fates[k].Stored?)
      && (forall i :: tail <= i < slots.Length ==> slots[i] == Slot(i, 0, None))
      && (forall r :: r in positions ==> ReceiverOk(r))
    }

    ghost function Waiting(k: nat): (rs: set<nat>)
      reads this`positions
    {
      WaitingAt(positions, k)
    }

    /** A receiver's tickets come in send order, each once, from where it began; with what it
        was told it missed and what it skipped, they are the distance it went. */
    lemma GotInOrder(r: nat)
      requires Valid() && r in positions
      ensures r in histories && positions[r] <= tail
      ensures var h := histories[r];
        && h.start + |h.got| + h.lagged + h.skipped == positions[r]
        && (forall i :: 0 <= i < |h.got| ==> h.start <= h.got[i] < positions[r])
        && (forall i, j :: 0 <= i < j < |h.got| ==> h.got[i] < h.got[j])
    {
      assert ReceiverOk(r);
      AscendsMeans(histories[r].got, histories[r].start, positions[r]);
    }

    /** The slot of a recent ticket. */
    ghost predicate Retains(k: nat)
      requires slots.Length > 0 && k < |sent| == |fates|
      reads this`sent, this`fates, this`positions, slots
    {
      SlotOk(slots[Ring.Slot(k, slots.Length)], k, sent[k], fates[k], Waiting(k))
    }

    ghost predicate ReceiverOk(r: nat)
      requires r in positions
      reads this`positions, this`tail, this`histories, this`nextRx
    {
      && r < nextRx && positions[r] <= tail
      && r in histories && HistoryOk(histories[r], positions[r])
    }

    /** What the slot of the next ticket holds: the value of a lap before, or nothing. */
    lemma NextSlot()
      requires Valid()
      ensures var n, s := slots.Length, slots[Ring.Slot(tail, slots.Length)];
        && (tail < n ==> s == Slot(tail, 0, None))
        && (tail >= n ==> Ring.Slot(tail, n) == Ring.Slot(tail - n, n) && Retains(tail - n))
        && (forall k :: 0 <= k < tail < k + n ==> Ring.Slot(k, n) != Ring.Slot(tail, n))
    {
      var n := slots.Length;
      if tail >= n {
        Ring.SlotLap(tail - n, n);
      }
      forall k | 0 <= k < tail < k + n ensures Ring.Slot(k, n) != Ring.Slot(tail, n) {
        RingDrop.SlotsDiffer(k, n);
      }
    }

    method Send(value: T) returns (rejected: Option<T>)
      requires Valid()
      modifies this`tail, this`sent, this`fates, slots
      ensures Valid() && sent == old(sent) + [value] && tail == old(tail) + 1
      // It is given back exactly when there is no receiver.
      ensures rejected == if positions == map[] then Some(value) else None
      // It destroys the value a lap before it, if that is still there, and no other.
      ensures fates == Evict(old(fates), old(tail) - slots.Length) + [if positions == map[] then Rejected else Stored]
    {
      NextSlot();
      SizeOfKeys(positions);
      assert positions == map[] <==> rxCount == 0;
      var slot, previous;
      slot, previous, rejected := Replace(value);
      Publish(slot, value);
    }

    method Publish(slot: Slot<T>, ghost value: T)
      requires Valid() && slot == Slot(tail + 1, rxCount, if rxCount == 0 then None else slot.data)
      requires rxCount != 0 ==> slot.data == Some(value)
      requires forall k :: 0 <= k < tail < k + slots.Length ==>
        Ring.Slot(k, slots.Length) != Ring.Slot(tail, slots.Length)
      requires |positions.Keys| == rxCount
      modifies this`tail, this`sent, this`fates, slots
      ensures Valid() && sent == old(sent) + [value] && tail == old(tail) + 1
      ensures fates == Evict(old(fates), old(tail) - slots.Length) + [if rxCount == 0 then Rejected else Stored]
    {
      ghost var index := tail;
      slots[Ring.Slot(tail, slots.Length)] := slot;
      sent, fates := sent + [value], Evict(fates, tail - slots.Length) + [if rxCount == 0 then Rejected else Stored];
      tail := tail + 1;
      forall k | 0 <= k < tail <= k + slots.Length ensures Retains(k) {
        if k < index {
          assert old(Retains(k));
        } else {
          assert Waiting(k) == positions.Keys;
        }
      }
      forall r | r in positions ensures ReceiverOk(r) {
        assert old(ReceiverOk(r));
      }
    }

    /** What `send` leaves in the slot, what it takes out, and what it gives back. */
    method Replace(value: T) returns (slot: Slot<T>, previous: Option<T>, rejected: Option<T>)
      requires Valid()
      ensures slot == Slot(tail + 1, rxCount, if rxCount == 0 then None else Some(value))
      ensures rejected == if rxCount == 0 then Some(value) else None
      ensures previous == if tail >= slots.Length && fates[tail - slots.Length].Stored?
        then Some(sent[tail - slots.Length]) else None
    {
      NextSlot();
      slot := slots[Ring.Slot(tail, slots.Length)];
      previous, rejected := None, None;
      if slot.remaining != 0 {
        previous := Some(slot.data.value);
        slot := slot.(data := None);
      }
      slot := slot.(remaining := rxCount, sequence := tail + 1);
      if rxCount == 0 {
        rejected := Some(value);
      } else {
        slot := slot.(data := Some(value));
      }
    }

    /** `Receiver::new`, by `subscribe` and `resubscribe`. */
    method Subscribe() returns (r: nat)
      requires Valid()
      modifies this`rxCount, this`positions, this`nextRx, this`histories
      ensures Valid() && r !in old(positions)
      ensures positions == old(positions)[r := tail] && histories == old(histories)[r := History(tail, [], 0, 0)]
    {
      r := nextRx;
      rxCount, nextRx := rxCount + 1, nextRx + 1;
      positions, histories := positions[r := tail], histories[r := History(tail, [], 0, 0)];
      forall k | 0 <= k < tail <= k + slots.Length ensures Retains(k) {
        assert old(Retains(k)) && Waiting(k) == old(Waiting(k));
      }
    }

    /** A receiver that moves on is waited for no more by the tickets it passes. */
    method MoveTo(r: nat, pos: nat, ghost h: History)
      requires Valid() && r in positions && positions[r] <= pos <= tail && HistoryOk(h, pos)
      modifies this`positions, this`histories
      ensures Valid() && positions == old(positions)[r := pos] && histories == old(histories)[r := h]
    {
      positions, histories := positions[r := pos], histories[r := h];
      forall k | 0 <= k < tail <= k + slots.Length ensures Retains(k) {
        assert old(Retains(k));
        WaitingMoves(old(positions), r, pos, k);
      }
    }

    method Synchronize(r: nat)
      requires Valid() && r in positions
      modifies this`positions, this`histories
      ensures Valid() && positions == old(positions)[r := tail] && r in histories && r in old(histories)
      ensures histories[r].got == old(histories)[r].got && histories[r].lagged == old(histories)[r].lagged
    {
      ghost var h := histories[r];
      MoveTo(r, tail, h.(skipped := h.skipped + tail - positions[r]));
    }

    method DropReceiver(r: nat)
      requires Valid() && r in positions
      modifies this`rxCount, this`positions
      ensures Valid() && positions == old(positions) - {r}
    {
      positions, rxCount := positions - {r}, rxCount - 1;
      forall k | 0 <= k < tail <= k + slots.Length ensures Retains(k) {
        assert old(Retains(k));
        WaitingLeaves(old(positions), r, k);
      }
    }

    method CloneSender()
      requires Valid() && txCount > 0
      modifies this`txCount
      ensures Valid() && txCount == old(txCount) + 1
    {
      txCount := txCount + 1;
    }

    /** The last sender closes the channel. */
    method DropSender()
      requires Valid() && txCount > 0
      modifies this`txCount, this`closed
      ensures Valid() && txCount == old(txCount) - 1 && (closed <==> txCount == 0)
    {
      txCount := txCount - 1;
      if txCount == 0 {
        closed := true;
      }
    }

    /** Where a receiver's slot stands against its position. */
    lemma Compare(r: nat)
      requires Valid() && r in positions
      ensures var n, pos := slots.Length, positions[r];
        var s := slots[Ring.Slot(pos, n)];
        && (pos == tail ==> s.sequence < pos + 1)
        && (pos < tail <= pos + n ==> Retains(pos) && fates[pos].Stored?)
        && (pos + n < tail ==> s.sequence > pos + 1)
    {
      var n, pos := slots.Length, positions[r];
      assert ReceiverOk(r);
      if pos == tail {
        NextSlot();
      } else if tail <= pos + n {
        assert Retains(pos) && r in Waiting(pos);
      } else {
        var k := RingDrop.TicketOf(Ring.Slot(pos, n), tail - n, n);
        assert Retains(k);
      }
    }

    /** The three cases exclude each other, so the comparison decides which one it is. */
    lemma Stands(r: nat)
      requires Valid() && r in positions
      ensures var n, pos := slots.Length, positions[r];
        var seen := slots[Ring.Slot(pos, n)].sequence;
        && pos <= tail
        && (seen < pos + 1 <==> pos == tail)
        && (seen == pos + 1 <==> pos < tail <= pos + n)
        && (pos < tail <= pos + n ==> fates[pos].Stored?)
    {
      Compare(r);
      assert ReceiverOk(r);
    }

    /** One receiver less is due to get ticket `pos`; the last one gets the value itself. */
    method Decrement(pos: nat, ghost r: nat) returns (value: T)
      requires Valid() && pos < tail <= pos + slots.Length && fates[pos].Stored?
      requires |Waiting(pos)| < slots[Ring.Slot(pos, slots.Length)].remaining
      modifies this`fates, slots
      ensures Valid() && value == sent[pos]
      ensures fates == (if old(slots[Ring.Slot(pos, slots.Length)]).remaining == 1 then old(fates)[pos := Moved(r)]
        else old(fates))
    {
      assert Retains(pos);
      var i := Ring.Slot(pos, slots.Length);
      var slot := slots[i];
      value := slot.data.value;
      OtherSlots(pos);
      if slot.remaining == 1 {
        fates := fates[pos := Moved(r)];
        slot := slot.(data := None);
      }
      slots[i] := slot.(remaining := slot.remaining - 1);
      forall k | 0 <= k < tail <= k + slots.Length ensures Retains(k) {
        assert old(Retains(k));
      }
    }

    /** No other recent ticket, and no slot not yet used, shares the slot of this one. */
    lemma OtherSlots(pos: nat)
      requires Valid() && pos < tail <= pos + slots.Length
      ensures forall k :: 0 <= k < tail <= k + slots.Length && k != pos ==>
        Ring.Slot(k, slots.Length) != Ring.Slot(pos, slots.Length)
      ensures Ring.Slot(pos, slots.Length) < tail
    {
      forall k | 0 <= k < tail <= k + slots.Length && k != pos
        ensures Ring.Slot(k, slots.Length) != Ring.Slot(pos, slots.Length)
      {
        RingDrop.SlotsDiffer(if k < pos then k else pos, slots.Length);
      }
    }

    /** No other receiver is due to get the receiver's next ticket. */
    ghost predicate IsLast(r: nat)
      requires r in positions && slots.Length > 0
      reads this`positions, slots
    {
      slots[Ring.Slot(positions[r], slots.Length)].remaining == 1
    }

    /** The receiver leaves ticket `pos`, which had counted it. */
    method Pass(r: nat)
      requires Valid() && r in positions
      requires var pos := positions[r]; pos < tail <= pos + slots.Length
      modifies this`positions, this`histories
      ensures Valid() && Taken(r, old(positions), old(histories), positions, histories)
      ensures var pos := old(positions)[r]; |Waiting(pos)| < slots[Ring.Slot(pos, slots.Length)].remaining
    {
      assert ReceiverOk(r);
      var pos := positions[r];
      assert Retains(pos);
      GotOne(histories[r], pos);
      WaitingMoves(positions, r, pos + 1, pos);
      MoveTo(r, pos + 1, histories[r].(got := histories[r].got + [pos]));
    }

    /** The receiving branch of `try_recv`. */
    method Take(r: nat) returns (value: T)
      requires Valid() && r in positions
      requires var pos := positions[r]; pos < tail <= pos + slots.Length && fates[pos].Stored?
      modifies this`positions, this`histories, this`fates, slots
      ensures Valid() && value == sent[old(positions)[r]]
      ensures Taken(r, old(positions), old(histories), positions, histories)
      ensures fates == (if old(IsLast(r)) then old(fates)[old(positions)[r] := Moved(r)] else old(fates))
    {
      var pos := positions[r];
      Pass(r);
      value := Decrement(pos, r);
    }

    /** The lagging branch of `try_recv`. */
    method CatchUp(r: nat) returns (missed: nat)
      requires Valid() && r in positions && positions[r] + slots.Length < tail
      modifies this`positions, this`histories
      ensures Valid() && missed == tail - slots.Length - old(positions)[r]
      ensures Skipped(r, tail - slots.Length, old(positions), old(histories), positions, histories)
    {
      assert ReceiverOk(r);
      var head := tail - slots.Length;
      missed := head - positions[r];
      MoveTo(r, head, Missed(histories[r], missed));
    }

    /** The other branches: nothing new, or a lap behind. */
    method NothingFor(r: nat) returns (result: Result<T, RecvError>)
      requires Valid() && r in positions
      requires var pos := positions[r]; !(pos < tail <= pos + slots.Length)
      modifies this`positions, this`histories
      ensures Valid() && r in old(histories)
      ensures if old(positions)[r] == tail then
          && result == Err(if closed then Closed else Empty)
          && positions == old(positions) && histories == old(histories)
        else
          && result == Err(Lagged(tail - slots.Length - old(positions)[r]))
          && Skipped(r, tail - slots.Length, old(positions), old(histories), positions, histories)
    {
      Stands(r);
      var pos := positions[r];
      if slots[Ring.Slot(pos, slots.Length)].sequence < pos + 1 {
        assert ReceiverOk(r);
        return Err(if closed then Closed else Empty);
      }
      var missed := CatchUp(r);
      return Err(Lagged(missed));
    }

    method TryRecv(r: nat) returns (result: Result<T, RecvError>)
      requires Valid() && r in positions
      modifies this`positions, this`histories, this`fates, slots
      ensures Valid() && r in positions && r in old(histories) && Settles(old(fates), fates)
      // Nothing new.
      ensures old(positions)[r] == tail ==>
        && result == Err(if closed then Closed else Empty)
        && positions == old(positions) && histories == old(histories) && fates == old(fates)
      // The next value, moved to the receiver if no other was due to get it.
      ensures old(positions)[r] < tail <= old(positions)[r] + slots.Length ==>
        && Taken(r, old(positions), old(histories), positions, histories)
        && result == Ok(sent[old(positions)[r]])
        && fates == (if old(IsLast(r)) then old(fates)[old(positions)[r] := Moved(r)] else old(fates))
      // The next one was overwritten: to the oldest that was not.
      ensures old(positions)[r] + slots.Length < tail ==>
        && result == Err(Lagged(tail - slots.Length - old(positions)[r]))
        && Skipped(r, tail - slots.Length, old(positions), old(histories), positions, histories)
        && fates == old(fates)
    {
      Stands(r);
      var pos := positions[r];
      var i := Ring.Slot(pos, slots.Length);
      var next := pos + 1;
      if slots[i].sequence == next {
        var value := Take(r);
        result := Ok(value);
      } else {
        result := NothingFor(r);
      }
    }

    /** The ticket whose value is in a slot. */
    lemma OwnerOf(i: nat) returns (k: nat)
      requires Valid() && i < slots.Length && slots[i].remaining != 0
      ensures k < tail <= k + slots.Length && Ring.Slot(k, slots.Length) == i && fates[k].Stored?
    {
      k := RingDrop.TicketOf(i, if tail < slots.Length then 0 else tail - slots.Length, slots.Length);
      assert k < tail ==> Retains(k);
    }

    /** One turn of the loop of `drop_all`, up to the destructor. */
    method TakeOut(i: nat) returns (taken: Option<T>, ghost k: nat)
      requires Valid() && positions == map[] && i < slots.Length
      modifies this`fates, slots
      ensures Valid() && slots[i].remaining == 0
      ensures forall j :: 0 <= j < slots.Length && j != i ==> slots[j] == old(slots[j])
      ensures taken == None ==> fates == old(fates)
      ensures taken.Some? ==>
        && k < tail && old(fates)[k].Stored? && taken.value == sent[k] && fates == old(fates)[k := Dropped]
    {
      taken, k := None, 0;
      if slots[i].remaining != 0 {
        k := OwnerOf(i);
        OtherSlots(k);
        assert Retains(k);
        taken := Some(slots[i].data.value);
        slots[i] := slots[i].(remaining := 0, data := None);
        fates := fates[k := Dropped];
        forall m | 0 <= m < tail <= m + slots.Length ensures Retains(m) {
          assert old(Retains(m)) && Waiting(m) == {};
        }
      }
    }

    /** `drop_all`: `remaining` is cleared before the destructor runs, so a second run after
        one that unwound does not meet the same value again. */
    method DropAll(unwinds: T -> bool) returns (dropped: seq<T>, unwound: bool, ghost which: seq<nat>)
      requires Valid() && positions == map[]
      modifies this`fates, slots
      ensures Valid() && Accounts(sent, old(fates), fates, which, dropped)
      ensures !unwound ==> forall k :: 0 <= k < tail ==> !fates[k].Stored?
      ensures unwound ==> dropped != [] && unwinds(dropped[|dropped| - 1])
    {
      dropped, which, unwound := [], [], false;
      for i := 0 to slots.Length
        invariant Valid() && Accounts(sent, old(fates), fates, which, dropped)
        invariant forall j :: 0 <= j < i ==> slots[j].remaining == 0
      {
        ghost var fates1 := fates;
        var taken;
        ghost var k;
        taken, k := TakeOut(i);
        if taken.Some? {
          AccountsConcat(sent, old(fates), which, dropped, fates1, [k], [taken.value], fates);
          dropped, which := dropped + [taken.value], which + [k];
          if unwinds(taken.value) {
            return dropped, true, which;
          }
        }
      }
      forall k | 0 <= k < tail ensures !fates[k].Stored? {
        assert tail <= k + slots.Length ==> Retains(k);
      }
    }

    /** `Drop`, whose guard runs `drop_all` again if the first run unwinds; a second
        unwinding meanwhile aborts the process.  Unless that happens every value still
        stored is dropped, once. */
    method Drop(unwinds: T -> bool) returns (dropped: seq<T>, aborted: bool, ghost which: seq<nat>)
      requires Valid() && positions == map[]
      modifies this`fates, slots
      ensures Valid() && Accounts(sent, old(fates), fates, which, dropped)
      ensures !aborted ==> forall k :: 0 <= k < tail ==> !fates[k].Stored?
      ensures aborted ==> exists i, j :: 0 <= i < j < |dropped| && unwinds(dropped[i]) && unwinds(dropped[j])
    {
      var unwound;
      dropped, unwound, which := DropAll(unwinds);
      aborted := false;
      if unwound {
        ghost var before, fates1 := old(fates), fates;
        var rest;
        ghost var more;
        rest, aborted, more := DropAll(unwinds);
        AccountsConcat(sent, before, which, dropped, fates1, more, rest, fates);
        if aborted {
          TwoUnwound(dropped, rest, unwinds);
        }
        dropped, which := dropped + rest, which + more;
      }
    }
  }
}
