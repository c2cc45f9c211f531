/** The machine-word side of the rings: `create_slots`, the mask and the signed
    comparison of sequence numbers. */
module Tickets {
  import opened Wrappers
  import opened Bits
  import Ring

  // ----- create_slots

  ghost predicate IsPowerOfTwo(n: int) {
    exists k: nat :: Pow2(k) == n
  }

  /** `checked_next_power_of_two`, then one slot per index whose sequence is its index;
      `None` stands for the two panics. */
  method CreateSlots(size: nat, bits: nat) returns (r: Option<array<nat>>)
    requires bits > 0
    ensures r == None <==> size == 0 || size > Pow2(bits - 1)
    ensures r.Some? ==> fresh(r.value) && IsPowerOfTwo(r.value.Length) && size <= r.value.Length < 2 * size
    ensures r.Some? ==> forall i :: 0 <= i < r.value.Length ==> r.value[i] == i
  {
    if size == 0 {
      return None;
    }
    var n, k := 1, 0;
    assert Pow2(0) == 1;
    while n < size
      invariant k < bits && n == Pow2(k) && n < 2 * size
      decreases bits - k
    {
      if k + 1 == bits {
        return None;
      }
      n, k := 2 * n, k + 1;
      Pow2Monotonic(k, bits - 1);
    }
    Pow2Monotonic(k, bits - 1);
    var slots := new nat[n];
    for i := 0 to n
      invariant forall j :: 0 <= j < i ==> slots[j] == j
    {
      slots[i] := i;
    }
    r := Some(slots);
  }

  // ----- the mask

  lemma {:induction false} SlotIsMod(pos: nat, n: nat)
    requires n > 0
    ensures Ring.Slot(pos, n) == pos % n
    decreases pos
  {
    if pos < n {
      RemainderUnique(pos, n, 0, pos);
    } else {
      SlotIsMod(pos - n, n);
      Division(pos - n, n);
      RemainderUnique(pos, n, (pos - n) / n + 1, (pos - n) % n);
    }
  }

  /** `pos & mask` on the wrapped counter is the slot of the unbounded ticket. */
  lemma SlotIsMask(pos: nat, k: nat, bits: nat)
    requires k <= bits
    ensures And(Wrap(pos, bits), Pow2(k) - 1) == Ring.Slot(pos, Pow2(k))
  {
    MaskIsMod(Wrap(pos, bits), k);
    Pow2Add(bits - k, k);
    ModMod(pos, Pow2(bits - k), Pow2(k));
    SlotIsMod(pos, Pow2(k));
  }

  // ----- the comparison

  /** What `next_slot` computes from a wrapped sequence and a wrapped ticket. */
  function Diff(sequence: nat, wanted: nat, bits: nat): (d: int)
    requires bits > 0
    ensures IsSigned(d, bits)
  {
    AsSigned(Wrap(Wrap(sequence, bits) - Wrap(wanted, bits), bits), bits)
  }

  /** The code compares sequence and ticket as unbounded integers would, exactly when
      they are less than half the counter's range apart. */
  lemma DiffIsExact(sequence: nat, wanted: nat, bits: nat)
    requires bits > 0
    ensures Diff(sequence, wanted, bits) == sequence - wanted <==> IsSigned(sequence - wanted, bits)
  {
    SignedDifference(sequence, wanted, bits);
  }

  /** A thread whose ticket is the current counter reads a sequence within a lap of it,
      so with a capacity below half the range the comparison that decides "take",
      "full" or "empty" is exact. */
  lemma CurrentTicketsCompareExactly<T>(s: Ring.State<T>, op: Ring.Op<T>, bits: nat)
    requires Ring.Inv(s) && bits > 0 && |s.seqs| < Pow2(bits - 1)
    ensures var pos := Ring.Counter(s, op);
      var seen := s.seqs[Ring.Slot(pos, |s.seqs|)];
      Diff(seen, Ring.Expect(op, pos), bits) == seen - Ring.Expect(op, pos)
  {
    var pos, n := Ring.Counter(s, op), |s.seqs|;
    assert Ring.SlotOk(s, Ring.Slot(pos, n));
    Ring.InvIsSafe(s);
    DiffIsExact(s.seqs[Ring.Slot(pos, n)], Ring.Expect(op, pos), bits);
  }
}
