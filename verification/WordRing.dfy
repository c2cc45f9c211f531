/** The ring of module Ring as the machine runs it: counters, tickets and sequence numbers are
    words of `bits` bits, the slot comes from a mask, and the comparison is signed.

    The two rings agree step by step while no thread that has read its counter falls so far
    behind that its lag and the capacity together reach half the counter's range. */
module WordRing {
  import opened Wrappers
  import opened Bits
  import Machine
  import Ring
  import Tickets

  datatype Words<T> = Words(head: nat, tail: nat, seqs: seq<nat>, data: seq<Option<T>>, threads: seq<Ring.Pc<T>>)

  // ----- the projection

  function PcOf<T>(pc: Ring.Pc<T>, bits: nat): (r: Ring.Pc<T>) {
    match pc
    case Ready(last) => Ring.Ready(last)
    case Start(op) => Ring.Start(op)
    case Loaded(op, pos) => Ring.Loaded(op, Wrap(pos, bits))
    case Matched(op, pos) => Ring.Matched(op, Wrap(pos, bits))
    case Claimed(op, pos) => Ring.Claimed(op, Wrap(pos, bits))
    case Touched(op, pos, item) => Ring.Touched(op, Wrap(pos, bits), item)
  }

  function PcsOf<T>(pcs: seq<Ring.Pc<T>>, bits: nat): (r: seq<Ring.Pc<T>>)
    ensures |r| == |pcs| && forall t :: 0 <= t < |pcs| ==> r[t] == PcOf(pcs[t], bits)
  {
    seq(|pcs|, t requires 0 <= t < |pcs| => PcOf(pcs[t], bits))
  }

  function WrapAll(xs: seq<nat>, bits: nat): (r: seq<nat>)
    ensures |r| == |xs| && forall i :: 0 <= i < |xs| ==> r[i] == Wrap(xs[i], bits)
  {
    seq(|xs|, i requires 0 <= i < |xs| => Wrap(xs[i], bits))
  }

  /** What the machine holds of a state. */
  function WordsOf<T>(s: Ring.State<T>, bits: nat): (w: Words<T>) {
    Words(Wrap(s.head, bits), Wrap(s.tail, bits), WrapAll(s.seqs, bits), s.data, PcsOf(s.threads, bits))
  }

  // ----- the code on words

  function Counter<T>(w: Words<T>, op: Ring.Op<T>): (c: nat) {
    if op.Send? then w.tail else w.head
  }

  /** `pos & mask`, for a ring of 2^k slots. */
  function Masked(pos: nat, k: nat): (i: nat) {
    And(pos, Pow2(k) - 1)
  }

  /** `map(pos).0`. */
  function Expect<T>(op: Ring.Op<T>, pos: nat, bits: nat): (e: nat) {
    if op.Send? then pos else Wrap(pos + 1, bits)
  }

  /** `map(pos).1`. */
  function NextSeq<T>(op: Ring.Op<T>, pos: nat, k: nat, bits: nat): (e: nat) {
    if op.Send? then Wrap(pos + 1, bits) else Wrap(pos + Pow2(k), bits)
  }

  function Checked<T>(w: Words<T>, op: Ring.Op<T>, pos: nat, k: nat, bits: nat): (pc: Ring.Pc<T>)
    requires bits > 0 && Masked(pos, k) < |w.seqs|
  {
    var diff := AsSigned(Wrap(w.seqs[Masked(pos, k)] - Expect(op, pos, bits), bits), bits);
    if diff == 0 then Ring.Matched(op, pos)
    else if diff < 0 then Ring.Ready(if op.Send? then Ring.Full(op.value) else Ring.Empty)
    else Ring.Start(op)
  }

  function Step<T>(w: Words<T>, l: Ring.Label<T>, k: nat, bits: nat): (r: Option<Words<T>>)
    requires bits > 0
  {
    if l.t >= |w.threads| then None
    else match (l, w.threads[l.t])
      case (Begin(t, op), Ready(_)) => Some(w.(threads := w.threads[t := Ring.Start(op)]))
      case (Load(t), Start(op)) => Some(w.(threads := w.threads[t := Ring.Loaded(op, Counter(w, op))]))
      case (Check(t), Loaded(op, pos)) =>
        if Masked(pos, k) >= |w.seqs| then None
        else Some(w.(threads := w.threads[t := Checked(w, op, pos, k, bits)]))
      case (Cas(t, spurious), Matched(op, pos)) =>
        if spurious || Counter(w, op) != pos then Some(w.(threads := w.threads[t := Ring.Start(op)]))
        else if op.Send? then Some(w.(tail := Wrap(pos + 1, bits), threads := w.threads[t := Ring.Claimed(op, pos)]))
        else Some(w.(head := Wrap(pos + 1, bits), threads := w.threads[t := Ring.Claimed(op, pos)]))
      case (Touch(t), Claimed(op, pos)) =>
        var i := Masked(pos, k);
        if i >= |w.data| then None
        else if op.Send? then
          Some(w.(data := w.data[i := Some(op.value)], threads := w.threads[t := Ring.Touched(op, pos, None)]))
        else
          Some(w.(data := w.data[i := None], threads := w.threads[t := Ring.Touched(op, pos, w.data[i])]))
      case (Publish(t), Touched(op, pos, item)) =>
        var i := Masked(pos, k);
        if i >= |w.seqs| then None
        else
          Some(w.(seqs := w.seqs[i := NextSeq(op, pos, k, bits)],
                  threads := w.threads[t := Ring.Ready(if op.Send? then Ring.Sent else Ring.Received(item))]))
      case _ => None
  }

  // ----- agreement

  lemma WrapPlus(a: int, b: int, bits: nat)
    ensures Wrap(Wrap(a, bits) + b, bits) == Wrap(a + b, bits)
  {
    var m := Pow2(bits);
    Division(a, m);
    WrapShift(a + b, 0 - a / m, bits);
    assert (0 - a / m) * m == 0 - (a / m) * m;
  }

  /** Where the slot of a ticket that was loaded can stand: within the lag and one capacity. */
  lemma LoadedBounds<T>(s: Ring.State<T>, t: nat)
    requires Ring.Inv(s) && t < |s.threads| && s.threads[t].Loaded?
    ensures var op, pos := s.threads[t].op, s.threads[t].pos;
      var lag, diff := Ring.Counter(s, op) - pos, s.seqs[Ring.Slot(pos, |s.seqs|)] - Ring.Expect(op, pos);
      lag >= 0 && 0 - |s.seqs| <= diff <= lag + |s.seqs|
  {
    assert Ring.ThreadOk(s, s.threads[t]);
    assert Ring.SlotOk(s, Ring.Slot(s.threads[t].pos, |s.seqs|));
    Ring.InvIsSafe(s);
  }

  /** How far a thread may lag. */
  ghost predicate NearPc<T>(s: Ring.State<T>, pc: Ring.Pc<T>, bits: nat)
    requires bits > 0
  {
    && (pc.Loaded? ==> Ring.Counter(s, pc.op) - pc.pos + |s.seqs| < Pow2(bits - 1))
    && (pc.Matched? ==> Ring.Counter(s, pc.op) - pc.pos < Pow2(bits))
  }

  ghost predicate Near<T>(s: Ring.State<T>, bits: nat)
    requires bits > 0
  {
    forall t :: 0 <= t < |s.threads| ==> NearPc(s, s.threads[t], bits)
  }

  /** Every comparison, of a current or a stale ticket, comes out as on unbounded integers. */
  lemma LoadedTicketsCompareExactly<T>(s: Ring.State<T>, t: nat, bits: nat)
    requires bits > 0 && Ring.Inv(s) && t < |s.threads| && s.threads[t].Loaded? && NearPc(s, s.threads[t], bits)
    ensures var op, pos := s.threads[t].op, s.threads[t].pos;
      var seen := s.seqs[Ring.Slot(pos, |s.seqs|)];
      Tickets.Diff(seen, Ring.Expect(op, pos), bits) == seen - Ring.Expect(op, pos)
  {
    LoadedBounds(s, t);
    var op, pos := s.threads[t].op, s.threads[t].pos;
    Tickets.DiffIsExact(s.seqs[Ring.Slot(pos, |s.seqs|)], Ring.Expect(op, pos), bits);
  }

  lemma PcsUpdate<T>(pcs: seq<Ring.Pc<T>>, t: nat, pc: Ring.Pc<T>, bits: nat)
    requires t < |pcs|
    ensures PcsOf(pcs[t := pc], bits) == PcsOf(pcs, bits)[t := PcOf(pc, bits)]
  {
  }

  lemma WrapUpdate(xs: seq<nat>, i: nat, x: nat, bits: nat)
    requires i < |xs|
    ensures WrapAll(xs[i := x], bits) == WrapAll(xs, bits)[i := Wrap(x, bits)]
  {
  }

  /** The exchange compares words, but a lag of less than the counter's range is no multiple
      of it. */
  lemma SameWord(a: nat, b: nat, bits: nat)
    requires 0 <= a - b < Pow2(bits)
    ensures Wrap(a, bits) == Wrap(b, bits) <==> a == b
  {
    if Wrap(a, bits) == Wrap(b, bits) {
      WrapWindow(a, b, bits);
    }
  }

  ghost predicate Fits<T>(s: Ring.State<T>, k: nat, bits: nat)
  {
    k < bits && Ring.Inv(s) && |s.seqs| == Pow2(k) && Near(s, bits)
  }

  lemma ExpectAgrees<T>(op: Ring.Op<T>, pos: nat, bits: nat)
    ensures Expect(op, Wrap(pos, bits), bits) == Wrap(Ring.Expect(op, pos), bits)
  {
    WrapPlus(pos, 1, bits);
  }

  lemma CheckedAgrees<T>(s: Ring.State<T>, t: nat, k: nat, bits: nat)
    requires Fits(s, k, bits) && t < |s.threads| && s.threads[t].Loaded?
    ensures var op, pos := s.threads[t].op, s.threads[t].pos;
      var w, diff := WordsOf(s, bits), s.seqs[Ring.Slot(pos, |s.seqs|)] - Ring.Expect(op, pos);
      && Masked(Wrap(pos, bits), k) < |w.seqs|
      && Checked(w, op, Wrap(pos, bits), k, bits) ==
         if diff == 0 then Ring.Matched(op, Wrap(pos, bits))
         else if diff < 0 then Ring.Ready(if op.Send? then Ring.Full(op.value) else Ring.Empty)
         else Ring.Start(op)
  {
    var op, pos := s.threads[t].op, s.threads[t].pos;
    assert NearPc(s, s.threads[t], bits);
    LoadedTicketsCompareExactly(s, t, bits);
    Tickets.SlotIsMask(pos, k, bits);
    ExpectAgrees(op, pos, bits);
  }

  lemma CheckAgrees<T>(s: Ring.State<T>, l: Ring.Label<T>, k: nat, bits: nat)
    requires Fits(s, k, bits) && l.Check? && Ring.Step(s, l).Some?
    ensures Step(WordsOf(s, bits), l, k, bits) == Some(WordsOf(Ring.Step(s, l).value, bits))
  {
    CheckedAgrees(s, l.t, k, bits);
    PcsUpdate(s.threads, l.t, Ring.Step(s, l).value.threads[l.t], bits);
  }

  lemma CasAgrees<T>(s: Ring.State<T>, l: Ring.Label<T>, k: nat, bits: nat)
    requires Fits(s, k, bits) && l.Cas? && Ring.Step(s, l).Some?
    ensures Step(WordsOf(s, bits), l, k, bits) == Some(WordsOf(Ring.Step(s, l).value, bits))
  {
    var op, pos := s.threads[l.t].op, s.threads[l.t].pos;
    assert NearPc(s, s.threads[l.t], bits) && Ring.ThreadOk(s, s.threads[l.t]);
    SameWord(Ring.Counter(s, op), pos, bits);
    WrapPlus(pos, 1, bits);
    PcsUpdate(s.threads, l.t, Ring.Step(s, l).value.threads[l.t], bits);
  }

  lemma TouchAgrees<T>(s: Ring.State<T>, l: Ring.Label<T>, k: nat, bits: nat)
    requires Fits(s, k, bits) && l.Touch? && Ring.Step(s, l).Some?
    ensures Step(WordsOf(s, bits), l, k, bits) == Some(WordsOf(Ring.Step(s, l).value, bits))
  {
    Tickets.SlotIsMask(s.threads[l.t].pos, k, bits);
    PcsUpdate(s.threads, l.t, Ring.Step(s, l).value.threads[l.t], bits);
  }

  lemma PublishAgrees<T>(s: Ring.State<T>, l: Ring.Label<T>, k: nat, bits: nat)
    requires Fits(s, k, bits) && l.Publish? && Ring.Step(s, l).Some?
    ensures Step(WordsOf(s, bits), l, k, bits) == Some(WordsOf(Ring.Step(s, l).value, bits))
  {
    var op, pos := s.threads[l.t].op, s.threads[l.t].pos;
    Tickets.SlotIsMask(pos, k, bits);
    WrapPlus(pos, 1, bits);
    WrapPlus(pos, Pow2(k), bits);
    WrapUpdate(s.seqs, Ring.Slot(pos, |s.seqs|), Ring.NextSeq(op, pos, |s.seqs|), bits);
    PcsUpdate(s.threads, l.t, Ring.Step(s, l).value.threads[l.t], bits);
  }

  /** Each step of the ring is the machine's step. */
  lemma StepAgrees<T>(s: Ring.State<T>, l: Ring.Label<T>, k: nat, bits: nat)
    requires Fits(s, k, bits) && Ring.Step(s, l).Some?
    ensures Step(WordsOf(s, bits), l, k, bits) == Some(WordsOf(Ring.Step(s, l).value, bits))
  {
    if l.Check? {
      CheckAgrees(s, l, k, bits);
    } else if l.Cas? {
      CasAgrees(s, l, k, bits);
    } else if l.Touch? {
      TouchAgrees(s, l, k, bits);
    } else if l.Publish? {
      PublishAgrees(s, l, k, bits);
    } else {
      PcsUpdate(s.threads, l.t, Ring.Step(s, l).value.threads[l.t], bits);
    }
  }

  /** Nobody falls too far behind in the run. */
  ghost predicate NearAlong<T>(s: Ring.State<T>, labels: seq<Ring.Label<T>>, bits: nat)
    requires bits > 0
    decreases |labels|
  {
    && Near(s, bits)
    && (labels != [] && Ring.Step(s, labels[0]).Some? ==> NearAlong(Ring.Step(s, labels[0]).value, labels[1..], bits))
  }

  /** So whole runs agree, and what is proved of the ring holds of the machine. */
  lemma {:induction false} RunsAgree<T>(s: Ring.State<T>, labels: seq<Ring.Label<T>>, k: nat, bits: nat)
    requires k < bits && Ring.Inv(s) && |s.seqs| == Pow2(k) && NearAlong(s, labels, bits)
    requires Machine.Exec((x, l) => Ring.Step(x, l), s, labels).Some?
    ensures Machine.Exec((w, l) => Step(w, l, k, bits), WordsOf(s, bits), labels)
         == Some(WordsOf(Machine.Exec((x, l) => Ring.Step(x, l), s, labels).value, bits))
    decreases |labels|
  {
    if labels == [] {
    } else {
      StepAgrees(s, labels[0], k, bits);
      Ring.StepInv(s, labels[0]);
      RunsAgree(Ring.Step(s, labels[0]).value, labels[1..], k, bits);
    }
  }
}
