/** The bounded multi-producer multi-consumer ring of `channel/mp.rs`.

    `next_slot` is one retry loop used by both `try_send` and `try_recv`.  Each of
    its atomic operations is one label below; tickets are unbounded integers here,
    and module Tickets shows when the machine-word code computes the same. */
module Ring {
  import opened Wrappers
  import Machine

  /** The slot of a ticket, by repeated subtraction; `Tickets.SlotIsMask` shows
      that it is the masked index of the code. */
  function Slot(k: nat, n: nat): (i: nat)
    requires n > 0
    ensures i < n
    decreases k
  {
    if k < n then k else Slot(k - n, n)
  }

  lemma SlotLap(k: nat, n: nat)
    requires n > 0
    ensures Slot(k + n, n) == Slot(k, n)
  {
  }

  /** Two tickets of one slot are at least a lap apart. */
  lemma {:induction false} SlotApart(a: nat, b: nat, n: nat)
    requires n > 0 && a < b && Slot(a, n) == Slot(b, n)
    ensures a + n <= b
    decreases b
  {
    if a < n || b < n {
    } else {
      SlotApart(a - n, b - n, n);
    }
  }

  datatype Op<T> = Send(value: T) | Recv

  datatype Outcome<T> = Sent | Full(value: T) | Received(item: Option<T>) | Empty

  /** Where a thread stands in `next_slot`. */
  datatype Pc<T> =
    | Ready(last: Outcome<T>)                            // not inside next_slot
    | Start(op: Op<T>)                                   // at the top of the retry loop
    | Loaded(op: Op<T>, pos: nat)                        // the counter was read
    | Matched(op: Op<T>, pos: nat)                       // the sequence equalled the expected one
    | Claimed(op: Op<T>, pos: nat)                       // the exchange took ticket `pos`
    | Touched(op: Op<T>, pos: nat, item: Option<T>)      // the slot's data was written or moved out

  /** `head`, `tail`, `seqs` and `data` are the channel.  `turn`, `sent` and `got`
      are history: the ticket each slot serves, the value sent under each ticket,
      and what was read under each ticket. */
  datatype State<T> = State(
    head: nat,
    tail: nat,
    seqs: seq<nat>,
    data: seq<Option<T>>,
    threads: seq<Pc<T>>,
    turn: seq<nat>,
    sent: seq<T>,
    got: map<nat, Option<T>>)

  datatype Label<T> =
    | Begin(t: nat, op: Op<T>)
    | Load(t: nat)
    | Check(t: nat)
    | Cas(t: nat, spurious: bool)   // compare_exchange_weak may fail spuriously
    | Touch(t: nat)
    | Publish(t: nat)

  function Init<T>(n: nat, threads: nat): (r: State<T>) {
    State(0, 0, seq(n, i => i), seq(n, _ => None), seq(threads, _ => Ready(Empty)), seq(n, i => i), [], map[])
  }

  function Counter<T>(s: State<T>, op: Op<T>): (r: nat) {
    if op.Send? then s.tail else s.head
  }

  /** The sequence number that lets `op` take ticket `pos`. */
  function Expect<T>(op: Op<T>, pos: nat): (r: nat) {
    if op.Send? then pos else pos + 1
  }

  /** The sequence number that `op` leaves behind. */
  function NextSeq<T>(op: Op<T>, pos: nat, n: nat): (r: nat) {
    if op.Send? then pos + 1 else pos + n
  }

  ghost predicate WellSized<T>(s: State<T>) {
    |s.seqs| > 0 && |s.data| == |s.turn| == |s.seqs|
  }

  function Step<T>(s: State<T>, l: Label<T>): (r: Option<State<T>>)
  {
    if l.t >= |s.threads| || |s.seqs| == 0 || |s.data| != |s.seqs| || |s.turn| != |s.seqs| then None else
    var n := |s.seqs|;
    match (l, s.threads[l.t])
    case (Begin(t, op), Ready(_)) =>
      Some(s.(threads := s.threads[t := Start(op)]))
    case (Load(t), Start(op)) =>
      Some(s.(threads := s.threads[t := Loaded(op, Counter(s, op))]))
    case (Check(t), Loaded(op, pos)) =>
      var diff := s.seqs[Slot(pos, n)] - Expect(op, pos);
      var pc :=
        if diff == 0 then Matched(op, pos)
        else if diff < 0 then Ready(if op.Send? then Full(op.value) else Empty)
        else Start(op);
      Some(s.(threads := s.threads[t := pc]))
    case (Cas(t, spurious), Matched(op, pos)) =>
      if spurious || Counter(s, op) != pos then
        Some(s.(threads := s.threads[t := Start(op)]))
      else if op.Send? then
        Some(s.(tail := pos + 1, sent := s.sent + [op.value], threads := s.threads[t := Claimed(op, pos)]))
      else
        Some(s.(head := pos + 1, threads := s.threads[t := Claimed(op, pos)]))
    case (Touch(t), Claimed(op, pos)) =>
      var i := Slot(pos, n);
      if op.Send? then
        Some(s.(data := s.data[i := Some(op.value)], threads := s.threads[t := Touched(op, pos, None)]))
      else
        Some(s.(data := s.data[i := None], got := s.got[pos := s.data[i]],
          threads := s.threads[t := Touched(op, pos, s.data[i])]))
    case (Publish(t), Touched(op, pos, item)) =>
      var i := Slot(pos, n);
      var next := NextSeq(op, pos, n);
      Some(s.(seqs := s.seqs[i := next],
              turn := s.turn[i := if op.Send? then pos else next],
              threads := s.threads[t := Ready(if op.Send? then Sent else Received(item))]))
    case _ => None
  }

  // ----- the invariant

  predicate Owner<T>(pc: Pc<T>) {
    pc.Claimed? || pc.Touched?
  }

  predicate Owns<T>(pc: Pc<T>, k: nat, send: bool) {
    Owner(pc) && pc.pos == k && pc.op.Send? == send
  }

  /** Some thread has taken ticket `k` and not yet published. */
  ghost predicate Holds<T>(threads: seq<Pc<T>>, k: nat, send: bool) {
    exists t :: 0 <= t < |threads| && Owns(threads[t], k, send)
  }

  lemma HoldsFrame<T>(threads: seq<Pc<T>>, t: nat, pc: Pc<T>)
    requires t < |threads|
    ensures forall k: nat, send: bool ::
      Holds(threads, k, send) && (Owns(threads[t], k, send) ==> Owns(pc, k, send)) ==> Holds(threads[t := pc], k, send)
    ensures Owner(pc) ==> Holds(threads[t := pc], pc.pos, pc.op.Send?)
  {
    var threads' := threads[t := pc];
    forall k: nat, send: bool |
      Holds(threads, k, send) && (Owns(threads[t], k, send) ==> Owns(pc, k, send))
      ensures Holds(threads', k, send)
    {
      var u :| 0 <= u < |threads| && Owns(threads[u], k, send);
      assert Owns(threads'[u], k, send);
    }
    assert Owner(pc) ==> Owns(threads'[t], pc.pos, pc.op.Send?);
  }

  /** A slot serves one ticket at a time: free for its sender, then full for its receiver. */
  ghost predicate SlotOk<T>(s: State<T>, i: nat)
    requires WellSized(s) && i < |s.seqs| && |s.sent| == s.tail
  {
    var n, k := |s.seqs|, s.turn[i];
    && Slot(k, n) == i
    && s.head < k + n + 1 && s.tail <= k + n
    && k < s.head + n
    && (s.seqs[i] == k || s.seqs[i] == k + 1)
    && (s.seqs[i] == k ==>
          && s.head <= k
          && (s.tail <= k ==> s.data[i] == None)
          && (k < s.tail ==> Holds(s.threads, k, true)))
    && (s.seqs[i] == k + 1 ==>
          && k < s.tail
          && (s.head <= k ==> s.data[i] == Some(s.sent[k]))
          && (k < s.head ==> Holds(s.threads, k, false)))
  }

  ghost predicate ThreadOk<T>(s: State<T>, pc: Pc<T>)
    requires WellSized(s) && |s.sent| == s.tail
  {
    match pc
    case Ready(_) => true
    case Start(_) => true
    case Loaded(op, pos) => pos <= Counter(s, op)
    case Matched(op, pos) =>
      // The sequence that was read is still current if the exchange succeeds.
      && pos <= Counter(s, op)
      && (pos == Counter(s, op) ==> s.seqs[Slot(pos, |s.seqs|)] == Expect(op, pos))
    case Claimed(op, pos) =>
      var i := Slot(pos, |s.seqs|);
      && pos < Counter(s, op) && pos < s.tail && s.turn[i] == pos && s.seqs[i] == Expect(op, pos)
      && s.data[i] == (if op.Send? then None else Some(s.sent[pos]))
      && (if op.Send? then s.sent[pos] == op.value else pos !in s.got)
    case Touched(op, pos, item) =>
      var i := Slot(pos, |s.seqs|);
      && pos < Counter(s, op) && pos < s.tail && s.turn[i] == pos && s.seqs[i] == Expect(op, pos)
      && s.data[i] == (if op.Send? then Some(s.sent[pos]) else None)
      && (if op.Send? then s.sent[pos] == op.value else item == Some(s.sent[pos]) && pos in s.got)
  }

  ghost predicate Inv<T>(s: State<T>) {
    && WellSized(s)
    && |s.seqs| >= 2
    && |s.sent| == s.tail
    && s.head <= s.tail
    && (forall i :: 0 <= i < |s.seqs| ==> SlotOk(s, i))
    && (forall t :: 0 <= t < |s.threads| ==> ThreadOk(s, s.threads[t]))
    && (forall t, u :: 0 <= t < u < |s.threads| && Owner(s.threads[t]) && Owner(s.threads[u]) ==>
      s.threads[t].pos != s.threads[u].pos)
    && (forall k :: k in s.got ==> k < s.head && s.got[k] == Some(s.sent[k]))
    && (forall k: nat :: k < s.head ==> k in s.got || Holds(s.threads, k, false))
  }

  lemma InitInv<T>(n: nat, threads: nat)
    requires n >= 2
    ensures Inv<T>(Init(n, threads))
  {
  }

  /** Two slots never serve the same ticket, and a ticket has one slot. */
  lemma TurnUnique<T>(s: State<T>, i: nat, k: nat)
    requires Inv(s) && i < |s.seqs| && Slot(k, |s.seqs|) == i
    ensures s.seqs[i] == k ==> s.turn[i] == k
    ensures s.seqs[i] == k + 1 ==> s.turn[i] == k
  {
    var n := |s.seqs|;
    assert SlotOk(s, i);
    if s.turn[i] < k {
      SlotApart(s.turn[i], k, n);
    } else if k < s.turn[i] {
      SlotApart(k, s.turn[i], n);
    }
  }

  /** Steps that take no ticket and write nothing but the thread's own place. */
  lemma QuietInv<T>(s: State<T>, l: Label<T>)
    requires Inv(s) && Step(s, l).Some?
    requires Step(s, l).value.(threads := s.threads) == s && !Owner(s.threads[l.t])
    ensures Inv(Step(s, l).value)
  {
    var s' := Step(s, l).value;
    HoldsFrame(s.threads, l.t, s'.threads[l.t]);
    forall i | 0 <= i < |s.seqs| ensures SlotOk(s', i) { assert SlotOk(s, i); }
    forall u | 0 <= u < |s.threads| ensures ThreadOk(s', s'.threads[u]) { QuietThreads(s, l, u); }
  }

  lemma QuietThreads<T>(s: State<T>, l: Label<T>, u: nat)
    requires Inv(s) && Step(s, l).Some? && u < |s.threads|
    requires Step(s, l).value.(threads := s.threads) == s && !Owner(s.threads[l.t])
    ensures var s' := Step(s, l).value; |s'.threads| == |s.threads| && ThreadOk(s', s'.threads[u])
  {
    assert ThreadOk(s, s.threads[u]) && ThreadOk(s, s.threads[l.t]);
  }

  lemma CasSlots<T>(s: State<T>, t: nat, op: Op<T>, pos: nat, i: nat)
    requires Inv(s) && t < |s.threads| && s.threads[t] == Matched(op, pos) && Counter(s, op) == pos
    requires i < |s.seqs|
    ensures SlotOk(Step(s, Cas(t, false)).value, i)
  {
    var s' := Step(s, Cas(t, false)).value;
    var n := |s.seqs|;
    HoldsFrame(s.threads, t, s'.threads[t]);
    assert ThreadOk(s, s.threads[t]);
    TurnUnique(s, Slot(pos, n), pos);
    assert SlotOk(s, i);
    SlotLap(s.turn[i], n);
  }

  lemma CasThreads<T>(s: State<T>, t: nat, op: Op<T>, pos: nat, u: nat)
    requires Inv(s) && t < |s.threads| && s.threads[t] == Matched(op, pos) && Counter(s, op) == pos
    requires u < |s.threads|
    ensures var s' := Step(s, Cas(t, false)).value;
      |s'.sent| == s'.tail && s'.head <= s'.tail && ThreadOk(s', s'.threads[u])
    ensures u != t && Owner(s.threads[u]) ==> s.threads[u].pos != pos
  {
    assert ThreadOk(s, s.threads[t]) && ThreadOk(s, s.threads[u]);
    TurnUnique(s, Slot(pos, |s.seqs|), pos);
    assert SlotOk(s, Slot(pos, |s.seqs|));
  }

  lemma CasInv<T>(s: State<T>, t: nat, op: Op<T>, pos: nat)
    requires Inv(s) && t < |s.threads| && s.threads[t] == Matched(op, pos) && Counter(s, op) == pos
    ensures Inv(Step(s, Cas(t, false)).value)
  {
    var s' := Step(s, Cas(t, false)).value;
    HoldsFrame(s.threads, t, s'.threads[t]);
    CasThreads(s, t, op, pos, t);
    forall i | 0 <= i < |s.seqs| ensures SlotOk(s', i) {
      CasSlots(s, t, op, pos, i);
    }
    forall u | 0 <= u < |s.threads|
      ensures ThreadOk(s', s'.threads[u])
      ensures u != t && Owner(s.threads[u]) ==> s.threads[u].pos != pos
    {
      CasThreads(s, t, op, pos, u);
    }
  }

  lemma TouchInv<T>(s: State<T>, t: nat, op: Op<T>, pos: nat)
    requires Inv(s) && t < |s.threads| && s.threads[t] == Claimed(op, pos)
    ensures Inv(Step(s, Touch(t)).value)
  {
    var s' := Step(s, Touch(t)).value;
    HoldsFrame(s.threads, t, s'.threads[t]);
    assert ThreadOk(s, s.threads[t]);
    forall i | 0 <= i < |s.seqs| ensures SlotOk(s', i) {
      TouchSlots(s, t, op, pos, i);
    }
    forall u | 0 <= u < |s.threads| ensures ThreadOk(s', s'.threads[u]) {
      TouchThreads(s, t, op, pos, u);
    }
    assert forall k :: k in s'.got ==> k in s.got || k == pos;
  }

  lemma TouchThreads<T>(s: State<T>, t: nat, op: Op<T>, pos: nat, u: nat)
    requires Inv(s) && t < |s.threads| && s.threads[t] == Claimed(op, pos) && u < |s.threads|
    ensures var s' := Step(s, Touch(t)).value; |s'.threads| == |s.threads| && ThreadOk(s', s'.threads[u])
  {
    assert ThreadOk(s, s.threads[t]) && ThreadOk(s, s.threads[u]);
  }

  lemma TouchSlots<T>(s: State<T>, t: nat, op: Op<T>, pos: nat, i: nat)
    requires Inv(s) && t < |s.threads| && s.threads[t] == Claimed(op, pos) && i < |s.seqs|
    ensures SlotOk(Step(s, Touch(t)).value, i)
  {
    HoldsFrame(s.threads, t, Step(s, Touch(t)).value.threads[t]);
    assert ThreadOk(s, s.threads[t]) && SlotOk(s, i);
  }

  lemma PublishInv<T>(s: State<T>, t: nat, op: Op<T>, pos: nat, item: Option<T>)
    requires Inv(s) && t < |s.threads| && s.threads[t] == Touched(op, pos, item)
    ensures Inv(Step(s, Publish(t)).value)
  {
    var s' := Step(s, Publish(t)).value;
    var n := |s.seqs|;
    HoldsFrame(s.threads, t, s'.threads[t]);
    assert ThreadOk(s, s.threads[t]);
    SlotLap(pos, n);
    forall i | 0 <= i < |s.seqs| ensures SlotOk(s', i) {
      PublishSlots(s, t, op, pos, item, i);
    }
    forall u | 0 <= u < |s.threads| ensures ThreadOk(s', s'.threads[u]) {
      assert ThreadOk(s, s.threads[u]);
      if u != t && s.threads[u].Matched? && Slot(s.threads[u].pos, n) == Slot(pos, n) {
        TurnUnique(s, Slot(pos, n), s.threads[u].pos);
      }
    }
  }

  lemma PublishSlots<T>(s: State<T>, t: nat, op: Op<T>, pos: nat, item: Option<T>, i: nat)
    requires Inv(s) && t < |s.threads| && s.threads[t] == Touched(op, pos, item) && i < |s.seqs|
    ensures SlotOk(Step(s, Publish(t)).value, i)
  {
    HoldsFrame(s.threads, t, Step(s, Publish(t)).value.threads[t]);
    assert ThreadOk(s, s.threads[t]) && SlotOk(s, i);
    SlotLap(pos, |s.seqs|);
  }

  lemma StepInv<T>(s: State<T>, l: Label<T>)
    requires Inv(s) && Step(s, l).Some?
    ensures Inv(Step(s, l).value)
  {
    match (l, s.threads[l.t])
    case (Cas(t, spurious), Matched(op, pos)) =>
      if !spurious && Counter(s, op) == pos {
        CasInv(s, t, op, pos);
      } else {
        QuietInv(s, l);
      }
    case (Touch(t), Claimed(op, pos)) => TouchInv(s, t, op, pos);
    case (Publish(t), Touched(op, pos, item)) => PublishInv(s, t, op, pos, item);
    case _ => QuietInv(s, l);
  }

  // ----- what holds of every run

  ghost function Run<T>(n: nat, threads: nat, labels: seq<Label<T>>): (r: Option<State<T>>) {
    Machine.Exec((s, l) => Step(s, l), Init(n, threads), labels)
  }

  /** The values claimed by senders and not yet by receivers, oldest first. */
  function Queue<T>(s: State<T>): (r: seq<T>)
    requires s.head <= s.tail <= |s.sent|
  {
    s.sent[s.head..s.tail]
  }

  /** Nothing is lost, duplicated or changed: each ticket below `head` was read once
      with the value sent under it, or its one receiver is about to. */
  ghost predicate Safe<T>(s: State<T>) {
    && s.head <= s.tail <= s.head + |s.seqs|
    && |s.sent| == s.tail
    && (forall k :: k in s.got ==> k < s.head && s.got[k] == Some(s.sent[k]))
    && (forall k: nat :: k < s.head ==> k in s.got || Holds(s.threads, k, false))
    && (forall t, u :: 0 <= t < u < |s.threads| && Owner(s.threads[t]) && Owner(s.threads[u]) ==>
      s.threads[t].pos != s.threads[u].pos)
  }

  lemma InvIsSafe<T>(s: State<T>)
    requires Inv(s)
    ensures Safe(s)
  {
    var n, i := |s.seqs|, Slot(s.head, |s.seqs|);
    assert SlotOk(s, i);
    if s.turn[i] < s.head {
      SlotApart(s.turn[i], s.head, n);
    } else if s.head < s.turn[i] {
      SlotApart(s.head, s.turn[i], n);
    }
  }

  /** Every interleaving over two or more slots is safe. */
  lemma RunsAreSafe<T(!new)>(n: nat, threads: nat, labels: seq<Label<T>>)
    requires n >= 2 && Run(n, threads, labels).Some?
    ensures Inv(Run(n, threads, labels).value) && Safe(Run(n, threads, labels).value)
    ensures |Run(n, threads, labels).value.seqs| == n
  {
    InitInv<T>(n, threads);
    forall s: State<T>, l | Inv(s) && Step(s, l).Some? ensures Inv(Step(s, l).value) { StepInv(s, l); }
    Machine.RunsKeep((s, l) => Step(s, l), s => Inv(s) && |s.seqs| == n, Init<T>(n, threads), labels);
    InvIsSafe(Run(n, threads, labels).value);
  }

  /** Seen as a queue, only a successful exchange does anything: a sender's appends
      its value, a receiver's removes the front, and there are never more than
      `n` values. */
  lemma RefinesQueue<T>(s: State<T>, l: Label<T>)
    requires Inv(s) && Step(s, l).Some?
    ensures Inv(Step(s, l).value)
    ensures var s' := Step(s, l).value;
      && |Queue(s)| <= |s.seqs|
      && (if l.Cas? && s'.threads[l.t].Claimed? then
            if s'.threads[l.t].op.Send? then Queue(s') == Queue(s) + [s'.threads[l.t].op.value]
            else |Queue(s)| > 0 && Queue(s) == [s.sent[s.head]] + Queue(s') && s'.threads[l.t].pos == s.head
          else Queue(s') == Queue(s))
    ensures var s' := Step(s, l).value;
      s.sent <= s'.sent && (forall k :: k in s.got ==> k in s'.got && s'.got[k] == s.got[k])
  {
    StepInv(s, l);
    InvIsSafe(s);
    assert ThreadOk(s, s.threads[l.t]);
    var s' := Step(s, l).value;
    InvIsSafe(s');
  }

  /** After every run: a sender that comes to its slot does not write over a value, a receiver
      finds the value of its ticket there and is the first to read it, and `recv` returns
      exactly that value. */
  lemma DataAccess<T(!new)>(n: nat, threads: nat, labels: seq<Label<T>>, l: Label<T>)
    requires n >= 2 && Run(n, threads, labels).Some? && Step(Run(n, threads, labels).value, l).Some?
    ensures |Run(n, threads, labels).value.data| == n
    ensures var s := Run(n, threads, labels).value;
      && (l.Touch? ==>
            var pc := s.threads[l.t];
            if pc.op.Send? then s.data[Slot(pc.pos, n)] == None
            else pc.pos < |s.sent| && s.data[Slot(pc.pos, n)] == Some(s.sent[pc.pos]) && pc.pos !in s.got)
      && (l.Publish? && s.threads[l.t].op.Recv? ==>
            && s.threads[l.t].pos < |s.sent|
            && Step(s, l).value.threads[l.t] == Ready(Received(Some(s.sent[s.threads[l.t].pos]))))
  {
    RunsAreSafe(n, threads, labels);
    var s := Run(n, threads, labels).value;
    assert ThreadOk(s, s.threads[l.t]);
  }

  /** `try_send` reports "full" only at the current tail, and only while the ticket a
      lap back is unread or some thread has not finished with it. */
  lemma FullMeansFull<T>(s: State<T>, t: nat, value: T, pos: nat)
    requires Inv(s) && t < |s.threads| && s.threads[t] == Loaded(Send(value), pos)
    requires Step(s, Check(t)).value.threads[t] == Ready(Full(value))
    ensures pos == s.tail && s.tail >= |s.seqs|
    ensures s.tail - |s.seqs| >= s.head || Holds(s.threads, s.tail - |s.seqs|, true)
      || Holds(s.threads, s.tail - |s.seqs|, false)
  {
    var n, i := |s.seqs|, Slot(pos, |s.seqs|);
    assert ThreadOk(s, s.threads[t]) && SlotOk(s, i);
    SlotApart(s.turn[i], pos, n);
  }

  /** `try_recv` reports "empty" only at the current head, and only if no value is
      queued or the sender of the front value has not published it. */
  lemma EmptyMeansEmpty<T>(s: State<T>, t: nat, pos: nat)
    requires Inv(s) && t < |s.threads| && s.threads[t] == Loaded(Recv, pos)
    requires Step(s, Check(t)).value.threads[t] == Ready(Empty)
    ensures pos == s.head
    ensures s.head == s.tail || Holds(s.threads, s.head, true)
  {
    var n, i := |s.seqs|, Slot(pos, |s.seqs|);
    assert ThreadOk(s, s.threads[t]) && SlotOk(s, i);
    if s.turn[i] < pos {
      SlotApart(s.turn[i], pos, n);
    }
  }

  /** What the users of a ring see of a step: one thread moves, and a counter moves
      exactly when that thread takes a ticket. */
  ghost predicate Effect<T>(s: State<T>, s': State<T>, t: nat) {
    && t < |s.threads| == |s'.threads|
    && (forall u :: 0 <= u < |s.threads| && u != t ==> s'.threads[u] == s.threads[u])
    && (if s.threads[t].Matched? && s'.threads[t].Claimed? then
          && s'.threads[t].op == s.threads[t].op
          && (if s.threads[t].op.Send? then s'.tail == s.tail + 1 && s'.head == s.head
              else s'.head == s.head + 1 && s'.tail == s.tail)
        else s'.head == s.head && s'.tail == s.tail)
  }

  /** The order of the operations of one call. */
  ghost predicate Follows<T>(pc: Pc<T>, pc': Pc<T>) {
    match pc
    case Ready(_) => pc'.Start?
    case Start(op) => pc'.Loaded? && pc'.op == op
    case Loaded(op, _) =>
      if pc'.Ready? then pc'.last == (if op.Send? then Full(op.value) else Empty)
      else (pc'.Matched? || pc'.Start?) && pc'.op == op
    case Matched(op, _) => (pc'.Claimed? || pc'.Start?) && pc'.op == op
    case Claimed(op, _) => pc'.Touched? && pc'.op == op
    case Touched(op, _, _) => pc'.Ready? && (if op.Send? then pc'.last.Sent? else pc'.last.Received?)
  }

  lemma StepSeen<T>(s: State<T>, l: Label<T>)
    requires Step(s, l).Some?
    ensures Effect(s, Step(s, l).value, l.t)
    ensures Follows(s.threads[l.t], Step(s, l).value.threads[l.t])
  {
  }

  // ----- `len` and `spare_capacity`

  lemma {:induction false} CountersGrow<T>(s: State<T>, labels: seq<Label<T>>)
    requires Machine.Exec((x, l) => Step(x, l), s, labels).Some?
    ensures var s' := Machine.Exec((x, l) => Step(x, l), s, labels).value;
      s.head <= s'.head && s.tail <= s'.tail && |s'.seqs| == |s.seqs|
    decreases |labels|
  {
    if labels == [] {
    } else {
      StepSeen(s, labels[0]);
      CountersGrow(Step(s, labels[0]).value, labels[1..]);
    }
  }

  /** Their two loads are apart by any steps of others.  Neither difference wraps, and zero
      is exact at the first load: `len` loads `head` first, `spare_capacity` `tail`. */
  lemma LoadsApart<T>(s: State<T>, labels: seq<Label<T>>)
    requires Inv(s) && Machine.Exec((x, l) => Step(x, l), s, labels).Some?
    ensures var s', n := Machine.Exec((x, l) => Step(x, l), s, labels).value, |s.seqs|;
      && s'.tail - s.head >= |Queue(s)| && (s'.tail - s.head == 0 ==> Queue(s) == [])
      && s'.head + n - s.tail >= n - |Queue(s)| >= 0 && (s'.head + n - s.tail == 0 ==> |Queue(s)| == n)
  {
    InvIsSafe(s);
    CountersGrow(s, labels);
  }

  // ----- calls that run undisturbed

  ghost predicate Quiet<T>(s: State<T>) {
    forall t :: 0 <= t < |s.threads| ==> s.threads[t].Ready?
  }

  /** A call up to the comparison of the sequence. */
  function Ask<T>(t: nat, op: Op<T>): (r: seq<Label<T>>) {
    [Begin(t, op), Load(t), Check(t)]
  }

  /** The rest of a call that may go on. */
  function Take<T>(t: nat): (r: seq<Label<T>>) {
    [Cas(t, false), Touch(t), Publish(t)]
  }

  ghost function Do<T>(s: State<T>, labels: seq<Label<T>>): (r: Option<State<T>>) {
    Machine.Exec((x, l) => Step(x, l), s, labels)
  }

  lemma AskAlone<T>(s: State<T>, t: nat, op: Op<T>)
    requires WellSized(s) && t < |s.threads| && s.threads[t].Ready?
    ensures var pos := Counter(s, op);
      var diff := s.seqs[Slot(pos, |s.seqs|)] - Expect(op, pos);
      Do(s, Ask(t, op)) == Some(s.(threads := s.threads[t :=
        if diff == 0 then Matched(op, pos)
        else if diff < 0 then Ready(if op.Send? then Full(op.value) else Empty)
        else Start(op)]))
  {
    var s1 := Step(s, Begin(t, op)).value;
    var s2 := Step(s1, Load(t)).value;
    var s3 := Step(s2, Check(t)).value;
    Machine.ExecThree((x, l) => Step(x, l), s, Begin(t, op), Load(t), Check(t));
    assert s3.threads == s.threads[t := s3.threads[t]];
  }

  /** Taking ticket `Counter(s, op)` alone: the value is stored or moved out and the
      slot is handed on. */
  lemma TakeAlone<T>(s: State<T>, t: nat, op: Op<T>)
    requires WellSized(s) && t < |s.threads| && s.threads[t] == Matched(op, Counter(s, op))
    ensures Do(s, Take(t)).Some?
    ensures var s', pos, n := Do(s, Take(t)).value, Counter(s, op), |s.seqs|;
      var i := Slot(pos, n);
      && |s'.seqs| == n && s'.seqs == s.seqs[i := NextSeq(op, pos, n)]
      && (if op.Send? then s'.tail == s.tail + 1 && s'.head == s.head && s'.sent == s.sent + [op.value]
          else s'.tail == s.tail && s'.head == s.head + 1 && s'.sent == s.sent)
      && s'.threads == s.threads[t := Ready(if op.Send? then Sent else Received(s.data[i]))]
  {
    Machine.ExecThree((x, l) => Step(x, l), s, Cas(t, false), Touch(t), Publish(t));
  }

  /** Between calls the slots hold exactly the queued values. */
  lemma QuietContents<T>(s: State<T>)
    requires Inv(s) && Quiet(s)
    ensures s.head <= s.tail <= s.head + |s.seqs|
    ensures forall k :: s.head <= k < s.tail ==>
      s.data[Slot(k, |s.seqs|)] == Some(s.sent[k]) && s.seqs[Slot(k, |s.seqs|)] == k + 1
    ensures forall k :: s.tail <= k < s.head + |s.seqs| ==>
      s.data[Slot(k, |s.seqs|)] == None && s.seqs[Slot(k, |s.seqs|)] == k
    ensures forall k: nat :: k < s.head <==> k in s.got
  {
    var n := |s.seqs|;
    InvIsSafe(s);
    forall k | s.head <= k < s.head + n
      ensures s.turn[Slot(k, n)] == k
    {
      var i := Slot(k, n);
      assert SlotOk(s, i);
      if s.turn[i] < k {
        SlotApart(s.turn[i], k, n);
      } else if k < s.turn[i] {
        SlotApart(k, s.turn[i], n);
      }
    }
    forall k | s.head <= k < s.head + n
      ensures if k < s.tail then s.data[Slot(k, n)] == Some(s.sent[k]) && s.seqs[Slot(k, n)] == k + 1
        else s.data[Slot(k, n)] == None && s.seqs[Slot(k, n)] == k
    {
      assert SlotOk(s, Slot(k, n));
    }
  }

  lemma ExecInv<T(!new)>(s: State<T>, labels: seq<Label<T>>)
    requires Inv(s) && Do(s, labels).Some?
    ensures Inv(Do(s, labels).value)
  {
    forall x: State<T>, l | Inv(x) && Step(x, l).Some? ensures Inv(Step(x, l).value) { StepInv(x, l); }
    Machine.RunsKeep((x, l) => Step(x, l), x => Inv(x), s, labels);
  }

  /** Undisturbed, `try_send` succeeds exactly when fewer than `n` values are queued,
      and `try_recv` exactly when one is; they are enqueue and dequeue. */
  lemma QuietCalls<T(!new)>(s: State<T>, t: nat, op: Op<T>)
    requires Inv(s) && Quiet(s) && t < |s.threads|
    ensures Do(s, Ask(t, op)).Some?
    ensures var asked := Do(s, Ask(t, op)).value;
      if if op.Send? then |Queue(s)| < |s.seqs| else |Queue(s)| > 0 then
        var done := Do(s, Ask(t, op) + Take(t));
        && done.Some? && Inv(done.value) && Quiet(done.value)
        && Queue(done.value) == (if op.Send? then Queue(s) + [op.value] else Queue(s)[1..])
        && |done.value.threads| == |s.threads|
        && done.value.threads[t] == Ready(if op.Send? then Sent else Received(Some(Queue(s)[0])))
      else
        asked == s.(threads := s.threads[t := Ready(if op.Send? then Full(op.value) else Empty)])
  {
    var pos, n := Counter(s, op), |s.seqs|;
    QuietContents(s);
    AskAlone(s, t, op);
    if if op.Send? then |Queue(s)| < n else |Queue(s)| > 0 {
      var asked := Do(s, Ask(t, op)).value;
      TakeAlone(asked, t, op);
      Machine.ExecConcat((x, l) => Step(x, l), s, Ask(t, op), Take(t));
      ExecInv(s, Ask(t, op) + Take(t));
    } else if op.Send? {
      SlotLap(s.head, n);
    }
  }

  // ----- one slot is not enough

  ghost predicate AlwaysSafe<T(!new)>(n: nat) {
    forall threads: nat, labels: seq<Label<T>> :: Run(n, threads, labels).Some? ==> Safe(Run(n, threads, labels).value)
  }

  /** With one slot the code for "published" is the code for "free for the next lap",
      so a second send overwrites the first.  The ring is safe in all runs exactly
      from two slots on; `create_slots` only refuses zero. */
  lemma SafeFromTwoSlots<T(!new)>(n: nat, value: T)
    requires n > 0
    ensures AlwaysSafe<T>(n) <==> n >= 2
  {
    if n >= 2 {
      forall threads: nat, labels: seq<Label<T>> | Run(n, threads, labels).Some?
        ensures Safe(Run(n, threads, labels).value)
      {
        RunsAreSafe(n, threads, labels);
      }
    } else {
      TwoSendsIntoOneSlot(value);
    }
  }

  lemma TwoSendsIntoOneSlot<T>(value: T)
    ensures var call := Ask(0, Send(value)) + Take(0);
      Run(1, 1, call + call).Some? && !Safe(Run(1, 1, call + call).value)
  {
    var step := (x: State<T>, l: Label<T>) => Step(x, l);
    var op := Send(value);
    var call := Ask(0, op) + Take(0);
    var s0 := Init<T>(1, 1);
    AskAlone(s0, 0, op);
    TakeAlone(Do(s0, Ask(0, op)).value, 0, op);
    Machine.ExecConcat(step, s0, Ask(0, op), Take(0));
    var s1 := Do(s0, call).value;
    AskAlone(s1, 0, op);
    TakeAlone(Do(s1, Ask(0, op)).value, 0, op);
    Machine.ExecConcat(step, s1, Ask(0, op), Take(0));
    Machine.ExecConcat(step, s0, call, call);
  }
}
