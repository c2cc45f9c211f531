/** The reading loops of `async_std/io/read.rs`, on a buffered reader. */
module Reading {
  import opened Wrappers
  import opened Stream
  import opened BufReader

  lemma CopiedMore(r: BufReader, buf: array<Byte>, lo: nat, n: nat, m: nat, pos: int)
    requires r.Copied(buf, lo, n, pos) && r.Copied(buf, lo + n, m, pos + n)
    ensures r.Copied(buf, lo, n + m, pos)
  {
    if n > 0 && m > 0 {
      assert buf[lo..lo + n + m] == buf[lo..lo + n] + buf[lo + n..lo + n + m];
      assert r.reader.bytes[pos..pos + n + m] == r.reader.bytes[pos..pos + n] + r.reader.bytes[pos + n..pos + n + m];
    }
  }

  /** One call met the errors it met: none, or the one that ended it. */
  ghost predicate AtMostOne(before: seq<IoError>, after: seq<IoError>) {
    after == before || (|after| == |before| + 1 && after[..|before|] == before)
  }

  /** The error other than an interrupt that ended a call. */
  ghost function Failure(before: seq<IoError>, after: seq<IoError>): (e: Option<IoError>)
    ensures e.Some? ==> e.value != Interrupted
  {
    if |after| > |before| && after[|after| - 1] != Interrupted then Some(after[|after| - 1]) else None
  }

  /** What `try_read_fully` answers after it has read `n` of `len` bytes. */
  ghost function Answer(n: nat, len: nat, interrupted: bool, failure: Option<IoError>): (r: Result<nat, IoError>)
    ensures r.Ok? ==> r.value == n
  {
    if failure.Some? then Err(failure.value)
    else if n == 0 && len > 0 && interrupted then Err(Interrupted)
    else Ok(n)
  }

  /** One round of a reading loop: what it reads goes behind the `read` bytes there are. */
  method ReadMore(r: BufReader, buf: array<Byte>, lo: nat, hi: nat, read: nat, ghost pos: int)
    returns (step: Result<nat, IoError>)
    requires r.Valid() && buf != r.data && lo + read < hi <= buf.Length
    requires r.Position() == pos + read && r.Copied(buf, lo, read, pos)
    modifies r`start, r`end, r`origin, r`validFrom, r.reader`pos, r.reader`errors, r.data, buf
    ensures r.Valid() && r.reader.errors == Logged(old(r.reader.errors), step)
    ensures forall i :: 0 <= i < buf.Length && !(lo <= i < hi) ==> buf[i] == old(buf[i])
    ensures var n := if step.Ok? then step.value else 0;
      r.Position() == pos + read + n && lo + read + n <= hi && r.Copied(buf, lo, read + n, pos)
    ensures step == Ok(0) ==> r.Position() >= |r.reader.bytes|
    ensures old(r.start != r.end) ==>
      step == Ok(if hi - lo - read < old(r.end - r.start) then hi - lo - read else old(r.end - r.start))
  {
    ghost var before := buf[..];
    step := r.Read(buf, lo + read, hi);
    assert buf[lo..lo + read] == before[lo..lo + read];
    if step.Ok? {
      CopiedMore(r, buf, lo, read, step.value, pos);
    }
  }

  /** `try_read_fully`: reads until the slice is full, the stream ends, or an interrupt
      stops it.  `interrupted` is whether the caller's task is interrupted.  What was
      consumed is in the slice, and how much that was and how the stream failed decide the
      answer.  Bytes that are buffered are always got. */
  method TryReadFully(r: BufReader, buf: array<Byte>, lo: nat, hi: nat, interrupted: bool)
    returns (result: Result<nat, IoError>)
    requires r.Valid() && buf != r.data && lo <= hi <= buf.Length
    modifies r`start, r`end, r`origin, r`validFrom, r.reader`pos, r.reader`errors, r.data, buf
    ensures r.Valid() && 0 <= r.Position() - old(r.Position()) <= hi - lo
    ensures forall i :: 0 <= i < buf.Length && !(lo <= i < hi) ==> buf[i] == old(buf[i])
    ensures r.Copied(buf, lo, r.Position() - old(r.Position()), old(r.Position()))
    ensures AtMostOne(old(r.reader.errors), r.reader.errors)
    ensures r.Position() - old(r.Position()) == hi - lo ==> r.reader.errors == old(r.reader.errors)
    ensures r.Position() - old(r.Position()) < hi - lo && r.reader.errors == old(r.reader.errors) ==>
      r.Position() >= |r.reader.bytes|
    ensures result == Answer(r.Position() - old(r.Position()), hi - lo, interrupted,
      Failure(old(r.reader.errors), r.reader.errors))
    ensures hi - lo <= old(r.end - r.start) ==> result == Ok(hi - lo)
  {
    if lo == hi {
      return Ok(0);
    }
    var read := 0;
    ghost var pos := r.Position();
    while read < hi - lo
      invariant r.Valid() && r.Position() == pos + read && lo + read <= hi && r.Copied(buf, lo, read, pos)
      invariant forall i :: 0 <= i < buf.Length && !(lo <= i < hi) ==> buf[i] == old(buf[i])
      invariant r.reader.errors == old(r.reader.errors)
      invariant hi - lo <= old(r.end - r.start) ==> read == hi - lo || (read == 0 && hi - lo <= r.end - r.start)
      decreases hi - lo - read
    {
      var step := ReadMore(r, buf, lo, hi, read, pos);
      match step {
        case Ok(n) =>
          if n == 0 {
            break;
          }
          read := read + n;
        case Err(e) =>
          if e == Interrupted {
            break;
          }
          return Err(e);
      }
    }
    if read == 0 && interrupted {
      return Err(Interrupted);
    }
    return Ok(read);
  }

  /** `memchr`. */
  function Find(b: Byte, s: seq<Byte>): (i: Option<nat>)
    ensures i == None <==> b !in s
    ensures i.Some? ==> i.value < |s| && s[i.value] == b && b !in s[..i.value]
  {
    if s == [] then None
    else if s[0] == b then Some(0)
    else match Find(b, s[1..])
      case None => None
      case Some(j) => assert s[..j + 1] == [s[0]] + s[1..][..j]; Some(j + 1)
  }

  /** The last byte is `b`, and it is not among those before. */
  predicate EndsWith(b: Byte, s: seq<Byte>) {
    s != [] && s[|s| - 1] == b && b !in s[..|s| - 1]
  }

  /** These are the stream's bytes between the two positions. */
  ghost predicate ShownAt(bytes: seq<Byte>, pos: int, s: seq<Byte>, end: int) {
    && 0 <= pos && end == pos + |s|
    && (s != [] ==> end <= |bytes| && s == bytes[pos..end])
  }

  /** These are the stream's bytes from that position to where the reader stands. */
  ghost predicate Shown(r: BufReader, pos: int, s: seq<Byte>)
    reads r, r.reader
  {
    ShownAt(r.reader.bytes, pos, s, r.Position())
  }

  /** Takes what is buffered up to the delimiter. */
  method TakeUntil(r: BufReader, delimiter: Byte, ghost pos: int, ghost seen: seq<Byte>)
    returns (taken: seq<Byte>, done: bool)
    requires r.Valid() && Shown(r, pos, seen) && delimiter !in seen
    modifies r`start
    ensures r.Valid() && Shown(r, pos, seen + taken)
    ensures if done then EndsWith(delimiter, seen + taken)
            else delimiter !in seen + taken && r.start == r.end
  {
    var available := r.Buffer();
    var used;
    match Find(delimiter, available) {
      case Some(index) =>
        used, done := index + 1, true;
      case None =>
        used, done := |available|, false;
    }
    Cut(delimiter, seen, available, used);
    ShowsMore(r, pos, seen, available, used);
    taken := available[..used];
    r.Consume(used);
  }

  /** Consuming some of what is buffered shows that much more of the stream. */
  lemma ShowsMore(r: BufReader, pos: int, seen: seq<Byte>, available: seq<Byte>, used: nat)
    requires r.Valid() && Shown(r, pos, seen) && available == r.Buffer() && used <= |available|
    ensures ShownAt(r.reader.bytes, pos, seen + available[..used], r.Position() + used)
  {
    r.BufferIsStream();
    if used > 0 {
      Join(r.reader.bytes, pos, seen, available, used);
    } else {
      assert seen + available[..used] == seen;
    }
  }

  lemma Cut(b: Byte, seen: seq<Byte>, available: seq<Byte>, used: nat)
    requires b !in seen
    requires used == match Find(b, available) case Some(i) => i + 1 case None => |available|
    ensures used <= |available|
    ensures if b in available then EndsWith(b, seen + available[..used]) else b !in seen + available[..used]
  {
    if b in available {
      assert (seen + available[..used])[..|seen| + used - 1] == seen + available[..used - 1];
    }
  }

  lemma Join(bytes: seq<Byte>, pos: nat, seen: seq<Byte>, available: seq<Byte>, used: nat)
    requires used <= |available| && pos + |seen| + |available| <= |bytes|
    requires bytes[pos + |seen|..pos + |seen| + |available|] == available
    requires seen != [] ==> bytes[pos..pos + |seen|] == seen
    ensures seen + available[..used] == bytes[pos..pos + |seen| + used]
  {
    assert bytes[pos..pos + |seen|] == seen;
    assert bytes[pos..pos + |seen| + used] ==
      bytes[pos..pos + |seen|] + bytes[pos + |seen|..pos + |seen| + |available|][..used];
  }

  /** `read_until`.  It appends the stream's bytes from where the reader stood to where it
      stands; they end with the delimiter, which is not among them before, or, without one,
      at the end of the stream.  A reader without a buffer always reports the end. */
  method ReadUntil(r: BufReader, delimiter: Byte, buf: seq<Byte>)
    returns (result: Result<Option<nat>, IoError>, buf': seq<Byte>, ghost seen: seq<Byte>)
    requires r.Valid()
    modifies r`start, r`end, r`origin, r`validFrom, r.reader`pos, r.reader`errors, r.data
    ensures r.Valid() && Shown(r, old(r.Position()), seen) && buf' == buf + seen
    ensures r.reader.errors == Logged(old(r.reader.errors), result) && (result.Err? ==> delimiter !in seen)
    ensures result == Ok(None) ==> seen == [] && (r.data.Length == 0 || r.Position() >= |r.reader.bytes|)
    ensures result.Ok? && result.value.Some? ==>
      && result.value.value == |seen| > 0
      && (EndsWith(delimiter, seen) || (delimiter !in seen && r.Position() >= |r.reader.bytes|))
    ensures r.data.Length == 0 ==> result == Ok(None)
  {
    ghost var pos := r.Position();
    r.BufferIsStream();
    buf', seen := buf, [];
    while true
      invariant r.Valid() && Shown(r, pos, seen) && buf' == buf + seen && delimiter !in seen
      invariant r.reader.errors == old(r.reader.errors) && (r.data.Length == 0 ==> seen == [])
      decreases Left(r)
    {
      var taken, done := TakeUntil(r, delimiter, pos, seen);
      buf', seen := buf' + taken, seen + taken;
      if done {
        break;
      }
      var filled := Refill(r);
      if filled.Err? {
        return Err(filled.error), buf', seen;
      }
      if filled.value == 0 {
        if |buf'| == |buf| {
          return Ok(None), buf', seen;
        }
        break;
      }
    }
    return Ok(Some(|buf'| - |buf|)), buf', seen;
  }

  /** What the stream still has. */
  ghost function Left(r: BufReader): (result: nat)
    reads r.reader
  {
    if r.reader.pos <= |r.reader.bytes| then |r.reader.bytes| - r.reader.pos else 0
  }

  /** `fill`, on an empty window. */
  method Refill(r: BufReader) returns (filled: Result<nat, IoError>)
    requires r.Valid() && r.start == r.end
    modifies r`start, r`end, r`origin, r`validFrom, r.reader`pos, r.reader`errors, r.data
    ensures r.Valid() && r.Position() == old(r.Position())
    ensures r.reader.errors == Logged(old(r.reader.errors), filled)
    ensures filled == Ok(0) ==> r.data.Length == 0 || r.Position() >= |r.reader.bytes|
    ensures filled.Ok? && filled.value > 0 ==> Left(r) < old(Left(r))
    ensures r.data.Length == 0 ==> filled == Ok(0)
  {
    filled := r.FillAmount(r.data.Length);
    r.BufferIsStream();
  }
}
