/** The stream under a buffered reader: bytes with a position, as the `Read` and `Seek`
    contracts of `async_std/io` allow it to behave. */
module Stream {
  import opened Wrappers
  import opened Bits

  type Byte = x: int | 0 <= x < 256

  datatype IoError = Interrupted | Failed | UnexpectedEof | Panicked

  datatype SeekFrom = Start(abs: int) | Current(rel: int) | End(rel: int)

  /** A value of type `u64`. */
  predicate IsPos(x: int) {
    IsWord(x, 64)
  }

  /** A value of type `i64`. */
  predicate IsOffset(x: int) {
    IsSigned(x, 64)
  }

  predicate WellTyped(s: SeekFrom) {
    match s
    case Start(abs) => IsPos(abs)
    case Current(rel) => IsOffset(rel)
    case End(rel) => IsOffset(rel)
  }

  /** Where a seek leads in a stream of that length. */
  function Target(s: SeekFrom, pos: int, len: int): (r: int) {
    match s
    case Start(abs) => abs
    case Current(rel) => pos + rel
    case End(rel) => len + rel
  }

  /** The failures so far, after a call with that outcome. */
  ghost function Logged<T>(errors: seq<IoError>, r: Result<T, IoError>): (result: seq<IoError>) {
    if r.Err? then errors + [r.error] else errors
  }

  /** Its methods choose freely among the outcomes their contracts allow. */
  class Source {
    const bytes: seq<Byte>
    var pos: nat
    const lenFast: bool
    const posFast: bool
    ghost var errors: seq<IoError>

    constructor (bytes: seq<Byte>, lenFast: bool, posFast: bool)
      ensures this.bytes == bytes && pos == 0 && errors == []
    {
      this.bytes, this.lenFast, this.posFast := bytes, lenFast, posFast;
      pos, errors := 0, [];
    }

    method Fail(e: IoError) returns (r: Result<nat, IoError>)
      modifies this`errors
      ensures r == Err(e) && errors == old(errors) + [e]
    {
      errors := errors + [e];
      r := Err(e);
    }

    /** Fills a front part of `buf[lo..hi]`; only an empty slice or the end of the stream
        yields zero bytes.  The rest of the slice may get junk, except when the result is
        zero.  A failure loses no bytes. */
    method Read(buf: array<Byte>, lo: nat, hi: nat) returns (r: Result<nat, IoError>)
      requires lo <= hi <= buf.Length
      modifies this`pos, this`errors, buf
      ensures errors == Logged(old(errors), r)
      ensures forall i :: 0 <= i < buf.Length && !(lo <= i < hi) ==> buf[i] == old(buf[i])
      ensures r.Err? ==> pos == old(pos)
      ensures r.Ok? ==> lo + r.value <= hi && pos == old(pos) + r.value
      ensures r.Ok? && r.value > 0 ==> pos <= |bytes|
      ensures r.Ok? && r.value > 0 ==> buf[lo..lo + r.value] == bytes[old(pos)..pos]
      ensures r == Ok(0) ==> buf[..] == old(buf[..]) && (lo == hi || pos >= |bytes|)
    {
      var left := if pos >= |bytes| then 0 else |bytes| - pos;
      var most := if hi - lo < left then hi - lo else left;
      if most == 0 {
        if * { r := Fail(Failed); return; }
        return Ok(0);
      }
      var n :| 1 <= n <= most;
      for i := lo to hi
        invariant pos == old(pos) && errors == old(errors)
        invariant forall j :: 0 <= j < buf.Length && !(lo <= j < i) ==> buf[j] == old(buf[j])
        invariant forall j :: lo <= j < i && j < lo + n ==> buf[j] == bytes[pos + (j - lo)]
      {
        buf[i] := *;
        if i < lo + n {
          buf[i] := bytes[pos + (i - lo)];
        }
      }
      if * { r := Fail(Interrupted); return; }
      pos := pos + n;
      return Ok(n);
    }

    method Seek(s: SeekFrom) returns (r: Result<nat, IoError>)
      requires WellTyped(s)
      modifies this`pos, this`errors
      ensures errors == Logged(old(errors), r)
      ensures r.Err? ==> pos == old(pos)
      ensures r.Ok? ==> r.value == pos == Target(s, old(pos), |bytes|) && IsPos(pos)
    {
      var t := Target(s, pos, |bytes|);
      if !IsPos(t) { r := Fail(Failed); return; }
      if * { r := Fail(Failed); return; }
      pos := t;
      return Ok(t);
    }

    method StreamPosition() returns (r: Result<nat, IoError>)
      modifies this`errors
      ensures errors == Logged(old(errors), r)
      ensures r.Ok? ==> r.value == pos && IsPos(pos)
    {
      if !IsPos(pos) { r := Fail(Failed); return; }
      if * { r := Fail(Failed); return; }
      return Ok(pos);
    }

    method StreamLen() returns (r: Result<nat, IoError>)
      modifies this`errors
      ensures errors == Logged(old(errors), r)
      ensures r.Ok? ==> r.value == |bytes| && IsPos(|bytes|)
    {
      if !IsPos(|bytes|) { r := Fail(Failed); return; }
      if * { r := Fail(Failed); return; }
      return Ok(|bytes|);
    }
  }
}
