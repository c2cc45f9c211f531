/** Variable-length integers of `async_std/io/typed.rs`: a value of 1 to N bytes, decoded
    from an array of N bytes of which only the first `size` belong to it. */
module VInt {
  import opened Wrappers
  import opened Bits
  import opened Stream
  import opened BufReader
  import Reading

  /** The base-256 value, lowest digit first. */
  function FromLe(s: seq<Byte>): (r: nat) {
    if s == [] then 0 else s[0] + 256 * FromLe(s[1..])
  }

  /** The base-256 value, highest digit first. */
  function FromBe(s: seq<Byte>): (r: nat) {
    if s == [] then 0 else 256 * FromBe(s[..|s| - 1]) + s[|s| - 1]
  }

  function Value(s: seq<Byte>, le: bool): (r: nat) {
    if le then FromLe(s) else FromBe(s)
  }

  lemma QuotientNat(x: nat, m: int)
    requires m > 0
    ensures x / m >= 0
  {
    Division(x, m);
    MultipleSize(x / m, m);
  }

  /** `wrapping_shr`: the distance is taken modulo the width. */
  function WrappingShr(x: nat, shift: nat, bits: nat): (r: nat)
    requires bits > 0
  {
    QuotientNat(x, Pow2(shift % bits));
    x / Pow2(shift % bits)
  }

  /** `vint_from_bytes`. */
  function VIntFromBytes(bytes: seq<Byte>, size: nat, le: bool): (r: nat)
    requires 1 <= size <= |bytes|
  {
    var bits := 8 * |bytes|;
    var shift := 8 * (|bytes| - size);
    if le then And(FromLe(bytes), WrappingShr(Pow2(bits) - 1, shift, bits))
    else WrappingShr(FromBe(bytes), shift, bits)
  }

  // ----- the decode

  lemma Pow2Eight(k: nat)
    ensures Pow2(8 * (k + 1)) == 256 * Pow2(8 * k)
  {
    Pow2Add(8, 8 * k);
    assert Pow2(8) == 256;
  }

  lemma {:induction false} FromLeConcat(s: seq<Byte>, t: seq<Byte>)
    ensures FromLe(s + t) == FromLe(t) * Pow2(8 * |s|) + FromLe(s) && FromLe(s) < Pow2(8 * |s|)
  {
    if s == [] {
      assert s + t == t;
    } else {
      FromLeConcat(s[1..], t);
      assert (s + t)[1..] == s[1..] + t;
      Pow2Eight(|s| - 1);
      var p, v := Pow2(8 * (|s| - 1)), FromLe(t);
      assert 256 * (v * p) == v * (256 * p);
    }
  }

  lemma {:induction false} FromBeConcat(s: seq<Byte>, t: seq<Byte>)
    ensures FromBe(s + t) == FromBe(s) * Pow2(8 * |t|) + FromBe(t) && FromBe(t) < Pow2(8 * |t|)
    decreases |t|
  {
    if t == [] {
      assert s + t == s;
    } else {
      var u := t[..|t| - 1];
      FromBeConcat(s, u);
      assert (s + t)[..|s + t| - 1] == s + u;
      Pow2Eight(|u|);
      var p, v := Pow2(8 * |u|), FromBe(s);
      assert 256 * (v * p) == v * (256 * p);
    }
  }

  /** All ones, shifted right, are fewer ones. */
  lemma ShiftedOnes(a: nat, b: nat)
    requires b <= a
    ensures (Pow2(a) - 1) / Pow2(b) == Pow2(a - b) - 1
  {
    Pow2Add(a - b, b);
    Distribute(Pow2(a - b), 1, Pow2(b));
    RemainderUnique(Pow2(a) - 1, Pow2(b), Pow2(a - b) - 1, Pow2(b) - 1);
  }

  lemma NoWrap(shift: nat, bits: nat)
    requires shift < bits
    ensures shift % bits == shift
  {
    RemainderUnique(shift, bits, 0, shift);
  }

  lemma OnesMask(bits: nat, shift: nat, k: nat)
    requires bits == k + shift && shift < bits
    ensures WrappingShr(Pow2(bits) - 1, shift, bits) == Pow2(k) - 1
  {
    NoWrap(shift, bits);
    ShiftedOnes(bits, shift);
    assert bits - shift == k;
  }

  lemma LowBits(v: nat, q: nat, k: nat, low: nat)
    requires v == q * Pow2(k) + low && low < Pow2(k)
    ensures And(v, Pow2(k) - 1) == low
  {
    MaskIsMod(v, k);
    var m := Pow2(k);
    RemainderUnique(v, m, q, low);
  }

  lemma MaskLe(bytes: seq<Byte>, size: nat)
    requires 1 <= size <= |bytes|
    ensures VIntFromBytes(bytes, size, true) == And(FromLe(bytes), Pow2(8 * size) - 1)
  {
    OnesMask(8 * |bytes|, 8 * (|bytes| - size), 8 * size);
  }

  lemma DecodeLe(bytes: seq<Byte>, s: seq<Byte>, t: seq<Byte>)
    requires s != [] && bytes == s + t
    ensures VIntFromBytes(bytes, |s|, true) == FromLe(s)
  {
    MaskLe(bytes, |s|);
    FromLeConcat(s, t);
    LowBits(FromLe(bytes), FromLe(t), 8 * |s|, FromLe(s));
  }

  lemma DecodeBe(bytes: seq<Byte>, s: seq<Byte>, t: seq<Byte>)
    requires s != [] && bytes == s + t
    ensures VIntFromBytes(bytes, |s|, false) == FromBe(s)
  {
    NoWrap(8 * |t|, 8 * |bytes|);
    FromBeConcat(s, t);
    RemainderUnique(FromBe(bytes), Pow2(8 * |t|), FromBe(s), FromBe(t));
  }

  /** The decode is the value of the first `size` bytes, whatever bytes follow. */
  lemma DecodeIsValue(bytes: seq<Byte>, size: nat, le: bool)
    requires 1 <= size <= |bytes|
    ensures VIntFromBytes(bytes, size, le) == Value(bytes[..size], le)
  {
    assert bytes == bytes[..size] + bytes[size..];
    if le {
      DecodeLe(bytes, bytes[..size], bytes[size..]);
    } else {
      DecodeBe(bytes, bytes[..size], bytes[size..]);
    }
  }

  // ----- reading one

  /** The answer after `got` bytes from position `pos` on. */
  ghost function Answer(bytes: seq<Byte>, pos: nat, got: nat, size: nat, le: bool,
                        interrupted: bool, failure: Option<IoError>): (result: Result<Option<nat>, IoError>)
    requires got == size ==> pos + size <= |bytes|
  {
    if got == size then Ok(Some(Value(bytes[pos..pos + size], le)))
    else if failure.Some? then Err(failure.value)
    else if interrupted then Err(Interrupted)
    else if got == 0 then Ok(None)
    else Err(UnexpectedEof)
  }

  /** What either path promises, from position `pos`: how far it got and how the stream
      failed decide the answer.  It consumes the value's bytes or, if the stream fails, is
      interrupted or ends, fewer. */
  ghost predicate Outcome(r: BufReader, pos: int, n: nat, size: nat, le: bool,
                          result: Result<Option<nat>, IoError>, interrupted: bool, errors: seq<IoError>)
    reads r, r.reader
  {
    && 0 <= pos <= r.Position()
    && (size == 0 ==> result == Ok(Some(0)) && r.Position() == pos && r.reader.errors == errors)
    && (size > n ==> result == Err(Panicked) && r.Position() == pos && r.reader.errors == errors)
    && (1 <= size <= n ==>
          && Progress(r, pos, size, errors)
          && result == Answer(r.reader.bytes, pos, r.Position() - pos, size, le, interrupted,
            Reading.Failure(errors, r.reader.errors)))
  }

  ghost predicate Progress(r: BufReader, pos: int, size: nat, errors: seq<IoError>)
    reads r, r.reader
  {
    && 0 <= pos <= r.Position() <= pos + size && Reading.AtMostOne(errors, r.reader.errors)
    && (r.Position() == pos + size && size > 0 ==> r.Position() <= |r.reader.bytes| && r.reader.errors == errors)
    && (r.Position() < pos + size && r.reader.errors == errors ==> r.Position() >= |r.reader.bytes|)
  }

  /** What `read_bytes` answers after it has read `n` of `len` bytes. */
  ghost function AllOrNothing(n: nat, len: nat, interrupted: bool, failure: Option<IoError>): (r: Result<nat, IoError>)
    ensures r.Ok? && len > 0 ==> r.value == n && (n == 0 || n == len)
  {
    if n == len then Ok(n)
    else if failure.Some? then Err(failure.value)
    else if interrupted then Err(Interrupted)
    else if n == 0 then Ok(0)
    else Err(UnexpectedEof)
  }

  /** `read_bytes`: all of the slice, or none at the end of the stream. */
  method ReadBytes(r: BufReader, buf: array<Byte>, lo: nat, hi: nat, interrupted: bool)
    returns (result: Result<nat, IoError>)
    requires r.Valid() && buf != r.data && lo <= hi <= buf.Length
    modifies r`start, r`end, r`origin, r`validFrom, r.reader`pos, r.reader`errors, r.data, buf
    ensures r.Valid() && Progress(r, old(r.Position()), hi - lo, old(r.reader.errors))
    ensures r.Copied(buf, lo, r.Position() - old(r.Position()), old(r.Position()))
    ensures result == AllOrNothing(r.Position() - old(r.Position()), hi - lo, interrupted,
      Reading.Failure(old(r.reader.errors), r.reader.errors))
    ensures hi - lo <= old(r.end - r.start) ==> result == Ok(hi - lo)
  {
    r.PositionNat();
    result := Reading.TryReadFully(r, buf, lo, hi, interrupted);
    if result.Ok? && result.value != 0 && result.value < hi - lo {
      result := Err(if interrupted then Interrupted else UnexpectedEof);
    }
  }

  /** `read_vint`, for any reader. */
  method ReadVInt(r: BufReader, n: nat, size: nat, le: bool, interrupted: bool)
    returns (result: Result<Option<nat>, IoError>)
    requires r.Valid()
    modifies r`start, r`end, r`origin, r`validFrom, r.reader`pos, r.reader`errors, r.data
    ensures r.Valid() && Outcome(r, old(r.Position()), n, size, le, result, interrupted, old(r.reader.errors))
    // Buffered bytes are enough, whatever the stream and interrupts do.
    ensures 1 <= size <= n && size <= old(r.end - r.start) ==> result.Ok? && result.value.Some?
  {
    r.PositionNat();
    if size == 0 {
      return Ok(Some(0));
    }
    if size > n {
      return Err(Panicked);
    }
    var bytes := new Byte[n](i => 0);
    var read;
    read := ReadBytes(r, bytes, 0, size, interrupted);
    if read.Err? {
      return Err(read.error);
    }
    if read.value == 0 {
      return Ok(None);
    }
    DecodeIsValue(bytes[..], size, le);
    assert bytes[..][..size] == bytes[0..size];
    return Ok(Some(VIntFromBytes(bytes[..], size, le)));
  }

  ghost function WithoutBytes(r: Result<Option<seq<Byte>>, IoError>): (s: Result<nat, IoError>) {
    match r
    case Ok(None) => Ok(0)
    case Ok(Some(b)) => Ok(|b|)
    case Err(e) => Err(e)
  }

  /** `buf_get_bytes`: if N bytes are buffered they are taken as they are, though only
      `consume` of them belong to the value; otherwise just these are read. */
  method BufGetBytes(r: BufReader, n: nat, consume: nat, interrupted: bool)
    returns (result: Result<Option<seq<Byte>>, IoError>)
    requires r.Valid() && 1 <= consume <= n
    modifies r`start, r`end, r`origin, r`validFrom, r.reader`pos, r.reader`errors, r.data
    ensures r.Valid() && Progress(r, old(r.Position()), consume, old(r.reader.errors))
    ensures result.Ok? && result.value.Some? ==>
      && r.Position() == old(r.Position()) + consume && |result.value.value| == n
      && result.value.value[..consume] == r.reader.bytes[old(r.Position())..r.Position()]
    ensures !(result.Ok? && result.value.Some?) ==>
      && r.Position() < old(r.Position()) + consume
      && WithoutBytes(result) == AllOrNothing(r.Position() - old(r.Position()), consume, interrupted,
        Reading.Failure(old(r.reader.errors), r.reader.errors))
    ensures consume <= old(r.end - r.start) ==> result.Ok? && result.value.Some?
  {
    r.BufferIsStream();
    var available := r.Buffer();
    if |available| >= n {
      var bytes := available[..n];
      r.Consume(consume);
      assert bytes[..consume] == available[..consume];
      return Ok(Some(bytes));
    }
    var bytes := new Byte[n](i => 0);
    var read;
    read := ReadBytes(r, bytes, 0, consume, interrupted);
    if read.Err? {
      return Err(read.error);
    }
    if read.value == 0 {
      return Ok(None);
    }
    assert bytes[..][..consume] == bytes[0..consume];
    return Ok(Some(bytes[..]));
  }

  /** `read_vint_fast`, for buffered readers: the same outcome as `read_vint`, although the
      decode may have seen bytes of whatever follows. */
  method ReadVIntFast(r: BufReader, n: nat, size: nat, le: bool, interrupted: bool)
    returns (result: Result<Option<nat>, IoError>)
    requires r.Valid()
    modifies r`start, r`end, r`origin, r`validFrom, r.reader`pos, r.reader`errors, r.data
    ensures r.Valid() && Outcome(r, old(r.Position()), n, size, le, result, interrupted, old(r.reader.errors))
    ensures 1 <= size <= n && size <= old(r.end - r.start) ==> result.Ok? && result.value.Some?
  {
    r.PositionNat();
    if size == 0 {
      return Ok(Some(0));
    }
    if size > n {
      return Err(Panicked);
    }
    var bytes;
    bytes := BufGetBytes(r, n, size, interrupted);
    match bytes {
      case Err(e) =>
        return Err(e);
      case Ok(None) =>
        return Ok(None);
      case Ok(Some(b)) =>
        DecodeIsValue(b, size, le);
        return Ok(Some(VIntFromBytes(b, size, le)));
    }
  }
}
