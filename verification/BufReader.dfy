/** The buffered reader of `async_std/io/buf_reader.rs`: a window onto a stream.

    A read that is too large for the buffer goes to the stream directly and leaves the
    old bytes where they are.  So the ghost `origin` says from which stream position each
    buffer cell came (-1 for junk), and `validFrom` is the cell from which on the buffer
    still is the part of the stream just before the stream's position. */
module BufReader {
  import opened Wrappers
  import opened Stream
  import opened Bits
  import Uint

  /** A byte that came from stream position `from` (-1: junk) where one from `offset` would
      be current. */
  ghost predicate Cell(from: int, offset: int, current: bool, b: Byte, bytes: seq<Byte>) {
    && -1 <= from < |bytes|
    && from <= offset && (from == offset <==> current)
    && (current ==> from >= 0)
    && (from >= 0 ==> b == bytes[from])
  }

  class BufReader {
    const data: array<Byte>
    var start: nat
    var end: nat
    const reader: Source
    ghost var origin: seq<int>
    ghost var validFrom: nat

    constructor (reader: Source, capacity: nat)
      ensures Valid() && Position() == reader.pos
      ensures this.reader == reader && data.Length == capacity && fresh(data)
    {
      this.reader := reader;
      data := new Byte[capacity](i => 0);
      start, end, validFrom := 0, 0, 0;
      origin := [];
    }

    /** The stream position that belongs to cell `j` by its distance from the end. */
    ghost function Offset(j: nat): (r: int)
      reads this`end, reader`pos
    {
      reader.pos - (end - j)
    }

    /** What is known of a cell: it came from that position exactly if nothing was read
        past the buffer since. */
    ghost predicate CellOk(j: nat)
      requires j < |origin| <= data.Length
      reads this`end, this`origin, this`validFrom, reader`pos, data
    {
      Cell(origin[j], Offset(j), validFrom <= j, data[j], reader.bytes)
    }

    ghost predicate Cells()
      reads this`end, this`origin, this`validFrom, reader`pos, data
    {
      && validFrom <= end == |origin| <= data.Length
      && forall j :: 0 <= j < end ==> CellOk(j)
    }

    /** The window may reach back to bytes that were read past. */
    ghost predicate Sound()
      reads this`start, this`end, this`origin, this`validFrom, reader`pos, data
    {
      start <= end && Cells()
    }

    ghost predicate Valid()
      reads this`start, this`end, this`origin, this`validFrom, reader`pos, data
    {
      Sound() && validFrom <= start
    }

    /** Where the reader stands in the stream. */
    ghost function Position(): (r: int)
      reads this`start, this`end, reader`pos
    {
      reader.pos - (end - start)
    }

    function Buffer(): (r: seq<Byte>)
      requires start <= end <= data.Length
      reads this`start, this`end, data
    {
      data[start..end]
    }

    /** The window shows the bytes of the stream that come next, from their own places. */
    ghost predicate Faithful()
      requires Sound()
      reads this`start, this`end, this`origin, this`validFrom, reader`pos, data
    {
      forall j :: start <= j < end ==> origin[j] == Position() + (j - start)
    }

    lemma FaithfulIffValid()
      requires Sound() && start < end
      ensures Faithful() <==> Valid()
    {
      assert CellOk(start);
      forall j | start <= j < end && validFrom <= start ensures origin[j] == Position() + (j - start) {
        assert CellOk(j);
      }
      assert Faithful() ==> origin[start] == Position() + (start - start);
    }

    lemma PositionNat()
      requires Sound()
      ensures Position() >= 0
    {
      assert start < end ==> CellOk(start);
    }

    /** The buffered bytes are the stream's bytes just before its position. */
    lemma BufferIsStream()
      requires Valid()
      ensures 0 <= Position() <= reader.pos
      ensures start < end ==> reader.pos <= |reader.bytes| && Buffer() == reader.bytes[Position()..reader.pos]
    {
      PositionNat();
      if start < end {
        forall j | start <= j < end ensures 0 <= Offset(j) < |reader.bytes| && data[j] == reader.bytes[Offset(j)] {
          assert CellOk(j);
        }
        assert Offset(end - 1) == reader.pos - 1;
      }
    }

    // ----- reading

    /** A stretch of `buf` holds the stream's bytes from a position on. */
    ghost predicate Copied(buf: array<Byte>, lo: nat, n: nat, pos: int)
      reads buf
    {
      && lo + n <= buf.Length && (n > 0 ==> 0 <= pos && pos + n <= |reader.bytes|)
      && (n > 0 ==> buf[lo..lo + n] == reader.bytes[pos..pos + n])
    }

    /** Copies what is buffered, as far as it fits. */
    method ReadInto(buf: array<Byte>, lo: nat, hi: nat) returns (n: nat)
      requires Valid() && buf != data && lo <= hi <= buf.Length
      modifies this`start, buf
      ensures Valid() && Position() == old(Position()) + n && lo + n <= hi
      ensures n == if hi - lo < old(end - start) then hi - lo else old(end - start)
      ensures Copied(buf, lo, n, old(Position()))
      ensures forall i :: 0 <= i < buf.Length && !(lo <= i < hi) ==> buf[i] == old(buf[i])
    {
      n := if hi - lo < end - start then hi - lo else end - start;
      BufferIsStream();
      ghost var pos := Position();
      for i := 0 to n
        invariant Valid() && start == old(start)
        invariant forall j :: lo <= j < lo + i ==> buf[j] == reader.bytes[pos + (j - lo)]
        invariant forall j :: 0 <= j < buf.Length && !(lo <= j < hi) ==> buf[j] == old(buf[j])
      {
        assert Buffer()[i] == reader.bytes[pos + i];
        buf[lo + i] := data[start + i];
      }
      start := start + n;
    }

    /** `fill_buf_range`: at the end of the window, or over an empty one.  The caller then
        sets `start`. */
    method FillBufRange(lo: nat, hi: nat) returns (r: Result<nat, IoError>)
      requires Valid() && lo <= hi <= data.Length && (lo == end || (lo == 0 && start == end))
      modifies this`end, this`origin, this`validFrom, reader`pos, reader`errors, data
      ensures reader.errors == Logged(old(reader.errors), r)
      ensures Cells()
      ensures r.Err? ==> validFrom <= start && end == old(end) && reader.pos == old(reader.pos)
      ensures r.Ok? ==> reader.pos == old(reader.pos) + r.value && lo + r.value <= hi
      ensures r == Ok(0) ==>
        && validFrom == old(validFrom) && end == old(end)
        && (lo == hi || reader.pos >= |reader.bytes|)
      ensures r.Ok? && r.value > 0 ==> validFrom == (if lo == 0 then 0 else old(validFrom)) && end == lo + r.value
    {
      ghost var at := reader.pos;
      assert end > 0 ==> CellOk(0);
      r := ReadData(lo, hi);
      forall j | 0 <= j < end && !(lo <= j < hi) ensures old(CellOk(j)) && data[j] == old(data[j]) {
        assert old(CellOk(j));
      }
      if r.Ok? && r.value != 0 {
        Extend(lo, r.value, at);
      } else if r.Err? && lo != end {
        Spoil(hi);
      } else {
        forall j | 0 <= j < end ensures CellOk(j) {
          assert old(CellOk(j));
        }
      }
    }

    /** The bytes just read are the stream's, behind the first `lo` cells. */
    method Extend(lo: nat, n: nat, ghost at: int)
      requires validFrom <= end == |origin| <= data.Length && (lo == 0 || lo == end) && 0 < n && lo + n <= data.Length
      requires forall j :: 0 <= j < lo ==> Cell(origin[j], at - (end - j), validFrom <= j, data[j], reader.bytes)
      requires 0 <= at && reader.pos == at + n <= |reader.bytes|
      requires forall j :: lo <= j < lo + n ==> data[j] == reader.bytes[at + (j - lo)]
      modifies this`end, this`origin, this`validFrom
      ensures Cells() && end == lo + n && validFrom == if lo == 0 then 0 else old(validFrom)
    {
      origin := origin[..lo] + seq(n, i => at + i);
      end := lo + n;
      validFrom := if lo == 0 then 0 else validFrom;
      forall j | 0 <= j < end ensures CellOk(j) {
        assert origin[j] == if j < lo then old(origin)[j] else at + (j - lo);
        assert Offset(j) == at - (lo - j);
      }
    }

    /** A read that failed may have left anything in the first `hi` cells. */
    ghost method Spoil(hi: nat)
      requires validFrom <= end == |origin| <= data.Length && end <= reader.pos
      requires forall j :: hi <= j < end ==> CellOk(j)
      modifies this`origin, this`validFrom
      ensures Cells()
    {
      var junk := if hi < end then hi else end;
      origin := seq(junk, i => -1) + origin[junk..];
      validFrom := if validFrom < junk then junk else validFrom;
      forall j | 0 <= j < end ensures CellOk(j) {
        if j >= junk {
          assert old(CellOk(j));
        }
      }
    }

    /** The read into the buffer, cell by cell. */
    method ReadData(lo: nat, hi: nat) returns (r: Result<nat, IoError>)
      requires lo <= hi <= data.Length
      modifies reader`pos, reader`errors, data
      ensures reader.errors == Logged(old(reader.errors), r)
      ensures forall j :: 0 <= j < data.Length && !(lo <= j < hi) ==> data[j] == old(data[j])
      ensures r.Err? ==> reader.pos == old(reader.pos)
      ensures r.Ok? ==> reader.pos == old(reader.pos) + r.value && lo + r.value <= hi
      ensures r.Ok? && r.value > 0 ==> reader.pos <= |reader.bytes|
      ensures r.Ok? && r.value > 0 ==> forall j :: lo <= j < lo + r.value ==>
        data[j] == reader.bytes[old(reader.pos) + (j - lo)]
      ensures r == Ok(0) ==> lo == hi || reader.pos >= |reader.bytes|
      ensures r == Ok(0) ==> forall j :: 0 <= j < data.Length ==> data[j] == old(data[j])
    {
      r := reader.Read(data, lo, hi);
      if r == Ok(0) {
        assert forall j :: 0 <= j < data.Length ==> data[j] == data[..][j] == old(data[..])[j];
      } else if r.Ok? {
        assert forall j :: lo <= j < lo + r.value ==> data[j] == data[lo..lo + r.value][j - lo];
      }
    }

    method FillBuf() returns (r: Result<nat, IoError>)
      requires Valid() && start == end
      modifies this`start, this`end, this`origin, this`validFrom, reader`pos, reader`errors, data
      ensures reader.errors == Logged(old(reader.errors), r)
      ensures Valid() && Position() == old(Position())
      ensures end - start == if r.Ok? then r.value else 0
      ensures r.Ok? && r.value > 0 ==> start == 0
      ensures r == Ok(0) ==> data.Length == 0 || reader.pos >= |reader.bytes|
    {
      r := FillBufRange(0, data.Length);
      if r.Ok? && r.value != 0 {
        start := 0;
      }
    }

    /** Reading less than the buffer holds goes through the buffer, more goes to the
        stream itself. */
    method ReadCold(buf: array<Byte>, lo: nat, hi: nat) returns (r: Result<nat, IoError>)
      requires Valid() && buf != data && lo <= hi <= buf.Length && start == end
      modifies this`start, this`end, this`origin, this`validFrom, reader`pos, reader`errors, data, buf
      ensures reader.errors == Logged(old(reader.errors), r)
      ensures Valid() && Read1(buf, lo, hi, r, old(Position()))
      ensures forall i :: 0 <= i < buf.Length && !(lo <= i < hi) ==> buf[i] == old(buf[i])
      ensures hi - lo >= data.Length ==>
        unchanged(`start, `end, `origin, data) && (r.Ok? && r.value > 0 ==> validFrom == end)
      ensures hi - lo < data.Length && r.Ok? && r.value > 0 ==> start == r.value
    {
      if hi - lo >= data.Length {
        r := reader.Read(buf, lo, hi);
        if r.Ok? && r.value != 0 {
          validFrom := end;
          forall j | 0 <= j < end ensures CellOk(j) {
            assert old(CellOk(j));
          }
        }
        return;
      }
      var filled := FillBuf();
      match filled {
        case Err(_) => r := filled;
        case Ok(n) =>
          if n != 0 {
            var copied := ReadInto(buf, lo, hi);
            r := Ok(copied);
          } else {
            r := Ok(0);
          }
      }
    }

    /** What a read promises: the next bytes of the stream, and none only at its end. */
    ghost predicate Read1(buf: array<Byte>, lo: nat, hi: nat, r: Result<nat, IoError>, pos: int)
      reads this`start, this`end, reader`pos, buf
    {
      match r
      case Err(_) => Position() == pos
      case Ok(n) =>
        && Position() == pos + n && lo + n <= hi && Copied(buf, lo, n, pos)
        && (n == 0 ==> lo == hi || pos >= |reader.bytes|)
    }

    method Read(buf: array<Byte>, lo: nat, hi: nat) returns (r: Result<nat, IoError>)
      requires Valid() && buf != data && lo <= hi <= buf.Length
      modifies this`start, this`end, this`origin, this`validFrom, reader`pos, reader`errors, data, buf
      ensures reader.errors == Logged(old(reader.errors), r)
      ensures Valid() && Read1(buf, lo, hi, r, old(Position()))
      ensures forall i :: 0 <= i < buf.Length && !(lo <= i < hi) ==> buf[i] == old(buf[i])
      // Past the buffer, which stays as it is, or through it.
      ensures old(start == end) && hi - lo >= data.Length ==>
        unchanged(`start, `end, `origin, data) && (r.Ok? && r.value > 0 ==> validFrom == end)
      ensures old(start == end) && hi - lo < data.Length && r.Ok? && r.value > 0 ==> start == r.value
      ensures old(start != end) ==>
        && r == Ok(if hi - lo < old(end - start) then hi - lo else old(end - start))
        && start == old(start) + r.value && unchanged(`end, reader, data)
    {
      if start != end {
        var n := ReadInto(buf, lo, hi);
        return Ok(n);
      }
      r := ReadCold(buf, lo, hi);
    }

    // ----- the buffer

    method Discard()
      modifies this`start, this`end, this`origin, this`validFrom
      ensures Valid() && start == end == 0 && Position() == reader.pos && validFrom == 0
    {
      start, end, origin, validFrom := 0, 0, [], 0;
    }

    method MoveDataToBeginning()
      requires Valid()
      modifies this`start, this`end, this`origin, this`validFrom, data
      ensures Valid() && start == 0 && Position() == old(Position())
      ensures Buffer() == old(Buffer()) && validFrom == 0
    {
      if start == 0 {
        return;
      }
      var len := end - start;
      if len == 0 {
        Discard();
      } else {
        ghost var from := start;
        for i := 0 to len
          invariant unchanged(this)
          invariant forall j :: 0 <= j < i ==> data[j] == old(data[..])[start + j]
          invariant forall j :: i <= j < data.Length ==> data[j] == old(data[j])
        {
          data[i] := data[start + i];
        }
        origin := origin[start..];
        start, end, validFrom := 0, len, 0;
        forall j | 0 <= j < end ensures CellOk(j) {
          assert old(CellOk(from + j));
        }
      }
    }

    method Consume(count: nat)
      requires Valid() && count <= end - start
      modifies this`start
      ensures Valid() && Position() == old(Position()) + count && Buffer() == old(Buffer())[count..]
    {
      start := start + count;
    }

    /** Giving bytes back moves the position back in any case, and shows the bytes that
        are there exactly if none was read past the buffer since. */
    method Unconsume(count: nat)
      requires Valid() && count <= start
      modifies this`start
      ensures Sound() && Position() == old(Position()) - count
      ensures Valid() <==> old(validFrom) + count <= old(start)
    {
      start := start - count;
    }

    /** `fill_amount`: up to `amount` unconsumed bytes in the buffer. */
    method FillAmount(amount: nat) returns (r: Result<nat, IoError>)
      requires Valid() && amount <= data.Length
      modifies this`start, this`end, this`origin, this`validFrom, reader`pos, reader`errors, data
      ensures reader.errors == Logged(old(reader.errors), r)
      ensures Valid() && Position() == old(Position())
      ensures end - start == old(end - start) + (if r.Ok? then r.value else 0)
      ensures r.Ok? && r.value > 0 ==> end - start <= amount
      // It adds nothing if there is enough already, and otherwise only if the stream has no more.
      ensures amount <= old(end - start) ==> r == Ok(0)
      ensures r == Ok(0) ==> amount <= old(end - start) || reader.pos >= |reader.bytes|
      // What may be given back or sought in the buffer: as before, unless the window moves to
      // the front or the buffer is filled anew.
      ensures amount <= old(end - start) ==> unchanged(this, data)
      ensures old(start) + amount <= data.Length && r.Ok? ==>
        start == old(start) && (validFrom == old(validFrom) || (old(end) == 0 && validFrom == 0))
      ensures r.Ok? && r.value > 0 && old(start) + amount > data.Length ==> start == validFrom == 0
    {
      var lo, hi := end, start + amount;
      if hi <= lo {
        return Ok(0);
      }
      if hi > data.Length {
        hi := amount;
        if start == end {
          lo := 0;
        } else {
          MoveDataToBeginning();
          // The code returns here if there is no spare capacity; but there is.
          assert end < data.Length;
          lo := end;
        }
      }
      r := FillBufRange(lo, hi);
      if lo == 0 && r.Ok? && r.value != 0 {
        start := 0;
      }
    }

    // ----- seeking

    /** `stream_position`; the subtraction that is checked there cannot overflow. */
    method StreamPosition() returns (r: Result<nat, IoError>)
      requires Sound()
      modifies reader`errors
      ensures reader.errors == Logged(old(reader.errors), r)
      ensures r.Ok? ==> r.value == Position() && IsPos(r.value)
    {
      r := reader.StreamPosition();
      PositionNat();
      if r.Ok? {
        r := Ok(r.value - (end - start));
      }
    }

    /** Whether a relative seek stays within the buffer. */
    predicate InBuffer(rel: int)
      reads this`start, this`end
    {
      IsOffset(rel + start) && 0 <= rel + start <= end
    }

    /** Whether it then comes out where the buffer still is the stream. */
    ghost predicate Trusted(rel: int)
      reads this`start, this`end, this`validFrom
    {
      InBuffer(rel) ==> validFrom <= start + rel
    }

    method SeekRelative(rel: int) returns (r: Result<nat, IoError>)
      requires Valid() && IsOffset(rel) && IsOffset(data.Length)
      modifies this`start, this`end, this`origin, this`validFrom, reader`pos, reader`errors
      ensures reader.errors == Logged(old(reader.errors), r)
      ensures Sound()
      ensures r.Ok? ==> r.value == Position() == old(Position()) + rel
      ensures r.Ok? ==> (Valid() <==> old(Trusted(rel)))
      ensures old(InBuffer(rel)) ==>
        unchanged(`end, `origin, `validFrom, reader`pos) && Position() == old(Position()) + rel
      ensures r.Err? && !old(InBuffer(rel)) ==> Valid() && Position() in {old(Position()), old(reader.pos)}
    {
      var pos := rel + start;
      if IsOffset(pos) && 0 <= pos <= end {
        start := pos;
        r := StreamPosition();
      } else {
        r := SeekInner(Current(rel));
      }
    }

    /** `seek_inner`: the stream's own seek, made up for what is buffered.  If that would
        leave the range of `i64`, the stream is moved back over the buffer first.  A failing
        seek loses what was buffered, unless it was that first step. */
    method SeekInner(seek: SeekFrom) returns (r: Result<nat, IoError>)
      requires Valid() && WellTyped(seek) && IsOffset(data.Length)
      modifies this`start, this`end, this`origin, this`validFrom, reader`pos, reader`errors
      ensures reader.errors == Logged(old(reader.errors), r)
      ensures Valid()
      ensures r.Ok? ==> r.value == Position() == Target(seek, old(Position()), |reader.bytes|) && IsPos(r.value)
      ensures r.Ok? ==> start == end
      ensures r.Err? ==> Position() in {old(Position()), old(reader.pos)}
    {
      var s := seek;
      if seek.Current? {
        var remainder := end - start;
        if IsOffset(seek.rel - remainder) {
          s := Current(seek.rel - remainder);
        } else {
          var back := reader.Seek(Current(0 - remainder));
          if back.Err? {
            return back;
          }
        }
      }
      r := reader.Seek(s);
      Discard();
    }

    method SeekAbs(abs: nat, seek: SeekFrom) returns (r: Result<nat, IoError>)
      requires Valid() && WellTyped(seek) && IsOffset(data.Length) && IsPos(abs)
      requires !seek.Current? && Target(seek, 0, |reader.bytes|) == abs
      modifies this`start, this`end, this`origin, this`validFrom, reader`pos, reader`errors
      ensures reader.errors == Logged(old(reader.errors), r)
      ensures Sound()
      ensures r.Ok? ==> r.value == Position() == abs
      ensures r.Ok? ==> (Valid() <==> (IsOffset(abs - old(Position())) ==> old(Trusted(abs - Position()))))
    {
      var pos := StreamPosition();
      if pos.Err? {
        return pos;
      }
      Uint.CheckedSignedDiffExact(abs, pos.value, 64);
      var rel := Uint.CheckedSignedDiff(abs, pos.value, 64);
      if rel.Some? {
        r := SeekRelative(rel.value);
      } else {
        r := SeekInner(seek);
      }
    }

    /** Whether `seek` tries the buffer first. */
    predicate TriesBuffer(seek: SeekFrom) {
      match seek
      case Current(_) => true
      case Start(_) => reader.posFast
      case End(_) => reader.posFast && reader.lenFast
    }

    /** Every successful seek ends where the stream's own seek would, and the buffer then
        shows the stream's bytes exactly unless the seek went back, inside the buffer, to
        before the last read that went past it. */
    method Seek(seek: SeekFrom) returns (r: Result<nat, IoError>)
      requires Valid() && WellTyped(seek) && IsOffset(data.Length)
      modifies this`start, this`end, this`origin, this`validFrom, reader`pos, reader`errors
      ensures Sound()
      // It fails only if the stream does, or on the overflow that panics.
      ensures reader.errors == Logged(old(reader.errors), r)
        || (r == Err(Panicked) && seek.End? && !IsPos(|reader.bytes| + seek.rel))
      ensures r.Ok? ==> r.value == Position() == Target(seek, old(Position()), |reader.bytes|)
      ensures r.Ok? ==> var rel := Target(seek, old(Position()), |reader.bytes|) - old(Position());
        Valid() <==> (TriesBuffer(seek) && IsOffset(rel) ==>
          old(Trusted(Target(seek, Position(), |reader.bytes|) - Position())))
    {
      match seek {
        case Current(rel) => r := SeekRelative(rel);
        case Start(abs) =>
          if !reader.posFast {
            r := SeekInner(seek);
          } else {
            r := SeekAbs(abs, seek);
          }
        case End(rel) =>
          if !reader.posFast || !reader.lenFast {
            r := SeekInner(seek);
          } else {
            var len := reader.StreamLen();
            if len.Err? {
              return len;
            }
            if !IsPos(len.value + rel) {
              return Err(Panicked);
            }
            r := SeekAbs(len.value + rel, seek);
          }
      }
    }
  }

  /** Consumes a buffer of one byte and reads one more past it, from a stream of two.  No read
      of one byte can be short, so only a failing stream gets in the way. */
  method ReadPast(source: Source) returns (r: Option<BufReader>)
    requires source.bytes == [10, 11] && source.pos == 0
    modifies source
    ensures source.errors == old(source.errors) ==> r.Some?
    ensures r.Some? ==>
      && fresh(r.value) && fresh(r.value.data) && r.value.reader == source
      && r.value.Valid() && r.value.data.Length == 1
      && r.value.start == r.value.end == r.value.validFrom == 1 && source.pos == 2 && r.value.data[0] == 10
      && source.errors == old(source.errors)
  {
    r := None;
    var reader := new BufReader(source, 1);
    var filled := reader.FillAmount(1);
    if filled.Err? {
      return;
    }
    assert reader.CellOk(0);
    reader.Consume(1);
    var one := new Byte[1](i => 0);
    var past := reader.Read(one, 0, 1);
    if past.Ok? {
      r := Some(reader);
    }
  }

  /** A seek one back from there returns position 1, where the stream has 11, but the
      buffer shows 10. */
  method StaleSeek(source: Source) returns (seen: Option<(nat, Byte)>)
    requires source.bytes == [10, 11] && source.pos == 0
    modifies source
    ensures source.errors == old(source.errors) ==> seen.Some?
    ensures seen.Some? ==> seen.value == (1, 10) && source.bytes[1] == 11
  {
    Pow2Monotonic(2, 63);
    var reader := ReadPast(source);
    if reader.None? {
      return None;
    }
    var sought := reader.value.SeekRelative(-1);
    if sought.Err? {
      return None;
    }
    seen := Some((sought.value, reader.value.Buffer()[0]));
  }
}
