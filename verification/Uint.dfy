/** Mixed signed and unsigned arithmetic, `UintExt` of `impls/uint.rs`, at every width.

    The functions are the code, on words of `bits` bits; the lemmas compare each with the
    exact integers.  The word a signed number casts to is `Wrap`. */
module Uint {
  import opened Wrappers
  import opened Bits

  function MaxSigned(bits: nat): (r: int)
    requires bits > 0
  {
    Pow2(bits - 1) - 1
  }

  function MinSigned(bits: nat): (r: int)
    requires bits > 0
  {
    0 - Pow2(bits - 1)
  }

  function Clamp(x: int, lo: int, hi: int): (r: int) {
    if x < lo then lo else if x > hi then hi else x
  }

  // ----- unsigned minus unsigned, as signed

  function OverflowingSignedDiff(a: int, b: int, bits: nat): (r: (int, bool))
    requires bits > 0 && IsWord(a, bits) && IsWord(b, bits)
  {
    var res := AsSigned(Wrap(a - b, bits), bits);
    (res, (a >= b) == (res < 0))
  }

  function SaturatingSignedDiff(a: int, b: int, bits: nat): (r: int)
    requires bits > 0 && IsWord(a, bits) && IsWord(b, bits)
  {
    var (res, overflow) := OverflowingSignedDiff(a, b, bits);
    if !overflow then res else if res < 0 then MaxSigned(bits) else MinSigned(bits)
  }

  function CheckedSignedDiff(a: int, b: int, bits: nat): (r: Option<int>)
    requires bits > 0 && IsWord(a, bits) && IsWord(b, bits)
  {
    var (res, overflow) := OverflowingSignedDiff(a, b, bits);
    if overflow then None else Some(res)
  }

  /** A word wraps to itself or, one lap off, to its neighbour. */
  lemma WrapDifference(d: int, bits: nat)
    requires 0 - Pow2(bits) <= d < Pow2(bits)
    ensures Wrap(d, bits) == if d < 0 then d + Pow2(bits) else d
  {
    if d < 0 {
      RemainderUnique(d, Pow2(bits), -1, d + Pow2(bits));
    } else {
      RemainderUnique(d, Pow2(bits), 0, d);
    }
  }

  /** The overflow flag is exact, the result is right modulo the word size, and it is the
      exact difference when the flag is clear. */
  lemma SignedDiffExact(a: int, b: int, bits: nat)
    requires bits > 0 && IsWord(a, bits) && IsWord(b, bits)
    ensures var (res, overflow) := OverflowingSignedDiff(a, b, bits);
      && (overflow <==> !IsSigned(a - b, bits))
      && (overflow <==> res != a - b)
      && IsSigned(res, bits) && Wrap(res, bits) == Wrap(a - b, bits)
      && (overflow ==> (res < 0 <==> a - b > 0))
  {
    assert Pow2(bits) == 2 * Pow2(bits - 1);
    WrapDifference(a - b, bits);
    SignedWraps(Wrap(a - b, bits), bits);
  }

  /** Saturation clamps the exact difference to the signed range. */
  lemma SaturatingSignedDiffClamps(a: int, b: int, bits: nat)
    requires bits > 0 && IsWord(a, bits) && IsWord(b, bits)
    ensures SaturatingSignedDiff(a, b, bits) == Clamp(a - b, MinSigned(bits), MaxSigned(bits))
  {
    SignedDiffExact(a, b, bits);
  }

  lemma CheckedSignedDiffExact(a: int, b: int, bits: nat)
    requires bits > 0 && IsWord(a, bits) && IsWord(b, bits)
    ensures CheckedSignedDiff(a, b, bits) == if IsSigned(a - b, bits) then Some(a - b) else None
  {
    SignedDiffExact(a, b, bits);
  }

  // ----- unsigned minus signed

  /** The primitive `overflowing_sub` of two words. */
  function OverflowingSub(a: int, w: int, bits: nat): (r: (int, bool))
    requires IsWord(a, bits) && IsWord(w, bits)
  {
    (Wrap(a - w, bits), a < w)
  }

  function OverflowingSubSigned(a: int, s: int, bits: nat): (r: (int, bool))
    requires bits > 0 && IsWord(a, bits) && IsSigned(s, bits)
  {
    var (res, overflow) := OverflowingSub(a, Wrap(s, bits), bits);
    (res, overflow != (s < 0))
  }

  function SaturatingSubSigned(a: int, s: int, bits: nat): (r: int)
    requires bits > 0 && IsWord(a, bits) && IsSigned(s, bits)
  {
    var (res, overflow) := OverflowingSubSigned(a, s, bits);
    if !overflow then res else if s < 0 then Pow2(bits) - 1 else 0
  }

  function CheckedSubSigned(a: int, s: int, bits: nat): (r: Option<int>)
    requires bits > 0 && IsWord(a, bits) && IsSigned(s, bits)
  {
    var (res, overflow) := OverflowingSubSigned(a, s, bits);
    if overflow then None else Some(res)
  }

  function WrappingSubSigned(a: int, s: int, bits: nat): (r: int)
    requires bits > 0 && IsWord(a, bits) && IsSigned(s, bits)
  {
    Wrap(a - Wrap(s, bits), bits)
  }

  /** Subtracting the cast of a signed number is subtracting it, modulo the word size. */
  lemma WrappingSubSignedExact(a: int, s: int, bits: nat)
    requires bits > 0 && IsWord(a, bits) && IsSigned(s, bits)
    ensures WrappingSubSigned(a, s, bits) == Wrap(a - s, bits)
  {
    assert Pow2(bits) == 2 * Pow2(bits - 1);
    WrapDifference(s, bits);
    if s < 0 {
      WrapShift(a - s, -1, bits);
      assert a - s + -1 * Pow2(bits) == a - Wrap(s, bits);
    }
  }

  lemma SubSignedExact(a: int, s: int, bits: nat)
    requires bits > 0 && IsWord(a, bits) && IsSigned(s, bits)
    ensures var (res, overflow) := OverflowingSubSigned(a, s, bits);
      && (overflow <==> !IsWord(a - s, bits))
      && (overflow <==> res != a - s)
      && res == Wrap(a - s, bits)
      && (overflow ==> (s < 0 <==> a - s >= Pow2(bits)))
  {
    assert Pow2(bits) == 2 * Pow2(bits - 1);
    WrapDifference(s, bits);
    WrapDifference(a - Wrap(s, bits), bits);
    WrappingSubSignedExact(a, s, bits);
  }

  lemma SaturatingSubSignedClamps(a: int, s: int, bits: nat)
    requires bits > 0 && IsWord(a, bits) && IsSigned(s, bits)
    ensures SaturatingSubSigned(a, s, bits) == Clamp(a - s, 0, Pow2(bits) - 1)
  {
    SubSignedExact(a, s, bits);
  }

  lemma CheckedSubSignedExact(a: int, s: int, bits: nat)
    requires bits > 0 && IsWord(a, bits) && IsSigned(s, bits)
    ensures CheckedSubSigned(a, s, bits) == if IsWord(a - s, bits) then Some(a - s) else None
  {
    SubSignedExact(a, s, bits);
  }
}
