/** Powers of two, masking and machine words. */
module Bits {

  function Pow2(k: nat): (p: int)
    ensures p > 0
    decreases k
  {
    if k == 0 then 1 else 2 * Pow2(k - 1)
  }

  lemma {:induction false} Pow2Add(a: nat, b: nat)
    ensures Pow2(a + b) == Pow2(a) * Pow2(b)
    decreases a
  {
    if a == 0 {
    } else {
      Pow2Add(a - 1, b);
      var p, q := Pow2(a - 1), Pow2(b);
      assert 2 * (p * q) == (2 * p) * q;
    }
  }

  lemma {:induction false} Pow2Monotonic(a: nat, b: nat)
    requires a <= b
    ensures Pow2(a) <= Pow2(b)
    decreases b
  {
    if a == b {
    } else {
      Pow2Monotonic(a, b - 1);
    }
  }

  /** Bitwise "and" of two unsigned numbers, bit by bit. */
  function And(a: nat, b: nat): (r: nat)
    decreases a
  {
    if a == 0 || b == 0 then 0 else 2 * And(a / 2, b / 2) + (a % 2) * (b % 2)
  }

  lemma Halve(a: nat, p: nat)
    requires p > 0
    ensures a % (2 * p) == 2 * ((a / 2) % p) + a % 2
  {
    var q := (a / 2) / p;
    var r := (a / 2) % p;
    assert a / 2 == q * p + r;
    assert a == 2 * (q * p + r) + a % 2;
    assert a == q * (2 * p) + (2 * r + a % 2);
    RemainderUnique(a, 2 * p, q, 2 * r + a % 2);
  }

  lemma MultipleSize(d: int, m: int)
    requires m > 0
    ensures d >= 1 ==> d * m >= m
    ensures d <= -1 ==> d * m <= 0 - m
  {
    if d >= 1 {
      assert (d - 1) * m >= 0;
    } else if d <= -1 {
      assert (0 - d - 1) * m >= 0;
    }
  }

  /** A multiple of `m` strictly between `-m` and `m` is zero. */
  lemma SmallMultiple(d: int, m: int, e: int)
    requires m > 0 && d * m == e && 0 - m < e < m
    ensures d == 0
  {
    MultipleSize(d, m);
  }

  lemma Division(a: int, m: int)
    requires m > 0
    ensures a == (a / m) * m + a % m && 0 <= a % m < m
  {
  }

  lemma Distribute(a: int, b: int, m: int)
    ensures (a - b) * m == a * m - b * m
  {
  }

  lemma RemainderUnique(a: int, m: int, q: int, r: int)
    requires m > 0 && 0 <= r < m && a == q * m + r
    ensures a % m == r && a / m == q
  {
    Division(a, m);
    Distribute(a / m, q, m);
    SmallMultiple(a / m - q, m, r - a % m);
  }

  /** Masking with `2^k - 1` is the remainder modulo `2^k`. */
  lemma {:induction false} MaskIsMod(a: nat, k: nat)
    ensures And(a, Pow2(k) - 1) == a % Pow2(k)
    decreases k
  {
    if k > 0 {
      var p := Pow2(k - 1);
      assert (Pow2(k) - 1) / 2 == p - 1 && (Pow2(k) - 1) % 2 == 1;
      MaskIsMod(a / 2, k - 1);
      Halve(a, p);
      if a == 0 {
        assert a % Pow2(k) == 0;
      }
    } else {
      assert a % 1 == 0;
    }
  }

  /** A remainder modulo a multiple keeps the remainder modulo the factor. */
  lemma ModMod(a: nat, m: nat, n: nat)
    requires m > 0 && n > 0
    ensures (a % (m * n)) % n == a % n
  {
    assert m * n > 0;
    var q, r := a / (m * n), a % (m * n);
    assert a == q * (m * n) + r;
    var q', r' := r / n, r % n;
    assert r == q' * n + r';
    assert a == (q * m + q') * n + r' by {
      assert q * (m * n) == (q * m) * n;
    }
    RemainderUnique(a, n, q * m + q', r');
  }

  // ----- machine words of `bits` bits

  predicate IsWord(x: int, bits: nat) {
    0 <= x < Pow2(bits)
  }

  /** The range of the signed type of the same width. */
  predicate IsSigned(x: int, bits: nat)
    requires bits > 0
  {
    0 - Pow2(bits - 1) <= x < Pow2(bits - 1)
  }

  /** The word an unsigned operation wraps to. */
  function Wrap(x: int, bits: nat): (r: int)
    ensures IsWord(r, bits)
  {
    x % Pow2(bits)
  }

  /** Reinterpretation of a word as a signed number. */
  function AsSigned(x: int, bits: nat): (r: int)
    requires bits > 0 && IsWord(x, bits)
    ensures IsSigned(r, bits)
  {
    if x < Pow2(bits - 1) then x else x - Pow2(bits)
  }

  /** Numbers that wrap to the same word and are less than a lap apart are equal. */
  lemma WrapWindow(x: int, y: int, bits: nat)
    requires Wrap(x, bits) == Wrap(y, bits) && 0 - Pow2(bits) < x - y < Pow2(bits)
    ensures x == y
  {
    var m := Pow2(bits);
    Division(x, m);
    Division(y, m);
    Distribute(x / m, y / m, m);
    SmallMultiple(x / m - y / m, m, x - y);
  }

  /** Wrapping forgets whole laps. */
  lemma WrapShift(x: int, q: int, bits: nat)
    ensures Wrap(x + q * Pow2(bits), bits) == Wrap(x, bits)
  {
    var m := Pow2(bits);
    Division(x, m);
    Distribute(x / m, 0 - q, m);
    assert (0 - q) * m == 0 - q * m;
    RemainderUnique(x + q * m, m, x / m + q, x % m);
  }

  /** The wrapped difference, read as signed, is the true difference exactly when
      the true difference fits the signed type. */
  lemma SignedDifference(a: int, b: int, bits: nat)
    requires bits > 0
    ensures AsSigned(Wrap(Wrap(a, bits) - Wrap(b, bits), bits), bits) == a - b <==> IsSigned(a - b, bits)
  {
    var w := Wrap(Wrap(a, bits) - Wrap(b, bits), bits);
    WrapOfWraps(a, b, bits);
    SignedWraps(w, bits);
    if IsSigned(a - b, bits) {
      WrapWindow(AsSigned(w, bits), a - b, bits);
    }
  }

  /** Reading a word as signed does not change what it wraps to. */
  lemma SignedWraps(w: int, bits: nat)
    requires bits > 0 && IsWord(w, bits)
    ensures Wrap(AsSigned(w, bits), bits) == w
  {
    RemainderUnique(w, Pow2(bits), 0, w);
    WrapShift(w, -1, bits);
    assert w + -1 * Pow2(bits) == w - Pow2(bits);
  }

  lemma WrapOfWraps(a: int, b: int, bits: nat)
    ensures Wrap(Wrap(a, bits) - Wrap(b, bits), bits) == Wrap(a - b, bits)
  {
    var m := Pow2(bits);
    Division(a, m);
    Division(b, m);
    Distribute(b / m, a / m, m);
    WrapShift(a - b, b / m - a / m, bits);
  }
}
