/** Unsigned machine words of an arbitrary width, as natural numbers below a
    power of two, with the C operators the modelled code applies to them. */
module Words {
  function Pow2(n: nat): (p: nat)
    ensures p > 0
  {
    if n == 0 then 1 else 2 * Pow2(n - 1)
  }

  lemma Pow2Even(n: nat)
    requires n > 0
    ensures Pow2(n) % 2 == 0
  {
  }

  lemma {:induction false} Pow2Add(m: nat, n: nat)
    ensures Pow2(m + n) == Pow2(m) * Pow2(n)
  {
    if m > 0 {
      Pow2Add(m - 1, n);
      MulAssoc(2, Pow2(m - 1), Pow2(n));
    }
  }

  lemma {:induction false} Pow2Mono(m: nat, n: nat)
    requires m <= n
    ensures Pow2(m) <= Pow2(n)
  {
    if m < n { Pow2Mono(m, n - 1); }
  }

  /** The value an unsigned variable with `w` possible values holds after being
      assigned `x`. */
  function Wrap(w: nat, x: int): (r: nat)
    requires w > 0
    ensures r < w
    ensures 0 <= x < w ==> r == x
  {
    if 0 <= x < w then x else x % w
  }

  /** C's `x | y`, bit by bit. */
  function BitOr(x: nat, y: nat): nat
    decreases x + y
  {
    if x + y == 0 then 0
    else 2 * BitOr(x / 2, y / 2) + (if x % 2 == 1 || y % 2 == 1 then 1 else 0)
  }

  /** C's `x & y`, bit by bit. */
  function BitAnd(x: nat, y: nat): nat
  {
    if x == 0 then 0
    else 2 * BitAnd(x / 2, y / 2) + (if x % 2 == 1 && y % 2 == 1 then 1 else 0)
  }

  /** Or-ing a value below `2^n` into a multiple of `2^n` is adding it. */
  lemma {:induction false} OrIsAdd(n: nat, x: nat, y: nat)
    requires y < Pow2(n)
    ensures x * Pow2(n) >= 0
    ensures BitOr(x * Pow2(n), y) == x * Pow2(n) + y
  {
    if n == 0 {
      OrZero(x);
    } else {
      var xp := x * Pow2(n - 1);
      MulAssoc(x, 2, Pow2(n - 1));
      MulAssoc(2, x, Pow2(n - 1));
      assert x * Pow2(n) == 2 * xp;
      OrIsAdd(n - 1, x, y / 2);
      OrHalves(2 * xp, y);
    }
  }

  lemma OrHalves(x: nat, y: nat)
    ensures BitOr(x, y) == 2 * BitOr(x / 2, y / 2) + (if x % 2 == 1 || y % 2 == 1 then 1 else 0)
  {
  }

  lemma {:induction false} OrZero(x: nat)
    ensures BitOr(x, 0) == x
  {
    if x > 0 { OrZero(x / 2); }
  }

  lemma {:induction false} OrCommutes(x: nat, y: nat)
    ensures BitOr(x, y) == BitOr(y, x)
    decreases x + y
  {
    if x + y > 0 { OrCommutes(x / 2, y / 2); }
  }

  lemma AndHalves(x: nat, y: nat)
    ensures BitAnd(x, y) == 2 * BitAnd(x / 2, y / 2) + (if x % 2 == 1 && y % 2 == 1 then 1 else 0)
  {
  }

  lemma {:induction false} AndZero(x: nat)
    ensures BitAnd(x, 0) == 0
  {
    if x > 0 { AndZero(x / 2); }
  }

  /** Masking with `2^n - 1` keeps the remainder modulo `2^n`. */
  lemma {:induction false} MaskIsMod(n: nat, x: nat)
    ensures BitAnd(x, Pow2(n) - 1) == x % Pow2(n)
  {
    if n == 0 {
      AndZero(x);
    } else {
      var p := Pow2(n - 1);
      MaskIsMod(n - 1, x / 2);
      HalveMod(x, p);
      AndHalves(x, 2 * p - 1);
    }
  }

  lemma HalveMod(x: nat, p: nat)
    requires p > 0
    ensures x % (2 * p) == 2 * ((x / 2) % p) + x % 2
  {
    var q, r := (x / 2) / p, (x / 2) % p;
    assert x / 2 == q * p + r;
    MulAssoc(q, 2, p);
    MulAssoc(2, q, p);
    DivModUnique(x, 2 * p, q, 2 * r + x % 2);
  }

  /** Quotient and remainder are determined by their defining equation. */
  lemma DivModUnique(n: int, d: int, q: int, r: int)
    requires n == q * d + r && 0 <= r < d
    ensures n / d == q && n % d == r
  {
    var q', r' := n / d, n % d;
    Distribute(q, -q', d);
    Distribute(0, -q', d);
    Distribute(q', -q', d);
    MulMono(1, q - q', d);
    MulMono(q - q', -1, d);
  }

  /** Wrapping a value at most one modulus out of range. */
  lemma WrapOnce(w: nat, x: int)
    requires w > 0 && -(w as int) <= x < 2 * w
    ensures Wrap(w, x) == if x < 0 then x + w else if x < w then x else x - w
  {
    if x < 0 {
      DivModUnique(x, w, -1, x + w);
    } else if x >= w {
      DivModUnique(x, w, 1, x - w);
    }
  }

  lemma MulAssoc(x: int, y: int, z: int)
    ensures x * (y * z) == (x * y) * z
  {
  }

  lemma MulMono(x: int, y: int, z: int)
    ensures x <= y && 0 <= z ==> x * z <= y * z
  {
  }

  lemma Distribute(x: int, y: int, z: int)
    ensures (x + y) * z == x * z + y * z
    ensures z * (x + y) == z * x + z * y
  {
  }
}
