/** Double-word arithmetic of include/longlong.h, in its plain C form, for
    every even word size: a word has `2 * h` bits and a half word `h`. */
module LongLong {
  import opened Words

  /** The number of values of a word. */
  function WordBase(h: nat): (w: nat)
    ensures w == Pow2(h) * Pow2(h) && w > 0
  {
    Pow2Add(h, h);
    Pow2(h + h)
  }

  function LowPart(h: nat, t: nat): (r: nat)
    ensures r < Pow2(h)
  {
    MaskIsMod(h, t);
    BitAnd(t, Pow2(h) - 1)
  }

  function HighPart(h: nat, t: nat): nat {
    DivParts(Pow2(h), t);
    t / Pow2(h)
  }

  lemma Parts(h: nat, t: nat)
    ensures t == HighPart(h, t) * Pow2(h) + LowPart(h, t)
    ensures t < WordBase(h) ==> HighPart(h, t) < Pow2(h)
  {
    MaskIsMod(h, t);
    DivParts(Pow2(h), t);
  }

  lemma DivParts(b: nat, t: nat)
    requires b > 0
    ensures 0 <= t / b && 0 <= t % b < b && t == t / b * b + t % b
    ensures t < b * b ==> t / b < b
  {
    MulMono(b, t / b, b);
  }

  /** Two words `sh`, `sl` that differ from `x` by a multiple of the double-word
      modulus hold `x` reduced by it. */
  lemma TwoWordMod(w: nat, sh: nat, sl: nat, k: int, x: int)
    requires sh < w && sl < w && x == k * (w * w) + (sh * w + sl)
    ensures sh * w + sl == x % (w * w)
  {
    PairFits(w, sh, sl, w);
    DivModUnique(x, w * w, k, sh * w + sl);
  }

  /** A digit pair is below `m` times the base when its high digit is below `m`. */
  lemma PairFits(b: nat, hi: nat, lo: nat, m: nat)
    requires hi < m && lo < b
    ensures hi * b + lo < m * b
  {
    MulMono(hi + 1, m, b);
    Distribute(hi, 1, b);
  }

  /** Two-word addition; the carry out of the high word is lost. */
  method AddSsaaaa(h: nat, ah: nat, al: nat, bh: nat, bl: nat) returns (sh: nat, sl: nat)
    requires ah < WordBase(h) && al < WordBase(h) && bh < WordBase(h) && bl < WordBase(h)
    ensures sh < WordBase(h) && sl < WordBase(h)
    ensures var w := WordBase(h);
            sh * w + sl == (ah * w + al + (bh * w + bl)) % (w * w)
  {
    var w := WordBase(h);
    WrapOnce(w, al + bl);
    var x := Wrap(w, al + bl);
    var carry := if x < al then 1 else 0;
    WrapOnce(w, ah + bh + carry);
    sh := Wrap(w, ah + bh + carry);
    sl := x;
    ghost var k := if ah + bh + carry < w then 0 else 1;
    assert ah + bh + carry == k * w + sh;
    SumColumns(w, ah, al, bh, bl, carry, k, sh, sl);
    TwoWordMod(w, sh, sl, k, ah * w + al + (bh * w + bl));
  }

  /** Column-wise addition with carry `c` between and `k` out of the columns. */
  lemma SumColumns(w: nat, ah: int, al: int, bh: int, bl: int, c: int, k: int, sh: int, sl: int)
    requires al + bl == c * w + sl && ah + bh + c == k * w + sh
    ensures ah * w + al + (bh * w + bl) == k * (w * w) + (sh * w + sl)
  {
    Distribute(ah, bh, w);
    Distribute(ah + bh, c, w);
    Distribute(k * w, sh, w);
    MulAssoc(k, w, w);
  }

  /** Two-word subtraction; the borrow out of the high word is lost. */
  method SubDdmmss(h: nat, ah: nat, al: nat, bh: nat, bl: nat) returns (sh: nat, sl: nat)
    requires ah < WordBase(h) && al < WordBase(h) && bh < WordBase(h) && bl < WordBase(h)
    ensures sh < WordBase(h) && sl < WordBase(h)
    ensures var w := WordBase(h);
            sh * w + sl == (ah * w + al - (bh * w + bl)) % (w * w)
  {
    var w := WordBase(h);
    WrapOnce(w, al - bl);
    var x := Wrap(w, al - bl);
    var borrow := if x > al then 1 else 0;
    WrapOnce(w, ah - bh - borrow);
    sh := Wrap(w, ah - bh - borrow);
    sl := x;
    ghost var k := if ah - bh - borrow < 0 then -1 else 0;
    assert ah - bh - borrow == k * w + sh;
    SumColumns(w, ah, al, 0 - bh, 0 - bl, 0 - borrow, k, sh, sl);
    Distribute(bh, 0 - bh, w);
    TwoWordMod(w, sh, sl, k, ah * w + al - (bh * w + bl));
  }

  /** The double-word product of two words, from four half-word products. */
  method UmulPpmm(h: nat, u: nat, v: nat) returns (w1: nat, w0: nat)
    requires u < WordBase(h) && v < WordBase(h)
    ensures w1 < WordBase(h) && w0 < WordBase(h)
    ensures w1 * WordBase(h) + w0 == u * v
  {
    hide *;
    var w := WordBase(h);
    var ul, uh, vl, vh := LowPart(h, u), HighPart(h, u), LowPart(h, v), HighPart(h, v);
    HalfProducts(h, u, v);
    var x0, x1, x2, x3 := Wrap(w, ul * vl), Wrap(w, ul * vh), Wrap(w, uh * vl), Wrap(w, uh * vh);

    Parts(h, x0);
    x1 := Wrap(w, x1 + HighPart(h, x0));  // cannot carry
    WrapOnce(w, x1 + x2);
    x1 := Wrap(w, x1 + x2);               // but this can
    ghost var c := if x1 < x2 then 1 else 0;
    ProductColumns(h, u, v, c, x1);
    if x1 < x2 {
      x3 := Wrap(w, x3 + Pow2(h));
    }
    w1 := Wrap(w, x3 + HighPart(h, x1));
    w0 := Wrap(w, Wrap(w, LowPart(h, x1) * Pow2(h)) + LowPart(h, x0));
  }

  lemma HalfProducts(h: nat, u: nat, v: nat)
    requires u < WordBase(h) && v < WordBase(h)
    ensures var m := WordBase(h) - 2 * (Pow2(h) - 1);
            && 0 <= LowPart(h, u) * LowPart(h, v) < m
            && 0 <= LowPart(h, u) * HighPart(h, v) < m
            && 0 <= HighPart(h, u) * LowPart(h, v) < m
            && 0 <= HighPart(h, u) * HighPart(h, v) < m
  {
    Parts(h, u);
    Parts(h, v);
    HalfProduct(h, LowPart(h, u), LowPart(h, v));
    HalfProduct(h, LowPart(h, u), HighPart(h, v));
    HalfProduct(h, HighPart(h, u), LowPart(h, v));
    HalfProduct(h, HighPart(h, u), HighPart(h, v));
  }

  /** Reading the product off its low column, its middle column, which is `x1`
      with carry `c`, and its high column. */
  lemma ProductColumns(h: nat, u: nat, v: nat, c: nat, x1: nat)
    requires u < WordBase(h) && v < WordBase(h) && x1 < WordBase(h)
    requires LowPart(h, u) * LowPart(h, v) >= 0
    requires LowPart(h, u) * HighPart(h, v) + HighPart(h, LowPart(h, u) * LowPart(h, v)) +
      HighPart(h, u) * LowPart(h, v)
             == c * WordBase(h) + x1
    ensures var w := WordBase(h);
            var high := HighPart(h, u) * HighPart(h, v) + c * Pow2(h) + HighPart(h, x1);
            var low := LowPart(h, x1) * Pow2(h) + LowPart(h, LowPart(h, u) * LowPart(h, v));
            high < w && 0 <= LowPart(h, x1) * Pow2(h) && low < w && high * w + low == u * v
  {
    hide *;
    var b, x0 := Pow2(h), LowPart(h, u) * LowPart(h, v);
    Parts(h, u);
    Parts(h, v);
    Parts(h, x0);
    Parts(h, x1);
    SchoolProduct(b, LowPart(h, u), HighPart(h, u), LowPart(h, v), HighPart(h, v),
                  HighPart(h, x0), LowPart(h, x0), c, HighPart(h, x1), LowPart(h, x1));
    PairFits(b, LowPart(h, x1), LowPart(h, x0), b);
    MulMono(0, LowPart(h, x1), b);
    HighFits(WordBase(h), u, v, HighPart(h, u) * HighPart(h, v) + c * b + HighPart(h, x1),
      LowPart(h, x1) * b + LowPart(h, x0));
  }

  lemma HalfProduct(h: nat, x: nat, y: nat)
    requires x < Pow2(h) && y < Pow2(h)
    ensures 0 <= x * y && x * y + 2 * (Pow2(h) - 1) < WordBase(h)
  {
    var m := Pow2(h) - 1;
    MulMono(0, x, y);
    MulMono(x, m, y);
    MulMono(y, m, m);
    Square(m);
  }

  lemma Square(m: nat)
    ensures (m + 1) * (m + 1) == m * m + 2 * m + 1
  {
  }

  /** The four half-word products, with the middle column split as
      `c * b^2 + p * b + low`, add up to the full product. */
  lemma SchoolProduct(b: nat, ul: nat, uh: nat, vl: nat, vh: nat, h0: nat, l0: nat, c: nat, p: nat, low: nat)
    requires ul * vl == h0 * b + l0
    requires ul * vh + h0 + uh * vl == c * (b * b) + p * b + low
    ensures (uh * b + ul) * (vh * b + vl) == (uh * vh + c * b + p) * (b * b) + (low * b + l0)
  {
    var mid := ul * vh + h0 + uh * vl;
    calc {
      (uh * b + ul) * (vh * b + vl);
      (uh * vh) * (b * b) + (ul * vh + uh * vl) * b + ul * vl;
      (uh * vh) * (b * b) + mid * b + l0;
      (uh * vh) * (b * b) + (c * (b * b) + p * b + low) * b + l0;
      (uh * vh + c * b + p) * (b * b) + (low * b + l0);
    }
  }

  lemma HighFits(w: nat, u: nat, v: nat, high: int, low: nat)
    requires u < w && v < w && u * v == high * w + low
    ensures high < w
  {
    MulMono(w, high, w);
    MulMono(u, w - 1, v);
    MulMono(v, w, w - 1);
    Distribute(w, -1, w);
  }

  /** Subtracts the trial product `m` from the trial remainder `r`, first adding
      `d` back at most twice. A carry out of `r + d` shows as a wrapped sum
      below `d`. */
  method CorrectDigit(w: nat, q0: nat, r0: nat, m: nat, d: nat) returns (q: nat, r: nat)
    requires r0 < d < w <= 2 * d && m < w && q0 < w
    requires r0 < m ==> q0 >= 1
    requires r0 + d < m ==> q0 >= 2
    ensures r < d
    ensures r0 >= m ==> q == q0 && r == r0 - m
    ensures r0 < m <= r0 + d ==> q == q0 - 1 && r == r0 + d - m
    ensures r0 + d < m ==> q == q0 - 2 && r == r0 + 2 * d - m
  {
    q, r := q0, r0;
    if r < m {
      q := Wrap(w, q - 1);
      WrapOnce(w, r + d);
      r := Wrap(w, r + d);
      if r >= d {
        if r < m {
          q := Wrap(w, q - 1);
          WrapOnce(w, r + d);
          r := Wrap(w, r + d);
        }
      }
    }
    WrapOnce(w, r - m);
    r := Wrap(w, r - m);
  }

  method DivideWords(n: nat, d: nat) returns (q: nat, r: nat)
    requires d > 0
    ensures n == q * d + r && r < d
  {
    DivParts(d, n);
    r := n % d;
    q := n / d;
  }

  /** One quotient digit of Knuth's Algorithm D (TAOCP volume 2, section 4.3.1):
      divides `n1 * 2^h + n` by the normalised word `d`, trying `n1 / d1`. */
  method DivideDigit(h: nat, n1: nat, n: nat, d: nat) returns (q: nat, r: nat)
    requires h > 0 && n1 < d < WordBase(h) <= 2 * d && n < Pow2(h)
    ensures q < Pow2(h) && r < d
    ensures q * d + r == n1 * Pow2(h) + n
  {
    hide *;
    var w := WordBase(h);
    var d1, d0 := HighPart(h, d), LowPart(h, d);
    HighHalf(h, d);
    q, r := DivideWords(n1, d1);
    TrialDigit(h, n1, n, d, d1, d0, q, r);
    var m := Wrap(w, q * d0);
    r := BitOr(Wrap(w, r * Pow2(h)), n);
    ghost var q0, r0, whole := q, r, n1 * Pow2(h) + n;
    TrialCorrections(q, d, r - m, whole);
    q, r := CorrectDigit(w, q, r, m, d);
    CorrectionsKeep(q0, r0, m, d, q, r, whole);
    DigitRange(Pow2(h), d, n1, n, q, r);
  }

  /** Lowering the quotient and raising the remainder keep their sum. */
  lemma CorrectionsKeep(q0: nat, r0: nat, m: nat, d: nat, q: nat, r: nat, whole: int)
    requires q0 * d + (r0 - m) == whole
    requires r0 >= m ==> q == q0 && r == r0 - m
    requires r0 < m <= r0 + d ==> q == q0 - 1 && r == r0 + d - m
    requires r0 + d < m ==> q == q0 - 2 && r == r0 + 2 * d - m
    ensures q * d + r == whole
  {
    Distribute(q0, -1, d);
    Distribute(q0, -2, d);
  }

  /** What the trial digit `q0` and its remainder `r0` satisfy. */
  lemma TrialDigit(h: nat, n1: nat, n: nat, d: nat, d1: nat, d0: nat, q0: nat, r0: nat)
    requires n1 < d && n < Pow2(h)
    requires d == d1 * Pow2(h) + d0 && 0 < d1 < Pow2(h) <= 2 * d1 && d0 < Pow2(h)
    requires n1 == q0 * d1 + r0 && r0 < d1
    ensures q0 < WordBase(h)
    ensures 0 <= q0 * d0 < WordBase(h)
    ensures 0 <= r0 * Pow2(h) < WordBase(h)
    ensures BitOr(r0 * Pow2(h), n) == r0 * Pow2(h) + n < d
    ensures q0 * d + (r0 * Pow2(h) + n - q0 * d0) == n1 * Pow2(h) + n
  {
    hide *;
    OrIsAdd(h, r0, n);
    TrialBound(Pow2(h), d1, d0, n1, q0, r0);
    TrialProduct(Pow2(h), q0, d0);
    TrialIdentity(Pow2(h), d1, d0, n1, q0, r0, n);
    MulMono(0, r0, Pow2(h));
    PairFits(Pow2(h), r0, n, d1);
    PairFits(Pow2(h), r0, n, Pow2(h));
  }

  /** The high half of a normalised word is at least half of `2^h`. */
  lemma HighHalf(h: nat, d: nat)
    requires h > 0 && d < WordBase(h) <= 2 * d
    ensures 0 < HighPart(h, d) < Pow2(h) <= 2 * HighPart(h, d)
    ensures d == HighPart(h, d) * Pow2(h) + LowPart(h, d)
  {
    hide *;
    Pow2Even(h);
    Parts(h, d);
    HighHalfLarge(Pow2(h), d, HighPart(h, d), LowPart(h, d));
  }

  /** A negative remainder leaves room to lower the quotient. */
  lemma TrialCorrections(q: int, d: nat, r: int, n: nat)
    requires q * d + r == n
    ensures (q - 1) * d + (r + d) == n && (q - 2) * d + (r + 2 * d) == n
    ensures r < 0 ==> q >= 1
    ensures r + d < 0 ==> q >= 2
  {
    Distribute(q, -1, d);
    Distribute(q, -2, d);
    MulMono(q, 0, d);
    MulMono(q, 1, d);
  }

  lemma HighHalfLarge(b: nat, d: nat, d1: nat, d0: nat)
    requires d == d1 * b + d0 && d0 < b && b * b <= 2 * d && b % 2 == 0
    ensures 0 < d1 && b <= 2 * d1
  {
    MulMono(2 * d1 + 2, b, b);
    Distribute(2 * d1, 2, b);
    MulAssoc(2, d1, b);
  }

  /** The trial digit exceeds the base by at most one. */
  lemma TrialBound(b: nat, d1: nat, d0: nat, n1: nat, q0: nat, r0: nat)
    requires 0 < d1 && b <= 2 * d1 && d0 < b
    requires n1 == q0 * d1 + r0 && n1 < d1 * b + d0
    ensures q0 <= b + 1
  {
    MulMono(b + 2, q0, d1);
    Distribute(b, 2, d1);
  }

  lemma TrialProduct(b: nat, q0: nat, d0: nat)
    requires q0 <= b + 1 && d0 < b && 2 <= b
    ensures q0 < b * b && 0 <= q0 * d0 < b * b
  {
    MulMono(0, q0, d0);
    MulMono(q0, b + 1, d0);
    MulMono(d0, b - 1, b + 1);
    assert (b - 1) * (b + 1) == b * b - 1;
    MulMono(2, b, b);
  }

  lemma TrialIdentity(b: nat, d1: nat, d0: nat, n1: nat, q0: nat, r0: nat, n: nat)
    requires n1 == q0 * d1 + r0
    ensures q0 * (d1 * b + d0) + (r0 * b + n - q0 * d0) == n1 * b + n
  {
    Distribute(d1 * b, d0, q0);
    MulAssoc(q0, d1, b);
    Distribute(q0 * d1, r0, b);
  }

  lemma DigitRange(b: nat, d: nat, n1: nat, n: nat, q: nat, r: nat)
    requires n1 < d && n < b && r < d && q * d + r == n1 * b + n
    ensures q < b
  {
    MulMono(b, q, d);
    PairFits(b, n1, n, d);
  }

  /** Divides the double word `n1`, `n0` by the normalised word `d`. */
  method UdivQrnndC(h: nat, n1: nat, n0: nat, d: nat) returns (q: nat, r: nat)
    requires h > 0 && n1 < d < WordBase(h) <= 2 * d && n0 < WordBase(h)
    ensures q < WordBase(h) && r < d
    ensures q * d + r == n1 * WordBase(h) + n0
  {
    var b, w := Pow2(h), WordBase(h);
    Parts(h, n0);
    var q1, r1 := DivideDigit(h, n1, HighPart(h, n0), d);
    var q0, r0 := DivideDigit(h, r1, LowPart(h, n0), d);
    PairFits(b, q1, q0, b);
    OrIsAdd(h, q1, q0);
    q := BitOr(Wrap(w, q1 * b), q0);
    r := r0;
    TwoDigits(b, d, q1, q0, r1, r0, n1, HighPart(h, n0), LowPart(h, n0));
  }

  lemma TwoDigits(b: nat, d: nat, q1: nat, q0: nat, r1: nat, r0: nat, n1: nat, nh: nat, nl: nat)
    requires q1 * d + r1 == n1 * b + nh && q0 * d + r0 == r1 * b + nl
    ensures (q1 * b + q0) * d + r0 == n1 * (b * b) + (nh * b + nl)
  {
    calc {
      (q1 * b + q0) * d + r0;
      (q1 * d) * b + (q0 * d + r0);
      (q1 * d + r1) * b + nl;
      (n1 * b + nh) * b + nl;
      n1 * (b * b) + (nh * b + nl);
    }
  }

  /** Multiplying, adding a remainder and dividing again gives both back. */
  method MultiplyAddDivide(h: nat, q: nat, r: nat, d: nat) returns (q': nat, r': nat)
    requires h > 0 && r < d < WordBase(h) <= 2 * d && q < WordBase(h)
    ensures q' == q && r' == r
  {
    ghost var w := WordBase(h);
    var p1, p0 := UmulPpmm(h, q, d);
    PairFits(d, q, r, w);
    MulMono(d, w, w);
    MulMono(0, q, d);
    var n1, n0 := AddSsaaaa(h, p1, p0, 0, r);
    DivModUnique(q * d + r, w * w, 0, q * d + r);
    MulMono(d, n1, w);
    q', r' := UdivQrnndC(h, n1, n0, d);
    DivModUnique(q * d + r, d, q, r);
    DivModUnique(q * d + r, d, q', r');
  }
}
