/** LEB128 readers of include/leb128.h (section 7.6 of DWARF Version 5). */
module Leb128 {
  import opened Words
  import opened Common

  type Byte = x: nat | x < 256

  /** The payload of a byte, `byte & 0x7f`. */
  function Low7(b: Byte): (r: nat)
    ensures r == b % 128
  {
    MaskIsMod(7, b);
    BitAnd(b, Pow2(7) - 1)
  }

  /** Whether `byte & 0x40` is nonzero. */
  predicate Bit6(b: Byte) {
    b / 64 % 2 == 1
  }

  /** The number an encoding denotes when read as unsigned. */
  function UValue(bs: seq<Byte>): nat {
    if bs == [] then 0 else bs[0] % 128 + 128 * UValue(bs[1..])
  }

  /** The number an encoding denotes when bit 6 of its last byte is the sign. */
  function SValue(bs: seq<Byte>): int {
    UValue(bs) - (if bs != [] && Bit6(bs[|bs| - 1]) then Pow2(7 * |bs|) else 0)
  }

  /** The first byte of `buf` without the continuation bit is its `n`-th. */
  predicate Terminated(buf: seq<Byte>, n: nat) {
    && 0 < n <= |buf| && buf[n - 1] < 128
    && forall k :: 0 <= k < n - 1 ==> buf[k] >= 128
  }

  predicate Unterminated(buf: seq<Byte>) {
    forall k :: 0 <= k < |buf| ==> buf[k] >= 128
  }

  /** The readers never shift a 64-bit value by 64 or more. */
  ghost predicate ShiftsDefined(buf: seq<Byte>) {
    |buf| <= 10 || exists n :: n <= 10 && Terminated(buf, n)
  }

  /** What remains of `x` in a 64-bit word. */
  function Trunc64(x: int): nat {
    x % Pow2(64)
  }

  /** C's `x << s` on a 64-bit word. */
  function Shl64(x: nat, s: nat): nat
    requires s < 64
  {
    Wrap(Pow2(64), x * Pow2(s))
  }

  /** C's `-x` on a 64-bit word. */
  function Neg64(x: nat): nat {
    Wrap(Pow2(64), -(x as int))
  }

  /** A 64-bit pattern read as a signed number. */
  function ToSigned(u: nat): int {
    if u < Pow2(63) then u else u - Pow2(64)
  }

  lemma {:induction false} UValueAppend(bs: seq<Byte>, b: Byte)
    ensures UValue(bs + [b]) == UValue(bs) + b % 128 * Pow2(7 * |bs|)
  {
    if bs != [] {
      var rest, p := bs[1..], Pow2(7 * (|bs| - 1));
      UValueAppend(rest, b);
      Pow2Add(7, 7 * (|bs| - 1));
      assert Pow2(7) == 128;
      hide Pow2;
      assert (bs + [b])[1..] == rest + [b];
      MulAssoc(b % 128, 128, p);
      MulAssoc(128, b % 128, p);
    }
  }

  lemma {:induction false} UValueBound(bs: seq<Byte>)
    ensures UValue(bs) < Pow2(7 * |bs|)
  {
    if bs != [] {
      UValueBound(bs[1..]);
      Pow2Add(7, 7 * (|bs| - 1));
      assert Pow2(7) == 128;
    }
  }

  /** Or-ing `x` shifted left by `s` into a 64-bit value below `2^s` adds it,
      dropping what leaves the word. */
  lemma OrShifted(s: nat, x: nat, low: nat)
    requires s < 64 && low < Pow2(s)
    ensures BitOr(low, Shl64(x, s)) == Trunc64(low + x * Pow2(s))
  {
    hide Pow2, BitOr, Wrap;
    var p, m := Pow2(s), Pow2(64 - s);
    Pow2Add(64 - s, s);
    var k, y := DivMod(x, m);
    ShiftParts(x, k, m, y, p, low);
    OrCommutes(low, y * p);
    OrIsAdd(s, y, low);
    DivModUnique(x * p, m * p, k, y * p);
    DivModUnique(low + x * p, m * p, k, low + y * p);
    WrapIsMod(m * p, x * p);
  }

  lemma DivMod(x: nat, m: nat) returns (k: nat, y: nat)
    requires m > 0
    ensures x == k * m + y && y < m
  {
    k, y := x / m, x % m;
  }

  lemma WrapIsMod(w: nat, x: nat)
    requires w > 0
    ensures Wrap(w, x) == x % w
  {
  }

  lemma ShiftParts(x: nat, k: int, m: nat, y: nat, p: nat, low: nat)
    requires x == k * m + y && y < m && low < p
    ensures 0 <= y * p && 0 <= x * p && low + y * p < m * p
    ensures x * p == k * (m * p) + y * p
  {
    Distribute(k * m, y, p);
    MulAssoc(k, m, p);
    MulMono(0, y, p);
    MulMono(0, x, p);
    MulMono(y + 1, m, p);
    Distribute(y, 1, p);
  }

  lemma NothingRead(buf: seq<Byte>)
    ensures Trunc64(UValue(buf[..0])) == 0 && Unterminated(buf[..0])
  {
    SmallValue([]);
    assert buf[..0] == [];
  }

  /** One reading step: payload `x` of the next byte enters at bit `7 * |bs|`. */
  lemma ReadStep(bs: seq<Byte>, b: Byte, result: nat)
    requires |bs| <= 9 && result == Trunc64(UValue(bs))
    ensures result == UValue(bs)
    ensures BitOr(result, Shl64(Low7(b), 7 * |bs|)) == Trunc64(UValue(bs + [b]))
  {
    hide Pow2, UValue, BitOr, Low7, Wrap;
    UValueAppend(bs, b);
    UValueBound(bs);
    SmallValue(bs);
    OrShifted(7 * |bs|, Low7(b), result);
  }

  /** What the next byte of `buf` settles after `p` continuation bytes. */
  lemma Scanned(buf: seq<Byte>, p: nat)
    requires ShiftsDefined(buf) && p < |buf| && Unterminated(buf[..p])
    ensures p <= 9
    ensures buf[p] >= 128 ==> Unterminated(buf[..p + 1])
    ensures buf[p] < 128 ==> Terminated(buf, p + 1) && !Unterminated(buf)
  {
    assert forall k :: 0 <= k < p ==> buf[..p][k] == buf[k];
  }

  method ReadUleb128ToUint64(buf: seq<Byte>) returns (n: nat, r: Option<nat>)
    requires ShiftsDefined(buf)
    ensures n == 0 <==> Unterminated(buf)
    ensures n == 0 ==> r == None
    ensures n > 0 ==> Terminated(buf, n) && r == Some(Trunc64(UValue(buf[..n])))
  {
    var p: nat, shift: nat, result: nat := 0, 0, 0;
    hide *;
    NothingRead(buf);
    assert buf[..|buf|] == buf;
    while true
      invariant p <= |buf| && shift == 7 * p
      invariant Unterminated(buf[..p])
      invariant p <= 10 && result == Trunc64(UValue(buf[..p]))
      decreases |buf| - p
    {
      if p >= |buf| {
        return 0, None;
      }
      var byte := buf[p];
      Scanned(buf, p);
      ReadStep(buf[..p], byte, result);
      assert buf[..p] + [byte] == buf[..p + 1];
      p := p + 1;
      result := BitOr(result, Shl64(Low7(byte), shift));
      if byte < 128 {
        break;
      }
      shift := shift + 7;
    }
    return p, Some(result);
  }

  lemma SmallValue(bs: seq<Byte>)
    requires |bs| <= 9
    ensures Trunc64(UValue(bs)) == UValue(bs)
  {
    hide Pow2, UValue;
    UValueBound(bs);
    Pow2Mono(7 * |bs|, 64);
    DivModUnique(UValue(bs), Pow2(64), 0, UValue(bs));
  }

  lemma SignBits(s: nat, p: nat)
    requires s < 64 && p == Pow2(s)
    ensures Neg64(Shl64(1, s)) == Pow2(64) - p
  {
    hide Pow2, Wrap;
    Pow2Mono(s + 1, 64);
    Pow2Double(s);
    WrapFits(Pow2(64), 1 * p);
    WrapOnce(Pow2(64), -(p as int));
  }

  lemma Pow2Double(s: nat)
    ensures Pow2(s + 1) == 2 * Pow2(s)
  {
  }

  lemma WrapFits(w: nat, x: int)
    requires 0 <= x < w
    ensures Wrap(w, x) == x
  {
  }

  /** The sign bits `-(1 << shift)` or-ed in above a value of `n` payloads. */
  lemma SignExtend(bs: seq<Byte>, n: nat)
    requires |bs| == n && n <= 9
    ensures BitOr(UValue(bs), Neg64(Shl64(1, 7 * n))) == Trunc64(UValue(bs) - Pow2(7 * n))
  {
    hide Pow2, UValue, BitOr, Wrap, Shl64, Neg64;
    var p, m, u := Pow2(7 * n), Pow2(64 - 7 * n), UValue(bs);
    UValueBound(bs);
    Pow2Add(64 - 7 * n, 7 * n);
    Pow2Mono(7 * n, 64);
    SignBits(7 * n, p);
    Distribute(m, -1, p);
    OrIsAdd(7 * n, m - 1, u);
    OrCommutes(u, (m - 1) * p);
    DivModUnique(u - p, Pow2(64), -1, u - p + Pow2(64));
  }

  /** A tenth payload starts beyond bit 62, where sign bits no longer show. */
  lemma NoSignExtend(u: nat)
    ensures Trunc64(u) == Trunc64(u - Pow2(70))
  {
    var w := Pow2(64);
    assert Pow2(70) == 64 * w by { Pow2Add(6, 64); assert Pow2(6) == 64; }
    hide Pow2;
    var k, r := u / w, u % w;
    assert u == k * w + r;
    Distribute(k, -64, w);
    DivModUnique(u - 64 * w, w, k - 64, r);
  }

  /** How the assembled pattern `result` becomes the signed value's pattern. */
  lemma SignedResult(bs: seq<Byte>, result: nat)
    requires 0 < |bs| <= 10 && result == Trunc64(UValue(bs))
    ensures 7 * |bs| < 64 && Bit6(bs[|bs| - 1]) ==>
      BitOr(result, Neg64(Shl64(1, 7 * |bs|))) == Trunc64(SValue(bs))
    ensures !(7 * |bs| < 64 && Bit6(bs[|bs| - 1])) ==> result == Trunc64(SValue(bs))
  {
    hide Pow2, UValue, BitOr, Shl64, Neg64, Trunc64;
    if |bs| <= 9 {
      SmallValue(bs);
      SignExtend(bs, |bs|);
    } else {
      NoSignExtend(UValue(bs));
    }
  }

  /** The signed result is assembled as a 64-bit pattern and then reinterpreted. */
  method ReadSleb128ToInt64(buf: seq<Byte>) returns (n: nat, r: Option<int>)
    requires ShiftsDefined(buf)
    ensures n == 0 <==> Unterminated(buf)
    ensures n == 0 ==> r == None
    ensures n > 0 ==> Terminated(buf, n) && r == Some(ToSigned(Trunc64(SValue(buf[..n]))))
  {
    var p: nat, shift: nat, result: nat := 0, 0, 0;
    var byte: Byte;
    hide *;
    NothingRead(buf);
    assert buf[..|buf|] == buf;
    while true
      invariant p <= |buf| && shift == 7 * p
      invariant Unterminated(buf[..p])
      invariant p <= 10 && result == Trunc64(UValue(buf[..p]))
      decreases |buf| - p
    {
      if p >= |buf| {
        return 0, None;
      }
      byte := buf[p];
      Scanned(buf, p);
      ReadStep(buf[..p], byte, result);
      assert buf[..p] + [byte] == buf[..p + 1];
      p := p + 1;
      result := BitOr(result, Shl64(Low7(byte), shift));
      shift := shift + 7;
      if byte < 128 {
        break;
      }
    }
    SignedResult(buf[..p], result);
    if shift < 64 && Bit6(byte) {
      result := BitOr(result, Neg64(Shl64(1, shift)));
    }
    return p, Some(ToSigned(result));
  }

  method SkipLeb128(buf: seq<Byte>) returns (n: nat)
    ensures n == 0 <==> Unterminated(buf)
    ensures n > 0 ==> Terminated(buf, n)
  {
    var p := 0;
    while true
      invariant p <= |buf|
      invariant forall k :: 0 <= k < p ==> buf[k] >= 128
      decreases |buf| - p
    {
      if p == |buf| {
        return 0;
      }
      var byte := buf[p];
      p := p + 1;
      if byte < 128 {
        return p;
      }
    }
  }

  /** The encoder of an unsigned number that the DWARF standard describes. */
  function EncodeUnsigned(x: nat): (bs: seq<Byte>)
  {
    if x < 128 then [x] else [x % 128 + 128] + EncodeUnsigned(x / 128)
  }

  /** The encoder of a signed number; `/` rounds down, as an arithmetic shift. */
  function EncodeSigned(x: int): (bs: seq<Byte>)
    decreases if x < 0 then -x else x
  {
    if -64 <= x < 64 then [x % 128] else [x % 128 + 128] + EncodeSigned(x / 128)
  }

  lemma {:induction false} EncodedUnsigned(x: nat, k: nat)
    requires x < Pow2(7 * k) && k > 0
    ensures var bs := EncodeUnsigned(x);
            Terminated(bs, |bs|) && UValue(bs) == x && |bs| <= k
  {
    assert Pow2(7) == 128;
    if x >= 128 {
      var bs := EncodeUnsigned(x / 128);
      Pow2Add(7, 7 * (k - 1));
      EncodedUnsigned(x / 128, k - 1);
      assert ([x % 128 + 128] + bs)[1..] == bs;
    }
  }

  lemma {:induction false} EncodedSigned(x: int, k: nat)
    requires k > 0 && -(Pow2(7 * k - 1) as int) <= x < Pow2(7 * k - 1)
    ensures var bs := EncodeSigned(x);
            Terminated(bs, |bs|) && SValue(bs) == x && |bs| <= k
    decreases k
  {
    hide Pow2, UValue, SValue;
    if -64 <= x < 64 {
      SValueOne(x % 128);
    } else {
      var bs := EncodeSigned(x / 128);
      SignedBound(x, k);
      EncodedSigned(x / 128, k - 1);
      SValuePrepend(x % 128 + 128, bs);
    }
  }

  /** Dropping seven bits takes one from the number of payloads needed. */
  lemma SignedBound(x: int, k: nat)
    requires k > 0 && -(Pow2(7 * k - 1) as int) <= x < Pow2(7 * k - 1) && !(-64 <= x < 64)
    ensures k > 1 && -(Pow2(7 * (k - 1) - 1) as int) <= x / 128 < Pow2(7 * (k - 1) - 1)
  {
    assert Pow2(7) == 128 && Pow2(6) == 64;
    hide Pow2;
    Pow2Add(7, 7 * (k - 1) - 1);
  }

  lemma SValueOne(b: Byte)
    ensures SValue([b]) == if b % 128 >= 64 then b % 128 - 128 else b % 128
  {
    assert Pow2(7) == 128;
    assert UValue([b]) == b % 128;
  }

  lemma SValuePrepend(b: Byte, bs: seq<Byte>)
    requires bs != []
    ensures SValue([b] + bs) == b % 128 + 128 * SValue(bs)
  {
    assert ([b] + bs)[1..] == bs;
    assert Pow2(7) == 128;
    Pow2Add(7, 7 * |bs|);
  }

  lemma EncodedPrefix(bs: seq<Byte>, tail: seq<Byte>)
    requires Terminated(bs, |bs|) && |bs| <= 10
    ensures Terminated(bs + tail, |bs|) && !Unterminated(bs + tail) && ShiftsDefined(bs + tail)
    ensures (bs + tail)[..|bs|] == bs
    ensures forall n :: Terminated(bs + tail, n) ==> n == |bs|
  {
    assert (bs + tail)[..|bs|] == bs;
    assert Terminated(bs + tail, |bs|);
    assert (bs + tail)[|bs| - 1] < 128;
  }

  /** Reading back an encoded unsigned number, whatever follows it. */
  method UlebRoundTrip(x: nat, tail: seq<Byte>) returns (n: nat, r: Option<nat>, skipped: nat)
    requires x < Pow2(64)
    ensures n == |EncodeUnsigned(x)| == skipped && r == Some(x)
  {
    hide *;
    Pow2Mono(64, 70);
    EncodedUnsigned(x, 10);
    var bs := EncodeUnsigned(x);
    EncodedPrefix(bs, tail);
    n, r := ReadUleb128ToUint64(bs + tail);
    skipped := SkipLeb128(bs + tail);
    Trunc64Small(x);
  }

  /** Reading back an encoded signed number, whatever follows it. */
  method SlebRoundTrip(x: int, tail: seq<Byte>) returns (n: nat, r: Option<int>, skipped: nat)
    requires -(Pow2(63) as int) <= x < Pow2(63)
    ensures n == |EncodeSigned(x)| == skipped && r == Some(x)
  {
    hide *;
    Pow2Mono(63, 69);
    EncodedSigned(x, 10);
    var bs := EncodeSigned(x);
    EncodedPrefix(bs, tail);
    n, r := ReadSleb128ToInt64(bs + tail);
    skipped := SkipLeb128(bs + tail);
    SignedSmall(x);
  }

  lemma Trunc64Small(x: nat)
    requires x < Pow2(64)
    ensures Trunc64(x) == x
  {
    hide Pow2;
    DivModUnique(x, Pow2(64), 0, x);
  }

  /** Truncating to 64 bits and reading the sign back loses nothing in range. */
  lemma SignedSmall(x: int)
    requires -(Pow2(63) as int) <= x < Pow2(63)
    ensures ToSigned(Trunc64(x)) == x
  {
    Pow2Add(1, 63);
    assert Pow2(1) == 2;
    hide Pow2;
    if x < 0 {
      DivModUnique(x, Pow2(64), -1, x + Pow2(64));
    } else {
      DivModUnique(x, Pow2(64), 0, x);
    }
  }
}
