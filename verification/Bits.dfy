/** Exclusive or, rotation and wrapping addition on numbers, and words stored least octet first. */
module Bits {
  import opened Bytes

  type word = u32

  function Pow2(n: nat): nat {
    if n == 0 then 1 else 2 * Pow2(n - 1)
  }

  /** Exclusive or, bit by bit. */
  function Xor(a: nat, b: nat): nat
    decreases a + b
  {
    if a == 0 && b == 0 then 0 else 2 * Xor(a / 2, b / 2) + if a % 2 == b % 2 then 0 else 1
  }

  lemma {:induction false} XorBelow(a: nat, b: nat, n: nat)
    requires a < Pow2(n) && b < Pow2(n)
    ensures Xor(a, b) < Pow2(n)
    decreases n
  {
    if n > 0 {
      XorBelow(a / 2, b / 2, n - 1);
    }
  }

  /** Adding the same number twice changes nothing. */
  lemma {:induction false} XorCancels(a: nat, b: nat)
    ensures Xor(Xor(a, b), b) == a
    decreases a + b
  {
    if a != 0 || b != 0 {
      XorCancels(a / 2, b / 2);
      var x := Xor(a, b);
      assert x / 2 == Xor(a / 2, b / 2) && x % 2 == if a % 2 == b % 2 then 0 else 1;
      assert Xor(x, b) == 2 * Xor(x / 2, b / 2) + if x % 2 == b % 2 then 0 else 1;
    }
  }

  lemma {:induction false} XorCommutes(a: nat, b: nat)
    ensures Xor(a, b) == Xor(b, a)
    decreases a + b
  {
    if a != 0 || b != 0 {
      XorCommutes(a / 2, b / 2);
    }
  }

  lemma {:induction false} XorRegroups(a: nat, b: nat, c: nat)
    ensures Xor(Xor(a, b), c) == Xor(a, Xor(b, c))
    decreases a + b + c
  {
    if a != 0 || b != 0 || c != 0 {
      XorRegroups(a / 2, b / 2, c / 2);
      XorHalves(a, b);
      XorHalves(b, c);
      XorHalves(Xor(a, b), c);
      XorHalves(a, Xor(b, c));
    }
  }

  lemma XorHalves(a: nat, b: nat)
    ensures Xor(a, b) / 2 == Xor(a / 2, b / 2) && Xor(a, b) % 2 == if a % 2 == b % 2 then 0 else 1
  {
  }

  lemma {:induction false} XorZero(a: nat)
    ensures Xor(0, a) == a == Xor(a, 0)
  {
    if a != 0 {
      XorZero(a / 2);
    }
  }

  function Shift(x: nat, n: nat): nat {
    if n == 0 then x else 2 * Shift(x, n - 1)
  }

  /** Digits in base 2^n are added independently. */
  lemma {:induction false} XorOfDigits(n: nat, q: nat, r: nat, p: nat, s: nat)
    requires r < Pow2(n) && s < Pow2(n)
    ensures Xor(Shift(q, n) + r, Shift(p, n) + s) == Shift(Xor(q, p), n) + Xor(r, s)
    decreases n
  {
    if n > 0 {
      XorOfDigits(n - 1, q, r / 2, p, s / 2);
      XorOfHalves(Shift(q, n - 1), r, Shift(p, n - 1), s, Shift(Xor(q, p), n - 1));
    }
  }

  lemma XorOfHalves(x: nat, r: nat, y: nat, s: nat, top: int)
    requires Xor(x + r / 2, y + s / 2) == top + Xor(r / 2, s / 2)
    ensures Xor(2 * x + r, 2 * y + s) == 2 * top + Xor(r, s)
  {
  }

  lemma PowersOfTwo()
    ensures Pow2(8) == 0x100 && Pow2(32) == 0x1_0000_0000
  {
    assert Pow2(4) == 16 && Pow2(8) == 256 && Pow2(12) == 0x1000 && Pow2(16) == 0x1_0000;
    assert Pow2(20) == 0x10_0000 && Pow2(24) == 0x100_0000 && Pow2(28) == 0x1000_0000;
  }

  function XorByte(a: byte, b: byte): byte {
    PowersOfTwo();
    XorBelow(a, b, 8);
    Xor(a, b)
  }

  function XorWord(a: word, b: word): word {
    PowersOfTwo();
    XorBelow(a, b, 32);
    Xor(a, b)
  }

  function Plus(a: word, b: word): word {
    Wrap32(a + b)
  }

  /** Rotation to the left, one bit at a time. */
  function Rotate(v: word, n: nat): word
    decreases n, v
  {
    if n == 0 then v else Rotate(if v < 0x8000_0000 then 2 * v else 2 * v - 0xFFFF_FFFF, n - 1)
  }

  lemma {:induction false} ShiftAdds(a: nat, b: nat, n: nat)
    ensures Shift(a + b, n) == Shift(a, n) + Shift(b, n)
  {
    if n > 0 {
      ShiftAdds(a, b, n - 1);
    }
  }

  lemma {:induction false} ShiftFurther(a: nat, n: nat)
    ensures Shift(2 * a, n) == 2 * Shift(a, n) == Shift(a, n + 1)
  {
    if n > 0 {
      ShiftFurther(a, n - 1);
    }
  }

  lemma {:induction false} ShiftOfOne(n: nat)
    ensures Shift(1, n) == Pow2(n)
    ensures Shift(0, n) == 0
  {
    if n > 0 {
      ShiftOfOne(n - 1);
    }
  }

  /** A rotation by `n` exchanges the upper `n` bits of a word and the lower `32 - n`. */
  lemma {:induction false} RotateExchanges(high: nat, low: nat, n: nat)
    requires n <= 32 && high < Pow2(n) && low < Pow2(32 - n)
    ensures Shift(high, 32 - n) + low < 0x1_0000_0000
    ensures Rotate(Shift(high, 32 - n) + low, n) == Shift(low, n) + high
    decreases n
  {
    hide Shift, Rotate;
    if n == 0 {
      RotateNothing(high, low);
    } else {
      var top := if high < Pow2(n - 1) then 0 else 1;
      var rest := if top == 0 then high else high - Pow2(n - 1);
      var v, w := Shift(high, 32 - n) + low, Shift(rest, 33 - n) + (2 * low + top);
      TopBit(high, top, rest, low, n);
      RotateExchanges(rest, 2 * low + top, n - 1);
      assert w == if v < 0x8000_0000 then 2 * v else 2 * v - 0xFFFF_FFFF;
      RotateOnce(v, w, n);
      LowMoves(high, top, rest, low, n);
    }
  }

  lemma RotateNothing(high: nat, low: nat)
    requires high < Pow2(0) && low < Pow2(32)
    ensures Shift(high, 32) + low < 0x1_0000_0000
    ensures Rotate(Shift(high, 32) + low, 0) == Shift(low, 0) + high
  {
    PowersOfTwo();
    ShiftOfOne(32);
  }

  lemma RotateOnce(v: word, w: word, n: nat)
    requires n > 0 && w == if v < 0x8000_0000 then 2 * v else 2 * v - 0xFFFF_FFFF
    ensures Rotate(v, n) == Rotate(w, n - 1)
  {
  }

  lemma LowMoves(high: nat, top: nat, rest: nat, low: nat, n: nat)
    requires n > 0 && ((top == 0 && high == rest) || (top == 1 && high == Pow2(n - 1) + rest))
    ensures Shift(2 * low + top, n - 1) + rest == Shift(low, n) + high
  {
    ShiftAdds(2 * low, top, n - 1);
    ShiftFurther(low, n - 1);
    ShiftOfOne(n - 1);
  }

  /** The bit that leaves a word at the top, and the word that is left. */
  lemma TopBit(high: nat, top: nat, rest: nat, low: nat, n: nat)
    requires 0 < n <= 32 && rest < Pow2(n - 1) && low < Pow2(32 - n)
    requires (top == 0 && high == rest) || (top == 1 && high == Pow2(n - 1) + rest)
    ensures var v := Shift(high, 32 - n) + low;
            && v < 0x1_0000_0000 && (v < 0x8000_0000 <==> top == 0)
            && 2 * v - top * 0x1_0000_0000 == Shift(rest, 33 - n) + 2 * low
    ensures 2 * low + top < Pow2(33 - n)
  {
    ShiftAdds(Pow2(n - 1), rest, 32 - n);
    ShiftFurther(rest, 32 - n);
    ShiftBelow(rest, n - 1, 32 - n);
    ShiftOfPower(n - 1, 32 - n);
    PowersAdd(n - 1, 32 - n);
  }

  lemma {:induction false} ShiftBelow(a: nat, m: nat, n: nat)
    requires a < Pow2(m)
    ensures Shift(a, n) + Pow2(n) <= Pow2(m + n)
  {
    if n > 0 {
      ShiftBelow(a, m, n - 1);
    }
  }

  lemma {:induction false} ShiftOfPower(m: nat, n: nat)
    ensures Shift(Pow2(m), n) == Pow2(m + n)
  {
    if n > 0 {
      ShiftOfPower(m, n - 1);
    }
  }

  lemma PowersAdd(m: nat, n: nat)
    requires m + n == 31
    ensures Pow2(m + n) == 0x8000_0000
  {
    PowersOfTwo();
    assert Pow2(32) == 2 * Pow2(31);
  }

  // ---- Octets added pairwise ----

  function XorBytes(a: bytes, b: bytes): (c: bytes)
    requires |a| <= |b|
    ensures |c| == |a|
  {
    seq(|a|, i requires 0 <= i < |a| => XorByte(a[i], b[i]))
  }

  lemma XorBytesCancel(a: bytes, b: bytes)
    requires |a| <= |b|
    ensures XorBytes(XorBytes(a, b), b) == a
  {
    forall i | 0 <= i < |a|
      ensures XorBytes(XorBytes(a, b), b)[i] == a[i]
    {
      XorCancels(a[i], b[i]);
    }
  }

  // ---- Buffers ----

  /** A buffer with `x` written at `at`. */
  function Overwritten(b: bytes, at: nat, x: bytes): (r: bytes)
    requires at + |x| <= |b|
    ensures |r| == |b|
  {
    b[..at] + x + b[at + |x|..]
  }

  lemma OverwriteMore(b: bytes, at: nat, x: bytes, y: bytes)
    requires at + |x| + |y| <= |b|
    ensures Overwritten(Overwritten(b, at, x), at + |x|, y) == Overwritten(b, at, x + y)
  {
  }

  // ---- Words stored least octet first ----

  function LoadLittle(b: bytes): word
    requires |b| >= 4
  {
    var b0: int, b1: int, b2: int, b3: int := b[0], b[1], b[2], b[3];
    b0 + 0x100 * (b1 + 0x100 * (b2 + 0x100 * b3))
  }

  function StoreLittle(w: word): (b: bytes)
    ensures |b| == 4
  {
    [w % 0x100, w / 0x100 % 0x100, w / 0x1_0000 % 0x100, w / 0x100_0000]
  }

  lemma LoadOfStoreLittle(w: word)
    ensures LoadLittle(StoreLittle(w)) == w
  {
  }

  /** The order of the octets is the reverse of that of `StoreU32`. */
  lemma LittleIsReversed(w: word)
    ensures var b := StoreU32(w); StoreLittle(w) == [b[3], b[2], b[1], b[0]]
  {
    DigitsOfU32(w);
  }

  /** A word in terms of its octets determines them. */
  lemma StoreLittleOf(w: word, b0: byte, b1: byte, b2: byte, b3: byte)
    requires w == b0 + 0x100 * (b1 + 0x100 * (b2 + 0x100 * b3))
    ensures StoreLittle(w) == [b0, b1, b2, b3]
  {
    assert w / 0x100 == b1 + 0x100 * (b2 + 0x100 * b3);
    assert w / 0x1_0000 == b2 + 0x100 * b3;
    assert w / 0x100_0000 == b3;
  }

  /** Adding words before they are stored is adding the octets they are stored as. */
  lemma XorOfWords(w: word, m: bytes)
    requires |m| == 4
    ensures StoreLittle(XorWord(w, LoadLittle(m))) == XorBytes(m, StoreLittle(w))
  {
    var t := StoreLittle(w);
    LoadOfStoreLittle(w);
    XorOfOctets(t[0], t[1], t[2], t[3], m[0], m[1], m[2], m[3]);
    StoreLittleOf(XorWord(w, LoadLittle(m)), XorByte(t[0], m[0]), XorByte(t[1], m[1]), XorByte(t[2], m[2]), XorByte(t[3], m[3]));
    XorCommutes(t[0], m[0]);
    XorCommutes(t[1], m[1]);
    XorCommutes(t[2], m[2]);
    XorCommutes(t[3], m[3]);
  }

  lemma XorOfOctets(a0: nat, a1: nat, a2: nat, a3: nat, b0: nat, b1: nat, b2: nat, b3: nat)
    requires a0 < 0x100 && a1 < 0x100 && a2 < 0x100 && b0 < 0x100 && b1 < 0x100 && b2 < 0x100
    ensures Xor(a0 + 0x100 * (a1 + 0x100 * (a2 + 0x100 * a3)), b0 + 0x100 * (b1 + 0x100 * (b2 + 0x100 * b3))) ==
            Xor(a0, b0) + 0x100 * (Xor(a1, b1) + 0x100 * (Xor(a2, b2) + 0x100 * Xor(a3, b3)))
  {
    hide Xor;
    XorBase256(a3, a2, b3, b2);
    XorBase256(a2 + 0x100 * a3, a1, b2 + 0x100 * b3, b1);
    XorBase256(a1 + 0x100 * (a2 + 0x100 * a3), a0, b1 + 0x100 * (b2 + 0x100 * b3), b0);
  }

  lemma XorBase256(q: nat, r: nat, p: nat, s: nat)
    requires r < 0x100 && s < 0x100
    ensures Xor(r + 0x100 * q, s + 0x100 * p) == Xor(r, s) + 0x100 * Xor(q, p)
  {
    PowersOfTwo();
    XorOfDigits(8, q, r, p, s);
    ShiftByEight(q);
    ShiftByEight(p);
    ShiftByEight(Xor(q, p));
  }

  lemma ShiftByEight(x: nat)
    ensures Shift(x, 8) == 0x100 * x
  {
    assert Shift(x, 1) == 2 * Shift(x, 0);
    assert Shift(x, 2) == 2 * Shift(x, 1);
    assert Shift(x, 3) == 2 * Shift(x, 2);
    assert Shift(x, 4) == 2 * Shift(x, 3);
    assert Shift(x, 5) == 2 * Shift(x, 4);
    assert Shift(x, 6) == 2 * Shift(x, 5);
    assert Shift(x, 7) == 2 * Shift(x, 6);
  }

  /** Words stored one after the other. */
  function Serial(ws: seq<word>): (b: bytes)
    ensures |b| == 4 * |ws|
  {
    if ws == [] then [] else StoreLittle(ws[0]) + Serial(ws[1..])
  }

  lemma {:induction false} SerialAppend(ws: seq<word>, w: word)
    ensures Serial(ws + [w]) == Serial(ws) + StoreLittle(w)
  {
    if ws != [] {
      SerialAppend(ws[1..], w);
      assert (ws + [w])[1..] == ws[1..] + [w];
    }
  }
}
