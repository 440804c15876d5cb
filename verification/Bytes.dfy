/** Octets, 32-bit words and the big-endian store/load helpers of misc.c. */
module Bytes {
  type byte = x: int | 0 <= x < 256
  type bytes = seq<byte>

  const TWO_32 := 0x1_0000_0000
  type u32 = x: int | 0 <= x < 0x1_0000_0000
  type i32 = x: int | -0x8000_0000 <= x < 0x8000_0000

  /** Octets whose length fits a length field. */
  type Text = b: bytes | |b| < TWO_32

  datatype Option<+T> = None | Some(value: T)

  /** Reduction into `[0, m)`, by steps of `m`. */
  function Wrap(x: int, m: nat): (r: nat)
    requires m > 0
    ensures r < m
    decreases if x < 0 then m - x else x
  {
    if x < 0 then Wrap(x + m, m) else if x < m then x else Wrap(x - m, m)
  }

  /** The conversion of any integer to `uint32_t`. */
  function Wrap32(x: int): u32 {
    Wrap(x, 0x1_0000_0000)
  }

  /** The conversion of any integer to a 64-bit `size_t`. */
  function Wrap64(x: int): nat {
    Wrap(x, 0x1_0000_0000_0000_0000)
  }

  lemma {:induction false} WrapIsMod(x: int, m: nat)
    requires m > 0
    ensures Wrap(x, m) == x % m
    decreases if x < 0 then m - x else x
  {
    if x < 0 {
      WrapIsMod(x + m, m);
      ModOfSum(x, m);
    } else if x >= m {
      WrapIsMod(x - m, m);
      ModOfSum(x - m, m);
    }
  }

  lemma ModOfSum(x: int, m: nat)
    requires m > 0
    ensures (x + m) % m == x % m
  {
    var q, r := x / m, x % m;
    assert x + m == (q + 1) * m + r;
    ModUnique(x + m, q + 1, r, m);
  }

  lemma ModUnique(x: int, q: int, r: int, m: nat)
    requires m > 0 && 0 <= r < m && x == q * m + r
    ensures x % m == r
  {
    var d := q - x / m;
    assert d * m == x % m - r;
    assert -1 < d < 1 by {
      if d >= 1 {
        MulGrows(d, m);
      } else if d <= -1 {
        MulGrows(0 - d, m);
      }
    }
  }

  lemma MulGrows(d: int, m: nat)
    requires d >= 1
    ensures d * m >= m
  {
  }

  lemma Wrap64OfWrap(a: int, d: int)
    ensures Wrap64(d + Wrap64(a)) == Wrap64(d + a)
  {
    var m := 0x1_0000_0000_0000_0000;
    WrapIsMod(a, m);
    WrapIsMod(d + Wrap64(a), m);
    WrapIsMod(d + a, m);
  }

  /** The cast of a `uint32_t` to `int`. */
  function AsInt32(x: u32): i32 {
    if x < 0x8000_0000 then x else x - 0x1_0000_0000
  }

  function Min(a: int, b: int): int {
    if a <= b then a else b
  }

  /** The last `n` digits of a number in base 256. */
  function Digits(v: nat, n: nat): (b: bytes)
    ensures |b| == n
    decreases n, v
  {
    if n == 0 then [] else Digits(v / 0x100, n - 1) + [v % 0x100]
  }

  /** `_libssh2_htonu32`: the most significant octet comes first. */
  function StoreU32(v: u32): (b: bytes)
    ensures |b| == 4
  {
    Digits(v, 4)
  }

  lemma DigitsOfU32(v: u32)
    ensures StoreU32(v) == [v / 0x100_0000, v / 0x1_0000 % 0x100, v / 0x100 % 0x100, v % 0x100]
  {
    var a, b, c := v / 0x100, v / 0x100 / 0x100, v / 0x100 / 0x100 / 0x100;
    assert Digits(c, 1) == Digits(c / 0x100, 0) + [c % 0x100] == [c % 0x100];
    assert Digits(b, 2) == Digits(c, 1) + [b % 0x100];
    assert Digits(a, 3) == Digits(b, 2) + [a % 0x100];
    assert Digits(v, 4) == Digits(a, 3) + [v % 0x100];
    assert b == v / 0x1_0000 && c == v / 0x100_0000;
  }

  /** `_libssh2_ntohu32`. */
  function NtohU32(b: bytes): u32
    requires |b| >= 4
  {
    var b0: int, b1: int, b2: int := b[0], b[1], b[2];
    b0 * 0x100_0000 + b1 * 0x1_0000 + b2 * 0x100 + b[3]
  }

  lemma LoadOfStore(v: u32)
    ensures NtohU32(StoreU32(v)) == v
  {
    DigitsOfU32(v);
    assert v / 0x1_0000 == v / 0x100_0000 * 0x100 + v / 0x1_0000 % 0x100;
    assert v / 0x100 == v / 0x1_0000 * 0x100 + v / 0x100 % 0x100;
  }

  lemma LastDigit(q: nat, r: byte)
    ensures (q * 0x100 + r) / 0x100 == q && (q * 0x100 + r) % 0x100 == r
  {
  }

  lemma StoreOfLoad(b: bytes)
    requires |b| == 4
    ensures StoreU32(NtohU32(b)) == b
  {
    var b0: int, b1: int, b2: int := b[0], b[1], b[2];
    var w0, w1, w2 := b0, b0 * 0x100 + b1, (b0 * 0x100 + b1) * 0x100 + b2;
    LastDigit(0, b[0]);
    LastDigit(w0, b[1]);
    LastDigit(w1, b[2]);
    LastDigit(w2, b[3]);
    assert Digits(w0, 1) == Digits(0, 0) + [b[0]] == [b[0]];
    assert Digits(w1, 2) == [b[0]] + [b[1]];
    assert Digits(w2, 3) == [b[0], b[1]] + [b[2]];
  }

  /** A string as section 5 of RFC 4251 lays it out: its length, then its octets. */
  function StringBytes(t: Text): bytes {
    StoreU32(|t|) + t
  }

  /** Reads a string off the front of a message: its octets, and what follows it. */
  function TakeString(m: bytes): (r: Option<(Text, bytes)>)
    ensures r.Some? ==> |r.value.1| < |m|
  {
    if |m| < 4 || |m| - 4 < NtohU32(m) then None
    else Some((m[4..4 + NtohU32(m)], m[4 + NtohU32(m)..]))
  }

  lemma TakeStringOfStored(t: Text, rest: bytes)
    ensures TakeString(StringBytes(t) + rest) == Some((t, rest))
  {
    var m := StringBytes(t) + rest;
    LoadOfStore(|t|);
    assert forall i :: 0 <= i < 4 ==> m[i] == StoreU32(|t|)[i];
    assert m[4..4 + |t|] == t && m[4 + |t|..] == rest;
  }

  lemma StoredOfTakeString(m: bytes)
    requires TakeString(m).Some?
    ensures var (t, rest) := TakeString(m).value; StringBytes(t) + rest == m
  {
    StoreOfLoad(m[..4]);
    assert NtohU32(m[..4]) == NtohU32(m);
    assert m == m[..4] + m[4..4 + NtohU32(m)] + m[4 + NtohU32(m)..];
  }

  /** The first octets of `b` are those of `a`. */
  predicate Begins(b: bytes, a: bytes) {
    |a| <= |b| && b[..|a|] == a
  }

  /** `b` is the text `s` in ASCII. */
  predicate Spells(b: bytes, s: string) {
    |b| == |s| && forall i :: 0 <= i < |b| ==> b[i] == s[i] as int
  }

  lemma Regroup<T>(a: seq<T>, b: seq<T>, c: seq<T>)
    ensures (a + b) + c == a + (b + c)
  {
  }
}
