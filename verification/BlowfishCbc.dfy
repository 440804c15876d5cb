/** Blowfish in cipher block chaining, in place: encryption runs forwards, decryption backwards. */
module BlowfishCbc {
  import opened Bytes
  import opened Bits
  import opened Blowfish

  /** Block `k` of a buffer. */
  function Block(d: bytes, k: nat): (b: bytes)
    requires 8 * k + 8 <= |d|
    ensures |b| == 8
  {
    d[8 * k..8 * k + 8]
  }

  /** The block before block `k`, or the initial vector. */
  function Previous(iv: bytes, d: bytes, k: nat): (b: bytes)
    requires |iv| == 8 && 8 * k <= |d|
    ensures |b| == 8
  {
    if k == 0 then iv else Block(d, k - 1)
  }

  lemma BlockAfter(a: bytes, d: bytes, k: nat)
    requires |a| == 8 && 8 * k <= |d|
    ensures Block(a + d, k) == if k == 0 then a else Block(d, k - 1)
  {
  }

  /** Chained decryption can be read off block by block, in any order. */
  lemma {:induction false} CbcDecAt(g: Cipher, iv: bytes, d: bytes, n: nat, k: nat)
    requires |iv| == 8 && |d| == 8 * n && k < n
    ensures Block(CbcDec(g, iv, d, n), k) == XorBytes(CipherBlock(g, Block(d, k)), Previous(iv, d, k))
    decreases n
  {
    hide CipherBlock, XorBytes;
    var a, rest := d[..8], d[8..];
    var first, more := XorBytes(CipherBlock(g, a), iv), CbcDec(g, a, rest, n - 1);
    assert CbcDec(g, iv, d, n) == first + more && d == a + rest;
    BlockAfter(first, more, k);
    BlockAfter(a, rest, k);
    if k > 0 {
      CbcDecAt(g, a, rest, n - 1, k - 1);
      BlockAfter(a, rest, k - 1);
    }
  }

  /** Adds eight octets to a block. */
  method XorInto(data: array<byte>, at: nat, v: bytes)
    requires |v| == 8 && at + 8 <= data.Length
    modifies data
    ensures data[..] == Overwritten(old(data[..]), at, XorBytes(old(data[..])[at..at + 8], v))
  {
    for j := 0 to 8
      invariant forall i :: 0 <= i < data.Length ==>
                  data[i] == if at <= i < at + j then XorByte(old(data[i]), v[i - at]) else old(data[i])
    {
      data[at + j] := XorByte(data[at + j], v[j]);
    }
  }

  method StorePair(data: array<byte>, at: nat, x: Pair)
    requires at + 8 <= data.Length
    modifies data
    ensures data[..] == Overwritten(old(data[..]), at, StoreU32(x.l) + StoreU32(x.r))
  {
    var b := StoreU32(x.l) + StoreU32(x.r);
    for j := 0 to 8
      invariant data[..] == Overwritten(old(data[..]), at, b[..j])
    {
      data[at + j] := b[j];
    }
    assert b[..8] == b;
  }

  method EncipherAt(c: Context, ghost f: Cipher, data: array<byte>, at: nat)
    requires c.Valid() && RunsUnder(f, c.Now()) && at + 8 <= data.Length
    modifies data
    ensures data[..] == Overwritten(old(data[..]), at, CipherBlock(f, old(data[..])[at..at + 8]))
  {
    var b := data[at..at + 8];
    assert b == data[..][at..at + 8];
    var x := c.Encipher(Pair(NtohU32(b[..4]), NtohU32(b[4..])));
    StorePair(data, at, x);
  }

  method DecipherAt(c: Context, ghost g: Cipher, data: array<byte>, at: nat)
    requires c.Valid() && RunsBackUnder(g, c.Now()) && at + 8 <= data.Length
    modifies data
    ensures data[..] == Overwritten(old(data[..]), at, CipherBlock(g, old(data[..])[at..at + 8]))
  {
    var b := data[at..at + 8];
    assert b == data[..][at..at + 8];
    var x := c.Decipher(Pair(NtohU32(b[..4]), NtohU32(b[4..])));
    StorePair(data, at, x);
  }

  /** `d` is `d0` with its first `k` of `n` blocks encrypted. */
  ghost predicate Chaining(f: Cipher, iv: bytes, d0: bytes, n: nat, d: bytes, k: nat) {
    && |iv| == 8 && k <= n && 8 * n <= |d0| == |d|
    && d[8 * k..] == d0[8 * k..]
    && d[..8 * k] + CbcEnc(f, Previous(iv, d, k), d[8 * k..8 * n], n - k) == CbcEnc(f, iv, d0[..8 * n], n)
  }

  lemma ChainingFits(f: Cipher, iv: bytes, d0: bytes, n: nat, d: bytes, k: nat)
    requires Chaining(f, iv, d0, n, d, k)
    ensures |iv| == 8 && k <= n && 8 * n <= |d0| == |d|
  {
  }

  lemma ChainingStep(f: Cipher, iv: bytes, d0: bytes, n: nat, d: bytes, k: nat, x: bytes, e: bytes)
    requires Chaining(f, iv, d0, n, d, k) && k < n
    requires x == CipherBlock(f, XorBytes(Block(d, k), Previous(iv, d, k))) && e == Overwritten(d, 8 * k, x)
    ensures Chaining(f, iv, d0, n, e, k + 1)
  {
    var end := 8 * k + 8;
    var done, rest, later := d[..8 * k], d[8 * k..8 * n], d[end..8 * n];
    assert rest == Block(d, k) + later;
    CbcEncStep(f, Previous(iv, d, k), Block(d, k), later, n - k);
    OverwrittenParts(d, 8 * k, x, 8 * n);
    assert e[..end] == done + x && e[end..8 * n] == later && Previous(iv, e, k + 1) == x;
    assert d[8 * k..][8..] == d[end..] && d0[8 * k..][8..] == d0[end..];
    Regroup(done, x, CbcEnc(f, x, later, n - k - 1));
  }

  lemma CbcEncStep(f: Cipher, iv: bytes, first: bytes, rest: bytes, n: nat)
    requires |iv| == 8 && |first| == 8 && n > 0 && |rest| == 8 * (n - 1)
    ensures var x := CipherBlock(f, XorBytes(first, iv)); CbcEnc(f, iv, first + rest, n) == x + CbcEnc(f, x, rest, n - 1)
  {
  }

  lemma OverwrittenParts(d: bytes, at: nat, x: bytes, to: nat)
    requires at + |x| <= to <= |d|
    ensures var e, end := Overwritten(d, at, x), at + |x|;
            e[..end] == d[..at] + x && e[at..end] == x && e[end..to] == d[end..to] && e[end..] == d[end..]
  {
  }

  /** `blf_cbc_encrypt` of `n` blocks. */
  method CbcEncrypt(c: Context, ghost f: Cipher, iv: bytes, data: array<byte>, n: nat)
    requires c.Valid() && RunsUnder(f, c.Now()) && |iv| == 8 && 8 * n <= data.Length
    modifies data
    ensures data[..] == Overwritten(old(data[..]), 0, CbcEnc(f, iv, old(data[..])[..8 * n], n))
  {
    ghost var d0 := data[..];
    ChainingStarts(f, iv, d0, n);
    for k := 0 to n
      invariant c.Now() == old(c.Now())
      invariant Chaining(f, iv, d0, n, data[..], k)
    {
      EncBlock(c, f, iv, d0, n, data, k);
    }
    ChainingEnds(f, iv, d0, n, data[..]);
  }

  lemma ChainingStarts(f: Cipher, iv: bytes, d0: bytes, n: nat)
    requires |iv| == 8 && 8 * n <= |d0|
    ensures Chaining(f, iv, d0, n, d0, 0)
  {
    hide CbcEnc;
    assert d0[0..8 * n] == d0[..8 * n] && d0[..0] == [];
  }

  lemma ChainingEnds(f: Cipher, iv: bytes, d0: bytes, n: nat, d: bytes)
    requires Chaining(f, iv, d0, n, d, n)
    ensures d == Overwritten(d0, 0, CbcEnc(f, iv, d0[..8 * n], n))
  {
    hide CipherBlock;
    assert d[8 * n..8 * n] == [] && d[..8 * n] + [] == d[..8 * n];
    assert d == d[..8 * n] + d[8 * n..];
  }

  method EncBlock(c: Context, ghost f: Cipher, iv: bytes, ghost d0: bytes, ghost n: nat, data: array<byte>, k: nat)
    requires c.Valid() && RunsUnder(f, c.Now()) && k < n && Chaining(f, iv, d0, n, data[..], k)
    modifies data
    ensures Chaining(f, iv, d0, n, data[..], k + 1)
  {
    hide Chaining, CipherBlock, XorBytes, Overwritten;
    ghost var d := data[..];
    ChainingFits(f, iv, d0, n, d, k);
    var at := 8 * k;
    var previous := if k == 0 then iv else data[at - 8..at];
    assert previous == Previous(iv, d, k);
    ghost var y := XorBytes(Block(d, k), previous);
    XorInto(data, at, previous);
    Twice(d, at, y, CipherBlock(f, y));
    EncipherAt(c, f, data, at);
    ChainingStep(f, iv, d0, n, d, k, CipherBlock(f, y), data[..]);
  }

  /** Writing the same place twice is writing it once. */
  lemma Twice(d: bytes, at: nat, x: bytes, y: bytes)
    requires |x| == |y| && at + |x| <= |d|
    ensures Overwritten(Overwritten(d, at, x), at, y) == Overwritten(d, at, y)
    ensures Overwritten(d, at, x)[at..at + |x|] == x
  {
  }

  /** `d` is `d0` with all but the first `k` of its `n` blocks decrypted. */
  ghost predicate Unchaining(g: Cipher, iv: bytes, d0: bytes, n: nat, d: bytes, k: nat) {
    && |iv| == 8 && k <= n && 8 * n <= |d0| == |d|
    && d == d0[..8 * k] + CbcDec(g, iv, d0[..8 * n], n)[8 * k..] + d0[8 * n..]
  }

  lemma UnchainingStep(g: Cipher, iv: bytes, d0: bytes, n: nat, d: bytes, k: nat, e: bytes)
    requires 0 < k && Unchaining(g, iv, d0, n, d, k)
    requires e == Overwritten(d, 8 * (k - 1), XorBytes(CipherBlock(g, Block(d, k - 1)), Previous(iv, d, k - 1)))
    ensures Unchaining(g, iv, d0, n, e, k - 1)
  {
    hide CbcDec, CipherBlock, XorBytes, Overwritten;
    var b := d0[..8 * n];
    var full := CbcDec(g, iv, b, n);
    CbcDecAt(g, iv, b, n, k - 1);
    SameBlocks(d, b, k);
    var x := Block(full, k - 1);
    assert Block(d, k - 1) == Block(b, k - 1) && Previous(iv, d, k - 1) == Previous(iv, b, k - 1);
    assert full[8 * (k - 1)..] == x + full[8 * k..];
    Prepend(d0[..8 * k], x, full[8 * k..], d0[8 * n..], 8 * (k - 1), d);
    assert d0[..8 * k][..8 * (k - 1)] == d0[..8 * (k - 1)];
  }

  lemma Prepend(a: bytes, x: bytes, b: bytes, c: bytes, at: nat, d: bytes)
    requires |a| == at + |x| && d == a + b + c
    ensures Overwritten(d, at, x) == a[..at] + (x + b) + c
  {
  }

  lemma SameBlocks(d: bytes, b: bytes, k: nat)
    requires 8 * k <= |d| && 8 * k <= |b| && d[..8 * k] == b[..8 * k]
    ensures forall i :: 0 <= i < k ==> Block(d, i) == Block(b, i)
  {
    forall i | 0 <= i < k
      ensures Block(d, i) == Block(b, i)
    {
      assert Block(d, i) == d[..8 * k][8 * i..8 * i + 8] && Block(b, i) == b[..8 * k][8 * i..8 * i + 8];
    }
  }

  /** `blf_cbc_decrypt` of `n` blocks, the last one first; `n` must not be 0. */
  method CbcDecrypt(c: Context, ghost g: Cipher, iva: bytes, data: array<byte>, n: nat)
    requires c.Valid() && RunsBackUnder(g, c.Now()) && |iva| == 8 && 0 < n && 8 * n <= data.Length
    modifies data
    ensures data[..] == Overwritten(old(data[..]), 0, CbcDec(g, iva, old(data[..])[..8 * n], n))
  {
    var k := n;
    assert data[..] == data[..8 * n] + data[8 * n..];
    while k > 1
      invariant 1 <= k <= n && c.Now() == old(c.Now())
      invariant Unchaining(g, iva, old(data[..]), n, data[..], k)
    {
      DecBlock(c, g, iva, old(data[..]), n, data, k);
      k := k - 1;
    }
    DecBlock(c, g, iva, old(data[..]), n, data, k);
  }

  method DecBlock(c: Context, ghost g: Cipher, iva: bytes, ghost d0: bytes, ghost n: nat, data: array<byte>, k: nat)
    requires c.Valid() && RunsBackUnder(g, c.Now()) && 0 < k && Unchaining(g, iva, d0, n, data[..], k)
    modifies data
    ensures Unchaining(g, iva, d0, n, data[..], k - 1)
  {
    ghost var d := data[..];
    var at := 8 * (k - 1);
    var previous := if k == 1 then iva else data[at - 8..at];
    assert previous == Previous(iva, d, k - 1);
    DecipherAt(c, g, data, at);
    ghost var x := CipherBlock(g, Block(d, k - 1));
    Twice(d, at, x, XorBytes(x, previous));
    XorInto(data, at, previous);
    UnchainingStep(g, iva, d0, n, d, k, data[..]);
  }

  /** Overwriting the front of a buffer and then putting back what was there. */
  lemma FrontRestored(d: bytes, front: bytes, x: bytes)
    requires |x| == |front| <= |d| && front == d[..|front|]
    ensures Overwritten(d, 0, x)[..|front|] == x && Overwritten(Overwritten(d, 0, x), 0, front) == d
  {
  }

  lemma BackWhereItWas(f: Cipher, g: Cipher, iv: bytes, d: bytes, n: nat)
    requires |iv| == 8 && 8 * n <= |d| && Undoes(g, f)
    ensures var e := Overwritten(d, 0, CbcEnc(f, iv, d[..8 * n], n));
            Overwritten(e, 0, CbcDec(g, iv, e[..8 * n], n)) == d
  {
    var front := d[..8 * n];
    var x := CbcEnc(f, iv, front, n);
    CbcUndone(g, f, iv, front, n);
    FrontRestored(d, front, x);
  }

  /** Encrypts a buffer in place and decrypts it again. */
  method ThereAndBack(c: Context, ghost f: Cipher, ghost g: Cipher, iv: bytes, data: array<byte>, n: nat)
    requires c.Valid() && RunsUnder(f, c.Now()) && RunsBackUnder(g, c.Now()) && Undoes(g, f)
    requires |iv| == 8 && 0 < n && 8 * n <= data.Length
    modifies data
    ensures data[..] == old(data[..])
  {
    CbcEncrypt(c, f, iv, data, n);
    CbcDecrypt(c, g, iv, data, n);
    BackWhereItWas(f, g, iv, old(data[..]), n);
  }

  /** Decrypting in place what was encrypted in place restores the buffer, whatever the tables hold. */
  method CbcRoundTrip(c: Context, iv: bytes, data: array<byte>, n: nat)
    requires c.Valid() && |iv| == 8 && 0 < n && 8 * n <= data.Length
    modifies data
    ensures data[..] == old(data[..])
  {
    ghost var b := c.Now();
    CiphersUndo(b);
    ThereAndBack(c, Encipherer(b), Decipherer(b), iv, data, n);
  }
}
