/**
 The ChaCha20 stream cipher: counter mode over the block function, and the code that adds the
 keystream to a buffer block by block, in place or not.
 The laws of the stream hold for any block function; the code is proved for the one it computes.
 */
module ChaCha {
  import opened Bytes
  import opened Bits
  import opened ChaChaBlock

  type BlockFunction = State -> Block

  /** The state for the next block. */
  function Next(s: State): State {
    var low := Plus(s[12], 1);
    if low != 0 then s[12 := low] else s[12 := 0][13 := Plus(s[13], 1)]
  }

  function Advance(s: State, n: nat): State {
    if n == 0 then s else Next(Advance(s, n - 1))
  }

  /** `data` with the keystream from state `s` on added to it. */
  function Crypt(kb: BlockFunction, s: State, data: bytes): (r: bytes)
    ensures |r| == |data|
    decreases |data|
  {
    if |data| <= 64 then XorBytes(data, kb(s)) else XorBytes(data[..64], kb(s)) + Crypt(kb, Next(s), data[64..])
  }

  /** How many blocks a message takes. */
  function Blocks(n: nat): nat {
    if n == 0 then 0 else if n <= 64 then 1 else 1 + Blocks(n - 64)
  }

  lemma {:induction false} AdvanceNext(s: State, n: nat)
    ensures Advance(Next(s), n) == Next(Advance(s, n))
  {
    if n > 0 {
      AdvanceNext(s, n - 1);
    }
  }

  /** Octet `i` of the output is octet `i` of the input plus octet `i % 64` of keystream block `i / 64`. */
  lemma {:induction false} CryptAt(kb: BlockFunction, s: State, data: bytes, i: nat)
    requires i < |data|
    ensures Crypt(kb, s, data)[i] == XorByte(data[i], kb(Advance(s, i / 64))[i % 64])
    decreases |data|
  {
    if i >= 64 {
      CryptAt(kb, Next(s), data[64..], i - 64);
      AdvanceNext(s, (i - 64) / 64);
      assert i / 64 == (i - 64) / 64 + 1;
    }
  }

  /** Running the cipher twice from the same state changes nothing. */
  lemma {:induction false} CryptTwice(kb: BlockFunction, s: State, data: bytes)
    ensures Crypt(kb, s, Crypt(kb, s, data)) == data
    decreases |data|
  {
    if |data| > 64 {
      CryptTwice(kb, Next(s), data[64..]);
      assert Crypt(kb, s, data)[..64] == XorBytes(data[..64], kb(s));
      assert Crypt(kb, s, data)[64..] == Crypt(kb, Next(s), data[64..]);
      XorBytesCancel(data[..64], kb(s));
      assert data == data[..64] + data[64..];
    } else {
      XorBytesCancel(data, kb(s));
    }
  }

  /** A call for a whole number of blocks followed by another call is one call. */
  lemma {:induction false} CryptSplits(kb: BlockFunction, s: State, a: bytes, b: bytes, k: nat)
    requires |a| == 64 * k
    ensures Crypt(kb, s, a + b) == Crypt(kb, s, a) + Crypt(kb, Advance(s, k), b)
    decreases k
  {
    if k == 0 {
      assert a + b == b;
    } else if b == [] {
      assert a + b == a;
    } else {
      CryptSplits(kb, Next(s), a[64..], b, k - 1);
      AdvanceNext(s, k - 1);
      CryptFirst(kb, s, a);
      CryptFirst(kb, s, a + b);
      assert (a + b)[..64] == a[..64] && (a + b)[64..] == a[64..] + b;
      Regroup(XorBytes(a[..64], kb(s)), Crypt(kb, Next(s), a[64..]), Crypt(kb, Advance(s, k), b));
    }
  }

  lemma CryptFirst(kb: BlockFunction, s: State, a: bytes)
    requires |a| >= 64
    ensures Crypt(kb, s, a) == XorBytes(a[..64], kb(s)) + Crypt(kb, Next(s), a[64..])
  {
  }

  // ---- The counter ----

  /** The 64-bit counter that words 12 and 13 hold. */
  function Counter(s: State): (c: nat)
    ensures c < 0x1_0000_0000_0000_0000
  {
    var low: int, high: int := s[12], s[13];
    high * 0x1_0000_0000 + low
  }

  lemma NextCounts(s: State)
    ensures Counter(Next(s)) == Wrap64(Counter(s) + 1)
    ensures forall i :: 0 <= i < 16 && i != 12 && i != 13 ==> Next(s)[i] == s[i]
  {
  }

  /** The two-word counter counts blocks modulo 2^64, and nothing else in the state changes. */
  lemma {:induction false} AdvanceCounts(s: State, n: nat)
    ensures Counter(Advance(s, n)) == Wrap64(Counter(s) + n)
    ensures forall i :: 0 <= i < 16 && i != 12 && i != 13 ==> Advance(s, n)[i] == s[i]
  {
    if n > 0 {
      AdvanceCounts(s, n - 1);
      NextCounts(Advance(s, n - 1));
      Wrap64OfWrap(Counter(s) + (n - 1), 1);
    }
  }

  lemma {:induction false} BlocksIsCeiling(n: nat)
    ensures Blocks(n) == (n + 63) / 64
  {
    if n > 64 {
      BlocksIsCeiling(n - 64);
    }
  }

  // ---- Setting up ----

  function LoadWords(b: bytes, n: nat): (ws: seq<word>)
    requires |b| >= 4 * n
    ensures |ws| == n
  {
    seq(n, i requires 0 <= i < n => LoadLittle(b[4 * i..]))
  }

  const SIGMA: bytes := [101, 120, 112, 97, 110, 100, 32, 51, 50, 45, 98, 121, 116, 101, 32, 107]
  const TAU: bytes := [101, 120, 112, 97, 110, 100, 32, 49, 54, 45, 98, 121, 116, 101, 32, 107]

  lemma ConstantsSpell()
    ensures Spells(SIGMA, "expand 32-byte k") && Spells(TAU, "expand 16-byte k")
  {
  }

  /** The state for a nonce and a counter (absent for zero), least octets first. */
  function WithIv(s: State, iv: bytes, counter: Option<bytes>): State
    requires |iv| >= 8 && (counter.Some? ==> |counter.value| >= 8)
  {
    s[..12] + (if counter.Some? then LoadWords(counter.value, 2) else [0, 0]) + LoadWords(iv, 2)
  }

  function WithKey(s: State, key: bytes, bits: nat): State
    requires |key| >= if bits == 256 then 32 else 16
  {
    LoadWords(if bits == 256 then SIGMA else TAU, 4) + LoadWords(key, 4)
      + LoadWords(if bits == 256 then key[16..] else key, 4) + s[12..]
  }

  /** Setting the nonce and the counter forgets how far the stream had come. */
  lemma IvResets(s: State, n: nat, iv: bytes, counter: Option<bytes>)
    requires |iv| >= 8 && (counter.Some? ==> |counter.value| >= 8)
    ensures WithIv(Advance(s, n), iv, counter) == WithIv(s, iv, counter)
  {
  }

  /** So resetting the nonce and the counter and running again undoes the first run, however long it was. */
  lemma ResetUndoes(kb: BlockFunction, s: State, iv: bytes, counter: Option<bytes>, data: bytes)
    requires |iv| >= 8 && (counter.Some? ==> |counter.value| >= 8)
    ensures var first := WithIv(s, iv, counter);
            var later := WithIv(Advance(first, Blocks(|data|)), iv, counter);
            Crypt(kb, later, Crypt(kb, first, data)) == data
  {
    var first := WithIv(s, iv, counter);
    IvResets(first, Blocks(|data|), iv, counter);
    IvAgain(s, iv, counter);
    CryptTwice(kb, first, data);
  }

  lemma IvAgain(s: State, iv: bytes, counter: Option<bytes>)
    requires |iv| >= 8 && (counter.Some? ==> |counter.value| >= 8)
    ensures WithIv(WithIv(s, iv, counter), iv, counter) == WithIv(s, iv, counter)
  {
  }

  // ---- What the state holds ----

  lemma {:induction false} SerialOfConcat(a: seq<word>, b: seq<word>)
    ensures Serial(a + b) == Serial(a) + Serial(b)
  {
    if a == [] {
      assert a + b == b;
    } else {
      SerialOfConcat(a[1..], b);
      assert (a + b)[0] == a[0] && (a + b)[1..] == a[1..] + b;
      Regroup(StoreLittle(a[0]), Serial(a[1..]), Serial(b));
    }
  }

  lemma SerialOfNone(ws: seq<word>)
    requires ws == []
    ensures Serial(ws) == []
  {
  }

  lemma StoreOfLoadLittle(b: bytes, at: nat)
    requires at + 4 <= |b|
    ensures StoreLittle(LoadLittle(b[at..])) == b[at..at + 4]
  {
    hide StoreLittle;
    StoreLittleOf(LoadLittle(b[at..]), b[at], b[at + 1], b[at + 2], b[at + 3]);
    assert b[at..at + 4] == [b[at], b[at + 1], b[at + 2], b[at + 3]];
  }

  /** Words loaded from octets are stored as those octets. */
  lemma {:induction false} SerialOfLoaded(b: bytes, n: nat)
    requires |b| >= 4 * n
    ensures Serial(LoadWords(b, n)) == b[..4 * n]
    decreases n
  {
    hide Serial, StoreLittle, LoadLittle;
    if n > 0 {
      SerialOfLoaded(b, n - 1);
      var at := 4 * (n - 1);
      var w := LoadLittle(b[at..]);
      assert LoadWords(b, n) == LoadWords(b, n - 1) + [w];
      SerialAppend(LoadWords(b, n - 1), w);
      StoreOfLoadLittle(b, at);
      assert b[..4 * n] == b[..at] + b[at..at + 4];
    } else {
      SerialOfNone(LoadWords(b, n));
    }
  }

  /** The state, stored least octet first: the constant for the size of the key, then the key, twice if it is
      short, ... */
  lemma KeyIsLaidOut(s: State, key: bytes, bits: nat)
    requires |key| >= if bits == 256 then 32 else 16
    ensures Serial(WithKey(s, key, bits)[..12]) == if bits == 256 then SIGMA + key[..32] else TAU + key[..16] + key[..16]
    ensures WithKey(s, key, bits)[12..] == s[12..]
  {
    hide Serial, LoadWords;
    var constant, more := if bits == 256 then SIGMA else TAU, if bits == 256 then key[16..] else key;
    var a, b, c := LoadWords(constant, 4), LoadWords(key, 4), LoadWords(more, 4);
    assert WithKey(s, key, bits)[..12] == a + b + c;
    SerialOfConcat(a + b, c);
    SerialOfConcat(a, b);
    SerialOfLoaded(constant, 4);
    SerialOfLoaded(key, 4);
    SerialOfLoaded(more, 4);
    assert constant[..16] == constant;
    if bits == 256 {
      assert key[..16] + key[16..][..16] == key[..32];
      Regroup(constant, key[..16], key[16..][..16]);
    }
  }

  /** ... then the counter and the nonce. */
  lemma IvIsLaidOut(s: State, iv: bytes, counter: Option<bytes>)
    requires |iv| >= 8 && (counter.Some? ==> |counter.value| >= 8)
    ensures var t := WithIv(s, iv, counter);
            && t[..12] == s[..12] && Serial(t[14..]) == iv[..8]
            && (counter.Some? ==> Serial(t[12..14]) == counter.value[..8]) && (counter.None? ==> Counter(t) == 0)
  {
    hide Serial, LoadWords;
    var t := WithIv(s, iv, counter);
    assert t[14..] == LoadWords(iv, 2);
    SerialOfLoaded(iv, 2);
    if counter.Some? {
      assert t[12..14] == LoadWords(counter.value, 2);
      SerialOfLoaded(counter.value, 2);
    }
  }

  // ---- The code ----

  lemma {:induction false} SerialXor(ws: seq<word>, vs: seq<word>, m: bytes)
    requires |ws| == |vs| && |m| == 4 * |ws|
    requires forall k :: 0 <= k < |ws| ==> vs[k] == XorWord(ws[k], LoadLittle(m[4 * k..4 * k + 4]))
    ensures Serial(vs) == XorBytes(m, Serial(ws))
  {
    if ws != [] {
      forall k | 0 <= k < |ws| - 1
        ensures m[4..][4 * k..4 * k + 4] == m[4 * (k + 1)..4 * (k + 1) + 4]
      {
      }
      SerialXor(ws[1..], vs[1..], m[4..]);
      XorOfWords(ws[0], m[..4]);
    }
  }

  /** Adds a block of a buffer to the words of keystream. */
  method AddBlock(x: array<word>, m: array<byte>, at: nat)
    requires x.Length == 16 && at + 64 <= m.Length
    modifies x
    ensures Serial(x[..]) == XorBytes(m[at..at + 64], Serial(old(x[..])))
  {
    for k := 0 to 16
      invariant forall n :: 0 <= n < 16 ==>
                  x[n] == if n < k then XorWord(old(x[n]), LoadLittle(m[at + 4 * n..at + 4 * n + 4])) else old(x[n])
    {
      x[k] := XorWord(x[k], LoadLittle(m[at + 4 * k..at + 4 * k + 4]));
    }
    forall k | 0 <= k < 16
      ensures m[at..at + 64][4 * k..4 * k + 4] == m[at + 4 * k..at + 4 * k + 4]
    {
    }
    SerialXor(old(x[..]), x[..], m[at..at + 64]);
  }

  method StoreWord(w: word, c: array<byte>, at: nat)
    requires at + 4 <= c.Length
    modifies c
    ensures c[..] == Overwritten(old(c[..]), at, StoreLittle(w))
  {
    var b := StoreLittle(w);
    c[at], c[at + 1], c[at + 2], c[at + 3] := b[0], b[1], b[2], b[3];
  }

  /** Stores sixteen words as 64 octets. */
  method StoreBlock(x: array<word>, c: array<byte>, at: nat)
    requires x.Length == 16 && at + 64 <= c.Length
    modifies c
    ensures c[..] == Overwritten(old(c[..]), at, Serial(x[..]))
  {
    for k := 0 to 16
      invariant c[..] == Overwritten(old(c[..]), at, Serial(x[..k]))
    {
      SerialAppend(x[..k], x[k]);
      assert x[..k + 1] == x[..k] + [x[k]];
      OverwriteMore(old(c[..]), at, Serial(x[..k]), StoreLittle(x[k]));
      StoreWord(x[k], c, at + 4 * k);
    }
    assert x[..16] == x[..];
  }

  /** `kb` is what the code computes. */
  ghost predicate Computes(kb: BlockFunction) {
    forall s: State {:trigger KeyBlock(s)} :: kb(s) == KeyBlock(s)
  }

  /** Adds one whole block of keystream to `m`, into `c`, and counts it. The two may be the same buffer. */
  method WholeBlock(ghost kb: BlockFunction, j: array<word>, m: array<byte>, mo: nat, c: array<byte>, co: nat)
    requires Computes(kb) && j.Length == 16 && mo + 64 <= m.Length && co + 64 <= c.Length
    modifies c, j
    ensures j[..] == Next(old(j[..]))
    ensures c[..] == Overwritten(old(c[..]), co, XorBytes(old(m[..])[mo..mo + 64], kb(old(j[..]))))
  {
    var x := Core(j);
    assert Serial(x[..]) == KeyBlock(j[..]);
    AddBlock(x, m, mo);
    assert m[mo..mo + 64] == m[..][mo..mo + 64];
    j[12] := Plus(j[12], 1);
    if j[12] == 0 {
      j[13] := Plus(j[13], 1);
    }
    assert j[..] == Next(old(j[..]));
    StoreBlock(x, c, co);
  }

  method Copy(from: array<byte>, fo: nat, to: array<byte>, at: nat, size: nat)
    requires fo + size <= from.Length && at + size <= to.Length && from != to
    modifies to
    ensures to[..] == Overwritten(old(to[..]), at, from[..][fo..fo + size])
  {
    for i := 0 to size
      invariant forall n :: 0 <= n < to.Length ==> to[n] == if at <= n < at + i then from[fo + (n - at)] else old(to[n])
    {
      to[at + i] := from[fo + i];
    }
  }

  lemma XorPrefix(data: bytes, key: Block, size: nat)
    requires |data| == 64 && size <= 64
    ensures Overwritten(data, 0, XorBytes(data[0..64], key))[0..size] == XorBytes(data[0..size], key)
  {
  }

  /** Adds the last, partial block by way of a buffer of its own. */
  method PartialBlock(ghost kb: BlockFunction, j: array<word>, m: array<byte>, mo: nat, c: array<byte>, co: nat, size: nat)
    requires Computes(kb) && j.Length == 16 && size < 64 && mo + size <= m.Length && co + size <= c.Length
    modifies c, j
    ensures j[..] == Next(old(j[..]))
    ensures c[..] == Overwritten(old(c[..]), co, XorBytes(old(m[..])[mo..mo + size], kb(old(j[..]))))
  {
    var tmp := new byte[64];
    Copy(m, mo, tmp, 0, size);
    ghost var data, key := tmp[..], kb(j[..]);
    WholeBlock(kb, j, tmp, 0, tmp, 0);
    XorPrefix(data, key, size);
    Copy(tmp, 0, c, co, size);
  }

  /** The last block, whole or partial. */
  method LastBlock(ghost kb: BlockFunction, j: array<word>, m: array<byte>, mo: nat, c: array<byte>, co: nat, size: nat)
    requires Computes(kb) && j.Length == 16 && size <= 64 && mo + size <= m.Length && co + size <= c.Length
    modifies c, j
    ensures j[..] == Next(old(j[..]))
    ensures c[..] == Overwritten(old(c[..]), co, XorBytes(old(m[..])[mo..mo + size], kb(old(j[..]))))
  {
    if size < 64 {
      PartialBlock(kb, j, m, mo, c, co, size);
    } else {
      WholeBlock(kb, j, m, mo, c, co);
    }
  }

  /** `got` is what became of the first octets of `data`, encrypted from state `s0` on; the next block is
      that of state `s`. */
  ghost predicate Running(kb: BlockFunction, data: bytes, s0: State, s: State, got: bytes) {
    && |got| <= |data|
    && got + Crypt(kb, s, data[|got|..]) == Crypt(kb, s0, data)
    && Advance(s, Blocks(|data| - |got|)) == Advance(s0, Blocks(|data|))
  }

  lemma RunningStep(kb: BlockFunction, data: bytes, s0: State, s: State, got: bytes)
    requires Running(kb, data, s0, s, got) && |data| - |got| > 64
    ensures Running(kb, data, s0, Next(s), got + XorBytes(data[|got|..|got| + 64], kb(s)))
  {
    var rest := data[|got|..];
    CryptFirst(kb, s, rest);
    assert rest[..64] == data[|got|..|got| + 64] && rest[64..] == data[|got| + 64..];
    AdvanceNext(s, Blocks(|rest| - 64));
    Regroup(got, XorBytes(rest[..64], kb(s)), Crypt(kb, Next(s), rest[64..]));
  }

  /** The last block completes the output, and the count. */
  lemma RunningEnds(kb: BlockFunction, data: bytes, s0: State, s: State, got: bytes)
    requires Running(kb, data, s0, s, got) && 0 < |data| - |got| <= 64
    ensures got + XorBytes(data[|got|..], kb(s)) == Crypt(kb, s0, data)
    ensures Next(s) == Advance(s0, Blocks(|data|))
  {
    assert Advance(s, 1) == Next(Advance(s, 0)) == Next(s);
  }

  /** The buffers in the middle of a call: `got` has been written into `c`, and what is left of `data`
      is still in `m`, even if the two are one. */
  ghost predicate Halfway(was: bytes, c: bytes, m: bytes, co: nat, mo: nat, data: bytes, got: bytes) {
    && |got| <= |data| && co + |data| <= |was| && mo + |data| <= |m|
    && c == Overwritten(was, co, got)
    && m[mo + |got|..mo + |data|] == data[|got|..]
  }

  lemma HalfwayStep(was: bytes, c: bytes, m: bytes, co: nat, mo: nat, data: bytes, got: bytes, x: bytes, c': bytes, m': bytes)
    requires Halfway(was, c, m, co, mo, data, got) && |got| + |x| <= |data| && c' == Overwritten(c, co + |got|, x)
    requires m' == m || (m == c && m' == c' && mo == co)
    ensures Halfway(was, c', m', co, mo, data, got + x)
  {
    OverwriteMore(was, co, got, x);
    var n := |got| + |x|;
    assert m'[mo + n..mo + |data|] == m[mo + n..mo + |data|];
    assert m[mo + n..mo + |data|] == m[mo + |got|..mo + |data|][|x|..];
  }

  lemma HalfwayPiece(was: bytes, c: bytes, m: bytes, co: nat, mo: nat, data: bytes, got: bytes, n: nat)
    requires Halfway(was, c, m, co, mo, data, got) && |got| + n <= |data|
    ensures mo + |got| + n <= |m| && co + |got| + n <= |was| == |c| && c == Overwritten(was, co, got)
    ensures m[mo + |got|..mo + |got| + n] == data[|got|..|got| + n]
  {
    PrefixOfSlice(m, mo + |got|, mo + |data|, n);
    PrefixOfSlice(data, |got|, |data|, n);
    assert data[|got|..|data|] == data[|got|..];
  }

  lemma PrefixOfSlice(b: bytes, from: nat, to: nat, n: nat)
    requires from + n <= to <= |b|
    ensures b[from..to][..n] == b[from..from + n]
  {
  }

  lemma HalfwayStarts(was: bytes, m: bytes, co: nat, mo: nat, data: bytes, kb: BlockFunction, s: State)
    requires co + |data| <= |was| && mo + |data| <= |m| && data == m[mo..mo + |data|]
    ensures Halfway(was, was, m, co, mo, data, []) && Running(kb, data, s, s, [])
  {
  }

  /** One more whole block. */
  method RunBlock(ghost kb: BlockFunction, ghost was: bytes, ghost data: bytes, ghost got: bytes, j: array<word>,
                  m: array<byte>, mo: nat, c: array<byte>, co: nat, done: nat)
    requires Computes(kb) && j.Length == 16 && (m == c ==> mo == co) && done == |got| && |data| - done > 64
    requires Halfway(was, c[..], m[..], co, mo, data, got)
    modifies c, j
    ensures j[..] == Next(old(j[..]))
    ensures Halfway(was, c[..], m[..], co, mo, data, got + XorBytes(data[done..done + 64], kb(old(j[..]))))
  {
    hide Halfway, Overwritten, XorBytes;
    ghost var c0, m0, x := c[..], m[..], XorBytes(data[done..done + 64], kb(j[..]));
    HalfwayPiece(was, c0, m0, co, mo, data, got, 64);
    WholeBlock(kb, j, m, mo + done, c, co + done);
    HalfwayStep(was, c0, m0, co, mo, data, got, x, c[..], m[..]);
  }

  /** All blocks of a message that is not empty. */
  method EncryptBlocks(ghost kb: BlockFunction, j: array<word>, m: array<byte>, mo: nat, c: array<byte>, co: nat, size: nat)
    requires Computes(kb) && j.Length == 16 && size > 0 && mo + size <= m.Length && co + size <= c.Length && (m == c ==> mo == co)
    modifies c, j
    ensures c[..] == Overwritten(old(c[..]), co, Crypt(kb, old(j[..]), old(m[..])[mo..mo + size]))
    ensures j[..] == Advance(old(j[..]), Blocks(size))
  {
    ghost var was, data, s0 := c[..], m[..][mo..mo + size], j[..];
    ghost var got := [];
    var done := 0;
    HalfwayStarts(was, m[..], co, mo, data, kb, s0);
    while size - done > 64
      invariant done < size && |got| == done
      invariant Running(kb, data, s0, j[..], got)
      invariant Halfway(was, c[..], m[..], co, mo, data, got)
    {
      RunningStep(kb, data, s0, j[..], got);
      ghost var x := XorBytes(data[done..done + 64], kb(j[..]));
      RunBlock(kb, was, data, got, j, m, mo, c, co, done);
      got, done := got + x, done + 64;
    }
    RunningEnds(kb, data, s0, j[..], got);
    RunLast(kb, was, data, got, j, m, mo, c, co, done, size);
  }

  /** The last block. */
  method RunLast(ghost kb: BlockFunction, ghost was: bytes, ghost data: bytes, ghost got: bytes, j: array<word>,
                 m: array<byte>, mo: nat, c: array<byte>, co: nat, done: nat, size: nat)
    requires Computes(kb) && j.Length == 16 && size == |data| && done == |got| && 0 <= size - done <= 64
    requires Halfway(was, c[..], m[..], co, mo, data, got)
    modifies c, j
    ensures j[..] == Next(old(j[..]))
    ensures c[..] == Overwritten(was, co, got + XorBytes(data[|got|..], kb(old(j[..]))))
  {
    hide Halfway, Overwritten, XorBytes;
    ghost var c0, rest, key := c[..], data[done..], kb(j[..]);
    HalfwayPiece(was, c0, m[..], co, mo, data, got, size - done);
    assert data[done..size] == rest;
    LastBlock(kb, j, m, mo + done, c, co + done, size - done);
    assert c[..] == Overwritten(c0, co + done, XorBytes(rest, key));
    OverwriteMore(was, co, got, XorBytes(rest, key));
  }

  function Replaced(s: State, at: nat, ws: seq<word>): State
    requires at + |ws| <= 16
  {
    s[..at] + ws + s[at + |ws|..]
  }

  lemma ThreeParts(s: State, a: seq<word>, b: seq<word>, c: seq<word>)
    requires |a| == |b| == |c| == 4
    ensures Replaced(Replaced(Replaced(s, 4, b), 8, c), 0, a) == a + b + c + s[12..]
  {
  }

  lemma KeyBlockIsComputed()
    ensures Computes(KeyBlock)
  {
  }

  class Chacha {
    const input: array<word>

    ghost predicate Valid()
      reads this
    {
      input.Length == 16
    }

    constructor ()
      ensures Valid() && fresh(input)
    {
      input := new word[16](_ => 0);
    }

    /** `chacha_keysetup`. */
    method KeySetup(k: bytes, kbits: nat)
      requires Valid() && |k| >= if kbits == 256 then 32 else 16
      modifies input
      ensures input[..] == WithKey(old(input[..]), k, kbits)
    {
      var second := if kbits == 256 then k[16..] else k;
      var constants := if kbits == 256 then SIGMA else TAU;
      SetWords(4, k);
      SetWords(8, second);
      SetWords(0, constants);
      ThreeParts(old(input[..]), LoadWords(constants, 4), LoadWords(k, 4), LoadWords(second, 4));
    }

    method SetWords(at: nat, b: bytes)
      requires Valid() && at + 4 <= 16 && |b| >= 16
      modifies input
      ensures input[..] == Replaced(old(input[..]), at, LoadWords(b, 4))
    {
      for i := 0 to 4
        invariant forall n :: 0 <= n < 16 ==>
                    input[n] == if at <= n < at + i then LoadLittle(b[4 * (n - at)..]) else old(input[n])
      {
        input[at + i] := LoadLittle(b[4 * i..]);
      }
    }

    /** `chacha_ivsetup`. */
    method IvSetup(iv: bytes, counter: Option<bytes>)
      requires Valid() && |iv| >= 8 && (counter.Some? ==> |counter.value| >= 8)
      modifies input
      ensures input[..] == WithIv(old(input[..]), iv, counter)
    {
      input[12] := if counter.None? then 0 else LoadLittle(counter.value[0..]);
      input[13] := if counter.None? then 0 else LoadLittle(counter.value[4..]);
      input[14] := LoadLittle(iv[0..]);
      input[15] := LoadLittle(iv[4..]);
    }

    /** `chacha_encrypt_bytes`: from `m` into `c`, which may be the same place. */
    method EncryptBytes(ghost kb: BlockFunction, m: array<byte>, mo: nat, c: array<byte>, co: nat, size: nat)
      requires Valid() && Computes(kb) && mo + size <= m.Length && co + size <= c.Length && (m == c ==> mo == co)
      modifies c, input
      ensures c[..] == Overwritten(old(c[..]), co, Crypt(kb, old(input[..]), old(m[..])[mo..mo + size]))
      ensures input[..] == Advance(old(input[..]), Blocks(size))
    {
      if size == 0 {
        return;
      }
      var j := new word[16](i requires 0 <= i < 16 reads this, input => input[i]);
      ghost var s0 := input[..];
      assert j[..] == s0;
      EncryptBlocks(kb, j, m, mo, c, co, size);
      AdvanceCounts(s0, Blocks(size));
      KeepCounter(j);
    }

    method KeepCounter(j: array<word>)
      requires Valid() && j.Length == 16 && forall i :: 0 <= i < 16 && i != 12 && i != 13 ==> j[i] == input[i]
      modifies input
      ensures input[..] == j[..]
    {
      input[12], input[13] := j[12], j[13];
    }
  }
}
