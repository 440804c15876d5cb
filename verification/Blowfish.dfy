/**
 The Blowfish cipher: a Feistel network over tables that its own output fills, and its use on
 words, on chained blocks of octets, and in the key schedule of bcrypt.
 */
module Blowfish {
  import opened Bytes
  import opened Bits

  /** The subkeys and the four substitution boxes, one after the other. */
  datatype Tables = Tables(p: seq<word>, s: seq<word>)

  type Boxes = b: Tables | |b.p| == 18 && |b.s| == 1024 witness Tables(seq(18, _ => 0), seq(1024, _ => 0))

  datatype Pair = Pair(l: word, r: word)

  // ---- The Feistel network ----

  function F(s: seq<word>, x: word): word
    requires |s| == 1024
  {
    Plus(XorWord(Plus(s[x / 0x100_0000], s[0x100 + x / 0x1_0000 % 0x100]), s[0x200 + x / 0x100 % 0x100]), s[0x300 + x % 0x100])
  }

  /** Round `n`, with the halves exchanged after it. */
  function Round(b: Boxes, x: Pair, n: nat): Pair
    requires n < 18
  {
    Pair(XorWord(x.r, XorWord(F(b.s, x.l), b.p[n])), x.l)
  }

  /** Rounds 1 to `n`. */
  function Forward(b: Boxes, x: Pair, n: nat): Pair
    requires n < 18
    decreases n, x
  {
    if n == 0 then x else Round(b, Forward(b, x, n - 1), n)
  }

  /** Rounds `n` down to 1. */
  function Backward(b: Boxes, x: Pair, n: nat): Pair
    requires n < 18
    decreases n, x
  {
    if n == 0 then x else Backward(b, Round(b, x, n), n - 1)
  }

  function Enciphered(b: Boxes, x: Pair): Pair {
    var y := Forward(b, Pair(XorWord(x.l, b.p[0]), x.r), 16);
    Pair(XorWord(y.r, b.p[17]), y.l)
  }

  function Deciphered(b: Boxes, x: Pair): Pair {
    var y := Backward(b, Pair(XorWord(x.l, b.p[17]), x.r), 16);
    Pair(XorWord(y.r, b.p[0]), y.l)
  }

  function Swap(x: Pair): Pair {
    Pair(x.r, x.l)
  }

  lemma RoundUndoes(b: Boxes, x: Pair, n: nat)
    requires n < 18
    ensures Round(b, Swap(Round(b, x, n)), n) == Swap(x)
  {
    XorCancels(x.r, XorWord(F(b.s, x.l), b.p[n]));
  }

  lemma {:induction false} BackwardUndoes(b: Boxes, x: Pair, n: nat)
    requires n < 18
    ensures Backward(b, Swap(Forward(b, x, n)), n) == Swap(x)
  {
    hide Round;
    if n > 0 {
      RoundUndoes(b, Forward(b, x, n - 1), n);
      BackwardUndoes(b, x, n - 1);
    }
  }

  lemma {:induction false} ForwardUndoes(b: Boxes, x: Pair, n: nat)
    requires n < 18
    ensures Forward(b, Swap(Backward(b, x, n)), n) == Swap(x)
    decreases n
  {
    hide Round;
    if n > 0 {
      ForwardUndoes(b, Round(b, x, n), n - 1);
      RoundUndoes(b, x, n);
    }
  }

  /** Whatever the tables hold, deciphering undoes enciphering and enciphering undoes deciphering. */
  lemma CipherInverse(b: Boxes, x: Pair)
    ensures Deciphered(b, Enciphered(b, x)) == x
    ensures Enciphered(b, Deciphered(b, x)) == x
  {
    var x0 := Pair(XorWord(x.l, b.p[0]), x.r);
    var y := Forward(b, x0, 16);
    XorCancels(y.r, b.p[17]);
    BackwardUndoes(b, x0, 16);
    XorCancels(x.l, b.p[0]);
    var x1 := Pair(XorWord(x.l, b.p[17]), x.r);
    var z := Backward(b, x1, 16);
    XorCancels(z.r, b.p[0]);
    ForwardUndoes(b, x1, 16);
    XorCancels(x.l, b.p[17]);
  }

  // ---- The published form ----

  /** The round function, as the cipher was published: each octet of a half, the most significant first, selects
      a word of its own box. */
  function PublishedF(s: seq<word>, x: word): word
    requires |s| == 1024
  {
    var o := StoreU32(x);
    Plus(XorWord(Plus(s[o[0]], s[0x100 + o[1]]), s[0x200 + o[2]]), s[0x300 + o[3]])
  }

  /** The first `n` rounds, as published: the left half is added to a subkey and then, by way of the round
      function, to the right half, and the halves are exchanged. */
  function Published(b: Boxes, x: Pair, n: nat): Pair
    requires n <= 16
    decreases n
  {
    if n == 0 then x
    else
      var y := Published(b, x, n - 1);
      var l := XorWord(y.l, b.p[n - 1]);
      Pair(XorWord(y.r, PublishedF(b.s, l)), l)
  }

  lemma FIsPublished(s: seq<word>, x: word)
    requires |s| == 1024
    ensures F(s, x) == PublishedF(s, x)
  {
    DigitsOfU32(x);
  }

  /** The code adds a subkey one round early. */
  lemma {:induction false} ForwardIsPublished(b: Boxes, x: Pair, n: nat)
    requires n <= 16
    ensures var y := Published(b, x, n);
            Forward(b, Pair(XorWord(x.l, b.p[0]), x.r), n) == Pair(XorWord(y.l, b.p[n]), y.r)
  {
    hide XorWord, F, PublishedF;
    if n > 0 {
      ForwardIsPublished(b, x, n - 1);
      var y := Published(b, x, n - 1);
      var l := XorWord(y.l, b.p[n - 1]);
      FIsPublished(b.s, l);
      XorWordRegroups(y.r, F(b.s, l), b.p[n]);
    }
  }

  lemma XorWordRegroups(a: word, b: word, c: word)
    ensures XorWord(XorWord(a, b), c) == XorWord(a, XorWord(b, c))
  {
    XorRegroups(a, b, c);
  }

  /** The network of the code is the published one: sixteen rounds, of which the last exchange is taken back,
      and the last two subkeys. */
  lemma EncipheredIsPublished(b: Boxes, x: Pair)
    ensures var y := Published(b, x, 16); Enciphered(b, x) == Pair(XorWord(y.r, b.p[17]), XorWord(y.l, b.p[16]))
  {
    hide XorWord, Forward, Published;
    ForwardIsPublished(b, x, 16);
  }

  // ---- Blocks of words ----

  type Words = seq<word>

  type Cipher = Pair -> Pair

  function Encipherer(b: Boxes): Cipher {
    (x: Pair) => Enciphered(b, x)
  }

  function Decipherer(b: Boxes): Cipher {
    (x: Pair) => Deciphered(b, x)
  }

  ghost predicate Undoes(g: Cipher, f: Cipher) {
    forall x: Pair :: g(f(x)) == x
  }

  lemma CiphersUndo(b: Boxes)
    ensures Undoes(Decipherer(b), Encipherer(b)) && Undoes(Encipherer(b), Decipherer(b))
  {
    forall x: Pair
      ensures Decipherer(b)(Encipherer(b)(x)) == x && Encipherer(b)(Decipherer(b)(x)) == x
    {
      CipherInverse(b, x);
    }
  }

  /** The first `n` blocks of two words enciphered, the rest left alone. */
  function Blocks(f: Cipher, d: Words, n: nat): (r: Words)
    requires 2 * n <= |d|
    ensures |r| == |d|
    decreases n, d
  {
    if n == 0 then d
    else
      var x := f(Pair(d[0], d[1]));
      [x.l, x.r] + Blocks(f, d[2..], n - 1)
  }

  lemma {:induction false} BlocksUndone(g: Cipher, f: Cipher, d: Words, n: nat)
    requires 2 * n <= |d| && Undoes(g, f)
    ensures Blocks(g, Blocks(f, d, n), n) == d
    decreases n
  {
    if n > 0 {
      BlocksUndone(g, f, d[2..], n - 1);
      assert g(f(Pair(d[0], d[1]))) == Pair(d[0], d[1]);
      assert Blocks(f, d, n)[2..] == Blocks(f, d[2..], n - 1);
      assert d == [d[0], d[1]] + d[2..];
    }
  }

  /** Block `k` is words 2k and 2k + 1, in that order, and does not depend on the others. */
  lemma {:induction false} BlocksAt(f: Cipher, d: Words, n: nat, k: nat)
    requires 2 * n <= |d| && 2 * k + 1 < |d|
    ensures var r := Blocks(f, d, n); Pair(r[2 * k], r[2 * k + 1]) == if k < n then f(Pair(d[2 * k], d[2 * k + 1])) else Pair(d[2 * k], d[2 * k + 1])
    decreases n
  {
    if n > 0 && k > 0 {
      BlocksAt(f, d[2..], n - 1, k - 1);
    }
  }

  /** The blocks enciphered again and again. */
  function Times(f: Cipher, d: Words, n: nat, times: nat): (r: Words)
    requires 2 * n <= |d|
    ensures |r| == |d|
    decreases times, d
  {
    if times == 0 then d else Blocks(f, Times(f, d, n, times - 1), n)
  }

  lemma {:induction false} TimesMore(f: Cipher, d: Words, n: nat, times: nat)
    requires 2 * n <= |d|
    ensures Times(f, Blocks(f, d, n), n, times) == Blocks(f, Times(f, d, n, times), n)
  {
    if times > 0 {
      TimesMore(f, d, n, times - 1);
    }
  }

  /** The repeated encryption of the hash can be undone by as many decryptions. */
  lemma {:induction false} TimesUndone(g: Cipher, f: Cipher, d: Words, n: nat, times: nat)
    requires 2 * n <= |d| && Undoes(g, f)
    ensures Times(g, Times(f, d, n, times), n, times) == d
    decreases times
  {
    if times > 0 {
      var e := Times(f, d, n, times - 1);
      BlocksUndone(g, f, e, n);
      TimesMore(g, Blocks(f, e, n), n, times - 1);
      TimesUndone(g, f, d, n, times - 1);
    }
  }

  // ---- Chained blocks of octets ----

  /** One block of eight octets. */
  function CipherBlock(f: Cipher, b: bytes): (r: bytes)
    requires |b| == 8
    ensures |r| == 8
  {
    var x := f(Pair(NtohU32(b[..4]), NtohU32(b[4..])));
    StoreU32(x.l) + StoreU32(x.r)
  }

  /** A block of octets is a pair of numbers, the most significant octet of each first. */
  lemma CipherBlockMeans(f: Cipher, x: Pair)
    ensures CipherBlock(f, StoreU32(x.l) + StoreU32(x.r)) == StoreU32(f(x).l) + StoreU32(f(x).r)
  {
    var b := StoreU32(x.l) + StoreU32(x.r);
    LoadOfStore(x.l);
    LoadOfStore(x.r);
    assert b[..4] == StoreU32(x.l) && b[4..] == StoreU32(x.r);
  }

  lemma CipherBlockUndone(g: Cipher, f: Cipher, b: bytes)
    requires |b| == 8 && Undoes(g, f)
    ensures CipherBlock(g, CipherBlock(f, b)) == b
  {
    var x := Pair(NtohU32(b[..4]), NtohU32(b[4..]));
    var y := f(x);
    LoadOfStore(y.l);
    LoadOfStore(y.r);
    assert CipherBlock(f, b)[..4] == StoreU32(y.l) && CipherBlock(f, b)[4..] == StoreU32(y.r);
    StoreOfLoad(b[..4]);
    StoreOfLoad(b[4..]);
    assert b == b[..4] + b[4..];
  }

  /** Cipher block chaining: a block is added to the previous output before it is enciphered, ... */
  function CbcEnc(f: Cipher, iv: bytes, d: bytes, n: nat): (r: bytes)
    requires |iv| == 8 && |d| == 8 * n
    ensures |r| == |d|
    decreases n, d
  {
    if n == 0 then []
    else
      var first := CipherBlock(f, XorBytes(d[..8], iv));
      first + CbcEnc(f, first, d[8..], n - 1)
  }

  /** ... and to the previous input after it is deciphered. */
  function CbcDec(g: Cipher, iv: bytes, d: bytes, n: nat): (r: bytes)
    requires |iv| == 8 && |d| == 8 * n
    ensures |r| == |d|
    decreases n, d
  {
    if n == 0 then [] else XorBytes(CipherBlock(g, d[..8]), iv) + CbcDec(g, d[..8], d[8..], n - 1)
  }

  /** Chained decryption undoes chained encryption with the same initial vector. */
  lemma {:induction false} CbcUndone(g: Cipher, f: Cipher, iv: bytes, d: bytes, n: nat)
    requires |iv| == 8 && |d| == 8 * n && Undoes(g, f)
    ensures CbcDec(g, iv, CbcEnc(f, iv, d, n), n) == d
    decreases n
  {
    if n > 0 {
      var first := CipherBlock(f, XorBytes(d[..8], iv));
      CipherBlockUndone(g, f, XorBytes(d[..8], iv));
      XorBytesCancel(d[..8], iv);
      CbcUndone(g, f, first, d[8..], n - 1);
      CbcDecStep(g, iv, first, CbcEnc(f, first, d[8..], n - 1), n);
      assert d == d[..8] + d[8..];
    } else {
      assert d == [];
    }
  }

  lemma CbcDecStep(g: Cipher, iv: bytes, first: bytes, rest: bytes, n: nat)
    requires |iv| == 8 && |first| == 8 && n > 0 && |rest| == 8 * (n - 1)
    ensures CbcDec(g, iv, first + rest, n) == XorBytes(CipherBlock(g, first), iv) + CbcDec(g, first, rest, n - 1)
  {
  }

  // ---- Reading a stream of octets as words ----

  /** Octet `i` of a stream repeated forever. */
  function Cyclic(data: bytes, i: nat): byte
    requires |data| > 0
  {
    data[Wrap(i, |data|)]
  }

  /** Word `k` of a stream repeated forever: the octets at 4k to 4k + 3, modulo the length. */
  function StreamWord(data: bytes, k: nat): word
    requires |data| > 0
  {
    NtohU32([Cyclic(data, 4 * k), Cyclic(data, 4 * k + 1), Cyclic(data, 4 * k + 2), Cyclic(data, 4 * k + 3)])
  }

  /** One octet further round. */
  lemma {:induction false} WrapNext(i: nat, n: nat)
    requires n > 0
    ensures Wrap(i + 1, n) == if Wrap(i, n) + 1 == n then 0 else Wrap(i, n) + 1
    decreases i
  {
    if i >= n {
      WrapNext(i - n, n);
    }
  }

  /** A position in the stream: the code wraps only when it needs the next octet. */
  predicate IsAt(n: nat, current: nat, i: nat)
    requires n > 0
  {
    current <= n && Wrap(i, n) == if current == n then 0 else current
  }

  /** Every octet of a word comes from its own offset, taken modulo the length. */
  lemma StreamWordIsCyclic(data: bytes, k: nat, m: nat)
    requires |data| > 0 && m < 4
    ensures StoreU32(StreamWord(data, k))[m] == data[(4 * k + m) % |data|]
  {
    var b := [Cyclic(data, 4 * k), Cyclic(data, 4 * k + 1), Cyclic(data, 4 * k + 2), Cyclic(data, 4 * k + 3)];
    StoreOfLoad(b);
    WrapIsMod(4 * k + m, |data|);
  }

  /** `Blowfish_stream2word`. */
  method Stream2Word(data: bytes, current: nat, ghost k: nat) returns (temp: word, next: nat)
    requires 0 < |data| && IsAt(|data|, current, 4 * k)
    ensures temp == StreamWord(data, k) && IsAt(|data|, next, 4 * (k + 1))
  {
    temp, next := 0, current;
    ghost var got: bytes := [];
    for i := 0 to 4
      invariant IsAt(|data|, next, 4 * k + i)
      invariant |got| == i && forall m :: 0 <= m < i ==> got[m] == Cyclic(data, 4 * k + m)
      invariant temp == NtohU32(seq(4 - i, _ => 0) + got)
    {
      if next >= |data| {
        next := 0;
      }
      WrapNext(4 * k + i, |data|);
      got := got + [data[next]];
      temp := temp * 0x100 + data[next];
      next := next + 1;
    }
  }

  // ---- The key schedule ----

  /** Enciphered pairs fill the subkeys, nine of them, and then the boxes, 512 of them. */
  const PAIRS := 521

  function Keyed(b: Boxes, key: bytes): Boxes
    requires |key| > 0
  {
    b.(p := seq(18, i requires 0 <= i < 18 => XorWord(b.p[i], StreamWord(key, i))))
  }

  function WithPair(b: Boxes, k: nat, x: Pair): Boxes
    requires k < PAIRS
  {
    if k < 9 then b.(p := b.p[2 * k := x.l][2 * k + 1 := x.r])
    else b.(s := b.s[2 * (k - 9) := x.l][2 * (k - 9) + 1 := x.r])
  }

  /** What enciphers a pair under given tables. */
  type Engine = (Boxes, Pair) -> Pair

  function TheEngine(): Engine {
    (b: Boxes, x: Pair) => Enciphered(b, x)
  }

  /** The tables filled from pair `k` on, each pair being the previous one enciphered. */
  function Fill0(e: Engine, b: Boxes, x: Pair, k: nat): Boxes
    requires k <= PAIRS
    decreases PAIRS - k, x
  {
    if k == PAIRS then b
    else
      var y := e(b, x);
      Fill0(e, WithPair(b, k, y), y, k + 1)
  }

  type Stream = nat -> word

  function StreamOf(data: bytes): Stream
    requires |data| > 0
  {
    (k: nat) => StreamWord(data, k)
  }

  function Salted(x: Pair, w: Stream, k: nat): Pair {
    Pair(XorWord(x.l, w(2 * k)), XorWord(x.r, w(2 * k + 1)))
  }

  /** The same, each pair being salted with the next two words of a stream before it is enciphered. */
  function Fill(e: Engine, b: Boxes, x: Pair, k: nat, w: Stream): Boxes
    requires k <= PAIRS
    decreases PAIRS - k, x
  {
    if k == PAIRS then b
    else
      var y := e(b, Salted(x, w, k));
      Fill(e, WithPair(b, k, y), y, k + 1, w)
  }

  function Expanded0(b: Boxes, key: bytes): Boxes
    requires |key| > 0
  {
    Fill0(TheEngine(), Keyed(b, key), Pair(0, 0), 0)
  }

  function Expanded(b: Boxes, data: bytes, key: bytes): Boxes
    requires |data| > 0 && |key| > 0
  {
    Fill(TheEngine(), Keyed(b, key), Pair(0, 0), 0, StreamOf(data))
  }

  predicate AllZero(data: bytes) {
    forall i :: 0 <= i < |data| ==> data[i] == 0
  }

  lemma ZeroSalts(x: Pair, w: Stream, k: nat)
    requires w(2 * k) == w(2 * k + 1) == 0
    ensures Salted(x, w, k) == x
  {
    XorZero(x.l);
    XorZero(x.r);
  }

  lemma {:induction false} FillsAgree(e: Engine, b: Boxes, x: Pair, k: nat, w: Stream)
    requires k <= PAIRS && forall n: nat :: w(n) == 0
    ensures Fill(e, b, x, k, w) == Fill0(e, b, x, k)
    decreases PAIRS - k
  {
    if k < PAIRS {
      ZeroSalts(x, w, k);
      var y := e(b, x);
      FillsAgree(e, WithPair(b, k, y), y, k + 1, w);
    }
  }

  /** Expanding with a salt of nothing but zeros, however long, is expanding without a salt. */
  lemma SchedulesAgree(b: Boxes, data: bytes, key: bytes)
    requires |data| > 0 && |key| > 0 && AllZero(data)
    ensures Expanded(b, data, key) == Expanded0(b, key)
  {
    FillsAgree(TheEngine(), Keyed(b, key), Pair(0, 0), 0, StreamOf(data));
  }

  // ---- What the schedule means ----

  /** Pair `k` of the tables: nine pairs of subkeys, then those of the boxes. */
  function PairAt(b: Boxes, k: nat): Pair
    requires k < PAIRS
  {
    if k < 9 then Pair(b.p[2 * k], b.p[2 * k + 1]) else Pair(b.s[2 * (k - 9)], b.s[2 * (k - 9) + 1])
  }

  lemma PairOfWith(b: Boxes, k: nat, x: Pair, i: nat)
    requires k < PAIRS && i < PAIRS
    ensures PairAt(WithPair(b, k, x), i) == if i == k then x else PairAt(b, i)
  {
  }

  lemma SamePairs(b: Boxes, c: Boxes)
    requires forall i :: 0 <= i < PAIRS ==> PairAt(b, i) == PairAt(c, i)
    ensures b == c
  {
    forall i | 0 <= i < 18
      ensures b.p[i] == c.p[i]
    {
      assert PairAt(b, i / 2) == PairAt(c, i / 2);
    }
    forall i | 0 <= i < 1024
      ensures b.s[i] == c.s[i]
    {
      assert PairAt(b, 9 + i / 2) == PairAt(c, 9 + i / 2);
    }
    assert b.p == c.p && b.s == c.s;
  }

  /** The pairs before `k` stay as they are. */
  lemma {:induction false} FillKeeps(e: Engine, b: Boxes, x: Pair, k: nat, w: Stream, i: nat)
    requires i < k <= PAIRS
    ensures PairAt(Fill(e, b, x, k, w), i) == PairAt(b, i)
    decreases PAIRS - k
  {
    if k < PAIRS {
      var y := e(b, Salted(x, w, k));
      FillKeeps(e, WithPair(b, k, y), y, k + 1, w, i);
      PairOfWith(b, k, y, i);
    }
  }

  /** The tables when `j` pairs are filled: those pairs are final, the others as they were. */
  ghost predicate FilledTo(t: Boxes, before: Boxes, after: Boxes, j: nat) {
    forall i :: 0 <= i < PAIRS ==> PairAt(t, i) == PairAt(if i < j then after else before, i)
  }

  lemma {:induction false} FillAt(e: Engine, b: Boxes, x: Pair, k: nat, w: Stream, j: nat, t: Boxes)
    requires k <= j < PAIRS && FilledTo(t, b, Fill(e, b, x, k, w), j)
    ensures var r := Fill(e, b, x, k, w); PairAt(r, j) == e(t, Salted(if j == k then x else PairAt(r, j - 1), w, j))
    decreases PAIRS - k
  {
    hide PairAt, WithPair, Salted;
    var y := e(b, Salted(x, w, k));
    var b1 := WithPair(b, k, y);
    var r := Fill(e, b, x, k, w);
    assert r == Fill(e, b1, y, k + 1, w);
    FillKeeps(e, b1, y, k + 1, w, k);
    PairOfWith(b, k, y, k);
    if j == k {
      forall i | 0 <= i < PAIRS
        ensures PairAt(t, i) == PairAt(b, i)
      {
        if i < k {
          FillKeeps(e, b, x, k, w, i);
        }
      }
      SamePairs(t, b);
    } else {
      forall i | 0 <= i < PAIRS
        ensures PairAt(t, i) == PairAt(if i < j then r else b1, i)
      {
        PairOfWith(b, k, y, i);
      }
      FillAt(e, b1, y, k + 1, w, j, t);
    }
  }

  /** The salted schedule, stated outright: subkey `i` is first combined with word `i` of the key; then every pair of
      the tables, in order, is the previous pair (at first zero) salted with the next two words of the salt and
      enciphered under the tables in which all earlier pairs are final. */
  lemma ExpandedMeans(b: Boxes, data: bytes, key: bytes, mixed: Boxes, j: nat, t: Boxes)
    requires |data| > 0 && |key| > 0 && j < PAIRS
    requires mixed.s == b.s && forall i :: 0 <= i < 18 ==> mixed.p[i] == XorWord(b.p[i], StreamWord(key, i))
    requires FilledTo(t, mixed, Expanded(b, data, key), j)
    ensures var r := Expanded(b, data, key);
            var last := if j == 0 then Pair(0, 0) else PairAt(r, j - 1);
            PairAt(r, j) == Enciphered(t, Pair(XorWord(last.l, StreamWord(data, 2 * j)), XorWord(last.r, StreamWord(data, 2 * j + 1))))
  {
    hide Enciphered, Fill, FilledTo;
    assert mixed.p == Keyed(b, key).p;
    assert mixed == Keyed(b, key);
    FillAt(TheEngine(), mixed, Pair(0, 0), 0, StreamOf(data), j, t);
  }

  /** The plain schedule is the same without a salt. */
  lemma Expanded0Means(b: Boxes, key: bytes, mixed: Boxes, j: nat, t: Boxes)
    requires |key| > 0 && j < PAIRS
    requires mixed.s == b.s && forall i :: 0 <= i < 18 ==> mixed.p[i] == XorWord(b.p[i], StreamWord(key, i))
    requires FilledTo(t, mixed, Expanded0(b, key), j)
    ensures var r := Expanded0(b, key); PairAt(r, j) == Enciphered(t, if j == 0 then Pair(0, 0) else PairAt(r, j - 1))
  {
    hide Enciphered, Expanded, Expanded0, PairAt, XorWord;
    SchedulesAgree(b, [0], key);
    ExpandedMeans(b, [0], key, mixed, j, t);
    ZeroWord(2 * j);
    ZeroWord(2 * j + 1);
    XorWithZero(if j == 0 then Pair(0, 0) else PairAt(Expanded0(b, key), j - 1));
  }

  lemma ZeroWord(k: nat)
    ensures StreamWord([0], k) == 0
  {
  }

  lemma XorWithZero(x: Pair)
    ensures Pair(XorWord(x.l, 0), XorWord(x.r, 0)) == x
  {
    XorZero(x.l);
    XorZero(x.r);
  }

  // ---- The code ----

  ghost predicate Runs(e: Engine) {
    forall b: Boxes, x: Pair {:trigger Enciphered(b, x)} :: e(b, x) == Enciphered(b, x)
  }

  ghost predicate Streams(w: Stream, data: bytes)
    requires |data| > 0
  {
    forall k: nat {:trigger StreamWord(data, k)} :: w(k) == StreamWord(data, k)
  }

  ghost predicate RunsUnder(f: Cipher, b: Boxes) {
    forall x: Pair {:trigger Enciphered(b, x)} :: f(x) == Enciphered(b, x)
  }

  ghost predicate RunsBackUnder(f: Cipher, b: Boxes) {
    forall x: Pair {:trigger Deciphered(b, x)} :: f(x) == Deciphered(b, x)
  }

  class Context {
    const P: array<word>
    const S: array<word>

    ghost predicate Valid() {
      P.Length == 18 && S.Length == 1024 && P != S
    }

    ghost function Now(): Boxes
      requires Valid()
      reads P, S
    {
      Tables(P[..], S[..])
    }

    /** `Blowfish_initstate`, from given tables. */
    constructor (init: Boxes)
      ensures Valid() && fresh(P) && fresh(S) && Now() == init
    {
      P := new word[18](i requires 0 <= i < 18 => init.p[i]);
      S := new word[1024](i requires 0 <= i < 1024 => init.s[i]);
      new;
      assert P[..] == init.p && S[..] == init.s;
    }

    /** The round macro: what it adds to one half from the other. */
    method Rnd(i: word, j: word, n: nat) returns (r: word)
      requires Valid() && n < 18
      ensures r == XorWord(i, XorWord(F(S[..], j), P[n]))
    {
      var f := Plus(XorWord(Plus(S[j / 0x100_0000], S[0x100 + j / 0x1_0000 % 0x100]), S[0x200 + j / 0x100 % 0x100]), S[0x300 + j % 0x100]);
      r := XorWord(i, XorWord(f, P[n]));
    }

    /** Rounds `n` and `n + 1`, the halves changing in turn. */
    method Down(x: Pair, ghost x0: Pair, n: nat) returns (y: Pair)
      requires Valid() && 1 <= n < 17 && x == Forward(Now(), x0, n - 1)
      ensures y == Forward(Now(), x0, n + 1)
    {
      var r := Rnd(x.r, x.l, n);
      var l := Rnd(x.l, r, n + 1);
      assert Pair(r, x.l) == Forward(Now(), x0, n);
      y := Pair(l, r);
    }

    /** Rounds `n` and `n - 1`. */
    method Up(x: Pair, ghost x0: Pair, n: nat) returns (y: Pair)
      requires Valid() && 2 <= n < 18 && Backward(Now(), x, n) == Backward(Now(), x0, 16)
      ensures Backward(Now(), y, n - 2) == Backward(Now(), x0, 16)
    {
      var r := Rnd(x.r, x.l, n);
      var l := Rnd(x.l, r, n - 1);
      assert Pair(r, x.l) == Round(Now(), x, n);
      y := Pair(l, r);
    }

    method EightDown(x: Pair, ghost x0: Pair, n: nat) returns (y: Pair)
      requires Valid() && 1 <= n < 11 && x == Forward(Now(), x0, n - 1)
      ensures y == Forward(Now(), x0, n + 7)
    {
      y := Down(x, x0, n);
      y := Down(y, x0, n + 2);
      y := Down(y, x0, n + 4);
      y := Down(y, x0, n + 6);
    }

    method EightUp(x: Pair, ghost x0: Pair, n: nat) returns (y: Pair)
      requires Valid() && 8 <= n < 18 && Backward(Now(), x, n) == Backward(Now(), x0, 16)
      ensures Backward(Now(), y, n - 8) == Backward(Now(), x0, 16)
    {
      y := Up(x, x0, n);
      y := Up(y, x0, n - 2);
      y := Up(y, x0, n - 4);
      y := Up(y, x0, n - 6);
    }

    /** `Blowfish_encipher`. */
    method Encipher(x: Pair) returns (y: Pair)
      requires Valid()
      ensures y == Enciphered(Now(), x)
    {
      var z := Pair(XorWord(x.l, P[0]), x.r);
      ghost var x0 := z;
      z := EightDown(z, x0, 1);
      z := EightDown(z, x0, 9);
      y := Pair(XorWord(z.r, P[17]), z.l);
    }

    /** `Blowfish_decipher`. */
    method Decipher(x: Pair) returns (y: Pair)
      requires Valid()
      ensures y == Deciphered(Now(), x)
    {
      var z := Pair(XorWord(x.l, P[17]), x.r);
      ghost var x0 := z;
      z := EightUp(z, x0, 16);
      z := EightUp(z, x0, 8);
      y := Pair(XorWord(z.r, P[0]), z.l);
    }

    method MixKey(key: bytes)
      requires Valid() && |key| > 0
      modifies P
      ensures Now() == Keyed(old(Now()), key)
    {
      var j := 0;
      for i := 0 to 18
        invariant IsAt(|key|, j, 4 * i)
        invariant forall n :: 0 <= n < 18 ==> P[n] == if n < i then XorWord(old(P[n]), StreamWord(key, n)) else old(P[n])
      {
        var temp;
        temp, j := Stream2Word(key, j, i);
        P[i] := XorWord(P[i], temp);
      }
    }

    /** `Blowfish_expand0state`. */
    method Expand0State(key: bytes)
      requires Valid() && |key| > 0
      modifies P, S
      ensures Now() == Expanded0(old(Now()), key)
    {
      MixKey(key);
      FillAll(TheEngine());
    }

    method FillAll(ghost e: Engine)
      requires Valid() && Runs(e)
      modifies P, S
      ensures Now() == Fill0(e, old(Now()), Pair(0, 0), 0)
    {
      var x := Pair(0, 0);
      ghost var whole := Fill0(e, Now(), x, 0);
      for i := 0 to 9
        invariant Fill0(e, Now(), x, i) == whole
      {
        x := FillPair(e, x, i, whole);
      }
      for i := 0 to 4
        invariant Fill0(e, Now(), x, 9 + 128 * i) == whole
      {
        for k := 0 to 128
          invariant Fill0(e, Now(), x, 9 + 128 * i + k) == whole
        {
          x := FillPair(e, x, 9 + 128 * i + k, whole);
        }
      }
    }

    method FillPair(ghost e: Engine, x: Pair, k: nat, ghost whole: Boxes) returns (y: Pair)
      requires Valid() && Runs(e) && k < PAIRS && Fill0(e, Now(), x, k) == whole
      modifies P, S
      ensures Fill0(e, Now(), y, k + 1) == whole
    {
      y := Encipher(x);
      PutPair(k, y);
    }

    /** `Blowfish_expandstate`. */
    method ExpandState(data: bytes, key: bytes)
      requires Valid() && |data| > 0 && |key| > 0
      modifies P, S
      ensures Now() == Expanded(old(Now()), data, key)
    {
      MixKey(key);
      FillAllSalted(TheEngine(), StreamOf(data), data);
    }

    method FillAllSalted(ghost e: Engine, ghost w: Stream, data: bytes)
      requires Valid() && Runs(e) && |data| > 0 && Streams(w, data)
      modifies P, S
      ensures Now() == Fill(e, old(Now()), Pair(0, 0), 0, w)
    {
      var x, j := Pair(0, 0), 0;
      ghost var whole := Fill(e, Now(), x, 0, w);
      x, j := FillRun(e, w, x, data, j, 0, 9, whole);
      var n := 9;
      for i := 0 to 4
        invariant n == 9 + 128 * i && IsAt(|data|, j, 8 * n) && Fill(e, Now(), x, n, w) == whole
      {
        x, j := FillRun(e, w, x, data, j, n, 128, whole);
        n := n + 128;
      }
    }

    /** Fills `count` pairs from pair `n` on: the subkeys, or one of the boxes. */
    method FillRun(ghost e: Engine, ghost w: Stream, x: Pair, data: bytes, j: nat, n: nat, count: nat, ghost whole: Boxes)
      returns (y: Pair, next: nat)
      requires Valid() && Runs(e) && |data| > 0 && Streams(w, data) && n + count <= PAIRS
      requires IsAt(|data|, j, 8 * n) && Fill(e, Now(), x, n, w) == whole
      modifies P, S
      ensures IsAt(|data|, next, 8 * (n + count)) && Fill(e, Now(), y, n + count, w) == whole
    {
      hide Fill;
      y, next := x, j;
      for k := 0 to count
        invariant IsAt(|data|, next, 8 * (n + k)) && Fill(e, Now(), y, n + k, w) == whole
      {
        y, next := FillSaltedPair(e, w, y, data, next, n + k, whole);
      }
    }

    method FillSaltedPair(ghost e: Engine, ghost w: Stream, x: Pair, data: bytes, j: nat, k: nat, ghost whole: Boxes) returns (y: Pair, next: nat)
      requires Valid() && Runs(e) && k < PAIRS && |data| > 0 && Streams(w, data)
      requires IsAt(|data|, j, 8 * k) && Fill(e, Now(), x, k, w) == whole
      modifies P, S
      ensures IsAt(|data|, next, 8 * (k + 1)) && Fill(e, Now(), y, k + 1, w) == whole
    {
      y, next := SaltPair(w, x, data, j, k);
      y := Encipher(y);
      PutPair(k, y);
    }

    method SaltPair(ghost w: Stream, x: Pair, data: bytes, j: nat, ghost k: nat) returns (y: Pair, next: nat)
      requires |data| > 0 && Streams(w, data) && IsAt(|data|, j, 8 * k)
      ensures y == Salted(x, w, k) && IsAt(|data|, next, 8 * (k + 1))
    {
      var l, r;
      l, next := Stream2Word(data, j, 2 * k);
      r, next := Stream2Word(data, next, 2 * k + 1);
      y := Pair(XorWord(x.l, l), XorWord(x.r, r));
    }

    method PutPair(k: nat, x: Pair)
      requires Valid() && k < PAIRS
      modifies P, S
      ensures Now() == WithPair(old(Now()), k, x)
    {
      if k < 9 {
        P[2 * k] := x.l;
        P[2 * k + 1] := x.r;
      } else {
        S[2 * (k - 9)] := x.l;
        S[2 * (k - 9) + 1] := x.r;
      }
    }

    // ---- Blocks ----

    /** `blf_enc`. */
    method Enc(data: array<word>, blocks: nat)
      requires Valid() && 2 * blocks <= data.Length && data != P && data != S
      modifies data
      ensures data[..] == Blocks(Encipherer(Now()), old(data[..]), blocks)
    {
      EncWith(Encipherer(Now()), data, blocks);
    }

    method EncWith(ghost f: Cipher, data: array<word>, blocks: nat)
      requires Valid() && RunsUnder(f, Now()) && 2 * blocks <= data.Length && data != P && data != S
      modifies data
      ensures data[..] == Blocks(f, old(data[..]), blocks)
    {
      for i := 0 to blocks
        invariant Now() == old(Now())
        invariant Doing(f, old(data[..]), blocks, data[..], i)
      {
        var x := Encipher(Pair(data[2 * i], data[2 * i + 1]));
        DoingStep(f, old(data[..]), blocks, data[..], i, x);
        data[2 * i], data[2 * i + 1] := x.l, x.r;
      }
      assert data[..] == data[..2 * blocks] + data[2 * blocks..];
    }

    /** `blf_dec`. */
    method Dec(data: array<word>, blocks: nat)
      requires Valid() && 2 * blocks <= data.Length && data != P && data != S
      modifies data
      ensures data[..] == Blocks(Decipherer(Now()), old(data[..]), blocks)
    {
      DecWith(Decipherer(Now()), data, blocks);
    }

    method DecWith(ghost f: Cipher, data: array<word>, blocks: nat)
      requires Valid() && RunsBackUnder(f, Now()) && 2 * blocks <= data.Length && data != P && data != S
      modifies data
      ensures data[..] == Blocks(f, old(data[..]), blocks)
    {
      for i := 0 to blocks
        invariant Now() == old(Now())
        invariant Doing(f, old(data[..]), blocks, data[..], i)
      {
        var x := Decipher(Pair(data[2 * i], data[2 * i + 1]));
        DoingStep(f, old(data[..]), blocks, data[..], i, x);
        data[2 * i], data[2 * i + 1] := x.l, x.r;
      }
      assert data[..] == data[..2 * blocks] + data[2 * blocks..];
    }
  }

  /** `d`, in which the first `i` of the `n` blocks of `d0` have been replaced. */
  ghost predicate Doing(f: Cipher, d0: Words, n: nat, d: Words, i: nat) {
    && i <= n && 2 * n <= |d0| == |d|
    && d[..2 * i] + Blocks(f, d[2 * i..], n - i) == Blocks(f, d0, n)
  }

  lemma DoingStep(f: Cipher, d0: Words, n: nat, d: Words, i: nat, x: Pair)
    requires Doing(f, d0, n, d, i) && i < n && x == f(Pair(d[2 * i], d[2 * i + 1]))
    ensures Doing(f, d0, n, d[2 * i := x.l][2 * i + 1 := x.r], i + 1)
  {
  }
}
