/**
 The password hash behind encrypted OpenSSH keys: PBKDF2 over a bcrypt core, with the output
 octets scattered over the key with a stride. SHA-512 and the initial tables are parameters.
 */
module Bcrypt {
  import opened Bytes
  import opened Bits
  import opened Blowfish

  const HASHSIZE := 32
  const BLOCKS := 8

  type Digest = b: bytes | |b| == 64 witness seq(64, _ => 0)
  type Output = b: bytes | |b| == 32 witness seq(32, _ => 0)

  type Hash = bytes -> Digest

  const CIPHERTEXT: bytes := [
    79, 120, 121, 99, 104, 114, 111, 109, 97, 116, 105, 99, 66, 108, 111, 119,
    102, 105, 115, 104, 83, 119, 97, 116, 68, 121, 110, 97, 109, 105, 116, 101
  ]

  lemma TextSpells()
    ensures Spells(CIPHERTEXT, "OxychromaticBlowfishSwatDynamite")
  {
  }

  // ---- The core ----

  const ENCRYPTIONS := 64

  /** The tables after an expansion with one key after the other. */
  function ExpandedWith(b: Boxes, keys: seq<Digest>): Boxes {
    if keys == [] then b else Expanded0(ExpandedWith(b, keys[..|keys| - 1]), keys[|keys| - 1])
  }

  /** The salt and the password in turn, the salt first. */
  function Alternating(pass: Digest, salt: Digest, n: nat): (keys: seq<Digest>)
    ensures |keys| == n
  {
    seq(n, j requires 0 <= j < n => if j % 2 == 0 then salt else pass)
  }

  /** The tables after the salted expansion and `n` pairs of plain ones. */
  function Schedule(init: Boxes, pass: Digest, salt: Digest, n: nat): Boxes {
    ExpandedWith(Expanded(init, salt, pass), Alternating(pass, salt, 2 * n))
  }

  lemma ScheduleStep(init: Boxes, pass: Digest, salt: Digest, n: nat)
    ensures Schedule(init, pass, salt, 0) == Expanded(init, salt, pass)
    ensures Schedule(init, pass, salt, n + 1) == Expanded0(Expanded0(Schedule(init, pass, salt, n), salt), pass)
  {
    hide Expanded0, Expanded;
    var keys := Alternating(pass, salt, 2 * n);
    assert (2 * n) % 2 == 0 && (2 * n + 1) % 2 == 1;
    assert Alternating(pass, salt, 2 * (n + 1)) == (keys + [salt]) + [pass];
    ExpandedOnce(Expanded(init, salt, pass), keys, salt);
    ExpandedOnce(Expanded(init, salt, pass), keys + [salt], pass);
  }

  lemma ExpandedOnce(b: Boxes, keys: seq<Digest>, key: Digest)
    ensures ExpandedWith(b, keys + [key]) == Expanded0(ExpandedWith(b, keys), key)
  {
    hide Expanded0;
  }

  /** The first `n` words of a stream. */
  function WordsOf(data: bytes, n: nat): (ws: seq<word>)
    requires |data| > 0
    ensures |ws| == n
  {
    seq(n, i requires 0 <= i < n => StreamWord(data, i))
  }

  function HashOf(init: Boxes, pass: Digest, salt: Digest): Output {
    var words := WordsOf(CIPHERTEXT, BLOCKS);
    Serial(Times(Encipherer(Schedule(init, pass, salt, ENCRYPTIONS)), words, BLOCKS / 2, ENCRYPTIONS))
  }

  method Expand(init: Boxes, sha2pass: Digest, sha2salt: Digest) returns (state: Context)
    ensures state.Valid() && fresh(state) && fresh(state.P) && fresh(state.S)
    ensures state.Now() == Schedule(init, sha2pass, sha2salt, ENCRYPTIONS)
  {
    state := new Context(init);
    hide Schedule, Expanded0, Expanded;
    state.ExpandState(sha2salt, sha2pass);
    ScheduleStep(init, sha2pass, sha2salt, 0);
    for i := 0 to ENCRYPTIONS
      invariant state.Valid() && fresh(state) && fresh(state.P) && fresh(state.S)
      invariant state.Now() == Schedule(init, sha2pass, sha2salt, i)
    {
      state.Expand0State(sha2salt);
      state.Expand0State(sha2pass);
      ScheduleStep(init, sha2pass, sha2salt, i);
    }
  }

  method ReadWords(data: bytes, n: nat) returns (cdata: array<word>)
    requires |data| > 0
    ensures fresh(cdata) && cdata.Length == n && cdata[..] == WordsOf(data, n)
  {
    cdata := new word[n];
    var j := 0;
    for i := 0 to n
      invariant IsAt(|data|, j, 4 * i)
      invariant forall m :: 0 <= m < i ==> cdata[m] == StreamWord(data, m)
    {
      var temp;
      temp, j := Stream2Word(data, j, i);
      cdata[i] := temp;
    }
  }

  method EncryptTimes(state: Context, ghost f: Cipher, cdata: array<word>)
    requires state.Valid() && cdata.Length == 8 && cdata != state.P && cdata != state.S && RunsUnder(f, state.Now())
    modifies cdata
    ensures cdata[..] == Times(f, old(cdata[..]), BLOCKS / 2, ENCRYPTIONS)
  {
    for i := 0 to ENCRYPTIONS
      invariant state.Now() == old(state.Now())
      invariant cdata[..] == Times(f, old(cdata[..]), BLOCKS / 2, i)
    {
      state.EncWith(f, cdata, BLOCKS / 2);
    }
  }

  method CopyOut(cdata: array<word>) returns (out: bytes)
    ensures out == Serial(cdata[..])
  {
    out := [];
    for i := 0 to cdata.Length
      invariant out == Serial(cdata[..i])
    {
      SerialAppend(cdata[..i], cdata[i]);
      assert cdata[..i + 1] == cdata[..i] + [cdata[i]];
      out := out + StoreLittle(cdata[i]);
    }
    assert cdata[..cdata.Length] == cdata[..];
  }

  /** The text enciphered under the schedule. */
  method HashUnder(state: Context, ghost f: Cipher) returns (out: bytes)
    requires state.Valid() && RunsUnder(f, state.Now())
    ensures out == Serial(Times(f, WordsOf(CIPHERTEXT, BLOCKS), BLOCKS / 2, ENCRYPTIONS))
  {
    var cdata := ReadWords(CIPHERTEXT, BLOCKS);
    EncryptTimes(state, f, cdata);
    out := CopyOut(cdata);
  }

  /** The hash, stated outright: the tables are those of the salted expansion after 128 more, with the salt and
      the password in turn, the salt first; and the text is enciphered 64 times under them. */
  lemma HashMeans(init: Boxes, pass: Digest, salt: Digest, keys: seq<Digest>)
    requires |keys| == 128 && forall j :: 0 <= j < 128 ==> keys[j] == if j % 2 == 0 then salt else pass
    ensures HashOf(init, pass, salt) == Serial(Times(Encipherer(ExpandedWith(Expanded(init, salt, pass), keys)), WordsOf(CIPHERTEXT, 8), 4, 64))
  {
    hide Times, Serial, WordsOf, ExpandedWith, Expanded;
    assert keys == Alternating(pass, salt, 128);
  }

  /** `bcrypt_hash`. */
  method BcryptHash(init: Boxes, sha2pass: Digest, sha2salt: Digest) returns (out: Output)
    ensures out == HashOf(init, sha2pass, sha2salt)
    ensures forall keys: seq<Digest> ::
              |keys| == 128 && (forall j :: 0 <= j < 128 ==> keys[j] == if j % 2 == 0 then sha2salt else sha2pass) ==>
                out == Serial(Times(Encipherer(ExpandedWith(Expanded(init, sha2salt, sha2pass), keys)), WordsOf(CIPHERTEXT, 8), 4, 64))
  {
    hide Schedule, Times, Serial, WordsOf, ExpandedWith, Expanded;
    var state := Expand(init, sha2pass, sha2salt);
    out := HashUnder(state, Encipherer(state.Now()));
    forall keys: seq<Digest> | |keys| == 128 && forall j :: 0 <= j < 128 ==> keys[j] == if j % 2 == 0 then sha2salt else sha2pass
      ensures out == Serial(Times(Encipherer(ExpandedWith(Expanded(init, sha2salt, sha2pass), keys)), WordsOf(CIPHERTEXT, 8), 4, 64))
    {
      HashMeans(init, sha2pass, sha2salt, keys);
    }
  }

  // ---- PBKDF2 ----

  type Prf = (Digest, Digest) -> Output

  /** Round `n` of one block of output: the salt of the first round is the salt of the block, the salt of
      every later round is the previous output. */
  function U(prf: Prf, sha: Hash, pass: Digest, salt: bytes, n: nat): Output
    requires n > 0
    decreases n, salt
  {
    prf(pass, sha(if n == 1 then salt else U(prf, sha, pass, salt, n - 1)))
  }

  /** One block of output, as section 5.2 of RFC 8018 defines it: the rounds added up. */
  function T(prf: Prf, sha: Hash, pass: Digest, salt: bytes, rounds: nat): Output
    requires rounds > 0
    decreases rounds, salt
  {
    if rounds == 1 then U(prf, sha, pass, salt, 1)
    else XorBytes(T(prf, sha, pass, salt, rounds - 1), U(prf, sha, pass, salt, rounds))
  }

  /** Where octet `i` of block `c` of the output goes. */
  function PlaceOf(stride: nat, i: nat, c: nat): nat {
    i * stride + c
  }

  // ---- The arithmetic of the scattering ----

  /** A key of `size` octets is laid out in `rows` rows of `stride` columns, the last row having `last`. */
  datatype Layout = Layout(size: nat, stride: nat, rows: nat, last: nat)

  ghost predicate Fits(g: Layout) {
    && 0 < g.last <= g.stride && 0 < g.rows <= 32
    && g.size == PlaceOf(g.stride, g.rows - 1, g.last)
    && (g.rows == 1 ==> g.stride == 1)
  }

  /** The ceiling divisions of the code produce a layout that fits. */
  lemma LayoutFits(size: nat, stride: nat, rows: nat) returns (g: Layout)
    requires 0 < size <= 1024 && stride == (size + 31) / 32 && rows == (size + stride - 1) / stride
    ensures Fits(g) && g.size == size && g.stride == stride && g.rows == rows
  {
    Ceiling(size, stride, rows);
    g := Layout(size, stride, rows, size - (rows - 1) * stride);
    if rows > 32 {
      Grows(stride, 32, rows - 1);
    }
  }

  lemma Ceiling(size: nat, stride: nat, rows: nat)
    requires 0 < size && 0 < stride && rows == (size + stride - 1) / stride
    ensures 0 < rows && (rows - 1) * stride < size <= rows * stride
  {
  }

  lemma Grows(s: nat, a: nat, b: nat)
    requires a <= b
    ensures a * s <= b * s
  {
  }

  /** How many octets pass `c` writes, and how many are left before it. */
  function InPass(g: Layout, c: nat): nat
    requires Fits(g)
  {
    if c < g.last then g.rows else g.rows - 1
  }

  function LeftToWrite(g: Layout, c: nat): nat
    requires Fits(g) && c <= g.stride
  {
    Area(g.rows - 1, g.stride - c) + if c < g.last then g.last - c else 0
  }

  function Area(rows: nat, columns: nat): nat {
    rows * columns
  }

  lemma LeftSteps(g: Layout, c: nat)
    requires Fits(g) && c < g.stride
    ensures LeftToWrite(g, c) == InPass(g, c) + LeftToWrite(g, c + 1) && LeftToWrite(g, c) > 0
    ensures InPass(g, c) > 0
  {
  }

  /** Octet `i` of pass `c` lands inside the key if and only if `i` is one of those the pass writes. */
  lemma LandsInside(g: Layout, i: nat, c: nat)
    requires Fits(g) && c < g.stride
    ensures PlaceOf(g.stride, i, c) < g.size <==> i < InPass(g, c)
    ensures InPass(g, c) <= 32
  {
    var a := g.rows - 1;
    if i < a {
      Grows(g.stride, i, a - 1);
      assert (a - 1) * g.stride == a * g.stride - g.stride;
    } else if i > a {
      Grows(g.stride, a + 1, i);
      assert (a + 1) * g.stride == a * g.stride + g.stride;
    }
  }

  /** No two octets land in the same place. */
  lemma LandsApart(stride: nat, i: nat, c: nat, j: nat, d: nat)
    requires c < stride && d < stride && PlaceOf(stride, i, c) == PlaceOf(stride, j, d)
    ensures i == j && c == d
  {
    assert (i + 1) * stride == i * stride + stride && (j + 1) * stride == j * stride + stride;
    if i < j {
      Grows(stride, i + 1, j);
    } else if j < i {
      Grows(stride, j + 1, i);
    }
  }

  /** Every place is landed on. */
  lemma LandsEverywhere(stride: nat, k: nat)
    requires stride > 0
    ensures PlaceOf(stride, k / stride, k % stride) == k
  {
  }

  // ---- The code ----

  ghost predicate Hashes(prf: Prf, init: Boxes) {
    forall p: Digest, s: Digest {:trigger HashOf(init, p, s)} :: prf(p, s) == HashOf(init, p, s)
  }

  method HashWith(ghost prf: Prf, init: Boxes, pass: Digest, salt: Digest) returns (out: Output)
    requires Hashes(prf, init)
    ensures out == prf(pass, salt)
  {
    out := BcryptHash(init, pass, salt);
  }

  /** One block of output: the inner loop. */
  method Derive(ghost prf: Prf, init: Boxes, sha: Hash, sha2pass: Digest, countsalt: bytes, rounds: nat) returns (out: Output)
    requires Hashes(prf, init) && rounds >= 1
    ensures out == T(prf, sha, sha2pass, countsalt, rounds)
  {
    var tmpout := HashWith(prf, init, sha2pass, sha(countsalt));
    out := tmpout;
    for i := 1 to rounds
      invariant tmpout == U(prf, sha, sha2pass, countsalt, i) && out == T(prf, sha, sha2pass, countsalt, i)
    {
      tmpout := HashWith(prf, init, sha2pass, sha(tmpout));
      out := XorBytes(out, tmpout);
    }
  }

  /** The blocks of output, by column. */
  type Columns = nat -> Output

  /** Column `c` is block `c + 1` of the output of PBKDF2. */
  function ColumnsOf(prf: Prf, sha: Hash, pass: bytes, salt: bytes, rounds: nat): Columns
    requires rounds > 0
  {
    (c: nat) => T(prf, sha, sha(pass), salt + StoreU32(Wrap32(c + 1)), rounds)
  }

  /** Octet `k` of the key is octet `k / stride` of column `k % stride`. */
  predicate InPlace(key: bytes, stride: nat, t: Columns, k: nat)
    requires k < |key| && stride > 0
  {
    k / stride < 32 && key[k] == t(k % stride)[k / stride]
  }

  /** The key holds the columns, and was written in `size` writes, one to each place. */
  ghost predicate Scattered(key: bytes, size: nat, stride: nat, t: Columns, writes: seq<nat>) {
    && size <= |key| && stride > 0 && |writes| == size
    && forall k :: 0 <= k < size ==> InPlace(key, stride, t, k) && k in writes
  }

  /** Octet `i` of column `c` is in its place, if it has one. */
  predicate Placed(key: bytes, size: nat, stride: nat, t: Columns, i: nat, c: nat)
    requires size <= |key|
  {
    i < 32 && PlaceOf(stride, i, c) < size ==> key[PlaceOf(stride, i, c)] == t(c)[i]
  }

  /** What a number of passes have done to the key: the columns placed, and every write recorded. */
  ghost predicate Columned(g: Layout, key: bytes, t: Columns, c: nat, writes: seq<nat>) {
    && g.size <= |key|
    && (forall d, i :: 0 <= d < c && 0 <= i ==> Placed(key, g.size, g.stride, t, i, d))
    && (forall d, i :: 0 <= d < c && 0 <= i && PlaceOf(g.stride, i, d) < g.size ==> PlaceOf(g.stride, i, d) in writes)
  }

  /** The same, with `n` octets of column `c` placed too. */
  ghost predicate InColumn(g: Layout, key: bytes, t: Columns, c: nat, writes: seq<nat>, n: nat) {
    && Columned(g, key, t, c, writes)
    && (forall i :: 0 <= i < n ==> Placed(key, g.size, g.stride, t, i, c))
    && (forall i :: 0 <= i < n ==> PlaceOf(g.stride, i, c) in writes)
  }

  lemma OneMorePlaced(g: Layout, key: bytes, t: Columns, c: nat, writes: seq<nat>, n: nat, key': bytes)
    requires Fits(g) && c < g.stride && n < InPass(g, c) && InColumn(g, key, t, c, writes, n)
    requires PlaceOf(g.stride, n, c) < g.size && key' == key[PlaceOf(g.stride, n, c) := t(c)[n]]
    ensures InColumn(g, key', t, c, writes + [PlaceOf(g.stride, n, c)], n + 1)
  {
    var k := PlaceOf(g.stride, n, c);
    forall i: nat, d: nat | d <= c && PlaceOf(g.stride, i, d) == k
      ensures i == n && d == c
    {
      LandsApart(g.stride, i, d, n, c);
    }
    forall d, i | 0 <= d < c && 0 <= i
      ensures Placed(key', g.size, g.stride, t, i, d)
    {
      assert Placed(key, g.size, g.stride, t, i, d);
    }
    forall i | 0 <= i < n + 1
      ensures Placed(key', g.size, g.stride, t, i, c)
    {
      assert i < n ==> Placed(key, g.size, g.stride, t, i, c);
    }
  }

  /** A finished column: nothing of it lands inside the key beyond the octets that were placed. */
  lemma ColumnDone(g: Layout, key: bytes, t: Columns, c: nat, writes: seq<nat>)
    requires Fits(g) && c < g.stride && InColumn(g, key, t, c, writes, InPass(g, c))
    ensures Columned(g, key, t, c + 1, writes)
  {
    forall i | 0 <= i
      ensures Placed(key, g.size, g.stride, t, i, c) && (PlaceOf(g.stride, i, c) < g.size ==> PlaceOf(g.stride, i, c) in writes)
    {
      LandsInside(g, i, c);
    }
  }

  /** The scatter loop of one pass: it stops after `amt` octets, or at the end of the key. */
  method Scatter(ghost g: Layout, ghost t: Columns, out: Output, key: array<byte>, size: nat, stride: nat, c: nat, amt: nat, ghost before: seq<nat>)
    returns (i: nat, ghost writes: seq<nat>)
    requires Fits(g) && size == g.size && stride == g.stride && c < stride && InPass(g, c) <= amt <= 32 && out == t(c)
    requires Columned(g, key[..], t, c, before)
    modifies key
    ensures i == InPass(g, c) && |writes| == |before| + i && Columned(g, key[..], t, c + 1, writes)
    ensures key[size..] == old(key[size..])
  {
    i, writes := 0, before;
    while i < amt
      invariant 0 <= i <= InPass(g, c) && |writes| == |before| + i
      invariant InColumn(g, key[..], t, c, writes, i)
      invariant key[size..] == old(key[size..])
      decreases amt - i
    {
      var dest := i * stride + c;
      LandsInside(g, i, c);
      assert dest == PlaceOf(stride, i, c);
      if dest >= size {
        break;
      }
      OneMorePlaced(g, key[..], t, c, writes, i, key[..][dest := t(c)[i]]);
      key[dest] := out[i];
      writes, i := writes + [dest], i + 1;
    }
    ColumnDone(g, key[..], t, c, writes);
  }

  /** The outer loop: it ends after exactly as many passes as there are columns. */
  method Generate(ghost prf: Prf, init: Boxes, sha: Hash, pass: bytes, salt: bytes, key: array<byte>, size: nat, rounds: nat)
    returns (ghost writes: seq<nat>, ghost passes: nat)
    requires Hashes(prf, init) && 0 < size <= 1024 && size <= key.Length && rounds >= 1
    modifies key
    ensures passes == (size + 31) / 32
    ensures Scattered(key[..], size, passes, ColumnsOf(prf, sha, pass, salt, rounds), writes)
    ensures key[size..] == old(key[size..])
  {
    var stride := (size + HASHSIZE - 1) / HASHSIZE;
    var amt := (size + stride - 1) / stride;
    ghost var g := LayoutFits(size, stride, amt);
    ghost var t := ColumnsOf(prf, sha, pass, salt, rounds);
    var sha2pass := sha(pass);
    var keylen, c := size, 0;
    writes := [];
    LeftStarts(g);
    while keylen > 0
      invariant 0 <= c <= stride && keylen == LeftToWrite(g, c) && |writes| == size - keylen
      invariant amt <= g.rows && (c < stride ==> InPass(g, c) <= amt)
      invariant Columned(g, key[..], t, c, writes)
      invariant key[size..] == old(key[size..])
      decreases stride - c
    {
      LeftEnds(g, c);
      LeftSteps(g, c);
      var out := Derive(prf, init, sha, sha2pass, salt + StoreU32(Wrap32(c + 1)), rounds);
      amt := if amt <= keylen then amt else keylen;
      var i;
      i, writes := Scatter(g, t, out, key, size, stride, c, amt, writes);
      keylen := keylen - i;
      PassShrinks(g, c);
      c := c + 1;
    }
    LeftEnds(g, c);
    passes := c;
    AllScattered(g, key[..], t, writes);
  }

  lemma AllScattered(g: Layout, key: bytes, t: Columns, writes: seq<nat>)
    requires Fits(g) && Columned(g, key, t, g.stride, writes) && |writes| == g.size
    ensures Scattered(key, g.size, g.stride, t, writes)
  {
    hide PlaceOf, InPass;
    forall k | 0 <= k < g.size
      ensures InPlace(key, g.stride, t, k) && k in writes
    {
      LandsEverywhere(g.stride, k);
      LandsInside(g, k / g.stride, k % g.stride);
      assert Placed(key, g.size, g.stride, t, k / g.stride, k % g.stride);
    }
  }

  lemma LeftStarts(g: Layout)
    requires Fits(g)
    ensures LeftToWrite(g, 0) == g.size
  {
  }

  /** There is something left exactly as long as there are columns. */
  lemma LeftEnds(g: Layout, c: nat)
    requires Fits(g) && c <= g.stride
    ensures LeftToWrite(g, c) == 0 <==> c == g.stride
  {
    if c < g.stride {
      LeftSteps(g, c);
    }
  }

  lemma PassShrinks(g: Layout, c: nat)
    requires Fits(g) && c < g.stride
    ensures c + 1 < g.stride ==> InPass(g, c + 1) <= InPass(g, c)
  {
  }

  function PrfOf(init: Boxes): Prf {
    (p: Digest, s: Digest) => HashOf(init, p, s)
  }

  /** Octet `k` of a key is octet `k / stride` of block `k % stride + 1` of PBKDF2 with the digest of the password: the
      block is made of the salt followed by the number of the block in four octets. */
  predicate KeyOctet(octet: byte, init: Boxes, sha: Hash, pass: bytes, salt: bytes, rounds: nat, stride: nat, k: nat)
    requires rounds > 0
  {
    && 0 < stride <= 32 && k / stride < 32
    && octet == T(PrfOf(init), sha, sha(pass), salt + StoreU32(k % stride + 1), rounds)[k / stride]
  }

  lemma OctetsAreBlocks(key: bytes, size: nat, init: Boxes, sha: Hash, pass: bytes, salt: bytes, rounds: nat, stride: nat, writes: seq<nat>)
    requires rounds > 0 && 0 < stride <= 32
    requires Scattered(key, size, stride, ColumnsOf(PrfOf(init), sha, pass, salt, rounds), writes)
    ensures forall k :: 0 <= k < size ==> KeyOctet(key[k], init, sha, pass, salt, rounds, stride, k)
  {
    hide T;
    var t := ColumnsOf(PrfOf(init), sha, pass, salt, rounds);
    forall k | 0 <= k < size
      ensures KeyOctet(key[k], init, sha, pass, salt, rounds, stride, k)
    {
      assert InPlace(key, stride, t, k);
      assert Wrap32(k % stride + 1) == k % stride + 1;
    }
  }

  /** `bcrypt_pbkdf`: every octet of the key is written exactly once, with octet `k / stride` of block
      `k % stride + 1` of PBKDF2. */
  method BcryptPbkdf(init: Boxes, sha: Hash, pass: bytes, salt: bytes, key: array<byte>, keylen: nat, rounds: nat)
    returns (rc: int, ghost writes: seq<nat>, ghost passes: nat)
    requires keylen <= key.Length
    modifies key
    ensures rc == if rounds < 1 || pass == [] || salt == [] || keylen == 0 || keylen > 1024 || |salt| > 0x10_0000 then -1 else 0
    ensures rc != 0 ==> key[..] == old(key[..])
    ensures rc == 0 ==> passes == (keylen + 31) / 32
    ensures rc == 0 ==> Scattered(key[..], keylen, passes, ColumnsOf(PrfOf(init), sha, pass, salt, rounds), writes)
    ensures rc == 0 ==> forall k :: 0 <= k < keylen ==> KeyOctet(key[k], init, sha, pass, salt, rounds, passes, k)
    ensures key[keylen..] == old(key[keylen..])
  {
    writes, passes := [], 1;
    if rounds < 1 {
      return -1, writes, passes;
    }
    if |pass| == 0 || |salt| == 0 || keylen == 0 || keylen > HASHSIZE * HASHSIZE || |salt| > 0x10_0000 {
      return -1, writes, passes;
    }
    writes, passes := Generate(PrfOf(init), init, sha, pass, salt, key, keylen, rounds);
    OctetsAreBlocks(key[..], keylen, init, sha, pass, salt, rounds, passes, writes);
    rc := 0;
  }
}
