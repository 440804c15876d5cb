/**
 The OpenSSH authenticated cipher on top of ChaCha20, and the packet wrapper on top of that. The
 authenticator, Poly1305, is a parameter: nothing here depends on what it computes.
 */
module ChaChaPoly {
  import opened Bytes
  import opened Bits
  import opened ChaChaBlock
  import opened ChaCha

  const ERROR_INVAL := -34
  const ERROR_DECRYPT := -12
  const TAG_LENGTH := 16
  const ONE: bytes := [1, 0, 0, 0, 0, 0, 0, 0]

  type Tag = b: bytes | |b| == 16 witness seq(16, _ => 0)

  /** A tag from a message and a key. */
  type Authenticator = (bytes, bytes) -> Tag

  /** What a direction of a connection is keyed with. */
  datatype Keyed = Keyed(kb: BlockFunction, auth: Authenticator, main: State, header: State)

  // ---- Specification ----

  /** The nonce: the sequence number as a 64-bit number, most significant octet first. */
  function Nonce(seqnr: u32): (b: bytes)
    ensures |b| == 8
  {
    [0, 0, 0, 0] + StoreU32(seqnr)
  }

  function TagKey(k: Keyed, seqnr: u32): bytes {
    Crypt(k.kb, WithIv(k.main, Nonce(seqnr), None), seq(32, _ => 0))
  }

  function Header(k: Keyed, seqnr: u32, b: bytes): (r: bytes)
    ensures |r| == |b|
  {
    Crypt(k.kb, WithIv(k.header, Nonce(seqnr), None), b)
  }

  function Body(k: Keyed, seqnr: u32, b: bytes): (r: bytes)
    ensures |r| == |b|
  {
    Crypt(k.kb, WithIv(k.main, Nonce(seqnr), Some(ONE)), b)
  }

  /** Both parts of a packet, either way. */
  function Both(k: Keyed, seqnr: u32, b: bytes, aadlen: nat): (r: bytes)
    requires aadlen <= |b|
    ensures |r| == |b|
  {
    Header(k, seqnr, b[..aadlen]) + Body(k, seqnr, b[aadlen..])
  }

  function TagOf(k: Keyed, seqnr: u32, cipher: bytes): Tag {
    k.auth(cipher, TagKey(k, seqnr))
  }

  /** An encrypted packet: its octets, and the tag of what they were encrypted to. */
  function Sealed(k: Keyed, seqnr: u32, plain: bytes, aadlen: nat): (r: bytes)
    requires aadlen <= |plain|
    ensures |r| == |plain| + 16
  {
    var cipher := Both(k, seqnr, plain, aadlen);
    cipher + TagOf(k, seqnr, cipher)
  }

  /** A decrypted packet, if its tag is right. */
  function Opened(k: Keyed, seqnr: u32, packet: bytes, aadlen: nat): Option<bytes>
    requires aadlen + 16 <= |packet|
  {
    var n := |packet| - 16;
    if TagOf(k, seqnr, packet[..n]) != packet[n..] then None else Some(Both(k, seqnr, packet[..n], aadlen))
  }

  /** `chachapoly_get_length`. */
  function LengthOf(k: Keyed, seqnr: u32, packet: bytes): u32
    requires |packet| >= 4
  {
    NtohU32(Header(k, seqnr, packet[..4]))
  }

  lemma BothTwice(k: Keyed, seqnr: u32, b: bytes, aadlen: nat)
    requires aadlen <= |b|
    ensures Both(k, seqnr, Both(k, seqnr, b, aadlen), aadlen) == b
  {
    var r := Both(k, seqnr, b, aadlen);
    assert r[..aadlen] == Header(k, seqnr, b[..aadlen]) && r[aadlen..] == Body(k, seqnr, b[aadlen..]);
    CryptTwice(k.kb, WithIv(k.header, Nonce(seqnr), None), b[..aadlen]);
    CryptTwice(k.kb, WithIv(k.main, Nonce(seqnr), Some(ONE)), b[aadlen..]);
    assert b == b[..aadlen] + b[aadlen..];
  }

  /** A packet opens to `plain` if and only if it is `plain` sealed with the same sequence number: every
      sealed packet opens to what was sealed, and nothing else opens. */
  lemma OpensIffSealed(k: Keyed, seqnr: u32, packet: bytes, plain: bytes, aadlen: nat)
    requires aadlen + 16 <= |packet| && aadlen <= |plain|
    ensures Opened(k, seqnr, packet, aadlen) == Some(plain) <==> packet == Sealed(k, seqnr, plain, aadlen)
  {
    hide Both, TagOf;
    var n := |packet| - 16;
    BothTwice(k, seqnr, plain, aadlen);
    BothTwice(k, seqnr, packet[..n], aadlen);
    assert packet == packet[..n] + packet[n..];
    if packet == Sealed(k, seqnr, plain, aadlen) {
      assert packet[..n] == Both(k, seqnr, plain, aadlen);
    }
  }

  /** The length read before the rest of the packet has arrived is the length in the packet. */
  lemma LengthAgrees(k: Keyed, seqnr: u32, plain: bytes)
    requires |plain| >= 4
    ensures LengthOf(k, seqnr, Sealed(k, seqnr, plain, 4)) == NtohU32(plain[..4])
  {
    assert Sealed(k, seqnr, plain, 4)[..4] == Header(k, seqnr, plain[..4]);
    CryptTwice(k.kb, WithIv(k.header, Nonce(seqnr), None), plain[..4]);
  }

  // ---- Which keystream encrypts what ----

  /** The state of block `n` of a stream: the key of its context, the block counter, and the nonce, which is the
      sequence number stored most significant octet first in eight octets. */
  predicate AtBlock(s: State, key: State, seqnr: u32, n: nat) {
    && s[..12] == key[..12] && Counter(s) == Wrap64(n)
    && Serial(s[14..]) == [0, 0, 0, 0] + StoreU32(seqnr)
  }

  lemma {:induction false} SerialInjective(a: seq<word>, b: seq<word>)
    requires |a| == |b| && Serial(a) == Serial(b)
    ensures a == b
  {
    if a != [] {
      assert StoreLittle(a[0]) == Serial(a)[..4] && StoreLittle(b[0]) == Serial(b)[..4];
      LoadOfStoreLittle(a[0]);
      LoadOfStoreLittle(b[0]);
      assert Serial(a[1..]) == Serial(a)[4..] && Serial(b[1..]) == Serial(b)[4..];
      SerialInjective(a[1..], b[1..]);
    }
  }

  /** There is one such state, and blocks of different counters have different states. */
  lemma AtBlockIsOne(s: State, t: State, key: State, seqnr: u32, m: nat, n: nat)
    requires AtBlock(s, key, seqnr, m) && AtBlock(t, key, seqnr, n)
    ensures s == t <==> Wrap64(m) == Wrap64(n)
  {
    hide Serial;
    SerialInjective(s[14..], t[14..]);
    if Wrap64(m) == Wrap64(n) {
      SameCounter(s, t);
      assert s == s[..12] + s[12..14] + s[14..] && t == t[..12] + t[12..14] + t[14..];
    }
  }

  lemma SameCounter(s: State, t: State)
    requires Counter(s) == Counter(t)
    ensures s[12..14] == t[12..14]
  {
    assert s[12] == t[12] && s[13] == t[13];
    assert s[12..14] == [s[12], s[13]] && t[12..14] == [t[12], t[13]];
  }

  lemma StartsAtZero(key: State, seqnr: u32)
    ensures AtBlock(WithIv(key, Nonce(seqnr), None), key, seqnr, 0)
  {
    IvIsLaidOut(key, Nonce(seqnr), None);
    assert Nonce(seqnr)[..8] == Nonce(seqnr);
  }

  lemma StartsAtOne(key: State, seqnr: u32)
    ensures AtBlock(WithIv(key, Nonce(seqnr), Some(ONE)), key, seqnr, 1)
  {
    hide Serial;
    IvIsLaidOut(key, Nonce(seqnr), Some(ONE));
    assert Nonce(seqnr)[..8] == Nonce(seqnr);
    assert LoadWords(ONE, 2)[0] == LoadLittle(ONE[0..]) == 1;
    assert LoadWords(ONE, 2)[1] == LoadLittle(ONE[4..]) == 0;
  }

  lemma AdvancesBlocks(s: State, key: State, seqnr: u32, m: nat, n: nat)
    requires AtBlock(s, key, seqnr, m)
    ensures AtBlock(Advance(s, n), key, seqnr, m + n)
  {
    hide Serial;
    AdvanceCounts(s, n);
    Wrap64OfWrap(m, n);
    assert Advance(s, n)[..12] == s[..12] && Advance(s, n)[14..] == s[14..];
  }

  /** The key of the tag is the first half of block 0 of the main stream. */
  lemma TagKeyIsBlockZero(k: Keyed, seqnr: u32, s: State)
    requires AtBlock(s, k.main, seqnr, 0)
    ensures TagKey(k, seqnr) == k.kb(s)[..32]
  {
    hide Serial;
    var t := WithIv(k.main, Nonce(seqnr), None);
    StartsAtZero(k.main, seqnr);
    AtBlockIsOne(s, t, k.main, seqnr, 0, 0);
    forall i | 0 <= i < 32
      ensures TagKey(k, seqnr)[i] == k.kb(s)[i]
    {
      XorZero(k.kb(s)[i]);
      XorCommutes(0, k.kb(s)[i]);
    }
    assert TagKey(k, seqnr) == k.kb(s)[..32];
  }

  /** Octet `i` of the header is encrypted with octet `i % 64` of block `i / 64` of the header's own stream. */
  lemma HeaderAt(k: Keyed, seqnr: u32, b: bytes, i: nat, s: State)
    requires i < |b| && AtBlock(s, k.header, seqnr, i / 64)
    ensures Header(k, seqnr, b)[i] == XorByte(b[i], k.kb(s)[i % 64])
  {
    hide Serial, Crypt, AtBlock;
    var t := WithIv(k.header, Nonce(seqnr), None);
    StartsAtZero(k.header, seqnr);
    CryptAt(k.kb, t, b, i);
    AdvancesBlocks(t, k.header, seqnr, 0, i / 64);
    AtBlockIsOne(s, Advance(t, i / 64), k.header, seqnr, i / 64, i / 64);
  }

  /** Octet `i` of the body is encrypted with octet `i % 64` of block `1 + i / 64` of the main stream. */
  lemma BodyAt(k: Keyed, seqnr: u32, b: bytes, i: nat, s: State)
    requires i < |b| && AtBlock(s, k.main, seqnr, 1 + i / 64)
    ensures Body(k, seqnr, b)[i] == XorByte(b[i], k.kb(s)[i % 64])
  {
    hide Serial, Crypt, AtBlock;
    var t := WithIv(k.main, Nonce(seqnr), Some(ONE));
    StartsAtOne(k.main, seqnr);
    CryptAt(k.kb, t, b, i);
    AdvancesBlocks(t, k.main, seqnr, 1, i / 64);
    AtBlockIsOne(s, Advance(t, i / 64), k.main, seqnr, 1 + i / 64, 1 + i / 64);
  }

  /** The sealed packet, octet by octet: the header under the header's key, the body under the main key from block 1
      on, and the tag of both under the first half of block 0. */
  lemma SealedAt(k: Keyed, seqnr: u32, plain: bytes, aadlen: nat, i: nat, s: State, zero: State)
    requires aadlen <= |plain| && i < |plain| && AtBlock(zero, k.main, seqnr, 0)
    requires if i < aadlen then AtBlock(s, k.header, seqnr, i / 64) else AtBlock(s, k.main, seqnr, 1 + (i - aadlen) / 64)
    ensures var r := Sealed(k, seqnr, plain, aadlen);
            && r[i] == XorByte(plain[i], k.kb(s)[if i < aadlen then i % 64 else (i - aadlen) % 64])
            && r[|plain|..] == k.auth(r[..|plain|], k.kb(zero)[..32])
  {
    hide Serial, AtBlock, Header, Body, TagKey;
    var r, cipher := Sealed(k, seqnr, plain, aadlen), Both(k, seqnr, plain, aadlen);
    assert r[..|plain|] == cipher && r[i] == cipher[i];
    TagKeyIsBlockZero(k, seqnr, zero);
    if i < aadlen {
      HeaderAt(k, seqnr, plain[..aadlen], i, s);
    } else {
      BodyAt(k, seqnr, plain[aadlen..], i - aadlen, s);
    }
  }

  /** There is such a state for every block. */
  lemma BlockExists(key: State, seqnr: u32, n: nat) returns (s: State)
    ensures AtBlock(s, key, seqnr, n)
  {
    StartsAtZero(key, seqnr);
    AdvancesBlocks(WithIv(key, Nonce(seqnr), None), key, seqnr, 0, n);
    s := Advance(WithIv(key, Nonce(seqnr), None), n);
  }

  /** The block that keys the tag encrypts no octet of the body, as long as the counter does not wrap. */
  lemma TagBlockIsApart(k: Keyed, seqnr: u32, b: bytes, i: nat, s: State, zero: State)
    requires i < |b| && |b| <= 64 * 0xFFFF_FFFF_FFFF_FFFF
    requires AtBlock(s, k.main, seqnr, 1 + i / 64) && AtBlock(zero, k.main, seqnr, 0)
    ensures s != zero
  {
    AtBlockIsOne(s, zero, k.main, seqnr, 1 + i / 64, 0);
  }

  // ---- Comparing in constant time ----

  function Or(a: nat, b: nat): nat
    decreases a + b
  {
    if a == 0 && b == 0 then 0 else 2 * Or(a / 2, b / 2) + if a % 2 == 0 && b % 2 == 0 then 0 else 1
  }

  lemma {:induction false} OrIsZeroIff(a: nat, b: nat)
    ensures Or(a, b) == 0 <==> a == 0 && b == 0
    decreases a + b
  {
    if a != 0 || b != 0 {
      OrIsZeroIff(a / 2, b / 2);
    }
  }

  lemma {:induction false} XorIsZeroIff(a: nat, b: nat)
    ensures Xor(a, b) == 0 <==> a == b
    decreases a + b
  {
    if a != 0 || b != 0 {
      XorIsZeroIff(a / 2, b / 2);
    }
  }

  /** `chachapoly_timingsafe_bcmp`. */
  method TimingsafeBcmp(b1: bytes, b2: bytes, n: nat) returns (r: int)
    requires n <= |b1| && n <= |b2|
    ensures r == if b1[..n] == b2[..n] then 0 else 1
  {
    var ret := 0;
    for i := 0 to n
      invariant ret == 0 <==> b1[..i] == b2[..i]
    {
      XorIsZeroIff(b1[i], b2[i]);
      OrIsZeroIff(ret, XorByte(b1[i], b2[i]));
      assert b1[..i + 1] == b1[..i] + [b1[i]] && b2[..i + 1] == b2[..i] + [b2[i]];
      ret := Or(ret, XorByte(b1[i], b2[i]));
    }
    r := if ret != 0 then 1 else 0;
  }

  // ---- The code ----

  predicate SameKey(s: State, t: State) {
    s[..12] == t[..12]
  }

  lemma SameKeySameIv(s: State, t: State, iv: bytes, counter: Option<bytes>)
    requires SameKey(s, t) && |iv| >= 8 && (counter.Some? ==> |counter.value| >= 8)
    ensures WithIv(s, iv, counter) == WithIv(t, iv, counter) && SameKey(WithIv(s, iv, counter), s)
  {
  }

  lemma AdvanceKeepsKey(s: State, n: nat)
    ensures SameKey(Advance(s, n), s)
  {
  }

  /** Sets the nonce and the counter of a context and runs it. */
  method RunFrom(ghost kb: BlockFunction, ctx: Chacha, seqnr: u32, counter: Option<bytes>, m: array<byte>, c: array<byte>, at: nat, size: nat)
    requires ctx.Valid() && Computes(kb) && at + size <= m.Length && at + size <= c.Length && (counter.Some? ==> |counter.value| >= 8)
    modifies c, ctx.input
    ensures SameKey(ctx.input[..], old(ctx.input[..]))
    ensures c[..] == Overwritten(old(c[..]), at, Crypt(kb, WithIv(old(ctx.input[..]), Nonce(seqnr), counter), old(m[..])[at..at + size]))
  {
    SameKeySameIv(ctx.input[..], ctx.input[..], Nonce(seqnr), counter);
    ctx.IvSetup(Nonce(seqnr), counter);
    AdvanceKeepsKey(ctx.input[..], Blocks(size));
    ctx.EncryptBytes(kb, m, at, c, at, size);
  }

  ghost predicate SameKeys(k: Keyed, l: Keyed) {
    k.kb == l.kb && k.auth == l.auth && SameKey(k.main, l.main) && SameKey(k.header, l.header)
  }

  /** Only the keys matter, not how far the streams had come. */
  lemma SameKeysBoth(k: Keyed, l: Keyed, seqnr: u32, b: bytes, n: nat)
    requires SameKeys(k, l) && n <= |b|
    ensures Both(k, seqnr, b, n) == Both(l, seqnr, b, n) && TagKey(k, seqnr) == TagKey(l, seqnr)
    ensures Header(k, seqnr, b) == Header(l, seqnr, b)
  {
  }

  /** So two ends that hold the same keys read each other's packets, whatever either has sent before. */
  lemma PeersAgree(k: Keyed, l: Keyed, seqnr: u32, plain: bytes, aadlen: nat)
    requires SameKeys(k, l) && aadlen <= |plain|
    ensures Opened(l, seqnr, Sealed(k, seqnr, plain, aadlen), aadlen) == Some(plain)
    ensures aadlen == 4 ==> LengthOf(l, seqnr, Sealed(k, seqnr, plain, 4)) == NtohU32(plain[..4])
  {
    SameKeysBoth(k, l, seqnr, plain, aadlen);
    OpensIffSealed(l, seqnr, Sealed(k, seqnr, plain, aadlen), plain, aadlen);
    if aadlen == 4 {
      LengthAgrees(l, seqnr, plain);
    }
  }

  class ChachaPoly {
    const mainCtx: Chacha
    const headerCtx: Chacha
    const auth: Authenticator

    /** The block function that the code computes. */
    ghost const kb: BlockFunction

    ghost predicate Valid() {
      Computes(kb) && mainCtx.input.Length == 16 && headerCtx.input.Length == 16 && mainCtx.input != headerCtx.input
    }

    ghost function Keys(): Keyed
      requires Valid()
      reads mainCtx.input, headerCtx.input
    {
      Keyed(kb, auth, mainCtx.input[..], headerCtx.input[..])
    }

    constructor (auth: Authenticator)
      ensures Valid() && this.auth == auth && kb == KeyBlock && fresh(mainCtx.input) && fresh(headerCtx.input)
    {
      mainCtx := new Chacha();
      headerCtx := new Chacha();
      this.auth, kb := auth, KeyBlock;
      new;
      KeyBlockIsComputed();
    }

    /** `chachapoly_init`: two keys of 256 bits, the second one for the header. */
    method Init(key: bytes, keylen: nat) returns (r: int)
      requires Valid() && |key| >= keylen
      modifies mainCtx.input, headerCtx.input
      ensures r == if keylen == 64 then 0 else ERROR_INVAL
      ensures var k := old(Keys());
              Keys() == if keylen == 64 then k.(main := WithKey(k.main, key, 256), header := WithKey(k.header, key[32..], 256)) else k
    {
      if keylen != 64 {
        return ERROR_INVAL;
      }
      mainCtx.KeySetup(key, 256);
      headerCtx.KeySetup(key[32..], 256);
      r := 0;
    }

    method MakeTagKey(seqnr: u32) returns (key: array<byte>)
      requires Valid()
      modifies mainCtx.input
      ensures fresh(key) && key[..] == TagKey(old(Keys()), seqnr) && SameKeys(Keys(), old(Keys()))
    {
      key := new byte[32](_ => 0);
      assert key[..] == seq(32, _ => 0) && key[..][0..32] == key[..];
      RunFrom(kb, mainCtx, seqnr, None, key, key, 0, 32);
    }

    /** Encrypts or decrypts both parts, which is the same. */
    method RunBoth(seqnr: u32, dest: array<byte>, src: array<byte>, size: nat, aadlen: nat)
      requires Valid() && aadlen + size <= src.Length && aadlen + size <= dest.Length
      modifies dest, mainCtx.input, headerCtx.input
      ensures dest[..] == Overwritten(old(dest[..]), 0, Both(old(Keys()), seqnr, old(src[..])[..aadlen + size], aadlen))
      ensures SameKeys(Keys(), old(Keys()))
    {
      hide Both, Header, Overwritten;
      ghost var k, was, src0 := Keys(), dest[..], src[..];
      RunHeader(seqnr, dest, src, aadlen);
      ghost var middle, src1 := dest[..], src[..];
      RestKept(was, src0, Header(k, seqnr, src0[..aadlen]), size, src1);
      RunFrom(kb, mainCtx, seqnr, Some(ONE), src, dest, aadlen, size);
      BothWritten(k, seqnr, was, middle, src0, src1, size, aadlen);
    }

    method RunHeader(seqnr: u32, dest: array<byte>, src: array<byte>, aadlen: nat)
      requires Valid() && aadlen <= src.Length && aadlen <= dest.Length
      modifies dest, headerCtx.input
      ensures dest[..] == Overwritten(old(dest[..]), 0, Header(old(Keys()), seqnr, old(src[..])[..aadlen]))
      ensures SameKey(headerCtx.input[..], old(headerCtx.input[..]))
    {
      if aadlen != 0 {
        assert src[..][0..aadlen] == src[..][..aadlen];
        RunFrom(kb, headerCtx, seqnr, None, src, dest, 0, aadlen);
      }
    }

    /** `chachapoly_crypt`, for encryption: the tag goes after the encrypted octets. */
    method Encrypt(seqnr: u32, dest: array<byte>, src: array<byte>, size: nat, aadlen: nat) returns (r: int)
      requires Valid() && aadlen + size <= src.Length && aadlen + size + TAG_LENGTH <= dest.Length
      modifies dest, mainCtx.input, headerCtx.input
      ensures r == 0 && SameKeys(Keys(), old(Keys()))
      ensures dest[..] == Overwritten(old(dest[..]), 0, Sealed(old(Keys()), seqnr, old(src[..])[..aadlen + size], aadlen))
    {
      hide Both, TagKey, Overwritten;
      ghost var k, was, plain := Keys(), dest[..], src[..][..aadlen + size];
      var key := MakeTagKey(seqnr);
      SameKeysBoth(k, Keys(), seqnr, plain, aadlen);
      RunBoth(seqnr, dest, src, size, aadlen);
      ghost var cipher := Both(k, seqnr, plain, aadlen);
      FrontOf(was, cipher);
      assert dest[..aadlen + size] == dest[..][..aadlen + size];
      var tag := auth(dest[..aadlen + size], key[..]);
      OverwriteMore(was, 0, cipher, tag);
      WriteTag(dest, aadlen + size, tag);
      r := 0;
    }

    method WriteTag(dest: array<byte>, at: nat, tag: Tag)
      requires at + 16 <= dest.Length
      modifies dest
      ensures dest[..] == Overwritten(old(dest[..]), at, tag)
    {
      for i := 0 to 16
        invariant dest[..] == Overwritten(old(dest[..]), at, tag[..i])
      {
        dest[at + i] := tag[i];
      }
      assert tag[..16] == tag;
    }

    /** Compares the tag after `n` octets with the one they should have. */
    method CompareTag(seqnr: u32, src: array<byte>, n: nat) returns (differ: int)
      requires Valid() && n + TAG_LENGTH <= src.Length
      modifies mainCtx.input
      ensures SameKeys(Keys(), old(Keys()))
      ensures differ == if TagOf(old(Keys()), seqnr, src[..n]) == src[n..n + 16] then 0 else 1
    {
      var key := MakeTagKey(seqnr);
      var expected := auth(src[..n], key[..]);
      differ := TimingsafeBcmp(expected, src[n..n + 16], 16);
      assert expected[..16] == expected && src[n..n + 16][..16] == src[n..n + 16];
    }

    /** `chachapoly_crypt`, for decryption: the tag is checked before anything is written. */
    method Decrypt(seqnr: u32, dest: array<byte>, src: array<byte>, size: nat, aadlen: nat) returns (r: int)
      requires Valid() && aadlen + size + TAG_LENGTH <= src.Length && aadlen + size <= dest.Length
      modifies dest, mainCtx.input, headerCtx.input
      ensures SameKeys(Keys(), old(Keys()))
      ensures match Opened(old(Keys()), seqnr, old(src[..])[..aadlen + size + TAG_LENGTH], aadlen)
              case None => r == ERROR_DECRYPT && dest[..] == old(dest[..])
              case Some(plain) => r == 0 && dest[..] == Overwritten(old(dest[..]), 0, plain)
    {
      var n := aadlen + size;
      ghost var k, packet := Keys(), src[..][..n + 16];
      assert packet[..n] == src[..n] && packet[n..] == src[n..n + 16];
      var differ := CompareTag(seqnr, src, n);
      if differ != 0 {
        return ERROR_DECRYPT;
      }
      SameKeysBoth(k, Keys(), seqnr, packet[..n], aadlen);
      RunBoth(seqnr, dest, src, size, aadlen);
      r := 0;
    }

    /** `chachapoly_get_length`. */
    method GetLength(seqnr: u32, cp: array<byte>, size: nat) returns (r: int, length: u32)
      requires Valid() && size <= cp.Length
      modifies headerCtx.input
      ensures SameKeys(Keys(), old(Keys()))
      ensures if size < 4 then r == -1 else r == 0 && length == LengthOf(old(Keys()), seqnr, cp[..])
    {
      if size < 4 {
        return -1, 0;
      }
      var buf := new byte[cp.Length](_ => 0);
      assert cp[..][0..4] == cp[..][..4];
      RunFrom(kb, headerCtx, seqnr, None, cp, buf, 0, 4);
      r, length := 0, NtohU32(buf[..4]);
    }
  }

  lemma FrontOf(was: bytes, x: bytes)
    requires |x| <= |was|
    ensures Overwritten(was, 0, x)[..|x|] == x
  {
  }

  /** Writing the header leaves the body where it is, in place or not. */
  lemma RestKept(was: bytes, src0: bytes, x: bytes, size: nat, src1: bytes)
    requires |x| <= |was| && |x| + size <= |src0|
    requires src1 == src0 || (src0 == was && src1 == Overwritten(was, 0, x))
    ensures |src1| == |src0| && src1[|x|..|x| + size] == src0[|x|..|x| + size]
  {
  }

  lemma BothWritten(k: Keyed, seqnr: u32, was: bytes, middle: bytes, src0: bytes, src1: bytes, size: nat, aadlen: nat)
    requires aadlen + size <= |was| && aadlen + size <= |src0| == |src1|
    requires middle == Overwritten(was, 0, Header(k, seqnr, src0[..aadlen]))
    requires src1[aadlen..aadlen + size] == src0[aadlen..aadlen + size]
    ensures Overwritten(middle, aadlen, Body(k, seqnr, src1[aadlen..aadlen + size])) ==
            Overwritten(was, 0, Both(k, seqnr, src0[..aadlen + size], aadlen))
  {
    var b := src0[..aadlen + size];
    assert b[..aadlen] == src0[..aadlen] && b[aadlen..] == src0[aadlen..aadlen + size];
    OverwriteMore(was, 0, Header(k, seqnr, b[..aadlen]), Body(k, seqnr, b[aadlen..]));
  }
}
