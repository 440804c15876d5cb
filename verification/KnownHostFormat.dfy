/**
 Lines of a known_hosts file: what a line says, how an entry is written, and that reading what was
 written restores it. Base64 is a parameter.
 */
module KnownHostFormat {
  import opened Bytes

  const TAB: byte := 9
  const NEWLINE: byte := 10
  const SPACE: byte := 32
  const SHARP: byte := 35
  const COMMA: byte := 44
  const BAR: byte := 124

  const ERROR_METHOD_NOT_SUPPORTED := -33
  const ERROR_INVAL := -34

  datatype NameType = Plain | Sha1 | Custom

  datatype KeyType = NoKey | Rsa1 | SshRsa | SshDss | Ecdsa256 | Ecdsa384 | Ecdsa521 | Ed25519 | Unknown

  datatype Encoding = Raw | Base64

  /** What the library was built with: a base64 codec, and whether DSA keys are supported. */
  datatype Config = Config(encode: bytes -> bytes, decode: bytes -> Option<bytes>, dsa: bool)

  /** A known host. The name and the salt are kept decoded, the key is kept encoded. */
  datatype Entry = Entry(
    name: bytes, salt: bytes, nameType: NameType, encoding: Encoding, keyType: KeyType, keyTypeName: Option<bytes>,
    key: bytes, comment: Option<bytes>)

  // ---- Spans ----

  predicate Blank(c: byte) {
    c == SPACE || c == TAB
  }

  /** How many blanks a text begins with. */
  function Blanks(b: bytes): (n: nat)
    ensures n <= |b|
  {
    if b == [] || !Blank(b[0]) then 0 else 1 + Blanks(b[1..])
  }

  /** How long the word is that a text begins with. */
  function Word(b: bytes): (n: nat)
    ensures n <= |b|
  {
    if b == [] || Blank(b[0]) then 0 else 1 + Word(b[1..])
  }

  /** Where the first separator of a hashed name is, or the length. */
  function UpTo(b: bytes, c: byte): (n: nat)
    ensures n <= |b| && (n < |b| ==> b[n] == c) && c !in b[..n]
  {
    if b == [] || b[0] == c then 0 else 1 + UpTo(b[1..], c)
  }

  /** A line as `fgets` delivers it: a newline only at its end, and no zero octet. */
  type Line = b: bytes | IsLine(b)

  predicate IsLine(b: bytes) {
    0 !in b && forall i :: 0 <= i < |b| - 1 ==> b[i] != NEWLINE
  }

  // ---- Keys ----

  const ED25519_NAME: bytes := [115, 115, 104, 45, 101, 100, 50, 53, 53, 49, 57]
  const ECDSA_STEM: bytes := [101, 99, 100, 115, 97, 45, 115, 104, 97, 50, 45, 110, 105, 115, 116, 112]
  const P256: bytes := [50, 53, 54]
  const P384: bytes := [51, 56, 52]
  const P521: bytes := [53, 50, 49]
  const RSA_NAME: bytes := [115, 115, 104, 45, 114, 115, 97]
  const DSS_NAME: bytes := [115, 115, 104, 45, 100, 115, 115]

  /** The name of a key type that has one of its own. */
  function NameOf(t: KeyType): bytes {
    match t
    case Ed25519 => ED25519_NAME
    case Ecdsa256 => ECDSA_STEM + P256
    case Ecdsa384 => ECDSA_STEM + P384
    case Ecdsa521 => ECDSA_STEM + P521
    case SshRsa => RSA_NAME
    case SshDss => DSS_NAME
    case _ => []
  }

  lemma NamesSpell()
    ensures Spells(NameOf(Ed25519), "ssh-ed25519") && Spells(NameOf(SshRsa), "ssh-rsa") && Spells(NameOf(SshDss), "ssh-dss")
    ensures Spells(NameOf(Ecdsa256), "ecdsa-sha2-nistp256") && Spells(NameOf(Ecdsa384), "ecdsa-sha2-nistp384")
    ensures Spells(NameOf(Ecdsa521), "ecdsa-sha2-nistp521") && Spells(MARK, "|1|")
    ensures Spells([TAB, NEWLINE, SPACE, SHARP, COMMA, BAR], "\t\n #,|")
  {
  }

  /** The key type a name stands for: any name that the name of a known type begins with stands for it. */
  function TypeOf(name: bytes, dsa: bool): KeyType {
    if Begins(NameOf(Ed25519), name) then Ed25519
    else if Begins(NameOf(Ecdsa256), name) then Ecdsa256
    else if Begins(NameOf(Ecdsa384), name) then Ecdsa384
    else if Begins(NameOf(Ecdsa521), name) then Ecdsa521
    else if Begins(NameOf(SshRsa), name) then SshRsa
    else if dsa && Begins(NameOf(SshDss), name) then SshDss
    else Unknown
  }

  predicate Digit(c: byte) {
    48 <= c <= 57
  }

  datatype KeyPart = KeyPart(keyType: KeyType, name: bytes, key: bytes, comment: Option<bytes>)

  /** The key half of a line, of which `after` follows. */
  function ParseKey(k: bytes, after: bytes, dsa: bool): KeyPart
    requires k != []
  {
    if Digit(k[0]) then KeyPart(Rsa1, [], k, None)
    else
      var n := Word(k);
      var rest := k[n..][Blanks(k[n..])..];
      var m := Word(rest);
      var tail := rest[m..];
      KeyPart(TypeOf(k[..n], dsa), k[..n], if m == 0 then after else rest[..m],
              if tail == [] then None else Some(tail[Blanks(tail)..]))
  }

  function EntryOf(name: bytes, salt: bytes, nameType: NameType, k: KeyPart): Entry {
    Entry(name, salt, nameType, Base64, k.keyType, if k.keyType == Unknown then Some(k.name) else None, k.key, k.comment)
  }

  // ---- Hosts ----

  datatype Outcome = Outcome(entries: seq<Entry>, rc: int)

  /** Where the last name of a list begins. */
  function LastName(host: bytes): (p: nat)
    requires host != []
    ensures p < |host|
  {
    if |host| == 1 || host[|host| - 2] == COMMA then |host| - 1 else LastName(host[..|host| - 1])
  }

  /** Names are added one by one, the last one first. */
  function AddNames(es: seq<Entry>, host: bytes, k: KeyPart): Outcome
    decreases |host|
  {
    if host == [] then Outcome(es, 0)
    else
      var p := LastName(host);
      if |host| - p >= 255 then Outcome(es, ERROR_METHOD_NOT_SUPPORTED)
      else
        var more := es + [EntryOf(host[p..], [], Plain, k)];
        if p == 0 then Outcome(more, 0) else AddNames(more, host[..p - 1], k)
  }

  /** A hashed name, `|1|salt|hash`. The salt may end anywhere in the line; the length of the hash is
      what is then left of the host, in 64-bit unsigned arithmetic. */
  function AddHashed(cfg: Config, es: seq<Entry>, line: bytes, hostlen: nat, k: KeyPart): Outcome
    requires |line| >= 3 && hostlen <= |line|
  {
    var salt := line[3..];
    var n := UpTo(salt, BAR);
    if n == |salt| then Outcome(es, 0)
    else
      var len := Wrap64(Wrap64(hostlen - 3) - (n + 1));
      if n >= 31 || len >= 255 then Outcome(es, ERROR_METHOD_NOT_SUPPORTED)
      else
        var name, plainSalt := cfg.decode(salt[n + 1..][..Min(len, |salt| - n - 1)]), cfg.decode(salt[..n]);
        if name.None? || plainSalt.None? then Outcome(es, ERROR_INVAL)
        else Outcome(es + [EntryOf(name.value, plainSalt.value, Sha1, k)], 0)
  }

  const MARK: bytes := [124, 49, 124]

  /** A line from its host on, split into host and key. */
  function AddHost(cfg: Config, es: seq<Entry>, line: bytes, hostlen: nat, k: bytes, after: bytes): Outcome
    requires hostlen <= |line| && |line| >= |k|
  {
    if |k| < 20 then Outcome(es, ERROR_METHOD_NOT_SUPPORTED)
    else
      var key := ParseKey(k, after, cfg.dsa);
      if hostlen > 2 && line[..3] != MARK then AddNames(es, line[..hostlen], key)
      else AddHashed(cfg, es, line, hostlen, key)
  }

  datatype Parts = Parts(hostlen: nat, key: bytes, after: bytes)

  /** A line from its host on: how long the host is, the key, and what follows it. */
  function PartsOf(b: bytes): Parts {
    var h := Word(b);
    var rest := b[h..][Blanks(b[h..])..];
    var n := if rest != [] && rest[|rest| - 1] == NEWLINE then |rest| - 1 else |rest|;
    Parts(h, rest[..n], rest[n..])
  }

  /** `libssh2_knownhost_readline`. */
  function Read(cfg: Config, es: seq<Entry>, line: Line): Outcome {
    var b := line[Blanks(line)..];
    if b == [] || b[0] == SHARP || b[0] == NEWLINE then Outcome(es, 0)
    else
      var p := PartsOf(b);
      if p.key == [] && p.after == [] then Outcome(es, ERROR_METHOD_NOT_SUPPORTED)
      else AddHost(cfg, es, b, p.hostlen, p.key, p.after)
  }

  // ---- Writing ----

  /** The name of the key type in the line: none for RSA1, and none at all for a type that has none. */
  function WrittenType(e: Entry, dsa: bool): Option<bytes> {
    match e.keyType
    case NoKey => None
    case Rsa1 => Some([])
    case SshDss => if dsa then Some(DSS_NAME) else None
    case Unknown => e.keyTypeName
    case _ => Some(NameOf(e.keyType))
  }

  function WrittenHost(cfg: Config, e: Entry): bytes {
    if e.nameType == Sha1 then MARK + (cfg.encode(e.salt) + ([BAR] + cfg.encode(e.name))) else e.name
  }

  function Spaced(b: bytes): bytes {
    if b == [] then [] else b + [SPACE]
  }

  function WrittenComment(e: Entry): bytes {
    if e.comment.Some? then [SPACE] + e.comment.value else []
  }

  /** The line for an entry whose key type is written as `t`. */
  function Written(cfg: Config, e: Entry, t: bytes): bytes {
    WrittenHost(cfg, e) + ([SPACE] + (Spaced(t) + (e.key + (WrittenComment(e) + [NEWLINE]))))
  }

  // ---- Reading what was written ----

  /** No blank, no newline, no zero octet: what makes a word. */
  predicate Clean(b: bytes) {
    forall c :: c in b ==> c != 0 && c != NEWLINE && !Blank(c)
  }

  lemma {:induction false} WordOfClean(a: bytes, b: bytes)
    requires Clean(a) && (b == [] || Blank(b[0]))
    ensures Word(a + b) == |a|
  {
    if a == [] {
      assert a + b == b;
    } else {
      assert a[0] in a && forall c :: c in a[1..] ==> c in a;
      WordOfClean(a[1..], b);
      assert (a + b)[1..] == a[1..] + b;
    }
  }

  lemma NoBlanks(b: bytes)
    requires b == [] || !Blank(b[0])
    ensures Blanks(b) == 0 && b[0..] == b
  {
  }

  lemma OneBlank(b: bytes)
    requires b == [] || !Blank(b[0])
    ensures Blanks([SPACE] + b) == 1 && ([SPACE] + b)[1..] == b
  {
  }

  /** A comment as the format can hold it. */
  predicate GoodComment(c: bytes) {
    0 !in c && NEWLINE !in c && (c == [] || !Blank(c[0]))
  }

  /** The key half of an entry as the format can hold it, whatever its length. */
  predicate GoodKey(e: Entry, dsa: bool) {
    var t := WrittenType(e, dsa);
    && t.Some? && t.value != [] && Clean(t.value) && !Digit(t.value[0])
    && TypeOf(t.value, dsa) == e.keyType && (e.keyType != Unknown ==> e.keyTypeName == None)
    && e.key != [] && Clean(e.key)
    && (e.comment.Some? ==> GoodComment(e.comment.value))
  }

  /** The key half of the line for an entry whose key type is written as `t`. */
  function KeyHalf(e: Entry, t: bytes): bytes {
    Spaced(t) + (e.key + WrittenComment(e))
  }

  /** Parsing the written key half restores the type, its name, the key and the comment, an empty comment
      and an absent one kept distinct. */
  lemma KeyRestored(e: Entry, after: bytes, dsa: bool)
    requires GoodKey(e, dsa)
    ensures var t := WrittenType(e, dsa).value;
            var k := KeyHalf(e, t);
            k != [] && ParseKey(k, after, dsa) == KeyPart(e.keyType, t, e.key, e.comment)
  {
    var t := WrittenType(e, dsa).value;
    var c := WrittenComment(e);
    var rest := e.key + c;
    var k := Spaced(t) + rest;
    assert k == t + ([SPACE] + rest);
    WordOfClean(t, [SPACE] + rest);
    assert k[|t|..] == [SPACE] + rest && k[..|t|] == t;
    assert e.key[0] in e.key;
    OneBlank(rest);
    WordOfClean(e.key, c);
    assert rest[|e.key|..] == c && rest[..|e.key|] == e.key;
    if e.comment.Some? {
      OneBlank(e.comment.value);
    }
  }

  lemma Differ(a: bytes, b: bytes, i: nat)
    requires i < |a| && i < |b| && a[i] != b[i]
    ensures !Begins(a, b) && !Begins(b, a)
  {
  }

  /** No name of a known type begins another. */
  lemma NamesDiffer(a: KeyType, b: KeyType)
    requires a !in {NoKey, Rsa1, Unknown} && b !in {NoKey, Rsa1, Unknown} && a != b
    ensures !Begins(NameOf(a), NameOf(b))
  {
    var ecdsa := {Ecdsa256, Ecdsa384, Ecdsa521};
    Differ(NameOf(a), NameOf(b), if a in ecdsa && b in ecdsa then 16 else if a in ecdsa || b in ecdsa then 0 else 4);
  }

  /** The known types are written under names that stand for them and for nothing else. */
  lemma KnownNames(t: KeyType, dsa: bool)
    requires t !in {NoKey, Rsa1, Unknown} && (t == SshDss ==> dsa)
    ensures TypeOf(NameOf(t), dsa) == t
  {
    forall a: KeyType | a !in {NoKey, Rsa1, Unknown} && a != t
      ensures !Begins(NameOf(a), NameOf(t))
    {
      NamesDiffer(a, t);
    }
  }

  /** The codec restores what it encoded, and its output is a word without separators. */
  ghost predicate GoodCodec(cfg: Config, b: bytes) {
    cfg.decode(cfg.encode(b)) == Some(b) && cfg.encode(b) != [] && Clean(cfg.encode(b)) && BAR !in cfg.encode(b)
  }

  /** The host half of an entry as the format can hold it, whatever its length. */
  ghost predicate GoodHost(cfg: Config, e: Entry) {
    match e.nameType
    case Plain =>
      e.name != [] && Clean(e.name) && COMMA !in e.name && e.name[0] != SHARP && !Begins(e.name, MARK) && e.salt == []
    case Sha1 => GoodCodec(cfg, e.name) && GoodCodec(cfg, e.salt) && |cfg.encode(e.name)| < 0x1_0000_0000_0000_0000
    case Custom => false
  }

  /** The lengths that the reader takes. */
  predicate HostFits(cfg: Config, e: Entry) {
    if e.nameType == Sha1 then |cfg.encode(e.salt)| < 31 && |cfg.encode(e.name)| < 255 else 3 <= |e.name| < 255
  }

  predicate LineFits(cfg: Config, e: Entry, t: bytes) {
    HostFits(cfg, e) && |KeyHalf(e, t)| >= 20
  }

  lemma HostIsClean(cfg: Config, e: Entry)
    requires GoodHost(cfg, e)
    ensures var h := WrittenHost(cfg, e); h != [] && Clean(h) && h[0] != SHARP
    ensures e.nameType == Sha1 ==> |WrittenHost(cfg, e)| > 4 && WrittenHost(cfg, e)[..3] == MARK
  {
  }

  /** A line made of a host, a key and a newline. */
  lemma LineSplits(cfg: Config, es: seq<Entry>, h: bytes, k: bytes, line: Line)
    requires h != [] && Clean(h) && h[0] != SHARP && k != [] && !Blank(k[0]) && line == h + ([SPACE] + (k + [NEWLINE]))
    ensures Read(cfg, es, line) == AddHost(cfg, es, line, |h|, k, [NEWLINE])
  {
    assert h[0] in h;
    NoBlanks(line);
    var rest := k + [NEWLINE];
    WordOfClean(h, [SPACE] + rest);
    assert line[|h|..] == [SPACE] + rest;
    OneBlank(rest);
    assert rest[..|rest| - 1] == k && rest[|rest| - 1..] == [NEWLINE];
  }

  lemma {:induction false} LastNameIsAll(host: bytes)
    requires host != [] && COMMA !in host
    ensures LastName(host) == 0
  {
    if |host| > 1 {
      assert host[|host| - 2] in host;
      LastNameIsAll(host[..|host| - 1]);
    }
  }

  lemma NameAdded(es: seq<Entry>, name: bytes, k: KeyPart)
    requires name != [] && COMMA !in name && |name| < 255
    ensures AddNames(es, name, k) == Outcome(es + [EntryOf(name, [], Plain, k)], 0)
  {
    LastNameIsAll(name);
    assert name[0..] == name;
  }

  lemma {:induction false} UpToBar(a: bytes, b: bytes, c: byte)
    requires c !in a && b != [] && b[0] == c
    ensures UpTo(a + b, c) == |a|
  {
    if a == [] {
      assert a + b == b;
    } else {
      assert a[0] in a && forall x :: x in a[1..] ==> x in a;
      UpToBar(a[1..], b, c);
      assert (a + b)[1..] == a[1..] + b;
    }
  }

  /** What adding one host comes to. */
  predicate Adds(o: Outcome, es: seq<Entry>, e: Entry, fits: bool) {
    if fits then o == Outcome(es + [e], 0) else o.entries == es
  }

  /** Where the salt and the hash of a written name are. */
  lemma HashSplits(s: bytes, n: bytes, tail: bytes)
    requires BAR !in s
    ensures var line := MARK + (s + ([BAR] + n)) + tail;
            var salt := line[3..];
            && UpTo(salt, BAR) == |s| < |salt| && salt[..|s|] == s
            && |n| <= |salt| - |s| - 1 && salt[|s| + 1..][..|n|] == n
  {
    var line := MARK + (s + ([BAR] + n)) + tail;
    assert line[3..] == s + ([BAR] + (n + tail));
    UpToBar(s, [BAR] + (n + tail), BAR);
    assert (s + ([BAR] + (n + tail)))[|s| + 1..] == n + tail;
  }

  /** The length of the hash, computed in 64 bits, is right if the salt is short. */
  lemma HashLength(s: nat, n: nat)
    requires n < 0x1_0000_0000_0000_0000
    ensures Wrap64(Wrap64(3 + s + 1 + n - 3) - (s + 1)) == n
  {
    var m := 0x1_0000_0000_0000_0000;
    WrapIsMod(s + 1 + n, m);
    WrapIsMod(Wrap64(s + 1 + n) - (s + 1), m);
    WrapIsMod(n, m);
    ModOfDifference(s + 1 + n, s + 1, m);
  }

  lemma ModOfDifference(a: int, d: int, m: nat)
    requires m > 0
    ensures (a % m - d) % m == (a - d) % m
  {
    var q := a / m;
    assert a - d == q * m + (a % m - d);
    var x := a % m - d;
    ModUnique(a - d, q + x / m, x % m, m);
  }

  /** A hashed name is added if and only if salt and hash are short enough. */
  lemma HashAdded(cfg: Config, es: seq<Entry>, e: Entry, tail: bytes, k: KeyPart)
    requires GoodHost(cfg, e) && e.nameType == Sha1
    ensures var h := WrittenHost(cfg, e);
            Adds(AddHashed(cfg, es, h + tail, |h|, k), es, EntryOf(e.name, e.salt, Sha1, k), HostFits(cfg, e))
  {
    var s, n := cfg.encode(e.salt), cfg.encode(e.name);
    HashSplits(s, n, tail);
    HashLength(|s|, |n|);
    assert |WrittenHost(cfg, e)| == 3 + |s| + 1 + |n|;
  }

  /** A name of one or two octets is taken for a hashed one, and its length then wraps: nothing is added,
      whatever comes later in the line. */
  lemma ShortNameIsLost(cfg: Config, es: seq<Entry>, line: bytes, hostlen: nat, k: KeyPart)
    requires 0 < hostlen <= 2 && |line| >= 3
    ensures AddHashed(cfg, es, line, hostlen, k).entries == es
  {
    var n := UpTo(line[3..], BAR);
    var m := 0x1_0000_0000_0000_0000;
    WrapIsMod(hostlen - 3, m);
    WrapIsMod(Wrap64(hostlen - 3) - (n + 1), m);
  }

  /** A plain name is added if and only if it has at least 3 and fewer than 255 octets. */
  lemma PlainAdded(cfg: Config, es: seq<Entry>, e: Entry, tail: bytes, k: KeyPart)
    requires GoodHost(cfg, e) && e.nameType == Plain && |tail| >= 3
    ensures Adds(HostOutcome(cfg, es, e.name, tail, k), es, EntryOf(e.name, [], Plain, k), HostFits(cfg, e))
  {
    var h := e.name;
    assert (h + tail)[..|h|] == h;
    if |h| > 2 {
      assert (h + tail)[..3] == h[..3];
      LastNameIsAll(h);
      assert h[0..] == h;
    } else {
      ShortNameIsLost(cfg, es, h + tail, |h|, k);
    }
  }

  /** Which parser the host of a line goes to. */
  function HostOutcome(cfg: Config, es: seq<Entry>, h: bytes, tail: bytes, k: KeyPart): Outcome
    requires |h + tail| >= 3
  {
    if |h| > 2 && (h + tail)[..3] != MARK then AddNames(es, (h + tail)[..|h|], k) else AddHashed(cfg, es, h + tail, |h|, k)
  }

  lemma HostAdded(cfg: Config, es: seq<Entry>, e: Entry, tail: bytes, k: KeyPart)
    requires GoodHost(cfg, e) && |tail| >= 3
    ensures Adds(HostOutcome(cfg, es, WrittenHost(cfg, e), tail, k), es, EntryOf(e.name, e.salt, e.nameType, k), HostFits(cfg, e))
  {
    if e.nameType == Plain {
      PlainAdded(cfg, es, e, tail, k);
    } else {
      HostIsClean(cfg, e);
      assert (WrittenHost(cfg, e) + tail)[..3] == MARK;
      HashAdded(cfg, es, e, tail, k);
    }
  }

  /** What is written is one line. */
  lemma WrittenIsLine(cfg: Config, e: Entry)
    requires GoodKey(e, cfg.dsa) && Clean(WrittenHost(cfg, e))
    ensures IsLine(Written(cfg, e, WrittenType(e, cfg.dsa).value))
  {
    var t := WrittenType(e, cfg.dsa).value;
    var w := Written(cfg, e, t);
    var front := WrittenHost(cfg, e) + ([SPACE] + (Spaced(t) + (e.key + WrittenComment(e))));
    assert w == front + [NEWLINE];
    assert forall c :: c in front ==> c != 0 && c != NEWLINE;
    forall i | 0 <= i < |w| - 1
      ensures w[i] != NEWLINE
    {
      assert w[i] == front[i] && front[i] in front;
    }
  }

  lemma EntryRestored(e: Entry, dsa: bool)
    requires GoodKey(e, dsa)
    ensures EntryOf(e.name, e.salt, e.nameType, KeyPart(e.keyType, WrittenType(e, dsa).value, e.key, e.comment)) ==
            e.(encoding := Base64)
  {
  }

  /** Reading the line that is written for an entry of the format, plain or hashed, adds exactly that entry,
      its name and salt, its key type, its key and its comment, if and only if the reader takes the lengths of
      its name and of the key half of its line; otherwise it adds nothing. */
  lemma ReadRestoresWrittenIff(cfg: Config, es: seq<Entry>, e: Entry)
    requires GoodHost(cfg, e) && GoodKey(e, cfg.dsa)
    ensures var t := WrittenType(e, cfg.dsa).value;
            var w := Written(cfg, e, t);
            && IsLine(w)
            && (Read(cfg, es, w) == Outcome(es + [e.(encoding := Base64)], 0) <==> LineFits(cfg, e, t))
            && (!LineFits(cfg, e, t) ==> Read(cfg, es, w).entries == es)
  {
    var t, h := WrittenType(e, cfg.dsa).value, WrittenHost(cfg, e);
    var w: bytes := Written(cfg, e, t);
    var k := KeyHalf(e, t);
    HostIsClean(cfg, e);
    WrittenIsLine(cfg, e);
    assert w == h + ([SPACE] + (k + [NEWLINE]));
    assert k[0] == t[0] && t[0] in t;
    LineSplits(cfg, es, h, k, w);
    HalvesRestored(cfg, es, e, [SPACE] + (k + [NEWLINE]));
    assert |es + [e.(encoding := Base64)]| != |es|;
  }

  lemma HalvesRestored(cfg: Config, es: seq<Entry>, e: Entry, tail: bytes)
    requires GoodHost(cfg, e) && GoodKey(e, cfg.dsa) && |tail| >= |KeyHalf(e, WrittenType(e, cfg.dsa).value)|
    ensures var h, t := WrittenHost(cfg, e), WrittenType(e, cfg.dsa).value;
            Adds(AddHost(cfg, es, h + tail, |h|, KeyHalf(e, t), [NEWLINE]), es, e.(encoding := Base64), LineFits(cfg, e, t))
  {
    hide ParseKey, AddNames, AddHashed, EntryOf, HostFits, GoodHost, TypeOf;
    KeyRestored(e, [NEWLINE], cfg.dsa);
    HostAdded(cfg, es, e, tail, ParseKey(KeyHalf(e, WrittenType(e, cfg.dsa).value), [NEWLINE], cfg.dsa));
    EntryRestored(e, cfg.dsa);
  }

  // ---- Lists of names ----

  /** Names joined by commas. */
  function Join(names: seq<bytes>): bytes {
    if names == [] then [] else if |names| == 1 then names[0]
    else Join(names[..|names| - 1]) + [COMMA] + names[|names| - 1]
  }

  predicate GoodNames(names: seq<bytes>) {
    forall i :: 0 <= i < |names| ==> names[i] != [] && COMMA !in names[i] && |names[i]| < 255
  }

  /** The entries for a list of names, the last name first. */
  function Backwards(names: seq<bytes>, k: KeyPart): seq<Entry> {
    if names == [] then []
    else [EntryOf(names[|names| - 1], [], Plain, k)] + Backwards(names[..|names| - 1], k)
  }

  lemma {:induction false} LastNameAfterComma(front: bytes, name: bytes)
    requires name != [] && COMMA !in name
    ensures LastName(front + [COMMA] + name) == |front| + 1
  {
    var host := front + [COMMA] + name;
    if |name| > 1 {
      assert host[|host| - 2] == name[|name| - 2] && name[|name| - 2] in name;
      LastNameAfterComma(front, name[..|name| - 1]);
      assert host[..|host| - 1] == front + [COMMA] + name[..|name| - 1];
    }
  }

  lemma JoinNotEmpty(names: seq<bytes>)
    requires GoodNames(names)
    ensures Join(names) == [] <==> names == []
  {
  }

  /** A field of `n` names adds exactly `n` entries, the last name first. */
  lemma {:induction false} NamesAdded(es: seq<Entry>, names: seq<bytes>, k: KeyPart)
    requires GoodNames(names)
    ensures AddNames(es, Join(names), k) == Outcome(es + Backwards(names, k), 0)
    ensures |Backwards(names, k)| == |names|
    decreases |names|
  {
    if |names| == 1 {
      NameAdded(es, names[0], k);
      assert names[..0] == [];
    } else if |names| > 1 {
      var front, name := names[..|names| - 1], names[|names| - 1];
      var host, e := Join(names), EntryOf(names[|names| - 1], [], Plain, k);
      LastNameAfterComma(Join(front), name);
      assert host[|Join(front)| + 1..] == name && host[..|Join(front)|] == Join(front);
      JoinNotEmpty(front);
      NamesAdded(es + [e], front, k);
      assert es + [e] + Backwards(front, k) == es + Backwards(names, k);
    }
  }
}
