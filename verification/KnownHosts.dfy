/** The collection of known hosts: reading lines into it, writing entries out, and checking a host. */
module KnownHosts {
  import opened Bytes
  import opened KnownHostFormat

  const ERROR_ALLOC := -6
  const ERROR_BUFFER_TOO_SMALL := -38
  const SHA1_LENGTH := 20

  // ---- What a check decides ----

  datatype Query = Query(nameType: NameType, keyType: KeyType, key: bytes)

  /** A keyed hash: salt and message. */
  type Hmac = (bytes, bytes) -> bytes

  /** An entry is for a host of some type of name. */
  predicate HostMatches(hmac: Hmac, e: Entry, t: NameType, host: bytes) {
    match e.nameType
    case Plain => t == Plain && e.name == host
    case Custom => t == Custom && e.name == host
    case Sha1 => t == Plain && |e.name| == SHA1_LENGTH && hmac(e.salt, host) == e.name
  }

  /** An unknown type of key is never compared; no type of key is compared with every type. */
  predicate KeyTypeMatches(asked: KeyType, known: KeyType) {
    asked != Unknown && (asked == NoKey || asked == known)
  }

  predicate Relevant(hmac: Hmac, e: Entry, q: Query, host: bytes) {
    HostMatches(hmac, e, q.nameType, host) && KeyTypeMatches(q.keyType, e.keyType)
  }

  predicate Agrees(hmac: Hmac, e: Entry, q: Query, host: bytes) {
    Relevant(hmac, e, q, host) && e.key == q.key
  }

  /** The verdict, with the entry it names: none if the host was given hashed. */
  datatype Verdict = Match(entry: nat) | Mismatch(bad: Option<nat>) | NotFound | Failure

  type Test = (Entry, bytes) -> bool

  function Agreeing(hmac: Hmac, q: Query): Test {
    (e: Entry, host: bytes) => Agrees(hmac, e, q, host)
  }

  function Relevance(hmac: Hmac, q: Query): Test {
    (e: Entry, host: bytes) => Relevant(hmac, e, q, host)
  }

  /** Position (g, j) comes before (f, i): an earlier form of the host, or the same form and an earlier entry. */
  predicate Before(g: nat, j: nat, f: nat, i: nat) {
    g < f || (g == f && j < i)
  }

  ghost predicate NoneBefore(t: Test, es: seq<Entry>, forms: seq<bytes>, f: nat, i: nat) {
    forall g, j :: 0 <= g < |forms| && 0 <= j < |es| && Before(g, j, f, i) ==> !t(es[j], forms[g])
  }

  /** Entry `i`, under form `f`, is the first to pass a test. */
  ghost predicate FirstAt(t: Test, es: seq<Entry>, forms: seq<bytes>, f: nat, i: nat) {
    f < |forms| && i < |es| && t(es[i], forms[f]) && NoneBefore(t, es, forms, f, i)
  }

  /** The verdict: a match if and only if some entry agrees under some form of the host; a mismatch if and
      only if none does, but one is relevant; and it names the first such entry. */
  ghost predicate Decides(agrees: Test, relevant: Test, es: seq<Entry>, forms: seq<bytes>, v: Verdict) {
    match v
    case Match(i) => exists f :: FirstAt(agrees, es, forms, f, i)
    case Mismatch(Some(i)) => NoneBefore(agrees, es, forms, |forms|, 0) && exists f :: FirstAt(relevant, es, forms, f, i)
    case NotFound => NoneBefore(agrees, es, forms, |forms|, 0) && NoneBefore(relevant, es, forms, |forms|, 0)
    case _ => false
  }

  /** Which verdict it is depends only on whether some entry agrees, and whether some entry is relevant. */
  lemma VerdictMeans(agrees: Test, relevant: Test, es: seq<Entry>, forms: seq<bytes>, v: Verdict)
    requires Decides(agrees, relevant, es, forms, v)
    ensures v.Match? <==> exists f, i :: 0 <= f < |forms| && 0 <= i < |es| && agrees(es[i], forms[f])
    ensures !v.Match? ==> (v.Mismatch? <==> exists f, i :: 0 <= f < |forms| && 0 <= i < |es| && relevant(es[i], forms[f]))
    ensures v.Match? || v.Mismatch? || v.NotFound?
  {
  }

  /** The specification leaves no choice. */
  lemma VerdictIsUnique(agrees: Test, relevant: Test, es: seq<Entry>, forms: seq<bytes>, v: Verdict, w: Verdict)
    requires Decides(agrees, relevant, es, forms, v) && Decides(agrees, relevant, es, forms, w)
    ensures v == w
  {
  }

  function Decimal(n: nat): (b: bytes)
    ensures b != []
  {
    if n < 10 then [48 + n] else Decimal(n / 10) + [48 + n % 10]
  }

  predicate AllDigits(b: bytes) {
    forall i :: 0 <= i < |b| ==> Digit(b[i])
  }

  /** What a numeral stands for, folded from its most significant digit. */
  function Value(b: bytes): nat
    requires AllDigits(b)
  {
    if b == [] then 0 else Value(b[..|b| - 1]) * 10 + (b[|b| - 1] - 48)
  }

  /** The decimal numeral of a number: digits of that value, without a leading zero. */
  predicate Numeral(b: bytes, n: nat) {
    b != [] && AllDigits(b) && Value(b) == n && (b[0] == 48 ==> n == 0 && |b| == 1)
  }

  lemma {:induction false} DecimalIsNumeral(n: nat)
    ensures Numeral(Decimal(n), n)
  {
    if n >= 10 {
      DecimalIsNumeral(n / 10);
      var front := Decimal(n / 10);
      assert Decimal(n)[..|front|] == front;
      assert n == n / 10 * 10 + n % 10;
    }
  }

  lemma ValueIsPositive(b: bytes)
    requires b != [] && AllDigits(b) && b[0] != 48
    ensures Value(b) > 0
  {
    if |b| > 1 {
      ValueIsPositive(b[..|b| - 1]);
    }
  }

  /** There is no other. */
  lemma {:induction false} NumeralIsDecimal(b: bytes, n: nat)
    requires Numeral(b, n)
    ensures b == Decimal(n)
    decreases n
  {
    var front, last := b[..|b| - 1], b[|b| - 1];
    assert b == front + [last];
    if front == [] {
      assert Value(front) == 0;
    } else {
      ValueIsPositive(front);
      assert Value(front) == n / 10 && n % 10 == last - 48;
      NumeralIsDecimal(front, n / 10);
    }
  }

  const HOST_BUFFER := 270

  /** "[host]:port", in ASCII. */
  function Bracketed(host: bytes, port: nat): bytes {
    [91] + host + [93, 58] + Decimal(port)
  }

  /** The forms of a host to look for: with its port first, if one is given. */
  function Forms(host: bytes, port: int): seq<bytes> {
    if port >= 0 then [Bracketed(host, port), host] else [host]
  }

  /** The form with a port is the host in brackets, a colon, and the numeral of the port. */
  lemma BracketedIff(host: bytes, port: nat, name: bytes)
    ensures name == Bracketed(host, port) <==>
            exists digits: bytes :: Numeral(digits, port) && name == [91] + host + [93, 58] + digits
  {
    DecimalIsNumeral(port);
    forall digits: bytes | Numeral(digits, port)
      ensures digits == Decimal(port)
    {
      NumeralIsDecimal(digits, port);
    }
  }

  /** The names under which an entry is found: with the port, if one is given, before the plain host. */
  ghost predicate NamedFor(name: bytes, host: bytes, port: int, f: nat) {
    if port < 0 then f == 0 && name == host
    else if f == 0 then exists digits: bytes :: Numeral(digits, port) && name == [91] + host + [93, 58] + digits
    else f == 1 && name == host
  }

  lemma FormsAreNames(host: bytes, port: int, f: nat, name: bytes)
    ensures NamedFor(name, host, port, f) <==> f < |Forms(host, port)| && Forms(host, port)[f] == name
  {
    if port >= 0 {
      BracketedIff(host, port, name);
    }
  }

  /** Entry `e` is for the name, plainly or by its hash, and has a key of the type that is asked about. */
  predicate Concerns(hmac: Hmac, e: Entry, q: Query, name: bytes) {
    && q.keyType != Unknown && (q.keyType == NoKey || q.keyType == e.keyType)
    && if q.nameType == Custom then e.nameType == Custom && e.name == name
       else
         && q.nameType == Plain
         && ((e.nameType == Plain && e.name == name) || (e.nameType == Sha1 && |e.name| == 20 && hmac(e.salt, name) == e.name))
  }

  /** It holds the key as well. */
  predicate Holds(hmac: Hmac, e: Entry, q: Query, name: bytes) {
    Concerns(hmac, e, q, name) && e.key == q.key
  }

  /** Entry `i` is the first to pass a test for a name of the host, where the name with the port comes before the
      plain host for all entries. */
  ghost predicate FirstNamed(t: Test, es: seq<Entry>, host: bytes, port: int, i: nat) {
    && i < |es|
    && exists f: nat, name: bytes ::
         && NamedFor(name, host, port, f) && t(es[i], name) && (forall j :: 0 <= j < i ==> !t(es[j], name))
         && (f == 1 ==> forall j, other: bytes :: 0 <= j < |es| && NamedFor(other, host, port, 0) ==> !t(es[j], other))
  }

  /** No entry passes a test for any name of the host. */
  ghost predicate NoneNamed(t: Test, es: seq<Entry>, host: bytes, port: int) {
    forall j, f: nat, name: bytes :: 0 <= j < |es| && NamedFor(name, host, port, f) ==> !t(es[j], name)
  }

  lemma FirstMeans(t: Test, es: seq<Entry>, host: bytes, port: int, f: nat, i: nat)
    requires FirstAt(t, es, Forms(host, port), f, i)
    ensures FirstNamed(t, es, host, port, i)
  {
    hide NamedFor, Forms;
    var name := Forms(host, port)[f];
    FormsAreNames(host, port, f, name);
    assert forall j :: 0 <= j < i ==> Before(f, j, f, i);
    if f == 1 {
      forall j, other: bytes | 0 <= j < |es| && NamedFor(other, host, port, 0)
        ensures !t(es[j], other)
      {
        FormsAreNames(host, port, 0, other);
        assert Before(0, j, f, i);
      }
    }
  }

  lemma MeansFirst(t: Test, es: seq<Entry>, host: bytes, port: int, i: nat)
    requires FirstNamed(t, es, host, port, i)
    ensures exists f :: FirstAt(t, es, Forms(host, port), f, i)
  {
    hide NamedFor;
    var forms := Forms(host, port);
    var f: nat, name: bytes :|
      && NamedFor(name, host, port, f) && t(es[i], name) && (forall j :: 0 <= j < i ==> !t(es[j], name))
      && (f == 1 ==> forall j, other: bytes :: 0 <= j < |es| && NamedFor(other, host, port, 0) ==> !t(es[j], other));
    FormsAreNames(host, port, f, name);
    forall g, j | 0 <= g < |forms| && 0 <= j < |es| && Before(g, j, f, i)
      ensures !t(es[j], forms[g])
    {
      FormsAreNames(host, port, g, forms[g]);
    }
    assert FirstAt(t, es, forms, f, i);
  }

  lemma NoneMeans(t: Test, es: seq<Entry>, host: bytes, port: int)
    ensures NoneNamed(t, es, host, port) <==> NoneBefore(t, es, Forms(host, port), |Forms(host, port)|, 0)
  {
    hide NamedFor;
    var forms := Forms(host, port);
    if NoneNamed(t, es, host, port) {
      forall g, j | 0 <= g < |forms| && 0 <= j < |es|
        ensures !t(es[j], forms[g])
      {
        FormsAreNames(host, port, g, forms[g]);
      }
    }
    if NoneBefore(t, es, forms, |forms|, 0) {
      forall j, f: nat, name: bytes | 0 <= j < |es| && NamedFor(name, host, port, f)
        ensures !t(es[j], name)
      {
        FormsAreNames(host, port, f, name);
        assert Before(f, j, |forms|, 0);
      }
    }
  }

  function Holding(hmac: Hmac, q: Query): Test {
    (e: Entry, name: bytes) => Holds(hmac, e, q, name)
  }

  function Concerning(hmac: Hmac, q: Query): Test {
    (e: Entry, name: bytes) => Concerns(hmac, e, q, name)
  }

  /** What a check says, stated outright. It is a match with an entry if and only if that is the first to hold the key
      for a name of the host; a mismatch that names an entry, if and only if no entry holds the key and that is the
      first to concern a name of the host; and nothing is found if and only if no entry concerns any. */
  lemma VerdictIff(hmac: Hmac, q: Query, es: seq<Entry>, host: bytes, port: int, v: Verdict, i: nat)
    requires Decides(Agreeing(hmac, q), Relevance(hmac, q), es, Forms(host, port), v)
    ensures v == Match(i) <==> FirstNamed(Holding(hmac, q), es, host, port, i)
    ensures v == Mismatch(Some(i)) <==>
            NoneNamed(Holding(hmac, q), es, host, port) && FirstNamed(Concerning(hmac, q), es, host, port, i)
    ensures v == NotFound <==> NoneNamed(Concerning(hmac, q), es, host, port)
  {
    var holding, concerning, forms := Holding(hmac, q), Concerning(hmac, q), Forms(host, port);
    SameTests(hmac, q, es, forms, v);
    NoneMeans(holding, es, host, port);
    NoneMeans(concerning, es, host, port);
    FirstNamedIff(holding, es, host, port, i);
    FirstNamedIff(concerning, es, host, port, i);
    VerdictIs(holding, concerning, es, forms, v, i);
    assert forall e: Entry, name: bytes :: holding(e, name) ==> concerning(e, name);
  }

  lemma FirstNamedIff(t: Test, es: seq<Entry>, host: bytes, port: int, i: nat)
    ensures FirstNamed(t, es, host, port, i) <==> exists f :: FirstAt(t, es, Forms(host, port), f, i)
  {
    hide FirstAt, FirstNamed;
    forall f | FirstAt(t, es, Forms(host, port), f, i)
      ensures FirstNamed(t, es, host, port, i)
    {
      FirstMeans(t, es, host, port, f, i);
    }
    if FirstNamed(t, es, host, port, i) {
      MeansFirst(t, es, host, port, i);
    }
  }

  lemma SameFirst(t: Test, u: Test, es: seq<Entry>, forms: seq<bytes>, f: nat, i: nat)
    requires forall e: Entry, name: bytes :: t(e, name) == u(e, name)
    ensures NoneBefore(t, es, forms, f, i) == NoneBefore(u, es, forms, f, i)
    ensures FirstAt(t, es, forms, f, i) == FirstAt(u, es, forms, f, i)
  {
    assert NoneBefore(t, es, forms, f, i) == NoneBefore(u, es, forms, f, i);
  }

  lemma SameTests(hmac: Hmac, q: Query, es: seq<Entry>, forms: seq<bytes>, v: Verdict)
    requires Decides(Agreeing(hmac, q), Relevance(hmac, q), es, forms, v)
    ensures Decides(Holding(hmac, q), Concerning(hmac, q), es, forms, v)
  {
    hide NoneBefore, FirstAt;
    var agrees, relevant := Agreeing(hmac, q), Relevance(hmac, q);
    var holding, concerning := Holding(hmac, q), Concerning(hmac, q);
    assert forall e: Entry, name: bytes :: agrees(e, name) == holding(e, name) && relevant(e, name) == concerning(e, name);
    SameFirst(agrees, holding, es, forms, |forms|, 0);
    SameFirst(relevant, concerning, es, forms, |forms|, 0);
    forall f: nat, i: nat
      ensures FirstAt(agrees, es, forms, f, i) == FirstAt(holding, es, forms, f, i)
      ensures FirstAt(relevant, es, forms, f, i) == FirstAt(concerning, es, forms, f, i)
    {
      SameFirst(agrees, holding, es, forms, f, i);
      SameFirst(relevant, concerning, es, forms, f, i);
    }
  }

  /** Each verdict, in terms of the forms. */
  lemma VerdictIs(agrees: Test, relevant: Test, es: seq<Entry>, forms: seq<bytes>, v: Verdict, i: nat)
    requires Decides(agrees, relevant, es, forms, v) && forall e: Entry, name: bytes :: agrees(e, name) ==> relevant(e, name)
    ensures v == Match(i) <==> exists f :: FirstAt(agrees, es, forms, f, i)
    ensures v == Mismatch(Some(i)) <==> NoneBefore(agrees, es, forms, |forms|, 0) && exists f :: FirstAt(relevant, es, forms, f, i)
    ensures v == NotFound <==> NoneBefore(relevant, es, forms, |forms|, 0)
  {
  }

  // ---- The code ----

  /** The position after the blanks that begin at `i`. */
  method SkipBlanks(b: bytes, i: nat) returns (j: nat)
    requires i <= |b|
    ensures j == i + Blanks(b[i..]) && b[j..] == b[i..][Blanks(b[i..])..]
  {
    j := i;
    while j < |b| && (b[j] == SPACE || b[j] == TAB)
      invariant i <= j <= |b| && j + Blanks(b[j..]) == i + Blanks(b[i..])
    {
      assert b[j..][1..] == b[j + 1..];
      j := j + 1;
    }
  }

  /** The position after the word that begins at `i`. */
  method SkipWord(b: bytes, i: nat) returns (j: nat)
    requires i <= |b|
    ensures j == i + Word(b[i..]) && b[j..] == b[i..][Word(b[i..])..] && b[i..j] == b[i..][..Word(b[i..])]
  {
    j := i;
    while j < |b| && b[j] != SPACE && b[j] != TAB
      invariant i <= j <= |b| && j + Word(b[j..]) == i + Word(b[i..])
    {
      assert b[j..][1..] == b[j + 1..];
      j := j + 1;
    }
  }

  class Hosts {
    var entries: seq<Entry>
    const cfg: Config

    constructor (cfg: Config)
      ensures entries == [] && this.cfg == cfg
    {
      this.cfg, entries := cfg, [];
    }

    /** The part of `knownhost_add` that reading a line uses. */
    method Add(host: bytes, salt: bytes, nameType: NameType, k: KeyPart) returns (rc: int)
      modifies this
      ensures if nameType != Sha1 then rc == 0 && entries == old(entries) + [EntryOf(host, [], nameType, k)]
              else if cfg.decode(host).Some? && cfg.decode(salt).Some? then
                rc == 0 && entries == old(entries) + [EntryOf(cfg.decode(host).value, cfg.decode(salt).value, Sha1, k)]
              else rc == ERROR_INVAL && entries == old(entries)
    {
      var name, plainSalt := host, [];
      if nameType == Sha1 {
        var decoded := cfg.decode(host);
        if decoded.None? {
          return ERROR_INVAL;
        }
        name := decoded.value;
        decoded := cfg.decode(salt);
        if decoded.None? {
          return ERROR_INVAL;
        }
        plainSalt := decoded.value;
      }
      entries := entries + [EntryOf(name, plainSalt, nameType, k)];
      return 0;
    }

    /** `oldstyle_hostline`: walks the list of names backwards. */
    method OldstyleHostline(host: bytes, k: KeyPart) returns (rc: int)
      requires host != []
      modifies this
      ensures Outcome(entries, rc) == AddNames(old(entries), host, k)
    {
      assert host[..|host|] == host;
      rc := WalkNames(host, k, AddNames(entries, host, k));
    }

    method WalkNames(host: bytes, k: KeyPart, ghost goal: Outcome) returns (rc: int)
      requires Walking(goal, entries, host, k, |host|, 0)
      modifies this
      ensures Outcome(entries, rc) == goal
    {
      hide AddNames, LastName, EntryOf;
      rc := 0;
      var name, namelen := |host|, 0;
      while name > 0
        invariant 0 <= name <= |host| && rc == 0
        invariant Walking(goal, entries, host, k, name, namelen)
      {
        WalkingStep(goal, entries, host, k, name, namelen);
        name, namelen := name - 1, namelen + 1;
        if name == 0 || host[name - 1] == COMMA {
          if namelen >= 255 {
            return ERROR_METHOD_NOT_SUPPORTED;
          }
          rc := Add(host[name..name + namelen], [], Plain, k);
          if name > 0 {
            namelen, name := 0, name - 1;
          }
        }
      }
    }

    /** `hashed_hostline`. */
    method HashedHostline(line: bytes, hostlen: nat, k: KeyPart) returns (rc: int)
      requires |line| >= 3 && hostlen <= |line|
      modifies this
      ensures Outcome(entries, rc) == AddHashed(cfg, old(entries), line, hostlen, k)
    {
      var salt := line[3..];
      var length := Wrap64(hostlen - 3);
      var p := 0;
      while p < |salt| && salt[p] != BAR
        invariant 0 <= p <= |salt| && p + UpTo(salt[p..], BAR) == UpTo(salt, BAR)
      {
        assert salt[p..][1..] == salt[p + 1..];
        p := p + 1;
      }
      assert p == UpTo(salt, BAR);
      if p == |salt| {
        return 0;
      }
      if p >= 31 {
        return ERROR_METHOD_NOT_SUPPORTED;
      }
      length := Wrap64(length - (p + 1));
      if length >= 255 {
        return ERROR_METHOD_NOT_SUPPORTED;
      }
      var hash := salt[p + 1..];
      rc := Add(hash[..Min(length, |hash|)], salt[..p], Sha1, k);
    }

    /** `hostline`, for a line that begins with the host. */
    method Hostline(line: bytes, hostlen: nat, key: bytes, after: bytes) returns (rc: int)
      requires hostlen <= |line| && |line| >= |key| && (key != [] ==> !Blank(key[0])) && hostlen > 0
      modifies this
      ensures Outcome(entries, rc) == AddHost(cfg, old(entries), line, hostlen, key, after)
    {
      if |key| < 20 {
        return ERROR_METHOD_NOT_SUPPORTED;
      }
      var k;
      if 48 <= key[0] <= 57 {
        k := KeyPart(Rsa1, [], key, None);
      } else {
        var n := SkipWord(key, 0);
        assert key[0..] == key;
        var at := SkipBlanks(key, n);
        var end := SkipWord(key, at);
        var comment: Option<bytes> := None;
        if end < |key| {
          var text := SkipBlanks(key, end);
          comment := Some(key[text..]);
        }
        k := KeyPart(TypeOf(key[..n], cfg.dsa), key[..n], if at == end then after else key[at..end], comment);
      }
      if hostlen > 2 && line[..3] != MARK {
        rc := OldstyleHostline(line[..hostlen], k);
      } else {
        rc := HashedHostline(line, hostlen, k);
      }
    }

    /** `libssh2_knownhost_readline`. */
    method Readline(line: Line) returns (rc: int)
      modifies this
      ensures Outcome(entries, rc) == Read(cfg, old(entries), line)
    {
      var cp := SkipBlanks(line, 0);
      assert line[0..] == line;
      if cp == |line| || line[cp] == SHARP || line[cp] == NEWLINE {
        return 0;
      }
      KeyStarts(line);
      rc := ReadEntry(line, cp);
    }

    /** A line whose host begins at `cp`. */
    method ReadEntry(line: Line, cp: nat) returns (rc: int)
      requires cp < |line| && !Blank(line[cp])
      modifies this
      ensures var p := PartsOf(line[cp..]);
              Outcome(entries, rc) == if p.key == [] && p.after == [] then Outcome(old(entries), ERROR_METHOD_NOT_SUPPORTED)
                                      else AddHost(cfg, old(entries), line[cp..], p.hostlen, p.key, p.after)
    {
      hide AddHost, PartsOf, Blanks;
      var end := SkipWord(line, cp);
      var at := SkipBlanks(line, end);
      if at == |line| {
        PartsAre(line, cp, end, at, 0);
        return ERROR_METHOD_NOT_SUPPORTED;
      }
      var keylen := |line| - at;
      if line[|line| - 1] == NEWLINE {
        keylen := keylen - 1;
      }
      KeyStarts(line[end..]);
      PartsAre(line, cp, end, at, keylen);
      rc := Hostline(line[cp..], end - cp, line[at..at + keylen], line[at + keylen..]);
    }

    /** `knownhost_writeline`. The length reported leaves out the terminating zero, which needs room too. */
    method Writeline(e: Entry, buflen: nat) returns (rc: int, buf: bytes, outlen: nat)
      ensures match WrittenType(e, cfg.dsa)
              case None => rc == ERROR_METHOD_NOT_SUPPORTED
              case Some(t) =>
                var line := Written(cfg, e, t);
                if e.nameType == Sha1 && (cfg.encode(e.name) == [] || cfg.encode(e.salt) == []) then rc == ERROR_ALLOC && buf == []
                else
                && outlen == |line|
                && if |line| < buflen then rc == 0 && buf == line else rc == ERROR_BUFFER_TOO_SMALL && buf == []
    {
      buf, outlen := [], 0;
      var t;
      match WrittenType(e, cfg.dsa) {
        case None => return ERROR_METHOD_NOT_SUPPORTED, [], 0;
        case Some(name) => t := name;
      }
      var required := |e.key|;
      if t != [] {
        required := required + |t| + 1;
      }
      if e.comment.Some? {
        required := required + |e.comment.value| + 1;
      }
      var host := e.name;
      if e.nameType == Sha1 {
        var name, salt := cfg.encode(e.name), cfg.encode(e.salt);
        if name == [] || salt == [] {
          return ERROR_ALLOC, [], 0;
        }
        required := required + |salt| + |name| + 7;
        host := MARK + (salt + ([BAR] + name));
      } else {
        required := required + |e.name| + 3;
      }
      if required <= buflen {
        buf := host + ([SPACE] + (Spaced(t) + (e.key + (WrittenComment(e) + [NEWLINE]))));
      }
      outlen := required - 1;
      rc := if required <= buflen then 0 else ERROR_BUFFER_TOO_SMALL;
    }

    /** `knownhost_check`. A key given raw is encoded first. */
    method Check(hmac: Hmac, hostp: bytes, port: int, key: bytes, raw: bool, nameType: NameType, keyType: KeyType) returns (v: Verdict)
      ensures var q := Query(nameType, keyType, if raw then cfg.encode(key) else key);
              if nameType == Sha1 then v == Mismatch(None)
              else if port >= 0 && |Bracketed(hostp, port)| >= HOST_BUFFER then v == Failure
              else if raw && q.key == [] then v == Failure
              else Decides(Agreeing(hmac, q), Relevance(hmac, q), entries, Forms(hostp, port), v)
    {
      if nameType == Sha1 {
        return Mismatch(None);
      }
      var host, numcheck := hostp, 1;
      if port >= 0 {
        host, numcheck := Bracketed(hostp, port), 2;
        if |host| >= HOST_BUFFER {
          return Failure;
        }
      }
      var wanted := key;
      if raw {
        wanted := cfg.encode(key);
        if wanted == [] {
          return Failure;
        }
      }
      v := Search(hmac, host, hostp, numcheck, Query(nameType, keyType, wanted));
    }

    /** The two passes of the search. */
    method Search(hmac: Hmac, first: bytes, hostp: bytes, numcheck: nat, q: Query) returns (v: Verdict)
      requires (numcheck == 1 && first == hostp) || numcheck == 2
      ensures Decides(Agreeing(hmac, q), Relevance(hmac, q), entries, if numcheck == 2 then [first, hostp] else [hostp], v)
    {
      ghost var forms := if numcheck == 2 then [first, hostp] else [hostp];
      ghost var agrees, relevant := Agreeing(hmac, q), Relevance(hmac, q);
      var host, left := first, numcheck;
      var badkey: Option<nat> := None;
      while left > 0
        invariant 0 <= left <= numcheck && (left > 0 ==> host == forms[numcheck - left])
        invariant NoneBefore(agrees, entries, forms, numcheck - left, 0)
        invariant BadSoFar(relevant, entries, forms, numcheck - left, 0, badkey)
      {
        var found;
        found, badkey := Pass(hmac, forms, numcheck - left, host, q, badkey);
        if found.Some? {
          return Match(found.value);
        }
        host, left := hostp, left - 1;
      }
      v := if badkey.Some? then Mismatch(badkey) else NotFound;
    }

    /** One pass over the entries. */
    method Pass(hmac: Hmac, ghost forms: seq<bytes>, ghost f: nat, host: bytes, q: Query, bad: Option<nat>)
      returns (found: Option<nat>, badkey: Option<nat>)
      requires f < |forms| && host == forms[f]
      requires NoneBefore(Agreeing(hmac, q), entries, forms, f, 0) && BadSoFar(Relevance(hmac, q), entries, forms, f, 0, bad)
      ensures match found
              case Some(i) => FirstAt(Agreeing(hmac, q), entries, forms, f, i)
              case None =>
                NoneBefore(Agreeing(hmac, q), entries, forms, f + 1, 0) && BadSoFar(Relevance(hmac, q), entries, forms, f + 1, 0, badkey)
    {
      badkey := bad;
      for i := 0 to |entries|
        invariant NoneBefore(Agreeing(hmac, q), entries, forms, f, i)
        invariant BadSoFar(Relevance(hmac, q), entries, forms, f, i, badkey)
      {
        var node := entries[i];
        var same := false;
        match node.nameType {
          case Plain => same := q.nameType == Plain && host == node.name;
          case Custom => same := q.nameType == Custom && host == node.name;
          case Sha1 =>
            if q.nameType == Plain && |node.name| == SHA1_LENGTH {
              same := hmac(node.salt, host) == node.name;
            }
        }
        if same {
          if q.keyType != Unknown && (q.keyType == NoKey || q.keyType == node.keyType) {
            if node.key == q.key {
              return Some(i), None;
            } else if badkey == None {
              assert FirstAt(Relevance(hmac, q), entries, forms, f, i);
              badkey := Some(i);
            }
          }
        }
      }
      return None, badkey;
    }
  }

  /** The first relevant entry before position (f, i), if there is one. */
  ghost predicate BadSoFar(relevant: Test, es: seq<Entry>, forms: seq<bytes>, f: nat, i: nat, badkey: Option<nat>) {
    match badkey
    case None => NoneBefore(relevant, es, forms, f, i)
    case Some(k) => exists g :: FirstAt(relevant, es, forms, g, k)
  }

  /** Where the parts of a line are. */
  lemma PartsAre(line: bytes, cp: nat, end: nat, at: nat, keylen: nat)
    requires cp <= |line| && end == cp + Word(line[cp..]) && at == end + Blanks(line[end..])
    requires keylen == |line| - at - if at < |line| && line[|line| - 1] == NEWLINE then 1 else 0
    ensures PartsOf(line[cp..]) == Parts(end - cp, line[at..at + keylen], line[at + keylen..])
  {
    hide PartsOf, Word, Blanks;
    var b, h, gap := line[cp..], end - cp, at - end;
    Drop(line, cp, h);
    Drop(line, end, gap);
    Drop(line, at, keylen);
    PartsByLength(b, h, line[end..], gap, line[at..], keylen);
  }

  lemma PartsByLength(b: bytes, h: nat, s: bytes, gap: nat, rest: bytes, n: nat)
    requires h == Word(b) && s == b[h..] && gap == Blanks(s) && rest == s[gap..]
    requires n == |rest| - if rest != [] && rest[|rest| - 1] == NEWLINE then 1 else 0
    ensures PartsOf(b) == Parts(h, rest[..n], rest[n..])
  {
  }

  lemma Drop(b: bytes, i: nat, j: nat)
    requires i + j <= |b|
    ensures b[i..][j..] == b[i + j..] && b[i..][..j] == b[i..i + j]
  {
  }

  lemma LastNameAdded(es: seq<Entry>, host: bytes, end: nat, name: nat, k: KeyPart)
    requires name < end <= |host| && LastName(host[..end]) == name
    ensures var more := es + [EntryOf(host[name..end], [], Plain, k)];
            AddNames(es, host[..end], k) ==
            if end - name >= 255 then Outcome(es, ERROR_METHOD_NOT_SUPPORTED)
            else if name == 0 then Outcome(more, 0)
            else AddNames(more, host[..name - 1], k)
  {
    assert host[..end][name..] == host[name..end];
    if name > 0 {
      assert host[..end][..name - 1] == host[..name - 1];
    }
  }

  /** With the names after position `name + namelen` added, and `namelen` octets of the next one passed,
      what is left to do leads to `goal`. */
  ghost predicate Walking(goal: Outcome, es: seq<Entry>, host: bytes, k: KeyPart, name: nat, namelen: nat) {
    && host != [] && name + namelen <= |host|
    && (if name == 0 then Outcome(es, 0) == goal
        else
          && AddNames(es, host[..name + namelen], k) == goal
          && (namelen > 0 ==> LastName(host[..name + namelen]) == LastName(host[..name])))
  }

  lemma WalkingStep(goal: Outcome, es: seq<Entry>, host: bytes, k: KeyPart, name: nat, namelen: nat)
    requires Walking(goal, es, host, k, name, namelen) && name > 0
    ensures var n, l := name - 1, namelen + 1;
            if n > 0 && host[n - 1] != COMMA then Walking(goal, es, host, k, n, l)
            else if l >= 255 then goal == Outcome(es, ERROR_METHOD_NOT_SUPPORTED)
            else
              var more := es + [EntryOf(host[n..n + l], [], Plain, k)];
              if n > 0 then Walking(goal, more, host, k, n - 1, 0) else Walking(goal, more, host, k, 0, l)
  {
    hide LastName, EntryOf;
    LastNameBack(host, name + namelen, name - 1);
    if name == 1 || host[name - 2] == COMMA {
      LastNameAdded(es, host, name + namelen, name - 1, k);
    }
  }

  /** One step back through a list of names, from `name + 1` to `name`. */
  lemma LastNameBack(host: bytes, end: nat, name: nat)
    requires name < end <= |host|
    requires name + 1 == end || LastName(host[..end]) == LastName(host[..name + 1])
    ensures if name == 0 || host[name - 1] == COMMA then LastName(host[..end]) == name
            else LastName(host[..end]) == LastName(host[..name])
  {
    assert host[..name + 1][..name] == host[..name];
  }

  /** What follows blanks does not begin with one. */
  lemma {:induction false} KeyStarts(b: bytes)
    ensures var k := b[Blanks(b)..]; k != [] ==> !Blank(k[0])
  {
    if b != [] && Blank(b[0]) {
      KeyStarts(b[1..]);
      assert b[1..][Blanks(b[1..])..] == b[Blanks(b)..];
    }
  }
}
