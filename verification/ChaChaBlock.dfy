/** The ChaCha20 block function: 64 octets of keystream from a state of sixteen words. */
module ChaChaBlock {
  import opened Bytes
  import opened Bits

  /** Constants, key, a 64-bit block counter in words 12 and 13, and a 64-bit nonce. */
  type State = s: seq<word> | |s| == 16 witness seq(16, _ => 0)

  type Block = b: bytes | |b| == 64 witness seq(64, _ => 0)

  /** Which words a quarter round mixes. */
  datatype Mix = Mix(i: nat, j: nat, k: nat, l: nat)

  predicate Proper(m: Mix) {
    && m.i < 16 && m.j < 16 && m.k < 16 && m.l < 16
    && m.i != m.j && m.i != m.k && m.i != m.l && m.j != m.k && m.j != m.l && m.k != m.l
  }

  type FourWords = m: Mix | Proper(m) witness Mix(0, 1, 2, 3)

  /** The quarter round of section 2.1 of RFC 8439 on four words of a state. */
  function Quarter(s: State, m: FourWords): State {
    var a := Plus(s[m.i], s[m.j]);
    var d := Rotate(XorWord(s[m.l], a), 16);
    var c := Plus(s[m.k], d);
    var b := Rotate(XorWord(s[m.j], c), 12);
    var a' := Plus(a, b);
    var d' := Rotate(XorWord(d, a'), 8);
    var c' := Plus(c, d');
    var b' := Rotate(XorWord(b, c'), 7);
    s[m.i := a'][m.j := b'][m.k := c'][m.l := d']
  }

  /** A double round mixes the columns, then the diagonals. */
  const DOUBLE_ROUND: seq<FourWords> := [
    Mix(0, 4, 8, 12), Mix(1, 5, 9, 13), Mix(2, 6, 10, 14), Mix(3, 7, 11, 15),
    Mix(0, 5, 10, 15), Mix(1, 6, 11, 12), Mix(2, 7, 8, 13), Mix(3, 4, 9, 14)
  ]

  const ROUNDS := 20

  function Mixed(s: State, mixes: seq<FourWords>): State
    decreases |mixes|, s
  {
    if mixes == [] then s else Mixed(Quarter(s, mixes[0]), mixes[1..])
  }

  /** As many rounds, two at a time, as `n` asks for. */
  function Rounds(s: State, mixes: seq<FourWords>, n: nat): State
    decreases n, s
  {
    if n < 2 then s else Rounds(Mixed(s, mixes), mixes, n - 2)
  }

  function Sum(s: State, t: State): State {
    seq(16, i requires 0 <= i < 16 => Plus(s[i], t[i]))
  }

  function KeyBlock(s: State): Block {
    Serial(Sum(Rounds(s, DOUBLE_ROUND, ROUNDS), s))
  }

  // ---- What the block function is ----

  /** One line of the quarter round in section 2.1 of RFC 8439: word `j` is added to word `i`, the sum to word `l`
      by exclusive or, and that word is rotated. */
  function Line(s: State, i: nat, j: nat, l: nat, n: nat): State
    requires i < 16 && j < 16 && l < 16
  {
    var t := s[i := Plus(s[i], s[j])];
    t[l := Rotate(XorWord(t[l], t[i]), n)]
  }

  /** The quarter round is those four lines. */
  lemma QuarterMeans(s: State, m: FourWords)
    ensures Quarter(s, m) ==
            Line(Line(Line(Line(s, m.i, m.j, m.l, 16), m.k, m.l, m.j, 12), m.i, m.j, m.l, 8), m.k, m.l, m.j, 7)
  {
    hide Plus, Rotate, XorWord;
  }

  lemma {:induction false} MixedConcat(s: State, a: seq<FourWords>, b: seq<FourWords>)
    ensures Mixed(s, a + b) == Mixed(Mixed(s, a), b)
    decreases |a|
  {
    hide Quarter;
    if a == [] {
      assert a + b == b;
    } else {
      MixedConcat(Quarter(s, a[0]), a[1..], b);
      assert (a + b)[0] == a[0] && (a + b)[1..] == a[1..] + b;
    }
  }

  /** The state as a square of four rows: column `k`, and the diagonal that begins at its top. */
  function ColumnOf(k: nat): FourWords
    requires k < 4
  {
    Mix(k, 4 + k, 8 + k, 12 + k)
  }

  function DiagonalOf(k: nat): FourWords
    requires k < 4
  {
    Mix(k, 4 + (k + 1) % 4, 8 + (k + 2) % 4, 12 + (k + 3) % 4)
  }

  /** The quarter rounds of a block, in order: the four columns and the four diagonals in turn. */
  function InTurn(i: nat): FourWords {
    if i / 4 % 2 == 0 then ColumnOf(i % 4) else DiagonalOf(i % 4)
  }

  ghost predicate InOrder(mixes: seq<FourWords>) {
    forall i :: 0 <= i < |mixes| ==> mixes[i] == InTurn(i)
  }

  lemma Repeats(i: nat)
    ensures InTurn(i + 8) == InTurn(i)
  {
    assert (i + 8) / 4 == i / 4 + 2 && (i + 8) % 4 == i % 4;
  }

  lemma DoubleRoundIsInOrder(i: nat)
    requires i < 8
    ensures DOUBLE_ROUND[i] == InTurn(i)
  {
    assert i == 0 || i == 1 || i == 2 || i == 3 || i == 4 || i == 5 || i == 6 || i == 7;
  }

  lemma FirstEight(mixes: seq<FourWords>)
    requires InOrder(mixes) && |mixes| >= 8
    ensures mixes[..8] == DOUBLE_ROUND && InOrder(mixes[8..])
  {
    hide InTurn;
    forall i | 0 <= i < 8
      ensures mixes[..8][i] == DOUBLE_ROUND[i]
    {
      DoubleRoundIsInOrder(i);
    }
    forall i | 0 <= i < |mixes| - 8
      ensures mixes[8..][i] == InTurn(i)
    {
      Repeats(i);
      assert mixes[8..][i] == mixes[i + 8];
    }
  }

  lemma {:induction false} RoundsAreMixes(s: State, mixes: seq<FourWords>, n: nat)
    requires InOrder(mixes) && |mixes| == 8 * n
    ensures Rounds(s, DOUBLE_ROUND, 2 * n) == Mixed(s, mixes)
    decreases n
  {
    hide Mixed, InOrder, DOUBLE_ROUND;
    if n == 0 {
      MixedNone(s, mixes);
    } else {
      FirstEight(mixes);
      MixedConcat(s, mixes[..8], mixes[8..]);
      assert mixes == mixes[..8] + mixes[8..];
      RoundsAreMixes(Mixed(s, mixes[..8]), mixes[8..], n - 1);
    }
  }

  lemma MixedNone(s: State, mixes: seq<FourWords>)
    requires |mixes| == 0
    ensures Mixed(s, mixes) == s
  {
  }

  /** A block is the state after eighty quarter rounds, that is twenty rounds of four columns or four diagonals in
      turn, added to the state before them. */
  lemma BlockMeans(s: State, mixes: seq<FourWords>)
    requires |mixes| == 80 && InOrder(mixes)
    ensures KeyBlock(s) == Serial(seq(16, i requires 0 <= i < 16 => Plus(Mixed(s, mixes)[i], s[i])))
  {
    hide Mixed, Serial, Rounds;
    RoundsAreMixes(s, mixes, 10);
    assert Sum(Mixed(s, mixes), s) == seq(16, i requires 0 <= i < 16 => Plus(Mixed(s, mixes)[i], s[i]));
  }

  // ---- The code ----

  method QuarterRound(x: array<word>, m: FourWords)
    requires x.Length == 16
    modifies x
    ensures x[..] == Quarter(old(x[..]), m)
  {
    var a, b, c, d := x[m.i], x[m.j], x[m.k], x[m.l];
    a := Plus(a, b);
    d := Rotate(XorWord(d, a), 16);
    c := Plus(c, d);
    b := Rotate(XorWord(b, c), 12);
    a := Plus(a, b);
    d := Rotate(XorWord(d, a), 8);
    c := Plus(c, d);
    b := Rotate(XorWord(b, c), 7);
    x[m.i], x[m.j], x[m.k], x[m.l] := a, b, c, d;
  }

  method MixWords(x: array<word>, mixes: seq<FourWords>)
    requires x.Length == 16
    modifies x
    ensures x[..] == Mixed(old(x[..]), mixes)
  {
    for i := 0 to |mixes|
      invariant Mixed(x[..], mixes[i..]) == Mixed(old(x[..]), mixes)
    {
      assert mixes[i..][1..] == mixes[i + 1..];
      QuarterRound(x, mixes[i]);
    }
  }

  method RunRounds(x: array<word>, mixes: seq<FourWords>, rounds: nat)
    requires x.Length == 16
    modifies x
    ensures x[..] == Rounds(old(x[..]), mixes, rounds)
  {
    var i := rounds;
    while i >= 2
      invariant Rounds(x[..], mixes, i) == Rounds(old(x[..]), mixes, rounds)
    {
      MixWords(x, mixes);
      i := i - 2;
    }
  }

  method AddWords(x: array<word>, j: array<word>)
    requires x.Length == 16 && j.Length == 16 && x != j
    modifies x
    ensures x[..] == Sum(old(x[..]), j[..])
  {
    for k := 0 to 16
      invariant forall n :: 0 <= n < 16 ==> x[n] == if n < k then Plus(old(x[n]), j[n]) else old(x[n])
    {
      x[k] := Plus(x[k], j[k]);
    }
  }

  /** The words of the next block of keystream. */
  method Core(j: array<word>) returns (x: array<word>)
    requires j.Length == 16
    ensures x.Length == 16 && fresh(x) && x[..] == Sum(Rounds(j[..], DOUBLE_ROUND, ROUNDS), j[..])
  {
    x := new word[16];
    for k := 0 to 16
      invariant forall n :: 0 <= n < k ==> x[n] == j[n]
    {
      x[k] := j[k];
    }
    assert x[..] == j[..];
    RunRounds(x, DOUBLE_ROUND, ROUNDS);
    AddWords(x, j);
  }
}
