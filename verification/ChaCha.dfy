/** ChaCha20 (RFC 8439, sections 2.1 to 2.4) and HChaCha20 (draft-irtf-cfrg-xchacha-03,
    section 2.2) as functions on 16-word states, and the facts about them that do not
    depend on how they are computed. */
module ChaCha {
  import opened Words

  type State = s: seq<u32> | |s| == 16 witness ZeroWords(16)
  type Key = k: seq<u8> | |k| == 32 witness Zeros(32)
  type Nonce12 = n: seq<u8> | |n| == 12 witness Zeros(12)
  type Nonce16 = n: seq<u8> | |n| == 16 witness Zeros(16)
  type Quad = (u32, u32, u32, u32)

  const CHACHA_CONST: seq<u32> := [0x61707865, 0x3320646e, 0x79622d32, 0x6b206574]

  /** The four constant words are the ASCII string of RFC 8439, section 2.3. */
  lemma ConstantsAreAscii()
    ensures WordsOf(Ascii("expand 32-byte k")) == CHACHA_CONST
  {
    var text := Ascii("expand 32-byte k");
    assert text[0..4] == [0x65, 0x78, 0x70, 0x61] && text[4..8] == [0x6e, 0x64, 0x20, 0x33];
    assert text[8..12] == [0x32, 0x2d, 0x62, 0x79] && text[12..16] == [0x74, 0x65, 0x20, 0x6b];
    hide Ascii;
    var w := WordsOf(text);
    assert w[0] == Le32(text[0..4]) && w[1] == Le32(text[4..8]);
    assert w[2] == Le32(text[8..12]) && w[3] == Le32(text[12..16]);
  }

  // ---- The rounds ---------------------------------------------------------

  /** The crate's tuple-returning quarter round. */
  function Qr(a0: u32, b0: u32, c0: u32, d0: u32): Quad
  {
    var a := Add32(a0, b0);
    var d := RotateLeft(Xor32(d0, a), 16);
    var c := Add32(c0, d);
    var b := RotateLeft(Xor32(b0, c), 12);
    var a := Add32(a, b);
    var d := RotateLeft(Xor32(d, a), 8);
    var c := Add32(c, d);
    var b := RotateLeft(Xor32(b, c), 7);
    (a, b, c, d)
  }

  predicate Distinct(i: nat, j: nat, k: nat, l: nat)
  {
    i < 16 && j < 16 && k < 16 && l < 16 && i != j && i != k && i != l && j != k && j != l && k != l
  }

  /** A quarter round on four places of the state (RFC 8439, section 2.2). */
  function QuarterAt(s: State, i: nat, j: nat, k: nat, l: nat): State
    requires Distinct(i, j, k, l)
  {
    var (a, b, c, d) := Qr(s[i], s[j], s[k], s[l]);
    s[i := a][j := b][k := c][l := d]
  }

  type Quarter = q: (nat, nat, nat, nat) | Distinct(q.0, q.1, q.2, q.3) witness (0, 1, 2, 3)

  /** The quarter rounds of one double round, in order: four columns, four diagonals. */
  const DOUBLE_ROUND: seq<Quarter> := [
    (0, 4, 8, 12), (1, 5, 9, 13), (2, 6, 10, 14), (3, 7, 11, 15),
    (0, 5, 10, 15), (1, 6, 11, 12), (2, 7, 8, 13), (3, 4, 9, 14)]

  /** The first `n` quarter rounds of a double round. */
  function RunQuarters(s: State, n: nat): State
    requires n <= 8
    decreases n, |s|
  {
    if n == 0 then s
    else
      var q := DOUBLE_ROUND[n - 1];
      QuarterAt(RunQuarters(s, n - 1), q.0, q.1, q.2, q.3)
  }

  /** `n` double rounds; ChaCha20 runs ten. */
  function Rounds(s: State, n: nat): State
    decreases n, |s|
  {
    if n == 0 then s else RunQuarters(Rounds(s, n - 1), 8)
  }

  // ---- The block function and HChaCha20 ------------------------------------

  function InitialState(key: Key, counter: u32, nonce: Nonce12): State
  {
    CHACHA_CONST + WordsOf(key) + [counter] + WordsOf(nonce)
  }

  function FeedForward(s: State, t: State): State
  {
    seq(16, i requires 0 <= i < 16 => Add32(s[i], t[i]))
  }

  function BlockWords(key: Key, counter: u32, nonce: Nonce12): State
  {
    var s := InitialState(key, counter, nonce);
    FeedForward(Rounds(s, 10), s)
  }

  /** The 64-byte keystream block at one counter (RFC 8439, section 2.3). */
  function Block(key: Key, counter: u32, nonce: Nonce12): (b: seq<u8>)
    ensures |b| == 64
  {
    BytesOf(BlockWords(key, counter, nonce))
  }

  function HInitialState(key: Key, nonce: Nonce16): State
  {
    CHACHA_CONST + WordsOf(key) + WordsOf(nonce)
  }

  function HChaCha20(key: Key, nonce: Nonce16): (b: seq<u8>)
    ensures |b| == 32
  {
    var v := Rounds(HInitialState(key, nonce), 10);
    BytesOf(v[0..4] + v[12..16])
  }

  // ---- The keystream -------------------------------------------------------

  /** Byte `i` of the keystream that starts at block `counter`; the block counter wraps. */
  function KeystreamByte(key: Key, counter: u32, nonce: Nonce12, i: nat): u8
  {
    Block(key, (counter + i / 64) % 0x1_0000_0000, nonce)[i % 64]
  }

  function Keystream(key: Key, counter: u32, nonce: Nonce12, n: nat): (k: seq<u8>)
    ensures |k| == n
  {
    seq(n, i requires 0 <= i < n => KeystreamByte(key, counter, nonce, i))
  }

  /** ChaCha20 encryption: the input xored with the keystream. */
  function XorKeystream(key: Key, counter: u32, nonce: Nonce12, input: seq<u8>): (o: seq<u8>)
    ensures |o| == |input|
  {
    XorBytes(input, Keystream(key, counter, nonce, |input|))
  }

  /** Skipping a whole number of blocks is starting at a later counter. */
  lemma KeystreamAdvance(key: Key, counter: u32, nonce: Nonce12, blocks: nat, i: nat)
    ensures KeystreamByte(key, (counter + blocks) % 0x1_0000_0000, nonce, i)
            == KeystreamByte(key, counter, nonce, 64 * blocks + i)
  {
    hide Block;
    assert (64 * blocks + i) / 64 == blocks + i / 64;
    assert (64 * blocks + i) % 64 == i % 64;
    assert ((counter + blocks) % 0x1_0000_0000 + i / 64) % 0x1_0000_0000
           == (counter + (blocks + i / 64)) % 0x1_0000_0000;
  }

  // ---- The permutation is a bijection -------------------------------------

  /** The quarter round run backwards. */
  function QrInverse(q: Quad): Quad
  {
    var (a, b, c, d) := q;
    var b := Xor32(RotateRight(b, 7), c);
    var c := Sub32(c, d);
    var d := Xor32(RotateRight(d, 8), a);
    var a := Sub32(a, b);
    var b := Xor32(RotateRight(b, 12), c);
    var c := Sub32(c, d);
    var d := Xor32(RotateRight(d, 16), a);
    var a := Sub32(a, b);
    (a, b, c, d)
  }

  lemma XorRotateUndo(x: u32, y: u32, n: nat)
    requires n <= 32
    ensures Xor32(RotateRight(RotateLeft(Xor32(x, y), n), n), y) == x
    ensures RotateLeft(Xor32(Xor32(RotateRight(x, n), y), y), n) == x
  {
    RotateRoundTrip(Xor32(x, y), n);
    XorSelfInverse(x, y);
    XorSelfInverse(RotateRight(x, n), y);
    RotateRoundTripReverse(x, n);
  }

  lemma AddSubUndo(x: u32, y: u32)
    ensures Sub32(Add32(x, y), y) == x && Add32(Sub32(x, y), y) == x
  {
  }

  lemma QrUndo(a0: u32, b0: u32, c0: u32, d0: u32)
    ensures QrInverse(Qr(a0, b0, c0, d0)) == (a0, b0, c0, d0)
  {
    var a1 := Add32(a0, b0);
    var d1 := RotateLeft(Xor32(d0, a1), 16);
    var c1 := Add32(c0, d1);
    var b1 := RotateLeft(Xor32(b0, c1), 12);
    var a2 := Add32(a1, b1);
    var d2 := RotateLeft(Xor32(d1, a2), 8);
    var c2 := Add32(c1, d2);
    var b2 := RotateLeft(Xor32(b1, c2), 7);
    hide Add32, Sub32, Xor32, RotateLeft, RotateRight;
    XorRotateUndo(b1, c2, 7);
    AddSubUndo(c1, d2);
    XorRotateUndo(d1, a2, 8);
    AddSubUndo(a1, b1);
    XorRotateUndo(b0, c1, 12);
    AddSubUndo(c0, d1);
    XorRotateUndo(d0, a1, 16);
    AddSubUndo(a0, b0);
  }

  lemma QrRedo(q: Quad)
    ensures var p := QrInverse(q); Qr(p.0, p.1, p.2, p.3) == q
  {
    var (a, b, c, d) := q;
    var b1 := Xor32(RotateRight(b, 7), c);
    var c1 := Sub32(c, d);
    var d1 := Xor32(RotateRight(d, 8), a);
    var a1 := Sub32(a, b1);
    var b2 := Xor32(RotateRight(b1, 12), c1);
    var c2 := Sub32(c1, d1);
    var d2 := Xor32(RotateRight(d1, 16), a1);
    var a2 := Sub32(a1, b2);
    hide Add32, Sub32, Xor32, RotateLeft, RotateRight;
    AddSubUndo(a1, b2);
    XorRotateUndo(d1, a1, 16);
    AddSubUndo(c1, d1);
    XorRotateUndo(b1, c1, 12);
    AddSubUndo(a, b1);
    XorRotateUndo(d, a, 8);
    AddSubUndo(c, d);
    XorRotateUndo(b, c, 7);
  }

  function QuarterAtInverse(s: State, i: nat, j: nat, k: nat, l: nat): State
    requires Distinct(i, j, k, l)
  {
    var (a, b, c, d) := QrInverse((s[i], s[j], s[k], s[l]));
    s[i := a][j := b][k := c][l := d]
  }

  lemma QuarterAtUndo(s: State, i: nat, j: nat, k: nat, l: nat)
    requires Distinct(i, j, k, l)
    ensures QuarterAtInverse(QuarterAt(s, i, j, k, l), i, j, k, l) == s
    ensures QuarterAt(QuarterAtInverse(s, i, j, k, l), i, j, k, l) == s
  {
    hide Qr, QrInverse;
    QrUndo(s[i], s[j], s[k], s[l]);
    QrRedo((s[i], s[j], s[k], s[l]));
    var t := QuarterAt(s, i, j, k, l);
    assert (t[i], t[j], t[k], t[l]) == Qr(s[i], s[j], s[k], s[l]);
    assert QuarterAtInverse(t, i, j, k, l) == s;
    var u := QuarterAtInverse(s, i, j, k, l);
    assert (u[i], u[j], u[k], u[l]) == QrInverse((s[i], s[j], s[k], s[l]));
    assert QuarterAt(u, i, j, k, l) == s;
  }

  /** The first `n` quarter rounds of a double round undone, last to first. */
  function RunQuartersInverse(s: State, n: nat): State
    requires n <= 8
    decreases n, |s|
  {
    if n == 0 then s
    else
      var q := DOUBLE_ROUND[n - 1];
      RunQuartersInverse(QuarterAtInverse(s, q.0, q.1, q.2, q.3), n - 1)
  }

  lemma {:induction false} RunQuartersUndo(s: State, n: nat)
    requires n <= 8
    ensures RunQuartersInverse(RunQuarters(s, n), n) == s
    ensures RunQuarters(RunQuartersInverse(s, n), n) == s
    decreases n
  {
    hide QuarterAt, QuarterAtInverse;
    if n != 0 {
      var q := DOUBLE_ROUND[n - 1];
      QuarterAtUndo(RunQuarters(s, n - 1), q.0, q.1, q.2, q.3);
      RunQuartersUndo(s, n - 1);
      QuarterAtUndo(s, q.0, q.1, q.2, q.3);
      RunQuartersUndo(QuarterAtInverse(s, q.0, q.1, q.2, q.3), n - 1);
    }
  }

  function RoundsInverse(s: State, n: nat): State
    decreases n, |s|
  {
    if n == 0 then s else RoundsInverse(RunQuartersInverse(s, 8), n - 1)
  }

  lemma {:induction false} RoundsUndo(s: State, n: nat)
    ensures RoundsInverse(Rounds(s, n), n) == s
    ensures Rounds(RoundsInverse(s, n), n) == s
    decreases n
  {
    hide RunQuarters, RunQuartersInverse;
    if n != 0 {
      RunQuartersUndo(Rounds(s, n - 1), 8);
      RoundsUndo(s, n - 1);
      RoundsUndo(RunQuartersInverse(s, 8), n - 1);
      RunQuartersUndo(s, 8);
    }
  }

  /** The 20-round map is a bijection on 16-word states: it is injective, and every state is
      reached from the state that `RoundsInverse` gives. */
  lemma RoundsBijective(s: State, t: State)
    ensures Rounds(s, 10) == Rounds(t, 10) ==> s == t
    ensures Rounds(RoundsInverse(t, 10), 10) == t
  {
    hide Rounds, RoundsInverse;
    RoundsUndo(s, 10);
    RoundsUndo(t, 10);
  }

  // ---- HChaCha20 against the block function --------------------------------

  /** The state word that output word `i` of HChaCha20 is taken from. */
  function HOutputIndex(i: nat): nat
    requires i < 8
  {
    if i < 4 then i else i + 8
  }

  /** An HChaCha20 output word is the ChaCha20 block word at the same place, under the key,
      counter and nonce that give the same initial state, minus the initial word. */
  lemma HChaChaIsBlockMinusInput(key: Key, nonce: Nonce16, i: nat)
    requires i < 8
    ensures var w := HOutputIndex(i);
            var counter := Le32(nonce[0..4]);
            Le32(HChaCha20(key, nonce)[4 * i..4 * i + 4])
            == Sub32(Le32(Block(key, counter, nonce[4..16])[4 * w..4 * w + 4]),
                     InitialState(key, counter, nonce[4..16])[w])
  {
    hide Rounds, BytesOf;
    var w, counter := HOutputIndex(i), Le32(nonce[0..4]);
    var s := InitialState(key, counter, nonce[4..16]);
    assert HInitialState(key, nonce) == s by {
      WordsOfDrop(nonce);
      assert nonce[4..] == nonce[4..16];
      assert WordsOf(nonce) == [counter] + WordsOf(nonce[4..16]);
    }
    var v := Rounds(s, 10);
    BytesOfWord(v[0..4] + v[12..16], i);
    BytesOfWord(FeedForward(v, s), w);
    AddSubUndo(v[w], s[w]);
  }
}
