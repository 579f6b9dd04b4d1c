/** The vector kernels of `src/lib.rs`: four blocks at a time with SSE2 or NEON, eight with
    AVX2. A register is a sequence of four or eight 32-bit lanes, and each intrinsic is
    given its lane semantics. Every kernel writes the scalar keystream. */
module Simd {
  import opened Words
  import opened ChaCha
  import opened ChaChaCore

  type Vec = seq<u32>

  // ---- Lane-wise intrinsics (the same at every width) ----------------------

  function Broadcast(lanes: nat, w: u32): (v: Vec)
    ensures |v| == lanes
  {
    seq(lanes, _ => w)
  }

  function VAdd(a: Vec, b: Vec): (v: Vec)
    requires |a| == |b|
    ensures |v| == |a|
  {
    seq(|a|, i requires 0 <= i < |a| => Add32(a[i], b[i]))
  }

  function VXor(a: Vec, b: Vec): (v: Vec)
    requires |a| == |b|
    ensures |v| == |a|
  {
    seq(|a|, i requires 0 <= i < |a| => Xor32(a[i], b[i]))
  }

  function VOr(a: Vec, b: Vec): (v: Vec)
    requires |a| == |b|
    ensures |v| == |a|
  {
    seq(|a|, i requires 0 <= i < |a| => Or32(a[i], b[i]))
  }

  function VShl(a: Vec, n: nat): (v: Vec)
    ensures |v| == |a|
  {
    seq(|a|, i requires 0 <= i < |a| => Shl32(a[i], n))
  }

  function VShr(a: Vec, n: nat): (v: Vec)
    ensures |v| == |a|
  {
    seq(|a|, i requires 0 <= i < |a| => Shr32(a[i], n))
  }

  /** The rotate macro: shift left by `l`, shift right by `r`, or. */
  function VRotl(a: Vec, l: nat, r: nat): (v: Vec)
    ensures |v| == |a|
  {
    VOr(VShl(a, l), VShr(a, r))
  }

  lemma RotlLane(v: Vec, n: nat, k: nat)
    requires n <= 32 && k < |v|
    ensures VRotl(v, n, 32 - n)[k] == RotateLeft(v[k], n)
  {
    hide BitOr, Shl32, Shr32, RotateLeft;
    ShiftOrIsRotate(v[k], n);
  }

  // ---- The shuffle intrinsics ----------------------------------------------

  type V4 = v: Vec | |v| == 4 witness ZeroWords(4)
  type V8 = v: Vec | |v| == 8 witness ZeroWords(8)

  function MmUnpackLo32(a: V4, b: V4): V4 { [a[0], b[0], a[1], b[1]] }
  function MmUnpackHi32(a: V4, b: V4): V4 { [a[2], b[2], a[3], b[3]] }
  function MmUnpackLo64(a: V4, b: V4): V4 { [a[0], a[1], b[0], b[1]] }
  function MmUnpackHi64(a: V4, b: V4): V4 { [a[2], a[3], b[2], b[3]] }

  /** Arguments run from the highest lane to the lowest. */
  function MmSetEpi32(e3: u32, e2: u32, e1: u32, e0: u32): V4 { [e0, e1, e2, e3] }

  /** The 256-bit unpacks work on each 128-bit half by itself. */
  function Mm256UnpackLo32(a: V8, b: V8): V8 { [a[0], b[0], a[1], b[1], a[4], b[4], a[5], b[5]] }
  function Mm256UnpackHi32(a: V8, b: V8): V8 { [a[2], b[2], a[3], b[3], a[6], b[6], a[7], b[7]] }
  function Mm256UnpackLo64(a: V8, b: V8): V8 { [a[0], a[1], b[0], b[1], a[4], a[5], b[4], b[5]] }
  function Mm256UnpackHi64(a: V8, b: V8): V8 { [a[2], a[3], b[2], b[3], a[6], a[7], b[6], b[7]] }

  /** One half of `_mm256_permute2x128_si256`: two control bits choose among four halves. */
  function Half(a: V8, b: V8, control: nat): V4
    requires control < 4
  {
    if control == 0 then a[..4] else if control == 1 then a[4..]
    else if control == 2 then b[..4] else b[4..]
  }

  function Mm256Permute2x128(a: V8, b: V8, imm: nat): V8
  {
    Half(a, b, imm % 4) + Half(a, b, imm / 16 % 4)
  }

  function Mm256SetEpi32(e7: u32, e6: u32, e5: u32, e4: u32, e3: u32, e2: u32, e1: u32, e0: u32): V8
  {
    [e0, e1, e2, e3, e4, e5, e6, e7]
  }

  // ---- Registers as parallel states ----------------------------------------

  ghost predicate Lanes(x: seq<Vec>, n: nat)
  {
    |x| == 16 && forall i :: 0 <= i < 16 ==> |x[i]| == n
  }

  /** The scalar state held in lane `k` of sixteen registers. */
  ghost function LaneOf(x: seq<Vec>, n: nat, k: nat): (s: State)
    requires Lanes(x, n) && k < n
    ensures forall i :: 0 <= i < 16 ==> s[i] == x[i][k]
  {
    seq(16, i requires 0 <= i < 16 => x[i][k])
  }

  /** The quarter-round macro on whole registers. */
  function QrVec(a: Vec, b: Vec, c: Vec, d: Vec): (Vec, Vec, Vec, Vec)
    requires |a| == |b| == |c| == |d|
  {
    var a := VAdd(a, b);
    var d := VRotl(VXor(d, a), 16, 16);
    var c := VAdd(c, d);
    var b := VRotl(VXor(b, c), 12, 20);
    var a := VAdd(a, b);
    var d := VRotl(VXor(d, a), 8, 24);
    var c := VAdd(c, d);
    var b := VRotl(VXor(b, c), 7, 25);
    (a, b, c, d)
  }

  /** Each lane of the vector quarter round is the scalar one. */
  lemma QrVecLane(a: Vec, b: Vec, c: Vec, d: Vec, k: nat)
    requires |a| == |b| == |c| == |d| && k < |a|
    ensures var v := QrVec(a, b, c, d);
            |v.0| == |v.1| == |v.2| == |v.3| == |a|
            && (v.0[k], v.1[k], v.2[k], v.3[k]) == Qr(a[k], b[k], c[k], d[k])
  {
    hide Add32, Xor32, Or32, Shl32, Shr32, RotateLeft;
    var a1 := VAdd(a, b);
    RotlLane(VXor(d, a1), 16, k);
    var d1 := VRotl(VXor(d, a1), 16, 16);
    var c1 := VAdd(c, d1);
    RotlLane(VXor(b, c1), 12, k);
    var b1 := VRotl(VXor(b, c1), 12, 20);
    var a2 := VAdd(a1, b1);
    RotlLane(VXor(d1, a2), 8, k);
    var d2 := VRotl(VXor(d1, a2), 8, 24);
    var c2 := VAdd(c1, d2);
    RotlLane(VXor(b1, c2), 7, k);
  }

  /** The `qr128`, `qr256` and `qrq` macros. */
  method QrLanes(x: array<Vec>, ghost n: nat, a: nat, b: nat, c: nat, d: nat)
    requires x.Length == 16 && Lanes(x[..], n) && Distinct(a, b, c, d)
    modifies x
    ensures Lanes(x[..], n)
    ensures forall k :: 0 <= k < n ==> LaneOf(x[..], n, k) == QuarterAt(LaneOf(old(x[..]), n, k), a, b, c, d)
  {
    hide VAdd, VXor, VRotl, Qr;
    ghost var was := x[..];
    ghost var v := QrVec(x[a], x[b], x[c], x[d]);
    x[a] := VAdd(x[a], x[b]);
    x[d] := VRotl(VXor(x[d], x[a]), 16, 16);
    x[c] := VAdd(x[c], x[d]);
    x[b] := VRotl(VXor(x[b], x[c]), 12, 20);
    x[a] := VAdd(x[a], x[b]);
    x[d] := VRotl(VXor(x[d], x[a]), 8, 24);
    x[c] := VAdd(x[c], x[d]);
    x[b] := VRotl(VXor(x[b], x[c]), 7, 25);
    assert (x[a], x[b], x[c], x[d]) == v;
    forall k | 0 <= k < n
      ensures LaneOf(x[..], n, k) == QuarterAt(LaneOf(was, n, k), a, b, c, d)
    {
      QrVecLane(was[a], was[b], was[c], was[d], k);
    }
  }

  /** Every lane has gone through the first `m` quarter rounds. */
  ghost predicate LanesRan(x: seq<Vec>, t: seq<Vec>, n: nat, m: nat)
    requires m <= 8
  {
    && Lanes(x, n) && Lanes(t, n)
    && forall k :: 0 <= k < n ==> LaneOf(x, n, k) == RunQuarters(LaneOf(t, n, k), m)
  }

  method ColumnLanes(x: array<Vec>, ghost n: nat)
    requires x.Length == 16 && Lanes(x[..], n)
    modifies x
    ensures LanesRan(x[..], old(x[..]), n, 4)
  {
    hide QuarterAt, LaneOf;
    ghost var t := x[..];
    assert LanesRan(x[..], t, n, 0);
    QrLanes(x, n, 0, 4, 8, 12);
    assert LanesRan(x[..], t, n, 1);
    QrLanes(x, n, 1, 5, 9, 13);
    assert LanesRan(x[..], t, n, 2);
    QrLanes(x, n, 2, 6, 10, 14);
    assert LanesRan(x[..], t, n, 3);
    QrLanes(x, n, 3, 7, 11, 15);
  }

  method DiagonalLanes(x: array<Vec>, ghost n: nat, ghost t: seq<Vec>)
    requires x.Length == 16 && LanesRan(x[..], t, n, 4)
    modifies x
    ensures LanesRan(x[..], t, n, 8)
  {
    hide QuarterAt, LaneOf;
    QrLanes(x, n, 0, 5, 10, 15);
    assert LanesRan(x[..], t, n, 5);
    QrLanes(x, n, 1, 6, 11, 12);
    assert LanesRan(x[..], t, n, 6);
    QrLanes(x, n, 2, 7, 8, 13);
    assert LanesRan(x[..], t, n, 7);
    QrLanes(x, n, 3, 4, 9, 14);
  }

  /** The ten double rounds every kernel runs. */
  method RoundsLanes(x: array<Vec>, ghost n: nat)
    requires x.Length == 16 && Lanes(x[..], n)
    modifies x
    ensures Lanes(x[..], n)
    ensures forall k :: 0 <= k < n ==> LaneOf(x[..], n, k) == Rounds(LaneOf(old(x[..]), n, k), 10)
  {
    hide RunQuarters, LaneOf;
    for r := 0 to 10
      invariant Lanes(x[..], n)
      invariant forall k :: 0 <= k < n ==> LaneOf(x[..], n, k) == Rounds(LaneOf(old(x[..]), n, k), r)
    {
      ghost var t := x[..];
      ColumnLanes(x, n);
      DiagonalLanes(x, n, t);
    }
  }

  // ---- Transposes ------------------------------------------------------------

  /** Column `c` of a block of rows. */
  function Column(rows: seq<Vec>, c: nat): (v: Vec)
    requires forall r :: 0 <= r < |rows| ==> c < |rows[r]|
    ensures |v| == |rows|
    ensures forall r :: 0 <= r < |rows| ==> v[r] == rows[r][c]
  {
    seq(|rows|, r requires 0 <= r < |rows| => rows[r][c])
  }

  method Transpose4x4(m: array<Vec>, o: nat)
    requires o + 4 <= m.Length && forall i :: o <= i < o + 4 ==> |m[i]| == 4
    modifies m
    ensures var rows := old(m[o..o + 4]);
            && m[o] == Column(rows, 0) && m[o + 1] == Column(rows, 1)
            && m[o + 2] == Column(rows, 2) && m[o + 3] == Column(rows, 3)
    ensures forall i :: 0 <= i < m.Length && !(o <= i < o + 4) ==> m[i] == old(m[i])
  {
    ghost var rows := m[o..o + 4];
    var t0 := MmUnpackLo32(m[o], m[o + 1]);
    var t1 := MmUnpackHi32(m[o], m[o + 1]);
    var t2 := MmUnpackLo32(m[o + 2], m[o + 3]);
    var t3 := MmUnpackHi32(m[o + 2], m[o + 3]);
    m[o] := MmUnpackLo64(t0, t2);
    m[o + 1] := MmUnpackHi64(t0, t2);
    m[o + 2] := MmUnpackLo64(t1, t3);
    m[o + 3] := MmUnpackHi64(t1, t3);
    assert m[o] == Column(rows, 0);
    assert m[o + 1] == Column(rows, 1);
    assert m[o + 2] == Column(rows, 2);
    assert m[o + 3] == Column(rows, 3);
  }

  /** The two unpack stages of the 8x8 network on four rows: each result holds two columns. */
  method Unpack4Rows(m0: V8, m1: V8, m2: V8, m3: V8) returns (s0: V8, s1: V8, s2: V8, s3: V8)
    ensures s0 == TwoColumns(m0, m1, m2, m3, 0)
    ensures s1 == TwoColumns(m0, m1, m2, m3, 1)
    ensures s2 == TwoColumns(m0, m1, m2, m3, 2)
    ensures s3 == TwoColumns(m0, m1, m2, m3, 3)
  {
    var t0 := Mm256UnpackLo32(m0, m1);
    var t1 := Mm256UnpackHi32(m0, m1);
    var t2 := Mm256UnpackLo32(m2, m3);
    var t3 := Mm256UnpackHi32(m2, m3);
    s0 := Mm256UnpackLo64(t0, t2);
    s1 := Mm256UnpackHi64(t0, t2);
    s2 := Mm256UnpackLo64(t1, t3);
    s3 := Mm256UnpackHi64(t1, t3);
  }

  method Transpose8x8(m: array<Vec>, o: nat)
    requires o + 8 <= m.Length && forall i :: o <= i < o + 8 ==> |m[i]| == 8
    modifies m
    ensures var rows := old(m[o..o + 8]);
            && m[o] == Column(rows, 0) && m[o + 1] == Column(rows, 1)
            && m[o + 2] == Column(rows, 2) && m[o + 3] == Column(rows, 3)
            && m[o + 4] == Column(rows, 4) && m[o + 5] == Column(rows, 5)
            && m[o + 6] == Column(rows, 6) && m[o + 7] == Column(rows, 7)
    ensures forall i :: 0 <= i < m.Length && !(o <= i < o + 8) ==> m[i] == old(m[i])
  {
    hide Mm256Permute2x128, Column, TwoColumns;
    ghost var rows := m[o..o + 8];
    var s0, s1, s2, s3 := Unpack4Rows(m[o], m[o + 1], m[o + 2], m[o + 3]);
    var s4, s5, s6, s7 := Unpack4Rows(m[o + 4], m[o + 5], m[o + 6], m[o + 7]);
    PermuteColumns(rows, 0, s0, s4);
    PermuteColumns(rows, 1, s1, s5);
    PermuteColumns(rows, 2, s2, s6);
    PermuteColumns(rows, 3, s3, s7);

    var t: seq<Vec> := [
      Mm256Permute2x128(s0, s4, 0x20), Mm256Permute2x128(s1, s5, 0x20),
      Mm256Permute2x128(s2, s6, 0x20), Mm256Permute2x128(s3, s7, 0x20),
      Mm256Permute2x128(s0, s4, 0x31), Mm256Permute2x128(s1, s5, 0x31),
      Mm256Permute2x128(s2, s6, 0x31), Mm256Permute2x128(s3, s7, 0x31)];
    forall i | o <= i < o + 8 {
      m[i] := t[i - o];
    }
  }

  function TwoColumns(r0: V8, r1: V8, r2: V8, r3: V8, c: nat): V8
    requires c < 4
  {
    [r0[c], r1[c], r2[c], r3[c], r0[c + 4], r1[c + 4], r2[c + 4], r3[c + 4]]
  }

  /** The permutes join the halves into whole columns. */
  lemma PermuteColumns(rows: seq<Vec>, c: nat, upper: V8, lower: V8)
    requires |rows| == 8 && (forall r :: 0 <= r < 8 ==> |rows[r]| == 8) && c < 4
    requires upper == TwoColumns(rows[0], rows[1], rows[2], rows[3], c)
    requires lower == TwoColumns(rows[4], rows[5], rows[6], rows[7], c)
    ensures Mm256Permute2x128(upper, lower, 0x20) == Column(rows, c)
    ensures Mm256Permute2x128(upper, lower, 0x31) == Column(rows, c + 4)
  {
  }

  // ---- Feed-forward, stores and the kernels ---------------------------------

  method ChaCha20StateWords(key: Key, counter: u32, nonce: Nonce12, out: array<u32>)
    requires out.Length == 16
    modifies out
    ensures out[..] == InitialState(key, counter, nonce)
  {
    hide Le32;
    LoadKeyAndConstants(out, key);
    out[12] := counter;
    for i := 0 to 3
      invariant out[..12] == CHACHA_CONST + WordsOf(key) && out[12] == counter
      invariant forall j :: 0 <= j < i ==> out[13 + j] == WordsOf(nonce)[j]
    {
      out[13 + i] := Le32(nonce[4 * i..4 * i + 4]);
    }
    assert out[..] == InitialState(key, counter, nonce);
  }

  /** Sixteen registers hold, lane by lane, the initial states of consecutive blocks. */
  ghost predicate Initial(x: seq<Vec>, n: nat, key: Key, counter: u32, nonce: Nonce12)
  {
    && n <= 8
    && Lanes(x, n)
    && forall k :: 0 <= k < n ==> LaneOf(x, n, k) == InitialState(key, Add32(counter, k), nonce)
  }

  /** Sixteen registers hold, lane by lane, the output words of consecutive blocks. */
  ghost predicate Finished(x: seq<Vec>, n: nat, key: Key, counter: u32, nonce: Nonce12)
  {
    && n <= 8
    && Lanes(x, n)
    && forall k :: 0 <= k < n ==> LaneOf(x, n, k) == BlockWords(key, Add32(counter, k), nonce)
  }

  /** Broadcast the state words and put the lane counters in word 12. */
  method LoadLanes(s: array<u32>, counters: Vec, x: array<Vec>,
                   ghost key: Key, ghost counter: u32, ghost nonce: Nonce12)
    requires s.Length == 16 && x.Length == 16 && |counters| <= 8
    requires s[..] == InitialState(key, counter, nonce)
    requires forall k :: 0 <= k < |counters| ==> counters[k] == Add32(counter, k)
    modifies x
    ensures Initial(x[..], |counters|, key, counter, nonce) && x[12] == counters
    ensures forall i :: 0 <= i < 16 && i != 12 ==> x[i] == Broadcast(|counters|, s[i])
  {
    hide WordsOf;
    ghost var n := |counters|;
    for i := 0 to 16
      invariant forall j :: 0 <= j < i ==> x[j] == Broadcast(n, s[j])
    {
      x[i] := Broadcast(|counters|, s[i]);
    }
    x[12] := counters;
    forall k | 0 <= k < n
      ensures LaneOf(x[..], n, k) == InitialState(key, Add32(counter, k), nonce)
    {
      assert s[..] == InitialState(key, counter, nonce);
      assert forall i :: 0 <= i < 16 && i != 12 ==> x[i][k] == s[i];
    }
  }

  /** Adding the initial registers after the rounds finishes every lane's block. */
  lemma FeedForwardLanes(start: seq<Vec>, end: seq<Vec>, sum: seq<Vec>, n: nat,
                         key: Key, counter: u32, nonce: Nonce12)
    requires Initial(start, n, key, counter, nonce) && Lanes(end, n)
    requires forall k :: 0 <= k < n ==> LaneOf(end, n, k) == Rounds(LaneOf(start, n, k), 10)
    requires |sum| == 16 && forall i :: 0 <= i < 16 ==> sum[i] == VAdd(end[i], start[i])
    ensures Finished(sum, n, key, counter, nonce)
  {
    hide Rounds, InitialState, Add32;
    forall k | 0 <= k < n
      ensures LaneOf(sum, n, k) == BlockWords(key, Add32(counter, k), nonce)
    {
      var s, e := LaneOf(start, n, k), LaneOf(end, n, k);
      assert LaneOf(sum, n, k) == FeedForward(e, s);
    }
  }

  /** An unaligned vector store, low lane first, each lane little-endian. */
  method StoreU(out: array<u8>, o: nat, v: Vec)
    requires o + 4 * |v| <= out.Length
    modifies out
    ensures out[o..o + 4 * |v|] == BytesOf(v)
    ensures forall i :: 0 <= i < out.Length && !(o <= i < o + 4 * |v|) ==> out[i] == old(out[i])
  {
    hide LeByte;
    var b := BytesOf(v);
    forall i | o <= i < o + 4 * |v| {
      out[i] := b[i - o];
    }
  }

  /** Byte `4p + i` of block `k` is the keystream byte at its place. */
  lemma BlockByteIsKeystream(key: Key, counter: u32, nonce: Nonce12, k: nat, b: nat)
    requires b < 64
    ensures KeystreamByte(key, counter, nonce, 64 * k + b)
            == BytesOf(BlockWords(key, (counter + k) % 0x1_0000_0000, nonce))[b]
  {
    hide BlockWords, BytesOf;
    assert (64 * k + b) / 64 == k && (64 * k + b) % 64 == b;
  }

  /** Bytes of a run of words are a run of the bytes of all the words. */
  lemma BytesOfRun(w: seq<u32>, p: nat, n: nat)
    requires p + n <= |w|
    ensures BytesOf(w[p..p + n]) == BytesOf(w)[4 * p..4 * p + 4 * n]
  {
    hide LeByte;
    var part, whole := BytesOf(w[p..p + n]), BytesOf(w);
    forall i | 0 <= i < |part| ensures part[i] == whole[4 * p + i] {
      assert (4 * p + i) / 4 == p + i / 4 && (4 * p + i) % 4 == i % 4;
    }
  }

  /** A run of words of block `k` is a run of keystream bytes. */
  lemma WordsAreKeystream(key: Key, counter: u32, nonce: Nonce12, total: nat, k: nat, v: Vec, p: nat)
    requires p + |v| <= 16 && 64 * (k + 1) <= total && k < 8
    requires v == BlockWords(key, Add32(counter, k), nonce)[p..p + |v|]
    ensures BytesOf(v) == Keystream(key, counter, nonce, total)[64 * k + 4 * p..64 * k + 4 * p + 4 * |v|]
  {
    hide BlockWords, BytesOf, KeystreamByte;
    var w := BlockWords(key, Add32(counter, k), nonce);
    BytesOfRun(w, p, |v|);
    forall i | 0 <= i < 4 * |v|
      ensures BytesOf(v)[i] == Keystream(key, counter, nonce, total)[64 * k + 4 * p + i]
    {
      BlockByteIsKeystream(key, counter, nonce, k, 4 * p + i);
    }
  }

  /** The feed-forward of the four-lane kernels, from a saved copy of the initial registers. */
  method AddSavedCopy(x: array<Vec>, orig: array<Vec>, ghost n: nat,
                      ghost key: Key, ghost counter: u32, ghost nonce: Nonce12)
    requires x.Length == 16 && orig.Length == 16 && x != orig
    requires Initial(orig[..], n, key, counter, nonce) && Lanes(x[..], n)
    requires forall k :: 0 <= k < n ==> LaneOf(x[..], n, k) == Rounds(LaneOf(orig[..], n, k), 10)
    modifies x
    ensures Finished(x[..], n, key, counter, nonce)
  {
    hide VAdd, Rounds, InitialState, BlockWords;
    ghost var end := x[..];
    for i := 0 to 16
      invariant forall j :: 0 <= j < i ==> x[j] == VAdd(end[j], orig[j])
      invariant forall j :: i <= j < 16 ==> x[j] == end[j]
    {
      x[i] := VAdd(x[i], orig[i]);
    }
    FeedForwardLanes(orig[..], end, x[..], n, key, counter, nonce);
  }

  /** The feed-forward of the eight-lane kernel: the initial registers are broadcast again from
      the scalar words, except word 12, whose lanes differ. */
  method AddRebroadcast(x: array<Vec>, s: array<u32>, ctrVec: Vec, ghost start: seq<Vec>, ghost n: nat,
                        ghost key: Key, ghost counter: u32, ghost nonce: Nonce12)
    requires x.Length == 16 && s.Length == 16 && |ctrVec| == n
    requires Initial(start, n, key, counter, nonce) && Lanes(x[..], n)
    requires start[12] == ctrVec && forall i :: 0 <= i < 16 && i != 12 ==> start[i] == Broadcast(n, s[i])
    requires forall k :: 0 <= k < n ==> LaneOf(x[..], n, k) == Rounds(LaneOf(start, n, k), 10)
    modifies x
    ensures Finished(x[..], n, key, counter, nonce)
  {
    hide VAdd, Rounds, InitialState, BlockWords;
    ghost var end := x[..];
    for i := 0 to 16
      invariant forall j :: 0 <= j < i ==> x[j] == VAdd(end[j], start[j])
      invariant forall j :: i <= j < 16 ==> x[j] == end[j]
    {
      var init := if i == 12 then ctrVec else Broadcast(|ctrVec|, s[i]);
      x[i] := VAdd(x[i], init);
    }
    FeedForwardLanes(start, end, x[..], n, key, counter, nonce);
  }

  /** One store extends the finished prefix of the output. */
  lemma StoreExtends(out: seq<u8>, target: seq<u8>, o: nat, n: nat)
    requires o + n <= |out| == |target|
    requires out[..o] == target[..o] && out[o..o + n] == target[o..o + n]
    ensures out[..o + n] == target[..o + n]
  {
    assert out[..o + n] == out[..o] + out[o..o + n];
    assert target[..o + n] == target[..o] + target[o..o + n];
  }

  /** Registers `o..o + n` hold words `o..o + n` of blocks `0..n`, one block each. */
  ghost predicate Transposed(x: seq<Vec>, w: seq<Vec>, n: nat, o: nat)
    requires |x| == 16 && Lanes(w, n) && o + n <= 16
  {
    forall m :: o <= m < o + n ==> x[m] == LaneOf(w, n, m - o)[o..o + n]
  }

  /** Columns of a block of rows are runs of lanes. */
  lemma ColumnsAreLanes(x: seq<Vec>, w: seq<Vec>, n: nat, o: nat)
    requires |x| == 16 && Lanes(w, n) && o + n <= 16
    requires forall m :: o <= m < o + n ==> x[m] == Column(w[o..o + n], m - o)
    ensures Transposed(x, w, n, o)
  {
  }

  method TransposeGroup4(x: array<Vec>, o: nat, ghost w: seq<Vec>)
    requires x.Length == 16 && o + 4 <= 16 && Lanes(w, 4) && x[o..o + 4] == w[o..o + 4]
    modifies x
    ensures Transposed(x[..], w, 4, o)
    ensures forall i :: 0 <= i < 16 && !(o <= i < o + 4) ==> x[i] == old(x[i])
  {
    hide Column, LaneOf, Transposed;
    assert forall i :: o <= i < o + 4 ==> x[i] == x[o..o + 4][i - o] == w[i];
    Transpose4x4(x, o);
    ColumnsAreLanes(x[..], w, 4, o);
  }

  /** The four 4x4 transposes of the SSE2 kernel. */
  method TransposeFour(x: array<Vec>)
    requires x.Length == 16 && Lanes(x[..], 4)
    modifies x
    ensures forall i :: 0 <= i < 4 ==> Transposed(x[..], old(x[..]), 4, 4 * i)
  {
    hide LaneOf;
    ghost var w := x[..];
    TransposeGroup4(x, 0, w);
    TransposeGroup4(x, 4, w);
    TransposeGroup4(x, 8, w);
    TransposeGroup4(x, 12, w);
    assert Transposed(x[..], w, 4, 4 * 0) && Transposed(x[..], w, 4, 4 * 1);
    assert Transposed(x[..], w, 4, 4 * 2) && Transposed(x[..], w, 4, 4 * 3);
  }

  method StoreFour(x: array<Vec>, out: array<u8>,
                   ghost w: seq<Vec>, ghost key: Key, ghost counter: u32, ghost nonce: Nonce12)
    requires x.Length == 16 && out.Length == 256
    requires Finished(w, 4, key, counter, nonce)
    requires forall i :: 0 <= i < 4 ==> Transposed(x[..], w, 4, 4 * i)
    modifies out
    ensures out[..] == Keystream(key, counter, nonce, 256)
  {
    hide BytesOf, BlockWords, Keystream, LaneOf;
    ghost var target := Keystream(key, counter, nonce, 256);
    for j := 0 to 4
      invariant out[..64 * j] == target[..64 * j]
    {
      for i := 0 to 4
        invariant out[..64 * j + 16 * i] == target[..64 * j + 16 * i]
      {
        var v, o := x[4 * i + j], 64 * j + 16 * i;
        assert Transposed(x[..], w, 4, 4 * i);
        WordsAreKeystream(key, counter, nonce, 256, j, v, 4 * i);
        StoreU(out, o, v);
        assert out[..o] == target[..o] && out[o..o + 16] == BytesOf(v);
        StoreExtends(out[..], target, o, 16);
      }
    }
    assert out[..256] == out[..] && target[..256] == target;
  }

  /** SSE2: four blocks. */
  method Blocks4(key: Key, counter: u32, nonce: Nonce12, out: array<u8>)
    requires out.Length == 256
    modifies out
    ensures out[..] == Keystream(key, counter, nonce, 256)
  {
    hide Rounds, InitialState, BlockWords, Keystream;
    var s := new u32[16](_ => 0);
    ChaCha20StateWords(key, counter, nonce, s);
    var x := new Vec[16](_ => []);
    var counters := MmSetEpi32(Add32(counter, 3), Add32(counter, 2), Add32(counter, 1), counter);
    LoadLanes(s, counters, x, key, counter, nonce);
    var orig := new Vec[16](i requires 0 <= i < 16 reads x => x[i]);
    assert orig[..] == x[..];
    RoundsLanes(x, 4);
    AddSavedCopy(x, orig, 4, key, counter, nonce);
    ghost var w := x[..];
    TransposeFour(x);
    StoreFour(x, out, w, key, counter, nonce);
  }

  method TransposeGroup8(x: array<Vec>, o: nat, ghost w: seq<Vec>)
    requires x.Length == 16 && o + 8 <= 16 && Lanes(w, 8) && x[o..o + 8] == w[o..o + 8]
    modifies x
    ensures Transposed(x[..], w, 8, o)
    ensures forall i :: 0 <= i < 16 && !(o <= i < o + 8) ==> x[i] == old(x[i])
  {
    hide Column, LaneOf, Transposed;
    assert forall i :: o <= i < o + 8 ==> x[i] == x[o..o + 8][i - o] == w[i];
    Transpose8x8(x, o);
    ColumnsAreLanes(x[..], w, 8, o);
  }

  /** The two 8x8 transposes of the AVX2 kernel. */
  method TransposeEight(x: array<Vec>)
    requires x.Length == 16 && Lanes(x[..], 8)
    modifies x
    ensures Transposed(x[..], old(x[..]), 8, 0) && Transposed(x[..], old(x[..]), 8, 8)
  {
    hide LaneOf;
    ghost var w := x[..];
    TransposeGroup8(x, 0, w);
    TransposeGroup8(x, 8, w);
  }

  method StoreEight(x: array<Vec>, out: array<u8>,
                    ghost w: seq<Vec>, ghost key: Key, ghost counter: u32, ghost nonce: Nonce12)
    requires x.Length == 16 && out.Length == 512
    requires Finished(w, 8, key, counter, nonce)
    requires Transposed(x[..], w, 8, 0) && Transposed(x[..], w, 8, 8)
    modifies out
    ensures out[..] == Keystream(key, counter, nonce, 512)
  {
    hide BytesOf, BlockWords, Keystream, LaneOf;
    ghost var target := Keystream(key, counter, nonce, 512);
    for k := 0 to 8
      invariant out[..64 * k] == target[..64 * k]
    {
      var lo, hi := x[k], x[8 + k];
      WordsAreKeystream(key, counter, nonce, 512, k, lo, 0);
      WordsAreKeystream(key, counter, nonce, 512, k, hi, 8);
      StoreU(out, 64 * k, lo);
      StoreExtends(out[..], target, 64 * k, 32);
      StoreU(out, 64 * k + 32, hi);
      StoreExtends(out[..], target, 64 * k + 32, 32);
    }
    assert out[..512] == out[..] && target[..512] == target;
  }

  /** AVX2: eight blocks. */
  method Blocks8(key: Key, counter: u32, nonce: Nonce12, out: array<u8>)
    requires out.Length == 512
    modifies out
    ensures out[..] == Keystream(key, counter, nonce, 512)
  {
    hide Rounds, InitialState, BlockWords, Keystream;
    var s := new u32[16](_ => 0);
    ChaCha20StateWords(key, counter, nonce, s);
    var x := new Vec[16](_ => []);
    var counters := Mm256SetEpi32(Add32(counter, 7), Add32(counter, 6), Add32(counter, 5), Add32(counter, 4),
                                  Add32(counter, 3), Add32(counter, 2), Add32(counter, 1), counter);
    LoadLanes(s, counters, x, key, counter, nonce);
    var ctrVec := x[12];
    ghost var start := x[..];
    RoundsLanes(x, 8);
    AddRebroadcast(x, s, ctrVec, start, 8, key, counter, nonce);
    ghost var w := x[..];
    TransposeEight(x);
    StoreEight(x, out, w, key, counter, nonce);
  }

  /** The NEON kernel's scalar transpose: word `i` of block `j`, four bytes at a time. */
  method StoreScalar(x: array<Vec>, out: array<u8>, ghost key: Key, ghost counter: u32, ghost nonce: Nonce12)
    requires x.Length == 16 && out.Length == 256
    requires Finished(x[..], 4, key, counter, nonce)
    modifies out
    ensures out[..] == Keystream(key, counter, nonce, 256)
  {
    hide BytesOf, BlockWords, Keystream;
    ghost var w := x[..];
    ghost var target := Keystream(key, counter, nonce, 256);
    for j := 0 to 4
      invariant out[..64 * j] == target[..64 * j]
    {
      for i := 0 to 16
        invariant out[..64 * j + 4 * i] == target[..64 * j + 4 * i]
      {
        assert [w[i][j]] == LaneOf(w, 4, j)[i..i + 1];
        WordsAreKeystream(key, counter, nonce, 256, j, [w[i][j]], i);
        StoreU(out, 64 * j + 4 * i, [x[i][j]]);
        StoreExtends(out[..], target, 64 * j + 4 * i, 4);
      }
    }
    assert out[..256] == out[..] && target[..256] == target;
  }

  /** NEON: four blocks, with a scalar transpose instead of a shuffle network. */
  method Blocks4Neon(key: Key, counter: u32, nonce: Nonce12, out: array<u8>)
    requires out.Length == 256
    modifies out
    ensures out[..] == Keystream(key, counter, nonce, 256)
  {
    hide Rounds, InitialState, BlockWords, Keystream;
    var s := new u32[16](_ => 0);
    ChaCha20StateWords(key, counter, nonce, s);
    var x := new Vec[16](_ => []);
    var counters := [counter, Add32(counter, 1), Add32(counter, 2), Add32(counter, 3)];
    LoadLanes(s, counters, x, key, counter, nonce);
    var orig := new Vec[16](i requires 0 <= i < 16 reads x => x[i]);
    assert orig[..] == x[..];
    RoundsLanes(x, 4);
    AddSavedCopy(x, orig, 4, key, counter, nonce);
    StoreScalar(x, out, key, counter, nonce);
  }
}
