/** The position-sensitive hash model of `src/proofs.rs`, which the formal harnesses put in place
    of keyed BLAKE3. What they check on small fixed sizes is proved here for every length and
    every position: editing one byte of any field moves exactly one byte of the tag. */
module FoldModel {
  import opened Words
  import opened ChaCha
  import opened Bits
  import opened Siv

  // ---- The model -----------------------------------------------------------------

  function RotateLeft8(x: u8, n: nat): u8
    requires n < 8
  {
    Rotate8Bound(x, n);
    (x % Pow2(8 - n)) * Pow2(n) + x / Pow2(8 - n)
  }

  lemma Rotate8Split(x: u8, n: nat)
    requires n < 8
    ensures Pow2(n) * Pow2(8 - n) == 0x100
    ensures 0 <= x / Pow2(8 - n) < Pow2(n)
  {
    Pow2Add(n, 8 - n);
    Pow2At32();
    QuotientBound(x, Pow2(n), Pow2(8 - n));
  }

  lemma Rotate8Bound(x: u8, n: nat)
    requires n < 8
    ensures 0 <= (x % Pow2(8 - n)) * Pow2(n) + x / Pow2(8 - n) < 0x100
  {
    Rotate8Split(x, n);
    ScaledRemainder(x, Pow2(n), Pow2(8 - n));
  }

  /** `fold_byte`: add the position, then rotate by it. */
  function FoldByte(b: u8, position: nat): u8
  {
    RotateLeft8((b + position % 0x100) % 0x100, position % 8)
  }

  lemma Rotate8Injective(x: u8, y: u8, n: nat)
    requires n < 8
    ensures RotateLeft8(x, n) == RotateLeft8(y, n) <==> x == y
  {
    Rotate8Split(x, n);
    RotateParts(x, Pow2(n), Pow2(8 - n));
    RotateParts(y, Pow2(n), Pow2(8 - n));
  }

  lemma ShiftInjective(a: u8, b: u8, p: u8)
    ensures (a + p) % 0x100 == (b + p) % 0x100 <==> a == b
  {
  }

  /** At a fixed position the fold loses nothing. */
  lemma FoldByteInjective(a: u8, b: u8, position: nat)
    ensures FoldByte(a, position) == FoldByte(b, position) <==> a == b
  {
    hide RotateLeft8;
    var p := position % 0x100;
    Rotate8Injective((a + p) % 0x100, (b + p) % 0x100, position % 8);
    ShiftInjective(a, b, p);
  }

  lemma Rotate8Bit(x: u8, n: nat, k: nat)
    requires n < 8 && k < 8
    ensures Bit(RotateLeft8(x, n), (k + n) % 8) == Bit(x, k)
  {
    hide Pow2, Bit;
    Rotate8Split(x, n);
    var q := Pow2(8 - n);
    ExchangeBit(x / q, x % q, n, 8, k);
    assert x == (x / q) * q + x % q;
  }

  /** The fold bit by bit: bit `k` of the sum of byte and position moves up by the position. */
  lemma FoldByteBit(b: u8, position: nat, k: nat)
    requires k < 8
    ensures Bit(FoldByte(b, position), (k + position) % 8) == Bit((b + position) % 0x100, k)
  {
    hide RotateLeft8, Bit;
    ReduceFirst(b, position, 0x100);
    ReduceFirst(k, position, 8);
    Rotate8Bit((b + position) % 0x100, position % 8, k);
  }

  lemma ReduceFirst(a: nat, p: nat, m: nat)
    requires m >= 1
    ensures (a + p % m) % m == (a + p) % m
  {
    var s := a + p % m;
    Euclid(p, m);
    Euclid(s, m);
    SumRemainder(a + p, p / m, s / m, s % m, m);
  }

  lemma SumRemainder(x: nat, q: nat, d: nat, e: nat, m: nat)
    requires e < m && x == q * m + (d * m + e)
    ensures x % m == e
  {
    assert (q + d) * m == q * m + d * m;
    DivModOfSum(q + d, e, m);
  }

  /** Two positions fold all bytes alike exactly if they are equal modulo 256. */
  lemma FoldByteSeparates(p: nat, q: nat)
    ensures (forall b: u8 :: FoldByte(b, p) == FoldByte(b, q)) <==> p % 0x100 == q % 0x100
  {
    if p % 0x100 == q % 0x100 {
      PositionsAlike(p, q);
    } else {
      var b, c := Negated(p % 0x100), Negated(q % 0x100);
      FoldsToZero(b, p);
      FoldsToZero(c, q);
      FoldByteInjective(b, c, q);
      hide FoldByte;
      assert FoldByte(b, p) != FoldByte(b, q);
    }
  }

  /** The byte that adds up to zero with `p`. */
  function Negated(p: u8): u8
  {
    if p == 0 then 0 else 0x100 - p
  }

  lemma PositionsAlike(p: nat, q: nat)
    requires p % 0x100 == q % 0x100
    ensures forall b: u8 :: FoldByte(b, p) == FoldByte(b, q)
  {
    hide RotateLeft8;
    LowPlaces(p);
    LowPlaces(q);
  }

  lemma LowPlaces(p: nat)
    ensures p % 0x100 % 8 == p % 8
  {
    var q := p / 0x100;
    assert p == (32 * q) * 8 + p % 0x100;
  }

  lemma FoldsToZero(b: u8, position: nat)
    requires b == Negated(position % 0x100)
    ensures FoldByte(b, position) == 0
  {
    hide Pow2;
    Rotate8Split(0, position % 8);
    DivModOfSum(0, 0, Pow2(8 - position % 8));
  }

  /** Accumulator slot `j` after the first `n` bytes of the stream. */
  function Slot(stream: seq<u8>, n: nat, outLen: nat, j: nat): u8
    requires n <= |stream| && outLen > 0
    decreases n
  {
    if n == 0 then 0
    else
      var before := Slot(stream, n - 1, outLen, j);
      if (n - 1) % outLen == j then Xor8(before, FoldByte(stream[n - 1], n - 1)) else before
  }

  function LengthByte(n: nat, i: nat): u8
  {
    if i < 8 then LeBytes(n % 0x1_0000_0000_0000_0000, 8)[i] else 0
  }

  /** The bytes mixed in are the digits of the length to base 256, lowest first. */
  lemma LengthByteAt(n: u64, i: nat)
    ensures LengthByte(n, i) == if i < 8 then n / Pow2(8 * i) % 0x100 else 0
  {
    hide LeBytes, Pow2;
    assert n % 0x1_0000_0000_0000_0000 == n;
    if i < 8 {
      LeBytesAt(n, 8, i);
    }
  }

  /** Byte `i` of the model's `n`-byte output: the fold of key and input, with the input length
      mixed into the first eight bytes. */
  function ModelHashByte(key: Key, input: seq<u8>, n: nat, i: nat): u8
  {
    if n == 0 then 0
    else Xor8(Slot(key + input, |key + input|, n, i), LengthByte(|input|, i))
  }

  function Model(): Primitives
  {
    Primitives(ModelHashByte, KeystreamByte, HChaChaKey)
  }

  // ---- The call shapes -------------------------------------------------------------

  /** The lengths a head encodes. */
  function HeadLengths(head: seq<u8>): (nat, nat)
    requires |head| >= HEAD_LEN
  {
    (FromLeBytes(head[32..40]), FromLeBytes(head[40..48]))
  }

  /** Every assertion the model makes about how it is called. */
  predicate CallShape(parts: seq<seq<u8>>, outLen: nat)
  {
    if |parts| == 3 then
      && outLen == 32
      && |parts[0]| == HEAD_LEN && parts[0][..8] == DOM_PRE
      && HeadLengths(parts[0]) == (|parts[1]|, |parts[2]|)
    else
      && |parts| == 1 && |parts[0]| >= 8
      && if parts[0][..8] == DOM_ENC then |parts[0]| == 8 + TAG_LEN && outLen == 44
         else if parts[0][..8] == DOM_TAG then |parts[0]| == 8 + 32 && outLen == TAG_LEN
         else
           && parts[0][..8] == DOM_PRE && |parts[0]| >= HEAD_LEN && outLen == 32
           && var (a, m) := HeadLengths(parts[0]);
              HEAD_LEN + a + m < 0x1_0000_0000_0000_0000 && |parts[0]| == HEAD_LEN + a + m
  }

  lemma ThreePartShape(nonce: Nonce, aad: seq<u8>, msg: seq<u8>)
    requires |aad| < 0x1_0000_0000_0000_0000 && |msg| < 0x1_0000_0000_0000_0000
    ensures CallShape([Head(nonce, |aad|, |msg|), aad, msg], 32)
  {
    hide LeBytes;
    var h := Head(nonce, |aad|, |msg|);
    assert h[..8] == DOM_PRE && h[32..40] == LeBytes(|aad|, 8) && h[40..48] == LeBytes(|msg|, 8);
    LengthRoundTrip(|aad|);
    LengthRoundTrip(|msg|);
  }

  lemma OnePartShape(nonce: Nonce, aad: seq<u8>, msg: seq<u8>)
    requires HEAD_LEN + |aad| + |msg| < 0x1_0000_0000_0000_0000
    ensures CallShape([InnerInput(nonce, aad, msg)], 32)
  {
    hide LeBytes, InnerInput;
    var i := InnerInput(nonce, aad, msg);
    HeadFields(nonce, aad, msg);
    assert DOM_PRE[5] != DOM_TAG[5] && DOM_PRE[5] != DOM_ENC[5];
    LengthRoundTrip(|aad|);
    LengthRoundTrip(|msg|);
  }

  lemma OuterShape(inner: Key)
    ensures CallShape([DOM_TAG + inner], TAG_LEN)
  {
    assert (DOM_TAG + inner)[..8] == DOM_TAG && DOM_TAG[5] != DOM_ENC[5];
  }

  lemma EncShape(tag: Tag)
    ensures CallShape([DOM_ENC + tag], 44)
  {
    assert (DOM_ENC + tag)[..8] == DOM_ENC;
  }

  /** A call of the construction: the inner hash in three parts or one, the outer hash, or the derivation. */
  ghost predicate ConstructionCall(parts: seq<seq<u8>>, outLen: nat)
  {
    || (outLen == 32 && InnerInThree(parts))
    || (outLen == 32 && InnerInOne(parts))
    || (outLen == 65 && exists inner: Key :: parts == [DOM_TAG + inner])
    || (outLen == 44 && exists tag: Tag :: parts == [DOM_ENC + tag])
  }

  ghost predicate InnerInThree(parts: seq<seq<u8>>)
  {
    exists nonce: Nonce, aad: seq<u8>, msg: seq<u8> ::
      && |aad| < 0x1_0000_0000_0000_0000 && |msg| < 0x1_0000_0000_0000_0000
      && parts == [Head(nonce, |aad|, |msg|), aad, msg]
  }

  ghost predicate InnerInOne(parts: seq<seq<u8>>)
  {
    exists nonce: Nonce, aad: seq<u8>, msg: seq<u8> ::
      48 + |aad| + |msg| < 0x1_0000_0000_0000_0000 && parts == [InnerInput(nonce, aad, msg)]
  }

  /** The model's assertions hold of exactly the calls the construction makes. */
  lemma ShapeExact(parts: seq<seq<u8>>, outLen: nat)
    ensures CallShape(parts, outLen) <==> ConstructionCall(parts, outLen)
  {
    if CallShape(parts, outLen) {
      ShapeIsCall(parts, outLen);
    }
    if ConstructionCall(parts, outLen) {
      CallHasShape(parts, outLen);
    }
  }

  lemma CallHasShape(parts: seq<seq<u8>>, outLen: nat)
    requires ConstructionCall(parts, outLen)
    ensures CallShape(parts, outLen)
  {
    hide CallShape, Head, InnerInput;
    if outLen == 32 && InnerInThree(parts) {
      var nonce: Nonce, aad: seq<u8>, msg: seq<u8> :|
        && |aad| < 0x1_0000_0000_0000_0000 && |msg| < 0x1_0000_0000_0000_0000
        && parts == [Head(nonce, |aad|, |msg|), aad, msg];
      ThreePartShape(nonce, aad, msg);
    } else if outLen == 32 {
      var nonce: Nonce, aad: seq<u8>, msg: seq<u8> :|
        48 + |aad| + |msg| < 0x1_0000_0000_0000_0000 && parts == [InnerInput(nonce, aad, msg)];
      OnePartShape(nonce, aad, msg);
    } else if outLen == 65 {
      var inner: Key :| parts == [DOM_TAG + inner];
      OuterShape(inner);
    } else {
      var tag: Tag :| parts == [DOM_ENC + tag];
      EncShape(tag);
    }
  }

  lemma ShapeIsCall(parts: seq<seq<u8>>, outLen: nat)
    requires CallShape(parts, outLen)
    ensures ConstructionCall(parts, outLen)
  {
    hide HeadLengths, Head, InnerInput;
    var first := parts[0];
    assert first == first[..8] + first[8..];
    if |parts| == 3 {
      HeadRebuilt(first);
      var nonce: Nonce := first[8..32];
      assert Head(nonce, |parts[1]|, |parts[2]|) == first[..48] == first;
      assert parts == [Head(nonce, |parts[1]|, |parts[2]|), parts[1], parts[2]];
    } else if first[..8] == DOM_ENC {
      var tag: Tag := first[8..];
      assert parts == [DOM_ENC + tag];
    } else if first[..8] == DOM_TAG {
      var inner: Key := first[8..];
      assert parts == [DOM_TAG + inner];
    } else {
      InnerRebuilt(first);
      var nonce: Nonce, a := first[8..32], HeadLengths(first).0;
      assert parts == [InnerInput(nonce, first[48..48 + a], first[48 + a..])];
    }
  }

  /** A head is the one for the nonce and lengths it carries. */
  lemma HeadRebuilt(head: seq<u8>)
    requires |head| >= 48 && head[..8] == DOM_PRE
    ensures var (a, m) := HeadLengths(head);
            && a < 0x1_0000_0000_0000_0000 && m < 0x1_0000_0000_0000_0000
            && Head(head[8..32], a, m) == head[..48]
  {
    hide LeBytes, FromLeBytes, Pow2;
    FromLeBytesRoundTrip(head[32..40]);
    FromLeBytesRoundTrip(head[40..48]);
    FromLeBytesBound(head[32..40]);
    FromLeBytesBound(head[40..48]);
    Pow2At32();
    Pow2Add(32, 32);
    assert head[..48] == head[..8] + head[8..32] + head[32..40] + head[40..48];
  }

  lemma InnerRebuilt(input: seq<u8>)
    requires |input| >= 48 && input[..8] == DOM_PRE
    requires var (a, m) := HeadLengths(input); |input| == 48 + a + m
    ensures var (a, m) := HeadLengths(input);
            input == InnerInput(input[8..32], input[48..48 + a], input[48 + a..])
  {
    HeadRebuilt(input);
    hide HeadLengths, Head;
    var (a, m) := HeadLengths(input);
    assert input == input[..48] + input[48..48 + a] + input[48 + a..];
  }

  // ---- The model as the harnesses run it ----------------------------------------------

  /** One byte folded into the accumulator. */
  method FoldInto(acc: array<u8>, ghost stream: seq<u8>, b: u8, n: nat, outLen: nat)
    requires 0 < outLen <= acc.Length && n < |stream| && stream[n] == b
    requires forall j :: 0 <= j < outLen ==> acc[j] == Slot(stream, n, outLen, j)
    modifies acc
    ensures forall j :: 0 <= j < outLen ==> acc[j] == Slot(stream, n + 1, outLen, j)
  {
    hide FoldByte, Xor8;
    acc[n % outLen] := Xor8(acc[n % outLen], FoldByte(b, n));
  }

  /** A run of bytes folded into the accumulator. */
  method FoldRun(acc: array<u8>, ghost stream: seq<u8>, run: seq<u8>, start: nat, outLen: nat)
    requires 0 < outLen <= acc.Length && start + |run| <= |stream| && stream[start..start + |run|] == run
    requires forall j :: 0 <= j < outLen ==> acc[j] == Slot(stream, start, outLen, j)
    modifies acc
    ensures forall j :: 0 <= j < outLen ==> acc[j] == Slot(stream, start + |run|, outLen, j)
  {
    hide Slot;
    for b := 0 to |run|
      invariant forall j :: 0 <= j < outLen ==> acc[j] == Slot(stream, start + b, outLen, j)
    {
      assert stream[start + b] == stream[start..start + |run|][b] == run[b];
      FoldInto(acc, stream, run[b], start + b, outLen);
    }
  }

  /** The total input length, as a wrapping 64-bit sum. */
  method TotalLength(parts: seq<seq<u8>>) returns (total: u64)
    ensures total == |Concat(parts)| % 0x1_0000_0000_0000_0000
  {
    hide Concat;
    ConcatNothing();
    total := 0;
    assert parts[..|parts|] == parts && parts[..0] == [];
    for p := 0 to |parts|
      invariant total == |Concat(parts[..p])| % 0x1_0000_0000_0000_0000
    {
      ConcatAt(parts, p);
      total := (total + |parts[p]|) % 0x1_0000_0000_0000_0000;
    }
  }

  method ModelBlake3KeyedMulti(key: Key, parts: seq<seq<u8>>, out: array<u8>)
    requires CallShape(parts, out.Length)
    modifies out
    ensures out[..] == Hash(Model(), key, Concat(parts), out.Length)
  {
    hide CallShape, Slot, LengthByte, BitXor, Concat;
    var outLen := out.Length;
    assert 0 < outLen <= TAG_LEN by { ShapeWidths(parts, outLen); }
    var acc := new u8[TAG_LEN](_ => 0);
    ghost var input := Concat(parts);
    ghost var stream := key + input;
    forall j | 0 <= j < outLen ensures acc[j] == Slot(stream, 0, outLen, j) { SlotZero(stream, outLen, j); }
    FoldRun(acc, stream, key, 0, outLen);
    var n := |key|;
    assert parts[..|parts|] == parts;
    assert Concat(parts[..0]) == [] by { ConcatNothing(); assert parts[..0] == []; }
    for p := 0 to |parts|
      invariant n == |key| + |Concat(parts[..p])| <= |stream|
      invariant forall j :: 0 <= j < outLen ==> acc[j] == Slot(stream, n, outLen, j)
    {
      ConcatAt(parts, p);
      assert stream[n..n + |parts[p]|] == parts[p];
      FoldRun(acc, stream, parts[p], n, outLen);
      n := n + |parts[p]|;
    }
    var total := TotalLength(parts);
    LengthByteWraps(|input|);
    assert n == |stream|;
    for i := 0 to outLen
      invariant forall j :: 0 <= j < i ==> out[j] == ModelHashByte(key, input, outLen, j)
      modifies out
    {
      var l := LengthByte(total, i);
      out[i] := Xor8(acc[i], l);
    }
  }

  lemma ConcatNothing()
    ensures Concat([]) == []
  {
  }

  lemma LengthByteWraps(n: nat)
    ensures forall i: nat :: LengthByte(n % 0x1_0000_0000_0000_0000, i) == LengthByte(n, i)
  {
    hide LeBytes;
  }

  lemma ShapeWidths(parts: seq<seq<u8>>, outLen: nat)
    requires CallShape(parts, outLen)
    ensures 0 < outLen <= TAG_LEN
  {
  }

  lemma SlotZero(stream: seq<u8>, outLen: nat, j: nat)
    requires outLen > 0
    ensures Slot(stream, 0, outLen, j) == 0
  {
  }

  /** Where part `p` lies in the concatenation. */
  lemma {:induction false} ConcatAt(parts: seq<seq<u8>>, p: nat)
    requires p < |parts|
    ensures Concat(parts[..p + 1]) == Concat(parts[..p]) + parts[p]
    ensures |Concat(parts[..p])| + |parts[p]| <= |Concat(parts)|
    ensures forall b :: 0 <= b < |parts[p]| ==> Concat(parts)[|Concat(parts[..p])| + b] == parts[p][b]
    decreases |parts|
  {
    assert parts[..p + 1][..p] == parts[..p];
    if p + 1 == |parts| {
      assert parts[..p + 1] == parts;
    } else {
      var init := parts[..|parts| - 1];
      ConcatAt(init, p);
      assert init[..p] == parts[..p] && init[..p + 1] == parts[..p + 1];
      forall b | 0 <= b < |parts[p]|
        ensures Concat(parts)[|Concat(parts[..p])| + b] == parts[p][b]
      {
        assert Concat(parts)[|Concat(parts[..p])| + b] == Concat(init)[|Concat(init[..p])| + b];
      }
    }
  }

  // ---- One edit in, one edit out ----------------------------------------------------------

  /** The two strings have the same length and differ at `pos` and nowhere else. */
  ghost predicate DifferOnlyAt(a: seq<u8>, b: seq<u8>, pos: nat)
  {
    && |a| == |b| && pos < |a| && a[pos] != b[pos]
    && forall i :: 0 <= i < |a| && i != pos ==> a[i] == b[i]
  }

  lemma {:induction false} SlotEdit(s: seq<u8>, t: seq<u8>, pos: nat, n: nat, outLen: nat, j: nat)
    requires DifferOnlyAt(s, t, pos) && n <= |s| && outLen > 0
    ensures Slot(s, n, outLen, j) != Slot(t, n, outLen, j) <==> pos < n && j == pos % outLen
    decreases n
  {
    hide FoldByte;
    if n != 0 {
      SlotEdit(s, t, pos, n - 1, outLen, j);
      var x, y := Slot(s, n - 1, outLen, j), Slot(t, n - 1, outLen, j);
      var a, b := FoldByte(s[n - 1], n - 1), FoldByte(t[n - 1], n - 1);
      FoldByteInjective(s[n - 1], t[n - 1], n - 1);
      hide BitXor;
      XorInjective(x, a, b);
      XorCommutes(x, a);
      XorCommutes(y, a);
      XorInjective(a, x, y);
    }
  }

  /** Editing one byte of key-then-input edits one output byte of the model, the one the
      position folds into. */
  lemma ModelEdit(k1: Key, i1: seq<u8>, k2: Key, i2: seq<u8>, pos: nat, n: nat)
    requires |i1| == |i2| && n > 0 && DifferOnlyAt(k1 + i1, k2 + i2, pos)
    ensures DifferOnlyAt(Hash(Model(), k1, i1, n), Hash(Model(), k2, i2, n), pos % n)
  {
    hide Slot, BitXor, LengthByte;
    var h1, h2 := Hash(Model(), k1, i1, n), Hash(Model(), k2, i2, n);
    forall j | 0 <= j < n ensures h1[j] != h2[j] <==> j == pos % n {
      var x, y := Slot(k1 + i1, |k1 + i1|, n, j), Slot(k2 + i2, |k2 + i2|, n, j);
      SlotEdit(k1 + i1, k2 + i2, pos, |k1 + i1|, n, j);
      var l := LengthByte(|i1|, j);
      XorCommutes(l, x);
      XorCommutes(l, y);
      XorInjective(l, x, y);
    }
  }

  /** Everything the tag depends on, as one string. */
  function TagFields(kIn: Key, kOut: Key, nonce: Nonce, aad: seq<u8>, msg: seq<u8>): seq<u8>
  {
    kIn + kOut + nonce + aad + msg
  }

  /** The tag byte that a position in those fields moves. */
  function TagPosition(pos: nat): nat
  {
    if pos < 32 then (40 + pos) % TAG_LEN
    else if pos < 64 then pos - 32
    else if pos < 88 then (40 + (pos - 24) % 32) % TAG_LEN
    else (40 + (pos - 8) % 32) % TAG_LEN
  }

  /** Editing exactly one byte, anywhere in the two keys, the nonce, the associated data or the
      message, moves exactly one byte of the model's tag. */
  lemma OneEditMovesOneTagByte(kIn1: Key, kOut1: Key, n1: Nonce, a1: seq<u8>, m1: seq<u8>,
                               kIn2: Key, kOut2: Key, n2: Nonce, a2: seq<u8>, m2: seq<u8>, pos: nat)
    requires |a1| == |a2| && |m1| == |m2|
    requires DifferOnlyAt(TagFields(kIn1, kOut1, n1, a1, m1), TagFields(kIn2, kOut2, n2, a2, m2), pos)
    ensures DifferOnlyAt(TagOf(Model(), kIn1, kOut1, n1, a1, m1),
                         TagOf(Model(), kIn2, kOut2, n2, a2, m2), TagPosition(pos))
  {
    hide Hash, LeBytes;
    var t1, t2 := TagFields(kIn1, kOut1, n1, a1, m1), TagFields(kIn2, kOut2, n2, a2, m2);
    FieldsAt(kIn1, kOut1, n1, a1, m1);
    FieldsAt(kIn2, kOut2, n2, a2, m2);
    var i1, i2 := InnerInput(n1, a1, m1), InnerInput(n2, a2, m2);
    var x1, x2 := Hash(Model(), kIn1, i1, 32), Hash(Model(), kIn2, i2, 32);
    InnerStreamAt(kIn1, n1, a1, m1);
    InnerStreamAt(kIn2, n2, a2, m2);
    if 32 <= pos < 64 {
      StreamsEqual(kIn1, kOut1, n1, a1, m1, kIn2, kOut2, n2, a2, m2, pos);
      assert kIn1 == (kIn1 + i1)[..32] && kIn2 == (kIn2 + i2)[..32];
      assert i1 == (kIn1 + i1)[32..] && i2 == (kIn2 + i2)[32..];
      OuterKeyEdit(kOut1, kOut2, x1, pos - 32);
    } else {
      var inner := if pos < 32 then pos else if pos < 88 then pos - 24 else pos - 8;
      StreamsDiffer(kIn1, kOut1, n1, a1, m1, kIn2, kOut2, n2, a2, m2, pos, inner);
      ModelEdit(kIn1, i1, kIn2, i2, inner, 32);
      assert kOut1 == kOut2;
      OuterInputEdit(kOut1, x1, x2, inner % 32);
    }
  }

  lemma OuterKeyEdit(k1: Key, k2: Key, x: Key, pos: nat)
    requires DifferOnlyAt(k1, k2, pos)
    ensures DifferOnlyAt(Hash(Model(), k1, DOM_TAG + x, TAG_LEN), Hash(Model(), k2, DOM_TAG + x, TAG_LEN), pos)
  {
    hide Hash;
    ModelEdit(k1, DOM_TAG + x, k2, DOM_TAG + x, pos, TAG_LEN);
  }

  lemma OuterInputEdit(k: Key, x1: Key, x2: Key, pos: nat)
    requires DifferOnlyAt(x1, x2, pos)
    ensures DifferOnlyAt(Hash(Model(), k, DOM_TAG + x1, TAG_LEN), Hash(Model(), k, DOM_TAG + x2, TAG_LEN),
                         (40 + pos) % TAG_LEN)
  {
    hide Hash;
    ModelEdit(k, DOM_TAG + x1, k, DOM_TAG + x2, 40 + pos, TAG_LEN);
  }

  lemma FieldsAt(kIn: Key, kOut: Key, nonce: Nonce, aad: seq<u8>, msg: seq<u8>)
    ensures var t := TagFields(kIn, kOut, nonce, aad, msg);
            && |t| == 88 + |aad| + |msg|
            && (forall i :: 0 <= i < 32 ==> t[i] == kIn[i])
            && (forall i :: 32 <= i < 64 ==> t[i] == kOut[i - 32])
            && (forall i :: 64 <= i < 88 ==> t[i] == nonce[i - 64])
            && (forall i :: 88 <= i < |t| ==> t[i] == (aad + msg)[i - 88])
  {
  }

  /** The stream the inner hash folds: key, domain, nonce, the two lengths, data. */
  lemma InnerStreamAt(kIn: Key, nonce: Nonce, aad: seq<u8>, msg: seq<u8>)
    ensures var s := kIn + InnerInput(nonce, aad, msg);
            && |s| == 80 + |aad| + |msg|
            && (forall i :: 0 <= i < 32 ==> s[i] == kIn[i])
            && (forall i :: 32 <= i < 40 ==> s[i] == DOM_PRE[i - 32])
            && (forall i :: 40 <= i < 64 ==> s[i] == nonce[i - 40])
            && (forall i :: 64 <= i < 80 ==> s[i] == Lengths(|aad|, |msg|)[i - 64])
            && (forall i :: 80 <= i < |s| ==> s[i] == (aad + msg)[i - 80])
  {
    hide LeBytes;
  }

  function Lengths(a: nat, m: nat): (l: seq<u8>)
    ensures |l| == 16
  {
    LeBytes(a % 0x1_0000_0000_0000_0000, 8) + LeBytes(m % 0x1_0000_0000_0000_0000, 8)
  }

  lemma StreamsDiffer(kIn1: Key, kOut1: Key, n1: Nonce, a1: seq<u8>, m1: seq<u8>,
                      kIn2: Key, kOut2: Key, n2: Nonce, a2: seq<u8>, m2: seq<u8>, pos: nat, inner: nat)
    requires |a1| == |a2| && |m1| == |m2| && !(32 <= pos < 64)
    requires DifferOnlyAt(TagFields(kIn1, kOut1, n1, a1, m1), TagFields(kIn2, kOut2, n2, a2, m2), pos)
    requires inner == if pos < 32 then pos else if pos < 88 then pos - 24 else pos - 8
    ensures DifferOnlyAt(kIn1 + InnerInput(n1, a1, m1), kIn2 + InnerInput(n2, a2, m2), inner)
    ensures kOut1 == kOut2
  {
    hide InnerInput, TagFields, Lengths;
    FieldsAt(kIn1, kOut1, n1, a1, m1);
    FieldsAt(kIn2, kOut2, n2, a2, m2);
    InnerStreamAt(kIn1, n1, a1, m1);
    InnerStreamAt(kIn2, n2, a2, m2);
    var t1, t2 := TagFields(kIn1, kOut1, n1, a1, m1), TagFields(kIn2, kOut2, n2, a2, m2);
    var s1, s2 := kIn1 + InnerInput(n1, a1, m1), kIn2 + InnerInput(n2, a2, m2);
    forall i | 0 <= i < |s1| ensures s1[i] != s2[i] <==> i == inner {
      if i < 32 {
        assert s1[i] == t1[i] && s2[i] == t2[i];
      } else if 40 <= i < 64 {
        assert s1[i] == t1[i + 24] && s2[i] == t2[i + 24];
      } else if 80 <= i {
        assert s1[i] == t1[i + 8] && s2[i] == t2[i + 8];
      }
    }
    forall i | 0 <= i < 32 ensures kOut1[i] == kOut2[i] {
      assert t1[i + 32] == t2[i + 32];
    }
  }

  lemma StreamsEqual(kIn1: Key, kOut1: Key, n1: Nonce, a1: seq<u8>, m1: seq<u8>,
                     kIn2: Key, kOut2: Key, n2: Nonce, a2: seq<u8>, m2: seq<u8>, pos: nat)
    requires |a1| == |a2| && |m1| == |m2| && 32 <= pos < 64
    requires DifferOnlyAt(TagFields(kIn1, kOut1, n1, a1, m1), TagFields(kIn2, kOut2, n2, a2, m2), pos)
    ensures kIn1 + InnerInput(n1, a1, m1) == kIn2 + InnerInput(n2, a2, m2)
    ensures DifferOnlyAt(kOut1, kOut2, pos - 32)
  {
    hide InnerInput, TagFields, Lengths;
    FieldsAt(kIn1, kOut1, n1, a1, m1);
    FieldsAt(kIn2, kOut2, n2, a2, m2);
    InnerStreamAt(kIn1, n1, a1, m1);
    InnerStreamAt(kIn2, n2, a2, m2);
    var t1, t2 := TagFields(kIn1, kOut1, n1, a1, m1), TagFields(kIn2, kOut2, n2, a2, m2);
    var s1, s2 := kIn1 + InnerInput(n1, a1, m1), kIn2 + InnerInput(n2, a2, m2);
    forall i | 0 <= i < |s1| ensures s1[i] == s2[i] {
      if i < 32 {
        assert s1[i] == t1[i] && s2[i] == t2[i];
      } else if 40 <= i < 64 {
        assert s1[i] == t1[i + 24] && s2[i] == t2[i + 24];
      } else if 80 <= i {
        assert s1[i] == t1[i + 8] && s2[i] == t2[i + 8];
      }
    }
    forall i | 0 <= i < 32 ensures kOut1[i] == kOut2[i] <==> i != pos - 32 {
      assert t1[i + 32] == kOut1[i] && t2[i + 32] == kOut2[i];
    }
  }

  /** Editing one byte of the encryption seed or of the tag moves exactly one of the 44 derived
      bytes, so every tag byte reaches the message key or nonce. */
  lemma OneEditMovesOneDerivedByte(seed1: Key, tag1: Tag, seed2: Key, tag2: Tag, pos: nat)
    requires DifferOnlyAt(seed1 + tag1, seed2 + tag2, pos)
    ensures var e1, e2 := EncMaterialOf(Model(), seed1, tag1), EncMaterialOf(Model(), seed2, tag2);
            DifferOnlyAt(e1.key + e1.nonce, e2.key + e2.nonce, (if pos < 32 then pos else pos + 8) % 44)
  {
    hide Hash;
    var i1, i2 := DOM_ENC + tag1, DOM_ENC + tag2;
    var inner := if pos < 32 then pos else pos + 8;
    assert DifferOnlyAt(seed1 + i1, seed2 + i2, inner) by {
      var s1, s2, t1, t2 := seed1 + i1, seed2 + i2, seed1 + tag1, seed2 + tag2;
      forall i | 0 <= i < |s1| ensures s1[i] != s2[i] <==> i == inner {
        if i < 32 {
          assert s1[i] == t1[i] && s2[i] == t2[i];
        } else if i >= 40 {
          assert s1[i] == t1[i - 8] && s2[i] == t2[i - 8];
        }
      }
    }
    ModelEdit(seed1, i1, seed2, i2, inner, 44);
    var h1, h2 := Hash(Model(), seed1, i1, 44), Hash(Model(), seed2, i2, 44);
    assert h1[0..32] + h1[32..44] == h1 && h2[0..32] + h2[32..44] == h2;
  }
}
