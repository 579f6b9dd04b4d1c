/** Machine integers of the crate, written out over unbounded integers.

    Every width is explicit: additions wrap by `%`, shifts and rotations are the
    quotients and remainders they mean, and the bitwise operators are defined one
    bit at a time. */
module Words {

  type u8 = x: int | 0 <= x < 0x100
  type u32 = x: int | 0 <= x < 0x1_0000_0000
  type u64 = x: int | 0 <= x < 0x1_0000_0000_0000_0000

  function Pow2(n: nat): (r: nat)
    ensures r >= 1
  {
    if n == 0 then 1 else 2 * Pow2(n - 1)
  }

  lemma {:induction false} Pow2Add(m: nat, n: nat)
    ensures Pow2(m + n) == Pow2(m) * Pow2(n)
  {
    if m != 0 {
      Pow2Add(m - 1, n);
      assert Pow2(m + n) == 2 * (Pow2(m - 1) * Pow2(n)) == (2 * Pow2(m - 1)) * Pow2(n);
    }
  }

  lemma Pow2At32()
    ensures Pow2(8) == 0x100 && Pow2(16) == 0x1_0000 && Pow2(32) == 0x1_0000_0000
  {
    assert Pow2(8) == 0x100;
    Pow2Add(8, 8);
    Pow2Add(16, 16);
  }

  // ---- Bitwise operators -------------------------------------------------

  function BitXor(a: nat, b: nat): nat
    decreases a, b
  {
    if a == 0 then b else (a + b) % 2 + 2 * BitXor(a / 2, b / 2)
  }

  function BitOr(a: nat, b: nat): nat
    decreases a, b
  {
    if a == 0 then b
    else (if a % 2 == 1 || b % 2 == 1 then 1 else 0) + 2 * BitOr(a / 2, b / 2)
  }

  lemma {:induction false} XorBound(a: nat, b: nat, n: nat)
    requires a < Pow2(n) && b < Pow2(n)
    ensures BitXor(a, b) < Pow2(n)
    decreases n
  {
    if a != 0 {
      XorBound(a / 2, b / 2, n - 1);
    }
  }

  lemma {:induction false} OrBound(a: nat, b: nat, n: nat)
    requires a < Pow2(n) && b < Pow2(n)
    ensures BitOr(a, b) < Pow2(n)
    decreases n
  {
    if a != 0 {
      OrBound(a / 2, b / 2, n - 1);
    }
  }

  lemma {:induction false} XorCommutes(a: nat, b: nat)
    ensures BitXor(a, b) == BitXor(b, a)
    decreases a + b
  {
    if a != 0 || b != 0 {
      XorCommutes(a / 2, b / 2);
    }
  }

  lemma BitAndRest(bit: nat, rest: nat)
    requires bit < 2
    ensures (bit + 2 * rest) % 2 == bit && (bit + 2 * rest) / 2 == rest
  {
  }

  /** One bit of an xor, and the rest of it. */
  lemma XorParts(a: nat, b: nat)
    ensures BitXor(a, b) % 2 == (a + b) % 2
    ensures BitXor(a, b) / 2 == BitXor(a / 2, b / 2)
  {
    if a != 0 {
      var bit, rest := (a + b) % 2, BitXor(a / 2, b / 2);
      assert BitXor(a, b) == bit + 2 * rest;
      hide BitXor;
      BitAndRest(bit, rest);
    }
  }

  /** Xor with the same operand twice restores the first. */
  lemma {:induction false} XorSelfInverse(a: nat, b: nat)
    ensures BitXor(BitXor(a, b), b) == a
    decreases a + b
  {
    if a == 0 {
      XorSame(b);
    } else {
      XorParts(a, b);
      XorParts(BitXor(a, b), b);
      XorSelfInverse(a / 2, b / 2);
    }
  }

  lemma {:induction false} XorSame(a: nat)
    ensures BitXor(a, a) == 0
  {
    if a != 0 {
      XorSame(a / 2);
    }
  }

  lemma {:induction false} XorZeroIffEqual(a: nat, b: nat)
    ensures BitXor(a, b) == 0 <==> a == b
  {
    XorSame(a);
    if BitXor(a, b) == 0 {
      XorSelfInverse(a, b);
    }
  }

  lemma XorInjective(x: nat, a: nat, b: nat)
    ensures BitXor(x, a) == BitXor(x, b) <==> a == b
  {
    XorCommutes(x, a);
    XorCommutes(x, b);
    XorSelfInverse(a, x);
    XorSelfInverse(b, x);
  }

  lemma {:induction false} OrZero(a: nat, b: nat)
    ensures BitOr(a, b) == 0 <==> a == 0 && b == 0
    decreases a
  {
    if a != 0 {
      OrZero(a / 2, b / 2);
    }
  }

  lemma OrParts(a: nat, b: nat)
    ensures BitOr(a, b) % 2 == (if a % 2 == 1 || b % 2 == 1 then 1 else 0)
    ensures BitOr(a, b) / 2 == BitOr(a / 2, b / 2)
  {
  }

  /** Or of two numbers with no bit in common is their sum. */
  lemma {:induction false} OrDisjoint(a: nat, b: nat, n: nat)
    requires b < Pow2(n)
    ensures BitOr(a * Pow2(n), b) == a * Pow2(n) + b
    decreases n
  {
    if n == 0 {
      OrNothing(a);
    } else {
      var x, y := a * Pow2(n), a * Pow2(n - 1);
      assert x == 2 * y by {
        MulAssociates(2, Pow2(n - 1), a);
      }
      OrParts(x, b);
      OrDisjoint(a, b / 2, n - 1);
    }
  }

  lemma MulAssociates(x: int, y: int, z: int)
    ensures x * (y * z) == (x * y) * z == z * (x * y) == x * (z * y)
  {
  }

  lemma {:induction false} OrNothing(a: nat)
    ensures BitOr(a, 0) == a
  {
    if a != 0 {
      OrNothing(a / 2);
    }
  }

  // ---- u8 and u32 operations ---------------------------------------------

  function Xor8(a: u8, b: u8): u8
  {
    assert Pow2(8) == 0x100;
    XorBound(a, b, 8);
    BitXor(a, b)
  }

  function Add32(a: u32, b: u32): u32
  {
    (a + b) % 0x1_0000_0000
  }

  function Sub32(a: u32, b: u32): u32
  {
    (a - b) % 0x1_0000_0000
  }

  function Xor32(a: u32, b: u32): u32
  {
    Pow2At32();
    XorBound(a, b, 32);
    BitXor(a, b)
  }

  function Or32(a: u32, b: u32): u32
  {
    Pow2At32();
    OrBound(a, b, 32);
    BitOr(a, b)
  }

  /** Logical shifts of a 32-bit lane: bits pushed out are lost. */
  function Shl32(x: u32, n: nat): u32
  {
    x * Pow2(n) % 0x1_0000_0000
  }

  function Shr32(x: u32, n: nat): u32
  {
    DivShrinks(x, Pow2(n));
    x / Pow2(n)
  }

  lemma DivShrinks(x: nat, p: nat)
    requires p >= 1
    ensures 0 <= x / p <= x
  {
    var d := x / p;
    assert x == d * p + x % p;
    if d < 0 {
      MulMonotone(d, -1, p);
    }
    MulMonotone(1, p, d);
  }

  /** `rotate_left(n)`: the low `32 - n` bits move up and the high `n` bits wrap round. */
  function RotateLeft(x: u32, n: nat): u32
    requires n <= 32
  {
    var p, q := Pow2(n), Pow2(32 - n);
    RotateBound(x, n);
    (x % q) * p + x / q
  }

  function RotateRight(x: u32, n: nat): u32
    requires n <= 32
  {
    RotateLeft(x, 32 - n)
  }

  lemma RotateSplit(x: u32, n: nat)
    requires n <= 32
    ensures Pow2(n) * Pow2(32 - n) == 0x1_0000_0000
    ensures 0 <= x / Pow2(32 - n) < Pow2(n)
  {
    var p, q := Pow2(n), Pow2(32 - n);
    Pow2Add(n, 32 - n);
    Pow2At32();
    QuotientBound(x, p, q);
  }

  lemma QuotientBound(x: nat, p: nat, q: nat)
    requires x < p * q && q >= 1
    ensures 0 <= x / q < p
  {
    DivShrinks(x, q);
    assert x == (x / q) * q + x % q;
    if x / q >= p {
      MulMonotone(p, x / q, q);
    }
  }

  lemma MulMonotone(a: int, b: int, p: nat)
    requires a <= b
    ensures a * p <= b * p
    ensures (a + 1) * p == a * p + p
  {
  }

  lemma RotateBound(x: u32, n: nat)
    requires n <= 32
    ensures 0 <= (x % Pow2(32 - n)) * Pow2(n) + x / Pow2(32 - n) < 0x1_0000_0000
  {
    RotateSplit(x, n);
    ScaledRemainder(x, Pow2(n), Pow2(32 - n));
  }

  lemma ScaledRemainder(x: nat, p: nat, q: nat)
    requires p >= 1 && q >= 1
    ensures 0 <= (x % q) * p <= p * q - p
  {
    MulMonotone(0, x % q, p);
    MulMonotone(x % q, q - 1, p);
    MulMonotone(q - 1, q, p);
  }

  lemma DivModOfSum(hi: nat, lo: nat, p: nat)
    requires lo < p
    ensures (hi * p + lo) / p == hi && (hi * p + lo) % p == lo
  {
    var s := hi * p + lo;
    var d, m := s / p, s % p;
    assert s == d * p + m;
    if d > hi {
      MulMonotone(hi, d, p);
      MulMonotone(hi + 1, d, p);
    } else if d < hi {
      MulMonotone(d, hi, p);
      MulMonotone(d + 1, hi, p);
    }
  }

  lemma RotateParts(x: nat, p: nat, q: nat)
    requires p >= 1 && q >= 1 && x < p * q
    ensures var y := (x % q) * p + x / q; (y % p) * q + y / p == x
  {
    QuotientBound(x, p, q);
    DivModOfSum(x % q, x / q, p);
  }

  /** Rotating left and then right by the same amount is the identity. */
  lemma RotateRoundTrip(x: u32, n: nat)
    requires n <= 32
    ensures RotateRight(RotateLeft(x, n), n) == x
  {
    RotateSplit(x, n);
    RotateParts(x, Pow2(n), Pow2(32 - n));
    hide Pow2;
    var y := RotateLeft(x, n);
    assert RotateRight(y, n) == RotateLeft(y, 32 - n);
    assert 32 - (32 - n) == n;
  }

  lemma RotateRoundTripReverse(x: u32, n: nat)
    requires n <= 32
    ensures RotateLeft(RotateRight(x, n), n) == x
  {
    RotateRoundTrip(x, 32 - n);
  }

  /** The shift-and-or form the vector kernels use, which have no rotate instruction. */
  lemma ShiftOrIsRotate(x: u32, n: nat)
    requires n <= 32
    ensures Or32(Shl32(x, n), Shr32(x, 32 - n)) == RotateLeft(x, n)
  {
    RotateSplit(x, n);
    ShiftWraps(x, Pow2(n), Pow2(32 - n));
    OrDisjoint(x % Pow2(32 - n), x / Pow2(32 - n), n);
  }

  lemma ShiftWraps(x: nat, p: nat, q: nat)
    requires p >= 1 && q >= 1 && p * q == 0x1_0000_0000
    ensures x * p % 0x1_0000_0000 == (x % q) * p
  {
    ShiftSplits(x, p, q);
    ScaledRemainder(x, p, q);
    DivModOfSum(x / q, (x % q) * p, 0x1_0000_0000);
  }

  lemma ShiftSplits(x: nat, p: nat, q: nat)
    requires p >= 1 && q >= 1
    ensures x * p == (x / q) * (p * q) + (x % q) * p
  {
    var hi, lo := x / q, x % q;
    assert x == hi * q + lo;
    assert (hi * q + lo) * p == hi * q * p + lo * p;
    MulAssociates(hi, q, p);
  }

  // ---- Little-endian encodings -------------------------------------------

  /** `u32::from_le_bytes`. */
  function Le32(b: seq<u8>): u32
    requires |b| == 4
  {
    b[0] as int + 0x100 * b[1] as int + 0x1_0000 * b[2] as int + 0x100_0000 * b[3] as int
  }

  /** Byte `k` of `to_le_bytes`. */
  function LeByte(w: u32, k: nat): u8
    requires k < 4
  {
    if k == 0 then w % 0x100
    else if k == 1 then w / 0x100 % 0x100
    else if k == 2 then w / 0x1_0000 % 0x100
    else w / 0x100_0000 % 0x100
  }

  lemma LeWordRoundTrip(w: u32)
    ensures Le32([LeByte(w, 0), LeByte(w, 1), LeByte(w, 2), LeByte(w, 3)]) == w
  {
    QuotientTwice(w, 0x100, 0x100);
    QuotientTwice(w, 0x1_0000, 0x100);
  }

  lemma QuotientTwice(w: nat, a: nat, b: nat)
    requires a >= 1 && b >= 1
    ensures a * b >= 1 && w / (a * b) == w / a / b
  {
    Euclid(w, a);
    Euclid(w / a, b);
    NestedQuotient(w, a, b, w / a, w % a, w / a / b, w / a % b);
  }

  lemma NestedQuotient(w: nat, a: nat, b: nat, d: nat, s: nat, q: nat, r: nat)
    requires w == d * a + s && s < a && d == q * b + r && r < b
    ensures a * b >= 1 && w / (a * b) == q
  {
    Regroup(q, r, s, a, b);
    DivModOfSum(q, r * a + s, a * b);
  }

  lemma Euclid(x: nat, p: nat)
    requires p >= 1
    ensures 0 <= x / p && 0 <= x % p < p && x == (x / p) * p + x % p
  {
    DivShrinks(x, p);
  }

  lemma Regroup(q: nat, r: nat, s: nat, a: nat, b: nat)
    requires r < b && s < a
    ensures (q * b + r) * a + s == q * (a * b) + (r * a + s)
    ensures 0 <= r * a + s < a * b
  {
    MulAssociates(q, b, a);
    assert (q * b + r) * a == (q * b) * a + r * a;
    MulMonotone(0, r, a);
    MulMonotone(r, b - 1, a);
    MulMonotone(b - 1, b, a);
  }

  /** The little-endian words of a byte string whose length is a multiple of four. */
  function WordsOf(b: seq<u8>): (w: seq<u32>)
    ensures |w| == |b| / 4
  {
    seq(|b| / 4, i requires 0 <= i < |b| / 4 => Le32(b[4 * i..4 * i + 4]))
  }

  lemma SliceOfDrop(b: seq<u8>, n: nat, i: nat, j: nat)
    requires i <= j && n + j <= |b|
    ensures b[n..][i..j] == b[n + i..n + j]
  {
  }

  lemma WordsOfDrop(b: seq<u8>)
    requires |b| >= 4
    ensures WordsOf(b) == [Le32(b[0..4])] + WordsOf(b[4..])
  {
    hide Le32;
    var tail := b[4..];
    forall i | 1 <= i < |b| / 4 ensures WordsOf(b)[i] == WordsOf(tail)[i - 1] {
      SliceOfDrop(b, 4, 4 * (i - 1), 4 * i);
    }
  }

  /** The little-endian bytes of a word string. */
  function BytesOf(w: seq<u32>): (b: seq<u8>)
    ensures |b| == 4 * |w|
  {
    seq(4 * |w|, i requires 0 <= i < 4 * |w| => LeByte(w[i / 4], i % 4))
  }

  lemma BytesOfWord(w: seq<u32>, i: nat)
    requires i < |w|
    ensures Le32(BytesOf(w)[4 * i..4 * i + 4]) == w[i]
  {
    var b := BytesOf(w);
    assert b[4 * i..4 * i + 4] == [LeByte(w[i], 0), LeByte(w[i], 1), LeByte(w[i], 2), LeByte(w[i], 3)];
    LeWordRoundTrip(w[i]);
  }

  /** `to_le_bytes` of an `n`-byte integer. */
  function LeBytes(w: nat, n: nat): (b: seq<u8>)
    ensures |b| == n
  {
    if n == 0 then [] else [w % 0x100] + LeBytes(w / 0x100, n - 1)
  }

  function FromLeBytes(b: seq<u8>): nat
  {
    if |b| == 0 then 0 else b[0] + 0x100 * FromLeBytes(b[1..])
  }

  lemma {:induction false} LeBytesRoundTrip(w: nat, n: nat)
    requires w < Pow2(8 * n)
    ensures FromLeBytes(LeBytes(w, n)) == w
    decreases n
  {
    if n != 0 {
      assert Pow2(8 * n) == 0x100 * Pow2(8 * (n - 1)) by {
        Pow2Add(8, 8 * (n - 1));
        assert Pow2(8) == 0x100;
      }
      LeBytesRoundTrip(w / 0x100, n - 1);
      assert LeBytes(w, n)[1..] == LeBytes(w / 0x100, n - 1);
    }
  }

  // ---- Byte strings ------------------------------------------------------

  function Zeros(n: nat): (z: seq<u8>)
    ensures |z| == n && forall i :: 0 <= i < n ==> z[i] == 0
  {
    seq(n, _ => 0)
  }

  function ZeroWords(n: nat): (z: seq<u32>)
    ensures |z| == n && forall i :: 0 <= i < n ==> z[i] == 0
  {
    seq(n, _ => 0)
  }

  /** The bytes of an ASCII string. */
  function Ascii(s: string): (b: seq<u8>)
    requires forall i :: 0 <= i < |s| ==> s[i] < 128 as char
    ensures |b| == |s|
  {
    seq(|s|, i requires 0 <= i < |s| => s[i] as int)
  }

  function XorBytes(a: seq<u8>, b: seq<u8>): (x: seq<u8>)
    requires |a| == |b|
    ensures |x| == |a|
  {
    seq(|a|, i requires 0 <= i < |a| => Xor8(a[i], b[i]))
  }

  /** Xor with the same bytes twice restores the input. */
  lemma XorBytesInvolution(a: seq<u8>, b: seq<u8>)
    requires |a| == |b|
    ensures XorBytes(XorBytes(a, b), b) == a
  {
    var x := XorBytes(a, b);
    hide BitXor;
    forall i | 0 <= i < |a| ensures XorBytes(x, b)[i] == a[i] {
      XorSelfInverse(a[i], b[i]);
    }
  }

  function Concat(parts: seq<seq<u8>>): seq<u8>
  {
    if |parts| == 0 then [] else Concat(parts[..|parts| - 1]) + parts[|parts| - 1]
  }
}
