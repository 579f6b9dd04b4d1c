/** What the word operations do to single bits. Every operator that the ciphers and hashes share
    is fixed here by a law of its own: a number is determined by its bits. */
module Bits {
  import opened Words

  /** Bit `k` of a number. */
  function Bit(x: nat, k: nat): nat
  {
    if k == 0 then x % 2 else Bit(x / 2, k - 1)
  }

  lemma {:induction false} BitIsQuotient(x: nat, k: nat)
    ensures Bit(x, k) == x / Pow2(k) % 2
  {
    if k != 0 {
      BitIsQuotient(x / 2, k - 1);
      QuotientTwice(x, 2, Pow2(k - 1));
    }
  }

  lemma {:induction false} BitsOfZero(k: nat)
    ensures Bit(0, k) == 0
  {
    if k != 0 {
      BitsOfZero(k - 1);
    }
  }

  /** Numbers of the same width with the same bits are equal. */
  lemma {:induction false} BitsDetermine(x: nat, y: nat, width: nat)
    requires x < Pow2(width) && y < Pow2(width)
    requires forall k :: 0 <= k < width ==> Bit(x, k) == Bit(y, k)
    ensures x == y
    decreases width
  {
    if width != 0 {
      assert Bit(x, 0) == Bit(y, 0);
      forall k | 0 <= k < width - 1 ensures Bit(x / 2, k) == Bit(y / 2, k) {
        assert Bit(x, k + 1) == Bit(y, k + 1);
      }
      BitsDetermine(x / 2, y / 2, width - 1);
    }
  }

  // ---- Bitwise operators ----------------------------------------------------------

  /** A bit of an xor is the sum of the two bits modulo two. */
  lemma {:induction false} XorBit(a: nat, b: nat, k: nat)
    ensures Bit(BitXor(a, b), k) == (Bit(a, k) + Bit(b, k)) % 2
    decreases k
  {
    XorParts(a, b);
    hide BitXor;
    if k != 0 {
      XorBit(a / 2, b / 2, k - 1);
    }
  }

  /** A bit of an or is the larger of the two bits. */
  lemma {:induction false} OrBit(a: nat, b: nat, k: nat)
    ensures Bit(BitOr(a, b), k) == if Bit(a, k) == 1 || Bit(b, k) == 1 then 1 else 0
    decreases k
  {
    OrParts(a, b);
    hide BitOr;
    if k != 0 {
      OrBit(a / 2, b / 2, k - 1);
    }
  }

  lemma Xor32Bit(a: u32, b: u32, k: nat)
    ensures Bit(Xor32(a, b), k) == (Bit(a, k) + Bit(b, k)) % 2
  {
    XorBit(a, b, k);
  }

  lemma Xor8Bit(a: u8, b: u8, k: nat)
    ensures Bit(Xor8(a, b), k) == (Bit(a, k) + Bit(b, k)) % 2
  {
    XorBit(a, b, k);
  }

  lemma Or32Bit(a: u32, b: u32, k: nat)
    ensures Bit(Or32(a, b), k) == if Bit(a, k) == 1 || Bit(b, k) == 1 then 1 else 0
  {
    OrBit(a, b, k);
  }

  // ---- Rotations --------------------------------------------------------------------

  /** Bits above `n` places come from the upper part, bits below from the lower part. */
  lemma {:induction false} BitOfParts(hi: nat, lo: nat, n: nat, k: nat)
    requires lo < Pow2(n)
    ensures Bit(hi * Pow2(n) + lo, k) == if k < n then Bit(lo, k) else Bit(hi, k - n)
    decreases n
  {
    if n != 0 {
      var p := Pow2(n - 1);
      assert hi * Pow2(n) == 2 * (hi * p) by {
        MulAssociates(2, p, hi);
      }
      BitAndRest(lo % 2, hi * p + lo / 2);
      assert hi * Pow2(n) + lo == lo % 2 + 2 * (hi * p + lo / 2);
      if k != 0 {
        BitOfParts(hi, lo / 2, n - 1, k - 1);
      }
    }
  }

  /** A number of `width` bits cut at `n` places and put together with the two parts exchanged: every
      bit moves up `n` places, and those past the end come in again at the bottom. */
  lemma ExchangeBit(hi: nat, lo: nat, n: nat, width: nat, k: nat)
    requires n <= width && k < width && hi < Pow2(n) && lo < Pow2(width - n)
    ensures Bit(lo * Pow2(n) + hi, (k + n) % width) == Bit(hi * Pow2(width - n) + lo, k)
  {
    hide Pow2, Bit;
    BitOfParts(hi, lo, width - n, k);
    PlaceOf(k + n, width);
    BitOfParts(lo, hi, n, if k + n < width then k + n else k + n - width);
  }

  lemma PlaceOf(k: nat, width: nat)
    requires k < 2 * width
    ensures k % width == if k < width then k else k - width
  {
    if k < width {
      DivModOfSum(0, k, width);
    } else {
      DivModOfSum(1, k - width, width);
    }
  }

  /** Rotating left by `n` moves bit `k` to place `k + n` modulo 32. */
  lemma RotateBit(x: u32, n: nat, k: nat)
    requires n <= 32 && k < 32
    ensures Bit(RotateLeft(x, n), (k + n) % 32) == Bit(x, k)
  {
    hide Pow2, Bit;
    RotateSplit(x, n);
    var q := Pow2(32 - n);
    ExchangeBit(x / q, x % q, n, 32, k);
    assert x == (x / q) * q + x % q;
  }

  /** Rotating right by `n` moves bit `k + n` modulo 32 to place `k`. */
  lemma RotateRightBit(x: u32, n: nat, k: nat)
    requires n <= 32 && k < 32
    ensures Bit(RotateRight(x, n), k) == Bit(x, (k + n) % 32)
  {
    hide Bit, RotateLeft;
    RotateBit(x, 32 - n, (k + n) % 32);
    assert ((k + n) % 32 + (32 - n)) % 32 == k;
  }

  // ---- Sums and encodings ---------------------------------------------------------------

  /** A wrapping sum is the sum less one carry, if there is one. */
  lemma AddCarry(a: u32, b: u32)
    ensures Add32(a, b) == if a + b < 0x1_0000_0000 then a + b else a + b - 0x1_0000_0000
  {
  }

  /** Byte `i` of a little-endian encoding is the `i`-th digit to base 256. */
  lemma {:induction false} LeBytesAt(w: nat, n: nat, i: nat)
    requires i < n
    ensures LeBytes(w, n)[i] == w / Pow2(8 * i) % 0x100
    decreases i
  {
    if i == 0 {
      assert Pow2(0) == 1;
    } else {
      LeBytesAt(w / 0x100, n - 1, i - 1);
      assert LeBytes(w, n)[i] == LeBytes(w / 0x100, n - 1)[i - 1];
      hide LeBytes, Pow2;
      Pow2At32();
      Pow2Add(8, 8 * (i - 1));
      QuotientTwice(w, 0x100, Pow2(8 * (i - 1)));
    }
  }

  /** Reading bytes back loses nothing the other way either. */
  lemma {:induction false} FromLeBytesRoundTrip(b: seq<u8>)
    ensures LeBytes(FromLeBytes(b), |b|) == b
    decreases |b|
  {
    if |b| != 0 {
      var rest := FromLeBytes(b[1..]);
      FromLeBytesRoundTrip(b[1..]);
      DivModOfSum(rest, b[0], 0x100);
      assert b == [b[0]] + b[1..];
    }
  }

  lemma {:induction false} FromLeBytesBound(b: seq<u8>)
    ensures FromLeBytes(b) < Pow2(8 * |b|)
    decreases |b|
  {
    if |b| != 0 {
      FromLeBytesBound(b[1..]);
      Pow2At32();
      Pow2Add(8, 8 * (|b| - 1));
      hide Pow2;
    }
  }

  /** The four-byte codec of a word is the general one at width four. */
  lemma LeByteIsLeBytes(w: u32, k: nat)
    requires k < 4
    ensures LeByte(w, k) == LeBytes(w, 4)[k]
  {
    LeBytesAt(w, 4, k);
    hide LeBytes;
    Pow2At32();
    Pow2Add(8, 16);
    assert Pow2(0) == 1;
  }

  lemma Le32IsFromLeBytes(b: seq<u8>)
    requires |b| == 4
    ensures Le32(b) == FromLeBytes(b)
  {
    assert b[1..][1..] == b[2..] && b[2..][1..] == b[3..] && b[3..][1..] == [];
    assert FromLeBytes(b[3..]) == b[3] + 0x100 * FromLeBytes([]);
    assert FromLeBytes(b[2..]) == b[2] + 0x100 * FromLeBytes(b[3..]);
    assert FromLeBytes(b[1..]) == b[1] + 0x100 * FromLeBytes(b[2..]);
  }
}
