/** The crate's scalar ChaCha20 and HChaCha20 (`src/lib.rs`): in-place rounds over a
    16-word state, written through caller buffers, with the working state wiped. */
module ChaChaCore {
  import opened Words
  import opened ChaCha

  /** One use of the tuple-returning quarter round on four state words. */
  method ApplyQr(s: array<u32>, i: nat, j: nat, k: nat, l: nat)
    requires s.Length == 16 && Distinct(i, j, k, l)
    modifies s
    ensures s[..] == QuarterAt(old(s[..]), i, j, k, l)
  {
    hide Qr;
    var (a, b, c, d) := Qr(s[i], s[j], s[k], s[l]);
    s[i] := a;
    s[j] := b;
    s[k] := c;
    s[l] := d;
  }

  method ChaCha20Rounds(s: array<u32>)
    requires s.Length == 16
    modifies s
    ensures s[..] == Rounds(old(s[..]), 10)
  {
    hide QuarterAt;
    for r := 0 to 10
      invariant s[..] == Rounds(old(s[..]), r)
    {
      ghost var t := s[..];
      ApplyQr(s, 0, 4, 8, 12);
      assert s[..] == RunQuarters(t, 1);
      ApplyQr(s, 1, 5, 9, 13);
      assert s[..] == RunQuarters(t, 2);
      ApplyQr(s, 2, 6, 10, 14);
      assert s[..] == RunQuarters(t, 3);
      ApplyQr(s, 3, 7, 11, 15);
      assert s[..] == RunQuarters(t, 4);
      ApplyQr(s, 0, 5, 10, 15);
      assert s[..] == RunQuarters(t, 5);
      ApplyQr(s, 1, 6, 11, 12);
      assert s[..] == RunQuarters(t, 6);
      ApplyQr(s, 2, 7, 8, 13);
      assert s[..] == RunQuarters(t, 7);
      ApplyQr(s, 3, 4, 9, 14);
      assert s[..] == RunQuarters(t, 8);
    }
  }

  /** Store one word at byte offset `o` in little-endian order. */
  method StoreWord(out: array<u8>, o: nat, w: u32)
    requires o + 4 <= out.Length
    modifies out
    ensures forall k :: 0 <= k < 4 ==> out[o + k] == LeByte(w, k)
    ensures forall i :: 0 <= i < out.Length && !(o <= i < o + 4) ==> out[i] == old(out[i])
  {
    out[o] := LeByte(w, 0);
    out[o + 1] := LeByte(w, 1);
    out[o + 2] := LeByte(w, 2);
    out[o + 3] := LeByte(w, 3);
  }

  /** The first `n` words of the output, stored in order. */
  ghost predicate Stored(out: array<u8>, w: seq<u32>, n: nat)
    requires 4 * n <= out.Length && n <= |w|
    reads out
  {
    out[..4 * n] == BytesOf(w[..n])
  }

  lemma StoredStep(before: seq<u8>, after: seq<u8>, w: seq<u32>, n: nat)
    requires n < |w| && 4 * n + 4 <= |before| == |after|
    requires before[..4 * n] == BytesOf(w[..n])
    requires forall k :: 0 <= k < 4 ==> after[4 * n + k] == LeByte(w[n], k)
    requires forall i :: 0 <= i < |before| && !(4 * n <= i < 4 * n + 4) ==> after[i] == before[i]
    ensures after[..4 * (n + 1)] == BytesOf(w[..n + 1])
  {
    hide LeByte;
    var target := BytesOf(w[..n + 1]);
    forall i | 0 <= i < 4 * (n + 1) ensures after[i] == target[i] {
      if i < 4 * n {
        assert after[i] == before[..4 * n][i] == BytesOf(w[..n])[i];
      } else {
        assert after[4 * n + (i - 4 * n)] == LeByte(w[n], i - 4 * n);
      }
    }
  }

  method LoadKeyAndConstants(s: array<u32>, key: Key)
    requires s.Length == 16
    modifies s
    ensures s[..12] == CHACHA_CONST + WordsOf(key)
    ensures s[12..] == old(s[12..])
  {
    hide Le32;
    s[0] := CHACHA_CONST[0];
    s[1] := CHACHA_CONST[1];
    s[2] := CHACHA_CONST[2];
    s[3] := CHACHA_CONST[3];
    for i := 0 to 8
      invariant s[..4] == CHACHA_CONST && s[12..] == old(s[12..])
      invariant forall j :: 0 <= j < i ==> s[4 + j] == WordsOf(key)[j]
    {
      s[4 + i] := Le32(key[4 * i..4 * i + 4]);
    }
  }

  method LoadBlockState(s: array<u32>, key: Key, counter: u32, nonce: Nonce12)
    requires s.Length == 16
    modifies s
    ensures s[..] == InitialState(key, counter, nonce)
  {
    hide Le32;
    LoadKeyAndConstants(s, key);
    s[12] := counter;
    s[13] := Le32(nonce[0..4]);
    s[14] := Le32(nonce[4..8]);
    s[15] := Le32(nonce[8..12]);
  }

  /** Add the saved initial words and store the sums in little-endian order. */
  method StoreSums(s: array<u32>, orig: array<u32>, out: array<u8>)
    requires s.Length == 16 && orig.Length == 16 && out.Length == 64
    modifies out
    ensures out[..] == BytesOf(FeedForward(s[..], orig[..]))
  {
    hide LeByte, Add32, BytesOf;
    ghost var words := FeedForward(s[..], orig[..]);
    assert out[..0] == BytesOf(words[..0]);
    for i := 0 to 16
      invariant Stored(out, words, i)
    {
      ghost var before := out[..];
      var v := Add32(s[i], orig[i]);
      StoreWord(out, 4 * i, v);
      StoredStep(before, out[..], words, i);
    }
    assert out[..64] == out[..] && words[..16] == words;
  }

  method ChaCha20BlockInto(key: Key, counter: u32, nonce: Nonce12, out: array<u8>)
    requires out.Length == 64
    modifies out
    ensures out[..] == Block(key, counter, nonce)
  {
    hide InitialState, Rounds, BytesOf;
    var s := new u32[16](_ => 0);
    LoadBlockState(s, key, counter, nonce);
    var orig := new u32[16](i requires 0 <= i < 16 reads s => s[i]);
    assert orig[..] == s[..];
    ChaCha20Rounds(s);
    StoreSums(s, orig, out);
    WipeWords(s);
    WipeWords(orig);
  }

  /** Constants, key and nonce words: the state HChaCha20 starts from. */
  method LoadHState(s: array<u32>, key: Key, nonce: Nonce16)
    requires s.Length == 16
    modifies s
    ensures s[..] == HInitialState(key, nonce)
  {
    hide Le32;
    LoadKeyAndConstants(s, key);
    s[12] := Le32(nonce[0..4]);
    s[13] := Le32(nonce[4..8]);
    s[14] := Le32(nonce[8..12]);
    s[15] := Le32(nonce[12..16]);
    assert s[..] == HInitialState(key, nonce);
  }

  method HChaCha20Into(key: Key, nonce: Nonce16, out: array<u8>)
    requires out.Length == 32
    modifies out
    ensures out[..] == HChaCha20(key, nonce)
  {
    hide Rounds, LeByte, HInitialState;
    var s := new u32[16](_ => 0);
    LoadHState(s, key, nonce);
    ghost var start := HInitialState(key, nonce);
    ChaCha20Rounds(s);
    ghost var v := Rounds(start, 10);
    ghost var words := v[0..4] + v[12..16];
    for i := 0 to 8
      invariant s[..] == v
      invariant Stored(out, words, i)
    {
      ghost var before := out[..];
      StoreWord(out, 4 * i, s[HOutputIndex(i)]);
      StoredStep(before, out[..], words, i);
    }
    assert out[..32] == out[..] && words[..8] == words;
    WipeWords(s);
  }

  /** `zeroize_array` on a word array. */
  method WipeWords(s: array<u32>)
    modifies s
    ensures s[..] == ZeroWords(s.Length)
  {
    for i := 0 to s.Length
      invariant forall j :: 0 <= j < i ==> s[j] == 0
    {
      s[i] := 0;
    }
  }
}
