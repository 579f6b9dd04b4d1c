/** The second implementation of the whole construction (`src/witness.rs`): its own quarter
    round, block function and HChaCha20, and the construction over its own keyed BLAKE3. */
module Witness {
  import opened Words
  import opened ChaCha
  import opened Blake3
  import opened WitnessHasher
  import opened Siv
  import ChaChaCore
  import Dispatch

  // ---- ChaCha20, indexing a mutable state -----------------------------------

  method Quarter(v: array<u32>, a: nat, b: nat, c: nat, d: nat)
    requires v.Length == 16 && Distinct(a, b, c, d)
    modifies v
    ensures v[..] == QuarterAt(old(v[..]), a, b, c, d)
  {
    hide Add32, Xor32, RotateLeft;
    ghost var q := Qr(v[a], v[b], v[c], v[d]);
    v[a] := Add32(v[a], v[b]);
    v[d] := Xor32(v[d], v[a]);
    v[d] := RotateLeft(v[d], 16);
    v[c] := Add32(v[c], v[d]);
    v[b] := Xor32(v[b], v[c]);
    v[b] := RotateLeft(v[b], 12);
    v[a] := Add32(v[a], v[b]);
    v[d] := Xor32(v[d], v[a]);
    v[d] := RotateLeft(v[d], 8);
    v[c] := Add32(v[c], v[d]);
    v[b] := Xor32(v[b], v[c]);
    v[b] := RotateLeft(v[b], 7);
    assert (v[a], v[b], v[c], v[d]) == q;
  }

  method TenDoubleRounds(v: array<u32>)
    requires v.Length == 16
    modifies v
    ensures v[..] == Rounds(old(v[..]), 10)
  {
    hide QuarterAt;
    for r := 0 to 10
      invariant v[..] == Rounds(old(v[..]), r)
    {
      ghost var s := v[..];
      Quarter(v, 0, 4, 8, 12);
      assert v[..] == RunQuarters(s, 1);
      Quarter(v, 1, 5, 9, 13);
      assert v[..] == RunQuarters(s, 2);
      Quarter(v, 2, 6, 10, 14);
      assert v[..] == RunQuarters(s, 3);
      Quarter(v, 3, 7, 11, 15);
      assert v[..] == RunQuarters(s, 4);
      Quarter(v, 0, 5, 10, 15);
      assert v[..] == RunQuarters(s, 5);
      Quarter(v, 1, 6, 11, 12);
      assert v[..] == RunQuarters(s, 6);
      Quarter(v, 2, 7, 8, 13);
      assert v[..] == RunQuarters(s, 7);
      Quarter(v, 3, 4, 9, 14);
      assert v[..] == RunQuarters(s, 8);
    }
  }

  /** Assemble `n` little-endian words into the state at `o`. */
  method LoadWords(s: array<u32>, o: nat, bytes: seq<u8>, n: nat)
    requires s.Length == 16 && o + n <= 16 && |bytes| == 4 * n
    modifies s
    ensures forall j :: 0 <= j < 16 ==> s[j] == if o <= j < o + n then WordsOf(bytes)[j - o] else old(s[j])
  {
    hide Le32;
    for i := 0 to n
      invariant forall j :: 0 <= j < 16 ==> s[j] == if o <= j < o + i then WordsOf(bytes)[j - o] else old(s[j])
    {
      s[o + i] := Le32(bytes[4 * i..4 * i + 4]);
    }
  }

  method BlockOf(key: Key, counter: u32, nonce: Nonce12) returns (out: seq<u8>)
    ensures out == Block(key, counter, nonce)
  {
    hide WordsOf, LeByte, Rounds;
    var s := new u32[16](i requires 0 <= i < 16 => if i < 4 then CHACHA_CONST[i] else 0);
    LoadWords(s, 4, key, 8);
    s[12] := counter;
    LoadWords(s, 13, nonce, 3);
    ghost var start := InitialState(key, counter, nonce);
    assert s[..] == start;
    var v := new u32[16](i requires 0 <= i < 16 reads s => s[i]);
    assert v[..] == start;
    TenDoubleRounds(v);
    ghost var words := FeedForward(Rounds(start, 10), start);
    var o := new u8[64](_ => 0);
    for i := 0 to 16
      invariant s[..] == start && v[..] == Rounds(start, 10)
      invariant ChaChaCore.Stored(o, words, i)
    {
      ghost var before := o[..];
      var x := Add32(v[i], s[i]);
      ChaChaCore.StoreWord(o, 4 * i, x);
      ChaChaCore.StoredStep(before, o[..], words, i);
    }
    out := o[..64];
    assert words[..16] == words;
    ChaChaCore.WipeWords(v);
    ChaChaCore.WipeWords(s);
  }

  method HChaCha20Of(key: Key, nonce: Nonce16) returns (out: Key)
    ensures out == HChaCha20(key, nonce)
  {
    hide WordsOf, LeByte, Rounds;
    var s := new u32[16](i requires 0 <= i < 16 => if i < 4 then CHACHA_CONST[i] else 0);
    LoadWords(s, 4, key, 8);
    LoadWords(s, 12, nonce, 4);
    ghost var start := HInitialState(key, nonce);
    assert s[..] == start;
    var v := new u32[16](i requires 0 <= i < 16 reads s => s[i]);
    assert v[..] == start;
    TenDoubleRounds(v);
    ghost var w := Rounds(start, 10);
    ghost var words := w[0..4] + w[12..16];
    var o := new u8[32](_ => 0);
    for i := 0 to 8
      invariant v[..] == w
      invariant ChaChaCore.Stored(o, words, i)
    {
      ghost var before := o[..];
      ChaChaCore.StoreWord(o, 4 * i, v[HOutputIndex(i)]);
      ChaChaCore.StoredStep(before, o[..], words, i);
    }
    out := o[..32];
    assert words[..8] == words;
    ChaChaCore.WipeWords(v);
    ChaChaCore.WipeWords(s);
  }

  method XorBlock(input: seq<u8>, ks: seq<u8>, off: nat, take: nat, out: array<u8>)
    requires |input| == out.Length && off + take <= |input| && take <= |ks|
    modifies out
    ensures forall i :: 0 <= i < out.Length ==>
              out[i] == if off <= i < off + take then Xor8(input[i], ks[i - off]) else old(out[i])
  {
    hide Xor8;
    for i := 0 to take
      invariant forall j :: 0 <= j < out.Length ==>
                  out[j] == if off <= j < off + i then Xor8(input[j], ks[j - off]) else old(out[j])
    {
      out[off + i] := Xor8(input[off + i], ks[i]);
    }
  }

  /** One block at a time; a wrong length is refused by an assertion in the source. */
  method KeystreamXor(key: Key, counter: u32, nonce: Nonce12, input: seq<u8>, out: array<u8>)
    requires |input| == out.Length
    modifies out
    ensures out[..] == XorKeystream(key, counter, nonce, input)
  {
    hide Block, Xor8;
    var ctr, off := counter, 0;
    while off < |input|
      invariant off <= |input|
      invariant off < |input| ==> off % 64 == 0 && ctr == (counter + off / 64) % 0x1_0000_0000
      invariant forall i :: 0 <= i < off ==> out[i] == Xor8(input[i], KeystreamByte(key, counter, nonce, i))
    {
      var ks := BlockOf(key, ctr, nonce);
      var take := if 64 < |input| - off then 64 else |input| - off;
      XorBlock(input, ks, off, take, out);
      forall j | off <= j < off + take ensures ks[j - off] == KeystreamByte(key, counter, nonce, j) {
        assert j / 64 == off / 64 && j % 64 == j - off;
      }
      hide KeystreamByte;
      Dispatch.CounterAdvance(counter, off, 64);
      ctr := Add32(ctr, 1);
      off := off + take;
    }
  }

  // ---- The construction -------------------------------------------------------

  /** Two blocks of the subkey's keystream, as the xor of a zero buffer. */
  method DeriveMaterial(key: Key, nonce: Nonce) returns (m: Material)
    ensures m == MaterialOf(Crate(), key, nonce)
  {
    hide HChaCha20, Keystream;
    var subkey := HChaCha20Of(key, nonce[0..16]);
    var subNonce := SUBKEY_DOMAIN + nonce[16..24];
    var block0 := new u8[64](_ => 0);
    KeystreamXor(subkey, 0, subNonce, Zeros(64), block0);
    var block1 := new u8[64](_ => 0);
    KeystreamXor(subkey, 1, subNonce, Zeros(64), block1);
    XorZeros(Keystream(subkey, 0, subNonce, 64));
    XorZeros(Keystream(subkey, 1, subNonce, 64));
    CrateStream(subkey, 0, subNonce, 64);
    CrateStream(subkey, 1, subNonce, 64);
    m := Material(block0[0..32], block0[32..64], block1[0..32]);
  }

  lemma XorZeros(b: seq<u8>)
    ensures XorBytes(Zeros(|b|), b) == b
  {
  }

  /** The tag: three parts under `kIn`, then the digest under `kOut`. */
  method TagBytes(kIn: Key, kOut: Key, nonce: Nonce, aad: seq<u8>, msg: seq<u8>) returns (t: Tag)
    requires HEAD_LEN + |aad| + |msg| <= MAX_INPUT
    ensures t == TagOf(Crate(), kIn, kOut, nonce, aad, msg)
  {
    hide KeyedHash, Head;
    var head := Head(nonce, |aad|, |msg|);
    var inner := new u8[32](_ => 0);
    ConcatThree(head, aad, msg);
    KeyedXof(kIn, [head, aad, msg], inner);
    CrateHash(kIn, InnerInput(nonce, aad, msg), 32);
    var outer := DOM_TAG + inner[..];
    var out := new u8[TAG_LEN](_ => 0);
    ConcatOne(outer);
    KeyedXof(kOut, [outer], out);
    CrateHash(kOut, outer, TAG_LEN);
    t := out[..];
  }

  lemma ConcatOne(a: seq<u8>)
    ensures Concat([a]) == a
  {
    assert Concat([a]) == Concat([]) + a;
  }

  lemma ConcatThree(a: seq<u8>, b: seq<u8>, c: seq<u8>)
    ensures Concat([a, b, c]) == a + b + c
  {
    assert [a, b, c][..2] == [a, b] && [a, b][..1] == [a] && [a][..0] == [];
    ConcatOne(a);
  }

  method DeriveEnc(encSeed: Key, tag: Tag) returns (e: EncMaterial)
    ensures e == EncMaterialOf(Crate(), encSeed, tag)
  {
    hide KeyedHash;
    var input := DOM_ENC + tag;
    var material := new u8[44](_ => 0);
    ConcatOne(input);
    KeyedXof(encSeed, [input], material);
    CrateHash(encSeed, input, 44);
    e := EncMaterial(material[0..32], material[32..44]);
  }

  /** The whole decryption again: the plaintext into the buffer, the recomputed tag returned. */
  method Decrypt(key: Key, nonce: Nonce, aad: seq<u8>, ciphertext: seq<u8>, received: Tag, plaintext: array<u8>)
    returns (recomputed: Tag)
    requires plaintext.Length == |ciphertext| && HEAD_LEN + |aad| + |ciphertext| <= MAX_INPUT
    modifies plaintext
    ensures plaintext[..] == Crypt(Crate(), key, nonce, received, ciphertext)
    ensures recomputed == MessageTag(Crate(), key, nonce, aad, plaintext[..])
  {
    hide MaterialOf, EncMaterialOf, TagOf, Keystream, Stream;
    var m := DeriveMaterial(key, nonce);
    var e := DeriveEnc(m.encSeed, received);
    KeystreamXor(e.key, 0, e.nonce, ciphertext, plaintext);
    CrateStream(e.key, 0, e.nonce, |ciphertext|);
    recomputed := TagBytes(m.kIn, m.kOut, nonce, aad, plaintext[..]);
  }

  /** The tag the sending side would compute. */
  method EncryptTag(key: Key, nonce: Nonce, aad: seq<u8>, plaintext: seq<u8>) returns (t: Tag)
    requires HEAD_LEN + |aad| + |plaintext| <= MAX_INPUT
    ensures t == MessageTag(Crate(), key, nonce, aad, plaintext)
  {
    hide MaterialOf, TagOf;
    var m := DeriveMaterial(key, nonce);
    t := TagBytes(m.kIn, m.kOut, nonce, aad, plaintext);
  }
}
