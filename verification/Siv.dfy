/** The SIV construction as a specification: key derivation, the two-level tag, encryption under
    a key derived from the tag. It is stated for any primitives, so what is proved here holds
    for the crate's primitives and for the hash model used in the formal harnesses alike. */
module Siv {
  import opened Words
  import opened ChaCha
  import opened Blake3
  import opened Dispatch

  const NONCE_LEN: nat := 24
  const TAG_LEN: nat := 65
  const HEAD_LEN: nat := 48

  type Nonce = n: seq<u8> | |n| == NONCE_LEN witness Zeros(NONCE_LEN)
  type Tag = t: seq<u8> | |t| == TAG_LEN witness Zeros(TAG_LEN)

  const SUBKEY_DOMAIN: seq<u8> := [0x58, 0x53, 0x49, 0x56]
  const DOM_PRE: seq<u8> := [0x58, 0x53, 0x49, 0x56, 0x2d, 0x50, 0x52, 0x45]
  const DOM_TAG: seq<u8> := [0x58, 0x53, 0x49, 0x56, 0x2d, 0x54, 0x41, 0x47]
  const DOM_ENC: seq<u8> := [0x58, 0x53, 0x49, 0x56, 0x2d, 0x45, 0x4e, 0x43]

  lemma DomainsAreAscii()
    ensures SUBKEY_DOMAIN == Ascii("XSIV")
    ensures DOM_PRE == Ascii("XSIV-PRE") && DOM_TAG == Ascii("XSIV-TAG") && DOM_ENC == Ascii("XSIV-ENC")
  {
  }

  // ---- Primitives ---------------------------------------------------------------

  /** `hash(key, input, n, i)` is byte `i` of an `n`-byte keyed hash; `stream(key, counter,
      nonce, i)` is byte `i` of a keystream. */
  datatype Primitives = Primitives(
    hash: (Key, seq<u8>, nat, nat) -> u8,
    stream: (Key, u32, Nonce12, nat) -> u8,
    hchacha: (Key, Nonce16) -> Key)

  function HashAt(p: Primitives, key: Key, input: seq<u8>, n: nat, i: nat): u8
  {
    p.hash(key, input, n, i)
  }

  function StreamAt(p: Primitives, key: Key, counter: u32, nonce: Nonce12, i: nat): u8
  {
    p.stream(key, counter, nonce, i)
  }

  function Hash(p: Primitives, key: Key, input: seq<u8>, n: nat): (h: seq<u8>)
    ensures |h| == n
  {
    seq(n, i requires 0 <= i < n => HashAt(p, key, input, n, i))
  }

  function Stream(p: Primitives, key: Key, counter: u32, nonce: Nonce12, n: nat): (s: seq<u8>)
    ensures |s| == n
  {
    seq(n, i requires 0 <= i < n => StreamAt(p, key, counter, nonce, i))
  }

  function KeyedHashByte(key: Key, input: seq<u8>, n: nat, i: nat): u8
  {
    if i < n then KeyedHash(key, input, n)[i] else 0
  }

  function HChaChaKey(key: Key, nonce: Nonce16): Key
  {
    HChaCha20(key, nonce)
  }

  /** The crate's primitives: keyed BLAKE3, ChaCha20, HChaCha20. */
  function Crate(): Primitives
  {
    Primitives(KeyedHashByte, KeystreamByte, HChaChaKey)
  }

  lemma CrateHash(key: Key, input: seq<u8>, n: nat)
    ensures Hash(Crate(), key, input, n) == KeyedHash(key, input, n)
  {
    hide KeyedHash;
  }

  lemma CrateStream(key: Key, counter: u32, nonce: Nonce12, n: nat)
    ensures Stream(Crate(), key, counter, nonce, n) == Keystream(key, counter, nonce, n)
  {
    hide Block;
  }

  // ---- Derivations ---------------------------------------------------------------

  datatype Material = Material(kIn: Key, kOut: Key, encSeed: Key)
  datatype EncMaterial = EncMaterial(key: Key, nonce: Nonce12)

  function SubkeyNonce(nonce: Nonce): Nonce12
  {
    SUBKEY_DOMAIN + nonce[16..24]
  }

  /** Counter 0 of the subkey's keystream gives the two tag keys, counter 1 the encryption seed. */
  function MaterialOf(p: Primitives, key: Key, nonce: Nonce): Material
  {
    var subkey := p.hchacha(key, nonce[0..16]);
    var block0 := Stream(p, subkey, 0, SubkeyNonce(nonce), 64);
    var block1 := Stream(p, subkey, 1, SubkeyNonce(nonce), 64);
    Material(block0[0..32], block0[32..64], block1[0..32])
  }

  /** The fixed-width head of the inner hash: domain, nonce, both lengths as 64-bit integers. */
  function Head(nonce: Nonce, aadLen: nat, msgLen: nat): (h: seq<u8>)
    ensures |h| == HEAD_LEN
  {
    DOM_PRE + nonce + LeBytes(aadLen % 0x1_0000_0000_0000_0000, 8) + LeBytes(msgLen % 0x1_0000_0000_0000_0000, 8)
  }

  function InnerInput(nonce: Nonce, aad: seq<u8>, msg: seq<u8>): seq<u8>
  {
    Head(nonce, |aad|, |msg|) + aad + msg
  }

  /** The two-level tag. */
  function TagOf(p: Primitives, kIn: Key, kOut: Key, nonce: Nonce, aad: seq<u8>, msg: seq<u8>): Tag
  {
    Hash(p, kOut, DOM_TAG + Hash(p, kIn, InnerInput(nonce, aad, msg), 32), TAG_LEN)
  }

  /** The per-message key and nonce, from the whole tag. */
  function EncMaterialOf(p: Primitives, encSeed: Key, tag: Tag): EncMaterial
  {
    var material := Hash(p, encSeed, DOM_ENC + tag, 44);
    EncMaterial(material[0..32], material[32..44])
  }

  function MessageTag(p: Primitives, key: Key, nonce: Nonce, aad: seq<u8>, msg: seq<u8>): Tag
  {
    var m := MaterialOf(p, key, nonce);
    TagOf(p, m.kIn, m.kOut, nonce, aad, msg)
  }

  /** Encryption and decryption of the message body are the same map. */
  function Crypt(p: Primitives, key: Key, nonce: Nonce, tag: Tag, input: seq<u8>): (o: seq<u8>)
    ensures |o| == |input|
  {
    var e := EncMaterialOf(p, MaterialOf(p, key, nonce).encSeed, tag);
    XorBytes(input, Stream(p, e.key, 0, e.nonce, |input|))
  }

  // ---- The interface ---------------------------------------------------------------

  datatype Error = MessageTooLong | AadTooLong | AllocationFailed | AuthenticationFailed
  datatype Result<+T> = Ok(value: T) | Err(error: Error)
  datatype Sealed = Sealed(ciphertext: seq<u8>, tag: Tag)

  /** The length check every entry point starts with; the message is judged first. */
  function CheckLengths(msgLen: nat, aadLen: nat): Result<()>
  {
    if msgLen > MAX_MSG_SIZE then Err(MessageTooLong)
    else if aadLen > MAX_MSG_SIZE then Err(AadTooLong)
    else Ok(())
  }

  /** The check passes exactly when the keystream uses each counter once and the associated data is no
      longer than a message may be: for every key and
      nonce, the byte at `i` comes from the block at its counter, and bytes of different blocks from
      different counters. */
  lemma AcceptedIffCountersDiffer(n: nat)
    ensures forall aadLen: nat :: CheckLengths(n, aadLen).Ok? <==> NoCounterReuse(n) && aadLen <= 0x40_0000_0000
    ensures forall key, nonce, i: nat :: i < n ==>
              StreamAt(Crate(), key, 0, nonce, i) == Block(key, CounterOf(i), nonce)[i % 64]
  {
    hide Block;
    LimitIsTight(n);
  }

  /** What encryption returns when its allocations succeed. */
  function Seal(p: Primitives, key: Key, nonce: Nonce, aad: seq<u8>, plaintext: seq<u8>): Result<Sealed>
  {
    match CheckLengths(|plaintext|, |aad|)
    case Err(e) => Err(e)
    case Ok(_) =>
      var tag := MessageTag(p, key, nonce, aad, plaintext);
      Ok(Sealed(Crypt(p, key, nonce, tag, plaintext), tag))
  }

  /** What decryption returns when its allocations succeed. */
  function Open(p: Primitives, key: Key, nonce: Nonce, aad: seq<u8>, ciphertext: seq<u8>, tag: Tag): Result<seq<u8>>
  {
    match CheckLengths(|ciphertext|, |aad|)
    case Err(e) => Err(e)
    case Ok(_) =>
      var plaintext := Crypt(p, key, nonce, tag, ciphertext);
      if MessageTag(p, key, nonce, aad, plaintext) == tag then Ok(plaintext) else Err(AuthenticationFailed)
  }

  lemma CryptInvolution(p: Primitives, key: Key, nonce: Nonce, tag: Tag, input: seq<u8>)
    ensures Crypt(p, key, nonce, tag, Crypt(p, key, nonce, tag, input)) == input
  {
    var e := EncMaterialOf(p, MaterialOf(p, key, nonce).encSeed, tag);
    XorBytesInvolution(input, Stream(p, e.key, 0, e.nonce, |input|));
  }

  /** For any wire input: decryption returns a plaintext exactly when encrypting that plaintext
      under the same key, nonce and associated data gives back this ciphertext and this tag. */
  lemma OpenIffSeals(p: Primitives, key: Key, nonce: Nonce, aad: seq<u8>,
                     ciphertext: seq<u8>, tag: Tag, plaintext: seq<u8>)
    ensures Open(p, key, nonce, aad, ciphertext, tag) == Ok(plaintext)
            <==> Seal(p, key, nonce, aad, plaintext) == Ok(Sealed(ciphertext, tag))
  {
    CryptInvolution(p, key, nonce, tag, ciphertext);
    CryptInvolution(p, key, nonce, tag, plaintext);
  }

  /** Every sealed message opens to its plaintext. */
  lemma SealThenOpen(p: Primitives, key: Key, nonce: Nonce, aad: seq<u8>, plaintext: seq<u8>)
    requires CheckLengths(|plaintext|, |aad|).Ok?
    ensures var s := Seal(p, key, nonce, aad, plaintext);
            s.Ok? && Open(p, key, nonce, aad, s.value.ciphertext, s.value.tag) == Ok(plaintext)
  {
    var s := Seal(p, key, nonce, aad, plaintext);
    OpenIffSeals(p, key, nonce, aad, s.value.ciphertext, s.value.tag, plaintext);
  }

  /** Which lengths encryption accepts, and with what error it refuses the others; the ciphertext is as
      long as the plaintext. */
  lemma SealOutcome(p: Primitives, key: Key, nonce: Nonce, aad: seq<u8>, plaintext: seq<u8>)
    ensures var s := Seal(p, key, nonce, aad, plaintext);
            && (s.Ok? <==> |plaintext| <= 0x40_0000_0000 && |aad| <= 0x40_0000_0000)
            && (s == Err(MessageTooLong) <==> |plaintext| > 0x40_0000_0000)
            && (s == Err(AadTooLong) <==> |plaintext| <= 0x40_0000_0000 < |aad|)
            && (s.Ok? ==> |s.value.ciphertext| == |plaintext| && |s.value.tag| == 65)
  {
    hide MessageTag, Crypt;
  }

  /** Decryption refuses the same lengths with the same errors, and any other input it refuses is one
      that no encryption gives. */
  lemma OpenOutcome(p: Primitives, key: Key, nonce: Nonce, aad: seq<u8>, ciphertext: seq<u8>, tag: Tag)
    ensures var o := Open(p, key, nonce, aad, ciphertext, tag);
            && (o == Err(MessageTooLong) <==> |ciphertext| > 0x40_0000_0000)
            && (o == Err(AadTooLong) <==> |ciphertext| <= 0x40_0000_0000 < |aad|)
            && (o == Err(AuthenticationFailed)
                <==> && |ciphertext| <= 0x40_0000_0000 && |aad| <= 0x40_0000_0000
                     && forall m :: Seal(p, key, nonce, aad, m) != Ok(Sealed(ciphertext, tag)))
  {
    forall m | Seal(p, key, nonce, aad, m) == Ok(Sealed(ciphertext, tag))
      ensures Open(p, key, nonce, aad, ciphertext, tag) == Ok(m)
    {
      OpenIffSeals(p, key, nonce, aad, ciphertext, tag, m);
    }
    var o := Open(p, key, nonce, aad, ciphertext, tag);
    if o.Ok? {
      OpenIffSeals(p, key, nonce, aad, ciphertext, tag, o.value);
    }
    hide MessageTag, Crypt;
  }

  // ---- Encodings -----------------------------------------------------------------

  /** The inner input determines nonce, associated data and message, for all 64-bit lengths. */
  lemma InnerInputInjective(n1: Nonce, a1: seq<u8>, m1: seq<u8>, n2: Nonce, a2: seq<u8>, m2: seq<u8>)
    requires |a1| < 0x1_0000_0000_0000_0000 && |m1| < 0x1_0000_0000_0000_0000
    requires |a2| < 0x1_0000_0000_0000_0000 && |m2| < 0x1_0000_0000_0000_0000
    requires InnerInput(n1, a1, m1) == InnerInput(n2, a2, m2)
    ensures n1 == n2 && a1 == a2 && m1 == m2
  {
    hide LeBytes;
    var i1, i2 := InnerInput(n1, a1, m1), InnerInput(n2, a2, m2);
    HeadFields(n1, a1, m1);
    HeadFields(n2, a2, m2);
    LengthRoundTrip(|a1|);
    LengthRoundTrip(|a2|);
    assert |a1| == |a2|;
  }

  lemma LengthRoundTrip(n: u64)
    ensures FromLeBytes(LeBytes(n, 8)) == n
  {
    Pow2At32();
    Pow2Add(32, 32);
    LeBytesRoundTrip(n, 8);
  }

  /** Where the fields of the inner input lie. */
  lemma HeadFields(nonce: Nonce, aad: seq<u8>, msg: seq<u8>)
    requires |aad| < 0x1_0000_0000_0000_0000
    ensures var i := InnerInput(nonce, aad, msg);
            && |i| == HEAD_LEN + |aad| + |msg|
            && i[..8] == DOM_PRE && i[8..32] == nonce
            && i[32..40] == LeBytes(|aad|, 8) && i[40..48] == LeBytes(|msg| % 0x1_0000_0000_0000_0000, 8)
            && i[48..48 + |aad|] == aad && i[48 + |aad|..] == msg
  {
    hide LeBytes;
    var h := Head(nonce, |aad|, |msg|);
    var i := InnerInput(nonce, aad, msg);
    assert i[..48] == h && i[48..] == aad + msg;
    assert i[..8] == h[..8] && i[8..32] == h[8..32] && i[32..40] == h[32..40] && i[40..48] == h[40..48];
    assert i[48..48 + |aad|] == (aad + msg)[..|aad|] && i[48 + |aad|..] == (aad + msg)[|aad|..];
  }

  /** No input of one keyed-hash call is an input of another: the three domains differ. */
  lemma DomainsDisjoint(nonce: Nonce, aad: seq<u8>, msg: seq<u8>, inner: Key, tag: Tag)
    ensures InnerInput(nonce, aad, msg) != DOM_TAG + inner
    ensures InnerInput(nonce, aad, msg) != DOM_ENC + tag
    ensures DOM_TAG + inner != DOM_ENC + tag
  {
    assert InnerInput(nonce, aad, msg)[5] == 0x50;
    assert (DOM_TAG + inner)[5] == 0x54;
    assert (DOM_ENC + tag)[5] == 0x45;
  }
}
