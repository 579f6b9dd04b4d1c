/** The crate's entry points (`src/lib.rs`) in every feature configuration: derivations, the
    choice of call shape for the tag, the two comparison shapes, the two-slot decision, and
    the four entry points, allocating and in place. */
module Aead {
  import opened Words
  import opened ChaCha
  import opened Blake3
  import opened Siv
  import opened FoldModel
  import opened Dispatch
  import opened ChaChaCore
  import opened Witness
  import opened WitnessHasher

  /** `--no-default-features`, the default, `dual-mac`, `ultra`; each includes those before it. */
  datatype Config = NoDefault | Hardened | DualMac | Ultra
  {
    predicate HasGates() { !NoDefault? }
    predicate HasDualMac() { DualMac? || Ultra? }
  }

  /** The allocator's answer to each request of one call. */
  datatype Memory = Memory(buffer: bool, secondBuffer: bool, concat: bool, concatAgain: bool)

  /** What a build runs on: the features, the processor, the largest `usize`. */
  datatype Build = Build(config: Config, cpu: Cpu, maxUsize: nat)

  // ---- The hash seam -----------------------------------------------------------------

  /** Every keyed hash of the main path goes through one function. A shipped build calls the
      `blake3` dependency there, taken to compute keyed BLAKE3; the formal harnesses put the
      model there, which asserts the shape of each call. */
  datatype Seam = Shipped | Stubbed

  function PrimitivesAt(seam: Seam): Primitives
  {
    match seam case Shipped => Crate() case Stubbed => Model()
  }

  method Blake3KeyedMulti(seam: Seam, key: Key, parts: seq<seq<u8>>, out: array<u8>)
    requires seam.Stubbed? ==> CallShape(parts, out.Length)
    modifies out
    ensures out[..] == Hash(PrimitivesAt(seam), key, Concat(parts), out.Length)
  {
    hide CallShape, KeyedHash, Hash;
    if seam.Stubbed? {
      ModelBlake3KeyedMulti(key, parts, out);
    } else {
      var absorbed := [];
      assert parts[..|parts|] == parts;
      for p := 0 to |parts|
        invariant absorbed == Concat(parts[..p])
      {
        ConcatAt(parts, p);
        absorbed := absorbed + parts[p];
      }
      var digest := KeyedHash(key, absorbed, out.Length);
      forall i | 0 <= i < out.Length {
        out[i] := digest[i];
      }
      CrateHash(key, absorbed, out.Length);
    }
  }

  // ---- Derivations ---------------------------------------------------------------------

  method DeriveMaterial(cpu: Cpu, key: Key, nonce: Nonce, kIn: array<u8>, kOut: array<u8>, encSeed: array<u8>)
    requires kIn.Length == kOut.Length == encSeed.Length == 32
    requires kIn != kOut && kIn != encSeed && kOut != encSeed
    modifies kIn, kOut, encSeed
    ensures Material(kIn[..], kOut[..], encSeed[..]) == MaterialOf(Crate(), key, nonce)
  {
    hide HChaCha20, Keystream, Stream;
    var subkey := new u8[32](_ => 0);
    HChaCha20Into(key, nonce[0..16], subkey);
    ghost var k: Key := HChaCha20(key, nonce[0..16]);
    var subkeyNonce := SUBKEY_DOMAIN + nonce[16..24];
    var block0 := new u8[64](_ => 0);
    ChaCha20KeystreamRaw(cpu, subkey[..], 0, subkeyNonce, block0);
    var block1 := new u8[64](_ => 0);
    ChaCha20KeystreamRaw(cpu, subkey[..], 1, subkeyNonce, block1);
    CrateStream(k, 0, subkeyNonce, 64);
    CrateStream(k, 1, subkeyNonce, 64);
    ghost var b0, b1 := block0[..], block1[..];
    CopyFrom(kIn, block0, 0);
    CopyFrom(kOut, block0, 32);
    CopyFrom(encSeed, block1, 0);
    assert kIn[..] == b0[0..32] && kOut[..] == b0[32..64] && encSeed[..] == b1[0..32];
    Dispatch.Wipe(subkey);
    Dispatch.Wipe(block0);
    Dispatch.Wipe(block1);
  }

  /** `copy_from_slice`. */
  method CopyFrom(dst: array<u8>, src: array<u8>, o: nat)
    requires o + dst.Length <= src.Length && dst != src
    modifies dst
    ensures dst[..] == src[o..o + dst.Length]
  {
    forall i | 0 <= i < dst.Length {
      dst[i] := src[o + i];
    }
  }

  const TAG_CONCAT_MIN: nat := 2048
  const TAG_CONCAT_LIMIT: nat := 65536

  datatype Option<+T> = None | Some(value: T)

  /** `usize::checked_add`. */
  function CheckedAdd(a: nat, b: nat, max: nat): Option<nat>
  {
    if a + b <= max then Some(a + b) else None
  }

  /** The total that selects the contiguous call, if it lies in the window. */
  function Window(aadLen: nat, msgLen: nat, maxUsize: nat): Option<nat>
  {
    match CheckedAdd(HEAD_LEN, aadLen, maxUsize)
    case None => None
    case Some(t) =>
      match CheckedAdd(t, msgLen, maxUsize)
      case None => None
      case Some(total) => if TAG_CONCAT_MIN <= total <= TAG_CONCAT_LIMIT then Some(total) else None
  }

  /** On any word width, the contiguous call is chosen exactly for true totals in the window:
      an overflowing sum never wraps into it. */
  lemma WindowExact(aadLen: nat, msgLen: nat, maxUsize: nat, total: nat)
    requires maxUsize >= TAG_CONCAT_LIMIT
    ensures Window(aadLen, msgLen, maxUsize) == Some(total)
            <==> total == 48 + aadLen + msgLen && 2048 <= total <= 65536
  {
  }

  /** The two-level tag: whichever call shape is taken, the same bytes are hashed. */
  method DeriveTag(seam: Seam, maxUsize: nat, granted: bool, kIn: Key, kOut: Key, nonce: Nonce,
                   aad: seq<u8>, msg: seq<u8>) returns (tag: Tag)
    requires |aad| < 0x1_0000_0000_0000_0000 && |msg| < 0x1_0000_0000_0000_0000
    ensures tag == TagOf(PrimitivesAt(seam), kIn, kOut, nonce, aad, msg)
  {
    hide CallShape, Hash, Head;
    var head := Head(nonce, |aad|, |msg|);
    var inner := new u8[32](_ => 0);
    ThreePartShape(nonce, aad, msg);
    ConcatThree(head, aad, msg);
    match Window(|aad|, |msg|, maxUsize)
    {
      case Some(total) =>
        if granted {
          var cat := head + aad + msg;
          assert cat == InnerInput(nonce, aad, msg);
          OnePartShape(nonce, aad, msg);
          ConcatOne(cat);
          Blake3KeyedMulti(seam, kIn, [cat], inner);
        } else {
          Blake3KeyedMulti(seam, kIn, [head, aad, msg], inner);
        }
      case None =>
        Blake3KeyedMulti(seam, kIn, [head, aad, msg], inner);
    }
    assert inner[..] == Hash(PrimitivesAt(seam), kIn, InnerInput(nonce, aad, msg), 32);
    var outer := DOM_TAG + inner[..];
    OuterShape(inner[..]);
    ConcatOne(outer);
    var out := new u8[TAG_LEN](_ => 0);
    Blake3KeyedMulti(seam, kOut, [outer], out);
    tag := out[..];
    Dispatch.Wipe(inner);
  }

  method DeriveEnc(seam: Seam, encSeed: Key, tag: Tag, encKey: array<u8>, encNonce: array<u8>)
    requires encKey.Length == 32 && encNonce.Length == 12
    modifies encKey, encNonce
    ensures EncMaterial(encKey[..], encNonce[..]) == EncMaterialOf(PrimitivesAt(seam), encSeed, tag)
  {
    hide CallShape, Hash;
    var input := DOM_ENC + tag;
    EncShape(tag);
    ConcatOne(input);
    var material := new u8[44](_ => 0);
    Blake3KeyedMulti(seam, encSeed, [input], material);
    ghost var m := material[..];
    CopyFrom(encKey, material, 0);
    CopyFrom(encNonce, material, 32);
    assert encKey[..] == m[0..32] && encNonce[..] == m[32..44];
    Dispatch.Wipe(material);
  }

  // ---- Comparisons and the decision ------------------------------------------------------

  /** `subtle`'s comparison of two byte strings: one byte at a time, no early exit. */
  method CtEq(a: seq<u8>, b: seq<u8>) returns (equal: bool)
    ensures equal <==> a == b
  {
    equal := |a| == |b|;
    if equal {
      for i := 0 to |a|
        invariant equal <==> a[..i] == b[..i]
      {
        assert a[..i + 1] == a[..i] + [a[i]] && b[..i + 1] == b[..i] + [b[i]];
        equal := equal && a[i] == b[i];
      }
      assert a[..|a|] == a && b[..|b|] == b;
    }
  }

  lemma {:induction false} FromLeBytesInjective(a: seq<u8>, b: seq<u8>)
    requires |a| == |b|
    ensures FromLeBytes(a) == FromLeBytes(b) <==> a == b
    decreases |a|
  {
    if |a| != 0 {
      FromLeBytesInjective(a[1..], b[1..]);
      assert a == [a[0]] + a[1..] && b == [b[0]] + b[1..];
    }
  }

  /** The independently shaped comparison: eight bytes at a time folded into one accumulator. */
  method CtEqIndependent(a: Tag, b: Tag) returns (equal: bool)
    ensures equal <==> a == b
  {
    hide FromLeBytes, BitXor, BitOr;
    var acc, i := 0, 0;
    while i + 8 <= TAG_LEN
      invariant i <= TAG_LEN && (acc == 0 <==> a[..i] == b[..i])
    {
      var x := BitXor(FromLeBytes(a[i..i + 8]), FromLeBytes(b[i..i + 8]));
      XorZeroIffEqual(FromLeBytes(a[i..i + 8]), FromLeBytes(b[i..i + 8]));
      FromLeBytesInjective(a[i..i + 8], b[i..i + 8]);
      OrZero(acc, x);
      assert a[..i + 8] == a[..i] + a[i..i + 8] && b[..i + 8] == b[..i] + b[i..i + 8];
      acc := BitOr(acc, x);
      i := i + 8;
    }
    while i < TAG_LEN
      invariant i <= TAG_LEN && (acc == 0 <==> a[..i] == b[..i])
    {
      var x := BitXor(a[i], b[i]);
      XorZeroIffEqual(a[i], b[i]);
      OrZero(acc, x);
      assert a[..i + 1] == a[..i] + [a[i]] && b[..i + 1] == b[..i] + [b[i]];
      acc := BitOr(acc, x);
      i := i + 1;
    }
    equal := acc == 0;
    assert a[..TAG_LEN] == a && b[..TAG_LEN] == b;
  }

  method SecondGateComparison(a: Tag, b: Tag) returns (equal: bool)
    ensures equal <==> a == b
  {
    var ab := CtEq(a, b);
    var ba := CtEq(b, a);
    var also := CtEqIndependent(a, b);
    equal := ab && ba && also;
  }

  /** One decision slot, a rejection until a gate writes otherwise. */
  class Decision {
    var accepted: bool

    constructor ()
      ensures !accepted
    {
      accepted := false;
    }
  }

  /** Each gate writes its own slot; a rejection by the first leaves the second as it was. */
  method AcceptOrReject(config: Config, gate0: bool, gate1: bool, out0: Decision, out1: Decision)
    requires out0 != out1
    modifies out0, out1
    ensures out0.accepted == gate0
    ensures out1.accepted == if !gate0 then old(out1.accepted) else if config.NoDefault? then gate0 else gate1
  {
    if gate0 {
      out0.accepted := true;
    } else {
      out0.accepted := false;
      return;
    }
    if config.HasGates() {
      if gate1 {
        out1.accepted := true;
      } else {
        out1.accepted := false;
      }
    } else {
      out1.accepted := out0.accepted;
    }
  }

  /** Two rejections written first, the decision, two checks in series. */
  method Decide(config: Config, gate0: bool, gate1: bool) returns (accepted: bool)
    ensures accepted <==> gate0 && (config.NoDefault? || gate1)
  {
    var decision0 := new Decision();
    var decision1 := new Decision();
    AcceptOrReject(config, gate0, gate1, decision0, decision1);
    if !decision0.accepted {
      return false;
    }
    if !decision1.accepted {
      return false;
    }
    return true;
  }

  /** The body of a message is encrypted with the derived key and nonce from counter 0. */
  lemma CryptIsKeystream(key: Key, nonce: Nonce, tag: Tag, input: seq<u8>, encKey: Key, encNonce: Nonce12)
    requires EncMaterial(encKey, encNonce) == EncMaterialOf(Crate(), MaterialOf(Crate(), key, nonce).encSeed, tag)
    ensures XorKeystream(encKey, 0, encNonce, input) == Crypt(Crate(), key, nonce, tag, input)
  {
    hide MaterialOf, EncMaterialOf, Keystream, Stream;
    CrateStream(encKey, 0, encNonce, |input|);
  }

  // ---- Encryption -----------------------------------------------------------------------

  /** `ultra`'s check on the sending side: the second implementation's tag, compared in both shapes. */
  method CrossCheckTag(config: Config, key: Key, nonce: Nonce, aad: seq<u8>, plaintext: seq<u8>, tag: Tag)
    returns (accepted: bool)
    requires HEAD_LEN + |aad| + |plaintext| <= MAX_INPUT
    ensures accepted <==> tag == MessageTag(Crate(), key, nonce, aad, plaintext)
  {
    hide MessageTag, Crate;
    var witnessTag := Witness.EncryptTag(key, nonce, aad, plaintext);
    var agree := CtEq(witnessTag, tag);
    var agree2 := CtEqIndependent(witnessTag, tag);
    accepted := Decide(config, agree, agree2);
  }

  /** The allocating encryption. With the buffer granted, the result is the specification's in
      every configuration; `ultra`'s cross-check never refuses. */
  method Encrypt(build: Build, mem: Memory, key: Key, nonce: Nonce, aad: seq<u8>, plaintext: seq<u8>)
    returns (r: Result<Sealed>)
    ensures r == if CheckLengths(|plaintext|, |aad|).Ok? && !mem.buffer then Err(AllocationFailed)
                 else Seal(Crate(), key, nonce, aad, plaintext)
  {
    hide MaterialOf, TagOf, EncMaterialOf, Stream, XorKeystream, Keystream, Crypt, Crate;
    var check := CheckLengths(|plaintext|, |aad|);
    if check.Err? {
      return Err(check.error);
    }
    if !mem.buffer {
      return Err(AllocationFailed);
    }
    var ciphertext := new u8[|plaintext|](_ => 0);
    var kIn, kOut, encSeed := new u8[32](_ => 0), new u8[32](_ => 0), new u8[32](_ => 0);
    DeriveMaterial(build.cpu, key, nonce, kIn, kOut, encSeed);
    var tag := DeriveTag(Shipped, build.maxUsize, mem.concat, kIn[..], kOut[..], nonce, aad, plaintext);
    if build.config.Ultra? {
      var accepted := CrossCheckTag(build.config, key, nonce, aad, plaintext, tag);
      if !accepted {
        return Err(AuthenticationFailed);
      }
    }
    var encKey, encNonce := new u8[32](_ => 0), new u8[12](_ => 0);
    DeriveEnc(Shipped, encSeed[..], tag, encKey, encNonce);
    ChaCha20Keystream(build.cpu, encKey[..], 0, encNonce[..], plaintext, ciphertext);
    CryptIsKeystream(key, nonce, tag, plaintext, encKey[..], encNonce[..]);
    r := Ok(Sealed(ciphertext[..], tag));
    WipeKeys(kIn, kOut, encSeed, encKey, encNonce);
  }

  method WipeKeys(a: array<u8>, b: array<u8>, c: array<u8>, d: array<u8>, e: array<u8>)
    modifies a, b, c, d, e
    ensures a[..] == Zeros(a.Length) && b[..] == Zeros(b.Length) && c[..] == Zeros(c.Length)
    ensures d[..] == Zeros(d.Length) && e[..] == Zeros(e.Length)
  {
    Dispatch.Wipe(a);
    Dispatch.Wipe(b);
    Dispatch.Wipe(c);
    Dispatch.Wipe(d);
    Dispatch.Wipe(e);
  }

  /** Encryption in place: the same bytes and tag as the allocating form, and no witness. */
  method EncryptInPlaceDetached(build: Build, mem: Memory, key: Key, nonce: Nonce, aad: seq<u8>, buffer: array<u8>)
    returns (r: Result<Tag>)
    modifies buffer
    ensures match Seal(Crate(), key, nonce, aad, old(buffer[..]))
            case Ok(s) => r == Ok(s.tag) && buffer[..] == s.ciphertext
            case Err(e) => r == Err(e) && buffer[..] == old(buffer[..])
  {
    hide MaterialOf, TagOf, EncMaterialOf, Stream, XorKeystream, Keystream, Crypt, Crate;
    var check := CheckLengths(buffer.Length, |aad|);
    if check.Err? {
      return Err(check.error);
    }
    var kIn, kOut, encSeed := new u8[32](_ => 0), new u8[32](_ => 0), new u8[32](_ => 0);
    DeriveMaterial(build.cpu, key, nonce, kIn, kOut, encSeed);
    var tag := DeriveTag(Shipped, build.maxUsize, mem.concat, kIn[..], kOut[..], nonce, aad, buffer[..]);
    var encKey, encNonce := new u8[32](_ => 0), new u8[12](_ => 0);
    DeriveEnc(Shipped, encSeed[..], tag, encKey, encNonce);
    CryptIsKeystream(key, nonce, tag, buffer[..], encKey[..], encNonce[..]);
    ChaCha20Apply(build.cpu, encKey[..], 0, encNonce[..], InPlace, buffer);
    r := Ok(tag);
    WipeKeys(kIn, kOut, encSeed, encKey, encNonce);
  }

  // ---- Decryption -----------------------------------------------------------------------

  /** The gates of both decryption entry points, for any stored tag, even one a fault replaced:
      every configuration requires the stored tag to match the received one, `hardened` and up
      also the witness's agreement, `dual-mac` and up also a fresh recomputation of the tag. */
  method Gates(build: Build, mem: Memory, kIn: Key, kOut: Key, nonce: Nonce, aad: seq<u8>, plaintext: seq<u8>,
               computed: Tag, received: Tag, witnessOk: bool) returns (accepted: bool)
    requires |aad| < 0x1_0000_0000_0000_0000 && |plaintext| < 0x1_0000_0000_0000_0000
    ensures accepted <==> && computed == received
                          && (build.config in {Hardened, DualMac, Ultra} ==> witnessOk)
                          && (build.config in {DualMac, Ultra} ==>
                                TagOf(Crate(), kIn, kOut, nonce, aad, plaintext) == received)
  {
    hide TagOf;
    var first := CtEq(computed, received);
    if !build.config.HasGates() {
      accepted := Decide(build.config, first, first);
      return;
    }
    var reverse := CtEq(received, computed);
    first := first && reverse;
    var computedCopy, receivedCopy := computed, received;
    var gatePair := SecondGateComparison(computedCopy, receivedCopy);
    var second := gatePair && witnessOk;
    if build.config.HasDualMac() {
      var recomputed := DeriveTag(Shipped, build.maxUsize, mem.concatAgain, kIn, kOut, nonce, aad, plaintext);
      var again := CtEq(recomputed, computed);
      var match' := CtEq(recomputed, received);
      second := second && again && match';
    }
    accepted := Decide(build.config, first, second);
  }

  /** `ultra`'s agreement: the second implementation decrypts the ciphertext on its own, and
      plaintext and tag must both match. */
  method WitnessAgrees(key: Key, nonce: Nonce, aad: seq<u8>, ciphertext: seq<u8>, received: Tag,
                       plaintext: seq<u8>, computed: Tag) returns (agree: bool)
    requires HEAD_LEN + |aad| + |ciphertext| <= MAX_INPUT
    ensures agree <==> && plaintext == Crypt(Crate(), key, nonce, received, ciphertext)
                       && computed == MessageTag(Crate(), key, nonce, aad,
                                                 Crypt(Crate(), key, nonce, received, ciphertext))
  {
    hide MessageTag, Crypt;
    var witnessPlaintext := new u8[|ciphertext|](_ => 0);
    var witnessTag := Witness.Decrypt(key, nonce, aad, ciphertext, received, witnessPlaintext);
    var tags := CtEq(witnessTag, computed);
    var texts := CtEq(witnessPlaintext[..], plaintext);
    agree := tags && texts;
    Dispatch.Wipe(witnessPlaintext);
  }

  /** The five derived values a decryption works with, each in a buffer of its own. */
  method OpeningKeys(cpu: Cpu, key: Key, nonce: Nonce, tag: Tag)
    returns (kIn: array<u8>, kOut: array<u8>, encSeed: array<u8>, encKey: array<u8>, encNonce: array<u8>)
    ensures fresh(kIn) && fresh(kOut) && fresh(encSeed) && fresh(encKey) && fresh(encNonce)
    ensures kIn.Length == kOut.Length == encSeed.Length == encKey.Length == 32 && encNonce.Length == 12
    ensures Material(kIn[..], kOut[..], encSeed[..]) == MaterialOf(Crate(), key, nonce)
    ensures EncMaterial(encKey[..], encNonce[..]) == EncMaterialOf(Crate(), encSeed[..], tag)
  {
    hide MaterialOf, EncMaterialOf, Crate;
    kIn, kOut, encSeed := new u8[32](_ => 0), new u8[32](_ => 0), new u8[32](_ => 0);
    DeriveMaterial(cpu, key, nonce, kIn, kOut, encSeed);
    encKey, encNonce := new u8[32](_ => 0), new u8[12](_ => 0);
    DeriveEnc(Shipped, encSeed[..], tag, encKey, encNonce);
  }

  /** What both decryption entry points do with the recovered plaintext: recompute the tag,
      consult the witness under `ultra`, decide. */
  method Judge(build: Build, mem: Memory, key: Key, kIn: Key, kOut: Key, nonce: Nonce, aad: seq<u8>,
               ciphertext: seq<u8>, tag: Tag, plaintext: seq<u8>) returns (accepted: bool)
    requires |aad| <= MAX_MSG_SIZE && |ciphertext| <= MAX_MSG_SIZE
    requires plaintext == Crypt(Crate(), key, nonce, tag, ciphertext)
    requires kIn == MaterialOf(Crate(), key, nonce).kIn && kOut == MaterialOf(Crate(), key, nonce).kOut
    ensures accepted <==> MessageTag(Crate(), key, nonce, aad, plaintext) == tag
  {
    hide MaterialOf, TagOf, Crypt, Crate;
    var computed := DeriveTag(Shipped, build.maxUsize, mem.concat, kIn, kOut, nonce, aad, plaintext);
    var witnessOk := true;
    if build.config.Ultra? {
      witnessOk := WitnessAgrees(key, nonce, aad, ciphertext, tag, plaintext, computed);
    }
    accepted := Gates(build, mem, kIn, kOut, nonce, aad, plaintext, computed, tag, witnessOk);
  }

  /** The allocating decryption. With its buffers granted, every configuration accepts exactly the
      inputs the specification accepts and returns the same plaintext. */
  method Decrypt(build: Build, mem: Memory, key: Key, nonce: Nonce, aad: seq<u8>, ciphertext: seq<u8>, tag: Tag)
    returns (r: Result<seq<u8>>)
    ensures r == if CheckLengths(|ciphertext|, |aad|).Ok? && (!mem.buffer || (build.config.Ultra? && !mem.secondBuffer))
                 then Err(AllocationFailed)
                 else Open(Crate(), key, nonce, aad, ciphertext, tag)
  {
    hide MaterialOf, MessageTag, EncMaterialOf, XorKeystream, Crypt, Crate;
    var check := CheckLengths(|ciphertext|, |aad|);
    if check.Err? {
      return Err(check.error);
    }
    if !mem.buffer || (build.config.Ultra? && !mem.secondBuffer) {
      return Err(AllocationFailed);
    }
    var plaintext := new u8[|ciphertext|](_ => 0);
    var kIn, kOut, encSeed, encKey, encNonce := OpeningKeys(build.cpu, key, nonce, tag);
    CryptIsKeystream(key, nonce, tag, ciphertext, encKey[..], encNonce[..]);
    ChaCha20Keystream(build.cpu, encKey[..], 0, encNonce[..], ciphertext, plaintext);
    var accepted := Judge(build, mem, key, kIn[..], kOut[..], nonce, aad, ciphertext, tag, plaintext[..]);
    WipeKeys(kIn, kOut, encSeed, encKey, encNonce);
    if !accepted {
      Dispatch.Wipe(plaintext);
      return Err(AuthenticationFailed);
    }
    r := Ok(plaintext[..]);
  }

  /** Decryption in place: the outcome of the allocating form, the plaintext in the buffer on
      success, and zeros in the buffer on every failure. */
  method DecryptInPlaceDetached(build: Build, mem: Memory, key: Key, nonce: Nonce, aad: seq<u8>,
                                buffer: array<u8>, tag: Tag) returns (r: Result<()>)
    modifies buffer
    ensures r.Err? ==> buffer[..] == Zeros(buffer.Length)
    ensures if CheckLengths(buffer.Length, |aad|).Ok? && build.config.Ultra? && !(mem.buffer && mem.secondBuffer)
            then r == Err(AllocationFailed)
            else match Open(Crate(), key, nonce, aad, old(buffer[..]), tag)
                 case Ok(p) => r == Ok(()) && buffer[..] == p
                 case Err(e) => r == Err(e)
  {
    hide MaterialOf, MessageTag, EncMaterialOf, XorKeystream, Crypt, Crate;
    var check := CheckLengths(buffer.Length, |aad|);
    if check.Err? {
      Dispatch.Wipe(buffer);
      return Err(check.error);
    }
    if build.config.Ultra? && !(mem.buffer && mem.secondBuffer) {
      Dispatch.Wipe(buffer);
      return Err(AllocationFailed);
    }
    var kIn, kOut, encSeed, encKey, encNonce := OpeningKeys(build.cpu, key, nonce, tag);
    // The in-place transform consumes the ciphertext; the witness decrypts this copy.
    var witnessCiphertext := buffer[..];
    CryptIsKeystream(key, nonce, tag, buffer[..], encKey[..], encNonce[..]);
    ChaCha20Apply(build.cpu, encKey[..], 0, encNonce[..], InPlace, buffer);
    var accepted := Judge(build, mem, key, kIn[..], kOut[..], nonce, aad, witnessCiphertext, tag, buffer[..]);
    WipeKeys(kIn, kOut, encSeed, encKey, encNonce);
    if !accepted {
      Dispatch.Wipe(buffer);
      return Err(AuthenticationFailed);
    }
    r := Ok(());
  }
}
