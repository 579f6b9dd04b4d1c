/** `chacha20_apply`: the widest kernel the processor has, then narrower ones, then the
    scalar core for the tail. Whatever the processor, the output is the input xored with
    the scalar keystream. */
module Dispatch {
  import opened Words
  import opened ChaCha
  import opened ChaChaCore
  import opened Bits
  import opened Simd
  import Zeroize

  /** What the dispatcher can find: x86_64 with or without AVX2 (SSE2 is the baseline),
      aarch64 with NEON, or any other target. */
  datatype Cpu = X86(avx2: bool) | Neon | Other

  /** Where the xor input comes from. */
  datatype Input = Separate(bytes: seq<u8>) | InPlace | KeystreamOnly

  predicate Fits(input: Input, n: nat)
  {
    input.Separate? ==> |input.bytes| == n
  }

  /** What the whole call writes: input (or buffer) xor keystream, or the bare keystream. */
  function Applied(key: Key, counter: u32, nonce: Nonce12, input: Input, buffer: seq<u8>): (o: seq<u8>)
    requires Fits(input, |buffer|)
    ensures |o| == |buffer|
  {
    match input
    case Separate(bytes) => XorKeystream(key, counter, nonce, bytes)
    case InPlace => XorKeystream(key, counter, nonce, buffer)
    case KeystreamOnly => Keystream(key, counter, nonce, |buffer|)
  }

  method XorOrCopy(input: Input, output: array<u8>, off: nat, ks: seq<u8>)
    requires off + |ks| <= output.Length && Fits(input, output.Length)
    modifies output
    ensures forall i :: 0 <= i < output.Length && !(off <= i < off + |ks|) ==> output[i] == old(output[i])
    ensures forall i :: 0 <= i < |ks| ==>
              output[off + i] == match input
                                 case Separate(bytes) => Xor8(bytes[off + i], ks[i])
                                 case InPlace => Xor8(old(output[off + i]), ks[i])
                                 case KeystreamOnly => ks[i]
  {
    hide Xor8;
    match input
    case Separate(bytes) =>
      var inp := bytes[off..off + |ks|];
      for i := 0 to |ks|
        invariant forall j :: 0 <= j < output.Length && !(off <= j < off + i) ==> output[j] == old(output[j])
        invariant forall j :: 0 <= j < i ==> output[off + j] == Xor8(bytes[off + j], ks[j])
      {
        output[off + i] := Xor8(inp[i], ks[i]);
      }
    case InPlace =>
      for i := 0 to |ks|
        invariant forall j :: 0 <= j < output.Length && !(off <= j < off + i) ==> output[j] == old(output[j])
        invariant forall j :: 0 <= j < i ==> output[off + j] == Xor8(old(output[off + j]), ks[j])
      {
        output[off + i] := Xor8(output[off + i], ks[i]);
      }
    case KeystreamOnly =>
      forall i | off <= i < off + |ks| {
        output[i] := ks[i - off];
      }
  }

  /** The loop state: the first `off` bytes are final, the rest untouched, and the counter is
      the starting counter advanced by the whole blocks consumed. */
  ghost predicate Progress(key: Key, counter: u32, nonce: Nonce12, input: Input,
                           before: seq<u8>, now: seq<u8>, off: nat, ctr: u32)
    requires Fits(input, |before|)
  {
    && off <= |before| == |now|
    && now[..off] == Applied(key, counter, nonce, input, before)[..off]
    && now[off..] == before[off..]
    && off % 64 == 0
    && ctr == (counter + off / 64) % 0x1_0000_0000
  }

  /** Applying a run of keystream that starts at the current counter extends the finished prefix. */
  lemma ProgressStep(key: Key, counter: u32, nonce: Nonce12, input: Input,
                     before: seq<u8>, now: seq<u8>, next: seq<u8>, off: nat, ctr: u32, ks: seq<u8>)
    requires Fits(input, |before|) && Progress(key, counter, nonce, input, before, now, off, ctr)
    requires off + |ks| <= |before| && |next| == |now|
    requires forall i :: 0 <= i < |ks| ==> ks[i] == KeystreamByte(key, ctr, nonce, i)
    requires forall i :: 0 <= i < |next| && !(off <= i < off + |ks|) ==> next[i] == now[i]
    requires forall i :: 0 <= i < |ks| ==>
               next[off + i] == match input
                                case Separate(bytes) => Xor8(bytes[off + i], ks[i])
                                case InPlace => Xor8(now[off + i], ks[i])
                                case KeystreamOnly => ks[i]
    ensures next[..off + |ks|] == Applied(key, counter, nonce, input, before)[..off + |ks|]
    ensures next[off + |ks|..] == before[off + |ks|..]
  {
    hide KeystreamByte, Xor8;
    var end := off + |ks|;
    var target := Applied(key, counter, nonce, input, before);
    forall i | 0 <= i < end ensures next[i] == target[i] {
      if i < off {
        assert next[i] == now[..off][i] == target[..off][i];
      } else {
        var t := i - off;
        KeystreamAdvance(key, counter, nonce, off / 64, t);
        assert 64 * (off / 64) + t == i;
        assert ks[t] == KeystreamByte(key, counter, nonce, i);
        assert now[i] == now[off..][t] == before[off..][t];
        assert next[off + t] == next[i];
      }
    }
    forall i | end <= i < |next| ensures next[i] == before[i] {
      assert next[i] == now[off..][i - off] == before[off..][i - off];
    }
  }

  method ChaCha20Apply(cpu: Cpu, key: Key, counter: u32, nonce: Nonce12, input: Input, output: array<u8>)
    requires Fits(input, output.Length)
    modifies output
    ensures output[..] == Applied(key, counter, nonce, input, old(output[..]))
  {
    hide Applied, Keystream, Block;
    var n := output.Length;
    var ctr, off := counter, 0;
    ghost var before := output[..];
    if cpu.X86? {
      if cpu.avx2 {
        var ks := new u8[512](_ => 0);
        while off + 512 <= n
          invariant Progress(key, counter, nonce, input, before, output[..], off, ctr)
        {
          Blocks8(key, ctr, nonce, ks);
          ctr, off := WideStep(key, counter, nonce, input, before, output, off, ctr, ks[..]);
        }
        Wipe(ks);
      }
      var ks := new u8[256](_ => 0);
      while off + 256 <= n
        invariant Progress(key, counter, nonce, input, before, output[..], off, ctr)
      {
        Blocks4(key, ctr, nonce, ks);
        ctr, off := WideStep(key, counter, nonce, input, before, output, off, ctr, ks[..]);
      }
      Wipe(ks);
    }
    if cpu.Neon? {
      var ks := new u8[256](_ => 0);
      while off + 256 <= n
        invariant Progress(key, counter, nonce, input, before, output[..], off, ctr)
      {
        Blocks4Neon(key, ctr, nonce, ks);
        ctr, off := WideStep(key, counter, nonce, input, before, output, off, ctr, ks[..]);
      }
      Wipe(ks);
    }
    while off + 64 <= n
      invariant Progress(key, counter, nonce, input, before, output[..], off, ctr)
    {
      var ks := new u8[64](_ => 0);
      ChaCha20BlockInto(key, ctr, nonce, ks);
      BlockIsKeystream(key, ctr, nonce);
      ctr, off := WideStep(key, counter, nonce, input, before, output, off, ctr, ks[..]);
      Wipe(ks);
    }
    PartialBlock(key, counter, nonce, input, before, output, off, ctr);
  }

  /** The final partial block, if the length is not a multiple of 64. */
  method PartialBlock(key: Key, ghost counter: u32, nonce: Nonce12, input: Input, ghost before: seq<u8>,
                      output: array<u8>, off: nat, ctr: u32)
    requires Fits(input, |before|)
    requires Progress(key, counter, nonce, input, before, output[..], off, ctr)
    requires output.Length < off + 64
    modifies output
    ensures output[..] == Applied(key, counter, nonce, input, before)
  {
    hide Applied, KeystreamByte, Xor8, Block;
    var n := output.Length;
    if off < n {
      var ks := new u8[64](_ => 0);
      ChaCha20BlockInto(key, ctr, nonce, ks);
      BlockIsKeystream(key, ctr, nonce);
      ghost var now := output[..];
      var part := ks[..n - off];
      KeystreamBytes(key, ctr, nonce, 64);
      XorOrCopy(input, output, off, part);
      ProgressStep(key, counter, nonce, input, before, now, output[..], off, ctr, part);
      Wipe(ks);
    }
    assert output[..n] == output[..];
    assert Applied(key, counter, nonce, input, before)[..n] == Applied(key, counter, nonce, input, before);
  }

  /** The body the four loops share: apply a whole number of blocks, advance counter and offset. */
  method WideStep(ghost key: Key, ghost counter: u32, ghost nonce: Nonce12, input: Input, ghost before: seq<u8>,
                  output: array<u8>, off: nat, ctr: u32, ks: seq<u8>) returns (ctr': u32, off': nat)
    requires Fits(input, |before|)
    requires Progress(key, counter, nonce, input, before, output[..], off, ctr)
    requires off + |ks| <= output.Length && |ks| % 64 == 0
    requires ks == Keystream(key, ctr, nonce, |ks|)
    modifies output
    ensures off' == off + |ks|
    ensures Progress(key, counter, nonce, input, before, output[..], off', ctr')
  {
    hide Applied, Keystream, KeystreamByte, Xor8;
    ghost var now := output[..];
    KeystreamBytes(key, ctr, nonce, |ks|);
    XorOrCopy(input, output, off, ks);
    ProgressStep(key, counter, nonce, input, before, now, output[..], off, ctr, ks);
    CounterAdvance(counter, off, |ks|);
    ctr' := (ctr + |ks| / 64) % 0x1_0000_0000;
    off' := off + |ks|;
  }

  lemma CounterAdvance(counter: u32, off: nat, n: nat)
    requires off % 64 == 0 && n % 64 == 0
    ensures (off + n) % 64 == 0
    ensures ((counter + off / 64) % 0x1_0000_0000 + n / 64) % 0x1_0000_0000
            == (counter + (off + n) / 64) % 0x1_0000_0000
  {
    assert (off + n) / 64 == off / 64 + n / 64;
  }

  lemma KeystreamBytes(key: Key, counter: u32, nonce: Nonce12, n: nat)
    ensures forall i :: 0 <= i < n ==> Keystream(key, counter, nonce, n)[i] == KeystreamByte(key, counter, nonce, i)
  {
    hide KeystreamByte;
  }

  lemma BlockIsKeystream(key: Key, counter: u32, nonce: Nonce12)
    ensures Block(key, counter, nonce) == Keystream(key, counter, nonce, 64)
  {
    hide Block;
  }

  method Wipe(a: array<u8>)
    modifies a
    ensures a[..] == Zeros(a.Length)
  {
    Zeroize.ZeroizeSlice(a);
  }

  /** XOR a separate input into the output. */
  method ChaCha20Keystream(cpu: Cpu, key: Key, counter: u32, nonce: Nonce12, input: seq<u8>, output: array<u8>)
    requires |input| == output.Length
    modifies output
    ensures output[..] == XorKeystream(key, counter, nonce, input)
  {
    hide XorKeystream, Keystream;
    ChaCha20Apply(cpu, key, counter, nonce, Separate(input), output);
  }

  /** Bare keystream, for key derivation. */
  method ChaCha20KeystreamRaw(cpu: Cpu, key: Key, counter: u32, nonce: Nonce12, out: array<u8>)
    modifies out
    ensures out[..] == Keystream(key, counter, nonce, out.Length)
  {
    hide XorKeystream, Keystream;
    ChaCha20Apply(cpu, key, counter, nonce, KeystreamOnly, out);
  }

  /** Applying the same keystream twice restores the buffer, in place or into another buffer. */
  lemma ApplyTwice(key: Key, counter: u32, nonce: Nonce12, buffer: seq<u8>)
    ensures var once := Applied(key, counter, nonce, InPlace, buffer);
            && Applied(key, counter, nonce, InPlace, once) == buffer
            && Applied(key, counter, nonce, Separate(once), once) == buffer
  {
    hide Keystream, Xor8;
    XorBytesInvolution(buffer, Keystream(key, counter, nonce, |buffer|));
  }

  /** Bit by bit: an input bit is flipped where the keystream has a one and kept where it has a zero. */
  lemma AppliedBit(key: Key, counter: u32, nonce: Nonce12, bytes: seq<u8>, buffer: seq<u8>, i: nat, k: nat)
    requires i < |bytes| == |buffer|
    ensures var s := Bit(KeystreamByte(key, counter, nonce, i), k);
            && Bit(Applied(key, counter, nonce, Separate(bytes), buffer)[i], k) == (Bit(bytes[i], k) + s) % 2
            && Bit(Applied(key, counter, nonce, InPlace, buffer)[i], k) == (Bit(buffer[i], k) + s) % 2
            && Bit(Applied(key, counter, nonce, KeystreamOnly, buffer)[i], k) == s
  {
    hide KeystreamByte, Bit, Xor8;
    Xor8Bit(bytes[i], KeystreamByte(key, counter, nonce, i), k);
    Xor8Bit(buffer[i], KeystreamByte(key, counter, nonce, i), k);
  }

  // ---- The length limit and the block counter --------------------------------

  const MAX_MSG_SIZE: nat := 0x40_0000_0000

  /** The counter used for the byte at position `i` of a message that starts at counter 0. */
  function CounterOf(i: nat): u32
  {
    i / 64 % 0x1_0000_0000
  }

  /** No two blocks of an `n`-byte message share a counter. */
  ghost predicate NoCounterReuse(n: nat)
  {
    forall i, j :: 0 <= i < n && 0 <= j < n && i / 64 != j / 64 ==> CounterOf(i) != CounterOf(j)
  }

  /** `MAX_MSG_SIZE` is exactly the longest message whose blocks have distinct counters: every
      accepted length is safe, and one byte more would use counter 0 again. The counter is the one
      the keystream is taken at. */
  lemma LimitIsTight(n: nat)
    ensures NoCounterReuse(n) <==> n <= MAX_MSG_SIZE
    ensures forall key: Key, nonce: Nonce12, i: nat ::
              KeystreamByte(key, 0, nonce, i) == Block(key, CounterOf(i), nonce)[i % 64]
  {
    hide Block;
    if n <= MAX_MSG_SIZE {
      forall i, j | 0 <= i < n && 0 <= j < n && i / 64 != j / 64 ensures CounterOf(i) != CounterOf(j) {
        assert CounterOf(i) == i / 64 && CounterOf(j) == j / 64;
      }
    } else {
      assert CounterOf(0) == CounterOf(MAX_MSG_SIZE) == 0;
      assert 0 / 64 != MAX_MSG_SIZE / 64;
    }
  }
}
