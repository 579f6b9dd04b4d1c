/** The portable compression of the vendored `blake3` crate (`blake3/src/portable.rs`), written out
    with a schedule table and separate chunk flags. It is the same function as the compression of
    the second implementation, and its whole-block hash gives the chunks and parents of the tree. */
module Portable {
  import opened Words
  import opened ChaCha
  import opened ChaChaCore
  import opened Blake3
  import opened Blake3Calls
  import WitnessHasher

  method G(state: array<u32>, a: nat, b: nat, c: nat, d: nat, x: u32, y: u32)
    requires state.Length == 16 && Distinct(a, b, c, d)
    modifies state
    ensures state[..] == MixAt(old(state[..]), a, b, c, d, x, y)
  {
    hide Add32, Xor32, RotateRight;
    ghost var m := Mix(state[a], state[b], state[c], state[d], x, y);
    state[a] := Add32(Add32(state[a], state[b]), x);
    state[d] := RotateRight(Xor32(state[d], state[a]), 16);
    state[c] := Add32(state[c], state[d]);
    state[b] := RotateRight(Xor32(state[b], state[c]), 12);
    state[a] := Add32(Add32(state[a], state[b]), y);
    state[d] := RotateRight(Xor32(state[d], state[a]), 8);
    state[c] := Add32(state[c], state[d]);
    state[b] := RotateRight(Xor32(state[b], state[c]), 7);
    assert (state[a], state[b], state[c], state[d]) == m;
  }

  /** A round reads the block through the schedule instead of permuting it. */
  method Round(state: array<u32>, msg: State, round: nat)
    requires state.Length == 16 && round < 7
    modifies state
    ensures state[..] == RunMixes(old(state[..]), Permuted(msg, round), 8)
  {
    hide MixAt, Permuted;
    var schedule := MSG_SCHEDULE[round];
    ghost var s, m := state[..], Permuted(msg, round);
    forall i | 0 <= i < 16 ensures m[i] == msg[schedule[i]] {
      PermutedIsScheduled(msg, round, i);
    }
    G(state, 0, 4, 8, 12, msg[schedule[0]], msg[schedule[1]]);
    assert state[..] == RunMixes(s, m, 1);
    G(state, 1, 5, 9, 13, msg[schedule[2]], msg[schedule[3]]);
    assert state[..] == RunMixes(s, m, 2);
    G(state, 2, 6, 10, 14, msg[schedule[4]], msg[schedule[5]]);
    assert state[..] == RunMixes(s, m, 3);
    G(state, 3, 7, 11, 15, msg[schedule[6]], msg[schedule[7]]);
    assert state[..] == RunMixes(s, m, 4);
    G(state, 0, 5, 10, 15, msg[schedule[8]], msg[schedule[9]]);
    assert state[..] == RunMixes(s, m, 5);
    G(state, 1, 6, 11, 12, msg[schedule[10]], msg[schedule[11]]);
    assert state[..] == RunMixes(s, m, 6);
    G(state, 2, 7, 8, 13, msg[schedule[12]], msg[schedule[13]]);
    assert state[..] == RunMixes(s, m, 7);
    G(state, 3, 4, 9, 14, msg[schedule[14]], msg[schedule[15]]);
  }

  method CompressPre(cv: CV, block: array<u8>, blockLen: u32, counter: u64, flags: u32) returns (state: array<u32>)
    requires block.Length == 64
    ensures fresh(state) && state.Length == 16
    ensures state[..] == RunRounds(CompressStart(cv, counter, blockLen, flags), WordsOf(block[..]), 7)
  {
    hide RunMixes, Permuted, WordsOf;
    var words := WitnessHasher.WordsFromLeBytes(block);
    var start := [
      cv[0], cv[1], cv[2], cv[3], cv[4], cv[5], cv[6], cv[7],
      BLAKE3_IV[0], BLAKE3_IV[1], BLAKE3_IV[2], BLAKE3_IV[3],
      counter % 0x1_0000_0000, counter / 0x1_0000_0000, blockLen, flags];
    state := new u32[16](i requires 0 <= i < 16 => start[i]);
    ghost var s := CompressStart(cv, counter, blockLen, flags);
    assert state[..] == start == s;
    for r := 0 to 7
      invariant state[..] == RunRounds(s, words, r)
    {
      Round(state, words, r);
    }
  }

  /** The next chaining value replaces the old one. */
  method CompressInPlace(cv: array<u32>, block: array<u8>, blockLen: u32, counter: u64, flags: u32)
    requires cv.Length == 8 && block.Length == 64
    modifies cv
    ensures cv[..] == Compress(old(cv[..]), WordsOf(block[..]), counter, blockLen, flags)[..8]
  {
    hide RunRounds, CompressStart, WordsOf, Xor32;
    ghost var was := cv[..];
    var state := CompressPre(cv[..], block, blockLen, counter, flags);
    ghost var s := state[..];
    for i := 0 to 8
      invariant state[..] == s
      invariant forall j :: 0 <= j < i ==> cv[j] == Xor32(state[j], state[j + 8])
    {
      cv[i] := Xor32(state[i], state[i + 8]);
    }
    assert cv[..] == CompressEnd(was, s)[..8];
  }

  /** A block of extended output: both halves, as bytes. */
  method CompressXof(cv: CV, block: array<u8>, blockLen: u32, counter: u64, flags: u32) returns (out: seq<u8>)
    requires block.Length == 64
    ensures out == BytesOf(Compress(cv, WordsOf(block[..]), counter, blockLen, flags))
  {
    hide RunRounds, CompressStart, WordsOf, Xor32, BytesOf;
    var state := CompressPre(cv, block, blockLen, counter, flags);
    ghost var s := state[..];
    for i := 0 to 8
      invariant forall j :: 0 <= j < i ==> state[j] == Xor32(s[j], s[j + 8])
      invariant forall j :: i <= j < 16 ==> state[j] == s[j]
    {
      state[i] := Xor32(state[i], state[i + 8]);
    }
    for i := 8 to 16
      invariant forall j :: 0 <= j < 8 ==> state[j] == Xor32(s[j], s[j + 8])
      invariant forall j :: 8 <= j < i ==> state[j] == Xor32(s[j], cv[j - 8])
      invariant forall j :: i <= j < 16 ==> state[j] == s[j]
    {
      state[i] := Xor32(state[i], cv[i - 8]);
    }
    assert state[..] == CompressEnd(cv, s);
    out := BytesOf(state[..]);
  }

  // ---- Whole blocks ------------------------------------------------------------------

  /** The flags of block `i` of `n`. */
  function BlockFlags(flags: u32, start: u32, end: u32, i: nat, n: nat): u32
  {
    var f := if i == 0 then Or32(flags, start) else flags;
    if i + 1 == n then Or32(f, end) else f
  }

  /** The chaining value after the first `i` of `n` blocks. */
  function Chain(key: CV, flags: u32, start: u32, end: u32, counter: u64, bytes: seq<u8>, i: nat): CV
    requires 64 * i <= |bytes|
  {
    if i == 0 then key
    else
      Compress(Chain(key, flags, start, end, counter, bytes, i - 1), WordsOf(bytes[64 * (i - 1)..64 * i]),
               counter, 64, BlockFlags(flags, start, end, i - 1, |bytes| / 64))[..8]
  }

  /** `hash1`: the input is a whole number of blocks. */
  method Hash1(input: seq<u8>, key: CV, counter: u64, flags: u32, start: u32, end: u32) returns (out: seq<u8>)
    requires |input| % 64 == 0
    ensures out == BytesOf(Chain(key, flags, start, end, counter, input, |input| / 64))
  {
    hide Compress, WordsOf, BytesOf, Or32;
    var cv := new u32[8](i requires 0 <= i < 8 => key[i]);
    assert cv[..] == key;
    var blockFlags := Or32(flags, start);
    var slice := input;
    ghost var n := |input| / 64;
    ghost var i := 0;
    while |slice| >= 64
      invariant i <= n && slice == input[64 * i..]
      invariant cv[..] == Chain(key, flags, start, end, counter, input, i)
      invariant blockFlags == if i == 0 then Or32(flags, start) else flags
    {
      if |slice| == 64 {
        blockFlags := Or32(blockFlags, end);
      }
      var block := new u8[64](j requires 0 <= j < 64 => slice[j]);
      assert block[..] == input[64 * i..64 * (i + 1)];
      CompressInPlace(cv, block, 64, counter, blockFlags);
      blockFlags := flags;
      slice := slice[64..];
      i := i + 1;
    }
    out := BytesOf(cv[..]);
  }

  /** With the flags of a chunk it gives the chaining value of a chunk of whole blocks. */
  lemma ChunkOfBlocks(key: CV, counter: u64, bytes: seq<u8>)
    requires 0 < |bytes| <= 1024 && |bytes| % 64 == 0
    ensures Chain(key, 16, 1, 2, counter, bytes, |bytes| / 64)
            == NodeCv(Compress, ChunkNode(Compress, key, 16, counter, bytes))
  {
    hide Compress, WordsOf, Or32, ChunkCv, Chain;
    FlagSums();
    var n := |bytes| / 64 - 1;
    LeadingChain(key, counter, bytes, n);
    assert bytes[64 * n..] + Zeros(0) == bytes[64 * n..64 * (n + 1)];
    ChainStep(key, 16, 1, 2, counter, bytes, n + 1);
  }

  lemma ChainStart(key: CV, flags: u32, start: u32, end: u32, counter: u64, bytes: seq<u8>)
    ensures Chain(key, flags, start, end, counter, bytes, 0) == key
  {
  }

  lemma ChainStep(key: CV, flags: u32, start: u32, end: u32, counter: u64, bytes: seq<u8>, i: nat)
    requires 0 < i && 64 * i <= |bytes|
    ensures Chain(key, flags, start, end, counter, bytes, i)
            == Compress(Chain(key, flags, start, end, counter, bytes, i - 1), WordsOf(bytes[64 * (i - 1)..64 * i]),
                        counter, 64, BlockFlags(flags, start, end, i - 1, |bytes| / 64))[..8]
  {
  }

  lemma {:induction false} LeadingChain(key: CV, counter: u64, bytes: seq<u8>, i: nat)
    requires 64 * i < |bytes| && |bytes| % 64 == 0
    ensures Chain(key, 16, 1, 2, counter, bytes, i) == ChunkCv(Compress, key, 16, counter, bytes, i)
  {
    hide Compress, WordsOf, Or32, Chain;
    if i == 0 {
      ChainStart(key, 16, 1, 2, counter, bytes);
    } else {
      FlagSums();
      LeadingChain(key, counter, bytes, i - 1);
      ChainStep(key, 16, 1, 2, counter, bytes, i);
      var b := bytes[64 * (i - 1)..64 * i];
      assert b + Zeros(0) == b;
    }
  }

  /** With the flags of a parent it joins two chaining values. */
  lemma ParentOfBlock(key: CV, left: CV, right: CV)
    ensures Chain(key, 20, 0, 0, 0, BytesOf(left + right), 1) == NodeCv(Compress, ParentNode(key, left, right))
  {
    FlagSums();
    OrNothing(20);
    var b := BytesOf(left + right);
    forall i | 0 <= i < 16 ensures WordsOf(b)[i] == (left + right)[i] {
      BytesOfWord(left + right, i);
    }
    assert b[0..64] == b && WordsOf(b) == left + right;
    hide Compress, WordsOf, BytesOf, Chain;
    ChainStep(key, 20, 0, 0, 0, b, 1);
    ChainStart(key, 20, 0, 0, 0, b);
  }
}
