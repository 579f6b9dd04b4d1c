/** Which calls of the compression function a keyed hash is made of. A compression function that
    answers with its own arguments makes them visible: here are the flags, block length and
    counter of every call, in numbers, for every key and input. And the two tables of the
    compression function, each against a description that is not a table of this program. */
module Blake3Calls {
  import opened Words
  import opened ChaCha
  import opened Blake3

  // ---- A compression function that shows how it was called -----------------------------

  function Probe(cv: CV, m: State, counter: u64, blockLen: u32, flags: u32): State
  {
    [flags, blockLen, counter % 0x1_0000_0000, counter / 0x1_0000_0000] + cv[..4] + m[..8]
  }

  /** What a call with these arguments is seen as. */
  function Call(flags: u32, blockLen: u32, counter: u64): (w: seq<u32>)
    ensures |w| == 4
  {
    [flags, blockLen, counter % 0x1_0000_0000, counter / 0x1_0000_0000]
  }

  /** The flags as unions of single bits. */
  lemma FlagSums()
    ensures Or32(16, 0) == 16 && Or32(16, 1) == 17 && Or32(17, 2) == 19 && Or32(16, 2) == 18 && Or32(16, 4) == 20
    ensures Or32(19, 8) == 27 && Or32(18, 8) == 26 && Or32(20, 8) == 28
  {
    OrNothing(1);
    OrNothing(2);
    OrNothing(16);
    assert BitOr(2, 0) == 2 && BitOr(4, 0) == 4 && BitOr(8, 0) == 8;
    assert BitOr(2, 1) == 3 && BitOr(4, 1) == 5 && BitOr(4, 2) == 6 && BitOr(5, 2) == 7;
    assert BitOr(8, 1) == 9 && BitOr(8, 2) == 10 && BitOr(9, 4) == 13 && BitOr(10, 4) == 14;
  }

  /** Every block of a chunk before the last: KEYED_HASH, and CHUNK_START for the first one only. */
  lemma BlockCall(key: CV, counter: u64, bytes: seq<u8>, n: nat)
    requires 0 < n && 64 * n <= |bytes|
    ensures ChunkCv(Probe, key, 16, counter, bytes, n)[..4] == Call(if n == 1 then 17 else 16, 64, counter)
  {
    FlagSums();
    hide Or32;
  }

  /** The length of the last block of a chunk: 1 to 64 bytes, none only if the chunk is empty. */
  function LastLength(n: nat): nat
  {
    if n == 0 then 0 else if n % 64 == 0 then 64 else n % 64
  }

  lemma ChunkCall(f: CompressFn, key: CV, counter: u64, bytes: seq<u8>)
    requires |bytes| <= 1024
    ensures var n := ChunkNode(f, key, 16, counter, bytes);
            && n.flags == (if |bytes| <= 64 then 19 else 18)
            && n.blockLen == LastLength(|bytes|) && n.counter == counter
  {
    FlagSums();
    hide Or32, ChunkCv;
  }

  /** The flags that a node over `n` bytes carries before it is known whether it is the root. */
  function NodeFlags(n: nat): u32
  {
    if n <= 64 then 19 else if n <= 1024 then 18 else 20
  }

  lemma TreeCall(f: CompressFn, key: CV, start: u64, bytes: seq<u8>)
    ensures var n := TreeNode(f, key, start, bytes);
            && n.flags == NodeFlags(|bytes|)
            && n.blockLen == (if |bytes| <= 1024 then LastLength(|bytes|) else 64)
            && n.counter == (if |bytes| <= 1024 then start else 0)
  {
    FlagSums();
    if |bytes| <= 1024 {
      ChunkCall(f, key, start, bytes);
    }
    hide Or32, ChunkNode;
  }

  /** Every node below the root: a chunk of one block is 16 + 1 + 2, a longer chunk ends with 16 + 2,
      a parent is 16 + 4; a chunk is called with its index, a parent with counter 0. */
  lemma InnerCall(key: CV, start: u64, bytes: seq<u8>)
    ensures NodeCv(Probe, TreeNode(Probe, key, start, bytes))[..4]
            == if |bytes| <= 1024 then Call(NodeFlags(|bytes|), LastLength(|bytes|), start) else Call(20, 64, 0)
  {
    TreeCall(Probe, key, start, bytes);
    hide TreeNode;
  }

  /** The words of output block `j` are those of one call. */
  lemma OutputWord(f: CompressFn, root: Node, j: nat, i: nat)
    requires i < 16
    ensures WordsOf(Xof(f, root, 64 * j + 64))[16 * j + i]
            == f(root.inputCv, root.blockWords, j % 0x1_0000_0000_0000_0000, root.blockLen, Or32(root.flags, 8))[i]
  {
    hide Or32, BytesOf, Le32;
    var words := f(root.inputCv, root.blockWords, j % 0x1_0000_0000_0000_0000, root.blockLen, Or32(root.flags, 8));
    var out := Xof(f, root, 64 * j + 64);
    assert out[64 * j + 4 * i..64 * j + 4 * i + 4] == BytesOf(words)[4 * i..4 * i + 4] by {
      var o := 64 * j + 4 * i;
      forall b | o <= b < o + 4 ensures out[b] == BytesOf(words)[b - 64 * j] {
        assert b / 64 == j && b % 64 == b - 64 * j;
      }
    }
    BytesOfWord(words, i);
    assert 4 * (16 * j + i) == 64 * j + 4 * i;
  }

  /** Output block `j` of a keyed hash: the root of the whole input with flag 8 added, at counter `j`. */
  lemma RootCall(key: Key, input: seq<u8>, j: nat, i: nat)
    requires i < 4
    ensures WordsOf(KeyedHashWith(Probe, key, input, 64 * j + 64))[16 * j + i]
            == Call(NodeFlags(|input|) + 8, if |input| <= 1024 then LastLength(|input|) else 64,
                    j % 0x1_0000_0000_0000_0000)[i]
  {
    var root := TreeNode(Probe, WordsOf(key), 0, input);
    TreeCall(Probe, WordsOf(key), 0, input);
    FlagSums();
    hide Or32, TreeNode, Probe, WordsOf, Xof;
    OutputWord(Probe, root, j, i);
    ProbeShows(root.inputCv, root.blockWords, j % 0x1_0000_0000_0000_0000, root.blockLen, Or32(root.flags, 8), i);
  }

  lemma ProbeShows(cv: CV, m: State, counter: u64, blockLen: u32, flags: u32, i: nat)
    requires i < 4
    ensures Probe(cv, m, counter, blockLen, flags)[i] == Call(flags, blockLen, counter)[i]
  {
  }

  // ---- The tables ------------------------------------------------------------------------

  const PRIMES: seq<nat> := [2, 3, 5, 7, 11, 13, 17, 19]

  /** The integer part of the square root of a number below 25. */
  function RootFloor(n: nat): nat
  {
    if n < 4 then 1 else if n < 9 then 2 else if n < 16 then 3 else 4
  }

  /** Word `i` of the initial value is the first 32 bits of the fraction of the square root of the
      `i`-th prime. */
  lemma IvIsSquareRoots(i: nat)
    requires i < 8
    ensures var x := RootFloor(PRIMES[i]) * 0x1_0000_0000 + BLAKE3_IV[i];
            x * x <= PRIMES[i] * 0x1_0000_0000_0000_0000 < (x + 1) * (x + 1)
  {
  }

  /** The schedule of the dependency's portable implementation: which block word each round takes where. */
  const MSG_SCHEDULE: seq<seq<Index16>> := [
    [0, 1, 2, 3, 4, 5, 6, 7, 8, 9, 10, 11, 12, 13, 14, 15],
    [2, 6, 3, 10, 7, 0, 4, 13, 1, 11, 12, 5, 9, 14, 15, 8],
    [3, 4, 10, 12, 13, 2, 7, 14, 6, 5, 9, 0, 11, 15, 8, 1],
    [10, 7, 12, 9, 14, 3, 13, 15, 4, 0, 11, 2, 5, 8, 1, 6],
    [12, 13, 9, 11, 15, 10, 14, 8, 7, 2, 5, 3, 0, 1, 6, 4],
    [9, 14, 11, 5, 8, 12, 15, 1, 13, 3, 0, 10, 2, 6, 4, 7],
    [11, 15, 5, 0, 1, 9, 8, 6, 14, 10, 2, 12, 3, 4, 7, 13]]

  /** Permuting the block before each round after the first gives that schedule. */
  lemma {:induction false} PermutedIsScheduled(m: State, r: nat, i: nat)
    requires r < 7 && i < 16
    ensures Permuted(m, r)[i] == m[MSG_SCHEDULE[r][i]]
  {
    if r != 0 {
      PermutedIsScheduled(m, r - 1, MSG_PERMUTATION[i]);
      ScheduleStep(r, i);
    }
  }

  lemma ScheduleStep(r: nat, i: nat)
    requires 0 < r < 7 && i < 16
    ensures MSG_SCHEDULE[r - 1][MSG_PERMUTATION[i]] == MSG_SCHEDULE[r][i]
  {
  }
}
