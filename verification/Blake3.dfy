/** Keyed BLAKE3 as its paper defines it: the compression function (section 2.2), chunk
    chaining values (2.4), the binary tree (2.1, 2.5) and extendable output (2.6). The tree is
    defined for any compression function, so that what is proved about it holds for all. */
module Blake3 {
  import opened Words
  import opened ChaCha

  type CV = s: seq<u32> | |s| == 8 witness ZeroWords(8)

  /** chaining value, message block, counter, block length, flags */
  type CompressFn = (CV, State, u64, u32, u32) -> State

  const BLOCK: nat := 64
  const CHUNK: nat := 1024
  const CHUNK_START: u32 := 1
  const CHUNK_END: u32 := 2
  const PARENT: u32 := 4
  const ROOT: u32 := 8
  const KEYED_HASH: u32 := 16

  // ---- The compression function ---------------------------------------------

  const BLAKE3_IV: CV := [
    0x6A09E667, 0xBB67AE85, 0x3C6EF372, 0xA54FF53A, 0x510E527F, 0x9B05688C, 0x1F83D9AB, 0x5BE0CD19]

  type Index16 = i: nat | i < 16

  const MSG_PERMUTATION: seq<Index16> := [2, 6, 3, 10, 7, 0, 4, 13, 1, 11, 12, 5, 9, 14, 15, 8]

  function Mix(a0: u32, b0: u32, c0: u32, d0: u32, mx: u32, my: u32): Quad
  {
    var a := Add32(Add32(a0, b0), mx);
    var d := RotateRight(Xor32(d0, a), 16);
    var c := Add32(c0, d);
    var b := RotateRight(Xor32(b0, c), 12);
    var a := Add32(Add32(a, b), my);
    var d := RotateRight(Xor32(d, a), 8);
    var c := Add32(c, d);
    var b := RotateRight(Xor32(b, c), 7);
    (a, b, c, d)
  }

  function MixAt(s: State, i: nat, j: nat, k: nat, l: nat, mx: u32, my: u32): State
    requires Distinct(i, j, k, l)
  {
    var (a, b, c, d) := Mix(s[i], s[j], s[k], s[l], mx, my);
    s[i := a][j := b][k := c][l := d]
  }

  /** The first `n` of the eight mixes of a round; the places are those of a ChaCha double round. */
  function RunMixes(s: State, m: State, n: nat): State
    requires n <= 8
    decreases n, |s|
  {
    if n == 0 then s
    else
      var q := DOUBLE_ROUND[n - 1];
      MixAt(RunMixes(s, m, n - 1), q.0, q.1, q.2, q.3, m[2 * n - 2], m[2 * n - 1])
  }

  function Permute(m: State): State
  {
    seq(16, i requires 0 <= i < 16 => m[MSG_PERMUTATION[i]])
  }

  /** The message schedule: the block permuted `n` times. */
  function Permuted(m: State, n: nat): State
    decreases n, |m|
  {
    if n == 0 then m else Permute(Permuted(m, n - 1))
  }

  /** `n` rounds; BLAKE3 runs seven. */
  function RunRounds(s: State, m: State, n: nat): State
    decreases n, |s|
  {
    if n == 0 then s else RunMixes(RunRounds(s, m, n - 1), Permuted(m, n - 1), 8)
  }

  function CompressStart(cv: CV, counter: u64, blockLen: u32, flags: u32): State
  {
    cv + BLAKE3_IV[..4] + [counter % 0x1_0000_0000, counter / 0x1_0000_0000, blockLen, flags]
  }

  function CompressEnd(cv: CV, s: State): State
  {
    seq(16, i requires 0 <= i < 16 => if i < 8 then Xor32(s[i], s[i + 8]) else Xor32(s[i], cv[i - 8]))
  }

  function Compress(cv: CV, m: State, counter: u64, blockLen: u32, flags: u32): State
  {
    CompressEnd(cv, RunRounds(CompressStart(cv, counter, blockLen, flags), m, 7))
  }

  // ---- Nodes ------------------------------------------------------------------

  /** A node ready to be compressed: as an inner node it yields a chaining value, as the root
      it yields output bytes. */
  datatype Node = Node(inputCv: CV, blockWords: State, counter: u64, blockLen: u32, flags: u32)

  function NodeCv(f: CompressFn, n: Node): CV
  {
    f(n.inputCv, n.blockWords, n.counter, n.blockLen, n.flags)[..8]
  }

  /** Output block `i` of the root: the same compression at counter `i` with the ROOT flag. */
  function RootBlock(f: CompressFn, n: Node, i: nat): (b: seq<u8>)
    ensures |b| == 64
  {
    BytesOf(f(n.inputCv, n.blockWords, i % 0x1_0000_0000_0000_0000, n.blockLen, Or32(n.flags, ROOT)))
  }

  /** The first `len` bytes of the root's output. */
  function Xof(f: CompressFn, n: Node, len: nat): (o: seq<u8>)
    ensures |o| == len
  {
    seq(len, i requires 0 <= i < len => RootBlock(f, n, i / 64)[i % 64])
  }

  /** A shorter output is a prefix of a longer one. */
  lemma XofPrefix(f: CompressFn, n: Node, k: nat, len: nat)
    requires k <= len
    ensures Xof(f, n, len)[..k] == Xof(f, n, k)
  {
  }

  // ---- Chunks -----------------------------------------------------------------

  function StartFlag(blocks: nat): u32
  {
    if blocks == 0 then CHUNK_START else 0
  }

  /** A block of at most 64 bytes, padded with zeros, as words. */
  function PaddedBlock(b: seq<u8>): State
    requires |b| <= BLOCK
  {
    WordsOf(b + Zeros(BLOCK - |b|))
  }

  /** The chaining value after the first `n` blocks of a chunk, none of them the last. */
  function ChunkCv(f: CompressFn, key: CV, flags: u32, counter: u64, bytes: seq<u8>, n: nat): CV
    requires BLOCK * n <= |bytes|
  {
    if n == 0 then key
    else
      f(ChunkCv(f, key, flags, counter, bytes, n - 1),
        PaddedBlock(bytes[BLOCK * (n - 1)..BLOCK * n]), counter, BLOCK, Or32(flags, StartFlag(n - 1)))[..8]
  }

  /** The blocks before the last one. The last block is empty only when the chunk is. */
  function LeadingBlocks(n: nat): nat
  {
    if n == 0 then 0 else (n - 1) / BLOCK
  }

  function ChunkNode(f: CompressFn, key: CV, flags: u32, counter: u64, bytes: seq<u8>): Node
  {
    var n := LeadingBlocks(|bytes|);
    var last := bytes[BLOCK * n..];
    Node(ChunkCv(f, key, flags, counter, bytes, n), PaddedBlock(last), counter, |last|,
         Or32(Or32(flags, StartFlag(n)), CHUNK_END))
  }

  // ---- The tree ---------------------------------------------------------------

  function ParentNode(key: CV, left: CV, right: CV): Node
  {
    Node(key, left + right, 0, BLOCK, Or32(KEYED_HASH, PARENT))
  }

  function ChunkCount(n: nat): nat
  {
    if n == 0 then 1 else (n - 1) / CHUNK + 1
  }

  /** The size of a left subtree: the largest power of two strictly below the chunk count. */
  function LeftChunks(c: nat): nat
    requires c >= 2
  {
    if c == 2 then 1 else 2 * LeftChunks((c + 1) / 2)
  }

  lemma {:induction false} LeftChunksBounds(c: nat)
    requires c >= 2
    ensures 1 <= LeftChunks(c) < c <= 2 * LeftChunks(c)
  {
    if c > 2 {
      LeftChunksBounds((c + 1) / 2);
    }
  }

  /** The tree over `bytes`, whose first chunk has index `start`. */
  function TreeNode(f: CompressFn, key: CV, start: nat, bytes: seq<u8>): Node
    decreases |bytes|
  {
    if |bytes| <= CHUNK then ChunkNode(f, key, KEYED_HASH, start % 0x1_0000_0000_0000_0000, bytes)
    else
      LeftChunksBounds(ChunkCount(|bytes|));
      var left := LeftChunks(ChunkCount(|bytes|));
      ParentNode(key, NodeCv(f, TreeNode(f, key, start, bytes[..CHUNK * left])),
                 NodeCv(f, TreeNode(f, key, start + left, bytes[CHUNK * left..])))
  }

  /** Keyed BLAKE3 with `len` bytes of output. */
  function KeyedHashWith(f: CompressFn, key: Key, input: seq<u8>, len: nat): (o: seq<u8>)
    ensures |o| == len
  {
    Xof(f, TreeNode(f, WordsOf(key), 0, input), len)
  }

  function KeyedHash(key: Key, input: seq<u8>, len: nat): (o: seq<u8>)
    ensures |o| == len
  {
    KeyedHashWith(Compress, key, input, len)
  }
}
