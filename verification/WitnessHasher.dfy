/** The second implementation's streaming keyed BLAKE3 (`src/witness.rs`): a chunk state that
    compresses a block only when more input arrives, a hasher that closes a chunk only when
    more input arrives, a fixed stack of 64 chaining values, and extendable output. */
module WitnessHasher {
  import opened Words
  import opened ChaCha
  import opened Blake3
  import opened Blake3Tree
  import opened ChaChaCore

  // ---- The compression function, in place -----------------------------------

  method WordsFromLeBytes(bytes: array<u8>) returns (w: State)
    requires bytes.Length == 64
    ensures w == WordsOf(bytes[..])
  {
    hide Le32;
    var a := new u32[16](_ => 0);
    for i := 0 to 16
      invariant forall j :: 0 <= j < i ==> a[j] == WordsOf(bytes[..])[j]
    {
      a[i] := Le32(bytes[4 * i..4 * i + 4]);
      assert bytes[4 * i..4 * i + 4] == bytes[..][4 * i..4 * i + 4];
    }
    w := a[..];
  }

  method MixInPlace(state: array<u32>, a: nat, b: nat, c: nat, d: nat, mx: u32, my: u32)
    requires state.Length == 16 && Distinct(a, b, c, d)
    modifies state
    ensures state[..] == MixAt(old(state[..]), a, b, c, d, mx, my)
  {
    hide Add32, Xor32, RotateRight;
    ghost var m := Mix(state[a], state[b], state[c], state[d], mx, my);
    state[a] := Add32(Add32(state[a], state[b]), mx);
    state[d] := RotateRight(Xor32(state[d], state[a]), 16);
    state[c] := Add32(state[c], state[d]);
    state[b] := RotateRight(Xor32(state[b], state[c]), 12);
    state[a] := Add32(Add32(state[a], state[b]), my);
    state[d] := RotateRight(Xor32(state[d], state[a]), 8);
    state[c] := Add32(state[c], state[d]);
    state[b] := RotateRight(Xor32(state[b], state[c]), 7);
    assert (state[a], state[b], state[c], state[d]) == m;
  }

  method Round(state: array<u32>, m: State)
    requires state.Length == 16
    modifies state
    ensures state[..] == RunMixes(old(state[..]), m, 8)
  {
    hide MixAt;
    ghost var s := state[..];
    MixInPlace(state, 0, 4, 8, 12, m[0], m[1]);
    assert state[..] == RunMixes(s, m, 1);
    MixInPlace(state, 1, 5, 9, 13, m[2], m[3]);
    assert state[..] == RunMixes(s, m, 2);
    MixInPlace(state, 2, 6, 10, 14, m[4], m[5]);
    assert state[..] == RunMixes(s, m, 3);
    MixInPlace(state, 3, 7, 11, 15, m[6], m[7]);
    assert state[..] == RunMixes(s, m, 4);
    MixInPlace(state, 0, 5, 10, 15, m[8], m[9]);
    assert state[..] == RunMixes(s, m, 5);
    MixInPlace(state, 1, 6, 11, 12, m[10], m[11]);
    assert state[..] == RunMixes(s, m, 6);
    MixInPlace(state, 2, 7, 8, 13, m[12], m[13]);
    assert state[..] == RunMixes(s, m, 7);
    MixInPlace(state, 3, 4, 9, 14, m[14], m[15]);
  }

  method PermuteBlock(m: State) returns (p: State)
    ensures p == Permute(m)
  {
    var a := new u32[16](_ => 0);
    for i := 0 to 16
      invariant forall j :: 0 <= j < i ==> a[j] == m[MSG_PERMUTATION[j]]
    {
      a[i] := m[MSG_PERMUTATION[i]];
    }
    p := a[..];
  }

  /** The feed-forward: the two halves xored, the second half xored with the chaining value. */
  method CompressFinish(state: array<u32>, cv: CV) returns (out: State)
    requires state.Length == 16
    ensures out == CompressEnd(cv, state[..])
  {
    hide Xor32;
    var o := new u32[16](_ => 0);
    for i := 0 to 8
      invariant forall j :: 0 <= j < i ==> o[j] == Xor32(state[j], state[j + 8])
      invariant forall j :: 8 <= j < 8 + i ==> o[j] == Xor32(state[j], cv[j - 8])
    {
      o[i] := Xor32(state[i], state[i + 8]);
      o[i + 8] := Xor32(state[i + 8], cv[i]);
    }
    out := o[..];
    assert out == CompressEnd(cv, state[..]);
  }

  method CompressWords(cv: CV, blockWords: State, counter: u64, blockLen: u32, flags: u32) returns (out: State)
    ensures out == Compress(cv, blockWords, counter, blockLen, flags)
  {
    hide RunMixes, Permute, Xor32;
    var start := cv + BLAKE3_IV[..4] + [counter % 0x1_0000_0000, counter / 0x1_0000_0000, blockLen, flags];
    var state := new u32[16](i requires 0 <= i < 16 => start[i]);
    assert state[..] == CompressStart(cv, counter, blockLen, flags);
    var m := blockWords;
    for r := 0 to 7
      invariant state[..] == RunRounds(CompressStart(cv, counter, blockLen, flags), blockWords, r)
      invariant m == Permuted(blockWords, r)
    {
      Round(state, m);
      m := PermuteBlock(m);
    }
    out := CompressFinish(state, cv);
    WipeWords(state);
  }

  // ---- Nodes ------------------------------------------------------------------

  method ChainingValue(n: Node) returns (cv: CV)
    ensures cv == NodeCv(Compress, n)
  {
    hide Compress;
    var words := CompressWords(n.inputCv, n.blockWords, n.counter, n.blockLen, n.flags);
    cv := words[..8];
  }

  /** The first `take` bytes of an output block, word by word; the last word may be cut short. */
  method WriteBlock(words: State, out: array<u8>, off: nat, take: nat)
    requires take <= 64 && off + take <= out.Length
    modifies out
    ensures forall i :: 0 <= i < take ==> out[off + i] == BytesOf(words)[i]
    ensures forall i :: 0 <= i < out.Length && !(off <= i < off + take) ==> out[i] == old(out[i])
  {
    hide LeByte;
    var w := 0;
    while 4 * w < take
      invariant w <= 16
      invariant forall i :: 0 <= i < out.Length && !(off <= i < off + take) ==> out[i] == old(out[i])
      invariant forall i :: 0 <= i < 4 * w && i < take ==> out[off + i] == BytesOf(words)[i]
    {
      var k := 0;
      while k < 4 && 4 * w + k < take
        invariant 0 <= k <= 4 && 4 * w + k <= take
        invariant forall i :: 0 <= i < out.Length && !(off <= i < off + take) ==> out[i] == old(out[i])
        invariant forall i :: 0 <= i < 4 * w + k ==> out[off + i] == BytesOf(words)[i]
      {
        out[off + (4 * w + k)] := LeByte(words[w], k);
        assert (4 * w + k) / 4 == w && (4 * w + k) % 4 == k;
        k := k + 1;
      }
      w := w + 1;
    }
  }

  /** Output blocks at counters 0, 1, 2, ... under ROOT; the last one may be cut short. */
  method RootOutputBytes(n: Node, out: array<u8>)
    modifies out
    ensures out[..] == Xof(Compress, n, out.Length)
  {
    hide Compress, BytesOf;
    var counter, off := 0, 0;
    ghost var target := Xof(Compress, n, out.Length);
    while off < out.Length
      invariant off <= out.Length && (off < out.Length ==> off == 64 * counter)
      invariant forall i :: 0 <= i < off ==> out[i] == target[i]
    {
      var words := CompressWords(n.inputCv, n.blockWords, counter % 0x1_0000_0000_0000_0000, n.blockLen,
                                 Or32(n.flags, ROOT));
      var take := if out.Length - off < 64 then out.Length - off else 64;
      WriteBlock(words, out, off, take);
      forall i | off <= i < off + take ensures out[i] == target[i] {
        assert i / 64 == counter && i % 64 == i - off;
        assert out[off + (i - off)] == BytesOf(words)[i - off];
      }
      off, counter := off + take, counter + 1;
    }
  }

  method ParentOutput(left: CV, right: CV, key: CV, flags: u32) returns (n: Node)
    requires flags == KEYED_HASH
    ensures n == ParentNode(key, left, right)
  {
    n := Node(key, left + right, 0, BLOCK, Or32(flags, PARENT));
  }

  method ParentCv(left: CV, right: CV, key: CV, flags: u32) returns (cv: CV)
    requires flags == KEYED_HASH
    ensures cv == NodeCv(Compress, ParentNode(key, left, right))
  {
    hide NodeCv;
    var n := ParentOutput(left, right, key, flags);
    cv := ChainingValue(n);
  }

  // ---- One chunk --------------------------------------------------------------

  lemma {:induction false} ChunkCvPrefix(f: CompressFn, key: CV, flags: u32, counter: u64,
                                         bytes: seq<u8>, more: seq<u8>, n: nat)
    requires BLOCK * n <= |bytes|
    ensures ChunkCv(f, key, flags, counter, bytes + more, n) == ChunkCv(f, key, flags, counter, bytes, n)
  {
    if n != 0 {
      hide PaddedBlock;
      ChunkCvPrefix(f, key, flags, counter, bytes, more, n - 1);
      assert (bytes + more)[BLOCK * (n - 1)..BLOCK * n] == bytes[BLOCK * (n - 1)..BLOCK * n];
    }
  }

  class ChunkState {
    var cv: CV
    var chunkCounter: u64
    const block: array<u8>
    var blockLen: nat
    var blocksCompressed: nat
    const flags: u32
    ghost const key: CV
    ghost var bytes: seq<u8>

    /** The buffered block and the chaining value account for every byte fed. */
    ghost predicate Partial()
      reads this, block
    {
      && block.Length == 64
      && 64 * blocksCompressed <= |bytes|
      && blockLen == |bytes| - 64 * blocksCompressed <= 64
      && block[..] == bytes[64 * blocksCompressed..] + Zeros(64 - blockLen)
      && cv == ChunkCv(Compress, key, flags, chunkCounter, bytes, blocksCompressed)
    }

    /** The lazy rule: the block buffer is empty only if the chunk is, so the last block is
        never compressed before it is known to be the last. */
    ghost predicate Valid()
      reads this, block
    {
      Partial() && blocksCompressed == LeadingBlocks(|bytes|)
    }

    constructor (key: CV, chunkCounter: u64, flags: u32)
      ensures Valid() && bytes == [] && fresh(block)
      ensures this.key == key && this.chunkCounter == chunkCounter && this.flags == flags
    {
      cv := key;
      this.chunkCounter := chunkCounter;
      block := new u8[64](_ => 0);
      blockLen := 0;
      blocksCompressed := 0;
      this.flags := flags;
      this.key := key;
      bytes := [];
      new;
      assert block[..] == Zeros(64);
    }

    function Len(): nat
      reads this
    {
      blocksCompressed * BLOCK + blockLen
    }

    /** Compress a full block, knowing that more input follows. */
    method Flush()
      requires Partial() && blockLen == 64
      modifies this, block
      ensures Partial() && blockLen == 0 && blocksCompressed == old(blocksCompressed) + 1
      ensures bytes == old(bytes) && chunkCounter == old(chunkCounter)
    {
      hide Compress, WordsOf;
      var words := WordsFromLeBytes(block);
      var full := CompressWords(cv, words, chunkCounter, BLOCK, Or32(flags, StartFlag(blocksCompressed)));
      assert block[..] == bytes[64 * blocksCompressed..64 * (blocksCompressed + 1)] + Zeros(0);
      cv := full[..8];
      blocksCompressed := blocksCompressed + 1;
      forall i | 0 <= i < 64 {
        block[i] := 0;
      }
      blockLen := 0;
      assert block[..] == bytes[64 * blocksCompressed..] + Zeros(64);
    }

    /** Copy input into the free part of the block. */
    method Absorb(part: seq<u8>)
      requires Partial() && |part| <= 64 - blockLen
      modifies this, block
      ensures Partial() && bytes == old(bytes) + part
      ensures blocksCompressed == old(blocksCompressed) && chunkCounter == old(chunkCounter)
    {
      hide ChunkCv;
      forall i | blockLen <= i < blockLen + |part| {
        block[i] := part[i - blockLen];
      }
      ChunkCvPrefix(Compress, key, flags, chunkCounter, bytes, part, blocksCompressed);
      blockLen := blockLen + |part|;
      bytes := bytes + part;
      assert block[..] == bytes[64 * blocksCompressed..] + Zeros(64 - blockLen);
    }

    method Update(input: seq<u8>)
      requires Valid()
      modifies this, block
      ensures Valid() && bytes == old(bytes) + input && chunkCounter == old(chunkCounter)
    {
      hide ChunkCv;
      var rest := input;
      while |rest| > 0
        invariant Valid() && bytes + rest == old(bytes) + input && chunkCounter == old(chunkCounter)
      {
        if blockLen == BLOCK {
          Flush();
        }
        var want := BLOCK - blockLen;
        var take := if want < |rest| then want else |rest|;
        Absorb(rest[..take]);
        assert rest == rest[..take] + rest[take..];
        rest := rest[take..];
        assert blocksCompressed == LeadingBlocks(|bytes|);
      }
    }

    method Output() returns (n: Node)
      requires Valid()
      ensures n == ChunkNode(Compress, key, flags, chunkCounter, bytes)
    {
      hide Compress, WordsOf, ChunkCv;
      var words := WordsFromLeBytes(block);
      n := Node(cv, words, chunkCounter, blockLen, Or32(Or32(flags, StartFlag(blocksCompressed)), CHUNK_END));
    }
  }

  // ---- The chaining-value stack ----------------------------------------------

  const CV_STACK_RESERVE: nat := 64

  class CvStack {
    const cvs: array<CV>
    var len: nat

    /** Slots above the top hold zeros: a popped chaining value is wiped where it lay. */
    ghost predicate Valid()
      reads this, cvs
    {
      && cvs.Length == CV_STACK_RESERVE
      && len <= CV_STACK_RESERVE
      && forall i :: len <= i < CV_STACK_RESERVE ==> cvs[i] == ZeroWords(8)
    }

    ghost function Contents(): seq<CV>
      requires Valid()
      reads this, cvs
    {
      cvs[..len]
    }

    constructor ()
      ensures Valid() && Contents() == [] && fresh(cvs)
    {
      cvs := new CV[CV_STACK_RESERVE](_ => ZeroWords(8));
      len := 0;
    }

    method Push(cv: CV)
      requires Valid() && len < CV_STACK_RESERVE
      modifies this, cvs
      ensures Valid() && Contents() == old(Contents()) + [cv]
    {
      cvs[len] := cv;
      len := len + 1;
    }

    method Pop() returns (cv: CV)
      requires Valid() && len > 0
      modifies this, cvs
      ensures Valid() && old(Contents()) == Contents() + [cv]
    {
      var last := len - 1;
      cv := cvs[last];
      cvs[last] := ZeroWords(8);
      len := last;
    }
  }

  // ---- The hasher ---------------------------------------------------------------

  /** The chunks before the open one. The open chunk is empty only when nothing was fed. */
  function LeadingChunks(n: nat): nat
  {
    if n == 0 then 0 else (n - 1) / CHUNK
  }

  /** Input the 64-bit chunk counter can describe. */
  const MAX_INPUT: nat := 0x400 * 0x1_0000_0000_0000_0000

  /** The limit is exactly what the chunk counter can count. */
  lemma InputLimitIsCounter(n: nat)
    ensures n <= MAX_INPUT <==> LeadingChunks(n) < 0x1_0000_0000_0000_0000
  {
    if n != 0 {
      DivAtMostCounter(n - 1);
    }
  }

  lemma DivAtMostCounter(n: nat)
    ensures n / 1024 <= 0xFFFF_FFFF_FFFF_FFFF <==> n < 1024 * 0x1_0000_0000_0000_0000
  {
  }

  class Hasher {
    var keyWords: CV
    var chunk: ChunkState
    const cvStack: CvStack
    const flags: u32
    ghost var input: seq<u8>

    /** The open chunk and the stack account for every byte fed. */
    ghost predicate Partial()
      reads this, chunk, chunk.block, cvStack, cvStack.cvs
    {
      && chunk.Valid() && cvStack.Valid()
      && flags == KEYED_HASH && chunk.flags == KEYED_HASH && chunk.key == keyWords
      && |input| <= MAX_INPUT
      && CHUNK * chunk.chunkCounter <= |input| <= CHUNK * (chunk.chunkCounter + 1)
      && chunk.bytes == input[CHUNK * chunk.chunkCounter..]
      && cvStack.Contents() == Stack(Compress, keyWords, input, chunk.chunkCounter, 0)
    }

    ghost predicate Valid()
      reads this, chunk, chunk.block, cvStack, cvStack.cvs
    {
      Partial() && chunk.chunkCounter == LeadingChunks(|input|)
    }

    constructor NewKeyed(key: Key)
      ensures Valid() && input == [] && keyWords == WordsOf(key)
      ensures fresh(chunk) && fresh(chunk.block) && fresh(cvStack) && fresh(cvStack.cvs)
    {
      var words := WordsOf(key);
      keyWords := words;
      chunk := new ChunkState(words, 0, KEYED_HASH);
      cvStack := new CvStack();
      flags := KEYED_HASH;
      input := [];
    }

    method AddChunkCv(cv: CV, total: u64, ghost bytes: seq<u8>)
      requires cvStack.Valid() && flags == KEYED_HASH
      requires total > 0 && CHUNK * total <= |bytes|
      requires cvStack.Contents() == Stack(Compress, keyWords, bytes, total - 1, 0)
      requires cv == SubtreeCv(Compress, keyWords, bytes, total - 1, 0)
      modifies cvStack, cvStack.cvs
      ensures cvStack.Valid()
      ensures cvStack.Contents() == Stack(Compress, keyWords, bytes, total, 0)
    {
      hide Stack, SubtreeCv, At, NodeCv, Compress;
      var newCv, chunks := cv, total;
      ghost var k := 0;
      ghost var start := total - 1;
      AtZero(total);
      AtZero(total - 1);
      while chunks % 2 == 0
        invariant 0 < chunks <= total && cvStack.Valid()
        invariant At(chunks, k) == total && start == At(chunks - 1, k) && start + Pow2(k) == total
        invariant cvStack.Contents() == Stack(Compress, keyWords, bytes, chunks - 1, k)
        invariant newCv == SubtreeCv(Compress, keyWords, bytes, start, k)
        invariant Stack(Compress, keyWords, bytes, chunks, k) == Stack(Compress, keyWords, bytes, total, 0)
        decreases chunks
      {
        ghost var m := chunks / 2 - 1;
        MergePositions(m, k);
        ghost var left := At(2 * m, k);
        MergeStep(Compress, keyWords, bytes, m, k, left, start);
        StackEven(Compress, keyWords, bytes, m + 1, k);
        var leftCv := cvStack.Pop();
        AppendInjective(cvStack.Contents(), leftCv, Stack(Compress, keyWords, bytes, m, k + 1),
                        SubtreeCv(Compress, keyWords, bytes, left, k));
        newCv := ParentCv(leftCv, newCv, keyWords, flags);
        chunks := chunks / 2;
        start, k := left, k + 1;
      }
      ghost var m := chunks / 2;
      MergePositions(m, k);
      PushStep(Compress, keyWords, bytes, m, k, start);
      StackFits(Compress, keyWords, bytes, total, chunks, k);
      cvStack.Push(newCv);
    }

    /** Close a full chunk, knowing that more input follows. */
    method FlushChunk()
      requires Partial() && |chunk.bytes| == CHUNK && chunk.chunkCounter + 1 < 0x1_0000_0000_0000_0000
      modifies this, cvStack, cvStack.cvs
      ensures Partial() && chunk.bytes == [] && chunk.chunkCounter == old(chunk.chunkCounter) + 1
      ensures fresh(chunk) && fresh(chunk.block) && input == old(input) && keyWords == old(keyWords)
    {
      hide Stack, ChunkNode, ChunkCv, NodeCv, TreeNode, Compress;
      ghost var counter := chunk.chunkCounter;
      TreeOfOneChunk(Compress, keyWords, counter, chunk.bytes);
      var n := chunk.Output();
      var cv := ChainingValue(n);
      var total := (chunk.chunkCounter + 1) % 0x1_0000_0000_0000_0000;
      assert input[CHUNK * counter..CHUNK * (counter + Pow2(0))] == chunk.bytes;
      AtZero(total);
      AddChunkCv(cv, total, input);
      chunk := new ChunkState(keyWords, total, flags);
    }

    /** Close the open chunk if it is full. */
    method MakeRoom()
      requires Valid() && |input| < MAX_INPUT
      modifies this, cvStack, cvStack.cvs
      ensures Partial() && |chunk.bytes| < CHUNK && chunk.Len() == |chunk.bytes|
      ensures input == old(input) && keyWords == old(keyWords)
      ensures chunk == old(chunk) || (fresh(chunk) && fresh(chunk.block))
    {
      hide Stack, ChunkCv, Compress;
      if chunk.Len() == CHUNK {
        FlushChunk();
      }
    }

    /** Feed the open chunk. */
    method AbsorbIntoChunk(part: seq<u8>)
      requires Partial() && 0 < |part| <= CHUNK - |chunk.bytes| && |input| + |part| <= MAX_INPUT
      modifies this, chunk, chunk.block
      ensures Valid() && input == old(input) + part && keyWords == old(keyWords) && chunk == old(chunk)
    {
      hide Stack, ChunkCv, Compress;
      ghost var counter := chunk.chunkCounter;
      AtZero(counter);
      StackPrefix(Compress, keyWords, input, part, counter, 0);
      chunk.Update(part);
      assert (input + part)[CHUNK * counter..] == input[CHUNK * counter..] + part;
      input := input + part;
    }

    /** Feed as much as the open chunk takes, after closing a full one. */
    method AbsorbSome(rest: seq<u8>) returns (take: nat)
      requires Valid() && |rest| > 0 && |input| + |rest| <= MAX_INPUT
      modifies this, chunk, chunk.block, cvStack, cvStack.cvs
      ensures 0 < take <= |rest|
      ensures Valid() && input == old(input) + rest[..take] && keyWords == old(keyWords)
      ensures chunk == old(chunk) || (fresh(chunk) && fresh(chunk.block))
    {
      hide Stack, ChunkCv, Compress, LeadingChunks, LeadingBlocks;
      MakeRoom();
      var want := CHUNK - chunk.Len();
      take := if want < |rest| then want else |rest|;
      AbsorbIntoChunk(rest[..take]);
    }

    method Update(data: seq<u8>)
      requires Valid() && |input| + |data| <= MAX_INPUT
      modifies this, chunk, chunk.block, cvStack, cvStack.cvs
      ensures Valid() && input == old(input) + data && keyWords == old(keyWords)
      ensures chunk == old(chunk) || (fresh(chunk) && fresh(chunk.block))
    {
      hide Stack, ChunkCv, Compress, LeadingChunks, LeadingBlocks;
      var rest := data;
      ghost var target := input + data;
      while |rest| > 0
        invariant Valid() && input + rest == target && |target| <= MAX_INPUT && keyWords == old(keyWords)
        invariant chunk == old(chunk) || (fresh(chunk) && fresh(chunk.block))
      {
        ghost var before := input;
        var take := AbsorbSome(rest);
        assert before + rest == (before + rest[..take]) + rest[take..];
        rest := rest[take..];
      }
      assert input == target;
    }

    /** Merge the open node with the stack, top to bottom. */
    method FoldWith(open: Node) returns (output: Node)
      requires cvStack.Valid() && flags == KEYED_HASH
      ensures output == FoldStack(Compress, keyWords, cvStack.Contents(), open)
    {
      hide NodeCv, Compress;
      ghost var stack := cvStack.Contents();
      output := open;
      var remaining := cvStack.len;
      assert stack[..remaining] == stack;
      while remaining > 0
        invariant 0 <= remaining <= |stack|
        invariant FoldStack(Compress, keyWords, stack[..remaining], output)
                  == FoldStack(Compress, keyWords, stack, open)
      {
        remaining := remaining - 1;
        var cv := ChainingValue(output);
        assert stack[..remaining + 1] == stack[..remaining] + [stack[remaining]];
        FoldTop(Compress, keyWords, stack[..remaining], stack[remaining], output);
        output := ParentOutput(cvStack.cvs[remaining], cv, keyWords, flags);
      }
    }

    /** The digest of everything fed so far. Nothing but `out` changes, so feeding may go on. */
    method FinalizeXof(out: array<u8>)
      requires Valid() && out != chunk.block
      modifies out
      ensures out[..] == Xof(Compress, TreeNode(Compress, keyWords, 0, input), out.Length)
    {
      hide Stack, FoldStack, NodeCv, ChunkNode, ChunkCv, TreeNode, Compress, Xof;
      ghost var counter := chunk.chunkCounter;
      var open := chunk.Output();
      TreeOfOneChunk(Compress, keyWords, counter, chunk.bytes);
      AtZero(counter);
      FoldBuildsTree(Compress, keyWords, input, counter, 0);
      var output := FoldWith(open);
      RootOutputBytes(output, out);
    }

    /** Overwrite everything key-derived that the hasher holds. */
    method WipeState()
      requires Valid()
      modifies this, chunk, chunk.block, cvStack, cvStack.cvs
      ensures keyWords == ZeroWords(8) && chunk.cv == ZeroWords(8)
      ensures chunk.block[..] == Zeros(64) && chunk.blockLen == 0 && chunk.blocksCompressed == 0
      ensures cvStack.len == 0 && forall i :: 0 <= i < cvStack.cvs.Length ==> cvStack.cvs[i] == ZeroWords(8)
    {
      hide Stack, ChunkCv;
      var n := cvStack.len;
      for i := 0 to n
        invariant forall j :: 0 <= j < i || n <= j < cvStack.cvs.Length ==> cvStack.cvs[j] == ZeroWords(8)
        modifies cvStack.cvs
      {
        cvStack.cvs[i] := ZeroWords(8);
      }
      cvStack.len := 0;
      keyWords := ZeroWords(8);
      chunk.cv := ZeroWords(8);
      forall i | 0 <= i < chunk.block.Length {
        chunk.block[i] := 0;
      }
      chunk.blockLen := 0;
      chunk.blocksCompressed := 0;
    }
  }

  lemma AppendInjective<T>(a: seq<T>, x: T, b: seq<T>, y: T)
    requires a + [x] == b + [y]
    ensures a == b && x == y
  {
    assert a == (a + [x])[..|a|] && b == (b + [y])[..|b|];
    assert x == (a + [x])[|a|];
  }

  /** A tree of at most one chunk is that chunk. */
  lemma TreeOfOneChunk(f: CompressFn, key: CV, counter: u64, bytes: seq<u8>)
    requires |bytes| <= CHUNK
    ensures TreeNode(f, key, counter, bytes) == ChunkNode(f, key, KEYED_HASH, counter, bytes)
  {
    hide ChunkNode;
  }

  lemma AtZero(n: nat)
    ensures At(n, 0) == n && Pow2(0) == 1
  {
  }

  /** The push bound never fires: before a push the stack has a free slot. */
  lemma StackFits(f: CompressFn, key: CV, bytes: seq<u8>, total: u64, chunks: nat, k: nat)
    requires chunks % 2 == 1 && At(chunks, k) == total && CHUNK * total <= |bytes|
    requires At(chunks - 1, k) <= total
    ensures |Stack(f, key, bytes, chunks - 1, k)| < CV_STACK_RESERVE
  {
    hide Stack;
    AtGrows(chunks, k);
    Pow2At64();
    PopCountBound(chunks, 64);
    StackLength(f, key, bytes, chunks - 1, k);
    assert PopCount(chunks) == PopCount(chunks - 1) + 1 by {
      assert (chunks - 1) / 2 == chunks / 2;
    }
  }

  /** And it is no larger than needed: the largest 64-bit counter fills all of it. */
  lemma {:induction false} StackIsFull(w: nat)
    ensures PopCount(Pow2(w) - 1) == w
    ensures w == CV_STACK_RESERVE ==> Pow2(w) - 1 == 0xFFFF_FFFF_FFFF_FFFF
  {
    Pow2At64();
    if w != 0 {
      StackIsFull(w - 1);
      assert (Pow2(w) - 1) / 2 == Pow2(w - 1) - 1 && (Pow2(w) - 1) % 2 == 1;
    }
  }

  lemma {:induction false} AtGrows(n: nat, k: nat)
    ensures n <= At(n, k)
    decreases k
  {
    if k != 0 {
      AtGrows(2 * n, k - 1);
    }
  }

  /** Two hashers with the same key that were fed the same bytes, however split, hold the same
      state: every field, the buffered block and every stack slot. */
  lemma SameInputSameState(g: Hasher, h: Hasher)
    requires g.Valid() && h.Valid() && g.keyWords == h.keyWords && g.input == h.input
    ensures g.chunk.cv == h.chunk.cv && g.chunk.chunkCounter == h.chunk.chunkCounter
    ensures g.chunk.blockLen == h.chunk.blockLen && g.chunk.blocksCompressed == h.chunk.blocksCompressed
    ensures g.chunk.block[..] == h.chunk.block[..]
    ensures g.cvStack.len == h.cvStack.len && g.cvStack.cvs[..] == h.cvStack.cvs[..]
  {
    hide Stack, ChunkCv;
    assert g.cvStack.Contents() == h.cvStack.Contents();
    forall i | 0 <= i < CV_STACK_RESERVE ensures g.cvStack.cvs[i] == h.cvStack.cvs[i] {
      if i < g.cvStack.len {
        assert g.cvStack.Contents()[i] == h.cvStack.Contents()[i];
      }
    }
  }

  /** The slot for the one-bit `j` of the chunk counter: it has as many slots below it as there are
      higher one-bits, and holds the chaining value of the complete subtree at that bit. */
  ghost predicate SlotIsSubtree(h: Hasher, j: nat)
    reads h, h.chunk, h.cvStack, h.cvStack.cvs
  {
    var higher := Shifted(h.chunk.chunkCounter, j);
    && higher > 0
    && PopCount(higher / 2) < h.cvStack.len <= h.cvStack.cvs.Length
    && CHUNK * (At(higher - 1, j) + Pow2(j)) <= |h.input|
    && h.cvStack.cvs[PopCount(higher / 2)] == SubtreeCv(Compress, h.keyWords, h.input, At(higher - 1, j), j)
  }

  lemma SlotOfBit(h: Hasher, j: nat)
    requires h.Valid() && Shifted(h.chunk.chunkCounter, j) % 2 == 1
    ensures SlotIsSubtree(h, j)
  {
    hide Stack, ChunkCv, SubtreeCv, Compress, At, Pow2, PopCount, Shifted, LeadingChunks, ChunkState.Valid;
    AtZero(h.chunk.chunkCounter);
    StackEntry(Compress, h.keyWords, h.input, h.chunk.chunkCounter, 0, j);
    assert h.cvStack.Contents() == h.cvStack.cvs[..h.cvStack.len];
  }

  /** After any input, the stack has one entry for each one-bit of the chunk counter, that of its
      subtree, and the open chunk holds 1 to 1024 bytes unless nothing was fed. */
  lemma StackMatchesCounter(h: Hasher)
    requires h.Valid()
    ensures h.cvStack.len == PopCount(h.chunk.chunkCounter)
    ensures forall j: nat :: Shifted(h.chunk.chunkCounter, j) % 2 == 1 ==> SlotIsSubtree(h, j)
    ensures h.input != [] ==> 1 <= |h.chunk.bytes| <= CHUNK
    ensures h.input == [] ==> h.chunk.bytes == [] && h.cvStack.len == 0
  {
    hide Stack, ChunkCv, SlotIsSubtree, Shifted, At, Pow2;
    AtZero(h.chunk.chunkCounter);
    StackLength(Compress, h.keyWords, h.input, h.chunk.chunkCounter, 0);
    forall j: nat | Shifted(h.chunk.chunkCounter, j) % 2 == 1 ensures SlotIsSubtree(h, j) {
      SlotOfBit(h, j);
    }
  }

  /** Keyed BLAKE3 over parts fed one after another. */
  method KeyedXof(key: Key, parts: seq<seq<u8>>, out: array<u8>)
    requires |Concat(parts)| <= MAX_INPUT
    modifies out
    ensures out[..] == KeyedHash(key, Concat(parts), out.Length)
  {
    hide Stack, ChunkCv, TreeNode, WordsOf, Compress;
    var h := new Hasher.NewKeyed(key);
    assert parts[..|parts|] == parts;
    for i := 0 to |parts|
      invariant h.Valid() && h.input == Concat(parts[..i]) && h.keyWords == WordsOf(key)
      invariant fresh(h) && fresh(h.chunk) && fresh(h.chunk.block) && fresh(h.cvStack) && fresh(h.cvStack.cvs)
    {
      assert parts[..i + 1][..i] == parts[..i];
      ConcatPrefix(parts, i + 1);
      h.Update(parts[i]);
    }
    h.FinalizeXof(out);
    h.WipeState();
  }

  lemma {:induction false} ConcatPrefix(parts: seq<seq<u8>>, i: nat)
    requires i <= |parts|
    ensures |Concat(parts[..i])| <= |Concat(parts)|
    decreases |parts|
  {
    if i < |parts| {
      var init := parts[..|parts| - 1];
      ConcatPrefix(init, i);
      assert init[..i] == parts[..i];
    } else {
      assert parts[..i] == parts;
    }
  }
}
