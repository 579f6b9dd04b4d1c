/** The chaining-value stack of an incremental hasher (BLAKE3 paper, section 5.1.2) against
    the recursive tree: what the stack holds after any number of chunks, why merging on the
    trailing zeros of the chunk count keeps it, and why folding it from the right at the end
    rebuilds the tree. Everything here holds for any compression function. */
module Blake3Tree {
  import opened Words
  import opened ChaCha
  import opened Blake3

  // ---- Powers of two in the tree ---------------------------------------------

  /** A left subtree has `2^k` chunks when the chunk count is above `2^k` and at most twice it. */
  lemma {:induction false} LeftChunksIsPow2(c: nat, k: nat)
    requires Pow2(k) < c <= 2 * Pow2(k)
    ensures LeftChunks(c) == Pow2(k)
    decreases k
  {
    if k != 0 {
      LeftChunksIsPow2((c + 1) / 2, k - 1);
    }
  }

  /** Splitting a tree at its left subtree, in bytes. */
  lemma TreeSplits(f: CompressFn, key: CV, start: nat, bytes: seq<u8>, k: nat)
    requires CHUNK * Pow2(k) < |bytes| <= CHUNK * (2 * Pow2(k))
    ensures TreeNode(f, key, start, bytes)
            == ParentNode(key, NodeCv(f, TreeNode(f, key, start, bytes[..CHUNK * Pow2(k)])),
                          NodeCv(f, TreeNode(f, key, start + Pow2(k), bytes[CHUNK * Pow2(k)..])))
  {
    hide ChunkNode, NodeCv;
    LeftChunksIsPow2(ChunkCount(|bytes|), k);
  }

  /** The chunk position of `n` units of `2^k` chunks. */
  function At(n: nat, k: nat): nat
    decreases k
  {
    if k == 0 then n else At(2 * n, k - 1)
  }

  lemma {:induction false} AtStep(n: nat, k: nat)
    ensures At(0, k) == 0 && At(n + 1, k) == At(n, k) + Pow2(k)
    decreases k
  {
    if k != 0 {
      AtStep(2 * n, k - 1);
      AtStep(2 * n + 1, k - 1);
    }
  }

  lemma AtHalf(n: nat, k: nat)
    ensures At(n, k + 1) == At(2 * n, k)
  {
  }

  // ---- The stack ----------------------------------------------------------------

  /** The chaining value of the complete subtree over chunks `start .. start + 2^k`. */
  function SubtreeCv(f: CompressFn, key: CV, bytes: seq<u8>, start: nat, k: nat): CV
    requires CHUNK * (start + Pow2(k)) <= |bytes|
  {
    NodeCv(f, TreeNode(f, key, start, bytes[CHUNK * start..CHUNK * (start + Pow2(k))]))
  }

  /** The stack for the first `n * 2^k` chunks of `bytes`: one complete subtree for each one-bit
      of `n`, the highest bit first. */
  function Stack(f: CompressFn, key: CV, bytes: seq<u8>, n: nat, k: nat): seq<CV>
    requires CHUNK * At(n, k) <= |bytes|
    decreases n
  {
    if n == 0 then []
    else
      AtHalf(n / 2, k);
      AtStep(n - 1, k);
      Stack(f, key, bytes, n / 2, k + 1)
      + if n % 2 == 0 then [] else [SubtreeCv(f, key, bytes, At(n - 1, k), k)]
  }

  function PopCount(n: nat): nat
  {
    if n == 0 then 0 else PopCount(n / 2) + n % 2
  }

  /** The stack has as many entries as the chunk count has one-bits. */
  lemma {:induction false} StackLength(f: CompressFn, key: CV, bytes: seq<u8>, n: nat, k: nat)
    requires CHUNK * At(n, k) <= |bytes|
    ensures |Stack(f, key, bytes, n, k)| == PopCount(n)
    decreases n
  {
    hide At, TreeNode, NodeCv;
    if n != 0 {
      AtHalf(n / 2, k);
      AtStep(n - 1, k);
      StackLength(f, key, bytes, n / 2, k + 1);
    }
  }

  lemma {:induction false} PopCountBound(n: nat, w: nat)
    requires n < Pow2(w)
    ensures PopCount(n) <= w
    decreases w
  {
    if n != 0 {
      PopCountBound(n / 2, w - 1);
    }
  }

  lemma Pow2At64()
    ensures Pow2(64) == 0x1_0000_0000_0000_0000
  {
    Pow2At32();
    Pow2Add(32, 32);
  }

  /** Bits `j` and up of `n`. */
  function Shifted(n: nat, j: nat): nat
  {
    if j == 0 then n else Shifted(n / 2, j - 1)
  }

  lemma {:induction false} ShiftedBounds(n: nat, j: nat, k: nat)
    ensures At(Shifted(n, j), j + k) <= At(n, k)
    ensures Shifted(n, j) > 0 ==> At(Shifted(n, j) - 1, j + k) + Pow2(j + k) == At(Shifted(n, j), j + k)
    decreases j
  {
    if j == 0 {
      if n > 0 {
        AtStep(n - 1, k);
      }
    } else {
      ShiftedBounds(n / 2, j - 1, k + 1);
      AtHalf(n / 2, k);
      AtStep(2 * (n / 2), k);
    }
  }

  /** Entry by entry: if bit `j` of the chunk count is one, the entry with as many entries before
      it as there are higher one-bits is the complete subtree of `2^j` chunks at that bit. */
  lemma {:induction false} StackEntry(f: CompressFn, key: CV, bytes: seq<u8>, n: nat, k: nat, j: nat)
    requires CHUNK * At(n, k) <= |bytes| && Shifted(n, j) % 2 == 1
    ensures var higher := Shifted(n, j);
            && PopCount(higher / 2) < |Stack(f, key, bytes, n, k)|
            && CHUNK * (At(higher - 1, j + k) + Pow2(j + k)) <= |bytes|
            && Stack(f, key, bytes, n, k)[PopCount(higher / 2)]
               == SubtreeCv(f, key, bytes, At(higher - 1, j + k), j + k)
    decreases j
  {
    ShiftedBounds(n, j, k);
    hide At, TreeNode, NodeCv;
    if n == 0 {
      ShiftedZero(j);
    } else {
      AtHalf(n / 2, k);
      AtStep(n - 1, k);
      StackLength(f, key, bytes, n / 2, k + 1);
      if j != 0 {
        StackEntry(f, key, bytes, n / 2, k + 1, j - 1);
      }
    }
  }

  lemma {:induction false} ShiftedZero(j: nat)
    ensures Shifted(0, j) == 0
  {
    if j != 0 {
      ShiftedZero(j - 1);
    }
  }

  /** Bytes after the counted chunks do not affect the stack. */
  lemma {:induction false} StackPrefix(f: CompressFn, key: CV, bytes: seq<u8>, more: seq<u8>, n: nat, k: nat)
    requires CHUNK * At(n, k) <= |bytes|
    ensures Stack(f, key, bytes + more, n, k) == Stack(f, key, bytes, n, k)
    decreases n
  {
    hide At, TreeNode, NodeCv;
    if n != 0 {
      AtHalf(n / 2, k);
      AtStep(n - 1, k);
      StackPrefix(f, key, bytes, more, n / 2, k + 1);
      var i, j := CHUNK * At(n - 1, k), CHUNK * (At(n - 1, k) + Pow2(k));
      if n % 2 == 1 {
        assert (bytes + more)[i..j] == bytes[i..j];
      }
    }
  }

  // ---- Adding a chunk ---------------------------------------------------------

  /** Two neighbouring complete subtrees of `2^k` chunks merge into one of `2^(k+1)`. */
  lemma MergeSubtrees(f: CompressFn, key: CV, bytes: seq<u8>, start: nat, k: nat)
    requires CHUNK * (start + Pow2(k + 1)) <= |bytes|
    ensures SubtreeCv(f, key, bytes, start, k + 1)
            == NodeCv(f, ParentNode(key, SubtreeCv(f, key, bytes, start, k),
                                    SubtreeCv(f, key, bytes, start + Pow2(k), k)))
  {
    hide TreeNode, NodeCv;
    var p := Pow2(k);
    var whole := bytes[CHUNK * start..CHUNK * (start + 2 * p)];
    assert whole[..CHUNK * p] == bytes[CHUNK * start..CHUNK * (start + p)];
    assert whole[CHUNK * p..] == bytes[CHUNK * (start + p)..CHUNK * (start + p + p)];
    TreeSplits(f, key, start, whole, k);
  }

  lemma MergePositions(m: nat, k: nat)
    ensures At(m, k + 1) == At(2 * m, k) && At(m + 1, k + 1) == At(2 * m + 2, k)
    ensures At(2 * m, k) + Pow2(k) == At(2 * m + 1, k) && At(2 * m + 1, k) + Pow2(k) == At(2 * m + 2, k)
  {
    hide At;
    AtHalf(m, k);
    AtHalf(m + 1, k);
    AtStep(2 * m, k);
    AtStep(2 * m + 1, k);
  }

  /** One turn of the merge loop, when the count of units of `2^k` chunks is the even number
      `2m + 2`: the top of the stack is the left neighbour of the carried subtree, and merging
      the two gives the same situation with `m + 1` units of twice the size. */
  lemma MergeStep(f: CompressFn, key: CV, bytes: seq<u8>, m: nat, k: nat, left: nat, right: nat)
    requires left == At(2 * m, k) == At(m, k + 1) && right == At(2 * m + 1, k) == left + Pow2(k)
    requires CHUNK * (right + Pow2(k)) <= |bytes|
    ensures Stack(f, key, bytes, 2 * m + 1, k)
            == Stack(f, key, bytes, m, k + 1) + [SubtreeCv(f, key, bytes, left, k)]
    ensures SubtreeCv(f, key, bytes, left, k + 1)
            == NodeCv(f, ParentNode(key, SubtreeCv(f, key, bytes, left, k), SubtreeCv(f, key, bytes, right, k)))
  {
    hide At, TreeNode, NodeCv;
    assert (2 * m + 1) / 2 == m && (2 * m + 1) % 2 == 1;
    MergeSubtrees(f, key, bytes, left, k);
  }

  /** The last turn: with an odd count `2m + 1`, pushing the carried subtree completes the stack. */
  lemma PushStep(f: CompressFn, key: CV, bytes: seq<u8>, m: nat, k: nat, start: nat)
    requires start == At(2 * m, k) == At(m, k + 1) && start + Pow2(k) == At(2 * m + 1, k)
    requires CHUNK * (start + Pow2(k)) <= |bytes|
    ensures Stack(f, key, bytes, 2 * m + 1, k)
            == Stack(f, key, bytes, 2 * m, k) + [SubtreeCv(f, key, bytes, start, k)]
  {
    hide At, TreeNode, NodeCv;
    assert (2 * m + 1) / 2 == m && (2 * m + 1) % 2 == 1 && 2 * m / 2 == m;
    StackEven(f, key, bytes, m, k);
  }

  /** An even count of units is half as many of twice the size. */
  lemma StackEven(f: CompressFn, key: CV, bytes: seq<u8>, m: nat, k: nat)
    requires CHUNK * At(2 * m, k) <= |bytes|
    ensures At(m, k + 1) == At(2 * m, k)
    ensures Stack(f, key, bytes, 2 * m, k) == Stack(f, key, bytes, m, k + 1)
  {
    hide At, TreeNode, NodeCv;
    AtHalf(m, k);
    if m != 0 {
      assert 2 * m / 2 == m;
      assert Stack(f, key, bytes, 2 * m, k) == Stack(f, key, bytes, m, k + 1) + [];
    }
  }

  // ---- Finalisation -----------------------------------------------------------

  /** Folding the stack from the top into an open node. */
  function FoldStack(f: CompressFn, key: CV, stack: seq<CV>, node: Node): Node
  {
    if |stack| == 0 then node
    else
      FoldStack(f, key, stack[..|stack| - 1], ParentNode(key, stack[|stack| - 1], NodeCv(f, node)))
  }

  /** One turn of the fold: the open node over what follows chunk `start + p`, merged with the
      complete subtree of `p = 2^k` chunks before it, is the tree over what follows `start`. */
  lemma FoldOdd(f: CompressFn, key: CV, bytes: seq<u8>, m: nat, k: nat, start: nat, p: nat)
    requires start == At(2 * m, k) == At(m, k + 1) && p == Pow2(k) && start + p == At(2 * m + 1, k)
    requires CHUNK * (start + p) < |bytes| <= CHUNK * (start + 2 * p)
    ensures FoldStack(f, key, Stack(f, key, bytes, 2 * m + 1, k),
                      TreeNode(f, key, start + p, bytes[CHUNK * (start + p)..]))
            == FoldStack(f, key, Stack(f, key, bytes, m, k + 1), TreeNode(f, key, start, bytes[CHUNK * start..]))
  {
    hide At, Pow2, TreeNode, NodeCv, FoldStack;
    var both, tail := bytes[CHUNK * start..], bytes[CHUNK * (start + p)..];
    assert both[..CHUNK * p] == bytes[CHUNK * start..CHUNK * (start + p)];
    assert both[CHUNK * p..] == tail;
    TreeSplits(f, key, start, both, k);
    assert (2 * m + 1) / 2 == m && (2 * m + 1) % 2 == 1;
    FoldTop(f, key, Stack(f, key, bytes, m, k + 1), SubtreeCv(f, key, bytes, start, k),
            TreeNode(f, key, start + p, tail));
  }

  /** The fold over the stack for the first `n * 2^k` chunks, started from the tree over what
      follows them, is the tree over everything, as long as what follows is no larger than the
      smallest subtree on the stack and is not empty. */
  lemma {:induction false} FoldBuildsTree(f: CompressFn, key: CV, bytes: seq<u8>, n: nat, k: nat)
    requires CHUNK * At(n, k) <= |bytes| <= CHUNK * (At(n, k) + Pow2(k))
    requires n > 0 ==> CHUNK * At(n, k) < |bytes|
    ensures FoldStack(f, key, Stack(f, key, bytes, n, k), TreeNode(f, key, At(n, k), bytes[CHUNK * At(n, k)..]))
            == TreeNode(f, key, 0, bytes)
    decreases n
  {
    hide At, TreeNode, NodeCv;
    AtStep(n, k);
    if n == 0 {
      assert bytes[CHUNK * At(n, k)..] == bytes;
    } else {
      hide FoldStack, SubtreeCv;
      var m := n / 2;
      MergePositions(m, k);
      FoldBuildsTree(f, key, bytes, m, k + 1);
      if n % 2 == 1 {
        FoldOdd(f, key, bytes, m, k, At(m, k + 1), Pow2(k));
      } else {
        StackEven(f, key, bytes, m, k);
      }
    }
  }

  lemma FoldTop(f: CompressFn, key: CV, stack: seq<CV>, top: CV, node: Node)
    ensures FoldStack(f, key, stack + [top], node)
            == FoldStack(f, key, stack, ParentNode(key, top, NodeCv(f, node)))
  {
    assert (stack + [top])[..|stack|] == stack;
  }
}
