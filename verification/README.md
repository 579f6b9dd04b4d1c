# XChaCha20-BLAKE3-SIV: a verified model

A Dafny model of the misuse-resistant AEAD in this repository and proofs about it. The crate
computes everything at least twice: a scalar cipher and three vector kernels, a shipped hash and a
second streaming implementation, four entry points in four feature configurations. The proofs say
that all of these are the same function, that this function is a correct SIV construction, and that
the locked-key lifecycle never exposes a page that holds key bytes.

`dafny verify dfyconfig.toml` checks the whole project.

| file | what it models |
|---|---|
| `Words.dfy` | 8-, 32- and 64-bit arithmetic, bitwise operators, rotations and little-endian encodings over unbounded integers |
| `Bits.dfy` | what the word operations and encodings do to single bits and bytes |
| `ChaCha.dfy` | ChaCha20 and HChaCha20 as functions; the round map is a bijection; the keystream |
| `ChaChaCore.dfy` | the crate's scalar core, in place |
| `Simd.dfy` | the SSE2, AVX2 and NEON kernels: registers as lanes, intrinsics as lane maps, shuffle networks |
| `Dispatch.dfy` | the widest-first dispatcher, the length limit |
| `Blake3.dfy` | keyed BLAKE3 as its paper defines it: compression, chunks, recursive tree, extendable output |
| `Blake3Calls.dfy` | which flags, lengths and counters the compression is called with; the constants and the message schedule |
| `Blake3Tree.dfy` | the chaining-value stack of an incremental hasher against that tree, for any compression function |
| `WitnessHasher.dfy` | the second implementation's streaming hasher: chunk state, 64-slot stack, output |
| `Portable.dfy` | the portable compression and whole-block hash of the vendored `blake3` crate |
| `Siv.dfy` | the construction as a specification over any primitives; the decryption law; the encodings |
| `Witness.dfy` | the second implementation of the construction |
| `FoldModel.dfy` | the hash model of the formal harnesses, for all lengths |
| `Aead.dfy` | derivations, tag call shapes, comparisons, the two-slot decision, the four entry points in four configurations |
| `Locked.dfy`, `LockedKey.dfy` | the locked-key lifecycle as a step machine, and `new` and `drop` run on it |
| `Zeroize.dfy` | the raw wipe |

Three conventions. Integers are unbounded and every width is written out, so a wrapping addition is
a sum and a remainder. A wipe is the writing of zeros. The `blake3` dependency is taken to compute
keyed BLAKE3 as the paper defines it, though its portable compression and whole-block hash are proved to;
the second implementation is not taken to compute anything: that it computes the same is proved from its code.

A function that both a method and its specification call is fixed by a law of its own, stated without it: the
operators by the bits they give, the constants by the text or the numbers they come from, the flags and the
limits by their values at every input.

The construction's lemmas hold for any hash, stream cipher and subkey function. The entry points
instantiate them with the crate's primitives, and the harness results with the fold model.

## Model

| member | source | states |
|---|---|---|
| Words.ShiftOrIsRotate | src/lib.rs:4121-4133 | the shift-left, shift-right, or form the vector kernels use is the 32-bit rotation, for every amount |
| Bits.BitsDetermine | src/lib.rs:3935-3945 | numbers of one width with the same bits are equal, so the bit laws fix the operators |
| Bits.Xor32Bit | src/lib.rs:3935-3945 | a bit of a word xor is the sum of the two bits modulo 2 |
| Bits.Xor8Bit | src/lib.rs:4620-4640 | a bit of a byte xor is the sum of the two bits modulo 2 |
| Bits.Or32Bit | src/witness.rs:534-571 | a bit of a union of flags is one exactly if it is one in either |
| Bits.RotateBit | src/lib.rs:3935-3945 | rotating left by n moves bit k to place k + n modulo 32, for every amount |
| Bits.RotateRightBit | src/witness.rs:330-339 | rotating right by n moves bit k + n modulo 32 to place k |
| Bits.AddCarry | src/lib.rs:3935-3945 | a wrapping sum is the sum, less 2^32 if and only if it does not fit |
| Bits.LeBytesAt | src/lib.rs:2917-2918 | byte i of a length field is the length's i-th digit to base 256 |
| Bits.FromLeBytesRoundTrip | src/lib.rs:2917-2918 | every byte string is the encoding of the number it decodes to |
| Bits.LeByteIsLeBytes | src/lib.rs:4045 | the stored bytes of a word are its digits to base 256, lowest first |
| Bits.Le32IsFromLeBytes | src/lib.rs:4785-4790 | a loaded word is the number its four bytes encode |
| ChaCha.ConstantsAreAscii | src/lib.rs:4016-4030 | the four constant words are the text "expand 32-byte k" |
| ChaCha.RoundsBijective | src/lib.rs:3962-4006 | the 20-round map is injective on 16-word states and every state is reached |
| ChaCha.RoundsUndo | src/lib.rs:3962-4006 | running the rounds backwards undoes any number of them, on both sides |
| ChaCha.QrUndo | src/lib.rs:3935-3945 | the quarter round loses nothing: its inverse returns the four input words |
| ChaCha.HChaChaIsBlockMinusInput | src/lib.rs:4776-4811 | each HChaCha20 output word is the ChaCha20 block word at the same place minus the initial word mod 2^32 |
| ChaCha.KeystreamAdvance | src/lib.rs:4658-4744 | starting k blocks later, with the counter wrapping at 2^32, is skipping 64k keystream bytes |
| ChaChaCore.ChaCha20Rounds | src/lib.rs:3962-4006 | ten in-place double rounds compute the round map on the old state |
| ChaChaCore.ChaCha20BlockInto | src/lib.rs:4016-4054 | writes the RFC 8439 block for every key, counter and nonce |
| ChaChaCore.HChaCha20Into | src/lib.rs:4776-4811 | writes words 0-3 and 12-15 of the permuted state, without feed-forward |
| Simd.QrVecLane | src/lib.rs:4135-4159 | each lane of the vector quarter round is the scalar quarter round on that lane |
| Simd.QrLanes | src/lib.rs:4135-4159 | the in-place register macro is a quarter round in every lane at once |
| Simd.ChaCha20StateWords | src/lib.rs:4100-4112 | fills the 16 initial words |
| Simd.FeedForwardLanes | src/lib.rs:4198-4200 | adding the initial registers finishes the block of every lane |
| Simd.AddRebroadcast | src/lib.rs:4333-4341 | re-broadcasting the scalar words, with the saved lane counters for word 12, is the same feed-forward |
| Simd.Transpose4x4 | src/lib.rs:4221-4231 | the unpack network is an exact 4x4 transpose of the four registers and touches nothing else |
| Simd.Transpose8x8 | src/lib.rs:4253-4281 | the unpack and permute network is an exact 8x8 transpose of the eight registers and touches nothing else |
| Simd.Blocks4 | src/lib.rs:4165-4216 | the SSE2 kernel writes 256 bytes of the scalar keystream, lane counters wrapping |
| Simd.Blocks8 | src/lib.rs:4287-4353 | the AVX2 kernel writes 512 bytes of the scalar keystream, lane counters wrapping |
| Simd.Blocks4Neon | src/lib.rs:4525-4578 | the NEON kernel writes 256 bytes of the scalar keystream |
| Dispatch.XorOrCopy | src/lib.rs:4620-4640 | xors or copies exactly the given range, reading the old byte for an in-place input, and leaves the rest |
| Dispatch.ChaCha20Apply | src/lib.rs:4645-4744 | on every processor, for every length, counter and input mode, the output is the input xor the scalar keystream (or the keystream) |
| Dispatch.ProgressStep | src/lib.rs:4678-4722 | one block-aligned step keeps: finished prefix final, suffix untouched |
| Dispatch.ApplyTwice | src/lib.rs:4645-4744 | applying the keystream twice restores the buffer |
| Dispatch.AppliedBit | src/lib.rs:4620-4640 | in both xor modes each output bit is the input bit flipped exactly where the keystream has a one; without input it is the keystream bit |
| Dispatch.LimitIsTight | src/lib.rs:370-391 | no two blocks of a message share the counter its keystream is taken at if and only if its length is at most MAX_MSG_SIZE |
| Siv.AcceptedIffCountersDiffer | src/lib.rs:370-391 | the length check accepts if and only if the blocks the keystream is taken from have pairwise different counters and the associated data is at most 2^38 bytes |
| Blake3.LeftChunksBounds | src/witness.rs:657-690 | a left subtree's size is below the chunk count and at least half of it |
| Blake3.XofPrefix | src/witness.rs:452-476 | a shorter output is a prefix of a longer one |
| Blake3Calls.BlockCall | src/witness.rs:526-561 | every block of a chunk before the last is compressed with flags 17 if it is the first and 16 otherwise, length 64, and the chunk's counter |
| Blake3Calls.InnerCall | src/witness.rs:563-571 | below the root a one-block chunk is called with flags 19, a longer one with 18 at its last block, a parent with 20, length 64 and counter 0 |
| Blake3Calls.OutputWord | src/witness.rs:452-476 | each output word is a word of one call with ROOT added at the block's counter, for any compression function |
| Blake3Calls.RootCall | src/witness.rs:452-476 | for every key, input and output block the root call has flags 27, 26 or 28 by input length, the length of the last block, and the block counter |
| Blake3Calls.IvIsSquareRoots | src/witness.rs:314-316 | the initial words are the fractions of the square roots of the first eight primes |
| Blake3Calls.PermutedIsScheduled | src/witness.rs:352-360 | permuting the block round by round gives the dependency's schedule table |
| Portable.Round | blake3/src/portable.rs:20-38 | a round that reads the block through the schedule table is the round on the permuted block |
| Portable.CompressInPlace | blake3/src/portable.rs:77-95 | the dependency's portable compression gives the chaining value of the second implementation's |
| Portable.CompressXof | blake3/src/portable.rs:97-121 | and the same 64 output bytes |
| Portable.Hash1 | blake3/src/portable.rs:123-151 | start flags on the first block, end flags on the last, for any number of whole blocks |
| Portable.ChunkOfBlocks | blake3/src/lib.rs:708-717 | with the chunk flags that is the chaining value of the chunk |
| Portable.ParentOfBlock | blake3/src/lib.rs:758-767 | with the parent flags it joins two chaining values |
| Blake3Tree.LeftChunksIsPow2 | src/witness.rs:657-690 | the left subtree of a tree with more than 2^k and at most 2^(k+1) chunks has exactly 2^k |
| Blake3Tree.StackLength | src/witness.rs:574-593 | the stack has as many entries as the chunk count has one-bits |
| Blake3Tree.StackEntry | src/witness.rs:657-690 | the entry for a one-bit is the chaining value of the complete subtree at that bit's position |
| Blake3Tree.StackPrefix | src/witness.rs:705-725 | later input does not change the stack entries |
| Blake3Tree.MergeSubtrees | src/witness.rs:671-687 | two neighbouring complete subtrees under a parent are the complete subtree of twice the size |
| Blake3Tree.MergeStep | src/witness.rs:671-687 | with an even unit count the top of the stack is the left neighbour of the carried subtree, and merging keeps the stack right one level up |
| Blake3Tree.PushStep | src/witness.rs:688-689 | with an odd unit count pushing the carried subtree completes the stack |
| Blake3Tree.FoldBuildsTree | src/witness.rs:727-744 | folding the stack from the top into the open chunk builds the recursive tree over the whole input |
| WitnessHasher.CompressWords | src/witness.rs:362-406 | seven in-place rounds with a permuted schedule and the feed-forward compute the paper's compression |
| WitnessHasher.RootOutputBytes | src/witness.rs:452-476 | writes the extendable output for any length, last block and word cut short |
| WitnessHasher.ChunkState.Update | src/witness.rs:534-561 | feeding bytes in any pieces appends them; a full block is compressed only when more input follows |
| WitnessHasher.ChunkState.Output | src/witness.rs:563-571 | the node of the chunk fed so far, with start and end flags and zero padding |
| WitnessHasher.CvStack.Push | src/witness.rs:603-615 | appends one chaining value; the free slots stay zero |
| WitnessHasher.CvStack.Pop | src/witness.rs:678-683 | removes and returns the top and zeroes its slot |
| WitnessHasher.StackFits | src/witness.rs:603-608 | before every push there is a free slot, so the bound of 64 never fires |
| WitnessHasher.InputLimitIsCounter | src/witness.rs:705-725 | the input limit is exactly the number of bytes whose chunks the 64-bit counter can count |
| WitnessHasher.StackIsFull | src/witness.rs:578 | the bound of 64 is exact: the largest 64-bit counter needs all 64 slots |
| WitnessHasher.Hasher.NewKeyed | src/witness.rs:636-655 | the key words are the initial chaining value |
| WitnessHasher.Hasher.AddChunkCv | src/witness.rs:657-690 | turns the stack for n-1 chunks into the stack for n, never popping an empty stack |
| WitnessHasher.Hasher.Update | src/witness.rs:705-725 | after any update the open chunk and the stack account for every byte fed |
| WitnessHasher.Hasher.FinalizeXof | src/witness.rs:727-744 | writes the output of the recursive tree over everything fed, and changes nothing else |
| WitnessHasher.Hasher.WipeState | src/witness.rs:693-703 | key words, chunk and every stack slot are zero |
| WitnessHasher.SameInputSameState | src/witness.rs:705-725 | two hashers fed the same bytes under the same key hold identical states, however the input was split |
| WitnessHasher.StackMatchesCounter | src/witness.rs:705-725 | stack length is the number of one-bits of the chunk counter, the slot of each one-bit holds the complete subtree at that bit, and the open chunk holds 1 to 1024 bytes unless nothing was fed |
| WitnessHasher.KeyedXof | src/witness.rs:747-758 | parts fed one after another give keyed BLAKE3 of their concatenation, for every key, split and output length |
| Siv.OpenIffSeals | src/lib.rs:3486-3663 | for any wire input, decryption returns a plaintext if and only if encrypting it gives back this ciphertext and tag |
| Siv.SealThenOpen | src/lib.rs:3102-3219 | every accepted message decrypts to itself |
| Siv.SealOutcome | src/lib.rs:3048-3056 | encryption accepts exactly messages and associated data of at most 2^38 bytes, the message judged first; the ciphertext is as long as the plaintext and the tag has 65 bytes |
| Siv.OpenOutcome | src/lib.rs:3486-3663 | decryption refuses the same lengths with the same errors; it reports a failed authentication exactly for the other inputs that no encryption gives |
| Siv.InnerInputInjective | src/lib.rs:2910-2918 | the inner hash input determines nonce, associated data and message for all 64-bit lengths |
| Siv.HeadFields | src/lib.rs:2910-2918 | where domain, nonce, both lengths, associated data and message lie in the inner input |
| Siv.DomainsAreAscii | src/lib.rs:496-525 | the domain words are the texts "XSIV", "XSIV-PRE", "XSIV-TAG" and "XSIV-ENC" |
| Siv.DomainsDisjoint | src/lib.rs:507-525 | no input of the inner, outer or key-derivation hash is an input of another |
| Witness.Quarter | src/witness.rs:225-238 | the indexed quarter round is the same map as the tuple-returning one |
| Witness.BlockOf | src/witness.rs:162-221 | the second block function equals the first on every input |
| Witness.HChaCha20Of | src/witness.rs:260-297 | the second HChaCha20 equals the first on every input |
| Witness.KeystreamXor | src/witness.rs:241-257 | the block-at-a-time loop gives the same bytes as the dispatcher |
| Witness.DeriveMaterial | src/witness.rs:772-805 | the same three keys as the main path |
| Witness.TagBytes | src/witness.rs:809-838 | the same two-level tag as the main path, through the second hasher |
| Witness.DeriveEnc | src/witness.rs:846-865 | the same message key and nonce as the main path |
| Witness.Decrypt | src/witness.rs:877-911 | the same plaintext and recomputed tag as the main path |
| Witness.EncryptTag | src/witness.rs:914-929 | the same tag as the main path |
| FoldModel.FoldByteInjective | src/proofs.rs:740-743 | at a fixed position the fold is injective in the byte |
| FoldModel.FoldByteBit | src/proofs.rs:740-743 | bit k of byte plus position moves up by the position, modulo 8 |
| FoldModel.FoldByteSeparates | src/proofs.rs:740-743 | two positions fold all bytes alike if and only if they are equal modulo 256 |
| FoldModel.LengthByteAt | src/proofs.rs:866-876 | the first eight output bytes take the digits of the input length to base 256, the others nothing |
| FoldModel.ShapeExact | src/proofs.rs:774-847 | the model's assertions hold of exactly the calls of the construction: inner hash in three parts or one, outer hash, derivation |
| FoldModel.ThreePartShape | src/proofs.rs:778-797 | the three-part call meets every assertion of the model, for all lengths |
| FoldModel.OnePartShape | src/proofs.rs:816-847 | so does the contiguous call, which no harness reaches |
| FoldModel.ModelBlake3KeyedMulti | src/proofs.rs:752-877 | the nested accumulation loops compute the fold of key and concatenated parts with the length mixed in |
| FoldModel.ModelEdit | src/proofs.rs:740-877 | one edited byte of key or input changes exactly the output byte its position folds into |
| FoldModel.OneEditMovesOneTagByte | src/proofs.rs:1194-1226 | one edited byte anywhere in the two keys, nonce, associated data or message moves exactly one tag byte, at every length |
| FoldModel.OneEditMovesOneDerivedByte | src/proofs.rs:1244-1280 | one edited byte of the seed or the tag moves exactly one of the 44 derived bytes |
| Aead.Blake3KeyedMulti | src/lib.rs:2779-2833 | hashes the concatenation of its parts; under the harnesses every call meets the model's shape assertions |
| Aead.DeriveMaterial | src/lib.rs:2733-2759 | tag keys from block 0 and seed from block 1 of the subkey's keystream, on every processor |
| Aead.WindowExact | src/lib.rs:2949-2953 | on any word width that holds the limit, the contiguous call is chosen exactly for true totals of 2048 to 65536; an overflow never wraps into it |
| Aead.DeriveTag | src/lib.rs:2900-2999 | the two-level tag, whichever call shape and allocator outcome |
| Aead.DeriveEnc | src/lib.rs:3025-3045 | the message key and nonce are the 44 bytes derived from the whole tag |
| Aead.CtEqIndependent | src/lib.rs:3343-3366 | the eight-bytes-at-a-time fold is byte equality |
| Aead.SecondGateComparison | src/lib.rs:3309-3313 | the joined comparison is byte equality |
| Aead.AcceptOrReject | src/lib.rs:3418-3464 | each gate writes its own slot; a rejecting first gate leaves the second slot as it was |
| Aead.Gates | src/lib.rs:3557-3614 | for any stored tag, even a corrupted one, acceptance needs the stored tag to match, with gates also the witness's agreement, with dual-mac also a fresh tag |
| Aead.WitnessAgrees | src/lib.rs:3533-3544 | the cross-check passes if and only if plaintext and tag are those of the construction |
| Aead.Encrypt | src/lib.rs:3102-3219 | in every configuration, with its buffer granted, the specification's result; the cross-check never refuses |
| Aead.EncryptInPlaceDetached | src/lib.rs:3248-3279 | the bytes and tag of the allocating form; the buffer is untouched on an error |
| Aead.Decrypt | src/lib.rs:3486-3663 | every configuration accepts exactly the inputs the specification accepts, with the same plaintext and errors |
| Aead.DecryptInPlaceDetached | src/lib.rs:3740-3929 | the outcome of the allocating form; plaintext in the buffer on success, all zeros on every error path |
| Locked.StepIsLocal | src/lib.rs:2244-2272 | one key's step changes no other key's page or progress |
| Locked.StepKeepsInv | src/lib.rs:1413-1468 | every step keeps one page per key and the kernel flags each phase relies on, whatever the kernel answers |
| Locked.SecretsAlwaysProtected | src/lib.rs:2453-2531 | after any interleaving and any refusals every page with key bytes is locked and dump-excluded, and no page being released after holding a key is locked and dumpable |
| Locked.OthersCannotDisturb | src/lib.rs:2244-2255 | a live key keeps its page, bytes and protection through any run of other keys' steps |
| Locked.DropOutcome | src/lib.rs:1535-1556 | a drop always completes and leaves no key bytes; a refused munlock leaves the page locked and dump-excluded |
| Locked.LeakedPageStays | src/lib.rs:1545-1555 | a leaked exclusion lasts until the page is allocated again |
| Locked.RangeIsItsPages | src/lib.rs:1444-1446 | the rounded range is exactly the pages touched, if and only if the range stays clear of the last page of the address space |
| Locked.RefusedMunlock | src/lib.rs:1545-1555 | after a refused munlock the page is locked, and dumpable exactly in a failed attempt whose refused madvise left it in core dumps |
| Locked.CoveredUnlessExposed | src/lib.rs:1503-1510 | through a whole run no page outside an attempt under way is locked and dumpable, if and only if no such refused munlock occurs in the run |
| Locked.AttemptCanExpose | src/lib.rs:1441-1464 | a concrete run of refusals that ends with a locked, dumpable page that no key owns |
| LockedKey.Process.BackOut | src/lib.rs:1456-1464 | after a refused exclusion, releases the lock first and undoes the advice only if that was granted; a refusal changes no flag |
| LockedKey.Process.LockRange | src/lib.rs:1413-1468 | succeeds exactly when both calls are granted; a granted back-out leaves no flag behind; a refused attempt leaves its page locked and dumpable exactly if nothing had excluded it and either mlock was granted, madvise flagged nothing and munlock was refused, or mlock was refused on a locked page |
| LockedKey.Process.UnlockRange | src/lib.rs:1535-1556 | the dump exclusion is undone only after the lock is released |
| LockedKey.Process.New | src/lib.rs:2244-2282 | a key is handed out exactly when its page is locked and excluded, with its bytes in it; a refused attempt leaves no key bytes, and its page is freed locked and dumpable exactly when `LockRange` leaves it so |
| LockedKey.Process.Drop | src/lib.rs:2516-2531 | after the wipe, release and free no key bytes remain, the page is locked and excluded exactly if munlock was refused, and other keys keep their pages, bytes and flags |
| Zeroize.ZeroizeRaw | src/lib.rs:2568-2602 | exactly the given bytes become zero at any alignment and length; every word store is aligned and in bounds |
| Zeroize.ZeroizeSlice | src/lib.rs:2549-2553 | a whole buffer becomes zero, at whatever address it lies; every byte-buffer wipe of the dispatcher and the entry points goes through it |

Two remarks where the code and a plain reading of its documentation part. `lock_range` rounds its end with
saturating additions, so a range that reaches into the last page of the address space would lose that page
(`Locked.RangeIsItsPages` gives the exact condition; a user-space allocation does not reach it). And the
documentation of `unlock_range` says that when the failure path of `lock_range` has its `munlock` refused, the
range is left non-dumpable. That is false when the refused `madvise` flagged nothing: `Locked.AttemptCanExpose`
is such a run, and its page ends locked and dumpable. `LockedKey.Process.LockRange` and `New` give the exact
condition for one attempt, `Locked.CoveredUnlessExposed` for whole runs. Such a page holds no key
bytes (`Locked.SecretsAlwaysProtected`).

## Left out

- Cryptographic hardness (PRF, collision and commitment bounds): computational assumptions, not program properties.
- Timing, volatile-store elision, stack residue and `scrub_stack`: a functional model has no machine state for them.
- The `blake3` dependency beyond its portable compression and whole-block hash (vector code, subtree splitting, build): not part of this model; it is taken to compute keyed BLAKE3.
- CPUID reading, system calls, `/proc` parsing and OS randomness: kept only as a capability, a kernel answer or not at all.
- Faults as such: `Aead.Gates` is stated for any stored tag, but a skipped instruction is not modelled.
- `decrypt_bounded`, the `Key`, `Plaintext` and `random` interfaces and the integrity tag of a locked key: short members that would add easy claims.
- `LockedKey::new` error codes for an unsupported platform, an unknown page size or a refused page allocation: they return before a page exists.
- The vector intrinsics beyond their lane semantics: registers, alignment and target features are not modelled.
- Slices are sequences or arrays of any length; that a length fits in 64 bits is a precondition only where the code encodes it.
- WitnessHasher.Hasher.Update: input is limited to 2^64 chunks, beyond which the 64-bit chunk counter wraps and the source calls the tree position undefined.
- Locked.SecretsAlwaysProtected: allocation hands out a page no other key owns; memory of other parts of the program on such a page is not modelled.
- `zeroize_array` on word arrays: an array of words has no byte image here, so `ChaChaCore.WipeWords` writes the words themselves.
