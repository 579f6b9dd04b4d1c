/** `zeroize_raw`: byte stores up to the first aligned address, word stores, trailing bytes. */
module Zeroize {
  import opened Words

  /** `size_of::<usize>()`, which equals its alignment on every supported target. */
  type WordSize = w: nat | w == 4 || w == 8 witness 8

  predicate Aligned(address: nat, word: WordSize)
  {
    if word == 4 then address % 4 == 0 else address % 8 == 0
  }

  /** Addresses are `usize` values; the sum wraps. `space` is the number of addresses. */
  function WrappingAdd(a: nat, b: nat, space: nat): nat
    requires space > 0
  {
    (a + b) % space
  }

  lemma NoWrap(a: nat, b: nat, space: nat)
    requires a + b < space
    ensures WrappingAdd(a, b, space) == a + b
  {
    DivModOfSum(0, a + b, space);
  }

  lemma AlignedStore(address: nat, word: WordSize)
    requires Aligned(address, word)
    ensures word == 4 ==> address % 4 == 0
    ensures word == 8 ==> address % 8 == 0
  {
  }

  /** A word-sized volatile store. It is defined only for an aligned address in bounds, so every
      call shows that the store is both. `base` is the address of `mem[0]`. */
  method StoreWide(mem: array<u8>, ghost base: nat, i: nat, word: WordSize)
    requires word == 4 ==> (base + i) % 4 == 0
    requires word == 8 ==> (base + i) % 8 == 0
    requires i + word <= mem.Length
    modifies mem
    ensures forall k :: 0 <= k < mem.Length ==> mem[k] == if i <= k < i + word then 0 else old(mem[k])
  {
    forall k | i <= k < i + word {
      mem[k] := 0;
    }
  }

  /** What `n` zeroed bytes at `ptr` look like. */
  twostate predicate Zeroed(mem: array<u8>, ptr: nat, n: nat)
    reads mem
  {
    forall k :: 0 <= k < mem.Length ==> mem[k] == if ptr <= k < ptr + n then 0 else old(mem[k])
  }

  /** Byte stores up to the first aligned address. */
  method ZeroLeading(mem: array<u8>, base: nat, ptr: nat, len: nat, word: WordSize, space: nat) returns (i: nat)
    requires ptr + len <= mem.Length && base + mem.Length < space
    modifies mem
    ensures i <= len && (i < len ==> Aligned(base + ptr + i, word))
    ensures Zeroed(mem, ptr, i)
  {
    hide Aligned, WrappingAdd;
    i := 0;
    NoWrap(base + ptr, i, space);
    while i < len && !Aligned(WrappingAdd(base + ptr, i, space), word)
      invariant i <= len && WrappingAdd(base + ptr, i, space) == base + ptr + i
      invariant Zeroed(mem, ptr, i)
    {
      mem[ptr + i] := 0;
      i := i + 1;
      NoWrap(base + ptr, i, space);
    }
  }

  lemma NextWordAligned(address: nat, word: WordSize)
    requires Aligned(address, word)
    ensures Aligned(address + word, word)
  {
  }

  /** Word stores while a whole word is left; `len - i` never underflows. */
  method StoreWords(mem: array<u8>, ghost base: nat, ptr: nat, len: nat, start: nat, word: WordSize) returns (i: nat)
    requires start <= len && ptr + len <= mem.Length && (start < len ==> Aligned(base + ptr + start, word))
    modifies mem
    ensures start <= i <= len
    ensures Zeroed(mem, ptr + start, i - start)
  {
    hide Aligned;
    i := start;
    while len - i >= word
      invariant start <= i <= len && (i < len ==> Aligned(base + ptr + i, word))
      invariant Zeroed(mem, ptr + start, i - start)
    {
      NextWordAligned(base + ptr + i, word);
      AlignedStore(base + ptr + i, word);
      StoreWide(mem, base, ptr + i, word);
      i := i + word;
    }
  }

  /** The bytes that do not fill a word. */
  method ZeroTrailing(mem: array<u8>, ptr: nat, len: nat, start: nat)
    requires start <= len && ptr + len <= mem.Length
    modifies mem
    ensures Zeroed(mem, ptr + start, len - start)
  {
    var i := start;
    while i < len
      invariant start <= i <= len
      invariant Zeroed(mem, ptr + start, i - start)
    {
      mem[ptr + i] := 0;
      i := i + 1;
    }
  }

  /** Exactly the `len` bytes at offset `ptr` become zero, at any start alignment. */
  method ZeroizeRaw(mem: array<u8>, base: nat, ptr: nat, len: nat, word: WordSize, space: nat)
    requires ptr + len <= mem.Length && base + mem.Length < space
    modifies mem
    ensures forall k :: 0 <= k < mem.Length ==> mem[k] == if ptr <= k < ptr + len then 0 else old(mem[k])
  {
    hide Aligned;
    var i := ZeroLeading(mem, base, ptr, len, word, space);
    i := StoreWords(mem, base, ptr, len, i, word);
    ZeroTrailing(mem, ptr, len, i);
  }

  /** The wipe of a whole byte buffer, at whatever address it lies. */
  method ZeroizeSlice(slice: array<u8>)
    modifies slice
    ensures slice[..] == Zeros(slice.Length)
  {
    var base: nat, word: WordSize := *, *;
    ZeroizeRaw(slice, base, 0, slice.Length, word, base + slice.Length + 1);
  }
}
