/**
  Kernel memory as the allocator sees it: m[a] is the 64-bit word stored at byte address a.
  Only word-aligned addresses are used; addresses from |m| on are not mapped.

  malloc_state is one object below the heap. The links of its bins are words of the same
  memory, which is what lets a small-bin header stand in for a chunk.
 */
module Memory {
  // Offsets of the fields of malloc_chunk and malloc_tree_chunk.
  const HEAD := 8
  const FD := 16
  const BK := 24
  const CHILD := 32
  const PARENT := 48
  const INDEX := 56

  // malloc_state: its address, the two bin arrays in it, and the first address past it.
  const GM := 0x1000
  const SMALL_BINS := GM + 72
  const TREE_ROOTS := GM + 600
  const GM_END := GM + 936

  /** The word at address a. */
  function W(m: seq<int>, a: int): int {
    if 0 <= a < |m| then m[a] else 0
  }

  /** smallbin_at: a pseudo chunk whose fd and bk are entries of the smallbins array. */
  function SmallBinAt(i: nat): int { SMALL_BINS + 16 * i }

  /** treebin_at. */
  function TreeBinAt(i: nat): int { TREE_ROOTS + 8 * i }

  /** The head word: size, CINUSE_BIT and PINUSE_BIT; sizes are multiples of 16. */
  function HeadWord(size: int, cinuse: bool, pinuse: bool): int {
    size + (if cinuse then 2 else 0) + (if pinuse then 1 else 0)
  }

  /** chunksize: the head without its three flag bits. */
  function ChunkSize(head: int): int { head - head % 8 }

  predicate Cinuse(head: int) { head / 2 % 2 == 1 }

  predicate Pinuse(head: int) { head % 2 == 1 }

  /** head | PINUSE_BIT and head & ~PINUSE_BIT. */
  function SetPinuse(head: int): int { head - head % 2 + 1 }

  function ClearPinuse(head: int): int { head - head % 2 }

  /** Reading back a head word. */
  lemma HeadWordFields(size: int, cinuse: bool, pinuse: bool)
    requires size % 16 == 0
    ensures var h := HeadWord(size, cinuse, pinuse);
            && ChunkSize(h) == size && Cinuse(h) == cinuse && Pinuse(h) == pinuse
            && SetPinuse(h) == HeadWord(size, cinuse, true)
            && ClearPinuse(h) == HeadWord(size, cinuse, false)
  {
    var k, flags := size / 16, (if cinuse then 2 else 0) + (if pinuse then 1 else 0);
    ByEight(HeadWord(size, cinuse, pinuse), 2 * k, flags);
    ByTwo(HeadWord(size, cinuse, pinuse), 8 * k + flags / 2, flags % 2);
    ByTwo(8 * k + flags / 2, 4 * k, flags / 2);
  }

  lemma ByEight(x: int, q: int, r: int)
    requires x == 8 * q + r && 0 <= r < 8
    ensures x % 8 == r
  {
  }

  lemma ByTwo(x: int, q: int, r: int)
    requires x == 2 * q + r && 0 <= r < 2
    ensures x / 2 == q && x % 2 == r
  {
  }
}
