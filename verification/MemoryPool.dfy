/**
 * `MemoryPool` of MemoryPool/C++98. Addresses are naturals below 2^64, memory is read and written in
 * 8-byte words, and a free slot's `next` shares its memory with the client's data through the union.
 */
module Padding {
  import opened Arith

  const WORD64: int := 0x1_0000_0000_0000_0000

  /** `padPointer`: the subtraction is on `size_t` and wraps around. */
  function PadPointer(p: nat, align: nat): (pad: nat)
    requires 0 < align < WORD64 && p < WORD64
    ensures pad < align
  {
    ((align - p) % WORD64) % align
  }

  /** The padded address, up to a multiple of `align`: nothing if the subtraction did not wrap, 2^64 if it did. */
  lemma PaddedAddress(p: nat, align: nat) returns (k: int)
    requires 0 < align < WORD64 && p < WORD64
    ensures p + PadPointer(p, align) == (if p <= align then 0 else WORD64) + align * k
  {
    var v := (align - p) % WORD64;
    DivModUnique(align - p, WORD64, if p <= align then 0 else -1, if p <= align then align - p else align - p + WORD64);
    var q := v / align;
    assert v == align * q + PadPointer(p, align);
    k := 1 - q;
    assert align * k == align - align * q;
  }

  /** The padded address is a multiple of `align` exactly when the subtraction does not wrap or `align` divides
      2^64, that is, is a power of two. */
  lemma AlignsExactlyWhen(p: nat, align: nat)
    requires 0 < align < WORD64 && p < WORD64
    ensures (p + PadPointer(p, align)) % align == 0 <==> p <= align || WORD64 % align == 0
  {
    var k := PaddedAddress(p, align);
    ModAddMultiple(if p <= align then 0 else WORD64, align, k);
  }

  /** It is a multiple of every power of two that divides `align`, whatever `align` is. */
  lemma AlignsToPowersOfTwo(p: nat, align: nat, j: nat)
    requires 0 < align < WORD64 && p < WORD64 && align % Pow2(j) == 0
    ensures (p + PadPointer(p, align)) % Pow2(j) == 0
  {
    var k := PaddedAddress(p, align);
    var m := WordIsMultiple(j, align);
    MultipleSum(Pow2(j), align, k, if p <= align then 0 else m);
  }

  lemma WordIsMultiple(j: nat, align: nat) returns (m: nat)
    requires 0 < align < WORD64 && align % Pow2(j) == 0
    ensures WORD64 == Pow2(j) * m
  {
    DivisorIsSmaller(Pow2(j), align);
    Pow2Of64();
    if j < 64 {
      Pow2Adds(j, 64 - j);
      m := Pow2(64 - j);
    } else {
      Pow2Grows(64, j);
      assert false;
    }
  }

  /** 24-byte alignment is missed at address 32. */
  lemma MissesNonPowerOfTwo()
    ensures PadPointer(32, 24) == 8 && (32 + PadPointer(32, 24)) % 24 != 0
  {
  }
}

module MemoryPool {
  import opened Arith
  import opened Padding

  type Addr = nat
  type Words = map<Addr, nat>

  const PTR := 8     // sizeof(slot_pointer_), also the word size

  /** `slot` is sizeof(slot_type_), `block` is BlockSize. */
  datatype Config = Config(slot: nat, block: nat)

  ghost predicate GoodConfig(c: Config) {
    0 < c.slot && c.slot % PTR == 0 && 2 * c.slot <= c.block < WORD64
  }

  function Word(words: Words, a: Addr): nat {
    if a in words then words[a] else 0
  }

  /** The four fields of a pool, with what they stand for: the chain of blocks (newest first), the free list,
      the slots clients hold, and the largest number ever held at once. */
  datatype Pool = Pool(
    currentBlock: Addr, currentSlot: Addr, lastSlot: Addr, freeSlots: Addr,
    blocks: seq<Addr>, free: seq<Addr>, live: set<Addr>, peak: nat)

  ghost function Elements(xs: seq<Addr>): set<Addr> {
    set x | x in xs
  }

  ghost function Carved(p: Pool): set<Addr> {
    p.live + Elements(p.free)
  }

  // ---------------------------------------------------------------- linked lists in memory

  /** Following `next` from `head` visits exactly `xs` and ends at null. */
  ghost predicate IsList(words: Words, head: Addr, xs: seq<Addr>)
    decreases xs
  {
    if xs == [] then head == 0
    else head == xs[0] && head != 0 && head !in xs[1..] && IsList(words, Word(words, head), xs[1..])
  }

  /** A write to a word that is not the `next` of any element leaves the list as it was. */
  lemma {:induction false} ListFrame(words: Words, head: Addr, xs: seq<Addr>, w: Addr, v: nat)
    requires IsList(words, head, xs) && w !in xs
    ensures IsList(words[w := v], head, xs)
    decreases xs
  {
    if xs != [] {
      ListFrame(words, Word(words, head), xs[1..], w, v);
    }
  }

  lemma ListPush(words: Words, head: Addr, xs: seq<Addr>, w: Addr)
    requires IsList(words, head, xs) && w !in xs && w != 0
    ensures IsList(words[w := head], w, [w] + xs)
  {
    ListFrame(words, head, xs, w, head);
    assert ([w] + xs)[1..] == xs;
  }

  // ---------------------------------------------------------------- layout

  /** Even the address just past the block is a 64-bit one, so no slot pointer wraps around. */
  ghost predicate BlockOk(c: Config, b: Addr) {
    b > 0 && b % PTR == 0 && b + c.block < WORD64
  }

  ghost predicate Apart(x: Addr, y: Addr, size: nat) {
    x + size <= y || y + size <= x
  }

  /** What `operator new` guarantees about a new block. */
  ghost predicate FreshBlock(c: Config, blocks: seq<Addr>, b: Addr) {
    BlockOk(c, b) && forall x <- blocks :: Apart(b, x, c.block)
  }

  ghost predicate BlocksInv(c: Config, blocks: seq<Addr>) {
    && (forall b <- blocks :: BlockOk(c, b))
    && (forall i, j :: 0 <= i < j < |blocks| ==> Apart(blocks[i], blocks[j], c.block))
  }

  /** Slot `s` lies inside block `b`, past the header. */
  ghost predicate InBlock(c: Config, s: Addr, b: Addr) {
    b + PTR <= s && s + c.slot <= b + c.block
  }

  ghost predicate InSomeBlock(c: Config, s: Addr, blocks: seq<Addr>) {
    exists b <- blocks :: InBlock(c, s, b)
  }

  /** Aligned to every power of two that divides the slot size. */
  ghost predicate Aligned(c: Config, s: Addr) {
    forall j: nat :: AlignedTo(c, s, j)
  }

  ghost predicate AlignedTo(c: Config, s: Addr, j: nat) {
    c.slot % Pow2(j) == 0 ==> s % Pow2(j) == 0
  }

  ghost predicate SlotsInv(c: Config, blocks: seq<Addr>, carved: set<Addr>) {
    && (forall s <- carved :: Aligned(c, s) && InSomeBlock(c, s, blocks))
    && (forall s, t :: s in carved && t in carved && s != t ==> Apart(s, t, c.slot))
  }

  /** The part of the newest block from `currentSlot` on has not been handed out. */
  ghost predicate FrontierInv(c: Config, p: Pool) {
    if p.blocks == [] then p.currentBlock == 0 && p.currentSlot == 0 && p.lastSlot == 0
    else
      && p.currentBlock == p.blocks[0]
      && p.lastSlot == p.blocks[0] + c.block - c.slot + 1
      && p.blocks[0] + PTR <= p.currentSlot <= p.blocks[0] + c.block && Aligned(c, p.currentSlot)
      && (forall s <- Carved(p) :: InBlock(c, s, p.blocks[0]) ==> s + c.slot <= p.currentSlot)
  }

  ghost predicate ListsInv(words: Words, p: Pool) {
    && IsList(words, p.freeSlots, p.free) && IsList(words, p.currentBlock, p.blocks)
    && (forall x <- p.free :: x !in p.live)
  }

  ghost predicate PeakInv(p: Pool) {
    |Carved(p)| == p.peak && |p.live| <= p.peak
  }

  ghost predicate PoolInv(c: Config, words: Words, p: Pool) {
    && GoodConfig(c) && BlocksInv(c, p.blocks) && SlotsInv(c, p.blocks, Carved(p))
    && FrontierInv(c, p) && ListsInv(words, p) && PeakInv(p)
  }

  /** `w` is the address of one of the words of slot `s`. */
  ghost predicate WithinSlot(c: Config, s: Addr, w: Addr) {
    s <= w && w % PTR == 0 && w + PTR <= s + c.slot
  }

  lemma SlotsBlock(c: Config, blocks: seq<Addr>, s: Addr) returns (i: nat)
    requires InSomeBlock(c, s, blocks)
    ensures i < |blocks| && InBlock(c, s, blocks[i])
  {
    var b :| b in blocks && InBlock(c, s, b);
    i :| 0 <= i < |blocks| && blocks[i] == b;
  }

  /** The bytes of a word inside a carved slot are those of no block's header and of no other slot. */
  lemma SlotWordIsPrivate(c: Config, blocks: seq<Addr>, carved: set<Addr>, s: Addr, w: Addr)
    requires GoodConfig(c) && BlocksInv(c, blocks) && SlotsInv(c, blocks, carved) && s in carved && WithinSlot(c, s, w)
    ensures forall b <- blocks :: Apart(w, b, PTR)
    ensures forall t <- carved :: t != s ==> Apart(w, t, PTR)
  {
    var i := SlotsBlock(c, blocks, s);
    forall b <- blocks
      ensures Apart(w, b, PTR)
    {
      var k :| 0 <= k < |blocks| && blocks[k] == b;
      assert k < i ==> Apart(blocks[k], blocks[i], c.block);
      assert i < k ==> Apart(blocks[i], blocks[k], c.block);
    }
    forall t <- carved | t != s
      ensures Apart(w, t, PTR)
    {
      assert Apart(s, t, c.slot);
    }
  }

  lemma ApartNotIn(w: Addr, xs: seq<Addr>)
    requires forall x <- xs :: Apart(w, x, PTR)
    ensures w !in xs
  {
  }

  // ---------------------------------------------------------------- operations on the view

  /** The pool after `allocateBlock` put block `b` in front, with `first` its first slot. */
  ghost function WithBlock(c: Config, p: Pool, b: Addr, first: Addr): Pool
    requires c.slot <= c.block
  {
    p.(currentBlock := b, currentSlot := first, lastSlot := b + c.block - c.slot + 1, blocks := [b] + p.blocks)
  }

  /** Where `allocateBlock` puts the first slot of a block. */
  ghost function FirstSlot(c: Config, b: Addr): Addr
    requires GoodConfig(c) && BlockOk(c, b)
  {
    b + PTR + PadPointer(b + PTR, c.slot)
  }

  lemma PadRoom(b: nat, pad: nat, slot: nat)
    requires b % 8 == 0 && slot % 8 == 0 && (b + 8 + pad) % 8 == 0 && pad < slot
    ensures pad + 8 <= slot
  {
  }

  /** Padding a block's body aligns its first slot. */
  lemma FirstSlotAligned(c: Config, b: Addr)
    requires GoodConfig(c) && BlockOk(c, b)
    ensures Aligned(c, FirstSlot(c, b))
  {
    var first := FirstSlot(c, b);
    forall j: nat
      ensures AlignedTo(c, first, j)
    {
      if c.slot % Pow2(j) == 0 {
        AlignsToPowersOfTwo(b + PTR, c.slot, j);
      }
    }
  }

  /** BlockSize >= 2 * sizeof(slot) is enough for the first slot of a block, which is not checked, to fit. */
  lemma FirstSlotFits(c: Config, b: Addr)
    requires GoodConfig(c) && BlockOk(c, b)
    ensures InBlock(c, FirstSlot(c, b), b)
  {
    assert Pow2(3) == PTR;
    AlignsToPowersOfTwo(b + PTR, c.slot, 3);
    PadRoom(b, PadPointer(b + PTR, c.slot), c.slot);
  }

  /** The old slots lie in the old blocks, apart from a fresh one. */
  lemma OldSlotsOutside(c: Config, blocks: seq<Addr>, carved: set<Addr>, b: Addr)
    requires GoodConfig(c) && SlotsInv(c, blocks, carved) && FreshBlock(c, blocks, b)
    ensures forall s <- carved :: s != b && !InBlock(c, s, b) && InSomeBlock(c, s, [b] + blocks)
  {
    forall s <- carved
      ensures s != b && !InBlock(c, s, b) && InSomeBlock(c, s, [b] + blocks)
    {
      var x :| x in blocks && InBlock(c, s, x);
      assert x in [b] + blocks && Apart(b, x, c.block);
    }
  }

  lemma BlocksGrow(c: Config, blocks: seq<Addr>, b: Addr)
    requires GoodConfig(c) && BlocksInv(c, blocks) && FreshBlock(c, blocks, b)
    ensures BlocksInv(c, [b] + blocks) && b !in blocks
  {
    assert forall x <- blocks :: Apart(b, x, c.block);
  }

  lemma NewBlockLists(words: Words, p: Pool, p': Pool, b: Addr)
    requires ListsInv(words, p) && b != 0 && b !in p.free && b !in p.blocks
    requires p'.freeSlots == p.freeSlots && p'.free == p.free && p'.live == p.live
    requires p'.currentBlock == b && p'.blocks == [b] + p.blocks
    ensures ListsInv(words[b := p.currentBlock], p')
  {
    ListFrame(words, p.freeSlots, p.free, b, p.currentBlock);
    ListPush(words, p.currentBlock, p.blocks, b);
  }

  lemma NewBlockKeepsInv(c: Config, words: Words, p: Pool, b: Addr, first: Addr)
    requires PoolInv(c, words, p) && FreshBlock(c, p.blocks, b) && Aligned(c, first) && InBlock(c, first, b)
    ensures PoolInv(c, words[b := p.currentBlock], WithBlock(c, p, b, first))
  {
    var p' := WithBlock(c, p, b, first);
    OldSlotsOutside(c, p.blocks, Carved(p), b);
    BlocksGrow(c, p.blocks, b);
    assert Carved(p') == Carved(p);
    assert b !in p.free by {
      assert forall x <- p.free :: x in Carved(p);
    }
    NewBlockLists(words, p, p', b);
  }

  ghost function Max(x: nat, y: nat): nat {
    if x > y then x else y
  }

  /** Handing out a slot to a client. */
  ghost function Hold(p: Pool, s: Addr): Pool {
    p.(live := p.live + {s}, peak := Max(p.peak, |p.live + {s}|))
  }

  ghost function Carve(c: Config, p: Pool): Pool {
    Hold(p.(currentSlot := p.currentSlot + c.slot), p.currentSlot)
  }

  lemma OneMoreSlot(c: Config, blocks: seq<Addr>, carved: set<Addr>, s: Addr)
    requires SlotsInv(c, blocks, carved) && Aligned(c, s) && InSomeBlock(c, s, blocks)
    requires forall t <- carved :: Apart(t, s, c.slot)
    ensures SlotsInv(c, blocks, carved + {s})
  {
  }

  lemma CarveFrontier(c: Config, p: Pool)
    requires FrontierInv(c, p) && p.free == [] && p.blocks != [] && Aligned(c, p.currentSlot + c.slot)
    requires p.currentSlot + c.slot <= p.blocks[0] + c.block
    ensures FrontierInv(c, Carve(c, p)) && Carved(Carve(c, p)) == Carved(p) + {p.currentSlot}
  {
    assert Elements(p.free) == {};
  }

  /** Carving the next slot is done only when everything carved so far is in use. */
  lemma CarveKeepsInv(c: Config, words: Words, p: Pool)
    requires PoolInv(c, words, p) && p.free == [] && p.blocks != [] && InBlock(c, p.currentSlot, p.blocks[0])
    ensures PoolInv(c, words, Carve(c, p))
    ensures p.currentSlot !in Carved(p)
  {
    CarvedIsApart(c, p);
    NextAligned(c, p.currentSlot);
    CarveFrontier(c, p);
    assert InSomeBlock(c, p.currentSlot, p.blocks);
    OneMoreSlot(c, p.blocks, Carved(p), p.currentSlot);
    assert Carved(p) == p.live;
  }

  lemma CarvedIsApart(c: Config, p: Pool)
    requires GoodConfig(c) && BlocksInv(c, p.blocks) && SlotsInv(c, p.blocks, Carved(p)) && FrontierInv(c, p)
    requires p.blocks != [] && InBlock(c, p.currentSlot, p.blocks[0])
    ensures forall s <- Carved(p) :: s != p.currentSlot && Apart(s, p.currentSlot, c.slot)
  {
    forall s <- Carved(p)
      ensures s != p.currentSlot && Apart(s, p.currentSlot, c.slot)
    {
      var b :| b in p.blocks && InBlock(c, s, b);
      var i :| 0 <= i < |p.blocks| && p.blocks[i] == b;
      assert i > 0 ==> Apart(p.blocks[0], p.blocks[i], c.block);
    }
  }

  lemma NextAligned(c: Config, s: Addr)
    requires c.slot > 0 && Aligned(c, s)
    ensures Aligned(c, s + c.slot)
  {
    var next := s + c.slot;
    forall j: nat
      ensures AlignedTo(c, next, j)
    {
      assert AlignedTo(c, s, j);
      if c.slot % Pow2(j) == 0 {
        SumAligned(s, c.slot, Pow2(j));
      }
    }
  }

  lemma SumAligned(x: nat, y: nat, d: nat)
    requires d > 0 && x % d == 0 && y % d == 0
    ensures (x + y) % d == 0
  {
    MultipleSum(d, x, 1, y / d);
  }

  ghost function Reuse(words: Words, p: Pool): Pool
    requires p.free != []
  {
    Hold(p.(freeSlots := Word(words, p.freeSlots), free := p.free[1..]), p.freeSlots)
  }

  lemma ReuseKeepsInv(c: Config, words: Words, p: Pool)
    requires PoolInv(c, words, p) && p.free != []
    ensures PoolInv(c, words, Reuse(words, p))
    ensures p.freeSlots in Carved(p) && p.freeSlots !in p.live
  {
    ReuseLists(words, p);
    LiveFits(Reuse(words, p));
  }

  lemma ReuseLists(words: Words, p: Pool)
    requires ListsInv(words, p) && p.free != []
    ensures ListsInv(words, Reuse(words, p))
    ensures Carved(Reuse(words, p)) == Carved(p)
    ensures p.freeSlots in Carved(p) && p.freeSlots !in p.live
  {
    assert p.free == [p.freeSlots] + p.free[1..];
  }

  lemma LiveFits(p: Pool)
    ensures |p.live| <= |Carved(p)|
  {
    assert Carved(p) == p.live + (Carved(p) - p.live);
  }

  ghost function GiveBack(p: Pool, s: Addr): Pool {
    p.(freeSlots := s, free := [s] + p.free, live := p.live - {s})
  }

  /** The first word of a held slot. */
  lemma HeldWithin(c: Config, words: Words, p: Pool, s: Addr)
    requires PoolInv(c, words, p) && s in p.live
    ensures s in Carved(p) && s !in p.free && WithinSlot(c, s, s)
  {
    assert Aligned(c, s);
    SlotMultiple(c, s);
    DivisorIsSmaller(PTR, c.slot);
  }

  lemma SlotMultiple(c: Config, s: Addr)
    requires GoodConfig(c) && Aligned(c, s)
    ensures s % PTR == 0
  {
    assert Pow2(3) == PTR;
    assert AlignedTo(c, s, 3);
  }

  lemma GiveBackLists(words: Words, p: Pool, s: Addr)
    requires ListsInv(words, p) && s in p.live && s != 0 && s !in p.blocks
    ensures ListsInv(words[s := p.freeSlots], GiveBack(p, s))
  {
    ListPush(words, p.freeSlots, p.free, s);
    ListFrame(words, p.currentBlock, p.blocks, s, p.freeSlots);
  }

  /** The slot only changes from held to free. */
  lemma GiveBackCarved(p: Pool, s: Addr)
    requires s in p.live
    ensures Carved(GiveBack(p, s)) == Carved(p)
  {
  }

  /** A held slot is not null and heads nothing. */
  lemma HeldApart(c: Config, words: Words, p: Pool, s: Addr)
    requires PoolInv(c, words, p) && s in p.live
    ensures s != 0 && s !in p.blocks
  {
    HeldWithin(c, words, p, s);
    SlotWordIsPrivate(c, p.blocks, Carved(p), s, s);
    LiveIsNonzero(c, p, s);
    hide PoolInv, Carved;
    ApartNotIn(s, p.blocks);
  }

  lemma GiveBackRest(c: Config, p: Pool, s: Addr)
    requires s in p.live && FrontierInv(c, p) && PeakInv(p)
    ensures FrontierInv(c, GiveBack(p, s)) && PeakInv(GiveBack(p, s))
  {
    GiveBackCarved(p, s);
    LiveFits(GiveBack(p, s));
    hide Carved, Aligned, InBlock;
  }

  lemma GiveBackKeepsInv(c: Config, words: Words, p: Pool, s: Addr)
    requires PoolInv(c, words, p) && s in p.live
    ensures PoolInv(c, words[s := p.freeSlots], GiveBack(p, s))
  {
    hide GoodConfig, BlocksInv, SlotsInv, FrontierInv, ListsInv, PeakInv, Carved;
    HeldApart(c, words, p, s);
    GiveBackLists(words, p, s);
    GiveBackCarved(p, s);
    GiveBackRest(c, p, s);
  }

  lemma LiveIsNonzero(c: Config, p: Pool, s: Addr)
    requires GoodConfig(c) && SlotsInv(c, p.blocks, Carved(p)) && s in Carved(p)
    ensures s >= PTR
  {
    var b :| b in p.blocks && InBlock(c, s, b);
  }

  /** A client that writes inside a slot it holds cannot touch the free list or the chain of blocks: its word
      shares no byte with any of their links. */
  lemma ClientWriteKeepsInv(c: Config, words: Words, p: Pool, s: Addr, w: Addr, v: nat)
    requires PoolInv(c, words, p) && s in p.live && WithinSlot(c, s, w)
    ensures PoolInv(c, words[w := v], p)
    ensures forall x <- p.free + p.blocks :: Apart(w, x, PTR)
  {
    FreeIsCarved(p);
    SlotWordIsPrivate(c, p.blocks, Carved(p), s, w);
    hide BlocksInv, SlotsInv, FrontierInv, PeakInv, Carved, IsList;
    ApartNotIn(w, p.free);
    ApartNotIn(w, p.blocks);
    ListFrame(words, p.freeSlots, p.free, w, v);
    ListFrame(words, p.currentBlock, p.blocks, w, v);
  }

  lemma FreeIsCarved(p: Pool)
    ensures p.live <= Carved(p) && forall x <- p.free :: x in Carved(p)
  {
  }

  // ---------------------------------------------------------------- max_size

  /** `max_size`, in the arithmetic of `size_t`. */
  function MaxSize(c: Config): nat
    requires 0 < c.slot && PTR <= c.block < WORD64
  {
    ((c.block - PTR) / c.slot * ((WORD64 - 1) / c.block)) % WORD64
  }

  /** Disjoint intervals of one length inside a range take up no more than the range. */
  lemma {:induction false} Packing(xs: set<nat>, size: nat, lo: nat, hi: nat)
    requires lo <= hi && size > 0
    requires forall x <- xs :: lo <= x && x + size <= hi
    requires forall x, y :: x in xs && y in xs && x != y ==> Apart(x, y, size)
    ensures size * |xs| <= hi - lo
    decreases |xs|
  {
    if xs != {} {
      var m := Greatest(xs);
      forall x <- xs - {m}
        ensures x + size <= m
      {
        assert Apart(x, m, size);
      }
      Packing(xs - {m}, size, lo, m);
      Distribute(size, |xs - {m}|, 1);
    }
  }

  lemma {:induction false} Greatest(xs: set<nat>) returns (m: nat)
    requires xs != {}
    ensures m in xs && forall x <- xs :: x <= m
    decreases |xs|
  {
    m :| m in xs;
    if xs != {m} {
      var n := Greatest(xs - {m});
      assert forall x <- xs :: x == m || x in xs - {m};
      m := if n > m then n else m;
    }
  }

  ghost function PerBlock(c: Config): nat
    requires GoodConfig(c)
  {
    (c.block - PTR) / c.slot
  }

  /** No block holds more than (BlockSize - sizeof(pointer)) / sizeof(slot) slots. */
  lemma SlotsInOneBlock(c: Config, blocks: seq<Addr>, carved: set<Addr>, b: Addr)
    requires GoodConfig(c) && SlotsInv(c, blocks, carved)
    ensures |set s | s in carved && InBlock(c, s, b)| <= PerBlock(c)
  {
    var inside := set s | s in carved && InBlock(c, s, b);
    Packing(inside, c.slot, b + PTR, b + c.block);
    AtMostQuotient(|inside|, c.slot, c.block - PTR);
  }

  lemma {:induction false} SlotsInBlocks(c: Config, blocks: seq<Addr>, carved: set<Addr>, bs: seq<Addr>)
    requires GoodConfig(c) && SlotsInv(c, blocks, carved)
    ensures |set s | s in carved && InSomeBlock(c, s, bs)| <= PerBlock(c) * |bs|
    decreases bs
  {
    var inside := set s | s in carved && InSomeBlock(c, s, bs);
    if bs == [] {
      assert inside == {};
    } else {
      var first := set s | s in carved && InBlock(c, s, bs[0]);
      var others := set s | s in carved && InSomeBlock(c, s, bs[1..]);
      SlotsInOneBlock(c, blocks, carved, bs[0]);
      SlotsInBlocks(c, blocks, carved, bs[1..]);
      forall s <- inside
        ensures s in first + others
      {
        var b :| b in bs && InBlock(c, s, b);
        assert b == bs[0] || b in bs[1..];
      }
      SubsetSize(inside, first + others);
      assert |first + others| == |first| + |others| - |first * others|;
      Distribute(PerBlock(c), |bs[1..]|, 1);
    }
  }

  /** Disjoint non-null blocks: there are at most (2^64 - 1) / BlockSize of them. */
  lemma BlockCount(c: Config, blocks: seq<Addr>)
    requires GoodConfig(c) && BlocksInv(c, blocks)
    ensures |blocks| <= (WORD64 - 1) / c.block
  {
    var bs := Elements(blocks);
    DistinctSize(c, blocks);
    forall x, y | x in bs && y in bs && x != y
      ensures Apart(x, y, c.block)
    {
      var i :| 0 <= i < |blocks| && blocks[i] == x;
      var j :| 0 <= j < |blocks| && blocks[j] == y;
      assert i < j ==> Apart(blocks[i], blocks[j], c.block);
      assert j < i ==> Apart(blocks[j], blocks[i], c.block);
    }
    Packing(bs, c.block, 1, WORD64);
    AtMostQuotient(|bs|, c.block, WORD64 - 1);
  }

  lemma {:induction false} DistinctSize(c: Config, blocks: seq<Addr>)
    requires GoodConfig(c) && BlocksInv(c, blocks)
    ensures |Elements(blocks)| == |blocks|
  {
    if blocks != [] {
      DistinctSize(c, blocks[1..]);
      forall i | 0 < i < |blocks|
        ensures blocks[i] != blocks[0]
      {
        assert Apart(blocks[0], blocks[i], c.block);
      }
      assert Elements(blocks) == {blocks[0]} + Elements(blocks[1..]);
    }
  }

  /** The product in `max_size` does not wrap. */
  lemma MaxSizeDoesNotWrap(c: Config)
    requires GoodConfig(c)
    ensures MaxSize(c) == PerBlock(c) * ((WORD64 - 1) / c.block)
  {
    var n, m := PerBlock(c), (WORD64 - 1) / c.block;
    QuotientAtMost(c.block - PTR, c.slot);
    assert n <= c.block;
    MulMonotone(n, c.block, m);
    assert c.block * m <= WORD64 - 1;
    DivModUnique(n * m, WORD64, 0, n * m);
  }

  lemma QuotientAtMost(x: nat, d: nat)
    requires d > 0
    ensures 0 <= x / d <= x
  {
    MulMonotone(1, d, x / d);
  }

  lemma MulMonotone(x: nat, y: nat, z: nat)
    requires x <= y
    ensures 0 <= x * z <= y * z
  {
    Distribute(z, x, y - x);
  }

  lemma CarvedFits(c: Config, blocks: seq<Addr>, carved: set<Addr>)
    requires GoodConfig(c) && BlocksInv(c, blocks) && SlotsInv(c, blocks, carved)
    ensures |carved| <= PerBlock(c) * |blocks|
  {
    SlotsInBlocks(c, blocks, carved, blocks);
    assert carved == set s | s in carved && InSomeBlock(c, s, blocks);
  }

  /** In every reachable state the clients hold no more slots than `max_size()`. */
  lemma LiveWithinMaxSize(c: Config, words: Words, p: Pool)
    requires PoolInv(c, words, p)
    ensures |p.live| <= MaxSize(c)
  {
    hide GoodConfig, BlocksInv, SlotsInv, FrontierInv, ListsInv, PeakInv, PerBlock, MaxSize, Carved;
    CarvedFits(c, p.blocks, Carved(p));
    BlockCount(c, p.blocks);
    LiveFits(p);
    MaxSizeCovers(c, |p.live|, |p.blocks|);
  }

  lemma MaxSizeCovers(c: Config, slots: nat, blocks: nat)
    requires GoodConfig(c) && slots <= PerBlock(c) * blocks && blocks <= (WORD64 - 1) / c.block
    ensures slots <= MaxSize(c)
  {
    MaxSizeDoesNotWrap(c);
    hide PerBlock, MaxSize;
    var n, m := PerBlock(c), (WORD64 - 1) / c.block;
    MulMonotone(blocks, m, n);
    assert blocks * n == n * blocks && m * n == n * m;
  }

  /** What `allocate` does: the slot was held by nobody; it is the head of the free list if there is one, and
      otherwise a new one, carved when everything carved before is in use. */
  ghost predicate HandsOut(p: Pool, p': Pool, s: Addr) {
    && s !in p.live && p'.live == p.live + {s} && p'.peak == Max(p.peak, |p'.live|)
    && (p.free != [] ==> p.free == [s] + p'.free && p'.blocks == p.blocks)
    && (p.free == [] ==> p'.free == [] && s !in Carved(p) && |p'.live| == p'.peak)
  }

  lemma NullMeansEmpty(words: Words, p: Pool)
    requires ListsInv(words, p)
    ensures p.freeSlots != 0 <==> p.free != []
  {
  }

  lemma ReuseHandsOut(c: Config, words: Words, p: Pool)
    requires PoolInv(c, words, p) && p.free != []
    ensures HandsOut(p, Reuse(words, p), p.freeSlots)
  {
    assert p.free == [p.freeSlots] + p.free[1..];
  }

  lemma CarveHandsOut(c: Config, words: Words, p: Pool)
    requires PoolInv(c, words, p) && p.free == [] && p.blocks != [] && InBlock(c, p.currentSlot, p.blocks[0])
    ensures HandsOut(p, Carve(c, p), p.currentSlot)
  {
    CarvedIsApart(c, p);
    assert Carved(p) == p.live;
  }

  /** What holding a slot means in a reachable state: it lies inside a block past its header, aligned, and
      overlaps no other held slot and no free slot. */
  lemma HeldSlotIsSound(c: Config, words: Words, p: Pool, s: Addr)
    requires PoolInv(c, words, p) && s in p.live
    ensures Aligned(c, s) && s % PTR == 0 && InSomeBlock(c, s, p.blocks)
    ensures forall t <- p.live :: t != s ==> Apart(s, t, c.slot)
    ensures forall t <- p.free :: Apart(s, t, c.slot)
  {
    assert s in Carved(p);
    SlotMultiple(c, s);
    forall t <- p.free
      ensures Apart(s, t, c.slot)
    {
      assert t in Carved(p);
    }
  }

  lemma BlocksDistinct(c: Config, blocks: seq<Addr>)
    requires GoodConfig(c) && BlocksInv(c, blocks)
    ensures forall i, j :: 0 <= i < j < |blocks| ==> blocks[i] != blocks[j]
  {
    forall i, j | 0 <= i < j < |blocks|
      ensures blocks[i] != blocks[j]
    {
      assert Apart(blocks[i], blocks[j], c.block);
    }
  }

  /** The number of slots ever carved is the largest number ever held at once. */
  lemma CarvedIsPeak(c: Config, words: Words, p: Pool)
    requires PoolInv(c, words, p)
    ensures |p.live| + |p.free| == p.peak
  {
    ListSize(words, p.freeSlots, p.free);
    assert p.live !! Elements(p.free);
    assert |Carved(p)| == |p.live| + |Elements(p.free)|;
  }

  lemma {:induction false} ListSize(words: Words, head: Addr, xs: seq<Addr>)
    requires IsList(words, head, xs)
    ensures |Elements(xs)| == |xs|
    decreases xs
  {
    if xs != [] {
      ListSize(words, Word(words, head), xs[1..]);
      assert Elements(xs) == {xs[0]} + Elements(xs[1..]);
    }
  }

  // ---------------------------------------------------------------- blocks are filled

  /** How many slots block `b` yields: as many as fit from its first slot on. */
  ghost function Capacity(c: Config, b: Addr): nat
    requires GoodConfig(c) && BlockOk(c, b)
  {
    FirstSlotFits(c, b);
    (b + c.block - FirstSlot(c, b)) / c.slot
  }

  /** The k-th place in a block, counted from its first slot. */
  ghost function SlotAt(c: Config, b: Addr, k: nat): Addr
    requires GoodConfig(c) && BlockOk(c, b)
  {
    FirstSlot(c, b) + c.slot * k
  }

  lemma NextSlot(c: Config, b: Addr, k: nat)
    requires GoodConfig(c) && BlockOk(c, b)
    ensures SlotAt(c, b, 0) == FirstSlot(c, b)
    ensures SlotAt(c, b, k + 1) == SlotAt(c, b, k) + c.slot
  {
    hide FirstSlot, BlockOk;
    assert c.slot * 0 == 0;
    Distribute(c.slot, k, 1);
  }

  ghost function CapacitySum(c: Config, blocks: seq<Addr>): nat
    requires GoodConfig(c) && forall b <- blocks :: BlockOk(c, b)
  {
    if blocks == [] then 0
    else
      assert blocks[0] in blocks && forall b <- blocks[1..] :: b in blocks;
      Capacity(c, blocks[0]) + CapacitySum(c, blocks[1..])
  }

  /** The k-th place in a block is a slot exactly if k is below its capacity; the capacity is at most what
      `max_size` counts for a block, and is that where no padding is needed. */
  lemma CapacityIs(c: Config, b: Addr, k: nat)
    requires GoodConfig(c) && BlockOk(c, b)
    ensures InBlock(c, SlotAt(c, b, k), b) <==> k < Capacity(c, b)
    ensures Capacity(c, b) <= PerBlock(c)
    ensures PadPointer(b + PTR, c.slot) == 0 ==> Capacity(c, b) == PerBlock(c)
  {
    FirstSlotFits(c, b);
    var pad := PadPointer(b + PTR, c.slot);
    Fits(c.slot, c.block - PTR - pad, k);
    QuotientGrows(c.block - PTR - pad, c.block - PTR, c.slot);
    Distribute(c.slot, k, 1);
    MulMonotone(0, k, c.slot);
  }

  lemma Fits(slot: nat, room: nat, k: nat)
    requires slot > 0
    ensures slot * k + slot <= room <==> k < room / slot
  {
    var q := room / slot;
    assert room == slot * q + room % slot;
    Distribute(slot, k, 1);
    if k < q {
      MulMonotone(k + 1, q, slot);
    } else {
      NotMore(slot, q, k, room % slot);
    }
  }

  lemma NotMore(slot: nat, q: nat, k: nat, r: nat)
    requires q <= k && r < slot
    ensures slot * q + r < slot * k + slot
  {
    MulMonotone(q, k, slot);
  }

  lemma QuotientGrows(x: nat, y: nat, d: nat)
    requires x <= y && d > 0
    ensures x / d <= y / d
  {
    assert d * (x / d) == x - x % d;
    AtMostQuotient(x / d, d, y);
  }

  /** All older blocks are full, and the newest is carved without gaps up to `currentSlot`. */
  ghost predicate Filled(c: Config, p: Pool) {
    && GoodConfig(c) && (forall b <- p.blocks :: BlockOk(c, b))
    && if p.blocks == [] then Carved(p) == {}
       else exists k :: CarvedUpTo(c, p, k)
  }

  ghost predicate CarvedUpTo(c: Config, p: Pool, k: nat)
    requires GoodConfig(c) && p.blocks != [] && forall b <- p.blocks :: BlockOk(c, b)
  {
    assert p.blocks[0] in p.blocks && forall b <- p.blocks[1..] :: b in p.blocks;
    p.currentSlot == SlotAt(c, p.blocks[0], k) && |Carved(p)| == CapacitySum(c, p.blocks[1..]) + k
  }

  lemma CarveFilled(c: Config, words: Words, p: Pool)
    requires PoolInv(c, words, p) && Filled(c, p)
    requires p.free == [] && p.blocks != [] && InBlock(c, p.currentSlot, p.blocks[0])
    ensures Filled(c, Carve(c, p))
  {
    CarveAddsOne(c, words, p);
    hide PoolInv, SlotAt, CapacitySum, CarvedUpTo, Carved, InBlock;
    var k: nat :| CarvedUpTo(c, p, k);
    CarvedOneMore(c, p, k);
  }

  lemma CarveAddsOne(c: Config, words: Words, p: Pool)
    requires PoolInv(c, words, p) && p.free == [] && p.blocks != [] && InBlock(c, p.currentSlot, p.blocks[0])
    ensures |Carved(Carve(c, p))| == |Carved(p)| + 1
  {
    CarveKeepsInv(c, words, p);
    hide PoolInv, InBlock;
    assert Carved(Carve(c, p)) == Carved(p) + {p.currentSlot};
  }

  lemma CarvedOneMore(c: Config, p: Pool, k: nat)
    requires GoodConfig(c) && p.blocks != [] && forall b <- p.blocks :: BlockOk(c, b)
    requires CarvedUpTo(c, p, k) && |Carved(Carve(c, p))| == |Carved(p)| + 1
    ensures CarvedUpTo(c, Carve(c, p), k + 1)
  {
    NextSlot(c, p.blocks[0], k);
    hide SlotAt, CapacitySum, Carved, BlockOk, GoodConfig;
  }

  /** A new block is taken only when the newest is full. */
  lemma NewBlockFilled(c: Config, words: Words, p: Pool, b: Addr)
    requires PoolInv(c, words, p) && Filled(c, p) && BlockOk(c, b)
    requires p.blocks != [] ==> !InBlock(c, p.currentSlot, p.blocks[0])
    ensures Filled(c, WithBlock(c, p, b, FirstSlot(c, b)))
  {
    var p' := WithBlock(c, p, b, FirstSlot(c, b));
    FrontierFacts(c, words, p);
    NextSlot(c, b, 0);
    hide PoolInv, SlotAt, FirstSlot, BlockOk, InBlock, Capacity;
    assert p'.blocks[1..] == p.blocks && Carved(p') == Carved(p);
    if p.blocks != [] {
      var k: nat :| CarvedUpTo(c, p, k);
      FullAt(c, p.blocks[0], k);
    }
    assert CarvedUpTo(c, p', 0);
  }

  lemma FrontierFacts(c: Config, words: Words, p: Pool)
    requires PoolInv(c, words, p)
    ensures |Carved(p)| == p.peak
    ensures p.blocks != [] ==> p.blocks[0] + PTR <= p.currentSlot <= p.blocks[0] + c.block
  {
    hide GoodConfig, BlocksInv, SlotsInv, ListsInv, Carved;
  }

  lemma WithinCapacity(c: Config, b: Addr, k: nat)
    requires GoodConfig(c) && BlockOk(c, b) && SlotAt(c, b, k) <= b + c.block
    ensures k <= Capacity(c, b)
  {
    if k > 0 {
      CapacityIs(c, b, k - 1);
      NextSlot(c, b, k - 1);
      FirstSlotFits(c, b);
      MulMonotone(0, k - 1, c.slot);
      assert SlotAt(c, b, k - 1) >= FirstSlot(c, b);
      hide SlotAt, Capacity, FirstSlot, BlockOk;
    }
  }

  lemma FullAt(c: Config, b: Addr, k: nat)
    requires GoodConfig(c) && BlockOk(c, b) && SlotAt(c, b, k) <= b + c.block && !InBlock(c, SlotAt(c, b, k), b)
    ensures k == Capacity(c, b)
  {
    CapacityIs(c, b, k);
    WithinCapacity(c, b, k);
  }

  lemma SameCarved(c: Config, p: Pool, p': Pool)
    requires Filled(c, p) && p'.blocks == p.blocks && p'.currentSlot == p.currentSlot && Carved(p') == Carved(p)
    ensures Filled(c, p')
  {
    if p.blocks != [] {
      var k: nat :| CarvedUpTo(c, p, k);
      assert CarvedUpTo(c, p', k);
    }
  }

  lemma GiveBackFilled(c: Config, p: Pool, s: Addr)
    requires s in p.live
    ensures Filled(c, p) ==> Filled(c, GiveBack(p, s))
  {
    GiveBackCarved(p, s);
    hide Filled;
    if Filled(c, p) {
      SameCarved(c, p, GiveBack(p, s));
    }
  }

  /** `allocate` keeps blocks filled, in each of its three cases. */
  lemma AllocateFilled(c: Config, words: Words, p: Pool, b: Addr)
    requires PoolInv(c, words, p)
    ensures Filled(c, p) && p.free != [] ==> Filled(c, Reuse(words, p))
    ensures Filled(c, p) && p.free == [] && p.currentSlot < p.lastSlot ==> Filled(c, Carve(c, p))
    ensures Filled(c, p) && p.free == [] && p.currentSlot >= p.lastSlot && FreshBlock(c, p.blocks, b) ==>
              Filled(c, Carve(c, WithBlock(c, p, b, FirstSlot(c, b))))
  {
    if Filled(c, p) {
      if p.free != [] {
        ReuseLists(words, p);
        SameCarved(c, p, Reuse(words, p));
      } else if p.currentSlot < p.lastSlot {
        CarveFilled(c, words, p);
      } else if FreshBlock(c, p.blocks, b) {
        NewBlockFilled(c, words, p, b);
        FirstSlotAligned(c, b);
        FirstSlotFits(c, b);
        NewBlockKeepsInv(c, words, p, b, FirstSlot(c, b));
        CarveFilled(c, words[b := p.currentBlock], WithBlock(c, p, b, FirstSlot(c, b)));
      }
    }
  }

  /** So the largest number of slots ever held at once is the capacity of all blocks but the newest, plus what has
      been carved from that. */
  lemma BlocksAreFilled(c: Config, words: Words, p: Pool) returns (k: nat)
    requires PoolInv(c, words, p) && Filled(c, p) && p.blocks != []
    ensures forall b <- p.blocks :: BlockOk(c, b)
    ensures p.currentSlot == SlotAt(c, p.blocks[0], k) && k <= Capacity(c, p.blocks[0])
    ensures p.peak == CapacitySum(c, p.blocks[1..]) + k
  {
    FrontierFacts(c, words, p);
    hide PoolInv, SlotAt, Capacity, CapacitySum, Carved, BlockOk;
    k :| CarvedUpTo(c, p, k);
    WithinCapacity(c, p.blocks[0], k);
  }

  // ---------------------------------------------------------------- the class

  class Memory {
    var words: Words

    constructor ()
    {
      words := map[];
    }
  }

  /** `MemoryPool<T, BlockSize>`. A new block's address is what `operator new` returned. */
  class MemoryPool {
    const cfg: Config
    const memory: Memory
    var currentBlock: Addr
    var currentSlot: Addr
    var lastSlot: Addr
    var freeSlots: Addr
    ghost var blocks: seq<Addr>
    ghost var free: seq<Addr>
    ghost var live: set<Addr>
    ghost var peak: nat

    ghost function View(): Pool
      reads this
    {
      Pool(currentBlock, currentSlot, lastSlot, freeSlots, blocks, free, live, peak)
    }

    ghost predicate Valid()
      reads this, memory
    {
      GoodConfig(cfg) && PoolInv(cfg, memory.words, View())
    }

    constructor (cfg: Config, memory: Memory)
      requires GoodConfig(cfg)
      ensures this.cfg == cfg && this.memory == memory
      ensures Valid() && live == {} && free == [] && blocks == [] && Filled(cfg, View())
    {
      this.cfg := cfg;
      this.memory := memory;
      currentBlock, currentSlot, lastSlot, freeSlots := 0, 0, 0, 0;
      blocks, free, live, peak := [], [], {}, 0;
    }

    method AllocateBlock(newBlock: Addr)
      requires Valid() && FreshBlock(cfg, blocks, newBlock)
      modifies this, memory
      ensures Valid()
      ensures currentSlot == FirstSlot(cfg, newBlock) && View() == WithBlock(cfg, old(View()), newBlock, currentSlot)
      ensures InBlock(cfg, currentSlot, newBlock) && Aligned(cfg, currentSlot)
      ensures memory.words == old(memory.words)[newBlock := old(currentBlock)]
    {
      hide PoolInv;
      ghost var before, was := View(), memory.words;
      memory.words := memory.words[newBlock := currentBlock];
      currentBlock := newBlock;
      var body := newBlock + PTR;
      var bodyPadding := PadPointer(body, cfg.slot);
      currentSlot := body + bodyPadding;
      lastSlot := newBlock + cfg.block - cfg.slot + 1;
      blocks := [newBlock] + blocks;
      FirstSlotAligned(cfg, newBlock);
      FirstSlotFits(cfg, newBlock);
      NewBlockKeepsInv(cfg, was, before, newBlock, currentSlot);
      assert View() == WithBlock(cfg, before, newBlock, currentSlot);
    }

    method TakeFree() returns (result: Addr)
      requires Valid() && free != []
      modifies this
      ensures Valid()
      ensures View() == Reuse(memory.words, old(View())) && result == old(freeSlots)
    {
      hide PoolInv;
      ReuseKeepsInv(cfg, memory.words, View());
      ghost var after := Reuse(memory.words, View());
      result := freeSlots;
      freeSlots := Word(memory.words, freeSlots);
      free, live, peak := after.free, after.live, after.peak;
      assert View() == after;
    }

    method CarveNext() returns (result: Addr)
      requires Valid() && free == [] && blocks != [] && InBlock(cfg, currentSlot, blocks[0])
      modifies this
      ensures Valid()
      ensures View() == Carve(cfg, old(View())) && result == old(currentSlot)
    {
      hide PoolInv;
      ghost var before := View();
      CarveKeepsInv(cfg, memory.words, before);
      result := currentSlot;
      currentSlot := currentSlot + cfg.slot;
      peak := Max(peak, |live + {result}|);
      live := live + {result};
      assert View() == Carve(cfg, before);
    }

    /** `newBlock` is used only if every slot carved so far is in use and the newest block is exhausted. */
    method Allocate(newBlock: Addr) returns (result: Addr)
      requires Valid() && (freeSlots == 0 && currentSlot >= lastSlot ==> FreshBlock(cfg, blocks, newBlock))
      modifies this, memory
      ensures Valid()
      ensures HandsOut(old(View()), View(), result)
      ensures Filled(cfg, old(View())) ==> Filled(cfg, View())
      ensures old(freeSlots) != 0 ==> View() == Reuse(old(memory.words), old(View()))
      ensures old(freeSlots) == 0 && old(currentSlot < lastSlot) ==>
                View() == Carve(cfg, old(View())) && result == old(currentSlot)
      ensures old(freeSlots) == 0 && old(currentSlot >= lastSlot) ==>
                && View() == Carve(cfg, WithBlock(cfg, old(View()), newBlock, result))
                && result == FirstSlot(cfg, newBlock)
                && (old(blocks) != [] ==> !InBlock(cfg, old(currentSlot), old(blocks)[0]))
      ensures memory.words == old(memory.words) || memory.words == old(memory.words)[newBlock := old(currentBlock)]
      ensures blocks == old(blocks) ==> memory.words == old(memory.words)
      ensures blocks != old(blocks) ==> blocks == [newBlock] + old(blocks) && FreshBlock(cfg, old(blocks), newBlock)
    {
      ghost var p := View();
      NullMeansEmpty(memory.words, p);
      if freeSlots != 0 {
        ReuseHandsOut(cfg, memory.words, p);
        AllocateFilled(cfg, memory.words, p, newBlock);
        result := TakeFree();
      } else {
        AllocateFilled(cfg, memory.words, p, newBlock);
        if currentSlot >= lastSlot {
          AllocateBlock(newBlock);
        }
        CarveHandsOut(cfg, memory.words, View());
        result := CarveNext();
      }
    }

    method Deallocate(p: Addr)
      requires Valid() && (p == 0 || p in live)
      modifies this, memory
      ensures Valid()
      ensures View() == if p == 0 then old(View()) else GiveBack(old(View()), p)
      ensures Filled(cfg, old(View())) ==> Filled(cfg, View())
      ensures memory.words == if p == 0 then old(memory.words) else old(memory.words)[p := old(freeSlots)]
    {
      hide PoolInv, GoodConfig, Filled;
      if p != 0 {
        ghost var after := GiveBack(View(), p);
        GiveBackKeepsInv(cfg, memory.words, View(), p);
        GiveBackFilled(cfg, View(), p);
        memory.words := memory.words[p := freeSlots];
        freeSlots := p;
        free, live := after.free, after.live;
        assert View() == after;
      }
    }

    /** A client storing through a pointer it got from `allocate`. */
    method Store(s: Addr, w: Addr, v: nat)
      requires Valid() && s in live && WithinSlot(cfg, s, w)
      modifies memory
      ensures Valid() && memory.words == old(memory.words)[w := v]
    {
      ClientWriteKeepsInv(cfg, memory.words, View(), s, w, v);
      memory.words := memory.words[w := v];
    }

    /** The destructor releases every block exactly once, newest first. */
    method Destroy() returns (released: seq<Addr>)
      requires Valid()
      ensures released == blocks && forall i, j :: 0 <= i < j < |released| ==> released[i] != released[j]
    {
      BlocksDistinct(cfg, blocks);
      released := ReleaseChain(currentBlock, blocks);
    }

    method ReleaseChain(first: Addr, ghost chain: seq<Addr>) returns (released: seq<Addr>)
      requires IsList(memory.words, first, chain)
      ensures released == chain
    {
      released := [];
      var curr: Addr := first;
      ghost var rest: seq<Addr> := chain;
      while curr != 0
        invariant IsList(memory.words, curr, rest) && released + rest == chain
        decreases |rest|
      {
        var prev := Word(memory.words, curr);
        released := released + [curr];
        rest := rest[1..];
        curr := prev;
      }
    }
  }
}
