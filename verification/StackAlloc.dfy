/**
 * `StackAlloc` of MemoryPool/C++98/StackAlloc.h on top of the pool: a linked stack whose nodes are
 * pool slots. A node holds one word of data at offset 0, which is where a free slot keeps its `next`,
 * and the link `prev` in the following word.
 */
module StackAlloc {
  import opened MemoryPool

  const PREV := 8

  function Reversed(xs: seq<Addr>): (r: seq<Addr>)
    ensures |r| == |xs|
  {
    if xs == [] then [] else Reversed(xs[1..]) + [xs[0]]
  }

  /** Following `prev` from `head` visits exactly `nodes` and ends at null. */
  ghost predicate IsStack(words: Words, head: Addr, nodes: seq<Addr>)
    decreases nodes
  {
    if nodes == [] then head == 0
    else
      head == nodes[0] && head != 0 && head !in nodes[1..] && IsStack(words, Word(words, head + PREV), nodes[1..])
  }

  ghost function Data(words: Words, nodes: seq<Addr>): seq<nat> {
    if nodes == [] then [] else [Word(words, nodes[0])] + Data(words, nodes[1..])
  }

  /** The word at `w` is neither the data nor the link of any of these nodes. */
  ghost predicate Misses(nodes: seq<Addr>, w: Addr) {
    forall n <- nodes :: w != n && w != n + PREV
  }

  lemma {:induction false} StackFrame(words: Words, head: Addr, nodes: seq<Addr>, w: Addr, v: nat)
    requires IsStack(words, head, nodes) && Misses(nodes, w)
    ensures IsStack(words[w := v], head, nodes) && Data(words[w := v], nodes) == Data(words, nodes)
    decreases nodes
  {
    if nodes != [] {
      assert nodes[0] in nodes && forall n <- nodes[1..] :: n in nodes;
      StackFrame(words, Word(words, head + PREV), nodes[1..], w, v);
    }
  }

  /** The words of one held slot are not those of another. */
  lemma HeldSlotMisses(c: Config, words: Words, p: Pool, s: Addr, nodes: seq<Addr>)
    requires PoolInv(c, words, p) && c.slot >= 16 && s in p.live && s !in nodes && forall n <- nodes :: n in p.live
    ensures Misses(nodes, s) && Misses(nodes, s + PREV)
  {
    HeldSlotIsSound(c, words, p, s);
    hide PoolInv;
    forall n <- nodes
      ensures s != n && s != n + PREV && s + PREV != n && s + PREV != n + PREV
    {
      assert Apart(s, n, c.slot);
    }
  }

  /** The header of a fresh block is not a word of any held slot. */
  lemma FreshBlockMisses(c: Config, words: Words, p: Pool, b: Addr, nodes: seq<Addr>)
    requires PoolInv(c, words, p) && c.slot >= 16 && FreshBlock(c, p.blocks, b) && forall n <- nodes :: n in p.live
    ensures Misses(nodes, b)
  {
    forall n <- nodes
      ensures b != n && b != n + PREV
    {
      HeldSlotIsSound(c, words, p, n);
      var x :| x in p.blocks && InBlock(c, n, x);
      assert Apart(b, x, c.block);
    }
  }

  /** Writing the two words of a node that is not on the stack puts it on top. */
  lemma PushNode(words: Words, head: Addr, nodes: seq<Addr>, n: Addr, x: nat)
    requires IsStack(words, head, nodes) && n != 0 && n !in nodes && Misses(nodes, n) && Misses(nodes, n + PREV)
    ensures var w := words[n := x][n + PREV := head];
            IsStack(w, n, [n] + nodes) && Data(w, [n] + nodes) == [x] + Data(words, nodes)
  {
    StackFrame(words, head, nodes, n, x);
    StackFrame(words[n := x], head, nodes, n + PREV, head);
    assert ([n] + nodes)[1..] == nodes;
  }

  /** The pool serves this stack alone: the slots it has handed out are the stack's nodes. */
  ghost predicate StackInv(words: Words, live: set<Addr>, head: Addr, nodes: seq<Addr>) {
    IsStack(words, head, nodes) && live == Elements(nodes)
  }

  /** Allocating, new block or not, leaves the stack alone and yields a node apart from all of it. */
  lemma AfterAllocate(c: Config, was: Words, p: Pool, words: Words, p': Pool, head: Addr, nodes: seq<Addr>,
                      n: Addr, b: Addr)
    requires PoolInv(c, was, p) && PoolInv(c, words, p') && c.slot >= 16 && HandsOut(p, p', n)
    requires StackInv(was, p.live, head, nodes)
    requires words == was || (FreshBlock(c, p.blocks, b) && words == was[b := p.currentBlock])
    ensures IsStack(words, head, nodes) && Data(words, nodes) == Data(was, nodes)
    ensures n != 0 && n % PTR == 0 && n !in nodes && Misses(nodes, n) && Misses(nodes, n + PREV)
    ensures n in p'.live && p'.live == Elements([n] + nodes)
  {
    assert Elements([n] + nodes) == Elements(nodes) + {n};
    if words != was {
      FreshBlockMisses(c, was, p, b, nodes);
      StackFrame(was, head, nodes, b, p.currentBlock);
    }
    HeldSlotMisses(c, words, p', n, nodes);
    HeldSlotIsSound(c, words, p', n);
    LiveIsNonzero(c, p', n);
  }

  /** Giving back the top node overwrites its data with the free list's link, and leaves the rest alone. */
  lemma AfterDeallocate(c: Config, words: Words, p: Pool, head: Addr, nodes: seq<Addr>)
    requires PoolInv(c, words, p) && c.slot >= 16 && StackInv(words, p.live, head, nodes) && nodes != []
    ensures var w, tmp := words[head := p.freeSlots], Word(words, head + PREV);
            && StackInv(w, p.live - {head}, tmp, nodes[1..])
            && [Word(words, head)] + Data(w, nodes[1..]) == Data(words, nodes)
  {
    var tmp := Word(words, head + PREV);
    assert nodes == [head] + nodes[1..];
    HeldSlotMisses(c, words, p, head, nodes[1..]);
    StackFrame(words, tmp, nodes[1..], head, p.freeSlots);
  }

  class StackAlloc {
    const pool: MemoryPool
    var head: Addr
    ghost var nodes: seq<Addr>

    ghost predicate Valid()
      reads this, pool, pool.memory
    {
      pool.Valid() && pool.cfg.slot >= 16 && StackInv(pool.memory.words, pool.live, head, nodes)
    }

    /** The elements, top first. */
    ghost function Contents(): seq<nat>
      reads this, pool, pool.memory
    {
      Data(pool.memory.words, nodes)
    }

    constructor (pool: MemoryPool)
      requires pool.Valid() && pool.cfg.slot >= 16 && pool.live == {}
      ensures this.pool == pool && Valid() && Contents() == []
    {
      this.pool := pool;
      head := 0;
      nodes := [];
    }

    method Push(element: nat, newBlock: Addr)
      requires Valid()
      requires pool.freeSlots == 0 && pool.currentSlot >= pool.lastSlot ==> FreshBlock(pool.cfg, pool.blocks, newBlock)
      modifies this, pool, pool.memory
      ensures Valid() && Contents() == [element] + old(Contents())
    {
      hide PoolInv, HandsOut, IsStack, Data, Misses, FreshBlock, Elements;
      ghost var p, was := pool.View(), pool.memory.words;
      var newNode := pool.Allocate(newBlock);
      AfterAllocate(pool.cfg, was, p, pool.memory.words, pool.View(), head, nodes, newNode, newBlock);
      Link(newNode, element);
    }

    /** Fills in the new node and puts it on top. */
    method Link(newNode: Addr, element: nat)
      requires pool.Valid() && pool.cfg.slot >= 16 && IsStack(pool.memory.words, head, nodes)
      requires newNode != 0 && newNode % PTR == 0 && newNode !in nodes
      requires Misses(nodes, newNode) && Misses(nodes, newNode + PREV)
      requires newNode in pool.live && pool.live == Elements([newNode] + nodes)
      modifies this, pool.memory
      ensures Valid() && Contents() == [element] + old(Contents())
    {
      hide PoolInv, IsStack, Data, Misses;
      PushNode(pool.memory.words, head, nodes, newNode, element);
      pool.Store(newNode, newNode, element);
      pool.Store(newNode, newNode + PREV, head);
      head := newNode;
      nodes := [newNode] + nodes;
    }

    method Pop() returns (result: nat)
      requires Valid() && Contents() != []
      modifies this, pool, pool.memory
      ensures Valid()
      ensures [result] + Contents() == old(Contents())
      ensures pool.free == [old(head)] + old(pool.free)
    {
      hide PoolInv;
      result := Word(pool.memory.words, head);
      var tmp := Word(pool.memory.words, head + PREV);
      AfterDeallocate(pool.cfg, pool.memory.words, pool.View(), head, nodes);
      pool.Deallocate(head);
      head := tmp;
      nodes := nodes[1..];
    }

    method Top() returns (result: nat)
      requires Valid() && Contents() != []
      ensures result == Contents()[0]
    {
      result := Word(pool.memory.words, head);
    }

    /** `clear` gives every node back: the free list grows by all of them. */
    method Clear()
      requires Valid()
      modifies this, pool, pool.memory
      ensures Valid() && Contents() == [] && pool.live == {}
      ensures pool.free == Reversed(old(nodes)) + old(pool.free)
    {
      hide PoolInv;
      var curr: Addr := head;
      ghost var rest: seq<Addr> := nodes;
      while curr != 0
        invariant pool.Valid() && pool.cfg.slot >= 16 && StackInv(pool.memory.words, pool.live, curr, rest)
        invariant Reversed(rest) + pool.free == Reversed(old(nodes)) + old(pool.free)
        decreases |rest|
      {
        var tmp := Word(pool.memory.words, curr + PREV);
        AfterDeallocate(pool.cfg, pool.memory.words, pool.View(), curr, rest);
        pool.Deallocate(curr);
        assert Reversed(rest[1..]) + pool.free == Reversed(rest) + pool.free[1..];
        rest := rest[1..];
        curr := tmp;
      }
      head := 0;
      nodes := [];
    }
  }
}
