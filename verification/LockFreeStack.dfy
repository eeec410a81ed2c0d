/**
 * The CAS-retry stack of 第五章/atomic_no_lock_demo09.cpp, as a step machine over any number of
 * threads under sequential consistency. Every shared access (load of `head`, read of `next`,
 * compare-exchange, `delete`) is one step.
 *
 * Reading a node that another thread has deleted yields an arbitrary node (`junk`), so nothing
 * below relies on the contents of freed memory. An address may be handed out again by `new`,
 * but not while some `pop` still holds it in `old_head`; `ReuseBreaksTheStack` shows that
 * without this condition the stack is lost.
 */
module LockFreeStack {
  type Value(==, !new)
  type Tid = nat
  type Addr = nat

  const NULL: Addr := 0

  datatype Node = Node(value: Value, next: Addr)

  datatype Op = Push(v: Value) | Pop
  datatype Result = Done | Got(value: Value) | Empty

  /** `Call` and `Return` are what a client sees; `Lin` marks the atomic access that takes effect. */
  datatype Event =
    | Call(tid: Tid, op: Op)
    | Lin(tid: Tid, op: Op, res: Result)
    | Return(tid: Tid, op: Op, res: Result)

  /** Program counter of one thread, with its locals. */
  datatype Pc =
    | Idle
    | PushLoad(node: Addr)
    | PushCas(node: Addr)
    | PushReturn(v: Value)
    | PopLoad
    | PopTest(seen: Addr)
    | PopCas(seen: Addr, next: Addr)
    | PopRead(seen: Addr)
    | PopDelete(seen: Addr, value: Value)

  datatype State = State(head: Addr, heap: map<Addr, Node>, pcs: map<Tid, Pc>, hist: seq<Event>)

  /** One atomic step. `CallPush` covers the allocation of the node at address `a`. */
  datatype Action =
    | CallPush(v: Value, a: Addr)
    | LoadForPush
    | TryPush
    | ReturnPush
    | CallPop
    | LoadForPop
    | TestOldHead
    | TryPop
    | ReadValue
    | DeleteNode

  ghost predicate Init(s: State) {
    s.head == NULL && s.heap == map[] && s.hist == [] && forall t <- s.pcs :: s.pcs[t] == Idle
  }

  /** The address a `pop` keeps in its `old_head` before its CAS has succeeded, or null. */
  ghost function Held(pc: Pc): Addr {
    if pc.PopTest? || pc.PopCas? then pc.seen else NULL
  }

  /** What any allocator guarantees: a non-null address that is not in use. */
  ghost predicate CanRun(s: State, t: Tid, a: Action) {
    && t in s.pcs
    && match a
       case CallPush(_, n) => s.pcs[t] == Idle && n != NULL && n !in s.heap
       case LoadForPush => s.pcs[t].PushLoad? && s.pcs[t].node in s.heap
       case TryPush => s.pcs[t].PushCas? && s.pcs[t].node in s.heap
       case ReturnPush => s.pcs[t].PushReturn?
       case CallPop => s.pcs[t] == Idle
       case LoadForPop => s.pcs[t] == PopLoad
       case TestOldHead => s.pcs[t].PopTest?
       case TryPop => s.pcs[t].PopCas?
       case ReadValue => s.pcs[t].PopRead?
       case DeleteNode => s.pcs[t].PopDelete?
  }

  ghost predicate Enabled(s: State, t: Tid, a: Action) {
    CanRun(s, t, a) && (a.CallPush? ==> forall u <- s.pcs :: Held(s.pcs[u]) != a.a)
  }

  ghost function Load(heap: map<Addr, Node>, a: Addr, junk: Node): Node {
    if a in heap then heap[a] else junk
  }

  /** The event left by a read of `head` in `pop`: a null head settles the operation. */
  ghost function EmptyLin(t: Tid, head: Addr): seq<Event> {
    if head == NULL then [Lin(t, Pop, Empty)] else []
  }

  ghost function Next(s: State, t: Tid, a: Action, junk: Node): State
    requires CanRun(s, t, a)
  {
    match a
    case CallPush(v, n) =>
      s.(heap := s.heap[n := Node(v, junk.next)], pcs := s.pcs[t := PushLoad(n)],
         hist := s.hist + [Call(t, Push(v))])
    case LoadForPush =>
      var n := s.pcs[t].node;
      s.(heap := s.heap[n := s.heap[n].(next := s.head)], pcs := s.pcs[t := PushCas(n)])
    case TryPush =>
      var n := s.pcs[t].node;
      if s.head == s.heap[n].next then
        s.(head := n, pcs := s.pcs[t := PushReturn(s.heap[n].value)],
           hist := s.hist + [Lin(t, Push(s.heap[n].value), Done)])
      else
        s.(heap := s.heap[n := s.heap[n].(next := s.head)])
    case ReturnPush =>
      s.(pcs := s.pcs[t := Idle], hist := s.hist + [Return(t, Push(s.pcs[t].v), Done)])
    case CallPop =>
      s.(pcs := s.pcs[t := PopLoad], hist := s.hist + [Call(t, Pop)])
    case LoadForPop =>
      s.(pcs := s.pcs[t := PopTest(s.head)], hist := s.hist + EmptyLin(t, s.head))
    case TestOldHead =>
      var seen := s.pcs[t].seen;
      if seen == NULL then
        s.(pcs := s.pcs[t := Idle], hist := s.hist + [Return(t, Pop, Empty)])
      else
        s.(pcs := s.pcs[t := PopCas(seen, Load(s.heap, seen, junk).next)])
    case TryPop =>
      var seen := s.pcs[t].seen;
      if s.head == seen then
        s.(head := s.pcs[t].next, pcs := s.pcs[t := PopRead(seen)],
           hist := s.hist + [Lin(t, Pop, Got(Load(s.heap, seen, junk).value))])
      else
        s.(pcs := s.pcs[t := PopTest(s.head)], hist := s.hist + EmptyLin(t, s.head))
    case ReadValue =>
      s.(pcs := s.pcs[t := PopDelete(s.pcs[t].seen, Load(s.heap, s.pcs[t].seen, junk).value)])
    case DeleteNode =>
      s.(heap := s.heap - {s.pcs[t].seen}, pcs := s.pcs[t := Idle],
         hist := s.hist + [Return(t, Pop, Got(s.pcs[t].value))])
  }

  ghost predicate Step(s: State, s': State) {
    exists t, a, junk :: Enabled(s, t, a) && s' == Next(s, t, a, junk)
  }

  ghost predicate Run(r: seq<State>) {
    && r != [] && Init(r[0])
    && forall i :: 0 <= i < |r| - 1 ==> Step(r[i], r[i + 1])
  }

  // ---------------------------------------------------------------- the sequential stack

  datatype Option<T> = None | Some(value: T)

  /** The sequential stack (top first): the state after `op` answers `res`, if that is allowed. */
  ghost function Apply(stack: seq<Value>, op: Op, res: Result): Option<seq<Value>> {
    match op
    case Push(v) => if res == Done then Some([v] + stack) else None
    case Pop =>
      if stack == [] then (if res == Empty then Some([]) else None)
      else if res == Got(stack[0]) then Some(stack[1..]) else None
  }

  /** Runs the `Lin` events of a history on the sequential stack; `None` once one is not allowed. */
  ghost function Replay(h: seq<Event>): Option<seq<Value>> {
    if h == [] then Some([])
    else
      var e, before := h[|h| - 1], Replay(h[..|h| - 1]);
      if before.None? || !e.Lin? then before else Apply(before.value, e.op, e.res)
  }

  /** The latest event of thread `t`, as a sequence of at most one event. */
  ghost function Latest(h: seq<Event>, t: Tid): seq<Event> {
    if h == [] then []
    else if h[|h| - 1].tid == t then [h[|h| - 1]]
    else Latest(h[..|h| - 1], t)
  }

  /** Event `e` may follow `last`, the previous event of the same thread. */
  ghost predicate Follows(last: seq<Event>, e: Event) {
    match e
    case Call(_, _) => last == [] || last[0].Return?
    case Lin(t, op, _) => last == [Call(t, op)]
    case Return(t, op, res) => last == [Lin(t, op, res)]
  }

  /** Each thread calls, takes effect once, and returns exactly the result it took effect with. */
  ghost predicate WellFormed(h: seq<Event>) {
    forall i :: 0 <= i < |h| ==> Follows(Latest(h[..i], h[i].tid), h[i])
  }

  // ---------------------------------------------------------------- the invariant

  /** `chain` lists the nodes reached from `head`: allocated, distinct, ending at null. */
  ghost predicate IsChain(heap: map<Addr, Node>, head: Addr, chain: seq<Addr>)
    ensures IsChain(heap, head, chain) ==> forall n <- chain :: n != NULL && n in heap
    decreases chain
  {
    if chain == [] then head == NULL
    else
      assert forall n <- chain :: n == chain[0] || n in chain[1..];
      && head == chain[0] && head != NULL && head in heap && head !in chain[1..]
      && IsChain(heap, heap[head].next, chain[1..])
  }

  ghost function Contents(heap: map<Addr, Node>, chain: seq<Addr>): seq<Value>
    requires forall n <- chain :: n in heap
  {
    if chain == [] then [] else [heap[chain[0]].value] + Contents(heap, chain[1..])
  }

  /** The node a `push` has allocated and not yet published, or null. */
  ghost function Unpushed(pc: Pc): Addr {
    if pc.PushLoad? || pc.PushCas? then pc.node else NULL
  }

  /** The node this thread alone may touch: not yet pushed, or popped and not yet deleted. */
  ghost function Owned(pc: Pc): Addr {
    if pc.PopRead? || pc.PopDelete? then pc.seen else Unpushed(pc)
  }

  /** What the history must have recorded for a thread at this program counter. */
  ghost predicate PcMatches(t: Tid, pc: Pc, heap: map<Addr, Node>, last: seq<Event>) {
    match pc
    case Idle => last == [] || last[0].Return?
    case PushLoad(n) => n in heap && last == [Call(t, Push(heap[n].value))]
    case PushCas(n) => n in heap && last == [Call(t, Push(heap[n].value))]
    case PushReturn(v) => last == [Lin(t, Push(v), Done)]
    case PopLoad => last == [Call(t, Pop)]
    case PopTest(seen) => last == [if seen == NULL then Lin(t, Pop, Empty) else Call(t, Pop)]
    case PopCas(seen, _) => seen != NULL && last == [Call(t, Pop)]
    case PopRead(seen) => seen in heap && last == [Lin(t, Pop, Got(heap[seen].value))]
    case PopDelete(seen, v) => last == [Lin(t, Pop, Got(v))]
  }

  /** Every allocated node is on the stack or owned by a thread. */
  ghost predicate NoLeak(s: State, chain: seq<Addr>) {
    forall a <- s.heap :: a in chain || exists t <- s.pcs :: Owned(s.pcs[t]) == a
  }

  /** An owned node is allocated and off the stack. */
  ghost predicate OwnedOffStack(s: State, chain: seq<Addr>) {
    && NULL !in s.heap
    && (forall t <- s.pcs :: s.pcs[t].PushLoad? || s.pcs[t].PushCas? || s.pcs[t].PopRead? || s.pcs[t].PopDelete? ==>
          Owned(s.pcs[t]) in s.heap && Owned(s.pcs[t]) !in chain)
  }

  ghost predicate OneOwner(s: State) {
    forall t, u | t in s.pcs && u in s.pcs && t != u ::
      Owned(s.pcs[t]) != NULL ==> Owned(s.pcs[t]) != Owned(s.pcs[u])
  }

  ghost predicate Exclusive(s: State, chain: seq<Addr>) {
    OwnedOffStack(s, chain) && OneOwner(s)
  }

  /** A popper's stale pointer is never a node still waiting to be pushed, and the successor it
      read is right as long as the node is on the stack: this is what rules out ABA. */
  ghost predicate NoABA(s: State, chain: seq<Addr>) {
    HeldApart(s) && RightSuccessor(s, chain)
  }

  ghost predicate HeldApart(s: State) {
    forall t, u | t in s.pcs && u in s.pcs && Held(s.pcs[t]) != NULL :: Held(s.pcs[t]) != Unpushed(s.pcs[u])
  }

  ghost predicate RightSuccessor(s: State, chain: seq<Addr>) {
    forall t | t in s.pcs && s.pcs[t].PopCas? && s.pcs[t].seen in chain && s.pcs[t].seen in s.heap ::
      s.pcs[t].next == s.heap[s.pcs[t].seen].next
  }

  ghost predicate Recorded(s: State) {
    && WellFormed(s.hist)
    && (forall t <- s.pcs :: PcMatches(t, s.pcs[t], s.heap, Latest(s.hist, t)))
  }

  ghost predicate Inv(s: State, chain: seq<Addr>) {
    && IsChain(s.heap, s.head, chain)
    && NoLeak(s, chain)
    && Exclusive(s, chain)
    && NoABA(s, chain)
    && Recorded(s)
    && Replay(s.hist) == Some(Contents(s.heap, chain))
  }

  lemma Append(h: seq<Event>, e: Event)
    ensures Replay(h + [e]) ==
            if Replay(h).None? || !e.Lin? then Replay(h) else Apply(Replay(h).value, e.op, e.res)
    ensures forall t :: Latest(h + [e], t) == if e.tid == t then [e] else Latest(h, t)
    ensures WellFormed(h) && Follows(Latest(h, e.tid), e) ==> WellFormed(h + [e])
  {
    assert (h + [e])[..|h|] == h;
    forall i | 0 <= i < |h|
      ensures (h + [e])[..i] == h[..i]
    {
    }
  }

  /** The nodes on the stack after a step. */
  ghost function NextChain(s: State, chain: seq<Addr>, t: Tid, a: Action): seq<Addr>
    requires CanRun(s, t, a)
  {
    if a.TryPush? && s.head == s.heap[s.pcs[t].node].next then [s.pcs[t].node] + chain
    else if a.TryPop? && s.head == s.pcs[t].seen && chain != [] then chain[1..]
    else chain
  }

  ghost predicate Shape(s: State, chain: seq<Addr>) {
    IsChain(s.heap, s.head, chain) && Exclusive(s, chain) && NoABA(s, chain)
  }

  /** No step touches a node that is on the stack. */
  lemma NodesKept(s: State, chain: seq<Addr>, t: Tid, a: Action, junk: Node)
    requires Exclusive(s, chain) && Enabled(s, t, a) && forall n <- chain :: n in s.heap
    ensures forall n <- chain :: n in Next(s, t, a, junk).heap && Next(s, t, a, junk).heap[n] == s.heap[n]
  {
  }

  lemma {:induction false} SameChain(heap: map<Addr, Node>, heap': map<Addr, Node>, head: Addr, chain: seq<Addr>)
    requires IsChain(heap, head, chain) && forall n <- chain :: n in heap' && heap'[n] == heap[n]
    ensures IsChain(heap', head, chain) && Contents(heap', chain) == Contents(heap, chain)
    decreases chain
  {
    if chain != [] {
      SameChain(heap, heap', heap[head].next, chain[1..]);
    }
  }

  lemma StepKeepsIsChain(s: State, chain: seq<Addr>, t: Tid, a: Action, junk: Node)
    requires Shape(s, chain) && Enabled(s, t, a) && (a.TryPop? ==> s.pcs[t].seen != NULL)
    ensures IsChain(Next(s, t, a, junk).heap, Next(s, t, a, junk).head, NextChain(s, chain, t, a))
  {
    var s', chain' := Next(s, t, a, junk), NextChain(s, chain, t, a);
    NodesKept(s, chain, t, a, junk);
    SameChain(s.heap, s'.heap, s.head, chain);
    if |chain'| > |chain| {
      assert chain'[1..] == chain;
      assert Owned(s.pcs[t]) == s.pcs[t].node;
    }
  }

  lemma PoppedIsTop(s: State, chain: seq<Addr>, t: Tid)
    requires IsChain(s.heap, s.head, chain) && t in s.pcs && s.pcs[t].PopCas? && s.head == s.pcs[t].seen != NULL
    ensures chain != [] && s.pcs[t].seen == chain[0] && chain[0] in s.heap && chain[0] !in chain[1..]
  {
  }

  lemma StepKeepsOffStack(s: State, chain: seq<Addr>, t: Tid, a: Action, junk: Node)
    requires Exclusive(s, chain) && Enabled(s, t, a) && forall n <- chain :: n in s.heap
    requires a.TryPop? && s.head == s.pcs[t].seen ==>
               chain != [] && s.pcs[t].seen == chain[0] && chain[0] !in chain[1..]
    ensures OwnedOffStack(Next(s, t, a, junk), NextChain(s, chain, t, a))
  {
    if a.DeleteNode? {
      assert Owned(s.pcs[t]) == s.pcs[t].seen;
    } else if a.TryPush? {
      assert Owned(s.pcs[t]) == s.pcs[t].node;
    }
  }

  /** A step leaves its thread with the node it had, a fresh one, the one just popped, or none. */
  lemma OwnedAfter(s: State, chain: seq<Addr>, t: Tid, a: Action, junk: Node)
    requires OwnedOffStack(s, chain) && Enabled(s, t, a) && forall n <- chain :: n in s.heap
    requires a.TryPop? && s.head == s.pcs[t].seen ==> s.pcs[t].seen in chain
    ensures var s' := Next(s, t, a, junk);
            && s'.pcs.Keys == s.pcs.Keys && (forall u <- s.pcs :: u != t ==> s'.pcs[u] == s.pcs[u])
            && var n := Owned(s'.pcs[t]);
               n == NULL || n == Owned(s.pcs[t]) || n !in s.heap || n in chain
  {
  }

  lemma StepKeepsOneOwner(s: State, s': State, chain: seq<Addr>, t: Tid)
    requires Exclusive(s, chain) && t in s.pcs
    requires s'.pcs.Keys == s.pcs.Keys && (forall u <- s.pcs :: u != t ==> s'.pcs[u] == s.pcs[u])
    requires var n := Owned(s'.pcs[t]); n == NULL || n == Owned(s.pcs[t]) || n !in s.heap || n in chain
    ensures OneOwner(s')
  {
  }

  lemma StepKeepsNoABA(s: State, chain: seq<Addr>, t: Tid, a: Action, junk: Node)
    requires Shape(s, chain) && Enabled(s, t, a) && (a.TryPop? ==> s.pcs[t].seen != NULL)
    ensures NoABA(Next(s, t, a, junk), NextChain(s, chain, t, a))
  {
    StepKeepsHeldApart(s, chain, t, a, junk);
    StepKeepsSuccessor(s, chain, t, a, junk);
  }

  lemma StepKeepsHeldApart(s: State, chain: seq<Addr>, t: Tid, a: Action, junk: Node)
    requires HeldApart(s) && OwnedOffStack(s, chain) && Enabled(s, t, a)
    requires s.head == NULL || s.head in chain
    ensures HeldApart(Next(s, t, a, junk))
  {
  }

  lemma StepKeepsSuccessor(s: State, chain: seq<Addr>, t: Tid, a: Action, junk: Node)
    requires HeldApart(s) && RightSuccessor(s, chain) && Exclusive(s, chain) && Enabled(s, t, a)
    requires forall n <- chain :: n in s.heap && n != NULL
    ensures RightSuccessor(Next(s, t, a, junk), NextChain(s, chain, t, a))
  {
  }

  lemma StepLeaksNothing(s: State, chain: seq<Addr>, t: Tid, a: Action, junk: Node)
    requires NULL !in s.heap && NoLeak(s, chain) && Enabled(s, t, a)
    requires a.TryPop? && s.head == s.pcs[t].seen ==> chain != [] && s.pcs[t].seen == chain[0]
    ensures NoLeak(Next(s, t, a, junk), NextChain(s, chain, t, a))
  {
    var s', chain' := Next(s, t, a, junk), NextChain(s, chain, t, a);
    forall n | n in s'.heap && n !in chain'
      ensures exists u <- s'.pcs :: Owned(s'.pcs[u]) == n
    {
      if n in s.heap && n !in chain {
        var u :| u in s.pcs && Owned(s.pcs[u]) == n;
        assert Owned(s'.pcs[u]) == n;
      } else {
        assert n in chain ==> n == chain[0] || n in chain[1..];
        assert Owned(s'.pcs[t]) == n;
      }
    }
  }

  /** On the sequential stack, the recorded events take `stack` to `stack'`. */
  ghost predicate TakesTo(stack: seq<Value>, es: seq<Event>, stack': seq<Value>) {
    if es == [] || !es[0].Lin? then stack' == stack else Apply(stack, es[0].op, es[0].res) == Some(stack')
  }

  lemma ReplayMore(h: seq<Event>, es: seq<Event>, stack: seq<Value>, stack': seq<Value>)
    requires |es| <= 1 && Replay(h) == Some(stack) && TakesTo(stack, es, stack')
    ensures Replay(h + es) == Some(stack')
  {
    if es == [] {
      assert h + es == h;
    } else {
      assert es == [es[0]];
      Append(h, es[0]);
    }
  }

  lemma EndsOfContents(heap: map<Addr, Node>, head: Addr, chain: seq<Addr>)
    requires IsChain(heap, head, chain)
    ensures head == NULL <==> chain == []
    ensures if chain == [] then Contents(heap, chain) == []
            else Contents(heap, chain) != [] && head == chain[0] && Contents(heap, chain)[0] == heap[chain[0]].value
  {
  }

  /** What is recorded, if anything: nothing that takes effect unless a CAS succeeds or `head` is null. */
  lemma RecordingIs(s: State, t: Tid, a: Action, junk: Node)
    requires CanRun(s, t, a)
    ensures var es := Recording(s, t, a, junk);
            if a.TryPush? && s.head == s.heap[s.pcs[t].node].next then
              es == [Lin(t, Push(s.heap[s.pcs[t].node].value), Done)]
            else if a.TryPop? && s.head == s.pcs[t].seen then
              es == [Lin(t, Pop, Got(Load(s.heap, s.pcs[t].seen, junk).value))]
            else if (a.LoadForPop? || a.TryPop?) && s.head == NULL then es == [Lin(t, Pop, Empty)]
            else es == [] || !es[0].Lin?
  {
  }

  lemma StepKeepsReplay(s: State, chain: seq<Addr>, t: Tid, a: Action, junk: Node)
    requires IsChain(s.heap, s.head, chain) && Exclusive(s, chain) && Enabled(s, t, a)
    requires a.TryPop? && s.head == s.pcs[t].seen ==> chain != []
    requires Replay(s.hist) == Some(Contents(s.heap, chain))
    requires IsChain(Next(s, t, a, junk).heap, Next(s, t, a, junk).head, NextChain(s, chain, t, a))
    ensures Replay(Next(s, t, a, junk).hist) ==
            Some(Contents(Next(s, t, a, junk).heap, NextChain(s, chain, t, a)))
  {
    StepContents(s, chain, t, a, junk);
    RecordingIs(s, t, a, junk);
    EndsOfContents(s.heap, s.head, chain);
    hide IsChain, Contents, Replay, Exclusive, Next, Recording;
    var stack' := Contents(Next(s, t, a, junk).heap, NextChain(s, chain, t, a));
    ReplayMore(s.hist, Recording(s, t, a, junk), Contents(s.heap, chain), stack');
  }

  lemma StepContents(s: State, chain: seq<Addr>, t: Tid, a: Action, junk: Node)
    requires IsChain(s.heap, s.head, chain) && Exclusive(s, chain) && Enabled(s, t, a)
    requires IsChain(Next(s, t, a, junk).heap, Next(s, t, a, junk).head, NextChain(s, chain, t, a))
    ensures var s', chain' := Next(s, t, a, junk), NextChain(s, chain, t, a);
            Contents(s'.heap, chain') ==
              if |chain'| > |chain| then [s.heap[s.pcs[t].node].value] + Contents(s.heap, chain)
              else if |chain'| < |chain| then Contents(s.heap, chain)[1..]
              else Contents(s.heap, chain)
  {
    var s' := Next(s, t, a, junk);
    NodesKept(s, chain, t, a, junk);
    SameChain(s.heap, s'.heap, s.head, chain);
    assert a.TryPush? ==> ([s.pcs[t].node] + chain)[1..] == chain;
  }

  /** The event a step records, if any. */
  ghost function Recording(s: State, t: Tid, a: Action, junk: Node): (es: seq<Event>)
    requires CanRun(s, t, a)
    ensures |es| <= 1 && (es != [] ==> es[0].tid == t)
    ensures Next(s, t, a, junk).hist == s.hist + es
  {
    Next(s, t, a, junk).hist[|s.hist|..]
  }

  lemma StepMatchesPc(s: State, t: Tid, a: Action, junk: Node)
    requires Enabled(s, t, a) && PcMatches(t, s.pcs[t], s.heap, Latest(s.hist, t))
    requires a.TryPop? && s.head == s.pcs[t].seen ==> s.pcs[t].seen in s.heap
    requires a.ReadValue? ==> s.pcs[t].seen in s.heap
    ensures var s', es := Next(s, t, a, junk), Recording(s, t, a, junk);
            && (es != [] ==> Follows(Latest(s.hist, t), es[0]))
            && PcMatches(t, s'.pcs[t], s'.heap, if es == [] then Latest(s.hist, t) else es)
  {
  }

  lemma OthersUntouched(s: State, chain: seq<Addr>, t: Tid, a: Action, junk: Node, u: Tid)
    requires Exclusive(s, chain) && Enabled(s, t, a) && u in s.pcs && u != t
    requires PcMatches(u, s.pcs[u], s.heap, Latest(s.hist, u))
    ensures var s' := Next(s, t, a, junk);
            u in s'.pcs && PcMatches(u, s'.pcs[u], s'.heap, Latest(s.hist, u))
  {
  }

  lemma KeysKept(s: State, t: Tid, a: Action, junk: Node)
    requires Enabled(s, t, a)
    ensures t in s.pcs && Next(s, t, a, junk).pcs.Keys == s.pcs.Keys
  {
  }

  lemma StepKeepsHistory(s: State, chain: seq<Addr>, t: Tid, a: Action, junk: Node)
    requires Exclusive(s, chain) && Enabled(s, t, a) && Recorded(s)
    requires a.TryPop? && s.head == s.pcs[t].seen ==> s.pcs[t].seen in s.heap
    ensures Recorded(Next(s, t, a, junk))
  {
    assert a.ReadValue? ==> s.pcs[t].seen in s.heap by {
      assert PcMatches(t, s.pcs[t], s.heap, Latest(s.hist, t));
    }
    KeysKept(s, t, a, junk);
    hide Next, Recording, Exclusive, WellFormed, PcMatches, Latest;
    var s', es := Next(s, t, a, junk), Recording(s, t, a, junk);
    StepMatchesPc(s, t, a, junk);
    forall u | u in s.pcs && u != t
      ensures u in s'.pcs && PcMatches(u, s'.pcs[u], s'.heap, Latest(s.hist, u))
    {
      OthersUntouched(s, chain, t, a, junk, u);
    }
    StillRecorded(s, s', t, es);
  }

  lemma StillRecorded(s: State, s': State, t: Tid, es: seq<Event>)
    requires WellFormed(s.hist) && |es| <= 1 && s'.hist == s.hist + es && s'.pcs.Keys == s.pcs.Keys && t in s.pcs
    requires es != [] ==> es[0].tid == t && Follows(Latest(s.hist, t), es[0])
    requires PcMatches(t, s'.pcs[t], s'.heap, if es == [] then Latest(s.hist, t) else es)
    requires forall u | u in s'.pcs && u != t :: PcMatches(u, s'.pcs[u], s'.heap, Latest(s.hist, u))
    ensures Recorded(s')
  {
    RecordedAfter(s.hist, es, t);
  }

  lemma RecordedAfter(h: seq<Event>, es: seq<Event>, t: Tid)
    requires WellFormed(h) && |es| <= 1
    requires es != [] ==> es[0].tid == t && Follows(Latest(h, t), es[0])
    ensures WellFormed(h + es)
    ensures forall u :: Latest(h + es, u) == if es != [] && u == t then es else Latest(h, u)
  {
    if es == [] {
      assert h + es == h;
    } else {
      assert es == [es[0]];
      Append(h, es[0]);
    }
  }

  lemma StepKeepsInv(s: State, chain: seq<Addr>, t: Tid, a: Action, junk: Node)
    requires Inv(s, chain) && Enabled(s, t, a)
    ensures Inv(Next(s, t, a, junk), NextChain(s, chain, t, a))
  {
    assert t in s.pcs && PcMatches(t, s.pcs[t], s.heap, Latest(s.hist, t));
    if a.TryPop? && s.head == s.pcs[t].seen {
      PoppedIsTop(s, chain, t);
    }
    StepKeepsIsChain(s, chain, t, a, junk);
    StepKeepsOffStack(s, chain, t, a, junk);
    OwnedAfter(s, chain, t, a, junk);
    StepKeepsOneOwner(s, Next(s, t, a, junk), chain, t);
    StepKeepsNoABA(s, chain, t, a, junk);
    StepLeaksNothing(s, chain, t, a, junk);
    StepKeepsReplay(s, chain, t, a, junk);
    StepKeepsHistory(s, chain, t, a, junk);
  }

  // ---------------------------------------------------------------- whole runs

  /** The invariant in every state of every run. */
  lemma {:induction false} RunInv(r: seq<State>, k: nat)
    requires Run(r) && k < |r|
    ensures exists chain :: Inv(r[k], chain)
  {
    if k == 0 {
      assert Contents(r[0].heap, []) == [];
      assert Inv(r[0], []);
    } else {
      RunInv(r, k - 1);
      var chain :| Inv(r[k - 1], chain);
      assert Step(r[k - 1], r[k - 1 + 1]);
      var t, a, junk :| Enabled(r[k - 1], t, a) && r[k] == Next(r[k - 1], t, a, junk);
      StepKeepsInv(r[k - 1], chain, t, a, junk);
    }
  }

  /** Linearizability with the CAS (or the null read) as the point of effect: replaying the points
      of effect in order on a sequential stack is legal, ends in the contents reachable from
      `head`, and every thread's history is call, one effect, return of that effect's result. */
  lemma Linearizable(r: seq<State>, k: nat)
    requires Run(r) && k < |r|
    ensures exists chain ::
              && IsChain(r[k].heap, r[k].head, chain)
              && Replay(r[k].hist) == Some(Contents(r[k].heap, chain))
    ensures WellFormed(r[k].hist)
  {
    RunInv(r, k);
    var chain :| Inv(r[k], chain);
  }

  /** A returned operation took effect between its call and its return, with the result returned. */
  lemma {:induction false} EffectWithinCall(h: seq<Event>, i: nat) returns (k: nat, j: nat)
    requires WellFormed(h) && i < |h| && h[i].Return?
    ensures k < j < i
    ensures h[k] == Call(h[i].tid, h[i].op) && h[j] == Lin(h[i].tid, h[i].op, h[i].res)
    ensures forall m :: k < m < i && m != j ==> h[m].tid != h[i].tid
  {
    j := LatestAt(h, i, h[i].tid);
    k := LatestAt(h, j, h[i].tid);
  }

  lemma {:induction false} LatestAt(h: seq<Event>, n: nat, t: Tid) returns (j: nat)
    requires n <= |h| && Latest(h[..n], t) != []
    ensures j < n && Latest(h[..n], t) == [h[j]] && h[j].tid == t
    ensures forall m :: j < m < n ==> h[m].tid != t
  {
    if h[n - 1].tid == t {
      j := n - 1;
    } else {
      assert h[..n][..n - 1] == h[..n - 1];
      j := LatestAt(h, n - 1, t);
    }
  }

  /** Real-time order: if one operation returned (at `i`) before another was called (at `c`), its
      effect came first. */
  lemma RealTimeOrder(h: seq<Event>, i: nat, c: nat, i': nat) returns (j: nat, j': nat)
    requires WellFormed(h) && i < c < i' < |h| && h[i].Return? && h[c].Call? && h[i'].Return?
    requires h[c].tid == h[i'].tid
    ensures j < j' < |h|
    ensures h[j] == Lin(h[i].tid, h[i].op, h[i].res) && h[j'] == Lin(h[i'].tid, h[i'].op, h[i'].res)
  {
    var k;
    k, j := EffectWithinCall(h, i);
    var k';
    k', j' := EffectWithinCall(h, i');
  }

  /** Values whose push, respectively whose pop, has taken effect. */
  ghost function Pushed(h: seq<Event>): multiset<Value> {
    if h == [] then multiset{}
    else
      var e := h[|h| - 1];
      Pushed(h[..|h| - 1]) + if e.Lin? && e.op.Push? then multiset{e.op.v} else multiset{}
  }

  ghost function Popped(h: seq<Event>): multiset<Value> {
    if h == [] then multiset{}
    else
      var e := h[|h| - 1];
      Popped(h[..|h| - 1]) + if e.Lin? && e.op.Pop? && e.res.Got? then multiset{e.res.value} else multiset{}
  }

  lemma ApplyConserves(stack: seq<Value>, op: Op, res: Result)
    requires Apply(stack, op, res).Some?
    ensures op.Push? ==> multiset(Apply(stack, op, res).value) == multiset(stack) + multiset{op.v}
    ensures res.Got? ==> multiset(stack) == multiset(Apply(stack, op, res).value) + multiset{res.value}
    ensures op.Pop? && !res.Got? ==> Apply(stack, op, res).value == stack
  {
    if op.Pop? && stack != [] {
      assert stack == [stack[0]] + stack[1..];
    }
  }

  lemma {:induction false} ReplayConserves(h: seq<Event>)
    requires Replay(h).Some?
    ensures Pushed(h) == Popped(h) + multiset(Replay(h).value)
  {
    hide Apply;
    if h != [] {
      var e, before := h[|h| - 1], Replay(h[..|h| - 1]);
      ReplayConserves(h[..|h| - 1]);
      if e.Lin? {
        ApplyConserves(before.value, e.op, e.res);
      }
    }
  }

  /** No value is lost, invented or delivered twice: pushed = popped + still on the stack. */
  lemma Conservation(r: seq<State>, k: nat)
    requires Run(r) && k < |r|
    ensures exists chain ::
              && IsChain(r[k].heap, r[k].head, chain)
              && Pushed(r[k].hist) == Popped(r[k].hist) + multiset(Contents(r[k].heap, chain))
  {
    RunInv(r, k);
    var chain :| Inv(r[k], chain);
    ReplayConserves(r[k].hist);
  }

  /** A node being pushed, read after a won CAS or deleted is allocated, off the stack and owned by this
      thread alone: no use after free by a winner, and no double delete. */
  lemma OwnedNodeIsSafe(r: seq<State>, k: nat, t: Tid)
    requires Run(r) && k < |r| && t in r[k].pcs
    requires var pc := r[k].pcs[t]; pc.PushLoad? || pc.PushCas? || pc.PopRead? || pc.PopDelete?
    ensures Owned(r[k].pcs[t]) in r[k].heap && Owned(r[k].pcs[t]) != r[k].head
    ensures forall u | u in r[k].pcs && u != t :: Owned(r[k].pcs[u]) != Owned(r[k].pcs[t])
  {
    RunInv(r, k);
    var chain :| Inv(r[k], chain);
  }

  /** Event `m` is a push or a pop that changed the stack. */
  ghost predicate Changes(h: seq<Event>, m: nat) {
    m < |h| && h[m].Lin? && h[m].res != Empty
  }

  /** `head` moves only by an operation taking effect, and the history only grows. */
  lemma HeadMovesByEffect(s: State, t: Tid, a: Action, junk: Node)
    requires Enabled(s, t, a)
    ensures var s' := Next(s, t, a, junk);
            s.hist <= s'.hist && (s'.head != s.head ==> Changes(s'.hist, |s.hist|))
  {
  }

  lemma {:induction false} HeadMoved(r: seq<State>, i: nat, j: nat)
    requires Run(r) && i <= j < |r|
    ensures r[i].hist <= r[j].hist
    ensures r[i].head != r[j].head ==> exists m :: |r[i].hist| <= m && Changes(r[j].hist, m)
    decreases j
  {
    if i < j {
      HeadMoved(r, i, j - 1);
      assert Step(r[j - 1], r[j - 1 + 1]);
      var t, a, junk :| Enabled(r[j - 1], t, a) && r[j] == Next(r[j - 1], t, a, junk);
      HeadMovesByEffect(r[j - 1], t, a, junk);
      if r[j - 1].head != r[j].head {
        assert Changes(r[j].hist, |r[j - 1].hist|);
      } else if r[i].head != r[j].head {
        var m :| |r[i].hist| <= m && Changes(r[j - 1].hist, m);
        assert Changes(r[j].hist, m);
      }
    }
  }

  /** The value a thread's next CAS compares `head` with. */
  ghost function Expected(s: State, t: Tid): Option<Addr> {
    if t !in s.pcs then None
    else match s.pcs[t]
      case PushCas(n) => if n in s.heap then Some(s.heap[n].next) else None
      case PopTest(seen) => Some(seen)
      case PopCas(seen, _) => Some(seen)
      case _ => None
  }

  /** Lock-freedom: if what a thread loaded at `i` makes its CAS fail at `j`, some operation took effect in between. */
  lemma FailedCasMeansProgress(r: seq<State>, i: nat, j: nat, t: Tid)
    requires Run(r) && i <= j < |r|
    requires Expected(r[i], t) == Some(r[i].head) == Expected(r[j], t) && r[j].head != r[i].head
    ensures exists m :: |r[i].hist| <= m && Changes(r[j].hist, m)
  {
    HeadMoved(r, i, j);
  }

  /** Every read of `head` leaves the thread expecting the present head. */
  lemma LoadsSeeHead(s: State, t: Tid, a: Action, junk: Node)
    requires Enabled(s, t, a)
    requires a.LoadForPush? || a.LoadForPop? || (a.TryPush? && s.head != s.heap[s.pcs[t].node].next)
             || (a.TryPop? && s.head != s.pcs[t].seen)
    ensures var s' := Next(s, t, a, junk); s'.head == s.head && Expected(s', t) == Some(s'.head)
  {
  }

  // ---------------------------------------------------------------- every call is recorded

  datatype Did = Did(t: Tid, a: Action, junk: Node)

  /** A run with the actions that make it. */
  ghost predicate RunBy(r: seq<State>, acts: seq<Did>) {
    && |r| == |acts| + 1 && Init(r[0])
    && forall i :: 0 <= i < |acts| ==>
         Enabled(r[i], acts[i].t, acts[i].a) && r[i + 1] == Next(r[i], acts[i].t, acts[i].a, acts[i].junk)
  }

  lemma RunByIsRun(r: seq<State>, acts: seq<Did>)
    requires RunBy(r, acts)
    ensures Run(r)
  {
    hide Init, Next, Enabled;
    forall i | 0 <= i < |r| - 1
      ensures Step(r[i], r[i + 1])
    {
      assert Enabled(r[i], acts[i].t, acts[i].a);
    }
  }

  /** The calls thread `t` makes, from the actions. */
  ghost function CallsMade(acts: seq<Did>, t: Tid): seq<Op> {
    if acts == [] then []
    else
      var d := acts[|acts| - 1];
      CallsMade(acts[..|acts| - 1], t)
      + if d.t != t then [] else if d.a.CallPush? then [Push(d.a.v)] else if d.a.CallPop? then [Pop] else []
  }

  ghost function CallsIn(h: seq<Event>, t: Tid): seq<Op> {
    if h == [] then []
    else CallsIn(h[..|h| - 1], t) + if h[|h| - 1].Call? && h[|h| - 1].tid == t then [h[|h| - 1].op] else []
  }

  lemma CallRecorded(s: State, d: Did, t: Tid)
    requires Enabled(s, d.t, d.a)
    ensures CallsIn(Next(s, d.t, d.a, d.junk).hist, t) == CallsIn(s.hist, t) + CallsMade([d], t)
  {
    assert [d][..0] == [];
    var es := Recording(s, d.t, d.a, d.junk);
    assert es == [] || es == [es[0]];
    assert es != [] ==> (s.hist + es)[..|s.hist|] == s.hist;
    assert es == [] ==> s.hist + es == s.hist;
  }

  /** The calls in a thread's history are the calls it made, in order; by `WellFormed`, each has one effect and
      one return, except that the last may still lack its return, or both. */
  lemma {:induction false} EveryCallRecorded(r: seq<State>, acts: seq<Did>, t: Tid)
    requires RunBy(r, acts)
    ensures CallsIn(r[|acts|].hist, t) == CallsMade(acts, t) && WellFormed(r[|acts|].hist)
    decreases |acts|
  {
    hide Init, Next, Enabled, CallsMade, CallsIn;
    RunByIsRun(r, acts);
    Linearizable(r, |acts|);
    if acts == [] {
      NoHistoryYet(r[0], t);
    } else {
      var n := |acts| - 1;
      EveryCallRecorded(r[..n + 1], acts[..n], t);
      assert acts[..n + 1] == acts;
      CallRecordedAt(r, acts, n, t);
    }
  }

  lemma CallRecordedAt(r: seq<State>, acts: seq<Did>, n: nat, t: Tid)
    requires RunBy(r, acts) && n < |acts|
    ensures CallsIn(r[n + 1].hist, t) == CallsIn(r[n].hist, t) + CallsMade([acts[n]], t)
    ensures CallsMade(acts[..n + 1], t) == CallsMade(acts[..n], t) + CallsMade([acts[n]], t)
  {
    CallRecorded(r[n], acts[n], t);
    assert acts[..n + 1][..n] == acts[..n] && [acts[n]][..0] == [];
  }

  lemma NoHistoryYet(s: State, t: Tid)
    requires Init(s)
    ensures CallsIn(s.hist, t) == [] == CallsMade([], t)
  {
  }

  // ---------------------------------------------------------------- running alone

  /** What a thread inside a call does next. */
  ghost function Move(pc: Pc): Action
    requires pc != Idle
  {
    match pc
    case PushLoad(_) => LoadForPush
    case PushCas(_) => TryPush
    case PushReturn(_) => ReturnPush
    case PopLoad => LoadForPop
    case PopTest(_) => TestOldHead
    case PopCas(_, _) => TryPop
    case PopRead(_) => ReadValue
    case PopDelete(_, _) => DeleteNode
  }

  /** Steps of a `pop` that has just read `head`. */
  ghost function AfterRead(head: Addr): nat {
    if head == NULL then 1 else 4
  }

  /** Steps a thread has left if nobody else moves: one that expects an old head loses one CAS first. */
  ghost function StepsLeft(s: State, t: Tid): (n: nat)
    requires t in s.pcs
    ensures n <= 6 && (n == 0 <==> s.pcs[t] == Idle)
  {
    match s.pcs[t]
    case Idle => 0
    case PushLoad(_) => 3
    case PushCas(n) => if n in s.heap && s.heap[n].next == s.head then 2 else 3
    case PushReturn(_) => 1
    case PopLoad => 1 + AfterRead(s.head)
    case PopTest(seen) => if seen == NULL then 1 else if seen == s.head then 4 else 2 + AfterRead(s.head)
    case PopCas(seen, _) => if seen == s.head then 3 else 1 + AfterRead(s.head)
    case PopRead(_) => 2
    case PopDelete(_, _) => 1
  }

  /** Running alone, with one arbitrary `junk` for each step, thread `t` returns in state `end`. */
  ghost predicate Solo(s: State, t: Tid, junks: seq<Node>, end: State)
    decreases |junks|
  {
    t in s.pcs
    && if s.pcs[t] == Idle then end == s
       else junks != [] && Enabled(s, t, Move(s.pcs[t]))
            && Solo(Next(s, t, Move(s.pcs[t]), junks[0]), t, junks[1..], end)
  }

  lemma SoloStep(s: State, t: Tid, junk: Node)
    requires t in s.pcs && s.pcs[t] != Idle && PcMatches(t, s.pcs[t], s.heap, Latest(s.hist, t))
    ensures Enabled(s, t, Move(s.pcs[t]))
    ensures var s' := Next(s, t, Move(s.pcs[t]), junk);
            && t in s'.pcs && StepsLeft(s', t) == StepsLeft(s, t) - 1
            && s'.pcs == s.pcs[t := s'.pcs[t]]
  {
  }

  /** The events of `h'` after those of `h` are all by thread `t`. */
  ghost predicate OnlyBy(h: seq<Event>, h': seq<Event>, t: Tid) {
    h <= h' && forall m :: |h| <= m < |h'| ==> h'[m].tid == t
  }

  lemma SoloRecords(s: State, t: Tid, a: Action, junk: Node, end: State)
    requires CanRun(s, t, a) && OnlyBy(Next(s, t, a, junk).hist, end.hist, t)
    ensures OnlyBy(s.hist, end.hist, t)
  {
    var es := Recording(s, t, a, junk);
    assert Next(s, t, a, junk).hist == s.hist + es;
  }

  lemma {:induction false} AloneFrom(s: State, chain: seq<Addr>, t: Tid, junks: seq<Node>)
    returns (end: State, chain': seq<Addr>)
    requires Inv(s, chain) && t in s.pcs && |junks| >= StepsLeft(s, t)
    ensures Solo(s, t, junks, end) && Inv(end, chain') && OnlyBy(s.hist, end.hist, t)
    ensures t in end.pcs && end.pcs[t] == Idle && end.pcs == s.pcs[t := Idle]
    decreases StepsLeft(s, t)
  {
    hide Next, Inv, CanRun, StepsLeft, PcMatches;
    if s.pcs[t] == Idle {
      end, chain' := s, chain;
      assert s.pcs == s.pcs[t := Idle];
    } else {
      AtItsPlace(s, chain, t);
      var a := Move(s.pcs[t]);
      SoloStep(s, t, junks[0]);
      StepKeepsInv(s, chain, t, a, junks[0]);
      end, chain' := AloneFrom(Next(s, t, a, junks[0]), NextChain(s, chain, t, a), t, junks[1..]);
      SoloRecords(s, t, a, junks[0], end);
    }
  }

  lemma AtItsPlace(s: State, chain: seq<Addr>, t: Tid)
    requires Inv(s, chain) && t in s.pcs
    ensures PcMatches(t, s.pcs[t], s.heap, Latest(s.hist, t))
  {
  }

  /** In every reachable state any thread inside a call, running alone, returns within six enabled steps, whatever
      it reads from freed memory; its return is the last event, and no other thread is touched. */
  lemma ReturnsAlone(r: seq<State>, k: nat, t: Tid, junks: seq<Node>) returns (end: State)
    requires Run(r) && k < |r| && t in r[k].pcs && r[k].pcs[t] != Idle && |junks| >= 6
    ensures Solo(r[k], t, junks, end) && end.pcs == r[k].pcs[t := Idle]
    ensures WellFormed(end.hist) && OnlyBy(r[k].hist, end.hist, t)
    ensures Latest(end.hist, t) != [] && Latest(end.hist, t)[0].Return?
  {
    RunInv(r, k);
    var chain :| Inv(r[k], chain);
    var chain';
    end, chain' := AloneFrom(r[k], chain, t, junks);
    assert PcMatches(t, end.pcs[t], end.heap, Latest(end.hist, t));
    assert PcMatches(t, r[k].pcs[t], r[k].heap, Latest(r[k].hist, t));
    LatestStays(r[k].hist, end.hist, t);
  }

  lemma {:induction false} LatestStays(h: seq<Event>, h': seq<Event>, t: Tid)
    requires OnlyBy(h, h', t) && Latest(h, t) != []
    ensures Latest(h', t) != []
    decreases |h'|
  {
    if |h'| > |h| {
      LatestStays(h, h'[..|h'| - 1], t);
    } else {
      assert h' == h;
    }
  }

  /** A whole `pop` running alone: on an empty stack it returns false and changes nothing; otherwise it returns
      the top value and removes its node. */
  lemma PopAlone(s: State, chain: seq<Addr>, t: Tid, junks: seq<Node>) returns (end: State)
    requires Inv(s, chain) && t in s.pcs && s.pcs[t] == Idle && |junks| >= 6
    ensures Enabled(s, t, CallPop) && Solo(Next(s, t, CallPop, junks[0]), t, junks[1..], end)
    ensures s.head == NULL ==>
              end == s.(hist := s.hist + [Call(t, Pop), Lin(t, Pop, Empty), Return(t, Pop, Empty)])
    ensures s.head != NULL ==>
              && s.head in s.heap
              && var top := s.heap[s.head];
                 end == s.(head := top.next, heap := s.heap - {s.head},
                           hist := s.hist + [Call(t, Pop), Lin(t, Pop, Got(top.value)), Return(t, Pop, Got(top.value))])
  {
    EndsOfContents(s.heap, s.head, chain);
    hide Inv;
    if s.head == NULL {
      end := PopEmptyAlone(s, t, junks);
    } else {
      end := PopTopAlone(s, t, junks);
    }
  }

  lemma PopEmptyAlone(s: State, t: Tid, junks: seq<Node>) returns (end: State)
    requires t in s.pcs && s.pcs[t] == Idle && |junks| >= 3 && s.head == NULL
    ensures Solo(Next(s, t, CallPop, junks[0]), t, junks[1..], end)
    ensures end == s.(hist := s.hist + [Call(t, Pop), Lin(t, Pop, Empty), Return(t, Pop, Empty)])
  {
    var s1 := Next(s, t, CallPop, junks[0]);
    var s2 := Next(s1, t, LoadForPop, junks[1]);
    end := Next(s2, t, TestOldHead, junks[2]);
    assert Solo(end, t, junks[3..], end);
    assert Solo(s2, t, junks[2..], end);
    assert Solo(s1, t, junks[1..], end);
    assert end.pcs == s.pcs;
  }

  lemma PopTopAlone(s: State, t: Tid, junks: seq<Node>) returns (end: State)
    requires t in s.pcs && s.pcs[t] == Idle && |junks| >= 6 && s.head != NULL && s.head in s.heap
    ensures Solo(Next(s, t, CallPop, junks[0]), t, junks[1..], end)
    ensures var top := s.heap[s.head];
            end == s.(head := top.next, heap := s.heap - {s.head},
                      hist := s.hist + [Call(t, Pop), Lin(t, Pop, Got(top.value)), Return(t, Pop, Got(top.value))])
  {
    hide Solo;
    var top := s.heap[s.head];
    var s1 := Next(s, t, CallPop, junks[0]);
    var s2 := Next(s1, t, LoadForPop, junks[1]);
    var s3 := Next(s2, t, TestOldHead, junks[2]);
    assert s3 == s.(pcs := s.pcs[t := PopCas(s.head, top.next)], hist := s.hist + [Call(t, Pop)]);
    end := PopWonAlone(s3, t, junks);
    SoloBack(s2, t, junks, 2, s3, end);
    SoloBack(s1, t, junks, 1, s2, end);
    assert end.pcs == s.pcs;
  }

  lemma PopWonAlone(s: State, t: Tid, junks: seq<Node>) returns (end: State)
    requires t in s.pcs && s.pcs[t].PopCas? && s.pcs[t].seen == s.head && |junks| >= 6 && s.head in s.heap
    ensures Solo(s, t, junks[3..], end)
    ensures var value := s.heap[s.head].value;
            end == s.(head := s.pcs[t].next, heap := s.heap - {s.head}, pcs := s.pcs[t := Idle],
                      hist := s.hist + [Lin(t, Pop, Got(value)), Return(t, Pop, Got(value))])
  {
    hide Solo;
    var s4 := Next(s, t, TryPop, junks[3]);
    var s5 := Next(s4, t, ReadValue, junks[4]);
    end := Next(s5, t, DeleteNode, junks[5]);
    SoloBack(s5, t, junks, 5, end, end);
    SoloBack(s4, t, junks, 4, s5, end);
    SoloBack(s, t, junks, 3, s4, end);
  }

  lemma SoloBack(s: State, t: Tid, junks: seq<Node>, i: nat, s': State, end: State)
    requires i < |junks| && t in s.pcs && s.pcs[t] != Idle && Enabled(s, t, Move(s.pcs[t]))
    requires s' == Next(s, t, Move(s.pcs[t]), junks[i])
    requires Solo(s', t, junks[i + 1..], end) || (s' == end && t in end.pcs && end.pcs[t] == Idle)
    ensures Solo(s, t, junks[i..], end)
  {
    assert junks[i..][1..] == junks[i + 1..] && junks[i..][0] == junks[i];
  }

  /** A whole `push` running alone puts its value on top and returns. */
  lemma PushAlone(s: State, t: Tid, v: Value, a: Addr, junks: seq<Node>) returns (end: State)
    requires Enabled(s, t, CallPush(v, a)) && |junks| >= 4
    ensures Solo(Next(s, t, CallPush(v, a), junks[0]), t, junks[1..], end)
    ensures end == s.(head := a, heap := s.heap[a := Node(v, s.head)],
                      hist := s.hist + [Call(t, Push(v)), Lin(t, Push(v), Done), Return(t, Push(v), Done)])
  {
    var s1 := Next(s, t, CallPush(v, a), junks[0]);
    var s2 := Next(s1, t, LoadForPush, junks[1]);
    var s3 := Next(s2, t, TryPush, junks[2]);
    end := Next(s3, t, ReturnPush, junks[3]);
    SoloBack(s3, t, junks, 3, end, end);
    SoloBack(s2, t, junks, 2, s3, end);
    SoloBack(s1, t, junks, 1, s2, end);
    assert end.pcs == s.pcs;
  }

  // ---------------------------------------------------------------- address reuse

  datatype Choice = Choice(t: Tid, a: Action)

  /** Runs a schedule with nothing but the allocator's own guarantee: an address may come back
      while a `pop` still holds it. */
  ghost function Exec(s: State, sched: seq<Choice>, junk: Node): Option<State>
    decreases sched
  {
    if sched == [] then Some(s)
    else if !CanRun(s, sched[0].t, sched[0].a) then None
    else Exec(Next(s, sched[0].t, sched[0].a, junk), sched[1..], junk)
  }

  lemma {:induction false} ExecAppend(s: State, sched: seq<Choice>, c: Choice, junk: Node)
    requires Exec(s, sched, junk).Some? && CanRun(Exec(s, sched, junk).value, c.t, c.a)
    ensures Exec(s, sched + [c], junk) == Some(Next(Exec(s, sched, junk).value, c.t, c.a, junk))
    decreases sched
  {
    if sched != [] {
      assert (sched + [c])[1..] == sched[1..] + [c];
      ExecAppend(Next(s, sched[0].t, sched[0].a, junk), sched[1..], c, junk);
    } else {
      assert (sched + [c])[1..] == [];
    }
  }

  lemma ReplayTriple(h: seq<Event>, t: Tid, op: Op, res: Result)
    ensures Replay(h).Some? ==>
              Replay(h + [Call(t, op), Lin(t, op, res), Return(t, op, res)]) == Apply(Replay(h).value, op, res)
  {
    var h1 := h + [Call(t, op)];
    var h2 := h1 + [Lin(t, op, res)];
    var h3 := h + [Call(t, op), Lin(t, op, res), Return(t, op, res)];
    assert h1[..|h|] == h && h2[..|h1|] == h1 && h3[..|h2|] == h2;
    assert Replay(h1) == Replay(h) && Replay(h3) == Replay(h2);
  }

  /** An undisturbed push and an undisturbed pop. */
  lemma SoloPush(s: State, sched: seq<Choice>, now: State, t: Tid, v: Value, a: Addr, junk: Node)
    returns (sched': seq<Choice>, now': State)
    requires Exec(s, sched, junk) == Some(now) && t in now.pcs && now.pcs[t] == Idle && a != NULL && a !in now.heap
    ensures Exec(s, sched', junk) == Some(now')
    ensures now' == now.(head := a, heap := now.heap[a := Node(v, now.head)],
                         hist := now.hist + [Call(t, Push(v)), Lin(t, Push(v), Done), Return(t, Push(v), Done)])
    ensures Replay(now.hist).Some? ==> Replay(now'.hist) == Some([v] + Replay(now.hist).value)
  {
    hide Exec, Replay;
    ReplayTriple(now.hist, t, Push(v), Done);
    ExecAppend(s, sched, Choice(t, CallPush(v, a)), junk);
    sched' := sched + [Choice(t, CallPush(v, a))];
    ExecAppend(s, sched', Choice(t, LoadForPush), junk);
    sched' := sched' + [Choice(t, LoadForPush)];
    ExecAppend(s, sched', Choice(t, TryPush), junk);
    sched' := sched' + [Choice(t, TryPush)];
    ExecAppend(s, sched', Choice(t, ReturnPush), junk);
    sched' := sched' + [Choice(t, ReturnPush)];
    now' := Exec(s, sched', junk).value;
  }

  lemma SoloPop(s: State, sched: seq<Choice>, now: State, t: Tid, junk: Node)
    returns (sched': seq<Choice>, now': State)
    requires Exec(s, sched, junk) == Some(now) && t in now.pcs && now.pcs[t] == Idle
    requires now.head != NULL && now.head in now.heap
    ensures Exec(s, sched', junk) == Some(now')
    ensures var top := now.heap[now.head];
            now' == now.(head := top.next, heap := now.heap - {now.head},
                         hist := now.hist + [Call(t, Pop), Lin(t, Pop, Got(top.value)), Return(t, Pop, Got(top.value))])
    ensures Replay(now.hist).Some? ==>
              Replay(now'.hist) == Apply(Replay(now.hist).value, Pop, Got(now.heap[now.head].value))
  {
    hide Exec, Replay;
    ReplayTriple(now.hist, t, Pop, Got(now.heap[now.head].value));
    ExecAppend(s, sched, Choice(t, CallPop), junk);
    sched' := sched + [Choice(t, CallPop)];
    ExecAppend(s, sched', Choice(t, LoadForPop), junk);
    sched' := sched' + [Choice(t, LoadForPop)];
    ExecAppend(s, sched', Choice(t, TestOldHead), junk);
    sched' := sched' + [Choice(t, TestOldHead)];
    ExecAppend(s, sched', Choice(t, TryPop), junk);
    sched' := sched' + [Choice(t, TryPop)];
    ExecAppend(s, sched', Choice(t, ReadValue), junk);
    sched' := sched' + [Choice(t, ReadValue)];
    ExecAppend(s, sched', Choice(t, DeleteNode), junk);
    sched' := sched' + [Choice(t, DeleteNode)];
    now' := Exec(s, sched', junk).value;
  }

  /** A `pop` that has loaded `head` and read its `next`, and is about to try its CAS. */
  lemma HalfPop(s: State, sched: seq<Choice>, now: State, t: Tid, junk: Node)
    returns (sched': seq<Choice>, now': State)
    requires Exec(s, sched, junk) == Some(now) && t in now.pcs && now.pcs[t] == Idle
    requires now.head != NULL && now.head in now.heap
    ensures Exec(s, sched', junk) == Some(now')
    ensures now' == now.(pcs := now.pcs[t := PopCas(now.head, now.heap[now.head].next)],
                         hist := now.hist + [Call(t, Pop)])
    ensures Replay(now'.hist) == Replay(now.hist)
  {
    Append(now.hist, Call(t, Pop));
    ExecAppend(s, sched, Choice(t, CallPop), junk);
    sched' := sched + [Choice(t, CallPop)];
    ExecAppend(s, sched', Choice(t, LoadForPop), junk);
    sched' := sched' + [Choice(t, LoadForPop)];
    ExecAppend(s, sched', Choice(t, TestOldHead), junk);
    sched' := sched' + [Choice(t, TestOldHead)];
    now' := Exec(s, sched', junk).value;
  }

  ghost function Start(): State {
    State(NULL, map[], map[1 := Idle, 2 := Idle], [])
  }

  lemma StartIs(junk: Node)
    ensures Init(Start()) && Exec(Start(), [], junk) == Some(Start()) && Replay(Start().hist) == Some([])
  {
  }

  /** One thread prepares to pop `a` at address 1; another pops and deletes it. */
  lemma PoppedUnderneath(a: Value, junk: Node) returns (sched: seq<Choice>, now: State)
    ensures Exec(Start(), sched, junk) == Some(now) && now.head == NULL && now.heap == map[]
    ensures now.pcs == map[1 := PopCas(1, NULL), 2 := Idle] && Replay(now.hist) == Some([])
  {
    StartIs(junk);
    hide Exec, Replay, Init;
    sched, now := SoloPush(Start(), [], Start(), 2, a, 1, junk);
    assert Replay(now.hist).value == [a];
    sched, now := HalfPop(Start(), sched, now, 1, junk);
    sched, now := SoloPop(Start(), sched, now, 2, junk);
    assert now.heap == map[] && now.pcs == map[1 := PopCas(1, NULL), 2 := Idle];
  }

  /** The other thread goes on to push `b`, and `c` at the reused address 1. */
  lemma PushedAgain(a: Value, b: Value, c: Value, junk: Node) returns (sched: seq<Choice>, now: State)
    ensures Exec(Start(), sched, junk) == Some(now) && now.head == 1 && 1 in now.heap && now.heap[1].value == c
    ensures 1 in now.pcs && now.pcs[1] == PopCas(1, NULL) && Replay(now.hist) == Some([c, b])
  {
    sched, now := PoppedUnderneath(a, junk);
    hide Exec, Replay;
    sched, now := SoloPush(Start(), sched, now, 2, b, 2, junk);
    assert now.heap == map[2 := Node(b, NULL)] && Replay(now.hist).value == [b];
    sched, now := SoloPush(Start(), sched, now, 2, c, 1, junk);
    assert Replay(now.hist).value == [c, b];
  }

  /** Drop the no-reuse condition and the stack loses values: with `a` on the stack at address 1, one
      thread prepares to pop it; another pops and deletes it, pushes `b`, and pushes `c` at the
      reused address 1; the first thread's CAS then succeeds and installs null, dropping `b`. */
  lemma ReuseBreaksTheStack(a: Value, b: Value, c: Value) returns (s0: State, sched: seq<Choice>, end: State)
    ensures Init(s0) && Exec(s0, sched, Node(a, NULL)) == Some(end)
    ensures end.head == NULL && Replay(end.hist) == Some([b])
  {
    var junk := Node(a, NULL);
    StartIs(junk);
    s0 := Start();
    var now;
    sched, now := PushedAgain(a, b, c, junk);
    hide Exec, Init;
    ExecAppend(s0, sched, Choice(1, TryPop), junk);
    Append(now.hist, Lin(1, Pop, Got(c)));
    sched := sched + [Choice(1, TryPop)];
    end := Exec(s0, sched, junk).value;
  }
}
