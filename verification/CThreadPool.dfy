/**
 * The C thread pool of ThreadPool_C_C++/C/threadPool.c, before shutdown, as a step machine over the
 * manager, any number of workers (created and destroyed on the way) and any number of callers of
 * `threadPoolAdd`.
 *
 * A stretch of code under `mutexPool` or `mutexBusy` is one step, except the manager's creation loop,
 * which is one step per iteration with `mutexPool` held, because `threadDestroy` clears its
 * `threadIDs` slot without holding any lock. The manager's decisions use the copies it took earlier
 * (`queueSize` and `liveNum` under one mutex, `busyNum` under the other), however stale they are.
 * A signal may wake any waiter or none, and wake-ups may be spurious.
 */
module CThreadPool {
  type Task(==, !new)
  type Tid = nat                 // 0 marks an empty slot of threadIDs

  const MAX := 100
  const NUMBER := 2

  datatype Config = Config(minNum: nat, maxNum: nat, capacity: nat)

  ghost predicate GoodConfig(c: Config) {
    1 <= c.minNum <= c.maxNum <= MAX && c.capacity > 0
  }

  datatype WorkerPc =
    | Top
    | Waiting
    | Woken
    | Took(task: Task, n: nat)   // n numbers the tasks in the order they were taken
    | Busy(task: Task, n: nat)
    | Destroying(i: nat)

  datatype ClientPc = Outside | Adding(task: Task) | WaitFull(task: Task) | WokenFull(task: Task)

  datatype ManagerPc =
    | Asleep
    | GotPool(queueSize: nat, liveNum: nat)
    | GotBusy(queueSize: nat, liveNum: nat, busyNum: nat)
    | Creating(i: nat, counter: nat, liveNum: nat, busyNum: nat)
    | Shrink(liveNum: nat, busyNum: nat)
    | Signalling(n: nat)

  datatype Ring = Ring(taskQ: seq<Task>, front: nat, rear: nat, size: nat)

  datatype Taken = Taken(worker: Tid, task: Task)

  datatype State = State(
    ring: Ring,
    threadIDs: seq<Tid>,
    liveNum: int, busyNum: int, exitNum: int,
    workers: map<Tid, WorkerPc>,
    clients: seq<ClientPc>,
    manager: ManagerPc,
    submitted: seq<Task>,        // every task added so far
    taken: seq<Taken>,           // every task taken so far, with the worker that took it
    done: set<nat>)              // numbers of the tasks whose function has returned

  datatype Action =
    | WorkerEnter(t: Tid, c: nat)
    | WorkerResume(t: Tid, c: nat)
    | WakeWorker(t: Tid)
    | StartTask(t: Tid)
    | FinishTask(t: Tid)
    | ScanOwnSlot(t: Tid)
    | CallAdd(c: nat, task: Task)
    | TryAdd(c: nat, t: Tid)
    | WakeClient(c: nat)
    | SnapshotPool
    | SnapshotBusy
    | DecideCreate
    | CreateStep(t: Tid)
    | DecideShrink
    | SignalShrink(t: Tid)

  // ---------------------------------------------------------------- steps

  ghost function Pop(r: Ring): Ring
    requires |r.taskQ| > 0
  {
    r.(front := (r.front + 1) % |r.taskQ|, size := if r.size > 0 then r.size - 1 else 0)
  }

  ghost function Push(r: Ring, x: Task): Ring
    requires r.rear < |r.taskQ|
  {
    r.(taskQ := r.taskQ[r.rear := x], rear := (r.rear + 1) % |r.taskQ|, size := r.size + 1)
  }

  /** mutexPool is free: only the creation loop holds it across steps. */
  ghost predicate PoolFree(s: State) {
    !s.manager.Creating?
  }

  ghost predicate Enabled(s: State, cfg: Config, a: Action) {
    match a
    case WorkerEnter(t, _) => t in s.workers && s.workers[t] == Top && PoolFree(s)
    case WorkerResume(t, _) => t in s.workers && s.workers[t] == Woken && PoolFree(s)
    case WakeWorker(t) => t in s.workers && s.workers[t] == Waiting
    case StartTask(t) => t in s.workers && s.workers[t].Took?
    case FinishTask(t) => t in s.workers && s.workers[t].Busy?
    case ScanOwnSlot(t) => t in s.workers && s.workers[t].Destroying?
    case CallAdd(c, _) => c < |s.clients| && s.clients[c] == Outside
    case TryAdd(c, _) => c < |s.clients| && (s.clients[c].Adding? || s.clients[c].WokenFull?) && PoolFree(s)
    case WakeClient(c) => c < |s.clients| && s.clients[c].WaitFull?
    case SnapshotPool => s.manager == Asleep
    case SnapshotBusy => s.manager.GotPool?
    case DecideCreate => s.manager.GotBusy?
    case CreateStep(t) => s.manager.Creating? && t != 0 && t !in s.workers
    case DecideShrink => s.manager.Shrink?
    case SignalShrink(_) => s.manager.Signalling?
  }

  ghost function SignalClient(clients: seq<ClientPc>, c: nat): seq<ClientPc> {
    if c < |clients| && clients[c].WaitFull? then clients[c := WokenFull(clients[c].task)] else clients
  }

  ghost function SignalWorker(workers: map<Tid, WorkerPc>, t: Tid): map<Tid, WorkerPc> {
    if t in workers && workers[t] == Waiting then workers[t := Woken] else workers
  }

  /** The worker's loop head: wait if the queue is empty, otherwise take the task at the front. */
  ghost function WaitOrTake(s: State, t: Tid, c: nat): State {
    if s.ring.size == 0 || s.ring.front >= |s.ring.taskQ| then
      s.(workers := s.workers[t := Waiting])
    else
      var task := s.ring.taskQ[s.ring.front];
      s.(ring := Pop(s.ring), clients := SignalClient(s.clients, c),
         workers := s.workers[t := Took(task, |s.taken|)], taken := s.taken + [Taken(t, task)])
  }

  ghost function Next(s: State, cfg: Config, a: Action): State
    requires Enabled(s, cfg, a)
  {
    match a
    case WorkerEnter(t, c) => WaitOrTake(s, t, c)
    case WorkerResume(t, c) =>
      if s.exitNum > 0 then
        var s1 := s.(exitNum := s.exitNum - 1);
        if s1.liveNum > cfg.minNum then
          s1.(liveNum := s1.liveNum - 1, workers := s.workers[t := Destroying(0)])
        else
          WaitOrTake(s1, t, c)
      else
        WaitOrTake(s, t, c)
    case WakeWorker(t) => s.(workers := s.workers[t := Woken])
    case StartTask(t) =>
      s.(busyNum := s.busyNum + 1, workers := s.workers[t := Busy(s.workers[t].task, s.workers[t].n)])
    case FinishTask(t) =>
      s.(busyNum := s.busyNum - 1, workers := s.workers[t := Top], done := s.done + {s.workers[t].n})
    case ScanOwnSlot(t) =>
      var i := s.workers[t].i;
      if i < cfg.maxNum && i < |s.threadIDs| && s.threadIDs[i] != t then
        s.(workers := s.workers[t := Destroying(i + 1)])
      else
        s.(workers := s.workers - {t},
           threadIDs := if i < cfg.maxNum && i < |s.threadIDs| then s.threadIDs[i := 0] else s.threadIDs)
    case CallAdd(c, task) => s.(clients := s.clients[c := Adding(task)])
    case TryAdd(c, t) =>
      var task := s.clients[c].task;
      if s.ring.size == cfg.capacity || s.ring.rear >= |s.ring.taskQ| then
        s.(clients := s.clients[c := WaitFull(task)])
      else
        s.(ring := Push(s.ring, task), clients := s.clients[c := Outside],
           workers := SignalWorker(s.workers, t), submitted := s.submitted + [task])
    case WakeClient(c) => s.(clients := s.clients[c := WokenFull(s.clients[c].task)])
    case SnapshotPool => s.(manager := GotPool(s.ring.size, if s.liveNum >= 0 then s.liveNum else 0))
    case SnapshotBusy =>
      s.(manager := GotBusy(s.manager.queueSize, s.manager.liveNum, if s.busyNum >= 0 then s.busyNum else 0))
    case DecideCreate =>
      var m := s.manager;
      if m.queueSize > m.liveNum && m.liveNum < cfg.maxNum then
        s.(manager := Creating(0, 0, m.liveNum, m.busyNum))
      else
        s.(manager := Shrink(m.liveNum, m.busyNum))
    case CreateStep(t) =>
      var m := s.manager;
      if !(m.i < cfg.maxNum && m.i < |s.threadIDs| && m.counter < NUMBER && s.liveNum < cfg.maxNum) then
        s.(manager := Shrink(m.liveNum, m.busyNum))
      else if s.threadIDs[m.i] == 0 then
        s.(manager := m.(i := m.i + 1, counter := m.counter + 1), liveNum := s.liveNum + 1,
           threadIDs := s.threadIDs[m.i := t], workers := s.workers[t := Top])
      else
        s.(manager := m.(i := m.i + 1))
    case DecideShrink =>
      var m := s.manager;
      if m.busyNum * 2 < m.liveNum && m.liveNum > cfg.minNum then
        s.(exitNum := NUMBER, manager := Signalling(0))
      else
        s.(manager := Asleep)
    case SignalShrink(t) =>
      if s.manager.n < NUMBER then
        s.(manager := Signalling(s.manager.n + 1), workers := SignalWorker(s.workers, t))
      else
        s.(manager := Asleep)
  }

  /** The state when `threadPoolCreate` returns: workers 1 .. minNum in slots 0 .. minNum - 1. */
  ghost predicate Init(s: State, cfg: Config) {
    && GoodConfig(cfg)
    && |s.ring.taskQ| == cfg.capacity && s.ring.front == 0 && s.ring.rear == 0 && s.ring.size == 0
    && s.threadIDs == seq(MAX, i => if 0 <= i < cfg.minNum then i + 1 else 0)
    && s.liveNum == cfg.minNum && s.busyNum == 0 && s.exitNum == 0
    && (forall t :: t in s.workers <==> 1 <= t <= cfg.minNum) && (forall t <- s.workers :: s.workers[t] == Top)
    && (forall c :: 0 <= c < |s.clients| ==> s.clients[c] == Outside)
    && s.manager == Asleep && s.submitted == [] && s.taken == [] && s.done == {}
  }

  ghost predicate Run(r: seq<State>, cfg: Config, acts: seq<Action>) {
    && |r| == |acts| + 1 && Init(r[0], cfg)
    && forall i :: 0 <= i < |acts| ==> Enabled(r[i], cfg, acts[i]) && r[i + 1] == Next(r[i], cfg, acts[i])
  }

  // ---------------------------------------------------------------- the ring is a FIFO queue

  /** The i-th position from `front`, going round. */
  ghost function At(front: nat, i: nat, cap: nat): nat {
    if front + i < cap then front + i else front + i - cap
  }

  ghost predicate RingInv(r: Ring, cap: nat) {
    |r.taskQ| == cap && r.front < cap && r.size <= cap && r.rear == At(r.front, r.size, cap)
  }

  ghost function Contents(r: Ring, cap: nat): (q: seq<Task>)
    requires RingInv(r, cap)
    ensures |q| == r.size && forall i :: 0 <= i < |q| ==> q[i] == r.taskQ[At(r.front, i, cap)]
  {
    seq(r.size, i requires 0 <= i < r.size => r.taskQ[At(r.front, i, cap)])
  }

  lemma AtIsMod(front: nat, i: nat, cap: nat)
    requires front < cap && i <= cap
    ensures (front + i) % cap == At(front, i, cap)
  {
    if front + i >= cap {
      assert front + i == cap * 1 + (front + i - cap);
    }
  }

  lemma PopIsTail(r: Ring, cap: nat)
    requires RingInv(r, cap) && r.size > 0
    ensures RingInv(Pop(r), cap)
    ensures Contents(r, cap) == [r.taskQ[r.front]] + Contents(Pop(r), cap)
  {
    AtIsMod(r.front, 1, cap);
  }

  lemma PushIsAppend(r: Ring, cap: nat, x: Task)
    requires RingInv(r, cap) && r.size < cap
    ensures RingInv(Push(r, x), cap)
    ensures Contents(Push(r, x), cap) == Contents(r, cap) + [x]
  {
    AtIsMod(r.rear, 1, cap);
  }

  ghost function Tasks(taken: seq<Taken>): seq<Task> {
    seq(|taken|, i requires 0 <= i < |taken| => taken[i].task)
  }

  /** Every task added is the next one to be taken, in order, or still in the ring. */
  ghost predicate FifoInv(s: State, cfg: Config) {
    RingInv(s.ring, cfg.capacity) && s.submitted == Tasks(s.taken) + Contents(s.ring, cfg.capacity)
  }

  /** What a step does to the queue: nothing, one pop, or one push. */
  lemma QueueEffect(s: State, cfg: Config, a: Action)
    requires RingInv(s.ring, cfg.capacity) && Enabled(s, cfg, a)
    ensures var s' := Next(s, cfg, a);
            || (s'.ring == s.ring && s'.taken == s.taken && s'.submitted == s.submitted)
            || (&& s.ring.size > 0 && s'.ring == Pop(s.ring) && s'.submitted == s.submitted
                && (a.WorkerEnter? || a.WorkerResume?)
                && s'.taken == s.taken + [Taken(a.t, s.ring.taskQ[s.ring.front])])
            || (&& a.TryAdd? && s.ring.size < cfg.capacity && s'.ring == Push(s.ring, s.clients[a.c].task)
                && s'.taken == s.taken && s'.submitted == s.submitted + [s.clients[a.c].task])
  {
  }

  lemma StepKeepsFifo(s: State, cfg: Config, a: Action)
    requires FifoInv(s, cfg) && Enabled(s, cfg, a)
    ensures FifoInv(Next(s, cfg, a), cfg)
  {
    QueueEffect(s, cfg, a);
    var s' := Next(s, cfg, a);
    if |s'.taken| > |s.taken| {
      FifoAfterPop(s, s', cfg, a.t);
    } else if |s'.submitted| > |s.submitted| {
      FifoAfterPush(s, s', cfg, s.clients[a.c].task);
    }
  }

  lemma FifoAfterPop(s: State, s': State, cfg: Config, t: Tid)
    requires FifoInv(s, cfg) && s.ring.size > 0 && s'.ring == Pop(s.ring) && s'.submitted == s.submitted
    requires s'.taken == s.taken + [Taken(t, s.ring.taskQ[s.ring.front])]
    ensures FifoInv(s', cfg)
  {
    PopIsTail(s.ring, cfg.capacity);
    TasksAppend(s.taken, Taken(t, s.ring.taskQ[s.ring.front]));
  }

  lemma FifoAfterPush(s: State, s': State, cfg: Config, x: Task)
    requires FifoInv(s, cfg) && s.ring.size < cfg.capacity && s'.ring == Push(s.ring, x)
    requires s'.taken == s.taken && s'.submitted == s.submitted + [x]
    ensures FifoInv(s', cfg)
  {
    PushIsAppend(s.ring, cfg.capacity, x);
  }

  lemma TasksAppend(taken: seq<Taken>, x: Taken)
    ensures Tasks(taken + [x]) == Tasks(taken) + [x.task]
  {
  }

  // ---------------------------------------------------------------- the counters

  ghost function Live(s: State): set<Tid> {
    set t | t in s.workers && !s.workers[t].Destroying?
  }

  /** Workers that gave up their place in `liveNum` and have not cleared their slot yet. */
  ghost function Leaving(s: State): set<Tid> {
    set t | t in s.workers && s.workers[t].Destroying?
  }

  ghost function Working(s: State): set<Tid> {
    set t | t in s.workers && s.workers[t].Busy?
  }

  ghost predicate CountInv(s: State, cfg: Config) {
    && s.liveNum == |Live(s)| && cfg.minNum <= s.liveNum <= cfg.maxNum
    && s.busyNum == |Working(s)|
    && 0 <= s.exitNum <= NUMBER
  }

  /** How one step changes the set of live workers and `liveNum` together. */
  lemma LiveEffect(s: State, cfg: Config, a: Action)
    requires Enabled(s, cfg, a)
    ensures var s' := Next(s, cfg, a);
            || (Live(s') == Live(s) && s'.liveNum == s.liveNum)
            || (a.CreateStep? && Live(s') == Live(s) + {a.t} && s'.liveNum == s.liveNum + 1 <= cfg.maxNum)
            || (&& a.WorkerResume? && Live(s') == Live(s) - {a.t} && a.t in Live(s)
                && s'.liveNum == s.liveNum - 1 >= cfg.minNum)
  {
  }

  lemma WorkingEffect(s: State, cfg: Config, a: Action)
    requires Enabled(s, cfg, a)
    ensures var s' := Next(s, cfg, a);
            if a.StartTask? then Working(s') == Working(s) + {a.t} && a.t !in Working(s) && s'.busyNum == s.busyNum + 1
            else if a.FinishTask? then
              Working(s') == Working(s) - {a.t} && a.t in Working(s) && s'.busyNum == s.busyNum - 1
            else Working(s') == Working(s) && s'.busyNum == s.busyNum
  {
  }

  lemma StepKeepsCounts(s: State, cfg: Config, a: Action)
    requires CountInv(s, cfg) && Enabled(s, cfg, a)
    ensures CountInv(Next(s, cfg, a), cfg)
  {
    LiveEffect(s, cfg, a);
    WorkingEffect(s, cfg, a);
    ExitNumInRange(s, cfg, a);
    if a.CreateStep? {
      assert a.t !in Live(s);
    }
  }

  lemma ExitNumInRange(s: State, cfg: Config, a: Action)
    requires 0 <= s.exitNum <= NUMBER && Enabled(s, cfg, a)
    ensures 0 <= Next(s, cfg, a).exitNum <= NUMBER
  {
  }

  // ---------------------------------------------------------------- the slots of threadIDs

  ghost function Occupied(ids: seq<Tid>): nat {
    if ids == [] then 0 else (if ids[0] != 0 then 1 else 0) + Occupied(ids[1..])
  }

  lemma {:induction false} OccupiedUpdate(ids: seq<Tid>, i: nat, t: Tid)
    requires i < |ids|
    ensures Occupied(ids[i := t]) == Occupied(ids) - (if ids[i] != 0 then 1 else 0) + (if t != 0 then 1 else 0)
  {
    if i == 0 {
      assert ids[0 := t][1..] == ids[1..];
    } else {
      assert ids[i := t][1..] == ids[1..][i - 1 := t];
      OccupiedUpdate(ids[1..], i - 1, t);
    }
  }

  /** Worker `t` is recorded in slot `i`, at or after the point its own search has reached. */
  ghost predicate SlotOf(s: State, cfg: Config, t: Tid, i: nat)
    requires t in s.workers
  {
    i < cfg.maxNum && i < |s.threadIDs| && s.threadIDs[i] == t && (s.workers[t].Destroying? ==> s.workers[t].i <= i)
  }

  ghost predicate SlotsInv(s: State, cfg: Config) {
    && |s.threadIDs| == MAX && 0 !in s.workers
    && (forall i :: 0 <= i < MAX && s.threadIDs[i] != 0 ==> i < cfg.maxNum && s.threadIDs[i] in s.workers)
    && (forall i, j :: 0 <= i < j < MAX && s.threadIDs[i] != 0 ==> s.threadIDs[i] != s.threadIDs[j])
  }

  ghost predicate FindsSlot(s: State, cfg: Config) {
    forall t <- s.workers :: exists i :: SlotOf(s, cfg, t, i)
  }

  /** The only ways the slots change: the manager fills an empty one, or a worker empties its own. */
  datatype SlotChange = Same | Filled(i: nat, t: Tid) | Emptied(i: nat, t: Tid)

  ghost predicate ChangesBy(s: State, s': State, cfg: Config, ch: SlotChange) {
    match ch
    case Same => s'.threadIDs == s.threadIDs && s'.workers.Keys == s.workers.Keys
    case Filled(i, t) =>
      && i < cfg.maxNum && i < |s.threadIDs| && s.threadIDs[i] == 0 && t != 0 && t !in s.workers
      && s'.threadIDs == s.threadIDs[i := t] && s'.workers == s.workers[t := Top]
    case Emptied(i, t) =>
      && i < |s.threadIDs| && s.threadIDs[i] == t && t in s.workers
      && s'.threadIDs == s.threadIDs[i := 0] && s'.workers == s.workers - {t}
  }

  ghost function ChangeOf(s: State, cfg: Config, a: Action): SlotChange
    requires Enabled(s, cfg, a)
  {
    var s' := Next(s, cfg, a);
    if a.CreateStep? && s'.liveNum > s.liveNum then Filled(s.manager.i, a.t)
    else if a.ScanOwnSlot? && a.t !in s'.workers then Emptied(s.workers[a.t].i, a.t)
    else Same
  }

  lemma StepChangesSlots(s: State, cfg: Config, a: Action)
    requires Enabled(s, cfg, a)
    requires a.ScanOwnSlot? ==> exists i :: SlotOf(s, cfg, a.t, i)
    ensures ChangesBy(s, Next(s, cfg, a), cfg, ChangeOf(s, cfg, a))
  {
  }

  lemma ChangeKeepsSlots(s: State, s': State, cfg: Config, ch: SlotChange)
    requires SlotsInv(s, cfg) && ChangesBy(s, s', cfg, ch)
    ensures SlotsInv(s', cfg)
  {
  }

  lemma ChangeKeepsOccupied(s: State, s': State, cfg: Config, ch: SlotChange)
    requires 0 !in s.workers && Occupied(s.threadIDs) == |s.workers| && ChangesBy(s, s', cfg, ch)
    ensures Occupied(s'.threadIDs) == |s'.workers|
  {
    match ch
    case Same => assert |s.workers| == |s.workers.Keys| && |s'.workers| == |s'.workers.Keys|;
    case Filled(i, t) => OccupiedUpdate(s.threadIDs, i, t);
    case Emptied(i, t) =>
      OccupiedUpdate(s.threadIDs, i, 0);
      assert s'.workers.Keys == s.workers.Keys - {t};
      assert |s.workers| == |s.workers.Keys| && |s'.workers| == |s'.workers.Keys|;
  }

  /** A worker's search never passes its own slot. */
  lemma SearchAdvances(s: State, cfg: Config, a: Action, t: Tid, i: nat)
    requires Enabled(s, cfg, a) && t in s.workers && t in Next(s, cfg, a).workers && SlotOf(s, cfg, t, i)
    ensures var pc := Next(s, cfg, a).workers[t]; pc.Destroying? ==> pc.i <= i
  {
  }

  lemma StepFindsSlot(s: State, cfg: Config, a: Action)
    requires Enabled(s, cfg, a) && 0 !in s.workers && FindsSlot(s, cfg)
    requires ChangesBy(s, Next(s, cfg, a), cfg, ChangeOf(s, cfg, a))
    ensures FindsSlot(Next(s, cfg, a), cfg)
  {
    var s', ch := Next(s, cfg, a), ChangeOf(s, cfg, a);
    forall t | t in s'.workers
      ensures exists i :: SlotOf(s', cfg, t, i)
    {
      if ch.Filled? && t == ch.t {
        assert SlotOf(s', cfg, t, ch.i);
      } else {
        var i :| SlotOf(s, cfg, t, i);
        SearchAdvances(s, cfg, a, t, i);
        assert SlotOf(s', cfg, t, i);
      }
    }
  }

  // ---------------------------------------------------------------- who holds which task

  datatype Hand = Free | Has(task: Task, n: nat)

  ghost function HandOf(s: State, t: Tid): Hand {
    if t in s.workers && (s.workers[t].Took? || s.workers[t].Busy?) then Has(s.workers[t].task, s.workers[t].n)
    else Free
  }

  /** Every task taken is finished, or held by the worker that took it and by nobody else. */
  ghost predicate HandsInv(s: State) {
    && (forall n <- s.done :: n < |s.taken|)
    && (forall t :: var h := HandOf(s, t);
          h.Has? ==> h.n < |s.taken| && s.taken[h.n] == Taken(t, h.task) && h.n !in s.done)
    && (forall n :: 0 <= n < |s.taken| && n !in s.done ==>
          HandOf(s, s.taken[n].worker) == Has(s.taken[n].task, n))
  }

  datatype HandChange = Keep | Take(t: Tid, task: Task) | Finish(t: Tid)

  ghost predicate HandsBy(s: State, s': State, ch: HandChange) {
    match ch
    case Keep => s'.taken == s.taken && s'.done == s.done && forall u :: HandOf(s', u) == HandOf(s, u)
    case Take(t, task) =>
      && HandOf(s, t) == Free && HandOf(s', t) == Has(task, |s.taken|)
      && s'.taken == s.taken + [Taken(t, task)] && s'.done == s.done
      && (forall u :: u != t ==> HandOf(s', u) == HandOf(s, u))
    case Finish(t) =>
      && HandOf(s, t).Has? && HandOf(s', t) == Free
      && s'.taken == s.taken && s'.done == s.done + {HandOf(s, t).n}
      && (forall u :: u != t ==> HandOf(s', u) == HandOf(s, u))
  }

  lemma StepChangesHands(s: State, cfg: Config, a: Action) returns (ch: HandChange)
    requires Enabled(s, cfg, a)
    ensures HandsBy(s, Next(s, cfg, a), ch)
  {
    hide Pop, Push;
    var s' := Next(s, cfg, a);
    ch := if |s'.taken| > |s.taken| then Take(a.t, s.ring.taskQ[s.ring.front])
          else if a.FinishTask? then Finish(a.t) else Keep;
  }

  lemma ChangeKeepsHands(s: State, s': State, ch: HandChange)
    requires HandsInv(s) && HandsBy(s, s', ch)
    ensures HandsInv(s')
  {
  }

  // ---------------------------------------------------------------- whole runs

  ghost predicate Inv(s: State, cfg: Config) {
    && GoodConfig(cfg) && FifoInv(s, cfg) && CountInv(s, cfg)
    && SlotsInv(s, cfg) && FindsSlot(s, cfg) && Occupied(s.threadIDs) == |s.workers|
    && HandsInv(s)
  }

  lemma StepKeepsInv(s: State, cfg: Config, a: Action)
    requires Inv(s, cfg) && Enabled(s, cfg, a)
    ensures Inv(Next(s, cfg, a), cfg)
  {
    var s', sc := Next(s, cfg, a), ChangeOf(s, cfg, a);
    StepKeepsFifo(s, cfg, a);
    StepKeepsCounts(s, cfg, a);
    StepChangesSlots(s, cfg, a);
    ChangeKeepsSlots(s, s', cfg, sc);
    ChangeKeepsOccupied(s, s', cfg, sc);
    StepFindsSlot(s, cfg, a);
    var hc := StepChangesHands(s, cfg, a);
    ChangeKeepsHands(s, s', hc);
  }

  lemma {:induction false} OccupiedPrefix(ids: seq<Tid>, m: nat)
    requires m <= |ids| && forall i :: 0 <= i < |ids| ==> (ids[i] != 0 <==> i < m)
    ensures Occupied(ids) == m
  {
    if ids != [] {
      OccupiedPrefix(ids[1..], if m == 0 then 0 else m - 1);
    }
  }

  lemma {:induction false} OneTo(ts: set<Tid>, m: nat)
    requires forall t :: t in ts <==> 1 <= t <= m
    ensures |ts| == m
  {
    if m > 0 {
      OneTo(ts - {m}, m - 1);
    }
  }

  lemma InitCounts(s: State, cfg: Config)
    requires Init(s, cfg)
    ensures CountInv(s, cfg) && Occupied(s.threadIDs) == |s.workers|
  {
    OccupiedPrefix(s.threadIDs, cfg.minNum);
    OneTo(s.workers.Keys, cfg.minNum);
    assert Live(s) == s.workers.Keys && Working(s) == {};
    assert |s.workers| == |s.workers.Keys|;
  }

  lemma InitSlots(s: State, cfg: Config)
    requires Init(s, cfg)
    ensures SlotsInv(s, cfg) && FindsSlot(s, cfg)
  {
    forall t | t in s.workers
      ensures exists i :: SlotOf(s, cfg, t, i)
    {
      assert SlotOf(s, cfg, t, t - 1);
    }
  }

  lemma InitQueue(s: State, cfg: Config)
    requires Init(s, cfg)
    ensures FifoInv(s, cfg) && HandsInv(s)
  {
  }

  lemma InitInv(s: State, cfg: Config)
    requires Init(s, cfg)
    ensures Inv(s, cfg)
  {
    InitCounts(s, cfg);
    InitSlots(s, cfg);
    InitQueue(s, cfg);
    hide CountInv, SlotsInv, FindsSlot, FifoInv, HandsInv, Occupied, GoodConfig;
  }

  lemma {:induction false} RunInv(r: seq<State>, cfg: Config, acts: seq<Action>, k: nat)
    requires Run(r, cfg, acts) && k < |r|
    ensures Inv(r[k], cfg)
  {
    if k == 0 {
      InitInv(r[0], cfg);
    } else {
      RunInv(r, cfg, acts, k - 1);
      StepKeepsInv(r[k - 1], cfg, acts[k - 1]);
      assert r[k - 1 + 1] == Next(r[k - 1], cfg, acts[k - 1]);
    }
  }

  lemma SplitWorkers(s: State)
    ensures |s.workers| == |Live(s)| + |Leaving(s)| && |Working(s)| <= |Live(s)|
  {
    assert s.workers.Keys == Live(s) + Leaving(s) && Live(s) !! Leaving(s);
    assert Live(s) == Working(s) + (Live(s) - Working(s));
    assert |s.workers| == |s.workers.Keys|;
  }

  /** The counters stay in range and count what they say, although the manager acts on stale copies
      taken under two different mutexes, and slots are cleared under none. */
  lemma CountersHold(r: seq<State>, cfg: Config, acts: seq<Action>, k: nat)
    requires Run(r, cfg, acts) && k < |r|
    ensures cfg.minNum <= r[k].liveNum <= cfg.maxNum && r[k].liveNum == |Live(r[k])|
    ensures 0 <= r[k].busyNum <= r[k].liveNum && r[k].busyNum == |Working(r[k])|
    ensures Occupied(r[k].threadIDs) == r[k].liveNum + |Leaving(r[k])|
    ensures |r[k].threadIDs| == MAX && forall i :: cfg.maxNum <= i < MAX ==> r[k].threadIDs[i] == 0
  {
    RunInv(r, cfg, acts, k);
    SplitWorkers(r[k]);
  }

  /** A worker told to go always finds its own slot: `threadDestroy` never leaves one behind. */
  lemma DestroyFindsSlot(r: seq<State>, cfg: Config, acts: seq<Action>, k: nat, t: Tid)
    requires Run(r, cfg, acts) && k < |r| && t in r[k].workers && r[k].workers[t].Destroying?
    ensures exists i :: r[k].workers[t].i <= i < cfg.maxNum && i < |r[k].threadIDs| && r[k].threadIDs[i] == t
  {
    RunInv(r, cfg, acts, k);
    var i :| SlotOf(r[k], cfg, t, i);
  }

  /** The ring is a FIFO queue shared by all callers and workers: what was submitted is what was taken,
      in order, followed by what is queued; and each task taken is finished or held by exactly the one
      worker that took it, so shrinking the pool loses nothing. */
  lemma FifoHolds(r: seq<State>, cfg: Config, acts: seq<Action>, k: nat)
    requires Run(r, cfg, acts) && k < |r|
    ensures RingInv(r[k].ring, cfg.capacity)
    ensures r[k].submitted == Tasks(r[k].taken) + Contents(r[k].ring, cfg.capacity)
    ensures r[k].ring.rear == (r[k].ring.front + r[k].ring.size) % cfg.capacity
    ensures forall n :: 0 <= n < |r[k].taken| ==>
              (n in r[k].done <==> HandOf(r[k], r[k].taken[n].worker) != Has(r[k].taken[n].task, n))
    ensures forall n, t :: 0 <= n < |r[k].taken| && HandOf(r[k], t).Has? && HandOf(r[k], t).n == n ==>
              t == r[k].taken[n].worker
  {
    RunInv(r, cfg, acts, k);
    AtIsMod(r[k].ring.front, r[k].ring.size, cfg.capacity);
  }

  // ---------------------------------------------------------------- how fast the pool grows and shrinks

  ghost function One(b: bool): nat {
    if b then 1 else 0
  }

  ghost predicate Decides(s: State, s': State, create: bool) {
    if create then !s.manager.Creating? && s'.manager.Creating? else !s.manager.Signalling? && s'.manager.Signalling?
  }

  /** Threads the manager may still create in this round. */
  ghost function Credit(s: State): nat {
    if s.manager.Creating? && s.manager.counter <= NUMBER then NUMBER - s.manager.counter else 0
  }

  lemma StepChurns(s: State, cfg: Config, a: Action)
    requires Enabled(s, cfg, a) && s.exitNum >= 0
    ensures var s' := Next(s, cfg, a);
            && -1 <= s'.liveNum - s.liveNum <= 1
            && One(s'.liveNum > s.liveNum) + Credit(s') <= Credit(s) + NUMBER * One(Decides(s, s', true))
            && One(s'.liveNum < s.liveNum) + s'.exitNum <= s.exitNum + NUMBER * One(Decides(s, s', false))
  {
  }

  /** Steps so far that created a worker, that let one go, and that decided to do so. */
  ghost function Grown(r: seq<State>): nat {
    if |r| <= 1 then 0 else Grown(r[..|r| - 1]) + One(r[|r| - 1].liveNum > r[|r| - 2].liveNum)
  }

  ghost function Shrunk(r: seq<State>): nat {
    if |r| <= 1 then 0 else Shrunk(r[..|r| - 1]) + One(r[|r| - 1].liveNum < r[|r| - 2].liveNum)
  }

  ghost function Decisions(r: seq<State>, create: bool): nat {
    if |r| <= 1 then 0 else Decisions(r[..|r| - 1], create) + One(Decides(r[|r| - 2], r[|r| - 1], create))
  }

  /** Each decision of the manager creates at most two workers and lets at most two go, over the whole run,
      however many wake up on its signals; and only such steps change `liveNum`. */
  lemma {:induction false} ChurnIsBounded(r: seq<State>, cfg: Config, acts: seq<Action>)
    requires Run(r, cfg, acts)
    ensures r[|r| - 1].liveNum == cfg.minNum + Grown(r) - Shrunk(r)
    ensures Grown(r) + Credit(r[|r| - 1]) <= NUMBER * Decisions(r, true)
    ensures Shrunk(r) + r[|r| - 1].exitNum <= NUMBER * Decisions(r, false)
    decreases |r|
  {
    hide Next, Enabled, Init, Inv, Credit, Decides;
    if |r| == 1 {
      ChurnStarts(r[0], cfg);
    } else {
      var n := |r| - 1;
      ChurnIsBounded(r[..n], cfg, acts[..n - 1]);
      ChurnAt(r, cfg, acts, n - 1);
      assert r[..n][n - 1] == r[n - 1];
    }
  }

  lemma ChurnStarts(s: State, cfg: Config)
    requires Init(s, cfg)
    ensures s.liveNum == cfg.minNum && Credit(s) == 0 && s.exitNum == 0
  {
  }

  lemma ChurnAt(r: seq<State>, cfg: Config, acts: seq<Action>, k: nat)
    requires Run(r, cfg, acts) && k < |acts|
    ensures var s, s' := r[k], r[k + 1];
            && -1 <= s'.liveNum - s.liveNum <= 1
            && One(s'.liveNum > s.liveNum) + Credit(s') <= Credit(s) + NUMBER * One(Decides(s, s', true))
            && One(s'.liveNum < s.liveNum) + s'.exitNum <= s.exitNum + NUMBER * One(Decides(s, s', false))
  {
    RunInv(r, cfg, acts, k);
    StepChurns(r[k], cfg, acts[k]);
  }

  // ---------------------------------------------------------------- no task is lost on the way in

  /** The tasks of all calls of `threadPoolAdd`, from the actions. */
  ghost function Brought(acts: seq<Action>): multiset<Task> {
    if acts == [] then multiset{}
    else
      var a := acts[|acts| - 1];
      Brought(acts[..|acts| - 1]) + if a.CallAdd? then multiset{a.task} else multiset{}
  }

  ghost function InCall(pc: ClientPc): multiset<Task> {
    if pc == Outside then multiset{} else multiset{pc.task}
  }

  /** The tasks of callers that have not returned. */
  ghost function Pending(cs: seq<ClientPc>): multiset<Task> {
    if cs == [] then multiset{} else InCall(cs[0]) + Pending(cs[1..])
  }

  lemma AddBoth(a: multiset<Task>, p: multiset<Task>, x: multiset<Task>, q: multiset<Task>, y: multiset<Task>)
    requires p + x == q + y
    ensures (a + p) + x == (a + q) + y
  {
    assert (a + p) + x == a + (p + x) && (a + q) + y == a + (q + y);
  }

  lemma SwapFirst(a: multiset<Task>, b: multiset<Task>, p: multiset<Task>)
    ensures (a + p) + b == (b + p) + a
  {
  }

  lemma {:induction false} PendingUpdate(cs: seq<ClientPc>, c: nat, pc: ClientPc)
    requires c < |cs|
    ensures Pending(cs[c := pc]) + InCall(cs[c]) == Pending(cs) + InCall(pc)
  {
    hide InCall;
    if c == 0 {
      assert cs[0 := pc][1..] == cs[1..];
      SwapFirst(InCall(pc), InCall(cs[0]), Pending(cs[1..]));
    } else {
      assert cs[c := pc][1..] == cs[1..][c - 1 := pc];
      PendingUpdate(cs[1..], c - 1, pc);
      AddBoth(InCall(cs[0]), Pending(cs[1..][c - 1 := pc]), InCall(cs[c]), Pending(cs[1..]), InCall(pc));
    }
  }

  lemma Cancel(p: multiset<Task>, q: multiset<Task>, x: multiset<Task>)
    requires p + x == q + x
    ensures p == q
  {
    assert p == (p + x) - x && q == (q + x) - x;
  }

  /** A call begins, ends, or goes on with the same task. */
  lemma PendingBegins(cs: seq<ClientPc>, c: nat, task: Task)
    requires c < |cs| && cs[c] == Outside
    ensures Pending(cs[c := Adding(task)]) == Pending(cs) + multiset{task}
  {
    PendingUpdate(cs, c, Adding(task));
    assert Pending(cs[c := Adding(task)]) + multiset{} == Pending(cs[c := Adding(task)]);
  }

  lemma PendingEnds(cs: seq<ClientPc>, c: nat)
    requires c < |cs| && cs[c] != Outside
    ensures Pending(cs[c := Outside]) + multiset{cs[c].task} == Pending(cs)
  {
    PendingUpdate(cs, c, Outside);
    assert Pending(cs) + multiset{} == Pending(cs);
  }

  lemma PendingGoesOn(cs: seq<ClientPc>, c: nat, pc: ClientPc)
    requires c < |cs| && cs[c] != Outside && pc != Outside && pc.task == cs[c].task
    ensures Pending(cs[c := pc]) == Pending(cs)
  {
    PendingUpdate(cs, c, pc);
    Cancel(Pending(cs[c := pc]), Pending(cs), InCall(cs[c]));
  }

  lemma SignalKeepsPending(cs: seq<ClientPc>, c: nat)
    ensures Pending(SignalClient(cs, c)) == Pending(cs)
  {
    if c < |cs| && cs[c].WaitFull? {
      PendingGoesOn(cs, c, WokenFull(cs[c].task));
    }
  }

  lemma AddBrings(s: State, cfg: Config, a: Action)
    requires Enabled(s, cfg, a) && a.CallAdd?
    ensures var s' := Next(s, cfg, a);
            multiset(s'.submitted) + Pending(s'.clients)
            == multiset(s.submitted) + Pending(s.clients) + multiset{a.task}
  {
    hide Pending;
    PendingBegins(s.clients, a.c, a.task);
  }

  lemma TryBrings(s: State, cfg: Config, a: Action)
    requires Enabled(s, cfg, a) && a.TryAdd?
    ensures var s' := Next(s, cfg, a);
            multiset(s'.submitted) + Pending(s'.clients) == multiset(s.submitted) + Pending(s.clients)
  {
    hide Pending, Push, SignalWorker;
    var s', pc := Next(s, cfg, a), s.clients[a.c];
    if s'.clients[a.c] == Outside {
      PendingEnds(s.clients, a.c);
      Delivered(s.submitted, pc.task, Pending(s.clients), Pending(s'.clients));
    } else {
      PendingGoesOn(s.clients, a.c, s'.clients[a.c]);
    }
  }

  lemma OthersBring(s: State, cfg: Config, a: Action)
    requires Enabled(s, cfg, a) && !a.CallAdd? && !a.TryAdd?
    ensures var s' := Next(s, cfg, a);
            s'.submitted == s.submitted && Pending(s'.clients) == Pending(s.clients)
  {
    hide Pending, Pop, SignalWorker, SignalClient;
    if a.WakeClient? {
      PendingGoesOn(s.clients, a.c, WokenFull(s.clients[a.c].task));
    } else if a.WorkerEnter? || a.WorkerResume? {
      SignalKeepsPending(s.clients, a.c);
    }
  }

  lemma StepBrings(s: State, cfg: Config, a: Action)
    requires Enabled(s, cfg, a)
    ensures var s' := Next(s, cfg, a);
            multiset(s'.submitted) + Pending(s'.clients)
            == multiset(s.submitted) + Pending(s.clients) + if a.CallAdd? then multiset{a.task} else multiset{}
  {
    hide Next, Enabled, Pending;
    if a.CallAdd? {
      AddBrings(s, cfg, a);
    } else if a.TryAdd? {
      TryBrings(s, cfg, a);
    } else {
      OthersBring(s, cfg, a);
    }
  }

  lemma Delivered(submitted: seq<Task>, x: Task, p: multiset<Task>, p': multiset<Task>)
    requires p' + multiset{x} == p
    ensures multiset(submitted + [x]) + p' == multiset(submitted) + p
  {
    assert multiset(submitted + [x]) == multiset(submitted) + multiset{x};
  }

  /** Every task that `threadPoolAdd` was called with is submitted, or its call has not returned. By `FifoHolds`
      a submitted task is queued, in the hands of a worker or done. */
  lemma {:induction false} NoTaskLost(r: seq<State>, cfg: Config, acts: seq<Action>)
    requires Run(r, cfg, acts)
    ensures Brought(acts) == multiset(r[|acts|].submitted) + Pending(r[|acts|].clients)
    decreases |acts|
  {
    hide Init, Next, Enabled, Brought, Pending;
    if acts == [] {
      NothingBrought(r[0], cfg);
    } else {
      var n := |acts| - 1;
      NoTaskLost(r[..n + 1], cfg, acts[..n]);
      BroughtAt(r, cfg, acts, n);
      assert acts[..n + 1] == acts;
    }
  }

  lemma NothingBrought(s: State, cfg: Config)
    requires Init(s, cfg)
    ensures Brought([]) == multiset(s.submitted) + Pending(s.clients)
  {
    NobodyPending(s.clients);
  }

  lemma {:induction false} NobodyPending(cs: seq<ClientPc>)
    requires forall c :: 0 <= c < |cs| ==> cs[c] == Outside
    ensures Pending(cs) == multiset{}
  {
    if cs != [] {
      NobodyPending(cs[1..]);
    }
  }

  lemma BroughtAt(r: seq<State>, cfg: Config, acts: seq<Action>, n: nat)
    requires Run(r, cfg, acts) && n < |acts|
    ensures var brought := if acts[n].CallAdd? then multiset{acts[n].task} else multiset{};
            && Brought(acts[..n + 1]) == Brought(acts[..n]) + brought
            && multiset(r[n + 1].submitted) + Pending(r[n + 1].clients)
               == multiset(r[n].submitted) + Pending(r[n].clients) + brought
  {
    StepBrings(r[n], cfg, acts[n]);
    assert acts[..n + 1][..n] == acts[..n];
  }

  // ---------------------------------------------------------------- each part running alone

  /** A caller that holds the mutex returns exactly if the ring has room, with its task at the end of the queue;
      otherwise it waits and nothing else has changed. */
  lemma AddAlone(s: State, cfg: Config, c: nat, t: Tid)
    requires Inv(s, cfg) && Enabled(s, cfg, TryAdd(c, t))
    ensures var s', task, cap := Next(s, cfg, TryAdd(c, t)), s.clients[c].task, cfg.capacity;
            && (s'.clients[c] == Outside <==> s.ring.size < cap)
            && (s.ring.size < cap ==>
                  RingInv(s'.ring, cap) && Contents(s'.ring, cap) == Contents(s.ring, cap) + [task])
            && (s.ring.size == cap ==> s' == s.(clients := s.clients[c := WaitFull(task)]))
  {
    if s.ring.size < cfg.capacity {
      PushIsAppend(s.ring, cfg.capacity, s.clients[c].task);
    }
  }

  ghost function Wakes(s: State, t: Tid, c: nat): Action
    requires t in s.workers
  {
    if s.workers[t] == Top then WorkerEnter(t, c) else WorkerResume(t, c)
  }

  lemma FrontTaken(r: Ring, cap: nat)
    requires RingInv(r, cap) && r.size > 0
    ensures RingInv(Pop(r), cap) && Contents(r, cap)[0] == r.taskQ[r.front]
    ensures Contents(Pop(r), cap) == Contents(r, cap)[1..]
  {
    PopIsTail(r, cap);
  }

  /** At the loop head: sleep over an empty queue, otherwise take the task in front. */
  lemma Takes(s: State, cfg: Config, t: Tid, c: nat)
    requires RingInv(s.ring, cfg.capacity) && PoolFree(s) && t in s.workers
    requires s.workers[t] == Top || (s.workers[t] == Woken && s.exitNum == 0)
    ensures Enabled(s, cfg, Wakes(s, t, c))
    ensures Next(s, cfg, Wakes(s, t, c))
            == if s.ring.size == 0 then s.(workers := s.workers[t := Waiting])
               else
                 var task := s.ring.taskQ[s.ring.front];
                 s.(ring := Pop(s.ring), clients := SignalClient(s.clients, c),
                    workers := s.workers[t := Took(task, |s.taken|)], taken := s.taken + [Taken(t, task)])
  {
  }

  /** The task taken is run. */
  ghost predicate RanFront(s: State, end: State, cfg: Config, t: Tid)
    requires RingInv(s.ring, cfg.capacity)
  {
    && s.ring.size > 0
    && end.workers == s.workers[t := Top] && end.done == s.done + {|s.taken|}
    && end.taken == s.taken + [Taken(t, Contents(s.ring, cfg.capacity)[0])]
    && RingInv(end.ring, cfg.capacity)
    && Contents(end.ring, cfg.capacity) == Contents(s.ring, cfg.capacity)[1..]
    && end.busyNum == s.busyNum && end.liveNum == s.liveNum && end.exitNum == s.exitNum
  }

  /** A worker at the loop head with an empty queue goes to sleep; otherwise, running alone, it takes the oldest
      task, runs it and is back at the loop head three steps later. */
  lemma WorkerAlone(s: State, cfg: Config, t: Tid, c: nat) returns (end: State)
    requires RingInv(s.ring, cfg.capacity) && PoolFree(s) && t in s.workers
    requires s.workers[t] == Top || (s.workers[t] == Woken && s.exitNum == 0)
    ensures Enabled(s, cfg, Wakes(s, t, c))
    ensures var s1 := Next(s, cfg, Wakes(s, t, c));
            if s.ring.size == 0 then end == s1 == s.(workers := s.workers[t := Waiting])
            else
              && Enabled(s1, cfg, StartTask(t)) && Enabled(Next(s1, cfg, StartTask(t)), cfg, FinishTask(t))
              && end == Next(Next(s1, cfg, StartTask(t)), cfg, FinishTask(t)) && RanFront(s, end, cfg, t)
  {
    Takes(s, cfg, t, c);
    var s1 := Next(s, cfg, Wakes(s, t, c));
    hide Wakes, Next, Enabled, RingInv, Contents, Pop, SignalClient;
    if s.ring.size == 0 {
      end := s1;
    } else {
      FrontTaken(s.ring, cfg.capacity);
      TaskRuns(s1, cfg, t);
      end := Next(Next(s1, cfg, StartTask(t)), cfg, FinishTask(t));
      assert end.workers == s.workers[t := Top];
    }
  }

  lemma TaskRuns(s: State, cfg: Config, t: Tid)
    requires t in s.workers && s.workers[t].Took?
    ensures Enabled(s, cfg, StartTask(t)) && Enabled(Next(s, cfg, StartTask(t)), cfg, FinishTask(t))
    ensures Next(Next(s, cfg, StartTask(t)), cfg, FinishTask(t))
            == s.(workers := s.workers[t := Top], done := s.done + {s.workers[t].n})
  {
  }

  /** A worker woken while exits are asked for uses one up, and leaves exactly if there are more than `minNum`. */
  lemma ExitTaken(s: State, cfg: Config, t: Tid, c: nat)
    requires Inv(s, cfg) && Enabled(s, cfg, WorkerResume(t, c)) && s.exitNum > 0
    ensures var s' := Next(s, cfg, WorkerResume(t, c));
            && s'.exitNum == s.exitNum - 1
            && (s'.workers[t] == Destroying(0) <==> s.liveNum > cfg.minNum)
            && s'.liveNum == s.liveNum - One(s.liveNum > cfg.minNum)
  {
  }

  /** `n` steps of a leaving worker's search, with nobody else moving. */
  ghost predicate Searches(s: State, cfg: Config, t: Tid, n: nat, end: State)
    decreases n
  {
    if n == 0 then end == s
    else Enabled(s, cfg, ScanOwnSlot(t)) && Searches(Next(s, cfg, ScanOwnSlot(t)), cfg, t, n - 1, end)
  }

  /** A leaving worker, running alone, clears its own slot and is gone within `maxNum` steps. */
  lemma {:induction false} LeavesAlone(s: State, cfg: Config, t: Tid, slot: nat) returns (end: State)
    requires SlotsInv(s, cfg) && t in s.workers && s.workers[t].Destroying? && SlotOf(s, cfg, t, slot)
    ensures Searches(s, cfg, t, slot - s.workers[t].i + 1, end)
    ensures end == s.(workers := s.workers - {t}, threadIDs := s.threadIDs[slot := 0])
    decreases slot - s.workers[t].i
  {
    var i, s' := s.workers[t].i, Next(s, cfg, ScanOwnSlot(t));
    if i == slot {
      end := s';
      assert Searches(s', cfg, t, 0, end);
    } else {
      assert s.threadIDs[i] != t;
      end := LeavesAlone(s', cfg, t, slot);
      assert end.workers == s.workers - {t};
    }
  }

  // ---------------------------------------------------------------- a round of the manager

  ghost function ManagerMove(m: ManagerPc, t: Tid): Action {
    match m
    case Asleep => SnapshotPool
    case GotPool(_, _) => SnapshotBusy
    case GotBusy(_, _, _) => DecideCreate
    case Creating(_, _, _, _) => CreateStep(t)
    case Shrink(_, _) => DecideShrink
    case Signalling(_) => SignalShrink(t)
  }

  /** The manager runs alone until it sleeps again; step k uses `ids[k]` where it needs a thread. */
  ghost predicate UntilAsleep(s: State, cfg: Config, ids: seq<Tid>, end: State)
    decreases |ids|
  {
    if s.manager == Asleep then end == s
    else ids != [] && Enabled(s, cfg, ManagerMove(s.manager, ids[0]))
         && UntilAsleep(Next(s, cfg, ManagerMove(s.manager, ids[0])), cfg, ids[1..], end)
  }

  /** Ids for new threads: not in use, and no two alike. */
  ghost predicate FreshIds(s: State, ids: seq<Tid>) {
    && (forall t <- ids :: t != 0 && t !in s.workers)
    && (forall i, j :: 0 <= i < j < |ids| ==> ids[i] != ids[j])
  }

  /** Empty slots from `i` on. */
  ghost function FreeFrom(ids: seq<Tid>, i: nat, max: nat): nat
    decreases max - i
  {
    if i >= max || i >= |ids| then 0 else One(ids[i] == 0) + FreeFrom(ids, i + 1, max)
  }

  ghost function Min(x: int, y: int): int {
    if x < y then x else y
  }

  lemma {:induction false} FreeAndOccupied(ids: seq<Tid>, i: nat, max: nat)
    requires i <= max <= |ids| && forall k :: max <= k < |ids| ==> ids[k] == 0
    ensures FreeFrom(ids, i, max) + Occupied(ids[i..]) == max - i
    decreases max - i
  {
    if i == max {
      AllEmpty(ids[i..]);
    } else {
      FreeAndOccupied(ids, i + 1, max);
      assert ids[i..][1..] == ids[i + 1..];
    }
  }

  lemma {:induction false} AllEmpty(ids: seq<Tid>)
    requires forall k :: 0 <= k < |ids| ==> ids[k] == 0
    ensures Occupied(ids) == 0
  {
    if ids != [] {
      AllEmpty(ids[1..]);
    }
  }

  lemma {:induction false} FreeShrinks(ids: seq<Tid>, i: nat, j: nat, max: nat)
    requires i <= j
    ensures FreeFrom(ids, j, max) <= FreeFrom(ids, i, max)
    decreases j - i
  {
    if i < j {
      FreeShrinks(ids, i + 1, j, max);
    }
  }

  /** With `maxNum` workers alive no slot is free, and there are never more free slots than places left. */
  lemma FreePlaces(s: State, cfg: Config, i: nat)
    requires Inv(s, cfg) && i <= cfg.maxNum
    ensures FreeFrom(s.threadIDs, i, cfg.maxNum) <= cfg.maxNum - s.liveNum
  {
    FreeAndOccupied(s.threadIDs, 0, cfg.maxNum);
    assert s.threadIDs[0..] == s.threadIDs;
    FreeShrinks(s.threadIDs, 0, i, cfg.maxNum);
    SplitWorkers(s);
  }

  lemma {:induction false} FreeElsewhere(ids: seq<Tid>, k: nat, t: Tid, i: nat, max: nat)
    requires k < i && k < |ids|
    ensures FreeFrom(ids[k := t], i, max) == FreeFrom(ids, i, max)
    decreases max - i
  {
    if i < max && i < |ids| {
      FreeElsewhere(ids, k, t, i + 1, max);
    }
  }

  /** What a round leaves as it found it. */
  ghost predicate SameButManager(s: State, end: State) {
    && end.ring == s.ring && end.clients == s.clients && end.submitted == s.submitted && end.taken == s.taken
    && end.done == s.done && end.busyNum == s.busyNum
  }

  lemma SignalStep(s: State, cfg: Config, ids: seq<Tid>) returns (end: State)
    requires s.manager.Signalling? && s.manager.n <= NUMBER && |ids| >= NUMBER - s.manager.n + 1
    ensures UntilAsleep(s, cfg, ids, end) && SameButManager(s, end) && end.manager == Asleep
    ensures end.liveNum == s.liveNum && end.exitNum == s.exitNum && end.threadIDs == s.threadIDs
    decreases NUMBER - s.manager.n
  {
    var s' := Next(s, cfg, SignalShrink(ids[0]));
    if s.manager.n < NUMBER {
      end := SignalStep(s', cfg, ids[1..]);
    } else {
      end := s';
    }
  }

  /** The second half of a round: exits are asked for exactly if fewer than half the workers were busy and more
      than `minNum` alive, by the manager's copies. */
  lemma ShrinkAlone(s: State, cfg: Config, ids: seq<Tid>) returns (end: State)
    requires s.manager.Shrink? && |ids| >= NUMBER + 2
    ensures UntilAsleep(s, cfg, ids, end) && SameButManager(s, end) && end.manager == Asleep
    ensures end.liveNum == s.liveNum && end.threadIDs == s.threadIDs
    ensures var m := s.manager;
            end.exitNum == if m.busyNum * 2 < m.liveNum && m.liveNum > cfg.minNum then NUMBER else s.exitNum
  {
    var s' := Next(s, cfg, DecideShrink);
    if s'.manager == Asleep {
      end := s';
    } else {
      end := SignalStep(s', cfg, ids[1..]);
    }
  }

  lemma FreshRest(s: State, s': State, ids: seq<Tid>)
    requires ids != [] && FreshIds(s, ids) && forall t <- s'.workers :: t in s.workers || t == ids[0]
    ensures FreshIds(s', ids[1..])
  {
    forall t <- ids[1..]
      ensures t != 0 && t !in s'.workers
    {
      var i :| 0 <= i < |ids[1..]| && ids[1..][i] == t;
      assert ids[1..][i] == ids[i + 1] && t in ids;
    }
  }

  lemma UntilFirst(s: State, cfg: Config, ids: seq<Tid>, end: State)
    requires s.manager != Asleep && ids != [] && Enabled(s, cfg, ManagerMove(s.manager, ids[0]))
    requires UntilAsleep(Next(s, cfg, ManagerMove(s.manager, ids[0])), cfg, ids[1..], end)
    ensures UntilAsleep(s, cfg, ids, end)
  {
  }

  /** One turn of the creation loop. */
  ghost predicate TurnIs(s: State, s': State, cfg: Config, t: Tid)
    requires s.manager.Creating?
  {
    var m := s.manager;
    && SameButManager(s, s') && s'.exitNum == s.exitNum
    && if m.i >= cfg.maxNum || m.i >= |s.threadIDs| || m.counter >= NUMBER || s.liveNum >= cfg.maxNum then
         s'.manager == Shrink(m.liveNum, m.busyNum) && s'.liveNum == s.liveNum
       else if s.threadIDs[m.i] == 0 then
         && s'.manager == m.(i := m.i + 1, counter := m.counter + 1) && s'.liveNum == s.liveNum + 1
         && s'.threadIDs == s.threadIDs[m.i := t] && s'.workers == s.workers[t := Top]
       else
         && s'.manager == m.(i := m.i + 1) && s'.liveNum == s.liveNum
         && s'.threadIDs == s.threadIDs && s'.workers == s.workers
  }

  lemma CreateStepIs(s: State, cfg: Config, t: Tid)
    requires s.manager.Creating? && t != 0 && t !in s.workers
    ensures Enabled(s, cfg, CreateStep(t)) && TurnIs(s, Next(s, cfg, CreateStep(t)), cfg, t)
  {
  }

  /** The new worker, if any, uses up the first id. */
  lemma TurnFresh(s: State, s': State, cfg: Config, ids: seq<Tid>)
    requires s.manager.Creating? && ids != [] && FreshIds(s, ids) && TurnIs(s, s', cfg, ids[0])
    ensures s'.manager.Creating? ==> FreshIds(s', ids[1..])
  {
    hide FreshIds;
    if s'.manager.Creating? {
      FreshRest(s, s', ids);
    }
  }

  /** A turn creates what it takes off the count of what is left. */
  lemma TurnCounts(s: State, s': State, cfg: Config, t: Tid)
    requires s.manager.Creating? && TurnIs(s, s', cfg, t) && t != 0
    requires s.manager.i <= cfg.maxNum <= |s.threadIDs| && s.manager.counter <= NUMBER
    requires FreeFrom(s.threadIDs, s.manager.i, cfg.maxNum) <= cfg.maxNum - s.liveNum
    ensures var m := s.manager;
            if s'.manager.Shrink? then
              s'.manager == Shrink(m.liveNum, m.busyNum) && s'.liveNum == s.liveNum && ToCreate(s, cfg) == 0
            else
              && s'.manager.Creating? && s'.manager.i == m.i + 1 <= cfg.maxNum && s'.manager.counter <= NUMBER
              && s'.manager.liveNum == m.liveNum && s'.manager.busyNum == m.busyNum
              && s'.liveNum + ToCreate(s', cfg) == s.liveNum + ToCreate(s, cfg)
  {
    LeftToCreate(s.threadIDs, t, s.manager.i, s.manager.counter, s.liveNum, cfg.maxNum);
    hide FreeFrom, Min, SameButManager;
  }

  /** What is left to create, before and after one turn. */
  lemma LeftToCreate(ids: seq<Tid>, t: Tid, i: nat, counter: nat, live: int, max: nat)
    requires i <= max <= |ids| && counter <= NUMBER && t != 0 && FreeFrom(ids, i, max) <= max - live
    ensures var left := Min(NUMBER - counter, FreeFrom(ids, i, max));
            if i >= max || counter >= NUMBER || live >= max then left == 0
            else if ids[i] == 0 then left == 1 + Min(NUMBER - (counter + 1), FreeFrom(ids[i := t], i + 1, max))
            else left == Min(NUMBER - counter, FreeFrom(ids, i + 1, max))
  {
    if i < max {
      FreeElsewhere(ids, i, t, i + 1, max);
    }
  }

  /** How many workers the loop will still create. */
  ghost function ToCreate(s: State, cfg: Config): int
    requires s.manager.Creating?
  {
    Min(NUMBER - s.manager.counter, FreeFrom(s.threadIDs, s.manager.i, cfg.maxNum))
  }

  /** One turn, with what it leaves to create. */
  lemma CreateTurn(s: State, cfg: Config, ids: seq<Tid>)
    requires Inv(s, cfg) && s.manager.Creating? && s.manager.i <= cfg.maxNum && s.manager.counter <= NUMBER
    requires FreshIds(s, ids) && ids != []
    ensures Enabled(s, cfg, CreateStep(ids[0]))
    ensures var s', m := Next(s, cfg, CreateStep(ids[0])), s.manager;
            && SameButManager(s, s') && s'.exitNum == s.exitNum && Inv(s', cfg)
            && if s'.manager.Shrink? then
                 s'.manager == Shrink(m.liveNum, m.busyNum) && s'.liveNum == s.liveNum && ToCreate(s, cfg) == 0
               else
                 && s'.manager.Creating? && s'.manager.i == m.i + 1 <= cfg.maxNum && s'.manager.counter <= NUMBER
                 && s'.manager.liveNum == m.liveNum && s'.manager.busyNum == m.busyNum
                 && s'.liveNum + ToCreate(s', cfg) == s.liveNum + ToCreate(s, cfg)
                 && FreshIds(s', ids[1..])
  {
    FirstIsFresh(s, ids);
    FreePlaces(s, cfg, s.manager.i);
    TableSize(s, cfg);
    hide *;
    var s' := Next(s, cfg, CreateStep(ids[0]));
    CreateStepIs(s, cfg, ids[0]);
    StepKeepsInv(s, cfg, CreateStep(ids[0]));
    TurnFresh(s, s', cfg, ids);
    TurnCounts(s, s', cfg, ids[0]);
    TurnKeeps(s, s', cfg, ids[0]);
  }

  lemma FirstIsFresh(s: State, ids: seq<Tid>)
    requires FreshIds(s, ids) && ids != []
    ensures ids[0] != 0 && ids[0] !in s.workers
  {
  }

  lemma TurnKeeps(s: State, s': State, cfg: Config, t: Tid)
    requires s.manager.Creating? && TurnIs(s, s', cfg, t)
    ensures SameButManager(s, s') && s'.exitNum == s.exitNum
  {
  }

  lemma SameTwice(a: State, b: State, c: State)
    requires SameButManager(a, b) && SameButManager(b, c)
    ensures SameButManager(a, c)
  {
  }

  /** The creation loop: one worker for each free slot, up to two. */
  lemma {:induction false} CreateAlone(s: State, cfg: Config, ids: seq<Tid>) returns (end: State)
    requires Inv(s, cfg) && s.manager.Creating? && s.manager.i <= cfg.maxNum && s.manager.counter <= NUMBER
    requires FreshIds(s, ids) && |ids| >= cfg.maxNum - s.manager.i + NUMBER + 3
    ensures UntilAsleep(s, cfg, ids, end) && SameButManager(s, end) && end.manager == Asleep
    ensures var m := s.manager;
            && end.liveNum == s.liveNum + ToCreate(s, cfg)
            && end.exitNum == if m.busyNum * 2 < m.liveNum && m.liveNum > cfg.minNum then NUMBER else s.exitNum
    decreases cfg.maxNum - s.manager.i
  {
    CreateTurn(s, cfg, ids);
    hide Inv, Next, Enabled, UntilAsleep, FreshIds, ToCreate, SameButManager;
    var s' := Next(s, cfg, CreateStep(ids[0]));
    if s'.manager.Shrink? {
      end := ShrinkAlone(s', cfg, ids[1..]);
    } else {
      end := CreateAlone(s', cfg, ids[1..]);
    }
    SameTwice(s, s', end);
    UntilFirst(s, cfg, ids, end);
  }

  lemma TableSize(s: State, cfg: Config)
    requires Inv(s, cfg)
    ensures |s.threadIDs| == MAX >= cfg.maxNum
  {
  }

  lemma SnapshotsAre(s: State, cfg: Config)
    requires s.manager == Asleep && s.liveNum >= 0 && s.busyNum >= 0
    ensures var s1 := Next(s, cfg, SnapshotPool);
            && Enabled(s, cfg, SnapshotPool) && s1 == s.(manager := GotPool(s.ring.size, s.liveNum))
            && Enabled(s1, cfg, SnapshotBusy)
            && Next(s1, cfg, SnapshotBusy) == s.(manager := GotBusy(s.ring.size, s.liveNum, s.busyNum))
  {
  }

  lemma DecisionIs(s: State, cfg: Config)
    requires s.manager.GotBusy?
    ensures Enabled(s, cfg, DecideCreate)
    ensures var m := s.manager;
            Next(s, cfg, DecideCreate)
            == s.(manager := if m.queueSize > m.liveNum && m.liveNum < cfg.maxNum
                             then Creating(0, 0, m.liveNum, m.busyNum) else Shrink(m.liveNum, m.busyNum))
  {
  }

  /** The two snapshots and the first decision. */
  lemma RoundStarts(s: State, cfg: Config)
    requires Inv(s, cfg) && s.manager == Asleep
    ensures var s1 := Next(s, cfg, SnapshotPool);
            && Enabled(s, cfg, SnapshotPool) && s1.manager.GotPool? && Enabled(s1, cfg, SnapshotBusy)
            && var s2 := Next(s1, cfg, SnapshotBusy);
            && s2.manager.GotBusy? && Enabled(s2, cfg, DecideCreate)
            && Next(s2, cfg, DecideCreate)
               == s.(manager := if s.ring.size > s.liveNum && s.liveNum < cfg.maxNum
                                then Creating(0, 0, s.liveNum, s.busyNum) else Shrink(s.liveNum, s.busyNum))
            && Inv(Next(s2, cfg, DecideCreate), cfg)
  {
    CountersNatural(s, cfg);
    SnapshotsAre(s, cfg);
    hide Inv, Next, Enabled;
    var s1 := Next(s, cfg, SnapshotPool);
    var s2 := Next(s1, cfg, SnapshotBusy);
    DecisionIs(s2, cfg);
    StepKeepsInv(s, cfg, SnapshotPool);
    StepKeepsInv(s1, cfg, SnapshotBusy);
    StepKeepsInv(s2, cfg, DecideCreate);
  }

  /** A whole round of the manager running alone. If more tasks wait than workers live, and there is room, it
      creates a worker for each free slot, up to two; it asks for two exits exactly if fewer than half the workers
      are busy and more than `minNum` live; and it touches nothing else. */
  lemma RoundAlone(s: State, cfg: Config, ids: seq<Tid>) returns (end: State)
    requires Inv(s, cfg) && s.manager == Asleep && FreshIds(s, ids) && |ids| >= cfg.maxNum + NUMBER + 6
    ensures UntilAsleep(Next(s, cfg, SnapshotPool), cfg, ids, end) && SameButManager(s, end) && end.manager == Asleep
    ensures end.liveNum == s.liveNum + if s.ring.size > s.liveNum && s.liveNum < cfg.maxNum
                                       then Min(NUMBER, FreeFrom(s.threadIDs, 0, cfg.maxNum)) else 0
    ensures end.exitNum == if s.busyNum * 2 < s.liveNum && s.liveNum > cfg.minNum then NUMBER else s.exitNum
  {
    CountersNatural(s, cfg);
    RoundStarts(s, cfg);
    FreshLater(s, ids);
    hide Inv, Next, Enabled, UntilAsleep, FreshIds, FreeFrom;
    var s1 := Next(s, cfg, SnapshotPool);
    var s2 := Next(s1, cfg, SnapshotBusy);
    var s3 := Next(s2, cfg, DecideCreate);
    if s3.manager.Creating? {
      FreshSame(s, s3, ids[2..]);
      end := CreateAlone(s3, cfg, ids[2..]);
    } else {
      end := ShrinkAlone(s3, cfg, ids[2..]);
    }
    assert ids[1..][1..] == ids[2..];
    UntilFirst(s2, cfg, ids[1..], end);
    UntilFirst(s1, cfg, ids, end);
  }

  lemma FreshLater(s: State, ids: seq<Tid>)
    requires FreshIds(s, ids) && |ids| >= 2
    ensures FreshIds(s, ids[2..])
  {
    assert forall t <- ids[2..] :: t in ids;
    assert forall i :: 0 <= i < |ids[2..]| ==> ids[2..][i] == ids[i + 2];
  }

  lemma FreshSame(s: State, s': State, ids: seq<Tid>)
    requires FreshIds(s, ids) && s'.workers == s.workers
    ensures FreshIds(s', ids)
  {
  }

  lemma CountersNatural(s: State, cfg: Config)
    requires Inv(s, cfg)
    ensures s.liveNum >= 0 && s.busyNum >= 0
  {
  }
}
