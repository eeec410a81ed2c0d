/**
 * Wake-ups of the C thread pool. `threadPoolAdd` signals `notEmpty` once for each task, and a worker that is
 * told to exit may be the one that the signal wakes. How many tasks that can leave behind sleeping workers, and
 * for which configurations it can happen at all.
 *
 * Here `pthread_cond_signal` wakes a waiter whenever there is one.
 */
module CThreadPoolSignals {
  import opened Arith
  import opened CThreadPool

  ghost predicate Sleeps(s: State, t: Tid) {
    t in s.workers && s.workers[t] == Waiting
  }

  ghost predicate AnySleeps(s: State) {
    exists t :: Sleeps(s, t)
  }

  /** A step that signals `notEmpty` wakes somebody if anybody sleeps. */
  ghost predicate SignalWakes(s: State, a: Action) {
    a.TryAdd? || a.SignalShrink? ==> AnySleeps(s) ==> Sleeps(s, a.t)
  }

  ghost predicate SignalsWake(r: seq<State>, acts: seq<Action>)
    requires |r| == |acts| + 1
  {
    forall i :: 0 <= i < |acts| ==> SignalWakes(r[i], acts[i])
  }

  /** Workers on their way to the queue. */
  ghost function Lookers(s: State): set<Tid> {
    set t | t in s.workers && (s.workers[t] == Top || s.workers[t] == Woken)
  }

  /** A task waits, and so do workers, and no other worker is left but those on their way out. */
  ghost predicate Forgotten(s: State) {
    && s.ring.size > 0 && AnySleeps(s)
    && forall t <- s.workers :: s.workers[t] == Waiting || s.workers[t].Destroying?
  }

  // ---------------------------------------------------------------- how many tasks can be left behind

  /** While a worker sleeps, there is a worker on its way for each queued task, except for as many tasks as
      workers have been let go. */
  ghost predicate Covered(s: State, gone: nat) {
    AnySleeps(s) ==> s.ring.size <= |Lookers(s)| + gone
  }

  /** How one step moves the workers on their way. */
  lemma LookersEffect(s: State, cfg: Config, a: Action)
    requires RingInv(s.ring, cfg.capacity) && Enabled(s, cfg, a)
    ensures var s' := Next(s, cfg, a);
            match a
            case WorkerEnter(t, _) => Lookers(s') == Lookers(s) - {t} && t in Lookers(s)
            case WorkerResume(t, _) => Lookers(s') == Lookers(s) - {t} && t in Lookers(s)
            case WakeWorker(t) => Lookers(s') == Lookers(s) + {t} && t !in Lookers(s)
            case TryAdd(c, t) =>
              if s.ring.size < cfg.capacity && Sleeps(s, t) then Lookers(s') == Lookers(s) + {t} && t !in Lookers(s)
              else Lookers(s') == Lookers(s)
            case _ => Lookers(s) <= Lookers(s')
  {
  }

  /** How it moves the queue, and who sleeps. */
  lemma SleepersEffect(s: State, cfg: Config, a: Action)
    requires RingInv(s.ring, cfg.capacity) && Enabled(s, cfg, a)
    ensures var s' := Next(s, cfg, a);
            && (AnySleeps(s') ==> AnySleeps(s) || ((a.WorkerEnter? || a.WorkerResume?) && s'.ring.size == 0))
            && s'.ring.size == s.ring.size + One(a.TryAdd? && s.ring.size < cfg.capacity)
                               - One((a.WorkerEnter? || a.WorkerResume?) && s.ring.size > 0 && s'.liveNum == s.liveNum)
            && (s'.liveNum < s.liveNum ==> a.WorkerResume?)
  {
    var s' := Next(s, cfg, a);
    if t :| Sleeps(s', t) {
      assert Sleeps(s, t) || (a.WorkerEnter? || a.WorkerResume?);
    }
  }

  lemma StepKeepsCovered(s: State, cfg: Config, a: Action, gone: nat)
    requires RingInv(s.ring, cfg.capacity) && Enabled(s, cfg, a) && SignalWakes(s, a) && Covered(s, gone)
    ensures Covered(Next(s, cfg, a), gone + One(Next(s, cfg, a).liveNum < s.liveNum))
  {
    LookersEffect(s, cfg, a);
    SleepersEffect(s, cfg, a);
    hide Next, Enabled, RingInv, Lookers, AnySleeps, Sleeps;
    var s' := Next(s, cfg, a);
    if !(a.WorkerEnter? || a.WorkerResume? || a.WakeWorker? || a.TryAdd?) {
      SubsetSize(Lookers(s), Lookers(s'));
    }
  }

  /** In every run in which signals wake, the queued tasks that no worker is on its way for are, as long as a worker
      sleeps, no more than the workers let go so far. */
  lemma {:induction false} SleepersCovered(r: seq<State>, cfg: Config, acts: seq<Action>)
    requires Run(r, cfg, acts) && SignalsWake(r, acts)
    ensures Covered(r[|acts|], Shrunk(r))
    decreases |acts|
  {
    hide Next, Enabled, Covered, SignalWakes;
    if acts == [] {
      NobodySleeps(r[0], cfg);
    } else {
      var n := |acts| - 1;
      SleepersCovered(r[..n + 1], cfg, acts[..n]);
      CoveredAt(r, cfg, acts, n, Shrunk(r[..n + 1]));
      assert r[..|r| - 1] == r[..n + 1];
    }
  }

  lemma NobodySleeps(s: State, cfg: Config)
    requires Init(s, cfg)
    ensures Covered(s, 0)
  {
  }

  lemma CoveredAt(r: seq<State>, cfg: Config, acts: seq<Action>, k: nat, gone: nat)
    requires Run(r, cfg, acts) && SignalsWake(r, acts) && k < |acts| && Covered(r[k], gone)
    ensures Covered(r[k + 1], gone + One(r[k + 1].liveNum < r[k].liveNum))
  {
    RunInv(r, cfg, acts, k);
    assert SignalWakes(r[k], acts[k]);
    StepKeepsCovered(r[k], cfg, acts[k], gone);
  }

  // ---------------------------------------------------------------- configurations that never forget a task

  /** The pool cannot grow: it is already full, or the ring cannot hold more tasks than it has workers. */
  predicate NeverGrows(cfg: Config) {
    cfg.minNum == cfg.maxNum || cfg.capacity <= cfg.minNum
  }

  /** Neither the pool nor what the manager has copied of it is larger than it was made. */
  ghost predicate Settled(s: State, cfg: Config) {
    && s.liveNum == cfg.minNum && !s.manager.Creating?
    && (s.manager.GotPool? || s.manager.GotBusy? ==>
          s.manager.queueSize <= cfg.capacity && s.manager.liveNum == cfg.minNum)
  }

  lemma StepKeepsSettled(s: State, cfg: Config, a: Action)
    requires NeverGrows(cfg) && RingInv(s.ring, cfg.capacity) && Enabled(s, cfg, a) && Settled(s, cfg)
    ensures Settled(Next(s, cfg, a), cfg)
  {
  }

  lemma {:induction false} StaysSettled(r: seq<State>, cfg: Config, acts: seq<Action>)
    requires Run(r, cfg, acts) && NeverGrows(cfg)
    ensures Settled(r[|acts|], cfg) && Shrunk(r) == 0
    decreases |acts|
  {
    hide Next, Enabled;
    if acts != [] {
      var n := |acts| - 1;
      StaysSettled(r[..n + 1], cfg, acts[..n]);
      RunInv(r, cfg, acts, n);
      StepKeepsSettled(r[n], cfg, acts[n]);
      assert r[n + 1] == Next(r[n], cfg, acts[n]) && r[..|r| - 1] == r[..n + 1];
    }
  }

  /** No lost wake-up: in a pool that cannot grow, no task is ever queued with every worker asleep. */
  lemma NoneForgotten(r: seq<State>, cfg: Config, acts: seq<Action>)
    requires Run(r, cfg, acts) && SignalsWake(r, acts) && NeverGrows(cfg)
    ensures !Forgotten(r[|acts|])
  {
    SleepersCovered(r, cfg, acts);
    StaysSettled(r, cfg, acts);
    hide Next, Enabled, Shrunk, Init, SignalsWake;
    if Forgotten(r[|acts|]) {
      NobodyLooks(r[|acts|]);
    }
  }

  lemma NobodyLooks(s: State)
    requires Forgotten(s)
    ensures Lookers(s) == {}
  {
  }

  // ---------------------------------------------------------------- and those that can

  /** From `s`, the steps `acts`, with signals that wake, lead to `end`. */
  ghost predicate Path(s: State, cfg: Config, acts: seq<Action>, end: State)
    decreases |acts|
  {
    if acts == [] then s == end
    else Enabled(s, cfg, acts[0]) && SignalWakes(s, acts[0]) && Path(Next(s, cfg, acts[0]), cfg, acts[1..], end)
  }

  lemma PathFirst(s: State, cfg: Config, a: Action, acts: seq<Action>, end: State)
    requires Enabled(s, cfg, a) && SignalWakes(s, a) && Path(Next(s, cfg, a), cfg, acts, end)
    ensures Path(s, cfg, [a] + acts, end)
  {
    assert ([a] + acts)[1..] == acts;
  }

  lemma {:induction false} PathThen(s: State, cfg: Config, acts: seq<Action>, mid: State, more: seq<Action>, end: State)
    requires Path(s, cfg, acts, mid) && Path(mid, cfg, more, end)
    ensures Path(s, cfg, acts + more, end)
    decreases |acts|
  {
    if acts == [] {
      assert acts + more == more;
    } else {
      PathThen(Next(s, cfg, acts[0]), cfg, acts[1..], mid, more, end);
      assert (acts + more)[1..] == acts[1..] + more;
    }
  }

  /** A path from an initial state is a run. */
  lemma {:induction false} PathIsRun(s: State, cfg: Config, acts: seq<Action>, end: State) returns (r: seq<State>)
    requires Path(s, cfg, acts, end)
    ensures |r| == |acts| + 1 && r[0] == s && r[|acts|] == end && SignalsWake(r, acts)
    ensures forall i :: 0 <= i < |acts| ==> Enabled(r[i], cfg, acts[i]) && r[i + 1] == Next(r[i], cfg, acts[i])
    decreases |acts|
  {
    hide Next, Enabled, SignalWakes;
    if acts == [] {
      r := [s];
    } else {
      var rest := PathIsRun(Next(s, cfg, acts[0]), cfg, acts[1..], end);
      r := [s] + rest;
      forall i | 0 <= i < |acts|
        ensures Enabled(r[i], cfg, acts[i]) && r[i + 1] == Next(r[i], cfg, acts[i]) && SignalWakes(r[i], acts[i])
      {
        if i > 0 {
          assert acts[i] == acts[1..][i - 1] && r[i] == rest[i - 1] && r[i + 1] == rest[i - 1 + 1];
        }
      }
    }
  }

  /** Every worker is at the loop head, `n` tasks are queued, and nobody else is doing anything. */
  ghost predicate Still(s: State, n: nat) {
    && s.manager == Asleep && s.ring.size == n && AllTop(s)
    && |s.clients| > 0 && forall c :: 0 <= c < |s.clients| ==> s.clients[c] == Outside
  }

  ghost predicate AllTop(s: State) {
    forall t <- s.workers :: s.workers[t] == Top
  }

  ghost predicate Quiet(s: State, cfg: Config, n: nat) {
    Inv(s, cfg) && Still(s, n)
  }

  lemma NobodyWorks(s: State, cfg: Config)
    requires Inv(s, cfg) && AllTop(s)
    ensures s.busyNum == 0 && s.liveNum == |s.workers| >= 1 && Occupied(s.threadIDs) == s.liveNum && s.workers != map[]
  {
    SplitWorkers(s);
    assert Working(s) == {} && Leaving(s) == {};
    assert s.liveNum >= 1;
  }

  /** The two steps of a call of `threadPoolAdd` before any worker sleeps. */
  lemma AddSteps(s: State, cfg: Config, n: nat, task: Task) returns (s1: State, end: State)
    requires RingInv(s.ring, cfg.capacity) && Still(s, n) && n < cfg.capacity
    ensures Enabled(s, cfg, CallAdd(0, task)) && s1 == Next(s, cfg, CallAdd(0, task))
    ensures Enabled(s1, cfg, TryAdd(0, 0)) && end == Next(s1, cfg, TryAdd(0, 0))
    ensures SignalWakes(s, CallAdd(0, task)) && SignalWakes(s1, TryAdd(0, 0))
    ensures Still(end, n + 1) && end.liveNum == s.liveNum && end.exitNum == s.exitNum && end.workers == s.workers
  {
    s1 := Next(s, cfg, CallAdd(0, task));
    end := Next(s1, cfg, TryAdd(0, 0));
  }

  lemma AddOne(s: State, cfg: Config, n: nat, task: Task) returns (acts: seq<Action>, end: State)
    requires Quiet(s, cfg, n) && n < cfg.capacity
    ensures Path(s, cfg, acts, end) && Quiet(end, cfg, n + 1)
    ensures end.liveNum == s.liveNum && end.exitNum == s.exitNum && end.workers == s.workers
  {
    RingOf(s, cfg);
    hide Inv, Still, Next, Enabled, RingInv, Path, SignalWakes;
    var s1;
    s1, end := AddSteps(s, cfg, n, task);
    StepKeepsInv(s, cfg, CallAdd(0, task));
    StepKeepsInv(s1, cfg, TryAdd(0, 0));
    PathNowhere(end, cfg);
    PathFirst(s1, cfg, TryAdd(0, 0), [], end);
    PathFirst(s, cfg, CallAdd(0, task), [TryAdd(0, 0)] + [], end);
    acts := [CallAdd(0, task)] + ([TryAdd(0, 0)] + []);
  }

  lemma RingOf(s: State, cfg: Config)
    requires Inv(s, cfg)
    ensures RingInv(s.ring, cfg.capacity) && GoodConfig(cfg)
  {
  }

  lemma {:induction false} AddMany(s: State, cfg: Config, n: nat, m: nat, task: Task)
    returns (acts: seq<Action>, end: State)
    requires Quiet(s, cfg, n) && n <= m <= cfg.capacity
    ensures Path(s, cfg, acts, end) && Quiet(end, cfg, m)
    ensures end.liveNum == s.liveNum && end.exitNum == s.exitNum && end.workers == s.workers
    decreases m - n
  {
    hide Quiet, Path;
    if n == m {
      acts, end := [], s;
      PathNowhere(s, cfg);
    } else {
      var mid, more;
      acts, mid := AddOne(s, cfg, n, task);
      more, end := AddMany(mid, cfg, n + 1, m, task);
      PathThen(s, cfg, acts, mid, more, end);
      acts := acts + more;
    }
  }

  lemma PathNowhere(s: State, cfg: Config)
    ensures Path(s, cfg, [], s)
  {
  }

  /** The three steps in which a worker takes and runs a task. */
  lemma TaskSteps(s: State, cfg: Config, n: nat, t: Tid) returns (s1: State, s2: State, end: State)
    requires RingInv(s.ring, cfg.capacity) && Still(s, n) && n > 0 && t in s.workers
    ensures Enabled(s, cfg, WorkerEnter(t, 0)) && s1 == Next(s, cfg, WorkerEnter(t, 0))
    ensures Enabled(s1, cfg, StartTask(t)) && s2 == Next(s1, cfg, StartTask(t))
    ensures Enabled(s2, cfg, FinishTask(t)) && end == Next(s2, cfg, FinishTask(t))
    ensures Still(end, n - 1) && end.liveNum == s.liveNum && end.exitNum == s.exitNum && end.workers == s.workers
  {
    s1 := Next(s, cfg, WorkerEnter(t, 0));
    s2 := Next(s1, cfg, StartTask(t));
    end := Next(s2, cfg, FinishTask(t));
    assert end.workers == s.workers;
  }

  lemma PathOfThree(s: State, cfg: Config, a: Action, b: Action, c: Action, s1: State, s2: State, end: State)
    requires Enabled(s, cfg, a) && SignalWakes(s, a) && s1 == Next(s, cfg, a)
    requires Enabled(s1, cfg, b) && SignalWakes(s1, b) && s2 == Next(s1, cfg, b)
    requires Enabled(s2, cfg, c) && SignalWakes(s2, c) && end == Next(s2, cfg, c)
    ensures Path(s, cfg, [a] + ([b] + ([c] + [])), end)
  {
    hide Next, Enabled, SignalWakes, Path;
    PathNowhere(end, cfg);
    PathFirst(s2, cfg, c, [], end);
    PathFirst(s1, cfg, b, [c] + [], end);
    PathFirst(s, cfg, a, [b] + ([c] + []), end);
  }

  /** One task taken and run by one worker, the others not moving. */
  lemma TakeOne(s: State, cfg: Config, n: nat, t: Tid) returns (acts: seq<Action>, end: State)
    requires Quiet(s, cfg, n) && n > 0 && t in s.workers
    ensures Path(s, cfg, acts, end) && Quiet(end, cfg, n - 1)
    ensures end.liveNum == s.liveNum && end.exitNum == s.exitNum && end.workers == s.workers
  {
    RingOf(s, cfg);
    hide Inv, Still, Next, Enabled, RingInv, Path, AnySleeps;
    var s1, s2;
    s1, s2, end := TaskSteps(s, cfg, n, t);
    PathOfThree(s, cfg, WorkerEnter(t, 0), StartTask(t), FinishTask(t), s1, s2, end);
    StepKeepsInv(s, cfg, WorkerEnter(t, 0));
    StepKeepsInv(s1, cfg, StartTask(t));
    StepKeepsInv(s2, cfg, FinishTask(t));
    acts := [WorkerEnter(t, 0)] + ([StartTask(t)] + ([FinishTask(t)] + []));
  }

  lemma {:induction false} TakeAll(s: State, cfg: Config, n: nat, t: Tid) returns (acts: seq<Action>, end: State)
    requires Quiet(s, cfg, n) && t in s.workers
    ensures Path(s, cfg, acts, end) && Quiet(end, cfg, 0)
    ensures end.liveNum == s.liveNum && end.exitNum == s.exitNum && end.workers == s.workers
    decreases n
  {
    hide Quiet, Path;
    if n == 0 {
      acts, end := [], s;
      PathNowhere(s, cfg);
    } else {
      var mid, more;
      acts, mid := TakeOne(s, cfg, n, t);
      more, end := TakeAll(mid, cfg, n - 1, t);
      PathThen(s, cfg, acts, mid, more, end);
      acts := acts + more;
    }
  }

  /** A manager's step when no worker sleeps wakes none, and may add one at the loop head. */
  lemma ManagerStep(s: State, cfg: Config, t: Tid)
    requires AllTop(s) && Enabled(s, cfg, ManagerMove(s.manager, t))
    ensures AllTop(Next(s, cfg, ManagerMove(s.manager, t))) && SignalWakes(s, ManagerMove(s.manager, t))
  {
  }

  lemma {:induction false} UntilPath(s: State, cfg: Config, ids: seq<Tid>, end: State) returns (acts: seq<Action>)
    requires Inv(s, cfg) && AllTop(s) && UntilAsleep(s, cfg, ids, end)
    ensures Path(s, cfg, acts, end) && Inv(end, cfg) && AllTop(end)
    decreases |ids|
  {
    hide Next, Enabled, Inv, Path, SignalWakes, ManagerMove, AllTop;
    if s.manager == Asleep {
      acts := [];
      PathNowhere(s, cfg);
    } else {
      var a := ManagerMove(s.manager, ids[0]);
      ManagerStep(s, cfg, ids[0]);
      StepKeepsInv(s, cfg, a);
      var more := UntilPath(Next(s, cfg, a), cfg, ids[1..], end);
      PathFirst(s, cfg, a, more, end);
      acts := [a] + more;
    }
  }

  lemma {:induction false} Above(ts: set<Tid>) returns (b: Tid)
    ensures forall t <- ts :: t < b
    decreases |ts|
  {
    if ts == {} {
      b := 0;
    } else {
      var t :| t in ts;
      b := Above(ts - {t});
      b := if t < b then b else t + 1;
      assert forall u <- ts :: u == t || u in ts - {t};
    }
  }

  lemma SomeFresh(s: State, n: nat) returns (ids: seq<Tid>)
    ensures FreshIds(s, ids) && |ids| == n
  {
    var b := Above(s.workers.Keys);
    ids := seq(n, i => b + 1 + i);
    forall t <- ids
      ensures t != 0 && t !in s.workers
    {
      var i :| 0 <= i < n && ids[i] == t;
    }
  }

  /** A whole round of the manager while every worker is at the loop head. */
  lemma QuietRound(s: State, cfg: Config, n: nat) returns (acts: seq<Action>, end: State)
    requires Quiet(s, cfg, n)
    ensures Path(s, cfg, acts, end) && Quiet(end, cfg, n)
    ensures end.liveNum == s.liveNum + if n > s.liveNum && s.liveNum < cfg.maxNum
                                       then Min(NUMBER, FreeFrom(s.threadIDs, 0, cfg.maxNum)) else 0
    ensures end.exitNum == if s.liveNum > cfg.minNum then NUMBER else s.exitNum
  {
    NobodyWorks(s, cfg);
    RoundBegins(s, cfg);
    hide Inv, UntilAsleep, FreeFrom, FreshIds, AllTop, Next, Enabled, Path, Min;
    var ids := SomeFresh(s, cfg.maxNum + NUMBER + 6);
    end := RoundAlone(s, cfg, ids);
    var more := UntilPath(Next(s, cfg, SnapshotPool), cfg, ids, end);
    PathFirst(s, cfg, SnapshotPool, more, end);
    acts := [SnapshotPool] + more;
  }

  lemma RoundBegins(s: State, cfg: Config)
    requires Inv(s, cfg) && AllTop(s) && s.manager == Asleep
    ensures Enabled(s, cfg, SnapshotPool) && SignalWakes(s, SnapshotPool)
    ensures Inv(Next(s, cfg, SnapshotPool), cfg) && AllTop(Next(s, cfg, SnapshotPool))
  {
    StepKeepsInv(s, cfg, SnapshotPool);
    hide Inv;
  }

  /** With every worker in place and room for another, there is a free slot. */
  lemma RoomForOne(s: State, cfg: Config, n: nat)
    requires Quiet(s, cfg, n) && s.liveNum < cfg.maxNum
    ensures FreeFrom(s.threadIDs, 0, cfg.maxNum) == cfg.maxNum - s.liveNum
  {
    NobodyWorks(s, cfg);
    FreeAndOccupied(s.threadIDs, 0, cfg.maxNum);
    assert s.threadIDs[0..] == s.threadIDs;
  }

  /** Over an empty queue: every worker sleeps or is at the loop head, and nobody else is doing anything. */
  ghost predicate Nodding(s: State) {
    && s.manager == Asleep && s.ring.size == 0
    && (forall t <- s.workers :: s.workers[t] == Top || s.workers[t] == Waiting)
    && |s.clients| > 0 && s.clients[0] == Outside
  }

  ghost predicate Dozing(s: State, cfg: Config) {
    Inv(s, cfg) && Nodding(s)
  }

  ghost function AtTop(s: State): set<Tid> {
    set t | t in s.workers && s.workers[t] == Top
  }

  lemma Nod(s: State, cfg: Config, t: Tid)
    requires Nodding(s) && t in AtTop(s)
    ensures Enabled(s, cfg, WorkerEnter(t, 0)) && SignalWakes(s, WorkerEnter(t, 0))
    ensures Next(s, cfg, WorkerEnter(t, 0)) == s.(workers := s.workers[t := Waiting])
    ensures var s' := Next(s, cfg, WorkerEnter(t, 0)); Nodding(s') && AtTop(s') == AtTop(s) - {t}
  {
  }

  lemma Doze(s: State, cfg: Config, t: Tid)
    requires Dozing(s, cfg) && t in AtTop(s)
    ensures Enabled(s, cfg, WorkerEnter(t, 0)) && SignalWakes(s, WorkerEnter(t, 0))
    ensures var s' := Next(s, cfg, WorkerEnter(t, 0));
            && s' == s.(workers := s.workers[t := Waiting])
            && Dozing(s', cfg) && AtTop(s') == AtTop(s) - {t}
  {
    hide Inv, Nodding, Next, Enabled, AtTop, SignalWakes;
    Nod(s, cfg, t);
    StepKeepsInv(s, cfg, WorkerEnter(t, 0));
  }

  lemma {:induction false} AllDoze(s: State, cfg: Config) returns (acts: seq<Action>, end: State)
    requires Dozing(s, cfg)
    ensures Path(s, cfg, acts, end) && Dozing(end, cfg) && AtTop(end) == {}
    ensures end.liveNum == s.liveNum && end.exitNum == s.exitNum && end.workers.Keys == s.workers.Keys
    decreases |AtTop(s)|
  {
    hide Dozing, Path, Next, Enabled, SignalWakes, AtTop;
    if AtTop(s) == {} {
      acts, end := [], s;
      PathNowhere(s, cfg);
    } else {
      var t :| t in AtTop(s);
      Doze(s, cfg, t);
      InWorkers(s, t);
      var s' := Next(s, cfg, WorkerEnter(t, 0));
      var more;
      more, end := AllDoze(s', cfg);
      PathFirst(s, cfg, WorkerEnter(t, 0), more, end);
      acts := [WorkerEnter(t, 0)] + more;
    }
  }

  lemma InWorkers(s: State, t: Tid)
    requires t in AtTop(s)
    ensures t in s.workers
  {
  }

  /** With every worker asleep and an exit pending, a task is added: the worker it wakes leaves. */
  lemma WokenToLeave(s: State, cfg: Config, t: Tid, u: Tid, task: Task) returns (acts: seq<Action>, end: State)
    requires RingInv(s.ring, cfg.capacity) && Nodding(s) && AtTop(s) == {}
    requires s.exitNum > 0 && s.liveNum > cfg.minNum && t in s.workers && u in s.workers && t != u
    ensures Path(s, cfg, acts, end) && Forgotten(end) && end.manager == Asleep
  {
    forall w <- s.workers
      ensures s.workers[w] == Waiting
    {
      assert w !in AtTop(s);
    }
    var s1 := Next(s, cfg, CallAdd(0, task));
    var s2 := Next(s1, cfg, TryAdd(0, t));
    end := Next(s2, cfg, WorkerResume(t, 0));
    assert Sleeps(s1, t) && Sleeps(end, u);
    PathOfThree(s, cfg, CallAdd(0, task), TryAdd(0, t), WorkerResume(t, 0), s1, s2, end);
    acts := [CallAdd(0, task)] + ([TryAdd(0, t)] + ([WorkerResume(t, 0)] + []));
  }

  lemma TwoWorkers(s: State, cfg: Config) returns (t: Tid, u: Tid)
    requires Inv(s, cfg) && s.liveNum > cfg.minNum
    ensures t in s.workers && u in s.workers && t != u
  {
    SplitWorkers(s);
    var ts := s.workers.Keys;
    assert |ts| == |s.workers| >= 2;
    t :| t in ts;
    assert |ts - {t}| >= 1;
    u :| u in ts - {t};
  }

  function Created(cfg: Config): (ids: seq<Tid>)
    ensures |ids| == MAX
  {
    seq(MAX, i => if 0 <= i < cfg.minNum then i + 1 else 0)
  }

  /** What `threadPoolCreate` returns, with one caller about to come. */
  ghost function Start(cfg: Config, task: Task): State {
    State(Ring(seq(cfg.capacity, _ => task), 0, 0, 0), Created(cfg), cfg.minNum, 0, 0,
          map t <- Created(cfg) | t != 0 :: Top, [Outside], Asleep, [], [], {})
  }

  lemma StartsQuiet(cfg: Config, task: Task)
    requires GoodConfig(cfg)
    ensures Init(Start(cfg, task), cfg) && Quiet(Start(cfg, task), cfg, 0)
    ensures Start(cfg, task).liveNum == cfg.minNum
  {
    var s := Start(cfg, task);
    forall t
      ensures t in s.workers <==> 1 <= t <= cfg.minNum
    {
      if 1 <= t <= cfg.minNum {
        assert Created(cfg)[t - 1] == t;
      }
    }
    InitInv(Start(cfg, task), cfg);
  }

  /** In a pool that can grow, a wake-up can be lost: one task more than there are workers makes the manager create
      workers; when those tasks are done its next round asks for exits, at a moment when no worker sleeps; then all
      go to sleep, and the next task wakes a worker that leaves. */
  lemma WakeUpLost(cfg: Config, task: Task) returns (acts: seq<Action>, end: State)
    requires GoodConfig(cfg) && !NeverGrows(cfg)
    ensures Path(Start(cfg, task), cfg, acts, end) && Forgotten(end) && end.manager == Asleep
  {
    var n := cfg.minNum + 1;
    var s0 := Start(cfg, task);
    StartsQuiet(cfg, task);
    hide Quiet, Path, Start, Init, Inv;
    var a1, s1 := AddMany(s0, cfg, 0, n, task);
    RoomForOne(s1, cfg, n);
    var a2, s2 := QuietRound(s1, cfg, n);
    var a3, s3 := Emptied(s2, cfg, n);
    var a4, s4 := QuietRound(s3, cfg, 0);
    QuietDozes(s4, cfg);
    var a5, s5 := AllDoze(s4, cfg);
    var a6;
    a6, end := LastTask(s5, cfg, task);
    PathThen(s4, cfg, a5, s5, a6, end);
    PathThen(s3, cfg, a4, s4, a5 + a6, end);
    PathThen(s2, cfg, a3, s3, a4 + (a5 + a6), end);
    PathThen(s1, cfg, a2, s2, a3 + (a4 + (a5 + a6)), end);
    PathThen(s0, cfg, a1, s1, a2 + (a3 + (a4 + (a5 + a6))), end);
    acts := a1 + (a2 + (a3 + (a4 + (a5 + a6))));
  }

  lemma Emptied(s: State, cfg: Config, n: nat) returns (acts: seq<Action>, end: State)
    requires Quiet(s, cfg, n)
    ensures Path(s, cfg, acts, end) && Quiet(end, cfg, 0) && end.liveNum == s.liveNum && end.exitNum == s.exitNum
  {
    NobodyWorks(s, cfg);
    var t :| t in s.workers;
    acts, end := TakeAll(s, cfg, n, t);
  }

  lemma QuietDozes(s: State, cfg: Config)
    requires Quiet(s, cfg, 0)
    ensures Dozing(s, cfg)
  {
  }

  lemma LastTask(s: State, cfg: Config, task: Task) returns (acts: seq<Action>, end: State)
    requires Dozing(s, cfg) && AtTop(s) == {} && s.exitNum > 0 && s.liveNum > cfg.minNum
    ensures Path(s, cfg, acts, end) && Forgotten(end) && end.manager == Asleep
  {
    var t, u := TwoWorkers(s, cfg);
    RingOf(s, cfg);
    hide Inv, Nodding, AtTop, Path, Forgotten, RingInv;
    acts, end := WokenToLeave(s, cfg, t, u, task);
  }

  /** Some run of the pool leaves a task behind sleeping workers. */
  ghost predicate Forgets(cfg: Config, r: seq<State>, acts: seq<Action>) {
    Run(r, cfg, acts) && SignalsWake(r, acts) && Forgotten(r[|acts|])
  }

  /** A wake-up can be lost exactly if the pool may grow (`minNum < maxNum`) and its ring holds more tasks than it
      starts with workers (`minNum < capacity`). */
  lemma ForgetsExactlyWhen(cfg: Config, task: Task)
    requires GoodConfig(cfg)
    ensures (exists r, acts :: Forgets(cfg, r, acts)) <==> cfg.minNum < cfg.maxNum && cfg.minNum < cfg.capacity
  {
    if NeverGrows(cfg) {
      forall r, acts
        ensures !Forgets(cfg, r, acts)
      {
        if Run(r, cfg, acts) && SignalsWake(r, acts) {
          NoneForgotten(r, cfg, acts);
        }
      }
    } else {
      var acts, end := WakeUpLost(cfg, task);
      var r := PathIsRun(Start(cfg, task), cfg, acts, end);
      StartsQuiet(cfg, task);
      assert Forgets(cfg, r, acts);
    }
  }
}
