/**
 * The C++11 `ThreadPool` of ThreadPool_C_C++/ThreadPoll.hpp as a step machine: any number of
 * workers and of client threads calling `enqueue`, and one thread running the destructor.
 *
 * The mutex and the condition variable are explicit. `wait` releases the mutex and goes to sleep
 * in one step, wake-ups may be spurious, `notify_one` wakes an arbitrary sleeper (or nobody), and
 * a notification is a step of its own, after the mutex has been released.
 *
 * A task is named by its ticket, its position in the order in which `enqueue` accepted tasks.
 */
module ThreadPool {
  datatype WorkerPc = WantLock | Checking | Sleeping | Woken | Running(ticket: nat) | Exited
  datatype ClientPc = Outside | Enqueueing | Notifying
  datatype DtorPc = NotCalled | Stopping | Broadcasting | Joining(next: nat) | Destroyed
  datatype Holder = Nobody | Worker(w: nat) | Client(c: nat) | Dtor

  datatype State = State(
    workers: seq<WorkerPc>,
    clients: seq<ClientPc>,
    dtor: DtorPc,
    mutex: Holder,
    stop: bool,
    tasks: seq<nat>,      // tickets waiting in the queue
    accepted: nat,        // tasks accepted by enqueue so far
    taken: nat,           // tasks taken from the queue so far
    runs: seq<nat>)       // tickets in the order their task() call finished

  datatype Action =
    | WorkerLock(w: nat)
    | WorkerCheck(w: nat)
    | WorkerRun(w: nat)
    | SpuriousWake(w: nat)
    | ClientLock(c: nat)
    | ClientPush(c: nat)
    | NotifyOne(c: nat, w: nat)
    | DtorLock
    | DtorStop
    | NotifyAll
    | Join

  ghost predicate Init(s: State) {
    && |s.workers| > 0 && (forall w :: 0 <= w < |s.workers| ==> s.workers[w] == WantLock)
    && (forall c :: 0 <= c < |s.clients| ==> s.clients[c] == Outside)
    && s.dtor == NotCalled && s.mutex == Nobody && !s.stop
    && s.tasks == [] && s.accepted == 0 && s.taken == 0 && s.runs == []
  }

  ghost predicate AnySleeping(s: State) {
    exists w :: 0 <= w < |s.workers| && s.workers[w] == Sleeping
  }

  ghost predicate Enabled(s: State, a: Action) {
    match a
    case WorkerLock(w) => w < |s.workers| && s.mutex == Nobody && (s.workers[w] == WantLock || s.workers[w] == Woken)
    case WorkerCheck(w) => w < |s.workers| && s.workers[w] == Checking
    case WorkerRun(w) => w < |s.workers| && s.workers[w].Running?
    case SpuriousWake(w) => w < |s.workers| && s.workers[w] == Sleeping
    case ClientLock(c) => c < |s.clients| && s.clients[c] == Outside && s.mutex == Nobody
    case ClientPush(c) => c < |s.clients| && s.clients[c] == Enqueueing
    case NotifyOne(c, w) =>
      && c < |s.clients| && s.clients[c] == Notifying
      && (AnySleeping(s) ==> w < |s.workers| && s.workers[w] == Sleeping)
    case DtorLock => s.dtor == NotCalled && s.mutex == Nobody
    case DtorStop => s.dtor == Stopping
    case NotifyAll => s.dtor == Broadcasting
    case Join => s.dtor.Joining? && (s.dtor.next < |s.workers| ==> s.workers[s.dtor.next] == Exited)
  }

  ghost function Wake(pc: WorkerPc): WorkerPc {
    if pc == Sleeping then Woken else pc
  }

  ghost function Next(s: State, a: Action): State
    requires Enabled(s, a)
  {
    match a
    case WorkerLock(w) => s.(workers := s.workers[w := Checking], mutex := Worker(w))
    case WorkerCheck(w) =>
      if !s.stop && s.tasks == [] then
        s.(workers := s.workers[w := Sleeping], mutex := Nobody)
      else if s.tasks == [] then
        s.(workers := s.workers[w := Exited], mutex := Nobody)
      else
        s.(workers := s.workers[w := Running(s.tasks[0])], mutex := Nobody,
           tasks := s.tasks[1..], taken := s.taken + 1)
    case WorkerRun(w) =>
      s.(workers := s.workers[w := WantLock], runs := s.runs + [s.workers[w].ticket])
    case SpuriousWake(w) => s.(workers := s.workers[w := Woken])
    case ClientLock(c) => s.(clients := s.clients[c := Enqueueing], mutex := Client(c))
    case ClientPush(c) =>
      if s.stop then s.(clients := s.clients[c := Outside], mutex := Nobody)   // throws
      else
        s.(clients := s.clients[c := Notifying], mutex := Nobody,
           tasks := s.tasks + [s.accepted], accepted := s.accepted + 1)
    case NotifyOne(c, w) =>
      s.(clients := s.clients[c := Outside],
         workers := if AnySleeping(s) then s.workers[w := Woken] else s.workers)
    case DtorLock => s.(dtor := Stopping, mutex := Dtor)
    case DtorStop => s.(dtor := Broadcasting, mutex := Nobody, stop := true)
    case NotifyAll =>
      s.(dtor := Joining(0), workers := seq(|s.workers|, w requires 0 <= w < |s.workers| => Wake(s.workers[w])))
    case Join =>
      s.(dtor := if s.dtor.next < |s.workers| then Joining(s.dtor.next + 1) else Destroyed)
  }

  ghost predicate Run(r: seq<State>, acts: seq<Action>) {
    && |r| == |acts| + 1 && Init(r[0])
    && forall i :: 0 <= i < |acts| ==> Enabled(r[i], acts[i]) && r[i + 1] == Next(r[i], acts[i])
  }

  // ---------------------------------------------------------------- the invariant

  ghost predicate MutexInv(s: State) {
    && (forall w :: 0 <= w < |s.workers| ==> (s.workers[w] == Checking <==> s.mutex == Worker(w)))
    && (forall c :: 0 <= c < |s.clients| ==> (s.clients[c] == Enqueueing <==> s.mutex == Client(c)))
    && (s.dtor == Stopping <==> s.mutex == Dtor)
    && (s.mutex.Worker? ==> s.mutex.w < |s.workers|) && (s.mutex.Client? ==> s.mutex.c < |s.clients|)
  }

  /** Tickets leave the queue in the order they were accepted. */
  ghost predicate QueueInv(s: State) {
    && s.taken + |s.tasks| == s.accepted
    && forall i :: 0 <= i < |s.tasks| ==> s.tasks[i] == s.taken + i
  }

  /** No task finished twice, and no task finished that was not taken. */
  ghost predicate RunsInv(s: State) {
    && (forall i, j :: 0 <= i < j < |s.runs| ==> s.runs[i] != s.runs[j])
    && (forall k <- s.runs :: k < s.taken)
  }

  /** A task in a worker's hands is unfinished. */
  ghost predicate HandsBusy(s: State) {
    forall w :: 0 <= w < |s.workers| && s.workers[w].Running? ==>
      s.workers[w].ticket < s.taken && s.workers[w].ticket !in s.runs
  }

  /** It is in no other worker's hands. */
  ghost predicate HandsApart(s: State) {
    forall v, w :: 0 <= v < w < |s.workers| && s.workers[v].Running? && s.workers[w].Running? ==>
      s.workers[v].ticket != s.workers[w].ticket
  }

  ghost predicate HandsInv(s: State) {
    HandsBusy(s) && HandsApart(s)
  }

  ghost predicate InHand(s: State, k: nat) {
    exists w :: 0 <= w < |s.workers| && s.workers[w] == Running(k)
  }

  ghost predicate NoneForgotten(s: State) {
    forall k :: 0 <= k < s.taken ==> k in s.runs || InHand(s, k)
  }

  /** Workers leave only after the stop, over an empty queue, and none sleeps after the broadcast. */
  ghost predicate ExitInv(s: State) {
    && (s.stop <==> s.dtor.Broadcasting? || s.dtor.Joining? || s.dtor.Destroyed?)
    && (forall w :: 0 <= w < |s.workers| && s.workers[w] == Exited ==> s.stop && s.tasks == [])
    && (s.dtor.Joining? || s.dtor.Destroyed? ==> !AnySleeping(s))
  }

  /** Workers joined so far have left. */
  ghost predicate JoinInv(s: State) {
    && (s.dtor.Joining? ==> s.dtor.next <= |s.workers|)
    && (forall w :: 0 <= w < |s.workers| && s.dtor.Joining? && w < s.dtor.next ==> s.workers[w] == Exited)
    && (s.dtor.Destroyed? ==> forall w :: 0 <= w < |s.workers| ==> s.workers[w] == Exited)
  }

  ghost predicate StopInv(s: State) {
    ExitInv(s) && JoinInv(s)
  }

  ghost predicate Awake(pc: WorkerPc) {
    pc != Sleeping && pc != Exited
  }

  ghost predicate SomeoneAwake(s: State) {
    exists w :: 0 <= w < |s.workers| && Awake(s.workers[w])
  }

  ghost predicate SomeoneNotifying(s: State) {
    s.dtor == Broadcasting || exists c :: 0 <= c < |s.clients| && s.clients[c] == Notifying
  }

  /** No lost wake-up: work in the queue means a worker is up or a notification is on its way. */
  ghost predicate WakeInv(s: State) {
    s.tasks != [] ==> SomeoneAwake(s) || SomeoneNotifying(s)
  }

  /** A worker that will look at the queue before it sleeps or runs anything. */
  ghost predicate Looking(pc: WorkerPc) {
    pc == WantLock || pc == Checking || pc == Woken
  }

  ghost function LookingCount(ws: seq<WorkerPc>): nat {
    if ws == [] then 0 else (if Looking(ws[0]) then 1 else 0) + LookingCount(ws[1..])
  }

  ghost function NotifyingCount(cs: seq<ClientPc>): nat {
    if cs == [] then 0 else (if cs[0] == Notifying then 1 else 0) + NotifyingCount(cs[1..])
  }

  /** While any worker sleeps, each waiting task has a worker about to look or a notification of its own. */
  ghost predicate CoverInv(s: State) {
    AnySleeping(s) ==> |s.tasks| <= LookingCount(s.workers) + NotifyingCount(s.clients)
  }

  ghost predicate Inv(s: State) {
    && |s.workers| > 0 && MutexInv(s) && QueueInv(s) && RunsInv(s) && HandsInv(s) && NoneForgotten(s)
    && StopInv(s) && WakeInv(s) && CoverInv(s)
  }

  lemma StepKeepsMutex(s: State, a: Action)
    requires MutexInv(s) && Enabled(s, a)
    ensures MutexInv(Next(s, a))
  {
  }

  lemma StepKeepsQueue(s: State, a: Action)
    requires QueueInv(s) && Enabled(s, a)
    ensures QueueInv(Next(s, a))
  {
  }

  lemma StepKeepsRuns(s: State, a: Action)
    requires RunsInv(s) && HandsInv(s) && Enabled(s, a)
    ensures RunsInv(Next(s, a))
  {
  }

  lemma StepKeepsBusy(s: State, a: Action)
    requires QueueInv(s) && RunsInv(s) && HandsInv(s) && Enabled(s, a)
    ensures HandsBusy(Next(s, a))
  {
  }

  lemma StepKeepsApart(s: State, a: Action)
    requires QueueInv(s) && HandsInv(s) && Enabled(s, a)
    ensures HandsApart(Next(s, a))
  {
  }

  lemma StepKeepsHands(s: State, a: Action)
    requires QueueInv(s) && RunsInv(s) && HandsInv(s) && Enabled(s, a)
    ensures HandsInv(Next(s, a))
  {
    hide Next, Enabled, QueueInv, RunsInv, HandsBusy, HandsApart;
    StepKeepsBusy(s, a);
    StepKeepsApart(s, a);
  }

  lemma StepForgetsNone(s: State, a: Action)
    requires QueueInv(s) && NoneForgotten(s) && Enabled(s, a)
    ensures NoneForgotten(Next(s, a))
  {
    var s' := Next(s, a);
    forall k | 0 <= k < s'.taken
      ensures k in s'.runs || InHand(s', k)
    {
      if k == s.taken {
        assert s'.workers[a.w] == Running(k);
      } else if k !in s.runs {
        var w :| 0 <= w < |s.workers| && s.workers[w] == Running(k);
        assert s'.workers[w] == Running(k) || k == s'.runs[|s.runs|];
      }
    }
  }

  lemma StepKeepsExits(s: State, a: Action)
    requires MutexInv(s) && ExitInv(s) && Enabled(s, a)
    ensures ExitInv(Next(s, a))
  {
  }

  lemma StepKeepsJoins(s: State, a: Action)
    requires JoinInv(s) && Enabled(s, a)
    ensures JoinInv(Next(s, a))
  {
  }

  lemma StepKeepsStop(s: State, a: Action)
    requires MutexInv(s) && StopInv(s) && Enabled(s, a)
    ensures StopInv(Next(s, a))
  {
    hide Next, Enabled, ExitInv, JoinInv, MutexInv;
    StepKeepsExits(s, a);
    StepKeepsJoins(s, a);
  }

  lemma StepKeepsWake(s: State, a: Action)
    requires |s.workers| > 0 && StopInv(s) && WakeInv(s) && Enabled(s, a)
    ensures WakeInv(Next(s, a))
  {
    var s' := Next(s, a);
    if s'.tasks != [] {
      if a.ClientPush? && !s.stop {
        assert s'.clients[a.c] == Notifying;
      } else if a.WorkerLock? || a.WorkerCheck? || a.WorkerRun? || a.SpuriousWake? || (a.NotifyOne? && AnySleeping(s)) {
        assert Awake(s'.workers[a.w]);
      } else if a.NotifyOne? || a.NotifyAll? {
        assert Awake(s'.workers[0]);
      } else if SomeoneAwake(s) {
        var w :| 0 <= w < |s.workers| && Awake(s.workers[w]);
        assert Awake(s'.workers[w]);
      } else if s.dtor != Broadcasting {
        var c :| 0 <= c < |s.clients| && s.clients[c] == Notifying;
        assert s'.clients[c] == Notifying;
      }
    }
  }

  lemma {:induction false} LookingUpdate(ws: seq<WorkerPc>, w: nat, pc: WorkerPc)
    requires w < |ws|
    ensures LookingCount(ws[w := pc]) ==
            LookingCount(ws) - (if Looking(ws[w]) then 1 else 0) + (if Looking(pc) then 1 else 0)
  {
    if w == 0 {
      assert ws[0 := pc][1..] == ws[1..];
    } else {
      assert ws[w := pc][1..] == ws[1..][w - 1 := pc];
      LookingUpdate(ws[1..], w - 1, pc);
    }
  }

  lemma {:induction false} NotifyingUpdate(cs: seq<ClientPc>, c: nat, pc: ClientPc)
    requires c < |cs|
    ensures NotifyingCount(cs[c := pc]) ==
            NotifyingCount(cs) - (if cs[c] == Notifying then 1 else 0) + (if pc == Notifying then 1 else 0)
  {
    if c == 0 {
      assert cs[0 := pc][1..] == cs[1..];
    } else {
      assert cs[c := pc][1..] == cs[1..][c - 1 := pc];
      NotifyingUpdate(cs[1..], c - 1, pc);
    }
  }

  /** A worker falls asleep only over an empty queue. */
  lemma SleepersBefore(s: State, a: Action)
    requires Enabled(s, a) && AnySleeping(Next(s, a)) && !AnySleeping(s)
    ensures Next(s, a).tasks == []
  {
    var w :| 0 <= w < |Next(s, a).workers| && Next(s, a).workers[w] == Sleeping;
    assert w < |s.workers| ==> s.workers[w] != Sleeping;
  }

  /** How a step changes the two counts. */
  lemma CountsAfter(s: State, a: Action)
    requires Enabled(s, a)
    ensures var s' := Next(s, a);
            && (a.WorkerLock? || a.WorkerCheck? || a.WorkerRun? || a.SpuriousWake? ==>
                  LookingCount(s'.workers) == LookingCount(s.workers)
                    - (if Looking(s.workers[a.w]) then 1 else 0) + (if Looking(s'.workers[a.w]) then 1 else 0))
            && (a.NotifyOne? && AnySleeping(s) ==> LookingCount(s'.workers) == LookingCount(s.workers) + 1)
            && (a.ClientLock? || a.ClientPush? || a.NotifyOne? ==>
                  NotifyingCount(s'.clients) == NotifyingCount(s.clients)
                    - (if s.clients[a.c] == Notifying then 1 else 0) + (if s'.clients[a.c] == Notifying then 1 else 0))
  {
    var s' := Next(s, a);
    if a.WorkerLock? || a.WorkerCheck? || a.WorkerRun? || a.SpuriousWake? {
      LookingUpdate(s.workers, a.w, s'.workers[a.w]);
    } else if a.ClientLock? || a.ClientPush? || a.NotifyOne? {
      NotifyingUpdate(s.clients, a.c, s'.clients[a.c]);
      if a.NotifyOne? && AnySleeping(s) {
        LookingUpdate(s.workers, a.w, Woken);
      }
    }
  }

  lemma BroadcastWakesAll(s: State)
    requires Enabled(s, NotifyAll)
    ensures !AnySleeping(Next(s, NotifyAll))
  {
  }

  lemma StepKeepsCover(s: State, a: Action)
    requires CoverInv(s) && Enabled(s, a)
    ensures CoverInv(Next(s, a))
  {
    var s' := Next(s, a);
    if AnySleeping(s') {
      if !AnySleeping(s) {
        SleepersBefore(s, a);
      } else if a.NotifyAll? {
        BroadcastWakesAll(s);
      } else {
        hide LookingCount, NotifyingCount, AnySleeping;
        CountsAfter(s, a);
      }
    }
  }

  lemma StepKeepsInv(s: State, a: Action)
    requires Inv(s) && Enabled(s, a)
    ensures Inv(Next(s, a))
  {
    StepKeepsMutex(s, a);
    StepKeepsQueue(s, a);
    StepKeepsRuns(s, a);
    StepKeepsHands(s, a);
    StepForgetsNone(s, a);
    StepKeepsStop(s, a);
    StepKeepsWake(s, a);
    StepKeepsCover(s, a);
  }

  // ---------------------------------------------------------------- whole runs

  lemma {:induction false} RunInv(r: seq<State>, acts: seq<Action>, k: nat)
    requires Run(r, acts) && k < |r|
    ensures Inv(r[k])
  {
    if k > 0 {
      RunInv(r, acts, k - 1);
      StepKeepsInv(r[k - 1], acts[k - 1]);
      assert r[k - 1 + 1] == Next(r[k - 1], acts[k - 1]);
    }
  }

  /** While any worker sleeps, waiting tasks are no more than the workers about to look at the queue and the
      notifications on their way; a non-empty queue always has a worker awake or a notification pending; and
      once the destructor has broadcast, no worker sleeps again. */
  lemma NoLostWakeup(r: seq<State>, acts: seq<Action>, k: nat)
    requires Run(r, acts) && k < |r|
    ensures AnySleeping(r[k]) ==> |r[k].tasks| <= LookingCount(r[k].workers) + NotifyingCount(r[k].clients)
    ensures r[k].tasks != [] ==> SomeoneAwake(r[k]) || SomeoneNotifying(r[k])
    ensures r[k].dtor.Joining? || r[k].dtor.Destroyed? ==> !AnySleeping(r[k])
  {
    RunInv(r, acts, k);
  }

  /** Steps the pool itself can take: not a new call by a client, and not a spurious wake-up. */
  ghost predicate PoolStep(a: Action) {
    !a.ClientLock? && !a.DtorLock? && !a.SpuriousWake?
  }

  /** Nothing to do: every worker sleeps, the queue is empty and nobody is inside a call. */
  ghost predicate Quiescent(s: State) {
    && s.tasks == [] && s.dtor == NotCalled && s.mutex == Nobody
    && (forall w :: 0 <= w < |s.workers| ==> s.workers[w] == Sleeping)
    && (forall c :: 0 <= c < |s.clients| ==> s.clients[c] == Outside)
  }

  ghost predicate CanMove(s: State) {
    exists a :: PoolStep(a) && Enabled(s, a)
  }

  lemma WhoCanMove(s: State)
    requires Inv(s) && !Quiescent(s) && s.dtor != Destroyed
    ensures CanMove(s)
  {
    match s.mutex
    case Worker(w) => assert Enabled(s, WorkerCheck(w));
    case Client(c) => assert Enabled(s, ClientPush(c));
    case Dtor => assert Enabled(s, DtorStop);
    case Nobody =>
      if SomeoneAwake(s) {
        var w :| 0 <= w < |s.workers| && Awake(s.workers[w]);
        assert Enabled(s, if s.workers[w].Running? then WorkerRun(w) else WorkerLock(w));
      } else if c :| 0 <= c < |s.clients| && s.clients[c] == Notifying {
        var w: nat :| AnySleeping(s) ==> w < |s.workers| && s.workers[w] == Sleeping;
        assert Enabled(s, NotifyOne(c, w));
      } else if s.dtor == Broadcasting {
        assert Enabled(s, NotifyAll);
      } else if s.dtor.Joining? {
        assert Enabled(s, Join);
      } else {
        assert false;
      }
  }

  /** No reachable state is stuck: unless the pool is idle or destroyed, it can take a step of its own. */
  lemma NeverStuck(r: seq<State>, acts: seq<Action>, k: nat)
    requires Run(r, acts) && k < |r|
    ensures Quiescent(r[k]) || r[k].dtor == Destroyed || CanMove(r[k])
  {
    RunInv(r, acts, k);
    if !Quiescent(r[k]) && r[k].dtor != Destroyed {
      WhoCanMove(r[k]);
    }
  }

  /** Every accepted task has started or waits in acceptance order; none runs twice; and when the
      destructor returns, the tasks that ran are exactly the accepted ones, each once. */
  lemma ExactlyOnce(r: seq<State>, acts: seq<Action>, k: nat)
    requires Run(r, acts) && k < |r|
    ensures forall i, j :: 0 <= i < j < |r[k].runs| ==> r[k].runs[i] != r[k].runs[j]
    ensures forall t :: t in r[k].runs ==> t < r[k].taken <= r[k].accepted
    ensures r[k].taken + |r[k].tasks| == r[k].accepted
    ensures forall i :: 0 <= i < |r[k].tasks| ==> r[k].tasks[i] == r[k].taken + i
    ensures r[k].dtor == Destroyed ==> forall t :: 0 <= t < r[k].accepted ==> t in r[k].runs
  {
    RunInv(r, acts, k);
    var s := r[k];
    if s.dtor == Destroyed {
      assert s.workers[0] == Exited;
      forall t | 0 <= t < s.accepted
        ensures t in s.runs
      {
        assert !InHand(s, t);
      }
    }
  }

  // ---------------------------------------------------------------- no call is lost

  ghost function One(b: bool): nat {
    if b then 1 else 0
  }

  /** Calls of `enqueue` that got the mutex, from the actions. */
  ghost function Entered(acts: seq<Action>): nat {
    if acts == [] then 0 else Entered(acts[..|acts| - 1]) + One(acts[|acts| - 1].ClientLock?)
  }

  /** Calls that finished after the destructor had set `stop`. */
  ghost function Late(acts: seq<Action>): nat {
    if acts == [] then 0
    else
      var before, a := acts[..|acts| - 1], acts[|acts| - 1];
      Late(before) + One(a.ClientPush? && DtorStop in before)
  }

  ghost function Inside(s: State): nat {
    One(s.mutex.Client?)
  }

  lemma StepAccounts(s: State, a: Action)
    requires MutexInv(s) && Enabled(s, a)
    ensures var s' := Next(s, a);
            && One(a.ClientLock?) + s.accepted + Inside(s)
               == s'.accepted + Inside(s') + One(a.ClientPush? && s.stop)
            && (s'.stop <==> s.stop || a == DtorStop)
            && (s.stop ==> s'.accepted == s.accepted)
  {
  }

  /** Every call that ever got the mutex was accepted, is still inside, or finished after the stop; no other
      call is refused. */
  lemma {:induction false} CallsAccounted(r: seq<State>, acts: seq<Action>)
    requires Run(r, acts)
    ensures Entered(acts) == r[|acts|].accepted + Inside(r[|acts|]) + Late(acts)
    ensures r[|acts|].stop <==> DtorStop in acts
    decreases |acts|
  {
    hide Init, Next, Enabled, Entered, Late, Inside;
    if acts == [] {
      NothingAccounted(r[0]);
    } else {
      var n := |acts| - 1;
      CallsAccounted(r[..n + 1], acts[..n]);
      AccountAt(r, acts, n);
      assert acts == acts[..n] + [acts[n]] && acts[..n + 1] == acts;
    }
  }

  lemma NothingAccounted(s: State)
    requires Init(s)
    ensures Entered([]) == s.accepted + Inside(s) + Late([]) && !s.stop
  {
  }

  lemma AccountAt(r: seq<State>, acts: seq<Action>, n: nat)
    requires Run(r, acts) && n < |acts| && (r[n].stop <==> DtorStop in acts[..n])
    ensures Entered(acts[..n + 1]) - Entered(acts[..n]) ==
            (r[n + 1].accepted + Inside(r[n + 1]) + Late(acts[..n + 1]))
            - (r[n].accepted + Inside(r[n]) + Late(acts[..n]))
    ensures r[n + 1].stop <==> r[n].stop || acts[n] == DtorStop
  {
    RunInv(r, acts, n);
    StepAccounts(r[n], acts[n]);
    assert acts[..n + 1][..n] == acts[..n];
  }

  lemma {:induction false} NoneLate(acts: seq<Action>)
    requires DtorStop !in acts
    ensures Late(acts) == 0
  {
    if acts != [] {
      NoneLate(acts[..|acts| - 1]);
    }
  }

  /** While the destructor has not stopped the pool, every finished call has had its task accepted. */
  lemma RunningPoolAccepts(r: seq<State>, acts: seq<Action>)
    requires Run(r, acts) && DtorStop !in acts
    ensures Entered(acts) == r[|acts|].accepted + Inside(r[|acts|])
  {
    CallsAccounted(r, acts);
    NoneLate(acts);
  }

  lemma {:induction false} AcceptedStays(r: seq<State>, acts: seq<Action>, j: nat, k: nat)
    requires Run(r, acts) && j <= k < |r| && r[j].stop
    ensures r[k].stop && r[k].accepted == r[j].accepted
  {
    if k > j {
      AcceptedStays(r, acts, j, k - 1);
      RunInv(r, acts, k - 1);
      StepAccounts(r[k - 1], acts[k - 1]);
      assert r[k - 1 + 1] == Next(r[k - 1], acts[k - 1]);
    }
  }

  /** When the destructor stops the pool, it holds the mutex, and so nobody is inside a call. */
  lemma AtTheStop(r: seq<State>, acts: seq<Action>, j: nat)
    requires Run(r, acts) && j < |acts| && acts[j] == DtorStop
    ensures !r[j].stop && Inside(r[j]) == 0 && r[j + 1].stop && r[j + 1].accepted == r[j].accepted
  {
    RunInv(r, acts, j);
    StepAccounts(r[j], acts[j]);
  }

  /** When the destructor has returned, the tasks that have run are as many as the calls that had got the mutex
      before it set `stop`, and are exactly their tickets. */
  lemma CallsBeforeStopRun(r: seq<State>, acts: seq<Action>) returns (j: nat)
    requires Run(r, acts) && r[|acts|].dtor == Destroyed
    ensures j < |acts| && acts[j] == DtorStop && DtorStop !in acts[..j]
    ensures r[|acts|].accepted == Entered(acts[..j])
    ensures forall t :: 0 <= t < Entered(acts[..j]) ==> t in r[|acts|].runs
  {
    CallsAccounted(r, acts);
    RunInv(r, acts, |acts|);
    hide Next, Enabled, Init, Inv, Entered, Inside;
    j :| 0 <= j < |acts| && acts[j] == DtorStop;
    AtTheStop(r, acts, j);
    RunIsPrefix(r, acts, j);
    CallsAccounted(r[..j + 1], acts[..j]);
    RunningPoolAccepts(r[..j + 1], acts[..j]);
    AcceptedStays(r, acts, j + 1, |acts|);
    ExactlyOnce(r, acts, |acts|);
  }

  lemma RunIsPrefix(r: seq<State>, acts: seq<Action>, j: nat)
    requires Run(r, acts) && j <= |acts|
    ensures Run(r[..j + 1], acts[..j])
  {
  }

  // ---------------------------------------------------------------- every schedule settles

  /** How often a worker will still move for what it has in hand. */
  ghost function Need(pc: WorkerPc): nat {
    match pc
    case Running(_) => 3
    case WantLock => 2
    case Woken => 2
    case Checking => 1
    case Sleeping => 0
    case Exited => 0
  }

  ghost function NeedSum(ws: seq<WorkerPc>): nat {
    if ws == [] then 0 else Need(ws[0]) + NeedSum(ws[1..])
  }

  ghost function ClientNeed(pc: ClientPc): nat {
    match pc
    case Outside => 0
    case Notifying => 3
    case Enqueueing => 8
  }

  ghost function ClientSum(cs: seq<ClientPc>): nat {
    if cs == [] then 0 else ClientNeed(cs[0]) + ClientSum(cs[1..])
  }

  ghost function DtorNeed(s: State): nat {
    match s.dtor
    case NotCalled => 0
    case Stopping => 3 * |s.workers| + 3
    case Broadcasting => 3 * |s.workers| + 2
    case Joining(next) => if next <= |s.workers| then |s.workers| - next + 1 else 0
    case Destroyed => 0
  }

  /** A bound on what the pool can still do by itself. */
  ghost function Fuel(s: State): nat {
    NeedSum(s.workers) + ClientSum(s.clients) + 4 * |s.tasks| + DtorNeed(s)
  }

  lemma {:induction false} NeedUpdate(ws: seq<WorkerPc>, w: nat, pc: WorkerPc)
    requires w < |ws|
    ensures NeedSum(ws[w := pc]) == NeedSum(ws) - Need(ws[w]) + Need(pc)
  {
    if w == 0 {
      assert ws[0 := pc][1..] == ws[1..];
    } else {
      assert ws[w := pc][1..] == ws[1..][w - 1 := pc];
      NeedUpdate(ws[1..], w - 1, pc);
    }
  }

  lemma {:induction false} ClientUpdate(cs: seq<ClientPc>, c: nat, pc: ClientPc)
    requires c < |cs|
    ensures ClientSum(cs[c := pc]) == ClientSum(cs) - ClientNeed(cs[c]) + ClientNeed(pc)
  {
    if c == 0 {
      assert cs[0 := pc][1..] == cs[1..];
    } else {
      assert cs[c := pc][1..] == cs[1..][c - 1 := pc];
      ClientUpdate(cs[1..], c - 1, pc);
    }
  }

  lemma {:induction false} NeedOfWoken(ws: seq<WorkerPc>, ws': seq<WorkerPc>)
    requires |ws'| == |ws| && forall w :: 0 <= w < |ws| ==> ws'[w] == Wake(ws[w])
    ensures NeedSum(ws') <= NeedSum(ws) + 2 * |ws|
  {
    if ws != [] {
      NeedOfWoken(ws[1..], ws'[1..]);
    }
  }

  lemma WorkerBurns(s: State, a: Action)
    requires Enabled(s, a) && (a.WorkerLock? || a.WorkerCheck? || a.WorkerRun?)
    ensures Fuel(Next(s, a)) < Fuel(s)
  {
    hide NeedSum, ClientSum, DtorNeed, AnySleeping;
    NeedUpdate(s.workers, a.w, Next(s, a).workers[a.w]);
    DtorNeedKept(s, Next(s, a));
  }

  lemma DtorNeedKept(s: State, s': State)
    requires s'.dtor == s.dtor && |s'.workers| == |s.workers|
    ensures DtorNeed(s') == DtorNeed(s)
  {
  }

  lemma ClientBurns(s: State, a: Action)
    requires Enabled(s, a) && (a.ClientPush? || a.NotifyOne?)
    ensures Fuel(Next(s, a)) < Fuel(s)
  {
    ClientUpdate(s.clients, a.c, Next(s, a).clients[a.c]);
    if a.NotifyOne? && AnySleeping(s) {
      NeedUpdate(s.workers, a.w, Woken);
    }
  }

  lemma DtorBurns(s: State, a: Action)
    requires Enabled(s, a) && JoinInv(s) && (a.DtorStop? || a.NotifyAll? || a.Join?)
    ensures Fuel(Next(s, a)) < Fuel(s)
  {
    if a.NotifyAll? {
      NeedOfWoken(s.workers, Next(s, a).workers);
    }
  }

  /** Every step the pool takes by itself uses up fuel, whether it is running or being destroyed. */
  lemma StepBurns(s: State, a: Action)
    requires JoinInv(s) && Enabled(s, a) && PoolStep(a)
    ensures Fuel(Next(s, a)) < Fuel(s)
  {
    hide Next, Enabled, Fuel, JoinInv;
    if a.WorkerLock? || a.WorkerCheck? || a.WorkerRun? {
      WorkerBurns(s, a);
    } else if a.ClientPush? || a.NotifyOne? {
      ClientBurns(s, a);
    } else {
      DtorBurns(s, a);
    }
  }

  /** Without new calls and spurious wake-ups, every schedule comes to an end. */
  lemma {:induction false} EveryScheduleEnds(r: seq<State>, acts: seq<Action>, j: nat, k: nat)
    requires Run(r, acts) && j <= k < |r| && forall i :: j <= i < k ==> PoolStep(acts[i])
    ensures k - j + Fuel(r[k]) <= Fuel(r[j])
  {
    hide Init, Next, Enabled, Fuel;
    if k > j {
      EveryScheduleEnds(r, acts, j, k - 1);
      BurnsAt(r, acts, k - 1);
    }
  }

  lemma BurnsAt(r: seq<State>, acts: seq<Action>, k: nat)
    requires Run(r, acts) && k < |acts| && PoolStep(acts[k])
    ensures Fuel(r[k + 1]) < Fuel(r[k])
  {
    RunInv(r, acts, k);
    StepBurns(r[k], acts[k]);
  }

  /** And where it ends, every accepted task has run. */
  lemma SettledHasRunAll(r: seq<State>, acts: seq<Action>, k: nat)
    requires Run(r, acts) && k < |r| && !CanMove(r[k])
    ensures forall t :: 0 <= t < r[k].accepted ==> t in r[k].runs
    ensures Quiescent(r[k]) || r[k].dtor == Destroyed
  {
    NeverStuck(r, acts, k);
    RunInv(r, acts, k);
    if r[k].dtor == Destroyed {
      ExactlyOnce(r, acts, k);
    } else {
      forall t | 0 <= t < r[k].accepted
        ensures t in r[k].runs
      {
        assert !InHand(r[k], t);
      }
    }
  }

  // ---------------------------------------------------------------- what one call or one worker does alone

  /** From `s`, the steps `acts` lead to `end`. */
  ghost predicate Leads(s: State, acts: seq<Action>, end: State)
    decreases |acts|
  {
    if acts == [] then s == end else Enabled(s, acts[0]) && Leads(Next(s, acts[0]), acts[1..], end)
  }

  lemma LeadsFirst(s: State, a: Action, acts: seq<Action>, end: State)
    requires Enabled(s, a) && Leads(Next(s, a), acts, end)
    ensures Leads(s, [a] + acts, end)
  {
    assert ([a] + acts)[1..] == acts;
  }

  /** One sleeper, whichever, has been woken, if there was one. */
  ghost predicate WokenOne(ws: seq<WorkerPc>, ws': seq<WorkerPc>) {
    if exists w :: 0 <= w < |ws| && ws[w] == Sleeping then
      exists w :: 0 <= w < |ws| && ws[w] == Sleeping && ws' == ws[w := Woken]
    else ws' == ws
  }

  /** A call of `enqueue` whose steps are not mixed with others: on a running pool it appends one new task and
      wakes one sleeping worker, if there is one; on a stopped pool it throws and changes nothing. */
  lemma EnqueueAlone(s: State, c: nat) returns (acts: seq<Action>, end: State)
    requires c < |s.clients| && s.clients[c] == Outside && s.mutex == Nobody
    ensures Leads(s, acts, end) && |acts| == if s.stop then 2 else 3
    ensures s.stop ==> end == s
    ensures !s.stop ==>
              && end == s.(tasks := s.tasks + [s.accepted], accepted := s.accepted + 1, workers := end.workers)
              && WokenOne(s.workers, end.workers)
  {
    var s1 := Next(s, ClientLock(c));
    var s2 := Next(s1, ClientPush(c));
    if s.stop {
      acts, end := [], s2;
      assert s.clients == s2.clients;
    } else {
      var w: nat := 0;
      if AnySleeping(s2) {
        w :| w < |s2.workers| && s2.workers[w] == Sleeping;
      }
      end := Next(s2, NotifyOne(c, w));
      assert s.clients == end.clients;
      acts := [NotifyOne(c, w)];
      LeadsFirst(s2, NotifyOne(c, w), [], end);
    }
    LeadsFirst(s1, ClientPush(c), acts, end);
    LeadsFirst(s, ClientLock(c), [ClientPush(c)] + acts, end);
    acts := [ClientLock(c)] + ([ClientPush(c)] + acts);
  }

  /** A worker that comes to the lock, alone: it runs the oldest task and comes back, sleeps if there is none, and
      leaves if there is none and the pool is stopped. */
  lemma WorkerAlone(s: State, w: nat) returns (acts: seq<Action>, end: State)
    requires w < |s.workers| && (s.workers[w] == WantLock || s.workers[w] == Woken) && s.mutex == Nobody
    ensures Leads(s, acts, end)
    ensures s.tasks != [] ==>
              end == s.(workers := s.workers[w := WantLock], tasks := s.tasks[1..], taken := s.taken + 1,
                        runs := s.runs + [s.tasks[0]])
    ensures s.tasks == [] ==> end == s.(workers := s.workers[w := if s.stop then Exited else Sleeping])
  {
    var s1 := Next(s, WorkerLock(w));
    var s2 := Next(s1, WorkerCheck(w));
    acts, end := [], s2;
    if s.tasks != [] {
      end := Next(s2, WorkerRun(w));
      acts := [WorkerRun(w)];
      LeadsFirst(s2, WorkerRun(w), [], end);
    }
    LeadsFirst(s1, WorkerCheck(w), acts, end);
    LeadsFirst(s, WorkerLock(w), [WorkerCheck(w)] + acts, end);
    acts := [WorkerLock(w)] + ([WorkerCheck(w)] + acts);
  }

  // ---------------------------------------------------------------- the destructor terminates

  ghost function Rank(pc: WorkerPc): nat {
    match pc
    case Exited => 0
    case Checking => 1
    case WantLock => 2
    case Woken => 2
    case Sleeping => 2
    case Running(_) => 3
  }

  ghost function RankSum(ws: seq<WorkerPc>): nat {
    if ws == [] then 0 else Rank(ws[0]) + RankSum(ws[1..])
  }

  lemma {:induction false} RankSumUpdate(ws: seq<WorkerPc>, w: nat, pc: WorkerPc)
    requires w < |ws|
    ensures RankSum(ws[w := pc]) == RankSum(ws) - Rank(ws[w]) + Rank(pc)
  {
    if w == 0 {
      assert ws[0 := pc][1..] == ws[1..];
    } else {
      assert ws[w := pc][1..] == ws[1..][w - 1 := pc];
      RankSumUpdate(ws[1..], w - 1, pc);
    }
  }

  /** How many steps the pool can still take while the destructor joins its workers. */
  ghost function Remaining(s: State): nat {
    RankSum(s.workers) + 3 * |s.tasks|
    + if s.dtor.Joining? && s.dtor.next <= |s.workers| then |s.workers| - s.dtor.next + 1 else 0
  }

  ghost predicate Drains(a: Action) {
    a.WorkerLock? || a.WorkerCheck? || a.WorkerRun? || a.Join?
  }

  /** While the destructor joins, every step of a worker or of the destructor uses up `Remaining`,
      and no other step adds to it. */
  lemma StepDrains(s: State, a: Action)
    requires Inv(s) && (s.dtor.Joining? || s.dtor.Destroyed?) && Enabled(s, a)
    ensures Next(s, a).dtor.Joining? || Next(s, a).dtor.Destroyed?
    ensures if Drains(a)
            then Remaining(Next(s, a)) < Remaining(s)
            else Remaining(Next(s, a)) == Remaining(s)
  {
    if a.WorkerLock? || a.WorkerCheck? || a.WorkerRun? {
      RankSumUpdate(s.workers, a.w, Next(s, a).workers[a.w]);
    }
  }

  ghost function DrainSteps(acts: seq<Action>): nat {
    if acts == [] then 0
    else DrainSteps(acts[..|acts| - 1]) + if Drains(acts[|acts| - 1]) then 1 else 0
  }

  lemma DrainAt(r: seq<State>, acts: seq<Action>, k: nat)
    requires Run(r, acts) && k + 1 < |r| && (r[k].dtor.Joining? || r[k].dtor.Destroyed?)
    ensures r[k + 1].dtor.Joining? || r[k + 1].dtor.Destroyed?
    ensures Remaining(r[k + 1]) + (if Drains(acts[k]) then 1 else 0) <= Remaining(r[k])
  {
    RunInv(r, acts, k);
    StepDrains(r[k], acts[k]);
  }

  lemma {:induction false} JoiningStays(r: seq<State>, acts: seq<Action>, j: nat, k: nat)
    requires Run(r, acts) && j <= k < |r| && r[j].dtor.Joining?
    ensures r[k].dtor.Joining? || r[k].dtor.Destroyed?
  {
    hide Init, Next, Enabled, Remaining, Drains;
    if k > j {
      JoiningStays(r, acts, j, k - 1);
      DrainAt(r, acts, k - 1);
    }
  }

  lemma DrainFrom(r: seq<State>, acts: seq<Action>, j: nat, k: nat)
    requires Run(r, acts) && j <= k && k + 1 < |r| && r[j].dtor.Joining?
    ensures Remaining(r[k + 1]) + (if Drains(acts[k]) then 1 else 0) <= Remaining(r[k])
  {
    JoiningStays(r, acts, j, k);
    DrainAt(r, acts, k);
  }

  ghost function RemainingFrom(r: seq<State>, j: nat, k: nat): (left: seq<int>)
    requires j <= k < |r|
    ensures |left| == k - j + 1 && forall i :: 0 <= i <= k - j ==> left[i] == Remaining(r[j + i])
  {
    seq(k - j + 1, i requires 0 <= i <= k - j => Remaining(r[j + i]))
  }

  lemma {:induction false} DrainSum(left: seq<int>, acts: seq<Action>)
    requires |left| == |acts| + 1
    requires forall i :: 0 <= i < |acts| ==> left[i + 1] + (if Drains(acts[i]) then 1 else 0) <= left[i]
    ensures DrainSteps(acts) + left[|acts|] <= left[0]
  {
    if acts != [] {
      DrainSum(left[..|acts|], acts[..|acts| - 1]);
    }
  }

  /** While the destructor joins, a step that drains is possible unless a client is inside `enqueue`. */
  lemma CanDrain(s: State) returns (a: Action)
    requires Inv(s) && s.dtor.Joining? && !s.mutex.Client?
    ensures Drains(a) && Enabled(s, a)
  {
    match s.mutex
    case Worker(w) => a := WorkerCheck(w);
    case Nobody =>
      if SomeoneAwake(s) {
        var w :| 0 <= w < |s.workers| && Awake(s.workers[w]);
        a := if s.workers[w].Running? then WorkerRun(w) else WorkerLock(w);
      } else {
        AllExited(s);
        a := Join;
      }
  }

  lemma AllExited(s: State)
    requires StopInv(s) && s.dtor.Joining? && !SomeoneAwake(s)
    ensures forall w :: 0 <= w < |s.workers| ==> s.workers[w] == Exited
  {
    forall w | 0 <= w < |s.workers|
      ensures s.workers[w] == Exited
    {
      assert !Awake(s.workers[w]) && s.workers[w] != Sleeping;
    }
  }

  lemma {:induction false} DrainsToTheEnd(s: State) returns (acts: seq<Action>, end: State)
    requires Inv(s) && (s.dtor == Destroyed || (s.dtor.Joining? && !s.mutex.Client?))
    ensures Leads(s, acts, end) && end.dtor == Destroyed && |acts| <= Remaining(s)
    ensures forall a <- acts :: Drains(a)
    decreases Remaining(s)
  {
    if s.dtor == Destroyed {
      acts, end := [], s;
    } else {
      var a := CanDrain(s);
      StepKeepsInv(s, a);
      StepDrains(s, a);
      acts, end := DrainsToTheEnd(Next(s, a));
      LeadsFirst(s, a, acts, end);
      acts := [a] + acts;
    }
  }

  /** From every state reached while it joins, the destructor can return, without any new call by a client and
      without a spurious wake-up: at most one client has to leave `enqueue`, and the rest drains. */
  lemma DestructorReturns(r: seq<State>, acts: seq<Action>, k: nat) returns (more: seq<Action>, end: State)
    requires Run(r, acts) && k < |r| && r[k].dtor.Joining?
    ensures Leads(r[k], more, end) && end.dtor == Destroyed && |more| <= Remaining(r[k]) + 1
    ensures forall a <- more :: PoolStep(a)
  {
    RunInv(r, acts, k);
    var s := r[k];
    if s.mutex.Client? {
      var a := ClientPush(s.mutex.c);
      StepKeepsInv(s, a);
      StepDrains(s, a);
      more, end := DrainsToTheEnd(Next(s, a));
      LeadsFirst(s, a, more, end);
      more := [a] + more;
    } else {
      more, end := DrainsToTheEnd(s);
    }
  }

  /** From the moment the destructor starts joining, any schedule contains at most `Remaining` worker and join
      steps; by `CanDrain` one is possible, in every state, as soon as no client is inside `enqueue`. */
  lemma DestructorDrains(r: seq<State>, acts: seq<Action>, j: nat, k: nat)
    requires Run(r, acts) && j <= k < |r| && r[j].dtor.Joining?
    ensures r[k].dtor.Joining? || r[k].dtor.Destroyed?
    ensures DrainSteps(acts[j..k]) <= Remaining(r[j])
    ensures r[k].dtor.Joining? && !r[k].mutex.Client? ==> exists a :: Drains(a) && Enabled(r[k], a)
  {
    if r[k].dtor.Joining? && !r[k].mutex.Client? {
      RunInv(r, acts, k);
      var a := CanDrain(r[k]);
    }
    DrainsBetween(r, acts, j, k);
    JoiningStays(r, acts, j, k);
  }

  lemma DrainsBetween(r: seq<State>, acts: seq<Action>, j: nat, k: nat)
    requires Run(r, acts) && j <= k < |r| && r[j].dtor.Joining?
    ensures DrainSteps(acts[j..k]) <= Remaining(r[j])
  {
    hide Init, Next, Enabled, Remaining, Drains, DrainSteps;
    var left := RemainingFrom(r, j, k);
    forall i | 0 <= i < k - j
      ensures left[i + 1] + (if Drains(acts[j..k][i]) then 1 else 0) <= left[i]
    {
      assert acts[j..k][i] == acts[j + i];
      DrainFrom(r, acts, j, j + i);
      assert left[i + 1] == Remaining(r[j + (i + 1)]);
    }
    DrainSum(left, acts[j..k]);
    assert left[k - j] >= 0;
  }
}
