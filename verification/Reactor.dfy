/**
 * The epoll echo server of epoll/main.c: the table `g_events`, the event callbacks, the rotating timeout
 * sweep and the dispatch loop.
 *
 * The kernel is its interest set (which descriptor is registered, for which slot and event) and the set of
 * open descriptors. `epoll_ctl` succeeds whenever its arguments are acceptable; closing a descriptor also
 * unregisters it. What the outside world decides (the clock, ready events, results of accept, recv and send)
 * comes in as oracle values, of which only what the kernel guarantees is used.
 */
module Reactor {
  type Fd = int

  const MAX_EVENTS := 1024
  const PASS := 100            // slots checked per sweep
  const TIMEOUT := 60

  datatype Mask = NoEvents | In | Out
  datatype Callback = Null | AcceptConn | RecvData | SendData

  /** `active` is status == 1. */
  datatype Slot = Slot(fd: Fd, mask: Mask, callback: Callback, arg: nat, active: bool, lastActive: int)

  datatype Registration = Registration(slot: nat, mask: Mask)
  datatype CtlOp = Add | Mod | Del

  type Interest = map<Fd, Registration>

  /** `epoll_ctl`: a call with unacceptable arguments fails and changes nothing. */
  function EpollCtl(kernel: Interest, openFds: set<Fd>, op: CtlOp, fd: Fd, reg: Registration): Interest {
    match op
    case Add => if fd in openFds && fd !in kernel then kernel[fd := reg] else kernel
    case Mod => if fd in kernel then kernel[fd := reg] else kernel
    case Del => kernel - {fd}
  }

  // ---------------------------------------------------------------- the table and the interest set agree

  ghost predicate CallbackFits(s: Slot, i: nat) {
    && s.arg == i
    && match s.callback
       case RecvData => s.mask == In && i < MAX_EVENTS
       case SendData => s.mask == Out && i < MAX_EVENTS
       case AcceptConn => s.mask == In && i == MAX_EVENTS
       case Null => false
  }

  ghost predicate SlotOk(evs: seq<Slot>, kernel: Interest, i: nat)
    requires i < |evs|
  {
    evs[i].active ==>
      evs[i].fd in kernel && kernel[evs[i].fd] == Registration(i, evs[i].mask) && CallbackFits(evs[i], i)
  }

  ghost predicate FdOk(evs: seq<Slot>, kernel: Interest, openFds: set<Fd>, fd: Fd)
    requires fd in kernel
  {
    fd in openFds && kernel[fd].slot < |evs| && evs[kernel[fd].slot].active && evs[kernel[fd].slot].fd == fd
  }

  ghost predicate TableInv(evs: seq<Slot>, kernel: Interest, openFds: set<Fd>, lfd: Fd) {
    && |evs| == MAX_EVENTS + 1
    && (forall i :: 0 <= i <= MAX_EVENTS ==> SlotOk(evs, kernel, i))
    && (forall fd <- kernel :: FdOk(evs, kernel, openFds, fd))
    && evs[MAX_EVENTS].active && evs[MAX_EVENTS].fd == lfd
  }

  /** Registered descriptors and active slots correspond one to one; in particular active descriptors differ. */
  lemma OneSlotPerFd(evs: seq<Slot>, kernel: Interest, openFds: set<Fd>, lfd: Fd)
    requires TableInv(evs, kernel, openFds, lfd)
    ensures forall i :: 0 <= i <= MAX_EVENTS ==>
              (evs[i].active <==> evs[i].fd in kernel && kernel[evs[i].fd].slot == i)
    ensures forall i, j :: 0 <= i < j <= MAX_EVENTS && evs[i].active && evs[j].active ==> evs[i].fd != evs[j].fd
  {
    forall i | 0 <= i <= MAX_EVENTS
      ensures evs[i].active <==> evs[i].fd in kernel && kernel[evs[i].fd].slot == i
    {
      assert SlotOk(evs, kernel, i);
      assert evs[i].fd in kernel ==> FdOk(evs, kernel, openFds, evs[i].fd);
    }
  }

  /** `eventdel` on an active client slot. */
  lemma AfterDel(evs: seq<Slot>, kernel: Interest, openFds: set<Fd>, lfd: Fd, i: nat)
    requires TableInv(evs, kernel, openFds, lfd) && i < MAX_EVENTS && evs[i].active
    ensures TableInv(evs[i := evs[i].(active := false)], kernel - {evs[i].fd}, openFds, lfd)
  {
    var evs', kernel' := evs[i := evs[i].(active := false)], kernel - {evs[i].fd};
    OneSlotPerFd(evs, kernel, openFds, lfd);
    forall k | 0 <= k <= MAX_EVENTS
      ensures SlotOk(evs', kernel', k)
    {
      assert SlotOk(evs, kernel, k) && SlotOk(evs, kernel, i);
    }
    forall fd <- kernel'
      ensures FdOk(evs', kernel', openFds, fd)
    {
      assert FdOk(evs, kernel, openFds, fd);
    }
  }

  /** `eventset` on an inactive slot changes nothing the kernel sees. */
  lemma AfterSet(evs: seq<Slot>, kernel: Interest, openFds: set<Fd>, lfd: Fd, i: nat, s: Slot)
    requires TableInv(evs, kernel, openFds, lfd) && i < MAX_EVENTS && !evs[i].active && !s.active
    ensures TableInv(evs[i := s], kernel, openFds, lfd)
  {
    var evs' := evs[i := s];
    forall k | 0 <= k <= MAX_EVENTS
      ensures SlotOk(evs', kernel, k)
    {
      assert SlotOk(evs, kernel, k);
    }
    forall fd <- kernel
      ensures FdOk(evs', kernel, openFds, fd)
    {
      assert FdOk(evs, kernel, openFds, fd);
    }
  }

  /** `eventadd` on an inactive slot whose descriptor is open and unregistered. */
  lemma AfterAdd(evs: seq<Slot>, kernel: Interest, openFds: set<Fd>, lfd: Fd, i: nat, mask: Mask)
    requires TableInv(evs, kernel, openFds, lfd) && i < MAX_EVENTS && !evs[i].active
    requires evs[i].fd in openFds && evs[i].fd !in kernel && CallbackFits(evs[i].(mask := mask), i)
    ensures TableInv(evs[i := evs[i].(mask := mask, active := true)],
                     EpollCtl(kernel, openFds, Add, evs[i].fd, Registration(i, mask)), openFds, lfd)
  {
    var evs' := evs[i := evs[i].(mask := mask, active := true)];
    var kernel' := kernel[evs[i].fd := Registration(i, mask)];
    forall k | 0 <= k <= MAX_EVENTS
      ensures SlotOk(evs', kernel', k)
    {
      assert SlotOk(evs, kernel, k);
    }
    forall fd <- kernel'
      ensures FdOk(evs', kernel', openFds, fd)
    {
      assert fd in kernel ==> FdOk(evs, kernel, openFds, fd);
    }
  }

  lemma AfterOpenOrClose(evs: seq<Slot>, kernel: Interest, openFds: set<Fd>, lfd: Fd, openFds': set<Fd>)
    requires TableInv(evs, kernel, openFds, lfd) && forall fd <- kernel :: fd in openFds'
    ensures TableInv(evs, kernel, openFds', lfd)
  {
    forall fd <- kernel
      ensures FdOk(evs, kernel, openFds', fd)
    {
      assert FdOk(evs, kernel, openFds, fd);
    }
  }

  // ---------------------------------------------------------------- oracles

  /** What one callback meets: the clock, the byte count of recv or send, and for the listener the accepted
      descriptor (-1 for failure) and whether fcntl succeeded. */
  datatype Outcome = Outcome(time: int, len: int, cfd: Fd, nonblocking: bool)

  /** An event reported by `epoll_wait`: a slot and which of EPOLLIN, EPOLLOUT it carries. */
  datatype Ready = Ready(slot: nat, gotIn: bool, gotOut: bool, outcome: Outcome)

  /** One turn of the event loop: the clock at its sweep and what `epoll_wait` then reports. */
  datatype Round = Round(time: int, batch: seq<Ready>)

  /** The kernel reports a registered descriptor at most once, and only the events it was armed for. */
  predicate ReadyOk(evs: seq<Slot>, r: Ready) {
    && r.slot < |evs| && evs[r.slot].active
    && (r.gotIn ==> evs[r.slot].mask == In) && (r.gotOut ==> evs[r.slot].mask == Out)
  }

  predicate BatchOk(evs: seq<Slot>, batch: seq<Ready>) {
    && (forall k :: 0 <= k < |batch| ==> ReadyOk(evs, batch[k]))
    && (forall j, k :: 0 <= j < k < |batch| ==> batch[j].slot != batch[k].slot)
  }

  datatype Call = Call(slot: nat, fd: Fd, callback: Callback)

  /** The callbacks a batch asks for, by the table as it was when `epoll_wait` returned. */
  function Due(evs: seq<Slot>, batch: seq<Ready>): seq<Call>
    requires forall k :: 0 <= k < |batch| ==> ReadyOk(evs, batch[k])
  {
    if batch == [] then []
    else
      var n := |batch| - 1;
      var r := batch[n];
      assert ReadyOk(evs, r);
      Due(evs, batch[..n])
      + if r.gotIn || r.gotOut then [Call(r.slot, evs[r.slot].fd, evs[r.slot].callback)] else []
  }

  // ---------------------------------------------------------------- the sweep

  /** A registered slot with no activity since 60 seconds before `t`. */
  ghost predicate Stale(s: Slot, t: int) {
    s.active && s.lastActive <= t - TIMEOUT
  }

  /** How many slots a sweep starting at `start` checks before reaching slot `j`. */
  ghost function Distance(start: nat, j: nat): nat {
    (j - start) % MAX_EVENTS
  }

  /** The first `done` client slots checked from `start` on hold nothing stale at `t`. */
  ghost predicate Swept(evs: seq<Slot>, start: nat, done: nat, t: int)
    requires |evs| == MAX_EVENTS + 1
  {
    forall j :: 0 <= j < MAX_EVENTS && Distance(start, j) < done ==> !Stale(evs[j], t)
  }

  ghost function Expire(s: Slot, now: int): Slot {
    if Stale(s, now) then s.(active := false) else s
  }

  /** Of the `n` client slots from `pos` on, those that timed out are closed, and nothing else has changed. */
  ghost predicate SweptBy(evs: seq<Slot>, evs': seq<Slot>, pos: nat, n: nat, now: int) {
    && |evs| == MAX_EVENTS + 1 == |evs'| && evs'[MAX_EVENTS] == evs[MAX_EVENTS]
    && forall j :: 0 <= j < MAX_EVENTS ==> evs'[j] == if Distance(pos, j) < n then Expire(evs[j], now) else evs[j]
  }

  /** The descriptors of slots that have been freed. */
  ghost function Closed(evs: seq<Slot>, evs': seq<Slot>): set<Fd>
    requires |evs| == |evs'|
  {
    set j | 0 <= j < |evs| && evs[j].active && !evs'[j].active :: evs[j].fd
  }

  /** Every client slot is as before, free, or was active at `t` or later. */
  ghost predicate Fresher(evs: seq<Slot>, evs': seq<Slot>, t: int) {
    && |evs| == MAX_EVENTS + 1 == |evs'|
    && forall j :: 0 <= j < MAX_EVENTS ==> evs'[j] == evs[j] || !evs'[j].active || evs'[j].lastActive >= t
  }

  /** The cursor after `n` checks; 1024 and 0 stand for the same place. */
  ghost predicate CursorAt(pos: nat, n: nat) {
    pos <= MAX_EVENTS && pos % MAX_EVENTS == n % MAX_EVENTS
  }

  lemma CursorSteps(pos: nat, n: nat)
    requires CursorAt(pos, n)
    ensures var p := if pos == MAX_EVENTS then 0 else pos;
            p == n % MAX_EVENTS && CursorAt(p + 1, n + 1)
  {
  }

  lemma CursorMoves(pos: nat, n: nat, pos': nat, k: nat)
    requires CursorAt(pos, n) && CursorAt(pos', pos + k)
    ensures CursorAt(pos', n + k)
  {
  }

  lemma CheckedSlotAt(start: nat, done: nat, j: nat)
    requires j < MAX_EVENTS && done < MAX_EVENTS
    ensures Distance(start, j) == done <==> j == (start + done) % MAX_EVENTS
  {
    assert (start + done) % MAX_EVENTS == (start + (j - start)) % MAX_EVENTS || Distance(start, j) != done;
  }

  /** Checking slot `i`, the next in turn, extends the sweep by one. */
  lemma SweptOneMore(evs: seq<Slot>, mid: seq<Slot>, evs': seq<Slot>, pos: nat, n: nat, now: int, i: nat)
    requires SweptBy(evs, mid, pos, n, now) && n < MAX_EVENTS && i == (pos + n) % MAX_EVENTS
    requires evs' == mid[i := Expire(mid[i], now)]
    ensures SweptBy(evs, evs', pos, n + 1, now) && mid[i] == evs[i]
    ensures Closed(evs, evs') == Closed(evs, mid) + if Stale(evs[i], now) then {evs[i].fd} else {}
  {
    CheckedSlotAt(pos, n, i);
    forall j | 0 <= j < MAX_EVENTS
      ensures evs'[j] == if Distance(pos, j) < n + 1 then Expire(evs[j], now) else evs[j]
    {
      CheckedSlotAt(pos, n, j);
    }
    assert forall j :: 0 <= j < |evs| && j != i ==> evs'[j] == mid[j];
  }

  /** A pass takes up where the last one stopped. */
  lemma PassExtends(evs: seq<Slot>, evs': seq<Slot>, start: nat, done: nat, t: int, pos: nat, n: nat, now: int)
    requires |evs| == MAX_EVENTS + 1 && Swept(evs, start, done, t) && CursorAt(pos, start + done)
    requires SweptBy(evs, evs', pos, n, now) && t <= now
    ensures Swept(evs', start, done + n, t)
  {
    forall j | 0 <= j < MAX_EVENTS && Distance(start, j) < done + n
      ensures !Stale(evs'[j], t)
    {
      if Distance(start, j) >= done {
        DistanceFrom(start, done, pos, j);
      }
    }
  }

  lemma DistanceFrom(start: nat, done: nat, pos: nat, j: nat)
    requires CursorAt(pos, start + done) && j < MAX_EVENTS && Distance(start, j) >= done
    ensures Distance(pos, j) == Distance(start, j) - done
  {
  }

  lemma SweepBegins(evs: seq<Slot>, pos: nat, now: int)
    requires |evs| == MAX_EVENTS + 1 && pos <= MAX_EVENTS
    ensures CursorAt(pos, pos) && SweptBy(evs, evs, pos, 0, now) && Closed(evs, evs) == {}
  {
  }

  lemma Begin(evs: seq<Slot>, pos: nat, t: int)
    requires |evs| == MAX_EVENTS + 1 && pos <= MAX_EVENTS
    ensures CursorAt(pos, pos) && Swept(evs, pos, 0, t)
  {
  }

  lemma StillSwept(evs: seq<Slot>, evs': seq<Slot>, start: nat, done: nat, t: int, t': int)
    requires |evs| == MAX_EVENTS + 1 && Swept(evs, start, done, t)
    requires Fresher(evs, evs', t') && t <= t'
    ensures Swept(evs', start, done, t)
  {
    forall j | 0 <= j < MAX_EVENTS && Distance(start, j) < done
      ensures !Stale(evs'[j], t)
    {
      assert !Stale(evs[j], t);
    }
  }

  /** 1024 checks cover the whole table, wherever they started. */
  lemma SweptAll(evs: seq<Slot>, start: nat, done: nat, t: int)
    requires |evs| == MAX_EVENTS + 1 && done >= MAX_EVENTS && Swept(evs, start, done, t)
    ensures forall j :: 0 <= j < MAX_EVENTS ==> !Stale(evs[j], t)
  {
    forall j | 0 <= j < MAX_EVENTS
      ensures !Stale(evs[j], t)
    {
      assert Distance(start, j) < done;
    }
  }

  /** The clock never goes back. */
  function Later(t: int, oracle: int): int {
    if oracle < t then t else oracle
  }

  // ---------------------------------------------------------------- what a callback does

  /** The table, the open descriptors and the clock. */
  datatype View = View(events: seq<Slot>, openFds: set<Fd>, clock: int)

  function FirstFree(evs: seq<Slot>, from: nat): (i: nat)
    requires from <= MAX_EVENTS < |evs|
    ensures from <= i <= MAX_EVENTS && (forall j :: from <= j < i ==> evs[j].active)
    ensures i < MAX_EVENTS ==> !evs[i].active
    decreases MAX_EVENTS - from
  {
    if from == MAX_EVENTS || !evs[from].active then from else FirstFree(evs, from + 1)
  }

  function Accepted(v: View, o: Outcome): View
    requires |v.events| == MAX_EVENTS + 1
  {
    if o.cfd == -1 || o.cfd in v.openFds then v
    else
      var i, openFds' := FirstFree(v.events, 0), v.openFds + {o.cfd};
      if i == MAX_EVENTS || !o.nonblocking then v.(openFds := openFds')
      else
        var now := Later(v.clock, o.time);
        View(v.events[i := Slot(o.cfd, In, RecvData, i, true, now)], openFds', now)
  }

  function Transferred(v: View, i: nat, callback: Callback, mask: Mask, o: Outcome): View
    requires i < |v.events|
  {
    var fd := v.events[i].fd;
    if o.len > 0 then
      var now := Later(v.clock, o.time);
      v.(events := v.events[i := Slot(fd, mask, callback, i, true, now)], clock := now)
    else
      v.(events := v.events[i := v.events[i].(active := false)], openFds := v.openFds - {fd})
  }

  function Handled(v: View, i: nat, o: Outcome): View
    requires |v.events| == MAX_EVENTS + 1 && i <= MAX_EVENTS
  {
    match v.events[i].callback
    case AcceptConn => Accepted(v, o)
    case RecvData => Transferred(v, i, SendData, Out, o)
    case SendData => Transferred(v, i, RecvData, In, o)
    case Null => v
  }

  /** A callback changes no active slot but its own, and leaves what it changes freed or just active. */
  lemma HandledApart(v: View, i: nat, o: Outcome)
    requires |v.events| == MAX_EVENTS + 1 && i <= MAX_EVENTS
    requires v.events[i].callback == AcceptConn <==> i == MAX_EVENTS
    ensures var v' := Handled(v, i, o);
            && v'.clock >= v.clock && Fresher(v.events, v'.events, v.clock)
            && (forall j :: 0 <= j <= MAX_EVENTS && j != i && v.events[j].active ==> v'.events[j] == v.events[j])
            && v'.events[MAX_EVENTS] == v.events[MAX_EVENTS]
  {
  }

  /** The slot is armed for the other direction, with the other callback, as active now. */
  ghost predicate TurnedRound(was: Slot, s: Slot, i: nat, now: int) {
    && s.active && s.fd == was.fd && s.arg == i && s.lastActive == now
    && (was.mask == In ==> s.mask == Out && s.callback == SendData)
    && (was.mask == Out ==> s.mask == In && s.callback == RecvData)
  }

  ghost predicate OnlySlot(v: View, v': View, i: nat) {
    |v'.events| == |v.events| && forall j :: 0 <= j < |v.events| && j != i ==> v'.events[j] == v.events[j]
  }

  /** A client's callback: with data the connection turns round, otherwise it is closed and its slot free. */
  ghost predicate ClientAnswers(v: View, v': View, i: nat, o: Outcome)
    requires i < |v.events|
  {
    && OnlySlot(v, v', i)
    && if o.len > 0 then
         && TurnedRound(v.events[i], v'.events[i], i, v'.clock)
         && v'.clock == Later(v.clock, o.time) && v'.openFds == v.openFds
       else
         && !v'.events[i].active && v'.events[i].fd == v.events[i].fd
         && v'.clock == v.clock && v'.openFds == v.openFds - {v.events[i].fd}
  }

  /** The accepted descriptor stands, reading, in slot `j`, the lowest that was free. */
  ghost predicate PlacedIn(v: View, v': View, j: nat, o: Outcome)
    requires |v.events| == MAX_EVENTS + 1
  {
    && j < MAX_EVENTS && !v.events[j].active && (forall k :: 0 <= k < j ==> v.events[k].active)
    && OnlySlot(v, v', j) && v'.clock == Later(v.clock, o.time)
    && v'.events[j] == Slot(o.cfd, In, RecvData, j, true, v'.clock)
  }

  /** The listener's callback: an accepted descriptor is open, and placed unless there is no room or it cannot be
      made non-blocking. */
  ghost predicate ListenerAnswers(v: View, v': View, o: Outcome)
    requires |v.events| == MAX_EVENTS + 1
  {
    var accepted := o.cfd != -1 && o.cfd !in v.openFds;
    && v'.openFds == v.openFds + (if accepted then {o.cfd} else {})
    && if accepted && o.nonblocking && exists j :: 0 <= j < MAX_EVENTS && !v.events[j].active then
         exists j :: PlacedIn(v, v', j, o)
       else v'.events == v.events && v'.clock == v.clock
  }

  ghost predicate Answers(v: View, v': View, i: nat, o: Outcome)
    requires |v.events| == MAX_EVENTS + 1 && i <= MAX_EVENTS
  {
    if i == MAX_EVENTS then ListenerAnswers(v, v', o) else ClientAnswers(v, v', i, o)
  }

  lemma AcceptedAnswers(v: View, o: Outcome)
    requires |v.events| == MAX_EVENTS + 1
    ensures ListenerAnswers(v, Accepted(v, o), o)
  {
    var i, v' := FirstFree(v.events, 0), Accepted(v, o);
    if o.cfd != -1 && o.cfd !in v.openFds && o.nonblocking && i < MAX_EVENTS {
      assert PlacedIn(v, v', i, o);
    }
  }

  /** What each callback does on a table whose callbacks fit their events. */
  lemma HandledAnswers(v: View, i: nat, o: Outcome)
    requires |v.events| == MAX_EVENTS + 1 && i <= MAX_EVENTS && CallbackFits(v.events[i], i)
    ensures Answers(v, Handled(v, i, o), i, o)
  {
    if i == MAX_EVENTS {
      AcceptedAnswers(v, o);
    }
  }

  /** Data received and sent back: after two callbacks the connection waits for the same event as before. */
  lemma EchoComesRound(v: View, i: nat, o: Outcome, o': Outcome)
    requires |v.events| == MAX_EVENTS + 1 && i < MAX_EVENTS && v.events[i].active && CallbackFits(v.events[i], i)
    requires o.len > 0 && o'.len > 0
    ensures var v1 := Handled(v, i, o);
            && |v1.events| == |v.events| && v1.events[i].active && CallbackFits(v1.events[i], i)
            && v1.events[i].mask != v.events[i].mask && v1.events[i].callback != v.events[i].callback
            && var s := Handled(v1, i, o').events[i];
               s.active && s.fd == v.events[i].fd && s.mask == v.events[i].mask && s.callback == v.events[i].callback
  {
    HandledAnswers(v, i, o);
    var v1 := Handled(v, i, o);
    hide Handled;
    HandledAnswers(v1, i, o');
  }

  /** A descriptor just accepted stands in one active slot only. */
  lemma PlacedOnce(v: View, v': View, kernel: Interest, lfd: Fd, j: nat, o: Outcome)
    requires TableInv(v.events, kernel, v.openFds, lfd) && o.cfd !in v.openFds && PlacedIn(v, v', j, o)
    ensures forall k :: 0 <= k <= MAX_EVENTS ==> (v'.events[k].active && v'.events[k].fd == o.cfd <==> k == j)
  {
    forall k | 0 <= k <= MAX_EVENTS && k != j
      ensures !(v'.events[k].active && v'.events[k].fd == o.cfd)
    {
      assert SlotOk(v.events, kernel, k);
      if v.events[k].active {
        assert FdOk(v.events, kernel, v.openFds, v.events[k].fd);
      }
    }
  }

  lemma StillFresh(a: seq<Slot>, b: seq<Slot>, c: seq<Slot>, t: int, t': int)
    requires |a| == MAX_EVENTS + 1 && t <= t'
    ensures Fresher(a, a, t)
    ensures Fresher(a, b, t) && Fresher(b, c, t') ==> Fresher(a, c, t)
  {
  }

  /** All callbacks of a batch, in order. */
  function HandledAll(v: View, batch: seq<Ready>): (v': View)
    requires |v.events| == MAX_EVENTS + 1 && forall r <- batch :: r.slot <= MAX_EVENTS
    ensures |v'.events| == MAX_EVENTS + 1
  {
    if batch == [] then v
    else
      var r, before := batch[|batch| - 1], HandledAll(v, batch[..|batch| - 1]);
      if r.gotIn || r.gotOut then Handled(before, r.slot, r.outcome) else before
  }

  /** Every active slot has the callback of its event, and the listener is in the last slot. */
  ghost predicate CallbacksFit(evs: seq<Slot>) {
    && |evs| == MAX_EVENTS + 1 && evs[MAX_EVENTS].active
    && forall i :: 0 <= i <= MAX_EVENTS && evs[i].active ==> CallbackFits(evs[i], i)
  }

  lemma TableFits(evs: seq<Slot>, kernel: Interest, openFds: set<Fd>, lfd: Fd)
    requires TableInv(evs, kernel, openFds, lfd)
    ensures CallbacksFit(evs)
  {
    assert evs[MAX_EVENTS].active;
    forall i | 0 <= i <= MAX_EVENTS && evs[i].active
      ensures CallbackFits(evs[i], i)
    {
      assert SlotOk(evs, kernel, i);
    }
  }

  /** The report asks for the callback of slot `j`. */
  predicate Calls(r: Ready, j: nat) {
    r.slot == j && (r.gotIn || r.gotOut)
  }

  ghost predicate Echoed(was: Slot, s: Slot, i: nat) {
    TurnedRound(was, s, i, s.lastActive)
  }

  lemma HandledFits(v: View, i: nat, o: Outcome)
    requires CallbacksFit(v.events) && i <= MAX_EVENTS && v.events[i].active
    ensures CallbacksFit(Handled(v, i, o).events)
    ensures forall j :: 0 <= j <= MAX_EVENTS && j != i && v.events[j].active ==>
              Handled(v, i, o).events[j] == v.events[j]
    ensures i < MAX_EVENTS && o.len > 0 ==> Echoed(v.events[i], Handled(v, i, o).events[i], i)
  {
  }

  /** A connection that is not reported stays as it was. */
  ghost predicate RestStays(evs: seq<Slot>, evs': seq<Slot>, batch: seq<Ready>) {
    && |evs| == MAX_EVENTS + 1 == |evs'|
    && forall j :: 0 <= j <= MAX_EVENTS && evs[j].active && (forall r <- batch :: !Calls(r, j)) ==> evs'[j] == evs[j]
  }

  /** A connection reported, on which data was moved, is turned round. */
  ghost predicate AllEchoed(evs: seq<Slot>, evs': seq<Slot>, batch: seq<Ready>) {
    && |evs| == MAX_EVENTS + 1 == |evs'|
    && forall r <- batch :: r.slot < MAX_EVENTS && Calls(r, r.slot) && r.outcome.len > 0 ==>
         Echoed(evs[r.slot], evs'[r.slot], r.slot)
  }

  /** A batch turns round every connection it reports on which data was moved, and leaves every connection it does
      not report as it was, whatever else it closes or accepts on the way. */
  lemma {:induction false} BatchAnswers(v: View, batch: seq<Ready>)
    requires CallbacksFit(v.events) && BatchOk(v.events, batch)
    ensures forall r <- batch :: r.slot <= MAX_EVENTS
    ensures var evs' := HandledAll(v, batch).events;
            CallbacksFit(evs') && RestStays(v.events, evs', batch) && AllEchoed(v.events, evs', batch)
  {
    SlotsInTable(v.events, batch);
    if batch != [] {
      var n := |batch| - 1;
      assert forall k :: 0 <= k < n ==> batch[..n][k] == batch[k];
      BatchAnswers(v, batch[..n]);
      hide Handled, CallbacksFit, RestStays, AllEchoed;
      OneMoreAnswers(v, HandledAll(v, batch[..n]), batch);
    }
  }

  lemma SlotsInTable(evs: seq<Slot>, batch: seq<Ready>)
    requires |evs| == MAX_EVENTS + 1 && BatchOk(evs, batch)
    ensures forall r <- batch :: r.slot <= MAX_EVENTS
  {
    forall r <- batch
      ensures r.slot <= MAX_EVENTS
    {
      var k :| 0 <= k < |batch| && batch[k] == r;
      assert ReadyOk(evs, batch[k]);
    }
  }

  lemma LastIsNew(evs: seq<Slot>, batch: seq<Ready>)
    requires BatchOk(evs, batch) && batch != []
    ensures forall r <- batch[..|batch| - 1] :: r.slot != batch[|batch| - 1].slot
    ensures forall r <- batch :: r in batch[..|batch| - 1] || r == batch[|batch| - 1]
  {
    var n := |batch| - 1;
    forall r <- batch[..n]
      ensures r.slot != batch[n].slot
    {
      var k :| 0 <= k < n && batch[k] == r;
    }
  }

  lemma OneMoreAnswers(v: View, mid: View, batch: seq<Ready>)
    requires CallbacksFit(v.events) && BatchOk(v.events, batch) && batch != [] && CallbacksFit(mid.events)
    requires RestStays(v.events, mid.events, batch[..|batch| - 1])
    requires AllEchoed(v.events, mid.events, batch[..|batch| - 1])
    ensures |mid.events| == MAX_EVENTS + 1 && batch[|batch| - 1].slot <= MAX_EVENTS
    ensures var r := batch[|batch| - 1];
            var end := if r.gotIn || r.gotOut then Handled(mid, r.slot, r.outcome) else mid;
            && CallbacksFit(end.events)
            && RestStays(v.events, end.events, batch) && AllEchoed(v.events, end.events, batch)
  {
    var n := |batch| - 1;
    var last := batch[n];
    assert ReadyOk(v.events, last);
    LastIsNew(v.events, batch);
    assert forall r <- batch[..n] :: !Calls(r, last.slot);
    HandledFits(mid, last.slot, last.outcome);
    hide Handled, CallbackFits;
    var end := if last.gotIn || last.gotOut then Handled(mid, last.slot, last.outcome) else mid;
    forall r <- batch | r.slot < MAX_EVENTS && Calls(r, r.slot) && r.outcome.len > 0
      ensures Echoed(v.events[r.slot], end.events[r.slot], r.slot)
    {
      if r != last {
        assert Echoed(v.events[r.slot], mid.events[r.slot], r.slot);
      }
    }
    forall j | 0 <= j <= MAX_EVENTS && v.events[j].active && (forall r <- batch :: !Calls(r, j))
      ensures end.events[j] == v.events[j]
    {
      assert !Calls(last, j) && mid.events[j] == v.events[j];
    }
  }

  /** A point between two turns of the event loop: the table as `epoll_wait` last returned, the table now, and the
      cursor of the sweep. */
  datatype Turned = Turned(mid: View, view: View, pos: nat)

  /** One turn: the sweep closes, of the next 100 client slots, those that have timed out; then the callbacks of
      what `epoll_wait` reports run in order. */
  ghost predicate Turns(was: Turned, now: Turned, r: Round) {
    && |was.view.events| == MAX_EVENTS + 1 && CursorAt(now.pos, was.pos + PASS)
    && now.mid.clock == Later(was.view.clock, r.time)
    && SweptBy(was.view.events, now.mid.events, was.pos, PASS, now.mid.clock)
    && now.mid.openFds == was.view.openFds - Closed(was.view.events, now.mid.events)
    && now.view == if BatchOk(now.mid.events, r.batch) then HandledAll(now.mid, r.batch) else now.mid
  }

  class Server {
    const events: array<Slot>
    const lfd: Fd
    var kernel: Interest
    var openFds: set<Fd>
    var checkpos: nat
    var clock: int
    ghost var modCalls: nat      // EPOLL_CTL_MOD calls made so far

    ghost predicate Valid()
      reads this, events
    {
      && events.Length == MAX_EVENTS + 1 && TableInv(events[..], kernel, openFds, lfd)
      && checkpos <= MAX_EVENTS && modCalls == 0
    }

    /** The zero-filled table with the listener registered in its last slot. */
    constructor (listener: Fd, time: int)
      ensures Valid() && lfd == listener && openFds == {listener} && fresh(events)
      ensures kernel == map[listener := Registration(MAX_EVENTS, In)]
      ensures events[MAX_EVENTS] == Slot(listener, In, AcceptConn, MAX_EVENTS, true, clock)
      ensures forall i :: 0 <= i < MAX_EVENTS ==> !events[i].active
    {
      events := new Slot[MAX_EVENTS + 1](_ => Slot(0, NoEvents, Null, 0, false, 0));
      lfd, kernel, openFds, checkpos, clock, modCalls := listener, map[], {listener}, 0, time, 0;
      new;
      EventSet(MAX_EVENTS, listener, AcceptConn, MAX_EVENTS, time);
      EventAdd(MAX_EVENTS, In);
      assert forall i :: 0 <= i < MAX_EVENTS ==> events[i] == events[..][i] && !events[i].active;
    }

    ghost function Now(): View
      reads this, events
    {
      View(events[..], openFds, clock)
    }

    method Time(oracle: int) returns (now: int)
      modifies this`clock
      ensures now == clock == Later(old(clock), oracle)
    {
      now := Later(clock, oracle);
      clock := now;
    }

    /** `eventset`. */
    method EventSet(i: nat, fd: Fd, callback: Callback, arg: nat, oracle: int)
      requires i < events.Length
      modifies this`clock, events
      ensures clock == Later(old(clock), oracle)
      ensures events[..] == old(events[..])[i := Slot(fd, NoEvents, callback, arg, false, clock)]
    {
      var now := Time(oracle);
      events[i] := Slot(fd, NoEvents, callback, arg, false, now);
    }

    /** `eventadd`. */
    method EventAdd(i: nat, mask: Mask)
      requires i < events.Length
      modifies this`kernel, this`modCalls, events
      ensures events[..] == old(events[..])[i := old(events[i]).(mask := mask, active := true)]
      ensures var op := if old(events[i]).active then Mod else Add;
              && kernel == EpollCtl(old(kernel), openFds, op, old(events[i]).fd, Registration(i, mask))
              && modCalls == old(modCalls) + if op == Mod then 1 else 0
    {
      var op := if events[i].active then Mod else Add;
      if op == Mod {
        modCalls := modCalls + 1;
      }
      events[i] := events[i].(mask := mask, active := true);
      kernel := EpollCtl(kernel, openFds, op, events[i].fd, Registration(i, mask));
    }

    /** `eventdel`. */
    method EventDel(i: nat)
      requires i < events.Length
      modifies this`kernel, events
      ensures events[..] == old(events[..])[i := old(events[i]).(active := false)]
      ensures kernel == if old(events[i]).active then old(kernel) - {old(events[i]).fd} else old(kernel)
    {
      if !events[i].active {
        return;
      }
      events[i] := events[i].(active := false);
      kernel := EpollCtl(kernel, openFds, Del, events[i].fd, Registration(i, NoEvents));
    }

    method Close(fd: Fd)
      modifies this`kernel, this`openFds
      ensures openFds == old(openFds) - {fd} && kernel == old(kernel) - {fd}
    {
      openFds := openFds - {fd};
      kernel := kernel - {fd};
    }

    /** `eventset` and `eventadd` on a free client slot. */
    method Arm(i: nat, fd: Fd, callback: Callback, mask: Mask, oracle: int)
      requires Valid() && i < MAX_EVENTS && !events[i].active && fd in openFds && fd !in kernel
      requires (callback == RecvData && mask == In) || (callback == SendData && mask == Out)
      modifies this`kernel, this`modCalls, this`clock, events
      ensures Valid() && clock == Later(old(clock), oracle)
      ensures events[..] == old(events[..])[i := Slot(fd, mask, callback, i, true, clock)]
    {
      ghost var evs := events[..];
      EventSet(i, fd, callback, i, oracle);
      AfterSet(evs, kernel, openFds, lfd, i, events[i]);
      AfterAdd(events[..], kernel, openFds, lfd, i, mask);
      hide TableInv;
      EventAdd(i, mask);
      assert events[..] == evs[i := Slot(fd, mask, callback, i, true, clock)];
    }

    /** `recvdata` and `senddata`: unregister, then either turn the slot round or close it. */
    method Transfer(i: nat, callback: Callback, mask: Mask, o: Outcome)
      requires Valid() && i < MAX_EVENTS && events[i].active
      requires (callback == RecvData && mask == In) || (callback == SendData && mask == Out)
      modifies this`kernel, this`openFds, this`modCalls, this`clock, events
      ensures Valid() && Now() == Transferred(old(Now()), i, callback, mask, o)
    {
      ghost var evs := events[..];
      var fd := events[i].fd;
      assert SlotOk(evs, kernel, i) && FdOk(evs, kernel, openFds, fd);
      AfterDel(evs, kernel, openFds, lfd, i);
      EventDel(i);
      if o.len > 0 {
        Arm(i, fd, callback, mask, o.time);
      } else {
        AfterOpenOrClose(events[..], kernel, openFds, lfd, openFds - {fd});
        assert kernel - {fd} == kernel;
        Close(fd);
      }
    }

    /** The search in `acceptconn`. */
    method FindFree() returns (i: nat)
      requires events.Length == MAX_EVENTS + 1
      ensures i == FirstFree(events[..], 0)
    {
      i := 0;
      while i < MAX_EVENTS && events[i].active
        invariant i <= MAX_EVENTS && FirstFree(events[..], 0) == FirstFree(events[..], i)
      {
        i := i + 1;
      }
    }

    /** `acceptconn`: the lowest free client slot is filled. A descriptor in use is never handed out by accept. */
    method OnAccept(o: Outcome)
      requires Valid()
      modifies this`kernel, this`openFds, this`modCalls, this`clock, events
      ensures Valid() && Now() == Accepted(old(Now()), o)
    {
      var cfd := o.cfd;
      if cfd == -1 || cfd in openFds {
        return;
      }
      AfterOpenOrClose(events[..], kernel, openFds, lfd, openFds + {cfd});
      assert forall fd <- kernel :: FdOk(events[..], kernel, openFds, fd);
      openFds := openFds + {cfd};
      var i := FindFree();
      if i == MAX_EVENTS || !o.nonblocking {
        return;
      }
      Arm(i, cfd, RecvData, In, o.time);
    }

    /** `ev->call_back(...)`. */
    method CallBack(i: nat, o: Outcome) returns (call: Call)
      requires Valid() && i <= MAX_EVENTS && events[i].active
      modifies this`kernel, this`openFds, this`modCalls, this`clock, events
      ensures Valid() && Now() == Handled(old(Now()), i, o) && Answers(old(Now()), Now(), i, o)
      ensures call == Call(i, old(events[i]).fd, old(events[i]).callback)
    {
      assert SlotOk(events[..], kernel, i);
      HandledAnswers(Now(), i, o);
      hide Answers, TableInv;
      call := Call(i, events[i].fd, events[i].callback);
      if events[i].callback == AcceptConn {
        OnAccept(o);
      } else if events[i].callback == RecvData {
        Transfer(i, SendData, Out, o);
      } else {
        Transfer(i, RecvData, In, o);
      }
    }

    /** Closes the slot's connection if it timed out. */
    method CheckSlot(i: nat, now: int)
      requires Valid() && i < MAX_EVENTS
      modifies this`kernel, this`openFds, events
      ensures Valid()
      ensures events[..] == old(events[..])[i := Expire(old(events[i]), now)]
      ensures openFds == if Stale(old(events[i]), now) then old(openFds) - {old(events[i]).fd} else old(openFds)
    {
      if !events[i].active {
        return;
      }
      var duration := now - events[i].lastActive;
      if duration >= TIMEOUT {
        var fd := events[i].fd;
        AfterDel(events[..], kernel, openFds, lfd, i);
        AfterOpenOrClose(events[..][i := events[i].(active := false)], kernel - {fd}, openFds, lfd, openFds - {fd});
        Close(fd);
        assert kernel - {fd} == kernel;
        EventDel(i);
      }
    }

    /** One pass of the timeout sweep over the next 100 client slots. */
    method Sweep(oracle: int)
      requires Valid()
      modifies this`kernel, this`openFds, this`checkpos, this`clock, events
      ensures Valid() && clock == Later(old(clock), oracle) && CursorAt(checkpos, old(checkpos) + PASS)
      ensures SweptBy(old(events[..]), events[..], old(checkpos), PASS, clock)
      ensures openFds == old(openFds) - Closed(old(events[..]), events[..])
    {
      hide TableInv, SweptBy, CursorAt, Closed, Stale, Expire;
      ghost var evs, pos := events[..], checkpos;
      SweepBegins(evs, pos, Later(clock, oracle));
      var now := Time(oracle);
      var i := 0;
      while i < PASS
        invariant 0 <= i <= PASS && Valid() && clock == now && CursorAt(checkpos, pos + i)
        invariant SweptBy(evs, events[..], pos, i, now) && openFds == old(openFds) - Closed(evs, events[..])
      {
        CursorSteps(checkpos, pos + i);
        if checkpos == MAX_EVENTS {
          checkpos := 0;
        }
        ghost var mid := events[..];
        CheckSlot(checkpos, now);
        SweptOneMore(evs, mid, events[..], pos, i, now, checkpos);
        i, checkpos := i + 1, checkpos + 1;
      }
    }

    /** The loop over the events of one `epoll_wait`: one callback for each, on the connection it was reported for. */
    method Dispatch(batch: seq<Ready>) returns (calls: seq<Call>)
      requires Valid() && BatchOk(events[..], batch)
      modifies this`kernel, this`openFds, this`modCalls, this`clock, events
      ensures Valid() && calls == Due(old(events[..]), batch)
      ensures Now() == HandledAll(old(Now()), batch)
      ensures RestStays(old(events[..]), events[..], batch) && AllEchoed(old(events[..]), events[..], batch)
      ensures clock >= old(clock) && Fresher(old(events[..]), events[..], old(clock))
    {
      hide TableInv, Handled, Fresher, CallbacksFit, RestStays, AllEchoed, Answers, Later;
      ghost var start := Now();
      TableFits(start.events, kernel, openFds, lfd);
      BatchAnswers(start, batch);
      StillFresh(start.events, start.events, start.events, clock, clock);
      calls := [];
      for i := 0 to |batch|
        invariant Valid() && Now() == HandledAll(start, batch[..i]) && clock >= start.clock
        invariant calls == Due(start.events, batch[..i])
        invariant Fresher(start.events, events[..], start.clock)
        invariant forall k :: i <= k < |batch| ==> events[batch[k].slot] == start.events[batch[k].slot]
      {
        var slot, o := batch[i].slot, batch[i].outcome;
        assert ReadyOk(start.events, batch[i]) && batch[..i + 1][..i] == batch[..i];
        ListenerOnly(slot);
        HandledApart(Now(), slot, o);
        StillFresh(start.events, events[..], Handled(Now(), slot, o).events, start.clock, clock);
        if batch[i].gotIn && events[slot].mask == In {
          var call := CallBack(slot, o);
          calls := calls + [call];
        }
        if batch[i].gotOut && events[slot].mask == Out {
          var call := CallBack(slot, o);
          calls := calls + [call];
        }
      }
      assert batch[..|batch|] == batch;
    }

    lemma ListenerOnly(i: nat)
      requires Valid() && i <= MAX_EVENTS && events[i].active
      ensures events[i].callback == AcceptConn <==> i == MAX_EVENTS
    {
      assert SlotOk(events[..], kernel, i);
    }

    /** Turns of the event loop. Reports `epoll_wait` cannot make are ignored. After eleven turns no client
        connection that was idle for 60 seconds when they began is left. */
    method Serve(rounds: seq<Round>) returns (ghost trace: seq<Turned>)
      requires Valid()
      modifies this`kernel, this`openFds, this`modCalls, this`checkpos, this`clock, events
      ensures Valid()
      ensures |trace| == |rounds| + 1 && trace[|rounds|].view == Now()
      ensures trace[0].view == old(Now()) && trace[0].pos == old(checkpos)
      ensures forall k :: 0 <= k < |rounds| ==> Turns(trace[k], trace[k + 1], rounds[k])
      ensures |rounds| >= 11 ==>
                forall j :: 0 <= j < MAX_EVENTS ==> !Stale(events[j], Later(old(clock), rounds[0].time))
    {
      hide TableInv, Swept, CursorAt, Fresher, SweptBy, Closed, BatchOk, HandledAll;
      ghost var start := checkpos;
      ghost var since := if rounds == [] then clock else Later(clock, rounds[0].time);
      Begin(events[..], start, since);
      trace := [Turned(Now(), Now(), checkpos)];
      for k := 0 to |rounds|
        invariant Valid() && (if k == 0 then clock == old(clock) else since <= clock)
        invariant CursorAt(checkpos, start + PASS * k) && Swept(events[..], start, PASS * k, since)
        invariant |trace| == k + 1 && trace[0] == old(Turned(Now(), Now(), checkpos))
        invariant trace[k].view == Now() && trace[k].pos == checkpos
        invariant forall i :: 0 <= i < k ==> Turns(trace[i], trace[i + 1], rounds[i])
      {
        ghost var pos := checkpos;
        ghost var mid := Turn(rounds[k], start, PASS * k, since);
        CursorMoves(pos, start + PASS * k, checkpos, PASS);
        trace := trace + [Turned(mid, Now(), checkpos)];
      }
      if |rounds| >= 11 {
        SweptAll(events[..], start, PASS * |rounds|, since);
        assert forall j :: 0 <= j < MAX_EVENTS ==> events[j] == events[..][j];
      }
    }

    /** One turn of the event loop: sweep, wait, dispatch. */
    method Turn(r: Round, ghost start: nat, ghost done: nat, ghost since: int) returns (ghost mid: View)
      requires Valid() && since <= Later(clock, r.time)
      requires CursorAt(checkpos, start + done) && Swept(events[..], start, done, since)
      modifies this`kernel, this`openFds, this`modCalls, this`checkpos, this`clock, events
      ensures Valid() && since <= clock
      ensures Turns(Turned(old(Now()), old(Now()), old(checkpos)), Turned(mid, Now(), checkpos), r)
      ensures CursorAt(checkpos, old(checkpos) + PASS) && Swept(events[..], start, done + PASS, since)
    {
      hide TableInv, Swept, CursorAt, Fresher, SweptBy, Closed, HandledAll, RestStays, AllEchoed;
      ghost var evs, pos := events[..], checkpos;
      Sweep(r.time);
      PassExtends(evs, events[..], start, done, since, pos, PASS, clock);
      mid := Now();
      if BatchOk(events[..], r.batch) {
        var _ := Dispatch(r.batch);
        StillSwept(mid.events, events[..], start, done + PASS, since, mid.clock);
      }
    }
  }
}
