/**
 * `Timer` and `TimerManager` of Timer/version02: a multimap from due time to timer, and `update`,
 * which erases and reinserts entries while it iterates.
 *
 * Time is counted in abstract ticks. The multimap is a sequence sorted by key, in which `insert`
 * places a new entry after all entries with an equal key; an iterator is an index that follows its
 * entry when something is inserted before it. Every timer comes from `schedule`, so its callback is
 * set; a callback is recorded as a firing and does not touch the manager.
 */
module Timers {
  import opened Arith

  /** `id` tells timers apart; the program has no such field. */
  datatype Timer = Timer(id: nat, time: int, period: int, repeat: int)
  datatype Entry = Entry(key: int, timer: Timer)
  datatype Firing = Firing(id: nat, at: int)

  type Table = seq<Entry>

  function OnTimer(t: Timer): Timer {
    if t.repeat == 0 then t
    else t.(time := t.time + t.period, repeat := if t.repeat > 0 then t.repeat - 1 else t.repeat)
  }

  function UpperBound(ts: Table, key: int): (p: nat)
    ensures p <= |ts| && (forall i :: 0 <= i < p ==> ts[i].key <= key) && (p < |ts| ==> ts[p].key > key)
  {
    if ts == [] || ts[0].key > key then 0 else 1 + UpperBound(ts[1..], key)
  }

  function Insert(ts: Table, e: Entry): Table {
    var p := UpperBound(ts, e.key);
    ts[..p] + [e] + ts[p..]
  }

  /** The entry's callback runs when the loop reaches it. */
  function FiringOf(e: Entry): seq<Firing> {
    if e.timer.repeat == 0 then [] else [Firing(e.timer.id, e.key)]
  }

  /** One iteration of the loop in `update` on a due first entry. */
  function Step(ts: Table): Table
    requires ts != []
  {
    var t := OnTimer(ts[0].timer);
    if t.repeat == 0 then ts[1..] else Insert(ts[1..], Entry(t.time, t))
  }

  ghost predicate Sorted(ts: Table) {
    forall i, j :: 0 <= i < j < |ts| ==> ts[i].key <= ts[j].key
  }

  /** Between updates every entry is filed under its timer's own time. */
  ghost predicate Filed(ts: Table) {
    forall e <- ts :: e.key == e.timer.time
  }

  predicate Stopped(ts: Table, now: int) {
    ts == [] || ts[0].key > now
  }

  lemma InsertSorted(ts: Table, e: Entry)
    requires Sorted(ts)
    ensures Sorted(Insert(ts, e))
  {
  }

  lemma InsertHas(ts: Table, e: Entry, x: Entry)
    ensures x in Insert(ts, e) <==> x == e || x in ts
  {
    var p := UpperBound(ts, e.key);
    assert ts == ts[..p] + ts[p..];
  }

  lemma StepHas(ts: Table, x: Entry)
    requires ts != [] && x in Step(ts)
    ensures var t := OnTimer(ts[0].timer); x in ts[1..] || (t.repeat != 0 && x == Entry(t.time, t))
  {
    var t := OnTimer(ts[0].timer);
    InsertHas(ts[1..], Entry(t.time, t), x);
  }

  lemma StepKeepsOrder(ts: Table)
    requires ts != [] && Sorted(ts) && Filed(ts)
    ensures Sorted(Step(ts)) && Filed(Step(ts))
  {
    var t := OnTimer(ts[0].timer);
    InsertSorted(ts[1..], Entry(t.time, t));
    forall e <- Step(ts)
      ensures e.key == e.timer.time
    {
      StepHas(ts, e);
    }
  }

  // ---------------------------------------------------------------- when the loop ends

  ghost predicate Finishes(e: Entry, now: int) {
    e.key <= now ==> e.timer.period > 0 || e.timer.repeat >= 0
  }

  ghost predicate AllFinish(ts: Table, now: int) {
    forall e <- ts :: Finishes(e, now)
  }

  /** How often the entry's callback runs in an update at `now`. */
  ghost function Fires(e: Entry, now: int): nat
    requires Finishes(e, now)
  {
    if e.key > now || e.timer.repeat == 0 then 0
    else if e.timer.period <= 0 then e.timer.repeat
    else
      var n := (now - e.key) / e.timer.period + 1;
      if e.timer.repeat > 0 && e.timer.repeat < n then e.timer.repeat else n
  }

  /** How many iterations the entry takes: its firings, or one to discard a due timer with no repeats left. */
  ghost function Work(e: Entry, now: int): nat
    requires Finishes(e, now)
  {
    if e.key <= now && e.timer.repeat == 0 then 1 else Fires(e, now)
  }

  lemma DivStep(x: int, p: int)
    requires p > 0 && x >= 0
    ensures x < p ==> x / p == 0
    ensures x >= p ==> (x - p) / p == x / p - 1 && x / p >= 1
  {
    var q, r := x / p, x % p;
    assert x == p * q + r;
    if x < p {
      DivModUnique(x, p, 0, x);
    } else {
      assert x - p == p * (q - 1) + r;
      DivModUnique(x - p, p, q - 1, r);
    }
  }

  /** After one firing, the rest of the schedule is one shorter. */
  lemma FireOnce(e: Entry, now: int)
    requires Finishes(e, now) && e.key <= now && e.key == e.timer.time && e.timer.repeat != 0
    ensures var t := OnTimer(e.timer);
            var e' := Entry(t.time, t);
            && Finishes(e', now) && Fires(e, now) >= 1
            && (if t.repeat == 0 then Fires(e, now) == 1 else Fires(e', now) == Fires(e, now) - 1)
  {
    if e.timer.period > 0 {
      DivStep(now - e.key, e.timer.period);
    }
  }

  ghost function TotalWork(ts: Table, now: int): nat
    requires AllFinish(ts, now)
  {
    if ts == [] then 0 else Work(ts[0], now) + TotalWork(ts[1..], now)
  }

  lemma {:induction false} WorkOfInsert(ts: Table, p: nat, e: Entry, now: int)
    requires AllFinish(ts, now) && Finishes(e, now) && p <= |ts|
    ensures AllFinish(ts[..p] + [e] + ts[p..], now)
    ensures TotalWork(ts[..p] + [e] + ts[p..], now) == TotalWork(ts, now) + Work(e, now)
  {
    var ts' := ts[..p] + [e] + ts[p..];
    if p == 0 {
      assert ts' == [e] + ts && ts'[1..] == ts;
    } else {
      assert ts'[1..] == ts[1..][..p - 1] + [e] + ts[1..][p - 1..];
      WorkOfInsert(ts[1..], p - 1, e, now);
    }
  }

  /** Every iteration uses up exactly one unit of work: this is why the loop terminates. */
  lemma StepUsesWork(ts: Table, now: int)
    requires !Stopped(ts, now) && Filed(ts) && AllFinish(ts, now)
    ensures AllFinish(Step(ts), now) && TotalWork(Step(ts), now) == TotalWork(ts, now) - 1
  {
    var e, rest := ts[0], ts[1..];
    assert e in ts && forall x <- rest :: x in ts;
    if e.timer.repeat != 0 {
      FireOnce(e, now);
      var t := OnTimer(e.timer);
      if t.repeat != 0 {
        WorkOfInsert(rest, UpperBound(rest, t.time), Entry(t.time, t), now);
      }
    }
  }

  // ---------------------------------------------------------------- update as a function

  datatype Outcome = Outcome(table: Table, fired: seq<Firing>)

  ghost function Updated(ts: Table, now: int): Outcome
    requires Filed(ts) && Sorted(ts) && AllFinish(ts, now)
    decreases TotalWork(ts, now)
  {
    if Stopped(ts, now) then Outcome(ts, [])
    else
      StepUsesWork(ts, now);
      StepKeepsOrder(ts);
      var o := Updated(Step(ts), now);
      Outcome(o.table, FiringOf(ts[0]) + o.fired)
  }

  /** `Updated` after one iteration. */
  lemma UpdateUnfolds(ts: Table, now: int)
    requires !Stopped(ts, now) && Filed(ts) && Sorted(ts) && AllFinish(ts, now)
    ensures Filed(Step(ts)) && Sorted(Step(ts)) && AllFinish(Step(ts), now)
    ensures TotalWork(Step(ts), now) < TotalWork(ts, now)
    ensures Updated(ts, now) == Outcome(Updated(Step(ts), now).table, FiringOf(ts[0]) + Updated(Step(ts), now).fired)
  {
    StepUsesWork(ts, now);
    StepKeepsOrder(ts);
  }

  /** The loop's state machine, for any table: it has stopped within `n` iterations. */
  ghost predicate StopsWithin(ts: Table, now: int, n: nat)
    decreases n
  {
    Stopped(ts, now) || (n > 0 && StopsWithin(Step(ts), now, n - 1))
  }

  lemma {:induction false} StopsWhenWorkIsDone(ts: Table, now: int)
    requires Filed(ts) && Sorted(ts) && AllFinish(ts, now)
    ensures StopsWithin(ts, now, TotalWork(ts, now))
    decreases TotalWork(ts, now)
  {
    if !Stopped(ts, now) {
      StepUsesWork(ts, now);
      StepKeepsOrder(ts);
      StopsWhenWorkIsDone(Step(ts), now);
    }
  }

  /** A due entry that repeats forever and does not move forward is still there, and due, after an iteration. */
  lemma SpinnerStays(ts: Table, now: int, e: Entry) returns (e': Entry)
    requires Filed(ts) && Sorted(ts) && e in ts && !Finishes(e, now)
    ensures !Stopped(ts, now) && e' in Step(ts) && !Finishes(e', now)
  {
    var i :| 0 <= i < |ts| && ts[i] == e;
    var t := OnTimer(ts[0].timer);
    e' := if i == 0 then Entry(t.time, t) else e;
    InsertHas(ts[1..], Entry(t.time, t), e');
    if i > 0 {
      assert e == ts[1..][i - 1];
    }
  }

  lemma {:induction false} NeverStops(ts: Table, now: int, e: Entry, n: nat)
    requires Filed(ts) && Sorted(ts) && e in ts && !Finishes(e, now)
    ensures !StopsWithin(ts, now, n)
    decreases n
  {
    var e' := SpinnerStays(ts, now, e);
    if n > 0 {
      StepKeepsOrder(ts);
      NeverStops(Step(ts), now, e', n - 1);
    }
  }

  ghost predicate Terminates(ts: Table, now: int) {
    exists n: nat :: StopsBy(ts, now, n)
  }

  ghost predicate StopsBy(ts: Table, now: int, n: nat) {
    StopsWithin(ts, now, n)
  }

  /** `update` terminates if and only if every due timer has a positive period or a finite repeat count. */
  lemma TerminatesExactlyWhen(ts: Table, now: int)
    requires Filed(ts) && Sorted(ts)
    ensures Terminates(ts, now) <==> AllFinish(ts, now)
  {
    if AllFinish(ts, now) {
      StopsWhenWorkIsDone(ts, now);
      assert StopsBy(ts, now, TotalWork(ts, now));
    } else {
      var e :| e in ts && !Finishes(e, now);
      forall n: nat
        ensures !StopsBy(ts, now, n)
      {
        NeverStops(ts, now, e, n);
      }
    }
  }

  // ---------------------------------------------------------------- what update does

  /** Afterwards the table is in order and holds only entries due later than `now`. */
  lemma {:induction false} OnlyFutureLeft(ts: Table, now: int)
    requires Filed(ts) && Sorted(ts) && AllFinish(ts, now)
    ensures var left := Updated(ts, now).table;
            Filed(left) && Sorted(left) && forall e <- left :: e.key > now
    decreases TotalWork(ts, now)
  {
    if !Stopped(ts, now) {
      StepUsesWork(ts, now);
      StepKeepsOrder(ts);
      OnlyFutureLeft(Step(ts), now);
    }
  }

  /** No due timer runs backwards: with a negative period there is at most one repeat left. */
  ghost predicate NoneRunsBack(ts: Table, now: int) {
    forall e <- ts :: !RunsBack(e, now)
  }

  ghost predicate RunsBack(e: Entry, now: int) {
    e.key <= now && e.timer.period < 0 && e.timer.repeat > 1
  }

  ghost predicate InOrder(fired: seq<Firing>) {
    forall i, j :: 0 <= i < j < |fired| ==> fired[i].at <= fired[j].at
  }

  lemma StepKeepsForward(ts: Table, now: int)
    requires !Stopped(ts, now) && Filed(ts) && Sorted(ts) && AllFinish(ts, now) && NoneRunsBack(ts, now)
    ensures NoneRunsBack(Step(ts), now) && forall e <- Step(ts) :: e.key >= ts[0].key
  {
    forall e <- Step(ts)
      ensures !RunsBack(e, now) && e.key >= ts[0].key
    {
      StepHas(ts, e);
      assert ts[0] in ts && Finishes(ts[0], now) && !RunsBack(ts[0], now);
      assert forall x <- ts[1..] :: x in ts;
    }
  }

  lemma FiringsNow(fired: seq<Firing>, rest: seq<Firing>, lo: int)
    requires |fired| <= 1 && InOrder(rest) && (forall f <- rest :: f.at >= lo) && (forall f <- fired :: f.at == lo)
    ensures InOrder(fired + rest) && forall f <- fired + rest :: f.at >= lo
  {
    assert forall i :: |fired| <= i < |fired + rest| ==> (fired + rest)[i] in rest;
    assert forall i :: 0 <= i < |fired| ==> (fired + rest)[i] in fired;
  }

  lemma {:induction false} ForwardInOrder(ts: Table, now: int, lo: int)
    requires Filed(ts) && Sorted(ts) && AllFinish(ts, now) && NoneRunsBack(ts, now)
    requires forall e <- ts :: e.key >= lo
    ensures InOrder(Updated(ts, now).fired) && forall f <- Updated(ts, now).fired :: f.at >= lo
    decreases TotalWork(ts, now)
  {
    if !Stopped(ts, now) {
      UpdateUnfolds(ts, now);
      StepKeepsForward(ts, now);
      assert ts[0] in ts;
      ForwardInOrder(Step(ts), now, ts[0].key);
      FiringsNow(FiringOf(ts[0]), Updated(Step(ts), now).fired, ts[0].key);
    }
  }

  lemma BackInFront(ts: Table, now: int)
    requires !Stopped(ts, now) && Filed(ts) && Sorted(ts) && RunsBack(ts[0], now)
    ensures var t := OnTimer(ts[0].timer);
            Step(ts) != [] && Step(ts)[0] == Entry(t.time, t) && t.time < ts[0].key && t.repeat > 0
  {
    var t := OnTimer(ts[0].timer);
    assert ts[0] in ts && forall x <- ts[1..] :: x in ts && x.key >= ts[0].key;
    assert UpperBound(ts[1..], t.time) == 0;
  }

  /** A first entry that runs backwards fires and then fires again for an earlier time. */
  lemma BackAtOnce(ts: Table, now: int)
    requires !Stopped(ts, now) && Filed(ts) && Sorted(ts) && AllFinish(ts, now) && RunsBack(ts[0], now)
    ensures var fired := Updated(ts, now).fired; |fired| >= 2 && fired[0].at > fired[1].at
  {
    hide Step, Updated, TotalWork, Sorted, Filed, AllFinish;
    BackInFront(ts, now);
    UpdateUnfolds(ts, now);
    UpdateUnfolds(Step(ts), now);
  }

  lemma {:induction false} BackwardOutOfOrder(ts: Table, now: int, e: Entry)
    requires Filed(ts) && Sorted(ts) && AllFinish(ts, now) && e in ts && RunsBack(e, now)
    ensures !InOrder(Updated(ts, now).fired)
    decreases TotalWork(ts, now)
  {
    var i :| 0 <= i < |ts| && ts[i] == e;
    UpdateUnfolds(ts, now);
    if RunsBack(ts[0], now) {
      BackAtOnce(ts, now);
    } else {
      var t := OnTimer(ts[0].timer);
      assert e == ts[1..][i - 1];
      InsertHas(ts[1..], Entry(t.time, t), e);
      BackwardOutOfOrder(Step(ts), now, e);
      OutOfOrderStays(FiringOf(ts[0]), Updated(Step(ts), now).fired);
    }
  }

  lemma OutOfOrderStays(fired: seq<Firing>, rest: seq<Firing>)
    requires !InOrder(rest)
    ensures !InOrder(fired + rest)
  {
    var i, j :| 0 <= i < j < |rest| && rest[i].at > rest[j].at;
    assert (fired + rest)[|fired| + i] == rest[i] && (fired + rest)[|fired| + j] == rest[j];
  }

  lemma {:induction false} FiredByNow(ts: Table, now: int)
    requires Filed(ts) && Sorted(ts) && AllFinish(ts, now)
    ensures forall f <- Updated(ts, now).fired :: f.at <= now
    decreases TotalWork(ts, now)
  {
    if !Stopped(ts, now) {
      UpdateUnfolds(ts, now);
      FiredByNow(Step(ts), now);
    }
  }

  /** Nothing fires before its time; and firings happen in the order of their scheduled times if and only if no
      due timer with a negative period has more than one repeat left. */
  lemma FiresInOrder(ts: Table, now: int)
    requires Filed(ts) && Sorted(ts) && AllFinish(ts, now)
    ensures forall f <- Updated(ts, now).fired :: f.at <= now
    ensures InOrder(Updated(ts, now).fired) <==> NoneRunsBack(ts, now)
  {
    FiredByNow(ts, now);
    if e :| e in ts && RunsBack(e, now) {
      BackwardOutOfOrder(ts, now, e);
    } else {
      assert forall e <- ts :: e.key >= ts[0].key;
      ForwardInOrder(ts, now, if ts == [] then 0 else ts[0].key);
    }
  }

  lemma FinishesEarlier(ts: Table, n1: int, n2: int)
    requires n1 <= n2 && AllFinish(ts, n2)
    ensures AllFinish(ts, n1)
  {
    forall e <- ts
      ensures Finishes(e, n1)
    {
      assert Finishes(e, n2);
    }
  }

  ghost function Then(ts: Table, n1: int, n2: int): Outcome
    requires n1 <= n2 && Filed(ts) && Sorted(ts) && AllFinish(ts, n2)
  {
    FinishesEarlier(ts, n1, n2);
    LeftStillFinishes(ts, n1, n2);
    OnlyFutureLeft(ts, n1);
    var o := Updated(ts, n1);
    var o' := Updated(o.table, n2);
    Outcome(o'.table, o.fired + o'.fired)
  }

  lemma {:induction false} LeftStillFinishes(ts: Table, n1: int, n2: int)
    requires n1 <= n2 && Filed(ts) && Sorted(ts) && AllFinish(ts, n1) && AllFinish(ts, n2)
    ensures AllFinish(Updated(ts, n1).table, n2)
    decreases TotalWork(ts, n1)
  {
    if !Stopped(ts, n1) {
      UpdateUnfolds(ts, n1);
      UpdateUnfolds(ts, n2);
      LeftStillFinishes(Step(ts), n1, n2);
    }
  }

  lemma Assoc(a: seq<Firing>, b: seq<Firing>, c: seq<Firing>)
    ensures (a + b) + c == a + (b + c) && [] + c == c
  {
  }

  lemma ThenUnfolds(ts: Table, n1: int, n2: int)
    requires n1 <= n2 && Filed(ts) && Sorted(ts) && AllFinish(ts, n2) && !Stopped(ts, n1)
    requires Filed(Step(ts)) && Sorted(Step(ts)) && AllFinish(Step(ts), n2)
    ensures Then(ts, n1, n2) == Outcome(Then(Step(ts), n1, n2).table, FiringOf(ts[0]) + Then(Step(ts), n1, n2).fired)
  {
    FinishesEarlier(ts, n1, n2);
    FinishesEarlier(Step(ts), n1, n2);
    UpdateUnfolds(ts, n1);
    var o := Updated(Step(ts), n1);
    LeftStillFinishes(Step(ts), n1, n2);
    OnlyFutureLeft(Step(ts), n1);
    Assoc(FiringOf(ts[0]), o.fired, Updated(o.table, n2).fired);
  }

  /** Catching up does not depend on how often `update` is polled: an update at `n1` and then at `n2` gives
      the same firings, in the same order, and the same table, order of equal times included, as one at `n2`. */
  lemma {:induction false} PollingDoesNotMatter(ts: Table, n1: int, n2: int)
    requires n1 <= n2 && Filed(ts) && Sorted(ts) && AllFinish(ts, n2)
    ensures Then(ts, n1, n2) == Updated(ts, n2)
    decreases TotalWork(ts, n2)
  {
    FinishesEarlier(ts, n1, n2);
    if Stopped(ts, n1) {
      Assoc([], [], Updated(ts, n2).fired);
    } else {
      UpdateUnfolds(ts, n2);
      ThenUnfolds(ts, n1, n2);
      PollingDoesNotMatter(Step(ts), n1, n2);
    }
  }

  // ---------------------------------------------------------------- each timer's exact schedule

  ghost predicate DistinctIds(ts: Table) {
    forall i, j :: 0 <= i < j < |ts| ==> ts[i].timer.id != ts[j].timer.id
  }

  ghost predicate HasId(ts: Table, id: nat) {
    exists e <- ts :: e.timer.id == id
  }

  /** Every entry after an iteration carries the id of an entry before it. */
  lemma IdFromBefore(ts: Table, x: Entry)
    requires ts != [] && x in Step(ts)
    ensures HasId(ts, x.timer.id)
    ensures OnTimer(ts[0].timer).repeat == 0 ==> x in ts[1..]
  {
    StepHas(ts, x);
    assert ts[0] in ts && forall e <- ts[1..] :: e in ts;
  }

  lemma StepKeepsDistinct(ts: Table)
    requires ts != [] && DistinctIds(ts)
    ensures DistinctIds(Step(ts))
  {
  }

  lemma StepKeepsIds(ts: Table, id: nat)
    requires ts != [] && DistinctIds(ts)
    requires !HasId(ts, id) || (id == ts[0].timer.id && OnTimer(ts[0].timer).repeat == 0)
    ensures !HasId(Step(ts), id)
  {
    forall x | x in Step(ts)
      ensures x.timer.id != id
    {
      IdFromBefore(ts, x);
    }
  }

  ghost function Filter(fired: seq<Firing>, id: nat): seq<Firing> {
    if fired == [] then []
    else (if fired[0].id == id then [fired[0]] else []) + Filter(fired[1..], id)
  }

  lemma FilterStep(e: Entry, fired: seq<Firing>, id: nat)
    ensures Filter(FiringOf(e) + fired, id) ==
            (if e.timer.repeat != 0 && e.timer.id == id then [Firing(id, e.key)] else []) + Filter(fired, id)
  {
    if e.timer.repeat == 0 {
      assert FiringOf(e) + fired == fired;
    } else {
      assert (FiringOf(e) + fired)[1..] == fired;
    }
  }

  /** The entry after `n` firings. */
  ghost function Later(e: Entry, n: nat): Entry {
    var time := e.key + n * e.timer.period;
    Entry(time, e.timer.(time := time, repeat := if e.timer.repeat > 0 then e.timer.repeat - n else e.timer.repeat))
  }

  /** The first `n` firings of an entry: one every period, from its due time on. */
  ghost function Schedule(e: Entry, n: nat): seq<Firing> {
    seq(n, k requires 0 <= k < n => Firing(e.timer.id, e.key + k * e.timer.period))
  }

  ghost predicate Survives(e: Entry, now: int)
    requires Finishes(e, now)
  {
    e.key > now || e.timer.repeat < 0 || e.timer.repeat > Fires(e, now)
  }

  lemma ScheduleUnfolds(e: Entry, n: nat)
    requires e.key == e.timer.time && e.timer.repeat != 0 && n > 0
    ensures var e' := Entry(OnTimer(e.timer).time, OnTimer(e.timer));
            && Schedule(e, n) == [Firing(e.timer.id, e.key)] + Schedule(e', n - 1)
            && (e'.timer.repeat != 0 ==> Later(e, n) == Later(e', n - 1))
  {
    var p := e.timer.period;
    forall k: nat | k < n - 1
      ensures e.key + (k + 1) * p == (e.key + p) + k * p
    {
    }
    assert n * p == p + (n - 1) * p;
  }

  lemma {:induction false} NotScheduled(ts: Table, now: int, id: nat)
    requires Filed(ts) && Sorted(ts) && AllFinish(ts, now) && DistinctIds(ts) && !HasId(ts, id)
    ensures Filter(Updated(ts, now).fired, id) == [] && !HasId(Updated(ts, now).table, id)
    decreases TotalWork(ts, now)
  {
    if !Stopped(ts, now) {
      UpdateUnfolds(ts, now);
      StepKeepsDistinct(ts);
      StepKeepsIds(ts, id);
      assert ts[0] in ts && ts[0].timer.id != id;
      NotScheduled(Step(ts), now, id);
      FilterStep(ts[0], Updated(Step(ts), now).fired, id);
    }
  }

  /** In outcome `o`, entry `e` fired exactly on its schedule, and is in the table at its next due time with its
      repeat count reduced, or gone if its repeats are used up. */
  ghost predicate Fate(o: Outcome, e: Entry, now: int) {
    && Finishes(e, now)
    && Filter(o.fired, e.timer.id) == Schedule(e, Fires(e, now))
    && if Survives(e, now) then Later(e, Fires(e, now)) in o.table else !HasId(o.table, e.timer.id)
  }

  lemma FateOfFirst(e: Entry, now: int, o: Outcome)
    requires Finishes(e, now) && e.key <= now && e.key == e.timer.time
    requires var t := OnTimer(e.timer);
             if t.repeat == 0 then Filter(o.fired, e.timer.id) == [] && !HasId(o.table, e.timer.id)
             else Fate(o, Entry(t.time, t), now)
    ensures Fate(Outcome(o.table, FiringOf(e) + o.fired), e, now)
  {
    FilterStep(e, o.fired, e.timer.id);
    if e.timer.repeat != 0 {
      FireOnce(e, now);
      ScheduleUnfolds(e, Fires(e, now));
    }
  }

  lemma FateOfOther(e: Entry, first: Entry, now: int, o: Outcome)
    requires Fate(o, e, now) && first.timer.id != e.timer.id
    ensures Fate(Outcome(o.table, FiringOf(first) + o.fired), e, now)
  {
    FilterStep(first, o.fired, e.timer.id);
  }

  lemma FateOfFuture(ts: Table, e: Entry, now: int)
    requires e in ts && e.key > now && Filed(ts)
    ensures Fate(Outcome(ts, []), e, now)
  {
  }

  /** Each timer fires exactly `Fires` times, once every period from its due time. */
  lemma {:induction false} FiresExactly(ts: Table, now: int, e: Entry)
    requires Filed(ts) && Sorted(ts) && AllFinish(ts, now) && DistinctIds(ts) && e in ts
    ensures Fate(Updated(ts, now), e, now)
    decreases TotalWork(ts, now)
  {
    var i :| 0 <= i < |ts| && ts[i] == e;
    if Stopped(ts, now) {
      FateOfFuture(ts, e, now);
    } else {
      UpdateUnfolds(ts, now);
      StepKeepsDistinct(ts);
      var o, t := Updated(Step(ts), now), OnTimer(ts[0].timer);
      if i > 0 {
        assert e == ts[1..][i - 1];
        InsertHas(ts[1..], Entry(t.time, t), e);
        FiresExactly(Step(ts), now, e);
        FateOfOther(e, ts[0], now, o);
      } else {
        if t.repeat == 0 {
          StepKeepsIds(ts, e.timer.id);
          NotScheduled(Step(ts), now, e.timer.id);
        } else {
          InsertHas(ts[1..], Entry(t.time, t), Entry(t.time, t));
          FiresExactly(Step(ts), now, Entry(t.time, t));
        }
        FateOfFirst(e, now, o);
      }
    }
  }

  // ---------------------------------------------------------------- the manager

  class TimerManager {
    var timers: Table

    ghost predicate Valid()
      reads this
    {
      Sorted(timers) && Filed(timers)
    }

    constructor ()
      ensures Valid() && timers == []
    {
      timers := [];
    }

    /** `std::multimap::insert`: the new entry goes after every entry whose key is not greater. */
    method Multiinsert(e: Entry) returns (pos: nat)
      modifies this
      ensures pos == UpperBound(old(timers), e.key)
      ensures timers == Insert(old(timers), e)
    {
      pos := 0;
      while pos < |timers| && timers[pos].key <= e.key
        invariant pos <= |timers| && timers == old(timers)
        invariant UpperBound(timers, e.key) == pos + UpperBound(timers[pos..], e.key)
      {
        assert timers[pos..][1..] == timers[pos + 1..];
        pos := pos + 1;
      }
      timers := timers[..pos] + [e] + timers[pos..];
    }

    method Schedule(now: int, period: int, repeat: int, id: nat)
      requires Valid()
      modifies this
      ensures Valid()
      ensures timers == Insert(old(timers), Entry(now, Timer(id, now, period, repeat)))
    {
      var t := Timer(id, now, period, repeat);
      InsertSorted(timers, Entry(t.time, t));
      forall x | x in Insert(timers, Entry(t.time, t))
        ensures x.key == x.timer.time
      {
        InsertHas(timers, Entry(t.time, t), x);
      }
      var _ := Multiinsert(Entry(t.time, t));
    }

    /** The reinsertion in `update`, with the iterator at the first entry of what is left. */
    method Reinsert(e: Entry, it: nat) returns (it': nat)
      requires it == 0
      modifies this
      ensures timers == Insert(old(timers), e) && it' == 0
    {
      it' := it;
      var newIt := Multiinsert(e);
      assert timers[newIt] == e;
      var next := if newIt <= it' then it' + 1 else it';    // the iterator stays with its entry
      if next == |timers| || timers[newIt].key < timers[next].key {
        it' := newIt;
      } else {
        it' := next;
      }
    }

    /** The body of the loop in `update`: fire, erase, reinsert, move the iterator. */
    method FireFirst(it: nat) returns (it': nat)
      requires Valid() && timers != [] && it == 0
      modifies this
      ensures timers == Step(old(timers)) && it' == 0
    {
      hide Sorted, Filed, Insert, OnTimer;
      it' := it;
      var t := OnTimer(timers[it'].timer);
      timers := timers[it' := Entry(timers[it'].key, t)];
      timers := timers[..it'] + timers[it' + 1..];
      assert timers == old(timers)[1..];
      if t.repeat != 0 {
        it' := Reinsert(Entry(t.time, t), it');
      }
    }

    /** The loop of `update`. Before every iteration the iterator is at the first, least entry. */
    method Update(now: int) returns (fired: seq<Firing>)
      requires Valid() && AllFinish(timers, now)
      modifies this
      ensures Valid()
      ensures Outcome(timers, fired) == Updated(old(timers), now)
    {
      fired := [];
      if |timers| == 0 {
        return;
      }
      var it := 0;
      while it != |timers|
        invariant it == 0 && Valid() && AllFinish(timers, now)
        invariant Updated(old(timers), now) == Prefixed(fired, Updated(timers, now))
        decreases TotalWork(timers, now)
      {
        if timers[it].key > now {
          return;
        }
        UpdateUnfolds(timers, now);
        Assoc(fired, FiringOf(timers[it]), Updated(Step(timers), now).fired);
        fired := fired + FiringOf(timers[it]);
        it := FireFirst(it);
      }
    }
  }

  ghost function Prefixed(fired: seq<Firing>, o: Outcome): Outcome {
    Outcome(o.table, fired + o.fired)
  }
}
