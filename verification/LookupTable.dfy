/**
 * `threadsafe_lookup_table` of 第六章/threadsafe_look_up.cpp: a hash table with one reader-writer lock
 * per bucket. `Buckets` holds the bucket operations; `LookupTable` the protocol of any number of
 * threads, where acquiring a lock, each element of the list walk, the work at the place found and
 * releasing the lock are separate steps, and `get_map` takes the locks one at a time and copies one
 * list element per step.
 */
module Buckets {
  type Key(==, !new)
  type Value(==, !new)

  datatype Option<T> = None | Some(value: T)

  type Data = seq<(Key, Value)>

  /** The position of the first entry with this key, or the length if there is none. */
  function Find(data: Data, key: Key): (i: nat)
    ensures i <= |data|
    ensures i < |data| ==> data[i].0 == key
    ensures forall j :: 0 <= j < i ==> data[j].0 != key
  {
    if data == [] || data[0].0 == key then 0 else 1 + Find(data[1..], key)
  }

  function Lookup(data: Data, key: Key): Option<Value> {
    if Find(data, key) < |data| then Some(data[Find(data, key)].1) else None
  }

  function AddOrUpdate(data: Data, key: Key, value: Value): Data {
    var i := Find(data, key);
    if i == |data| then data + [(key, value)] else data[i := (data[i].0, value)]
  }

  function Remove(data: Data, key: Key): Data {
    var i := Find(data, key);
    if i == |data| then data else data[..i] + data[i + 1..]
  }

  ghost predicate Distinct(data: Data) {
    forall i, j :: 0 <= i < j < |data| ==> data[i].0 != data[j].0
  }

  lemma FindIs(data: Data, key: Key, i: nat)
    requires i < |data| && data[i].0 == key && Distinct(data)
    ensures Find(data, key) == i
  {
  }

  lemma FindNone(data: Data, key: Key)
    requires forall j :: 0 <= j < |data| ==> data[j].0 != key
    ensures Find(data, key) == |data|
  {
  }

  /** Adding keeps keys distinct and changes the answer for exactly one key. */
  lemma AddOrUpdateMeans(data: Data, key: Key, value: Value)
    requires Distinct(data)
    ensures Distinct(AddOrUpdate(data, key, value))
    ensures Lookup(AddOrUpdate(data, key, value), key) == Some(value)
    ensures forall k :: k != key ==> Lookup(AddOrUpdate(data, key, value), k) == Lookup(data, k)
    ensures forall e <- AddOrUpdate(data, key, value) :: e.0 == key || e in data
  {
    var i, data' := Find(data, key), AddOrUpdate(data, key, value);
    FindIs(data', key, i);
    forall k | k != key
      ensures Lookup(data', k) == Lookup(data, k)
    {
      var j := Find(data, k);
      if j < |data| {
        FindIs(data', k, j);
      } else {
        FindNone(data', k);
      }
    }
  }

  lemma RemoveKeepsOther(data: Data, key: Key, k: Key)
    requires Distinct(data) && k != key
    ensures Lookup(Remove(data, key), k) == Lookup(data, k)
  {
    var i, data', j := Find(data, key), Remove(data, key), Find(data, k);
    if i < |data| {
      assert forall n :: 0 <= n < |data'| ==> data'[n] == data[if n < i then n else n + 1];
      if j < |data| {
        FindIs(data', k, if j < i then j else j - 1);
      } else {
        FindNone(data', k);
      }
    }
  }

  lemma RemoveForgets(data: Data, key: Key)
    requires Distinct(data)
    ensures Distinct(Remove(data, key)) && Lookup(Remove(data, key), key) == None
    ensures forall e <- Remove(data, key) :: e in data
  {
    var i, data' := Find(data, key), Remove(data, key);
    assert i < |data| ==> forall j :: 0 <= j < |data'| ==> data'[j] == data[if j < i then j else j + 1];
    FindNone(data', key);
  }

  /** Removing keeps keys distinct and forgets exactly one key. */
  lemma RemoveMeans(data: Data, key: Key)
    requires Distinct(data)
    ensures Distinct(Remove(data, key))
    ensures Lookup(Remove(data, key), key) == None
    ensures forall k :: k != key ==> Lookup(Remove(data, key), k) == Lookup(data, k)
    ensures forall e <- Remove(data, key) :: e in data
  {
    hide Lookup, Remove, Distinct;
    RemoveForgets(data, key);
    forall k | k != key
      ensures Lookup(Remove(data, key), k) == Lookup(data, k)
    {
      RemoveKeepsOther(data, key, k);
    }
  }

  /** `bucket_type`: the list is updated in place. */
  class BucketType {
    var data: Data

    constructor ()
      ensures data == []
    {
      data := [];
    }

    method FindEntryFor(key: Key) returns (i: nat)
      ensures i == Find(data, key)
    {
      i := 0;
      while i < |data| && data[i].0 != key
        invariant i <= |data|
        invariant forall j :: 0 <= j < i ==> data[j].0 != key
      {
        i := i + 1;
      }
    }

    method ValueFor(key: Key, defaultValue: Value) returns (v: Value)
      ensures v == match Lookup(data, key) case Some(x) => x case None => defaultValue
    {
      var i := FindEntryFor(key);
      v := if i == |data| then defaultValue else data[i].1;
    }

    method AddOrUpdateMapping(key: Key, value: Value)
      modifies this
      ensures data == AddOrUpdate(old(data), key, value)
    {
      var i := FindEntryFor(key);
      if i == |data| {
        data := data + [(key, value)];
      } else {
        data := data[i := (data[i].0, value)];
      }
    }

    method RemoveMapping(key: Key)
      modifies this
      ensures data == Remove(old(data), key)
    {
      var i := FindEntryFor(key);
      if i != |data| {
        data := data[..i] + data[i + 1..];
      }
    }
  }
}

module LookupTable {
  import opened Buckets

  type Tid = nat

  datatype Config = Config(n: nat, hash: Key -> nat)

  /** `get_bucket`: the index of the bucket a key belongs to. */
  ghost function Index(cfg: Config, k: Key): (b: nat)
    requires cfg.n > 0
    ensures b < cfg.n
  {
    cfg.hash(k) % cfg.n
  }

  datatype Op = ValueFor(key: Key, defaultValue: Value) | Add(key: Key, value: Value) | Remove(key: Key) | GetMap
  datatype Result = Val(v: Value) | Unit | Snapshot(m: map<Key, Value>)

  datatype Lock = Free | Shared(readers: set<Tid>) | Exclusive(owner: Tid)

  /** `since` is the length of the log when the call began, `at` the position of its own event. */
  datatype Pc =
    | Idle
    | Want(op: Op, since: nat)                                 // about to lock the key's bucket
    | Locked(op: Op, since: nat, i: nat)                       // inside the bucket, looking at entry i
    | Applied(op: Op, res: Result, since: nat, at: nat)        // work done, lock still held
    | Collect(i: nat, since: nat)                              // get_map: holds locks 0 .. i - 1
    | Copy(b: nat, e: nat, m: map<Key, Value>, since: nat)     // get_map: all locked, next is entry e of bucket b
    | Release(i: nat, m: map<Key, Value>, since: nat, at: nat) // get_map: returning m, holds locks i .. n - 1

  datatype Event = Event(tid: Tid, op: Op, res: Result)

  datatype State = State(buckets: seq<Data>, locks: seq<Lock>, pcs: map<Tid, Pc>, log: seq<Event>)

  datatype Action =
    | Call(t: Tid, op: Op)
    | Acquire(t: Tid)
    | Walk(t: Tid)
    | Work(t: Tid)
    | Unlock(t: Tid)
    | MapAcquire(t: Tid)
    | MapCopy(t: Tid)
    | MapRelease(t: Tid)

  // ---------------------------------------------------------------- the sequential map

  ghost function Answer(m: map<Key, Value>, op: Op): Result {
    match op
    case ValueFor(k, d) => Val(if k in m then m[k] else d)
    case Add(_, _) => Unit
    case Remove(_) => Unit
    case GetMap => Snapshot(m)
  }

  ghost function After(m: map<Key, Value>, op: Op): map<Key, Value> {
    match op
    case Add(k, v) => m[k := v]
    case Remove(k) => m - {k}
    case _ => m
  }

  /** The map after the logged operations, in the order they took effect. */
  ghost function Replay(log: seq<Event>): map<Key, Value> {
    if log == [] then map[] else After(Replay(log[..|log| - 1]), log[|log| - 1].op)
  }

  /** Every logged operation answered what the one map would have answered at that moment. */
  ghost predicate Legal(log: seq<Event>) {
    forall i :: 0 <= i < |log| ==> log[i].res == Answer(Replay(log[..i]), log[i].op)
  }

  // ---------------------------------------------------------------- steps

  ghost predicate Init(s: State, cfg: Config) {
    && cfg.n > 0 && s.buckets == seq(cfg.n, _ => []) && s.locks == seq(cfg.n, _ => Free)
    && s.log == [] && forall t <- s.pcs :: s.pcs[t] == Idle
  }

  ghost predicate CanLock(l: Lock, op: Op) {
    l == Free || (op.ValueFor? && l.Shared?)
  }

  /** The list walk of thread `t` ends here: at the end of the bucket, or at an entry with the key. */
  ghost predicate Arrived(data: Data, key: Key, i: nat) {
    i >= |data| || data[i].0 == key
  }

  ghost predicate Enabled(s: State, cfg: Config, a: Action) {
    && a.t in s.pcs && cfg.n > 0 && |s.buckets| == cfg.n && |s.locks| == cfg.n
    && match a
       case Call(t, _) => s.pcs[t] == Idle
       case Acquire(t) =>
         && s.pcs[t].Want? && !s.pcs[t].op.GetMap?
         && CanLock(s.locks[Index(cfg, s.pcs[t].op.key)], s.pcs[t].op)
       case Walk(t) =>
         && s.pcs[t].Locked? && !s.pcs[t].op.GetMap?
         && !Arrived(s.buckets[Index(cfg, s.pcs[t].op.key)], s.pcs[t].op.key, s.pcs[t].i)
       case Work(t) =>
         && s.pcs[t].Locked? && !s.pcs[t].op.GetMap?
         && Arrived(s.buckets[Index(cfg, s.pcs[t].op.key)], s.pcs[t].op.key, s.pcs[t].i)
       case Unlock(t) => s.pcs[t].Applied? && !s.pcs[t].op.GetMap?
       case MapAcquire(t) => s.pcs[t].Collect? && s.pcs[t].i < cfg.n && s.locks[s.pcs[t].i] == Free
       case MapCopy(t) => s.pcs[t].Copy?
       case MapRelease(t) => s.pcs[t].Release?
  }

  ghost function LockFor(l: Lock, t: Tid, op: Op): Lock {
    if op.ValueFor? then Shared((if l.Shared? then l.readers else {}) + {t}) else Exclusive(t)
  }

  ghost function UnlockBy(l: Lock, t: Tid): Lock {
    if l.Shared? && l.readers != {t} then Shared(l.readers - {t}) else Free
  }

  /** What the operation does with the place its walk has found. */
  ghost function WorkAt(data: Data, op: Op, i: nat): (Data, Result)
    requires !op.GetMap?
  {
    match op
    case ValueFor(_, d) => (data, Val(if i < |data| then data[i].1 else d))
    case Add(k, v) => (if i < |data| then data[i := (data[i].0, v)] else data + [(k, v)], Unit)
    case Remove(_) => (if i < |data| then data[..i] + data[i + 1..] else data, Unit)
  }

  /** `std::map::insert`: an existing key keeps its value. */
  ghost function InsertNew(m: map<Key, Value>, e: (Key, Value)): map<Key, Value> {
    if e.0 in m then m else m[e.0 := e.1]
  }

  /** One step of the copying loops of `get_map`, the log having `logged` events. */
  ghost function CopyNext(pc: Pc, buckets: seq<Data>, logged: nat): Pc
    requires pc.Copy?
  {
    if pc.b >= |buckets| then Release(0, pc.m, pc.since, if logged == 0 then 0 else logged - 1)
    else if pc.e >= |buckets[pc.b]| then Copy(pc.b + 1, 0, pc.m, pc.since)
    else Copy(pc.b, pc.e + 1, InsertNew(pc.m, buckets[pc.b][pc.e]), pc.since)
  }

  ghost function Next(s: State, cfg: Config, a: Action): State
    requires Enabled(s, cfg, a)
  {
    var t := a.t;
    match a
    case Call(_, op) => s.(pcs := s.pcs[t := if op.GetMap? then Collect(0, |s.log|) else Want(op, |s.log|)])
    case Acquire(_) =>
      var op := s.pcs[t].op;
      var b := Index(cfg, op.key);
      s.(locks := s.locks[b := LockFor(s.locks[b], t, op)], pcs := s.pcs[t := Locked(op, s.pcs[t].since, 0)])
    case Walk(_) => s.(pcs := s.pcs[t := Locked(s.pcs[t].op, s.pcs[t].since, s.pcs[t].i + 1)])
    case Work(_) =>
      var op := s.pcs[t].op;
      var b := Index(cfg, op.key);
      var (data, res) := WorkAt(s.buckets[b], op, s.pcs[t].i);
      s.(buckets := s.buckets[b := data], log := s.log + [Event(t, op, res)],
         pcs := s.pcs[t := Applied(op, res, s.pcs[t].since, |s.log|)])
    case Unlock(_) =>
      var b := Index(cfg, s.pcs[t].op.key);
      s.(locks := s.locks[b := UnlockBy(s.locks[b], t)], pcs := s.pcs[t := Idle])
    case MapAcquire(_) =>
      var i := s.pcs[t].i;
      var s1 := s.(locks := s.locks[i := Exclusive(t)]);
      if i + 1 < cfg.n then s1.(pcs := s.pcs[t := Collect(i + 1, s.pcs[t].since)])
      else s1.(pcs := s.pcs[t := Copy(0, 0, map[], s.pcs[t].since)],
                    log := s.log + [Event(t, GetMap, Snapshot(Replay(s.log)))])
    case MapCopy(_) => s.(pcs := s.pcs[t := CopyNext(s.pcs[t], s.buckets, |s.log|)])
    case MapRelease(_) =>
      var pc := s.pcs[t];
      if pc.i >= cfg.n then s.(pcs := s.pcs[t := Idle])
      else s.(locks := s.locks[pc.i := Free], pcs := s.pcs[t := Release(pc.i + 1, pc.m, pc.since, pc.at)])
  }

  ghost predicate Run(r: seq<State>, cfg: Config, acts: seq<Action>) {
    && |r| == |acts| + 1 && Init(r[0], cfg)
    && forall i :: 0 <= i < |acts| ==> Enabled(r[i], cfg, acts[i]) && r[i + 1] == Next(r[i], cfg, acts[i])
  }

  // ---------------------------------------------------------------- locking discipline

  ghost predicate Writes(cfg: Config, pc: Pc, b: nat)
    requires cfg.n > 0
  {
    if pc.Locked? || pc.Applied? then (pc.op.Add? || pc.op.Remove?) && Index(cfg, pc.op.key) == b
    else if pc.Collect? then b < pc.i
    else if pc.Copy? then b < cfg.n
    else pc.Release? && pc.i <= b < cfg.n
  }

  ghost predicate Reads(cfg: Config, pc: Pc, b: nat)
    requires cfg.n > 0
  {
    (pc.Locked? || pc.Applied?) && pc.op.ValueFor? && Index(cfg, pc.op.key) == b
  }

  /** Lock `b` says exactly whether thread `t` is inside its bucket, and how. */
  ghost predicate LockTells(s: State, cfg: Config, b: nat, t: Tid)
    requires b < cfg.n && |s.locks| == cfg.n && t in s.pcs
  {
    && (Writes(cfg, s.pcs[t], b) <==> s.locks[b] == Exclusive(t))
    && (Reads(cfg, s.pcs[t], b) <==> s.locks[b].Shared? && t in s.locks[b].readers)
  }

  ghost predicate LockHeldBySomeone(s: State, cfg: Config, b: nat)
    requires b < cfg.n && |s.locks| == cfg.n
  {
    match s.locks[b]
    case Free => true
    case Exclusive(t) => t in s.pcs
    case Shared(readers) => readers != {} && readers <= s.pcs.Keys
  }

  ghost predicate LockInv(s: State, cfg: Config) {
    && cfg.n > 0 && |s.buckets| == cfg.n && |s.locks| == cfg.n
    && (forall b, t :: 0 <= b < cfg.n && t in s.pcs ==> LockTells(s, cfg, b, t))
    && (forall b :: 0 <= b < cfg.n ==> LockHeldBySomeone(s, cfg, b))
  }

  ghost predicate PcOk(cfg: Config, pc: Pc, logged: nat) {
    && (pc.Want? || pc.Locked? || pc.Applied? ==> !pc.op.GetMap?)
    && (pc.Collect? ==> pc.i < cfg.n) && (pc.Release? ==> pc.i <= cfg.n)
    && (pc.Copy? ==> pc.b <= cfg.n && (pc.b == cfg.n ==> pc.e == 0))
    && (pc != Idle ==> pc.since <= logged)
  }

  ghost predicate PcInv(s: State, cfg: Config) {
    forall t <- s.pcs :: PcOk(cfg, s.pcs[t], |s.log|)
  }

  /** The bucket whose lock a step changes, if any. */
  ghost function Touched(s: State, cfg: Config, a: Action): nat
    requires Enabled(s, cfg, a)
  {
    match a
    case Acquire(t) => Index(cfg, s.pcs[t].op.key)
    case Unlock(t) => Index(cfg, s.pcs[t].op.key)
    case MapAcquire(t) => s.pcs[t].i
    case MapRelease(t) => s.pcs[t].i
    case _ => cfg.n
  }

  lemma TouchedOnly(s: State, cfg: Config, a: Action, b: nat)
    requires LockInv(s, cfg) && PcInv(s, cfg) && Enabled(s, cfg, a) && b < cfg.n && b != Touched(s, cfg, a)
    ensures var s' := Next(s, cfg, a);
            && |s'.locks| == cfg.n && s'.locks[b] == s.locks[b] && s'.pcs.Keys == s.pcs.Keys
            && (forall t <- s.pcs :: t != a.t ==> s'.pcs[t] == s.pcs[t])
            && (Writes(cfg, s'.pcs[a.t], b) <==> Writes(cfg, s.pcs[a.t], b))
            && (Reads(cfg, s'.pcs[a.t], b) <==> Reads(cfg, s.pcs[a.t], b))
  {
  }

  lemma StepKeepsLock(s: State, cfg: Config, a: Action, b: nat, t: Tid)
    requires LockInv(s, cfg) && PcInv(s, cfg) && Enabled(s, cfg, a) && b < cfg.n && t in s.pcs
    ensures var s' := Next(s, cfg, a);
            t in s'.pcs && |s'.locks| == cfg.n && LockTells(s', cfg, b, t)
  {
    assert LockTells(s, cfg, b, t) && LockTells(s, cfg, b, a.t);
    if b != Touched(s, cfg, a) {
      TouchedOnly(s, cfg, a, b);
    }
  }

  lemma StepKeepsHolders(s: State, cfg: Config, a: Action, b: nat)
    requires LockInv(s, cfg) && PcInv(s, cfg) && Enabled(s, cfg, a) && b < cfg.n
    ensures |Next(s, cfg, a).locks| == cfg.n && LockHeldBySomeone(Next(s, cfg, a), cfg, b)
  {
    assert LockHeldBySomeone(s, cfg, b) && LockTells(s, cfg, b, a.t);
    if b != Touched(s, cfg, a) {
      TouchedOnly(s, cfg, a, b);
    }
  }

  lemma StepKeepsLocks(s: State, cfg: Config, a: Action)
    requires LockInv(s, cfg) && PcInv(s, cfg) && Enabled(s, cfg, a)
    ensures LockInv(Next(s, cfg, a), cfg)
  {
    var s' := Next(s, cfg, a);
    forall b, t | 0 <= b < cfg.n && t in s.pcs
      ensures t in s'.pcs && |s'.locks| == cfg.n && LockTells(s', cfg, b, t)
    {
      StepKeepsLock(s, cfg, a, b, t);
    }
    forall b | 0 <= b < cfg.n
      ensures |s'.locks| == cfg.n && LockHeldBySomeone(s', cfg, b)
    {
      StepKeepsHolders(s, cfg, a, b);
    }
    assert s'.pcs.Keys == s.pcs.Keys;
  }

  lemma OwnPcOk(s: State, cfg: Config, a: Action)
    requires Enabled(s, cfg, a) && PcOk(cfg, s.pcs[a.t], |s.log|)
    ensures var s' := Next(s, cfg, a);
            a.t in s'.pcs && |s'.log| >= |s.log| && PcOk(cfg, s'.pcs[a.t], |s'.log|)
  {
    hide WorkAt, Index, LockFor, UnlockBy, CanLock, Arrived, InsertNew, Replay;
  }

  lemma OthersStay(s: State, cfg: Config, a: Action)
    requires Enabled(s, cfg, a)
    ensures Next(s, cfg, a).pcs.Keys == s.pcs.Keys
    ensures forall t <- s.pcs :: t != a.t ==> Next(s, cfg, a).pcs[t] == s.pcs[t]
  {
  }

  lemma StepKeepsPcs(s: State, cfg: Config, a: Action)
    requires PcInv(s, cfg) && Enabled(s, cfg, a)
    ensures PcInv(Next(s, cfg, a), cfg)
  {
    OwnPcOk(s, cfg, a);
    OthersStay(s, cfg, a);
    hide Next, Enabled;
  }

  // ---------------------------------------------------------------- the buckets are one map

  /** A key occurs at most once in its bucket, and only in the bucket of its hash. */
  ghost predicate BucketOk(cfg: Config, data: Data, b: nat)
    requires cfg.n > 0
  {
    Distinct(data) && forall e <- data :: Index(cfg, e.0) == b
  }

  ghost function Get(m: map<Key, Value>, k: Key): Option<Value> {
    if k in m then Some(m[k]) else None
  }

  ghost predicate Represents(cfg: Config, buckets: seq<Data>, m: map<Key, Value>)
    requires cfg.n > 0 && |buckets| == cfg.n
  {
    && (forall b :: 0 <= b < cfg.n ==> BucketOk(cfg, buckets[b], b))
    && (forall k :: Lookup(buckets[Index(cfg, k)], k) == Get(m, k))
  }

  /** No entry that a walking thread has passed has its key. */
  ghost predicate WalkedPast(data: Data, key: Key, i: nat) {
    i <= |data| && forall j :: 0 <= j < i ==> data[j].0 != key
  }

  ghost predicate WalkOk(s: State, cfg: Config, t: Tid)
    requires cfg.n > 0 && |s.buckets| == cfg.n && t in s.pcs
  {
    s.pcs[t].Locked? && !s.pcs[t].op.GetMap? ==>
      WalkedPast(s.buckets[Index(cfg, s.pcs[t].op.key)], s.pcs[t].op.key, s.pcs[t].i)
  }

  ghost predicate WalkInv(s: State, cfg: Config) {
    cfg.n > 0 && |s.buckets| == cfg.n && forall t <- s.pcs :: WalkOk(s, cfg, t)
  }

  ghost predicate DataInv(s: State, cfg: Config) {
    cfg.n > 0 && |s.buckets| == cfg.n && Represents(cfg, s.buckets, Replay(s.log)) && Legal(s.log)
  }

  lemma Append(log: seq<Event>, e: Event)
    ensures Replay(log + [e]) == After(Replay(log), e.op)
    ensures Legal(log) && e.res == Answer(Replay(log), e.op) ==> Legal(log + [e])
  {
    assert (log + [e])[..|log|] == log;
    forall i | 0 <= i < |log|
      ensures (log + [e])[..i] == log[..i]
    {
    }
  }

  lemma ReplaceBucket(cfg: Config, buckets: seq<Data>, m: map<Key, Value>, b: nat, data: Data, m': map<Key, Value>)
    requires cfg.n > 0 && |buckets| == cfg.n && Represents(cfg, buckets, m) && b < cfg.n && BucketOk(cfg, data, b)
    requires forall k :: Index(cfg, k) == b ==> Lookup(data, k) == Get(m', k)
    requires forall k :: Index(cfg, k) != b ==> Get(m', k) == Get(m, k)
    ensures Represents(cfg, buckets[b := data], m')
  {
    forall k
      ensures Lookup(buckets[b := data][Index(cfg, k)], k) == Get(m', k)
    {
      assert Lookup(buckets[Index(cfg, k)], k) == Get(m, k);
    }
  }

  /** A walk that has arrived is at the first entry with the key, or at the end if there is none. */
  lemma ArrivedIsFind(data: Data, key: Key, i: nat)
    requires WalkedPast(data, key, i) && Arrived(data, key, i)
    ensures i == Find(data, key)
  {
  }

  /** One bucket's share of the map. */
  ghost predicate Shows(cfg: Config, data: Data, b: nat, m: map<Key, Value>)
    requires cfg.n > 0
  {
    BucketOk(cfg, data, b) && forall k :: Index(cfg, k) == b ==> Lookup(data, k) == Get(m, k)
  }

  lemma AddShows(cfg: Config, data: Data, b: nat, m: map<Key, Value>, key: Key, value: Value)
    requires cfg.n > 0 && Shows(cfg, data, b, m) && Index(cfg, key) == b
    ensures Shows(cfg, AddOrUpdate(data, key, value), b, m[key := value])
  {
    hide Lookup, Distinct, Index, AddOrUpdate;
    AddOrUpdateMeans(data, key, value);
  }

  lemma RemoveShows(cfg: Config, data: Data, b: nat, m: map<Key, Value>, key: Key)
    requires cfg.n > 0 && Shows(cfg, data, b, m) && Index(cfg, key) == b
    ensures Shows(cfg, Buckets.Remove(data, key), b, m - {key})
  {
    hide Lookup, Distinct, Index, Buckets.Remove;
    RemoveMeans(data, key);
  }

  /** At the place a walk has arrived at, the operation is the one on the whole bucket. */
  lemma WorkIsMeant(data: Data, op: Op, i: nat)
    requires !op.GetMap? && WalkedPast(data, op.key, i) && Arrived(data, op.key, i)
    ensures WorkAt(data, op, i) ==
            match op
            case ValueFor(k, d) => (data, Val(match Lookup(data, k) case Some(v) => v case None => d))
            case Add(k, v) => (AddOrUpdate(data, k, v), Unit)
            case Remove(k) => (Buckets.Remove(data, k), Unit)
  {
    ArrivedIsFind(data, op.key, i);
  }

  lemma WorkOnBucket(cfg: Config, data: Data, b: nat, m: map<Key, Value>, op: Op, i: nat)
    requires cfg.n > 0 && !op.GetMap? && Shows(cfg, data, b, m) && Index(cfg, op.key) == b
    requires WalkedPast(data, op.key, i) && Arrived(data, op.key, i)
    ensures Shows(cfg, WorkAt(data, op, i).0, b, After(m, op)) && WorkAt(data, op, i).1 == Answer(m, op)
  {
    WorkIsMeant(data, op, i);
    hide WorkAt, Lookup, Index, WalkedPast, Arrived, AddOrUpdate, Buckets.Remove, BucketOk;
    match op
    case ValueFor(k, _) => assert Lookup(data, k) == Get(m, k);
    case Add(k, v) => AddShows(cfg, data, b, m, k, v);
    case Remove(k) => RemoveShows(cfg, data, b, m, k);
  }

  /** The operation at the place the walk has found changes the map as it should and gives its answer. */
  lemma WorkRepresents(cfg: Config, buckets: seq<Data>, m: map<Key, Value>, op: Op, i: nat)
    requires cfg.n > 0 && |buckets| == cfg.n && Represents(cfg, buckets, m) && !op.GetMap?
    requires WalkedPast(buckets[Index(cfg, op.key)], op.key, i) && Arrived(buckets[Index(cfg, op.key)], op.key, i)
    ensures var b := Index(cfg, op.key);
            var (data, res) := WorkAt(buckets[b], op, i);
            Represents(cfg, buckets[b := data], After(m, op)) && res == Answer(m, op)
  {
    var b := Index(cfg, op.key);
    BucketShows(cfg, buckets, m, b);
    hide WorkAt, After, Answer, Represents, WalkedPast, Arrived, Index;
    WorkOnBucket(cfg, buckets[b], b, m, op, i);
    OtherKeysKept(cfg, m, op);
    ReplaceBucket(cfg, buckets, m, b, WorkAt(buckets[b], op, i).0, After(m, op));
  }

  lemma BucketShows(cfg: Config, buckets: seq<Data>, m: map<Key, Value>, b: nat)
    requires cfg.n > 0 && |buckets| == cfg.n && Represents(cfg, buckets, m) && b < cfg.n
    ensures Shows(cfg, buckets[b], b, m)
  {
    assert BucketOk(cfg, buckets[b], b);
    forall k | Index(cfg, k) == b
      ensures Lookup(buckets[b], k) == Get(m, k)
    {
      assert Lookup(buckets[Index(cfg, k)], k) == Get(m, k);
    }
  }

  lemma OtherKeysKept(cfg: Config, m: map<Key, Value>, op: Op)
    requires cfg.n > 0 && !op.GetMap?
    ensures forall k :: Index(cfg, k) != Index(cfg, op.key) ==> Get(After(m, op), k) == Get(m, k)
  {
  }

  /** While a thread is inside a bucket, no other thread's step changes that bucket: this is what its lock is for. */
  lemma BucketStaysPut(s: State, cfg: Config, a: Action, t: Tid)
    requires LockInv(s, cfg) && Enabled(s, cfg, a) && t in s.pcs && t != a.t
    requires s.pcs[t].Locked? && !s.pcs[t].op.GetMap?
    ensures var b := Index(cfg, s.pcs[t].op.key);
            |Next(s, cfg, a).buckets| == cfg.n && Next(s, cfg, a).buckets[b] == s.buckets[b]
  {
    var b := Index(cfg, s.pcs[t].op.key);
    assert LockTells(s, cfg, b, t) && LockTells(s, cfg, b, a.t);
  }

  lemma OwnWalk(s: State, cfg: Config, a: Action)
    requires cfg.n > 0 && |s.buckets| == cfg.n && Enabled(s, cfg, a) && WalkOk(s, cfg, a.t)
    ensures var s' := Next(s, cfg, a); |s'.buckets| == cfg.n && a.t in s'.pcs && WalkOk(s', cfg, a.t)
  {
  }

  /** A walk stays right, because nobody changes the list under it. */
  lemma StepKeepsWalks(s: State, cfg: Config, a: Action)
    requires LockInv(s, cfg) && WalkInv(s, cfg) && Enabled(s, cfg, a)
    ensures WalkInv(Next(s, cfg, a), cfg)
  {
    var s' := Next(s, cfg, a);
    OwnWalk(s, cfg, a);
    forall t <- s'.pcs
      ensures WalkOk(s', cfg, t)
    {
      if t != a.t && s.pcs[t].Locked? && !s.pcs[t].op.GetMap? {
        assert WalkOk(s, cfg, t);
        BucketStaysPut(s, cfg, a, t);
      }
    }
  }

  lemma WorkKeepsData(s: State, cfg: Config, t: Tid)
    requires DataInv(s, cfg) && WalkInv(s, cfg) && Enabled(s, cfg, Work(t))
    ensures DataInv(Next(s, cfg, Work(t)), cfg)
  {
    var op, i := s.pcs[t].op, s.pcs[t].i;
    var b := Index(cfg, op.key);
    assert WalkOk(s, cfg, t);
    WorkRepresents(cfg, s.buckets, Replay(s.log), op, i);
    hide WorkAt, Index, Represents, Legal, Replay, After, Answer, WalkedPast;
    Append(s.log, Event(t, op, WorkAt(s.buckets[b], op, i).1));
  }

  lemma StepKeepsData(s: State, cfg: Config, a: Action)
    requires DataInv(s, cfg) && WalkInv(s, cfg) && Enabled(s, cfg, a)
    ensures DataInv(Next(s, cfg, a), cfg)
  {
    hide Represents, Legal, Replay, WalkInv;
    if a.Work? {
      WorkKeepsData(s, cfg, a.t);
    } else if a.MapAcquire? {
      SnapshotKeepsData(s, cfg, a.t);
    } else {
      assert Next(s, cfg, a).buckets == s.buckets && Next(s, cfg, a).log == s.log;
    }
  }

  lemma SnapshotKeepsData(s: State, cfg: Config, t: Tid)
    requires DataInv(s, cfg) && Enabled(s, cfg, MapAcquire(t))
    ensures DataInv(Next(s, cfg, MapAcquire(t)), cfg)
  {
    hide Represents, Legal, Replay;
    Append(s.log, Event(t, GetMap, Snapshot(Replay(s.log))));
  }

  // ---------------------------------------------------------------- the snapshot

  ghost function Flat(buckets: seq<Data>): Data {
    if buckets == [] then [] else Flat(buckets[..|buckets| - 1]) + buckets[|buckets| - 1]
  }

  ghost function MapOf(items: Data): map<Key, Value> {
    if items == [] then map[] else InsertNew(MapOf(items[..|items| - 1]), items[|items| - 1])
  }

  /** The entries copied before reaching entry `e` of bucket `b`. */
  ghost function Before(buckets: seq<Data>, b: nat, e: nat): Data {
    if b < |buckets| && e <= |buckets[b]| then Flat(buckets[..b]) + buckets[b][..e] else Flat(buckets)
  }

  lemma CopyOne(buckets: seq<Data>, b: nat, e: nat)
    requires b < |buckets| && e < |buckets[b]|
    ensures MapOf(Before(buckets, b, e + 1)) == InsertNew(MapOf(Before(buckets, b, e)), buckets[b][e])
  {
    var items := Before(buckets, b, e + 1);
    assert items[..|items| - 1] == Before(buckets, b, e) && items[|items| - 1] == buckets[b][e];
  }

  lemma CopyNextBucket(buckets: seq<Data>, b: nat)
    requires b < |buckets|
    ensures Before(buckets, b + 1, 0) == Before(buckets, b, |buckets[b]|)
  {
    assert buckets[..b + 1][..b] == buckets[..b];
    assert buckets[b][..|buckets[b]|] == buckets[b];
    assert b + 1 == |buckets| ==> buckets[..b + 1] == buckets;
    if b + 1 < |buckets| {
      assert Flat(buckets[..b + 1]) + buckets[b + 1][..0] == Flat(buckets[..b + 1]);
    }
  }

  lemma {:induction false} MapOfKnown(items: Data, m: map<Key, Value>)
    requires forall e <- items :: Get(m, e.0) == Some(e.1)
    ensures forall k <- MapOf(items) :: Get(m, k) == Some(MapOf(items)[k])
    ensures forall e <- items :: e.0 in MapOf(items)
  {
    if items != [] {
      MapOfKnown(items[..|items| - 1], m);
    }
  }

  lemma {:induction false} FlatHas(buckets: seq<Data>)
    ensures forall e <- Flat(buckets) :: exists b :: 0 <= b < |buckets| && e in buckets[b]
    ensures forall b :: 0 <= b < |buckets| ==> forall e <- buckets[b] :: e in Flat(buckets)
  {
    if buckets != [] {
      FlatHas(buckets[..|buckets| - 1]);
    }
  }

  lemma EntriesKnown(cfg: Config, buckets: seq<Data>, m: map<Key, Value>, e: (Key, Value))
    requires cfg.n > 0 && |buckets| == cfg.n && Represents(cfg, buckets, m) && e in Flat(buckets)
    ensures Get(m, e.0) == Some(e.1)
  {
    FlatHas(buckets);
    var b :| 0 <= b < |buckets| && e in buckets[b];
    assert BucketOk(cfg, buckets[b], b) && Index(cfg, e.0) == b;
    var i :| 0 <= i < |buckets[b]| && buckets[b][i] == e;
    FindIs(buckets[b], e.0, i);
    assert Lookup(buckets[Index(cfg, e.0)], e.0) == Get(m, e.0);
  }

  lemma KeysPresent(cfg: Config, buckets: seq<Data>, m: map<Key, Value>, k: Key)
    requires cfg.n > 0 && |buckets| == cfg.n && Represents(cfg, buckets, m) && k in m
    ensures exists e <- Flat(buckets) :: e.0 == k
  {
    FlatHas(buckets);
    var data := buckets[Index(cfg, k)];
    assert Lookup(data, k) == Get(m, k);
    assert data[Find(data, k)] in Flat(buckets);
  }

  lemma MapOfAll(cfg: Config, buckets: seq<Data>, m: map<Key, Value>)
    requires cfg.n > 0 && |buckets| == cfg.n && Represents(cfg, buckets, m)
    ensures MapOf(Flat(buckets)) == m
  {
    hide Represents, Flat, MapOf;
    forall e <- Flat(buckets)
      ensures Get(m, e.0) == Some(e.1)
    {
      EntriesKnown(cfg, buckets, m, e);
    }
    MapOfKnown(Flat(buckets), m);
    forall k <- m
      ensures k in MapOf(Flat(buckets))
    {
      KeysPresent(cfg, buckets, m, k);
    }
  }

  lemma HoldsAll(s: State, cfg: Config, t: Tid)
    requires LockInv(s, cfg) && t in s.pcs && s.pcs[t].Copy?
    ensures forall b :: 0 <= b < cfg.n ==> s.locks[b] == Exclusive(t)
  {
    forall b | 0 <= b < cfg.n
      ensures s.locks[b] == Exclusive(t)
    {
      assert LockTells(s, cfg, b, t);
    }
  }

  lemma WorkerHolds(s: State, cfg: Config, t: Tid)
    requires LockInv(s, cfg) && t in s.pcs && s.pcs[t].Locked? && !s.pcs[t].op.GetMap?
    ensures var l := s.locks[Index(cfg, s.pcs[t].op.key)]; l == Exclusive(t) || l.Shared?
  {
    assert LockTells(s, cfg, Index(cfg, s.pcs[t].op.key), t);
  }

  /** While a thread copies, no other thread can touch a bucket or take effect. */
  lemma AloneWhileCopying(s: State, cfg: Config, a: Action, t: Tid)
    requires LockInv(s, cfg) && Enabled(s, cfg, a)
    requires t in s.pcs && t != a.t && s.pcs[t].Copy?
    ensures Next(s, cfg, a).buckets == s.buckets && Next(s, cfg, a).log == s.log
  {
    HoldsAll(s, cfg, t);
    if a.Work? {
      WorkerHolds(s, cfg, a.t);
    }
  }

  /** What each thread will return is what the log says it answered. */
  ghost predicate PcReturns(pc: Pc, buckets: seq<Data>, log: seq<Event>, t: Tid) {
    match pc
    case Applied(op, res, since, at) => since <= at < |log| && log[at] == Event(t, op, res)
    case Copy(b, e, m, since) =>
      && since < |log| && log[|log| - 1] == Event(t, GetMap, Snapshot(Replay(log)))
      && m == MapOf(Before(buckets, b, e)) && (b < |buckets| ==> e <= |buckets[b]|)
    case Release(_, m, since, at) => since <= at < |log| && log[at] == Event(t, GetMap, Snapshot(m))
    case _ => true
  }

  ghost predicate Returning(s: State, cfg: Config, t: Tid)
    requires t in s.pcs
  {
    PcReturns(s.pcs[t], s.buckets, s.log, t)
  }

  ghost predicate ReturnInv(s: State, cfg: Config) {
    forall t <- s.pcs :: Returning(s, cfg, t)
  }

  lemma OthersKeepReturning(s: State, cfg: Config, a: Action, t: Tid)
    requires LockInv(s, cfg) && Enabled(s, cfg, a) && t in s.pcs && t != a.t && Returning(s, cfg, t)
    ensures t in Next(s, cfg, a).pcs && Returning(Next(s, cfg, a), cfg, t)
  {
    if s.pcs[t].Copy? {
      AloneWhileCopying(s, cfg, a, t);
    }
  }

  lemma NothingCopied(buckets: seq<Data>)
    ensures MapOf(Before(buckets, 0, 0)) == map[]
  {
    assert Before(buckets, 0, 0) == [];
  }

  lemma OwnReturning(s: State, cfg: Config, a: Action)
    requires Enabled(s, cfg, a) && Returning(s, cfg, a.t) && !a.MapCopy?
    requires s.pcs[a.t] != Idle ==> s.pcs[a.t].since <= |s.log|
    ensures a.t in Next(s, cfg, a).pcs && Returning(Next(s, cfg, a), cfg, a.t)
  {
    hide MapOf, Before, Replay, Legal, WorkAt, CopyNext;
    if a.MapAcquire? {
      Append(s.log, Event(a.t, GetMap, Snapshot(Replay(s.log))));
      NothingCopied(s.buckets);
    }
  }

  /** Copying an entry, or going on to the next bucket. */
  lemma CopyStep(pc: Pc, buckets: seq<Data>, log: seq<Event>, t: Tid)
    requires pc.Copy? && PcReturns(pc, buckets, log, t) && MapOf(Flat(buckets)) == Replay(log)
    ensures PcReturns(CopyNext(pc, buckets, |log|), buckets, log, t)
  {
    hide MapOf, Before, Flat, Replay, InsertNew;
    if pc.b >= |buckets| {
      AllCopied(buckets, pc.b, pc.e);
    } else if pc.e >= |buckets[pc.b]| {
      CopyNextBucket(buckets, pc.b);
    } else {
      CopyOne(buckets, pc.b, pc.e);
    }
  }

  lemma AllCopied(buckets: seq<Data>, b: nat, e: nat)
    requires b >= |buckets|
    ensures Before(buckets, b, e) == Flat(buckets)
  {
  }

  lemma StepKeepsReturning(s: State, cfg: Config, a: Action, t: Tid)
    requires LockInv(s, cfg) && PcInv(s, cfg) && DataInv(s, cfg) && Enabled(s, cfg, a)
    requires t in s.pcs && Returning(s, cfg, t)
    ensures t in Next(s, cfg, a).pcs && Returning(Next(s, cfg, a), cfg, t)
  {
    if t != a.t {
      OthersKeepReturning(s, cfg, a, t);
    } else if a.MapCopy? {
      MapOfAll(cfg, s.buckets, Replay(s.log));
      CopyStep(s.pcs[t], s.buckets, s.log, t);
    } else {
      OwnReturning(s, cfg, a);
    }
  }

  // ---------------------------------------------------------------- whole runs

  ghost predicate Inv(s: State, cfg: Config) {
    LockInv(s, cfg) && PcInv(s, cfg) && WalkInv(s, cfg) && DataInv(s, cfg) && ReturnInv(s, cfg)
  }

  lemma StepKeepsInv(s: State, cfg: Config, a: Action)
    requires Inv(s, cfg) && Enabled(s, cfg, a)
    ensures Inv(Next(s, cfg, a), cfg)
  {
    StepKeepsLocks(s, cfg, a);
    StepKeepsPcs(s, cfg, a);
    StepKeepsWalks(s, cfg, a);
    StepKeepsData(s, cfg, a);
    forall t <- Next(s, cfg, a).pcs
      ensures Returning(Next(s, cfg, a), cfg, t)
    {
      StepKeepsReturning(s, cfg, a, t);
    }
  }

  lemma InitInv(s: State, cfg: Config)
    requires Init(s, cfg)
    ensures Inv(s, cfg)
  {
  }

  lemma {:induction false} RunInv(r: seq<State>, cfg: Config, acts: seq<Action>, k: nat)
    requires Run(r, cfg, acts) && k < |r|
    ensures Inv(r[k], cfg)
  {
    hide Init, Inv, Next, Enabled;
    if k == 0 {
      InitInv(r[0], cfg);
    } else {
      RunInv(r, cfg, acts, k - 1);
      StepKeepsInv(r[k - 1], cfg, acts[k - 1]);
      assert r[k - 1 + 1] == Next(r[k - 1], cfg, acts[k - 1]);
    }
  }

  /** The table refines one map: replaying the operations in the order they took effect gives exactly what
      the buckets hold, every answer is the one that map gives at that moment, and each key occurs at most
      once and only in the bucket of its hash. */
  lemma RefinesMap(r: seq<State>, cfg: Config, acts: seq<Action>, k: nat)
    requires Run(r, cfg, acts) && k < |r|
    ensures cfg.n > 0 && |r[k].buckets| == cfg.n && Represents(cfg, r[k].buckets, Replay(r[k].log))
    ensures Legal(r[k].log)
  {
    RunInv(r, cfg, acts, k);
  }

  /** A single-key call returns what it answered at its own moment of effect, which lies within the call. */
  lemma EffectWithinCall(r: seq<State>, cfg: Config, acts: seq<Action>, k: nat, t: Tid)
    requires Run(r, cfg, acts) && k < |r| && t in r[k].pcs && r[k].pcs[t].Applied?
    ensures var pc, log := r[k].pcs[t], r[k].log;
            && pc.since <= pc.at < |log|
            && log[pc.at] == Event(t, pc.op, pc.res) && pc.res == Answer(Replay(log[..pc.at]), pc.op)
  {
    RunInv(r, cfg, acts, k);
    assert Returning(r[k], cfg, t);
  }

  /** `get_map` returns the whole map as it stood at one moment within the call, when it acquired its last lock. */
  lemma SnapshotIsAtomic(r: seq<State>, cfg: Config, acts: seq<Action>, k: nat, t: Tid)
    requires Run(r, cfg, acts) && k < |r| && t in r[k].pcs && r[k].pcs[t].Release?
    ensures var pc, log := r[k].pcs[t], r[k].log;
            && pc.since <= pc.at < |log|
            && log[pc.at] == Event(t, GetMap, Snapshot(pc.m)) && pc.m == Replay(log[..pc.at])
  {
    RunInv(r, cfg, acts, k);
    assert Returning(r[k], cfg, t);
  }

  ghost predicate CanMove(s: State, cfg: Config) {
    exists a: Action :: !a.Call? && Enabled(s, cfg, a)
  }

  /** Among the threads still collecting locks, one that has got furthest. */
  lemma Furthest(s: State, ts: set<Tid>) returns (t: Tid)
    requires ts != {} && forall u <- ts :: u in s.pcs && s.pcs[u].Collect?
    ensures t in ts && forall u <- ts :: s.pcs[u].i <= s.pcs[t].i
  {
    t :| t in ts;
    if ts != {t} {
      var u := Furthest(s, ts - {t});
      t := if s.pcs[u].i > s.pcs[t].i then u else t;
    }
  }

  ghost predicate PastLocking(pc: Pc) {
    pc.Locked? || pc.Applied? || pc.Copy? || pc.Release?
  }

  lemma InsiderMoves(s: State, cfg: Config, u: Tid)
    requires LockInv(s, cfg) && PcInv(s, cfg) && u in s.pcs && PastLocking(s.pcs[u])
    ensures CanMove(s, cfg)
  {
    hide LockTells, LockHeldBySomeone;
    var pc := s.pcs[u];
    if pc.Locked? {
      assert Enabled(s, cfg, Walk(u)) || Enabled(s, cfg, Work(u));
    } else {
      assert Enabled(s, cfg, if pc.Applied? then Unlock(u) else if pc.Copy? then MapCopy(u) else MapRelease(u));
    }
  }

  lemma SomeoneMoves(s: State, cfg: Config, t: Tid)
    requires Inv(s, cfg) && t in s.pcs && s.pcs[t] != Idle
    ensures CanMove(s, cfg)
  {
    if u :| u in s.pcs && PastLocking(s.pcs[u]) {
      InsiderMoves(s, cfg, u);
    } else {
      assert !PastLocking(s.pcs[t]);
      var collecting := set u | u in s.pcs && s.pcs[u].Collect?;
      assert forall u <- s.pcs :: s.pcs[u].Collect? ==> u in collecting;
      if collecting != {} {
        var u := Furthest(s, collecting);
        NobodyInside(s, cfg, s.pcs[u].i);
        assert Enabled(s, cfg, MapAcquire(u));
      } else {
        assert t !in collecting && s.pcs[t].Want?;
        NobodyInside(s, cfg, Index(cfg, s.pcs[t].op.key));
        assert Enabled(s, cfg, Acquire(t));
      }
    }
  }

  lemma HolderInside(s: State, cfg: Config, b: nat) returns (u: Tid)
    requires LockInv(s, cfg) && b < cfg.n && s.locks[b] != Free
    ensures u in s.pcs && (Writes(cfg, s.pcs[u], b) || Reads(cfg, s.pcs[u], b))
  {
    assert LockHeldBySomeone(s, cfg, b);
    if s.locks[b].Exclusive? {
      u := s.locks[b].owner;
    } else {
      u :| u in s.locks[b].readers;
    }
    assert LockTells(s, cfg, b, u);
  }

  /** If nobody is past its locking phase and nobody collecting is past bucket `b`, then `b` is unlocked. */
  lemma NobodyInside(s: State, cfg: Config, b: nat)
    requires LockInv(s, cfg) && b < cfg.n
    requires forall u <- s.pcs :: !PastLocking(s.pcs[u]) && (s.pcs[u].Collect? ==> s.pcs[u].i <= b)
    ensures s.locks[b] == Free
  {
    if s.locks[b] != Free {
      var u := HolderInside(s, cfg, b);
    }
  }

  /** Ordered acquisition admits no deadlock: whenever some thread is inside a call, some thread can step. */
  lemma NoDeadlock(r: seq<State>, cfg: Config, acts: seq<Action>, k: nat, t: Tid)
    requires Run(r, cfg, acts) && k < |r| && t in r[k].pcs && r[k].pcs[t] != Idle
    ensures CanMove(r[k], cfg)
  {
    RunInv(r, cfg, acts, k);
    SomeoneMoves(r[k], cfg, t);
  }

  // ---------------------------------------------------------------- one effect and one return for every call

  /** The calls thread `t` makes, from the actions. */
  ghost function CallsMade(acts: seq<Action>, t: Tid): seq<Op> {
    if acts == [] then []
    else
      var a := acts[|acts| - 1];
      CallsMade(acts[..|acts| - 1], t) + if a.Call? && a.t == t then [a.op] else []
  }

  /** The logged events of thread `t`, and their operations. */
  ghost function EventsOf(log: seq<Event>, t: Tid): seq<Event> {
    if log == [] then []
    else EventsOf(log[..|log| - 1], t) + if log[|log| - 1].tid == t then [log[|log| - 1]] else []
  }

  ghost function OpsOf(es: seq<Event>): (ops: seq<Op>)
    ensures |ops| == |es| && forall i :: 0 <= i < |es| ==> ops[i] == es[i].op
  {
    seq(|es|, i requires 0 <= i < |es| => es[i].op)
  }

  /** The call in progress, as long as it has not taken effect. */
  ghost function InCall(pc: Pc): seq<Op> {
    match pc
    case Want(op, _) => [op]
    case Locked(op, _, _) => [op]
    case Collect(_, _) => [GetMap]
    case _ => []
  }

  /** What the call in progress will return, once it has taken effect. */
  ghost function Owed(pc: Pc, log: seq<Event>, t: Tid): seq<Event> {
    match pc
    case Applied(op, res, _, _) => [Event(t, op, res)]
    case Copy(_, _, _, _) => [Event(t, GetMap, Snapshot(Replay(log)))]
    case Release(_, m, _, _) => [Event(t, GetMap, Snapshot(m))]
    case _ => []
  }

  /** What a thread that goes idle returns. */
  ghost function Returns(pc: Pc, pc': Pc, t: Tid): seq<Event> {
    if pc != Idle && pc' == Idle then Owed(pc, [], t) else []
  }

  ghost function Returned(r: seq<State>, t: Tid): seq<Event>
    requires forall s <- r :: t in s.pcs
  {
    if |r| <= 1 then []
    else
      assert r[|r| - 1] in r && r[|r| - 2] in r;
      Returned(r[..|r| - 1], t) + Returns(r[|r| - 2].pcs[t], r[|r| - 1].pcs[t], t)
  }

  /** What a step adds to the log. */
  ghost function Logged(s: State, cfg: Config, a: Action): seq<Event>
    requires Enabled(s, cfg, a)
  {
    match a
    case Work(t) =>
      [Event(t, s.pcs[t].op, WorkAt(s.buckets[Index(cfg, s.pcs[t].op.key)], s.pcs[t].op, s.pcs[t].i).1)]
    case MapAcquire(t) =>
      if s.pcs[t].i + 1 < cfg.n then [] else [Event(t, GetMap, Snapshot(Replay(s.log)))]
    case _ => []
  }

  lemma LogGrows(s: State, cfg: Config, a: Action)
    requires Enabled(s, cfg, a)
    ensures Next(s, cfg, a).log == s.log + Logged(s, cfg, a)
    ensures |Logged(s, cfg, a)| <= 1 && forall e <- Logged(s, cfg, a) :: e.tid == a.t
  {
  }

  lemma EventsGrow(log: seq<Event>, es: seq<Event>, t: Tid, u: Tid)
    requires |es| <= 1 && forall e <- es :: e.tid == u
    ensures EventsOf(log + es, t) == EventsOf(log, t) + if t == u then es else []
  {
    if es == [] {
      assert log + es == log;
    } else {
      assert es == [es[0]] && (log + es)[..|log|] == log;
    }
  }

  /** A thread's own step: it begins a call, takes effect, returns, or gets nearer to it. */
  ghost predicate StepsOn(s: State, s': State, cfg: Config, a: Action)
    requires Enabled(s, cfg, a) && a.t in s'.pcs
  {
    var t, es, pc, pc' := a.t, Logged(s, cfg, a), s.pcs[a.t], s'.pcs[a.t];
    && InCall(pc) + (if a.Call? then [a.op] else []) == OpsOf(es) + InCall(pc')
    && Owed(pc, s.log, t) + es == Returns(pc, pc', t) + Owed(pc', s'.log, t)
  }

  lemma OwnSingleStep(s: State, cfg: Config, a: Action)
    requires Enabled(s, cfg, a) && !a.MapAcquire? && !a.MapCopy? && !a.MapRelease?
    ensures a.t in Next(s, cfg, a).pcs && StepsOn(s, Next(s, cfg, a), cfg, a)
  {
    hide WorkAt, Replay, Index, LockFor, UnlockBy, CanLock, Arrived;
  }

  lemma OwnMapStep(s: State, cfg: Config, a: Action)
    requires Enabled(s, cfg, a) && (a.MapAcquire? || a.MapCopy? || a.MapRelease?) && Returning(s, cfg, a.t)
    requires a.t in Next(s, cfg, a).pcs && Returning(Next(s, cfg, a), cfg, a.t)
    ensures StepsOn(s, Next(s, cfg, a), cfg, a)
  {
    if a.MapAcquire? {
      Append(s.log, Event(a.t, GetMap, Snapshot(Replay(s.log))));
    }
    hide MapOf, Before, Flat, InsertNew, Replay, Legal;
  }

  lemma OwnStep(s: State, cfg: Config, a: Action)
    requires Enabled(s, cfg, a) && Returning(s, cfg, a.t)
    requires a.t in Next(s, cfg, a).pcs && Returning(Next(s, cfg, a), cfg, a.t)
    ensures StepsOn(s, Next(s, cfg, a), cfg, a)
  {
    hide *;
    if a.MapAcquire? || a.MapCopy? || a.MapRelease? {
      OwnMapStep(s, cfg, a);
    } else {
      OwnSingleStep(s, cfg, a);
    }
  }

  lemma OthersStep(s: State, cfg: Config, a: Action, t: Tid)
    requires LockInv(s, cfg) && Enabled(s, cfg, a) && t in s.pcs && t != a.t
    ensures var s' := Next(s, cfg, a);
            t in s'.pcs && s'.pcs[t] == s.pcs[t] && Owed(s'.pcs[t], s'.log, t) == Owed(s.pcs[t], s.log, t)
  {
    if s.pcs[t].Copy? {
      AloneWhileCopying(s, cfg, a, t);
    }
  }

  lemma ThreadsStay(r: seq<State>, cfg: Config, acts: seq<Action>, k: nat, t: Tid)
    requires Run(r, cfg, acts) && k < |r| && t in r[0].pcs
    ensures t in r[k].pcs
  {
    hide Init;
    if k > 0 {
      ThreadsStay(r, cfg, acts, k - 1, t);
      OthersStay(r[k - 1], cfg, acts[k - 1]);
      assert r[k - 1 + 1] == Next(r[k - 1], cfg, acts[k - 1]);
    }
  }

  ghost predicate AllHave(r: seq<State>, t: Tid) {
    forall s <- r :: t in s.pcs
  }

  lemma AllStates(r: seq<State>, cfg: Config, acts: seq<Action>, t: Tid)
    requires Run(r, cfg, acts) && t in r[0].pcs
    ensures AllHave(r, t)
  {
    forall s <- r
      ensures t in s.pcs
    {
      var k :| 0 <= k < |r| && r[k] == s;
      ThreadsStay(r, cfg, acts, k, t);
    }
  }

  /** How one step of a run moves one thread's accounts. */
  lemma AccountsAt(r: seq<State>, cfg: Config, acts: seq<Action>, n: nat, t: Tid)
    requires Run(r, cfg, acts) && n < |acts| && t in r[n].pcs && t in r[n + 1].pcs
    ensures exists es ::
              && EventsOf(r[n + 1].log, t) == EventsOf(r[n].log, t) + es
              && InCall(r[n].pcs[t]) + (if acts[n].Call? && acts[n].t == t then [acts[n].op] else [])
                 == OpsOf(es) + InCall(r[n + 1].pcs[t])
              && Owed(r[n].pcs[t], r[n].log, t) + es
                 == Returns(r[n].pcs[t], r[n + 1].pcs[t], t) + Owed(r[n + 1].pcs[t], r[n + 1].log, t)
  {
    var s, a, s' := r[n], acts[n], r[n + 1];
    RunInv(r, cfg, acts, n);
    RunInv(r, cfg, acts, n + 1);
    LogGrows(s, cfg, a);
    EventsGrow(s.log, Logged(s, cfg, a), t, a.t);
    if t == a.t {
      assert Returning(s, cfg, t) && Returning(s', cfg, t);
      OwnStep(s, cfg, a);
    } else {
      OthersStep(s, cfg, a, t);
      NothingMoves(s.pcs[t], Owed(s.pcs[t], s.log, t), t);
      assert EventsOf(s'.log, t) == EventsOf(s.log, t) + [];
    }
  }

  lemma NothingMoves(pc: Pc, owed: seq<Event>, t: Tid)
    ensures InCall(pc) + [] == OpsOf([]) + InCall(pc) && owed + [] == Returns(pc, pc, t) + owed
  {
  }

  lemma Shift(calls: seq<Op>, ops: seq<Op>, inCall: seq<Op>, now: seq<Op>, es: seq<Op>, inCall': seq<Op>)
    requires calls == ops + inCall && inCall + now == es + inCall'
    ensures calls + now == (ops + es) + inCall'
  {
    assert (ops + inCall) + now == ops + (inCall + now);
    assert (ops + es) + inCall' == ops + (es + inCall');
  }

  lemma ShiftEvents(all: seq<Event>, ret: seq<Event>, owed: seq<Event>,
                    es: seq<Event>, now: seq<Event>, owed': seq<Event>)
    requires all == ret + owed && owed + es == now + owed'
    ensures all + es == (ret + now) + owed'
  {
    assert (ret + owed) + es == ret + (owed + es);
    assert (ret + now) + owed' == ret + (now + owed');
  }

  /** For each thread: the calls it made are, in order, its logged effects, followed by one call in progress that
      has not taken effect, if there is one; and its logged effects are, result for result, what its calls have
      returned, followed by what the call in progress will return. */
  lemma {:induction false} OneEffectPerCall(r: seq<State>, cfg: Config, acts: seq<Action>, t: Tid)
    requires Run(r, cfg, acts) && t in r[0].pcs
    ensures AllHave(r, t)
    ensures var s := r[|acts|];
            && CallsMade(acts, t) == OpsOf(EventsOf(s.log, t)) + InCall(s.pcs[t])
            && EventsOf(s.log, t) == Returned(r, t) + Owed(s.pcs[t], s.log, t)
    decreases |acts|
  {
    AllStates(r, cfg, acts, t);
    hide Init, Next, Enabled, CallsMade, EventsOf, Returned, InCall, Owed, Returns;
    if acts == [] {
      NoCallsYet(r[0], cfg, r, t);
    } else {
      var n := |acts| - 1;
      AllStates(r[..n + 1], cfg, acts[..n], t);
      OneEffectPerCall(r[..n + 1], cfg, acts[..n], t);
      OneMore(r, cfg, acts, t);
    }
  }

  lemma NoCallsYet(s: State, cfg: Config, r: seq<State>, t: Tid)
    requires Init(s, cfg) && r == [s] && t in s.pcs && AllHave(r, t)
    ensures CallsMade([], t) == OpsOf(EventsOf(s.log, t)) + InCall(s.pcs[t])
    ensures EventsOf(s.log, t) == Returned(r, t) + Owed(s.pcs[t], s.log, t)
  {
  }

  lemma OneMore(r: seq<State>, cfg: Config, acts: seq<Action>, t: Tid)
    requires Run(r, cfg, acts) && acts != [] && AllHave(r, t) && AllHave(r[..|acts|], t)
    requires var n := |acts| - 1;
             && CallsMade(acts[..n], t) == OpsOf(EventsOf(r[n].log, t)) + InCall(r[n].pcs[t])
             && EventsOf(r[n].log, t) == Returned(r[..n + 1], t) + Owed(r[n].pcs[t], r[n].log, t)
    ensures var s := r[|acts|];
            && CallsMade(acts, t) == OpsOf(EventsOf(s.log, t)) + InCall(s.pcs[t])
            && EventsOf(s.log, t) == Returned(r, t) + Owed(s.pcs[t], s.log, t)
  {
    var n := |acts| - 1;
    var s, s', a := r[n], r[n + 1], acts[n];
    assert s in r && s' in r;
    var called := if a.Call? && a.t == t then [a.op] else [];
    assert CallsMade(acts, t) == CallsMade(acts[..n], t) + called;
    assert Returned(r, t) == Returned(r[..n + 1], t) + Returns(s.pcs[t], s'.pcs[t], t) by {
      assert |r| == n + 2;
    }
    AccountsAt(r, cfg, acts, n, t);
    hide Init, Next, Enabled, CallsMade, EventsOf, Returned, InCall, Owed, Returns, Run;
    var es :|
      && EventsOf(s'.log, t) == EventsOf(s.log, t) + es
      && InCall(s.pcs[t]) + called == OpsOf(es) + InCall(s'.pcs[t])
      && Owed(s.pcs[t], s.log, t) + es == Returns(s.pcs[t], s'.pcs[t], t) + Owed(s'.pcs[t], s'.log, t);
    OpsOfSum(EventsOf(s.log, t), es);
    Shift(CallsMade(acts[..n], t), OpsOf(EventsOf(s.log, t)), InCall(s.pcs[t]), called, OpsOf(es), InCall(s'.pcs[t]));
    ShiftEvents(EventsOf(s.log, t), Returned(r[..n + 1], t), Owed(s.pcs[t], s.log, t), es,
                Returns(s.pcs[t], s'.pcs[t], t), Owed(s'.pcs[t], s'.log, t));
  }

  lemma OpsOfSum(a: seq<Event>, b: seq<Event>)
    ensures OpsOf(a + b) == OpsOf(a) + OpsOf(b)
  {
  }

  lemma {:induction false} LogOnlyGrows(r: seq<State>, cfg: Config, acts: seq<Action>, i: nat, j: nat)
    requires Run(r, cfg, acts) && i <= j < |r|
    ensures r[i].log <= r[j].log
  {
    hide Init, Next, Enabled, Logged;
    if i < j {
      LogOnlyGrows(r, cfg, acts, i, j - 1);
      assert Enabled(r[j - 1], cfg, acts[j - 1]) && r[j - 1 + 1] == Next(r[j - 1], cfg, acts[j - 1]);
      LogGrows(r[j - 1], cfg, acts[j - 1]);
    }
  }

  /** The place of a pending result in the log. */
  ghost predicate Placed(pc: Pc) {
    pc.Applied? || pc.Release?
  }

  lemma SinceSet(s: State, cfg: Config, a: Action, u: Tid)
    requires Enabled(s, cfg, a) && u in s.pcs && u in Next(s, cfg, a).pcs && Next(s, cfg, a).pcs[u] != Idle
    ensures a.Call? && a.t == u ==> Next(s, cfg, a).pcs[u].since == |s.log|
    ensures !(a.Call? && a.t == u) ==> s.pcs[u] != Idle && Next(s, cfg, a).pcs[u].since == s.pcs[u].since
  {
  }

  /** A call made by step `j` remembers how long the log was then, until it returns. */
  lemma {:induction false} SinceStays(r: seq<State>, cfg: Config, acts: seq<Action>, j: nat, k: nat, u: Tid)
    requires Run(r, cfg, acts) && j < k < |r| && acts[j].Call? && acts[j].t == u
    requires forall m :: j < m <= k ==> u in r[m].pcs && r[m].pcs[u] != Idle
    ensures r[k].pcs[u].since == |r[j].log|
  {
    hide Init, Next, Enabled;
    SinceAt(r, cfg, acts, k - 1, u);
    if k > j + 1 {
      SinceStays(r, cfg, acts, j, k - 1, u);
    }
  }

  lemma SinceAt(r: seq<State>, cfg: Config, acts: seq<Action>, n: nat, u: Tid)
    requires Run(r, cfg, acts) && n < |acts| && u in r[n + 1].pcs && r[n + 1].pcs[u] != Idle
    ensures u in r[n].pcs
    ensures acts[n].Call? && acts[n].t == u ==> r[n + 1].pcs[u].since == |r[n].log|
    ensures r[n].pcs[u] != Idle ==> r[n + 1].pcs[u].since == r[n].pcs[u].since
  {
    assert Enabled(r[n], cfg, acts[n]) && r[n + 1] == Next(r[n], cfg, acts[n]);
    OthersStay(r[n], cfg, acts[n]);
    SinceSet(r[n], cfg, acts[n], u);
    assert acts[n].Call? && acts[n].t == u ==> r[n].pcs[u] == Idle;
  }

  /** Real-time order: if thread `t` is about to return in state `i`, its effect comes before that of any call that
      `u` makes from then on (by step `j`) and is about to return from in state `k`. */
  lemma RealTimeOrder(r: seq<State>, cfg: Config, acts: seq<Action>, i: nat, j: nat, k: nat, t: Tid, u: Tid)
    requires Run(r, cfg, acts) && i <= j < k < |r| && t in r[i].pcs && Placed(r[i].pcs[t])
    requires acts[j].Call? && acts[j].t == u && forall m :: j < m <= k ==> u in r[m].pcs && r[m].pcs[u] != Idle
    requires Placed(r[k].pcs[u])
    ensures r[i].pcs[t].at < |r[i].log| <= r[k].pcs[u].at < |r[k].log|
  {
    RunInv(r, cfg, acts, i);
    RunInv(r, cfg, acts, k);
    LogOnlyGrows(r, cfg, acts, i, j);
    SinceStays(r, cfg, acts, j, k, u);
    assert Returning(r[i], cfg, t) && Returning(r[k], cfg, u);
    hide Run, LockInv, PcInv, WalkInv, DataInv, ReturnInv;
  }

  // ---------------------------------------------------------------- running alone

  /** What a thread inside a call does next. */
  ghost function Move(s: State, cfg: Config, t: Tid): Action
    requires cfg.n > 0 && |s.buckets| == cfg.n && t in s.pcs
  {
    match s.pcs[t]
    case Idle => Unlock(t)
    case Want(_, _) => Acquire(t)
    case Locked(op, _, i) =>
      if !op.GetMap? && !Arrived(s.buckets[Index(cfg, op.key)], op.key, i) then Walk(t) else Work(t)
    case Applied(_, _, _, _) => Unlock(t)
    case Collect(_, _) => MapAcquire(t)
    case Copy(_, _, _, _) => MapCopy(t)
    case Release(_, _, _, _) => MapRelease(t)
  }

  /** Steps to copy from bucket `b` on. */
  ghost function CopySteps(buckets: seq<Data>, b: nat): nat
    decreases |buckets| - b
  {
    if b >= |buckets| then 0 else |buckets[b]| + 1 + CopySteps(buckets, b + 1)
  }

  ghost function StepsLeft(s: State, cfg: Config, t: Tid): int
    requires cfg.n > 0 && |s.buckets| == cfg.n && t in s.pcs
  {
    match s.pcs[t]
    case Idle => 0
    case Want(op, _) => if op.GetMap? then 0 else |s.buckets[Index(cfg, op.key)]| + 3
    case Locked(op, _, i) => if op.GetMap? then 0 else |s.buckets[Index(cfg, op.key)]| - i + 2
    case Applied(_, _, _, _) => 1
    case Collect(i, _) => cfg.n - i + CopySteps(s.buckets, 0) + 1 + cfg.n + 1
    case Copy(b, e, _, _) => CopySteps(s.buckets, b) - e + 1 + cfg.n + 1
    case Release(i, _, _, _) => cfg.n - i + 1
  }

  /** No other thread is inside a bucket or holds a lock. */
  ghost predicate OthersOut(s: State, cfg: Config, t: Tid)
    requires cfg.n > 0
  {
    forall u <- s.pcs :: u != t ==> !PastLocking(s.pcs[u]) && (s.pcs[u].Collect? ==> s.pcs[u].i == 0)
  }

  /** With the others outside, a lock is free unless this thread has it. */
  lemma LockIsFree(s: State, cfg: Config, t: Tid, b: nat)
    requires LockInv(s, cfg) && OthersOut(s, cfg, t) && t in s.pcs && b < cfg.n
    requires !Writes(cfg, s.pcs[t], b) && !Reads(cfg, s.pcs[t], b)
    ensures s.locks[b] == Free
  {
    if s.locks[b] != Free {
      var u := HolderInside(s, cfg, b);
    }
  }

  /** A call that needs no lock any more, or finds the others outside, can go on. */
  lemma CanGoOn(s: State, cfg: Config, t: Tid)
    requires Inv(s, cfg) && t in s.pcs && s.pcs[t] != Idle && (PastLocking(s.pcs[t]) || OthersOut(s, cfg, t))
    ensures Enabled(s, cfg, Move(s, cfg, t))
  {
    if s.pcs[t].Want? {
      LockIsFree(s, cfg, t, Index(cfg, s.pcs[t].op.key));
    } else if s.pcs[t].Collect? {
      LockIsFree(s, cfg, t, s.pcs[t].i);
    }
  }

  /** How far a thread's own step takes it. */
  ghost predicate Nearer(s: State, s': State, cfg: Config, t: Tid)
    requires cfg.n > 0 && |s.buckets| == cfg.n && t in s.pcs
  {
    && |s'.buckets| == cfg.n && t in s'.pcs && StepsLeft(s', cfg, t) < StepsLeft(s, cfg, t)
    && s'.pcs == s.pcs[t := s'.pcs[t]]
    && (PastLocking(s.pcs[t]) ==> PastLocking(s'.pcs[t]) || s'.pcs[t] == Idle)
  }

  lemma SingleNearer(s: State, cfg: Config, t: Tid)
    requires LockInv(s, cfg) && PcInv(s, cfg) && t in s.pcs && WalkOk(s, cfg, t)
    requires s.pcs[t].Want? || s.pcs[t].Locked? || s.pcs[t].Applied?
    requires Enabled(s, cfg, Move(s, cfg, t))
    ensures Nearer(s, Next(s, cfg, Move(s, cfg, t)), cfg, t)
  {
    hide LockInv, WorkAt, Index, LockFor, UnlockBy;
  }

  lemma MapNearer(s: State, cfg: Config, t: Tid)
    requires LockInv(s, cfg) && PcInv(s, cfg) && t in s.pcs && Returning(s, cfg, t)
    requires s.pcs[t].Collect? || s.pcs[t].Copy? || s.pcs[t].Release?
    requires Enabled(s, cfg, Move(s, cfg, t))
    ensures Nearer(s, Next(s, cfg, Move(s, cfg, t)), cfg, t)
  {
    hide LockInv, Replay, MapOf, Before, InsertNew;
  }

  lemma GetsNearer(s: State, cfg: Config, t: Tid)
    requires Inv(s, cfg) && t in s.pcs && s.pcs[t] != Idle && Enabled(s, cfg, Move(s, cfg, t))
    ensures Nearer(s, Next(s, cfg, Move(s, cfg, t)), cfg, t)
  {
    assert WalkOk(s, cfg, t) && Returning(s, cfg, t);
    hide LockInv, PcInv, WalkInv, DataInv, ReturnInv, WalkOk, Returning, Next, Enabled, Move, Nearer;
    if s.pcs[t].Want? || s.pcs[t].Locked? || s.pcs[t].Applied? {
      SingleNearer(s, cfg, t);
    } else {
      MapNearer(s, cfg, t);
    }
  }

  lemma StepsNatural(s: State, cfg: Config, t: Tid)
    requires Inv(s, cfg) && t in s.pcs
    ensures StepsLeft(s, cfg, t) >= 0
  {
    assert WalkOk(s, cfg, t) && Returning(s, cfg, t);
    hide LockInv, DataInv, Index, Replay, MapOf, Before;
  }

  /** Running alone, thread `t` returns in state `end` after `n` steps. */
  ghost predicate Solo(s: State, cfg: Config, t: Tid, n: nat, end: State)
    decreases n
  {
    cfg.n > 0 && |s.buckets| == cfg.n && t in s.pcs
    && if s.pcs[t] == Idle then n == 0 && end == s
       else n > 0 && Enabled(s, cfg, Move(s, cfg, t)) && Solo(Next(s, cfg, Move(s, cfg, t)), cfg, t, n - 1, end)
  }

  lemma StillFree(s: State, s': State, cfg: Config, t: Tid)
    requires cfg.n > 0 && |s.buckets| == cfg.n && t in s.pcs && Nearer(s, s', cfg, t)
    requires PastLocking(s.pcs[t]) || OthersOut(s, cfg, t)
    ensures s'.pcs[t] == Idle || PastLocking(s'.pcs[t]) || OthersOut(s', cfg, t)
  {
  }

  ghost predicate MayRunAlone(s: State, cfg: Config, t: Tid)
    requires cfg.n > 0 && t in s.pcs
  {
    s.pcs[t] == Idle || PastLocking(s.pcs[t]) || OthersOut(s, cfg, t)
  }

  lemma AloneStep(s: State, cfg: Config, t: Tid)
    requires Inv(s, cfg) && t in s.pcs && s.pcs[t] != Idle && MayRunAlone(s, cfg, t)
    ensures Enabled(s, cfg, Move(s, cfg, t))
    ensures var s' := Next(s, cfg, Move(s, cfg, t));
            && Inv(s', cfg) && t in s'.pcs && MayRunAlone(s', cfg, t)
            && 0 <= StepsLeft(s', cfg, t) < StepsLeft(s, cfg, t) && s'.pcs == s.pcs[t := s'.pcs[t]]
  {
    BasicShape(s, cfg);
    CanGoOn(s, cfg, t);
    GetsNearer(s, cfg, t);
    StepKeepsInv(s, cfg, Move(s, cfg, t));
    hide Inv, Next, Enabled, StepsLeft, Move, OthersOut, PastLocking;
    var s' := Next(s, cfg, Move(s, cfg, t));
    StillFree(s, s', cfg, t);
    StepsNatural(s', cfg, t);
  }

  lemma SoloDone(s: State, cfg: Config, t: Tid)
    requires cfg.n > 0 && |s.buckets| == cfg.n && t in s.pcs && s.pcs[t] == Idle
    ensures Solo(s, cfg, t, 0, s)
  {
  }

  lemma SoloFirst(s: State, cfg: Config, t: Tid, n: nat, end: State)
    requires cfg.n > 0 && |s.buckets| == cfg.n && t in s.pcs && s.pcs[t] != Idle
    requires Enabled(s, cfg, Move(s, cfg, t)) && Solo(Next(s, cfg, Move(s, cfg, t)), cfg, t, n, end)
    ensures Solo(s, cfg, t, n + 1, end)
  {
    hide Next, Enabled, Move;
  }

  /** What a thread's steps have added to the log: `es`, the effect its call still had to have. */
  ghost predicate Gains(s: State, end: State, t: Tid, es: seq<Event>)
    requires t in s.pcs
  {
    end.log == s.log + es && OpsOf(es) == InCall(s.pcs[t]) && forall e <- es :: e.tid == t
  }

  lemma MoveIsOwn(s: State, cfg: Config, t: Tid)
    requires cfg.n > 0 && |s.buckets| == cfg.n && t in s.pcs
    ensures Move(s, cfg, t).t == t && !Move(s, cfg, t).Call?
  {
    hide Arrived, Index;
  }

  lemma StepGains(s: State, cfg: Config, a: Action)
    requires Inv(s, cfg) && Enabled(s, cfg, a) && !a.Call? && Inv(Next(s, cfg, a), cfg)
    requires a.t in s.pcs && a.t in Next(s, cfg, a).pcs
    ensures InCall(s.pcs[a.t]) == OpsOf(Logged(s, cfg, a)) + InCall(Next(s, cfg, a).pcs[a.t])
    ensures Next(s, cfg, a).log == s.log + Logged(s, cfg, a) && forall e <- Logged(s, cfg, a) :: e.tid == a.t
  {
    assert Returning(s, cfg, a.t) && Returning(Next(s, cfg, a), cfg, a.t);
    hide Next, Enabled, Logged, InCall, Inv, Owed, Returning, Returns;
    OwnStep(s, cfg, a);
    LogGrows(s, cfg, a);
    assert InCall(s.pcs[a.t]) + [] == InCall(s.pcs[a.t]);
  }

  lemma AloneLogs(s: State, cfg: Config, t: Tid, end: State, es: seq<Event>)
    requires Inv(s, cfg) && t in s.pcs && cfg.n > 0 && |s.buckets| == cfg.n
    requires Enabled(s, cfg, Move(s, cfg, t))
    requires var s' := Next(s, cfg, Move(s, cfg, t)); Inv(s', cfg) && t in s'.pcs && Gains(s', end, t, es)
    ensures Gains(s, end, t, Logged(s, cfg, Move(s, cfg, t)) + es)
  {
    hide Next, Enabled, Move, Logged, InCall, Inv;
    var a := Move(s, cfg, t);
    MoveIsOwn(s, cfg, t);
    StepGains(s, cfg, a);
    assert (s.log + Logged(s, cfg, a)) + es == s.log + (Logged(s, cfg, a) + es);
    OpsOfSum(Logged(s, cfg, a), es);
  }

  lemma NothingGained(s: State, t: Tid)
    requires t in s.pcs && s.pcs[t] == Idle
    ensures Gains(s, s, t, [])
  {
  }

  lemma {:induction false} AloneFrom(s: State, cfg: Config, t: Tid) returns (n: nat, es: seq<Event>, end: State)
    requires Inv(s, cfg) && t in s.pcs && MayRunAlone(s, cfg, t)
    ensures Solo(s, cfg, t, n, end) && n <= StepsLeft(s, cfg, t) && end.pcs == s.pcs[t := Idle]
    ensures Inv(end, cfg) && Gains(s, end, t, es)
    decreases StepsLeft(s, cfg, t)
  {
    hide *;
    BasicShape(s, cfg);
    StepsNatural(s, cfg, t);
    if s.pcs[t] == Idle {
      n, es, end := 0, [], s;
      SoloDone(s, cfg, t);
      NothingGained(s, t);
      assert s.pcs == s.pcs[t := Idle];
    } else {
      AloneStep(s, cfg, t);
      var s' := Next(s, cfg, Move(s, cfg, t));
      n, es, end := AloneFrom(s', cfg, t);
      SoloFirst(s, cfg, t, n, end);
      AloneLogs(s, cfg, t, end, es);
      n, es := n + 1, Logged(s, cfg, Move(s, cfg, t)) + es;
      assert end.pcs == s.pcs[t := Idle];
    }
  }

  lemma BasicShape(s: State, cfg: Config)
    requires Inv(s, cfg)
    ensures cfg.n > 0 && |s.buckets| == cfg.n
  {
  }

  /** In every reachable state a thread past its locking phase, running alone, returns within a bounded number of
      steps; and so does a thread that still has locks to get, when no other thread is inside a bucket or holds
      one. By `OneEffectPerCall` its call then has its one effect and has returned its result. */
  lemma ReturnsAlone(r: seq<State>, cfg: Config, acts: seq<Action>, k: nat, t: Tid) returns (n: nat, end: State)
    requires Run(r, cfg, acts) && k < |r| && t in r[k].pcs && r[k].pcs[t] != Idle
    requires PastLocking(r[k].pcs[t]) || (cfg.n > 0 && OthersOut(r[k], cfg, t))
    ensures cfg.n > 0 && |r[k].buckets| == cfg.n
    ensures Solo(r[k], cfg, t, n, end) && 0 < n <= StepsLeft(r[k], cfg, t) && end.pcs == r[k].pcs[t := Idle]
  {
    RunInv(r, cfg, acts, k);
    BasicShape(r[k], cfg);
    var es: seq<Event>;
    n, es, end := AloneFrom(r[k], cfg, t);
  }

  /** A whole call made while the others are outside: it can start, and returns having done to the map exactly what
      its operation is, with the map's answer. */
  lemma CallAlone(r: seq<State>, cfg: Config, acts: seq<Action>, k: nat, t: Tid, op: Op) returns (n: nat, end: State)
    requires Run(r, cfg, acts) && k < |r| && t in r[k].pcs && r[k].pcs[t] == Idle
    requires cfg.n > 0 && OthersOut(r[k], cfg, t)
    ensures Enabled(r[k], cfg, Call(t, op)) && Solo(Next(r[k], cfg, Call(t, op)), cfg, t, n, end)
    ensures end.pcs == r[k].pcs && |end.buckets| == cfg.n
    ensures var m := Replay(r[k].log);
            end.log == r[k].log + [Event(t, op, Answer(m, op))] && Represents(cfg, end.buckets, After(m, op))
  {
    RunInv(r, cfg, acts, k);
    var s := r[k];
    var s' := Next(s, cfg, Call(t, op));
    StepKeepsInv(s, cfg, Call(t, op));
    Begun(s, cfg, t, op);
    var es: seq<Event>;
    n, es, end := AloneFrom(s', cfg, t);
    MapAndLogAgree(end, cfg);
    OneLegalEvent(s.log, es, t, op);
  }

  lemma MapAndLogAgree(s: State, cfg: Config)
    requires Inv(s, cfg)
    ensures cfg.n > 0 && |s.buckets| == cfg.n && Represents(cfg, s.buckets, Replay(s.log)) && Legal(s.log)
  {
  }

  lemma OneLegalEvent(log: seq<Event>, es: seq<Event>, t: Tid, op: Op)
    requires Legal(log + es) && OpsOf(es) == [op] && forall e <- es :: e.tid == t
    ensures es == [Event(t, op, Answer(Replay(log), op))] && Replay(log + es) == After(Replay(log), op)
  {
    assert |es| == 1 && es[0].op == op && es == [es[0]];
    assert (log + es)[|log|] == es[0] && (log + es)[..|log|] == log;
    Append(log, es[0]);
  }

  lemma Begun(s: State, cfg: Config, t: Tid, op: Op)
    requires cfg.n > 0 && Enabled(s, cfg, Call(t, op)) && OthersOut(s, cfg, t)
    ensures var s' := Next(s, cfg, Call(t, op));
            && t in s'.pcs && InCall(s'.pcs[t]) == [op] && s'.log == s.log && OthersOut(s', cfg, t)
            && s'.pcs[t := Idle] == s.pcs
  {
  }
}
