/**
 * The MySQL connection pool of mysql_connect_pool/src/connectPool.cpp. Each method is one stretch of code
 * run under `m_mutexQ`, so a run of the pool is any sequence of calls: by the producer and the recycler
 * thread, by threads asking for a connection and by those giving one back.
 *
 * Times are nanoseconds of the steady clock, which never goes back but may advance between any two readings.
 */
module ConnectPool {
  const MILLI := 1000000

  class Connection {
    var refreshed: int      // m_alivetime

    constructor (now: int)
      ensures refreshed == now
    {
      refreshed := now;
    }
  }

  // ---------------------------------------------------------------- ages

  /** `getAliveTime() >= m_maxIdTime`, in whole milliseconds, read at time `t`. */
  predicate Expired(refreshed: int, maxIdTime: int, t: int) {
    (t - refreshed) / MILLI >= maxIdTime
  }

  /** The exact moment: whole milliseconds reach `maxIdTime` when that many millions of nanoseconds have passed. */
  lemma ExpiresExactlyAt(refreshed: int, maxIdTime: int, t: int)
    ensures Expired(refreshed, maxIdTime, t) <==> t >= refreshed + 1000000 * maxIdTime
  {
    assert t - refreshed == MILLI * ((t - refreshed) / MILLI) + (t - refreshed) % MILLI;
  }

  ghost predicate Sorted(times: seq<int>) {
    forall i, j :: 0 <= i <= j < |times| ==> times[i] <= times[j]
  }

  /** How many of all these connections have expired at `t`. */
  function ExpiredCount(times: seq<int>, maxIdTime: int, t: int): nat {
    if times == [] then 0
    else (if Expired(times[0], maxIdTime, t) then 1 else 0) + ExpiredCount(times[1..], maxIdTime, t)
  }

  /** In a queue ordered by refresh time, the expired connections are exactly a prefix. */
  lemma {:induction false} ExpiredArePrefix(times: seq<int>, maxIdTime: int, t: int)
    requires Sorted(times)
    ensures ExpiredCount(times, maxIdTime, t) <= |times|
    ensures forall i :: 0 <= i < |times| ==>
              (Expired(times[i], maxIdTime, t) <==> i < ExpiredCount(times, maxIdTime, t))
  {
    if times != [] {
      var rest := times[1..];
      ExpiredArePrefix(rest, maxIdTime, t);
      if rest != [] {
        YoungerExpiresLater(times[0], rest[0], maxIdTime, t);
      }
      forall i | 0 <= i < |times|
        ensures Expired(times[i], maxIdTime, t) <==> i < ExpiredCount(times, maxIdTime, t)
      {
        if i > 0 {
          assert times[i] == rest[i - 1];
        }
      }
    }
  }

  lemma YoungerExpiresLater(older: int, younger: int, maxIdTime: int, t: int)
    requires older <= younger
    ensures Expired(younger, maxIdTime, t) ==> Expired(older, maxIdTime, t)
  {
  }

  /** What has expired stays expired. */
  lemma {:induction false} ExpiredCountGrows(times: seq<int>, maxIdTime: int, t: int, t': int)
    requires t <= t'
    ensures ExpiredCount(times, maxIdTime, t) <= ExpiredCount(times, maxIdTime, t')
  {
    if times != [] {
      ExpiredCountGrows(times[1..], maxIdTime, t, t');
    }
  }

  function Min(a: int, b: int): int {
    if a < b then a else b
  }

  /** How many idle connections the recycler may take: those beyond `minSize`. */
  function Surplus(size: nat, minSize: nat): nat {
    if size > minSize then size - minSize else 0
  }

  // ---------------------------------------------------------------- the pool

  ghost predicate Distinct(q: seq<Connection>) {
    forall i, j :: 0 <= i < j < |q| ==> q[i] != q[j]
  }

  ghost function Members(q: seq<Connection>): set<Connection> {
    set c | c in q
  }

  lemma NoMembers(q: seq<Connection>)
    ensures q[..0] == [] && q[0..] == q && Members(q[..0]) == {}
  {
  }

  lemma OneMoreMember(q: seq<Connection>, n: nat)
    requires n < |q|
    ensures Members(q[..n + 1]) == Members(q[..n]) + {q[n]}
  {
    assert q[..n + 1] == q[..n] + [q[n]];
  }

  lemma SurplusLeft(size: nat, minSize: nat, removed: nat)
    requires removed <= size && size - removed > minSize
    ensures removed < Surplus(size, minSize)
  {
  }

  ghost predicate InOrder(q: seq<Connection>)
    reads q
  {
    forall i, j :: 0 <= i <= j < |q| ==> q[i].refreshed <= q[j].refreshed
  }

  class Pool {
    const minSize: nat
    const maxIdTime: int
    var connectQ: seq<Connection>
    var clock: int
    var producerWaits: bool               // the producer sleeps on m_cond
    ghost var created: set<Connection>
    ghost var borrowed: set<Connection>
    ghost var deleted: set<Connection>

    ghost function Times(): (times: seq<int>)
      reads this, connectQ
      ensures |times| == |connectQ| && forall i :: 0 <= i < |times| ==> times[i] == connectQ[i].refreshed
    {
      seq(|connectQ|, i requires 0 <= i < |connectQ| reads this, connectQ => connectQ[i].refreshed)
    }

    /** Every connection ever made is either idle, once, or borrowed or deleted; the queue is in order of
        refresh time; and the producer sleeps only while there is nothing for it to do. */
    ghost predicate Valid()
      reads this, connectQ
    {
      && Distinct(connectQ) && borrowed !! deleted
      && (forall c <- connectQ :: c in created && c !in borrowed && c !in deleted && c.refreshed <= clock)
      && borrowed + deleted <= created && (forall c <- created :: c in connectQ || c in borrowed || c in deleted)
      && InOrder(connectQ)
      && (producerWaits ==> |connectQ| >= minSize)
    }

    /** `steady_clock::now()`. */
    method Now() returns (now: int)
      modifies this`clock
      ensures now == clock >= old(clock)
    {
      now :| now >= clock;
      clock := now;
    }

    /** `addConnection`. */
    method AddConnection()
      requires Valid()
      modifies this`connectQ, this`clock, this`created
      ensures Valid() && clock >= old(clock)
      ensures |connectQ| == |old(connectQ)| + 1 && connectQ[..|old(connectQ)|] == old(connectQ)
      ensures created == old(created) + {connectQ[|old(connectQ)|]}
      ensures fresh(connectQ[|old(connectQ)|]) && connectQ[|old(connectQ)|].refreshed == clock
    {
      var now := Now();
      var conn := new Connection(now);
      connectQ, created := connectQ + [conn], created + {conn};
    }

    /** The pool with `minSize` fresh connections. */
    constructor (minSize: nat, maxIdTime: int, start: int)
      ensures Valid() && this.minSize == minSize && this.maxIdTime == maxIdTime
      ensures |connectQ| == minSize && borrowed == {} && deleted == {}
      ensures forall c <- connectQ :: fresh(c)
    {
      this.minSize, this.maxIdTime, connectQ, clock := minSize, maxIdTime, [], start;
      producerWaits, created, borrowed, deleted := false, {}, {}, {};
      new;
      for i := 0 to minSize
        invariant Valid() && |connectQ| == i && (forall c <- connectQ :: fresh(c))
        invariant borrowed == {} == deleted && this.minSize == minSize && this.maxIdTime == maxIdTime
      {
        AddConnection();
      }
    }

    /** A turn of `produceConnection`: sleep while there are enough idle connections, else add one. */
    method Produce()
      requires Valid()
      modifies this`connectQ, this`clock, this`created, this`producerWaits
      ensures Valid() && clock >= old(clock)
      ensures |old(connectQ)| >= minSize ==> connectQ == old(connectQ) && created == old(created) && producerWaits
      ensures |old(connectQ)| < minSize ==>
                && |connectQ| == |old(connectQ)| + 1 && connectQ[..|old(connectQ)|] == old(connectQ)
                && fresh(connectQ[|old(connectQ)|]) && connectQ[|old(connectQ)|].refreshed == clock && !producerWaits
                && created == old(created) + {connectQ[|old(connectQ)|]}
    {
      if |connectQ| >= minSize {
        producerWaits := true;
        return;
      }
      AddConnection();
      producerWaits := false;
    }

    /** A turn of `getConnection`: null is to go on waiting. */
    method GetConnection() returns (conn: Connection?)
      requires Valid()
      modifies this`connectQ, this`producerWaits, this`borrowed
      ensures Valid()
      ensures (conn == null) == (old(connectQ) == [])
      ensures conn == null ==>
                connectQ == old(connectQ) && borrowed == old(borrowed) && producerWaits == old(producerWaits)
      ensures conn != null ==>
                old(connectQ) == [conn] + connectQ && borrowed == old(borrowed) + {conn} && !producerWaits
    {
      if connectQ == [] {
        return null;
      }
      conn := connectQ[0];
      connectQ := connectQ[1..];
      borrowed := borrowed + {conn};
      producerWaits := false;
    }

    /** The deleter of the handed-out pointer: the connection comes back as the youngest. */
    method GiveBack(conn: Connection)
      requires Valid() && conn in borrowed
      modifies this`connectQ, this`clock, this`borrowed, conn
      ensures Valid() && clock >= old(clock)
      ensures connectQ == old(connectQ) + [conn] && borrowed == old(borrowed) - {conn} && conn.refreshed == clock
    {
      var now := Now();
      conn.refreshed := now;
      borrowed := borrowed - {conn};
      connectQ := connectQ + [conn];
    }

    lemma TimesSorted()
      requires Valid()
      ensures Sorted(Times())
    {
    }

    method DeleteFront()
      requires Valid() && |connectQ| > minSize
      modifies this`connectQ, this`deleted
      ensures Valid() && connectQ == old(connectQ)[1..] && deleted == old(deleted) + {old(connectQ)[0]}
    {
      var conn := connectQ[0];
      connectQ := connectQ[1..];
      deleted := deleted + {conn};
    }

    /** One look of the recycler at the front of the queue: delete it if it has expired, else stop. `q` is the
        queue when the pass began, with refresh times `times`, and `removed` what has gone since. */
    method DeleteIfExpired(ghost q: seq<Connection>, ghost times: seq<int>, ghost removed: nat) returns (stop: bool)
      requires Valid() && |connectQ| > minSize && removed < |q| == |times| && connectQ == q[removed..]
      requires Sorted(times) && forall i :: 0 <= i < |q| ==> times[i] == q[i].refreshed
      modifies this`connectQ, this`clock, this`deleted
      ensures Valid() && clock >= old(clock)
      ensures ExpiredCount(times, maxIdTime, old(clock)) <= ExpiredCount(times, maxIdTime, clock)
      ensures stop ==>
                removed >= ExpiredCount(times, maxIdTime, clock) && connectQ == old(connectQ) && deleted == old(deleted)
      ensures !stop ==>
                && removed < ExpiredCount(times, maxIdTime, clock)
                && connectQ == q[removed + 1..] && deleted == old(deleted) + {q[removed]}
    {
      hide Expired, ExpiredCount, Sorted;
      var now := ReadFor(times);
      var conn := connectQ[0];
      assert conn.refreshed == times[removed];
      stop := !Expired(conn.refreshed, maxIdTime, now);
      if !stop {
        DeleteFront();
        assert connectQ == q[removed + 1..];
      }
    }

    /** A pass of `recycleConnection`. What goes is the oldest connections: at least those that had expired
        when the pass began and at most those that have when it ends, never touching the last `minSize`. If it
        stops early, no idle connection at all has expired by its last look at the clock. */
    method Recycle() returns (removed: nat)
      requires Valid()
      modifies this`connectQ, this`clock, this`deleted
      ensures Valid() && clock >= old(clock)
      ensures removed <= |old(connectQ)| && connectQ == old(connectQ)[removed..]
      ensures deleted == old(deleted) + Members(old(connectQ)[..removed])
      ensures Min(ExpiredCount(old(Times()), maxIdTime, old(clock)), Surplus(|old(connectQ)|, minSize)) <= removed
      ensures removed <= Min(ExpiredCount(old(Times()), maxIdTime, clock), Surplus(|old(connectQ)|, minSize))
      ensures |connectQ| > minSize ==> removed == ExpiredCount(old(Times()), maxIdTime, clock)
    {
      TimesSorted();
      hide Expired, ExpiredCount, Sorted, Members;
      ghost var q, times := connectQ, Times();
      removed := 0;
      NoMembers(q);
      while |connectQ| > minSize
        invariant Valid() && clock >= old(clock)
        invariant removed <= |q| && connectQ == q[removed..]
        invariant deleted == old(deleted) + Members(q[..removed])
        invariant removed <= Surplus(|q|, minSize) && removed <= ExpiredCount(times, maxIdTime, clock)
        invariant ExpiredCount(times, maxIdTime, old(clock)) <= ExpiredCount(times, maxIdTime, clock)
        decreases |connectQ|
      {
        hide Valid, Surplus;
        var stop := DeleteIfExpired(q, times, removed);
        if stop {
          break;
        }
        OneMoreMember(q, removed);
        SurplusLeft(|q|, minSize, removed);
        removed := removed + 1;
      }
    }

    /** A reading of the clock, with what it says about connections refreshed at the given times. */
    method ReadFor(ghost times: seq<int>) returns (now: int)
      requires Sorted(times)
      modifies this`clock
      ensures now == clock >= old(clock)
      ensures ExpiredCount(times, maxIdTime, old(clock)) <= ExpiredCount(times, maxIdTime, now) <= |times|
      ensures forall i :: 0 <= i < |times| ==>
                (Expired(times[i], maxIdTime, now) <==> i < ExpiredCount(times, maxIdTime, now))
    {
      now := Now();
      ExpiredCountGrows(times, maxIdTime, old(clock), now);
      ExpiredArePrefix(times, maxIdTime, now);
    }

    /** The destructor deletes what is idle. */
    method Destroy()
      requires Valid()
      modifies this`connectQ, this`deleted, this`producerWaits
      ensures connectQ == [] && deleted == old(deleted) + Members(old(connectQ)) && borrowed == old(borrowed)
    {
      while connectQ != []
        invariant deleted + Members(connectQ) == old(deleted) + Members(old(connectQ))
        decreases |connectQ|
      {
        var conn := connectQ[0];
        connectQ := connectQ[1..];
        deleted := deleted + {conn};
      }
    }
  }
}
