/**
  pool.go as the object it is, used by one thread at a time. Dialling and the clock are parameters:
  `connects` says whether the factory succeeds, and a connection it makes is open and stamped `now`.
 */
module Pool {
  import opened Connection

  datatype Outcome = Acquired(conn: EasyConnection) | IsShutdown | NoneAvailable | DialFailed

  /** Open and, if the pool limits lifetimes, not past its own. */
  predicate Usable(c: EasyConnection, lifetime: int, now: int)
    reads c`isClose
  {
    !c.isClose && !(lifetime > 0 && c.activeTime + lifetime < now)
  }

  class GenericPool {
    const maxSize: int
    const minSize: int
    const lifetime: int
    var idle: seq<EasyConnection>       // poolChan, of capacity 2 * maxSize
    var curSize: int
    var shutdown: bool
    ghost var held: set<EasyConnection> // acquired, neither released nor closed since

    ghost predicate Counted()
      reads this
    {
      && (forall i, j :: 0 <= i < j < |idle| ==> idle[i] != idle[j])
      && (forall c :: c in idle ==> c !in held)
      && curSize == |idle| + |held| <= maxSize
    }

    ghost predicate Valid()
      reads this
    {
      Counted() && (shutdown ==> idle == [])
    }

    /** Pre-dials minSize connections; a failed dial is skipped, and with a negative minSize there are
        none. */
    constructor (minSize: int, maxSize: int, lifetime: int, now: int, connects: seq<bool>)
      requires (0 <= minSize || 0 < maxSize) && |connects| == if 0 <= minSize then minSize else 0
      ensures Valid() && !shutdown && held == {}
      ensures this.minSize == minSize <= this.maxSize && this.lifetime == lifetime
      ensures maxSize > 0 && minSize <= maxSize ==> this.maxSize == maxSize
      ensures maxSize <= 0 || minSize > maxSize ==> this.maxSize == minSize
      ensures curSize == |idle| == multiset(connects)[true]
      ensures forall c :: c in idle ==> fresh(c) && !c.isClose && c.activeTime == now && c.Quiet() && c.queued == []
    {
      this.maxSize := if maxSize <= 0 || minSize > maxSize then minSize else maxSize;
      this.minSize := minSize;
      this.lifetime := lifetime;
      curSize := 0;
      idle := [];
      shutdown := false;
      held := {};
      new;
      for i := 0 to |connects|
        invariant Valid() && !shutdown && held == {}
        invariant curSize == |idle| == multiset(connects[..i])[true] <= i
        invariant forall c :: c in idle ==> fresh(c) && allocated(c) && !c.isClose && c.activeTime == now
        invariant forall c :: c in idle ==> c.Quiet() && c.queued == []
      {
        assert connects[..i + 1] == connects[..i] + [connects[i]];
        if !connects[i] {
          continue;
        }
        var conn := new EasyConnection(now);
        curSize := curSize + 1;
        idle := idle + [conn];
      }
      assert connects[..|connects|] == connects;
    }

    /** A pool that has been shut down gives none. Otherwise an idle connection if there is one, else a
        new one if the pool is below its size. With no other thread to release one, waiting on a full
        pool times out. */
    method getOrCreate(now: int, connects: bool) returns (r: Outcome)
      modifies this`idle, this`curSize
      ensures shutdown ==> r.IsShutdown? && idle == old(idle) && curSize == old(curSize)
      ensures !shutdown ==> !r.IsShutdown? && idle == if |old(idle)| > 0 then old(idle)[1..] else []
      ensures !shutdown && |old(idle)| > 0 ==> r == Acquired(old(idle)[0]) && curSize == old(curSize)
      ensures !shutdown && |old(idle)| == 0 ==>
                if old(curSize) >= maxSize then r.NoneAvailable? && curSize == old(curSize)
                else if !connects then r.DialFailed? && curSize == old(curSize)
                else
                  && r.Acquired? && fresh(r.conn) && r.conn.Quiet() && r.conn.queued == []
                  && !r.conn.isClose && r.conn.activeTime == now && curSize == old(curSize) + 1
    {
      if shutdown {
        return IsShutdown;
      }
      if |idle| > 0 {
        r := Acquired(idle[0]);
        idle := idle[1..];
        return;
      }
      if curSize >= maxSize {
        return NoneAvailable;
      }
      if !connects {
        return DialFailed;
      }
      var conn := new EasyConnection(now);
      curSize := curSize + 1;
      r := Acquired(conn);
    }

    /** What taking a connection leaves, when the first `k` idle ones were unusable: they are closed and
        discounted; the next idle one is returned, or else a new one is made, unless the pool is full
        of held connections or dialling fails. */
    twostate predicate Took(new r: Outcome, k: nat, now: int, connects: bool)
      reads *
    {
      && k <= |old(idle)|
      && (forall j :: 0 <= j < k ==> old(!Usable(idle[j], lifetime, now)) && old(idle)[j].isClose)
      && (forall j :: k <= j < |old(idle)| ==> old(idle)[j].isClose == old(idle[j].isClose))
      && (if k < |old(idle)| then
            r == Acquired(old(idle)[k]) && idle == old(idle)[k + 1..] && curSize == old(curSize) - k
          else
            && idle == []
            && (r.Acquired? <==> old(curSize) - k < maxSize && connects)
            && (r.Acquired? ==> (var made := r.conn; !old(allocated(made))) && r.conn.Quiet() && r.conn.queued == []
                                && curSize == old(curSize) - k + 1)
            && (!r.Acquired? ==> curSize == old(curSize) - k
                                 && r == if curSize >= maxSize then NoneAvailable else DialFailed))
    }

    /** Acquire's look at one connection: a closed or expired one is closed and discounted. */
    method Vet(conn: EasyConnection, now: int) returns (good: bool)
      modifies this`curSize, conn`isClose
      ensures good == old(Usable(conn, lifetime, now))
      ensures good <==> !old(conn.isClose) && (lifetime <= 0 || now <= conn.activeTime + lifetime)
      ensures good ==> conn.isClose == old(conn.isClose) && curSize == old(curSize)
      ensures !good ==> conn.isClose && curSize == old(curSize) - 1
    {
      if conn.isClose {
        curSize := curSize - 1;
        return false;
      }
      if lifetime > 0 && conn.activeTime + lifetime < now {
        conn.Close();
        curSize := curSize - 1;
        return false;
      }
      good := true;
    }

    /** Acquire's loop: closed or expired connections are dropped until one is good. */
    method Retry(now: int, connects: bool) returns (r: Outcome, ghost k: nat)
      requires !shutdown && forall i, j :: 0 <= i < j < |idle| ==> idle[i] != idle[j]
      modifies this`idle, this`curSize, idle`isClose
      ensures Took(r, k, now, connects)
      ensures r.Acquired? ==> Usable(r.conn, lifetime, now)
      ensures !r.IsShutdown?
    {
      ghost var was := idle;
      k := 0;
      while true
        invariant k <= |was| && idle == was[k..] && was == old(idle) && !shutdown && curSize == old(curSize) - k
        invariant forall j :: 0 <= j < k ==> old(!Usable(was[j], lifetime, now)) && was[j].isClose
        invariant forall j :: k <= j < |was| ==> was[j].isClose == old(was[j].isClose)
        decreases |idle|
      {
        r := getOrCreate(now, connects);
        if !r.Acquired? {
          return;
        }
        var good := Vet(r.conn, now);
        if good {
          return;
        }
        k := k + 1;
      }
    }

    method Acquire(now: int, connects: bool) returns (r: Outcome, ghost k: nat)
      requires Valid()
      modifies this`idle, this`curSize, this`held, idle`isClose
      ensures Valid() && shutdown == old(shutdown)
      ensures old(shutdown) ==> r.IsShutdown? && idle == old(idle) && curSize == old(curSize)
      ensures !old(shutdown) ==> Took(r, k, now, connects)
      ensures held == if r.Acquired? then old(held) + {r.conn} else old(held)
      ensures r.Acquired? ==> r.conn !in old(held)
      ensures r.Acquired? ==> !r.conn.isClose && (lifetime <= 0 || now <= r.conn.activeTime + lifetime)
      ensures forall j :: 0 <= j < k <= |old(idle)| ==>
                old(idle[j].isClose) || (lifetime > 0 && old(idle)[j].activeTime + lifetime < now)
    {
      k := 0;
      if shutdown {
        r := IsShutdown;
        return;
      }
      r, k := Retry(now, connects);
      if r.Acquired? {
        held := held + {r.conn};
      }
    }

    /** Gives a held connection back; the channel always has room for it. */
    method Release(conn: EasyConnection) returns (ok: bool)
      requires Valid() && conn in held
      modifies this`idle, this`held
      ensures Valid() && ok == !shutdown && |old(idle)| < 2 * maxSize
      ensures ok ==> idle == old(idle) + [conn] && held == old(held) - {conn}
      ensures !ok ==> idle == old(idle) && held == old(held)
    {
      assert |held - {conn}| == |held| - 1;
      if shutdown {
        return false;
      }
      idle := idle + [conn];
      held := held - {conn};
      ok := true;
    }

    method Close(conn: EasyConnection)
      requires Valid() && conn in held
      modifies this`curSize, this`held, conn`isClose
      ensures Valid() && conn.isClose
      ensures curSize == old(curSize) - 1 && held == old(held) - {conn} && idle == old(idle)
    {
      conn.Close();
      curSize := curSize - 1;
      held := held - {conn};
    }

    /** Receives until the channel is empty, closing and discounting each connection. */
    method Drain()
      requires Counted()
      modifies this`idle, this`curSize, idle`isClose
      ensures Counted() && idle == [] && curSize == |held|
      ensures forall c :: c in old(idle) ==> c.isClose
    {
      ghost var was := idle;
      ghost var n := 0;
      while |idle| > 0
        invariant n <= |was| && idle == was[n..] && Counted()
        invariant forall j :: 0 <= j < n ==> was[j].isClose
        decreases |idle|
      {
        var conn := idle[0];
        assert conn == was[n];
        idle := idle[1..];
        conn.Close();
        curSize := curSize - 1;
        n := n + 1;
      }
    }

    method CloseAll()
      requires Valid()
      modifies this`idle, this`curSize, idle`isClose
      ensures Valid() && idle == [] && curSize == |held|
      ensures forall c :: c in old(idle) ==> c.isClose
    {
      if shutdown {
        return;
      }
      Drain();
    }

    /** Afterwards nothing is idle, every connection that was idle is closed, and curSize is the
        number still held; a second Shutdown is refused. */
    method Shutdown() returns (ok: bool)
      requires Valid()
      modifies this`idle, this`curSize, this`shutdown, idle`isClose
      ensures Valid() && shutdown && ok == !old(shutdown)
      ensures idle == [] && curSize == |held|
      ensures forall c :: c in old(idle) ==> c.isClose
    {
      if shutdown {
        return false;
      }
      shutdown := true;
      Drain();
      ok := true;
    }
  }
}
