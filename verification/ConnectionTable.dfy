/**
  service_client.go's connections: a pool for each address, made and filled when the address is first
  used, and the connection a request borrows from it.
 */
module ConnectionTable {
  import opened Wrappers
  import opened Package
  import opened Connection
  import opened Pool

  const POOL_MIN_SIZE: int := 10
  const POOL_ACTIVE_TIME: int := 1800

  /** A pool between two requests: open for business, with every connection back in it. */
  ghost predicate Settled(pool: GenericPool)
    reads pool
  {
    pool.Valid() && !pool.shutdown && pool.held == {} && pool.maxSize > 0 && pool.lifetime == POOL_ACTIVE_TIME
  }

  predicate SomeUsable(pool: GenericPool, now: int)
    reads pool, pool.idle`isClose
  {
    exists c :: c in pool.idle && Usable(c, pool.lifetime, now)
  }

  /** The request's use of a pool: a connection is acquired and given back at once. Only a pool without
      a usable connection whose dial fails gives none. */
  method Borrow(pool: GenericPool, now: int, connects: bool) returns (conn: EasyConnection?)
    requires Settled(pool)
    modifies pool, pool.idle`isClose
    ensures Settled(pool)
    ensures conn == null <==> !connects && !old(SomeUsable(pool, now))
    ensures conn == null ==> forall c :: c in old(pool.idle) ==> old(c.isClose) || c.activeTime + POOL_ACTIVE_TIME < now
    ensures conn != null ==>
              && !conn.isClose && now <= conn.activeTime + POOL_ACTIVE_TIME && conn in pool.idle
              && (conn in old(pool.idle) || (fresh(conn) && conn.Quiet() && conn.queued == []))
    ensures forall c :: c in pool.idle ==> c in old(pool.idle) || c == conn
  {
    var r, k := pool.Acquire(now, connects);
    conn := null;
    if r.Acquired? {
      assert k < |old(pool.idle)| ==> r.conn in old(pool.idle) && old(SomeUsable(pool, now));
      conn := r.conn;
      var ok := pool.Release(r.conn);
    }
  }

  class PoolTable {
    const poolSize: int
    var poolMap: map<string, GenericPool>
    ghost var pools: set<GenericPool>       // the pools in the table
    ghost var conns: set<EasyConnection>    // every connection they have made

    constructor (poolSize: int)
      ensures this.poolSize == poolSize && Valid() && poolMap == map[] && fresh(this) && pools == {} && conns == {}
    {
      this.poolSize := poolSize;
      poolMap := map[];
      pools, conns := {}, {};
    }

    ghost predicate Valid()
      reads this, pools, conns`writeChan, conns`writing, conns`wire, conns`queued
    {
      && (forall a :: a in poolMap ==> poolMap[a] in pools)
      && (forall a, b :: a in poolMap && b in poolMap && a != b ==> poolMap[a] != poolMap[b])
      && (forall p :: p in pools ==> Settled(p))
      && (forall p, c :: p in pools && c in p.idle ==> c in conns)
      && (forall c :: c in conns ==> c.Valid())
    }

    /** Every connection's Write loop waits at an empty channel. */
    ghost predicate Quiet()
      reads this, conns`writeChan, conns`writing, conns`wire, conns`queued
    {
      forall c :: c in conns ==> c.Quiet()
    }

    /** Whether a connection to the address can be had: from the pool there is, or from the `warm`
        dials that fill a new one, or from one more dial. */
    ghost predicate Reaches(address: string, now: int, warm: seq<bool>, connects: bool)
      requires Valid()
      reads this, pools, conns
    {
      connects || if address in poolMap then SomeUsable(poolMap[address], now) else true in warm
    }

    /** Lines 135 to 151: the pool of an address, made and filled when it is first asked for. */
    method FindPool(address: string, now: int, warm: seq<bool>) returns (pool: GenericPool)
      requires Valid() && |warm| == POOL_MIN_SIZE
      modifies this
      ensures Valid() && address in poolMap && poolMap[address] == pool
      ensures poolMap == old(poolMap)[address := pool] && pools == old(pools) + {pool}
      ensures if address in old(poolMap) then pool == old(poolMap)[address] else fresh(pool)
      ensures old(conns) <= conns
      ensures forall c :: c in conns ==> c in old(conns) || (fresh(c) && c.Quiet() && c.queued == [])
      ensures SomeUsable(pool, now)
              <==> if address in old(poolMap) then old(SomeUsable(poolMap[address], now)) else true in warm
    {
      if address !in poolMap {
        pool := new GenericPool(POOL_MIN_SIZE, poolSize, POOL_ACTIVE_TIME, now, warm);
        poolMap := poolMap[address := pool];
        pools := pools + {pool};
        conns := conns + set c | c in pool.idle;
        assert multiset(warm)[true] > 0 ==> pool.idle[0] in pool.idle;
      } else {
        pool := poolMap[address];
      }
    }

    /** Lines 153 to 157. */
    method Lend(pool: GenericPool, now: int, connects: bool) returns (conn: EasyConnection?)
      requires Valid() && pool in pools
      modifies this`conns, pool, conns`isClose
      ensures Valid()
      ensures conn == null <==> !connects && !old(SomeUsable(pool, now))
      ensures conn == null ==> conns == old(conns)
      ensures conn != null ==>
                && !conn.isClose && now <= conn.activeTime + POOL_ACTIVE_TIME
                && conn in pool.idle && conns == old(conns) + {conn}
      ensures forall c :: c in conns ==> c in old(conns) || (fresh(c) && c.Quiet() && c.queued == [])
    {
      conn := Borrow(pool, now, connects);
      if conn != null {
        conns := conns + {conn};
      }
    }

    /** Lines 135 to 159: a usable connection of the address's pool, which keeps it. No address loses its
        pool, and only this one can gain one. */
    method Connect(address: string, now: int, warm: seq<bool>, connects: bool) returns (conn: EasyConnection?)
      requires Valid() && |warm| == POOL_MIN_SIZE
      modifies this, pools, conns`isClose
      ensures Valid() && poolMap.Keys == old(poolMap.Keys) + {address}
      ensures conn != null && old(Quiet()) ==> conn.Quiet()
      ensures conn == null <==> !old(Reaches(address, now, warm, connects))
      ensures conn != null ==> !conn.isClose && now <= conn.activeTime + POOL_ACTIVE_TIME
      ensures conn != null ==> conn in poolMap[address].idle && conn in conns
      ensures conn != null && conn !in old(conns) ==> fresh(conn) && conn.Quiet() && conn.queued == []
    {
      var pool := FindPool(address, now, warm);
      conn := Lend(pool, now, connects);
    }

    method SendOn(conn: EasyConnection, pkgData: seq<Byte>)
      requires Valid() && conn in conns
      modifies conn`writeChan, conn`queued
      ensures Valid()
      ensures conn.queued == if conn.isClose then old(conn.queued) else old(conn.queued) + [pkgData]
      ensures conn.writeChan == if conn.isClose then old(conn.writeChan) else old(conn.writeChan) + [Some(pkgData)]
    {
      conn.Send(pkgData);
    }
  }
}
