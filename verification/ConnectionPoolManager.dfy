/**
 The manager object. The pools it holds are values of `Pooling`; its own fields are updated in
 place, and each method is proved to perform one operation of `PoolManagement`.
 */
module PoolManagers {
  import opened Sequences
  import M = PoolManagement
  import P = Pooling

  /** The pools when those in `done` have been closed. */
  ghost function Progress(pools: map<M.Address, P.Pool>, closing: map<M.Address, P.Pool>, done: set<M.Address>)
    : map<M.Address, P.Pool>
    requires pools.Keys == closing.Keys
  {
    map a | a in pools && (a in done ==> !closing[a].closeState.Closed?) :: if a in done then closing[a] else pools[a]
  }

  lemma ProgressStep(pools: map<M.Address, P.Pool>, closing: map<M.Address, P.Pool>, done: set<M.Address>, a: M.Address)
    requires pools.Keys == closing.Keys && a in pools && a !in done
    ensures var now := Progress(pools, closing, done);
            && a in now && now[a] == pools[a]
            && Progress(pools, closing, done + {a}) ==
               if closing[a].closeState.Closed? then now - {a} else now[a := closing[a]]
  {
  }

  lemma ProgressStart(m: M.Manager, syncs: map<M.Address, set<P.Pending>>)
    ensures M.ClosedPools(m, syncs).Keys == m.pools.Keys
    ensures Progress(m.pools, M.ClosedPools(m, syncs), {}) == m.pools
  {
  }

  lemma ClosingAt(m: M.Manager, syncs: map<M.Address, set<P.Pending>>, a: M.Address)
    requires a in m.pools
    ensures a in M.ClosedPools(m, syncs)
    ensures M.ClosedPools(m, syncs)[a] == P.InternalClose(m.pools[a], if a in syncs then syncs[a] else {})
  {
  }

  lemma ProgressEnd(m: M.Manager, syncs: map<M.Address, set<P.Pending>>)
    ensures Progress(m.pools, M.ClosedPools(m, syncs), m.pools.Keys) == M.StillClosing(m, syncs)
  {
  }

  lemma FlushedIs(m: M.Manager, orders: map<M.Address, seq<P.Conn>>, pools: map<M.Address, P.Pool>)
    requires pools.Keys == m.pools.Keys && forall a :: a in m.toFlush ==> a in m.pools && a in orders
    requires forall a :: a in m.pools ==>
      pools[a] == if a in m.toFlush then P.FlushAll(m.pools[a], orders[a]) else m.pools[a]
    ensures pools == M.FlushedPools(m, orders)
  {
    hide P.FlushAll;
  }

  class ConnectionPoolManager {
    var pools: map<M.Address, P.Pool>
    var pending: seq<M.PendingPool>
    var created: nat
    var toFlush: set<M.Address>
    var closeState: M.CloseState
    ghost var log: seq<M.Note>

    ghost function State(): M.Manager
      reads this
    {
      M.Manager(pools, pending, created, toFlush, closeState, log)
    }

    constructor ()
      ensures State() == M.Fresh
    {
      pools, pending, created, toFlush, closeState, log := map[], [], 0, {}, M.Open, [];
    }

    method Add(address: M.Address)
      modifies this
      ensures State() == M.AddHost(old(State()), address)
    {
      if address in pools { return; }
      for i := 0 to |pending|
        invariant State() == old(State())
        invariant forall j :: 0 <= j < i ==> pending[j].address != address
      {
        if pending[i].address == address { return; }
      }
      pending := pending + [M.PendingPool(created, address)];
      created := created + 1;
    }

    method MaybeClosed()
      modifies `closeState, `log
      ensures State() == M.MaybeClosed(old(State()))
    {
      if closeState.Waiting? && pools == map[] && pending == [] {
        closeState, log := M.Closed, log + [M.ManagerClosed];
      }
    }

    method OnRequiresFlush(address: M.Address)
      modifies `toFlush, `log
      ensures State() == M.OnRequiresFlush(old(State()), address)
    {
      if toFlush == {} { log := log + [M.NeedFlush]; }
      toFlush := toFlush + {address};
    }

    method OnClose(address: M.Address)
      modifies this
      ensures State() == M.OnPoolClosed(old(State()), address)
    {
      pools := pools - {address};
      toFlush := toFlush - {address};
      MaybeClosed();
    }

    method OnConnect(x: M.PendingPool, pool: Option<P.Pool>)
      modifies this
      ensures State() == M.OnConnect(old(State()), x, pool)
    {
      pending := M.Minus(pending, {x});
      if !closeState.Open? {
        MaybeClosed();
        return;
      }
      match pool {
        case Some(p) => pools := pools[x.address := p];
        case None => log := log + [M.ConnectFailed(x.address)];
      }
    }

    method OnPoolCriticalError(address: M.Address)
      modifies `log
      ensures State() == M.OnPoolCritical(old(State()), address)
    {
      log := log + [M.ConnectFailed(address)];
    }

    /** A pool connector has failed: first it tells its listener, unless it was canceled, and then it
        calls back. */
    method OnPoolFailed(x: M.PendingPool, heard: bool)
      modifies this
      ensures State() == M.Step(old(State()), M.PoolFailed(x, heard))
    {
      if heard { OnPoolCriticalError(x.address); }
      OnConnect(x, None);
    }

    /** `keys` is the order in which the set of pools to flush is walked. */
    method Flush(keys: seq<M.Address>, orders: map<M.Address, seq<P.Conn>>)
      requires Distinct(keys) && forall a :: a in keys <==> a in toFlush
      requires forall a :: a in toFlush ==> a in pools && a in orders
      modifies this
      ensures State() == M.Step(old(State()), M.Flush(orders))
    {
      hide P.FlushAll, M.FlushedPools;
      ghost var m := State();
      for i := 0 to |keys|
        invariant pools.Keys == m.pools.Keys && State() == m.(pools := pools)
        invariant forall a :: a in m.pools ==>
          pools[a] == if a in keys[..i] then P.FlushAll(m.pools[a], orders[a]) else m.pools[a]
      {
        var a := keys[i];
        assert a !in keys[..i] && a in keys;
        assert keys[..i + 1] == keys[..i] + [a];
        pools := pools[a := P.FlushAll(pools[a], orders[a])];
      }
      assert keys[..|keys|] == keys;
      toFlush, log := {}, log + [M.DidFlush];
      FlushedIs(m, orders, pools);
    }

    method CloseOne(a: M.Address, sync: set<P.Pending>)
      requires a in pools && closeState.Closing?
      modifies this
      ensures var q := P.InternalClose(old(pools)[a], sync);
              State() == if q.closeState.Closed? then old(State()).(pools := old(pools) - {a}, toFlush := old(toFlush) - {a})
                         else old(State()).(pools := old(pools)[a := q])
    {
      hide P.InternalClose;
      var q := P.InternalClose(pools[a], sync);
      if q.closeState.Closed? { OnClose(a); } else { pools := pools[a := q]; }
    }

    /** Closes a copy of the pools. A pool with nothing left reports back from within. */
    method ClosePools(keys: seq<M.Address>, syncs: map<M.Address, set<P.Pending>>)
      requires Distinct(keys) && (forall a :: a in keys <==> a in pools) && toFlush <= pools.Keys && closeState.Closing?
      modifies this
      ensures pools == M.StillClosing(old(State()), syncs) && toFlush == old(toFlush) * pools.Keys
      ensures State() == old(State()).(pools := pools, toFlush := toFlush)
    {
      hide P.InternalClose, M.ClosedPools, Progress, M.StillClosing;
      ghost var m := State();
      ghost var closing := M.ClosedPools(m, syncs);
      ghost var done: set<M.Address> := {};
      ProgressStart(m, syncs);
      for i := 0 to |keys|
        invariant State() == m.(pools := pools, toFlush := toFlush)
        invariant forall a :: a in done <==> a in keys[..i]
        invariant pools == Progress(m.pools, closing, done) && toFlush == m.toFlush * pools.Keys
      {
        var a := keys[i];
        assert a !in keys[..i] && a in keys;
        assert keys[..i + 1] == keys[..i] + [a];
        ProgressStep(m.pools, closing, done, a);
        ClosingAt(m, syncs, a);
        CloseOne(a, if a in syncs then syncs[a] else {});
        done := done + {a};
      }
      assert keys[..|keys|] == keys && done == m.pools.Keys;
      ProgressEnd(m, syncs);
    }

    /** Closes every pool and cancels every connector; those in `syncPools` report back at once. */
    method Close(keys: seq<M.Address>, syncs: map<M.Address, set<P.Pending>>, syncPools: set<M.PendingPool>)
      requires Distinct(keys) && (forall a :: a in keys <==> a in pools) && toFlush <= pools.Keys
      modifies this
      ensures State() == M.CloseAll(old(State()), syncs, syncPools)
    {
      if !closeState.Open? { return; }
      closeState := M.Closing;
      ClosePools(keys, syncs);
      pending := M.Minus(pending, syncPools);
      closeState := M.Waiting;
      MaybeClosed();
    }
  }
}
