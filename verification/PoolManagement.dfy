/**
 The manager of all pools: registration, the two-level flush sets and the close state machine that
 is stacked on the close state machines of the pools. A step of a pool is a step of the manager.
 */
module PoolManagement {
  import opened Sequences
  import P = Pooling

  type Address = nat

  datatype PendingPool = PendingPool(id: nat, address: Address)

  datatype CloseState = Open | Closing | Waiting | Closed

  datatype Note = NeedFlush | DidFlush | ManagerClosed | ConnectFailed(address: Address)

  datatype Manager = Manager(
    pools: map<Address, P.Pool>,
    pending: seq<PendingPool>,
    created: nat,
    toFlush: set<Address>,
    closeState: CloseState,
    log: seq<Note>)

  const Fresh := Manager(map[], [], 0, {}, Open, [])

  /** `heard`: the failed pool connector was not canceled, so it tells its listener, the manager,
      about the critical error before it calls back. */
  datatype Event =
    | Add(address: Address)
    | PoolReady(connector: PendingPool, config: P.Config, candidates: seq<P.Conn>, grabs: seq<seq<P.Conn>>)
    | PoolFailed(connector: PendingPool, heard: bool)
    | InPool(address: Address, event: P.Event)
    | Remove(address: Address, sync: set<P.Pending>)
    | Flush(orders: map<Address, seq<P.Conn>>)
    | Close(syncs: map<Address, set<P.Pending>>, syncPools: set<PendingPool>)

  // ---------------------------------------------------------------- the operations

  function Minus(pending: seq<PendingPool>, gone: set<PendingPool>): (r: seq<PendingPool>)
    ensures forall x :: x in r <==> x in pending && x !in gone
    ensures |r| <= |pending|
  {
    if pending == [] then []
    else if pending[0] in gone then Minus(pending[1..], gone)
    else [pending[0]] + Minus(pending[1..], gone)
  }

  function MaybeClosed(m: Manager): Manager
  {
    if m.closeState.Waiting? && m.pools == map[] && m.pending == [] then
      m.(closeState := Closed, log := m.log + [ManagerClosed])
    else m
  }

  predicate Known(m: Manager, a: Address)
  {
    a in m.pools || exists i :: 0 <= i < |m.pending| && m.pending[i].address == a
  }

  function AddHost(m: Manager, a: Address): Manager
  {
    if Known(m, a) then m
    else m.(pending := m.pending + [PendingPool(m.created, a)], created := m.created + 1)
  }

  function OnRequiresFlush(m: Manager, a: Address): Manager
  {
    m.(log := if m.toFlush == {} then m.log + [NeedFlush] else m.log, toFlush := m.toFlush + {a})
  }

  function OnPoolClosed(m: Manager, a: Address): Manager
  {
    MaybeClosed(m.(pools := m.pools - {a}, toFlush := m.toFlush - {a}))
  }

  /** The pool at `a` has become `q`, and the manager, its listener, has been told why. */
  function Absorb(m: Manager, a: Address, q: P.Pool): Manager
    requires a in m.pools
  {
    var asked := m.pools[a].toFlush == {} && q.toFlush != {};
    var t := if asked then OnRequiresFlush(m, a) else m;
    if q.closeState.Closed? then OnPoolClosed(t.(pools := t.pools[a := q]), a) else t.(pools := t.pools[a := q])
  }

  function ClosedPools(m: Manager, syncs: map<Address, set<P.Pending>>): map<Address, P.Pool>
  {
    map a | a in m.pools :: P.InternalClose(m.pools[a], if a in syncs then syncs[a] else {})
  }

  function StillClosing(m: Manager, syncs: map<Address, set<P.Pending>>): map<Address, P.Pool>
  {
    var closing := ClosedPools(m, syncs);
    map a | a in closing && !closing[a].closeState.Closed? :: closing[a]
  }

  /** Every pool is closed and every connector canceled; some finish while this goes on. */
  function CloseAll(m: Manager, syncs: map<Address, set<P.Pending>>, syncPools: set<PendingPool>): Manager
  {
    if !m.closeState.Open? then m
    else
      var left := StillClosing(m, syncs);
      MaybeClosed(m.(pools := left, toFlush := m.toFlush * left.Keys,
                     pending := Minus(m.pending, syncPools), closeState := Waiting))
  }

  function FlushedPools(m: Manager, orders: map<Address, seq<P.Conn>>): map<Address, P.Pool>
  {
    map a | a in m.pools ::
      if a in m.toFlush && a in orders then P.FlushAll(m.pools[a], orders[a]) else m.pools[a]
  }

  function OnConnect(m: Manager, x: PendingPool, pool: Option<P.Pool>): Manager
  {
    var t := m.(pending := Minus(m.pending, {x}));
    if !m.closeState.Open? then MaybeClosed(t)
    else match pool
      case Some(p) => t.(pools := t.pools[x.address := p])
      case None => t.(log := t.log + [ConnectFailed(x.address)])
  }

  /** What the pools and pool connectors report as critical is passed on to the listener. */
  function OnPoolCritical(m: Manager, a: Address): Manager
  {
    m.(log := m.log + [ConnectFailed(a)])
  }

  function OnPoolFailed(m: Manager, x: PendingPool, heard: bool): Manager
  {
    OnConnect(if heard then OnPoolCritical(m, x.address) else m, x, None)
  }

  function Step(m: Manager, e: Event): Manager
  {
    match e
    case Add(a) => AddHost(m, a)
    case PoolReady(x, config, candidates, grabs) => OnConnect(m, x, Some(P.Opened(config, candidates, grabs)))
    case PoolFailed(x, heard) => OnPoolFailed(m, x, heard)
    case InPool(a, pe) => if a in m.pools then Absorb(m, a, P.Step(m.pools[a], pe)) else m
    case Remove(a, sync) => if a in m.pools then Absorb(m, a, P.InternalClose(m.pools[a], sync)) else m
    case Flush(orders) => m.(pools := FlushedPools(m, orders), toFlush := {}, log := m.log + [DidFlush])
    case Close(syncs, syncPools) => CloseAll(m, syncs, syncPools)
  }

  ghost predicate Enabled(m: Manager, e: Event)
  {
    match e
    case Add(a) => !m.closeState.Closed?
    case PoolReady(x, config, candidates, grabs) => x in m.pending && P.OpenedOk(config, candidates, grabs)
    case PoolFailed(x, heard) => x in m.pending && (m.closeState.Open? ==> heard)
    case InPool(a, pe) => a in m.pools && P.Enabled(m.pools[a], pe) && !pe.CloseRequested? && !pe.Flush?
    case Remove(a, sync) => a in m.pools ==> P.Enabled(m.pools[a], P.CloseRequested(sync))
    case Flush(orders) =>
      forall a :: a in m.toFlush ==> a in m.pools && a in orders && P.Enabled(m.pools[a], P.Flush(orders[a]))
    case Close(syncs, syncPools) =>
      && (forall a :: a in syncs && a in m.pools ==> P.Enabled(m.pools[a], P.CloseRequested(syncs[a])))
      && (forall x :: x in syncPools ==> x in m.pending)
  }

  // ---------------------------------------------------------------- the invariant

  ghost predicate PoolsOk(m: Manager)
  {
    forall a :: a in m.pools ==> P.Inv(m.pools[a]) && P.FlushOk(m.pools[a]) && !m.pools[a].closeState.Closed?
  }

  ghost predicate PendingOk(m: Manager)
  {
    && Distinct(m.pending)
    && (forall x :: x in m.pending ==> x.id < m.created && x.address !in m.pools)
    && (forall x, y :: x in m.pending && y in m.pending && x.address == y.address ==> x == y)
  }

  function Signalled(log: seq<Note>): bool
  {
    if log == [] then false
    else if log[|log| - 1].NeedFlush? then true
    else if log[|log| - 1].DidFlush? then false
    else Signalled(log[..|log| - 1])
  }

  ghost predicate FlushOk(m: Manager)
  {
    && (forall a :: a in m.pools && m.pools[a].toFlush != {} ==> a in m.toFlush)
    && m.toFlush <= m.pools.Keys
    && (m.toFlush != {} ==> Signalled(m.log))
  }

  ghost predicate StateOk(m: Manager)
  {
    && !m.closeState.Closing?
    && (!m.closeState.Open? ==> forall a :: a in m.pools ==> !m.pools[a].closeState.Open?)
    && (m.closeState.Waiting? ==> m.pools != map[] || m.pending != [])
    && (m.closeState.Closed? ==> m.pools == map[] && m.pending == [])
    && (ManagerClosed in m.log <==> m.closeState.Closed?)
    && multiset(m.log)[ManagerClosed] <= 1
  }

  ghost predicate Inv(m: Manager)
  {
    PoolsOk(m) && PendingOk(m) && FlushOk(m) && StateOk(m)
  }

  // ---------------------------------------------------------------- each step keeps it

  lemma MaybeClosedKeeps(m: Manager)
    requires PoolsOk(m) && PendingOk(m) && FlushOk(m) && m.closeState.Waiting? && ManagerClosed !in m.log
    requires forall a :: a in m.pools ==> !m.pools[a].closeState.Open?
    ensures Inv(MaybeClosed(m))
  {
    assert multiset(m.log)[ManagerClosed] == 0;
  }

  lemma {:induction false} MinusDistinct(pending: seq<PendingPool>, gone: set<PendingPool>)
    requires Distinct(pending)
    ensures Distinct(Minus(pending, gone))
    ensures forall x :: gone == {x} && x in pending ==> |Minus(pending, gone)| == |pending| - 1
    ensures forall x :: gone == {x} && x !in pending ==> |Minus(pending, gone)| == |pending|
  {
    if pending != [] {
      assert pending == [pending[0]] + pending[1..];
      MinusDistinct(pending[1..], gone);
      assert pending[0] !in pending[1..] && pending[0] !in Minus(pending[1..], gone);
    }
  }

  lemma AddKeeps(m: Manager, a: Address)
    requires Inv(m) && !m.closeState.Closed?
    ensures Inv(AddHost(m, a))
  {
    hide PoolsOk;
    if !Known(m, a) {
      forall x | x in m.pending ensures x.address != a {
        var i :| 0 <= i < |m.pending| && m.pending[i] == x;
      }
      DistinctAppend(m.pending, PendingPool(m.created, a));
      PoolsUntouched(m, AddHost(m, a));
    }
  }

  lemma PoolsUntouched(m: Manager, t: Manager)
    requires PoolsOk(m) && t.pools == m.pools
    ensures PoolsOk(t)
  {
  }

  lemma RequiresFlushKeeps(m: Manager, a: Address)
    requires Inv(m) && a in m.pools
    ensures Inv(OnRequiresFlush(m, a))
  {
    hide P.Inv, P.FlushOk;
  }

  lemma PoolClosedKeeps(m: Manager, a: Address)
    requires Inv(m) && a in m.pools
    ensures Inv(OnPoolClosed(m, a))
  {
    hide P.Inv, P.FlushOk;
    var t := m.(pools := m.pools - {a}, toFlush := m.toFlush - {a});
    if m.closeState.Waiting? { MaybeClosedKeeps(t); }
  }

  /** A pool that has closed leaves nothing behind. */
  lemma RemovedThenClosed(m: Manager, a: Address, q: P.Pool)
    requires a in m.pools
    ensures OnPoolClosed(m.(pools := m.pools[a := q]), a) == OnPoolClosed(m, a)
  {
    assert m.pools[a := q] - {a} == m.pools - {a};
  }

  lemma AbsorbKeeps(m: Manager, a: Address, q: P.Pool)
    requires Inv(m) && a in m.pools && P.Inv(q) && P.FlushOk(q)
    requires m.closeState.Open? || !q.closeState.Open?
    ensures Inv(Absorb(m, a, q))
  {
    hide P.Inv, P.FlushOk;
    var asked := m.pools[a].toFlush == {} && q.toFlush != {};
    var t := if asked then OnRequiresFlush(m, a) else m;
    if asked { RequiresFlushKeeps(m, a); }
    if q.closeState.Closed? {
      RemovedThenClosed(t, a, q);
      PoolClosedKeeps(t, a);
    }
  }

  lemma PoolStepKeeps(p: P.Pool, pe: P.Event)
    requires P.Inv(p) && P.FlushOk(p) && P.Enabled(p, pe)
    ensures P.Inv(P.Step(p, pe)) && P.FlushOk(P.Step(p, pe))
    ensures !p.closeState.Open? ==> !P.Step(p, pe).closeState.Open?
  {
    P.StepKeeps(p, pe);
    P.FlushKeeps(p, pe);
  }

  lemma ConnectKeeps(m: Manager, x: PendingPool, pool: Option<P.Pool>)
    requires Inv(m) && x in m.pending
    requires pool.Some? ==>
      P.Inv(pool.value) && P.FlushOk(pool.value) && pool.value.closeState.Open? && pool.value.toFlush == {}
    ensures Inv(OnConnect(m, x, pool))
  {
    hide P.Inv, P.FlushOk;
    MinusDistinct(m.pending, {x});
    var t := m.(pending := Minus(m.pending, {x}));
    if !m.closeState.Open? {
      MaybeClosedKeeps(t);
    }
  }

  lemma OpenedPool(config: P.Config, candidates: seq<P.Conn>, grabs: seq<seq<P.Conn>>)
    requires P.OpenedOk(config, candidates, grabs)
    ensures var p := P.Opened(config, candidates, grabs);
            P.Inv(p) && P.FlushOk(p) && p.closeState.Open? && p.toFlush == {}
  {
    P.OpenedKeeps(config, candidates, grabs);
    P.OpenedFlush(config, candidates, grabs);
  }

  lemma PoolFlushKeeps(p: P.Pool, order: seq<P.Conn>)
    requires P.Inv(p) && P.FlushOk(p) && P.Enabled(p, P.Flush(order))
    ensures var q := P.FlushAll(p, order);
            P.Inv(q) && P.FlushOk(q) && q.closeState == p.closeState && q.toFlush == {}
  {
    PoolStepKeeps(p, P.Flush(order));
  }

  lemma FlushKeeps(m: Manager, orders: map<Address, seq<P.Conn>>)
    requires Inv(m) && Enabled(m, Flush(orders))
    ensures Inv(Step(m, Flush(orders)))
    ensures forall a :: a in m.pools ==> Step(m, Flush(orders)).pools[a].toFlush == {}
  {
    hide P.Inv, P.FlushOk, P.FlushAll;
    var t := Step(m, Flush(orders));
    assert t.pools.Keys == m.pools.Keys;
    forall a | a in m.pools
      ensures P.Inv(t.pools[a]) && P.FlushOk(t.pools[a]) && t.pools[a].toFlush == {}
      ensures t.pools[a].closeState == m.pools[a].closeState
    {
      if a in m.toFlush { PoolFlushKeeps(m.pools[a], orders[a]); }
    }
    assert multiset(t.log)[ManagerClosed] == multiset(m.log)[ManagerClosed];
  }

  lemma PoolCloseKeeps(p: P.Pool, sync: set<P.Pending>)
    requires P.Inv(p) && P.FlushOk(p) && P.Enabled(p, P.CloseRequested(sync))
    ensures var q := P.InternalClose(p, sync);
            P.Inv(q) && P.FlushOk(q) && !q.closeState.Open? && q.toFlush == p.toFlush
  {
    PoolStepKeeps(p, P.CloseRequested(sync));
  }

  lemma CloseKeeps(m: Manager, syncs: map<Address, set<P.Pending>>, syncPools: set<PendingPool>)
    requires Inv(m) && Enabled(m, Close(syncs, syncPools))
    ensures Inv(CloseAll(m, syncs, syncPools))
  {
    hide P.Inv, P.FlushOk, P.InternalClose;
    if m.closeState.Open? {
      var closing := ClosedPools(m, syncs);
      forall a | a in m.pools
        ensures P.Inv(closing[a]) && P.FlushOk(closing[a]) && !closing[a].closeState.Open?
        ensures closing[a].toFlush == m.pools[a].toFlush
      {
        PoolCloseKeeps(m.pools[a], if a in syncs then syncs[a] else {});
      }
      MinusDistinct(m.pending, syncPools);
      var left := StillClosing(m, syncs);
      MaybeClosedKeeps(m.(pools := left, toFlush := m.toFlush * left.Keys,
                          pending := Minus(m.pending, syncPools), closeState := Waiting));
    }
  }

  lemma StepKeeps(m: Manager, e: Event)
    requires Inv(m) && Enabled(m, e)
    ensures Inv(Step(m, e))
  {
    hide P.Inv, P.FlushOk, P.OpenedOk;
    match e
    case Add(a) => AddKeeps(m, a);
    case PoolReady(x, config, candidates, grabs) =>
      OpenedPool(config, candidates, grabs);
      ConnectKeeps(m, x, Some(P.Opened(config, candidates, grabs)));
    case PoolFailed(x, heard) =>
      ConnectKeeps(if heard then OnPoolCritical(m, x.address) else m, x, None);
    case InPool(a, pe) =>
      PoolStepKeeps(m.pools[a], pe);
      AbsorbKeeps(m, a, P.Step(m.pools[a], pe));
    case Remove(a, sync) =>
      if a in m.pools {
        PoolStepKeeps(m.pools[a], P.CloseRequested(sync));
        AbsorbKeeps(m, a, P.Step(m.pools[a], P.CloseRequested(sync)));
      }
    case Flush(orders) => FlushKeeps(m, orders);
    case Close(syncs, syncPools) => CloseKeeps(m, syncs, syncPools);
  }

  // ---------------------------------------------------------------- runs

  ghost predicate Legal(m: Manager, es: seq<Event>)
    decreases |es|
  {
    es == [] || (Enabled(m, es[0]) && Legal(Step(m, es[0]), es[1..]))
  }

  function Run(m: Manager, es: seq<Event>): Manager
    decreases |es|
  {
    if es == [] then m else Run(Step(m, es[0]), es[1..])
  }

  lemma {:induction false} RunKeeps(m: Manager, es: seq<Event>)
    requires Inv(m) && Legal(m, es)
    ensures Inv(Run(m, es))
    decreases |es|
  {
    if es != [] {
      StepKeeps(m, es[0]);
      RunKeeps(Step(m, es[0]), es[1..]);
    }
  }

  /** A connection that asked for a flush and is still pooled is in its pool's flush set, that pool
      is in the manager's, and the manager's listener has been signalled since the last flush. */
  lemma NoFlushIsLost(es: seq<Event>)
    requires Legal(Fresh, es)
    ensures var m := Run(Fresh, es);
      forall a, c :: a in m.pools && P.Pooled(m.pools[a], c) && P.Owed(m.pools[a].log, c) ==>
        c in m.pools[a].toFlush && a in m.toFlush && Signalled(m.log)
  {
    RunKeeps(Fresh, es);
  }

  /** The next flush of the manager settles every such request, in every pool. */
  lemma FlushSettlesEverything(es: seq<Event>, orders: map<Address, seq<P.Conn>>)
    requires Legal(Fresh, es) && Enabled(Run(Fresh, es), Flush(orders))
    ensures var m := Step(Run(Fresh, es), Flush(orders));
      && m.pools.Keys == Run(Fresh, es).pools.Keys
      && m.toFlush == {} && m.log == Run(Fresh, es).log + [DidFlush]
      && forall a, c :: a in m.pools && P.Pooled(m.pools[a], c) ==> !P.Owed(m.pools[a].log, c)
  {
    RunKeeps(Fresh, es);
    var m := Run(Fresh, es);
    FlushKeeps(m, orders);
  }

  // ---------------------------------------------------------------- closing, over both levels

  ghost function SumWork(pools: map<Address, P.Pool>): nat
    decreases |pools|
  {
    if pools == map[] then 0
    else
      var a :| a in pools;
      P.Work(pools[a]) + SumWork(pools - {a})
  }

  /** Connections, connectors and pool connectors that have yet to call back. */
  ghost function Total(m: Manager): nat
  {
    SumWork(m.pools) + |m.pending|
  }

  lemma {:induction false} SumSplit(pools: map<Address, P.Pool>, a: Address)
    requires a in pools
    ensures SumWork(pools) == P.Work(pools[a]) + SumWork(pools - {a})
    decreases |pools|
  {
    var b :| b in pools && SumWork(pools) == P.Work(pools[b]) + SumWork(pools - {b});
    if a != b {
      SumSplit(pools - {b}, a);
      SumSplit(pools - {a}, b);
      assert pools - {b} - {a} == pools - {a} - {b};
    }
  }

  lemma SumUpdate(pools: map<Address, P.Pool>, a: Address, q: P.Pool)
    requires a in pools
    ensures SumWork(pools[a := q]) == SumWork(pools) - P.Work(pools[a]) + P.Work(q)
    ensures SumWork(pools - {a}) == SumWork(pools) - P.Work(pools[a])
  {
    SumSplit(pools, a);
    SumSplit(pools[a := q], a);
    assert pools[a := q] - {a} == pools - {a};
  }

  lemma {:induction false} SumSame(pools: map<Address, P.Pool>, other: map<Address, P.Pool>)
    requires pools.Keys == other.Keys && forall a :: a in pools ==> P.Work(pools[a]) == P.Work(other[a])
    ensures SumWork(pools) == SumWork(other)
    decreases |pools|
  {
    if pools == map[] {
      assert other == map[];
    } else {
      var a :| a in pools;
      SumSplit(pools, a);
      SumSplit(other, a);
      SumSame(pools - {a}, other - {a});
    }
  }

  predicate IsChild(e: Event)
  {
    e.PoolReady? || e.PoolFailed? || (e.InPool? && P.IsChild(e.event))
  }

  function Children(es: seq<Event>): nat
  {
    if es == [] then 0 else (if IsChild(es[0]) then 1 else 0) + Children(es[1..])
  }

  lemma PoolWork(p: P.Pool)
    requires P.Inv(p)
    ensures P.Work(p) == 0 <==> p.closeState.Closed?
  {
    P.TotalZero(p.conns);
  }

  lemma AbsorbTotal(m: Manager, a: Address, q: P.Pool)
    requires Inv(m) && a in m.pools && P.Inv(q)
    ensures Total(Absorb(m, a, q)) == Total(m) - P.Work(m.pools[a]) + P.Work(q)
  {
    hide P.Inv, P.FlushOk;
    SumUpdate(m.pools, a, q);
    if q.closeState.Closed? {
      PoolWork(q);
      assert m.pools[a := q] - {a} == m.pools - {a};
    }
  }

  lemma FlushTotal(m: Manager, orders: map<Address, seq<P.Conn>>)
    ensures Total(Step(m, Flush(orders))) == Total(m)
  {
    SumSame(m.pools, FlushedPools(m, orders));
  }

  lemma InPoolTotal(m: Manager, a: Address, pe: P.Event)
    requires Inv(m) && !m.closeState.Open? && a in m.pools && P.Enabled(m.pools[a], pe)
    ensures Total(Absorb(m, a, P.Step(m.pools[a], pe))) == Total(m) - if P.IsChild(pe) then 1 else 0
  {
    hide P.Step, P.Inv, P.Enabled, P.FlushOk, Absorb, Total;
    P.StepKeeps(m.pools[a], pe);
    P.WorkStep(m.pools[a], pe);
    AbsorbTotal(m, a, P.Step(m.pools[a], pe));
  }

  lemma ConnectTotal(m: Manager, x: PendingPool, pool: Option<P.Pool>)
    requires Inv(m) && !m.closeState.Open? && x in m.pending
    ensures Total(OnConnect(m, x, pool)) == Total(m) - 1 && !OnConnect(m, x, pool).closeState.Open?
  {
    hide P.FlushOk, P.Inv;
    MinusDistinct(m.pending, {x});
  }

  /** An add that starts a pool connector. */
  predicate Starts(m: Manager, e: Event) { e.Add? && !Known(m, e.address) }

  lemma StepTotal(m: Manager, e: Event)
    requires Inv(m) && !m.closeState.Open? && Enabled(m, e)
    ensures Total(Step(m, e)) == Total(m) - Bit(IsChild(e)) + Bit(Starts(m, e))
    ensures !Step(m, e).closeState.Open?
  {
    hide P.FlushOk, P.Inv, P.Step, P.Enabled;
    match e
    case Add(a) =>
    case PoolReady(x, config, candidates, grabs) => ConnectTotal(m, x, Some(P.Opened(config, candidates, grabs)));
    case PoolFailed(x, heard) =>
      ConnectTotal(if heard then OnPoolCritical(m, x.address) else m, x, None);
    case InPool(a, pe) =>
      InPoolTotal(m, a, pe);
    case Remove(a, sync) => if a in m.pools { AbsorbTotal(m, a, m.pools[a]); }
    case Flush(orders) => FlushTotal(m, orders);
    case Close(_, _) =>
  }

  lemma TotalZero(m: Manager)
    requires Inv(m) && !m.closeState.Open?
    ensures Total(m) == 0 <==> m.closeState.Closed?
  {
    hide P.Inv, P.FlushOk;
    if m.pools != map[] {
      var a :| a in m.pools;
      SumSplit(m.pools, a);
      PoolWork(m.pools[a]);
    }
  }

  /** How many adds of a run start a pool connector: those of hosts the manager does not know. */
  function Started(m: Manager, es: seq<Event>): nat
    decreases |es|
  {
    if es == [] then 0 else Bit(Starts(m, es[0])) + Started(Step(m, es[0]), es[1..])
  }

  /** Once closing has started, each callback of a connection, a connector or a pool connector brings
      the total down by one, and only hosts added meanwhile bring it up; the manager closes at the
      callback that leaves none, having reported it once. */
  lemma {:induction false} ClosesAtLastChild(m: Manager, es: seq<Event>)
    requires Inv(m) && !m.closeState.Open? && Legal(m, es)
    ensures Total(Run(m, es)) + Children(es) == Total(m) + Started(m, es)
    ensures Run(m, es).closeState.Closed? <==> Children(es) == Total(m) + Started(m, es)
    ensures multiset(Run(m, es).log)[ManagerClosed] == Bit(Children(es) == Total(m) + Started(m, es))
    decreases |es|
  {
    hide PoolsOk, PendingOk, FlushOk, Enabled, Step, Starts;
    if es == [] {
      TotalZero(m);
    } else {
      StepKeeps(m, es[0]);
      StepTotal(m, es[0]);
      ClosesAtLastChild(Step(m, es[0]), es[1..]);
    }
  }

  /** The total does grow after the close: a host added then is connected to, and the manager waits
      for that too. */
  lemma AddAfterCloseGrows(a: Address, b: Address)
    requires a != b
    ensures var es := [Add(a), Close(map[], {})];
      && Legal(Fresh, es + [Add(b)]) && Run(Fresh, es).closeState.Waiting?
      && Total(Run(Fresh, es + [Add(b)])) == Total(Run(Fresh, es)) + 1
  {
    var x, y := PendingPool(0, a), PendingPool(1, b);
    var m1 := Fresh.(pending := [x], created := 1);
    var m2 := m1.(closeState := Waiting);
    var m3 := m2.(pending := [x, y], created := 2);
    assert Step(Fresh, Add(a)) == m1;
    assert !Known(m2, b) && Step(m2, Add(b)) == m3;
    var es := [Add(a), Close(map[], {})];
    assert es + [Add(b)] == [Add(a), Close(map[], {}), Add(b)];
    Prepend(m3, m3, []);
    Prepend(m2, m3, [Add(b)]);
    Prepend(m1, m2, [Close(map[], {}), Add(b)]);
    Prepend(Fresh, m1, [Add(a), Close(map[], {}), Add(b)]);
    Prepend(m2, m2, []);
    Prepend(m1, m2, [Close(map[], {})]);
    Prepend(Fresh, m1, es);
  }

  /** Unrolls a run by one event. */
  lemma Prepend(m: Manager, t: Manager, es: seq<Event>)
    requires es != [] ==> Step(m, es[0]) == t
    ensures es != [] ==> Run(m, es) == Run(t, es[1..]) && (Legal(m, es) <==> Enabled(m, es[0]) && Legal(t, es[1..]))
    ensures es == [] ==> Run(m, es) == m && Legal(m, es)
  {
  }

  // ---------------------------------------------------------------- what the listener hears of failures

  /** While the manager is open a pool that cannot be opened is reported twice, once by its connector
      and once by its callback; after that at most once. */
  lemma FailureIsHeardTwice(m: Manager, x: PendingPool, heard: bool)
    requires Inv(m) && Enabled(m, PoolFailed(x, heard))
    ensures var t := Step(m, PoolFailed(x, heard));
      multiset(t.log)[ConnectFailed(x.address)] ==
      multiset(m.log)[ConnectFailed(x.address)] + Bit(heard) + Bit(m.closeState.Open?)
  {
  }

  // ---------------------------------------------------------------- is an added host served

  /** The host has an open pool, or one is under way. */
  ghost predicate Served(m: Manager, a: Address)
  {
    (a in m.pools && m.pools[a].closeState.Open?) || exists x :: x in m.pending && x.address == a
  }

  /** An add serves the host exactly unless its pool is still closing: then the add is lost. */
  lemma AddServesExactlyWhen(m: Manager, a: Address)
    requires Inv(m) && Enabled(m, Add(a))
    ensures Served(Step(m, Add(a)), a) <==> !(a in m.pools && !m.pools[a].closeState.Open?)
  {
    hide PoolsOk, FlushOk, StateOk;
    var t := Step(m, Add(a));
    if a !in m.pools {
      if Known(m, a) {
        var i :| 0 <= i < |m.pending| && m.pending[i].address == a;
        assert m.pending[i] in t.pending;
      } else {
        assert t.pending[|m.pending|] in t.pending;
      }
    }
  }

  /** The events that may end the service of a host: a removal, a close, or a critical error. */
  predicate Ends(e: Event, a: Address)
  {
    match e
    case Remove(b, _) => a == b
    case Close(_, _) => true
    case PoolFailed(x, _) => x.address == a
    case InPool(b, pe) => a == b && pe.Reconnected? && pe.outcome.CriticalError?
    case _ => false
  }

  lemma PoolStaysOpen(p: P.Pool, pe: P.Event)
    requires p.closeState.Open? && !pe.CloseRequested? && !(pe.Reconnected? && pe.outcome.CriticalError?)
    ensures P.Step(p, pe).closeState.Open?
  {
  }

  lemma AbsorbExact(m: Manager, b: Address, q: P.Pool)
    requires b in m.pools
    ensures var t := Absorb(m, b, q);
      t.pending == m.pending && t.pools == if q.closeState.Closed? then m.pools - {b} else m.pools[b := q]
  {
    assert m.pools[b := q] - {b} == m.pools - {b};
  }

  lemma StaysServed(m: Manager, e: Event, a: Address)
    requires Inv(m) && m.closeState.Open? && Enabled(m, e) && Served(m, a) && !Ends(e, a)
    ensures Served(Step(m, e), a) && Step(m, e).closeState.Open?
  {
    hide P.Step, P.Enabled, P.OpenedOk, P.InternalClose, P.FlushAll, PoolsOk, FlushOk, StateOk;
    var t := Step(m, e);
    match e
    case Add(b) =>
      if x :| x in m.pending && x.address == a { assert x in t.pending; }
    case PoolReady(x, config, candidates, grabs) =>
      OpenedPool(config, candidates, grabs);
      if y :| y in m.pending && y.address == a && y != x { assert y in t.pending; }
    case PoolFailed(x, heard) =>
      if y :| y in m.pending && y.address == a { assert y in t.pending; }
    case InPool(b, pe) =>
      AbsorbExact(m, b, P.Step(m.pools[b], pe));
      if m.pools[b].closeState.Open? && a == b { PoolStaysOpen(m.pools[b], pe); }
    case Remove(b, sync) => if b in m.pools { AbsorbExact(m, b, P.InternalClose(m.pools[b], sync)); }
    case Flush(orders) => if a in m.pools { FlushLeavesState(m, orders, a); }
  }

  lemma FlushLeavesState(m: Manager, orders: map<Address, seq<P.Conn>>, a: Address)
    requires a in m.pools
    ensures a in FlushedPools(m, orders) && FlushedPools(m, orders)[a].closeState == m.pools[a].closeState
  {
  }

  /** A host added while its old pool is not closing is served for as long as nothing ends that. */
  lemma {:induction false} AddedStaysServed(m: Manager, a: Address, es: seq<Event>)
    requires Inv(m) && m.closeState.Open? && Served(m, a) && Legal(m, es)
    requires forall e :: e in es ==> !Ends(e, a)
    ensures Served(Run(m, es), a)
    decreases |es|
  {
    if es != [] {
      hide Inv, Step, Enabled, Served, Ends;
      assert es[0] in es;
      StepKeeps(m, es[0]);
      StaysServed(m, es[0], a);
      AddedStaysServed(Step(m, es[0]), a, es[1..]);
    }
  }

  ghost predicate LosingRun(a: Address, es: seq<Event>)
  {
    && Legal(Fresh, es) && |es| >= 2 && es[|es| - 2] == Add(a)
    && !Ends(es[|es| - 1], a)
    && Run(Fresh, es).closeState.Open? && !Known(Run(Fresh, es), a) && !Served(Run(Fresh, es), a)
  }

  /** Such a run: a host is removed and added again, as happens when it is reported anew, before its
      last connection has closed. Afterwards the manager is open and does not know the host. */
  lemma AddedHostIsLost(a: Address)
    ensures exists es :: LosingRun(a, es)
  {
    var c, x := P.Conn(0, 0), PendingPool(0, a);
    P.OneOpened(c);
    var p := P.Opened(P.ONE, [c], [[]]);
    var q := p.(closeState := P.Waiting);
    var e0, e1, e2, e3 := Add(a), PoolReady(x, P.ONE, [c], [[]]), Remove(a, {}), InPool(a, P.ConnClosed(c));
    var m1 := Fresh.(pending := [x], created := 1);
    var m2 := m1.(pending := [], pools := map[a := p]);
    var m3 := m2.(pools := map[a := q]);
    var m4 := m2.(pools := map[]);
    assert Step(Fresh, e0) == m1;
    ReadyAlone(m1, x, c);
    RemoveAlone(m2, a, c);
    assert Known(m3, a) && Step(m3, e0) == m3 && Enabled(m3, e0);
    LastCloses(m3, a, c);
    hide Step, Enabled;
    Prepend(m4, m4, []);
    Prepend(m3, m4, [e3]);
    Prepend(m3, m3, [e0, e3]);
    Prepend(m2, m3, [e2, e0, e3]);
    Prepend(m1, m2, [e1, e2, e0, e3]);
    Prepend(Fresh, m1, [e0, e1, e2, e0, e3]);
    assert LosingRun(a, [e0, e1, e2, e0, e3]);
  }

  lemma ReadyAlone(m: Manager, x: PendingPool, c: P.Conn)
    requires m.pending == [x] && m.pools == map[] && m.closeState.Open? && c.shard == 0
    ensures var e := PoolReady(x, P.ONE, [c], [[]]);
      Enabled(m, e) && Step(m, e) == m.(pending := [], pools := map[x.address := P.Opened(P.ONE, [c], [[]])])
  {
    P.OneOpened(c);
    hide P.Opened, P.OpenedOk;
    assert m.pending[1..] == [] && Minus([], {x}) == [] && Minus(m.pending, {x}) == [];
  }

  lemma RemoveAlone(m: Manager, a: Address, c: P.Conn)
    requires c.shard == 0 && m.pools == map[a := P.Opened(P.ONE, [c], [[]])]
    ensures Enabled(m, Remove(a, {}))
    ensures Step(m, Remove(a, {})) == m.(pools := map[a := P.Opened(P.ONE, [c], [[]]).(closeState := P.Waiting)])
  {
    P.OneOpened(c);
    var p := m.pools[a];
    assert p.conns[0] != [];
    var f := P.Forget(p, {});
    assert f.pending == [] && f.schedules == map[];
    assert P.InternalClose(p, {}) == p.(closeState := P.Waiting);
    assert m.pools[a := P.InternalClose(p, {})] == map[a := P.InternalClose(p, {})];
  }

  lemma LastCloses(m: Manager, a: Address, c: P.Conn)
    requires c.shard == 0 && m.toFlush == {} && m.closeState.Open?
    requires m.pools == map[a := P.Opened(P.ONE, [c], [[]]).(closeState := P.Waiting)]
    ensures Enabled(m, InPool(a, P.ConnClosed(c)))
    ensures Step(m, InPool(a, P.ConnClosed(c))) == m.(pools := map[])
  {
    P.OneOpened(c);
    var q := m.pools[a];
    assert c in q.conns[0];
    assert [c][1..] == [] && Without([], c) == [] && Without([c], c) == [];
    var r := P.RemoveConn(q, c);
    assert r.conns == [[]] && !P.HasConns(r);
    assert P.Step(q, P.ConnClosed(c)).closeState.Closed?;
    assert m.pools[a := P.Step(q, P.ConnClosed(c))] - {a} == map[];
  }

  // ---------------------------------------------------------------- is a removed host gone

  /** A removal ends the service of a host exactly unless its pool is only under way: such a pool is not
      stopped and opens later. */
  lemma RemoveServesExactlyWhen(m: Manager, a: Address, sync: set<P.Pending>)
    requires Inv(m) && Enabled(m, Remove(a, sync))
    ensures Served(Step(m, Remove(a, sync)), a) <==> a !in m.pools && Known(m, a)
  {
    hide P.InternalClose, P.Enabled, P.Inv, P.FlushOk, FlushOk, StateOk;
    if a in m.pools {
      NotOpenAfterClose(m.pools[a], sync);
      AbsorbExact(m, a, P.InternalClose(m.pools[a], sync));
    } else if Known(m, a) {
      var i :| 0 <= i < |m.pending| && m.pending[i].address == a;
      assert m.pending[i] in m.pending;
    }
  }

  lemma NotOpenAfterClose(p: P.Pool, sync: set<P.Pending>)
    ensures !P.InternalClose(p, sync).closeState.Open?
  {
  }

  lemma StaysUnserved(m: Manager, e: Event, a: Address)
    requires Inv(m) && Enabled(m, e) && !Served(m, a) && e != Add(a)
    ensures !Served(Step(m, e), a)
  {
    hide P.Step, P.Enabled, P.OpenedOk, P.Opened, P.InternalClose, P.FlushAll, P.Inv, P.FlushOk, FlushOk, StateOk;
    match e
    case Add(b) =>
    case PoolReady(x, _, _, _) =>
    case PoolFailed(x, _) =>
    case InPool(b, pe) =>
      PoolStepKeeps(m.pools[b], pe);
      AbsorbExact(m, b, P.Step(m.pools[b], pe));
    case Remove(b, sync) =>
      if b in m.pools {
        NotOpenAfterClose(m.pools[b], sync);
        AbsorbExact(m, b, P.InternalClose(m.pools[b], sync));
      }
    case Flush(orders) => if a in m.pools { FlushLeavesState(m, orders, a); }
    case Close(syncs, _) => if a in m.pools { NotOpenAfterClose(m.pools[a], if a in syncs then syncs[a] else {}); }
  }

  /** A host that is not served is not served again before it is added. */
  lemma {:induction false} UnservedUntilAdded(m: Manager, a: Address, es: seq<Event>)
    requires Inv(m) && !Served(m, a) && Legal(m, es) && Add(a) !in es
    ensures !Served(Run(m, es), a)
    decreases |es|
  {
    if es != [] {
      hide Inv, Step, Enabled, Served;
      assert es[0] in es;
      StepKeeps(m, es[0]);
      StaysUnserved(m, es[0], a);
      UnservedUntilAdded(Step(m, es[0]), a, es[1..]);
    }
  }

  ghost predicate ReturningRun(a: Address, es: seq<Event>)
  {
    && Legal(Fresh, es) && |es| >= 2 && es[|es| - 2] == Remove(a, {}) && !es[|es| - 1].Add?
    && a in Run(Fresh, es).pools && Run(Fresh, es).pools[a].closeState.Open?
  }

  /** Such a run: a host is removed before its pool has opened, and is then served for good. */
  lemma RemovedHostReturns(a: Address)
    ensures exists es :: ReturningRun(a, es)
  {
    var c, x := P.Conn(0, 0), PendingPool(0, a);
    P.OneOpened(c);
    var e0, e1, e2 := Add(a), Remove(a, {}), PoolReady(x, P.ONE, [c], [[]]);
    var m1 := Fresh.(pending := [x], created := 1);
    var m2 := m1.(pending := [], pools := map[a := P.Opened(P.ONE, [c], [[]])]);
    assert Step(Fresh, e0) == m1 && Step(m1, e1) == m1 && Enabled(m1, e1);
    ReadyAlone(m1, x, c);
    hide Step, Enabled;
    Prepend(m2, m2, []);
    Prepend(m1, m2, [e2]);
    Prepend(m1, m1, [e1, e2]);
    Prepend(Fresh, m1, [e0, e1, e2]);
    assert ReturningRun(a, [e0, e1, e2]);
  }

  /** A manager that waits always has a callback it is waiting for. */
  lemma NeverStuck(m: Manager) returns (e: Event)
    requires Inv(m) && m.closeState.Waiting?
    ensures Enabled(m, e) && IsChild(e)
  {
    if m.pending != [] {
      e := PoolFailed(m.pending[0], false);
    } else {
      var a :| a in m.pools;
      var pe := NextChild(m.pools[a]);
      e := InPool(a, pe);
    }
  }

  lemma NextChild(p: P.Pool) returns (pe: P.Event)
    requires P.Inv(p) && !p.closeState.Open? && !p.closeState.Closed?
    ensures P.Enabled(p, pe) && P.IsChild(pe)
  {
    if P.HasConns(p) {
      var s :| 0 <= s < |p.conns| && p.conns[s] != [];
      assert p.conns[s][0] in p.conns[s];
      pe := P.ConnClosed(p.conns[s][0]);
    } else {
      pe := P.Reconnected(p.pending[0], P.Canceled, seq(|p.conns|, _ => []), {});
    }
  }
}
