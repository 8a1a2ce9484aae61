/**
 The pool object: its methods update the fields in place, as the event loop calls them, and each
 is proved to perform one operation of `Pooling`.
 */
module Pools {
  import opened Sequences
  import opened Pooling
  import Sharding

  const INT64_MIN: int := -0x8000_0000_0000_0000

  datatype ShardingInfo = ShardingInfo(shards: nat, ignoreMsb: nat)

  /** The quota is the configured number of connections divided among the shards, rounded up. A host
      without sharding information counts as one shard, and has no ports that decide shards. */
  function ConfigFor(n: nat, sharding: Option<ShardingInfo>, portAware: bool): Config
    requires sharding.Some? ==> sharding.value.shards >= 1
  {
    if sharding.None? then Config(1, n, false)
    else Config(sharding.value.shards, Sharding.ConnsPerShard(n, sharding.value.shards), portAware)
  }

  lemma QuotaIsLeast(n: nat, sharding: Option<ShardingInfo>, portAware: bool)
    requires sharding.Some? ==> sharding.value.shards >= 1
    ensures var config := ConfigFor(n, sharding, portAware);
      config.quota * config.shards >= n && forall m: nat :: m * config.shards >= n ==> m >= config.quota
  {
    var config := ConfigFor(n, sharding, portAware);
    forall m: nat ensures config.quota * config.shards >= n && (m * config.shards >= n ==> m >= config.quota) {
      if sharding.Some? { Sharding.CapacityIsLeastMultiple(n, sharding.value.shards, m); }
    }
    assert 0 * config.shards == 0;
  }

  /** The connections that are not closing already. */
  function Alive(connections: seq<Conn>, closing: set<Conn>): seq<Conn>
  {
    if connections == [] then []
    else
      var k := |connections| - 1;
      Alive(connections[..k], closing) + if connections[k] in closing then [] else [connections[k]]
  }

  lemma {:induction false} AliveIn(connections: seq<Conn>, closing: set<Conn>)
    ensures forall c :: c in Alive(connections, closing) <==> c in connections && c !in closing
  {
    if connections != [] {
      var k := |connections| - 1;
      assert connections == connections[..k] + [connections[k]];
      AliveIn(connections[..k], closing);
    }
  }

  /** They stay in their order. */
  lemma {:induction false} AliveKeepsOrder(a: seq<Conn>, b: seq<Conn>, closing: set<Conn>)
    ensures Alive(a + b, closing) == Alive(a, closing) + Alive(b, closing)
    decreases |b|
  {
    if b == [] {
      assert a + b == a;
    } else {
      var k := |b| - 1;
      assert (a + b)[..|a| + k] == a + b[..k];
      AliveKeepsOrder(a, b[..k], closing);
    }
  }

  /** What the pool reads off a connection when it looks for the least busy one. */
  datatype Load = Load(closing: bool, inflight: int)

  /** A closing connection is never the least busy one. */
  predicate LessBusy(a: Load, b: Load)
  {
    !a.closing && (b.closing || a.inflight < b.inflight)
  }

  /** `std::min` and `std::min_element` need this of their comparator. */
  lemma LessBusyIsStrictWeakOrder(a: Load, b: Load, c: Load)
    ensures !LessBusy(a, a)
    ensures LessBusy(a, b) && LessBusy(b, c) ==> LessBusy(a, c)
    ensures !LessBusy(a, b) && !LessBusy(b, a) && !LessBusy(b, c) && !LessBusy(c, b) ==>
              !LessBusy(a, c) && !LessBusy(c, a)
  {
  }

  ghost predicate AllClosing(cs: seq<Conn>, loads: map<Conn, Load>)
  {
    forall c :: c in cs ==> c in loads && loads[c].closing
  }

  /** No open connection among `cs` has fewer requests in flight. */
  ghost predicate NoneLess(load: Load, cs: seq<Conn>, loads: map<Conn, Load>)
  {
    forall d :: d in cs ==> d in loads && (loads[d].closing || load.inflight <= loads[d].inflight)
  }

  /** `c` is an open connection among `cs`, and none of them carries less. */
  ghost predicate LeastBusyOf(c: Conn, cs: seq<Conn>, loads: map<Conn, Load>)
  {
    c in cs && c in loads && !loads[c].closing && NoneLess(loads[c], cs, loads)
  }

  ghost predicate PoolClosing(conns: seq<seq<Conn>>, loads: map<Conn, Load>)
  {
    forall s :: 0 <= s < |conns| ==> AllClosing(conns[s], loads)
  }

  ghost predicate LeastBusyOfPool(c: Conn, conns: seq<seq<Conn>>, loads: map<Conn, Load>)
  {
    && c in loads && !loads[c].closing
    && (exists s :: 0 <= s < |conns| && c in conns[s])
    && (forall s :: 0 <= s < |conns| ==> NoneLess(loads[c], conns[s], loads))
  }

  predicate InSome(conns: seq<seq<Conn>>, c: Conn) { exists s :: 0 <= s < |conns| && c in conns[s] }

  lemma MinusTwice(pending: seq<Pending>, gone: set<Pending>, x: Pending)
    ensures Minus(Minus(pending, gone), {x}) == Minus(pending, gone + {x})
  {
  }

  lemma ForgetTwice(p: Pool, gone: set<Pending>, x: Pending)
    ensures Forget(Forget(p, gone), {x}) == Forget(p, gone + {x})
  {
    MinusTwice(p.pending, gone, x);
    assert Forget(Forget(p, gone), {x}).schedules == Forget(p, gone + {x}).schedules;
  }

  lemma ForgetNothing(p: Pool)
    ensures Forget(p, {}) == p
  {
    MinusNothing(p.pending, {});
    assert p.schedules - {} == p.schedules;
  }

  lemma {:induction false} MinusNothing(pending: seq<Pending>, gone: set<Pending>)
    requires forall x :: x in pending ==> x !in gone
    ensures Minus(pending, gone) == pending
  {
    if pending != [] {
      assert pending == [pending[0]] + pending[1..];
      MinusNothing(pending[1..], gone);
    }
  }

  class ConnectionPool {
    const config: Config
    const sharding: Option<ShardingInfo>
    var conns: seq<seq<Conn>>
    var pending: seq<Pending>
    var schedules: map<nat, nat>
    var created: nat
    var drawn: nat
    var closeState: CloseState
    var notifyState: NotifyState
    var toFlush: set<Conn>
    var toldToClose: set<Conn>
    ghost var surplus: seq<Conn>
    ghost var log: seq<Note>

    ghost function State(): Pool
      reads this
    {
      Pool(config, conns, pending, schedules, created, drawn, closeState, notifyState, toFlush, surplus, log)
    }

    constructor (n: nat, sharding: Option<ShardingInfo>, portAware: bool, connections: seq<Conn>, closing: set<Conn>,
                 grabs: seq<seq<Conn>>)
      requires sharding.Some? ==> sharding.value.shards >= 1
      requires OpenedOk(ConfigFor(n, sharding, portAware), Alive(connections, closing), grabs)
      ensures this.sharding == sharding && toldToClose == {}
      ensures State() == Opened(ConfigFor(n, sharding, portAware), Alive(connections, closing), grabs)
      ensures |conns| == if sharding.Some? then sharding.value.shards else 1
      ensures config.shards == |conns| && config.portAware == (sharding.Some? && portAware)
      ensures config.quota * |conns| >= n && forall m: nat :: m * |conns| >= n ==> m >= config.quota
    {
      this.sharding := sharding;
      if sharding.Some? {
        var count := sharding.value.shards;
        config := Config(count, n / count + if n % count != 0 then 1 else 0, portAware);
        conns := seq(count, _ => []);
      } else {
        config := Config(1, n, false);
        conns := seq(1, _ => []);
      }
      pending, schedules, created, drawn, toldToClose := [], map[], 0, 0, {};
      closeState, notifyState, toFlush, surplus, log := Open, New, {}, [], [];
      new;
      hide Admit, Opened, GrabOk;
      assert State() == Empty(config);
      Fill(connections, closing);
      AdmitConns(config, Alive(connections, closing));
      Launch(Alive(connections, closing), grabs);
      QuotaIsLeast(n, sharding, portAware);
    }

    /** Takes what the marketplace has, tells the listener, and schedules a reconnect per missing slot. */
    method Launch(ghost candidates: seq<Conn>, grabs: seq<seq<Conn>>)
      requires OpenedOk(config, candidates, grabs) && State() == Admit(Empty(config), candidates)
      modifies `conns, `notifyState, `pending, `schedules, `created, `drawn, `log
      ensures State() == Opened(config, candidates, grabs) && |conns| == old(|conns|)
    {
      hide Admit;
      var _ := GrabAll(grabs);
      NotifyUpOrDown();
      ghost var p := State();
      for s := 0 to |conns|
        invariant State() == ScheduleShards(p, s) && conns == p.conns
      {
        ScheduleMissing(s, config.quota - |conns[s]|);
      }
    }

    /** Admits the connections that are still there, up to the quota of their shard. */
    method Fill(connections: seq<Conn>, closing: set<Conn>)
      requires State() == Empty(config)
      requires config.Valid() && Distinct(Alive(connections, closing))
      requires forall c :: c in Alive(connections, closing) ==> c.shard < config.shards
      modifies `conns, `surplus
      ensures State() == Admit(Empty(config), Alive(connections, closing))
    {
      for i := 0 to |connections|
        invariant State() == Admit(Empty(config), Alive(connections[..i], closing))
      {
        assert connections[..i + 1][..i] == connections[..i];
        var c := connections[i];
        ghost var before := Alive(connections[..i], closing);
        AdmitConns(config, before);
        assert Alive(connections[..i + 1], closing) == before + if c in closing then [] else [c];
        assert before + [] == before;
        if c !in closing {
          AliveIn(connections, closing);
          assert (before + [c])[..|before|] == before;
          if |conns[c.shard]| < config.quota { AddConnection(c); } else { surplus := surplus + [c]; }
        }
      }
      assert connections[..|connections|] == connections;
    }

    /** One reconnect for every slot missing on the shard. */
    method ScheduleMissing(shard: nat, needed: int)
      modifies `pending, `schedules, `created, `drawn
      ensures State() == ScheduleMany(old(State()), if needed > 0 then needed else 0, shard)
      ensures conns == old(conns)
    {
      ghost var p := State();
      var i := 0;
      while i < needed
        invariant 0 <= i && (i <= needed || i == 0)
        invariant State() == ScheduleMany(p, i, shard) && conns == p.conns
      {
        ScheduleReconnect(None, Some(shard));
        i := i + 1;
      }
    }

    method AddConnection(c: Conn)
      requires c.shard < |conns|
      modifies `conns
      ensures State() == AddConn(old(State()), c)
    {
      conns := conns[c.shard := conns[c.shard] + [c]];
    }

    method NotifyUpOrDown()
      modifies `notifyState, `log
      ensures State() == Pooling.NotifyUpOrDown(old(State()))
    {
      if (notifyState.New? || notifyState.Up?) && !NonEmpty(conns) {
        notifyState, log := Down, log + [PoolDown];
      } else if (notifyState.New? || notifyState.Down?) && NonEmpty(conns) {
        notifyState, log := Up, log + [PoolUp];
      }
    }

    method NotifyCriticalError()
      modifies `notifyState, `log
      ensures State() == NotifyCritical(old(State()))
    {
      if !notifyState.Critical? { notifyState, log := Critical, log + [PoolCritical]; }
    }

    method ScheduleReconnect(schedule: Option<nat>, desired: Option<nat>)
      modifies `pending, `schedules, `created, `drawn
      ensures State() == Schedule(old(State()), schedule, desired)
    {
      var connector := Pending(created, if config.portAware then desired else None);
      created := created + 1;
      match schedule {
        case Some(s) => schedules := schedules[connector.id := s];
        case None =>
          schedules := schedules[connector.id := drawn];
          drawn := drawn + 1;
      }
      pending := pending + [connector];
    }

    method MaybeClosed()
      modifies `closeState, `log
      ensures State() == Pooling.MaybeClosed(old(State()))
    {
      if closeState.Waiting? && !NonEmpty(conns) && pending == [] {
        closeState := Closed;
        if notifyState.Up? { log := log + [PoolDown]; }
        log := log + [PoolClosed];
      }
    }

    /** Fills the shards from the marketplace; `grabs` is what the host has to offer. */
    method GrabAll(grabs: seq<seq<Conn>>) returns (saturated: bool)
      requires GrabOk(State(), grabs)
      modifies `conns
      ensures State() == Grab(old(State()), grabs)
      ensures saturated == Saturated(State())
    {
      ghost var p := State();
      saturated := true;
      for s := 0 to |conns|
        invariant |conns| == |p.conns|
        invariant forall i :: 0 <= i < s ==> conns[i] == p.conns[i] + grabs[i]
        invariant forall i :: s <= i < |conns| ==> conns[i] == p.conns[i]
        invariant saturated <==> forall i :: 0 <= i < s ==> |conns[i]| == config.quota
      {
        if |conns[s]| != config.quota {
          conns := conns[s := conns[s] + grabs[s]];
          saturated := saturated && |conns[s]| == config.quota;
        } else {
          assert |grabs[s]| == 0 && conns[s] == conns[s] + grabs[s];
        }
      }
      assert conns == Grab(p, grabs).conns;
    }

    /** The pool forgets a connector that has called back and its schedule. */
    method ForgetConnector(x: Pending)
      requires x.id in schedules
      modifies `pending, `schedules
      ensures State() == Forget(old(State()), {x})
    {
      pending := Minus(pending, {x});
      schedules := schedules - {x.id};
    }

    method InternalClose(sync: set<Pending>)
      requires PendingOk(State()) && forall y :: y in sync ==> y in pending
      modifies this
      ensures State() == Pooling.InternalClose(old(State()), sync)
      ensures old(closeState.Open?) ==> forall s, c :: 0 <= s < |conns| && c in conns[s] ==> c in toldToClose
    {
      hide PendingOk;
      if !closeState.Open? { return; }
      closeState := Closing;
      CloseConnections();
      SamePending(old(State()), State());
      CancelPending(sync);
      closeState := Waiting;
      MaybeClosed();
    }

    /** Every pooled connection is told to close; its end is reported later. */
    method CloseConnections()
      modifies `toldToClose
      ensures forall s, c :: 0 <= s < |conns| && c in conns[s] ==> c in toldToClose
      ensures forall c :: c in toldToClose ==> c in old(toldToClose) || InSome(conns, c)
    {
      for s := 0 to |conns|
        invariant forall i, c :: 0 <= i < s && c in conns[i] ==> c in toldToClose
        invariant forall c :: c in toldToClose ==> c in old(toldToClose) || InSome(conns, c)
      {
        var copy := conns[s];
        ghost var before := toldToClose;
        for i := 0 to |copy|
          invariant before <= toldToClose && forall c :: c in copy[..i] ==> c in toldToClose
          invariant forall c :: c in toldToClose ==> c in before || c in copy
        {
          assert copy[..i + 1] == copy[..i] + [copy[i]];
          toldToClose := toldToClose + {copy[i]};
        }
        assert copy[..|copy|] == copy;
        assert forall c :: c in copy ==> InSome(conns, c);
      }
    }

    /** Cancels a copy of the pending connectors; those in `sync` call back from within. */
    method CancelPending(sync: set<Pending>)
      requires PendingOk(State()) && closeState.Closing? && forall y :: y in sync ==> y in pending
      modifies `pending, `schedules
      ensures State() == Forget(old(State()), sync)
    {
      assert Distinct(pending);
      hide PendingOk;
      ghost var p := State();
      var copy := pending;
      ghost var done: set<Pending> := {};
      ForgetNothing(p);
      hide Forget;
      for i := 0 to |copy|
        invariant State() == Forget(p, done)
        invariant done == set x | x in copy[..i] && x in sync
      {
        var x := copy[i];
        assert copy[..i + 1] == copy[..i] + [x];
        assert x !in copy[..i];
        if x in sync {
          ForgetTwice(p, done, x);
          ForgetConnector(x);
          done := done + {x};
        }
      }
      assert copy[..|copy|] == copy && done == sync;
    }

    method CloseConnection(c: Conn)
      requires Pooled(State(), c)
      modifies this
      ensures State() == Pooling.CloseConnection(old(State()), c)
    {
      conns := conns[c.shard := Without(conns[c.shard], c)];
      toFlush := toFlush - {c};
      if !closeState.Open? {
        MaybeClosed();
        return;
      }
      NotifyUpOrDown();
      ScheduleReconnect(None, Some(c.shard));
    }

    method OnConnected(x: Pending, schedule: nat, c: Conn, grabs: seq<seq<Conn>>)
      requires c.shard < |conns| && GrabOk(State(), grabs)
      modifies this
      ensures State() == Pooling.OnConnected(old(State()), Some(schedule), x, c, grabs)
    {
      if |conns[c.shard]| < config.quota {
        AddConnection(c);
        NotifyUpOrDown();
      } else {
        surplus := surplus + [c];
        var saturated := GrabAll(grabs);
        if !saturated && schedules == map[] { ScheduleReconnect(Some(schedule), x.desired); }
      }
    }

    method OnReconnect(x: Pending, outcome: Outcome, grabs: seq<seq<Conn>>, sync: set<Pending>)
      requires ShapeOk(State()) && PendingOk(State()) && Enabled(State(), Reconnected(x, outcome, grabs, sync))
      modifies this
      ensures State() == Pooling.OnReconnect(old(State()), x, outcome, grabs, sync)
    {
      ForgetPending(State(), {x});
      assert x.id in Ids(pending);
      assert outcome.Connected? ==> outcome.conn.shard < |conns|;
      hide PendingOk, ShapeOk;
      var schedule := schedules[x.id];
      ForgetConnector(x);
      if !closeState.Open? {
        MaybeClosed();
        return;
      }
      match outcome {
        case Connected(c) => OnConnected(x, schedule, c, grabs);
        case Canceled =>
        case CriticalError =>
          NotifyCriticalError();
          InternalClose(sync);
        case Failed =>
          var saturated := GrabAll(grabs);
          if !saturated { ScheduleReconnect(Some(schedule), x.desired); }
      }
    }

    method RequiresFlush(c: Conn)
      modifies `toFlush, `log
      ensures State() == AskToFlush(old(State()), c)
    {
      if toFlush == {} { log := log + [FlushNeeded]; }
      toFlush := toFlush + {c};
      log := log + [Asked(c)];
    }

    method Flush(order: seq<Conn>)
      modifies `toFlush, `log
      ensures State() == FlushAll(old(State()), order)
    {
      ghost var p := State();
      for i := 0 to |order|
        invariant State() == p.(log := Flushing(p.log, order[..i]))
      {
        assert order[..i + 1][..i] == order[..i];
        log := log + [Flushed(order[i])];
      }
      assert order[..|order|] == order;
      toFlush := {};
    }

    /** The shard a token is looked up on; the placeholder token and a host without sharding
        information have none. */
    function ShardFor(token: int): (shard: Option<nat>)
      requires sharding.Some? ==> sharding.value.shards >= 1
      ensures shard.Some? <==> token != INT64_MIN && sharding.Some?
      ensures shard.Some? ==> shard.value < sharding.value.shards
      ensures shard.Some? ==>
        var t := (token + Sharding.TWO63) * Sharding.Pow2(sharding.value.ignoreMsb) % Sharding.TWO64;
        shard.value == t * sharding.value.shards / Sharding.TWO64
    {
      if token == INT64_MIN || sharding.None? then None
      else
        Sharding.BiasedIsShifted(token, sharding.value.ignoreMsb);
        Sharding.ShardOfIsScaledToken(token, sharding.value.shards, sharding.value.ignoreMsb);
        Some(Sharding.ShardOf(token, sharding.value.shards, sharding.value.ignoreMsb))
    }

    /** The least busy open connection of the token's shard if it has one, otherwise of the whole pool. */
    method FindLeastBusy(token: int, loads: map<Conn, Load>) returns (r: Option<Conn>)
      requires sharding.Some? ==> 1 <= sharding.value.shards == |conns|
      requires forall s, c :: 0 <= s < |conns| && c in conns[s] ==> c in loads
      ensures r.None? <==> PoolClosing(conns, loads)
      ensures r.Some? && (token == INT64_MIN || sharding.None?) ==> LeastBusyOfPool(r.value, conns, loads)
      ensures token != INT64_MIN && sharding.Some? ==>
        var t := (token + Sharding.TWO63) * Sharding.Pow2(sharding.value.ignoreMsb) % Sharding.TWO64;
        var shard := t * sharding.value.shards / Sharding.TWO64;
        && 0 <= shard < |conns|
        && (!AllClosing(conns[shard], loads) ==> r.Some? && LeastBusyOf(r.value, conns[shard], loads))
        && (AllClosing(conns[shard], loads) && r.Some? ==> LeastBusyOfPool(r.value, conns, loads))
    {
      var shard := ShardFor(token);
      if shard.Some? {
        r := MinElement(conns[shard.value], loads);
        if r.Some? && !loads[r.value].closing { return; }
      }
      r := LeastBusyOverall(loads);
    }

    /** `std::min_element`: the first element that no other one precedes. */
    method MinElement(cs: seq<Conn>, loads: map<Conn, Load>) returns (r: Option<Conn>)
      requires forall c :: c in cs ==> c in loads
      ensures r.None? <==> cs == []
      ensures r.Some? ==> r.value in cs && forall d :: d in cs ==> !LessBusy(loads[d], loads[r.value])
    {
      if cs == [] { return None; }
      var best := cs[0];
      for i := 1 to |cs|
        invariant best in cs
        invariant forall d :: d in cs[..i] ==> !LessBusy(loads[d], loads[best])
      {
        if LessBusy(loads[cs[i]], loads[best]) { best := cs[i]; }
      }
      r := Some(best);
    }

    method LeastBusyOverall(loads: map<Conn, Load>) returns (r: Option<Conn>)
      requires forall s, c :: 0 <= s < |conns| && c in conns[s] ==> c in loads
      ensures r.None? <==> PoolClosing(conns, loads)
      ensures r.Some? ==> LeastBusyOfPool(r.value, conns, loads)
    {
      r := None;
      for s := 0 to |conns|
        invariant r.None? ==> forall s' :: 0 <= s' < s ==> AllClosing(conns[s'], loads)
        invariant r.Some? ==> LeastBusyOfPool(r.value, conns[..s], loads)
      {
        var shardPool := conns[s];
        for i := 0 to |shardPool|
          invariant r.None? ==> AllClosing(shardPool[..i], loads)
          invariant r.None? ==> forall s' :: 0 <= s' < s ==> AllClosing(conns[s'], loads)
          invariant r.Some? ==> LeastSoFar(r.value, conns[..s], shardPool[..i], loads)
        {
          var c := shardPool[i];
          assert c in conns[s];
          assert shardPool[..i + 1] == shardPool[..i] + [c];
          if !loads[c].closing {
            if r.None? || LessBusy(loads[c], loads[r.value]) { r := Some(c); }
          }
        }
        assert shardPool[..|shardPool|] == shardPool;
        assert conns[..s + 1] == conns[..s] + [shardPool];
      }
      assert conns[..|conns|] == conns;
    }
  }

  ghost predicate LeastSoFar(c: Conn, before: seq<seq<Conn>>, here: seq<Conn>, loads: map<Conn, Load>)
  {
    && c in loads && !loads[c].closing
    && ((exists s :: 0 <= s < |before| && c in before[s]) || c in here)
    && (forall s :: 0 <= s < |before| ==> NoneLess(loads[c], before[s], loads))
    && NoneLess(loads[c], here, loads)
  }

  lemma AdmitConns(config: Config, candidates: seq<Conn>)
    ensures |Admit(Empty(config), candidates).conns| == config.shards
    ensures Admit(Empty(config), candidates).config == config
  {
  }

  lemma SamePending(p: Pool, q: Pool)
    requires PendingOk(p) && q == p.(closeState := q.closeState)
    ensures PendingOk(q)
  {
  }
}
