/**
 The shard-aware pool of connections to one host: per-shard quotas, one pending reconnect per
 lost slot, the marketplace of surplus connections, the notification and the close states.

 A step is one call of the event loop into the pool. Connections and connectors are named by
 numbers; what sockets, timers and the host's marketplace decide arrives in the event.
 */
module Pooling {
  import opened Sequences

  datatype Conn = Conn(id: nat, shard: nat)

  /** A delayed connector; `desired` is set only where the port decides the shard. */
  datatype Pending = Pending(id: nat, desired: Option<nat>)

  datatype CloseState = Open | Closing | Waiting | Closed

  datatype NotifyState = New | Up | Down | Critical

  datatype Note =
    | PoolUp
    | PoolDown
    | PoolCritical
    | PoolClosed
    | FlushNeeded
    | Asked(conn: Conn)
    | Flushed(conn: Conn)

  /** `portAware`: the host advertises a shard-aware port. An unsharded host has one shard. */
  datatype Config = Config(shards: nat, quota: nat, portAware: bool) {
    predicate Valid() { shards >= 1 && quota >= 1 }
    /** Every reconnect is aimed at one known shard. */
    predicate Targeted() { portAware || shards == 1 }
  }

  datatype Pool = Pool(
    config: Config,
    conns: seq<seq<Conn>>,            // index is the shard
    pending: seq<Pending>,
    schedules: map<nat, nat>,         // connector to reconnection schedule
    created: nat,                     // connectors created so far
    drawn: nat,                       // schedules drawn from the policy so far
    closeState: CloseState,
    notifyState: NotifyState,
    toFlush: set<Conn>,
    surplus: seq<Conn>,               // history: connections given to the marketplace
    log: seq<Note>)                   // history: calls of the listener and of Connection::flush

  datatype Outcome = Connected(conn: Conn) | Canceled | CriticalError | Failed

  datatype Event =
    | ConnClosed(conn: Conn)
    | Reconnected(connector: Pending, outcome: Outcome, grabs: seq<seq<Conn>>, sync: set<Pending>)
    | CloseRequested(sync: set<Pending>)
    | AskFlush(conn: Conn)
    | Flush(order: seq<Conn>)

  // ---------------------------------------------------------------- the operations

  predicate NonEmpty(conns: seq<seq<Conn>>)
  {
    exists s :: 0 <= s < |conns| && conns[s] != []
  }

  predicate HasConns(p: Pool) { NonEmpty(p.conns) }

  predicate Full(conns: seq<seq<Conn>>, quota: nat)
  {
    forall s :: 0 <= s < |conns| ==> |conns[s]| == quota
  }

  predicate Saturated(p: Pool) { Full(p.conns, p.config.quota) }

  predicate Pooled(p: Pool, c: Conn)
  {
    c.shard < |p.conns| && c in p.conns[c.shard]
  }

  predicate HasRoom(p: Pool, shard: nat)
  {
    shard < |p.conns| && |p.conns[shard]| < p.config.quota
  }

  function AddConn(p: Pool, c: Conn): Pool
  {
    if c.shard < |p.conns| then p.(conns := p.conns[c.shard := p.conns[c.shard] + [c]]) else p
  }

  function RemoveConn(p: Pool, c: Conn): Pool
  {
    (if c.shard < |p.conns| then p.(conns := p.conns[c.shard := Without(p.conns[c.shard], c)]) else p)
      .(toFlush := p.toFlush - {c})
  }

  function Notify(p: Pool, n: Note): Pool
  {
    p.(log := p.log + [n])
  }

  function NotifyUpOrDown(p: Pool): Pool
  {
    if (p.notifyState.New? || p.notifyState.Up?) && !HasConns(p) then
      Notify(p.(notifyState := Down), PoolDown)
    else if (p.notifyState.New? || p.notifyState.Down?) && HasConns(p) then
      Notify(p.(notifyState := Up), PoolUp)
    else p
  }

  function NotifyCritical(p: Pool): Pool
  {
    if p.notifyState.Critical? then p else Notify(p.(notifyState := Critical), PoolCritical)
  }

  /** A new delayed connector that takes over `schedule`, or draws one from the policy. */
  function Schedule(p: Pool, schedule: Option<nat>, desired: Option<nat>): Pool
  {
    var aim := if p.config.portAware then desired else None;
    p.(pending := p.pending + [Pending(p.created, aim)],
       schedules := p.schedules[p.created := if schedule.Some? then schedule.value else p.drawn],
       created := p.created + 1,
       drawn := if schedule.Some? then p.drawn else p.drawn + 1)
  }

  function Grab(p: Pool, grabs: seq<seq<Conn>>): Pool
  {
    p.(conns := seq(|p.conns|, i requires 0 <= i < |p.conns| =>
                      p.conns[i] + if i < |grabs| then grabs[i] else []))
  }

  function MaybeClosed(p: Pool): Pool
  {
    if p.closeState.Waiting? && !HasConns(p) && p.pending == [] then
      var q := p.(closeState := Closed);
      Notify(if p.notifyState.Up? then Notify(q, PoolDown) else q, PoolClosed)
    else p
  }

  function Minus(pending: seq<Pending>, gone: set<Pending>): (r: seq<Pending>)
    ensures forall x :: x in r <==> x in pending && x !in gone
  {
    if pending == [] then []
    else if pending[0] in gone then Minus(pending[1..], gone)
    else [pending[0]] + Minus(pending[1..], gone)
  }

  /** These connectors have called back: they and their schedules are forgotten. */
  function Forget(p: Pool, gone: set<Pending>): Pool
  {
    p.(pending := Minus(p.pending, gone), schedules := p.schedules - (set x | x in gone :: x.id))
  }

  /** `sync`: the connectors still on their timer, which call back while they are canceled. */
  function InternalClose(p: Pool, sync: set<Pending>): Pool
  {
    if p.closeState.Open? then MaybeClosed(Forget(p, sync).(closeState := Waiting)) else p
  }

  function CloseConnection(p: Pool, c: Conn): Pool
  {
    var q := RemoveConn(p, c);
    if !p.closeState.Open? then MaybeClosed(q)
    else Schedule(NotifyUpOrDown(q), None, Some(c.shard))
  }

  function OnConnected(q: Pool, schedule: Option<nat>, x: Pending, c: Conn, grabs: seq<seq<Conn>>): Pool
  {
    if HasRoom(q, c.shard) then NotifyUpOrDown(AddConn(q, c))
    else
      var g := Grab(q.(surplus := q.surplus + [c]), grabs);
      if !Saturated(g) && g.schedules == map[] then Schedule(g, schedule, x.desired) else g
  }

  function OnReconnect(p: Pool, x: Pending, outcome: Outcome, grabs: seq<seq<Conn>>, sync: set<Pending>): Pool
  {
    var schedule := if x.id in p.schedules then Some(p.schedules[x.id]) else None;
    var q := Forget(p, {x});
    if !p.closeState.Open? then MaybeClosed(q)
    else match outcome
      case Connected(c) => OnConnected(q, schedule, x, c, grabs)
      case Canceled => q
      case CriticalError => InternalClose(NotifyCritical(q), sync)
      case Failed =>
        var g := Grab(q, grabs);
        if Saturated(g) then g else Schedule(g, schedule, x.desired)
  }

  function AskToFlush(p: Pool, c: Conn): Pool
  {
    var q := if p.toFlush == {} then Notify(p, FlushNeeded) else p;
    Notify(q, Asked(c)).(toFlush := p.toFlush + {c})
  }

  /** The log after the connections in `order` were flushed. */
  function Flushing(log: seq<Note>, order: seq<Conn>): seq<Note>
  {
    if order == [] then log else Flushing(log, order[..|order| - 1]) + [Flushed(order[|order| - 1])]
  }

  function FlushAll(p: Pool, order: seq<Conn>): Pool
  {
    p.(toFlush := {}, log := Flushing(p.log, order))
  }

  function Admit(p: Pool, candidates: seq<Conn>): Pool
  {
    if candidates == [] then p
    else
      var q := Admit(p, candidates[..|candidates| - 1]);
      var c := candidates[|candidates| - 1];
      if HasRoom(q, c.shard) then AddConn(q, c) else q.(surplus := q.surplus + [c])
  }

  function ScheduleMany(p: Pool, n: nat, shard: nat): Pool
  {
    if n == 0 then p else Schedule(ScheduleMany(p, n - 1, shard), None, Some(shard))
  }

  /** Missing slots of the first `n` shards. */
  function ScheduleShards(p: Pool, n: nat): Pool
    requires n <= |p.conns|
  {
    if n == 0 then p
    else
      var missing := p.config.quota - |p.conns[n - 1]|;
      ScheduleMany(ScheduleShards(p, n - 1), if missing > 0 then missing else 0, n - 1)
  }

  function Empty(config: Config): Pool
  {
    Pool(config, seq(config.shards, _ => []), [], map[], 0, 0, Open, New, {}, [], [])
  }

  /** The pool constructor, given the connections that are not closing. */
  function Opened(config: Config, candidates: seq<Conn>, grabs: seq<seq<Conn>>): Pool
  {
    var p := Started(config, candidates, grabs);
    ScheduleShards(p, |p.conns|)
  }

  // ---------------------------------------------------------------- steps

  /** A connection that was never in this pool. */
  ghost predicate Newcomer(p: Pool, c: Conn)
  {
    !Pooled(p, c) && Asked(c) !in p.log
  }

  /** The marketplace hands out at most what was asked for, of the shard asked for. */
  ghost predicate GrabOk(p: Pool, grabs: seq<seq<Conn>>)
  {
    && |grabs| == |p.conns|
    && (forall s :: 0 <= s < |grabs| ==>
          |p.conns[s]| + |grabs[s]| <= p.config.quota && Distinct(grabs[s]))
    && (forall s, c :: 0 <= s < |grabs| && c in grabs[s] ==> c.shard == s && Newcomer(p, c))
  }

  ghost predicate Enabled(p: Pool, e: Event)
  {
    match e
    case ConnClosed(c) => Pooled(p, c)
    case Reconnected(x, outcome, grabs, sync) =>
      && x in p.pending
      && GrabOk(p, grabs)
      && (forall y :: y in sync ==> y in p.pending && y != x)
      && (outcome.Canceled? ==> !p.closeState.Open?)
      && (outcome.Connected? ==> outcome.conn.shard < p.config.shards && Newcomer(p, outcome.conn))
    case CloseRequested(sync) => forall y :: y in sync ==> y in p.pending
    case AskFlush(c) => Pooled(p, c)
    case Flush(order) => forall c :: c in order <==> c in p.toFlush
  }

  ghost predicate OpenedOk(config: Config, candidates: seq<Conn>, grabs: seq<seq<Conn>>)
  {
    && config.Valid()
    && Distinct(candidates)
    && (forall c :: c in candidates ==> c.shard < config.shards)
    && GrabOk(Admit(Empty(config), candidates), grabs)
  }

  function Step(p: Pool, e: Event): Pool
  {
    match e
    case ConnClosed(c) => CloseConnection(p, c)
    case Reconnected(x, outcome, grabs, sync) => OnReconnect(p, x, outcome, grabs, sync)
    case CloseRequested(sync) => InternalClose(p, sync)
    case AskFlush(c) => AskToFlush(p, c)
    case Flush(order) => FlushAll(p, order)
  }

  // ---------------------------------------------------------------- the invariant

  ghost predicate ShapeOk(p: Pool)
  {
    && p.config.Valid()
    && |p.conns| == p.config.shards
    && (forall s :: 0 <= s < |p.conns| ==> |p.conns[s]| <= p.config.quota && Distinct(p.conns[s]))
    && (forall s, c :: 0 <= s < |p.conns| && c in p.conns[s] ==> c.shard == s)
  }

  function Ids(pending: seq<Pending>): set<nat>
  {
    set x | x in pending :: x.id
  }

  ghost predicate PendingOk(p: Pool)
  {
    && (forall x, y :: x in p.pending && y in p.pending && x.id == y.id ==> x == y)
    && Distinct(p.pending)
    && p.schedules.Keys == Ids(p.pending)
    && (forall x :: x in p.pending ==> x.id < p.created)
    && (forall x :: x in p.pending ==>
          if p.config.portAware then x.desired.Some? && x.desired.value < p.config.shards else x.desired.None?)
  }

  ghost predicate StateOk(p: Pool)
  {
    && !p.closeState.Closing?
    && !p.notifyState.New?
    && (p.closeState.Open? ==> !p.notifyState.Critical?)
    && (p.closeState.Open? && p.notifyState.Up? ==> HasConns(p))
    && (!p.closeState.Closed? ==> HasConns(p) || p.pending != [])
    && (p.closeState.Closed? ==> !HasConns(p) && p.pending == [])
  }

  datatype Seen = Nothing | SawUp | SawDown | SawCritical | SawClosed

  /** The last state event the listener saw. */
  function LastSeen(log: seq<Note>): Seen
  {
    if log == [] then Nothing
    else match log[|log| - 1]
      case PoolUp => SawUp
      case PoolDown => SawDown
      case PoolCritical => SawCritical
      case PoolClosed => SawClosed
      case _ => LastSeen(log[..|log| - 1])
  }

  /** UP and DOWN alternate, a critical error is the last word before the close, and the close
      is the last state event of all, never straight after UP. */
  predicate MayFollow(seen: Seen, n: Note)
  {
    match n
    case PoolUp => seen.Nothing? || seen.SawDown?
    case PoolDown => seen.Nothing? || seen.SawUp?
    case PoolCritical => !seen.SawCritical? && !seen.SawClosed?
    case PoolClosed => !seen.SawClosed? && !seen.SawUp?
    case _ => true
  }

  predicate GoodTrace(log: seq<Note>)
  {
    log == [] || (GoodTrace(log[..|log| - 1]) && MayFollow(LastSeen(log[..|log| - 1]), log[|log| - 1]))
  }

  ghost predicate LogOk(p: Pool)
  {
    && GoodTrace(p.log)
    && LastSeen(p.log) == if p.closeState.Closed? then SawClosed
                          else match p.notifyState
                            case New => Nothing
                            case Up => SawUp
                            case Down => SawDown
                            case Critical => SawCritical
  }

  /** The connection asked to be flushed and has not been flushed since. */
  function Owed(log: seq<Note>, c: Conn): bool
  {
    if log == [] then false
    else if log[|log| - 1] == Asked(c) then true
    else if log[|log| - 1] == Flushed(c) then false
    else Owed(log[..|log| - 1], c)
  }

  ghost predicate FlushOk(p: Pool)
  {
    && (forall c :: c in p.toFlush ==> Pooled(p, c))
    && (forall c :: Pooled(p, c) && Owed(p.log, c) ==> c in p.toFlush)
  }

  ghost predicate Inv(p: Pool)
  {
    ShapeOk(p) && PendingOk(p) && StateOk(p) && LogOk(p)
  }

  // ---------------------------------------------------------------- each operation keeps it

  lemma AddShape(p: Pool, c: Conn)
    requires ShapeOk(p) && HasRoom(p, c.shard) && !Pooled(p, c)
    ensures ShapeOk(AddConn(p, c)) && HasConns(AddConn(p, c))
  {
    DistinctAppend(p.conns[c.shard], c);
    assert AddConn(p, c).conns[c.shard] != [];
  }

  lemma RemoveShape(p: Pool, c: Conn)
    requires ShapeOk(p) && Pooled(p, c)
    ensures ShapeOk(RemoveConn(p, c))
    ensures |RemoveConn(p, c).conns[c.shard]| == |p.conns[c.shard]| - 1
  {
    WithoutDistinct(p.conns[c.shard], c);
  }

  lemma {:induction false} DistinctConcat(a: seq<Conn>, b: seq<Conn>)
    requires Distinct(a) && Distinct(b) && forall c :: c in b ==> c !in a
    ensures Distinct(a + b)
  {
    forall i, j | 0 <= i < j < |a + b| ensures (a + b)[i] != (a + b)[j] {
      if i < |a| <= j { assert b[j - |a|] in b && a[i] in a; }
    }
  }

  lemma GrabShape(p: Pool, grabs: seq<seq<Conn>>)
    requires ShapeOk(p) && GrabOk(p, grabs)
    ensures ShapeOk(Grab(p, grabs))
    ensures HasConns(p) ==> HasConns(Grab(p, grabs))
    ensures Saturated(Grab(p, grabs)) ==> HasConns(Grab(p, grabs))
  {
    var g := Grab(p, grabs);
    forall s | 0 <= s < |g.conns| ensures |g.conns[s]| <= g.config.quota && Distinct(g.conns[s]) {
      forall c | c in grabs[s] ensures c !in p.conns[s] { assert Newcomer(p, c); }
      DistinctConcat(p.conns[s], grabs[s]);
    }
    if HasConns(p) {
      var s :| 0 <= s < |p.conns| && p.conns[s] != [];
      assert g.conns[s] != [];
    }
    if Saturated(g) { assert g.conns[0] != []; }
  }

  lemma {:induction false} MinusDistinct(pending: seq<Pending>, gone: set<Pending>)
    requires Distinct(pending)
    ensures Distinct(Minus(pending, gone))
  {
    if pending != [] {
      assert pending == [pending[0]] + pending[1..];
      MinusDistinct(pending[1..], gone);
      assert pending[0] !in pending[1..] && pending[0] !in Minus(pending[1..], gone);
    }
  }

  lemma ForgetPending(p: Pool, gone: set<Pending>)
    requires PendingOk(p) && forall x :: x in gone ==> x in p.pending
    ensures PendingOk(Forget(p, gone))
  {
    MinusDistinct(p.pending, gone);
    var q := Forget(p, gone);
    forall id | id in q.schedules.Keys ensures id in Ids(q.pending) {
      var x :| x in p.pending && x.id == id;
      assert x !in gone;
    }
    forall id | id in Ids(q.pending) ensures id in q.schedules.Keys {
      var x :| x in q.pending && x.id == id;
      assert x in p.pending && id in Ids(p.pending);
    }
  }

  lemma SchedulePending(p: Pool, schedule: Option<nat>, desired: Option<nat>)
    requires PendingOk(p) && (p.config.portAware ==> desired.Some? && desired.value < p.config.shards)
    ensures PendingOk(Schedule(p, schedule, desired))
  {
    var q := Schedule(p, schedule, desired);
    var x := q.pending[|p.pending|];
    DistinctAppend(p.pending, x);
    assert Ids(q.pending) == Ids(p.pending) + {x.id};
  }

  lemma TraceAppend(log: seq<Note>, n: Note)
    ensures GoodTrace(log + [n]) <==> GoodTrace(log) && MayFollow(LastSeen(log), n)
    ensures LastSeen(log + [n]) ==
            match n
            case PoolUp => SawUp
            case PoolDown => SawDown
            case PoolCritical => SawCritical
            case PoolClosed => SawClosed
            case _ => LastSeen(log)
  {
    assert (log + [n])[..|log|] == log;
  }

  lemma NotifyKeeps(p: Pool)
    requires LogOk(p) && !p.closeState.Closed? && !p.notifyState.Critical?
    ensures LogOk(NotifyUpOrDown(p))
    ensures NotifyUpOrDown(p).notifyState == if HasConns(p) then Up else Down
  {
    TraceAppend(p.log, PoolUp);
    TraceAppend(p.log, PoolDown);
  }

  lemma MaybeClosedKeeps(p: Pool)
    requires ShapeOk(p) && PendingOk(p) && LogOk(p) && p.closeState.Waiting? && !p.notifyState.New?
    ensures Inv(MaybeClosed(p))
  {
    TraceAppend(p.log, PoolDown);
    TraceAppend(p.log, PoolClosed);
    TraceAppend(p.log + [PoolDown], PoolClosed);
  }

  lemma InternalCloseKeeps(p: Pool, sync: set<Pending>)
    requires ShapeOk(p) && PendingOk(p) && LogOk(p) && p.closeState.Open? && !p.notifyState.New?
    requires forall y :: y in sync ==> y in p.pending
    ensures Inv(InternalClose(p, sync))
  {
    ForgetPending(p, sync);
    MaybeClosedKeeps(Forget(p, sync).(closeState := Waiting));
  }

  lemma CloseConnectionKeeps(p: Pool, c: Conn)
    requires Inv(p) && Pooled(p, c)
    ensures Inv(CloseConnection(p, c))
  {
    RemoveShape(p, c);
    var q := RemoveConn(p, c);
    if p.closeState.Open? {
      NotifyKeeps(q);
      SchedulePending(NotifyUpOrDown(q), None, Some(c.shard));
    } else {
      assert p.conns[c.shard] != [];
      MaybeClosedKeeps(q);
    }
  }

  /** An open pool except that it may, for the moment, have neither connection nor connector. */
  ghost predicate Base(p: Pool)
  {
    && ShapeOk(p) && PendingOk(p) && LogOk(p)
    && p.closeState.Open? && !p.notifyState.New? && !p.notifyState.Critical?
    && (p.notifyState.Up? ==> HasConns(p))
  }

  lemma ForgetBase(p: Pool, x: Pending)
    requires Inv(p) && p.closeState.Open? && x in p.pending
    ensures Base(Forget(p, {x}))
  {
    ForgetPending(p, {x});
  }

  lemma GrabBase(p: Pool, grabs: seq<seq<Conn>>)
    requires Base(p) && GrabOk(p, grabs)
    ensures Base(Grab(p, grabs))
    ensures HasConns(p) || Saturated(Grab(p, grabs)) ==> Inv(Grab(p, grabs))
  {
    GrabShape(p, grabs);
  }

  lemma ScheduleBase(p: Pool, schedule: Option<nat>, desired: Option<nat>)
    requires Base(p) && (p.config.portAware ==> desired.Some? && desired.value < p.config.shards)
    ensures Inv(Schedule(p, schedule, desired))
  {
    SchedulePending(p, schedule, desired);
  }

  lemma AddKeeps(p: Pool, x: Pending, c: Conn, grabs: seq<seq<Conn>>, sync: set<Pending>)
    requires Inv(p) && p.closeState.Open? && x in p.pending && HasRoom(p, c.shard) && !Pooled(p, c)
    ensures Inv(OnReconnect(p, x, Connected(c), grabs, sync))
  {
    ForgetBase(p, x);
    var q := Forget(p, {x});
    AddShape(q, c);
    NotifyKeeps(AddConn(q, c));
  }

  lemma PendingFacts(p: Pool, x: Pending)
    requires PendingOk(p) && x in p.pending
    ensures x.id in p.schedules && (p.config.portAware ==> x.desired.Some? && x.desired.value < p.config.shards)
  {
  }

  lemma SurplusKeeps(p: Pool, x: Pending, c: Conn, grabs: seq<seq<Conn>>, sync: set<Pending>)
    requires Inv(p) && p.closeState.Open? && x in p.pending && GrabOk(p, grabs)
    requires c.shard < p.config.shards && !HasRoom(p, c.shard)
    ensures Inv(OnReconnect(p, x, Connected(c), grabs, sync))
  {
    hide PendingOk, LogOk, Grab, Schedule, Saturated;
    ForgetBase(p, x);
    PendingFacts(p, x);
    assert p.conns[c.shard] != [];
    var q := Forget(p, {x});
    var r := q.(surplus := q.surplus + [c]);
    assert Base(r) && HasConns(r) by { SurplusBase(q, c); }
    GrabBase(r, grabs);
    GrabConfig(r, grabs);
    ScheduleBase(Grab(r, grabs), Some(p.schedules[x.id]), x.desired);
  }

  lemma SurplusBase(p: Pool, c: Conn)
    requires Base(p)
    ensures Base(p.(surplus := p.surplus + [c]))
  {
  }

  lemma GrabConfig(p: Pool, grabs: seq<seq<Conn>>)
    ensures Grab(p, grabs).config == p.config
  {
  }

  lemma FailedKeeps(p: Pool, x: Pending, grabs: seq<seq<Conn>>, sync: set<Pending>)
    requires Inv(p) && p.closeState.Open? && x in p.pending && GrabOk(p, grabs)
    ensures Inv(OnReconnect(p, x, Failed, grabs, sync))
  {
    hide PendingOk, LogOk, Grab, Schedule, Saturated;
    ForgetBase(p, x);
    PendingFacts(p, x);
    var q := Forget(p, {x});
    GrabBase(q, grabs);
    GrabConfig(q, grabs);
    ScheduleBase(Grab(q, grabs), Some(p.schedules[x.id]), x.desired);
  }

  lemma CriticalKeeps(p: Pool, x: Pending, grabs: seq<seq<Conn>>, sync: set<Pending>)
    requires Inv(p) && p.closeState.Open? && x in p.pending
    requires forall y :: y in sync ==> y in p.pending && y != x
    ensures Inv(OnReconnect(p, x, CriticalError, grabs, sync))
  {
    ForgetPending(p, {x});
    TraceAppend(p.log, PoolCritical);
    InternalCloseKeeps(NotifyCritical(Forget(p, {x})), sync);
  }

  lemma LateReconnectKeeps(p: Pool, x: Pending, outcome: Outcome, grabs: seq<seq<Conn>>, sync: set<Pending>)
    requires Inv(p) && !p.closeState.Open? && x in p.pending
    ensures Inv(OnReconnect(p, x, outcome, grabs, sync))
  {
    ForgetPending(p, {x});
    MaybeClosedKeeps(Forget(p, {x}));
  }

  lemma ReconnectKeeps(p: Pool, x: Pending, outcome: Outcome, grabs: seq<seq<Conn>>, sync: set<Pending>)
    requires Inv(p) && Enabled(p, Reconnected(x, outcome, grabs, sync))
    ensures Inv(OnReconnect(p, x, outcome, grabs, sync))
  {
    if !p.closeState.Open? {
      LateReconnectKeeps(p, x, outcome, grabs, sync);
    } else {
      match outcome
      case Connected(c) =>
        if HasRoom(p, c.shard) { AddKeeps(p, x, c, grabs, sync); } else { SurplusKeeps(p, x, c, grabs, sync); }
      case CriticalError => CriticalKeeps(p, x, grabs, sync);
      case Failed => FailedKeeps(p, x, grabs, sync);
    }
  }

  lemma AskKeeps(p: Pool, c: Conn)
    requires Inv(p)
    ensures Inv(AskToFlush(p, c))
  {
    TraceAppend(p.log, FlushNeeded);
    TraceAppend(p.log, Asked(c));
    TraceAppend(p.log + [FlushNeeded], Asked(c));
  }

  lemma {:induction false} FlushTrace(log: seq<Note>, order: seq<Conn>)
    requires GoodTrace(log)
    ensures GoodTrace(Flushing(log, order)) && LastSeen(Flushing(log, order)) == LastSeen(log)
  {
    if order != [] {
      var k := |order| - 1;
      FlushTrace(log, order[..k]);
      TraceAppend(Flushing(log, order[..k]), Flushed(order[k]));
    }
  }

  lemma StepConfig(p: Pool, e: Event)
    ensures Step(p, e).config == p.config
  {
    hide HasConns, HasRoom, Saturated, Minus;
  }

  lemma FlushAllKeeps(p: Pool, order: seq<Conn>)
    requires Inv(p)
    ensures Inv(FlushAll(p, order))
  {
    FlushTrace(p.log, order);
  }

  lemma StepKeeps(p: Pool, e: Event)
    requires Inv(p) && Enabled(p, e)
    ensures Inv(Step(p, e)) && Step(p, e).config == p.config
  {
    hide CloseConnection, OnReconnect, AskToFlush, FlushAll;
    StepConfig(p, e);
    match e
    case ConnClosed(c) => CloseConnectionKeeps(p, c);
    case Reconnected(x, outcome, grabs, sync) => ReconnectKeeps(p, x, outcome, grabs, sync);
    case CloseRequested(sync) => if p.closeState.Open? { InternalCloseKeeps(p, sync); }
    case AskFlush(c) => AskKeeps(p, c);
    case Flush(order) => FlushAllKeeps(p, order);
  }

  // ---------------------------------------------------------------- the constructor

  lemma {:induction false} AdmitShape(config: Config, candidates: seq<Conn>)
    requires config.Valid() && Distinct(candidates)
    requires forall c :: c in candidates ==> c.shard < config.shards
    ensures var p := Admit(Empty(config), candidates);
            && ShapeOk(p) && p == Empty(config).(conns := p.conns, surplus := p.surplus)
            && forall c :: Pooled(p, c) ==> c in candidates
    decreases |candidates|
  {
    if candidates != [] {
      var init := candidates[..|candidates| - 1];
      var c := candidates[|candidates| - 1];
      assert candidates == init + [c];
      DistinctAppend(init, c);
      AdmitShape(config, init);
      var q := Admit(Empty(config), init);
      if HasRoom(q, c.shard) { AddShape(q, c); }
    }
  }

  /** The constructor keeps every connection it is given or passes it on to the marketplace, the latter
      only where the shard is full. */
  lemma {:induction false} AdmitAccounts(config: Config, candidates: seq<Conn>)
    requires forall c :: c in candidates ==> c.shard < config.shards
    ensures var p := Admit(Empty(config), candidates);
      && |p.conns| == config.shards && p.config == config
      && (forall c :: c in candidates <==> Pooled(p, c) || c in p.surplus)
      && (forall c :: c in p.surplus ==> |p.conns[c.shard]| >= config.quota)
  {
    if candidates != [] {
      var k := |candidates| - 1;
      var c, rest := candidates[k], candidates[..k];
      assert candidates == rest + [c];
      AdmitAccounts(config, rest);
      var q := Admit(Empty(config), rest);
      var p := Admit(Empty(config), candidates);
      assert p == if HasRoom(q, c.shard) then AddConn(q, c) else q.(surplus := q.surplus + [c]);
      forall d ensures Pooled(p, d) <==> Pooled(q, d) || (d == c && HasRoom(q, c.shard)) {}
    }
  }

  lemma {:induction false} ScheduleManyBase(p: Pool, n: nat, shard: nat)
    requires Base(p) && shard < p.config.shards
    ensures var q := ScheduleMany(p, n, shard);
            && Base(q) && q.conns == p.conns && q.config == p.config && q.log == p.log
            && |q.pending| == |p.pending| + n
            && forall s :: AimedAt(q.pending, s) ==
                 AimedAt(p.pending, s) + if s == (if p.config.portAware then shard else 0) then n else 0
  {
    if n > 0 {
      ScheduleManyBase(p, n - 1, shard);
      var r := ScheduleMany(p, n - 1, shard);
      SchedulePending(r, None, Some(shard));
      AimedAppendAll(r.pending, Schedule(r, None, Some(shard)).pending[|r.pending|]);
    }
  }

  function Missing(p: Pool, shard: nat): int
    requires shard < |p.conns|
  {
    p.config.quota - |p.conns[shard]|
  }

  lemma {:induction false} ScheduleShardsBase(p: Pool, n: nat)
    requires Base(p) && n <= |p.conns| && p.pending == []
    ensures var q := ScheduleShards(p, n);
            && Base(q) && q.conns == p.conns && q.config == p.config
            && (q.pending == [] ==> forall s :: 0 <= s < n ==> Missing(p, s) == 0)
            && (p.config.Targeted() ==> forall s :: 0 <= s < n ==> AimedAt(q.pending, s) == Missing(p, s))
            && (p.config.Targeted() ==> forall s :: n <= s < |p.conns| ==> AimedAt(q.pending, s) == 0)
  {
    hide PendingOk, LogOk;
    if n > 0 {
      ScheduleShardsBase(p, n - 1);
      assert Missing(p, n - 1) >= 0;
      ScheduleManyBase(ScheduleShards(p, n - 1), Missing(p, n - 1), n - 1);
    }
  }

  /** The pool once its first connections are in and the listener has been told. */
  function Started(config: Config, candidates: seq<Conn>, grabs: seq<seq<Conn>>): Pool
  {
    NotifyUpOrDown(Grab(Admit(Empty(config), candidates), grabs))
  }

  lemma StartedBase(config: Config, candidates: seq<Conn>, grabs: seq<seq<Conn>>)
    requires OpenedOk(config, candidates, grabs)
    ensures Base(Started(config, candidates, grabs)) && Started(config, candidates, grabs).pending == []
  {
    AdmitShape(config, candidates);
    var a := Admit(Empty(config), candidates);
    GrabShape(a, grabs);
    NotifyKeeps(Grab(a, grabs));
  }

  lemma OpenedKeeps(config: Config, candidates: seq<Conn>, grabs: seq<seq<Conn>>)
    requires OpenedOk(config, candidates, grabs)
    ensures Inv(Opened(config, candidates, grabs)) && Opened(config, candidates, grabs).closeState.Open?
    ensures config.Targeted() ==> Covered(Opened(config, candidates, grabs))
    ensures Opened(config, candidates, grabs).config == config
  {
    hide PendingOk, LogOk, OpenedOk, Admit;
    StartedBase(config, candidates, grabs);
    var p := Started(config, candidates, grabs);
    ScheduleShardsBase(p, |p.conns|);
    var q := ScheduleShards(p, |p.conns|);
    StartedConfig(config, candidates, grabs);
    if q.pending == [] { assert Missing(p, 0) == 0 && p.conns[0] != []; }
  }

  lemma StartedConfig(config: Config, candidates: seq<Conn>, grabs: seq<seq<Conn>>)
    requires OpenedOk(config, candidates, grabs)
    ensures Started(config, candidates, grabs).config == config
  {
    AdmitShape(config, candidates);
  }

  // ---------------------------------------------------------------- reconnects cover the missing slots

  /** The shard a connector is expected to reach. */
  function Aim(x: Pending): nat
  {
    if x.desired.Some? then x.desired.value else 0
  }

  function AimedAt(pending: seq<Pending>, shard: int): nat
  {
    if pending == [] then 0 else (if Aim(pending[0]) == shard then 1 else 0) + AimedAt(pending[1..], shard)
  }

  /** Every missing connection has a reconnect under way to its shard. */
  ghost predicate Covered(p: Pool)
  {
    forall s :: 0 <= s < |p.conns| ==> AimedAt(p.pending, s) >= Missing(p, s)
  }

  lemma {:induction false} AimedAppend(pending: seq<Pending>, x: Pending, shard: int)
    ensures AimedAt(pending + [x], shard) == AimedAt(pending, shard) + if Aim(x) == shard then 1 else 0
  {
    if pending == [] {
      assert ([x])[1..] == [];
      assert pending + [x] == [x];
    } else {
      assert (pending + [x])[1..] == pending[1..] + [x];
      AimedAppend(pending[1..], x, shard);
    }
  }

  lemma AimedAppendAll(pending: seq<Pending>, x: Pending)
    ensures forall s :: AimedAt(pending + [x], s) == AimedAt(pending, s) + if Aim(x) == s then 1 else 0
  {
    forall s { AimedAppend(pending, x, s); }
  }

  lemma {:induction false} AimedMinus(pending: seq<Pending>, x: Pending, shard: int)
    requires Distinct(pending)
    ensures AimedAt(Minus(pending, {x}), shard) ==
            AimedAt(pending, shard) - if x in pending && Aim(x) == shard then 1 else 0
    ensures |Minus(pending, {x})| == |pending| - if x in pending then 1 else 0
  {
    if pending != [] {
      assert pending == [pending[0]] + pending[1..];
      assert pending[0] !in pending[1..];
      AimedMinus(pending[1..], x, shard);
      var rest := Minus(pending[1..], {x});
      assert ([pending[0]] + rest)[1..] == rest;
    }
  }

  lemma AimedMinusAll(pending: seq<Pending>, x: Pending)
    requires Distinct(pending)
    ensures forall s :: AimedAt(Minus(pending, {x}), s) ==
              AimedAt(pending, s) - if x in pending && Aim(x) == s then 1 else 0
    ensures |Minus(pending, {x})| == |pending| - if x in pending then 1 else 0
  {
    forall s { AimedMinus(pending, x, s); }
    AimedMinus(pending, x, 0);
  }

  /** The connector reached the shard it was aimed at. */
  predicate LandsOnAim(e: Event)
  {
    e.Reconnected? && e.outcome.Connected? ==> e.outcome.conn.shard == Aim(e.connector)
  }

  lemma CloseConnectionCovers(p: Pool, c: Conn)
    requires Inv(p) && Covered(p) && p.config.Targeted() && p.closeState.Open? && Pooled(p, c)
    ensures Covered(CloseConnection(p, c))
  {
    RemoveShape(p, c);
    AimedAppendAll(p.pending, CloseConnection(p, c).pending[|p.pending|]);
  }

  lemma AddCovers(p: Pool, x: Pending, c: Conn)
    requires ShapeOk(p) && PendingOk(p) && Covered(p) && x in p.pending && c.shard == Aim(x) < p.config.shards
    ensures Covered(AddConn(Forget(p, {x}), c)) && |Forget(p, {x}).pending| == |p.pending| - 1
  {
    AimedMinusAll(p.pending, x);
  }

  lemma SurplusCovers(p: Pool, x: Pending, grabs: seq<seq<Conn>>)
    requires ShapeOk(p) && PendingOk(p) && Covered(p) && x in p.pending && GrabOk(p, grabs)
    requires Aim(x) < p.config.shards && !HasRoom(p, Aim(x))
    ensures Covered(Grab(Forget(p, {x}), grabs)) && |Forget(p, {x}).pending| == |p.pending| - 1
    ensures Forget(p, {x}).schedules == map[] ==> Saturated(Grab(Forget(p, {x}), grabs))
  {
    AimedMinusAll(p.pending, x);
    var f := Forget(p, {x});
    ForgetPending(p, {x});
    assert Covered(f);
    if f.schedules == map[] {
      NoSchedulesNoPending(f);
      NothingPendingFull(f, grabs);
    }
  }

  /** A success adds the connection to the shard it was meant for; if that shard is already full
      then nothing was missing there, and no further reconnect is scheduled. */
  lemma ConnectedCovers(p: Pool, x: Pending, c: Conn, grabs: seq<seq<Conn>>, sync: set<Pending>)
    requires ShapeOk(p) && PendingOk(p) && Covered(p) && p.closeState.Open?
    requires x in p.pending && c.shard == Aim(x) && c.shard < p.config.shards && GrabOk(p, grabs)
    ensures var q := OnReconnect(p, x, Connected(c), grabs, sync);
            Covered(q) && q.created == p.created && |q.pending| == |p.pending| - 1
  {
    hide ShapeOk, PendingOk, GrabOk;
    if HasRoom(p, c.shard) { AddCovers(p, x, c); } else { SurplusCovers(p, x, grabs); }
  }

  lemma NoSchedulesNoPending(p: Pool)
    requires PendingOk(p) && p.schedules == map[]
    ensures p.pending == []
  {
    assert p.pending != [] ==> p.pending[0].id in Ids(p.pending);
  }

  lemma NothingPendingFull(f: Pool, grabs: seq<seq<Conn>>)
    requires ShapeOk(f) && GrabOk(f, grabs) && f.pending == [] && Covered(f)
    ensures Saturated(f) && Saturated(Grab(f, grabs))
  {
    var g := Grab(f, grabs);
    forall s | 0 <= s < |f.conns| ensures |f.conns[s]| == |g.conns[s]| == f.config.quota {
      assert AimedAt([], s) >= Missing(f, s);
    }
  }

  lemma FailedCovers(p: Pool, x: Pending, grabs: seq<seq<Conn>>, sync: set<Pending>)
    requires ShapeOk(p) && PendingOk(p) && Covered(p) && p.config.Targeted() && p.closeState.Open?
    requires x in p.pending && GrabOk(p, grabs)
    ensures Covered(OnReconnect(p, x, Failed, grabs, sync))
  {
    AimedMinusAll(p.pending, x);
    var f := Forget(p, {x});
    var q := OnReconnect(p, x, Failed, grabs, sync);
    if !Saturated(Grab(f, grabs)) {
      AimedAppendAll(f.pending, q.pending[|f.pending|]);
    }
  }

  lemma StepCovers(p: Pool, e: Event)
    requires Inv(p) && Covered(p) && p.config.Targeted() && p.closeState.Open?
    requires Enabled(p, e) && LandsOnAim(e) && Step(p, e).closeState.Open?
    ensures Covered(Step(p, e))
  {
    match e
    case ConnClosed(c) => CloseConnectionCovers(p, c);
    case Reconnected(x, outcome, grabs, sync) =>
      match outcome {
        case Connected(c) => ConnectedCovers(p, x, c, grabs, sync);
        case Failed => FailedCovers(p, x, grabs, sync);
        case CriticalError =>
      }
    case CloseRequested(sync) =>
    case AskFlush(c) =>
    case Flush(order) =>
  }

  // ---------------------------------------------------------------- runs

  /** `landing`: every connector that succeeds reaches the shard it was aimed at. */
  ghost predicate Legal(p: Pool, es: seq<Event>, landing: bool)
    decreases |es|
  {
    es == [] || (Enabled(p, es[0]) && (landing ==> LandsOnAim(es[0])) && Legal(Step(p, es[0]), es[1..], landing))
  }

  function Run(p: Pool, es: seq<Event>): Pool
    decreases |es|
  {
    if es == [] then p else Run(Step(p, es[0]), es[1..])
  }

  lemma {:induction false} RunKeeps(p: Pool, es: seq<Event>, landing: bool)
    requires Inv(p) && Legal(p, es, landing)
    ensures Inv(Run(p, es)) && Run(p, es).config == p.config
    decreases |es|
  {
    if es != [] {
      StepKeeps(p, es[0]);
      RunKeeps(Step(p, es[0]), es[1..], landing);
    }
  }

  lemma {:induction false} RunStaysClosed(p: Pool, es: seq<Event>)
    requires !p.closeState.Open?
    ensures !Run(p, es).closeState.Open?
    decreases |es|
  {
    if es != [] { RunStaysClosed(Step(p, es[0]), es[1..]); }
  }

  lemma {:induction false} RunCovers(p: Pool, es: seq<Event>)
    requires Inv(p) && Covered(p) && p.config.Targeted() && Legal(p, es, true) && Run(p, es).closeState.Open?
    ensures Covered(Run(p, es))
    decreases |es|
  {
    hide Inv, Step, Covered, Enabled;
    if es != [] {
      if !Step(p, es[0]).closeState.Open? { RunStaysClosed(Step(p, es[0]), es[1..]); }
      if !p.closeState.Open? { RunStaysClosed(p, es); }
      StepKeeps(p, es[0]);
      StepCovers(p, es[0]);
      RunCovers(Step(p, es[0]), es[1..]);
    }
  }

  /** In every sharding mode: no shard exceeds its quota, a connection is pooled at most once and
      under its own shard, the pending connectors are exactly those with a schedule, and a pool
      that has not closed has a connection or a connector. */
  lemma NeverDead(config: Config, candidates: seq<Conn>, grabs: seq<seq<Conn>>, es: seq<Event>)
    requires OpenedOk(config, candidates, grabs) && Legal(Opened(config, candidates, grabs), es, false)
    ensures var p := Run(Opened(config, candidates, grabs), es);
      && |p.conns| == config.shards
      && (forall s :: 0 <= s < |p.conns| ==> |p.conns[s]| <= config.quota && Distinct(p.conns[s]))
      && (forall s, c :: 0 <= s < |p.conns| && c in p.conns[s] ==> c.shard == s)
      && p.schedules.Keys == Ids(p.pending)
      && (!p.closeState.Closed? ==> HasConns(p) || p.pending != [])
  {
    OpenedKeeps(config, candidates, grabs);
    RunKeeps(Opened(config, candidates, grabs), es, false);
  }

  /** The listener of any run sees UP and DOWN alternate, at most one critical error with only the
      close after it, and one close exactly when the pool has closed. */
  lemma ListenerTrace(config: Config, candidates: seq<Conn>, grabs: seq<seq<Conn>>, es: seq<Event>)
    requires OpenedOk(config, candidates, grabs) && Legal(Opened(config, candidates, grabs), es, false)
    ensures var p := Run(Opened(config, candidates, grabs), es);
      && GoodTrace(p.log)
      && multiset(p.log)[PoolClosed] <= 1 && multiset(p.log)[PoolCritical] <= 1
      && (p.closeState.Closed? <==> PoolClosed in p.log)
      && (p.closeState.Open? ==> PoolCritical !in p.log && (LastSeen(p.log).SawUp? ==> HasConns(p)))
  {
    OpenedKeeps(config, candidates, grabs);
    RunKeeps(Opened(config, candidates, grabs), es, false);
    var p := Run(Opened(config, candidates, grabs), es);
    TraceFacts(p.log);
  }

  lemma {:induction false} TraceFacts(log: seq<Note>)
    requires GoodTrace(log)
    ensures PoolClosed in log <==> LastSeen(log).SawClosed?
    ensures PoolCritical in log ==> LastSeen(log).SawCritical? || LastSeen(log).SawClosed?
    ensures multiset(log)[PoolClosed] <= 1 && multiset(log)[PoolCritical] <= 1
    decreases |log|
  {
    if log != [] {
      var init := log[..|log| - 1];
      assert log == init + [log[|log| - 1]];
      TraceFacts(init);
    }
  }

  /** Where every reconnect is aimed at a shard and reaches it, an open pool always has at least
      as many reconnects under way to a shard as connections missing there; so a pool with nothing
      pending is completely full. */
  lemma MissingIsCovered(config: Config, candidates: seq<Conn>, grabs: seq<seq<Conn>>, es: seq<Event>)
    requires OpenedOk(config, candidates, grabs) && Legal(Opened(config, candidates, grabs), es, true)
    requires config.Targeted() && Run(Opened(config, candidates, grabs), es).closeState.Open?
    ensures var p := Run(Opened(config, candidates, grabs), es);
      && Covered(p)
      && (p.pending == [] ==> Saturated(p))
  {
    var o := Opened(config, candidates, grabs);
    OpenedKeeps(config, candidates, grabs);
    RunKeeps(o, es, true);
    RunCovers(o, es);
    var p := Run(o, es);
    if p.pending == [] {
      NothingPendingFull(p, seq(|p.conns|, _ => []));
    }
  }

  predicate AllSucceed(es: seq<Event>)
  {
    forall e :: e in es ==> e.Reconnected? && e.outcome.Connected?
  }

  /** Any run in which each pending reconnect succeeds on its shard fills every shard exactly. */
  lemma {:induction false} SuccessesFill(p: Pool, es: seq<Event>)
    requires Inv(p) && p.closeState.Open? && p.config.Targeted() && Covered(p)
    requires Legal(p, es, true) && AllSucceed(es) && |es| == |p.pending|
    ensures Run(p, es).closeState.Open? && Run(p, es).pending == [] && Saturated(Run(p, es))
    decreases |es|
  {
    if es == [] {
      NothingPendingFull(p, seq(|p.conns|, _ => []));
    } else {
      hide Step, Inv, Covered, Saturated;
      var e := es[0];
      assert e in es;
      StepKeeps(p, e);
      ConnectedCovers(p, e.connector, e.outcome.conn, e.grabs, e.sync);
      SuccessesFill(Step(p, e), es[1..]);
    }
  }

  // ---------------------------------------------------------------- closing

  function Total(conns: seq<seq<Conn>>): nat
  {
    if conns == [] then 0 else |conns[0]| + Total(conns[1..])
  }

  /** Children that have yet to call back. */
  function Work(p: Pool): nat
  {
    Total(p.conns) + |p.pending|
  }

  predicate IsChild(e: Event) { e.ConnClosed? || e.Reconnected? }

  function Children(es: seq<Event>): nat
  {
    if es == [] then 0 else (if IsChild(es[0]) then 1 else 0) + Children(es[1..])
  }

  lemma {:induction false} TotalUpdate(conns: seq<seq<Conn>>, s: nat, v: seq<Conn>)
    requires s < |conns|
    ensures Total(conns[s := v]) == Total(conns) - |conns[s]| + |v|
  {
    if s == 0 {
      assert conns[s := v][1..] == conns[1..];
    } else {
      assert conns[s := v][1..] == conns[1..][s - 1 := v];
      TotalUpdate(conns[1..], s - 1, v);
    }
  }

  lemma {:induction false} TotalZero(conns: seq<seq<Conn>>)
    ensures Total(conns) == 0 <==> !NonEmpty(conns)
  {
    if conns != [] {
      TotalZero(conns[1..]);
      if NonEmpty(conns[1..]) {
        var s :| 0 <= s < |conns[1..]| && conns[1..][s] != [];
        assert conns[s + 1] != [];
      }
      if NonEmpty(conns) && conns[0] == [] {
        var s :| 0 <= s < |conns| && conns[s] != [];
        assert conns[1..][s - 1] != [];
      }
    }
  }

  lemma WorkStep(p: Pool, e: Event)
    requires Inv(p) && !p.closeState.Open? && Enabled(p, e)
    ensures Work(Step(p, e)) == Work(p) - if IsChild(e) then 1 else 0
  {
    match e
    case ConnClosed(c) =>
      RemoveShape(p, c);
      TotalUpdate(p.conns, c.shard, Without(p.conns[c.shard], c));
    case Reconnected(x, _, _, _) => AimedMinus(p.pending, x, 0);
    case _ =>
  }

  /** From the moment a pool is no longer open nothing is added, each child calls back once, and
      the pool closes at exactly the callback that leaves none. */
  lemma {:induction false} ClosesAtLastChild(p: Pool, es: seq<Event>)
    requires Inv(p) && !p.closeState.Open? && Legal(p, es, false)
    ensures Work(Run(p, es)) == Work(p) - Children(es)
    ensures Run(p, es).closeState.Closed? <==> Children(es) == Work(p)
    decreases |es|
  {
    hide Enabled, ShapeOk, PendingOk, LogOk;
    if es == [] {
      TotalZero(p.conns);
    } else {
      StepKeeps(p, es[0]);
      WorkStep(p, es[0]);
      ClosesAtLastChild(Step(p, es[0]), es[1..]);
    }
  }

  /** A close request, whichever connectors call back while it runs, leaves the pool closed at
      once if nothing else remains and waiting for the rest otherwise. */
  lemma CloseStarts(p: Pool, sync: set<Pending>)
    requires Inv(p) && p.closeState.Open? && Enabled(p, CloseRequested(sync))
    ensures var q := Step(p, CloseRequested(sync));
            && Inv(q) && Work(q) <= Work(p)
            && (if Work(q) == 0 then q.closeState.Closed? else q.closeState.Waiting?)
  {
    StepKeeps(p, CloseRequested(sync));
    MinusShorter(p.pending, sync);
    TotalZero(p.conns);
  }

  lemma {:induction false} MinusShorter(pending: seq<Pending>, gone: set<Pending>)
    ensures |Minus(pending, gone)| <= |pending|
  {
    if pending != [] { MinusShorter(pending[1..], gone); }
  }

  // ---------------------------------------------------------------- what untargeted reconnects do not give

  /** An open pool that lacks a connection and does nothing about it. */
  predicate Starved(p: Pool)
  {
    p.closeState.Open? && p.pending == [] && !Saturated(p)
  }

  /** A step starves the pool exactly when the only reconnect under way succeeds on a shard with
      room while another slot is still missing: that branch alone never looks at the other shards. */
  lemma StarvesExactlyWhen(p: Pool, e: Event)
    requires Inv(p) && p.closeState.Open? && Enabled(p, e) && !Starved(p)
    ensures Starved(Step(p, e)) <==>
      && e.Reconnected? && e.outcome.Connected?
      && HasRoom(p, e.outcome.conn.shard) && |p.pending| == 1
      && !Saturated(AddConn(p, e.outcome.conn))
  {
    hide LogOk, PendingOk, GrabOk;
    if e.Reconnected? {
      ForgetOne(p, e.connector);
      match e.outcome
      case Connected(c) =>
        if HasRoom(p, c.shard) {
          assert Step(p, e).conns == AddConn(p, c).conns;
        }
      case Failed =>
      case CriticalError =>
    }
  }

  lemma ForgetOne(p: Pool, x: Pending)
    requires PendingOk(p) && x in p.pending
    ensures |Forget(p, {x}).pending| == |p.pending| - 1
    ensures Forget(p, {x}).schedules == map[] <==> Forget(p, {x}).pending == []
  {
    AimedMinus(p.pending, x, 0);
    ForgetPending(p, {x});
    if Forget(p, {x}).schedules == map[] { NoSchedulesNoPending(Forget(p, {x})); }
  }

  const THREE := Config(3, 1, false)
  const NONE: seq<seq<Conn>> := [[], [], []]

  lemma ThreeAdmitted(c: Conn)
    requires c.shard == 0
    ensures Admit(Empty(THREE), [c]).conns == [[c], [], []] && Admit(Empty(THREE), [c]).log == []
    ensures OpenedOk(THREE, [c], NONE)
  {
    var e := Empty(THREE);
    assert e.conns == [[], [], []] && HasRoom(e, 0);
    assert [c][..0] == [] && Admit(e, [c][..0]) == e;
    var a := Admit(e, [c]);
    assert a == AddConn(e, c) && e.conns[0] + [c] == [c];
    assert a.conns == e.conns[0 := [c]];
  }

  lemma ThreeOpened(c: Conn)
    requires c.shard == 0
    ensures var p := Opened(THREE, [c], NONE);
            && p.conns == [[c], [], []] && p.pending == [Pending(0, None), Pending(1, None)]
            && p.closeState.Open? && p.config == THREE && Asked(Conn(1, 0)) !in p.log && Asked(Conn(2, 1)) !in p.log
            && p.schedules.Keys == {0, 1}
  {
    ThreeAdmitted(c);
    hide Admit;
    StartedConfig(THREE, [c], NONE);
    StartedBase(THREE, [c], NONE);
    var s := Started(THREE, [c], NONE);
    hide Base, OpenedOk;
    NothingGrabbed(Admit(Empty(THREE), [c]));
    assert ScheduleShards(s, 0) == s && ScheduleShards(s, 1) == s;
    assert ScheduleMany(s, 0, 1) == s;
    var s1 := ScheduleShards(s, 2);
    assert s1 == Schedule(s, None, Some(1));
    assert ScheduleMany(s1, 0, 2) == s1;
    assert ScheduleShards(s, 3) == Schedule(s1, None, Some(2));
  }

  lemma NothingGrabbed(p: Pool)
    requires |p.conns| == 3
    ensures Grab(p, NONE) == p
  {
    forall i | 0 <= i < 3 ensures Grab(p, NONE).conns[i] == p.conns[i] {}
    assert Grab(p, NONE).conns == p.conns;
  }

  lemma FirstWasted(p: Pool, e: Event)
    requires p.config == THREE && p.closeState.Open? && p.conns == [[Conn(0, 0)], [], []]
    requires p.pending == [Pending(0, None), Pending(1, None)] && p.schedules.Keys == {0, 1}
    requires e == Reconnected(Pending(0, None), Connected(Conn(1, 0)), NONE, {}) && Asked(Conn(1, 0)) !in p.log
    ensures Enabled(p, e)
    ensures Step(p, e) ==
      p.(pending := [Pending(1, None)], schedules := p.schedules - {0}, surplus := p.surplus + [Conn(1, 0)])
  {
    var x0, x1 := Pending(0, None), Pending(1, None);
    assert p.pending[0] == x0 && p.pending[1..] == [x1];
    assert [x1][1..] == [] && Minus([], {x0}) == [];
    assert Minus([x1], {x0}) == [x1] && Minus(p.pending, {x0}) == [x1];
    var f := Forget(p, {x0});
    assert f.schedules == p.schedules - {0} && 1 in f.schedules;
    NothingGrabbed(Forget(p, {x0}).(surplus := p.surplus + [Conn(1, 0)]));
  }

  lemma LastUsed(p: Pool, e: Event)
    requires p.config == THREE && p.closeState.Open? && p.conns == [[Conn(0, 0)], [], []]
    requires p.pending == [Pending(1, None)]
    requires e == Reconnected(Pending(1, None), Connected(Conn(2, 1)), NONE, {}) && Asked(Conn(2, 1)) !in p.log
    ensures Enabled(p, e) && Starved(Step(p, e))
  {
    assert Minus(p.pending, {Pending(1, None)}) == [];
    assert Step(p, e).conns[2] == [];
  }

  ghost predicate StarvingRun(config: Config, candidates: seq<Conn>, grabs: seq<seq<Conn>>, es: seq<Event>)
  {
    && OpenedOk(config, candidates, grabs)
    && Legal(Opened(config, candidates, grabs), es, false)
    && AllSucceed(es)
    && Starved(Run(Opened(config, candidates, grabs), es))
  }

  /** Three shards, one connection each, no shard-aware port: both reconnects succeed, one of them
      on a shard that was already full, and the third shard is never tried again. */
  lemma StarvationHappens()
    ensures exists config, candidates, grabs, es :: StarvingRun(config, candidates, grabs, es)
  {
    hide Opened, Enabled, OpenedOk, Starved, Step, Admit, Empty;
    var c := Conn(0, 0);
    ThreeAdmitted(c);
    ThreeOpened(c);
    var p := Opened(THREE, [c], NONE);
    var e0 := Reconnected(Pending(0, None), Connected(Conn(1, 0)), NONE, {});
    var e1 := Reconnected(Pending(1, None), Connected(Conn(2, 1)), NONE, {});
    FirstWasted(p, e0);
    var p1 := Step(p, e0);
    LastUsed(p1, e1);
    assert [e0, e1][1..] == [e1] && [e1][1..] == [];
    assert Legal(p1, [e1], false) && Run(p1, [e1]) == Step(p1, e1);
    assert Legal(p, [e0, e1], false) && Run(p, [e0, e1]) == Step(p1, e1);
    assert StarvingRun(THREE, [c], NONE, [e0, e1]);
  }

  /** The listener's view of the pool. */
  predicate UpMeansConnected(p: Pool)
  {
    p.notifyState.Up? <==> HasConns(p)
  }

  /** UP implies connections; the converse is lost exactly when a failed reconnect of an empty pool
      is compensated from the marketplace, because that branch does not notify. */
  lemma LagsExactlyWhen(p: Pool, e: Event)
    requires Inv(p) && p.closeState.Open? && UpMeansConnected(p) && Enabled(p, e) && Step(p, e).closeState.Open?
    ensures !UpMeansConnected(Step(p, e)) <==>
      e.Reconnected? && e.outcome.Failed? && !HasConns(p) && NonEmpty(e.grabs)
  {
    hide Saturated, Minus;
    match e
    case ConnClosed(c) => NotifyKeeps(RemoveConn(p, c));
    case Reconnected(x, outcome, grabs, sync) =>
      GrabNonEmpty(p, grabs);
      if outcome.Connected? {
        if HasRoom(p, outcome.conn.shard) { NotifyKeeps(AddConn(Forget(p, {x}), outcome.conn)); }
        else { assert p.conns[outcome.conn.shard] != []; }
      }
    case _ =>
  }

  lemma GrabNonEmpty(p: Pool, grabs: seq<seq<Conn>>)
    requires |grabs| == |p.conns|
    ensures HasConns(Grab(p, grabs)) <==> HasConns(p) || NonEmpty(grabs)
  {
    var g := Grab(p, grabs);
    if HasConns(g) {
      var s :| 0 <= s < |g.conns| && g.conns[s] != [];
      assert p.conns[s] != [] || grabs[s] != [];
    }
    if HasConns(p) {
      var s :| 0 <= s < |p.conns| && p.conns[s] != [];
      assert g.conns[s] != [];
    }
    if NonEmpty(grabs) {
      var s :| 0 <= s < |grabs| && grabs[s] != [];
      assert g.conns[s] != [];
    }
  }

  const ONE := Config(1, 1, false)

  /** A pool of one slot, opened with its connection. */
  lemma OneOpened(c: Conn)
    requires c.shard == 0
    ensures OpenedOk(ONE, [c], [[]])
    ensures Opened(ONE, [c], [[]]) == Pool(ONE, [[c]], [], map[], 0, 0, Open, Up, {}, [], [PoolUp])
  {
    var e := Empty(ONE);
    assert e.conns == [[]] && HasRoom(e, 0);
    assert [c][..0] == [] && Admit(e, [c][..0]) == e;
    var a := Admit(e, [c]);
    assert a == AddConn(e, c) && e.conns[0] + [c] == [c];
    assert a.conns == [[c]];
    assert Grab(a, [[]]).conns[0] == [c] + [] == [c];
    assert Grab(a, [[]]) == a;
    var s := NotifyUpOrDown(a);
    assert Started(ONE, [c], [[]]) == s;
    assert ScheduleShards(s, 0) == s && ScheduleMany(s, 0, 0) == s && ScheduleShards(s, 1) == s;
  }

  /** The same pool, opened without one: it is down and tries to connect. */
  lemma OneMissing()
    ensures OpenedOk(ONE, [], [[]])
    ensures Opened(ONE, [], [[]]) ==
      Pool(ONE, [[]], [Pending(0, None)], map[0 := 0], 1, 1, Open, Down, {}, [], [PoolDown])
  {
    var e := Empty(ONE);
    assert e.conns == [[]] && Admit(e, []) == e;
    assert Grab(e, [[]]).conns == e.conns;
    var s := NotifyUpOrDown(e);
    assert Started(ONE, [], [[]]) == s;
    assert ScheduleShards(s, 0) == s && ScheduleMany(s, 0, 0) == s;
    assert ScheduleMany(s, 1, 0) == Schedule(s, None, Some(0)) && ScheduleShards(s, 1) == ScheduleMany(s, 1, 0);
  }

  ghost predicate LaggingRun(config: Config, candidates: seq<Conn>, grabs: seq<seq<Conn>>, es: seq<Event>)
  {
    && OpenedOk(config, candidates, grabs)
    && Legal(Opened(config, candidates, grabs), es, false)
    && var p := Run(Opened(config, candidates, grabs), es);
    && p.closeState.Open? && HasConns(p) && !p.notifyState.Up? && !LastSeen(p.log).SawUp?
  }

  /** Such a run: a pool that could not connect fails again and finds a connection in the marketplace.
      It serves requests and has told its listener that it is down. */
  lemma LagHappens()
    ensures exists config, candidates, grabs, es :: LaggingRun(config, candidates, grabs, es)
  {
    hide Opened, OpenedOk, Step, Enabled;
    OneMissing();
    var p := Opened(ONE, [], [[]]);
    var x, c := Pending(0, None), Conn(0, 0);
    var e := Reconnected(x, Failed, [[c]], {});
    MarketplaceFills(p, x, c);
    var q := Step(p, e);
    assert [e][1..] == [] && Run(q, []) == q && Legal(q, [], false);
    assert Legal(p, [e], false) && Run(p, [e]) == q;
    assert LaggingRun(ONE, [], [[]], [e]);
  }

  lemma MarketplaceFills(p: Pool, x: Pending, c: Conn)
    requires p == Pool(ONE, [[]], [Pending(0, None)], map[0 := 0], 1, 1, Open, Down, {}, [], [PoolDown])
    requires x == Pending(0, None) && c == Conn(0, 0)
    ensures var e := Reconnected(x, Failed, [[c]], {});
      && Enabled(p, e)
      && var q := Step(p, e);
      && q.closeState.Open? && HasConns(q) && q.notifyState.Down? && LastSeen(q.log).SawDown?
  {
    var q := Forget(p, {x});
    var g := Grab(q, [[c]]);
    assert g.conns[0] == q.conns[0] + [[c]][0] == [c];
    assert g.conns == [[c]];
    assert Saturated(g);
    assert g.conns[0] != [];
  }

  // ---------------------------------------------------------------- which connections are pooled

  /** The connection enters the pool by this step. */
  ghost predicate Arrives(p: Pool, e: Event, c: Conn)
  {
    && p.closeState.Open? && e.Reconnected?
    && (match e.outcome
        case Connected(d) =>
          if HasRoom(p, d.shard) then c == d else c.shard < |e.grabs| && c in e.grabs[c.shard]
        case Failed => c.shard < |e.grabs| && c in e.grabs[c.shard]
        case _ => false)
  }

  lemma RemovePooled(p: Pool, gone: Conn, c: Conn)
    ensures Pooled(RemoveConn(p, gone), c) <==> Pooled(p, c) && c != gone
  {
  }

  /** The pool gains exactly the connections that reconnects and the marketplace bring, loses
      exactly those that close, and passes a connection it has no room for to the marketplace. */
  lemma MembershipChanges(p: Pool, e: Event, c: Conn)
    requires ShapeOk(p) && Enabled(p, e)
    ensures Pooled(Step(p, e), c) <==> (Pooled(p, c) && e != ConnClosed(c)) || Arrives(p, e, c)
    ensures p.closeState.Open? && e.Reconnected? && e.outcome == Connected(c) ==>
              (Pooled(Step(p, e), c) <==> HasRoom(p, c.shard)) && (c in Step(p, e).surplus || HasRoom(p, c.shard))
    ensures e.Reconnected? || Step(p, e).surplus == p.surplus
  {
    hide ShapeOk;
    match e
    case ConnClosed(d) => RemovePooled(p, d, c);
    case Reconnected(x, outcome, grabs, sync) => ReconnectMembers(p, x, outcome, grabs, sync, c);
    case _ =>
  }

  lemma ReconnectMembers(p: Pool, x: Pending, outcome: Outcome, grabs: seq<seq<Conn>>, sync: set<Pending>, c: Conn)
    requires Enabled(p, Reconnected(x, outcome, grabs, sync))
    ensures var q := OnReconnect(p, x, outcome, grabs, sync);
      && (Pooled(q, c) <==> Pooled(p, c) || Arrives(p, Reconnected(x, outcome, grabs, sync), c))
      && (p.closeState.Open? && outcome == Connected(c) ==>
            (Pooled(q, c) <==> HasRoom(p, c.shard)) && (c in q.surplus || HasRoom(p, c.shard)))
  {
    hide Saturated, Minus, HasConns;
  }

  // ---------------------------------------------------------------- flushing

  lemma {:induction false} NeverAsked(log: seq<Note>, c: Conn)
    requires Asked(c) !in log
    ensures !Owed(log, c)
    decreases |log|
  {
    if log != [] {
      assert log == log[..|log| - 1] + [log[|log| - 1]];
      NeverAsked(log[..|log| - 1], c);
    }
  }

  lemma NotesOwed(p: Pool, c: Conn)
    ensures Owed(NotifyUpOrDown(p).log, c) == Owed(p.log, c)
    ensures Owed(NotifyCritical(p).log, c) == Owed(p.log, c)
    ensures Owed(MaybeClosed(p).log, c) == Owed(p.log, c)
  {
  }

  lemma StepOwed(p: Pool, e: Event, c: Conn)
    requires !e.AskFlush? && !e.Flush?
    ensures Owed(Step(p, e).log, c) == Owed(p.log, c)
  {
    hide NotifyUpOrDown, NotifyCritical, MaybeClosed, Owed, Minus, Saturated;
    forall q: Pool
      ensures Owed(NotifyUpOrDown(q).log, c) == Owed(q.log, c)
      ensures Owed(NotifyCritical(q).log, c) == Owed(q.log, c)
      ensures Owed(MaybeClosed(q).log, c) == Owed(q.log, c)
    {
      NotesOwed(q, c);
    }
  }

  lemma StepToFlush(p: Pool, e: Event)
    requires !e.AskFlush? && !e.Flush?
    ensures Step(p, e).toFlush == if e.ConnClosed? then p.toFlush - {e.conn} else p.toFlush
  {
  }

  lemma FlushKeeps(p: Pool, e: Event)
    requires ShapeOk(p) && FlushOk(p) && Enabled(p, e)
    ensures FlushOk(Step(p, e))
  {
    hide ShapeOk;
    var q := Step(p, e);
    if e.AskFlush? {
      assert forall d :: Owed(q.log, d) <==> Owed(p.log, d) || d == e.conn;
    } else if e.Flush? {
      OwedFlush(p.log, e.order);
    } else {
      StepToFlush(p, e);
      hide Step;
      forall d | d in q.toFlush ensures Pooled(q, d) { MembershipChanges(p, e, d); }
      forall d | Pooled(q, d) && Owed(q.log, d) ensures d in q.toFlush {
        MembershipChanges(p, e, d);
        StepOwed(p, e, d);
        if Arrives(p, e, d) {
          assert Newcomer(p, d);
          NeverAsked(p.log, d);
        }
      }
    }
  }

  lemma {:induction false} OwedFlush(log: seq<Note>, order: seq<Conn>)
    ensures forall c :: Owed(Flushing(log, order), c) <==> Owed(log, c) && c !in order
  {
    if order != [] {
      var k := |order| - 1;
      OwedFlush(log, order[..k]);
      assert order == order[..k] + [order[k]];
      var before := Flushing(log, order[..k]);
      assert forall d :: Owed(before + [Flushed(order[k])], d) <==> Owed(before, d) && d != order[k];
    }
  }

  lemma OpenedFlush(config: Config, candidates: seq<Conn>, grabs: seq<seq<Conn>>)
    requires OpenedOk(config, candidates, grabs)
    ensures FlushOk(Opened(config, candidates, grabs)) && Opened(config, candidates, grabs).toFlush == {}
  {
    AdmitShape(config, candidates);
    var p := Started(config, candidates, grabs);
    ScheduleShardsQuiet(p, |p.conns|);
    forall c ensures !Owed(Opened(config, candidates, grabs).log, c) { NeverAsked(p.log, c); }
  }

  lemma {:induction false} ScheduleManyQuiet(p: Pool, n: nat, shard: nat)
    ensures ScheduleMany(p, n, shard).log == p.log && ScheduleMany(p, n, shard).toFlush == p.toFlush
  {
    if n > 0 { ScheduleManyQuiet(p, n - 1, shard); }
  }

  lemma {:induction false} ScheduleShardsQuiet(p: Pool, n: nat)
    requires n <= |p.conns|
    ensures ScheduleShards(p, n).log == p.log && ScheduleShards(p, n).toFlush == p.toFlush
  {
    if n > 0 {
      ScheduleShardsQuiet(p, n - 1);
      var missing := p.config.quota - |p.conns[n - 1]|;
      ScheduleManyQuiet(ScheduleShards(p, n - 1), if missing > 0 then missing else 0, n - 1);
    }
  }

  // ---------------------------------------------------------------- reconnection schedules

  /** Every connector has a schedule of its own, drawn from the policy and not given out twice. */
  ghost predicate SchedulesOk(p: Pool)
  {
    && (forall i, j :: i in p.schedules && j in p.schedules && p.schedules[i] == p.schedules[j] ==> i == j)
    && (forall i :: i in p.schedules ==> i < p.created && p.schedules[i] < p.drawn)
  }

  lemma ScheduleOwned(p: Pool, schedule: Option<nat>, desired: Option<nat>)
    requires SchedulesOk(p)
    requires Free(p, schedule)
    ensures SchedulesOk(Schedule(p, schedule, desired))
  {
  }

  lemma ForgetOwned(p: Pool, gone: set<Pending>)
    requires SchedulesOk(p)
    ensures SchedulesOk(Forget(p, gone))
  {
  }

  lemma SameOwned(p: Pool, q: Pool)
    requires SchedulesOk(p) && q.schedules == p.schedules && q.created == p.created && q.drawn == p.drawn
    ensures SchedulesOk(q)
  {
  }

  /** The schedule of a connector that called back is free to be given out again. */
  ghost predicate Free(p: Pool, schedule: Option<nat>)
  {
    schedule.Some? ==> schedule.value < p.drawn && forall i :: i in p.schedules ==> p.schedules[i] != schedule.value
  }

  lemma ForgottenIsFree(p: Pool, x: Pending)
    requires SchedulesOk(p)
    ensures SchedulesOk(Forget(p, {x}))
    ensures Free(Forget(p, {x}), if x.id in p.schedules then Some(p.schedules[x.id]) else None)
  {
    assert x.id in (set y | y in {x} :: y.id);
  }

  lemma SurplusOwned(q: Pool, schedule: Option<nat>, x: Pending, c: Conn, grabs: seq<seq<Conn>>)
    requires SchedulesOk(q) && Free(q, schedule)
    ensures SchedulesOk(OnConnected(q, schedule, x, c, grabs))
  {
    hide SchedulesOk, Saturated, HasConns;
    if HasRoom(q, c.shard) {
      SameOwned(q, NotifyUpOrDown(AddConn(q, c)));
    } else {
      var g := Grab(q.(surplus := q.surplus + [c]), grabs);
      SameOwned(q, g);
      ScheduleOwned(g, schedule, x.desired);
    }
  }

  lemma CloseOwned(p: Pool, sync: set<Pending>)
    requires SchedulesOk(p)
    ensures SchedulesOk(InternalClose(p, sync))
  {
    ForgetOwned(p, sync);
    hide SchedulesOk, HasConns;
    if p.closeState.Open? { SameOwned(Forget(p, sync), InternalClose(p, sync)); }
  }

  lemma ReconnectOwned(p: Pool, x: Pending, outcome: Outcome, grabs: seq<seq<Conn>>, sync: set<Pending>)
    requires SchedulesOk(p)
    ensures SchedulesOk(OnReconnect(p, x, outcome, grabs, sync))
  {
    hide SchedulesOk, Free, Saturated, Minus, HasConns, OnConnected, InternalClose, Forget, Grab, Schedule;
    var schedule := if x.id in p.schedules then Some(p.schedules[x.id]) else None;
    var q := Forget(p, {x});
    ForgottenIsFree(p, x);
    if !p.closeState.Open? {
      SameOwned(q, MaybeClosed(q));
    } else {
      match outcome
      case Connected(c) => SurplusOwned(q, schedule, x, c, grabs);
      case Canceled =>
      case CriticalError =>
        SameOwned(q, NotifyCritical(q));
        CloseOwned(NotifyCritical(q), sync);
      case Failed => RetryOwned(q, schedule, x, grabs);
    }
  }

  lemma RetryOwned(q: Pool, schedule: Option<nat>, x: Pending, grabs: seq<seq<Conn>>)
    requires SchedulesOk(q) && Free(q, schedule)
    ensures SchedulesOk(Grab(q, grabs)) && SchedulesOk(Schedule(Grab(q, grabs), schedule, x.desired))
  {
    SameOwned(q, Grab(q, grabs));
    ScheduleOwned(Grab(q, grabs), schedule, x.desired);
  }

  lemma StepOwned(p: Pool, e: Event)
    requires SchedulesOk(p)
    ensures SchedulesOk(Step(p, e))
  {
    hide OnReconnect, Minus, HasConns;
    match e
    case ConnClosed(c) => ScheduleOwned(NotifyUpOrDown(RemoveConn(p, c)), None, Some(c.shard));
    case Reconnected(x, outcome, grabs, sync) => ReconnectOwned(p, x, outcome, grabs, sync);
    case CloseRequested(sync) => CloseOwned(p, sync);
    case _ =>
  }

  lemma {:induction false} RunOwned(p: Pool, es: seq<Event>)
    requires SchedulesOk(p)
    ensures SchedulesOk(Run(p, es))
    decreases |es|
  {
    if es != [] {
      StepOwned(p, es[0]);
      RunOwned(Step(p, es[0]), es[1..]);
    }
  }

  lemma {:induction false} ScheduleManyOwned(p: Pool, n: nat, shard: nat)
    requires SchedulesOk(p)
    ensures SchedulesOk(ScheduleMany(p, n, shard))
  {
    if n > 0 {
      ScheduleManyOwned(p, n - 1, shard);
      ScheduleOwned(ScheduleMany(p, n - 1, shard), None, Some(shard));
    }
  }

  lemma {:induction false} ScheduleShardsOwned(p: Pool, n: nat)
    requires SchedulesOk(p) && n <= |p.conns|
    ensures SchedulesOk(ScheduleShards(p, n))
  {
    if n > 0 {
      ScheduleShardsOwned(p, n - 1);
      var missing := p.config.quota - |p.conns[n - 1]|;
      ScheduleManyOwned(ScheduleShards(p, n - 1), if missing > 0 then missing else 0, n - 1);
    }
  }

  /** In every run no two connectors share a reconnection schedule, so each schedule that is taken
      out of the map has one owner. */
  lemma SchedulesAreOwned(config: Config, candidates: seq<Conn>, grabs: seq<seq<Conn>>, es: seq<Event>)
    requires OpenedOk(config, candidates, grabs)
    ensures SchedulesOk(Run(Opened(config, candidates, grabs), es))
  {
    AdmitShape(config, candidates);
    var p := Started(config, candidates, grabs);
    ScheduleShardsOwned(p, |p.conns|);
    RunOwned(Opened(config, candidates, grabs), es);
  }

  // ---------------------------------------------------------------- what is said at each event

  /** The last words of a pool that has just closed. */
  function Farewell(p: Pool, t: Pool): seq<Note>
  {
    if p.closeState.Closed? || !t.closeState.Closed? then []
    else (if p.notifyState.Up? then [PoolDown] else []) + [PoolClosed]
  }

  /** UP or DOWN, if it is not what was said last. */
  function News(p: Pool, connected: bool): seq<Note>
  {
    if connected && p.notifyState.Down? then [PoolUp]
    else if !connected && p.notifyState.Up? then [PoolDown]
    else []
  }

  /** What is said on the way from `p` to `t`: UP and DOWN when a connection came or went and that is
      news, a critical error once and before the pool closes, a request for a flush if there is none
      yet. */
  ghost predicate Says(p: Pool, t: Pool, e: Event)
  {
    match e
    case ConnClosed(_) =>
      t.log == p.log + if p.closeState.Open? then News(p, HasConns(t)) else Farewell(p, t)
    case Reconnected(_, outcome, _, _) =>
      if p.closeState.Open? && outcome.CriticalError? then
        t.log == p.log + [PoolCritical] + if t.closeState.Closed? then [PoolClosed] else []
      else if p.closeState.Open? && outcome.Connected? && HasRoom(p, outcome.conn.shard) then
        t.log == p.log + News(p, true)
      else t.log == p.log + Farewell(p, t)
    case CloseRequested(_) => t.log == p.log + Farewell(p, t)
    case AskFlush(c) => t.log == p.log + (if p.toFlush == {} then [FlushNeeded] else []) + [Asked(c)]
    case Flush(order) =>
      && |t.log| == |p.log| + |order| && p.log <= t.log
      && forall i :: 0 <= i < |order| ==> t.log[|p.log| + i] == Flushed(order[i])
  }

  lemma {:induction false} FlushingAll(log: seq<Note>, order: seq<Conn>)
    ensures |Flushing(log, order)| == |log| + |order| && log <= Flushing(log, order)
    ensures forall i :: 0 <= i < |order| ==> Flushing(log, order)[|log| + i] == Flushed(order[i])
  {
    if order != [] { FlushingAll(log, order[..|order| - 1]); }
  }

  lemma SaysExactly(p: Pool, e: Event)
    requires Inv(p) && Enabled(p, e)
    ensures Says(p, Step(p, e), e)
  {
    hide PendingOk, LogOk, GrabOk;
    match e
    case ConnClosed(c) => ConnectionGone(p, c);
    case Reconnected(x, outcome, grabs, sync) =>
      if p.closeState.Open? && outcome.Connected? && HasRoom(p, outcome.conn.shard) { ConnectionAdded(p, x, outcome.conn); }
    case CloseRequested(sync) =>
    case AskFlush(c) =>
    case Flush(order) => FlushingAll(p.log, order);
  }

  lemma ConnectionGone(p: Pool, c: Conn)
    requires Inv(p) && Pooled(p, c)
    ensures Says(p, CloseConnection(p, c), ConnClosed(c))
  {
    hide PendingOk, LogOk;
    assert HasConns(p);
    var q := RemoveConn(p, c);
    assert CloseConnection(p, c).conns == q.conns;
  }

  lemma ConnectionAdded(p: Pool, x: Pending, c: Conn)
    requires StateOk(p) && p.closeState.Open? && HasRoom(p, c.shard)
    ensures var q := AddConn(Forget(p, {x}), c);
      HasConns(q) && NotifyUpOrDown(q).log == p.log + News(p, true)
  {
    var q := AddConn(Forget(p, {x}), c);
    assert q.conns[c.shard] != [];
  }

  /** A critical error ends an open pool: it is told once, and the pool closes. */
  lemma CriticalEndsThePool(p: Pool, x: Pending, grabs: seq<seq<Conn>>, sync: set<Pending>)
    requires Inv(p) && p.closeState.Open? && Enabled(p, Reconnected(x, CriticalError, grabs, sync))
    ensures var t := Step(p, Reconnected(x, CriticalError, grabs, sync));
      && multiset(t.log)[PoolCritical] == multiset(p.log)[PoolCritical] + 1
      && !t.closeState.Open? && t.notifyState.Critical?
  {
    SaysExactly(p, Reconnected(x, CriticalError, grabs, sync));
  }

  /** A reconnect that failed is tried again with the schedule and the aim it had, and nobody else's
      schedule changes, unless the marketplace has filled the pool. */
  lemma RetryContinues(p: Pool, x: Pending, grabs: seq<seq<Conn>>, sync: set<Pending>)
    requires Inv(p) && p.closeState.Open? && Enabled(p, Reconnected(x, Failed, grabs, sync))
    ensures var q := OnReconnect(p, x, Failed, grabs, sync);
      if Saturated(q) then q.schedules == p.schedules - {x.id}
      else q.schedules == (p.schedules - {x.id})[p.created := p.schedules[x.id]]
           && q.pending == Minus(p.pending, {x}) + [Pending(p.created, x.desired)] && q.drawn == p.drawn
  {
    PendingFacts(p, x);
    var q := Forget(p, {x});
    assert q.schedules == p.schedules - {x.id} by { assert (set y | y in {x} :: y.id) == {x.id}; }
    assert Schedule(Grab(q, grabs), Some(p.schedules[x.id]), x.desired).conns == Grab(q, grabs).conns;
  }

  /** A success on a shard that is full is tried again in the same way, but only if it leaves the pool
      short with nothing else under way; the connection goes to the marketplace in any case. */
  lemma SurplusContinues(p: Pool, x: Pending, c: Conn, grabs: seq<seq<Conn>>, sync: set<Pending>)
    requires Inv(p) && p.closeState.Open? && Enabled(p, Reconnected(x, Connected(c), grabs, sync))
    requires !HasRoom(p, c.shard)
    ensures var q := OnReconnect(p, x, Connected(c), grabs, sync);
      && q.surplus == p.surplus + [c] && q.drawn == p.drawn
      && (if Saturated(q) || p.pending != [x] then
            q.schedules == p.schedules - {x.id} && q.pending == Minus(p.pending, {x})
          else q.schedules == map[p.created := p.schedules[x.id]] && q.pending == [Pending(p.created, x.desired)])
  {
    PendingFacts(p, x);
    var q := Forget(p, {x});
    assert q.schedules == p.schedules - {x.id} by { assert (set y | y in {x} :: y.id) == {x.id}; }
    OthersPending(p, x);
    var g := Grab(q.(surplus := q.surplus + [c]), grabs);
    assert Schedule(g, Some(p.schedules[x.id]), x.desired).conns == g.conns;
  }

  lemma OthersPending(p: Pool, x: Pending)
    requires PendingOk(p) && x in p.pending
    ensures p.pending == [x] <==> p.schedules - {x.id} == map[]
    ensures p.pending == [x] ==> Minus(p.pending, {x}) == []
  {
    if p.pending == [x] {
      assert p.pending[1..] == [] && p.schedules.Keys == {x.id};
    } else {
      var i := if p.pending[0] == x then 1 else 0;
      assert i < |p.pending| && p.pending[i] != x;
      assert p.pending[i].id in Ids(p.pending) && p.pending[i].id != x.id;
      assert p.pending[i].id in p.schedules - {x.id};
    }
  }

  /** A lost connection is made up for by one reconnect with a schedule of its own, aimed at the shard
      of the connection where ports decide shards. */
  lemma LossIsMadeUpFor(p: Pool, c: Conn)
    requires p.closeState.Open?
    ensures var q := CloseConnection(p, c);
      && q.pending == p.pending + [Pending(p.created, if p.config.portAware then Some(c.shard) else None)]
      && q.schedules == p.schedules[p.created := p.drawn] && q.drawn == p.drawn + 1
  {
  }
}
