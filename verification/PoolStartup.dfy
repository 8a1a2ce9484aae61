/**
 Opening a pool: a scout connection finds out about the host, then all connectors are started at
 once, the first critical error stops the others, and when the last one has called back the client
 is told and a pool is made or not.
 */
module PoolStartup {
  import opened Sequences
  import P = Pooling
  import Sharding

  datatype Attempt = Attempt(id: nat, desired: Option<nat>)

  datatype Outcome = Connected(conn: P.Conn) | WasCanceled | Critical | OtherError

  datatype Result = Pool(connections: seq<P.Conn>) | CriticalError(id: nat) | Abandoned

  datatype Connector = Connector(
    n: nat,                             // connections per host
    scouting: bool,
    shards: Option<nat>,                // shards that can be aimed at, as the scout found
    remaining: nat,
    pending: seq<Attempt>,
    told: set<nat>,                     // connectors that were told to cancel
    connections: seq<P.Conn>,
    closing: set<P.Conn>,               // connections that were told to close
    critical: Option<nat>,
    canceled: bool,
    held: bool,                         // a pool was made that the client did not take, and is closed
    calls: nat,                         // history: invocations of the client callback
    result: Option<Result>)             // history: what came of it

  datatype Event =
    | ScoutDone(shards: Option<nat>)
    | Finished(attempt: Attempt, outcome: Outcome, takes: bool)
    | Cancel

  // ---------------------------------------------------------------- operations

  function Fresh(n: nat): Connector
  {
    Connector(n, true, None, 0, [], {}, [], {}, None, false, false, 0, None)
  }

  /** With a shard-aware port, connector i asks for shard i modulo the number of shards. */
  function Aim(i: nat, shards: Option<nat>): Option<nat>
  {
    if shards.Some? && shards.value >= 1 then Some(i % shards.value) else None
  }

  function Attempts(n: nat, shards: Option<nat>): seq<Attempt>
  {
    if n == 0 then [] else Attempts(n - 1, shards) + [Attempt(n - 1, Aim(n - 1, shards))]
  }

  /** Whatever became of the scout, and whether or not a cancel has come, the connectors start. */
  function Connect(s: Connector, shards: Option<nat>): Connector
  {
    s.(scouting := false, shards := shards, remaining := s.n, pending := Attempts(s.n, shards))
  }

  function CancelPending(s: Connector): Connector
  {
    s.(told := s.told + set a | a in s.pending :: a.id)
  }

  function OnCancel(s: Connector): Connector
  {
    var t := s.(canceled := true);
    if s.held then t else CancelPending(t).(closing := s.closing + set c | c in s.connections)
  }

  function Outcomes(s: Connector, a: Attempt, outcome: Outcome): Connector
  {
    match outcome
    case Connected(conn) => s.(connections := s.connections + [conn])
    case Critical => if s.critical.None? then CancelPending(s.(critical := Some(a.id))) else s
    case _ => s
  }

  function Finish(s: Connector, takes: bool): Connector
  {
    var result := if s.canceled then Abandoned
                  else if s.critical.Some? then CriticalError(s.critical.value)
                  else Pool(s.connections);
    s.(calls := s.calls + 1, result := Some(result), held := result.Pool? && !takes)
  }

  function OnConnect(s: Connector, a: Attempt, outcome: Outcome, takes: bool): Connector
  {
    var t := Outcomes(s.(pending := Without(s.pending, a)), a, outcome);
    if s.remaining == 0 then t
    else if s.remaining == 1 then Finish(t.(remaining := 0), takes)
    else t.(remaining := s.remaining - 1)
  }

  function Step(s: Connector, e: Event): Connector
  {
    match e
    case ScoutDone(shards) => Connect(s, shards)
    case Finished(a, outcome, takes) => OnConnect(s, a, outcome, takes)
    case Cancel => OnCancel(s)
  }

  /** The scout and every connector call back once, a connector as canceled only if it was told. */
  predicate Enabled(s: Connector, e: Event)
  {
    match e
    case ScoutDone(shards) => s.scouting && (shards.Some? ==> shards.value >= 1)
    case Finished(a, outcome, _) =>
      && a in s.pending
      && (outcome.WasCanceled? ==> a.id in s.told)
      && (outcome.Connected? ==> outcome.conn.id == a.id)
    case Cancel => true
  }

  function Run(s: Connector, es: seq<Event>): Connector
  {
    if es == [] then s else Step(Run(s, es[..|es| - 1]), es[|es| - 1])
  }

  predicate Legal(s: Connector, es: seq<Event>)
  {
    es != [] ==> Legal(s, es[..|es| - 1]) && Enabled(Run(s, es[..|es| - 1]), es[|es| - 1])
  }

  // ---------------------------------------------------------------- what a run says by itself

  function Scouted(es: seq<Event>): bool
  {
    es != [] && (es[|es| - 1].ScoutDone? || Scouted(es[..|es| - 1]))
  }

  /** How many connectors have called back. */
  function Returned(es: seq<Event>): nat
  {
    if es == [] then 0 else Returned(es[..|es| - 1]) + if es[|es| - 1].Finished? then 1 else 0
  }

  /** The connections obtained, in the order they arrived. */
  function Obtained(es: seq<Event>): seq<P.Conn>
  {
    if es == [] then []
    else
      var e := es[|es| - 1];
      Obtained(es[..|es| - 1]) + if e.Finished? && e.outcome.Connected? then [e.outcome.conn] else []
  }

  /** The first connector that met a critical error. */
  function FirstCritical(es: seq<Event>): Option<nat>
  {
    if es == [] then None
    else
      var before, e := FirstCritical(es[..|es| - 1]), es[|es| - 1];
      if before.None? && e.Finished? && e.outcome.Critical? then Some(e.attempt.id) else before
  }

  /** A critical error occurred, or a cancel came when the connectors had been started. */
  function Stopped(es: seq<Event>): bool
  {
    if es == [] then false
    else
      var before, e := es[..|es| - 1], es[|es| - 1];
      Stopped(before) || (e.Cancel? && Scouted(before)) || (e.Finished? && e.outcome.Critical?)
  }

  /** A pool was made that the client did not take: the last connector has returned, without a cancel
      or a critical error before. */
  function Kept(n: nat, es: seq<Event>): bool
  {
    if es == [] then false
    else
      var before, e := es[..|es| - 1], es[|es| - 1];
      Kept(n, before) ||
      (e.Finished? && !e.takes && Returned(es) == n && Cancel !in before && FirstCritical(es).None?)
  }

  /** The connections a cancel has told to close: all that were obtained when one came, unless a pool is
      kept, which has closed its connections itself. */
  function ClosedByCancel(n: nat, es: seq<Event>): set<P.Conn>
  {
    if es == [] then {}
    else
      var before, e := es[..|es| - 1], es[|es| - 1];
      ClosedByCancel(n, before) + if e.Cancel? && !Kept(n, before) then set c | c in Obtained(before) else {}
  }

  lemma OneMoreCancel(n: nat, es: seq<Event>, e: Event)
    ensures Kept(n, es + [e]) <==>
      (Kept(n, es) ||
       (e.Finished? && !e.takes && Returned(es + [e]) == n && Cancel !in es && FirstCritical(es + [e]).None?))
    ensures ClosedByCancel(n, es + [e]) ==
      ClosedByCancel(n, es) + if e.Cancel? && !Kept(n, es) then set c | c in Obtained(es) else {}
  {
    assert (es + [e])[..|es + [e]| - 1] == es;
  }

  lemma OneMore(es: seq<Event>, e: Event)
    ensures Scouted(es + [e]) <==> e.ScoutDone? || Scouted(es)
    ensures Returned(es + [e]) == Returned(es) + if e.Finished? then 1 else 0
    ensures Obtained(es + [e]) ==
      Obtained(es) + if e.Finished? && e.outcome.Connected? then [e.outcome.conn] else []
    ensures FirstCritical(es + [e]) ==
      if FirstCritical(es).None? && e.Finished? && e.outcome.Critical? then Some(e.attempt.id) else FirstCritical(es)
    ensures Stopped(es + [e]) <==>
      Stopped(es) || (e.Cancel? && Scouted(es)) || (e.Finished? && e.outcome.Critical?)
    ensures Cancel in es + [e] <==> Cancel in es || e.Cancel?
  {
    assert (es + [e])[..|es + [e]| - 1] == es;
  }

  // ---------------------------------------------------------------- what every step keeps

  ghost predicate PendingOk(s: Connector)
  {
    && Distinct(s.pending) && s.remaining == |s.pending|
    && (forall a :: a in s.pending ==> a.id < s.n && a.desired == Aim(a.id, s.shards))
    && (forall a, b :: a in s.pending && b in s.pending && a.id == b.id ==> a == b)
  }

  /** No connection comes from a connector that is still running, and no two from the same one. */
  ghost predicate ConnectionsOk(s: Connector)
  {
    && Distinct(s.connections)
    && (forall c :: c in s.connections ==> c.id < s.n && forall a :: a in s.pending ==> a.id != c.id)
  }

  ghost predicate CallOk(s: Connector)
  {
    && s.n >= 1
    && s.calls == Bit(!s.scouting && s.remaining == 0)
    && (s.result.Some? <==> s.calls == 1)
    && (s.held ==> s.result.Some? && s.result.value.Pool?)
    && (s.scouting ==> s.pending == [] && s.told == {} && s.connections == [] && s.critical.None?)
  }

  ghost predicate Inv(s: Connector)
  {
    PendingOk(s) && ConnectionsOk(s) && CallOk(s)
  }

  /** The state agrees with what can be told from the events alone. */
  ghost predicate Follows(n: nat, es: seq<Event>, s: Connector)
  {
    && s.n == n && (s.scouting <==> !Scouted(es))
    && (if s.scouting then Returned(es) == 0 else |s.pending| == n - Returned(es))
    && s.connections == Obtained(es)
    && s.critical == FirstCritical(es)
    && (s.canceled <==> Cancel in es)
    && (if Stopped(es) then forall a :: a in s.pending ==> a.id in s.told else s.told == {})
    && (s.held <==> Kept(n, es))
    && s.closing == ClosedByCancel(n, es)
  }

  lemma {:induction false} AttemptsOk(n: nat, shards: Option<nat>)
    ensures |Attempts(n, shards)| == n && Distinct(Attempts(n, shards))
    ensures forall a :: a in Attempts(n, shards) ==> a.id < n && a.desired == Aim(a.id, shards)
    ensures forall a, b :: a in Attempts(n, shards) && b in Attempts(n, shards) && a.id == b.id ==> a == b
  {
    if n > 0 {
      AttemptsOk(n - 1, shards);
      var last := Attempts(n, shards)[n - 1];
      DistinctAppend(Attempts(n - 1, shards), last);
    }
  }

  lemma FinishedKeeps(s: Connector, a: Attempt, outcome: Outcome, takes: bool)
    requires Inv(s) && Enabled(s, Finished(a, outcome, takes))
    ensures Inv(OnConnect(s, a, outcome, takes))
  {
    WithoutDistinct(s.pending, a);
    if outcome.Connected? { DistinctAppend(s.connections, outcome.conn); }
    var t := OnConnect(s, a, outcome, takes);
    assert t.pending == Without(s.pending, a);
    assert t.connections == s.connections + if outcome.Connected? then [outcome.conn] else [];
  }

  lemma StepKeeps(s: Connector, e: Event)
    requires Inv(s) && Enabled(s, e)
    ensures Inv(Step(s, e))
  {
    match e
    case ScoutDone(shards) => AttemptsOk(s.n, shards);
    case Finished(a, outcome, takes) => FinishedKeeps(s, a, outcome, takes);
    case Cancel =>
  }

  lemma StepFollows(n: nat, es: seq<Event>, s: Connector, e: Event)
    requires Inv(s) && Enabled(s, e) && Follows(n, es, s)
    ensures Follows(n, es + [e], Step(s, e))
  {
    hide Returned, Obtained, FirstCritical, Stopped, Scouted, ConnectionsOk, Kept, ClosedByCancel;
    OneMore(es, e);
    OneMoreCancel(n, es, e);
    match e
    case ScoutDone(shards) =>
      AttemptsOk(s.n, shards);
      NotStoppedYet(es);
    case Finished(a, outcome, takes) =>
      WithoutDistinct(s.pending, a);
      CriticalStops(es);
    case Cancel =>
  }

  lemma {:induction false} CriticalStops(es: seq<Event>)
    ensures FirstCritical(es).Some? ==> Stopped(es)
  {
    if es != [] { CriticalStops(es[..|es| - 1]); }
  }

  lemma {:induction false} NotStoppedYet(es: seq<Event>)
    ensures Returned(es) == 0 && !Scouted(es) ==> !Stopped(es)
  {
    if es != [] { NotStoppedYet(es[..|es| - 1]); }
  }

  lemma {:induction false} RunKeeps(n: nat, es: seq<Event>)
    requires n >= 1 && Legal(Fresh(n), es)
    ensures Inv(Run(Fresh(n), es)) && Follows(n, es, Run(Fresh(n), es))
  {
    if es != [] {
      hide Inv, Follows, Step;
      var before, e := es[..|es| - 1], es[|es| - 1];
      assert es == before + [e];
      RunKeeps(n, before);
      StepKeeps(Run(Fresh(n), before), e);
      StepFollows(n, before, Run(Fresh(n), before), e);
    }
  }

  // ---------------------------------------------------------------- main results

  /** The client is called back once, when the scout and the last connector have returned and not
      before, wherever cancels came. */
  lemma CallsBackOnce(n: nat, es: seq<Event>)
    requires n >= 1 && Legal(Fresh(n), es)
    ensures Returned(es) <= n
    ensures Run(Fresh(n), es).calls == Bit(Returned(es) == n)
  {
    RunKeeps(n, es);
  }

  /** At the call there is a pool, made from exactly the connections obtained, or the first critical
      error is reported, or the attempt was abandoned; a cancel, of the scout too, comes before an
      error, and an error before a pool. A pool the client does not take is closed. */
  lemma ResultExact(n: nat, es: seq<Event>, last: Event)
    requires n >= 1 && Legal(Fresh(n), es + [last])
    requires last.Finished? && Returned(es + [last]) == n
    ensures var s := Run(Fresh(n), es + [last]);
      && s.result == Some(
           if Cancel in es then Abandoned
           else if FirstCritical(es + [last]).Some? then CriticalError(FirstCritical(es + [last]).value)
           else Pool(Obtained(es + [last])))
      && (s.held <==> s.result.value.Pool? && !last.takes)
  {
    assert (es + [last])[..|es + [last]| - 1] == es;
    RunKeeps(n, es);
    RunKeeps(n, es + [last]);
  }

  /** While connectors run, all of them have been told to stop exactly if a critical error occurred
      or a cancel came after they were started; otherwise none has. */
  lemma StopsTheOthersExactlyWhen(n: nat, es: seq<Event>)
    requires n >= 1 && Legal(Fresh(n), es)
    ensures var s := Run(Fresh(n), es);
      && (s.pending != [] ==> ((forall a :: a in s.pending ==> a.id in s.told) <==> Stopped(es)))
      && (!Stopped(es) ==> s.told == {})
  {
    RunKeeps(n, es);
    var s := Run(Fresh(n), es);
    if s.pending != [] { assert s.pending[0] in s.pending; }
  }

  /** In every run exactly these connections have been told to close: those obtained when a cancel
      came, unless a pool the client did not take was held by then. */
  lemma CancelClosesExactly(n: nat, es: seq<Event>)
    requires n >= 1 && Legal(Fresh(n), es)
    ensures Run(Fresh(n), es).closing == ClosedByCancel(n, es)
  {
    RunKeeps(n, es);
  }

  predicate NoCritical(es: seq<Event>)
  {
    forall e :: e in es && e.Finished? ==> !e.outcome.Critical?
  }

  lemma {:induction false} StoppedByCancel(before: seq<Event>, after: seq<Event>)
    requires Cancel !in before && Cancel !in after && NoCritical(before) && NoCritical(after)
    ensures Stopped(before + [Cancel] + after) <==> Scouted(before)
    decreases |after|
  {
    if after == [] {
      assert before + [Cancel] + after == before + [Cancel];
      OneMore(before, Cancel);
      NeverStopped(before);
    } else {
      var k := |after| - 1;
      assert after == after[..k] + [after[k]];
      assert before + [Cancel] + after == (before + [Cancel] + after[..k]) + [after[k]];
      OneMore(before + [Cancel] + after[..k], after[k]);
      StoppedByCancel(before, after[..k]);
    }
  }

  lemma {:induction false} NeverStopped(es: seq<Event>)
    requires Cancel !in es && NoCritical(es)
    ensures !Stopped(es)
  {
    if es != [] {
      var k := |es| - 1;
      assert es == es[..k] + [es[k]];
      NeverStopped(es[..k]);
    }
  }

  /** One cancel, no critical error: the connectors that still run afterwards have been told to stop
      exactly if the scout had returned when the cancel came. */
  lemma CancelStopsExactlyWhen(n: nat, before: seq<Event>, after: seq<Event>)
    requires n >= 1 && Legal(Fresh(n), before + [Cancel] + after) && Legal(Fresh(n), before)
    requires Cancel !in before && Cancel !in after && NoCritical(before) && NoCritical(after)
    ensures var s := Run(Fresh(n), before + [Cancel] + after);
      s.pending != [] ==>
        ((forall a :: a in s.pending ==> a.id in s.told) <==> !Run(Fresh(n), before).scouting)
  {
    RunKeeps(n, before);
    StopsTheOthersExactlyWhen(n, before + [Cancel] + after);
    StoppedByCancel(before, after);
  }

  /** A cancel while the scout is under way: all connectors start after it, and nobody tells them. */
  lemma CanceledScoutStartsAll(n: nat, shards: Option<nat>)
    requires n >= 1 && (shards.Some? ==> shards.value >= 1)
    ensures var s := Run(Fresh(n), [Cancel, ScoutDone(shards)]);
      && Legal(Fresh(n), [Cancel, ScoutDone(shards)])
      && s.canceled && |s.pending| == n && s.told == {}
  {
    var es := [Cancel, ScoutDone(shards)];
    assert es[..1] == [Cancel] && [Cancel][..0] == [];
    AttemptsOk(n, shards);
    assert Run(Fresh(n), [Cancel]) == Step(Run(Fresh(n), []), Cancel);
    assert (set a | a in Fresh(n).pending :: a.id) == {};
  }

  /** Where ports decide shards and connectors reach the shard they asked for, the pool keeps every
      connection it is made from, whichever connectors failed and in whatever order they returned. */
  lemma StartsWithoutSurplus(n: nat, shards: nat, es: seq<Event>)
    requires n >= 1 && shards >= 1
    requires Legal(Fresh(n), es) && Run(Fresh(n), es).shards == Some(shards)
    requires forall e :: e in es && e.Finished? && e.outcome.Connected? ==>
      Some(e.outcome.conn.shard) == e.attempt.desired
    ensures var config := P.Config(shards, Sharding.ConnsPerShard(n, shards), true);
      var p := P.Admit(P.Empty(config), Obtained(es));
      && p.surplus == [] && |p.conns| == shards
      && forall s :: 0 <= s < shards ==> p.conns[s] == Sharding.OnShard(Obtained(es), s)
  {
    ObtainedLanded(n, shards, es);
    Sharding.InitialAssignmentFits(n, shards, true, Obtained(es));
  }

  lemma {:induction false} ObtainedLanded(n: nat, shards: nat, es: seq<Event>)
    requires n >= 1 && shards >= 1
    requires Legal(Fresh(n), es) && (Scouted(es) ==> Run(Fresh(n), es).shards == Some(shards))
    requires forall e :: e in es && e.Finished? && e.outcome.Connected? ==>
      Some(e.outcome.conn.shard) == e.attempt.desired
    ensures Sharding.Landed(n, shards, Obtained(es))
  {
    RunKeeps(n, es);
    if es != [] {
      var before, e := es[..|es| - 1], es[|es| - 1];
      assert es == before + [e] && e in es;
      RunKeeps(n, before);
      assert Scouted(before) ==> !e.ScoutDone?;
      ObtainedLanded(n, shards, before);
    }
  }
}
