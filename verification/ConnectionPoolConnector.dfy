/** The pool connector object; each handler is proved to perform one step of `PoolStartup`. */
module PoolConnectors {
  import opened Sequences
  import P = Pooling
  import S = PoolStartup

  class ConnectionPoolConnector {
    const n: nat
    var scouting: bool
    var shards: Option<nat>
    var remaining: nat
    var pending: seq<S.Attempt>
    var told: set<nat>
    var connections: seq<P.Conn>
    var closing: set<P.Conn>
    var critical: Option<nat>
    var canceled: bool
    var held: bool
    ghost var calls: nat
    ghost var result: Option<S.Result>

    ghost function State(): S.Connector
      reads this
    {
      S.Connector(n, scouting, shards, remaining, pending, told, connections, closing, critical, canceled, held,
                  calls, result)
    }

    /** The connector once the scout has been started. */
    constructor (n: nat)
      ensures State() == S.Fresh(n)
    {
      this.n, scouting, shards, remaining, pending, told := n, true, None, 0, [], {};
      connections, closing, critical, canceled, held, calls, result := [], {}, None, false, false, 0, None;
    }

    /** The scout has called back, with whatever outcome; `aimed` is what it found out. */
    method OnScoutConnect(aimed: Option<nat>)
      requires pending == [] && (aimed.Some? ==> aimed.value >= 1)
      modifies this
      ensures State() == S.Step(old(State()), S.ScoutDone(aimed))
    {
      scouting, shards := false, aimed;
      Connect();
    }

    method Connect()
      requires pending == [] && (shards.Some? ==> shards.value >= 1)
      modifies `remaining, `pending
      ensures State() == old(State()).(remaining := n, pending := S.Attempts(n, shards))
    {
      remaining := n;
      ghost var s := State();
      for i := 0 to n
        invariant State() == s.(pending := S.Attempts(i, shards))
      {
        var attempt := S.Attempt(i, None);
        if shards.Some? { attempt := attempt.(desired := Some(i % shards.value)); }
        pending := pending + [attempt];
      }
    }

    method CancelPending()
      modifies `told
      ensures State() == S.CancelPending(old(State()))
    {
      ghost var before := told;
      for i := 0 to |pending|
        invariant told == before + set a | a in pending[..i] :: a.id
      {
        assert pending[..i + 1] == pending[..i] + [pending[i]];
        told := told + {pending[i].id};
      }
      assert pending[..|pending|] == pending;
    }

    method CloseConnections()
      modifies `closing
      ensures closing == old(closing) + set c | c in connections
    {
      ghost var before := closing;
      for i := 0 to |connections|
        invariant closing == before + set c | c in connections[..i]
      {
        assert connections[..i + 1] == connections[..i] + [connections[i]];
        closing := closing + {connections[i]};
      }
      assert connections[..|connections|] == connections;
    }

    method Cancel()
      modifies this
      ensures State() == S.Step(old(State()), S.Cancel)
    {
      canceled := true;
      if !held {
        CancelPending();
        CloseConnections();
      }
    }

    method OnConnect(attempt: S.Attempt, outcome: S.Outcome, takes: bool)
      requires remaining > 0
      modifies this
      ensures State() == S.Step(old(State()), S.Finished(attempt, outcome, takes))
    {
      hide S.Outcomes, S.Finish;
      pending := Without(pending, attempt);
      Register(attempt, outcome);
      remaining := remaining - 1;
      if remaining == 0 { Finish(takes); }
    }

    method Register(attempt: S.Attempt, outcome: S.Outcome)
      modifies `connections, `critical, `told
      ensures State() == S.Outcomes(old(State()), attempt, outcome)
    {
      if outcome.Connected? {
        connections := connections + [outcome.conn];
      } else if outcome.Critical? {
        if critical.None? {
          critical := Some(attempt.id);
          CancelPending();
        }
      }
    }

    method Finish(takes: bool)
      modifies `calls, `result, `held
      ensures State() == S.Finish(old(State()), takes)
    {
      held := false;
      if !canceled {
        if critical.None? {
          result := Some(S.Pool(connections));
          held := !takes;
        } else {
          result := Some(S.CriticalError(critical.value));
        }
      } else {
        result := Some(S.Abandoned);
      }
      calls := calls + 1;
    }
  }
}
