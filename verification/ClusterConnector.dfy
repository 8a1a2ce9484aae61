/**
 The cluster connector object. Its handlers update the fields in place; each is proved to perform
 one step of `ClusterStartup`. `keys` is the order in which the connector map is walked.
 */
module ClusterConnectors {
  import opened Sequences
  import S = ClusterStartup

  class ClusterConnector {
    var version: int
    var resolved: bool
    var remaining: nat
    var connectors: map<S.Address, S.Control>
    var running: seq<S.Control>
    var created: nat
    var told: set<nat>
    var cluster: Option<int>
    var code: S.Code
    var resolverTold: bool
    var clusterTold: bool
    var hasResolver: bool
    ghost var calls: nat
    ghost var report: Option<S.Report>

    ghost function State(): S.Connector
      reads this
    {
      S.Connector(version, resolved, remaining, connectors, running, created, told, cluster, code, resolverTold,
                  clusterTold, calls, report)
    }

    /** The resolver is let go with the rest when the client has been called back. */
    ghost predicate Valid()
      reads this
    {
      hasResolver <==> calls == 0
    }

    constructor (version: int)
      ensures State() == S.Fresh(version) && Valid()
    {
      this.version, resolved, remaining, connectors, running := version, false, 0, map[], [];
      created, told, cluster, code, resolverTold, clusterTold := 0, {}, None, S.Ok, false, false;
      hasResolver, calls, report := true, 0, None;
    }

    method Finish()
      requires Valid()
      modifies this
      ensures Valid() && State() == S.Finish(old(State()))
    {
      calls, report := calls + 1, Some(S.Report(code, cluster, version));
      hasResolver, connectors, cluster := false, map[], None;
    }

    method MaybeFinish()
      requires Valid()
      modifies this
      ensures Valid() && State() == S.MaybeFinish(old(State()))
    {
      if remaining > 0 {
        remaining := remaining - 1;
        if remaining == 0 { Finish(); }
      }
    }

    method OnError(error: S.Code)
      requires Valid()
      modifies this
      ensures Valid() && State() == S.OnError(old(State()), error)
    {
      code := error;
      MaybeFinish();
    }

    method InternalConnect(address: S.Address, v: int)
      requires Valid()
      modifies this
      ensures Valid() && State() == S.Start(old(State()), address, v)
    {
      var connector := S.Control(created, address, v);
      created := created + 1;
      connectors := connectors[address := connector];
      running := running + [connector];
    }

    method OnResolve(addresses: seq<S.Address>)
      requires Valid()
      modifies this
      ensures Valid() && State() == S.OnResolve(old(State()), addresses)
    {
      resolved := true;
      if code.Canceled? {
        Finish();
        return;
      }
      if addresses == [] {
        code := S.NoHosts;
        Finish();
        return;
      }
      remaining := |addresses|;
      ghost var s := State();
      for i := 0 to |addresses|
        invariant State() == S.StartAll(s, addresses[..i]) && version == s.version && Valid()
      {
        assert addresses[..i + 1][..i] == addresses[..i];
        InternalConnect(addresses[i], version);
      }
      assert addresses[..|addresses|] == addresses;
    }

    method CancelOthers(keys: seq<S.Address>, winner: Option<S.Address>)
      requires forall a :: a in keys <==> a in connectors
      modifies `told
      ensures State() == S.CancelOthers(old(State()), winner)
    {
      ghost var before := told;
      for i := 0 to |keys|
        invariant told == before + set a | a in keys[..i] && winner != Some(a) && a in connectors :: connectors[a].id
      {
        var a := keys[i];
        assert keys[..i + 1] == keys[..i] + [a];
        assert a in keys;
        if winner != Some(a) { told := told + {connectors[a].id}; }
      }
      assert keys[..|keys|] == keys;
    }

    method Cancel(keys: seq<S.Address>)
      requires Valid() && forall a :: a in keys <==> a in connectors
      modifies this
      ensures State() == S.Step(old(State()), S.Cancel) && Valid()
    {
      code := S.Canceled;
      if hasResolver { resolverTold := true; }
      CancelOthers(keys, None);
      if cluster.Some? { clusterTold := true; }
    }

    method OnConnected(c: S.Control, hostFound: bool, planHasHost: bool, keys: seq<S.Address>)
      requires forall a :: a in keys <==> a in connectors
      requires Valid()
      modifies this
      ensures Valid() && State() == S.OnConnected(old(State()), c, hostFound, planHasHost)
    {
      if !hostFound {
        OnError(S.NoHosts);
        return;
      }
      if !planHasHost {
        OnError(S.NoHosts);
        return;
      }
      cluster, code, version := Some(c.version), S.Ok, c.version;
      CancelOthers(keys, Some(c.address));
      MaybeFinish();
    }

    method OnConnect(c: S.Control, outcome: S.Outcome, keys: seq<S.Address>)
      requires forall a :: a in keys <==> a in connectors
      requires Valid()
      modifies this
      ensures Valid() && State() == S.Step(old(State()), S.Finished(c, outcome))
    {
      running := Without(running, c);
      if cluster.Some? || code.Canceled? {
        MaybeFinish();
        return;
      }
      match outcome {
        case Connected(hostFound, planHasHost) => OnConnected(c, hostFound, planHasHost, keys);
        case BadProtocol =>
          var lower := S.Previous(c.version);
          if !S.IsValid(lower) {
            OnError(S.InvalidProtocol);
            return;
          }
          InternalConnect(c.address, lower);
        case SslError => OnError(S.Ssl);
        case AuthError => OnError(S.Auth);
        case _ => OnError(S.NoHosts);
      }
    }
  }
}
