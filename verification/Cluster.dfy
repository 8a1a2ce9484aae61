/**
 The cluster object and the part of the control connector that builds the report of hosts. The
 handlers update the fields in place; each is proved to perform one step of `ControlLoop`.
 */
module Clusters {
  import opened Sequences
  import T = Topology
  import L = ControlLoop

  class ControlConnector {
    var hosts: T.Table
    var listenAddresses: map<T.Address, string>

    constructor ()
      ensures hosts == map[] && listenAddresses == map[]
    {
      hosts, listenAddresses := map[], map[];
    }

    /** `first` numbers the host objects that are made for the rows. */
    method HandleQueryHosts(connected: T.Host, localRows: nat, peers: seq<T.Peer>, first: nat)
      returns (ok: bool)
      requires hosts == map[] && listenAddresses == map[]
      modifies this
      ensures ok <==> localRows > 0
      ensures ok ==> hosts == T.Reported(connected, peers, first) && listenAddresses == T.Listening(peers)
      ensures ok ==> T.Keyed(hosts) && connected.address in hosts
      ensures !ok ==> hosts == map[] && listenAddresses == map[]
    {
      if localRows == 0 { return false; }
      hosts := hosts[connected.address := connected];
      for i := 0 to |peers|
        invariant hosts == T.Reported(connected, peers[..i], first) && listenAddresses == T.Listening(peers[..i])
      {
        assert peers[..i + 1][..i] == peers[..i];
        if peers[i].address.Some? {
          var host := T.Host(peers[i].address.value, first + i);
          listenAddresses := listenAddresses[peers[i].rpc := peers[i].listen];
          hosts := hosts[host.address := host];
        }
      }
      assert peers[..|peers|] == peers;
      T.ReportHasConnected(connected, peers, first);
      return true;
    }
  }

  class Cluster {
    var hosts: T.Table
    var policies: seq<seq<T.Notice>>
    var connected: T.Host
    var link: L.Link
    var timer: bool
    var reconnector: Option<L.Reconnector>
    var draws: Option<nat>
    var closing: bool
    ghost var log: seq<L.Note>

    ghost function View(): T.View
      reads this
    {
      T.View(hosts, policies)
    }

    ghost function State(): L.Cluster
      reads this
    {
      L.Cluster(View(), connected, link, timer, reconnector, draws, closing, log)
    }

    constructor (hosts: T.Table, policies: nat, connected: T.Host)
      ensures State() == L.Fresh(hosts, policies, connected)
    {
      this.hosts, this.policies, this.connected := hosts, seq(policies, i => []), connected;
      link, timer, reconnector, draws, closing := L.Open(connected.address, false), false, None, None, false;
      log := [L.Connected];
    }

    // -------------------------------------------------------------- hosts

    method TellPolicies(n: T.Notice)
      modifies `policies
      ensures policies == T.Tell(old(policies), n)
    {
      for i := 0 to |policies|
        invariant |policies| == |old(policies)|
        invariant forall k :: 0 <= k < i ==> policies[k] == old(policies)[k] + [n]
        invariant forall k :: i <= k < |policies| ==> policies[k] == old(policies)[k]
      {
        policies := policies[i := policies[i] + [n]];
      }
    }

    method NotifyHostAdd(host: T.Host)
      modifies `hosts, `policies
      ensures View() == T.HostAdd(old(View()), host)
    {
      if host.address in hosts { TellPolicies(T.Removed(hosts[host.address])); }
      hosts := hosts[host.address := host];
      TellPolicies(T.Added(host));
    }

    method NotifyHostRemove(address: T.Address)
      modifies `hosts, `policies
      ensures View() == T.HostRemove(old(View()), address)
    {
      if address !in hosts { return; }
      var host := hosts[address];
      hosts := hosts - {address};
      TellPolicies(T.Removed(host));
    }

    method UpdateHosts(reported: T.Table, order: seq<T.Address>, gone: seq<T.Address>)
      requires T.Walks(View(), reported, order, gone)
      modifies `hosts, `policies
      ensures View() == T.UpdateHosts(old(View()), reported, order, gone)
    {
      hide T.AddNew, T.RemoveAll, T.HostAdd, T.HostRemove;
      ghost var v := View();
      T.WalkStart(v, v.hosts, reported);
      var existing := hosts;
      for i := 0 to |order|
        invariant forall a :: a in existing <==> a in v.hosts && a !in order[..i]
        invariant View() == T.AddNew(v, v.hosts, reported, order[..i])
      {
        var a := order[i];
        T.WalkNext(v, v.hosts, reported, order, i);
        assert order[..i + 1] == order[..i] + [a];
        assert a in order && a !in order[..i];
        if a in existing {
          existing := existing - {a};
        } else {
          NotifyHostAdd(reported[a]);
        }
      }
      assert order[..|order|] == order;
      assert forall a :: a in gone <==> a in existing;
      ghost var u := View();
      T.WalkStart(u, v.hosts, reported);
      for i := 0 to |gone|
        invariant View() == T.RemoveAll(u, gone[..i])
      {
        T.WalkNext(u, v.hosts, reported, gone, i);
        NotifyHostRemove(gone[i]);
      }
      assert gone[..|gone|] == gone;
    }

    // -------------------------------------------------------------- reconnecting

    method ScheduleReconnect(polls: seq<L.Poll>)
      modifies `timer, `reconnector, `draws
      ensures State() == L.ScheduleReconnect(old(State()), polls)
      decreases |polls|, 0
    {
      if polls == [] { return; }
      if draws.None? { draws := Some(0); }
      draws := Some(draws.value + 1);
      if polls[0].delay > 0 {
        timer := true;
      } else {
        HandleScheduleReconnect(polls[0].host, polls[1..]);
      }
    }

    method HandleScheduleReconnect(host: Option<T.Address>, polls: seq<L.Poll>)
      modifies `timer, `reconnector, `draws
      ensures State() == L.HandleSchedule(old(State()), host, polls)
      decreases |polls|, 1
    {
      if host.Some? {
        reconnector := Some(L.Reconnector(host.value, false));
      } else {
        ScheduleReconnect(polls);
      }
    }

    method OnScheduleReconnect(next: Option<T.Address>, polls: seq<L.Poll>)
      requires timer
      modifies `timer, `reconnector, `draws
      ensures State() == L.Step(old(State()), L.TimerFired(next, polls))
    {
      timer := false;
      HandleScheduleReconnect(next, polls);
    }

    method OnReconnect(outcome: L.Outcome, polls: seq<L.Poll>)
      requires T.Keyed(hosts) && L.Enabled(State(), L.ReconnectDone(outcome, polls))
      modifies this
      ensures State() == L.Step(old(State()), L.ReconnectDone(outcome, polls))
    {
      hide T.UpdateHosts, T.Keyed, T.Walks, T.Merged, T.HeardOnce, L.ScheduleReconnect;
      var address := reconnector.value.address;
      reconnector := None;
      if closing {
        HandleClose();
        return;
      }
      match outcome {
        case Success(reported, order, gone) =>
          link := L.Open(address, false);
          T.ReportedStay(View(), reported, order, gone);
          UpdateHosts(reported, order, gone);
          connected := hosts[address];
          log := log + [L.Connected];
          draws := None;
        case Failure => ScheduleReconnect(polls);
        case WasCanceled =>
      }
    }

    method OnClose(polls: seq<L.Poll>)
      requires L.Enabled(State(), L.ConnectionClosed(polls))
      modifies this
      ensures State() == L.Step(old(State()), L.ConnectionClosed(polls))
    {
      link := L.Lost;
      if !closing {
        ScheduleReconnect(polls);
      } else {
        HandleClose();
      }
    }

    // -------------------------------------------------------------- closing

    method InternalClose()
      modifies this
      ensures State() == L.Step(old(State()), L.Close)
    {
      closing := true;
      if timer {
        timer := false;
        HandleClose();
      } else if reconnector.Some? {
        reconnector := Some(reconnector.value.(canceled := true));
      } else if link.Open? {
        link := link.(asked := true);
      }
    }

    method HandleClose()
      modifies `link, `log
      ensures State() == L.HandleClose(old(State()))
    {
      link := L.Released;
      log := log + [L.Closed];
    }
  }
}
