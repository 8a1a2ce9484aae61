/**
 The hosts a cluster knows and what its load balancing policies have been told about them.
 Host objects have an identity besides their address: a policy keeps the object it was given.
 */
module Topology {
  import opened Sequences

  type Address = nat

  datatype Host = Host(address: Address, object: nat)

  type Table = map<Address, Host>

  datatype Notice = Added(host: Host) | Removed(host: Host)

  /** The host table and, for every policy, the notices it received so far. */
  datatype View = View(hosts: Table, traces: seq<seq<Notice>>)

  predicate Keyed(t: Table) { forall a :: a in t ==> t[a].address == a }

  function Tell(traces: seq<seq<Notice>>, n: Notice): seq<seq<Notice>>
  {
    seq(|traces|, i requires 0 <= i < |traces| => traces[i] + [n])
  }

  function HostAdd(v: View, h: Host): View
  {
    var known := if h.address in v.hosts then Tell(v.traces, Removed(v.hosts[h.address])) else v.traces;
    View(v.hosts[h.address := h], Tell(known, Added(h)))
  }

  function HostRemove(v: View, a: Address): View
  {
    if a !in v.hosts then v
    else View(v.hosts - {a}, Tell(v.traces, Removed(v.hosts[a])))
  }

  /** The hosts of `reported` at `order` that are not in `existing` are added, in that order. */
  function AddNew(v: View, existing: Table, reported: Table, order: seq<Address>): View
  {
    if order == [] then v
    else
      var a := order[|order| - 1];
      var u := AddNew(v, existing, reported, order[..|order| - 1]);
      if a in existing || a !in reported then u else HostAdd(u, reported[a])
  }

  function RemoveAll(v: View, order: seq<Address>): View
  {
    if order == [] then v else HostRemove(RemoveAll(v, order[..|order| - 1]), order[|order| - 1])
  }

  /** `order` and `gone` are the orders in which the reported and the left-over hosts are walked. */
  function UpdateHosts(v: View, reported: Table, order: seq<Address>, gone: seq<Address>): View
  {
    RemoveAll(AddNew(v, v.hosts, reported, order), gone)
  }

  lemma WalkNext(v: View, existing: Table, reported: Table, order: seq<Address>, i: nat)
    requires i < |order|
    ensures AddNew(v, existing, reported, order[..i + 1]) ==
      var u := AddNew(v, existing, reported, order[..i]);
      if order[i] in existing || order[i] !in reported then u else HostAdd(u, reported[order[i]])
    ensures RemoveAll(v, order[..i + 1]) == HostRemove(RemoveAll(v, order[..i]), order[i])
  {
    assert order[..i + 1][..i] == order[..i];
  }

  lemma WalkStart(v: View, existing: Table, reported: Table)
    ensures AddNew(v, existing, reported, []) == v && RemoveAll(v, []) == v
  {
  }

  ghost predicate Walks(v: View, reported: Table, order: seq<Address>, gone: seq<Address>)
  {
    && Distinct(order) && (forall a :: a in order <==> a in reported)
    && Distinct(gone) && (forall a :: a in gone <==> a in v.hosts && a !in reported)
  }

  // ---------------------------------------------------------------- what the policies saw

  /** What a policy believes that started from `start` and followed `trace`. An add of an address
      it has, or a removal of an object it does not have, leaves it with nothing to believe. */
  function Replay(start: Table, trace: seq<Notice>): Option<Table>
  {
    if trace == [] then Some(start)
    else
      match Replay(start, trace[..|trace| - 1])
      case None => None
      case Some(t) =>
        match trace[|trace| - 1]
        case Added(h) => if h.address in t then None else Some(t[h.address := h])
        case Removed(h) => if h.address in t && t[h.address] == h then Some(t - {h.address}) else None
  }

  /** Every policy believes exactly the host table, object for object. */
  ghost predicate Consistent(start: Table, v: View)
  {
    && Keyed(v.hosts)
    && forall i :: 0 <= i < |v.traces| ==> Replay(start, v.traces[i]) == Some(v.hosts)
  }

  /** After an add the table has this very object at its address and is otherwise as before, and every
      policy heard of it last, after the removal of the object it replaces if there was one. */
  lemma HostAddExact(v: View, h: Host)
    ensures var w := HostAdd(v, h);
      && w.hosts.Keys == v.hosts.Keys + {h.address} && w.hosts[h.address] == h
      && (forall a :: a in v.hosts && a != h.address ==> w.hosts[a] == v.hosts[a])
      && |w.traces| == |v.traces|
      && forall i :: 0 <= i < |v.traces| ==>
           w.traces[i] == v.traces[i] + (if h.address in v.hosts then [Removed(v.hosts[h.address])] else []) + [Added(h)]
  {
  }

  /** After a removal the address is gone, the others stay, and every policy heard once of the object that
      was there, if there was one. */
  lemma HostRemoveExact(v: View, a: Address)
    ensures var w := HostRemove(v, a);
      && w.hosts.Keys == v.hosts.Keys - {a} && (forall b :: b in w.hosts ==> w.hosts[b] == v.hosts[b])
      && |w.traces| == |v.traces|
      && forall i :: 0 <= i < |v.traces| ==>
           w.traces[i] == v.traces[i] + if a in v.hosts then [Removed(v.hosts[a])] else []
  {
  }

  lemma HostAddKeeps(start: Table, v: View, h: Host)
    requires Consistent(start, v)
    ensures Consistent(start, HostAdd(v, h))
  {
    var w := HostAdd(v, h);
    forall i | 0 <= i < |w.traces| ensures Replay(start, w.traces[i]) == Some(w.hosts) {
      var t := v.traces[i];
      if h.address in v.hosts {
        var r := Removed(v.hosts[h.address]);
        assert (t + [r])[..|t|] == t && (t + [r] + [Added(h)])[..|t| + 1] == t + [r];
        assert (v.hosts - {h.address})[h.address := h] == w.hosts;
      } else {
        assert (t + [Added(h)])[..|t|] == t;
      }
    }
  }

  lemma HostRemoveKeeps(start: Table, v: View, a: Address)
    requires Consistent(start, v)
    ensures Consistent(start, HostRemove(v, a))
  {
    var w := HostRemove(v, a);
    if a in v.hosts {
      forall i | 0 <= i < |w.traces| ensures Replay(start, w.traces[i]) == Some(w.hosts) {
        var t := v.traces[i];
        assert (t + [Removed(v.hosts[a])])[..|t|] == t;
      }
    }
  }

  lemma {:induction false} AddNewKeeps(start: Table, v: View, existing: Table, reported: Table, order: seq<Address>)
    requires Consistent(start, v)
    ensures Consistent(start, AddNew(v, existing, reported, order))
  {
    if order != [] {
      AddNewKeeps(start, v, existing, reported, order[..|order| - 1]);
      var a := order[|order| - 1];
      if a in reported {
        HostAddKeeps(start, AddNew(v, existing, reported, order[..|order| - 1]), reported[a]);
      }
    }
  }

  lemma {:induction false} RemoveAllKeeps(start: Table, v: View, order: seq<Address>)
    requires Consistent(start, v)
    ensures Consistent(start, RemoveAll(v, order))
  {
    if order != [] {
      RemoveAllKeeps(start, v, order[..|order| - 1]);
      HostRemoveKeeps(start, RemoveAll(v, order[..|order| - 1]), order[|order| - 1]);
    }
  }

  lemma UpdateHostsKeeps(start: Table, v: View, reported: Table, order: seq<Address>, gone: seq<Address>)
    requires Consistent(start, v)
    ensures Consistent(start, UpdateHosts(v, reported, order, gone))
  {
    AddNewKeeps(start, v, v.hosts, reported, order);
    RemoveAllKeeps(start, AddNew(v, v.hosts, reported, order), gone);
  }

  // ---------------------------------------------------------------- the incremental update

  /** The survivors keep the object they had, the newcomers bring theirs. */
  function Merged(hosts: Table, reported: Table): Table
  {
    map a | a in reported :: if a in hosts then hosts[a] else reported[a]
  }

  function Adds(existing: Table, reported: Table, order: seq<Address>): seq<Notice>
  {
    if order == [] then []
    else
      var a := order[|order| - 1];
      Adds(existing, reported, order[..|order| - 1]) +
      if a in existing || a !in reported then [] else [Added(reported[a])]
  }

  function Removes(hosts: Table, order: seq<Address>): seq<Notice>
  {
    if order == [] then []
    else
      var a := order[|order| - 1];
      Removes(hosts, order[..|order| - 1]) + if a in hosts then [Removed(hosts[a])] else []
  }

  lemma {:induction false} AddNewExact(v: View, reported: Table, order: seq<Address>)
    requires Keyed(reported) && Distinct(order) && forall a :: a in order ==> a in reported
    ensures var w := AddNew(v, v.hosts, reported, order);
      && (forall a :: a in w.hosts <==> a in v.hosts || a in order)
      && (forall a :: a in w.hosts ==> w.hosts[a] == if a in v.hosts then v.hosts[a] else reported[a])
      && |w.traces| == |v.traces|
      && forall i :: 0 <= i < |v.traces| ==> w.traces[i] == v.traces[i] + Adds(v.hosts, reported, order)
  {
    if order != [] {
      var a, rest := order[|order| - 1], order[..|order| - 1];
      assert order == rest + [a];
      AddNewExact(v, reported, rest);
      var u := AddNew(v, v.hosts, reported, rest);
      assert a !in rest;
      assert a !in v.hosts ==> a !in u.hosts;
    }
  }

  lemma {:induction false} RemoveAllExact(v: View, order: seq<Address>)
    requires Distinct(order)
    ensures var w := RemoveAll(v, order);
      && w.hosts == v.hosts - (set a | a in order)
      && |w.traces| == |v.traces|
      && forall i :: 0 <= i < |v.traces| ==> w.traces[i] == v.traces[i] + Removes(v.hosts, order)
  {
    if order != [] {
      var a, rest := order[|order| - 1], order[..|order| - 1];
      assert order == rest + [a];
      RemoveAllExact(v, rest);
      assert a !in rest;
    }
  }

  lemma {:induction false} RemovesAgree(s: Table, t: Table, order: seq<Address>)
    requires forall a :: a in order ==> a in s && a in t && s[a] == t[a]
    ensures Removes(s, order) == Removes(t, order)
  {
    if order != [] {
      var a, rest := order[|order| - 1], order[..|order| - 1];
      assert order == rest + [a];
      RemovesAgree(s, t, rest);
    }
  }

  /** One notice per host that came, none for the others, and no notice twice. */
  lemma {:induction false} AddsAreTheNewcomers(existing: Table, reported: Table, order: seq<Address>)
    requires Keyed(reported) && Distinct(order) && forall a :: a in order ==> a in reported
    ensures Distinct(Adds(existing, reported, order))
    ensures forall n :: n in Adds(existing, reported, order) <==>
      n.Added? && n.host.address in order && n.host.address !in existing && reported[n.host.address] == n.host
  {
    if order != [] {
      var a, rest := order[|order| - 1], order[..|order| - 1];
      assert order == rest + [a];
      AddsAreTheNewcomers(existing, reported, rest);
      assert a !in rest;
      DistinctAppend(Adds(existing, reported, rest), Added(reported[a]));
    }
  }

  lemma {:induction false} RemovesAreTheLeavers(hosts: Table, order: seq<Address>)
    requires Keyed(hosts) && Distinct(order)
    ensures Distinct(Removes(hosts, order))
    ensures forall n :: n in Removes(hosts, order) <==>
      n.Removed? && n.host.address in order && n.host.address in hosts && hosts[n.host.address] == n.host
  {
    if order != [] {
      var a, rest := order[|order| - 1], order[..|order| - 1];
      assert order == rest + [a];
      RemovesAreTheLeavers(hosts, rest);
      assert a !in rest;
      if a in hosts {
        DistinctAppend(Removes(hosts, rest), Removed(hosts[a]));
      }
    }
  }

  ghost function Newcomers(hosts: Table, reported: Table): set<Notice>
  {
    set a | a in reported && a !in hosts :: Added(reported[a])
  }

  ghost function Leavers(hosts: Table, reported: Table): set<Notice>
  {
    set a | a in hosts && a !in reported :: Removed(hosts[a])
  }

  lemma NoticesOnce(v: View, reported: Table, order: seq<Address>, gone: seq<Address>)
    requires Keyed(v.hosts) && Keyed(reported) && Walks(v, reported, order, gone)
    ensures multiset(Adds(v.hosts, reported, order)) == multiset(Newcomers(v.hosts, reported))
    ensures multiset(Removes(v.hosts, gone)) == multiset(Leavers(v.hosts, reported))
  {
    AddsAreTheNewcomers(v.hosts, reported, order);
    OncePerElement(Adds(v.hosts, reported, order), Newcomers(v.hosts, reported));
    RemovesAreTheLeavers(v.hosts, gone);
    OncePerElement(Removes(v.hosts, gone), Leavers(v.hosts, reported));
  }

  /** Every policy's trace grew by exactly one notice per newcomer, then one per leaver. */
  ghost predicate HeardOnce(v: View, w: View, reported: Table, came: seq<Notice>, went: seq<Notice>)
  {
    && multiset(came) == multiset(Newcomers(v.hosts, reported))
    && multiset(went) == multiset(Leavers(v.hosts, reported))
    && |w.traces| == |v.traces|
    && forall i :: 0 <= i < |v.traces| ==> w.traces[i] == v.traces[i] + came + went
  }

  /** After an update the table has exactly the reported addresses, survivors kept their objects,
      and every policy heard once of every host that came and once of every host that went. */
  lemma UpdateHostsExact(v: View, reported: Table, order: seq<Address>, gone: seq<Address>)
    requires Keyed(v.hosts) && Keyed(reported) && Walks(v, reported, order, gone)
    ensures UpdateHosts(v, reported, order, gone).hosts == Merged(v.hosts, reported)
    ensures HeardOnce(v, UpdateHosts(v, reported, order, gone), reported,
                      Adds(v.hosts, reported, order), Removes(v.hosts, gone))
  {
    hide Newcomers, Leavers, Adds, Removes, AddNew, RemoveAll;
    NoticesOnce(v, reported, order, gone);
    AddNewExact(v, reported, order);
    var u := AddNew(v, v.hosts, reported, order);
    RemoveAllExact(u, gone);
    RemovesAgree(u.hosts, v.hosts, gone);
  }

  lemma ReportedStay(v: View, reported: Table, order: seq<Address>, gone: seq<Address>)
    requires Keyed(v.hosts) && Keyed(reported) && Walks(v, reported, order, gone)
    ensures forall a :: a in UpdateHosts(v, reported, order, gone).hosts <==> a in reported
  {
    UpdateHostsExact(v, reported, order, gone);
  }

  lemma {:induction false} OncePerElement(s: seq<Notice>, elements: set<Notice>)
    requires Distinct(s) && forall n :: n in s <==> n in elements
    ensures multiset(s) == multiset(elements)
  {
    if s == [] {
      assert elements == {};
    } else {
      var n, rest := s[|s| - 1], s[..|s| - 1];
      assert s == rest + [n];
      DistinctAppend(rest, n);
      OncePerElement(rest, elements - {n});
      assert elements == elements - {n} + {n};
    }
  }

  // ---------------------------------------------------------------- the report

  /** A row of the peers table: the address made of it, if any, the address it gives for clients, and
      the one it listens on. */
  datatype Peer = Peer(address: Option<Address>, rpc: Address, listen: string)

  predicate Gives(peers: seq<Peer>, a: Address)
  {
    exists i :: 0 <= i < |peers| && peers[i].address == Some(a)
  }

  /** The hosts a control connection reports: its own host, then a new object per usable row of the
      peers table, later rows replacing earlier ones at the same address. */
  function Reported(connected: Host, peers: seq<Peer>, first: nat): Table
  {
    if peers == [] then map[connected.address := connected]
    else
      var k := |peers| - 1;
      var t := Reported(connected, peers[..k], first);
      if peers[k].address.None? then t else t[peers[k].address.value := Host(peers[k].address.value, first + k)]
  }

  /** Where the peers listen, by the address they give for clients. */
  function Listening(peers: seq<Peer>): map<Address, string>
  {
    if peers == [] then map[]
    else
      var k := |peers| - 1;
      var t := Listening(peers[..k]);
      if peers[k].address.None? then t else t[peers[k].rpc := peers[k].listen]
  }

  /** A report is keyed by its hosts' addresses and always has the host connected to, even when a
      row repeats that address or no row is usable. */
  lemma {:induction false} ReportHasConnected(connected: Host, peers: seq<Peer>, first: nat)
    ensures Keyed(Reported(connected, peers, first))
    ensures forall a :: a in Reported(connected, peers, first) <==> a == connected.address || Gives(peers, a)
  {
    if peers != [] {
      var k := |peers| - 1;
      ReportHasConnected(connected, peers[..k], first);
      forall a: Address ensures Gives(peers, a) <==> Gives(peers[..k], a) || peers[k].address == Some(a) {
        if Gives(peers[..k], a) {
          var i :| 0 <= i < k && peers[..k][i].address == Some(a);
          assert peers[i].address == Some(a);
        }
        if Gives(peers, a) && peers[k].address != Some(a) {
          var i :| 0 <= i < |peers| && peers[i].address == Some(a);
          assert peers[..k][i].address == Some(a);
        }
      }
    }
  }

  /** The host reported at an address is the one made of the last row that gives it, and without such a
      row the host connected to. */
  lemma {:induction false} ReportedIsLast(connected: Host, peers: seq<Peer>, first: nat, a: Address)
    requires a in Reported(connected, peers, first)
    ensures if Gives(peers, a) then
        exists i :: 0 <= i < |peers| && peers[i].address == Some(a) && Reported(connected, peers, first)[a] == Host(a, first + i)
          && forall j :: i < j < |peers| ==> peers[j].address != Some(a)
      else Reported(connected, peers, first)[a] == connected
  {
    if peers != [] {
      var k := |peers| - 1;
      if peers[k].address != Some(a) {
        ReportedIsLast(connected, peers[..k], first, a);
        assert forall j :: 0 <= j < k ==> peers[..k][j] == peers[j];
        if i :| 0 <= i < |peers| && peers[i].address == Some(a) { assert peers[..k][i].address == Some(a); }
      }
    }
  }

  /** The listen address kept for a client address is that of the last usable row that gives it. */
  lemma {:induction false} ListeningIsLast(peers: seq<Peer>, rpc: Address)
    ensures rpc in Listening(peers) <==> exists i :: 0 <= i < |peers| && Lists(peers, i, rpc)
    ensures rpc in Listening(peers) ==>
      exists i :: 0 <= i < |peers| && Lists(peers, i, rpc) && Listening(peers)[rpc] == peers[i].listen &&
        forall j :: i < j < |peers| ==> !Lists(peers, j, rpc)
  {
    if peers != [] {
      var k := |peers| - 1;
      ListeningIsLast(peers[..k], rpc);
      assert forall i :: 0 <= i < k ==> (Lists(peers[..k], i, rpc) <==> Lists(peers, i, rpc));
      if Lists(peers, k, rpc) {
        assert Listening(peers)[rpc] == peers[k].listen;
      } else if rpc in Listening(peers) {
        var i :| 0 <= i < k && Lists(peers[..k], i, rpc) && Listening(peers[..k])[rpc] == peers[..k][i].listen &&
          forall j :: i < j < k ==> !Lists(peers[..k], j, rpc);
        assert Lists(peers, i, rpc) && Listening(peers)[rpc] == peers[i].listen;
        assert forall j :: i < j < |peers| ==> !Lists(peers, j, rpc);
      }
    }
  }

  predicate Lists(peers: seq<Peer>, i: nat, rpc: Address)
    requires i < |peers|
  {
    peers[i].address.Some? && peers[i].rpc == rpc
  }
}
