/**
 Keeping a control connection: when it is lost the cluster waits for a timer or runs a connector
 until it has a new one, and closing has to catch whichever of these is going on.
 */
module ControlLoop {
  import opened Sequences
  import T = Topology

  /** The control connection is open, was lost while the cluster still holds it, or was let go. */
  datatype Link = Open(address: T.Address, asked: bool) | Lost | Released

  datatype Reconnector = Reconnector(address: T.Address, canceled: bool)

  datatype Note = Connected | Closed

  datatype Cluster = Cluster(
    view: T.View,
    connected: T.Host,
    link: Link,
    timer: bool,
    reconnector: Option<Reconnector>,
    draws: Option<nat>,                 // delays drawn from the reconnection schedule, if there is one
    closing: bool,
    log: seq<Note>)                     // history: what the listener was told

  /** One look at the reconnection schedule and, when it says not to wait, at the query plan. */
  datatype Poll = Poll(delay: nat, host: Option<T.Address>)

  datatype Outcome =
    | Success(reported: T.Table, order: seq<T.Address>, gone: seq<T.Address>)
    | Failure
    | WasCanceled

  datatype Event =
    | Close
    | ConnectionClosed(polls: seq<Poll>)
    | TimerFired(next: Option<T.Address>, polls: seq<Poll>)
    | ReconnectDone(outcome: Outcome, polls: seq<Poll>)
    | HostAdded(host: T.Host)
    | HostRemoved(address: T.Address)

  function Fresh(hosts: T.Table, policies: nat, connected: T.Host): Cluster
  {
    Cluster(T.View(hosts, seq(policies, i => [])), connected, Open(connected.address, false),
            false, None, None, false, [Connected])
  }

  // ---------------------------------------------------------------- operations

  function Drawn(s: Cluster): Cluster
  {
    s.(draws := Some(if s.draws.Some? then s.draws.value + 1 else 1))
  }

  /** `polls` is what the search gets to see; where it is used up the search is still going on. */
  function ScheduleReconnect(s: Cluster, polls: seq<Poll>): Cluster
    decreases |polls|, 0
  {
    if polls == [] then s
    else if polls[0].delay > 0 then Drawn(s).(timer := true)
    else HandleSchedule(Drawn(s), polls[0].host, polls[1..])
  }

  function HandleSchedule(s: Cluster, host: Option<T.Address>, polls: seq<Poll>): Cluster
    decreases |polls|, 1
  {
    if host.Some? then s.(reconnector := Some(Reconnector(host.value, false)))
    else ScheduleReconnect(s, polls)
  }

  function HandleClose(s: Cluster): Cluster
  {
    s.(link := Released, log := s.log + [Closed])
  }

  function InternalClose(s: Cluster): Cluster
  {
    var t := s.(closing := true);
    if s.timer then HandleClose(t.(timer := false))
    else if s.reconnector.Some? then t.(reconnector := Some(s.reconnector.value.(canceled := true)))
    else if s.link.Open? then t.(link := s.link.(asked := true))
    else t
  }

  function OnClose(s: Cluster, polls: seq<Poll>): Cluster
  {
    var t := s.(link := Lost);
    if s.closing then HandleClose(t) else ScheduleReconnect(t, polls)
  }

  function OnTimer(s: Cluster, host: Option<T.Address>, polls: seq<Poll>): Cluster
  {
    HandleSchedule(s.(timer := false), host, polls)
  }

  function Adopt(s: Cluster, address: T.Address, reported: T.Table, order: seq<T.Address>, gone: seq<T.Address>): Cluster
  {
    var view := T.UpdateHosts(s.view, reported, order, gone);
    s.(link := Open(address, false), view := view,
       connected := if address in view.hosts then view.hosts[address] else s.connected,
       draws := None, log := s.log + [Connected])
  }

  function OnReconnect(s: Cluster, outcome: Outcome, polls: seq<Poll>): Cluster
  {
    if s.reconnector.None? then s
    else
      var t := s.(reconnector := None);
      if s.closing then HandleClose(t)
      else match outcome
        case Success(reported, order, gone) => Adopt(t, s.reconnector.value.address, reported, order, gone)
        case Failure => ScheduleReconnect(t, polls)
        case WasCanceled => t
  }

  function Step(s: Cluster, e: Event): Cluster
  {
    match e
    case Close => InternalClose(s)
    case ConnectionClosed(polls) => OnClose(s, polls)
    case TimerFired(host, polls) => OnTimer(s, host, polls)
    case ReconnectDone(outcome, polls) => OnReconnect(s, outcome, polls)
    case HostAdded(h) => s.(view := T.HostAdd(s.view, h))
    case HostRemoved(a) => s.(view := T.HostRemove(s.view, a))
  }

  // ---------------------------------------------------------------- runs

  /** Looking for a host comes to an end with these polls. */
  predicate Settles(host: Option<T.Address>, polls: seq<Poll>)
    decreases |polls|
  {
    host.Some? || (polls != [] && (polls[0].delay > 0 || Settles(polls[0].host, polls[1..])))
  }

  predicate Useful(p: Poll) { p.delay > 0 || p.host.Some? }

  /** The search recurses without end exactly when no poll ever yields a wait or a host. */
  lemma {:induction false} SettlesExactlyWhen(polls: seq<Poll>)
    ensures Settles(None, polls) <==> exists p :: p in polls && Useful(p)
  {
    if polls != [] {
      SettlesExactlyWhen(polls[1..]);
      assert polls == [polls[0]] + polls[1..];
      assert Useful(polls[0]) ==> Settles(None, polls);
    }
  }

  /** The first `n` looks at a schedule and a plan that go on for ever. */
  function Script(delay: nat -> nat, plan: nat -> Option<T.Address>, n: nat): seq<Poll>
  {
    seq(n, i requires 0 <= i => Poll(delay(i), plan(i)))
  }

  /** The search never comes to an end exactly if the schedule never says to wait and the plan never
      has a host; otherwise it ends, at the first poll that has either. */
  lemma SearchNeverEndsExactlyWhen(delay: nat -> nat, plan: nat -> Option<T.Address>)
    ensures (forall n :: !Settles(None, Script(delay, plan, n))) <==>
            (forall k: nat :: delay(k) == 0 && plan(k).None?)
  {
    forall n: nat
      ensures Settles(None, Script(delay, plan, n)) <==> exists p :: p in Script(delay, plan, n) && Useful(p)
    {
      SettlesExactlyWhen(Script(delay, plan, n));
    }
    if k: nat :| !(delay(k) == 0 && plan(k).None?) {
      var polls := Script(delay, plan, k + 1);
      assert polls[k] in polls && Useful(polls[k]);
      assert Settles(None, polls);
    }
  }

  /** The first poll that yields a wait or a host. */
  ghost predicate FirstUseful(polls: seq<Poll>, k: nat)
  {
    k < |polls| && Useful(polls[k]) && forall i :: 0 <= i < k ==> !Useful(polls[i])
  }

  /** Where a search ends: at the first useful poll, with a timer exactly if that says to wait and
      otherwise with a connector to the host it has, after one delay drawn for each poll. */
  lemma {:induction false} SearchEndsAtFirstUseful(s: Cluster, polls: seq<Poll>, k: nat)
    requires FirstUseful(polls, k)
    ensures var t := ScheduleReconnect(s, polls);
      && t.draws == Some((if s.draws.Some? then s.draws.value else 0) + k + 1)
      && (if polls[k].delay > 0 then t.timer && t.reconnector == s.reconnector
          else t.timer == s.timer && t.reconnector == Some(Reconnector(polls[k].host.value, false)))
    decreases |polls|
  {
    if k > 0 {
      assert !Useful(polls[0]);
      assert forall i :: 0 <= i < |polls| - 1 ==> polls[1..][i] == polls[i + 1];
      SearchEndsAtFirstUseful(Drawn(s), polls[1..], k - 1);
    }
  }

  /** When the timer fires the next host of the plan is tried; without one the search goes on. */
  lemma TimerGoesToTheHost(s: Cluster, host: Option<T.Address>, polls: seq<Poll>, k: nat)
    requires host.Some? || FirstUseful(polls, k)
    requires s.timer && s.reconnector.None?
    ensures var t := Step(s, TimerFired(host, polls));
      if host.Some? then !t.timer && t.reconnector == Some(Reconnector(host.value, false)) && t.draws == s.draws
      else if polls[k].delay > 0 then t.timer && t.reconnector.None?
      else !t.timer && t.reconnector == Some(Reconnector(polls[k].host.value, false))
  {
    if host.None? { SearchEndsAtFirstUseful(s.(timer := false), polls, k); }
  }

  /** A lost connection and a failed connector start such a search. */
  lemma LossStartsTheSearch(s: Cluster, e: Event, polls: seq<Poll>, k: nat)
    requires FirstUseful(polls, k) && !s.closing && !s.timer
    requires (e == ConnectionClosed(polls) && s.reconnector.None?) ||
             (e == ReconnectDone(Failure, polls) && s.reconnector.Some?)
    ensures var t := Step(s, e);
      && t.timer == (polls[k].delay > 0)
      && t.reconnector == if polls[k].delay > 0 then None else Some(Reconnector(polls[k].host.value, false))
  {
    SearchEndsAtFirstUseful(if e.ConnectionClosed? then s.(link := Lost) else s.(reconnector := None), polls, k);
  }

  /** The cluster takes over what it is told about single hosts. */
  lemma HostEventsArrive(s: Cluster, h: T.Host, a: T.Address)
    ensures var t := Step(s, HostAdded(h)); h.address in t.view.hosts && t.view.hosts[h.address] == h
    ensures a !in Step(s, HostRemoved(a)).view.hosts
  {
    T.HostAddExact(s.view, h);
    T.HostRemoveExact(s.view, a);
  }

  /** What the event loop, the control connection and the control connector may deliver. */
  ghost predicate Enabled(s: Cluster, e: Event)
  {
    match e
    case Close => true
    case ConnectionClosed(polls) => s.link.Open? && (!s.closing ==> Settles(None, polls))
    case TimerFired(host, polls) => s.timer && Settles(host, polls)
    case ReconnectDone(outcome, polls) =>
      && s.reconnector.Some?
      && (!s.closing ==>
            match outcome
            case Success(reported, order, gone) =>
              && T.Keyed(reported) && s.reconnector.value.address in reported
              && T.Walks(s.view, reported, order, gone)
            case Failure => Settles(None, polls)
            case WasCanceled => s.reconnector.value.canceled)
    case HostAdded(h) => s.link.Open?
    case HostRemoved(a) => s.link.Open?
  }

  function Run(s: Cluster, es: seq<Event>): Cluster
  {
    if es == [] then s else Step(Run(s, es[..|es| - 1]), es[|es| - 1])
  }

  ghost predicate Legal(s: Cluster, es: seq<Event>)
  {
    es != [] ==> Legal(s, es[..|es| - 1]) && Enabled(Run(s, es[..|es| - 1]), es[|es| - 1])
  }

  // ---------------------------------------------------------------- what every step keeps

  /** A live control connection, a running timer, an active connector, or closed: one of them. */
  ghost predicate OnePhase(s: Cluster)
  {
    Bit(s.link.Open?) + Bit(s.timer) + Bit(s.reconnector.Some?) + Bit(s.link.Released?) == 1
  }

  /** A close request has been passed to whatever was going on, and to nothing else. */
  ghost predicate CloseReached(s: Cluster)
  {
    && (s.link.Released? ==> s.closing)
    && (s.closing ==> !s.timer)
    && (s.link.Open? ==> s.link.asked == s.closing)
    && (s.reconnector.Some? ==> s.reconnector.value.canceled == s.closing)
  }

  /** The listener hears of the end once, last, and exactly when the cluster has closed. */
  ghost predicate LogOk(s: Cluster)
  {
    && (s.link.Released? <==> Closed in s.log)
    && forall i :: 0 <= i < |s.log| - 1 ==> s.log[i] == Connected
  }

  /** Delays are drawn afresh after every success. */
  ghost predicate DrawsOk(s: Cluster)
  {
    !s.link.Released? ==> (s.draws.None? <==> s.link.Open?)
  }

  ghost predicate Inv(start: T.Table, s: Cluster)
  {
    OnePhase(s) && CloseReached(s) && LogOk(s) && DrawsOk(s) && T.Consistent(start, s.view)
  }

  lemma {:induction false} ScheduleStarts(s: Cluster, polls: seq<Poll>)
    requires Settles(None, polls) && !s.timer && s.reconnector.None?
    ensures ScheduleReconnect(s, polls).timer != ScheduleReconnect(s, polls).reconnector.Some?
    ensures ScheduleReconnect(s, polls).draws.Some?
    ensures ScheduleReconnect(s, polls).reconnector.Some? ==> !ScheduleReconnect(s, polls).reconnector.value.canceled
    ensures var t := ScheduleReconnect(s, polls);
      t == s.(timer := t.timer, reconnector := t.reconnector, draws := t.draws)
    decreases |polls|
  {
    if polls[0].delay == 0 && polls[0].host.None? {
      ScheduleStarts(Drawn(s), polls[1..]);
    }
  }

  lemma SearchKeeps(start: T.Table, s: Cluster, polls: seq<Poll>)
    requires T.Consistent(start, s.view) && Settles(None, polls)
    requires !s.timer && s.reconnector.None? && s.link.Lost? && !s.closing && LogOk(s)
    ensures Inv(start, ScheduleReconnect(s, polls))
  {
    hide T.Consistent;
    ScheduleStarts(s, polls);
  }

  lemma AdoptKeeps(start: T.Table, s: Cluster, outcome: Outcome)
    requires Inv(start, s) && !s.closing && outcome.Success? && Enabled(s, ReconnectDone(outcome, []))
    ensures Inv(start, OnReconnect(s, outcome, []))
  {
    hide T.UpdateHosts, T.Consistent, T.Walks, T.Keyed;
    T.UpdateHostsKeeps(start, s.view, outcome.reported, outcome.order, outcome.gone);
  }

  lemma StepKeeps(start: T.Table, s: Cluster, e: Event)
    requires Inv(start, s) && Enabled(s, e)
    ensures Inv(start, Step(s, e))
  {
    hide T.UpdateHosts, T.Consistent, T.Walks, T.Keyed, T.HostAdd, T.HostRemove;
    match e
    case Close =>
    case ConnectionClosed(polls) =>
      if !s.closing { SearchKeeps(start, s.(link := Lost), polls); }
    case TimerFired(host, polls) =>
      if host.None? { SearchKeeps(start, s.(timer := false), polls); }
    case ReconnectDone(outcome, polls) =>
      if !s.closing {
        match outcome
        case Success(_, _, _) => AdoptKeeps(start, s, outcome);
        case Failure => SearchKeeps(start, s.(reconnector := None), polls);
        case WasCanceled =>
      }
    case HostAdded(h) => T.HostAddKeeps(start, s.view, h);
    case HostRemoved(a) => T.HostRemoveKeeps(start, s.view, a);
  }

  lemma {:induction false} RunKeeps(start: T.Table, s: Cluster, es: seq<Event>)
    requires Inv(start, s) && Legal(s, es)
    ensures Inv(start, Run(s, es))
  {
    hide Inv;
    if es != [] {
      RunKeeps(start, s, es[..|es| - 1]);
      StepKeeps(start, Run(s, es[..|es| - 1]), es[|es| - 1]);
    }
  }

  lemma {:induction false} RunConcat(s: Cluster, es: seq<Event>, fs: seq<Event>)
    ensures Run(s, es + fs) == Run(Run(s, es), fs)
    ensures Legal(s, es + fs) <==> Legal(s, es) && Legal(Run(s, es), fs)
  {
    if fs == [] {
      assert es + fs == es;
    } else {
      assert (es + fs)[..|es + fs| - 1] == es + fs[..|fs| - 1];
      RunConcat(s, es, fs[..|fs| - 1]);
    }
  }

  // ---------------------------------------------------------------- main results

  /** In every reachable state the cluster is in exactly one phase, and every policy that followed
      its notices knows the same hosts, by address and by object, as the cluster. */
  lemma AlwaysOnePhase(hosts: T.Table, policies: nat, connected: T.Host, es: seq<Event>)
    requires T.Keyed(hosts) && Legal(Fresh(hosts, policies, connected), es)
    ensures OnePhase(Run(Fresh(hosts, policies, connected), es))
    ensures T.Consistent(hosts, Run(Fresh(hosts, policies, connected), es).view)
  {
    RunKeeps(hosts, Fresh(hosts, policies, connected), es);
  }

  lemma {:induction false} ClosingIsAsked(s: Cluster, es: seq<Event>)
    requires !s.closing && Close !in es
    ensures !Run(s, es).closing
  {
    if es != [] {
      ClosingIsAsked(s, es[..|es| - 1]);
      var t, e := Run(s, es[..|es| - 1]), es[|es| - 1];
      match e
      case Close => assert false;
      case ConnectionClosed(polls) => ScheduleFrame(t.(link := Lost), polls);
      case TimerFired(host, polls) => ScheduleFrame(t.(timer := false), polls);
      case ReconnectDone(outcome, polls) => ScheduleFrame(t.(reconnector := None), polls);
      case HostAdded(_) =>
      case HostRemoved(_) =>
    }
  }

  lemma {:induction false} ScheduleFrame(s: Cluster, polls: seq<Poll>)
    ensures ScheduleReconnect(s, polls).closing == s.closing
    decreases |polls|
  {
    if polls != [] && polls[0].delay == 0 && polls[0].host.None? {
      ScheduleFrame(Drawn(s), polls[1..]);
    }
  }

  predicate Ends(e: Event) { e.ConnectionClosed? || e.ReconnectDone? }

  /** From the moment a close was asked for, the first end of the connection or connector, and
      nothing else, closes the cluster. */
  lemma {:induction false} ClosingRun(start: T.Table, s: Cluster, es: seq<Event>)
    requires Inv(start, s) && s.closing && Legal(s, es)
    ensures Run(s, es).closing
    ensures Run(s, es).link.Released? <==> s.link.Released? || exists e :: e in es && Ends(e)
  {
    if es != [] {
      var before, e := es[..|es| - 1], es[|es| - 1];
      assert es == before + [e];
      ClosingRun(start, s, before);
      RunKeeps(start, s, before);
      assert e in es && forall x :: x in es <==> x in before || x == e;
      assert Run(s, es) == Step(Run(s, before), e);
    }
  }

  /** Whatever happened before the first close request and whatever follows it, further requests
      included: the cluster closes exactly when the timer was running or what was going on has
      ended since, and then it has told its listener once, as the last thing it said. */
  lemma ClosesExactlyOnce(hosts: T.Table, policies: nat, connected: T.Host, before: seq<Event>, after: seq<Event>)
    requires T.Keyed(hosts) && Close !in before
    requires Legal(Fresh(hosts, policies, connected), before + [Close] + after)
    ensures var s := Run(Fresh(hosts, policies, connected), before + [Close] + after);
      && (s.link.Released? <==>
            Run(Fresh(hosts, policies, connected), before).timer || exists e :: e in after && Ends(e))
      && multiset(s.log)[Closed] == Bit(s.link.Released?)
      && (s.link.Released? ==> s.log[|s.log| - 1] == Closed)
  {
    var s := Fresh(hosts, policies, connected);
    RunConcat(s, before + [Close], after);
    RunConcat(s, before, [Close]);
    var m := Run(s, before);
    assert Run(m, [Close]) == Step(Run(m, []), Close);
    RunKeeps(hosts, s, before + [Close]);
    RunKeeps(hosts, s, before);
    ClosingIsAsked(s, before);
    ClosingRun(hosts, Run(s, before + [Close]), after);
    RunKeeps(hosts, s, before + [Close] + after);
    ClosedOnce(Run(s, before + [Close] + after));
  }

  lemma ClosedOnce(s: Cluster)
    requires LogOk(s)
    ensures multiset(s.log)[Closed] == Bit(s.link.Released?)
    ensures s.link.Released? ==> s.log[|s.log| - 1] == Closed
  {
    if s.log != [] {
      var rest := s.log[..|s.log| - 1];
      assert s.log == rest + [s.log[|s.log| - 1]];
      assert Closed !in rest;
    }
  }

  /** Without a close request the cluster never closes, whatever it loses. */
  lemma NeverClosesUnasked(hosts: T.Table, policies: nat, connected: T.Host, es: seq<Event>)
    requires T.Keyed(hosts) && Legal(Fresh(hosts, policies, connected), es) && Close !in es
    ensures Closed !in Run(Fresh(hosts, policies, connected), es).log
  {
    RunKeeps(hosts, Fresh(hosts, policies, connected), es);
    ClosingIsAsked(Fresh(hosts, policies, connected), es);
  }

  /** A reconnect that succeeds leaves exactly the reported addresses, finds the host it connected
      to among them, and told every policy once about each difference. */
  lemma ReconnectUpdates(hosts: T.Table, policies: nat, connected: T.Host, es: seq<Event>, outcome: Outcome,
                         polls: seq<Poll>)
    requires T.Keyed(hosts) && outcome.Success?
    requires Legal(Fresh(hosts, policies, connected), es + [ReconnectDone(outcome, polls)])
    requires !Run(Fresh(hosts, policies, connected), es).closing
    ensures var s := Run(Fresh(hosts, policies, connected), es);
      var t := Run(Fresh(hosts, policies, connected), es + [ReconnectDone(outcome, polls)]);
      && t.view.hosts == T.Merged(s.view.hosts, outcome.reported)
      && s.reconnector.Some? && t.link == Open(s.reconnector.value.address, false)
      && t.link.address in t.view.hosts && t.connected == t.view.hosts[t.link.address]
      && t.log == s.log + [Connected] && t.draws.None? && t.reconnector.None?
      && T.HeardOnce(s.view, t.view, outcome.reported,
                     T.Adds(s.view.hosts, outcome.reported, outcome.order), T.Removes(s.view.hosts, outcome.gone))
  {
    hide T.HeardOnce, T.UpdateHosts;
    var s0 := Fresh(hosts, policies, connected);
    var e := ReconnectDone(outcome, polls);
    assert (es + [e])[..|es + [e]| - 1] == es;
    RunKeeps(hosts, s0, es);
    T.UpdateHostsExact(Run(s0, es).view, outcome.reported, outcome.order, outcome.gone);
  }
}
