/**
 Connecting to a cluster: the contact points are tried in parallel, each with its own descent
 through the protocol versions; the first success wins, and the client is told once.
 */
module ClusterStartup {
  import opened Sequences

  type Address = nat

  // ---------------------------------------------------------------- protocol versions

  const V3: int := 3
  const V4: int := 4
  const DSEV1: int := 0x41
  const DSEV2: int := 0x42
  const NO_VERSION: int := -1

  /** Bit 6 marks the DSE protocol versions. */
  predicate IsDse(v: int) { (v / 0x40) % 2 == 1 }

  predicate IsValid(v: int) { V3 <= v <= if IsDse(v) then DSEV2 else V4 }

  function Previous(v: int): int
  {
    if v <= V3 then NO_VERSION
    else if IsDse(v) && v <= DSEV1 then V4
    else v - 1
  }

  /** How often a version can still be lowered. */
  function Descents(v: int): nat
    decreases if v > 0 then v else 0
  {
    if IsValid(Previous(v)) then 1 + Descents(Previous(v)) else 0
  }

  /** The versions the driver takes for valid: v3, v4, DSE v1 and v2, and the number below DSE v1. */
  lemma ValidExactly(v: int)
    ensures IsValid(v) <==> v in {3, 4, 0x40, 0x41, 0x42}
    ensures Previous(4) == 3 && Previous(0x41) == 4 && Previous(0x42) == 0x41 && !IsValid(Previous(3))
  {
  }

  /** Lowering a version yields a strictly lower one and never skips a valid one below it, except
      for the number 0x40, which passes the test for validity although no protocol has it. */
  lemma PreviousIsNextLower(v: int, w: int)
    requires IsValid(v)
    ensures IsValid(Previous(v)) ==> Previous(v) < v
    ensures IsValid(w) && w < v && w != 0x40 ==> IsValid(Previous(v)) && w <= Previous(v)
  {
  }

  // ---------------------------------------------------------------- the connector

  datatype Control = Control(id: nat, address: Address, version: int)

  datatype Code = Ok | Canceled | NoHosts | InvalidProtocol | Ssl | Auth

  datatype Report = Report(code: Code, cluster: Option<int>, version: int)

  datatype Connector = Connector(
    version: int,
    resolved: bool,
    remaining: nat,
    connectors: map<Address, Control>,
    running: seq<Control>,              // control connectors that have yet to call back
    created: nat,
    told: set<nat>,                     // control connectors that were told to cancel
    cluster: Option<int>,               // the version the cluster was created with
    code: Code,
    resolverTold: bool,                 // the resolver was told to cancel
    clusterTold: bool,                  // the cluster created was told to close
    calls: nat,                         // history: invocations of the client callback
    report: Option<Report>)             // history: what the callback saw

  function Fresh(version: int): Connector
  {
    Connector(version, false, 0, map[], [], 0, {}, None, Ok, false, false, 0, None)
  }

  datatype Outcome =
    | Connected(hostFound: bool, planHasHost: bool)
    | WasCanceled
    | BadProtocol
    | SslError
    | AuthError
    | OtherError

  datatype Event =
    | Resolved(addresses: seq<Address>)
    | Finished(control: Control, outcome: Outcome)
    | Cancel

  function Finish(s: Connector): Connector
  {
    s.(calls := s.calls + 1, report := Some(Report(s.code, s.cluster, s.version)),
       connectors := map[], cluster := None)
  }

  function MaybeFinish(s: Connector): Connector
  {
    if s.remaining == 0 then s
    else if s.remaining == 1 then Finish(s.(remaining := 0))
    else s.(remaining := s.remaining - 1)
  }

  function OnError(s: Connector, code: Code): Connector
  {
    MaybeFinish(s.(code := code))
  }

  function Start(s: Connector, a: Address, version: int): Connector
  {
    var c := Control(s.created, a, version);
    s.(connectors := s.connectors[a := c], running := s.running + [c], created := s.created + 1)
  }

  function StartAll(s: Connector, addresses: seq<Address>): Connector
  {
    if addresses == [] then s
    else Start(StartAll(s, addresses[..|addresses| - 1]), addresses[|addresses| - 1], s.version)
  }

  function OnResolve(s: Connector, addresses: seq<Address>): Connector
  {
    var t := s.(resolved := true);
    if s.code.Canceled? then Finish(t)
    else if addresses == [] then Finish(t.(code := NoHosts))
    else StartAll(t.(remaining := |addresses|), addresses)
  }

  /** Cancels every control connector the map knows, except the one at `winner`. */
  function CancelOthers(s: Connector, winner: Option<Address>): Connector
  {
    s.(told := s.told + set a | a in s.connectors && winner != Some(a) :: s.connectors[a].id)
  }

  function OnConnected(s: Connector, c: Control, hostFound: bool, planHasHost: bool): Connector
  {
    if !hostFound || !planHasHost then OnError(s, NoHosts)
    else
      MaybeFinish(CancelOthers(s.(cluster := Some(c.version), code := Ok, version := c.version), Some(c.address)))
  }

  function OnConnect(s: Connector, c: Control, outcome: Outcome): Connector
  {
    var t := s.(running := Without(s.running, c));
    if s.cluster.Some? || s.code.Canceled? then MaybeFinish(t)
    else match outcome
      case Connected(hostFound, planHasHost) => OnConnected(t, c, hostFound, planHasHost)
      case BadProtocol =>
        if IsValid(Previous(c.version)) then Start(t, c.address, Previous(c.version))
        else OnError(t, InvalidProtocol)
      case SslError => OnError(t, Ssl)
      case AuthError => OnError(t, Auth)
      case _ => OnError(t, NoHosts)
  }

  /** The resolver is there until the client has been called back. */
  function OnCancel(s: Connector): Connector
  {
    CancelOthers(s.(code := Canceled, resolverTold := s.resolverTold || s.calls == 0), None)
      .(clusterTold := s.clusterTold || s.cluster.Some?)
  }

  function Step(s: Connector, e: Event): Connector
  {
    match e
    case Resolved(addresses) => OnResolve(s, addresses)
    case Finished(c, outcome) => OnConnect(s, c, outcome)
    case Cancel => OnCancel(s)
  }

  /** The resolver calls back once, and so does every control connector; one that was not told to
      cancel does not report that it was canceled. */
  predicate Enabled(s: Connector, e: Event)
  {
    match e
    case Resolved(_) => !s.resolved
    case Finished(c, outcome) => c in s.running && (outcome.WasCanceled? ==> c.id in s.told)
    case Cancel => true
  }

  predicate Legal(s: Connector, es: seq<Event>)
    decreases |es|
  {
    es == [] || (Enabled(s, es[0]) && Legal(Step(s, es[0]), es[1..]))
  }

  function Run(s: Connector, es: seq<Event>): Connector
    decreases |es|
  {
    if es == [] then s else Run(Step(s, es[0]), es[1..])
  }

  // ---------------------------------------------------------------- the invariant

  ghost predicate RunningOk(s: Connector)
  {
    && Distinct(s.running)
    && (forall c :: c in s.running ==> c.id < s.created)
    && s.remaining == |s.running|
  }

  ghost predicate ReportOk(s: Connector)
  {
    && s.report.Some?
    && var r := s.report.value;
       && (r.cluster.Some? ==> r.version == r.cluster.value)
       && if r.code.Canceled? then s.code.Canceled? else r.code.Ok? <==> r.cluster.Some?
  }

  ghost predicate ProgressOk(s: Connector)
  {
    if !s.resolved then
      && s.running == [] && s.calls == 0 && s.report.None? && s.cluster.None?
      && (s.code.Ok? || s.code.Canceled?) && s.told == {} && s.connectors == map[]
    else if s.running != [] then
      && s.calls == 0 && s.report.None?
      && (s.cluster.Some? ==> (s.code.Ok? || s.code.Canceled?) && s.version == s.cluster.value)
      && (s.told != {} ==> s.cluster.Some? || s.code.Canceled?)
    else
      s.calls == 1 && s.cluster.None? && s.connectors == map[] && ReportOk(s)
  }

  ghost predicate Inv(s: Connector)
  {
    RunningOk(s) && ProgressOk(s)
  }

  lemma {:induction false} StartAllRunning(s: Connector, addresses: seq<Address>)
    requires s.running == []
    ensures var t := StartAll(s, addresses);
            && Distinct(t.running) && (forall c :: c in t.running ==> c.id < t.created) && |t.running| == |addresses|
            && (forall c :: c in t.running ==> c.version == s.version)
            && t == s.(connectors := t.connectors, running := t.running, created := t.created)
    decreases |addresses|
  {
    if addresses != [] {
      var init := addresses[..|addresses| - 1];
      StartAllRunning(s, init);
    }
  }

  lemma ResolvedKeeps(s: Connector, addresses: seq<Address>)
    requires Inv(s) && !s.resolved
    ensures Inv(OnResolve(s, addresses))
  {
    StartAllRunning(s.(resolved := true, remaining := |addresses|), addresses);
  }

  /** One control connector less: the client is called back if it was the last one. */
  lemma MaybeFinishKeeps(s: Connector)
    requires s.resolved && s.remaining == |s.running| + 1 && s.calls == 0 && s.report.None?
    requires Distinct(s.running) && forall c :: c in s.running ==> c.id < s.created
    requires s.cluster.Some? ==> (s.code.Ok? || s.code.Canceled?) && s.version == s.cluster.value
    requires s.told != {} ==> s.cluster.Some? || s.code.Canceled?
    requires s.running == [] && s.cluster.None? ==> !s.code.Ok?
    ensures Inv(MaybeFinish(s))
  {
  }

  lemma FinishedKeeps(s: Connector, c: Control, outcome: Outcome)
    requires Inv(s) && Enabled(s, Finished(c, outcome))
    ensures Inv(OnConnect(s, c, outcome))
  {
    WithoutDistinct(s.running, c);
    var t := s.(running := Without(s.running, c));
    assert s.resolved;
    if s.cluster.Some? || s.code.Canceled? {
      MaybeFinishKeeps(t);
    } else {
      FailedKeeps(t, NoHosts);
      FailedKeeps(t, InvalidProtocol);
      FailedKeeps(t, Ssl);
      FailedKeeps(t, Auth);
      MaybeFinishKeeps(CancelOthers(t.(cluster := Some(c.version), code := Ok, version := c.version), Some(c.address)));
      hide MaybeFinish, OnError, CancelOthers;
    }
  }

  lemma FailedKeeps(s: Connector, code: Code)
    requires s.resolved && s.remaining == |s.running| + 1 && s.calls == 0 && s.report.None?
    requires s.cluster.None? && s.told == {}
    requires Distinct(s.running) && forall c :: c in s.running ==> c.id < s.created
    requires !code.Ok? && !code.Canceled?
    ensures Inv(OnError(s, code))
  {
    MaybeFinishKeeps(s.(code := code));
  }

  lemma StepKeeps(s: Connector, e: Event)
    requires Inv(s) && Enabled(s, e)
    ensures Inv(Step(s, e))
  {
    match e
    case Resolved(addresses) => ResolvedKeeps(s, addresses);
    case Finished(c, outcome) => FinishedKeeps(s, c, outcome);
    case Cancel =>
  }

  lemma {:induction false} RunKeeps(s: Connector, es: seq<Event>)
    requires Inv(s) && Legal(s, es)
    ensures Inv(Run(s, es))
    decreases |es|
  {
    if es != [] {
      StepKeeps(s, es[0]);
      RunKeeps(Step(s, es[0]), es[1..]);
    }
  }

  /** Whatever the order in which the control connectors finish and whenever a cancel arrives, the
      client is called back at most once, and has been once nothing is left to wait for. Unless it
      was canceled, it sees success exactly if a cluster was created, with the winner's version. */
  lemma CallsBackOnce(version: int, es: seq<Event>)
    requires Legal(Fresh(version), es)
    ensures var s := Run(Fresh(version), es);
      && s.calls <= 1
      && (s.calls == 1 <==> s.resolved && s.running == [])
      && (s.calls == 1 <==> s.report.Some?)
      && (s.report.Some? && !s.report.value.code.Canceled? ==>
            && (s.report.value.code.Ok? <==> s.report.value.cluster.Some?)
            && (s.report.value.cluster.Some? ==> s.report.value.version == s.report.value.cluster.value))
      && (s.report.Some? && s.report.value.code.Canceled? ==> Cancel in es)
  {
    RunKeeps(Fresh(version), es);
    if Cancel !in es { NotCanceled(Fresh(version), es); }
  }

  predicate Wins(e: Event) { e.Finished? && e.outcome == Connected(true, true) }

  /** The version of the control connector that wins: the first to connect, with its host in the report
      and in the plan, before any cancel. */
  function Winner(es: seq<Event>): Option<int>
  {
    if es == [] || es[0].Cancel? then None
    else if Wins(es[0]) then Some(es[0].control.version)
    else Winner(es[1..])
  }

  function Obtained(s: Connector): Option<int>
  {
    if s.report.Some? then s.report.value.cluster else s.cluster
  }

  /** Nothing that is still to come decides who wins. */
  predicate Decided(s: Connector) { s.report.Some? || s.cluster.Some? || s.code.Canceled? }

  lemma StepDecides(s: Connector, e: Event)
    requires Inv(s) && Enabled(s, e)
    ensures var t := Step(s, e);
      if Decided(s) then Decided(t) && Obtained(t) == Obtained(s)
      else if Wins(e) then Decided(t) && Obtained(t) == Some(e.control.version)
      else Obtained(t) == None && (Decided(t) <==> e.Cancel? || t.report.Some?)
  {
    hide IsValid, Previous, MaybeFinish;
    forall q: Connector ensures ObtainedStays(q, MaybeFinish(q)) { MaybeFinishObtains(q); }
    if e.Resolved? { StartAllRunning(s.(resolved := true, remaining := |e.addresses|), e.addresses); }
  }

  /** Counting down changes neither what was obtained nor that there is an error. */
  ghost predicate ObtainedStays(s: Connector, t: Connector)
  {
    t.code == s.code && (s.report.None? ==> Obtained(t) == Obtained(s) && (t.report.None? ==> t.cluster == s.cluster))
  }

  lemma MaybeFinishObtains(s: Connector)
    ensures ObtainedStays(s, MaybeFinish(s))
  {
  }

  /** Once the client has been called back nobody is left who could win. */
  lemma NobodyLeft(s: Connector, es: seq<Event>)
    requires Inv(s) && s.report.Some? && Legal(s, es)
    ensures Winner(es) == None
  {
    if es != [] { assert es[0].Cancel?; }
  }

  lemma {:induction false} RunDecides(s: Connector, es: seq<Event>)
    requires Inv(s) && Legal(s, es)
    ensures Obtained(Run(s, es)) == if Decided(s) then Obtained(s) else Winner(es)
    decreases |es|
  {
    if es != [] {
      hide Inv, Step, Enabled;
      StepKeeps(s, es[0]);
      StepDecides(s, es[0]);
      RunDecides(Step(s, es[0]), es[1..]);
      if Step(s, es[0]).report.Some? { NobodyLeft(Step(s, es[0]), es[1..]); }
    }
  }

  /** The client gets a cluster exactly if a control connector wins, and it is told the version that
      very control connector spoke, whatever versions were tried before. */
  lemma ReportsTheWinner(version: int, es: seq<Event>)
    requires Legal(Fresh(version), es)
    ensures var s := Run(Fresh(version), es);
      s.report.Some? ==>
        && s.report.value.cluster == Winner(es)
        && (Winner(es).Some? ==> s.report.value.version == Winner(es).value)
  {
    RunKeeps(Fresh(version), es);
    RunDecides(Fresh(version), es);
  }

  lemma {:induction false} StartAllCode(s: Connector, addresses: seq<Address>)
    ensures StartAll(s, addresses).code == s.code && StartAll(s, addresses).report == s.report
    decreases |addresses|
  {
    if addresses != [] { StartAllCode(s, addresses[..|addresses| - 1]); }
  }

  /** What counting down does not touch. */
  ghost predicate SameBut(s: Connector, t: Connector)
  {
    && t.running == s.running && t.created == s.created && t.code == s.code && t.resolved == s.resolved
    && (t.connectors == s.connectors || t.connectors == map[])
    && (t.report == s.report || t.report == Some(Report(s.code, s.cluster, s.version)))
  }

  lemma MaybeFinishSame(s: Connector)
    ensures SameBut(s, MaybeFinish(s))
  {
  }

  lemma NotCanceledStep(s: Connector, e: Event)
    requires !s.code.Canceled? && (s.report.Some? ==> !s.report.value.code.Canceled?) && !e.Cancel?
    ensures !Step(s, e).code.Canceled? && (Step(s, e).report.Some? ==> !Step(s, e).report.value.code.Canceled?)
  {
    hide MaybeFinish, IsValid, Previous;
    forall q: Connector ensures SameBut(q, MaybeFinish(q)) { MaybeFinishSame(q); }
    if e.Resolved? { StartAllCode(s.(resolved := true, remaining := |e.addresses|), e.addresses); }
  }

  lemma {:induction false} NotCanceled(s: Connector, es: seq<Event>)
    requires !s.code.Canceled? && (s.report.Some? ==> !s.report.value.code.Canceled?) && Cancel !in es
    ensures !Run(s, es).code.Canceled? && (Run(s, es).report.Some? ==> !Run(s, es).report.value.code.Canceled?)
    decreases |es|
  {
    if es != [] {
      assert es[0] in es;
      NotCanceledStep(s, es[0]);
      NotCanceled(Step(s, es[0]), es[1..]);
    }
  }

  // ---------------------------------------------------------------- who is told to cancel

  /** The map knows every running control connector; once somebody has won or the client has given
      up, all that still run have been told. */
  ghost predicate Heard(s: Connector)
  {
    s.resolved && s.calls == 0 ==>
      && (forall c :: c in s.running ==> c.address in s.connectors && s.connectors[c.address] == c)
      && (s.cluster.Some? || s.code.Canceled? ==> forall c :: c in s.running ==> c.id in s.told)
  }

  lemma {:induction false} StartAllHeard(s: Connector, addresses: seq<Address>)
    requires s.running == [] && Distinct(addresses)
    ensures var t := StartAll(s, addresses);
      && (forall c :: c in t.running ==> c.address in t.connectors && t.connectors[c.address] == c)
      && (forall c :: c in t.running ==> c.address in addresses)
    decreases |addresses|
  {
    if addresses != [] {
      var n := |addresses| - 1;
      assert addresses == addresses[..n] + [addresses[n]];
      DistinctAppend(addresses[..n], addresses[n]);
      StartAllHeard(s, addresses[..n]);
    }
  }

  lemma StepHeard(s: Connector, e: Event)
    requires Inv(s) && Heard(s) && Enabled(s, e) && (e.Resolved? ==> Distinct(e.addresses))
    ensures Heard(Step(s, e))
  {
    match e
    case Resolved(addresses) =>
      StartAllHeard(s.(resolved := true, remaining := |addresses|), addresses);
      StartAllRunning(s.(resolved := true, remaining := |addresses|), addresses);
    case Finished(c, outcome) => FinishedHeard(s, c, outcome);
    case Cancel =>
  }

  lemma FinishedHeard(s: Connector, c: Control, outcome: Outcome)
    requires Inv(s) && Heard(s) && Enabled(s, Finished(c, outcome))
    ensures Heard(OnConnect(s, c, outcome))
  {
    hide IsValid, Previous;
    assert forall d :: d in Without(s.running, c) ==> d in s.running && d.address != c.address;
    if outcome.Connected? && !s.cluster.Some? && !s.code.Canceled? {
      WinnerHeard(s.(running := Without(s.running, c)), c, outcome.hostFound, outcome.planHasHost);
    }
  }

  lemma WinnerHeard(s: Connector, c: Control, hostFound: bool, planHasHost: bool)
    requires Heard(s) && s.resolved && s.calls == 0 && s.cluster.None? && !s.code.Canceled?
    requires forall d :: d in s.running ==> d.address != c.address
    ensures Heard(OnConnected(s, c, hostFound, planHasHost))
  {
  }

  predicate DistinctContacts(es: seq<Event>)
  {
    forall e :: e in es && e.Resolved? ==> forall i, j :: 0 <= i < j < |e.addresses| ==> e.addresses[i] != e.addresses[j]
  }

  lemma {:induction false} RunHeard(s: Connector, es: seq<Event>)
    requires Inv(s) && Heard(s) && Legal(s, es) && DistinctContacts(es)
    ensures Heard(Run(s, es))
    decreases |es|
  {
    if es != [] {
      hide Inv, Heard, Step, Enabled;
      assert es[0] in es;
      StepHeard(s, es[0]);
      StepKeeps(s, es[0]);
      RunHeard(Step(s, es[0]), es[1..]);
    }
  }

  /** Before one has won or the client canceled, no control connector has been told to cancel. From that
      moment on every one still running has, if the contact points are distinct; whom a win or a cancel
      reaches otherwise is below. */
  lemma StopsTheOthers(version: int, es: seq<Event>)
    requires Legal(Fresh(version), es)
    ensures var s := Run(Fresh(version), es);
      s.resolved && s.calls == 0 ==>
        if s.cluster.Some? || s.code.Canceled? then
          DistinctContacts(es) ==> forall c :: c in s.running ==> c.id in s.told
        else s.told == {}
  {
    RunKeeps(Fresh(version), es);
    if DistinctContacts(es) { RunHeard(Fresh(version), es); }
  }

  /** The map holds control connectors under their addresses, and no two have the same number. */
  ghost predicate IdsOk(s: Connector)
  {
    && (forall a :: a in s.connectors ==> s.connectors[a].address == a && s.connectors[a].id < s.created)
    && (forall a, c :: a in s.connectors && c in s.running && s.connectors[a].id == c.id ==> s.connectors[a] == c)
  }

  lemma StartIds(s: Connector, a: Address, version: int)
    requires IdsOk(s) && forall c :: c in s.running ==> c.id < s.created
    ensures IdsOk(Start(s, a, version)) && forall c :: c in Start(s, a, version).running ==> c.id < s.created + 1
  {
  }

  lemma {:induction false} StartAllKeepsIds(s: Connector, addresses: seq<Address>)
    requires IdsOk(s) && forall c :: c in s.running ==> c.id < s.created
    ensures IdsOk(StartAll(s, addresses))
    ensures forall c :: c in StartAll(s, addresses).running ==> c.id < StartAll(s, addresses).created
    decreases |addresses|
  {
    if addresses != [] {
      var n := |addresses| - 1;
      StartAllKeepsIds(s, addresses[..n]);
      StartIds(StartAll(s, addresses[..n]), addresses[n], s.version);
    }
  }

  lemma FewerIds(s: Connector, t: Connector)
    requires IdsOk(s) && t.created == s.created && (t.connectors == s.connectors || t.connectors == map[])
    requires forall c :: c in t.running ==> c in s.running
    ensures IdsOk(t)
  {
  }

  /** The control connector is replaced by one with a lower version. */
  predicate Retries(s: Connector, c: Control, outcome: Outcome)
  {
    s.cluster.None? && !s.code.Canceled? && outcome.BadProtocol? && IsValid(Previous(c.version))
  }

  lemma FinishedShape(s: Connector, c: Control, outcome: Outcome)
    ensures var t, u := OnConnect(s, c, outcome), s.(running := Without(s.running, c));
      if Retries(s, c, outcome) then t == Start(u, c.address, Previous(c.version))
      else t.running == u.running && t.created == s.created && (t.connectors == s.connectors || t.connectors == map[])
  {
    hide MaybeFinish, IsValid, Previous;
    forall q: Connector ensures SameBut(q, MaybeFinish(q)) { MaybeFinishSame(q); }
  }

  lemma FinishedIds(s: Connector, c: Control, outcome: Outcome)
    requires RunningOk(s) && IdsOk(s)
    ensures IdsOk(OnConnect(s, c, outcome))
  {
    hide OnConnect, Start, IsValid, Previous, IdsOk;
    FinishedShape(s, c, outcome);
    var t := s.(running := Without(s.running, c));
    FewerIds(s, t);
    StartIds(t, c.address, Previous(c.version));
    if !Retries(s, c, outcome) { FewerIds(s, OnConnect(s, c, outcome)); }
  }

  lemma StepIds(s: Connector, e: Event)
    requires Inv(s) && IdsOk(s) && Enabled(s, e)
    ensures IdsOk(Step(s, e))
  {
    hide IdsOk, OnConnect, ProgressOk;
    match e
    case Resolved(addresses) => ResolvedIds(s, addresses);
    case Finished(c, outcome) => FinishedIds(s, c, outcome);
    case Cancel => FewerIds(s, Step(s, Cancel));
  }

  lemma ResolvedIds(s: Connector, addresses: seq<Address>)
    requires RunningOk(s) && IdsOk(s)
    ensures IdsOk(OnResolve(s, addresses))
  {
    hide IdsOk;
    var t := s.(resolved := true);
    FewerIds(s, Finish(t));
    FewerIds(s, Finish(t.(code := NoHosts)));
    var r := t.(remaining := |addresses|);
    FewerIds(s, r);
    StartAllKeepsIds(r, addresses);
  }

  lemma {:induction false} RunIds(s: Connector, es: seq<Event>)
    requires Inv(s) && IdsOk(s) && Legal(s, es)
    ensures IdsOk(Run(s, es))
    decreases |es|
  {
    if es != [] {
      hide Inv, IdsOk, Step, Enabled;
      StepIds(s, es[0]);
      StepKeeps(s, es[0]);
      RunIds(Step(s, es[0]), es[1..]);
    }
  }

  /** The map has this very control connector under its address. */
  predicate Known(s: Connector, c: Control) { c.address in s.connectors && s.connectors[c.address] == c }

  /** After any run, a cancel leaves all running control connectors told exactly if each of them was
      told before or is the one the map still has for its address. */
  lemma CancelReachesExactlyTheKnown(version: int, es: seq<Event>)
    requires Legal(Fresh(version), es)
    ensures var s := Run(Fresh(version), es);
      (forall c :: c in Step(s, Cancel).running ==> c.id in Step(s, Cancel).told) <==>
      (forall c :: c in s.running ==> c.id in s.told || Known(s, c))
  {
    RunKeeps(Fresh(version), es);
    RunIds(Fresh(version), es);
    var s := Run(Fresh(version), es);
    hide Run, Legal, Inv;
    var t := Step(s, Cancel);
    forall c | c in s.running ensures c.id in t.told <==> c.id in s.told || Known(s, c) {
      if c.id in t.told && c.id !in s.told {
        var a :| a in s.connectors && s.connectors[a].id == c.id;
      }
    }
  }

  /** Control connectors are numbered as they are started, and the map keeps the last one started
      for an address. */
  lemma {:induction false} StartAllIds(s: Connector, addresses: seq<Address>)
    requires s.running == [] && s.connectors == map[]
    ensures var t := StartAll(s, addresses);
      && |t.running| == |addresses| && t.created == s.created + |addresses|
      && (forall k :: 0 <= k < |addresses| ==> t.running[k] == Control(s.created + k, addresses[k], s.version))
      && (forall a :: a in t.connectors ==> t.connectors[a] in t.running && t.connectors[a].address == a)
      && (forall k :: 0 <= k < |addresses| ==>
            addresses[k] in t.connectors && t.connectors[addresses[k]].id >= s.created + k)
    decreases |addresses|
  {
    if addresses != [] {
      StartAllIds(s, addresses[..|addresses| - 1]);
    }
  }

  lemma RepeatedIsNotTold(s: Connector, addresses: seq<Address>, i: nat, j: nat)
    requires s.running == [] && s.connectors == map[] && s.told == {}
    requires i < j < |addresses| && addresses[i] == addresses[j]
    ensures var t := OnCancel(StartAll(s, addresses));
      i < |t.running| && t.running[i].id !in t.told
  {
    StartAllIds(s, addresses);
    StartAllRunning(s, addresses);
    var t := StartAll(s, addresses);
    assert t.connectors[addresses[j]].id >= s.created + j;
    forall a | a in t.connectors ensures t.connectors[a].id != t.running[i].id {
      var k :| 0 <= k < |t.running| && t.running[k] == t.connectors[a];
    }
  }

  /** The contact points must be distinct for that: a cancel after they were resolved reaches all
      their control connectors exactly if none is repeated, because the map forgets the earlier
      ones of an address. */
  lemma CancelReachesAllExactlyWhen(version: int, addresses: seq<Address>)
    requires addresses != []
    ensures var s := Run(Fresh(version), [Resolved(addresses), Cancel]);
      (forall c :: c in s.running ==> c.id in s.told) <==> Distinct(addresses)
  {
    var s := Fresh(version).(resolved := true, remaining := |addresses|);
    assert [Resolved(addresses), Cancel][1..] == [Cancel] && [Cancel][1..] == [];
    var t := Run(Fresh(version), [Resolved(addresses), Cancel]);
    var r := Step(Fresh(version), Resolved(addresses));
    assert r == StartAll(s, addresses) && Run(r, [Cancel]) == Run(Step(r, Cancel), []);
    assert t == OnCancel(StartAll(s, addresses));
    if Distinct(addresses) {
      StartAllHeard(s, addresses);
    } else {
      var i, j :| 0 <= i < j < |addresses| && addresses[i] == addresses[j];
      RepeatedIsNotTold(s, addresses, i, j);
      assert t.running[i] in t.running;
    }
  }

  // ---------------------------------------------------------------- whom a win reaches

  /** After any run, a win leaves all others told exactly if each is the one the map still has for its
      address, and none is at the winner's own, which the loop skips. */
  lemma WinReachesExactlyTheKnown(version: int, es: seq<Event>, c: Control)
    requires Legal(Fresh(version), es)
    requires var s := Run(Fresh(version), es); c in s.running && s.cluster.None? && !s.code.Canceled?
    ensures var s := Run(Fresh(version), es);
      var t := Step(s, Finished(c, Connected(true, true)));
      (forall d :: d in t.running ==> d.id in t.told) <==>
      (forall d :: d in s.running && d != c ==> Known(s, d) && d.address != c.address)
  {
    RunKeeps(Fresh(version), es);
    RunIds(Fresh(version), es);
    var s := Run(Fresh(version), es);
    hide Run, Legal;
    var t := Step(s, Finished(c, Connected(true, true)));
    assert s.told == {};
    WithoutDistinct(s.running, c);
    forall d | d in t.running ensures d.id in t.told <==> Known(s, d) && d.address != c.address {
      if d.id in t.told {
        var a :| a in s.connectors && s.connectors[a].id == d.id && a != c.address;
      }
    }
  }

  ghost predicate LeavesUntold(version: int, es: seq<Event>)
  {
    var s := Run(Fresh(version), es);
    Legal(Fresh(version), es) && s.calls == 0 && s.cluster.Some? && exists c :: c in s.running && c.id !in s.told
  }

  lemma StartedAll(version: int, addresses: seq<Address>)
    requires addresses != []
    ensures var s := Step(Fresh(version), Resolved(addresses));
      && s.cluster.None? && !s.code.Canceled? && |s.running| == |addresses|
      && (forall k :: 0 <= k < |addresses| ==> s.running[k] == Control(k, addresses[k], version))
  {
    var s := Fresh(version).(resolved := true, remaining := |addresses|);
    StartAllIds(s, addresses);
    StartAllRunning(s, addresses);
  }

  lemma WinWhileOthersRun(s: Connector, c: Control)
    requires Inv(s) && c in s.running && s.cluster.None? && !s.code.Canceled? && |s.running| >= 2
    ensures var t := Step(s, Finished(c, Connected(true, true))); t.calls == 0 && t.cluster.Some?
  {
  }

  lemma RunTwo(s: Connector, e: Event, f: Event)
    requires Enabled(s, e) && Enabled(Step(s, e), f)
    ensures Legal(s, [e]) && Run(s, [e]) == Step(s, e)
    ensures Legal(s, [e] + [f]) && Run(s, [e] + [f]) == Step(Step(s, e), f)
  {
    hide Step, Enabled;
    assert [e][1..] == [] && [f][1..] == [] && ([e] + [f])[1..] == [f];
    assert Run(Step(s, e), [f]) == Run(Step(Step(s, e), f), []);
    assert Legal(Step(s, e), [f]);
  }

  /** Whichever address is repeated: when one of its control connectors wins, somebody goes on untold,
      and the client waits for it. */
  lemma RepeatedIsNotStopped(version: int, addresses: seq<Address>, i: nat, j: nat)
    requires i < |addresses| && j < |addresses| && i != j && addresses[i] == addresses[j]
    ensures var win := Finished(Control(j, addresses[j], version), Connected(true, true));
      LeavesUntold(version, [Resolved(addresses)] + [win])
  {
    var c := Control(j, addresses[j], version);
    var e0, e1 := Resolved(addresses), Finished(c, Connected(true, true));
    var s := Step(Fresh(version), e0);
    StartedAll(version, addresses);
    assert s.running[i] in s.running && s.running[j] in s.running;
    assert Enabled(Fresh(version), e0) && Enabled(s, e1);
    StepKeeps(Fresh(version), e0);
    WinWhileOthersRun(s, c);
    hide Step, Enabled, Inv, Run, Legal;
    RunTwo(Fresh(version), e0, e1);
    WinReachesExactlyTheKnown(version, [e0], c);
  }

  lemma {:induction false} ResolvedOnce(s: Connector, es: seq<Event>)
    requires s.resolved && Legal(s, es)
    ensures forall e :: e in es ==> !e.Resolved?
    decreases |es|
  {
    if es != [] {
      assert Step(s, es[0]).resolved;
      ResolvedOnce(Step(s, es[0]), es[1..]);
      assert forall e :: e in es ==> e == es[0] || e in es[1..];
    }
  }

  /** A win never leaves anybody untold, in any run after the contact points were resolved, exactly if
      no contact point is repeated. */
  lemma WinStopsTheOthersExactlyWhen(version: int, addresses: seq<Address>)
    ensures (forall es :: Cancel !in es ==> !LeavesUntold(version, [Resolved(addresses)] + es)) <==> Distinct(addresses)
  {
    if Distinct(addresses) {
      forall es | Cancel !in es ensures !LeavesUntold(version, [Resolved(addresses)] + es) {
        var all := [Resolved(addresses)] + es;
        if Legal(Fresh(version), all) {
          FirstResolved(version, addresses, es);
          StopsTheOthers(version, all);
          RunKeeps(Fresh(version), all);
        }
      }
    } else {
      var i, j :| 0 <= i < j < |addresses| && addresses[i] == addresses[j];
      RepeatedIsNotStopped(version, addresses, i, j);
      var es := [Finished(Control(j, addresses[j], version), Connected(true, true))];
      assert Cancel !in es;
    }
  }

  lemma FirstResolved(version: int, addresses: seq<Address>, es: seq<Event>)
    requires Distinct(addresses) && Legal(Fresh(version), [Resolved(addresses)] + es)
    ensures DistinctContacts([Resolved(addresses)] + es)
  {
    assert ([Resolved(addresses)] + es)[1..] == es;
    StartAllRunning(Fresh(version).(resolved := true, remaining := |addresses|), addresses);
    ResolvedOnce(Step(Fresh(version), Resolved(addresses)), es);
  }

  /** The smallest such run: one contact point given twice, and the first control connector wins. */
  lemma SecondOfTwoIsNotStopped()
    ensures LeavesUntold(V4, [Resolved([7, 7])] + [Finished(Control(0, 7, V4), Connected(true, true))])
  {
    RepeatedIsNotStopped(V4, [7, 7], 1, 0);
  }

  // ---------------------------------------------------------------- what a cancel takes with it

  /** The resolver was told exactly if the client canceled before it was called back, and a cluster
      exactly if there was one besides. */
  ghost predicate QuitOk(s: Connector)
  {
    var canceled := if s.report.Some? then s.report.value.code.Canceled? else s.code.Canceled?;
    (s.resolverTold <==> canceled) && (s.clusterTold <==> canceled && Obtained(s).Some?)
  }

  lemma StepQuit(s: Connector, e: Event)
    requires Inv(s) && QuitOk(s) && Enabled(s, e)
    ensures QuitOk(Step(s, e))
  {
    hide IsValid, Previous;
    if e.Resolved? { StartAllRunning(s.(resolved := true, remaining := |e.addresses|), e.addresses); }
  }

  lemma {:induction false} RunQuit(s: Connector, es: seq<Event>)
    requires Inv(s) && QuitOk(s) && Legal(s, es)
    ensures QuitOk(Run(s, es))
    decreases |es|
  {
    if es != [] {
      hide Inv, QuitOk, Step, Enabled;
      StepQuit(s, es[0]);
      StepKeeps(s, es[0]);
      RunQuit(Step(s, es[0]), es[1..]);
    }
  }

  /** Whenever a cancel comes, the cluster a client gets that is told of the cancel has been told to
      close, and no other has; the resolver was told in the same cases, cluster or not. */
  lemma CanceledClusterIsClosed(version: int, es: seq<Event>)
    requires Legal(Fresh(version), es)
    ensures var s := Run(Fresh(version), es);
      && (s.report.Some? ==>
            && (s.clusterTold <==> s.report.value.code.Canceled? && s.report.value.cluster.Some?)
            && (s.resolverTold <==> s.report.value.code.Canceled?))
      && (s.report.None? ==>
            (s.clusterTold <==> s.code.Canceled? && s.cluster.Some?) && (s.resolverTold <==> s.code.Canceled?))
  {
    RunQuit(Fresh(version), es);
  }

  /** A cancel after the client was called back reaches nobody. */
  lemma LateCancelReachesNobody(version: int, es: seq<Event>)
    requires Legal(Fresh(version), es) && Run(Fresh(version), es).calls == 1
    ensures var s := Run(Fresh(version), es); Step(s, Cancel) == s.(code := Canceled)
  {
    RunKeeps(Fresh(version), es);
  }

  // ---------------------------------------------------------------- what a failure reports

  /** The error one event gives rise to, if any. */
  function ErrorOf(e: Event): Option<Code>
  {
    match e
    case Resolved(addresses) => if addresses == [] then Some(NoHosts) else None
    case Cancel => None
    case Finished(c, outcome) =>
      match outcome
      case Connected(hostFound, planHasHost) => if hostFound && planHasHost then None else Some(NoHosts)
      case BadProtocol => if IsValid(Previous(c.version)) then None else Some(InvalidProtocol)
      case SslError => Some(Ssl)
      case AuthError => Some(Auth)
      case _ => Some(NoHosts)
  }

  function LastError(es: seq<Event>, before: Code): Code
  {
    if es == [] then before
    else LastError(es[1..], if ErrorOf(es[0]).Some? then ErrorOf(es[0]).value else before)
  }

  lemma ErrorStep(s: Connector, e: Event)
    requires Inv(s) && Enabled(s, e) && !e.Cancel? && !s.code.Canceled? && s.cluster.None? && s.report.None?
    ensures var t := Step(s, e);
      && (t.report.Some? && t.report.value.cluster.None? ==>
            t.report.value.code == if ErrorOf(e).Some? then ErrorOf(e).value else s.code)
      && (t.report.None? && t.cluster.None? ==> t.code == if ErrorOf(e).Some? then ErrorOf(e).value else s.code)
      && (t.report.None? && t.cluster.Some? ==> Won(t))
  {
    hide Previous;
    if e.Resolved? { StartAllRunning(s.(resolved := true, remaining := |e.addresses|), e.addresses); }
  }

  ghost predicate Won(s: Connector)
  {
    if s.report.None? then s.cluster.Some? else s.report.value.cluster.Some?
  }

  lemma {:induction false} StaysWon(s: Connector, es: seq<Event>)
    requires Inv(s) && Won(s) && Legal(s, es)
    ensures Won(Run(s, es))
    decreases |es|
  {
    if es != [] {
      StepKeeps(s, es[0]);
      StaysWon(Step(s, es[0]), es[1..]);
    }
  }

  lemma {:induction false} RunError(s: Connector, es: seq<Event>)
    requires Inv(s) && Legal(s, es) && Cancel !in es && !s.code.Canceled? && s.cluster.None?
    requires s.report.Some? ==> !s.report.value.code.Canceled?
    ensures var t := Run(s, es);
      t.report.Some? && !Won(t) ==>
        t.report.value.code == if s.report.Some? then s.report.value.code else LastError(es, s.code)
    decreases |es|
  {
    if es != [] {
      hide Step;
      assert es[0] in es;
      StepKeeps(s, es[0]);
      NotCanceledStep(s, es[0]);
      if s.report.None? { ErrorStep(s, es[0]); }
      var t := Step(s, es[0]);
      if t.cluster.Some? { StaysWon(t, es[1..]); } else { RunError(t, es[1..]); }
    }
  }

  /** Without a cancel, a client that gets no cluster is told the error that came last. */
  lemma ReportsTheLastError(version: int, es: seq<Event>)
    requires Legal(Fresh(version), es) && Cancel !in es
    ensures var s := Run(Fresh(version), es);
      s.report.Some? && s.report.value.cluster.None? ==> s.report.value.code == LastError(es, Ok)
  {
    RunError(Fresh(version), es);
  }

  // ---------------------------------------------------------------- the descent terminates

  /** Callbacks that the running control connectors and their successors can still make. */
  function Budget(running: seq<Control>): nat
  {
    if running == [] then 0 else 1 + Descents(running[0].version) + Budget(running[1..])
  }

  lemma {:induction false} BudgetAppend(running: seq<Control>, c: Control)
    ensures Budget(running + [c]) == Budget(running) + 1 + Descents(c.version)
  {
    if running == [] {
      assert running + [c] == [c] && [c][1..] == [];
    } else {
      assert (running + [c])[1..] == running[1..] + [c];
      BudgetAppend(running[1..], c);
    }
  }

  lemma {:induction false} BudgetWithout(running: seq<Control>, c: Control)
    requires Distinct(running) && c in running
    ensures Budget(Without(running, c)) == Budget(running) - 1 - Descents(c.version)
  {
    assert running == [running[0]] + running[1..];
    if running[0] == c {
      assert c !in running[1..];
      WithoutAbsent(running[1..], c);
    } else {
      BudgetWithout(running[1..], c);
      var rest := Without(running[1..], c);
      assert ([running[0]] + rest)[1..] == rest;
    }
  }

  /** Each callback of a control connector uses up budget; a retry lowers the version of one host
      and leaves the number of hosts still counted as it was. */
  lemma CallbackUsesBudget(s: Connector, c: Control, outcome: Outcome)
    requires Inv(s) && Enabled(s, Finished(c, outcome))
    ensures var t := Step(s, Finished(c, outcome));
            && Budget(t.running) < Budget(s.running)
            && (t.created > s.created ==>
                  && t.remaining == s.remaining
                  && t.running == Without(s.running, c) + [Control(s.created, c.address, Previous(c.version))]
                  && Previous(c.version) < c.version)
  {
    hide OnConnect, Budget, Descents, IsValid;
    FinishedShape(s, c, outcome);
    BudgetWithout(s.running, c);
    if Retries(s, c, outcome) {
      LowerDescends(c.version);
      BudgetAppend(Without(s.running, c), Control(s.created, c.address, Previous(c.version)));
    }
  }

  lemma LowerDescends(v: int)
    requires IsValid(Previous(v))
    ensures Descents(v) == 1 + Descents(Previous(v)) && Previous(v) < v
  {
  }

  function Callbacks(es: seq<Event>): nat
  {
    if es == [] then 0 else (if es[0].Finished? then 1 else 0) + Callbacks(es[1..])
  }

  lemma StepBudget(s: Connector, e: Event)
    requires Inv(s) && s.resolved && Enabled(s, e)
    ensures Step(s, e).resolved
    ensures Bit(e.Finished?) + Budget(Step(s, e).running) <= Budget(s.running)
  {
    hide Budget, OnConnect;
    if e.Finished? {
      CallbackUsesBudget(s, e.control, e.outcome);
      StaysResolved(s, e.control, e.outcome);
    }
  }

  lemma StaysResolved(s: Connector, c: Control, outcome: Outcome)
    ensures OnConnect(s, c, outcome).resolved == s.resolved
  {
    hide MaybeFinish, IsValid, Previous;
    forall q: Connector ensures SameBut(q, MaybeFinish(q)) { MaybeFinishSame(q); }
  }

  lemma {:induction false} CallbacksBounded(s: Connector, es: seq<Event>)
    requires Inv(s) && s.resolved && Legal(s, es)
    ensures Callbacks(es) + Budget(Run(s, es).running) <= Budget(s.running)
    decreases |es|
  {
    if es != [] {
      hide Inv, Step, Enabled, Budget;
      StepKeeps(s, es[0]);
      StepBudget(s, es[0]);
      CallbacksBounded(Step(s, es[0]), es[1..]);
    }
  }

  lemma {:induction false} StartAllBudget(s: Connector, addresses: seq<Address>)
    requires s.running == []
    ensures Budget(StartAll(s, addresses).running) == |addresses| * (1 + Descents(s.version))
    decreases |addresses|
  {
    if addresses != [] {
      hide Budget, Descents;
      var n := |addresses| - 1;
      var t := StartAll(s, addresses[..n]);
      StartAllBudget(s, addresses[..n]);
      BudgetAppend(t.running, Control(t.created, addresses[n], s.version));
      OneMoreTime(n, 1 + Descents(s.version));
    } else {
      assert Budget(s.running) == 0;
    }
  }

  lemma OneMoreTime(n: nat, k: nat)
    ensures (n + 1) * k == n * k + k
  {
  }

  /** However the attempts fail, at most one callback per contact point and protocol version is
      made before the client is called back. */
  lemma DescentTerminates(version: int, addresses: seq<Address>, es: seq<Event>)
    requires Legal(Fresh(version), [Resolved(addresses)] + es)
    ensures Callbacks(es) <= |addresses| * (1 + Descents(version))
  {
    var s := Step(Fresh(version), Resolved(addresses));
    assert ([Resolved(addresses)] + es)[1..] == es;
    StepKeeps(Fresh(version), Resolved(addresses));
    CallbacksBounded(s, es);
    if addresses != [] {
      StartAllBudget(Fresh(version).(resolved := true, remaining := |addresses|), addresses);
    }
  }
}
