/**
 Establishing one connection: the socket attempt, the protocol handshake, the connect timer, the
 timer of each handshake request, cancellation and the loss of the connection, in any order.

 The client callback is the only observable result; `finishes` counts its invocations.
 */
module Handshake {
  import opened Sequences

  datatype Reason =
    | Auth | Closed | Connect | Internal | InvalidOpcode | InvalidProtocol | Keyspace | Response
    | Socket | SslHandshake | SslVerify

  datatype Code = Ok | Canceled | TimedOut | Failed(reason: Reason)

  datatype Request = Options | Startup | AuthResponse | Register | Use

  /** `good`: what the authenticator makes of the token it is given. */
  datatype Reply =
    | Supported
    | ErrorReply(reason: Reason)
    | Authenticate(good: bool)
    | AuthChallenge(good: bool)
    | AuthSuccess(good: bool)
    | Ready
    | SetKeyspace
    | OtherResult
    | OtherOpcode

  /** The one handshake request the connection may hold. A reply that overtakes the write callback
      is kept with the request until that callback. */
  datatype Wait = Idle | Waiting(request: Request, written: bool) | Saved(request: Request, reply: Reply)

  datatype Link = Connecting | NoLink | Link(closing: bool, closed: bool)

  /** `timeout` is both the connect timeout and the timeout of every handshake request; 0 is none. */
  datatype Config = Config(events: bool, keyspace: bool, timeout: nat)

  datatype Connector = Connector(
    config: Config,
    code: Code,
    link: Link,
    listening: bool,            // the connector is the connection's listener
    owned: bool,                // the connector still holds the connection
    socketCanceled: bool,
    wait: Wait,
    eventsLeft: bool,           // event types still to be registered
    timer: bool,                // the connect timer is running
    now: nat, connectAt: nat, requestAt: nat,
    finishes: nat,              // history: invocations of the client callback
    outcome: Option<Code>,      // history: what the first invocation saw
    sent: seq<Request>)         // history: requests the socket accepted

  datatype SocketResult = SocketOk | SocketCanceled | SocketError(reason: Reason)

  /** `takes`: the client callback, if this step invokes it, takes the connection. */
  datatype Event =
    | SocketDone(result: SocketResult, takes: bool)
    | Replied(reply: Reply, takes: bool)
    | Written(ok: bool, takes: bool)
    | RequestTimer(takes: bool)
    | ConnectTimer
    | Cancel
    | LinkCloses
    | RequestDropped(takes: bool)
    | LinkClosed(takes: bool)
    | Tick(elapsed: nat)

  function Connecting0(config: Config, now: nat): Connector
  {
    Connector(config, Ok, Connecting, false, false, false, Idle, config.events, config.timeout > 0,
              now, now, now, 0, None, [])
  }

  // ---------------------------------------------------------------- the handlers

  function CloseLink(s: Connector): Connector
  {
    if s.owned && s.link.Link? then s.(link := s.link.(closing := true)) else s
  }

  function Finish(s: Connector, takes: bool): Connector
  {
    var t := s.(timer := false, listening := false, finishes := s.finishes + 1,
                outcome := if s.finishes == 0 then Some(s.code) else s.outcome);
    if takes then t.(owned := false) else CloseLink(t)
  }

  function OnError(s: Connector, code: Code, takes: bool): Connector
  {
    if s.code.Ok? then Finish(CloseLink(s.(code := code)), takes) else s
  }

  /** `write_and_flush`: a connection that is closing accepts nothing. */
  function Send(s: Connector, request: Request): Connector
  {
    if s.link.Link? && !s.link.closing then
      s.(wait := Waiting(request, false), requestAt := s.now, sent := s.sent + [request])
    else s
  }

  function OnReadyOrSetKeyspace(s: Connector, takes: bool): Connector
  {
    if s.config.keyspace then Send(s, Use) else Finish(s, takes)
  }

  function OnReadyOrRegister(s: Connector, takes: bool): Connector
  {
    if s.eventsLeft then Send(s, Register).(eventsLeft := false) else OnReadyOrSetKeyspace(s, takes)
  }

  /** `StartupCallback::on_internal_set`; the request has left the connection. */
  function OnReply(s: Connector, reply: Reply, takes: bool): Connector
  {
    match reply
    case Supported => Send(s, Startup)
    case ErrorReply(reason) => OnError(s, Failed(reason), takes)
    case Authenticate(good) => if good then Send(s, AuthResponse) else OnError(s, Failed(Auth), takes)
    case AuthChallenge(good) => if good then Send(s, AuthResponse) else OnError(s, Failed(Auth), takes)
    case AuthSuccess(good) => if good then OnReadyOrRegister(s, takes) else OnError(s, Failed(Auth), takes)
    case Ready => OnReadyOrRegister(s, takes)
    case SetKeyspace => Finish(s, takes)
    case OtherResult => OnError(s, Failed(Keyspace), takes)
    case OtherOpcode => OnError(s, Failed(InvalidOpcode), takes)
  }

  function OnSocket(s: Connector, result: SocketResult, takes: bool): Connector
  {
    match result
    case SocketOk => Send(s.(link := Link(false, false), listening := true, owned := true), Options)
    case SocketCanceled => Finish(s.(link := NoLink), takes)
    case SocketError(reason) =>
      if s.code.TimedOut? then Finish(s.(link := NoLink), takes)
      else OnError(s.(link := NoLink), Failed(reason), takes)
  }

  function OnWritten(s: Connector, ok: bool, takes: bool): Connector
  {
    match s.wait
    case Idle => s
    case Waiting(request, _) =>
      if ok then s.(wait := Waiting(request, true))
      else OnError(s.(wait := Idle), Failed(Internal), takes)
    case Saved(_, reply) => OnReply(s.(wait := Idle), reply, takes)
  }

  function OnReplied(s: Connector, reply: Reply, takes: bool): Connector
  {
    match s.wait
    case Waiting(request, written) =>
      if written then OnReply(s.(wait := Idle), reply, takes) else s.(wait := Saved(request, reply))
    case _ => s
  }

  /** The socket's close drops the request: a saved reply is delivered, a timeout is ignored. */
  function OnDropped(s: Connector, takes: bool): Connector
  {
    match s.wait
    case Saved(_, reply) => OnReply(s.(wait := Idle), reply, takes)
    case _ => s.(wait := Idle)
  }

  function OnClosed(s: Connector, takes: bool): Connector
  {
    var t := if s.link.Link? then s.(link := s.link.(closing := true, closed := true)) else s;
    if !s.listening then t
    else if s.code.Canceled? || s.code.TimedOut? then Finish(t, takes)
    else OnError(t, Failed(Closed), takes)
  }

  function Abandon(s: Connector, code: Code): Connector
  {
    CloseLink(s.(code := code, socketCanceled := true))
  }

  function Step(s: Connector, e: Event): Connector
  {
    match e
    case SocketDone(result, takes) => OnSocket(s, result, takes)
    case Replied(reply, takes) => OnReplied(s, reply, takes)
    case Written(ok, takes) => OnWritten(s, ok, takes)
    case RequestTimer(takes) => OnError(s, TimedOut, takes)
    case ConnectTimer => Abandon(s, TimedOut).(timer := false)
    case Cancel => Abandon(s, Canceled)
    case LinkCloses => if s.link.Link? then s.(link := s.link.(closing := true)) else s
    case RequestDropped(takes) => OnDropped(s, takes)
    case LinkClosed(takes) => OnClosed(s, takes)
    case Tick(elapsed) => s.(now := s.now + elapsed)
  }

  // ---------------------------------------------------------------- the environment

  predicate FitsRequest(request: Request, reply: Reply)
  {
    reply.AuthChallenge? || reply.AuthSuccess? ==> request.AuthResponse?
  }

  /** `ordered`: timers of the event loop fire by deadline and, at equal deadlines, in the order
      they were started. */
  predicate Enabled(s: Connector, e: Event, ordered: bool)
  {
    match e
    case SocketDone(result, _) => s.link.Connecting? && (result.SocketCanceled? <==> s.socketCanceled)
    case Replied(reply, _) => s.link.Link? && !s.link.closing && s.wait.Waiting? && FitsRequest(s.wait.request, reply)
    case Written(ok, _) =>
      && s.link.Link? && !s.link.closed && (s.wait.Saved? || (s.wait.Waiting? && !s.wait.written))
      && (!ok ==> s.link.closing)
    case RequestTimer(_) =>
      && s.config.timeout > 0 && !s.wait.Idle? && s.now >= s.requestAt + s.config.timeout
      && (ordered && s.timer ==> s.requestAt + s.config.timeout < s.connectAt + s.config.timeout)
    case ConnectTimer => s.timer && s.now >= s.connectAt + s.config.timeout
    case Cancel => true
    case LinkCloses => s.link.Link?
    case RequestDropped(_) => s.link.Link? && s.link.closing && !s.link.closed && !s.wait.Idle?
    case LinkClosed(_) => s.link.Link? && s.link.closing && !s.link.closed && s.wait.Idle?
    case Tick(_) => true
  }

  predicate Legal(s: Connector, es: seq<Event>, ordered: bool)
    decreases |es|
  {
    es == [] || (Enabled(s, es[0], ordered) && Legal(Step(s, es[0]), es[1..], ordered))
  }

  function Run(s: Connector, es: seq<Event>): Connector
    decreases |es|
  {
    if es == [] then s else Run(Step(s, es[0]), es[1..])
  }

  // ---------------------------------------------------------------- at most once

  predicate Ended(s: Connector) { s.link.NoLink? || (s.link.Link? && s.link.closed) }

  predicate IsClosing(s: Connector) { s.link.Link? && s.link.closing }

  ghost predicate Unfinished(s: Connector)
  {
    && s.outcome.None?
    && (s.code.Ok? || s.code.Canceled? || s.code.TimedOut?)
    && (s.link.Connecting? ==> s.wait.Idle? && (s.code.Ok? <==> !s.socketCanceled))
    && !Ended(s)
    && (s.link.Link? ==> s.listening && s.owned && (s.code.Ok? || s.link.closing))
    && (s.config.timeout > 0 && !s.timer ==> !s.code.Ok?)
  }

  ghost predicate Done(s: Connector)
  {
    && s.outcome.Some?
    && !s.link.Connecting? && !s.listening && !s.timer
    && (s.outcome.value.Ok? ==> s.wait.Idle?)
    && (!s.wait.Idle? ==> s.link.Link? && s.link.closing && !s.code.Ok?)
    && (s.owned && s.link.Link? ==> s.link.closing)
    && (s.wait.Saved? ==> !EndsHandshake(s, s.wait.reply))
  }

  ghost predicate Inv(s: Connector)
  {
    && (if s.finishes == 0 then Unfinished(s) else s.finishes == 1 && Done(s))
    && s.connectAt <= s.requestAt <= s.now
    && (s.timer ==> s.config.timeout > 0)
    && (!s.wait.Idle? ==> s.link.Link? && !s.link.closed)
  }

  /** Handling this reply would invoke the client callback without looking at the error code. */
  predicate EndsHandshake(s: Connector, reply: Reply)
  {
    reply.SetKeyspace? || ((reply.Ready? || reply == AuthSuccess(true)) && !s.eventsLeft && !s.config.keyspace)
  }

  /** A handshake request times out although its reply is already here and will end the handshake. */
  predicate TimesOutTooLate(s: Connector, e: Event)
  {
    e.RequestTimer? && s.code.Ok? && s.wait.Saved? && EndsHandshake(s, s.wait.reply)
  }

  lemma FinishKeeps(s: Connector, takes: bool)
    requires s.finishes == 0 && !s.link.Connecting? && s.connectAt <= s.requestAt <= s.now
    requires !s.wait.Idle? ==> s.link.Link? && s.link.closing && !s.link.closed && !s.code.Ok?
    requires s.wait.Saved? ==> !EndsHandshake(s, s.wait.reply)
    ensures Inv(Finish(s, takes))
  {
  }

  /** An error ends an unfinished connector that has none yet and changes nothing otherwise. */
  lemma ErrorKeeps(s: Connector, code: Code, takes: bool)
    requires !code.Ok? && !s.link.Connecting? && s.connectAt <= s.requestAt <= s.now
    requires s.code.Ok? ==>
      s.finishes == 0 && (!s.wait.Idle? ==>
        s.link.Link? && s.owned && !s.link.closed && !(s.wait.Saved? && EndsHandshake(s, s.wait.reply)))
    requires !s.code.Ok? ==> Inv(s)
    ensures Inv(OnError(s, code, takes))
  {
    if s.code.Ok? { FinishKeeps(CloseLink(s.(code := code)), takes); }
  }

  lemma SendKeeps(s: Connector, request: Request)
    requires Inv(s) && s.wait.Idle? && s.link.Link? && !s.link.closed && (s.finishes != 0 ==> s.link.closing)
    ensures Inv(Send(s, request)) && Inv(Send(s, request).(eventsLeft := false))
  {
  }

  lemma ReplyKeeps(s: Connector, reply: Reply, takes: bool)
    requires Inv(s) && s.wait.Idle? && s.link.Link? && !s.link.closed
    requires s.finishes == 0 || (!s.code.Ok? && s.link.closing && !EndsHandshake(s, reply))
    ensures Inv(OnReply(s, reply, takes))
  {
    SendKeeps(s, Startup);
    SendKeeps(s, AuthResponse);
    SendKeeps(s, Register);
    SendKeeps(s, Use);
    if s.finishes == 0 { FinishKeeps(s, takes); }
    forall code: Code | !code.Ok? ensures Inv(OnError(s, code, takes)) { ReplyErrorKeeps(s, code, takes); }
    hide Inv, Send, Finish, OnError;
  }

  lemma ReplyErrorKeeps(s: Connector, code: Code, takes: bool)
    requires Inv(s) && s.wait.Idle? && s.link.Link? && !code.Ok?
    requires s.finishes == 0 || !s.code.Ok?
    ensures Inv(OnError(s, code, takes))
  {
    ErrorKeeps(s, code, takes);
  }

  /** The request has left the connection and its reply is about to be handled. */
  lemma TakenOut(s: Connector)
    requires Inv(s) && !s.wait.Idle?
    ensures Inv(s.(wait := Idle))
    ensures s.link.Link? && !s.link.closed && (s.finishes != 0 ==> !s.code.Ok? && s.link.closing)
    ensures s.finishes != 0 && s.wait.Saved? ==> !EndsHandshake(s, s.wait.reply)
  {
  }

  lemma SocketKeeps(s: Connector, result: SocketResult, takes: bool)
    requires Inv(s) && s.link.Connecting? && (result.SocketCanceled? <==> s.socketCanceled)
    ensures Inv(OnSocket(s, result, takes))
  {
    match result
    case SocketOk =>
    case SocketCanceled => FinishKeeps(s.(link := NoLink), takes);
    case SocketError(reason) => ErrorKeeps(s.(link := NoLink), Failed(reason), takes);
  }

  lemma ClosedKeeps(s: Connector, takes: bool)
    requires Inv(s) && Enabled(s, LinkClosed(takes), false)
    ensures Inv(OnClosed(s, takes))
  {
    if s.listening {
      var t := s.(link := s.link.(closing := true, closed := true));
      if s.code.Ok? { ErrorKeeps(t, Failed(Closed), takes); } else { FinishKeeps(t, takes); }
    }
  }

  lemma AbandonKeeps(s: Connector, code: Code)
    requires Inv(s) && (code.Canceled? || code.TimedOut?)
    ensures Inv(Abandon(s, code)) && Inv(Abandon(s, code).(timer := false))
  {
  }

  lemma WrittenKeeps(s: Connector, ok: bool, takes: bool)
    requires Inv(s) && Enabled(s, Written(ok, takes), false)
    ensures Inv(OnWritten(s, ok, takes))
  {
    TakenOut(s);
    if s.wait.Saved? {
      ReplyKeeps(s.(wait := Idle), s.wait.reply, takes);
    } else if !ok {
      ReplyErrorKeeps(s.(wait := Idle), Failed(Internal), takes);
    }
  }

  lemma StepKeeps(s: Connector, e: Event)
    requires Inv(s) && Enabled(s, e, false) && !TimesOutTooLate(s, e)
    ensures Inv(Step(s, e))
  {
    match e
    case SocketDone(result, takes) => SocketKeeps(s, result, takes);
    case Replied(reply, takes) =>
      TakenOut(s);
      if s.wait.written { ReplyKeeps(s.(wait := Idle), reply, takes); }
    case Written(ok, takes) => WrittenKeeps(s, ok, takes);
    case RequestTimer(takes) => ErrorKeeps(s, TimedOut, takes);
    case ConnectTimer => AbandonKeeps(s, TimedOut);
    case Cancel => AbandonKeeps(s, Canceled);
    case LinkCloses =>
    case RequestDropped(takes) =>
      TakenOut(s);
      if s.wait.Saved? { ReplyKeeps(s.(wait := Idle), s.wait.reply, takes); }
    case LinkClosed(takes) => ClosedKeeps(s, takes);
    case Tick(_) =>
  }

  /** Timers that fire in order make the request timers harmless: the connect timer was started
      first and has the same length, so by then the connector has given up or is done. */
  lemma OrderedTimersNeverTooLate(s: Connector, e: Event)
    requires Inv(s) && Enabled(s, e, true)
    ensures Enabled(s, e, false) && !TimesOutTooLate(s, e)
    ensures e.RequestTimer? ==> Step(s, e) == s
  {
  }

  lemma {:induction false} RunKeeps(s: Connector, es: seq<Event>)
    requires Inv(s) && Legal(s, es, true)
    ensures Inv(Run(s, es))
    decreases |es|
  {
    if es != [] {
      OrderedTimersNeverTooLate(s, es[0]);
      StepKeeps(s, es[0]);
      RunKeeps(Step(s, es[0]), es[1..]);
    }
  }

  /** In every interleaving the client callback is invoked at most once, and it has been invoked
      once the socket attempt or the connection has ended. Until then the connector has no error
      but a cancellation or its own timeout, and it is still going to hear from the socket attempt
      or from the connection, which in case of such an error it has told to end. After it, the timer
      is off, and a connection the client did not take is closing. */
  lemma CallbackExactlyOnce(config: Config, now: nat, es: seq<Event>)
    requires Legal(Connecting0(config, now), es, true)
    ensures var s := Run(Connecting0(config, now), es);
      && s.finishes <= 1
      && (Ended(s) ==> s.finishes == 1)
      && (s.finishes == 0 ==>
            && (s.code.Ok? || s.code.Canceled? || s.code.TimedOut?)
            && (s.link.Connecting? || (s.link.Link? && s.listening))
            && (!s.code.Ok? ==> if s.link.Connecting? then s.socketCanceled else s.link.closing))
      && (s.finishes == 1 ==> !s.timer && !s.listening && (s.owned && s.link.Link? ==> s.link.closing))
  {
    RunKeeps(Connecting0(config, now), es);
  }

  /** Without that order the callback can be invoked twice, and exactly in one situation: a request
      timer fires while the reply that ends the handshake waits for its write callback. */
  lemma TwiceExactlyWhen(s: Connector, e: Event)
    requires Inv(s) && Enabled(s, e, false)
    ensures (exists e2 :: Enabled(Step(s, e), e2, false) && Step(Step(s, e), e2).finishes > 1) <==> TimesOutTooLate(s, e)
  {
    var t := Step(s, e);
    if TimesOutTooLate(s, e) {
      assert t.finishes == 1 && t.wait == s.wait && t.link.Link? && !t.link.closed;
      var e2 := Written(true, false);
      assert Enabled(t, e2, false) && Step(t, e2).finishes == 2;
    } else {
      StepKeeps(s, e);
      forall e2 | Enabled(t, e2, false) ensures Step(t, e2).finishes <= 1 { AtMostOneNow(t, e2); }
    }
  }

  lemma AtMostOneNow(s: Connector, e: Event)
    requires Inv(s) && Enabled(s, e, false)
    ensures Step(s, e).finishes <= 1
  {
    if !TimesOutTooLate(s, e) { StepKeeps(s, e); }
  }

  ghost predicate InvokedTwice(config: Config, now: nat, es: seq<Event>)
  {
    Legal(Connecting0(config, now), es, false) && Run(Connecting0(config, now), es).finishes == 2
  }

  /** Such a run exists: READY overtakes the write callback of STARTUP, whose timer then fires. */
  lemma TwiceHappens()
    ensures exists config, now, es :: InvokedTwice(config, now, es)
  {
    hide Step, Enabled, Run, Legal;
    var config := Config(false, false, 1);
    var c := Connecting0(config, 0);
    var s1 := c.(link := Link(false, false), listening := true, owned := true,
                 wait := Waiting(Options, false), sent := [Options]);
    var s2 := s1.(wait := Waiting(Options, true));
    var s3 := s1.(wait := Waiting(Startup, false), sent := [Options, Startup]);
    var s4 := s3.(wait := Saved(Startup, Ready));
    var s5 := s4.(now := 1);
    var w := Written(true, false);
    TwiceSteps(s1, s3, s5);
    var s6 := Step(s5, RequestTimer(false));
    var t := Step(s6, w);
    FromTo(t, t, [], false);
    FromTo(s6, t, [w], false);
    FromTo(s5, t, [RequestTimer(false), w], false);
    FromTo(s4, t, [Tick(1), RequestTimer(false), w], false);
    FromTo(s3, t, [Replied(Ready, false), Tick(1), RequestTimer(false), w], false);
    FromTo(s2, t, [Replied(Supported, false), Replied(Ready, false), Tick(1), RequestTimer(false), w], false);
    FromTo(s1, t, [w, Replied(Supported, false), Replied(Ready, false), Tick(1), RequestTimer(false), w], false);
    var all := [SocketDone(SocketOk, false), w, Replied(Supported, false), Replied(Ready, false), Tick(1),
                RequestTimer(false), w];
    FromTo(c, t, all, false);
    assert InvokedTwice(config, 0, all);
  }

  lemma TwiceSteps(s1: Connector, s3: Connector, s5: Connector)
    requires s1 == Connecting0(Config(false, false, 1), 0).(
      link := Link(false, false), listening := true, owned := true, wait := Waiting(Options, false), sent := [Options])
    requires s3 == s1.(wait := Waiting(Startup, false), sent := [Options, Startup])
    requires s5 == s3.(wait := Saved(Startup, Ready), now := 1)
    ensures Enabled(Connecting0(Config(false, false, 1), 0), SocketDone(SocketOk, false), false)
    ensures Step(Connecting0(Config(false, false, 1), 0), SocketDone(SocketOk, false)) == s1
    ensures Enabled(s1, Written(true, false), false)
    ensures Step(s1, Written(true, false)) == s1.(wait := Waiting(Options, true))
    ensures Enabled(s1.(wait := Waiting(Options, true)), Replied(Supported, false), false)
    ensures Step(s1.(wait := Waiting(Options, true)), Replied(Supported, false)) == s3
    ensures Enabled(s3, Replied(Ready, false), false)
    ensures Step(s3, Replied(Ready, false)) == s3.(wait := Saved(Startup, Ready))
    ensures Enabled(s3.(wait := Saved(Startup, Ready)), Tick(1), false)
    ensures Step(s3.(wait := Saved(Startup, Ready)), Tick(1)) == s5
    ensures Enabled(s5, RequestTimer(false), false)
    ensures Enabled(Step(s5, RequestTimer(false)), Written(true, false), false)
    ensures Step(Step(s5, RequestTimer(false)), Written(true, false)).finishes == 2
  {
    assert [Options] + [Startup] == [Options, Startup];
  }

  ghost predicate Reaches(s: Connector, t: Connector, es: seq<Event>, ordered: bool)
  {
    Legal(s, es, ordered) && Run(s, es) == t
  }

  lemma FromTo(s: Connector, t: Connector, es: seq<Event>, ordered: bool)
    requires if es == [] then s == t else Enabled(s, es[0], ordered) && Reaches(Step(s, es[0]), t, es[1..], ordered)
    ensures Reaches(s, t, es, ordered)
  {
  }

  // ---------------------------------------------------------------- the order of the handshake

  /** The replies the protocol allows to each request. */
  predicate CompliantReply(request: Request, reply: Reply)
  {
    reply.ErrorReply? ||
    match request
    case Options => reply.Supported?
    case Startup => reply.Ready? || reply.Authenticate?
    case AuthResponse => reply.AuthChallenge? || reply.AuthSuccess?
    case Register => reply.Ready?
    case Use => reply.SetKeyspace?
  }

  predicate Compliant(s: Connector, e: Event)
  {
    e.Replied? && s.wait.Waiting? ==> CompliantReply(s.wait.request, e.reply)
  }

  predicate MayFollow(before: seq<Request>, request: Request)
  {
    if before == [] then request.Options?
    else match before[|before| - 1]
      case Options => request.Startup?
      case Startup => request.AuthResponse? || request.Register? || request.Use?
      case AuthResponse => request.AuthResponse? || request.Register? || request.Use?
      case Register => request.Use?
      case Use => false
  }

  /** OPTIONS, STARTUP, any number of AUTH_RESPONSE, at most one REGISTER, at most one USE. */
  predicate InOrder(sent: seq<Request>)
  {
    sent == [] || (InOrder(sent[..|sent| - 1]) && MayFollow(sent[..|sent| - 1], sent[|sent| - 1]))
  }

  predicate Complete(config: Config, sent: seq<Request>)
  {
    && InOrder(sent) && Startup in sent
    && (Register in sent <==> config.events)
    && (Use in sent <==> config.keyspace)
  }

  /** What has been sent explains what the connector is waiting for. */
  ghost predicate SentOk(s: Connector)
  {
    && InOrder(s.sent)
    && (Register in s.sent ==> s.config.events)
    && (Use in s.sent ==> s.config.keyspace && (s.config.events ==> Register in s.sent))
    && (s.outcome == Some(Ok) ==> Complete(s.config, s.sent))
  }

  ghost predicate WaitOk(s: Connector)
  {
    && (s.link.Connecting? ==> s.sent == [])
    && (s.link.Connecting? || !s.wait.Idle? ==> (s.eventsLeft <==> s.config.events && Register !in s.sent))
    && (!s.wait.Idle? ==> s.sent != [] && s.sent[|s.sent| - 1] == s.wait.request)
    && (s.wait.Saved? ==> CompliantReply(s.wait.request, s.wait.reply))
  }

  lemma InOrderAppend(sent: seq<Request>, request: Request)
    ensures InOrder(sent + [request]) <==> InOrder(sent) && MayFollow(sent, request)
  {
    assert (sent + [request])[..|sent|] == sent;
  }

  lemma {:induction false} OrderFacts(sent: seq<Request>)
    requires InOrder(sent)
    ensures Use in sent ==> sent[|sent| - 1].Use?
    ensures Register in sent ==> sent[|sent| - 1].Register? || sent[|sent| - 1].Use?
    ensures |sent| >= 2 <==> Startup in sent
    ensures sent != [] && sent[|sent| - 1].Options? ==> |sent| == 1
    decreases |sent|
  {
    if sent != [] {
      var init := sent[..|sent| - 1];
      assert sent == init + [sent[|sent| - 1]];
      OrderFacts(init);
    }
  }

  lemma SendSent(s: Connector, request: Request)
    requires SentOk(s) && s.wait.Idle? && MayFollow(s.sent, request) && !s.link.Connecting? && s.outcome != Some(Ok)
    requires request.Register? ==> s.config.events
    requires request.Use? ==> s.config.keyspace && (s.config.events ==> Register in s.sent)
    requires s.eventsLeft <==> s.config.events && Register !in s.sent && !request.Register?
    ensures SentOk(Send(s, request)) && WaitOk(Send(s, request))
  {
    InOrderAppend(s.sent, request);
    hide InOrder, MayFollow, Complete;
    forall r: Request ensures r in s.sent + [request] <==> r in s.sent || r == request {}
  }

  lemma FinishSent(s: Connector, takes: bool)
    requires SentOk(s) && s.wait.Idle? && !s.link.Connecting?
    requires s.code.Ok? && s.finishes == 0 ==> Complete(s.config, s.sent)
    ensures SentOk(Finish(s, takes)) && WaitOk(Finish(s, takes))
  {
    hide InOrder, Complete;
  }

  /** Nothing was sent or awaited between `s` and `t`, and no success was reported. */
  ghost predicate NothingSent(s: Connector, t: Connector)
  {
    && t.sent == s.sent && t.config == s.config && t.eventsLeft == s.eventsLeft
    && (t.outcome == s.outcome || t.outcome != Some(Ok))
    && (t.wait == s.wait || t.wait.Idle?) && (t.link.Connecting? ==> s.link.Connecting?)
  }

  lemma NothingSentKeeps(s: Connector, t: Connector)
    requires SentOk(s) && WaitOk(s) && NothingSent(s, t)
    ensures SentOk(t) && WaitOk(t)
  {
    hide InOrder, Complete, CompliantReply;
  }

  lemma ErrorSends(s: Connector, code: Code, takes: bool)
    requires !code.Ok?
    ensures NothingSent(s, OnError(s, code, takes))
  {
  }

  lemma ErrorSent(s: Connector, code: Code, takes: bool)
    requires SentOk(s) && WaitOk(s) && !s.link.Connecting? && !code.Ok?
    ensures SentOk(OnError(s, code, takes)) && WaitOk(OnError(s, code, takes))
  {
    hide SentOk, WaitOk, OnError, NothingSent;
    ErrorSends(s, code, takes);
    NothingSentKeeps(s, OnError(s, code, takes));
  }

  /** The reply to `request` has come in and no other request is under way. */
  ghost predicate Answered(s: Connector, request: Request)
  {
    && SentOk(s) && s.wait.Idle? && s.link.Link? && s.outcome != Some(Ok)
    && s.sent != [] && s.sent[|s.sent| - 1] == request
    && (s.eventsLeft <==> s.config.events && Register !in s.sent)
  }

  lemma ReadySent(s: Connector, request: Request, takes: bool)
    requires Answered(s, request) && (request.Startup? || request.AuthResponse? || request.Register?)
    ensures SentOk(OnReadyOrRegister(s, takes)) && WaitOk(OnReadyOrRegister(s, takes))
  {
    OrderFacts(s.sent);
    hide InOrder;
    if s.eventsLeft {
      SendSent(s.(eventsLeft := false), Register);
      assert Send(s, Register).(eventsLeft := false) == Send(s.(eventsLeft := false), Register);
    } else if s.config.keyspace {
      SendSent(s, Use);
    } else {
      StartupWasSent(s.sent);
      FinishSent(s, takes);
    }
  }

  lemma StartupWasSent(sent: seq<Request>)
    requires InOrder(sent) && sent != [] && !sent[|sent| - 1].Options?
    ensures Startup in sent
  {
    OrderFacts(sent);
  }

  /** Handling a compliant reply sends the request that comes next, or finishes the handshake. */
  lemma ReplySent(s: Connector, request: Request, reply: Reply, takes: bool)
    requires Answered(s, request) && CompliantReply(request, reply)
    ensures SentOk(OnReply(s, reply, takes)) && WaitOk(OnReply(s, reply, takes))
  {
    hide InOrder, Send, Finish, OnError, OnReadyOrRegister;
    forall code: Code | !code.Ok? ensures SentOk(OnError(s, code, takes)) && WaitOk(OnError(s, code, takes)) {
      ErrorSent(s, code, takes);
    }
    match reply
    case Supported => SendSent(s, Startup);
    case ErrorReply(_) =>
    case Authenticate(good) => if good { SendSent(s, AuthResponse); }
    case AuthChallenge(good) => if good { SendSent(s, AuthResponse); }
    case AuthSuccess(good) => if good { ReadySent(s, request, takes); }
    case Ready => ReadySent(s, request, takes);
    case SetKeyspace =>
      StartupWasSent(s.sent);
      FinishSent(s, takes);
  }

  lemma SavedSent(s: Connector, reply: Reply, takes: bool)
    requires Inv(s) && SentOk(s) && WaitOk(s) && !s.wait.Idle? && CompliantReply(s.wait.request, reply)
    ensures SentOk(OnReply(s.(wait := Idle), reply, takes)) && WaitOk(OnReply(s.(wait := Idle), reply, takes))
  {
    hide InOrder, OnReply, CompliantReply;
    ReplySent(s.(wait := Idle), s.wait.request, reply, takes);
  }

  lemma OptionsSent(s: Connector)
    requires Inv(s) && SentOk(s) && WaitOk(s) && s.link.Connecting?
    ensures var t := s.(link := Link(false, false), listening := true, owned := true);
            SentOk(Send(t, Options)) && WaitOk(Send(t, Options))
  {
    SendSent(s.(link := Link(false, false), listening := true, owned := true), Options);
  }

  /** The events that are not about a reply send nothing. */
  lemma QuietStep(s: Connector, e: Event)
    requires Inv(s) && Enabled(s, e, true)
    requires e.SocketDone? ==> !e.result.SocketOk?
    requires e.Written? || e.RequestDropped? ==> !s.wait.Saved?
    requires !e.Replied?
    ensures NothingSent(s, Step(s, e)) ||
      (e.Written? && s.wait.Waiting? && Step(s, e) == s.(wait := Waiting(s.wait.request, true)))
  {
  }

  lemma StepSent(s: Connector, e: Event)
    requires Inv(s) && SentOk(s) && WaitOk(s) && Enabled(s, e, true) && Compliant(s, e)
    ensures SentOk(Step(s, e)) && WaitOk(Step(s, e))
  {
    hide InOrder, OnReply, Send, CompliantReply, Complete, OnError, Finish, NothingSent, Inv;
    match e
    case SocketDone(result, takes) =>
      if result.SocketOk? { OptionsSent(s); } else { QuietStep(s, e); NothingSentKeeps(s, Step(s, e)); }
    case Replied(reply, takes) => if s.wait.written { SavedSent(s, reply, takes); }
    case Written(ok, takes) =>
      if s.wait.Saved? {
        SavedSent(s, s.wait.reply, takes);
      } else {
        QuietStep(s, e);
        if NothingSent(s, Step(s, e)) { NothingSentKeeps(s, Step(s, e)); }
      }
    case RequestDropped(takes) =>
      if s.wait.Saved? { SavedSent(s, s.wait.reply, takes); } else { QuietStep(s, e); NothingSentKeeps(s, Step(s, e)); }
    case _ =>
      QuietStep(s, e);
      NothingSentKeeps(s, Step(s, e));
  }

  predicate AllCompliant(s: Connector, es: seq<Event>)
    decreases |es|
  {
    es == [] || (Compliant(s, es[0]) && AllCompliant(Step(s, es[0]), es[1..]))
  }

  lemma {:induction false} RunSent(s: Connector, es: seq<Event>)
    requires Inv(s) && SentOk(s) && WaitOk(s) && Legal(s, es, true) && AllCompliant(s, es)
    ensures SentOk(Run(s, es))
    decreases |es|
  {
    if es != [] {
      OrderedTimersNeverTooLate(s, es[0]);
      StepKeeps(s, es[0]);
      StepSent(s, es[0]);
      RunSent(Step(s, es[0]), es[1..]);
    }
  }

  /** Against a compliant server a connector that reports success has sent OPTIONS, STARTUP, any
      number of AUTH_RESPONSE, REGISTER exactly if events were asked for and USE exactly if a
      keyspace was, in this order, although STARTUP and REGISTER are both answered by READY. */
  lemma SuccessMeansFullHandshake(config: Config, now: nat, es: seq<Event>)
    requires Legal(Connecting0(config, now), es, true) && AllCompliant(Connecting0(config, now), es)
    ensures var s := Run(Connecting0(config, now), es);
      InOrder(s.sent) && (s.outcome == Some(Ok) ==> Complete(s.config, s.sent))
  {
    RunSent(Connecting0(config, now), es);
  }

  // ---------------------------------------------------------------- the handshake goes on

  /** The authenticator does not accept the token that came. */
  predicate Rejected(reply: Reply)
  {
    (reply.Authenticate? || reply.AuthChallenge? || reply.AuthSuccess?) && !reply.good
  }

  /** The error a reply means, if any. */
  function ErrorIn(reply: Reply): Option<Reason>
  {
    if reply.ErrorReply? then Some(reply.reason)
    else if Rejected(reply) then Some(Auth)
    else if reply.OtherResult? then Some(Keyspace)
    else if reply.OtherOpcode? then Some(InvalidOpcode)
    else None
  }

  /** The request that is due after a reply without an error, given what was sent so far; none if the
      handshake is complete. */
  function Due(config: Config, sent: seq<Request>, reply: Reply): Option<Request>
  {
    if reply.Supported? then Some(Startup)
    else if reply.Authenticate? || reply.AuthChallenge? then Some(AuthResponse)
    else if reply.SetKeyspace? then None
    else if config.events && Register !in sent then Some(Register)
    else if config.keyspace then Some(Use)
    else None
  }

  /** From `s` to `t` the client was called back for the first time, with this. */
  ghost predicate CalledBack(s: Connector, t: Connector, code: Code)
  {
    s.finishes == 0 && t.finishes == 1 && t.outcome == Some(code)
  }

  /** From `s` to `t` one request was sent, and nobody called back. */
  ghost predicate Asked(s: Connector, t: Connector, request: Request)
  {
    && t.finishes == s.finishes && t.outcome == s.outcome && t.code == s.code
    && t.link == s.link && t.config == s.config && t.socketCanceled == s.socketCanceled
    && t.sent == s.sent + [request] && t.wait == Waiting(request, false) && t.requestAt == s.now
  }

  /** What handling a reply comes to on an open connection without an error: the client hears of the
      error the reply means, or exactly the request that is due goes out, or the client hears of the
      success. */
  ghost predicate Answers(s: Connector, t: Connector, reply: Reply)
  {
    var error, due := ErrorIn(reply), Due(s.config, s.sent, reply);
    && (forall r :: CalledBack(s, t, Failed(r)) <==> error == Some(r))
    && (error.None? && due.Some? ==> Asked(s, t, due.value))
    && (CalledBack(s, t, Ok) <==> error.None? && due.None?)
    && (error.None? && due.None? ==> t.sent == s.sent && t.wait.Idle? && t.code.Ok? && !t.link.Connecting?)
  }

  /** No request is under way on an open connection, and the connector has no error. */
  ghost predicate Attentive(s: Connector)
  {
    && s.finishes == 0 && s.code.Ok? && s.outcome.None? && s.link == Link(false, false) && s.wait.Idle?
    && (s.eventsLeft <==> s.config.events && Register !in s.sent)
  }

  lemma FinishAnswers(s: Connector, takes: bool)
    requires Attentive(s)
    ensures CalledBack(s, Finish(s, takes), Ok)
    ensures var t := Finish(s, takes); t.sent == s.sent && t.wait.Idle? && t.code.Ok? && !t.link.Connecting?
  {
  }

  lemma ErrorAnswers(s: Connector, reason: Reason, takes: bool)
    requires Attentive(s)
    ensures CalledBack(s, OnError(s, Failed(reason), takes), Failed(reason))
  {
  }

  lemma SendAnswers(s: Connector, request: Request)
    requires Attentive(s)
    ensures Asked(s, Send(s, request), request)
    ensures Asked(s, Send(s, request).(eventsLeft := false), request)
  {
  }

  lemma ReplyAnswers(s: Connector, reply: Reply, takes: bool)
    requires Attentive(s)
    ensures Answers(s, OnReply(s, reply, takes), reply)
  {
    hide Finish, OnError, Send;
    FinishAnswers(s, takes);
    SendAnswers(s, Startup);
    SendAnswers(s, AuthResponse);
    SendAnswers(s, Register);
    SendAnswers(s, Use);
    forall reason: Reason ensures CalledBack(s, OnError(s, Failed(reason), takes), Failed(reason)) {
      ErrorAnswers(s, reason, takes);
    }
  }

  /** The reply an event hands over to the connector, just read or kept. */
  function Handed(s: Connector, e: Event): Option<Reply>
  {
    match e
    case Replied(reply, _) => if s.wait.Waiting? && s.wait.written then Some(reply) else None
    case Written(_, _) => if s.wait.Saved? then Some(s.wait.reply) else None
    case RequestDropped(_) => if s.wait.Saved? then Some(s.wait.reply) else None
    case _ => None
  }

  /** An unfinished connector without an error, on a connection that is open, is handed a reply. */
  ghost predicate Listens(s: Connector, e: Event)
  {
    WaitOk(s) && s.finishes == 0 && s.code.Ok? && !IsClosing(s) && Handed(s, e).Some?
  }

  /** It goes on as the reply says. */
  lemma RepliesAreAnswered(s: Connector, e: Event)
    requires Inv(s) && Enabled(s, e, false) && Listens(s, e)
    ensures Answers(s, Step(s, e), Handed(s, e).value)
  {
    TakenOut(s);
    ReplyAnswers(s.(wait := Idle), Handed(s, e).value, e.takes);
    hide OnReply;
  }

  /** What a server does that follows the protocol and has nothing to object to, and a network that
      delivers. */
  predicate Friendly(s: Connector, e: Event)
  {
    match e
    case SocketDone(result, _) => result.SocketOk?
    case Replied(reply, _) => s.wait.Waiting? && CompliantReply(s.wait.request, reply) && ErrorIn(reply).None?
    case Written(ok, _) => ok
    case Tick(_) => true
    case _ => false
  }

  predicate AllFriendly(s: Connector, es: seq<Event>)
    decreases |es|
  {
    es == [] || (Friendly(s, es[0]) && AllFriendly(Step(s, es[0]), es[1..]))
  }

  /** How far one is from Options to Use. */
  function Stage(request: Request): nat
  {
    match request
    case Options => 0
    case Startup => 1
    case AuthResponse => 2
    case Register => 3
    case Use => 4
  }

  /** How many of the events of the current request are still to come: its write callback and its reply. */
  function Outstanding(w: Wait): nat
  {
    match w
    case Idle => 0
    case Waiting(_, written) => if written then 1 else 2
    case Saved(_, _) => 1
  }

  function Bit(b: bool): nat { if b then 1 else 0 }

  predicate IsChallenge(e: Event) { e.Replied? && e.reply.AuthChallenge? }

  function Moves(es: seq<Event>): nat
  {
    if es == [] then 0 else Bit(!es[0].Tick?) + Moves(es[1..])
  }

  function Challenges(es: seq<Event>): nat
  {
    if es == [] then 0 else Bit(IsChallenge(es[0])) + Challenges(es[1..])
  }

  /** Where a friendly run of so many moves and challenges can be. */
  ghost predicate OnTrack(s: Connector, moves: nat, challenges: nat)
  {
    && s.code.Ok? && !s.socketCanceled
    && (s.link.Connecting? ==> s.finishes == 0 && moves == 0)
    && (!s.link.Connecting? ==>
          && s.link.Link? && s.sent != [] && moves + Outstanding(s.wait) == 2 * |s.sent| + 1
          && |s.sent| <= Stage(s.sent[|s.sent| - 1]) + 1 + challenges
             - Bit(s.wait.Saved? && s.wait.reply.AuthChallenge?))
    && (s.link.Link? && s.finishes == 0 ==> !s.link.closing && !s.wait.Idle?)
    && (s.finishes > 0 ==> s.outcome == Some(Ok))
    && (s.wait.Saved? ==> ErrorIn(s.wait.reply).None?)
  }

  /** The next request is further on, unless it answers another challenge. */
  lemma DueIsFurther(s: Connector, request: Request, reply: Reply)
    requires SentOk(s) && s.sent != [] && s.sent[|s.sent| - 1] == request
    requires CompliantReply(request, reply) && ErrorIn(reply).None?
    ensures var due := Due(s.config, s.sent, reply);
      due.Some? ==> Stage(due.value) + Bit(reply.AuthChallenge?) >= Stage(request) + 1
  {
    OrderFacts(s.sent);
    hide InOrder;
  }

  lemma HandedOnTrack(s: Connector, e: Event, moves: nat, challenges: nat)
    requires Inv(s) && SentOk(s) && WaitOk(s) && OnTrack(s, moves, challenges)
    requires Enabled(s, e, true) && Friendly(s, e) && Handed(s, e).Some?
    ensures OnTrack(Step(s, e), moves + 1, challenges + Bit(IsChallenge(e)))
  {
    var reply, t := Handed(s, e).value, Step(s, e);
    DueIsFurther(s, s.wait.request, reply);
    RepliesAreAnswered(s, e);
    hide Step, Inv, SentOk, CompliantReply, InOrder;
    var due := Due(s.config, s.sent, reply);
    if due.Some? {
      assert t.sent[|t.sent| - 1] == due.value;
    } else {
      assert CalledBack(s, t, Ok);
    }
  }

  lemma StepOnTrack(s: Connector, e: Event, moves: nat, challenges: nat)
    requires Inv(s) && SentOk(s) && WaitOk(s) && OnTrack(s, moves, challenges)
    requires Enabled(s, e, true) && Friendly(s, e)
    ensures OnTrack(Step(s, e), moves + Bit(!e.Tick?), challenges + Bit(IsChallenge(e)))
  {
    hide InOrder, Complete, CompliantReply;
    if Handed(s, e).Some? { HandedOnTrack(s, e, moves, challenges); }
  }

  lemma {:induction false} RunOnTrack(s: Connector, es: seq<Event>, moves: nat, challenges: nat)
    requires Inv(s) && SentOk(s) && WaitOk(s) && OnTrack(s, moves, challenges)
    requires Legal(s, es, true) && AllFriendly(s, es)
    ensures var t := Run(s, es); Inv(t) && OnTrack(t, moves + Moves(es), challenges + Challenges(es))
    decreases |es|
  {
    if es != [] {
      OrderedTimersNeverTooLate(s, es[0]);
      hide Inv, SentOk, WaitOk, OnTrack, Step, Enabled;
      StepOnTrack(s, es[0], moves, challenges);
      StepKeeps(s, es[0]);
      FriendlyIsCompliant(s, es[0]);
      StepSent(s, es[0]);
      RunOnTrack(Step(s, es[0]), es[1..], moves + Bit(!es[0].Tick?), challenges + Bit(IsChallenge(es[0])));
    }
  }

  lemma FriendlyIsCompliant(s: Connector, e: Event)
    requires Friendly(s, e)
    ensures Compliant(s, e)
  {
  }

  /** There is nothing left for a friendly server and network to do. */
  ghost predicate Exhausted(s: Connector)
  {
    forall e :: Enabled(s, e, true) && Friendly(s, e) ==> e.Tick?
  }

  /** A reply to each request that nobody could object to. */
  function Kind(request: Request): Reply
  {
    match request
    case Options => Supported
    case Startup => Ready
    case AuthResponse => AuthSuccess(true)
    case Register => Ready
    case Use => SetKeyspace
  }

  lemma ExhaustedExactlyWhen(s: Connector, moves: nat, challenges: nat)
    requires Inv(s) && OnTrack(s, moves, challenges)
    ensures Exhausted(s) <==> s.finishes > 0
  {
    if s.finishes == 0 {
      var e := if s.link.Connecting? then SocketDone(SocketOk, true)
               else if s.wait.Waiting? && s.wait.written then Replied(Kind(s.wait.request), true)
               else Written(true, true);
      assert Enabled(s, e, true) && Friendly(s, e);
    }
  }

  /** Against a server that follows the protocol and accepts every token, without errors, cancel or
      close: the connector is never called back with anything but success, it has succeeded exactly when
      there is nothing left to happen, and that comes about after at most eleven events and two more
      for each challenge, time passing aside. */
  lemma FriendlyRunsSucceed(config: Config, now: nat, es: seq<Event>)
    requires Legal(Connecting0(config, now), es, true) && AllFriendly(Connecting0(config, now), es)
    ensures var s := Run(Connecting0(config, now), es);
      && (s.outcome.None? || s.outcome == Some(Ok))
      && (s.outcome == Some(Ok) <==> Exhausted(s))
      && Moves(es) <= 11 + 2 * Challenges(es)
  {
    RunOnTrack(Connecting0(config, now), es, 0, 0);
    ExhaustedExactlyWhen(Run(Connecting0(config, now), es), Moves(es), Challenges(es));
  }

  // ---------------------------------------------------------------- what an event does for the client

  /** All in one: the invariant is kept, and so is the order of what was sent if the event is regular. */
  lemma StepAll(s: Connector, e: Event)
    requires Inv(s) && Enabled(s, e, false) && !TimesOutTooLate(s, e)
    ensures Inv(Step(s, e)) && Step(s, e).finishes <= 1
    ensures Enabled(s, e, true) && Compliant(s, e) && SentOk(s) && WaitOk(s) ==> SentOk(Step(s, e)) && WaitOk(Step(s, e))
  {
    hide Enabled, SentOk, WaitOk, Compliant, Step, TimesOutTooLate;
    StepKeeps(s, e);
    if Enabled(s, e, true) && Compliant(s, e) && SentOk(s) && WaitOk(s) { StepSent(s, e); }
  }

  lemma SocketOutcome(s: Connector, result: SocketResult, takes: bool)
    requires Inv(s) && Enabled(s, SocketDone(result, takes), false)
    ensures var t := Step(s, SocketDone(result, takes));
      if result.SocketOk? then
        && t.finishes == 0 && t.link.Link? && t.listening && t.owned
        && t.sent == s.sent + [Options] && t.wait == Waiting(Options, false) && t.requestAt == s.now
      else t.finishes == 1 && t.link.NoLink?
           && t.outcome == Some(if result.SocketCanceled? then s.code else Failed(result.reason))
  {
  }

  /** A callback without an error is a success, with a connection whose listener has not been told
      that it is closed and that asks for nothing. */
  ghost predicate SuccessIsReal(s: Connector, t: Connector)
  {
    t.finishes > s.finishes && t.code.Ok? ==> t.outcome == Some(Ok) && t.link.Link? && !t.link.closed && t.wait.Idle?
  }

  lemma ReplyIsReal(s: Connector, reply: Reply, takes: bool)
    requires s.wait.Idle? && s.link.Link? && !s.link.closed && (s.finishes > 0 ==> !s.code.Ok?)
    ensures SuccessIsReal(s, OnReply(s, reply, takes))
  {
    hide Finish, OnError, Send, SuccessIsReal;
    FinishIsReal(s, takes);
    forall request: Request
      ensures SuccessIsReal(s, Send(s, request)) && SuccessIsReal(s, Send(s, request).(eventsLeft := false))
    {
      SendIsReal(s, request);
    }
    forall code: Code | !code.Ok? ensures SuccessIsReal(s, OnError(s, code, takes)) { ErrorIsReal(s, code, takes); }
  }

  lemma FinishIsReal(s: Connector, takes: bool)
    requires s.wait.Idle? && s.link.Link? && !s.link.closed && (s.finishes > 0 ==> !s.code.Ok?)
    ensures SuccessIsReal(s, Finish(s, takes))
  {
  }

  lemma SendIsReal(s: Connector, request: Request)
    ensures SuccessIsReal(s, Send(s, request)) && SuccessIsReal(s, Send(s, request).(eventsLeft := false))
  {
  }

  lemma ErrorIsReal(s: Connector, code: Code, takes: bool)
    requires !code.Ok?
    ensures SuccessIsReal(s, OnError(s, code, takes))
  {
  }

  lemma SuccessOutcome(s: Connector, e: Event)
    requires Inv(s) && Enabled(s, e, false) && (e.Replied? || e.Written? || e.RequestDropped?)
    ensures SuccessIsReal(s, Step(s, e))
  {
    TakenOut(s);
    if s.wait.Saved? && !e.Replied? { ReplyIsReal(s.(wait := Idle), s.wait.reply, e.takes); }
    if e.Replied? { ReplyIsReal(s.(wait := Idle), e.reply, e.takes); }
    hide OnReply, Inv;
  }

  /** The client is called back with a success. */
  predicate Succeeds(s: Connector, e: Event)
  {
    var t := Step(s, e);
    t.finishes > s.finishes && t.outcome == Some(Ok)
  }

  /** The event hands over the reply that ends the handshake: one just read, or one that overtook its
      write callback and was kept for it or for the close. */
  predicate HandsOverTheLast(s: Connector, e: Event)
  {
    match e
    case Replied(reply, _) => s.wait.Waiting? && s.wait.written && EndsHandshake(s, reply)
    case Written(_, _) => s.wait.Saved? && EndsHandshake(s, s.wait.reply)
    case RequestDropped(_) => s.wait.Saved? && EndsHandshake(s, s.wait.reply)
    case _ => false
  }

  ghost predicate Succeeded(s: Connector) { s.finishes > 0 && s.outcome == Some(Ok) }

  lemma FirstCallback(s: Connector, request: Request, takes: bool)
    requires s.finishes == 0
    ensures Succeeded(Finish(s, takes)) <==> s.code.Ok?
    ensures !Succeeded(Send(s, request)) && !Succeeded(Send(s, request).(eventsLeft := false))
    ensures forall code: Code :: !code.Ok? ==> !Succeeded(OnError(s, code, takes))
  {
  }

  lemma ReplySucceeds(s: Connector, reply: Reply, takes: bool)
    requires s.finishes == 0
    ensures Succeeded(OnReply(s, reply, takes)) <==> s.code.Ok? && EndsHandshake(s, reply)
  {
    hide Finish, Send, OnError, Succeeded;
    FirstCallback(s, Startup, takes);
    FirstCallback(s, AuthResponse, takes);
    FirstCallback(s, Register, takes);
    FirstCallback(s, Use, takes);
  }

  /** The event hands over a reply, just read or kept. */
  predicate HandsOver(s: Connector, e: Event)
  {
    e.Replied? || ((e.Written? || e.RequestDropped?) && s.wait.Saved?)
  }

  lemma SilentStep(s: Connector, e: Event)
    requires Inv(s) && Enabled(s, e, false) && !HandsOver(s, e)
    ensures !Succeeds(s, e)
  {
    if e.LinkClosed? { ClosedOutcome(s, e.takes); }
    if e.SocketDone? { SocketOutcome(s, e.result, e.takes); }
  }

  /** A success comes exactly with the last reply to a connector without an error. */
  lemma SucceedsExactlyWhen(s: Connector, e: Event)
    requires Inv(s) && Enabled(s, e, false)
    ensures Succeeds(s, e) <==> s.code.Ok? && HandsOverTheLast(s, e)
  {
    if !HandsOver(s, e) {
      SilentStep(s, e);
    } else {
      TakenOut(s);
      hide OnReply;
      if s.finishes == 0 {
        ReplySucceeds(s.(wait := Idle), if e.Replied? then e.reply else s.wait.reply, e.takes);
      } else {
        StepKeeps(s, e);
      }
    }
  }

  /** The last reply overtook its write callback, and the connection began to close before that. */
  predicate HandsOverLate(s: Connector, e: Event)
  {
    && IsClosing(s) && s.code.Ok? && s.wait.Saved? && EndsHandshake(s, s.wait.reply)
    && (e.Written? || e.RequestDropped?)
  }

  /** A success comes although the connection is already closing exactly if the last reply had overtaken
      its write callback: that callback or the close itself then delivers it. */
  lemma SucceedsWhileClosingExactlyWhen(s: Connector, e: Event)
    requires Inv(s) && Enabled(s, e, false)
    ensures Succeeds(s, e) && IsClosing(s) <==> HandsOverLate(s, e)
    ensures Succeeds(s, e) && e.RequestDropped? ==> IsClosing(s)
  {
    SucceedsExactlyWhen(s, e);
    hide Step, Inv;
  }

  ghost predicate LateSuccess(config: Config, now: nat, es: seq<Event>, e: Event)
  {
    var s := Run(Connecting0(config, now), es);
    && Legal(Connecting0(config, now), es + [e], true)
    && IsClosing(s) && Succeeds(s, e) && Run(Connecting0(config, now), es + [e]).outcome == Some(Ok)
  }

  /** Such a run, with timers in order: READY overtakes the write callback of STARTUP, the socket begins
      to close, and dropping the request delivers the reply. */
  lemma SucceedsWhileClosingHappens()
    ensures exists config, now, es, e :: LateSuccess(config, now, es, e)
  {
    hide Step, Enabled, Run, Legal;
    var config := Config(false, false, 0);
    var c := Connecting0(config, 0);
    var s1 := c.(link := Link(false, false), listening := true, owned := true,
                 wait := Waiting(Options, false), sent := [Options]);
    var s2 := s1.(wait := Waiting(Options, true));
    var s3 := s1.(wait := Waiting(Startup, false), sent := [Options, Startup]);
    var s4 := s3.(wait := Saved(Startup, Ready));
    var s5 := s4.(link := Link(true, false));
    var e0, e1 := SocketDone(SocketOk, false), Written(true, false);
    var e2, e3 := Replied(Supported, false), Replied(Ready, false);
    var drop := RequestDropped(false);
    LateSteps(c, s1, s3, s5);
    FromTo(s5, s5, [], true);
    FromTo(s4, s5, [LinkCloses], true);
    FromTo(s3, s5, [e3, LinkCloses], true);
    FromTo(s2, s5, [e2, e3, LinkCloses], true);
    FromTo(s1, s5, [e1, e2, e3, LinkCloses], true);
    FromTo(c, s5, [e0, e1, e2, e3, LinkCloses], true);
    Append(c, [e0, e1, e2, e3, LinkCloses], drop);
    assert LateSuccess(config, 0, [e0, e1, e2, e3, LinkCloses], drop);
  }

  lemma LateSteps(c: Connector, s1: Connector, s3: Connector, s5: Connector)
    requires c == Connecting0(Config(false, false, 0), 0)
    requires s1 == c.(link := Link(false, false), listening := true, owned := true,
                      wait := Waiting(Options, false), sent := [Options])
    requires s3 == s1.(wait := Waiting(Startup, false), sent := [Options, Startup])
    requires s5 == s3.(wait := Saved(Startup, Ready), link := Link(true, false))
    ensures Enabled(c, SocketDone(SocketOk, false), true) && Step(c, SocketDone(SocketOk, false)) == s1
    ensures Enabled(s1, Written(true, false), true)
    ensures Step(s1, Written(true, false)) == s1.(wait := Waiting(Options, true))
    ensures Enabled(s1.(wait := Waiting(Options, true)), Replied(Supported, false), true)
    ensures Step(s1.(wait := Waiting(Options, true)), Replied(Supported, false)) == s3
    ensures Enabled(s3, Replied(Ready, false), true)
    ensures Step(s3, Replied(Ready, false)) == s3.(wait := Saved(Startup, Ready))
    ensures Enabled(s3.(wait := Saved(Startup, Ready)), LinkCloses, true)
    ensures Step(s3.(wait := Saved(Startup, Ready)), LinkCloses) == s5
    ensures Enabled(s5, RequestDropped(false), true)
    ensures Succeeds(s5, RequestDropped(false)) && Step(s5, RequestDropped(false)).outcome == Some(Ok)
  {
    assert [Options] + [Startup] == [Options, Startup];
  }

  lemma {:induction false} Append(s: Connector, es: seq<Event>, e: Event)
    requires Legal(s, es, true) && Enabled(Run(s, es), e, true)
    ensures Legal(s, es + [e], true) && Run(s, es + [e]) == Step(Run(s, es), e)
    decreases |es|
  {
    if es == [] {
      assert es + [e] == [e] && [e][1..] == [];
    } else {
      assert (es + [e])[1..] == es[1..] + [e];
      Append(Step(s, es[0]), es[1..], e);
    }
  }

  lemma ClosedOutcome(s: Connector, takes: bool)
    requires Inv(s) && Enabled(s, LinkClosed(takes), false)
    ensures var t := Step(s, LinkClosed(takes));
      && t.finishes == 1 && t.link.Link? && t.link.closed
      && (s.finishes == 0 ==> t.outcome == Some(if s.code.Ok? then Failed(Closed) else s.code))
  {
  }

  /** What becomes of a request whose reply is not handed over: it is known to be written, its reply is
      kept for the write callback, or it is dropped without a word; only a failed write is an error. */
  lemma WaitingOutcome(s: Connector, e: Event)
    requires Inv(s) && Enabled(s, e, false) && s.wait.Waiting? && Handed(s, e).None?
    ensures var t := Step(s, e);
      && (e.Written? && e.ok ==> t == s.(wait := Waiting(s.wait.request, true)))
      && (e.Written? && !e.ok ==>
            t.wait.Idle? && if s.code.Ok? then CalledBack(s, t, Failed(Internal)) else t == s.(wait := Idle))
      && (e.Replied? ==> t == s.(wait := Saved(s.wait.request, e.reply)))
      && (e.RequestDropped? ==> t == s.(wait := Idle))
  {
  }

  /** With the callback the connection goes to the client, as it is, if the client takes it; otherwise,
      and after every error, it is closed. */
  lemma CallbackHandsOver(s: Connector, e: Event)
    requires Inv(s) && Enabled(s, e, false) && s.finishes == 0 && Step(s, e).finishes == 1
    ensures var t := Step(s, e);
      && !e.ConnectTimer? && !e.Cancel? && !e.LinkCloses? && !e.Tick?
      && (t.link.Link? ==>
            (t.owned <==> !e.takes) && (IsClosing(t) <==> IsClosing(s) || !e.takes || !t.code.Ok?))
  {
    hide OnReply, Done;
    if e.Replied? {
      HandsOverReply(s.(wait := Idle), e.reply, e.takes);
    } else if (e.Written? || e.RequestDropped?) && s.wait.Saved? {
      HandsOverReply(s.(wait := Idle), s.wait.reply, e.takes);
    }
  }

  ghost predicate HandedOver(s: Connector, t: Connector, takes: bool)
  {
    t.finishes == 1 && s.link.Link? && s.owned ==>
      && t.link.Link? && (t.owned <==> !takes)
      && (IsClosing(t) <==> IsClosing(s) || !takes || !t.code.Ok?)
  }

  lemma HandsOverReply(s: Connector, reply: Reply, takes: bool)
    requires s.finishes == 0 && (!s.code.Ok? ==> s.link.Link? ==> s.link.closing)
    ensures HandedOver(s, OnReply(s, reply, takes), takes)
  {
    hide Finish, OnError, Send, HandedOver;
    FinishHandsOver(s, takes);
    forall request: Request
      ensures HandedOver(s, Send(s, request), takes) && HandedOver(s, Send(s, request).(eventsLeft := false), takes)
    {
      SendHandsOver(s, request, takes);
    }
    forall code: Code | !code.Ok? ensures HandedOver(s, OnError(s, code, takes), takes) {
      ErrorHandsOver(s, code, takes);
    }
  }

  lemma FinishHandsOver(s: Connector, takes: bool)
    requires s.finishes == 0 && (!s.code.Ok? ==> s.link.Link? ==> s.link.closing)
    ensures HandedOver(s, Finish(s, takes), takes)
  {
  }

  lemma SendHandsOver(s: Connector, request: Request, takes: bool)
    requires s.finishes == 0
    ensures HandedOver(s, Send(s, request), takes) && HandedOver(s, Send(s, request).(eventsLeft := false), takes)
  {
  }

  lemma ErrorHandsOver(s: Connector, code: Code, takes: bool)
    requires s.finishes == 0 && !code.Ok?
    ensures HandedOver(s, OnError(s, code, takes), takes)
  {
  }

  /** Giving up calls nobody back, but tells the socket attempt or the connection to end. */
  lemma AbandonOutcome(s: Connector, e: Event)
    requires Inv(s) && Enabled(s, e, false) && (e.ConnectTimer? || e.Cancel?)
    ensures var t := Step(s, e);
      && t.finishes == s.finishes && t.code == (if e.Cancel? then Canceled else TimedOut)
      && (t.link.Connecting? ==> t.socketCanceled) && (t.owned && t.link.Link? ==> t.link.closing)
      && (e.ConnectTimer? ==> !t.timer)
  {
  }

  /** A request timer ends a connector that has no error yet, and does nothing otherwise. */
  lemma TimerOutcome(s: Connector, takes: bool)
    requires Inv(s) && Enabled(s, RequestTimer(takes), false)
    ensures var t := Step(s, RequestTimer(takes));
      && (s.code.Ok? ==> t.finishes == 1 && t.outcome == Some(TimedOut))
      && (!s.code.Ok? || Enabled(s, RequestTimer(takes), true) ==> t == s)
  {
    if Enabled(s, RequestTimer(takes), true) { OrderedTimersNeverTooLate(s, RequestTimer(takes)); }
  }
}
