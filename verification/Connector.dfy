/**
 The connector object. Its handlers update the fields in place. Each is proved to perform one step
 of `Handshake`, to keep the invariant that goes with it, and to do for the client what the event
 calls for: go on, call back once, or see to it that the end comes.
 */
module Connectors {
  import opened Sequences
  import H = Handshake

  class Connector {
    const config: H.Config
    var code: H.Code
    var link: H.Link
    var listening: bool
    var owned: bool
    var socketCanceled: bool
    var wait: H.Wait
    var eventsLeft: bool
    var timer: bool
    var now: nat
    var connectAt: nat
    var requestAt: nat
    ghost var finishes: nat
    ghost var outcome: Option<H.Code>
    ghost var sent: seq<H.Request>

    ghost function State(): H.Connector
      reads this
    {
      H.Connector(config, code, link, listening, owned, socketCanceled, wait, eventsLeft, timer,
                  now, connectAt, requestAt, finishes, outcome, sent)
    }

    ghost predicate Valid()
      reads this
    {
      H.Inv(State())
    }

    /** What was sent is in the order of the handshake, and all of it before a success. */
    ghost predicate Orderly()
      reads this
    {
      H.SentOk(State()) && H.WaitOk(State())
    }

    /** The event may come, and is not a request timer that fires too late. */
    ghost predicate MayCome(e: H.Event)
      reads this
    {
      H.Enabled(State(), e, false) && !H.TimesOutTooLate(State(), e)
    }

    /** An event from a compliant server, with timers that fire in order. */
    ghost predicate Regular(e: H.Event)
      reads this
    {
      H.Enabled(State(), e, true) && H.Compliant(State(), e)
    }

    /** The connector once `connect` has started the socket attempt and the timer. */
    constructor (config: H.Config, now: nat)
      ensures State() == H.Connecting0(config, now) && Valid() && Orderly() && finishes == 0
    {
      this.config := config;
      code, link, listening, owned, socketCanceled := H.Ok, H.Connecting, false, false, false;
      wait, eventsLeft, timer := H.Idle, config.events, config.timeout > 0;
      this.now, connectAt, requestAt := now, now, now;
      finishes, outcome, sent := 0, None, [];
    }

    method CloseLink()
      modifies `link
      ensures State() == H.CloseLink(old(State()))
    {
      if owned && link.Link? { link := link.(closing := true); }
    }

    method Finish(takes: bool)
      modifies this
      ensures State() == H.Finish(old(State()), takes)
    {
      timer, listening := false, false;
      outcome := if finishes == 0 then Some(code) else outcome;
      finishes := finishes + 1;
      if takes { owned := false; } else { CloseLink(); }
    }

    method OnError(error: H.Code, takes: bool)
      modifies this
      ensures State() == H.OnError(old(State()), error, takes)
    {
      if code.Ok? {
        code := error;
        CloseLink();
        Finish(takes);
      }
    }

    method WriteAndFlush(request: H.Request)
      modifies this
      ensures State() == H.Send(old(State()), request)
    {
      if link.Link? && !link.closing {
        wait, requestAt := H.Waiting(request, false), now;
        sent := sent + [request];
      }
    }

    method OnReadyOrSetKeyspace(takes: bool)
      modifies this
      ensures State() == H.OnReadyOrSetKeyspace(old(State()), takes)
    {
      if !config.keyspace { Finish(takes); } else { WriteAndFlush(H.Use); }
    }

    method OnReadyOrRegisterForEvents(takes: bool)
      modifies this
      ensures State() == H.OnReadyOrRegister(old(State()), takes)
    {
      if eventsLeft {
        WriteAndFlush(H.Register);
        eventsLeft := false;
      } else {
        OnReadyOrSetKeyspace(takes);
      }
    }

    method OnAuthToken(good: bool, takes: bool)
      modifies this
      ensures State() == if good then H.Send(old(State()), H.AuthResponse)
                         else H.OnError(old(State()), H.Failed(H.Auth), takes)
    {
      if !good {
        OnError(H.Failed(H.Auth), takes);
        return;
      }
      WriteAndFlush(H.AuthResponse);
    }

    method OnInternalSet(reply: H.Reply, takes: bool)
      modifies this
      ensures State() == H.OnReply(old(State()), reply, takes)
    {
      match reply {
        case Supported => WriteAndFlush(H.Startup);
        case ErrorReply(reason) => OnError(H.Failed(reason), takes);
        case Authenticate(good) => OnAuthToken(good, takes);
        case AuthChallenge(good) => OnAuthToken(good, takes);
        case AuthSuccess(good) =>
          if !good { OnError(H.Failed(H.Auth), takes); } else { OnReadyOrRegisterForEvents(takes); }
        case Ready => OnReadyOrRegisterForEvents(takes);
        case SetKeyspace => Finish(takes);
        case OtherResult => OnError(H.Failed(H.Keyspace), takes);
        case OtherOpcode => OnError(H.Failed(H.InvalidOpcode), takes);
      }
    }

    method OnConnect(result: H.SocketResult, takes: bool)
      requires Valid() && MayCome(H.SocketDone(result, takes))
      modifies this
      ensures State() == H.Step(old(State()), H.SocketDone(result, takes)) && Valid() && finishes <= 1
      ensures result.SocketOk? ==> finishes == 0 && link.Link? && listening && sent == old(sent) + [H.Options]
      ensures !result.SocketOk? ==> finishes == 1 && link.NoLink?
      ensures !result.SocketOk? ==>
        outcome == Some(if result.SocketCanceled? then old(code) else H.Failed(result.reason))
      ensures old(Orderly() && Regular(H.SocketDone(result, takes))) ==> Orderly()
    {
      hide H.Inv, H.SentOk, H.WaitOk, H.Enabled, H.Compliant, H.TimesOutTooLate, H.SuccessIsReal;
      hide H.OnSocket;
      ghost var s, e := State(), H.SocketDone(result, takes);
      H.StepAll(s, e);
      H.SocketOutcome(s, result, takes);
      OnConnectBody(result, takes);
    }

    method OnConnectBody(result: H.SocketResult, takes: bool)
      modifies this
      ensures State() == H.OnSocket(old(State()), result, takes)
    {
      hide H.OnReply, H.OnError, H.Finish, H.Send;
      match result {
        case SocketOk =>
          link, listening, owned := H.Link(false, false), true, true;
          WriteAndFlush(H.Options);
        case SocketCanceled =>
          link := H.NoLink;
          Finish(takes);
        case SocketError(reason) =>
          link := H.NoLink;
          if code.TimedOut? { Finish(takes); } else { OnError(H.Failed(reason), takes); }
      }
    }

    /** The connection read a response to the handshake request. */
    method OnRead(reply: H.Reply, takes: bool)
      requires Valid() && MayCome(H.Replied(reply, takes))
      modifies this
      ensures State() == H.Step(old(State()), H.Replied(reply, takes)) && Valid() && finishes <= 1
      ensures H.SuccessIsReal(old(State()), State())
      ensures finishes > old(finishes) && outcome == Some(H.Ok) ==> !old(H.IsClosing(State()))
      ensures old(H.Listens(State(), H.Replied(reply, takes))) ==> H.Answers(old(State()), State(), reply)
      ensures old(Orderly() && Regular(H.Replied(reply, takes))) ==> Orderly()
    {
      hide H.Inv, H.SentOk, H.WaitOk, H.Enabled, H.Compliant, H.TimesOutTooLate, H.SuccessIsReal;
      hide H.OnReplied;
      ghost var s, e := State(), H.Replied(reply, takes);
      H.StepAll(s, e);
      H.SuccessOutcome(s, e);
      H.SucceedsWhileClosingExactlyWhen(s, e);
      if H.Listens(s, e) { H.RepliesAreAnswered(s, e); }
      OnReadBody(reply, takes);
    }

    method OnReadBody(reply: H.Reply, takes: bool)
      modifies this
      ensures State() == H.OnReplied(old(State()), reply, takes)
    {
      hide H.OnReply, H.OnError, H.Finish, H.Send;
      match wait {
        case Waiting(request, written) =>
          if written {
            wait := H.Idle;
            OnInternalSet(reply, takes);
          } else {
            wait := H.Saved(request, reply);
          }
        case _ =>
      }
    }

    /** The write callback of the handshake request. */
    method OnWrite(ok: bool, takes: bool)
      requires Valid() && MayCome(H.Written(ok, takes))
      modifies this
      ensures State() == H.Step(old(State()), H.Written(ok, takes)) && Valid() && finishes <= 1
      ensures H.SuccessIsReal(old(State()), State())
      ensures finishes > old(finishes) && outcome == Some(H.Ok) && old(H.IsClosing(State())) <==>
        old(H.HandsOverLate(State(), H.Written(ok, takes)))
      ensures old(H.Listens(State(), H.Written(ok, takes))) ==> H.Answers(old(State()), State(), old(wait.reply))
      ensures old(Orderly() && Regular(H.Written(ok, takes))) ==> Orderly()
    {
      hide H.Inv, H.SentOk, H.WaitOk, H.Enabled, H.Compliant, H.TimesOutTooLate, H.SuccessIsReal;
      hide H.OnWritten;
      ghost var s, e := State(), H.Written(ok, takes);
      H.StepAll(s, e);
      H.SuccessOutcome(s, e);
      H.SucceedsWhileClosingExactlyWhen(s, e);
      if H.Listens(s, e) { H.RepliesAreAnswered(s, e); }
      OnWriteBody(ok, takes);
    }

    method OnWriteBody(ok: bool, takes: bool)
      modifies this
      ensures State() == H.OnWritten(old(State()), ok, takes)
    {
      hide H.OnReply, H.OnError, H.Finish, H.Send;
      match wait {
        case Idle =>
        case Waiting(request, _) =>
          if ok {
            wait := H.Waiting(request, true);
          } else {
            wait := H.Idle;
            OnError(H.Failed(H.Internal), takes);
          }
        case Saved(_, reply) =>
          wait := H.Idle;
          OnInternalSet(reply, takes);
      }
    }

    method OnRequestTimeout(takes: bool)
      requires Valid() && MayCome(H.RequestTimer(takes))
      modifies this
      ensures State() == H.Step(old(State()), H.RequestTimer(takes)) && Valid() && finishes <= 1
      ensures old(code.Ok?) ==> finishes == 1 && outcome == Some(H.TimedOut)
      ensures old(!code.Ok? || H.Enabled(State(), H.RequestTimer(takes), true)) ==> State() == old(State())
    {
      hide H.Inv, H.SentOk, H.WaitOk, H.Enabled, H.Compliant, H.TimesOutTooLate, H.SuccessIsReal;
      hide H.OnReply, H.OnError, H.Finish, H.Send;
      ghost var s, e := State(), H.RequestTimer(takes);
      H.StepAll(s, e);
      H.TimerOutcome(s, takes);
      OnError(H.TimedOut, takes);
    }

    method OnTimeout()
      requires Valid() && MayCome(H.ConnectTimer)
      modifies this
      ensures State() == H.Step(old(State()), H.ConnectTimer) && Valid() && finishes <= 1
      ensures code.TimedOut? && !timer
      ensures finishes == old(finishes)
      ensures link.Connecting? ==> socketCanceled
      ensures owned && link.Link? ==> link.closing
    {
      hide H.Inv, H.SentOk, H.WaitOk, H.Enabled, H.Compliant, H.TimesOutTooLate, H.SuccessIsReal;
      hide H.OnReply, H.OnError, H.Finish, H.Send;
      ghost var s, e := State(), H.ConnectTimer;
      H.StepAll(s, e);
      H.AbandonOutcome(s, e);
      code, socketCanceled, timer := H.TimedOut, true, false;
      CloseLink();
    }

    method Cancel()
      requires Valid() && MayCome(H.Cancel)
      modifies this
      ensures State() == H.Step(old(State()), H.Cancel) && Valid() && finishes <= 1
      ensures code.Canceled?
      ensures finishes == old(finishes)
      ensures link.Connecting? ==> socketCanceled
      ensures owned && link.Link? ==> link.closing
    {
      hide H.Inv, H.SentOk, H.WaitOk, H.Enabled, H.Compliant, H.TimesOutTooLate, H.SuccessIsReal;
      hide H.OnReply, H.OnError, H.Finish, H.Send;
      ghost var s, e := State(), H.Cancel;
      H.StepAll(s, e);
      H.AbandonOutcome(s, e);
      code, socketCanceled := H.Canceled, true;
      CloseLink();
    }

    /** The closing socket drops the handshake request. */
    method OnRequestClose(takes: bool)
      requires Valid() && MayCome(H.RequestDropped(takes))
      modifies this
      ensures State() == H.Step(old(State()), H.RequestDropped(takes)) && Valid() && finishes <= 1
      ensures H.SuccessIsReal(old(State()), State())
      ensures finishes > old(finishes) && outcome == Some(H.Ok) <==>
        old(H.HandsOverLate(State(), H.RequestDropped(takes)))
      ensures old(Orderly() && Regular(H.RequestDropped(takes))) ==> Orderly()
    {
      hide H.Inv, H.SentOk, H.WaitOk, H.Enabled, H.Compliant, H.TimesOutTooLate, H.SuccessIsReal;
      hide H.OnDropped;
      ghost var s, e := State(), H.RequestDropped(takes);
      H.StepAll(s, e);
      H.SuccessOutcome(s, e);
      H.SucceedsWhileClosingExactlyWhen(s, e);
      OnRequestCloseBody(takes);
    }

    method OnRequestCloseBody(takes: bool)
      modifies this
      ensures State() == H.OnDropped(old(State()), takes)
    {
      hide H.OnReply, H.OnError, H.Finish, H.Send;
      var held := wait;
      wait := H.Idle;
      if held.Saved? { OnInternalSet(held.reply, takes); }
    }

    method OnClose(takes: bool)
      requires Valid() && MayCome(H.LinkClosed(takes))
      modifies this
      ensures State() == H.Step(old(State()), H.LinkClosed(takes)) && Valid() && finishes <= 1
      ensures finishes == 1 && link.Link? && link.closed
      ensures old(finishes) == 0 ==> outcome == Some(if old(code.Ok?) then H.Failed(H.Closed) else old(code))
    {
      hide H.Inv, H.SentOk, H.WaitOk, H.Enabled, H.Compliant, H.TimesOutTooLate, H.SuccessIsReal;
      hide H.OnClosed;
      ghost var s, e := State(), H.LinkClosed(takes);
      H.StepAll(s, e);
      H.ClosedOutcome(s, takes);
      OnCloseBody(takes);
    }

    method OnCloseBody(takes: bool)
      modifies this
      ensures State() == H.OnClosed(old(State()), takes)
    {
      hide H.OnReply, H.OnError, H.Finish, H.Send;
      if link.Link? { link := link.(closing := true, closed := true); }
      if !listening { return; }
      if code.Canceled? || code.TimedOut? { Finish(takes); } else { OnError(H.Failed(H.Closed), takes); }
    }
  }
}
