/**
 The connection object: its fields are updated in place by the event handlers, and every handler
 is proved to perform the steps of `Multiplexing` and nothing else.
 */
module Connections {
  import opened Sequences
  import opened Multiplexing

  /** One message of a read, and the calls its callback makes on the connection before returning. */
  datatype Delivery = Delivery(frame: Frame, calls: seq<Event>)

  predicate IsCall(e: Event) { e.BeginWrite? || e.FinishWrite? || e.Close? }

  ghost function Events(ds: seq<Delivery>): seq<Event>
  {
    if ds == [] then [] else Events(ds[..|ds| - 1]) + ([Received(ds[|ds| - 1].frame)] + ds[|ds| - 1].calls)
  }

  ghost function CloseEvents(n: nat): (es: seq<Event>)
    ensures |es| == n + 1
  {
    if n == 0 then [CloseDone] else [DropRead] + CloseEvents(n - 1)
  }

  class Connection {
    var streams: map<int, RequestId>
    var callbacks: map<RequestId, Callback>
    var inflight: int
    var pendingReads: seq<RequestId>
    var entering: seq<RequestId>              // the call stack of nested writes
    var held: set<RequestId>
    var closing: bool
    ghost var tearingDown: bool
    var closed: bool
    ghost var accepted: set<RequestId>
    ghost var answered: set<RequestId>
    var log: seq<Note>
    var heard: seq<Response>

    ghost function State(): Conn
      reads this
    {
      Conn(streams, callbacks, inflight, pendingReads, entering, held, closing, tearingDown, closed,
           accepted, answered, log, heard)
    }

    constructor ()
      ensures State() == Fresh
    {
      streams, callbacks, inflight, pendingReads := map[], map[], 0, [];
      held, closing, closed, log, heard := {}, false, false, [], [];
      entering, tearingDown, accepted, answered := [], false, {}, {};
    }

    /** The first half of `write`: take a stream and tell the callback about it. */
    method BeginWrite(id: RequestId, idempotent: bool, choice: Option<int>) returns (stream: int)
      modifies this
      ensures State() == Acquire(old(State()), id, idempotent, choice)
      ensures stream == if choice.Some? then choice.value else -1
    {
      if choice.None? { return -1; }
      stream := choice.value;
      streams := streams[stream := id];
      callbacks := callbacks[id := Callback(stream, idempotent, New)];
      entering := entering + [id];
    }

    /** The second half of `write`: hand the request to the socket and settle the outcome. */
    method FinishWrite(outcome: Outcome)
      requires entering != [] && Top(State()) in callbacks
      modifies this
      ensures State() == PastSocket(old(State()), outcome)
    {
      var id := entering[|entering| - 1];
      entering := entering[..|entering| - 1];
      match outcome {
        case Sent =>
          inflight := inflight + 1;
          held, accepted := held + {id}, accepted + {id};
          SetPhase(id, Writing);
        case Empty =>
          streams := streams - {callbacks[id].stream};
          log := log + [Error(id, NoData)];
        case Refused =>
          streams := streams - {callbacks[id].stream};
      }
    }

    method SetPhase(id: RequestId, phase: Phase)
      requires id in callbacks
      modifies `callbacks
      ensures callbacks == old(callbacks)[id := old(callbacks)[id].(phase := phase)]
    {
      callbacks := callbacks[id := callbacks[id].(phase := phase)];
    }

    method OnWrite(id: RequestId, ok: bool)
      requires id in callbacks
      modifies this
      ensures State() == Multiplexing.OnWrite(old(State()), id, ok)
    {
      held := held - {id};
      match callbacks[id].phase {
        case Writing =>
          if ok {
            SetPhase(id, Reading);
            pendingReads := pendingReads + [id];
          } else {
            streams := streams - {callbacks[id].stream};
            inflight := inflight - 1;
            SetPhase(id, Finished);
            log := log + [Error(id, WriteError)];
          }
        case ReadBeforeWrite(saved) =>
          streams := streams - {callbacks[id].stream};
          inflight := inflight - 1;
          SetPhase(id, Finished);
          log := log + [Set(id, saved)];
        case _ =>
          closing := true;
      }
    }

    /** One iteration of the read loop, entered only while the socket is open. */
    method OnFrame(frame: Frame)
      requires !closing && forall stream :: stream in streams ==> streams[stream] in callbacks
      modifies this
      ensures State() == Multiplexing.OnFrame(old(State()), frame)
    {
      match frame {
        case Garbage => closing := true;
        case Partial =>
        case Message(stream, isEvent, response) =>
          if stream < 0 {
            if isEvent { heard := heard + [response]; } else { closing := true; }
            return;
          }
          hide Multiplexing.OnMessage;
          ghost var before := answered;
          OnMessage(stream, response);
          answered := before + {response.answers};
      }
    }

    method OnMessage(stream: int, response: Response)
      requires forall stream :: stream in streams ==> streams[stream] in callbacks
      modifies this
      ensures State() == Multiplexing.OnMessage(old(State()), stream, response)
    {
      if stream !in streams {
        closing := true;
        return;
      }
      var id := streams[stream];
      match callbacks[id].phase {
        case Reading =>
          pendingReads := Without(pendingReads, id);
          streams := streams - {callbacks[id].stream};
          inflight := inflight - 1;
          SetPhase(id, Finished);
          log := log + [Set(id, response)];
        case Writing => SetPhase(id, ReadBeforeWrite(response));
        case _ => closing := true;
      }
    }

    method Close()
      modifies `closing
      ensures closing
    {
      closing := true;
    }

    /** A call made by client code while a callback runs. */
    method Perform(e: Event)
      requires Inv(State()) && Enabled(State(), e) && IsCall(e)
      modifies this
      ensures State() == Step(old(State()), e)
    {
      match e {
        case BeginWrite(id, idempotent, choice) => var _ := BeginWrite(id, idempotent, choice);
        case FinishWrite(outcome) =>
          TopFacts(State());
          FinishWrite(outcome);
        case Close => Close();
      }
    }

    /** The read loop. It stops as soon as the socket is closing; otherwise it is exactly the run
        of the messages interleaved with the calls their callbacks made. */
    method OnRead(ds: seq<Delivery>) returns (n: nat)
      requires Inv(State()) && Legal(State(), Events(ds), false)
      requires forall d :: d in ds ==> forall e :: e in d.calls ==> IsCall(e)
      modifies this
      ensures n <= |ds| && (n < |ds| ==> closing)
      ensures Legal(old(State()), Events(ds[..n]), false)
      ensures State() == Run(old(State()), Events(ds[..n]))
    {
      n := 0;
      hide Inv, Step, Enabled;
      ghost var s0 := State();
      EventsPrefix(ds, 0);
      while n < |ds| && !closing
        invariant n <= |ds|
        invariant Legal(s0, Events(ds[..n]), false) && State() == Run(s0, Events(ds[..n]))
      {
        NextDelivery(s0, ds, n);
        OnFrame(ds[n].frame);
        PerformAll(ds[n].calls);
        n := n + 1;
      }
    }

    method PerformAll(calls: seq<Event>)
      requires Inv(State()) && Legal(State(), calls, false)
      requires forall e :: e in calls ==> IsCall(e)
      modifies this
      ensures State() == Run(old(State()), calls)
    {
      ghost var s0 := State();
      for i := 0 to |calls|
        invariant Inv(State()) && Legal(State(), calls[i..], false)
        invariant Run(State(), calls[i..]) == Run(s0, calls)
      {
        StepKeeps(State(), calls[i]);
        Perform(calls[i]);
        assert calls[i..][1..] == calls[i + 1..];
      }
    }

    /** `RequestCallback::on_close` for the request at the front of the pending reads. */
    method DropFront()
      requires pendingReads != [] && pendingReads[0] in callbacks && callbacks[pendingReads[0]].phase == Reading
      modifies this
      ensures State() == Drop(old(State()).(pendingReads := old(pendingReads)[1..]), old(pendingReads)[0])
    {
      var id := pendingReads[0];
      pendingReads := pendingReads[1..];
      tearingDown := true;
      log := log + [if callbacks[id].idempotent then Retry(id) else Error(id, TimedOut)];
      SetPhase(id, Finished);
    }

    /** Every request still waiting for a response is told that the connection closed. */
    method OnClose()
      requires ReadyToClose(State())
      modifies this
      ensures closed
      ensures Legal(old(State()), CloseEvents(|old(pendingReads)|), false)
      ensures State() == Run(old(State()), CloseEvents(|old(pendingReads)|))
    {
      ghost var s0 := State();
      CloseRun(s0);
      while pendingReads != []
        invariant ReadyToClose(State()) && Legal(State(), CloseEvents(|pendingReads|), false)
        invariant Run(State(), CloseEvents(|pendingReads|)) == Run(s0, CloseEvents(|s0.pendingReads|))
        decreases |pendingReads|
      {
        CloseRun(State());
        DropFront();
      }
      CloseRun(State());
      tearingDown, closed := true, true;
    }
  }

  /** The events of one more delivery are a legal continuation, and performing them one after the
      other is the longer run. */
  lemma NextDelivery(s0: Conn, ds: seq<Delivery>, n: nat)
    requires Inv(s0) && n < |ds| && Legal(s0, Events(ds), false) && Legal(s0, Events(ds[..n]), false)
    requires !Run(s0, Events(ds[..n])).closing
    ensures Legal(s0, Events(ds[..n + 1]), false)
    ensures var s := Run(s0, Events(ds[..n]));
      var t := Multiplexing.OnFrame(s, ds[n].frame);
      && Inv(s) && Inv(t) && Legal(t, ds[n].calls, false)
      && Run(s0, Events(ds[..n + 1])) == Run(t, ds[n].calls)
  {
    hide Inv;
    EventsPrefix(ds, n + 1);
    var tail := Events(ds)[|Events(ds[..n + 1])|..];
    assert Events(ds[..n + 1]) + tail == Events(ds);
    LegalPrefix(s0, Events(ds[..n + 1]), tail);
    var es := [Received(ds[n].frame)] + ds[n].calls;
    RunConcat(s0, Events(ds[..n]), es);
    RunKeeps(s0, Events(ds[..n]));
    assert es[1..] == ds[n].calls;
    StepKeeps(Run(s0, Events(ds[..n])), es[0]);
  }

  /** The socket has delivered or dropped every request it held: `Connection::on_close` may run. */
  ghost predicate ReadyToClose(s: Conn)
  {
    Inv(s) && s.closing && s.held == {} && s.entering == [] && !s.closed
  }

  lemma NextDrop(s: Conn)
    requires ReadyToClose(s) && s.pendingReads != []
    ensures s.pendingReads[0] in s.callbacks && s.callbacks[s.pendingReads[0]].phase == Reading
    ensures Enabled(s, DropRead)
    ensures Step(s, DropRead) == Drop(s.(pendingReads := s.pendingReads[1..]), s.pendingReads[0])
    ensures ReadyToClose(Step(s, DropRead))
  {
    assert Has(s, s.pendingReads[0], Reading);
    StepKeeps(s, DropRead);
  }

  lemma {:induction false} CloseRun(s: Conn)
    requires ReadyToClose(s)
    ensures Legal(s, CloseEvents(|s.pendingReads|), false)
    ensures s.pendingReads == [] ==> Run(s, CloseEvents(0)) == s.(tearingDown := true, closed := true)
    ensures s.pendingReads != [] ==>
              && s.pendingReads[0] in s.callbacks && s.callbacks[s.pendingReads[0]].phase == Reading
              && var t := Drop(s.(pendingReads := s.pendingReads[1..]), s.pendingReads[0]);
              && ReadyToClose(t) && Legal(t, CloseEvents(|t.pendingReads|), false)
              && Run(s, CloseEvents(|s.pendingReads|)) == Run(t, CloseEvents(|t.pendingReads|))
    decreases |s.pendingReads|
  {
    hide TableOk, ListsOk, CountsOk, NotesOk;
    if s.pendingReads == [] {
      StepKeeps(s, CloseDone);
      assert [CloseDone][1..] == [];
    } else {
      NextDrop(s);
      CloseRun(Step(s, DropRead));
      assert CloseEvents(|s.pendingReads|)[1..] == CloseEvents(|s.pendingReads| - 1);
    }
  }

  lemma {:induction false} LegalPrefix(s: Conn, a: seq<Event>, b: seq<Event>)
    requires Legal(s, a + b, false)
    ensures Legal(s, a, false)
    decreases |a|
  {
    if a != [] {
      assert (a + b)[1..] == a[1..] + b;
      LegalPrefix(Step(s, a[0]), a[1..], b);
    }
  }

  lemma {:induction false} EventsPrefix(ds: seq<Delivery>, n: nat)
    requires n <= |ds|
    ensures Events(ds[..n]) <= Events(ds)
    ensures n == 0 ==> Events(ds[..n]) == []
    ensures n > 0 ==> Events(ds[..n]) == Events(ds[..n - 1]) + ([Received(ds[n - 1].frame)] + ds[n - 1].calls)
    decreases |ds| - n
  {
    if n > 0 { assert ds[..n][..n - 1] == ds[..n - 1]; }
    if n < |ds| {
      EventsPrefix(ds, n + 1);
      assert ds[..n + 1][..n] == ds[..n];
    } else {
      assert ds[..n] == ds;
    }
  }
}
