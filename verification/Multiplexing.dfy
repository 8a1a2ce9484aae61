/**
 Request multiplexing on one connection: stream ids, the in-flight counter, the pending-read
 list and the state of every request callback, from `Connection::write` to `Connection::on_close`.

 A step is one uninterrupted piece of event-loop work. `write` is two steps, because
 `notify_write` runs client code that may call `write` again before the outer call has reached
 the socket; every other handler calls its callback as its last action, so a call made by that
 callback is simply the next step.
 */
module Multiplexing {
  import opened Sequences

  /** Stream ids are the non-negative 16-bit integers (protocol v3 and later). */
  const MAX_STREAMS: int := 32768

  /** Identifies one attempt to write one request callback. */
  type RequestId = nat

  /** A response carries whatever the server computed for the request named by `answers`.
      The driver never looks at that name: it only has the stream id to go by. */
  datatype Response = Response(answers: RequestId)

  datatype Phase = New | Writing | Reading | ReadBeforeWrite(saved: Response) | Finished {
    /** Between acceptance by the socket and the terminal notification. */
    predicate Live() { Writing? || Reading? || ReadBeforeWrite? }
  }

  datatype Callback = Callback(stream: int, idempotent: bool, phase: Phase)

  datatype Reason = NoData | WriteError | TimedOut

  datatype Note =
    | Set(id: RequestId, response: Response)
    | Error(id: RequestId, reason: Reason)
    | Retry(id: RequestId)

  /** What one iteration of the read loop sees at the current position of the buffer. */
  datatype Frame = Garbage | Partial | Message(stream: int, isEvent: bool, response: Response)

  datatype Outcome = Sent | Empty | Refused

  datatype Conn = Conn(
    streams: map<int, RequestId>,           // the stream manager's pending requests
    callbacks: map<RequestId, Callback>,    // stream and state kept by each callback
    inflight: int,
    pendingReads: seq<RequestId>,
    entering: seq<RequestId>,               // write calls inside notify_write, innermost last
    held: set<RequestId>,                   // in the socket, write callback not yet delivered
    closing: bool,
    tearingDown: bool,                      // the socket's close callback has started
    closed: bool,
    accepted: set<RequestId>,               // history: writes that returned a positive size
    answered: set<RequestId>,               // history: requests whose response was read
    log: seq<Note>,                         // history: notifications, in order
    heard: seq<Response>)                   // history: events passed to the listener, in order

  const Fresh := Conn(map[], map[], 0, [], [], {}, false, false, false, {}, {}, [], [])

  datatype Event =
    | BeginWrite(id: RequestId, idempotent: bool, choice: Option<int>)
    | FinishWrite(outcome: Outcome)
    | Wrote(id: RequestId, ok: bool)
    | Received(frame: Frame)
    | Close
    | DropHeld(id: RequestId)
    | DropRead
    | CloseDone

  /** What the event loop, the socket and the stream manager guarantee about the next step. */
  predicate Enabled(s: Conn, e: Event)
  {
    match e
    case BeginWrite(id, _, choice) =>
      && id !in s.callbacks
      && (match choice
          case None => |s.streams| == MAX_STREAMS
          case Some(stream) => 0 <= stream < MAX_STREAMS && stream !in s.streams)
    case FinishWrite(outcome) => s.entering != [] && (s.closing ==> outcome.Refused?)
    case Wrote(id, ok) => s.entering == [] && !s.tearingDown && id in s.held && (!ok ==> s.closing)
    case Received(_) => s.entering == [] && !s.tearingDown
    case Close => true
    case DropHeld(id) => s.entering == [] && s.closing && id in s.held
    case DropRead => s.entering == [] && s.closing && s.held == {} && s.pendingReads != []
    case CloseDone => s.entering == [] && s.closing && s.held == {} && s.pendingReads == [] && !s.closed
  }

  /** The callback object behind an id. */
  function At(s: Conn, id: RequestId): Callback
  {
    if id in s.callbacks then s.callbacks[id] else Callback(-1, false, New)
  }

  function WithPhase(s: Conn, id: RequestId, phase: Phase): Conn
  {
    s.(callbacks := s.callbacks[id := At(s, id).(phase := phase)])
  }

  /** Frees the stream, lowers the counter and marks the callback finished. */
  function Retire(s: Conn, id: RequestId, n: Note): Conn
  {
    WithPhase(s, id, Finished).(
      streams := s.streams - {At(s, id).stream},
      inflight := s.inflight - 1,
      log := s.log + [n])
  }

  function Acquire(s: Conn, id: RequestId, idempotent: bool, choice: Option<int>): Conn
  {
    match choice
    case None => s
    case Some(stream) =>
      s.(streams := s.streams[stream := id],
         callbacks := s.callbacks[id := Callback(stream, idempotent, New)],
         entering := s.entering + [id])
  }

  /** The innermost write call that has not reached the socket. */
  function Top(s: Conn): RequestId
    requires s.entering != []
  {
    s.entering[|s.entering| - 1]
  }

  function PastSocket(s: Conn, outcome: Outcome): Conn
    requires s.entering != []
  {
    var id := Top(s);
    var t := s.(entering := s.entering[..|s.entering| - 1]);
    match outcome
    case Sent =>
      WithPhase(t, id, Writing).(
        inflight := s.inflight + 1, held := s.held + {id}, accepted := s.accepted + {id})
    case Empty =>
      t.(streams := s.streams - {At(s, id).stream}, log := s.log + [Error(id, NoData)])
    case Refused =>
      t.(streams := s.streams - {At(s, id).stream})
  }

  function OnWrite(s: Conn, id: RequestId, ok: bool): Conn
  {
    var t := s.(held := s.held - {id});
    match At(s, id).phase
    case Writing =>
      if ok then WithPhase(t, id, Reading).(pendingReads := s.pendingReads + [id])
      else Retire(t, id, Error(id, WriteError))
    case ReadBeforeWrite(saved) => Retire(t, id, Set(id, saved))
    case _ => t.(closing := true)
  }

  function OnMessage(s: Conn, stream: int, response: Response): Conn
  {
    if stream !in s.streams then s.(closing := true)
    else
      var id := s.streams[stream];
      match At(s, id).phase
      case Reading =>
        Retire(s.(pendingReads := Without(s.pendingReads, id)), id, Set(id, response))
      case Writing => WithPhase(s, id, ReadBeforeWrite(response))
      case _ => s.(closing := true)
  }

  function OnFrame(s: Conn, frame: Frame): Conn
  {
    if s.closing then s
    else match frame
      case Garbage => s.(closing := true)
      case Partial => s
      case Message(stream, isEvent, response) =>
        if stream < 0 then (if isEvent then s.(heard := s.heard + [response]) else s.(closing := true))
        else OnMessage(s, stream, response).(answered := s.answered + {response.answers})
  }

  /** `RequestCallback::on_close`: the stream and the counter are no longer maintained. */
  function Drop(s: Conn, id: RequestId): Conn
  {
    var note := match At(s, id).phase
      case ReadBeforeWrite(saved) => Set(id, saved)
      case _ => if At(s, id).idempotent then Retry(id) else Error(id, TimedOut);
    WithPhase(s, id, Finished).(log := s.log + [note], tearingDown := true)
  }

  function Step(s: Conn, e: Event): Conn
    requires Enabled(s, e)
  {
    match e
    case BeginWrite(id, idempotent, choice) => Acquire(s, id, idempotent, choice)
    case FinishWrite(outcome) => PastSocket(s, outcome)
    case Wrote(id, ok) => OnWrite(s, id, ok)
    case Received(frame) => OnFrame(s, frame)
    case Close => s.(closing := true)
    case DropHeld(id) => Drop(s.(held := s.held - {id}), id)
    case DropRead => Drop(s.(pendingReads := s.pendingReads[1..]), s.pendingReads[0])
    case CloseDone => s.(tearingDown := true, closed := true)
  }

  // ---------------------------------------------------------------- the invariant

  ghost predicate Has(s: Conn, id: RequestId, phase: Phase)
  {
    id in s.callbacks && s.callbacks[id].phase == phase
  }

  ghost predicate IsLive(s: Conn, id: RequestId)
  {
    id in s.callbacks && s.callbacks[id].phase.Live()
  }

  ghost function LiveSet(s: Conn): set<RequestId>
  {
    set id | id in s.callbacks && s.callbacks[id].phase.Live()
  }

  function Count(log: seq<Note>, id: RequestId): nat
  {
    if log == [] then 0
    else Count(log[..|log| - 1], id) + (if log[|log| - 1].id == id then 1 else 0)
  }

  /** The stream table and the callbacks describe the same assignment. */
  ghost predicate TableOk(s: Conn)
  {
    && (forall st :: st in s.streams ==>
          0 <= st < MAX_STREAMS && s.streams[st] in s.callbacks && s.callbacks[s.streams[st]].stream == st)
    && (forall id :: IsLive(s, id) || id in s.entering ==>
          id in s.callbacks && s.callbacks[id].stream in s.streams && s.streams[s.callbacks[id].stream] == id)
    && (!s.tearingDown ==>
          forall st :: st in s.streams ==> IsLive(s, s.streams[st]) || s.streams[st] in s.entering)
  }

  ghost predicate ListsOk(s: Conn)
  {
    && Distinct(s.entering)
    && (forall id :: id in s.entering ==> Has(s, id, New))
    && Distinct(s.pendingReads)
    && (forall id :: id in s.pendingReads <==> Has(s, id, Reading))
    && (forall id :: id in s.held <==> IsLive(s, id) && !Has(s, id, Reading))
    && (forall id :: id in s.accepted <==> id in s.callbacks && !Has(s, id, New))
  }

  ghost predicate CountsOk(s: Conn)
  {
    !s.tearingDown ==> s.inflight == |LiveSet(s)| && |s.streams| == s.inflight + |s.entering|
  }

  ghost predicate NotesOk(s: Conn)
  {
    && (forall id :: id in s.accepted ==> Count(s.log, id) == if Has(s, id, Finished) then 1 else 0)
    && (forall id :: id !in s.accepted ==> Count(s.log, id) <= 1)
    && (forall id :: id !in s.callbacks || id in s.entering ==> Count(s.log, id) == 0)
  }

  ghost predicate CloseOk(s: Conn)
  {
    && (s.tearingDown ==> s.closing)
    && (s.closed ==> s.tearingDown && s.held == {} && s.pendingReads == [])
  }

  ghost predicate Inv(s: Conn)
  {
    TableOk(s) && ListsOk(s) && CountsOk(s) && NotesOk(s) && CloseOk(s)
  }

  // ---------------------------------------------------------------- each step keeps it

  lemma AcquireTable(s: Conn, id: RequestId, idempotent: bool, stream: int)
    requires TableOk(s) && ListsOk(s) && CountsOk(s) && Enabled(s, BeginWrite(id, idempotent, Some(stream)))
    ensures TableOk(Acquire(s, id, idempotent, Some(stream))) && CountsOk(Acquire(s, id, idempotent, Some(stream)))
  {
    var t := Acquire(s, id, idempotent, Some(stream));
    assert LiveSet(t) == LiveSet(s);
  }

  lemma AcquireLists(s: Conn, id: RequestId, idempotent: bool, stream: int)
    requires ListsOk(s) && NotesOk(s) && Enabled(s, BeginWrite(id, idempotent, Some(stream)))
    ensures ListsOk(Acquire(s, id, idempotent, Some(stream))) && NotesOk(Acquire(s, id, idempotent, Some(stream)))
  {
    DistinctAppend(s.entering, id);
  }

  lemma AcquireKeeps(s: Conn, id: RequestId, idempotent: bool, choice: Option<int>)
    requires Inv(s) && Enabled(s, BeginWrite(id, idempotent, choice))
    ensures Inv(Acquire(s, id, idempotent, choice))
  {
    if choice.Some? {
      AcquireTable(s, id, idempotent, choice.value);
      AcquireLists(s, id, idempotent, choice.value);
    }
  }

  lemma TopFacts(s: Conn)
    requires ListsOk(s) && s.entering != []
    ensures Top(s) in s.callbacks && Has(s, Top(s), New)
    ensures var rest := s.entering[..|s.entering| - 1];
            Distinct(rest) && forall id :: id in s.entering <==> id in rest || id == Top(s)
    ensures Top(s) !in s.entering[..|s.entering| - 1]
  {
    var rest := s.entering[..|s.entering| - 1];
    assert s.entering == rest + [Top(s)];
    DistinctAppend(rest, Top(s));
    assert Top(s) in s.entering;
  }

  lemma PastSocketTable(s: Conn, outcome: Outcome)
    requires TableOk(s) && ListsOk(s) && Enabled(s, FinishWrite(outcome))
    ensures TableOk(PastSocket(s, outcome))
  {
    TopFacts(s);
  }

  lemma PastSocketCounts(s: Conn, outcome: Outcome)
    requires TableOk(s) && ListsOk(s) && CountsOk(s) && Enabled(s, FinishWrite(outcome))
    ensures CountsOk(PastSocket(s, outcome))
  {
    TopFacts(s);
    assert Top(s) in s.entering;
    SocketCounts(s, outcome);
  }

  lemma SocketCounts(s: Conn, outcome: Outcome)
    requires CountsOk(s) && s.entering != [] && Has(s, Top(s), New) && At(s, Top(s)).stream in s.streams
    ensures CountsOk(PastSocket(s, outcome))
  {
    hide LiveSet;
    PastSocketLive(s, outcome);
  }

  lemma PastSocketLive(s: Conn, outcome: Outcome)
    requires s.entering != [] && Has(s, Top(s), New)
    ensures LiveSet(PastSocket(s, outcome)) == if outcome.Sent? then LiveSet(s) + {Top(s)} else LiveSet(s)
    ensures Top(s) !in LiveSet(s)
  {
  }

  lemma PastSocketLists(s: Conn, outcome: Outcome)
    requires ListsOk(s) && Enabled(s, FinishWrite(outcome))
    ensures ListsOk(PastSocket(s, outcome))
  {
    TopFacts(s);
  }

  lemma PastSocketNotes(s: Conn, outcome: Outcome)
    requires ListsOk(s) && NotesOk(s) && Enabled(s, FinishWrite(outcome))
    ensures NotesOk(PastSocket(s, outcome))
  {
    TopFacts(s);
  }

  lemma PastSocketKeeps(s: Conn, outcome: Outcome)
    requires Inv(s) && Enabled(s, FinishWrite(outcome))
    ensures Inv(PastSocket(s, outcome))
  {
    PastSocketTable(s, outcome);
    PastSocketCounts(s, outcome);
    PastSocketLists(s, outcome);
    PastSocketNotes(s, outcome);
  }

  /** The lists no longer mention `id`. */
  function Unlist(s: Conn, id: RequestId): Conn
  {
    s.(held := s.held - {id}, pendingReads := Without(s.pendingReads, id))
  }

  lemma RetireTable(s: Conn, id: RequestId, n: Note)
    requires TableOk(s) && CountsOk(s) && IsLive(s, id) && s.entering == [] && !s.tearingDown
    ensures TableOk(Retire(Unlist(s, id), id, n)) && CountsOk(Retire(Unlist(s, id), id, n))
  {
    assert LiveSet(Retire(Unlist(s, id), id, n)) == LiveSet(s) - {id};
  }

  lemma FinishLists(s: Conn, t: Conn, id: RequestId)
    requires ListsOk(s) && IsLive(s, id) && s.entering == [] == t.entering
    requires t.callbacks == WithPhase(s, id, Finished).callbacks && t.accepted == s.accepted
    requires t.held == s.held - {id} && t.pendingReads == Without(s.pendingReads, id)
    ensures ListsOk(t)
  {
    WithoutDistinct(s.pendingReads, id);
  }

  lemma FinishNotes(s: Conn, t: Conn, id: RequestId, n: Note)
    requires NotesOk(s) && id in s.accepted && IsLive(s, id) && s.entering == [] == t.entering && n.id == id
    requires t.callbacks == WithPhase(s, id, Finished).callbacks && t.accepted == s.accepted && t.log == s.log + [n]
    ensures NotesOk(t)
  {
  }

  /** The three ways a request ends before the close: write error, saved response, response. */
  lemma RetireKeeps(s: Conn, id: RequestId, n: Note)
    requires Inv(s) && IsLive(s, id) && s.entering == [] && !s.tearingDown && n.id == id
    ensures Inv(Retire(Unlist(s, id), id, n))
  {
    var t := Retire(Unlist(s, id), id, n);
    RetireTable(s, id, n);
    FinishLists(s, t, id);
    FinishNotes(s, t, id, n);
  }

  lemma OnWriteKeeps(s: Conn, id: RequestId, ok: bool)
    requires Inv(s) && Enabled(s, Wrote(id, ok))
    ensures Inv(OnWrite(s, id, ok))
    ensures OnWrite(s, id, ok).closing == s.closing
  {
    var t := OnWrite(s, id, ok);
    if s.callbacks[id].phase.Writing? && ok {
      StartReading(s, id);
    } else {
      WithoutAbsent(s.pendingReads, id);
      RetireKeeps(s, id, t.log[|s.log|]);
    }
  }

  /** `t` is `s` with a live request moved to another live phase. */
  ghost predicate Moved(s: Conn, t: Conn, id: RequestId, phase: Phase)
  {
    && Has(s, id, Writing) && phase.Live()
    && t == WithPhase(s, id, phase).(held := t.held, pendingReads := t.pendingReads)
  }

  lemma MovedTable(s: Conn, t: Conn, id: RequestId, phase: Phase)
    requires TableOk(s) && Moved(s, t, id, phase)
    ensures TableOk(t)
  {
  }

  lemma MovedCounts(s: Conn, t: Conn, id: RequestId, phase: Phase)
    requires CountsOk(s) && Moved(s, t, id, phase)
    ensures CountsOk(t)
  {
    assert LiveSet(t) == LiveSet(s);
  }

  lemma MovedNotes(s: Conn, t: Conn, id: RequestId, phase: Phase)
    requires NotesOk(s) && Moved(s, t, id, phase)
    ensures NotesOk(t)
  {
  }

  lemma MovedKeeps(s: Conn, t: Conn, id: RequestId, phase: Phase)
    requires Inv(s) && Moved(s, t, id, phase) && ListsOk(t) && !s.closed
    ensures Inv(t)
  {
    hide TableOk, CountsOk, NotesOk, ListsOk;
    MovedTable(s, t, id, phase);
    MovedCounts(s, t, id, phase);
    MovedNotes(s, t, id, phase);
  }

  lemma StartReading(s: Conn, id: RequestId)
    requires Inv(s) && Has(s, id, Writing) && s.entering == []
    ensures Inv(WithPhase(s, id, Reading).(held := s.held - {id}, pendingReads := s.pendingReads + [id]))
  {
    hide TableOk, CountsOk, NotesOk;
    var t := WithPhase(s, id, Reading).(held := s.held - {id}, pendingReads := s.pendingReads + [id]);
    DistinctAppend(s.pendingReads, id);
    MovedKeeps(s, t, id, Reading);
  }

  lemma SaveResponse(s: Conn, id: RequestId, response: Response)
    requires Inv(s) && Has(s, id, Writing)
    ensures Inv(WithPhase(s, id, ReadBeforeWrite(response)))
  {
    hide TableOk, CountsOk, NotesOk;
    assert id in s.held;
    MovedKeeps(s, WithPhase(s, id, ReadBeforeWrite(response)), id, ReadBeforeWrite(response));
  }

  lemma OnMessageKeeps(s: Conn, stream: int, response: Response)
    requires Inv(s) && s.entering == [] && !s.tearingDown
    ensures Inv(OnMessage(s, stream, response))
  {
    if stream in s.streams {
      var id := s.streams[stream];
      assert IsLive(s, id);
      if Has(s, id, Writing) {
        SaveResponse(s, id, response);
      } else if Has(s, id, Reading) {
        assert s.held - {id} == s.held;
        RetireKeeps(s, id, Set(id, response));
      }
    }
  }

  lemma AnsweredKeeps(s: Conn, answered: set<RequestId>)
    requires Inv(s)
    ensures Inv(s.(answered := answered))
  {
  }

  lemma HeardKeeps(s: Conn, heard: seq<Response>)
    requires Inv(s)
    ensures Inv(s.(heard := heard))
  {
  }

  lemma OnFrameKeeps(s: Conn, frame: Frame)
    requires Inv(s) && Enabled(s, Received(frame))
    ensures Inv(OnFrame(s, frame))
  {
    hide TableOk, CountsOk, NotesOk, ListsOk, OnMessage;
    CloseKeeps(s);
    if frame.Message? && frame.stream < 0 { HeardKeeps(s, s.heard + [frame.response]); }
    if frame.Message? && frame.stream >= 0 {
      OnMessageKeeps(s, frame.stream, frame.response);
      AnsweredKeeps(OnMessage(s, frame.stream, frame.response), s.answered + {frame.response.answers});
    }
  }

  lemma CloseKeeps(s: Conn)
    requires Inv(s)
    ensures Inv(s.(closing := true))
    ensures Enabled(s, CloseDone) ==> Inv(s.(tearingDown := true, closed := true))
  {
  }

  lemma DropTable(s: Conn, id: RequestId)
    requires TableOk(s) && ListsOk(s) && IsLive(s, id) && s.entering == []
    ensures TableOk(Drop(s, id))
  {
  }

  lemma DropKeeps(s: Conn, id: RequestId)
    requires Inv(s) && IsLive(s, id) && s.entering == [] && s.closing && !s.closed
    ensures Inv(Drop(Unlist(s, id), id))
  {
    var t := Drop(Unlist(s, id), id);
    DropTable(s, id);
    assert TableOk(t);
    FinishLists(s, t, id);
    FinishNotes(s, t, id, t.log[|s.log|]);
  }

  lemma DropHeldKeeps(s: Conn, id: RequestId)
    requires Inv(s) && Enabled(s, DropHeld(id))
    ensures Inv(Drop(s.(held := s.held - {id}), id))
  {
    WithoutAbsent(s.pendingReads, id);
    DropKeeps(s, id);
  }

  lemma DropReadKeeps(s: Conn)
    requires Inv(s) && Enabled(s, DropRead)
    ensures Inv(Drop(s.(pendingReads := s.pendingReads[1..]), s.pendingReads[0]))
  {
    var id := s.pendingReads[0];
    assert Has(s, id, Reading);
    assert s.pendingReads == [id] + s.pendingReads[1..];
    WithoutAbsent(s.pendingReads[1..], id);
    assert s.held - {id} == s.held;
    DropKeeps(s, id);
  }

  lemma StepKeeps(s: Conn, e: Event)
    requires Inv(s) && Enabled(s, e)
    ensures Inv(Step(s, e))
  {
    hide Inv;
    match e
    case BeginWrite(id, idempotent, choice) => AcquireKeeps(s, id, idempotent, choice);
    case FinishWrite(outcome) => PastSocketKeeps(s, outcome);
    case Wrote(id, ok) => OnWriteKeeps(s, id, ok);
    case Received(frame) => OnFrameKeeps(s, frame);
    case Close => CloseKeeps(s);
    case DropHeld(id) => DropHeldKeeps(s, id);
    case DropRead => DropReadKeeps(s);
    case CloseDone => CloseKeeps(s);
  }

  // ---------------------------------------------------------------- runs

  /** A server that answers every request at most once, on the stream the request was sent on. */
  predicate Compliant(s: Conn, e: Event)
  {
    e.Received? && e.frame.Message? && e.frame.stream >= 0 && !s.closing ==>
      var id := e.frame.response.answers;
      id in s.accepted && id !in s.answered && id in s.callbacks && s.callbacks[id].stream == e.frame.stream
  }

  predicate Legal(s: Conn, es: seq<Event>, compliant: bool)
    decreases |es|
  {
    es == [] ||
    (&& Enabled(s, es[0])
     && (compliant ==> Compliant(s, es[0]))
     && Legal(Step(s, es[0]), es[1..], compliant))
  }

  function Run(s: Conn, es: seq<Event>): Conn
    requires Legal(s, es, false)
    decreases |es|
  {
    if es == [] then s else Run(Step(s, es[0]), es[1..])
  }

  lemma {:induction false} RunKeeps(s: Conn, es: seq<Event>)
    requires Inv(s) && Legal(s, es, false)
    ensures Inv(Run(s, es))
    decreases |es|
  {
    if es != [] {
      StepKeeps(s, es[0]);
      RunKeeps(Step(s, es[0]), es[1..]);
    }
  }

  lemma {:induction false} CompliantIsLegal(s: Conn, es: seq<Event>)
    requires Legal(s, es, true)
    ensures Legal(s, es, false)
    decreases |es|
  {
    if es != [] { CompliantIsLegal(Step(s, es[0]), es[1..]); }
  }

  lemma {:induction false} RunConcat(s: Conn, a: seq<Event>, b: seq<Event>)
    requires Legal(s, a, false)
    ensures Legal(s, a + b, false) <==> Legal(Run(s, a), b, false)
    ensures Legal(s, a + b, false) ==> Run(s, a + b) == Run(Run(s, a), b)
    decreases |a|
  {
    if a == [] {
      assert a + b == b;
    } else {
      assert (a + b)[1..] == a[1..] + b;
      RunConcat(Step(s, a[0]), a[1..], b);
    }
  }

  /** A request that owns a stream: accepted and not finished, or still on its way to the socket. */
  ghost predicate Owner(s: Conn, id: RequestId)
  {
    IsLive(s, id) || id in s.entering
  }

  /** The stream table is a bijection onto its owners (the callbacks hold the inverse), the counter
      is the number of live requests, and the pending-read list is the set of READING ones. */
  ghost predicate Agree(s: Conn)
  {
    && (forall st :: st in s.streams ==>
          Owner(s, s.streams[st]) && s.streams[st] in s.callbacks && s.callbacks[s.streams[st]].stream == st)
    && (forall id :: Owner(s, id) ==>
          id in s.callbacks && s.callbacks[id].stream in s.streams && s.streams[s.callbacks[id].stream] == id)
    && s.inflight == |LiveSet(s)|
    && |s.streams| == s.inflight + |s.entering|
    && (forall id :: id in s.pendingReads <==> Has(s, id, Reading))
  }

  /** Until the close, the stream table, the counter, the pending-read list and the callbacks
      agree, also at every point where a callback runs and may call `write` again. */
  lemma TablesAgree(es: seq<Event>)
    requires Legal(Fresh, es, false)
    ensures !Run(Fresh, es).tearingDown ==> Agree(Run(Fresh, es))
  {
    RunKeeps(Fresh, es);
  }

  /** Every request the socket accepted is notified at most once, and exactly once by the close;
      a request it did not accept is notified only if its encoding was empty, and then once. */
  lemma ExactlyOnce(es: seq<Event>)
    requires Legal(Fresh, es, false)
    ensures var s := Run(Fresh, es);
      && (forall id :: Count(s.log, id) <= 1)
      && (forall id :: id in s.accepted ==> (Count(s.log, id) == 1 <==> Has(s, id, Finished)))
      && (s.closed ==> forall id :: id in s.accepted ==> Count(s.log, id) == 1)
  {
    RunKeeps(Fresh, es);
    var s := Run(Fresh, es);
    if s.closed {
      forall id | id in s.accepted ensures Has(s, id, Finished) {
        assert id !in s.held && id !in s.pendingReads;
        assert !IsLive(s, id) && !Has(s, id, New);
      }
    }
  }

  /** With a compliant server a live request is unanswered unless its response is saved in it. */
  ghost predicate Matched(s: Conn)
  {
    && (forall n :: n in s.log && n.Set? ==> n.response.answers == n.id)
    && (forall id :: id in s.callbacks && s.callbacks[id].phase.ReadBeforeWrite? ==>
          s.callbacks[id].phase.saved.answers == id)
    && (!s.closing ==> forall id :: id in s.accepted && id !in s.answered ==> Has(s, id, Writing) || Has(s, id, Reading))
    && (forall id :: id in s.answered ==>
          id in s.callbacks && (s.callbacks[id].phase.ReadBeforeWrite? || Set(id, Response(id)) in s.log))
  }

  lemma ReceiveMatched(s: Conn, frame: Frame)
    requires Inv(s) && Matched(s) && Enabled(s, Received(frame)) && Compliant(s, Received(frame))
    ensures Matched(OnFrame(s, frame))
    ensures frame.Message? && frame.stream >= 0 ==> OnFrame(s, frame).closing == s.closing
  {
    if !s.closing && frame.Message? && frame.stream >= 0 {
      var id := frame.response.answers;
      assert Has(s, id, Writing) || Has(s, id, Reading);
      assert IsLive(s, id) && s.streams[frame.stream] == id;
      assert frame.response == Response(id);
    }
  }

  lemma PastSocketMatched(s: Conn, outcome: Outcome)
    requires ListsOk(s) && Matched(s) && Enabled(s, FinishWrite(outcome))
    ensures Matched(PastSocket(s, outcome))
  {
    TopFacts(s);
  }

  lemma OnWriteMatched(s: Conn, id: RequestId, ok: bool)
    requires ListsOk(s) && Matched(s) && Enabled(s, Wrote(id, ok)) && id in s.callbacks
    ensures Matched(OnWrite(s, id, ok))
  {
    if s.callbacks[id].phase.ReadBeforeWrite? { assert s.callbacks[id].phase.saved == Response(id); }
  }

  lemma DropMatched(s: Conn, id: RequestId)
    requires Matched(s) && s.closing && id in s.callbacks
    ensures Matched(Drop(s, id))
  {
    if s.callbacks[id].phase.ReadBeforeWrite? { assert s.callbacks[id].phase.saved == Response(id); }
  }

  lemma StepMatched(s: Conn, e: Event)
    requires Inv(s) && Matched(s) && Enabled(s, e) && Compliant(s, e)
    ensures Matched(Step(s, e))
  {
    hide NotesOk, CountsOk;
    match e
    case BeginWrite(id, idempotent, choice) =>
    case FinishWrite(outcome) =>
      TopFacts(s);
      PastSocketMatched(s, outcome);
    case Wrote(id, ok) => OnWriteMatched(s, id, ok);
    case Received(frame) => ReceiveMatched(s, frame);
    case Close =>
    case DropHeld(id) => DropMatched(s.(held := s.held - {id}), id);
    case DropRead =>
      assert Has(s, s.pendingReads[0], Reading);
      DropMatched(s.(pendingReads := s.pendingReads[1..]), s.pendingReads[0]);
    case CloseDone =>
  }

  lemma {:induction false} RunMatched(s: Conn, es: seq<Event>)
    requires Inv(s) && Matched(s) && Legal(s, es, true) && Legal(s, es, false)
    ensures Matched(Run(s, es))
    decreases |es|
  {
    if es != [] {
      StepKeeps(s, es[0]);
      StepMatched(s, es[0]);
      RunMatched(Step(s, es[0]), es[1..]);
    }
  }

  /** Against a server that answers each request once on its stream, every response delivered is
      the one to that request, however often stream ids were reused; no response that was read
      is lost; and no response makes the driver give the connection up. */
  lemma ResponsesReachTheirRequests(es: seq<Event>)
    requires Legal(Fresh, es, true)
    ensures Legal(Fresh, es, false)
    ensures var s := Run(Fresh, es);
      && (forall n :: n in s.log && n.Set? ==> n.response.answers == n.id)
      && (forall id :: id in s.answered && Has(s, id, Finished) ==> Set(id, Response(id)) in s.log)
      && (forall e :: Enabled(s, e) && Compliant(s, e) && e.Received? && e.frame.Message? && e.frame.stream >= 0 ==>
            OnFrame(s, e.frame).closing == s.closing)
  {
    CompliantIsLegal(Fresh, es);
    RunKeeps(Fresh, es);
    RunMatched(Fresh, es);
    var s := Run(Fresh, es);
    forall e | Enabled(s, e) && Compliant(s, e) && e.Received? && e.frame.Message? && e.frame.stream >= 0
      ensures OnFrame(s, e.frame).closing == s.closing
    {
      ReceiveMatched(s, e.frame);
    }
  }

  // ---------------------------------------------------------------- when the driver gives up

  /** What no server should send: bytes that are no message, a message on the event stream that is no
      event, one on a stream nobody waits on, and a second one where the first is still kept. */
  predicate Unacceptable(s: Conn, frame: Frame)
  {
    match frame
    case Garbage => true
    case Partial => false
    case Message(stream, isEvent, _) =>
      if stream < 0 then !isEvent
      else stream !in s.streams || At(s, s.streams[stream]).phase.ReadBeforeWrite?
  }

  /** An open connection begins to close exactly when it is asked to or reads something unacceptable. */
  lemma GivesUpExactlyWhen(s: Conn, e: Event)
    requires Inv(s) && Enabled(s, e) && !s.closing
    ensures Step(s, e).closing <==> e.Close? || (e.Received? && Unacceptable(s, e.frame))
  {
    hide NotesOk, CountsOk;
    if e.Received? && e.frame.Message? && e.frame.stream in s.streams {
      assert IsLive(s, s.streams[e.frame.stream]);
    }
  }

  /** The event in a message, if it is one. */
  function Pushed(e: Event): seq<Response>
  {
    if e.Received? && e.frame.Message? && e.frame.stream < 0 && e.frame.isEvent then [e.frame.response] else []
  }

  /** The events that are read before the connection begins to close. */
  function PushedWhileOpen(s: Conn, es: seq<Event>): seq<Response>
    requires Legal(s, es, false)
    decreases |es|
  {
    if es == [] then []
    else (if s.closing then [] else Pushed(es[0])) + PushedWhileOpen(Step(s, es[0]), es[1..])
  }

  lemma {:induction false} RunHears(s: Conn, es: seq<Event>)
    requires Legal(s, es, false)
    ensures Run(s, es).heard == s.heard + PushedWhileOpen(s, es)
    decreases |es|
  {
    if es != [] {
      assert Step(s, es[0]).heard == s.heard + if s.closing then [] else Pushed(es[0]);
      RunHears(Step(s, es[0]), es[1..]);
    }
  }

  /** In every run the listener hears each event that is read while the connection is open, once and in
      order, and nothing else. */
  lemma EventsReachTheListener(es: seq<Event>)
    requires Legal(Fresh, es, false)
    ensures Run(Fresh, es).heard == PushedWhileOpen(Fresh, es)
  {
    RunHears(Fresh, es);
  }

  /** The server sends well-formed messages, and events only on the event stream. */
  predicate WellSpoken(e: Event)
  {
    e.Received? ==> !e.frame.Garbage? && (e.frame.Message? && e.frame.stream < 0 ==> e.frame.isEvent)
  }

  function AllPushed(es: seq<Event>): seq<Response>
  {
    if es == [] then [] else Pushed(es[0]) + AllPushed(es[1..])
  }

  lemma CompliantIsAcceptable(s: Conn, e: Event)
    requires Inv(s) && Matched(s) && Enabled(s, e) && Compliant(s, e) && WellSpoken(e) && e.Received? && !s.closing
    ensures !Unacceptable(s, e.frame)
  {
    hide NotesOk, CountsOk;
    if e.frame.Message? && e.frame.stream >= 0 {
      var id := e.frame.response.answers;
      assert Has(s, id, Writing) || Has(s, id, Reading);
      assert IsLive(s, id) && s.streams[e.frame.stream] == id;
    }
  }

  lemma {:induction false} RunStaysOpen(s: Conn, es: seq<Event>)
    requires Inv(s) && Matched(s) && !s.closing && Legal(s, es, true) && Legal(s, es, false)
    requires forall e :: e in es ==> WellSpoken(e) && !e.Close?
    ensures !Run(s, es).closing && PushedWhileOpen(s, es) == AllPushed(es)
    decreases |es|
  {
    if es != [] {
      hide Inv, Matched, Step, Enabled, Compliant, WellSpoken;
      assert es[0] in es;
      StepKeeps(s, es[0]);
      StepMatched(s, es[0]);
      GivesUpExactlyWhen(s, es[0]);
      if es[0].Received? { CompliantIsAcceptable(s, es[0]); }
      RunStaysOpen(Step(s, es[0]), es[1..]);
    }
  }

  /** A server that answers each request once on its stream and otherwise only pushes events never makes
      the driver give up the connection, and every event it pushes is heard. */
  lemma NeverGivesUp(es: seq<Event>)
    requires Legal(Fresh, es, true) && forall e :: e in es ==> WellSpoken(e) && !e.Close?
    ensures Legal(Fresh, es, false)
    ensures !Run(Fresh, es).closing && Run(Fresh, es).heard == AllPushed(es)
  {
    CompliantIsLegal(Fresh, es);
    RunStaysOpen(Fresh, es);
    RunHears(Fresh, es);
  }

  // ---------------------------------------------------------------- what requests are told

  /** What a request is told when the connection goes down under it. */
  function LastWord(s: Conn, id: RequestId): Note
  {
    if At(s, id).phase.ReadBeforeWrite? then Set(id, At(s, id).phase.saved)
    else if At(s, id).idempotent then Retry(id)
    else Error(id, TimedOut)
  }

  /** What is said at an event: an empty encoding and a failed write are reported as such, a response is
      handed over once its request has been written, and the close has a last word for each request. */
  function Saying(s: Conn, e: Event): seq<Note>
    requires Enabled(s, e)
  {
    match e
    case FinishWrite(outcome) => if outcome.Empty? then [Error(Top(s), NoData)] else []
    case Wrote(id, ok) =>
      if At(s, id).phase.ReadBeforeWrite? then [Set(id, At(s, id).phase.saved)]
      else if !ok then [Error(id, WriteError)]
      else []
    case Received(frame) =>
      if !s.closing && frame.Message? && frame.stream >= 0 && frame.stream in s.streams
         && At(s, s.streams[frame.stream]).phase.Reading?
      then [Set(s.streams[frame.stream], frame.response)]
      else []
    case DropHeld(id) => [LastWord(s, id)]
    case DropRead => [LastWord(s, s.pendingReads[0])]
    case _ => []
  }

  /** Nothing else is said, and nothing is left unsaid. */
  lemma SaysExactly(s: Conn, e: Event)
    requires Inv(s) && Enabled(s, e)
    ensures Step(s, e).log == s.log + Saying(s, e)
  {
    hide NotesOk, CountsOk;
    if e.DropRead? { assert Has(s, s.pendingReads[0], Reading); }
    if e.Received? && e.frame.Message? && e.frame.stream in s.streams {
      assert IsLive(s, s.streams[e.frame.stream]);
    }
  }

  /** What each kind of notification says about the request that got it. */
  ghost predicate Fits(s: Conn, n: Note)
  {
    match n
    case Set(id, _) => id in s.accepted
    case Retry(id) => id in s.accepted && id in s.callbacks && s.callbacks[id].idempotent && s.closing
    case Error(id, reason) =>
      match reason
      case NoData => id !in s.accepted && id in s.callbacks
      case WriteError => id in s.accepted && s.closing
      case TimedOut => id in s.accepted && id in s.callbacks && !s.callbacks[id].idempotent && s.closing
  }

  ghost predicate AllFit(s: Conn)
  {
    forall n :: n in s.log ==> Fits(s, n)
  }

  /** What was said before stays fitting as long as requests keep their kind. */
  ghost predicate Grows(s: Conn, t: Conn)
  {
    && (forall id :: id in s.callbacks ==> id in t.callbacks && t.callbacks[id].idempotent == s.callbacks[id].idempotent)
    && s.accepted <= t.accepted
    && (forall id :: id in t.accepted && id !in s.accepted ==> Count(s.log, id) == 0)
    && (s.closing ==> t.closing)
  }

  lemma GrowsFit(s: Conn, t: Conn)
    requires AllFit(s) && Grows(s, t)
    ensures forall n :: n in s.log ==> Fits(t, n)
  {
    forall n | n in s.log ensures Fits(t, n) {
      assert Fits(s, n);
      CountsNote(s.log, n);
    }
  }

  lemma {:induction false} CountsNote(log: seq<Note>, n: Note)
    requires n in log
    ensures Count(log, n.id) >= 1
  {
    if log[|log| - 1] != n {
      assert log == log[..|log| - 1] + [log[|log| - 1]];
      CountsNote(log[..|log| - 1], n);
    }
  }

  lemma PhaseKind(s: Conn, id: RequestId, phase: Phase, other: RequestId)
    requires other in s.callbacks
    ensures var t := WithPhase(s, id, phase);
      other in t.callbacks && t.callbacks[other].idempotent == s.callbacks[other].idempotent
  {
  }

  /** Phases change, the kind of a request does not. */
  lemma KindKept(s: Conn, e: Event, other: RequestId)
    requires Enabled(s, e) && other in s.callbacks
    ensures other in Step(s, e).callbacks && Step(s, e).callbacks[other].idempotent == s.callbacks[other].idempotent
  {
    hide WithPhase, At;
    forall t: Conn, id: RequestId, phase: Phase | t.callbacks == s.callbacks
      ensures other in WithPhase(t, id, phase).callbacks
      ensures WithPhase(t, id, phase).callbacks[other].idempotent == s.callbacks[other].idempotent
    {
      PhaseKind(t, id, phase, other);
    }
  }

  lemma StepGrows(s: Conn, e: Event)
    requires Inv(s) && Enabled(s, e)
    ensures Grows(s, Step(s, e))
  {
    hide TableOk, CountsOk, Count;
    if e.FinishWrite? { TopFacts(s); assert Top(s) in s.entering; }
    assert s.accepted <= Step(s, e).accepted;
    forall id | id in s.callbacks
      ensures id in Step(s, e).callbacks && Step(s, e).callbacks[id].idempotent == s.callbacks[id].idempotent
    {
      KindKept(s, e, id);
    }
  }

  /** Each step says at most one thing, and it fits. */
  lemma StepSays(s: Conn, e: Event)
    requires Inv(s) && Enabled(s, e)
    ensures Step(s, e).log == s.log ||
      (|Step(s, e).log| == |s.log| + 1 && Step(s, e).log[..|s.log|] == s.log && Fits(Step(s, e), Step(s, e).log[|s.log|]))
  {
    hide NotesOk, CountsOk;
    if e.FinishWrite? { TopFacts(s); assert Top(s) in s.entering; }
    if e.DropRead? { assert Has(s, s.pendingReads[0], Reading); }
  }

  lemma StepFits(s: Conn, e: Event)
    requires Inv(s) && AllFit(s) && Enabled(s, e)
    ensures AllFit(Step(s, e))
  {
    hide Inv, Step, Enabled, Fits, Grows;
    StepGrows(s, e);
    GrowsFit(s, Step(s, e));
    StepSays(s, e);
    var t := Step(s, e);
    if t.log != s.log {
      assert t.log == s.log + [t.log[|s.log|]];
    }
  }

  lemma {:induction false} RunFits(s: Conn, es: seq<Event>)
    requires Inv(s) && AllFit(s) && Legal(s, es, false)
    ensures AllFit(Run(s, es))
    decreases |es|
  {
    if es != [] {
      StepKeeps(s, es[0]);
      StepFits(s, es[0]);
      RunFits(Step(s, es[0]), es[1..]);
    }
  }

  /** Every request is of the kind and on the stream it was written with. */
  ghost predicate Kinds(s: Conn, past: seq<Event>)
  {
    forall id :: id in s.callbacks ==>
      BeginWrite(id, s.callbacks[id].idempotent, Some(s.callbacks[id].stream)) in past
  }

  lemma PhaseKinds(s: Conn, t: Conn, id: RequestId, phase: Phase, past: seq<Event>)
    requires Kinds(s, past) && id in s.callbacks && t.callbacks == WithPhase(s, id, phase).callbacks
    ensures Kinds(t, past)
  {
  }

  lemma StepKinds(s: Conn, e: Event, past: seq<Event>)
    requires Inv(s) && Enabled(s, e) && Kinds(s, past)
    ensures Kinds(Step(s, e), past + [e])
  {
    hide NotesOk, CountsOk;
    var t := Step(s, e);
    assert Kinds(s, past + [e]);
    match e
    case BeginWrite(_, _, _) =>
    case FinishWrite(outcome) =>
      TopFacts(s);
      if outcome.Sent? { PhaseKinds(s, t, Top(s), Writing, past + [e]); }
    case Wrote(id, _) => PhaseKinds(s, t, id, t.callbacks[id].phase, past + [e]);
    case Received(frame) =>
      if frame.Message? && frame.stream in s.streams {
        var id := s.streams[frame.stream];
        PhaseKinds(s, t, id, t.callbacks[id].phase, past + [e]);
      }
    case Close =>
    case DropHeld(id) => PhaseKinds(s, t, id, Finished, past + [e]);
    case DropRead =>
      assert Has(s, s.pendingReads[0], Reading);
      PhaseKinds(s, t, s.pendingReads[0], Finished, past + [e]);
    case CloseDone =>
  }

  lemma {:induction false} RunKinds(s: Conn, es: seq<Event>, past: seq<Event>)
    requires Inv(s) && Legal(s, es, false) && Kinds(s, past)
    ensures Kinds(Run(s, es), past + es)
    decreases |es|
  {
    hide Inv, Step, Enabled, Kinds;
    if es == [] {
      assert past + es == past;
    } else {
      StepKeeps(s, es[0]);
      StepKinds(s, es[0], past);
      RunKinds(Step(s, es[0]), es[1..], past + [es[0]]);
      assert past + [es[0]] + es[1..] == past + es;
    }
  }

  /** In every run a request is retried only if it is idempotent and timed out only if it is not, as the
      client said when it wrote it, both only when the connection is going down, as are write errors; a
      request whose encoding was empty was never accepted; every other notification is for an accepted
      request. */
  lemma NotificationsFit(es: seq<Event>)
    requires Legal(Fresh, es, false)
    ensures AllFit(Run(Fresh, es))
    ensures Kinds(Run(Fresh, es), es)
  {
    RunFits(Fresh, es);
    RunKinds(Fresh, es, []);
    assert [] + es == es;
  }

  /** Closing cannot get stuck: one notification per request still held or read for, then closed. */
  lemma {:induction false} CloseCompletes(s: Conn) returns (es: seq<Event>)
    requires Inv(s) && s.closing && !s.closed && s.entering == []
    ensures Legal(s, es, false) && Run(s, es).closed
    ensures |es| == |s.held| + |s.pendingReads| + 1
    ensures forall e :: e in es ==> e.DropHeld? || e.DropRead? || e.CloseDone?
    decreases |s.held| + |s.pendingReads|
  {
    var e: Event;
    if s.held != {} {
      var id :| id in s.held;
      e := DropHeld(id);
    } else if s.pendingReads != [] {
      e := DropRead;
      assert Has(s, s.pendingReads[0], Reading);
    } else {
      assert [CloseDone][1..] == [];
      return [CloseDone];
    }
    StepKeeps(s, e);
    var rest := CloseCompletes(Step(s, e));
    es := [e] + rest;
    assert es[1..] == rest;
  }
}
