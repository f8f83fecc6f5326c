/** The reverse relay: HTTP requests multiplexed by id over one reconnecting socket.

    The relay's own data (`Core`) and what its handlers do to it come first, as a class
    and as functions; then the whole system, with the node, the frames in flight and the
    handlers of the requests, as a step relation; then what holds in every run. */
module Relay {
  import opened Optional

  type Rid = nat
  type Socket = nat

  datatype RequestFrame = RequestFrame(id: Rid, payload: string)
  datatype ResponseFrame = ResponseFrame(id: Rid, status: int, body: string)

  datatype Future = Unset | Result(frame: ResponseFrame) | Cancelled

  /** Futures are known by the order of their creation. */
  datatype Core = Core(pending: map<Rid, nat>, futures: seq<Future>, registered: Option<Socket>) {
    predicate Valid() {
      forall rid :: rid in pending ==> pending[rid] < |futures|
    }
  }

  function Connected(c: Core, ws: Socket): Core {
    c.(registered := Some(ws))
  }

  function Disconnected(c: Core, ws: Socket): Core {
    if c.registered == Some(ws) then c.(registered := None) else c
  }

  function Enrolled(c: Core, rid: Rid): Core {
    c.(pending := c.pending[rid := |c.futures|], futures := c.futures + [Unset])
  }

  function Forgotten(c: Core, rid: Rid): Core {
    c.(pending := c.pending - {rid})
  }

  /** A response frame pops its entry and completes the future there, if not finished. */
  function Delivered(c: Core, frame: ResponseFrame): Core
    requires c.Valid()
  {
    var c' := Forgotten(c, frame.id);
    if frame.id in c.pending && c.futures[c.pending[frame.id]].Unset? then
      c'.(futures := c.futures[c.pending[frame.id] := Result(frame)])
    else c'
  }

  /** `wait_for` cancels a future that is not finished when the time is up. */
  function TimedOut(c: Core, fut: nat): Core
    requires fut < |c.futures|
  {
    if c.futures[fut].Unset? then c.(futures := c.futures[fut := Cancelled]) else c
  }

  class RelayServer {
    var pending: map<Rid, nat>
    var futures: seq<Future>
    var bridgeWs: Option<Socket>

    function View(): Core
      reads this
    {
      Core(pending, futures, bridgeWs)
    }

    constructor ()
      ensures View() == Core(map[], [], None)
    {
      pending, futures, bridgeWs := map[], [], None;
    }

    /** A bridge handler has accepted its socket. */
    method Open(ws: Socket)
      modifies this
      ensures View() == Connected(old(View()), ws)
    {
      bridgeWs := Some(ws);
    }

    /** One round of a bridge handler's receive loop. */
    method Receive(frame: ResponseFrame)
      requires View().Valid()
      modifies this
      ensures View() == Delivered(old(View()), frame)
      ensures View().Valid()
    {
      if frame.id in pending {
        var fut := pending[frame.id];
        pending := pending - {frame.id};
        if futures[fut].Unset? {
          futures := futures[fut := Result(frame)];
        }
      } else {
        assert pending - {frame.id} == pending;
      }
    }

    /** A bridge handler ends. */
    method Close(ws: Socket)
      modifies this
      ensures View() == Disconnected(old(View()), ws)
    {
      if bridgeWs == Some(ws) {
        bridgeWs := None;
      }
    }

    /** A proxy handler creates its future and enters it under the request's id. */
    method Enroll(rid: Rid) returns (fut: nat)
      requires View().Valid()
      modifies this
      ensures View() == Enrolled(old(View()), rid)
      ensures fut == |old(futures)| && pending[rid] == fut && View().Valid()
    {
      fut := |futures|;
      futures := futures + [Unset];
      pending := pending[rid := fut];
    }

    /** The timeout of a proxy handler's wait; `Forget` follows when the handler resumes. */
    method Expire(fut: nat)
      requires fut < |futures| && View().Valid()
      modifies this
      ensures View() == TimedOut(old(View()), fut)
      ensures View().Valid()
    {
      if futures[fut].Unset? {
        futures := futures[fut := Cancelled];
      }
    }

    method Forget(rid: Rid)
      requires View().Valid()
      modifies this
      ensures View() == Forgotten(old(View()), rid)
      ensures View().Valid()
    {
      pending := pending - {rid};
    }
  }

  // ---------------------------------------------------------------- the whole system

  datatype Outcome =
    | Reply(frame: ResponseFrame)
    | BadToken        // 401
    | NoBridge        // 503
    | GatewayTimeout  // 504
    | SendError       // the exception of send_text reaches the HTTP server

  datatype Phase = Reading | Enlisted | Waiting | Expired | Done(outcome: Outcome)

  /** A proxy handler: the socket it took, the frame it sends, and how far it is. */
  datatype Request = Request(socket: Socket, frame: RequestFrame, future: Option<nat>, phase: Phase)

  datatype State = State(
    core: Core,
    requests: map<Rid, Request>,
    seen: set<Socket>,            // every socket that ever connected
    latest: Option<Socket>,       // the one that connected last
    open: set<Socket>,            // those whose handler still runs
    down: set<(Socket, RequestFrame)>,
    tasks: set<(Socket, RequestFrame)>,
    up: set<(Socket, ResponseFrame)>,
    answers: set<(RequestFrame, ResponseFrame)>)  // all that the node ever answered

  /** What the local model server made of a request: a response, or an exception that
      the node reports in an error body of its own. */
  datatype Upstream = Responded(status: int, body: string) | Raised(report: string)

  /** The node's response frame to a request frame, under the same id. */
  function NodeReply(q: RequestFrame, upstream: Upstream): ResponseFrame {
    match upstream
    case Responded(status, body) => ResponseFrame(q.id, status, body)
    case Raised(report) => ResponseFrame(q.id, 502, report)
  }

  datatype Step =
    | Connect(ws: Socket)
    | Teardown(ws: Socket)
    | Refuse(rid: Rid, outcome: Outcome)
    | Admit(rid: Rid, payload: string)
    | Enlist(rid: Rid)
    | Send(rid: Rid)
    | SendFails(rid: Rid, arrived: bool)   // the frame may be out although send_text raised
    | NodeReceive(at: Socket, request: RequestFrame)
    | NodeAnswer(at: Socket, request: RequestFrame, upstream: Upstream)
    | LoseDown(at: Socket, request: RequestFrame)
    | LoseTask(at: Socket, request: RequestFrame)
    | LoseUp(at: Socket, response: ResponseFrame)
    | Deliver(at: Socket, response: ResponseFrame)
    | Answer(rid: Rid)
    | Expire(rid: Rid)
    | GiveUp(rid: Rid)

  const INITIAL := State(Core(map[], [], None), map[], {}, None, {}, {}, {}, {}, {})

  type Requests = map<Rid, Request>

  predicate InPhase(s: State, rid: Rid, phase: Phase) {
    rid in s.requests && s.requests[rid].phase == phase
  }

  predicate HasFuture(c: Core, rs: Requests, rid: Rid) {
    rid in rs && rs[rid].future.Some? && rs[rid].future.value < |c.futures|
  }

  function FutureOf(c: Core, rs: Requests, rid: Rid): Future
    requires HasFuture(c, rs, rid)
  {
    c.futures[rs[rid].future.value]
  }

  predicate Enabled(s: State, step: Step) {
    match step
    case Connect(ws) => ws !in s.seen
    case Teardown(ws) => ws in s.open
    case Refuse(rid, outcome) =>
      rid !in s.requests && (outcome == BadToken || (outcome == NoBridge && s.core.registered.None?))
    case Admit(rid, _) => rid !in s.requests && s.core.registered.Some?
    case Enlist(rid) => InPhase(s, rid, Reading)
    case Send(rid) => InPhase(s, rid, Enlisted)
    case SendFails(rid, _) => InPhase(s, rid, Enlisted)
    case NodeReceive(at, q) => (at, q) in s.down
    case NodeAnswer(at, q, _) => (at, q) in s.tasks
    case LoseDown(at, q) => (at, q) in s.down
    case LoseTask(at, q) => (at, q) in s.tasks
    case LoseUp(at, r) => (at, r) in s.up
    case Deliver(at, r) => (at, r) in s.up && at in s.open && s.core.Valid()
    case Answer(rid) =>
      InPhase(s, rid, Waiting) && HasFuture(s.core, s.requests, rid) && FutureOf(s.core, s.requests, rid).Result?
    case Expire(rid) => InPhase(s, rid, Waiting) && HasFuture(s.core, s.requests, rid)
    case GiveUp(rid) => InPhase(s, rid, Expired)
  }

  function SetPhase(s: State, rid: Rid, phase: Phase): State
    requires rid in s.requests
  {
    s.(requests := s.requests[rid := s.requests[rid].(phase := phase)])
  }

  function Do(s: State, step: Step): State
    requires Enabled(s, step)
  {
    match step
    case Connect(ws) =>
      s.(core := Connected(s.core, ws), seen := s.seen + {ws}, latest := Some(ws), open := s.open + {ws})
    case Teardown(ws) => s.(core := Disconnected(s.core, ws), open := s.open - {ws})
    case Refuse(rid, outcome) =>
      s.(requests := s.requests[rid := Request(0, RequestFrame(rid, ""), None, Done(outcome))])
    case Admit(rid, payload) =>
      s.(requests := s.requests[rid := Request(s.core.registered.value, RequestFrame(rid, payload), None, Reading)])
    case Enlist(rid) =>
      s.(core := Enrolled(s.core, rid),
         requests := s.requests[rid := s.requests[rid].(future := Some(|s.core.futures|), phase := Enlisted)])
    case Send(rid) => SendOut(SetPhase(s, rid, Waiting), rid)
    case SendFails(rid, arrived) =>
      var s' := SetPhase(s, rid, Done(SendError));
      if arrived then SendOut(s', rid) else s'
    case NodeReceive(at, q) => s.(down := s.down - {(at, q)}, tasks := s.tasks + {(at, q)})
    case NodeAnswer(at, q, upstream) =>
      var r := NodeReply(q, upstream);
      s.(tasks := s.tasks - {(at, q)}, answers := s.answers + {(q, r)}, up := s.up + {(at, r)})
    case LoseDown(at, q) => s.(down := s.down - {(at, q)})
    case LoseTask(at, q) => s.(tasks := s.tasks - {(at, q)})
    case LoseUp(at, r) => s.(up := s.up - {(at, r)})
    case Deliver(at, r) => s.(core := Delivered(s.core, r), up := s.up - {(at, r)})
    case Answer(rid) => SetPhase(s, rid, Done(Reply(FutureOf(s.core, s.requests, rid).frame)))
    case Expire(rid) => SetPhase(s, rid, Expired).(core := TimedOut(s.core, s.requests[rid].future.value))
    case GiveUp(rid) => SetPhase(s, rid, Done(GatewayTimeout)).(core := Forgotten(s.core, rid))
  }

  function SendOut(s: State, rid: Rid): State
    requires rid in s.requests
  {
    s.(down := s.down + {(s.requests[rid].socket, s.requests[rid].frame)})
  }

  // ---------------------------------------------------------------- what every step keeps

  /** Sockets: the registered bridge is the last one to connect while its handler runs. */
  predicate SocketsOk(s: State) {
    && s.open <= s.seen
    && (s.latest.Some? ==> s.latest.value in s.seen)
    && s.core.registered == (if s.latest.Some? && s.latest.value in s.open then s.latest else None)
  }

  predicate Awaits(phase: Phase) {
    phase.Enlisted? || phase.Waiting? || phase.Expired?
  }

  predicate Sent(phase: Phase) {
    phase.Waiting? || phase.Expired? || (phase.Done? && !phase.outcome.BadToken? && !phase.outcome.NoBridge?)
  }

  /** Futures: an entry of `pending` is the future of the handler with that id, no two
      handlers share one, and a handler whose future is unset is still in `pending`. */
  ghost predicate FuturesOk(c: Core, rs: Requests) {
    && (forall rid :: rid in c.pending ==> HasFuture(c, rs, rid) && rs[rid].future == Some(c.pending[rid]))
    && (forall rid :: rid in rs && rs[rid].future.Some? ==> HasFuture(c, rs, rid))
    && (forall rid, rid' :: HasFuture(c, rs, rid) && HasFuture(c, rs, rid') && rs[rid].future == rs[rid'].future
         ==> rid == rid')
    && (forall rid :: rid in rs && rs[rid].phase.Reading? ==> rs[rid].future.None?)
    && (forall rid :: rid in rs && (rs[rid].phase.Enlisted? || Sent(rs[rid].phase)) ==> HasFuture(c, rs, rid))
    && (forall rid :: HasFuture(c, rs, rid) && Awaits(rs[rid].phase) && FutureOf(c, rs, rid).Unset?
         ==> rid in c.pending)
  }

  /** `q` is the frame that its request's handler sent, over the socket `at`. */
  predicate Genuine(rs: Requests, at: Socket, q: RequestFrame) {
    && q.id in rs
    && rs[q.id].frame == q
    && rs[q.id].socket == at
    && Sent(rs[q.id].phase)
  }

  /** Frames: whatever is under way stems from a handler's own frame. */
  ghost predicate FramesOk(s: State) {
    && (forall rid :: rid in s.requests ==> s.requests[rid].frame.id == rid)
    && (forall at, q :: (at, q) in s.down ==> Genuine(s.requests, at, q))
    && (forall at, q :: (at, q) in s.tasks ==> Genuine(s.requests, at, q))
    && (forall q, r :: (q, r) in s.answers ==>
         r.id == q.id && q.id in s.requests && Genuine(s.requests, s.requests[q.id].socket, q))
    && (forall at, r :: (at, r) in s.up ==>
         r.id in s.requests && at == s.requests[r.id].socket && (s.requests[r.id].frame, r) in s.answers)
  }

  /** Each request has at most one of a frame going down, a task at the node, and an
      answer, so a second answer to the same request cannot come about. */
  ghost predicate OneEach(s: State) {
    && (forall at, q, at', q' :: (at, q) in s.down && (at', q') in s.tasks ==> q.id != q'.id)
    && (forall at, q, q', r :: (at, q) in s.down && (q', r) in s.answers ==> q.id != q'.id)
    && (forall at, q, q', r :: (at, q) in s.tasks && (q', r) in s.answers ==> q.id != q'.id)
    && (forall q, r, q', r' :: (q, r) in s.answers && (q', r') in s.answers && q.id == q'.id ==> q == q' && r == r')
  }

  /** Results: a future holds, and a handler returns, only the node's answer to it. */
  ghost predicate ResultsOk(c: Core, rs: Requests, answers: set<(RequestFrame, ResponseFrame)>) {
    && (forall rid :: HasFuture(c, rs, rid) && FutureOf(c, rs, rid).Result? ==>
         (rs[rid].frame, FutureOf(c, rs, rid).frame) in answers)
    && (forall rid :: rid in rs && rs[rid].phase.Done? && rs[rid].phase.outcome.Reply? ==>
         HasFuture(c, rs, rid) && FutureOf(c, rs, rid) == Result(rs[rid].phase.outcome.frame))
  }

  ghost predicate Inv(s: State) {
    && SocketsOk(s)
    && FuturesOk(s.core, s.requests)
    && FramesOk(s)
    && OneEach(s)
    && ResultsOk(s.core, s.requests, s.answers)
  }

  // ---------------------------------------------------------------- each step keeps it

  lemma SocketsKept(s: State, step: Step)
    requires SocketsOk(s) && Enabled(s, step)
    ensures SocketsOk(Do(s, step))
  {
  }

  lemma FuturesKept(s: State, step: Step)
    requires FuturesOk(s.core, s.requests) && Enabled(s, step)
    ensures FuturesOk(Do(s, step).core, Do(s, step).requests)
  {
    var s' := Do(s, step);
    match step
    case Refuse(rid, outcome) => ArrivalKeepsFutures(s.core, s.requests, rid, s'.requests[rid]);
    case Admit(rid, payload) => ArrivalKeepsFutures(s.core, s.requests, rid, s'.requests[rid]);
    case Enlist(rid) => EnlistKeepsFutures(s, rid);
    case Deliver(at, r) => DeliverKeepsFutures(s.core, s.requests, r);
    case Connect(_) => SameEntriesKeepFutures(s.core, s'.core, s.requests);
    case Teardown(_) => SameEntriesKeepFutures(s.core, s'.core, s.requests);
    case _ => ProgressKeepsFutures(s, step);
  }

  /** Every step but those on sockets, arrivals and deliveries. */
  lemma ProgressKeepsFutures(s: State, step: Step)
    requires FuturesOk(s.core, s.requests) && Enabled(s, step)
    requires !step.Connect? && !step.Teardown? && !step.Refuse? && !step.Admit? && !step.Enlist? && !step.Deliver?
    ensures FuturesOk(Do(s, step).core, Do(s, step).requests)
  {
    match step
    case Send(rid) => PhaseKeepsFutures(s.core, s.requests, rid, Waiting);
    case SendFails(rid, _) => PhaseKeepsFutures(s.core, s.requests, rid, Done(SendError));
    case Answer(rid) => PhaseKeepsFutures(s.core, s.requests, rid, Do(s, step).requests[rid].phase);
    case Expire(rid) =>
      PhaseKeepsFutures(s.core, s.requests, rid, Expired);
      TimeoutKeepsFutures(s.core, Do(s, step).requests, s.requests[rid].future.value);
    case GiveUp(rid) =>
      PhaseKeepsFutures(s.core, s.requests, rid, Done(GatewayTimeout));
      ForgetKeepsFutures(s.core, Do(s, step).requests, rid);
    case _ =>
  }

  lemma SameEntriesKeepFutures(c: Core, c': Core, rs: Requests)
    requires FuturesOk(c, rs) && c'.futures == c.futures && c'.pending == c.pending
    ensures FuturesOk(c', rs)
  {
    assert forall x :: HasFuture(c', rs, x) <==> HasFuture(c, rs, x);
  }

  lemma ArrivalKeepsFutures(c: Core, rs: Requests, rid: Rid, r: Request)
    requires FuturesOk(c, rs) && rid !in rs
    requires r.future.None? && !r.phase.Enlisted? && !Sent(r.phase)
    ensures FuturesOk(c, rs[rid := r])
  {
    var rs' := rs[rid := r];
    assert forall x :: HasFuture(c, rs', x) <==> HasFuture(c, rs, x);
  }

  lemma ForgetKeepsFutures(c: Core, rs: Requests, rid: Rid)
    requires FuturesOk(c, rs) && rid in rs && !Awaits(rs[rid].phase)
    ensures FuturesOk(Forgotten(c, rid), rs)
  {
    var c' := Forgotten(c, rid);
    assert forall x :: HasFuture(c', rs, x) <==> HasFuture(c, rs, x);
  }

  lemma PhaseKeepsFutures(c: Core, rs: Requests, rid: Rid, phase: Phase)
    requires FuturesOk(c, rs) && rid in rs && Awaits(rs[rid].phase) && !phase.Reading?
    ensures FuturesOk(c, rs[rid := rs[rid].(phase := phase)])
  {
    var rs' := rs[rid := rs[rid].(phase := phase)];
    assert forall r :: HasFuture(c, rs', r) <==> HasFuture(c, rs, r);
  }

  lemma EnlistKeepsFutures(s: State, rid: Rid)
    requires FuturesOk(s.core, s.requests) && Enabled(s, Enlist(rid))
    ensures FuturesOk(Do(s, Enlist(rid)).core, Do(s, Enlist(rid)).requests)
  {
    var c, rs := s.core, s.requests;
    var c', rs' := Do(s, Enlist(rid)).core, Do(s, Enlist(rid)).requests;
    forall r | r != rid
      ensures HasFuture(c', rs', r) <==> HasFuture(c, rs, r)
      ensures HasFuture(c', rs', r) ==> FutureOf(c', rs', r) == FutureOf(c, rs, r)
    {
    }
  }

  lemma DeliverKeepsFutures(c: Core, rs: Requests, frame: ResponseFrame)
    requires FuturesOk(c, rs) && c.Valid()
    ensures FuturesOk(Delivered(c, frame), rs)
  {
    var c' := Delivered(c, frame);
    assert forall r :: HasFuture(c', rs, r) <==> HasFuture(c, rs, r);
    forall r | HasFuture(c', rs, r) && FutureOf(c', rs, r).Unset?
      ensures FutureOf(c, rs, r).Unset? && (r in c.pending ==> r in c'.pending)
    {
    }
  }

  /** A delivery completes the future of its own request or none. */
  lemma DeliverCompletesOne(c: Core, rs: Requests, frame: ResponseFrame, x: Rid)
    requires FuturesOk(c, rs) && c.Valid() && HasFuture(c, rs, x)
    ensures HasFuture(Delivered(c, frame), rs, x)
    ensures FutureOf(Delivered(c, frame), rs, x)
         == if x == frame.id && x in c.pending && FutureOf(c, rs, x).Unset? then Result(frame) else FutureOf(c, rs, x)
  {
    if frame.id in c.pending && rs[x].future == Some(c.pending[frame.id]) {
      assert HasFuture(c, rs, frame.id);
    }
  }

  lemma TimeoutKeepsFutures(c: Core, rs: Requests, fut: nat)
    requires FuturesOk(c, rs) && fut < |c.futures|
    ensures FuturesOk(TimedOut(c, fut), rs)
  {
    var c' := TimedOut(c, fut);
    assert forall r :: HasFuture(c', rs, r) <==> HasFuture(c, rs, r);
  }

  /** The requests have only moved on: same frames and sockets, nothing unsent. */
  ghost predicate MovedOn(rs: Requests, rs': Requests) {
    && (forall rid :: rid in rs ==> rid in rs' && rs'[rid].frame == rs[rid].frame && rs'[rid].socket == rs[rid].socket)
    && (forall rid :: rid in rs && Sent(rs[rid].phase) ==> Sent(rs'[rid].phase))
    && (forall rid :: rid in rs' ==> rs'[rid].frame.id == rid)
  }

  lemma ReplacedMovesOn(rs: Requests, rid: Rid, r: Request)
    requires forall x :: x in rs ==> rs[x].frame.id == x
    requires r.frame.id == rid
    requires rid in rs ==> r.frame == rs[rid].frame && r.socket == rs[rid].socket
    requires rid in rs && Sent(rs[rid].phase) ==> Sent(r.phase)
    ensures MovedOn(rs, rs[rid := r])
  {
  }

  lemma RequestsMoveOn(s: State, step: Step)
    requires FramesOk(s) && Enabled(s, step)
    ensures MovedOn(s.requests, Do(s, step).requests)
  {
    var rs, rs' := s.requests, Do(s, step).requests;
    match step
    case Refuse(rid, _) => ReplacedMovesOn(rs, rid, rs'[rid]);
    case Admit(rid, _) => ReplacedMovesOn(rs, rid, rs'[rid]);
    case Enlist(rid) => ReplacedMovesOn(rs, rid, rs'[rid]);
    case Send(rid) => ReplacedMovesOn(rs, rid, rs'[rid]);
    case SendFails(rid, _) => ReplacedMovesOn(rs, rid, rs'[rid]);
    case Answer(rid) => ReplacedMovesOn(rs, rid, rs'[rid]);
    case Expire(rid) => ReplacedMovesOn(rs, rid, rs'[rid]);
    case GiveUp(rid) => ReplacedMovesOn(rs, rid, rs'[rid]);
    case _ => assert rs' == rs;
  }

  lemma GenuineKept(rs: Requests, rs': Requests, at: Socket, q: RequestFrame)
    requires MovedOn(rs, rs') && Genuine(rs, at, q)
    ensures Genuine(rs', at, q)
  {
  }

  lemma DownKept(s: State, step: Step, at: Socket, q: RequestFrame)
    requires FramesOk(s) && Enabled(s, step) && (at, q) in Do(s, step).down
    ensures Genuine(Do(s, step).requests, at, q)
  {
    if (at, q) in s.down {
      RequestsMoveOn(s, step);
      GenuineKept(s.requests, Do(s, step).requests, at, q);
    }
  }

  lemma TaskKept(s: State, step: Step, at: Socket, q: RequestFrame)
    requires FramesOk(s) && Enabled(s, step) && (at, q) in Do(s, step).tasks
    ensures Genuine(Do(s, step).requests, at, q)
  {
    assert Genuine(s.requests, at, q);
    RequestsMoveOn(s, step);
    GenuineKept(s.requests, Do(s, step).requests, at, q);
  }

  lemma AnswerKept(s: State, step: Step, q: RequestFrame, r: ResponseFrame)
    requires FramesOk(s) && Enabled(s, step) && (q, r) in Do(s, step).answers
    ensures var rs := Do(s, step).requests;
      r.id == q.id && q.id in rs && Genuine(rs, rs[q.id].socket, q)
  {
    assert r.id == q.id && q.id in s.requests && Genuine(s.requests, s.requests[q.id].socket, q);
    RequestsMoveOn(s, step);
    GenuineKept(s.requests, Do(s, step).requests, s.requests[q.id].socket, q);
  }

  lemma UpKept(s: State, step: Step, at: Socket, r: ResponseFrame)
    requires FramesOk(s) && Enabled(s, step) && (at, r) in Do(s, step).up
    ensures var s' := Do(s, step);
      r.id in s'.requests && at == s'.requests[r.id].socket && (s'.requests[r.id].frame, r) in s'.answers
  {
    var rs := s.requests;
    assert r.id in rs && at == rs[r.id].socket && (rs[r.id].frame, r) in Do(s, step).answers;
    RequestsMoveOn(s, step);
  }

  lemma FramesKept(s: State, step: Step)
    requires FramesOk(s) && Enabled(s, step)
    ensures FramesOk(Do(s, step))
  {
    var s' := Do(s, step);
    RequestsMoveOn(s, step);
    forall at, q | (at, q) in s'.down
      ensures Genuine(s'.requests, at, q)
    {
      DownKept(s, step, at, q);
    }
    forall at, q | (at, q) in s'.tasks
      ensures Genuine(s'.requests, at, q)
    {
      TaskKept(s, step, at, q);
    }
    forall q, r | (q, r) in s'.answers
      ensures r.id == q.id && q.id in s'.requests && Genuine(s'.requests, s'.requests[q.id].socket, q)
    {
      AnswerKept(s, step, q, r);
    }
    forall at, r | (at, r) in s'.up
      ensures r.id in s'.requests && at == s'.requests[r.id].socket && (s'.requests[r.id].frame, r) in s'.answers
    {
      UpKept(s, step, at, r);
    }
  }

  lemma OneEachKept(s: State, step: Step)
    requires FramesOk(s) && OneEach(s) && Enabled(s, step)
    ensures OneEach(Do(s, step))
  {
    match step
    case Send(rid) => SendKeepsOneEach(s, rid);
    case SendFails(rid, arrived) => SendKeepsOneEach(s, rid);
    case NodeReceive(at, q) => ReceiveKeepsOneEach(s, at, q);
    case NodeAnswer(at, q, upstream) => AnswerKeepsOneEach(s, at, q, upstream);
    case _ =>
  }

  lemma SendKeepsOneEach(s: State, rid: Rid)
    requires FramesOk(s) && OneEach(s) && InPhase(s, rid, Enlisted)
    ensures OneEach(SendOut(s, rid))
  {
    var id := s.requests[rid].frame.id;
    assert forall at, q :: (at, q) in s.tasks ==> q.id != id;
    assert forall q, r :: (q, r) in s.answers ==> q.id != id;
  }

  lemma ReceiveKeepsOneEach(s: State, at: Socket, q: RequestFrame)
    requires FramesOk(s) && OneEach(s) && Enabled(s, NodeReceive(at, q))
    ensures OneEach(Do(s, NodeReceive(at, q)))
  {
    forall at', q' | (at', q') in s.down && q'.id == q.id
      ensures (at', q') == (at, q)
    {
    }
  }

  lemma AnswerKeepsOneEach(s: State, at: Socket, q: RequestFrame, upstream: Upstream)
    requires FramesOk(s) && OneEach(s) && Enabled(s, NodeAnswer(at, q, upstream))
    ensures OneEach(Do(s, NodeAnswer(at, q, upstream)))
  {
    forall at', q' | (at', q') in s.tasks && q'.id == q.id
      ensures (at', q') == (at, q)
    {
    }
  }

  lemma ResultsKept(s: State, step: Step)
    requires Inv(s) && Enabled(s, step)
    ensures ResultsOk(Do(s, step).core, Do(s, step).requests, Do(s, step).answers)
  {
    var s' := Do(s, step);
    var c, rs, known := s.core, s.requests, s.answers;
    match step
    case Deliver(at, r) => DeliverKeepsResults(s, at, r);
    case Refuse(rid, outcome) => ArrivalKeepsResults(c, rs, known, rid, s'.requests[rid]);
    case Admit(rid, payload) => ArrivalKeepsResults(c, rs, known, rid, s'.requests[rid]);
    case Enlist(rid) => EnlistKeepsResults(s, rid);
    case Connect(ws) => SameFuturesKeepResults(c, s'.core, rs, known);
    case Teardown(ws) => SameFuturesKeepResults(c, s'.core, rs, known);
    case _ => ProgressKeepsResults(s, step);
  }

  lemma ProgressKeepsResults(s: State, step: Step)
    requires Inv(s) && Enabled(s, step)
    requires !step.Connect? && !step.Teardown? && !step.Refuse? && !step.Admit? && !step.Enlist? && !step.Deliver?
    ensures ResultsOk(Do(s, step).core, Do(s, step).requests, Do(s, step).answers)
  {
    var c, rs, known := s.core, s.requests, s.answers;
    match step
    case Send(rid) => PhaseKeepsResults(c, rs, known, rid, Waiting);
    case SendFails(rid, _) => PhaseKeepsResults(c, rs, known, rid, Done(SendError));
    case Answer(rid) => PhaseKeepsResults(c, rs, known, rid, Do(s, step).requests[rid].phase);
    case Expire(rid) =>
      PhaseKeepsResults(c, rs, known, rid, Expired);
      TimeoutKeepsResults(c, Do(s, step).requests, known, rs[rid].future.value);
    case GiveUp(rid) =>
      PhaseKeepsResults(c, rs, known, rid, Done(GatewayTimeout));
      SameFuturesKeepResults(c, Do(s, step).core, Do(s, step).requests, known);
    case _ =>
  }

  lemma SameFuturesKeepResults(c: Core, c': Core, rs: Requests, known: set<(RequestFrame, ResponseFrame)>)
    requires ResultsOk(c, rs, known) && c'.futures == c.futures
    ensures ResultsOk(c', rs, known)
  {
    assert forall x :: HasFuture(c', rs, x) <==> HasFuture(c, rs, x);
  }

  lemma ArrivalKeepsResults(c: Core, rs: Requests, known: set<(RequestFrame, ResponseFrame)>, rid: Rid, r: Request)
    requires ResultsOk(c, rs, known) && rid !in rs
    requires r.future.None? && (r.phase.Done? ==> !r.phase.outcome.Reply?)
    ensures ResultsOk(c, rs[rid := r], known)
  {
    var rs' := rs[rid := r];
    assert forall x :: HasFuture(c, rs', x) <==> HasFuture(c, rs, x);
  }

  lemma PhaseKeepsResults(c: Core, rs: Requests, known: set<(RequestFrame, ResponseFrame)>, rid: Rid, phase: Phase)
    requires ResultsOk(c, rs, known) && HasFuture(c, rs, rid)
    requires phase.Done? && phase.outcome.Reply? ==> FutureOf(c, rs, rid) == Result(phase.outcome.frame)
    ensures ResultsOk(c, rs[rid := rs[rid].(phase := phase)], known)
  {
    var rs' := rs[rid := rs[rid].(phase := phase)];
    assert forall x :: HasFuture(c, rs', x) <==> HasFuture(c, rs, x);
  }

  lemma EnlistKeepsResults(s: State, rid: Rid)
    requires Inv(s) && Enabled(s, Enlist(rid))
    ensures ResultsOk(Do(s, Enlist(rid)).core, Do(s, Enlist(rid)).requests, s.answers)
  {
    var c, rs, s' := s.core, s.requests, Do(s, Enlist(rid));
    forall x | x != rid
      ensures HasFuture(s'.core, s'.requests, x) <==> HasFuture(c, rs, x)
      ensures HasFuture(s'.core, s'.requests, x) ==> FutureOf(s'.core, s'.requests, x) == FutureOf(c, rs, x)
    {
    }
  }

  lemma TimeoutKeepsResults(c: Core, rs: Requests, known: set<(RequestFrame, ResponseFrame)>, fut: nat)
    requires ResultsOk(c, rs, known) && fut < |c.futures|
    ensures ResultsOk(TimedOut(c, fut), rs, known)
  {
    var c' := TimedOut(c, fut);
    assert forall x :: HasFuture(c', rs, x) <==> HasFuture(c, rs, x);
  }

  lemma DeliverKeepsResults(s: State, at: Socket, r: ResponseFrame)
    requires Inv(s) && Enabled(s, Deliver(at, r))
    ensures ResultsOk(Delivered(s.core, r), s.requests, s.answers)
  {
    var c, c', rs := s.core, Delivered(s.core, r), s.requests;
    forall x
      ensures HasFuture(c', rs, x) <==> HasFuture(c, rs, x)
      ensures HasFuture(c', rs, x) && FutureOf(c', rs, x) != FutureOf(c, rs, x)
         ==> x == r.id && FutureOf(c, rs, x).Unset? && FutureOf(c', rs, x) == Result(r)
    {
      if HasFuture(c, rs, x) {
        DeliverCompletesOne(c, rs, r, x);
      }
    }
  }

  lemma InvKept(s: State, step: Step)
    requires Inv(s) && Enabled(s, step)
    ensures Inv(Do(s, step))
  {
    SocketsKept(s, step);
    FuturesKept(s, step);
    FramesKept(s, step);
    OneEachKept(s, step);
    ResultsKept(s, step);
  }

  // ---------------------------------------------------------------- whole runs

  /** `states` are the states that the steps lead through from the initial one. */
  ghost predicate IsRun(states: seq<State>, steps: seq<Step>) {
    && |states| == |steps| + 1
    && states[0] == INITIAL
    && forall i :: 0 <= i < |steps| ==> Enabled(states[i], steps[i]) && states[i + 1] == Do(states[i], steps[i])
  }

  lemma {:induction false} RunKeepsInv(states: seq<State>, steps: seq<Step>, i: nat)
    requires IsRun(states, steps) && i < |states|
    ensures Inv(states[i])
  {
    if i > 0 {
      RunKeepsInv(states, steps, i - 1);
      InvKept(states[i - 1], steps[i - 1]);
    }
  }

  /** The registered bridge is the socket that connected last, if its handler still runs,
      and none otherwise: the late end of an older handler unregisters nothing. */
  lemma LatestSocketRegistered(states: seq<State>, steps: seq<Step>, i: nat)
    requires IsRun(states, steps) && i < |states|
    ensures var s := states[i];
      s.core.registered == if s.latest.Some? && s.latest.value in s.open then s.latest else None
  {
    RunKeepsInv(states, steps, i);
  }

  /** A finished future keeps its state. */
  predicate FuturesSettled(c: Core, c': Core) {
    && |c.futures| <= |c'.futures|
    && (forall f :: 0 <= f < |c.futures| && !c.futures[f].Unset? ==> c'.futures[f] == c.futures[f])
  }

  /** A finished handler stays as it is, and every handler keeps its frame. */
  predicate RequestsSettled(rs: Requests, rs': Requests) {
    && (forall rid :: rid in rs ==> rid in rs' && rs'[rid].frame == rs[rid].frame)
    && (forall rid :: rid in rs && rs[rid].phase.Done? ==> rs'[rid] == rs[rid])
  }

  predicate Settled(s: State, s': State) {
    FuturesSettled(s.core, s'.core) && RequestsSettled(s.requests, s'.requests) && s.answers <= s'.answers
  }

  lemma StepSettlesFutures(s: State, step: Step)
    requires Enabled(s, step)
    ensures FuturesSettled(s.core, Do(s, step).core) && s.answers <= Do(s, step).answers
  {
  }

  lemma StepSettlesRequests(s: State, step: Step)
    requires Enabled(s, step)
    ensures RequestsSettled(s.requests, Do(s, step).requests)
  {
  }

  /** No step changes a finished future or a finished handler. */
  lemma StepSettles(s: State, step: Step)
    requires Enabled(s, step)
    ensures Settled(s, Do(s, step))
  {
    StepSettlesFutures(s, step);
    StepSettlesRequests(s, step);
  }

  predicate SettledSteps(states: seq<State>) {
    forall j :: 0 <= j < |states| - 1 ==> Settled(states[j], states[j + 1])
  }

  lemma RunStepsSettle(states: seq<State>, steps: seq<Step>)
    requires IsRun(states, steps)
    ensures SettledSteps(states)
  {
    forall j | 0 <= j < |states| - 1
      ensures Settled(states[j], states[j + 1])
    {
      StepSettles(states[j], steps[j]);
    }
  }

  lemma SettledChain(a: State, b: State, c: State)
    requires Settled(a, b) && Settled(b, c)
    ensures Settled(a, c)
  {
  }

  lemma {:induction false} SettledThroughout(states: seq<State>, i: nat, j: nat)
    requires SettledSteps(states) && i <= j < |states|
    ensures Settled(states[i], states[j])
    decreases j - i
  {
    if i < j {
      SettledThroughout(states, i, j - 1);
      SettledChain(states[i], states[j - 1], states[j]);
    }
  }

  lemma RunSettles(states: seq<State>, steps: seq<Step>, i: nat, j: nat)
    requires IsRun(states, steps) && i <= j < |states|
    ensures Settled(states[i], states[j])
  {
    RunStepsSettle(states, steps);
    SettledThroughout(states, i, j);
  }

  /** A future that holds a result got it from the delivery of exactly that frame. */
  lemma {:induction false} ResultWasDelivered(states: seq<State>, steps: seq<Step>, i: nat, f: nat) returns (k: nat)
    requires IsRun(states, steps) && i < |states|
    requires f < |states[i].core.futures| && states[i].core.futures[f].Result?
    ensures k < i && steps[k].Deliver? && steps[k].response == states[i].core.futures[f].frame
    ensures f < |states[k].core.futures| && states[k].core.futures[f].Unset?
    ensures var c := states[k].core; steps[k].response.id in c.pending && c.pending[steps[k].response.id] == f
  {
    var before := states[i - 1].core.futures;
    if f < |before| && before[f].Result? {
      RunSettles(states, steps, i - 1, i);
      k := ResultWasDelivered(states, steps, i - 1, f);
    } else {
      k := i - 1;
      FreshResult(states[k], steps[k], f);
    }
  }

  lemma FreshResult(s: State, step: Step, f: nat)
    requires Enabled(s, step)
    requires f < |Do(s, step).core.futures| && Do(s, step).core.futures[f].Result?
    requires f < |s.core.futures| ==> !s.core.futures[f].Result?
    ensures step.Deliver? && f < |s.core.futures| && s.core.futures[f].Unset?
    ensures step.response == Do(s, step).core.futures[f].frame
    ensures step.response.id in s.core.pending && s.core.pending[step.response.id] == f
  {
  }

  /** The main theorem. A handler that returns a reply returns the node's only answer to
      the very frame that handler sent; it was delivered under the handler's own id while
      the handler's future was unset; and the reply never changes afterwards. */
  lemma ReplyIsOwnAnswer(states: seq<State>, steps: seq<Step>, i: nat, rid: Rid) returns (k: nat)
    requires IsRun(states, steps) && i < |states|
    requires rid in states[i].requests
    requires states[i].requests[rid].phase.Done? && states[i].requests[rid].phase.outcome.Reply?
    ensures var r := states[i].requests[rid]; var frame := r.phase.outcome.frame;
      && frame.id == rid == r.frame.id
      && (r.frame, frame) in states[i].answers
      && (forall j, a :: i <= j < |states| && (r.frame, a) in states[j].answers ==> a == frame)
      && (forall j :: i <= j < |states| ==> rid in states[j].requests && states[j].requests[rid] == r)
      && k < i && steps[k].Deliver? && steps[k].response == frame
      && HasFuture(states[k].core, states[k].requests, rid)
      && FutureOf(states[k].core, states[k].requests, rid).Unset?
  {
    var s := states[i];
    var r := s.requests[rid];
    RunKeepsInv(states, steps, i);
    forall j | i <= j < |states|
      ensures rid in states[j].requests && states[j].requests[rid] == r
      ensures forall a :: (r.frame, a) in states[j].answers ==> a == r.phase.outcome.frame
    {
      RunSettles(states, steps, i, j);
      RunKeepsInv(states, steps, j);
    }
    k := ResultWasDelivered(states, steps, i, r.future.value);
    RunKeepsInv(states, steps, k);
    assert steps[k].response.id == rid;
  }

  /** Every answer was given by the node in one step, on that very frame. */
  lemma {:induction false} AnswerWasGiven(states: seq<State>, steps: seq<Step>, i: nat,
                                          q: RequestFrame, a: ResponseFrame) returns (k: nat)
    requires IsRun(states, steps) && i < |states| && (q, a) in states[i].answers
    ensures k < i && steps[k].NodeAnswer? && steps[k].request == q && a == NodeReply(q, steps[k].upstream)
  {
    assert i > 0;
    if (q, a) in states[i - 1].answers {
      k := AnswerWasGiven(states, steps, i - 1, q, a);
    } else {
      k := i - 1;
    }
  }

  predicate IsRefused(phase: Phase) {
    phase == Done(BadToken) || phase == Done(NoBridge)
  }

  /** A request that was not refused was admitted: its frame is what its client sent, and its
      socket the bridge that was registered then. */
  lemma {:induction false} FrameWasAdmitted(states: seq<State>, steps: seq<Step>, i: nat, rid: Rid) returns (k: nat)
    requires IsRun(states, steps) && i < |states|
    requires rid in states[i].requests && !IsRefused(states[i].requests[rid].phase)
    ensures var r := states[i].requests[rid];
      && k < i && steps[k] == Admit(rid, r.frame.payload) && r.frame.id == rid
      && states[k].core.registered == Some(r.socket)
  {
    assert i > 0;
    if rid in states[i - 1].requests {
      StepSettlesRequests(states[i - 1], steps[i - 1]);
      k := FrameWasAdmitted(states, steps, i - 1, rid);
      KeepsItsSocket(states[i - 1], steps[i - 1], rid);
    } else {
      k := i - 1;
    }
  }

  lemma KeepsItsSocket(s: State, step: Step, rid: Rid)
    requires Enabled(s, step) && rid in s.requests
    ensures rid in Do(s, step).requests && Do(s, step).requests[rid].socket == s.requests[rid].socket
  {
  }

  /** A refused request was refused on arrival, for want of a bridge only if none was
      registered then. */
  lemma {:induction false} RefusedOnArrival(states: seq<State>, steps: seq<Step>, i: nat, rid: Rid) returns (k: nat)
    requires IsRun(states, steps) && i < |states|
    requires rid in states[i].requests && IsRefused(states[i].requests[rid].phase)
    ensures k < i && steps[k] == Refuse(rid, states[i].requests[rid].phase.outcome)
    ensures states[i].requests[rid].phase == Done(NoBridge) ==> states[k].core.registered.None?
    ensures rid !in states[k].requests
  {
    assert i > 0;
    if rid in states[i - 1].requests {
      StillRefused(states[i - 1], steps[i - 1], rid);
      k := RefusedOnArrival(states, steps, i - 1, rid);
    } else {
      k := i - 1;
    }
  }

  lemma StillRefused(s: State, step: Step, rid: Rid)
    requires Enabled(s, step) && rid in s.requests && IsRefused(Do(s, step).requests[rid].phase)
    ensures s.requests[rid].phase == Do(s, step).requests[rid].phase
  {
  }

  /** What a reply consists of, end to end. In every run a handler that replies returns, with
      its own status and body, what the local server answered to the request that the client
      of this handler sent; and 502 with the report where the node's call raised. */
  lemma ReplyIsUpstreams(states: seq<State>, steps: seq<Step>, i: nat, rid: Rid) returns (a: nat, k: nat)
    requires IsRun(states, steps) && i < |states|
    requires rid in states[i].requests
    requires states[i].requests[rid].phase.Done? && states[i].requests[rid].phase.outcome.Reply?
    ensures var reply := states[i].requests[rid].phase.outcome.frame;
      && a < i && steps[a].Admit? && steps[a].rid == rid
      && k < i && steps[k].NodeAnswer? && steps[k].request == RequestFrame(rid, steps[a].payload)
      && (steps[k].upstream.Responded? ==>
           reply == ResponseFrame(rid, steps[k].upstream.status, steps[k].upstream.body))
      && (steps[k].upstream.Raised? ==> reply == ResponseFrame(rid, 502, steps[k].upstream.report))
  {
    var r := states[i].requests[rid];
    var d := ReplyIsOwnAnswer(states, steps, i, rid);
    a := FrameWasAdmitted(states, steps, i, rid);
    k := AnswerWasGiven(states, steps, i, r.frame, r.phase.outcome.frame);
  }

  /** A frame that comes after its request's future is finished changes no future and no
      handler; all that goes is the frame itself and, if there is one, a stale entry. */
  lemma LateFrameIsInert(s: State, at: Socket, r: ResponseFrame)
    requires Inv(s) && Enabled(s, Deliver(at, r))
    requires HasFuture(s.core, s.requests, r.id) && !FutureOf(s.core, s.requests, r.id).Unset?
    ensures Do(s, Deliver(at, r))
         == s.(core := s.core.(pending := s.core.pending - {r.id}), up := s.up - {(at, r)})
  {
  }

  /** A frame that comes while its request waits completes that request's future, and no
      other one: the entry is there because `pending` contains every waiting request. */
  lemma TimelyFrameCompletes(s: State, at: Socket, r: ResponseFrame)
    requires Inv(s) && Enabled(s, Deliver(at, r))
    requires InPhase(s, r.id, Waiting) && FutureOf(s.core, s.requests, r.id).Unset?
    ensures var s' := Do(s, Deliver(at, r));
      && Enabled(s', Answer(r.id))
      && Do(s', Answer(r.id)).requests[r.id].phase == Done(Reply(r))
      && (forall rid :: rid != r.id && HasFuture(s.core, s.requests, rid) ==>
           HasFuture(s'.core, s'.requests, rid)
           && FutureOf(s'.core, s'.requests, rid) == FutureOf(s.core, s.requests, rid))
  {
    var s' := Do(s, Deliver(at, r));
    assert r.id in s.core.pending;
    forall rid | HasFuture(s.core, s.requests, rid)
      ensures HasFuture(s'.core, s'.requests, rid)
      ensures FutureOf(s'.core, s'.requests, rid)
           == if rid == r.id then Result(r) else FutureOf(s.core, s.requests, rid)
    {
      DeliverCompletesOne(s.core, s.requests, r, rid);
    }
  }

  /** A frame that a handler sends is nowhere else in the system yet. */
  lemma SendIsFresh(s: State, rid: Rid)
    requires Inv(s) && Enabled(s, Send(rid))
    ensures var id := s.requests[rid].frame.id;
      && (forall at, q :: (at, q) in s.down || (at, q) in s.tasks ==> q.id != id)
      && (forall at, r :: (at, r) in s.up ==> r.id != id)
      && (forall q, r :: (q, r) in s.answers ==> q.id != id)
  {
  }

  // ---------------------------------------------------------------- stale entries

  /** An entry of `pending` belongs to a handler that waits or whose send failed, and its
      future holds no result; an unset future is listed; a cancelled one timed out. */
  predicate EntryOk(c: Core, rs: Requests, rid: Rid)
    requires HasFuture(c, rs, rid)
  {
    var phase, future := rs[rid].phase, FutureOf(c, rs, rid);
    && (rid in c.pending ==> (Awaits(phase) || phase == Done(SendError)) && !future.Result?)
    && (future.Unset? ==> rid in c.pending)
    && (phase.Expired? ==> !future.Unset?)
    && (future.Cancelled? ==> phase.Expired? || phase == Done(GatewayTimeout))
  }

  ghost predicate EntriesOk(c: Core, rs: Requests) {
    forall rid :: HasFuture(c, rs, rid) ==> EntryOk(c, rs, rid)
  }

  /** A step that neither delivers nor moves the handler of `rid`. */
  lemma UntouchedEntry(c: Core, rs: Requests, c': Core, rs': Requests, rid: Rid)
    requires HasFuture(c, rs, rid) && HasFuture(c', rs', rid) && EntryOk(c, rs, rid)
    requires rs'[rid] == rs[rid] && FutureOf(c', rs', rid) == FutureOf(c, rs, rid)
    requires rid in c'.pending <==> rid in c.pending
    ensures EntryOk(c', rs', rid)
  {
  }

  lemma FutureWasThere(s: State, step: Step, rid: Rid)
    requires Enabled(s, step) && !step.Enlist? && HasFuture(Do(s, step).core, Do(s, step).requests, rid)
    ensures HasFuture(s.core, s.requests, rid)
  {
  }

  lemma EntryKept(s: State, step: Step, rid: Rid)
    requires FuturesOk(s.core, s.requests) && EntriesOk(s.core, s.requests) && Enabled(s, step)
    requires HasFuture(Do(s, step).core, Do(s, step).requests, rid)
    ensures EntryOk(Do(s, step).core, Do(s, step).requests, rid)
  {
    var c, rs, c', rs' := s.core, s.requests, Do(s, step).core, Do(s, step).requests;
    if step.Enlist? {
      if rid != step.rid {
        UntouchedEntry(c, rs, c', rs', rid);
      }
    } else {
      FutureWasThere(s, step, rid);
      match step
      case Deliver(_, r) => DeliverCompletesOne(c, rs, r, rid);
      case Expire(x) => ExpireKeepsEntry(s, x, rid);
      case Send(x) => MoveKeepsEntry(s, step, x, rid);
      case SendFails(x, _) => MoveKeepsEntry(s, step, x, rid);
      case Answer(x) => MoveKeepsEntry(s, step, x, rid);
      case GiveUp(x) => MoveKeepsEntry(s, step, x, rid);
      case _ => UntouchedEntry(c, rs, c', rs', rid);
    }
  }

  lemma MoveKeepsEntry(s: State, step: Step, x: Rid, rid: Rid)
    requires EntriesOk(s.core, s.requests) && Enabled(s, step) && HasFuture(s.core, s.requests, rid)
    requires step.Send? || step.SendFails? || step.Answer? || step.GiveUp?
    requires step.rid == x
    ensures var s' := Do(s, step); HasFuture(s'.core, s'.requests, rid) && EntryOk(s'.core, s'.requests, rid)
  {
    var s' := Do(s, step);
    if x != rid {
      UntouchedEntry(s.core, s.requests, s'.core, s'.requests, rid);
    } else {
      assert EntryOk(s.core, s.requests, rid);
    }
  }

  lemma ExpireKeepsEntry(s: State, x: Rid, rid: Rid)
    requires FuturesOk(s.core, s.requests) && EntriesOk(s.core, s.requests) && Enabled(s, Expire(x))
    requires HasFuture(s.core, s.requests, rid)
    ensures var s' := Do(s, Expire(x)); HasFuture(s'.core, s'.requests, rid) && EntryOk(s'.core, s'.requests, rid)
  {
    var s' := Do(s, Expire(x));
    if x != rid {
      assert s.requests[x].future != s.requests[rid].future;
      UntouchedEntry(s.core, s.requests, s'.core, s'.requests, rid);
    }
  }

  lemma {:induction false} RunKeepsEntries(states: seq<State>, steps: seq<Step>, i: nat)
    requires IsRun(states, steps) && i < |states|
    ensures EntriesOk(states[i].core, states[i].requests)
  {
    if i > 0 {
      var s, step := states[i - 1], steps[i - 1];
      RunKeepsEntries(states, steps, i - 1);
      RunKeepsInv(states, steps, i - 1);
      forall rid | HasFuture(Do(s, step).core, Do(s, step).requests, rid)
        ensures EntryOk(Do(s, step).core, Do(s, step).requests, rid)
      {
        EntryKept(s, step, rid);
      }
    }
  }

  predicate Answers(step: Step, rid: Rid) {
    step.Deliver? && step.response.id == rid
  }

  predicate Unlisted(s: State, rid: Rid) {
    rid in s.requests && Sent(s.requests[rid].phase) && rid !in s.core.pending
  }

  lemma StaysUnlistedStep(s: State, step: Step, rid: Rid)
    requires FuturesOk(s.core, s.requests) && Enabled(s, step) && Unlisted(s, rid)
    ensures Unlisted(Do(s, step), rid)
  {
  }

  lemma {:induction false} StaysUnlisted(states: seq<State>, steps: seq<Step>, i: nat, j: nat, rid: Rid)
    requires IsRun(states, steps) && i <= j < |states| && Unlisted(states[i], rid)
    ensures Unlisted(states[j], rid)
    decreases j - i
  {
    if i < j {
      StaysUnlisted(states, steps, i, j - 1, rid);
      RunKeepsInv(states, steps, j - 1);
      StaysUnlistedStep(states[j - 1], steps[j - 1], rid);
    }
  }

  lemma AnsweredIsUnlisted(states: seq<State>, steps: seq<Step>, k: nat, i: nat, rid: Rid)
    requires IsRun(states, steps) && k < i < |states| && Answers(steps[k], rid)
    ensures Unlisted(states[i], rid)
  {
    RunKeepsInv(states, steps, k);
    assert (states[k].requests[rid].frame, steps[k].response) in states[k].answers;
    assert Unlisted(states[k + 1], rid);
    StaysUnlisted(states, steps, k + 1, i, rid);
  }

  /** In every run `pending` holds more than the waiting handlers exactly where a failed
      send's frame is still unanswered: that entry stays, for good if no answer comes. */
  lemma StaleEntries(states: seq<State>, steps: seq<Step>, i: nat, rid: Rid)
    requires IsRun(states, steps) && i < |states|
    ensures var s := states[i];
      (rid in s.core.pending && !(rid in s.requests && Awaits(s.requests[rid].phase)))
      <==> (InPhase(s, rid, Done(SendError)) && forall k :: 0 <= k < i ==> !Answers(steps[k], rid))
  {
    var s := states[i];
    RunKeepsInv(states, steps, i);
    RunKeepsEntries(states, steps, i);
    if rid in s.core.pending {
      assert HasFuture(s.core, s.requests, rid);
      assert EntryOk(s.core, s.requests, rid);
      forall k | 0 <= k < i
        ensures !Answers(steps[k], rid)
      {
        if Answers(steps[k], rid) {
          AnsweredIsUnlisted(states, steps, k, i, rid);
        }
      }
    } else if InPhase(s, rid, Done(SendError)) {
      assert EntryOk(s.core, s.requests, rid);
      var k := ResultWasDelivered(states, steps, i, s.requests[rid].future.value);
      RunSettles(states, steps, k, i);
      RunKeepsInv(states, steps, k);
      assert Answers(steps[k], rid);
    }
  }

  // ---------------------------------------------------------------- lost frames

  /** A request that arrives can be refused for its token, and is otherwise refused for want
      of a bridge or admitted, according to whether one is registered. */
  lemma ArrivalIs(s: State, rid: Rid, payload: string)
    requires rid !in s.requests
    ensures Enabled(s, Refuse(rid, BadToken))
    ensures Enabled(s, Refuse(rid, NoBridge)) <==> s.core.registered.None?
    ensures Enabled(s, Admit(rid, payload)) <==> s.core.registered.Some?
  {
  }

  /** The step takes the only trace of request `rid` off the network, or hands it over. */
  predicate EndsTrace(step: Step, rid: Rid) {
    || (step.LoseDown? && step.request.id == rid)
    || (step.LoseTask? && step.request.id == rid)
    || (step.LoseUp? && step.response.id == rid)
    || Answers(step, rid)
  }

  /** Request `rid` was sent, and nothing of it is under way. */
  ghost predicate NothingUnderWay(s: State, rid: Rid) {
    && rid in s.requests && Sent(s.requests[rid].phase)
    && (forall at, q :: (at, q) in s.down ==> q.id != rid)
    && (forall at, q :: (at, q) in s.tasks ==> q.id != rid)
    && (forall at, r :: (at, r) in s.up ==> r.id != rid)
  }

  lemma TraceEnds(s: State, step: Step, rid: Rid)
    requires Inv(s) && Enabled(s, step) && EndsTrace(step, rid)
    ensures NothingUnderWay(Do(s, step), rid)
  {
    hide FuturesOk, ResultsOk, SocketsOk;
    match step
    case LoseDown(at, q) => assert Genuine(s.requests, at, q);
    case LoseTask(at, q) => assert Genuine(s.requests, at, q);
    case LoseUp(at, r) => AnswerLeavesTrace(s, at, r);
    case Deliver(at, r) => AnswerLeavesTrace(s, at, r);
  }

  lemma AnswerLeavesTrace(s: State, at: Socket, r: ResponseFrame)
    requires FramesOk(s) && OneEach(s) && (at, r) in s.up
    ensures r.id in s.requests && Sent(s.requests[r.id].phase)
    ensures forall at', q :: (at', q) in s.down || (at', q) in s.tasks ==> q.id != r.id
    ensures forall at', r' :: (at', r') in s.up && r'.id == r.id ==> at' == at && r' == r
  {
    assert (s.requests[r.id].frame, r) in s.answers;
  }

  lemma StaysQuiet(s: State, step: Step, rid: Rid)
    requires FramesOk(s) && Enabled(s, step) && NothingUnderWay(s, rid)
    ensures NothingUnderWay(Do(s, step), rid)
  {
    RequestsMoveOn(s, step);
  }

  lemma {:induction false} QuietForGood(states: seq<State>, steps: seq<Step>, k: nat, i: nat, rid: Rid)
    requires IsRun(states, steps) && k <= i < |states| && NothingUnderWay(states[k], rid)
    ensures NothingUnderWay(states[i], rid)
    decreases i - k
  {
    if k < i {
      QuietForGood(states, steps, k, i - 1, rid);
      RunKeepsInv(states, steps, i - 1);
      StaysQuiet(states[i - 1], steps[i - 1], rid);
    }
  }

  lemma TraceEndsOnce(states: seq<State>, steps: seq<Step>, k: nat, i: nat, rid: Rid)
    requires IsRun(states, steps) && k < i < |steps| && EndsTrace(steps[k], rid)
    ensures !EndsTrace(steps[i], rid)
  {
    RunKeepsInv(states, steps, k);
    TraceEnds(states[k], steps[k], rid);
    QuietForGood(states, steps, k + 1, i, rid);
  }

  /** A request whose frame, task or answer is lost in a run is never answered in it: no
      handler of it replies, before or after the loss. */
  lemma LostIsUnanswered(states: seq<State>, steps: seq<Step>, k: nat, i: nat, rid: Rid)
    requires IsRun(states, steps) && k < |steps| && i < |states|
    requires EndsTrace(steps[k], rid) && !Answers(steps[k], rid)
    requires rid in states[i].requests
    ensures !(states[i].requests[rid].phase.Done? && states[i].requests[rid].phase.outcome.Reply?)
  {
    if states[i].requests[rid].phase.Done? && states[i].requests[rid].phase.outcome.Reply? {
      var d := ReplyIsOwnAnswer(states, steps, i, rid);
      if d < k {
        TraceEndsOnce(states, steps, d, k, rid);
      } else if k < d {
        TraceEndsOnce(states, steps, k, d, rid);
      }
    }
  }

  // ---------------------------------------------------------------- accepted and timed out

  predicate Unfinished(s: State, rid: Rid) {
    HasFuture(s.core, s.requests, rid) && FutureOf(s.core, s.requests, rid).Unset?
  }

  /** The step completes the future of `rid`, which was unset. */
  predicate Completes(s: State, step: Step, rid: Rid) {
    Answers(step, rid) && Unfinished(s, rid)
  }

  lemma CompletedHasResult(s: State, step: Step, rid: Rid)
    requires FuturesOk(s.core, s.requests) && EntriesOk(s.core, s.requests)
    requires Enabled(s, step) && Completes(s, step, rid)
    ensures HasFuture(Do(s, step).core, s.requests, rid)
    ensures FutureOf(Do(s, step).core, s.requests, rid).Result?
  {
    DeliverCompletesOne(s.core, s.requests, step.response, rid);
  }

  /** A handler that gave up did so in one step, and expired in an earlier one. */
  lemma {:induction false} ExpiredBefore(states: seq<State>, steps: seq<Step>, i: nat, rid: Rid) returns (k: nat)
    requires IsRun(states, steps) && i < |states| && InPhase(states[i], rid, Expired)
    ensures k < i && steps[k] == Expire(rid)
  {
    assert i > 0;
    if InPhase(states[i - 1], rid, Expired) {
      k := ExpiredBefore(states, steps, i - 1, rid);
    } else {
      k := i - 1;
    }
  }

  lemma {:induction false} GaveUpBefore(states: seq<State>, steps: seq<Step>, i: nat, rid: Rid) returns (k: nat, g: nat)
    requires IsRun(states, steps) && i < |states| && InPhase(states[i], rid, Done(GatewayTimeout))
    ensures k < g < i && steps[k] == Expire(rid) && steps[g] == GiveUp(rid)
  {
    assert i > 0;
    if InPhase(states[i - 1], rid, Done(GatewayTimeout)) {
      k, g := GaveUpBefore(states, steps, i - 1, rid);
    } else {
      g := i - 1;
      k := ExpiredBefore(states, steps, g, rid);
    }
  }

  /** The future of a handler, once it is finished, is the same in all later states. */
  lemma FinishedStays(states: seq<State>, steps: seq<Step>, i: nat, j: nat, rid: Rid)
    requires IsRun(states, steps) && i <= j < |states|
    requires HasFuture(states[i].core, states[i].requests, rid)
    requires HasFuture(states[j].core, states[j].requests, rid)
    requires states[j].requests[rid].future == states[i].requests[rid].future
    requires !FutureOf(states[i].core, states[i].requests, rid).Unset?
    ensures FutureOf(states[j].core, states[j].requests, rid) == FutureOf(states[i].core, states[i].requests, rid)
  {
    RunSettles(states, steps, i, j);
  }

  lemma {:induction false} SameFuture(states: seq<State>, steps: seq<Step>, i: nat, j: nat, rid: Rid)
    requires IsRun(states, steps) && i <= j < |states|
    requires HasFuture(states[i].core, states[i].requests, rid)
    ensures HasFuture(states[j].core, states[j].requests, rid)
    ensures states[j].requests[rid].future == states[i].requests[rid].future
    decreases j - i
  {
    if i < j {
      SameFuture(states, steps, i, j - 1, rid);
      RunKeepsInv(states, steps, j - 1);
      KeepsItsFuture(states[j - 1], steps[j - 1], rid);
    }
  }

  lemma KeepsItsFuture(s: State, step: Step, rid: Rid)
    requires FuturesOk(s.core, s.requests) && Enabled(s, step) && HasFuture(s.core, s.requests, rid)
    ensures HasFuture(Do(s, step).core, Do(s, step).requests, rid)
    ensures Do(s, step).requests[rid].future == s.requests[rid].future
  {
    assert !s.requests[rid].phase.Reading?;
  }

  /** The request ended in 504 although the node's answer had been accepted. */
  predicate AcceptedButTimedOut(s: State, rid: Rid) {
    && InPhase(s, rid, Done(GatewayTimeout))
    && HasFuture(s.core, s.requests, rid)
    && FutureOf(s.core, s.requests, rid).Result?
  }

  lemma LateTimeoutSteps(states: seq<State>, steps: seq<Step>, i: nat, rid: Rid) returns (d: nat, k: nat, g: nat)
    requires IsRun(states, steps) && i < |states| && AcceptedButTimedOut(states[i], rid)
    ensures d < k < g < i && Completes(states[d], steps[d], rid)
    ensures steps[k] == Expire(rid) && steps[g] == GiveUp(rid)
  {
    var f := states[i].requests[rid].future.value;
    RunKeepsInv(states, steps, i);
    d := ResultWasDelivered(states, steps, i, f);
    RunKeepsInv(states, steps, d);
    RunSettles(states, steps, d, i);
    assert FutureOf(states[i].core, states[i].requests, rid) == Result(steps[d].response);
    assert HasFuture(states[d].core, states[d].requests, steps[d].response.id);
    k, g := GaveUpBefore(states, steps, i, rid);
    if k <= d {
      ExpiredIsFinished(states[k], rid);
      assert states[k + 1] == Do(states[k], steps[k]);
      SameFuture(states, steps, k + 1, d, rid);
      FinishedStays(states, steps, k + 1, d, rid);
    }
  }

  lemma ExpiredIsFinished(s: State, rid: Rid)
    requires Enabled(s, Expire(rid))
    ensures var s' := Do(s, Expire(rid));
      HasFuture(s'.core, s'.requests, rid) && !FutureOf(s'.core, s'.requests, rid).Unset?
  {
  }

  lemma CompletedStays(states: seq<State>, steps: seq<Step>, d: nat, i: nat, rid: Rid)
    requires IsRun(states, steps) && d < i < |states| && Completes(states[d], steps[d], rid)
    ensures HasFuture(states[i].core, states[i].requests, rid)
    ensures FutureOf(states[i].core, states[i].requests, rid).Result?
  {
    RunKeepsInv(states, steps, d);
    RunKeepsEntries(states, steps, d);
    CompletedHasResult(states[d], steps[d], rid);
    assert states[d + 1] == Do(states[d], steps[d]);
    SameFuture(states, steps, d + 1, i, rid);
    FinishedStays(states, steps, d + 1, i, rid);
  }

  lemma LateTimeoutOutcome(states: seq<State>, steps: seq<Step>, i: nat, rid: Rid, d: nat, g: nat)
    requires IsRun(states, steps) && d < g < i < |states|
    requires Completes(states[d], steps[d], rid) && steps[g] == GiveUp(rid)
    ensures AcceptedButTimedOut(states[i], rid)
  {
    CompletedStays(states, steps, d, i, rid);
    assert InPhase(states[g + 1], rid, Done(GatewayTimeout));
    RunSettles(states, steps, g + 1, i);
  }

  /** In every run a request ends in 504 although its answer was accepted exactly when its
      wait expires after the delivery that completed its future. */
  lemma LateTimeouts(states: seq<State>, steps: seq<Step>, i: nat, rid: Rid)
    requires IsRun(states, steps) && i < |states|
    ensures AcceptedButTimedOut(states[i], rid)
      <==> exists d, k, g :: 0 <= d < k < g < i && Completes(states[d], steps[d], rid)
            && steps[k] == Expire(rid) && steps[g] == GiveUp(rid)
  {
    if AcceptedButTimedOut(states[i], rid) {
      var d, k, g := LateTimeoutSteps(states, steps, i, rid);
    } else if d, k, g :| 0 <= d < k < g < i && Completes(states[d], steps[d], rid)
                         && steps[k] == Expire(rid) && steps[g] == GiveUp(rid) {
      LateTimeoutOutcome(states, steps, i, rid, d, g);
    }
  }

  /** Where a wait expires only on an unfinished future, as under Python 3.11, no accepted
      answer is lost. */
  lemma PromptTimeoutsLoseNothing(states: seq<State>, steps: seq<Step>, i: nat, rid: Rid)
    requires IsRun(states, steps) && i < |states|
    requires forall k :: 0 <= k < i && steps[k] == Expire(rid) ==> Unfinished(states[k], rid)
    ensures !AcceptedButTimedOut(states[i], rid)
  {
    if AcceptedButTimedOut(states[i], rid) {
      var d, k, g := LateTimeoutSteps(states, steps, i, rid);
      CompletedStays(states, steps, d, k, rid);
    }
  }

  // ---------------------------------------------------------------- two runs

  /** A run with one more step. */
  lemma Extend(states: seq<State>, steps: seq<Step>, step: Step) returns (states': seq<State>, steps': seq<Step>)
    requires IsRun(states, steps) && Enabled(states[|steps|], step)
    ensures IsRun(states', steps') && |steps'| == |steps| + 1
    ensures states'[|steps'|] == Do(states[|steps|], step)
  {
    states', steps' := states + [Do(states[|steps|], step)], steps + [step];
    forall i | 0 <= i < |steps'|
      ensures Enabled(states'[i], steps'[i]) && states'[i + 1] == Do(states'[i], steps'[i])
    {
      if i < |steps| {
        assert states'[i] == states[i] && states'[i + 1] == states[i + 1] && steps'[i] == steps[i];
      }
    }
  }

  /** The first four steps of both runs: a request is sent, or its send fails. */
  lemma SentRun(payload: string, step: Step) returns (states: seq<State>, steps: seq<Step>)
    requires step == Send(0) || step == SendFails(0, false)
    ensures IsRun(states, steps) && |steps| == 4
    ensures var s := states[4]; var q := RequestFrame(0, payload);
      && s.requests == map[0 := Request(0, q, Some(0), if step.Send? then Waiting else Done(SendError))]
      && s.core == Core(map[0 := 0], [Unset], Some(0)) && s.open == {0}
      && s.down == if step.Send? then {(0, q)} else {}
  {
    states, steps := Extend([INITIAL], [], Connect(0));
    states, steps := Extend(states, steps, Admit(0, payload));
    states, steps := Extend(states, steps, Enlist(0));
    states, steps := Extend(states, steps, step);
  }

  /** A run in which the node's answer is accepted, its frame gone from `pending`, and the
      request still ends in 504. */
  lemma LateTimeoutRun(payload: string, body: string) returns (states: seq<State>, steps: seq<Step>)
    ensures IsRun(states, steps) && |steps| == 9
    ensures var s := states[9];
      && AcceptedButTimedOut(s, 0)
      && FutureOf(s.core, s.requests, 0) == Result(ResponseFrame(0, 200, body))
      && 0 !in s.core.pending
  {
    var q, r := RequestFrame(0, payload), ResponseFrame(0, 200, body);
    states, steps := SentRun(payload, Send(0));
    states, steps := Extend(states, steps, NodeReceive(0, q));
    states, steps := Extend(states, steps, NodeAnswer(0, q, Responded(200, body)));
    states, steps := Extend(states, steps, Deliver(0, r));
    states, steps := Extend(states, steps, Expire(0));
    states, steps := Extend(states, steps, GiveUp(0));
  }

  /** A run after which an entry is in `pending` although nobody waits. */
  lemma FailedSendRun(payload: string) returns (states: seq<State>, steps: seq<Step>)
    ensures IsRun(states, steps) && |steps| == 4
    ensures 0 in states[4].core.pending && InPhase(states[4], 0, Done(SendError))
  {
    states, steps := SentRun(payload, SendFails(0, false));
  }
}
