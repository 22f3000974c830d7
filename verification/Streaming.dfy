/**
 The streaming mesh as one state machine: the router dispatches requests over
 per-worker pipes, workers stream frames back, the router demultiplexes them into
 bounded session buffers, and a response writer per request drains its buffer
 (internal/router/server.go, internal/worker/daemon.go). A message on a pipe is
 represented by what its bytes decode to at the other end. A run is any
 interleaving of the events; pipes are FIFO and may lose any message.
 */
module Streaming {
  import opened Seqs
  import opened Wire
  import opened Jobs

  const SESSION_BUFFER_SIZE: nat := 256

  type Pipe = nat
  type Req = seq<byte>

  /** Everything about one request. `session` is its entry in the sessions map;
      `taken` are the frames its writer has received, with the outcome of the
      flush after each; `lost` holds its frames that were lost, dropped or
      discarded, and is kept for the statements below. */
  datatype Request = Request(
    pipe: Pipe, streamed: bool, session: Option<seq<Frame>>, taken: seq<Frame>, flushes: seq<bool>,
    engine: Option<Proxied>, sent: nat, lost: seq<Frame>)

  datatype State = State(
    requests: map<Req, Request>, down: map<Pipe, seq<Result<Envelope>>>, up: map<Pipe, seq<Message>>)

  const INIT: State := State(map[], map[], map[])

  datatype Event =
    | Dispatch(id: Req, pipe: Pipe, body: seq<byte>, streamed: bool, sendOk: bool)
    | StartJob(pipe: Pipe, engine: Proxied)    // a worker receives a dispatch
    | SendFrame(id: Req, sendOk: bool)         // its job sends the next frame
    | Receive(pipe: Pipe)                      // the router's receive loop
    | Consume(id: Req, flushed: bool)          // a response writer takes a frame
    | LoseDown(pipe: Pipe, k: nat)
    | LoseUp(pipe: Pipe, k: nat)

  function Queue<T>(m: map<Pipe, seq<T>>, p: Pipe): seq<T> {
    if p in m then m[p] else []
  }

  /** All frames the request's job will ever send. */
  function Frames(r: Request): seq<Frame> {
    if r.engine.Some? then JobFrames(r.engine.value) else []
  }

  function Unsent(r: Request): seq<Frame> {
    if r.sent <= |Frames(r)| then Frames(r)[r.sent..] else []
  }

  function Buffer(r: Request): seq<Frame> {
    if r.session.Some? then r.session.value else []
  }

  /** The statuses a writer has recorded after taking these frames: it has
      returned once there is one. */
  function Audits(streamed: bool, taken: seq<Frame>, flushes: seq<bool>, render: Render): seq<int>
    requires |flushes| == |taken|
  {
    if streamed then Streamed(taken, flushes, render).audits else BufferedAll(taken, render).audits
  }

  /** The engine conditions of io.Reader, and error texts below 4 GiB. */
  ghost predicate Plausible(p: Proxied) {
    FitsBuffer(p) && forall i :: 0 <= i < |JobFrames(p)| ==> |JobFrames(p)[i].payload| < TWO_32
  }

  // ---------- steps ----------

  function Lost(r: Request, fs: seq<Frame>): Request {
    r.(lost := r.lost + fs)
  }

  /** handleMeshMessage for a frame: a full buffer drops it, an ended session
      ignores it. */
  function Arrived(r: Request, f: Frame): Request {
    if r.session.Some? && |r.session.value| < SESSION_BUFFER_SIZE
    then r.(session := Some(r.session.value + [f]))
    else Lost(r, [f])
  }

  /** The writer takes the head of its buffer; when that ends the response the
      session is deleted and what is still buffered is discarded. */
  function Taken(r: Request, flushed: bool, render: Render): Request
    requires r.session.Some? && r.session.value != [] && |r.flushes| == |r.taken|
  {
    var taken, flushes := r.taken + [r.session.value[0]], r.flushes + [flushed || !r.streamed];
    var r1 := r.(taken := taken, flushes := flushes, session := Some(r.session.value[1..]));
    if Audits(r.streamed, taken, flushes, render) == [] then r1
    else Lost(r1.(session := None), r.session.value[1..])
  }

  /** handleChatCompletions after selection. A failed send stores no session. */
  function DispatchStep(s: State, id: Req, p: Pipe, body: seq<byte>, streamed: bool, sendOk: bool): State {
    if id in s.requests || !DispatchId(id) || !sendOk then s
    else s.(requests := s.requests[id := Request(p, streamed, Some([]), [], [], None, 0, [])],
            down := s.down[p := Queue(s.down, p) + [ParseEnvelope(EnvelopeBytes(Envelope(id, body)))]])
  }

  /** The worker's receive loop: anything but heartbeat traffic starts a job. */
  function StartStep(s: State, p: Pipe, engine: Proxied): State {
    if Queue(s.down, p) == [] then s
    else
      var s1 := s.(down := s.down[p := s.down[p][1..]]);
      match s.down[p][0]
      case Err(_) => s1
      case Ok(env) =>
        if env.reqID == HEARTBEAT_ACK_REQ_ID || env.reqID == HEARTBEAT_REQ_ID || env.reqID !in s.requests then s1
        else s1.(requests := s.requests[env.reqID := s.requests[env.reqID].(engine := Some(engine), sent := 0)])
  }

  /** One turn of a job: its next frame goes out, decodable as m. */
  function SendAs(s: State, id: Req, m: Message, sendOk: bool): State
    requires id in s.requests && Unsent(s.requests[id]) != []
  {
    var r := s.requests[id];
    var r1, f := r.(sent := r.sent + 1), Unsent(r)[0];
    if !sendOk then s.(requests := s.requests[id := Lost(r1, [f])])
    else
      s.(requests := s.requests[id := if m.FrameMessage? then r1 else Lost(r1, [f])],
         up := s.up[r.pipe := Queue(s.up, r.pipe) + [m]])
  }

  function SendStep(s: State, id: Req, sendOk: bool): State {
    if id !in s.requests || Unsent(s.requests[id]) == [] then s
    else SendAs(s, id, Unpack(Pack(id, Unsent(s.requests[id])[0])), sendOk)
  }

  function ReceiveStep(s: State, p: Pipe): State {
    if Queue(s.up, p) == [] then s
    else
      var m := s.up[p][0];
      var s1 := s.(up := s.up[p := Without(s.up[p], 0)]);
      if m.FrameMessage? && m.reqID in s.requests
      then s1.(requests := s.requests[m.reqID := Arrived(s.requests[m.reqID], m.frame)])
      else s1
  }

  function ConsumeStep(s: State, id: Req, flushed: bool, render: Render): State {
    if id !in s.requests || Buffer(s.requests[id]) == [] || |s.requests[id].flushes| != |s.requests[id].taken| then s
    else s.(requests := s.requests[id := Taken(s.requests[id], flushed, render)])
  }

  function LoseDownStep(s: State, p: Pipe, k: nat): State {
    if k >= |Queue(s.down, p)| then s else s.(down := s.down[p := Without(s.down[p], k)])
  }

  function LoseUpStep(s: State, p: Pipe, k: nat): State {
    if k >= |Queue(s.up, p)| then s
    else
      var m := s.up[p][k];
      var s1 := s.(up := s.up[p := Without(s.up[p], k)]);
      if m.FrameMessage? && m.reqID in s.requests
      then s1.(requests := s.requests[m.reqID := Lost(s.requests[m.reqID], [m.frame])])
      else s1
  }

  ghost function Step(s: State, ev: Event, render: Render): State {
    match ev
    case Dispatch(id, p, body, streamed, sendOk) => DispatchStep(s, id, p, body, streamed, sendOk)
    case StartJob(p, engine) => if Plausible(engine) then StartStep(s, p, engine) else s
    case SendFrame(id, sendOk) => SendStep(s, id, sendOk)
    case Receive(p) => ReceiveStep(s, p)
    case Consume(id, flushed) => ConsumeStep(s, id, flushed, render)
    case LoseDown(p, k) => LoseDownStep(s, p, k)
    case LoseUp(p, k) => LoseUpStep(s, p, k)
  }

  ghost function Run(run: seq<Event>, render: Render): State {
    if run == [] then INIT else Step(Run(run[..|run| - 1], render), run[|run| - 1], render)
  }

  // ---------- where a request's frames are ----------

  /** The frames of one message that belong to id: one or none. */
  function Own(m: Message, id: Req): seq<Frame> {
    if m.FrameMessage? && m.reqID == id then [m.frame] else []
  }

  /** The frames of id on their way in a pipe. */
  function InFlight(q: seq<Message>, id: Req): seq<Frame> {
    if q == [] then [] else Own(q[0], id) + InFlight(q[1..], id)
  }

  lemma {:induction false} InFlightAppend(a: seq<Message>, b: seq<Message>, id: Req)
    ensures InFlight(a + b, id) == InFlight(a, id) + InFlight(b, id)
  {
    if a == [] {
      assert a + b == b;
    } else {
      assert (a + b)[0] == a[0] && (a + b)[1..] == a[1..] + b;
      InFlightAppend(a[1..], b, id);
    }
  }

  lemma InFlightPush(q: seq<Message>, m: Message, id: Req)
    ensures InFlight(q + [m], id) == InFlight(q, id) + Own(m, id)
  {
    InFlightAppend(q, [m], id);
    assert InFlight([m], id) == Own(m, id) + InFlight([m][1..], id);
  }

  lemma InFlightWithout(q: seq<Message>, k: nat, id: Req)
    requires k < |q|
    ensures InFlight(q, id) == InFlight(q[..k], id) + Own(q[k], id) + InFlight(q[k + 1..], id)
    ensures InFlight(Without(q, k), id) == InFlight(q[..k], id) + InFlight(q[k + 1..], id)
  {
    assert q == q[..k] + q[k..] && q[k..][1..] == q[k + 1..];
    InFlightAppend(q[..k], q[k..], id);
    InFlightAppend(q[..k], q[k + 1..], id);
  }

  /** The lane of one request: all its job's frames, and where each is now. */
  datatype Lane = Lane(
    frames: seq<Frame>, taken: seq<Frame>, buffer: seq<Frame>, flying: seq<Frame>, unsent: seq<Frame>, lost: seq<Frame>)

  function LaneOf(s: State, id: Req): Lane
    requires id in s.requests
  {
    var r := s.requests[id];
    Lane(Frames(r), r.taken, Buffer(r), InFlight(Queue(s.up, r.pipe), id), Unsent(r), r.lost)
  }

  function Path(l: Lane): seq<Frame> {
    l.taken + l.buffer + l.flying + l.unsent
  }

  function Terminals(frames: seq<Frame>): nat {
    if frames == [] then 0 else (if IsTerminal(frames[0]) then 1 else 0) + Terminals(frames[1..])
  }

  lemma {:induction false} TerminalsAppend(a: seq<Frame>, b: seq<Frame>)
    ensures Terminals(a + b) == Terminals(a) + Terminals(b)
  {
    if a == [] {
      assert a + b == b;
    } else {
      assert (a + b)[0] == a[0] && (a + b)[1..] == a[1..] + b;
      TerminalsAppend(a[1..], b);
    }
  }

  /** Every frame of the job is on the path, in order, or lost, and so is its
      terminal frame. */
  ghost predicate Balanced(l: Lane) {
    && IsSubseq(Path(l), l.frames)
    && |Path(l)| + |l.lost| == |l.frames|
    && Terminals(Path(l)) + Terminals(l.lost) == Terminals(l.frames)
  }

  /** Frames leaving the middle of the path are accounted as losses. */
  lemma Rebalance(l: Lane, l': Lane, x: seq<Frame>, d: seq<Frame>, y: seq<Frame>)
    requires Balanced(l) && l'.frames == l.frames && l'.lost == l.lost + d
    requires Path(l) == x + d + y && Path(l') == x + y
    ensures Balanced(l')
  {
    SubseqCut(x, d, y);
    SubseqTrans(x + y, x + d + y, l.frames);
    TerminalsAppend(x + d, y);
    TerminalsAppend(x, d);
    TerminalsAppend(x, y);
    TerminalsAppend(l.lost, d);
  }

  lemma SamePath(l: Lane, l': Lane)
    requires Balanced(l) && l'.frames == l.frames && l'.lost == l.lost && Path(l') == Path(l)
    ensures Balanced(l')
  {
  }

  // ---------- the invariant ----------

  /** The writer is still at its loop exactly while the session is open, and it
      has processed every frame it took. */
  ghost predicate WriterSound(streamed: bool, taken: seq<Frame>, flushes: seq<bool>, open: bool, render: Render) {
    && |flushes| == |taken|
    && (!streamed ==> AllFlush(flushes))
    && (open <==> Audits(streamed, taken, flushes, render) == [])
    && Streamed(taken, flushes, render).used == |taken|
  }

  ghost predicate JobSound(r: Request) {
    r.sent <= |Frames(r)| && (r.engine.Some? ==> Plausible(r.engine.value))
  }

  ghost predicate Sound(r: Request, render: Render) {
    && JobSound(r)
    && |Buffer(r)| <= SESSION_BUFFER_SIZE
    && WriterSound(r.streamed, r.taken, r.flushes, r.session.Some?, render)
  }

  ghost predicate AllSound(s: State, render: Render) {
    forall id :: id in s.requests ==> DispatchId(id) && Sound(s.requests[id], render)
  }

  ghost predicate AllBalanced(s: State) {
    forall id :: id in s.requests ==> Balanced(LaneOf(s, id))
  }

  /** Frames in flight belong to known requests and to their pipe. */
  ghost predicate Addressed(s: State) {
    forall p: Pipe, i: nat :: i < |Queue(s.up, p)| ==> AddressedAt(s, p, Queue(s.up, p)[i])
  }

  ghost predicate AddressedAt(s: State, p: Pipe, m: Message) {
    m.FrameMessage? ==> m.reqID in s.requests && s.requests[m.reqID].pipe == p
  }

  /** How many dispatches of id wait in a pipe. */
  function Waiting(q: seq<Result<Envelope>>, id: Req): nat {
    if q == [] then 0 else (if q[0].Ok? && q[0].value.reqID == id then 1 else 0) + Waiting(q[1..], id)
  }

  /** A request is dispatched at most once, and its job has not started then. */
  ghost predicate OnceAt(s: State, p: Pipe, id: Req) {
    var n := Waiting(Queue(s.down, p), id);
    n <= 1 && (n == 1 ==> id in s.requests && s.requests[id].pipe == p && s.requests[id].engine.None?)
  }

  ghost predicate DispatchedOnce(s: State) {
    forall p: Pipe, id: Req :: OnceAt(s, p, id)
  }

  /** No frame is misplaced. */
  ghost predicate Routed(s: State) {
    AllBalanced(s) && Addressed(s) && DispatchedOnce(s)
  }

  ghost predicate Inv(s: State, render: Render) {
    AllSound(s, render) && Routed(s)
  }

  // ---------- the writers' bookkeeping ----------

  lemma NewIsSound(p: Pipe, streamed: bool, render: Render)
    ensures Sound(Request(p, streamed, Some([]), [], [], None, 0, []), render)
  {
  }

  /** Taking one more frame, whatever it does to the writer. */
  lemma WriterStep(streamed: bool, taken: seq<Frame>, flushes: seq<bool>, f: Frame, ok: bool, render: Render)
    requires WriterSound(streamed, taken, flushes, true, render) && (!streamed ==> ok)
    ensures var open := Audits(streamed, taken + [f], flushes + [ok], render) == [];
            WriterSound(streamed, taken + [f], flushes + [ok], open, render)
  {
    assert (taken + [f])[..|taken|] == taken && (flushes + [ok])[..|taken|] == flushes;
    if !streamed {
      WritersAgree(taken, flushes, render);
    }
  }

  lemma TakenIsSound(r: Request, flushed: bool, render: Render)
    requires Sound(r, render) && Buffer(r) != []
    ensures Sound(Taken(r, flushed, render), render)
  {
    WriterStep(r.streamed, r.taken, r.flushes, r.session.value[0], flushed || !r.streamed, render);
  }

  lemma ArrivedIsSound(r: Request, f: Frame, render: Render)
    requires Sound(r, render)
    ensures Sound(Arrived(r, f), render)
  {
  }

  lemma SentIsSound(r: Request, fs: seq<Frame>, render: Render)
    requires Sound(r, render) && Unsent(r) != []
    ensures Sound(r.(sent := r.sent + 1), render) && Sound(Lost(r.(sent := r.sent + 1), fs), render)
  {
  }

  lemma LostIsSound(r: Request, fs: seq<Frame>, render: Render)
    requires Sound(r, render)
    ensures Sound(Lost(r, fs), render)
  {
  }

  lemma StartedIsSound(r: Request, engine: Proxied, render: Render)
    requires Sound(r, render) && Plausible(engine)
    ensures Sound(r.(engine := Some(engine), sent := 0), render)
  {
  }

  /** Changing one request to another sound one. */
  lemma StillSound(s: State, s': State, id: Req, render: Render)
    requires AllSound(s, render) && DispatchId(id)
    requires id in s'.requests && Sound(s'.requests[id], render)
    requires forall i :: i in s'.requests && i != id ==> i in s.requests && s'.requests[i] == s.requests[i]
    ensures AllSound(s', render)
  {
  }

  // ---------- each step keeps the invariant ----------

  /** Changing at most request id, to a balanced lane; nobody else's frames in
      flight change. */
  lemma StillBalanced(s: State, s': State, id: Req)
    requires AllBalanced(s)
    requires id in s'.requests ==> Balanced(LaneOf(s', id))
    requires forall i :: i in s'.requests && i != id ==> i in s.requests && s'.requests[i] == s.requests[i]
    requires forall p: Pipe, i: Req :: i != id ==> InFlight(Queue(s'.up, p), i) == InFlight(Queue(s.up, p), i)
    ensures AllBalanced(s')
  {
    forall i | i in s'.requests && i != id ensures Balanced(LaneOf(s', i)) {
      assert LaneOf(s', i) == LaneOf(s, i);
    }
  }

  lemma {:induction false} WaitingAppend(a: seq<Result<Envelope>>, b: seq<Result<Envelope>>, id: Req)
    ensures Waiting(a + b, id) == Waiting(a, id) + Waiting(b, id)
  {
    if a == [] {
      assert a + b == b;
    } else {
      assert (a + b)[0] == a[0] && (a + b)[1..] == a[1..] + b;
      WaitingAppend(a[1..], b, id);
    }
  }

  /** Without touching the down pipes, pipes of requests or started jobs. */
  lemma StillOnce(s: State, s': State)
    requires DispatchedOnce(s) && s'.down == s.down
    requires forall id :: id in s.requests ==>
               id in s'.requests && s'.requests[id].pipe == s.requests[id].pipe && s'.requests[id].engine == s.requests[id].engine
    ensures DispatchedOnce(s')
  {
    forall p: Pipe, id: Req ensures OnceAt(s', p, id) {
      assert OnceAt(s, p, id);
    }
  }

  lemma {:induction false} NoneInFlight(q: seq<Message>, id: Req)
    requires forall i :: 0 <= i < |q| ==> Own(q[i], id) == []
    ensures InFlight(q, id) == []
  {
    if q != [] {
      NoneInFlight(q[1..], id);
    }
  }

  lemma UnknownIsNotInFlight(s: State, p: Pipe, id: Req)
    requires Addressed(s) && id !in s.requests
    ensures InFlight(Queue(s.up, p), id) == []
  {
    forall i | 0 <= i < |Queue(s.up, p)| ensures Own(Queue(s.up, p)[i], id) == [] {
      assert AddressedAt(s, p, Queue(s.up, p)[i]);
    }
    NoneInFlight(Queue(s.up, p), id);
  }

  lemma DispatchKeepsOnce(s: State, id: Req, p: Pipe, body: seq<byte>, streamed: bool, sendOk: bool)
    requires DispatchedOnce(s)
    ensures DispatchedOnce(DispatchStep(s, id, p, body, streamed, sendOk))
  {
    var s' := DispatchStep(s, id, p, body, streamed, sendOk);
    if s' != s {
      EnvelopeRoundTrip(Envelope(id, body));
      var m := [Ok(Envelope(id, body))];
      forall q: Pipe, i: Req ensures OnceAt(s', q, i) {
        assert OnceAt(s, q, i);
        if q == p {
          WaitingAppend(Queue(s.down, p), m, i);
          assert Waiting(m, i) == (if i == id then 1 else 0) + Waiting(m[1..], i);
        }
      }
    }
  }

  lemma DispatchRoutes(s: State, id: Req, p: Pipe, body: seq<byte>, streamed: bool, sendOk: bool)
    requires Routed(s)
    ensures Routed(DispatchStep(s, id, p, body, streamed, sendOk))
  {
    var s' := DispatchStep(s, id, p, body, streamed, sendOk);
    DispatchKeepsOnce(s, id, p, body, streamed, sendOk);
    if s' != s {
      UnknownIsNotInFlight(s, p, id);
      assert Path(LaneOf(s', id)) == [];
      StillBalanced(s, s', id);
      StillAddressed(s, s');
    }
  }

  lemma DispatchKeeps(s: State, id: Req, p: Pipe, body: seq<byte>, streamed: bool, sendOk: bool, render: Render)
    requires Inv(s, render)
    ensures Inv(DispatchStep(s, id, p, body, streamed, sendOk), render)
  {
    var s' := DispatchStep(s, id, p, body, streamed, sendOk);
    DispatchRoutes(s, id, p, body, streamed, sendOk);
    if s' != s {
      NewIsSound(p, streamed, render);
      StillSound(s, s', id, render);
    }
  }

  lemma StartKeepsOnce(s: State, p: Pipe, engine: Proxied)
    requires DispatchedOnce(s)
    ensures DispatchedOnce(StartStep(s, p, engine))
  {
    var s' := StartStep(s, p, engine);
    forall p': Pipe, i: Req ensures OnceAt(s', p', i) {
      assert OnceAt(s, p', i) && OnceAt(s, p, i);
    }
  }

  /** Nothing of a request exists before its job starts. */
  lemma StartedIsBalanced(l: Lane, l': Lane)
    requires Balanced(l) && l.frames == []
    requires l' == l.(frames := l'.frames, unsent := l'.frames)
    ensures Balanced(l')
  {
    assert |Path(l)| == 0;
    assert l.taken == [] && l.buffer == [] && l.flying == [];
    assert Path(l') == l'.frames;
    SubseqRefl(l'.frames);
  }

  lemma StillAddressed(s: State, s': State)
    requires Addressed(s) && s'.up == s.up
    requires forall i :: i in s.requests ==> i in s'.requests && s'.requests[i].pipe == s.requests[i].pipe
    ensures Addressed(s')
  {
    forall p: Pipe, i: nat | i < |Queue(s'.up, p)| ensures AddressedAt(s', p, Queue(s'.up, p)[i]) {
      assert AddressedAt(s, p, Queue(s.up, p)[i]);
    }
  }

  /** Steps that only move dispatches. */
  lemma OnlyDownChanges(s: State, s': State)
    requires AllBalanced(s) && Addressed(s) && s'.requests == s.requests && s'.up == s.up
    ensures AllBalanced(s') && Addressed(s')
  {
    forall id | id in s'.requests ensures Balanced(LaneOf(s', id)) {
      assert LaneOf(s', id) == LaneOf(s, id);
    }
    StillAddressed(s, s');
  }

  /** One request changes, keeping its pipe; the pipes to the router do not. */
  lemma OnlyOneChanges(s: State, s': State, id: Req)
    requires AllBalanced(s) && Addressed(s) && s'.up == s.up && id in s.requests && id in s'.requests
    requires s'.requests == s.requests[id := s'.requests[id]] && s'.requests[id].pipe == s.requests[id].pipe
    requires Balanced(LaneOf(s', id))
    ensures AllBalanced(s') && Addressed(s')
  {
    StillBalanced(s, s', id);
    StillAddressed(s, s');
  }

  lemma StartIsSound(s: State, p: Pipe, engine: Proxied, render: Render)
    requires AllSound(s, render) && Plausible(engine)
    ensures AllSound(StartStep(s, p, engine), render)
  {
    var q, s' := Queue(s.down, p), StartStep(s, p, engine);
    if s'.requests != s.requests {
      var id := q[0].value.reqID;
      StartedIsSound(s.requests[id], engine, render);
      StillSound(s, s', id, render);
    }
  }

  /** The job of id starts: none of its frames existed, all are to be sent. */
  lemma StartedRoutes(s: State, s': State, id: Req, engine: Proxied)
    requires AllBalanced(s) && Addressed(s) && id in s.requests && s.requests[id].engine.None?
    requires s'.up == s.up && s'.requests == s.requests[id := s.requests[id].(engine := Some(engine), sent := 0)]
    ensures AllBalanced(s') && Addressed(s')
  {
    assert Balanced(LaneOf(s, id));
    StartedIsBalanced(LaneOf(s, id), LaneOf(s', id));
    OnlyOneChanges(s, s', id);
  }

  lemma StartRoutes(s: State, p: Pipe, engine: Proxied)
    requires Routed(s)
    ensures Routed(StartStep(s, p, engine))
  {
    var q, s' := Queue(s.down, p), StartStep(s, p, engine);
    StartKeepsOnce(s, p, engine);
    if s'.requests == s.requests {
      OnlyDownChanges(s, s');
    } else {
      var id := q[0].value.reqID;
      assert OnceAt(s, p, id);
      StartedRoutes(s, s', id, engine);
    }
  }

  lemma StartKeeps(s: State, p: Pipe, engine: Proxied, render: Render)
    requires Inv(s, render) && Plausible(engine)
    ensures Inv(StartStep(s, p, engine), render)
  {
    StartIsSound(s, p, engine, render);
    StartRoutes(s, p, engine);
  }

  lemma LoseDownKeeps(s: State, p: Pipe, k: nat, render: Render)
    requires Inv(s, render)
    ensures Inv(LoseDownStep(s, p, k), render)
  {
    var q, s' := Queue(s.down, p), LoseDownStep(s, p, k);
    OnlyDownChanges(s, s');
    if k < |q| {
      forall p': Pipe, i: Req ensures OnceAt(s', p', i) {
        assert OnceAt(s, p', i);
        assert q == q[..k] + q[k..] && q[k..][1..] == q[k + 1..];
        WaitingAppend(q[..k], q[k..], i);
        WaitingAppend(q[..k], q[k + 1..], i);
      }
    }
  }

  lemma TakenShape(r: Request, flushed: bool, render: Render)
    requires r.session.Some? && r.session.value != [] && |r.flushes| == |r.taken|
    ensures TakenFrom(r, Taken(r, flushed, render))
  {
  }

  /** What taking a frame does to a request, apart from the status. */
  ghost predicate TakenFrom(r: Request, r': Request) {
    && Buffer(r) != [] && r'.taken == r.taken + [Buffer(r)[0]]
    && r'.pipe == r.pipe && r'.engine == r.engine && r'.sent == r.sent
    && (|| (Buffer(r') == Buffer(r)[1..] && r'.lost == r.lost)
        || (Buffer(r') == [] && r'.lost == r.lost + Buffer(r)[1..]))
  }

  lemma TakingRoutes(s: State, s': State, id: Req)
    requires Routed(s) && id in s.requests && id in s'.requests
    requires s'.up == s.up && s'.down == s.down && s'.requests == s.requests[id := s'.requests[id]]
    requires TakenFrom(s.requests[id], s'.requests[id])
    ensures Routed(s')
  {
    TakenIsBalanced(LaneOf(s, id), LaneOf(s', id));
    OnlyOneChanges(s, s', id);
    StillOnce(s, s');
  }

  lemma ConsumeRoutes(s: State, id: Req, flushed: bool, render: Render)
    requires Routed(s)
    ensures Routed(ConsumeStep(s, id, flushed, render))
  {
    var s' := ConsumeStep(s, id, flushed, render);
    if s' != s {
      TakenShape(s.requests[id], flushed, render);
      TakingRoutes(s, s', id);
    }
  }

  lemma ConsumeIsSound(s: State, id: Req, flushed: bool, render: Render)
    requires AllSound(s, render)
    ensures AllSound(ConsumeStep(s, id, flushed, render), render)
  {
    if id in s.requests && Buffer(s.requests[id]) != [] {
      TakenIsSound(s.requests[id], flushed, render);
      StillSound(s, ConsumeStep(s, id, flushed, render), id, render);
    }
  }

  lemma ConsumeKeeps(s: State, id: Req, flushed: bool, render: Render)
    requires Inv(s, render)
    ensures Inv(ConsumeStep(s, id, flushed, render), render)
  {
    ConsumeRoutes(s, id, flushed, render);
    ConsumeIsSound(s, id, flushed, render);
  }

  /** The head of the buffer was taken; the rest stays, or is discarded when the
      writer returns. */
  lemma TakenIsBalanced(l: Lane, l': Lane)
    requires Balanced(l) && l.buffer != []
    requires || l' == l.(taken := l.taken + [l.buffer[0]], buffer := l.buffer[1..])
             || l' == l.(taken := l.taken + [l.buffer[0]], buffer := [], lost := l.lost + l.buffer[1..])
    ensures Balanced(l')
  {
    var x, d, y := l.taken + [l.buffer[0]], l.buffer[1..], l.flying + l.unsent;
    assert l.buffer == [l.buffer[0]] + d;
    assert Path(l) == x + d + y;
    if l'.lost == l.lost {
      assert Path(l') == x + l'.buffer + y == x + d + y;
      SamePath(l, l');
    } else {
      assert Path(l') == x + y;
      Rebalance(l, l', x, d, y);
    }
  }

  /** The frame joins those in flight, or is counted as lost. */
  lemma SentIsBalanced(l: Lane, l': Lane)
    requires Balanced(l) && l.unsent != []
    requires || l' == l.(flying := l.flying + [l.unsent[0]], unsent := l.unsent[1..])
             || l' == l.(unsent := l.unsent[1..], lost := l.lost + [l.unsent[0]])
    ensures Balanced(l')
  {
    var x, f, y := l.taken + l.buffer + l.flying, [l.unsent[0]], l.unsent[1..];
    assert l.unsent == f + y;
    assert Path(l) == x + f + y;
    if l'.lost == l.lost {
      assert Path(l') == l.taken + l.buffer + (l.flying + f) + y == x + f + y;
      SamePath(l, l');
    } else {
      Rebalance(l, l', x, f, y);
    }
  }

  /** A job's frame as the router will see it: itself, or nothing at all when it
      is over the payload limit. */
  lemma SentMessage(id: Req, f: Frame)
    requires DispatchId(id) && |f.payload| < TWO_32
    ensures Carries(Unpack(Pack(id, f)), id, f)
  {
    UnpackPack(id, f);
  }

  ghost predicate Carries(m: Message, id: Req, f: Frame) {
    m.FrameMessage? ==> m.reqID == id && m.frame == f
  }

  lemma PushAddressed(s: State, s': State, p: Pipe, m: Message)
    requires Addressed(s) && s'.up == s.up[p := Queue(s.up, p) + [m]] && AddressedAt(s', p, m)
    requires forall i :: i in s.requests ==> i in s'.requests && s'.requests[i].pipe == s.requests[i].pipe
    ensures Addressed(s')
  {
    forall p': Pipe, i: nat | i < |Queue(s'.up, p')| ensures AddressedAt(s', p', Queue(s'.up, p')[i]) {
      if i < |Queue(s.up, p')| {
        assert AddressedAt(s, p', Queue(s.up, p')[i]);
      }
    }
  }

  /** A message of request id enters a pipe: what others have in flight stays. */
  lemma PushOthers(up: map<Pipe, seq<Message>>, p: Pipe, id: Req, m: Message)
    requires m.FrameMessage? ==> m.reqID == id
    ensures forall p': Pipe, i: Req :: i != id ==>
              InFlight(Queue(up[p := Queue(up, p) + [m]], p'), i) == InFlight(Queue(up, p'), i)
  {
    forall i: Req | i != id ensures InFlight(Queue(up, p) + [m], i) == InFlight(Queue(up, p), i) {
      InFlightPush(Queue(up, p), m, i);
    }
  }

  lemma PushBalanced(s: State, s': State, p: Pipe, id: Req, m: Message)
    requires AllBalanced(s) && id in s.requests && id in s'.requests
    requires s'.up == s.up[p := Queue(s.up, p) + [m]] && s'.requests == s.requests[id := s'.requests[id]]
    requires (m.FrameMessage? ==> m.reqID == id) && Balanced(LaneOf(s', id))
    ensures AllBalanced(s')
  {
    PushOthers(s.up, p, id, m);
    StillBalanced(s, s', id);
  }

  /** The sender's own lane after the step. */
  lemma SendLane(s: State, id: Req, m: Message, sendOk: bool)
    requires id in s.requests && JobSound(s.requests[id]) && Unsent(s.requests[id]) != []
    requires Carries(m, id, Unsent(s.requests[id])[0])
    ensures var l, l' := LaneOf(s, id), LaneOf(SendAs(s, id, m, sendOk), id);
            l' == if sendOk && m.FrameMessage? then l.(flying := l.flying + [l.unsent[0]], unsent := l.unsent[1..])
                  else l.(unsent := l.unsent[1..], lost := l.lost + [l.unsent[0]])
  {
    var r, s' := s.requests[id], SendAs(s, id, m, sendOk);
    var r', q := s'.requests[id], Queue(s.up, r.pipe);
    assert Frames(r') == Frames(r) && Frames(r)[r.sent + 1..] == Unsent(r)[1..];
    assert Unsent(r') == Unsent(r)[1..];
    assert InFlight(Queue(s'.up, r.pipe), id)
           == if sendOk && m.FrameMessage? then InFlight(q, id) + [m.frame] else InFlight(q, id)
    by {
      InFlightPush(q, m, id);
      assert InFlight(q, id) + [] == InFlight(q, id);
    }
  }

  /** The frame went out: it is in the pipe now, if it decodes. */
  lemma SentRoutes(s: State, id: Req, m: Message)
    requires AllBalanced(s) && Addressed(s)
    requires id in s.requests && JobSound(s.requests[id]) && Unsent(s.requests[id]) != []
    requires Carries(m, id, Unsent(s.requests[id])[0])
    ensures var s' := SendAs(s, id, m, true); AllBalanced(s') && Addressed(s')
  {
    var s', p := SendAs(s, id, m, true), s.requests[id].pipe;
    SentLaneBalanced(s, id, m);
    PushBalanced(s, s', p, id, m);
    PushAddressed(s, s', p, m);
  }

  lemma SentLaneBalanced(s: State, id: Req, m: Message)
    requires id in s.requests && Balanced(LaneOf(s, id)) && JobSound(s.requests[id]) && Unsent(s.requests[id]) != []
    requires Carries(m, id, Unsent(s.requests[id])[0])
    ensures Balanced(LaneOf(SendAs(s, id, m, true), id))
  {
    SendLane(s, id, m, true);
    SentIsBalanced(LaneOf(s, id), LaneOf(SendAs(s, id, m, true), id));
  }

  /** The send failed: the pipes are as they were. */
  lemma UnsentRoutes(s: State, id: Req, m: Message)
    requires AllBalanced(s) && Addressed(s)
    requires id in s.requests && JobSound(s.requests[id]) && Unsent(s.requests[id]) != []
    requires Carries(m, id, Unsent(s.requests[id])[0])
    ensures var s' := SendAs(s, id, m, false); AllBalanced(s') && Addressed(s')
  {
    var s' := SendAs(s, id, m, false);
    SendLane(s, id, m, false);
    SentIsBalanced(LaneOf(s, id), LaneOf(s', id));
    OnlyOneChanges(s, s', id);
  }

  lemma SendRoutes(s: State, id: Req, m: Message, sendOk: bool)
    requires Routed(s)
    requires id in s.requests && JobSound(s.requests[id]) && Unsent(s.requests[id]) != []
    requires Carries(m, id, Unsent(s.requests[id])[0])
    ensures Routed(SendAs(s, id, m, sendOk))
  {
    StillOnce(s, SendAs(s, id, m, sendOk));
    if sendOk {
      SentRoutes(s, id, m);
    } else {
      UnsentRoutes(s, id, m);
    }
  }

  lemma NextFrameFits(r: Request)
    requires JobSound(r) && Unsent(r) != []
    ensures |Unsent(r)[0].payload| < TWO_32
  {
    assert Unsent(r)[0] == Frames(r)[r.sent];
  }

  lemma SendIsSound(s: State, id: Req, m: Message, sendOk: bool, render: Render)
    requires AllSound(s, render) && id in s.requests && Unsent(s.requests[id]) != []
    ensures AllSound(SendAs(s, id, m, sendOk), render)
  {
    SentIsSound(s.requests[id], [Unsent(s.requests[id])[0]], render);
    StillSound(s, SendAs(s, id, m, sendOk), id, render);
  }

  lemma SendAsKeeps(s: State, id: Req, m: Message, sendOk: bool, render: Render)
    requires Inv(s, render) && id in s.requests && Unsent(s.requests[id]) != []
    requires Carries(m, id, Unsent(s.requests[id])[0])
    ensures Inv(SendAs(s, id, m, sendOk), render)
  {
    SendRoutes(s, id, m, sendOk);
    SendIsSound(s, id, m, sendOk, render);
  }

  lemma SendKeeps(s: State, id: Req, sendOk: bool, render: Render)
    requires Inv(s, render)
    ensures Inv(SendStep(s, id, sendOk), render)
  {
    if id in s.requests && Unsent(s.requests[id]) != [] {
      var f := Unsent(s.requests[id])[0];
      NextFrameFits(s.requests[id]);
      SentMessage(id, f);
      SendAsKeeps(s, id, Unpack(Pack(id, f)), sendOk, render);
    }
  }

  /** Message k of request id leaves a pipe: what others have in flight stays. */
  lemma RemovalOthers(up: map<Pipe, seq<Message>>, p: Pipe, k: nat, id: Req)
    requires k < |Queue(up, p)|
    requires var m := Queue(up, p)[k]; m.FrameMessage? ==> m.reqID == id
    ensures forall p': Pipe, i: Req :: i != id ==>
              InFlight(Queue(up[p := Without(Queue(up, p), k)], p'), i) == InFlight(Queue(up, p'), i)
  {
    var q := Queue(up, p);
    forall i: Req | i != id ensures InFlight(Without(q, k), i) == InFlight(q, i) {
      InFlightWithout(q, k, i);
      assert InFlight(q[..k], i) + [] == InFlight(q[..k], i);
    }
  }

  /** Message k leaves a pipe; its owner's lane is given. */
  lemma RemovalBalanced(s: State, s': State, p: Pipe, k: nat, id: Req)
    requires AllBalanced(s) && k < |Queue(s.up, p)| && s'.up == s.up[p := Without(Queue(s.up, p), k)]
    requires id in s'.requests ==> Balanced(LaneOf(s', id))
    requires forall i :: i in s'.requests && i != id ==> i in s.requests && s'.requests[i] == s.requests[i]
    requires var m := Queue(s.up, p)[k]; m.FrameMessage? ==> m.reqID == id
    ensures AllBalanced(s')
  {
    RemovalOthers(s.up, p, k, id);
    StillBalanced(s, s', id);
  }

  lemma RemovalAddressed(s: State, s': State, p: Pipe, k: nat)
    requires Addressed(s) && k < |Queue(s.up, p)| && s'.up == s.up[p := Without(Queue(s.up, p), k)]
    requires forall i :: i in s.requests ==> i in s'.requests && s'.requests[i].pipe == s.requests[i].pipe
    ensures Addressed(s')
  {
    var q := Queue(s.up, p);
    forall p': Pipe, i: nat | i < |Queue(s'.up, p')| ensures AddressedAt(s', p', Queue(s'.up, p')[i]) {
      if p' == p {
        assert AddressedAt(s, p, q[if i < k then i else i + 1]);
      } else {
        assert AddressedAt(s, p', Queue(s.up, p')[i]);
      }
    }
  }

  /** A frame leaves the pipe: into the buffer if it was the first, or lost. */
  lemma DepartedIsBalanced(l: Lane, l': Lane, a: seq<Frame>, f: Frame, b: seq<Frame>)
    requires Balanced(l) && l.flying == a + [f] + b
    requires || (a == [] && l' == l.(buffer := l.buffer + [f], flying := b))
             || l' == l.(flying := a + b, lost := l.lost + [f])
    ensures Balanced(l')
  {
    var x, y := l.taken + l.buffer + a, b + l.unsent;
    assert Path(l) == x + [f] + y;
    if l'.lost == l.lost {
      assert Path(l') == l.taken + (l.buffer + [f]) + b + l.unsent == x + [f] + y;
      SamePath(l, l');
    } else {
      assert Path(l') == x + y;
      Rebalance(l, l', x, [f], y);
    }
  }

  /** Message k of a pipe is removed, and its owner, if it has one, becomes r'. */
  function RemoveAs(s: State, p: Pipe, k: nat, r': Request): State
    requires k < |Queue(s.up, p)|
  {
    var m := s.up[p][k];
    s.(up := s.up[p := Without(s.up[p], k)],
       requests := if m.FrameMessage? && m.reqID in s.requests then s.requests[m.reqID := r'] else s.requests)
  }

  /** The owner's lane after the removal. */
  lemma RemovedLane(s: State, p: Pipe, k: nat, r': Request, id: Req)
    requires k < |Queue(s.up, p)| && id in s.requests && s.requests[id].pipe == p && r'.pipe == p
    requires s.up[p][k].FrameMessage? && s.up[p][k].reqID == id
    ensures var q := s.up[p];
            && LaneOf(s, id).flying == InFlight(q[..k], id) + [q[k].frame] + InFlight(q[k + 1..], id)
            && LaneOf(RemoveAs(s, p, k, r'), id)
               == Lane(Frames(r'), r'.taken, Buffer(r'), InFlight(q[..k], id) + InFlight(q[k + 1..], id), Unsent(r'), r'.lost)
  {
    InFlightWithout(s.up[p], k, id);
  }

  lemma RemoveLane(s: State, p: Pipe, k: nat, r': Request, id: Req)
    requires AllBalanced(s) && k < |Queue(s.up, p)| && id in s.requests && s.requests[id].pipe == p
    requires s.up[p][k].FrameMessage? && s.up[p][k].reqID == id
    requires || r' == Lost(s.requests[id], [s.up[p][k].frame])
             || (k == 0 && s.requests[id].session.Some?
                 && r' == s.requests[id].(session := Some(s.requests[id].session.value + [s.up[p][k].frame])))
    ensures Balanced(LaneOf(RemoveAs(s, p, k, r'), id))
  {
    var q := s.up[p];
    var a, b := InFlight(q[..k], id), InFlight(q[k + 1..], id);
    RemovedLane(s, p, k, r', id);
    assert k == 0 ==> a == [] && a + b == b;
    DepartedIsBalanced(LaneOf(s, id), LaneOf(RemoveAs(s, p, k, r'), id), a, q[k].frame, b);
  }

  /** Losing any message, or receiving the first, with its owner's change. */
  lemma RemoveRoutes(s: State, p: Pipe, k: nat, r': Request)
    requires Routed(s) && k < |Queue(s.up, p)|
    requires var m := s.up[p][k];
             m.FrameMessage? && m.reqID in s.requests ==>
               var r := s.requests[m.reqID];
               || r' == Lost(r, [m.frame])
               || (k == 0 && r.session.Some? && r' == r.(session := Some(r.session.value + [m.frame])))
    ensures Routed(RemoveAs(s, p, k, r'))
  {
    var s', m := RemoveAs(s, p, k, r'), s.up[p][k];
    assert AddressedAt(s, p, Queue(s.up, p)[k]);
    StillOnce(s, s');
    RemovalAddressed(s, s', p, k);
    if m.FrameMessage? {
      RemoveLane(s, p, k, r', m.reqID);
      RemovalBalanced(s, s', p, k, m.reqID);
    } else {
      RemovalOfNothing(s, s', p, k);
    }
  }

  lemma RemoveIsSound(s: State, p: Pipe, k: nat, r': Request, render: Render)
    requires AllSound(s, render) && k < |Queue(s.up, p)|
    requires var m := s.up[p][k]; m.FrameMessage? && m.reqID in s.requests ==> Sound(r', render)
    ensures AllSound(RemoveAs(s, p, k, r'), render)
  {
    var m := s.up[p][k];
    if m.FrameMessage? && m.reqID in s.requests {
      StillSound(s, RemoveAs(s, p, k, r'), m.reqID, render);
    }
  }

  lemma RemovalOfNothing(s: State, s': State, p: Pipe, k: nat)
    requires AllBalanced(s) && k < |Queue(s.up, p)| && s'.up == s.up[p := Without(Queue(s.up, p), k)]
    requires !Queue(s.up, p)[k].FrameMessage? && s'.requests == s.requests
    ensures AllBalanced(s')
  {
    forall id | id in s'.requests ensures Balanced(LaneOf(s', id)) {
      InFlightWithout(Queue(s.up, p), k, id);
      assert InFlight(Queue(s.up, p)[..k], id) + [] == InFlight(Queue(s.up, p)[..k], id);
      assert LaneOf(s', id) == LaneOf(s, id);
    }
  }

  lemma ReceiveKeeps(s: State, p: Pipe, render: Render)
    requires Inv(s, render)
    ensures Inv(ReceiveStep(s, p), render)
  {
    if Queue(s.up, p) != [] {
      var m := s.up[p][0];
      var r' := Request(p, true, None, [], [], None, 0, []);
      if m.FrameMessage? && m.reqID in s.requests {
        ArrivedIsSound(s.requests[m.reqID], m.frame, render);
        r' := Arrived(s.requests[m.reqID], m.frame);
      }
      RemoveRoutes(s, p, 0, r');
      RemoveIsSound(s, p, 0, r', render);
    }
  }

  lemma LoseUpKeeps(s: State, p: Pipe, k: nat, render: Render)
    requires Inv(s, render)
    ensures Inv(LoseUpStep(s, p, k), render)
  {
    if k < |Queue(s.up, p)| {
      var m := s.up[p][k];
      var r' := Request(p, true, None, [], [], None, 0, []);
      if m.FrameMessage? && m.reqID in s.requests {
        LostIsSound(s.requests[m.reqID], [m.frame], render);
        r' := Lost(s.requests[m.reqID], [m.frame]);
      }
      RemoveRoutes(s, p, k, r');
      RemoveIsSound(s, p, k, r', render);
    }
  }

  lemma {:induction false} Reachable(run: seq<Event>, render: Render)
    ensures Inv(Run(run, render), render)
  {
    if run != [] {
      Reachable(run[..|run| - 1], render);
      StepKeeps(Run(run[..|run| - 1], render), run[|run| - 1], render);
    }
  }

  lemma StepKeeps(s: State, ev: Event, render: Render)
    requires Inv(s, render)
    ensures Inv(Step(s, ev, render), render)
  {
    match ev
    case Dispatch(id, p, body, streamed, sendOk) => DispatchKeeps(s, id, p, body, streamed, sendOk, render);
    case StartJob(p, engine) => if Plausible(engine) { StartKeeps(s, p, engine, render); }
    case SendFrame(id, sendOk) => SendKeeps(s, id, sendOk, render);
    case Receive(p) => ReceiveKeeps(s, p, render);
    case Consume(id, flushed) => ConsumeKeeps(s, id, flushed, render);
    case LoseDown(p, k) => LoseDownKeeps(s, p, k, render);
    case LoseUp(p, k) => LoseUpKeeps(s, p, k, render);
  }

  // ---------- what holds in every reachable state ----------

  /** Without losses nothing is missing from the path. */
  lemma LosslessPath(l: Lane)
    requires Balanced(l) && l.lost == []
    ensures Path(l) == l.frames
  {
    SubseqLength(Path(l), l.frames);
  }

  lemma PathBytes(l: Lane)
    ensures ChunkBytes(Path(l)) == ChunkBytes(l.taken) + ChunkBytes(l.buffer) + ChunkBytes(l.flying) + ChunkBytes(l.unsent)
  {
    ChunkBytesAppend(l.taken, l.buffer);
    ChunkBytesAppend(l.taken + l.buffer, l.flying);
    ChunkBytesAppend(l.taken + l.buffer + l.flying, l.unsent);
  }

  /** The bytes a writer has written to its client, or collected for it. */
  function Held(r: Request, render: Render): seq<byte>
    requires |r.flushes| == |r.taken|
  {
    if r.streamed then Streamed(r.taken, r.flushes, render).out else BufferedAll(r.taken, render).buf
  }

  lemma HeldIsTaken(r: Request, render: Render)
    requires Sound(r, render)
    ensures Held(r, render) == ChunkBytes(r.taken) + if r.streamed then ErrorText(r.taken, render) else []
    ensures r.session.Some? ==> Held(r, render) == ChunkBytes(r.taken)
  {
    if r.streamed {
      StreamedBytes(r.taken, r.flushes, render);
      if r.session.Some? {
        WaitingStream(r.taken, r.flushes, render);
      }
    } else {
      WritersAgree(r.taken, r.flushes, render);
      BufferedBytes(r.taken, r.flushes, render);
    }
  }

  /** Conservation, for every interleaving of any number of sessions: as long as
      no frame of a request was lost or dropped, the bytes its writer has taken,
      those buffered, those in flight and those not yet sent are, in this order,
      exactly its engine's body; and until it returns, what the writer holds are
      the bytes taken. */
  lemma Conservation(run: seq<Event>, render: Render, id: Req)
    requires var s := Run(run, render);
             id in s.requests && s.requests[id].engine.Some? && s.requests[id].lost == []
    ensures var s := Run(run, render);
            var l, r := LaneOf(s, id), s.requests[id];
            && ChunkBytes(l.taken) + ChunkBytes(l.buffer) + ChunkBytes(l.flying) + ChunkBytes(l.unsent)
               == EngineBytes(r.engine.value)
            && |r.flushes| == |r.taken|
            && (r.session.Some? ==> Held(r, render) == ChunkBytes(l.taken))
  {
    Reachable(run, render);
    var s := Run(run, render);
    LosslessPath(LaneOf(s, id));
    PathBytes(LaneOf(s, id));
    JobFramesAreTheBody(s.requests[id].engine.value);
    HeldIsTaken(s.requests[id], render);
  }

  /** Losses or not, what a writer takes is a subsequence of the whole frames of
      its own job, and what it holds are the chunks of exactly these frames, with
      the error event of a failed stream after them: no byte of another request,
      no torn chunk. */
  lemma NonInterference(run: seq<Event>, render: Render, id: Req)
    requires id in Run(run, render).requests
    ensures var r := Run(run, render).requests[id];
            && IsSubseq(r.taken, Frames(r)) && |Buffer(r)| <= 256
            && |r.flushes| == |r.taken|
            && Held(r, render) == ChunkBytes(r.taken) + if r.streamed then ErrorText(r.taken, render) else []
  {
    Reachable(run, render);
    var s := Run(run, render);
    TakenIsOwn(LaneOf(s, id));
    HeldIsTaken(s.requests[id], render);
  }

  lemma TakenIsOwn(l: Lane)
    requires Balanced(l)
    ensures IsSubseq(l.taken, l.frames)
  {
    var rest := l.buffer + l.flying + l.unsent;
    SubseqCut(l.taken, rest, []);
    assert l.taken + [] == l.taken && l.taken + rest + [] == Path(l);
    SubseqTrans(l.taken, Path(l), l.frames);
  }

  /** The body the client has received from its writer. */
  function Delivered(r: Request, render: Render): seq<byte>
    requires |r.flushes| == |r.taken|
  {
    if r.streamed then Streamed(r.taken, r.flushes, render).out
    else match BufferedAll(r.taken, render).response
         case Some(response) => response.body
         case None => []
  }

  /** What a sound writer with status 200 has done. */
  lemma SuccessfulWriter(r: Request, render: Render)
    requires Sound(r, render) && Audits(r.streamed, r.taken, r.flushes, render) == [STATUS_OK]
    ensures r.taken != [] && r.taken[|r.taken| - 1].ftype == FRAME_EOF
    ensures Delivered(r, render) == ChunkBytes(r.taken)
  {
    if !r.streamed {
      WritersAgree(r.taken, r.flushes, render);
    }
    StoppedStream(r.taken, r.flushes, render);
    assert r.taken[..|r.taken|] == r.taken;
  }

  lemma OneStatus(r: Request, render: Render)
    requires Sound(r, render)
    ensures |Audits(r.streamed, r.taken, r.flushes, render)| <= 1
  {
    if r.streamed && r.session.None? {
      StoppedStream(r.taken, r.flushes, render);
    } else if !r.streamed {
      WritersAgree(r.taken, r.flushes, render);
    }
  }

  function Chunks(frames: seq<Frame>): nat {
    if frames == [] then 0 else (if frames[0].ftype == FRAME_CHUNK then 1 else 0) + Chunks(frames[1..])
  }

  /** Deleting non-empty chunks shortens the bytes by at least as many. */
  lemma {:induction false} DeletionShortens(a: seq<Frame>, b: seq<Frame>)
    requires IsSubseq(a, b)
    requires forall i :: 0 <= i < |b| && b[i].ftype == FRAME_CHUNK ==> b[i].payload != []
    ensures |ChunkBytes(a)| + Chunks(b) <= |ChunkBytes(b)| + Chunks(a)
    decreases |b|
  {
    if b != [] {
      assert forall i :: 0 <= i < |b[1..]| ==> b[1..][i] == b[i + 1];
      if a != [] && a[0] == b[0] && IsSubseq(a[1..], b[1..]) {
        DeletionShortens(a[1..], b[1..]);
      } else {
        DeletionShortens(a, b[1..]);
      }
    }
  }

  lemma {:induction false} ChunksOfEnded(frames: seq<Frame>)
    requires frames != [] && frames[|frames| - 1].ftype == FRAME_EOF
    ensures Chunks(frames) <= |frames| - 1
    ensures (forall i :: 0 <= i < |frames| - 1 ==> frames[i].ftype == FRAME_CHUNK) ==> Chunks(frames) == |frames| - 1
  {
    if |frames| > 1 {
      ChunksOfEnded(frames[1..]);
    }
  }

  /** Two ended frame lists: the shorter one carries fewer bytes. */
  lemma EndedSubseqBytes(taken: seq<Frame>, p: Proxied)
    requires FitsBuffer(p) && IsSubseq(taken, JobFrames(p))
    requires taken != [] && taken[|taken| - 1].ftype == FRAME_EOF
    ensures EngineEnd(p) == EndOfFile
    ensures ChunkBytes(taken) == EngineBytes(p) <==> taken == JobFrames(p)
  {
    var frames, last := JobFrames(p), taken[|taken| - 1];
    SubseqMember(taken, frames, last);
    EofMeansCleanEnd(p, last);
    JobFramesAreTheBody(p);
    SubseqLength(taken, frames);
    DeletionShortens(taken, frames);
    ChunksOfEnded(taken);
    ChunksOfEnded(frames);
  }

  /** In a subsequence of frames that end with their only terminal frame, a
      terminal frame is last. */
  lemma {:induction false} TerminalIsLast(q: seq<Frame>, frames: seq<Frame>, j: nat)
    requires IsSubseq(q, frames) && j < |q| && IsTerminal(q[j])
    requires forall i :: 0 <= i < |frames| - 1 ==> !IsTerminal(frames[i])
    ensures j == |q| - 1
    decreases |frames|
  {
    if q[0] == frames[0] && IsSubseq(q[1..], frames[1..]) {
      if j > 0 {
        TerminalIsLast(q[1..], frames[1..], j - 1);
      } else {
        SubseqLength(q[1..], frames[1..]);
      }
    } else {
      TerminalIsLast(q, frames[1..], j);
    }
  }

  /** Once the terminal frame has been taken, nothing of the job is left on the
      way, and nothing is missing exactly when nothing was lost. */
  lemma EndedPath(l: Lane, p: Proxied)
    requires Balanced(l) && FitsBuffer(p) && l.frames == JobFrames(p)
    requires l.taken != [] && IsTerminal(l.taken[|l.taken| - 1])
    ensures l.buffer == [] && l.flying == [] && l.unsent == []
    ensures l.taken == l.frames <==> l.lost == []
  {
    JobFramesAreTheBody(p);
    var n := |l.taken|;
    assert Path(l)[n - 1] == l.taken[n - 1];
    TerminalIsLast(Path(l), l.frames, n - 1);
    assert Path(l) == l.taken;
    SubseqLength(l.taken, l.frames);
  }

  /** Status 200 is recorded only for a request whose own job has sent all its
      frames, the last of them the EOF of a cleanly ended body: that EOF is the
      last frame taken and nothing of the request is buffered or in flight any
      more. The client then has the body exactly when none of the request's
      frames was lost. At most one status is ever recorded. */
  lemma StatusOkMeansCompleted(run: seq<Event>, render: Render, id: Req)
    requires id in Run(run, render).requests
    ensures var s := Run(run, render);
            var r := s.requests[id];
            && |r.flushes| == |r.taken|
            && |Audits(r.streamed, r.taken, r.flushes, render)| <= 1
            && (Audits(r.streamed, r.taken, r.flushes, render) == [200] ==>
                  && r.engine.Some? && EngineEnd(r.engine.value) == EndOfFile
                  && r.sent == |Frames(r)|
                  && r.taken != [] && r.taken[|r.taken| - 1].ftype == FRAME_EOF
                  && Buffer(r) == [] && InFlight(Queue(s.up, r.pipe), id) == []
                  && Delivered(r, render) == ChunkBytes(r.taken)
                  && (Delivered(r, render) == EngineBytes(r.engine.value) <==> r.lost == []))
  {
    Reachable(run, render);
    var s := Run(run, render);
    var r := s.requests[id];
    OneStatus(r, render);
    if Audits(r.streamed, r.taken, r.flushes, render) == [STATUS_OK] {
      var l := LaneOf(s, id);
      SuccessfulWriter(r, render);
      TakenIsOwn(l);
      SubseqLength(l.taken, l.frames);
      EndedSubseqBytes(l.taken, r.engine.value);
      EndedPath(l, r.engine.value);
    }
  }

  // ---------- which requests are answered ----------

  /** Some frame a writer took made it return. */
  ghost predicate Stopped(r: Request)
    requires |r.flushes| == |r.taken|
  {
    exists i :: 0 <= i < |r.taken| && Stops(r.taken[i], r.flushes[i])
  }

  lemma SoundStopsExactly(r: Request, render: Render)
    requires Sound(r, render)
    ensures r.session.None? <==> Stopped(r)
  {
    StreamStopsExactly(r.taken, r.flushes, render);
    if !r.streamed {
      WritersAgree(r.taken, r.flushes, render);
    }
  }

  /** In every run, a request has been answered exactly when its writer took a
      terminal frame, or a chunk whose flush failed. */
  lemma AnsweredExactly(run: seq<Event>, render: Render, id: Req)
    requires id in Run(run, render).requests
    ensures var r := Run(run, render).requests[id];
            |r.flushes| == |r.taken| && (r.session.None? <==> Stopped(r))
  {
    Reachable(run, render);
    SoundStopsExactly(Run(run, render).requests[id], render);
  }

  /** Nothing of the request is waiting, buffered, in flight or still to be sent. */
  ghost predicate Quiet(s: State, id: Req) {
    && id in s.requests
    && Buffer(s.requests[id]) == [] && Unsent(s.requests[id]) == []
    && InFlight(Queue(s.up, s.requests[id].pipe), id) == []
    && (s.requests[id].engine.None? ==> Waiting(Queue(s.down, s.requests[id].pipe), id) == 0)
  }

  /** The dispatch was lost, or the engine has not ended, or the terminal frame
      was lost. */
  ghost predicate NoEnd(r: Request) {
    || r.engine.None?
    || EngineEnd(r.engine.value) == NoError
    || exists i :: 0 <= i < |r.lost| && IsTerminal(r.lost[i])
  }

  ghost predicate FlushFailed(r: Request)
    requires |r.flushes| == |r.taken|
  {
    exists i :: 0 <= i < |r.taken| && r.taken[i].ftype == FRAME_CHUNK && !r.flushes[i]
  }

  lemma {:induction false} TerminalsCount(frames: seq<Frame>)
    ensures Terminals(frames) > 0 <==> exists i :: 0 <= i < |frames| && IsTerminal(frames[i])
  {
    if frames != [] {
      TerminalsCount(frames[1..]);
      if i :| 0 <= i < |frames| && IsTerminal(frames[i]) {
        assert i > 0 ==> frames[1..][i - 1] == frames[i];
      }
      if Terminals(frames[1..]) > 0 {
        var i :| 0 <= i < |frames[1..]| && IsTerminal(frames[1..][i]);
        assert frames[i + 1] == frames[1..][i];
      }
    }
  }

  /** A job has one terminal frame when its engine ended, and none before. */
  lemma TerminalsOfJob(p: Proxied)
    requires FitsBuffer(p)
    ensures Terminals(JobFrames(p)) == if EngineEnd(p) == NoError then 0 else 1
  {
    JobFramesAreTheBody(p);
    var frames := JobFrames(p);
    TerminalsCount(frames);
    if EngineEnd(p) != NoError {
      var n := |frames| - 1;
      assert frames == frames[..n] + [frames[n]];
      TerminalsAppend(frames[..n], [frames[n]]);
      TerminalsCount(frames[..n]);
      assert Terminals([frames[n]]) == 1 + Terminals([frames[n]][1..]);
    }
  }

  /** A quiet request has taken its terminal frame unless there is none to come. */
  lemma QuietTerminals(s: State, id: Req)
    requires Quiet(s, id) && JobSound(s.requests[id]) && Balanced(LaneOf(s, id))
    ensures Terminals(s.requests[id].taken) == 0 <==> NoEnd(s.requests[id])
  {
    var r, l := s.requests[id], LaneOf(s, id);
    assert Path(l) == r.taken;
    TerminalsCount(r.lost);
    if r.engine.Some? {
      TerminalsOfJob(r.engine.value);
    }
  }

  lemma StoppedMeans(r: Request)
    requires |r.flushes| == |r.taken|
    ensures Stopped(r) <==> Terminals(r.taken) > 0 || FlushFailed(r)
  {
    TerminalsCount(r.taken);
    if Terminals(r.taken) > 0 {
      var i :| 0 <= i < |r.taken| && IsTerminal(r.taken[i]);
      assert Stops(r.taken[i], r.flushes[i]);
    }
    if FlushFailed(r) {
      var i :| 0 <= i < |r.taken| && r.taken[i].ftype == FRAME_CHUNK && !r.flushes[i];
      assert Stops(r.taken[i], r.flushes[i]);
    }
  }

  lemma QuietIsOpenExactly(s: State, id: Req, render: Render)
    requires Quiet(s, id) && Sound(s.requests[id], render) && Balanced(LaneOf(s, id))
    ensures s.requests[id].session.Some? <==> NoEnd(s.requests[id]) && !FlushFailed(s.requests[id])
  {
    var r := s.requests[id];
    SoundStopsExactly(r, render);
    StoppedMeans(r);
    QuietTerminals(s, id);
  }

  /** A request without losses whose engine has ended is answered once its
      frames have drained. */
  lemma LosslessRequestsFinish(run: seq<Event>, render: Render, id: Req)
    requires var s := Run(run, render);
             && Quiet(s, id) && s.requests[id].lost == []
             && s.requests[id].engine.Some? && EngineEnd(s.requests[id].engine.value) != NoError
    ensures Run(run, render).requests[id].session.None?
  {
    Reachable(run, render);
    QuietIsOpenExactly(Run(run, render), id, render);
  }

  // ---------- a lost terminal frame leaves the writer waiting ----------

  /** The request was quiet, still is, and nothing about it changed. */
  ghost predicate Untouched(s: State, s': State, id: Req)
    requires Quiet(s, id)
  {
    Quiet(s', id) && s'.requests[id] == s.requests[id]
  }

  lemma RemovalStaysQuiet(q: seq<Message>, k: nat, id: Req)
    requires k < |q| && InFlight(q, id) == []
    ensures InFlight(Without(q, k), id) == [] && Own(q[k], id) == []
  {
    InFlightWithout(q, k, id);
  }

  /** A step that leaves the request alone and adds nothing of it to its pipes. */
  lemma StaysQuiet(s: State, s': State, id: Req)
    requires Quiet(s, id) && id in s'.requests && s'.requests[id] == s.requests[id]
    requires var p := s.requests[id].pipe;
             && InFlight(Queue(s'.up, p), id) == []
             && Waiting(Queue(s'.down, p), id) <= Waiting(Queue(s.down, p), id)
    ensures Untouched(s, s', id)
  {
  }

  lemma PushStaysQuiet(s: State, id: Req, other: Req, m: Message, sendOk: bool)
    requires Quiet(s, id) && other in s.requests && other != id && (m.FrameMessage? ==> m.reqID == other)
    requires Unsent(s.requests[other]) != []
    ensures Untouched(s, SendAs(s, other, m, sendOk), id)
  {
    InFlightPush(Queue(s.up, s.requests[other].pipe), m, id);
    StaysQuiet(s, SendAs(s, other, m, sendOk), id);
  }

  lemma SendStaysQuiet(s: State, id: Req, other: Req, sendOk: bool, render: Render)
    requires AllSound(s, render) && Quiet(s, id)
    ensures Untouched(s, SendStep(s, other, sendOk), id)
  {
    if other in s.requests && Unsent(s.requests[other]) != [] {
      var f := Unsent(s.requests[other])[0];
      NextFrameFits(s.requests[other]);
      SentMessage(other, f);
      PushStaysQuiet(s, id, other, Unpack(Pack(other, f)), sendOk);
    }
  }

  /** The next dispatch in a pipe is not one of a quiet request. */
  lemma QuietIsNotNext(s: State, id: Req, p: Pipe)
    requires DispatchedOnce(s) && Quiet(s, id) && Queue(s.down, p) != []
    ensures !(s.down[p][0].Ok? && s.down[p][0].value.reqID == id)
  {
    assert OnceAt(s, p, id);
  }

  lemma StartStaysQuiet(s: State, id: Req, p: Pipe, engine: Proxied)
    requires DispatchedOnce(s) && Quiet(s, id)
    ensures Untouched(s, StartStep(s, p, engine), id)
  {
    if Queue(s.down, p) != [] {
      QuietIsNotNext(s, id, p);
      StaysQuiet(s, StartStep(s, p, engine), id);
    }
  }

  lemma RemoveStaysQuiet(s: State, id: Req, p: Pipe, k: nat)
    requires Addressed(s) && Quiet(s, id) && k < |Queue(s.up, p)|
    ensures var m := s.up[p][k];
            && !(m.FrameMessage? && m.reqID == id)
            && InFlight(Queue(s.up[p := Without(s.up[p], k)], s.requests[id].pipe), id) == []
  {
    assert AddressedAt(s, p, Queue(s.up, p)[k]);
    if p == s.requests[id].pipe {
      RemovalStaysQuiet(s.up[p], k, id);
    }
  }

  lemma ReceiveStaysQuiet(s: State, id: Req, p: Pipe)
    requires Addressed(s) && Quiet(s, id)
    ensures Untouched(s, ReceiveStep(s, p), id)
  {
    if Queue(s.up, p) != [] {
      RemoveStaysQuiet(s, id, p, 0);
      StaysQuiet(s, ReceiveStep(s, p), id);
    }
  }

  lemma LoseUpStaysQuiet(s: State, id: Req, p: Pipe, k: nat)
    requires Addressed(s) && Quiet(s, id)
    ensures Untouched(s, LoseUpStep(s, p, k), id)
  {
    if k < |Queue(s.up, p)| {
      RemoveStaysQuiet(s, id, p, k);
      StaysQuiet(s, LoseUpStep(s, p, k), id);
    }
  }

  lemma WaitingPush(q: seq<Result<Envelope>>, m: Result<Envelope>, id: Req)
    ensures Waiting(q + [m], id) == Waiting(q, id) + if m.Ok? && m.value.reqID == id then 1 else 0
  {
    WaitingAppend(q, [m], id);
    assert Waiting([m], id) == (if m.Ok? && m.value.reqID == id then 1 else 0) + Waiting([m][1..], id);
  }

  lemma DispatchStaysQuiet(s: State, id: Req, other: Req, p: Pipe, body: seq<byte>, streamed: bool, sendOk: bool)
    requires Quiet(s, id)
    ensures Untouched(s, DispatchStep(s, other, p, body, streamed, sendOk), id)
  {
    if other !in s.requests && DispatchId(other) && sendOk {
      EnvelopeRoundTrip(Envelope(other, body));
      WaitingPush(Queue(s.down, p), Ok(Envelope(other, body)), id);
      StaysQuiet(s, DispatchStep(s, other, p, body, streamed, sendOk), id);
    }
  }

  lemma ConsumeStaysQuiet(s: State, id: Req, other: Req, flushed: bool, render: Render)
    requires Quiet(s, id)
    ensures Untouched(s, ConsumeStep(s, other, flushed, render), id)
  {
    var s' := ConsumeStep(s, other, flushed, render);
    assert s'.up == s.up && s'.down == s.down && id in s'.requests && s'.requests[id] == s.requests[id];
    StaysQuiet(s, s', id);
  }

  lemma WaitingWithout(q: seq<Result<Envelope>>, k: nat, id: Req)
    requires k < |q|
    ensures Waiting(Without(q, k), id) <= Waiting(q, id)
  {
    assert q == q[..k] + q[k..] && q[k..][1..] == q[k + 1..];
    WaitingAppend(q[..k], q[k..], id);
    WaitingAppend(q[..k], q[k + 1..], id);
  }

  lemma LoseDownStaysQuiet(s: State, id: Req, p: Pipe, k: nat)
    requires Quiet(s, id)
    ensures Untouched(s, LoseDownStep(s, p, k), id)
  {
    if k < |Queue(s.down, p)| {
      WaitingWithout(Queue(s.down, p), k, id);
      StaysQuiet(s, LoseDownStep(s, p, k), id);
    }
  }

  lemma QuietStaysQuiet(s: State, ev: Event, render: Render, id: Req)
    requires AllSound(s, render) && Addressed(s) && DispatchedOnce(s) && Quiet(s, id)
    ensures Untouched(s, Step(s, ev, render), id)
  {
    match ev
    case Dispatch(other, p, body, streamed, sendOk) => DispatchStaysQuiet(s, id, other, p, body, streamed, sendOk);
    case StartJob(p, engine) => if Plausible(engine) { StartStaysQuiet(s, id, p, engine); }
    case SendFrame(other, sendOk) => SendStaysQuiet(s, id, other, sendOk, render);
    case Receive(p) => ReceiveStaysQuiet(s, id, p);
    case Consume(other, flushed) => ConsumeStaysQuiet(s, id, other, flushed, render);
    case LoseDown(p, k) => LoseDownStaysQuiet(s, id, p, k);
    case LoseUp(p, k) => LoseUpStaysQuiet(s, id, p, k);
  }

  ghost function RunFrom(s: State, run: seq<Event>, render: Render): State {
    if run == [] then s else Step(RunFrom(s, run[..|run| - 1], render), run[|run| - 1], render)
  }

  /** A request of which nothing is left on the way stays as it is in every
      continuation: nothing closes its session channel. */
  lemma {:induction false} NothingClosesTheSession(s: State, more: seq<Event>, render: Render, id: Req)
    requires Inv(s, render) && Quiet(s, id)
    ensures var s' := RunFrom(s, more, render);
            Inv(s', render) && Quiet(s', id) && s'.requests[id] == s.requests[id]
  {
    if more != [] {
      var before := RunFrom(s, more[..|more| - 1], render);
      NothingClosesTheSession(s, more[..|more| - 1], render, id);
      StepKeeps(before, more[|more| - 1], render);
      QuietStaysQuiet(before, more[|more| - 1], render, id);
    }
  }

  ghost predicate NeverAnswered(s: State, id: Req, render: Render) {
    forall more: seq<Event> ::
      id in RunFrom(s, more, render).requests && RunFrom(s, more, render).requests[id].session.Some?
  }

  /** Which requests hang: one of which nothing is left on the way is never
      answered, in any continuation, exactly when its dispatch was lost, its
      engine has not ended or its terminal frame was lost, and no flush failed. */
  lemma HangsExactly(run: seq<Event>, render: Render, id: Req)
    requires Quiet(Run(run, render), id)
    ensures var r := Run(run, render).requests[id];
            |r.flushes| == |r.taken| && (NeverAnswered(Run(run, render), id, render) <==> NoEnd(r) && !FlushFailed(r))
  {
    var s := Run(run, render);
    Reachable(run, render);
    QuietIsOpenExactly(s, id, render);
    if s.requests[id].session.Some? {
      forall more: seq<Event>
        ensures id in RunFrom(s, more, render).requests && RunFrom(s, more, render).requests[id].session.Some?
      {
        NothingClosesTheSession(s, more, render, id);
      }
    } else {
      assert RunFrom(s, [], render) == s;
    }
  }

  /** An engine whose body is empty. */
  const EMPTY_BODY: Proxied := Body([Read([], EndOfFile)])

  lemma EmptyBodyFrames()
    ensures JobFrames(EMPTY_BODY) == [Frame(FRAME_EOF, [])] && Plausible(EMPTY_BODY)
  {
    assert ReadFrames([Read([], EndOfFile)]) == Chunk([]) + Terminal(EndOfFile);
  }

  lemma RunSnoc(run: seq<Event>, ev: Event, render: Render)
    ensures Run(run + [ev], render) == Step(Run(run, render), ev, render)
  {
    assert (run + [ev])[..|run|] == run;
  }

  lemma AfterDispatch(id: Req, body: seq<byte>)
    requires DispatchId(id)
    ensures DispatchStep(INIT, id, 0, body, true, true)
            == State(map[id := Request(0, true, Some([]), [], [], None, 0, [])], map[0 := [Ok(Envelope(id, body))]], map[])
  {
    EnvelopeRoundTrip(Envelope(id, body));
    assert Queue(INIT.down, 0) + [Ok(Envelope(id, body))] == [Ok(Envelope(id, body))];
  }

  /** When the last frame of a job fails to be sent, its request goes quiet with
      its session open. */
  lemma LastFrameUnsent(s: State, id: Req)
    requires id in s.requests && s.requests[id].engine.Some? && |Unsent(s.requests[id])| == 1
    requires s.requests[id].session == Some([]) && InFlight(Queue(s.up, s.requests[id].pipe), id) == []
    ensures var s' := SendStep(s, id, false);
            Quiet(s', id) && s'.requests[id].session.Some?
  {
    var r := s.requests[id];
    var s' := SendStep(s, id, false);
    assert s'.requests[id] == Lost(r.(sent := r.sent + 1), [Unsent(r)[0]]) && s'.up == s.up;
  }

  lemma HangingSteps(id: Req, body: seq<byte>, s: State)
    requires DispatchId(id)
    requires s == State(map[id := Request(0, true, Some([]), [], [], None, 0, [])], map[0 := [Ok(Envelope(id, body))]], map[])
    ensures var s2 := SendStep(StartStep(s, 0, EMPTY_BODY), id, false);
            Quiet(s2, id) && s2.requests[id].session.Some?
  {
    EmptyBodyFrames();
    var s1 := StartStep(s, 0, EMPTY_BODY);
    assert s1.requests[id] == s.requests[id].(engine := Some(EMPTY_BODY), sent := 0) && s1.up == map[];
    assert Unsent(s1.requests[id]) == JobFrames(EMPTY_BODY);
    LastFrameUnsent(s1, id);
  }

  lemma ThreeSteps(e0: Event, e1: Event, e2: Event, render: Render)
    ensures Run([e0, e1, e2], render) == Step(Step(Step(INIT, e0, render), e1, render), e2, render)
  {
    assert [] + [e0] == [e0] && [e0] + [e1] == [e0, e1] && [e0, e1] + [e2] == [e0, e1, e2];
    calc {
      Run([e0, e1, e2], render);
      { RunSnoc([e0, e1], e2, render); }
      Step(Run([e0, e1], render), e2, render);
      { RunSnoc([e0], e1, render); }
      Step(Step(Run([e0], render), e1, render), e2, render);
      { RunSnoc([], e0, render); }
      Step(Step(Step(INIT, e0, render), e1, render), e2, render);
    }
  }

  /** Such a state is reached as soon as the only frame of a job, its EOF, fails
      to be sent. */
  lemma LostEofHangs(id: Req, body: seq<byte>, render: Render)
    requires DispatchId(id)
    ensures var s := Run([Dispatch(id, 0, body, true, true), StartJob(0, EMPTY_BODY), SendFrame(id, false)], render);
            Quiet(s, id) && s.requests[id].session.Some?
  {
    ThreeSteps(Dispatch(id, 0, body, true, true), StartJob(0, EMPTY_BODY), SendFrame(id, false), render);
    EmptyBodyFrames();
    AfterDispatch(id, body);
    HangingSteps(id, body, DispatchStep(INIT, id, 0, body, true, true));
  }

  /** And as soon as a dispatch is lost on its way to the worker. */
  lemma LostDispatchHangs(id: Req, body: seq<byte>, render: Render)
    requires DispatchId(id)
    ensures var s := Run([Dispatch(id, 0, body, true, true), LoseDown(0, 0)], render);
            Quiet(s, id) && s.requests[id].session.Some? && s.requests[id].engine.None?
  {
    var e0, e1 := Dispatch(id, 0, body, true, true), LoseDown(0, 0);
    RunSnoc([], e0, render);
    RunSnoc([e0], e1, render);
    assert [] + [e0] == [e0] && [e0] + [e1] == [e0, e1];
    AfterDispatch(id, body);
    assert Without([Ok(Envelope(id, body))], 0) == [];
  }

  // ---------- the receive loop as code ----------

  /** The sessions map after one demultiplexed message. */
  function Deliver(sessions: map<Req, seq<Frame>>, m: Message): map<Req, seq<Frame>> {
    if m.FrameMessage? && m.reqID in sessions && |sessions[m.reqID]| < SESSION_BUFFER_SIZE
    then sessions[m.reqID := sessions[m.reqID] + [m.frame]]
    else sessions
  }

  /** DecodeFrame on the payload of an envelope. */
  method DecodePayload(payload: seq<byte>) returns (r: Result<Frame>)
    ensures r == ParseFrame(payload)
  {
    var data := new byte[|payload|];
    CopyInto(data, 0, payload);
    assert data[..] == payload;
    r := DecodeFrame(data);
  }

  class Router {
    var sessions: map<Req, seq<Frame>>

    constructor ()
      ensures sessions == map[]
    {
      sessions := map[];
    }

    /** handleMeshMessage, up to the call of handleHeartbeat; pipe is what the
        header decodes to, if it does. */
    method HandleMeshMessage(pipe: Option<Pipe>, body: array<byte>) returns (m: Message)
      modifies this
      ensures m == if pipe.Some? then Unpack(body[..]) else Undecodable
      ensures sessions == Deliver(old(sessions), m)
    {
      var env := DecodeEnvelope(body);
      if env.Err? {
        return Undecodable;
      }
      if pipe.None? {
        return Undecodable;
      }
      if env.value.reqID == HEARTBEAT_REQ_ID {
        return HeartbeatMessage(env.value.payload);
      }
      var f := DecodePayload(env.value.payload);
      if f.Err? {
        return Undecodable;
      }
      m := FrameMessage(env.value.reqID, f.value);
      if m.reqID in sessions {
        if |sessions[m.reqID]| < SESSION_BUFFER_SIZE {
          sessions := sessions[m.reqID := sessions[m.reqID] + [m.frame]];
        }
      }
    }
  }

  function Sessions(s: State): map<Req, seq<Frame>> {
    map id | id in s.requests && s.requests[id].session.Some? :: s.requests[id].session.value
  }

  /** The machine's receive step is what the code does to the sessions map. */
  lemma ReceiveIsHandleMeshMessage(s: State, p: Pipe)
    requires Queue(s.up, p) != []
    ensures Sessions(ReceiveStep(s, p)) == Deliver(Sessions(s), s.up[p][0])
  {
    var m := s.up[p][0];
    if m.FrameMessage? && m.reqID in s.requests {
      var r := Arrived(s.requests[m.reqID], m.frame);
      assert ReceiveStep(s, p).requests == s.requests[m.reqID := r];
    }
  }
}
