/**
 What can be lost on the mesh, and that the rest arrives: the losses of a request
 are exactly those the events of the run inflict on it, and from every reachable
 state a request without losses can be completed.
 */
module Completion {
  import opened Seqs
  import opened Wire
  import opened Jobs
  import opened Streaming

  // ---------- which events lose a frame ----------

  ghost predicate IsFrameOf(m: Message, id: Req) {
    m.FrameMessage? && m.reqID == id
  }

  /** This event loses a frame of a known request: a failed send, a frame over 16
      MiB, a loss on the pipe, a full buffer or an ended session, or a writer that
      returns with frames still buffered. Nothing else does. */
  ghost predicate Loses(s: State, ev: Event, id: Req)
    requires id in s.requests
  {
    var r := s.requests[id];
    match ev
    case SendFrame(i, sendOk) => i == id && Unsent(r) != [] && (!sendOk || |Unsent(r)[0].payload| > 0x100_0000)
    case LoseUp(p, k) => k < |Queue(s.up, p)| && IsFrameOf(Queue(s.up, p)[k], id)
    case Receive(p) =>
      && Queue(s.up, p) != [] && IsFrameOf(Queue(s.up, p)[0], id)
      && (r.session.None? || |r.session.value| >= 256)
    case Consume(i, flushed) => i == id && |Buffer(r)| > 1 && Stops(Buffer(r)[0], flushed || !r.streamed)
    case _ => false
  }

  /** The ledger of one request over one step. */
  ghost predicate LedgerStep(s: State, s': State, id: Req, loses: bool)
    requires id in s.requests
  {
    && id in s'.requests
    && s.requests[id].lost <= s'.requests[id].lost
    && (s'.requests[id].lost == s.requests[id].lost <==> !loses)
  }

  lemma SendLoses(s: State, id: Req, other: Req, sendOk: bool, render: Render)
    requires AllSound(s, render) && id in s.requests
    ensures LedgerStep(s, SendStep(s, other, sendOk), id, Loses(s, SendFrame(other, sendOk), id))
  {
    if other == id && Unsent(s.requests[id]) != [] {
      var f := Unsent(s.requests[id])[0];
      NextFrameFits(s.requests[id]);
      UnpackPack(id, f);
      SendAsLoses(s, id, Unpack(Pack(id, f)), sendOk);
    }
  }

  lemma SendAsLoses(s: State, id: Req, m: Message, sendOk: bool)
    requires id in s.requests && Unsent(s.requests[id]) != []
    ensures LedgerStep(s, SendAs(s, id, m, sendOk), id, !sendOk || !m.FrameMessage?)
  {
  }

  lemma RemovalLoses(s: State, id: Req, p: Pipe, k: nat)
    requires id in s.requests
    ensures LedgerStep(s, LoseUpStep(s, p, k), id, Loses(s, LoseUp(p, k), id))
  {
  }

  lemma ReceiveLoses(s: State, id: Req, p: Pipe)
    requires id in s.requests
    ensures LedgerStep(s, ReceiveStep(s, p), id, Loses(s, Receive(p), id))
  {
  }

  lemma StoppedSnoc(r: Request, r': Request, f: Frame, ok: bool)
    requires |r.flushes| == |r.taken| && r'.taken == r.taken + [f] && r'.flushes == r.flushes + [ok]
    ensures Stopped(r') <==> Stopped(r) || Stops(f, ok)
  {
    var n := |r.taken|;
    assert r'.taken[n] == f && r'.flushes[n] == ok;
    if Stopped(r) {
      var i :| 0 <= i < |r.taken| && Stops(r.taken[i], r.flushes[i]);
      assert Stops(r'.taken[i], r'.flushes[i]);
    }
    if Stopped(r') {
      var i :| 0 <= i < |r'.taken| && Stops(r'.taken[i], r'.flushes[i]);
      assert i < n ==> r'.taken[i] == r.taken[i] && r'.flushes[i] == r.flushes[i];
    }
  }

  /** Taking one frame ends the writer exactly when that frame stops it. */
  lemma TakingEnds(r: Request, flushed: bool, render: Render)
    requires Sound(r, render) && Buffer(r) != []
    ensures Taken(r, flushed, render).session.None? <==> Stops(Buffer(r)[0], flushed || !r.streamed)
  {
    var r' := Taken(r, flushed, render);
    TakenIsSound(r, flushed, render);
    SoundStopsExactly(r, render);
    SoundStopsExactly(r', render);
    StoppedSnoc(r, r', Buffer(r)[0], flushed || !r.streamed);
  }

  lemma ConsumeLoses(s: State, id: Req, other: Req, flushed: bool, render: Render)
    requires AllSound(s, render) && id in s.requests
    ensures LedgerStep(s, ConsumeStep(s, other, flushed, render), id, Loses(s, Consume(other, flushed), id))
  {
    if other == id && Buffer(s.requests[id]) != [] {
      TakingEnds(s.requests[id], flushed, render);
      TakenLedger(s.requests[id], flushed, render);
    }
  }

  lemma TakenLedger(r: Request, flushed: bool, render: Render)
    requires r.session.Some? && r.session.value != [] && |r.flushes| == |r.taken|
    ensures var r' := Taken(r, flushed, render);
            r'.lost == r.lost + if r'.session.None? then r.session.value[1..] else []
  {
  }

  lemma StepLosesExactly(s: State, ev: Event, render: Render, id: Req)
    requires AllSound(s, render) && id in s.requests
    ensures LedgerStep(s, Step(s, ev, render), id, Loses(s, ev, id))
  {
    match ev
    case Dispatch(other, p, body, streamed, sendOk) => DispatchLedger(s, id, other, p, body, streamed, sendOk);
    case StartJob(p, engine) => StartLedger(s, id, p, engine);
    case SendFrame(other, sendOk) => SendLoses(s, id, other, sendOk, render);
    case Receive(p) => ReceiveLoses(s, id, p);
    case Consume(other, flushed) => ConsumeLoses(s, id, other, flushed, render);
    case LoseDown(p, k) =>
    case LoseUp(p, k) => RemovalLoses(s, id, p, k);
  }

  lemma DispatchLedger(s: State, id: Req, other: Req, p: Pipe, body: seq<byte>, streamed: bool, sendOk: bool)
    requires id in s.requests
    ensures LedgerStep(s, DispatchStep(s, other, p, body, streamed, sendOk), id, false)
  {
  }

  lemma StartLedger(s: State, id: Req, p: Pipe, engine: Proxied)
    requires id in s.requests
    ensures LedgerStep(s, StartStep(s, p, engine), id, false)
  {
  }

  lemma NewRequestHasNoLosses(s: State, ev: Event, render: Render, id: Req)
    requires id !in s.requests && id in Step(s, ev, render).requests
    ensures Step(s, ev, render).requests[id].lost == []
  {
  }

  /** The states a run goes through: states[k] is the one before event k. */
  ghost predicate IsTrace(run: seq<Event>, states: seq<State>, render: Render) {
    && |states| == |run| + 1
    && states[0] == INIT
    && forall k :: 0 <= k < |run| ==> StepAt(run, states, k, render)
  }

  ghost predicate StepAt(run: seq<Event>, states: seq<State>, k: nat, render: Render)
    requires k < |run| && |states| == |run| + 1
  {
    states[k + 1] == Step(states[k], run[k], render)
  }

  lemma {:induction false} EveryRunHasATrace(run: seq<Event>, render: Render) returns (states: seq<State>)
    ensures IsTrace(run, states, render) && states[|run|] == Run(run, render)
  {
    if run == [] {
      states := [INIT];
    } else {
      var n := |run| - 1;
      var before := EveryRunHasATrace(run[..n], render);
      states := before + [Run(run, render)];
      forall k | 0 <= k < |run| ensures StepAt(run, states, k, render) {
        assert k < n ==> StepAt(run[..n], before, k, render);
      }
    }
  }

  lemma {:induction false} TraceReachable(run: seq<Event>, states: seq<State>, render: Render, k: nat)
    requires IsTrace(run, states, render) && k <= |run|
    ensures Inv(states[k], render)
  {
    if k == 0 {
      Reachable([], render);
    } else {
      TraceReachable(run, states, render, k - 1);
      assert StepAt(run, states, k - 1, render);
      StepKeeps(states[k - 1], run[k - 1], render);
    }
  }

  /** Event k of the run loses a frame of the request. */
  ghost predicate LosesAt(run: seq<Event>, states: seq<State>, k: nat, id: Req)
    requires k < |run| && |states| == |run| + 1
  {
    id in states[k].requests && Loses(states[k], run[k], id)
  }

  /** The request, if known by then, has lost nothing. */
  ghost predicate Clean(s: State, id: Req) {
    id in s.requests ==> s.requests[id].lost == []
  }

  lemma CleanStep(s: State, ev: Event, s': State, render: Render, id: Req)
    requires AllSound(s, render) && s' == Step(s, ev, render)
    ensures Clean(s', id) <==> Clean(s, id) && !(id in s.requests && Loses(s, ev, id))
  {
    if id in s.requests {
      StepLosesExactly(s, ev, render, id);
    } else if id in s'.requests {
      NewRequestHasNoLosses(s, ev, render, id);
    }
  }

  lemma CleanAt(run: seq<Event>, states: seq<State>, render: Render, id: Req, k: nat)
    requires IsTrace(run, states, render) && k < |run|
    ensures Clean(states[k + 1], id) <==> Clean(states[k], id) && !LosesAt(run, states, k, id)
  {
    TraceReachable(run, states, render, k);
    assert StepAt(run, states, k, render);
    CleanStep(states[k], run[k], states[k + 1], render, id);
  }

  /** After any run, a request has lost nothing exactly when no event of the run
      lost a frame of it. */
  lemma {:induction false} LostExactly(run: seq<Event>, states: seq<State>, render: Render, id: Req, n: nat)
    requires IsTrace(run, states, render) && n <= |run|
    ensures Clean(states[n], id) <==> forall k :: 0 <= k < n ==> !LosesAt(run, states, k, id)
  {
    if n > 0 {
      LostExactly(run, states, render, id, n - 1);
      CleanAt(run, states, render, id, n - 1);
    }
  }

  // ---------- every lossless request can be completed ----------

  /** The job of id sends, the router receives on its pipe, or the writer of id
      takes a frame; all of them succeed. */
  ghost predicate Helps(ev: Event, id: Req, p: Pipe) {
    ev == SendFrame(id, true) || ev == Receive(p) || ev == Consume(id, true)
  }

  /** A started request that lost nothing and failed no flush, whose engine has
      ended and whose frames are within the limit. */
  ghost predicate Completable(s: State, id: Req) {
    && id in s.requests && s.requests[id].engine.Some? && s.requests[id].lost == []
    && |s.requests[id].flushes| == |s.requests[id].taken| && !FlushFailed(s.requests[id])
    && EngineEnd(s.requests[id].engine.value) != NoError
    && forall i :: 0 <= i < |Frames(s.requests[id])| ==> |Frames(s.requests[id])[i].payload| <= 0x100_0000
  }

  /** What is still to be done for it. */
  ghost function Work(s: State, id: Req): nat
    requires id in s.requests
  {
    var r := s.requests[id];
    3 * |Unsent(r)| + 2 * |Queue(s.up, r.pipe)| + |Buffer(r)|
  }

  /** What is known of the request after one helpful step. */
  ghost predicate Progress(s: State, s': State, id: Req)
    requires id in s.requests
  {
    && Completable(s', id) && Work(s', id) < Work(s, id)
    && s'.requests[id].pipe == s.requests[id].pipe
    && s'.requests[id].engine == s.requests[id].engine
    && s'.requests[id].streamed == s.requests[id].streamed
  }

  lemma SendHelps(s: State, id: Req)
    requires Completable(s, id) && Unsent(s.requests[id]) != [] && JobSound(s.requests[id]) && DispatchId(id)
    ensures Progress(s, SendStep(s, id, true), id)
  {
    var r := s.requests[id];
    var f := Unsent(r)[0];
    assert f == Frames(r)[r.sent];
    UnpackPack(id, f);
    SendAsHelps(s, id, Unpack(Pack(id, f)));
  }

  lemma SendAsHelps(s: State, id: Req, m: Message)
    requires Completable(s, id) && JobSound(s.requests[id]) && Unsent(s.requests[id]) != [] && m.FrameMessage?
    ensures Progress(s, SendAs(s, id, m, true), id)
  {
    var r, r' := s.requests[id], SendAs(s, id, m, true).requests[id];
    assert Frames(r') == Frames(r) && Unsent(r') == Unsent(r)[1..];
  }

  lemma ReceiveHelps(s: State, id: Req)
    requires Completable(s, id) && s.requests[id].session == Some([]) && Queue(s.up, s.requests[id].pipe) != []
    ensures Progress(s, ReceiveStep(s, s.requests[id].pipe), id)
  {
    var r := s.requests[id];
    var m := s.up[r.pipe][0];
    var r' := ReceiveStep(s, r.pipe).requests[id];
    assert r'.engine == r.engine && r'.sent == r.sent && r'.lost == [] && |Buffer(r')| <= 1;
    assert Frames(r') == Frames(r) && Unsent(r') == Unsent(r);
  }

  /** In a lossless lane the frame after those taken is terminal only if it is the
      last. */
  lemma NothingAfterTheEnd(l: Lane, p: Proxied)
    requires Balanced(l) && FitsBuffer(p) && l.frames == JobFrames(p) && l.buffer != [] && IsTerminal(l.buffer[0])
    ensures |l.buffer| == 1
  {
    JobFramesAreTheBody(p);
    assert Path(l)[|l.taken|] == l.buffer[0];
    TerminalIsLast(Path(l), l.frames, |l.taken|);
  }

  /** Taking a frame with a successful flush fails no flush. */
  lemma TakenUnfailed(r: Request, r': Request)
    requires |r.flushes| == |r.taken| && |r'.flushes| == |r'.taken| == |r.taken| + 1
    requires r'.taken[..|r.taken|] == r.taken && r'.flushes[..|r.taken|] == r.flushes && r'.flushes[|r.taken|]
    requires !FlushFailed(r)
    ensures !FlushFailed(r')
  {
    forall i | 0 <= i < |r'.taken| ensures !(r'.taken[i].ftype == FRAME_CHUNK && !r'.flushes[i]) {
      if i < |r.taken| {
        assert r'.taken[i] == r.taken[i] && r'.flushes[i] == r.flushes[i];
      }
    }
  }

  /** A writer that takes its next frame without failing loses nothing, unless it
      ends with frames buffered behind. */
  lemma TakenHelps(r: Request, render: Render)
    requires Sound(r, render) && Buffer(r) != [] && !FlushFailed(r)
    requires IsTerminal(Buffer(r)[0]) ==> |Buffer(r)| == 1
    ensures var r' := Taken(r, true, render);
            && r' == r.(session := r'.session, taken := r'.taken, flushes := r'.flushes)
            && |Buffer(r')| < |Buffer(r)| && |r'.flushes| == |r'.taken| && !FlushFailed(r')
  {
    var r' := Taken(r, true, render);
    TakingEnds(r, true, render);
    TakenLedger(r, true, render);
    assert r'.taken == r.taken + [Buffer(r)[0]] && r'.flushes == r.flushes + [true];
    TakenUnfailed(r, r');
    assert r'.lost == r.lost;
  }

  lemma ConsumeHelps(s: State, id: Req, render: Render)
    requires Completable(s, id) && Buffer(s.requests[id]) != []
    requires Sound(s.requests[id], render) && Balanced(LaneOf(s, id))
    ensures Progress(s, ConsumeStep(s, id, true, render), id)
  {
    var r := s.requests[id];
    if IsTerminal(Buffer(r)[0]) {
      NothingAfterTheEnd(LaneOf(s, id), r.engine.value);
    }
    TakenHelps(r, render);
    RequestMoves(s, ConsumeStep(s, id, true, render), id);
  }

  /** Only the writer's side of the request changed, and its buffer shrank. */
  lemma RequestMoves(s: State, s': State, id: Req)
    requires Completable(s, id) && id in s'.requests && s'.up == s.up
    requires var r, r' := s.requests[id], s'.requests[id];
             && r' == r.(session := r'.session, taken := r'.taken, flushes := r'.flushes)
             && |Buffer(r')| < |Buffer(r)| && |r'.flushes| == |r'.taken| && !FlushFailed(r')
    ensures Progress(s, s', id)
  {
    assert Frames(s'.requests[id]) == Frames(s.requests[id]) && Unsent(s'.requests[id]) == Unsent(s.requests[id]);
  }

  /** What the invariant says about one request. */
  ghost predicate RequestOk(s: State, id: Req, render: Render) {
    id in s.requests && DispatchId(id) && Sound(s.requests[id], render) && Balanced(LaneOf(s, id))
  }

  lemma InvAt(s: State, id: Req, render: Render)
    requires Inv(s, render) && id in s.requests
    ensures RequestOk(s, id, render)
  {
  }

  /** While its session is open with nothing received, there is more to send. */
  lemma MoreToSend(s: State, render: Render, id: Req)
    requires RequestOk(s, id, render) && Completable(s, id) && s.requests[id].session == Some([])
    requires Queue(s.up, s.requests[id].pipe) == []
    ensures Unsent(s.requests[id]) != []
  {
    if Unsent(s.requests[id]) == [] {
      QuietIsOpenExactly(s, id, render);
    }
  }

  /** A helpful event that makes progress. */
  ghost predicate HelpsTo(s: State, ev: Event, s': State, id: Req, render: Render)
    requires id in s.requests
  {
    Helps(ev, id, s.requests[id].pipe) && s' == Step(s, ev, render) && Progress(s, s', id)
  }

  lemma ConsumingHelps(s: State, render: Render, id: Req)
    requires RequestOk(s, id, render) && Completable(s, id) && Buffer(s.requests[id]) != []
    ensures HelpsTo(s, Consume(id, true), ConsumeStep(s, id, true, render), id, render)
  {
    ConsumeHelps(s, id, render);
  }

  lemma ReceivingHelps(s: State, render: Render, id: Req)
    requires Completable(s, id) && s.requests[id].session == Some([]) && Queue(s.up, s.requests[id].pipe) != []
    ensures HelpsTo(s, Receive(s.requests[id].pipe), ReceiveStep(s, s.requests[id].pipe), id, render)
  {
    ReceiveHelps(s, id);
  }

  lemma SendingHelps(s: State, render: Render, id: Req)
    requires RequestOk(s, id, render) && Completable(s, id) && Unsent(s.requests[id]) != []
    ensures HelpsTo(s, SendFrame(id, true), SendStep(s, id, true), id, render)
  {
    SendHelps(s, id);
  }

  /** The next helpful event, and where it leads. */
  lemma NextHelp(s: State, render: Render, id: Req) returns (ev: Event, s': State)
    requires RequestOk(s, id, render) && Completable(s, id) && s.requests[id].session.Some?
    ensures HelpsTo(s, ev, s', id, render)
  {
    var r := s.requests[id];
    if r.session.value != [] {
      ConsumingHelps(s, render, id);
      ev, s' := Consume(id, true), ConsumeStep(s, id, true, render);
    } else if Queue(s.up, r.pipe) != [] {
      ReceivingHelps(s, render, id);
      ev, s' := Receive(r.pipe), ReceiveStep(s, r.pipe);
    } else {
      MoreToSend(s, render, id);
      SendingHelps(s, render, id);
      ev, s' := SendFrame(id, true), SendStep(s, id, true);
    }
  }

  lemma NextEvent(run: seq<Event>, render: Render, id: Req) returns (ev: Event)
    requires Completable(Run(run, render), id) && Run(run, render).requests[id].session.Some?
    ensures Helps(ev, id, Run(run, render).requests[id].pipe) && Progress(Run(run, render), Run(run + [ev], render), id)
  {
    Reachable(run, render);
    InvAt(Run(run, render), id, render);
    var s';
    ev, s' := NextHelp(Run(run, render), render, id);
    RunSnoc(run, ev, render);
  }

  /** The request has been answered, nothing lost, by the same job and writer. */
  ghost predicate Finished(s: State, s': State, id: Req)
    requires id in s.requests
  {
    && Completable(s', id) && s'.requests[id].session.None?
    && s'.requests[id].engine == s.requests[id].engine && s'.requests[id].streamed == s.requests[id].streamed
  }

  /** Such a request can be answered by its own job sending, the router receiving
      on its pipe and its writer taking, all succeeding; and it then still has lost
      nothing. */
  lemma CanFinish(run: seq<Event>, render: Render, id: Req) returns (more: seq<Event>)
    requires Completable(Run(run, render), id)
    ensures forall i :: 0 <= i < |more| ==> Helps(more[i], id, Run(run, render).requests[id].pipe)
    ensures Finished(Run(run, render), Run(run + more, render), id)
  {
    var start := Run(run, render).requests[id];
    var good := (r: seq<Event>) => SameJob(Run(r, render), id, start);
    var done := (r: seq<Event>) => AnsweredIn(Run(r, render), id);
    var helps := (ev: Event) => Helps(ev, id, start.pipe);
    var work := (r: seq<Event>) => WorkIn(Run(r, render), id);
    forall r: seq<Event> | good(r) && !done(r) ensures exists ev :: Advances(good, helps, work, r, ev) {
      var ev := NextEvent(r, render, id);
      assert Advances(good, helps, work, r, ev);
    }
    more := Descend(good, done, helps, work, run);
    assert good(run + more) && done(run + more);
    assert forall i :: 0 <= i < |more| ==> helps(more[i]);
  }

  ghost predicate SameJob(s: State, id: Req, start: Request) {
    && Completable(s, id)
    && s.requests[id].pipe == start.pipe && s.requests[id].engine == start.engine && s.requests[id].streamed == start.streamed
  }

  ghost predicate AnsweredIn(s: State, id: Req) {
    id in s.requests && s.requests[id].session.None?
  }

  ghost function WorkIn(s: State, id: Req): nat {
    if id in s.requests then Work(s, id) else 0
  }

  /** An answered request that lost nothing and failed no flush took all its
      frames. */
  lemma TookEverything(s: State, render: Render, id: Req)
    requires Inv(s, render) && Completable(s, id) && s.requests[id].session.None?
    ensures s.requests[id].taken == Frames(s.requests[id])
  {
    var r, l := s.requests[id], LaneOf(s, id);
    SoundStopsExactly(r, render);
    StoppedMeans(r);
    TerminalsCount(r.taken);
    var i :| 0 <= i < |r.taken| && IsTerminal(r.taken[i]);
    TerminalTaken(l, r.engine.value, i);
  }

  lemma TerminalTaken(l: Lane, p: Proxied, i: nat)
    requires Balanced(l) && FitsBuffer(p) && l.frames == JobFrames(p) && l.lost == []
    requires i < |l.taken| && IsTerminal(l.taken[i])
    ensures l.taken == l.frames
  {
    JobFramesAreTheBody(p);
    TakenIsOwn(l);
    TerminalIsLast(l.taken, l.frames, i);
    EndedPath(l, p);
  }

  lemma AnsweredStatus(r: Request, render: Render)
    requires Sound(r, render) && r.session.None?
    ensures r.taken != []
    ensures Audits(r.streamed, r.taken, r.flushes, render) == [if r.taken[|r.taken| - 1].ftype == FRAME_EOF then 200 else 502]
  {
    if !r.streamed {
      WritersAgree(r.taken, r.flushes, render);
    }
    StoppedStream(r.taken, r.flushes, render);
  }

  /** What its client then has: the status says how the engine ended, and on a clean
      end the whole body is there. */
  ghost predicate Served(r: Request, render: Render) {
    && r.engine.Some? && |r.flushes| == |r.taken|
    && Audits(r.streamed, r.taken, r.flushes, render) == [if EngineEnd(r.engine.value) == EndOfFile then 200 else 502]
    && (EngineEnd(r.engine.value) == EndOfFile ==> Delivered(r, render) == EngineBytes(r.engine.value))
  }

  lemma TookEverythingIsServed(r: Request, render: Render)
    requires Sound(r, render) && r.session.None? && r.engine.Some? && r.taken == Frames(r)
    requires EngineEnd(r.engine.value) != NoError
    ensures Served(r, render)
  {
    JobFramesAreTheBody(r.engine.value);
    AnsweredStatus(r, render);
    if EngineEnd(r.engine.value) == EndOfFile {
      SuccessfulWriter(r, render);
    }
  }

  lemma ReachedTheEnd(run: seq<Event>, render: Render, id: Req)
    requires Completable(Run(run, render), id) && Run(run, render).requests[id].session.None?
    ensures Served(Run(run, render).requests[id], render)
  {
    Reachable(run, render);
    TookEverything(Run(run, render), render, id);
    TookEverythingIsServed(Run(run, render).requests[id], render);
  }

  /** After every run, a started request that lost nothing, whose engine has ended
      and whose frames are within 16 MiB, can be served: there is a continuation in
      which only its own job sends, the router receives on its pipe and its own
      writer takes, after which its client has the answer. */
  lemma EveryLosslessRequestCanBeServed(run: seq<Event>, render: Render, id: Req) returns (more: seq<Event>)
    requires Completable(Run(run, render), id)
    ensures forall i :: 0 <= i < |more| ==> Helps(more[i], id, Run(run, render).requests[id].pipe)
    ensures Finished(Run(run, render), Run(run + more, render), id)
    ensures Served(Run(run + more, render).requests[id], render)
  {
    more := CanFinish(run, render, id);
    ReachedTheEnd(run + more, render, id);
  }

  /** An engine's frames are within the limit when its error text is. */
  lemma FramesFit(p: Proxied, i: nat)
    requires FitsBuffer(p) && i < |JobFrames(p)|
    requires EngineEnd(p).Failure? ==> |EngineEnd(p).msg| <= 0x100_0000
    ensures |JobFrames(p)[i].payload| <= 0x100_0000
  {
    JobFramesAreTheBody(p);
  }

  /** A request is dispatched and its job starts. */
  lemma Started(id: Req, body: seq<byte>, engine: Proxied, render: Render)
    requires DispatchId(id) && Plausible(engine)
    ensures var s := Run([Dispatch(id, 0, body, true, true), StartJob(0, engine)], render);
            id in s.requests && s.requests[id] == Request(0, true, Some([]), [], [], Some(engine), 0, [])
  {
    var e0, e1 := Dispatch(id, 0, body, true, true), StartJob(0, engine);
    RunSnoc([], e0, render);
    RunSnoc([e0], e1, render);
    assert [] + [e0] == [e0] && [e0] + [e1] == [e0, e1];
    AfterDispatch(id, body);
  }

  /** From nothing: a request dispatched to a worker whose engine ends, whatever its
      body, can be served in full. */
  lemma ServedFromScratch(id: Req, body: seq<byte>, engine: Proxied, render: Render) returns (more: seq<Event>)
    requires DispatchId(id) && Plausible(engine) && EngineEnd(engine) != NoError
    requires EngineEnd(engine).Failure? ==> |EngineEnd(engine).msg| <= 0x100_0000
    ensures forall i :: 0 <= i < |more| ==> Helps(more[i], id, 0)
    ensures var s := Run([Dispatch(id, 0, body, true, true), StartJob(0, engine)] + more, render);
            id in s.requests && s.requests[id].engine == Some(engine) && Served(s.requests[id], render)
  {
    var start := [Dispatch(id, 0, body, true, true), StartJob(0, engine)];
    Started(id, body, engine, render);
    forall i | 0 <= i < |JobFrames(engine)| ensures |JobFrames(engine)[i].payload| <= 0x100_0000 {
      FramesFit(engine, i);
    }
    more := EveryLosslessRequestCanBeServed(start, render, id);
  }
}
