/**
 Workers and router together: heartbeats and acks travel over per-connection
 pipes that are FIFO and may lose messages, workers run the machine of
 WorkerState and the router the one of Heartbeats. A run is any interleaving,
 with any number of workers, reconnections and revocations.
 */
module Fleet {
  import opened Seqs
  import R = Registry
  import W = WorkerState
  import H = Heartbeats

  type WorkerId = nat
  type Pipe = R.Pipe

  /** A heartbeat on its way, with its worker as it was when it was built. */
  datatype Sent = Sent(hb: H.Heartbeat, builder: Worker)

  /** A heartbeat the router has handled, with the ack it answered. */
  datatype Judged = Judged(sent: Sent, ack: W.Ack)

  /** One connection: what is in the two directions now, and the ledger of what
      was sent, judged, heard and lost on it. */
  datatype Link = Link(
    owner: WorkerId, up: seq<Sent>, down: seq<W.Ack>,
    sent: seq<Sent>, judged: seq<Judged>, heard: seq<W.Ack>, lostUp: nat, lostDown: nat)

  datatype Worker = Worker(
    nodeID: string, token: string, activeModel: string, pipe: Pipe,
    conn: W.State, history: seq<W.Event>, activeRequests: int, jobs: set<nat>)

  datatype State = State(router: H.State, workers: map<WorkerId, Worker>, links: map<Pipe, Link>)

  datatype Event =
    | RouterEvent(ev: H.Event)                     // tokens and the clock
    | Join(w: WorkerId, pipe: Pipe, nodeID: string, token: string, activeModel: string)
    | Reconnect(w: WorkerId, pipe: Pipe)
    | JobStart(w: WorkerId, job: nat)
    | JobEnd(w: WorkerId, job: nat)
    | Check(w: WorkerId)                           // checkDegraded
    | Beat(w: WorkerId, catalog: seq<string>)      // sendHeartbeat
    | Handle(pipe: Pipe, dbError: Option<string>, sendOk: bool)
    | Hear(w: WorkerId)                            // handleAck
    | LoseUp(pipe: Pipe, k: nat)
    | LoseDown(pipe: Pipe, k: nat)

  function ConnName(c: W.Conn): string {
    match c
    case Connecting => R.CONNECTING
    case Registered => "registered"
    case Degraded => R.DEGRADED
  }

  /** sendHeartbeat: the load is the counter at this moment, and an unset active
      model falls back to the first of the catalog. */
  function BuildHeartbeat(w: Worker, catalog: seq<string>): H.Heartbeat {
    H.Heartbeat(w.nodeID, w.token, ConnName(w.conn.conn),
                if w.activeModel == "" && catalog != [] then catalog[0] else w.activeModel, catalog, w.activeRequests)
  }

  /** One worker's step of its connection machine. */
  function Moved(w: Worker, interval: int, ev: W.Event): Worker {
    w.(conn := W.Step(w.conn, interval, ev), history := w.history + [ev])
  }

  function JoinStep(s: State, w: WorkerId, p: Pipe, nodeID: string, token: string, model: string): State {
    if w in s.workers || p in s.links then s
    else s.(workers := s.workers[w := Worker(nodeID, token, model, p, W.INIT, [], 0, {})],
            links := s.links[p := Link(w, [], [], [], [], [], 0, 0)])
  }

  /** A redial gets a fresh pipe; the worker's own state survives. */
  function ReconnectStep(s: State, w: WorkerId, p: Pipe): State {
    if w !in s.workers || p in s.links then s
    else s.(workers := s.workers[w := s.workers[w].(pipe := p)],
            links := s.links[p := Link(w, [], [], [], [], [], 0, 0)])
  }

  function WorkerStep(s: State, interval: int, ev: Event): State
    requires ev.JobStart? || ev.JobEnd? || ev.Check?
  {
    if ev.w !in s.workers then s
    else
      var w := s.workers[ev.w];
      var w' := match ev
                case JobStart(_, job) =>
                  if job in w.jobs then w else w.(activeRequests := w.activeRequests + 1, jobs := w.jobs + {job})
                case JobEnd(_, job) =>
                  if job !in w.jobs then w else w.(activeRequests := w.activeRequests - 1, jobs := w.jobs - {job})
                case Check(_) => Moved(w, interval, W.Check(s.router.clock));
      s.(workers := s.workers[ev.w := w'])
  }

  function BeatStep(s: State, w: WorkerId, catalog: seq<string>): State {
    if w !in s.workers || s.workers[w].pipe !in s.links then s
    else
      var worker := s.workers[w];
      var l, m := s.links[worker.pipe], Sent(BuildHeartbeat(worker, catalog), worker);
      s.(links := s.links[worker.pipe := l.(up := l.up + [m], sent := l.sent + [m])])
  }

  /** The router's receive loop on a heartbeat, and its one ack. */
  function HandleStep(s: State, parse: H.Parser, p: Pipe, dbError: Option<string>, sendOk: bool): State {
    if p !in s.links || s.links[p].up == [] then s
    else
      var l := s.links[p];
      var m := l.up[0];
      var ack := H.AckOf(H.VerdictAt(s.router, parse, Some(m.hb), dbError));
      s.(router := H.Step(s.router, parse, H.Beat(p, Some(m.hb), dbError)),
         links := s.links[p := l.(up := l.up[1..], judged := l.judged + [Judged(m, ack)],
                                  down := if sendOk then l.down + [ack] else l.down,
                                  lostDown := if sendOk then l.lostDown else l.lostDown + 1)])
  }

  function HearStep(s: State, interval: int, w: WorkerId): State {
    if w !in s.workers || s.workers[w].pipe !in s.links || s.links[s.workers[w].pipe].down == [] then s
    else
      var p := s.workers[w].pipe;
      var l := s.links[p];
      s.(workers := s.workers[w := Moved(s.workers[w], interval, W.AckIn(Some(l.down[0]), s.router.clock))],
         links := s.links[p := l.(down := l.down[1..], heard := l.heard + [l.down[0]])])
  }

  function LoseUpStep(s: State, p: Pipe, k: nat): State {
    if p !in s.links || k >= |s.links[p].up| then s
    else s.(links := s.links[p := s.links[p].(up := Without(s.links[p].up, k), lostUp := s.links[p].lostUp + 1)])
  }

  function LoseDownStep(s: State, p: Pipe, k: nat): State {
    if p !in s.links || k >= |s.links[p].down| then s
    else s.(links := s.links[p := s.links[p].(down := Without(s.links[p].down, k), lostDown := s.links[p].lostDown + 1)])
  }

  function Step(s: State, parse: H.Parser, interval: int, ev: Event): State {
    match ev
    case RouterEvent(e) => if e.Beat? then s else s.(router := H.Step(s.router, parse, e))
    case Join(w, p, nodeID, token, model) => JoinStep(s, w, p, nodeID, token, model)
    case Reconnect(w, p) => ReconnectStep(s, w, p)
    case JobStart(_, _) => WorkerStep(s, interval, ev)
    case JobEnd(_, _) => WorkerStep(s, interval, ev)
    case Check(_) => WorkerStep(s, interval, ev)
    case Beat(w, catalog) => BeatStep(s, w, catalog)
    case Handle(p, dbError, sendOk) => HandleStep(s, parse, p, dbError, sendOk)
    case Hear(w) => HearStep(s, interval, w)
    case LoseUp(p, k) => LoseUpStep(s, p, k)
    case LoseDown(p, k) => LoseDownStep(s, p, k)
  }

  ghost function Run(start: int, parse: H.Parser, interval: int, run: seq<Event>): State {
    if run == [] then State(H.Init(start), map[], map[])
    else Step(Run(start, parse, interval, run[..|run| - 1]), parse, interval, run[|run| - 1])
  }

  // ---------- one connection ----------

  function Beats(js: seq<Judged>): seq<Sent> {
    seq(|js|, i requires 0 <= i < |js| => js[i].sent)
  }

  function Acks(js: seq<Judged>): seq<W.Ack> {
    seq(|js|, i requires 0 <= i < |js| => js[i].ack)
  }

  /** Heartbeats are judged in the order sent, acks heard in the order given,
      each minus the counted losses; every heartbeat says who built it, in which
      state, with how many jobs running. */
  ghost predicate LinkInv(l: Link) {
    && IsSubseq(Beats(l.judged) + l.up, l.sent)
    && |l.judged| + |l.up| + l.lostUp == |l.sent|
    && IsSubseq(l.heard + l.down, Acks(l.judged))
    && |l.heard| + |l.down| + l.lostDown == |l.judged|
    && (forall i :: 0 <= i < |l.sent| ==> SpeaksFor(l.sent[i].hb, l.sent[i].builder))
  }

  /** The heartbeat carries the worker's node id, token and connection state, its
      active model or else the first of its catalog, and the number of its jobs. */
  ghost predicate SpeaksFor(hb: H.Heartbeat, w: Worker) {
    && hb.nodeID == w.nodeID && hb.enrollmentToken == w.token
    && (hb.connectionState == "connecting" <==> w.conn.conn == W.Connecting)
    && (hb.connectionState == "registered" <==> w.conn.conn == W.Registered)
    && (hb.connectionState == "degraded" <==> w.conn.conn == W.Degraded)
    && (w.activeModel != "" ==> hb.activeModel == w.activeModel)
    && (w.activeModel == "" ==> hb.activeModel == if hb.catalog != [] then hb.catalog[0] else "")
    && hb.activeRequests == |w.jobs|
  }

  lemma DropKeeps<T(!new)>(head: seq<T>, q: seq<T>, k: nat, all: seq<T>)
    requires k < |q| && IsSubseq(head + q, all)
    ensures IsSubseq(head + Without(q, k), all)
  {
    var x, y := head + q[..k], q[k + 1..];
    assert q == q[..k] + [q[k]] + y;
    assert head + q == x + [q[k]] + y && head + Without(q, k) == x + y;
    SubseqDelete(x, q[k], y);
    SubseqTrans(x + y, x + [q[k]] + y, all);
  }

  lemma BeatLink(l: Link, m: Sent)
    requires LinkInv(l) && SpeaksFor(m.hb, m.builder)
    ensures LinkInv(l.(up := l.up + [m], sent := l.sent + [m]))
  {
    SubseqAppend(Beats(l.judged) + l.up, l.sent, [m]);
    assert Beats(l.judged) + (l.up + [m]) == Beats(l.judged) + l.up + [m];
  }

  lemma HandleLink(l: Link, ack: W.Ack, sendOk: bool)
    requires LinkInv(l) && l.up != []
    ensures LinkInv(l.(up := l.up[1..], judged := l.judged + [Judged(l.up[0], ack)],
                       down := if sendOk then l.down + [ack] else l.down,
                       lostDown := if sendOk then l.lostDown else l.lostDown + 1))
  {
    var js := l.judged + [Judged(l.up[0], ack)];
    assert Beats(js) + l.up[1..] == Beats(l.judged) + l.up;
    assert Acks(js) == Acks(l.judged) + [ack];
    var h := l.heard + l.down;
    if sendOk {
      SubseqAppend(h, Acks(l.judged), [ack]);
      assert h + [ack] == l.heard + (l.down + [ack]);
    } else {
      SubseqDelete(Acks(l.judged), ack, []);
      assert Acks(l.judged) + [] == Acks(l.judged) && Acks(l.judged) + [ack] + [] == Acks(js);
      SubseqTrans(h, Acks(l.judged), Acks(js));
    }
  }

  lemma HearLink(l: Link)
    requires LinkInv(l) && l.down != []
    ensures LinkInv(l.(down := l.down[1..], heard := l.heard + [l.down[0]]))
  {
    assert l.heard + [l.down[0]] + l.down[1..] == l.heard + l.down;
  }

  lemma LoseUpLink(l: Link, k: nat)
    requires LinkInv(l) && k < |l.up|
    ensures LinkInv(l.(up := Without(l.up, k), lostUp := l.lostUp + 1))
  {
    DropKeeps(Beats(l.judged), l.up, k, l.sent);
  }

  lemma LoseDownLink(l: Link, k: nat)
    requires LinkInv(l) && k < |l.down|
    ensures LinkInv(l.(down := Without(l.down, k), lostDown := l.lostDown + 1))
  {
    DropKeeps(l.heard, l.down, k, Acks(l.judged));
  }

  lemma NewLink(w: WorkerId)
    ensures LinkInv(Link(w, [], [], [], [], [], 0, 0))
  {
  }

  // ---------- the invariant ----------

  ghost predicate LinksOk(s: State) {
    forall p :: p in s.links ==> LinkInv(s.links[p])
  }

  /** Some connection of worker w heard this ack. */
  ghost predicate HeardBy(s: State, w: WorkerId, a: W.Ack) {
    exists p :: p in s.links && s.links[p].owner == w && a in s.links[p].heard
  }

  /** The worker's state is its history, its counter its jobs, and every ack it
      acted on was heard on one of its own connections. */
  ghost predicate WorkerOk(s: State, interval: int, w: WorkerId)
    requires w in s.workers
  {
    var x := s.workers[w];
    && x.conn == W.Run(interval, x.history)
    && x.activeRequests == |x.jobs|
    && x.pipe in s.links && s.links[x.pipe].owner == w
    && (forall i :: 0 <= i < |x.history| && W.Decodes(x.history[i]) ==> HeardBy(s, w, x.history[i].ack.value))
  }

  ghost predicate WorkersOk(s: State, interval: int) {
    forall w :: w in s.workers ==> WorkerOk(s, interval, w)
  }

  /** Heartbeat k is the latest one accepted on a connection. */
  ghost predicate LatestAccepted(js: seq<Judged>, k: nat) {
    k < |js| && js[k].ack.ok && forall m :: k < m < |js| ==> !js[m].ack.ok
  }

  /** Heartbeat k handled on e's pipe is the latest accepted there; it was
      accepted as node e.id, and e shows its load. */
  ghost predicate LoadFrom(s: State, e: R.Entry, k: nat) {
    && e.pipe in s.links && LatestAccepted(s.links[e.pipe].judged, k)
    && var j := s.links[e.pipe].judged[k];
       j.ack.nodeID == e.id && j.sent.hb.activeRequests == e.activeRequests
  }

  ghost predicate LoadsOk(s: State) {
    forall id :: id in s.router.reg.byID ==> exists k: nat :: LoadFrom(s, s.router.reg.byID[id], k)
  }

  ghost predicate Inv(s: State, interval: int) {
    H.Inv(s.router) && LinksOk(s) && WorkersOk(s, interval) && LoadsOk(s)
  }

  /** Connections are kept, with their owner and what was heard and judged. */
  ghost predicate Extends(s: State, s': State) {
    forall p :: p in s.links ==>
      && p in s'.links && s'.links[p].owner == s.links[p].owner
      && s.links[p].heard <= s'.links[p].heard && s.links[p].judged <= s'.links[p].judged
  }

  lemma StillHeard(s: State, s': State, w: WorkerId, a: W.Ack)
    requires HeardBy(s, w, a) && Extends(s, s')
    ensures HeardBy(s', w, a)
  {
    var p :| p in s.links && s.links[p].owner == w && a in s.links[p].heard;
    var i :| 0 <= i < |s.links[p].heard| && s.links[p].heard[i] == a;
    assert s'.links[p].heard[i] == a;
  }

  /** A worker that did not step. */
  lemma WorkerStays(s: State, s': State, interval: int, w: WorkerId)
    requires w in s.workers && WorkerOk(s, interval, w) && Extends(s, s')
    requires w in s'.workers && s'.workers[w] == s.workers[w]
    ensures WorkerOk(s', interval, w)
  {
    var x := s.workers[w];
    forall i | 0 <= i < |x.history| && W.Decodes(x.history[i]) ensures HeardBy(s', w, x.history[i].ack.value) {
      StillHeard(s, s', w, x.history[i].ack.value);
    }
  }

  lemma WorkersStay(s: State, s': State, interval: int)
    requires WorkersOk(s, interval) && Extends(s, s') && s'.workers == s.workers
    ensures WorkersOk(s', interval)
  {
    forall w | w in s'.workers ensures WorkerOk(s', interval, w) {
      WorkerStays(s, s', interval, w);
    }
  }

  /** A worker that moved by one event of its machine. */
  lemma WorkerMoves(s: State, s': State, interval: int, w: WorkerId, ev: W.Event)
    requires w in s.workers && WorkerOk(s, interval, w) && Extends(s, s')
    requires w in s'.workers && s'.workers[w] == Moved(s.workers[w], interval, ev)
    requires W.Decodes(ev) ==> HeardBy(s', w, ev.ack.value)
    ensures WorkerOk(s', interval, w)
  {
    var x := s.workers[w];
    var h := x.history + [ev];
    assert h[..|h| - 1] == x.history;
    forall i | 0 <= i < |h| && W.Decodes(h[i]) ensures HeardBy(s', w, h[i].ack.value) {
      if i < |x.history| {
        StillHeard(s, s', w, x.history[i].ack.value);
      }
    }
  }

  /** Only worker w changed. */
  lemma OthersStay(s: State, s': State, interval: int, w: WorkerId)
    requires WorkersOk(s, interval) && Extends(s, s')
    requires w in s'.workers && WorkerOk(s', interval, w)
    requires forall v :: v in s'.workers && v != w ==> v in s.workers && s'.workers[v] == s.workers[v]
    ensures WorkersOk(s', interval)
  {
    forall v | v in s'.workers ensures WorkerOk(s', interval, v) {
      if v != w {
        WorkerStays(s, s', interval, v);
      }
    }
  }

  /** No heartbeat was handled. */
  ghost predicate SameVerdicts(s: State, s': State) {
    forall p :: p in s.links ==> p in s'.links && s'.links[p].judged == s.links[p].judged
  }

  lemma LoadsStay(s: State, s': State)
    requires LoadsOk(s) && SameVerdicts(s, s') && s'.router.reg == s.router.reg
    ensures LoadsOk(s')
  {
    forall id | id in s'.router.reg.byID ensures exists k: nat :: LoadFrom(s', s'.router.reg.byID[id], k) {
      var e := s.router.reg.byID[id];
      var k: nat :| LoadFrom(s, e, k);
      assert LoadFrom(s', e, k);
    }
  }

  lemma ExtendsOne(s: State, s': State, p: Pipe)
    requires p in s.links && p in s'.links && s'.links == s.links[p := s'.links[p]]
    requires s'.links[p].owner == s.links[p].owner
    requires s.links[p].heard <= s'.links[p].heard && s.links[p].judged <= s'.links[p].judged
    ensures Extends(s, s')
  {
  }

  // ---------- steps ----------

  lemma JoinKeeps(s: State, interval: int, w: WorkerId, p: Pipe, nodeID: string, token: string, model: string)
    requires Inv(s, interval)
    ensures Inv(JoinStep(s, w, p, nodeID, token, model), interval)
  {
    var s' := JoinStep(s, w, p, nodeID, token, model);
    if s' != s {
      NewLink(w);
      OthersStay(s, s', interval, w);
      LoadsStay(s, s');
    }
  }

  lemma ReconnectKeeps(s: State, interval: int, w: WorkerId, p: Pipe)
    requires Inv(s, interval)
    ensures Inv(ReconnectStep(s, w, p), interval)
  {
    if w !in s.workers || p in s.links {
      return;
    }
    var s' := ReconnectStep(s, w, p);
    NewLink(w);
    var x := s.workers[w];
    forall i | 0 <= i < |x.history| && W.Decodes(x.history[i]) ensures HeardBy(s', w, x.history[i].ack.value) {
      StillHeard(s, s', w, x.history[i].ack.value);
    }
    OthersStay(s, s', interval, w);
    LoadsStay(s, s');
  }

  /** A job started or ended. */
  lemma JobCounts(s: State, s': State, interval: int, w: WorkerId)
    requires w in s.workers && WorkerOk(s, interval, w) && Extends(s, s') && w in s'.workers
    requires s'.workers[w] == s.workers[w].(activeRequests := s'.workers[w].activeRequests, jobs := s'.workers[w].jobs)
    requires s'.workers[w].activeRequests == |s'.workers[w].jobs|
    ensures WorkerOk(s', interval, w)
  {
    var x := s.workers[w];
    forall i | 0 <= i < |x.history| && W.Decodes(x.history[i]) ensures HeardBy(s', w, x.history[i].ack.value) {
      StillHeard(s, s', w, x.history[i].ack.value);
    }
  }

  lemma OneWorkerKeeps(s: State, s': State, interval: int, w: WorkerId)
    requires Inv(s, interval) && w in s'.workers && WorkerOk(s', interval, w)
    requires s' == s.(workers := s.workers[w := s'.workers[w]])
    ensures Inv(s', interval)
  {
    OthersStay(s, s', interval, w);
    LoadsStay(s, s');
  }

  lemma WorkerKeeps(s: State, interval: int, ev: Event)
    requires Inv(s, interval) && (ev.JobStart? || ev.JobEnd? || ev.Check?)
    ensures Inv(WorkerStep(s, interval, ev), interval)
  {
    if ev.w !in s.workers {
      return;
    }
    var s', w := WorkerStep(s, interval, ev), s.workers[ev.w];
    if ev.Check? {
      WorkerMoves(s, s', interval, ev.w, W.Check(s.router.clock));
    } else {
      JobCounts(s, s', interval, ev.w);
    }
    OneWorkerKeeps(s, s', interval, ev.w);
  }

  lemma BuiltSpeaks(w: Worker, catalog: seq<string>)
    requires w.activeRequests == |w.jobs|
    ensures SpeaksFor(BuildHeartbeat(w, catalog), w)
  {
    assert "connecting"[0] != "registered"[0] && "connecting"[0] != "degraded"[0] && "registered"[0] != "degraded"[0];
  }

  lemma BeatKeeps(s: State, interval: int, w: WorkerId, catalog: seq<string>)
    requires Inv(s, interval)
    ensures Inv(BeatStep(s, w, catalog), interval)
  {
    if w !in s.workers {
      return;
    }
    assert WorkerOk(s, interval, w);
    BuiltSpeaks(s.workers[w], catalog);
    var s', p := BeatStep(s, w, catalog), s.workers[w].pipe;
    BeatLink(s.links[p], Sent(BuildHeartbeat(s.workers[w], catalog), s.workers[w]));
    ExtendsOne(s, s', p);
    WorkersStay(s, s', interval);
    LoadsStay(s, s');
  }

  lemma HearKeeps(s: State, interval: int, w: WorkerId)
    requires Inv(s, interval)
    ensures Inv(HearStep(s, interval, w), interval)
  {
    if w !in s.workers || s.links[s.workers[w].pipe].down == [] {
      return;
    }
    assert WorkerOk(s, interval, w);
    var s', p := HearStep(s, interval, w), s.workers[w].pipe;
    var l := s.links[p];
    HearLink(l);
    ExtendsOne(s, s', p);
    assert s'.links[p].heard[|l.heard|] == l.down[0];
    assert HeardBy(s', w, l.down[0]);
    WorkerMoves(s, s', interval, w, W.AckIn(Some(l.down[0]), s.router.clock));
    OthersStay(s, s', interval, w);
    LoadsStay(s, s');
  }

  /** A rejected heartbeat leaves the latest accepted one where it was. */
  lemma RejectionKeepsLatest(js: seq<Judged>, j: Judged, k: nat)
    requires LatestAccepted(js, k) && !j.ack.ok
    ensures LatestAccepted(js + [j], k) && (js + [j])[k] == js[k]
  {
  }

  /** The load of an entry, whatever was handled on other pipes, or rejected. */
  lemma LoadKept(s: State, s': State, p: Pipe, j: Judged, e: R.Entry)
    requires p in s.links && p in s'.links && s'.links == s.links[p := s'.links[p]]
    requires s'.links[p].judged == s.links[p].judged + [j] && (e.pipe != p || !j.ack.ok)
    requires exists k: nat :: LoadFrom(s, e, k)
    ensures exists k: nat :: LoadFrom(s', e, k)
  {
    var k: nat :| LoadFrom(s, e, k);
    if e.pipe == p {
      RejectionKeepsLatest(s.links[p].judged, j, k);
    }
    assert LoadFrom(s', e, k);
  }

  /** An acceptance retires whoever else was on this pipe. */
  lemma AcceptedLoads(s: State, s': State, p: Pipe, j: Judged, e: R.Entry)
    requires R.Inv(s.router.reg) && LoadsOk(s) && s'.router.reg == R.Upsert(s.router.reg, e)
    requires p in s.links && p in s'.links && s'.links == s.links[p := s'.links[p]]
    requires s'.links[p].judged == s.links[p].judged + [j]
    requires e.pipe == p && j.ack.ok && j.ack.nodeID == e.id && j.sent.hb.activeRequests == e.activeRequests
    ensures LoadsOk(s')
  {
    R.RetireKeeps(s.router.reg, e);
    forall id | id in s'.router.reg.byID ensures exists k: nat :: LoadFrom(s', s'.router.reg.byID[id], k) {
      if id == e.id {
        assert LoadFrom(s', s'.router.reg.byID[id], |s.links[p].judged|);
      } else {
        LoadKept(s, s', p, j, s.router.reg.byID[id]);
      }
    }
  }

  lemma RejectedLoads(s: State, s': State, p: Pipe, j: Judged)
    requires LoadsOk(s) && s'.router.reg == s.router.reg && !j.ack.ok
    requires p in s.links && p in s'.links && s'.links == s.links[p := s'.links[p]]
    requires s'.links[p].judged == s.links[p].judged + [j]
    ensures LoadsOk(s')
  {
    forall id | id in s'.router.reg.byID ensures exists k: nat :: LoadFrom(s', s'.router.reg.byID[id], k) {
      LoadKept(s, s', p, j, s.router.reg.byID[id]);
    }
  }

  /** After a handled heartbeat every registered load still has its source. */
  lemma HandleLoads(s: State, parse: H.Parser, p: Pipe, dbError: Option<string>, sendOk: bool)
    requires H.Inv(s.router) && LoadsOk(s) && p in s.links && s.links[p].up != []
    ensures LoadsOk(HandleStep(s, parse, p, dbError, sendOk))
  {
    var s', m := HandleStep(s, parse, p, dbError, sendOk), s.links[p].up[0];
    var v := H.VerdictAt(s.router, parse, Some(m.hb), dbError);
    if v.Accepted? {
      AcceptedLoads(s, s', p, Judged(m, H.AckOf(v)), H.EntryOf(m.hb, v.enr, p, s.router.clock));
    } else {
      RejectedLoads(s, s', p, Judged(m, H.AckOf(v)));
    }
  }

  lemma HandleKeeps(s: State, parse: H.Parser, interval: int, p: Pipe, dbError: Option<string>, sendOk: bool)
    requires Inv(s, interval)
    ensures Inv(HandleStep(s, parse, p, dbError, sendOk), interval)
  {
    if p !in s.links || s.links[p].up == [] {
      return;
    }
    H.StepKeeps(s.router, parse, H.Beat(p, Some(s.links[p].up[0].hb), dbError));
    HandleConnections(s, parse, interval, p, dbError, sendOk);
    HandleLoads(s, parse, p, dbError, sendOk);
  }

  lemma HandleConnections(s: State, parse: H.Parser, interval: int, p: Pipe, dbError: Option<string>, sendOk: bool)
    requires LinksOk(s) && WorkersOk(s, interval) && p in s.links && s.links[p].up != []
    ensures var s' := HandleStep(s, parse, p, dbError, sendOk); LinksOk(s') && WorkersOk(s', interval)
  {
    var s', m := HandleStep(s, parse, p, dbError, sendOk), s.links[p].up[0];
    HandleLink(s.links[p], H.AckOf(H.VerdictAt(s.router, parse, Some(m.hb), dbError)), sendOk);
    ExtendsOne(s, s', p);
    WorkersStay(s, s', interval);
  }

  lemma LinkOnlyKeeps(s: State, s': State, interval: int, p: Pipe)
    requires Inv(s, interval) && s'.router == s.router && s'.workers == s.workers
    requires p in s.links && p in s'.links && s'.links == s.links[p := s'.links[p]] && LinkInv(s'.links[p])
    requires s'.links[p].owner == s.links[p].owner
    requires s'.links[p].heard == s.links[p].heard && s'.links[p].judged == s.links[p].judged
    ensures Inv(s', interval)
  {
    ExtendsOne(s, s', p);
    WorkersStay(s, s', interval);
    LoadsStay(s, s');
  }

  lemma RouterKeeps(s: State, parse: H.Parser, interval: int, ev: H.Event)
    requires Inv(s, interval) && !ev.Beat?
    ensures Inv(s.(router := H.Step(s.router, parse, ev)), interval)
  {
    var s' := s.(router := H.Step(s.router, parse, ev));
    H.StepKeeps(s.router, parse, ev);
    WorkersStay(s, s', interval);
    LoadsStay(s, s');
  }

  lemma StepKeeps(s: State, parse: H.Parser, interval: int, ev: Event)
    requires Inv(s, interval)
    ensures Inv(Step(s, parse, interval, ev), interval)
  {
    match ev
    case RouterEvent(e) => if !e.Beat? { RouterKeeps(s, parse, interval, e); }
    case Join(w, p, nodeID, token, model) => JoinKeeps(s, interval, w, p, nodeID, token, model);
    case Reconnect(w, p) => ReconnectKeeps(s, interval, w, p);
    case JobStart(_, _) => WorkerKeeps(s, interval, ev);
    case JobEnd(_, _) => WorkerKeeps(s, interval, ev);
    case Check(_) => WorkerKeeps(s, interval, ev);
    case Beat(w, catalog) => BeatKeeps(s, interval, w, catalog);
    case Handle(p, dbError, sendOk) => HandleKeeps(s, parse, interval, p, dbError, sendOk);
    case Hear(w) => HearKeeps(s, interval, w);
    case LoseUp(p, k) => LoseUpKeeps(s, interval, p, k);
    case LoseDown(p, k) => LoseDownKeeps(s, interval, p, k);
  }

  lemma LoseUpKeeps(s: State, interval: int, p: Pipe, k: nat)
    requires Inv(s, interval)
    ensures Inv(LoseUpStep(s, p, k), interval)
  {
    if p in s.links && k < |s.links[p].up| {
      LoseUpLink(s.links[p], k);
      LinkOnlyKeeps(s, LoseUpStep(s, p, k), interval, p);
    }
  }

  lemma LoseDownKeeps(s: State, interval: int, p: Pipe, k: nat)
    requires Inv(s, interval)
    ensures Inv(LoseDownStep(s, p, k), interval)
  {
    if p in s.links && k < |s.links[p].down| {
      LoseDownLink(s.links[p], k);
      LinkOnlyKeeps(s, LoseDownStep(s, p, k), interval, p);
    }
  }

  lemma {:induction false} Reachable(start: int, parse: H.Parser, interval: int, run: seq<Event>)
    ensures Inv(Run(start, parse, interval, run), interval)
  {
    if run == [] {
      assert H.Run(start, parse, []) == H.Init(start);
      H.Reachable(start, parse, []);
    } else {
      Reachable(start, parse, interval, run[..|run| - 1]);
      StepKeeps(Run(start, parse, interval, run[..|run| - 1]), parse, interval, run[|run| - 1]);
    }
  }

  // ---------- what holds in every run ----------

  lemma PrefixIfWhole<T(!new)>(a: seq<T>, b: seq<T>, all: seq<T>)
    requires IsSubseq(a + b, all) && |a| + |b| == |all|
    ensures a + b == all && a <= all
  {
    SubseqLength(a + b, all);
    assert a == (a + b)[..|a|];
  }

  /** Verdict agreement: over a connection that has lost nothing, the heartbeats
      the router judged are a prefix of those sent, and the verdicts the worker
      has heard are a prefix of the router's; so the k-th ack heard is the verdict
      on the k-th heartbeat sent. With losses both are still in order. */
  lemma VerdictAgreement(start: int, parse: H.Parser, interval: int, run: seq<Event>, p: Pipe)
    requires p in Run(start, parse, interval, run).links
    ensures var l := Run(start, parse, interval, run).links[p];
            && IsSubseq(l.heard + l.down, Acks(l.judged))
            && IsSubseq(Beats(l.judged) + l.up, l.sent)
            && (l.lostDown == 0 ==> l.heard <= Acks(l.judged))
            && (l.lostUp == 0 ==> Beats(l.judged) <= l.sent)
            && (l.lostDown == 0 && l.lostUp == 0 ==>
                  forall k :: 0 <= k < |l.heard| ==>
                    k < |l.judged| && k < |l.sent| && l.judged[k] == Judged(l.sent[k], l.heard[k]))
  {
    Reachable(start, parse, interval, run);
    var l := Run(start, parse, interval, run).links[p];
    if l.lostDown == 0 {
      PrefixIfWhole(l.heard, l.down, Acks(l.judged));
    }
    if l.lostUp == 0 {
      PrefixIfWhole(Beats(l.judged), l.up, l.sent);
    }
    if l.lostDown == 0 && l.lostUp == 0 {
      forall k | 0 <= k < |l.heard| ensures k < |l.judged| && k < |l.sent| && l.judged[k] == Judged(l.sent[k], l.heard[k]) {
        assert Acks(l.judged)[k] == l.heard[k] && Beats(l.judged)[k] == l.sent[k];
      }
    }
  }

  /** A worker that calls itself registered or degraded has an accepted heartbeat
      behind it: the router answered OK on one of its own connections. This needs
      no assumption about losses. */
  lemma RegisteredWorkersWereAccepted(start: int, parse: H.Parser, interval: int, run: seq<Event>, w: WorkerId)
    requires w in Run(start, parse, interval, run).workers
    requires Run(start, parse, interval, run).workers[w].conn.conn != W.Connecting
    ensures var s := Run(start, parse, interval, run);
            exists p, k :: p in s.links && s.links[p].owner == w && 0 <= k < |s.links[p].judged| && s.links[p].judged[k].ack.ok
  {
    Reachable(start, parse, interval, run);
    var s := Run(start, parse, interval, run);
    var a := AcceptedAck(s, interval, w);
    var p :| p in s.links && s.links[p].owner == w && a in s.links[p].heard;
    var k := HeardWasJudged(s.links[p], a);
    assert s.links[p].judged[k].ack.ok;
  }

  /** The acceptance such a worker acted on. */
  lemma AcceptedAck(s: State, interval: int, w: WorkerId) returns (a: W.Ack)
    requires w in s.workers && WorkerOk(s, interval, w) && s.workers[w].conn.conn != W.Connecting
    ensures a.ok && HeardBy(s, w, a)
  {
    var x := s.workers[w];
    W.StateOverAllRuns(interval, x.history);
    var i: nat :| W.LastDecoded(x.history, i) && W.Accepts(x.history[i]);
    a := x.history[i].ack.value;
  }

  lemma HeardWasJudged(l: Link, a: W.Ack) returns (k: nat)
    requires LinkInv(l) && a in l.heard
    ensures k < |l.judged| && l.judged[k].ack == a
  {
    assert a in l.heard + l.down;
    SubseqMember(l.heard + l.down, Acks(l.judged), a);
    k :| 0 <= k < |Acks(l.judged)| && Acks(l.judged)[k] == a;
  }

  /** A handled heartbeat carried the number of jobs its worker was running. */
  lemma JudgedLoad(l: Link, k: nat)
    requires LinkInv(l) && k < |l.judged|
    ensures SpeaksFor(l.judged[k].sent.hb, l.judged[k].sent.builder)
  {
    assert Beats(l.judged)[k] == l.judged[k].sent;
    assert l.judged[k].sent in Beats(l.judged) + l.up;
    SubseqMember(Beats(l.judged) + l.up, l.sent, l.judged[k].sent);
  }

  /** The load compared by selection is real: it is the number of jobs the worker
      was running when it built the heartbeat behind the entry, the latest one the
      router accepted on that pipe, acknowledged under the selected id. */
  lemma SelectedLoadIsReal(start: int, parse: H.Parser, interval: int, run: seq<Event>, t: int, staleAfter: int)
    ensures var s := Run(start, parse, interval, run);
            R.Listed(s.router.reg) &&
            match R.Select(s.router.reg, t, staleAfter)
            case None => true
            case Some(e) =>
              && e.pipe in s.links
              && var js := s.links[e.pipe].judged;
                 exists k: nat :: LatestAccepted(js, k) && js[k].ack.nodeID == e.id && e.activeRequests == |js[k].sent.builder.jobs|
  {
    Reachable(start, parse, interval, run);
    var s := Run(start, parse, interval, run);
    var reg := s.router.reg;
    assert forall i :: 0 <= i < |reg.order| ==> reg.order[i] in Elements(reg.order);
    if R.Select(reg, t, staleAfter).Some? {
      R.SelectedIsFresh(reg, t, staleAfter);
      var e := R.Select(reg, t, staleAfter).value;
      var id :| id in reg.byID && reg.byID[id] == e;
      var k: nat :| LoadFrom(s, e, k);
      JudgedLoad(s.links[e.pipe], k);
    }
  }

  /** A job that starts is counted, and no longer once it has ended. */
  lemma JobsAreCounted(s: State, parse: H.Parser, interval: int, w: WorkerId, job: nat)
    requires w in s.workers && job !in s.workers[w].jobs
    ensures var s1 := Step(s, parse, interval, JobStart(w, job));
            && w in s1.workers && s1.workers[w].jobs == s.workers[w].jobs + {job}
            && s1.workers[w].activeRequests == s.workers[w].activeRequests + 1
            && Step(s1, parse, interval, JobEnd(w, job)) == s
  {
    var s1 := Step(s, parse, interval, JobStart(w, job));
    assert s.workers[w].jobs + {job} - {job} == s.workers[w].jobs;
    assert s1.workers[w := s.workers[w]] == s.workers;
  }

  /** The heartbeat alone is on its way. */
  lemma BeatSent(s: State, w: WorkerId, catalog: seq<string>, p: Pipe)
    requires w in s.workers && s.workers[w].pipe == p && p in s.links && s.links[p].up == [] && s.links[p].down == []
    ensures var s1 := BeatStep(s, w, catalog);
            && s1.router == s.router && s1.workers == s.workers && p in s1.links
            && s1.links[p].up == [Sent(BuildHeartbeat(s.workers[w], catalog), s.workers[w])] && s1.links[p].down == []
  {
  }

  /** It is judged, and its ack alone is on its way back. */
  lemma BeatAccepted(s: State, parse: H.Parser, p: Pipe, m: Sent, enr: H.Enrollment)
    requires p in s.links && s.links[p].up == [m] && s.links[p].down == []
    requires parse(m.hb.enrollmentToken, s.router.clock) == H.GoodToken(enr) && H.IsActive(s.router.tokens, enr.id, s.router.clock)
    ensures var s2 := HandleStep(s, parse, p, None, true);
            && s2.workers == s.workers && s2.router.clock == s.router.clock && p in s2.links
            && s2.links[p].down == [W.Ack(true, "", "", enr.nodeName)]
            && s2.router.reg == R.Upsert(s.router.reg, H.EntryOf(m.hb, enr, p, s.router.clock))
  {
    assert H.VerdictAt(s.router, parse, Some(m.hb), None) == H.Accepted(enr);
  }

  lemma AckHeard(s: State, interval: int, w: WorkerId, p: Pipe, nodeID: string)
    requires w in s.workers && s.workers[w].pipe == p && p in s.links && s.links[p].down == [W.Ack(true, "", "", nodeID)]
    ensures var s3 := HearStep(s, interval, w);
            && s3.router == s.router && w in s3.workers
            && s3.workers[w].conn.conn == W.Registered && s3.workers[w].conn.lastAck == Some(s.router.clock)
  {
  }

  /** Registration works: over an idle connection, a heartbeat whose token is active,
      handled and answered, leaves the worker registered and the router with an
      entry under the token's subject that shows this worker on this pipe. */
  lemma HandshakeRegisters(s: State, parse: H.Parser, interval: int, w: WorkerId, catalog: seq<string>, enr: H.Enrollment)
    requires w in s.workers && s.workers[w].pipe in s.links && s.workers[w].activeRequests == |s.workers[w].jobs|
    requires s.links[s.workers[w].pipe].up == [] && s.links[s.workers[w].pipe].down == []
    requires parse(s.workers[w].token, s.router.clock) == H.GoodToken(enr) && H.IsActive(s.router.tokens, enr.id, s.router.clock)
    ensures var x := s.workers[w];
            var s3 := HearStep(HandleStep(BeatStep(s, w, catalog), parse, x.pipe, None, true), interval, w);
            && w in s3.workers && s3.workers[w].conn.conn == W.Registered && s3.workers[w].conn.lastAck == Some(s.router.clock)
            && enr.nodeName in s3.router.reg.byID
            && var e := s3.router.reg.byID[enr.nodeName];
               && e.tokenID == enr.id && e.pipe == x.pipe && e.lastSeen == s.router.clock
               && e.catalog == catalog && e.activeRequests == |x.jobs|
  {
    var p, m := s.workers[w].pipe, Sent(BuildHeartbeat(s.workers[w], catalog), s.workers[w]);
    BeatSent(s, w, catalog, p);
    var s1 := BeatStep(s, w, catalog);
    BeatAccepted(s1, parse, p, m, enr);
    var s2 := HandleStep(s1, parse, p, None, true);
    AckHeard(s2, interval, w, p, enr.nodeName);
  }
}
