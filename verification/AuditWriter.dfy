/**
 The asynchronous audit writer of internal/audit/repo.go: a bounded queue that
 drops when full, a writer loop that batches and flushes transactionally, and a
 Close that drains. The Go select picks freely among its ready cases, so a run
 is any sequence of the events below; an event that is not ready changes nothing.
 */
module AuditWriter {
  import opened Seqs

  const BATCH_SIZE: nat := 64

  datatype Entry = Entry(
    apiKeyID: string, nodeID: string, modelRequested: string, modelServed: string,
    totalDurationMs: int, wasStreamed: bool, statusCode: int)

  datatype Phase = Running | Draining | Stopped

  /** One call of insertBatch and whether its transaction committed. */
  datatype Flush = Flush(batch: seq<Entry>, committed: bool)

  /** The last three fields are a ledger kept for the statements below. */
  datatype State = State(
    depth: nat, queue: seq<Entry>, batch: seq<Entry>, rows: seq<Entry>, phase: Phase, cancelled: bool,
    accepted: seq<Entry>, acceptedAtCancel: nat, flushes: seq<Flush>)

  function Init(depth: nat): State {
    State(depth, [], [], [], Running, false, [], 0, [])
  }

  datatype Event =
    | Record(entry: Entry)
    | Handoff(entry: Entry, commits: bool) // Record meets a writer blocked on an empty channel
    | Receive(commits: bool)
    | Tick(commits: bool)
    | Cancel
    | SeeCancel
    | DrainOne
    | Finish(commits: bool)

  function FlushStep(s: State, commits: bool): State {
    if s.batch == [] then s
    else s.(batch := [],
            rows := if commits then s.rows + s.batch else s.rows,
            flushes := s.flushes + [Flush(s.batch, commits)])
  }

  function TakeStep(s: State, e: Entry, commits: bool): State {
    var s' := s.(batch := s.batch + [e]);
    if |s'.batch| >= BATCH_SIZE then FlushStep(s', commits) else s'
  }

  function Step(s: State, ev: Event): State {
    match ev
    case Record(e) =>
      if |s.queue| < s.depth then s.(queue := s.queue + [e], accepted := s.accepted + [e]) else s
    case Handoff(e, ok) =>
      if s.phase.Running? && s.queue == [] then TakeStep(s.(accepted := s.accepted + [e]), e, ok) else s
    case Receive(ok) =>
      if s.phase.Running? && s.queue != [] then TakeStep(s.(queue := s.queue[1..]), s.queue[0], ok) else s
    case Tick(ok) =>
      if s.phase.Running? then FlushStep(s, ok) else s
    case Cancel =>
      if s.cancelled then s else s.(cancelled := true, acceptedAtCancel := |s.accepted|)
    case SeeCancel =>
      if s.phase.Running? && s.cancelled then s.(phase := Draining) else s
    case DrainOne =>
      if s.phase.Draining? && s.queue != [] then s.(queue := s.queue[1..], batch := s.batch + [s.queue[0]]) else s
    case Finish(ok) =>
      if s.phase.Draining? && s.queue == [] then FlushStep(s, ok).(phase := Stopped) else s
  }

  ghost function Run(s: State, run: seq<Event>): State {
    if run == [] then s else Step(Run(s, run[..|run| - 1]), run[|run| - 1])
  }

  // ---------- the writer as code ----------

  class Repo {
    const depth: nat
    var queue: seq<Entry>
    var batch: seq<Entry>
    var rows: seq<Entry>
    var phase: Phase
    var cancelled: bool
    ghost var accepted: seq<Entry>
    ghost var acceptedAtCancel: nat
    ghost var flushes: seq<Flush>

    constructor (depth: nat)
      ensures View() == Init(depth)
    {
      this.depth := depth;
      queue, batch, rows, phase, cancelled := [], [], [], Running, false;
      accepted, acceptedAtCancel, flushes := [], 0, [];
    }

    ghost function View(): State
      reads this
    {
      State(depth, queue, batch, rows, phase, cancelled, accepted, acceptedAtCancel, flushes)
    }

    /** Record never blocks: a full buffer drops the entry. */
    method Record(e: Entry) returns (kept: bool)
      modifies this
      ensures View() == Step(old(View()), Event.Record(e))
      ensures kept <==> old(|queue|) < depth
      ensures queue == if kept then old(queue) + [e] else old(queue)
      ensures accepted == if kept then old(accepted) + [e] else old(accepted)
      ensures batch == old(batch) && rows == old(rows)
    {
      kept := |queue| < depth;
      if kept {
        queue := queue + [e];
        accepted := accepted + [e];
      }
    }

    /** insertBatch: begin, prepare, one insert per entry, commit; `budget`
        operations succeed before one fails. All rows appear or none does. */
    method InsertBatch(entries: seq<Entry>, budget: nat) returns (ok: bool)
      modifies this`rows
      ensures ok <==> budget >= |entries| + 3
      ensures rows == if ok then old(rows) + entries else old(rows)
    {
      if budget < 2 {
        return false; // begin or prepare
      }
      var tx := rows;
      for i := 0 to |entries|
        invariant i <= budget - 2 && tx == rows + entries[..i]
      {
        if i == budget - 2 {
          return false; // rollback
        }
        tx := tx + [entries[i]];
      }
      assert entries[..|entries|] == entries;
      if budget - 2 == |entries| {
        return false; // commit
      }
      rows := tx;
      ok := true;
    }

    /** flush: a failed insert is logged and the batch is forgotten. */
    method FlushBatch(budget: nat) returns (ghost commits: bool)
      modifies this
      ensures commits <==> budget >= |old(batch)| + 3
      ensures View() == FlushStep(old(View()), commits)
      ensures batch == [] && queue == old(queue) && accepted == old(accepted)
      ensures rows == if commits then old(rows) + old(batch) else old(rows)
    {
      commits := budget >= |batch| + 3;
      if |batch| == 0 {
        return;
      }
      var ok := InsertBatch(batch, budget);
      flushes := flushes + [Flush(batch, ok)];
      batch := [];
    }

    /** The writer's receive case. */
    method ReceiveOne(budget: nat)
      modifies this
      ensures View() == Step(old(View()), Receive(budget >= |old(batch)| + 1 + 3))
      ensures phase.Running? && old(queue) != [] ==>
                && queue == old(queue)[1..]
                && (|old(batch)| + 1 < 64 ==> batch == old(batch) + [old(queue)[0]] && rows == old(rows))
                && (|old(batch)| + 1 >= 64 ==>
                      && batch == []
                      && (budget >= |old(batch)| + 4 ==> rows == old(rows) + (old(batch) + [old(queue)[0]])))
    {
      if !phase.Running? || |queue| == 0 {
        return;
      }
      var e := queue[0];
      queue := queue[1..];
      batch := batch + [e];
      if |batch| >= BATCH_SIZE {
        ghost var _ := FlushBatch(budget);
      }
    }

    method OnTick(budget: nat)
      modifies this
      ensures View() == Step(old(View()), Tick(budget >= |old(batch)| + 3))
      ensures phase.Running? ==> batch == [] && (budget >= |old(batch)| + 3 ==> rows == old(rows) + old(batch))
    {
      if phase.Running? {
        ghost var _ := FlushBatch(budget);
      }
    }

    /** The cancelled branch with no Record in between: drain, flush, return. */
    method Drain(budget: nat)
      requires phase.Running? && cancelled
      modifies this
      ensures var s := old(View());
              View() == FlushStep(s.(queue := [], batch := s.batch + s.queue), budget >= |s.batch + s.queue| + 3).(phase := Stopped)
      ensures phase.Stopped? && queue == [] && batch == []
      ensures rows == if budget >= |old(batch + queue)| + 3 then old(rows) + old(batch + queue) else old(rows)
    {
      phase := Draining;
      while |queue| > 0
        invariant batch + queue == old(batch + queue)
        invariant View() == old(View()).(queue := queue, batch := batch, phase := Draining)
        decreases |queue|
      {
        batch := batch + [queue[0]];
        queue := queue[1..];
      }
      assert batch == old(batch + queue);
      ghost var _ := FlushBatch(budget);
      phase := Stopped;
    }
  }

  // ---------- every run ----------

  ghost function Batches(fs: seq<Flush>): seq<seq<Entry>> {
    if fs == [] then [] else Batches(fs[..|fs| - 1]) + [fs[|fs| - 1].batch]
  }

  ghost function CommittedBatches(fs: seq<Flush>): seq<seq<Entry>> {
    if fs == [] then []
    else
      var last := fs[|fs| - 1];
      CommittedBatches(fs[..|fs| - 1]) + if last.committed then [last.batch] else []
  }

  /** Everything handed to insertBatch so far, in order. */
  ghost function Flushed(s: State): seq<Entry> {
    Flatten(Batches(s.flushes))
  }

  ghost predicate Conserved(s: State) {
    && s.accepted == Flushed(s) + s.batch + s.queue
    && s.rows == Flatten(CommittedBatches(s.flushes))
  }

  ghost predicate Bounded(s: State) {
    && |s.queue| <= s.depth
    && (s.phase.Running? ==> |s.batch| < BATCH_SIZE)
    && (forall i :: 0 <= i < |s.flushes| ==> s.flushes[i].batch != [])
    && (!s.phase.Stopped? ==> forall i :: 0 <= i < |s.flushes| ==> |s.flushes[i].batch| <= BATCH_SIZE)
  }

  ghost predicate Drained(s: State) {
    && (s.cancelled ==> s.acceptedAtCancel <= |s.accepted|)
    && (s.phase.Draining? ==> s.cancelled)
    && (s.phase.Stopped? ==> s.cancelled && s.batch == [] && s.acceptedAtCancel <= |Flushed(s)|)
  }

  lemma FlushConserves(s: State, commits: bool)
    requires Conserved(s)
    ensures Conserved(FlushStep(s, commits))
    ensures Flushed(FlushStep(s, commits)) == Flushed(s) + s.batch
  {
    if s.batch != [] {
      var fs, f := s.flushes, Flush(s.batch, commits);
      assert (fs + [f])[..|fs|] == fs;
      FlattenSnoc(Batches(fs), s.batch);
      FlattenSnoc(CommittedBatches(fs), s.batch);
      assert CommittedBatches(fs) + [] == CommittedBatches(fs);
    }
  }

  lemma TakeConserves(s: State, e: Entry, commits: bool)
    requires s.accepted == Flushed(s) + s.batch + [e] + s.queue
    requires s.rows == Flatten(CommittedBatches(s.flushes))
    ensures Conserved(TakeStep(s, e, commits))
  {
    var s' := s.(batch := s.batch + [e]);
    assert Conserved(s') by {
      assert Flushed(s) + s.batch + [e] == Flushed(s) + (s.batch + [e]);
    }
    FlushConserves(s', commits);
  }

  lemma RecordConserves(s: State, e: Entry)
    requires Conserved(s)
    ensures Conserved(Step(s, Record(e)))
  {
    assert Flushed(s) + s.batch + (s.queue + [e]) == Flushed(s) + s.batch + s.queue + [e];
  }

  lemma HandoffConserves(s: State, e: Entry, ok: bool)
    requires Conserved(s)
    ensures Conserved(Step(s, Handoff(e, ok)))
  {
    if s.phase.Running? && s.queue == [] {
      TakeConserves(s.(accepted := s.accepted + [e]), e, ok);
    }
  }

  lemma ReceiveConserves(s: State, ok: bool)
    requires Conserved(s)
    ensures Conserved(Step(s, Receive(ok)))
  {
    if s.phase.Running? && s.queue != [] {
      assert s.queue == [s.queue[0]] + s.queue[1..];
      TakeConserves(s.(queue := s.queue[1..]), s.queue[0], ok);
    }
  }

  lemma DrainOneConserves(s: State)
    requires Conserved(s)
    ensures Conserved(Step(s, DrainOne))
  {
    if s.phase.Draining? && s.queue != [] {
      assert s.queue == [s.queue[0]] + s.queue[1..];
      assert Flushed(s) + (s.batch + [s.queue[0]]) + s.queue[1..] == Flushed(s) + s.batch + s.queue;
    }
  }

  lemma FinishConserves(s: State, ok: bool)
    requires Conserved(s)
    ensures Conserved(Step(s, Finish(ok)))
  {
    FlushConserves(s, ok);
  }

  lemma StepConserves(s: State, ev: Event)
    requires Conserved(s)
    ensures Conserved(Step(s, ev))
  {
    match ev
    case Record(e) => RecordConserves(s, e);
    case Handoff(e, ok) => HandoffConserves(s, e, ok);
    case Receive(ok) => ReceiveConserves(s, ok);
    case Tick(ok) => FlushConserves(s, ok);
    case Cancel =>
    case SeeCancel =>
    case DrainOne => DrainOneConserves(s);
    case Finish(ok) => FinishConserves(s, ok);
  }

  lemma StepBounded(s: State, ev: Event)
    requires Bounded(s)
    ensures Bounded(Step(s, ev)) && Step(s, ev).depth == s.depth
  {
  }

  lemma StepDrains(s: State, ev: Event)
    requires Conserved(s) && Drained(s)
    ensures Drained(Step(s, ev))
  {
    if ev.Finish? {
      FlushConserves(s, ev.commits);
    }
  }

  /** In every reachable state: the accepted entries are the flushed ones, the
      current batch and the queue, in order, and the stored rows are exactly
      the batches whose transaction committed; the queue never exceeds its
      depth and no batch before close exceeds 64. */
  lemma {:induction false} AuditConservation(depth: nat, run: seq<Event>)
    ensures var s := Run(Init(depth), run);
            s.depth == depth && Conserved(s) && Bounded(s) && Drained(s)
  {
    if run == [] {
      assert Batches([]) == [] && CommittedBatches([]) == [];
    } else {
      var before, ev := run[..|run| - 1], run[|run| - 1];
      AuditConservation(depth, before);
      StepConserves(Run(Init(depth), before), ev);
      StepBounded(Run(Init(depth), before), ev);
      StepDrains(Run(Init(depth), before), ev);
    }
  }

  /** Once the writer has stopped, everything accepted before Cancel has been
      handed to the database, in order; what is left in the queue was accepted
      later. */
  lemma CloseFlushesEverythingAccepted(depth: nat, run: seq<Event>)
    ensures var s := Run(Init(depth), run);
            s.phase.Stopped? ==>
              && s.acceptedAtCancel <= |s.accepted|
              && s.accepted[..s.acceptedAtCancel] <= Flushed(s)
              && s.accepted == Flushed(s) + s.queue
  {
    AuditConservation(depth, run);
    if Run(Init(depth), run).phase.Stopped? {
      StoppedHasFlushed(Run(Init(depth), run));
    }
  }

  lemma StoppedHasFlushed(s: State)
    requires Conserved(s) && Drained(s) && s.phase.Stopped?
    ensures s.acceptedAtCancel <= |s.accepted|
    ensures s.accepted[..s.acceptedAtCancel] <= Flushed(s)
    ensures s.accepted == Flushed(s) + s.queue
  {
    assert s.accepted[..s.acceptedAtCancel] == Flushed(s)[..s.acceptedAtCancel];
  }

  /** The entry an event offers to the repo: a Record, or a Handoff that finds the
      writer waiting. */
  function Offer(s: State, ev: Event): seq<Entry> {
    if ev.Record? || (ev.Handoff? && s.phase.Running? && s.queue == []) then [ev.entry] else []
  }

  /** The entries offered to the repo along a run. */
  ghost function Offered(depth: nat, run: seq<Event>): seq<Entry> {
    if run == [] then []
    else
      var before := run[..|run| - 1];
      Offered(depth, before) + Offer(Run(Init(depth), before), run[|run| - 1])
  }

  lemma AcceptedGrowsByOffer(s: State, ev: Event)
    ensures Step(s, ev).accepted == s.accepted || Step(s, ev).accepted == s.accepted + Offer(s, ev)
  {
  }

  lemma SubseqGrows(a: seq<Entry>, b: seq<Entry>, x: seq<Entry>)
    requires IsSubseq(a, b)
    ensures IsSubseq(a, b + x) && IsSubseq(a + x, b + x)
  {
    SubseqAppend(a, b, x);
    SubseqCut(b, x, []);
    assert b + [] == b && b + x + [] == b + x;
    SubseqTrans(a, b, b + x);
  }

  /** Dropping loses entries but never reorders or invents one. */
  lemma {:induction false} AcceptedIsSubsequenceOfOffered(depth: nat, run: seq<Event>)
    ensures IsSubseq(Run(Init(depth), run).accepted, Offered(depth, run))
  {
    if run != [] {
      var before, ev := run[..|run| - 1], run[|run| - 1];
      var s := Run(Init(depth), before);
      AcceptedIsSubsequenceOfOffered(depth, before);
      AcceptedGrowsByOffer(s, ev);
      SubseqGrows(s.accepted, Offered(depth, before), Offer(s, ev));
    }
  }

  /** This event offers an entry to a full queue. */
  ghost predicate Drops(s: State, ev: Event) {
    ev.Record? && |s.queue| >= s.depth
  }

  lemma OfferIsAcceptedOrDropped(s: State, ev: Event)
    ensures Step(s, ev).accepted == if Drops(s, ev) then s.accepted else s.accepted + Offer(s, ev)
  {
    assert s.accepted + [] == s.accepted;
  }

  /** The offers of a run that did not find the queue at its depth. */
  ghost function Fitting(depth: nat, run: seq<Event>): seq<Entry> {
    if run == [] then []
    else
      var before, ev := run[..|run| - 1], run[|run| - 1];
      var s := Run(Init(depth), before);
      Fitting(depth, before) + if Drops(s, ev) then [] else Offer(s, ev)
  }

  /** An offered entry is missing from the accepted ones only if its Record found
      the queue full. */
  lemma {:induction false} AcceptedExactly(depth: nat, run: seq<Event>)
    ensures Run(Init(depth), run).accepted == Fitting(depth, run)
  {
    if run != [] {
      var before, ev := run[..|run| - 1], run[|run| - 1];
      AcceptedExactly(depth, before);
      OfferIsAcceptedOrDropped(Run(Init(depth), before), ev);
      assert Fitting(depth, before) + [] == Fitting(depth, before);
    }
  }

  /** The event after the first k finds the queue full. */
  ghost predicate DropsAt(depth: nat, run: seq<Event>, k: nat)
    requires k < |run|
  {
    Drops(Run(Init(depth), run[..k]), run[k])
  }

  /** So everything offered is accepted when the queue is never full. */
  lemma {:induction false} NothingDroppedWithRoom(depth: nat, run: seq<Event>)
    requires forall k :: 0 <= k < |run| ==> !DropsAt(depth, run, k)
    ensures Run(Init(depth), run).accepted == Offered(depth, run)
  {
    if run != [] {
      var n := |run| - 1;
      var before := run[..n];
      forall k | 0 <= k < n ensures !DropsAt(depth, before, k) {
        assert before[..k] == run[..k] && !DropsAt(depth, run, k);
      }
      NothingDroppedWithRoom(depth, before);
      assert !DropsAt(depth, run, n);
      OfferIsAcceptedOrDropped(Run(Init(depth), before), run[n]);
    }
  }

  // ---------- what is stored ----------

  ghost predicate Commits(ev: Event) {
    match ev
    case Handoff(_, ok) => ok
    case Receive(ok) => ok
    case Tick(ok) => ok
    case Finish(ok) => ok
    case _ => true
  }

  lemma CommittedStep(s: State, ev: Event)
    requires Commits(ev) && s.rows == Flushed(s)
    ensures Step(s, ev).rows == Flushed(Step(s, ev))
  {
    var s' := Step(s, ev);
    if s'.flushes != s.flushes {
      var n := |s.flushes|;
      assert s'.flushes[..n] == s.flushes;
      FlattenSnoc(Batches(s.flushes), s'.flushes[n].batch);
    }
  }

  /** When every transaction commits, the rows are everything flushed; so after a
      close they hold everything accepted before it. */
  lemma {:induction false} StoredWhenAllCommit(depth: nat, run: seq<Event>)
    requires forall k :: 0 <= k < |run| ==> Commits(run[k])
    ensures var s := Run(Init(depth), run);
            && s.rows == Flushed(s)
            && (s.phase.Stopped? ==> s.acceptedAtCancel <= |s.accepted| && s.accepted[..s.acceptedAtCancel] <= s.rows)
  {
    if run != [] {
      var before := run[..|run| - 1];
      StoredWhenAllCommit(depth, before);
      CommittedStep(Run(Init(depth), before), run[|run| - 1]);
    }
    CloseFlushesEverythingAccepted(depth, run);
  }

  // ---------- the drain loop is a run ----------

  ghost function DrainOnes(n: nat): seq<Event> {
    if n == 0 then [] else DrainOnes(n - 1) + [DrainOne]
  }

  lemma RunSnoc(s: State, run: seq<Event>, ev: Event)
    ensures Run(s, run + [ev]) == Step(Run(s, run), ev)
  {
    assert (run + [ev])[..|run|] == run;
  }

  lemma {:induction false} DrainOnesMove(s: State, n: nat)
    requires s.phase.Running? && s.cancelled && n <= |s.queue|
    ensures Run(s, [SeeCancel] + DrainOnes(n))
            == s.(phase := Draining, queue := s.queue[n..], batch := s.batch + s.queue[..n])
  {
    if n == 0 {
      assert [SeeCancel] + DrainOnes(0) == [] + [SeeCancel];
      RunSnoc(s, [], SeeCancel);
      assert s.batch + s.queue[..0] == s.batch;
    } else {
      DrainOnesMove(s, n - 1);
      assert [SeeCancel] + DrainOnes(n) == [SeeCancel] + DrainOnes(n - 1) + [DrainOne];
      RunSnoc(s, [SeeCancel] + DrainOnes(n - 1), DrainOne);
      assert s.queue[..n] == s.queue[..n - 1] + [s.queue[n - 1]];
      assert s.batch + s.queue[..n - 1] + [s.queue[n - 1]] == s.batch + s.queue[..n];
      assert s.queue[n - 1..][1..] == s.queue[n..];
    }
  }

  /** The state Drain promises is the one the event machine reaches by seeing the
      cancellation, draining each queued entry and finishing. */
  lemma DrainIsARun(s: State, commits: bool)
    requires s.phase.Running? && s.cancelled
    ensures Run(s, [SeeCancel] + DrainOnes(|s.queue|) + [Finish(commits)])
            == FlushStep(s.(queue := [], batch := s.batch + s.queue), commits).(phase := Stopped)
  {
    DrainOnesMove(s, |s.queue|);
    RunSnoc(s, [SeeCancel] + DrainOnes(|s.queue|), Finish(commits));
    assert s.queue[..|s.queue|] == s.queue;
  }

  /** Closing a running writer: cancelling it leads, without further records, to a
      stopped writer that has flushed its batch and its whole queue. */
  lemma CloseStops(s: State, commits: bool)
    requires s.phase.Running? && !s.cancelled
    ensures var s' := Run(Run(s, [Cancel]), [SeeCancel] + DrainOnes(|s.queue|) + [Finish(commits)]);
            && s'.phase.Stopped? && s'.queue == [] && s'.batch == []
            && s'.acceptedAtCancel == |s.accepted|
            && (commits ==> s'.rows == s.rows + (s.batch + s.queue))
  {
    RunSnoc(s, [], Cancel);
    assert [] + [Cancel] == [Cancel];
    DrainIsARun(Run(s, [Cancel]), commits);
  }
}
