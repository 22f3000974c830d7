/**
 The worker's connection state machine (internal/worker/daemon.go): handleAck and
 checkDegraded, with time handed to each call. Everything the four fields say is
 related to the plain history of decoded acks and ticks.
 */
module WorkerState {
  import opened Seqs

  const WARN_EVERY: nat := 12

  datatype Conn = Connecting | Registered | Degraded

  /** HeartbeatAck. */
  datatype Ack = Ack(ok: bool, reason: string, detail: string, nodeID: string)

  datatype State = State(conn: Conn, lastAck: Option<int>, rejectReason: string, warnCount: nat)

  const INIT: State := State(Connecting, None, "", 0)

  function DegradedAfter(interval: int): int {
    3 * interval
  }

  /** handleAck; an ack that does not decode changes nothing. */
  function AckStep(s: State, ack: Option<Ack>, now: int): State {
    match ack
    case None => s
    case Some(a) =>
      if a.ok then State(Registered, Some(now), "", 0)
      else State(Connecting, Some(now), a.reason, s.warnCount + 1)
  }

  /** Whether handleAck logs its throttled warning. */
  predicate Warns(s: State, ack: Option<Ack>) {
    ack.Some? && !ack.value.ok && (s.warnCount + 1 == 1 || (s.warnCount + 1) % WARN_EVERY == 0)
  }

  /** checkDegraded. */
  function CheckStep(s: State, interval: int, now: int): State {
    if s.conn.Registered? && s.lastAck.Some? && now - s.lastAck.value > DegradedAfter(interval)
    then s.(conn := Degraded) else s
  }

  class Daemon {
    const heartbeatInterval: int
    var conn: Conn
    var lastAck: Option<int>
    var rejectReason: string
    var warnCount: nat
    var activeRequests: int

    constructor (interval: int)
      ensures heartbeatInterval == interval && View() == INIT && activeRequests == 0
    {
      heartbeatInterval := interval;
      conn, lastAck, rejectReason, warnCount, activeRequests := Connecting, None, "", 0, 0;
    }

    ghost function View(): State
      reads this
    {
      State(conn, lastAck, rejectReason, warnCount)
    }

    method HandleAck(ack: Option<Ack>, now: int) returns (warned: bool)
      modifies this
      ensures View() == AckStep(old(View()), ack, now)
      ensures warned <==> Warns(old(View()), ack)
      ensures activeRequests == old(activeRequests)
    {
      if ack.None? {
        return false;
      }
      lastAck := Some(now);
      if ack.value.ok {
        rejectReason := "";
        warnCount := 0;
        conn := Registered;
        return false;
      }
      rejectReason := ack.value.reason;
      warnCount := warnCount + 1;
      warned := warnCount == 1 || warnCount % WARN_EVERY == 0;
      conn := Connecting;
    }

    method CheckDegraded(now: int)
      modifies this
      ensures View() == CheckStep(old(View()), heartbeatInterval, now)
      ensures activeRequests == old(activeRequests)
    {
      if conn != Registered || lastAck.None? || now - lastAck.value <= DegradedAfter(heartbeatInterval) {
        return;
      }
      conn := Degraded;
    }
  }

  // ---------- runs ----------

  datatype Event = AckIn(ack: Option<Ack>, at: int) | Check(at: int)

  function Step(s: State, interval: int, ev: Event): State {
    match ev
    case AckIn(ack, at) => AckStep(s, ack, at)
    case Check(at) => CheckStep(s, interval, at)
  }

  ghost function Run(interval: int, run: seq<Event>): State {
    if run == [] then INIT else Step(Run(interval, run[..|run| - 1]), interval, run[|run| - 1])
  }

  /** Event i carried the last ack of the run that decoded. */
  ghost predicate LastDecoded(run: seq<Event>, i: nat) {
    && i < |run| && Decodes(run[i])
    && forall j :: i < j < |run| ==> !Decodes(run[j])
  }

  ghost predicate Decodes(ev: Event) {
    ev.AckIn? && ev.ack.Some?
  }

  ghost predicate Accepts(ev: Event) {
    Decodes(ev) && ev.ack.value.ok
  }

  /** Some tick after event i found more than three intervals of silence. */
  ghost predicate SilenceNoticed(run: seq<Event>, interval: int, i: nat)
    requires i < |run|
  {
    exists k :: i < k < |run| && run[k].Check? && run[k].at - run[i].at > DegradedAfter(interval)
  }

  /** Rejections since the last acceptance. */
  ghost function Rejections(run: seq<Event>): nat {
    if run == [] then 0
    else
      var before, ev := run[..|run| - 1], run[|run| - 1];
      if Accepts(ev) then 0 else Rejections(before) + if Decodes(ev) then 1 else 0
  }

  /** Warnings logged since the last acceptance. */
  ghost function Warnings(interval: int, run: seq<Event>): nat {
    if run == [] then 0
    else
      var before, ev := run[..|run| - 1], run[|run| - 1];
      if Accepts(ev) then 0
      else Warnings(interval, before) + if ev.AckIn? && Warns(Run(interval, before), ev.ack) then 1 else 0
  }

  /** What the fields mean when event i was the last decoded ack. */
  ghost predicate Describes(s: State, run: seq<Event>, interval: int, i: nat)
    requires i < |run| && Decodes(run[i])
  {
    var a := run[i].ack.value;
    && s.lastAck == Some(run[i].at)
    && s.rejectReason == (if a.ok then "" else a.reason)
    && s.conn == (if !a.ok then Connecting else if SilenceNoticed(run, interval, i) then Degraded else Registered)
  }

  lemma {:induction false} StateIsHistory(interval: int, run: seq<Event>)
    ensures var s := Run(interval, run);
            && ((forall i: nat :: !LastDecoded(run, i)) ==> s.conn == Connecting && s.lastAck == None && s.rejectReason == "")
            && (forall i: nat :: LastDecoded(run, i) ==> Describes(s, run, interval, i))
  {
    if run != [] {
      var n := |run| - 1;
      var before, ev := run[..n], run[n];
      StateIsHistory(interval, before);
      if Decodes(ev) {
        assert LastDecoded(run, n);
        forall i: nat | LastDecoded(run, i) ensures i == n {
        }
      } else {
        forall i: nat ensures LastDecoded(run, i) <==> LastDecoded(before, i) {
          assert forall j :: 0 <= j < n ==> run[j] == before[j];
        }
        forall i: nat | LastDecoded(run, i) ensures Describes(Run(interval, run), run, interval, i) {
          assert run[i] == before[i];
          SilenceGrows(run, interval, i);
        }
      }
    }
  }

  lemma SilenceGrows(run: seq<Event>, interval: int, i: nat)
    requires i < |run| - 1
    ensures var n := |run| - 1;
            SilenceNoticed(run, interval, i)
            <==> SilenceNoticed(run[..n], interval, i) || (run[n].Check? && run[n].at - run[i].at > DegradedAfter(interval))
  {
    var n := |run| - 1;
    var before := run[..n];
    if SilenceNoticed(before, interval, i) {
      var k :| i < k < |before| && before[k].Check? && before[k].at - before[i].at > DegradedAfter(interval);
      assert run[k] == before[k];
    }
    if SilenceNoticed(run, interval, i) {
      var k :| i < k < |run| && run[k].Check? && run[k].at - run[i].at > DegradedAfter(interval);
      if k < n {
        assert before[k] == run[k] && before[i] == run[i];
      }
    }
  }

  /** The machine over all runs: it has left Connecting exactly when the last
      decoded ack was an acceptance, and is then Degraded exactly when some later
      tick found more than 3 intervals of silence since it. */
  lemma StateOverAllRuns(interval: int, run: seq<Event>)
    ensures var conn := Run(interval, run).conn;
            && (conn != Connecting <==> exists i: nat :: LastDecoded(run, i) && Accepts(run[i]))
            && (conn == Degraded
                <==> exists i: nat, k: nat :: LastDecoded(run, i) && Accepts(run[i]) && TickFinds(run, i, k, 3 * interval))
  {
    StateIsHistory(interval, run);
    forall i: nat | LastDecoded(run, i)
      ensures SilenceNoticed(run, interval, i) <==> exists k: nat :: TickFinds(run, i, k, 3 * interval)
    {
      if SilenceNoticed(run, interval, i) {
        var k :| i < k < |run| && run[k].Check? && run[k].at - run[i].at > DegradedAfter(interval);
        assert TickFinds(run, i, k, 3 * interval);
      }
    }
  }

  /** Tick k after event i comes more than this long after it. */
  ghost predicate TickFinds(run: seq<Event>, i: nat, k: nat, silence: int) {
    i < k < |run| && run[k].Check? && run[k].at - run[i].at > silence
  }

  /** warnCount is the length of the current run of rejections, and n >= 1 such
      rejections have logged exactly 1 + n/12 warnings. */
  lemma {:induction false} WarningsAreThrottled(interval: int, run: seq<Event>)
    ensures var n := Rejections(run);
            && Run(interval, run).warnCount == n
            && Warnings(interval, run) == if n == 0 then 0 else 1 + n / 12
  {
    if run != [] {
      WarningsAreThrottled(interval, run[..|run| - 1]);
    }
  }

  ghost predicate Chronological(run: seq<Event>, start: int) {
    && (forall i :: 0 <= i < |run| ==> start <= run[i].at)
    && (forall i, j :: 0 <= i < j < |run| ==> run[i].at <= run[j].at)
  }

  /** The time of the latest tick, or of the loop's start. */
  ghost function LastTick(run: seq<Event>, start: int): int {
    if run == [] then start
    else if run[|run| - 1].Check? then run[|run| - 1].at
    else LastTick(run[..|run| - 1], start)
  }

  lemma {:induction false} LastTickIsEarly(run: seq<Event>, start: int, interval: int, i: nat)
    requires Chronological(run, start) && interval >= 0 && i < |run| && !SilenceNoticed(run, interval, i)
    ensures LastTick(run, start) <= run[i].at + DegradedAfter(interval)
  {
    var n := |run| - 1;
    var before, ev := run[..n], run[n];
    assert forall j :: 0 <= j < n ==> before[j] == run[j];
    if !ev.Check? {
      if i < n {
        SilenceGrows(run, interval, i);
        LastTickIsEarly(before, start, interval, i);
      } else {
        TickNotAfterEvents(before, start, run[i].at);
      }
    }
  }

  lemma {:induction false} TickNotAfterEvents(run: seq<Event>, start: int, t: int)
    requires start <= t && forall i :: 0 <= i < |run| ==> run[i].at <= t
    ensures LastTick(run, start) <= t
  {
    if run != [] && !run[|run| - 1].Check? {
      TickNotAfterEvents(run[..|run| - 1], start, t);
    }
  }

  /** If the latest tick is at most P old, a worker that still calls itself
      registered heard an ack no longer than 3 intervals + P ago. */
  lemma RegisteredIsRecent(interval: int, run: seq<Event>, start: int, now: int, P: int)
    requires interval >= 0 && Chronological(run, start)
    requires now - LastTick(run, start) <= P
    requires Run(interval, run).conn == Registered
    ensures var last := Run(interval, run).lastAck;
            last.Some? && now <= last.value + 3 * interval + P
  {
    StateOverAllRuns(interval, run);
    StateIsHistory(interval, run);
    var i: nat :| LastDecoded(run, i) && Accepts(run[i]);
    LastTickIsEarly(run, start, interval, i);
  }
}
