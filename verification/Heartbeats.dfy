/**
 The router's side of the heartbeat protocol (internal/router/server.go,
 handleHeartbeat) over the enrollment table (internal/auth/enrollment.go). Token
 parsing is an opaque function of the token and the time; checking a token and
 registering its node are one step.
 */
module Heartbeats {
  import opened Seqs
  import R = Registry
  import C = Claims
  import K = Catalog
  import W = WorkerState
  import N = NodeRegistry

  // ---------- enrollment tokens ----------

  const ACTIVE: string := "active"
  const REVOKED: string := "revoked"
  /** 100 years of 365 days, in nanoseconds. */
  const NO_EXPIRY_TTL: int := 3_153_600_000_000_000_000

  datatype TokenRow = TokenRow(nodeName: string, status: string, expiresAt: Option<int>)

  type Tokens = map<string, TokenRow>

  /** Present, active and unexpired. */
  predicate IsActive(tokens: Tokens, id: string, now: int) {
    && id in tokens
    && tokens[id].status == ACTIVE
    && !(tokens[id].expiresAt.Some? && tokens[id].expiresAt.value < now)
  }

  function EffectiveExpiry(now: int, ttl: int): int {
    if ttl == 0 then now + NO_EXPIRY_TTL else now + ttl
  }

  class EnrollmentRepo {
    var rows: Tokens

    constructor ()
      ensures rows == map[]
    {
      rows := map[];
    }

    /** Create: the id is primary, so inserting a used one fails. The row is
        inserted before the token is signed, and stays when signing fails. */
    method Create(id: string, nodeName: string, ttl: int, now: int, ioOk: bool, signOk: bool) returns (ok: bool)
      modifies this
      ensures ok <==> ioOk && id !in old(rows) && signOk
      ensures rows == if ioOk && id !in old(rows) then old(rows)[id := TokenRow(nodeName, ACTIVE, Some(EffectiveExpiry(now, ttl)))]
                      else old(rows)
      ensures ok ==> forall t :: IsActive(rows, id, t) <==> t <= now + if ttl == 0 then 100 * 365 * 24 * 3600 * 1_000_000_000 else ttl
    {
      if !ioOk || id in rows {
        return false;
      }
      var expiry: int;
      if ttl > 0 {
        expiry := now + ttl;
      } else if ttl == 0 {
        expiry := now + NO_EXPIRY_TTL;
      } else {
        expiry := now + ttl;
      }
      rows := rows[id := TokenRow(nodeName, ACTIVE, Some(expiry))];
      ok := signOk;
    }

    /** Revoke: idempotent, an error only when there is no such token. */
    method Revoke(id: string, ioOk: bool) returns (ok: bool)
      modifies this
      ensures ok <==> ioOk && id in old(rows)
      ensures rows == if ok then old(rows)[id := old(rows)[id].(status := REVOKED)] else old(rows)
      ensures ok ==> forall now :: !IsActive(rows, id, now)
    {
      if !ioOk || id !in rows {
        return false;
      }
      rows := rows[id := rows[id].(status := REVOKED)];
      ok := true;
    }

    /** IsActive, or nothing when the query fails. */
    method Active(id: string, now: int, ioOk: bool) returns (r: Option<bool>)
      ensures r == if ioOk then Some(IsActive(rows, id, now)) else None
      ensures r == Some(true) <==> ioOk && id in rows && rows[id].status == "active"
                                   && (rows[id].expiresAt.None? || now <= rows[id].expiresAt.value)
    {
      if !ioOk {
        return None;
      }
      if id !in rows {
        return Some(false);
      }
      var row := rows[id];
      if row.status != ACTIVE {
        return Some(false);
      }
      if row.expiresAt.Some? && row.expiresAt.value < now {
        return Some(false);
      }
      r := Some(true);
    }
  }

  // ---------- one heartbeat ----------

  datatype Enrollment = Enrollment(id: string, nodeName: string)

  datatype Parsed = BadToken(error: string) | GoodToken(enr: Enrollment)

  /** Signer.Parse at a given time. */
  type Parser = (string, int) -> Parsed

  datatype Heartbeat = Heartbeat(
    nodeID: string, enrollmentToken: string, connectionState: string, activeModel: string, catalog: seq<string>,
    activeRequests: int)

  const AUTH_FAILED: string := "auth_failed"
  const INACTIVE: string := "inactive"
  const INTERNAL: string := "internal"
  const NOT_ACTIVE_DETAIL: string := "enrollment revoked or expired"

  datatype Verdict =
    | Accepted(enr: Enrollment)
    | Malformed
    | AuthFailed(nodeID: string, error: string)
    | Internal(nodeName: string, error: string)
    | Inactive(nodeName: string)

  /** payload is None when it does not decode; dbError when the lookup fails. */
  function Judge(parse: Parser, tokens: Tokens, payload: Option<Heartbeat>, dbError: Option<string>, now: int): Verdict {
    if payload.None? then Malformed
    else match parse(payload.value.enrollmentToken, now)
         case BadToken(error) => AuthFailed(payload.value.nodeID, error)
         case GoodToken(enr) =>
           if dbError.Some? then Internal(enr.nodeName, dbError.value)
           else if !IsActive(tokens, enr.id, now) then Inactive(enr.nodeName)
           else Accepted(enr)
  }

  function AckOf(v: Verdict): W.Ack {
    match v
    case Accepted(enr) => W.Ack(true, "", "", enr.nodeName)
    case Malformed => W.Ack(false, AUTH_FAILED, "malformed heartbeat", "")
    case AuthFailed(_, error) => W.Ack(false, AUTH_FAILED, error, "")
    case Internal(_, _) => W.Ack(false, INTERNAL, "enrollment lookup failed", "")
    case Inactive(_) => W.Ack(false, INACTIVE, NOT_ACTIVE_DETAIL, "")
  }

  /** The entry a heartbeat registers: named by the token, not by the worker. */
  function EntryOf(hb: Heartbeat, enr: Enrollment, pipe: R.Pipe, now: int): R.Entry {
    R.Entry(enr.nodeName, enr.id, pipe, hb.connectionState, hb.activeModel, hb.catalog, hb.activeRequests, now, [])
  }

  /** The registry after a heartbeat has been judged. */
  function Registered(reg: R.Reg, v: Verdict, payload: Option<Heartbeat>, pipe: R.Pipe, now: int): R.Reg {
    if v.Accepted? && payload.Some? then R.Upsert(reg, EntryOf(payload.value, v.enr, pipe, now)) else reg
  }

  /** The entry shows what this heartbeat said, under what its token says. */
  ghost predicate EntryShows(e: R.Entry, hb: Heartbeat, enr: Enrollment, pipe: R.Pipe, now: int) {
    && e.id == enr.nodeName && e.tokenID == enr.id && e.pipe == pipe && e.lastSeen == now
    && e.connectionState == hb.connectionState && e.activeModel == hb.activeModel
    && e.catalog == hb.catalog && e.activeRequests == hb.activeRequests
  }

  /** handleHeartbeat on the registry object: exactly one ack comes back, OK
      exactly when the node was registered under the token's subject with what the
      heartbeat said; when the writes succeed its catalog is stored. A rejection
      touches nothing but the claims, where it is recorded under its reason. */
  method HandleHeartbeat(
    nodes: N.NodeRegistry, enrollments: EnrollmentRepo, parse: Parser, pipe: R.Pipe, payload: Option<Heartbeat>,
    dbError: Option<string>, now: int, nodeRowOk: bool, budget: nat) returns (ack: W.Ack)
    requires nodes.Valid()
    modifies nodes, nodes.slots
    ensures nodes.Valid() && (nodes.slots == old(nodes.slots) || fresh(nodes.slots))
    ensures var v := Judge(parse, enrollments.rows, payload, dbError, now);
            && ack == AckOf(v)
            && (v.Accepted? ==>
                  var hb, enr := payload.value, v.enr;
                  && enr.nodeName in nodes.byID && EntryShows(nodes.byID[enr.nodeName], hb, enr, pipe, now)
                  && nodes.claims == old(nodes.claims) - {enr.nodeName}
                  && Registration(old(K.State(nodes.Reg(), nodes.rows)), K.State(nodes.Reg(), nodes.rows), nodes.hasDB,
                                  EntryOf(hb, enr, pipe, now), nodeRowOk, budget)
                  && (nodes.hasDB && nodeRowOk && budget >= |hb.catalog| + 3 && NoDup(hb.catalog) && hb.catalog != [] ==>
                        K.RowsOf(nodes.rows, enr.nodeName) == hb.catalog))
            && (!v.Accepted? ==> nodes.Reg() == old(nodes.Reg()) && nodes.rows == old(nodes.rows))
    ensures payload.None? ==>
              ack == W.Ack(false, "auth_failed", "malformed heartbeat", "") && nodes.claims == old(nodes.claims)
    ensures payload.Some? ==>
              match parse(payload.value.enrollmentToken, now)
              case BadToken(error) =>
                && ack == W.Ack(false, "auth_failed", error, "")
                && C.Records(old(nodes.claims), nodes.claims, C.Claim(payload.value.nodeID, pipe, "auth_failed", error, now))
              case GoodToken(enr) =>
                if dbError.Some? then
                  && ack == W.Ack(false, "internal", "enrollment lookup failed", "")
                  && C.Records(old(nodes.claims), nodes.claims, C.Claim(enr.nodeName, pipe, "internal", dbError.value, now))
                else if IsActive(enrollments.rows, enr.id, now) then ack == W.Ack(true, "", "", enr.nodeName)
                else
                  && ack == W.Ack(false, "inactive", "enrollment revoked or expired", "")
                  && C.Records(old(nodes.claims), nodes.claims,
                               C.Claim(enr.nodeName, pipe, "inactive", "enrollment revoked or expired", now))
  {
    if payload.None? {
      return W.Ack(false, AUTH_FAILED, "malformed heartbeat", "");
    }
    var hb := payload.value;
    var parsed := parse(hb.enrollmentToken, now);
    if parsed.BadToken? {
      nodes.RecordClaim(hb.nodeID, AUTH_FAILED, parsed.error, pipe, now);
      return W.Ack(false, AUTH_FAILED, parsed.error, "");
    }
    var enr := parsed.enr;
    var active := enrollments.Active(enr.id, now, dbError.None?);
    if active.None? {
      nodes.RecordClaim(enr.nodeName, INTERNAL, dbError.value, pipe, now);
      return W.Ack(false, INTERNAL, "enrollment lookup failed", "");
    }
    if !active.value {
      nodes.RecordClaim(enr.nodeName, INACTIVE, NOT_ACTIVE_DETAIL, pipe, now);
      return W.Ack(false, INACTIVE, NOT_ACTIVE_DETAIL, "");
    }
    Admit(nodes, hb, enr, pipe, now, nodeRowOk, budget);
    ack := W.Ack(true, "", "", enr.nodeName);
  }

  /** What registering an entry does to the registry and the catalog table. */
  ghost predicate Registration(s: K.State, s': K.State, hasDB: bool, e: R.Entry, nodeRowOk: bool, budget: nat) {
    s' == if hasDB then K.Step(s, K.Heartbeat(e, nodeRowOk, budget >= |e.catalog| + 3)) else K.State(R.Upsert(s.reg, e), s.rows)
  }

  /** The registration at the end of handleHeartbeat. */
  method Admit(
    nodes: N.NodeRegistry, hb: Heartbeat, enr: Enrollment, pipe: R.Pipe, now: int, nodeRowOk: bool, budget: nat)
    requires nodes.Valid()
    modifies nodes, nodes.slots
    ensures nodes.Valid() && (nodes.slots == old(nodes.slots) || fresh(nodes.slots))
    ensures enr.nodeName in nodes.byID && EntryShows(nodes.byID[enr.nodeName], hb, enr, pipe, now)
    ensures nodes.claims == old(nodes.claims) - {enr.nodeName}
    ensures Registration(old(K.State(nodes.Reg(), nodes.rows)), K.State(nodes.Reg(), nodes.rows), nodes.hasDB,
                         EntryOf(hb, enr, pipe, now), nodeRowOk, budget)
    ensures nodes.hasDB && nodeRowOk && budget >= |hb.catalog| + 3 && NoDup(hb.catalog) && hb.catalog != [] ==>
              K.RowsOf(nodes.rows, enr.nodeName) == hb.catalog
  {
    var e := R.Entry(
      enr.nodeName, enr.id, pipe, hb.connectionState, hb.activeModel, hb.catalog, hb.activeRequests, now, []);
    ghost var s := K.State(nodes.Reg(), nodes.rows);
    nodes.Upsert(e, nodeRowOk, budget);
    RegistrationShows(s, K.State(nodes.Reg(), nodes.rows), nodes.hasDB, hb, enr, pipe, now, nodeRowOk, budget);
  }

  lemma RegistrationShows(
    s: K.State, s': K.State, hasDB: bool, hb: Heartbeat, enr: Enrollment, pipe: R.Pipe, now: int, nodeRowOk: bool, budget: nat)
    requires R.Inv(s.reg) && K.CacheAgrees(s)
    requires Registration(s, s', hasDB, EntryOf(hb, enr, pipe, now), nodeRowOk, budget)
    ensures enr.nodeName in s'.reg.byID && EntryShows(s'.reg.byID[enr.nodeName], hb, enr, pipe, now)
    ensures hasDB && nodeRowOk && budget >= |hb.catalog| + 3 && NoDup(hb.catalog) && hb.catalog != [] ==>
              K.RowsOf(s'.rows, enr.nodeName) == hb.catalog
  {
    var e := EntryOf(hb, enr, pipe, now);
    if hasDB {
      K.HeartbeatPersists(s, e, nodeRowOk, budget >= |e.catalog| + 3);
      if hb.catalog != [] {
        K.StepRewrites(s, K.Heartbeat(e, nodeRowOk, budget >= |e.catalog| + 3), e.id);
      }
    }
  }

  // ---------- the router over time ----------

  /** revokedAt remembers when each token was first revoked; the code does not. */
  datatype State = State(reg: R.Reg, tokens: Tokens, revokedAt: map<string, int>, clock: int)

  datatype Event =
    | Issue(id: string, nodeName: string, ttl: int)
    | Revoke(id: string)
    | Beat(pipe: R.Pipe, payload: Option<Heartbeat>, dbError: Option<string>)
    | Wait(time: nat)

  function Init(clock: int): State {
    State(R.EMPTY, map[], map[], clock)
  }

  function VerdictAt(s: State, parse: Parser, payload: Option<Heartbeat>, dbError: Option<string>): Verdict {
    Judge(parse, s.tokens, payload, dbError, s.clock)
  }

  function Step(s: State, parse: Parser, ev: Event): State {
    match ev
    case Issue(id, nodeName, ttl) =>
      if id in s.tokens then s
      else s.(tokens := s.tokens[id := TokenRow(nodeName, ACTIVE, Some(EffectiveExpiry(s.clock, ttl)))])
    case Revoke(id) =>
      if id !in s.tokens then s
      else s.(tokens := s.tokens[id := s.tokens[id].(status := REVOKED)],
              revokedAt := if id in s.revokedAt then s.revokedAt else s.revokedAt[id := s.clock])
    case Beat(pipe, payload, dbError) =>
      s.(reg := Registered(s.reg, VerdictAt(s, parse, payload, dbError), payload, pipe, s.clock))
    case Wait(time) => s.(clock := s.clock + time)
  }

  ghost function Run(start: int, parse: Parser, run: seq<Event>): State {
    if run == [] then Init(start) else Step(Run(start, parse, run[..|run| - 1]), parse, run[|run| - 1])
  }

  /** A registered token was neither revoked nor expired before its node was last
      heard from. */
  ghost predicate Vouched(s: State, e: R.Entry) {
    && e.lastSeen <= s.clock
    && e.tokenID in s.tokens
    && (e.tokenID in s.revokedAt ==> e.lastSeen <= s.revokedAt[e.tokenID])
    && (s.tokens[e.tokenID].expiresAt.Some? ==> e.lastSeen <= s.tokens[e.tokenID].expiresAt.value)
  }

  ghost predicate Inv(s: State) {
    && R.Inv(s.reg)
    && (forall id :: id in s.reg.byID ==> Vouched(s, s.reg.byID[id]))
    && (forall id :: id in s.tokens ==> (id in s.revokedAt <==> s.tokens[id].status != ACTIVE))
    && s.revokedAt.Keys <= s.tokens.Keys
  }

  lemma BeatKeeps(s: State, parse: Parser, pipe: R.Pipe, payload: Option<Heartbeat>, dbError: Option<string>)
    requires Inv(s)
    ensures Inv(Step(s, parse, Beat(pipe, payload, dbError)))
  {
    var v := VerdictAt(s, parse, payload, dbError);
    if v.Accepted? {
      var e := EntryOf(payload.value, v.enr, pipe, s.clock);
      R.UpsertKeepsInv(s.reg, e);
      UpsertVouched(s, e);
    }
  }

  /** Registering a vouched entry leaves every registered entry vouched. */
  lemma UpsertVouched(s: State, e: R.Entry)
    requires R.Inv(s.reg) && Vouched(s, e) && forall id :: id in s.reg.byID ==> Vouched(s, s.reg.byID[id])
    ensures var reg := R.Upsert(s.reg, e); forall id :: id in reg.byID ==> Vouched(s, reg.byID[id])
  {
    R.RetireKeeps(s.reg, e);
  }

  lemma StepKeeps(s: State, parse: Parser, ev: Event)
    requires Inv(s)
    ensures Inv(Step(s, parse, ev))
  {
    match ev
    case Beat(pipe, payload, dbError) => BeatKeeps(s, parse, pipe, payload, dbError);
    case _ =>
  }

  lemma {:induction false} Reachable(start: int, parse: Parser, run: seq<Event>)
    ensures Inv(Run(start, parse, run))
  {
    if run != [] {
      Reachable(start, parse, run[..|run| - 1]);
      StepKeeps(Run(start, parse, run[..|run| - 1]), parse, run[|run| - 1]);
    }
  }

  /** Heartbeat k of the run registered this very entry, at its lastSeen, with a
      token that was active then. */
  ghost predicate RegisteredBy(start: int, parse: Parser, run: seq<Event>, e: R.Entry, k: nat) {
    && k < |run| && run[k].Beat? && run[k].pipe == e.pipe && run[k].payload.Some?
    && var s := Run(start, parse, run[..k]);
       var v := VerdictAt(s, parse, run[k].payload, run[k].dbError);
       && v.Accepted? && v.enr == Enrollment(e.tokenID, e.id)
       && s.clock == e.lastSeen
       && IsActive(s.tokens, e.tokenID, e.lastSeen)
       && EntryShows(e, run[k].payload.value, v.enr, run[k].pipe, s.clock)
  }

  /** A step that changes an entry is the heartbeat that registered it. */
  lemma NewlyRegistered(s: State, parse: Parser, ev: Event, id: string)
    requires Inv(s)
    requires id in Step(s, parse, ev).reg.byID
    requires !(id in s.reg.byID && s.reg.byID[id] == Step(s, parse, ev).reg.byID[id])
    ensures var e := Step(s, parse, ev).reg.byID[id];
            && ev.Beat? && ev.payload.Some? && ev.pipe == e.pipe
            && VerdictAt(s, parse, ev.payload, ev.dbError) == Accepted(Enrollment(e.tokenID, e.id))
            && s.clock == e.lastSeen && IsActive(s.tokens, e.tokenID, e.lastSeen)
            && EntryShows(e, ev.payload.value, Enrollment(e.tokenID, e.id), ev.pipe, s.clock)
  {
    var v := VerdictAt(s, parse, ev.payload, ev.dbError);
    R.RetireKeeps(s.reg, EntryOf(ev.payload.value, v.enr, ev.pipe, s.clock));
  }

  /** Every registered node goes back to an accepted heartbeat. */
  lemma {:induction false} RegisteredHasABeat(start: int, parse: Parser, run: seq<Event>, id: string)
    requires id in Run(start, parse, run).reg.byID
    ensures exists k: nat :: RegisteredBy(start, parse, run, Run(start, parse, run).reg.byID[id], k)
  {
    var n := |run| - 1;
    var before := run[..n];
    var s, e := Run(start, parse, before), Run(start, parse, run).reg.byID[id];
    if id in s.reg.byID && s.reg.byID[id] == e {
      RegisteredHasABeat(start, parse, before, id);
      var k: nat :| RegisteredBy(start, parse, before, e, k);
      assert before[..k] == run[..k] && before[k] == run[k];
      assert RegisteredBy(start, parse, run, e, k);
    } else {
      Reachable(start, parse, before);
      NewlyRegistered(s, parse, run[n], id);
      assert RegisteredBy(start, parse, run, e, n);
    }
  }

  /** The revocation bound: a node selected at time t was heard from at most
      staleAfter before, with a token active at that moment; so a token revoked
      or expired at T is never selected strictly after T + staleAfter, in any
      run. */
  lemma RevocationBound(start: int, parse: Parser, run: seq<Event>, t: int, staleAfter: int)
    ensures var s := Run(start, parse, run);
            R.Listed(s.reg) &&
            match R.Select(s.reg, t, staleAfter)
            case None => true
            case Some(e) =>
              && t - staleAfter <= e.lastSeen <= s.clock
              && (exists k: nat :: RegisteredBy(start, parse, run, e, k))
              && (e.tokenID in s.revokedAt ==> t <= s.revokedAt[e.tokenID] + staleAfter)
              && e.tokenID in s.tokens
              && (s.tokens[e.tokenID].expiresAt.Some? ==> t <= s.tokens[e.tokenID].expiresAt.value + staleAfter)
  {
    Reachable(start, parse, run);
    var s := Run(start, parse, run);
    assert forall i :: 0 <= i < |s.reg.order| ==> s.reg.order[i] in Elements(s.reg.order);
    if R.Select(s.reg, t, staleAfter).Some? {
      R.SelectedIsFresh(s.reg, t, staleAfter);
      var e := R.Select(s.reg, t, staleAfter).value;
      var id :| id in s.reg.byID && s.reg.byID[id] == e;
      RegisteredHasABeat(start, parse, run, id);
    }
  }

  /** Comments promise that a revoked worker is dropped on its next heartbeat. The
      heartbeat is rejected but drops nothing: selection is unaffected by it. */
  lemma RejectionDropsNothing(s: State, parse: Parser, pipe: R.Pipe, payload: Option<Heartbeat>, dbError: Option<string>)
    ensures var s' := Step(s, parse, Beat(pipe, payload, dbError));
            var ack := AckOf(VerdictAt(s, parse, payload, dbError));
            && (!ack.ok ==> s' == s)
            && (ack.ok ==> ack.nodeID in s'.reg.byID
                           && s'.reg.byID[ack.nodeID].pipe == pipe && s'.reg.byID[ack.nodeID].lastSeen == s.clock)
  {
  }

  /** A run in which the bound is met: revoked at once, rejected at its next
      heartbeat, and still selected exactly staleAfter later. */
  function StillSelectedRun(hb: Heartbeat, id: string, name: string, staleAfter: nat): seq<Event> {
    [Issue(id, name, 0), Beat(0, Some(hb), None), Revoke(id), Beat(0, Some(hb), None), Wait(staleAfter)]
  }

  lemma FiveSteps(start: int, parse: Parser, e0: Event, e1: Event, e2: Event, e3: Event, e4: Event)
    ensures Run(start, parse, [e0, e1, e2, e3, e4])
            == Step(Step(Step(Step(Step(Init(start), parse, e0), parse, e1), parse, e2), parse, e3), parse, e4)
  {
    RunSnoc(start, parse, [], e0);
    RunSnoc(start, parse, [e0], e1);
    RunSnoc(start, parse, [e0, e1], e2);
    RunSnoc(start, parse, [e0, e1, e2], e3);
    RunSnoc(start, parse, [e0, e1, e2, e3], e4);
    assert [] + [e0] == [e0] && [e0] + [e1] == [e0, e1] && [e0, e1] + [e2] == [e0, e1, e2];
    assert [e0, e1, e2] + [e3] == [e0, e1, e2, e3] && [e0, e1, e2, e3] + [e4] == [e0, e1, e2, e3, e4];
  }

  /** A registry holding one entry. */
  function Lone(e: R.Entry): R.Reg {
    R.Reg(map[e.id := e], map[e.pipe := e], [e.id])
  }

  lemma LoneIsSelected(e: R.Entry, now: int, staleAfter: int)
    requires now - e.lastSeen <= staleAfter
    ensures R.Listed(Lone(e)) && R.Select(Lone(e), now, staleAfter) == Some(e)
  {
    assert R.Best(Lone(e), now, staleAfter, 0).None?;
  }

  lemma FirstBeat(s: State, parse: Parser, hb: Heartbeat, enr: Enrollment)
    requires parse(hb.enrollmentToken, s.clock) == GoodToken(enr) && IsActive(s.tokens, enr.id, s.clock) && s.reg == R.EMPTY
    ensures Step(s, parse, Beat(0, Some(hb), None)) == s.(reg := Lone(EntryOf(hb, enr, 0, s.clock)))
  {
    assert R.EMPTY.order + [enr.nodeName] == [enr.nodeName];
  }

  lemma RevokedIsStillSelected(start: int, parse: Parser, hb: Heartbeat, id: string, name: string, staleAfter: nat)
    requires forall now :: parse(hb.enrollmentToken, now) == GoodToken(Enrollment(id, name))
    ensures var s := Run(start, parse, StillSelectedRun(hb, id, name, staleAfter));
            && s.revokedAt == map[id := start] && s.clock == start + staleAfter
            && R.Listed(s.reg)
            && R.Select(s.reg, s.clock, staleAfter) == Some(EntryOf(hb, Enrollment(id, name), 0, start))
  {
    var e := EntryOf(hb, Enrollment(id, name), 0, start);
    FiveSteps(start, parse, Issue(id, name, 0), Beat(0, Some(hb), None), Revoke(id), Beat(0, Some(hb), None), Wait(staleAfter));
    var s1 := Step(Init(start), parse, Issue(id, name, 0));
    FirstBeat(s1, parse, hb, Enrollment(id, name));
    var s3 := Step(s1.(reg := Lone(e)), parse, Revoke(id));
    RejectionDropsNothing(s3, parse, 0, Some(hb), None);
    LoneIsSelected(e, start + staleAfter, staleAfter);
  }

  lemma RunSnoc(start: int, parse: Parser, run: seq<Event>, ev: Event)
    ensures Run(start, parse, run + [ev]) == Step(Run(start, parse, run), parse, ev)
  {
    assert (run + [ev])[..|run|] == run;
  }
}
