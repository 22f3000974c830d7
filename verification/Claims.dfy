/**
 The table of rejected connection attempts (internal/router/nodes.go) and the
 dashboard view that merges it with the registered nodes
 (internal/admin/server.go). Go ranges over maps in any order, so which of
 several equally old claims is evicted is left open.
 */
module Claims {
  import opened Seqs
  import opened Registry

  const CLAIM_MAX_ENTRIES: nat := 64
  const CLAIM_EXPIRY: int := 60_000_000_000

  datatype Claim = Claim(nodeID: string, pipe: Pipe, reason: string, detail: string, lastAttempt: int)

  type Table = map<string, Claim>

  /** The claims that have not expired at now. */
  function Live(t: Table, now: int): Table {
    map id | id in t && now - t[id].lastAttempt <= CLAIM_EXPIRY :: t[id]
  }

  ghost predicate Oldest(t: Table, id: string) {
    id in t && forall k :: k in t ==> t[id].lastAttempt <= t[k].lastAttempt
  }

  /** recordClaim(c) at time c.lastAttempt may turn t into t'. */
  ghost predicate Records(t: Table, t': Table, c: Claim) {
    var live := Live(t, c.lastAttempt);
    if c.nodeID == "" then t' == t
    else if c.nodeID in live || |live| < CLAIM_MAX_ENTRIES then t' == live[c.nodeID := c]
    else exists victim :: Oldest(live, victim) && t' == (live - {victim})[c.nodeID := c]
  }

  ghost predicate Valid(t: Table) {
    && "" !in t
    && |t| <= CLAIM_MAX_ENTRIES
    && forall id :: id in t ==> t[id].nodeID == id
  }

  lemma LiveIsSmaller(t: Table, now: int)
    ensures |Live(t, now)| <= |t|
  {
    SubsetSize(Live(t, now).Keys, t.Keys);
    assert |Live(t, now).Keys| == |Live(t, now)| && |t.Keys| == |t|;
  }

  lemma {:induction false} SubsetSize<T>(a: set<T>, b: set<T>)
    requires a <= b
    ensures |a| <= |b|
    decreases a
  {
    if a != {} {
      var x :| x in a;
      SubsetSize(a - {x}, b - {x});
    }
  }

  lemma InsertSize(t: Table, id: string, c: Claim)
    ensures |t[id := c]| == |t| + if id in t then 0 else 1
  {
    assert t[id := c].Keys == t.Keys + {id};
    assert |t[id := c].Keys| == |t[id := c]| && |t.Keys| == |t|;
  }

  lemma DeleteSize(t: Table, id: string)
    ensures |t - {id}| == |t| - if id in t then 1 else 0
  {
    assert (t - {id}).Keys == t.Keys - {id};
    assert |(t - {id}).Keys| == |t - {id}| && |t.Keys| == |t|;
  }

  lemma RecordsKeepsValid(t: Table, t': Table, c: Claim)
    requires Valid(t) && Records(t, t', c)
    ensures Valid(t')
  {
    if c.nodeID != "" {
      var live := Live(t, c.lastAttempt);
      LiveIsSmaller(t, c.lastAttempt);
      if c.nodeID in live || |live| < CLAIM_MAX_ENTRIES {
        InsertSize(live, c.nodeID, c);
      } else {
        var victim :| Oldest(live, victim) && t' == (live - {victim})[c.nodeID := c];
        DeleteSize(live, victim);
        InsertSize(live - {victim}, c.nodeID, c);
      }
    }
  }

  /** What a rejection leaves: its own claim under its own id, none older than 60
      seconds, and otherwise only claims that were there before. A rejection under
      no name leaves everything as it was. */
  lemma RejectionIsRecorded(t: Table, t': Table, c: Claim)
    requires Records(t, t', c)
    ensures c.nodeID == "" ==> t' == t
    ensures c.nodeID != "" ==>
              && c.nodeID in t' && t'[c.nodeID] == c
              && (forall id :: id in t' ==> c.lastAttempt - t'[id].lastAttempt <= 60 * 1_000_000_000)
              && (forall id :: id in t' && id != c.nodeID ==> id in t && t'[id] == t[id])
  {
  }

  /** An unexpired claim of another node disappears only when the table is full
      of unexpired claims, the newcomer is not among them, and it is a claim with
      the least last attempt; then it is the only one. */
  lemma EvictionIsForced(t: Table, t': Table, c: Claim, gone: string)
    requires Valid(t) && Records(t, t', c)
    requires gone in Live(t, c.lastAttempt) && gone !in t'
    ensures |Live(t, c.lastAttempt)| == CLAIM_MAX_ENTRIES && c.nodeID !in Live(t, c.lastAttempt)
    ensures Oldest(Live(t, c.lastAttempt), gone)
    ensures forall id :: id in Live(t, c.lastAttempt) && id != gone ==> id in t' && t'[id] == t[id]
  {
    LiveIsSmaller(t, c.lastAttempt);
  }

  // ---------- runs ----------

  /** A rejected heartbeat, or a successful registration of an id. */
  datatype Event = Rejected(claim: Claim) | Registered(id: string)

  ghost predicate Step(t: Table, t': Table, ev: Event) {
    match ev
    case Rejected(c) => Records(t, t', c)
    case Registered(id) => t' == t - {id}
  }

  /** states[i] is the table before event i. */
  ghost predicate IsRun(states: seq<Table>, events: seq<Event>) {
    && |states| == |events| + 1
    && states[0] == map[]
    && forall i :: 0 <= i < |events| ==> Step(states[i], states[i + 1], events[i])
  }

  lemma DeleteKeepsValid(t: Table, id: string)
    requires Valid(t)
    ensures Valid(t - {id})
  {
    DeleteSize(t, id);
  }

  /** Over any run the table holds at most 64 claims and never the empty id. */
  lemma {:induction false} ClaimsStayBounded(states: seq<Table>, events: seq<Event>, n: nat)
    requires IsRun(states, events) && n < |states|
    ensures Valid(states[n]) && |states[n]| <= 64
  {
    if n > 0 {
      ClaimsStayBounded(states, events, n - 1);
      assert Step(states[n - 1], states[n], events[n - 1]);
      match events[n - 1]
      case Rejected(c) => RecordsKeepsValid(states[n - 1], states[n], c);
      case Registered(id) => DeleteKeepsValid(states[n - 1], id);
    }
  }

  ghost predicate Concerns(ev: Event, id: string) {
    match ev
    case Rejected(c) => c.nodeID == id
    case Registered(r) => r == id
  }

  /** Event k is the rejection that c describes, and nothing since concerned
      that id: in particular it has not registered since. */
  ghost predicate StandsSince(events: seq<Event>, n: nat, id: string, c: Claim, k: nat)
    requires n <= |events|
  {
    k < n && events[k] == Rejected(c) && c.nodeID == id && forall j :: k < j < n ==> !Concerns(events[j], id)
  }

  /** A claim present after an event was put there by it, or was there before. */
  lemma ClaimAfterStep(t: Table, t': Table, ev: Event, id: string)
    requires Valid(t) && Step(t, t', ev) && id in t'
    ensures if Concerns(ev, id) then ev == Rejected(t'[id]) && t'[id].nodeID == id else id in t && t'[id] == t[id]
  {
  }

  /** A claim on the dashboard is the latest rejection of a node that has not
      registered since. */
  lemma {:induction false} ClaimIsTheLatestRejection(states: seq<Table>, events: seq<Event>, n: nat, id: string)
    requires IsRun(states, events) && n < |states| && id in states[n]
    ensures exists k: nat :: StandsSince(events, n, id, states[n][id], k)
  {
    if n > 0 {
      var c := states[n][id];
      ClaimsStayBounded(states, events, n - 1);
      ClaimAfterStep(states[n - 1], states[n], events[n - 1], id);
      if Concerns(events[n - 1], id) {
        assert StandsSince(events, n, id, c, n - 1);
      } else {
        ClaimIsTheLatestRejection(states, events, n - 1, id);
        var k: nat :| StandsSince(events, n - 1, id, c, k);
        assert StandsSince(events, n, id, c, k);
      }
    }
  }

  // ---------- the merged fleet view ----------

  function ClaimView(c: Claim): NodeView {
    NodeView(c.nodeID, Connecting, CONNECTING, c.reason, "", [], 0, c.lastAttempt)
  }

  /** cs lists every live claim once, in some order. */
  ghost predicate IsSnapshot(cs: seq<Claim>, t: Table, now: int) {
    && (forall i :: 0 <= i < |cs| ==> cs[i].nodeID in Live(t, now) && cs[i] == t[cs[i].nodeID])
    && (forall i, j :: 0 <= i < j < |cs| ==> cs[i].nodeID != cs[j].nodeID)
    && (forall id :: id in Live(t, now) ==> exists i :: 0 <= i < |cs| && cs[i].nodeID == id)
  }

  /** A snapshot lists exactly the claims at most 60 seconds old. */
  lemma SnapshotByAge(cs: seq<Claim>, t: Table, now: int)
    requires IsSnapshot(cs, t, now)
    ensures forall i :: 0 <= i < |cs| ==> now - cs[i].lastAttempt <= 60 * 1_000_000_000
    ensures forall id :: id in t && now - t[id].lastAttempt <= 60 * 1_000_000_000 ==> t[id] in cs
  {
    forall id | id in t && now - t[id].lastAttempt <= 60 * 1_000_000_000 ensures t[id] in cs {
      assert id in Live(t, now);
      var i :| 0 <= i < |cs| && cs[i].nodeID == id;
      assert cs[i] == t[id];
    }
  }

  function ClaimViews(cs: seq<Claim>): seq<NodeView> {
    seq(|cs|, i requires 0 <= i < |cs| => ClaimView(cs[i]))
  }

  function Ids(views: seq<NodeView>): set<string> {
    set i | 0 <= i < |views| :: views[i].id
  }

  ghost predicate DistinctIds(views: seq<NodeView>) {
    forall i, j :: 0 <= i < j < |views| ==> views[i].id != views[j].id
  }

  /** The views whose id is not among the registered ones, in order. */
  function Unregistered(views: seq<NodeView>, registered: set<string>): seq<NodeView> {
    if views == [] then []
    else
      var last := views[|views| - 1];
      Unregistered(views[..|views| - 1], registered) + if last.id in registered then [] else [last]
  }

  /** fleetView: registered nodes first, then the claims not among them. */
  method FleetView(nodes: seq<NodeView>, claims: Option<seq<NodeView>>) returns (out: seq<NodeView>)
    ensures out == nodes + if claims.Some? then Unregistered(claims.value, Ids(nodes)) else []
  {
    out := nodes;
    if claims.None? {
      return;
    }
    var registered: set<string> := {};
    for i := 0 to |nodes|
      invariant registered == Ids(nodes[..i])
    {
      IdsSnoc(nodes, i);
      registered := registered + {nodes[i].id};
    }
    assert nodes[..|nodes|] == nodes;
    var cs := claims.value;
    for i := 0 to |cs|
      invariant out == nodes + Unregistered(cs[..i], registered)
    {
      assert cs[..i + 1][..i] == cs[..i];
      if cs[i].id !in registered {
        out := out + [cs[i]];
      }
    }
    assert cs[..|cs|] == cs;
  }

  lemma {:induction false} UnregisteredIds(views: seq<NodeView>, registered: set<string>)
    requires DistinctIds(views)
    ensures var rest := Unregistered(views, registered);
            DistinctIds(rest) && Ids(rest) == Ids(views) - registered
  {
    if views != [] {
      var n := |views| - 1;
      UnregisteredIds(views[..n], registered);
      IdsSnoc(views, n);
      assert views[..n + 1] == views;
      assert views[n].id !in Ids(views[..n]);
      var before := Unregistered(views[..n], registered);
      IdsAppend(before, views[n]);
      assert forall i :: 0 <= i < |before| ==> before[i].id in Ids(before);
      assert before + [] == before;
    }
  }

  lemma IdsSnoc(views: seq<NodeView>, i: nat)
    requires i < |views|
    ensures Ids(views[..i + 1]) == Ids(views[..i]) + {views[i].id}
  {
    IdsAppend(views[..i], views[i]);
    assert views[..i + 1] == views[..i] + [views[i]];
  }

  lemma IdsAppend(views: seq<NodeView>, v: NodeView)
    ensures Ids(views + [v]) == Ids(views) + {v.id}
  {
    var all := views + [v];
    assert all[|views|] == v;
    assert forall i :: 0 <= i < |views| ==> all[i] == views[i];
    forall id | id in Ids(views) ensures id in Ids(all) {
      var i :| 0 <= i < |views| && views[i].id == id;
      assert all[i].id == id;
    }
  }

  lemma {:induction false} IdsConcat(a: seq<NodeView>, b: seq<NodeView>)
    ensures Ids(a + b) == Ids(a) + Ids(b)
  {
    if b == [] {
      assert a + b == a;
    } else {
      var n := |b| - 1;
      IdsConcat(a, b[..n]);
      assert a + b == a + b[..n] + [b[n]] && b == b[..n] + [b[n]];
      IdsAppend(a + b[..n], b[n]);
      IdsAppend(b[..n], b[n]);
    }
  }

  /** Concatenating views of distinct nodes. */
  lemma DistinctConcat(a: seq<NodeView>, b: seq<NodeView>)
    requires DistinctIds(a) && DistinctIds(b) && Ids(a) !! Ids(b)
    ensures DistinctIds(a + b) && Ids(a + b) == Ids(a) + Ids(b)
  {
    IdsConcat(a, b);
    assert forall i :: 0 <= i < |a| ==> a[i].id in Ids(a);
    assert forall i :: 0 <= i < |b| ==> b[i].id in Ids(b);
  }

  /** The merged view lists each registered id and each live-claim id exactly
      once, even when the registry and the claims are read at different moments:
      nothing relates r and times to t and t2. */
  lemma FleetViewListsEachOnce(r: Reg, times: seq<int>, staleAfter: int, t: Table, t2: int, cs: seq<Claim>)
    requires Inv(r) && |times| == |r.order| && IsSnapshot(cs, t, t2)
    ensures Listed(r)
    ensures var nodes := SnapshotAt(r, times, staleAfter);
            var out := nodes + Unregistered(ClaimViews(cs), Ids(nodes));
            DistinctIds(out) && Ids(out) == r.byID.Keys + Live(t, t2).Keys
    ensures AllShow(Unregistered(ClaimViews(cs), Ids(SnapshotAt(r, times, staleAfter))), t, t2)
  {
    forall i | 0 <= i < |ClaimViews(cs)| ensures ShowsClaim(ClaimViews(cs)[i], t, t2) {
      assert cs[i].nodeID in Live(t, t2) && cs[i] == t[cs[i].nodeID];
    }
    UnregisteredShow(ClaimViews(cs), Ids(SnapshotAt(r, times, staleAfter)), t, t2);
    RegisteredViews(r, times, staleAfter);
    ClaimedViews(t, t2, cs);
    var nodes := SnapshotAt(r, times, staleAfter);
    UnregisteredIds(ClaimViews(cs), Ids(nodes));
    DistinctConcat(nodes, Unregistered(ClaimViews(cs), Ids(nodes)));
  }

  /** The row of a claim at most 60 seconds old. */
  ghost predicate ShowsClaim(v: NodeView, t: Table, now: int) {
    && v.id in t && v.status == Connecting && v.connectionState == "connecting"
    && v.claimReason == t[v.id].reason && v.lastHeartbeat == t[v.id].lastAttempt
    && now - v.lastHeartbeat <= 60 * 1_000_000_000
  }

  ghost predicate AllShow(views: seq<NodeView>, t: Table, now: int) {
    forall i :: 0 <= i < |views| ==> ShowsClaim(views[i], t, now)
  }

  lemma {:induction false} UnregisteredShow(views: seq<NodeView>, registered: set<string>, t: Table, now: int)
    requires AllShow(views, t, now)
    ensures AllShow(Unregistered(views, registered), t, now)
  {
    if views != [] {
      var n := |views| - 1;
      assert ShowsClaim(views[n], t, now);
      UnregisteredShow(views[..n], registered, t, now);
    }
  }

  lemma RegisteredViews(r: Reg, times: seq<int>, staleAfter: int)
    requires Inv(r) && |times| == |r.order|
    ensures Listed(r)
    ensures var nodes := SnapshotAt(r, times, staleAfter); DistinctIds(nodes) && Ids(nodes) == r.byID.Keys
  {
    assert forall i :: 0 <= i < |r.order| ==> r.order[i] in Elements(r.order);
    var nodes := SnapshotAt(r, times, staleAfter);
    assert forall i :: 0 <= i < |nodes| ==> nodes[i].id == r.order[i];
    forall id | id in r.byID ensures id in Ids(nodes) {
      assert id in Elements(r.order);
      var i :| 0 <= i < |r.order| && r.order[i] == id;
      assert nodes[i].id == id;
    }
  }

  lemma ClaimedViews(t: Table, now: int, cs: seq<Claim>)
    requires IsSnapshot(cs, t, now)
    ensures DistinctIds(ClaimViews(cs)) && Ids(ClaimViews(cs)) == Live(t, now).Keys
  {
    var views := ClaimViews(cs);
    forall id | id in Live(t, now) ensures id in Ids(views) {
      var i :| 0 <= i < |cs| && cs[i].nodeID == id;
      assert views[i].id == id;
    }
  }
}
