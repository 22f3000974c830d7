/**
 The router's node registry (internal/router/nodes.go) as a value: the two maps
 and the insertion order, what one upsert does to them, and least-connections
 selection. The imperative form is NodeRegistry.NodeRegistry.
 */
module Registry {
  import opened Seqs

  type Pipe = nat

  const CONNECTING: string := "connecting"
  const DEGRADED: string := "degraded"

  datatype Entry = Entry(
    id: string, tokenID: string, pipe: Pipe, connectionState: string, activeModel: string, catalog: seq<string>,
    activeRequests: int, lastSeen: int, syncedCatalog: seq<string>)

  datatype Reg = Reg(byID: map<string, Entry>, byPipe: map<Pipe, Entry>, order: seq<string>)

  const EMPTY: Reg := Reg(map[], map[], [])

  // ---------- removal from the order ----------

  function FirstIndex(s: seq<string>, x: string): (i: nat)
    ensures i <= |s|
    ensures x !in s[..i]
    ensures i < |s| ==> s[i] == x
  {
    if s == [] then 0
    else if s[0] == x then 0
    else
      var i := 1 + FirstIndex(s[1..], x);
      assert s[..i] == [s[0]] + s[1..][..i - 1];
      i
  }

  /** The sequence without the first occurrence of x. */
  function RemoveFirst(s: seq<string>, x: string): seq<string> {
    var i := FirstIndex(s, x);
    if i == |s| then s else s[..i] + s[i + 1..]
  }

  lemma RemoveFirstOfNoDup(s: seq<string>, x: string)
    requires NoDup(s)
    ensures NoDup(RemoveFirst(s, x))
    ensures Elements(RemoveFirst(s, x)) == Elements(s) - {x}
  {
    var i, r := FirstIndex(s, x), RemoveFirst(s, x);
    if i < |s| {
      assert forall j :: 0 <= j < |r| ==> r[j] == if j < i then s[j] else s[j + 1];
      forall y | y in Elements(s) - {x} ensures y in r {
        var j :| 0 <= j < |s| && s[j] == y;
        assert j < i ==> r[j] == y;
        assert j > i ==> r[j - 1] == y;
      }
    } else {
      assert s[..i] == s;
    }
  }

  // ---------- upsert ----------

  /** The pipe's previous owner, if it was another node, leaves the registry. */
  function Retire(r: Reg, e: Entry): Reg {
    if e.pipe in r.byPipe && r.byPipe[e.pipe].id != e.id
    then var gone := r.byPipe[e.pipe].id; r.(byID := r.byID - {gone}, order := RemoveFirst(r.order, gone))
    else r
  }

  /** The last-synced catalog survives a refresh. */
  function Inherit(r: Reg, e: Entry): Entry {
    if e.id in r.byID then e.(syncedCatalog := r.byID[e.id].syncedCatalog) else e
  }

  function Upsert(r: Reg, e: Entry): Reg {
    var r1 := Retire(r, e);
    var e1 := Inherit(r1, e);
    Reg(r1.byID[e.id := e1], r1.byPipe[e.pipe := e1], if e.id in r1.byID then r1.order else r1.order + [e.id])
  }

  /** order lists exactly the registered ids once each; entries sit under their
      own id and pipe; and the pipe of a registered entry leads back to that
      very entry. */
  ghost predicate Inv(r: Reg) {
    && NoDup(r.order)
    && Elements(r.order) == r.byID.Keys
    && (forall id :: id in r.byID ==> r.byID[id].id == id)
    && (forall p :: p in r.byPipe ==> r.byPipe[p].pipe == p)
    && (forall id :: id in r.byID ==> r.byID[id].pipe in r.byPipe && r.byPipe[r.byID[id].pipe] == r.byID[id])
  }

  lemma RetireKeeps(r: Reg, e: Entry)
    requires Inv(r)
    ensures var r1 := Retire(r, e);
            && NoDup(r1.order)
            && Elements(r1.order) == r1.byID.Keys
            && r1.byID.Keys <= r.byID.Keys
            && (forall id :: id in r1.byID ==> r1.byID[id] == r.byID[id])
            && (forall id :: id in r1.byID && id != e.id ==> r1.byID[id].pipe != e.pipe)
  {
    if e.pipe in r.byPipe && r.byPipe[e.pipe].id != e.id {
      RemoveFirstOfNoDup(r.order, r.byPipe[e.pipe].id);
    }
  }

  lemma AppendNew(s: seq<string>, x: string)
    requires NoDup(s) && x !in Elements(s)
    ensures NoDup(s + [x]) && Elements(s + [x]) == Elements(s) + {x}
  {
    assert forall i :: 0 <= i < |s| ==> s[i] in Elements(s);
  }

  lemma UpsertKeepsOrder(r: Reg, e: Entry)
    requires Inv(r)
    ensures NoDup(Upsert(r, e).order) && Elements(Upsert(r, e).order) == Upsert(r, e).byID.Keys
  {
    var r1 := Retire(r, e);
    RetireKeeps(r, e);
    if e.id !in r1.byID {
      AppendNew(r1.order, e.id);
    }
  }

  /** The maps after an upsert, given what Retire left. */
  lemma UpsertKeepsMaps(r: Reg, e: Entry, r1: Reg)
    requires Inv(r) && r1.byPipe == r.byPipe && r1.byID.Keys <= r.byID.Keys
    requires forall id :: id in r1.byID ==> r1.byID[id] == r.byID[id] && (id != e.id ==> r1.byID[id].pipe != e.pipe)
    ensures var e1 := Inherit(r1, e);
            var byID, byPipe := r1.byID[e.id := e1], r1.byPipe[e.pipe := e1];
            && (forall id :: id in byID ==> byID[id].id == id)
            && (forall p :: p in byPipe ==> byPipe[p].pipe == p)
            && (forall id :: id in byID ==> byID[id].pipe in byPipe && byPipe[byID[id].pipe] == byID[id])
  {
  }

  lemma UpsertKeepsInv(r: Reg, e: Entry)
    requires Inv(r)
    ensures Inv(Upsert(r, e))
  {
    RetireKeeps(r, e);
    UpsertKeepsOrder(r, e);
    UpsertKeepsMaps(r, e, Retire(r, e));
  }

  /** The registry after the first n of these upserts. */
  ghost function After(es: seq<Entry>, n: nat): Reg
    requires n <= |es|
  {
    if n == 0 then EMPTY else Upsert(After(es, n - 1), es[n - 1])
  }

  /** Over every sequence of upserts: the registry invariant, and so no two
      registered nodes share a pipe and every listed id has an entry. */
  lemma {:induction false} RegistryInvariant(es: seq<Entry>, n: nat)
    requires n <= |es|
    ensures var r := After(es, n);
            && Inv(r)
            && (forall i :: 0 <= i < |r.order| ==> r.order[i] in r.byID)
            && (forall a, b :: a in r.byID && b in r.byID && r.byID[a].pipe == r.byID[b].pipe ==> a == b)
  {
    if n > 0 {
      RegistryInvariant(es, n - 1);
      UpsertKeepsInv(After(es, n - 1), es[n - 1]);
    }
    var r := After(es, n);
    assert forall i :: 0 <= i < |r.order| ==> r.order[i] in Elements(r.order);
  }

  /** Both maps agree in both directions. */
  ghost predicate TwoWay(r: Reg) {
    forall p :: p in r.byPipe ==> r.byPipe[p].id in r.byID && r.byID[r.byPipe[p].id] == r.byPipe[p]
  }

  /** The comment on upsert promises the maps stay in sync. From an in-sync
      registry that holds exactly when the node does not move to another pipe. */
  lemma InSyncUnlessTheNodeMoves(r: Reg, e: Entry)
    requires Inv(r) && TwoWay(r)
    ensures TwoWay(Upsert(r, e)) <==> (e.id in r.byID ==> r.byID[e.id].pipe == e.pipe)
  {
    if e.id in r.byID && r.byID[e.id].pipe != e.pipe {
      MovingLeavesAStalePipe(r, e);
    } else {
      StayingKeepsTwoWay(r, e);
    }
  }

  lemma MovingLeavesAStalePipe(r: Reg, e: Entry)
    requires Inv(r) && e.id in r.byID && r.byID[e.id].pipe != e.pipe
    ensures !TwoWay(Upsert(r, e))
  {
    var r', q := Upsert(r, e), r.byID[e.id].pipe;
    assert r'.byPipe[q] == r.byID[e.id] && r'.byID[e.id].pipe == e.pipe;
  }

  lemma StayingKeepsTwoWay(r: Reg, e: Entry)
    requires Inv(r) && TwoWay(r) && (e.id in r.byID ==> r.byID[e.id].pipe == e.pipe)
    ensures TwoWay(Upsert(r, e))
  {
    var r' := Upsert(r, e);
    forall p | p in r'.byPipe ensures r'.byPipe[p].id in r'.byID && r'.byID[r'.byPipe[p].id] == r'.byPipe[p] {
      if p != e.pipe {
        assert r'.byPipe[p] == r.byPipe[p] && r.byID[r.byPipe[p].id] == r.byPipe[p];
      }
    }
  }

  /** An upsert of a registered node on another pipe. */
  ghost predicate Moves(r: Reg, e: Entry) {
    e.id in r.byID && r.byID[e.id].pipe != e.pipe
  }

  /** The maps are in sync after n upserts. */
  ghost predicate SyncedAt(es: seq<Entry>, n: nat)
    requires n <= |es|
  {
    TwoWay(After(es, n))
  }

  /** Upsert n moves a registered node. */
  ghost predicate MovesAt(es: seq<Entry>, n: nat)
    requires n < |es|
  {
    Moves(After(es, n), es[n])
  }

  lemma SyncStep(es: seq<Entry>, n: nat)
    requires n < |es| && SyncedAt(es, n)
    ensures SyncedAt(es, n + 1) <==> !MovesAt(es, n)
  {
    RegistryInvariant(es, n);
    InSyncUnlessTheNodeMoves(After(es, n), es[n]);
  }

  /** Over runs: the maps have been in sync all along exactly when no upsert
      moved a registered node. */
  lemma InSyncExactlyWithoutMoves(es: seq<Entry>)
    ensures (forall k :: 0 <= k <= |es| ==> SyncedAt(es, k)) <==> forall k :: 0 <= k < |es| ==> !MovesAt(es, k)
  {
    var synced := k => 0 <= k <= |es| && SyncedAt(es, k);
    var moves := k => 0 <= k < |es| && MovesAt(es, k);
    forall k | 0 <= k < |es| && synced(k) ensures synced(k + 1) <==> !moves(k) {
      SyncStep(es, k);
    }
    HoldsUntilBroken(synced, moves, |es|);
    assert forall k :: 0 <= k <= |es| ==> (synced(k) <==> SyncedAt(es, k));
    assert forall k :: 0 <= k < |es| ==> (moves(k) <==> MovesAt(es, k));
  }

  /** What only breaks ever end holds throughout exactly when there is none. */
  lemma {:induction false} HoldsUntilBroken(holds: int -> bool, breaks: int -> bool, n: nat)
    requires holds(0) && forall k :: 0 <= k < n && holds(k) ==> (holds(k + 1) <==> !breaks(k))
    ensures (forall k :: 0 <= k <= n ==> holds(k)) <==> forall k :: 0 <= k < n ==> !breaks(k)
  {
    if n > 0 {
      HoldsUntilBroken(holds, breaks, n - 1);
      assert holds(n - 1) ==> (holds(n - 1 + 1) <==> !breaks(n - 1));
    }
  }

  /** Exactly which node an upsert removes: the one the pipe map remembers for
      this pipe, wherever that node lives now. */
  lemma RetiredExactly(r: Reg, e: Entry, id: string)
    requires Inv(r) && id in r.byID
    ensures id !in Upsert(r, e).byID <==> e.pipe in r.byPipe && r.byPipe[e.pipe].id == id && id != e.id
  {
  }

  function Node(id: string, pipe: Pipe): Entry {
    Entry(id, "", pipe, "", "", [], 0, 0, [])
  }

  /** A stale pipe entry retires a node that is registered on another pipe. */
  lemma StalePipeRetiresALiveNode()
    ensures var r := After([Node("a", 1), Node("a", 2)], 2);
            && r.byID["a"].pipe == 2
            && "a" !in Upsert(r, Node("b", 1)).byID
  {
    var es := [Node("a", 1), Node("a", 2)];
    assert After(es, 1) == Upsert(After(es, 0), Node("a", 1));
  }

  // ---------- the order is the order of entry ----------

  /** The step at which an id registered after n upserts last entered. */
  ghost function LastEntry(es: seq<Entry>, n: nat, id: string): nat
    requires n <= |es| && id in After(es, n).byID
  {
    if id in After(es, n - 1).byID then LastEntry(es, n - 1, id) else n - 1
  }

  /** id was absent just before step k, which entered it, and has been registered
      ever since, up to step n. */
  ghost predicate EnteredAt(es: seq<Entry>, n: nat, id: string, k: nat)
    requires n <= |es|
  {
    && k < n && es[k].id == id && id !in After(es, k).byID
    && forall m :: k < m <= n ==> Present(es, m, id)
  }

  ghost predicate Present(es: seq<Entry>, n: nat, id: string)
    requires n <= |es|
  {
    id in After(es, n).byID
  }

  /** What the entry step means. */
  lemma {:induction false} LastEntryMeaning(es: seq<Entry>, n: nat, id: string)
    requires n <= |es| && id in After(es, n).byID
    ensures EnteredAt(es, n, id, LastEntry(es, n, id))
  {
    if id in After(es, n - 1).byID {
      LastEntryMeaning(es, n - 1, id);
    } else {
      OnlyTheHeartbeatsOwn(After(es, n - 1), es[n - 1], id);
    }
  }

  lemma OnlyTheHeartbeatsOwn(r: Reg, e: Entry, id: string)
    requires id in Upsert(r, e).byID && id !in r.byID
    ensures id == e.id
  {
  }

  /** The listed ids are registered, and sorted by last entry. */
  ghost predicate SortedByEntry(es: seq<Entry>, n: nat, ids: seq<string>)
    requires n <= |es|
  {
    && (forall i :: 0 <= i < |ids| ==> ids[i] in After(es, n).byID)
    && (forall i, j :: 0 <= i < j < |ids| ==> LastEntry(es, n, ids[i]) < LastEntry(es, n, ids[j]))
  }

  lemma RemovalKeepsSorted(es: seq<Entry>, n: nat, ids: seq<string>, x: string)
    requires n <= |es| && SortedByEntry(es, n, ids)
    ensures SortedByEntry(es, n, RemoveFirst(ids, x))
  {
    var i, rest := FirstIndex(ids, x), RemoveFirst(ids, x);
    if i < |ids| {
      assert forall j :: 0 <= j < |rest| ==> rest[j] == if j < i then ids[j] else ids[j + 1];
    }
  }

  /** Ids registered before and after a step keep their entry step. */
  lemma SortedAcrossStep(es: seq<Entry>, n: nat, ids: seq<string>)
    requires n < |es| && SortedByEntry(es, n, ids)
    requires forall i :: 0 <= i < |ids| ==> ids[i] in After(es, n + 1).byID
    ensures SortedByEntry(es, n + 1, ids)
    ensures forall i :: 0 <= i < |ids| ==> LastEntry(es, n + 1, ids[i]) < n
  {
    forall i | 0 <= i < |ids|
      ensures LastEntry(es, n + 1, ids[i]) == LastEntry(es, n, ids[i]) < n
    {
      LastEntryMeaning(es, n, ids[i]);
    }
  }

  lemma NewcomerGoesLast(es: seq<Entry>, n: nat, ids: seq<string>, id: string)
    requires n < |es| && SortedByEntry(es, n + 1, ids)
    requires forall i :: 0 <= i < |ids| ==> LastEntry(es, n + 1, ids[i]) < n
    requires id in After(es, n + 1).byID && id !in After(es, n).byID
    ensures SortedByEntry(es, n + 1, ids + [id])
  {
    assert LastEntry(es, n + 1, id) == n;
  }

  /** Retiring a node leaves the others sorted. */
  lemma RetireKeepsSorted(es: seq<Entry>, n: nat, e: Entry)
    requires n <= |es| && SortedByEntry(es, n, After(es, n).order)
    ensures SortedByEntry(es, n, Retire(After(es, n), e).order)
  {
    var r := After(es, n);
    if e.pipe in r.byPipe && r.byPipe[e.pipe].id != e.id {
      RemovalKeepsSorted(es, n, r.order, r.byPipe[e.pipe].id);
    }
  }

  /** order is the surviving ids sorted by the step at which each last entered. */
  lemma OrderIsByEntry(es: seq<Entry>, n: nat)
    requires n <= |es|
    ensures SortedByEntry(es, n, After(es, n).order)
    ensures Elements(After(es, n).order) == After(es, n).byID.Keys
  {
    RegistryInvariant(es, n);
    OrderIsSorted(es, n);
  }

  lemma {:induction false} OrderIsSorted(es: seq<Entry>, n: nat)
    requires n <= |es|
    ensures SortedByEntry(es, n, After(es, n).order)
  {
    if n > 0 {
      OrderIsSorted(es, n - 1);
      OrderAfterStep(es, n - 1);
    }
  }

  lemma OrderAfterStep(es: seq<Entry>, n: nat)
    requires n < |es| && SortedByEntry(es, n, After(es, n).order)
    ensures SortedByEntry(es, n + 1, After(es, n + 1).order)
  {
    var e, r1 := es[n], Retire(After(es, n), es[n]);
    RegistryInvariant(es, n);
    RetiredOrder(After(es, n), e);
    RetireKeepsSorted(es, n, e);
    SortedAcrossStep(es, n, r1.order);
    if e.id !in r1.byID {
      NewcomerGoesLast(es, n, r1.order, e.id);
    }
  }

  /** The ids still listed after a retirement are still registered then. */
  lemma RetiredOrder(r: Reg, e: Entry)
    requires Inv(r)
    ensures forall i :: 0 <= i < |Retire(r, e).order| ==> Retire(r, e).order[i] in Upsert(r, e).byID
  {
    var r1 := Retire(r, e);
    RetireKeeps(r, e);
    assert forall i :: 0 <= i < |r1.order| ==> r1.order[i] in Elements(r1.order);
  }

  // ---------- selection and the dashboard's view ----------

  datatype Status = Online | Stale | Degraded | Connecting

  /** One row of the dashboard; claimReason is set only on claims. */
  datatype NodeView = NodeView(
    id: string, status: Status, connectionState: string, claimReason: string, activeModel: string,
    catalog: seq<string>, activeRequests: int, lastHeartbeat: int)

  predicate Fresh(e: Entry, now: int, staleAfter: int) {
    now - e.lastSeen <= staleAfter
  }

  function ViewOf(e: Entry, now: int, staleAfter: int): NodeView {
    var status := if !Fresh(e, now, staleAfter) then Stale else if e.connectionState == DEGRADED then Degraded else Online;
    NodeView(e.id, status, e.connectionState, "", e.activeModel, e.catalog, e.activeRequests, e.lastSeen)
  }

  ghost predicate Listed(r: Reg) {
    forall i :: 0 <= i < |r.order| ==> r.order[i] in r.byID
  }

  /** NodesSnapshot: one row per listed id, in order; the clock is read for each. */
  ghost function SnapshotAt(r: Reg, times: seq<int>, staleAfter: int): seq<NodeView>
    requires Listed(r) && |times| == |r.order|
  {
    seq(|r.order|, i requires 0 <= i < |r.order| => ViewOf(r.byID[r.order[i]], times[i], staleAfter))
  }

  /** The same with one clock reading. */
  ghost function Snapshot(r: Reg, now: int, staleAfter: int): seq<NodeView>
    requires Listed(r)
  {
    seq(|r.order|, i requires 0 <= i < |r.order| => ViewOf(r.byID[r.order[i]], now, staleAfter))
  }

  /** The scan of selectLeastConnections over the first n listed nodes. */
  function Best(r: Reg, now: int, staleAfter: int, n: nat): Option<Entry>
    requires Listed(r) && n <= |r.order|
  {
    if n == 0 then None
    else Better(Best(r, now, staleAfter, n - 1), r.byID[r.order[n - 1]], now, staleAfter)
  }

  /** One turn of that scan. */
  function Better(best: Option<Entry>, e: Entry, now: int, staleAfter: int): Option<Entry> {
    if !Fresh(e, now, staleAfter) then best
    else if best.None? || e.activeRequests < best.value.activeRequests then Some(e)
    else best
  }

  function Select(r: Reg, now: int, staleAfter: int): Option<Entry>
    requires Listed(r)
  {
    Best(r, now, staleAfter, |r.order|)
  }

  /** Of the first n rows, row i is not stale, no live one has fewer active
      requests, and every earlier live one has more. */
  ghost predicate FirstMinimumOf(rows: seq<NodeView>, n: nat, i: nat)
    requires n <= |rows|
  {
    && i < n && !rows[i].status.Stale?
    && (forall j :: 0 <= j < n && !rows[j].status.Stale? ==> rows[i].activeRequests <= rows[j].activeRequests)
    && (forall j :: 0 <= j < i && !rows[j].status.Stale? ==> rows[i].activeRequests < rows[j].activeRequests)
  }

  ghost predicate FirstMinimum(rows: seq<NodeView>, i: nat) {
    FirstMinimumOf(rows, |rows|, i)
  }

  ghost predicate AllStale(rows: seq<NodeView>, n: nat)
    requires n <= |rows|
  {
    forall j :: 0 <= j < n ==> rows[j].status.Stale?
  }

  /** The first minimum after one more row. */
  lemma FirstMinimumNext(rows: seq<NodeView>, n: nat, i: nat)
    requires n < |rows| && FirstMinimumOf(rows, n, i)
    ensures rows[n].status.Stale? || rows[i].activeRequests <= rows[n].activeRequests ==> FirstMinimumOf(rows, n + 1, i)
    ensures !rows[n].status.Stale? && rows[n].activeRequests < rows[i].activeRequests ==> FirstMinimumOf(rows, n + 1, n)
  {
  }

  /** The position of what the scan has found after n listed nodes. */
  ghost function BestAt(r: Reg, now: int, staleAfter: int, n: nat): (best: Option<nat>)
    requires Listed(r) && n <= |r.order|
    ensures best.Some? ==> best.value < n
  {
    if n == 0 then None
    else
      var best, e := BestAt(r, now, staleAfter, n - 1), r.byID[r.order[n - 1]];
      if !Fresh(e, now, staleAfter) then best
      else if best.None? || e.activeRequests < r.byID[r.order[best.value]].activeRequests then Some(n - 1)
      else best
  }

  lemma {:induction false} BestIsThere(r: Reg, now: int, staleAfter: int, n: nat)
    requires Listed(r) && n <= |r.order|
    ensures Best(r, now, staleAfter, n)
            == match BestAt(r, now, staleAfter, n)
               case None => None
               case Some(i) => Some(r.byID[r.order[i]])
  {
    if n > 0 {
      BestIsThere(r, now, staleAfter, n - 1);
    }
  }

  /** The rows show who is stale, and each node's load. */
  ghost predicate Shows(r: Reg, rows: seq<NodeView>, now: int, staleAfter: int)
    requires Listed(r)
  {
    && |rows| == |r.order|
    && forall i :: 0 <= i < |rows| ==> ShowsAt(r, rows[i], i, now, staleAfter)
  }

  ghost predicate ShowsAt(r: Reg, row: NodeView, i: nat, now: int, staleAfter: int)
    requires Listed(r) && i < |r.order|
  {
    && (row.status.Stale? <==> !Fresh(r.byID[r.order[i]], now, staleAfter))
    && row.activeRequests == r.byID[r.order[i]].activeRequests
  }

  /** What the scan has found after n rows. */
  ghost predicate IsBest(rows: seq<NodeView>, n: nat, best: Option<nat>)
    requires n <= |rows|
  {
    match best
    case None => AllStale(rows, n)
    case Some(i) => FirstMinimumOf(rows, n, i)
  }

  lemma {:induction false} BestIsFirstMinimum(r: Reg, rows: seq<NodeView>, now: int, staleAfter: int, n: nat)
    requires Listed(r) && Shows(r, rows, now, staleAfter) && n <= |r.order|
    ensures IsBest(rows, n, BestAt(r, now, staleAfter, n))
  {
    if n > 0 {
      BestIsFirstMinimum(r, rows, now, staleAfter, n - 1);
      var best := BestAt(r, now, staleAfter, n - 1);
      assert ShowsAt(r, rows[n - 1], n - 1, now, staleAfter);
      if best.Some? {
        assert ShowsAt(r, rows[best.value], best.value, now, staleAfter);
        FirstMinimumNext(rows, n - 1, best.value);
      }
    }
  }

  lemma FirstMinimumUnique(rows: seq<NodeView>, i: nat, j: nat)
    requires FirstMinimum(rows, i) && FirstMinimum(rows, j)
    ensures i == j
  {
  }

  /** Selection answers with the first minimum of activeRequests among the rows
      the dashboard would not call stale, and with nothing exactly when all are. */
  lemma SelectIsFirstMinimum(r: Reg, now: int, staleAfter: int)
    requires Listed(r)
    ensures var rows, chosen := Snapshot(r, now, staleAfter), Select(r, now, staleAfter);
            && (chosen.None? <==> forall j :: 0 <= j < |rows| ==> rows[j].status.Stale?)
            && (forall i: nat :: FirstMinimum(rows, i) ==> chosen == Some(r.byID[r.order[i]]))
            && (chosen.Some? ==> exists i: nat :: FirstMinimum(rows, i))
  {
    var rows, i := Snapshot(r, now, staleAfter), BestAt(r, now, staleAfter, |r.order|);
    BestIsThere(r, now, staleAfter, |r.order|);
    BestIsFirstMinimum(r, rows, now, staleAfter, |r.order|);
    if i.Some? {
      assert FirstMinimum(rows, i.value);
      forall j: nat | FirstMinimum(rows, j) ensures j == i.value {
        FirstMinimumUnique(rows, i.value, j);
      }
    }
  }

  /** With no upsert in between, a later selection gives the same answer unless
      the chosen node itself has gone stale; no answer stays no answer. */
  lemma SelectionIsStable(r: Reg, t1: int, t2: int, staleAfter: int)
    requires Listed(r) && t1 <= t2
    ensures Select(r, t1, staleAfter).None? ==> Select(r, t2, staleAfter).None?
    ensures Select(r, t1, staleAfter).Some? && Fresh(Select(r, t1, staleAfter).value, t2, staleAfter)
            ==> Select(r, t2, staleAfter) == Select(r, t1, staleAfter)
  {
    SelectIsFirstMinimum(r, t1, staleAfter);
    SelectIsFirstMinimum(r, t2, staleAfter);
    var rows1, rows2 := Snapshot(r, t1, staleAfter), Snapshot(r, t2, staleAfter);
    assert forall j :: 0 <= j < |rows1| && rows1[j].status.Stale? ==> rows2[j].status.Stale?;
    if Select(r, t1, staleAfter).Some? && Fresh(Select(r, t1, staleAfter).value, t2, staleAfter) {
      var i: nat :| FirstMinimum(rows1, i);
      assert FirstMinimum(rows2, i);
    }
  }

  /** A selected node is registered and was heard from within staleAfter. */
  lemma SelectedIsFresh(r: Reg, now: int, staleAfter: int)
    requires Listed(r) && Select(r, now, staleAfter).Some?
    ensures var e := Select(r, now, staleAfter).value;
            Fresh(e, now, staleAfter) && exists id :: id in r.byID && r.byID[id] == e
  {
    SelectIsFirstMinimum(r, now, staleAfter);
    var i: nat :| FirstMinimum(Snapshot(r, now, staleAfter), i);
    assert r.order[i] in r.byID;
  }
}
