/**
 Catalog persistence (internal/router/nodes.go, persist and syncCatalog): the
 router rewrites a node's rows in node_model_catalogs only when the advertised
 catalog differs from the one it last synced. The table is a map from node id to
 its model names in insertion order; a unique index refuses repeated names.
 */
module Catalog {
  import opened Seqs
  import opened Registry

  type Rows = map<string, seq<string>>

  datatype State = State(reg: Reg, rows: Rows)

  /** An accepted heartbeat with the fate of its two writes, or a router restart,
      which empties the registry and keeps the table. */
  datatype Event = Heartbeat(entry: Entry, nodeRowOk: bool, txOk: bool) | Restart

  function RowsOf(rows: Rows, id: string): seq<string> {
    if id in rows then rows[id] else []
  }

  /** The entry is shared by both maps; it records what was synced. */
  function MarkSynced(r: Reg, id: string): Reg
    requires id in r.byID
  {
    var e := r.byID[id].(syncedCatalog := r.byID[id].catalog);
    r.(byID := r.byID[id := e], byPipe := r.byPipe[e.pipe := e])
  }

  /** persist for a registered node; the unique index refuses a repeated name. */
  function Persist(s: State, id: string, nodeRowOk: bool, txOk: bool): State
    requires id in s.reg.byID
  {
    var e := s.reg.byID[id];
    if nodeRowOk && e.catalog != e.syncedCatalog && txOk && NoDup(e.catalog)
    then State(MarkSynced(s.reg, id), s.rows[id := e.catalog])
    else s
  }

  /** A heartbeat builds its entry with no synced catalog of its own. */
  function Step(s: State, ev: Event): State {
    match ev
    case Heartbeat(e, nodeRowOk, txOk) =>
      Persist(State(Upsert(s.reg, e.(syncedCatalog := [])), s.rows), e.id, nodeRowOk, txOk)
    case Restart => State(EMPTY, s.rows)
  }

  /** A heartbeat is an upsert followed by persist. */
  lemma HeartbeatPersists(s: State, e: Entry, nodeRowOk: bool, txOk: bool)
    requires e.syncedCatalog == []
    ensures e.id in Upsert(s.reg, e).byID
    ensures Step(s, Heartbeat(e, nodeRowOk, txOk)) == Persist(State(Upsert(s.reg, e), s.rows), e.id, nodeRowOk, txOk)
    ensures Upsert(s.reg, e).byID[e.id].catalog == e.catalog
  {
    assert e.(syncedCatalog := []) == e;
  }

  ghost function After(rows: Rows, run: seq<Event>): State {
    if run == [] then State(EMPTY, rows) else Step(After(rows, run[..|run| - 1]), run[|run| - 1])
  }

  /** A non-empty cached catalog is what the table holds. */
  ghost predicate CacheAgrees(s: State) {
    forall id :: id in s.reg.byID && s.reg.byID[id].syncedCatalog != []
                 ==> RowsOf(s.rows, id) == s.reg.byID[id].syncedCatalog
  }

  lemma MarkSyncedKeepsInv(r: Reg, id: string)
    requires Inv(r) && id in r.byID
    ensures Inv(MarkSynced(r, id))
  {
    var r' := MarkSynced(r, id);
    assert r'.byID.Keys == r.byID.Keys;
  }

  /** The synced catalog the entry of a heartbeat starts with. */
  function Carried(r: Reg, e: Entry): seq<string> {
    var r1 := Retire(r, e);
    if e.id in r1.byID then r1.byID[e.id].syncedCatalog else []
  }

  /** A heartbeat's entry starts with the cache its node had, if any. */
  lemma UpsertAgrees(s: State, e: Entry)
    requires Inv(s.reg) && CacheAgrees(s) && e.syncedCatalog == []
    ensures CacheAgrees(State(Upsert(s.reg, e), s.rows))
  {
    RetireKeeps(s.reg, e);
  }

  /** After a committed sync the cache is the catalog written, and so are the rows;
      no other node's rows or cache change. */
  lemma SyncAgrees(s: State, id: string)
    requires Inv(s.reg) && CacheAgrees(s) && id in s.reg.byID
    ensures var s' := State(MarkSynced(s.reg, id), s.rows[id := s.reg.byID[id].catalog]);
            && CacheAgrees(s') && Inv(s'.reg)
            && s'.reg.byID[id].syncedCatalog == s.reg.byID[id].catalog == RowsOf(s'.rows, id)
            && forall other :: other in s.reg.byID && other != id ==> s'.reg.byID[other] == s.reg.byID[other]
  {
    MarkSyncedKeepsInv(s.reg, id);
  }

  lemma StepAgrees(s: State, ev: Event)
    requires Inv(s.reg) && CacheAgrees(s)
    ensures Inv(Step(s, ev).reg) && CacheAgrees(Step(s, ev))
  {
    match ev
    case Heartbeat(e, nodeRowOk, txOk) =>
      var e0 := e.(syncedCatalog := []);
      UpsertKeepsInv(s.reg, e0);
      UpsertAgrees(s, e0);
      SyncAgrees(State(Upsert(s.reg, e0), s.rows), e.id);
    case Restart =>
  }

  /** From any database and over any history of heartbeats, retirements, failed
      writes and restarts, a non-empty cache equals the stored rows. */
  lemma {:induction false} CacheAlwaysAgrees(rows: Rows, run: seq<Event>)
    ensures Inv(After(rows, run).reg) && CacheAgrees(After(rows, run))
  {
    if run != [] {
      CacheAlwaysAgrees(rows, run[..|run| - 1]);
      StepAgrees(After(rows, run[..|run| - 1]), run[|run| - 1]);
    }
  }

  /** After a heartbeat whose writes succeed the rows equal the advertised
      catalog exactly unless both it and the cache are empty while rows are
      left over; and no other node's rows change. */
  lemma RowsFollowTheHeartbeat(rows: Rows, run: seq<Event>, e: Entry)
    requires NoDup(e.catalog)
    ensures var s := After(rows, run);
            var s' := Step(s, Heartbeat(e, true, true));
            && (RowsOf(s'.rows, e.id) == e.catalog
                <==> e.catalog != [] || Carried(s.reg, e) != [] || RowsOf(s.rows, e.id) == [])
            && (forall id :: id != e.id ==> RowsOf(s'.rows, id) == RowsOf(s.rows, id))
  {
    CacheAlwaysAgrees(rows, run);
    RetireKeeps(After(rows, run).reg, e);
  }

  /** The failing family is not empty: a restart over left-over rows. */
  lemma EmptyCatalogLeavesOldRows(e: Entry)
    requires e.catalog == []
    ensures RowsOf(Step(After(map[e.id := ["m"]], []), Heartbeat(e, true, true)).rows, e.id) == ["m"]
  {
  }

  /** A repeated name, like any failed write, changes neither rows nor cache. */
  lemma FailedSyncChangesNothing(s: State, e: Entry, nodeRowOk: bool, txOk: bool)
    requires !nodeRowOk || !txOk || !NoDup(e.catalog)
    ensures var s' := Step(s, Heartbeat(e, nodeRowOk, txOk));
            && s'.rows == s.rows
            && e.id in s'.reg.byID
            && s'.reg.byID[e.id].syncedCatalog == Carried(s.reg, e)
  {
  }

  /** The simple machine: every heartbeat rewrites the rows. */
  function Rewrite(rows: Rows, ev: Event): Rows {
    if ev.Heartbeat? && ev.nodeRowOk && ev.txOk && NoDup(ev.entry.catalog)
    then rows[ev.entry.id := ev.entry.catalog] else rows
  }

  ghost function Rewritten(rows: Rows, run: seq<Event>): Rows {
    if run == [] then rows else Rewrite(Rewritten(rows, run[..|run| - 1]), run[|run| - 1])
  }

  lemma StepRewrites(s: State, ev: Event, id: string)
    requires Inv(s.reg) && CacheAgrees(s) && (ev.Heartbeat? ==> ev.entry.catalog != [])
    ensures RowsOf(Step(s, ev).rows, id) == RowsOf(Rewrite(s.rows, ev), id)
  {
    if ev.Heartbeat? {
      RetireKeeps(s.reg, ev.entry);
    }
  }

  /** With non-empty catalogs, skipping unchanged ones is unobservable: the
      table is at every moment what rewriting it every time would give. */
  lemma {:induction false} CachingRefinesRewriting(rows: Rows, run: seq<Event>, id: string)
    requires forall i :: 0 <= i < |run| && run[i].Heartbeat? ==> run[i].entry.catalog != []
    ensures RowsOf(After(rows, run).rows, id) == RowsOf(Rewritten(rows, run), id)
  {
    if run != [] {
      var before, ev := run[..|run| - 1], run[|run| - 1];
      CachingRefinesRewriting(rows, before, id);
      CacheAlwaysAgrees(rows, before);
      StepRewrites(After(rows, before), ev, id);
    }
  }
}
