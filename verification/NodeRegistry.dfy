/**
 internal/router/nodes.go in its own form: a registry object whose methods update
 the two maps, the order, the claims and the catalog table. Each method is tied
 to the value-level models in Registry, Claims and Catalog.
 */
module NodeRegistry {
  import opened Seqs
  import R = Registry
  import C = Claims
  import K = Catalog

  /** append(xs[:i], xs[i+1:]...) on the first n slots of a backing array: the
      tail is shifted left in place. */
  method ShiftLeft(xs: array<string>, i: nat, n: nat)
    requires i < n <= xs.Length
    modifies xs
    ensures forall k :: 0 <= k < n - 1 ==> xs[k] == old(xs[if k < i then k else k + 1])
    ensures forall k :: n <= k < xs.Length ==> xs[k] == old(xs[k])
  {
    var j := i;
    while j + 1 < n
      invariant i <= j < n
      invariant forall k :: 0 <= k < j ==> xs[k] == old(xs[if k < i then k else k + 1])
      invariant forall k :: j < k < xs.Length ==> xs[k] == old(xs[k])
    {
      xs[j] := xs[j + 1];
      j := j + 1;
    }
  }

  /** removeString: the new length is returned, the slots beyond n untouched. */
  method RemoveString(xs: array<string>, n: nat, x: string) returns (m: nat)
    requires n <= xs.Length
    modifies xs
    ensures m == (if x in old(xs[..n]) then n - 1 else n)
    ensures xs[..m] == R.RemoveFirst(old(xs[..n]), x)
    ensures xs[n..] == old(xs[n..])
  {
    ghost var was := xs[..n];
    var i := 0;
    while i < n && xs[i] != x
      invariant 0 <= i <= n
      invariant forall k :: 0 <= k < i ==> was[k] != x
    {
      i := i + 1;
    }
    IndexIs(was, x, i);
    if i == n {
      return n;
    }
    assert was[i] == x;
    ShiftLeft(xs, i, n);
    m := n - 1;
    Shifted(was, xs[..m], x, i);
  }

  /** A larger array with the same beginning. */
  method Grown(xs: array<string>) returns (ys: array<string>)
    ensures fresh(ys) && ys.Length > xs.Length && ys[..xs.Length] == xs[..]
  {
    ys := new string[2 * xs.Length + 1];
    for i := 0 to xs.Length
      invariant ys[..i] == xs[..i]
    {
      ys[i] := xs[i];
    }
    assert xs[..xs.Length] == xs[..];
  }

  /** The shifted slots are the sequence without the first x. */
  lemma Shifted(s: seq<string>, t: seq<string>, x: string, i: nat)
    requires i < |s| && R.FirstIndex(s, x) == i && |t| == |s| - 1
    requires forall k :: 0 <= k < |t| ==> t[k] == s[if k < i then k else k + 1]
    ensures t == R.RemoveFirst(s, x)
  {
  }

  lemma IndexIs(s: seq<string>, x: string, i: nat)
    requires i <= |s| && (forall k :: 0 <= k < i ==> s[k] != x) && (i < |s| ==> s[i] == x)
    ensures R.FirstIndex(s, x) == i
  {
    var k := R.FirstIndex(s, x);
    assert forall j :: 0 <= j < k ==> s[j] in s[..k];
  }

  /** The transaction of syncCatalog: begin, delete, one insert per model, commit.
      The rows it leaves, or nothing when an operation fails or the unique index
      refuses a name. */
  method InsertCatalog(catalog: seq<string>, budget: nat) returns (tx: Option<seq<string>>)
    ensures tx == if budget >= |catalog| + 3 && NoDup(catalog) then Some(catalog) else None
  {
    if budget < 2 {
      return None; // begin or delete
    }
    var inserted: seq<string> := [];
    for i := 0 to |catalog|
      invariant i <= budget - 2
      invariant inserted == catalog[..i] && NoDup(inserted)
    {
      if i == budget - 2 {
        return None; // rollback
      }
      if catalog[i] in inserted {
        return None; // rollback: the unique index
      }
      inserted := inserted + [catalog[i]];
    }
    if budget - 2 == |catalog| {
      return None; // commit
    }
    assert inserted == catalog;
    tx := Some(inserted);
  }

  /** A dashboard row: what the node last said, and stale, degraded or online. */
  ghost predicate RowShows(row: R.NodeView, e: R.Entry, now: int, staleAfter: int) {
    && row.id == e.id && row.connectionState == e.connectionState && row.activeModel == e.activeModel
    && row.catalog == e.catalog && row.activeRequests == e.activeRequests && row.lastHeartbeat == e.lastSeen
    && row.claimReason == ""
    && row.status == if now - e.lastSeen > staleAfter then R.Stale
                     else if e.connectionState == "degraded" then R.Degraded else R.Online
  }

  /** What every method keeps, on values. */
  ghost predicate Sane(s: K.State, claims: C.Table) {
    R.Inv(s.reg) && K.CacheAgrees(s) && C.Valid(claims)
  }

  lemma RegisterIsSane(s: K.State, s': K.State, claims: C.Table, e: R.Entry)
    requires Sane(s, claims) && e.syncedCatalog == [] && s'.reg == R.Upsert(s.reg, e) && s'.rows == s.rows
    ensures Sane(s', claims - {e.id})
    ensures e.id in s'.reg.byID && s'.reg.byID[e.id].catalog == e.catalog
  {
    R.UpsertKeepsInv(s.reg, e);
    K.UpsertAgrees(s, e);
    C.DeleteKeepsValid(claims, e.id);
  }

  lemma SyncIsSane(s: K.State, claims: C.Table, id: string)
    requires Sane(s, claims) && id in s.reg.byID
    ensures Sane(K.State(K.MarkSynced(s.reg, id), s.rows[id := s.reg.byID[id].catalog]), claims)
  {
    K.SyncAgrees(s, id);
  }

  lemma ClaimIsSane(s: K.State, claims: C.Table, claims': C.Table, c: C.Claim)
    requires Sane(s, claims) && C.Records(claims, claims', c)
    ensures Sane(s, claims')
  {
    C.RecordsKeepsValid(claims, claims', c);
  }

  class NodeRegistry {
    var byID: map<string, R.Entry>
    var byPipe: map<R.Pipe, R.Entry>
    /** The slice order: the first count slots of its backing array. */
    var slots: array<string>
    var count: nat
    var claims: C.Table
    /** node_model_catalogs; persistence is skipped without a database. */
    var rows: K.Rows
    const hasDB: bool
    const staleAfter: int

    constructor (staleAfter: int, hasDB: bool, rows: K.Rows)
      ensures Valid() && fresh(slots) && Reg() == R.EMPTY && claims == map[] && this.rows == rows
      ensures this.staleAfter == staleAfter && this.hasDB == hasDB
    {
      this.staleAfter, this.hasDB, this.rows := staleAfter, hasDB, rows;
      byID, byPipe, claims := map[], map[], map[];
      slots, count := new string[0], 0;
    }

    ghost function Reg(): R.Reg
      reads this, slots
      requires count <= slots.Length
    {
      R.Reg(byID, byPipe, slots[..count])
    }

    ghost predicate Valid()
      reads this, slots
    {
      count <= slots.Length && Sane(K.State(Reg(), rows), claims)
    }

    lemma ListedIfValid()
      requires Valid()
      ensures R.Listed(Reg())
    {
      assert forall i :: 0 <= i < count ==> slots[..count][i] in Elements(slots[..count]);
    }

    /** upsert, with the fate of the two database writes. */
    method Upsert(e: R.Entry, nodeRowOk: bool, budget: nat)
      requires Valid() && e.syncedCatalog == []
      modifies this, slots
      ensures Valid() && (slots == old(slots) || fresh(slots))
      ensures claims == old(claims) - {e.id}
      ensures !hasDB ==> Reg() == R.Upsert(old(Reg()), e) && rows == old(rows)
      ensures hasDB ==> K.State(Reg(), rows)
                        == K.Step(old(K.State(Reg(), rows)), K.Heartbeat(e, nodeRowOk, budget >= |e.catalog| + 3))
    {
      ghost var s := K.State(Reg(), rows);
      Register(e);
      ghost var s1 := K.State(Reg(), rows);
      assert s1 == K.State(R.Upsert(s.reg, e), s.rows);
      if hasDB {
        Persist(e.id, nodeRowOk, budget);
        K.HeartbeatPersists(s, e, nodeRowOk, budget >= |e.catalog| + 3);
        assert K.State(Reg(), rows) == K.Persist(s1, e.id, nodeRowOk, budget >= |e.catalog| + 3);
      }
    }

    /** The section of upsert under the mutex. */
    method Register(e: R.Entry)
      requires Valid() && e.syncedCatalog == []
      modifies this`claims, this`byID, this`byPipe, this`slots, this`count, slots
      ensures Valid() && (slots == old(slots) || fresh(slots))
      ensures claims == old(claims) - {e.id}
      ensures Reg() == R.Upsert(old(Reg()), e)
      ensures e.id in byID && byID[e.id].catalog == e.catalog
    {
      ghost var s := K.State(Reg(), rows);
      claims := claims - {e.id};
      assert Reg() == s.reg;
      Replace(e);
      ghost var s' := K.State(Reg(), rows);
      assert s'.reg == R.Upsert(s.reg, e) && s'.rows == s.rows;
      RegisterIsSane(s, s', old(claims), e);
    }

    /** Its part on the maps and the order. */
    method Replace(e: R.Entry)
      requires count <= slots.Length
      modifies this`byID, this`byPipe, this`slots, this`count, slots
      ensures count <= slots.Length && (slots == old(slots) || fresh(slots))
      ensures Reg() == R.Upsert(old(Reg()), e)
    {
      RetirePipe(e);
      Enter(e);
    }

    /** If the pipe is now used by a different node id, retire the old id. */
    method RetirePipe(e: R.Entry)
      requires count <= slots.Length
      modifies this`byID, this`count, slots
      ensures count <= slots.Length && Reg() == R.Retire(old(Reg()), e)
    {
      if e.pipe in byPipe && byPipe[e.pipe].id != e.id {
        var gone := byPipe[e.pipe].id;
        byID := byID - {gone};
        count := RemoveString(slots, count, gone);
      }
    }

    /** Insert or refresh the entry in both maps and the order. */
    method Enter(e: R.Entry)
      requires count <= slots.Length
      modifies this`byID, this`byPipe, this`slots, this`count, slots
      ensures count <= slots.Length && (slots == old(slots) || fresh(slots))
      ensures var r, e1 := old(Reg()), R.Inherit(old(Reg()), e);
              Reg() == R.Reg(r.byID[e.id := e1], r.byPipe[e.pipe := e1], if e.id in r.byID then r.order else r.order + [e.id])
    {
      var entry := e;
      if e.id in byID {
        entry := e.(syncedCatalog := byID[e.id].syncedCatalog);
      } else {
        Append(e.id);
      }
      byID := byID[e.id := entry];
      byPipe := byPipe[e.pipe := entry];
    }

    /** append(order, id): in place while there is room, else into a new array. */
    method Append(id: string)
      requires count <= slots.Length
      modifies this`slots, this`count, slots
      ensures count == old(count) + 1 <= slots.Length && (slots == old(slots) || fresh(slots))
      ensures slots[..count] == old(slots[..count]) + [id]
    {
      if count == slots.Length {
        slots := Grown(slots);
      }
      slots[count] := id;
      count := count + 1;
    }

    /** persist: the node row first, then the catalog if it changed. */
    method Persist(id: string, nodeRowOk: bool, budget: nat)
      requires Valid() && id in byID
      modifies this`byID, this`byPipe, this`rows
      ensures Valid()
      ensures K.State(Reg(), rows)
              == K.Persist(old(K.State(Reg(), rows)), id, nodeRowOk, budget >= |old(byID[id]).catalog| + 3)
    {
      if !nodeRowOk {
        return;
      }
      var changed := CatalogChanged(byID[id].catalog, byID[id].syncedCatalog);
      if changed {
        SyncCatalog(id, budget);
      }
    }

    /** syncCatalog: the rows and the cache change together, after the commit. */
    method SyncCatalog(id: string, budget: nat)
      requires Valid() && id in byID
      modifies this`byID, this`byPipe, this`rows
      ensures Valid()
      ensures var e, r := old(byID[id]), old(Reg());
              var ok := budget >= |e.catalog| + 3 && NoDup(e.catalog);
              && Reg() == (if ok then K.MarkSynced(r, id) else r)
              && (ok ==> id in byID && byID[id].syncedCatalog == e.catalog)
              && rows == (if ok then old(rows)[id := e.catalog] else old(rows))
    {
      var e := byID[id];
      var tx := InsertCatalog(e.catalog, budget);
      if tx.None? {
        return;
      }
      SyncIsSane(K.State(Reg(), rows), claims, id);
      rows := rows[id := tx.value];
      e := e.(syncedCatalog := e.catalog);
      byID := byID[id := e];
      byPipe := byPipe[e.pipe := e];
    }

    /** recordClaim: expire, evict the oldest if still full, insert. */
    method RecordClaim(nodeID: string, reason: string, detail: string, pipe: R.Pipe, now: int)
      requires Valid()
      modifies this`claims
      ensures Valid()
      ensures C.Records(old(claims), claims, C.Claim(nodeID, pipe, reason, detail, now))
      ensures nodeID != "" ==> nodeID in claims && claims[nodeID] == C.Claim(nodeID, pipe, reason, detail, now)
      ensures nodeID != "" ==> forall id :: id in claims ==> now - claims[id].lastAttempt <= 60 * 1_000_000_000
    {
      var c := C.Claim(nodeID, pipe, reason, detail, now);
      if nodeID == "" {
        return;
      }
      ExpireClaims(now);
      C.LiveIsSmaller(old(claims), now);
      if nodeID !in claims && |claims| >= C.CLAIM_MAX_ENTRIES {
        var oldestID := OldestClaim();
        claims := claims - {oldestID};
      }
      claims := claims[nodeID := c];
      ClaimIsSane(K.State(Reg(), rows), old(claims), claims, c);
    }

    /** The first loop of recordClaim, deleting while it ranges. */
    method ExpireClaims(now: int)
      modifies this`claims
      ensures claims == C.Live(old(claims), now)
    {
      var todo := claims.Keys;
      while todo != {}
        invariant todo <= old(claims).Keys && claims.Keys <= old(claims).Keys
        invariant forall k :: k in claims ==> claims[k] == old(claims)[k]
        invariant forall k :: k in todo ==> k in claims
        invariant forall k :: k in old(claims) && k !in todo
                              ==> (k in claims <==> now - old(claims)[k].lastAttempt <= C.CLAIM_EXPIRY)
        decreases todo
      {
        var k :| k in todo;
        if now - claims[k].lastAttempt > C.CLAIM_EXPIRY {
          claims := claims - {k};
        }
        todo := todo - {k};
      }
      assert claims == C.Live(old(claims), now);
    }

    /** The eviction scan. The empty string stands for "none yet", which is
        sound because it is never a key. */
    method OldestClaim() returns (oldestID: string)
      requires "" !in claims && |claims| > 0
      ensures C.Oldest(claims, oldestID)
    {
      oldestID := "";
      var oldest := 0;
      var todo := claims.Keys;
      assert |claims.Keys| == |claims|;
      while todo != {}
        invariant todo <= claims.Keys
        invariant oldestID == "" ==> todo == claims.Keys
        invariant oldestID != "" ==> oldestID in claims && oldest == claims[oldestID].lastAttempt
        invariant forall k :: k in claims && k !in todo ==> oldestID != "" && oldest <= claims[k].lastAttempt
        decreases todo
      {
        var k :| k in todo;
        if oldestID == "" || claims[k].lastAttempt < oldest {
          oldestID, oldest := k, claims[k].lastAttempt;
        }
        todo := todo - {k};
      }
      assert claims.Keys != {};
    }

    /** The registry's ClaimsSnapshot. */
    method ClaimsSnapshot(now: int) returns (out: seq<C.Claim>)
      requires Valid()
      ensures C.IsSnapshot(out, claims, now)
      ensures forall i :: 0 <= i < |out| ==> now - out[i].lastAttempt <= 60 * 1_000_000_000
      ensures forall id :: id in claims && now - claims[id].lastAttempt <= 60 * 1_000_000_000 ==> claims[id] in out
    {
      out := [];
      var todo := claims.Keys;
      while todo != {}
        invariant todo <= claims.Keys
        invariant forall i :: 0 <= i < |out| ==> out[i].nodeID in C.Live(claims, now) && out[i] == claims[out[i].nodeID]
        invariant forall i :: 0 <= i < |out| ==> out[i].nodeID !in todo
        invariant forall i, j :: 0 <= i < j < |out| ==> out[i].nodeID != out[j].nodeID
        invariant forall id :: id in C.Live(claims, now) && id !in todo ==> exists i :: 0 <= i < |out| && out[i].nodeID == id
        decreases todo
      {
        var k :| k in todo;
        ghost var before := out;
        if now - claims[k].lastAttempt <= C.CLAIM_EXPIRY {
          out := out + [claims[k]];
          assert out[|before|].nodeID == k;
        }
        assert forall i :: 0 <= i < |before| ==> out[i] == before[i];
        todo := todo - {k};
      }
      C.SnapshotByAge(out, claims, now);
    }

    /** selectLeastConnections. */
    method SelectLeastConnections(now: int) returns (best: Option<R.Entry>)
      requires Valid()
      ensures R.Listed(Reg()) && best == R.Select(Reg(), now, staleAfter)
    {
      ListedIfValid();
      best := None;
      for i := 0 to count
        invariant best == R.Best(Reg(), now, staleAfter, i)
      {
        var e := byID[slots[i]];
        if now - e.lastSeen > staleAfter {
          continue;
        }
        if best.None? || e.activeRequests < best.value.activeRequests {
          best := Some(e);
        }
      }
    }

    /** NodesSnapshot: copy the entries in order, then build the rows, reading the
        clock for each. */
    method NodesSnapshot(times: seq<int>) returns (out: seq<R.NodeView>)
      requires Valid() && |times| == count
      ensures R.Listed(Reg()) && out == R.SnapshotAt(Reg(), times, staleAfter)
      ensures |out| == count && forall i :: 0 <= i < count ==> RowShows(out[i], byID[slots[i]], times[i], staleAfter)
    {
      ListedIfValid();
      out := [];
      for i := 0 to count
        invariant out == R.SnapshotAt(Reg(), times, staleAfter)[..i]
      {
        var e := byID[slots[i]];
        var live := times[i] - e.lastSeen <= staleAfter;
        var status := R.Online;
        if !live {
          status := R.Stale;
        } else if e.connectionState == R.DEGRADED {
          status := R.Degraded;
        }
        out := out + [R.NodeView(e.id, status, e.connectionState, "", e.activeModel, e.catalog, e.activeRequests, e.lastSeen)];
      }
    }
  }

  /** catalogChanged: element by element. */
  method CatalogChanged(a: seq<string>, b: seq<string>) returns (changed: bool)
    ensures changed <==> a != b
  {
    if |a| != |b| {
      return true;
    }
    for i := 0 to |a|
      invariant a[..i] == b[..i]
    {
      if a[i] != b[i] {
        return true;
      }
    }
    assert a == a[..|a|] == b[..|b|] == b;
    changed := false;
  }
}
