/**
 The one-shot nonce store of internal/admin/nonce.go. Time is in nanoseconds;
 the random nonce of a put is an input, absent when the random source fails.
 */
module NonceStore {
  import opened Seqs

  const NONCE_TTL: int := 300_000_000_000

  datatype Entry = Entry(value: string, expiresAt: int)

  type Entries = map<string, Entry>

  function Purged(entries: Entries, now: int): Entries {
    map k | k in entries && now <= entries[k].expiresAt :: entries[k]
  }

  /** The answer of take: expired and unknown nonces look the same. */
  function Answer(entries: Entries, nonce: string, now: int): Option<string> {
    if nonce in entries && now <= entries[nonce].expiresAt then Some(entries[nonce].value) else None
  }

  class Store {
    var entries: Entries

    constructor ()
      ensures entries == map[]
    {
      entries := map[];
    }

    /** purgeLocked: one sweep over the keys present at its start. */
    method Purge(now: int)
      modifies this
      ensures entries == Purged(old(entries), now)
      ensures forall k :: k in entries <==> k in old(entries) && now <= old(entries)[k].expiresAt
    {
      var todo := entries.Keys;
      while todo != {}
        invariant todo <= old(entries).Keys && entries.Keys <= old(entries).Keys
        invariant forall k :: k in entries ==> entries[k] == old(entries)[k]
        invariant forall k :: k in todo ==> k in entries
        invariant forall k :: k in old(entries) && k !in todo ==> (k in entries <==> now <= old(entries)[k].expiresAt)
        decreases todo
      {
        var k :| k in todo;
        if now > entries[k].expiresAt {
          entries := entries - {k};
        }
        todo := todo - {k};
      }
      assert entries == Purged(old(entries), now);
    }

    /** put: the clock is read once to purge and again for the expiry. */
    method Put(value: string, random: Option<string>, purgeAt: int, now: int) returns (nonce: Option<string>)
      modifies this
      ensures nonce == random
      ensures random.None? ==> entries == old(entries)
      ensures random.Some? ==> entries == Purged(old(entries), purgeAt)[random.value := Entry(value, now + NONCE_TTL)]
    {
      if random.None? {
        return None;
      }
      Purge(purgeAt);
      entries := entries[random.value := Entry(value, now + NONCE_TTL)];
      nonce := random;
    }

    /** take: the entry is gone whatever the answer. */
    method Take(nonce: string, now: int) returns (value: Option<string>)
      modifies this
      ensures value == Answer(old(entries), nonce, now)
      ensures entries == old(entries) - {nonce}
    {
      if nonce !in entries {
        assert entries - {nonce} == entries;
        return None;
      }
      var e := entries[nonce];
      entries := entries - {nonce};
      if now > e.expiresAt {
        return None;
      }
      value := Some(e.value);
    }
  }

  // ---------- runs ----------

  datatype Op =
    | Put(nonce: string, value: string, purgeAt: int, at: int)
    | Take(nonce: string, at: int)

  /** The table after a run, for a store that purges or one that never does. */
  ghost function After(h: seq<Op>, purging: bool): Entries {
    if h == [] then map[]
    else
      var entries, op := After(h[..|h| - 1], purging), h[|h| - 1];
      match op
      case Put(n, v, purgeAt, at) => (if purging then Purged(entries, purgeAt) else entries)[n := Entry(v, at + NONCE_TTL)]
      case Take(n, at) => entries - {n}
  }

  /** Clock readings never go back, across operations and inside a put. */
  ghost predicate Chronological(h: seq<Op>) {
    && (forall i :: 0 <= i < |h| && h[i].Put? ==> h[i].purgeAt <= h[i].at)
    && (forall i, j :: 0 <= i < j < |h| ==> h[i].at <= Begin(h[j]))
  }

  ghost function Begin(op: Op): int {
    if op.Put? then op.purgeAt else op.at
  }

  /** Operation i of h put v under nonce, nothing has touched that nonce since,
      and it has not expired at now. This mentions no table at all. */
  ghost predicate Standing(h: seq<Op>, i: nat, nonce: string, v: string, now: int) {
    && i < |h| && h[i].Put? && h[i].nonce == nonce && h[i].value == v
    && now <= h[i].at + NONCE_TTL
    && forall j :: i < j < |h| ==> h[j].nonce != nonce
  }

  /** The entry a nonce has when nothing is ever purged. */
  ghost function Latest(h: seq<Op>, nonce: string): Option<Entry> {
    if h == [] then None
    else
      var op := h[|h| - 1];
      if op.nonce != nonce then Latest(h[..|h| - 1], nonce)
      else if op.Put? then Some(Entry(op.value, op.at + NONCE_TTL))
      else None
  }

  lemma {:induction false} LatestIsStanding(h: seq<Op>, nonce: string, v: string, now: int)
    ensures (Latest(h, nonce).Some? && Latest(h, nonce).value.value == v && now <= Latest(h, nonce).value.expiresAt)
            <==> exists i :: Standing(h, i, nonce, v, now)
  {
    if h != [] {
      var before, op := h[..|h| - 1], h[|h| - 1];
      LatestIsStanding(before, nonce, v, now);
      if op.nonce != nonce {
        forall i: nat | Standing(before, i, nonce, v, now) ensures Standing(h, i, nonce, v, now) {
          assert h[i] == before[i];
          forall j | i < j < |h| ensures h[j].nonce != nonce {
            if j < |before| { assert h[j] == before[j]; }
          }
        }
        forall i: nat | Standing(h, i, nonce, v, now) ensures Standing(before, i, nonce, v, now) {
          assert h[i] == before[i];
          forall j | i < j < |before| ensures before[j].nonce != nonce { assert h[j] == before[j]; }
        }
      } else {
        forall i: nat | Standing(h, i, nonce, v, now) ensures i == |h| - 1 {
        }
        if op.Put? && op.value == v && now <= op.at + NONCE_TTL {
          assert Standing(h, |h| - 1, nonce, v, now);
        }
      }
    }
  }

  lemma {:induction false} NeverPurgedIsLatest(h: seq<Op>, nonce: string)
    ensures var e := After(h, false);
            if nonce in e then Latest(h, nonce) == Some(e[nonce]) else Latest(h, nonce) == None
  {
    if h != [] {
      NeverPurgedIsLatest(h[..|h| - 1], nonce);
    }
  }

  /** A purged table differs from the unpurged one only by expired entries. */
  lemma {:induction false} PurgedIsLatestOrExpired(h: seq<Op>, nonce: string)
    requires Chronological(h)
    ensures var e := After(h, true);
            && (nonce in e ==> Latest(h, nonce) == Some(e[nonce]))
            && (nonce !in e && Latest(h, nonce).Some? ==> h != [] && Latest(h, nonce).value.expiresAt < h[|h| - 1].at)
  {
    if h != [] {
      var n := |h| - 1;
      PurgedIsLatestOrExpired(h[..n], nonce);
      assert n > 0 ==> h[n - 1].at <= Begin(h[n]);
    }
  }

  /** A take reveals v exactly when some put of v under that nonce still stands
      and is unexpired; purging is invisible in the answer. */
  lemma TakeRevealsTheStandingPut(h: seq<Op>, nonce: string, now: int, v: string)
    requires Chronological(h + [Take(nonce, now)])
    ensures Answer(After(h, true), nonce, now) == Some(v) <==> exists i :: Standing(h, i, nonce, v, now)
    ensures Answer(After(h, true), nonce, now) == Answer(After(h, false), nonce, now)
  {
    var run := h + [Take(nonce, now)];
    assert Chronological(h) && (h != [] ==> h[|h| - 1].at <= now) by {
      assert forall i :: 0 <= i < |h| ==> run[i] == h[i];
      assert run[|h|] == Take(nonce, now);
    }
    LatestIsStanding(h, nonce, v, now);
    NeverPurgedIsLatest(h, nonce);
    PurgedIsLatestOrExpired(h, nonce);
  }

  /** The answers a store gives along a run, one per take. */
  ghost function Answers(h: seq<Op>, purging: bool): seq<Option<string>> {
    if h == [] then []
    else
      var before, op := h[..|h| - 1], h[|h| - 1];
      Answers(before, purging) + if op.Take? then [Answer(After(before, purging), op.nonce, op.at)] else []
  }

  /** Over a whole run, the purging store and the never-purging store give the
      same answers. */
  lemma {:induction false} PurgingIsInvisible(h: seq<Op>)
    requires Chronological(h)
    ensures Answers(h, true) == Answers(h, false)
  {
    if h != [] {
      var before, op := h[..|h| - 1], h[|h| - 1];
      PurgingIsInvisible(before);
      if op.Take? {
        assert h == before + [Take(op.nonce, op.at)];
        TakeRevealsTheStandingPut(before, op.nonce, op.at, "");
      }
    }
  }

  ghost function Puts(h: seq<Op>, nonce: string): nat {
    if h == [] then 0
    else Puts(h[..|h| - 1], nonce) + if h[|h| - 1].Put? && h[|h| - 1].nonce == nonce then 1 else 0
  }

  ghost function Reveals(h: seq<Op>, nonce: string): nat {
    if h == [] then 0
    else
      var before, op := h[..|h| - 1], h[|h| - 1];
      Reveals(before, nonce)
      + if op.Take? && op.nonce == nonce && Answer(After(before, true), nonce, op.at).Some? then 1 else 0
  }

  /** Each put is revealed at most once: with fresh nonces, each value. */
  lemma {:induction false} RevealedAtMostOnce(h: seq<Op>, nonce: string)
    ensures Reveals(h, nonce) + (if nonce in After(h, true) then 1 else 0) <= Puts(h, nonce)
  {
    if h != [] {
      RevealedAtMostOnce(h[..|h| - 1], nonce);
    }
  }
}
