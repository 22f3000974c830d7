/**
 API keys and admin sessions (internal/auth/apikey.go, internal/admin/server.go)
 over an abstract key table. Hash comparison, the MAC and integer formatting are
 opaque functions.
 */
module AdminKeys {
  import opened Seqs
  import L = LoginLimiter
  import Splitter

  const ACTIVE: string := "active"
  const REVOKED: string := "revoked"
  const CLIENT: string := "client"
  const ADMIN: string := "admin"
  const KEY_PREFIX_LEN: nat := 16
  const SECOND: int := 1_000_000_000
  /** Twelve hours, in nanoseconds. */
  const SESSION_TTL: int := 12 * 3600 * SECOND

  datatype KeyRow = KeyRow(name: string, prefix: string, role: string, status: string, expiresAt: Option<int>, hash: string)

  type Keys = map<string, KeyRow>

  /** VerifyAPIKey(raw, hash); None when the stored hash does not decode. */
  type HashCheck = (string, string) -> Option<bool>

  /** The first 16 characters, or all of them. */
  function PrefixOf(raw: string): (prefix: string)
    ensures prefix <= raw && (|prefix| == 16 || (prefix == raw && |raw| < 16))
  {
    if |raw| < KEY_PREFIX_LEN then raw else raw[..KEY_PREFIX_LEN]
  }

  /** Present, active and unexpired. */
  predicate Usable(keys: Keys, id: string, now: int) {
    && id in keys
    && keys[id].status == ACTIVE
    && !(keys[id].expiresAt.Some? && keys[id].expiresAt.value < now)
  }

  // ---------- bearer verification ----------

  datatype Verified = Found(id: string) | InvalidKey | BadHash | ReadError

  /** The rows the prefix query returns, in whatever order the database has. */
  ghost predicate Candidates(keys: Keys, ids: seq<string>, bearer: string) {
    forall id :: id in ids <==> id in keys && keys[id].prefix == PrefixOf(bearer)
  }

  /** A candidate row the scan passes over: unusable, or a clear mismatch. */
  predicate Passed(keys: Keys, id: string, bearer: string, now: int, check: HashCheck)
    requires id in keys
  {
    Usable(keys, id, now) ==> check(bearer, keys[id].hash) == Some(false)
  }

  /** The scan over the candidate rows from i on; reading them fails when `fails`
      of them have been read (0 when the query itself fails). */
  function Scan(keys: Keys, ids: seq<string>, fails: Option<nat>, bearer: string, now: int, check: HashCheck, i: nat): Verified
    requires i <= |ids| && forall id :: id in ids ==> id in keys
    decreases |ids| - i
  {
    if fails == Some(i) then ReadError
    else if i == |ids| then InvalidKey
    else if Passed(keys, ids[i], bearer, now, check) then Scan(keys, ids, fails, bearer, now, check, i + 1)
    else if check(bearer, keys[ids[i]].hash).None? then BadHash
    else Found(ids[i])
  }

  function Lookup(keys: Keys, ids: seq<string>, fails: Option<nat>, bearer: string, now: int, check: HashCheck): Verified
    requires forall id :: id in ids ==> id in keys
  {
    Scan(keys, ids, fails, bearer, now, check, 0)
  }

  /** Candidate i is the first the scan does not pass over, and it is read. */
  ghost predicate Decides(keys: Keys, ids: seq<string>, fails: Option<nat>, bearer: string, now: int, check: HashCheck, i: nat)
    requires forall id :: id in ids ==> id in keys
  {
    && i < |ids| && !Passed(keys, ids[i], bearer, now, check)
    && (fails.Some? ==> i < fails.value)
    && forall j :: 0 <= j < i ==> Passed(keys, ids[j], bearer, now, check)
  }

  lemma {:induction false} ScanMeaning(
    keys: Keys, ids: seq<string>, fails: Option<nat>, bearer: string, now: int, check: HashCheck, i: nat)
    requires i <= |ids| && forall id :: id in ids ==> id in keys
    requires forall j :: 0 <= j < i ==> Passed(keys, ids[j], bearer, now, check)
    requires fails.Some? ==> i <= fails.value
    ensures match Scan(keys, ids, fails, bearer, now, check, i)
            case Found(id) =>
              exists k: nat :: Decides(keys, ids, fails, bearer, now, check, k) && ids[k] == id
                               && check(bearer, keys[id].hash) == Some(true)
            case BadHash =>
              exists k: nat :: Decides(keys, ids, fails, bearer, now, check, k) && check(bearer, keys[ids[k]].hash) == None
            case InvalidKey =>
              (fails.Some? ==> fails.value > |ids|) && forall k :: 0 <= k < |ids| ==> Passed(keys, ids[k], bearer, now, check)
            case ReadError =>
              && fails.Some? && fails.value <= |ids|
              && forall k :: 0 <= k < fails.value ==> Passed(keys, ids[k], bearer, now, check)
    decreases |ids| - i
  {
    if fails != Some(i) && i < |ids| {
      if Passed(keys, ids[i], bearer, now, check) {
        ScanMeaning(keys, ids, fails, bearer, now, check, i + 1);
      } else {
        assert Decides(keys, ids, fails, bearer, now, check, i);
        var answer := check(bearer, keys[ids[i]].hash);
        assert answer == Some(false) <==> answer.Some? && !answer.value;
      }
    }
  }

  /** Exactly when a bearer token is resolved to a key: some candidate is the
      first that is usable and no mismatch, is reached before reading fails, and
      matches. In particular the key is usable, and nothing is called invalid
      that matches a usable candidate. */
  lemma LookupMeaning(keys: Keys, ids: seq<string>, fails: Option<nat>, bearer: string, now: int, check: HashCheck)
    requires forall id :: id in ids ==> id in keys
    ensures var r := Lookup(keys, ids, fails, bearer, now, check);
            && (r.Found? <==> exists k: nat :: Decides(keys, ids, fails, bearer, now, check, k)
                                               && check(bearer, keys[ids[k]].hash) == Some(true))
            && (r.Found? ==> r.id in ids && Usable(keys, r.id, now) && check(bearer, keys[r.id].hash) == Some(true))
            && (r.InvalidKey? ==> forall id :: id in ids && Usable(keys, id, now) ==> check(bearer, keys[id].hash) == Some(false))
            && (forall k: nat :: Decides(keys, ids, fails, bearer, now, check, k) && check(bearer, keys[ids[k]].hash) == Some(true)
                                 ==> r == Found(ids[k]))
  {
    ScanMeaning(keys, ids, fails, bearer, now, check, 0);
    forall k: nat, l: nat
      | Decides(keys, ids, fails, bearer, now, check, k) && Decides(keys, ids, fails, bearer, now, check, l)
      ensures k == l
    {
    }
  }

  class APIKeyRepo {
    var rows: Keys

    constructor ()
      ensures rows == map[]
    {
      rows := map[];
    }

    /** Create: every key starts as an active client key without expiry. */
    method Create(id: string, name: string, raw: string, hash: Option<string>, ioOk: bool) returns (ok: bool)
      modifies this
      ensures ok <==> hash.Some? && ioOk && id !in old(rows)
      ensures rows == if ok then old(rows)[id := KeyRow(name, PrefixOf(raw), CLIENT, ACTIVE, None, hash.value)] else old(rows)
      ensures ok ==> forall t :: Usable(rows, id, t)
    {
      if hash.None? || !ioOk || id in rows {
        return false;
      }
      rows := rows[id := KeyRow(name, PrefixOf(raw), CLIENT, ACTIVE, None, hash.value)];
      ok := true;
    }

    /** Verify a bearer token against the candidate rows. */
    method Verify(ids: seq<string>, fails: Option<nat>, bearer: string, now: int, check: HashCheck) returns (r: Verified)
      requires Candidates(rows, ids, bearer)
      ensures r == Lookup(rows, ids, fails, bearer, now, check)
      ensures r.Found? ==> Usable(rows, r.id, now) && rows[r.id].prefix == PrefixOf(bearer)
                           && check(bearer, rows[r.id].hash) == Some(true)
      ensures r.InvalidKey? ==>
                forall id :: Usable(rows, id, now) && rows[id].prefix == PrefixOf(bearer) ==> check(bearer, rows[id].hash) == Some(false)
    {
      LookupMeaning(rows, ids, fails, bearer, now, check);
      var i := 0;
      while i < |ids| && fails != Some(i)
        invariant 0 <= i <= |ids|
        invariant Lookup(rows, ids, fails, bearer, now, check) == Scan(rows, ids, fails, bearer, now, check, i)
      {
        var row := rows[ids[i]];
        if row.status != ACTIVE || (row.expiresAt.Some? && row.expiresAt.value < now) {
          i := i + 1;
          continue;
        }
        var ok := check(bearer, row.hash);
        if ok.None? {
          return BadHash;
        }
        if ok.value {
          return Found(ids[i]);
        }
        i := i + 1;
      }
      if fails == Some(i) {
        return ReadError;
      }
      r := InvalidKey;
    }

    /** Revoke: idempotent, an error only when there is no such key. */
    method Revoke(id: string, ioOk: bool) returns (ok: bool)
      modifies this
      ensures ok <==> ioOk && id in old(rows)
      ensures rows == if ok then old(rows)[id := old(rows)[id].(status := REVOKED)] else old(rows)
      ensures ok ==> forall now :: !Usable(rows, id, now)
    {
      if !ioOk || id !in rows {
        return false;
      }
      rows := rows[id := rows[id].(status := REVOKED)];
      ok := true;
    }

    method ActiveByID(id: string, now: int, ioOk: bool) returns (r: Option<bool>)
      ensures r == if ioOk then Some(Usable(rows, id, now)) else None
      ensures r == Some(true) <==> ioOk && id in rows && rows[id].status == "active"
                                   && (rows[id].expiresAt.None? || now <= rows[id].expiresAt.value)
    {
      if !ioOk {
        return None;
      }
      if id !in rows {
        return Some(false);
      }
      if rows[id].status != ACTIVE {
        return Some(false);
      }
      if rows[id].expiresAt.Some? && rows[id].expiresAt.value < now {
        return Some(false);
      }
      r := Some(true);
    }
  }

  // ---------- session cookies ----------

  /** hex(HMAC(payload)), strconv.FormatInt and strconv.ParseInt. */
  datatype Codec = Codec(mac: string -> string, format: int -> string, parse: string -> Option<int>)

  ghost predicate GoodCodec(c: Codec) {
    && (forall n :: c.parse(c.format(n)) == Some(n) && '|' !in c.format(n))
    && (forall s :: '|' !in c.mac(s))
  }

  /** strings.Split(s, "|"). */
  function Split(s: string): (parts: seq<string>)
    ensures parts != []
  {
    if s == "" then [""]
    else
      var rest := Split(s[1..]);
      if s[0] == '|' then [""] + rest else [[s[0]] + rest[0]] + rest[1..]
  }

  function Bars(s: string): nat {
    if s == "" then 0 else (if s[0] == '|' then 1 else 0) + Bars(s[1..])
  }

  lemma {:induction false} SplitCount(s: string)
    ensures |Split(s)| == 1 + Bars(s)
  {
    if s != "" {
      SplitCount(s[1..]);
    }
  }

  lemma {:induction false} BarsAppend(a: string, b: string)
    ensures Bars(a + b) == Bars(a) + Bars(b)
  {
    if a == "" {
      assert a + b == b;
    } else {
      assert (a + b)[1..] == a[1..] + b;
      BarsAppend(a[1..], b);
    }
  }

  lemma {:induction false} NoBars(s: string)
    ensures Bars(s) == 0 <==> '|' !in s
  {
    if s != "" {
      NoBars(s[1..]);
      assert '|' in s <==> s[0] == '|' || '|' in s[1..];
    }
  }

  lemma {:induction false} SplitFirst(a: string, rest: string)
    requires '|' !in a
    ensures Split(a + "|" + rest) == [a] + Split(rest)
  {
    if a == "" {
      assert a + "|" + rest == "|" + rest && ("|" + rest)[1..] == rest;
    } else {
      assert (a + "|" + rest)[1..] == a[1..] + "|" + rest;
      SplitFirst(a[1..], rest);
      assert [a[0]] + a[1..] == a;
      var parts := [a[1..]] + Split(rest);
      assert [[a[0]] + parts[0]] + parts[1..] == [a] + Split(rest);
    }
  }

  lemma {:induction false} SplitWhole(a: string)
    requires '|' !in a
    ensures Split(a) == [a]
  {
    if a != "" {
      SplitWhole(a[1..]);
      assert [a[0]] + a[1..] == a;
    }
  }

  function Unix(t: int): int {
    t / SECOND
  }

  function IssueCookie(c: Codec, keyID: string, now: int): string {
    var payload := keyID + "|" + c.format(Unix(now + SESSION_TTL));
    payload + "|" + c.mac(payload)
  }

  function VerifyCookie(c: Codec, cookie: string, now: int): Option<string> {
    var parts := Split(cookie);
    if |parts| != 3 then None
    else
      var expires := c.parse(parts[1]);
      if expires.None? || Unix(now) > expires.value then None
      else if parts[2] != c.mac(parts[0] + "|" + parts[1]) then None
      else Some(parts[0])
  }

  /** An issued cookie names its key until it expires, and nobody afterwards; a
      key id containing the separator never gets a working cookie. */
  lemma CookieRoundTrip(c: Codec, keyID: string, issued: int, now: int)
    requires GoodCodec(c)
    ensures VerifyCookie(c, IssueCookie(c, keyID, issued), now)
            == if '|' !in keyID && Unix(now) <= Unix(issued + 12 * 3600 * SECOND) then Some(keyID) else None
  {
    var n := Unix(issued + SESSION_TTL);
    var payload := keyID + "|" + c.format(n);
    var mac := c.mac(payload);
    var cookie := payload + "|" + mac;
    if '|' !in keyID {
      assert cookie == keyID + "|" + (c.format(n) + "|" + mac);
      SplitFirst(keyID, c.format(n) + "|" + mac);
      SplitFirst(c.format(n), mac);
      SplitWhole(mac);
    } else {
      SplitCount(cookie);
      BarsAppend(payload + "|", mac);
      BarsAppend(payload, "|");
      BarsAppend(keyID + "|", c.format(n));
      BarsAppend(keyID, "|");
      assert Bars("|") == 1 + Bars("|"[1..]);
      NoBars(keyID);
    }
  }

  /** Putting the bars back. */
  function JoinBars(parts: seq<string>): string
    requires parts != []
  {
    if |parts| == 1 then parts[0] else parts[0] + "|" + JoinBars(parts[1..])
  }

  lemma {:induction false} SplitLosesNothing(s: string)
    ensures JoinBars(Split(s)) == s
  {
    if s != "" {
      var rest := Split(s[1..]);
      SplitLosesNothing(s[1..]);
      if s[0] == '|' {
        assert ([""] + rest)[1..] == rest;
        assert s == "|" + s[1..];
      } else {
        var first := [s[0]] + rest[0];
        assert ([first] + rest[1..])[1..] == rest[1..];
        if |rest| == 1 {
          assert s == [s[0]] + s[1..];
        } else {
          assert first + "|" + JoinBars(rest[1..]) == [s[0]] + (rest[0] + "|" + JoinBars(rest[1..]));
        }
      }
    }
  }

  /** Only a signed, unexpired cookie verifies: it is an id, an expiry not before now
      and the MAC of exactly those two. */
  lemma VerifiedCookieIsSigned(c: Codec, cookie: string, now: int) returns (expiry: string)
    requires VerifyCookie(c, cookie, now).Some?
    ensures var payload := VerifyCookie(c, cookie, now).value + "|" + expiry;
            && cookie == payload + "|" + c.mac(payload)
            && c.parse(expiry).Some? && Unix(now) <= c.parse(expiry).value
  {
    var parts := Split(cookie);
    SplitLosesNothing(cookie);
    expiry := parts[1];
    assert JoinBars(parts[2..]) == parts[2];
    assert parts[1..][1..] == parts[2..];
    assert JoinBars(parts[1..]) == parts[1] + "|" + parts[2];
    assert cookie == parts[0] + "|" + (parts[1] + "|" + parts[2]) == parts[0] + "|" + parts[1] + "|" + parts[2];
  }

  // ---------- requests to the dashboard ----------

  /** requireSession: the key a cookie acts for, if it may act at all. */
  function Session(c: Codec, keys: Keys, cookie: string, now: int, ioOk: bool): Option<string> {
    var id := VerifyCookie(c, cookie, now);
    if id.Some? && ioOk && Usable(keys, id.value, now) then id else None
  }

  class AdminServer {
    const keys: APIKeyRepo
    const limiter: L.Limiter
    const codec: Codec

    constructor (keys: APIKeyRepo, limiter: L.Limiter, codec: Codec)
      ensures this.keys == keys && this.limiter == limiter && this.codec == codec
    {
      this.keys, this.limiter, this.codec := keys, limiter, codec;
    }

    method RequireSession(cookie: string, now: int, ioOk: bool) returns (id: Option<string>)
      ensures id == Session(codec, keys.rows, cookie, now, ioOk)
      ensures id.Some? <==> ioOk && VerifyCookie(codec, cookie, now).Some? && Usable(keys.rows, VerifyCookie(codec, cookie, now).value, now)
      ensures id.Some? ==> id == VerifyCookie(codec, cookie, now)
    {
      id := VerifyCookie(codec, cookie, now);
      if id.None? {
        return;
      }
      var active := keys.ActiveByID(id.value, now, ioOk);
      if active != Some(true) {
        id := None;
      }
    }

    /** loginSubmit: the attempt is charged in any case. A cookie is issued exactly
        when the limiter allows it, the trimmed token is not empty, and the first
        candidate that is usable and no mismatch is an admin key that matches; the
        cookie is that key's. */
    method LoginSubmit(ip: string, password: string, ids: seq<string>, fails: Option<nat>, now: int, check: HashCheck)
      returns (cookie: Option<string>)
      requires limiter as object != keys && Candidates(keys.rows, ids, Splitter.TrimSpace(password))
      modifies limiter
      ensures limiter.hits == L.Charge(old(limiter.hits), limiter.window, ip, now)
      ensures cookie.Some? <==>
              && limiter.hits[ip].count <= limiter.limit
              && Splitter.TrimSpace(password) != ""
              && exists k: nat :: AdminDecides(keys.rows, ids, fails, Splitter.TrimSpace(password), now, check, k)
      ensures forall k: nat :: cookie.Some? && AdminDecides(keys.rows, ids, fails, Splitter.TrimSpace(password), now, check, k)
                               ==> cookie.value == IssueCookie(codec, ids[k], now)
      ensures cookie == LoginCookie(codec, keys.rows, ids, fails, password, now, check, limiter.hits[ip].count <= limiter.limit)
    {
      LoginCookieMeaning(codec, keys.rows, ids, fails, password, now, check);
      var allowed := limiter.Allow(ip, now);
      if !allowed {
        return None;
      }
      var token := Splitter.TrimSpace(password);
      if token == "" {
        return None;
      }
      var v := keys.Verify(ids, fails, token, now, check);
      if !v.Found? || keys.rows[v.id].role != ADMIN {
        return None;
      }
      cookie := Some(IssueCookie(codec, v.id, now));
    }

    /** keyRevoke behind requireSession. */
    method KeyRevoke(cookie: string, id: string, now: int, ioOk: bool) returns (ok: bool)
      modifies keys
      ensures keys.rows == RevokedBy(old(keys.rows), Session(codec, old(keys.rows), cookie, now, ioOk), id)
      ensures ok <==> Session(codec, old(keys.rows), cookie, now, ioOk).Some?
                      && Session(codec, old(keys.rows), cookie, now, ioOk).value != id && id in old(keys.rows)
      ensures ok ==> id in keys.rows && forall t :: !Usable(keys.rows, id, t)
      ensures ok ==> forall other :: other != id && other in old(keys.rows) ==> other in keys.rows && keys.rows[other] == old(keys.rows)[other]
      ensures !ok ==> keys.rows == old(keys.rows)
    {
      ok := false;
      var session := RequireSession(cookie, now, ioOk);
      if session.None? || id == session.value {
        return;
      }
      ok := keys.Revoke(id, ioOk);
    }
  }

  /** Candidate k decides the lookup, matches, and is an admin key. */
  ghost predicate AdminDecides(keys: Keys, ids: seq<string>, fails: Option<nat>, token: string, now: int, check: HashCheck, k: nat)
    requires forall id :: id in ids ==> id in keys
  {
    && Decides(keys, ids, fails, token, now, check, k)
    && check(token, keys[ids[k]].hash) == Some(true) && keys[ids[k]].role == ADMIN
  }

  lemma LoginCookieMeaning(c: Codec, keys: Keys, ids: seq<string>, fails: Option<nat>, password: string, now: int, check: HashCheck)
    requires forall id :: id in ids ==> id in keys
    ensures var token := Splitter.TrimSpace(password);
            var cookie := LoginCookie(c, keys, ids, fails, password, now, check, true);
            && (cookie.Some? <==> token != "" && exists k: nat :: AdminDecides(keys, ids, fails, token, now, check, k))
            && (forall k: nat :: cookie.Some? && AdminDecides(keys, ids, fails, token, now, check, k)
                                 ==> cookie.value == IssueCookie(c, ids[k], now))
  {
    var token := Splitter.TrimSpace(password);
    LookupMeaning(keys, ids, fails, token, now, check);
    var v := Lookup(keys, ids, fails, token, now, check);
    if v.Found? {
      var k: nat :| Decides(keys, ids, fails, token, now, check, k) && check(token, keys[ids[k]].hash) == Some(true);
      assert v == Found(ids[k]);
      assert keys[ids[k]].role == ADMIN ==> AdminDecides(keys, ids, fails, token, now, check, k);
    }
  }

  /** What loginSubmit hands out. */
  function LoginCookie(
    c: Codec, keys: Keys, ids: seq<string>, fails: Option<nat>, password: string, now: int, check: HashCheck, allowed: bool)
    : Option<string>
    requires forall id :: id in ids ==> id in keys
  {
    var token := Splitter.TrimSpace(password);
    if !allowed || token == "" then None
    else match Lookup(keys, ids, fails, token, now, check)
         case Found(id) => if id in keys && keys[id].role == ADMIN then Some(IssueCookie(c, id, now)) else None
         case _ => None
  }

  /** The table after a revocation asked for by a session; a session cannot
      revoke its own key. */
  function RevokedBy(keys: Keys, session: Option<string>, id: string): Keys {
    if session.None? || session.value == id || id !in keys then keys
    else keys[id := keys[id].(status := REVOKED)]
  }

  // ---------- the lifecycle over runs ----------

  /** An issued cookie: which key it was issued to, and when. */
  datatype Issued = Issued(keyID: string, at: int)

  datatype State = State(keys: Keys, cookies: set<Issued>, clock: int)

  datatype Event =
    | Create(id: string, name: string, raw: string, hash: string)
    | Promote(id: string)                                   // create-key --role admin
    | Login(ids: seq<string>, fails: Option<nat>, password: string, allowed: bool)
    | DashboardRevoke(cookie: Issued, id: string, ioOk: bool)
    | CommandLineRevoke(id: string)
    | Wait(time: nat)

  function Text(c: Codec, k: Issued): string {
    IssueCookie(c, k.keyID, k.at)
  }

  /** Only cookies that were issued are presented. */
  function Step(s: State, c: Codec, check: HashCheck, ev: Event): State {
    match ev
    case Create(id, name, raw, hash) =>
      if id in s.keys then s
      else s.(keys := s.keys[id := KeyRow(name, PrefixOf(raw), CLIENT, ACTIVE, None, hash)])
    case Promote(id) =>
      if id !in s.keys then s else s.(keys := s.keys[id := s.keys[id].(role := ADMIN)])
    case Login(ids, fails, password, allowed) =>
      if (exists id :: id in ids && id !in s.keys) then s
      else
        var token := Splitter.TrimSpace(password);
        var v := Lookup(s.keys, ids, fails, token, s.clock, check);
        if LoginCookie(c, s.keys, ids, fails, password, s.clock, check, allowed).Some? && v.Found?
        then s.(cookies := s.cookies + {Issued(v.id, s.clock)}) else s
    case DashboardRevoke(cookie, id, ioOk) =>
      if cookie !in s.cookies then s
      else s.(keys := RevokedBy(s.keys, Session(c, s.keys, Text(c, cookie), s.clock, ioOk), id))
    case CommandLineRevoke(id) =>
      if id !in s.keys then s else s.(keys := s.keys[id := s.keys[id].(status := REVOKED)])
    case Wait(time) => s.(clock := s.clock + time)
  }

  ghost function RunFrom(s: State, c: Codec, check: HashCheck, run: seq<Event>): State {
    if run == [] then s else Step(RunFrom(s, c, check, run[..|run| - 1]), c, check, run[|run| - 1])
  }

  function Init(clock: int): State {
    State(map[], {}, clock)
  }

  /** Once revoked, a key stays revoked, whatever happens next. */
  lemma {:induction false} RevokedForever(s: State, c: Codec, check: HashCheck, run: seq<Event>, id: string)
    requires id in s.keys && s.keys[id].status == REVOKED
    ensures var s' := RunFrom(s, c, check, run);
            id in s'.keys && s'.keys[id].status == REVOKED
  {
    if run != [] {
      RevokedForever(s, c, check, run[..|run| - 1], id);
    }
  }

  /** After a key is revoked, no later bearer check finds it and no session of
      any cookie acts for it, in any continuation and at any time. */
  lemma RevokedKeyIsDead(s: State, c: Codec, check: HashCheck, run: seq<Event>, id: string, now: int)
    requires id in s.keys && s.keys[id].status == REVOKED
    ensures var keys := RunFrom(s, c, check, run).keys;
            && (forall ids: seq<string>, fails: Option<nat>, bearer: string :: (forall i :: i in ids ==> i in keys) ==>
                  Lookup(keys, ids, fails, bearer, now, check) != Found(id))
            && (forall cookie: string, ioOk: bool :: Session(c, keys, cookie, now, ioOk) != Some(id))
  {
    RevokedForever(s, c, check, run, id);
    var keys := RunFrom(s, c, check, run).keys;
    forall ids: seq<string>, fails: Option<nat>, bearer: string | forall i :: i in ids ==> i in keys
      ensures Lookup(keys, ids, fails, bearer, now, check) != Found(id)
    {
      LookupMeaning(keys, ids, fails, bearer, now, check);
    }
  }

  /** Cookies are only ever issued to admin keys, and roles are never taken back. */
  ghost predicate CookiesAreAdmins(s: State) {
    forall k :: k in s.cookies ==> k.keyID in s.keys && s.keys[k.keyID].role == ADMIN
  }

  lemma {:induction false} OnlyAdminsHoldCookies(start: int, c: Codec, check: HashCheck, run: seq<Event>)
    ensures CookiesAreAdmins(RunFrom(Init(start), c, check, run))
  {
    if run != [] {
      OnlyAdminsHoldCookies(start, c, check, run[..|run| - 1]);
    }
  }

  ghost predicate AdminUsable(s: State, id: string) {
    Usable(s.keys, id, s.clock) && s.keys[id].role == ADMIN
  }

  /** A revocation made in the dashboard is made by another, usable admin key,
      which stays usable: in any run such a revocation never empties the set of
      usable admin keys, and when it takes effect that set is not empty. */
  lemma DashboardNeverLocksOut(start: int, c: Codec, check: HashCheck, run: seq<Event>, cookie: Issued, id: string, ioOk: bool)
    requires GoodCodec(c)
    ensures var s := RunFrom(Init(start), c, check, run);
            var s' := Step(s, c, check, DashboardRevoke(cookie, id, ioOk));
            && (s'.keys != s.keys ==> cookie.keyID != id && AdminUsable(s, cookie.keyID) && AdminUsable(s', cookie.keyID))
            && ((exists a :: AdminUsable(s, a)) ==> exists a :: AdminUsable(s', a))
  {
    var s := RunFrom(Init(start), c, check, run);
    var s' := Step(s, c, check, DashboardRevoke(cookie, id, ioOk));
    OnlyAdminsHoldCookies(start, c, check, run);
    CookieRoundTrip(c, cookie.keyID, cookie.at, s.clock);
    if s'.keys != s.keys {
      assert AdminUsable(s', cookie.keyID);
    } else if a :| AdminUsable(s, a) {
      assert AdminUsable(s', a);
    }
  }

  /** The session of an issued cookie: its key's, while the cookie has not expired,
      the key is usable and the lookup works. */
  lemma SessionOfIssued(c: Codec, keys: Keys, keyID: string, issued: int, now: int, ioOk: bool)
    requires GoodCodec(c)
    ensures Session(c, keys, IssueCookie(c, keyID, issued), now, ioOk)
            == if '|' !in keyID && Unix(now) <= Unix(issued + 12 * 3600 * SECOND) && ioOk && Usable(keys, keyID, now)
               then Some(keyID) else None
  {
    CookieRoundTrip(c, keyID, issued, now);
  }

  /** The dashboard works: an admin who logs in holds a cookie with which any other
      key can be revoked. */
  lemma AdminCanRevoke(
    s: State, c: Codec, check: HashCheck, ids: seq<string>, fails: Option<nat>, password: string, k: nat, id: string)
    requires GoodCodec(c) && (forall i :: i in ids ==> i in s.keys)
    requires Splitter.TrimSpace(password) != "" && AdminDecides(s.keys, ids, fails, Splitter.TrimSpace(password), s.clock, check, k)
    requires '|' !in ids[k] && id in s.keys && id != ids[k]
    ensures var cookie := Issued(ids[k], s.clock);
            var s1 := Step(s, c, check, Login(ids, fails, password, true));
            var s2 := Step(s1, c, check, DashboardRevoke(cookie, id, true));
            && cookie in s1.cookies && s1.keys == s.keys
            && id in s2.keys && s2.keys[id].status == "revoked" && !Usable(s2.keys, id, s.clock)
  {
    LoginCookieMeaning(c, s.keys, ids, fails, password, s.clock, check);
    LookupMeaning(s.keys, ids, fails, Splitter.TrimSpace(password), s.clock, check);
    SessionOfIssued(c, s.keys, ids[k], s.clock, s.clock, true);
  }
}
