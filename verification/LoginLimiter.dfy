/**
 The per-IP fixed-window login limiter of internal/admin/limiter.go. Time is an
 integer handed to each call.
 */
module LoginLimiter {

  datatype Bucket = Bucket(count: nat, resetAt: int)

  type Hits = map<string, Bucket>

  /** The table after one attempt: a new window opens strictly after the old
      one's reset time, and the attempt is counted either way. */
  function Charge(hits: Hits, window: int, ip: string, now: int): Hits {
    if ip !in hits || now > hits[ip].resetAt
    then hits[ip := Bucket(1, now + window)]
    else hits[ip := Bucket(hits[ip].count + 1, hits[ip].resetAt)]
  }

  class Limiter {
    const window: int
    const limit: int
    var hits: Hits

    constructor (limit: int, window: int)
      ensures this.limit == limit && this.window == window && hits == map[]
    {
      this.limit, this.window, hits := limit, window, map[];
    }

    /** Allow: refused attempts still consume a slot. */
    method Allow(ip: string, now: int) returns (ok: bool)
      modifies this
      ensures hits == Charge(old(hits), window, ip, now)
      ensures ok <==> hits[ip].count <= limit
    {
      if ip !in hits || now > hits[ip].resetAt {
        hits := hits[ip := Bucket(0, now + window)];
      }
      hits := hits[ip := hits[ip].(count := hits[ip].count + 1)];
      ok := hits[ip].count <= limit;
    }
  }

  // ---------- runs ----------

  datatype Attempt = Attempt(ip: string, at: int)

  ghost function HitsAfter(window: int, run: seq<Attempt>): Hits {
    if run == [] then map[]
    else
      var last := run[|run| - 1];
      Charge(HitsAfter(window, run[..|run| - 1]), window, last.ip, last.at)
  }

  /** The answer Allow gives to one more attempt after the run. */
  ghost predicate Allowed(limit: int, window: int, run: seq<Attempt>, next: Attempt) {
    Charge(HitsAfter(window, run), window, next.ip, next.at)[next.ip].count <= limit
  }

  /** How many attempts of the run from ip, made in [lo, hi], were allowed. */
  ghost function AllowedIn(limit: int, window: int, run: seq<Attempt>, ip: string, lo: int, hi: int): nat {
    if run == [] then 0
    else
      var before, last := run[..|run| - 1], run[|run| - 1];
      AllowedIn(limit, window, before, ip, lo, hi)
      + if last.ip == ip && lo <= last.at <= hi && Allowed(limit, window, before, last) then 1 else 0
  }

  lemma Extend(limit: int, window: int, run: seq<Attempt>, a: Attempt, ip: string, lo: int, hi: int)
    ensures HitsAfter(window, run + [a]) == Charge(HitsAfter(window, run), window, a.ip, a.at)
    ensures AllowedIn(limit, window, run + [a], ip, lo, hi)
            == AllowedIn(limit, window, run, ip, lo, hi)
               + if a.ip == ip && lo <= a.at <= hi && Allowed(limit, window, run, a) then 1 else 0
  {
    var whole := run + [a];
    assert whole[..|whole| - 1] == run && whole[|whole| - 1] == a;
  }

  ghost predicate Chronological(run: seq<Attempt>) {
    forall i, j :: 0 <= i < j < |run| ==> run[i].at <= run[j].at
  }

  /** What the current window of ip (opened at resetAt - window) says about the
      attempts allowed so far in [lo, lo + window]. */
  ghost predicate Accounted(b: Bucket, limit: int, window: int, lo: int, allowed: nat) {
    var open := b.resetAt - window;
    var used := if b.count <= limit then b.count else limit;
    && b.count >= 1
    && (open > lo + window ==> allowed <= 2 * limit - 1)
    && (lo <= open <= lo + window ==> allowed <= limit - 1 + used)
    && (open < lo ==> allowed <= used - 1)
  }

  lemma {:induction false} WindowInvariant(limit: int, window: int, run: seq<Attempt>, ip: string, lo: int)
    requires limit >= 1 && Chronological(run)
    ensures var hits, allowed := HitsAfter(window, run), AllowedIn(limit, window, run, ip, lo, lo + window);
            && (ip !in hits ==> allowed == 0)
            && (run != [] && run[|run| - 1].at < lo ==> allowed == 0)
            && (ip in hits ==> hits[ip].resetAt - window <= run[|run| - 1].at && Accounted(hits[ip], limit, window, lo, allowed))
  {
    if run != [] {
      var n := |run| - 1;
      var before, last := run[..n], run[n];
      WindowInvariant(limit, window, before, ip, lo);
      assert n > 0 ==> before[n - 1].at <= last.at;
    }
  }

  /** The rate bound: in any closed interval one window long, at most
      2*limit - 1 attempts from one IP are allowed, whatever other IPs do; with
      a limit below one, none is. */
  lemma RateBound(limit: int, window: int, run: seq<Attempt>, ip: string, lo: int)
    requires Chronological(run)
    ensures AllowedIn(limit, window, run, ip, lo, lo + window) <= if limit >= 1 then 2 * limit - 1 else 0
  {
    if limit >= 1 {
      WindowInvariant(limit, window, run, ip, lo);
    } else {
      NothingBelowOne(limit, window, run, ip, lo, lo + window);
    }
  }

  lemma {:induction false} CountsArePositive(window: int, run: seq<Attempt>, ip: string)
    ensures ip in HitsAfter(window, run) ==> HitsAfter(window, run)[ip].count >= 1
  {
    if run != [] {
      CountsArePositive(window, run[..|run| - 1], ip);
    }
  }

  lemma {:induction false} NothingBelowOne(limit: int, window: int, run: seq<Attempt>, ip: string, lo: int, hi: int)
    requires limit < 1
    ensures AllowedIn(limit, window, run, ip, lo, hi) == 0
  {
    if run != [] {
      var before := run[..|run| - 1];
      CountsArePositive(window, before, ip);
      NothingBelowOne(limit, window, before, ip, lo, hi);
    }
  }

  // ---------- independence of other IPs ----------

  ghost function Only(run: seq<Attempt>, ip: string): seq<Attempt> {
    if run == [] then []
    else
      var before, last := run[..|run| - 1], run[|run| - 1];
      Only(before, ip) + if last.ip == ip then [last] else []
  }

  lemma {:induction false} BucketIgnoresOthers(window: int, run: seq<Attempt>, ip: string)
    ensures var all, own := HitsAfter(window, run), HitsAfter(window, Only(run, ip));
            (ip in all <==> ip in own) && (ip in all ==> all[ip] == own[ip])
  {
    if run != [] {
      var before, last := run[..|run| - 1], run[|run| - 1];
      BucketIgnoresOthers(window, before, ip);
      if last.ip == ip {
        Extend(0, window, Only(before, ip), last, ip, 0, 0);
      } else {
        assert Only(run, ip) == Only(before, ip);
      }
    }
  }

  /** An attempt is answered as if only its own IP had ever called. */
  lemma OtherIPsDoNotMatter(limit: int, window: int, run: seq<Attempt>, next: Attempt)
    ensures Allowed(limit, window, run, next) <==> Allowed(limit, window, Only(run, next.ip), next)
  {
    BucketIgnoresOthers(window, run, next.ip);
  }

  // ---------- the bound is attained ----------

  /** n attempts at one instant. */
  function Burst(ip: string, at: int, n: nat): seq<Attempt> {
    if n == 0 then [] else Burst(ip, at, n - 1) + [Attempt(ip, at)]
  }

  lemma {:induction false} BurstIsConstant(ip: string, at: int, n: nat)
    ensures |Burst(ip, at, n)| == n
    ensures forall i :: 0 <= i < n ==> Burst(ip, at, n)[i] == Attempt(ip, at)
  {
    if n > 0 {
      BurstIsConstant(ip, at, n - 1);
    }
  }

  /** The bucket of ip after the run, and how many it was allowed in [lo, hi]. */
  ghost predicate Stands(limit: int, window: int, run: seq<Attempt>, ip: string, lo: int, hi: int, b: Bucket, allowed: int) {
    && ip in HitsAfter(window, run) && HitsAfter(window, run)[ip] == b
    && AllowedIn(limit, window, run, ip, lo, hi) == allowed
  }

  /** One more attempt inside the current window, within the limit. */
  lemma OneMore(limit: int, window: int, run: seq<Attempt>, b: Bucket, ip: string, at: int, lo: int, hi: int, allowed: int)
    requires Stands(limit, window, run, ip, lo, hi, b, allowed)
    requires lo <= at <= hi && at <= b.resetAt && b.count < limit
    ensures Stands(limit, window, run + [Attempt(ip, at)], ip, lo, hi, Bucket(b.count + 1, b.resetAt), allowed + 1)
  {
    Extend(limit, window, run, Attempt(ip, at), ip, lo, hi);
  }

  /** The first attempt of a new window. */
  lemma OneAfterReset(limit: int, window: int, run: seq<Attempt>, b: Bucket, ip: string, at: int, lo: int, hi: int, allowed: int)
    requires Stands(limit, window, run, ip, lo, hi, b, allowed)
    requires lo <= at <= hi && at > b.resetAt && 1 <= limit
    ensures Stands(limit, window, run + [Attempt(ip, at)], ip, lo, hi, Bucket(1, at + window), allowed + 1)
  {
    Extend(limit, window, run, Attempt(ip, at), ip, lo, hi);
  }

  /** A burst inside the current window, within the limit, is all allowed. */
  lemma {:induction false} BurstInWindow(
    limit: int, window: int, run: seq<Attempt>, b: Bucket, ip: string, at: int, n: nat, lo: int, hi: int, allowed: int)
    requires Stands(limit, window, run, ip, lo, hi, b, allowed)
    requires lo <= at <= hi && at <= b.resetAt && b.count + n <= limit
    ensures Stands(limit, window, run + Burst(ip, at, n), ip, lo, hi, Bucket(b.count + n, b.resetAt), allowed + n)
  {
    if n == 0 {
      assert run + Burst(ip, at, 0) == run;
    } else {
      var whole := run + Burst(ip, at, n - 1);
      assert run + Burst(ip, at, n) == whole + [Attempt(ip, at)];
      BurstInWindow(limit, window, run, b, ip, at, n - 1, lo, hi, allowed);
      OneMore(limit, window, whole, Bucket(b.count + n - 1, b.resetAt), ip, at, lo, hi, allowed + n - 1);
    }
  }

  /** One attempt, limit - 1 as late as its window lasts, limit more right after. */
  function WorstCase(ip: string, limit: nat, window: nat): seq<Attempt>
    requires limit >= 1
  {
    [Attempt(ip, 0)] + Burst(ip, window, limit - 1) + [Attempt(ip, window + 1)] + Burst(ip, window + 1, limit - 1)
  }

  lemma WorstCaseIsChronological(ip: string, limit: nat, window: nat)
    requires limit >= 1
    ensures Chronological(WorstCase(ip, limit, window))
  {
    BurstIsConstant(ip, window, limit - 1);
    BurstIsConstant(ip, window + 1, limit - 1);
    var run := WorstCase(ip, limit, window);
    forall i | 0 <= i < |run|
      ensures run[i].at == if i == 0 then 0 else if i < limit then window else window + 1
    {
    }
  }

  lemma WorstCaseOpening(ip: string, limit: nat, window: nat)
    requires limit >= 1 && window >= 1
    ensures Stands(limit, window, [Attempt(ip, 0)], ip, 1, 1 + window, Bucket(1, window), 0)
  {
    assert [] + [Attempt(ip, 0)] == [Attempt(ip, 0)];
    Extend(limit, window, [], Attempt(ip, 0), ip, 1, 1 + window);
  }

  /** The opening attempt of the second window, after the first is used up. */
  lemma WorstCaseFirstHalf(ip: string, limit: nat, window: nat)
    requires limit >= 1 && window >= 1
    ensures Stands(limit, window, [Attempt(ip, 0)] + Burst(ip, window, limit - 1) + [Attempt(ip, window + 1)], ip, 1, 1 + window,
                   Bucket(1, 2 * window + 1), limit)
  {
    var first := [Attempt(ip, 0)];
    WorstCaseOpening(ip, limit, window);
    BurstInWindow(limit, window, first, Bucket(1, window), ip, window, limit - 1, 1, 1 + window, 0);
    OneAfterReset(
      limit, window, first + Burst(ip, window, limit - 1), Bucket(limit, window), ip, window + 1, 1, 1 + window, limit - 1);
  }

  /** The rate bound is attained, for every limit and every positive window. */
  lemma RateBoundIsTight(ip: string, limit: nat, window: nat)
    requires limit >= 1 && window >= 1
    ensures Chronological(WorstCase(ip, limit, window))
    ensures AllowedIn(limit, window, WorstCase(ip, limit, window), ip, 1, 1 + window) == 2 * limit - 1
  {
    WorstCaseIsChronological(ip, limit, window);
    WorstCaseFirstHalf(ip, limit, window);
    var run := [Attempt(ip, 0)] + Burst(ip, window, limit - 1) + [Attempt(ip, window + 1)];
    BurstInWindow(limit, window, run, Bucket(1, 2 * window + 1), ip, window + 1, limit - 1, 1, 1 + window, limit);
  }
}
