/**
 The fixed-window rate limiter. Instants are milliseconds since the epoch and the
 window is a whole number of seconds; all instances and Redis share one clock.
 */
module RateLimit {
  import opened Wrappers
  import Keys

  /** What the caller learns of its pipeline: the count, an error although INCR took effect, or a plain error. */
  datatype Reply = Answered | Lost | NotSent

  datatype Request = Request(client: string, at: nat, reply: Reply)

  /** time.Now().Unix() / seconds(window) */
  function Bucket(window: nat, at: nat): nat
    requires window > 0
  {
    at / 1000 / window
  }

  /** The first millisecond after a bucket. */
  function BucketEnd(window: nat, bucket: nat): nat {
    (bucket + 1) * window * 1000
  }

  predicate Matches(window: nat, r: Request, client: string, bucket: nat)
    requires window > 0
  {
    r.client == client && Bucket(window, r.at) == bucket
  }

  /** INCRs for `client` in `bucket`. */
  function InBucket(window: nat, log: seq<Request>, client: string, bucket: nat): nat
    requires window > 0
    decreases |log|
  {
    if log == [] then 0
    else
      var n := |log| - 1;
      InBucket(window, log[..n], client, bucket)
      + if Matches(window, log[n], client, bucket) && !log[n].reply.NotSent? then 1 else 0
  }

  /** Whether the last request of `log` is among the first `limit` INCRs of its bucket. */
  predicate WithinLimit(window: nat, limit: nat, log: seq<Request>)
    requires window > 0 && log != []
  {
    var r := log[|log| - 1];
    !r.reply.NotSent? && InBucket(window, log, r.client, Bucket(window, r.at)) <= limit
  }

  /** A request passes within the limit, or because the limiter fails open. */
  predicate LetThrough(window: nat, limit: nat, log: seq<Request>)
    requires window > 0 && log != []
  {
    !log[|log| - 1].reply.Answered? || WithinLimit(window, limit, log)
  }

  /** Requests of `client` in `bucket` that pass within the limit. */
  function Within(window: nat, limit: nat, log: seq<Request>, client: string, bucket: nat): nat
    requires window > 0
    decreases |log|
  {
    if log == [] then 0
    else
      var n := |log| - 1;
      Within(window, limit, log[..n], client, bucket)
      + if Matches(window, log[n], client, bucket) && WithinLimit(window, limit, log) then 1 else 0
  }

  /** Requests of `client` in `bucket` that pass. */
  function Admitted(window: nat, limit: nat, log: seq<Request>, client: string, bucket: nat): nat
    requires window > 0
    decreases |log|
  {
    if log == [] then 0
    else
      var n := |log| - 1;
      Admitted(window, limit, log[..n], client, bucket)
      + if Matches(window, log[n], client, bucket) && LetThrough(window, limit, log) then 1 else 0
  }

  /** Requests of `client` in `bucket` that pass only because the limiter fails open. */
  function FailedOpen(window: nat, limit: nat, log: seq<Request>, client: string, bucket: nat): nat
    requires window > 0
    decreases |log|
  {
    if log == [] then 0
    else
      var n := |log| - 1;
      FailedOpen(window, limit, log[..n], client, bucket)
      + if Matches(window, log[n], client, bucket) && !log[n].reply.Answered? && !WithinLimit(window, limit, log)
        then 1 else 0
  }

  /** Requests of `client` between two instants that pass. */
  function AdmittedBetween(window: nat, limit: nat, log: seq<Request>, client: string, from: nat, to: nat): nat
    requires window > 0
    decreases |log|
  {
    if log == [] then 0
    else
      var n := |log| - 1;
      AdmittedBetween(window, limit, log[..n], client, from, to)
      + if log[n].client == client && from <= log[n].at < to && LetThrough(window, limit, log) then 1 else 0
  }

  /** Requests of `client` between two instants that got an error. */
  function ErrorsBetween(log: seq<Request>, client: string, from: nat, to: nat): nat
    decreases |log|
  {
    if log == [] then 0
    else
      var n := |log| - 1;
      ErrorsBetween(log[..n], client, from, to)
      + if log[n].client == client && from <= log[n].at < to && !log[n].reply.Answered? then 1 else 0
  }

  lemma {:induction false} FirstOnesAreWithin(window: nat, limit: nat, log: seq<Request>, client: string, bucket: nat)
    requires window > 0
    ensures Within(window, limit, log, client, bucket)
         == var n := InBucket(window, log, client, bucket); if n < limit then n else limit
    decreases |log|
  {
    if log != [] {
      FirstOnesAreWithin(window, limit, log[..|log| - 1], client, bucket);
    }
  }

  /** Exactly the first `limit` requests of a bucket are allowed, and those for which the limiter fails open. */
  lemma {:induction false} BucketAdmitsLimit(window: nat, limit: nat, log: seq<Request>, client: string, bucket: nat)
    requires window > 0
    ensures Admitted(window, limit, log, client, bucket)
         == (var n := InBucket(window, log, client, bucket); if n < limit then n else limit)
            + FailedOpen(window, limit, log, client, bucket)
    ensures (forall r :: r in log ==> r.reply.Answered?) ==> FailedOpen(window, limit, log, client, bucket) == 0
    decreases |log|
  {
    FirstOnesAreWithin(window, limit, log, client, bucket);
    if log != [] {
      var n := |log| - 1;
      FirstOnesAreWithin(window, limit, log[..n], client, bucket);
      BucketAdmitsLimit(window, limit, log[..n], client, bucket);
      assert forall r :: r in log[..n] ==> r in log;
      assert log[n] in log;
    }
  }

  lemma DivMul(a: nat, n: nat)
    requires n > 0
    ensures a / n * n <= a < a / n * n + n
  {
  }

  lemma DivBetween(x: nat, q: nat, n: nat)
    requires n > 0 && q * n <= x < q * n + n
    ensures x / n == q
  {
    var r := x / n;
    DivMul(x, n);
    MulMonotone(r + 1, q, n);
    MulMonotone(q + 1, r, n);
  }

  lemma MulMonotone(a: nat, b: nat, n: nat)
    ensures a <= b ==> a * n <= b * n
  {
  }

  lemma BucketNear(window: nat, from: nat, at: nat)
    requires window > 0 && from <= at < from + 1000 * window
    ensures Bucket(window, at) == Bucket(window, from) || Bucket(window, at) == Bucket(window, from) + 1
  {
    var a, t := from / 1000, at / 1000;
    assert a <= t <= a + window;
    DivMul(a, window);
    var q := a / window;
    if t < q * window + window {
      DivBetween(t, q, window);
    } else {
      assert (q + 1) * window == q * window + window;
      DivBetween(t, q + 1, window);
    }
  }

  /** Without errors any `window` consecutive seconds admit at most twice the limit; each error may admit one more. */
  lemma WindowAdmitsTwiceLimit(window: nat, limit: nat, log: seq<Request>, client: string, from: nat)
    requires window > 0
    ensures AdmittedBetween(window, limit, log, client, from, from + 1000 * window)
         <= 2 * limit + ErrorsBetween(log, client, from, from + 1000 * window)
  {
    var b := Bucket(window, from);
    TwoBuckets(window, limit, log, client, from);
    FirstOnesAreWithin(window, limit, log, client, b);
    FirstOnesAreWithin(window, limit, log, client, b + 1);
  }

  lemma {:induction false} TwoBuckets(window: nat, limit: nat, log: seq<Request>, client: string, from: nat)
    requires window > 0
    ensures var b, to := Bucket(window, from), from + 1000 * window;
      AdmittedBetween(window, limit, log, client, from, to)
      <= Within(window, limit, log, client, b) + Within(window, limit, log, client, b + 1)
         + ErrorsBetween(log, client, from, to)
    decreases |log|
  {
    if log != [] {
      var r := log[|log| - 1];
      TwoBuckets(window, limit, log[..|log| - 1], client, from);
      if from <= r.at < from + 1000 * window {
        BucketNear(window, from, r.at);
      }
    }
  }

  /** `expires` is None while no EXPIRE has reached the key. */
  datatype Counter = Counter(n: nat, expires: Option<nat>)

  /** Every bucket that saw an INCR has its key, with the exact count, alive until the bucket ends. */
  ghost predicate Counted(window: nat, counts: map<string, Counter>, log: seq<Request>)
    requires window > 0
  {
    forall client: string, b: nat ::
      var k := Keys.LimiterKey(client, b);
      var n := InBucket(window, log, client, b);
      if n == 0 then k !in counts
      else k in counts && counts[k].n == n
           && (counts[k].expires.Some? ==> BucketEnd(window, b) <= counts[k].expires.value)
  }

  lemma NotCounted(window: nat, counts: map<string, Counter>, log: seq<Request>, r: Request)
    requires window > 0 && Counted(window, counts, log) && r.reply.NotSent?
    ensures Counted(window, counts, log + [r])
  {
    assert (log + [r])[..|log|] == log;
  }

  /** One INCR more, and EXPIRE or the old expiry. The key is still alive if its bucket is not over. */
  lemma CountedOnce(window: nat, counts: map<string, Counter>, log: seq<Request>, r: Request, expires: Option<nat>)
    requires window > 0 && Counted(window, counts, log) && !r.reply.NotSent?
    ensures var b := Bucket(window, r.at);
            var k := Keys.LimiterKey(r.client, b);
            var n := InBucket(window, log + [r], r.client, b);
      && n == (if k in counts && (counts[k].expires.None? || r.at < counts[k].expires.value)
               then counts[k].n + 1 else 1)
      && (expires == Some(r.at + window * 1000) || expires == (if k in counts then counts[k].expires else None) ==>
            Counted(window, counts[k := Counter(n, expires)], log + [r]))
  {
    assert (log + [r])[..|log|] == log;
    InsideBucket(window, r.at);
    var bucket := Bucket(window, r.at);
    var k := Keys.LimiterKey(r.client, bucket);
    assert InBucket(window, log, r.client, bucket) == 0 ==> k !in counts;
    forall c: string, b: nat | c != r.client || b != bucket ensures Keys.LimiterKey(c, b) != k {
      if Keys.LimiterKey(c, b) == k {
        Keys.LimiterInjective(c, b, r.client, bucket);
      }
    }
    hide Keys.LimiterKey;
    hide BucketEnd;
    hide Bucket;
  }

  class RateLimiter {
    const window: nat
    var counts: map<string, Counter>
    ghost var log: seq<Request>

    ghost predicate Valid()
      reads this
    {
      window > 0 && Counted(window, counts, log)
    }

    constructor (window: nat)
      requires window > 0
      ensures Valid() && log == [] && this.window == window
    {
      this.window := window;
      counts := map[];
      log := [];
    }

    /**
     INCR, then EXPIRE, in one pipeline; `expired` says whether a pipeline that failed
     after INCR got to EXPIRE. On an error the caller lets the request pass.
     */
    method Allow(now: nat, client: string, limit: nat, reply: Reply, expired: bool) returns (allowed: bool, err: bool)
      requires Valid()
      modifies this
      ensures Valid() && err == !reply.Answered?
      ensures log == old(log) + [Request(client, now, reply)] && allowed == LetThrough(window, limit, log)
      ensures reply.NotSent? ==> counts == old(counts)
    {
      var bucket := now / 1000 / window;
      var k := Keys.LimiterKey(client, bucket);
      ghost var r := Request(client, now, reply);
      assert (log + [r])[..|log|] == log;
      if reply.NotSent? {
        NotCounted(window, counts, log, r);
        log := log + [r];
        return true, true;
      }
      var live := k in counts && (counts[k].expires.None? || now < counts[k].expires.value);
      var n, was := if live then counts[k].n + 1 else 1, if live then counts[k].expires else None;
      var expires := if reply.Answered? || expired then Some(now + window * 1000) else was;
      CountedOnce(window, counts, log, r, expires);
      StillAlive(window, counts, log, r);
      hide Counted;
      hide Keys.LimiterKey;
      counts := counts[k := Counter(n, expires)];
      log := log + [r];
      if reply.Lost? {
        return true, true;
      }
      return n <= limit, false;
    }
  }

  lemma StillAlive(window: nat, counts: map<string, Counter>, log: seq<Request>, r: Request)
    requires window > 0 && Counted(window, counts, log)
    ensures var k := Keys.LimiterKey(r.client, Bucket(window, r.at));
      k in counts && counts[k].expires.Some? ==> r.at < counts[k].expires.value
  {
    InsideBucket(window, r.at);
    var b := Bucket(window, r.at);
    assert InBucket(window, log, r.client, b) == 0 ==> Keys.LimiterKey(r.client, b) !in counts;
  }

  /** A key touched inside a bucket outlives the bucket. */
  lemma InsideBucket(window: nat, at: nat)
    requires window > 0
    ensures at < BucketEnd(window, Bucket(window, at)) <= at + window * 1000
  {
    var s := at / 1000;
    DivMul(s, window);
    assert BucketEnd(window, s / window) == (s / window * window + window) * 1000;
  }
}
