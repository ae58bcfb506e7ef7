/** The in-memory request limiter: one bucket per key in a map shared by every guard. */
module RateLimit {
  import opened Strings
  import opened Wrappers

  // A window of windowMs starting at the request that opened the bucket, and the requests it has seen.
  datatype Bucket = Bucket(count: nat, resetAt: int)

  datatype Options = Options(limit: int, windowMs: int, keyPrefix: string)

  datatype Outcome = Admitted | TooMany(retryAfterSec: int)

  // The addresses a request carries: a single x-forwarded-for header and what the adapter reports.
  datatype Source = Source(forwardedFor: Option<string>, ip: Option<string>, remote: Option<string>)

  /* Keys. */

  function OrElse(a: Option<string>, b: string): string {
    if a.Some? && a.value != "" then a.value else b
  }

  function Address(source: Source): (address: string)
    ensures address != ""
  {
    var forwarded := if source.forwardedFor.Some? then Some(Trim(Before(source.forwardedFor.value, ','))) else None;
    OrElse(forwarded, OrElse(source.ip, OrElse(source.remote, "unknown")))
  }

  // The first forwarded address counts, then what the adapter reports, the connection's own address last.
  lemma AddressIsTheFirst(first: string, rest: string, ip: Option<string>, remote: Option<string>)
    requires first != "" && ',' !in first && Trim(first) == first
    ensures Address(Source(Some(first), ip, remote)) == first == Address(Source(Some(first + "," + rest), ip, remote))
    ensures Address(Source(None, Some(first), remote)) == first == Address(Source(None, None, Some(first)))
    ensures Address(Source(None, None, None)) == "unknown"
  {
    hide Trim;
    BeforeComma(first, "");
    BeforeComma(first, "," + rest);
    assert first + "" == first && first + ("," + rest) == first + "," + rest;
  }

  // A forwarded text without an address before its first comma does not count.
  lemma {:induction false} BlankIsPassedOver(blank: string, ip: Option<string>, remote: Option<string>)
    requires Trim(Before(blank, ',')) == ""
    ensures Address(Source(Some(blank), ip, remote)) == Address(Source(None, ip, remote))
    ensures Address(Source(None, Some(""), remote)) == Address(Source(None, None, remote))
  {
    hide Trim;
  }

  lemma {:induction false} BeforeComma(head: string, tail: string)
    requires ',' !in head && (tail == "" || tail[0] == ',')
    ensures Before(head + tail, ',') == head
  {
    if head == "" {
      assert head + tail == tail;
    } else {
      assert head[0] in head && (head + tail)[1..] == head[1..] + tail;
      BeforeComma(head[1..], tail);
      assert head == [head[0]] + head[1..];
    }
  }

  function Key(prefix: string, address: string): string {
    prefix + ":" + address
  }

  predicate Nested(p: string, q: string) {
    p != q && p + ":" <= q
  }

  // Two prefixes can meet in one bucket exactly when they are equal or one starts with the other and a colon.
  lemma KeysMeet(p: string, q: string)
    ensures (exists a, b :: a != "" && b != "" && Key(p, a) == Key(q, b)) <==> p == q || Nested(p, q) || Nested(q, p)
  {
    if p == q || Nested(p, q) || Nested(q, p) {
      var a := if |p| < |q| then q[|p| + 1..] + ":x" else "x";
      var b := if |q| < |p| then p[|q| + 1..] + ":x" else "x";
      assert Key(p, a) == Key(q, b);
    }
    forall a, b | Key(p, a) == Key(q, b) ensures p == q || Nested(p, q) || Nested(q, p) {
      PrefixesOfOneKey(p, a, q, b);
    }
  }

  lemma PrefixesOfOneKey(p: string, a: string, q: string, b: string)
    requires Key(p, a) == Key(q, b)
    ensures p == q || Nested(p, q) || Nested(q, p)
  {
    var key := Key(p, a);
    assert p == key[..|p|] && q == Key(q, b)[..|q|] == key[..|q|];
    assert key[|p|] == ':' && Key(q, b)[|q|] == ':';
    if |p| < |q| {
      assert p + ":" == key[..|p| + 1] == q[..|p| + 1];
    } else if |q| < |p| {
      assert q + ":" == key[..|q| + 1] == p[..|q| + 1];
    }
  }

  /* One request. */

  function RetryAfter(resetAt: int, now: int): (seconds: int)
    ensures seconds >= 1 && now + 1000 * seconds >= resetAt
    ensures forall fewer :: 1 <= fewer < seconds ==> now + 1000 * fewer < resetAt
  {
    var ceiling := -((now - resetAt) / 1000);
    if ceiling > 1 then ceiling else 1
  }

  type Buckets = map<string, Bucket>

  function Check(buckets: Buckets, key: string, limit: int, windowMs: int, now: int): (Buckets, Outcome) {
    if key !in buckets || now >= buckets[key].resetAt then
      (buckets[key := Bucket(1, now + windowMs)], Admitted)
    else
      var existing := buckets[key].(count := buckets[key].count + 1);
      (buckets[key := existing],
       if existing.count > limit then TooMany(RetryAfter(existing.resetAt, now)) else Admitted)
  }

  // The wait a refused caller is told is the least whole number of seconds, from one up, after which its next
  // request is admitted.
  lemma RetryAfterIsExact(buckets: Buckets, key: string, limit: int, windowMs: int, now: int, wait: int)
    requires wait >= 1 && Check(buckets, key, limit, windowMs, now).1.TooMany?
    ensures var (after, refused) := Check(buckets, key, limit, windowMs, now);
            Check(after, key, limit, windowMs, now + 1000 * wait).1.Admitted? <==> wait >= refused.retryAfterSec
  {
  }

  /* Runs. */

  // A request to a guard whose options are limit and windowMs.
  datatype Request = Request(key: string, limit: int, windowMs: int, now: int)

  ghost function Run(buckets: Buckets, requests: seq<Request>): Buckets {
    if requests == [] then buckets
    else
      var r := requests[|requests| - 1];
      Check(Run(buckets, requests[..|requests| - 1]), r.key, r.limit, r.windowMs, r.now).0
  }

  // How many of the requests for a key made from `from` on and before `to` were admitted.
  ghost function AdmittedIn(buckets: Buckets, requests: seq<Request>, key: string, from: int, to: int): nat {
    if requests == [] then 0
    else
      var earlier, r := requests[..|requests| - 1], requests[|requests| - 1];
      AdmittedIn(buckets, earlier, key, from, to)
      + if r.key == key && from <= r.now < to
           && Check(Run(buckets, earlier), r.key, r.limit, r.windowMs, r.now).1.Admitted?
        then 1 else 0
  }

  ghost function MadeIn(requests: seq<Request>, key: string, from: int, to: int): nat {
    if requests == [] then 0
    else
      var r := requests[|requests| - 1];
      MadeIn(requests[..|requests| - 1], key, from, to) + if r.key == key && from <= r.now < to then 1 else 0
  }

  // The clock never goes back, and every request for a key is made to guards with the same options.
  ghost predicate Steady(requests: seq<Request>, key: string, limit: int, windowMs: int) {
    && (forall i, j :: 0 <= i < j < |requests| ==> requests[i].now <= requests[j].now)
    && (forall r :: r in requests && r.key == key ==> r.limit == limit && r.windowMs == windowMs)
  }

  // What is known of the key's bucket after any requests: which part of an interval of one window can have been
  // used, by where the bucket's start lies.
  ghost predicate Used(admitted: nat, buckets: Buckets, key: string, limit: int, windowMs: int, from: int) {
    var most := Max(1, limit);
    if key !in buckets then admitted == 0
    else
      var b := buckets[key];
      var start := b.resetAt - windowMs;
      && b.count >= 1
      && (start < from ==> admitted <= Min(b.count, most))
      && (from <= start < from + windowMs ==> admitted <= most + Min(b.count, most))
      && (from + windowMs <= start ==> admitted <= 2 * most)
  }

  lemma {:induction false} RunUsed(requests: seq<Request>, key: string, limit: int, windowMs: int, from: int)
    requires Steady(requests, key, limit, windowMs)
    ensures var admitted := AdmittedIn(map[], requests, key, from, from + windowMs);
            var buckets := Run(map[], requests);
            && Used(admitted, buckets, key, limit, windowMs, from)
            && (requests != [] && requests[|requests| - 1].now < from ==> admitted == 0)
            && (key in buckets ==> requests != [] && buckets[key].resetAt - windowMs <= requests[|requests| - 1].now)
  {
    if requests != [] {
      var earlier := requests[..|requests| - 1];
      RunUsed(earlier, key, limit, windowMs, from);
    }
  }

  // Wherever an interval as long as the window begins, it holds at most twice the limit of admitted requests.
  lemma AnyWindowAdmitsTwice(requests: seq<Request>, key: string, limit: int, windowMs: int, from: int)
    requires Steady(requests, key, limit, windowMs)
    ensures AdmittedIn(map[], requests, key, from, from + windowMs) <= 2 * Max(1, limit)
  {
    RunUsed(requests, key, limit, windowMs, from);
  }

  // From the request that opens a bucket to its reset, exactly the first max(1, limit) requests are admitted,
  // whatever happens on other keys.
  lemma {:induction false} BucketAdmits(
      buckets: Buckets, requests: seq<Request>, key: string, limit: int, windowMs: int)
    requires requests != [] && Steady(requests, key, limit, windowMs) && requests[0].key == key
    requires key in buckets ==> buckets[key].resetAt <= requests[0].now
    ensures var start := requests[0].now;
            AdmittedIn(buckets, requests, key, start, start + windowMs)
            == Min(MadeIn(requests, key, start, start + windowMs), Max(1, limit))
    ensures windowMs > 0 ==> MadeIn(requests, key, requests[0].now, requests[0].now + windowMs) >= 1
    ensures var start := requests[0].now;
            requests[|requests| - 1].now < start + windowMs ==>
              key in Run(buckets, requests)
              && Run(buckets, requests)[key] == Bucket(MadeIn(requests, key, start, start + windowMs), start + windowMs)
  {
    var earlier, r := requests[..|requests| - 1], requests[|requests| - 1];
    assert r.key == key ==> r.limit == limit && r.windowMs == windowMs;
    if earlier == [] {
      hide Steady;
      assert Run(buckets, earlier) == buckets;
    } else {
      BucketAdmits(buckets, earlier, key, limit, windowMs);
      assert requests[0].now <= earlier[|earlier| - 1].now <= r.now by {
        assert earlier[|earlier| - 1] == requests[|requests| - 2];
      }
      hide Steady, AdmittedIn, MadeIn;
      BucketStep(buckets, requests, key, limit, windowMs);
    }
  }

  lemma BucketStep(buckets: Buckets, requests: seq<Request>, key: string, limit: int, windowMs: int)
    requires |requests| >= 2
    requires var earlier, r, start := requests[..|requests| - 1], requests[|requests| - 1], requests[0].now;
             && (r.key == key ==> r.limit == limit && r.windowMs == windowMs)
             && start <= r.now
             && (r.now < start + windowMs ==>
                   key in Run(buckets, earlier)
                   && Run(buckets, earlier)[key]
                      == Bucket(MadeIn(earlier, key, start, start + windowMs), start + windowMs)
                   && MadeIn(earlier, key, start, start + windowMs) >= 1)
             && AdmittedIn(buckets, earlier, key, start, start + windowMs)
                == Min(MadeIn(earlier, key, start, start + windowMs), Max(1, limit))
    ensures var start := requests[0].now;
            && AdmittedIn(buckets, requests, key, start, start + windowMs)
               == Min(MadeIn(requests, key, start, start + windowMs), Max(1, limit))
            && MadeIn(requests, key, start, start + windowMs)
               >= MadeIn(requests[..|requests| - 1], key, start, start + windowMs)
            && (requests[|requests| - 1].now < start + windowMs ==>
                  key in Run(buckets, requests)
                  && Run(buckets, requests)[key]
                     == Bucket(MadeIn(requests, key, start, start + windowMs), start + windowMs))
  {
  }

  /* The guard. */

  class RateLimiter {
    var buckets: Buckets

    constructor ()
      ensures buckets == map[]
    {
      buckets := map[];
    }

    method CanActivate(options: Options, source: Source, now: int) returns (outcome: Outcome)
      modifies this
      ensures (buckets, outcome)
        == Check(old(buckets), Key(options.keyPrefix, Address(source)), options.limit, options.windowMs, now)
    {
      var key := Key(options.keyPrefix, Address(source));
      if key !in buckets || now >= buckets[key].resetAt {
        buckets := buckets[key := Bucket(1, now + options.windowMs)];
        return Admitted;
      }
      buckets := buckets[key := buckets[key].(count := buckets[key].count + 1)];
      var existing := buckets[key];
      if existing.count > options.limit {
        return TooMany(RetryAfter(existing.resetAt, now));
      }
      return Admitted;
    }
  }
}
