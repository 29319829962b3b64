/** shared/pkg/middleware/ratelimit.go: a pruned sorted set with an expiring key stands in for the whole
    request history of a key. Redis is assumed reachable and to run one pipeline at a time. */
module RateLimit {
  import opened Prelude
  import GoTime

  /** The middleware's settings, with the lifetime Redis gives a key on `EXPIRE` (the window in whole seconds, at least
      one). */
  datatype Config = Config(requests: int, window: int, ttl: int)

  /** One request: when the middleware read the clock, and when Redis ran its pipeline. */
  datatype Req = Req(now: int, at: int)

  datatype Decision = Allowed(remaining: nat) | Limited(retryAfter: nat)

  /** What Redis stores for a key. The member of an entry is also its score. */
  datatype Key = Missing | Present(members: set<int>, deadline: int)

  function Live(k: Key, at: int): set<int> {
    if k.Missing? || k.deadline < at then {} else k.members
  }

  /** `ZREMRANGEBYSCORE key 0 windowStart` */
  function Prune(members: set<int>, windowStart: int): set<int> {
    set x | x in members && !(0 <= x <= windowStart)
  }

  /** The entries the pipeline counts. */
  function Counted(cfg: Config, k: Key, r: Req): set<int> {
    Prune(Live(k, r.at), r.now - cfg.window)
  }

  function Store(cfg: Config, k: Key, r: Req): Key {
    Present(Counted(cfg, k, r) + {r.now}, r.at + cfg.ttl)
  }

  /** The `Retry-After` header: the window in whole seconds, at least one. */
  function RetryAfter(cfg: Config): nat {
    if cfg.window / GoTime.SECOND < 1 then 1 else cfg.window / GoTime.SECOND
  }

  function Verdict(cfg: Config, count: nat): Decision {
    if count >= cfg.requests then Limited(RetryAfter(cfg)) else Allowed(cfg.requests - count - 1)
  }

  /** An admitted request is told how many more would be; a refused one the whole seconds of the window, at least 1. */
  lemma VerdictMeans(cfg: Config, count: nat)
    ensures match Verdict(cfg, count)
      case Allowed(remaining) => count + 1 + remaining == cfg.requests
      case Limited(s) =>
        && count >= cfg.requests
        && (s * 1_000_000_000 <= cfg.window < (s + 1) * 1_000_000_000 || (s == 1 && cfg.window < 1_000_000_000))
  {
  }

  /** The stored key after a history of requests for it. */
  function After(cfg: Config, h: seq<Req>): Key {
    if h == [] then Missing else Store(cfg, After(cfg, h[..|h| - 1]), h[|h| - 1])
  }

  lemma AfterSnoc(cfg: Config, h: seq<Req>, r: Req)
    ensures (h + [r])[..|h|] == h && After(cfg, h + [r]) == Store(cfg, After(cfg, h), r)
  {
  }

  predicate Admitted(cfg: Config, h: seq<Req>, i: nat)
    requires i < |h|
  {
    |Counted(cfg, After(cfg, h[..i]), h[i])| < cfg.requests
  }

  class RateLimiter {
    const cfg: Config
    var redis: map<string, Key>
    ghost var history: map<string, seq<Req>>

    ghost function HistoryOf(key: string): seq<Req>
      reads this
    {
      if key in history then history[key] else []
    }

    function Stored(key: string): Key
      reads this
    {
      if key in redis then redis[key] else Missing
    }

    ghost predicate Valid()
      reads this
    {
      forall key :: Stored(key) == After(cfg, HistoryOf(key))
    }

    constructor (cfg: Config)
      ensures Valid() && this.cfg == cfg && history == map[]
    {
      this.cfg := cfg;
      redis, history := map[], map[];
    }

    /** The pipeline: prune, count, add, renew the key's lifetime. */
    method RunPipeline(key: string, r: Req) returns (count: nat)
      modifies this`redis
      ensures redis == old(redis)[key := Store(cfg, old(Stored(key)), r)]
      ensures count == |Counted(cfg, old(Stored(key)), r)|
    {
      var live := key in redis && redis[key].Present? && redis[key].deadline >= r.at;
      var members := if live then redis[key].members else {};
      var windowStart := r.now - cfg.window;
      members := set x | x in members && !(0 <= x <= windowStart);
      count := |members|;
      members := members + {r.now};
      redis := redis[key := Present(members, r.at + cfg.ttl)];
    }

    method Handle(key: string, r: Req) returns (d: Decision)
      requires Valid()
      modifies this
      ensures Valid()
      ensures history == old(history)[key := old(HistoryOf(key)) + [r]]
      ensures d.Allowed? <==> Admitted(cfg, HistoryOf(key), |HistoryOf(key)| - 1)
      ensures d == Verdict(cfg, |Counted(cfg, After(cfg, old(HistoryOf(key))), r)|)
    {
      ghost var h := HistoryOf(key);
      var count := RunPipeline(key, r);
      history := history[key := h + [r]];
      assert forall other :: other != key ==>
        Stored(other) == old(Stored(other)) && HistoryOf(other) == old(HistoryOf(other));
      AfterSnoc(cfg, h, r);

      var remaining := cfg.requests - count - 1;
      if remaining < 0 { remaining := 0; }
      if count >= cfg.requests {
        var retryAfter := cfg.window / GoTime.SECOND;
        if retryAfter < 1 { retryAfter := 1; }
        return Limited(retryAfter);
      }
      return Allowed(remaining);
    }
  }

  // ---- what a key remembers of its history ----

  /** Clock readings are from after 1970; they need not be in the order of the pipelines. */
  ghost predicate Dated(h: seq<Req>) {
    forall i :: 0 <= i < |h| ==> 0 <= h[i].now
  }

  /** Redis has dropped the key between two successive pipelines. */
  predicate Expired(cfg: Config, prev: Req, r: Req) { r.at > prev.at + cfg.ttl }

  /** No request after the `j`-th, up to the `i`-th, has pruned its time. */
  ghost predicate Survives(cfg: Config, h: seq<Req>, j: int, i: int)
    requires 0 <= j <= i < |h|
  {
    forall k :: j < k <= i ==> h[k].now - cfg.window < h[j].now
  }

  /** Nor has the key been dropped in between. */
  ghost predicate Kept(cfg: Config, h: seq<Req>, j: int, i: int)
    requires 0 <= j <= i < |h|
  {
    Survives(cfg, h, j, i) && forall k :: j < k <= i ==> !Expired(cfg, h[k - 1], h[k])
  }

  ghost function KeptBefore(cfg: Config, h: seq<Req>, i: nat): set<int>
    requires i < |h|
  {
    set j | 0 <= j < i && Kept(cfg, h, j, i)
  }

  ghost function KeptTimes(cfg: Config, h: seq<Req>, i: nat): set<int>
    requires i < |h|
  {
    set j | 0 <= j < i && Kept(cfg, h, j, i) :: h[j].now
  }

  lemma KeptNext(cfg: Config, h: seq<Req>, j: nat)
    requires j < |h| - 1
    ensures var n := |h| - 1;
      Kept(cfg, h, j, n)
      <==> && Kept(cfg, h[..n], j, n - 1)
           && h[n].now - cfg.window < h[j].now && !Expired(cfg, h[n - 1], h[n])
  {
    var n := |h| - 1;
    forall k | 0 <= k < n ensures h[..n][k] == h[k] {
    }
  }

  /** The key holds only times of requests that it has kept. */
  lemma {:induction false} StoredIsKept(cfg: Config, h: seq<Req>, x: int)
    requires Dated(h) && After(cfg, h).Present? && x in After(cfg, h).members
    ensures exists j :: 0 <= j < |h| && h[j].now == x && Kept(cfg, h, j, |h| - 1)
    decreases |h|
  {
    var n := |h| - 1;
    if x == h[n].now {
      assert Kept(cfg, h, n, n);
    } else {
      var front := h[..n];
      StoredIsKept(cfg, front, x);
      var j :| 0 <= j < n && front[j].now == x && Kept(cfg, front, j, n - 1);
      assert After(cfg, front).deadline == h[n - 1].at + cfg.ttl;
      KeptNext(cfg, h, j);
    }
  }

  lemma {:induction false} KeptIsStored(cfg: Config, h: seq<Req>, j: nat)
    requires j < |h| && Kept(cfg, h, j, |h| - 1)
    ensures After(cfg, h).Present? && h[j].now in After(cfg, h).members
    decreases |h|
  {
    var n := |h| - 1;
    if j < n {
      KeptNext(cfg, h, j);
      KeptIsStored(cfg, h[..n], j);
      assert After(cfg, h[..n]).deadline == h[n - 1].at + cfg.ttl;
    }
  }

  lemma CountedTime(cfg: Config, h: seq<Req>, x: int)
    requires |h| > 1 && Dated(h)
    ensures var n := |h| - 1;
      x in Counted(cfg, After(cfg, h[..n]), h[n]) <==> exists j :: 0 <= j < n && h[j].now == x && Kept(cfg, h, j, n)
  {
    var n := |h| - 1;
    var front := h[..n];
    assert After(cfg, front).deadline == h[n - 1].at + cfg.ttl;
    if x in Counted(cfg, After(cfg, front), h[n]) {
      StoredIsKept(cfg, front, x);
      var j :| 0 <= j < n && front[j].now == x && Kept(cfg, front, j, n - 1);
      KeptNext(cfg, h, j);
      assert h[j].now == x;
    }
    if j :| 0 <= j < n && h[j].now == x && Kept(cfg, h, j, n) {
      KeptNext(cfg, h, j);
      KeptIsStored(cfg, front, j);
    }
  }

  lemma KeptInPrefix(cfg: Config, h: seq<Req>, j: nat, i: nat)
    requires j <= i < |h|
    ensures Kept(cfg, h[..i + 1], j, i) <==> Kept(cfg, h, j, i)
  {
    var p := h[..i + 1];
    forall k | 0 <= k <= i ensures p[k] == h[k] {
    }
  }

  /** For any history, in whatever order the clocks were read: a request counts exactly the times of the earlier ones
      that none since has pruned and no expiry has dropped. */
  lemma CountsTheHistory(cfg: Config, h: seq<Req>, i: nat)
    requires i < |h| && Dated(h)
    ensures Counted(cfg, After(cfg, h[..i]), h[i]) == KeptTimes(cfg, h, i)
  {
    if i > 0 {
      var p := h[..i + 1];
      assert p[..i] == h[..i] && p[i] == h[i];
      forall x ensures x in Counted(cfg, After(cfg, h[..i]), h[i]) <==> x in KeptTimes(cfg, h, i) {
        CountedTime(cfg, p, x);
        forall j | 0 <= j < i ensures p[j] == h[j] && (Kept(cfg, p, j, i) <==> Kept(cfg, h, j, i)) {
          KeptInPrefix(cfg, h, j, i);
        }
      }
    }
  }

  /** Of two requests the second counts the first if that lies within its window and the key has not run out. */
  lemma SecondCountsFirst(cfg: Config, first: Req, second: Req)
    requires 0 <= first.now
    ensures Counted(cfg, After(cfg, [first]), second)
         == if second.now - first.now < cfg.window && second.at - first.at <= cfg.ttl then {first.now} else {}
  {
    assert [first][..0] == [];
  }

  /** The key is dropped although a time in it would still have counted. */
  ghost predicate ForgetsEarly(cfg: Config, h: seq<Req>, i: nat)
    requires i < |h|
  {
    i > 0 && Expired(cfg, h[i - 1], h[i]) && exists j :: 0 <= j < i && Survives(cfg, h, j, i)
  }

  ghost predicate Remembers(cfg: Config, h: seq<Req>, upto: nat)
    requires upto <= |h|
  {
    forall i :: 0 <= i < upto ==> !ForgetsEarly(cfg, h, i)
  }

  ghost function SurvivingTimes(cfg: Config, h: seq<Req>, i: nat): set<int>
    requires i < |h|
  {
    set j | 0 <= j < i && Survives(cfg, h, j, i) :: h[j].now
  }

  lemma SurvivorKept(cfg: Config, h: seq<Req>, j: nat, i: nat)
    requires j <= i < |h| && Remembers(cfg, h, i + 1) && Survives(cfg, h, j, i)
    ensures Kept(cfg, h, j, i)
  {
    forall k | j < k <= i ensures !Expired(cfg, h[k - 1], h[k]) {
      assert Survives(cfg, h, j, k) && !ForgetsEarly(cfg, h, k);
    }
  }

  /** Key expiry changes nothing for a request exactly when the key was not dropped early before it. */
  lemma ExpiryHarmless(cfg: Config, h: seq<Req>, i: nat)
    requires i < |h| && Dated(h) && Remembers(cfg, h, i)
    ensures Counted(cfg, After(cfg, h[..i]), h[i]) == SurvivingTimes(cfg, h, i) <==> !ForgetsEarly(cfg, h, i)
  {
    CountsTheHistory(cfg, h, i);
    if ForgetsEarly(cfg, h, i) {
      var j :| 0 <= j < i && Survives(cfg, h, j, i);
      assert h[j].now in SurvivingTimes(cfg, h, i);
      assert KeptTimes(cfg, h, i) == {};
    } else {
      forall j | 0 <= j < i ensures Kept(cfg, h, j, i) <==> Survives(cfg, h, j, i) {
        if Survives(cfg, h, j, i) { SurvivorKept(cfg, h, j, i); }
      }
    }
  }

  // ---- clocks read in the order of the pipelines ----

  /** Clock readings do not go back, and no key is dropped early. */
  ghost predicate Orderly(cfg: Config, h: seq<Req>) {
    && cfg.window > 0 && Dated(h) && Remembers(cfg, h, |h|)
    && forall i, j :: 0 <= i <= j < |h| ==> h[i].now <= h[j].now
  }

  /** The requests before the `i`-th that fall in the window it closes. */
  function InWindow(cfg: Config, h: seq<Req>, i: nat): set<int>
    requires i < |h|
  {
    set j | 0 <= j < i && h[i].now - cfg.window < h[j].now
  }

  lemma OrderlyKeeps(cfg: Config, h: seq<Req>, j: nat, i: nat)
    requires Orderly(cfg, h) && j <= i < |h|
    ensures Kept(cfg, h, j, i) <==> j == i || h[i].now - cfg.window < h[j].now
  {
    if j == i || h[i].now - cfg.window < h[j].now {
      assert Survives(cfg, h, j, i);
      SurvivorKept(cfg, h, j, i);
    }
  }

  function TimesInWindow(cfg: Config, h: seq<Req>, i: nat): set<int>
    requires i < |h|
  {
    set j | 0 <= j < i && h[i].now - cfg.window < h[j].now :: h[j].now
  }

  lemma WindowTimes(cfg: Config, h: seq<Req>, i: nat)
    requires Orderly(cfg, h) && i < |h|
    ensures KeptBefore(cfg, h, i) == InWindow(cfg, h, i) && KeptTimes(cfg, h, i) == TimesInWindow(cfg, h, i)
  {
    forall j | 0 <= j < i ensures Kept(cfg, h, j, i) <==> h[i].now - cfg.window < h[j].now {
      OrderlyKeeps(cfg, h, j, i);
    }
  }

  ghost predicate DifferentTimes(h: seq<Req>) {
    forall i, j :: 0 <= i < j < |h| ==> h[i].now != h[j].now
  }

  function TimesOf(h: seq<Req>, s: set<int>): set<int>
    requires forall i :: i in s ==> 0 <= i < |h|
  {
    set i | i in s :: h[i].now
  }

  lemma {:induction false} TimesCount(h: seq<Req>, s: set<int>)
    requires DifferentTimes(h) && forall j :: j in s ==> 0 <= j < |h|
    ensures |TimesOf(h, s)| == |s|
    decreases s
  {
    if s != {} {
      var k := Pick(s);
      var rest := s - {k};
      TimesCount(h, rest);
      assert h[k].now !in TimesOf(h, rest);
      assert TimesOf(h, s) == TimesOf(h, rest) + {h[k].now};
    }
  }

  /** A request is admitted exactly when fewer than `requests` times of earlier ones, admitted or not, are kept; with
      no time shared that is fewer requests, and with clocks in order those within the window it closes. */
  lemma AdmissionLaw(cfg: Config, h: seq<Req>, i: nat)
    requires i < |h| && Dated(h)
    ensures Admitted(cfg, h, i) <==> |KeptTimes(cfg, h, i)| < cfg.requests
    ensures DifferentTimes(h) ==> (Admitted(cfg, h, i) <==> |KeptBefore(cfg, h, i)| < cfg.requests)
    ensures Orderly(cfg, h) ==> KeptBefore(cfg, h, i) == InWindow(cfg, h, i)
  {
    CountsTheHistory(cfg, h, i);
    assert KeptTimes(cfg, h, i) == TimesOf(h, KeptBefore(cfg, h, i));
    if DifferentTimes(h) { TimesCount(h, KeptBefore(cfg, h, i)); }
    if Orderly(cfg, h) { WindowTimes(cfg, h, i); }
  }

  // ---- the bound on a span ----

  /** The admitted requests of a span. */
  function AdmittedIn(cfg: Config, h: seq<Req>, from: int, upto: int): set<int> {
    set i | 0 <= i < |h| && from < h[i].now <= upto && Admitted(cfg, h, i)
  }

  function AdmittedAfter(cfg: Config, h: seq<Req>, x: int, len: int): set<int> {
    AdmittedIn(cfg, h, x, x + len)
  }

  /** Redis runs each pipeline at least `lo` and at most `lo + d` after the clock was read, so clocks may be read in
      another order; and a key lives as long as the window. */
  ghost predicate Delayed(cfg: Config, h: seq<Req>, lo: int, d: nat) {
    && Dated(h) && cfg.window <= cfg.ttl
    && (forall i :: 0 <= i < |h| ==> lo <= h[i].at - h[i].now <= lo + d)
    && forall i, j :: 0 <= i <= j < |h| ==> h[i].at <= h[j].at
  }

  /** Spans of length `len` are safe: the window with clocks in order, else what the spread of delays leaves of it. */
  ghost predicate Steady(cfg: Config, h: seq<Req>, len: int) {
    || (Orderly(cfg, h) && len == cfg.window)
    || exists lo: int, d: nat :: Delayed(cfg, h, lo, d) && len == cfg.window - d
  }

  lemma DelayedKeeps(cfg: Config, h: seq<Req>, lo: int, d: nat, j: nat, i: nat)
    requires Delayed(cfg, h, lo, d) && j < i < |h|
    requires h[j].now - h[i].now < cfg.window - d && h[i].now - h[j].now < cfg.window - d
    ensures Kept(cfg, h, j, i)
  {
    forall k | j < k <= i ensures h[k].now - cfg.window < h[j].now && !Expired(cfg, h[k - 1], h[k]) {
      assert h[j].at <= h[k - 1].at && h[k].at <= h[i].at;
    }
  }

  lemma SteadyKeeps(cfg: Config, h: seq<Req>, len: int, j: nat, i: nat)
    requires Steady(cfg, h, len) && j < i < |h|
    requires h[j].now - h[i].now < len && h[i].now - h[j].now < len
    ensures Kept(cfg, h, j, i)
  {
    if Orderly(cfg, h) && len == cfg.window {
      OrderlyKeeps(cfg, h, j, i);
    } else {
      var lo: int, d: nat :| Delayed(cfg, h, lo, d) && len == cfg.window - d;
      DelayedKeeps(cfg, h, lo, d, j, i);
    }
  }

  /** The last one admitted has counted the times of all the others, and its own if not the first of its instant. */
  lemma OtherTimesCounted(cfg: Config, h: seq<Req>, x: int, len: int, s: set<int>, m: int)
    requires Steady(cfg, h, len) && s == AdmittedAfter(cfg, h, x, len) && m in s && forall i :: i in s ==> i <= m
    ensures |KeptTimes(cfg, h, m)| < cfg.requests
    ensures forall i :: i in s && i < m ==> h[i].now in KeptTimes(cfg, h, m)
  {
    AdmissionLaw(cfg, h, m);
    forall i | i in s && i < m ensures h[i].now in KeptTimes(cfg, h, m) {
      SteadyKeeps(cfg, h, len, i, m);
    }
  }

  /** Whatever instants requests share, those admitted within a span have at most `requests` different times. */
  lemma DistinctTimesBound(cfg: Config, h: seq<Req>, x: int, len: int)
    requires Steady(cfg, h, len) && cfg.requests >= 0
    ensures |TimesOf(h, AdmittedAfter(cfg, h, x, len))| <= cfg.requests
  {
    var s := AdmittedAfter(cfg, h, x, len);
    if s != {} {
      var m := LargestOf(s);
      OtherTimesCounted(cfg, h, x, len, s, m);
      OneMoreTime(h, s, m, KeptTimes(cfg, h, m));
    }
  }

  lemma OneMoreTime(h: seq<Req>, s: set<int>, m: int, times: set<int>)
    requires (forall i :: i in s ==> 0 <= i < |h|) && m in s && forall i :: i in s ==> i == m || h[i].now in times
    ensures |TimesOf(h, s)| <= |times| + 1
  {
    SubsetSize(TimesOf(h, s), times + {h[m].now});
  }

  /** The requests of one instant. */
  function AtInstant(h: seq<Req>, t: int): set<int> {
    set i | 0 <= i < |h| && h[i].now == t
  }

  /** No instant is shared by more than `n` requests. */
  ghost predicate Sharing(h: seq<Req>, n: nat) {
    forall t :: |AtInstant(h, t)| <= n
  }

  /** Leaving out the requests of one instant leaves out one time. */
  lemma WithoutInstant(h: seq<Req>, s: set<int>, k: int)
    requires (forall i :: i in s ==> 0 <= i < |h|) && k in s
    ensures var rest := s - AtInstant(h, h[k].now); |TimesOf(h, s)| == |TimesOf(h, rest)| + 1
    ensures k !in s - AtInstant(h, h[k].now)
  {
    var rest := s - AtInstant(h, h[k].now);
    assert TimesOf(h, s) == TimesOf(h, rest) + {h[k].now};
    assert h[k].now !in TimesOf(h, rest);
  }

  lemma {:induction false} SharedCount(h: seq<Req>, s: set<int>, n: nat)
    requires Sharing(h, n) && forall i :: i in s ==> 0 <= i < |h|
    ensures |s| <= n * |TimesOf(h, s)|
    decreases s
  {
    if s == {} {
      assert TimesOf(h, s) == {};
    } else {
      var k := Pick(s);
      var one := AtInstant(h, h[k].now);
      var rest := s - one;
      WithoutInstant(h, s, k);
      SharedCount(h, rest, n);
      MulNext(n, |TimesOf(h, rest)|);
      SplitSize(s, one);
      assert |one| <= n;
    }
  }

  lemma SplitSize(a: set<int>, b: set<int>)
    ensures |a| <= |a - b| + |b|
  {
    SubsetSize(a, (a - b) + b);
  }

  lemma SharedCountWithin(h: seq<Req>, s: set<int>, n: nat, times: set<int>, r: nat)
    requires Sharing(h, n) && forall i :: i in s ==> 0 <= i < |h|
    requires TimesOf(h, s) <= times && |times| <= r
    ensures |s| <= n * r
  {
    SubsetSize(TimesOf(h, s), times);
    SharedCount(h, s, n);
    MulMonotone(n, |TimesOf(h, s)|, r);
  }

  lemma LastCounts(cfg: Config, h: seq<Req>, x: int, len: int, s: set<int>) returns (m: int)
    requires Steady(cfg, h, len) && s == AdmittedAfter(cfg, h, x, len) && s != {}
    ensures m in s && 0 <= m < |h| && |KeptTimes(cfg, h, m)| <= cfg.requests - 1
    ensures forall i :: i in s && i != m ==> 0 <= i < |h| && h[i].now in KeptTimes(cfg, h, m)
  {
    m := LargestOf(s);
    OtherTimesCounted(cfg, h, x, len, s, m);
  }

  lemma WithoutOne(h: seq<Req>, s: set<int>, m: int, times: set<int>)
    requires m in s && forall i :: i in s && i != m ==> 0 <= i < |h| && h[i].now in times
    ensures (forall i :: i in s - {m} ==> 0 <= i < |h|) && TimesOf(h, s - {m}) <= times && |s| == |s - {m}| + 1
  {
  }

  /** All admitted requests of a span but the last have times that the last one has counted. */
  lemma AllButLast(cfg: Config, h: seq<Req>, x: int, len: int) returns (others: set<int>, times: set<int>)
    requires Steady(cfg, h, len) && cfg.requests >= 1
    ensures forall i :: i in others ==> 0 <= i < |h|
    ensures TimesOf(h, others) <= times && |times| <= cfg.requests - 1
    ensures |AdmittedAfter(cfg, h, x, len)| <= |others| + 1
  {
    var s := AdmittedAfter(cfg, h, x, len);
    if s == {} {
      others, times := {}, {};
    } else {
      var m := LastCounts(cfg, h, x, len, s);
      WithoutOne(h, s, m, KeptTimes(cfg, h, m));
      others, times := s - {m}, KeptTimes(cfg, h, m);
    }
  }

  /** If at most `n` requests share an instant, a span holds at most n * (requests - 1) + 1 admitted ones: only the
      first of the instant that fills the window gets through. */
  lemma SharedInstantBound(cfg: Config, h: seq<Req>, x: int, len: int, n: nat)
    requires Steady(cfg, h, len) && cfg.requests >= 1 && n >= 1 && Sharing(h, n)
    ensures |AdmittedAfter(cfg, h, x, len)| <= n * (cfg.requests - 1) + 1
  {
    var others, times := AllButLast(cfg, h, x, len);
    SharedCountWithin(h, others, n, times, cfg.requests - 1);
  }

  /** No span, wherever it lies, holds more than `requests` admitted requests, if no two have one time. */
  lemma WindowBound(cfg: Config, h: seq<Req>, x: int, len: int)
    requires Steady(cfg, h, len) && DifferentTimes(h) && cfg.requests >= 0
    ensures |AdmittedAfter(cfg, h, x, len)| <= cfg.requests
  {
    DistinctTimesBound(cfg, h, x, len);
    TimesCount(h, AdmittedAfter(cfg, h, x, len));
  }

  /** Clocks in order, and delays that grow by no more than the key outlives the window: none, say. */
  ghost predicate Prompt(cfg: Config, h: seq<Req>) {
    && cfg.window > 0 && Dated(h)
    && (forall i, j :: 0 <= i <= j < |h| ==> h[i].now <= h[j].now)
    && forall i :: 0 < i < |h| ==> (h[i].at - h[i].now) - (h[i - 1].at - h[i - 1].now) <= cfg.ttl - cfg.window
  }

  /** Then whole windows are safe. */
  lemma PromptIsSteady(cfg: Config, h: seq<Req>)
    requires Prompt(cfg, h)
    ensures Orderly(cfg, h) && Steady(cfg, h, cfg.window)
  {
    forall i | 0 <= i < |h| ensures !ForgetsEarly(cfg, h, i) {
      if j :| i > 0 && 0 <= j < i && Survives(cfg, h, j, i) {
        assert h[j].now <= h[i - 1].now;
      }
    }
  }

  // ---- clocks read out of order ----

  /** One request a nanosecond, from 0 on. */
  function Row(k: nat): (h: seq<Req>)
    ensures |h| == k && forall i :: 0 <= i < k ==> h[i] == Req(i, i)
  {
    seq(k, i => Req(i, i))
  }

  function Interval(from: int, n: nat): (s: set<int>)
    ensures |s| == n && forall i :: i in s <==> from <= i < from + n
  {
    if n == 0 then {} else Interval(from, n - 1) + {from + n - 1}
  }

  lemma AllBelow(s: set<int>, from: int, n: nat)
    requires forall i :: i in s <==> from <= i < from + n
    ensures |s| == n
  {
    assert s == Interval(from, n);
  }

  lemma SizeWithin(s: set<int>, from: int, n: nat)
    requires forall i :: i in s ==> from <= i < from + n
    ensures |s| <= n
  {
    SubsetSize(s, Interval(from, n));
  }

  /** A request a window after a row prunes it, one whose clock was read `d` before that does not see the row. */
  function Overtaken(cfg: Config, d: nat): seq<Req>
    requires cfg.requests >= 0
  {
    var p := cfg.requests - 1 + cfg.window;
    Row(cfg.requests) + [Req(p, p), Req(p - d, p)]
  }

  lemma OvertakenAdmits(cfg: Config, d: nat, i: nat)
    requires cfg.requests >= 2 && 0 < d < cfg.window && i <= cfg.requests + 1
    ensures Admitted(cfg, Overtaken(cfg, d), i)
  {
    var h, r := Overtaken(cfg, d), cfg.requests;
    AdmissionLaw(cfg, h, i);
    var s := KeptTimes(cfg, h, i);
    if i < r {
      SizeWithin(s, 0, i);
    } else {
      forall j | 0 <= j < r ensures !Kept(cfg, h, j, i) {
        assert h[r].now - cfg.window >= h[j].now;
      }
      SizeWithin(s, h[r].now, 1);
    }
  }

  lemma OvertakenDelayed(cfg: Config, d: nat, h: seq<Req>)
    requires cfg.requests >= 2 && 0 < d < cfg.window <= cfg.ttl && h == Overtaken(cfg, d)
    ensures Delayed(cfg, h, 0, d)
  {
  }

  lemma OvertakenTimes(cfg: Config, d: nat, h: seq<Req>, s: set<int>, t: int)
    requires cfg.requests >= 2 && 0 < d < cfg.window && h == Overtaken(cfg, d)
    requires s == AdmittedAfter(cfg, h, -1, cfg.window - d + cfg.requests)
    requires 0 <= t < cfg.requests || t == cfg.requests - 1 + cfg.window - d
    ensures t in TimesOf(h, s)
  {
    var i := if t < cfg.requests then t else cfg.requests + 1;
    OvertakenAdmits(cfg, d, i);
    assert i in s && h[i].now == t;
  }

  /** A spread of delays takes its length from the safe span: with `requests` nanoseconds more, a span can hold one
      time too many. */
  lemma DelayWorst(cfg: Config, d: nat, h: seq<Req>)
    requires cfg.requests >= 2 && 0 < d < cfg.window <= cfg.ttl && h == Overtaken(cfg, d)
    ensures Delayed(cfg, h, 0, d)
    ensures |TimesOf(h, AdmittedAfter(cfg, h, -1, cfg.window - d + cfg.requests))| > cfg.requests
  {
    OvertakenDelayed(cfg, d, h);
    var s, q := AdmittedAfter(cfg, h, -1, cfg.window - d + cfg.requests), cfg.requests - 1 + cfg.window - d;
    var times := TimesOf(h, s);
    forall t | 0 <= t < cfg.requests || t == q ensures t in times {
      OvertakenTimes(cfg, d, h, s, t);
    }
    MoreThan(times, cfg.requests, q);
  }

  lemma MoreThan(times: set<int>, r: nat, q: int)
    requires r <= q && q in times && forall t :: 0 <= t < r ==> t in times
    ensures |times| > r
  {
    assert Interval(0, r) <= times - {q};
    SubsetSize(Interval(0, r), times - {q});
  }

  // ---- waiting as told ----

  /** The last request comes the announced seconds after every other one for its key. */
  ghost predicate Waited(cfg: Config, h: seq<Req>) {
    && h != [] && Dated(h)
    && forall j :: 0 <= j < |h| - 1 ==> h[|h| - 1].now >= h[j].now + RetryAfter(cfg) * GoTime.SECOND
  }

  lemma WaitedCount(cfg: Config, h: seq<Req>)
    requires Waited(cfg, h) && cfg.window < cfg.requests + RetryAfter(cfg) * GoTime.SECOND && cfg.requests >= 1
    ensures Admitted(cfg, h, |h| - 1)
  {
    var i := |h| - 1;
    var s, left := KeptTimes(cfg, h, i), cfg.window - RetryAfter(cfg) * GoTime.SECOND;
    AdmissionLaw(cfg, h, i);
    SizeWithin(s, h[i].now - cfg.window + 1, if left < 0 then 0 else left);
  }

  /** A row of requests and one that waits as told. */
  function Waiting(cfg: Config): seq<Req>
    requires cfg.requests >= 1
  {
    var t := cfg.requests - 1 + RetryAfter(cfg) * GoTime.SECOND;
    Row(cfg.requests) + [Req(t, t)]
  }

  lemma WaitingKept(cfg: Config, h: seq<Req>, j: nat)
    requires cfg.requests >= 1 && cfg.requests + RetryAfter(cfg) * GoTime.SECOND <= cfg.window
    requires RetryAfter(cfg) * GoTime.SECOND <= cfg.ttl
    requires h == Waiting(cfg) && j < cfg.requests
    ensures h[j].now == j && Kept(cfg, h, j, cfg.requests)
  {
  }

  lemma WaitingRefused(cfg: Config, h: seq<Req>)
    requires cfg.requests >= 1 && cfg.requests + RetryAfter(cfg) * GoTime.SECOND <= cfg.window
    requires RetryAfter(cfg) * GoTime.SECOND <= cfg.ttl
    requires h == Waiting(cfg)
    ensures Waited(cfg, h) && !Admitted(cfg, h, cfg.requests)
  {
    AdmissionLaw(cfg, h, cfg.requests);
    forall j | j in Interval(0, cfg.requests) ensures j in KeptTimes(cfg, h, cfg.requests) {
      WaitingKept(cfg, h, j);
    }
    SubsetSize(Interval(0, cfg.requests), KeptTimes(cfg, h, cfg.requests));
  }

  /** Waiting the seconds of `Retry-After` with no other request leads to admission, whatever came before, exactly if
      they fall short of the window by less than `requests` nanoseconds, as for whole seconds and below one second. */
  lemma RetryAfterSuffices(cfg: Config)
    requires cfg.requests >= 1 && RetryAfter(cfg) * GoTime.SECOND <= cfg.ttl
    ensures (forall h :: Waited(cfg, h) ==> Admitted(cfg, h, |h| - 1))
       <==> cfg.window < cfg.requests + RetryAfter(cfg) * GoTime.SECOND
    ensures cfg.window % GoTime.SECOND == 0 || cfg.window < GoTime.SECOND ==>
              cfg.window < cfg.requests + RetryAfter(cfg) * GoTime.SECOND
  {
    if cfg.window < cfg.requests + RetryAfter(cfg) * GoTime.SECOND {
      forall h | Waited(cfg, h) ensures Admitted(cfg, h, |h| - 1) {
        WaitedCount(cfg, h);
      }
    } else {
      WaitingRefused(cfg, Waiting(cfg));
      assert |Waiting(cfg)| - 1 == cfg.requests;
    }
  }

  // ---- requests within one nanosecond ----

  /** The different times of requests in the window that ends just before an instant. */
  function TimesBefore(cfg: Config, h: seq<Req>, t: int): set<int> {
    set j | 0 <= j < |h| && t - cfg.window < h[j].now < t :: h[j].now
  }

  /** How many of the requests of an instant get through: as a rule all, or none; only the first if the times before
      leave room for one. */
  function Share(cfg: Config, h: seq<Req>, t: int): nat {
    var room := cfg.requests - |TimesBefore(cfg, h, t)|;
    if room <= 0 || AtInstant(h, t) == {} then 0 else if room == 1 then 1 else |AtInstant(h, t)|
  }

  predicate FirstOfInstant(h: seq<Req>, i: nat)
    requires i < |h|
  {
    forall j :: 0 <= j < i ==> h[j].now != h[i].now
  }

  /** The requests of an instant share one member: all count the times before it, and all but the first count it too. */
  lemma InstantCounts(cfg: Config, h: seq<Req>, i: nat)
    requires Orderly(cfg, h) && i < |h|
    ensures var k := |TimesBefore(cfg, h, h[i].now)|;
      Admitted(cfg, h, i) <==> (if FirstOfInstant(h, i) then k else k + 1) < cfg.requests
  {
    AdmissionLaw(cfg, h, i);
    WindowTimes(cfg, h, i);
    var t := h[i].now;
    if FirstOfInstant(h, i) {
      assert TimesInWindow(cfg, h, i) == TimesBefore(cfg, h, t);
    } else {
      assert TimesInWindow(cfg, h, i) == TimesBefore(cfg, h, t) + {t};
    }
  }

  lemma {:induction false} InstantHasFirst(h: seq<Req>, i: nat) returns (f: nat)
    requires i < |h|
    ensures f <= i && h[f].now == h[i].now && FirstOfInstant(h, f)
    decreases i
  {
    if FirstOfInstant(h, i) {
      f := i;
    } else {
      var j :| 0 <= j < i && h[j].now == h[i].now;
      f := InstantHasFirst(h, j);
    }
  }

  lemma AdmittedAt(cfg: Config, h: seq<Req>, t: int)
    requires Orderly(cfg, h)
    ensures |AdmittedIn(cfg, h, t - 1, t)| == Share(cfg, h, t)
  {
    var all, s, room := AtInstant(h, t), AdmittedIn(cfg, h, t - 1, t), cfg.requests - |TimesBefore(cfg, h, t)|;
    forall i | i in all ensures i in s <==> (if FirstOfInstant(h, i) then room > 0 else room > 1) {
      InstantCounts(cfg, h, i);
    }
    assert s <= all;
    if room <= 0 || all == {} {
      assert s == {};
    } else if room > 1 {
      assert s == all;
    } else {
      var k := Pick(all);
      var f := InstantHasFirst(h, k);
      assert s == {f};
    }
  }

  function ShareSum(cfg: Config, h: seq<Req>, from: int, upto: int): nat
    decreases upto - from
  {
    if upto <= from then 0 else ShareSum(cfg, h, from, upto - 1) + Share(cfg, h, upto)
  }

  /** With clocks in order: how many of a span's requests are admitted, from how many share each instant and how many
      different times come before it. So the bound fails in a window exactly when these shares sum to more. */
  lemma {:induction false} AdmittedCount(cfg: Config, h: seq<Req>, from: int, upto: int)
    requires Orderly(cfg, h)
    ensures |AdmittedIn(cfg, h, from, upto)| == ShareSum(cfg, h, from, upto)
    decreases upto - from
  {
    if upto <= from {
      assert AdmittedIn(cfg, h, from, upto) == {};
    } else {
      AdmittedCount(cfg, h, from, upto - 1);
      AdmittedAt(cfg, h, upto);
      assert AdmittedIn(cfg, h, from, upto) == AdmittedIn(cfg, h, from, upto - 1) + AdmittedIn(cfg, h, upto - 1, upto);
    }
  }

  // ---- the worst case ----

  /** `n` requests at each of `k` successive nanoseconds from 0 on. */
  function Crowd(n: nat, k: nat): (h: seq<Req>)
    ensures forall i :: 0 <= i < |h| ==> 0 <= h[i].now == h[i].at < k
  {
    if k == 0 then [] else Crowd(n, k - 1) + seq(n, _ => Req(k - 1, k - 1))
  }

  lemma {:induction false} CrowdInOrder(n: nat, k: nat, i: nat, j: nat)
    requires i <= j < |Crowd(n, k)|
    ensures Crowd(n, k)[i].now <= Crowd(n, k)[j].now
  {
    if j < |Crowd(n, k - 1)| {
      CrowdInOrder(n, k - 1, i, j);
    } else {
      assert Crowd(n, k)[j] == Req(k - 1, k - 1);
    }
  }

  lemma {:induction false} CrowdInstant(n: nat, k: nat, t: int)
    ensures |AtInstant(Crowd(n, k), t)| == if 0 <= t < k then n else 0
  {
    var s := AtInstant(Crowd(n, k), t);
    if k == 0 || t >= k {
      assert s == {};
    } else {
      var front := Crowd(n, k - 1);
      CrowdInstant(n, k - 1, t);
      if t == k - 1 {
        AllBelow(s, |front|, n);
      } else {
        assert s == AtInstant(front, t);
      }
    }
  }

  lemma CrowdOrderly(cfg: Config, n: nat, k: nat)
    requires 0 < cfg.window <= cfg.ttl
    ensures Orderly(cfg, Crowd(n, k)) && Sharing(Crowd(n, k), n)
  {
    forall i, j | 0 <= i <= j < |Crowd(n, k)| ensures Crowd(n, k)[i].now <= Crowd(n, k)[j].now {
      CrowdInOrder(n, k, i, j);
    }
    PromptIsSteady(cfg, Crowd(n, k));
    forall t ensures |AtInstant(Crowd(n, k), t)| <= n {
      CrowdInstant(n, k, t);
    }
  }

  lemma CrowdTimesBefore(cfg: Config, n: nat, k: nat, t: nat, h: seq<Req>)
    requires n > 0 && t < k <= cfg.window && h == Crowd(n, k)
    ensures |TimesBefore(cfg, h, t)| == t
  {
    var s := TimesBefore(cfg, h, t);
    forall u ensures u in s <==> 0 <= u < t {
      CrowdInstant(n, k, u);
      if 0 <= u < t {
        var i := Pick(AtInstant(h, u));
        assert h[i].now == u;
      }
    }
    AllBelow(s, 0, t);
  }

  /** In a crowd as wide as the limit every instant but the last gets through whole, and of that one request. */
  lemma {:induction false} CrowdShares(cfg: Config, n: nat, h: seq<Req>, d: nat)
    requires n > 0 && 0 < cfg.requests <= cfg.window && d <= cfg.requests && h == Crowd(n, cfg.requests)
    ensures ShareSum(cfg, h, -1, d - 1) == if d < cfg.requests then n * d else n * (d - 1) + 1
    decreases d
  {
    if d > 0 {
      CrowdShares(cfg, n, h, d - 1);
      CrowdTimesBefore(cfg, n, cfg.requests, d - 1, h);
      CrowdInstant(n, cfg.requests, d - 1);
      MulNext(n, d - 1);
    }
  }

  lemma SharesWithin(cfg: Config, h: seq<Req>, x: int, upto: int)
    requires Orderly(cfg, h) && upto <= x + cfg.window
    ensures |AdmittedAfter(cfg, h, x, cfg.window)| >= ShareSum(cfg, h, x, upto)
  {
    AdmittedCount(cfg, h, x, upto);
    SubsetSize(AdmittedIn(cfg, h, x, upto), AdmittedAfter(cfg, h, x, cfg.window));
  }

  lemma SharesReachBound(cfg: Config, h: seq<Req>, n: nat, most: int)
    requires Orderly(cfg, h) && Sharing(h, n) && n >= 1 && 1 <= cfg.requests <= cfg.window
    requires most == n * (cfg.requests - 1) + 1 && most <= ShareSum(cfg, h, -1, cfg.requests - 1)
    ensures |AdmittedAfter(cfg, h, -1, cfg.window)| == most
  {
    SharesWithin(cfg, h, -1, cfg.requests - 1);
    SharedInstantBound(cfg, h, -1, cfg.window, n);
  }

  /** The bound for shared instants is reached. */
  lemma SharedInstantWorst(cfg: Config, n: nat)
    requires n >= 1 && 1 <= cfg.requests <= cfg.window <= cfg.ttl
    ensures exists h, x ::
      Orderly(cfg, h) && Sharing(h, n) && |AdmittedAfter(cfg, h, x, cfg.window)| == n * (cfg.requests - 1) + 1
  {
    var h := Crowd(n, cfg.requests);
    CrowdOrderly(cfg, n, cfg.requests);
    CrowdShares(cfg, n, h, cfg.requests);
    SharesReachBound(cfg, h, n, n * (cfg.requests - 1) + 1);
  }

  /** So `requests` bounds every history with up to `n` requests an instant exactly if `n` or `requests` is one. */
  lemma SharingAllowed(cfg: Config, n: nat)
    requires n >= 1 && 1 <= cfg.requests <= cfg.window <= cfg.ttl
    ensures n == 1 || cfg.requests == 1
      <==> forall h, x, len :: Steady(cfg, h, len) && Sharing(h, n) ==> |AdmittedAfter(cfg, h, x, len)| <= cfg.requests
  {
    BoundsCompared(n, cfg.requests);
    if n == 1 || cfg.requests == 1 {
      forall h, x, len | Steady(cfg, h, len) && Sharing(h, n) ensures |AdmittedAfter(cfg, h, x, len)| <= cfg.requests {
        SharedInstantBound(cfg, h, x, len, n);
      }
    } else {
      SharedInstantWorst(cfg, n);
      var h, x :| Orderly(cfg, h) && Sharing(h, n)
                  && |AdmittedAfter(cfg, h, x, cfg.window)| == n * (cfg.requests - 1) + 1;
      assert Steady(cfg, h, cfg.window);
    }
  }

  lemma BoundsCompared(n: nat, r: nat)
    requires n >= 1 && r >= 1
    ensures n * (r - 1) + 1 <= r <==> n == 1 || r == 1
  {
    if n > 1 && r > 1 {
      assert n * (r - 1) == (r - 1) * n;
      MulMonotone(r - 1, 2, n);
    } else if r == 1 {
      assert n * (r - 1) == 0;
    }
  }
}
