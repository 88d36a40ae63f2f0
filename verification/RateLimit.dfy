/** The per-client token bucket in front of /mcp.

    Quantities are exact: one request costs TOKEN = nanoseconds per minute, and a bucket gains
    `rate` (requests per minute) units for every elapsed nanosecond, so the source's
    `elapsed * rate` with `rate = requestsPerMinute / time.Minute` is an integer product here. */
module RateLimit {
  import opened Prelude

  const TOKEN: int := 60_000_000_000

  /** The units that n admitted requests cost. */
  function Cost(n: int): int { n * 60_000_000_000 }

  datatype Options = Options(requestsPerMinute: int, burst: int) {
    predicate Enabled() { requestsPerMinute > 0 }

    predicate Accepted() {
      && requestsPerMinute >= 0
      && burst >= 0
      && !(requestsPerMinute > 0 && burst == 0)
    }
  }

  datatype Limits = Limits(rate: int, burst: int) {
    ghost predicate Valid() { rate > 0 && burst > 0 }

    function Capacity(): int { Cost(burst) }
  }

  datatype BucketState = BucketState(tokens: int, updated: int) {
    ghost predicate Within(l: Limits) { 0 <= tokens <= l.Capacity() }
  }

  function Max(x: int, y: int): int { if x < y then y else x }

  function Min(x: int, y: int): int { if x < y then x else y }

  // ----- One bucket -----

  /** What a bucket gains between two clock readings: elapsed nanoseconds × rate. */
  function Earned(l: Limits, from: int, to: int): int {
    to * l.rate - from * l.rate
  }

  lemma EarnedIsElapsedTimesRate(l: Limits, from: int, to: int)
    ensures Earned(l, from, to) == (to - from) * l.rate
  {
  }

  lemma EarnedGrows(l: Limits, from: int, to: int)
    requires l.Valid() && from <= to
    ensures Earned(l, from, to) >= 0
  {
    EarnedIsElapsedTimesRate(l, from, to);
    NonNegativeFactors(to - from, l.rate);
  }

  lemma NonNegativeFactors(x: int, y: int)
    requires x >= 0 && y >= 0
    ensures x * y >= 0
  {
  }

  function Refill(l: Limits, b: BucketState, now: int): BucketState {
    if now > b.updated then
      BucketState(Min(b.tokens + Earned(l, b.updated, now), l.Capacity()), now)
    else
      b
  }

  function Take(b: BucketState, admit: bool): BucketState {
    if admit then b.(tokens := b.tokens - TOKEN) else b
  }

  /** The bucket after one call, and whether that call is let through. */
  function Decide(l: Limits, b: BucketState, now: int): (BucketState, bool) {
    var r := Refill(l, b, now);
    if r.tokens < TOKEN then (r, false) else (Take(r, true), true)
  }

  /** A client without a bucket is served from a full one. */
  function DecideFirst(l: Limits, b: Option<BucketState>, now: int): (BucketState, bool) {
    match b
    case None => (BucketState(l.Capacity() - TOKEN, now), true)
    case Some(s) => Decide(l, s, now)
  }

  lemma FirstCallMeetsAFullBucket(l: Limits, now: int)
    requires l.Valid()
    ensures DecideFirst(l, None, now) == Decide(l, BucketState(l.Capacity(), now), now)
  {
    assert l.Capacity() >= TOKEN;
  }

  // ----- The limiter -----

  class Bucket {
    var tokens: int
    var updated: int

    constructor (tokens: int, updated: int)
      ensures this.tokens == tokens && this.updated == updated
    {
      this.tokens, this.updated := tokens, updated;
    }

    function State(): BucketState
      reads this
    {
      BucketState(tokens, updated)
    }
  }

  class RateLimiter {
    const limits: Limits
    var clients: map<string, Bucket>

    /** No two clients share a bucket. */
    ghost predicate Valid()
      reads this, clients.Values
    {
      && limits.Valid()
      && (forall c, d :: c in clients && d in clients && c != d ==> clients[c] != clients[d])
    }

    ghost function States(): map<string, BucketState>
      reads this, clients.Values
    {
      map c | c in clients :: clients[c].State()
    }

    constructor (options: Options)
      requires options.Accepted() && options.Enabled()
      ensures Valid() && States() == map[]
      ensures limits == Limits(options.requestsPerMinute, options.burst)
    {
      limits := Limits(options.requestsPerMinute, options.burst);
      clients := map[];
    }

    method Allow(client: string, now: int) returns (allowed: bool)
      requires Valid()
      modifies this`clients, clients.Values
      ensures Valid() && fresh(clients.Values - old(clients.Values))
      ensures
        var b := if client in old(States()) then Some(old(States())[client]) else None;
        var (after, ok) := DecideFirst(limits, b, now);
        allowed == ok && States() == old(States())[client := after]
    {
      if client !in clients {
        var bucket := new Bucket(limits.Capacity() - TOKEN, now);
        clients := clients[client := bucket];
        return true;
      }
      var bucket := clients[client];
      ghost var stored := bucket.State();
      assert bucket in clients.Values;
      EarnedIsElapsedTimesRate(limits, bucket.updated, now);
      hide Earned, Limits.Capacity;
      var elapsed := now - bucket.updated;
      if elapsed > 0 {
        bucket.tokens := bucket.tokens + elapsed * limits.rate;
        if bucket.tokens > limits.Capacity() {
          bucket.tokens := limits.Capacity();
        }
        bucket.updated := now;
      }
      assert bucket.State() == Refill(limits, stored, now);
      hide Refill;
      if bucket.tokens < TOKEN {
        return false;
      }
      bucket.tokens := bucket.tokens - TOKEN;
      return true;
    }
  }

  // ----- Schedules: any way of admitting and denying the calls of one client -----

  function Count(s: seq<bool>): nat {
    if s == [] then 0 else Count(s[..|s| - 1]) + (if s[|s| - 1] then 1 else 0)
  }

  lemma CountStep(s: seq<bool>, i: nat, k: nat)
    requires i < k <= |s|
    ensures Count(s[i..k]) == Count(s[i..k - 1]) + (if s[k - 1] then 1 else 0)
  {
    assert s[i..k][..k - i - 1] == s[i..k - 1];
  }

  lemma {:induction false} CountAppend(s: seq<bool>, t: seq<bool>)
    ensures Count(s + t) == Count(s) + Count(t)
  {
    if t == [] {
      assert s + t == s;
    } else {
      var u := s + t;
      assert u[..|u| - 1] == s + t[..|t| - 1];
      CountAppend(s, t[..|t| - 1]);
    }
  }

  /** The bucket once the first k calls have been refilled for and admitted as `s` says. */
  function After(l: Limits, b: BucketState, times: seq<int>, s: seq<bool>, k: nat): BucketState
    requires k <= |times| && k <= |s|
  {
    if k == 0 then b
    else
      Take(Refill(l, After(l, b, times, s, k - 1), times[k - 1]), s[k - 1])
  }

  function Available(l: Limits, b: BucketState, times: seq<int>, s: seq<bool>, k: nat): BucketState
    requires k < |times| && k <= |s|
  {
    Refill(l, After(l, b, times, s, k), times[k])
  }

  /** A schedule fits the bucket when every admitted call finds a whole token. */
  ghost predicate Fits(l: Limits, b: BucketState, times: seq<int>, s: seq<bool>) {
    && |s| == |times|
    && forall k :: 0 <= k < |times| && s[k] ==> Available(l, b, times, s, k).tokens >= TOKEN
  }

  /** What the limiter decides for a client that owns bucket `b` and calls at `times`. */
  function Decisions(l: Limits, b: BucketState, times: seq<int>): (s: seq<bool>)
    ensures |s| == |times|
  {
    Serve(l, b, times).1
  }

  function Serve(l: Limits, b: BucketState, times: seq<int>): (r: (BucketState, seq<bool>))
    ensures |r.1| == |times|
  {
    if times == [] then (b, [])
    else
      var before := Serve(l, b, times[..|times| - 1]);
      var step := Decide(l, before.0, times[|times| - 1]);
      (step.0, before.1 + [step.1])
  }

  lemma {:induction false} AfterPrefix(l: Limits, b: BucketState, times: seq<int>, s: seq<bool>, n: nat, k: nat)
    requires k <= n <= |times| && n <= |s|
    ensures After(l, b, times[..n], s[..n], k) == After(l, b, times, s, k)
  {
    if k > 0 {
      AfterPrefix(l, b, times, s, n, k - 1);
    }
  }

  ghost predicate AdmitsWheneverItCan(l: Limits, b: BucketState, times: seq<int>, s: seq<bool>) {
    && |s| == |times|
    && forall k :: 0 <= k < |times| ==> (s[k] <==> Available(l, b, times, s, k).tokens >= TOKEN)
  }

  /** The limiter's run is a schedule: it reaches the schedule's states, and admits exactly when
      a token is available. */
  lemma {:induction false} ServeIsGreedy(l: Limits, b: BucketState, times: seq<int>)
    ensures Serve(l, b, times).0 == After(l, b, times, Decisions(l, b, times), |times|)
    ensures AdmitsWheneverItCan(l, b, times, Decisions(l, b, times))
  {
    if times != [] {
      var n := |times| - 1;
      var s := Decisions(l, b, times);
      ServeIsGreedy(l, b, times[..n]);
      assert s[..n] == Decisions(l, b, times[..n]);
      AfterPrefix(l, b, times, s, n, n);
      assert Available(l, b, times, s, n) == Refill(l, Serve(l, b, times[..n]).0, times[n]);
      forall k | 0 <= k < n
        ensures s[k] <==> Available(l, b, times, s, k).tokens >= TOKEN
      {
        AfterPrefix(l, b, times, s, n, k);
        assert s[..n][k] <==> Available(l, b, times[..n], s[..n], k).tokens >= TOKEN;
      }
    }
  }

  lemma {:induction false} DecisionsPrefix(l: Limits, b: BucketState, times: seq<int>, k: nat)
    requires k <= |times|
    ensures Decisions(l, b, times[..k]) == Decisions(l, b, times)[..k]
  {
    if k < |times| {
      var n := |times| - 1;
      DecisionsPrefix(l, b, times[..n], k);
      assert times[..n][..k] == times[..k];
    } else {
      assert times[..k] == times;
    }
  }

  lemma {:induction false} TokensStayInTheBucket(l: Limits, b: BucketState, times: seq<int>, s: seq<bool>, k: nat)
    requires l.Valid() && b.Within(l) && Fits(l, b, times, s) && k <= |times|
    ensures After(l, b, times, s, k).Within(l)
    ensures k < |times| ==> Available(l, b, times, s, k).Within(l)
    ensures After(l, b, times, s, k).updated >= b.updated
  {
    if k > 0 {
      TokensStayInTheBucket(l, b, times, s, k - 1);
      assert s[k - 1] ==> Available(l, b, times, s, k - 1).tokens >= TOKEN;
    }
    if k < |times| {
      RefillWithin(l, After(l, b, times, s, k), times[k]);
    }
  }

  lemma RefillWithin(l: Limits, b: BucketState, now: int)
    requires l.Valid() && b.Within(l)
    ensures Refill(l, b, now).Within(l)
    ensures b.tokens <= Refill(l, b, now).tokens
    ensures Refill(l, b, now).tokens <= b.tokens + Earned(l, b.updated, Refill(l, b, now).updated)
  {
    if now > b.updated {
      EarnedGrows(l, b.updated, now);
    }
  }

  // ----- Optimality -----

  /** At every prefix the limiter has admitted at least as many calls as any schedule that fits
      the same bucket, however the clock moves. */
  lemma {:induction false} LimiterIsOptimal(l: Limits, b: BucketState, times: seq<int>, s: seq<bool>, k: nat)
    requires l.Valid() && b.Within(l) && Fits(l, b, times, s) && k <= |times|
    ensures Count(s[..k]) <= Count(Decisions(l, b, times)[..k])
  {
    ServeIsGreedy(l, b, times);
    LeadCoversTokens(l, b, times, s, Decisions(l, b, times), k);
    assert s[0..k] == s[..k] && Decisions(l, b, times)[0..k] == Decisions(l, b, times)[..k];
  }

  /** The greedy bucket's lead in admitted calls pays for whatever tokens the rival has saved. */
  ghost predicate Leads(x: BucketState, y: BucketState, rival: nat, greedy: nat) {
    rival <= greedy && x.updated == y.updated && x.tokens <= y.tokens + Cost(greedy - rival)
  }

  /** Exchange argument: whatever tokens the rival has saved, the greedy schedule has spent. */
  lemma {:induction false} LeadCoversTokens(l: Limits, b: BucketState, times: seq<int>, s: seq<bool>, g: seq<bool>, k: nat)
    requires l.Valid() && Fits(l, b, times, s) && AdmitsWheneverItCan(l, b, times, g)
    requires |s| == |g| == |times| && k <= |times|
    ensures Leads(After(l, b, times, s, k), After(l, b, times, g, k), Count(s[0..k]), Count(g[0..k]))
  {
    hide *;
    NoLeadYet(l, b, times, s, g);
    if k > 0 {
      LeadCoversTokens(l, b, times, s, g, k - 1);
      LastCall(l, b, times, s, k);
      LastCall(l, b, times, g, k);
      CountStep(s, 0, k);
      CountStep(g, 0, k);
      RivalStep(l, After(l, b, times, s, k - 1), After(l, b, times, g, k - 1), times[k - 1],
                Count(s[0..k - 1]), Count(g[0..k - 1]), s[k - 1], g[k - 1]);
    }
  }

  lemma NoLeadYet(l: Limits, b: BucketState, times: seq<int>, s: seq<bool>, g: seq<bool>)
    ensures Leads(After(l, b, times, s, 0), After(l, b, times, g, 0), Count(s[0..0]), Count(g[0..0]))
  {
  }

  lemma LastCall(l: Limits, b: BucketState, times: seq<int>, s: seq<bool>, k: nat)
    requires 0 < k <= |times| && |s| == |times|
    ensures After(l, b, times, s, k) == Take(Refill(l, After(l, b, times, s, k - 1), times[k - 1]), s[k - 1])
    ensures Fits(l, b, times, s) && s[k - 1] ==> Refill(l, After(l, b, times, s, k - 1), times[k - 1]).tokens >= TOKEN
    ensures AdmitsWheneverItCan(l, b, times, s) ==>
              (s[k - 1] <==> Refill(l, After(l, b, times, s, k - 1), times[k - 1]).tokens >= TOKEN)
  {
    hide Refill;
    assert Available(l, b, times, s, k - 1) == Refill(l, After(l, b, times, s, k - 1), times[k - 1]);
  }

  /** One call of the exchange: the rival can admit a call the greedy bucket denies only out of
      the greedy bucket's lead. */
  lemma RivalStep(l: Limits, x: BucketState, y: BucketState, now: int, s: nat, g: nat, rival: bool, greedy: bool)
    requires Leads(x, y, s, g)
    requires rival ==> Refill(l, x, now).tokens >= TOKEN
    requires greedy <==> Refill(l, y, now).tokens >= TOKEN
    ensures Leads(Take(Refill(l, x, now), rival), Take(Refill(l, y, now), greedy),
                  s + (if rival then 1 else 0), g + (if greedy then 1 else 0))
  {
  }

  // ----- Window bound -----

  /** Tokens spent between calls i and j are paid for by the tokens at i and the refill since. */
  lemma {:induction false} SpendingIsPaidFor(l: Limits, b: BucketState, times: seq<int>, s: seq<bool>, i: nat, j: nat)
    requires l.Valid() && b.Within(l) && Fits(l, b, times, s) && i <= j <= |times|
    ensures After(l, b, times, s, j).updated >= After(l, b, times, s, i).updated
    ensures After(l, b, times, s, j).tokens + Cost(Count(s[i..j]))
            <= After(l, b, times, s, i).tokens + Earned(l, After(l, b, times, s, i).updated, After(l, b, times, s, j).updated)
  {
    if i < j {
      SpendingIsPaidFor(l, b, times, s, i, j - 1);
      CountStep(s, i, j);
      TokensStayInTheBucket(l, b, times, s, j - 1);
      RefillWithin(l, After(l, b, times, s, j - 1), times[j - 1]);
    } else {
      assert s[i..j] == [];
    }
  }

  /** Over any window of a client's calls, requests admitted ≤ burst + rate × growth of `updated`,
      even when the clock steps back. */
  lemma WindowBound(l: Limits, b: BucketState, times: seq<int>, i: nat, j: nat)
    requires l.Valid() && b.Within(l) && i <= j <= |times|
    ensures
      var s := Decisions(l, b, times);
      Cost(Count(s[i..j])) <= l.Capacity()
        + Earned(l, After(l, b, times, s, i).updated, After(l, b, times, s, j).updated)
  {
    var s := Decisions(l, b, times);
    ServeIsGreedy(l, b, times);
    SpendingIsPaidFor(l, b, times, s, i, j);
    TokensStayInTheBucket(l, b, times, s, i);
    TokensStayInTheBucket(l, b, times, s, j);
  }

  // ----- The bucket is exactly its window bound -----

  /** The bucket's `updated` time at call k: the latest clock reading so far. */
  function Latest(start: int, times: seq<int>, k: nat): int
    requires k < |times|
  {
    Max(if k == 0 then start else Latest(start, times, k - 1), times[k])
  }

  /** The rate limit stated without any bucket: every window of calls admits at most the burst
      plus what the elapsed time earns. */
  ghost predicate RespectsEveryWindow(l: Limits, start: int, times: seq<int>, s: seq<bool>) {
    && |s| == |times|
    && forall i, j :: 0 <= i <= j < |times| ==>
         Cost(Count(s[i..j + 1])) <= l.Capacity() + Earned(l, Latest(start, times, i), Latest(start, times, j))
  }

  lemma {:induction false} UpdatedIsLatest(l: Limits, b: BucketState, times: seq<int>, s: seq<bool>, k: nat)
    requires k < |times| && |s| == |times|
    ensures Available(l, b, times, s, k).updated == Latest(b.updated, times, k)
    ensures After(l, b, times, s, k + 1).updated == Latest(b.updated, times, k)
  {
    if k > 0 {
      UpdatedIsLatest(l, b, times, s, k - 1);
    }
  }

  /** The tokens available at a call come from the last moment the bucket was full. */
  lemma {:induction false} LastFullMoment(l: Limits, start: int, times: seq<int>, s: seq<bool>, k: nat) returns (i: nat)
    requires l.Valid() && k < |times| && |s| == |times|
    ensures i <= k
    ensures Available(l, BucketState(l.Capacity(), start), times, s, k).tokens
            == l.Capacity() + Earned(l, Latest(start, times, i), Latest(start, times, k)) - Cost(Count(s[i..k]))
  {
    var b := BucketState(l.Capacity(), start);
    UpdatedIsLatest(l, b, times, s, k);
    var r := Available(l, b, times, s, k);
    if k == 0 {
      i := 0;
      assert s[0..0] == [];
      if times[0] > start { EarnedGrows(l, start, times[0]); }
    } else if r.tokens == l.Capacity() {
      i := k;
      assert s[k..k] == [];
    } else {
      i := LastFullMoment(l, start, times, s, k - 1);
      CountStep(s, i, k);
      UpdatedIsLatest(l, b, times, s, k - 1);
    }
  }

  /** A schedule fits a bucket that starts full exactly when it respects every window. */
  lemma FitsExactlyWhenWindowsHold(l: Limits, start: int, times: seq<int>, s: seq<bool>)
    requires l.Valid()
    ensures Fits(l, BucketState(l.Capacity(), start), times, s) <==> RespectsEveryWindow(l, start, times, s)
  {
    var b := BucketState(l.Capacity(), start);
    if Fits(l, b, times, s) {
      forall i, j | 0 <= i <= j < |times|
        ensures Cost(Count(s[i..j + 1])) <= l.Capacity() + Earned(l, Latest(start, times, i), Latest(start, times, j))
      {
        FittingWindow(l, b, times, s, i, j);
      }
    }
    if RespectsEveryWindow(l, start, times, s) {
      forall k | 0 <= k < |times| && s[k]
        ensures Available(l, b, times, s, k).tokens >= TOKEN
      {
        var i := LastFullMoment(l, start, times, s, k);
        CountStep(s, i, k + 1);
      }
    }
  }

  lemma FittingWindow(l: Limits, b: BucketState, times: seq<int>, s: seq<bool>, i: nat, j: nat)
    requires l.Valid() && b.Within(l) && Fits(l, b, times, s) && i <= j < |times|
    ensures Cost(Count(s[i..j + 1]))
            <= l.Capacity() + Earned(l, Latest(b.updated, times, i), Latest(b.updated, times, j))
  {
    FirstOfWindow(l, b, times, s, i);
    CountFirst(s, i, j + 1);
    TokensStayInTheBucket(l, b, times, s, j + 1);
    hide Earned, After, Count, Fits, Latest, Limits.Capacity;
    SpendingIsPaidFor(l, b, times, s, i + 1, j + 1);
    UpdatedIsLatest(l, b, times, s, i);
    UpdatedIsLatest(l, b, times, s, j);
  }

  lemma FirstOfWindow(l: Limits, b: BucketState, times: seq<int>, s: seq<bool>, i: nat)
    requires l.Valid() && b.Within(l) && Fits(l, b, times, s) && i < |times|
    ensures After(l, b, times, s, i + 1).tokens + Cost(if s[i] then 1 else 0) <= l.Capacity()
  {
    TokensStayInTheBucket(l, b, times, s, i);
    hide Earned, Fits;
    RefillWithin(l, After(l, b, times, s, i), times[i]);
  }

  lemma CountFirst(s: seq<bool>, i: nat, j: nat)
    requires i < j <= |s|
    ensures Count(s[i..j]) == (if s[i] then 1 else 0) + Count(s[i + 1..j])
  {
    assert s[i..j] == [s[i]] + s[i + 1..j];
    CountAppend([s[i]], s[i + 1..j]);
    assert [s[i]][..0] == [];
  }

  /** So, of all schedules that keep the promised rate in every window, the limiter's admits the
      most calls at every prefix. */
  lemma LimiterIsTheBestWithinTheRate(l: Limits, start: int, times: seq<int>, s: seq<bool>, k: nat)
    requires l.Valid() && k <= |times| && RespectsEveryWindow(l, start, times, s)
    ensures RespectsEveryWindow(l, start, times, Decisions(l, BucketState(l.Capacity(), start), times))
    ensures Count(s[..k]) <= Count(Decisions(l, BucketState(l.Capacity(), start), times)[..k])
  {
    var b := BucketState(l.Capacity(), start);
    FitsExactlyWhenWindowsHold(l, start, times, s);
    ServeIsGreedy(l, b, times);
    FitsExactlyWhenWindowsHold(l, start, times, Decisions(l, b, times));
    LimiterIsOptimal(l, b, times, s, k);
  }

  // ----- Denied calls leave no trace -----

  /** `x` is the bucket with a denied call kept, `y` without it: they lie on the same refill line
      and, until they meet, neither holds a token. */
  ghost predicate SameLine(l: Limits, x: BucketState, y: BucketState) {
    x == y
    || (x.tokens < TOKEN && y.updated <= x.updated && x.tokens - y.tokens == Earned(l, y.updated, x.updated))
  }

  lemma SameLineStep(l: Limits, x: BucketState, y: BucketState, now: int)
    requires l.Valid() && SameLine(l, x, y)
    ensures Decide(l, x, now).1 == Decide(l, y, now).1
    ensures SameLine(l, Decide(l, x, now).0, Decide(l, y, now).0)
  {
    assert l.Capacity() >= TOKEN;
    if x != y {
      EarnedGrows(l, y.updated, x.updated);
      if y.updated < now <= x.updated {
        EarnedGrows(l, now, x.updated);
      }
    }
  }

  lemma {:induction false} SameLineDecisions(l: Limits, x: BucketState, y: BucketState, times: seq<int>)
    requires l.Valid() && SameLine(l, x, y)
    ensures Decisions(l, x, times) == Decisions(l, y, times)
    ensures SameLine(l, Serve(l, x, times).0, Serve(l, y, times).0)
  {
    if times != [] {
      var n := |times| - 1;
      SameLineDecisions(l, x, y, times[..n]);
      SameLineStep(l, Serve(l, x, times[..n]).0, Serve(l, y, times[..n]).0, times[n]);
    }
  }

  lemma {:induction false} ServeAppend(l: Limits, b: BucketState, xs: seq<int>, ys: seq<int>)
    ensures Decisions(l, b, xs + ys) == Decisions(l, b, xs) + Decisions(l, Serve(l, b, xs).0, ys)
    ensures Serve(l, b, xs + ys).0 == Serve(l, Serve(l, b, xs).0, ys).0
  {
    if ys == [] {
      assert xs + ys == xs;
    } else {
      var zs := xs + ys;
      assert zs[..|zs| - 1] == xs + ys[..|ys| - 1];
      ServeAppend(l, b, xs, ys[..|ys| - 1]);
    }
  }

  lemma ServeOne(l: Limits, b: BucketState, now: int)
    ensures Serve(l, b, [now]) == (Decide(l, b, now).0, [Decide(l, b, now).1])
  {
    var times := [now];
    assert times[..|times| - 1] == [] && times[|times| - 1] == now;
    assert Serve(l, b, []) == (b, []);
    assert [] + [Decide(l, b, now).1] == [Decide(l, b, now).1];
  }

  /** Deleting a denied call from a client's history changes no other decision. */
  lemma DeniedCallsLeaveNoTrace(l: Limits, b: BucketState, before: seq<int>, denied: int, after: seq<int>)
    requires l.Valid()
    requires !Decisions(l, b, before + [denied] + after)[|before|]
    ensures
      var s := Decisions(l, b, before + [denied] + after);
      Decisions(l, b, before + after) == s[..|before|] + s[|before| + 1..]
  {
    var mid := Serve(l, b, before).0;
    ServeAppend(l, b, before, after);
    ServeAppend(l, b, before + [denied], after);
    ServeAppend(l, b, before, [denied]);
    ServeOne(l, mid, denied);
    var x := Serve(l, b, before + [denied]).0;
    assert x == Decide(l, mid, denied).0;
    assert l.Capacity() >= TOKEN;
    SameLineDecisions(l, x, mid, after);
  }

  // ----- Well-spaced clients -----

  ghost predicate SpacedAt(l: Limits, start: int, times: seq<int>, k: nat)
    requires k < |times|
  {
    Earned(l, if k == 0 then start else times[k - 1], times[k]) >= TOKEN
  }

  ghost predicate WellSpaced(l: Limits, start: int, times: seq<int>) {
    forall k :: 0 <= k < |times| ==> SpacedAt(l, start, times, k)
  }

  /** A client whose calls are at least 1/rate apart is never blocked. */
  lemma {:induction false} WellSpacedIsNeverBlocked(l: Limits, b: BucketState, times: seq<int>)
    requires l.Valid() && b.Within(l) && WellSpaced(l, b.updated, times)
    ensures forall k :: 0 <= k < |times| ==> Decisions(l, b, times)[k]
    ensures Serve(l, b, times).0.Within(l)
    ensures times != [] ==> Serve(l, b, times).0.updated == times[|times| - 1]
    ensures times == [] ==> Serve(l, b, times).0.updated == b.updated
  {
    if times != [] {
      var n := |times| - 1;
      forall k | 0 <= k < n
        ensures SpacedAt(l, b.updated, times[..n], k)
      {
        assert SpacedAt(l, b.updated, times, k);
      }
      WellSpacedIsNeverBlocked(l, b, times[..n]);
      var before := Serve(l, b, times[..n]).0;
      assert SpacedAt(l, b.updated, times, n);
      SpacingEarnsAToken(l, before, times[n]);
      DecisionsPrefix(l, b, times, n);
      forall k | 0 <= k < n
        ensures Decisions(l, b, times)[k]
      {
        assert Decisions(l, b, times)[..n][k];
      }
    }
  }

  lemma SpacingEarnsAToken(l: Limits, b: BucketState, now: int)
    requires l.Valid() && b.Within(l) && Earned(l, b.updated, now) >= TOKEN
    ensures Decide(l, b, now).1 && Decide(l, b, now).0.Within(l) && Decide(l, b, now).0.updated == now
  {
    EarnedIsElapsedTimesRate(l, b.updated, now);
    PositiveFactor(now - b.updated, l.rate);
    assert l.Capacity() >= TOKEN;
  }

  lemma PositiveFactor(x: int, y: int)
    requires x * y > 0 && y > 0
    ensures x > 0
  {}

  // ----- Many clients -----

  datatype Call = Call(client: string, at: int)

  function ServeAll(l: Limits, states: map<string, BucketState>, calls: seq<Call>): (r: (map<string, BucketState>, seq<bool>))
    ensures |r.1| == |calls|
  {
    if calls == [] then (states, [])
    else
      var before := ServeAll(l, states, calls[..|calls| - 1]);
      var call := calls[|calls| - 1];
      var b := if call.client in before.0 then Some(before.0[call.client]) else None;
      var step := DecideFirst(l, b, call.at);
      (before.0[call.client := step.0], before.1 + [step.1])
  }

  function TimesOf(calls: seq<Call>, client: string): seq<int> {
    if calls == [] then []
    else
      var rest := TimesOf(calls[..|calls| - 1], client);
      var call := calls[|calls| - 1];
      if call.client == client then rest + [call.at] else rest
  }

  function DecisionsOf(calls: seq<Call>, s: seq<bool>, client: string): seq<bool>
    requires |s| == |calls|
  {
    if calls == [] then []
    else
      var n := |calls| - 1;
      var rest := DecisionsOf(calls[..n], s[..n], client);
      if calls[n].client == client then rest + [s[n]] else rest
  }

  /** The bucket a client is served from: its own, or one that is full at its first call. */
  function StartOf(l: Limits, states: map<string, BucketState>, client: string, times: seq<int>): BucketState {
    if client in states then states[client]
    else BucketState(l.Capacity(), if times == [] then 0 else times[0])
  }

  /** However the calls of many clients interleave, each client is served as if it were alone. */
  lemma {:induction false} ClientsDoNotInterfere(l: Limits, states: map<string, BucketState>, calls: seq<Call>, client: string)
    requires l.Valid()
    ensures
      var times := TimesOf(calls, client);
      var b := StartOf(l, states, client, times);
      var (after, s) := ServeAll(l, states, calls);
      && DecisionsOf(calls, s, client) == Decisions(l, b, times)
      && (client in after <==> client in states || times != [])
      && (client in after ==> after[client] == Serve(l, b, times).0)
  {
    if calls != [] {
      var n := |calls| - 1;
      hide Decide, DecideFirst, Serve, StartOf;
      ClientsDoNotInterfere(l, states, calls[..n], client);
      assert ServeAll(l, states, calls).1[..n] == ServeAll(l, states, calls[..n]).1;
      if calls[n].client == client {
        InterferenceStep(l, states, calls, client);
      }
    }
  }

  lemma InterferenceStep(l: Limits, states: map<string, BucketState>, calls: seq<Call>, client: string)
    requires l.Valid() && calls != [] && calls[|calls| - 1].client == client
    ensures
      var earlier := TimesOf(calls[..|calls| - 1], client);
      var times := TimesOf(calls, client);
      var now := calls[|calls| - 1].at;
      var b := StartOf(l, states, client, times);
      var start := StartOf(l, states, client, earlier);
      && times == earlier + [now]
      && Serve(l, b, times).0 == Decide(l, if earlier == [] then b else Serve(l, start, earlier).0, now).0
      && Decisions(l, b, times) == Decisions(l, start, earlier)
                                   + [Decide(l, if earlier == [] then b else Serve(l, start, earlier).0, now).1]
      && (earlier == [] && client !in states ==> DecideFirst(l, None, now) == Decide(l, b, now))
  {
    var earlier := TimesOf(calls[..|calls| - 1], client);
    var times := TimesOf(calls, client);
    var now := calls[|calls| - 1].at;
    assert times == earlier + [now];
    FirstCallMeetsAFullBucket(l, now);
    hide Serve, Decide, DecideFirst, Limits.Capacity, TimesOf;
    ServeLast(l, StartOf(l, states, client, times), earlier, now);
    NothingServed(l, StartOf(l, states, client, times));
    NothingServed(l, StartOf(l, states, client, earlier));
    if earlier != [] {
      assert times[0] == earlier[0];
    }
  }

  lemma ServeLast(l: Limits, b: BucketState, earlier: seq<int>, now: int)
    ensures
      var step := Decide(l, Serve(l, b, earlier).0, now);
      Serve(l, b, earlier + [now]) == (step.0, Decisions(l, b, earlier) + [step.1])
  {
    hide Decide;
    assert (earlier + [now])[..|earlier|] == earlier;
  }

  lemma NothingServed(l: Limits, b: BucketState)
    ensures Serve(l, b, []) == (b, [])
  {
  }

  /** A new client that keeps one token's time between its calls has all of them admitted, the first
      at any time, however the calls of others interleave. */
  lemma FreshClientIsNeverBlocked(l: Limits, states: map<string, BucketState>, calls: seq<Call>, client: string)
    requires l.Valid() && client !in states
    requires
      var times := TimesOf(calls, client);
      forall k :: 0 < k < |times| ==> SpacedAt(l, times[0], times, k)
    ensures
      var s := DecisionsOf(calls, ServeAll(l, states, calls).1, client);
      |s| == |TimesOf(calls, client)| && forall k :: 0 <= k < |s| ==> s[k]
  {
    var times := TimesOf(calls, client);
    ClientsDoNotInterfere(l, states, calls, client);
    hide ServeAll, DecisionsOf, TimesOf;
    if times != [] {
      FullBucketThenSpaced(l, times);
    }
  }

  lemma FullBucketThenSpaced(l: Limits, times: seq<int>)
    requires l.Valid() && times != [] && forall k :: 0 < k < |times| ==> SpacedAt(l, times[0], times, k)
    ensures
      var s := Decisions(l, BucketState(l.Capacity(), times[0]), times);
      forall k :: 0 <= k < |s| ==> s[k]
  {
    var (full, rest) := (BucketState(l.Capacity(), times[0]), times[1..]);
    var after := Decide(l, full, times[0]).0;
    assert l.Capacity() >= TOKEN && after == BucketState(l.Capacity() - TOKEN, times[0]);
    assert times == [times[0]] + rest;
    ServeAppend(l, full, [times[0]], rest);
    ServeOne(l, full, times[0]);
    forall k | 0 <= k < |rest|
      ensures SpacedAt(l, times[0], rest, k)
    {
      assert SpacedAt(l, times[0], times, k + 1);
    }
    WellSpacedIsNeverBlocked(l, after, rest);
  }

  // ----- In requests per minute -----

  predicate NeverBack(times: seq<int>) { forall i, j :: 0 <= i <= j < |times| ==> times[i] <= times[j] }

  lemma {:induction false} LatestIsTheClock(times: seq<int>, k: nat)
    requires k < |times| && NeverBack(times)
    ensures Latest(times[0], times, k) == times[k]
  {
    if k > 0 {
      LatestIsTheClock(times, k - 1);
    }
  }

  /** A new client under a clock that never steps back, in nanoseconds: a window admits at most `burst`
      requests and `rate` more for each minute it lasts, so one of a minute at most burst + rate. */
  lemma EveryMinuteKeepsTheRate(l: Limits, times: seq<int>, i: nat, j: nat)
    requires l.Valid() && NeverBack(times) && i <= j < |times|
    ensures
      var admitted := Count(Decisions(l, BucketState(l.Capacity(), times[0]), times)[i..j + 1]);
      && admitted * 60_000_000_000 <= l.burst * 60_000_000_000 + (times[j] - times[i]) * l.rate
      && (times[j] - times[i] <= 60_000_000_000 ==> admitted <= l.burst + l.rate)
  {
    var b := BucketState(l.Capacity(), times[0]);
    hide Earned, Count, Fits, AdmitsWheneverItCan, NeverBack;
    ServeIsGreedy(l, b, times);
    hide Decisions;
    WindowInNanoseconds(l, times, Decisions(l, b, times), i, j);
  }

  lemma WindowInNanoseconds(l: Limits, times: seq<int>, s: seq<bool>, i: nat, j: nat)
    requires l.Valid() && NeverBack(times) && i <= j < |times| && Fits(l, BucketState(l.Capacity(), times[0]), times, s)
    ensures |s| == |times|
    ensures
      var admitted := Count(s[i..j + 1]);
      && admitted * 60_000_000_000 <= l.burst * 60_000_000_000 + (times[j] - times[i]) * l.rate
      && (times[j] - times[i] <= 60_000_000_000 ==> admitted <= l.burst + l.rate)
  {
    assert |s| == |times|;
    NothingBelowZero(l, times[0]);
    LatestIsTheClock(times, i);
    LatestIsTheClock(times, j);
    hide *;
    FittingWindow(l, BucketState(l.Capacity(), times[0]), times, s, i, j);
    InNanoseconds(l, Count(s[i..j + 1]), times[i], times[j]);
  }

  lemma NothingBelowZero(l: Limits, start: int)
    requires l.Valid()
    ensures BucketState(l.Capacity(), start).Within(l)
  {
  }

  lemma InNanoseconds(l: Limits, admitted: int, from: int, to: int)
    requires l.rate > 0 && Cost(admitted) <= l.Capacity() + Earned(l, from, to)
    ensures admitted * 60_000_000_000 <= l.burst * 60_000_000_000 + (to - from) * l.rate
    ensures to - from <= 60_000_000_000 ==> admitted <= l.burst + l.rate
  {
    EarnedIsElapsedTimesRate(l, from, to);
    hide Earned;
    if to - from <= 60_000_000_000 {
      RatesMultiply(to - from, 60_000_000_000, l.rate);
    }
  }

  lemma RatesMultiply(x: int, y: int, rate: int)
    requires x <= y && rate > 0
    ensures x * rate <= y * rate
  {
  }

  /** A new client that leaves a minute divided by the rate between its calls has all of them admitted. */
  lemma CallsAtTheRateAreAdmitted(l: Limits, times: seq<int>)
    requires l.Valid() && times != []
    requires forall k :: 0 < k < |times| ==> (times[k] - times[k - 1]) * l.rate >= 60_000_000_000
    ensures forall k :: 0 <= k < |times| ==> Decisions(l, BucketState(l.Capacity(), times[0]), times)[k]
  {
    forall k | 0 < k < |times|
      ensures SpacedAt(l, times[0], times, k)
    {
      EarnedIsElapsedTimesRate(l, times[k - 1], times[k]);
    }
    FullBucketThenSpaced(l, times);
  }

  /** Of any number of simultaneous calls of a new client exactly the first `burst` are admitted. */
  lemma {:induction false} BurstIsExact(l: Limits, now: int, times: seq<int>)
    requires l.Valid() && forall k :: 0 <= k < |times| ==> times[k] == now
    ensures
      var (after, s) := Serve(l, BucketState(l.Capacity(), now), times);
      && after == BucketState(Cost(l.burst - Min(l.burst, |times|)), now)
      && forall k :: 0 <= k < |times| ==> (s[k] <==> k < l.burst)
  {
    if times != [] {
      BurstIsExact(l, now, times[..|times| - 1]);
    }
  }
}
