/** The per-IP token-bucket limiter with eviction of idle buckets
    (internal/middleware/ratelimit.go). Times are seconds. `rate.Limiter` is used
    as a full bucket of `rate` tokens refilled at `rate` tokens per second. */
module RateLimit {
  import opened Powers

  const IDLE_MAX_AGE: real := 300.0

  datatype Bucket = Bucket(tokens: real, last: real, lastSeen: real)

  type Buckets = map<string, Bucket>

  function Min(x: real, y: real): real {
    if x <= y then x else y
  }

  function Refill(rate: real, elapsed: real): real {
    rate * elapsed
  }

  /** The tokens on hand at time `now`. */
  function Available(b: Bucket, rate: real, now: real): real {
    Min(rate, b.tokens + Refill(rate, now - b.last))
  }

  function BucketFor(m: Buckets, ip: string, rate: real, now: real): Bucket {
    if ip in m then m[ip] else Bucket(rate, now, now)
  }

  predicate Allows(m: Buckets, ip: string, rate: real, now: real) {
    Available(BucketFor(m, ip, rate, now), rate, now) >= 1.0
  }

  function Requested(m: Buckets, ip: string, rate: real, now: real): Buckets {
    m[ip := Bucket(Spent(Available(BucketFor(m, ip, rate, now), rate, now)), now, now)]
  }

  /** A request takes one token if there is one. */
  function Spent(tokens: real): real {
    if tokens >= 1.0 then tokens - 1.0 else tokens
  }

  lemma SeenIsOnlyAHint(b: Bucket, seen: real, rate: real, now: real)
    ensures Available(b.(lastSeen := seen), rate, now) == Available(b, rate, now)
  {
  }

  /** Looking the bucket up marks it as seen; taking from the marked bucket is taking
      from the original one. */
  lemma TouchThenSpend(m: Buckets, got: Buckets, ip: string, rate: real, now: real)
    requires got == m[ip := BucketFor(m, ip, rate, now).(lastSeen := now)]
    ensures Available(got[ip], rate, now) == Available(BucketFor(m, ip, rate, now), rate, now)
    ensures got[ip := Bucket(Spent(Available(got[ip], rate, now)), now, now)] == Requested(m, ip, rate, now)
    ensures got[ip].lastSeen == now
  {
    SeenIsOnlyAHint(BucketFor(m, ip, rate, now), now, rate, now);
  }

  function Evicted(m: Buckets, maxAge: real, now: real): Buckets {
    map ip | ip in m && !(now - m[ip].lastSeen > maxAge) :: m[ip]
  }

  class RateLimiter {
    var tokens: real
    var last: real
    var lastSeen: real

    constructor (tokens: real, now: real)
      ensures Value() == Bucket(tokens, now, now)
    {
      this.tokens, last, lastSeen := tokens, now, now;
    }

    function Value(): Bucket
      reads this
    {
      Bucket(tokens, last, lastSeen)
    }

    method Allow(rate: real, now: real) returns (ok: bool)
      modifies this`tokens, this`last
      ensures ok == (Available(old(Value()), rate, now) >= 1.0)
      ensures Value() == Bucket(Spent(Available(old(Value()), rate, now)), now, old(lastSeen))
    {
      tokens := Min(rate, tokens + Refill(rate, now - last));
      last := now;
      ok := tokens >= 1.0;
      if ok {
        tokens := tokens - 1.0;
      }
    }
  }

  class RateLimiterStore {
    var buckets: map<string, RateLimiter>
    const perSecond: int

    ghost predicate Valid()
      reads this
    {
      forall i, j :: i in buckets && j in buckets && i != j ==> buckets[i] != buckets[j]
    }

    ghost function View(): Buckets
      reads this, buckets.Values
    {
      map ip | ip in buckets :: buckets[ip].Value()
    }

    constructor (perSecond: int)
      ensures Valid() && View() == map[] && this.perSecond == perSecond
    {
      this.perSecond := perSecond;
      buckets := map[];
    }

    method Get(ip: string, rate: real, now: real) returns (rl: RateLimiter)
      requires Valid()
      modifies this`buckets, buckets.Values
      ensures Valid() && ip in buckets && rl == buckets[ip]
      ensures fresh(buckets.Values - old(buckets.Values))
      ensures View() == old(View())[ip := BucketFor(old(View()), ip, rate, now).(lastSeen := now)]
    {
      if ip in buckets {
        rl := buckets[ip];
        rl.lastSeen := now;
      } else {
        rl := new RateLimiter(rate, now);
        buckets := buckets[ip := rl];
      }
    }

    method Serve(ip: string, rate: real, now: real) returns (allowed: bool)
      requires Valid()
      modifies this`buckets, buckets.Values
      ensures Valid() && fresh(buckets.Values - old(buckets.Values))
      ensures allowed == Allows(old(View()), ip, rate, now)
      ensures View() == Requested(old(View()), ip, rate, now)
    {
      var rl := Get(ip, rate, now);
      ghost var got := View();
      TouchThenSpend(old(View()), got, ip, rate, now);
      assert got[ip] == rl.Value();
      allowed := rl.Allow(rate, now);
      forall k | k in buckets && k != ip
        ensures buckets[k].Value() == got[k]
      {
      }
      assert View() == got[ip := rl.Value()];
    }

    /** A non-positive `perSecond` disables limiting. */
    method Handle(ip: string, now: real) returns (allowed: bool)
      requires Valid()
      modifies this`buckets, buckets.Values
      ensures Valid() && fresh(buckets.Values - old(buckets.Values))
      ensures perSecond <= 0 ==> allowed && View() == old(View())
      ensures perSecond > 0 ==> allowed == Allows(old(View()), ip, perSecond as real, now)
      ensures perSecond > 0 ==> View() == Requested(old(View()), ip, perSecond as real, now)
    {
      if perSecond <= 0 {
        return true;
      }
      allowed := Serve(ip, perSecond as real, now);
    }

    method EvictIdle(now: real)
      requires Valid()
      modifies this`buckets
      ensures Valid() && View() == Evicted(old(View()), IDLE_MAX_AGE, now)
      ensures buckets.Values <= old(buckets.Values)
    {
      ghost var before := buckets;
      buckets := map ip | ip in buckets && !(now - buckets[ip].lastSeen > IDLE_MAX_AGE) :: buckets[ip];
      forall rl | rl in buckets.Values
        ensures rl in before.Values
      {
        var ip :| ip in buckets && buckets[ip] == rl;
        assert before[ip] == rl;
      }
    }
  }

  /** A bucket idle for exactly five minutes stays as it is; a longer idle one goes. */
  lemma IdleTimeAllowed(m: Buckets, ip: string, now: real)
    requires ip in m
    ensures ip in Evicted(m, IDLE_MAX_AGE, now) <==> now - m[ip].lastSeen <= 300.0
    ensures ip in Evicted(m, IDLE_MAX_AGE, now) ==> Evicted(m, IDLE_MAX_AGE, now)[ip] == m[ip]
  {
  }

  // ----- Traces ---------------------------------------------------------------------

  datatype Event = Request(ip: string, time: real) | Tick(time: real)

  predicate Timed(events: seq<Event>) {
    forall i, j :: 0 <= i < j < |events| ==> events[i].time <= events[j].time
  }

  /** A tick evicts only where `evict` says so; otherwise `maxAge` plays no part. */
  function Apply(m: Buckets, e: Event, rate: real, evict: bool, maxAge: real): Buckets {
    match e
    case Request(ip, t) => Requested(m, ip, rate, t)
    case Tick(t) => if evict then Evicted(m, maxAge, t) else m
  }

  function Evicting(events: seq<Event>, rate: real, maxAge: real): Buckets {
    if |events| == 0 then map[]
    else Apply(Evicting(events[..|events| - 1], rate, maxAge), events[|events| - 1], rate, true, maxAge)
  }

  function Keeping(events: seq<Event>, rate: real): Buckets {
    if |events| == 0 then map[]
    else Apply(Keeping(events[..|events| - 1], rate), events[|events| - 1], rate, false, 0.0)
  }

  /** The answer to event `i` (a tick has none and reads as false). */
  predicate AnswerEvicting(events: seq<Event>, i: nat, rate: real, maxAge: real)
    requires i < |events|
  {
    events[i].Request? && Allows(Evicting(events[..i], rate, maxAge), events[i].ip, rate, events[i].time)
  }

  predicate AnswerKeeping(events: seq<Event>, i: nat, rate: real)
    requires i < |events|
  {
    events[i].Request? && Allows(Keeping(events[..i], rate), events[i].ip, rate, events[i].time)
  }

  lemma RefillFacts(rate: real, elapsed: real)
    requires rate >= 1.0 && elapsed >= 0.0
    ensures Refill(rate, elapsed) >= 0.0
    ensures elapsed >= 1.0 ==> Refill(rate, elapsed) >= rate
  {
    if elapsed >= 1.0 {
      MulLe(1.0, elapsed, rate);
    }
  }

  predicate Sound(b: Bucket, rate: real, now: real) {
    0.0 <= b.tokens <= rate && b.last == b.lastSeen <= now
  }

  lemma RequestKeepsSound(b: Bucket, rate: real, now: real, t: real)
    requires rate >= 1.0 && Sound(b, rate, now) && now <= t
    ensures 0.0 <= Available(b, rate, t) <= rate
    ensures t - b.last >= 1.0 ==> Available(b, rate, t) == rate
  {
    RefillFacts(rate, t - b.last);
  }

  ghost predicate AllSound(m: Buckets, rate: real, now: real) {
    forall ip :: ip in m ==> Sound(m[ip], rate, now)
  }

  /** Where the two maps may differ: a bucket the eviction dropped has been idle for
      a second, so it is full again. */
  ghost predicate Similar(e: Buckets, f: Buckets, rate: real, now: real) {
    && AllSound(f, rate, now)
    && (forall ip :: ip in e ==> ip in f && e[ip] == f[ip])
    && (forall ip :: ip in f && ip !in e ==> now - f[ip].last >= 1.0)
  }

  lemma SimilarAnswers(e: Buckets, f: Buckets, rate: real, now: real, ip: string, t: real)
    requires rate >= 1.0 && Similar(e, f, rate, now) && now <= t
    ensures Allows(e, ip, rate, t) == Allows(f, ip, rate, t)
    ensures Requested(e, ip, rate, t)[ip] == Requested(f, ip, rate, t)[ip]
    ensures Sound(Requested(f, ip, rate, t)[ip], rate, t)
  {
    var full := Bucket(rate, t, t);
    RequestKeepsSound(full, rate, t, t);
    if ip in f {
      RequestKeepsSound(f[ip], rate, now, t);
    }
    if ip !in e {
      RefillFacts(rate, 0.0);
      assert Available(full, rate, t) == rate;
    }
  }

  lemma SimilarStep(e: Buckets, f: Buckets, rate: real, now: real, ev: Event, maxAge: real)
    requires rate >= 1.0 && maxAge >= 1.0 && Similar(e, f, rate, now) && now <= ev.time
    ensures Similar(Apply(e, ev, rate, true, maxAge), Apply(f, ev, rate, false, 0.0), rate, ev.time)
  {
    if ev.Request? {
      SimilarAnswers(e, f, rate, now, ev.ip, ev.time);
    }
  }

  function Clock(events: seq<Event>, i: nat): real
    requires i <= |events| && |events| > 0
  {
    if i == 0 then events[0].time else events[i - 1].time
  }

  lemma {:induction false} RunsAreSimilar(events: seq<Event>, rate: real, maxAge: real, i: nat)
    requires rate >= 1.0 && maxAge >= 1.0 && Timed(events) && i <= |events| && |events| > 0
    ensures Similar(Evicting(events[..i], rate, maxAge), Keeping(events[..i], rate), rate, Clock(events, i))
  {
    if i == 0 {
    } else {
      RunsAreSimilar(events, rate, maxAge, i - 1);
      assert events[..i][..i - 1] == events[..i - 1];
      SimilarStep(Evicting(events[..i - 1], rate, maxAge), Keeping(events[..i - 1], rate), rate,
        Clock(events, i - 1), events[i - 1], maxAge);
    }
  }

  /** Eviction is unobservable: on every timed trace the evicting limiter gives the
      answers of one that never forgets a bucket. */
  lemma EvictionIsUnobservable(events: seq<Event>, rate: real, maxAge: real, i: nat)
    requires rate >= 1.0 && maxAge >= 1.0 && Timed(events) && i < |events|
    ensures AnswerEvicting(events, i, rate, maxAge) == AnswerKeeping(events, i, rate)
  {
    RunsAreSimilar(events, rate, maxAge, i);
    if events[i].Request? {
      SimilarAnswers(Evicting(events[..i], rate, maxAge), Keeping(events[..i], rate), rate,
        Clock(events, i), events[i].ip, events[i].time);
    }
  }

  // ----- Bursts -------------------------------------------------------------------------

  /** `n` requests of one IP at one instant. */
  function Burst(m: Buckets, ip: string, rate: real, now: real, n: nat): Buckets {
    if n == 0 then m else Requested(Burst(m, ip, rate, now, n - 1), ip, rate, now)
  }

  /** Of `tokens`, `n` are gone, or less than one is left when there were not so many. */
  predicate DrainedTo(b: Bucket, tokens: real, now: real, n: nat) {
    && b.last == now
    && (n as real <= tokens ==> b == Bucket(tokens - n as real, now, now))
    && (n as real > tokens ==> 0.0 <= b.tokens < 1.0)
  }

  /** Of simultaneous requests exactly the first floor(tokens) are let through. */
  lemma {:induction false} BurstSpendsTokens(m: Buckets, ip: string, rate: real, now: real, n: nat, tokens: real)
    requires rate >= 1.0 && tokens == Available(BucketFor(m, ip, rate, now), rate, now) && 0.0 <= tokens <= rate
    ensures Allows(Burst(m, ip, rate, now, n), ip, rate, now) <==> (n + 1) as real <= tokens
    ensures n > 0 ==> ip in Burst(m, ip, rate, now, n)
    ensures n > 0 ==> DrainedTo(Burst(m, ip, rate, now, n)[ip], tokens, now, n)
  {
    NoTimeNoTokens(rate);
    if n == 0 {
    } else {
      BurstSpendsTokens(m, ip, rate, now, n - 1, tokens);
    }
  }

  lemma NoTimeNoTokens(rate: real)
    ensures Refill(rate, 0.0) == 0.0
  {
  }

  /** Tokens flow in steadily: of simultaneous requests `t - last` seconds after the
      bucket was last used, those pass that its tokens and `rate` per second since then
      pay for, up to the burst. */
  lemma RefillPaysFor(m: Buckets, ip: string, rate: real, t: real, n: nat, flowed: real)
    requires rate >= 1.0 && ip in m && 0.0 <= m[ip].tokens <= rate && m[ip].last <= t
    requires flowed == rate * (t - m[ip].last)
    ensures Allows(Burst(m, ip, rate, t, n), ip, rate, t)
      <==> (n + 1) as real <= rate && (n + 1) as real <= m[ip].tokens + flowed
  {
    RefillFacts(rate, t - m[ip].last);
    BurstSpendsTokens(m, ip, rate, t, n, Min(rate, m[ip].tokens + flowed));
  }

  /** A first-time IP gets a full burst. */
  lemma FreshBurst(m: Buckets, ip: string, rate: real, now: real, n: nat)
    requires rate >= 1.0 && ip !in m
    ensures Allows(Burst(m, ip, rate, now, n), ip, rate, now) <==> (n + 1) as real <= rate
    ensures n > 0 ==> ip in Burst(m, ip, rate, now, n)
    ensures n > 0 ==> DrainedTo(Burst(m, ip, rate, now, n)[ip], rate, now, n)
  {
    NoTimeNoTokens(rate);
    BurstSpendsTokens(m, ip, rate, now, n, rate);
  }

  // ----- Which cutoffs are safe ---------------------------------------------------------

  ghost predicate Unobservable(rate: real, maxAge: real) {
    forall events, i: nat :: Timed(events) && i < |events| ==>
      AnswerEvicting(events, i, rate, maxAge) == AnswerKeeping(events, i, rate)
  }

  function Requests(ip: string, time: real, n: nat): (r: seq<Event>)
    ensures |r| == n && forall i :: 0 <= i < n ==> r[i] == Request(ip, time)
  {
    seq(n, _ => Request(ip, time))
  }

  lemma RunsSnoc(events: seq<Event>, e: Event, rate: real, maxAge: real)
    ensures Keeping(events + [e], rate) == Apply(Keeping(events, rate), e, rate, false, 0.0)
    ensures Evicting(events + [e], rate, maxAge) == Apply(Evicting(events, rate, maxAge), e, rate, true, maxAge)
  {
    assert (events + [e])[..|events|] == events;
  }

  lemma {:induction false} RequestsAreBurst(
      events: seq<Event>, rate: real, maxAge: real, ip: string, time: real, n: nat)
    ensures Keeping(events + Requests(ip, time, n), rate) == Burst(Keeping(events, rate), ip, rate, time, n)
    ensures Evicting(events + Requests(ip, time, n), rate, maxAge)
         == Burst(Evicting(events, rate, maxAge), ip, rate, time, n)
  {
    if n == 0 {
      assert events + Requests(ip, time, 0) == events;
    } else {
      var fewer := events + Requests(ip, time, n - 1);
      RequestsAreBurst(events, rate, maxAge, ip, time, n - 1);
      RunsSnoc(fewer, Request(ip, time), rate, maxAge);
      assert events + Requests(ip, time, n) == fewer + [Request(ip, time)];
    }
  }

  /** Drain the bucket at 0, let it be evicted at `t`, and ask for as much again. */
  function DrainedAgain(k: nat, t: real): seq<Event> {
    Requests("a", 0.0, k) + [Tick(t)] + Requests("a", t, k)
  }

  /** An empty bucket of `k` tokens has fewer than `k` again before a second is over. */
  lemma NotYetFull(k: nat, t: real)
    requires k >= 1 && 0.0 < t < 1.0
    ensures var b := Bucket(0.0, 0.0, 0.0);
      0.0 <= Available(b, k as real, t) < k as real
  {
    var rate := k as real;
    MulLt(t, 1.0, rate);
    MulLt(0.0, t, rate);
    var x := Refill(rate, t - 0.0);
    assert 0.0 < x < rate;
  }

  /** The buckets after the drain and the tick, kept and evicted. */
  lemma AfterDrain(k: nat, maxAge: real, t: real)
    requires k >= 1 && 0.0 <= maxAge < t < 1.0
    ensures var events := Requests("a", 0.0, k) + [Tick(t)];
      && "a" in Keeping(events, k as real) && Keeping(events, k as real)["a"] == Bucket(0.0, 0.0, 0.0)
      && "a" !in Evicting(events, k as real, maxAge)
  {
    var drained := Requests("a", 0.0, k);
    assert [] + drained == drained;
    RequestsAreBurst([], k as real, maxAge, "a", 0.0, k);
    FreshBurst(map[], "a", k as real, 0.0, k);
    assert (drained + [Tick(t)])[..k] == drained;
  }

  lemma LastRequest(before: seq<Event>, k: nat, t: real)
    requires k >= 1
    ensures var events := before + Requests("a", t, k);
      && |events| == |before| + k && events[|events| - 1] == Request("a", t)
      && events[..|events| - 1] == before + Requests("a", t, k - 1)
  {
  }

  /** The last of the second round of requests is let through after an eviction. */
  lemma EvictedAllows(before: seq<Event>, k: nat, rate: real, maxAge: real, t: real)
    requires k >= 1 && rate == k as real && "a" !in Evicting(before, rate, maxAge)
    ensures var events := before + Requests("a", t, k);
      |events| == |before| + k && AnswerEvicting(events, |events| - 1, rate, maxAge)
  {
    LastRequest(before, k, t);
    RequestsAreBurst(before, rate, maxAge, "a", t, k - 1);
    FreshBurst(Evicting(before, rate, maxAge), "a", rate, t, k - 1);
  }

  /** Where the drained bucket was kept, the last of the requests finds too little. */
  lemma DrainedDenies(m: Buckets, k: nat, rate: real, t: real)
    requires k >= 1 && rate == k as real && 0.0 < t < 1.0 && "a" in m && m["a"] == Bucket(0.0, 0.0, 0.0)
    ensures !Allows(Burst(m, "a", rate, t, k - 1), "a", rate, t)
  {
    NotYetFull(k, t);
    BurstSpendsTokens(m, "a", rate, t, k - 1, Available(Bucket(0.0, 0.0, 0.0), rate, t));
  }

  lemma EarlyEvictionShows(k: nat, rate: real, maxAge: real, t: real)
    requires k >= 1 && rate == k as real && 0.0 <= maxAge < t < 1.0
    ensures var events := DrainedAgain(k, t);
      && Timed(events) && |events| > 0
      && AnswerEvicting(events, |events| - 1, rate, maxAge) && !AnswerKeeping(events, |events| - 1, rate)
  {
    var before := Requests("a", 0.0, k) + [Tick(t)];
    AfterDrain(k, maxAge, t);
    EvictedAllows(before, k, rate, maxAge, t);
    LastRequest(before, k, t);
    RequestsAreBurst(before, rate, 0.0, "a", t, k - 1);
    DrainedDenies(Keeping(before, rate), k, rate, t);
    DrainedAgainIsTimed(k, t);
  }

  lemma DrainedAgainIsTimed(k: nat, t: real)
    requires t > 0.0
    ensures Timed(DrainedAgain(k, t))
  {
  }

  /** Exactly when, for each rate the service can be given: a cutoff of at least one
      second is safe, every shorter one is observable by some trace. The source's
      cutoff is five minutes. */
  lemma EvictionUnobservableIff(k: nat, maxAge: real)
    requires k >= 1 && maxAge >= 0.0
    ensures Unobservable(k as real, maxAge) <==> maxAge >= 1.0
  {
    var rate := k as real;
    if maxAge >= 1.0 {
      forall events, i: nat | Timed(events) && i < |events|
        ensures AnswerEvicting(events, i, rate, maxAge) == AnswerKeeping(events, i, rate)
      {
        EvictionIsUnobservable(events, rate, maxAge, i);
      }
    } else {
      var t := (maxAge + 1.0) / 2.0;
      EarlyEvictionShows(k, rate, maxAge, t);
      var events := DrainedAgain(k, t);
      assert AnswerEvicting(events, |events| - 1, rate, maxAge) != AnswerKeeping(events, |events| - 1, rate);
    }
  }

  // ----- Rate guarantees --------------------------------------------------------------

  predicate InWindow(e: Event, ip: string, lo: real, hi: real) {
    e.Request? && e.ip == ip && lo <= e.time <= hi
  }

  /** Requests of `ip` with a time in [lo, hi] that were let through. */
  function AllowedCount(events: seq<Event>, rate: real, ip: string, lo: real, hi: real): nat {
    if |events| == 0 then 0
    else
      var n := |events| - 1;
      AllowedCount(events[..n], rate, ip, lo, hi) +
      (if InWindow(events[n], ip, lo, hi) && AnswerKeeping(events, n, rate) then 1 else 0)
  }

  /** Tokens taken since `lo` plus tokens left never exceed what the window supplied. */
  ghost predicate Budget(events: seq<Event>, rate: real, ip: string, lo: real, hi: real) {
    var m, k := Keeping(events, rate), AllowedCount(events, rate, ip, lo, hi);
    && (ip !in m ==> k == 0)
    && (ip in m && m[ip].last < lo ==> k == 0)
    && (ip in m && lo <= m[ip].last <= hi ==> k as real + m[ip].tokens <= rate + Refill(rate, m[ip].last - lo))
    && k as real <= rate + Refill(rate, hi - lo)
  }

  lemma BudgetStep(k: nat, tokens: real, last: real, t: real, rate: real, lo: real, hi: real)
    requires rate >= 1.0 && lo <= last <= t <= hi
    requires k as real + tokens <= rate + Refill(rate, last - lo)
    ensures k as real + Min(rate, tokens + Refill(rate, t - last)) <= rate + Refill(rate, t - lo)
    ensures Refill(rate, t - lo) <= Refill(rate, hi - lo)
  {
    assert Refill(rate, t - lo) == Refill(rate, last - lo) + Refill(rate, t - last);
    assert Refill(rate, hi - lo) == Refill(rate, t - lo) + Refill(rate, hi - t);
    RefillFacts(rate, hi - t);
  }

  lemma {:induction false} BudgetHolds(events: seq<Event>, rate: real, ip: string, lo: real, hi: real)
    requires rate >= 1.0 && Timed(events) && lo <= hi
    ensures Budget(events, rate, ip, lo, hi)
    ensures |events| > 0 ==> AllSound(Keeping(events, rate), rate, events[|events| - 1].time)
  {
    RefillFacts(rate, hi - lo);
    if |events| == 0 {
    } else {
      var n := |events| - 1;
      var front, e := events[..n], events[n];
      BudgetHolds(front, rate, ip, lo, hi);
      var m := Keeping(front, rate);
      assert AllSound(m, rate, e.time);
      if e.Request? {
        var b := BucketFor(m, e.ip, rate, e.time);
        RequestKeepsSound(b, rate, e.time, e.time);
        if e.ip == ip {
          BudgetRequest(events, rate, ip, lo, hi);
        }
      }
    }
  }

  lemma BudgetRequest(events: seq<Event>, rate: real, ip: string, lo: real, hi: real)
    requires rate >= 1.0 && lo <= hi && |events| > 0 && events[|events| - 1].Request? && events[|events| - 1].ip == ip
    requires Budget(events[..|events| - 1], rate, ip, lo, hi)
    requires AllSound(Keeping(events[..|events| - 1], rate), rate, events[|events| - 1].time)
    ensures Budget(events, rate, ip, lo, hi)
  {
    var n := |events| - 1;
    var t := events[n].time;
    var m := Keeping(events[..n], rate);
    var k := AllowedCount(events[..n], rate, ip, lo, hi);
    var b := BucketFor(m, ip, rate, t);
    RequestKeepsSound(b, rate, t, t);
    if lo <= t <= hi {
      RefillFacts(rate, t - lo);
      RefillFacts(rate, hi - lo);
      if ip in m && lo <= b.last {
        BudgetStep(k, b.tokens, b.last, t, rate, lo, hi);
      } else {
        assert k == 0;
        assert Refill(rate, hi - lo) == Refill(rate, t - lo) + Refill(rate, hi - t);
        RefillFacts(rate, hi - t);
      }
    }
  }

  /** The same count for the limiter that does evict. */
  function AllowedEvicting(events: seq<Event>, rate: real, maxAge: real, ip: string, lo: real, hi: real): nat {
    if |events| == 0 then 0
    else
      var n := |events| - 1;
      AllowedEvicting(events[..n], rate, maxAge, ip, lo, hi) +
      (if InWindow(events[n], ip, lo, hi) && AnswerEvicting(events, n, rate, maxAge) then 1 else 0)
  }

  lemma {:induction false} EvictingCountsTheSame(
      events: seq<Event>, rate: real, maxAge: real, ip: string, lo: real, hi: real)
    requires rate >= 1.0 && maxAge >= 1.0 && Timed(events)
    ensures AllowedEvicting(events, rate, maxAge, ip, lo, hi) == AllowedCount(events, rate, ip, lo, hi)
  {
    if |events| == 0 {
    } else {
      var n := |events| - 1;
      EvictingCountsTheSame(events[..n], rate, maxAge, ip, lo, hi);
      EvictionIsUnobservable(events, rate, maxAge, n);
    }
  }

  /** In any window of length T at most rate + rate * T requests of one IP pass. */
  lemma WindowBound(events: seq<Event>, rate: real, maxAge: real, ip: string, lo: real, hi: real)
    requires rate >= 1.0 && maxAge >= 1.0 && Timed(events) && lo <= hi
    ensures AllowedEvicting(events, rate, maxAge, ip, lo, hi) as real <= rate + Refill(rate, hi - lo)
  {
    EvictingCountsTheSame(events, rate, maxAge, ip, lo, hi);
    BudgetHolds(events, rate, ip, lo, hi);
  }

  /** Between two requests of one IP with none in between, its bucket rests. */
  lemma {:induction false} BucketRests(events: seq<Event>, rate: real, ip: string, i: nat, j: nat)
    requires i < j <= |events| && events[i].Request? && events[i].ip == ip
    requires forall k :: i < k < j ==> !(events[k].Request? && events[k].ip == ip)
    ensures ip in Keeping(events[..j], rate)
    ensures Keeping(events[..j], rate)[ip] == Requested(Keeping(events[..i], rate), ip, rate, events[i].time)[ip]
  {
    assert events[..j][..j - 1] == events[..j - 1];
    if j > i + 1 {
      BucketRests(events, rate, ip, i, j - 1);
    }
  }

  /** `Retry-After: 1` is honest: whatever happened before, the next request of the
      same IP a second or more later is let through, with or without eviction. */
  lemma RetryAfterOneSecond(events: seq<Event>, rate: real, maxAge: real, ip: string, i: nat, j: nat)
    requires rate >= 1.0 && maxAge >= 1.0 && Timed(events)
    requires i < j < |events| && events[i].Request? && events[j].Request?
    requires events[i].ip == events[j].ip == ip && events[j].time >= events[i].time + 1.0
    requires forall k :: i < k < j ==> !(events[k].Request? && events[k].ip == ip)
    ensures AnswerEvicting(events, j, rate, maxAge) && AnswerKeeping(events, j, rate)
  {
    BucketRests(events, rate, ip, i, j);
    var m := Keeping(events[..i], rate);
    var now := events[i].time;
    BudgetHolds(events[..i], rate, ip, now, now);
    var b := BucketFor(m, ip, rate, now);
    RequestKeepsSound(b, rate, now, now);
    RequestKeepsSound(Requested(m, ip, rate, now)[ip], rate, now, events[j].time);
    EvictionIsUnobservable(events, rate, maxAge, j);
  }
}
