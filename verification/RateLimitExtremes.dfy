/** How far races can take the rate limiter (internal/middleware/ratelimit.go): runs in
    which a further burst passes, and runs in which slow requests pass without bound. */
module RateLimitExtremes {
  import opened Models
  import opened RateLimit
  import opened RateLimitRaces

  ghost predicate Reachable(s: Setting, w: World) {
    exists steps :: Runs(s, Idle(0.0), steps) && After(s, Idle(0.0), steps) == w
  }

  lemma Go(s: Setting, w: World, step: Step) returns (w': World)
    requires Reachable(s, w) && Prompt(s, w) && Enabled(w, step)
    ensures w' == Next(s, w, step) && Reachable(s, w')
  {
    w' := Next(s, w, step);
    var steps :| Runs(s, Idle(0.0), steps) && After(s, Idle(0.0), steps) == w;
    Then(s, Idle(0.0), steps, step);
  }

  /** The first `n` requests have been answered and there were no others. */
  ghost predicate Calm(w: World, n: nat) {
    forall c :: c in w.flights ==> c < n && w.flights[c].phase.Answered?
  }

  /** The IP has a bucket, and so many tokens are on hand in it. */
  predicate Stocked(s: Setting, w: World, ip: string, tokens: real) {
    Stands(w, ip) && Available(w.limiters[w.entries[ip]].bucket, s.rate, w.now) == tokens
  }

  predicate SameWalk(w: World, w': World) {
    w'.now == w.now && w'.sweep == w.sweep && w'.doomed == w.doomed
  }

  function Instant(w: World, ip: string): nat {
    Tally(Of(ip, w.now, w.now), w.grants)
  }

  /** Only request `n` is still to be answered, and it read the clock just now. */
  ghost predicate UnderWay(w: World, n: nat, ip: string, p: Phase) {
    && n in w.flights && w.flights[n] == Flight(ip, w.now, p)
    && forall c :: c in w.flights && c != n ==> c < n && w.flights[c].phase.Answered?
  }

  lemma BothPrompt(s: Setting, w: World, n: nat, ip: string, p: Phase)
    requires s.Lawful()
    ensures Calm(w, n) || UnderWay(w, n, ip, p) ==> Prompt(s, w)
  {
  }

  lemma Arrives(s: Setting, w: World, ip: string, n: nat) returns (w': World)
    requires s.Lawful() && Reachable(s, w) && Calm(w, n)
    ensures Reachable(s, w') && UnderWay(w', n, ip, Looking)
    ensures w' == w.(flights := w'.flights)
  {
    BothPrompt(s, w, n, ip, Looking);
    w' := Go(s, w, Arrive(n, ip));
  }

  /** Taking from a bucket that holds enough. */
  lemma TakeOne(s: Setting, w: World, ip: string, n: nat, tokens: real) returns (w': World)
    requires s.Lawful() && Reachable(s, w) && Stocked(s, w, ip, tokens) && 1.0 <= tokens <= s.rate
    requires UnderWay(w, n, ip, Holding(w.entries[ip]))
    ensures Reachable(s, w') && Calm(w', n + 1) && SameWalk(w, w') && Stocked(s, w', ip, tokens - 1.0)
    ensures Instant(w', ip) == Instant(w, ip) + 1
  {
    BothPrompt(s, w, n, ip, Holding(w.entries[ip]));
    w' := Go(s, w, Take(n));
    NoTimeNoTokens(s.rate);
    TallySnoc(Of(ip, w.now, w.now), w.grants, Grant(w.entries[ip], ip, w.now));
  }

  lemma FindOne(s: Setting, w: World, ip: string, n: nat, tokens: real) returns (w': World)
    requires s.Lawful() && Reachable(s, w) && Stocked(s, w, ip, tokens) && UnderWay(w, n, ip, Looking)
    ensures Reachable(s, w') && Stocked(s, w', ip, tokens) && UnderWay(w', n, ip, Holding(w'.entries[ip]))
    ensures SameWalk(w, w') && w'.grants == w.grants
  {
    BothPrompt(s, w, n, ip, Looking);
    var found := Go(s, w, Load(n));
    w' := TouchOne(s, found, ip, n, tokens);
  }

  lemma TouchOne(s: Setting, w: World, ip: string, n: nat, tokens: real) returns (w': World)
    requires s.Lawful() && Reachable(s, w) && Stocked(s, w, ip, tokens) && UnderWay(w, n, ip, Found(w.entries[ip]))
    ensures Reachable(s, w') && Stocked(s, w', ip, tokens) && UnderWay(w', n, ip, Holding(w'.entries[ip]))
    ensures SameWalk(w, w') && w'.grants == w.grants
  {
    BothPrompt(s, w, n, ip, Found(w.entries[ip]));
    w' := Go(s, w, Touch(n));
    SeenIsOnlyAHint(w.limiters[w.entries[ip]].bucket, w.now, s.rate, w.now);
  }

  lemma StoreOne(s: Setting, w: World, ip: string, n: nat) returns (w': World)
    requires s.Lawful() && Reachable(s, w) && ip !in w.entries && UnderWay(w, n, ip, Looking)
    ensures Reachable(s, w') && Stocked(s, w', ip, s.rate) && UnderWay(w', n, ip, Holding(w'.entries[ip]))
    ensures SameWalk(w, w') && w'.grants == w.grants
  {
    BothPrompt(s, w, n, ip, Looking);
    var missed := Go(s, w, Load(n));
    BothPrompt(s, missed, n, ip, Missed);
    w' := Go(s, missed, Store(n));
    NoTimeNoTokens(s.rate);
  }

  /** `k` requests one after the other, all at one instant, on a bucket with enough. */
  lemma {:induction false} ServeMany(s: Setting, w: World, ip: string, n: nat, tokens: real, k: nat)
      returns (w': World)
    requires s.Lawful() && Reachable(s, w) && Calm(w, n) && Stocked(s, w, ip, tokens) && k as real <= tokens <= s.rate
    ensures Reachable(s, w') && Calm(w', n + k) && SameWalk(w, w') && Stocked(s, w', ip, tokens - k as real)
    ensures Instant(w', ip) == Instant(w, ip) + k
    decreases k
  {
    if k == 0 {
      w' := w;
    } else {
      var came := Arrives(s, w, ip, n);
      var holds := FindOne(s, came, ip, n, tokens);
      var served := TakeOne(s, holds, ip, n, tokens);
      w' := ServeMany(s, served, ip, n + 1, tokens - 1.0, k - 1);
    }
  }

  /** The same with the first of them finding no bucket. */
  lemma ServeNew(s: Setting, w: World, ip: string, n: nat, k: nat) returns (w': World)
    requires s.Lawful() && Reachable(s, w) && Calm(w, n) && ip !in w.entries && 1 <= k && k as real <= s.rate
    ensures Reachable(s, w') && Calm(w', n + k) && SameWalk(w, w') && Stocked(s, w', ip, s.rate - k as real)
    ensures Instant(w', ip) == Instant(w, ip) + k
  {
    var came := Arrives(s, w, ip, n);
    var holds := StoreOne(s, came, ip, n);
    var served := TakeOne(s, holds, ip, n, s.rate);
    w' := ServeMany(s, served, ip, n + 1, s.rate - 1.0, k - 1);
  }

  lemma FullAgain(b: Bucket, rate: real, now: real)
    requires rate >= 1.0 && b.tokens >= 0.0 && now - b.last >= 1.0
    ensures Available(b, rate, now) == rate
  {
    RefillFacts(rate, now - b.last);
  }

  /** A bucket left alone for long enough is full, and the walk picks it for deletion. */
  lemma LeftAlone(s: Setting, w: World, ip: string, n: nat) returns (w': World)
    requires s.Lawful() && Reachable(s, w) && Calm(w, n) && Stands(w, ip) && w.sweep.None? && w.doomed.None?
    requires SoundLimiter(s, w, w.entries[ip])
    ensures Reachable(s, w') && Calm(w', n) && w'.doomed == Some(ip) && Stocked(s, w', ip, s.rate)
    ensures w'.grants == w.grants && w'.now > w.now
  {
    var b := w.limiters[w.entries[ip]].bucket;
    var later := Go(s, w, Pass(w.now + s.maxAge + 1.0));
    var walking := Go(s, later, StartWalk);
    w' := Go(s, walking, Compare(ip));
    FullAgain(b, s.rate, w'.now);
  }

  lemma ReachableKeepsInv(s: Setting, w: World)
    requires s.Lawful() && Reachable(s, w)
    ensures Inv(s, w)
  {
    var steps :| Runs(s, Idle(0.0), steps) && After(s, Idle(0.0), steps) == w;
    EveryRunKeepsInv(s, 0.0, steps);
  }

  lemma NothingGranted(w: World, ip: string)
    requires w.grants == []
    ensures Instant(w, ip) == 0
  {
  }

  lemma NothingYet(w: World, ip: string)
    requires forall g :: g in w.grants ==> g.time < w.now
    ensures Instant(w, ip) == 0
  {
    TallyNone(Of(ip, w.now, w.now), w.grants);
  }

  lemma AllEarlier(s: Setting, w: World, w': World)
    requires Inv(s, w) && w'.grants == w.grants && w'.now > w.now
    ensures forall g :: g in w'.grants ==> g.time < w'.now
  {
    forall g | g in w'.grants
      ensures g.time < w'.now
    {
      assert SoundGrant(s, w, g);
    }
  }

  /** Between the comparison and the deletion the old bucket still serves a full burst,
      and the new one serves another right after: the bound is met with no delay at all,
      in a window of length zero. */
  lemma TwoBurstsPass(s: Setting, k: nat) returns (w: World)
    requires s.Lawful() && k >= 1 && s.rate == k as real
    ensures Reachable(s, w) && Instant(w, "a") == 2 * k
  {
    var start := Idle(0.0);
    assert After(s, start, []) == start;
    var once := ServeNew(s, start, "a", 0, 1);
    ReachableKeepsInv(s, once);
    assert SoundLimiter(s, once, once.entries["a"]);
    var doomed := LeftAlone(s, once, "a", 1);
    AllEarlier(s, once, doomed);
    NothingYet(doomed, "a");
    var drained := ServeMany(s, doomed, "a", 1, s.rate, k);
    var gone := Go(s, drained, Delete);
    w := ServeNew(s, gone, "a", 1 + k, k);
  }

  // ----- Slow requests -----------------------------------------------------------------

  predicate HoldsFull(s: Setting, w: World, ip: string, c: nat) {
    && c < |w.limiters| && c in w.flights
    && w.flights[c].ip == ip && w.flights[c].phase == Holding(c)
    && w.limiters[c].bucket.tokens == s.rate && w.limiters[c].bucket.last <= w.now
  }

  ghost predicate Patient(s: Setting, w: World) {
    w.now <= s.delay && forall c :: c in w.flights ==> 0.0 <= w.flights[c].read
  }

  /** `n` requests, each holding a full bucket of its own. */
  ghost predicate Hoarded(s: Setting, w: World, ip: string, n: nat) {
    && |w.limiters| == n && w.sweep == None && w.doomed == None && w.grants == []
    && (forall c: nat :: c in w.flights <==> c < n)
    && (forall c: nat :: c < n ==> HoldsFull(s, w, ip, c))
  }

  lemma StillHolds(s: Setting, w: World, w': World, ip: string, c: nat)
    requires HoldsFull(s, w, ip, c) && c < |w'.limiters| && w'.limiters[c].bucket == w.limiters[c].bucket
    requires c in w'.flights && w'.flights[c] == w.flights[c] && w.now <= w'.now
    ensures HoldsFull(s, w', ip, c)
  {
  }

  lemma MissOne(s: Setting, w: World, ip: string, n: nat) returns (w': World)
    requires Reachable(s, w) && 0.0 <= w.now && Patient(s, w) && n !in w.flights && ip !in w.entries
    ensures Reachable(s, w') && Patient(s, w') && w' == Loaded(s, w, n, ip)
  {
    var came := Go(s, w, Arrive(n, ip));
    assert Patient(s, came);
    w' := Go(s, came, Load(n));
  }

  /** The next request stores a bucket and is held up before it takes a token. */
  lemma HoardOne(s: Setting, w: World, ip: string, n: nat) returns (w': World)
    requires Reachable(s, w) && 0.0 <= w.now && Patient(s, w) && Hoarded(s, w, ip, n) && w.entries == map[]
    ensures Reachable(s, w') && Hoarded(s, w', ip, n + 1) && w'.entries == map[ip := n]
    ensures Patient(s, w') && w'.now == w.now
    ensures w'.limiters[n].bucket.lastSeen == w.now
  {
    var missed := MissOne(s, w, ip, n);
    w' := Go(s, missed, Store(n));
    forall c: nat | c < n
      ensures HoldsFull(s, w', ip, c)
    {
      StillHolds(s, w, w', ip, c);
    }
    assert HoldsFull(s, w', ip, n);
  }

  lemma HoardKept(s: Setting, w: World, w': World, ip: string, n: nat)
    requires Hoarded(s, w, ip, n) && w'.flights == w.flights && w.now <= w'.now
    requires |w'.limiters| == n && w'.sweep == None && w'.doomed == None && w'.grants == []
    requires forall c: nat :: c < n ==> w'.limiters[c].bucket == w.limiters[c].bucket
    ensures Hoarded(s, w', ip, n)
  {
    forall c: nat | c < n
      ensures HoldsFull(s, w', ip, c)
    {
      StillHolds(s, w, w', ip, c);
    }
  }

  /** The time it takes the walk to lose `n` buckets. */
  function Span(s: Setting, n: nat): real {
    if n == 0 then 0.0 else Span(s, n - 1) + s.maxAge + 1.0
  }

  lemma {:induction false} SpanIsProduct(s: Setting, n: nat)
    ensures Span(s, n) == n as real * (s.maxAge + 1.0)
  {
    if n == 0 {
    } else {
      SpanIsProduct(s, n - 1);
      assert n as real == (n - 1) as real + 1.0;
    }
  }

  /** Long after, the walk picks that bucket. */
  lemma DoomLast(s: Setting, w: World, ip: string, n: nat) returns (w': World)
    requires s.Lawful() && Reachable(s, w) && Patient(s, w) && w.now + s.maxAge + 1.0 <= s.delay
    requires Hoarded(s, w, ip, n + 1) && w.entries == map[ip := n] && w.limiters[n].bucket.lastSeen == w.now
    ensures Reachable(s, w') && Patient(s, w')
    ensures w'.limiters == w.limiters && w'.entries == w.entries && w'.flights == w.flights && w'.grants == w.grants
    ensures w'.now == w.now + s.maxAge + 1.0 && w'.sweep.Some? && w'.doomed == Some(ip)
  {
    var later := Go(s, w, Pass(w.now + s.maxAge + 1.0));
    assert later.flights == w.flights && Patient(s, later);
    var walking := Go(s, later, StartWalk);
    assert walking.flights == w.flights && Patient(s, walking);
    w' := Go(s, walking, Compare(ip));
    assert w'.flights == w.flights;
  }

  /** And deletes it from the map. */
  lemma LoseLast(s: Setting, w: World, ip: string, n: nat) returns (w': World)
    requires s.Lawful() && Reachable(s, w) && Patient(s, w) && w.now + s.maxAge + 1.0 <= s.delay
    requires Hoarded(s, w, ip, n + 1) && w.entries == map[ip := n] && w.limiters[n].bucket.lastSeen == w.now
    ensures Reachable(s, w') && Hoarded(s, w', ip, n + 1) && w'.entries == map[]
    ensures Patient(s, w') && w'.now == w.now + s.maxAge + 1.0
  {
    var doomed := DoomLast(s, w, ip, n);
    var gone := Go(s, doomed, Delete);
    assert Patient(s, gone);
    w' := Go(s, gone, EndWalk);
    HoardKept(s, w, w', ip, n + 1);
  }

  ghost predicate HoardedFor(s: Setting, w: World, ip: string, n: nat) {
    && Reachable(s, w) && Hoarded(s, w, ip, n) && w.entries == map[]
    && Patient(s, w) && 0.0 <= w.now == Span(s, n)
  }

  lemma HoardNone(s: Setting, ip: string)
    requires s.Lawful()
    ensures HoardedFor(s, Idle(0.0), ip, 0)
  {
    assert After(s, Idle(0.0), []) == Idle(0.0);
  }

  lemma HoardMore(s: Setting, w: World, ip: string, n: nat) returns (w': World)
    requires s.Lawful() && HoardedFor(s, w, ip, n) && Span(s, n + 1) <= s.delay
    ensures HoardedFor(s, w', ip, n + 1)
  {
    var stored := HoardOne(s, w, ip, n);
    w' := LoseLast(s, stored, ip, n);
  }

  lemma {:induction false} Hoard(s: Setting, ip: string, n: nat) returns (w: World)
    requires s.Lawful() && Span(s, n) <= s.delay
    ensures HoardedFor(s, w, ip, n)
  {
    if n == 0 {
      w := Idle(0.0);
      HoardNone(s, ip);
    } else {
      var fewer := Hoard(s, ip, n - 1);
      w := HoardMore(s, fewer, ip, n - 1);
    }
  }

  /** The first `k` of the hoarders have taken their tokens. */
  ghost predicate Taken(s: Setting, w: World, ip: string, n: nat, k: nat) {
    && (forall c: nat :: c in w.flights <==> c < n)
    && (forall c: nat :: k <= c < n ==> HoldsFull(s, w, ip, c))
    && Instant(w, ip) == k
  }

  lemma TakeNext(s: Setting, w: World, ip: string, n: nat, k: nat) returns (w': World)
    requires s.Lawful() && Reachable(s, w) && Patient(s, w) && Taken(s, w, ip, n, k) && k < n
    ensures Reachable(s, w') && Patient(s, w') && Taken(s, w', ip, n, k + 1) && w'.now == w.now
  {
    assert HoldsFull(s, w, ip, k);
    w' := Go(s, w, Take(k));
    TakeEffect(s, w, ip, k);
    TallySnoc(Of(ip, w.now, w.now), w.grants, Grant(k, ip, w.now));
    forall c: nat | k + 1 <= c < n
      ensures HoldsFull(s, w', ip, c)
    {
      StillHolds(s, w, w', ip, c);
    }
  }

  lemma TakeEffect(s: Setting, w: World, ip: string, c: nat)
    requires s.Lawful() && HoldsFull(s, w, ip, c)
    ensures var w' := Next(s, w, Take(c));
      && w'.now == w.now && w'.grants == w.grants + [Grant(c, ip, w.now)] && w'.flights == Moved(w, c, Answered)
      && |w'.limiters| == |w.limiters|
      && forall d :: 0 <= d < |w.limiters| && d != c ==> w'.limiters[d] == w.limiters[d]
  {
    RefillFacts(s.rate, w.now - w.limiters[c].bucket.last);
  }

  lemma {:induction false} TakeUpTo(s: Setting, w: World, ip: string, n: nat, k: nat) returns (w': World)
    requires s.Lawful() && Reachable(s, w) && Patient(s, w) && Taken(s, w, ip, n, 0) && k <= n
    ensures Reachable(s, w') && Patient(s, w') && Taken(s, w', ip, n, k) && w'.now == w.now
  {
    if k == 0 {
      w' := w;
    } else {
      var before := TakeUpTo(s, w, ip, n, k - 1);
      w' := TakeNext(s, before, ip, n, k - 1);
    }
  }

  /** No burst bounds what slow requests can do: if a request may be held up for `n`
      idle times, `n` requests of one IP can pass at one instant, whatever the rate. */
  lemma SlowRequestsPass(s: Setting, ip: string, n: nat) returns (w: World)
    requires s.Lawful() && n as real * (s.maxAge + 1.0) <= s.delay
    ensures Reachable(s, w) && Instant(w, ip) == n
  {
    SpanIsProduct(s, n);
    var full := Hoard(s, ip, n);
    NothingGranted(full, ip);
    w := TakeUpTo(s, full, ip, n, n);
  }
}
