/** Concurrent requests against the rate limiter (internal/middleware/ratelimit.go).
    A request reads the clock, loads its bucket, stores a new one if there was none,
    marks it as seen and takes a token; the eviction walk reads the clock, compares an
    age and deletes an entry. Each of these is a step of its own here, so a request can
    hold a bucket the walk has already deleted. */
module RateLimitRaces {
  import opened Models
  import opened RateLimit

  /** `delay` is how long a request may take from reading the clock to its answer. */
  datatype Setting = Setting(rate: real, maxAge: real, delay: real) {
    predicate Lawful() {
      rate >= 1.0 && maxAge >= 0.0 && delay >= 0.0
    }
  }

  /** A bucket, and when the map got it and lost it. */
  datatype Limiter = Limiter(ip: string, bucket: Bucket, born: real, died: Option<real>)

  datatype Phase =
    | Looking          // about to load the bucket
    | Missed           // found none; about to store one unless there is one by then
    | Found(id: nat)   // about to mark it as seen
    | Holding(id: nat) // about to take a token
    | Answered

  datatype Flight = Flight(ip: string, read: real, phase: Phase)

  datatype Grant = Grant(id: nat, ip: string, time: real)

  /** Buckets keep their number after the map has lost them. `sweep` is the time the
      walk read, `doomed` the entry it is about to delete; `grants` logs the requests
      let through. */
  datatype World = World(
    now: real,
    limiters: seq<Limiter>,
    entries: map<string, nat>,
    flights: map<nat, Flight>,
    sweep: Option<real>,
    doomed: Option<string>,
    grants: seq<Grant>)

  datatype Step =
    | Pass(time: real)
    | Arrive(c: nat, ip: string)
    | Load(c: nat)
    | Store(c: nat)
    | Touch(c: nat)
    | Take(c: nat)
    | StartWalk
    | Compare(ip: string)
    | Delete
    | EndWalk

  predicate Stands(w: World, ip: string) {
    ip in w.entries && w.entries[ip] < |w.limiters|
  }

  predicate Enabled(w: World, step: Step) {
    match step
    case Pass(time) => w.now <= time
    case Arrive(c, ip) => c !in w.flights
    case Load(c) => c in w.flights && w.flights[c].phase.Looking?
    case Store(c) => c in w.flights && w.flights[c].phase.Missed?
    case Touch(c) => c in w.flights && w.flights[c].phase.Found? && w.flights[c].phase.id < |w.limiters|
    case Take(c) => c in w.flights && w.flights[c].phase.Holding? && w.flights[c].phase.id < |w.limiters|
    case StartWalk => w.sweep.None?
    case Compare(ip) => w.sweep.Some? && w.doomed.None? && Stands(w, ip)
    case Delete => w.doomed.Some? && Stands(w, w.doomed.value)
    case EndWalk => w.sweep.Some? && w.doomed.None?
  }

  function Moved(w: World, c: nat, p: Phase): map<nat, Flight>
    requires c in w.flights
  {
    w.flights[c := w.flights[c].(phase := p)]
  }

  function WithBucket(w: World, id: nat, b: Bucket): seq<Limiter>
    requires id < |w.limiters|
  {
    w.limiters[id := w.limiters[id].(bucket := b)]
  }

  function Next(s: Setting, w: World, step: Step): World
    requires Enabled(w, step)
  {
    match step
    case Pass(time) => w.(now := time)
    case Arrive(c, ip) => w.(flights := w.flights[c := Flight(ip, w.now, Looking)])
    case Load(c) =>
      var ip := w.flights[c].ip;
      w.(flights := Moved(w, c, if ip in w.entries then Found(w.entries[ip]) else Missed))
    case Store(c) =>
      var f := w.flights[c];
      if f.ip in w.entries then w.(flights := Moved(w, c, Found(w.entries[f.ip])))
      else
        var full := Limiter(f.ip, Bucket(s.rate, w.now, f.read), w.now, None);
        w.(limiters := w.limiters + [full],
           entries := w.entries[f.ip := |w.limiters|],
           flights := Moved(w, c, Holding(|w.limiters|)))
    case Touch(c) =>
      var f := w.flights[c];
      w.(limiters := WithBucket(w, f.phase.id, w.limiters[f.phase.id].bucket.(lastSeen := f.read)),
         flights := Moved(w, c, Holding(f.phase.id)))
    case Take(c) =>
      var f := w.flights[c];
      var tokens := Available(w.limiters[f.phase.id].bucket, s.rate, w.now);
      w.(limiters := WithBucket(w, f.phase.id, w.limiters[f.phase.id].bucket.(tokens := Spent(tokens), last := w.now)),
         flights := Moved(w, c, Answered),
         grants := w.grants + if tokens >= 1.0 then [Grant(f.phase.id, f.ip, w.now)] else [])
    case StartWalk => w.(sweep := Some(w.now))
    case Compare(ip) =>
      if w.sweep.value - w.limiters[w.entries[ip]].bucket.lastSeen > s.maxAge then w.(doomed := Some(ip)) else w
    case Delete =>
      var ip := w.doomed.value;
      var id := w.entries[ip];
      w.(limiters := w.limiters[id := w.limiters[id].(died := Some(w.now))],
         entries := w.entries - {ip},
         doomed := None)
    case EndWalk => w.(sweep := None)
  }

  /** No request in flight has been under way for longer than the delay. */
  ghost predicate Prompt(s: Setting, w: World) {
    forall c :: c in w.flights && !w.flights[c].phase.Answered? ==> w.now - w.flights[c].read <= s.delay
  }

  ghost predicate Runs(s: Setting, w: World, steps: seq<Step>) {
    if |steps| == 0 then true
    else
      var n := |steps| - 1;
      var before := After(s, w, steps[..n]);
      Runs(s, w, steps[..n]) && Prompt(s, before) && Enabled(before, steps[n])
  }

  ghost function After(s: Setting, w: World, steps: seq<Step>): World {
    if |steps| == 0 then w
    else
      var n := |steps| - 1;
      var before := After(s, w, steps[..n]);
      if Enabled(before, steps[n]) then Next(s, before, steps[n]) else before
  }

  function Idle(now: real): World {
    World(now, [], map[], map[], None, None, [])
  }

  // ----- What every run keeps ----------------------------------------------------------

  /** The walk needs an idle time of `maxAge`, and the mark it reads is at most `delay`
      older than the last touch. */
  predicate OldEnough(s: Setting, l: Limiter, time: real) {
    l.born + s.maxAge - s.delay < time
  }

  predicate SoundLimiter(s: Setting, w: World, id: nat)
    requires id < |w.limiters|
  {
    var l := w.limiters[id];
    && 0.0 <= l.bucket.tokens <= s.rate && l.born <= l.bucket.last <= w.now
    && l.born - s.delay <= l.bucket.lastSeen <= w.now
    && (l.died.None? ==> l.ip in w.entries && w.entries[l.ip] == id)
    && (l.died.Some? ==> OldEnough(s, l, l.died.value) && l.died.value <= w.now)
  }

  predicate SoundEntry(w: World, ip: string) {
    Stands(w, ip) && w.limiters[w.entries[ip]].ip == ip && w.limiters[w.entries[ip]].died.None?
  }

  predicate Holds(f: Flight) {
    f.phase.Found? || f.phase.Holding?
  }

  /** Who holds a deleted bucket read the clock before it was deleted. */
  predicate SoundFlight(w: World, f: Flight) {
    && f.read <= w.now
    && (Holds(f) ==>
          && f.phase.id < |w.limiters|
          && w.limiters[f.phase.id].ip == f.ip
          && (w.limiters[f.phase.id].died.Some? ==> f.read <= w.limiters[f.phase.id].died.value))
  }

  predicate SoundGrant(s: Setting, w: World, g: Grant) {
    && g.id < |w.limiters| && w.limiters[g.id].ip == g.ip
    && w.limiters[g.id].born <= g.time <= w.now
    && (w.limiters[g.id].died.Some? ==> g.time <= w.limiters[g.id].died.value + s.delay)
  }

  /** Of two buckets of one IP the earlier was deleted before the later was stored. */
  predicate InSuccession(w: World, i: nat, j: nat)
    requires i < j < |w.limiters|
  {
    w.limiters[i].ip == w.limiters[j].ip ==>
      w.limiters[i].died.Some? && w.limiters[i].died.value <= w.limiters[j].born
  }

  predicate SoundWalk(s: Setting, w: World) {
    && (w.sweep.Some? ==> w.sweep.value <= w.now)
    && (w.doomed.Some? ==>
          && w.sweep.Some? && Stands(w, w.doomed.value)
          && OldEnough(s, w.limiters[w.entries[w.doomed.value]], w.sweep.value))
  }

  ghost predicate Inv(s: Setting, w: World) {
    && (forall id :: 0 <= id < |w.limiters| ==> SoundLimiter(s, w, id))
    && (forall ip :: ip in w.entries ==> SoundEntry(w, ip))
    && (forall c :: c in w.flights ==> SoundFlight(w, w.flights[c]))
    && (forall g :: g in w.grants ==> SoundGrant(s, w, g))
    && (forall i, j :: 0 <= i < j < |w.limiters| ==> InSuccession(w, i, j))
    && SoundWalk(s, w)
  }

  lemma LimiterStays(s: Setting, w: World, step: Step, id: nat)
    requires s.Lawful() && Inv(s, w) && Prompt(s, w) && Enabled(w, step)
    requires id < |Next(s, w, step).limiters|
    ensures SoundLimiter(s, Next(s, w, step), id)
  {
    assert id < |w.limiters| ==> SoundLimiter(s, w, id);
    if step.Take? && id == w.flights[step.c].phase.id {
      RefillFacts(s.rate, w.now - w.limiters[id].bucket.last);
    } else if step.Touch? || step.Store? {
      assert SoundFlight(w, w.flights[step.c]);
    } else if step.Delete? {
      assert SoundEntry(w, w.doomed.value);
    }
  }

  lemma SuccessionStays(s: Setting, w: World, step: Step, i: nat, j: nat)
    requires s.Lawful() && Inv(s, w) && Prompt(s, w) && Enabled(w, step)
    requires i < j < |Next(s, w, step).limiters|
    ensures InSuccession(Next(s, w, step), i, j)
  {
    assert SoundLimiter(s, w, i);
    assert j < |w.limiters| ==> InSuccession(w, i, j);
  }

  lemma EntryStays(s: Setting, w: World, step: Step, ip: string)
    requires s.Lawful() && Inv(s, w) && Prompt(s, w) && Enabled(w, step)
    requires ip in Next(s, w, step).entries
    ensures SoundEntry(Next(s, w, step), ip)
  {
    assert ip in w.entries ==> SoundEntry(w, ip);
    if step.Delete? {
      assert SoundEntry(w, w.doomed.value);
    }
  }

  lemma FlightStays(s: Setting, w: World, step: Step, c: nat)
    requires s.Lawful() && Inv(s, w) && Prompt(s, w) && Enabled(w, step)
    requires c in Next(s, w, step).flights
    ensures SoundFlight(Next(s, w, step), Next(s, w, step).flights[c])
  {
    assert c in w.flights ==> SoundFlight(w, w.flights[c]);
    if step.Load? || step.Store? {
      var ip := w.flights[step.c].ip;
      assert ip in w.entries ==> SoundEntry(w, ip);
    }
  }

  lemma GrantStays(s: Setting, w: World, step: Step, g: Grant)
    requires s.Lawful() && Inv(s, w) && Prompt(s, w) && Enabled(w, step)
    requires g in Next(s, w, step).grants
    ensures SoundGrant(s, Next(s, w, step), g)
  {
    if g in w.grants {
      assert SoundGrant(s, w, g);
    } else {
      var f := w.flights[step.c];
      assert SoundFlight(w, f) && SoundLimiter(s, w, f.phase.id);
    }
  }

  lemma WalkStays(s: Setting, w: World, step: Step)
    requires s.Lawful() && Inv(s, w) && Prompt(s, w) && Enabled(w, step)
    ensures SoundWalk(s, Next(s, w, step))
  {
    if step.Compare? {
      assert SoundEntry(w, step.ip) && SoundLimiter(s, w, w.entries[step.ip]);
    }
  }

  lemma InvStep(s: Setting, w: World, step: Step)
    requires s.Lawful() && Inv(s, w) && Prompt(s, w) && Enabled(w, step)
    ensures Inv(s, Next(s, w, step))
  {
    var w' := Next(s, w, step);
    forall id | 0 <= id < |w'.limiters|
      ensures SoundLimiter(s, w', id)
    {
      LimiterStays(s, w, step, id);
    }
    forall ip | ip in w'.entries
      ensures SoundEntry(w', ip)
    {
      EntryStays(s, w, step, ip);
    }
    forall c | c in w'.flights
      ensures SoundFlight(w', w'.flights[c])
    {
      FlightStays(s, w, step, c);
    }
    forall g | g in w'.grants
      ensures SoundGrant(s, w', g)
    {
      GrantStays(s, w, step, g);
    }
    forall i, j | 0 <= i < j < |w'.limiters|
      ensures InSuccession(w', i, j)
    {
      SuccessionStays(s, w, step, i, j);
    }
    WalkStays(s, w, step);
  }

  lemma {:induction false} EveryRunKeepsInv(s: Setting, now: real, steps: seq<Step>)
    requires s.Lawful() && Runs(s, Idle(now), steps)
    ensures Inv(s, After(s, Idle(now), steps))
  {
    if |steps| == 0 {
    } else {
      var n := |steps| - 1;
      EveryRunKeepsInv(s, now, steps[..n]);
      InvStep(s, After(s, Idle(now), steps[..n]), steps[n]);
    }
  }

  // ----- A request alone is served as before -------------------------------------------

  lemma Then(s: Setting, w: World, steps: seq<Step>, step: Step)
    requires Runs(s, w, steps) && Prompt(s, After(s, w, steps)) && Enabled(After(s, w, steps), step)
    ensures Runs(s, w, steps + [step]) && After(s, w, steps + [step]) == Next(s, After(s, w, steps), step)
  {
    assert (steps + [step])[..|steps|] == steps;
  }

  /** The buckets the map has. */
  function View(w: World): Buckets {
    map ip | ip in w.entries && w.entries[ip] < |w.limiters| :: w.limiters[w.entries[ip]].bucket
  }

  /** Request `c` is about to take from the bucket of its IP, and no other IP has that. */
  ghost predicate AboutToTake(w: World, c: nat, ip: string) {
    && Stands(w, ip)
    && c in w.flights && w.flights[c] == Flight(ip, w.now, Holding(w.entries[ip]))
    && forall other :: other in w.entries && other != ip ==> Stands(w, other) && w.entries[other] != w.entries[ip]
  }

  function Lookup(w: World, c: nat, ip: string): seq<Step> {
    [Arrive(c, ip)] + [Load(c)] + [if ip in w.entries then Touch(c) else Store(c)]
  }

  /** What the two or three steps of a look-up come to. */
  predicate LookedUp(s: Setting, w: World, held: World, ip: string) {
    && held.now == w.now && held.grants == w.grants
    && View(held) == View(w)[ip := BucketFor(View(w), ip, s.rate, w.now).(lastSeen := w.now)]
  }

  lemma EntriesApart(s: Setting, w: World, ip: string, other: string)
    requires Inv(s, w) && other in w.entries && other != ip
    ensures Stands(w, other) && (ip in w.entries ==> Stands(w, ip) && w.entries[other] != w.entries[ip])
  {
    assert SoundEntry(w, other) && (ip in w.entries ==> SoundEntry(w, ip));
  }

  function Loaded(s: Setting, w: World, c: nat, ip: string): (loaded: World)
    requires c !in w.flights
    ensures loaded == w.(flights := loaded.flights) && c in loaded.flights
    ensures loaded.flights[c] == Flight(ip, w.now, if ip in w.entries then Found(w.entries[ip]) else Missed)
    ensures forall d :: d != c ==> (d in loaded.flights <==> d in w.flights)
    ensures forall d :: d != c && d in w.flights ==> loaded.flights[d] == w.flights[d]
  {
    Next(s, Next(s, w, Arrive(c, ip)), Load(c))
  }

  lemma TouchFound(s: Setting, w: World, c: nat, ip: string)
    requires Inv(s, w) && c !in w.flights && ip in w.entries
    ensures Enabled(Loaded(s, w, c, ip), Touch(c))
    ensures var held := Next(s, Loaded(s, w, c, ip), Touch(c));
      AboutToTake(held, c, ip) && LookedUp(s, w, held, ip)
  {
    assert SoundEntry(w, ip);
    forall other | other in w.entries && other != ip
      ensures Stands(w, other) && w.entries[other] != w.entries[ip]
    {
      EntriesApart(s, w, ip, other);
    }
  }

  lemma StoreMissed(s: Setting, w: World, c: nat, ip: string)
    requires Inv(s, w) && c !in w.flights && ip !in w.entries
    ensures Enabled(Loaded(s, w, c, ip), Store(c))
    ensures var held := Next(s, Loaded(s, w, c, ip), Store(c));
      AboutToTake(held, c, ip) && LookedUp(s, w, held, ip)
  {
    forall other | other in w.entries && other != ip
      ensures Stands(w, other)
    {
      EntriesApart(s, w, ip, other);
    }
  }

  lemma LookupRuns(s: Setting, w: World, c: nat, ip: string)
    requires s.Lawful() && Inv(s, w) && Prompt(s, w) && c !in w.flights
    ensures var loaded := [Arrive(c, ip)] + [Load(c)];
      Runs(s, w, loaded) && After(s, w, loaded) == Loaded(s, w, c, ip) && Prompt(s, Loaded(s, w, c, ip))
  {
    Then(s, w, [], Arrive(c, ip));
    assert [] + [Arrive(c, ip)] == [Arrive(c, ip)];
    Then(s, w, [Arrive(c, ip)], Load(c));
  }

  lemma LookupAlone(s: Setting, w: World, c: nat, ip: string) returns (held: World)
    requires s.Lawful() && Inv(s, w) && Prompt(s, w) && c !in w.flights
    ensures Runs(s, w, Lookup(w, c, ip)) && held == After(s, w, Lookup(w, c, ip)) && Prompt(s, held)
    ensures AboutToTake(held, c, ip) && LookedUp(s, w, held, ip)
  {
    var third := if ip in w.entries then Touch(c) else Store(c);
    LookupRuns(s, w, c, ip);
    if ip in w.entries {
      TouchFound(s, w, c, ip);
    } else {
      StoreMissed(s, w, c, ip);
    }
    Then(s, w, [Arrive(c, ip)] + [Load(c)], third);
    held := Next(s, Loaded(s, w, c, ip), third);
  }

  lemma TakeAlone(s: Setting, w: World, c: nat, ip: string)
    requires AboutToTake(w, c, ip)
    ensures var w' := Next(s, w, Take(c));
      var tokens := Available(View(w)[ip], s.rate, w.now);
      && View(w') == View(w)[ip := View(w)[ip].(tokens := Spent(tokens), last := w.now)]
      && w'.grants == w.grants + if tokens >= 1.0 then [Grant(w.entries[ip], ip, w.now)] else []
  {
  }

  /** Uninterrupted, the steps of a request answer and leave the buckets as the one
      step of the atomic limiter does. */
  lemma AloneIsServe(s: Setting, w: World, c: nat, ip: string)
    requires s.Lawful() && Inv(s, w) && Prompt(s, w) && c !in w.flights
    ensures Runs(s, w, Lookup(w, c, ip) + [Take(c)])
    ensures var w' := After(s, w, Lookup(w, c, ip) + [Take(c)]);
      && View(w') == Requested(View(w), ip, s.rate, w.now)
      && |w'.grants| == |w.grants| + if Allows(View(w), ip, s.rate, w.now) then 1 else 0
  {
    var held := LookupAlone(s, w, c, ip);
    Then(s, w, Lookup(w, c, ip), Take(c));
    TakeAlone(s, held, c, ip);
    TouchThenSpend(View(w), View(held), ip, s.rate, w.now);
  }

  // ----- What one bucket lets through --------------------------------------------------

  function Tally(p: Grant -> bool, grants: seq<Grant>): nat {
    if |grants| == 0 then 0
    else Tally(p, grants[..|grants| - 1]) + (if p(grants[|grants| - 1]) then 1 else 0)
  }

  lemma TallySnoc(p: Grant -> bool, grants: seq<Grant>, g: Grant)
    ensures Tally(p, grants + [g]) == Tally(p, grants) + (if p(g) then 1 else 0)
  {
    assert (grants + [g])[..|grants|] == grants;
  }

  lemma {:induction false} TallyCovered(p: Grant -> bool, q: Grant -> bool, r: Grant -> bool, grants: seq<Grant>)
    requires forall g :: g in grants && p(g) ==> q(g) || r(g)
    ensures Tally(p, grants) <= Tally(q, grants) + Tally(r, grants)
  {
    if |grants| == 0 {
    } else {
      TallyCovered(p, q, r, grants[..|grants| - 1]);
      assert grants[|grants| - 1] in grants;
    }
  }

  lemma {:induction false} TallyNone(p: Grant -> bool, grants: seq<Grant>)
    requires forall g :: g in grants ==> !p(g)
    ensures Tally(p, grants) == 0
  {
    if |grants| == 0 {
    } else {
      TallyNone(p, grants[..|grants| - 1]);
      assert grants[|grants| - 1] in grants;
    }
  }

  /** Requests let through at a time in [lo, hi]: those of one IP, those by one bucket. */
  function Of(ip: string, lo: real, hi: real): Grant -> bool {
    (g: Grant) => g.ip == ip && lo <= g.time <= hi
  }

  function By(id: nat, lo: real, hi: real): Grant -> bool {
    (g: Grant) => g.id == id && lo <= g.time <= hi
  }

  /** Tokens taken since `lo` plus tokens left never exceed what the window supplied. */
  predicate WithinBudget(k: nat, b: Bucket, rate: real, lo: real, hi: real) {
    && (b.last < lo ==> k == 0)
    && (lo <= b.last <= hi ==> k as real + b.tokens <= rate + Refill(rate, b.last - lo))
    && k as real <= rate + Refill(rate, hi - lo)
  }

  lemma TakeWithinBudget(k: nat, b: Bucket, rate: real, lo: real, hi: real, now: real)
    requires rate >= 1.0 && lo <= hi && b.last <= now && 0.0 <= b.tokens <= rate && WithinBudget(k, b, rate, lo, hi)
    ensures var tokens := Available(b, rate, now);
      var k' := k + if tokens >= 1.0 && lo <= now <= hi then 1 else 0;
      WithinBudget(k', b.(tokens := Spent(tokens), last := now), rate, lo, hi)
  {
    RefillFacts(rate, hi - lo);
    RefillFacts(rate, now - b.last);
    if lo <= now <= hi {
      RefillFacts(rate, now - lo);
      if lo <= b.last {
        BudgetStep(k, b.tokens, b.last, now, rate, lo, hi);
      } else {
        BudgetStep(0, rate, lo, now, rate, lo, hi);
      }
    }
  }

  ghost predicate Budgeted(s: Setting, w: World, id: nat, lo: real, hi: real) {
    id < |w.limiters| ==> WithinBudget(Tally(By(id, lo, hi), w.grants), w.limiters[id].bucket, s.rate, lo, hi)
  }

  lemma BudgetStays(s: Setting, w: World, step: Step, id: nat, lo: real, hi: real)
    requires s.Lawful() && Inv(s, w) && Enabled(w, step) && lo <= hi && Budgeted(s, w, id, lo, hi)
    ensures Budgeted(s, Next(s, w, step), id, lo, hi)
  {
    var w' := Next(s, w, step);
    if id < |w.limiters| {
      assert SoundLimiter(s, w, id);
      if step.Take? {
        BudgetTaken(s, w, step.c, id, lo, hi);
      }
    } else if id < |w'.limiters| {
      forall g | g in w.grants
        ensures !By(id, lo, hi)(g)
      {
        assert SoundGrant(s, w, g);
      }
      TallyNone(By(id, lo, hi), w.grants);
      RefillFacts(s.rate, hi - lo);
      if lo <= w.now {
        RefillFacts(s.rate, w.now - lo);
      }
    }
  }

  lemma BudgetTaken(s: Setting, w: World, c: nat, id: nat, lo: real, hi: real)
    requires s.Lawful() && Enabled(w, Take(c)) && lo <= hi
    requires id < |w.limiters| && SoundLimiter(s, w, id) && Budgeted(s, w, id, lo, hi)
    ensures Budgeted(s, Next(s, w, Take(c)), id, lo, hi)
  {
    var taken := w.flights[c].phase.id;
    var g := Grant(taken, w.flights[c].ip, w.now);
    TallySnoc(By(id, lo, hi), w.grants, g);
    assert w.grants + [] == w.grants;
    if id == taken {
      TakeWithinBudget(Tally(By(id, lo, hi), w.grants), w.limiters[id].bucket, s.rate, lo, hi, w.now);
    }
  }

  lemma {:induction false} EveryRunIsBudgeted(s: Setting, now: real, steps: seq<Step>, id: nat, lo: real, hi: real)
    requires s.Lawful() && Runs(s, Idle(now), steps) && lo <= hi
    ensures Budgeted(s, After(s, Idle(now), steps), id, lo, hi)
  {
    if |steps| == 0 {
    } else {
      var n := |steps| - 1;
      EveryRunIsBudgeted(s, now, steps[..n], id, lo, hi);
      EveryRunKeepsInv(s, now, steps[..n]);
      BudgetStays(s, After(s, Idle(now), steps[..n]), steps[n], id, lo, hi);
    }
  }

  predicate BucketWithin(s: Setting, w: World, id: nat, lo: real, hi: real) {
    Tally(By(id, lo, hi), w.grants) as real <= s.rate + Refill(s.rate, hi - lo)
  }

  ghost predicate BucketsWithin(s: Setting, w: World) {
    forall id, lo, hi :: lo <= hi ==> BucketWithin(s, w, id, lo, hi)
  }

  /** However requests and walks interleave, one bucket lets at most rate + rate * T
      requests through in a window of length T. */
  lemma BucketBound(s: Setting, now: real, steps: seq<Step>, id: nat, lo: real, hi: real)
    requires s.Lawful() && Runs(s, Idle(now), steps) && lo <= hi
    ensures BucketWithin(s, After(s, Idle(now), steps), id, lo, hi)
  {
    var w := After(s, Idle(now), steps);
    EveryRunIsBudgeted(s, now, steps, id, lo, hi);
    EveryRunKeepsInv(s, now, steps);
    RefillFacts(s.rate, hi - lo);
    if id >= |w.limiters| {
      forall g | g in w.grants
        ensures !By(id, lo, hi)(g)
      {
        assert SoundGrant(s, w, g);
      }
      TallyNone(By(id, lo, hi), w.grants);
    }
  }

  // ----- What one IP gets through ------------------------------------------------------

  ghost predicate GrantIn(w: World, ip: string, lo: real, hi: real, g: Grant) {
    g in w.grants && Of(ip, lo, hi)(g)
  }

  /** Three buckets of one IP cannot all let requests through in a short window. */
  lemma ThreeTakeLong(s: Setting, w: World, ip: string, lo: real, hi: real, f: Grant, g: Grant, h: Grant)
    requires Inv(s, w) && f.id < g.id < h.id
    requires GrantIn(w, ip, lo, hi, f) && GrantIn(w, ip, lo, hi, g) && GrantIn(w, ip, lo, hi, h)
    ensures hi - lo > s.maxAge - 2.0 * s.delay
  {
    assert SoundGrant(s, w, f) && SoundGrant(s, w, g) && SoundGrant(s, w, h);
    assert InSuccession(w, f.id, g.id) && InSuccession(w, g.id, h.id);
    assert SoundLimiter(s, w, g.id);
  }

  lemma OnlyTwo(s: Setting, w: World, ip: string, lo: real, hi: real, f: Grant, g: Grant, h: Grant)
    requires Inv(s, w) && hi - lo <= s.maxAge - 2.0 * s.delay && f.id < g.id
    requires GrantIn(w, ip, lo, hi, f) && GrantIn(w, ip, lo, hi, g) && GrantIn(w, ip, lo, hi, h)
    ensures h.id == f.id || h.id == g.id
  {
    if h.id < f.id {
      ThreeTakeLong(s, w, ip, lo, hi, h, f, g);
    } else if f.id < h.id < g.id {
      ThreeTakeLong(s, w, ip, lo, hi, f, h, g);
    } else if g.id < h.id {
      ThreeTakeLong(s, w, ip, lo, hi, f, g, h);
    }
  }

  /** Of two buckets of one IP the earlier answers only requests that were under way
      when it was deleted, and the later starts after that. */
  lemma WindowsOverlapBriefly(s: Setting, w: World, ip: string, lo: real, hi: real, f: Grant, g: Grant)
      returns (end: real, start: real)
    requires Inv(s, w) && f.id < g.id && GrantIn(w, ip, lo, hi, f) && GrantIn(w, ip, lo, hi, g)
    ensures lo <= end <= hi && lo <= start <= hi && end - start <= s.delay
    ensures forall h :: h in w.grants && By(f.id, lo, hi)(h) ==> By(f.id, lo, end)(h)
    ensures forall h :: h in w.grants && By(g.id, lo, hi)(h) ==> By(g.id, start, hi)(h)
  {
    assert SoundGrant(s, w, f) && SoundGrant(s, w, g) && InSuccession(w, f.id, g.id);
    var died, born := w.limiters[f.id].died.value, w.limiters[g.id].born;
    end := if died + s.delay < hi then died + s.delay else hi;
    start := if born > lo then born else lo;
    forall h | h in w.grants
      ensures By(f.id, lo, hi)(h) ==> By(f.id, lo, end)(h)
      ensures By(g.id, lo, hi)(h) ==> By(g.id, start, hi)(h)
    {
      assert SoundGrant(s, w, h);
    }
  }

  predicate IpWithin(s: Setting, w: World, ip: string, lo: real, hi: real) {
    Tally(Of(ip, lo, hi), w.grants) as real <= 2.0 * s.rate + Refill(s.rate, hi - lo + s.delay)
  }

  lemma RefillsAddUp(rate: real, x: real, y: real, z: real)
    requires rate >= 1.0 && x + y <= z
    ensures Refill(rate, x) + Refill(rate, y) <= Refill(rate, z)
  {
    RefillFacts(rate, z - x - y);
    assert Refill(rate, z) == Refill(rate, x) + Refill(rate, y) + Refill(rate, z - x - y);
  }

  lemma TwoBuckets(s: Setting, w: World, ip: string, lo: real, hi: real, f: Grant, g: Grant)
    requires s.Lawful() && Inv(s, w) && BucketsWithin(s, w)
    requires hi - lo <= s.maxAge - 2.0 * s.delay
    requires f.id < g.id && GrantIn(w, ip, lo, hi, f) && GrantIn(w, ip, lo, hi, g)
    ensures IpWithin(s, w, ip, lo, hi)
  {
    var end, start := WindowsOverlapBriefly(s, w, ip, lo, hi, f, g);
    forall h | h in w.grants && Of(ip, lo, hi)(h)
      ensures By(f.id, lo, end)(h) || By(g.id, start, hi)(h)
    {
      OnlyTwo(s, w, ip, lo, hi, f, g, h);
      assert By(f.id, lo, hi)(h) || By(g.id, lo, hi)(h);
    }
    TallyCovered(Of(ip, lo, hi), By(f.id, lo, end), By(g.id, start, hi), w.grants);
    assert BucketWithin(s, w, f.id, lo, end) && BucketWithin(s, w, g.id, start, hi);
    RefillsAddUp(s.rate, end - lo, hi - start, hi - lo + s.delay);
  }

  lemma OneBucket(s: Setting, w: World, ip: string, lo: real, hi: real, id: nat)
    requires s.Lawful() && BucketsWithin(s, w) && lo <= hi
    requires forall h :: GrantIn(w, ip, lo, hi, h) ==> h.id == id
    ensures IpWithin(s, w, ip, lo, hi)
  {
    forall h | h in w.grants && Of(ip, lo, hi)(h)
      ensures By(id, lo, hi)(h)
    {
      assert GrantIn(w, ip, lo, hi, h);
    }
    TallyCovered(Of(ip, lo, hi), By(id, lo, hi), Nothing(), w.grants);
    TallyNone(Nothing(), w.grants);
    assert BucketWithin(s, w, id, lo, hi);
    RefillFacts(s.rate, s.delay);
    RefillsAddUp(s.rate, hi - lo, s.delay, hi - lo + s.delay);
  }

  function Nothing(): Grant -> bool {
    (g: Grant) => false
  }

  /** With every race allowed for, an IP gets at most one further burst through, and
      what flows in during one delay - as long as no request takes longer than that and
      the window is shorter than the idle time by two delays. */
  lemma RacyWindowBound(s: Setting, now: real, steps: seq<Step>, ip: string, lo: real, hi: real)
    requires s.Lawful() && Runs(s, Idle(now), steps) && lo <= hi && hi - lo <= s.maxAge - 2.0 * s.delay
    ensures IpWithin(s, After(s, Idle(now), steps), ip, lo, hi)
  {
    var w := After(s, Idle(now), steps);
    EveryRunKeepsInv(s, now, steps);
    forall id: nat, lo, hi | lo <= hi
      ensures BucketWithin(s, w, id, lo, hi)
    {
      BucketBound(s, now, steps, id, lo, hi);
    }
    if two :| TwoGrants(w, ip, lo, hi, two) {
      TwoBuckets(s, w, ip, lo, hi, two.0, two.1);
    } else {
      var id := SharedBucket(w, ip, lo, hi);
      OneBucket(s, w, ip, lo, hi, id);
    }
  }

  ghost predicate TwoGrants(w: World, ip: string, lo: real, hi: real, two: (Grant, Grant)) {
    two.0.id < two.1.id && GrantIn(w, ip, lo, hi, two.0) && GrantIn(w, ip, lo, hi, two.1)
  }

  lemma SharedBucket(w: World, ip: string, lo: real, hi: real) returns (id: nat)
    requires forall two :: !TwoGrants(w, ip, lo, hi, two)
    ensures forall h :: GrantIn(w, ip, lo, hi, h) ==> h.id == id
  {
    if f :| GrantIn(w, ip, lo, hi, f) {
      id := f.id;
      forall h | GrantIn(w, ip, lo, hi, h)
        ensures h.id == id
      {
        assert !TwoGrants(w, ip, lo, hi, (f, h)) && !TwoGrants(w, ip, lo, hi, (h, f));
      }
    } else {
      id := 0;
    }
  }
}
