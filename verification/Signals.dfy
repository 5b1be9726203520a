/** The geo, device and merchant detectors (internal/detector/geo.go, device.go,
    merchant.go). Distances and substring search are parameters. */
module Signals {
  import opened Models

  // ----- Device -------------------------------------------------------------------------

  const TRUSTED_THRESHOLD: nat := 2

  function Uses(hist: seq<Transaction>, deviceId: string): nat {
    if |hist| == 0 then 0
    else Uses(hist[..|hist| - 1], deviceId) + (if hist[|hist| - 1].deviceId == deviceId then 1 else 0)
  }

  ghost function UsedAt(hist: seq<Transaction>, deviceId: string): set<int> {
    set i | 0 <= i < |hist| && hist[i].deviceId == deviceId
  }

  lemma {:induction false} UsesAreCounted(hist: seq<Transaction>, deviceId: string)
    ensures Uses(hist, deviceId) == |UsedAt(hist, deviceId)|
  {
    if |hist| == 0 {
    } else {
      var n := |hist| - 1;
      UsesAreCounted(hist[..n], deviceId);
      if hist[n].deviceId == deviceId {
        assert UsedAt(hist, deviceId) == UsedAt(hist[..n], deviceId) + {n};
      } else {
        assert UsedAt(hist, deviceId) == UsedAt(hist[..n], deviceId);
      }
    }
  }

  /** No fingerprint, no history or a trusted device abstain; an unseen device says
      0.4, one seen once says 0.3. */
  predicate DeviceVerdict(hist: seq<Transaction>, tx: Transaction, score: real) {
    && (score == 0.0 <==> tx.deviceId == "" || |hist| == 0 || Uses(hist, tx.deviceId) >= TRUSTED_THRESHOLD)
    && (score == 0.4 <==> tx.deviceId != "" && |hist| > 0 && Uses(hist, tx.deviceId) == 0)
    && (score == 0.0 || score == 0.3 || score == 0.4)
  }

  /** What is said of a device by how often it was used before. */
  lemma DeviceByUses(hist: seq<Transaction>, tx: Transaction, score: real)
    requires DeviceVerdict(hist, tx, score) && tx.deviceId != "" && |hist| > 0
    ensures score == match Uses(hist, tx.deviceId) case 0 => 0.4 case 1 => 0.3 case _ => 0.0
  {
  }

  method DeviceScore(hist: seq<Transaction>, tx: Transaction) returns (score: real)
    ensures DeviceVerdict(hist, tx, score)
  {
    if tx.deviceId == "" || |hist| == 0 {
      return 0.0;
    }
    var count := 0;
    for i := 0 to |hist|
      invariant count == Uses(hist[..i], tx.deviceId)
    {
      assert hist[..i + 1][..i] == hist[..i];
      if hist[i].deviceId == tx.deviceId {
        count := count + 1;
      }
    }
    assert hist[..|hist|] == hist;
    if count >= TRUSTED_THRESHOLD {
      return 0.0;
    }
    score := if count == 0 then 0.4 else 0.3;
  }

  // ----- Geo ------------------------------------------------------------------------------

  const THRESHOLD_KM: real := 2000.0
  const SATURATE_KM: real := 8000.0

  function Visits(hist: seq<Transaction>, country: string): nat {
    if |hist| == 0 then 0
    else Visits(hist[..|hist| - 1], country) + (if hist[|hist| - 1].country == country then 1 else 0)
  }

  ghost function VisitedAt(hist: seq<Transaction>, country: string): set<int> {
    set i | 0 <= i < |hist| && hist[i].country == country
  }

  lemma {:induction false} VisitsAreCounted(hist: seq<Transaction>, country: string)
    ensures Visits(hist, country) == |VisitedAt(hist, country)|
  {
    if |hist| == 0 {
    } else {
      var n := |hist| - 1;
      VisitsAreCounted(hist[..n], country);
      if hist[n].country == country {
        assert VisitedAt(hist, country) == VisitedAt(hist[..n], country) + {n};
      } else {
        assert VisitedAt(hist, country) == VisitedAt(hist[..n], country);
      }
    }
  }

  /** `best` is the most visited nonempty country, or "" when there is none. */
  ghost predicate Modal(hist: seq<Transaction>, best: string) {
    && (best == "" ==> forall c :: c != "" ==> Visits(hist, c) == 0)
    && (best != "" ==> Visits(hist, best) > 0 && forall c :: c != "" ==> Visits(hist, c) <= Visits(hist, best))
  }

  method CountCountries(hist: seq<Transaction>) returns (counts: map<string, nat>)
    ensures forall c :: c in counts <==> c != "" && Visits(hist, c) > 0
    ensures forall c :: c in counts ==> counts[c] == Visits(hist, c)
  {
    counts := map[];
    for i := 0 to |hist|
      invariant forall c :: c in counts <==> c != "" && Visits(hist[..i], c) > 0
      invariant forall c :: c in counts ==> counts[c] == Visits(hist[..i], c)
    {
      assert hist[..i + 1][..i] == hist[..i];
      var c := hist[i].country;
      if c != "" {
        counts := counts[c := (if c in counts then counts[c] else 0) + 1];
      }
    }
    assert hist[..|hist|] == hist;
  }

  /** The walk over the counts map may take any order; every order ends at a modal
      country, though ties may be broken differently. */
  method ModalCountry(hist: seq<Transaction>) returns (best: string)
    ensures Modal(hist, best)
  {
    var counts := CountCountries(hist);
    var bestN := 0;
    best := "";
    var todo := counts.Keys;
    while todo != {}
      invariant todo <= counts.Keys
      invariant forall c :: c in counts && c !in todo ==> counts[c] <= bestN
      invariant if bestN == 0 then best == "" else best in counts && counts[best] == bestN
      decreases |todo|
    {
      var c :| c in todo;
      if counts[c] > bestN {
        best := c;
        bestN := counts[c];
      }
      todo := todo - {c};
    }
  }

  /** Without a tie the home country does not depend on the order of the walk. */
  lemma ModalIsUnique(hist: seq<Transaction>, a: string, b: string)
    requires Modal(hist, a) && Modal(hist, b)
    requires forall c :: c != "" && c != a ==> Visits(hist, c) < Visits(hist, a)
    ensures a == b
  {
    if b != "" && b != a {
      assert false;
    }
  }

  function Ramp(dist: real): real {
    if dist < THRESHOLD_KM then 0.0
    else
      var score := 0.5 + 0.5 * (dist - THRESHOLD_KM) / (SATURATE_KM - THRESHOLD_KM);
      if score > 1.0 then 1.0 else score
  }

  lemma RampRange(d: real, e: real)
    requires d <= e
    ensures Ramp(d) <= Ramp(e)
    ensures Ramp(d) == 0.0 || 0.5 <= Ramp(d) <= 1.0
    ensures Ramp(d) == 1.0 <==> d >= SATURATE_KM
  {
  }

  /** The ramp rises by a half over the six thousand kilometres from 2000 to 8000. */
  lemma RampByDistance(d: real)
    ensures d < 2000.0 ==> Ramp(d) == 0.0
    ensures 2000.0 <= d <= 8000.0 ==> 12000.0 * Ramp(d) == d + 4000.0
    ensures d >= 8000.0 ==> Ramp(d) == 1.0
  {
  }

  predicate Abroad(home: string, tx: Transaction) {
    home != "" && tx.country != "" && tx.country != home
  }

  /** The ramp over the distance from a modal country, zero at home or unknown. */
  ghost predicate GeoVerdict(hist: seq<Transaction>, tx: Transaction, distance: (string, string) -> real, score: real) {
    exists home :: Modal(hist, home) && score == if Abroad(home, tx) then Ramp(distance(home, tx.country)) else 0.0
  }

  method GeoScore(hist: seq<Transaction>, tx: Transaction, distance: (string, string) -> real) returns (score: real)
    ensures GeoVerdict(hist, tx, distance, score)
    ensures score == 0.0 || 0.5 <= score <= 1.0
  {
    if |hist| == 0 {
      assert Modal(hist, "") && !Abroad("", tx);
      return 0.0;
    }
    var home := ModalCountry(hist);
    if home == "" || tx.country == "" || tx.country == home {
      return 0.0;
    }
    var dist := distance(home, tx.country);
    if dist < THRESHOLD_KM {
      return 0.0;
    }
    score := 0.5 + 0.5 * (dist - THRESHOLD_KM) / (SATURATE_KM - THRESHOLD_KM);
    if score > 1.0 {
      score := 1.0;
    }
    RampRange(dist, dist);
  }

  // ----- Merchant -------------------------------------------------------------------------

  /** The static registry, keyed by lower-case name. */
  const REGISTRY: map<string, real> := map[
    "cryptoexchange-x" := 0.85,
    "offshorebets" := 0.9,
    "luxurywatches.io" := 0.8,
    "goldbullion24" := 0.85,
    "wiretransferhub" := 0.9,
    "cryptowallet-x" := 0.85,
    "mixer-service" := 0.95,
    "prepaidcardstore" := 0.7,
    "giftcardliquid" := 0.75,
    "darknet-market-xx" := 0.98]

  lemma RegistryRange(key: string)
    requires key in REGISTRY
    ensures 0.7 <= REGISTRY[key] <= 0.98
  {
  }

  /** Zero exactly when nothing matches, otherwise the score of some match. */
  ghost predicate MerchantVerdict(merchant: string, contains: (string, string) -> bool, score: real) {
    && (score == 0.0 <==> merchant == "" || forall key :: key in REGISTRY ==> !contains(merchant, key))
    && (score != 0.0 ==> exists key :: key in REGISTRY && contains(merchant, key) && score == REGISTRY[key])
  }

  /** `contains(merchant, key)` is the case-folded substring test. The walk over the
      registry stops at the first match in whatever order it takes. */
  method MerchantScore(merchant: string, contains: (string, string) -> bool) returns (score: real)
    ensures MerchantVerdict(merchant, contains, score)
    ensures score == 0.0 || 0.7 <= score <= 0.98
  {
    if merchant == "" {
      return 0.0;
    }
    var todo := REGISTRY.Keys;
    while todo != {}
      invariant todo <= REGISTRY.Keys
      invariant forall key :: key in REGISTRY && key !in todo ==> !contains(merchant, key)
      decreases |todo|
    {
      var key :| key in todo;
      if contains(merchant, key) {
        RegistryRange(key);
        return REGISTRY[key];
      }
      todo := todo - {key};
    }
    return 0.0;
  }
}
