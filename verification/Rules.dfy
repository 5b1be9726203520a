/** The deterministic rules engine (internal/rules/rules.go). Case folding and
    substring search belong to the Go library and enter as a `Matcher`. */
module Rules {
  import opened Models
  import opened RealSums
  import opened Selections

  /** `Unknown` stands for any other string found in a rules file. */
  datatype Action = Block | Review | Flag | Unknown

  datatype Match = Match(
    amountMin: real,
    amountMax: real,
    countries: seq<string>,
    excludeCountries: seq<string>,
    merchants: seq<string>,
    categories: seq<string>,
    deviceIds: seq<string>,
    userIds: seq<string>)

  datatype Rule = Rule(id: string, when: Match, action: Action, weight: real)

  datatype RuleMatch = RuleMatch(rule: Rule, action: Action, weight: real)

  datatype Matcher = Matcher(equalFold: (string, string) -> bool, containsFold: (string, string) -> bool) {
    predicate Contains(xs: seq<string>, s: string) {
      exists i :: 0 <= i < |xs| && equalFold(xs[i], s)
    }

    predicate ContainsAnySubstring(subs: seq<string>, s: string) {
      exists i :: 0 <= i < |subs| && containsFold(s, subs[i])
    }

    predicate Matches(tx: Transaction, m: Match) {
      && !(m.amountMin > 0.0 && tx.amount < m.amountMin)
      && !(m.amountMax > 0.0 && tx.amount > m.amountMax)
      && !(|m.countries| > 0 && !Contains(m.countries, tx.country))
      && !(|m.excludeCountries| > 0 && Contains(m.excludeCountries, tx.country))
      && !(|m.merchants| > 0 && !ContainsAnySubstring(m.merchants, tx.merchant))
      && !(|m.categories| > 0 && !Contains(m.categories, tx.category))
      && !(|m.deviceIds| > 0 && !Contains(m.deviceIds, tx.deviceId))
      && !(|m.userIds| > 0 && !Contains(m.userIds, tx.userId))
    }
  }

  /** The unconstrained match: every field at its zero value. */
  const ANY: Match := Match(0.0, 0.0, [], [], [], [], [], [])

  /** A match constrains nothing where its fields are zero, and otherwise is the
      conjunction of its fields taken one at a time. */
  lemma MatchDecomposes(m: Matcher, tx: Transaction, w: Match)
    ensures m.Matches(tx, ANY)
    ensures m.Matches(tx, w) <==>
      && m.Matches(tx, ANY.(amountMin := w.amountMin)) && m.Matches(tx, ANY.(amountMax := w.amountMax))
      && m.Matches(tx, ANY.(countries := w.countries)) && m.Matches(tx, ANY.(excludeCountries := w.excludeCountries))
      && m.Matches(tx, ANY.(merchants := w.merchants)) && m.Matches(tx, ANY.(categories := w.categories))
      && m.Matches(tx, ANY.(deviceIds := w.deviceIds)) && m.Matches(tx, ANY.(userIds := w.userIds))
  {
  }

  // ----- What one field accepts -----------------------------------------------------------

  /** A bound that is not positive constrains nothing; the bound itself is accepted. */
  lemma BoundAccepts(m: Matcher, tx: Transaction, x: real)
    ensures m.Matches(tx, ANY.(amountMin := x)) <==> x <= 0.0 || tx.amount >= x
    ensures m.Matches(tx, ANY.(amountMax := x)) <==> x <= 0.0 || tx.amount <= x
  {
  }

  /** Some listed value equals `s` up to case. */
  ghost predicate Lists(m: Matcher, xs: seq<string>, s: string) {
    exists x :: x in xs && m.equalFold(x, s)
  }

  lemma ContainsIffLists(m: Matcher, xs: seq<string>, s: string)
    ensures m.Contains(xs, s) <==> Lists(m, xs, s)
  {
    if m.Contains(xs, s) {
      var i :| 0 <= i < |xs| && m.equalFold(xs[i], s);
      assert xs[i] in xs;
    }
  }

  /** Each list asks about the transaction's own field of that name, and an empty one
      asks nothing. */
  lemma ListAccepts(m: Matcher, tx: Transaction, xs: seq<string>)
    ensures m.Matches(tx, ANY.(countries := xs)) <==> xs == [] || Lists(m, xs, tx.country)
    ensures m.Matches(tx, ANY.(excludeCountries := xs)) <==> !Lists(m, xs, tx.country)
    ensures m.Matches(tx, ANY.(categories := xs)) <==> xs == [] || Lists(m, xs, tx.category)
    ensures m.Matches(tx, ANY.(deviceIds := xs)) <==> xs == [] || Lists(m, xs, tx.deviceId)
    ensures m.Matches(tx, ANY.(userIds := xs)) <==> xs == [] || Lists(m, xs, tx.userId)
    ensures m.Matches(tx, ANY.(merchants := xs))
      <==> xs == [] || (exists x :: x in xs && m.containsFold(tx.merchant, x))
  {
    ContainsIffLists(m, xs, tx.country);
    ContainsIffLists(m, xs, tx.category);
    ContainsIffLists(m, xs, tx.deviceId);
    ContainsIffLists(m, xs, tx.userId);
    if m.ContainsAnySubstring(xs, tx.merchant) {
      var i :| 0 <= i < |xs| && m.containsFold(tx.merchant, xs[i]);
      assert xs[i] in xs;
    }
  }

  /** A rule that constrains one field does not see the others. */
  lemma OneFieldSeesItself(m: Matcher, tx: Transaction, tx': Transaction, x: real, xs: seq<string>)
    ensures tx.amount == tx'.amount ==>
      && (m.Matches(tx, ANY.(amountMin := x)) <==> m.Matches(tx', ANY.(amountMin := x)))
      && (m.Matches(tx, ANY.(amountMax := x)) <==> m.Matches(tx', ANY.(amountMax := x)))
    ensures tx.country == tx'.country ==>
      && (m.Matches(tx, ANY.(countries := xs)) <==> m.Matches(tx', ANY.(countries := xs)))
      && (m.Matches(tx, ANY.(excludeCountries := xs)) <==> m.Matches(tx', ANY.(excludeCountries := xs)))
    ensures tx.merchant == tx'.merchant ==>
      (m.Matches(tx, ANY.(merchants := xs)) <==> m.Matches(tx', ANY.(merchants := xs)))
    ensures tx.category == tx'.category ==>
      (m.Matches(tx, ANY.(categories := xs)) <==> m.Matches(tx', ANY.(categories := xs)))
    ensures tx.deviceId == tx'.deviceId ==>
      (m.Matches(tx, ANY.(deviceIds := xs)) <==> m.Matches(tx', ANY.(deviceIds := xs)))
    ensures tx.userId == tx'.userId ==>
      (m.Matches(tx, ANY.(userIds := xs)) <==> m.Matches(tx', ANY.(userIds := xs)))
  {
    BoundAccepts(m, tx, x);
    BoundAccepts(m, tx', x);
    ListAccepts(m, tx, xs);
    ListAccepts(m, tx', xs);
  }

  /** An empty list accepts everything. */
  predicate Tighter(tight: seq<string>, loose: seq<string>) {
    |loose| == 0 || (|tight| > 0 && forall c :: c in tight ==> c in loose)
  }

  lemma ContainedInLooser(m: Matcher, tight: seq<string>, loose: seq<string>, s: string)
    requires forall c :: c in tight ==> c in loose
    ensures m.Contains(tight, s) ==> m.Contains(loose, s)
    ensures m.ContainsAnySubstring(tight, s) ==> m.ContainsAnySubstring(loose, s)
  {
    if i :| 0 <= i < |tight| && m.equalFold(tight[i], s) {
      assert tight[i] in loose;
      var j :| 0 <= j < |loose| && loose[j] == tight[i];
    }
    if i :| 0 <= i < |tight| && m.containsFold(s, tight[i]) {
      assert tight[i] in loose;
      var j :| 0 <= j < |loose| && loose[j] == tight[i];
    }
  }

  lemma AcceptedByLooser(m: Matcher, tight: seq<string>, loose: seq<string>, s: string)
    requires Tighter(tight, loose)
    ensures (|tight| > 0 && !m.Contains(tight, s)) || |loose| == 0 || m.Contains(loose, s)
    ensures (|tight| > 0 && !m.ContainsAnySubstring(tight, s)) || |loose| == 0 || m.ContainsAnySubstring(loose, s)
  {
    if |loose| > 0 {
      ContainedInLooser(m, tight, loose, s);
    }
  }

  /** Matching is antitone: shrinking the lists of accepted values (without emptying
      them), raising the minimum, lowering the maximum or excluding more only ever
      loses transactions. */
  lemma NarrowingOnlyLoses(m: Matcher, tx: Transaction, loose: Match, tight: Match)
    requires m.Matches(tx, tight)
    requires loose.amountMin <= tight.amountMin
    requires loose.amountMax <= 0.0 || 0.0 < tight.amountMax <= loose.amountMax
    requires Tighter(tight.countries, loose.countries) && Tighter(tight.merchants, loose.merchants)
    requires Tighter(tight.categories, loose.categories) && Tighter(tight.deviceIds, loose.deviceIds)
    requires Tighter(tight.userIds, loose.userIds)
    requires forall c :: c in loose.excludeCountries ==> c in tight.excludeCountries
    ensures m.Matches(tx, loose)
  {
    ContainedInLooser(m, loose.excludeCountries, tight.excludeCountries, tx.country);
    AcceptedByLooser(m, tight.countries, loose.countries, tx.country);
    AcceptedByLooser(m, tight.merchants, loose.merchants, tx.merchant);
    AcceptedByLooser(m, tight.categories, loose.categories, tx.category);
    AcceptedByLooser(m, tight.deviceIds, loose.deviceIds, tx.deviceId);
    AcceptedByLooser(m, tight.userIds, loose.userIds, tx.userId);
  }

  function Fire(r: Rule): RuleMatch {
    RuleMatch(r, r.action, r.weight)
  }

  /** The matches of `rules` against `tx`, in rule order. */
  function Fired(m: Matcher, rules: seq<Rule>, tx: Transaction): seq<RuleMatch> {
    FlatMap(MatchIfApplies(m, tx), rules)
  }

  function MatchIfApplies(m: Matcher, tx: Transaction): Rule -> seq<RuleMatch> {
    (r: Rule) => if m.Matches(tx, r.when) then [Fire(r)] else []
  }

  /** A match is reported exactly for the rules that apply. */
  lemma {:induction false} FiredIff(m: Matcher, rules: seq<Rule>, tx: Transaction, rm: RuleMatch)
    ensures rm in Fired(m, rules, tx)
      <==> (exists i :: 0 <= i < |rules| && m.Matches(tx, rules[i].when) && rm == Fire(rules[i]))
  {
    if |rules| == 0 {
    } else {
      var n := |rules| - 1;
      FiredIff(m, rules[..n], tx, rm);
      if i :| 0 <= i < n && m.Matches(tx, rules[i].when) && rm == Fire(rules[i]) {
        assert rules[..n][i] == rules[i];
      }
      if i :| 0 <= i < n && m.Matches(tx, rules[..n][i].when) && rm == Fire(rules[..n][i]) {
        assert rules[..n][i] == rules[i];
      }
    }
  }

  function Applies(m: Matcher, tx: Transaction): Rule -> bool {
    (r: Rule) => m.Matches(tx, r.when)
  }

  /** One match for each rule that applies, in the order of the file, carrying that
      rule's action and weight. */
  lemma FiredInOrder(m: Matcher, rules: seq<Rule>, tx: Transaction) returns (at: seq<nat>)
    ensures Picks(Applies(m, tx), rules, at) && |Fired(m, rules, tx)| == |at|
    ensures forall k :: 0 <= k < |at| ==>
      && at[k] < |rules|
      && Fired(m, rules, tx)[k] == RuleMatch(rules[at[k]], rules[at[k]].action, rules[at[k]].weight)
  {
    at := FlatMapPicks(Applies(m, tx), Fire, MatchIfApplies(m, tx), rules);
  }

  class Engine {
    var rules: seq<Rule>

    constructor (rules: seq<Rule>)
      ensures this.rules == rules
    {
      this.rules := rules;
    }

    /** Swaps in the rules of the file; `parsed` is `None` when the file could not be
        read or parsed, and then the old rules stay. */
    method Reload(parsed: Option<seq<Rule>>) returns (ok: bool)
      modifies this
      ensures ok == parsed.Some?
      ensures rules == if ok then parsed.value else old(rules)
    {
      if parsed.None? {
        return false;
      }
      rules := parsed.value;
      return true;
    }

    method Evaluate(m: Matcher, tx: Transaction) returns (matches: seq<RuleMatch>)
      ensures matches == Fired(m, rules, tx)
    {
      matches := [];
      for i := 0 to |rules|
        invariant matches == Fired(m, rules[..i], tx)
      {
        assert rules[..i + 1][..i] == rules[..i];
        if m.Matches(tx, rules[i].when) {
          matches := matches + [RuleMatch(rules[i], rules[i].action, rules[i].weight)];
        }
      }
      assert rules[..|rules|] == rules;
    }
  }

  predicate HasAction(a: Action, matches: seq<RuleMatch>) {
    exists i :: 0 <= i < |matches| && matches[i].action == a
  }

  function FlagTerm(m: RuleMatch): real {
    if m.action == Flag then m.weight else 0.0
  }

  function Cap(x: real): real {
    if x > 1.0 then 1.0 else x
  }

  /** The capped total of the flag weights. Weights come from a file unchecked,
      so the total can be negative. */
  function FlagTotal(matches: seq<RuleMatch>): real {
    Cap(SumBy(FlagTerm, matches))
  }

  predicate IsFlag(m: RuleMatch) {
    m.action == Flag
  }

  function WeightOf(m: RuleMatch): real {
    m.weight
  }

  /** The flag matches alone, and their weights added up. */
  function FlagSum(matches: seq<RuleMatch>): real {
    SumBy(WeightOf, Filter(IsFlag, matches))
  }

  lemma {:induction false} FlagTotalIsFlagSum(matches: seq<RuleMatch>)
    ensures SumBy(FlagTerm, matches) == FlagSum(matches)
    ensures FlagTotal(matches) == if FlagSum(matches) > 1.0 then 1.0 else FlagSum(matches)
  {
    if |matches| == 0 {
    } else {
      var n := |matches| - 1;
      FlagTotalIsFlagSum(matches[..n]);
      var front := Filter(IsFlag, matches[..n]);
      if IsFlag(matches[n]) {
        assert Filter(IsFlag, matches) == front + [matches[n]];
        SumBySnoc(WeightOf, front, matches[n]);
      } else {
        assert Filter(IsFlag, matches) == front;
      }
    }
  }

  /** The flag rules that apply, and their weights added up. */
  function FlagsApplying(m: Matcher, tx: Transaction): Rule -> bool {
    (r: Rule) => m.Matches(tx, r.when) && r.action == Flag
  }

  function RuleWeight(r: Rule): real {
    r.weight
  }

  function FlagRuleSum(m: Matcher, rules: seq<Rule>, tx: Transaction): real {
    SumBy(RuleWeight, Filter(FlagsApplying(m, tx), rules))
  }

  lemma FlagSumSnoc(matches: seq<RuleMatch>, last: RuleMatch)
    ensures FlagSum(matches + [last]) == FlagSum(matches) + FlagTerm(last)
  {
    FlagTotalIsFlagSum(matches);
    FlagTotalIsFlagSum(matches + [last]);
    SumBySnoc(FlagTerm, matches, last);
  }

  lemma FlagRuleSumSnoc(m: Matcher, rules: seq<Rule>, tx: Transaction, r: Rule)
    ensures FlagRuleSum(m, rules + [r], tx)
         == FlagRuleSum(m, rules, tx) + if FlagsApplying(m, tx)(r) then r.weight else 0.0
  {
    var kept := Filter(FlagsApplying(m, tx), rules);
    FilterSnoc(FlagsApplying(m, tx), rules, r);
    if FlagsApplying(m, tx)(r) {
      SumBySnoc(RuleWeight, kept, r);
    } else {
      assert kept + [] == kept;
    }
  }

  lemma FiredSnoc(m: Matcher, rules: seq<Rule>, tx: Transaction, r: Rule)
    ensures Fired(m, rules + [r], tx)
         == if m.Matches(tx, r.when) then Fired(m, rules, tx) + [Fire(r)] else Fired(m, rules, tx)
  {
    assert (rules + [r])[..|rules|] == rules;
    assert Fired(m, rules, tx) + [] == Fired(m, rules, tx);
  }

  lemma {:induction false} FlagSumIsOfRules(m: Matcher, rules: seq<Rule>, tx: Transaction)
    ensures FlagSum(Fired(m, rules, tx)) == FlagRuleSum(m, rules, tx)
  {
    if |rules| == 0 {
    } else {
      var front, last := rules[..|rules| - 1], rules[|rules| - 1];
      assert rules == front + [last];
      FlagSumIsOfRules(m, front, tx);
      FiredSnoc(m, front, tx, last);
      FlagRuleSumSnoc(m, front, tx, last);
      FlagSumSnoc(Fired(m, front, tx), Fire(last));
    }
  }

  /** Some rule with this action applies. */
  predicate SomeApplies(m: Matcher, rules: seq<Rule>, tx: Transaction, a: Action) {
    exists i :: 0 <= i < |rules| && m.Matches(tx, rules[i].when) && rules[i].action == a
  }

  lemma HasActionIffApplies(m: Matcher, rules: seq<Rule>, tx: Transaction, a: Action)
    ensures HasAction(a, Fired(m, rules, tx)) <==> SomeApplies(m, rules, tx, a)
  {
    var ms := Fired(m, rules, tx);
    if i :| 0 <= i < |ms| && ms[i].action == a {
      FiredIff(m, rules, tx, ms[i]);
    }
    if i :| 0 <= i < |rules| && m.Matches(tx, rules[i].when) && rules[i].action == a {
      FiredIff(m, rules, tx, Fire(rules[i]));
    }
  }

  /** The loop of both `HasBlock` and `HasReview`. */
  method FindAction(a: Action, matches: seq<RuleMatch>) returns (found: bool)
    ensures found <==> HasAction(a, matches)
  {
    for i := 0 to |matches|
      invariant !HasAction(a, matches[..i])
    {
      if matches[i].action == a {
        return true;
      }
    }
    assert matches[..|matches|] == matches;
    return false;
  }

  method FlagWeight(matches: seq<RuleMatch>) returns (sum: real)
    ensures sum == FlagTotal(matches) && sum <= 1.0
  {
    sum := 0.0;
    for i := 0 to |matches|
      invariant sum == SumBy(FlagTerm, matches[..i])
    {
      assert matches[..i + 1][..i] == matches[..i];
      if matches[i].action == Flag {
        sum := sum + matches[i].weight;
      }
    }
    assert matches[..|matches|] == matches;
    if sum > 1.0 {
      sum := 1.0;
    }
  }

  // ----- Order independence -----------------------------------------------------

  /** Reordering the rules file only reorders the matches. */
  lemma FiredPermutes(m: Matcher, rules: seq<Rule>, rules': seq<Rule>, tx: Transaction)
    requires multiset(rules) == multiset(rules')
    ensures multiset(Fired(m, rules, tx)) == multiset(Fired(m, rules', tx))
  {
    FlatMapPermutes(MatchIfApplies(m, tx), rules, rules');
  }

  lemma HasActionPermutes(a: Action, ms: seq<RuleMatch>, ms': seq<RuleMatch>)
    requires multiset(ms) == multiset(ms')
    ensures HasAction(a, ms) <==> HasAction(a, ms')
  {
    if i :| 0 <= i < |ms| && ms[i].action == a {
      assert ms[i] in multiset(ms');
    }
    if i :| 0 <= i < |ms'| && ms'[i].action == a {
      assert ms'[i] in multiset(ms);
    }
  }
}
