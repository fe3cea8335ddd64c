/** The cross-table half of the integrity check, and what an accepted output satisfies. */
module SeedRelations {
  import opened Wrappers
  import opened Sequences
  import opened IsoTime
  import opened JsonTrees
  import opened SeedTypes
  import opened SeedRules

  // ----- Uniqueness

  /** The values tracked among the first `n` keys: a missing key is not tracked. */
  function Tracked<K>(keys: seq<Option<K>>, n: nat): seq<K>
    requires n <= |keys|
  {
    if n == 0 then []
    else if keys[n - 1].Some? then Tracked(keys, n - 1) + [keys[n - 1].value]
    else Tracked(keys, n - 1)
  }

  /** The positions among the first `n` whose key was already seen. */
  function Repeats<K(==)>(keys: seq<Option<K>>, n: nat): (r: seq<nat>)
    requires n <= |keys|
    ensures forall k :: 0 <= k < |r| ==> r[k] < n
  {
    if n == 0 then []
    else if keys[n - 1].Some? && keys[n - 1] in keys[..n - 1] then Repeats(keys, n - 1) + [n - 1]
    else Repeats(keys, n - 1)
  }

  lemma {:induction false} TrackedMembers<K>(keys: seq<Option<K>>, n: nat)
    requires n <= |keys|
    ensures forall key :: key in Tracked(keys, n) <==> Some(key) in keys[..n]
  {
    if n > 0 {
      TrackedMembers(keys, n - 1);
      assert keys[..n] == keys[..n - 1] + [keys[n - 1]];
    }
  }

  lemma OneMoreValue<K>(before: seq<K>, key: K)
    ensures |set k | k in before + [key]| == |set k | k in before| + if key in before then 0 else 1
  {
    var values := set k | k in before;
    assert (set k | k in before + [key]) == values + {key};
    assert key in before ==> values + {key} == values;
  }

  /** One report for each tracked value beyond its first occurrence. */
  lemma {:induction false} RepeatsCount<K>(keys: seq<Option<K>>, n: nat)
    requires n <= |keys|
    ensures |Repeats(keys, n)| == |Tracked(keys, n)| - |set key | key in Tracked(keys, n)|
  {
    if n > 0 {
      RepeatsCount(keys, n - 1);
      var before := Tracked(keys, n - 1);
      if keys[n - 1].Some? {
        TrackedMembers(keys, n - 1);
        OneMoreValue(before, keys[n - 1].value);
      }
    }
  }

  /** Nothing is reported exactly when the tracked values are pairwise distinct. */
  lemma {:induction false} RepeatsEmpty<K>(keys: seq<Option<K>>, n: nat)
    requires n <= |keys|
    ensures Repeats(keys, n) == [] <==> Distinct(Tracked(keys, n))
  {
    if n > 0 {
      RepeatsEmpty(keys, n - 1);
      if keys[n - 1].Some? {
        TrackedMembers(keys, n - 1);
        DistinctAppend(Tracked(keys, n - 1), keys[n - 1].value);
      }
    }
  }

  method FindRepeats<K(==)>(table: SeedTable, keys: seq<Option<K>>, identities: seq<string>, field: string, rule: Rule)
    returns (violations: seq<Violation>)
    requires |identities| == |keys|
    ensures |violations| == |Repeats(keys, |keys|)|
    ensures forall k :: 0 <= k < |violations| ==>
              violations[k] == Violation(table, identities[Repeats(keys, |keys|)[k]], field, rule)
    ensures |violations| == |Tracked(keys, |keys|)| - |set key | key in Tracked(keys, |keys|)|
    ensures violations == [] <==> Distinct(Tracked(keys, |keys|))
  {
    violations := [];
    var seen: set<K> := {};
    for i := 0 to |keys|
      invariant forall key :: key in seen <==> Some(key) in keys[..i]
      invariant |violations| == |Repeats(keys, i)|
      invariant forall k :: 0 <= k < |violations| ==>
                  violations[k] == Violation(table, identities[Repeats(keys, i)[k]], field, rule)
    {
      assert keys[..i + 1] == keys[..i] + [keys[i]];
      if keys[i].Some? {
        if keys[i].value in seen {
          violations := violations + [Violation(table, identities[i], field, rule)];
        }
        seen := seen + {keys[i].value};
      }
    }
    RepeatsCount(keys, |keys|);
    RepeatsEmpty(keys, |keys|);
  }

  // ----- Foreign keys

  method FindOrphans(table: SeedTable, parents: seq<string>, identities: seq<string>, known: set<string>)
    returns (violations: seq<Violation>)
    requires |identities| == |parents|
    ensures forall v :: v in violations
                        <==> exists i :: 0 <= i < |parents| && parents[i] !in known
                                         && v == Violation(table, identities[i], Name(RoastId), KnownRoast)
    ensures violations == [] <==> forall parent :: parent in parents ==> parent in known
  {
    violations := [];
    for i := 0 to |parents|
      invariant forall v :: v in violations
                            <==> exists k :: 0 <= k < i && parents[k] !in known
                                             && v == Violation(table, identities[k], Name(RoastId), KnownRoast)
      invariant violations == [] <==> forall k :: 0 <= k < i ==> parents[k] in known
    {
      if parents[i] !in known {
        violations := violations + [Violation(table, identities[i], Name(RoastId), KnownRoast)];
      }
    }
  }

  // ----- Groups

  datatype Group = Group(origin: Option<string>, level: Option<string>)

  function RoastGroup(row: CloudRoast): Group {
    Group(row.beanOrigin, row.roastLevel)
  }

  function SummaryGroup(row: ReferenceSummary): Group {
    Group(Some(row.beanOrigin), Some(row.roastLevel))
  }

  ghost predicate Contributes(roasts: seq<CloudRoast>, g: Group) {
    exists i :: 0 <= i < |roasts| && roasts[i].contributedToLearning && RoastGroup(roasts[i]) == g
  }

  ghost predicate Summarised(summaries: seq<ReferenceSummary>, g: Group) {
    exists i :: 0 <= i < |summaries| && SummaryGroup(summaries[i]) == g
  }

  /** Contributing groups and summary groups are the same groups. */
  ghost predicate Covered(roasts: seq<CloudRoast>, summaries: seq<ReferenceSummary>) {
    forall g :: Contributes(roasts, g) <==> Summarised(summaries, g)
  }

  function NullableText(v: Option<string>): string {
    if v.Some? then v.value else "null"
  }

  function GroupIdentity(g: Group): string {
    NullableText(g.origin) + "|" + NullableText(g.level)
  }

  /** The keys of an insertion-ordered map, as a loop over the rows fills it. */
  method GroupKeys(groups: seq<Group>) returns (keys: seq<Group>)
    ensures Distinct(keys)
    ensures forall g :: g in keys <==> g in groups
  {
    keys := [];
    for i := 0 to |groups|
      invariant Distinct(keys)
      invariant forall g :: g in keys <==> g in groups[..i]
    {
      assert groups[..i + 1] == groups[..i] + [groups[i]];
      if groups[i] !in keys {
        DistinctAppend(keys, groups[i]);
        keys := keys + [groups[i]];
      }
    }
    assert groups[..|groups|] == groups;
  }

  method FindMissingGroups(keys: seq<Group>, others: seq<Group>, rule: Rule) returns (violations: seq<Violation>)
    ensures forall v :: v in violations
                        <==> exists g :: g in keys && g !in others
                                         && v == Violation(ReferenceRoastSummaries, GroupIdentity(g),
                                                           "bean_origin|roast_level", rule)
    ensures violations == [] <==> forall g :: g in keys ==> g in others
  {
    violations := [];
    for i := 0 to |keys|
      invariant forall v :: v in violations
                            <==> exists g :: g in keys[..i] && g !in others
                                             && v == Violation(ReferenceRoastSummaries, GroupIdentity(g),
                                                               "bean_origin|roast_level", rule)
      invariant violations == [] <==> forall g :: g in keys[..i] ==> g in others
    {
      assert keys[..i + 1] == keys[..i] + [keys[i]];
      if keys[i] !in others {
        violations := violations
          + [Violation(ReferenceRoastSummaries, GroupIdentity(keys[i]), "bean_origin|roast_level", rule)];
      }
    }
    assert keys[..|keys|] == keys;
  }

  function ContributingGroups(roasts: seq<CloudRoast>): (r: seq<Group>)
    ensures forall g :: g in r <==> Contributes(roasts, g)
  {
    if roasts == [] then [] else
      var rest := roasts[..|roasts| - 1];
      var last := roasts[|roasts| - 1];
      var groups := ContributingGroups(rest);
      assert forall g ::
          Contributes(roasts, g) <==> Contributes(rest, g) || (last.contributedToLearning && RoastGroup(last) == g) by {
        assert forall g :: Contributes(rest, g) ==> Contributes(roasts, g);
      }
      if last.contributedToLearning then groups + [RoastGroup(last)] else groups
  }

  /** What the two coverage loops object to in a group. */
  ghost predicate CoverageRule(roasts: seq<CloudRoast>, summaries: seq<ReferenceSummary>, g: Group, rule: Rule) {
    || (rule == GroupNeedsSummary && Contributes(roasts, g) && !Summarised(summaries, g))
    || (rule == SummaryNeedsRoasts && Summarised(summaries, g) && !Contributes(roasts, g))
  }

  lemma SummarisedGroups(summaries: seq<ReferenceSummary>, g: Group)
    ensures Summarised(summaries, g) <==> g in Map(SummaryGroup, summaries)
  {
    hide SummaryGroup;
    var groups := Map(SummaryGroup, summaries);
    assert forall i :: 0 <= i < |summaries| ==> groups[i] == SummaryGroup(summaries[i]);
  }

  method FindUncoveredGroups(roasts: seq<CloudRoast>, summaries: seq<ReferenceSummary>)
    returns (violations: seq<Violation>)
    ensures violations == [] <==> Covered(roasts, summaries)
    ensures forall v :: v in violations <==>
              exists g :: CoverageRule(roasts, summaries, g, v.rule)
                          && v == Violation(ReferenceRoastSummaries, GroupIdentity(g), "bean_origin|roast_level",
                                            v.rule)
  {
    hide GroupIdentity, ContributingGroups, Contributes, Summarised, SummaryGroup;
    var summaryGroups := GroupKeys(Map(SummaryGroup, summaries));
    var contributing := GroupKeys(ContributingGroups(roasts));
    forall g ensures g in summaryGroups <==> Summarised(summaries, g) { SummarisedGroups(summaries, g); }
    assert forall g :: g in contributing <==> Contributes(roasts, g);
    var unsummarised := FindMissingGroups(contributing, summaryGroups, GroupNeedsSummary);
    var unsupported := FindMissingGroups(summaryGroups, contributing, SummaryNeedsRoasts);
    violations := unsummarised + unsupported;
  }

  // ----- Aggregates

  function ContributingRoasts(roasts: seq<CloudRoast>, origin: string, level: string): seq<CloudRoast> {
    Filter((r: CloudRoast) => r.beanOrigin == Some(origin) && r.roastLevel == Some(level) && r.contributedToLearning,
           roasts)
  }

  function RoastIds(roasts: seq<CloudRoast>): set<string> {
    set r | r in roasts && r.id.Some? :: r.id.value
  }

  function ReviewsOf(reviews: seq<Review>, ids: set<string>): seq<Review> {
    Filter((r: Review) => r.roastId in ids, reviews)
  }

  /** A group's members are its contributing roasts, and its reviews are theirs. */
  lemma GroupRows(roasts: seq<CloudRoast>, reviews: seq<Review>, origin: string, level: string, r: CloudRoast,
                  v: Review)
    ensures r in ContributingRoasts(roasts, origin, level)
            <==> r in roasts && r.contributedToLearning && RoastGroup(r) == Group(Some(origin), Some(level))
    ensures v in ReviewsOf(reviews, RoastIds(roasts))
            <==> v in reviews && exists x :: x in roasts && x.id == Some(v.roastId)
  {
  }

  predicate AllFinite(values: seq<Num>) {
    forall i :: 0 <= i < |values| ==> values[i].Fin?
  }

  function Sum(values: seq<Num>): real
    requires AllFinite(values)
  {
    if values == [] then 0.0 else Sum(values[..|values| - 1]) + values[|values| - 1].value
  }

  /** The mean of a list: absent when empty, not a number when some value is not finite. */
  function Mean(values: seq<Num>): Option<Num> {
    if values == [] then None
    else if AllFinite(values) then Some(Fin(Sum(values) / |values| as real))
    else Some(NotFinite)
  }

  method AverageFinite(values: seq<Num>) returns (mean: Option<Num>)
    ensures mean == Mean(values)
  {
    if values == [] { return None; }
    var total := 0.0;
    for i := 0 to |values|
      invariant AllFinite(values[..i]) && total == Sum(values[..i])
    {
      if values[i].NotFinite? { return Some(NotFinite); }
      assert values[..i + 1][..i] == values[..i];
      total := total + values[i].value;
    }
    assert values[..|values|] == values;
    mean := Some(Fin(total / |values| as real));
  }

  // What makes it a mean

  /** No mean of nothing, and no number for a mean as soon as one value is none. */
  lemma MeanMissing(values: seq<Num>)
    ensures Mean(values) == None <==> values == []
    ensures Mean(values) == Some(NotFinite) <==> exists i :: 0 <= i < |values| && values[i].NotFinite?
  {
    hide Sum;
  }

  lemma MeanIs(values: seq<Num>)
    requires values != [] && AllFinite(values)
    ensures Mean(values).Some? && Mean(values).value.Fin?
    ensures Mean(values).value.value * |values| as real == Sum(values)
  {
    hide Sum;
    var n := |values| as real;
    assert Sum(values) / n * n == Sum(values);
  }

  lemma SumAppend(values: seq<Num>, x: real)
    requires AllFinite(values)
    ensures AllFinite(values + [Fin(x)]) && Sum(values + [Fin(x)]) == Sum(values) + x
  {
    assert (values + [Fin(x)])[..|values|] == values;
  }

  /** One value is its own mean. */
  lemma MeanOfOne(x: real)
    ensures Mean([Fin(x)]) == Some(Fin(x))
  {
    SumAppend([], x);
    assert [] + [Fin(x)] == [Fin(x)];
  }

  /** One more value moves the mean by its share. */
  lemma MeanGrows(values: seq<Num>, x: real)
    requires values != [] && AllFinite(values)
    ensures AllFinite(values + [Fin(x)])
    ensures var m, m' := Mean(values).value.value, Mean(values + [Fin(x)]).value.value;
            m' * (|values| + 1) as real == m * |values| as real + x
  {
    hide Sum, Mean;
    SumAppend(values, x);
    MeanIs(values);
    MeanIs(values + [Fin(x)]);
  }

  lemma OneMore(n: real, x: real)
    ensures (n + 1.0) * x == n * x + x
  {
  }

  lemma {:induction false} SumBetween(values: seq<Num>, low: real, high: real)
    requires forall i :: 0 <= i < |values| ==> values[i].Fin? && low <= values[i].value <= high
    ensures |values| as real * low <= Sum(values) <= |values| as real * high
  {
    if values != [] {
      var init, last := values[..|values| - 1], values[|values| - 1];
      SumBetween(init, low, high);
      assert |values| as real == |init| as real + 1.0;
      OneMore(|init| as real, low);
      OneMore(|init| as real, high);
      assert Sum(values) == Sum(init) + last.value;
    }
  }

  /** The mean lies between any bounds of the values; so equal values are their own mean. */
  lemma MeanBetween(values: seq<Num>, low: real, high: real)
    requires values != [] && forall i :: 0 <= i < |values| ==> values[i].Fin? && low <= values[i].value <= high
    ensures low <= Mean(values).value.value <= high
  {
    hide Sum, Mean;
    SumBetween(values, low, high);
    MeanIs(values);
    var m, n := Mean(values).value.value, |values| as real;
    ScaledOrder(n, low, m);
    ScaledOrder(n, m, high);
  }

  lemma ScaledOrder(n: real, a: real, b: real)
    requires n > 0.0 && n * a <= b * n
    ensures a <= b
  {
    assert a > b ==> n * (a - b) > 0.0;
  }

  function Deviations(values: seq<Num>, m: real): seq<Num>
    requires AllFinite(values)
  {
    seq(|values|, i requires 0 <= i < |values| => Fin(values[i].value - m))
  }

  lemma {:induction false} DeviationSum(values: seq<Num>, m: real)
    requires AllFinite(values)
    ensures AllFinite(Deviations(values, m)) && Sum(Deviations(values, m)) == Sum(values) - m * |values| as real
  {
    if values == [] {
      assert Deviations(values, m) == [];
    } else {
      var init := values[..|values| - 1];
      DeviationSum(init, m);
      assert Deviations(values, m)[..|init|] == Deviations(init, m);
    }
  }

  /** The deviations from the mean cancel out. */
  lemma DeviationsCancel(values: seq<Num>)
    requires values != [] && AllFinite(values)
    ensures Mean(values).Some? && Mean(values).value.Fin?
    ensures Sum(Deviations(values, Mean(values).value.value)) == 0.0
  {
    hide Sum, Mean;
    MeanIs(values);
    DeviationSum(values, Mean(values).value.value);
  }

  /** `===` on nullable numbers: NaN equals nothing. */
  predicate StrictlyEqual(a: Option<Num>, b: Option<Num>) {
    (a.None? && b.None?) || (a.Some? && b.Some? && a.value.Fin? && a == b)
  }

  const TOLERANCE := 0.000001

  predicate ApproximatelyEqual(actual: Option<Num>, expected: Option<Num>) {
    || (actual.None? && expected.None?)
    || (actual.Some? && expected.Some? && actual.value.Fin? && expected.value.Fin?
        && -TOLERANCE <= actual.value.value - expected.value.value <= TOLERANCE)
  }

  function NumberProperty(variant: Json, key: string): Num {
    var p := Property(variant, key);
    if p.Some? && p.value.JNum? then Fin(p.value.n) else NotFinite
  }

  function InstantProperty(variant: Json, key: string): Option<int> {
    var p := Property(variant, key);
    if p.Some? && p.value.JStr? then DateParse(p.value.s) else None
  }

  /** Seconds from charging the beans to first crack. */
  function FirstCrackSeconds(variant: Json): Num {
    var firstCrack := InstantProperty(variant, "first_crack_at_utc");
    var beansAdded := InstantProperty(variant, "beans_added_at_utc");
    if firstCrack.Some? && beansAdded.Some? then Fin((firstCrack.value - beansAdded.value) as real / 1000.0)
    else NotFinite
  }

  /** From two printed clock readings: the seconds from the charge to the crack, negative if it came before. */
  lemma FirstCrackFromCharge(variant: Json, chargeMs: int, crackMs: int)
    requires FourDigitYear(chargeMs / 1000) && FourDigitYear(crackMs / 1000)
    requires Property(variant, "beans_added_at_utc") == Some(JStr(ToIsoString(chargeMs)))
    requires Property(variant, "first_crack_at_utc") == Some(JStr(ToIsoString(crackMs)))
    ensures FirstCrackSeconds(variant) == Fin((crackMs - chargeMs) as real / 1000.0)
  {
    hide ToIsoString, DateParse, FourDigitYear;
    ToIsoStringRoundTrip(chargeMs);
    ToIsoStringRoundTrip(crackMs);
  }

  /** Without one of the two events there is no such time. */
  lemma NoFirstCrackTime(variant: Json)
    requires Property(variant, "beans_added_at_utc") == None || Property(variant, "first_crack_at_utc") == None
    ensures FirstCrackSeconds(variant) == NotFinite
  {
  }

  /** The figures averaged over roasts are those under the summary's own keys. */
  lemma FiguresOf(roasts: seq<CloudRoast>, i: nat, x: real)
    requires i < |roasts|
    ensures Property(roasts[i].summary, "development_time_percent") == Some(JNum(x)) ==>
              DevelopmentPercents(roasts)[i] == Fin(x)
    ensures Property(roasts[i].summary, "total_roast_seconds") == Some(JNum(x)) ==> TotalTimes(roasts)[i] == Fin(x)
    ensures FirstCrackTimes(roasts)[i] == FirstCrackSeconds(roasts[i].summary)
  {
  }

  function DevelopmentPercents(roasts: seq<CloudRoast>): seq<Num> {
    Map((r: CloudRoast) => NumberProperty(r.summary, "development_time_percent"), roasts)
  }

  function FirstCrackTimes(roasts: seq<CloudRoast>): seq<Num> {
    Map((r: CloudRoast) => FirstCrackSeconds(r.summary), roasts)
  }

  function TotalTimes(roasts: seq<CloudRoast>): seq<Num> {
    Map((r: CloudRoast) => NumberProperty(r.summary, "total_roast_seconds"), roasts)
  }

  function Scores(reviews: seq<Review>): seq<Num> {
    Map((r: Review) => r.score, reviews)
  }

  /** One review's score is the rating. */
  lemma OneScore(r: Review)
    requires r.score.Fin?
    ensures Mean(Scores([r])) == Some(r.score)
  {
    hide Mean;
    assert Scores([r]) == [Fin(r.score.value)];
    MeanOfOne(r.score.value);
  }

  /** Three expected means, and the summary fields that miss theirs. */
  datatype Means = Means(percent: Option<Num>, crackTime: Option<Num>, totalTime: Option<Num>)

  function ExpectedMeans(roasts: seq<CloudRoast>): Means {
    Means(Mean(DevelopmentPercents(roasts)), Mean(FirstCrackTimes(roasts)), Mean(TotalTimes(roasts)))
  }

  predicate MeansMatch(s: ReferenceSummary, expected: Means) {
    && ApproximatelyEqual(s.developmentPercentAvg, expected.percent)
    && ApproximatelyEqual(s.firstCrackTimeAvgS, expected.crackTime)
    && ApproximatelyEqual(s.totalTimeAvgS, expected.totalTime)
  }

  ghost predicate MeanRule(s: ReferenceSummary, expected: Means, field: string) {
    || (field == Name(DevelopmentPercentAvg) && !ApproximatelyEqual(s.developmentPercentAvg, expected.percent))
    || (field == Name(FirstCrackTimeAvgS) && !ApproximatelyEqual(s.firstCrackTimeAvgS, expected.crackTime))
    || (field == Name(TotalTimeAvgS) && !ApproximatelyEqual(s.totalTimeAvgS, expected.totalTime))
  }

  method FindMeanMismatches(s: ReferenceSummary, expected: Means) returns (violations: seq<Violation>)
    ensures forall v :: v in violations
                        <==> v == Violation(ReferenceRoastSummaries, GroupText(s), v.field, MeanMatches)
                             && MeanRule(s, expected, v.field)
    ensures violations == [] <==> MeansMatch(s, expected)
  {
    hide Name, ApproximatelyEqual, GroupText;
    var table, id := ReferenceRoastSummaries, GroupText(s);
    violations :=
      AddIf([], !ApproximatelyEqual(s.developmentPercentAvg, expected.percent),
            Violation(table, id, Name(DevelopmentPercentAvg), MeanMatches));
    violations :=
      AddIf(violations, !ApproximatelyEqual(s.firstCrackTimeAvgS, expected.crackTime),
            Violation(table, id, Name(FirstCrackTimeAvgS), MeanMatches));
    violations :=
      AddIf(violations, !ApproximatelyEqual(s.totalTimeAvgS, expected.totalTime),
            Violation(table, id, Name(TotalTimeAvgS), MeanMatches));
  }

  /** The summary's counts and means are those of the contributing roasts of its group and their reviews. */
  predicate AggregatesMatch(output: SeedOutput, s: ReferenceSummary) {
    var roasts := ContributingRoasts(output.cloudRoasts, s.beanOrigin, s.roastLevel);
    var reviews := ReviewsOf(output.tastingReviews, RoastIds(roasts));
    && s.roastCount == Fin(|roasts| as real)
    && s.reviewCount == Fin(|reviews| as real)
    && StrictlyEqual(s.avgRating, Mean(Scores(reviews)))
    && MeansMatch(s, ExpectedMeans(roasts))
  }

  ghost predicate AggregateRule(output: SeedOutput, s: ReferenceSummary, field: string, rule: Rule) {
    var roasts := ContributingRoasts(output.cloudRoasts, s.beanOrigin, s.roastLevel);
    var reviews := ReviewsOf(output.tastingReviews, RoastIds(roasts));
    match rule
    case RoastCountMatches => field == Name(RoastCount) && s.roastCount != Fin(|roasts| as real)
    case ReviewCountMatches => field == Name(ReviewCount) && s.reviewCount != Fin(|reviews| as real)
    case AvgRatingMatches => field == Name(AvgRating) && !StrictlyEqual(s.avgRating, Mean(Scores(reviews)))
    case MeanMatches => MeanRule(s, ExpectedMeans(roasts), field)
    case _ => false
  }

  method FindAggregateMismatches(output: SeedOutput, s: ReferenceSummary) returns (violations: seq<Violation>)
    ensures forall v :: v in violations
                        <==> v == Violation(ReferenceRoastSummaries, GroupText(s), v.field, v.rule)
                             && AggregateRule(output, s, v.field, v.rule)
    ensures violations == [] <==> AggregatesMatch(output, s)
  {
    hide Name, ContributingRoasts, RoastIds, ReviewsOf, Mean, DevelopmentPercents, FirstCrackTimes, TotalTimes, Scores,
      StrictlyEqual, GroupText, MeanRule, MeansMatch;
    var roasts := ContributingRoasts(output.cloudRoasts, s.beanOrigin, s.roastLevel);
    var reviews := ReviewsOf(output.tastingReviews, RoastIds(roasts));
    var rating := AverageFinite(Scores(reviews));
    var percent := AverageFinite(DevelopmentPercents(roasts));
    var crackTime := AverageFinite(FirstCrackTimes(roasts));
    var totalTime := AverageFinite(TotalTimes(roasts));
    var table, id := ReferenceRoastSummaries, GroupText(s);
    violations :=
      AddIf([], s.roastCount != Fin(|roasts| as real), Violation(table, id, Name(RoastCount), RoastCountMatches));
    violations :=
      AddIf(violations, s.reviewCount != Fin(|reviews| as real),
            Violation(table, id, Name(ReviewCount), ReviewCountMatches));
    violations :=
      AddIf(violations, !StrictlyEqual(s.avgRating, rating), Violation(table, id, Name(AvgRating), AvgRatingMatches));
    var means := FindMeanMismatches(s, Means(percent, crackTime, totalTime));
    violations := violations + means;
  }

  // ----- The whole check

  ghost predicate RowsOk(output: SeedOutput, now: int, isIP: string -> bool) {
    && (forall row :: row in output.cloudRoasts ==> RoastOk(row, isIP))
    && (forall row :: row in output.roastTelemetry ==> TelemetryOk(row, isIP))
    && (forall row :: row in output.roastArtifacts ==> ArtifactOk(row, isIP))
    && (forall row :: row in output.tastingReviews ==> ReviewOk(row, now, isIP))
    && (forall row :: row in output.referenceRoastSummaries ==> SummaryOk(row, isIP))
  }

  predicate ChildrenReferenceRoasts(output: SeedOutput) {
    var known := RoastIds(output.cloudRoasts);
    && (forall row :: row in output.roastTelemetry ==> row.roastId in known)
    && (forall row :: row in output.roastArtifacts ==> row.roastId in known)
    && (forall row :: row in output.tastingReviews ==> row.roastId in known)
  }

  predicate DistinctPresent<K(==)>(keys: seq<Option<K>>) {
    Distinct(Tracked(keys, |keys|))
  }

  function RoastIdKeys(rows: seq<CloudRoast>): seq<Option<string>> {
    Map((r: CloudRoast) => r.id, rows)
  }

  function ArtifactIdKeys(rows: seq<Artifact>): seq<Option<string>> {
    Map((r: Artifact) => r.id, rows)
  }

  function ReviewIdKeys(rows: seq<Review>): seq<Option<string>> {
    Map((r: Review) => r.id, rows)
  }

  function SummaryIdKeys(rows: seq<ReferenceSummary>): seq<Option<string>> {
    Map((r: ReferenceSummary) => r.id, rows)
  }

  function IdempotencyKeys(rows: seq<CloudRoast>): seq<Option<string>> {
    Map((r: CloudRoast) => Some(r.idempotencyKey), rows)
  }

  function SlugKeys(rows: seq<CloudRoast>): seq<Option<string>> {
    Map((r: CloudRoast) => Some(r.publicSlug), rows)
  }

  function SummaryGroupKeys(rows: seq<ReferenceSummary>): seq<Option<Group>> {
    Map((r: ReferenceSummary) => Some(SummaryGroup(r)), rows)
  }

  predicate IdentitiesUnique(output: SeedOutput) {
    && DistinctPresent(RoastIdKeys(output.cloudRoasts))
    && DistinctPresent(ArtifactIdKeys(output.roastArtifacts))
    && DistinctPresent(ReviewIdKeys(output.tastingReviews))
    && DistinctPresent(SummaryIdKeys(output.referenceRoastSummaries))
    && DistinctPresent(IdempotencyKeys(output.cloudRoasts))
    && DistinctPresent(SlugKeys(output.cloudRoasts))
    && DistinctPresent(SummaryGroupKeys(output.referenceRoastSummaries))
  }

  /** What an accepted seed output satisfies. */
  ghost predicate ValidOutput(output: SeedOutput, now: int, isIP: string -> bool) {
    && RowsOk(output, now, isIP)
    && ChildrenReferenceRoasts(output)
    && IdentitiesUnique(output)
    && Covered(output.cloudRoasts, output.referenceRoastSummaries)
    && forall s :: s in output.referenceRoastSummaries ==> AggregatesMatch(output, s)
  }
}
