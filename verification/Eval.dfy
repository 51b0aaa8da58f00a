// eval/harness.py and eval/failure_clustering.py: the weighted score of an evaluation, and the
// clusters its failed cases are grouped into. Scores are exact reals, before rounding.
module Eval {
  // weight and tags, sorted, of a case, by id; ids are unique in a spec.
  datatype SpecCase = SpecCase(weight: real, tags: seq<string>)
  type Spec = map<string, SpecCase>

  datatype Status = Scored | Errored | Skipped

  // failing: the names of the scorers that did not pass, sorted.
  datatype CaseResult = CaseResult(id: string, status: Status, score: real, passed: bool, failing: seq<string>)

  // --- weighted means ---

  function WeightedSum(weights: seq<real>, scores: seq<real>): real
    requires |weights| == |scores|
  {
    if weights == [] then 0.0 else weights[0] * scores[0] + WeightedSum(weights[1..], scores[1..])
  }

  function Sum(xs: seq<real>): real {
    if xs == [] then 0.0 else xs[0] + Sum(xs[1..])
  }

  // _weighted_case_score.
  function WeightedCaseScore(weights: seq<real>, scores: seq<real>): real
    requires |weights| == |scores|
  {
    Mean(WeightedSum(weights, scores), Sum(weights))
  }

  function Mean(total: real, weight: real): real {
    if weight > 0.0 then total / weight else 0.0
  }

  predicate Nonnegative(xs: seq<real>) {
    forall i :: 0 <= i < |xs| ==> xs[i] >= 0.0
  }

  predicate Within(xs: seq<real>, lo: real, hi: real) {
    forall i :: 0 <= i < |xs| ==> lo <= xs[i] <= hi
  }

  // lo and hi bound the weighted sum x of weight w.
  predicate MeanWithin(x: real, w: real, lo: real, hi: real) {
    w >= 0.0 && lo * w <= x <= hi * w
  }

  lemma AddRunnable(w: real, s: real, lo: real, hi: real, x: real, rest: real)
    requires MeanWithin(x, rest, lo, hi) && w >= 0.0 && lo <= s <= hi
    ensures MeanWithin(w * s + x, w + rest, lo, hi)
  {
    AddTerm(w, s, lo, hi, rest, x, w + rest, w * s + x);
  }

  lemma WithinRest(weights: seq<real>, scores: seq<real>, lo: real, hi: real)
    requires |weights| == |scores| > 0 && Nonnegative(weights) && Within(scores, lo, hi)
    ensures Nonnegative(weights[1..]) && Within(scores[1..], lo, hi) && weights[0] >= 0.0 && lo <= scores[0] <= hi
  {
  }

  lemma {:induction false} WeightedSumBounds(weights: seq<real>, scores: seq<real>, lo: real, hi: real)
    requires |weights| == |scores| && Nonnegative(weights) && Within(scores, lo, hi)
    ensures MeanWithin(WeightedSum(weights, scores), Sum(weights), lo, hi)
  {
    if weights != [] {
      WithinRest(weights, scores, lo, hi);
      WeightedSumBounds(weights[1..], scores[1..], lo, hi);
      AddRunnable(weights[0], scores[0], lo, hi, WeightedSum(weights[1..], scores[1..]), Sum(weights[1..]));
    }
  }

  lemma AddTerm(w: real, s: real, lo: real, hi: real, rest: real, sum: real, rest': real, sum': real)
    requires w >= 0.0 && lo <= s <= hi && lo * rest <= sum <= hi * rest
    requires rest' == w + rest && sum' == w * s + sum
    ensures lo * rest' <= sum' <= hi * rest'
  {
  }

  lemma Divides(x: real, lo: real, hi: real, d: real)
    requires d > 0.0 && lo * d <= x <= hi * d
    ensures lo <= Mean(x, d) <= hi
  {
  }

  // The mean lies between any bounds of the scores; in particular scores that all reach a
  // threshold have a mean that does.
  lemma MeanIsBounded(weights: seq<real>, scores: seq<real>, lo: real, hi: real)
    requires |weights| == |scores| && Nonnegative(weights) && Within(scores, lo, hi) && Sum(weights) > 0.0
    ensures lo <= WeightedCaseScore(weights, scores) <= hi
  {
    WeightedSumBounds(weights, scores, lo, hi);
    MeanBounds(WeightedSum(weights, scores), Sum(weights), lo, hi);
  }

  lemma {:induction false} SumsByScore(weights: seq<real>, scores: seq<real>, i: nat, w: real, x: real)
    requires |weights| == |scores| && i < |scores|
    ensures WeightedSum(weights, scores[i := x]) == WeightedSum(weights, scores) + weights[i] * (x - scores[i])
    ensures Sum(weights[i := w]) == Sum(weights) + (w - weights[i])
  {
    if i == 0 {
      assert scores[0 := x][1..] == scores[1..] && weights[0 := w][1..] == weights[1..];
      assert weights[0] * x == weights[0] * scores[0] + weights[0] * (x - scores[0]);
    } else {
      assert scores[i := x][1..] == scores[1..][i - 1 := x] && weights[i := w][1..] == weights[1..][i - 1 := w];
      SumsByScore(weights[1..], scores[1..], i - 1, w, x);
    }
  }

  lemma MeanTimes(total: real, weight: real)
    ensures weight > 0.0 ==> Mean(total, weight) * weight == total
    ensures weight <= 0.0 ==> Mean(total, weight) == 0.0
  {
  }

  // A case's score times the total weight is the weighted sum, in which each score counts by its
  // weight; without weight it is 0.
  lemma ScoresCountByWeight(weights: seq<real>, scores: seq<real>, i: nat, x: real)
    requires |weights| == |scores| && i < |scores|
    ensures Sum(weights) > 0.0 ==>
              WeightedCaseScore(weights, scores[i := x]) * Sum(weights)
              == WeightedCaseScore(weights, scores) * Sum(weights) + weights[i] * (x - scores[i])
    ensures Sum(weights) <= 0.0 ==> WeightedCaseScore(weights, scores) == 0.0
  {
    SumsByScore(weights, scores, i, weights[i], x);
    MeanTimes(WeightedSum(weights, scores), Sum(weights));
    MeanTimes(WeightedSum(weights, scores[i := x]), Sum(weights));
  }

  // --- _aggregate ---

  function Weight(spec: Spec, id: string): real {
    if id in spec then spec[id].weight else 1.0
  }

  predicate Runnable(c: CaseResult) {
    !c.status.Skipped?
  }

  predicate Failed(c: CaseResult) {
    Runnable(c) && !c.passed
  }

  // Over the runnable cases: their weight, and their weighted score.
  function RunWeight(spec: Spec, cases: seq<CaseResult>): real {
    if cases == [] then 0.0
    else (if Runnable(cases[0]) then Weight(spec, cases[0].id) else 0.0) + RunWeight(spec, cases[1..])
  }

  function RunScore(spec: Spec, cases: seq<CaseResult>): real {
    if cases == [] then 0.0
    else (if Runnable(cases[0]) then Weight(spec, cases[0].id) * cases[0].score else 0.0) + RunScore(spec, cases[1..])
  }

  function AggregateScore(spec: Spec, cases: seq<CaseResult>): real {
    Mean(RunScore(spec, cases), RunWeight(spec, cases))
  }

  predicate ValidSpec(spec: Spec) {
    forall id :: id in spec ==> spec[id].weight >= 0.0
  }

  predicate Reaches(cases: seq<CaseResult>, lo: real, hi: real) {
    forall i :: 0 <= i < |cases| && Runnable(cases[i]) ==> lo <= cases[i].score <= hi
  }

  lemma ReachesRest(cases: seq<CaseResult>, lo: real, hi: real)
    requires cases != [] && Reaches(cases, lo, hi)
    ensures Reaches(cases[1..], lo, hi) && (Runnable(cases[0]) ==> lo <= cases[0].score <= hi)
  {
  }

  lemma {:induction false} RunScoreBounds(spec: Spec, cases: seq<CaseResult>, lo: real, hi: real)
    requires ValidSpec(spec) && Reaches(cases, lo, hi)
    ensures MeanWithin(RunScore(spec, cases), RunWeight(spec, cases), lo, hi)
  {
    if cases != [] {
      var c, rest := cases[0], cases[1..];
      ReachesRest(cases, lo, hi);
      RunScoreBounds(spec, rest, lo, hi);
      if Runnable(c) {
        AddRunnable(Weight(spec, c.id), c.score, lo, hi, RunScore(spec, rest), RunWeight(spec, rest));
      }
    }
  }

  // If every runnable case scores between two bounds and they weigh anything, so does the run:
  // a run whose cases all reach the threshold reaches it.
  lemma AggregateIsBounded(spec: Spec, cases: seq<CaseResult>, lo: real, hi: real)
    requires ValidSpec(spec) && Reaches(cases, lo, hi) && RunWeight(spec, cases) > 0.0
    ensures lo <= AggregateScore(spec, cases) <= hi
  {
    RunScoreBounds(spec, cases, lo, hi);
    MeanBounds(RunScore(spec, cases), RunWeight(spec, cases), lo, hi);
  }

  // What one result adds to the weight and the weighted score of a run: nothing if it was skipped,
  // and a weight of 1 if the spec does not know it.
  function ItsWeight(spec: Spec, c: CaseResult): real {
    if c.status == Skipped then 0.0 else if c.id in spec then spec[c.id].weight else 1.0
  }

  // The aggregate times the weight of what ran is its weighted score, and both are sums over the
  // results; if nothing weighs anything it is 0.
  lemma AggregateIsWeightedMean(spec: Spec, cases: seq<CaseResult>, c: CaseResult)
    ensures RunWeight(spec, [c] + cases) == ItsWeight(spec, c) + RunWeight(spec, cases)
    ensures RunScore(spec, [c] + cases) == ItsWeight(spec, c) * c.score + RunScore(spec, cases)
    ensures RunWeight(spec, []) == RunScore(spec, []) == 0.0
    ensures RunWeight(spec, cases) > 0.0 ==>
              AggregateScore(spec, cases) * RunWeight(spec, cases) == RunScore(spec, cases)
    ensures RunWeight(spec, cases) <= 0.0 ==> AggregateScore(spec, cases) == 0.0
  {
    assert ([c] + cases)[1..] == cases;
    MeanTimes(RunScore(spec, cases), RunWeight(spec, cases));
  }

  lemma MeanBounds(x: real, w: real, lo: real, hi: real)
    requires MeanWithin(x, w, lo, hi) && w > 0.0
    ensures lo <= Mean(x, w) <= hi
  {
    Divides(x, lo, hi, w);
  }

  // --- cluster_failures ---

  type Key = seq<string>

  const SCORER := "scorer:"

  function Prefixed(names: seq<string>): (p: seq<string>)
    ensures |p| == |names|
  {
    seq(|names|, i requires 0 <= i < |names| => SCORER + names[i])
  }

  function Joined(tags: seq<string>, failing: seq<string>): Key {
    tags + Prefixed(failing)
  }

  function TagsOf(spec: Spec, c: CaseResult): seq<string> {
    if c.id in spec then spec[c.id].tags else []
  }

  function KeyOf(spec: Spec, c: CaseResult): Key {
    Joined(TagsOf(spec, c), c.failing)
  }

  datatype Cluster = Cluster(key: Key, cases: seq<CaseResult>, impact: real)

  function WithKey(spec: Spec, cases: seq<CaseResult>, key: Key): seq<CaseResult> {
    if cases == [] then []
    else (if Failed(cases[0]) && KeyOf(spec, cases[0]) == key then [cases[0]] else []) + WithKey(spec, cases[1..], key)
  }

  function TotalWeight(spec: Spec, cases: seq<CaseResult>): real {
    if cases == [] then 0.0
    else
      (if Runnable(cases[0]) && cases[0].id in spec then spec[cases[0].id].weight else 0.0)
      + TotalWeight(spec, cases[1..])
  }

  function Shortfall(spec: Spec, c: CaseResult): real {
    Weight(spec, c.id) * (1.0 - c.score)
  }

  function Deficit(spec: Spec, members: seq<CaseResult>): real {
    if members == [] then 0.0
    else Shortfall(spec, members[0]) + Deficit(spec, members[1..])
  }

  function Impact(spec: Spec, cases: seq<CaseResult>, members: seq<CaseResult>): real {
    Mean(Deficit(spec, members), TotalWeight(spec, cases))
  }

  // The grouping: keys in order of first appearance, each with its cases in order.
  ghost predicate Grouped(spec: Spec, cases: seq<CaseResult>, keys: seq<Key>, members: map<Key, seq<CaseResult>>) {
    && (forall i, j :: 0 <= i < j < |keys| ==> keys[i] != keys[j])
    && (forall k :: k in members <==> k in keys)
    && (forall k :: k in keys ==> k != [] && members[k] == WithKey(spec, cases, k) != [])
    && forall i :: 0 <= i < |cases| && Failed(cases[i]) && KeyOf(spec, cases[i]) != [] ==> KeyOf(spec, cases[i]) in keys
  }

  method ClusterFailures(spec: Spec, cases: seq<CaseResult>)
    returns (clusters: seq<Cluster>, unclustered: seq<CaseResult>)
    ensures unclustered == WithKey(spec, cases, [])
    ensures IsClustering(spec, cases, clusters)
  {
    var keys: seq<Key> := [];
    var grouped: map<Key, seq<CaseResult>> := map[];
    unclustered := [];
    for i := 0 to |cases|
      invariant Grouped(spec, cases[..i], keys, grouped) && unclustered == WithKey(spec, cases[..i], [])
    {
      var c := cases[i];
      var key := KeyOf(spec, c);
      GroupOne(spec, cases, i, keys, grouped);
      if Failed(c) {
        if key == [] {
          unclustered := unclustered + [c];
        } else {
          if key !in grouped {
            keys := keys + [key];
          }
          grouped := AddTo(grouped, key, c);
        }
      }
    }
    assert cases[..|cases|] == cases;
    clusters := BuildClusters(spec, cases, keys, grouped);
  }

  method BuildClusters(spec: Spec, cases: seq<CaseResult>, keys: seq<Key>, grouped: map<Key, seq<CaseResult>>)
    returns (clusters: seq<Cluster>)
    requires Grouped(spec, cases, keys, grouped)
    ensures IsClustering(spec, cases, clusters)
  {
    clusters := [];
    for i := 0 to |keys|
      invariant |clusters| == i
      invariant forall j :: 0 <= j < i ==>
                clusters[j] == Cluster(keys[j], grouped[keys[j]], Impact(spec, cases, grouped[keys[j]]))
    {
      clusters := clusters + [Cluster(keys[i], grouped[keys[i]], Impact(spec, cases, grouped[keys[i]]))];
    }
    forall i | 0 <= i < |cases| && Failed(cases[i]) && KeyOf(spec, cases[i]) != []
      ensures exists j :: 0 <= j < |clusters| && clusters[j].key == KeyOf(spec, cases[i])
    {
      var j :| 0 <= j < |keys| && keys[j] == KeyOf(spec, cases[i]);
      assert clusters[j].key == keys[j];
    }
  }

  // One cluster for each key that a failed case has, holding just the failed cases with it.
  ghost predicate IsClustering(spec: Spec, cases: seq<CaseResult>, clusters: seq<Cluster>) {
    && (forall i, j :: 0 <= i < j < |clusters| ==> clusters[i].key != clusters[j].key)
    && (forall i :: 0 <= i < |clusters| ==>
          && clusters[i].key != [] && clusters[i].cases != []
          && clusters[i].cases == WithKey(spec, cases, clusters[i].key)
          && clusters[i].impact == Impact(spec, cases, clusters[i].cases))
    && forall i :: 0 <= i < |cases| && Failed(cases[i]) && KeyOf(spec, cases[i]) != [] ==>
         exists j :: 0 <= j < |clusters| && clusters[j].key == KeyOf(spec, cases[i])
  }

  function AddTo(members: map<Key, seq<CaseResult>>, key: Key, c: CaseResult): map<Key, seq<CaseResult>> {
    members[key := (if key in members then members[key] else []) + [c]]
  }

  lemma GroupOne(spec: Spec, cases: seq<CaseResult>, i: nat, keys: seq<Key>, grouped: map<Key, seq<CaseResult>>)
    requires i < |cases| && Grouped(spec, cases[..i], keys, grouped)
    ensures var c := cases[i]; var key := KeyOf(spec, c);
            && WithKey(spec, cases[..i + 1], [])
               == WithKey(spec, cases[..i], []) + (if Failed(c) && key == [] then [c] else [])
            && if Failed(c) && key != [] then
                 Grouped(spec, cases[..i + 1], if key in grouped then keys else keys + [key], AddTo(grouped, key, c))
               else Grouped(spec, cases[..i + 1], keys, grouped)
  {
    var before, c := cases[..i], cases[i];
    assert cases[..i + 1] == before + [c];
    WithKeySnoc(spec, before, c, []);
    if !Failed(c) || KeyOf(spec, c) == [] {
      GroupSame(spec, before, c, keys, grouped);
    } else if KeyOf(spec, c) in grouped {
      GroupOld(spec, before, c, keys, grouped);
    } else {
      GroupNew(spec, before, c, keys, grouped);
    }
  }

  lemma {:induction false} WithKeySnoc(spec: Spec, cases: seq<CaseResult>, c: CaseResult, k: Key)
    ensures WithKey(spec, cases + [c], k)
            == WithKey(spec, cases, k) + if Failed(c) && KeyOf(spec, c) == k then [c] else []
  {
    if cases == [] {
      assert (cases + [c])[1..] == [];
    } else {
      assert (cases + [c])[1..] == cases[1..] + [c];
      WithKeySnoc(spec, cases[1..], c, k);
    }
  }

  lemma GroupSame(spec: Spec, cases: seq<CaseResult>, c: CaseResult, keys: seq<Key>, grouped: map<Key, seq<CaseResult>>)
    requires Grouped(spec, cases, keys, grouped) && (!Failed(c) || KeyOf(spec, c) == [])
    ensures Grouped(spec, cases + [c], keys, grouped)
  {
    forall k | k in keys ensures grouped[k] == WithKey(spec, cases + [c], k) {
      WithKeySnoc(spec, cases, c, k);
    }
  }

  lemma GroupOld(spec: Spec, cases: seq<CaseResult>, c: CaseResult, keys: seq<Key>, grouped: map<Key, seq<CaseResult>>)
    requires Grouped(spec, cases, keys, grouped) && Failed(c) && KeyOf(spec, c) != [] && KeyOf(spec, c) in grouped
    ensures Grouped(spec, cases + [c], keys, AddTo(grouped, KeyOf(spec, c), c))
  {
    var next := AddTo(grouped, KeyOf(spec, c), c);
    forall k | k in keys ensures next[k] == WithKey(spec, cases + [c], k) != [] {
      WithKeySnoc(spec, cases, c, k);
    }
    StillGrouped(spec, cases, c, keys, grouped, next);
  }

  // No key is new.
  lemma StillGrouped(spec: Spec, cases: seq<CaseResult>, c: CaseResult, keys: seq<Key>,
                     grouped: map<Key, seq<CaseResult>>, next: map<Key, seq<CaseResult>>)
    requires Grouped(spec, cases, keys, grouped) && next.Keys == grouped.Keys
    requires Failed(c) && KeyOf(spec, c) != [] ==> KeyOf(spec, c) in keys
    requires forall k :: k in keys ==> next[k] == WithKey(spec, cases + [c], k) != []
    ensures Grouped(spec, cases + [c], keys, next)
  {
  }

  lemma GroupNew(spec: Spec, cases: seq<CaseResult>, c: CaseResult, keys: seq<Key>, grouped: map<Key, seq<CaseResult>>)
    requires Grouped(spec, cases, keys, grouped) && Failed(c) && KeyOf(spec, c) != [] && KeyOf(spec, c) !in grouped
    ensures Grouped(spec, cases + [c], keys + [KeyOf(spec, c)], AddTo(grouped, KeyOf(spec, c), c))
  {
    var key := KeyOf(spec, c);
    var next, more := AddTo(grouped, key, c), keys + [key];
    NoneWithKey(spec, cases, key);
    assert WithKey(spec, cases, key) == [];
    WithKeySnoc(spec, cases, c, key);
    forall k | k in keys ensures next[k] == WithKey(spec, cases + [c], k) != [] {
      WithKeySnoc(spec, cases, c, k);
    }
    assert more[|keys|] == key && forall k :: k in more <==> k in keys || k == key;
  }

  lemma {:induction false} NoneWithKey(spec: Spec, cases: seq<CaseResult>, key: Key)
    ensures WithKey(spec, cases, key) == []
            || exists i :: 0 <= i < |cases| && Failed(cases[i]) && KeyOf(spec, cases[i]) == key
  {
    if cases != [] {
      NoneWithKey(spec, cases[1..], key);
      if i :| 0 <= i < |cases| - 1 && Failed(cases[1..][i]) && KeyOf(spec, cases[1..][i]) == key {
        assert Failed(cases[i + 1]) && KeyOf(spec, cases[i + 1]) == key;
      }
    }
  }

  // --- keys and their two coordinates ---

  predicate LooksLikeScorer(tag: string) {
    |tag| >= |SCORER| && tag[..|SCORER|] == SCORER
  }

  ghost predicate PlainTags(tags: seq<string>) {
    forall i :: 0 <= i < |tags| ==> !LooksLikeScorer(tags[i])
  }

  lemma PrefixedAt(names: seq<string>, i: nat)
    requires i < |names|
    ensures LooksLikeScorer(Prefixed(names)[i]) && Prefixed(names)[i][|SCORER|..] == names[i]
  {
  }

  lemma ShorterTagsDiffer(t: seq<string>, f: seq<string>, u: seq<string>, g: seq<string>)
    requires PlainTags(u) && |t| < |u|
    ensures Joined(t, f) != Joined(u, g)
  {
    if f != [] {
      PrefixedAt(f, 0);
      assert Joined(t, f)[|t|] == Prefixed(f)[0] && Joined(u, g)[|t|] == u[|t|];
    }
  }

  lemma JoinedOnce(t: seq<string>, f: seq<string>, u: seq<string>, g: seq<string>)
    requires PlainTags(t) && PlainTags(u) && Joined(t, f) == Joined(u, g) && |t| <= |u|
    ensures t == u && f == g
  {
    var key := Joined(t, f);
    if |t| < |u| {
      ShorterTagsDiffer(t, f, u, g);
      assert false;
    }
    assert key[..|t|] == t && key[..|t|] == u && key[|t|..] == Prefixed(f) && key[|t|..] == Prefixed(g);
    forall i | 0 <= i < |f| ensures f[i] == g[i] {
      PrefixedAt(f, i);
      PrefixedAt(g, i);
    }
  }

  predicate ToldApart(t: seq<string>, f: seq<string>, u: seq<string>, g: seq<string>) {
    Joined(t, f) == Joined(u, g) ==> t == u && f == g
  }

  predicate Over(tags: set<string>, t: seq<string>) {
    forall i :: 0 <= i < |t| ==> t[i] in tags
  }

  // With tags from a given set, the key tells both coordinates apart if and only if no tag of
  // the set begins like the mark put before a scorer's name.
  lemma KeysTellApart(tags: set<string>)
    ensures (forall t, f, u, g :: Over(tags, t) && Over(tags, u) ==> ToldApart(t, f, u, g))
            <==> forall x :: x in tags ==> !LooksLikeScorer(x)
  {
    if forall x :: x in tags ==> !LooksLikeScorer(x) {
      forall t, f, u, g | Over(tags, t) && Over(tags, u) ensures ToldApart(t, f, u, g) {
        if Joined(t, f) == Joined(u, g) {
          if |t| <= |u| { JoinedOnce(t, f, u, g); } else { JoinedOnce(u, g, t, f); }
        }
      }
    } else {
      var x :| x in tags && LooksLikeScorer(x);
      var name := x[|SCORER|..];
      assert SCORER + name == x && Prefixed([name]) == [x] && Prefixed([]) == [];
      assert Joined([x], []) == [x] && Joined([], [name]) == [x];
      assert Over(tags, [x]) && Over(tags, []) && !ToldApart([x], [], [], [name]);
    }
  }

  // Then two failed cases share a cluster exactly when their tags and their failing scorers agree.
  lemma SameClusterIffBothAgree(spec: Spec, c: CaseResult, d: CaseResult)
    requires PlainTags(TagsOf(spec, c)) && PlainTags(TagsOf(spec, d))
    ensures KeyOf(spec, c) == KeyOf(spec, d) <==> TagsOf(spec, c) == TagsOf(spec, d) && c.failing == d.failing
  {
    if KeyOf(spec, c) == KeyOf(spec, d) {
      if |TagsOf(spec, c)| <= |TagsOf(spec, d)| {
        JoinedOnce(TagsOf(spec, c), c.failing, TagsOf(spec, d), d.failing);
      } else {
        JoinedOnce(TagsOf(spec, d), d.failing, TagsOf(spec, c), c.failing);
      }
    }
  }

  // --- each failure once ---

  function Occurs(clusters: seq<Cluster>, c: CaseResult): nat {
    if clusters == [] then 0 else Occurs(clusters[..|clusters| - 1], c) + multiset(clusters[|clusters| - 1].cases)[c]
  }

  lemma {:induction false} WithKeyCounts(spec: Spec, cases: seq<CaseResult>, key: Key, c: CaseResult)
    ensures multiset(WithKey(spec, cases, key))[c]
            == if Failed(c) && KeyOf(spec, c) == key then multiset(cases)[c] else 0
  {
    if cases != [] {
      WithKeyCounts(spec, cases[1..], key, c);
      ConsCounts(cases[0], cases[1..], c);
      ConsCounts(cases[0], WithKey(spec, cases[1..], key), c);
      assert cases == [cases[0]] + cases[1..];
      assert [] + WithKey(spec, cases[1..], key) == WithKey(spec, cases[1..], key);
    }
  }

  lemma ConsCounts(head: CaseResult, rest: seq<CaseResult>, c: CaseResult)
    ensures multiset([head] + rest)[c] == multiset(rest)[c] + if head == c then 1 else 0
  {
  }

  lemma {:induction false} OccursByKey(spec: Spec, cases: seq<CaseResult>, clusters: seq<Cluster>, c: CaseResult)
    requires forall i, j :: 0 <= i < j < |clusters| ==> clusters[i].key != clusters[j].key
    requires forall i :: 0 <= i < |clusters| ==> clusters[i].cases == WithKey(spec, cases, clusters[i].key)
    ensures Occurs(clusters, c) == if Failed(c) && exists j :: 0 <= j < |clusters| && clusters[j].key == KeyOf(spec, c)
                                   then multiset(cases)[c] else 0
  {
    if clusters != [] {
      var n := |clusters| - 1;
      OccursByKey(spec, cases, clusters[..n], c);
      WithKeyCounts(spec, cases, clusters[n].key, c);
      assert forall j :: 0 <= j < n ==> clusters[..n][j] == clusters[j];
    }
  }

  // A clustering loses no failed case and counts none twice: as often as a result that did not
  // pass, errored ones included, is among the run's cases, it is in the clusters and the
  // unclustered list together; results that
  // passed or were skipped are in neither.
  lemma EachFailureOnce(spec: Spec, cases: seq<CaseResult>, clusters: seq<Cluster>, unclustered: seq<CaseResult>,
                        c: CaseResult)
    requires IsClustering(spec, cases, clusters) && unclustered == WithKey(spec, cases, [])
    ensures Occurs(clusters, c) + multiset(unclustered)[c]
            == if c.status != Skipped && !c.passed then multiset(cases)[c] else 0
    ensures Occurs(clusters, c) == 0 || multiset(unclustered)[c] == 0
  {
    OccursByKey(spec, cases, clusters, c);
    WithKeyCounts(spec, cases, [], c);
    if Failed(c) && c in multiset(cases) {
      var i :| 0 <= i < |cases| && cases[i] == c;
    }
  }

  // --- the impact of a cluster ---

  predicate InCluster(spec: Spec, c: CaseResult, key: Key) {
    Failed(c) && KeyOf(spec, c) == key
  }

  // The run with every case of a cluster scoring 1.
  function Raised(spec: Spec, cases: seq<CaseResult>, key: Key): (r: seq<CaseResult>)
    ensures |r| == |cases|
  {
    if cases == [] then []
    else [if InCluster(spec, cases[0], key) then cases[0].(score := 1.0) else cases[0]] + Raised(spec, cases[1..], key)
  }

  lemma {:induction false} RaisedSums(spec: Spec, cases: seq<CaseResult>, key: Key)
    ensures RunWeight(spec, Raised(spec, cases, key)) == RunWeight(spec, cases)
    ensures RunScore(spec, Raised(spec, cases, key)) == RunScore(spec, cases) + Deficit(spec, WithKey(spec, cases, key))
  {
    if cases != [] {
      var c, rest := cases[0], cases[1..];
      RaisedSums(spec, rest, key);
      assert Raised(spec, cases, key)[1..] == Raised(spec, rest, key);
      DeficitHead(spec, cases, key);
      if InCluster(spec, c, key) {
        RaisedTerm(Weight(spec, c.id), c.score);
      }
    }
  }

  lemma DeficitCons(spec: Spec, c: CaseResult, members: seq<CaseResult>)
    ensures Deficit(spec, [c] + members) == Shortfall(spec, c) + Deficit(spec, members)
  {
    assert ([c] + members)[1..] == members;
  }

  lemma DeficitHead(spec: Spec, cases: seq<CaseResult>, key: Key)
    requires cases != []
    ensures Deficit(spec, WithKey(spec, cases, key))
            == (if InCluster(spec, cases[0], key) then Shortfall(spec, cases[0]) else 0.0)
               + Deficit(spec, WithKey(spec, cases[1..], key))
  {
    var rest := WithKey(spec, cases[1..], key);
    if InCluster(spec, cases[0], key) {
      DeficitCons(spec, cases[0], rest);
    } else {
      assert WithKey(spec, cases, key) == rest;
    }
  }

  lemma RaisedTerm(w: real, s: real)
    ensures w * 1.0 == w * s + w * (1.0 - s)
  {
  }

  // Every case that ran is in the spec.
  predicate AllKnown(spec: Spec, cases: seq<CaseResult>) {
    forall i :: 0 <= i < |cases| && Runnable(cases[i]) ==> cases[i].id in spec
  }

  lemma {:induction false} UnknownWeighOne(spec: Spec, cases: seq<CaseResult>)
    requires ValidSpec(spec)
    ensures 0.0 <= TotalWeight(spec, cases) <= RunWeight(spec, cases)
    ensures TotalWeight(spec, cases) == RunWeight(spec, cases) <==> AllKnown(spec, cases)
  {
    if cases != [] {
      UnknownWeighOne(spec, cases[1..]);
      assert AllKnown(spec, cases) <==> (Runnable(cases[0]) ==> cases[0].id in spec) && AllKnown(spec, cases[1..]) by {
        assert forall i :: 0 < i < |cases| ==> cases[i] == cases[1..][i - 1];
        assert forall i :: 0 <= i < |cases| - 1 ==> cases[1..][i] == cases[i + 1];
      }
    }
  }

  lemma QuotientsAgree(d: real, w: real, t: real)
    requires w >= t >= 0.0
    ensures Mean(d, w) == Mean(d, t) <==> d == 0.0 || w == t
  {
  }

  // Fixing every case of a cluster raises the score by exactly the cluster's impact, if and
  // only if every case that ran is in the spec or the cluster has no deficit. A case unknown to
  // the spec weighs 1 in the score but nothing in the clustering's total.
  lemma ImpactIsTheGain(spec: Spec, cases: seq<CaseResult>, key: Key)
    requires ValidSpec(spec)
    ensures AggregateScore(spec, Raised(spec, cases, key)) - AggregateScore(spec, cases)
            == Impact(spec, cases, WithKey(spec, cases, key))
            <==> AllKnown(spec, cases) || Deficit(spec, WithKey(spec, cases, key)) == 0.0
  {
    RaisedSums(spec, cases, key);
    UnknownWeighOne(spec, cases);
    var w, d, x := RunWeight(spec, cases), Deficit(spec, WithKey(spec, cases, key)), RunScore(spec, cases);
    GainIsQuotient(w, d, x);
    QuotientsAgree(d, w, TotalWeight(spec, cases));
  }

  lemma GainIsQuotient(w: real, d: real, x: real)
    ensures Mean(x + d, w) - Mean(x, w) == Mean(d, w)
  {
  }

  // One failed case of weight 1, and one the spec does not know: the cluster claims an impact
  // of 1, but fixing it gains a half.
  lemma UnknownCaseOverstatesImpact()
    ensures var spec: Spec := map["a" := SpecCase(1.0, ["t"])];
            var cases := [CaseResult("a", Scored, 0.0, false, []), CaseResult("b", Scored, 1.0, true, [])];
            && Impact(spec, cases, WithKey(spec, cases, ["t"])) == 1.0
            && AggregateScore(spec, Raised(spec, cases, ["t"])) - AggregateScore(spec, cases) == 0.5
  {
    var spec: Spec := map["a" := SpecCase(1.0, ["t"])];
    var a, b := CaseResult("a", Scored, 0.0, false, []), CaseResult("b", Scored, 1.0, true, []);
    var cases := [a, b];
    assert cases[1..] == [b] && [b][1..] == [];
    assert KeyOf(spec, a) == ["t"] + [];
    assert WithKey(spec, [b], ["t"]) == [];
    assert WithKey(spec, cases, ["t"]) == [a] && [a][1..] == [];
    assert "b" !in spec && Weight(spec, a.id) == 1.0 && Weight(spec, b.id) == 1.0;
    assert RunWeight(spec, [b]) == 1.0 && RunScore(spec, [b]) == 1.0 && TotalWeight(spec, [b]) == 0.0;
    RaisedSums(spec, cases, ["t"]);
    assert RunWeight(spec, cases) == 2.0 && RunScore(spec, cases) == 1.0;
    assert Shortfall(spec, a) == 1.0;
    DeficitCons(spec, a, []);
  }
}
