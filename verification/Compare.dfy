// eval/compare.py: several runs of one evaluation, case by case.
module Compare {
  import opened Eval

  type Run = seq<CaseResult>

  datatype Flip = Unchanged | Regression | Fix

  datatype CaseDelta = CaseDelta(id: string, scores: seq<real>, delta: real, flip: Flip)

  // {c.case_id: c for c in run.per_case}: the last result of an id wins.
  function ById(run: Run): map<string, CaseResult> {
    if run == [] then map[] else ById(run[..|run| - 1])[run[|run| - 1].id := run[|run| - 1]]
  }

  predicate Passes(run: Run, id: string) {
    id in ById(run) && ById(run)[id].passed
  }

  function ScoreIn(run: Run, id: string): real {
    if id in ById(run) then ById(run)[id].score else 0.0
  }

  function FlipOf(first: Run, last: Run, id: string): Flip {
    if Passes(first, id) == Passes(last, id) then Unchanged else if Passes(first, id) then Regression else Fix
  }

  function Ids(run: Run): (ids: seq<string>)
    ensures |ids| == |run| && forall i :: 0 <= i < |run| ==> ids[i] == run[i].id
  {
    seq(|run|, i requires 0 <= i < |run| => run[i].id)
  }

  // Ids of a run not seen before are added as they come.
  function Extend(ids: seq<string>, run: Run): seq<string> {
    if run == [] then ids
    else
      var front := Extend(ids, run[..|run| - 1]);
      if run[|run| - 1].id in front then front else front + [run[|run| - 1].id]
  }

  // The ids of the first run as they are, then those that only later runs have.
  function AllIds(runs: seq<Run>): seq<string>
    requires runs != []
  {
    if |runs| == 1 then Ids(runs[0]) else Extend(AllIds(runs[..|runs| - 1]), runs[|runs| - 1])
  }

  function Flips(first: Run, last: Run, ids: seq<string>, f: Flip): nat {
    if ids == [] then 0
    else Flips(first, last, ids[..|ids| - 1], f) + if FlipOf(first, last, ids[|ids| - 1]) == f then 1 else 0
  }

  datatype Comparison = Refused | Compared(deltas: seq<CaseDelta>, regressions: nat, fixes: nat)

  // All runs must come from the same spec.
  method CompareRuns(runs: seq<Run>, hashes: seq<string>, labels: nat) returns (c: Comparison)
    requires |hashes| == |runs|
    ensures c.Refused? <==> |runs| < 2 || |runs| != labels || exists i :: 0 <= i < |hashes| && hashes[i] != hashes[0]
    ensures c.Compared? ==>
              var ids, first, last := AllIds(runs), runs[0], runs[|runs| - 1];
              && c.regressions == Flips(first, last, ids, Regression) && c.fixes == Flips(first, last, ids, Fix)
              && |c.deltas| == |ids| && forall i :: 0 <= i < |ids| ==> c.deltas[i] == DeltaOf(runs, ids[i])
  {
    if |runs| < 2 || |runs| != labels {
      return Refused;
    }
    if exists i :: 0 <= i < |hashes| && hashes[i] != hashes[0] {
      return Refused;
    }
    var caseIds := CollectIds(runs);
    var deltas, regressions, fixes := Tally(runs, caseIds);
    return Compared(deltas, regressions, fixes);
  }

  // The loop over the case ids.
  method Tally(runs: seq<Run>, caseIds: seq<string>) returns (deltas: seq<CaseDelta>, regressions: nat, fixes: nat)
    requires runs != []
    ensures regressions == Flips(runs[0], runs[|runs| - 1], caseIds, Regression)
    ensures fixes == Flips(runs[0], runs[|runs| - 1], caseIds, Fix)
    ensures |deltas| == |caseIds| && forall i :: 0 <= i < |caseIds| ==> deltas[i] == DeltaOf(runs, caseIds[i])
  {
    var first, last := runs[0], runs[|runs| - 1];
    deltas, regressions, fixes := [], 0, 0;
    for i := 0 to |caseIds|
      invariant |deltas| == i && forall j :: 0 <= j < i ==> deltas[j] == DeltaOf(runs, caseIds[j])
      invariant regressions == Flips(first, last, caseIds[..i], Regression)
      invariant fixes == Flips(first, last, caseIds[..i], Fix)
    {
      var delta := DeltaOf(runs, caseIds[i]);
      FlipsSnoc(first, last, caseIds, i);
      regressions := regressions + if delta.flip.Regression? then 1 else 0;
      fixes := fixes + if delta.flip.Fix? then 1 else 0;
      deltas := deltas + [delta];
    }
    assert caseIds[..|caseIds|] == caseIds;
  }

  lemma FlipsSnoc(first: Run, last: Run, ids: seq<string>, i: nat)
    requires i < |ids|
    ensures forall f ::
              Flips(first, last, ids[..i + 1], f)
              == Flips(first, last, ids[..i], f) + if FlipOf(first, last, ids[i]) == f then 1 else 0
  {
    assert ids[..i + 1][..i] == ids[..i];
  }

  // A case's score in every run, 0 where it is missing, and its change from first to last.
  function DeltaOf(runs: seq<Run>, id: string): (d: CaseDelta)
    requires runs != []
    ensures d.delta == ScoreIn(runs[|runs| - 1], id) - ScoreIn(runs[0], id)
    ensures |d.scores| == |runs| && forall r :: 0 <= r < |runs| ==> d.scores[r] == ScoreIn(runs[r], id)
  {
    var scores := seq(|runs|, r requires 0 <= r < |runs| => ScoreIn(runs[r], id));
    CaseDelta(id, scores, scores[|runs| - 1] - scores[0], FlipOf(runs[0], runs[|runs| - 1], id))
  }

  method CollectIds(runs: seq<Run>) returns (ids: seq<string>)
    requires runs != []
    ensures ids == AllIds(runs)
  {
    ids := Ids(runs[0]);
    assert runs[..1] == [runs[0]];
    for k := 1 to |runs|
      invariant ids == AllIds(runs[..k])
    {
      ghost var before := ids;
      var run := runs[k];
      for i := 0 to |run|
        invariant ids == Extend(before, run[..i])
      {
        assert run[..i + 1][..i] == run[..i];
        if run[i].id !in ids {
          ids := ids + [run[i].id];
        }
      }
      assert run[..|run|] == run;
      assert runs[..k + 1][..k] == runs[..k];
    }
    assert runs[..|runs|] == runs;
  }

  // --- what the deltas mean ---

  // run[i] is the last result of its id.
  predicate LastOfId(run: Run, i: nat) {
    i < |run| && forall j :: i < j < |run| ==> run[j].id != run[i].id
  }

  // A case is looked up by its id: the last result with that id counts.
  lemma {:induction false} LookedUpById(run: Run, i: nat)
    requires LastOfId(run, i)
    ensures ScoreIn(run, run[i].id) == run[i].score && (Passes(run, run[i].id) <==> run[i].passed)
  {
    if i < |run| - 1 {
      LookedUpById(run[..|run| - 1], i);
      assert run[|run| - 1].id != run[i].id;
    }
  }

  // A case that is not there scores 0 and does not pass.
  lemma {:induction false} MissingCase(run: Run, id: string)
    requires forall j :: 0 <= j < |run| ==> run[j].id != id
    ensures id !in ById(run) && ScoreIn(run, id) == 0.0 && !Passes(run, id)
  {
    if run != [] {
      MissingCase(run[..|run| - 1], id);
    }
  }

  // A regression passes in the first run and not in the last; a fix the other way round.
  lemma FlipsAreFromFirstToLast(runs: seq<Run>, id: string)
    requires runs != []
    ensures var flip, first, last := DeltaOf(runs, id).flip, runs[0], runs[|runs| - 1];
            && (flip == Regression <==> Passes(first, id) && !Passes(last, id))
            && (flip == Fix <==> !Passes(first, id) && Passes(last, id))
  {
  }

  // --- what the counts mean ---

  predicate Distinct(ids: seq<string>) {
    forall i, j :: 0 <= i < j < |ids| ==> ids[i] != ids[j]
  }

  // The cases of a run that pass.
  function Passing(run: Run): set<string> {
    set id | id in ById(run) && ById(run)[id].passed
  }

  lemma {:induction false} ExtendKeeps(ids: seq<string>, run: Run)
    ensures ids <= Extend(ids, run) && (Distinct(ids) ==> Distinct(Extend(ids, run)))
    ensures forall i :: 0 <= i < |run| ==> run[i].id in Extend(ids, run)
  {
    if run != [] {
      var n := |run| - 1;
      ExtendKeeps(ids, run[..n]);
      var front := Extend(ids, run[..n]);
      forall i | 0 <= i < |run| ensures run[i].id in Extend(ids, run) {
        if i < n {
          assert run[..n][i].id in front;
        } else {
          assert run[n].id !in front ==> (front + [run[n].id])[|front|] == run[n].id;
        }
      }
    }
  }

  lemma {:induction false} AllIdsCover(runs: seq<Run>, k: nat)
    requires k < |runs|
    ensures forall i :: 0 <= i < |runs[k]| ==> runs[k][i].id in AllIds(runs)
    ensures Distinct(Ids(runs[0])) ==> Distinct(AllIds(runs))
  {
    if |runs| == 1 {
      forall i | 0 <= i < |runs[0]| ensures runs[0][i].id in AllIds(runs) {
        assert Ids(runs[0])[i] == runs[0][i].id;
      }
    } else {
      var n := |runs| - 1;
      var front := AllIds(runs[..n]);
      ExtendKeeps(front, runs[n]);
      AllIdsCover(runs[..n], if k < n then k else 0);
    }
  }

  lemma {:induction false} ByIdCovers(run: Run)
    ensures forall id :: id in ById(run) ==> exists i :: 0 <= i < |run| && run[i].id == id
  {
    if run != [] {
      var n := |run| - 1;
      var front := run[..n];
      ByIdCovers(front);
      forall id | id in ById(run) ensures exists i :: 0 <= i < |run| && run[i].id == id {
        if id != run[n].id {
          assert id in ById(front);
          var i :| 0 <= i < |front| && front[i].id == id;
          assert run[i].id == id;
        }
      }
    }
  }

  // Along a list of distinct ids, fixes less regressions is the gain in passing cases.
  lemma {:induction false} FlipsBalance(first: Run, last: Run, ids: seq<string>)
    requires Distinct(ids)
    ensures Flips(first, last, ids, Fix) - Flips(first, last, ids, Regression)
            == |set id | id in Passing(last) && id in ids| - |set id | id in Passing(first) && id in ids|
  {
    if ids == [] {
      assert (set id | id in Passing(last) && id in ids) == {} == (set id | id in Passing(first) && id in ids);
    } else {
      var n := |ids| - 1;
      FlipsBalance(first, last, ids[..n]);
      OneMore(Passing(first), ids);
      OneMore(Passing(last), ids);
    }
  }

  lemma OneMore(passing: set<string>, ids: seq<string>)
    requires ids != [] && Distinct(ids)
    ensures var n := |ids| - 1;
            |set id | id in passing && id in ids|
            == |set id | id in passing && id in ids[..n]| + if ids[n] in passing then 1 else 0
  {
    var n := |ids| - 1;
    var front := set id | id in passing && id in ids[..n];
    assert ids[n] !in front;
    assert ids == ids[..n] + [ids[n]];
    assert (set id | id in passing && id in ids) == front + if ids[n] in passing then {ids[n]} else {};
  }

  // With distinct ids in the first run, the summary's fixes less its regressions is exactly the
  // number of cases the last run passes less the number the first run passes, whatever ids the
  // later runs add, drop or repeat.
  lemma FixesLessRegressions(runs: seq<Run>)
    requires |runs| >= 2 && Distinct(Ids(runs[0]))
    ensures var first, last, ids := runs[0], runs[|runs| - 1], AllIds(runs);
            Flips(first, last, ids, Fix) - Flips(first, last, ids, Regression) == |Passing(last)| - |Passing(first)|
  {
    var first, last, ids := runs[0], runs[|runs| - 1], AllIds(runs);
    AllIdsCover(runs, 0);
    AllIdsCover(runs, |runs| - 1);
    ByIdCovers(first);
    ByIdCovers(last);
    FlipsBalance(first, last, ids);
    assert (set id | id in Passing(first) && id in ids) == Passing(first);
    assert (set id | id in Passing(last) && id in ids) == Passing(last);
  }

  // An id that the first run lists twice is counted twice.
  lemma RepeatedIdCountsTwice()
    ensures var fail, pass := CaseResult("a", Scored, 0.0, false, []), CaseResult("a", Scored, 1.0, true, []);
            var runs := [[fail, fail], [pass]];
            Flips(runs[0], runs[1], AllIds(runs), Fix) == 2 && |Passing(runs[1])| == 1 && Passing(runs[0]) == {}
  {
    var fail, pass := CaseResult("a", Scored, 0.0, false, []), CaseResult("a", Scored, 1.0, true, []);
    var first, last := [fail, fail], [pass];
    var runs := [first, last];
    assert first[..1] == [fail] && [fail][..0] == [] && last[..0] == [];
    assert ById([fail]) == map["a" := fail] && ById(first) == map["a" := fail] && ById(last) == map["a" := pass];
    assert runs[..1] == [first] && Ids(first) == ["a", "a"];
    assert Extend(["a", "a"], []) == ["a", "a"];
    assert AllIds(runs) == ["a", "a"];
    assert ["a", "a"][..1] == ["a"] && ["a"][..0] == [];
    assert FlipOf(first, last, "a") == Fix;
    assert Flips(first, last, ["a"], Fix) == 1;
    assert Passing(last) == {"a"} && Passing(first) == {};
  }
}
