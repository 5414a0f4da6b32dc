/** The lifecycle of validation findings: one category's reconcile, and what is left after any number of runs. */
module Findings {
  import opened Graph
  import opened Registry

  datatype Id = Id(category: string, target: string)
  datatype Status = Open | Resolved
  datatype Finding = Finding(status: Status, first: int, last: int, resolvedAt: Option<int>)

  // A detected target, when its finding is merged, and how that query goes.
  datatype Hit = Hit(target: string, at: int, fault: Fault)
  datatype Run = Run(hits: seq<Hit>, now: int)

  type Store = map<Id, Finding>

  function Merge(s: Store, id: Id, at: int): Store {
    s[id := if id in s then s[id].(status := Open, last := at, resolvedAt := None) else Finding(Open, at, at, None)]
  }

  function MergeHits(s: Store, category: string, hits: seq<Hit>): Store {
    if hits == [] then s
    else
      var before := MergeHits(s, category, hits[..|hits| - 1]);
      var last := hits[|hits| - 1];
      if last.fault.LostBefore? then before else Merge(before, Id(category, last.target), last.at)
  }

  // A failed merge leaves its target out, even if it took effect.
  function Detected(hits: seq<Hit>): set<string> { set h | h in hits && h.fault.Fine? :: h.target }

  function DeleteResolved(s: Store, category: string, detected: set<string>, now: int): Store {
    map id | id in s && !(id.category == category && s[id].status == Resolved && id.target !in detected &&
                          s[id].resolvedAt != Some(now))
      :: s[id]
  }

  function ResolveOpen(s: Store, category: string, detected: set<string>, now: int): Store {
    map id | id in s :: if id.category == category && s[id].status == Open && id.target !in detected
                        then s[id].(status := Resolved, resolvedAt := Some(now)) else s[id]
  }

  function Reconciled(s: Store, category: string, run: Run): Store {
    var d := Detected(run.hits);
    ResolveOpen(DeleteResolved(MergeHits(s, category, run.hits), category, d, run.now), category, d, run.now)
  }

  class FindingStore {
    var findings: Store

    constructor (findings: Store)
      ensures this.findings == findings
    {
      this.findings := findings;
    }

    method MergeFinding(id: Id, at: int, fault: Fault) returns (ok: bool)
      modifies this
      ensures ok == fault.Fine? && findings == if fault.LostBefore? then old(findings) else Merge(old(findings), id, at)
    {
      if !fault.LostBefore? {
        findings := findings[id := if id in findings then findings[id].(status := Open, last := at, resolvedAt := None)
                                   else Finding(Open, at, at, None)];
      }
      ok := fault.Fine?;
    }

    /** `_reconcile_category`: merge what was detected, delete what an earlier run resolved, resolve the rest. */
    method ReconcileCategory(category: string, run: Run) returns (count: nat)
      modifies this
      ensures findings == Reconciled(old(findings), category, run) && count == |Detected(run.hits)|
    {
      var detected: set<string> := {};
      var i := 0;
      while i < |run.hits|
        invariant 0 <= i <= |run.hits| && detected == Detected(run.hits[..i])
        invariant findings == MergeHits(old(findings), category, run.hits[..i])
      {
        var h, next := run.hits[i], run.hits[..i + 1];
        assert next[..i] == run.hits[..i] && next == run.hits[..i] + [h];
        var ok := MergeFinding(Id(category, h.target), h.at, h.fault);
        DetectedWith(run.hits[..i], h);
        if ok { detected := detected + {h.target}; }
        i := i + 1;
      }
      assert run.hits[..i] == run.hits;
      findings := DeleteResolved(findings, category, detected, run.now);
      findings := ResolveOpen(findings, category, detected, run.now);
      count := |detected|;
    }
  }

  lemma DetectedWith(hits: seq<Hit>, h: Hit)
    ensures Detected(hits + [h]) == Detected(hits) + if h.fault.Fine? then {h.target} else {}
  {
    assert h in hits + [h];
    forall x | x in hits ensures x in hits + [h] { }
  }

  // ---- One run ---------------------------------------------------------------------------

  ghost predicate AllFineHits(hits: seq<Hit>) { forall h :: h in hits ==> h.fault.Fine? }

  /** When a target was first detected within one run. */
  function FirstAt(hits: seq<Hit>, target: string): int
    requires exists h :: h in hits && h.target == target
  {
    if hits[0].target == target then hits[0].at else FirstAt(hits[1..], target)
  }

  /** The merge of a detected target took effect, whether or not it then raised. */
  predicate Merges(h: Hit, target: string) { h.target == target && !h.fault.LostBefore? }

  ghost predicate Merged(hits: seq<Hit>, target: string) { exists h :: h in hits && Merges(h, target) }

  ghost predicate FirstMerge(hits: seq<Hit>, target: string, i: nat) {
    i < |hits| && Merges(hits[i], target) && forall j :: 0 <= j < i ==> !Merges(hits[j], target)
  }

  ghost predicate LastMerge(hits: seq<Hit>, target: string, i: nat) {
    i < |hits| && Merges(hits[i], target) && forall j :: i < j < |hits| ==> !Merges(hits[j], target)
  }

  /** A finding as the merges of a run leave it: first seen when it was created, last seen at the last of them. */
  ghost predicate SeenIn(s: Store, id: Id, hits: seq<Hit>, f: Finding) {
    (forall i: nat :: LastMerge(hits, id.target, i) ==> f.last == hits[i].at) &&
    (id in s ==> f.first == s[id].first) &&
    (id !in s ==> forall i: nat :: FirstMerge(hits, id.target, i) ==> f.first == hits[i].at)
  }

  lemma MergedWith(front: seq<Hit>, last: Hit, t: string)
    ensures Merged(front + [last], t) <==> Merged(front, t) || Merges(last, t)
    ensures Merged(front, t) ==> forall i: nat :: FirstMerge(front + [last], t, i) ==> FirstMerge(front, t, i)
    ensures !Merged(front, t) ==> forall i: nat :: FirstMerge(front + [last], t, i) ==> i == |front|
    ensures !Merges(last, t) ==> forall i: nat :: LastMerge(front + [last], t, i) ==> LastMerge(front, t, i)
    ensures Merges(last, t) ==> forall i: nat :: LastMerge(front + [last], t, i) ==> i == |front|
  {
    var all := front + [last];
    assert all[|front|] == last && forall j :: 0 <= j < |front| ==> all[j] == front[j];
    if Merged(front, t) {
      var h :| h in front && Merges(h, t);
      var j :| 0 <= j < |front| && front[j] == h;
      assert h in all && Merges(all[j], t);
    }
    if Merges(last, t) { assert last in all; }
    if Merged(all, t) {
      var h :| h in all && Merges(h, t);
      assert h in front || h == last;
    }
    if !Merged(front, t) {
      forall j | 0 <= j < |front| ensures !Merges(all[j], t) { assert front[j] in front; }
    }
  }

  lemma {:induction false} MergeHitsIs(s: Store, category: string, hits: seq<Hit>, id: Id)
    ensures var after := MergeHits(s, category, hits);
            if id.category == category && Merged(hits, id.target)
            then id in after && after[id].status == Open && after[id].resolvedAt == None &&
                 SeenIn(s, id, hits, after[id])
            else (id in after <==> id in s) && (id in s ==> after[id] == s[id])
    decreases |hits|
  {
    if hits != [] {
      var front, last := hits[..|hits| - 1], hits[|hits| - 1];
      assert hits == front + [last];
      MergeHitsIs(s, category, front, id);
      MergedWith(front, last, id.target);
      hide FirstMerge, LastMerge, Merged;
      assert forall i: nat :: i < |front| ==> hits[i] == front[i];
      if id.category == category && Merged(hits, id.target) {
        MergeOne(s, id, front, last, MergeHits(s, category, front), MergeHits(s, category, hits));
      }
    }
  }

  // One more merge, of this finding or of another.
  lemma MergeOne(s: Store, id: Id, front: seq<Hit>, last: Hit, before: Store, after: Store)
    requires after == if last.fault.LostBefore? then before else Merge(before, Id(id.category, last.target), last.at)
    requires if Merged(front, id.target) then id in before && SeenIn(s, id, front, before[id]) else
             (id in before <==> id in s) && (id in s ==> before[id] == s[id])
    requires Merged(front + [last], id.target)
    ensures id in after && SeenIn(s, id, front + [last], after[id])
  {
    MergedWith(front, last, id.target);
    var all := front + [last];
    assert forall i: nat :: i < |front| ==> all[i] == front[i];
    assert all[|front|] == last;
    FrontIndices(front, id.target);
    hide Merged, FirstMerge, LastMerge;
  }

  lemma FrontIndices(hits: seq<Hit>, t: string)
    ensures forall i: nat :: FirstMerge(hits, t, i) || LastMerge(hits, t, i) ==> i < |hits|
  {
  }

  lemma DetectedIs(hits: seq<Hit>, t: string)
    ensures t in Detected(hits) <==> exists h :: h in hits && h.target == t && h.fault.Fine?
    ensures t in Detected(hits) ==> Merged(hits, t)
  {
    if t in Detected(hits) {
      var h :| h in hits && h.fault.Fine? && h.target == t;
      assert Merges(h, t);
    }
  }

  /** One run, for one finding, whichever merges fail: open if one of its merges succeeded; resolved if it was open
      or was only merged by a query that then raised; gone if an earlier run resolved it. */
  lemma OneRun(s: Store, category: string, run: Run, t: string)
    ensures var id := Id(category, t); var after := Reconciled(s, category, run);
            var detected := exists h :: h in run.hits && h.target == t && h.fault.Fine?;
            if detected then
              id in after && after[id].status == Open && after[id].resolvedAt == None &&
              SeenIn(s, id, run.hits, after[id])
            else if Merged(run.hits, t) then
              id in after && after[id].status == Resolved && after[id].resolvedAt == Some(run.now) &&
              SeenIn(s, id, run.hits, after[id])
            else if id in s && s[id].status == Open then
              id in after && after[id] == s[id].(status := Resolved, resolvedAt := Some(run.now))
            else if id in s && s[id].resolvedAt == Some(run.now) then id in after && after[id] == s[id]
            else id !in after
  {
    MergeHitsIs(s, category, run.hits, Id(category, t));
    DetectedIs(run.hits, t);
    hide MergeHits, Merged, SeenIn;
    var merged, id := MergeHits(s, category, run.hits), Id(category, t);
    var after := Reconciled(s, category, run);
    if id in after { SeenStays(s, id, run.hits, merged[id], after[id]); }
  }

  lemma SeenStays(s: Store, id: Id, hits: seq<Hit>, f: Finding, f2: Finding)
    requires f.first == f2.first && f.last == f2.last
    ensures SeenIn(s, id, hits, f) ==> SeenIn(s, id, hits, f2)
  {
  }

  // The same without failed merges.
  lemma OneFineRun(s: Store, category: string, run: Run, t: string)
    requires AllFineHits(run.hits)
    ensures var id := Id(category, t); var after := Reconciled(s, category, run);
            if t in Detected(run.hits) then
              id in after && after[id].status == Open &&
              after[id].first == if id in s then s[id].first else FirstAt(run.hits, t)
            else if id in s && s[id].status == Open then
              id in after && after[id] == s[id].(status := Resolved, resolvedAt := Some(run.now))
            else if id in s && s[id].resolvedAt == Some(run.now) then id in after && after[id] == s[id]
            else id !in after
  {
    OneRun(s, category, run, t);
    DetectedIs(run.hits, t);
    hide Reconciled, LastMerge, FirstMerge;
    FineMerges(run.hits, t);
    if t in Detected(run.hits) {
      var i := FirstAtIs(run.hits, t);
    }
  }

  lemma FineMerges(hits: seq<Hit>, t: string)
    requires AllFineHits(hits)
    ensures Merged(hits, t) <==> t in Detected(hits)
  {
    DetectedIs(hits, t);
  }

  lemma {:induction false} FirstAtIs(hits: seq<Hit>, t: string) returns (i: nat)
    requires AllFineHits(hits) && exists h :: h in hits && h.target == t
    ensures FirstMerge(hits, t, i) && FirstAt(hits, t) == hits[i].at
    decreases |hits|
  {
    assert hits[0] in hits;
    if hits[0].target == t {
      i := 0;
    } else {
      var rest := FirstAtIs(hits[1..], t);
      i := rest + 1;
      forall j | 0 <= j < i ensures !Merges(hits[j], t) { if j > 0 { assert hits[1..][j - 1] == hits[j]; } }
    }
  }

  /** A run of one category leaves the findings of the others alone, failed merges or not. */
  lemma {:induction false} OthersUntouched(s: Store, category: string, run: Run, id: Id)
    requires id.category != category
    ensures var after := Reconciled(s, category, run); (id in after <==> id in s) && (id in s ==> after[id] == s[id])
  {
    MergeOthers(s, category, run.hits, id);
  }

  lemma {:induction false} MergeOthers(s: Store, category: string, hits: seq<Hit>, id: Id)
    requires id.category != category
    ensures var after := MergeHits(s, category, hits); (id in after <==> id in s) && (id in s ==> after[id] == s[id])
    decreases |hits|
  {
    if hits != [] { MergeOthers(s, category, hits[..|hits| - 1], id); }
  }

  // ---- Any number of runs --------------------------------------------------------------------

  function AfterRuns(s: Store, category: string, runs: seq<Run>): Store {
    if runs == [] then s else Reconciled(AfterRuns(s, category, runs[..|runs| - 1]), category, runs[|runs| - 1])
  }

  /** Detected in run n, counting from 1. */
  predicate In(runs: seq<Run>, n: int, t: string) { 1 <= n <= |runs| && t in Detected(runs[n - 1].hits) }

  ghost predicate AllRunsFine(runs: seq<Run>) { forall i :: 0 <= i < |runs| ==> AllFineHits(runs[i].hits) }

  predicate AtNewTime(runs: seq<Run>, i: nat) { 0 < i < |runs| ==> runs[i].now != runs[i - 1].now }

  /** No merge failed, and no run carries the time of the run before it. */
  ghost predicate Distinguishable(runs: seq<Run>) { AllRunsFine(runs) && forall i: nat :: AtNewTime(runs, i) }

  /** The finding of t was created in run m and has not been gone since: never two runs in a row without it. */
  ghost predicate CreatedIn(runs: seq<Run>, t: string, m: nat) {
    In(runs, m, t) && !In(runs, m - 1, t) && !In(runs, m - 2, t) &&
    forall j :: m < j <= |runs| ==> In(runs, j, t) || In(runs, j - 1, t)
  }

  lemma FrontRuns(runs: seq<Run>)
    requires runs != []
    ensures forall n, t :: n < |runs| ==> (In(runs, n, t) <==> In(runs[..|runs| - 1], n, t))
    ensures Distinguishable(runs) ==> Distinguishable(runs[..|runs| - 1])
  {
    var front := runs[..|runs| - 1];
    if Distinguishable(runs) {
      forall i: nat ensures AtNewTime(front, i) { assert AtNewTime(runs, i); }
      forall i | 0 <= i < |front| ensures AllFineHits(front[i].hits) { assert front[i] == runs[i]; }
    }
  }

  /** Run k was the last to detect t, and all runs since carry one time. */
  ghost predicate LingersFrom(runs: seq<Run>, k: nat, t: string) {
    In(runs, k, t) && k < |runs| && (forall j :: k < j <= |runs| ==> !In(runs, j, t)) &&
    forall j :: k < j < |runs| ==> runs[j].now == runs[k].now
  }

  lemma LingersNext(runs: seq<Run>, k: nat, t: string)
    requires 0 < k < |runs| - 1
    ensures var front := runs[..|runs| - 1];
            LingersFrom(runs, k, t) <==>
              LingersFrom(front, k, t) && !In(runs, |runs|, t) && runs[|runs| - 1].now == runs[|runs| - 2].now
  {
    hide Detected;
    FrontRuns(runs);
    var front := runs[..|runs| - 1];
    assert forall j :: 0 <= j < |front| ==> front[j] == runs[j];
    if LingersFrom(runs, k, t) {
      assert runs[|runs| - 1].now == runs[k].now && !In(runs, |runs|, t);
      forall j | k < j <= |front| ensures !In(front, j, t) { assert !In(runs, j, t); }
      assert |runs| - 2 > k ==> runs[|runs| - 2].now == runs[k].now;
    }
    if LingersFrom(front, k, t) && !In(runs, |runs|, t) && runs[|runs| - 1].now == runs[|runs| - 2].now {
      assert |runs| - 2 > k ==> front[|runs| - 2].now == front[k].now;
      forall j | k < j <= |runs| ensures !In(runs, j, t) { assert j < |runs| ==> !In(front, j, t); }
      forall j | k < j < |runs| ensures runs[j].now == runs[k].now {
        assert j < |front| ==> front[j].now == front[k].now;
      }
    }
  }

  /** With no failed merge, after n runs the open findings are those detected in run n; the resolved ones are
      those not in run n whose last detection was followed by runs that all carry one time; all others are gone. */
  lemma {:induction false} HistoryIsExact(s: Store, category: string, runs: seq<Run>, t: string)
    requires AllRunsFine(runs) && runs != [] && Id(category, t) !in s
    ensures var id, n, after := Id(category, t), |runs|, AfterRuns(s, category, runs);
            (id in after && after[id].status == Open <==> In(runs, n, t)) &&
            (id in after && after[id].status == Resolved <==> exists k: nat :: LingersFrom(runs, k, t)) &&
            (id in after && after[id].status == Resolved ==> after[id].resolvedAt == Some(runs[n - 1].now))
    decreases |runs|
  {
    hide Reconciled, FirstAt, Detected;
    var front, last, n := runs[..|runs| - 1], runs[|runs| - 1], |runs|;
    FrontRuns(runs);
    OneFineRun(AfterRuns(s, category, front), category, last, t);
    if front != [] {
      HistoryIsExact(s, category, front, t);
      if k: nat :| LingersFrom(front, k, t) && k < n - 1 { LingersNext(runs, k, t); }
      if k: nat :| LingersFrom(runs, k, t) {
        if k < n - 1 { LingersNext(runs, k, t); } else { assert In(front, n - 1, t); }
      }
      if In(front, n - 1, t) && !In(runs, n, t) { assert LingersFrom(runs, n - 1, t); }
    }
  }

  /** If in addition no run carries the time of the run before it, the resolved findings are those detected in
      run n - 1 and not in run n. */
  lemma ResolvedForOneRun(s: Store, category: string, runs: seq<Run>, t: string)
    requires Distinguishable(runs) && runs != [] && Id(category, t) !in s
    ensures var id, n, after := Id(category, t), |runs|, AfterRuns(s, category, runs);
            (id in after && after[id].status == Open <==> In(runs, n, t)) &&
            (id in after && after[id].status == Resolved <==> !In(runs, n, t) && In(runs, n - 1, t))
  {
    hide AfterRuns, Detected;
    HistoryIsExact(s, category, runs, t);
    var n := |runs|;
    if k: nat :| LingersFrom(runs, k, t) {
      if k < n - 1 {
        assert runs[n - 2].now == runs[k].now && runs[n - 1].now == runs[k].now;
        assert AtNewTime(runs, n - 1);
      }
    }
    if !In(runs, n, t) && In(runs, n - 1, t) { assert LingersFrom(runs, n - 1, t); }
  }

  /** A finding carries the time its target was detected in the run that created it: a gap of one run does
      not reset it, a longer one does. */
  lemma {:induction false} FirstDetectedSurvivesOneGap(s: Store, category: string, runs: seq<Run>, t: string)
    returns (m: nat)
    requires Distinguishable(runs) && Id(category, t) !in s && (In(runs, |runs|, t) || In(runs, |runs| - 1, t))
    ensures CreatedIn(runs, t, m)
    ensures var id, after := Id(category, t), AfterRuns(s, category, runs);
            id in after && t in Detected(runs[m - 1].hits) && after[id].first == FirstAt(runs[m - 1].hits, t)
    decreases |runs|
  {
    hide Reconciled, FirstAt, Detected;
    var front, last := runs[..|runs| - 1], runs[|runs| - 1];
    FrontRuns(runs);
    OneFineRun(AfterRuns(s, category, front), category, last, t);
    if front != [] { ResolvedForOneRun(s, category, front, t); }
    if In(front, |front|, t) || In(front, |front| - 1, t) {
      m := FirstDetectedSurvivesOneGap(s, category, front, t);
    } else {
      m := |runs|;
    }
  }

  lemma AfterThree(s: Store, category: string, a: Run, b: Run, c: Run)
    ensures AfterRuns(s, category, [a, b, c]) ==
            Reconciled(Reconciled(Reconciled(s, category, a), category, b), category, c)
  {
    hide Reconciled;
    var one, two, three := [a], [a, b], [a, b, c];
    assert one[..0] == [] && two[..1] == one && three[..2] == two;
    assert AfterRuns(s, category, one) == Reconciled(s, category, a);
    assert AfterRuns(s, category, two) == Reconciled(AfterRuns(s, category, one), category, b);
  }

  /** Two runs with the same time would keep a resolved finding one run longer. */
  lemma SameTimeKeepsResolved(t: string)
    ensures var runs := [Run([Hit(t, 1, Fine)], 1), Run([], 2), Run([], 2)];
            Id("missing_area", t) in AfterRuns(map[], "missing_area", runs)
  {
    hide Reconciled, FirstAt, Detected;
    var hit, empty := Run([Hit(t, 1, Fine)], 1), Run([], 2);
    AfterThree(map[], "missing_area", hit, empty, empty);
    var s1 := Reconciled(map[], "missing_area", hit);
    var s2 := Reconciled(s1, "missing_area", empty);
    DetectedWith([], Hit(t, 1, Fine));
    assert [] + [Hit(t, 1, Fine)] == [Hit(t, 1, Fine)];
    NoneDetected();
    OneFineRun(map[], "missing_area", hit, t);
    OneFineRun(s1, "missing_area", empty, t);
    OneFineRun(s2, "missing_area", empty, t);
  }

  lemma NoneDetected()
    ensures Detected([]) == {}
  {
  }
}
