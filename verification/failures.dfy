/** The list of failed incremental updates, over whole runs of attempts. */
module Failures {
  import opened Registry

  // `kind` is "entity", "device", "area" or "label".
  datatype Target = Target(kind: string, id: string)
  // What an attempt raised, if anything.
  datatype Attempt = Attempt(target: Target, error: Option<string>)
  datatype Item = Item(target: Target, attempts: nat, error: string)

  // ---- What the list is after a run of attempts ------------------------------------------

  /** Where a target's entry is; the length of the list if it has none. */
  function Find(items: seq<Item>, t: Target): (i: nat)
    ensures i <= |items| && forall j :: 0 <= j < i ==> items[j].target != t
    ensures i < |items| ==> items[i].target == t
  {
    if items == [] || items[0].target == t then 0 else 1 + Find(items[1..], t)
  }

  function Tracked(items: seq<Item>, t: Target, error: string): seq<Item> {
    var i := Find(items, t);
    if i < |items| then items[i := Item(t, items[i].attempts + 1, error)] else items + [Item(t, 1, error)]
  }

  function WithoutTarget(items: seq<Item>, t: Target): seq<Item> {
    if items == [] then []
    else WithoutTarget(items[..|items| - 1], t) + (if items[|items| - 1].target == t then [] else [items[|items| - 1]])
  }

  function Recorded(items: seq<Item>, a: Attempt): seq<Item> {
    if a.error.Some? then Tracked(items, a.target, a.error.value) else WithoutTarget(items, a.target)
  }

  function ItemsAfter(log: seq<Attempt>): seq<Item> {
    if log == [] then [] else Recorded(ItemsAfter(log[..|log| - 1]), log[|log| - 1])
  }

  lemma ItemsAfterAppend(log: seq<Attempt>, a: Attempt)
    ensures ItemsAfter(log + [a]) == Recorded(ItemsAfter(log), a)
  {
    assert (log + [a])[..|log|] == log;
  }

  function Attempts(ids: seq<string>, results: map<string, Option<string>>): seq<Attempt>
    requires forall e :: e in ids ==> e in results
  {
    if ids == [] then [] else [Attempt(Target("entity", ids[0]), results[ids[0]])] + Attempts(ids[1..], results)
  }

  class FailedUpdates {
    var items: seq<Item>
    ghost var log: seq<Attempt>

    ghost predicate Valid() reads this { items == ItemsAfter(log) }

    constructor ()
      ensures Valid() && log == [] && items == []
    {
      items, log := [], [];
    }

    /** `_track_failed_update`. */
    method Track(t: Target, error: string)
      requires Valid()
      modifies this
      ensures Valid() && log == old(log) + [Attempt(t, Some(error))]
    {
      ItemsAfterAppend(log, Attempt(t, Some(error)));
      log := log + [Attempt(t, Some(error))];
      var i := 0;
      while i < |items|
        invariant 0 <= i <= |items| && items == old(items)
        invariant forall j :: 0 <= j < i ==> items[j].target != t
      {
        if items[i].target == t {
          assert i == Find(items, t);
          items := items[i := Item(t, items[i].attempts + 1, error)];
          return;
        }
        i := i + 1;
      }
      items := items + [Item(t, 1, error)];
    }

    /** `_clear_failed_update`. */
    method Clear(t: Target)
      requires Valid()
      modifies this
      ensures Valid() && log == old(log) + [Attempt(t, None)]
    {
      ItemsAfterAppend(log, Attempt(t, None));
      var kept := [];
      var i := 0;
      while i < |items|
        invariant 0 <= i <= |items| && kept == WithoutTarget(items[..i], t)
      {
        assert items[..i + 1][..i] == items[..i];
        if items[i].target != t { kept := kept + [items[i]]; }
        i := i + 1;
      }
      assert items[..i] == items;
      items := kept;
      log := log + [Attempt(t, None)];
    }

    /** What `async_handle_entity_changes_batch` does with the results of a batch. */
    method RecordBatch(ids: seq<string>, results: map<string, Option<string>>)
      requires Valid() && forall e :: e in ids ==> e in results
      modifies this
      ensures Valid() && log == old(log) + Attempts(ids, results)
    {
      var i := 0;
      while i < |ids|
        invariant 0 <= i <= |ids| && Valid()
        invariant log + Attempts(ids[i..], results) == old(log) + Attempts(ids, results)
      {
        assert ids[i..][1..] == ids[i + 1..];
        var t := Target("entity", ids[i]);
        if results[ids[i]].Some? { Track(t, results[ids[i]].value); } else { Clear(t); }
        i := i + 1;
      }
      assert ids[i..] == [];
    }
  }

  // ---- What that means ---------------------------------------------------------------------

  /** How the attempts at one target went, in order. */
  function Outcomes(log: seq<Attempt>, t: Target): seq<Option<string>> {
    if log == [] then []
    else Outcomes(log[..|log| - 1], t) + (if log[|log| - 1].target == t then [log[|log| - 1].error] else [])
  }

  ghost predicate LastFailed(outcomes: seq<Option<string>>) { outcomes != [] && outcomes[|outcomes| - 1].Some? }

  /** The entry's target began to fail with attempt k, and every attempt at it since failed: `attempts` in all,
      the last with the entry's error. */
  ghost predicate Streak(log: seq<Attempt>, k: nat, x: Item) {
    k < |log| && log[k].target == x.target && !LastFailed(Outcomes(log[..k], x.target)) &&
    var since := Outcomes(log[k..], x.target);
    |since| == x.attempts > 0 && since[|since| - 1] == Some(x.error) &&
    forall i :: 0 <= i < |since| ==> since[i].Some?
  }

  ghost predicate OnePerTarget(items: seq<Item>) {
    forall i, j :: 0 <= i < j < |items| ==> items[i].target != items[j].target
  }

  ghost predicate Listed(items: seq<Item>, t: Target) { exists i :: 0 <= i < |items| && items[i].target == t }

  // `began` gives for each entry the attempt its streak began with.
  ghost predicate Follows(items: seq<Item>, log: seq<Attempt>, began: seq<nat>) {
    |began| == |items| && OnePerTarget(items) &&
    (forall t :: Listed(items, t) <==> LastFailed(Outcomes(log, t))) &&
    (forall i :: 0 <= i < |items| ==> Streak(log, began[i], items[i])) &&
    forall i, j :: 0 <= i < j < |items| ==> began[i] < began[j]
  }

  lemma OutcomesAppend(log: seq<Attempt>, a: Attempt, t: Target)
    ensures Outcomes(log + [a], t) == Outcomes(log, t) + if a.target == t then [a.error] else []
  {
    assert (log + [a])[..|log|] == log;
  }

  lemma StreakStays(log: seq<Attempt>, a: Attempt, k: nat, x: Item)
    requires Streak(log, k, x) && a.target != x.target
    ensures Streak(log + [a], k, x)
  {
    OutcomesAppend(log[k..], a, x.target);
    assert (log + [a])[..k] == log[..k] && (log + [a])[k..] == log[k..] + [a];
  }

  lemma StreakGrows(log: seq<Attempt>, k: nat, x: Item, error: string)
    requires Streak(log, k, x)
    ensures Streak(log + [Attempt(x.target, Some(error))], k, Item(x.target, x.attempts + 1, error))
  {
    var a := Attempt(x.target, Some(error));
    OutcomesAppend(log[k..], a, x.target);
    assert (log + [a])[..k] == log[..k] && (log + [a])[k..] == log[k..] + [a];
  }

  lemma StreakBegins(log: seq<Attempt>, t: Target, error: string)
    requires !LastFailed(Outcomes(log, t))
    ensures Streak(log + [Attempt(t, Some(error))], |log|, Item(t, 1, error))
  {
    var a := Attempt(t, Some(error));
    OutcomesAppend([], a, t);
    assert [] + [a] == [a];
    assert (log + [a])[..|log|] == log && (log + [a])[|log|..] == [a];
  }

  lemma {:induction false} WithoutNone(items: seq<Item>, t: Target)
    requires forall j :: 0 <= j < |items| ==> items[j].target != t
    ensures WithoutTarget(items, t) == items
    decreases |items|
  {
    if items != [] { WithoutNone(items[..|items| - 1], t); }
  }

  lemma {:induction false} WithoutOne(items: seq<Item>, t: Target, i: nat)
    requires i < |items| && forall j :: 0 <= j < |items| ==> (items[j].target == t <==> j == i)
    ensures WithoutTarget(items, t) == items[..i] + items[i + 1..]
    decreases |items|
  {
    var front, last := items[..|items| - 1], items[|items| - 1];
    assert forall j :: 0 <= j < |front| ==> front[j] == items[j];
    assert last.target == t <==> i == |front|;
    if i == |front| {
      WithoutNone(front, t);
      assert items[..i] + items[i + 1..] == front;
    } else {
      WithoutOne(front, t, i);
      assert items[..i] + items[i + 1..] == (front[..i] + front[i + 1..]) + [last];
    }
  }

  function Removed<T>(s: seq<T>, i: nat): seq<T> { if i < |s| then s[..i] + s[i + 1..] else s }

  lemma WithoutIs(items: seq<Item>, t: Target)
    requires OnePerTarget(items)
    ensures WithoutTarget(items, t) == Removed(items, Find(items, t))
  {
    var i := Find(items, t);
    if i < |items| { WithoutOne(items, t, i); } else { WithoutNone(items, t); }
  }

  lemma ListedAt(items: seq<Item>, t: Target)
    ensures Listed(items, t) <==> Find(items, t) < |items|
  {
  }

  lemma FollowsFailure(items: seq<Item>, log: seq<Attempt>, began: seq<nat>, t: Target, error: string)
    returns (next: seq<nat>)
    requires Follows(items, log, began)
    ensures Follows(Tracked(items, t, error), log + [Attempt(t, Some(error))], next)
  {
    hide Outcomes, Streak, Find;
    var after, log1, i := Tracked(items, t, error), log + [Attempt(t, Some(error))], Find(items, t);
    next := if i < |items| then began else began + [|log|];
    ListedAt(items, t);
    forall u ensures Listed(after, u) <==> LastFailed(Outcomes(log1, u)) {
      OutcomesAppend(log, Attempt(t, Some(error)), u);
      StillListed(items, after, t, u);
    }
    forall j | 0 <= j < |after| ensures Streak(log1, next[j], after[j]) {
      if j == i && i < |items| {
        StreakGrows(log, began[i], items[i], error);
      } else if j == i {
        StreakBegins(log, t, error);
      } else {
        StreakStays(log, Attempt(t, Some(error)), began[j], items[j]);
      }
    }
    forall j | 0 <= j < |items| ensures began[j] < |log| { StreakInLog(log, began[j], items[j]); }
  }

  lemma StreakInLog(log: seq<Attempt>, k: nat, x: Item)
    requires Streak(log, k, x)
    ensures k < |log|
  {
  }

  lemma StillListed(items: seq<Item>, after: seq<Item>, t: Target, u: Target)
    requires |items| <= |after| <= |items| + 1 && (|after| > |items| ==> after[|items|].target == t)
    requires forall j :: 0 <= j < |items| ==> after[j].target == items[j].target
    requires |after| == |items| ==> Listed(items, t)
    ensures Listed(after, u) <==> Listed(items, u) || u == t
  {
    if Listed(items, u) {
      var j :| 0 <= j < |items| && items[j].target == u;
      assert after[j].target == u;
    }
  }

  // Which element of the longer list is the j-th of the shorter.
  function Before(i: nat, j: nat): nat { if j < i then j else j + 1 }

  lemma RemovedAt<T>(s: seq<T>, i: nat, j: nat)
    requires i <= |s| && j < |Removed(s, i)|
    ensures Before(i, j) < |s| && Removed(s, i)[j] == s[Before(i, j)]
  {
  }

  lemma RemovedInOrder(items: seq<Item>, began: seq<nat>, i: nat)
    requires |items| == |began| && OnePerTarget(items) && i <= |items|
    requires forall k, l :: 0 <= k < l < |items| ==> began[k] < began[l]
    ensures OnePerTarget(Removed(items, i))
    ensures var next := Removed(began, i); forall k, l :: 0 <= k < l < |next| ==> next[k] < next[l]
  {
    hide Removed;
    forall k, l | 0 <= k < l < |Removed(items, i)| ensures Removed(items, i)[k].target != Removed(items, i)[l].target {
      RemovedAt(items, i, k);
      RemovedAt(items, i, l);
    }
    forall k, l | 0 <= k < l < |Removed(began, i)| ensures Removed(began, i)[k] < Removed(began, i)[l] {
      RemovedAt(began, i, k);
      RemovedAt(began, i, l);
    }
  }

  lemma RemovedLength<T>(s: seq<T>, i: nat)
    requires i <= |s|
    ensures |Removed(s, i)| == if i < |s| then |s| - 1 else |s|
  {
  }

  lemma FollowsSuccess(items: seq<Item>, log: seq<Attempt>, began: seq<nat>, t: Target) returns (next: seq<nat>)
    requires Follows(items, log, began)
    ensures Follows(WithoutTarget(items, t), log + [Attempt(t, None)], next)
  {
    hide Outcomes, Streak, Find, WithoutTarget, OnePerTarget, Listed, LastFailed, Removed;
    var log1, i := log + [Attempt(t, None)], Find(items, t);
    var after := Removed(items, i);
    next := Removed(began, i);
    WithoutIs(items, t);
    RemovedInOrder(items, began, i);
    RemovedLength(items, i);
    RemovedLength(began, i);
    forall u ensures Listed(after, u) <==> LastFailed(Outcomes(log1, u)) {
      OutcomesAppend(log, Attempt(t, None), u);
      ListedWithout(items, i, t, u);
      NotFailed(Outcomes(log, u));
    }
    forall j | 0 <= j < |after| ensures Streak(log1, next[j], after[j]) {
      RemovedAt(items, i, j);
      RemovedAt(began, i, j);
      OthersLeft(items, i, j, t);
      StreakStays(log, Attempt(t, None), began[Before(i, j)], items[Before(i, j)]);
    }
  }

  lemma NotFailed(outcomes: seq<Option<string>>)
    ensures !LastFailed(outcomes + [None]) && outcomes + [] == outcomes
  {
  }

  lemma OthersLeft(items: seq<Item>, i: nat, j: nat, t: Target)
    requires OnePerTarget(items) && i == Find(items, t) && Before(i, j) < |items|
    ensures items[Before(i, j)].target != t
  {
  }

  lemma ListedWithout(items: seq<Item>, i: nat, t: Target, u: Target)
    requires OnePerTarget(items) && i == Find(items, t)
    ensures Listed(Removed(items, i), u) <==> Listed(items, u) && u != t
  {
    var after := Removed(items, i);
    if Listed(items, u) && u != t {
      var j :| 0 <= j < |items| && items[j].target == u;
      assert after[if j < i then j else j - 1].target == u;
    }
    if Listed(after, u) {
      var j :| 0 <= j < |after| && after[j].target == u;
      RemovedAt(items, i, j);
      OthersLeft(items, i, j, t);
    }
  }

  /** After any run of attempts a target has an entry exactly when its last attempt failed, and only one; the
      entry counts the failures since the last success and holds the last error; the entries stand in the order
      in which their targets began to fail. */
  lemma {:induction false} EntriesFollowHistory(log: seq<Attempt>) returns (began: seq<nat>)
    ensures Follows(ItemsAfter(log), log, began)
    decreases |log|
  {
    if log == [] {
      began := [];
    } else {
      hide Follows, Tracked, WithoutTarget;
      var front, last := log[..|log| - 1], log[|log| - 1];
      began := EntriesFollowHistory(front);
      assert log == front + [last];
      assert last == Attempt(last.target, last.error);
      if last.error.Some? {
        assert last == Attempt(last.target, Some(last.error.value));
        began := FollowsFailure(ItemsAfter(front), front, began, last.target, last.error.value);
      } else {
        began := FollowsSuccess(ItemsAfter(front), front, began, last.target);
      }
    }
  }
}
