/** Capped, deduplicated merging of dependency lists, flat and nested. */
module Merges {
  import opened Registry
  import opened Sequences

  // A list may hold missing items, which are skipped; an item may lack an identifier, which then counts as one.
  datatype Item = Missing | Item(id: Option<string>, name: string)
  datatype Key = Automations | Scripts | Scenes | Dashboards | SemanticAssets

  const KEYS := [Automations, Scripts, Scenes, Dashboards, SemanticAssets]
  const LIMIT := 100

  // One entity's dependencies, or a merge of several.
  type Deps = map<Key, seq<Item>>

  function ItemsOf(d: Deps, k: Key): seq<Item> { if k in d then d[k] else [] }

  function Ids(items: seq<Item>): set<Option<string>> { set x | x in items && x.Item? :: x.id }

  /** The first item of each identifier, in order. */
  function Dedup(items: seq<Item>): seq<Item> {
    if items == [] then []
    else
      var front, last := items[..|items| - 1], items[|items| - 1];
      if last.Missing? || last.id in Ids(front) then Dedup(front) else Dedup(front) + [last]
  }

  function Cap(items: seq<Item>): seq<Item> { if |items| <= LIMIT then items else items[..LIMIT] }

  function Merged(items: seq<Item>): seq<Item> { Cap(Dedup(items)) }

  function Joined(deps: seq<Deps>, k: Key): seq<Item> {
    if deps == [] then [] else Joined(deps[..|deps| - 1], k) + ItemsOf(deps[|deps| - 1], k)
  }

  // ---- What a merge keeps -----------------------------------------------------------------

  ghost predicate Unrepeated(d: seq<Item>) {
    (forall x :: x in d ==> x.Item?) && forall i, j :: 0 <= i < j < |d| ==> d[i].id != d[j].id
  }

  lemma IdsAppend(a: seq<Item>, b: seq<Item>)
    ensures Ids(a + b) == Ids(a) + Ids(b)
  {
    forall id | id in Ids(a) + Ids(b) ensures id in Ids(a + b) {
      var x :| (x in a || x in b) && x.Item? && x.id == id;
      assert x in a + b;
    }
  }

  lemma IdsWith(a: seq<Item>, x: Item)
    ensures Ids(a + [x]) == Ids(a) + if x.Missing? then {} else {x.id}
  {
    IdsAppend(a, [x]);
    assert x in [x];
    assert Ids([x]) == if x.Missing? then {} else {x.id};
  }

  lemma UnrepeatedWith(d: seq<Item>, x: Item)
    requires Unrepeated(d) && x.Item? && x.id !in Ids(d)
    ensures Unrepeated(d + [x])
  {
    forall i | 0 <= i < |d| ensures d[i].id != x.id { assert d[i] in d; }
  }

  /** The merge is the first hundred distinct identifiers: distinct, from the inputs, and complete when
      there are no more than a hundred. */
  lemma {:induction false} DedupIsFirsts(items: seq<Item>)
    ensures Ids(Dedup(items)) == Ids(items) && |Dedup(items)| == |Ids(items)|
    ensures Unrepeated(Dedup(items)) && forall x :: x in Dedup(items) ==> x in items
    decreases |items|
  {
    hide Ids, Unrepeated;
    if items != [] {
      var front, last := items[..|items| - 1], items[|items| - 1];
      DedupIsFirsts(front);
      assert items == front + [last];
      IdsWith(front, last);
      if last.Item? && last.id !in Ids(front) {
        IdsWith(Dedup(front), last);
        UnrepeatedWith(Dedup(front), last);
      }
    } else {
      assert Ids([]) == {} && Unrepeated([]) by { Nothing(); }
    }
  }

  /** Of the distinct items the first hundred are kept, all of them if there are no more. */
  lemma MergedIs(items: seq<Item>)
    ensures Merged(items) <= Dedup(items) && |Merged(items)| == Min(|Ids(items)|, 100)
  {
    DedupIsFirsts(items);
  }

  lemma Nothing()
    ensures Ids([]) == {} && Unrepeated([])
  {
  }

  /** Each identifier is represented by its first item. */
  lemma {:induction false} FirstWins(items: seq<Item>, i: nat)
    requires i < |items| && items[i].Item? && forall j :: 0 <= j < i && items[j].Item? ==> items[j].id != items[i].id
    ensures items[i] in Dedup(items)
    decreases |items|
  {
    var front, last := items[..|items| - 1], items[|items| - 1];
    if i < |front| {
      assert front[i] == items[i];
      FirstWins(front, i);
    } else {
      forall x | x in front && x.Item? ensures x.id != last.id {
        var j :| 0 <= j < |front| && front[j] == x;
        assert items[j] == x;
      }
    }
  }

  lemma {:induction false} DedupPrefix(a: seq<Item>, b: seq<Item>)
    ensures Dedup(a) <= Dedup(a + b)
    decreases |b|
  {
    if b == [] {
      assert a + b == a;
    } else {
      assert (a + b)[..|a + b| - 1] == a + b[..|b| - 1];
      DedupPrefix(a, b[..|b| - 1]);
    }
  }

  lemma DedupWith(a: seq<Item>, x: Item)
    ensures Dedup(a + [x]) == if x.Missing? || x.id in Ids(a) then Dedup(a) else Dedup(a) + [x]
  {
    assert (a + [x])[..|a|] == a;
  }

  // Deduplicating a part first changes nothing.
  lemma {:induction false} DedupPart(before: seq<Item>, part: seq<Item>)
    ensures Dedup(before + Dedup(part)) == Dedup(before + part)
    decreases |part|
  {
    hide Ids, Unrepeated;
    if part == [] {
      assert before + Dedup(part) == before + part;
    } else {
      var front, last := part[..|part| - 1], part[|part| - 1];
      DedupPart(before, front);
      assert before + part == (before + front) + [last];
      DedupIsFirsts(front);
      IdsAppend(before, front);
      IdsAppend(before, Dedup(front));
      DedupWith(before + front, last);
      if !(last.Missing? || last.id in Ids(front)) {
        assert before + Dedup(part) == (before + Dedup(front)) + [last];
        DedupWith(before + Dedup(front), last);
      }
    }
  }

  lemma {:induction false} DedupSame(a: seq<Item>, b: seq<Item>, after: seq<Item>)
    requires Dedup(a) == Dedup(b)
    ensures Dedup(a + after) == Dedup(b + after)
    decreases |after|
  {
    if after == [] {
      assert a + after == a && b + after == b;
    } else {
      var front, last := after[..|after| - 1], after[|after| - 1];
      DedupSame(a, b, front);
      assert (a + after)[..|a + after| - 1] == a + front && (b + after)[..|b + after| - 1] == b + front;
      DedupIsFirsts(a + front);
      DedupIsFirsts(b + front);
    }
  }

  lemma SubsetSize<T>(a: set<T>, b: set<T>)
    requires a <= b
    ensures |a| <= |b|
  {
    assert b == a + (b - a);
  }

  lemma FullPrefix(a: seq<Item>, b: seq<Item>)
    requires |Dedup(a)| >= LIMIT
    ensures Merged(a + b) == Merged(a)
  {
    DedupPrefix(a, b);
    assert Dedup(a + b)[..LIMIT] == Dedup(a)[..LIMIT];
    if |Dedup(a)| == LIMIT { assert Dedup(a)[..LIMIT] == Dedup(a); }
  }

  /** Truncating a part to its first hundred distinct items before merging loses nothing. */
  lemma MergePart(before: seq<Item>, part: seq<Item>, after: seq<Item>)
    ensures Merged(before + Merged(part) + after) == Merged(before + part + after)
  {
    hide Ids, Unrepeated, Dedup;
    var d := Dedup(part);
    DedupPart(before, part);
    DedupSame(before + d, before + part, after);
    if |d| > LIMIT {
      var t, rest := d[..LIMIT], d[LIMIT..];
      DedupIsFirsts(part);
      FullWith(before, d, t);
      FullPrefix(before + t, after);
      FullPrefix(before + t, rest + after);
      assert before + t + (rest + after) == before + d + after;
    }
  }

  lemma FullWith(before: seq<Item>, d: seq<Item>, t: seq<Item>)
    requires Unrepeated(d) && t <= d
    ensures |Dedup(before + t)| >= |t|
  {
    hide Ids, Unrepeated, Dedup;
    PrefixIds(d, t);
    IdsAppend(before, t);
    SubsetSize(Ids(t), Ids(before + t));
    DedupIsFirsts(before + t);
  }

  lemma {:induction false} PrefixIds(d: seq<Item>, t: seq<Item>)
    requires t <= d && Unrepeated(d)
    ensures |Ids(t)| == |t|
    decreases |t|
  {
    if t == [] {
      assert Ids(t) == {};
    } else {
      hide Ids, Unrepeated;
      var front, last := t[..|t| - 1], t[|t| - 1];
      PrefixIds(d, front);
      assert t == front + [last];
      IdsWith(front, last);
      NewId(d, front, last);
    }
  }

  lemma NewId(d: seq<Item>, front: seq<Item>, last: Item)
    requires Unrepeated(d) && front + [last] <= d
    ensures last.Item? && last.id !in Ids(front)
  {
    assert d[|front|] == last && last in d;
    forall x | x in front ensures x.Item? && x.id != last.id {
      var i :| 0 <= i < |front| && front[i] == x;
      assert d[i] == x && x in d;
    }
  }

  // ---- The merge loop ------------------------------------------------------------------------

  lemma MergedStep(done: seq<Item>, x: Item)
    ensures Merged(done + [x]) ==
            if x.Missing? || x.id in Ids(done) || |Merged(done)| >= LIMIT then Merged(done) else Merged(done) + [x]
    ensures Ids(done + [x]) == Ids(done) + if x.Missing? then {} else {x.id}
  {
    hide Ids;
    IdsWith(done, x);
    DedupWith(done, x);
  }

  // One key of one input.
  method MergeInto(merged: seq<Item>, seen: set<Option<string>>, items: seq<Item>, ghost done: seq<Item>)
    returns (m: seq<Item>, s: set<Option<string>>)
    requires merged == Merged(done) && seen == Ids(done)
    ensures m == Merged(done + items) && s == Ids(done + items)
  {
    hide Merged;
    m, s := merged, seen;
    var i := 0;
    assert done + items[..0] == done;
    while i < |items|
      invariant 0 <= i <= |items| && m == Merged(done + items[..i]) && s == Ids(done + items[..i])
    {
      var x := items[i];
      assert done + items[..i + 1] == (done + items[..i]) + [x];
      MergedStep(done + items[..i], x);
      if x.Item? && x.id !in s {
        s := s + {x.id};
        if |m| < LIMIT { m := m + [x]; }
      }
      i := i + 1;
    }
    assert items[..i] == items;
  }

  // What the two dictionaries hold for one key after some inputs.
  ghost predicate Holds(merged: Deps, seen: map<Key, set<Option<string>>>, k: Key, deps: seq<Deps>) {
    k in merged && k in seen && merged[k] == Merged(Joined(deps, k)) && seen[k] == Ids(Joined(deps, k))
  }

  lemma JoinedWith(deps: seq<Deps>, d: Deps, k: Key)
    ensures Joined(deps + [d], k) == Joined(deps, k) + ItemsOf(d, k)
  {
    assert (deps + [d])[..|deps|] == deps;
  }

  /** The lists merged for a key are the inputs' own for it, one after another; an input without it adds nothing. */
  lemma {:induction false} JoinedInOrder(deps: seq<Deps>, k: Key, i: nat)
    requires i < |deps|
    ensures Joined(deps, k) ==
            Joined(deps[..i], k) + (if k in deps[i] then deps[i][k] else []) + Joined(deps[i + 1..], k)
    decreases |deps|
  {
    var front, last := deps[..|deps| - 1], deps[|deps| - 1];
    if i < |front| {
      JoinedInOrder(front, k, i);
      assert front[..i] == deps[..i] && deps[i + 1..] == front[i + 1..] + [last];
      JoinedWith(front[i + 1..], last, k);
      hide Joined, ItemsOf;
      var before, own := Joined(deps[..i], k), if k in deps[i] then deps[i][k] else [];
      Regroup(before + own, Joined(front[i + 1..], k), ItemsOf(last, k));
    } else {
      assert deps[..i] == front && deps[i + 1..] == [];
    }
  }

  // All keys of one input.
  method MergeOne(merged: Deps, seen: map<Key, set<Option<string>>>, d: Deps, ghost deps: seq<Deps>)
    returns (m: Deps, s: map<Key, set<Option<string>>>)
    requires forall k :: Holds(merged, seen, k, deps)
    ensures forall k :: Holds(m, s, k, deps + [d])
  {
    hide Merged, Ids, Joined;
    m, s := merged, seen;
    var j := 0;
    while j < |KEYS|
      invariant 0 <= j <= |KEYS|
      invariant forall k :: if k in KEYS[..j] then Holds(m, s, k, deps + [d]) else Holds(m, s, k, deps)
    {
      var key := KEYS[j];
      assert key !in KEYS[..j] && KEYS[..j + 1] == KEYS[..j] + [key];
      assert Holds(m, s, key, deps);
      var items, ids := MergeInto(m[key], s[key], ItemsOf(d, key), Joined(deps, key));
      JoinedWith(deps, d, key);
      m, s := m[key := items], s[key := ids];
      j := j + 1;
    }
    AllKeys();
    forall k ensures Holds(m, s, k, deps + [d]) { assert k in KEYS[..j]; }
  }

  lemma AllKeys()
    ensures forall k: Key :: k in KEYS[..|KEYS|]
  {
    forall k: Key ensures k in KEYS[..|KEYS|] {
      match k
      case Automations => assert KEYS[0] == k;
      case Scripts => assert KEYS[1] == k;
      case Scenes => assert KEYS[2] == k;
      case Dashboards => assert KEYS[3] == k;
      case SemanticAssets => assert KEYS[4] == k;
    }
  }

  /** `_merge_dependencies`: for every key, the first hundred distinct items of all inputs in order. */
  method MergeDependencies(deps: seq<Deps>) returns (merged: Deps)
    ensures forall k :: k in merged && merged[k] == Merged(Joined(deps, k))
  {
    hide Merged, Ids;
    AllKeys();
    merged := map k | k in KEYS[..|KEYS|] :: [];
    var seen: map<Key, set<Option<string>>> := map k | k in KEYS[..|KEYS|] :: {};
    NothingMerged();
    var i := 0;
    while i < |deps|
      invariant 0 <= i <= |deps|
      invariant forall k :: Holds(merged, seen, k, deps[..i])
    {
      assert deps[..i + 1] == deps[..i] + [deps[i]];
      merged, seen := MergeOne(merged, seen, deps[i], deps[..i]);
      i := i + 1;
    }
    assert deps[..i] == deps;
    forall k ensures k in merged && merged[k] == Merged(Joined(deps, k)) { assert Holds(merged, seen, k, deps); }
  }

  lemma NothingMerged()
    ensures Merged([]) == [] && Ids([]) == {}
  {
  }

  // ---- Nested merging ----------------------------------------------------------------------

  ghost predicate IsMerge(merged: Deps, deps: seq<Deps>) {
    forall k :: k in merged && merged[k] == Merged(Joined(deps, k))
  }

  lemma {:induction false} JoinedAppend(a: seq<Deps>, b: seq<Deps>, k: Key)
    ensures Joined(a + b, k) == Joined(a, k) + Joined(b, k)
    decreases |b|
  {
    if b == [] {
      assert a + b == a;
    } else {
      hide ItemsOf, Joined;
      var front, last := b[..|b| - 1], b[|b| - 1];
      assert a + b == (a + front) + [last] && b == front + [last];
      JoinedWith(a + front, last, k);
      JoinedWith(front, last, k);
      JoinedAppend(a, front, k);
      Regroup(Joined(a, k), Joined(front, k), ItemsOf(last, k));
    }
  }

  function Flatten(groups: seq<seq<Deps>>): seq<Deps> {
    if groups == [] then [] else Flatten(groups[..|groups| - 1]) + groups[|groups| - 1]
  }

  /** Merging the merges of each device's entities, then the area's own entities, gives for every key what
      merging all of them at once gives: truncating per device loses nothing at area level. */
  lemma {:induction false} NestedEqualsFlat(devices: seq<Deps>, groups: seq<seq<Deps>>, direct: seq<Deps>, k: Key)
    requires |devices| == |groups| && forall i :: 0 <= i < |devices| ==> IsMerge(devices[i], groups[i])
    ensures Merged(Joined(devices + direct, k)) == Merged(Joined(Flatten(groups) + direct, k))
    decreases |devices|
  {
    if devices == [] {
      assert devices + direct == direct && Flatten(groups) + direct == direct;
    } else {
      hide Merged, Joined;
      var n := |devices| - 1;
      var front, last := devices[..n], devices[n];
      NestedEqualsFlat(front, groups[..n], groups[n] + direct, k);
      assert devices == front + [last] && Flatten(groups) + direct == Flatten(groups[..n]) + (groups[n] + direct);
      LastDevice(front, last, groups[n], direct, k);
    }
  }

  lemma LastDevice(front: seq<Deps>, last: Deps, group: seq<Deps>, direct: seq<Deps>, k: Key)
    requires IsMerge(last, group)
    ensures Merged(Joined(front + [last] + direct, k)) == Merged(Joined(front + (group + direct), k))
  {
    hide Merged, Joined;
    JoinedAppend(front, group + direct, k);
    JoinedAppend(group, direct, k);
    JoinedAppend(front + [last], direct, k);
    JoinedWith(front, last, k);
    var a, b, c := Joined(front, k), Joined(group, k), Joined(direct, k);
    assert ItemsOf(last, k) == Merged(b);
    MergePart(a, b, c);
    assert a + (b + c) == a + b + c;
  }
}
