/** Graph slices for the viewer: distinct nodes, and the relationships that can be drawn between them. */
module Slices {
  import opened Registry

  datatype Node = Node(id: string, name: string)
  datatype Rel = Rel(id: string, source: string, target: string, kind: string)

  function NodeIds(nodes: seq<Node>): set<string> { set n | n in nodes :: n.id }
  function RelIds(rels: seq<Rel>): set<string> { set r | r in rels :: r.id }

  function Unique(nodes: seq<Node>): seq<Node> {
    if nodes == [] then []
    else
      var front, last := nodes[..|nodes| - 1], nodes[|nodes| - 1];
      Unique(front) + if last.id in NodeIds(front) then [] else [last]
  }

  predicate Drawable(ids: set<string>, r: Rel) { r.source in ids && r.target in ids && r.id !in ids }

  function Renderable(ids: set<string>, rels: seq<Rel>): seq<Rel> {
    if rels == [] then []
    else
      var front, last := rels[..|rels| - 1], rels[|rels| - 1];
      Renderable(ids, front) + if !Drawable(ids, last) || last.id in RelIds(Renderable(ids, front)) then [] else [last]
  }

  // ---- The loops ---------------------------------------------------------------------------

  method UniqueNodes(nodes: seq<Node>) returns (result: seq<Node>)
    ensures result == Unique(nodes)
  {
    hide NodeIds;
    var seen: set<string> := {};
    result := [];
    NoNodeIds();
    var i := 0;
    while i < |nodes|
      invariant 0 <= i <= |nodes| && result == Unique(nodes[..i]) && seen == NodeIds(nodes[..i])
    {
      var next := nodes[..i + 1];
      assert next[..i] == nodes[..i] && next == nodes[..i] + [nodes[i]];
      NodeIdsWith(nodes[..i], nodes[i]);
      if nodes[i].id !in seen {
        seen := seen + {nodes[i].id};
        result := result + [nodes[i]];
      }
      i := i + 1;
    }
    assert nodes[..i] == nodes;
  }

  lemma NoNodeIds()
    ensures NodeIds([]) == {}
  {
  }

  lemma NodeIdsWith(nodes: seq<Node>, n: Node)
    ensures NodeIds(nodes + [n]) == NodeIds(nodes) + {n.id}
  {
    assert n in nodes + [n];
    forall m | m in nodes ensures m in nodes + [n] { }
  }

  lemma RelIdsWith(rels: seq<Rel>, r: Rel)
    ensures RelIds(rels + [r]) == RelIds(rels) + {r.id}
  {
    assert r in rels + [r];
    forall m | m in rels ensures m in rels + [r] { }
  }

  method RenderableRelationships(nodes: seq<Node>, rels: seq<Rel>) returns (result: seq<Rel>)
    ensures result == Renderable(NodeIds(nodes), rels)
  {
    var ids := set n | n in nodes :: n.id;
    var seen := ids;
    result := [];
    var i := 0;
    while i < |rels|
      invariant 0 <= i <= |rels| && result == Renderable(ids, rels[..i]) && seen == ids + RelIds(result)
    {
      var r, next := rels[i], rels[..i + 1];
      assert next[..i] == rels[..i];
      RelIdsWith(result, r);
      if !(r.source !in ids || r.target !in ids || r.id in seen) {
        seen := seen + {r.id};
        result := result + [r];
      }
      i := i + 1;
    }
    assert rels[..i] == rels;
  }

  // ---- Well formed and maximal ---------------------------------------------------------------

  ghost predicate WellFormed(nodes: seq<Node>, rels: seq<Rel>) {
    DistinctNodes(nodes) && DistinctRels(rels) &&
    (forall r :: r in rels ==> r.source in NodeIds(nodes) && r.target in NodeIds(nodes) && r.id !in NodeIds(nodes))
  }

  /** `at` picks the kept elements, in order. */
  ghost predicate Picks<T>(all: seq<T>, kept: seq<T>, at: seq<nat>) {
    |at| == |kept| && (forall k, l :: 0 <= k < l < |at| ==> at[k] < at[l]) &&
    forall k :: 0 <= k < |at| ==> at[k] < |all| && all[at[k]] == kept[k]
  }

  lemma PicksMore<T>(all: seq<T>, kept: seq<T>, at: seq<nat>, x: T)
    requires Picks(all, kept, at)
    ensures Picks(all + [x], kept, at) && Picks(all + [x], kept + [x], at + [|all|])
  {
  }

  ghost predicate DistinctNodes(nodes: seq<Node>) { forall i, j :: 0 <= i < j < |nodes| ==> nodes[i].id != nodes[j].id }

  /** Node i is the first with its identifier. */
  ghost predicate FirstOfId(nodes: seq<Node>, i: nat) {
    i < |nodes| && forall j :: 0 <= j < i ==> nodes[j].id != nodes[i].id
  }

  lemma FirstOfIdWith(front: seq<Node>, last: Node)
    ensures forall i: nat :: i < |front| ==> (FirstOfId(front + [last], i) <==> FirstOfId(front, i))
    ensures FirstOfId(front + [last], |front|) <==> last.id !in NodeIds(front)
  {
    var all := front + [last];
    NotYet(front, last.id);
    assert forall j :: 0 <= j < |front| ==> all[j] == front[j];
  }

  lemma DistinctNodesWith(nodes: seq<Node>, n: Node)
    requires DistinctNodes(nodes) && n.id !in NodeIds(nodes)
    ensures DistinctNodes(nodes + [n])
  {
    NotYet(nodes, n.id);
  }

  lemma PicksBelow<T>(all: seq<T>, kept: seq<T>, at: seq<nat>)
    requires Picks(all, kept, at)
    ensures |all| !in at && forall i :: i in at ==> i < |all|
  {
  }

  /** Nodes: distinct, in order, with every identifier of the input, each by its first node. */
  lemma {:induction false} UniqueIsExact(nodes: seq<Node>) returns (at: seq<nat>)
    ensures NodeIds(Unique(nodes)) == NodeIds(nodes) && DistinctNodes(Unique(nodes))
    ensures Picks(nodes, Unique(nodes), at)
    ensures forall i: nat :: i < |nodes| ==> (i in at <==> FirstOfId(nodes, i))
    decreases |nodes|
  {
    if nodes == [] {
      at := [];
    } else {
      hide NodeIds, FirstOfId, DistinctNodes, Picks;
      var front, last := nodes[..|nodes| - 1], nodes[|nodes| - 1];
      var rest := UniqueIsExact(front);
      assert nodes == front + [last];
      NodeIdsWith(front, last);
      PicksMore(front, Unique(front), rest, last);
      PicksBelow(front, Unique(front), rest);
      FirstOfIdWith(front, last);
      if last.id in NodeIds(front) {
        assert Unique(nodes) == Unique(front);
        at := rest;
      } else {
        NodeIdsWith(Unique(front), last);
        DistinctNodesWith(Unique(front), last);
        at := rest + [|front|];
      }
      forall i: nat | i < |nodes| ensures i in at <==> FirstOfId(nodes, i) {
        assert i in at <==> i in rest || (i in at && i == |front|);
      }
    }
  }

  lemma NotYet(nodes: seq<Node>, id: string)
    ensures id !in NodeIds(nodes) <==> forall j :: 0 <= j < |nodes| ==> nodes[j].id != id
  {
    forall j | 0 <= j < |nodes| ensures nodes[j].id in NodeIds(nodes) { assert nodes[j] in nodes; }
  }

  /** Relationship i is left out although it could be drawn: an earlier drawable one has its identifier. */
  ghost predicate Repeats(ids: set<string>, rels: seq<Rel>, i: nat) {
    i < |rels| && exists j :: 0 <= j < i && Drawable(ids, rels[j]) && rels[j].id == rels[i].id
  }

  ghost predicate DistinctRels(rels: seq<Rel>) { forall i, j :: 0 <= i < j < |rels| ==> rels[i].id != rels[j].id }

  // The identifiers already taken are those of the drawable relationships seen.
  lemma {:induction false} TakenIds(ids: set<string>, rels: seq<Rel>, id: string)
    ensures id in RelIds(Renderable(ids, rels)) <==>
              exists j :: 0 <= j < |rels| && Drawable(ids, rels[j]) && rels[j].id == id
    decreases |rels|
  {
    if rels != [] {
      var front, last := rels[..|rels| - 1], rels[|rels| - 1];
      TakenIds(ids, front, id);
      RelIdsWith(Renderable(ids, front), last);
      if exists j :: 0 <= j < |front| && Drawable(ids, front[j]) && front[j].id == id {
        var j :| 0 <= j < |front| && Drawable(ids, front[j]) && front[j].id == id;
        assert rels[j] == front[j];
      }
      if exists j :: 0 <= j < |rels| && Drawable(ids, rels[j]) && rels[j].id == id {
        var j :| 0 <= j < |rels| && Drawable(ids, rels[j]) && rels[j].id == id;
        if j < |front| { assert front[j] == rels[j]; }
      }
      if Drawable(ids, last) && last.id == id { assert rels[|front|] == last; }
      assert Renderable(ids, front) + [] == Renderable(ids, front);
    }
  }

  lemma DistinctRelsWith(rels: seq<Rel>, r: Rel)
    requires DistinctRels(rels) && r.id !in RelIds(rels)
    ensures DistinctRels(rels + [r])
  {
    forall i | 0 <= i < |rels| ensures rels[i].id != r.id { assert rels[i] in rels; }
  }

  /** Relationships: distinct and drawable, in order, and one is left out only if it dangles, takes a node's
      identifier, or repeats an earlier one. */
  lemma {:induction false} RenderableIsExact(ids: set<string>, rels: seq<Rel>) returns (at: seq<nat>)
    ensures DistinctRels(Renderable(ids, rels)) && forall r :: r in Renderable(ids, rels) ==> Drawable(ids, r)
    ensures Picks(rels, Renderable(ids, rels), at)
    ensures forall i: nat :: i < |rels| ==> (i in at <==> Drawable(ids, rels[i]) && !Repeats(ids, rels, i))
    decreases |rels|
  {
    if rels == [] {
      at := [];
    } else {
      hide RelIds, Drawable, Picks, Repeats, DistinctRels, Renderable;
      var front, last := rels[..|rels| - 1], rels[|rels| - 1];
      var rest := RenderableIsExact(ids, front);
      assert rels == front + [last];
      TakenIds(ids, front, last.id);
      RepeatsFront(ids, front, last);
      PicksMore(front, Renderable(ids, front), rest, last);
      PicksBelow(front, Renderable(ids, front), rest);
      RenderableWith(ids, front, last);
      var kept := Drawable(ids, last) && last.id !in RelIds(Renderable(ids, front));
      if kept {
        DistinctRelsWith(Renderable(ids, front), last);
        at := rest + [|front|];
      } else {
        assert Renderable(ids, rels) == Renderable(ids, front);
        at := rest;
      }
      forall i: nat | i < |rels| ensures i in at <==> Drawable(ids, rels[i]) && !Repeats(ids, rels, i) {
        assert i < |front| ==> rels[i] == front[i];
        assert i in at <==> i in rest || (kept && i == |front|);
      }
    }
  }

  lemma RepeatsFront(ids: set<string>, front: seq<Rel>, last: Rel)
    ensures forall i: nat :: i < |front| ==> (Repeats(ids, front + [last], i) <==> Repeats(ids, front, i))
    ensures Repeats(ids, front + [last], |front|) <==>
              exists j :: 0 <= j < |front| && Drawable(ids, front[j]) && front[j].id == last.id
  {
    var all := front + [last];
    assert forall j :: 0 <= j < |front| ==> all[j] == front[j];
  }

  // ---- Filtering again -----------------------------------------------------------------------------

  lemma UniqueWith(front: seq<Node>, last: Node)
    ensures Unique(front + [last]) == Unique(front) + if last.id in NodeIds(front) then [] else [last]
  {
    hide NodeIds;
    assert (front + [last])[..|front|] == front;
  }

  lemma {:induction false} UniqueAgain(nodes: seq<Node>)
    requires DistinctNodes(nodes)
    ensures Unique(nodes) == nodes
    decreases |nodes|
  {
    if nodes != [] {
      hide NodeIds, Unique;
      var front, last := nodes[..|nodes| - 1], nodes[|nodes| - 1];
      UniqueAgain(front);
      NotYet(front, last.id);
      assert nodes == front + [last];
      UniqueWith(front, last);
    }
  }

  lemma NewId(front: seq<Rel>, last: Rel)
    requires DistinctRels(front + [last])
    ensures last.id !in RelIds(front)
  {
    var all := front + [last];
    forall r | r in front ensures r.id != last.id {
      var j :| 0 <= j < |front| && front[j] == r;
      assert all[j] == r && all[|front|] == last;
    }
  }

  lemma DistinctRelsFront(rels: seq<Rel>)
    requires DistinctRels(rels) && rels != []
    ensures DistinctRels(rels[..|rels| - 1])
  {
  }

  lemma RenderableWith(ids: set<string>, front: seq<Rel>, last: Rel)
    ensures Renderable(ids, front + [last]) ==
            Renderable(ids, front) +
            if !Drawable(ids, last) || last.id in RelIds(Renderable(ids, front)) then [] else [last]
  {
    hide Drawable, RelIds;
    assert (front + [last])[..|front|] == front;
  }

  lemma {:induction false} RenderableAgain(ids: set<string>, rels: seq<Rel>)
    requires DistinctRels(rels) && forall r :: r in rels ==> Drawable(ids, r)
    ensures Renderable(ids, rels) == rels
    decreases |rels|
  {
    if rels != [] {
      hide Drawable, RelIds, DistinctRels, Renderable;
      var front, last := rels[..|rels| - 1], rels[|rels| - 1];
      DistinctRelsFront(rels);
      RenderableAgain(ids, front);
      assert rels == front + [last];
      NewId(front, last);
      RenderableWith(ids, front, last);
    }
  }

  // ---- A slice ------------------------------------------------------------------------------------------

  datatype Slice = Slice(nodes: seq<Node>, rels: seq<Rel>, truncated: bool)

  // Raw rows may be missing.
  function Present<T>(rows: seq<Option<T>>): seq<T> {
    if rows == [] then []
    else Present(rows[..|rows| - 1]) + if rows[|rows| - 1].Some? then [rows[|rows| - 1].value] else []
  }

  function First<T>(rows: seq<T>, limit: nat): seq<T> { if |rows| <= limit then rows else rows[..limit] }

  function SliceOf(nodes: seq<Option<Node>>, rels: seq<Option<Rel>>, nodeLimit: nat, edgeLimit: nat): Slice {
    var kept := Unique(Present(First(nodes, nodeLimit)));
    Slice(kept, Renderable(NodeIds(kept), Present(First(rels, edgeLimit))), |nodes| > nodeLimit || |rels| > edgeLimit)
  }

  lemma {:induction false} PresentLength<T>(rows: seq<Option<T>>)
    ensures |Present(rows)| <= |rows|
    decreases |rows|
  {
    if rows != [] { PresentLength(rows[..|rows| - 1]); }
  }

  lemma PickedLength<T>(all: seq<T>, kept: seq<T>, at: seq<nat>)
    requires Picks(all, kept, at)
    ensures |kept| <= |all|
  {
    if kept != [] { Climb(at, |at| - 1); }
  }

  lemma {:induction false} Climb(at: seq<nat>, k: nat)
    requires k < |at| && forall i, j :: 0 <= i < j < |at| ==> at[i] < at[j]
    ensures k <= at[k]
    decreases k
  {
    if k > 0 { Climb(at, k - 1); }
  }

  /** Every slice of the direct backend is well formed and within its limits; filtering it again changes nothing;
      and when it is not marked truncated it was built from all rows. */
  lemma SliceIsGood(nodes: seq<Option<Node>>, rels: seq<Option<Rel>>, nodeLimit: nat, edgeLimit: nat)
    ensures var s := SliceOf(nodes, rels, nodeLimit, edgeLimit);
            WellFormed(s.nodes, s.rels) && |s.nodes| <= nodeLimit && |s.rels| <= edgeLimit &&
            Unique(s.nodes) == s.nodes && Renderable(NodeIds(s.nodes), s.rels) == s.rels &&
            (s.truncated <==> |nodes| > nodeLimit || |rels| > edgeLimit) &&
            (!s.truncated ==>
               s.nodes == Unique(Present(nodes)) && s.rels == Renderable(NodeIds(Present(nodes)), Present(rels)))
  {
    hide Unique, Renderable, Present, NodeIds, RelIds;
    var s := SliceOf(nodes, rels, nodeLimit, edgeLimit);
    var rawNodes, rawRels := Present(First(nodes, nodeLimit)), Present(First(rels, edgeLimit));
    var at := UniqueIsExact(rawNodes);
    PresentLength(First(nodes, nodeLimit));
    PickedLength(rawNodes, s.nodes, at);
    var bt := RenderableIsExact(NodeIds(s.nodes), rawRels);
    PresentLength(First(rels, edgeLimit));
    PickedLength(rawRels, s.rels, bt);
    UniqueAgain(s.nodes);
    RenderableAgain(NodeIds(s.nodes), s.rels);
  }

  // ---- A slice, row by row -----------------------------------------------------------------------------

  /** `at` are the rows that are there, in order. */
  ghost predicate Rows<T>(rows: seq<Option<T>>, there: seq<T>, at: seq<nat>) {
    |at| == |there| && (forall k, l :: 0 <= k < l < |at| ==> at[k] < at[l]) &&
    (forall k :: 0 <= k < |at| ==> at[k] < |rows| && rows[at[k]] == Some(there[k])) &&
    forall i: nat :: i < |rows| && rows[i].Some? ==> i in at
  }

  lemma RowsMore<T>(front: seq<Option<T>>, there: seq<T>, at: seq<nat>, last: Option<T>)
    requires Rows(front, there, at)
    ensures last.None? ==> Rows(front + [last], there, at)
    ensures last.Some? ==> Rows(front + [last], there + [last.value], at + [|front|])
  {
    var rows := front + [last];
    assert forall i :: 0 <= i < |front| ==> rows[i] == front[i];
    if last.Some? {
      var more := at + [|front|];
      forall i: nat | i < |rows| && rows[i].Some? ensures i in more {
        assert i in at || more[|at|] == i;
      }
    }
  }

  lemma {:induction false} PresentIs<T>(rows: seq<Option<T>>) returns (at: seq<nat>)
    ensures Rows(rows, Present(rows), at)
    decreases |rows|
  {
    if rows == [] {
      at := [];
    } else {
      hide Rows;
      var front, last := rows[..|rows| - 1], rows[|rows| - 1];
      var rest := PresentIs(front);
      assert rows == front + [last];
      RowsMore(front, Present(front), rest, last);
      at := if last.Some? then rest + [|front|] else rest;
      assert Present(front) + [] == Present(front);
    }
  }

  ghost predicate FirstRow(nodes: seq<Option<Node>>, i: nat) {
    i < |nodes| && nodes[i].Some? &&
    forall j :: 0 <= j < i && nodes[j].Some? ==> nodes[j].value.id != nodes[i].value.id
  }

  predicate HasNode(nodes: seq<Node>, id: string) { exists i :: 0 <= i < |nodes| && nodes[i].id == id }

  /** Both ends are nodes, and its identifier is not one's. */
  predicate CanDraw(nodes: seq<Node>, r: Rel) {
    HasNode(nodes, r.source) && HasNode(nodes, r.target) && !HasNode(nodes, r.id)
  }

  ghost predicate DrawnRow(nodes: seq<Node>, rels: seq<Option<Rel>>, i: nat) {
    i < |rels| && rels[i].Some? && CanDraw(nodes, rels[i].value) &&
    forall j :: 0 <= j < i && rels[j].Some? && CanDraw(nodes, rels[j].value) ==> rels[j].value.id != rels[i].value.id
  }

  lemma HasNodeIs(nodes: seq<Node>, id: string)
    ensures HasNode(nodes, id) <==> id in NodeIds(nodes)
  {
    NotYet(nodes, id);
    hide NodeIds;
  }

  lemma CanDrawIs(nodes: seq<Node>, r: Rel)
    ensures CanDraw(nodes, r) <==> Drawable(NodeIds(nodes), r)
  {
    HasNodeIs(nodes, r.source);
    HasNodeIs(nodes, r.target);
    HasNodeIs(nodes, r.id);
    hide HasNode, NodeIds;
  }

  lemma EarlierRow<T>(rows: seq<Option<T>>, there: seq<T>, at: seq<nat>, k: nat, j: nat) returns (l: nat)
    requires Rows(rows, there, at) && k < |at| && j < at[k] && rows[j].Some?
    ensures l < k && at[l] == j
  {
    l :| 0 <= l < |at| && at[l] == j;
  }

  lemma FirstRowIs(rows: seq<Option<Node>>, there: seq<Node>, at: seq<nat>, k: nat)
    requires Rows(rows, there, at) && k < |at|
    ensures FirstRow(rows, at[k]) <==> FirstOfId(there, k)
  {
    if FirstOfId(there, k) {
      forall j | 0 <= j < at[k] && rows[j].Some? ensures rows[j].value.id != there[k].id {
        var l := EarlierRow(rows, there, at, k, j);
      }
    }
    if FirstRow(rows, at[k]) {
      forall l | 0 <= l < k ensures there[l].id != there[k].id { assert rows[at[l]] == Some(there[l]); }
    }
  }

  lemma DrawnRowIs(nodes: seq<Node>, rows: seq<Option<Rel>>, there: seq<Rel>, at: seq<nat>, k: nat)
    requires Rows(rows, there, at) && k < |at|
    ensures var ids := NodeIds(nodes);
            DrawnRow(nodes, rows, at[k]) <==> Drawable(ids, there[k]) && !Repeats(ids, there, k)
  {
    var ids := NodeIds(nodes);
    forall r ensures CanDraw(nodes, r) <==> Drawable(ids, r) { CanDrawIs(nodes, r); }
    hide CanDraw, Drawable, NodeIds;
    if Drawable(ids, there[k]) && !Repeats(ids, there, k) {
      forall j | 0 <= j < at[k] && rows[j].Some? && CanDraw(nodes, rows[j].value)
        ensures rows[j].value.id != there[k].id
      {
        var l := EarlierRow(rows, there, at, k, j);
      }
    }
    if DrawnRow(nodes, rows, at[k]) {
      forall l | 0 <= l < k && Drawable(ids, there[l]) ensures there[l].id != there[k].id {
        assert rows[at[l]] == Some(there[l]);
      }
    }
  }

  /** `kept` are the rows among the first `limit` that satisfy a condition, in order. */
  ghost predicate Chosen<T>(rows: seq<Option<T>>, kept: seq<T>, chosen: seq<nat>) {
    |chosen| == |kept| && (forall k, l :: 0 <= k < l < |chosen| ==> chosen[k] < chosen[l]) &&
    forall k :: 0 <= k < |chosen| ==> chosen[k] < |rows| && rows[chosen[k]] == Some(kept[k])
  }

  lemma Composed<T>(rows: seq<Option<T>>, there: seq<T>, at: seq<nat>, kept: seq<T>, picked: seq<nat>)
    returns (chosen: seq<nat>)
    requires Rows(rows, there, at) && Picks(there, kept, picked)
    ensures Chosen(rows, kept, chosen)
    ensures forall k: nat :: k < |at| ==> (at[k] in chosen <==> k in picked)
    ensures forall i :: i in chosen ==> i in at
  {
    chosen := seq(|picked|, k requires 0 <= k < |picked| => at[picked[k]]);
    forall k: nat | k < |at| ensures at[k] in chosen <==> k in picked { ComposedAt(at, picked, chosen, k); }
  }

  lemma ComposedAt(at: seq<nat>, picked: seq<nat>, chosen: seq<nat>, k: nat)
    requires k < |at| && (forall i, j :: 0 <= i < j < |at| ==> at[i] < at[j])
    requires |chosen| == |picked| && forall l :: 0 <= l < |picked| ==> picked[l] < |at| && chosen[l] == at[picked[l]]
    ensures at[k] in chosen <==> k in picked
  {
    if at[k] in chosen {
      var l :| 0 <= l < |chosen| && chosen[l] == at[k];
      assert picked[l] == k;
    }
    if k in picked {
      var l :| 0 <= l < |picked| && picked[l] == k;
      assert chosen[l] == at[k];
    }
  }

  /** Which nodes a slice has: of the first rows up to the limit, those that are there and the first of their
      identifier, in order. */
  lemma SliceNodesExactly(nodes: seq<Option<Node>>, rels: seq<Option<Rel>>, nodeLimit: nat, edgeLimit: nat)
    returns (chosen: seq<nat>)
    ensures Chosen(nodes, SliceOf(nodes, rels, nodeLimit, edgeLimit).nodes, chosen)
    ensures forall i: nat :: i in chosen <==> i < nodeLimit && FirstRow(nodes, i)
  {
    hide Unique, Renderable, Present, NodeIds;
    var rows := First(nodes, nodeLimit);
    var there := Present(rows);
    var at := PresentIs(rows);
    var picked := UniqueIsExact(there);
    hide FirstOfId, DistinctNodes;
    chosen := Composed(rows, there, at, Unique(there), picked);
    assert forall i: nat :: i < |rows| ==> rows[i] == nodes[i];
    forall i: nat ensures i in chosen <==> i < nodeLimit && FirstRow(nodes, i) {
      if i < |rows| && rows[i].Some? {
        var k :| 0 <= k < |at| && at[k] == i;
        FirstRowIs(rows, there, at, k);
        assert FirstRow(rows, i) <==> FirstRow(nodes, i);
      }
    }
  }

  lemma DrawnAmongFirst(nodes: seq<Node>, rels: seq<Option<Rel>>, limit: nat, i: nat)
    ensures DrawnRow(nodes, First(rels, limit), i) <==> i < limit && DrawnRow(nodes, rels, i)
  {
    hide CanDraw;
    var rows := First(rels, limit);
    assert forall j :: 0 <= j < |rows| ==> rows[j] == rels[j];
  }

  lemma RowThere<T>(rows: seq<Option<T>>, there: seq<T>, at: seq<nat>, i: nat) returns (k: nat)
    requires Rows(rows, there, at) && i < |rows| && rows[i].Some?
    ensures k < |at| && at[k] == i
  {
    k :| 0 <= k < |at| && at[k] == i;
  }

  /** Which relationships: of the first rows up to their limit, those that are there, can be drawn between the
      slice's nodes, and are the first such of their identifier, in order. */
  lemma SliceRelsExactly(nodes: seq<Option<Node>>, rels: seq<Option<Rel>>, nodeLimit: nat, edgeLimit: nat)
    returns (chosen: seq<nat>)
    ensures var s := SliceOf(nodes, rels, nodeLimit, edgeLimit);
            Chosen(rels, s.rels, chosen) &&
            forall i: nat :: i in chosen <==> i < edgeLimit && DrawnRow(s.nodes, rels, i)
  {
    hide Unique, Renderable, Present, NodeIds, CanDraw, DrawnRow;
    var s := SliceOf(nodes, rels, nodeLimit, edgeLimit);
    var rows, ids := First(rels, edgeLimit), NodeIds(s.nodes);
    var there := Present(rows);
    var at := PresentIs(rows);
    var picked := RenderableIsExact(ids, there);
    hide Drawable, Repeats, DistinctRels;
    chosen := Composed(rows, there, at, Renderable(ids, there), picked);
    hide Picks, First;
    forall i: nat ensures i in chosen <==> i < edgeLimit && DrawnRow(s.nodes, rels, i) {
      DrawnAmongFirst(s.nodes, rels, edgeLimit, i);
      if DrawnRow(s.nodes, rows, i) { DrawnThere(s.nodes, rows, i); }
      if i < |rows| && rows[i].Some? {
        var k := RowThere(rows, there, at, i);
        DrawnRowIs(s.nodes, rows, there, at, k);
      }
    }
  }

  lemma DrawnThere(nodes: seq<Node>, rows: seq<Option<Rel>>, i: nat)
    requires DrawnRow(nodes, rows, i)
    ensures i < |rows| && rows[i].Some?
  {
  }

  method BuildSlice(nodes: seq<Option<Node>>, rels: seq<Option<Rel>>, nodeLimit: nat, edgeLimit: nat) returns (s: Slice)
    ensures s == SliceOf(nodes, rels, nodeLimit, edgeLimit)
    ensures WellFormed(s.nodes, s.rels) && |s.nodes| <= nodeLimit && |s.rels| <= edgeLimit
  {
    var kept := UniqueNodes(Present(First(nodes, nodeLimit)));
    var drawn := RenderableRelationships(kept, Present(First(rels, edgeLimit)));
    SliceIsGood(nodes, rels, nodeLimit, edgeLimit);
    s := Slice(kept, drawn, |nodes| > nodeLimit || |rels| > edgeLimit);
  }
}
