/** What a resync or a rebuild leaves: the build's mirror of the home, reached through the import of overrides and the
    reconciliation of energy roles. */
module SyncFacts {
  import opened Graph
  import opened Registry
  import opened Semantics
  import opened Build
  import opened Settle
  import opened Idempotence
  import opened Rebuild
  import opened BuildFacts

  // Relationships that the import and the reconciliation leave alone.
  predicate AboutHome(r: RelKey) {
    r.kind != OverrideOf && r.kind != AssignsRoleTo && r.from.lbl != RoleAssignment && r.to.lbl != RoleAssignment
  }

  /** The graph `f` mirrors the home, having started from `g`. Semantic types can also come from the import. */
  ghost predicate Mirrors(h: Hass, g: G, rules: seq<Rule>, f: G) {
    (forall k: NodeKey :: HomeLabel(k.lbl) && k.lbl != SemanticType ==>
       (k in f.nodes <==> k in g.nodes || NodeAsked(h, k) || ClassNode(h, g, rules, k))) &&
    (forall k :: NodeAsked(h, k) ==> k in f.nodes && NodeStored(h, k, NodeOr(g, k), f.nodes[k])) &&
    (forall e, t :: IsClassified(h, g, rules, e, t) ==>
       AssetNode(e, t) in f.nodes && NamedBy(f.nodes[AssetNode(e, t)], h.signals(e).friendlyName, Inferred)) &&
    (forall r: RelKey :: AboutHome(r) ==> RelMirrors(h, g, rules, f, r))
  }

  // From what a build left to the end of the sync.
  ghost predicate HomeKept(b: G, after: G) {
    (forall k: NodeKey :: k.lbl != RoleAssignment && k.lbl != SemanticType ==> SameNode(b, after, k)) &&
    (forall k: NodeKey :: k.lbl == SemanticType && k in b.nodes ==> k in after.nodes) &&
    (forall r: RelKey :: AboutHome(r) ==> SameRel(b, after, r))
  }

  lemma AskedEnds(h: Hass, r: RelKey)
    requires Asked(h, r) || AreaAsked(h, r)
    ensures r.from.lbl != SemanticType && r.to.lbl != SemanticType
    ensures AboutHome(r)
  {
  }

  lemma ClassEnds(h: Hass, g: G, rules: seq<Rule>, r: RelKey)
    requires ClassRel(h, g, rules, r)
    ensures r.from.lbl != SemanticType && (r.to.lbl == SemanticType ==> ClassNode(h, g, rules, r.to))
  {
    hide IsClassified, Gives, LiesIn;
  }

  lemma SameEnds(h: Hass, g: G, rules: seq<Rule>, b: G, after: G, r: RelKey)
    requires NodesMirror(h, g, rules, b) && HomeKept(b, after) && AboutHome(r)
    requires Asked(h, r) || AreaAsked(h, r) || ClassRel(h, g, rules, r)
    ensures HasEnds(b, r) <==> HasEnds(after, r)
  {
    if ClassRel(h, g, rules, r) { ClassEnds(h, g, rules, r); } else { AskedEnds(h, r); }
    hide Asked, AreaAsked, ClassRel, ClassNode, NodeAsked, NodeStored, IsClassified, NamedBy;
    assert SameNode(b, after, r.from);
    if r.to.lbl != SemanticType {
      assert SameNode(b, after, r.to);
    } else {
      assert r.to in b.nodes;
    }
  }

  lemma RelStillMirrors(h: Hass, g: G, rules: seq<Rule>, b: G, after: G, r: RelKey)
    requires NodesMirror(h, g, rules, b) && HomeKept(b, after) && AboutHome(r) && RelMirrors(h, g, rules, b, r)
    ensures RelMirrors(h, g, rules, after, r)
  {
    if Asked(h, r) || AreaAsked(h, r) || ClassRel(h, g, rules, r) { SameEnds(h, g, rules, b, after, r); }
    assert SameRel(b, after, r);
    hide Asked, AreaAsked, ClassRel, NodesMirror, HomeKept, StampedBy, OwnAreaEdge, IsArea;
  }

  lemma NodesStillMirror(h: Hass, g: G, rules: seq<Rule>, b: G, after: G)
    requires NodesMirror(h, g, rules, b) && HomeKept(b, after)
    ensures forall k: NodeKey :: HomeLabel(k.lbl) && k.lbl != SemanticType ==>
              (k in after.nodes <==> k in g.nodes || NodeAsked(h, k) || ClassNode(h, g, rules, k))
    ensures forall e, t :: IsClassified(h, g, rules, e, t) ==>
              AssetNode(e, t) in after.nodes &&
              NamedBy(after.nodes[AssetNode(e, t)], h.signals(e).friendlyName, Inferred)
  {
    hide ClassNode, NodeAsked, NodeStored, IsClassified, NamedBy;
    forall k: NodeKey | HomeLabel(k.lbl) && k.lbl != SemanticType
      ensures k in after.nodes <==> k in g.nodes || NodeAsked(h, k) || ClassNode(h, g, rules, k)
    {
      assert SameNode(b, after, k);
    }
    forall e, t | IsClassified(h, g, rules, e, t)
      ensures AssetNode(e, t) in after.nodes
      ensures NamedBy(after.nodes[AssetNode(e, t)], h.signals(e).friendlyName, Inferred)
    {
      assert SameNode(b, after, AssetNode(e, t));
    }
  }

  lemma PropsStillMirror(h: Hass, g: G, rules: seq<Rule>, b: G, after: G, k: NodeKey)
    requires NodesMirror(h, g, rules, b) && HomeKept(b, after) && NodeAsked(h, k)
    ensures k.id.Plain? && k in after.nodes && NodeStored(h, k, NodeOr(g, k), after.nodes[k])
  {
    hide ClassNode, NodeStored, IsClassified, NamedBy;
    assert SameNode(b, after, k);
  }

  lemma StillMirrors(h: Hass, g: G, rules: seq<Rule>, b: G, after: G)
    requires NodesMirror(h, g, rules, b) && RelsMirror(h, g, rules, b) && HomeKept(b, after)
    ensures Mirrors(h, g, rules, after)
  {
    hide NodesMirror, HomeKept, RelMirrors, ClassNode, NodeAsked, NodeStored, IsClassified, NamedBy;
    NodesStillMirror(h, g, rules, b, after);
    forall k | NodeAsked(h, k)
      ensures k.id.Plain? && k in after.nodes && NodeStored(h, k, NodeOr(g, k), after.nodes[k])
    {
      PropsStillMirror(h, g, rules, b, after, k);
    }
    forall r: RelKey | AboutHome(r) ensures RelMirrors(h, g, rules, after, r) {
      assert RelMirrors(h, g, rules, b, r);
      RelStillMirrors(h, g, rules, b, after, r);
    }
  }

  lemma ReconcileKeepsHome(h: Hass, b: G, order: seq<string>)
    requires RolesOk(b)
    ensures HomeKept(b, ExecAll(b, ReconcileAll(h, order)))
  {
    ReconcileKeeps(h, b, order);
    hide ReconcileAll, BindingsExact, RolesOk;
    var after := ExecAll(b, ReconcileAll(h, order));
    forall k: NodeKey | k.lbl == SemanticType && k in b.nodes ensures k in after.nodes { assert SameNode(b, after, k); }
  }

  lemma ImportKeepsHome(b: G, rows: seq<RelKey>)
    requires forall r :: r in rows ==> OverrideShape(r)
    ensures HomeKept(b, ExecAll(b, Import(rows)))
  {
    ImportIs(b, rows);
    hide Import;
  }

  lemma HomeKeptThen(a: G, b: G, c: G)
    requires HomeKept(a, b) && HomeKept(b, c)
    ensures HomeKept(a, c)
  {
    forall k: NodeKey | k.lbl != RoleAssignment && k.lbl != SemanticType ensures SameNode(a, c, k) {
      assert SameNode(a, b, k) && SameNode(b, c, k);
    }
    forall r: RelKey | AboutHome(r) ensures SameRel(a, c, r) { assert SameRel(a, b, r) && SameRel(b, c, r); }
  }

  /** After a resync the graph mirrors the home. */
  lemma ResyncMirrors(h: Hass, g: G, rules: seq<Rule>, order: seq<string>)
    requires RulesOk(rules) && Closed(g) && RolesOk(g)
    ensures Mirrors(h, g, rules, Resync(h, g, rules, order))
  {
    var b := FullBuild(h, g, rules);
    hide FullBuild, RolesOk, Closed, NodesMirror, RelsMirror, HomeKept, Mirrors, ReconcileAll;
    BuildRoles(h, g, rules);
    BuildMirrors(h, g, rules);
    ReconcileKeepsHome(h, b, order);
    StillMirrors(h, g, rules, b, Resync(h, g, rules, order));
  }

  /** What clearing keeps: the schema node, the nodes that neither Home Assistant nor the builder owns, and the
      relationships among them. */
  predicate KeptNode(g: G, k: NodeKey) {
    k in g.nodes &&
    (k.lbl == Schema || PSource !in g.nodes[k] || g.nodes[k][PSource] !in {From(HomeAssistant), From(Generated)})
  }

  function Kept(g: G): G {
    G(map k | k in g.nodes && KeptNode(g, k) :: g.nodes[k],
      map r | r in g.rels && KeptNode(g, r.from) && KeptNode(g, r.to) :: g.rels[r])
  }

  lemma ClearedIsKept(g: G)
    requires Closed(g)
    ensures Cleared(g) == Kept(g)
  {
    ClearedKeeps(g);
    hide Cleared;
    assert Cleared(g).nodes == Kept(g).nodes;
    assert Cleared(g).rels == Kept(g).rels;
  }

  /** After a rebuild it mirrors the home, having started from what clearing keeps. */
  lemma RebuildMirrors(h: Hass, g: G, rules: seq<Rule>, rows: seq<RelKey>, order: seq<string>)
    requires RulesOk(rules) && Closed(g) && RolesOk(g) && Exports(g, rows)
    ensures Mirrors(h, Kept(g), rules, FullRebuild(h, g, rules, rows, order))
  {
    ClearedKeeps(g);
    ClearedIsKept(g);
    var b := Rebuilt(h, g, rules);
    var i := ExecAll(b, Import(rows));
    hide FullBuild, RolesOk, Closed, NodesMirror, RelsMirror, HomeKept, Mirrors, ReconcileAll, Cleared, Kept, Import;
    RebuiltRoles(h, g, rules);
    BuildMirrors(h, Cleared(g), rules);
    RolesAfterImport(b, rows);
    ImportKeepsHome(b, rows);
    ReconcileKeepsHome(h, i, order);
    HomeKeptThen(b, i, FullRebuild(h, g, rules, rows, order));
    StillMirrors(h, Cleared(g), rules, b, FullRebuild(h, g, rules, rows, order));
  }
}
