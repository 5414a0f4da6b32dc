/** The destructive rebuild: export the user's overrides, clear what the integration owns, build,
    import the overrides, reconcile energy roles. */
module Rebuild {
  import opened Graph
  import opened Registry
  import opened Semantics
  import opened Build
  import opened Settle
  import opened Idempotence

  // ---- Overrides ---------------------------------------------------------------------

  predicate OverrideShape(r: RelKey) {
    r.kind == OverrideOf && r.to.lbl == SemanticType && r.from.lbl in {Entity, Device, Area}
  }

  /** What `async_list_overrides` reports. */
  predicate Exported(g: G, r: RelKey) { r in g.rels && OverrideShape(r) && SourceOf(g.rels[r]) == User }

  // `_validate_entry`: both identifiers must be non-empty strings.
  predicate ValidEntry(r: RelKey) { r.from.id != Plain("") && r.to.id != Plain("") }

  ghost predicate Exports(g: G, rows: seq<RelKey>) { forall r :: r in rows <==> Exported(g, r) }
  ghost predicate AllValid(rows: seq<RelKey>) { forall r :: r in rows ==> ValidEntry(r) }

  function IdText(id: HaId): string {
    match id
    case Plain(t) => t
    case AssetOf(e, t) => e + "::" + t
    case RoleOf(_, e) => e
  }

  /** `async_create_override`. */
  function CreateOverride(r: RelKey): seq<Write> {
    [MergeNode(r.to, Named1(IdText(r.to.id), User)), MergeRel(r, Sourced(User))]
  }

  function Import(rows: seq<RelKey>): seq<Write> {
    if rows == [] then [] else CreateOverride(rows[0]) + Import(rows[1..])
  }

  /** A semantic type as the user's override leaves it, under its own name. */
  predicate UserType(k: NodeKey, p: Props) {
    SourceOf(p) == User && PName in p && (k.id.Plain? ==> p[PName] == Text(k.id.text))
  }

  // Imported rows touch their semantic types and themselves only; a row whose source has no node is skipped.
  ghost predicate Imported(g: G, after: G, rows: seq<RelKey>) {
    g.nodes.Keys <= after.nodes.Keys &&
    (forall k: NodeKey :: k.lbl != SemanticType ==> SameNode(g, after, k)) &&
    (forall r :: r in rows ==> r.to in after.nodes && UserType(r.to, after.nodes[r.to])) &&
    (forall k :: (forall r :: r in rows ==> r.to != k) ==> SameNode(g, after, k)) &&
    (forall r :: r in rows && r.from in g.nodes ==> Exported(after, r)) &&
    (forall r :: !(r in rows && r.from in g.nodes) ==> SameRel(g, after, r))
  }

  lemma UserStamp(p: Props)
    ensures SourceOf(Plus(p, Sourced(User))) == User
  {
  }

  lemma NodeMerged(g: G, k: NodeKey, props: Props)
    ensures var after := Exec(g, MergeNode(k, props));
            after.nodes.Keys == g.nodes.Keys + {k} && after.rels == g.rels &&
            after.nodes[k] == Plus(NodeOr(g, k), props) && forall x :: x != k ==> SameNode(g, after, x)
  {
  }

  lemma RelMerged(g: G, r: RelKey, props: Props)
    ensures var after := Exec(g, MergeRel(r, props));
            after.nodes == g.nodes && (forall x :: x != r || !HasEnds(g, r) ==> SameRel(g, after, x)) &&
            (HasEnds(g, r) ==> r in after.rels && after.rels[r] == Plus(RelOr(g, r), props))
  {
  }

  lemma UserNamed(stored: Props, k: NodeKey)
    ensures UserType(k, Plus(stored, Named1(IdText(k.id), User)))
  {
  }

  lemma ImportOne(g: G, r: RelKey)
    requires OverrideShape(r)
    ensures Imported(g, ExecAll(g, CreateOverride(r)), [r])
  {
    hide Exec, Plus, SourceOf, Named1, IdText, UserType;
    var typed := CreateOverride(r)[0];
    var g1 := Exec(g, typed);
    NodeMerged(g, r.to, typed.props);
    UserNamed(NodeOr(g, r.to), r.to);
    RelMerged(g1, r, Sourced(User));
    UserStamp(RelOr(g1, r));
    ExecPair(g, typed, MergeRel(r, Sourced(User)));
    var after := Exec(g1, MergeRel(r, Sourced(User)));
    assert after == ExecAll(g, CreateOverride(r));
    assert r.from in g.nodes ==> Exported(after, r);
    forall k: NodeKey | k != r.to ensures SameNode(g, after, k) { assert SameNode(g, g1, k); }
    forall x | !(x == r && r.from in g.nodes) ensures SameRel(g, after, x) { assert SameRel(g1, after, x); }
  }

  lemma ImportedThen(g: G, g1: G, after: G, rows: seq<RelKey>)
    requires rows != [] && (forall r :: r in rows ==> OverrideShape(r))
    requires Imported(g, g1, [rows[0]]) && Imported(g1, after, rows[1..])
    ensures Imported(g, after, rows)
  {
    hide SourceOf, UserType;
    forall r ensures r in rows <==> r == rows[0] || r in rows[1..] { }
    TypesThen(g, g1, after, rows);
    forall k: NodeKey | k.lbl != SemanticType ensures SameNode(g, after, k) {
      assert SameNode(g, g1, k) && SameNode(g1, after, k);
    }
    forall r | !(r in rows && r.from in g.nodes) ensures SameRel(g, after, r) {
      if r in rows { assert SameNode(g, g1, r.from); }
      assert SameRel(g, g1, r) && SameRel(g1, after, r);
    }
    forall r | r in rows && r.from in g.nodes ensures Exported(after, r) {
      if r !in rows[1..] { assert Exported(g1, r) && SameRel(g1, after, r); }
    }
  }

  lemma TypesThen(g: G, g1: G, after: G, rows: seq<RelKey>)
    requires rows != [] && Imported(g, g1, [rows[0]]) && Imported(g1, after, rows[1..])
    ensures forall r :: r in rows ==> r.to in after.nodes && UserType(r.to, after.nodes[r.to])
    ensures forall k :: (forall r :: r in rows ==> r.to != k) ==> SameNode(g, after, k)
  {
    hide Exported, UserType;
    forall r ensures r in rows <==> r == rows[0] || r in rows[1..] { }
    forall r | r in rows ensures r.to in after.nodes && UserType(r.to, after.nodes[r.to]) {
      if forall x :: x in rows[1..] ==> x.to != r.to {
        assert r == rows[0] && r in [rows[0]] && SameNode(g1, after, r.to);
      }
    }
    forall k | forall r :: r in rows ==> r.to != k ensures SameNode(g, after, k) {
      assert SameNode(g, g1, k) && SameNode(g1, after, k);
    }
  }

  lemma {:induction false} ImportIs(g: G, rows: seq<RelKey>)
    requires forall r :: r in rows ==> OverrideShape(r)
    ensures Imported(g, ExecAll(g, Import(rows)), rows)
    decreases |rows|
  {
    if rows != [] {
      hide CreateOverride;
      var g1 := ExecAll(g, CreateOverride(rows[0]));
      hide Imported;
      ImportOne(g, rows[0]);
      ImportIs(g1, rows[1..]);
      ExecAllAppend(g, CreateOverride(rows[0]), Import(rows[1..]));
      ImportedThen(g, g1, ExecAll(g1, Import(rows[1..])), rows);
    }
  }

  // ---- Energy roles --------------------------------------------------------------------

  predicate RoleNodeOk(k: NodeKey, p: Props) {
    k.id.RoleOf? && PSource in p && p[PSource] == From(k.id.source) &&
    PMeasurementEntity in p && p[PMeasurementEntity] == Text(k.id.entity)
  }

  /** Every assignment node carries the source and the entity its identifier was derived from. */
  ghost predicate RolesOk(g: G) { forall k :: k in g.nodes && k.lbl == RoleAssignment ==> RoleNodeOk(k, g.nodes[k]) }

  function RoleAt(g: G, source: Source, e: string): Option<Value> {
    if RoleKey(source, e) in g.nodes && PRole in g.nodes[RoleKey(source, e)]
    then Some(g.nodes[RoleKey(source, e)][PRole]) else None
  }

  predicate RoleStep(w: Write) {
    (w.UpsertRole? && w.source == Inferred) || (w.DropRole? && w.source == Inferred) || w.RepairBindings?
  }

  // Reconciling touches inferred assignments and edges at assignment nodes only.
  ghost predicate OnlyInferred(g: G, after: G) {
    (forall k: NodeKey :: k.lbl != RoleAssignment || (k.id.RoleOf? && k.id.source != Inferred) ==>
       SameNode(g, after, k)) &&
    (forall r: RelKey :: r.from.lbl != RoleAssignment && r.to.lbl != RoleAssignment ==> SameRel(g, after, r))
  }

  lemma RepairKeeps(g: G)
    requires RolesOk(g)
    ensures RolesOk(Exec(g, RepairBindings)) && OnlyInferred(g, Exec(g, RepairBindings))
  {
    hide RoleNodeOk, Bindings, Binds;
    var after := Exec(g, RepairBindings);
    assert after.nodes == g.nodes;
    forall r: RelKey | r.from.lbl != RoleAssignment && r.to.lbl != RoleAssignment ensures SameRel(g, after, r) {
      BindingsAtRoles(g, r);
    }
  }

  lemma BindingsAtRoles(g: G, r: RelKey)
    ensures r in Bindings(g) ==> r.from.lbl == RoleAssignment
  {
  }

  lemma RoleStepKeeps(g: G, w: Write)
    requires RolesOk(g) && RoleStep(w)
    ensures RolesOk(Exec(g, w)) && OnlyInferred(g, Exec(g, w))
  {
    hide Exec, RolesOk, OnlyInferred;
    match w
    case UpsertRole(source, e, role) => UpsertKeeps(g, e, role);
    case DropRole(source, e) => DropKeeps(g, e);
    case RepairBindings => RepairKeeps(g);
  }

  lemma UpsertIs(g: G, source: Source, e: string, role: string)
    ensures var after, a := Exec(g, UpsertRole(source, e, role)), RoleKey(source, e);
            if EntityKey(e) !in g.nodes then after == g
            else after == G(g.nodes[a := Plus(NodeOr(g, a), RoleProps(source, e, role))],
                            g.rels[Binding(a, e) := Plus(RelOr(g, Binding(a, e)), Sourced(Generated))])
  {
  }

  lemma UpsertedNode(p: Props, source: Source, e: string, role: string)
    ensures var q := Plus(p, RoleProps(source, e, role));
            RoleNodeOk(RoleKey(source, e), q) && PRole in q && q[PRole] == Text(role)
  {
  }

  lemma UpsertKeeps(g: G, e: string, role: string)
    requires RolesOk(g)
    ensures var after := Exec(g, UpsertRole(Inferred, e, role)); RolesOk(after) && OnlyInferred(g, after)
  {
    hide Exec, Plus, RoleNodeOk;
    var after, a := Exec(g, UpsertRole(Inferred, e, role)), RoleKey(Inferred, e);
    UpsertIs(g, Inferred, e, role);
    UpsertedNode(NodeOr(g, a), Inferred, e, role);
    forall k | k in after.nodes && k.lbl == RoleAssignment ensures RoleNodeOk(k, after.nodes[k]) {
      if k != a { assert k in g.nodes && after.nodes[k] == g.nodes[k]; }
    }
  }

  lemma DropKeeps(g: G, e: string)
    requires RolesOk(g)
    ensures var after := Exec(g, DropRole(Inferred, e)); RolesOk(after) && OnlyInferred(g, after)
  {
    var after := Exec(g, DropRole(Inferred, e));
    forall k | k in after.nodes && k.lbl == RoleAssignment ensures RoleNodeOk(k, after.nodes[k]) {
      assert SameNode(g, after, k);
    }
  }

  lemma {:induction false} RoleStepsKeep(g: G, ws: seq<Write>)
    requires RolesOk(g) && forall w :: w in ws ==> RoleStep(w)
    ensures RolesOk(ExecAll(g, ws)) && OnlyInferred(g, ExecAll(g, ws))
    decreases |ws|
  {
    if ws != [] {
      assert RoleStep(ws[0]);
      RoleStepKeeps(g, ws[0]);
      var g1 := Exec(g, ws[0]);
      RoleStepsKeep(g1, ws[1..]);
      OnlyInferredThen(g, g1, ExecAll(g1, ws[1..]));
    }
  }

  lemma OnlyInferredThen(a: G, b: G, c: G)
    requires OnlyInferred(a, b) && OnlyInferred(b, c)
    ensures OnlyInferred(a, c)
  {
    forall k: NodeKey | k.lbl != RoleAssignment || (k.id.RoleOf? && k.id.source != Inferred) ensures SameNode(a, c, k) {
      assert SameNode(a, b, k) && SameNode(b, c, k);
    }
    forall r: RelKey | r.from.lbl != RoleAssignment && r.to.lbl != RoleAssignment ensures SameRel(a, c, r) {
      assert SameRel(a, b, r) && SameRel(b, c, r);
    }
  }

  function RoleWrites(h: Hass, order: seq<string>): seq<Write> {
    seq(|order|, i requires 0 <= i < |order| => RoleWrite(h, order[i]))
  }

  /** `async_reconcile_energy_roles` over every state, then the binding repair. */
  function ReconcileAll(h: Hass, order: seq<string>): seq<Write> { RoleWrites(h, order) + [RepairBindings] }

  predicate BoundTo(g: G, r: RelKey) {
    r.from in g.nodes && r.from.id.RoleOf? && r.to == EntityKey(r.from.id.entity) && r.to in g.nodes
  }

  /** After a repair an assignment is bound to its own entity, exactly when that entity has a node. */
  ghost predicate BindingsExact(g: G) {
    forall r: RelKey :: IsBinding(r) ==> (r in g.rels <==> BoundTo(g, r))
  }

  lemma RepairBinds(g: G)
    requires RolesOk(g)
    ensures BindingsExact(Exec(g, RepairBindings))
  {
    var after := Exec(g, RepairBindings);
    forall r: RelKey | IsBinding(r)
      ensures r in after.rels <==> BoundTo(after, r)
    {
      assert r in after.rels <==> r in Bindings(g);
      if r.from in g.nodes && r.from.id.RoleOf? && r.to == EntityKey(r.from.id.entity) && r.to in g.nodes {
        assert RoleNodeOk(r.from, g.nodes[r.from]);
        assert Binds(g, r.from, r.from.id.entity);
        assert r == Binding(r.from, r.from.id.entity);
      }
    }
  }

  lemma ReconcileKeeps(h: Hass, g: G, order: seq<string>)
    requires RolesOk(g)
    ensures var after := ExecAll(g, ReconcileAll(h, order));
            RolesOk(after) && OnlyInferred(g, after) && BindingsExact(after)
  {
    hide OnlyInferred, RolesOk, BindingsExact;
    var ws := RoleWrites(h, order);
    RoleStepsKeep(g, ws);
    var g1 := ExecAll(g, ws);
    RepairBinds(g1);
    RoleStepKeeps(g1, RepairBindings);
    ExecPair(g1, RepairBindings, RepairBindings);
    ExecAllAppend(g, ws, [RepairBindings]);
    OnlyInferredThen(g, g1, Exec(g1, RepairBindings));
  }

  // ---- Which roles a reconcile leaves ------------------------------------------------------------

  /** The inferred role stored for an entity is the one its signals call for; if they call for one and the entity
      has no node, whatever was stored stays. */
  ghost predicate InferredRight(h: Hass, before: G, after: G, e: string) {
    match InferEnergyRole(h.signals(e))
    case None => RoleAt(after, Inferred, e) == None
    case Some(role) =>
      RoleAt(after, Inferred, e) ==
        if EntityKey(e) in after.nodes then Some(Text(role)) else RoleAt(before, Inferred, e)
  }

  /** Right for the entities reconciled; for all others, and for the user's statements, as before. */
  ghost predicate RolesReconciled(h: Hass, before: G, after: G, order: seq<string>) {
    (forall e :: if e in order then InferredRight(h, before, after, e)
                 else RoleAt(after, Inferred, e) == RoleAt(before, Inferred, e)) &&
    (forall e :: RoleAt(after, User, e) == RoleAt(before, User, e))
  }

  ghost predicate SameEntityNodes(a: G, b: G) { forall e :: EntityKey(e) in a.nodes <==> EntityKey(e) in b.nodes }

  lemma RoleWriteIs(h: Hass, g: G, x: string)
    requires RolesOk(g)
    ensures var after := Exec(g, RoleWrite(h, x));
            RolesOk(after) && SameEntityNodes(g, after) && InferredRight(h, g, after, x) &&
            forall s, e :: s != Inferred || e != x ==> RoleAt(after, s, e) == RoleAt(g, s, e)
  {
    hide InferEnergyRole, Exec, RolesOk, RoleAt;
    var role := InferEnergyRole(h.signals(x));
    RoleStepKeeps(g, RoleWrite(h, x));
    if role.Some? { UpsertedRole(g, x, role.value); } else { DroppedRole(g, x); }
  }

  lemma UpsertedRole(g: G, x: string, role: string)
    ensures var after := Exec(g, UpsertRole(Inferred, x, role));
            SameEntityNodes(g, after) && (EntityKey(x) in g.nodes ==> RoleAt(after, Inferred, x) == Some(Text(role))) &&
            (EntityKey(x) !in g.nodes ==> after == g) &&
            forall s, e :: s != Inferred || e != x ==> RoleAt(after, s, e) == RoleAt(g, s, e)
  {
    UpsertIs(g, Inferred, x, role);
    UpsertedNode(NodeOr(g, RoleKey(Inferred, x)), Inferred, x, role);
    hide Exec, Plus, RoleProps, Sourced, RoleNodeOk;
    forall s, e | s != Inferred || e != x ensures RoleKey(s, e) != RoleKey(Inferred, x) { }
  }

  lemma DroppedRole(g: G, x: string)
    requires RolesOk(g)
    ensures var after := Exec(g, DropRole(Inferred, x));
            SameEntityNodes(g, after) && RoleAt(after, Inferred, x) == None &&
            forall s, e :: s != Inferred || e != x ==> RoleAt(after, s, e) == RoleAt(g, s, e)
  {
    assert RoleKey(Inferred, x) in g.nodes ==> RoleNodeOk(RoleKey(Inferred, x), g.nodes[RoleKey(Inferred, x)]);
    forall s, e | s != Inferred || e != x ensures RoleKey(s, e) != RoleKey(Inferred, x) { }
  }

  lemma {:induction false} RoleWritesAre(h: Hass, g: G, order: seq<string>)
    requires RolesOk(g)
    ensures var after := ExecAll(g, RoleWrites(h, order));
            SameEntityNodes(g, after) && RolesReconciled(h, g, after, order)
    decreases |order|
  {
    hide RolesOk, Exec, InferEnergyRole, RoleAt;
    if order != [] {
      var x, rest := order[0], order[1..];
      var g1 := Exec(g, RoleWrite(h, x));
      RoleWriteIs(h, g, x);
      RoleWritesAre(h, g1, rest);
      assert RoleWrites(h, order)[0] == RoleWrite(h, x) && RoleWrites(h, order)[1..] == RoleWrites(h, rest);
      var after := ExecAll(g1, RoleWrites(h, rest));
      forall e ensures if e in order then InferredRight(h, g, after, e)
                       else RoleAt(after, Inferred, e) == RoleAt(g, Inferred, e)
      {
        assert e in order <==> e == x || e in rest;
        assert EntityKey(e) in g1.nodes <==> EntityKey(e) in after.nodes;
      }
    }
  }

  lemma ReconcileIs(h: Hass, g: G, order: seq<string>)
    requires RolesOk(g)
    ensures RolesReconciled(h, g, ExecAll(g, ReconcileAll(h, order)), order)
  {
    RoleWritesAre(h, g, order);
    var g1 := ExecAll(g, RoleWrites(h, order));
    ExecAllAppend(g, RoleWrites(h, order), [RepairBindings]);
    ExecPair(g1, RepairBindings, RepairBindings);
    RepairKeepsNodes(g1);
    hide RoleWrites, Exec;
  }

  lemma RepairKeepsNodes(g: G)
    ensures Exec(g, RepairBindings).nodes == g.nodes
  {
  }

  // ---- The rebuild -------------------------------------------------------------------------

  function Cleared(g: G): G { Exec(g, ClearOwned) }

  /** The graph when the import is about to run. */
  function Rebuilt(h: Hass, g: G, rules: seq<Rule>): G { FullBuild(h, Cleared(g), rules) }

  function FullRebuild(h: Hass, g: G, rules: seq<Rule>, rows: seq<RelKey>, order: seq<string>): G {
    ExecAll(ExecAll(Rebuilt(h, g, rules), Import(rows)), ReconcileAll(h, order))
  }

  function Resync(h: Hass, g: G, rules: seq<Rule>, order: seq<string>): G {
    ExecAll(FullBuild(h, g, rules), ReconcileAll(h, order))
  }

  lemma ClearedKeeps(g: G)
    requires Closed(g)
    ensures var c := Cleared(g);
            Closed(c) && (RolesOk(g) ==> RolesOk(c)) &&
            (forall k :: k in c.nodes <==> k in g.nodes && (!Owned(g.nodes[k]) || k.lbl == Schema)) &&
            (forall k :: k in c.nodes ==> c.nodes[k] == g.nodes[k]) &&
            (forall r :: r in c.rels <==> r in g.rels && r.from in c.nodes && r.to in c.nodes) &&
            (forall r :: r in c.rels ==> c.rels[r] == g.rels[r])
  {
  }

  /** Overrides once the graph has been cleared and rebuilt, before the import: those with no end that
      the integration owned. This is what a rejected import leaves. */
  lemma OverridesWithoutImport(h: Hass, g: G, rules: seq<Rule>, r: RelKey)
    requires RulesOk(rules) && Closed(g)
    ensures Exported(Rebuilt(h, g, rules), r) <==> Exported(g, r) && !Owned(g.nodes[r.from]) && !Owned(g.nodes[r.to])
  {
    hide FullBuild, Exec, Owned;
    ClearedKeeps(g);
    BuildKeepsOverrides(h, Cleared(g), rules);
    if r.kind == OverrideOf { assert SameRel(Cleared(g), Rebuilt(h, g, rules), r); }
    if r in g.rels { assert HasEnds(g, r); }
  }

  lemma NodesAfterRebuild(h: Hass, g: G, rules: seq<Rule>, k: NodeKey)
    requires RulesOk(rules) && Closed(g) && k.lbl in {Area, Device, Entity}
    ensures k in Rebuilt(h, g, rules).nodes <==> Listed(h, k) || (k in g.nodes && !Owned(g.nodes[k]))
  {
    hide FullBuild, Exec, Owned, Listed;
    ClearedKeeps(g);
    BuildNodes(h, Cleared(g), rules, k);
  }

  lemma RebuiltRoles(h: Hass, g: G, rules: seq<Rule>)
    requires RulesOk(rules) && Closed(g) && RolesOk(g)
    ensures var b := Rebuilt(h, g, rules);
            RolesOk(b) && Closed(b) &&
            forall e :: SameNode(g, b, RoleKey(User, e)) && SameNode(g, b, RoleKey(Inferred, e))
  {
    hide FullBuild, Cleared, Owned, BuildWrites;
    ClearedKeeps(g);
    var c, b := Cleared(g), Rebuilt(h, g, rules);
    assert Closed(b) by {
      ExecAllClosed(c, BuildWrites(h, c, rules));
      BuildIsExec(h, c, rules);
    }
    BuildRoles(h, c, rules);
    forall e ensures SameNode(g, b, RoleKey(User, e)) && SameNode(g, b, RoleKey(Inferred, e)) {
      ClearedRole(g, User, e);
      ClearedRole(g, Inferred, e);
      assert SameNode(c, b, RoleKey(User, e)) && SameNode(c, b, RoleKey(Inferred, e));
    }
  }

  lemma BuildRoles(h: Hass, c: G, rules: seq<Rule>)
    requires RulesOk(rules) && RolesOk(c)
    ensures var b := FullBuild(h, c, rules);
            RolesOk(b) && forall k: NodeKey :: k.lbl == RoleAssignment ==> SameNode(c, b, k)
  {
    hide FullBuild, RoleNodeOk;
    var b := FullBuild(h, c, rules);
    forall k: NodeKey | k.lbl == RoleAssignment ensures SameNode(c, b, k) { BuildNodes(h, c, rules, k); }
    forall k | k in b.nodes && k.lbl == RoleAssignment ensures RoleNodeOk(k, b.nodes[k]) { assert SameNode(c, b, k); }
  }

  lemma ClearedRole(g: G, source: Source, e: string)
    requires RolesOk(g) && source in {User, Inferred}
    ensures SameNode(g, Cleared(g), RoleKey(source, e))
  {
    var k := RoleKey(source, e);
    if k in g.nodes { assert RoleNodeOk(k, g.nodes[k]); }
  }

  lemma SourceExists(h: Hass, b: G, rows: seq<RelKey>, order: seq<string>, k: NodeKey)
    requires RolesOk(b) && (forall r :: r in rows ==> OverrideShape(r)) && k.lbl in {Area, Device, Entity}
    ensures k in ExecAll(ExecAll(b, Import(rows)), ReconcileAll(h, order)).nodes <==> k in b.nodes
  {
    hide ReconcileAll;
    var i := ExecAll(b, Import(rows));
    ImportIs(b, rows);
    RolesAfterImport(b, rows);
    ReconcileKeeps(h, i, order);
    assert SameNode(b, i, k) && SameNode(i, ExecAll(i, ReconcileAll(h, order)), k);
  }

  lemma RolesAfterImport(b: G, rows: seq<RelKey>)
    requires RolesOk(b) && forall r :: r in rows ==> OverrideShape(r)
    ensures RolesOk(ExecAll(b, Import(rows)))
  {
    var i := ExecAll(b, Import(rows));
    ImportIs(b, rows);
    forall k | k in i.nodes && k.lbl == RoleAssignment ensures RoleNodeOk(k, i.nodes[k]) { assert SameNode(b, i, k); }
  }

  lemma ImportedOverride(b: G, i: G, rows: seq<RelKey>, r: RelKey)
    requires Imported(b, i, rows)
    ensures Exported(i, r) <==> Exported(b, r) || (r in rows && r.from in b.nodes)
  {
    hide UserType, SourceOf;
    if !(r in rows && r.from in b.nodes) { assert SameRel(b, i, r); }
  }

  /** A rebuild that succeeds leaves as user overrides exactly the earlier ones whose source still has a
      node, although clearing removes every edge at an owned node. */
  lemma RebuildKeepsOverrides(h: Hass, g: G, rules: seq<Rule>, rows: seq<RelKey>, order: seq<string>, r: RelKey)
    requires RulesOk(rules) && Closed(g) && RolesOk(g) && Exports(g, rows)
    ensures var after := FullRebuild(h, g, rules, rows, order);
            Exported(after, r) <==> Exported(g, r) && r.from in after.nodes
  {
    hide FullBuild, ReconcileAll, Owned, RolesOk, Cleared, Imported;
    var b := Rebuilt(h, g, rules);
    var i, after := ExecAll(b, Import(rows)), FullRebuild(h, g, rules, rows, order);
    RebuiltRoles(h, g, rules);
    ImportIs(b, rows);
    RolesAfterImport(b, rows);
    ReconcileKeeps(h, i, order);
    OverridesWithoutImport(h, g, rules, r);
    ImportedOverride(b, i, rows, r);
    if Exported(b, r) { assert HasEnds(b, r); }
    if OverrideShape(r) {
      SourceExists(h, b, rows, order, r.from);
      assert SameRel(i, after, r);
    }
  }

  /** Which nodes exist afterwards: areas, devices and entities the registry lists, and those of other owners. */
  lemma RebuildNodes(h: Hass, g: G, rules: seq<Rule>, rows: seq<RelKey>, order: seq<string>, k: NodeKey)
    requires RulesOk(rules) && Closed(g) && RolesOk(g) && Exports(g, rows) && k.lbl in {Area, Device, Entity}
    ensures k in FullRebuild(h, g, rules, rows, order).nodes <==> Listed(h, k) || (k in g.nodes && !Owned(g.nodes[k]))
  {
    hide FullBuild, ReconcileAll, Owned, RolesOk, Listed, Cleared;
    RebuiltRoles(h, g, rules);
    NodesAfterRebuild(h, g, rules, k);
    SourceExists(h, Rebuilt(h, g, rules), rows, order, k);
  }

  /** A rebuild leaves every user assignment as it was, adds none, and binds each assignment to its own
      entity exactly when that entity has a node. */
  lemma RebuildKeepsUserRoles(h: Hass, g: G, rules: seq<Rule>, rows: seq<RelKey>, order: seq<string>)
    requires RulesOk(rules) && Closed(g) && RolesOk(g) && Exports(g, rows)
    ensures var after := FullRebuild(h, g, rules, rows, order);
            RolesOk(after) && BindingsExact(after) && forall e :: SameNode(g, after, RoleKey(User, e))
  {
    hide FullBuild, ReconcileAll, RolesOk, BindingsExact, Cleared;
    var b := Rebuilt(h, g, rules);
    var i, after := ExecAll(b, Import(rows)), FullRebuild(h, g, rules, rows, order);
    RebuiltRoles(h, g, rules);
    ImportIs(b, rows);
    RolesAfterImport(b, rows);
    ReconcileKeeps(h, i, order);
    forall e ensures SameNode(g, after, RoleKey(User, e)) {
      var k := RoleKey(User, e);
      assert SameNode(g, b, k) && SameNode(b, i, k) && SameNode(i, after, k);
    }
  }

  lemma SameRoles(a: G, b: G)
    requires forall e :: SameNode(a, b, RoleKey(User, e)) && SameNode(a, b, RoleKey(Inferred, e))
    ensures forall e :: RoleAt(a, User, e) == RoleAt(b, User, e) && RoleAt(a, Inferred, e) == RoleAt(b, Inferred, e)
  {
    forall e ensures RoleAt(a, User, e) == RoleAt(b, User, e) && RoleAt(a, Inferred, e) == RoleAt(b, Inferred, e) {
      assert SameNode(a, b, RoleKey(User, e)) && SameNode(a, b, RoleKey(Inferred, e));
    }
  }

  lemma ReconciledFrom(h: Hass, g: G, b: G, after: G, order: seq<string>)
    requires RolesReconciled(h, b, after, order)
    requires forall e :: SameNode(g, b, RoleKey(User, e)) && SameNode(g, b, RoleKey(Inferred, e))
    ensures RolesReconciled(h, g, after, order)
  {
    SameRoles(g, b);
    hide RoleAt, InferEnergyRole;
  }

  /** A rebuild stores the inferred role every reconciled entity's signals call for, changes no other, and binds
      every assignment. */
  lemma RebuildRoles(h: Hass, g: G, rules: seq<Rule>, rows: seq<RelKey>, order: seq<string>)
    requires RulesOk(rules) && Closed(g) && RolesOk(g) && Exports(g, rows)
    ensures var after := FullRebuild(h, g, rules, rows, order);
            RolesReconciled(h, g, after, order) && BindingsExact(after)
  {
    hide FullBuild, ReconcileAll, RolesOk, Cleared, RolesReconciled, BindingsExact;
    var b := Rebuilt(h, g, rules);
    var i := ExecAll(b, Import(rows));
    RebuiltRoles(h, g, rules);
    ImportIs(b, rows);
    RolesAfterImport(b, rows);
    ReconcileIs(h, i, order);
    ReconcileKeeps(h, i, order);
    forall e ensures SameNode(g, i, RoleKey(User, e)) && SameNode(g, i, RoleKey(Inferred, e)) {
      assert SameNode(g, b, RoleKey(User, e)) && SameNode(b, i, RoleKey(User, e));
      assert SameNode(g, b, RoleKey(Inferred, e)) && SameNode(b, i, RoleKey(Inferred, e));
    }
    ReconciledFrom(h, g, i, FullRebuild(h, g, rules, rows, order), order);
  }

  /** So does a resync. */
  lemma ResyncRoles(h: Hass, g: G, rules: seq<Rule>, order: seq<string>)
    requires RulesOk(rules) && RolesOk(g)
    ensures var after := Resync(h, g, rules, order); RolesReconciled(h, g, after, order) && BindingsExact(after)
  {
    hide FullBuild, ReconcileAll, RolesOk, RolesReconciled, BindingsExact;
    var b := FullBuild(h, g, rules);
    BuildRoles(h, g, rules);
    ReconcileIs(h, b, order);
    ReconcileKeeps(h, b, order);
    ReconciledFrom(h, g, b, Resync(h, g, rules, order), order);
  }
}
