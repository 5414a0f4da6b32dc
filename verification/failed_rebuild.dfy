/** What a rebuild leaves of the user's overrides, wherever a query raises. */
module FailedRebuild {
  import opened Graph
  import opened Sequences
  import opened Registry
  import opened Semantics
  import opened Build
  import opened Settle
  import opened Idempotence
  import opened Rebuild
  import opened FullSync

  // ---- Prefixes of row lists ---------------------------------------------------------------

  /** Queries that raise leave a prefix of their rows. */
  lemma PlayedRows(g: G, faults: seq<Fault>, stmts: seq<seq<Write>>, rows: seq<Write>) returns (k: nat)
    requires Concat(stmts) == rows
    ensures k == |Concat(stmts[..TookEffect(faults, |stmts|)])| <= |rows|
    ensures Play(g, faults, stmts).g == ExecAll(g, rows[..k])
  {
    var n := PlayIsPrefix(g, faults, stmts);
    ConcatPrefix(stmts, n);
    k := |Concat(stmts[..n])|;
    assert rows[..k] == Concat(stmts[..n]);
  }

  // ---- A build under way leaves overrides alone ------------------------------------------------

  // A row that writes no override and deletes nothing but areas.
  predicate Tame(w: Write) { (Merge(w) && (w.MergeRel? ==> w.rel.kind != OverrideOf)) || w.DropAreas? }

  ghost predicate AllTame(ws: seq<Write>) { forall w :: w in ws ==> Tame(w) }

  lemma {:induction false} TameKeeps(g: G, ws: seq<Write>)
    requires AllTame(ws)
    ensures SameOverrides(g, ExecAll(g, ws))
    decreases |ws|
  {
    if ws != [] {
      hide Exec, Tame;
      assert Tame(ws[0]);
      TameOne(g, ws[0]);
      TameKeeps(Exec(g, ws[0]), ws[1..]);
      SameOverridesThen(g, Exec(g, ws[0]), ExecAll(g, ws));
    }
  }

  lemma TameOne(g: G, w: Write)
    requires Tame(w)
    ensures SameOverrides(g, Exec(g, w))
  {
  }

  lemma CalmIsTame(h: Hass, ws: seq<Write>)
    requires AllCalm(h, ws)
    ensures AllTame(ws)
  {
    forall w | w in ws ensures Tame(w) { assert Calm(h, w); }
  }

  lemma DropsAndLinksTame(h: Hass)
    ensures AllTame(Drops(Synced(h))) && AllTame(AreaLinks(h))
  {
    forall w | w in Drops(Synced(h)) ensures Tame(w) { InFlatMap(Synced(h), (e: string) => [DropAreas(e)], w); }
    forall w | w in AreaLinks(h) ensures Tame(w) { InFlatMap(Synced(h), (e: string) => AreaLink(h, e), w); }
  }

  lemma BuildTame(h: Hass, g: G, rules: seq<Rule>)
    requires RulesOk(rules)
    ensures AllTame(BuildWrites(h, g, rules))
  {
    hide BeforeDrops, Drops, AreaLinks, AfterLinks, Tame;
    BeforeCalm(h);
    CalmIsTame(h, BeforeDrops(h));
    DropsAndLinksTame(h);
    AfterCalm(h, g, rules);
    CalmIsTame(h, AfterLinks(h, g, rules));
  }

  // ---- Overrides after clearing ------------------------------------------------------------------

  ghost predicate Unowned(g: G, r: RelKey)
    requires Closed(g)
  {
    Exported(g, r) && assert HasEnds(g, r); !Owned(g.nodes[r.from]) && !Owned(g.nodes[r.to])
  }

  lemma ClearedOverrides(g: G, r: RelKey)
    requires Closed(g)
    ensures Exported(Cleared(g), r) <==> Unowned(g, r)
  {
    hide Exec, Owned;
    ClearedKeeps(g);
    if r in g.rels { assert HasEnds(g, r); }
  }

  lemma SameExported(a: G, b: G, r: RelKey)
    requires SameOverrides(a, b)
    ensures Exported(a, r) <==> Exported(b, r)
  {
    if r.kind == OverrideOf { assert SameRel(a, b, r); }
  }

  // ---- Part of an import ----------------------------------------------------------------------------

  lemma ImportStart(b: G, rows: seq<RelKey>, k: nat)
    requires rows != [] && k < 2
    ensures k <= |Import(rows)| && ExecAll(b, Import(rows)[..k]).rels == b.rels
  {
    if k == 0 {
      assert Import(rows)[..k] == [];
    } else {
      var typed := CreateOverride(rows[0])[0];
      assert Import(rows)[..k] == [typed];
      ExecPair(b, typed, typed);
    }
  }

  lemma TakeRest(rows: seq<RelKey>, n: nat)
    requires 1 <= n <= |rows|
    ensures rows[..n] == [rows[0]] + rows[1..][..n - 1] && rows[..n][1..] == rows[1..][..n - 1]
  {
  }

  lemma SkipTwo<T>(a: seq<T>, b: seq<T>, k: nat)
    requires |a| == 2 && 2 <= k <= |a + b|
    ensures (a + b)[..k] == a + b[..k - 2]
  {
  }

  lemma {:induction false} ImportTake(rows: seq<RelKey>, k: nat)
    requires rows != [] && 2 <= k <= |Import(rows)| && k <= 2 * |rows|
    ensures var first, rest := CreateOverride(rows[0]), rows[1..];
            k - 2 <= |Import(rest)| && Import(rows)[..k] == first + Import(rest)[..k - 2] &&
            Import(rows[..k / 2]) == first + Import(rest[..(k - 2) / 2])
  {
    var first := CreateOverride(rows[0]);
    assert |first| == 2;
    TakeRest(rows, k / 2);
    hide CreateOverride;
    SkipTwo(first, Import(rows[1..]), k);
  }

  lemma {:induction false} ImportLength(rows: seq<RelKey>)
    ensures |Import(rows)| == 2 * |rows|
    decreases |rows|
  {
    if rows != [] { ImportLength(rows[1..]); }
  }

  /** The first k rows of an import are its first k / 2 overrides, but for one more type node. */
  lemma {:induction false} ImportPrefix(b: G, rows: seq<RelKey>, k: nat)
    requires k <= |Import(rows)|
    ensures k <= 2 * |rows| && ExecAll(b, Import(rows)[..k]).rels == ExecAll(b, Import(rows[..k / 2])).rels
    decreases |rows|
  {
    ImportLength(rows);
    if rows == [] {
    } else if k < 2 {
      ImportStart(b, rows, k);
      assert rows[..k / 2] == [];
    } else {
      hide CreateOverride, Import;
      var first, rest := CreateOverride(rows[0]), rows[1..];
      ImportTake(rows, k);
      ImportPrefix(ExecAll(b, first), rest, k - 2);
      ExecAllAppend(b, first, Import(rest)[..k - 2]);
      ExecAllAppend(b, first, Import(rest[..(k - 2) / 2]));
    }
  }

  lemma ImportedOverrides(b: G, rows: seq<RelKey>, r: RelKey)
    requires forall x :: x in rows ==> OverrideShape(x)
    ensures Exported(ExecAll(b, Import(rows)), r) <==> Exported(b, r) || (r in rows && r.from in b.nodes)
  {
    ImportIs(b, rows);
    if !(r in rows && r.from in b.nodes) { assert SameRel(b, ExecAll(b, Import(rows)), r); }
  }

  lemma RoleWritesAreSteps(h: Hass, order: seq<string>)
    ensures forall w :: w in ReconcileAll(h, order) ==> RoleStep(w)
  {
  }

  /** The first k rows of the import and the reconcile: the overrides there were, and those among the first n
      imported whose source has a node. */
  lemma LateRows(h: Hass, b: G, rows: seq<RelKey>, order: seq<string>, k: nat) returns (n: nat)
    requires RolesOk(b) && k <= |Import(rows) + ReconcileAll(h, order)| && forall r :: r in rows ==> OverrideShape(r)
    ensures n == Min(k / 2, |rows|)
    ensures var left := ExecAll(b, (Import(rows) + ReconcileAll(h, order))[..k]);
            forall r :: Exported(left, r) <==> Exported(b, r) || (r in rows[..n] && r.from in b.nodes)
  {
    hide ReconcileAll, Import, RoleStep, Exported;
    ImportLength(rows);
    var all := Import(rows) + ReconcileAll(h, order);
    if k <= |Import(rows)| {
      n := k / 2;
      assert all[..k] == Import(rows)[..k];
      ImportPrefix(b, rows, k);
      PartExported(b, ExecAll(b, Import(rows)[..k]), rows, n);
    } else {
      n := |rows|;
      var ws := ReconcileAll(h, order)[..k - |Import(rows)|];
      assert all[..k] == Import(rows) + ws && rows[..n] == rows;
      RoleWritesAreSteps(h, order);
      ExecAllAppend(b, Import(rows), ws);
      var i := ExecAll(b, Import(rows));
      RolesAfterImport(b, rows);
      RoleStepsKeep(i, ws);
      RolesKeepExported(b, i, ExecAll(i, ws), rows);
    }
  }

  lemma PartExported(b: G, left: G, rows: seq<RelKey>, n: nat)
    requires n <= |rows| && forall r :: r in rows ==> OverrideShape(r)
    requires var whole := ExecAll(b, Import(rows[..n]));
             left.rels == whole.rels
    ensures forall r :: Exported(left, r) <==> Exported(b, r) || (r in rows[..n] && r.from in b.nodes)
  {
    hide Import;
    var whole := ExecAll(b, Import(rows[..n]));
    forall r ensures Exported(left, r) <==> Exported(b, r) || (r in rows[..n] && r.from in b.nodes) {
      ImportedOverrides(b, rows[..n], r);
    }
  }

  lemma RolesLeaveExported(i: G, left: G, r: RelKey)
    requires OnlyInferred(i, left)
    ensures Exported(left, r) <==> Exported(i, r)
  {
    hide SourceOf;
    if OverrideShape(r) { assert SameRel(i, left, r); }
  }

  lemma RolesKeepExported(b: G, i: G, left: G, rows: seq<RelKey>)
    requires i == ExecAll(b, Import(rows)) && OnlyInferred(i, left) && forall r :: r in rows ==> OverrideShape(r)
    ensures forall r :: Exported(left, r) <==> Exported(b, r) || (r in rows && r.from in b.nodes)
  {
    hide Import, Exported, OnlyInferred;
    forall r ensures Exported(left, r) <==> Exported(b, r) || (r in rows && r.from in b.nodes) {
      ImportedOverrides(b, rows, r);
      RolesLeaveExported(i, left, r);
    }
  }

  // ---- The rebuild that fails ----------------------------------------------------------------------------

  function Fate(faults: seq<Fault>, i: nat): Fault { if i < |faults| then faults[i] else Fine }

  /** The clear took effect: the overrides were read, and the clear itself was not lost. */
  predicate ClearTookEffect(faults: seq<Fault>) { Fate(faults, 0).Fine? && !Fate(faults, 1).LostBefore? }

  /** The override's source outlasts a rebuild: the registry lists it, or the integration does not own it. */
  predicate Lasting(h: Hass, g: G, r: RelKey) {
    Listed(h, r.from) || (r.from in g.nodes && !Owned(g.nodes[r.from]))
  }

  // Overrides left: those without an owned end, and those among the first n imported whose source lasts.
  ghost predicate LeftWith(h: Hass, g: G, left: G, rows: seq<RelKey>, n: nat)
    requires Closed(g)
  {
    n <= |rows| && forall r :: Exported(left, r) <==> Unowned(g, r) || (r in rows[..n] && Lasting(h, g, r))
  }

  /** How many overrides a rebuild imports: none unless all of them are valid and no query before the import
      raises; then one for every two import queries that take effect. */
  ghost function ImportsDone(h: Hass, g: G, faults: seq<Fault>, rules: seq<Rule>, rows: seq<RelKey>): (n: nat)
    ensures n <= |rows|
  {
    var before := |UntilImport(h, g, rules, true)|;
    if AllValid(rows) && forall i :: 0 <= i < before && i < |faults| ==> faults[i].Fine?
    then TookEffect(faults[Min(before, |faults|)..], 2 * |rows|) / 2
    else 0
  }

  /** Wherever a query raises, or none does: a rebuild leaves the graph alone when the clear did not take
      effect; otherwise the overrides left are exactly those with no end the integration owned, and those it
      imported whose source lasts. The payload read before is gone. */
  lemma RebuildLeaves(h: Hass, g: G, faults: seq<Fault>, rules: seq<Rule>, rows: seq<RelKey>, order: seq<string>)
    requires RulesOk(rules) && Closed(g) && RolesOk(g) && Exports(g, rows)
    ensures var left := PlaySync(h, g, faults, rules, rows, order, true).g;
            if ClearTookEffect(faults) then LeftWith(h, g, left, rows, ImportsDone(h, g, faults, rules, rows))
            else left == g
  {
    hide BuildStmts, Cleared, FullBuild, FromImport, LeftWith, ClearTookEffect, TookEffect;
    var c := Cleared(g);
    RaisesExactly(g, faults, UntilImport(h, g, rules, true));
    PlayAppend(g, faults, ClearStmts(true), BuildStmts(h, c, rules));
    ClearPlayed(g, faults, true);
    ClearOutcome(g, faults);
    var clear := Play(g, faults, ClearStmts(true));
    if !clear.ok {
      if ClearTookEffect(faults) { LeftCleared(h, g, c, rows); }
    } else {
      var built := Play(c, clear.faults, BuildStmts(h, c, rules));
      if !built.ok || !AllValid(rows) {
        BuildUnderWay(h, c, clear.faults, rules);
        LeftCleared(h, g, built.g, rows);
      } else {
        ImportUnderWay(h, g, faults, rules, rows, order);
      }
    }
  }

  /** Before the call: the clear will not take effect, or every override the rebuild will not import has no
      owned end, has a source that does not last, or is a repetition of one it will import. */
  ghost predicate Spares(h: Hass, g: G, faults: seq<Fault>, rules: seq<Rule>, rows: seq<RelKey>)
    requires Closed(g)
  {
    var n := ImportsDone(h, g, faults, rules, rows);
    !ClearTookEffect(faults) ||
    forall r :: r in rows[n..] ==> r in rows[..n] || Unowned(g, r) || !Lasting(h, g, r)
  }

  /** So a rebuild keeps every override whose source lasts exactly under that condition; it never adds one. */
  lemma KeepsAllExactly(h: Hass, g: G, faults: seq<Fault>, rules: seq<Rule>, rows: seq<RelKey>, order: seq<string>)
    requires RulesOk(rules) && Closed(g) && RolesOk(g) && Exports(g, rows)
    ensures var left := PlaySync(h, g, faults, rules, rows, order, true).g;
            ((forall r :: Exported(g, r) && Lasting(h, g, r) ==> Exported(left, r)) <==>
               Spares(h, g, faults, rules, rows)) &&
            forall r :: Exported(left, r) ==> Exported(g, r)
  {
    hide PlaySync, ClearTookEffect, Exported, Unowned, TookEffect, UntilImport, Lasting, ImportsDone;
    var left, n := PlaySync(h, g, faults, rules, rows, order, true).g, ImportsDone(h, g, faults, rules, rows);
    RebuildLeaves(h, g, faults, rules, rows, order);
    forall r ensures (Unowned(g, r) ==> Exported(g, r)) && (r in rows <==> Exported(g, r)) { UnownedIsExported(g, r); }
    if ClearTookEffect(faults) {
      assert rows == rows[..n] + rows[n..];
      forall r ensures r in rows <==> r in rows[..n] || r in rows[n..] { }
      if r :| r in rows[n..] && r !in rows[..n] && !Unowned(g, r) && Lasting(h, g, r) {
        assert !Exported(left, r) && Exported(g, r);
      }
    }
  }

  lemma UnownedIsExported(g: G, r: RelKey)
    requires Closed(g)
    ensures Unowned(g, r) ==> Exported(g, r)
  {
  }

  lemma ClearOutcome(g: G, faults: seq<Fault>)
    ensures var clear := Play(g, faults, ClearStmts(true));
            clear.g == (if ClearTookEffect(faults) then Cleared(g) else g) && (clear.ok ==> ClearTookEffect(faults))
  {
    hide Exec;
    ExecPair(g, ClearOwned, ClearOwned);
    assert ClearStmts(true)[1..] == [[ClearOwned]];
    var first := PlayOne(g, faults, []);
    if first.ok { PlaySingle(first.g, first.faults, [ClearOwned]); }
  }

  lemma LeftCleared(h: Hass, g: G, left: G, rows: seq<RelKey>)
    requires Closed(g) && SameOverrides(Cleared(g), left)
    ensures LeftWith(h, g, left, rows, 0)
  {
    hide Cleared, Exported, Unowned;
    forall r ensures Exported(left, r) <==> Unowned(g, r) || (r in rows[..0] && Lasting(h, g, r)) {
      ClearedOverrides(g, r);
      SameExported(Cleared(g), left, r);
    }
  }

  lemma BuildUnderWay(h: Hass, c: G, faults: seq<Fault>, rules: seq<Rule>)
    requires RulesOk(rules)
    ensures SameOverrides(c, Play(c, faults, BuildStmts(h, c, rules)).g)
  {
    hide BuildStmts, BuildWrites, Tame;
    BuildStmtsRows(h, c, rules);
    var rows := BuildWrites(h, c, rules);
    var k := PlayedRows(c, faults, BuildStmts(h, c, rules), rows);
    BuildTame(h, c, rules);
    forall w | w in rows[..k] ensures Tame(w) { assert w in rows; }
    TameKeeps(c, rows[..k]);
  }

  lemma ImportUnderWay(h: Hass, g: G, faults: seq<Fault>, rules: seq<Rule>, rows: seq<RelKey>, order: seq<string>)
    requires RulesOk(rules) && Closed(g) && RolesOk(g) && Exports(g, rows) && AllValid(rows)
    requires Play(g, faults, UntilImport(h, g, rules, true)).ok
    ensures var n := ImportsDone(h, g, faults, rules, rows);
            n <= |rows| && LeftWith(h, g, PlaySync(h, g, faults, rules, rows, order, true).g, rows, n)
  {
    hide UntilImport, FromImport, Play, Import, ReconcileAll, FullBuild, Cleared, RolesOk, AllValid, OverrideShape;
    UntilImportOk(h, g, faults, rules, true);
    var built := Play(g, faults, UntilImport(h, g, rules, true));
    assert built.g == Rebuilt(h, g, rules);
    RebuiltRoles(h, g, rules);
    FromImportRows(h, rows, order, true);
    var all := Import(rows) + ReconcileAll(h, order);
    var k := PlayedRows(built.g, built.faults, FromImport(h, rows, order, true), all);
    ExportsShaped(g, rows);
    var n := LateRows(h, built.g, rows, order, k);
    ImportedCount(h, g, faults, rules, rows, order, k);
    hide Exported, Unowned, Listed, Owned;
    forall r ensures Exported(built.g, r) <==> Unowned(g, r) { RebuiltOverrides(h, g, rules, r); }
    forall r | r in rows[..n] ensures r.from in built.g.nodes <==> Lasting(h, g, r) {
      assert OverrideShape(r);
      SourceLasts(h, g, rules, r);
    }
  }

  // The rows that took effect, counted in overrides.
  lemma ImportedCount(h: Hass, g: G, faults: seq<Fault>, rules: seq<Rule>, rows: seq<RelKey>, order: seq<string>,
                      k: nat)
    requires AllValid(rows) && Play(g, faults, UntilImport(h, g, rules, true)).ok
    requires var stmts := FromImport(h, rows, order, true);
             var fates := Play(g, faults, UntilImport(h, g, rules, true)).faults;
             k == |Concat(stmts[..TookEffect(fates, |stmts|)])|
    ensures ImportsDone(h, g, faults, rules, rows) == Min(k / 2, |rows|)
  {
    hide UntilImport, Play, Import, ReconcileStmts, TookEffect, AllValid, Concat;
    RaisesExactly(g, faults, UntilImport(h, g, rules, true));
    var fates := Play(g, faults, UntilImport(h, g, rules, true)).faults;
    var stmts := FromImport(h, rows, order, true);
    var m := TookEffect(fates, |stmts|);
    ImportLength(rows);
    assert |stmts| >= |Import(rows)|;
    TookEffectOf(fates, 2 * |rows|, |stmts|);
    SinglesPrefix(Import(rows), ReconcileStmts(h, order) + READ_BACK, m);
  }

  lemma SinglesPrefix(a: seq<Write>, rest: seq<seq<Write>>, m: nat)
    requires m <= |Singles(a) + rest|
    ensures var k := |Concat((Singles(a) + rest)[..m])|; if m <= |a| then k == m else k >= |a|
  {
    var all := Singles(a) + rest;
    if m <= |a| {
      assert all[..m] == Singles(a[..m]);
      ConcatSingles(a[..m]);
    } else {
      assert all[..m] == Singles(a) + rest[..m - |a|];
      ConcatAppend(Singles(a), rest[..m - |a|]);
      ConcatSingles(a);
    }
  }

  lemma SourceLasts(h: Hass, g: G, rules: seq<Rule>, r: RelKey)
    requires RulesOk(rules) && Closed(g) && OverrideShape(r)
    ensures r.from in Rebuilt(h, g, rules).nodes <==> Lasting(h, g, r)
  {
    NodesAfterRebuild(h, g, rules, r.from);
  }

  lemma ExportsShaped(g: G, rows: seq<RelKey>)
    requires Exports(g, rows)
    ensures forall r :: r in rows ==> OverrideShape(r)
  {
    forall r | r in rows ensures OverrideShape(r) { assert Exported(g, r); }
  }

  lemma RebuiltOverrides(h: Hass, g: G, rules: seq<Rule>, r: RelKey)
    requires RulesOk(rules) && Closed(g)
    ensures Exported(Rebuilt(h, g, rules), r) <==> Unowned(g, r)
  {
    hide FullBuild, Cleared, Owned;
    OverridesWithoutImport(h, g, rules, r);
    if r in g.rels { assert HasEnds(g, r); }
  }

  // ---- A concrete loss ------------------------------------------------------------------------------------

  // The user has overridden the type of an entity the integration owns.
  const LAMP := NodeKey(Entity, Plain("light.a"))
  const LAMP_OVERRIDE := RelKey(LAMP, OverrideOf, NodeKey(SemanticType, Plain("Camera")))

  function OverriddenLamp(): G {
    G(map[LAMP := map[PSource := From(HomeAssistant)], LAMP_OVERRIDE.to := map[PSource := From(User)]],
      map[LAMP_OVERRIDE := Sourced(User)])
  }

  lemma LampGraph()
    ensures var g := OverriddenLamp();
            Closed(g) && RolesOk(g) && Exported(g, LAMP_OVERRIDE) && !Unowned(g, LAMP_OVERRIDE) &&
            Listed(ExampleHass(), LAMP) && ValidEntry(LAMP_OVERRIDE)
  {
    hide ExampleHass;
    LampListed();
    LampOverridden();
  }

  lemma LampOverridden()
    ensures var g := OverriddenLamp(); Exported(g, LAMP_OVERRIDE) && Owned(g.nodes[LAMP])
  {
  }

  lemma LampListed()
    ensures Listed(ExampleHass(), LAMP)
  {
    var h := ExampleHass();
    InFlatMap(h.entries.ids, (e: string) => if OwnEntity(h, e) then [] else [e], "light.a");
    assert "light.a" in ["light.a"];
  }

  lemma FirstBuildQuery(h: Hass, g: G, rules: seq<Rule>)
    ensures BuildStmts(h, g, rules) != [] && |BuildStmts(h, g, rules)| >= 1
  {
    assert |HomeStmts(h)| >= |Singles(NodeRow(h, HOME))|;
  }

  // The build's first query is lost: nothing but the clear has happened.
  lemma LostAtBuild(h: Hass, g: G, rules: seq<Rule>, rows: seq<RelKey>, order: seq<string>)
    ensures var end := PlaySync(h, g, [Fine, Fine, LostBefore], rules, rows, order, true);
            !end.ok && end.g == Cleared(g)
  {
    hide BuildStmts, Cleared, Exec;
    var faults := [Fine, Fine, LostBefore];
    var build := BuildStmts(h, Cleared(g), rules);
    PlayAppend(g, faults, ClearStmts(true), build);
    ClearOutcome(g, faults);
    assert ClearStmts(true)[1..] == [[ClearOwned]];
    var first := PlayOne(g, faults, []);
    assert first.faults == [Fine, LostBefore];
    PlaySingle(first.g, first.faults, [ClearOwned]);
    var clear := Play(g, faults, ClearStmts(true));
    assert clear.ok && clear.faults == [LostBefore];
    FirstBuildQuery(h, Cleared(g), rules);
  }

  /** One query that fails at the wrong moment loses an override for good: a rebuild without failures keeps the
      override of a listed entity, but after one whose first build query was lost it is gone, and no later
      rebuild without failures brings it back. */
  lemma OneFailureLosesOverride(rows: seq<RelKey>, later: seq<RelKey>, order: seq<string>)
    requires Exports(OverriddenLamp(), rows)
    requires var faults := [Fine, Fine, LostBefore];
             var failed := PlaySync(ExampleHass(), OverriddenLamp(), faults, RULES, rows, order, true);
             Exports(failed.g, later)
    ensures var h, g, faults := ExampleHass(), OverriddenLamp(), [Fine, Fine, LostBefore];
            var left := PlaySync(h, g, faults, RULES, rows, order, true).g;
            Closed(g) && !Spares(h, g, faults, RULES, rows) && Lasting(h, g, LAMP_OVERRIDE) &&
            Exported(g, LAMP_OVERRIDE) && Exported(FullRebuild(h, g, RULES, rows, order), LAMP_OVERRIDE) &&
            !Exported(left, LAMP_OVERRIDE) && !Exported(FullRebuild(h, left, RULES, later, order), LAMP_OVERRIDE)
  {
    hide FullRebuild, PlaySync, RULES, Exported, Unowned, Listed, ExampleHass, OverriddenLamp, Spares;
    var h, g := ExampleHass(), OverriddenLamp();
    LampGraph();
    RulesUseNamedRelationships();
    assert RulesOk(RULES);
    RebuildKeepsOverrides(h, g, RULES, rows, order, LAMP_OVERRIDE);
    RebuildNodes(h, g, RULES, rows, order, LAMP);
    LostAtBuild(h, g, RULES, rows, order);
    ClearedOverrides(g, LAMP_OVERRIDE);
    ClearedKeeps(g);
    RebuildKeepsOverrides(h, Cleared(g), RULES, later, order, LAMP_OVERRIDE);
    KeepsAllExactly(h, g, [Fine, Fine, LostBefore], RULES, rows, order);
  }

  // ---- A payload that cannot be imported -------------------------------------------------------------------

  const NAMELESS := RelKey(NodeKey(Device, Plain("d")), OverrideOf, NodeKey(SemanticType, Plain("")))

  // The same, and an override whose type has an empty identifier.
  function NamelessToo(): G {
    G(OverriddenLamp().nodes[NAMELESS.from := Sourced(User)][NAMELESS.to := Sourced(User)],
      OverriddenLamp().rels[NAMELESS := Sourced(User)])
  }

  lemma NamelessGraph()
    ensures var g := NamelessToo();
            Closed(g) && RolesOk(g) && Exported(g, LAMP_OVERRIDE) && Exported(g, NAMELESS) && !ValidEntry(NAMELESS) &&
            !Unowned(g, LAMP_OVERRIDE)
  {
    hide OverriddenLamp, Owned, SourceOf, Sourced;
    LampGraph();
    UserSourced();
    Alongside(OverriddenLamp());
  }

  lemma UserSourced()
    ensures SourceOf(Sourced(User)) == User
  {
  }

  lemma Alongside(lamp: G)
    requires Closed(lamp) && RolesOk(lamp) && Exported(lamp, LAMP_OVERRIDE) && !Unowned(lamp, LAMP_OVERRIDE)
    ensures var p := Sourced(User);
            var g := G(lamp.nodes[NAMELESS.from := p][NAMELESS.to := p], lamp.rels[NAMELESS := p]);
            Closed(g) && RolesOk(g) && Exported(g, LAMP_OVERRIDE) && Exported(g, NAMELESS) && !Unowned(g, LAMP_OVERRIDE)
  {
    UserSourced();
    hide Owned, SourceOf, Sourced, RoleNodeOk;
    assert LAMP_OVERRIDE.from != NAMELESS.from && LAMP_OVERRIDE.from != NAMELESS.to;
    assert LAMP_OVERRIDE.to != NAMELESS.from && LAMP_OVERRIDE.to != NAMELESS.to && LAMP_OVERRIDE != NAMELESS;
  }

  /** With no query failing at all, one override whose type has an empty identifier makes a rebuild fail after
      the clear, and takes the overrides of owned entities with it. */
  lemma OneBadEntryLosesOthers(rows: seq<RelKey>, order: seq<string>)
    requires Exports(NamelessToo(), rows)
    ensures var end := PlaySync(ExampleHass(), NamelessToo(), [], RULES, rows, order, true);
            !end.ok && Exported(NamelessToo(), LAMP_OVERRIDE) && Lasting(ExampleHass(), NamelessToo(), LAMP_OVERRIDE) &&
            !Exported(end.g, LAMP_OVERRIDE)
    ensures Closed(NamelessToo()) && !Spares(ExampleHass(), NamelessToo(), [], RULES, rows)
  {
    hide RULES, PlaySync, ExampleHass, NamelessToo, Unowned, Exported, Listed, Spares;
    var h, g := ExampleHass(), NamelessToo();
    RulesUseNamedRelationships();
    assert RulesOk(RULES);
    NamelessGraph();
    assert NAMELESS in rows && !AllValid(rows);
    SyncSucceedsExactly(h, g, [], RULES, rows, order, true);
    RebuildLeaves(h, g, [], RULES, rows, order);
    LampListed();
    KeepsAllExactly(h, g, [], RULES, rows, order);
  }
}
