/** What a batch leaves for an entity it reports as synced, whatever raised elsewhere: its properties, its inferred
    role and that role's binding; and that all others are left alone. */
module BatchFacts {
  import opened Graph
  import opened Sequences
  import opened Registry
  import opened Semantics
  import opened Agreement
  import opened FastPath
  import opened Batch
  import opened Idempotence
  import opened Rebuild

  function RoleEdge(e: string): RelKey { Binding(RoleKey(Inferred, e), e) }

  /** An entity's node, inferred role and binding are as before. */
  predicate SameFor(a: G, b: G, e: string) {
    SameNode(a, b, EntityKey(e)) && SameNode(a, b, RoleKey(Inferred, e)) && SameRel(a, b, RoleEdge(e))
  }

  ghost predicate SameUserRoles(a: G, b: G) { forall e :: SameNode(a, b, RoleKey(User, e)) }

  // ---- Rows of other entities ---------------------------------------------------------------------

  lemma OtherMerge(g: G, w: Write, x: string, e: string)
    requires WriteOf(w, x) && x != e && (w.MergeNode? || w.MergeEntity? || w.MergeRel? || w.DropAreas?)
    ensures SameFor(g, Exec(g, w), e)
  {
  }

  lemma OtherDelete(g: G, w: Write, x: string, e: string)
    requires WriteOf(w, x) && x != e && (w.DeleteOwned? || w.DropRole?)
    ensures SameFor(g, Exec(g, w), e)
  {
  }

  lemma OtherUpsert(g: G, w: Write, x: string, e: string)
    requires WriteOf(w, x) && x != e && w.UpsertRole?
    ensures SameFor(g, Exec(g, w), e)
  {
    UpsertIs(g, w.source, w.entity, w.role);
    hide Exec, Plus;
  }

  lemma OtherWrite(g: G, w: Write, x: string, e: string)
    requires WriteOf(w, x) && x != e
    ensures SameFor(g, Exec(g, w), e)
  {
    hide Exec, SameFor;
    if w.UpsertRole? {
      OtherUpsert(g, w, x, e);
    } else if w.DeleteOwned? || w.DropRole? {
      OtherDelete(g, w, x, e);
    } else {
      OtherMerge(g, w, x, e);
    }
  }

  lemma RoleNodesBeside(g: G, w: Write, x: string, k: NodeKey)
    requires WriteOf(w, x) && !w.UpsertRole? && !w.DropRole? && k.lbl == RoleAssignment
    ensures SameNode(g, Exec(g, w), k)
  {
    hide Plus, Measured;
  }

  lemma RolesAfterWrite(g: G, w: Write, x: string)
    requires WriteOf(w, x) && RolesOk(g)
    ensures RolesOk(Exec(g, w)) && SameUserRoles(g, Exec(g, w))
  {
    hide Exec, RolesOk;
    if w.UpsertRole? || w.DropRole? {
      RoleStepKeeps(g, w);
    } else {
      forall k: NodeKey | k.lbl == RoleAssignment ensures SameNode(g, Exec(g, w), k) { RoleNodesBeside(g, w, x, k); }
      RolesSame(g, Exec(g, w));
    }
  }

  lemma SameForThen(a: G, b: G, c: G, e: string)
    requires SameFor(a, b, e) && SameFor(b, c, e)
    ensures SameFor(a, c, e)
  {
  }

  lemma {:induction false} RowsBeside(g: G, ws: seq<Write>, x: string, e: string)
    requires (forall w :: w in ws ==> WriteOf(w, x)) && x != e
    ensures SameFor(g, ExecAll(g, ws), e)
    decreases |ws|
  {
    hide WriteOf, Exec, SameFor;
    if ws == [] {
      SameForSelf(g, e);
    } else {
      assert ws[0] in ws;
      OtherWrite(g, ws[0], x, e);
      RowsBeside(Exec(g, ws[0]), ws[1..], x, e);
      SameForThen(g, Exec(g, ws[0]), ExecAll(g, ws), e);
    }
  }

  lemma SameForSelf(g: G, e: string)
    ensures SameFor(g, g, e)
  {
  }

  lemma {:induction false} RolesAfterRows(g: G, ws: seq<Write>, x: string)
    requires (forall w :: w in ws ==> WriteOf(w, x)) && RolesOk(g)
    ensures RolesOk(ExecAll(g, ws)) && SameUserRoles(g, ExecAll(g, ws))
    decreases |ws|
  {
    hide WriteOf, Exec, RolesOk;
    if ws != [] {
      assert ws[0] in ws;
      RolesAfterWrite(g, ws[0], x);
      var g1 := Exec(g, ws[0]);
      RolesAfterRows(g1, ws[1..], x);
      forall e ensures SameNode(g, ExecAll(g, ws), RoleKey(User, e)) {
        assert SameNode(g, g1, RoleKey(User, e)) && SameNode(g1, ExecAll(g1, ws[1..]), RoleKey(User, e));
      }
    }
  }

  lemma StepShape(h: Hass, e: string, context: Option<Context>, written: bool)
    ensures forall w :: w in EntityStep(h, e, context, written) ==> WriteOf(w, e)
  {
    hide WriteOf;
    EntityWritesShape(h, e, context);
    assert EntityWrites(h, e, context)[|UpdateWrites(h, e, context)|] == RoleWrite(h, e);
  }

  /** One entity's queries, however many of them take effect, are beside every other entity. */
  lemma StepBeside(h: Hass, g: G, faults: seq<Fault>, x: string, context: Option<Context>, written: bool, e: string)
    requires x != e
    ensures SameFor(g, Play(g, faults, StepStmts(h, x, context, written)).g, e)
  {
    var ws := StepRows(h, g, faults, x, context, written);
    RowsBeside(g, ws, x, e);
  }

  lemma StepRoles(h: Hass, g: G, faults: seq<Fault>, x: string, context: Option<Context>, written: bool)
    requires RolesOk(g)
    ensures var after := Play(g, faults, StepStmts(h, x, context, written)).g; RolesOk(after) && SameUserRoles(g, after)
  {
    var ws := StepRows(h, g, faults, x, context, written);
    RolesAfterRows(g, ws, x);
  }

  lemma StepRows(h: Hass, g: G, faults: seq<Fault>, x: string, context: Option<Context>, written: bool)
    returns (ws: seq<Write>)
    ensures Play(g, faults, StepStmts(h, x, context, written)).g == ExecAll(g, ws)
    ensures forall w :: w in ws ==> WriteOf(w, x)
  {
    hide StepStmts, EntityStep, WriteOf;
    var stmts := StepStmts(h, x, context, written);
    var n := PlayIsPrefix(g, faults, stmts);
    ws := Concat(stmts[..n]);
    ConcatPrefix(stmts, n);
    StepConcat(h, x, context, written);
    StepShape(h, x, context, written);
    forall w | w in ws ensures w in EntityStep(h, x, context, written) { }
  }

  // ---- The loop -----------------------------------------------------------------------------------

  lemma {:induction false} LoopBeside(h: Hass, ids: seq<string>, cs: Contexts, updated: set<string>, s: Progress,
                                      e: string)
    requires (forall id :: id in ids ==> id in cs) && e !in ids
    ensures SameFor(s.g, PlayEach(h, ids, cs, updated, s).g, e)
    decreases |ids|
  {
    hide StepStmts, Play, SameFor;
    if ids == [] {
      SameForSelf(s.g, e);
    } else {
      var x := ids[0];
      var step := Play(s.g, s.faults, StepStmts(h, x, cs[x], x in updated));
      StepBeside(h, s.g, s.faults, x, cs[x], x in updated, e);
      LoopBeside(h, ids[1..], cs, updated, Progress(step.g, step.faults, s.results[x := step.ok]), e);
      SameForThen(s.g, step.g, PlayEach(h, ids, cs, updated, s).g, e);
    }
  }

  lemma {:induction false} LoopRoles(h: Hass, ids: seq<string>, cs: Contexts, updated: set<string>, s: Progress)
    requires (forall id :: id in ids ==> id in cs) && RolesOk(s.g)
    ensures var end := PlayEach(h, ids, cs, updated, s).g; RolesOk(end) && SameUserRoles(s.g, end)
    decreases |ids|
  {
    hide StepStmts, Play, RolesOk;
    if ids != [] {
      var x := ids[0];
      var step := Play(s.g, s.faults, StepStmts(h, x, cs[x], x in updated));
      StepRoles(h, s.g, s.faults, x, cs[x], x in updated);
      LoopRoles(h, ids[1..], cs, updated, Progress(step.g, step.faults, s.results[x := step.ok]));
      var end := PlayEach(h, ids, cs, updated, s).g;
      forall e ensures SameNode(s.g, end, RoleKey(User, e)) {
        assert SameNode(s.g, step.g, RoleKey(User, e)) && SameNode(step.g, end, RoleKey(User, e));
      }
    }
  }

  // ---- An entity's own step -----------------------------------------------------------------------

  /** The inferred role is right, and one that was stored is bound. */
  ghost predicate RoleRight(h: Hass, before: G, after: G, e: string) {
    InferredRight(h, before, after, e) &&
    (InferEnergyRole(h.signals(e)).Some? && EntityKey(e) in after.nodes ==> RoleEdge(e) in after.rels)
  }

  /** The node is as an entity write leaves it: untouched for an own entity, gone with a removed one. */
  ghost predicate NodeRight(h: Hass, context: Option<Context>, before: G, after: G, e: string) {
    var k := EntityKey(e);
    var own := e in h.entries.items && h.entries.items[e].platform == "ontology";
    var gone := e !in h.entries.items && e !in h.states.items;
    (own ==> SameNode(before, after, k)) && (gone ==> k !in after.nodes || !Owned(after.nodes[k])) &&
    (!own && !gone ==> k in after.nodes && EntityStored(h, e, context, NodeOr(before, k), after.nodes[k]))
  }

  lemma RoleWriteLeaves(h: Hass, g: G, e: string)
    requires RolesOk(g)
    ensures var after := Exec(g, RoleWrite(h, e)); RoleRight(h, g, after, e) && SameNode(g, after, EntityKey(e))
  {
    hide InferEnergyRole, InferredRight;
    RoleWriteIs(h, g, e);
    var role := InferEnergyRole(h.signals(e));
    if role.Some? { UpsertIs(g, Inferred, e, role.value); }
  }

  lemma UpdateBesideRoles(h: Hass, g: G, e: string, context: Option<Context>)
    ensures var after := ExecAll(g, UpdateWrites(h, e, context)); SameNode(g, after, RoleKey(Inferred, e))
  {
    hide UpdateWrites, RelationshipWrites;
    UpdateShape(h, e, context);
    NodeBeside(g, UpdateWrites(h, e, context), RoleKey(Inferred, e));
  }

  predicate NoRoleWrite(w: Write) {
    (w.MergeNode? && w.node.lbl != RoleAssignment) || w.MergeRel? || w.DropAreas? || w.MergeEntity? ||
    (w.DeleteOwned? && w.node.lbl == Entity)
  }

  lemma UpdateShape(h: Hass, e: string, context: Option<Context>)
    ensures forall w :: w in UpdateWrites(h, e, context) ==> NoRoleWrite(w)
  {
    hide RelationshipWrites, BaseProps, MeasurementProps;
    RelationshipWritesShape(h, e);
  }

  lemma {:induction false} NodeBeside(g: G, ws: seq<Write>, k: NodeKey)
    requires (forall w :: w in ws ==> NoRoleWrite(w)) && k.lbl == RoleAssignment
    ensures SameNode(g, ExecAll(g, ws), k)
    decreases |ws|
  {
    if ws != [] {
      assert NoRoleWrite(ws[0]);
      NodeBeside(Exec(g, ws[0]), ws[1..], k);
    }
  }

  lemma RoleRightFrom(h: Hass, g: G, mid: G, after: G, e: string)
    requires SameNode(g, mid, RoleKey(Inferred, e)) && RoleRight(h, mid, after, e)
    ensures RoleRight(h, g, after, e)
  {
    hide InferEnergyRole;
    assert RoleAt(g, Inferred, e) == RoleAt(mid, Inferred, e);
  }

  lemma NodeRightThen(h: Hass, context: Option<Context>, g: G, mid: G, after: G, e: string)
    requires NodeRight(h, context, g, mid, e) && SameNode(mid, after, EntityKey(e))
    ensures NodeRight(h, context, g, after, e)
  {
    hide EntityStored, Owned;
  }

  /** An entity's step that raises nowhere. */
  lemma OwnStep(h: Hass, g: G, e: string, context: Option<Context>, written: bool)
    requires RolesOk(g)
    ensures var after := ExecAll(g, EntityStep(h, e, context, written));
            RoleRight(h, g, after, e) &&
            if written then SameNode(g, after, EntityKey(e)) else NodeRight(h, context, g, after, e)
  {
    hide UpdateWrites, RoleWrite, RolesOk, RoleRight, NodeRight, Exec;
    var ws := if written then [] else UpdateWrites(h, e, context);
    var mid := ExecAll(g, ws);
    assert EntityStep(h, e, context, written) == ws + [RoleWrite(h, e)];
    ExecAllAppend(g, ws, [RoleWrite(h, e)]);
    ExecPair(mid, RoleWrite(h, e), RoleWrite(h, e));
    var after := Exec(mid, RoleWrite(h, e));
    StepShape(h, e, context, false);
    if !written {
      UpdateBesideRoles(h, g, e, context);
      UpdateRight(h, g, e, context);
      forall w | w in ws ensures WriteOf(w, e) { assert w in EntityWrites(h, e, context); }
    }
    RolesAfterRows(g, ws, e);
    RoleWriteLeaves(h, mid, e);
    RoleRightFrom(h, g, mid, after, e);
    if !written { NodeRightThen(h, context, g, mid, after, e); }
  }

  lemma UpdateRight(h: Hass, g: G, e: string, context: Option<Context>)
    ensures NodeRight(h, context, g, ExecAll(g, UpdateWrites(h, e, context)), e)
  {
    UpdateStores(h, g, e, context);
    hide UpdateWrites, EntityStored, Owned;
  }

  // ---- The bulk write -----------------------------------------------------------------------------

  lemma StoredTwice(h: Hass, e: string, context: Option<Context>, a: Props, b: Props, c: Props)
    requires EntityStored(h, e, context, a, b) && EntityStored(h, e, context, b, c)
    ensures EntityStored(h, e, context, a, c)
  {
    hide MeasurementRight, NamedRight, StateStored;
  }

  lemma PatchAt(g: G, es: set<string>, rows: Rows, k: NodeKey)
    requires forall e :: e in es ==> e in rows
    ensures var after := Overlay(g, Patch(g, es, rows));
            after.rels == g.rels && (k in after.nodes <==> k in g.nodes) &&
            (k in g.nodes ==>
               after.nodes[k] == if InPatch(g, k, es) then PatchedProps(rows[k.id.text], g.nodes[k]) else g.nodes[k])
  {
    hide PatchedProps;
  }

  lemma NotPatched(g: G, es: set<string>, k: NodeKey)
    requires forall e :: e in es ==> k != EntityKey(e)
    ensures !InPatch(g, k, es)
  {
  }

  lemma PatchBeside(g: G, es: set<string>, rows: Rows, k: NodeKey)
    requires (forall e :: e in es ==> e in rows) && forall e :: e in es ==> k != EntityKey(e)
    ensures SameNode(g, Overlay(g, Patch(g, es, rows)), k)
  {
    hide Overlay, Patch, PatchedProps;
    PatchAt(g, es, rows, k);
    NotPatched(g, es, k);
  }

  /** A bulk-written entity's node is as an entity write leaves it. */
  lemma PatchStores(h: Hass, cs: Contexts, g: G, es: set<string>, e: string)
    requires (forall x :: x in es ==> x in cs) && e in es && Candidate(h, e) && EntityKey(e) in g.nodes
    ensures (forall x :: x in es ==> x in RowsOf(h, cs)) &&
            NodeRight(h, cs[e], g, Overlay(g, Patch(g, es, RowsOf(h, cs))), e)
  {
    var k, rows := EntityKey(e), RowsOf(h, cs);
    hide Overlay, Patch, EntityStored, BaseProps, MeasurementProps, Measured;
    PatchAt(g, es, rows, k);
    WriteStores(h, e, cs[e], g.nodes[k]);
  }

  /** What was written in bulk is as an entity write leaves it; the rest, and all roles, are as before. */
  lemma BulkStores(h: Hass, ids: seq<string>, cs: Contexts, g: G, faults: seq<Fault>, e: string)
    requires BatchOk(ids, cs) && e in ids
    ensures var bulk := BulkRun(h, ids, cs, g, faults);
            SameNode(g, bulk.g, RoleKey(Inferred, e)) &&
            (e in Reported(h, ids, g, bulk.ok) ==> Candidate(h, e) && NodeRight(h, cs[e], g, bulk.g, e)) &&
            (SameNode(g, bulk.g, EntityKey(e)) || (Candidate(h, e) && NodeRight(h, cs[e], g, bulk.g, e)))
  {
    var bulk := BulkRun(h, ids, cs, g, faults);
    var written := BulkWrites(h, ids, cs, g, faults);
    var rows := RowsOf(h, cs);
    hide BulkRun, Reported, Overlay, Patch, NodeRight, Candidate, RowOf;
    PatchBeside(g, written, rows, RoleKey(Inferred, e));
    if e in written {
      PatchAt(g, written, rows, EntityKey(e));
      if EntityKey(e) in g.nodes { PatchStores(h, cs, g, written, e); }
    } else {
      PatchBeside(g, written, rows, EntityKey(e));
    }
  }

  lemma BulkLeavesOther(h: Hass, ids: seq<string>, cs: Contexts, g: G, faults: seq<Fault>, e: string)
    requires BatchOk(ids, cs) && e !in ids
    ensures SameFor(g, BulkRun(h, ids, cs, g, faults).g, e)
  {
    var written := BulkWrites(h, ids, cs, g, faults);
    hide BulkRun, Overlay, Patch, Candidate, RowOf, Reported;
    PatchBeside(g, written, RowsOf(h, cs), EntityKey(e));
    PatchBeside(g, written, RowsOf(h, cs), RoleKey(Inferred, e));
    PatchAt(g, written, RowsOf(h, cs), EntityKey(e));
  }

  lemma BulkLeavesRoles(h: Hass, ids: seq<string>, cs: Contexts, g: G, faults: seq<Fault>)
    requires BatchOk(ids, cs) && RolesOk(g)
    ensures var bulk := BulkRun(h, ids, cs, g, faults); RolesOk(bulk.g) && SameUserRoles(g, bulk.g)
  {
    var written := BulkWrites(h, ids, cs, g, faults);
    hide BulkRun, Overlay, Patch, Candidate, RowOf, Reported, RoleNodeOk;
    var after := BulkRun(h, ids, cs, g, faults).g;
    forall k: NodeKey | k.lbl == RoleAssignment ensures SameNode(g, after, k) {
      PatchBeside(g, written, RowsOf(h, cs), k);
    }
    RolesSame(g, after);
  }

  lemma RolesSame(g: G, after: G)
    requires RolesOk(g) && forall k: NodeKey :: k.lbl == RoleAssignment ==> SameNode(g, after, k)
    ensures RolesOk(after) && SameUserRoles(g, after)
  {
    hide RoleNodeOk;
    forall k | k in after.nodes && k.lbl == RoleAssignment ensures RoleNodeOk(k, after.nodes[k]) {
      assert SameNode(g, after, k);
    }
  }

  lemma NodeRightAgain(h: Hass, context: Option<Context>, g: G, mid: G, after: G, e: string)
    requires SameNode(g, mid, EntityKey(e)) || (Candidate(h, e) && NodeRight(h, context, g, mid, e))
    requires NodeRight(h, context, mid, after, e)
    ensures NodeRight(h, context, g, after, e)
  {
    hide EntityStored, Owned;
    var k := EntityKey(e);
    if !SameNode(g, mid, k) { StoredTwice(h, e, context, NodeOr(g, k), mid.nodes[k], after.nodes[k]); }
  }

  // ---- The whole batch ----------------------------------------------------------------------------

  lemma RoleRightThen(h: Hass, g: G, mid: G, after: G, e: string)
    requires RoleRight(h, g, mid, e) && SameFor(mid, after, e)
    ensures RoleRight(h, g, after, e)
  {
    hide InferEnergyRole;
    assert RoleAt(mid, Inferred, e) == RoleAt(after, Inferred, e);
  }

  /** Once an entity's own queries have run on what the bulk write and the entities before it left. */
  lemma StepRight(h: Hass, ids: seq<string>, cs: Contexts, g: G, faults: seq<Fault>, before: G, e: string)
    requires BatchOk(ids, cs) && e in ids && RolesOk(before)
    requires SameFor(BulkRun(h, ids, cs, g, faults).g, before, e)
    ensures var written := e in Reported(h, ids, g, BulkRun(h, ids, cs, g, faults).ok);
            var after := ExecAll(before, EntityStep(h, e, cs[e], written));
            RoleRight(h, g, after, e) && NodeRight(h, cs[e], g, after, e)
  {
    var bulk := BulkRun(h, ids, cs, g, faults);
    var written := e in Reported(h, ids, g, bulk.ok);
    var after := ExecAll(before, EntityStep(h, e, cs[e], written));
    BulkStores(h, ids, cs, g, faults, e);
    OwnStep(h, before, e, cs[e], written);
    hide BulkRun, Reported, RoleRight, NodeRight, EntityStep, RolesOk, Candidate;
    RoleRightFrom(h, g, before, after, e);
    if Candidate(h, e) && NodeRight(h, cs[e], g, bulk.g, e) { NodeRightThen(h, cs[e], g, bulk.g, before, e); }
    if written {
      NodeRightThen(h, cs[e], g, before, after, e);
    } else {
      NodeRightAgain(h, cs[e], g, before, after, e);
    }
  }

  /** What the loop over the entities leaves. */
  function AfterLoop(h: Hass, ids: seq<string>, cs: Contexts, g: G, faults: seq<Fault>): Progress
    requires BatchOk(ids, cs)
  {
    var bulk := BulkRun(h, ids, cs, g, faults);
    PlayEach(h, ids, cs, Reported(h, ids, g, bulk.ok), Progress(bulk.g, bulk.faults, map[]))
  }

  lemma OnlyHere(ids: seq<string>, i: nat)
    requires Distinct(ids) && i < |ids|
    ensures ids[i] !in ids[..i] && ids[i] !in ids[i + 1..]
  {
  }

  /** What the loop has left once it is past the first `n` entities. */
  function UpTo(h: Hass, ids: seq<string>, cs: Contexts, g: G, faults: seq<Fault>, n: nat): Progress
    requires BatchOk(ids, cs) && n <= |ids|
  {
    var bulk := BulkRun(h, ids, cs, g, faults);
    PlayEach(h, ids[..n], cs, Reported(h, ids, g, bulk.ok), Progress(bulk.g, bulk.faults, map[]))
  }

  lemma BeforeOwn(h: Hass, ids: seq<string>, cs: Contexts, g: G, faults: seq<Fault>, i: nat)
    requires BatchOk(ids, cs) && RolesOk(g) && i < |ids|
    ensures var before := UpTo(h, ids, cs, g, faults, i).g;
            RolesOk(before) && SameFor(BulkRun(h, ids, cs, g, faults).g, before, ids[i])
  {
    var bulk := BulkRun(h, ids, cs, g, faults);
    var start, updated := Progress(bulk.g, bulk.faults, map[]), Reported(h, ids, g, bulk.ok);
    hide BulkRun, Reported, PlayEach, RolesOk, SameFor, SameUserRoles;
    BulkLeavesRoles(h, ids, cs, g, faults);
    OnlyHere(ids, i);
    LoopBeside(h, ids[..i], cs, updated, start, ids[i]);
    LoopRoles(h, ids[..i], cs, updated, start);
  }

  lemma AfterOwn(h: Hass, ids: seq<string>, cs: Contexts, g: G, faults: seq<Fault>, i: nat)
    requires BatchOk(ids, cs) && i < |ids|
    ensures SameFor(UpTo(h, ids, cs, g, faults, i + 1).g, AfterLoop(h, ids, cs, g, faults).g, ids[i])
  {
    var bulk := BulkRun(h, ids, cs, g, faults);
    var start, updated := Progress(bulk.g, bulk.faults, map[]), Reported(h, ids, g, bulk.ok);
    hide BulkRun, Reported, PlayEach, SameFor;
    var front, rest := ids[..i + 1], ids[i + 1..];
    assert ids == front + rest;
    PlayEachSplit(h, front, rest, cs, updated, start);
    OnlyHere(ids, i);
    LoopBeside(h, rest, cs, updated, PlayEach(h, front, cs, updated, start), ids[i]);
  }

  lemma OwnIs(h: Hass, ids: seq<string>, cs: Contexts, g: G, faults: seq<Fault>, i: nat)
    requires BatchOk(ids, cs) && i < |ids|
    ensures var e, end := ids[i], AfterLoop(h, ids, cs, g, faults);
            e in end.results &&
            (end.results[e] ==>
               UpTo(h, ids, cs, g, faults, i + 1).g ==
               ExecAll(UpTo(h, ids, cs, g, faults, i).g,
                       EntityStep(h, e, cs[e], e in Reported(h, ids, g, BulkRun(h, ids, cs, g, faults).ok))))
  {
    var bulk := BulkRun(h, ids, cs, g, faults);
    hide BulkRun, Reported, PlayEach, StepStmts, EntityStep, Play;
    EachIsItsOwn(h, ids, cs, Reported(h, ids, g, bulk.ok), Progress(bulk.g, bulk.faults, map[]), i);
  }

  lemma LoopRight(h: Hass, ids: seq<string>, cs: Contexts, g: G, faults: seq<Fault>, i: nat)
    requires BatchOk(ids, cs) && RolesOk(g) && i < |ids|
    ensures var e, end := ids[i], AfterLoop(h, ids, cs, g, faults);
            e in end.results &&
            (end.results[e] ==> RoleRight(h, g, end.g, e) && NodeRight(h, cs[e], g, end.g, e))
  {
    hide BulkRun, Reported, AfterLoop, EntityStep, RolesOk, SameFor, RoleRight, NodeRight, UpTo;
    var e, end := ids[i], AfterLoop(h, ids, cs, g, faults);
    var before, after := UpTo(h, ids, cs, g, faults, i).g, UpTo(h, ids, cs, g, faults, i + 1).g;
    BeforeOwn(h, ids, cs, g, faults, i);
    OwnIs(h, ids, cs, g, faults, i);
    AfterOwn(h, ids, cs, g, faults, i);
    StepRight(h, ids, cs, g, faults, before, e);
    if end.results[e] {
      RoleRightThen(h, g, after, end.g, e);
      SameForNode(after, end.g, e);
      NodeRightThen(h, cs[e], g, after, end.g, e);
    }
  }

  lemma SameForNode(a: G, b: G, e: string)
    requires SameFor(a, b, e)
    ensures SameNode(a, b, EntityKey(e))
  {
  }

  lemma LoopKeepsRoles(h: Hass, ids: seq<string>, cs: Contexts, g: G, faults: seq<Fault>)
    requires BatchOk(ids, cs) && RolesOk(g)
    ensures var end := AfterLoop(h, ids, cs, g, faults).g; RolesOk(end) && SameUserRoles(g, end)
    ensures forall e :: e !in ids ==> SameFor(g, AfterLoop(h, ids, cs, g, faults).g, e)
  {
    var bulk := BulkRun(h, ids, cs, g, faults);
    var updated := Reported(h, ids, g, bulk.ok);
    var start := Progress(bulk.g, bulk.faults, map[]);
    hide BulkRun, Reported, PlayEach, RolesOk, SameFor;
    BulkLeavesRoles(h, ids, cs, g, faults);
    LoopRoles(h, ids, cs, updated, start);
    var end := PlayEach(h, ids, cs, updated, start).g;
    forall e ensures SameNode(g, end, RoleKey(User, e)) {
      assert SameNode(g, bulk.g, RoleKey(User, e)) && SameNode(bulk.g, end, RoleKey(User, e));
    }
    forall e | e !in ids ensures SameFor(g, end, e) {
      BulkLeavesOther(h, ids, cs, g, faults, e);
      LoopBeside(h, ids, cs, updated, start, e);
      SameForThen(g, bulk.g, end, e);
    }
  }

  /** The shared queries change nothing but bindings, and repair those when they all answer. */
  lemma SharedIs(g: G, faults: seq<Fault>, role: bool, gone: bool)
    ensures var shared := Play(g, faults, SharedStmts(role, gone));
            (shared.g == g || shared.g == Exec(g, RepairBindings)) &&
            (shared.ok && (role || gone) ==> shared.g == Exec(g, RepairBindings))
  {
    hide Exec, PlayOne;
    var stmts := SharedStmts(role, gone);
    var n := PlayIsPrefix(g, faults, stmts);
    ConcatPrefix(stmts, n);
    SharedConcat(role, gone);
    hide Play, SharedStmts;
    ExecPair(g, RepairBindings, RepairBindings);
    var done := Concat(stmts[..n]);
    assert done == [] || done == [RepairBindings];
  }

  lemma RepairedRight(h: Hass, context: Option<Context>, g: G, mid: G, e: string)
    requires RolesOk(mid) && RoleRight(h, g, mid, e) && NodeRight(h, context, g, mid, e)
    ensures var after := Exec(mid, RepairBindings); RoleRight(h, g, after, e) && NodeRight(h, context, g, after, e)
  {
    var after := Exec(mid, RepairBindings);
    RepairKeepsNodes(mid);
    RepairBinds(mid);
    hide Exec, InferEnergyRole, EntityStored, Owned, RolesOk;
    if InferEnergyRole(h.signals(e)).Some? && EntityKey(e) in after.nodes {
      assert RoleAt(after, Inferred, e).Some?;
      assert BoundTo(after, RoleEdge(e));
    }
  }

  lemma RolesRepaired(g: G, mid: G)
    requires RolesOk(mid) && SameUserRoles(g, mid)
    ensures var after := Exec(mid, RepairBindings); RolesOk(after) && SameUserRoles(g, after) && BindingsExact(after)
  {
    RepairKeepsNodes(mid);
    RepairBinds(mid);
    RepairKeeps(mid);
    hide Exec, RoleNodeOk, BindingsExact;
    var after := Exec(mid, RepairBindings);
    forall e ensures SameNode(g, after, RoleKey(User, e)) { assert SameNode(g, mid, RoleKey(User, e)); }
  }

  /** What a batch leaves: what the loop left, its bindings repaired or not; repaired when some entity it reports
      as synced has a role or is gone. */
  lemma BatchEnds(h: Hass, ids: seq<string>, cs: Contexts, g: G, faults: seq<Fault>)
    requires BatchOk(ids, cs)
    ensures var each, end := AfterLoop(h, ids, cs, g, faults), PlayBatch(h, ids, cs, g, faults);
            (end.g == each.g || end.g == Exec(each.g, RepairBindings)) &&
            forall e :: e in ids && e in end.results && end.results[e] ==>
              e in each.results && each.results[e] &&
              (InferEnergyRole(h.signals(e)).Some? || Gone(h, e) ==> end.g == Exec(each.g, RepairBindings))
  {
    hide BulkRun, Reported, PlayEach, SharedStmts, Play, Exec, InferEnergyRole, Gone;
    var each := AfterLoop(h, ids, cs, g, faults);
    var role, gone := AnyRole(h, ids, each.results), AnyGone(h, ids, each.results);
    SharedIs(each.g, each.faults, role, gone);
  }

  /** An entity that a batch reports as synced has the properties of its entry and its state, the inferred role its
      signals call for and that role's binding, whatever raised in the bulk write or for the other entities;
      and bindings are exact everywhere if it has a role or is gone. */
  lemma BatchIsRight(h: Hass, ids: seq<string>, cs: Contexts, g: G, faults: seq<Fault>, e: string)
    requires BatchOk(ids, cs) && RolesOk(g) && e in ids
    ensures var end := PlayBatch(h, ids, cs, g, faults);
            e in end.results &&
            (end.results[e] ==>
               RoleRight(h, g, end.g, e) && NodeRight(h, cs[e], g, end.g, e) &&
               (InferEnergyRole(h.signals(e)).Some? || (e !in h.entries.items && e !in h.states.items) ==>
                  BindingsExact(end.g)))
  {
    var i :| 0 <= i < |ids| && ids[i] == e;
    var each, end := AfterLoop(h, ids, cs, g, faults), PlayBatch(h, ids, cs, g, faults);
    BatchEnds(h, ids, cs, g, faults);
    ResultsAreExact(h, ids, cs, g, faults, e);
    LoopRight(h, ids, cs, g, faults, i);
    LoopKeepsRoles(h, ids, cs, g, faults);
    hide PlayBatch, AfterLoop, RoleRight, NodeRight, Exec, RolesOk, BindingsExact, InferEnergyRole, SameUserRoles;
    if end.results[e] {
      RepairedRight(h, cs[e], g, each.g, e);
      RolesRepaired(g, each.g);
    }
  }

  /** A batch leaves every entity outside it, its inferred role, and everything the user stated, as they were. */
  lemma OthersInBatch(h: Hass, ids: seq<string>, cs: Contexts, g: G, faults: seq<Fault>)
    requires BatchOk(ids, cs) && RolesOk(g)
    ensures var end := PlayBatch(h, ids, cs, g, faults).g;
            RolesOk(end) && (forall e :: SameNode(g, end, RoleKey(User, e))) &&
            forall e :: e !in ids ==> SameNode(g, end, EntityKey(e)) && SameNode(g, end, RoleKey(Inferred, e))
  {
    var each, end := AfterLoop(h, ids, cs, g, faults).g, PlayBatch(h, ids, cs, g, faults).g;
    BatchEnds(h, ids, cs, g, faults);
    LoopKeepsRoles(h, ids, cs, g, faults);
    RolesRepaired(g, each);
    RepairKeepsNodes(each);
    hide PlayBatch, AfterLoop, Exec, RolesOk;
    forall e | e !in ids ensures SameNode(g, end, EntityKey(e)) && SameNode(g, end, RoleKey(Inferred, e)) {
      assert SameFor(g, each, e);
    }
  }
}
