/** ON-036: the bulk state-only write of a batch against the per-entity write of every entity. */
module FastPath {
  import opened Graph
  import opened Sequences
  import opened Registry
  import opened Semantics
  import opened Agreement

  // A batch is a dictionary: distinct entity ids, each with its optional context.
  type Contexts = map<string, Option<Context>>

  ghost predicate BatchOk(ids: seq<string>, cs: Contexts) { Distinct(ids) && forall id :: id in ids ==> id in cs }

  function Ids(ids: seq<string>): set<string> { set e | e in ids }

  // The two property maps of one bulk row.
  datatype Row = Row(props: Props, measurement: Props)
  type Rows = map<string, Row>

  function RowOf(h: Hass, e: string, context: Option<Context>): Row {
    Row(BaseProps(h, e, context), MeasurementProps(h, e, context))
  }

  function RowsOf(h: Hass, cs: Contexts): Rows { map e | e in cs :: RowOf(h, e, cs[e]) }

  function MatchWrite(e: string, row: Row): Write { MatchEntity(e, row.props, row.measurement) }

  function MatchWrites(ids: seq<string>, rows: Rows): seq<Write>
    requires forall id :: id in ids ==> id in rows
  {
    seq(|ids|, i requires 0 <= i < |ids| => MatchWrite(ids[i], rows[ids[i]]))
  }

  // The slow path: update and reconcile each entity in turn.
  function EntityWrites(h: Hass, e: string, context: Option<Context>): seq<Write> {
    UpdateWrites(h, e, context) + [RoleWrite(h, e)]
  }

  function SlowWrites(h: Hass, ids: seq<string>, cs: Contexts): seq<Write>
    requires forall id :: id in ids ==> id in cs
  {
    if ids == [] then [] else EntityWrites(h, ids[0], cs[ids[0]]) + SlowWrites(h, ids[1..], cs)
  }

  function EntityStep(h: Hass, e: string, context: Option<Context>, done: bool): seq<Write> {
    if done then [RoleWrite(h, e)] else EntityWrites(h, e, context)
  }

  // What is left to do per entity once those in `done` were written in bulk.
  function FastWrites(h: Hass, ids: seq<string>, cs: Contexts, done: set<string>): seq<Write>
    requires forall id :: id in ids ==> id in cs
  {
    if ids == [] then []
    else EntityStep(h, ids[0], cs[ids[0]], ids[0] in done) + FastWrites(h, ids[1..], cs, done)
  }

  // ---- New properties for some existing nodes, laid over a graph --------------------

  function Overlay(g: G, m: map<NodeKey, Props>): G { g.(nodes := g.nodes + m) }

  predicate Avoids(w: Write, ks: set<NodeKey>) {
    match w
    case MergeNode(k, _) => k !in ks
    case MergeRel(_, _) => true
    case MergeEntity(e, _, _) => EntityKey(e) !in ks
    case DropAreas(_) => true
    case DeleteOwned(k) => k !in ks
    case UpsertRole(s, e, _) => RoleKey(s, e) !in ks
    case DropRole(s, e) => RoleKey(s, e) !in ks
    case _ => false
  }

  lemma DetachCommutes(g: G, m: map<NodeKey, Props>, k: NodeKey)
    requires m.Keys <= g.nodes.Keys && k !in m
    ensures DetachDelete(Overlay(g, m), {k}) == Overlay(DetachDelete(g, {k}), m)
  {
    assert (g.nodes + m) - {k} == (g.nodes - {k}) + m;
  }

  lemma SetCommutes(g: G, m: map<NodeKey, Props>, k: NodeKey, p: Props)
    requires m.Keys <= g.nodes.Keys && k !in m
    ensures SetNode(Overlay(g, m), k, p) == Overlay(SetNode(g, k, p), m)
    ensures NodeOr(Overlay(g, m), k) == NodeOr(g, k)
  {
    assert g.nodes[k := p] + m == (g.nodes + m)[k := p];
  }

  lemma MergesCommute(g: G, m: map<NodeKey, Props>, w: Write)
    requires m.Keys <= g.nodes.Keys && Avoids(w, m.Keys) && (w.MergeNode? || w.MergeEntity? || w.UpsertRole?)
    ensures Exec(Overlay(g, m), w) == Overlay(Exec(g, w), m)
    ensures m.Keys <= Exec(g, w).nodes.Keys && forall k :: k in m ==> Exec(g, w).nodes[k] == g.nodes[k]
  {
    match w
    case MergeNode(k, props) => SetCommutes(g, m, k, Plus(NodeOr(g, k), props));
    case MergeEntity(e, p, q) => SetCommutes(g, m, EntityKey(e), Measured(NodeOr(g, EntityKey(e)), p, q));
    case UpsertRole(s, e, role) =>
      SetCommutes(g, m, RoleKey(s, e), Plus(NodeOr(g, RoleKey(s, e)), RoleProps(s, e, role)));
  }

  lemma RelsCommute(g: G, m: map<NodeKey, Props>, w: Write)
    requires m.Keys <= g.nodes.Keys && (w.MergeRel? || w.DropAreas?)
    ensures Exec(Overlay(g, m), w) == Overlay(Exec(g, w), m) && Exec(g, w).nodes == g.nodes
  {
  }

  lemma DeletesCommute(g: G, m: map<NodeKey, Props>, w: Write)
    requires m.Keys <= g.nodes.Keys && Avoids(w, m.Keys) && (w.DeleteOwned? || w.DropRole?)
    ensures Exec(Overlay(g, m), w) == Overlay(Exec(g, w), m)
    ensures m.Keys <= Exec(g, w).nodes.Keys && forall k :: k in m ==> Exec(g, w).nodes[k] == g.nodes[k]
  {
    DetachCommutes(g, m, if w.DeleteOwned? then w.node else RoleKey(w.source, w.entity));
  }

  lemma OverlayCommutes(g: G, m: map<NodeKey, Props>, w: Write)
    requires m.Keys <= g.nodes.Keys && Avoids(w, m.Keys)
    ensures Exec(Overlay(g, m), w) == Overlay(Exec(g, w), m)
    ensures m.Keys <= Exec(g, w).nodes.Keys
    ensures forall k :: k in m ==> Exec(g, w).nodes[k] == g.nodes[k]
  {
    if w.MergeRel? || w.DropAreas? {
      RelsCommute(g, m, w);
    } else if w.DeleteOwned? || w.DropRole? {
      DeletesCommute(g, m, w);
    } else {
      MergesCommute(g, m, w);
    }
  }

  lemma {:induction false} OverlayCommutesAll(g: G, m: map<NodeKey, Props>, ws: seq<Write>)
    requires m.Keys <= g.nodes.Keys && forall w :: w in ws ==> Avoids(w, m.Keys)
    ensures ExecAll(Overlay(g, m), ws) == Overlay(ExecAll(g, ws), m)
    ensures m.Keys <= ExecAll(g, ws).nodes.Keys
    ensures forall k :: k in m ==> ExecAll(g, ws).nodes[k] == g.nodes[k]
    decreases |ws|
  {
    if ws != [] {
      assert Avoids(ws[0], m.Keys);
      OverlayCommutes(g, m, ws[0]);
      OverlayCommutesAll(Exec(g, ws[0]), m, ws[1..]);
    }
  }

  predicate InPatch(g: G, k: NodeKey, es: set<string>) {
    k in g.nodes && k.lbl == Entity && k.id.Plain? && k.id.text in es
  }

  function PatchedProps(row: Row, before: Props): Props { Measured(before, row.props, row.measurement) }

  /** The node properties a bulk write of `es` gives the entities that have a node. */
  function Patch(g: G, es: set<string>, rows: Rows): map<NodeKey, Props>
    requires forall e :: e in es ==> e in rows
  {
    map k | k in g.nodes && InPatch(g, k, es) :: PatchedProps(rows[k.id.text], g.nodes[k])
  }

  lemma PatchAdd(g: G, e: string, es: set<string>, rows: Rows)
    requires e !in es && e in rows && forall x :: x in es ==> x in rows
    ensures var k := EntityKey(e);
            Patch(g, es + {e}, rows) ==
            if k in g.nodes then Patch(g, es, rows)[k := PatchedProps(rows[e], g.nodes[k])] else Patch(g, es, rows)
  {
    forall x ensures InPatch(g, x, es + {e}) <==> InPatch(g, x, es) || (x == EntityKey(e) && x in g.nodes) { }
  }

  lemma PatchElsewhere(g: G, k: NodeKey, p: Props, es: set<string>, rows: Rows)
    requires (forall x :: x in es ==> x in rows) && k in g.nodes && !InPatch(g, k, es)
    ensures Patch(SetNode(g, k, p), es, rows) == Patch(g, es, rows)
  {
  }

  lemma NotInPatch(g: G, e: string, es: set<string>, rows: Rows)
    requires e !in es && forall x :: x in es ==> x in rows
    ensures !InPatch(g, EntityKey(e), es) && EntityKey(e) !in Patch(g, es, rows)
  {
  }

  /** The overlay for a set of entities, peeling one of them off. */
  lemma PatchSplit(g: G, e: string, es: set<string>, rows: Rows)
    requires e !in es && e in rows && forall x :: x in es ==> x in rows
    ensures var g1 := Exec(g, MatchWrite(e, rows[e]));
            Patch(g1, es, rows) == Patch(g, es, rows) &&
            Overlay(g1, Patch(g1, es, rows)) == Overlay(g, Patch(g, es + {e}, rows))
  {
    hide Patch, Measured, InPatch;
    var k := EntityKey(e);
    var small := Patch(g, es, rows);
    PatchAdd(g, e, es, rows);
    NotInPatch(g, e, es, rows);
    if k in g.nodes {
      var p := PatchedProps(rows[e], g.nodes[k]);
      PatchElsewhere(g, k, p, es, rows);
      assert g.nodes[k := p] + small == g.nodes + small[k := p];
    }
  }

  lemma {:induction false} BulkIsOverlay(g: G, ids: seq<string>, rows: Rows)
    requires Distinct(ids) && forall id :: id in ids ==> id in rows
    ensures ExecAll(g, MatchWrites(ids, rows)) == Overlay(g, Patch(g, Ids(ids), rows))
    decreases |ids|
  {
    if ids == [] {
      assert Patch(g, Ids(ids), rows) == map[];
    } else {
      var e, rest := ids[0], ids[1..];
      assert MatchWrites(ids, rows)[1..] == MatchWrites(rest, rows);
      BulkIsOverlay(Exec(g, MatchWrite(e, rows[e])), rest, rows);
      PatchSplit(g, e, Ids(rest), rows);
      assert Ids(ids) == Ids(rest) + {e};
    }
  }

  // ---- Agreement survives the writes of other entities --------------------------------

  predicate WriteOf(w: Write, e: string) {
    RegistryWrite(w, e) || (w.MergeEntity? && w.entity == e) || (w.DeleteOwned? && w.node == EntityKey(e)) ||
    (w.UpsertRole? && w.entity == e && w.source == Inferred) || (w.DropRole? && w.entity == e && w.source == Inferred)
  }

  lemma EntityWritesShape(h: Hass, e: string, context: Option<Context>)
    ensures forall w :: w in EntityWrites(h, e, context) ==> WriteOf(w, e)
  {
    RelationshipWritesShape(h, e);
  }

  lemma AvoidsOthers(w: Write, e: string, ks: set<NodeKey>)
    requires WriteOf(w, e) && EntityKey(e) !in ks && forall k :: k in ks ==> k.lbl == Entity
    ensures Avoids(w, ks)
  {
  }

  /** Relationships and nodes outside `e` and its role assignment that agreement can look at. */
  predicate SameElsewhere(a: G, b: G, e: string) {
    (forall r :: r in a.rels.Keys + b.rels.Keys && r.from != EntityKey(e) && r.to != EntityKey(e) &&
                 r.from.lbl != RoleAssignment && r.to.lbl != RoleAssignment ==>
       r in a.rels && r in b.rels && a.rels[r] == b.rels[r]) &&
    (forall k :: k in a.nodes.Keys + b.nodes.Keys && k.lbl in {Area, Device, Tag} ==> k in a.nodes && k in b.nodes) &&
    (forall k :: k in a.nodes && k.lbl == Entity && k != EntityKey(e) ==> k in b.nodes)
  }

  predicate Kept(a: G, b: G, k: NodeKey) {
    (StampedNode(a, k) ==> StampedNode(b, k)) &&
    (k.id.Plain? && StampedNode(a, k) && PName in a.nodes[k] && a.nodes[k][PName] == Text(k.id.text) ==>
       PName in b.nodes[k] && b.nodes[k][PName] == Text(k.id.text))
  }

  lemma NodeWriteElsewhere(g: G, w: Write, e: string)
    requires WriteOf(w, e) && (w.MergeNode? || w.MergeEntity?)
    ensures SameElsewhere(g, Exec(g, w), e)
  {
  }

  lemma RelWriteElsewhere(g: G, w: Write, e: string)
    requires WriteOf(w, e) && (w.MergeRel? || w.DropAreas?)
    ensures SameElsewhere(g, Exec(g, w), e)
  {
  }

  lemma DeleteElsewhere(g: G, w: Write, e: string)
    requires WriteOf(w, e) && (w.DeleteOwned? || w.DropRole?)
    ensures SameElsewhere(g, Exec(g, w), e)
  {
  }

  lemma UpsertElsewhere(g: G, w: Write, e: string)
    requires WriteOf(w, e) && w.UpsertRole?
    ensures SameElsewhere(g, Exec(g, w), e)
  {
  }

  lemma WriteElsewhere(g: G, w: Write, e: string)
    requires WriteOf(w, e)
    ensures SameElsewhere(g, Exec(g, w), e)
  {
    hide SameElsewhere, Exec;
    if w.MergeNode? || w.MergeEntity? {
      NodeWriteElsewhere(g, w, e);
    } else if w.MergeRel? || w.DropAreas? {
      RelWriteElsewhere(g, w, e);
    } else if w.UpsertRole? {
      UpsertElsewhere(g, w, e);
    } else {
      DeleteElsewhere(g, w, e);
    }
  }

  lemma WriteKeeps(g: G, w: Write, e: string, k: NodeKey)
    requires WriteOf(w, e) && k.lbl in {Domain, Integration}
    ensures Kept(g, Exec(g, w), k)
  {
  }

  lemma EntryAgreementKept(a: G, b: G, e: string, other: string, entry: EntityEntry)
    requires SameElsewhere(a, b, e) && other != e && Kept(a, b, PlatformKey(entry.platform))
    ensures DeviceAgrees(a, other, entry) ==> DeviceAgrees(b, other, entry)
    ensures PlatformAgrees(a, other, entry) ==> PlatformAgrees(b, other, entry)
    ensures forall t :: TagAgrees(a, other, t) ==> TagAgrees(b, other, t)
  {
  }

  lemma AreaAgreementKept(a: G, b: G, e: string, other: string, entry: EntityEntry)
    requires SameElsewhere(a, b, e) && other != e
    ensures AreaAgrees(a, other, entry) ==> AreaAgrees(b, other, entry)
  {
    if AreaAgrees(a, other, entry) {
      forall r | r in b.rels && IsOwnArea(b.rels[r], r, other)
        ensures Truthy(entry.areaId) && r.to == AreaKey(entry.areaId.value)
      {
        assert r in a.rels.Keys + b.rels.Keys;
      }
    }
  }

  lemma AgreementKept(g: G, w: Write, h: Hass, e: string, other: string)
    requires WriteOf(w, e) && other != e && Agrees(g, h, other)
    ensures Agrees(Exec(g, w), h, other)
  {
    var b := Exec(g, w);
    WriteElsewhere(g, w, e);
    WriteKeeps(g, w, e, DomainKey(other));
    assert DomainAgrees(b, other) by {
      assert RelKey(EntityKey(other), InDomain, DomainKey(other)) in g.rels.Keys + b.rels.Keys;
    }
    if other in h.entries.items {
      WriteKeeps(g, w, e, PlatformKey(h.entries.items[other].platform));
      EntryAgreementKept(g, b, e, other, h.entries.items[other]);
      AreaAgreementKept(g, b, e, other, h.entries.items[other]);
    }
  }

  lemma {:induction false} AgreementKeptAll(g: G, ws: seq<Write>, h: Hass, e: string, other: string)
    requires (forall w :: w in ws ==> WriteOf(w, e)) && other != e
    requires Agrees(g, h, other) && EntityKey(other) in g.nodes
    ensures Agrees(ExecAll(g, ws), h, other) && EntityKey(other) in ExecAll(g, ws).nodes
    decreases |ws|
  {
    if ws != [] {
      assert WriteOf(ws[0], e);
      AgreementKept(g, ws[0], h, e, other);
      WriteElsewhere(g, ws[0], e);
      AgreementKeptAll(Exec(g, ws[0]), ws[1..], h, e, other);
    }
  }

  /** Only `e`'s own node can appear, change or disappear among the entity nodes. */
  predicate SameEntities(a: G, b: G, e: string) {
    forall k :: k in a.nodes.Keys + b.nodes.Keys && k.lbl == Entity && k != EntityKey(e) ==>
      k in a.nodes && k in b.nodes && a.nodes[k] == b.nodes[k]
  }

  lemma NodeWriteSame(g: G, w: Write, e: string)
    requires WriteOf(w, e) && (w.MergeNode? || w.MergeEntity? || w.UpsertRole?)
    ensures SameEntities(g, Exec(g, w), e)
  {
    hide Plus, Measured, RoleProps, Sourced;
  }

  lemma RelWriteSame(g: G, w: Write, e: string)
    requires WriteOf(w, e) && (w.MergeRel? || w.DropAreas?)
    ensures SameEntities(g, Exec(g, w), e)
  {
  }

  lemma DeleteSame(g: G, w: Write, e: string)
    requires WriteOf(w, e) && (w.DeleteOwned? || w.DropRole?)
    ensures SameEntities(g, Exec(g, w), e)
  {
  }

  lemma OneWriteSame(g: G, w: Write, e: string)
    requires WriteOf(w, e)
    ensures SameEntities(g, Exec(g, w), e)
  {
    hide SameEntities, Exec;
    if w.MergeNode? || w.MergeEntity? || w.UpsertRole? {
      NodeWriteSame(g, w, e);
    } else if w.MergeRel? || w.DropAreas? {
      RelWriteSame(g, w, e);
    } else {
      DeleteSame(g, w, e);
    }
  }

  lemma {:induction false} OtherEntitiesSame(g: G, ws: seq<Write>, e: string)
    requires forall w :: w in ws ==> WriteOf(w, e)
    ensures SameEntities(g, ExecAll(g, ws), e)
    decreases |ws|
  {
    if ws != [] {
      assert WriteOf(ws[0], e);
      var b := Exec(g, ws[0]);
      hide Exec, WriteOf;
      OneWriteSame(g, ws[0], e);
      OtherEntitiesSame(b, ws[1..], e);
      var c := ExecAll(g, ws);
      forall k | k in g.nodes.Keys + c.nodes.Keys && k.lbl == Entity && k != EntityKey(e)
        ensures k in g.nodes && k in c.nodes && g.nodes[k] == c.nodes[k]
      {
        assert k in g.nodes.Keys + b.nodes.Keys && k in b.nodes.Keys + c.nodes.Keys;
      }
    }
  }

  lemma PatchSame(a: G, b: G, e: string, es: set<string>, rows: Rows)
    requires SameEntities(a, b, e) && e !in es && forall x :: x in es ==> x in rows
    ensures Patch(a, es, rows) == Patch(b, es, rows)
  {
    forall k | InPatch(a, k, es) || InPatch(b, k, es) ensures k in a.nodes && k in b.nodes && a.nodes[k] == b.nodes[k] {
      assert k in a.nodes.Keys + b.nodes.Keys;
    }
  }

  // ---- The fast path equals the slow path ------------------------------------------------

  // Entities the bulk write is tried on.
  predicate Candidate(h: Hass, e: string) { !OwnEntity(h, e) && e in h.states.items }

  lemma DomainAfterPropsChange(g: G, e: string, p: Props)
    requires EntityKey(e) in g.nodes
    ensures DomainAgrees(SetNode(g, EntityKey(e), p), e) <==> DomainAgrees(g, e)
  {
  }

  lemma EntryAfterPropsChange(g: G, e: string, p: Props, entry: EntityEntry)
    requires EntityKey(e) in g.nodes
    ensures var g1 := SetNode(g, EntityKey(e), p);
            (DeviceAgrees(g1, e, entry) <==> DeviceAgrees(g, e, entry)) &&
            (PlatformAgrees(g1, e, entry) <==> PlatformAgrees(g, e, entry)) &&
            (forall t :: TagAgrees(g1, e, t) <==> TagAgrees(g, e, t))
  {
  }

  lemma AreaAfterPropsChange(g: G, e: string, p: Props, entry: EntityEntry)
    requires EntityKey(e) in g.nodes
    ensures AreaAgrees(SetNode(g, EntityKey(e), p), e, entry) <==> AreaAgrees(g, e, entry)
  {
  }

  lemma AgreesAfterPropsChange(g: G, h: Hass, e: string, p: Props)
    requires EntityKey(e) in g.nodes
    ensures Agrees(SetNode(g, EntityKey(e), p), h, e) <==> Agrees(g, h, e)
  {
    DomainAfterPropsChange(g, e, p);
    if e in h.entries.items {
      EntryAfterPropsChange(g, e, p, h.entries.items[e]);
      AreaAfterPropsChange(g, e, p, h.entries.items[e]);
    }
    hide DomainAgrees, DeviceAgrees, AreaAgrees, PlatformAgrees, TagAgrees;
  }

  /** Writing an entity in full after its state-only write is writing it in full. */
  lemma FullAfterBulk(g: G, h: Hass, e: string, context: Option<Context>)
    requires Candidate(h, e)
    ensures ExecAll(Exec(g, MatchWrite(e, RowOf(h, e, context))), EntityWrites(h, e, context)) ==
            ExecAll(g, EntityWrites(h, e, context))
  {
    hide EntityWrites, UpdateWrites, RelationshipWrites, RoleWrite, RowOf, Measured;
    var row := RowOf(h, e, context);
    var b, k := Exec(g, MatchWrite(e, row)), EntityKey(e);
    FullInParts(g, h, e, context);
    FullInParts(b, h, e, context);
    if k in g.nodes {
      MeasuredTwice(g.nodes[k], row.props, row.measurement);
      assert Exec(b, MergeEntity(e, row.props, row.measurement)) == Exec(g, MergeEntity(e, row.props, row.measurement));
    }
  }

  lemma FullInParts(g: G, h: Hass, e: string, context: Option<Context>)
    requires Candidate(h, e)
    ensures var row := RowOf(h, e, context);
            var g1 := Exec(g, MergeEntity(e, row.props, row.measurement));
            ExecAll(g, UpdateWrites(h, e, context)) == ExecAll(g1, RelationshipWrites(h, e)) &&
            ExecAll(g, EntityWrites(h, e, context)) == Exec(ExecAll(g1, RelationshipWrites(h, e)), RoleWrite(h, e))
  {
    var row := RowOf(h, e, context);
    var first := MergeEntity(e, row.props, row.measurement);
    ExecAllAppend(g, [first], RelationshipWrites(h, e));
    ExecPair(g, first, first);
    ExecAllAppend(g, UpdateWrites(h, e, context), [RoleWrite(h, e)]);
    ExecPair(ExecAll(g, UpdateWrites(h, e, context)), RoleWrite(h, e), RoleWrite(h, e));
  }

  /** When the relationships agree, the state-only write is the full write. */
  lemma BulkIsFull(g: G, h: Hass, e: string, context: Option<Context>)
    requires Candidate(h, e) && Closed(g) && EntityKey(e) in g.nodes && Agrees(g, h, e)
    ensures ExecAll(g, EntityWrites(h, e, context)) ==
            Exec(Exec(g, MatchWrite(e, RowOf(h, e, context))), RoleWrite(h, e))
  {
    hide EntityWrites, UpdateWrites, RelationshipWrites, RoleWrite, RowOf, Measured, Agrees;
    var row := RowOf(h, e, context);
    var p := Measured(g.nodes[EntityKey(e)], row.props, row.measurement);
    AgreesAfterPropsChange(g, h, e, p);
    AgreedWritesStable(SetNode(g, EntityKey(e), p), h, e);
    FullInParts(g, h, e, context);
  }

  /** One entity of the batch: the bulk writes of the others stay an overlay. */
  lemma FastStep(g: G, h: Hass, e: string, cs: Contexts, written: set<string>, done: bool)
    requires e in cs && (forall x :: x in written ==> x in cs && Candidate(h, x)) && Closed(g)
    requires done ==> e in written && EntityKey(e) in g.nodes && Agrees(g, h, e)
    ensures var rows := RowsOf(h, cs);
            var step := EntityStep(h, e, cs[e], done);
            var g1 := ExecAll(g, EntityWrites(h, e, cs[e]));
            ExecAll(Overlay(g, Patch(g, written, rows)), step) == Overlay(g1, Patch(g1, written - {e}, rows))
  {
    var rows := RowsOf(h, cs);
    var rest := written - {e};
    var ws := EntityWrites(h, e, cs[e]);
    var step := EntityStep(h, e, cs[e], done);
    var base := if e in written then Exec(g, MatchWrite(e, rows[e])) else g;
    if e in written {
      PatchSplit(g, e, rest, rows);
      assert rest + {e} == written;
    } else {
      assert rest == written;
    }
    var m := Patch(base, rest, rows);
    assert Overlay(g, Patch(g, written, rows)) == Overlay(base, m);
    EntityWritesShape(h, e, cs[e]);
    assert RoleWrite(h, e) in ws;
    forall w | w in step ensures Avoids(w, m.Keys) {
      assert w in ws;
      AvoidsOthers(w, e, m.Keys);
    }
    OverlayCommutesAll(base, m, step);
    var g1 := ExecAll(g, ws);
    if done {
      BulkIsFull(g, h, e, cs[e]);
      ExecPair(base, RoleWrite(h, e), RoleWrite(h, e));
    } else if e in written {
      FullAfterBulk(g, h, e, cs[e]);
    }
    assert ExecAll(base, step) == g1;
    OtherEntitiesSame(base, step, e);
    PatchSame(base, g1, e, rest, rows);
  }

  lemma StillAgree(g: G, h: Hass, e: string, context: Option<Context>, others: set<string>)
    requires e !in others && forall x :: x in others ==> EntityKey(x) in g.nodes && Agrees(g, h, x)
    ensures var g1 := ExecAll(g, EntityWrites(h, e, context));
            forall x :: x in others ==> EntityKey(x) in g1.nodes && Agrees(g1, h, x)
  {
    hide Agrees, EntityWrites, WriteOf;
    var ws := EntityWrites(h, e, context);
    EntityWritesShape(h, e, context);
    forall x | x in others ensures EntityKey(x) in ExecAll(g, ws).nodes && Agrees(ExecAll(g, ws), h, x) {
      AgreementKeptAll(g, ws, h, e, x);
    }
  }

  lemma BatchOkRest(ids: seq<string>, cs: Contexts)
    requires BatchOk(ids, cs) && ids != []
    ensures BatchOk(ids[1..], cs) && ids[0] !in ids[1..] && Ids(ids) == {ids[0]} + Ids(ids[1..]) && Ids(ids) <= cs.Keys
    ensures forall id :: id in ids ==> id in cs
  {
  }

  lemma RowsKeys(h: Hass, cs: Contexts)
    ensures RowsOf(h, cs).Keys == cs.Keys
  {
  }

  /** Some entities of a batch (`written`) got their state-only bulk write first. Of these, those in
      `done` are then only role-reconciled and every other entity of the batch is written in full.
      The graph is the one that writing every entity in full, in turn, gives. */
  lemma {:induction false} FastEqualsSlow(g: G, h: Hass, ids: seq<string>, cs: Contexts, written: set<string>,
                                          done: set<string>)
    requires BatchOk(ids, cs) && Closed(g)
    requires done <= written <= Ids(ids)
    requires forall e :: e in written ==> Candidate(h, e)
    requires forall e :: e in done ==> EntityKey(e) in g.nodes && Agrees(g, h, e)
    ensures ExecAll(Overlay(g, Patch(g, written, RowsOf(h, cs))), FastWrites(h, ids, cs, done)) ==
            ExecAll(g, SlowWrites(h, ids, cs))
    decreases |ids|
  {
    var rows := RowsOf(h, cs);
    if ids == [] {
      assert Patch(g, written, rows) == map[];
    } else {
      hide EntityWrites, EntityStep, Patch, Overlay, Candidate, Agrees, Exec, Closed, RowsOf, BatchOk, Ids, ExecAll;
      BatchOkRest(ids, cs);
      RowsKeys(h, cs);
      var e, rest := ids[0], ids[1..];
      var ws := EntityWrites(h, e, cs[e]);
      var step := EntityStep(h, e, cs[e], e in done);
      FastStep(g, h, e, cs, written, e in done);
      var g1 := ExecAll(g, ws);
      ExecAllClosed(g, ws);
      StillAgree(g, h, e, cs[e], done - {e});
      FastEqualsSlow(g1, h, rest, cs, written - {e}, done - {e});
      FastWritesOfRest(h, rest, cs, done, e);
      ExecAllAppend(Overlay(g, Patch(g, written, rows)), step, FastWrites(h, rest, cs, done));
      ExecAllAppend(g, ws, SlowWrites(h, rest, cs));
    }
  }

  lemma {:induction false} FastWritesOfRest(h: Hass, ids: seq<string>, cs: Contexts, done: set<string>, e: string)
    requires (forall id :: id in ids ==> id in cs) && e !in ids
    ensures FastWrites(h, ids, cs, done) == FastWrites(h, ids, cs, done - {e})
    decreases |ids|
  {
    if ids != [] { FastWritesOfRest(h, ids[1..], cs, done, e); }
  }

  /** For one entity with a node, agreement is also necessary: the fast path leaves the graph of the
      slow path exactly when the relationships agree. */
  lemma FastExactlyWhenAgreed(g: G, h: Hass, e: string, context: Option<Context>)
    requires Closed(g) && Candidate(h, e) && EntityKey(e) in g.nodes
    ensures Exec(g, MatchWrite(e, RowOf(h, e, context))) == ExecAll(g, UpdateWrites(h, e, context)) <==> Agrees(g, h, e)
  {
    hide EntityWrites, UpdateWrites, RelationshipWrites, RoleWrite, RowOf, Measured, Agrees;
    var row := RowOf(h, e, context);
    var g1 := Exec(g, MergeEntity(e, row.props, row.measurement));
    FullInParts(g, h, e, context);
    AgreesIffStable(g1, h, e);
    AgreesAfterPropsChange(g, h, e, g1.nodes[EntityKey(e)]);
  }
}
