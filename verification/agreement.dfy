/** When the relationships stored for an entity are those the registry calls for, and that this is
    exactly when the relationship part of the full entity write changes nothing. */
module Agreement {
  import opened Graph
  import opened Registry

  // ---- When an entity's relationships agree with the registry ---------------------

  predicate Stamped(g: G, r: RelKey) {
    r in g.rels && PSource in g.rels[r] && g.rels[r][PSource] == From(HomeAssistant)
  }

  predicate StampedNode(g: G, k: NodeKey) {
    k in g.nodes && PSource in g.nodes[k] && g.nodes[k][PSource] == From(HomeAssistant)
  }

  predicate DomainAgrees(g: G, e: string) {
    StampedNode(g, DomainKey(e)) && Stamped(g, RelKey(EntityKey(e), InDomain, DomainKey(e)))
  }

  predicate DeviceAgrees(g: G, e: string, entry: EntityEntry) {
    Truthy(entry.deviceId) && DeviceKey(entry.deviceId.value) in g.nodes ==>
      Stamped(g, RelKey(DeviceKey(entry.deviceId.value), HasEntity, EntityKey(e)))
  }

  predicate AreaAgrees(g: G, e: string, entry: EntityEntry) {
    (forall r :: r in g.rels && IsOwnArea(g.rels[r], r, e) ==>
       Truthy(entry.areaId) && r.to == AreaKey(entry.areaId.value)) &&
    (Truthy(entry.areaId) && AreaKey(entry.areaId.value) in g.nodes ==>
       var r := RelKey(EntityKey(e), HasArea, AreaKey(entry.areaId.value));
       r in g.rels && g.rels[r] == Sourced(HomeAssistant))
  }

  predicate PlatformAgrees(g: G, e: string, entry: EntityEntry) {
    entry.platform != "" ==>
      var k := PlatformKey(entry.platform);
      StampedNode(g, k) && PName in g.nodes[k] && g.nodes[k][PName] == Text(entry.platform) &&
      Stamped(g, RelKey(EntityKey(e), ProvidedBy, k))
  }

  predicate TagAgrees(g: G, e: string, tag: string) {
    TagKey(tag) in g.nodes ==> Stamped(g, RelKey(EntityKey(e), HasLabel, TagKey(tag)))
  }

  /** The entity's stored relationships are those the registry calls for. */
  predicate Agrees(g: G, h: Hass, e: string) {
    DomainAgrees(g, e) &&
    (e in h.entries.items ==>
       var entry := h.entries.items[e];
       DeviceAgrees(g, e, entry) && AreaAgrees(g, e, entry) && PlatformAgrees(g, e, entry) &&
       (forall t :: t in entry.tags ==> TagAgrees(g, e, t)))
  }

  lemma {:induction false} StableAll(g: G, ws: seq<Write>)
    requires forall w :: w in ws ==> Exec(g, w) == g
    ensures ExecAll(g, ws) == g
    decreases |ws|
  {
    if ws != [] { StableAll(g, ws[1..]); }
  }

  lemma NodeStable(g: G, k: NodeKey, props: Props)
    ensures StampedNode(g, k) && (forall p :: p in props ==> p in g.nodes[k] && props[p] == g.nodes[k][p] != Null)
            ==> Exec(g, HaNode(k, props)) == g
  {
    if StampedNode(g, k) && forall p :: p in props ==> p in g.nodes[k] && props[p] == g.nodes[k][p] != Null {
      assert Plus(g.nodes[k], props[PSource := From(HomeAssistant)]) == g.nodes[k];
      assert g.nodes[k := g.nodes[k]] == g.nodes;
    }
  }

  lemma RelStable(g: G, r: RelKey)
    ensures (HasEnds(g, r) ==> Stamped(g, r)) ==> Exec(g, MergeRel(r, Sourced(HomeAssistant))) == g
  {
    if HasEnds(g, r) && Stamped(g, r) {
      assert Plus(g.rels[r], Sourced(HomeAssistant)) == g.rels[r];
      assert g.rels[r := g.rels[r]] == g.rels;
    }
  }

  lemma AreaWritesStable(g: G, e: string, entry: EntityEntry)
    requires Closed(g) && EntityKey(e) in g.nodes && AreaAgrees(g, e, entry)
    ensures ExecAll(g, AreaWrites(e, entry)) == g
  {
    var ws := AreaWrites(e, entry);
    if Truthy(entry.areaId) {
      var r := RelKey(EntityKey(e), HasArea, AreaKey(entry.areaId.value));
      assert ws == [DropAreas(e), HaRel(r.from, r.kind, r.to)];
      ExecPair(g, ws[0], ws[1]);
      DropThenLink(g, e, entry, r);
    } else {
      assert ws == [DropAreas(e)];
      ExecPair(g, ws[0], ws[0]);
      assert Exec(g, DropAreas(e)).rels == g.rels;
    }
  }

  lemma DropThenLink(g: G, e: string, entry: EntityEntry, r: RelKey)
    requires Closed(g) && AreaAgrees(g, e, entry) && Truthy(entry.areaId)
    requires EntityKey(e) in g.nodes && r == RelKey(EntityKey(e), HasArea, AreaKey(entry.areaId.value))
    ensures Exec(Exec(g, DropAreas(e)), HaRel(r.from, r.kind, r.to)) == g
  {
    var dropped := Exec(g, DropAreas(e));
    if HasEnds(g, r) {
      assert Plus(map[], Sourced(HomeAssistant)) == Sourced(HomeAssistant);
      assert IsOwnArea(g.rels[r], r, e) && r !in dropped.rels;
      assert dropped.rels[r := Sourced(HomeAssistant)] == g.rels;
    } else {
      assert dropped.rels == g.rels;
    }
  }

  lemma DomainWritesStable(g: G, e: string)
    requires DomainAgrees(g, e)
    ensures ExecAll(g, DomainWrites(e)) == g
  {
    NodeStable(g, DomainKey(e), map[]);
    RelStable(g, RelKey(EntityKey(e), InDomain, DomainKey(e)));
    StableAll(g, DomainWrites(e));
  }

  lemma DeviceWritesStable(g: G, e: string, entry: EntityEntry)
    requires EntityKey(e) in g.nodes && DeviceAgrees(g, e, entry)
    ensures ExecAll(g, DeviceWrites(e, entry)) == g
  {
    if Truthy(entry.deviceId) {
      RelStable(g, RelKey(DeviceKey(entry.deviceId.value), HasEntity, EntityKey(e)));
    }
    StableAll(g, DeviceWrites(e, entry));
  }

  lemma PlatformWritesStable(g: G, e: string, entry: EntityEntry)
    requires PlatformAgrees(g, e, entry)
    ensures ExecAll(g, PlatformWrites(e, entry)) == g
  {
    NodeStable(g, PlatformKey(entry.platform), map[PName := Text(entry.platform)]);
    RelStable(g, RelKey(EntityKey(e), ProvidedBy, PlatformKey(entry.platform)));
    StableAll(g, PlatformWrites(e, entry));
  }

  lemma TagRelsStable(g: G, e: string, tags: seq<string>)
    requires forall t :: t in tags ==> TagAgrees(g, e, t)
    ensures ExecAll(g, TagRels(e, tags)) == g
  {
    forall w | w in TagRels(e, tags) ensures Exec(g, w) == g {
      var i :| 0 <= i < |tags| && TagRels(e, tags)[i] == w;
      assert TagAgrees(g, e, tags[i]);
      RelStable(g, RelKey(EntityKey(e), HasLabel, TagKey(tags[i])));
    }
    StableAll(g, TagRels(e, tags));
  }

  lemma AgreedWritesStable(g: G, h: Hass, e: string)
    requires Closed(g) && EntityKey(e) in g.nodes && Agrees(g, h, e)
    ensures ExecAll(g, RelationshipWrites(h, e)) == g
  {
    DomainWritesStable(g, e);
    if e in h.entries.items {
      var entry := h.entries.items[e];
      var b, c, d, f := DeviceWrites(e, entry), AreaWrites(e, entry), PlatformWrites(e, entry), TagRels(e, entry.tags);
      DeviceWritesStable(g, e, entry);
      AreaWritesStable(g, e, entry);
      PlatformWritesStable(g, e, entry);
      TagRelsStable(g, e, entry.tags);
      ExecAllAppend(g, d, f);
      ExecAllAppend(g, c, d + f);
      ExecAllAppend(g, b, c + (d + f));
      ExecAllAppend(g, DomainWrites(e), b + (c + (d + f)));
    } else {
      assert RelationshipWrites(h, e) == DomainWrites(e);
    }
  }

  // ---- ... and conversely: writes that change nothing were not needed ---------------

  datatype Fact = NodeFact(node: NodeKey, prop: Prop, value: Value) | RelFact(rel: RelKey)

  predicate Holds(g: G, f: Fact) {
    match f
    case NodeFact(k, p, v) => k in g.nodes && p in g.nodes[k] && g.nodes[k][p] == v
    case RelFact(r) => Stamped(g, r)
  }

  predicate Keeps(w: Write, f: Fact) {
    match w
    case MergeNode(k, props) => f.NodeFact? && k == f.node && f.prop in props ==> props[f.prop] == f.value != Null
    case MergeRel(r, props) => f.RelFact? && r == f.rel ==> props == Sourced(HomeAssistant)
    case DropAreas(_) => f.RelFact? ==> f.rel.kind != HasArea
    case _ => false
  }

  lemma {:induction false} KeptAll(g: G, ws: seq<Write>, f: Fact)
    requires Holds(g, f) && forall w :: w in ws ==> Keeps(w, f)
    ensures Holds(ExecAll(g, ws), f)
    decreases |ws|
  {
    if ws != [] {
      assert Keeps(ws[0], f);
      KeptAll(Exec(g, ws[0]), ws[1..], f);
    }
  }

  /** What the i-th write establishes still holds at the end, when every later write keeps it. */
  lemma Established(g: G, ws: seq<Write>, i: nat, f: Fact)
    requires i < |ws| && Holds(Exec(ExecAll(g, ws[..i]), ws[i]), f)
    requires forall w :: w in ws ==> Keeps(w, f)
    ensures Holds(ExecAll(g, ws), f)
  {
    assert ws == ws[..i] + ([ws[i]] + ws[i + 1..]);
    ExecAllAppend(g, ws[..i], [ws[i]] + ws[i + 1..]);
    var mid := ExecAll(g, ws[..i]);
    ExecAllAppend(mid, [ws[i]], ws[i + 1..]);
    ExecPair(mid, ws[i], ws[i]);
    KeptAll(Exec(mid, ws[i]), ws[i + 1..], f);
  }

  predicate RegistryWrite(w: Write, e: string) {
    match w
    case MergeNode(k, props) =>
      k.id.Plain? && PSource in props && props[PSource] == From(HomeAssistant) &&
      ((k.lbl == Domain && props.Keys == {PSource}) ||
       (k.lbl == Integration && props.Keys == {PSource, PName} && props[PName] == Text(k.id.text)))
    case MergeRel(r, props) => props == Sourced(HomeAssistant) && (r.from == EntityKey(e) || r.to == EntityKey(e))
    case DropAreas(x) => x == e
    case _ => false
  }

  lemma {:induction false} NodesGrow(g: G, ws: seq<Write>, e: string, k: NodeKey)
    requires k in g.nodes && forall w :: w in ws ==> RegistryWrite(w, e)
    ensures k in ExecAll(g, ws).nodes
    decreases |ws|
  {
    if ws != [] {
      assert RegistryWrite(ws[0], e);
      NodesGrow(Exec(g, ws[0]), ws[1..], e, k);
    }
  }

  lemma EntryWritesShape(e: string, entry: EntityEntry, w: Write)
    requires w in DeviceWrites(e, entry) || w in AreaWrites(e, entry) || w in PlatformWrites(e, entry) ||
             w in TagRels(e, entry.tags)
    ensures RegistryWrite(w, e)
  {
    if w in TagRels(e, entry.tags) {
      var i :| 0 <= i < |entry.tags| && TagRels(e, entry.tags)[i] == w;
    }
  }

  lemma RelationshipWritesShape(h: Hass, e: string)
    ensures forall w :: w in RelationshipWrites(h, e) ==> RegistryWrite(w, e)
  {
    forall w | w in RelationshipWrites(h, e) ensures RegistryWrite(w, e) {
      if w !in DomainWrites(e) {
        EntryWritesShape(e, h.entries.items[e], w);
      }
    }
  }

  lemma RelEstablished(g: G, ws: seq<Write>, e: string, r: RelKey)
    requires (forall w :: w in ws ==> RegistryWrite(w, e)) && MergeRel(r, Sourced(HomeAssistant)) in ws
    requires HasEnds(g, r) && r.kind != HasArea
    ensures Stamped(ExecAll(g, ws), r)
  {
    var i :| 0 <= i < |ws| && ws[i] == MergeRel(r, Sourced(HomeAssistant));
    NodesGrow(g, ws[..i], e, r.from);
    NodesGrow(g, ws[..i], e, r.to);
    forall w | w in ws ensures Keeps(w, RelFact(r)) { assert RegistryWrite(w, e); }
    Established(g, ws, i, RelFact(r));
  }

  lemma NodeEstablished(g: G, ws: seq<Write>, e: string, k: NodeKey, props: Props, p: Prop)
    requires (forall w :: w in ws ==> RegistryWrite(w, e)) && MergeNode(k, props) in ws && p in props
    ensures Holds(ExecAll(g, ws), NodeFact(k, p, props[p]))
  {
    var i :| 0 <= i < |ws| && ws[i] == MergeNode(k, props);
    assert RegistryWrite(ws[i], e);
    forall w | w in ws ensures Keeps(w, NodeFact(k, p, props[p])) { assert RegistryWrite(w, e); }
    Established(g, ws, i, NodeFact(k, p, props[p]));
  }

  predicate SameAreas(a: G, b: G) {
    (forall r :: r in a.rels.Keys + b.rels.Keys && r.kind == HasArea ==>
       r in a.rels && r in b.rels && a.rels[r] == b.rels[r]) &&
    (forall k :: k in a.nodes.Keys + b.nodes.Keys && k.lbl == Area ==> k in a.nodes && k in b.nodes)
  }

  predicate NotArea(w: Write) { !w.DropAreas? && (w.MergeRel? ==> w.rel.kind != HasArea) }

  lemma {:induction false} AreasUntouched(g: G, ws: seq<Write>, e: string)
    requires forall w :: w in ws ==> RegistryWrite(w, e) && NotArea(w)
    ensures SameAreas(g, ExecAll(g, ws))
    decreases |ws|
  {
    if ws != [] {
      assert RegistryWrite(ws[0], e) && NotArea(ws[0]);
      assert SameAreas(g, Exec(g, ws[0]));
      AreasUntouched(Exec(g, ws[0]), ws[1..], e);
    }
  }

  lemma AreaAgreesSame(a: G, b: G, e: string, entry: EntityEntry)
    requires SameAreas(a, b) && AreaAgrees(a, e, entry)
    ensures AreaAgrees(b, e, entry)
  {
  }

  lemma DropsOwn(g: G, e: string)
    ensures forall r :: r in Exec(g, DropAreas(e)).rels <==> r in g.rels && !IsOwnArea(g.rels[r], r, e)
  {
  }

  lemma FreshStamp(g: G, r: RelKey)
    requires r !in g.rels && HasEnds(g, r)
    ensures var end := Exec(g, HaRel(r.from, r.kind, r.to)); r in end.rels && end.rels[r] == Sourced(HomeAssistant)
  {
    assert Plus(map[], Sourced(HomeAssistant)) == Sourced(HomeAssistant);
  }

  lemma AreaNeededWith(g: G, e: string, area: string)
    requires EntityKey(e) in g.nodes
    requires SameAreas(g, Exec(Exec(g, DropAreas(e)), HaRel(EntityKey(e), HasArea, AreaKey(area))))
    ensures forall r :: r in g.rels && IsOwnArea(g.rels[r], r, e) ==> r.to == AreaKey(area)
    ensures AreaKey(area) in g.nodes ==>
              var r := RelKey(EntityKey(e), HasArea, AreaKey(area)); r in g.rels && g.rels[r] == Sourced(HomeAssistant)
  {
    var r := RelKey(EntityKey(e), HasArea, AreaKey(area));
    var dropped := Exec(g, DropAreas(e));
    var end := Exec(dropped, HaRel(r.from, r.kind, r.to));
    DropsOwn(g, e);
    forall r2 | r2 in g.rels && IsOwnArea(g.rels[r2], r2, e) ensures r2 == r {
      assert r2 in g.rels.Keys + end.rels.Keys;
    }
    if r.to in g.nodes {
      assert r !in dropped.rels;
      assert HasEnds(dropped, r);
      FreshStamp(dropped, r);
      assert r in g.rels.Keys + end.rels.Keys;
    }
  }

  lemma AreaNeeded(g: G, e: string, entry: EntityEntry)
    requires EntityKey(e) in g.nodes && SameAreas(g, ExecAll(g, AreaWrites(e, entry)))
    ensures AreaAgrees(g, e, entry)
  {
    var ws := AreaWrites(e, entry);
    if Truthy(entry.areaId) {
      assert ws == [DropAreas(e), HaRel(EntityKey(e), HasArea, AreaKey(entry.areaId.value))];
      ExecPair(g, ws[0], ws[1]);
      AreaNeededWith(g, e, entry.areaId.value);
    } else {
      assert ws == [DropAreas(e)];
      ExecPair(g, ws[0], ws[0]);
      DropsOwn(g, e);
    }
  }

  lemma SameAreasTrans(a: G, b: G, c: G)
    requires SameAreas(a, b) && SameAreas(b, c)
    ensures SameAreas(a, c) && SameAreas(b, a)
  {
  }

  function BeforeArea(e: string, entry: EntityEntry): seq<Write> { DomainWrites(e) + DeviceWrites(e, entry) }
  function AfterArea(e: string, entry: EntityEntry): seq<Write> {
    PlatformWrites(e, entry) + TagRels(e, entry.tags)
  }

  lemma AroundArea(e: string, entry: EntityEntry, w: Write)
    requires w in BeforeArea(e, entry) || w in AfterArea(e, entry)
    ensures RegistryWrite(w, e) && NotArea(w)
  {
    if w !in DomainWrites(e) {
      EntryWritesShape(e, entry, w);
      if w in TagRels(e, entry.tags) {
        var i :| 0 <= i < |entry.tags| && TagRels(e, entry.tags)[i] == w;
      }
    }
  }

  lemma SplitAtArea(g: G, h: Hass, e: string)
    requires e in h.entries.items
    ensures var entry := h.entries.items[e];
            ExecAll(g, RelationshipWrites(h, e)) ==
            ExecAll(ExecAll(ExecAll(g, BeforeArea(e, entry)), AreaWrites(e, entry)), AfterArea(e, entry))
  {
    var entry := h.entries.items[e];
    var a, b, c := BeforeArea(e, entry), AreaWrites(e, entry), AfterArea(e, entry);
    assert RelationshipWrites(h, e) == a + (b + c);
    ExecAllAppend(g, a, b + c);
    ExecAllAppend(ExecAll(g, a), b, c);
  }

  lemma AreaWritesNeeded(g: G, h: Hass, e: string)
    requires EntityKey(e) in g.nodes && e in h.entries.items
    requires ExecAll(g, RelationshipWrites(h, e)) == g
    ensures AreaAgrees(g, e, h.entries.items[e])
  {
    var entry := h.entries.items[e];
    var a, b := BeforeArea(e, entry), AfterArea(e, entry);
    forall w | w in a || w in b ensures RegistryWrite(w, e) && NotArea(w) { AroundArea(e, entry, w); }
    SplitAtArea(g, h, e);
    var g1 := ExecAll(g, a);
    var g2 := ExecAll(g1, AreaWrites(e, entry));
    AreasUntouched(g, a, e);
    AreasUntouched(g2, b, e);
    SameAreasTrans(g2, g, g1);
    SameAreasTrans(g2, g1, g2);
    NodesGrow(g, a, e, EntityKey(e));
    AreaNeeded(g1, e, entry);
    SameAreasTrans(g, g1, g1);
    AreaAgreesSame(g1, g, e, entry);
  }

  lemma DomainNeeded(g: G, h: Hass, e: string)
    requires EntityKey(e) in g.nodes && ExecAll(g, RelationshipWrites(h, e)) == g
    ensures DomainAgrees(g, e)
  {
    var ws := RelationshipWrites(h, e);
    RelationshipWritesShape(h, e);
    var props: Props := map[PSource := From(HomeAssistant)];
    assert DomainWrites(e) == [MergeNode(DomainKey(e), props), HaRel(EntityKey(e), InDomain, DomainKey(e))];
    assert ws[0] == DomainWrites(e)[0] && ws[1] == DomainWrites(e)[1];
    NodeEstablished(g, ws, e, DomainKey(e), props, PSource);
    RelEstablished(g, ws, e, RelKey(EntityKey(e), InDomain, DomainKey(e)));
  }

  lemma EntryNeeded(g: G, h: Hass, e: string)
    requires EntityKey(e) in g.nodes && e in h.entries.items && ExecAll(g, RelationshipWrites(h, e)) == g
    ensures DeviceAgrees(g, e, h.entries.items[e]) && PlatformAgrees(g, e, h.entries.items[e])
    ensures forall t :: t in h.entries.items[e].tags ==> TagAgrees(g, e, t)
  {
    var ws := RelationshipWrites(h, e);
    RelationshipWritesShape(h, e);
    var entry := h.entries.items[e];
    if Truthy(entry.deviceId) && DeviceKey(entry.deviceId.value) in g.nodes {
      var r := RelKey(DeviceKey(entry.deviceId.value), HasEntity, EntityKey(e));
      assert MergeRel(r, Sourced(HomeAssistant)) in DeviceWrites(e, entry);
      RelEstablished(g, ws, e, r);
    }
    if entry.platform != "" {
      var k := PlatformKey(entry.platform);
      var props: Props := map[PName := Text(entry.platform), PSource := From(HomeAssistant)];
      assert PlatformWrites(e, entry)[0] == MergeNode(k, props) && PlatformWrites(e, entry)[0] in ws;
      NodeEstablished(g, ws, e, k, props, PSource);
      NodeEstablished(g, ws, e, k, props, PName);
      assert PlatformWrites(e, entry)[1] in ws;
      RelEstablished(g, ws, e, RelKey(EntityKey(e), ProvidedBy, k));
    }
    forall t | t in entry.tags ensures TagAgrees(g, e, t) {
      var i :| 0 <= i < |entry.tags| && entry.tags[i] == t;
      var r := RelKey(EntityKey(e), HasLabel, TagKey(t));
      assert TagRels(e, entry.tags)[i] == MergeRel(r, Sourced(HomeAssistant)) && TagRels(e, entry.tags)[i] in ws;
      if TagKey(t) in g.nodes { RelEstablished(g, ws, e, r); }
    }
  }

  /** The relationship writes leave the graph alone exactly when the relationships already agree. */
  lemma AgreesIffStable(g: G, h: Hass, e: string)
    requires Closed(g) && EntityKey(e) in g.nodes
    ensures Agrees(g, h, e) <==> ExecAll(g, RelationshipWrites(h, e)) == g
  {
    if Agrees(g, h, e) {
      AgreedWritesStable(g, h, e);
    } else if ExecAll(g, RelationshipWrites(h, e)) == g {
      DomainNeeded(g, h, e);
      if e in h.entries.items {
        AreaWritesNeeded(g, h, e);
        EntryNeeded(g, h, e);
      }
    }
  }
}
