/** What a full build leaves in the graph, said from the registries: which nodes and relationships there are, and
    which properties they have. Nothing here mentions the rows a build writes, except to prove it. */
module BuildFacts {
  import opened Graph
  import opened Registry
  import opened Semantics
  import opened Build
  import opened Settle
  import opened Idempotence

  // ---- What the registries ask for -------------------------------------------------------------

  predicate IsSynced(h: Hass, e: string) {
    e in h.entries.ids && (e in h.entries.items ==> h.entries.items[e].platform != "ontology")
  }

  predicate RefersTo(t: Table<Referrer>, id: string, e: string) {
    id in t.ids && id in t.items && e in t.items[id].refers
  }

  /** The relationships the registries ask for, entities' areas aside. */
  predicate Asked(h: Hass, r: RelKey) {
    r.from.id.Plain? && r.to.id.Plain? &&
    var a, b := r.from.id.text, r.to.id.text;
    match r.kind
    case HasFloor => r.from == NodeKey(Home, Plain("home")) && r.to.lbl == Floor && b in h.floors.ids
    case HasArea => r.from == NodeKey(Home, Plain("home")) && r.to.lbl == Area && b in h.areas.ids
    case OnFloor =>
      r.from.lbl == Area && r.to.lbl == Floor && a in h.areas.ids && a in h.areas.items &&
      h.areas.items[a].floorId == Some(b) && b != ""
    case HasDevice =>
      r.from.lbl == Area && r.to.lbl == Device && b in h.devices.ids && b in h.devices.items &&
      h.devices.items[b].areaId == Some(a) && a != ""
    case HasEntity =>
      r.from.lbl == Device && r.to.lbl == Entity && IsSynced(h, b) && b in h.entries.items &&
      h.entries.items[b].deviceId == Some(a) && a != ""
    case InDomain => r.from.lbl == Entity && r.to.lbl == Domain && IsSynced(h, a) && b == DomainOf(a)
    case ProvidedBy =>
      r.from.lbl == Entity && r.to.lbl == Integration && IsSynced(h, a) && a in h.entries.items &&
      h.entries.items[a].platform == b && b != ""
    case HasLabel =>
      r.from.lbl == Entity && r.to.lbl == Tag && IsSynced(h, a) && a in h.entries.items &&
      b in h.entries.items[a].tags
    case References =>
      r.to.lbl == Entity &&
      ((r.from.lbl == Automation && RefersTo(h.automations, a, b)) ||
       (r.from.lbl == Script && RefersTo(h.scripts, a, b)))
    case Controls => r.to.lbl == Entity && r.from.lbl == Scene && RefersTo(h.scenes, a, b)
    case _ => false
  }

  /** The area the registry gives an entity. */
  predicate AreaAsked(h: Hass, r: RelKey) {
    r.kind == HasArea && r.from.lbl == Entity && r.to.lbl == Area && r.from.id.Plain? && r.to.id.Plain? &&
    var e, a := r.from.id.text, r.to.id.text;
    IsSynced(h, e) && e in h.entries.items && h.entries.items[e].areaId == Some(a) && a != ""
  }

  /** The nodes the registries ask for. */
  ghost predicate NodeAsked(h: Hass, k: NodeKey) {
    k.id.Plain? &&
    var id := k.id.text;
    match k.lbl
    case Home => id == "home"
    case Floor => id in h.floors.ids
    case Area => id in h.areas.ids
    case Device => id in h.devices.ids
    case Tag => id in h.tags.ids
    case Entity => IsSynced(h, id)
    case Domain => exists e :: IsSynced(h, e) && DomainOf(e) == id
    case Integration =>
      id != "" && exists e :: IsSynced(h, e) && e in h.entries.items && h.entries.items[e].platform == id
    case Automation => id in h.automations.ids
    case Scene => id in h.scenes.ids
    case Script => id in h.scripts.ids
    case _ => false
  }

  predicate RegistryLabel(lbl: Label) {
    lbl in {Home, Floor, Area, Device, Tag, Entity, Domain, Integration, Automation, Scene, Script}
  }

  // The properties a build sets on a node of one label, besides its source.
  function SetProps(lbl: Label): set<Prop> {
    match lbl
    case Floor => {PName, PLevel, PIcon}
    case Area => {PName, PIcon}
    case Device => {PName, PManufacturer, PModel}
    case Tag => {PName, PColor}
    case Domain => {}
    case _ => {PName}
  }

  predicate ReferrerStored(t: Table<Referrer>, id: string, p: Props) {
    id in t.items ==> HoldsText(p, PName, Some(t.items[id].name))
  }

  /** What the registries say of a node other than an entity's. */
  predicate DetailsStored(h: Hass, k: NodeKey, p: Props)
    requires k.id.Plain?
  {
    var id := k.id.text;
    match k.lbl
    case Home => HoldsText(p, PName, Some("Home"))
    case Floor =>
      id in h.floors.items ==>
        var f := h.floors.items[id];
        HoldsText(p, PName, Some(f.name)) && HoldsText(p, PIcon, f.icon) &&
        if f.level.Some? then PLevel in p && p[PLevel] == Number(f.level.value) else PLevel !in p
    case Area =>
      id in h.areas.items ==>
        HoldsText(p, PName, Some(h.areas.items[id].name)) && HoldsText(p, PIcon, h.areas.items[id].icon)
    case Device =>
      id in h.devices.items ==>
        var d := h.devices.items[id];
        HoldsText(p, PName, d.name) && HoldsText(p, PManufacturer, d.manufacturer) && HoldsText(p, PModel, d.model)
    case Tag =>
      id in h.tags.items ==>
        HoldsText(p, PName, Some(h.tags.items[id].name)) && HoldsText(p, PColor, h.tags.items[id].color)
    case Integration => HoldsText(p, PName, Some(id))
    case Automation => ReferrerStored(h.automations, id, p)
    case Scene => ReferrerStored(h.scenes, id, p)
    case Script => ReferrerStored(h.scripts, id, p)
    case _ => true
  }

  /** A node the registries ask for, after a build that found `before` there. */
  ghost predicate NodeStored(h: Hass, k: NodeKey, before: Props, p: Props)
    requires k.id.Plain?
  {
    if k.lbl == Entity then EntityStored(h, k.id.text, None, before, p)
    else
      PSource in p && p[PSource] == From(HomeAssistant) && DetailsStored(h, k, p) &&
      forall q :: q != PSource && q !in SetProps(k.lbl) ==> SameProp(before, p, q)
  }

  // ---- Classification -----------------------------------------------------------------------------

  function TypeNode(t: string): NodeKey { NodeKey(SemanticType, Plain(t)) }
  function AssetNode(e: string, t: string): NodeKey { NodeKey(Typed(t), AssetOf(e, t)) }

  /** The rule gives the entity a semantic type: it fits, and no override for the type was there. */
  ghost predicate Gives(h: Hass, g: G, rules: seq<Rule>, e: string, rule: Rule) {
    rule in rules && RuleFits(rule, h.signals(e)) && IsSynced(h, e) &&
    RelKey(EntityKey(e), OverrideOf, TypeNode(rule.typeLabel)) !in g.rels
  }

  ghost predicate IsClassified(h: Hass, g: G, rules: seq<Rule>, e: string, t: string) {
    exists rule :: Gives(h, g, rules, e, rule) && rule.typeLabel == t
  }

  /** The entity's own area, else its device's. */
  predicate LiesIn(h: Hass, e: string, a: string) {
    a != "" && e in h.entries.items &&
    var entry := h.entries.items[e];
    if entry.areaId.Some? && entry.areaId.value != "" then entry.areaId == Some(a)
    else entry.deviceId.Some? && entry.deviceId.value != "" && entry.deviceId.value in h.devices.items &&
         h.devices.items[entry.deviceId.value].areaId == Some(a)
  }

  ghost predicate ClassNode(h: Hass, g: G, rules: seq<Rule>, k: NodeKey) {
    (exists e, t :: IsClassified(h, g, rules, e, t) && k == TypeNode(t)) ||
    (exists e, t :: IsClassified(h, g, rules, e, t) && k == AssetNode(e, t))
  }

  ghost predicate ClassRel(h: Hass, g: G, rules: seq<Rule>, r: RelKey) {
    (exists e, t :: IsClassified(h, g, rules, e, t) && r == RelKey(EntityKey(e), ClassifiedAs, TypeNode(t))) ||
    (exists e, rule :: Gives(h, g, rules, e, rule) &&
                       r == RelKey(AssetNode(e, rule.typeLabel), rule.back, EntityKey(e))) ||
    (exists e, t, a :: IsClassified(h, g, rules, e, t) && LiesIn(h, e, a) &&
                       r == RelKey(AssetNode(e, t), LocatedIn, AreaKey(a)))
  }

  // ---- The rows, part by part ----------------------------------------------------------------------

  function RowOf(r: RelKey): Write { MergeRel(r, map[PSource := From(HomeAssistant)]) }

  lemma SyncedIs(h: Hass)
    ensures forall e :: e in Synced(h) <==> IsSynced(h, e)
  {
    forall e ensures e in Synced(h) <==> IsSynced(h, e) {
      InFlatMap(h.entries.ids, (x: string) => if OwnEntity(h, x) then [] else [x], e);
      if IsSynced(h, e) { assert e in if OwnEntity(h, e) then [] else [e]; }
    }
  }

  // What a row of the build is for.
  ghost predicate Meant(h: Hass, g: G, rules: seq<Rule>, w: Write) {
    match w
    case MergeNode(k, _) => NodeAsked(h, k) || ClassNode(h, g, rules, k)
    case MergeEntity(e, _, _) => IsSynced(h, e)
    case MergeRel(r, _) => Asked(h, r) || AreaAsked(h, r) || ClassRel(h, g, rules, r)
    case EnsureSchema(_) => true
    case _ => false
  }

  ghost predicate AllMeant(h: Hass, g: G, rules: seq<Rule>, ws: seq<Write>) {
    forall w :: w in ws ==> Meant(h, g, rules, w)
  }

  lemma MeantFlat(h: Hass, g: G, rules: seq<Rule>, ids: seq<string>, f: string -> seq<Write>)
    requires forall id :: id in ids ==> AllMeant(h, g, rules, f(id))
    ensures AllMeant(h, g, rules, FlatMap(ids, f))
  {
    forall w | w in FlatMap(ids, f) ensures Meant(h, g, rules, w) { InFlatMap(ids, f, w); }
  }

  lemma InFlat(ids: seq<string>, f: string -> seq<Write>, id: string, w: Write)
    requires id in ids && w in f(id)
    ensures w in FlatMap(ids, f)
  {
    InFlatMap(ids, f, w);
  }

  lemma NodeRowsMeant(h: Hass, g: G, rules: seq<Rule>, lbl: Label, ids: seq<string>)
    requires forall id :: id in ids ==> NodeAsked(h, NodeKey(lbl, Plain(id)))
    ensures AllMeant(h, g, rules, NodeRows(h, lbl, ids))
  {
    hide NodeAsked, ClassNode, NodeProps;
    MeantFlat(h, g, rules, ids, (id: string) => NodeRow(h, Key(lbl, id)));
  }

  lemma NodeRowsHas(h: Hass, lbl: Label, ids: seq<string>, id: string)
    requires id in ids
    ensures MergeNode(NodeKey(lbl, Plain(id)), NodeProps(h, NodeKey(lbl, Plain(id)))) in NodeRows(h, lbl, ids)
  {
    hide NodeProps;
    var w := MergeNode(NodeKey(lbl, Plain(id)), NodeProps(h, NodeKey(lbl, Plain(id))));
    assert w in NodeRow(h, Key(lbl, id));
    InFlat(ids, (x: string) => NodeRow(h, Key(lbl, x)), id, w);
  }

  lemma HomeMeant(h: Hass, g: G, rules: seq<Rule>)
    ensures AllMeant(h, g, rules, HomeAndFloors(h)) && AllMeant(h, g, rules, FloorLinksAndAreas(h))
  {
    hide NodeRows, NodeProps, ClassNode, ClassRel;
    NodeRowsMeant(h, g, rules, Floor, h.floors.ids);
    NodeRowsMeant(h, g, rules, Area, h.areas.ids);
    MeantFlat(h, g, rules, h.floors.ids, (f: string) => LinkRow(HOME, HasFloor, FloorKey(f)));
  }

  lemma AreasMeant(h: Hass, g: G, rules: seq<Rule>)
    ensures AllMeant(h, g, rules, AreaLinksAndDevices(h))
  {
    hide NodeRows, NodeProps, ClassNode, ClassRel;
    NodeRowsMeant(h, g, rules, Device, h.devices.ids);
    MeantFlat(h, g, rules, h.areas.ids, (a: string) => LinkRow(HOME, HasArea, AreaKey(a)));
    MeantFlat(h, g, rules, h.areas.ids, (a: string) => AreaFloorLink(h, a));
  }

  lemma DevicesMeant(h: Hass, g: G, rules: seq<Rule>)
    ensures AllMeant(h, g, rules, DeviceLinksAndEntities(h))
  {
    hide NodeRows, NodeProps, ClassNode, ClassRel, BaseProps, MeasurementProps;
    SyncedIs(h);
    NodeRowsMeant(h, g, rules, Tag, h.tags.ids);
    MeantFlat(h, g, rules, h.devices.ids, (d: string) => AreaDeviceLink(h, d));
    MeantFlat(h, g, rules, Synced(h), (e: string) => EntityRow(h, e));
  }

  lemma DomainsMeant(h: Hass, g: G, rules: seq<Rule>)
    ensures AllMeant(h, g, rules, DomainRows(h)) && AllMeant(h, g, rules, PlatformRows(h))
  {
    SyncedIs(h);
    forall id | id in Domains(h) ensures NodeAsked(h, NodeKey(Domain, Plain(id))) {
      InFlatMap(Synced(h), (e: string) => [DomainOf(e)], id);
    }
    forall id | id in Platforms(h) ensures NodeAsked(h, NodeKey(Integration, Plain(id))) {
      InFlatMap(Synced(h), (e: string) => PlatformOf(h, e), id);
    }
    NodeRowsMeant(h, g, rules, Domain, Domains(h));
    NodeRowsMeant(h, g, rules, Integration, Platforms(h));
  }

  lemma LinksMeant(h: Hass, g: G, rules: seq<Rule>)
    ensures AllMeant(h, g, rules, DomainLinks(h)) && AllMeant(h, g, rules, DeviceLinks(h))
    ensures AllMeant(h, g, rules, AreaLinks(h)) && AllMeant(h, g, rules, PlatformLinks(h))
  {
    hide ClassRel;
    SyncedIs(h);
    forall e | e in Synced(h)
      ensures AllMeant(h, g, rules, DomainLink(e)) && AllMeant(h, g, rules, DeviceLink(h, e))
      ensures AllMeant(h, g, rules, AreaLink(h, e)) && AllMeant(h, g, rules, PlatformLink(h, e))
    {
      LinkMeant(h, g, rules, e);
    }
    hide AllMeant, DomainLink, DeviceLink, AreaLink, PlatformLink, Synced;
    MeantFlat(h, g, rules, Synced(h), (e: string) => DomainLink(e));
    MeantFlat(h, g, rules, Synced(h), (e: string) => DeviceLink(h, e));
    MeantFlat(h, g, rules, Synced(h), (e: string) => AreaLink(h, e));
    MeantFlat(h, g, rules, Synced(h), (e: string) => PlatformLink(h, e));
  }

  lemma LinkMeant(h: Hass, g: G, rules: seq<Rule>, e: string)
    requires IsSynced(h, e)
    ensures AllMeant(h, g, rules, DomainLink(e)) && AllMeant(h, g, rules, DeviceLink(h, e))
    ensures AllMeant(h, g, rules, AreaLink(h, e)) && AllMeant(h, g, rules, PlatformLink(h, e))
  {
    hide ClassRel;
  }

  lemma TagsMeant(h: Hass, g: G, rules: seq<Rule>)
    ensures AllMeant(h, g, rules, AllTagLinks(h))
  {
    hide ClassRel;
    SyncedIs(h);
    forall e | e in Synced(h) ensures AllMeant(h, g, rules, TagLinks(h, e)) {
      if e in h.entries.items {
        MeantFlat(h, g, rules, h.entries.items[e].tags, (t: string) => LinkRow(EntityKey(e), HasLabel, TagKey(t)));
      }
    }
    MeantFlat(h, g, rules, Synced(h), (e: string) => TagLinks(h, e));
  }

  predicate ReferrerTable(h: Hass, t: Table<Referrer>, lbl: Label, kind: RelType) {
    (t == h.automations && lbl == Automation && kind == References) ||
    (t == h.scenes && lbl == Scene && kind == Controls) || (t == h.scripts && lbl == Script && kind == References)
  }

  lemma ReferrersMeant(h: Hass, g: G, rules: seq<Rule>, t: Table<Referrer>, lbl: Label, kind: RelType)
    requires ReferrerTable(h, t, lbl, kind)
    ensures AllMeant(h, g, rules, Referrers(h, t, lbl, kind))
  {
    hide ClassRel, ClassNode, NodeProps;
    forall id | id in t.ids ensures AllMeant(h, g, rules, ReferrerRows(h, t, lbl, kind, id)) {
      if id in t.items {
        MeantFlat(h, g, rules, t.items[id].refers, (e: string) => LinkRow(Key(lbl, id), kind, EntityKey(e)));
      }
    }
    MeantFlat(h, g, rules, t.ids, (id: string) => ReferrerRows(h, t, lbl, kind, id));
  }

  // ---- Classification rows ------------------------------------------------------------------------

  lemma {:induction false} InClassify(h: Hass, g: G, e: string, rules: seq<Rule>, w: Write)
    ensures w in ClassifyRules(h, g, e, rules) <==>
              exists rule :: rule in rules && !Overridden(g, e, rule.typeLabel) && w in RuleWrites(h, e, rule)
    decreases |rules|
  {
    hide RuleWrites, Overridden;
    if rules != [] {
      InClassify(h, g, e, rules[1..], w);
      if rule :| rule in rules && !Overridden(g, e, rule.typeLabel) && w in RuleWrites(h, e, rule) {
        assert rule == rules[0] || rule in rules[1..];
      }
    }
  }

  lemma GivesIs(h: Hass, g: G, rules: seq<Rule>, e: string, rule: Rule)
    requires IsSynced(h, e)
    ensures Gives(h, g, rules, e, rule) <==>
              rule in MatchingRules(rules, h.signals(e)) && !Overridden(g, e, rule.typeLabel)
  {
    MatchingExactly(rules, h.signals(e));
  }

  lemma LiesInIs(h: Hass, e: string)
    ensures forall a :: LiesIn(h, e, a) <==> Truthy(ResolveArea(h, e)) && a == ResolveArea(h, e).value
  {
  }

  lemma RuleMeant(h: Hass, g: G, rules: seq<Rule>, e: string, rule: Rule)
    requires Gives(h, g, rules, e, rule)
    ensures AllMeant(h, g, rules, RuleWrites(h, e, rule))
  {
    LiesInIs(h, e);
    hide Gives, LiesIn, ResolveArea;
    var t := rule.typeLabel;
    assert IsClassified(h, g, rules, e, t);
    forall w | w in RuleWrites(h, e, rule) ensures Meant(h, g, rules, w) {
      if w.MergeNode? {
        assert w.node == TypeNode(t) || w.node == AssetNode(e, t);
      } else if w.rel.kind == ClassifiedAs && w.rel.from == EntityKey(e) {
        assert w.rel == RelKey(EntityKey(e), ClassifiedAs, TypeNode(t));
      } else if w.rel == RelKey(AssetNode(e, t), rule.back, EntityKey(e)) {
      } else {
        assert w.rel == RelKey(AssetNode(e, t), LocatedIn, AreaKey(ResolveArea(h, e).value));
      }
    }
  }

  lemma ClassesMeant(h: Hass, g: G, rules: seq<Rule>)
    ensures AllMeant(h, g, rules, ClassifyWrites(h, g, rules))
  {
    hide RuleWrites, Meant, Overridden, Gives;
    SyncedIs(h);
    forall e | e in Synced(h) ensures AllMeant(h, g, rules, ClassifyEntity(h, g, rules, e)) {
      forall w | w in ClassifyEntity(h, g, rules, e) ensures Meant(h, g, rules, w) {
        InClassify(h, g, e, MatchingRules(rules, h.signals(e)), w);
        var rule :| rule in MatchingRules(rules, h.signals(e)) && !Overridden(g, e, rule.typeLabel) &&
                    w in RuleWrites(h, e, rule);
        GivesIs(h, g, rules, e, rule);
        RuleMeant(h, g, rules, e, rule);
      }
    }
    MeantFlat(h, g, rules, Synced(h), (e: string) => ClassifyEntity(h, g, rules, e));
  }

  lemma BeforeMeant(h: Hass, g: G, rules: seq<Rule>)
    ensures AllMeant(h, g, rules, BeforeDrops(h))
  {
    hide HomeAndFloors, FloorLinksAndAreas, AreaLinksAndDevices, DeviceLinksAndEntities, Meant;
    hide DomainRows, PlatformRows, DomainLinks, DeviceLinks;
    HomeMeant(h, g, rules);
    AreasMeant(h, g, rules);
    DevicesMeant(h, g, rules);
    DomainsMeant(h, g, rules);
    LinksMeant(h, g, rules);
  }

  lemma MeantAppend(h: Hass, g: G, rules: seq<Rule>, a: seq<Write>, b: seq<Write>)
    requires AllMeant(h, g, rules, a) && AllMeant(h, g, rules, b)
    ensures AllMeant(h, g, rules, a + b)
  {
    hide Meant;
  }

  lemma AllReferrersMeant(h: Hass, g: G, rules: seq<Rule>)
    ensures AllMeant(h, g, rules, AllReferrers(h))
  {
    hide Referrers, AllMeant;
    var a, b, c := Referrers(h, h.automations, Automation, References), Referrers(h, h.scenes, Scene, Controls),
                   Referrers(h, h.scripts, Script, References);
    ReferrersMeant(h, g, rules, h.automations, Automation, References);
    ReferrersMeant(h, g, rules, h.scenes, Scene, Controls);
    ReferrersMeant(h, g, rules, h.scripts, Script, References);
    MeantAppend(h, g, rules, b, c);
    MeantAppend(h, g, rules, a, b + c);
  }

  lemma AfterMeant(h: Hass, g: G, rules: seq<Rule>)
    ensures AllMeant(h, g, rules, AfterLinks(h, g, rules))
  {
    var schema := [EnsureSchema(SCHEMA_PROPS)];
    assert AllMeant(h, g, rules, schema);
    hide PlatformLinks, AllTagLinks, DomainRows, PlatformRows, AllReferrers, ClassifyWrites, AllMeant;
    DomainsMeant(h, g, rules);
    LinksMeant(h, g, rules);
    TagsMeant(h, g, rules);
    AllReferrersMeant(h, g, rules);
    ClassesMeant(h, g, rules);
    MeantAppend(h, g, rules, AllReferrers(h), schema);
    MeantAppend(h, g, rules, PlatformRows(h), AllReferrers(h) + schema);
    MeantAppend(h, g, rules, DomainRows(h), PlatformRows(h) + (AllReferrers(h) + schema));
    MeantAppend(h, g, rules, AllTagLinks(h), DomainRows(h) + (PlatformRows(h) + (AllReferrers(h) + schema)));
    MeantAppend(h, g, rules, PlatformLinks(h),
                AllTagLinks(h) + (DomainRows(h) + (PlatformRows(h) + (AllReferrers(h) + schema))));
    MeantAppend(h, g, rules, Rest(h), ClassifyWrites(h, g, rules));
  }

  /** Every row of a build but the drops is meant by the registries or by a rule. */
  lemma RowsMeant(h: Hass, g: G, rules: seq<Rule>)
    ensures forall w :: w in BuildMerges(h, g, rules) ==> Meant(h, g, rules, w)
    ensures forall w :: w in BuildWrites(h, g, rules) ==> w in BuildMerges(h, g, rules) || w.DropAreas?
  {
    hide BeforeDrops, AfterLinks, Meant, LinksOf, AreaLinks;
    BeforeMeant(h, g, rules);
    LinksMeant(h, g, rules);
    AfterMeant(h, g, rules);
    AreaLinksAre(h);
    forall w | w in Drops(Synced(h)) ensures w.DropAreas? { InFlatMap(Synced(h), (e: string) => [DropAreas(e)], w); }
  }

  // ---- ... and everything meant has its row --------------------------------------------------------

  lemma FloorsAndAreasHaveRows(h: Hass, r: RelKey)
    requires Asked(h, r) && r.kind in {HasFloor, HasArea, OnFloor, HasDevice}
    ensures RowOf(r) in BeforeDrops(h)
  {
    hide HomeAndFloors, EntityLinks, NodeRows, EntityRows;
    var a, b, w := r.from.id.text, r.to.id.text, RowOf(r);
    match r.kind
    case HasFloor =>
      InFlat(h.floors.ids, (f: string) => LinkRow(HOME, HasFloor, FloorKey(f)), b, w);
      assert w in FloorLinksAndAreas(h);
    case HasArea =>
      InFlat(h.areas.ids, (x: string) => LinkRow(HOME, HasArea, AreaKey(x)), b, w);
      assert w in AreaLinksAndDevices(h);
    case OnFloor =>
      InFlat(h.areas.ids, (x: string) => AreaFloorLink(h, x), a, w);
      assert w in AreaLinksAndDevices(h);
    case HasDevice =>
      InFlat(h.devices.ids, (d: string) => AreaDeviceLink(h, d), b, w);
      assert w in DeviceLinksAndEntities(h);
  }

  lemma EntityLinksHaveRows(h: Hass, g: G, rules: seq<Rule>, r: RelKey)
    requires Asked(h, r) && r.kind in {HasEntity, InDomain, ProvidedBy, HasLabel}
    ensures RowOf(r) in BuildMerges(h, g, rules)
  {
    hide HomeAndFloors, FloorLinksAndAreas, AreaLinksAndDevices, DeviceLinksAndEntities, NodeRows;
    hide ClassifyWrites, AllReferrers;
    SyncedIs(h);
    var a, b, w := r.from.id.text, r.to.id.text, RowOf(r);
    match r.kind
    case HasEntity =>
      InFlat(Synced(h), (e: string) => DeviceLink(h, e), b, w);
      assert w in EntityLinks(h);
      assert w in BeforeDrops(h);
    case InDomain =>
      InFlat(Synced(h), (e: string) => DomainLink(e), a, w);
      assert w in EntityLinks(h);
      assert w in BeforeDrops(h);
    case ProvidedBy =>
      InFlat(Synced(h), (e: string) => PlatformLink(h, e), a, w);
      assert w in Rest(h);
      assert w in AfterLinks(h, g, rules);
    case HasLabel =>
      InFlat(h.entries.items[a].tags, (t: string) => LinkRow(EntityKey(a), HasLabel, TagKey(t)), b, w);
      InFlat(Synced(h), (e: string) => TagLinks(h, e), a, w);
      assert w in Rest(h);
      assert w in AfterLinks(h, g, rules);
  }

  lemma ReferrersHaveRows(h: Hass, t: Table<Referrer>, lbl: Label, kind: RelType, id: string, e: string)
    requires RefersTo(t, id, e)
    ensures RowOf(RelKey(NodeKey(lbl, Plain(id)), kind, EntityKey(e))) in Referrers(h, t, lbl, kind)
  {
    hide NodeProps;
    var w := RowOf(RelKey(NodeKey(lbl, Plain(id)), kind, EntityKey(e)));
    InFlat(t.items[id].refers, (x: string) => LinkRow(Key(lbl, id), kind, EntityKey(x)), e, w);
    InFlat(t.ids, (x: string) => ReferrerRows(h, t, lbl, kind, x), id, w);
  }

  lemma ReferencesHaveRows(h: Hass, g: G, rules: seq<Rule>, r: RelKey)
    requires Asked(h, r) && r.kind in {References, Controls}
    ensures RowOf(r) in BuildMerges(h, g, rules)
  {
    hide BeforeDrops, PlatformLinks, AllTagLinks, DomainRows, PlatformRows, Referrers, ClassifyWrites;
    var a, b, w := r.from.id.text, r.to.id.text, RowOf(r);
    if r.from.lbl == Automation {
      ReferrersHaveRows(h, h.automations, Automation, References, a, b);
    } else if r.from.lbl == Scene {
      ReferrersHaveRows(h, h.scenes, Scene, Controls, a, b);
    } else {
      ReferrersHaveRows(h, h.scripts, Script, References, a, b);
    }
    assert w in AllReferrers(h);
    assert w in Rest(h);
    assert w in AfterLinks(h, g, rules);
  }

  /** Every relationship the registries ask for has its row. */
  lemma AskedHasRow(h: Hass, g: G, rules: seq<Rule>, r: RelKey)
    requires Asked(h, r) || AreaAsked(h, r)
    ensures RowOf(r) in BuildMerges(h, g, rules)
  {
    hide BeforeDrops, AfterLinks, LinksOf;
    if AreaAsked(h, r) {
      SyncedIs(h);
      hide Synced;
      InFlat(Synced(h), (e: string) => AreaLink(h, e), r.from.id.text, RowOf(r));
      AreaLinksAre(h);
    } else if r.kind in {HasFloor, HasArea, OnFloor, HasDevice} {
      FloorsAndAreasHaveRows(h, r);
    } else if r.kind in {References, Controls} {
      ReferencesHaveRows(h, g, rules, r);
    } else {
      EntityLinksHaveRows(h, g, rules, r);
    }
  }

  lemma ListedHasRow(h: Hass, g: G, rules: seq<Rule>, k: NodeKey)
    requires NodeAsked(h, k) && k.lbl in {Home, Floor, Area, Device, Tag}
    ensures MergeNode(k, NodeProps(h, k)) in BeforeDrops(h)
  {
    hide NodeProps, NodeRows, EntityLinks, EntityRows, AreaDeviceLinks, AreaFloorLinks, FloorLinks, HomeAreaLinks;
    var id, w := k.id.text, MergeNode(k, NodeProps(h, k));
    match k.lbl
    case Home => assert w in HomeAndFloors(h);
    case Floor =>
      NodeRowsHas(h, Floor, h.floors.ids, id);
      assert w in HomeAndFloors(h);
    case Area =>
      NodeRowsHas(h, Area, h.areas.ids, id);
      assert w in FloorLinksAndAreas(h);
    case Device =>
      NodeRowsHas(h, Device, h.devices.ids, id);
      assert w in AreaLinksAndDevices(h);
    case Tag =>
      NodeRowsHas(h, Tag, h.tags.ids, id);
      assert w in DeviceLinksAndEntities(h);
  }

  lemma DomainHasRow(h: Hass, g: G, rules: seq<Rule>, k: NodeKey)
    requires NodeAsked(h, k) && k.lbl in {Domain, Integration}
    ensures MergeNode(k, NodeProps(h, k)) in BeforeDrops(h)
  {
    hide NodeProps, NodeRows, HomeAndFloors, FloorLinksAndAreas, AreaLinksAndDevices, DeviceLinksAndEntities;
    hide DomainLinks, DeviceLinks;
    var id, w := k.id.text, MergeNode(k, NodeProps(h, k));
    SyncedIs(h);
    if k.lbl == Domain {
      var e :| IsSynced(h, e) && DomainOf(e) == id;
      InFlatMap(Synced(h), (x: string) => [DomainOf(x)], id);
      assert id in [DomainOf(e)];
      NodeRowsHas(h, Domain, Domains(h), id);
    } else {
      var e :| IsSynced(h, e) && e in h.entries.items && h.entries.items[e].platform == id;
      InFlatMap(Synced(h), (x: string) => PlatformOf(h, x), id);
      assert id in PlatformOf(h, e);
      NodeRowsHas(h, Integration, Platforms(h), id);
    }
    assert w in EntityLinks(h);
  }

  lemma ReferrerHasRow(h: Hass, g: G, rules: seq<Rule>, k: NodeKey)
    requires NodeAsked(h, k) && k.lbl in {Automation, Scene, Script}
    ensures MergeNode(k, NodeProps(h, k)) in AfterLinks(h, g, rules)
  {
    hide NodeProps, PlatformLinks, AllTagLinks, DomainRows, PlatformRows, ClassifyWrites;
    var id, w := k.id.text, MergeNode(k, NodeProps(h, k));
    if k.lbl == Automation {
      InFlat(h.automations.ids, (x: string) => ReferrerRows(h, h.automations, Automation, References, x), id, w);
    } else if k.lbl == Scene {
      InFlat(h.scenes.ids, (x: string) => ReferrerRows(h, h.scenes, Scene, Controls, x), id, w);
    } else {
      InFlat(h.scripts.ids, (x: string) => ReferrerRows(h, h.scripts, Script, References, x), id, w);
    }
    assert w in AllReferrers(h);
    assert w in Rest(h);
  }

  // The row that creates or updates a node.
  function NodeRowOf(h: Hass, k: NodeKey): Write {
    if k.lbl == Entity && k.id.Plain?
    then MergeEntity(k.id.text, BaseProps(h, k.id.text, None), MeasurementProps(h, k.id.text, None))
    else MergeNode(k, NodeProps(h, k))
  }

  /** Every node the registries ask for has its row. */
  lemma NodeHasRow(h: Hass, g: G, rules: seq<Rule>, k: NodeKey)
    requires NodeAsked(h, k)
    ensures NodeRowOf(h, k) in BuildMerges(h, g, rules)
  {
    hide BeforeDrops, AfterLinks, LinksOf, NodeProps, BaseProps, MeasurementProps;
    if k.lbl == Entity {
      EntityHasRow(h, k.id.text);
    } else if k.lbl in {Home, Floor, Area, Device, Tag} {
      ListedHasRow(h, g, rules, k);
    } else if k.lbl in {Domain, Integration} {
      DomainHasRow(h, g, rules, k);
    } else {
      ReferrerHasRow(h, g, rules, k);
    }
  }

  lemma EntityHasRow(h: Hass, e: string)
    requires IsSynced(h, e)
    ensures NodeRowOf(h, NodeKey(Entity, Plain(e))) in BeforeDrops(h)
  {
    hide HomeAndFloors, FloorLinksAndAreas, AreaLinksAndDevices, EntityLinks, AreaDeviceLinks, NodeRows;
    hide BaseProps, MeasurementProps;
    SyncedIs(h);
    var w := NodeRowOf(h, NodeKey(Entity, Plain(e)));
    InFlat(Synced(h), (x: string) => EntityRow(h, x), e, w);
    assert w in DeviceLinksAndEntities(h);
  }

  lemma RuleHasRows(h: Hass, g: G, rules: seq<Rule>, e: string, rule: Rule, w: Write)
    requires Gives(h, g, rules, e, rule) && w in RuleWrites(h, e, rule)
    ensures w in BuildMerges(h, g, rules)
  {
    GivesIs(h, g, rules, e, rule);
    hide BeforeDrops, Rest, LinksOf, RuleWrites, Gives, Overridden;
    SyncedIs(h);
    assert IsSynced(h, e) by { GivesSynced(h, g, rules, e, rule); }
    InClassify(h, g, e, MatchingRules(rules, h.signals(e)), w);
    InFlat(Synced(h), (x: string) => ClassifyEntity(h, g, rules, x), e, w);
    assert w in AfterLinks(h, g, rules);
  }

  lemma GivesSynced(h: Hass, g: G, rules: seq<Rule>, e: string, rule: Rule)
    requires Gives(h, g, rules, e, rule)
    ensures IsSynced(h, e)
  {
  }

  // ---- What rows leave -----------------------------------------------------------------------------

  predicate BuildRow(w: Write) { Merge(w) || w.DropAreas? }

  function Applied(w: Write, p: Props): Props {
    if w.MergeNode? then Plus(p, w.props) else if w.MergeEntity? then Measured(p, w.props, w.measurement) else p
  }

  lemma NodeOneRow(g: G, w: Write, k: NodeKey)
    requires BuildRow(w) && !(w.EnsureSchema? && k == SCHEMA)
    ensures var after := Exec(g, w);
            if NodeWrite(w) && TargetOf(w) == k then k in after.nodes && after.nodes[k] == Applied(w, NodeOr(g, k))
            else SameNode(g, after, k)
  {
  }

  lemma AppliedTwice(w: Write, p: Props)
    requires w.MergeNode? || w.MergeEntity?
    ensures Applied(w, Applied(w, p)) == Applied(w, p)
  {
    if w.MergeNode? { PlusTwice(p, w.props); } else { MeasuredTwice(p, w.props, w.measurement); }
  }

  /** When all the rows for a node are one and the same, the node is as that row leaves it. */
  lemma {:induction false} NodeAfter(g: G, ws: seq<Write>, k: NodeKey, v: Write)
    requires v.MergeNode? || v.MergeEntity?
    requires forall w :: w in ws ==> BuildRow(w) && (NodeWrite(w) && TargetOf(w) == k ==> w == v)
    requires k != SCHEMA && TargetOf(v) == k
    ensures var after := ExecAll(g, ws);
            if v in ws then k in after.nodes && after.nodes[k] == Applied(v, NodeOr(g, k)) else SameNode(g, after, k)
    decreases |ws|
  {
    if ws != [] {
      hide Exec, Applied, BuildRow;
      assert ws[0] in ws;
      NodeOneRow(g, ws[0], k);
      var g1 := Exec(g, ws[0]);
      NodeAfter(g1, ws[1..], k, v);
      AppliedTwice(v, NodeOr(g, k));
      assert v in ws <==> v == ws[0] || v in ws[1..];
      if !(NodeWrite(ws[0]) && TargetOf(ws[0]) == k) { assert ws[0] != v; }
    }
  }

  /** A node no row is for stays as it was. */
  lemma {:induction false} NodeUntouched(g: G, ws: seq<Write>, k: NodeKey)
    requires forall w :: w in ws ==> BuildRow(w) && !(NodeWrite(w) && TargetOf(w) == k)
    ensures SameNode(g, ExecAll(g, ws), k)
    decreases |ws|
  {
    if ws != [] {
      hide Exec, BuildRow;
      assert ws[0] in ws;
      NodeOneRow(g, ws[0], k);
      NodeUntouched(Exec(g, ws[0]), ws[1..], k);
    }
  }

  lemma RelOneRow(g: G, w: Write, r: RelKey)
    requires BuildRow(w) && !IsArea(r)
    ensures var after := Exec(g, w);
            if w.MergeRel? && w.rel == r && HasEnds(g, r)
            then r in after.rels && after.rels[r] == Plus(RelOr(g, r), w.props)
            else SameRel(g, after, r)
  {
  }

  /** When all the rows for a relationship are one and the same: what there was stays, at most restamped, and
      what there was not comes from the row. */
  lemma {:induction false} RelAfter(g: G, ws: seq<Write>, r: RelKey, p: Props)
    requires forall w :: w in ws ==> BuildRow(w) && (w.MergeRel? && w.rel == r ==> w.props == p)
    requires !IsArea(r)
    ensures var after := ExecAll(g, ws);
            (r in g.rels ==> r in after.rels) && (r in after.rels && r !in g.rels ==> MergeRel(r, p) in ws) &&
            (RelOr(after, r) == RelOr(g, r) || RelOr(after, r) == Plus(RelOr(g, r), p)) &&
            (MergeRel(r, p) !in ws ==> SameRel(g, after, r))
    decreases |ws|
  {
    if ws != [] {
      hide Exec, BuildRow;
      assert ws[0] in ws;
      RelOneRow(g, ws[0], r);
      RelAfter(Exec(g, ws[0]), ws[1..], r, p);
      PlusTwice(RelOr(g, r), p);
      assert MergeRel(r, p) in ws <==> MergeRel(r, p) == ws[0] || MergeRel(r, p) in ws[1..];
    }
  }

  // ---- The build ------------------------------------------------------------------------------------

  lemma RowShapes(h: Hass, g: G, rules: seq<Rule>)
    requires RulesOk(rules)
    ensures forall w :: w in BuildWrites(h, g, rules) ==>
              BuildRow(w) && (Merge(w) ==> Canonical(h, w) && w in BuildMerges(h, g, rules) && Meant(h, g, rules, w))
    ensures forall w :: w in BuildMerges(h, g, rules) ==> w in BuildWrites(h, g, rules)
  {
    hide BeforeDrops, AfterLinks, LinksOf, AreaLinks, FullBuild, Meant, Canonical;
    RowsMeant(h, g, rules);
    BuildSettles(h, g, rules);
    AreaLinksAre(h);
    forall w | w in BuildMerges(h, g, rules) ensures Canonical(h, w) && Merge(w) {
      SettledCanonical(h, FullBuild(h, g, rules), BuildMerges(h, g, rules), w);
    }
  }

  lemma SettledCanonical(h: Hass, g: G, done: set<Write>, w: Write)
    requires Settled(h, g, done, {}) && w in done
    ensures Canonical(h, w) && Merge(w)
  {
  }

  lemma BuiltClosed(h: Hass, g: G, rules: seq<Rule>)
    requires Closed(g)
    ensures Closed(FullBuild(h, g, rules))
  {
    hide BuildWrites;
    ExecAllClosed(g, BuildWrites(h, g, rules));
    BuildIsExec(h, g, rules);
  }

  lemma NodeBuilt(h: Hass, g: G, rules: seq<Rule>, k: NodeKey, v: Write)
    requires RulesOk(rules) && v in BuildMerges(h, g, rules) && NodeWrite(v) && TargetOf(v) == k && k != SCHEMA
    ensures var f := FullBuild(h, g, rules); k in f.nodes && f.nodes[k] == Applied(v, NodeOr(g, k))
  {
    hide BuildWrites, BuildMerges, Meant, Applied, Canonical;
    RowShapes(h, g, rules);
    BuildIsExec(h, g, rules);
    forall w | w in BuildWrites(h, g, rules) && NodeWrite(w) && TargetOf(w) == k ensures w == v {
      CanonicalUnique(h, w, v);
    }
    NodeAfter(g, BuildWrites(h, g, rules), k, v);
  }

  lemma NodeNotBuilt(h: Hass, g: G, rules: seq<Rule>, k: NodeKey)
    requires RulesOk(rules) && !NodeAsked(h, k) && !ClassNode(h, g, rules, k) && k != SCHEMA
    ensures SameNode(g, FullBuild(h, g, rules), k)
  {
    hide BuildWrites, BuildMerges, NodeAsked, ClassNode, Canonical, Asked, ClassRel;
    RowShapes(h, g, rules);
    BuildIsExec(h, g, rules);
    forall w | w in BuildWrites(h, g, rules) ensures !(NodeWrite(w) && TargetOf(w) == k) {
      if NodeWrite(w) && TargetOf(w) == k && w.MergeEntity? { EntityIsAsked(h, w.entity); }
    }
    NodeUntouched(g, BuildWrites(h, g, rules), k);
  }

  lemma EntityIsAsked(h: Hass, e: string)
    ensures NodeAsked(h, EntityKey(e)) <==> IsSynced(h, e)
  {
  }

  lemma RuleNodeRows(h: Hass, e: string, rule: Rule)
    ensures var a, b := TypeNode(rule.typeLabel), AssetNode(e, rule.typeLabel);
            MergeNode(a, NodeProps(h, a)) in RuleWrites(h, e, rule) &&
            MergeNode(b, NodeProps(h, b)) in RuleWrites(h, e, rule)
  {
    hide ResolveArea;
    var ws := RuleWrites(h, e, rule);
    var a, b := TypeNode(rule.typeLabel), AssetNode(e, rule.typeLabel);
    assert ws[0] == MergeNode(a, NodeProps(h, a));
    assert ws[2] == MergeNode(b, NodeProps(h, b));
  }

  lemma ClassNodeHasRow(h: Hass, g: G, rules: seq<Rule>, k: NodeKey)
    requires ClassNode(h, g, rules, k)
    ensures k.lbl == SemanticType || k.lbl.Typed?
    ensures MergeNode(k, NodeProps(h, k)) in BuildMerges(h, g, rules)
  {
    hide BuildMerges, Gives, ResolveArea;
    var e, t :| IsClassified(h, g, rules, e, t) && (k == TypeNode(t) || k == AssetNode(e, t));
    var rule :| Gives(h, g, rules, e, rule) && rule.typeLabel == t;
    RuleNodeRows(h, e, rule);
    hide RuleWrites, NodeProps;
    RuleHasRows(h, g, rules, e, rule, MergeNode(k, NodeProps(h, k)));
  }

  // The schema node and energy-role assignments are not about the home.
  predicate HomeLabel(lbl: Label) { lbl != RoleAssignment && lbl != Schema }

  /** Nodes after a build: those there were, those the registries ask for, and those of classified entities. */
  lemma NodesExactly(h: Hass, g: G, rules: seq<Rule>, k: NodeKey)
    requires RulesOk(rules) && HomeLabel(k.lbl)
    ensures k in FullBuild(h, g, rules).nodes <==> k in g.nodes || NodeAsked(h, k) || ClassNode(h, g, rules, k)
  {
    hide FullBuild, BuildMerges, NodeAsked, ClassNode, Applied, NodeProps, BaseProps, MeasurementProps;
    if NodeAsked(h, k) {
      NodeHasRow(h, g, rules, k);
      NodeBuilt(h, g, rules, k, NodeRowOf(h, k));
    } else if ClassNode(h, g, rules, k) {
      ClassNodeHasRow(h, g, rules, k);
      NodeBuilt(h, g, rules, k, MergeNode(k, NodeProps(h, k)));
    } else {
      NodeNotBuilt(h, g, rules, k);
    }
  }

  lemma NamedAndIconStored(h: Hass, k: NodeKey, before: Props, p: Props)
    requires p == Plus(before, NodeProps(h, k)) && k.id.Plain? && k.lbl in {Home, Floor, Area, Device, Tag}
    ensures DetailsStored(h, k, p)
  {
    var given := NodeProps(h, k);
    PlusAt(before, given, PName);
    PlusAt(before, given, PIcon);
    PlusAt(before, given, PLevel);
    PlusAt(before, given, PManufacturer);
    PlusAt(before, given, PModel);
    PlusAt(before, given, PColor);
    hide Plus;
  }

  lemma NamedStored(h: Hass, k: NodeKey, before: Props, p: Props)
    requires p == Plus(before, NodeProps(h, k)) && k.id.Plain? && k.lbl !in {Home, Floor, Area, Device, Tag}
    requires RegistryLabel(k.lbl)
    ensures DetailsStored(h, k, p)
  {
    PlusAt(before, NodeProps(h, k), PName);
    hide Plus;
  }

  lemma NodePropsOf(h: Hass, k: NodeKey)
    requires k.id.Plain? && RegistryLabel(k.lbl)
    ensures var given := NodeProps(h, k);
            given.Keys <= SetProps(k.lbl) + {PSource} && PSource in given && given[PSource] == From(HomeAssistant)
  {
  }

  lemma RowStores(h: Hass, k: NodeKey, before: Props)
    requires k.id.Plain? && RegistryLabel(k.lbl) && k.lbl != Entity
    ensures NodeStored(h, k, before, Plus(before, NodeProps(h, k)))
  {
    hide DetailsStored, Plus;
    var p := Plus(before, NodeProps(h, k));
    if k.lbl in {Home, Floor, Area, Device, Tag} {
      NamedAndIconStored(h, k, before, p);
    } else {
      NamedStored(h, k, before, p);
    }
    NodePropsOf(h, k);
    hide NodeProps;
    PlusAt(before, NodeProps(h, k), PSource);
    forall q | q != PSource && q !in SetProps(k.lbl) ensures SameProp(before, p, q) {
      PlusAt(before, NodeProps(h, k), q);
    }
  }

  lemma AskedLabel(h: Hass, k: NodeKey)
    requires NodeAsked(h, k)
    ensures k.id.Plain? && RegistryLabel(k.lbl)
  {
  }

  /** Every node the registries ask for has, after a build, the properties they say, and keeps any other. */
  lemma NodePropsExactly(h: Hass, g: G, rules: seq<Rule>, k: NodeKey)
    requires RulesOk(rules) && NodeAsked(h, k)
    ensures var f := FullBuild(h, g, rules);
            k.id.Plain? && k in f.nodes && NodeStored(h, k, NodeOr(g, k), f.nodes[k])
  {
    AskedLabel(h, k);
    hide FullBuild, BuildMerges, EntityStored, DetailsStored, Plus, NodeAsked, Measured;
    NodeHasRow(h, g, rules, k);
    NodeBuilt(h, g, rules, k, NodeRowOf(h, k));
    if k.lbl == Entity {
      WriteStores(h, k.id.text, None, NodeOr(g, k));
    } else {
      hide NodeStored;
      RowStores(h, k, NodeOr(g, k));
    }
  }

  predicate NamedBy(p: Props, name: string, source: Source) {
    HoldsText(p, PName, Some(name)) && PSource in p && p[PSource] == From(source)
  }

  /** A classified entity has an asset under its friendly name, and its type is there. */
  lemma ClassNodePropsExactly(h: Hass, g: G, rules: seq<Rule>, e: string, t: string)
    requires RulesOk(rules) && IsClassified(h, g, rules, e, t)
    ensures var f, a := FullBuild(h, g, rules), AssetNode(e, t);
            a in f.nodes && NamedBy(f.nodes[a], h.signals(e).friendlyName, Inferred) &&
            TypeNode(t) in f.nodes && NamedBy(f.nodes[TypeNode(t)], t, Generated)
  {
    hide FullBuild, BuildMerges, IsClassified, Plus;
    var a, b := AssetNode(e, t), TypeNode(t);
    assert ClassNode(h, g, rules, a) && ClassNode(h, g, rules, b);
    ClassNodeHasRow(h, g, rules, a);
    ClassNodeHasRow(h, g, rules, b);
    NodeBuilt(h, g, rules, a, MergeNode(a, NodeProps(h, a)));
    NodeBuilt(h, g, rules, b, MergeNode(b, NodeProps(h, b)));
    PlusAt(NodeOr(g, a), NodeProps(h, a), PName);
    PlusAt(NodeOr(g, a), NodeProps(h, a), PSource);
    PlusAt(NodeOr(g, b), NodeProps(h, b), PName);
    PlusAt(NodeOr(g, b), NodeProps(h, b), PSource);
  }

  // ---- Relationships ---------------------------------------------------------------------------------

  lemma ClassRelHasRow(h: Hass, g: G, rules: seq<Rule>, r: RelKey)
    requires ClassRel(h, g, rules, r) && RulesOk(rules)
    ensures MergeRel(r, Sourced(Inferred)) in BuildMerges(h, g, rules)
    ensures r.kind.ClassifiedAs? || r.kind.LocatedIn? || r.kind.Named?
  {
    hide BuildMerges, LiesIn;
    var w := MergeRel(r, Sourced(Inferred));
    if e, t :| IsClassified(h, g, rules, e, t) && r == RelKey(EntityKey(e), ClassifiedAs, TypeNode(t)) {
      var rule :| Gives(h, g, rules, e, rule) && rule.typeLabel == t;
      assert RuleWrites(h, e, rule)[1] == w;
      RuleHasRows(h, g, rules, e, rule, w);
    } else if e, rule :| Gives(h, g, rules, e, rule) &&
                         r == RelKey(AssetNode(e, rule.typeLabel), rule.back, EntityKey(e)) {
      assert RuleWrites(h, e, rule)[3] == w;
      RuleHasRows(h, g, rules, e, rule, w);
    } else {
      var e, t, a :| IsClassified(h, g, rules, e, t) && LiesIn(h, e, a) &&
                     r == RelKey(AssetNode(e, t), LocatedIn, AreaKey(a));
      var rule :| Gives(h, g, rules, e, rule) && rule.typeLabel == t;
      LiesInIs(h, e);
      assert RuleWrites(h, e, rule)[4] == w;
      RuleHasRows(h, g, rules, e, rule, w);
    }
  }

  predicate HomeRel(r: RelKey) { r.kind != OverrideOf && r.kind != AssignsRoleTo && !IsArea(r) }

  lemma RelBuilt(h: Hass, g: G, rules: seq<Rule>, r: RelKey, p: Props)
    requires RulesOk(rules) && !IsArea(r) && MergeRel(r, p) in BuildMerges(h, g, rules)
    ensures var f := FullBuild(h, g, rules);
            if HasEnds(f, r) then r in f.rels && f.rels[r] == Plus(RelOr(g, r), p)
            else r in f.rels <==> r in g.rels
  {
    hide BuildWrites, BuildMerges, Meant, Canonical, Settled, FullBuild;
    var f, u := FullBuild(h, g, rules), MergeRel(r, p);
    RowShapes(h, g, rules);
    BuildIsExec(h, g, rules);
    forall w | w in BuildWrites(h, g, rules) && w.MergeRel? && w.rel == r ensures w.props == p {
      CanonicalUnique(h, w, u);
    }
    RelAfter(g, BuildWrites(h, g, rules), r, p);
    BuildSettles(h, g, rules);
    SettledDone(h, f, BuildMerges(h, g, rules), u);
    if HasEnds(f, r) {
      assert r in Exec(f, u).rels && f.rels[r] == Plus(RelOr(f, r), p);
    } else {
      NoEndsNoNewRel(g, BuildWrites(h, g, rules), r);
    }
  }

  lemma {:induction false} NoEndsNoNewRel(g: G, ws: seq<Write>, r: RelKey)
    requires (forall w :: w in ws ==> BuildRow(w)) && !HasEnds(ExecAll(g, ws), r)
    ensures r in ExecAll(g, ws).rels ==> r in g.rels
    ensures g.nodes.Keys <= ExecAll(g, ws).nodes.Keys
    decreases |ws|
  {
    if ws != [] {
      assert ws[0] in ws;
      NoEndsNoNewRel(Exec(g, ws[0]), ws[1..], r);
    }
  }

  lemma NotMeant(h: Hass, g: G, rules: seq<Rule>, w: Write)
    requires w.MergeRel? && HomeRel(w.rel) && !Asked(h, w.rel) && !ClassRel(h, g, rules, w.rel)
    ensures !Meant(h, g, rules, w)
  {
  }

  lemma RelNotBuilt(h: Hass, g: G, rules: seq<Rule>, r: RelKey)
    requires RulesOk(rules) && HomeRel(r) && !Asked(h, r) && !ClassRel(h, g, rules, r)
    ensures SameRel(g, FullBuild(h, g, rules), r)
  {
    hide BuildWrites, BuildMerges, Canonical, Asked, ClassRel, NodeAsked, ClassNode, Meant;
    RowShapes(h, g, rules);
    BuildIsExec(h, g, rules);
    var p: Props := map[];
    forall w | w in BuildWrites(h, g, rules) ensures !(w.MergeRel? && w.rel == r) {
      if w.MergeRel? && w.rel == r { NotMeant(h, g, rules, w); }
    }
    RelAfter(g, BuildWrites(h, g, rules), r, p);
  }

  /** A relationship stamped with a source: its other properties are as before. */
  ghost predicate StampedBy(before: Props, p: Props, source: Source) {
    PSource in p && p[PSource] == From(source) && forall q :: q != PSource ==> SameProp(before, p, q)
  }

  lemma StampedIs(before: Props, source: Source)
    ensures StampedBy(before, Plus(before, Sourced(source)), source)
  {
    var p := Plus(before, Sourced(source));
    PlusAt(before, Sourced(source), PSource);
    forall q | q != PSource ensures SameProp(before, p, q) { PlusAt(before, Sourced(source), q); }
  }

  /** Relationships after a build, entities' areas aside: those there were, and with both ends there those the
      registries ask for, stamped home_assistant, and those of classified entities, stamped inferred. */
  lemma RelsExactly(h: Hass, g: G, rules: seq<Rule>, r: RelKey)
    requires RulesOk(rules) && Closed(g) && HomeRel(r)
    ensures var f := FullBuild(h, g, rules);
            (r in f.rels <==> r in g.rels || ((Asked(h, r) || ClassRel(h, g, rules, r)) && HasEnds(f, r))) &&
            (Asked(h, r) && r in f.rels ==> StampedBy(RelOr(g, r), f.rels[r], HomeAssistant)) &&
            (ClassRel(h, g, rules, r) && r in f.rels ==> StampedBy(RelOr(g, r), f.rels[r], Inferred)) &&
            (!Asked(h, r) && !ClassRel(h, g, rules, r) ==> SameRel(g, f, r))
  {
    hide FullBuild, BuildMerges, Asked, ClassRel, IsArea;
    BuiltClosed(h, g, rules);
    if ClassRel(h, g, rules, r) {
      ClassRelHasRow(h, g, rules, r);
      NotAskedToo(h, r);
      RelBuilt(h, g, rules, r, Sourced(Inferred));
      StampedIs(RelOr(g, r), Inferred);
    } else if Asked(h, r) {
      AskedHasRow(h, g, rules, r);
      RelBuilt(h, g, rules, r, Sourced(HomeAssistant));
      StampedIs(RelOr(g, r), HomeAssistant);
    } else {
      RelNotBuilt(h, g, rules, r);
    }
  }

  lemma NotAskedToo(h: Hass, r: RelKey)
    requires r.kind.ClassifiedAs? || r.kind.LocatedIn? || r.kind.Named?
    ensures !Asked(h, r)
  {
  }

  // ---- Entities' areas -------------------------------------------------------------------------------

  lemma WantedIsAsked(h: Hass, r: RelKey)
    ensures Wanted(h, Synced(h), r) <==> AreaAsked(h, r)
  {
    SyncedIs(h);
    hide Synced;
    if AreaAsked(h, r) { assert HaRel(r.from, r.kind, r.to) in AreaLink(h, r.from.id.text); }
  }

  /** An area edge of a synced entity that Home Assistant had asserted: a build replaces these. */
  predicate OwnAreaEdge(h: Hass, g: G, r: RelKey) {
    r in g.rels && r.from.id.Plain? && IsSynced(h, r.from.id.text) && r.to.lbl == Area &&
    PSource in g.rels[r] && g.rels[r][PSource] == From(HomeAssistant)
  }

  /** Entities' areas after a build: what the registry says, and what others had asserted. */
  lemma AreasExactly(h: Hass, g: G, rules: seq<Rule>, r: RelKey)
    requires RulesOk(rules) && Closed(g) && IsArea(r)
    ensures var f := FullBuild(h, g, rules);
            (r in f.rels <==>
               (AreaAsked(h, r) && HasEnds(f, r)) || (!AreaAsked(h, r) && r in g.rels && !OwnAreaEdge(h, g, r))) &&
            (AreaAsked(h, r) && r in f.rels ==> SourceOf(f.rels[r]) == HomeAssistant) &&
            (!AreaAsked(h, r) && r in f.rels ==> f.rels[r] == g.rels[r])
  {
    hide FullBuild, BeforeDrops, LinksOf, AreaAsked, Wanted;
    var f := FullBuild(h, g, rules);
    WantedIsAsked(h, r);
    if AreaAsked(h, r) {
      WantedAfterBuild(h, g, rules, r);
    } else {
      AreasAfterBuild(h, g, rules, r);
      LinksAre(h, AtDrops(h, g), Synced(h));
      assert SameRel(AtDrops(h, g), AtLinks(h, g), r);
      SyncedIs(h);
    }
  }

  // ---- All of it ---------------------------------------------------------------------------------------

  ghost predicate NodesMirror(h: Hass, g: G, rules: seq<Rule>, f: G) {
    (forall k: NodeKey :: HomeLabel(k.lbl) ==>
       (k in f.nodes <==> k in g.nodes || NodeAsked(h, k) || ClassNode(h, g, rules, k))) &&
    (forall k :: NodeAsked(h, k) ==> k in f.nodes && NodeStored(h, k, NodeOr(g, k), f.nodes[k])) &&
    (forall e, t :: IsClassified(h, g, rules, e, t) ==>
       AssetNode(e, t) in f.nodes && NamedBy(f.nodes[AssetNode(e, t)], h.signals(e).friendlyName, Inferred))
  }

  ghost predicate RelMirrors(h: Hass, g: G, rules: seq<Rule>, f: G, r: RelKey) {
    if IsArea(r) then
      (r in f.rels <==>
         (AreaAsked(h, r) && HasEnds(f, r)) || (!AreaAsked(h, r) && r in g.rels && !OwnAreaEdge(h, g, r))) &&
      (AreaAsked(h, r) && r in f.rels ==> SourceOf(f.rels[r]) == HomeAssistant) &&
      (!AreaAsked(h, r) && r in f.rels ==> f.rels[r] == g.rels[r])
    else
      (r in f.rels <==> r in g.rels || ((Asked(h, r) || ClassRel(h, g, rules, r)) && HasEnds(f, r))) &&
      (Asked(h, r) && r in f.rels ==> StampedBy(RelOr(g, r), f.rels[r], HomeAssistant)) &&
      (ClassRel(h, g, rules, r) && r in f.rels ==> StampedBy(RelOr(g, r), f.rels[r], Inferred)) &&
      (!Asked(h, r) && !ClassRel(h, g, rules, r) ==> SameRel(g, f, r))
  }

  ghost predicate RelsMirror(h: Hass, g: G, rules: seq<Rule>, f: G) {
    forall r: RelKey :: r.kind != OverrideOf && r.kind != AssignsRoleTo ==> RelMirrors(h, g, rules, f, r)
  }

  /** After a build the graph mirrors the home: nodes, relationships and their properties are those there were,
      those the registries ask for and those of classified entities. */
  lemma BuildMirrors(h: Hass, g: G, rules: seq<Rule>)
    requires RulesOk(rules) && Closed(g)
    ensures NodesMirror(h, g, rules, FullBuild(h, g, rules)) && RelsMirror(h, g, rules, FullBuild(h, g, rules))
  {
    hide FullBuild, Asked, AreaAsked, ClassRel, NodeAsked, ClassNode, NodeStored, IsClassified, OwnAreaEdge;
    hide StampedBy, NamedBy, IsArea;
    var f := FullBuild(h, g, rules);
    forall k: NodeKey | HomeLabel(k.lbl)
      ensures k in f.nodes <==> k in g.nodes || NodeAsked(h, k) || ClassNode(h, g, rules, k)
    {
      NodesExactly(h, g, rules, k);
    }
    forall k | NodeAsked(h, k) ensures k.id.Plain? && k in f.nodes && NodeStored(h, k, NodeOr(g, k), f.nodes[k]) {
      NodePropsExactly(h, g, rules, k);
    }
    forall e, t | IsClassified(h, g, rules, e, t)
      ensures AssetNode(e, t) in f.nodes && NamedBy(f.nodes[AssetNode(e, t)], h.signals(e).friendlyName, Inferred)
    {
      ClassNodePropsExactly(h, g, rules, e, t);
    }
    forall r: RelKey | r.kind != OverrideOf && r.kind != AssignsRoleTo ensures RelMirrors(h, g, rules, f, r) {
      if IsArea(r) { AreasExactly(h, g, rules, r); } else { RelsExactly(h, g, rules, r); }
    }
  }

  /** The schema node is created with the schema's version, and otherwise left alone. */
  lemma SchemaExactly(h: Hass, g: G, rules: seq<Rule>)
    requires RulesOk(rules)
    ensures var f, k := FullBuild(h, g, rules), NodeKey(Schema, Plain("home_assistant_ontology"));
            k in f.nodes &&
            if k in g.nodes then f.nodes[k] == g.nodes[k] else HoldsText(f.nodes[k], PVersion, Some("3.4.0"))
  {
    hide BuildWrites, BuildMerges, Meant, Canonical, FullBuild, BeforeDrops, LinksOf, ClassifyWrites;
    RowShapes(h, g, rules);
    BuildIsExec(h, g, rules);
    forall w | w in BuildWrites(h, g, rules) ensures BuildRow(w) && (SchemaRow(w) ==> w == EnsureSchema(SCHEMA_PROPS)) {
      if SchemaRow(w) { OnlySchema(h, w); }
    }
    SchemaAfter(g, BuildWrites(h, g, rules));
    SchemaHasRow(h, g, rules);
  }

  predicate SchemaRow(w: Write) { NodeWrite(w) && TargetOf(w) == SCHEMA }

  lemma OnlySchema(h: Hass, w: Write)
    requires Canonical(h, w) && SchemaRow(w)
    ensures w == EnsureSchema(SCHEMA_PROPS)
  {
  }

  lemma SchemaHasRow(h: Hass, g: G, rules: seq<Rule>)
    ensures EnsureSchema(SCHEMA_PROPS) in BuildMerges(h, g, rules)
  {
    hide BeforeDrops, LinksOf, ClassifyWrites, PlatformLinks, AllTagLinks, DomainRows, PlatformRows, AllReferrers;
    assert EnsureSchema(SCHEMA_PROPS) in Rest(h);
    assert EnsureSchema(SCHEMA_PROPS) in AfterLinks(h, g, rules);
  }

  lemma {:induction false} SchemaAfter(g: G, ws: seq<Write>)
    requires forall w :: w in ws ==> BuildRow(w) && (SchemaRow(w) ==> w == EnsureSchema(SCHEMA_PROPS))
    ensures var f := ExecAll(g, ws);
            (SCHEMA in g.nodes ==> SCHEMA in f.nodes && f.nodes[SCHEMA] == g.nodes[SCHEMA]) &&
            (SCHEMA !in g.nodes && SCHEMA in f.nodes ==> f.nodes[SCHEMA] == Plus(map[], SCHEMA_PROPS)) &&
            (EnsureSchema(SCHEMA_PROPS) in ws ==> SCHEMA in f.nodes)
    decreases |ws|
  {
    if ws != [] {
      assert ws[0] in ws;
      SchemaOneRow(g, ws[0]);
      hide Exec, BuildRow, SchemaRow;
      SchemaAfter(Exec(g, ws[0]), ws[1..]);
    }
  }

  lemma SchemaOneRow(g: G, w: Write)
    requires BuildRow(w) && (SchemaRow(w) ==> w == EnsureSchema(SCHEMA_PROPS))
    ensures var f := Exec(g, w);
            (SCHEMA in g.nodes ==> SCHEMA in f.nodes && f.nodes[SCHEMA] == g.nodes[SCHEMA]) &&
            (SCHEMA !in g.nodes && SCHEMA in f.nodes ==> f.nodes[SCHEMA] == Plus(map[], SCHEMA_PROPS)) &&
            (w == EnsureSchema(SCHEMA_PROPS) ==> SCHEMA in f.nodes)
  {
  }
}
