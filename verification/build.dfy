/** The full build: every row it writes, in order, from the registries and the rule table. */
module Build {
  import opened Graph
  import opened Registry
  import opened Semantics

  function FlatMap<T>(ids: seq<string>, f: string -> seq<T>): seq<T> {
    if ids == [] then [] else f(ids[0]) + FlatMap(ids[1..], f)
  }

  lemma {:induction false} InFlatMap<T>(ids: seq<string>, f: string -> seq<T>, x: T)
    ensures x in FlatMap(ids, f) <==> exists id :: id in ids && x in f(id)
    decreases |ids|
  {
    if ids != [] {
      InFlatMap(ids[1..], f, x);
      if exists id :: id in ids && x in f(id) {
        var id :| id in ids && x in f(id);
        assert id == ids[0] || id in ids[1..];
      }
    }
  }

  function FloorKey(f: string): NodeKey { NodeKey(Floor, Plain(f)) }
  function Key(lbl: Label, id: string): NodeKey { NodeKey(lbl, Plain(id)) }

  // ---- What the registry says a node's properties are -----------------------------

  function Fallback(): Props { map[PSource := From(HomeAssistant)] }

  function FloorProps(f: FloorEntry): Props {
    map[PName := Text(f.name), PLevel := if f.level.Some? then Number(f.level.value) else Null, PIcon := Opt(f.icon),
        PSource := From(HomeAssistant)]
  }
  function AreaProps(a: AreaEntry): Props {
    map[PName := Text(a.name), PIcon := Opt(a.icon), PSource := From(HomeAssistant)]
  }
  function DeviceProps(d: DeviceEntry): Props {
    map[PName := Opt(d.name), PManufacturer := Opt(d.manufacturer), PModel := Opt(d.model),
        PSource := From(HomeAssistant)]
  }
  function TagProps(t: TagEntry): Props {
    map[PName := Text(t.name), PColor := Opt(t.color), PSource := From(HomeAssistant)]
  }
  function Named1(name: string, source: Source): Props { map[PName := Text(name), PSource := From(source)] }

  function ReferrerProps(t: Table<Referrer>, id: string): Props {
    if id in t.items then Named1(t.items[id].name, HomeAssistant) else Fallback()
  }

  /** The properties the build gives a node are a function of its key. */
  function NodeProps(h: Hass, k: NodeKey): Props {
    match k.id
    case Plain(id) =>
      (match k.lbl
       case Home => Named1("Home", HomeAssistant)
       case Floor => if id in h.floors.items then FloorProps(h.floors.items[id]) else Fallback()
       case Area => if id in h.areas.items then AreaProps(h.areas.items[id]) else Fallback()
       case Device => if id in h.devices.items then DeviceProps(h.devices.items[id]) else Fallback()
       case Tag => if id in h.tags.items then TagProps(h.tags.items[id]) else Fallback()
       case Integration => Named1(id, HomeAssistant)
       case Automation => ReferrerProps(h.automations, id)
       case Scene => ReferrerProps(h.scenes, id)
       case Script => ReferrerProps(h.scripts, id)
       case SemanticType => Named1(id, Generated)
       case _ => Fallback())
    case AssetOf(e, _) => Named1(h.signals(e).friendlyName, Inferred)
    case RoleOf(_, _) => Fallback()
  }

  const SCHEMA_PROPS: Props := map[PVersion := Text("3.4.0")]

  // ---- The rows, collector by collector -------------------------------------------

  function NodeRow(h: Hass, k: NodeKey): seq<Write> { [MergeNode(k, NodeProps(h, k))] }

  function NodeRows(h: Hass, lbl: Label, ids: seq<string>): seq<Write> {
    FlatMap(ids, (id: string) => NodeRow(h, Key(lbl, id)))
  }

  // Link rows skip entries without the other end.
  function LinkRow(from: NodeKey, kind: RelType, to: NodeKey): seq<Write> { [HaRel(from, kind, to)] }

  function FloorLinks(ids: seq<string>): seq<Write> {
    FlatMap(ids, (f: string) => LinkRow(HOME, HasFloor, FloorKey(f)))
  }
  function HomeAreaLinks(ids: seq<string>): seq<Write> {
    FlatMap(ids, (a: string) => LinkRow(HOME, HasArea, AreaKey(a)))
  }
  function AreaFloorLink(h: Hass, a: string): seq<Write> {
    if a in h.areas.items && Truthy(h.areas.items[a].floorId)
    then LinkRow(AreaKey(a), OnFloor, FloorKey(h.areas.items[a].floorId.value)) else []
  }
  function AreaDeviceLink(h: Hass, d: string): seq<Write> {
    if d in h.devices.items && Truthy(h.devices.items[d].areaId)
    then LinkRow(AreaKey(h.devices.items[d].areaId.value), HasDevice, DeviceKey(d)) else []
  }

  /** Entities other than the integration's own. */
  function Synced(h: Hass): seq<string> { FlatMap(h.entries.ids, (e: string) => if OwnEntity(h, e) then [] else [e]) }

  function EntityRow(h: Hass, e: string): seq<Write> {
    [MergeEntity(e, BaseProps(h, e, None), MeasurementProps(h, e, None))]
  }
  function PlatformOf(h: Hass, e: string): seq<string> {
    if e in h.entries.items && h.entries.items[e].platform != "" then [h.entries.items[e].platform] else []
  }
  function Domains(h: Hass): seq<string> { FlatMap(Synced(h), (e: string) => [DomainOf(e)]) }
  function Platforms(h: Hass): seq<string> { FlatMap(Synced(h), (e: string) => PlatformOf(h, e)) }

  function DomainLink(e: string): seq<Write> { LinkRow(EntityKey(e), InDomain, DomainKey(e)) }
  function DeviceLink(h: Hass, e: string): seq<Write> {
    if e in h.entries.items && Truthy(h.entries.items[e].deviceId)
    then LinkRow(DeviceKey(h.entries.items[e].deviceId.value), HasEntity, EntityKey(e)) else []
  }
  function AreaLink(h: Hass, e: string): seq<Write> {
    if e in h.entries.items && Truthy(h.entries.items[e].areaId)
    then LinkRow(EntityKey(e), HasArea, AreaKey(h.entries.items[e].areaId.value)) else []
  }
  function PlatformLink(h: Hass, e: string): seq<Write> {
    if e in h.entries.items && h.entries.items[e].platform != ""
    then LinkRow(EntityKey(e), ProvidedBy, PlatformKey(h.entries.items[e].platform)) else []
  }
  function TagLinks(h: Hass, e: string): seq<Write> {
    if e in h.entries.items then
      FlatMap(h.entries.items[e].tags, (t: string) => LinkRow(EntityKey(e), HasLabel, TagKey(t)))
    else []
  }

  // An automation, scene or script node followed by its references.
  function ReferrerRows(h: Hass, t: Table<Referrer>, lbl: Label, kind: RelType, id: string): seq<Write> {
    NodeRow(h, Key(lbl, id)) +
    (if id in t.items then FlatMap(t.items[id].refers, (e: string) => LinkRow(Key(lbl, id), kind, EntityKey(e)))
     else [])
  }
  function Referrers(h: Hass, t: Table<Referrer>, lbl: Label, kind: RelType): seq<Write> {
    FlatMap(t.ids, (id: string) => ReferrerRows(h, t, lbl, kind, id))
  }

  // Rules that match an entity and are not overridden for it in `g`.
  function ClassifyRules(h: Hass, g: G, e: string, rules: seq<Rule>): seq<Write> {
    if rules == [] then []
    else (if Overridden(g, e, rules[0].typeLabel) then [] else RuleWrites(h, e, rules[0]))
         + ClassifyRules(h, g, e, rules[1..])
  }
  function ClassifyEntity(h: Hass, g: G, rules: seq<Rule>, e: string): seq<Write> {
    ClassifyRules(h, g, e, MatchingRules(rules, h.signals(e)))
  }
  function ClassifyWrites(h: Hass, g: G, rules: seq<Rule>): seq<Write> {
    FlatMap(Synced(h), (e: string) => ClassifyEntity(h, g, rules, e))
  }

  // The rows of a full build in order, cut where the last node of a label has been created. `Drops`
  // deletes; everything else only merges.

  // ensure_home_node, collect_floors
  function HomeAndFloors(h: Hass): seq<Write> { NodeRow(h, HOME) + NodeRows(h, Floor, h.floors.ids) }

  // collect_floors, collect_areas
  function FloorLinksAndAreas(h: Hass): seq<Write> { FloorLinks(h.floors.ids) + NodeRows(h, Area, h.areas.ids) }

  // collect_areas, collect_devices
  function AreaFloorLinks(h: Hass): seq<Write> { FlatMap(h.areas.ids, (a: string) => AreaFloorLink(h, a)) }
  function AreaLinksAndDevices(h: Hass): seq<Write> {
    HomeAreaLinks(h.areas.ids) + (AreaFloorLinks(h) + NodeRows(h, Device, h.devices.ids))
  }

  // collect_devices, collect_labels, collect_entities
  function AreaDeviceLinks(h: Hass): seq<Write> { FlatMap(h.devices.ids, (d: string) => AreaDeviceLink(h, d)) }
  function EntityRows(h: Hass): seq<Write> { FlatMap(Synced(h), (e: string) => EntityRow(h, e)) }
  function DeviceLinksAndEntities(h: Hass): seq<Write> {
    AreaDeviceLinks(h) + (NodeRows(h, Tag, h.tags.ids) + EntityRows(h))
  }

  // collect_entities
  function DomainRows(h: Hass): seq<Write> { NodeRows(h, Domain, Domains(h)) }
  function PlatformRows(h: Hass): seq<Write> { NodeRows(h, Integration, Platforms(h)) }
  function DomainLinks(h: Hass): seq<Write> { FlatMap(Synced(h), (e: string) => DomainLink(e)) }
  function DeviceLinks(h: Hass): seq<Write> { FlatMap(Synced(h), (e: string) => DeviceLink(h, e)) }
  function EntityLinks(h: Hass): seq<Write> {
    DomainRows(h) + (PlatformRows(h) + (DomainLinks(h) + DeviceLinks(h)))
  }

  function Drops(ids: seq<string>): seq<Write> { FlatMap(ids, (e: string) => [DropAreas(e)]) }
  function AreaLinks(h: Hass): seq<Write> { FlatMap(Synced(h), (e: string) => AreaLink(h, e)) }

  // the rest of collect_entities, collect_domains, collect_integrations, collect_automations,
  // collect_scenes, collect_scripts, ensure_schema_node
  function PlatformLinks(h: Hass): seq<Write> { FlatMap(Synced(h), (e: string) => PlatformLink(h, e)) }
  function AllTagLinks(h: Hass): seq<Write> { FlatMap(Synced(h), (e: string) => TagLinks(h, e)) }
  function AllReferrers(h: Hass): seq<Write> {
    Referrers(h, h.automations, Automation, References) +
    (Referrers(h, h.scenes, Scene, Controls) + Referrers(h, h.scripts, Script, References))
  }
  function Rest(h: Hass): seq<Write> {
    PlatformLinks(h) +
    (AllTagLinks(h) + (DomainRows(h) + (PlatformRows(h) + (AllReferrers(h) + [EnsureSchema(SCHEMA_PROPS)]))))
  }

  function BeforeDrops(h: Hass): seq<Write> {
    HomeAndFloors(h) + (FloorLinksAndAreas(h) + (AreaLinksAndDevices(h) + (DeviceLinksAndEntities(h) + EntityLinks(h))))
  }

  function AfterLinks(h: Hass, g: G, rules: seq<Rule>): seq<Write> { Rest(h) + ClassifyWrites(h, g, rules) }

  function BuildWrites(h: Hass, g: G, rules: seq<Rule>): seq<Write> {
    BeforeDrops(h) + (Drops(Synced(h)) + (AreaLinks(h) + AfterLinks(h, g, rules)))
  }

  /** `build_full_graph` without dashboards; `rules` is empty when classification is switched off. */
  function FullBuild(h: Hass, g: G, rules: seq<Rule>): G { ExecAll(g, BuildWrites(h, g, rules)) }
}
