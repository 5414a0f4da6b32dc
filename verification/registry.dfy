/** Home Assistant's registries and states, as one snapshot, and the graph writes
    that `graph_builder` derives from them for a single entity. */
module Registry {
  import opened Graph

  datatype Option<+T> = None | Some(value: T)

  // A registry is a dictionary with an iteration order.
  datatype Table<T> = Table(ids: seq<string>, items: map<string, T>) {
    ghost predicate Ok() { forall id :: id in ids <==> id in items }
  }

  // What `float(state)` gives.
  datatype Parsed = NotANumber | NonFinite | Finite(value: real)
  datatype Instant = Instant(iso: string, epoch: real)

  datatype State = State(text: string, parsed: Parsed, name: string, friendly: Option<string>,
                         deviceClass: Option<string>, unit: Option<string>,
                         changedAt: string, updated: Instant)
  datatype Context = Context(state: State, measured: Instant)

  datatype FloorEntry = FloorEntry(name: string, level: Option<real>, icon: Option<string>)
  datatype AreaEntry = AreaEntry(name: string, icon: Option<string>, floorId: Option<string>)
  datatype DeviceEntry = DeviceEntry(name: Option<string>, manufacturer: Option<string>,
                                     model: Option<string>, areaId: Option<string>)
  datatype TagEntry = TagEntry(name: string, color: Option<string>)
  datatype EntityEntry = EntityEntry(platform: string, name: Option<string>, deviceId: Option<string>,
                                     areaId: Option<string>, tags: seq<string>)
  // An automation, scene or script with the entities it refers to.
  datatype Referrer = Referrer(name: string, refers: seq<string>)

  // What `_entity_signals` gathers for one entity; `text` is already lower-cased.
  datatype Signals = Signals(domain: string, deviceClass: Option<string>, text: string, hasDevice: bool,
                             friendlyName: string, manufacturer: Option<string>)

  datatype Hass = Hass(floors: Table<FloorEntry>, areas: Table<AreaEntry>, devices: Table<DeviceEntry>,
                       tags: Table<TagEntry>, entries: Table<EntityEntry>, states: Table<State>,
                       automations: Table<Referrer>, scenes: Table<Referrer>, scripts: Table<Referrer>,
                       signals: string -> Signals)

  ghost predicate HassOk(h: Hass) {
    h.floors.Ok() && h.areas.Ok() && h.devices.Ok() && h.tags.Ok() && h.entries.Ok() && h.states.Ok() &&
    h.automations.Ok() && h.scenes.Ok() && h.scripts.Ok()
  }

  const DOMAIN := "ontology"
  const UNKNOWN := "unknown"
  const UNAVAILABLE := "unavailable"

  // Python truthiness of an optional string.
  predicate Truthy(s: Option<string>) { s.Some? && s.value != "" }

  function Opt(s: Option<string>): Value { if s.Some? then Text(s.value) else Null }

  function DomainOf(e: string): string {
    if e == "" || e[0] == '.' then "" else [e[0]] + DomainOf(e[1..])
  }

  /** The text before the first full stop, all of it if there is none. */
  predicate BeforeDot(e: string, d: string) {
    d <= e && '.' !in d && (|d| < |e| ==> e[|d|] == '.')
  }

  lemma {:induction false} DomainIs(e: string)
    ensures forall d :: BeforeDot(e, d) <==> d == DomainOf(e)
    decreases |e|
  {
    if e != "" && e[0] != '.' {
      DomainIs(e[1..]);
      forall d ensures BeforeDot(e, d) <==> d == DomainOf(e) {
        if BeforeDot(e, d) {
          assert d != "";
          assert d == [e[0]] + d[1..] && BeforeDot(e[1..], d[1..]);
        }
        if d == DomainOf(e) { assert BeforeDot(e[1..], d[1..]); }
      }
    }
  }

  // ---- Measurements -----------------------------------------------------------

  function Status(status: string): Props { map[MeasurementStatus := Text(status)] }

  /** `normalize_current_measurement`. */
  function Measurement(s: State, measured: Instant): Props {
    if s.deviceClass != Some("battery") && s.deviceClass != Some("power") then map[]
    else
      var head: Props := map[MeasurementKind := Text(s.deviceClass.value), MeasuredAt := Text(measured.iso),
                             MeasuredAtEpoch := Number(measured.epoch)];
      var battery := s.deviceClass == Some("battery");
      if s.text == UNKNOWN || s.text == UNAVAILABLE then head + Status("unavailable")
      else if !(if battery then s.unit == Some("%") else s.unit == Some("W") || s.unit == Some("kW")) then
        head + Status("unsupported_unit")
      else if !s.parsed.Finite? || (battery && !(0.0 <= s.parsed.value <= 100.0)) then
        head + Status("invalid_value")
      else if battery then head + Status("available") + map[BatteryPercentage := Number(s.parsed.value)]
      else
        head + Status("available")
        + map[PowerWatts := Number(if s.unit == Some("kW") then s.parsed.value * 1000.0 else s.parsed.value)]
  }

  // ---- One entity ---------------------------------------------------------------

  function Lookup<T>(t: Table<T>, id: string): Option<T> { if id in t.items then Some(t.items[id]) else None }

  function StateFor(h: Hass, e: string, context: Option<Context>): Option<State> {
    if context.Some? then Some(context.value.state) else Lookup(h.states, e)
  }

  function BaseProps(h: Hass, e: string, context: Option<Context>): Props {
    var entry := Lookup(h.entries, e);
    var state := StateFor(h, e, context);
    var name := if entry.Some? && Truthy(entry.value.name) then entry.value.name.value
                else if state.Some? && state.value.name != "" then state.value.name
                else e;
    map[PName := Text(name), PSource := From(HomeAssistant)]
    + (if entry.Some? then map[PDeviceId := Opt(entry.value.deviceId), PAreaId := Opt(entry.value.areaId)] else map[])
    + (if state.Some? then map[PState := Text(state.value.text), PStateUpdated := Text(state.value.changedAt),
                               PDeviceClass := Opt(state.value.deviceClass), PUnit := Opt(state.value.unit)]
       else map[])
  }

  function MeasurementProps(h: Hass, e: string, context: Option<Context>): Props {
    var state := StateFor(h, e, context);
    if state.None? then map[]
    else Measurement(state.value, if context.Some? then context.value.measured else state.value.updated)
  }

  function HaNode(k: NodeKey, props: Props): Write { MergeNode(k, props[PSource := From(HomeAssistant)]) }
  function HaRel(from: NodeKey, kind: RelType, to: NodeKey): Write {
    MergeRel(RelKey(from, kind, to), Sourced(HomeAssistant))
  }

  function DomainKey(e: string): NodeKey { NodeKey(Domain, Plain(DomainOf(e))) }
  function DeviceKey(d: string): NodeKey { NodeKey(Device, Plain(d)) }
  function TagKey(t: string): NodeKey { NodeKey(Tag, Plain(t)) }
  function PlatformKey(p: string): NodeKey { NodeKey(Integration, Plain(p)) }

  function TagRels(e: string, tags: seq<string>): seq<Write> {
    seq(|tags|, i requires 0 <= i < |tags| => HaRel(EntityKey(e), HasLabel, TagKey(tags[i])))
  }

  function DomainWrites(e: string): seq<Write> {
    [HaNode(DomainKey(e), map[]), HaRel(EntityKey(e), InDomain, DomainKey(e))]
  }

  function DeviceWrites(e: string, entry: EntityEntry): seq<Write> {
    if Truthy(entry.deviceId) then [HaRel(DeviceKey(entry.deviceId.value), HasEntity, EntityKey(e))] else []
  }

  function AreaWrites(e: string, entry: EntityEntry): seq<Write> {
    [DropAreas(e)]
    + (if Truthy(entry.areaId) then [HaRel(EntityKey(e), HasArea, AreaKey(entry.areaId.value))] else [])
  }

  function PlatformWrites(e: string, entry: EntityEntry): seq<Write> {
    if entry.platform == "" then []
    else [HaNode(PlatformKey(entry.platform), map[PName := Text(entry.platform)]),
          HaRel(EntityKey(e), ProvidedBy, PlatformKey(entry.platform))]
  }

  /** The relationship part of the full entity write, row by row. */
  function RelationshipWrites(h: Hass, e: string): seq<Write> {
    DomainWrites(e) +
    if e !in h.entries.items then []
    else
      var entry := h.entries.items[e];
      DeviceWrites(e, entry) + (AreaWrites(e, entry) + (PlatformWrites(e, entry) + TagRels(e, entry.tags)))
  }

  // The integration's own entities are never written.
  predicate OwnEntity(h: Hass, e: string) { e in h.entries.items && h.entries.items[e].platform == DOMAIN }

  // In neither the registry nor the state machine: treated as a removal.
  predicate Gone(h: Hass, e: string) { e !in h.entries.items && e !in h.states.items }

  /** Every row `update_entity` writes, in order. */
  function UpdateWrites(h: Hass, e: string, context: Option<Context>): seq<Write> {
    if OwnEntity(h, e) then []
    else if Gone(h, e) then [DeleteOwned(EntityKey(e))]
    else [MergeEntity(e, BaseProps(h, e, context), MeasurementProps(h, e, context))] + RelationshipWrites(h, e)
  }

  lemma BasePropsPlain(h: Hass, e: string, context: Option<Context>)
    ensures BaseProps(h, e, context).Keys !! MEASUREMENT_PROPS
  {
  }

  lemma MeasurementNoNulls(s: State, at: Instant)
    ensures forall k :: k in Measurement(s, at) ==> Measurement(s, at)[k] != Null
  {
  }

  lemma Replaces(before: Props, props: Props, m: Props)
    requires props.Keys !! MEASUREMENT_PROPS
    requires forall k :: k in m ==> m[k] != Null
    ensures forall k :: k in MEASUREMENT_PROPS ==>
              (k in Measured(before, props, m) <==> k in m) && (k in m ==> Measured(before, props, m)[k] == m[k])
  {
  }

  /** After an entity write the node's measurement properties are those of the new state and
      nothing is left of an earlier measurement, whichever of the three entity writes was used. */
  lemma MeasurementReplaced(h: Hass, e: string, context: Option<Context>, before: Props)
    ensures var after := Measured(before, BaseProps(h, e, context), MeasurementProps(h, e, context));
            forall k :: k in MEASUREMENT_PROPS ==>
              (k in after <==> k in MeasurementProps(h, e, context)) &&
              (k in after ==> after[k] == MeasurementProps(h, e, context)[k])
  {
    BasePropsPlain(h, e, context);
    var state := StateFor(h, e, context);
    if state.Some? {
      MeasurementNoNulls(state.value, if context.Some? then context.value.measured else state.value.updated);
    }
    Replaces(before, BaseProps(h, e, context), MeasurementProps(h, e, context));
  }

  /** A wattage is recorded only for an available power reading in W or kW, in watts. */
  lemma WattsOnlyWhenAvailable(s: State, at: Instant)
    ensures PowerWatts in Measurement(s, at) <==>
              s.deviceClass == Some("power") && s.text != UNKNOWN && s.text != UNAVAILABLE &&
              s.unit in {Some("W"), Some("kW")} && s.parsed.Finite?
    ensures PowerWatts in Measurement(s, at) ==>
              Measurement(s, at)[MeasurementStatus] == Text("available") &&
              Measurement(s, at)[PowerWatts] == Number(s.parsed.value * (if s.unit == Some("kW") then 1000.0 else 1.0))
  {
  }

  // ---- What an entity write stores, from the registry and the state -----------------------------

  predicate HoldsText(p: Props, q: Prop, text: Option<string>) {
    if text.Some? then q in p && p[q] == Text(text.value) else q !in p
  }

  predicate SameProp(a: Props, b: Props, q: Prop) { (q in a <==> q in b) && (q in a ==> a[q] == b[q]) }

  const ENTITY_PROPS: set<Prop> :=
    {PName, PSource, PDeviceId, PAreaId, PState, PStateUpdated, PDeviceClass, PUnit}

  /** The registry's name, else the state's, else the identifier. */
  predicate NamedRight(h: Hass, e: string, state: Option<State>, p: Props) {
    var given := if e in h.entries.items then h.entries.items[e].name else None;
    (given.Some? && given.value != "" ==> HoldsText(p, PName, given)) &&
    ((given.None? || given.value == "") && state.Some? && state.value.name != "" ==>
       HoldsText(p, PName, Some(state.value.name))) &&
    ((given.None? || given.value == "") && (state.None? || state.value.name == "") ==> HoldsText(p, PName, Some(e)))
  }

  predicate StateStored(s: State, p: Props) {
    HoldsText(p, PState, Some(s.text)) && HoldsText(p, PStateUpdated, Some(s.changedAt)) &&
    HoldsText(p, PDeviceClass, s.deviceClass) && HoldsText(p, PUnit, s.unit)
  }

  /** Whether a battery or power reading can be used: its unit, and its value. */
  predicate UnitFits(s: State) {
    (s.deviceClass == Some("battery") && s.unit == Some("%")) ||
    (s.deviceClass == Some("power") && (s.unit == Some("W") || s.unit == Some("kW")))
  }
  predicate ValueFits(s: State) {
    s.parsed.Finite? && (s.deviceClass == Some("battery") ==> 0.0 <= s.parsed.value && s.parsed.value <= 100.0)
  }
  predicate Unread(s: State) { s.text == "unknown" || s.text == "unavailable" }

  /** The measurement properties of a battery or power entity: kind, time, one status, and the value in percent
      or in watts exactly when the status says that it is available. */
  ghost predicate MeasurementStored(s: State, at: Instant, p: Props) {
    var usable := !Unread(s) && UnitFits(s) && ValueFits(s);
    HoldsText(p, MeasurementKind, s.deviceClass) && HoldsText(p, MeasuredAt, Some(at.iso)) &&
    MeasuredAtEpoch in p && p[MeasuredAtEpoch] == Number(at.epoch) &&
    (Unread(s) ==> HoldsText(p, MeasurementStatus, Some("unavailable"))) &&
    (!Unread(s) && !UnitFits(s) ==> HoldsText(p, MeasurementStatus, Some("unsupported_unit"))) &&
    (!Unread(s) && UnitFits(s) && !ValueFits(s) ==> HoldsText(p, MeasurementStatus, Some("invalid_value"))) &&
    (usable ==> HoldsText(p, MeasurementStatus, Some("available"))) &&
    (BatteryPercentage in p <==> usable && s.deviceClass == Some("battery")) &&
    (BatteryPercentage in p ==> p[BatteryPercentage] == Number(s.parsed.value)) &&
    (PowerWatts in p <==> usable && s.deviceClass == Some("power")) &&
    (PowerWatts in p && s.unit == Some("W") ==> p[PowerWatts] == Number(s.parsed.value)) &&
    (PowerWatts in p && s.unit == Some("kW") ==> p[PowerWatts] == Number(1000.0 * s.parsed.value))
  }

  ghost predicate MeasuredRight(state: Option<State>, at: Instant, p: Props) {
    if state.Some? && (state.value.deviceClass == Some("battery") || state.value.deviceClass == Some("power"))
    then MeasurementStored(state.value, at, p)
    else forall q :: q in MEASUREMENT_PROPS ==> q !in p
  }

  predicate RegistryStored(h: Hass, e: string, before: Props, p: Props) {
    PSource in p && p[PSource] == From(HomeAssistant) &&
    if e in h.entries.items
    then HoldsText(p, PDeviceId, h.entries.items[e].deviceId) && HoldsText(p, PAreaId, h.entries.items[e].areaId)
    else SameProp(before, p, PDeviceId) && SameProp(before, p, PAreaId)
  }

  predicate StateRight(state: Option<State>, before: Props, p: Props) {
    if state.Some? then StateStored(state.value, p)
    else SameProp(before, p, PState) && SameProp(before, p, PStateUpdated) &&
         SameProp(before, p, PDeviceClass) && SameProp(before, p, PUnit)
  }

  ghost predicate OthersKept(before: Props, p: Props) {
    forall q :: q !in ENTITY_PROPS && q !in MEASUREMENT_PROPS ==> SameProp(before, p, q)
  }

  ghost predicate MeasurementRight(h: Hass, e: string, context: Option<Context>, p: Props) {
    (context.Some? ==> MeasuredRight(Some(context.value.state), context.value.measured, p)) &&
    (context.None? && e in h.states.items ==>
       MeasuredRight(Some(h.states.items[e]), h.states.items[e].updated, p)) &&
    (context.None? && e !in h.states.items ==> forall q :: q in MEASUREMENT_PROPS ==> q !in p)
  }

  /** What is stored on an entity's node after a write that found `before` there: registry and state properties
      exactly, nulls removed; of anything else only measurements are dropped. */
  ghost predicate EntityStored(h: Hass, e: string, context: Option<Context>, before: Props, p: Props) {
    var state := if context.Some? then Some(context.value.state)
                 else if e in h.states.items then Some(h.states.items[e]) else None;
    NamedRight(h, e, state, p) && RegistryStored(h, e, before, p) && StateRight(state, before, p) &&
    MeasurementRight(h, e, context, p) && OthersKept(before, p)
  }

  lemma PlusAt(stored: Props, given: Props, q: Prop)
    ensures var p := Plus(stored, given);
            if q !in given then SameProp(stored, p, q)
            else if given[q] == Null then q !in p else q in p && p[q] == given[q]
  {
  }

  lemma BaseNamed(h: Hass, e: string, context: Option<Context>, before: Props)
    ensures var p := Plus(before, BaseProps(h, e, context));
            NamedRight(h, e, StateFor(h, e, context), p) && PSource in p && p[PSource] == From(HomeAssistant)
  {
    PlusAt(before, BaseProps(h, e, context), PName);
    PlusAt(before, BaseProps(h, e, context), PSource);
    hide Plus;
  }

  lemma BaseRegistered(h: Hass, e: string, context: Option<Context>, before: Props)
    ensures RegistryStored(h, e, before, Plus(before, BaseProps(h, e, context)))
  {
    PlusAt(before, BaseProps(h, e, context), PDeviceId);
    PlusAt(before, BaseProps(h, e, context), PAreaId);
    BaseNamed(h, e, context, before);
    hide Plus, NamedRight;
  }

  lemma BaseState(h: Hass, e: string, context: Option<Context>, before: Props)
    ensures StateRight(StateFor(h, e, context), before, Plus(before, BaseProps(h, e, context)))
  {
    PlusAt(before, BaseProps(h, e, context), PState);
    PlusAt(before, BaseProps(h, e, context), PStateUpdated);
    PlusAt(before, BaseProps(h, e, context), PDeviceClass);
    PlusAt(before, BaseProps(h, e, context), PUnit);
    hide Plus;
  }

  lemma BaseOthers(h: Hass, e: string, context: Option<Context>, before: Props)
    ensures OthersKept(before, Plus(before, BaseProps(h, e, context)))
  {
    forall q | q !in ENTITY_PROPS ensures SameProp(before, Plus(before, BaseProps(h, e, context)), q) {
      PlusAt(before, BaseProps(h, e, context), q);
      BaseKeys(h, e, context);
    }
  }

  lemma BaseKeys(h: Hass, e: string, context: Option<Context>)
    ensures BaseProps(h, e, context).Keys <= ENTITY_PROPS
  {
  }

  lemma MeasurementIs(s: State, at: Instant)
    requires s.deviceClass == Some("battery") || s.deviceClass == Some("power")
    ensures MeasurementStored(s, at, Measurement(s, at))
  {
  }

  lemma MeasurementKeys(s: State, at: Instant)
    ensures Measurement(s, at).Keys <= MEASUREMENT_PROPS
  {
  }

  lemma SameMeasurement(s: State, at: Instant, m: Props, p: Props)
    requires MeasurementStored(s, at, m) && forall q :: q in MEASUREMENT_PROPS ==> SameProp(m, p, q)
    ensures MeasurementStored(s, at, p)
  {
    assert SameProp(m, p, MeasurementKind) && SameProp(m, p, MeasuredAt) && SameProp(m, p, MeasuredAtEpoch);
    assert SameProp(m, p, MeasurementStatus) && SameProp(m, p, BatteryPercentage) && SameProp(m, p, PowerWatts);
  }

  lemma MeasuredIsRight(h: Hass, e: string, context: Option<Context>, p: Props, at: Instant)
    requires forall q :: q in MEASUREMENT_PROPS ==> SameProp(MeasurementProps(h, e, context), p, q)
    requires context.Some? ==> at == context.value.measured
    requires context.None? && StateFor(h, e, context).Some? ==> at == StateFor(h, e, context).value.updated
    ensures MeasuredRight(StateFor(h, e, context), at, p)
  {
    hide MeasurementStored;
    var state := StateFor(h, e, context);
    if state.Some? && (state.value.deviceClass == Some("battery") || state.value.deviceClass == Some("power")) {
      MeasurementIs(state.value, at);
      hide Measurement;
      SameMeasurement(state.value, at, Measurement(state.value, at), p);
    }
  }

  lemma MeasuredSplit(before: Props, props: Props, m: Props)
    requires props.Keys !! MEASUREMENT_PROPS && m.Keys <= MEASUREMENT_PROPS
    requires forall k :: k in m ==> m[k] != Null
    ensures var p := Measured(before, props, m);
            (forall q :: q in MEASUREMENT_PROPS ==> SameProp(m, p, q)) &&
            (forall q :: q !in MEASUREMENT_PROPS ==> SameProp(Plus(before, props), p, q))
  {
  }

  lemma MeasurementPlain(h: Hass, e: string, context: Option<Context>)
    ensures MeasurementProps(h, e, context).Keys <= MEASUREMENT_PROPS
    ensures forall k :: k in MeasurementProps(h, e, context) ==> MeasurementProps(h, e, context)[k] != Null
  {
    hide Measurement;
    var state := StateFor(h, e, context);
    if state.Some? {
      var at := if context.Some? then context.value.measured else state.value.updated;
      MeasurementKeys(state.value, at);
      MeasurementNoNulls(state.value, at);
    }
  }

  lemma SameEntityProps(h: Hass, e: string, state: Option<State>, before: Props, base: Props, p: Props)
    requires forall q :: q !in MEASUREMENT_PROPS ==> SameProp(base, p, q)
    requires NamedRight(h, e, state, base) && RegistryStored(h, e, before, base) && StateRight(state, before, base)
    ensures NamedRight(h, e, state, p) && RegistryStored(h, e, before, p) && StateRight(state, before, p)
  {
    assert SameProp(base, p, PName) && SameProp(base, p, PSource) && SameProp(base, p, PDeviceId);
    assert SameProp(base, p, PAreaId) && SameProp(base, p, PState) && SameProp(base, p, PStateUpdated);
    assert SameProp(base, p, PDeviceClass) && SameProp(base, p, PUnit);
  }

  lemma SameOthers(before: Props, base: Props, p: Props)
    requires OthersKept(before, base) && forall q :: q !in MEASUREMENT_PROPS ==> SameProp(base, p, q)
    ensures OthersKept(before, p)
  {
  }

  lemma SameMeasurements(h: Hass, e: string, context: Option<Context>, p: Props)
    requires forall q :: q in MEASUREMENT_PROPS ==> SameProp(MeasurementProps(h, e, context), p, q)
    ensures MeasurementRight(h, e, context, p)
  {
    hide MeasurementProps, MeasuredRight;
    if context.Some? {
      MeasuredIsRight(h, e, context, p, context.value.measured);
    } else if e in h.states.items {
      MeasuredIsRight(h, e, context, p, h.states.items[e].updated);
    } else {
      NoMeasurement(h, e, context);
    }
  }

  lemma NoMeasurement(h: Hass, e: string, context: Option<Context>)
    requires StateFor(h, e, context).None?
    ensures MeasurementProps(h, e, context) == map[]
  {
  }

  /** Every entity write stores exactly that. */
  lemma WriteStores(h: Hass, e: string, context: Option<Context>, before: Props)
    ensures EntityStored(h, e, context, before,
                         Measured(before, BaseProps(h, e, context), MeasurementProps(h, e, context)))
  {
    var props, m := BaseProps(h, e, context), MeasurementProps(h, e, context);
    var p, base, state := Measured(before, props, m), Plus(before, props), StateFor(h, e, context);
    BasePropsPlain(h, e, context);
    MeasurementPlain(h, e, context);
    hide BaseProps, MeasurementProps, Measured, Plus;
    hide MeasurementRight, NamedRight, RegistryStored, StateRight, OthersKept;
    MeasuredSplit(before, props, m);
    BaseNamed(h, e, context, before);
    BaseRegistered(h, e, context, before);
    BaseState(h, e, context, before);
    BaseOthers(h, e, context, before);
    SameEntityProps(h, e, state, before, base, p);
    SameOthers(before, base, p);
    SameMeasurements(h, e, context, p);
  }

  // ---- The single-entity write --------------------------------------------------------------

  // Rows that leave every entity node as it is.
  predicate LeavesEntities(w: Write) { (w.MergeNode? && w.node.lbl != Entity) || w.MergeRel? || w.DropAreas? }

  lemma {:induction false} EntitiesLeft(g: G, ws: seq<Write>)
    requires forall w :: w in ws ==> LeavesEntities(w)
    ensures forall k: NodeKey :: k.lbl == Entity ==>
              (k in g.nodes <==> k in ExecAll(g, ws).nodes) && NodeOr(g, k) == NodeOr(ExecAll(g, ws), k)
    decreases |ws|
  {
    if ws != [] {
      assert LeavesEntities(ws[0]);
      EntitiesLeft(Exec(g, ws[0]), ws[1..]);
    }
  }

  lemma RelationshipsLeaveEntities(h: Hass, e: string)
    ensures forall w :: w in RelationshipWrites(h, e) ==> LeavesEntities(w)
  {
    if e in h.entries.items {
      var tags := h.entries.items[e].tags;
      forall w | w in TagRels(e, tags) ensures LeavesEntities(w) {
        var i :| 0 <= i < |tags| && TagRels(e, tags)[i] == w;
      }
    }
  }

  /** The rows of a full entity write leave the node as stated; nothing for an own entity; no owned node of one
      that is gone. */
  lemma UpdateStores(h: Hass, g: G, e: string, context: Option<Context>)
    ensures var after, k := ExecAll(g, UpdateWrites(h, e, context)), EntityKey(e);
            var own := e in h.entries.items && h.entries.items[e].platform == "ontology";
            var gone := e !in h.entries.items && e !in h.states.items;
            (own ==> after == g) && (gone ==> k !in after.nodes || !Owned(after.nodes[k])) &&
            (!own && !gone ==> k in after.nodes && EntityStored(h, e, context, NodeOr(g, k), after.nodes[k]))
  {
    hide EntityStored, RelationshipWrites, BaseProps, MeasurementProps;
    if Gone(h, e) {
      ExecPair(g, DeleteOwned(EntityKey(e)), DeleteOwned(EntityKey(e)));
    } else if !OwnEntity(h, e) {
      var w := MergeEntity(e, BaseProps(h, e, context), MeasurementProps(h, e, context));
      ExecAllAppend(g, [w], RelationshipWrites(h, e));
      ExecPair(g, w, w);
      WriteStores(h, e, context, NodeOr(g, EntityKey(e)));
      RelationshipsLeaveEntities(h, e);
      EntitiesLeft(Exec(g, w), RelationshipWrites(h, e));
    }
  }

  /** The single-entity write: its rows in order, one query each, up to the first that raises. */
  method UpdateEntity(client: Client, h: Hass, e: string, context: Option<Context>) returns (ok: bool)
    modifies client
    ensures Outcome(client.g, client.faults, ok) ==
            Play(old(client.g), old(client.faults), Singles(UpdateWrites(h, e, context)))
    ensures var k := EntityKey(e);
            var own := e in h.entries.items && h.entries.items[e].platform == "ontology";
            var gone := e !in h.entries.items && e !in h.states.items;
            ok ==> (own ==> client.g == old(client.g)) &&
                   (gone ==> k !in client.g.nodes || !Owned(client.g.nodes[k])) &&
                   (!own && !gone ==>
                      k in client.g.nodes && EntityStored(h, e, context, NodeOr(old(client.g), k), client.g.nodes[k]))
  {
    hide UpdateWrites, EntityStored, Play;
    UpdateStores(h, client.g, e, context);
    ConcatSingles(UpdateWrites(h, e, context));
    ghost var g, faults := client.g, client.faults;
    ok := RunAll(client, Singles(UpdateWrites(h, e, context)));
    if ok { PlayOk(g, faults, Singles(UpdateWrites(h, e, context))); }
  }
}
