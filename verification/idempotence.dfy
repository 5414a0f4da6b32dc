/** Running the full build twice: when it equals running it once, and what a build can delete. */
module Idempotence {
  import opened Graph
  import opened Registry
  import opened Semantics
  import opened Build
  import opened Settle

  const OPEN0: set<Label> := {Home, Floor, Area, Device, Tag, Entity}
  const OPEN1: set<Label> := {Area, Device, Tag, Entity}
  const OPEN2: set<Label> := {Device, Tag, Entity}
  const OPEN3: set<Label> := {Tag, Entity}

  // ---- Each part is admissible ------------------------------------------------------

  lemma NodeRowsAdmit(h: Hass, done: set<Write>, open: set<Label>, lbl: Label, ids: seq<string>)
    requires (lbl in open || Late(lbl)) && lbl != Entity && lbl != Schema
    ensures forall w :: w in NodeRows(h, lbl, ids) ==> Admissible(h, done, open, w)
    ensures forall id :: id in ids ==> MergeNode(Key(lbl, id), NodeProps(h, Key(lbl, id))) in NodeRows(h, lbl, ids)
  {
    var f := (id: string) => NodeRow(h, Key(lbl, id));
    forall w | w in NodeRows(h, lbl, ids) ensures Admissible(h, done, open, w) {
      InFlatMap(ids, f, w);
    }
    forall id | id in ids
      ensures MergeNode(Key(lbl, id), NodeProps(h, Key(lbl, id))) in NodeRows(h, lbl, ids)
    {
      InFlatMap(ids, f, MergeNode(Key(lbl, id), NodeProps(h, Key(lbl, id))));
      assert MergeNode(Key(lbl, id), NodeProps(h, Key(lbl, id))) in f(id);
    }
  }

  lemma FlatMapAll(ids: seq<string>, f: string -> seq<Write>, h: Hass, done: set<Write>, open: set<Label>)
    requires forall id, w :: id in ids && w in f(id) ==> Admissible(h, done, open, w)
    ensures forall w :: w in FlatMap(ids, f) ==> Admissible(h, done, open, w)
  {
    forall w | w in FlatMap(ids, f) ensures Admissible(h, done, open, w) { InFlatMap(ids, f, w); }
  }

  lemma Stage0(h: Hass)
    ensures AdmitSeq(h, {}, OPEN0, HomeAndFloors(h))
  {
    AdmitEach(h, {}, OPEN0, NodeRow(h, HOME));
    NodeRowsAdmit(h, SetOf(NodeRow(h, HOME)), OPEN0, Floor, h.floors.ids);
    AdmitEach(h, {} + SetOf(NodeRow(h, HOME)), OPEN0, NodeRows(h, Floor, h.floors.ids));
    AdmitAppend(h, {}, OPEN0, NodeRow(h, HOME), NodeRows(h, Floor, h.floors.ids));
  }

  lemma Stage1(h: Hass, done: set<Write>)
    ensures AdmitSeq(h, done, OPEN1, FloorLinksAndAreas(h))
  {
    var links, nodes := FloorLinks(h.floors.ids), NodeRows(h, Area, h.areas.ids);
    FlatMapAll(h.floors.ids, (f: string) => LinkRow(HOME, HasFloor, FloorKey(f)), h, done, OPEN1);
    AdmitEach(h, done, OPEN1, links);
    NodeRowsAdmit(h, done + SetOf(links), OPEN1, Area, h.areas.ids);
    AdmitEach(h, done + SetOf(links), OPEN1, nodes);
    AdmitAppend(h, done, OPEN1, links, nodes);
  }

  lemma Stage2(h: Hass, done: set<Write>)
    ensures AdmitSeq(h, done, OPEN2, AreaLinksAndDevices(h))
  {
    hide AdmitSeq, NodeProps, SetOf, NodeRows;
    var a, b, c := HomeAreaLinks(h.areas.ids), AreaFloorLinks(h), NodeRows(h, Device, h.devices.ids);
    FlatMapAll(h.areas.ids, (x: string) => LinkRow(HOME, HasArea, AreaKey(x)), h, done, OPEN2);
    AdmitEach(h, done, OPEN2, a);
    var done1 := done + SetOf(a);
    FlatMapAll(h.areas.ids, (x: string) => AreaFloorLink(h, x), h, done1, OPEN2);
    AdmitEach(h, done1, OPEN2, b);
    NodeRowsAdmit(h, done1 + SetOf(b), OPEN2, Device, h.devices.ids);
    AdmitEach(h, done1 + SetOf(b), OPEN2, c);
    AdmitAppend(h, done1, OPEN2, b, c);
    AdmitAppend(h, done, OPEN2, a, b + c);
  }

  lemma AreaDeviceLinksAdmit(h: Hass, done: set<Write>)
    ensures AdmitSeq(h, done, OPEN3, AreaDeviceLinks(h))
  {
    hide AdmitSeq;
    FlatMapAll(h.devices.ids, (d: string) => AreaDeviceLink(h, d), h, done, OPEN3);
    AdmitEach(h, done, OPEN3, AreaDeviceLinks(h));
  }

  lemma EntityRowsAdmit(h: Hass, done: set<Write>)
    ensures AdmitSeq(h, done, OPEN3, EntityRows(h))
  {
    hide AdmitSeq, BaseProps, MeasurementProps;
    FlatMapAll(Synced(h), (e: string) => EntityRow(h, e), h, done, OPEN3);
    AdmitEach(h, done, OPEN3, EntityRows(h));
  }

  lemma Stage3(h: Hass, done: set<Write>)
    ensures AdmitSeq(h, done, OPEN3, DeviceLinksAndEntities(h))
  {
    hide AdmitSeq, NodeProps, SetOf, NodeRows, BaseProps, MeasurementProps, AreaDeviceLinks, EntityRows;
    var a, b, c := AreaDeviceLinks(h), NodeRows(h, Tag, h.tags.ids), EntityRows(h);
    AreaDeviceLinksAdmit(h, done);
    var done1 := done + SetOf(a);
    NodeRowsAdmit(h, done1, OPEN3, Tag, h.tags.ids);
    AdmitEach(h, done1, OPEN3, b);
    EntityRowsAdmit(h, done1 + SetOf(b));
    AdmitAppend(h, done1, OPEN3, b, c);
    AdmitAppend(h, done, OPEN3, a, b + c);
  }

  ghost predicate HasRows(h: Hass, done: set<Write>) {
    SetOf(DomainRows(h)) <= done && SetOf(PlatformRows(h)) <= done
  }

  lemma DomainKnown(h: Hass, done: set<Write>, e: string)
    requires SetOf(DomainRows(h)) <= done && e in Synced(h)
    ensures Known(done, DomainKey(e))
  {
    InFlatMap(Synced(h), (x: string) => [DomainOf(x)], DomainOf(e));
    assert DomainOf(e) in [DomainOf(e)];
    NodeRowsAdmit(h, done, {}, Domain, Domains(h));
    var w := MergeNode(DomainKey(e), NodeProps(h, DomainKey(e)));
    assert w in DomainRows(h);
    assert w in SetOf(DomainRows(h));
  }

  lemma PlatformKnown(h: Hass, done: set<Write>, e: string)
    requires SetOf(PlatformRows(h)) <= done && e in Synced(h)
    ensures forall p :: p in PlatformOf(h, e) ==> Known(done, PlatformKey(p))
  {
    forall p | p in PlatformOf(h, e) ensures Known(done, PlatformKey(p)) {
      InFlatMap(Synced(h), (x: string) => PlatformOf(h, x), p);
      NodeRowsAdmit(h, done, {}, Integration, Platforms(h));
      var w := MergeNode(PlatformKey(p), NodeProps(h, PlatformKey(p)));
      assert w in SetOf(PlatformRows(h));
    }
  }

  lemma DomainLinksAdmit(h: Hass, done: set<Write>)
    requires SetOf(DomainRows(h)) <= done
    ensures AdmitSeq(h, done, {}, DomainLinks(h))
  {
    forall e, w | e in Synced(h) && w in DomainLink(e) ensures Admissible(h, done, {}, w) { DomainKnown(h, done, e); }
    FlatMapAll(Synced(h), (e: string) => DomainLink(e), h, done, {});
    AdmitEach(h, done, {}, DomainLinks(h));
  }

  lemma DeviceLinksAdmit(h: Hass, done: set<Write>)
    ensures AdmitSeq(h, done, {}, DeviceLinks(h))
  {
    FlatMapAll(Synced(h), (e: string) => DeviceLink(h, e), h, done, {});
    AdmitEach(h, done, {}, DeviceLinks(h));
  }

  lemma RowsAdmit(h: Hass, done: set<Write>)
    ensures AdmitSeq(h, done, {}, DomainRows(h)) && AdmitSeq(h, done, {}, PlatformRows(h))
  {
    NodeRowsAdmit(h, done, {}, Domain, Domains(h));
    AdmitEach(h, done, {}, DomainRows(h));
    NodeRowsAdmit(h, done, {}, Integration, Platforms(h));
    AdmitEach(h, done, {}, PlatformRows(h));
  }

  lemma Stage4(h: Hass, done: set<Write>)
    ensures AdmitSeq(h, done, {}, EntityLinks(h))
    ensures HasRows(h, done + SetOf(EntityLinks(h)))
  {
    hide DomainRows, PlatformRows, DomainLinks, DeviceLinks;
    var a, b, c, d := DomainRows(h), PlatformRows(h), DomainLinks(h), DeviceLinks(h);
    RowsAdmit(h, done);
    var done1 := done + SetOf(a);
    RowsAdmit(h, done1);
    var done2 := done1 + SetOf(b);
    DomainLinksAdmit(h, done2);
    DeviceLinksAdmit(h, done2 + SetOf(c));
    AdmitAppend(h, done2, {}, c, d);
    AdmitAppend(h, done1, {}, b, c + d);
    AdmitAppend(h, done, {}, a, b + (c + d));
  }

  // ---- After the drops ------------------------------------------------------------------

  lemma AreaLinksAdmit(h: Hass, done: set<Write>)
    ensures AdmitSeq(h, done, {}, AreaLinks(h))
  {
    FlatMapAll(Synced(h), (e: string) => AreaLink(h, e), h, done, {});
    AdmitEach(h, done, {}, AreaLinks(h));
  }

  lemma PlatformLinksAdmit(h: Hass, done: set<Write>)
    requires SetOf(PlatformRows(h)) <= done
    ensures AdmitSeq(h, done, {}, PlatformLinks(h))
  {
    forall e, w | e in Synced(h) && w in PlatformLink(h, e) ensures Admissible(h, done, {}, w) {
      PlatformKnown(h, done, e);
      assert h.entries.items[e].platform in PlatformOf(h, e);
    }
    FlatMapAll(Synced(h), (e: string) => PlatformLink(h, e), h, done, {});
    AdmitEach(h, done, {}, PlatformLinks(h));
  }

  lemma TagLinksAdmit(h: Hass, done: set<Write>)
    ensures AdmitSeq(h, done, {}, AllTagLinks(h))
  {
    forall e, w | e in Synced(h) && w in TagLinks(h, e) ensures Admissible(h, done, {}, w) {
      InFlatMap(h.entries.items[e].tags, (t: string) => LinkRow(EntityKey(e), HasLabel, TagKey(t)), w);
    }
    FlatMapAll(Synced(h), (e: string) => TagLinks(h, e), h, done, {});
    AdmitEach(h, done, {}, AllTagLinks(h));
  }

  lemma ReferrerRowsAdmit(h: Hass, done: set<Write>, t: Table<Referrer>, lbl: Label, kind: RelType, id: string)
    requires lbl in {Automation, Scene, Script} && kind in {References, Controls}
    ensures AdmitSeq(h, done, {}, ReferrerRows(h, t, lbl, kind, id))
  {
    var node := NodeRow(h, Key(lbl, id));
    AdmitEach(h, done, {}, node);
    if id in t.items {
      var links := FlatMap(t.items[id].refers, (e: string) => LinkRow(Key(lbl, id), kind, EntityKey(e)));
      var done1 := done + SetOf(node);
      assert node[0] in done1;
      assert Known(done1, Key(lbl, id));
      FlatMapAll(t.items[id].refers, (e: string) => LinkRow(Key(lbl, id), kind, EntityKey(e)), h, done1, {});
      AdmitEach(h, done1, {}, links);
      AdmitAppend(h, done, {}, node, links);
    } else {
      assert ReferrerRows(h, t, lbl, kind, id) == node;
    }
  }

  lemma ReferrersAdmit(h: Hass, done: set<Write>, t: Table<Referrer>, lbl: Label, kind: RelType)
    requires lbl in {Automation, Scene, Script} && kind in {References, Controls}
    ensures AdmitSeq(h, done, {}, Referrers(h, t, lbl, kind))
  {
    var f := (id: string) => ReferrerRows(h, t, lbl, kind, id);
    forall id, more: set<Write> | id in t.ids ensures AdmitSeq(h, done + more, {}, f(id)) {
      ReferrerRowsAdmit(h, done + more, t, lbl, kind, id);
    }
    AdmitFlat(h, done, {}, t.ids, f);
  }

  lemma AllReferrersAdmit(h: Hass, done: set<Write>)
    ensures AdmitSeq(h, done, {}, AllReferrers(h))
  {
    hide Referrers;
    var a, b, c := Referrers(h, h.automations, Automation, References), Referrers(h, h.scenes, Scene, Controls),
                   Referrers(h, h.scripts, Script, References);
    ReferrersAdmit(h, done, h.automations, Automation, References);
    ReferrersAdmit(h, done + SetOf(a), h.scenes, Scene, Controls);
    ReferrersAdmit(h, done + SetOf(a) + SetOf(b), h.scripts, Script, References);
    AdmitAppend(h, done + SetOf(a), {}, b, c);
    AdmitAppend(h, done, {}, a, b + c);
  }

  lemma RestAdmits(h: Hass, done: set<Write>)
    requires HasRows(h, done)
    ensures AdmitSeq(h, done, {}, Rest(h))
  {
    hide PlatformLinks, AllTagLinks, DomainRows, PlatformRows, AllReferrers;
    var a, b, c := PlatformLinks(h), AllTagLinks(h), DomainRows(h);
    var d, e, f := PlatformRows(h), AllReferrers(h), [EnsureSchema(SCHEMA_PROPS)];
    PlatformLinksAdmit(h, done);
    var d1 := done + SetOf(a);
    TagLinksAdmit(h, d1);
    var d2 := d1 + SetOf(b);
    RowsAdmit(h, d2);
    var d3 := d2 + SetOf(c);
    RowsAdmit(h, d3);
    var d4 := d3 + SetOf(d);
    AllReferrersAdmit(h, d4);
    AdmitEach(h, d4 + SetOf(e), {}, f);
    AdmitAppend(h, d4, {}, e, f);
    AdmitAppend(h, d3, {}, d, e + f);
    AdmitAppend(h, d2, {}, c, d + (e + f));
    AdmitAppend(h, d1, {}, b, c + (d + (e + f)));
    AdmitAppend(h, done, {}, a, b + (c + (d + (e + f))));
  }

  // ---- Classification ----------------------------------------------------------------------

  ghost predicate RulesOk(rules: seq<Rule>) { forall r :: r in rules ==> r.back.Named? }

  lemma RuleWritesAdmit(h: Hass, done: set<Write>, e: string, rule: Rule)
    requires rule.back.Named?
    ensures AdmitSeq(h, done, {}, RuleWrites(h, e, rule))
  {
    var ws := RuleWrites(h, e, rule);
    var nodes, links := [ws[0], ws[2]], ws[3..];
    assert Admissible(h, done, {}, ws[0]);
    var d1 := done + {ws[0]};
    assert ws[0] in d1 && Known(d1, TypeKey(rule.typeLabel));
    assert Admissible(h, d1, {}, ws[1]);
    var d2 := d1 + {ws[1]};
    assert Admissible(h, d2, {}, ws[2]);
    var d3 := d2 + {ws[2]};
    assert ws[2] in d3 && Known(d3, AssetKey(e, rule.typeLabel));
    forall w | w in links ensures Admissible(h, d3, {}, w) { }
    AdmitEach(h, d3, {}, links);
    assert ws[1..][0] == ws[1] && ws[1..][1..] == ws[2..] && ws[2..][0] == ws[2] && ws[2..][1..] == links;
    assert AdmitSeq(h, d2, {}, ws[2..]);
    assert AdmitSeq(h, d1, {}, ws[1..]);
  }

  lemma {:induction false} ClassifyRulesAdmit(h: Hass, done: set<Write>, g: G, e: string, rules: seq<Rule>)
    requires RulesOk(rules)
    ensures AdmitSeq(h, done, {}, ClassifyRules(h, g, e, rules))
    decreases |rules|
  {
    if rules != [] {
      var first := if Overridden(g, e, rules[0].typeLabel) then [] else RuleWrites(h, e, rules[0]);
      RuleWritesAdmit(h, done, e, rules[0]);
      ClassifyRulesAdmit(h, done + SetOf(first), g, e, rules[1..]);
      AdmitAppend(h, done, {}, first, ClassifyRules(h, g, e, rules[1..]));
    }
  }

  lemma ClassifyAdmits(h: Hass, done: set<Write>, g: G, rules: seq<Rule>)
    requires RulesOk(rules)
    ensures AdmitSeq(h, done, {}, ClassifyWrites(h, g, rules))
  {
    var f := (e: string) => ClassifyEntity(h, g, rules, e);
    forall e, more: set<Write> | e in Synced(h) ensures AdmitSeq(h, done + more, {}, f(e)) {
      MatchingIn(rules, h.signals(e));
      ClassifyRulesAdmit(h, done + more, g, e, MatchingRules(rules, h.signals(e)));
    }
    AdmitFlat(h, done, {}, Synced(h), f);
  }

  // ---- Before the drops -----------------------------------------------------------------------

  lemma SetOfAppend(a: seq<Write>, b: seq<Write>)
    ensures SetOf(a + b) == SetOf(a) + SetOf(b)
  {
  }

  lemma SettleStage(h: Hass, g: G, done: set<Write>, open: set<Label>, fewer: set<Label>, ws: seq<Write>)
    requires Settled(h, g, done, open) && fewer <= open && AdmitSeq(h, done, fewer, ws)
    ensures Settled(h, ExecAll(g, ws), done + SetOf(ws), fewer)
  {
    Close(h, g, done, open, fewer);
    SettleAll(h, g, done, fewer, ws);
  }

  lemma JoinSettled(h: Hass, g: G, done: set<Write>, ws: seq<Write>, rest: seq<Write>, open: set<Label>)
    requires Settled(h, ExecAll(ExecAll(g, ws), rest), done + SetOf(ws) + SetOf(rest), open)
    ensures Settled(h, ExecAll(g, ws + rest), done + SetOf(ws + rest), open)
  {
    ExecAllAppend(g, ws, rest);
    SetOfAppend(ws, rest);
    assert done + SetOf(ws) + SetOf(rest) == done + SetOf(ws + rest);
  }

  lemma From3(h: Hass, g: G, done: set<Write>)
    requires Settled(h, g, done, OPEN2)
    ensures var ws := DeviceLinksAndEntities(h) + EntityLinks(h); Settled(h, ExecAll(g, ws), done + SetOf(ws), {})
  {
    hide DeviceLinksAndEntities, EntityLinks, Settled, HasRows;
    var a, b := DeviceLinksAndEntities(h), EntityLinks(h);
    Stage3(h, done);
    SettleStage(h, g, done, OPEN2, OPEN3, a);
    Stage4(h, done + SetOf(a));
    SettleStage(h, ExecAll(g, a), done + SetOf(a), OPEN3, {}, b);
    JoinSettled(h, g, done, a, b, {});
  }

  lemma From2(h: Hass, g: G, done: set<Write>)
    requires Settled(h, g, done, OPEN1)
    ensures var ws := AreaLinksAndDevices(h) + (DeviceLinksAndEntities(h) + EntityLinks(h));
            Settled(h, ExecAll(g, ws), done + SetOf(ws), {})
  {
    hide AreaLinksAndDevices, DeviceLinksAndEntities, EntityLinks, Settled;
    var a := AreaLinksAndDevices(h);
    Stage2(h, done);
    SettleStage(h, g, done, OPEN1, OPEN2, a);
    From3(h, ExecAll(g, a), done + SetOf(a));
    JoinSettled(h, g, done, a, DeviceLinksAndEntities(h) + EntityLinks(h), {});
  }

  lemma From1(h: Hass, g: G, done: set<Write>)
    requires Settled(h, g, done, OPEN0)
    ensures var ws := FloorLinksAndAreas(h) + (AreaLinksAndDevices(h) + (DeviceLinksAndEntities(h) + EntityLinks(h)));
            Settled(h, ExecAll(g, ws), done + SetOf(ws), {})
  {
    hide FloorLinksAndAreas, AreaLinksAndDevices, DeviceLinksAndEntities, EntityLinks, Settled;
    var a := FloorLinksAndAreas(h);
    Stage1(h, done);
    SettleStage(h, g, done, OPEN0, OPEN1, a);
    From2(h, ExecAll(g, a), done + SetOf(a));
    JoinSettled(h, g, done, a, AreaLinksAndDevices(h) + (DeviceLinksAndEntities(h) + EntityLinks(h)), {});
  }

  lemma BeforeSettles(h: Hass, g: G)
    ensures Settled(h, ExecAll(g, BeforeDrops(h)), SetOf(BeforeDrops(h)), {})
  {
    hide HomeAndFloors, FloorLinksAndAreas, AreaLinksAndDevices, DeviceLinksAndEntities, EntityLinks, Settled;
    var a := HomeAndFloors(h);
    NothingSettled(h, g);
    Stage0(h);
    SettleStage(h, g, {}, OPEN0, OPEN0, a);
    From1(h, ExecAll(g, a), {} + SetOf(a));
    var rest := FloorLinksAndAreas(h) + (AreaLinksAndDevices(h) + (DeviceLinksAndEntities(h) + EntityLinks(h)));
    JoinSettled(h, g, {}, a, rest, {});
    assert {} + SetOf(BeforeDrops(h)) == SetOf(BeforeDrops(h));
  }

  lemma BeforeHasRows(h: Hass)
    ensures HasRows(h, SetOf(BeforeDrops(h)))
  {
    hide HomeAndFloors, FloorLinksAndAreas, AreaLinksAndDevices, DeviceLinksAndEntities, DomainRows, PlatformRows;
    forall w | w in DomainRows(h) || w in PlatformRows(h) ensures w in BeforeDrops(h) { assert w in EntityLinks(h); }
  }

  lemma NothingSettled(h: Hass, g: G)
    ensures Settled(h, g, {}, OPEN0)
  {
  }

  // ---- What the rows leave alone -----------------------------------------------------------------

  predicate IsArea(r: RelKey) { r.from.lbl == Entity && r.kind == HasArea }

  // The areas, devices and entities a build creates are the registry's.
  predicate Listed(h: Hass, k: NodeKey) {
    k.id.Plain? &&
    (match k.lbl
     case Area => k.id.text in h.areas.ids
     case Device => k.id.text in h.devices.ids
     case Entity => k.id.text in Synced(h)
     case _ => false)
  }

  // A merge of a node the registry lists, or of anything but an entity's area.
  predicate Calm(h: Hass, w: Write) {
    Merge(w) && (w.MergeRel? ==> !IsArea(w.rel) && w.rel.kind != OverrideOf) &&
    (NodeWrite(w) ==>
       (TargetOf(w).lbl in {Area, Device, Entity} ==> Listed(h, TargetOf(w))) && TargetOf(w).lbl != RoleAssignment)
  }

  ghost predicate AllCalm(h: Hass, ws: seq<Write>) { forall w :: w in ws ==> Calm(h, w) }

  lemma CalmFlat(h: Hass, ids: seq<string>, f: string -> seq<Write>)
    requires forall id :: id in ids ==> AllCalm(h, f(id))
    ensures AllCalm(h, FlatMap(ids, f))
  {
    forall w | w in FlatMap(ids, f) ensures Calm(h, w) { InFlatMap(ids, f, w); }
  }

  lemma NodeRowsCalm(h: Hass, lbl: Label, ids: seq<string>)
    requires lbl != RoleAssignment
    requires lbl in {Area, Device, Entity} ==> forall id :: id in ids ==> Listed(h, Key(lbl, id))
    ensures AllCalm(h, NodeRows(h, lbl, ids))
  {
    CalmFlat(h, ids, (id: string) => NodeRow(h, Key(lbl, id)));
  }

  lemma FloorsCalm(h: Hass)
    ensures AllCalm(h, HomeAndFloors(h)) && AllCalm(h, FloorLinksAndAreas(h))
  {
    hide NodeRows;
    NodeRowsCalm(h, Floor, h.floors.ids);
    CalmFlat(h, h.floors.ids, (f: string) => LinkRow(HOME, HasFloor, FloorKey(f)));
    NodeRowsCalm(h, Area, h.areas.ids);
  }

  lemma AreasCalm(h: Hass)
    ensures AllCalm(h, AreaLinksAndDevices(h)) && AllCalm(h, DeviceLinksAndEntities(h))
  {
    hide NodeRows;
    CalmFlat(h, h.areas.ids, (a: string) => LinkRow(HOME, HasArea, AreaKey(a)));
    CalmFlat(h, h.areas.ids, (a: string) => AreaFloorLink(h, a));
    NodeRowsCalm(h, Device, h.devices.ids);
    CalmFlat(h, h.devices.ids, (d: string) => AreaDeviceLink(h, d));
    NodeRowsCalm(h, Tag, h.tags.ids);
    CalmFlat(h, Synced(h), (e: string) => EntityRow(h, e));
  }

  lemma EntityLinksCalm(h: Hass)
    ensures AllCalm(h, EntityLinks(h))
  {
    hide NodeRows;
    NodeRowsCalm(h, Domain, Domains(h));
    NodeRowsCalm(h, Integration, Platforms(h));
    CalmFlat(h, Synced(h), (e: string) => DomainLink(e));
    CalmFlat(h, Synced(h), (e: string) => DeviceLink(h, e));
  }

  lemma BeforeCalm(h: Hass)
    ensures AllCalm(h, BeforeDrops(h))
  {
    hide HomeAndFloors, FloorLinksAndAreas, AreaLinksAndDevices, DeviceLinksAndEntities, EntityLinks, Calm;
    FloorsCalm(h);
    AreasCalm(h);
    EntityLinksCalm(h);
  }

  lemma ReferrersCalm(h: Hass, t: Table<Referrer>, lbl: Label, kind: RelType)
    requires lbl in {Automation, Scene, Script} && kind in {References, Controls}
    ensures AllCalm(h, Referrers(h, t, lbl, kind))
  {
    forall id | id in t.ids ensures AllCalm(h, ReferrerRows(h, t, lbl, kind, id)) {
      if id in t.items { CalmFlat(h, t.items[id].refers, (e: string) => LinkRow(Key(lbl, id), kind, EntityKey(e))); }
    }
    CalmFlat(h, t.ids, (id: string) => ReferrerRows(h, t, lbl, kind, id));
  }

  lemma RestLinksCalm(h: Hass)
    ensures AllCalm(h, PlatformLinks(h)) && AllCalm(h, AllTagLinks(h))
  {
    CalmFlat(h, Synced(h), (e: string) => PlatformLink(h, e));
    forall e | e in Synced(h) ensures AllCalm(h, TagLinks(h, e)) {
      if e in h.entries.items {
        CalmFlat(h, h.entries.items[e].tags, (t: string) => LinkRow(EntityKey(e), HasLabel, TagKey(t)));
      }
    }
    CalmFlat(h, Synced(h), (e: string) => TagLinks(h, e));
  }

  lemma RestCalm(h: Hass)
    ensures AllCalm(h, Rest(h))
  {
    hide PlatformLinks, AllTagLinks, NodeRows, Referrers;
    RestLinksCalm(h);
    NodeRowsCalm(h, Domain, Domains(h));
    NodeRowsCalm(h, Integration, Platforms(h));
    ReferrersCalm(h, h.automations, Automation, References);
    ReferrersCalm(h, h.scenes, Scene, Controls);
    ReferrersCalm(h, h.scripts, Script, References);
  }

  lemma {:induction false} ClassifyRulesCalm(h: Hass, g: G, e: string, rules: seq<Rule>)
    requires RulesOk(rules)
    ensures AllCalm(h, ClassifyRules(h, g, e, rules))
    decreases |rules|
  {
    if rules != [] {
      assert rules[0].back.Named?;
      ClassifyRulesCalm(h, g, e, rules[1..]);
    }
  }

  lemma AfterCalm(h: Hass, g: G, rules: seq<Rule>)
    requires RulesOk(rules)
    ensures AllCalm(h, AfterLinks(h, g, rules))
  {
    RestCalm(h);
    forall e | e in Synced(h) ensures AllCalm(h, ClassifyEntity(h, g, rules, e)) {
      MatchingIn(rules, h.signals(e));
      ClassifyRulesCalm(h, g, e, MatchingRules(rules, h.signals(e)));
    }
    CalmFlat(h, Synced(h), (e: string) => ClassifyEntity(h, g, rules, e));
  }

  predicate SameRel(g: G, h: G, r: RelKey) { (r in g.rels <==> r in h.rels) && RelOr(g, r) == RelOr(h, r) }

  predicate SameNode(g: G, h: G, k: NodeKey) { (k in g.nodes <==> k in h.nodes) && NodeOr(g, k) == NodeOr(h, k) }

  lemma CalmOne(h: Hass, g: G, w: Write)
    requires Calm(h, w)
    ensures g.nodes.Keys <= Exec(g, w).nodes.Keys && g.rels.Keys <= Exec(g, w).rels.Keys
    ensures forall r :: IsArea(r) || r.kind == OverrideOf ==> SameRel(g, Exec(g, w), r)
    ensures forall k :: k in Exec(g, w).nodes && k !in g.nodes && k.lbl in {Area, Device, Entity} ==> Listed(h, k)
    ensures forall k: NodeKey :: k.lbl == RoleAssignment ==> SameNode(g, Exec(g, w), k)
  {
  }

  /** Calm rows delete nothing and leave entity areas and overrides as they are. */
  lemma {:induction false} CalmKeeps(h: Hass, g: G, ws: seq<Write>)
    requires AllCalm(h, ws)
    ensures g.nodes.Keys <= ExecAll(g, ws).nodes.Keys && g.rels.Keys <= ExecAll(g, ws).rels.Keys
    ensures forall r :: IsArea(r) || r.kind == OverrideOf ==> SameRel(g, ExecAll(g, ws), r)
    ensures forall k :: k in ExecAll(g, ws).nodes && k !in g.nodes && k.lbl in {Area, Device, Entity} ==> Listed(h, k)
    ensures forall k: NodeKey :: k.lbl == RoleAssignment ==> SameNode(g, ExecAll(g, ws), k)
    decreases |ws|
  {
    if ws != [] {
      hide Calm, Exec, Listed;
      assert Calm(h, ws[0]);
      CalmOne(h, g, ws[0]);
      CalmKeeps(h, Exec(g, ws[0]), ws[1..]);
    }
  }

  // ---- Drops and area links, in closed form -------------------------------------------------------

  predicate Dropped(p: Props, r: RelKey, ids: seq<string>) {
    IsArea(r) && r.from.id.Plain? && r.from.id.text in ids && r.to.lbl == Area && SourceOf(p) == HomeAssistant
  }

  function WithoutAreas(g: G, ids: seq<string>): G {
    g.(rels := map r | r in g.rels && !Dropped(g.rels[r], r, ids) :: g.rels[r])
  }

  lemma {:induction false} DropsAre(g: G, ids: seq<string>)
    ensures ExecAll(g, Drops(ids)) == WithoutAreas(g, ids)
    decreases |ids|
  {
    if ids == [] {
      assert WithoutAreas(g, ids).rels == g.rels;
    } else {
      var f := (e: string) => [DropAreas(e)];
      var g1 := Exec(g, DropAreas(ids[0]));
      ExecAllAppend(g, [DropAreas(ids[0])], Drops(ids[1..]));
      ExecPair(g, DropAreas(ids[0]), DropAreas(ids[0]));
      DropsAre(g1, ids[1..]);
      forall r | r in g.rels
        ensures Dropped(g.rels[r], r, ids) <==> IsOwnArea(g.rels[r], r, ids[0]) || Dropped(g.rels[r], r, ids[1..])
      {
        if Dropped(g.rels[r], r, ids) { assert r.from.id.text == ids[0] || r.from.id.text in ids[1..]; }
      }
      assert WithoutAreas(g, ids).rels == WithoutAreas(g1, ids[1..]).rels;
    }
  }

  /** The area relationships the registry asks for. */
  ghost predicate Wanted(h: Hass, ids: seq<string>, r: RelKey) {
    exists e :: e in ids && HaRel(r.from, r.kind, r.to) in AreaLink(h, e)
  }

  lemma WantedNext(h: Hass, ids: seq<string>, r: RelKey)
    requires ids != []
    ensures Wanted(h, ids, r) <==> HaRel(r.from, r.kind, r.to) in AreaLink(h, ids[0]) || Wanted(h, ids[1..], r)
  {
    if Wanted(h, ids, r) {
      var e :| e in ids && HaRel(r.from, r.kind, r.to) in AreaLink(h, e);
      assert e == ids[0] || e in ids[1..];
    }
    if Wanted(h, ids[1..], r) {
      var e :| e in ids[1..] && HaRel(r.from, r.kind, r.to) in AreaLink(h, e);
      assert e in ids;
    }
  }

  function LinksOf(h: Hass, ids: seq<string>): seq<Write> { FlatMap(ids, (e: string) => AreaLink(h, e)) }

  ghost predicate Linked(h: Hass, g: G, after: G, ids: seq<string>) {
    after.nodes == g.nodes &&
    forall r :: if Wanted(h, ids, r) && HasEnds(g, r)
                then r in after.rels && after.rels[r] == Plus(RelOr(g, r), Sourced(HomeAssistant))
                else SameRel(g, after, r)
  }

  lemma LinkOne(h: Hass, g: G, e: string)
    ensures var after := ExecAll(g, AreaLink(h, e)); Linked(h, g, after, [e])
  {
    forall r ensures Wanted(h, [e], r) <==> HaRel(r.from, r.kind, r.to) in AreaLink(h, e) {
      if HaRel(r.from, r.kind, r.to) in AreaLink(h, e) { assert e in [e]; }
    }
    if AreaLink(h, e) != [] { ExecPair(g, AreaLink(h, e)[0], AreaLink(h, e)[0]); }
  }

  lemma {:induction false} LinksAre(h: Hass, g: G, ids: seq<string>)
    ensures Linked(h, g, ExecAll(g, LinksOf(h, ids)), ids)
    decreases |ids|
  {
    if ids != [] {
      var g1 := ExecAll(g, AreaLink(h, ids[0]));
      ExecAllAppend(g, AreaLink(h, ids[0]), LinksOf(h, ids[1..]));
      LinkOne(h, g, ids[0]);
      LinksAre(h, g1, ids[1..]);
      var after := ExecAll(g1, LinksOf(h, ids[1..]));
      assert ExecAll(g, LinksOf(h, ids)) == after;
      forall r
        ensures if Wanted(h, ids, r) && HasEnds(g, r)
                then r in after.rels && after.rels[r] == Plus(RelOr(g, r), Sourced(HomeAssistant))
                else SameRel(g, after, r)
      {
        WantedNext(h, ids, r);
        WantedNext(h, [ids[0]], r);
        assert [ids[0]][1..] == [];
        PlusTwice(RelOr(g, r), Sourced(HomeAssistant));
      }
    }
  }

  // ---- One build ------------------------------------------------------------------------------------

  function AtDrops(h: Hass, g: G): G { WithoutAreas(ExecAll(g, BeforeDrops(h)), Synced(h)) }
  function AtLinks(h: Hass, g: G): G { ExecAll(AtDrops(h, g), LinksOf(h, Synced(h))) }

  lemma AreaLinksAre(h: Hass)
    ensures AreaLinks(h) == LinksOf(h, Synced(h))
  {
    FlatMapSame(Synced(h), (e: string) => AreaLink(h, e), (e: string) => AreaLink(h, e));
  }

  lemma {:induction false} FlatMapSame<T>(ids: seq<string>, f: string -> seq<T>, k: string -> seq<T>)
    requires forall id :: id in ids ==> f(id) == k(id)
    ensures FlatMap(ids, f) == FlatMap(ids, k)
    decreases |ids|
  {
    if ids != [] { FlatMapSame(ids[1..], f, k); }
  }

  lemma BuildParts(h: Hass, g: G, rules: seq<Rule>)
    ensures FullBuild(h, g, rules) == ExecAll(AtLinks(h, g), AfterLinks(h, g, rules))
  {
    hide BeforeDrops, AreaLinks, AfterLinks, WithoutAreas, LinksOf;
    var g1 := ExecAll(g, BeforeDrops(h));
    AreaLinksAre(h);
    DropsAre(g1, Synced(h));
    var after := AfterLinks(h, g, rules);
    ExecAllAppend(AtDrops(h, g), AreaLinks(h), after);
    ExecAllAppend(g1, Drops(Synced(h)), AreaLinks(h) + after);
    ExecAllAppend(g, BeforeDrops(h), Drops(Synced(h)) + (AreaLinks(h) + after));
  }

  ghost predicate SameButAreas(g: G, h: G) { g.nodes == h.nodes && forall r :: !IsArea(r) ==> SameRel(g, h, r) }

  /** Whatever was finished and is not about areas stays finished when only areas change. */
  lemma CalmStaysDone(h: Hass, g: G, g2: G, w: Write)
    requires Calm(h, w) && Done(g, w) && SameButAreas(g, g2)
    ensures Done(g2, w)
  {
    if w.MergeRel? {
      if HasEnds(g2, w.rel) {
        assert w.rel in Exec(g, w).rels && Exec(g, w).rels[w.rel] == Plus(RelOr(g, w.rel), w.props);
        assert SameRel(g, g2, w.rel);
        assert g2.rels[w.rel := g2.rels[w.rel]] == g2.rels;
      }
    } else if w.EnsureSchema? {
      DoneNode(g, w);
    } else {
      DoneNode(g, w);
      var k := TargetOf(w);
      assert Exec(g, w).nodes[k] == g.nodes[k];
      assert g2.nodes[k := g2.nodes[k]] == g2.nodes;
    }
  }

  lemma DropsSettled(h: Hass, g: G, ids: seq<string>, done: set<Write>)
    requires Settled(h, g, done, {}) && forall w :: w in done ==> Calm(h, w)
    ensures Settled(h, WithoutAreas(g, ids), done, {})
  {
    assert SameButAreas(g, WithoutAreas(g, ids));
    forall w | w in done ensures Done(WithoutAreas(g, ids), w) { CalmStaysDone(h, g, WithoutAreas(g, ids), w); }
  }

  lemma AfterLinksAdmit(h: Hass, done: set<Write>, g: G, rules: seq<Rule>)
    requires HasRows(h, done) && RulesOk(rules)
    ensures AdmitSeq(h, done, {}, AfterLinks(h, g, rules))
  {
    hide HasRows, Rest, ClassifyWrites;
    RestAdmits(h, done);
    ClassifyAdmits(h, done + SetOf(Rest(h)), g, rules);
    AdmitAppend(h, done, {}, Rest(h), ClassifyWrites(h, g, rules));
  }

  function BuildMerges(h: Hass, g: G, rules: seq<Rule>): set<Write> {
    SetOf(BeforeDrops(h)) + SetOf(LinksOf(h, Synced(h))) + SetOf(AfterLinks(h, g, rules))
  }

  /** After a build every merge it made is settled. */
  lemma BuildSettles(h: Hass, g: G, rules: seq<Rule>)
    requires RulesOk(rules)
    ensures Settled(h, FullBuild(h, g, rules), BuildMerges(h, g, rules), {})
  {
    hide BeforeDrops, AreaLinks, AfterLinks, WithoutAreas, LinksOf, Settled, FullBuild, HasRows;
    var done := SetOf(BeforeDrops(h));
    BeforeSettles(h, g);
    BeforeHasRows(h);
    BeforeCalm(h);
    DropsSettled(h, ExecAll(g, BeforeDrops(h)), Synced(h), done);
    AreaLinksAre(h);
    AreaLinksAdmit(h, done);
    var links := LinksOf(h, Synced(h));
    SettleStage(h, AtDrops(h, g), done, {}, {}, links);
    HasRowsMore(h, done, SetOf(links));
    AfterLinksAdmit(h, done + SetOf(links), g, rules);
    SettleStage(h, AtLinks(h, g), done + SetOf(links), {}, {}, AfterLinks(h, g, rules));
    BuildParts(h, g, rules);
  }

  lemma HasRowsMore(h: Hass, done: set<Write>, more: set<Write>)
    requires HasRows(h, done)
    ensures HasRows(h, done + more)
  {
  }

  // ---- What a build keeps -------------------------------------------------------------------------

  lemma AreaLinksKeep(h: Hass, g: G, ids: seq<string>)
    ensures var after := ExecAll(g, LinksOf(h, ids));
            after.nodes == g.nodes && g.rels.Keys <= after.rels.Keys && SameButAreas(g, after)
  {
    hide AreaLink;
    LinksAre(h, g, ids);
    var after := ExecAll(g, LinksOf(h, ids));
    forall r | r in g.rels ensures r in after.rels {
      if !(Wanted(h, ids, r) && HasEnds(g, r)) { assert SameRel(g, after, r); }
    }
    forall r | !IsArea(r) ensures SameRel(g, after, r) {
      if Wanted(h, ids, r) { WantedArea(h, ids, r); }
    }
  }

  lemma WantedArea(h: Hass, ids: seq<string>, r: RelKey)
    requires Wanted(h, ids, r)
    ensures IsArea(r) && r.from.id.Plain? && r.from.id.text in ids && r.to.lbl == Area
  {
  }

  /** A full build deletes no node, and the only relationships it deletes are areas of synced entities
      that Home Assistant had asserted. */
  lemma BuildDeletesOnlyOwnAreas(h: Hass, g: G, rules: seq<Rule>)
    requires RulesOk(rules)
    ensures var after := FullBuild(h, g, rules);
            g.nodes.Keys <= after.nodes.Keys &&
            forall r :: r in g.rels && r !in after.rels ==> Dropped(g.rels[r], r, Synced(h))
  {
    hide BeforeDrops, AfterLinks, FullBuild, LinksOf;
    BuildParts(h, g, rules);
    BeforeCalm(h);
    CalmKeeps(h, g, BeforeDrops(h));
    AreaLinksKeep(h, AtDrops(h, g), Synced(h));
    AfterCalm(h, g, rules);
    CalmKeeps(h, AtLinks(h, g), AfterLinks(h, g, rules));
    forall r | r in g.rels && r !in FullBuild(h, g, rules).rels ensures Dropped(g.rels[r], r, Synced(h)) {
      assert r !in AtDrops(h, g).rels;
      assert IsArea(r);
      assert SameRel(g, ExecAll(g, BeforeDrops(h)), r);
    }
  }

  lemma ListedRow(h: Hass, k: NodeKey)
    requires Listed(h, k)
    ensures exists w :: w in BeforeDrops(h) && NodeWrite(w) && TargetOf(w) == k
  {
    hide HomeAndFloors, AreaFloorLinks, HomeAreaLinks, AreaDeviceLinks, EntityLinks, FloorLinks;
    var id := k.id.text;
    var w := if k.lbl == Entity then MergeEntity(id, BaseProps(h, id, None), MeasurementProps(h, id, None))
             else MergeNode(k, NodeProps(h, k));
    if k.lbl == Entity {
      InFlatMap(Synced(h), (e: string) => EntityRow(h, e), w);
      assert w in EntityRow(h, id);
      assert w in DeviceLinksAndEntities(h);
    } else {
      var ids := if k.lbl == Area then h.areas.ids else h.devices.ids;
      InFlatMap(ids, (x: string) => NodeRow(h, Key(k.lbl, x)), w);
      assert w in NodeRow(h, Key(k.lbl, id));
      assert w in FloorLinksAndAreas(h) || w in AreaLinksAndDevices(h);
    }
    assert w in BeforeDrops(h) && NodeWrite(w) && TargetOf(w) == k;
  }

  /** Areas, devices and entities after a build: those there were and those the registry lists. Energy-role
      assignments are left alone. */
  lemma BuildNodes(h: Hass, g: G, rules: seq<Rule>, k: NodeKey)
    requires RulesOk(rules)
    ensures k.lbl in {Area, Device, Entity} ==> (k in FullBuild(h, g, rules).nodes <==> k in g.nodes || Listed(h, k))
    ensures k.lbl == RoleAssignment ==> SameNode(g, FullBuild(h, g, rules), k)
  {
    hide BeforeDrops, AfterLinks, FullBuild, LinksOf, Listed, Settled;
    BuildParts(h, g, rules);
    BeforeCalm(h);
    CalmKeeps(h, g, BeforeDrops(h));
    AreaLinksKeep(h, AtDrops(h, g), Synced(h));
    AfterCalm(h, g, rules);
    CalmKeeps(h, AtLinks(h, g), AfterLinks(h, g, rules));
    if Listed(h, k) {
      ListedRow(h, k);
      var w :| w in BeforeDrops(h) && NodeWrite(w) && TargetOf(w) == k;
      BuildSettles(h, g, rules);
      assert w in BuildMerges(h, g, rules);
      SettledDone(h, FullBuild(h, g, rules), BuildMerges(h, g, rules), w);
      DoneNode(FullBuild(h, g, rules), w);
    }
  }

  lemma BuildKeepsOverrides(h: Hass, g: G, rules: seq<Rule>)
    requires RulesOk(rules)
    ensures forall r: RelKey :: r.kind == OverrideOf ==> SameRel(g, FullBuild(h, g, rules), r)
  {
    hide BeforeDrops, AfterLinks, FullBuild, LinksOf;
    BuildParts(h, g, rules);
    BeforeCalm(h);
    CalmKeeps(h, g, BeforeDrops(h));
    AreaLinksKeep(h, AtDrops(h, g), Synced(h));
    AfterCalm(h, g, rules);
    CalmKeeps(h, AtLinks(h, g), AfterLinks(h, g, rules));
    forall r: RelKey | r.kind == OverrideOf ensures SameRel(g, FullBuild(h, g, rules), r) {
      assert SameRel(g, ExecAll(g, BeforeDrops(h)), r);
      assert SameRel(AtDrops(h, g), AtLinks(h, g), r);
    }
  }

  /** An entity's areas after a build: the wanted one, and whatever others had asserted. */
  lemma AreasAfterBuild(h: Hass, g: G, rules: seq<Rule>, r: RelKey)
    requires RulesOk(rules) && IsArea(r)
    ensures SameRel(AtLinks(h, g), FullBuild(h, g, rules), r)
    ensures SameRel(g, ExecAll(g, BeforeDrops(h)), r)
  {
    hide BeforeDrops, AfterLinks, FullBuild, LinksOf;
    BuildParts(h, g, rules);
    BeforeCalm(h);
    CalmKeeps(h, g, BeforeDrops(h));
    AfterCalm(h, g, rules);
    CalmKeeps(h, AtLinks(h, g), AfterLinks(h, g, rules));
  }

  // ---- Two builds ------------------------------------------------------------------------------------

  /** A relationship is wanted for an entity, and somebody else has already asserted it with properties of
      its own: the first build stamps it as Home Assistant's, the second deletes and recreates it bare. */
  predicate LosesProps(g: G, r: RelKey) {
    r in g.rels && SourceOf(g.rels[r]) != HomeAssistant && !(g.rels[r].Keys <= {PSource})
  }

  ghost predicate PlainForeignAreas(h: Hass, g: G) {
    forall r :: Wanted(h, Synced(h), r) ==> !LosesProps(g, r)
  }

  lemma ClassifySame(h: Hass, g: G, g2: G, rules: seq<Rule>)
    requires forall r: RelKey :: r.kind == OverrideOf ==> SameRel(g, g2, r)
    ensures ClassifyWrites(h, g, rules) == ClassifyWrites(h, g2, rules)
  {
    forall e | e in Synced(h) ensures ClassifyEntity(h, g, rules, e) == ClassifyEntity(h, g2, rules, e) {
      ClassifyRulesSame(h, g, g2, e, MatchingRules(rules, h.signals(e)));
    }
    FlatMapSame(Synced(h), (e: string) => ClassifyEntity(h, g, rules, e),
                (e: string) => ClassifyEntity(h, g2, rules, e));
  }

  lemma {:induction false} ClassifyRulesSame(h: Hass, g: G, g2: G, e: string, rules: seq<Rule>)
    requires forall r: RelKey :: r.kind == OverrideOf ==> SameRel(g, g2, r)
    ensures ClassifyRules(h, g, e, rules) == ClassifyRules(h, g2, e, rules)
    decreases |rules|
  {
    if rules != [] {
      assert SameRel(g, g2, Override(EntityKey(e), rules[0].typeLabel));
      ClassifyRulesSame(h, g, g2, e, rules[1..]);
    }
  }

  lemma {:induction false} CalmReplay(g: G, ws: seq<Write>)
    requires forall w :: w in ws ==> Done(g, w)
    ensures ExecAll(g, ws) == g
    decreases |ws|
  {
    if ws != [] {
      assert ws[0] in ws;
      CalmReplay(g, ws[1..]);
    }
  }

  /** The second build reduces to dropping and re-linking areas. */
  lemma SecondBuild(h: Hass, g: G, rules: seq<Rule>)
    requires RulesOk(rules)
    ensures var f := FullBuild(h, g, rules);
            FullBuild(h, f, rules) == ExecAll(WithoutAreas(f, Synced(h)), LinksOf(h, Synced(h)))
  {
    hide BeforeDrops, FullBuild, LinksOf, Settled, ClassifyWrites, Rest;
    var f := FullBuild(h, g, rules);
    BuildSettles(h, g, rules);
    BuildKeepsOverrides(h, g, rules);
    ClassifySame(h, g, f, rules);
    var after := AfterLinks(h, f, rules);
    assert after == AfterLinks(h, g, rules);
    SettledReplay(h, f, BuildMerges(h, g, rules), {}, BeforeDrops(h));
    var l := AtLinks(h, f);
    AreaLinksKeep(h, AtDrops(h, f), Synced(h));
    assert SameButAreas(f, l) by {
      forall r | !IsArea(r) ensures SameRel(f, l, r) { assert SameRel(AtDrops(h, f), l, r); }
    }
    AfterCalm(h, g, rules);
    forall w | w in after ensures Done(l, w) {
      SettledDone(h, f, BuildMerges(h, g, rules), w);
      CalmStaysDone(h, f, l, w);
    }
    CalmReplay(l, after);
    BuildParts(h, f, rules);
  }

  lemma SettledDone(h: Hass, g: G, done: set<Write>, w: Write)
    requires Settled(h, g, done, {}) && w in done
    ensures Done(g, w)
  {
  }

  lemma WantedIsWritten(h: Hass, ids: seq<string>, r: RelKey)
    requires Wanted(h, ids, r)
    ensures HaRel(r.from, r.kind, r.to) in LinksOf(h, ids)
  {
    InFlatMap(ids, (e: string) => AreaLink(h, e), HaRel(r.from, r.kind, r.to));
  }

  lemma WantedWithEnds(h: Hass, g: G, rules: seq<Rule>, r: RelKey)
    requires RulesOk(rules) && Closed(g) && Wanted(h, Synced(h), r)
    ensures var f := FullBuild(h, g, rules); r in f.rels <==> HasEnds(f, r)
  {
    hide BeforeDrops, FullBuild, LinksOf, Settled, AfterLinks, BuildWrites, Wanted;
    var f, w := FullBuild(h, g, rules), HaRel(r.from, r.kind, r.to);
    assert Closed(f) by {
      ExecAllClosed(g, BuildWrites(h, g, rules));
      BuildIsExec(h, g, rules);
    }
    BuildSettles(h, g, rules);
    WantedIsWritten(h, Synced(h), r);
    assert w in BuildMerges(h, g, rules);
    SettledDone(h, f, BuildMerges(h, g, rules), w);
    if HasEnds(f, r) { assert r in Exec(f, w).rels; }
  }

  /** After a build a wanted area is Home Assistant's, and it keeps exactly the foreign properties it had. */
  lemma WantedAfterBuild(h: Hass, g: G, rules: seq<Rule>, r: RelKey)
    requires RulesOk(rules) && Closed(g) && Wanted(h, Synced(h), r)
    ensures var f := FullBuild(h, g, rules);
            (r in f.rels <==> HasEnds(f, r)) &&
            (r in f.rels ==>
               SourceOf(f.rels[r]) == HomeAssistant && (f.rels[r] != Sourced(HomeAssistant) <==> LosesProps(g, r)))
  {
    hide BeforeDrops, FullBuild, LinksOf, Settled, AfterLinks;
    var f := FullBuild(h, g, rules);
    WantedWithEnds(h, g, rules, r);
    WantedArea(h, Synced(h), r);
    AreasAfterBuild(h, g, rules, r);
    LinksAre(h, AtDrops(h, g), Synced(h));
    ExecAllClosed(g, BeforeDrops(h));
    if r in f.rels {
      assert HasEnds(AtDrops(h, g), r) || SameRel(AtDrops(h, g), AtLinks(h, g), r);
      assert f.rels[r] == Plus(RelOr(AtDrops(h, g), r), Sourced(HomeAssistant));
      StampedRel(RelOr(AtDrops(h, g), r));
    }
  }

  lemma BuildIsExec(h: Hass, g: G, rules: seq<Rule>)
    ensures FullBuild(h, g, rules) == ExecAll(g, BuildWrites(h, g, rules))
  {
  }

  lemma StampedRel(p: Props)
    ensures Plus(p, Sourced(HomeAssistant)) == Sourced(HomeAssistant) <==> p.Keys <= {PSource}
  {
    if !(p.Keys <= {PSource}) {
      var k :| k in p && k != PSource;
      assert k in Plus(p, Sourced(HomeAssistant)) && k !in Sourced(HomeAssistant);
    }
  }

  /** On a fixed registry and rule table a second build changes nothing, exactly when no area an entity is
      to be linked to was asserted by somebody else with properties of its own. */
  lemma BuildIdempotentExactly(h: Hass, g: G, rules: seq<Rule>)
    requires RulesOk(rules) && Closed(g)
    ensures FullBuild(h, FullBuild(h, g, rules), rules) == FullBuild(h, g, rules) <==> PlainForeignAreas(h, g)
  {
    hide BeforeDrops, FullBuild, LinksOf, Settled, AfterLinks, BuildWrites;
    var f, ids := FullBuild(h, g, rules), Synced(h);
    var again := FullBuild(h, f, rules);
    SecondBuild(h, g, rules);
    LinksAre(h, WithoutAreas(f, ids), ids);
    forall r ensures if Wanted(h, ids, r) && HasEnds(f, r)
                     then r in f.rels && r in again.rels && again.rels[r] == Sourced(HomeAssistant)
                     else SameRel(f, again, r)
    {
      if Wanted(h, ids, r) {
        WantedAfterBuild(h, g, rules, r);
        WantedArea(h, ids, r);
        StampedRel(map[]);
        if !HasEnds(f, r) { assert SameRel(WithoutAreas(f, ids), again, r); }
      } else {
        UnwantedKept(h, g, rules, r);
        assert SameRel(WithoutAreas(f, ids), again, r);
      }
    }
    if PlainForeignAreas(h, g) {
      forall r ensures SameRel(f, again, r) {
        if Wanted(h, ids, r) && HasEnds(f, r) { WantedAfterBuild(h, g, rules, r); }
      }
      SameRels(f, again);
    } else {
      var r :| Wanted(h, ids, r) && LosesProps(g, r);
      WantedAfterBuild(h, g, rules, r);
      BuildDeletesOnlyOwnAreas(h, g, rules);
      assert HasEnds(g, r);
      assert f.rels[r] != again.rels[r];
    }
  }

  lemma UnwantedKept(h: Hass, g: G, rules: seq<Rule>, r: RelKey)
    requires RulesOk(rules) && !Wanted(h, Synced(h), r)
    ensures SameRel(FullBuild(h, g, rules), WithoutAreas(FullBuild(h, g, rules), Synced(h)), r)
  {
    hide BeforeDrops, FullBuild, LinksOf, AfterLinks;
    if IsArea(r) {
      AreasAfterBuild(h, g, rules, r);
      LinksAre(h, AtDrops(h, g), Synced(h));
      assert SameRel(AtDrops(h, g), AtLinks(h, g), r);
    }
  }

  lemma SameRels(g: G, h: G)
    requires g.nodes == h.nodes && forall r :: SameRel(g, h, r)
    ensures g == h
  {
    forall r ensures r in g.rels <==> r in h.rels { assert SameRel(g, h, r); }
    forall r | r in g.rels ensures g.rels[r] == h.rels[r] { assert SameRel(g, h, r); }
    assert g.rels == h.rels;
  }

  function ExampleHass(): Hass {
    var none: Table<Referrer> := Table([], map[]);
    Hass(Table([], map[]), Table(["kitchen"], map["kitchen" := AreaEntry("Kitchen", None, None)]), Table([], map[]),
         Table([], map[]),
         Table(["light.a"], map["light.a" := EntityEntry("hue", None, None, Some("kitchen"), [])]),
         Table([], map[]), none, none, none, (e: string) => Signals("light", None, "", false, e, None))
  }

  // A user has noted a reason on the relationship Home Assistant is about to assert.
  function ExampleGraph(): G {
    G(map[EntityKey("light.a") := map[], AreaKey("kitchen") := map[]],
      map[RelKey(EntityKey("light.a"), HasArea, AreaKey("kitchen")) :=
            map[PSource := From(User), POther("reason") := Text("seen there")]])
  }

  /** The second build can differ from the first: a property a user put on an entity's area survives one
      build and is lost in the next. */
  lemma SecondBuildCanLose()
    ensures var h, g := ExampleHass(), ExampleGraph();
            HassOk(h) && Closed(g) && FullBuild(h, FullBuild(h, g, RULES), RULES) != FullBuild(h, g, RULES)
  {
    hide FullBuild, RULES;
    var h, g := ExampleHass(), ExampleGraph();
    assert RulesOk(RULES) by { RulesUseNamedRelationships(); }
    ExampleWanted();
    ExampleLoses();
    hide ExampleHass, ExampleGraph, Wanted, LosesProps;
    BuildIdempotentExactly(h, g, RULES);
  }

  const EXAMPLE_AREA := RelKey(EntityKey("light.a"), HasArea, AreaKey("kitchen"))

  lemma ExampleWanted()
    ensures HassOk(ExampleHass()) && Wanted(ExampleHass(), Synced(ExampleHass()), EXAMPLE_AREA)
  {
    var h, r := ExampleHass(), EXAMPLE_AREA;
    InFlatMap(h.entries.ids, (e: string) => if OwnEntity(h, e) then [] else [e], "light.a");
    assert "light.a" in ["light.a"];
    assert HaRel(r.from, r.kind, r.to) in AreaLink(h, "light.a");
  }

  lemma ExampleLoses()
    ensures Closed(ExampleGraph()) && LosesProps(ExampleGraph(), EXAMPLE_AREA)
  {
    assert POther("reason") in ExampleGraph().rels[EXAMPLE_AREA];
  }
}
