/** `build_full_graph` and `_execute_full_sync`, query by query. */
module FullSync {
  import opened Graph
  import opened Registry
  import opened Semantics
  import opened Build
  import opened Settle
  import opened Idempotence
  import opened Rebuild
  import opened BuildFacts
  import opened SyncFacts
  import opened Changes

  // ---- The two ways rows reach the store ------------------------------------------------

  /** UNWIND batches: the batches before a raising one took effect, and possibly that one itself. */
  method RunBulk(client: Client, rows: seq<Write>) returns (ok: bool)
    modifies client
    ensures Outcome(client.g, client.faults, ok) == Play(old(client.g), old(client.faults), Chunks(rows))
    ensures ok ==> client.g == ExecAll(old(client.g), rows)
  {
    BulkOk(client.g, client.faults, rows);
    ok := RunAll(client, Chunks(rows));
  }

  /** One query per row. */
  method RunEach(client: Client, rows: seq<Write>) returns (ok: bool)
    modifies client
    ensures Outcome(client.g, client.faults, ok) == Play(old(client.g), old(client.faults), Singles(rows))
    ensures ok ==> client.g == ExecAll(old(client.g), rows)
  {
    EachOk(client.g, client.faults, rows);
    ok := RunAll(client, Singles(rows));
  }

  lemma BulkOk(g: G, faults: seq<Fault>, rows: seq<Write>)
    ensures var end := Play(g, faults, Chunks(rows)); end.ok ==> end.g == ExecAll(g, rows)
  {
    ChunksCover(rows);
    if Play(g, faults, Chunks(rows)).ok { PlayOk(g, faults, Chunks(rows)); }
  }

  lemma EachOk(g: G, faults: seq<Fault>, rows: seq<Write>)
    ensures var end := Play(g, faults, Singles(rows)); end.ok ==> end.g == ExecAll(g, rows)
  {
    ConcatSingles(rows);
    if Play(g, faults, Singles(rows)).ok { PlayOk(g, faults, Singles(rows)); }
  }

  method RunBulks(client: Client, a: seq<Write>, b: seq<Write>) returns (ok: bool)
    modifies client
    ensures Outcome(client.g, client.faults, ok) == Play(old(client.g), old(client.faults), Chunks(a) + Chunks(b))
  {
    PlayAppend(client.g, client.faults, Chunks(a), Chunks(b));
    ok := RunBulk(client, a);
    if ok { ok := RunBulk(client, b); }
  }

  // ---- The queries of a build, in order ------------------------------------------------------

  function HomeStmts(h: Hass): seq<seq<Write>> { Singles(NodeRow(h, HOME)) + Chunks(NodeRows(h, Floor, h.floors.ids)) }
  function AreaStmts(h: Hass): seq<seq<Write>> {
    Chunks(FloorLinks(h.floors.ids)) + Chunks(NodeRows(h, Area, h.areas.ids))
  }
  function DeviceStmts(h: Hass): seq<seq<Write>> {
    Chunks(HomeAreaLinks(h.areas.ids)) + (Chunks(AreaFloorLinks(h)) + Chunks(NodeRows(h, Device, h.devices.ids)))
  }
  function EntityStmts(h: Hass): seq<seq<Write>> {
    Chunks(AreaDeviceLinks(h)) + (Chunks(NodeRows(h, Tag, h.tags.ids)) + Chunks(EntityRows(h)))
  }
  function EntityLinkStmts(h: Hass): seq<seq<Write>> {
    Chunks(DomainRows(h)) + (Chunks(PlatformRows(h)) + (Chunks(DomainLinks(h)) + Chunks(DeviceLinks(h))))
  }
  function BeforeStmts(h: Hass): seq<seq<Write>> {
    HomeStmts(h) + (AreaStmts(h) + (DeviceStmts(h) + (EntityStmts(h) + EntityLinkStmts(h))))
  }
  function RestStmts(h: Hass): seq<seq<Write>> {
    Chunks(PlatformLinks(h)) + (Chunks(AllTagLinks(h)) + (Singles(DomainRows(h)) +
      (Singles(PlatformRows(h)) + (Singles(AllReferrers(h)) + Singles([EnsureSchema(SCHEMA_PROPS)])))))
  }

  // Each matching rule is preceded by the query that looks for an override.
  function RuleStmts(h: Hass, g: G, e: string, rules: seq<Rule>): seq<seq<Write>> {
    if rules == [] then []
    else ([[]] + if Overridden(g, e, rules[0].typeLabel) then [] else Singles(RuleWrites(h, e, rules[0])))
         + RuleStmts(h, g, e, rules[1..])
  }
  function EntityRuleStmts(h: Hass, g: G, rules: seq<Rule>, e: string): seq<seq<Write>> {
    RuleStmts(h, g, e, MatchingRules(rules, h.signals(e)))
  }
  function ClassifyStmts(h: Hass, g: G, rules: seq<Rule>): seq<seq<Write>> {
    FlatMap(Synced(h), (e: string) => EntityRuleStmts(h, g, rules, e))
  }

  function BuildStmts(h: Hass, g: G, rules: seq<Rule>): seq<seq<Write>> {
    BeforeStmts(h) + (Chunks(Drops(Synced(h))) + (Chunks(AreaLinks(h)) + (RestStmts(h) + ClassifyStmts(h, g, rules))))
  }

  lemma TwoBulks(a: seq<Write>, b: seq<Write>)
    ensures Concat(Chunks(a) + Chunks(b)) == a + b
  {
    ChunksCover(a);
    ChunksCover(b);
    ConcatAppend(Chunks(a), Chunks(b));
  }

  lemma BulkThen(a: seq<Write>, rest: seq<seq<Write>>)
    ensures Concat(Chunks(a) + rest) == a + Concat(rest)
    ensures Concat(Singles(a) + rest) == a + Concat(rest)
  {
    ChunksCover(a);
    ConcatSingles(a);
    ConcatAppend(Chunks(a), rest);
    ConcatAppend(Singles(a), rest);
  }

  lemma BeforeStmtsRows(h: Hass)
    ensures Concat(BeforeStmts(h)) == BeforeDrops(h)
  {
    hide HomeStmts, AreaStmts, DeviceStmts, EntityStmts, EntityLinkStmts,
         HomeAndFloors, FloorLinksAndAreas, AreaLinksAndDevices, DeviceLinksAndEntities, EntityLinks;
    var d := EntityStmts(h) + EntityLinkStmts(h);
    PartRows(h);
    LinkPartRows(h);
    ConcatAppend(EntityStmts(h), EntityLinkStmts(h));
    ConcatAppend(DeviceStmts(h), d);
    ConcatAppend(AreaStmts(h), DeviceStmts(h) + d);
    ConcatAppend(HomeStmts(h), AreaStmts(h) + (DeviceStmts(h) + d));
  }

  lemma PartRows(h: Hass)
    ensures Concat(HomeStmts(h)) == HomeAndFloors(h) && Concat(AreaStmts(h)) == FloorLinksAndAreas(h)
    ensures Concat(DeviceStmts(h)) == AreaLinksAndDevices(h) && Concat(EntityStmts(h)) == DeviceLinksAndEntities(h)
  {
    hide NodeRow, NodeRows, FloorLinks, HomeAreaLinks, AreaFloorLinks, AreaDeviceLinks, EntityRows;
    BulkThen(NodeRow(h, HOME), Chunks(NodeRows(h, Floor, h.floors.ids)));
    ChunksCover(NodeRows(h, Floor, h.floors.ids));
    TwoBulks(FloorLinks(h.floors.ids), NodeRows(h, Area, h.areas.ids));
    TwoBulks(AreaFloorLinks(h), NodeRows(h, Device, h.devices.ids));
    BulkThen(HomeAreaLinks(h.areas.ids), Chunks(AreaFloorLinks(h)) + Chunks(NodeRows(h, Device, h.devices.ids)));
    TwoBulks(NodeRows(h, Tag, h.tags.ids), EntityRows(h));
    BulkThen(AreaDeviceLinks(h), Chunks(NodeRows(h, Tag, h.tags.ids)) + Chunks(EntityRows(h)));
  }

  lemma LinkPartRows(h: Hass)
    ensures Concat(EntityLinkStmts(h)) == EntityLinks(h)
  {
    hide DomainRows, PlatformRows, DomainLinks, DeviceLinks;
    TwoBulks(DomainLinks(h), DeviceLinks(h));
    var c := Chunks(DomainLinks(h)) + Chunks(DeviceLinks(h));
    BulkThen(PlatformRows(h), c);
    BulkThen(DomainRows(h), Chunks(PlatformRows(h)) + c);
  }

  lemma RestStmtsRows(h: Hass)
    ensures Concat(RestStmts(h)) == Rest(h)
  {
    hide PlatformLinks, AllTagLinks, DomainRows, PlatformRows, AllReferrers;
    var schema := [EnsureSchema(SCHEMA_PROPS)];
    ConcatSingles(schema);
    var e := Singles(AllReferrers(h)) + Singles(schema);
    BulkThen(AllReferrers(h), Singles(schema));
    BulkThen(PlatformRows(h), e);
    BulkThen(DomainRows(h), Singles(PlatformRows(h)) + e);
    var c := Singles(DomainRows(h)) + (Singles(PlatformRows(h)) + e);
    BulkThen(AllTagLinks(h), c);
    BulkThen(PlatformLinks(h), Chunks(AllTagLinks(h)) + c);
  }

  lemma {:induction false} RuleStmtsRows(h: Hass, g: G, e: string, rules: seq<Rule>)
    ensures Concat(RuleStmts(h, g, e, rules)) == ClassifyRules(h, g, e, rules)
    decreases |rules|
  {
    hide RuleWrites;
    if rules != [] {
      RuleStmtsRows(h, g, e, rules[1..]);
      var ws := if Overridden(g, e, rules[0].typeLabel) then [] else RuleWrites(h, e, rules[0]);
      assert Singles([]) == [];
      ReadThen(ws, RuleStmts(h, g, e, rules[1..]));
    }
  }

  lemma ReadThen(ws: seq<Write>, rest: seq<seq<Write>>)
    ensures Concat(([[]] + Singles(ws)) + rest) == ws + Concat(rest)
  {
    ConcatAppend([[]] + Singles(ws), rest);
    ConcatAppend([[]], Singles(ws));
    ConcatSingles(ws);
    ConcatSingle<Write>([]);
  }

  lemma {:induction false} FlatConcat(ids: seq<string>, f: string -> seq<seq<Write>>, k: string -> seq<Write>)
    requires forall id :: id in ids ==> Concat(f(id)) == k(id)
    ensures Concat(FlatMap(ids, f)) == FlatMap(ids, k)
    decreases |ids|
  {
    if ids != [] {
      FlatConcat(ids[1..], f, k);
      ConcatAppend(f(ids[0]), FlatMap(ids[1..], f));
    }
  }

  lemma ClassifyStmtsRows(h: Hass, g: G, rules: seq<Rule>)
    ensures Concat(ClassifyStmts(h, g, rules)) == ClassifyWrites(h, g, rules)
  {
    forall e | e in Synced(h) ensures Concat(EntityRuleStmts(h, g, rules, e)) == ClassifyEntity(h, g, rules, e) {
      RuleStmtsRows(h, g, e, MatchingRules(rules, h.signals(e)));
    }
    FlatConcat(Synced(h), (e: string) => EntityRuleStmts(h, g, rules, e),
               (e: string) => ClassifyEntity(h, g, rules, e));
  }

  /** The rows of the build's queries are the rows of the build. */
  lemma BuildStmtsRows(h: Hass, g: G, rules: seq<Rule>)
    ensures Concat(BuildStmts(h, g, rules)) == BuildWrites(h, g, rules)
  {
    hide BeforeStmts, BeforeDrops, Drops, AreaLinks, RestStmts, Rest, ClassifyStmts, ClassifyWrites;
    BeforeStmtsRows(h);
    RestStmtsRows(h);
    ClassifyStmtsRows(h, g, rules);
    var c := RestStmts(h) + ClassifyStmts(h, g, rules);
    ConcatAppend(RestStmts(h), ClassifyStmts(h, g, rules));
    BulkThen(AreaLinks(h), c);
    BulkThen(Drops(Synced(h)), Chunks(AreaLinks(h)) + c);
    ConcatAppend(BeforeStmts(h), Chunks(Drops(Synced(h))) + (Chunks(AreaLinks(h)) + c));
  }

  // ---- The build ---------------------------------------------------------------------------

  // Floors, areas, devices and labels with their links, then the entities and their links up to the area drop.
  method CollectBeforeDrops(client: Client, h: Hass) returns (ok: bool)
    modifies client
    ensures Outcome(client.g, client.faults, ok) == Play(old(client.g), old(client.faults), BeforeStmts(h))
  {
    hide NodeRow, NodeRows, HomeStmts, AreaStmts, DeviceStmts, EntityStmts, EntityLinkStmts, Play;
    var d := EntityStmts(h) + EntityLinkStmts(h);
    PlayAppend(client.g, client.faults, HomeStmts(h), AreaStmts(h) + (DeviceStmts(h) + d));
    ok := CollectHomeAndFloors(client, h);
    if !ok { return; }
    PlayAppend(client.g, client.faults, AreaStmts(h), DeviceStmts(h) + d);
    ok := CollectAreas(client, h);
    if !ok { return; }
    PlayAppend(client.g, client.faults, DeviceStmts(h), d);
    ok := CollectDevices(client, h);
    if !ok { return; }
    PlayAppend(client.g, client.faults, EntityStmts(h), EntityLinkStmts(h));
    ok := CollectEntities(client, h);
    if !ok { return; }
    ok := CollectEntityLinks(client, h);
  }

  method CollectHomeAndFloors(client: Client, h: Hass) returns (ok: bool)
    modifies client
    ensures Outcome(client.g, client.faults, ok) == Play(old(client.g), old(client.faults), HomeStmts(h))
  {
    hide NodeRow, NodeRows, Play;
    PlayAppend(client.g, client.faults, Singles(NodeRow(h, HOME)), Chunks(NodeRows(h, Floor, h.floors.ids)));
    ok := RunEach(client, NodeRow(h, HOME));
    if ok { ok := RunBulk(client, NodeRows(h, Floor, h.floors.ids)); }
  }

  method CollectAreas(client: Client, h: Hass) returns (ok: bool)
    modifies client
    ensures Outcome(client.g, client.faults, ok) == Play(old(client.g), old(client.faults), AreaStmts(h))
  {
    ok := RunBulks(client, FloorLinks(h.floors.ids), NodeRows(h, Area, h.areas.ids));
  }

  method CollectDevices(client: Client, h: Hass) returns (ok: bool)
    modifies client
    ensures Outcome(client.g, client.faults, ok) == Play(old(client.g), old(client.faults), DeviceStmts(h))
  {
    hide HomeAreaLinks, AreaFloorLinks, NodeRows, Play;
    var a, b, c := HomeAreaLinks(h.areas.ids), AreaFloorLinks(h), NodeRows(h, Device, h.devices.ids);
    PlayAppend(client.g, client.faults, Chunks(a), Chunks(b) + Chunks(c));
    ok := RunBulk(client, a);
    if ok { ok := RunBulks(client, b, c); }
  }

  method CollectEntities(client: Client, h: Hass) returns (ok: bool)
    modifies client
    ensures Outcome(client.g, client.faults, ok) == Play(old(client.g), old(client.faults), EntityStmts(h))
  {
    hide AreaDeviceLinks, EntityRows, NodeRows, Play;
    var a, b, c := AreaDeviceLinks(h), NodeRows(h, Tag, h.tags.ids), EntityRows(h);
    PlayAppend(client.g, client.faults, Chunks(a), Chunks(b) + Chunks(c));
    ok := RunBulk(client, a);
    if ok { ok := RunBulks(client, b, c); }
  }

  method CollectEntityLinks(client: Client, h: Hass) returns (ok: bool)
    modifies client
    ensures Outcome(client.g, client.faults, ok) == Play(old(client.g), old(client.faults), EntityLinkStmts(h))
    ensures ok ==> client.g == ExecAll(old(client.g), EntityLinks(h))
  {
    hide DomainRows, PlatformRows, DomainLinks, DeviceLinks, Play;
    var a, b, c, d := DomainRows(h), PlatformRows(h), DomainLinks(h), DeviceLinks(h);
    ghost var g, faults := client.g, client.faults;
    PlayAppend(g, faults, Chunks(a), Chunks(b) + (Chunks(c) + Chunks(d)));
    ok := RunBulk(client, a);
    if ok {
      PlayAppend(client.g, client.faults, Chunks(b), Chunks(c) + Chunks(d));
      ok := RunBulk(client, b);
    }
    if ok { ok := RunBulks(client, c, d); }
    if ok {
      PlayOk(g, faults, EntityLinkStmts(h));
      LinkPartRows(h);
    }
  }

  // Platform and label links, the standalone domain and integration nodes, the referring domains, the schema.
  method CollectRest(client: Client, h: Hass) returns (ok: bool)
    modifies client
    ensures Outcome(client.g, client.faults, ok) == Play(old(client.g), old(client.faults), RestStmts(h))
    ensures ok ==> client.g == ExecAll(old(client.g), Rest(h))
  {
    ok := RunRest(client, h);
    if ok {
      PlayOk(old(client.g), old(client.faults), RestStmts(h));
      RestStmtsRows(h);
    }
  }

  method RunRest(client: Client, h: Hass) returns (ok: bool)
    modifies client
    ensures Outcome(client.g, client.faults, ok) == Play(old(client.g), old(client.faults), RestStmts(h))
  {
    hide PlatformLinks, AllTagLinks, DomainRows, PlatformRows, AllReferrers, Play;
    var a, b, c, d, e := PlatformLinks(h), AllTagLinks(h), DomainRows(h), PlatformRows(h), AllReferrers(h);
    var f := [EnsureSchema(SCHEMA_PROPS)];
    PlayAppend(client.g, client.faults, Chunks(a),
               Chunks(b) + (Singles(c) + (Singles(d) + (Singles(e) + Singles(f)))));
    ok := RunBulk(client, a);
    if !ok { return; }
    PlayAppend(client.g, client.faults, Chunks(b), Singles(c) + (Singles(d) + (Singles(e) + Singles(f))));
    ok := RunBulk(client, b);
    if !ok { return; }
    PlayAppend(client.g, client.faults, Singles(c), Singles(d) + (Singles(e) + Singles(f)));
    ok := RunEach(client, c);
    if !ok { return; }
    PlayAppend(client.g, client.faults, Singles(d), Singles(e) + Singles(f));
    ok := RunEach(client, d);
    if !ok { return; }
    PlayAppend(client.g, client.faults, Singles(e), Singles(f));
    ok := RunEach(client, e);
    if !ok { return; }
    ok := RunEach(client, f);
  }

  ghost predicate SameOverrides(g: G, h: G) { forall r: RelKey :: r.kind == OverrideOf ==> SameRel(g, h, r) }

  /** `_classify_entity`: each matching rule, unless the user overrode that type for the entity. */
  method ClassifyOne(client: Client, h: Hass, e: string, rules: seq<Rule>, ghost g0: G) returns (ok: bool)
    requires RulesOk(rules) && SameOverrides(g0, client.g)
    modifies client
    ensures Outcome(client.g, client.faults, ok) == Play(old(client.g), old(client.faults), RuleStmts(h, g0, e, rules))
    ensures ok ==> SameOverrides(g0, client.g)
    ensures ok ==> client.g == ExecAll(old(client.g), ClassifyRules(h, g0, e, rules))
  {
    hide RuleWrites, RuleStmts, ClassifyRules, SameOverrides, Play;
    ghost var start, faults := client.g, client.faults;
    ok := true;
    var i := 0;
    assert rules[0..] == rules;
    while i < |rules|
      invariant 0 <= i <= |rules| && ok && SameOverrides(g0, client.g)
      invariant Play(client.g, client.faults, RuleStmts(h, g0, e, rules[i..])) ==
                Play(start, faults, RuleStmts(h, g0, e, rules))
    {
      RuleStmtsFirst(h, g0, client.g, client.faults, e, rules, i);
      ok := ClassifyByRule(client, h, e, rules[i], g0);
      if !ok { return; }
      i := i + 1;
    }
    assert rules[i..] == [];
    NoRulesLeft(h, g0, client.g, client.faults, e);
    PlayOk(start, faults, RuleStmts(h, g0, e, rules));
    RuleStmtsRows(h, g0, e, rules);
  }

  function OneRuleStmts(h: Hass, g0: G, e: string, rule: Rule): seq<seq<Write>> {
    [[]] + if Overridden(g0, e, rule.typeLabel) then [] else Singles(RuleWrites(h, e, rule))
  }

  // One rule: the override query, then its rows.
  method ClassifyByRule(client: Client, h: Hass, e: string, rule: Rule, ghost g0: G) returns (ok: bool)
    requires rule.back.Named? && SameOverrides(g0, client.g)
    modifies client
    ensures Outcome(client.g, client.faults, ok) ==
            Play(old(client.g), old(client.faults), OneRuleStmts(h, g0, e, rule))
    ensures ok ==> SameOverrides(g0, client.g)
  {
    hide RuleWrites, Play;
    ghost var before := client.g;
    var stmts := Singles(RuleWrites(h, e, rule));
    PlayAppend(client.g, client.faults, [[]], if Overridden(g0, e, rule.typeLabel) then [] else stmts);
    PlaySingle(client.g, client.faults, []);
    ok := client.Run([]);
    if !ok { return; }
    assert client.g == before;
    NothingToPlay(client.g, client.faults);
    var overridden := Overridden(client.g, e, rule.typeLabel);
    assert SameRel(g0, before, Override(EntityKey(e), rule.typeLabel));
    if !overridden {
      ok := RunEach(client, RuleWrites(h, e, rule));
      if !ok { return; }
      RuleKeepsOverrides(h, before, e, rule);
      SameOverridesThen(g0, before, client.g);
    }
  }

  lemma NothingToPlay(g: G, faults: seq<Fault>)
    ensures Play(g, faults, []) == Outcome(g, faults, true)
  {
  }

  lemma SameOverridesThen(a: G, b: G, c: G)
    requires SameOverrides(a, b) && SameOverrides(b, c)
    ensures SameOverrides(a, c)
  {
    forall r: RelKey | r.kind == OverrideOf ensures SameRel(a, c, r) { assert SameRel(a, b, r) && SameRel(b, c, r); }
  }

  lemma RuleStmtsFirst(h: Hass, g0: G, g: G, faults: seq<Fault>, e: string, rules: seq<Rule>, i: nat)
    requires i < |rules|
    ensures var first := Play(g, faults, OneRuleStmts(h, g0, e, rules[i]));
            Play(g, faults, RuleStmts(h, g0, e, rules[i..])) ==
            if first.ok then Play(first.g, first.faults, RuleStmts(h, g0, e, rules[i + 1..])) else first
  {
    hide RuleWrites, Play;
    assert rules[i..][0] == rules[i] && rules[i..][1..] == rules[i + 1..];
    PlayAppend(g, faults, OneRuleStmts(h, g0, e, rules[i]), RuleStmts(h, g0, e, rules[i + 1..]));
  }

  lemma NoRulesLeft(h: Hass, g0: G, g: G, faults: seq<Fault>, e: string)
    ensures Play(g, faults, RuleStmts(h, g0, e, [])) == Outcome(g, faults, true)
  {
  }

  lemma RuleKeepsOverrides(h: Hass, g: G, e: string, rule: Rule)
    requires rule.back.Named?
    ensures SameOverrides(g, ExecAll(g, RuleWrites(h, e, rule)))
  {
    var ws := RuleWrites(h, e, rule);
    assert AllCalm(h, ws);
    CalmKeeps(h, g, ws);
  }

  /** `async_classify_entities`. */
  method ClassifyEntities(client: Client, h: Hass, rules: seq<Rule>, ghost g0: G) returns (ok: bool)
    requires RulesOk(rules) && SameOverrides(g0, client.g)
    modifies client
    ensures Outcome(client.g, client.faults, ok) == Play(old(client.g), old(client.faults), ClassifyStmts(h, g0, rules))
    ensures ok ==> client.g == ExecAll(old(client.g), ClassifyWrites(h, g0, rules))
  {
    hide SameOverrides, Synced, RuleStmts, ClassifyRules, Play;
    ghost var start, faults := client.g, client.faults;
    ghost var f := (e: string) => EntityRuleStmts(h, g0, rules, e);
    var ids := Synced(h);
    ok := true;
    var i := 0;
    assert ids[0..] == ids;
    while i < |ids|
      invariant 0 <= i <= |ids| && ok && SameOverrides(g0, client.g)
      invariant Play(client.g, client.faults, FlatMap(ids[i..], f)) == Play(start, faults, FlatMap(ids, f))
    {
      assert ids[i..][0] == ids[i] && ids[i..][1..] == ids[i + 1..];
      var matching := MatchingRules(rules, h.signals(ids[i]));
      MatchingIn(rules, h.signals(ids[i]));
      PlayAppend(client.g, client.faults, f(ids[i]), FlatMap(ids[i + 1..], f));
      ok := ClassifyOne(client, h, ids[i], matching, g0);
      if !ok {
        FlatMapSame(ids, f, (e: string) => EntityRuleStmts(h, g0, rules, e));
        return;
      }
      i := i + 1;
    }
    assert ids[i..] == [];
    NothingToPlay(client.g, client.faults);
    FlatMapSame(ids, f, (e: string) => EntityRuleStmts(h, g0, rules, e));
    PlayOk(start, faults, ClassifyStmts(h, g0, rules));
    ClassifyStmtsRows(h, g0, rules);
  }

  /** `build_full_graph`; `rules` is empty when automatic classification is off. */
  method BuildFullGraph(client: Client, h: Hass, rules: seq<Rule>) returns (ok: bool)
    requires RulesOk(rules)
    modifies client
    ensures Outcome(client.g, client.faults, ok) ==
            Play(old(client.g), old(client.faults), BuildStmts(h, old(client.g), rules))
    ensures ok ==> client.g == FullBuild(h, old(client.g), rules)
    ensures ok && Closed(old(client.g)) ==>
              NodesMirror(h, old(client.g), rules, client.g) && RelsMirror(h, old(client.g), rules, client.g)
  {
    hide BeforeStmts, RestStmts, ClassifyStmts, AreaLinks, Drops, Play, SameOverrides, BuildStmts;
    hide NodesMirror, RelsMirror, Closed;
    ghost var g, faults := client.g, client.faults;
    BuildStmtsSplit(h, g, faults, rules);
    ok := CollectBeforeDrops(client, h);
    if !ok { return; }
    ghost var a := client.g;
    PlayAppend(a, client.faults, Chunks(Drops(Synced(h))), AfterDropStmts(h, g, rules));
    ok := RunBulk(client, Drops(Synced(h)));
    if !ok { return; }
    PlayAppend(client.g, client.faults, Chunks(AreaLinks(h)), RestStmts(h) + ClassifyStmts(h, g, rules));
    ok := RunBulk(client, AreaLinks(h));
    if !ok { return; }
    ghost var l := client.g;
    PlayAppend(l, client.faults, RestStmts(h), ClassifyStmts(h, g, rules));
    ok := CollectRest(client, h);
    if !ok { return; }
    BeforeOk(h, g, faults);
    OverridesAtClassify(h, g, a, l, client.g);
    ok := ClassifyEntities(client, h, rules, g);
    if !ok { return; }
    PlayOk(g, faults, BuildStmts(h, g, rules));
    BuildStmtsRows(h, g, rules);
    BuildIsExec(h, g, rules);
    if Closed(g) { BuildMirrors(h, g, rules); }
  }

  function AfterDropStmts(h: Hass, g: G, rules: seq<Rule>): seq<seq<Write>> {
    Chunks(AreaLinks(h)) + (RestStmts(h) + ClassifyStmts(h, g, rules))
  }

  lemma BuildStmtsSplit(h: Hass, g: G, faults: seq<Fault>, rules: seq<Rule>)
    ensures var first := Play(g, faults, BeforeStmts(h));
            Play(g, faults, BuildStmts(h, g, rules)) ==
            if first.ok then Play(first.g, first.faults, Chunks(Drops(Synced(h))) + AfterDropStmts(h, g, rules))
            else first
  {
    hide BeforeStmts, RestStmts, ClassifyStmts, AreaLinks, Drops, Play;
    PlayAppend(g, faults, BeforeStmts(h), Chunks(Drops(Synced(h))) + AfterDropStmts(h, g, rules));
  }

  lemma BeforeOk(h: Hass, g: G, faults: seq<Fault>)
    requires Play(g, faults, BeforeStmts(h)).ok
    ensures Play(g, faults, BeforeStmts(h)).g == ExecAll(g, BeforeDrops(h))
  {
    hide BeforeStmts, BeforeDrops;
    PlayOk(g, faults, BeforeStmts(h));
    BeforeStmtsRows(h);
  }

  // When the classification pass starts, overrides are as they were at the start of the build.
  lemma OverridesAtClassify(h: Hass, g: G, a: G, l: G, c: G)
    requires a == ExecAll(g, BeforeDrops(h)) && l == ExecAll(ExecAll(a, Drops(Synced(h))), AreaLinks(h))
    requires c == ExecAll(l, Rest(h))
    ensures SameOverrides(g, c)
  {
    hide BeforeDrops, Drops, AreaLinks, Rest, LinksOf;
    BeforeCalm(h);
    CalmKeeps(h, g, BeforeDrops(h));
    DropsAre(a, Synced(h));
    AreaLinksAre(h);
    AreaLinksKeep(h, WithoutAreas(a, Synced(h)), Synced(h));
    RestCalm(h);
    CalmKeeps(h, l, Rest(h));
    forall r: RelKey | r.kind == OverrideOf ensures SameRel(g, c, r) {
      assert SameRel(g, a, r) && SameRel(WithoutAreas(a, Synced(h)), l, r) && SameRel(l, c, r);
    }
  }

  // ---- The full sync -------------------------------------------------------------------------

  // The rows come back in whatever order the store scans them.
  method ListOverrides(g: G) returns (rows: seq<RelKey>)
    ensures Exports(g, rows)
    ensures forall r :: r in rows <==>
              r in g.rels && r.kind == OverrideOf && r.to.lbl == SemanticType && r.from.lbl in {Entity, Device, Area} &&
              PSource in g.rels[r] && g.rels[r][PSource] == From(User)
  {
    var rest := set r | r in g.rels && Exported(g, r);
    rows := [];
    while rest != {}
      invariant forall r :: Exported(g, r) <==> r in rows || r in rest
      decreases rest
    {
      var r :| r in rest;
      rows, rest := rows + [r], rest - {r};
    }
  }

  method ValidateEntries(rows: seq<RelKey>) returns (valid: bool)
    ensures valid <==> AllValid(rows)
    ensures valid <==> forall r :: r in rows ==> r.from.id != Plain("") && r.to.id != Plain("")
  {
    var i := 0;
    while i < |rows|
      invariant 0 <= i <= |rows| && forall j :: 0 <= j < i ==> ValidEntry(rows[j])
    {
      if !ValidEntry(rows[i]) { return false; }
      i := i + 1;
    }
    return true;
  }

  /** `async_import_overrides`: every entry is checked before anything is written. */
  method ImportOverrides(client: Client, rows: seq<RelKey>) returns (ok: bool)
    modifies client
    ensures !AllValid(rows) ==> !ok && client.g == old(client.g) && client.faults == old(client.faults)
    ensures AllValid(rows) <==> forall r :: r in rows ==> r.from.id != Plain("") && r.to.id != Plain("")
    ensures AllValid(rows) ==>
              Outcome(client.g, client.faults, ok) == Play(old(client.g), old(client.faults), Singles(Import(rows)))
    ensures ok ==> AllValid(rows) && client.g == ExecAll(old(client.g), Import(rows))
  {
    ok := ValidateEntries(rows);
    if ok { ok := RunEach(client, Import(rows)); }
  }

  function ReconcileStmts(h: Hass, order: seq<string>): seq<seq<Write>> {
    Singles(RoleWrites(h, order)) + [[RepairBindings]]
  }

  method ReconcileRoles(client: Client, h: Hass, order: seq<string>) returns (ok: bool)
    modifies client
    ensures Outcome(client.g, client.faults, ok) == Play(old(client.g), old(client.faults), ReconcileStmts(h, order))
  {
    hide RoleWrites, PlayOne;
    PlayAppend(client.g, client.faults, Singles(RoleWrites(h, order)), [[RepairBindings]]);
    ok := RunEach(client, RoleWrites(h, order));
    if ok {
      PlaySingle(client.g, client.faults, [RepairBindings]);
      ok := client.Run([RepairBindings]);
    }
  }

  // The schema version and the two counts are read back.
  const READ_BACK: seq<seq<Write>> := [[], [], []]

  // ---- All of a full sync ------------------------------------------------------------------------

  // A rebuild reads the overrides, then clears.
  function ClearStmts(clearFirst: bool): seq<seq<Write>> { if clearFirst then [[], [ClearOwned]] else [] }

  function AfterClear(g: G, clearFirst: bool): G { if clearFirst then Cleared(g) else g }

  function UntilImport(h: Hass, g: G, rules: seq<Rule>, clearFirst: bool): seq<seq<Write>> {
    ClearStmts(clearFirst) + BuildStmts(h, AfterClear(g, clearFirst), rules)
  }

  function FromImport(h: Hass, rows: seq<RelKey>, order: seq<string>, clearFirst: bool): seq<seq<Write>> {
    (if clearFirst then Singles(Import(rows)) else []) + (ReconcileStmts(h, order) + READ_BACK)
  }

  /** A full sync under any failures. `rows` are the overrides read before clearing. */
  ghost function PlaySync(h: Hass, g: G, faults: seq<Fault>, rules: seq<Rule>, rows: seq<RelKey>, order: seq<string>,
                          clearFirst: bool): Outcome
  {
    var built := Play(g, faults, UntilImport(h, g, rules, clearFirst));
    if !built.ok then built
    else if clearFirst && !AllValid(rows) then built.(ok := false)
    else Play(built.g, built.faults, FromImport(h, rows, order, clearFirst))
  }

  /** `_execute_full_sync`. One reload event on success, none on failure. */
  method ExecuteFullSync(client: Client, h: Hass, rules: seq<Rule>, order: seq<string>, clearFirst: bool,
                         buffer: GraphChangeBuffer)
    returns (ok: bool, ghost rows: seq<RelKey>)
    requires RulesOk(rules) && buffer.Valid()
    modifies client, buffer
    ensures buffer.Valid()
    ensures buffer.history == old(buffer.history) +
              if ok then [Event(|old(buffer.history)| + 1, Kind.Reconcile, [], [], [])] else []
    ensures clearFirst ==> Exports(old(client.g), rows)
    ensures Outcome(client.g, client.faults, ok) ==
            PlaySync(h, old(client.g), old(client.faults), rules, rows, order, clearFirst)
    ensures ok && clearFirst ==> AllValid(rows) && client.g == FullRebuild(h, old(client.g), rules, rows, order)
    ensures ok && !clearFirst ==> client.g == Resync(h, old(client.g), rules, order)
    ensures ok && Closed(old(client.g)) && RolesOk(old(client.g)) ==>
              Mirrors(h, if clearFirst then Kept(old(client.g)) else old(client.g), rules, client.g) &&
              RolesReconciled(h, old(client.g), client.g, order) && BindingsExact(client.g)
  {
    hide FullBuild, ReconcileAll, Import, Play, BuildStmts, FullRebuild, Resync, ReconcileStmts;
    hide NodesMirror, RelsMirror, Mirrors, Kept, RolesReconciled, BindingsExact, Closed, RolesOk, Exports;
    ghost var g, faults := client.g, client.faults;
    var overrides := [];
    rows := [];
    if clearFirst {
      overrides := ListOverrides(client.g);
      rows := overrides;
    }
    ok := ClearFirst(client, clearFirst, BuildStmts(h, AfterClear(g, clearFirst), rules));
    if !ok { return; }
    ok := BuildFullGraph(client, h, rules);
    if !ok { return; }
    PlayAppend(client.g, client.faults, if clearFirst then Singles(Import(rows)) else [],
               ReconcileStmts(h, order) + READ_BACK);
    if clearFirst {
      ok := ImportOverrides(client, overrides);
      if !ok { return; }
    } else {
      NothingToPlay(client.g, client.faults);
    }
    PlayAppend(client.g, client.faults, ReconcileStmts(h, order), READ_BACK);
    ok := ReconcileRoles(client, h, order);
    if !ok { return; }
    ok := RunAll(client, READ_BACK);
    if !ok { return; }
    SyncDone(h, g, faults, rules, rows, order, clearFirst);
    if Closed(g) && RolesOk(g) { SyncIsRight(h, g, rules, rows, order, clearFirst); }
    var _ := buffer.Publish(Kind.Reconcile, [], [], []);
  }

  lemma SyncIsRight(h: Hass, g: G, rules: seq<Rule>, rows: seq<RelKey>, order: seq<string>, clearFirst: bool)
    requires RulesOk(rules) && Closed(g) && RolesOk(g) && (clearFirst ==> Exports(g, rows))
    ensures var after := if clearFirst then FullRebuild(h, g, rules, rows, order) else Resync(h, g, rules, order);
            Mirrors(h, if clearFirst then Kept(g) else g, rules, after) && RolesReconciled(h, g, after, order) &&
            BindingsExact(after)
  {
    hide FullRebuild, Resync, Mirrors, Kept, RolesReconciled, BindingsExact, Closed, RolesOk, Exports;
    if clearFirst {
      RebuildMirrors(h, g, rules, rows, order);
      RebuildRoles(h, g, rules, rows, order);
    } else {
      ResyncMirrors(h, g, rules, order);
      ResyncRoles(h, g, rules, order);
    }
  }

  // Reading the overrides is a query too; `build` are the queries that follow.
  method ClearFirst(client: Client, clearFirst: bool, ghost build: seq<seq<Write>>) returns (ok: bool)
    modifies client
    ensures Outcome(client.g, client.faults, ok) == Play(old(client.g), old(client.faults), ClearStmts(clearFirst))
    ensures ok ==> client.g == AfterClear(old(client.g), clearFirst)
    ensures Play(old(client.g), old(client.faults), ClearStmts(clearFirst) + build) ==
            if ok then Play(client.g, client.faults, build) else Outcome(client.g, client.faults, ok)
  {
    hide Exec;
    PlayAppend(client.g, client.faults, ClearStmts(clearFirst), build);
    ClearPlayed(client.g, client.faults, clearFirst);
    ok := RunAll(client, ClearStmts(clearFirst));
  }

  lemma ClearPlayed(g: G, faults: seq<Fault>, clearFirst: bool)
    ensures var end := Play(g, faults, ClearStmts(clearFirst)); end.ok ==> end.g == AfterClear(g, clearFirst)
  {
    hide Exec;
    if clearFirst && Play(g, faults, ClearStmts(true)).ok {
      PlayOk(g, faults, ClearStmts(true));
      ConcatSingle([ClearOwned]);
      assert ClearStmts(true)[1..] == [[ClearOwned]];
      assert [] + [ClearOwned] == [ClearOwned];
      ExecPair(g, ClearOwned, ClearOwned);
    }
  }

  lemma ReconcileRows(h: Hass, order: seq<string>)
    ensures Concat(ReconcileStmts(h, order)) == ReconcileAll(h, order)
    ensures Concat(ReconcileStmts(h, order) + READ_BACK) == ReconcileAll(h, order)
  {
    hide RoleWrites;
    ConcatSingles(RoleWrites(h, order));
    ConcatSingle([RepairBindings]);
    ConcatAppend(Singles(RoleWrites(h, order)), [[RepairBindings]]);
    ConcatAppend(ReconcileStmts(h, order), READ_BACK);
    assert READ_BACK[1..] == [[], []] && READ_BACK[1..][1..] == [[]] && READ_BACK[1..][1..][1..] == [];
  }

  lemma FromImportRows(h: Hass, rows: seq<RelKey>, order: seq<string>, clearFirst: bool)
    ensures Concat(FromImport(h, rows, order, clearFirst)) ==
            (if clearFirst then Import(rows) else []) + ReconcileAll(h, order)
  {
    hide Import, ReconcileStmts, ReconcileAll;
    ReconcileRows(h, order);
    ConcatSingles(Import(rows));
    ConcatAppend(if clearFirst then Singles(Import(rows)) else [], ReconcileStmts(h, order) + READ_BACK);
  }

  lemma UntilImportOk(h: Hass, g: G, faults: seq<Fault>, rules: seq<Rule>, clearFirst: bool)
    requires Play(g, faults, UntilImport(h, g, rules, clearFirst)).ok
    ensures Play(g, faults, UntilImport(h, g, rules, clearFirst)).g == FullBuild(h, AfterClear(g, clearFirst), rules)
  {
    hide BuildStmts, Play, Cleared, FullBuild;
    var c := AfterClear(g, clearFirst);
    PlayAppend(g, faults, ClearStmts(clearFirst), BuildStmts(h, c, rules));
    ClearPlayed(g, faults, clearFirst);
    PlayOk(c, Play(g, faults, ClearStmts(clearFirst)).faults, BuildStmts(h, c, rules));
    BuildStmtsRows(h, c, rules);
    BuildIsExec(h, c, rules);
  }

  lemma SyncDone(h: Hass, g: G, faults: seq<Fault>, rules: seq<Rule>, rows: seq<RelKey>, order: seq<string>,
                 clearFirst: bool)
    requires PlaySync(h, g, faults, rules, rows, order, clearFirst).ok
    ensures clearFirst ==> AllValid(rows)
    ensures PlaySync(h, g, faults, rules, rows, order, clearFirst).g ==
            if clearFirst then FullRebuild(h, g, rules, rows, order) else Resync(h, g, rules, order)
  {
    hide FullBuild, ReconcileAll, Import, Play, BuildStmts, UntilImport, FromImport;
    UntilImportOk(h, g, faults, rules, clearFirst);
    var built := Play(g, faults, UntilImport(h, g, rules, clearFirst));
    PlayOk(built.g, built.faults, FromImport(h, rows, order, clearFirst));
    FromImportRows(h, rows, order, clearFirst);
    ExecAllAppend(built.g, if clearFirst then Import(rows) else [], ReconcileAll(h, order));
  }

  /** A resync or rebuild succeeds exactly when none of its queries raises and, for a rebuild, every exported
      override can be imported again. */
  lemma SyncSucceedsExactly(h: Hass, g: G, faults: seq<Fault>, rules: seq<Rule>, rows: seq<RelKey>, order: seq<string>,
                            clearFirst: bool)
    ensures var stmts := UntilImport(h, g, rules, clearFirst) + FromImport(h, rows, order, clearFirst);
            PlaySync(h, g, faults, rules, rows, order, clearFirst).ok <==>
              (clearFirst ==> AllValid(rows)) && forall i :: 0 <= i < |stmts| && i < |faults| ==> faults[i].Fine?
  {
    hide UntilImport, FromImport, Play, AllValid;
    var a, b := UntilImport(h, g, rules, clearFirst), FromImport(h, rows, order, clearFirst);
    PlayAppend(g, faults, a, b);
    RaisesExactly(g, faults, a + b);
    RaisesExactly(g, faults, a);
    if !Play(g, faults, a).ok {
      var i :| 0 <= i < |a| && i < |faults| && !faults[i].Fine?;
      assert i < |a + b|;
    }
  }
}
