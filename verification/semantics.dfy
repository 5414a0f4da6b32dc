/** Semantic signals: the classification rules and the inferred energy role of an entity. */
module Semantics {
  import opened Graph
  import opened Registry

  predicate MentionsAt(text: string, marker: string, i: nat) {
    i + |marker| <= |text| && text[i..i + |marker|] == marker
  }

  /** Python's `marker in text`. */
  predicate Mentions(text: string, marker: string) { exists i :: 0 <= i <= |text| && MentionsAt(text, marker, i) }

  predicate MentionsAny(text: string, markers: seq<string>) { exists m :: m in markers && Mentions(text, m) }

  /** Python's `part in text`. */
  ghost predicate Contains(text: string, part: string) { exists a, b :: text == a + part + b }

  lemma MentionsIsContains(text: string, marker: string)
    ensures Mentions(text, marker) <==> Contains(text, marker)
  {
    if Mentions(text, marker) {
      var i :| 0 <= i <= |text| && MentionsAt(text, marker, i);
      assert text == text[..i] + marker + text[i + |marker|..];
    }
    if Contains(text, marker) {
      var a, b :| text == a + marker + b;
      assert text[|a|..|a| + |marker|] == marker;
      assert MentionsAt(text, marker, |a|);
    }
  }

  ghost predicate Says(text: string, parts: set<string>) { exists part :: part in parts && Contains(text, part) }

  lemma SaysIs(text: string, markers: seq<string>, parts: set<string>)
    requires forall m :: m in markers <==> m in parts
    ensures MentionsAny(text, markers) <==> Says(text, parts)
  {
    hide Mentions, Contains;
    forall m ensures Mentions(text, m) <==> Contains(text, m) { MentionsIsContains(text, m); }
  }

  // ---- Energy roles -----------------------------------------------------------

  const CONSUMER := "consumer"
  const PRODUCER := "producer"
  const STORAGE := "storage"
  const GRID_IMPORT := "grid_import"
  const GRID_EXPORT := "grid_export"
  const ENERGY_ROLES := {CONSUMER, PRODUCER, STORAGE, GRID_IMPORT, GRID_EXPORT}

  // What a text may mention, and the role it then speaks for; earlier rows take precedence.
  datatype Evidence = Evidence(markers: seq<string>, role: string)

  const EVIDENCE := [
    Evidence(["grid export", "export to grid", "feed in"], GRID_EXPORT),
    Evidence(["grid import", "import from grid"], GRID_IMPORT),
    Evidence(["battery storage", "storage power"], STORAGE),
    Evidence(["solar", "generation", "generator output"], PRODUCER),
    Evidence(["consumption", "consuming", "appliance load"], CONSUMER)]

  /** The role of the first row the text mentions. */
  function FirstRole(evidence: seq<Evidence>, text: string): (r: Option<string>)
    ensures r.Some? ==> exists e :: e in evidence && e.role == r.value
  {
    if evidence == [] then None
    else if MentionsAny(text, evidence[0].markers) then Some(evidence[0].role)
    else FirstRole(evidence[1..], text)
  }

  predicate Measures(s: Signals) { s.deviceClass == Some("power") || s.deviceClass == Some("energy") }

  function InferEnergyRole(s: Signals): (r: Option<string>)
    ensures r.Some? ==> r.value in ENERGY_ROLES
  {
    if !Measures(s) then None
    else
      var spoken := FirstRole(EVIDENCE, s.text);
      if spoken.Some? then spoken else if s.hasDevice then Some(CONSUMER) else None
  }

  /** Row k is the first one the text mentions. */
  ghost predicate Decides(evidence: seq<Evidence>, text: string, k: nat) {
    k < |evidence| && MentionsAny(text, evidence[k].markers) &&
    forall j :: 0 <= j < k ==> !MentionsAny(text, evidence[j].markers)
  }

  lemma {:induction false} FirstRoleIs(evidence: seq<Evidence>, text: string, role: string)
    ensures FirstRole(evidence, text) == Some(role) <==>
              exists k: nat :: Decides(evidence, text, k) && evidence[k].role == role
    ensures FirstRole(evidence, text).None? <==> forall k: nat :: !Decides(evidence, text, k)
    decreases |evidence|
  {
    hide MentionsAny;
    if evidence != [] {
      var rest := evidence[1..];
      FirstRoleIs(rest, text, role);
      if MentionsAny(text, evidence[0].markers) {
        assert Decides(evidence, text, 0);
      } else {
        forall k: nat ensures Decides(evidence, text, k + 1) <==> Decides(rest, text, k) {
          DecidesNext(evidence, text, k);
        }
        forall k: nat | Decides(evidence, text, k) ensures k > 0 && Decides(rest, text, k - 1) {
          if k > 0 { DecidesNext(evidence, text, k - 1); }
        }
      }
    }
  }

  lemma DecidesNext(evidence: seq<Evidence>, text: string, k: nat)
    requires evidence != [] && !MentionsAny(text, evidence[0].markers)
    ensures Decides(evidence, text, k + 1) <==> Decides(evidence[1..], text, k)
  {
    hide MentionsAny;
    if Decides(evidence, text, k + 1) {
      forall j | 0 <= j < k ensures !MentionsAny(text, evidence[1..][j].markers) {
        assert evidence[1..][j] == evidence[j + 1];
      }
    }
    if Decides(evidence[1..], text, k) {
      forall j | 0 < j < k + 1 ensures !MentionsAny(text, evidence[j].markers) {
        assert evidence[j] == evidence[1..][j - 1];
      }
    }
  }

  /** A role is inferred exactly for a power or energy measurement whose text mentions it before any other,
      and, as a consumer, for one of a device whose text mentions none; never a consumer for a text
      that mentions the grid, storage or generation. */
  lemma InferredExactly(s: Signals, role: string)
    ensures InferEnergyRole(s) == Some(role) <==>
              Measures(s) &&
              ((exists k: nat :: Decides(EVIDENCE, s.text, k) && EVIDENCE[k].role == role) ||
               ((forall k: nat :: !Decides(EVIDENCE, s.text, k)) && s.hasDevice && role == CONSUMER))
    ensures InferEnergyRole(s) == Some(CONSUMER) ==>
              forall k :: 0 <= k < 4 ==> !MentionsAny(s.text, EVIDENCE[k].markers)
  {
    FirstRoleIs(EVIDENCE, s.text, role);
    FirstRoleIs(EVIDENCE, s.text, CONSUMER);
    hide MentionsAny, FirstRole;
    if InferEnergyRole(s) == Some(CONSUMER) { NotConsumerBefore(s.text); }
  }

  lemma DecidedIs(text: string, k: nat)
    requires Decides(EVIDENCE, text, k)
    ensures FirstRole(EVIDENCE, text) == Some(EVIDENCE[k].role)
  {
    FirstRoleIs(EVIDENCE, text, EVIDENCE[k].role);
  }

  /** The role a text speaks for: exporting to or importing from the grid before storage, before generation, before
      consumption. */
  ghost function SpokenRole(text: string): Option<string> {
    if Says(text, {"grid export", "export to grid", "feed in"}) then Some("grid_export")
    else if Says(text, {"grid import", "import from grid"}) then Some("grid_import")
    else if Says(text, {"battery storage", "storage power"}) then Some("storage")
    else if Says(text, {"solar", "generation", "generator output"}) then Some("producer")
    else if Says(text, {"consumption", "consuming", "appliance load"}) then Some("consumer")
    else None
  }

  lemma SpokenIs(text: string)
    ensures FirstRole(EVIDENCE, text) == SpokenRole(text)
  {
    SaysIs(text, EVIDENCE[0].markers, {"grid export", "export to grid", "feed in"});
    SaysIs(text, EVIDENCE[1].markers, {"grid import", "import from grid"});
    SaysIs(text, EVIDENCE[2].markers, {"battery storage", "storage power"});
    SaysIs(text, EVIDENCE[3].markers, {"solar", "generation", "generator output"});
    SaysIs(text, EVIDENCE[4].markers, {"consumption", "consuming", "appliance load"});
    hide MentionsAny, Says, FirstRole;
    if k: nat :| Decides(EVIDENCE, text, k) {
      DecidedIs(text, k);
      assert k in {0, 1, 2, 3, 4};
    } else {
      FirstRoleIs(EVIDENCE, text, CONSUMER);
      NothingSaid(text);
    }
  }

  lemma NothingSaid(text: string)
    requires forall k: nat :: !Decides(EVIDENCE, text, k)
    ensures forall k: nat :: k < 5 ==> !MentionsAny(text, EVIDENCE[k].markers)
  {
    hide MentionsAny;
    assert !Decides(EVIDENCE, text, 0) && !Decides(EVIDENCE, text, 1) && !Decides(EVIDENCE, text, 2);
    assert !Decides(EVIDENCE, text, 3) && !Decides(EVIDENCE, text, 4);
  }

  /** A power or energy measurement has the role its text speaks for, a device's one is a consumer otherwise; nothing
      else has a role. */
  lemma RoleFromText(s: Signals)
    ensures InferEnergyRole(s) ==
            if s.deviceClass != Some("power") && s.deviceClass != Some("energy") then None
            else if SpokenRole(s.text).Some? then SpokenRole(s.text)
            else if s.hasDevice then Some("consumer") else None
  {
    SpokenIs(s.text);
    hide FirstRole, SpokenRole;
  }

  lemma NotConsumerBefore(text: string)
    requires FirstRole(EVIDENCE, text) == None || FirstRole(EVIDENCE, text) == Some(CONSUMER)
    ensures forall k :: 0 <= k < 4 ==> !MentionsAny(text, EVIDENCE[k].markers)
  {
    FirstRoleIs(EVIDENCE, text, CONSUMER);
    hide MentionsAny, FirstRole;
    assert forall k: nat :: Decides(EVIDENCE, text, k) ==> k == 4;
    assert !Decides(EVIDENCE, text, 0) && !Decides(EVIDENCE, text, 1);
    assert !Decides(EVIDENCE, text, 2) && !Decides(EVIDENCE, text, 3);
  }

  /** The one row `async_reconcile_energy_role_for_entity` writes. */
  function RoleWrite(h: Hass, e: string): Write {
    var role := InferEnergyRole(h.signals(e));
    if role.Some? then UpsertRole(Inferred, e, role.value) else DropRole(Inferred, e)
  }

  // ---- Classification rules -----------------------------------------------------

  datatype Rule = Rule(typeLabel: string, back: RelType, domains: seq<string>, deviceClasses: seq<string>,
                       keywords: seq<string>, manufacturers: seq<string>, excluded: seq<string>)

  predicate ManufacturerIn(s: Signals, names: seq<string>) { s.manufacturer.Some? && s.manufacturer.value in names }

  predicate RuleMatches(rule: Rule, s: Signals) {
    if rule.domains != [] && s.domain !in rule.domains then false
    else if rule.excluded != [] && ManufacturerIn(s, rule.excluded) then false
    else if rule.manufacturers != [] then ManufacturerIn(s, rule.manufacturers)
    else if rule.deviceClasses != [] && s.deviceClass.Some? && s.deviceClass.value in rule.deviceClasses then true
    else if rule.keywords != [] && MentionsAny(s.text, rule.keywords) then true
    else rule.deviceClasses == [] && rule.keywords == []
  }

  function MatchingRules(rules: seq<Rule>, s: Signals): seq<Rule> {
    if rules == [] then []
    else (if RuleMatches(rules[0], s) then [rules[0]] else []) + MatchingRules(rules[1..], s)
  }

  /** When a rule fits an entity: its domain is one the rule is for, its manufacturer is not excluded, and a rule
      for manufacturers is for this one, while any other rule asks for a device class or for a keyword, if it
      asks for anything. */
  ghost predicate RuleFits(rule: Rule, s: Signals) {
    (|rule.domains| > 0 ==> s.domain in rule.domains) &&
    (s.manufacturer.Some? ==> s.manufacturer.value !in rule.excluded) &&
    if |rule.manufacturers| > 0 then s.manufacturer.Some? && s.manufacturer.value in rule.manufacturers
    else
      (s.deviceClass.Some? && s.deviceClass.value in rule.deviceClasses) ||
      (exists keyword :: keyword in rule.keywords && Contains(s.text, keyword)) ||
      (|rule.deviceClasses| == 0 && |rule.keywords| == 0)
  }

  /** The rules that match an entity are exactly those that fit it. */
  lemma MatchingExactly(rules: seq<Rule>, s: Signals)
    ensures forall rule :: rule in MatchingRules(rules, s) <==> rule in rules && RuleFits(rule, s)
  {
    MatchingIn(rules, s);
    forall rule ensures RuleMatches(rule, s) <==> RuleFits(rule, s) { FitsIsMatches(rule, s); }
  }

  lemma FitsIsMatches(rule: Rule, s: Signals)
    ensures RuleMatches(rule, s) <==> RuleFits(rule, s)
  {
    hide Mentions, Contains;
    forall keyword ensures Mentions(s.text, keyword) <==> Contains(s.text, keyword) {
      MentionsIsContains(s.text, keyword);
    }
  }

  lemma {:induction false} MatchingIn(rules: seq<Rule>, s: Signals)
    ensures forall r :: r in MatchingRules(rules, s) <==> r in rules && RuleMatches(r, s)
    decreases |rules|
  {
    if rules != [] { MatchingIn(rules[1..], s); }
  }

  function ResolveArea(h: Hass, e: string): Option<string> {
    if e !in h.entries.items then None
    else
      var entry := h.entries.items[e];
      if Truthy(entry.areaId) then entry.areaId
      else if Truthy(entry.deviceId) && entry.deviceId.value in h.devices.items then
        h.devices.items[entry.deviceId.value].areaId
      else None
  }

  function TypeKey(t: string): NodeKey { NodeKey(SemanticType, Plain(t)) }
  function AssetKey(e: string, t: string): NodeKey { NodeKey(Typed(t), AssetOf(e, t)) }
  function Override(from: NodeKey, t: string): RelKey { RelKey(from, OverrideOf, TypeKey(t)) }

  // `_has_user_override`; the query does not look at the relationship's source.
  predicate Overridden(g: G, e: string, t: string) { Override(EntityKey(e), t) in g.rels }

  /** The rows one matching rule writes for one entity. */
  function RuleWrites(h: Hass, e: string, rule: Rule): seq<Write> {
    var asset := AssetKey(e, rule.typeLabel);
    var area := ResolveArea(h, e);
    [MergeNode(TypeKey(rule.typeLabel), map[PName := Text(rule.typeLabel), PSource := From(Generated)]),
     MergeRel(RelKey(EntityKey(e), ClassifiedAs, TypeKey(rule.typeLabel)), Sourced(Inferred)),
     MergeNode(asset, map[PName := Text(h.signals(e).friendlyName), PSource := From(Inferred)]),
     MergeRel(RelKey(asset, rule.back, EntityKey(e)), Sourced(Inferred))]
    + (if Truthy(area) then [MergeRel(RelKey(asset, LocatedIn, AreaKey(area.value)), Sourced(Inferred))] else [])
  }

  const MEASURED_BY := Named("MEASURED_BY")
  const OBSERVED_BY := Named("OBSERVED_BY")

  const RULES: seq<Rule> := [
    Rule("GasCylinder", MEASURED_BY, ["sensor", "binary_sensor"], ["gas"],
         ["gas", "cylinder", "propane", "lpg"], [], []),
    Rule("Vehicle", MEASURED_BY, ["device_tracker", "sensor", "binary_sensor"], [],
         ["car", "vehicle", "truck", "ev charger"], [], ["Reolink"]),
    Rule("EnergyAsset", MEASURED_BY, ["sensor"], ["energy", "power", "voltage", "current"],
         ["solar", "inverter", "energy", "power meter"], [], []),
    Rule("SecurityDevice", OBSERVED_BY, ["alarm_control_panel", "lock", "binary_sensor", "camera"],
         ["lock", "door", "window", "safety"], ["alarm", "lock", "camera", "security"], [], []),
    Rule("OccupancySensor", OBSERVED_BY, ["binary_sensor"], ["occupancy", "motion", "presence"],
         ["occupancy", "motion", "presence"], [], []),
    Rule("ClimateDevice", MEASURED_BY, ["climate", "sensor"], ["temperature", "humidity"],
         ["thermostat", "climate", "hvac", "heater"], [], []),
    Rule("NetworkDevice", MEASURED_BY, ["device_tracker", "sensor", "binary_sensor"], ["connectivity"],
         ["router", "wifi", "network", "access point"], [], []),
    Rule("BatteryPoweredDevice", MEASURED_BY, ["sensor", "binary_sensor"], ["battery"], ["battery"], [], []),
    Rule("Camera", OBSERVED_BY, [], [], [], ["Reolink"], [])]

  /** No rule's back relationship is one of the relationship types other parts of the graph rely on. */
  lemma RulesUseNamedRelationships()
    ensures forall rule :: rule in RULES ==> rule.back.Named?
  {
  }

  /** Of the shipped rules, the one for vehicles never fits what Reolink made, and the one for cameras fits that and
      nothing else. */
  lemma ReolinkIsACamera(s: Signals, t: string)
    ensures s.manufacturer == Some("Reolink") ==> forall r :: r in MatchingRules(RULES, s) ==> r.typeLabel != "Vehicle"
    ensures (exists r :: r in MatchingRules(RULES, s) && r.typeLabel == "Camera") <==> s.manufacturer == Some("Reolink")
  {
    MatchingExactly(RULES, s);
    hide MatchingRules, Contains;
    if s.manufacturer == Some("Reolink") { assert RuleFits(RULES[8], s); }
  }
}
