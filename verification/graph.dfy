/** The Memgraph store: labelled nodes and typed relationships with property maps,
    the Cypher query shapes the integration issues, and the client that runs them. */
module Graph {
  import opened Sequences

  datatype Source = HomeAssistant | Generated | Inferred | User | OtherSource(name: string)

  datatype Label =
    | Home | Floor | Area | Device | Entity | Domain | Integration | Tag
    | Automation | Scene | Script | Schema | SemanticType | RoleAssignment
    | Typed(name: string)

  datatype RelType =
    | HasArea | HasFloor | OnFloor | HasDevice | HasEntity | InDomain | ProvidedBy | HasLabel
    | References | Controls | ClassifiedAs | LocatedIn | OverrideOf | AssignsRoleTo
    | Named(name: string)

  // `ha_id` values. Derived identifiers (uuid5 of source and entity, "<entity>::<Type>")
  // are kept structured, so that distinct inputs give distinct identifiers.
  datatype HaId =
    | Plain(text: string)
    | AssetOf(entity: string, typeLabel: string)
    | RoleOf(source: Source, entity: string)

  datatype NodeKey = NodeKey(lbl: Label, id: HaId)
  datatype RelKey = RelKey(from: NodeKey, kind: RelType, to: NodeKey)

  datatype Prop =
    | PName | PSource | PIcon | PLevel | PColor | PManufacturer | PModel
    | PDeviceId | PAreaId | PState | PStateUpdated | PDeviceClass | PUnit
    | MeasurementKind | MeasurementStatus | BatteryPercentage | PowerWatts | MeasuredAt | MeasuredAtEpoch
    | PMeasurementEntity | PRole | PVersion
    | POther(name: string)

  datatype Value = Null | Text(text: string) | Number(number: real) | From(source: Source)

  type Props = map<Prop, Value>

  datatype G = G(nodes: map<NodeKey, Props>, rels: map<RelKey, Props>)

  const MEASUREMENT_PROPS: set<Prop> :=
    {MeasurementKind, MeasurementStatus, BatteryPercentage, PowerWatts, MeasuredAt, MeasuredAtEpoch}

  const HOME := NodeKey(Home, Plain("home"))
  const SCHEMA := NodeKey(Schema, Plain("home_assistant_ontology"))

  function EntityKey(e: string): NodeKey { NodeKey(Entity, Plain(e)) }
  function AreaKey(a: string): NodeKey { NodeKey(Area, Plain(a)) }
  function RoleKey(source: Source, e: string): NodeKey { NodeKey(RoleAssignment, RoleOf(source, e)) }
  function Binding(a: NodeKey, e: string): RelKey { RelKey(a, AssignsRoleTo, EntityKey(e)) }

  /** Cypher's `SET n += $map`: a null value removes the property. */
  function Plus(stored: Props, given: Props): Props {
    map k | k in stored.Keys + given.Keys && (k in given ==> given[k] != Null)
      :: if k in given then given[k] else stored[k]
  }

  function SourceOf(p: Props): Source {
    if PSource in p && p[PSource].From? then p[PSource].source else OtherSource("")
  }

  predicate Owned(p: Props) { SourceOf(p) in {HomeAssistant, Generated} }

  function NodeOr(g: G, k: NodeKey): Props { if k in g.nodes then g.nodes[k] else map[] }
  function RelOr(g: G, r: RelKey): Props { if r in g.rels then g.rels[r] else map[] }
  predicate HasEnds(g: G, r: RelKey) { r.from in g.nodes && r.to in g.nodes }

  /** REMOVE the measurement properties, then SET n += properties, n += measurement. */
  function Measured(p: Props, props: Props, measurement: Props): Props {
    Plus(Plus(p - MEASUREMENT_PROPS, props), measurement)
  }

  // One row of one query. `MergeEntity`/`MatchEntity` are the entity writes with and
  // without node creation; `DropAreas` is the filtered HAS_AREA delete.
  datatype Write =
    | MergeNode(node: NodeKey, props: Props)
    | MergeRel(rel: RelKey, props: Props)
    | MergeEntity(entity: string, props: Props, measurement: Props)
    | MatchEntity(entity: string, props: Props, measurement: Props)
    | DropAreas(entity: string)
    | DeleteOwned(node: NodeKey)
    | ClearOwned
    | EnsureSchema(props: Props)
    | UpsertRole(source: Source, entity: string, role: string)
    | DropRole(source: Source, entity: string)
    | RepairBindings

  function SetNode(g: G, k: NodeKey, p: Props): G { g.(nodes := g.nodes[k := p]) }

  function DetachDelete(g: G, gone: set<NodeKey>): G {
    G(g.nodes - gone, map r | r in g.rels && r.from !in gone && r.to !in gone :: g.rels[r])
  }

  predicate IsOwnArea(p: Props, r: RelKey, e: string) {
    r.from == EntityKey(e) && r.kind == HasArea && r.to.lbl == Area && SourceOf(p) == HomeAssistant
  }

  predicate IsBinding(r: RelKey) { r.from.lbl == RoleAssignment && r.kind == AssignsRoleTo }

  /** The entity an assignment node names, when that entity has a node. */
  predicate Binds(g: G, a: NodeKey, e: string) {
    a in g.nodes && a.lbl == RoleAssignment &&
    PMeasurementEntity in g.nodes[a] && g.nodes[a][PMeasurementEntity] == Text(e) && EntityKey(e) in g.nodes
  }

  function Bindings(g: G): set<RelKey> {
    set a | a in g.nodes && a.lbl == RoleAssignment && PMeasurementEntity in g.nodes[a] &&
            g.nodes[a][PMeasurementEntity].Text? && Binds(g, a, g.nodes[a][PMeasurementEntity].text)
      :: Binding(a, g.nodes[a][PMeasurementEntity].text)
  }

  function Sourced(source: Source): Props { map[PSource := From(source)] }

  function RoleProps(source: Source, e: string, role: string): Props {
    map[PMeasurementEntity := Text(e), PRole := Text(role), PSource := From(source)]
  }

  function Exec(g: G, w: Write): G {
    match w
    case MergeNode(k, props) => SetNode(g, k, Plus(NodeOr(g, k), props))
    case MergeRel(r, props) => if HasEnds(g, r) then g.(rels := g.rels[r := Plus(RelOr(g, r), props)]) else g
    case MergeEntity(e, props, m) => SetNode(g, EntityKey(e), Measured(NodeOr(g, EntityKey(e)), props, m))
    case MatchEntity(e, props, m) =>
      if EntityKey(e) in g.nodes then SetNode(g, EntityKey(e), Measured(g.nodes[EntityKey(e)], props, m)) else g
    case DropAreas(e) => g.(rels := map r | r in g.rels && !IsOwnArea(g.rels[r], r, e) :: g.rels[r])
    case DeleteOwned(k) => if k in g.nodes && Owned(g.nodes[k]) then DetachDelete(g, {k}) else g
    case ClearOwned => DetachDelete(g, set k | k in g.nodes && Owned(g.nodes[k]) && k.lbl != Schema)
    case EnsureSchema(props) => if SCHEMA in g.nodes then g else SetNode(g, SCHEMA, Plus(map[], props))
    case UpsertRole(source, e, role) =>
      if EntityKey(e) !in g.nodes then g else
        var a := RoleKey(source, e);
        var g1 := SetNode(g, a, Plus(NodeOr(g, a), RoleProps(source, e, role)));
        g1.(rels := g1.rels[Binding(a, e) := Plus(RelOr(g, Binding(a, e)), Sourced(Generated))])
    case DropRole(source, e) =>
      var a := RoleKey(source, e);
      if a in g.nodes && SourceOf(g.nodes[a]) == source then DetachDelete(g, {a}) else g
    case RepairBindings =>
      var repaired := Bindings(g);
      g.(rels := map r | r in g.rels.Keys + repaired && (r in repaired || !IsBinding(r))
                   :: if r in repaired then Sourced(Generated) else g.rels[r])
  }

  function ExecAll(g: G, ws: seq<Write>): G
    decreases |ws|
  {
    if ws == [] then g else ExecAll(Exec(g, ws[0]), ws[1..])
  }

  function Concat<T>(ss: seq<seq<T>>): seq<T> { if ss == [] then [] else ss[0] + Concat(ss[1..]) }

  lemma {:induction false} ExecAllAppend(g: G, a: seq<Write>, b: seq<Write>)
    ensures ExecAll(g, a + b) == ExecAll(ExecAll(g, a), b)
    decreases |a|
  {
    if a == [] {
      assert a + b == b;
    } else {
      assert (a + b)[0] == a[0] && (a + b)[1..] == a[1..] + b;
      ExecAllAppend(Exec(g, a[0]), a[1..], b);
    }
  }

  lemma {:induction false} ConcatAppend<T>(a: seq<seq<T>>, b: seq<seq<T>>)
    ensures Concat(a + b) == Concat(a) + Concat(b)
    decreases |a|
  {
    if a == [] {
      assert a + b == b;
    } else {
      assert (a + b)[0] == a[0] && (a + b)[1..] == a[1..] + b;
      ConcatAppend(a[1..], b);
    }
  }

  lemma {:induction false} ConcatPrefix<T>(stmts: seq<seq<T>>, n: nat)
    requires n <= |stmts|
    ensures Concat(stmts[..n]) <= Concat(stmts)
    decreases |stmts|
  {
    if n > 0 {
      assert stmts[..n][1..] == stmts[1..][..n - 1];
      ConcatPrefix(stmts[1..], n - 1);
    }
  }

  lemma ConcatSingle<T>(s: seq<T>)
    ensures Concat([s]) == s
  {
    assert [s][1..] == [];
    assert s + [] == s;
  }

  lemma ExecPair(g: G, a: Write, b: Write)
    ensures ExecAll(g, [a]) == Exec(g, a)
    ensures ExecAll(g, [a, b]) == Exec(Exec(g, a), b)
  {
    assert [a][1..] == [] && [a, b][1..] == [b] && [b][1..] == [];
    assert ExecAll(Exec(g, a), [b]) == ExecAll(Exec(Exec(g, a), b), []);
  }

  /** No relationship outlives its endpoints. */
  ghost predicate Closed(g: G) { forall r :: r in g.rels ==> HasEnds(g, r) }

  lemma ExecClosed(g: G, w: Write)
    requires Closed(g)
    ensures Closed(Exec(g, w))
  {
    if w.RepairBindings? {
      forall r | r in Exec(g, w).rels ensures HasEnds(Exec(g, w), r) {
        if r in Bindings(g) { assert HasEnds(g, r); }
      }
    }
  }

  lemma {:induction false} ExecAllClosed(g: G, ws: seq<Write>)
    requires Closed(g)
    ensures Closed(ExecAll(g, ws))
    decreases |ws|
  {
    if ws != [] {
      ExecClosed(g, ws[0]);
      ExecAllClosed(Exec(g, ws[0]), ws[1..]);
    }
  }

  lemma PlusTwice(p: Props, q: Props)
    ensures Plus(Plus(p, q), q) == Plus(p, q)
  {
  }

  lemma MeasuredTwice(p: Props, q: Props, m: Props)
    ensures Measured(Measured(p, q, m), q, m) == Measured(p, q, m)
  {
  }

  lemma BindingsOfRepaired(g: G)
    ensures Bindings(Exec(g, RepairBindings)) == Bindings(g)
  {
    var h := Exec(g, RepairBindings);
    assert h.nodes == g.nodes;
    forall a, e ensures Binds(h, a, e) == Binds(g, a, e) { }
  }

  /** Every query shape is idempotent, so a query retried after its first attempt
      took effect leaves the graph a single attempt would have left. */
  lemma RetrySafe(g: G, w: Write)
    ensures Exec(Exec(g, w), w) == Exec(g, w)
  {
    if w.UpsertRole? { UpsertRetrySafe(g, w.source, w.entity, w.role); }
    else if w.MergeNode? || w.MergeRel? || w.MergeEntity? || w.MatchEntity? { MergeRetrySafe(g, w); }
    else if w.RepairBindings? { RepairRetrySafe(g); }
    else { DeleteRetrySafe(g, w); }
  }

  lemma MergeRetrySafe(g: G, w: Write)
    requires w.MergeNode? || w.MergeRel? || w.MergeEntity? || w.MatchEntity?
    ensures Exec(Exec(g, w), w) == Exec(g, w)
  {
    hide Plus, Measured;
    match w
    case MergeNode(k, props) => PlusTwice(NodeOr(g, k), props);
    case MergeRel(r, props) => PlusTwice(RelOr(g, r), props);
    case MergeEntity(e, props, m) => MeasuredTwice(NodeOr(g, EntityKey(e)), props, m);
    case MatchEntity(e, props, m) => MeasuredTwice(NodeOr(g, EntityKey(e)), props, m);
  }

  lemma UpsertRetrySafe(g: G, source: Source, e: string, role: string)
    ensures var w := UpsertRole(source, e, role); Exec(Exec(g, w), w) == Exec(g, w)
  {
    hide Plus, RoleProps, Sourced;
    PlusTwice(NodeOr(g, RoleKey(source, e)), RoleProps(source, e, role));
    PlusTwice(RelOr(g, Binding(RoleKey(source, e), e)), Sourced(Generated));
  }

  lemma RepairRetrySafe(g: G)
    ensures Exec(Exec(g, RepairBindings), RepairBindings) == Exec(g, RepairBindings)
  {
    BindingsOfRepaired(g);
    hide Bindings, Binds;
    var h := Exec(g, RepairBindings);
    assert Exec(h, RepairBindings).rels == h.rels;
  }

  lemma DeleteRetrySafe(g: G, w: Write)
    requires w.DropAreas? || w.DeleteOwned? || w.ClearOwned? || w.EnsureSchema? || w.DropRole?
    ensures Exec(Exec(g, w), w) == Exec(g, w)
  {
    var h := Exec(g, w);
    match w
    case DropAreas(e) => assert Exec(h, w).rels == h.rels;
    case ClearOwned => assert Exec(h, w).rels == h.rels && Exec(h, w).nodes == h.nodes;
    case _ =>
  }

  // ---- The client -----------------------------------------------------------

  // What happens to a query that does not answer normally: its transaction may or
  // may not have been committed before the error reached the caller.
  datatype Fault = Fine | LostBefore | LostAfter

  ghost predicate AllFine(faults: seq<Fault>) { forall f :: f in faults ==> f.Fine? }

  class Client {
    var g: G
    var faults: seq<Fault>  // how the coming queries go; Fine once exhausted

    constructor (g: G, faults: seq<Fault>)
      ensures this.g == g && this.faults == faults
    {
      this.g, this.faults := g, faults;
    }

    /** Runs one query over the given rows; `ok` is false when it raises. */
    method Run(rows: seq<Write>) returns (ok: bool)
      modifies this
      ensures Outcome(g, faults, ok) == PlayOne(old(g), old(faults), rows)
    {
      var fault := if faults == [] then Fine else faults[0];
      if faults != [] { faults := faults[1..]; }
      if !fault.LostBefore? {
        var i := 0;
        while i < |rows|
          invariant 0 <= i <= |rows|
          invariant ExecAll(g, rows[i..]) == ExecAll(old(g), rows)
          invariant faults == if old(faults) == [] then [] else old(faults)[1..]
        {
          g := Exec(g, rows[i]);
          i := i + 1;
        }
      }
      ok := fault.Fine?;
    }
  }

  // What a run of queries leaves: the graph, the fates of the queries still to come, whether none raised.
  datatype Outcome = Outcome(g: G, faults: seq<Fault>, ok: bool)

  /** One query: all of its rows take effect or none do, and it raises unless its fate is `Fine`. */
  function PlayOne(g: G, faults: seq<Fault>, rows: seq<Write>): Outcome {
    if faults == [] then Outcome(ExecAll(g, rows), [], true)
    else Outcome(if faults[0].LostBefore? then g else ExecAll(g, rows), faults[1..], faults[0].Fine?)
  }

  /** Queries one after another, until one raises. */
  function Play(g: G, faults: seq<Fault>, stmts: seq<seq<Write>>): Outcome
    decreases |stmts|
  {
    if stmts == [] then Outcome(g, faults, true)
    else
      var first := PlayOne(g, faults, stmts[0]);
      if first.ok then Play(first.g, first.faults, stmts[1..]) else first
  }

  lemma {:induction false} PlayAppend(g: G, faults: seq<Fault>, a: seq<seq<Write>>, b: seq<seq<Write>>)
    ensures var first := Play(g, faults, a);
            Play(g, faults, a + b) == if first.ok then Play(first.g, first.faults, b) else first
    decreases |a|
  {
    if a == [] {
      assert a + b == b;
    } else {
      assert (a + b)[0] == a[0] && (a + b)[1..] == a[1..] + b;
      var first := PlayOne(g, faults, a[0]);
      if first.ok { PlayAppend(first.g, first.faults, a[1..], b); }
    }
  }

  lemma PlaySingle(g: G, faults: seq<Fault>, stmt: seq<Write>)
    ensures Play(g, faults, [stmt]) == PlayOne(g, faults, stmt)
  {
    var first := PlayOne(g, faults, stmt);
    assert [stmt][1..] == [];
    assert Play(first.g, first.faults, []) == first.(ok := true);
  }

  /** How many of `count` queries in a row take effect before one raises, that one included. */
  function TookEffect(faults: seq<Fault>, count: nat): (n: nat)
    ensures n <= count
    decreases count
  {
    if count == 0 then 0
    else if faults == [] then count
    else
      match faults[0]
      case Fine => 1 + TookEffect(faults[1..], count - 1)
      case LostBefore => 0
      case LostAfter => 1
  }

  lemma {:induction false} TookEffectOf(faults: seq<Fault>, fewer: nat, count: nat)
    requires fewer <= count
    ensures TookEffect(faults, fewer) == Min(TookEffect(faults, count), fewer)
    decreases count
  {
    if fewer > 0 && faults != [] && faults[0].Fine? { TookEffectOf(faults[1..], fewer - 1, count - 1); }
  }

  /** A run leaves what the queries that took effect do in order: all of them when none raises. */
  lemma {:induction false} PlayIsPrefix(g: G, faults: seq<Fault>, stmts: seq<seq<Write>>) returns (n: nat)
    ensures n == TookEffect(faults, |stmts|) && Play(g, faults, stmts).g == ExecAll(g, Concat(stmts[..n]))
    ensures Play(g, faults, stmts).ok ==> n == |stmts| && Play(g, faults, stmts).g == ExecAll(g, Concat(stmts))
    decreases |stmts|
  {
    n := 0;
    if stmts != [] {
      var first := PlayOne(g, faults, stmts[0]);
      if first.ok {
        var rest := PlayIsPrefix(first.g, first.faults, stmts[1..]);
        n := rest + 1;
        assert stmts[..n][1..] == stmts[1..][..rest];
        ExecAllAppend(g, stmts[0], Concat(stmts[1..][..rest]));
        ExecAllAppend(g, stmts[0], Concat(stmts[1..]));
      } else if !faults[0].LostBefore? {
        n := 1;
        assert stmts[..1] == [stmts[0]];
        ConcatSingle(stmts[0]);
      }
    }
  }

  lemma PlayOk(g: G, faults: seq<Fault>, stmts: seq<seq<Write>>)
    requires Play(g, faults, stmts).ok
    ensures Play(g, faults, stmts).g == ExecAll(g, Concat(stmts))
  {
    var _ := PlayIsPrefix(g, faults, stmts);
  }

  lemma FinesNext(faults: seq<Fault>, count: nat)
    requires faults != [] && count > 0
    ensures (forall i :: 0 <= i < count && i < |faults| ==> faults[i].Fine?) <==>
              faults[0].Fine? && forall i :: 0 <= i < count - 1 && i < |faults[1..]| ==> faults[1..][i].Fine?
  {
    if forall i :: 0 <= i < count && i < |faults| ==> faults[i].Fine? {
      forall i | 0 <= i < count - 1 && i < |faults[1..]| ensures faults[1..][i].Fine? {
        assert faults[1..][i] == faults[i + 1];
      }
    }
    if faults[0].Fine? && forall i :: 0 <= i < count - 1 && i < |faults[1..]| ==> faults[1..][i].Fine? {
      forall i | 0 <= i < count && i < |faults| ensures faults[i].Fine? {
        if i > 0 { assert faults[1..][i - 1] == faults[i]; }
      }
    }
  }

  /** Whether a run raises depends on the fates only: it does exactly when one of its own queries does. */
  lemma {:induction false} RaisesExactly(g: G, faults: seq<Fault>, stmts: seq<seq<Write>>)
    ensures Play(g, faults, stmts).ok <==> forall i :: 0 <= i < |stmts| && i < |faults| ==> faults[i].Fine?
    ensures Play(g, faults, stmts).ok ==> Play(g, faults, stmts).faults == faults[Min(|stmts|, |faults|)..]
    decreases |stmts|
  {
    hide ExecAll;
    if stmts != [] {
      var first := PlayOne(g, faults, stmts[0]);
      if faults != [] { FinesNext(faults, |stmts|); }
      if first.ok { RaisesExactly(first.g, first.faults, stmts[1..]); }
    }
  }

  lemma PlayFine(g: G, faults: seq<Fault>, stmts: seq<seq<Write>>)
    requires AllFine(faults)
    ensures Play(g, faults, stmts).ok && AllFine(Play(g, faults, stmts).faults)
  {
    RaisesExactly(g, faults, stmts);
  }

  method RunAll(client: Client, stmts: seq<seq<Write>>) returns (ok: bool)
    modifies client
    ensures Outcome(client.g, client.faults, ok) == Play(old(client.g), old(client.faults), stmts)
  {
    ok := true;
    var i := 0;
    assert stmts[0..] == stmts;
    while i < |stmts|
      invariant 0 <= i <= |stmts| && ok
      invariant Play(client.g, client.faults, stmts[i..]) == Play(old(client.g), old(client.faults), stmts)
    {
      assert stmts[i..][0] == stmts[i] && stmts[i..][1..] == stmts[i + 1..];
      ok := client.Run(stmts[i]);
      if !ok {
        return;
      }
      i := i + 1;
    }
    assert stmts[i..] == [];
  }

  // ---- Statement shapes ------------------------------------------------------

  /** One query per row. */
  function Singles(ws: seq<Write>): seq<seq<Write>> { seq(|ws|, i requires 0 <= i < |ws| => [ws[i]]) }

  const BULK_BATCH_SIZE := 250

  /** UNWIND batches of at most `BULK_BATCH_SIZE` rows. */
  function Chunks<T>(rows: seq<T>): seq<seq<T>>
    decreases |rows|
  {
    if rows == [] then []
    else if |rows| <= BULK_BATCH_SIZE then [rows]
    else [rows[..BULK_BATCH_SIZE]] + Chunks(rows[BULK_BATCH_SIZE..])
  }

  lemma {:induction false} ConcatSingles(ws: seq<Write>)
    ensures Concat(Singles(ws)) == ws
    decreases |ws|
  {
    if ws != [] {
      assert Singles(ws)[1..] == Singles(ws[1..]);
      ConcatSingles(ws[1..]);
    }
  }

  /** The bulk writers lose, repeat and reorder nothing: their batches, joined, are the rows,
      and no batch is empty or above the limit. */
  lemma {:induction false} ChunksCover<T>(rows: seq<T>)
    ensures Concat(Chunks(rows)) == rows
    ensures forall c :: c in Chunks(rows) ==> 0 < |c| <= 250
    decreases |rows|
  {
    if rows == [] {
    } else if |rows| <= BULK_BATCH_SIZE {
      ConcatSingle(rows);
    } else {
      ChunksCover(rows[BULK_BATCH_SIZE..]);
    }
  }
}
