/** Energy roles: the user's and the inferred statements about a power entity, over any run of operations. */
module EnergyRoles {
  import opened Graph
  import opened Registry
  import opened Semantics
  import opened Rebuild

  // ---- Resolving a power entity --------------------------------------------------------

  datatype Reason = InvalidRole | NotFound | Ambiguous | NotPower | NoLongerExists
  datatype Resolution = Found(entity: string) | Rejected(reason: Reason)

  function NameOf(p: Props): string { if PName in p && p[PName].Text? then p[PName].text else "" }
  predicate IsPower(p: Props) { MeasurementKind in p && p[MeasurementKind] == Text("power") }

  predicate Matches(g: G, lower: string -> string, identifier: string, e: string) {
    EntityKey(e) in g.nodes && (e == identifier || lower(NameOf(g.nodes[EntityKey(e)])) == lower(identifier))
  }

  /** What a caller's identifier stands for: the entity with that id, else the only one with that name. */
  ghost predicate Means(g: G, lower: string -> string, identifier: string, e: string) {
    Matches(g, lower, identifier, e) && (e == identifier || forall x :: Matches(g, lower, identifier, x) ==> x == e)
  }

  // The rows of the resolving query: matches, without repetition, an exact id first, cut at three.
  ghost predicate ResolvingRows(g: G, lower: string -> string, identifier: string, rows: seq<string>) {
    (forall i, j :: 0 <= i < j < |rows| ==> rows[i] != rows[j]) && |rows| <= 3 &&
    (forall e :: e in rows ==> Matches(g, lower, identifier, e)) &&
    (|rows| < 3 ==> forall e :: Matches(g, lower, identifier, e) ==> e in rows) &&
    (EntityKey(identifier) in g.nodes ==> rows != [] && rows[0] == identifier)
  }

  lemma OneMeaning(g: G, lower: string -> string, identifier: string, e: string)
    requires Means(g, lower, identifier, e)
    ensures forall x :: Means(g, lower, identifier, x) <==> x == e
    ensures e == identifier || EntityKey(identifier) !in g.nodes
  {
    if EntityKey(identifier) in g.nodes { assert Matches(g, lower, identifier, identifier); }
  }

  /** `_resolve_power_entity`: found exactly when the identifier means one entity and that measures power. */
  method ResolvePowerEntity(g: G, lower: string -> string, identifier: string, rows: seq<string>)
    returns (r: Resolution)
    requires ResolvingRows(g, lower, identifier, rows)
    ensures r.Found? ==> Means(g, lower, identifier, r.entity) && IsPower(g.nodes[EntityKey(r.entity)])
    ensures r == Rejected(NotFound) <==> forall e :: !Matches(g, lower, identifier, e)
    ensures r == Rejected(NotPower) <==> exists e :: Means(g, lower, identifier, e) && !IsPower(g.nodes[EntityKey(e)])
    ensures r == Rejected(Ambiguous) <==>
              EntityKey(identifier) !in g.nodes &&
              exists a, b :: a != b && Matches(g, lower, identifier, a) && Matches(g, lower, identifier, b)
    ensures r in {Rejected(NotFound), Rejected(NotPower), Rejected(Ambiguous)} || r.Found?
  {
    var exact: seq<string> := [];
    var i := 0;
    while i < |rows|
      invariant 0 <= i <= |rows| && exact == if identifier in rows[..i] then [identifier] else []
    {
      assert rows[..i + 1] == rows[..i] + [rows[i]];
      if rows[i] == identifier {
        assert identifier !in rows[..i];
        exact := exact + [rows[i]];
      }
      i := i + 1;
    }
    assert rows[..i] == rows;
    var candidates := if exact != [] then exact else rows;
    if candidates == [] {
      return Rejected(NotFound);
    }
    var e := candidates[0];
    assert Matches(g, lower, identifier, e);
    if |candidates| > 1 {
      assert candidates[0] != candidates[1] && Matches(g, lower, identifier, candidates[1]);
      return Rejected(Ambiguous);
    }
    assert Means(g, lower, identifier, e) by {
      if e != identifier {
        forall x | Matches(g, lower, identifier, x) ensures x == e { assert x in rows; }
      }
    }
    OneMeaning(g, lower, identifier, e);
    return if IsPower(g.nodes[EntityKey(e)]) then Found(e) else Rejected(NotPower);
  }

  /** An entity that has been written is meant by its identifier and by the name it goes by, in any case of letters:
      the registry's, else its state's, else the identifier itself; and it measures power exactly when its state is
      of the device class power. */
  lemma WrittenEntityResolves(h: Hass, e: string, context: Option<Context>, before: Props, g: G,
                              lower: string -> string, identifier: string)
    requires EntityKey(e) in g.nodes && EntityStored(h, e, context, before, g.nodes[EntityKey(e)])
    ensures var state := if context.Some? then Some(context.value.state)
                         else if e in h.states.items then Some(h.states.items[e]) else None;
            var given := if e in h.entries.items && h.entries.items[e].name.Some?
                         then h.entries.items[e].name.value else "";
            var shown := if state.Some? then state.value.name else "";
            var name := if given != "" then given else if shown != "" then shown else e;
            (Matches(g, lower, identifier, e) <==> e == identifier || lower(name) == lower(identifier)) &&
            (IsPower(g.nodes[EntityKey(e)]) <==> state.Some? && state.value.deviceClass == Some("power"))
  {
    WrittenKind(h, e, context, g.nodes[EntityKey(e)]);
    hide MeasurementRight, RegistryStored, StateRight, OthersKept;
  }

  lemma WrittenKind(h: Hass, e: string, context: Option<Context>, p: Props)
    requires MeasurementRight(h, e, context, p)
    ensures var state := if context.Some? then Some(context.value.state)
                         else if e in h.states.items then Some(h.states.items[e]) else None;
            IsPower(p) <==> state.Some? && state.value.deviceClass == Some("power")
  {
    assert MeasurementKind in MEASUREMENT_PROPS;
  }

  // ---- The operations --------------------------------------------------------------------

  // `resolved` is what `ResolvePowerEntity` answered for the caller's identifier.
  datatype Op =
    | SetRole(resolved: Resolution, role: string)
    | DeleteRole(resolved: Resolution)
    | ReconcileOne(entity: string, inferred: Option<string>)
    | RemoveEntity(entity: string)
    | WriteEntity(entity: string, props: Props, measurement: Props)
    | Repair

  function WriteOf(op: Op): Option<Write> {
    match op
    case SetRole(resolved, role) =>
      if role in ENERGY_ROLES && resolved.Found? then Some(UpsertRole(User, resolved.entity, role)) else None
    case DeleteRole(resolved) => if resolved.Found? then Some(DropRole(User, resolved.entity)) else None
    case ReconcileOne(e, inferred) =>
      Some(if inferred.Some? then UpsertRole(Inferred, e, inferred.value) else DropRole(Inferred, e))
    case RemoveEntity(e) => Some(DeleteOwned(EntityKey(e)))
    case WriteEntity(e, props, m) => Some(MergeEntity(e, props, m))
    case Repair => Some(RepairBindings)
  }

  function Step(g: G, op: Op): G { if WriteOf(op).Some? then Exec(g, WriteOf(op).value) else g }

  function Run(g: G, ops: seq<Op>): G
    decreases |ops|
  {
    if ops == [] then g else Run(Step(g, ops[0]), ops[1..])
  }

  // What an operation says about roles; setting one without an entity node says nothing.
  datatype Statement =
    | Assigned(source: Source, entity: string, role: string)
    | Withdrawn(source: Source, entity: string)

  function Says(g: G, op: Op): Option<Statement> {
    match WriteOf(op)
    case Some(UpsertRole(source, e, role)) => if EntityKey(e) in g.nodes then Some(Assigned(source, e, role)) else None
    case Some(DropRole(source, e)) => Some(Withdrawn(source, e))
    case _ => None
  }

  function Said(g: G, ops: seq<Op>): seq<Statement>
    decreases |ops|
  {
    if ops == [] then []
    else (if Says(g, ops[0]).Some? then [Says(g, ops[0]).value] else []) + Said(Step(g, ops[0]), ops[1..])
  }

  predicate About(s: Statement, source: Source, e: string) { s.source == source && s.entity == e }

  ghost predicate Unsaid(said: seq<Statement>, source: Source, e: string) {
    forall s :: s in said ==> !About(s, source, e)
  }

  /** `role` is what was last said of (source, e). */
  ghost predicate LastSaid(said: seq<Statement>, source: Source, e: string, role: string) {
    exists i :: LastAt(said, i, source, e, role)
  }

  // Statement i says it, and nothing after it is about (source, e).
  ghost predicate LastAt(said: seq<Statement>, i: nat, source: Source, e: string, role: string) {
    i < |said| && said[i] == Assigned(source, e, role) && Unsaid(said[i + 1..], source, e)
  }

  // ---- Invariants of every run ---------------------------------------------------------------

  ghost predicate OwnBindings(g: G) {
    forall r: RelKey :: r in g.rels && IsBinding(r) ==> r.from.id.RoleOf? && r.to == EntityKey(r.from.id.entity)
  }

  ghost predicate Inv(g: G) { Closed(g) && RolesOk(g) && OwnBindings(g) }

  predicate RoleOp(w: Write) {
    w.UpsertRole? || w.DropRole? || w.RepairBindings? || w.MergeEntity? || (w.DeleteOwned? && w.node.lbl == Entity)
  }

  // The value of (source, e)'s role after one write.
  function Becomes(g: G, w: Write, source: Source, e: string): Option<Value> {
    if w.UpsertRole? && w.source == source && w.entity == e && EntityKey(e) in g.nodes then Some(Text(w.role))
    else if w.DropRole? && w.source == source && w.entity == e then None
    else RoleAt(g, source, e)
  }

  lemma UpsertStep(g: G, source: Source, e: string, role: string)
    requires Inv(g)
    ensures var w := UpsertRole(source, e, role);
            Inv(Exec(g, w)) && forall s, x :: RoleAt(Exec(g, w), s, x) == Becomes(g, w, s, x)
  {
    hide Exec, Closed, RoleNodeOk;
    var w := UpsertRole(source, e, role);
    var after, a := Exec(g, w), RoleKey(source, e);
    ExecClosed(g, w);
    UpsertIs(g, source, e, role);
    UpsertedNode(NodeOr(g, a), source, e, role);
    forall s, x ensures RoleAt(after, s, x) == Becomes(g, w, s, x) {
      assert RoleKey(s, x) == a <==> s == source && x == e;
    }
  }

  lemma DropStep(g: G, source: Source, e: string)
    requires Inv(g)
    ensures var w := DropRole(source, e);
            Inv(Exec(g, w)) && forall s, x :: RoleAt(Exec(g, w), s, x) == Becomes(g, w, s, x)
  {
    var w := DropRole(source, e);
    var after, a := Exec(g, w), RoleKey(source, e);
    ExecClosed(g, w);
    if a in g.nodes { assert RoleNodeOk(a, g.nodes[a]); }
    forall s, x ensures RoleAt(after, s, x) == Becomes(g, w, s, x) {
      assert RoleKey(s, x) == a <==> s == source && x == e;
    }
  }

  lemma OtherStep(g: G, w: Write)
    requires Inv(g) && RoleOp(w) && !w.UpsertRole? && !w.DropRole?
    ensures Inv(Exec(g, w)) && forall s, x :: RoleAt(Exec(g, w), s, x) == Becomes(g, w, s, x)
  {
    ExecClosed(g, w);
    if w.RepairBindings? {
      var after := Exec(g, w);
      forall r: RelKey | r in after.rels && IsBinding(r)
        ensures r.from.id.RoleOf? && r.to == EntityKey(r.from.id.entity)
      {
        assert r in Bindings(g);
        assert RoleNodeOk(r.from, g.nodes[r.from]);
      }
    }
  }

  lemma StepKeeps(g: G, op: Op)
    requires Inv(g)
    ensures Inv(Step(g, op))
    ensures forall s, x :: RoleAt(Step(g, op), s, x) ==
              match Says(g, op)
              case Some(Assigned(source, e, role)) =>
                (if source == s && e == x then Some(Text(role)) else RoleAt(g, s, x))
              case Some(Withdrawn(source, e)) => (if source == s && e == x then None else RoleAt(g, s, x))
              case None => RoleAt(g, s, x)
  {
    hide Exec, Inv, RoleAt;
    if WriteOf(op).Some? {
      var w := WriteOf(op).value;
      if w.UpsertRole? {
        UpsertStep(g, w.source, w.entity, w.role);
      } else if w.DropRole? {
        DropStep(g, w.source, w.entity);
      } else {
        OtherStep(g, w);
      }
    }
  }

  /** What one operation does to the role that `source` states of `e`: the user's is set, for one of the five roles and
      an entity that is there, or deleted; the inferred one follows the last reconcile; nothing else changes it. */
  lemma OperationChanges(g: G, op: Op, source: Source, e: string)
    requires Inv(g)
    ensures var after := RoleAt(Step(g, op), source, e);
            match op
            case SetRole(Found(x), role) =>
              after == if RoleNamed(role) && EntityKey(x) in g.nodes && source == User && x == e
                       then Some(Text(role)) else RoleAt(g, source, e)
            case DeleteRole(Found(x)) => after == if source == User && x == e then None else RoleAt(g, source, e)
            case ReconcileOne(x, Some(role)) =>
              after == if EntityKey(x) in g.nodes && source == Inferred && x == e then Some(Text(role))
                       else RoleAt(g, source, e)
            case ReconcileOne(x, None) => after == if source == Inferred && x == e then None else RoleAt(g, source, e)
            case _ => after == RoleAt(g, source, e)
  {
    StepKeeps(g, op);
    SaysIs(g, op);
    hide Step, RoleAt, Inv, Says, RoleNamed;
  }

  predicate RoleNamed(role: string) {
    role == "consumer" || role == "producer" || role == "storage" || role == "grid_import" || role == "grid_export"
  }

  lemma SaysIs(g: G, op: Op)
    ensures Says(g, op) ==
            match op
            case SetRole(Found(x), role) =>
              (if RoleNamed(role) && EntityKey(x) in g.nodes then Some(Assigned(User, x, role)) else None)
            case DeleteRole(Found(x)) => Some(Withdrawn(User, x))
            case ReconcileOne(x, Some(role)) =>
              (if EntityKey(x) in g.nodes then Some(Assigned(Inferred, x, role)) else None)
            case ReconcileOne(x, None) => Some(Withdrawn(Inferred, x))
            case _ => None
  {
    if op.SetRole? { assert op.role in ENERGY_ROLES <==> RoleNamed(op.role); }
  }

  /** ... and to the entities there are, and to bindings. */
  lemma OperationKeeps(g: G, op: Op, e: string)
    requires Inv(g)
    ensures var after := Step(g, op);
            (EntityKey(e) in after.nodes <==>
               (EntityKey(e) in g.nodes && !(op == RemoveEntity(e) && Owned(g.nodes[EntityKey(e)]))) ||
               (op.WriteEntity? && op.entity == e)) &&
            (op.Repair? ==> BindingsExact(after))
  {
    if op.Repair? {
      RepairBinds(g);
      RepairKeepsNodes(g);
    }
    hide BindingsExact, RoleNodeOk, Closed, Bindings, Plus, Measured;
  }

  /** Over any run of sets, deletes, reconciles, removals, writes and repairs, from any graph in order:
      the stored role of (source, e) is the one last assigned and not withdrawn since, or the initial one
      if nothing was said. */
  lemma {:induction false} RunKeeps(g: G, ops: seq<Op>, source: Source, e: string, role: string)
    requires Inv(g)
    ensures Inv(Run(g, ops))
    ensures RoleAt(Run(g, ops), source, e) == Some(Text(role)) <==>
              LastSaid(Said(g, ops), source, e, role) ||
              (Unsaid(Said(g, ops), source, e) && RoleAt(g, source, e) == Some(Text(role)))
    decreases |ops|
  {
    hide RoleAt, Inv, Step, Says;
    if ops != [] {
      StepKeeps(g, ops[0]);
      var g1 := Step(g, ops[0]);
      RunKeeps(g1, ops[1..], source, e, role);
      var rest := Said(g1, ops[1..]);
      if Says(g, ops[0]).Some? {
        LastSaidNext(Says(g, ops[0]).value, rest, source, e, role);
      } else {
        assert Said(g, ops) == rest;
      }
    }
  }

  /** Over any run there is at most one assignment per source and entity, and none is bound to an entity
      other than its own. */
  lemma OneAssignmentEach(g: G, ops: seq<Op>, a: NodeKey, b: NodeKey)
    requires Inv(g)
    requires var f := Run(g, ops);
             a in f.nodes && b in f.nodes && a.lbl == RoleAssignment && b.lbl == RoleAssignment &&
             SourceOf(f.nodes[a]) == SourceOf(f.nodes[b]) &&
             PMeasurementEntity in f.nodes[a] && PMeasurementEntity in f.nodes[b] &&
             f.nodes[a][PMeasurementEntity] == f.nodes[b][PMeasurementEntity]
    ensures a == b
    ensures forall r :: r in Run(g, ops).rels && r.kind == AssignsRoleTo && r.from == a ==>
              r.to.lbl == Entity && r.to.id.Plain? && Run(g, ops).nodes[a][PMeasurementEntity] == Text(r.to.id.text)
  {
    hide Run;
    var f := Run(g, ops);
    RunKeeps(g, ops, User, "", "");
    assert RoleNodeOk(a, f.nodes[a]) && RoleNodeOk(b, f.nodes[b]);
    forall r | r in f.rels && r.kind == AssignsRoleTo && r.from == a
      ensures r.to.lbl == Entity && r.to.id.Plain? && f.nodes[a][PMeasurementEntity] == Text(r.to.id.text)
    {
      assert IsBinding(r);
    }
  }

  lemma LastAtShift(s: Statement, rest: seq<Statement>, i: nat, source: Source, e: string, role: string)
    ensures LastAt([s] + rest, i + 1, source, e, role) <==> LastAt(rest, i, source, e, role)
  {
    hide Unsaid;
    if i < |rest| { assert ([s] + rest)[i + 2..] == rest[i + 1..]; }
  }

  lemma LastAtFirst(s: Statement, rest: seq<Statement>, source: Source, e: string, role: string)
    ensures LastAt([s] + rest, 0, source, e, role) <==> s == Assigned(source, e, role) && Unsaid(rest, source, e)
  {
    hide Unsaid;
    assert ([s] + rest)[1..] == rest;
  }

  lemma LastSaidNext(s: Statement, rest: seq<Statement>, source: Source, e: string, role: string)
    ensures LastSaid([s] + rest, source, e, role) <==>
              LastSaid(rest, source, e, role) || (Unsaid(rest, source, e) && s == Assigned(source, e, role))
    ensures Unsaid([s] + rest, source, e) <==> !About(s, source, e) && Unsaid(rest, source, e)
  {
    assert Unsaid([s] + rest, source, e) <==> !About(s, source, e) && Unsaid(rest, source, e);
    hide Unsaid, LastAt;
    LastAtFirst(s, rest, source, e, role);
    if LastSaid([s] + rest, source, e, role) {
      var i: nat :| LastAt([s] + rest, i, source, e, role);
      if i > 0 { LastAtShift(s, rest, i - 1, source, e, role); }
    }
    if LastSaid(rest, source, e, role) {
      var i: nat :| LastAt(rest, i, source, e, role);
      LastAtShift(s, rest, i, source, e, role);
    }
  }

  // ---- The effective role ------------------------------------------------------------------------

  /** Roles of the assignments of one source bound to an entity, as the power-consumer query reads them. */
  function BoundRoles(g: G, source: Source, e: string): set<Value> {
    set r | r in g.rels && IsBinding(r) && r.to == EntityKey(e) && r.from in g.nodes &&
            SourceOf(g.nodes[r.from]) == source && PRole in g.nodes[r.from]
      :: g.nodes[r.from][PRole]
  }

  /** The user's statement wins over the inferred one. */
  function EffectiveRoles(g: G, e: string): set<Value> {
    if BoundRoles(g, User, e) != {} then BoundRoles(g, User, e) else BoundRoles(g, Inferred, e)
  }

  lemma BoundAfterRepair(g: G, source: Source, e: string)
    requires Inv(g) && EntityKey(e) in g.nodes
    ensures BoundRoles(Exec(g, RepairBindings), source, e) ==
            if RoleAt(g, source, e).Some? then {RoleAt(g, source, e).value} else {}
  {
    hide Exec, Closed, OwnBindings;
    var after, a := Exec(g, RepairBindings), RoleKey(source, e);
    RepairBinds(g);
    RepairKeepsNodes(g);
    forall r: RelKey | r in after.rels && IsBinding(r) && r.to == EntityKey(e) &&
                       r.from in g.nodes && SourceOf(g.nodes[r.from]) == source
      ensures r.from == a
    {
      assert RoleNodeOk(r.from, g.nodes[r.from]);
    }
    if a in g.nodes {
      assert RoleNodeOk(a, g.nodes[a]);
      assert IsBinding(Binding(a, e)) && Binding(a, e) in after.rels;
      BoundHas(after, source, e);
    }
  }

  lemma BoundHas(g: G, source: Source, e: string)
    requires Binding(RoleKey(source, e), e) in g.rels && RoleKey(source, e) in g.nodes
    requires SourceOf(g.nodes[RoleKey(source, e)]) == source
    ensures RoleAt(g, source, e).Some? ==> RoleAt(g, source, e).value in BoundRoles(g, source, e)
  {
    var r := Binding(RoleKey(source, e), e);
    assert IsBinding(r) && r.to == EntityKey(e);
  }

  /** What (source, e)'s role is after the run: last said, or never mentioned and there from the start. */
  ghost predicate Stands(g: G, said: seq<Statement>, source: Source, e: string, role: string) {
    LastSaid(said, source, e, role) || (Unsaid(said, source, e) && RoleAt(g, source, e) == Some(Text(role)))
  }

  ghost predicate TextRoles(g: G) {
    forall source, e :: RoleAt(g, source, e).Some? ==> RoleAt(g, source, e).value.Text?
  }

  /** After any run ending in a repair, an entity that has a node has as its effective role the user role
      last assigned and not withdrawn since, else the role its last reconcile left, else none. */
  lemma EffectiveRoleOverRuns(g: G, ops: seq<Op>, e: string)
    requires Inv(g) && TextRoles(g) && EntityKey(e) in Run(g, ops).nodes
    ensures var said, after := Said(g, ops), Step(Run(g, ops), Repair);
            (forall role :: Stands(g, said, User, e, role) ==> EffectiveRoles(after, e) == {Text(role)}) &&
            ((forall role :: !Stands(g, said, User, e, role)) ==>
               (forall role :: Stands(g, said, Inferred, e, role) ==> EffectiveRoles(after, e) == {Text(role)}) &&
               ((forall role :: !Stands(g, said, Inferred, e, role)) ==> EffectiveRoles(after, e) == {}))
  {
    hide Exec, BoundRoles, RoleAt, LastSaid, Unsaid, Inv, Said;
    var f := Run(g, ops);
    RunKeeps(g, ops, User, e, "");
    BoundAfterRepair(f, User, e);
    BoundAfterRepair(f, Inferred, e);
    forall source, role ensures RoleAt(f, source, e) == Some(Text(role)) <==> Stands(g, Said(g, ops), source, e, role) {
      RunKeeps(g, ops, source, e, role);
    }
    RolesAreText(g, ops, User, e);
    RolesAreText(g, ops, Inferred, e);
  }

  lemma {:induction false} RolesAreText(g: G, ops: seq<Op>, source: Source, e: string)
    requires Inv(g) && (RoleAt(g, source, e).Some? ==> RoleAt(g, source, e).value.Text?)
    ensures RoleAt(Run(g, ops), source, e).Some? ==> RoleAt(Run(g, ops), source, e).value.Text?
    decreases |ops|
  {
    hide RoleAt, Inv, Step, Says;
    if ops != [] {
      StepKeeps(g, ops[0]);
      RolesAreText(Step(g, ops[0]), ops[1..], source, e);
    }
  }

  // ---- The user-facing operations ------------------------------------------------------------------

  /** The identifier stands for this entity, and it measures power. */
  ghost predicate Resolves(g: G, lower: string -> string, identifier: string, e: string) {
    Means(g, lower, identifier, e) && IsPower(g.nodes[EntityKey(e)])
  }

  lemma RejectedUnresolved(g: G, lower: string -> string, identifier: string, reason: Reason)
    requires match reason
             case NotFound => forall e :: !Matches(g, lower, identifier, e)
             case NotPower => exists e :: Means(g, lower, identifier, e) && !IsPower(g.nodes[EntityKey(e)])
             case Ambiguous =>
               EntityKey(identifier) !in g.nodes &&
               exists a, b :: a != b && Matches(g, lower, identifier, a) && Matches(g, lower, identifier, b)
             case _ => false
    ensures forall e :: !Resolves(g, lower, identifier, e)
  {
    if reason.NotPower? {
      var e :| Means(g, lower, identifier, e) && !IsPower(g.nodes[EntityKey(e)]);
      OneMeaning(g, lower, identifier, e);
    }
  }

  datatype SetResult = Accepted(entity: string, role: string) | SetRejected(reason: Reason) | SetFailed

  // The writing query, and what its rows say.
  method Assign(client: Client, e: string, role: string) returns (r: SetResult)
    modifies client
    ensures var written := PlayOne(old(client.g), old(client.faults), [UpsertRole(User, e, role)]);
            client.g == written.g &&
            r == if !written.ok then SetFailed
                 else if EntityKey(e) in old(client.g).nodes then Accepted(e, role) else SetRejected(NoLongerExists)
    ensures r.Accepted? ==> RoleAt(client.g, User, e) == Some(Text(role))
    ensures r.SetRejected? ==> client.g == old(client.g)
  {
    var there := EntityKey(e) in client.g.nodes;
    ExecPair(client.g, UpsertRole(User, e, role), RepairBindings);
    UpsertIs(client.g, User, e, role);
    UpsertedNode(NodeOr(client.g, RoleKey(User, e)), User, e, role);
    hide Exec;
    var ok := client.Run([UpsertRole(User, e, role)]);
    if !ok { return SetFailed; }
    return if there then Accepted(e, role) else SetRejected(NoLongerExists);
  }

  /** `async_set_energy_role`: one query resolves the identifier, another writes. `meanwhile` is what other
      writers commit between the two. */
  method SetEnergyRole(client: Client, lower: string -> string, identifier: string, role: string, rows: seq<string>,
                       meanwhile: seq<Write>)
    returns (r: SetResult)
    requires ResolvingRows(client.g, lower, identifier, rows)
    modifies client
    ensures r == SetRejected(InvalidRole) <==> role !in ENERGY_ROLES
    ensures var read := PlayOne(old(client.g), old(client.faults), []);
            role in ENERGY_ROLES ==>
              (!read.ok ==> r.SetFailed? && client.g == old(client.g)) &&
              (read.ok && (forall e :: !Resolves(old(client.g), lower, identifier, e)) ==>
                 r.SetRejected? && r.reason in {NotFound, Ambiguous, NotPower}) &&
              forall e :: read.ok && Resolves(old(client.g), lower, identifier, e) ==>
                var found := ExecAll(old(client.g), meanwhile);
                var written := PlayOne(found, read.faults, [UpsertRole(User, e, role)]);
                client.g == written.g &&
                r == if !written.ok then SetFailed
                     else if EntityKey(e) in found.nodes then Accepted(e, role) else SetRejected(NoLongerExists)
    ensures r.Accepted? ==>
              Resolves(old(client.g), lower, identifier, r.entity) &&
              RoleAt(client.g, User, r.entity) == Some(Text(role))
    ensures r.SetRejected? ==>
              client.g == if r.reason.NoLongerExists? then ExecAll(old(client.g), meanwhile) else old(client.g)
  {
    hide ResolvingRows, Means, Matches, IsPower, Exec, RoleAt;
    if role !in ENERGY_ROLES { return SetRejected(InvalidRole); }
    var ok := client.Run([]);
    if !ok { return SetFailed; }
    var resolved := ResolvePowerEntity(client.g, lower, identifier, rows);
    if resolved.Rejected? {
      RejectedUnresolved(client.g, lower, identifier, resolved.reason);
      return SetRejected(resolved.reason);
    }
    var e := resolved.entity;
    OneMeaning(client.g, lower, identifier, e);
    assert Resolves(old(client.g), lower, identifier, e);
    client.g := ExecAll(client.g, meanwhile);
    r := Assign(client, e, role);
  }

  datatype DeleteResult =
    | Deleted(entity: string, fallback: Option<Value>) | NothingToDelete(entity: string)
    | DeleteRejected(reason: Reason) | DeleteFailed

  // The deleting query, and what its rows say.
  method Withdraw(client: Client, e: string) returns (r: DeleteResult)
    requires Inv(client.g)
    modifies client
    ensures var written := PlayOne(old(client.g), old(client.faults), [DropRole(User, e)]);
            client.g == written.g &&
            r == if !written.ok then DeleteFailed
                 else if RoleKey(User, e) in old(client.g).nodes then Deleted(e, RoleAt(old(client.g), Inferred, e))
                 else NothingToDelete(e)
    ensures r.Deleted? || r.NothingToDelete? ==>
              RoleAt(client.g, User, e) == None && RoleAt(client.g, Inferred, e) == RoleAt(old(client.g), Inferred, e)
    ensures r.NothingToDelete? ==> client.g == old(client.g)
  {
    var a := RoleKey(User, e);
    var present := a in client.g.nodes && SourceOf(client.g.nodes[a]) == User;
    assert a in client.g.nodes ==> RoleNodeOk(a, client.g.nodes[a]);
    var fallback := RoleAt(client.g, Inferred, e);
    ExecPair(client.g, DropRole(User, e), RepairBindings);
    DropStep(client.g, User, e);
    var ok := client.Run([DropRole(User, e)]);
    if !ok { return DeleteFailed; }
    return if present then Deleted(e, fallback) else NothingToDelete(e);
  }

  /** `async_delete_user_energy_role`: deletes the user's statement only and reports the inferred fallback. */
  method DeleteUserEnergyRole(client: Client, lower: string -> string, identifier: string, rows: seq<string>,
                              meanwhile: seq<Write>)
    returns (r: DeleteResult)
    requires ResolvingRows(client.g, lower, identifier, rows) && Inv(ExecAll(client.g, meanwhile))
    modifies client
    ensures var read := PlayOne(old(client.g), old(client.faults), []);
            (!read.ok ==> r.DeleteFailed? && client.g == old(client.g)) &&
            (read.ok && (forall e :: !Resolves(old(client.g), lower, identifier, e)) ==> r.DeleteRejected?) &&
            forall e :: read.ok && Resolves(old(client.g), lower, identifier, e) ==>
              var found := ExecAll(old(client.g), meanwhile);
              var written := PlayOne(found, read.faults, [DropRole(User, e)]);
              client.g == written.g &&
              r == if !written.ok then DeleteFailed
                   else if RoleKey(User, e) in found.nodes then Deleted(e, RoleAt(found, Inferred, e))
                   else NothingToDelete(e)
    ensures r.Deleted? || r.NothingToDelete? ==>
              Resolves(old(client.g), lower, identifier, r.entity) && RoleAt(client.g, User, r.entity) == None &&
              RoleAt(client.g, Inferred, r.entity) == RoleAt(ExecAll(old(client.g), meanwhile), Inferred, r.entity)
    ensures r.NothingToDelete? ==> client.g == ExecAll(old(client.g), meanwhile)
    ensures r.DeleteRejected? ==> client.g == old(client.g)
  {
    hide ResolvingRows, Means, Matches, IsPower, Exec, RoleAt, Inv;
    var ok := client.Run([]);
    if !ok { return DeleteFailed; }
    var resolved := ResolvePowerEntity(client.g, lower, identifier, rows);
    if resolved.Rejected? {
      RejectedUnresolved(client.g, lower, identifier, resolved.reason);
      return DeleteRejected(resolved.reason);
    }
    var e := resolved.entity;
    OneMeaning(client.g, lower, identifier, e);
    assert Resolves(old(client.g), lower, identifier, e);
    client.g := ExecAll(client.g, meanwhile);
    r := Withdraw(client, e);
  }
}
