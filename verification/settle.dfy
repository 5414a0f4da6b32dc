/** When replaying a list of merges on the graph they produced changes nothing. */
module Settle {
  import opened Graph
  import opened Registry
  import opened Semantics
  import opened Build

  predicate NodeWrite(w: Write) { w.MergeNode? || w.MergeEntity? || w.EnsureSchema? }
  predicate Merge(w: Write) { NodeWrite(w) || w.MergeRel? }

  function TargetOf(w: Write): NodeKey
    requires NodeWrite(w)
  {
    match w
    case MergeNode(k, _) => k
    case MergeEntity(e, _, _) => EntityKey(e)
    case _ => SCHEMA
  }

  predicate SameTarget(a: Write, b: Write) {
    (NodeWrite(a) && NodeWrite(b) && TargetOf(a) == TargetOf(b)) || (a.MergeRel? && b.MergeRel? && a.rel == b.rel)
  }

  predicate EndOf(k: NodeKey, w: Write) { w.MergeRel? && (k == w.rel.from || k == w.rel.to) }

  predicate Done(g: G, w: Write) { Exec(g, w) == g }

  lemma DoneNode(g: G, w: Write)
    requires NodeWrite(w) && Done(g, w)
    ensures TargetOf(w) in g.nodes
  {
    if w.MergeNode? { assert w.node in Exec(g, w).nodes; }
    if w.MergeEntity? { assert EntityKey(w.entity) in Exec(g, w).nodes; }
  }

  lemma NowDone(g: G, w: Write)
    requires Merge(w)
    ensures Done(Exec(g, w), w)
  {
    RetrySafe(g, w);
  }

  /** A finished merge stays finished while other things are merged, unless it skipped a relationship
      whose missing end is created now. */
  lemma StaysDone(g: G, w: Write, v: Write)
    requires Merge(w) && Merge(v) && Done(g, w) && (SameTarget(w, v) ==> w == v)
    requires NodeWrite(v) && EndOf(TargetOf(v), w) ==> TargetOf(v) in g.nodes
    ensures Done(Exec(g, v), w)
  {
    if w == v {
      NowDone(g, v);
    } else if NodeWrite(w) {
      DoneNode(g, w);
      NodeStaysDone(g, w, v);
    } else {
      RelStaysDone(g, w, v);
    }
  }

  lemma NodeStaysDone(g: G, w: Write, v: Write)
    requires NodeWrite(w) && Merge(v) && Done(g, w) && TargetOf(w) in g.nodes && !SameTarget(w, v)
    ensures Done(Exec(g, v), w)
  {
    var k, h := TargetOf(w), Exec(g, v);
    assert k in h.nodes && h.nodes[k] == g.nodes[k];
    if !w.EnsureSchema? {
      assert Exec(g, w).nodes[k] == g.nodes[k];
      assert h.nodes[k := h.nodes[k]] == h.nodes;
    }
  }

  lemma RelStaysDone(g: G, w: Write, v: Write)
    requires w.MergeRel? && Merge(v) && Done(g, w) && !SameTarget(w, v)
    requires NodeWrite(v) && EndOf(TargetOf(v), w) ==> TargetOf(v) in g.nodes
    ensures Done(Exec(g, v), w)
  {
    var r, h := w.rel, Exec(g, v);
    if HasEnds(h, r) {
      assert HasEnds(g, r);
      assert r in Exec(g, w).rels;
      assert r in h.rels && h.rels[r] == g.rels[r] && Exec(g, w).rels[r] == g.rels[r];
      assert h.rels[r := h.rels[r]] == h.rels;
    }
  }

  // ---- Canonical merges ---------------------------------------------------------------

  function RelSource(kind: RelType): Source {
    if kind.ClassifiedAs? || kind.LocatedIn? || kind.Named? then Inferred else HomeAssistant
  }

  /** The merges of a build: what is written is a function of where it is written. */
  predicate Canonical(h: Hass, w: Write) {
    match w
    case MergeNode(k, props) => props == NodeProps(h, k) && k.lbl != Entity && k.lbl != Schema
    case MergeEntity(e, props, m) => props == BaseProps(h, e, None) && m == MeasurementProps(h, e, None)
    case MergeRel(r, props) => props == Sourced(RelSource(r.kind)) && r.kind != OverrideOf && r.kind != AssignsRoleTo
    case EnsureSchema(props) => props == SCHEMA_PROPS
    case _ => false
  }

  lemma CanonicalUnique(h: Hass, a: Write, b: Write)
    requires Canonical(h, a) && Canonical(h, b) && SameTarget(a, b)
    ensures a == b
  {
  }

  // Labels whose nodes may be created late in the build, next to the relationships that use them.
  predicate Late(lbl: Label) {
    lbl in {Domain, Integration, Automation, Scene, Script, SemanticType} || lbl.Typed?
  }

  ghost predicate Known(done: set<Write>, k: NodeKey) { exists w :: w in done && NodeWrite(w) && TargetOf(w) == k }

  ghost predicate EndsFit(done: set<Write>, open: set<Label>, k: NodeKey) {
    k.lbl !in open && (Late(k.lbl) ==> Known(done, k))
  }

  /** `w` may come next after `done`, while nodes with labels in `open` are still to be created: it
      creates a node of an open or late label, or links nodes whose labels are closed, late ones
      having been created already. */
  ghost predicate Admissible(h: Hass, done: set<Write>, open: set<Label>, w: Write) {
    Canonical(h, w) &&
    (NodeWrite(w) ==> TargetOf(w).lbl in open || Late(TargetOf(w).lbl) || w.EnsureSchema?) &&
    (w.MergeRel? ==> EndsFit(done, open, w.rel.from) && EndsFit(done, open, w.rel.to) &&
                     w.rel.from.lbl != Schema && w.rel.to.lbl != Schema)
  }

  ghost predicate Settled(h: Hass, g: G, done: set<Write>, open: set<Label>) {
    (forall w :: w in done ==> Canonical(h, w) && Done(g, w)) &&
    (forall w :: w in done && w.MergeRel? ==> EndsFit(done, open, w.rel.from) && EndsFit(done, open, w.rel.to) &&
                                              w.rel.from.lbl != Schema && w.rel.to.lbl != Schema)
  }

  lemma KnownMore(done: set<Write>, more: set<Write>, k: NodeKey)
    requires Known(done, k)
    ensures Known(done + more, k)
  {
    var w :| w in done && NodeWrite(w) && TargetOf(w) == k;
    assert w in done + more;
  }

  lemma EndsFitMore(done: set<Write>, more: set<Write>, open: set<Label>, k: NodeKey)
    requires EndsFit(done, open, k)
    ensures EndsFit(done + more, open, k)
  {
    if Late(k.lbl) { KnownMore(done, more, k); }
  }

  /** One admissible merge keeps everything settled. */
  lemma SettleOne(h: Hass, g: G, done: set<Write>, open: set<Label>, v: Write)
    requires Settled(h, g, done, open) && Admissible(h, done, open, v)
    ensures Settled(h, Exec(g, v), done + {v}, open)
  {
    var g1 := Exec(g, v);
    forall w | w in done ensures Done(g1, w) {
      if SameTarget(w, v) { CanonicalUnique(h, w, v); }
      if NodeWrite(v) && EndOf(TargetOf(v), w) {
        var u :| u in done && NodeWrite(u) && TargetOf(u) == TargetOf(v);
        DoneNode(g, u);
      }
      StaysDone(g, w, v);
    }
    NowDone(g, v);
    forall w | w in done + {v} && w.MergeRel?
      ensures EndsFit(done + {v}, open, w.rel.from) && EndsFit(done + {v}, open, w.rel.to)
    {
      EndsFitMore(done, {v}, open, w.rel.from);
      EndsFitMore(done, {v}, open, w.rel.to);
    }
  }

  ghost predicate AdmitSeq(h: Hass, done: set<Write>, open: set<Label>, ws: seq<Write>)
    decreases |ws|
  {
    ws == [] || (Admissible(h, done, open, ws[0]) && AdmitSeq(h, done + {ws[0]}, open, ws[1..]))
  }

  function SetOf(ws: seq<Write>): set<Write> { set w | w in ws }

  lemma {:induction false} SettleAll(h: Hass, g: G, done: set<Write>, open: set<Label>, ws: seq<Write>)
    requires Settled(h, g, done, open) && AdmitSeq(h, done, open, ws)
    ensures Settled(h, ExecAll(g, ws), done + SetOf(ws), open)
    decreases |ws|
  {
    if ws == [] {
      assert done + SetOf(ws) == done;
    } else {
      SettleOne(h, g, done, open, ws[0]);
      SettleAll(h, Exec(g, ws[0]), done + {ws[0]}, open, ws[1..]);
      assert done + SetOf(ws) == done + {ws[0]} + SetOf(ws[1..]);
    }
  }

  /** Rows that are admissible at once are admissible in a row. */
  lemma {:induction false} AdmitEach(h: Hass, done: set<Write>, open: set<Label>, ws: seq<Write>)
    requires forall w :: w in ws ==> Admissible(h, done, open, w)
    ensures AdmitSeq(h, done, open, ws)
    decreases |ws|
  {
    if ws != [] {
      forall w | w in ws[1..] ensures Admissible(h, done + {ws[0]}, open, w) {
        AdmissibleMore(h, done, {ws[0]}, open, w);
      }
      AdmitEach(h, done + {ws[0]}, open, ws[1..]);
    }
  }

  lemma AdmissibleMore(h: Hass, done: set<Write>, more: set<Write>, open: set<Label>, w: Write)
    requires Admissible(h, done, open, w)
    ensures Admissible(h, done + more, open, w)
  {
    if w.MergeRel? {
      EndsFitMore(done, more, open, w.rel.from);
      EndsFitMore(done, more, open, w.rel.to);
    }
  }

  lemma FirstOfSet(done: set<Write>, ws: seq<Write>)
    requires ws != []
    ensures done + SetOf(ws) == done + {ws[0]} + SetOf(ws[1..])
  {
  }

  lemma {:induction false} AdmitAppend(h: Hass, done: set<Write>, open: set<Label>, a: seq<Write>, b: seq<Write>)
    requires AdmitSeq(h, done, open, a) && AdmitSeq(h, done + SetOf(a), open, b)
    ensures AdmitSeq(h, done, open, a + b)
    decreases |a|
  {
    if a == [] {
      assert done + SetOf(a) == done && a + b == b;
    } else {
      hide Admissible, SetOf;
      FirstOfSet(done, a);
      assert AdmitSeq(h, done + {a[0]}, open, a[1..]);
      AdmitAppend(h, done + {a[0]}, open, a[1..], b);
      assert (a + b)[0] == a[0];
      assert (a + b)[1..] == a[1..] + b;
    }
  }

  /** Parts that are each admissible whatever was done before. */
  lemma {:induction false} AdmitFlat(h: Hass, done: set<Write>, open: set<Label>, ids: seq<string>,
                                     f: string -> seq<Write>)
    requires forall id, more :: id in ids ==> AdmitSeq(h, done + more, open, f(id))
    ensures AdmitSeq(h, done, open, FlatMap(ids, f))
    decreases |ids|
  {
    if ids != [] {
      var more0: set<Write> := {};
      assert done + more0 == done;
      assert AdmitSeq(h, done + more0, open, f(ids[0]));
      forall id, more: set<Write> | id in ids[1..] ensures AdmitSeq(h, done + SetOf(f(ids[0])) + more, open, f(id)) {
        assert done + SetOf(f(ids[0])) + more == done + (SetOf(f(ids[0])) + more);
      }
      AdmitFlat(h, done + SetOf(f(ids[0])), open, ids[1..], f);
      AdmitAppend(h, done, open, f(ids[0]), FlatMap(ids[1..], f));
    }
  }

  /** Closing labels: nothing in `done` is unsettled by it. */
  lemma Close(h: Hass, g: G, done: set<Write>, open: set<Label>, fewer: set<Label>)
    requires Settled(h, g, done, open) && fewer <= open
    ensures Settled(h, g, done, fewer)
  {
  }

  lemma {:induction false} SettledReplay(h: Hass, g: G, done: set<Write>, open: set<Label>, ws: seq<Write>)
    requires Settled(h, g, done, open) && SetOf(ws) <= done
    ensures ExecAll(g, ws) == g
    decreases |ws|
  {
    if ws != [] {
      assert ws[0] in SetOf(ws);
      assert SetOf(ws[1..]) <= SetOf(ws);
      SettledReplay(h, g, done, open, ws[1..]);
    }
  }
}
