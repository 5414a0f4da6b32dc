/** A live graph subscription: per-element coalescing with one timer handle per element, on an event
    loop whose cancelled handles never fire and whose other handles fire in any order. */
module Live {
  import opened Changes
  import opened Sequences

  datatype Message = Message(revision: nat, kind: Kind, nodeIds: seq<string>, relIds: seq<string>, props: set<string>)

  // `pending` and `timers` are the handler's dictionaries; `scheduled` is the loop's view: every
  // handle that was created, not cancelled and has not fired, with the element it flushes.
  datatype State = State(pending: map<string, Message>, timers: map<string, nat>, scheduled: map<nat, string>,
                         next: nat, sent: seq<Message>, open: bool)

  function PropSet(e: Event): set<string> { set p | p in e.props }
  function ElementIds(e: Event): seq<string> { e.nodeIds + e.relIds }

  function Opening(e: Event, id: string): Message {
    Message(e.revision, e.kind, if id in e.nodeIds then [id] else [], if id in e.relIds then [id] else [], PropSet(e))
  }

  function Joined(m: Message, e: Event): Message {
    m.(revision := if m.revision > e.revision then m.revision else e.revision, props := m.props + PropSet(e))
  }

  function Touch(s: State, e: Event, id: string): State {
    var known := id in s.pending;
    var left := if known && id in s.timers then s.scheduled - {s.timers[id]} else s.scheduled;
    s.(pending := s.pending[id := if known then Joined(s.pending[id], e) else Opening(e, id)],
       timers := s.timers[id := s.next], scheduled := left[s.next := id], next := s.next + 1)
  }

  function TouchAll(s: State, e: Event, ids: seq<string>): State
    decreases |ids|
  {
    if ids == [] then s else TouchAll(Touch(s, e, ids[0]), e, ids[1..])
  }

  function OnEvent(s: State, e: Event): State {
    if !s.open then s
    else if e.kind == Reconcile then
      // The handles are dropped, not cancelled.
      s.(pending := map[], timers := s.timers - s.pending.Keys,
         sent := s.sent + [Message(e.revision, e.kind, e.nodeIds, e.relIds, PropSet(e))])
    else TouchAll(s, e, ElementIds(e))
  }

  function Fire(s: State, handle: nat): State
    requires handle in s.scheduled
  {
    var id := s.scheduled[handle];
    var s1 := s.(scheduled := s.scheduled - {handle}, pending := s.pending - {id}, timers := s.timers - {id});
    if id in s.pending then s1.(sent := s.sent + [s.pending[id]]) else s1
  }

  function Unsubscribe(s: State): State {
    s.(scheduled := s.scheduled - s.timers.Values, timers := map[], pending := map[], open := false)
  }

  class Subscription {
    var pending: map<string, Message>
    var timers: map<string, nat>
    var scheduled: map<nat, string>
    var next: nat
    var sent: seq<Message>
    var open: bool

    function Now(): State reads this { State(pending, timers, scheduled, next, sent, open) }

    constructor ()
      ensures Now() == Start()
    {
      pending, timers, scheduled, next, sent, open := map[], map[], map[], 0, [], true;
    }

    // One element of an event: coalesced into its pending message or opening one; its timer is rescheduled.
    method TouchElement(e: Event, id: string)
      modifies this
      ensures Now() == Touch(old(Now()), e, id)
    {
      if id in pending {
        var existing := pending[id];
        pending := pending[id := Joined(existing, e)];
        if id in timers { scheduled := scheduled - {timers[id]}; }
      } else {
        pending := pending[id := Opening(e, id)];
      }
      timers := timers[id := next];
      scheduled := scheduled[next := id];
      next := next + 1;
    }

    method Receive(e: Event)
      modifies this
      ensures Now() == OnEvent(old(Now()), e)
    {
      hide Touch;
      if !open { return; }
      if e.kind == Reconcile {
        timers := timers - pending.Keys;
        pending := map[];
        sent := sent + [Message(e.revision, e.kind, e.nodeIds, e.relIds, PropSet(e))];
        return;
      }
      var ids := e.nodeIds + e.relIds;
      var i := 0;
      while i < |ids|
        invariant 0 <= i <= |ids|
        invariant TouchAll(Now(), e, ids[i..]) == TouchAll(old(Now()), e, ids)
      {
        TouchElement(e, ids[i]);
        assert ids[i..][1..] == ids[i + 1..];
        i := i + 1;
      }
      assert ids[i..] == [];
    }

    method TimerFired(handle: nat)
      requires handle in scheduled
      modifies this
      ensures Now() == Fire(old(Now()), handle)
    {
      var id := scheduled[handle];
      scheduled := scheduled - {handle};
      if id in pending { sent := sent + [pending[id]]; }
      pending := pending - {id};
      timers := timers - {id};
    }

    method Close()
      modifies this
      ensures Now() == Unsubscribe(old(Now()))
    {
      open := false;
      scheduled := scheduled - timers.Values;
      timers := map[];
      pending := map[];
    }
  }

  function Start(): State { State(map[], map[], map[], 0, [], true) }

  // ---- The ledger: which events each message stands for ------------------------------

  // One entry per sent message: the events a flushed element had coalesced, or everything a
  // reconcile discarded.
  datatype Entry = Flushed(id: string, events: seq<Event>) | Resync(dropped: map<string, seq<Event>>)
  datatype Ledger = Ledger(window: map<string, seq<Event>>, log: seq<Entry>, seen: seq<Event>)

  function Window(l: Ledger, id: string): seq<Event> { if id in l.window then l.window[id] else [] }

  function NoteTouch(l: Ledger, e: Event, id: string): Ledger { l.(window := l.window[id := Window(l, id) + [e]]) }

  function NoteAll(l: Ledger, e: Event, ids: seq<string>): Ledger
    decreases |ids|
  {
    if ids == [] then l else NoteAll(NoteTouch(l, e, ids[0]), e, ids[1..])
  }

  datatype Step = Publish(event: Event) | TimerFires(handle: nat) | Leave

  ghost predicate Enabled(s: State, l: Ledger, step: Step) {
    match step
    case Publish(e) => forall x :: x in l.seen ==> x.revision < e.revision
    case TimerFires(handle) => handle in s.scheduled
    case Leave => true
  }

  function Next(s: State, step: Step): State
    requires step.TimerFires? ==> step.handle in s.scheduled
  {
    match step
    case Publish(e) => OnEvent(s, e)
    case TimerFires(handle) => Fire(s, handle)
    case Leave => Unsubscribe(s)
  }

  function Note(s: State, l: Ledger, step: Step): Ledger
    requires step.TimerFires? ==> step.handle in s.scheduled
  {
    match step
    case Publish(e) =>
      if !s.open then l
      else if e.kind == Reconcile then Ledger(map[], l.log + [Resync(l.window)], l.seen + [e])
      else NoteAll(l, e, ElementIds(e)).(seen := l.seen + [e])
    case TimerFires(handle) =>
      var id := s.scheduled[handle];
      if id in s.pending then Ledger(l.window - {id}, l.log + [Flushed(id, Window(l, id))], l.seen) else l
    case Leave => l
  }

  /** A message stands for these events of one element: kind of the first, latest revision, and
      exactly the properties any of them changed. */
  ghost predicate Summarizes(m: Message, id: string, events: seq<Event>) {
    events != [] && m.kind == events[0].kind && m.kind != Reconcile &&
    m.nodeIds == (if id in events[0].nodeIds then [id] else []) &&
    m.relIds == (if id in events[0].relIds then [id] else []) && id in m.nodeIds + m.relIds &&
    (forall e :: e in events ==> e.revision <= m.revision) && (exists e :: e in events && e.revision == m.revision) &&
    (forall p :: p in m.props <==> exists e :: e in events && p in e.props)
  }

  function Coalesced(id: string, events: seq<Event>): Message
    requires events != []
  {
    if |events| == 1 then Opening(events[0], id)
    else Joined(Coalesced(id, events[..|events| - 1]), events[|events| - 1])
  }

  predicate Touching(e: Event, id: string) { id in ElementIds(e) && e.kind != Reconcile }

  ghost predicate StandsFor(m: Message, id: string, events: seq<Event>) {
    events != [] && m == Coalesced(id, events) && forall e :: e in events ==> Touching(e, id)
  }

  ghost predicate Reports(m: Message, entry: Entry) {
    match entry
    case Flushed(id, events) => StandsFor(m, id, events)
    case Resync(dropped) =>
      m.kind == Reconcile && forall id, e :: id in dropped && e in dropped[id] ==> e.revision < m.revision
  }

  // How often one event touches an element: once per mention of it.
  function Mentions(ids: seq<string>, e: Event, id: string): seq<Event>
    decreases |ids|
  {
    if ids == [] then [] else (if ids[0] == id then [e] else []) + Mentions(ids[1..], e, id)
  }

  /** Every touch of an element, in order. */
  function Touches(seen: seq<Event>, id: string): seq<Event> {
    if seen == [] then []
    else
      var e := seen[|seen| - 1];
      Touches(seen[..|seen| - 1], id) + (if e.kind == Reconcile then [] else Mentions(ElementIds(e), e, id))
  }

  function EntryFor(entry: Entry, id: string): seq<Event> {
    match entry
    case Flushed(x, events) => if x == id then events else []
    case Resync(dropped) => if id in dropped then dropped[id] else []
  }

  function Logged(log: seq<Entry>, id: string): seq<Event> {
    if log == [] then [] else Logged(log[..|log| - 1], id) + EntryFor(log[|log| - 1], id)
  }

  // ---- Invariants ----------------------------------------------------------------------

  /** Every pending element has an outstanding timer of its own, whatever stale timers there are. */
  ghost predicate Armed(s: State) {
    s.pending.Keys == s.timers.Keys &&
    (forall id :: id in s.pending ==> s.timers[id] in s.scheduled && s.scheduled[s.timers[id]] == id) &&
    (forall h :: h in s.scheduled ==> h < s.next) && (!s.open ==> s.pending == map[])
  }

  ghost predicate WindowsOk(s: State, l: Ledger) {
    s.pending.Keys == l.window.Keys &&
    (forall id :: id in s.pending ==> StandsFor(s.pending[id], id, l.window[id])) &&
    (forall id, e :: id in l.window && e in l.window[id] ==> e in l.seen)
  }

  ghost predicate LogOk(s: State, l: Ledger) {
    |l.log| == |s.sent| && forall i :: 0 <= i < |l.log| ==> Reports(s.sent[i], l.log[i])
  }

  /** Each touch went into exactly one message, is still pending, or was discarded by one reconcile. */
  ghost predicate Conserved(l: Ledger) { forall id :: Logged(l.log, id) + Window(l, id) == Touches(l.seen, id) }

  ghost predicate Inv(s: State, l: Ledger) {
    Armed(s) && (s.open ==> WindowsOk(s, l) && LogOk(s, l) && Conserved(l))
  }

  lemma SummarizesFirst(id: string, e: Event)
    requires Touching(e, id)
    ensures Summarizes(Opening(e, id), id, [e])
  {
    assert e in [e];
  }

  lemma SummarizesMore(m: Message, id: string, rest: seq<Event>, last: Event)
    requires Summarizes(m, id, rest) && Touching(last, id)
    ensures Summarizes(Joined(m, last), id, rest + [last])
  {
    hide Joined, Touching;
    JoinedShape(m, last);
    JoinedRevision(m, rest, last);
    JoinedProps(m, rest, last);
    assert (rest + [last])[0] == rest[0];
  }

  lemma {:induction false} CoalescedSummarizes(id: string, events: seq<Event>)
    requires events != [] && forall e :: e in events ==> Touching(e, id)
    ensures Summarizes(Coalesced(id, events), id, events)
    decreases |events|
  {
    hide Summarizes, Touching, Joined, Opening;
    var last := events[|events| - 1];
    if |events| == 1 {
      assert events == [last];
      SummarizesFirst(id, last);
    } else {
      var rest := events[..|events| - 1];
      CoalescedSummarizes(id, rest);
      assert events == rest + [last];
      SummarizesMore(Coalesced(id, rest), id, rest, last);
    }
  }

  lemma JoinedShape(m: Message, e: Event)
    ensures Joined(m, e).kind == m.kind && Joined(m, e).nodeIds == m.nodeIds && Joined(m, e).relIds == m.relIds
  {
  }

  lemma JoinedRevision(m: Message, rest: seq<Event>, last: Event)
    requires (forall e :: e in rest ==> e.revision <= m.revision) && exists e :: e in rest && e.revision == m.revision
    ensures var m1, events := Joined(m, last), rest + [last];
            (forall e :: e in events ==> e.revision <= m1.revision) &&
            exists e :: e in events && e.revision == m1.revision
  {
    var m1, events := Joined(m, last), rest + [last];
    if m.revision > last.revision {
      var x :| x in rest && x.revision == m.revision;
      assert x in events && x.revision == m1.revision;
    } else {
      assert last in events && last.revision == m1.revision;
    }
  }

  lemma JoinedProps(m: Message, rest: seq<Event>, last: Event)
    requires forall p :: p in m.props <==> exists e :: e in rest && p in e.props
    ensures forall p :: p in Joined(m, last).props <==> exists e :: e in rest + [last] && p in e.props
  {
    var events := rest + [last];
    forall p ensures p in Joined(m, last).props <==> exists x :: x in events && p in x.props {
      if p in m.props {
        var x :| x in rest && p in x.props;
        assert x in events;
      }
      if p in last.props { assert last in events; }
    }
  }

  lemma StandsForMore(m: Message, id: string, events: seq<Event>, e: Event)
    requires StandsFor(m, id, events) && Touching(e, id)
    ensures StandsFor(Joined(m, e), id, events + [e])
  {
    assert (events + [e])[..|events|] == events;
  }

  lemma StandsForFirst(id: string, e: Event)
    requires Touching(e, id)
    ensures StandsFor(Opening(e, id), id, [e])
  {
  }

  lemma TouchArmed(s: State, e: Event, id: string)
    requires s.open && Armed(s)
    ensures Armed(Touch(s, e, id))
  {
  }

  lemma WindowKnown(s: State, l: Ledger, id: string)
    requires WindowsOk(s, l)
    ensures id in s.pending <==> id in l.window
    ensures id in s.pending ==> StandsFor(s.pending[id], id, l.window[id])
    ensures forall e :: e in Window(l, id) ==> e in l.seen
  {
  }

  lemma WindowsOkWith(s: State, l: Ledger, s1: State, l1: Ledger, id: string)
    requires WindowsOk(s, l) && id in s1.pending && id in l1.window && l1.seen == l.seen
    requires s1.pending == s.pending[id := s1.pending[id]] && l1.window == l.window[id := l1.window[id]]
    requires StandsFor(s1.pending[id], id, l1.window[id]) && forall e :: e in l1.window[id] ==> e in l.seen
    ensures WindowsOk(s1, l1)
  {
    hide StandsFor;
  }

  lemma TouchKeeps(s: State, l: Ledger, e: Event, id: string)
    requires s.open && Armed(s) && WindowsOk(s, l)
    requires Touching(e, id) && e in l.seen
    ensures var s1 := Touch(s, e, id); Armed(s1) && s1.open && s1.sent == s.sent
    ensures WindowsOk(Touch(s, e, id), NoteTouch(l, e, id))
  {
    TouchArmed(s, e, id);
    hide Armed, StandsFor, Touching, WindowsOk;
    var s1, l1 := Touch(s, e, id), NoteTouch(l, e, id);
    WindowKnown(s, l, id);
    if id in s.pending {
      StandsForMore(s.pending[id], id, l.window[id], e);
    } else {
      StandsForFirst(id, e);
      assert [] + [e] == [e];
    }
    WindowsOkWith(s, l, s1, l1, id);
  }

  lemma {:induction false} TouchAllKeeps(s: State, l: Ledger, e: Event, ids: seq<string>)
    requires s.open && Armed(s) && WindowsOk(s, l)
    requires forall id :: id in ids ==> id in ElementIds(e)
    requires e.kind != Reconcile && e in l.seen
    ensures var s1 := TouchAll(s, e, ids); Armed(s1) && s1.open && s1.sent == s.sent
    ensures WindowsOk(TouchAll(s, e, ids), NoteAll(l, e, ids))
    decreases |ids|
  {
    if ids != [] {
      TouchKeeps(s, l, e, ids[0]);
      TouchAllKeeps(Touch(s, e, ids[0]), NoteTouch(l, e, ids[0]), e, ids[1..]);
    }
  }

  lemma {:induction false} NoteAllFrame(l: Ledger, e: Event, ids: seq<string>, seen: seq<Event>)
    ensures NoteAll(l, e, ids).log == l.log
    ensures NoteAll(l.(seen := seen), e, ids) == NoteAll(l, e, ids).(seen := seen)
    decreases |ids|
  {
    if ids != [] { NoteAllFrame(NoteTouch(l, e, ids[0]), e, ids[1..], seen); }
  }

  lemma {:induction false} NoteAllWindow(l: Ledger, e: Event, ids: seq<string>, id: string)
    ensures Window(NoteAll(l, e, ids), id) == Window(l, id) + Mentions(ids, e, id)
    decreases |ids|
  {
    if ids == [] {
    } else {
      var l1 := NoteTouch(l, e, ids[0]);
      NoteAllWindow(l1, e, ids[1..], id);
      assert Window(l1, id) == Window(l, id) + (if ids[0] == id then [e] else []);
    }
  }

  lemma LogGrows(s: State, l: Ledger, m: Message, entry: Entry, s1: State, l1: Ledger)
    requires LogOk(s, l) && Reports(m, entry) && s1.sent == s.sent + [m] && l1.log == l.log + [entry]
    ensures LogOk(s1, l1)
  {
  }

  lemma LoggedGrows(log: seq<Entry>, entry: Entry, id: string)
    ensures Logged(log + [entry], id) == Logged(log, id) + EntryFor(entry, id)
  {
    assert (log + [entry])[..|log|] == log;
  }

  lemma TouchesGrow(seen: seq<Event>, e: Event, id: string)
    ensures Touches(seen + [e], id) ==
            Touches(seen, id) + (if e.kind == Reconcile then [] else Mentions(ElementIds(e), e, id))
  {
    assert (seen + [e])[..|seen|] == seen;
  }

  lemma ReconcileKeeps(s: State, l: Ledger, e: Event)
    requires Inv(s, l) && s.open && Enabled(s, l, Publish(e)) && e.kind == Reconcile
    ensures Inv(OnEvent(s, e), Note(s, l, Publish(e)))
  {
    var s1, l1 := OnEvent(s, e), Note(s, l, Publish(e));
    assert s1.timers == map[];
    LogGrows(s, l, s1.sent[|s.sent|], Resync(l.window), s1, l1);
    forall id ensures Logged(l1.log, id) + Window(l1, id) == Touches(l1.seen, id) {
      LoggedGrows(l.log, Resync(l.window), id);
      TouchesGrow(l.seen, e, id);
    }
  }

  lemma UpsertConservesAt(l: Ledger, e: Event, id: string)
    requires Logged(l.log, id) + Window(l, id) == Touches(l.seen, id) && e.kind != Reconcile
    ensures Logged(l.log, id) + Window(NoteAll(l, e, ElementIds(e)), id) == Touches(l.seen + [e], id)
  {
    TouchesGrow(l.seen, e, id);
    NoteAllWindow(l, e, ElementIds(e), id);
    Regroup(Logged(l.log, id), Window(l, id), Mentions(ElementIds(e), e, id));
  }

  lemma UpsertConserves(l: Ledger, e: Event)
    requires Conserved(l) && e.kind != Reconcile
    ensures Conserved(NoteAll(l, e, ElementIds(e)).(seen := l.seen + [e]))
  {
    var l1 := NoteAll(l, e, ElementIds(e));
    var l2 := l1.(seen := l.seen + [e]);
    NoteAllFrame(l, e, ElementIds(e), l.seen);
    forall id ensures Logged(l2.log, id) + Window(l2, id) == Touches(l2.seen, id) {
      UpsertConservesAt(l, e, id);
      assert Window(l2, id) == Window(l1, id);
    }
  }

  lemma UpsertKeeps(s: State, l: Ledger, e: Event)
    requires Inv(s, l) && s.open && Enabled(s, l, Publish(e)) && e.kind != Reconcile
    ensures Inv(OnEvent(s, e), Note(s, l, Publish(e)))
  {
    var seen, ids := l.seen + [e], ElementIds(e);
    assert WindowsOk(s, l.(seen := seen)) by {
      assert forall x :: x in l.seen ==> x in seen;
    }
    forall id | id in ids ensures Touching(e, id) { }
    TouchAllKeeps(s, l.(seen := seen), e, ids);
    NoteAllFrame(l, e, ids, seen);
    UpsertConserves(l, e);
  }

  lemma FireKeeps(s: State, l: Ledger, handle: nat)
    requires Inv(s, l) && handle in s.scheduled
    ensures Inv(Fire(s, handle), Note(s, l, TimerFires(handle)))
  {
    hide Armed, WindowsOk, StandsFor, Reports;
    var s1, l1 := Fire(s, handle), Note(s, l, TimerFires(handle));
    var id := s.scheduled[handle];
    FireArmed(s, handle);
    if s.open { FireWindows(s, l, handle); }
    if s.open && id in s.pending {
      var entry := Flushed(id, l.window[id]);
      LogGrows(s, l, s.pending[id], entry, s1, l1);
      forall x ensures Logged(l1.log, x) + Window(l1, x) == Touches(l1.seen, x) {
        LoggedGrows(l.log, entry, x);
        assert Logged(l.log, x) + Window(l, x) == Touches(l.seen, x);
      }
    }
  }

  lemma FireArmed(s: State, handle: nat)
    requires Armed(s) && handle in s.scheduled
    ensures Armed(Fire(s, handle))
  {
  }

  lemma FireWindows(s: State, l: Ledger, handle: nat)
    requires WindowsOk(s, l) && handle in s.scheduled
    ensures WindowsOk(Fire(s, handle), Note(s, l, TimerFires(handle)))
    ensures var id := s.scheduled[handle];
            id in s.pending ==>
              id in l.window && Window(l, id) == l.window[id] && StandsFor(s.pending[id], id, l.window[id])
  {
    hide StandsFor;
  }

  lemma StepKeeps(s: State, l: Ledger, step: Step)
    requires Inv(s, l) && Enabled(s, l, step)
    ensures Inv(Next(s, step), Note(s, l, step))
  {
    match step
    case Publish(e) => if s.open { if e.kind == Reconcile { ReconcileKeeps(s, l, e); } else { UpsertKeeps(s, l, e); } }
    case TimerFires(handle) => FireKeeps(s, l, handle);
    case Leave =>
  }

  // ---- Whole runs ------------------------------------------------------------------------

  ghost predicate Run(s: State, l: Ledger, steps: seq<Step>, s1: State, l1: Ledger)
    decreases |steps|
  {
    if steps == [] then s1 == s && l1 == l
    else Enabled(s, l, steps[0]) && Run(Next(s, steps[0]), Note(s, l, steps[0]), steps[1..], s1, l1)
  }

  const NOTHING := Ledger(map[], [], [])

  ghost predicate Reachable(s: State, l: Ledger) { exists steps :: Run(Start(), NOTHING, steps, s, l) }

  lemma {:induction false} RunKeeps(s: State, l: Ledger, steps: seq<Step>, s1: State, l1: Ledger)
    requires Inv(s, l) && Run(s, l, steps, s1, l1)
    ensures Inv(s1, l1)
    decreases |steps|
  {
    if steps != [] {
      StepKeeps(s, l, steps[0]);
      RunKeeps(Next(s, steps[0]), Note(s, l, steps[0]), steps[1..], s1, l1);
    }
  }

  lemma ReachableInv(s: State, l: Ledger)
    requires Reachable(s, l)
    ensures Inv(s, l)
  {
    var steps :| Run(Start(), NOTHING, steps, s, l);
    assert Inv(Start(), NOTHING) by {
      assert forall id :: Logged([], id) + Window(NOTHING, id) == Touches([], id);
    }
    RunKeeps(Start(), NOTHING, steps, s, l);
  }

  /** In every reachable state a pending element has an outstanding timer that flushes it. */
  lemma PendingIsArmed(s: State, l: Ledger, id: string)
    requires Reachable(s, l) && id in s.pending
    ensures exists h :: h in s.scheduled && s.scheduled[h] == id
  {
    ReachableInv(s, l);
    assert s.timers[id] in s.scheduled;
  }

  /** What was sent: each message is a reconcile, or carries for one element the first kind, the latest
      revision and exactly the union of properties of the events it coalesced. Every touch of every
      element is accounted for exactly once, in order, in the messages, in what reconciles discarded
      and in what is pending. */
  lemma MessagesAccountForEvents(s: State, l: Ledger)
    requires Reachable(s, l) && s.open
    ensures |l.log| == |s.sent|
    ensures forall i :: 0 <= i < |s.sent| && l.log[i].Flushed? ==> Summarizes(s.sent[i], l.log[i].id, l.log[i].events)
    ensures forall i :: 0 <= i < |s.sent| && l.log[i].Resync? ==> s.sent[i].kind == Reconcile
    ensures forall id :: Logged(l.log, id) + Window(l, id) == Touches(l.seen, id)
  {
    ReachableInv(s, l);
    forall i | 0 <= i < |s.sent| && l.log[i].Flushed? ensures Summarizes(s.sent[i], l.log[i].id, l.log[i].events) {
      assert Reports(s.sent[i], l.log[i]);
      CoalescedSummarizes(l.log[i].id, l.log[i].events);
    }
    forall i | 0 <= i < |s.sent| && l.log[i].Resync? ensures s.sent[i].kind == Reconcile {
      assert Reports(s.sent[i], l.log[i]);
    }
  }

  predicate Covers(m: Message, id: string, e: Event) {
    e.revision <= m.revision && (m.kind == Reconcile || (id in m.nodeIds + m.relIds && PropSet(e) <= m.props))
  }

  lemma {:induction false} InMentions(ids: seq<string>, e: Event, id: string)
    requires id in ids
    ensures e in Mentions(ids, e, id)
    decreases |ids|
  {
    if ids[0] != id { InMentions(ids[1..], e, id); }
  }

  lemma {:induction false} InTouches(seen: seq<Event>, e: Event, id: string)
    requires e in seen && e.kind != Reconcile && id in ElementIds(e)
    ensures e in Touches(seen, id)
    decreases |seen|
  {
    var last := seen[|seen| - 1];
    if e == last {
      InMentions(ElementIds(e), e, id);
    } else {
      InTouches(seen[..|seen| - 1], e, id);
    }
  }

  lemma {:induction false} LoggedEntry(log: seq<Entry>, id: string, e: Event)
    requires e in Logged(log, id)
    ensures exists i :: 0 <= i < |log| && e in EntryFor(log[i], id)
    decreases |log|
  {
    if e !in EntryFor(log[|log| - 1], id) {
      LoggedEntry(log[..|log| - 1], id, e);
      var i :| 0 <= i < |log| - 1 && e in EntryFor(log[..|log| - 1][i], id);
      assert e in EntryFor(log[i], id);
    }
  }

  /** Coverage. After any interleaving of events, reconciles and timers, once no timer is outstanding
      every element of every event since subscribing is covered: some message names it, with at
      least that event's revision and all its changed properties, or a reconcile with at least that
      revision was sent. */
  lemma QuietMeansCovered(s: State, l: Ledger, e: Event, id: string)
    requires Reachable(s, l) && s.open && s.scheduled == map[]
    requires e in l.seen && e.kind != Reconcile && id in ElementIds(e)
    ensures exists i :: 0 <= i < |s.sent| && Covers(s.sent[i], id, e)
  {
    ReachableInv(s, l);
    assert s.pending.Keys == {};
    assert Window(l, id) == [];
    InTouches(l.seen, e, id);
    assert Logged(l.log, id) + [] == Logged(l.log, id);
    LoggedEntry(l.log, id, e);
    var i :| 0 <= i < |l.log| && e in EntryFor(l.log[i], id);
    assert Reports(s.sent[i], l.log[i]);
    if l.log[i].Flushed? { CoalescedSummarizes(id, l.log[i].events); }
    assert Covers(s.sent[i], id, e);
  }

  ghost predicate OnlyFirings(steps: seq<Step>) { forall step :: step in steps ==> step.TimerFires? }

  lemma FireTakesOne(s: State, handle: nat)
    requires handle in s.scheduled
    ensures |Fire(s, handle).scheduled| == |s.scheduled| - 1
    ensures Fire(s, handle).open == s.open
  {
    assert (s.scheduled - {handle}).Keys == s.scheduled.Keys - {handle};
  }

  /** Firing timers in any order: every run of firings takes one timer each and schedules none, so every run
      of as many firings as there are timers ends quiet, having seen no further event. */
  lemma {:induction false} EveryOrderRunsOut(s: State, l: Ledger, steps: seq<Step>, s1: State, l1: Ledger)
    requires Run(s, l, steps, s1, l1) && OnlyFirings(steps)
    ensures |s1.scheduled| == |s.scheduled| - |steps|
    ensures |steps| == |s.scheduled| ==> s1.scheduled == map[]
    ensures s1.open == s.open && l1.seen == l.seen
    decreases |steps|
  {
    if steps != [] {
      hide Fire;
      assert steps[0] in steps;
      FireTakesOne(s, steps[0].handle);
      EveryOrderRunsOut(Next(s, steps[0]), Note(s, l, steps[0]), steps[1..], s1, l1);
    }
  }

  /** And there is such a run. */
  lemma {:induction false} TimersRunOut(s: State, l: Ledger) returns (steps: seq<Step>, s1: State, l1: Ledger)
    ensures Run(s, l, steps, s1, l1) && |steps| == |s.scheduled| && s1.scheduled == map[]
    ensures s1.open == s.open && l1.seen == l.seen
    decreases |s.scheduled|
  {
    if s.scheduled == map[] {
      steps, s1, l1 := [], s, l;
    } else {
      var h :| h in s.scheduled;
      var step := TimerFires(h);
      assert |s.scheduled - {h}| == |s.scheduled| - 1 by {
        assert (s.scheduled - {h}).Keys == s.scheduled.Keys - {h};
      }
      var rest;
      rest, s1, l1 := TimersRunOut(Next(s, step), Note(s, l, step));
      steps := [step] + rest;
      assert steps[1..] == rest;
    }
  }

  /** Nothing is sent after unsubscribing, although stale timers may still fire. */
  lemma {:induction false} SilentAfterUnsubscribe(s: State, l: Ledger, steps: seq<Step>, s1: State, l1: Ledger)
    requires Reachable(s, l) && !s.open && Run(s, l, steps, s1, l1)
    ensures s1.sent == s.sent && !s1.open
  {
    ReachableInv(s, l);
    SilentFrom(s, l, steps, s1, l1);
  }

  lemma {:induction false} SilentFrom(s: State, l: Ledger, steps: seq<Step>, s1: State, l1: Ledger)
    requires Inv(s, l) && !s.open && Run(s, l, steps, s1, l1)
    ensures s1.sent == s.sent && !s1.open
    decreases |steps|
  {
    if steps != [] {
      StepKeeps(s, l, steps[0]);
      SilentFrom(Next(s, steps[0]), Note(s, l, steps[0]), steps[1..], s1, l1);
    }
  }

  // ---- When a timer is stale ---------------------------------------------------------------

  /** Every outstanding timer is the one its element has registered. */
  ghost predicate Fresh(s: State) {
    forall h :: h in s.scheduled ==> s.scheduled[h] in s.timers && s.timers[s.scheduled[h]] == h
  }

  /** A reconcile arriving while something is pending: it drops handles without cancelling them. */
  predicate DropsHandles(s: State, step: Step) {
    s.open && step.Publish? && step.event.kind == Reconcile && s.pending != map[]
  }

  lemma TouchFresh(s: State, e: Event, id: string)
    requires s.open && Armed(s) && Fresh(s)
    ensures Fresh(Touch(s, e, id))
  {
  }

  lemma {:induction false} TouchAllFresh(s: State, e: Event, ids: seq<string>)
    requires s.open && Armed(s) && Fresh(s)
    ensures Fresh(TouchAll(s, e, ids))
    decreases |ids|
  {
    if ids != [] {
      TouchArmed(s, e, ids[0]);
      TouchFresh(s, e, ids[0]);
      TouchAllFresh(Touch(s, e, ids[0]), e, ids[1..]);
    }
  }

  lemma ReconcileFresh(s: State, e: Event)
    requires s.open && Armed(s) && Fresh(s) && e.kind == Reconcile
    ensures Fresh(OnEvent(s, e)) <==> s.pending == map[]
  {
    if s.pending != map[] {
      var id :| id in s.pending;
      assert s.timers[id] in OnEvent(s, e).scheduled && id !in OnEvent(s, e).timers;
    }
  }

  lemma OtherFresh(s: State, step: Step)
    requires Armed(s) && Fresh(s) && !step.Publish? && (step.TimerFires? ==> step.handle in s.scheduled)
    ensures Fresh(Next(s, step))
  {
    if step.Leave? {
      forall h | h in s.scheduled ensures h in s.timers.Values { assert s.timers[s.scheduled[h]] == h; }
    }
  }

  /** One step makes a timer stale exactly when it is a reconcile arriving while something is pending. */
  lemma StaleExactly(s: State, l: Ledger, step: Step)
    requires Inv(s, l) && Fresh(s) && Enabled(s, l, step)
    ensures Fresh(Next(s, step)) <==> !DropsHandles(s, step)
  {
    hide Armed, Fresh, WindowsOk, LogOk, Conserved;
    match step
    case Publish(e) =>
      if s.open {
        if e.kind == Reconcile { ReconcileFresh(s, e); } else { TouchAllFresh(s, e, ElementIds(e)); }
      }
    case _ => OtherFresh(s, step);
  }

  ghost predicate Runnable(s: State, l: Ledger, steps: seq<Step>)
    decreases |steps|
  {
    steps == [] || (Enabled(s, l, steps[0]) && Runnable(Next(s, steps[0]), Note(s, l, steps[0]), steps[1..]))
  }

  // In every state of the run, the first and the last included.
  ghost predicate FreshThroughout(s: State, l: Ledger, steps: seq<Step>)
    requires Runnable(s, l, steps)
    decreases |steps|
  {
    Fresh(s) && (steps == [] || FreshThroughout(Next(s, steps[0]), Note(s, l, steps[0]), steps[1..]))
  }

  ghost predicate NeverDrops(s: State, l: Ledger, steps: seq<Step>)
    requires Runnable(s, l, steps)
    decreases |steps|
  {
    steps == [] || (!DropsHandles(s, steps[0]) && NeverDrops(Next(s, steps[0]), Note(s, l, steps[0]), steps[1..]))
  }

  /** Over a whole run no timer is ever stale exactly when no reconcile ever dropped a pending element. */
  lemma {:induction false} FreshExactly(s: State, l: Ledger, steps: seq<Step>)
    requires Inv(s, l) && Fresh(s) && Runnable(s, l, steps)
    ensures FreshThroughout(s, l, steps) <==> NeverDrops(s, l, steps)
    decreases |steps|
  {
    hide Inv, Fresh, Next, Note;
    if steps != [] {
      StaleExactly(s, l, steps[0]);
      if !DropsHandles(s, steps[0]) {
        StepKeeps(s, l, steps[0]);
        FreshExactly(Next(s, steps[0]), Note(s, l, steps[0]), steps[1..]);
      }
    }
  }

  /** While no timer is stale, every firing is the element's own timer and flushes what is pending for it. */
  lemma OwnTimerFlushes(s: State, l: Ledger, h: nat)
    requires Inv(s, l) && Fresh(s) && h in s.scheduled
    ensures var id := s.scheduled[h];
            id in s.pending && s.timers[id] == h && Fire(s, h).sent == s.sent + [s.pending[id]]
  {
  }

  /** A firing that flushes an element while another timer is the one registered for it. */
  predicate CutsShort(s: State, h: nat) {
    h in s.scheduled && s.scheduled[h] in s.pending && s.scheduled[h] in s.timers && s.timers[s.scheduled[h]] != h
  }

  ghost predicate NoReconciles(steps: seq<Step>) {
    forall step :: step in steps && step.Publish? ==> step.event.kind != Reconcile
  }

  /** Without any further reconcile, some window can be flushed before its own timer. */
  ghost predicate CanCutShort(s: State, l: Ledger) {
    exists steps, s1, l1, h: nat :: Run(s, l, steps, s1, l1) && NoReconciles(steps) && CutsShort(s1, h)
  }

  lemma {:induction false} StaysSafe(s: State, l: Ledger, steps: seq<Step>, s1: State, l1: Ledger)
    requires Inv(s, l) && Run(s, l, steps, s1, l1) && NoReconciles(steps) && (!s.open || Fresh(s))
    ensures Inv(s1, l1) && (!s1.open || Fresh(s1))
    decreases |steps|
  {
    hide Fresh, Armed, WindowsOk, LogOk, Conserved;
    if steps != [] {
      assert steps[0] in steps;
      StepKeeps(s, l, steps[0]);
      if s.open { StaleExactly(s, l, steps[0]); }
      StaysSafe(Next(s, steps[0]), Note(s, l, steps[0]), steps[1..], s1, l1);
    }
  }

  // A revision later than all of these.
  function LaterThan(seen: seq<Event>): (r: nat)
    ensures forall e :: e in seen ==> e.revision < r
  {
    if seen == [] then 0
    else
      var r := LaterThan(seen[..|seen| - 1]);
      if seen[|seen| - 1].revision < r then r else seen[|seen| - 1].revision + 1
  }

  lemma OneTouch(s: State, l: Ledger, e: Event, id: string)
    requires s.open && e.kind == Upsert && e.nodeIds == [id] && e.relIds == []
    ensures Next(s, Publish(e)) == Touch(s, e, id) && Note(s, l, Publish(e)).seen == l.seen + [e]
  {
    assert ElementIds(e) == [id] && [id][1..] == [];
    assert TouchAll(Touch(s, e, id), e, []) == Touch(s, e, id);
  }

  lemma OneStep(s: State, l: Ledger, step: Step)
    requires Enabled(s, l, step)
    ensures Run(s, l, [step], Next(s, step), Note(s, l, step))
  {
    assert [step][1..] == [];
    assert Run(Next(s, step), Note(s, l, step), [], Next(s, step), Note(s, l, step));
  }

  lemma OneMoreEvent(s: State, l: Ledger, h: nat)
    requires Inv(s, l) && s.open && h in s.scheduled
    requires s.scheduled[h] !in s.timers || s.timers[s.scheduled[h]] != h
    ensures CanCutShort(s, l)
  {
    hide Run, LaterThan;
    var id := s.scheduled[h];
    var step := Publish(Event(LaterThan(l.seen), Upsert, [id], [], []));
    OneTouch(s, l, step.event, id);
    OneStep(s, l, step);
    assert CutsShort(Next(s, step), h) && NoReconciles([step]);
  }

  /** In any state, a window can be cut short without a further reconcile exactly when the subscription is open
      and some timer is stale. */
  lemma CutShortExactly(s: State, l: Ledger)
    requires Inv(s, l)
    ensures CanCutShort(s, l) <==> s.open && !Fresh(s)
  {
    hide Run, WindowsOk, LogOk, Conserved;
    if steps, s1, l1, h: nat :| Run(s, l, steps, s1, l1) && NoReconciles(steps) && CutsShort(s1, h) {
      if !s.open || Fresh(s) { StaysSafe(s, l, steps, s1, l1); }
    }
    if s.open && !Fresh(s) {
      var h :| h in s.scheduled && (s.scheduled[h] !in s.timers || s.timers[s.scheduled[h]] != h);
      OneMoreEvent(s, l, h);
    }
  }

  lemma StartIsFresh()
    ensures Inv(Start(), NOTHING) && Fresh(Start())
  {
    assert forall id :: Logged([], id) + Window(NOTHING, id) == Touches([], id);
  }

  // In every state of the run, the first and the last included.
  ghost predicate NeverCut(s: State, l: Ledger, steps: seq<Step>)
    requires Runnable(s, l, steps)
    decreases |steps|
  {
    !CanCutShort(s, l) && (steps == [] || NeverCut(Next(s, steps[0]), Note(s, l, steps[0]), steps[1..]))
  }

  lemma {:induction false} NeverCutExactly(s: State, l: Ledger, steps: seq<Step>)
    requires Inv(s, l) && Fresh(s) && Runnable(s, l, steps)
    ensures NeverCut(s, l, steps) <==> NeverDrops(s, l, steps)
    decreases |steps|
  {
    hide Inv, Fresh, CanCutShort;
    CutShortExactly(s, l);
    if steps != [] {
      var s1, l1 := Next(s, steps[0]), Note(s, l, steps[0]);
      StepKeeps(s, l, steps[0]);
      StaleExactly(s, l, steps[0]);
      CutShortExactly(s1, l1);
      if !DropsHandles(s, steps[0]) { NeverCutExactly(s1, l1, steps[1..]); }
    }
  }

  /** From subscribing on: every timer is its element's own, and in no state can a window be cut short without
      a further reconcile, exactly as long as no reconcile arrived while something was pending. */
  lemma WindowsAreWholeExactly(steps: seq<Step>)
    requires Runnable(Start(), NOTHING, steps)
    ensures NeverCut(Start(), NOTHING, steps) <==> NeverDrops(Start(), NOTHING, steps)
    ensures FreshThroughout(Start(), NOTHING, steps) <==> NeverDrops(Start(), NOTHING, steps)
  {
    StartIsFresh();
    hide Inv, Fresh, Start;
    NeverCutExactly(Start(), NOTHING, steps);
    FreshExactly(Start(), NOTHING, steps);
  }

  /** A timer left over from before a reconcile can flush a later window early, and then that window's
      own timer is the stale one. */
  lemma StaleTimerFlushesEarly()
    ensures exists s, l ::
              Reachable(s, l) && |s.sent| == 2 && s.sent[0].kind == Reconcile && s.sent[1].kind == Upsert &&
                           s.pending == map[] && s.scheduled.Keys == {1}
  {
    hide Reachable, Run, Note;
    var c := Event(3, Upsert, ["n"], [], []);
    var s2, l2 := DroppedByReconcile();
    OneTouch(s2, l2, c, "n");
    var s3, l3 := Next(s2, Publish(c)), Note(s2, l2, Publish(c));
    ReachableStep(s2, l2, Publish(c));
    assert s3.scheduled == map[0 := "n", 1 := "n"] && s3.pending.Keys == {"n"};
    var s4, l4 := Next(s3, TimerFires(0)), Note(s3, l3, TimerFires(0));
    ReachableStep(s3, l3, TimerFires(0));
    assert s4.pending == map[] && s4.scheduled == map[1 := "n"] && |s4.sent| == 2;
  }

  // An element's window dropped by a reconcile, its first timer still to fire.
  lemma DroppedByReconcile() returns (s: State, l: Ledger)
    ensures Reachable(s, l) && s.open && forall x :: x in l.seen ==> x.revision < 3
    ensures s.pending == map[] && s.scheduled == map[0 := "n"] && s.next == 1
    ensures |s.sent| == 1 && s.sent[0].kind == Reconcile
  {
    var a, b := Event(1, Upsert, ["n"], [], []), Event(2, Reconcile, [], [], []);
    var s0, l0 := Start(), NOTHING;
    hide Reachable, Run;
    ReachableStart();
    OneTouch(s0, l0, a, "n");
    var s1, l1 := Next(s0, Publish(a)), Note(s0, l0, Publish(a));
    ReachableStep(s0, l0, Publish(a));
    s, l := Next(s1, Publish(b)), Note(s1, l1, Publish(b));
    ReachableStep(s1, l1, Publish(b));
  }

  lemma ReachableStart()
    ensures Reachable(Start(), NOTHING)
  {
    assert Run(Start(), NOTHING, [], Start(), NOTHING);
  }

  lemma {:induction false} RunThen(s: State, l: Ledger, steps: seq<Step>, s1: State, l1: Ledger, step: Step)
    requires Run(s, l, steps, s1, l1) && Enabled(s1, l1, step)
    ensures Run(s, l, steps + [step], Next(s1, step), Note(s1, l1, step))
    decreases |steps|
  {
    if steps == [] {
      assert [step][1..] == [] && steps + [step] == [step];
      assert Run(Next(s1, step), Note(s1, l1, step), [], Next(s1, step), Note(s1, l1, step));
    } else {
      RunThen(Next(s, steps[0]), Note(s, l, steps[0]), steps[1..], s1, l1, step);
      assert (steps + [step])[1..] == steps[1..] + [step];
    }
  }

  lemma ReachableStep(s: State, l: Ledger, step: Step)
    requires Reachable(s, l) && Enabled(s, l, step)
    ensures Reachable(Next(s, step), Note(s, l, step))
  {
    var steps :| Run(Start(), NOTHING, steps, s, l);
    RunThen(Start(), NOTHING, steps, s, l, step);
  }

  // ---- The revision log and the subscription together ------------------------------------------

  /** The events a run hands the subscription. */
  function Published(steps: seq<Step>): seq<Event> {
    if steps == [] then []
    else (if steps[0].Publish? then [steps[0].event] else []) + Published(steps[1..])
  }

  lemma {:induction false} SeenIsPublished(s: State, l: Ledger, steps: seq<Step>, s1: State, l1: Ledger)
    requires Run(s, l, steps, s1, l1) && s1.open
    ensures s.open && l1.seen == l.seen + Published(steps)
    decreases |steps|
  {
    hide TouchAll, NoteAll;
    if steps != [] {
      var step := steps[0];
      if step.Publish? {
        SeenOne(s, l, step.event);
        Regroup(l.seen, [step.event], Published(steps[1..]));
      }
      SeenIsPublished(Next(s, step), Note(s, l, step), steps[1..], s1, l1);
    }
  }

  lemma SeenOne(s: State, l: Ledger, e: Event)
    ensures Next(s, Publish(e)).open == s.open
    ensures Note(s, l, Publish(e)).seen == if s.open then l.seen + [e] else l.seen
  {
    TouchAllOpen(s, e, ElementIds(e));
  }

  lemma {:induction false} TouchAllOpen(s: State, e: Event, ids: seq<string>)
    ensures TouchAll(s, e, ids).open == s.open && TouchAll(s, e, ids).sent == s.sent
    decreases |ids|
  {
    if ids != [] { TouchAllOpen(Touch(s, e, ids[0]), e, ids[1..]); }
  }

  function Forwarded(e: Event): Message { Message(e.revision, e.kind, e.nodeIds, e.relIds, PropSet(e)) }

  /** Every reconcile is passed on at once, and what was sent stays sent. */
  lemma {:induction false} ReconcilesSent(s: State, l: Ledger, steps: seq<Step>, s1: State, l1: Ledger, e: Event)
    requires Run(s, l, steps, s1, l1) && s1.open && e.kind == Reconcile
    ensures s.sent <= s1.sent && (e in Published(steps) ==> Forwarded(e) in s1.sent)
    decreases |steps|
  {
    hide TouchAll, NoteAll;
    if steps != [] {
      var step := steps[0];
      var s2 := Next(s, step);
      SeenIsPublished(s, l, steps, s1, l1);
      if step.Publish? { TouchAllOpen(s, step.event, ElementIds(step.event)); }
      ReconcilesSent(s2, Note(s, l, step), steps[1..], s1, l1, e);
      if step == Publish(e) { assert Forwarded(e) == s2.sent[|s2.sent| - 1] == s1.sent[|s2.sent| - 1]; }
    }
  }

  /** The client knows of the event: it was in the replay, or it was asked to reload at that revision or later,
      or it was forwarded as a reconcile, or each of its elements is covered by what was sent. */
  ghost predicate KnownOf(handed: seq<Event>, s: State, e: Event) {
    e in handed || (exists r :: r in handed && r.kind == Reconcile && e.revision <= r.revision) ||
    (e.kind == Reconcile && Forwarded(e) in s.sent) ||
    (e.kind != Reconcile && forall id :: id in ElementIds(e) ==> exists m :: m in s.sent && Covers(m, id, e))
  }

  /** From the revision a subscriber names to the moment no timer is outstanding, it misses nothing: it knows of
      every event above that revision, whether published before it subscribed or since. */
  lemma NothingMissed(history: seq<Event>, maxSize: nat, from: nat, steps: seq<Step>, s: State, l: Ledger, e: Event)
    requires Numbered(history + Published(steps)) && maxSize >= 1
    requires Run(Start(), NOTHING, steps, s, l) && s.open && s.scheduled == map[]
    requires e in history + Published(steps) && e.revision > from
    ensures KnownOf(HandedOver(history, maxSize, from), s, e)
  {
    hide Run, Since, Covers, Forwarded;
    var handed := HandedOver(history, maxSize, from);
    if e in history {
      InReplay(history, Published(steps), maxSize, from, e);
    } else if e.kind == Reconcile {
      ReconcilesSent(Start(), NOTHING, steps, s, l, e);
    } else {
      SeenIsPublished(Start(), NOTHING, steps, s, l);
      forall id | id in ElementIds(e) ensures exists m :: m in s.sent && Covers(m, id, e) {
        QuietMeansCovered(s, l, e, id);
        var i :| 0 <= i < |s.sent| && Covers(s.sent[i], id, e);
        assert s.sent[i] in s.sent;
      }
    }
  }

  lemma InReplay(history: seq<Event>, live: seq<Event>, maxSize: nat, from: nat, e: Event)
    requires Numbered(history + live) && maxSize >= 1 && e in history && e.revision > from
    ensures var handed := HandedOver(history, maxSize, from);
            e in handed || exists r :: r in handed && r.kind == Reconcile && e.revision <= r.revision
  {
    hide Since;
    NumberedPrefix(history, live);
    SinceExact(history, maxSize, from);
    var i :| 0 <= i < |history| && history[i] == e;
    if Since(history, maxSize, from).Some? {
      assert history[from..][i - from] == e;
    } else {
      assert ReloadAt(|history|) in HandedOver(history, maxSize, from);
    }
  }
}
