/** The lock protocol of the coordinator: service calls, which may be rejected, and incremental updates,
    which always wait, share one FIFO lock. A state machine over the points where a task can be suspended. */
module Serialization {

  // One call of `_run_serialized` (service) or `_run_incremental`.
  datatype Call = Call(id: nat, service: bool)

  datatype State = State(locked: bool, waiting: bool, queue: seq<Call>, active: set<Call>,
                         arrivals: nat, admitted: seq<Call>, started: seq<Call>,
                          finished: seq<Call>, cancelled: set<Call>)

  const IDLE := State(false, false, [], {}, 0, [], [], [], {})

  // `Resume` is the head waiter, woken by a release, getting to run; until then the lock is free but not
  // available to newcomers. `Finish` covers a body that raises or is cancelled.
  datatype Event = Arrive(service: bool) | Resume | Finish(call: Call) | Cancel(index: nat)

  predicate Rejects(s: State, service: bool) { service && s.locked && s.waiting }

  ghost predicate Can(s: State, e: Event) {
    match e
    case Arrive(_) => true
    case Resume => !s.locked && s.queue != []
    case Finish(c) => c in s.active
    case Cancel(i) => i < |s.queue|
  }

  function Enter(s: State, c: Call): State {
    s.(locked := true, waiting := s.waiting && !c.service, active := s.active + {c}, started := s.started + [c])
  }

  function Step(s: State, e: Event): State {
    match e
    case Arrive(service) =>
      if Rejects(s, service) then s.(arrivals := s.arrivals + 1)
      else
        var c := Call(s.arrivals, service);
        var t := s.(arrivals := s.arrivals + 1, admitted := s.admitted + [c],
                    waiting := s.waiting || (service && s.locked));
        if !t.locked && t.queue == [] then Enter(t, c) else t.(queue := t.queue + [c])
    case Resume => if s.queue == [] then s else Enter(s.(queue := s.queue[1..]), s.queue[0])
    case Finish(c) =>
      s.(locked := false, waiting := s.waiting && !c.service, active := s.active - {c}, finished := s.finished + [c])
    case Cancel(i) =>
      if i >= |s.queue| then s
      else s.(queue := s.queue[..i] + s.queue[i + 1..], waiting := s.waiting && !s.queue[i].service,
              cancelled := s.cancelled + {s.queue[i]})
  }

  function Run(s: State, es: seq<Event>): State
    decreases |es|
  {
    if es == [] then s else Run(Step(s, es[0]), es[1..])
  }

  ghost predicate Legal(s: State, es: seq<Event>)
    decreases |es|
  {
    es == [] || (Can(s, es[0]) && Legal(Step(s, es[0]), es[1..]))
  }

  function Without(calls: seq<Call>, gone: set<Call>): seq<Call> {
    if calls == [] then []
    else Without(calls[..|calls| - 1], gone) + (if calls[|calls| - 1] in gone then [] else [calls[|calls| - 1]])
  }

  lemma WithoutOne(c: Call, gone: set<Call>)
    ensures Without([c], gone) == if c in gone then [] else [c]
  {
    assert [c][..0] == [];
  }

  lemma {:induction false} WithoutAppend(a: seq<Call>, b: seq<Call>, gone: set<Call>)
    ensures Without(a + b, gone) == Without(a, gone) + Without(b, gone)
    decreases |b|
  {
    if b == [] {
      assert a + b == a;
    } else {
      assert (a + b)[..|a + b| - 1] == a + b[..|b| - 1];
      WithoutAppend(a, b[..|b| - 1], gone);
    }
  }

  lemma {:induction false} WithoutNone(a: seq<Call>, gone: set<Call>)
    requires forall c :: c in a ==> c !in gone
    ensures Without(a, gone) == a
    decreases |a|
  {
    if a != [] { WithoutNone(a[..|a| - 1], gone); }
  }

  lemma {:induction false} WithoutTwice(a: seq<Call>, gone: set<Call>, more: set<Call>)
    requires gone <= more
    ensures Without(Without(a, gone), more) == Without(a, more)
    decreases |a|
  {
    if a != [] {
      var last := [a[|a| - 1]];
      WithoutTwice(a[..|a| - 1], gone, more);
      WithoutAppend(Without(a[..|a| - 1], gone), Without(last, gone), more);
      WithoutOne(last[0], gone);
      WithoutOne(last[0], more);
    }
  }

  // ---- Invariants ---------------------------------------------------------------------------

  ghost predicate Ids(calls: seq<Call>, bound: nat) {
    (forall i :: 0 <= i < |calls| ==> calls[i].id < bound) &&
    forall i, j :: 0 <= i < j < |calls| ==> calls[i].id != calls[j].id
  }

  // At most one body runs, exactly while the lock is held; calls finish in the order they start.
  ghost predicate Mutex(s: State) {
    (s.locked <==> s.active != {}) && (forall a, b :: a in s.active && b in s.active ==> a == b) &&
    if s.active == {} then s.finished == s.started
    else s.started != [] && s.started[|s.started| - 1] in s.active && s.finished == s.started[..|s.started| - 1]
  }

  // Calls start in the order of admission, cancelled ones left out.
  ghost predicate Fifo(s: State) {
    s.started + s.queue == Without(s.admitted, s.cancelled) && Ids(s.started + s.queue, s.arrivals) &&
    (forall c :: c in s.started + s.queue ==> c !in s.cancelled) && forall c :: c in s.cancelled ==> c.id < s.arrivals
  }

  // The flag is up only while a service call is queued.
  ghost predicate Flag(s: State) { s.waiting ==> exists c :: c in s.queue && c.service }

  ghost predicate Inv(s: State) { Mutex(s) && Fifo(s) && Flag(s) }

  lemma StepMutex(s: State, e: Event)
    requires Mutex(s) && Can(s, e)
    ensures Mutex(Step(s, e))
  {
  }

  lemma StepFlag(s: State, e: Event)
    requires Flag(s) && Mutex(s) && Can(s, e)
    ensures Flag(Step(s, e))
  {
    var t := Step(s, e);
    if t.waiting {
      match e
      case Arrive(service) =>
        if !Rejects(s, service) && service && s.locked {
          assert t.queue[|t.queue| - 1] == Call(s.arrivals, true);
        } else {
          var c :| c in s.queue && c.service;
          assert c in t.queue;
        }
      case Resume =>
        var c :| c in s.queue && c.service;
        assert c in t.queue;
      case Finish(_) =>
      case Cancel(i) =>
        var c :| c in s.queue && c.service;
        assert c != s.queue[i];
        assert c in t.queue;
    }
  }

  lemma IdsAppend(calls: seq<Call>, c: Call)
    requires Ids(calls, c.id)
    ensures Ids(calls + [c], c.id + 1) && c !in calls
  {
  }

  lemma IdsRemove(before: seq<Call>, c: Call, after: seq<Call>, bound: nat)
    requires Ids(before + [c] + after, bound)
    ensures Ids(before + after, bound) && c !in before && c !in after
    ensures c.id < bound && forall x :: x in before + after ==> x in before + [c] + after
  {
    var all := before + [c] + after;
    assert all[|before|] == c;
    forall k | 0 <= k < |before| ensures before[k] != c && before[k].id < bound { assert all[k] == before[k]; }
    forall k | 0 <= k < |after| ensures after[k] != c && after[k].id < bound {
      assert all[|before| + 1 + k] == after[k];
    }
    forall k, l | 0 <= k < l < |before + after| ensures (before + after)[k].id != (before + after)[l].id {
      var k1, l1 := if k < |before| then k else k + 1, if l < |before| then l else l + 1;
      assert all[k1] == (before + after)[k] && all[l1] == (before + after)[l];
    }
  }

  lemma ArriveFifo(s: State, service: bool)
    requires Fifo(s)
    ensures Fifo(Step(s, Arrive(service)))
  {
    hide Ids, Without;
    var all := s.started + s.queue;
    var t, c := Step(s, Arrive(service)), Call(s.arrivals, service);
    IdsAppend(all, c);
    IdsGrow(all, s.arrivals);
    if !Rejects(s, service) {
      WithoutAppend(s.admitted, [c], s.cancelled);
      WithoutOne(c, s.cancelled);
      assert t.started + t.queue == all + [c];
    }
  }

  lemma IdsGrow(calls: seq<Call>, bound: nat)
    requires Ids(calls, bound)
    ensures Ids(calls, bound + 1)
  {
  }

  lemma WithoutCancelled(before: seq<Call>, c: Call, after: seq<Call>, gone: set<Call>)
    requires c !in before && c !in after && forall x :: x in before + after ==> x !in gone
    ensures Without(before + [c] + after, gone + {c}) == before + after
  {
    hide Without;
    var more := gone + {c};
    WithoutAppend(before + [c], after, more);
    WithoutAppend(before, [c], more);
    WithoutOne(c, more);
    forall x | x in before || x in after ensures x !in more { assert x in before + after; }
    WithoutNone(before, more);
    WithoutNone(after, more);
  }

  lemma CancelFifo(s: State, i: nat)
    requires Fifo(s) && i < |s.queue|
    ensures Fifo(Step(s, Cancel(i)))
  {
    hide Ids, Without;
    var t, c := Step(s, Cancel(i)), s.queue[i];
    var before, after := s.started + s.queue[..i], s.queue[i + 1..];
    assert s.started + s.queue == before + [c] + after;
    IdsRemove(before, c, after, s.arrivals);
    WithoutTwice(s.admitted, s.cancelled, t.cancelled);
    WithoutCancelled(before, c, after, s.cancelled);
    assert t.started + t.queue == before + after;
  }

  lemma StepFifo(s: State, e: Event)
    requires Fifo(s) && Can(s, e)
    ensures Fifo(Step(s, e))
  {
    match e
    case Arrive(service) => ArriveFifo(s, service);
    case Resume => assert Step(s, e).started + Step(s, e).queue == s.started + s.queue;
    case Finish(_) =>
    case Cancel(i) => CancelFifo(s, i);
  }

  ghost predicate Later(s: State, t: State) {
    s.started <= t.started && s.admitted <= t.admitted && s.cancelled <= t.cancelled && s.finished <= t.finished
  }

  lemma StepLater(s: State, e: Event)
    requires Mutex(s) && Can(s, e)
    ensures Later(s, Step(s, e))
  {
  }

  lemma LaterThen(s: State, t: State, u: State)
    requires Later(s, t) && Later(t, u)
    ensures Later(s, u)
  {
  }

  /** Every step from a good state leads to a good state, and history only grows. */
  lemma {:induction false} RunKeeps(s: State, es: seq<Event>)
    requires Inv(s) && Legal(s, es)
    ensures Inv(Run(s, es)) && Later(s, Run(s, es))
    decreases |es|
  {
    if es != [] {
      hide Mutex, Fifo, Flag, Step, Later;
      var t := Step(s, es[0]);
      StepMutex(s, es[0]);
      StepFlag(s, es[0]);
      StepFifo(s, es[0]);
      StepLater(s, es[0]);
      RunKeeps(t, es[1..]);
      LaterThen(s, t, Run(t, es[1..]));
    } else {
      assert Later(s, s);
    }
  }

  /** In every reachable state at most one body runs, and calls have started in the order of admission
      without the cancelled ones, and finished in the order they started. */
  lemma Reachable(es: seq<Event>)
    requires Legal(IDLE, es)
    ensures var s := Run(IDLE, es);
            |s.active| <= 1 && (s.locked <==> |s.active| == 1) &&
            s.started + s.queue == Without(s.admitted, s.cancelled) && s.finished <= s.started
  {
    RunKeeps(IDLE, es);
    var s := Run(IDLE, es);
    if s.active != {} {
      var a :| a in s.active;
      assert s.active == {a};
    }
  }

  /** A rejected call found the lock held and another service call queued. */
  lemma RejectionIsSound(es: seq<Event>, service: bool)
    requires Legal(IDLE, es) && Rejects(Run(IDLE, es), service)
    ensures var s := Run(IDLE, es); service && |s.active| == 1 && exists c :: c in s.queue && c.service
  {
    RunKeeps(IDLE, es);
    Reachable(es);
  }

  // A service call entering, finishing or being cancelled takes the flag down.
  predicate Clears(s: State, e: Event) {
    match e
    case Arrive(service) => service && !s.locked && s.queue == []
    case Resume => s.queue != [] && s.queue[0].service
    case Finish(c) => c.service
    case Cancel(i) => i < |s.queue| && s.queue[i].service
  }

  /** The k-th event was a service call that found the lock held, and no service call has entered, finished
      or been cancelled since. */
  ghost predicate RaisedAt(es: seq<Event>, k: nat) {
    k < |es| && es[k] == Arrive(true) && Run(IDLE, es[..k]).locked &&
    forall j :: k < j < |es| ==> !Clears(Run(IDLE, es[..j]), es[j])
  }

  lemma {:induction false} RunSnoc(s: State, es: seq<Event>)
    requires es != []
    ensures Run(s, es) == Step(Run(s, es[..|es| - 1]), es[|es| - 1])
    decreases |es|
  {
    hide Step;
    if |es| > 1 {
      assert es[1..][..|es| - 2] == es[..|es| - 1][1..];
      RunSnoc(Step(s, es[0]), es[1..]);
    } else {
      assert es[1..] == [] && es[..0] == [];
    }
  }

  lemma FlagStep(s: State, e: Event)
    ensures Step(s, e).waiting <==> (e == Arrive(true) && s.locked) || (s.waiting && !Clears(s, e))
  {
  }

  /** A service call is rejected exactly when the lock is held and, since some service call last found it
      held, no service call has entered, finished or been cancelled. */
  lemma RejectedExactly(es: seq<Event>)
    ensures Rejects(Run(IDLE, es), true) <==> Run(IDLE, es).locked && exists k :: RaisedAt(es, k)
  {
    FlagExactly(es);
  }

  lemma {:induction false} FlagExactly(es: seq<Event>)
    ensures Run(IDLE, es).waiting <==> exists k :: RaisedAt(es, k)
    decreases |es|
  {
    if es != [] {
      hide Step, Clears, Run;
      var front, last := es[..|es| - 1], es[|es| - 1];
      FlagExactly(front);
      RunSnoc(IDLE, es);
      FlagStep(Run(IDLE, front), last);
      assert forall k :: 0 <= k < |es| ==> es[..k] == front[..k];
      forall k: nat | k < |front| ensures RaisedAt(es, k) <==> RaisedAt(front, k) && !Clears(Run(IDLE, front), last) {
        assert es[..|front|] == front;
      }
      assert RaisedAt(es, |front|) <==> last == Arrive(true) && Run(IDLE, front).locked;
    }
  }

  lemma PrefixReaches(all: seq<Call>, started: seq<Call>, front: seq<Call>, c: Call, back: seq<Call>)
    requires started <= all && all == front + [c] + back && c in started
    requires forall i, j :: 0 <= i < j < |all| ==> all[i].id != all[j].id
    ensures front + [c] <= started
  {
    var k :| 0 <= k < |started| && started[k] == c;
    assert all[k] == c && all[|front|] == c;
    assert k == |front|;
  }

  // What has started or will, seen from an earlier state.
  lemma Schedule(s: State, t: State)
    requires Fifo(s) && Fifo(t) && Later(s, t)
    ensures t.started + t.queue ==
            s.started + Without(s.queue, t.cancelled) + Without(t.admitted[|s.admitted|..], t.cancelled)
  {
    hide Without, Ids;
    var newcomers := t.admitted[|s.admitted|..];
    assert t.admitted == s.admitted + newcomers;
    WithoutAppend(s.admitted, newcomers, t.cancelled);
    WithoutTwice(s.admitted, s.cancelled, t.cancelled);
    WithoutAppend(s.started, s.queue, t.cancelled);
    forall x | x in s.started ensures x !in t.cancelled { assert x in t.started + t.queue; }
    WithoutNone(s.started, t.cancelled);
  }

  lemma WithoutAround(queue: seq<Call>, p: nat, gone: set<Call>)
    requires p < |queue| && queue[p] !in gone
    ensures Without(queue, gone) == Without(queue[..p], gone) + [queue[p]] + Without(queue[p + 1..], gone)
  {
    hide Without;
    var c, back := queue[p], queue[p + 1..];
    assert queue == queue[..p] + [c] + back;
    WithoutAppend(queue[..p] + [c], back, gone);
    WithoutAppend(queue[..p], [c], gone);
    WithoutOne(c, gone);
  }

  /** A queued call starts right after exactly those ahead of it that have not been cancelled, in their
      order, and all of them have finished by then. */
  lemma TurnComes(s: State, es: seq<Event>, p: nat)
    requires Inv(s) && Legal(s, es) && p < |s.queue| && s.queue[p] in Run(s, es).started
    ensures var t := Run(s, es); var ahead := s.started + Without(s.queue[..p], t.cancelled);
            ahead + [s.queue[p]] <= t.started && (|t.started| == |ahead| + 1 ==> ahead <= t.finished)
  {
    hide Without, Legal, Step, Run;
    var t, c := Run(s, es), s.queue[p];
    RunKeeps(s, es);
    Schedule(s, t);
    assert c in t.started + t.queue;
    WithoutAround(s.queue, p, t.cancelled);
    var ahead := s.started + Without(s.queue[..p], t.cancelled);
    var back := Without(s.queue[p + 1..], t.cancelled) + Without(t.admitted[|s.admitted|..], t.cancelled);
    assert t.started + t.queue == ahead + [c] + back;
    PrefixReaches(t.started + t.queue, t.started, ahead, c, back);
  }

  // ---- What the flag does not guarantee ----------------------------------------------------------

  function Arrivals(n: nat): seq<Event> { seq(n, i => Arrive(true)) }

  lemma {:induction false} Pile(s: State, n: nat)
    requires !s.locked && !s.waiting && s.queue != []
    ensures Legal(s, Arrivals(n))
    ensures var t := Run(s, Arrivals(n));
            |t.queue| == |s.queue| + n && t.queue[..|s.queue|] == s.queue &&
            forall i :: |s.queue| <= i < |t.queue| ==> t.queue[i].service
    decreases n
  {
    if n > 0 {
      assert Arrivals(n)[1..] == Arrivals(n - 1);
      var t := Step(s, Arrive(true));
      Pile(t, n - 1);
      var u := Run(t, Arrivals(n - 1));
      assert u.queue[..|s.queue|] == u.queue[..|t.queue|][..|s.queue|];
      assert u.queue[|s.queue|] == u.queue[..|t.queue|][|s.queue|];
    }
  }

  /** The one-deep pending slot is not kept: when a service call finishes, the lock is free and the flag
      down until the queued call gets to run, and every service call arriving in between is queued as well. */
  lemma AnyNumberCanQueue(n: nat)
    ensures var es := [Arrive(true), Arrive(true), Finish(Call(0, true))] + Arrivals(n);
            Legal(IDLE, es) && |Run(IDLE, es).queue| == n + 1 && forall c :: c in Run(IDLE, es).queue ==> c.service
  {
    var s1 := Step(IDLE, Arrive(true));
    var s2 := Step(s1, Arrive(true));
    var s3 := Step(s2, Finish(Call(0, true)));
    var es := [Arrive(true), Arrive(true), Finish(Call(0, true))] + Arrivals(n);
    assert es[1..] == [Arrive(true), Finish(Call(0, true))] + Arrivals(n);
    assert es[1..][1..] == [Finish(Call(0, true))] + Arrivals(n);
    assert es[1..][1..][1..] == Arrivals(n);
    assert s3.queue == [Call(1, true)];
    Pile(s3, n);
    var t := Run(s3, Arrivals(n));
    assert Run(s2, es[1..][1..]) == t && Run(s1, es[1..]) == t;
    forall c | c in t.queue ensures c.service {
      var i :| 0 <= i < |t.queue| && t.queue[i] == c;
      if i < 1 { assert t.queue[..1][0] == Call(1, true); }
    }
  }

  // ---- When the slot is one deep ------------------------------------------------------------------

  predicate ServiceQueued(s: State) { exists c :: c in s.queue && c.service }

  /** At most one service call is queued. */
  ghost predicate OneDeep(s: State) {
    forall i, j :: 0 <= i < j < |s.queue| ==> !(s.queue[i].service && s.queue[j].service)
  }

  /** A service call is let in while another one is queued. */
  predicate Overfills(s: State, e: Event) { e == Arrive(true) && ServiceQueued(s) && !Rejects(s, true) }

  lemma ArrivalOverfills(s: State)
    requires OneDeep(s) && !Rejects(s, true)
    ensures OneDeep(Step(s, Arrive(true))) <==> !ServiceQueued(s)
  {
    var t := Step(s, Arrive(true));
    if ServiceQueued(s) {
      var c :| c in s.queue && c.service;
      var i :| 0 <= i < |s.queue| && s.queue[i] == c;
      assert t.queue[i].service && t.queue[|s.queue|].service;
    } else {
      forall i | 0 <= i < |s.queue| ensures !s.queue[i].service { assert s.queue[i] in s.queue; }
    }
  }

  /** One step fills the slot twice exactly when it lets a service call in while another one is queued. */
  lemma OneDeepStep(s: State, e: Event)
    requires OneDeep(s)
    ensures OneDeep(Step(s, e)) <==> !Overfills(s, e)
  {
    hide ServiceQueued;
    if e == Arrive(true) && !Rejects(s, true) { ArrivalOverfills(s); }
  }

  /** The slot is one deep after every event, before the first included. */
  ghost predicate KeepsSlot(es: seq<Event>) { forall k :: 0 <= k <= |es| ==> OneDeep(Run(IDLE, es[..k])) }

  /** The slot is kept throughout a run exactly when every service call that arrives while another one is queued
      finds the lock held and, since some service call last found it held, no service call has entered, finished
      or been cancelled. */
  lemma SlotKeptExactly(es: seq<Event>)
    ensures KeepsSlot(es) <==>
              forall k :: 0 <= k < |es| && es[k] == Arrive(true) && ServiceQueued(Run(IDLE, es[..k])) ==>
                Run(IDLE, es[..k]).locked && exists j :: RaisedAt(es[..k], j)
  {
    hide Run, ServiceQueued, RaisedAt, OneDeep;
    SlotKept(es);
    forall k | 0 <= k < |es|
      ensures Overfills(Run(IDLE, es[..k]), es[k]) <==>
                es[k] == Arrive(true) && ServiceQueued(Run(IDLE, es[..k])) &&
                !(Run(IDLE, es[..k]).locked && exists j :: RaisedAt(es[..k], j))
    {
      RejectedExactly(es[..k]);
    }
  }

  lemma {:induction false} SlotKept(es: seq<Event>)
    ensures KeepsSlot(es) <==> forall k :: 0 <= k < |es| ==> !Overfills(Run(IDLE, es[..k]), es[k])
    decreases |es|
  {
    hide Run, Overfills, OneDeep, Step;
    if es == [] {
      NoneQueued();
      assert es[..0] == [];
    } else {
      var front, last := es[..|es| - 1], es[|es| - 1];
      SlotKept(front);
      RunSnoc(IDLE, es);
      assert forall k :: 0 <= k <= |front| ==> es[..k] == front[..k];
      assert es[..|front|] == front && front[..|front|] == front && es[..|es|] == es;
      if OneDeep(Run(IDLE, front)) { OneDeepStep(Run(IDLE, front), last); }
      if KeepsSlot(es) {
        forall k | 0 <= k <= |front| ensures OneDeep(Run(IDLE, front[..k])) { assert es[..k] == front[..k]; }
      }
      if KeepsSlot(front) { assert OneDeep(Run(IDLE, front[..|front|])); }
      assert KeepsSlot(es) <==> KeepsSlot(front) && OneDeep(Run(IDLE, es));
    }
  }

  lemma NoneQueued()
    ensures OneDeep(Run(IDLE, []))
  {
  }

  // ---- The coordinator's fields ------------------------------------------------------------------

  class Coordinator {
    var locked: bool         // asyncio.Lock, with its waiters in `queue`
    var queue: seq<Call>
    var waiting: bool        // `_waiting`
    ghost var view: State

    ghost predicate Valid() reads this {
      Inv(view) && view.locked == locked && view.queue == queue && view.waiting == waiting
    }

    constructor ()
      ensures Valid() && view == IDLE
    {
      locked, queue, waiting, view := false, [], false, IDLE;
    }

    // `async with self._lock`, as far as it goes without suspending.
    method Acquire(call: Call) returns (entered: bool)
      modifies this`locked, this`queue
      ensures entered == (!old(locked) && old(queue) == [])
      ensures locked == (old(locked) || entered)
      ensures queue == if entered then old(queue) else old(queue) + [call]
    {
      entered := !locked && queue == [];
      if entered { locked := true; } else { queue := queue + [call]; }
    }

    /** `_run_serialized`, up to its first suspension; false when OperationInProgress is raised. */
    method RunSerialized(id: nat) returns (admitted: bool)
      requires Valid() && id == view.arrivals
      modifies this
      ensures Valid() && view == Step(old(view), Arrive(true)) && admitted == !Rejects(old(view), true)
    {
      StepAll(view, Arrive(true));
      view := Step(view, Arrive(true));
      if locked {
        if waiting { return false; }
        waiting := true;
      }
      var entered := Acquire(Call(id, true));
      if entered { waiting := false; }
      return true;
    }

    /** `_run_incremental`, up to its first suspension. */
    method RunIncremental(id: nat)
      requires Valid() && id == view.arrivals
      modifies this
      ensures Valid() && view == Step(old(view), Arrive(false))
    {
      StepAll(view, Arrive(false));
      view := Step(view, Arrive(false));
      var _ := Acquire(Call(id, false));
    }

    /** The woken head waiter takes the lock and starts its body. */
    method ResumeHead() returns (call: Call)
      requires Valid() && !locked && queue != []
      modifies this
      ensures Valid() && view == Step(old(view), Resume) && call == old(queue)[0]
    {
      StepAll(view, Resume);
      view := Step(view, Resume);
      call := queue[0];
      queue, locked := queue[1..], true;
      if call.service { waiting := false; }
    }

    /** A body ends, normally or not: the lock is released and `finally` runs. */
    method FinishBody(call: Call)
      requires Valid() && call in view.active
      modifies this
      ensures Valid() && view == Step(old(view), Finish(call))
    {
      StepAll(view, Finish(call));
      view := Step(view, Finish(call));
      locked := false;
      if call.service { waiting := false; }
    }

    /** A queued call is cancelled; its `finally` runs too. */
    method CancelQueued(i: nat)
      requires Valid() && i < |queue|
      modifies this
      ensures Valid() && view == Step(old(view), Cancel(i))
    {
      StepAll(view, Cancel(i));
      view := Step(view, Cancel(i));
      if queue[i].service { waiting := false; }
      queue := queue[..i] + queue[i + 1..];
    }
  }

  lemma StepAll(s: State, e: Event)
    requires Inv(s) && Can(s, e)
    ensures Inv(Step(s, e))
  {
    StepMutex(s, e);
    StepFlag(s, e);
    StepFifo(s, e);
  }
}
