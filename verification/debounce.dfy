/** `StateChangeDebouncer`: which state changes are accepted, and how they are grouped into timed batches. */
module Debounce {
  import opened Registry

  // A `state_changed` event; either state may be missing.
  datatype Change = Change(entity: Option<string>, before: Option<State>, after: Option<State>)

  datatype Attribute = FriendlyName | DeviceClass | UnitOfMeasurement

  function Shown(s: State, a: Attribute): Option<string> {
    match a
    case FriendlyName => s.friendly
    case DeviceClass => s.deviceClass
    case UnitOfMeasurement => s.unit
  }

  function Changed(before: State, after: State): set<Attribute> {
    set a: Attribute | a in {FriendlyName, DeviceClass, UnitOfMeasurement} && Shown(before, a) != Shown(after, a)
  }

  /** What the listener keeps of a change, if anything. */
  function Accept(c: Change, excluded: set<string>, domains: set<string>): Option<Context> {
    if c.entity.None? || c.after.None? then None
    else if c.entity.value in excluded || DomainOf(c.entity.value) in domains then None
    else if c.before.Some? && c.before.value.text == c.after.value.text then
      var changed := Changed(c.before.value, c.after.value);
      if changed == {} then None
      else if changed == {FriendlyName} then Some(Context(c.after.value, c.before.value.updated))
      else Some(Context(c.after.value, c.after.value.updated))
    else Some(Context(c.after.value, c.after.value.updated))
  }

  /** The entity is configured to be ignored: itself, or the part of its identifier before the first full stop. */
  ghost predicate Ignored(e: string, excluded: set<string>, domains: set<string>) {
    e in excluded || exists d :: d in domains && BeforeDot(e, d)
  }

  /** Accepted are the changes, of entities that are not ignored, that could alter the entity's node: a new state, or
      one whose text, name, class or unit differs. The measurement keeps its earlier time exactly when nothing it
      depends on changed. */
  lemma AcceptedWhenRelevant(c: Change, excluded: set<string>, domains: set<string>)
    ensures var got := Accept(c, excluded, domains);
            if c.entity.None? || c.after.None? || Ignored(c.entity.value, excluded, domains) then got.None?
            else
              var a := c.after.value;
              var measurementSame := c.before.Some? && c.before.value.text == a.text &&
                                     c.before.value.deviceClass == a.deviceClass && c.before.value.unit == a.unit;
              (got.None? <==> measurementSame && c.before.value.friendly == a.friendly) &&
              (got.Some? ==> got.value.state == a &&
                             got.value.measured == if measurementSame then c.before.value.updated else a.updated)
  {
    if c.entity.Some? { IgnoredIs(c.entity.value, excluded, domains); }
    hide DomainOf, Ignored;
    if c.before.Some? && c.after.Some? {
      var changed := Changed(c.before.value, c.after.value);
      assert FriendlyName in changed <==> c.before.value.friendly != c.after.value.friendly;
      assert DeviceClass in changed <==> c.before.value.deviceClass != c.after.value.deviceClass;
      assert UnitOfMeasurement in changed <==> c.before.value.unit != c.after.value.unit;
    }
  }

  lemma IgnoredIs(e: string, excluded: set<string>, domains: set<string>)
    ensures Ignored(e, excluded, domains) <==> e in excluded || DomainOf(e) in domains
  {
    DomainIs(e);
    hide DomainOf, BeforeDot;
  }

  // ---- Batches ------------------------------------------------------------------------

  datatype Accepted = Accepted(entity: string, context: Context, at: real)

  function LastOf(events: seq<Accepted>): map<string, Context> {
    if events == [] then map[]
    else LastOf(events[..|events| - 1])[events[|events| - 1].entity := events[|events| - 1].context]
  }

  /** Event i is the last one of its entity, and carries this context. */
  ghost predicate LastOccurrence(events: seq<Accepted>, i: nat, e: string, context: Context) {
    i < |events| && events[i].entity == e && events[i].context == context &&
    forall j :: i < j < |events| ==> events[j].entity != e
  }

  // What a batch holds for an entity occurred, and not later again.
  lemma {:induction false} LastOfOccurred(events: seq<Accepted>, e: string) returns (i: nat)
    requires e in LastOf(events)
    ensures LastOccurrence(events, i, e, LastOf(events)[e])
    decreases |events|
  {
    var front, last := events[..|events| - 1], events[|events| - 1];
    if last.entity == e {
      i := |front|;
    } else {
      i := LastOfOccurred(front, e);
      assert forall j :: 0 <= j < |front| ==> events[j] == front[j];
    }
  }

  // The last occurrence of an entity is what a batch holds for it.
  lemma {:induction false} OccurrenceIsHeld(events: seq<Accepted>, i: nat, e: string, context: Context)
    requires LastOccurrence(events, i, e, context)
    ensures e in LastOf(events) && LastOf(events)[e] == context
    decreases |events|
  {
    var front, last := events[..|events| - 1], events[|events| - 1];
    if i < |front| {
      assert last.entity != e;
      assert forall j :: 0 <= j < |front| ==> events[j] == front[j];
      OccurrenceIsHeld(front, i, e, context);
    }
  }

  /** A batch holds each entity of its window once, with its last accepted context. */
  lemma LastOfIsLast(events: seq<Accepted>, e: string, context: Context)
    ensures e in LastOf(events) && LastOf(events)[e] == context <==>
              exists i: nat :: LastOccurrence(events, i, e, context)
  {
    if e in LastOf(events) && LastOf(events)[e] == context {
      var i := LastOfOccurred(events, e);
    }
    if i: nat :| LastOccurrence(events, i, e, context) {
      OccurrenceIsHeld(events, i, e, context);
    }
  }

  // One closed window: the accepted events lo to hi, armed with `delay`, closed at `at` by the timer
  // (`fired`) or by cancellation.
  datatype Window = Window(lo: nat, hi: nat, delay: real, at: real, fired: bool, batch: map<string, Context>)

  function StartOf(windows: seq<Window>): nat { if windows == [] then 0 else windows[|windows| - 1].hi }

  ghost predicate Sorted(accepted: seq<Accepted>, now: real) {
    (forall i, j :: 0 <= i < j < |accepted| ==> accepted[i].at <= accepted[j].at) &&
    forall i :: 0 <= i < |accepted| ==> accepted[i].at <= now
  }

  ghost predicate WindowOk(w: Window, start: nat, accepted: seq<Accepted>) {
    w.lo == start && w.lo < w.hi <= |accepted| && accepted[w.lo].at <= w.at &&
    (w.fired ==> w.batch == LastOf(accepted[w.lo..w.hi]) && accepted[w.lo].at + w.delay <= w.at)
  }

  /** The closed windows cut the accepted events, without gap or overlap, up to where the open one starts;
      no window opens before the one before it has closed. */
  ghost predicate Cut(windows: seq<Window>, accepted: seq<Accepted>)
    decreases |windows|
  {
    windows == [] ||
    var front, last := windows[..|windows| - 1], windows[|windows| - 1];
    Cut(front, accepted) && WindowOk(last, StartOf(front), accepted) &&
    (front != [] ==> front[|front| - 1].at <= accepted[last.lo].at)
  }

  lemma {:induction false} CutGrows(windows: seq<Window>, accepted: seq<Accepted>, more: Accepted)
    requires Cut(windows, accepted)
    ensures Cut(windows, accepted + [more])
    decreases |windows|
  {
    if windows != [] {
      CutGrows(windows[..|windows| - 1], accepted, more);
      var w := windows[|windows| - 1];
      assert (accepted + [more])[w.lo..w.hi] == accepted[w.lo..w.hi];
    }
  }

  lemma CutAppend(windows: seq<Window>, w: Window, accepted: seq<Accepted>)
    requires Cut(windows, accepted) && WindowOk(w, StartOf(windows), accepted)
    requires windows != [] ==> windows[|windows| - 1].at <= accepted[w.lo].at
    ensures Cut(windows + [w], accepted)
  {
    assert (windows + [w])[..|windows|] == windows;
  }

  // The timer is armed exactly when something is pending; pending is the open window's batch.
  ghost predicate Grouped(timer: Option<real>, pending: map<string, Context>, now: real, accepted: seq<Accepted>,
                          windows: seq<Window>, delay: real)
  {
    Cut(windows, accepted) && Sorted(accepted, now) && (timer.Some? <==> pending != map[]) &&
    var start := StartOf(windows);
    start <= |accepted| && pending == LastOf(accepted[start..]) && (pending == map[] <==> start == |accepted|) &&
    (timer.Some? ==> timer.value == accepted[start].at + delay) &&
    (windows != [] ==> windows[|windows| - 1].at <= now &&
                       (start < |accepted| ==> windows[|windows| - 1].at <= accepted[start].at))
  }

  lemma LastOfGrows(accepted: seq<Accepted>, start: nat, a: Accepted)
    requires start <= |accepted|
    ensures LastOf((accepted + [a])[start..]) == LastOf(accepted[start..])[a.entity := a.context]
  {
    var open := accepted[start..];
    assert (accepted + [a])[start..] == open + [a];
    assert (open + [a])[..|open|] == open;
  }

  lemma SortedGrows(accepted: seq<Accepted>, now: real, a: Accepted)
    requires Sorted(accepted, now) && now <= a.at
    ensures Sorted(accepted + [a], a.at)
  {
  }

  lemma AcceptOne(timer: Option<real>, pending: map<string, Context>, now: real, accepted: seq<Accepted>,
                  windows: seq<Window>, delay: real, a: Accepted, seconds: real)
    requires Grouped(timer, pending, now, accepted, windows, delay) && now <= a.at
    ensures var armed := if pending == map[] then Some(a.at + seconds) else timer;
            var length := if pending == map[] then seconds else delay;
            Grouped(armed, pending[a.entity := a.context], a.at, accepted + [a], windows, length)
  {
    hide Cut, Sorted, LastOf;
    SortedGrows(accepted, now, a);
    CutGrows(windows, accepted, a);
    LastOfGrows(accepted, StartOf(windows), a);
    assert a.entity in pending[a.entity := a.context];
  }

  lemma TimePasses(timer: Option<real>, pending: map<string, Context>, now: real, later: real, accepted: seq<Accepted>,
                   windows: seq<Window>, delay: real)
    requires Grouped(timer, pending, now, accepted, windows, delay) && now <= later
    ensures Grouped(timer, pending, later, accepted, windows, delay)
  {
  }

  lemma KeptHasEntity(c: Change, excluded: set<string>, domains: set<string>)
    ensures Accept(c, excluded, domains).Some? ==> c.entity.Some?
  {
  }

  class StateChangeDebouncer {
    var timer: Option<real>  // when the armed timer is due
    var pending: map<string, Context>
    ghost var now: real
    ghost var accepted: seq<Accepted>
    ghost var windows: seq<Window>
    ghost var delay: real    // the armed window's length

    ghost predicate Valid() reads this { Grouped(timer, pending, now, accepted, windows, delay) }

    constructor (start: real)
      ensures Valid() && accepted == [] && windows == [] && now == start
    {
      timer, pending, now, accepted, windows, delay := None, map[], start, [], [], 0.0;
    }

    /** `async_handle_state_changed`: the first accepted change of a window arms the timer, later ones
        only replace what is kept for their entity. */
    method HandleStateChanged(c: Change, excluded: set<string>, domains: set<string>, time: real, seconds: real)
      requires Valid() && now <= time
      modifies this
      ensures Valid() && now == time && windows == old(windows)
      ensures accepted == old(accepted) + (if Accept(c, excluded, domains).None? then []
                                           else [Accepted(c.entity.value, Accept(c, excluded, domains).value, time)])
      ensures old(timer).Some? ==> timer == old(timer)
      ensures old(timer).None? && timer.Some? ==> timer == Some(time + seconds) && delay == seconds
    {
      hide Accept, Cut, Changed, Shown, LastOf, Sorted;
      var kept := Accept(c, excluded, domains);
      if kept.None? {
        TimePasses(timer, pending, now, time, accepted, windows, delay);
        now := time;
        return;
      }
      assert c.entity.Some? by { KeptHasEntity(c, excluded, domains); }
      ghost var a := Accepted(c.entity.value, kept.value, time);
      AcceptOne(timer, pending, now, accepted, windows, delay, a, seconds);
      now := time;
      var wasEmpty := pending == map[];
      pending := pending[c.entity.value := kept.value];
      accepted := accepted + [a];
      if wasEmpty {
        timer := Some(time + seconds);
        delay := seconds;
      }
    }

    /** `_fire`, run by the event loop once the timer is due: the window is handed over as one batch. */
    method Fire(time: real) returns (batch: map<string, Context>)
      requires Valid() && now <= time && timer.Some? && timer.value <= time
      modifies this
      ensures Valid() && now == time && accepted == old(accepted) && timer == None && pending == map[]
      ensures windows == old(windows) + [Window(StartOf(old(windows)), |accepted|, old(delay), time, true, batch)]
      ensures batch == LastOf(accepted[StartOf(old(windows))..]) && batch != map[]
    {
      timer := None;
      batch := pending;
      pending := map[];
      Close(time, true, batch);
    }

    /** `async_cancel_all`: what is pending is dropped. */
    method CancelAll(time: real)
      requires Valid() && now <= time
      modifies this
      ensures Valid() && now == time && accepted == old(accepted) && timer == None && pending == map[]
      ensures windows == old(windows) + if old(timer).None? then []
                else [Window(StartOf(old(windows)), |accepted|, old(delay), time, false, map[])]
    {
      if timer.Some? {
        timer := None;
        pending := map[];
        Close(time, false, map[]);
      } else {
        now := time;
      }
    }

    // Moves the open window to the closed ones.
    ghost method Close(time: real, fired: bool, batch: map<string, Context>)
      requires Cut(windows, accepted) && Sorted(accepted, now) && now <= time && timer.None? && pending == map[]
      requires StartOf(windows) < |accepted|
      requires fired ==> batch == LastOf(accepted[StartOf(windows)..]) && accepted[StartOf(windows)].at + delay <= time
      requires windows != [] ==> windows[|windows| - 1].at <= accepted[StartOf(windows)].at
      modifies this`now, this`windows
      ensures Valid() && now == time
      ensures windows == old(windows) + [Window(StartOf(old(windows)), |accepted|, delay, time, fired, batch)]
    {
      var start := StartOf(windows);
      var w := Window(start, |accepted|, delay, time, fired, batch);
      assert accepted[start..] == accepted[start..|accepted|];
      CutAppend(windows, w, accepted);
      windows := windows + [w];
      now := time;
      assert accepted[|accepted|..] == [];
    }
  }

  // ---- What that means --------------------------------------------------------------------

  /** Every accepted event is in exactly one closed window or in the open one. */
  lemma {:induction false} ExactlyOneWindow(windows: seq<Window>, accepted: seq<Accepted>, i: nat)
    requires Cut(windows, accepted) && i < |accepted|
    ensures i >= StartOf(windows) <==> forall k :: 0 <= k < |windows| ==> !(windows[k].lo <= i < windows[k].hi)
    ensures forall k, l :: 0 <= k < l < |windows| ==> windows[k].hi <= windows[l].lo
    ensures forall k :: 0 <= k < |windows| ==> windows[k].hi <= StartOf(windows)
    decreases |windows|
  {
    if windows != [] {
      var front, last := windows[..|windows| - 1], windows[|windows| - 1];
      hide Cut;
      assert Cut(front, accepted) && last.lo == StartOf(front) && last.lo < last.hi;
      ExactlyOneWindow(front, accepted, i);
      assert forall k :: 0 <= k < |front| ==> windows[k] == front[k];
      if last.lo <= i < last.hi {
        assert windows[|front|].lo <= i < windows[|front|].hi;
      } else if i < last.lo {
        var k :| 0 <= k < |front| && front[k].lo <= i < front[k].hi;
        assert windows[k] == front[k];
      }
    }
  }

  function FlushTimes(windows: seq<Window>): seq<real> {
    if windows == [] then []
    else FlushTimes(windows[..|windows| - 1]) +
         (if windows[|windows| - 1].fired then [windows[|windows| - 1].at] else [])
  }

  function InSpan(times: seq<real>, from: real, to: real): nat {
    if times == [] then 0
    else InSpan(times[..|times| - 1], from, to) + if from <= times[|times| - 1] <= to then 1 else 0
  }

  ghost predicate Spaced(times: seq<real>, w: real) {
    forall i, j :: 0 <= i < j < |times| ==> times[i] + w <= times[j]
  }

  lemma {:induction false} FlushesSpaced(windows: seq<Window>, accepted: seq<Accepted>, now: real, w: real)
    requires Cut(windows, accepted) && Sorted(accepted, now) && w >= 0.0
    requires forall k :: 0 <= k < |windows| ==> windows[k].delay >= w
    ensures Spaced(FlushTimes(windows), w)
    ensures forall t :: t in FlushTimes(windows) ==> windows != [] && t <= windows[|windows| - 1].at
    decreases |windows|
  {
    if windows != [] {
      var front, last := windows[..|windows| - 1], windows[|windows| - 1];
      forall k | 0 <= k < |front| ensures front[k].delay >= w { assert front[k] == windows[k]; }
      FlushesSpaced(front, accepted, now, w);
      assert windows[|front|] == last;
      var before, times := FlushTimes(front), FlushTimes(windows);
      forall t | t in before ensures t <= accepted[last.lo].at && t <= last.at { }
      forall i, j | 0 <= i < j < |times| ensures times[i] + w <= times[j] {
        if j == |before| { assert times[i] in before; }
      }
    }
  }

  function Times(n: nat, w: real): real { n as real * w }

  lemma OneMore(n: nat, w: real)
    ensures Times(n + 1, w) == Times(n, w) + w
    ensures Times(0, w) == 0.0
  {
  }

  lemma {:induction false} SpanBound(times: seq<real>, w: real, from: real, to: real)
    requires Spaced(times, w) && w > 0.0 && InSpan(times, from, to) > 0
    ensures Times(InSpan(times, from, to), w) <= to - from + w
    decreases |times|
  {
    hide Times;
    var front, last := times[..|times| - 1], times[|times| - 1];
    if from <= last <= to {
      var n := InSpan(front, from, to);
      SpanShrinks(front, from, last - w, to);
      if n > 0 { SpanBound(front, w, from, last - w); }
      OneMore(n, w);
    } else {
      SpanBound(front, w, from, to);
    }
  }

  lemma {:induction false} SpanShrinks(times: seq<real>, from: real, most: real, to: real)
    requires (forall i :: 0 <= i < |times| ==> times[i] <= most) && most <= to
    ensures InSpan(times, from, most) == InSpan(times, from, to)
    decreases |times|
  {
    if times != [] { SpanShrinks(times[..|times| - 1], from, most, to); }
  }

  /** With windows of at least w seconds, flushes are at least w apart, and any span of length L holds at
      most floor(L / w) + 1 of them. */
  lemma FlushRate(windows: seq<Window>, accepted: seq<Accepted>, now: real, w: real, from: real, length: real)
    requires Cut(windows, accepted) && Sorted(accepted, now) && w > 0.0 && length >= 0.0
    requires forall k :: 0 <= k < |windows| ==> windows[k].delay >= w
    ensures Spaced(FlushTimes(windows), w)
    ensures InSpan(FlushTimes(windows), from, from + length) <= (length / w).Floor + 1
  {
    FlushesSpaced(windows, accepted, now, w);
    var n := InSpan(FlushTimes(windows), from, from + length);
    if n > 0 {
      SpanBound(FlushTimes(windows), w, from, from + length);
      OneMore(n - 1, w);
      Divide(n - 1, w, length);
    } else {
      OneMore(0, w);
      Divide(0, w, length);
    }
  }

  lemma Divide(n: nat, w: real, length: real)
    requires w > 0.0 && Times(n, w) <= length
    ensures n <= (length / w).Floor
  {
    var q := length / w;
    assert q * w == length;
    CancelFactor(n as real, q, w);
  }

  lemma CancelFactor(a: real, b: real, w: real)
    requires w > 0.0 && a * w <= b * w
    ensures a <= b
  {
    assert (b - a) * w >= 0.0;
  }
}
