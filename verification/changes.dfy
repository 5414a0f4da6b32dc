/** The bounded revision log behind live graph updates, and what a new subscriber is handed. */
module Changes {
  import opened Registry
  import opened Sequences

  datatype Kind = Upsert | Remove | Reconcile

  // Property names only, never values.
  datatype Event = Event(revision: nat, kind: Kind, nodeIds: seq<string>, relIds: seq<string>, props: seq<string>)

  /** Revisions count the events published so far. */
  ghost predicate Numbered(history: seq<Event>) {
    forall i :: 0 <= i < |history| ==> history[i].revision == i + 1
  }

  /** What a deque bounded to `maxSize` keeps of everything appended to it. */
  function Retained(history: seq<Event>, maxSize: nat): seq<Event> {
    history[|history| - Min(|history|, maxSize)..]
  }

  function After(events: seq<Event>, revision: int): seq<Event> {
    if events == [] then []
    else (if events[0].revision > revision then [events[0]] else []) + After(events[1..], revision)
  }

  /** What `events_since` answers, in terms of the whole history. */
  function Since(history: seq<Event>, maxSize: nat, revision: int): Option<seq<Event>> {
    var kept := Retained(history, maxSize);
    if revision > |history| then None
    else if kept == [] then Some([])
    else if revision < kept[0].revision - 1 then None
    else Some(After(kept, revision))
  }

  function ReloadAt(revision: nat): Event { Event(revision, Reconcile, [], [], []) }

  /** What a new subscriber is sent before the live events: its replay, or a request to reload. */
  function HandedOver(history: seq<Event>, maxSize: nat, from: int): seq<Event> {
    var replay := Since(history, maxSize, from);
    if replay.Some? then replay.value else [ReloadAt(|history|)]
  }

  lemma {:induction false} AfterIsSuffix(events: seq<Event>, first: nat, revision: int)
    requires forall i :: 0 <= i < |events| ==> events[i].revision == first + i
    requires first - 1 <= revision <= first - 1 + |events|
    ensures After(events, revision) == events[revision - first + 1..]
    decreases |events|
  {
    if events != [] {
      if revision == first - 1 {
        AfterAll(events, first, revision);
      } else {
        AfterIsSuffix(events[1..], first + 1, revision);
      }
    }
  }

  lemma {:induction false} AfterAll(events: seq<Event>, first: nat, revision: int)
    requires forall i :: 0 <= i < |events| ==> events[i].revision == first + i
    requires revision < first
    ensures After(events, revision) == events
    decreases |events|
  {
    if events != [] { AfterAll(events[1..], first + 1, revision); }
  }

  /** With a buffer of at least one event, a subscriber is told to reload exactly when it asks for a
      future revision or for one older than the retained events reach; otherwise it is handed exactly
      the events above its revision, in order. */
  lemma SinceExact(history: seq<Event>, maxSize: nat, revision: nat)
    requires Numbered(history) && maxSize >= 1
    ensures Since(history, maxSize, revision).None? <==>
              revision > |history| || revision < |history| - |Retained(history, maxSize)|
    ensures Since(history, maxSize, revision).Some? ==> Since(history, maxSize, revision).value == history[revision..]
  {
    var kept := Retained(history, maxSize);
    var first := |history| - |kept| + 1;
    if kept != [] && first - 1 <= revision <= |history| {
      AfterIsSuffix(kept, first, revision);
      assert kept[revision - first + 1..] == history[revision..];
    }
  }

  /** Replay followed by the live events is the events above `from`: no gap and no duplicate. */
  lemma ReplayThenLive(history: seq<Event>, live: seq<Event>, maxSize: nat, from: nat)
    requires Numbered(history + live) && maxSize >= 1
    ensures Since(history, maxSize, from).Some? ==>
              var handed := Since(history, maxSize, from).value + live;
              handed == (history + live)[from..] &&
              forall e :: e in handed <==> e in history + live && e.revision > from
  {
    NumberedPrefix(history, live);
    SinceExact(history, maxSize, from);
    hide Since, Numbered;
    if Since(history, maxSize, from).Some? {
      assert from <= |history|;
      assert history[from..] + live == (history + live)[from..];
      AboveIs(history + live, from);
    }
  }

  lemma NumberedPrefix(history: seq<Event>, live: seq<Event>)
    requires Numbered(history + live)
    ensures Numbered(history)
  {
    forall i | 0 <= i < |history| ensures history[i].revision == i + 1 { assert history[i] == (history + live)[i]; }
  }

  lemma AboveIs(all: seq<Event>, from: nat)
    requires Numbered(all) && from <= |all|
    ensures forall e :: e in all[from..] <==> e in all && e.revision > from
  {
    forall e | e in all && e.revision > from ensures e in all[from..] {
      var i :| 0 <= i < |all| && all[i] == e;
      assert all[from..][i - from] == e;
    }
  }

  /** The answer loses nothing: it asks for a reload, or holds every event above the revision, in order. */
  predicate Right(history: seq<Event>, maxSize: nat, revision: nat) {
    var answer := Since(history, maxSize, revision);
    answer.None? || (revision <= |history| && answer.value == history[revision..])
  }

  /** A buffer that can hold an event always answers rightly; one of size zero does exactly when nothing has been
      published above the revision. */
  lemma RightExactly(history: seq<Event>, maxSize: nat, revision: nat)
    requires Numbered(history)
    ensures Right(history, maxSize, revision) <==> maxSize >= 1 || revision >= |history|
  {
    if maxSize >= 1 { SinceExact(history, maxSize, revision); }
  }

  /** The shipped coordinator never makes a buffer of size zero. Such a buffer, asked from revision 0 after one
      event, answers with an empty replay instead of the event or a reload. */
  lemma ZeroSizedBufferLosesEvents(e: Event)
    requires e.revision == 1
    ensures Numbered([e]) && Since([e], 0, 0) == Some([]) && [e][0..] != []
  {
  }

  /** A snapshot records the revision before it reads the graph. A client that loads it and then
      subscribes from that revision is either told to reload or is handed every event published
      after the revision was recorded, so no change can fall between snapshot and subscription. */
  lemma SnapshotThenSubscribe(atSnapshot: seq<Event>, meanwhile: seq<Event>, live: seq<Event>, maxSize: nat)
    requires Numbered(atSnapshot + meanwhile + live) && maxSize >= 1
    ensures var history := atSnapshot + meanwhile;
            Since(history, maxSize, |atSnapshot|).Some? ==>
              Since(history, maxSize, |atSnapshot|).value + live == meanwhile + live
    ensures Since(atSnapshot + meanwhile, maxSize, |atSnapshot|).None? <==> |meanwhile| > maxSize
  {
    var history := atSnapshot + meanwhile;
    ReplayThenLive(history, live, maxSize, |atSnapshot|);
    assert (history + live)[|atSnapshot|..] == meanwhile + live;
    NumberedPrefix(history, live);
    SinceExact(history, maxSize, |atSnapshot|);
  }

  /** Appending to a bounded deque. */
  function Appended(events: seq<Event>, maxSize: nat, e: Event): seq<Event> {
    if |events| + 1 > maxSize then (events + [e])[1..] else events + [e]
  }

  lemma RetainedAppend(history: seq<Event>, maxSize: nat, e: Event)
    ensures Retained(history + [e], maxSize) == Appended(Retained(history, maxSize), maxSize, e)
  {
  }

  lemma NothingAfter(revision: int)
    ensures After([], revision) == []
  {
  }

  lemma AfterStep(events: seq<Event>, i: nat, revision: int)
    requires i < |events|
    ensures After(events[i..], revision) ==
            (if events[i].revision > revision then [events[i]] else []) + After(events[i + 1..], revision)
  {
    assert events[i..][1..] == events[i + 1..];
  }

  lemma NumberedAppend(history: seq<Event>, e: Event)
    requires Numbered(history) && e.revision == |history| + 1
    ensures Numbered(history + [e])
  {
  }

  // Every registered callback was handed what was published since it was registered.
  ghost predicate InStep(history: seq<Event>, delivered: map<string, seq<Event>>, joined: map<string, nat>) {
    forall id :: id in delivered ==> id in joined && joined[id] <= |history| && delivered[id] == history[joined[id]..]
  }

  function Deliver(delivered: map<string, seq<Event>>, e: Event): map<string, seq<Event>> {
    map id | id in delivered :: delivered[id] + [e]
  }

  lemma DeliveredAppend(history: seq<Event>, delivered: map<string, seq<Event>>, joined: map<string, nat>, e: Event)
    requires InStep(history, delivered, joined)
    ensures InStep(history + [e], Deliver(delivered, e), joined) && Deliver(delivered, e).Keys == delivered.Keys
  {
    forall id | id in delivered ensures delivered[id] + [e] == (history + [e])[joined[id]..] { }
  }

  class GraphChangeBuffer {
    const maxSize: nat
    var revision: nat
    var events: seq<Event>
    // What each registered callback has been invoked with.
    var delivered: map<string, seq<Event>>
    ghost var history: seq<Event>
    ghost var joined: map<string, nat>  // history length when the callback was registered

    ghost predicate Valid() reads this {
      revision == |history| && Numbered(history) && events == Retained(history, maxSize) &&
      delivered.Keys == joined.Keys &&
      InStep(history, delivered, joined)
    }

    constructor (maxSize: nat)
      ensures Valid() && this.maxSize == maxSize && history == [] && delivered == map[]
    {
      this.maxSize := maxSize;
      revision, events, delivered, history, joined := 0, [], map[], [], map[];
    }

    // `deque.append`.
    method Append(event: Event)
      modifies this`events
      ensures events == Appended(old(events), maxSize, event)
    {
      events := events + [event];
      if |events| > maxSize { events := events[1..]; }
    }

    method Publish(kind: Kind, nodeIds: seq<string>, relIds: seq<string>, props: seq<string>) returns (event: Event)
      requires Valid()
      modifies this
      ensures Valid() && joined == old(joined)
      ensures event == Event(|old(history)| + 1, kind, nodeIds, relIds, props)
      ensures history == old(history) + [event]
    {
      event := Event(revision + 1, kind, nodeIds, relIds, props);
      RetainedAppend(history, maxSize, event);
      DeliveredAppend(history, delivered, joined, event);
      NumberedAppend(history, event);
      hide Numbered, Retained, InStep, Deliver, Appended;
      revision := revision + 1;
      Append(event);
      delivered := Deliver(delivered, event);
      history := history + [event];
    }

    method EventsSince(from: int) returns (replay: Option<seq<Event>>)
      requires Valid()
      ensures replay == Since(history, maxSize, from)
    {
      hide Numbered, InStep, Retained, After;
      NothingAfter(from);
      if from > revision { return None; }
      if events == [] { return Some([]); }
      if from < events[0].revision - 1 { return None; }
      var result := [];
      var i := 0;
      while i < |events|
        invariant 0 <= i <= |events|
        invariant result + After(events[i..], from) == After(events, from)
      {
        AfterStep(events, i, from);
        if events[i].revision > from { result := result + [events[i]]; }
        i := i + 1;
      }
      assert events[i..] == [] && result + [] == result;
      return Some(result);
    }

    /** The first half of `_handle_graph_subscribe`, which runs without yielding: the replay is sent, or a
        request to reload at the current revision; then the callback is registered. */
    method SubscribeFrom(id: string, from: nat) returns (sent: seq<Event>)
      requires Valid() && id !in delivered
      modifies this`delivered, this`joined
      ensures Valid() && history == old(history)
      ensures sent == HandedOver(history, maxSize, from)
      ensures maxSize >= 1 ==>
                sent == if from > |history| || from < |history| - |events| then [ReloadAt(|history|)]
                        else history[from..]
      ensures joined == old(joined)[id := |history|] && delivered == old(delivered)[id := []]
    {
      hide Since, Numbered, InStep;
      if maxSize >= 1 { SinceExact(history, maxSize, from); }
      var replay := EventsSince(from);
      if replay.None? {
        sent := [ReloadAt(revision)];
      } else {
        sent := [];
        var i := 0;
        while i < |replay.value|
          invariant 0 <= i <= |replay.value| && sent == replay.value[..i]
        {
          sent := sent + [replay.value[i]];
          i := i + 1;
        }
      }
      Register(id);
    }

    method Register(id: string)
      requires Valid() && id !in delivered
      modifies this`delivered, this`joined
      ensures Valid() && joined == old(joined)[id := |history|] && delivered == old(delivered)[id := []]
    {
      hide Numbered, Retained;
      delivered := delivered[id := []];
      joined := joined[id := |history|];
    }

    method Unsubscribe(id: string)
      requires Valid()
      modifies this`delivered, this`joined
      ensures Valid() && delivered == old(delivered) - {id} && joined == old(joined) - {id}
    {
      delivered := delivered - {id};
      joined := joined - {id};
    }
  }
}
