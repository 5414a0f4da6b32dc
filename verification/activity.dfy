/** The five-slot ring counters of sync activity, against the full log of what was recorded. */
module Activity {
  import opened Registry

  const WINDOW := 5

  // One recorded fact: an accepted event, or an executed batch with its size.
  datatype Entry = Entry(minute: int, events: nat, batches: nat, synced: nat)

  datatype Figure = Events | Batches | Synced

  function Of(e: Entry, figure: Figure): nat {
    match figure
    case Events => e.events
    case Batches => e.batches
    case Synced => e.synced
  }

  /** The sum of one figure over the entries of the minutes lo to hi. */
  function Total(log: seq<Entry>, figure: Figure, lo: int, hi: int): nat {
    if log == [] then 0
    else Total(log[..|log| - 1], figure, lo, hi) +
         (if lo <= log[|log| - 1].minute <= hi then Of(log[|log| - 1], figure) else 0)
  }

  /** The latest minute up to `now` that uses slot i. */
  function MinuteOf(now: int, i: int): int { now - (now - i) % WINDOW }

  // How many minutes after `last + 1` slot i comes into use.
  function Offset(last: int, i: int): int { (i - last - 1) % WINDOW }

  ghost predicate Holds(slots: seq<nat>, log: seq<Entry>, figure: Figure, now: int) {
    |slots| == WINDOW &&
    forall i :: 0 <= i < WINDOW ==> slots[i] == Total(log, figure, MinuteOf(now, i), MinuteOf(now, i))
  }

  ghost predicate UpTo(log: seq<Entry>, now: int) { forall e :: e in log ==> e.minute <= now }

  lemma {:induction false} NothingLater(log: seq<Entry>, figure: Figure, now: int, lo: int, hi: int)
    requires UpTo(log, now) && now < lo
    ensures Total(log, figure, lo, hi) == 0
    decreases |log|
  {
    if log != [] {
      assert log[|log| - 1] in log;
      NothingLater(log[..|log| - 1], figure, now, lo, hi);
    }
  }

  lemma {:induction false} TotalSplit(log: seq<Entry>, figure: Figure, lo: int, mid: int, hi: int)
    requires lo <= mid + 1 <= hi + 1
    ensures Total(log, figure, lo, hi) == Total(log, figure, lo, mid) + Total(log, figure, mid + 1, hi)
    decreases |log|
  {
    if log != [] { TotalSplit(log[..|log| - 1], figure, lo, mid, hi); }
  }

  lemma TotalAppend(log: seq<Entry>, e: Entry, figure: Figure, lo: int, hi: int)
    ensures Total(log + [e], figure, lo, hi) ==
            Total(log, figure, lo, hi) + if lo <= e.minute <= hi then Of(e, figure) else 0
  {
    assert (log + [e])[..|log|] == log;
  }

  /** Slots going stale between two minutes: those whose offset after `last` is below the elapsed minutes. */
  lemma StaleSlot(last: int, now: int, i: int)
    requires last <= now && 0 <= i < WINDOW
    ensures MinuteOf(now, i) > last <==> Offset(last, i) < now - last
    ensures MinuteOf(now, i) <= last ==> MinuteOf(now, i) == MinuteOf(last, i)
  {
    var d := Offset(last, i);
    var m := MinuteOf(now, i);
    assert (m - (last + 1 + d)) % WINDOW == 0;
  }

  lemma SlotOf(last: int, step: int, i: int)
    requires 1 <= step <= WINDOW && 0 <= i < WINDOW
    ensures i == (last + step) % WINDOW <==> Offset(last, i) == step - 1
  {
  }

  /** The slots after rolling hold the totals of the new window. */
  lemma Rolled(before: seq<nat>, after: seq<nat>, log: seq<Entry>, figure: Figure, last: int, now: int)
    requires Holds(before, log, figure, last) && UpTo(log, last) && last <= now && |after| == WINDOW
    requires forall i :: 0 <= i < WINDOW ==> after[i] == if Offset(last, i) < now - last then 0 else before[i]
    ensures Holds(after, log, figure, now)
  {
    forall i | 0 <= i < WINDOW ensures after[i] == Total(log, figure, MinuteOf(now, i), MinuteOf(now, i)) {
      StaleSlot(last, now, i);
      if MinuteOf(now, i) > last { NothingLater(log, figure, last, MinuteOf(now, i), MinuteOf(now, i)); }
    }
  }

  // The latest minute the counters have seen.
  function Clock(seen: Option<int>, now: int): int { if seen.Some? && seen.value > now then seen.value else now }

  /** The minute a record counts for: the current one, or, when the clock has been set back, the minute of
      the tracked window that shares its slot. */
  function Counted(seen: Option<int>, now: int): int { MinuteOf(Clock(seen, now), now % WINDOW) }

  lemma CountedNow(seen: Option<int>, now: int)
    ensures (seen.Some? ==> seen.value <= now) ==> Counted(seen, now) == now
    ensures Clock(seen, now) - 4 <= Counted(seen, now) <= Clock(seen, now)
    ensures Counted(seen, now) % WINDOW == now % WINDOW
  {
  }

  lemma Recorded(before: seq<nat>, log: seq<Entry>, figure: Figure, e: Entry, now: int)
    requires Holds(before, log, figure, now) && now - 4 <= e.minute <= now
    ensures 0 <= e.minute % WINDOW < |before|
    ensures Holds(before[e.minute % WINDOW := before[e.minute % WINDOW] + Of(e, figure)], log + [e], figure, now)
  {
    forall i | 0 <= i < WINDOW
      ensures Total(log + [e], figure, MinuteOf(now, i), MinuteOf(now, i)) ==
              Total(log, figure, MinuteOf(now, i), MinuteOf(now, i)) +
              if i == e.minute % WINDOW then Of(e, figure) else 0
    {
      TotalAppend(log, e, figure, MinuteOf(now, i), MinuteOf(now, i));
      SlotOfMinute(now, e.minute, i);
    }
  }

  lemma SlotOfMinute(now: int, minute: int, i: int)
    requires 0 <= i < WINDOW && now - 4 <= minute <= now
    ensures minute == MinuteOf(now, i) <==> i == minute % WINDOW
  {
  }

  function Sum(slots: seq<nat>): nat { if slots == [] then 0 else Sum(slots[..|slots| - 1]) + slots[|slots| - 1] }

  lemma SumOfFive(s: seq<nat>)
    requires |s| == 5
    ensures Sum(s) == s[0] + s[1] + s[2] + s[3] + s[4]
  {
    var a, b, c, d := s[..4], s[..3], s[..2], s[..1];
    assert a[..3] == b && b[..2] == c && c[..1] == d && d[..0] == [];
    assert Sum(s) == Sum(a) + s[4] && Sum(a) == Sum(b) + s[3] && Sum(b) == Sum(c) + s[2] && Sum(c) == Sum(d) + s[1];
    assert Sum(d) == Sum(d[..0]) + s[0] && Sum(d[..0]) == 0;
  }

  function At(log: seq<Entry>, figure: Figure, minute: int): nat { Total(log, figure, minute, minute) }

  lemma FiveMinutes(log: seq<Entry>, figure: Figure, now: int)
    ensures Total(log, figure, now - 4, now) ==
            At(log, figure, now - 4) + At(log, figure, now - 3) + At(log, figure, now - 2) +
            At(log, figure, now - 1) + At(log, figure, now)
  {
    TotalSplit(log, figure, now - 4, now - 4, now);
    TotalSplit(log, figure, now - 3, now - 3, now);
    TotalSplit(log, figure, now - 2, now - 2, now);
    TotalSplit(log, figure, now - 1, now - 1, now);
  }

  lemma SlotIs(slots: seq<nat>, log: seq<Entry>, figure: Figure, now: int, i: int)
    requires Holds(slots, log, figure, now) && 0 <= i < WINDOW
    ensures var r := now % 5; slots[i] == At(log, figure, if i <= r then now - r + i else now - r + i - 5)
  {
    MinuteIs(now, i);
  }

  /** The five slots together are the current minute and the four before it. */
  lemma WindowSum(slots: seq<nat>, log: seq<Entry>, figure: Figure, now: int)
    requires Holds(slots, log, figure, now)
    ensures Sum(slots) == Total(log, figure, now - 4, now)
  {
    hide At, Holds, MinuteOf;
    assert |slots| == WINDOW by { HoldsFive(slots, log, figure, now); }
    SumOfFive(slots);
    FiveMinutes(log, figure, now);
    SlotIs(slots, log, figure, now, 0);
    SlotIs(slots, log, figure, now, 1);
    SlotIs(slots, log, figure, now, 2);
    SlotIs(slots, log, figure, now, 3);
    SlotIs(slots, log, figure, now, 4);
  }

  lemma HoldsFive(slots: seq<nat>, log: seq<Entry>, figure: Figure, now: int)
    requires Holds(slots, log, figure, now)
    ensures |slots| == WINDOW
  {
  }

  lemma MinuteIs(now: int, i: int)
    requires 0 <= i < WINDOW
    ensures var r := now % 5; MinuteOf(now, i) == if i <= r then now - r + i else now - r + i - 5
  {
  }

  lemma ZeroNext(slots: seq<nat>, before: seq<nat>, last: int, step: int)
    requires 1 <= step <= WINDOW && Zeroed(slots, before, last, step - 1)
    ensures Zeroed(slots[(last + step) % WINDOW := 0], before, last, step)
  {
    var idx := (last + step) % WINDOW;
    forall i | 0 <= i < WINDOW ensures slots[idx := 0][i] == if Offset(last, i) < step then 0 else before[i] {
      SlotOf(last, step, i);
    }
  }

  class SyncActivity {
    var minute: Option<int>
    const eventBuckets: array<nat>
    const batchBuckets: array<nat>
    const syncedBuckets: array<nat>
    ghost var log: seq<Entry>

    ghost predicate Valid()
      reads this, eventBuckets, batchBuckets, syncedBuckets
    {
      eventBuckets != batchBuckets && eventBuckets != syncedBuckets && batchBuckets != syncedBuckets &&
      eventBuckets.Length == batchBuckets.Length == syncedBuckets.Length == WINDOW &&
      if minute.None? then
        log == [] && forall i :: 0 <= i < WINDOW ==> eventBuckets[i] == batchBuckets[i] == syncedBuckets[i] == 0
      else HoldsAll(eventBuckets[..], batchBuckets[..], syncedBuckets[..], log, minute.value)
    }

    constructor ()
      ensures Valid() && log == [] && minute == None
      ensures fresh(eventBuckets) && fresh(batchBuckets) && fresh(syncedBuckets)
    {
      eventBuckets := new nat[WINDOW](i => 0);
      batchBuckets := new nat[WINDOW](i => 0);
      syncedBuckets := new nat[WINDOW](i => 0);
      minute, log := None, [];
    }

    /** `_activity_roll`. */
    method Roll(now: int)
      requires Valid()
      modifies this`minute, eventBuckets, batchBuckets, syncedBuckets
      ensures Valid() && minute == Some(Clock(old(minute), now))
    {
      if minute.None? {
        minute := Some(now);
        assert HoldsAll(eventBuckets[..], batchBuckets[..], syncedBuckets[..], log, now);
        return;
      }
      var last := minute.value;
      var elapsed := now - last;
      if elapsed <= 0 { return; }
      ghost var e0, b0, s0 := eventBuckets[..], batchBuckets[..], syncedBuckets[..];
      var steps := if elapsed < WINDOW then elapsed else WINDOW;
      for step := 1 to steps + 1
        invariant Zeroed(eventBuckets[..], e0, last, step - 1)
        invariant Zeroed(batchBuckets[..], b0, last, step - 1)
        invariant Zeroed(syncedBuckets[..], s0, last, step - 1)
      {
        ZeroNext(eventBuckets[..], e0, last, step);
        ZeroNext(batchBuckets[..], b0, last, step);
        ZeroNext(syncedBuckets[..], s0, last, step);
        ghost var e1, b1, s1 := eventBuckets[..], batchBuckets[..], syncedBuckets[..];
        var idx := (last + step) % WINDOW;
        eventBuckets[idx] := 0;
        batchBuckets[idx] := 0;
        syncedBuckets[idx] := 0;
        assert eventBuckets[..] == e1[idx := 0] && batchBuckets[..] == b1[idx := 0];
        assert syncedBuckets[..] == s1[idx := 0];
      }
      Rolled(e0, eventBuckets[..], log, Events, last, now);
      Rolled(b0, batchBuckets[..], log, Batches, last, now);
      Rolled(s0, syncedBuckets[..], log, Synced, last, now);
      minute := Some(now);
    }

    method RecordEvent(now: int)
      requires Valid()
      modifies this, eventBuckets, batchBuckets, syncedBuckets
      ensures Valid() && minute == Some(Clock(old(minute), now))
      ensures log == old(log) + [Entry(Counted(old(minute), now), 1, 0, 0)]
    {
      hide HoldsAll, Counted, Clock;
      ghost var e := Entry(Counted(minute, now), 1, 0, 0);
      CountedNow(minute, now);
      Roll(now);
      var idx := now % WINDOW;
      ghost var e0, b0, s0 := eventBuckets[..], batchBuckets[..], syncedBuckets[..];
      RecordedAll(e0, b0, s0, log, e, minute.value, idx);
      eventBuckets[idx] := eventBuckets[idx] + 1;
      assert eventBuckets[..] == e0[idx := e0[idx] + 1];
      assert batchBuckets[..] == b0 == b0[idx := b0[idx] + 0] && syncedBuckets[..] == s0 == s0[idx := s0[idx] + 0];
      log := log + [e];
    }

    method RecordBatch(now: int, size: nat)
      requires Valid()
      modifies this, eventBuckets, batchBuckets, syncedBuckets
      ensures Valid() && minute == Some(Clock(old(minute), now))
      ensures log == old(log) + [Entry(Counted(old(minute), now), 0, 1, size)]
    {
      hide HoldsAll, Counted, Clock;
      ghost var e := Entry(Counted(minute, now), 0, 1, size);
      CountedNow(minute, now);
      Roll(now);
      var idx := now % WINDOW;
      ghost var e0, b0, s0 := eventBuckets[..], batchBuckets[..], syncedBuckets[..];
      RecordedAll(e0, b0, s0, log, e, minute.value, idx);
      batchBuckets[idx] := batchBuckets[idx] + 1;
      syncedBuckets[idx] := syncedBuckets[idx] + size;
      assert eventBuckets[..] == e0 == e0[idx := e0[idx] + 0];
      assert batchBuckets[..] == b0[idx := b0[idx] + 1] && syncedBuckets[..] == s0[idx := s0[idx] + size];
      log := log + [e];
    }

    /** What is published is the totals of the current minute and the four before it, also after an idle
        gap; under a clock set back, of the window last seen. */
    method Publish(now: int) returns (events: nat, batches: nat, averageSize: real)
      requires Valid()
      modifies this`minute, eventBuckets, batchBuckets, syncedBuckets
      ensures Valid() && minute == Some(Clock(old(minute), now))
      ensures events == Total(log, Events, minute.value - 4, minute.value)
      ensures batches == Total(log, Batches, minute.value - 4, minute.value)
      ensures averageSize == if batches == 0 then 0.0
                             else Total(log, Synced, minute.value - 4, minute.value) as real / batches as real
    {
      Roll(now);
      WindowSum(eventBuckets[..], log, Events, minute.value);
      WindowSum(batchBuckets[..], log, Batches, minute.value);
      WindowSum(syncedBuckets[..], log, Synced, minute.value);
      events := SumOf(eventBuckets);
      batches := SumOf(batchBuckets);
      var synced := SumOf(syncedBuckets);
      averageSize := if batches == 0 then 0.0 else synced as real / batches as real;
    }
  }

  ghost predicate HoldsAll(events: seq<nat>, batches: seq<nat>, synced: seq<nat>, log: seq<Entry>, now: int) {
    UpTo(log, now) && Holds(events, log, Events, now) && Holds(batches, log, Batches, now) &&
    Holds(synced, log, Synced, now)
  }

  ghost predicate Zeroed(slots: seq<nat>, before: seq<nat>, last: int, steps: int) {
    |slots| == |before| == WINDOW &&
    forall i :: 0 <= i < WINDOW ==> slots[i] == if Offset(last, i) < steps then 0 else before[i]
  }

  lemma RecordedAll(events: seq<nat>, batches: seq<nat>, synced: seq<nat>, log: seq<Entry>, e: Entry,
                    now: int, idx: nat)
    requires HoldsAll(events, batches, synced, log, now) && now - 4 <= e.minute <= now && idx == e.minute % WINDOW
    ensures idx < |events| == |batches| == |synced| == WINDOW
    ensures HoldsAll(events[idx := events[idx] + e.events], batches[idx := batches[idx] + e.batches],
                     synced[idx := synced[idx] + e.synced], log + [e], now)
  {
    HoldsFive(events, log, Events, now);
    HoldsFive(batches, log, Batches, now);
    HoldsFive(synced, log, Synced, now);
    Recorded(events, log, Events, e, now);
    Recorded(batches, log, Batches, e, now);
    Recorded(synced, log, Synced, e, now);
    hide Holds;
  }

  method SumOf(a: array<nat>) returns (total: nat)
    ensures total == Sum(a[..])
  {
    total := 0;
    var i := 0;
    while i < a.Length
      invariant 0 <= i <= a.Length && total == Sum(a[..i])
    {
      assert a[..i + 1][..i] == a[..i];
      total := total + a[i];
      i := i + 1;
    }
    assert a[..i] == a[..];
  }
}
