/** `_execute_entity_sync_batch`: the batched entity sync with its fault handling and change events. */
module Batch {
  import opened Graph
  import opened Registry
  import opened Semantics
  import opened Agreement
  import opened FastPath
  import opened Changes
  import opened Sequences

  /** At most one query raises, and it is one of the first `n`. */
  ghost predicate FaultOnlyWithin(faults: seq<Fault>, n: nat) {
    forall i :: 0 <= i < |faults| && !faults[i].Fine? ==> i < n && AllFine(faults[i + 1..])
  }

  lemma MatchWritesAppend(a: seq<string>, b: seq<string>, rows: Rows)
    requires forall id :: id in a + b ==> id in rows
    ensures forall id :: id in a || id in b ==> id in a + b
    ensures MatchWrites(a + b, rows) == MatchWrites(a, rows) + MatchWrites(b, rows)
  {
    assert forall id :: id in a || id in b ==> id in a + b;
  }

  lemma {:induction false} MatchKeepsNodes(g: G, ids: seq<string>, rows: Rows)
    requires forall id :: id in ids ==> id in rows
    ensures ExecAll(g, MatchWrites(ids, rows)).nodes.Keys == g.nodes.Keys
    decreases |ids|
  {
    if ids != [] {
      assert MatchWrites(ids, rows)[1..] == MatchWrites(ids[1..], rows);
      MatchKeepsNodes(Exec(g, MatchWrite(ids[0], rows[ids[0]])), ids[1..], rows);
    }
  }

  /** The ids among `ids` whose entity has a node. */
  function Present(g: G, ids: seq<string>): set<string> { set e | e in ids && EntityKey(e) in g.nodes }

  lemma PresentIs(g: G, ids: seq<string>)
    ensures forall e :: e in Present(g, ids) <==> e in ids && EntityKey(e) in g.nodes
  {
  }

  lemma PresentWith(g: G, a: seq<string>, b: seq<string>)
    ensures Present(g, a + b) == Present(g, a) + Present(g, b)
  {
  }

  // The queries of a bulk write, one per chunk.
  function BulkStmts(chunks: seq<seq<string>>, rows: Rows): seq<seq<Write>>
    requires forall c, id :: c in chunks && id in c ==> id in rows
  {
    if chunks == [] then [] else [MatchWrites(chunks[0], rows)] + BulkStmts(chunks[1..], rows)
  }

  lemma {:induction false} InConcat(chunks: seq<seq<string>>, c: seq<string>, id: string)
    requires c in chunks && id in c
    ensures id in Concat(chunks)
    decreases |chunks|
  {
    if c != chunks[0] { InConcat(chunks[1..], c, id); }
  }

  lemma ChunksHaveRows(ids: seq<string>, rows: Rows)
    requires forall id :: id in ids ==> id in rows
    ensures forall c, id :: c in Chunks(ids) && id in c ==> id in rows
  {
    ChunksCover(ids);
    forall c, id | c in Chunks(ids) && id in c ensures id in rows { InConcat(Chunks(ids), c, id); }
  }

  /** Some chunks of a bulk write are the rows of a prefix of its ids. */
  lemma {:induction false} BulkPrefix(chunks: seq<seq<string>>, rows: Rows, n: nat)
    requires (forall c, id :: c in chunks && id in c ==> id in rows) && n <= |chunks|
    ensures |BulkStmts(chunks, rows)| == |chunks|
    ensures Concat(chunks[..n]) <= Concat(chunks) && forall id :: id in Concat(chunks[..n]) ==> id in rows
    ensures Concat(BulkStmts(chunks, rows)[..n]) == MatchWrites(Concat(chunks[..n]), rows)
    decreases |chunks|
  {
    if chunks == [] || n == 0 {
      assert chunks[..n] == [] && BulkStmts(chunks, rows)[..n] == [];
      if chunks != [] { BulkPrefix(chunks[1..], rows, 0); }
    } else {
      BulkPrefix(chunks[1..], rows, n - 1);
      assert chunks[..n][1..] == chunks[1..][..n - 1];
      assert BulkStmts(chunks, rows)[..n][1..] == BulkStmts(chunks[1..], rows)[..n - 1];
      assert forall id :: id in chunks[0] ==> id in rows;
      MatchWritesAppend(chunks[0], Concat(chunks[1..][..n - 1]), rows);
    }
  }

  /** Whatever raises, a bulk write leaves the state-only write of a prefix of its ids, of all of them when
      nothing does. */
  lemma BulkLeaves(g: G, faults: seq<Fault>, ids: seq<string>, rows: Rows) returns (k: nat)
    requires forall id :: id in ids ==> id in rows
    ensures forall c, id :: c in Chunks(ids) && id in c ==> id in rows
    ensures var bulk := Play(g, faults, BulkStmts(Chunks(ids), rows));
            k <= |ids| && bulk.g == ExecAll(g, MatchWrites(ids[..k], rows)) && (bulk.ok ==> k == |ids|)
  {
    hide MatchWrites, Play, ExecAll, BulkStmts;
    ChunksHaveRows(ids, rows);
    ChunksCover(ids);
    var chunks := Chunks(ids);
    BulkPrefix(chunks, rows, 0);
    var n := PlayIsPrefix(g, faults, BulkStmts(chunks, rows));
    BulkPrefix(chunks, rows, n);
    k := |Concat(chunks[..n])|;
    assert ids[..k] == Concat(chunks[..n]);
    assert n == |chunks| ==> chunks[..n] == chunks;
  }

  /** With at most one query raising, and that among these, none raises afterwards. */
  lemma {:induction false} NoFaultLater(g: G, faults: seq<Fault>, stmts: seq<seq<Write>>)
    requires FaultOnlyWithin(faults, |stmts|)
    ensures AllFine(Play(g, faults, stmts).faults)
    decreases |stmts|
  {
    if stmts != [] && faults != [] {
      var first := PlayOne(g, faults, stmts[0]);
      if first.ok {
        forall i | 0 <= i < |first.faults| && !first.faults[i].Fine?
          ensures i < |stmts[1..]| && AllFine(first.faults[i + 1..])
        {
          assert faults[i + 1] == first.faults[i] && faults[i + 1 + 1..] == first.faults[i + 1..];
        }
        NoFaultLater(first.g, first.faults, stmts[1..]);
      } else {
        assert faults[0 + 1..] == first.faults;
      }
    } else {
      assert faults == [] || AllFine(faults);
      PlayFine(g, faults, stmts);
    }
  }

  /** ON-036's bulk write: one MATCH query per chunk, reporting the ids that had a node. When a chunk
      raises, the chunks before it, and possibly that chunk itself, took effect. */
  method UpdateEntityStatesBulk(client: Client, ids: seq<string>, rows: Rows) returns (ok: bool, updated: set<string>)
    requires forall id :: id in ids ==> id in rows
    modifies client
    ensures forall c, id :: c in Chunks(ids) && id in c ==> id in rows
    ensures Outcome(client.g, client.faults, ok) ==
            Play(old(client.g), old(client.faults), BulkStmts(Chunks(ids), rows))
    ensures ok ==> updated == Present(old(client.g), ids)
    ensures ok ==> forall e :: e in updated <==> e in ids && EntityKey(e) in old(client.g).nodes
  {
    hide MatchWrites, PlayOne, Present, Chunks, Concat, BulkStmts, ExecAll;
    var chunks := Chunks(ids);
    ChunksCover(ids);
    ChunksHaveRows(ids, rows);
    ghost var done: seq<string> := [];
    ok, updated := true, {};
    NonePresent(client.g);
    var i := 0;
    assert chunks[0..] == chunks;
    while i < |chunks|
      invariant 0 <= i <= |chunks| && ok && ids == done + Concat(chunks[i..])
      invariant forall c, id :: c in chunks[i..] && id in c ==> id in rows
      invariant Play(client.g, client.faults, BulkStmts(chunks[i..], rows)) ==
                Play(old(client.g), old(client.faults), BulkStmts(chunks, rows))
      invariant client.g.nodes.Keys == old(client.g).nodes.Keys && updated == Present(old(client.g), done)
    {
      ghost var rest := chunks[i..];
      assert rest[0] == chunks[i] && rest[1..] == chunks[i + 1..];
      RestHasRows(rest, rows);
      var present := Present(client.g, chunks[i]);
      SamePresent(client.g, old(client.g), chunks[i]);
      PresentWith(old(client.g), done, chunks[i]);
      MatchKeepsNodes(client.g, chunks[i], rows);
      BulkStmtsFirst(rest, rows);
      ConcatFirst(rest);
      Regroup(done, chunks[i], Concat(rest[1..]));
      ghost var before, fates := client.g, client.faults;
      ok := client.Run(MatchWrites(chunks[i], rows));
      if !ok { return; }
      OkRan(before, fates, MatchWrites(chunks[i], rows));
      updated := updated + present;
      done := done + chunks[i];
      i := i + 1;
    }
    ConcatNone();
    BulkStmtsNone(rows);
    assert chunks[i..] == [] && done + [] == done;
    PresentIs(old(client.g), ids);
  }

  lemma ConcatFirst(chunks: seq<seq<string>>)
    requires chunks != []
    ensures Concat(chunks) == chunks[0] + Concat(chunks[1..])
  {
  }

  lemma ConcatNone()
    ensures Concat<string>([]) == []
  {
  }

  lemma NonePresent(g: G)
    ensures Present(g, []) == {}
  {
  }

  lemma SamePresent(a: G, b: G, ids: seq<string>)
    requires a.nodes.Keys == b.nodes.Keys
    ensures Present(a, ids) == Present(b, ids)
  {
  }

  lemma BulkStmtsFirst(chunks: seq<seq<string>>, rows: Rows)
    requires chunks != [] && forall c, id :: c in chunks && id in c ==> id in rows
    ensures chunks[0] in chunks
    ensures BulkStmts(chunks, rows) == [MatchWrites(chunks[0], rows)] + BulkStmts(chunks[1..], rows)
  {
  }

  lemma BulkStmtsNone(rows: Rows)
    ensures BulkStmts([], rows) == []
  {
  }

  lemma RestHasRows(chunks: seq<seq<string>>, rows: Rows)
    requires chunks != [] && forall c, id :: c in chunks && id in c ==> id in rows
    ensures forall id :: id in chunks[0] ==> id in rows
    ensures forall c, id :: c in chunks[1..] && id in c ==> id in rows
  {
    assert chunks[0] in chunks;
  }

  lemma OkRan(g: G, faults: seq<Fault>, rows: seq<Write>)
    requires PlayOne(g, faults, rows).ok
    ensures PlayOne(g, faults, rows).g == ExecAll(g, rows)
  {
  }

  function Candidates(h: Hass, ids: seq<string>): seq<string> {
    if ids == [] then []
    else (if Candidate(h, ids[0]) then [ids[0]] else []) + Candidates(h, ids[1..])
  }

  lemma {:induction false} CandidatesOf(h: Hass, ids: seq<string>)
    requires Distinct(ids)
    ensures Distinct(Candidates(h, ids))
    ensures forall e :: e in Candidates(h, ids) <==> e in ids && Candidate(h, e)
    decreases |ids|
  {
    if ids != [] {
      assert ids[0] !in ids[1..];
      CandidatesOf(h, ids[1..]);
    }
  }

  lemma DistinctPrefix(ids: seq<string>, k: nat)
    requires Distinct(ids) && k <= |ids|
    ensures Distinct(ids[..k]) && Ids(ids[..k]) <= Ids(ids)
  {
    forall e | e in Ids(ids[..k]) ensures e in Ids(ids) { }
  }

  /** What the state-only bulk write of a batch leaves, and the ids it then reports. */
  function BulkRun(h: Hass, ids: seq<string>, cs: Contexts, g: G, faults: seq<Fault>): Outcome
    requires forall id :: id in ids ==> id in cs
  {
    CandidatesIn(h, ids);
    var candidates, rows := Candidates(h, ids), RowsOf(h, cs);
    ChunksHaveRows(candidates, rows);
    Play(g, faults, BulkStmts(Chunks(candidates), rows))
  }

  function Reported(h: Hass, ids: seq<string>, g: G, ok: bool): set<string> {
    if ok then Present(g, Candidates(h, ids)) else {}
  }

  lemma ReportedIs(h: Hass, ids: seq<string>, g: G)
    requires Distinct(ids)
    ensures forall e :: e in Reported(h, ids, g, true) <==>
              e in ids && e in h.states.items && EntityKey(e) in g.nodes &&
              !(e in h.entries.items && h.entries.items[e].platform == "ontology")
  {
    CandidatesOf(h, ids);
    PresentIs(g, Candidates(h, ids));
    hide Present, Candidates;
  }

  lemma {:induction false} CandidatesIn(h: Hass, ids: seq<string>)
    ensures forall e :: e in Candidates(h, ids) ==> e in ids && Candidate(h, e)
    decreases |ids|
  {
    if ids != [] { CandidatesIn(h, ids[1..]); }
  }

  /** `_write_state_only_updates`: no candidates, no query; a raising query makes it report nothing. */
  method WriteStateOnlyUpdates(client: Client, h: Hass, ids: seq<string>, cs: Contexts) returns (updated: set<string>)
    requires BatchOk(ids, cs)
    modifies client
    ensures var bulk := BulkRun(h, ids, cs, old(client.g), old(client.faults));
            client.g == bulk.g && client.faults == bulk.faults && updated == Reported(h, ids, old(client.g), bulk.ok)
    ensures var ok := BulkRun(h, ids, cs, old(client.g), old(client.faults)).ok;
            forall e :: e in updated <==>
              ok && e in ids && e in h.states.items && EntityKey(e) in old(client.g).nodes &&
              !(e in h.entries.items && h.entries.items[e].platform == "ontology")
  {
    CandidatesOf(h, ids);
    ReportedIs(h, ids, client.g);
    var candidates, rows := Candidates(h, ids), RowsOf(h, cs);
    CandidatesIn(h, ids);
    if candidates == [] {
      NonePresent(client.g);
      return {};
    }
    var ok, present := UpdateEntityStatesBulk(client, candidates, rows);
    updated := if ok then present else {};
  }

  /** Whatever raises, what was written is the state-only write of some of the candidates; the ids reported
      are among them and had a node. */
  lemma BulkWrites(h: Hass, ids: seq<string>, cs: Contexts, g: G, faults: seq<Fault>) returns (written: set<string>)
    requires BatchOk(ids, cs)
    ensures var bulk := BulkRun(h, ids, cs, g, faults);
            var updated := Reported(h, ids, g, bulk.ok);
            updated <= written <= Ids(ids) && (forall e :: e in written ==> Candidate(h, e)) &&
            (forall e :: e in updated ==> EntityKey(e) in g.nodes) &&
            bulk.g == Overlay(g, Patch(g, written, RowsOf(h, cs)))
  {
    hide MatchWrites, Play, BulkStmts, Patch, Overlay, Candidate;
    var candidates, rows := Candidates(h, ids), RowsOf(h, cs);
    CandidatesOf(h, ids);
    CandidatesIn(h, ids);
    var k := BulkLeaves(g, faults, candidates, rows);
    DistinctPrefix(candidates, k);
    written := Ids(candidates[..k]);
    BulkIsOverlay(g, candidates[..k], rows);
    assert k == |candidates| ==> candidates[..k] == candidates;
    BulkReports(h, ids, g, BulkRun(h, ids, cs, g, faults).ok);
  }

  lemma BulkReports(h: Hass, ids: seq<string>, g: G, ok: bool)
    ensures forall e :: e in Reported(h, ids, g, ok) ==> ok && e in Candidates(h, ids) && EntityKey(e) in g.nodes
  {
  }

  // ---- Change events ---------------------------------------------------------------

  function NodeId(e: string): string { "Entity:" + e }

  function ChangeOf(h: Hass, e: string, revision: nat): Event {
    if Gone(h, e) then Event(revision, Remove, [NodeId(e)], [], [])
    else Event(revision, Upsert, [NodeId(e)], [], ["state", "ha_id"])
  }

  /** The events a finished batch publishes: one per successful entity, in order. */
  function Announced(h: Hass, ids: seq<string>, results: map<string, bool>, revision: nat): seq<Event>
    requires forall e :: e in ids ==> e in results
  {
    if ids == [] then []
    else if results[ids[0]] then
      [ChangeOf(h, ids[0], revision + 1)] + Announced(h, ids[1..], results, revision + 1)
    else Announced(h, ids[1..], results, revision)
  }

  function Naming(events: seq<Event>, e: string): seq<Event> {
    if events == [] then []
    else (if NodeId(e) in events[0].nodeIds then [events[0]] else []) + Naming(events[1..], e)
  }

  lemma {:induction false} NotAnnounced(h: Hass, ids: seq<string>, results: map<string, bool>, revision: nat, e: string)
    requires (forall x :: x in ids ==> x in results) && e !in ids
    ensures Naming(Announced(h, ids, results, revision), e) == []
    decreases |ids|
  {
    if ids != [] {
      var rest := if results[ids[0]] then revision + 1 else revision;
      NotAnnounced(h, ids[1..], results, rest, e);
      assert NodeId(ids[0])[7..] == ids[0] && NodeId(e)[7..] == e;
      if results[ids[0]] {
        assert Announced(h, ids, results, revision)[1..] == Announced(h, ids[1..], results, rest);
      }
    }
  }

  /** An entity's result is success exactly when one event naming it was published, and it only: a removal
      when it is in neither the registry nor the state machine, else a change of its state; otherwise no event
      names it. */
  lemma {:induction false} SuccessIsOneEvent(h: Hass, ids: seq<string>, results: map<string, bool>, revision: nat,
                                             e: string)
    requires Distinct(ids) && (forall x :: x in ids ==> x in results) && e in ids
    ensures var named := Naming(Announced(h, ids, results, revision), e);
            (results[e] <==> |named| == 1) && (!results[e] <==> named == []) &&
            (results[e] ==>
               var gone := e !in h.entries.items && e !in h.states.items;
               named[0] == if gone then Event(named[0].revision, Remove, ["Entity:" + e], [], [])
                           else Event(named[0].revision, Upsert, ["Entity:" + e], [], ["state", "ha_id"]))
    decreases |ids|
  {
    var rest := if results[ids[0]] then revision + 1 else revision;
    var tail := Announced(h, ids[1..], results, rest);
    assert NodeId(ids[0])[7..] == ids[0] && NodeId(e)[7..] == e;
    if results[ids[0]] {
      assert Announced(h, ids, results, revision)[1..] == tail;
    }
    if ids[0] == e {
      NotAnnounced(h, ids[1..], results, rest, e);
    } else {
      SuccessIsOneEvent(h, ids[1..], results, rest, e);
    }
  }

  // ---- The batch ---------------------------------------------------------------------

  predicate AnyRole(h: Hass, ids: seq<string>, results: map<string, bool>) {
    exists e :: e in ids && e in results && results[e] && InferEnergyRole(h.signals(e)).Some?
  }
  predicate AnyGone(h: Hass, ids: seq<string>, results: map<string, bool>) {
    exists e :: e in ids && e in results && results[e] && Gone(h, e)
  }
  predicate AnyOk(ids: seq<string>, results: map<string, bool>) { exists e :: e in ids && e in results && results[e] }

  function AllTrue(ids: seq<string>): map<string, bool> { map e | e in ids :: true }
  function Failed(ids: seq<string>): map<string, bool> { map e | e in ids :: false }

  /** The whole batch, entity by entity, with the shared binding repair when it can matter. */
  function SlowBatch(h: Hass, ids: seq<string>, cs: Contexts): seq<Write>
    requires forall id :: id in ids ==> id in cs
  {
    SlowWrites(h, ids, cs) +
    (if AnyRole(h, ids, AllTrue(ids)) || AnyGone(h, ids, AllTrue(ids)) then [RepairBindings] else [])
  }

  // One entity's queries: its rows one by one unless written in bulk, then its role.
  function StepStmts(h: Hass, e: string, context: Option<Context>, written: bool): seq<seq<Write>> {
    (if written then [] else Singles(UpdateWrites(h, e, context))) + [[RoleWrite(h, e)]]
  }

  lemma StepConcat(h: Hass, e: string, context: Option<Context>, written: bool)
    ensures Concat(StepStmts(h, e, context, written)) == EntityStep(h, e, context, written)
  {
    hide UpdateWrites, RoleWrite;
    var first := if written then [] else Singles(UpdateWrites(h, e, context));
    ConcatAppend(first, [[RoleWrite(h, e)]]);
    ConcatSingle([RoleWrite(h, e)]);
    ConcatSingles(UpdateWrites(h, e, context));
  }

  // Where a batch stands: the store, and the results so far.
  datatype Progress = Progress(g: G, faults: seq<Fault>, results: map<string, bool>)

  /** Every entity's queries are run, whether or not those of an earlier one raised. */
  function PlayEach(h: Hass, ids: seq<string>, cs: Contexts, updated: set<string>, s: Progress): Progress
    requires forall id :: id in ids ==> id in cs
    decreases |ids|
  {
    if ids == [] then s
    else
      var step := Play(s.g, s.faults, StepStmts(h, ids[0], cs[ids[0]], ids[0] in updated));
      PlayEach(h, ids[1..], cs, updated, Progress(step.g, step.faults, s.results[ids[0] := step.ok]))
  }

  method SyncOne(client: Client, h: Hass, e: string, context: Option<Context>, written: bool) returns (ok: bool)
    modifies client
    ensures Outcome(client.g, client.faults, ok) ==
            Play(old(client.g), old(client.faults), StepStmts(h, e, context, written))
  {
    hide UpdateWrites, RoleWrite, PlayOne;
    var first := if written then [] else Singles(UpdateWrites(h, e, context));
    PlayAppend(client.g, client.faults, first, [[RoleWrite(h, e)]]);
    ok := true;
    if !written {
      ok := UpdateEntity(client, h, e, context);
      if !ok { return; }
    }
    PlaySingle(client.g, client.faults, [RoleWrite(h, e)]);
    ok := client.Run([RoleWrite(h, e)]);
  }

  ghost predicate BatchAgrees(g: G, h: Hass, ids: seq<string>) {
    forall e :: e in ids && Candidate(h, e) && EntityKey(e) in g.nodes ==> Agrees(g, h, e)
  }

  /** The per-entity loop: each entity's failure is its own. */
  method SyncEach(client: Client, h: Hass, ids: seq<string>, cs: Contexts, updated: set<string>)
    returns (results: map<string, bool>, anyOk: bool, anyRole: bool, anyGone: bool)
    requires BatchOk(ids, cs)
    modifies client
    ensures Progress(client.g, client.faults, results) ==
            PlayEach(h, ids, cs, updated, Progress(old(client.g), old(client.faults), map[]))
    ensures results.Keys == Ids(ids)
    ensures anyOk == AnyOk(ids, results) && anyRole == AnyRole(h, ids, results) && anyGone == AnyGone(h, ids, results)
  {
    hide StepStmts, InferEnergyRole, Play;
    results, anyOk, anyRole, anyGone := map[], false, false, false;
    var i := 0;
    assert ids[0..] == ids;
    while i < |ids|
      invariant 0 <= i <= |ids| && results.Keys == Ids(ids[..i])
      invariant anyOk == AnyOk(ids[..i], results)
      invariant anyRole == AnyRole(h, ids[..i], results) && anyGone == AnyGone(h, ids[..i], results)
      invariant PlayEach(h, ids[i..], cs, updated, Progress(client.g, client.faults, results)) ==
                PlayEach(h, ids, cs, updated, Progress(old(client.g), old(client.faults), map[]))
    {
      var e := ids[i];
      assert ids[i..][0] == e && ids[i..][1..] == ids[i + 1..];
      var ok := SyncOne(client, h, e, cs[e], e in updated);
      AnyNext(h, ids, i, results, ok);
      if ok {
        anyOk := true;
        anyRole := anyRole || InferEnergyRole(h.signals(e)).Some?;
        anyGone := anyGone || Gone(h, e);
      }
      results := results[e := ok];
      i := i + 1;
    }
    assert ids[..i] == ids && ids[i..] == [];
  }

  lemma AnyNext(h: Hass, ids: seq<string>, i: nat, results: map<string, bool>, ok: bool)
    requires i < |ids| && Distinct(ids) && results.Keys == Ids(ids[..i])
    ensures var next, e := results[ids[i] := ok], ids[i];
            next.Keys == Ids(ids[..i + 1]) && AnyOk(ids[..i + 1], next) == (AnyOk(ids[..i], results) || ok) &&
            AnyRole(h, ids[..i + 1], next) ==
              (AnyRole(h, ids[..i], results) || (ok && InferEnergyRole(h.signals(e)).Some?)) &&
            AnyGone(h, ids[..i + 1], next) == (AnyGone(h, ids[..i], results) || (ok && Gone(h, e)))
  {
    hide InferEnergyRole, Gone;
    var next := results[ids[i] := ok];
    assert ids[..i + 1] == ids[..i] + [ids[i]];
    forall x | x in ids[..i] ensures x in results && x in next && next[x] == results[x] {
      var j :| 0 <= j < i && ids[j] == x;
    }
    assert ids[i] in ids[..i + 1] && next[ids[i]] == ok;
  }

  // The counts refresh (two reads) when something was removed, the binding repair when it can matter.
  function SharedStmts(anyRole: bool, anyGone: bool): seq<seq<Write>> {
    (if anyGone then [[], []] else []) + (if anyRole || anyGone then [[RepairBindings]] else [])
  }

  method SharedSteps(client: Client, anyRole: bool, anyGone: bool) returns (ok: bool)
    modifies client
    ensures Outcome(client.g, client.faults, ok) ==
            Play(old(client.g), old(client.faults), SharedStmts(anyRole, anyGone))
  {
    hide PlayOne;
    var counts: seq<seq<Write>> := if anyGone then [[], []] else [];
    PlayAppend(client.g, client.faults, counts, if anyRole || anyGone then [[RepairBindings]] else []);
    ok := true;
    if anyGone {
      ok := RunAll(client, counts);
    }
    if ok && (anyRole || anyGone) {
      PlaySingle(client.g, client.faults, [RepairBindings]);
      ok := client.Run([RepairBindings]);
    }
  }

  /** The whole batch under any failures: the bulk write, every entity in turn, and the shared steps when
      something succeeded; a shared step that raises turns every result into a failure. */
  function PlayBatch(h: Hass, ids: seq<string>, cs: Contexts, g: G, faults: seq<Fault>): Progress
    requires BatchOk(ids, cs)
  {
    var bulk := BulkRun(h, ids, cs, g, faults);
    var each := PlayEach(h, ids, cs, Reported(h, ids, g, bulk.ok), Progress(bulk.g, bulk.faults, map[]));
    if !AnyOk(ids, each.results) then each
    else
      var role, gone := AnyRole(h, ids, each.results), AnyGone(h, ids, each.results);
      var shared := Play(each.g, each.faults, SharedStmts(role, gone));
      Progress(shared.g, shared.faults, if shared.ok then each.results else Failed(ids))
  }

  /** The batch sync. Events: exactly one per entity whose final result is success. */
  method ExecuteEntitySyncBatch(client: Client, h: Hass, ids: seq<string>, cs: Contexts, buffer: GraphChangeBuffer)
    returns (results: map<string, bool>)
    requires BatchOk(ids, cs) && buffer.Valid()
    modifies client, buffer
    ensures buffer.Valid() && results.Keys == Ids(ids)
    ensures Progress(client.g, client.faults, results) == PlayBatch(h, ids, cs, old(client.g), old(client.faults))
    ensures buffer.history == old(buffer.history) + Announced(h, ids, results, |old(buffer.history)|)
    ensures Closed(old(client.g)) && BatchAgrees(old(client.g), h, ids) &&
            FaultOnlyWithin(old(client.faults), |Chunks(Candidates(h, ids))|)
            ==> results == AllTrue(ids) && client.g == ExecAll(old(client.g), SlowBatch(h, ids, cs))
  {
    BatchGraph(h, ids, cs, client.g, client.faults);
    hide Closed, BatchAgrees, FaultOnlyWithin, SlowBatch, AllTrue;
    hide BulkRun, Reported, PlayEach, SharedStmts, AnyOk, AnyRole, AnyGone, Play;
    var updated := WriteStateOnlyUpdates(client, h, ids, cs);
    var anyOk, anyRole, anyGone;
    results, anyOk, anyRole, anyGone := SyncEach(client, h, ids, cs, updated);
    var ok := anyOk;
    if anyOk {
      ok := SharedSteps(client, anyRole, anyGone);
      if !ok { results := Failed(ids); }
    }
    if ok {
      PublishAll(buffer, h, ids, results);
    } else {
      if !anyOk { NoneOk(ids, results); }
      NothingAnnounced(h, ids, results, |buffer.history|);
    }
  }

  lemma BatchGraph(h: Hass, ids: seq<string>, cs: Contexts, g: G, faults: seq<Fault>)
    requires BatchOk(ids, cs)
    ensures Closed(g) && BatchAgrees(g, h, ids) && FaultOnlyWithin(faults, |Chunks(Candidates(h, ids))|)
            ==> PlayBatch(h, ids, cs, g, faults).results == AllTrue(ids) &&
                PlayBatch(h, ids, cs, g, faults).g == ExecAll(g, SlowBatch(h, ids, cs))
  {
    hide Closed, BatchAgrees, FaultOnlyWithin, PlayBatch;
    if Closed(g) && BatchAgrees(g, h, ids) && FaultOnlyWithin(faults, |Chunks(Candidates(h, ids))|) {
      BatchEqualsSlow(h, ids, cs, g, faults);
    }
  }

  lemma NoneOk(ids: seq<string>, results: map<string, bool>)
    requires !AnyOk(ids, results) && results.Keys == Ids(ids)
    ensures forall e :: e in ids ==> e in results && !results[e]
  {
  }

  // ---- What a result means -----------------------------------------------------------------

  lemma {:induction false} PlayEachSplit(h: Hass, a: seq<string>, b: seq<string>, cs: Contexts, updated: set<string>,
                                         s: Progress)
    requires forall id :: id in a + b ==> id in cs
    ensures (forall id :: id in a ==> id in cs) && forall id :: id in b ==> id in cs
    ensures PlayEach(h, a + b, cs, updated, s) == PlayEach(h, b, cs, updated, PlayEach(h, a, cs, updated, s))
    decreases |a|
  {
    hide StepStmts, Play;
    forall id | id in a || id in b ensures id in cs { assert id in a + b; }
    if a == [] {
      assert a + b == b;
    } else {
      assert (a + b)[0] == a[0] && (a + b)[1..] == a[1..] + b;
      var step := Play(s.g, s.faults, StepStmts(h, a[0], cs[a[0]], a[0] in updated));
      PlayEachSplit(h, a[1..], b, cs, updated, Progress(step.g, step.faults, s.results[a[0] := step.ok]));
    }
  }

  lemma {:induction false} PlayEachKeeps(h: Hass, ids: seq<string>, cs: Contexts, updated: set<string>, s: Progress)
    requires forall id :: id in ids ==> id in cs
    ensures var end := PlayEach(h, ids, cs, updated, s);
            end.results.Keys == s.results.Keys + Ids(ids) &&
            forall e :: e in s.results && e !in ids ==> end.results[e] == s.results[e]
    decreases |ids|
  {
    hide StepStmts, Play;
    if ids != [] {
      var step := Play(s.g, s.faults, StepStmts(h, ids[0], cs[ids[0]], ids[0] in updated));
      PlayEachKeeps(h, ids[1..], cs, updated, Progress(step.g, step.faults, s.results[ids[0] := step.ok]));
    }
  }

  /** In the loop an entity succeeds exactly when none of its own queries raises, and then its writes took
      effect on what the entities before it left; the next entity starts from what it left either way. */
  lemma EachIsItsOwn(h: Hass, ids: seq<string>, cs: Contexts, updated: set<string>, s: Progress, i: nat)
    requires BatchOk(ids, cs) && i < |ids|
    ensures forall id :: id in ids[..i] || id in ids[..i + 1] ==> id in cs
    ensures var before, after := PlayEach(h, ids[..i], cs, updated, s), PlayEach(h, ids[..i + 1], cs, updated, s);
            var stmts, e := StepStmts(h, ids[i], cs[ids[i]], ids[i] in updated), ids[i];
            var end := PlayEach(h, ids, cs, updated, s);
            after.g == Play(before.g, before.faults, stmts).g && e in end.results &&
            (end.results[e] <==> forall j :: 0 <= j < |stmts| && j < |before.faults| ==> before.faults[j].Fine?) &&
            (end.results[e] ==> after.g == ExecAll(before.g, EntityStep(h, e, cs[e], e in updated)))
  {
    hide StepStmts, EntityStep, Play;
    var e, front, rest := ids[i], ids[..i], ids[i + 1..];
    assert ids[..i + 1] == front + [e] && ids == (front + [e]) + rest;
    PlayEachSplit(h, front, [e], cs, updated, s);
    PlayEachSplit(h, front + [e], rest, cs, updated, s);
    var before := PlayEach(h, front, cs, updated, s);
    var stmts := StepStmts(h, e, cs[e], e in updated);
    var step := Play(before.g, before.faults, stmts);
    assert PlayEach(h, [e], cs, updated, before) == Progress(step.g, step.faults, before.results[e := step.ok]) by {
      assert [e][1..] == [];
    }
    PlayEachKeeps(h, rest, cs, updated, Progress(step.g, step.faults, before.results[e := step.ok]));
    RaisesExactly(before.g, before.faults, stmts);
    if step.ok {
      PlayOk(before.g, before.faults, stmts);
      StepConcat(h, e, cs[e], e in updated);
    }
  }

  /** A batch reports success for an entity exactly when none of its queries and none of the shared ones
      raised; a shared query that raises makes every result a failure. */
  lemma ResultsAreExact(h: Hass, ids: seq<string>, cs: Contexts, g: G, faults: seq<Fault>, e: string)
    requires BatchOk(ids, cs) && e in ids
    ensures var bulk := BulkRun(h, ids, cs, g, faults);
            var each := PlayEach(h, ids, cs, Reported(h, ids, g, bulk.ok), Progress(bulk.g, bulk.faults, map[]));
            var stmts := SharedStmts(AnyRole(h, ids, each.results), AnyGone(h, ids, each.results));
            var final := PlayBatch(h, ids, cs, g, faults);
            e in each.results && e in final.results &&
            (final.results[e] <==>
               each.results[e] && forall j :: 0 <= j < |stmts| && j < |each.faults| ==> each.faults[j].Fine?)
  {
    hide BulkRun, Reported, PlayEach, SharedStmts, AnyRole, AnyGone, Play;
    var bulk := BulkRun(h, ids, cs, g, faults);
    var each := PlayEach(h, ids, cs, Reported(h, ids, g, bulk.ok), Progress(bulk.g, bulk.faults, map[]));
    PlayEachKeeps(h, ids, cs, Reported(h, ids, g, bulk.ok), Progress(bulk.g, bulk.faults, map[]));
    RaisesExactly(each.g, each.faults, SharedStmts(AnyRole(h, ids, each.results), AnyGone(h, ids, each.results)));
  }

  // ---- Against the per-entity path ------------------------------------------------------------

  /** When nothing raises in the loop, it leaves the remaining writes in order. */
  lemma {:induction false} EachWithoutFaults(h: Hass, ids: seq<string>, cs: Contexts, updated: set<string>, s: Progress)
    requires (forall id :: id in ids ==> id in cs) && AllFine(s.faults)
    ensures var end := PlayEach(h, ids, cs, updated, s);
            end.g == ExecAll(s.g, FastWrites(h, ids, cs, updated)) && AllFine(end.faults) &&
            (forall e :: e in ids ==> e in end.results && end.results[e]) &&
            (forall e :: e in s.results && s.results[e] ==> e in end.results && end.results[e])
    decreases |ids|
  {
    hide StepStmts, EntityStep, Play;
    if ids != [] {
      var e := ids[0];
      var stmts := StepStmts(h, e, cs[e], e in updated);
      var step := Play(s.g, s.faults, stmts);
      PlayFine(s.g, s.faults, stmts);
      PlayOk(s.g, s.faults, stmts);
      StepConcat(h, e, cs[e], e in updated);
      EachWithoutFaults(h, ids[1..], cs, updated, Progress(step.g, step.faults, s.results[e := step.ok]));
      ExecAllAppend(s.g, EntityStep(h, e, cs[e], e in updated), FastWrites(h, ids[1..], cs, updated));
    }
  }

  lemma SharedConcat(anyRole: bool, anyGone: bool)
    ensures Concat(SharedStmts(anyRole, anyGone)) == if anyRole || anyGone then [RepairBindings] else []
  {
    var counts: seq<seq<Write>> := if anyGone then [[], []] else [];
    var repair := if anyRole || anyGone then [[RepairBindings]] else [];
    ConcatAppend(counts, repair);
    if anyGone { assert counts[1..] == [[]] && counts[1..][1..] == []; }
    if repair != [] { ConcatSingle([RepairBindings]); }
  }

  lemma AllSucceeded(ids: seq<string>, results: map<string, bool>)
    requires results.Keys == Ids(ids) && forall e :: e in ids ==> e in results && results[e]
    ensures results == AllTrue(ids) && (AnyOk(ids, results) <==> ids != [])
  {
    if ids != [] { assert ids[0] in ids; }
  }

  /** When the stored relationships agree with the registry, and only the bulk write may raise, part-way or not,
      a batch leaves the graph of the per-entity path and every entity succeeds. */
  lemma BatchEqualsSlow(h: Hass, ids: seq<string>, cs: Contexts, g: G, faults: seq<Fault>)
    requires BatchOk(ids, cs) && Closed(g) && BatchAgrees(g, h, ids)
    requires FaultOnlyWithin(faults, |Chunks(Candidates(h, ids))|)
    ensures var end := PlayBatch(h, ids, cs, g, faults);
            end.g == ExecAll(g, SlowBatch(h, ids, cs)) && end.results == AllTrue(ids)
  {
    hide PlayEach, SharedStmts, AnyRole, AnyGone, Play, Reported, SlowWrites, FastWrites, Overlay, Patch, Candidate,
         Agrees, FaultOnlyWithin, AllTrue, AnyOk;
    var bulk := BulkRun(h, ids, cs, g, faults);
    var updated := Reported(h, ids, g, bulk.ok);
    var written := BulkWrites(h, ids, cs, g, faults);
    BulkFaultsEnd(h, ids, cs, g, faults);
    var start := Progress(bulk.g, bulk.faults, map[]);
    EachWithoutFaults(h, ids, cs, updated, start);
    PlayEachKeeps(h, ids, cs, updated, start);
    var each := PlayEach(h, ids, cs, updated, start);
    AllSucceeded(ids, each.results);
    FastEqualsSlow(g, h, ids, cs, written, updated);
    SlowBatchSplit(g, h, ids, cs);
    if ids != [] {
      var anyRole, anyGone := AnyRole(h, ids, each.results), AnyGone(h, ids, each.results);
      PlayFine(each.g, each.faults, SharedStmts(anyRole, anyGone));
      PlayOk(each.g, each.faults, SharedStmts(anyRole, anyGone));
      SharedConcat(anyRole, anyGone);
    }
  }

  lemma BulkFaultsEnd(h: Hass, ids: seq<string>, cs: Contexts, g: G, faults: seq<Fault>)
    requires BatchOk(ids, cs) && FaultOnlyWithin(faults, |Chunks(Candidates(h, ids))|)
    ensures AllFine(BulkRun(h, ids, cs, g, faults).faults)
  {
    hide Play, FaultOnlyWithin, MatchWrites;
    CandidatesIn(h, ids);
    var candidates, rows := Candidates(h, ids), RowsOf(h, cs);
    ChunksHaveRows(candidates, rows);
    BulkPrefix(Chunks(candidates), rows, 0);
    NoFaultLater(g, faults, BulkStmts(Chunks(candidates), rows));
  }

  lemma SlowBatchSplit(g: G, h: Hass, ids: seq<string>, cs: Contexts)
    requires forall id :: id in ids ==> id in cs
    ensures ExecAll(g, SlowBatch(h, ids, cs)) ==
            ExecAll(ExecAll(g, SlowWrites(h, ids, cs)),
                    if AnyRole(h, ids, AllTrue(ids)) || AnyGone(h, ids, AllTrue(ids)) then [RepairBindings] else [])
    ensures ids == [] ==> ExecAll(g, SlowBatch(h, ids, cs)) == g && ExecAll(g, SlowWrites(h, ids, cs)) == g
  {
    ExecAllAppend(g, SlowWrites(h, ids, cs),
                  if AnyRole(h, ids, AllTrue(ids)) || AnyGone(h, ids, AllTrue(ids)) then [RepairBindings] else []);
  }

  lemma {:induction false} NothingAnnounced(h: Hass, ids: seq<string>, results: map<string, bool>, revision: nat)
    requires forall e :: e in ids ==> e in results && !results[e]
    ensures Announced(h, ids, results, revision) == []
    decreases |ids|
  {
    if ids != [] { NothingAnnounced(h, ids[1..], results, revision); }
  }

  method PublishAll(buffer: GraphChangeBuffer, h: Hass, ids: seq<string>, results: map<string, bool>)
    requires buffer.Valid() && forall e :: e in ids ==> e in results
    modifies buffer
    ensures buffer.Valid()
    ensures buffer.history == old(buffer.history) + Announced(h, ids, results, |old(buffer.history)|)
  {
    var i := 0;
    while i < |ids|
      invariant 0 <= i <= |ids| && buffer.Valid()
      invariant buffer.history + Announced(h, ids[i..], results, |buffer.history|) ==
                old(buffer.history) + Announced(h, ids, results, |old(buffer.history)|)
    {
      assert ids[i..][1..] == ids[i + 1..];
      if results[ids[i]] {
        if Gone(h, ids[i]) {
          var _ := buffer.Publish(Remove, [NodeId(ids[i])], [], []);
        } else {
          var _ := buffer.Publish(Upsert, [NodeId(ids[i])], [], ["state", "ha_id"]);
        }
      }
      i := i + 1;
    }
    assert ids[i..] == [];
  }
}
