# Ontology graph: a verified model

This project models the parts of a Home Assistant integration that keep a knowledge graph in Memgraph
in step with Home Assistant's registries and states, stream its changes to browsers, and analyse it. The model is
written in Dafny, and its lemmas prove properties of that behaviour for all inputs and all runs.

Files, by component:

- `sequences.dfy`: helpers for sequences.
- `graph.dfy`: the store (labelled nodes and typed relationships with property maps), every query shape the
  integration issues, and a client whose queries can fail before or after taking effect.
- `registry.dfy`, `semantics.dfy`: Home Assistant's registries and states as one snapshot, the rows written for one
  entity, the classification rules and inferred energy roles.
- `agreement.dfy`, `fast_path.dfy`, `batch.dfy`, `batch_facts.dfy`: the batched entity sync and its bulk fast path, and what a
  batch leaves for each entity.
- `build.dfy`, `settle.dfy`, `idempotence.dfy`, `full_sync.dfy`, `rebuild.dfy`, `failed_rebuild.dfy`: full build, resync and
  destructive rebuild, under any query failures; `build_facts.dfy`, `sync_facts.dfy`: what they leave in the graph, said from
  the registries.
- `energy_roles.dfy`: user and inferred energy roles over any run of operations.
- `changes.dfy`, `live.dfy`: the bounded revision log and a live subscription with coalescing and timers.
- `serialization.dfy`, `debounce.dfy`, `failures.dfy`, `activity.dfy`: the lock protocol, the debouncer, failure tracking
  and the ring-buffer counters.
- `geometry.dfy`, `links.dfy`, `link_facts.dfy`: wall crossings over exact reals, the price of a mesh link, and what each of
  its fields says.
- `merges.dfy`, `slices.dfy`, `findings.dfy`, `brackets.dfy`: capped dependency merges, graph slices for the viewer,
  the life of validation findings, and the bracket check of a query.

`dafny verify dfyconfig.toml` checks the whole project.

Where the code does not do what its own text says, the model follows the code:

- `coordinator.py:386` speaks of a one-deep pending slot; any number of service calls can be queued
  (`Serialization.AnyNumberCanQueue`), and `Serialization.SlotKeptExactly` says in which runs the slot is kept.
- `graph_builder.py:681` calls the full build idempotent; `Idempotence.BuildIdempotentExactly` gives the exact condition.
- `mesh_geometry.py:31` promises a geometric test; `Geometry.WrongExactlyWhere` says for all inputs where it errs, in both
  directions (`Geometry.NearMissCountsAsCrossed`, `Geometry.PointPathCrossesNothing`).
- `coordinator.py:440-446` calls preservation across a rebuild unconditional. A query that raises between the clear and the end
  of the import can lose overrides for good (`FailedRebuild.OneFailureLosesOverride`), and so does an override with an empty
  identifier, which no shipped caller creates (`FailedRebuild.OneBadEntryLosesOthers`). `FailedRebuild.RebuildLeaves` says
  exactly which overrides any rebuild leaves, and `FailedRebuild.KeepsAllExactly` under which condition on the inputs it keeps
  every override whose source is listed or not the integration's.
- `websocket_api.py:511-521` gives every element a window of its own, but a reconcile drops timers without cancelling them, and
  such a timer can cut a later window short (`Live.StaleTimerFlushesEarly`); `Live.CutShortExactly` says in which states, and
  `Live.WindowsAreWholeExactly` in which runs.
- `validation.py:318-332` removes a resolved finding one run later; `Findings.HistoryIsExact` also covers runs with equal times.

Facts taken from outside the code: relationships are unique per pair of ends and type, because every one is written by MERGE;
an identifier derived by uuid5 or joined with `::` determines its parts; an asyncio lock wakes its waiters in order, and a
woken waiter has the lock before any later arrival.

## Model

| member | source | states |
|---|---|---|
| `Graph.RetrySafe` | custom_components/ontology/graph_builder.py:147-203 | every query shape the integration issues is idempotent: running a row again on its own result changes nothing, so a retry after a lost answer is harmless |
| `Graph.ChunksCover` | custom_components/ontology/graph_builder.py:203-207 | the UNWIND batches, joined, are the rows in order; none is empty or longer than 250 |
| `Graph.ExecAllClosed` | custom_components/ontology/graph_builder.py:166-200 | no sequence of queries ever leaves a relationship without its endpoints (missing endpoints are skipped, deletes detach) |
| `Graph.Client.Run` | custom_components/ontology/graph_builder.py:161-163 | one query takes effect completely or, when it raises, completely or not at all, as its fate says; one fate is consumed per query |
| `Graph.RunAll` | custom_components/ontology/graph_builder.py:228-229 | queries run until one raises: graph, remaining fates and success are exactly those of playing the statements against the fates |
| `Graph.PlayIsPrefix` | custom_components/ontology/graph_builder.py:228-229 | what a run leaves is exactly its first statements in order, as many as the fates let take effect; all of them when none raises |
| `Graph.RaisesExactly` | custom_components/ontology/graph_builder.py:228-229 | a run raises iff one of the fates of its own queries is not fine, whatever the graph |
| `Registry.UpdateEntity` | custom_components/ontology/graph_builder.py:776-795 | the single-entity write is its rows in order, one query each, up to the first that raises, under any failures; when none does, an own entity changes nothing, a vanished one has no owned node left, and any other has exactly the properties of its registry entry and its state, nulls removed, all other properties kept |
| `Registry.WriteStores` | custom_components/ontology/graph_builder.py:431-494 | given what was on the node, an entity write stores the name (registry, else state, else id), source, device, area, state, its time, device class and unit exactly as entry and state give them, removes those that are null and stale measurements, and keeps everything else; one row shape serves the full, the bulk and the build write |
| `Registry.DomainIs` | custom_components/ontology/event_listener.py:93 | the domain of an entity is the text before its first full stop, all of it without one |
| `Registry.MeasurementReplaced` | custom_components/ontology/graph_builder.py:431-456 | after any of the three entity writes the measurement properties are exactly those of the new state; nothing of an earlier measurement survives |
| `Registry.WattsOnlyWhenAvailable` | custom_components/ontology/graph_builder.py:88-132 | a wattage is stored if and only if the entity is a power sensor with an available finite reading in W or kW, and then it is in watts and marked available |
| `Semantics.InferredExactly` | custom_components/ontology/semantic_classifier.py:240-271 | a role is inferred iff the entity is a power or energy measurement and either the first table row its text mentions gives that role, or its text mentions none, it has a device and the role is consumer; a consumer's text mentions no grid, storage or generation marker |
| `Semantics.RoleFromText` | custom_components/ontology/semantic_classifier.py:240-271 | which phrases speak for which role, spelled out in order of precedence: export, import, storage, generation, consumption; a device that says nothing consumes |
| `Semantics.RulesUseNamedRelationships` | custom_components/ontology/semantic_classifier.py:84-159 | no rule of the built-in table links back with a relationship type the rest of the graph relies on |
| `Semantics.MatchingExactly` | custom_components/ontology/semantic_classifier.py:215-231 | a rule matches iff the domain is one of its, the manufacturer is not excluded, and, for a rule with manufacturers, the manufacturer is one of them, for any other rule, a device class or contained keyword fits or it asks for neither |
| `Semantics.ReolinkIsACamera` | custom_components/ontology/semantic_classifier.py:84-159 | of the built-in rules none makes a Reolink device a vehicle, and the camera rule matches it and nothing else |
| `Agreement.AgreesIffStable` | custom_components/ontology/graph_builder.py:496-551 | the stored relationships agree with the registry (an explicit predicate on edges and nodes) if and only if writing them again leaves the graph unchanged |
| `FastPath.BulkIsOverlay` | custom_components/ontology/graph_builder.py:554-586 | the bulk state-only write of any list of distinct entities is exactly new properties on those that have a node, and nothing else |
| `FastPath.FastEqualsSlow` | custom_components/ontology/coordinator.py:535-598 | for any batch: bulk-writing any subset first, skipping the full write for any of those whose relationships agree, and writing the rest in full gives the graph of writing every entity in full in turn |
| `FastPath.FastExactlyWhenAgreed` | custom_components/ontology/coordinator.py:503-533 | for an entity with a node the state-only write equals the full write if and only if its relationships agree with the registry |
| `FastPath.AgreementKeptAll` | custom_components/ontology/graph_builder.py:496-551 | writing one entity never destroys the agreement of another |
| `Batch.UpdateEntityStatesBulk` | custom_components/ontology/graph_builder.py:554-586 | the chunked bulk write runs its chunks until one raises, under any failures, and on success returns exactly the ids whose entity has a node |
| `Batch.BulkLeaves` | custom_components/ontology/graph_builder.py:554-586 | whatever raises, a bulk write leaves the state-only writes of a prefix of its ids, and of all of them when none raises |
| `Batch.WriteStateOnlyUpdates` | custom_components/ontology/coordinator.py:503-533 | graph and fates are exactly those of the candidates' bulk write; reported are, when it raises nothing, exactly the ids of the batch that have a state and a node and are not the integration's own, otherwise none |
| `Batch.BulkWrites` | custom_components/ontology/coordinator.py:503-533 | whatever raises, what was written is the state-only write of a set of candidates, and every id reported is in it and had a node |
| `Batch.SyncEach` | custom_components/ontology/coordinator.py:574-591 | under any failures the loop runs every entity's queries up to the first that raises, and the three gating flags are exact |
| `Batch.EachIsItsOwn` | custom_components/ontology/coordinator.py:574-591 | in the loop an entity's result is success iff none of its own queries raised, and then its writes took effect on what the entities before it left |
| `Batch.SharedSteps` | custom_components/ontology/coordinator.py:607-642 | under any failures the counts are read when an entity was removed and the binding repair runs when a role was assigned or an entity removed, up to the first query that raises |
| `Batch.ExecuteEntitySyncBatch` | custom_components/ontology/coordinator.py:535-657 | under any failures graph, fates and results are those of the bulk write, the loop and the shared steps in turn; events published are exactly one per entity whose final result is success; on agreeing relationships the graph equals the per-entity path even when a bulk chunk raises part-way; what the graph then holds is `BatchFacts.BatchIsRight` |
| `Batch.ResultsAreExact` | custom_components/ontology/coordinator.py:535-657 | a final result is success iff the entity succeeded in the loop and no shared step raised |
| `Batch.BatchEqualsSlow` | custom_components/ontology/coordinator.py:535-657 | when the relationships agree and only the bulk write may raise, part-way or not, every entity succeeds and the graph is that of writing every entity in full |
| `Batch.SuccessIsOneEvent` | custom_components/ontology/coordinator.py:650-657 | an entity's result is success iff exactly one published event names it, that event names nothing else and is a removal if the entity is in neither registry nor states, else a change of its state; a failed entity is named by none |
| `BatchFacts.BatchIsRight` | custom_components/ontology/coordinator.py:535-657 | whatever raises elsewhere, an entity the batch reports as synced has exactly the properties of its entry and state, the inferred role its signals call for (none if they call for none) and that role's binding; if it has a role or is gone, bindings are exact everywhere |
| `BatchFacts.OthersInBatch` | custom_components/ontology/coordinator.py:535-657 | whatever raises, entities outside the batch keep their node and inferred role, and everything the user stated stays |
| `Changes.SinceExact` | custom_components/ontology/coordinator.py:175-193 | with max_size >= 1 the buffer refuses exactly future revisions and those older than the retained events reach; otherwise it returns exactly the events above the revision, in order |
| `Changes.ReplayThenLive` | custom_components/ontology/websocket_api.py:474-548 | replay followed by live events is exactly the events above from_revision: no gap, no duplicate |
| `Changes.SnapshotThenSubscribe` | custom_components/ontology/websocket_api.py:120-166 | subscribing from the revision recorded before the snapshot was read loses no event published since, or asks for a reload, and the latter iff more events than the buffer holds were published in between |
| `Changes.RightExactly` | custom_components/ontology/coordinator.py:175-193 | for every size: the answer asks for a reload or holds every event above the revision, in order, iff the buffer can hold an event or nothing was published above the revision |
| `Changes.ZeroSizedBufferLosesEvents` | custom_components/ontology/coordinator.py:175-193 | the concrete case a buffer of size zero, which the shipped coordinator never makes, gets wrong: an empty replay although an event was published |
| `Changes.GraphChangeBuffer.Publish` | custom_components/ontology/coordinator.py:111-173 | revisions count the events, the deque keeps the newest max_size, every registered callback receives the event |
| `Changes.GraphChangeBuffer.EventsSince` | custom_components/ontology/coordinator.py:175-193 | the loop over the deque computes the specified answer over the whole history |
| `Changes.GraphChangeBuffer.SubscribeFrom` | custom_components/ontology/websocket_api.py:474-548 | a new subscriber is sent the events above its revision, in order, or one reconcile at the current revision iff the buffer cannot bridge; then the callback is registered at the same point of the history, so it receives exactly what is published afterwards |
| `Live.PendingIsArmed` | custom_components/ontology/websocket_api.py:495-548 | in every reachable state every pending element has an outstanding timer of its own that will flush it, stale uncancelled timers included |
| `Live.MessagesAccountForEvents` | custom_components/ontology/websocket_api.py:495-548 | every message carries the kind of the first event it coalesced, the latest revision and exactly the union of the changed properties; every touch of an element is in exactly one message, one reconcile, or still pending |
| `Live.QuietMeansCovered` | custom_components/ontology/websocket_api.py:495-548 | once no timer is outstanding, every element touched since subscribing is covered by a message or reconcile with a revision at least that of its last event |
| `Live.NothingMissed` | custom_components/ontology/websocket_api.py:474-548 | replay, coalescer and timers together: once no timer is outstanding, the client knows of every event above the revision it named, by replay, by a reload request at that revision or later, by the forwarded reconcile, or by messages covering each of its elements |
| `Live.TimersRunOut` | custom_components/ontology/websocket_api.py:501-509 | some order of firings, as many as there are timers, can always be run and ends quiet |
| `Live.EveryOrderRunsOut` | custom_components/ontology/websocket_api.py:501-509 | every order of firings takes one timer each: a run of as many firings as there are timers ends quiet, having seen no further event |
| `Live.SilentAfterUnsubscribe` | custom_components/ontology/websocket_api.py:550-556 | after unsubscribe nothing is sent, whatever is published and whatever stale timers fire |
| `Live.StaleTimerFlushesEarly` | custom_components/ontology/websocket_api.py:511-521 | a concrete reachable run in which a timer dropped by a reconcile flushes an element before its own timer |
| `Live.StaleExactly` | custom_components/ontology/websocket_api.py:511-521 | a step makes some outstanding timer stale iff it is a reconcile arriving while something is pending |
| `Live.FreshExactly` | custom_components/ontology/websocket_api.py:511-546 | over any run no timer is ever stale iff no reconcile ever dropped a pending element |
| `Live.OwnTimerFlushes` | custom_components/ontology/websocket_api.py:501-509 | while no timer is stale, every firing is the element's own timer and sends what is pending for it |
| `Live.CutShortExactly` | custom_components/ontology/websocket_api.py:501-546 | in any state some window can be flushed before its own timer, without a further reconcile, iff the subscription is open and some timer is stale |
| `Live.WindowsAreWholeExactly` | custom_components/ontology/websocket_api.py:495-548 | over any run from subscribing on, in no state can a window be cut short without a further reconcile iff no reconcile arrived while something was pending; so too for timers being their element's own |
| `Live.Subscription.Receive` | custom_components/ontology/websocket_api.py:511-546 | the event handler's in-place updates of both dictionaries and the event loop are the state machine's step |
| `Live.Subscription.TimerFired` | custom_components/ontology/websocket_api.py:501-509 | a timer firing pops and sends its element's pending message, if any |
| `Live.Subscription.Close` | custom_components/ontology/websocket_api.py:550-554 | unsubscribing cancels the registered timers and forgets everything pending |
| `Settle.SettleOne` | custom_components/ontology/graph_builder.py:147-200 | a merge whose value depends only on its key, and whose endpoints exist or never will, leaves every earlier such merge a no-op on replay |
| `Idempotence.BuildSettles` | custom_components/ontology/graph_builder.py:676-723 | after a full build every merge the build performed is a no-op |
| `Idempotence.BuildIdempotentExactly` | custom_components/ontology/graph_builder.py:676-723 | on a fixed registry and rule table building twice equals building once if and only if no area edge the registry asks for was asserted by somebody else with properties of its own |
| `Idempotence.SecondBuildCanLose` | custom_components/ontology/graph_builder.py:404-419 | a concrete home and graph where the second build loses a user's property on an entity's area |
| `Idempotence.BuildDeletesOnlyOwnAreas` | custom_components/ontology/graph_builder.py:676-723 | a full build deletes no node, and the only relationships it deletes are home_assistant-sourced areas of synced entities |
| `Idempotence.BuildKeepsOverrides` | custom_components/ontology/semantic_classifier.py:279-359 | a full build neither adds, changes nor removes any OVERRIDE_OF relationship |
| `Idempotence.BuildNodes` | custom_components/ontology/graph_builder.py:268-437 | areas, devices and entities after a build are exactly those before plus those the registry lists; energy-role assignments are untouched |
| `Idempotence.WantedAfterBuild` | custom_components/ontology/graph_builder.py:404-419 | after a build a wanted area edge exists iff both ends do, is home_assistant's, and is bare unless it kept foreign properties |
| `BuildFacts.NodesExactly` | custom_components/ontology/graph_builder.py:268-437 | after a build a node is there iff it was before, a registry lists it (home, floor, area, device, label, entity, domain, integration, automation, scene, script), or it is the type or the asset of an entity that a rule fits and no override covers |
| `BuildFacts.NodePropsExactly` | custom_components/ontology/graph_builder.py:268-437 | every node the registries ask for has home_assistant as source and exactly their name, level, icon, manufacturer, model, colour or entity properties, nulls removed, and keeps any other property |
| `BuildFacts.RelsExactly` | custom_components/ontology/graph_builder.py:268-437 | for each kind of relationship: present iff it was before, or both ends exist and the registries ask for it (home's floors and areas, area on floor, device in area, entity of device, in domain, by integration, label, reference, control) or a rule does (CLASSIFIED_AS, its link back, LOCATED_IN the entity's area, else its device's); asked for, its source is home_assistant, by a rule, inferred |
| `BuildFacts.AreasExactly` | custom_components/ontology/graph_builder.py:404-419 | an entity's area edge is there iff the registry gives that area and both ends exist, or it is not asked for, was there, and is not home_assistant's on a synced entity |
| `BuildFacts.ClassNodePropsExactly` | custom_components/ontology/semantic_classifier.py:291-344 | a classified entity has an asset under its friendly name, sourced inferred, and its semantic type under its own name |
| `BuildFacts.SchemaExactly` | custom_components/ontology/graph_builder.py:726-743 | the schema node exists, as it was or created with version 3.4.0 |
| `BuildFacts.BuildMirrors` | custom_components/ontology/graph_builder.py:676-723 | all of these at once: after a build the graph mirrors the home |
| `FullSync.RunBulk` | custom_components/ontology/graph_builder.py:210-257 | the batched writer runs its batches until one raises, under any failures |
| `FullSync.CollectEntityLinks` | custom_components/ontology/graph_builder.py:384-403 | the domain, integration, domain-link and device-link batches of collect_entities, in order, up to the first that raises |
| `FullSync.CollectRest` | custom_components/ontology/graph_builder.py:420-437 | the remaining entity links, standalone nodes, referring domains and schema node, in order, up to the first that raises |
| `FullSync.ClassifyOne` | custom_components/ontology/semantic_classifier.py:291-344 | per matching rule the rows are written unless the override read just before finds one; reads see the overrides the pass started with |
| `FullSync.ClassifyEntities` | custom_components/ontology/semantic_classifier.py:347-359 | the classification loop writes exactly the non-overridden matching rules of every synced entity, up to the first query that raises; which rules match is `Semantics.MatchingExactly` |
| `FullSync.BuildFullGraph` | custom_components/ontology/graph_builder.py:676-723 | query by query, under any failures, a build runs its statements up to the first that raises; one that raises nowhere leaves the specified graph, and in it exactly the nodes, relationships and properties the registries and rules ask for besides what was there |
| `FullSync.ExecuteFullSync` | custom_components/ontology/coordinator.py:435-464 | under any failures graph, fates and success are those of the rebuild's or resync's statements; success leaves the specified graph and publishes one reload event, failure publishes none; after success the graph mirrors the home, the inferred roles of the reconciled entities are those their signals call for, all others as before, and bindings are exact |
| `FullSync.SyncSucceedsExactly` | custom_components/ontology/coordinator.py:435-464 | a rebuild or resync succeeds iff none of its queries raises and, for a rebuild, every exported override is valid |
| `FullSync.ImportOverrides` | custom_components/ontology/overrides.py:137-159 | fail-closed: with one entry that has an empty identifier at either end nothing is written; otherwise the entries are written in order up to the first query that raises |
| `FullSync.ListOverrides` | custom_components/ontology/overrides.py:88-110 | exported are exactly the OVERRIDE_OF relationships from an entity, device or area to a semantic type whose source is the user |
| `Rebuild.RebuildKeepsOverrides` | custom_components/ontology/coordinator.py:435-464 | after a successful rebuild the user overrides are exactly the earlier ones whose source node exists afterwards |
| `Rebuild.RebuildNodes` | custom_components/ontology/coordinator.py:435-464 | which source nodes exist afterwards: those the registry lists and those the integration did not own |
| `Rebuild.RebuildKeepsUserRoles` | custom_components/ontology/coordinator.py:435-464 | user energy-role assignments are unchanged, none is added, and each assignment is bound to its own entity iff that entity has a node |
| `Rebuild.OverridesWithoutImport` | custom_components/ontology/graph_builder.py:755-768 | without the import the overrides left are exactly those with no end the integration owned |
| `FailedRebuild.RebuildLeaves` | custom_components/ontology/coordinator.py:435-464 | wherever a query raises, a rebuild leaves the graph alone if the clear did not take effect; otherwise the overrides left are exactly those with no owned end and those among the first n read whose source the registry lists or the integration does not own, n being given by validity and fates |
| `FailedRebuild.KeepsAllExactly` | custom_components/ontology/coordinator.py:435-464 | a rebuild keeps every override whose source the registry lists or the integration does not own iff the clear does not take effect or each such override with an owned end is among the n imported, a condition on inputs only; it never adds an override |
| `FailedRebuild.OneFailureLosesOverride` | custom_components/ontology/coordinator.py:446-459 | a concrete override that a rebuild without failures keeps, that one query lost right after the clear destroys, and that a later rebuild without failures does not bring back; the condition above is false there |
| `FailedRebuild.OneBadEntryLosesOthers` | custom_components/ontology/overrides.py:137-159 | with no query failing, a concrete graph in which one override with an empty identifier makes the rebuild lose the override of a listed entity; the condition above is false there |
| `Rebuild.ImportIs` | custom_components/ontology/overrides.py:49-72 | importing names every listed semantic type after itself with the user as source, adds the listed overrides whose source has a node, sourced user, and touches nothing else |
| `Rebuild.RepairBinds` | custom_components/ontology/user_knowledge.py:173-185 | after a repair an assignment is bound to its own entity iff that entity has a node, and to nothing else |
| `Rebuild.ReconcileKeeps` | custom_components/ontology/user_knowledge.py:225-251 | a reconcile changes nothing but inferred assignments and edges at assignment nodes |
| `Rebuild.RebuildRoles` | custom_components/ontology/user_knowledge.py:186-251 | after a rebuild each reconciled entity has exactly the inferred role its signals call for, none if they call for none, the earlier one if it has no node; all other inferred roles and all of the user's are as before, and bindings are exact |
| `Rebuild.ResyncRoles` | custom_components/ontology/user_knowledge.py:186-251 | the same after a resync |
| `SyncFacts.ResyncMirrors` | custom_components/ontology/coordinator.py:435-464 | after a resync nodes, relationships and properties are those before, those the registries ask for and those of classified entities, although roles were reconciled on top |
| `SyncFacts.RebuildMirrors` | custom_components/ontology/coordinator.py:435-464 | after a rebuild they are those the clear keeps (nodes neither home_assistant's nor the builder's, and relationships among them), those the registries ask for and those of classified entities, although overrides were imported and roles reconciled on top |
| `EnergyRoles.ResolvePowerEntity` | custom_components/ontology/user_knowledge.py:51-72 | found, not found, ambiguous and not-power are answered exactly when the identifier means one power entity, none, several, or one that is not power; an exact id always wins |
| `EnergyRoles.WrittenEntityResolves` | custom_components/ontology/user_knowledge.py:51-72 | an entity that has been written is meant by its id and, in any case, by the registry's name, else its state's, else its id, and counts as a power measurement iff its state is of device class power |
| `EnergyRoles.OperationChanges` | custom_components/ontology/user_knowledge.py:75-251 | what each single operation does to each stored role: a set, of one of the five roles and an entity that is there, the user's; a delete, the user's; a reconcile, the inferred one; everything else leaves every role |
| `EnergyRoles.OperationKeeps` | custom_components/ontology/user_knowledge.py:75-251 | which entities there are after it, and that a repair leaves bindings exact |
| `EnergyRoles.OneAssignmentEach` | custom_components/ontology/user_knowledge.py:35-42 | over any run of operations at most one assignment exists per source and entity, and it is bound to no other entity |
| `EnergyRoles.RunKeeps` | custom_components/ontology/user_knowledge.py:75-251 | over any run the stored role of a source and entity is the one last assigned and not withdrawn since, or the initial one if never mentioned |
| `EnergyRoles.EffectiveRoleOverRuns` | custom_components/ontology/query_tools.py:446-458 | after any run ending in a repair the effective role of an existing entity is its standing user role, else the role its last reconcile left, else none |
| `EnergyRoles.SetEnergyRole` | custom_components/ontology/user_knowledge.py:75-109 | whatever others write between the two queries: if the identifier meant one power entity, that entity is assigned the role, or the call is rejected as no longer existing iff it has lost its node, or it raises iff a query does; otherwise it is rejected and nothing is written |
| `EnergyRoles.DeleteUserEnergyRole` | custom_components/ontology/user_knowledge.py:112-145 | whatever others write between the two queries: only the user's assignment goes, deletion is reported iff there was one, and the reported fallback is the inferred role at that moment, which is unchanged |
| `Serialization.Reachable` | custom_components/ontology/coordinator.py:385-414 | in every reachable state at most one body runs, exactly while the lock is held; started then queued calls are the admitted ones without the cancelled, in order; calls finish in the order they start |
| `Serialization.RejectionIsSound` | custom_components/ontology/coordinator.py:391-394 | a call is rejected only if it is a service call, a body is running, and another service call is queued |
| `Serialization.RejectedExactly` | custom_components/ontology/coordinator.py:385-400 | a service call is rejected iff the lock is held and, since some service call last found it held, none has entered, finished or been cancelled |
| `Serialization.TurnComes` | custom_components/ontology/coordinator.py:396-414 | a queued call starts right after exactly those ahead of it that were not cancelled, in their order, and all of them have finished by then |
| `Serialization.AnyNumberCanQueue` | custom_components/ontology/coordinator.py:391-400 | for every n a reachable state with n + 1 queued service calls: the documented one-deep slot is not kept |
| `Serialization.OneDeepStep` | custom_components/ontology/coordinator.py:385-414 | with at most one service call queued, a step leaves at most one queued iff it is not a service call let in while another is queued |
| `Serialization.SlotKeptExactly` | custom_components/ontology/coordinator.py:385-414 | over any run the slot stays one deep iff every service call that arrives while another is queued finds the lock held and, since some service call last found it held, none has entered, finished or been cancelled |
| `Serialization.Coordinator.RunSerialized` | custom_components/ontology/coordinator.py:385-400 | the field updates of a service call up to its first suspension are the machine's arrival step |
| `Serialization.Coordinator.RunIncremental` | custom_components/ontology/coordinator.py:402-414 | an incremental update never raises: it enters or queues |
| `Serialization.Coordinator.ResumeHead` | custom_components/ontology/coordinator.py:396-414 | the head waiter taking the lock, and the flag going down if it is a service call, are the machine's resume step |
| `Serialization.Coordinator.CancelQueued` | custom_components/ontology/coordinator.py:395-414 | a waiter cancelled in the queue leaves it, and its finally clause, if it is a service call, is part of the machine's cancel step |
| `Serialization.Coordinator.FinishBody` | custom_components/ontology/coordinator.py:396-400 | releasing the lock and the finally clause are the machine's finish step |
| `Debounce.AcceptedWhenRelevant` | custom_components/ontology/event_listener.py:86-110 | a change is kept iff the entity and its new state are given, neither the entity nor its domain is excluded, and its state, name, class or unit differs; the measurement keeps its earlier time iff nothing it depends on changed |
| `Debounce.LastOfIsLast` | custom_components/ontology/event_listener.py:112-120 | a batch holds exactly the entities of its window, each with its last accepted context |
| `Debounce.StateChangeDebouncer.HandleStateChanged` | custom_components/ontology/event_listener.py:86-120 | the timer is armed iff something is pending, only the first change of a window arms it, and every accepted change joins the open window |
| `Debounce.StateChangeDebouncer.Fire` | custom_components/ontology/event_listener.py:122-128 | firing hands over the open window as one batch and disarms |
| `Debounce.StateChangeDebouncer.CancelAll` | custom_components/ontology/event_listener.py:130-135 | cancelling drops exactly the open window |
| `Debounce.ExactlyOneWindow` | custom_components/ontology/event_listener.py:112-128 | every accepted event lies in exactly one closed window or in the open one |
| `Debounce.FlushRate` | custom_components/ontology/event_listener.py:112-128 | with windows of at least w, flushes are at least w apart and any span L holds at most floor(L/w) + 1 of them |
| `Failures.FailedUpdates.Track` | custom_components/ontology/coordinator.py:809-821 | after a failure the list is the one the attempt history, extended by this failure, gives |
| `Failures.FailedUpdates.Clear` | custom_components/ontology/coordinator.py:823-829 | after a success the list is the one the attempt history, extended by this success, gives |
| `Failures.FailedUpdates.RecordBatch` | custom_components/ontology/coordinator.py:866-870 | the results of a batch are recorded as one attempt per entity, in order |
| `Failures.EntriesFollowHistory` | custom_components/ontology/coordinator.py:809-829 | after any run of attempts a target has an entry iff its last attempt failed, and only one; its count is that of the failures since the last success, its error the last one, and the entries stand in the order in which their targets began to fail |
| `Activity.WindowSum` | custom_components/ontology/coordinator.py:365-376 | the five slots sum to the log entries of the current minute and the four before it |
| `Activity.SyncActivity.Roll` | custom_components/ontology/coordinator.py:325-343 | zeroing aged-out slots keeps every slot equal to the total of its minute, after any idle gap, and leaves the counters alone when the clock is set back |
| `Activity.SyncActivity.RecordEvent` | custom_components/ontology/coordinator.py:345-351 | one event is logged for the current minute |
| `Activity.SyncActivity.RecordBatch` | custom_components/ontology/coordinator.py:353-363 | one batch and its size are logged for the current minute |
| `Activity.SyncActivity.Publish` | custom_components/ontology/coordinator.py:365-376 | the published sums are the log totals of the five-minute window, the average their exact quotient |
| `Activity.CountedNow` | custom_components/ontology/coordinator.py:325-351 | under a clock that does not run backwards the minute counted is the current one; otherwise it is one of the tracked window sharing its slot |
| `Geometry.WrongExactlyWhere` | custom_components/ontology/mesh_geometry.py:25-49 | for all inputs the test says whether the closed segments share a point, except exactly where an explicit arithmetic condition on the inputs says it errs |
| `Geometry.IntersectsExactly` | custom_components/ontology/mesh_geometry.py:25-49 | a corollary: for clearly crossing directions, a wall clearly off a parallel path, or exactly collinear segments and a path with a length, the test is true iff the closed segments share a point |
| `Geometry.CrossingIsExact` | custom_components/ontology/mesh_geometry.py:47-49 | off the parallel case: true iff the segments share a point, and that point is unique |
| `Geometry.ParallelWithTolerance` | custom_components/ontology/mesh_geometry.py:36-46 | exactly parallel, path with a length: true iff the segments share a point or the wall lies beside the path within the tolerance and overlaps it |
| `Geometry.OffPathIsExact` | custom_components/ontology/mesh_geometry.py:36-39 | nearly parallel with the wall clearly off the path: rightly refused, the segments share no point |
| `Geometry.NearMissCountsAsCrossed` | custom_components/ontology/mesh_geometry.py:36-46 | a concrete wall that is not touched but counts as crossed, at which the condition says the test errs |
| `Geometry.PointPathCrossesNothing` | custom_components/ontology/mesh_geometry.py:40-42 | a path of no length crosses nothing, so the test errs exactly when the point lies on the wall |
| `Geometry.IntersectsEitherWay` | custom_components/ontology/mesh_geometry.py:25-49 | swapping the path's endpoints never changes the answer |
| `Geometry.FactorBounds` | custom_components/ontology/mesh_geometry.py:59-74 | by Cauchy-Schwarz the slant multiplier is between 1 and 3 for all inputs |
| `Geometry.SquareOnCostsOnce` | custom_components/ontology/mesh_geometry.py:59-74 | the multiplier is 1 iff the path meets the wall square-on |
| `Geometry.FactorEitherWay` | custom_components/ontology/mesh_geometry.py:59-74 | the multiplier does not depend on the path's direction |
| `Geometry.PointEitherWay` | custom_components/ontology/mesh_geometry.py:77-90 | nor does the crossing point |
| `Geometry.CrossingPointIsCommon` | custom_components/ontology/mesh_geometry.py:77-90 | the crossing point of a crossed wall lies on both segments |
| `Links.OpeningAt` | custom_components/ontology/mesh_geometry.py:93-106 | the first door or window the point falls in, none iff it falls in no priced opening |
| `Links.WallCrossingDetails` | custom_components/ontology/mesh_geometry.py:109-142 | the loops with their early exit compute the specified list |
| `Links.CrossedOnceInOrder` | custom_components/ontology/mesh_geometry.py:109-142 | exactly the crossed walls are listed, each once and in input order, each at between 1 and 3 times the nonnegative loss of the wall or opening passed |
| `Links.DetailsEitherWay` | custom_components/ontology/mesh_geometry.py:109-142 | swapping the path's endpoints gives the same walls, openings and losses |
| `Links.DevicePositions` | custom_components/ontology/query_tools.py:785-805 | a device is placed iff it has a usable row, at its first row with the most pins |
| `LinkFacts.WallIs` | custom_components/ontology/mesh_geometry.py:59-142 | one wall: listed once iff the path meets one of its segments, at 3 dB through a door, 2 dB through a window, its attenuation or nothing otherwise, where the path passes the first segment it meets, times the inverse sine of the angle, at most 3 |
| `LinkFacts.ListedExactly` | custom_components/ontology/mesh_geometry.py:109-142 | all walls: the list is that of the crossed walls in order, each at that cost and with that opening |
| `LinkFacts.SlabSlantIs` | custom_components/ontology/mesh_geometry.py:159-163 | the slab multiplier times the rise is the distance, or it is 3 if that is more than three times the rise, or 1 for a negligible distance |
| `LinkFacts.LinkIsRight` | custom_components/ontology/query_tools.py:922-951 | a priced link, for any rounding to the nearest: which fields are null in which case; on one floor the number of crossed walls and of those passed through an opening, and an expected loss within 0.15 of the free-space loss of the reported distance plus the sum of the walls' costs; across floors the level difference and the same with the slabs' cost |
| `LinkFacts.ClearPath` | custom_components/ontology/query_tools.py:925-938 | a path that crosses nothing is charged nothing for walls |
| `LinkFacts.StandsIs` | custom_components/ontology/query_tools.py:785-805 | a device stands where the first of its rows with the most pins says, at height 0 without one, and nowhere without a pinned row |
| `LinkFacts.PriceLinks` | custom_components/ontology/query_tools.py:894-951 | one priced link per row, in order, each right in that sense from where its two devices stand |
| `Links.PriceEitherWay` | custom_components/ontology/query_tools.py:922-951 | a link is priced alike from A to B and from B to A, on one floor and across floors, whatever rounding is used |
| `Links.SlabFactorAtLeastOne` | custom_components/ontology/mesh_geometry.py:159-163 | the slab multiplier is at least 1 iff the path is not shorter than its height (or negligible), and at most 3 |
| `Links.SlabWithExactDistance` | custom_components/ontology/query_tools.py:940-946 | with the unrounded distance a slab never costs less than square-on |
| `Links.DiscountExactly` | custom_components/ontology/query_tools.py:940-946 | with the rounded distance a slab is discounted iff the path is not negligible and rounding takes the distance below the rise, and it is never more than half a centimetre below |
| `Links.RoundedDistanceCanDiscount` | custom_components/ontology/query_tools.py:944-946 | a concrete priced link between two pins straight above each other, for any rounding to the nearest: distance 0.4 m for a rise of 0.404 m, and a slab of 15 dB charged 14.9 dB |
| `Merges.DedupIsFirsts` | custom_components/ontology/impact_analysis.py:120-142 | deduplication keeps every identifier exactly once, and only input items |
| `Merges.FirstWins` | custom_components/ontology/impact_analysis.py:125-135 | each identifier is represented by its first item |
| `Merges.JoinedInOrder` | custom_components/ontology/impact_analysis.py:120-142 | what is merged for a key is every input's own list for that key, in the order of the inputs, nothing for an input without it |
| `Merges.MergedIs` | custom_components/ontology/impact_analysis.py:120-142 | a merge is a prefix of the distinct items, of exactly a hundred or of all if there are fewer |
| `Merges.MergeDependencies` | custom_components/ontology/impact_analysis.py:120-142 | the nested loops give, for each of the five keys, the first hundred distinct items of all inputs in order |
| `Merges.MergePart` | custom_components/ontology/impact_analysis.py:120-142 | replacing any stretch of the inputs by its own merge never changes the merge |
| `Merges.NestedEqualsFlat` | custom_components/ontology/impact_analysis.py:189-287 | merging per-device merges with the area's own entities equals merging everything at once: truncating per device loses nothing |
| `Slices.UniqueNodes` | custom_components/ontology/graph_backends.py:262-270 | the loop with its seen set computes the specified list |
| `Slices.UniqueIsExact` | custom_components/ontology/graph_backends.py:262-270 | node ids are distinct, order is kept, and a node is dropped iff an earlier one has its id |
| `Slices.RenderableRelationships` | custom_components/ontology/graph_backends.py:273-289 | the loop with its seen set computes the specified list |
| `Slices.RenderableIsExact` | custom_components/ontology/graph_backends.py:273-289 | relationships are distinct and drawable, order is kept, and one is dropped iff it dangles, takes a node's id or repeats an earlier drawable one |
| `Slices.SliceIsGood` | custom_components/ontology/graph_backends.py:239-259 | every slice is well formed and within its limits, filtering again changes nothing, and an untruncated slice was built from all rows |
| `Slices.SliceNodesExactly` | custom_components/ontology/graph_backends.py:239-270 | which rows become nodes: those within the limit that are there and the first of their id, in order |
| `Slices.SliceRelsExactly` | custom_components/ontology/graph_backends.py:239-289 | which rows become relationships: those within the limit that are there, join two of the slice's nodes, take no node's id and are the first such of their id, in order |
| `Slices.BuildSlice` | custom_components/ontology/graph_backends.py:239-259 | slicing, normalising and filtering give that slice |
| `Findings.FindingStore.MergeFinding` | custom_components/ontology/validation.py:251-292 | a finding is created open with its first and last detection time, or reopened keeping the first |
| `Findings.FindingStore.ReconcileCategory` | custom_components/ontology/validation.py:295-349 | merging, deleting what an earlier run resolved and resolving the rest, in this order; the count is that of detected targets whose merge succeeded |
| `Findings.OneRun` | custom_components/ontology/validation.py:251-349 | per finding, one run, whichever merges fail, leaves it open if a merge of it succeeded, resolved at this time if it was open or its merges took effect but raised, as it was if it was resolved at this very time, and removes it otherwise; last seen at its last merge, first seen at creation |
| `Findings.OthersUntouched` | custom_components/ontology/validation.py:295-349 | a run of one category never touches findings of another, failed merges or not |
| `Findings.HistoryIsExact` | custom_components/ontology/validation.py:295-349 | with no failed merge, after n runs the open findings are those detected in run n; the resolved ones those not in run n whose last detection was followed only by runs of one time; all others are gone |
| `Findings.ResolvedForOneRun` | custom_components/ontology/validation.py:295-349 | if no run carries the time of the run before it, the resolved findings are those of run n - 1 not in n |
| `Findings.FirstDetectedSurvivesOneGap` | custom_components/ontology/validation.py:251-349 | first_detected_at is that of the run that created the finding: a one-run gap keeps it, a longer one resets it |
| `Findings.SameTimeKeepsResolved` | custom_components/ontology/validation.py:318-332 | a concrete history where two runs in a row with the same time keep a resolved finding one run longer |
| `Brackets.AcceptsBalanced` | custom_components/ontology/query_service.py:86-98 | the stack ends empty without mismatch iff the text's bracket characters form a word of the three-kind Dyck grammar |
| `Brackets.BracketsMatch` | custom_components/ontology/query_service.py:86-98 | the loop accepts a stripped text iff its brackets are balanced in that grammar |

## Left out

- Timestamps: `updated_at`, `created_at`, `exported_at` and `occurred_at` are not stored; times appear only where behaviour depends on them.
- Floating point: geometry, measurements and averages are over exact reals; `hypot` and the Euclidean norm are given by their squares, `round` and the free-space loss are arbitrary functions.
- Links.SlabFactorAtLeastOne: no lower bound of 1 is claimed for the slab multiplier of a priced link, because pricing passes the rounded distance.
- Labels and relationship types are a datatype, so the identifier check against injected labels has nothing to reject and is not modelled.
- Retry backoff and the Bolt driver: a query is one step that may fail before or after taking effect.
- Dashboard sync at the end of a build, its own failures, and the counts a build returns.
- Domain and integration names are written once per entity instead of once per distinct name in sorted order; the rows are merges, so the graph is the same. Roles are reconciled in the order given, not sorted, and the results hold for every order.
- Lower-casing, `float()` and the lower-cased signal text are inputs; `d.name_by_user or d.name` is one optional name.
- Device, area and label updates, and the single-entity sync service: the same row shapes as the entity write.
- Serialization.TurnComes: a cancelled waiter leaves the queue at once; in asyncio it leaves when its task next runs.
- Serialization.Reachable: no bound on queued service calls is claimed, because the code keeps none.
- Live.MessagesAccountForEvents: a message keeps the kind of the first event it coalesced, so nothing is claimed about the last one's.
- Live: `send_event` raising, which the handler swallows, counts as sent; the 250 ms of a timer are not modelled, timers fire in any order.
- Debounce: the delay is read when the timer is armed, so `FlushRate` takes a lower bound on all delays.
- Rebuild: classification runs before the overrides are imported, so suppression of classification by an override is shown for a resync only (`FullSync.ClassifyOne`).
- Findings: the RELATES_TO edge of a finding and the detectors are not modelled; detected targets are inputs.
- Merges.MergeDependencies: merged warnings are not modelled; area results drop the warnings of their devices.
- Links: the MATCH queries behind `mesh_link_walls`, its limit and the fields copied from the row.
- Slices: element normalisation and property redaction; rows arrive normalised.
- Brackets: comment and string stripping and the checks before it; the loop gets an arbitrary text.
- The panel, sensors, configuration flow, services wiring, GraphQL add-on, MCP server, agent audit and mesh pruning.
