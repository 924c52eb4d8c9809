# A verified model of the warehouse RFID pipeline

The pipeline turns antenna reads into stock: MQTT ingest writes raw reads, the
debouncer collapses them into observations and gives them a direction from the IR
gate, the state engine moves containers, and a sync worker copies the warehouse to a
cloud replica. This project models those five components in Dafny and proves what
they keep over whole runs, with crashes, outages, retries and redelivery between any
two steps.

Database tables are sequences and maps. A service that works by changing things is a
class whose methods do what its methods do, statement by statement. The methods are
proved to take the steps of a protocol on values, and the theorems are about every run
of that protocol. What readers of the tables are owed is said once more in the
`Promises` files, in the columns themselves. `dafny verify dfyconfig.toml` checks the whole project.

| files | component |
|---|---|
| `Transitions`, `Forest`, `Warehouse`, `MovementLog`, `Transactions`, `WarehouseRuns`, `WarehousePromises`, `RunTheorems`, `StateEngine`, `WarehouseApi` | state engine, corrections, container and session endpoints, stock figure |
| `SyncTables`, `SyncBatch`, `SyncSend`, `SyncProtocol`, `SyncPromises`, `SyncConvergence`, `SyncService` | cloud sync |
| `Grouping`, `Segments`, `DebounceMachine`, `DebounceRuns`, `DebouncePromises`, `Debouncer`, `DebouncerLives` | debouncer |
| `GateDirection`, `GateMatching`, `GateSimulator`, `Interrogation` | gate direction, and the simulator that generates for it |
| `IngestProtocol`, `Ingest` | acknowledged ingest over MQTT 3.1.1 |

## Where code and documentation part ways

The model follows the code. Each of these is proved, with the exact condition under
which the code does what is promised.

- The design document calls a repeated read a no-op. It is, except after the return of a
  reusable container, which a second read books into stock
  (`Transitions.RereadMovesNothingIff`, `Transitions.RereadOfReturnedPalletMovesAgain`).
- The endpoint that attaches children refuses self-placement and an existing other
  parent, but not a parent that stands on the child: that closes a cycle, and the tree
  query then never comes to an end (`WarehouseRuns.StepStacksUpIff`,
  `RunTheorems.AttachUnderOwnBox`, `Forest.WalkStopsIffNoCycle`).
- A dispatch is charged to the session open when the observation is handled, which need
  not be the one open when the tag was read (`RunTheorems.ChargedToItsOwnSessionIff`,
  `RunTheorems.ChargedToTheNextSession`).
- The sync batch is read again when it is full of one stamp. A full batch of several
  stamps that ends inside a group of equal ones moves the cursor past rows it did not
  send (`SyncBatch.BatchCoversIff`); that breaks the replica exactly when one of them is
  out of date in the cloud (`SyncProtocol.SyncKeepsIff`), as it is after two ordinary
  transactions (`SyncProtocol.SplitGroupBreaksTheReplica`).
- Rows held by a foreign key are said to go next cycle. When the parent is in a later
  batch of the same table they never do, and the table reports itself caught up
  (`SyncConvergence.SomeWarehouseStalls`). From any state that a run can reach, the
  passes bring the cloud level exactly when no cursor has passed a row that is out of
  date in the cloud, and no batch ahead passes by one or waits for a parent in a later
  one (`SyncConvergence.CatchesUpIff`). A row once passed stays lost while nobody
  writes, with every pass reporting that all is well
  (`SyncConvergence.BrokenReplicaStaysBroken`, `SyncConvergence.CaughtUpIsLevelIff`).
- Directions come from the beam events around a batch. The crossings found among them
  are those of the whole history exactly when all that overlap the reads lie inside that
  window (`GateMatching.WindowFindsAllIff`). With the gate clear at some moment of the
  window before the first read, the direction is the same exactly when none still going
  on at its end would have been chosen with another one
  (`GateMatching.WindowedDirectionIff`). A load that was in the gate before the window
  and is still there at the first read is never found (`GateMatching.LongStopIsNotFound`,
  `GateMatching.LongStopLosesDirection`).
- A group closed because nothing arrived is split from reads that come late but were
  made within the quiet period (`DebounceMachine.LateReadIsSplit`). The events are the
  plain cut exactly when no read is late (`DebounceMachine.StreamingRefinesGapSplitIff`),
  and while the service runs none is unless it arrives more than the quiet period after
  the one before it (`DebouncerService.PromptTagsAreCutAtGaps`).
- Ingest acknowledges only after the commit. If the broker redelivers over a new
  connection while a copy is still queued, and then gives the packet identifier to
  another message, the acknowledgement of the second copy releases that other message
  before it was committed (`IngestProtocol.SendIsSafeIff`,
  `IngestProtocol.ReusedIdentifierDrops`).

## Model

| member | source | states |
|---|---|---|
| Transitions.DecisionByOutcome | src/tasker_rfid/services/state_engine/transitions.py:63-149 | which reads move a container where, which do nothing and which raise an anomaly, each as an if-and-only-if; a read never moves and complains at once; children are detached exactly on the return of a reusable container |
| Transitions.RereadMovesNothingIff | src/tasker_rfid/services/state_engine/transitions.py:129-149 | the same read again after a move moves nothing, except exactly after the return of a reusable container |
| Transitions.RereadOfReturnedPalletMovesAgain | src/tasker_rfid/services/state_engine/transitions.py:66-89 | the exception, concretely: a returned pallet read twice at the entrance goes into stock |
| Forest.WalkStopsIffNoCycle | src/tasker_rfid/services/state_engine/service.py:101-110 | the recursive tree query comes to an empty level if and only if the root does not stand, however indirectly, on itself |
| Forest.EmptyLevelIsLast | src/tasker_rfid/services/state_engine/service.py:101-110 | once a level is empty, everything standing on the root was on an earlier level |
| Forest.AppendKeepsForest | src/tasker_rfid/services/api/routers/containers.py:61-81 | registering a container, on a parent or on none, keeps the parent relation a forest |
| Forest.DetachKeepsForest | src/tasker_rfid/services/state_engine/service.py:150 | taking containers off their parents keeps it a forest |
| Forest.AttachKeepsForestIff | src/tasker_rfid/services/api/routers/containers.py:127-132 | attaching keeps it a forest if and only if the parent does not stand on an attached container |
| Warehouse.FindTid | src/tasker_rfid/services/state_engine/service.py:93-98 | the container registered against a tag, or none when no container has it |
| Warehouse.OpenSession | src/tasker_rfid/services/state_engine/service.py:122-127 | the open dispatch session that was opened last, or none when all are closed |
| Warehouse.AttachObjection | src/tasker_rfid/services/api/routers/containers.py:116-125 | attachment is accepted exactly when every child is registered, is not the parent itself, and stands on nothing else |
| Warehouse.AppliedKeeps | src/tasker_rfid/services/state_engine/service.py:407-540 | handling an observation writes containers, movements and anomalies, and no other table |
| MovementLog.HistoryIsChain | src/tasker_rfid/services/state_engine/service.py:139-143 | a container's movements in a chained log start at REGISTERED, join end to start, never stand still, and end at the logged status |
| MovementLog.LoggedStockIsFlow | src/tasker_rfid/services/api/routers/stock.py:29-37 | stock by logged status is quantity moved into IN_STOCK less quantity moved out, for any chained log |
| MovementLog.OnHandIsLogged | src/tasker_rfid/services/api/routers/stock.py:29-37 | the stock figure over the status column is the one over the log whenever the two agree |
| MovementLog.OnHandBySelection | src/tasker_rfid/services/api/routers/stock.py:29-37 | the stock figure depends on nothing but which containers are IN_STOCK |
| MovementLog.OwnMovesTakeTurns | src/tasker_rfid/services/state_engine/transitions.py:63-126 | along a chain of transitions the table allows, arrivals, dispatches and returns take turns, and their counts give the status |
| Transactions.MoveRowsEffect | src/tasker_rfid/services/state_engine/service.py:250-270 | moving a list of rows: the status of each, the movements appended, everything else as it was |
| Transactions.MovesOfEach | src/tasker_rfid/services/state_engine/service.py:251-270 | one movement for each listed row that was elsewhere, none for the others |
| Transactions.TreeMoveIsExact | src/tasker_rfid/services/state_engine/service.py:231-272 | a tree move ends with the whole subtree at the target, one movement for each member that differed and none otherwise, nothing outside changed, in whatever order the query lists the tree |
| Transactions.ShortPalletIffChildMissed | src/tasker_rfid/services/state_engine/service.py:316-359 | a pallet comes up short if and only if one of its children has no observation at the portal within the window |
| Transactions.EveryObservationHasOneOutcome | src/tasker_rfid/services/state_engine/service.py:407-540 | each observation is exactly one of: one blocking anomaly and no movement, nothing, or at least one movement with at most one SHORT_PALLET |
| Transactions.AnomalyNamesTheReason | src/tasker_rfid/services/state_engine/service.py:417-492 | a read that is turned away leaves one anomaly with the tag, its container and the reason: unknown tag, no direction, no session, illegal transition |
| Transactions.ShortfallIsRecordedIff | src/tasker_rfid/services/state_engine/service.py:494-525 | a load that moves is reported short exactly when a child was missed; a returning one never is |
| Transactions.MovementsAreAttributed | src/tasker_rfid/services/state_engine/service.py:466-512 | a portal movement carries a session exactly when it goes to DISPATCHED, and then the one open in that transaction, for every descendant too |
| Transactions.ReturnsEmpty | src/tasker_rfid/services/state_engine/service.py:274-314 | a returning reusable container loses exactly its direct children, changes no other status, writes one movement, and leaves the stock of every SKU as it was, whatever stands on what |
| Transactions.ReadIsRecorded | src/tasker_rfid/services/state_engine/service.py:135-137 | every outcome for a known tag records when and where it was seen, and touches nothing outside its tree |
| WarehouseRuns.StepKeepsLedger | src/tasker_rfid/services/state_engine/service.py:407-540 | every transaction, of the engine or of the API, whatever it asks, keeps log and status in agreement, the sessions one after another and the attribution of movements |
| WarehouseRuns.StepStacksUpIff | src/tasker_rfid/services/api/routers/containers.py:111-133 | a transaction keeps the parent relation a forest if and only if it is no accepted attachment onto a parent that stands on the child |
| WarehouseRuns.StepKeeps | src/tasker_rfid/services/state_engine/service.py:407-540 | both together, for guarded transactions |
| WarehouseRuns.RunKeeps | src/tasker_rfid/services/state_engine/service.py:542-582 | the first over any run, with failed attempts in between; the second over runs whose attachments are guarded |
| WarehouseRuns.LogAndStatusAgree | src/tasker_rfid/services/state_engine/service.py:241-314 | in every reachable state, cycles of parents included, each container's movements are a chain from REGISTERED and its status is where the chain ends |
| WarehouseRuns.StockIsConserved | src/tasker_rfid/services/api/routers/stock.py:29-37 | in every reachable state, for every SKU, stock on hand is what was moved in less what was moved out, corrections and cascades included |
| WarehouseRuns.OneDockAtATime | src/tasker_rfid/services/api/routers/dispatch_sessions.py:39-49 | at most one session is open in every reachable state |
| WarehouseRuns.DispatchesAreAttributed | src/tasker_rfid/services/state_engine/service.py:466-512 | in every reachable state a portal movement has a session if and only if it goes to DISPATCHED; a correction has none |
| RunTheorems.HandledOnce | src/tasker_rfid/services/state_engine/service.py:527-540 | over any run an observation is handled once if it gets processed, and not at all otherwise |
| RunTheorems.RetriesChangeNothing | src/tasker_rfid/services/state_engine/service.py:180-200 | rollbacks can be left out of a run; what a failed attempt wrote before its rollback is dealt with by `StateEngine.Handle` and `StateEngine.Serve` below |
| RunTheorems.StepObservations | src/tasker_rfid/services/state_engine/service.py:152 | a step changes nothing about an observation but its processed flag, and that only by handling it |
| RunTheorems.TreesAreFinite | src/tasker_rfid/services/state_engine/service.py:101-110 | in every state reached with guarded attachments the tree query stops, from any root |
| RunTheorems.AttachNeedsGuard | src/tasker_rfid/services/api/routers/containers.py:111-133 | as long as attachments have been guarded, an accepted one leaves a forest if and only if the parent stands on none of the children |
| RunTheorems.AttachUnderOwnBox | src/tasker_rfid/services/api/routers/containers.py:55-133 | a pallet and a box on it, registered; the request to put the pallet on its own box is accepted, and the forest is gone |
| RunTheorems.RepeatedReadsAreBounded | src/tasker_rfid/services/state_engine/transitions.py:63-149 | a container that never stands on another and is never corrected: at most two movements if not reusable; otherwise arrivals, dispatches and returns stay within one of each other, in that order |
| RunTheorems.ChargedToItsOwnSessionIff | src/tasker_rfid/services/state_engine/service.py:466-492 | the session a dispatch is charged to is the one open when the tag was read if and only if it was already open then |
| RunTheorems.ChargedToTheNextSession | src/tasker_rfid/services/state_engine/service.py:466-492 | in a reachable state: a read during one customer's session, handled during the next, is charged to the next |
| RunTheorems.SessionsFollowOneAnother | src/tasker_rfid/services/api/routers/dispatch_sessions.py:31-113 | as long as the clock does not step back, each session is closed, and not before it was opened, by the time the next one opens |
| RunTheorems.DockOpensAndCloses | src/tasker_rfid/services/api/routers/dispatch_sessions.py:36-114 | opening then closing: the session found, the refusals while it is open and once it is closed |
| RunTheorems.RegisteringAddsNoStock | src/tasker_rfid/services/api/routers/containers.py:55-98 | registration makes the tag findable, stores for each SKU what the request adds up to, and leaves every stock figure as it was |
| RunTheorems.AttachesExactly | src/tasker_rfid/services/api/routers/containers.py:111-133 | exactly the named children get the parent; no status, no movement and no other container changes |
| RunTheorems.CorrectsOneContainer | src/tasker_rfid/services/state_engine/corrections.py:73-144 | a correction is accepted exactly for a known container and another of the three statuses, or refused with the code; no other container changes, and the movement names the statuses, the time, the reason and the operator |
| RunTheorems.CorrectionCanBeUndone | src/tasker_rfid/services/state_engine/corrections.py:92-134 | correcting back restores every container, and the log keeps both movements |
| WarehousePromises.ReadsMoveWholeLoads | src/tasker_rfid/services/state_engine/service.py:494-512 | a registered container read coming in takes everything standing on it, however deep, into stock, and one in stock going out during an order takes it out: each has the new status, the time and the portal, with one movement for each that differed, and nothing else changes |
| WarehousePromises.HandlingMovesWholeLoads | src/tasker_rfid/services/state_engine/service.py:527-540 | the same of the whole transaction |
| WarehousePromises.CountsGiveOneEach | src/tasker_rfid/services/state_engine/service.py:250-270 | one movement in the log for each container of the load that had another status, and none of any other |
| WarehousePromises.RegistrationNeeds | src/tasker_rfid/services/api/routers/containers.py:58-73 | a registration is accepted exactly when the tag is new, the parent named is known and so is every SKU; otherwise the code of the first of these that fails |
| WarehousePromises.RegistrationStores | src/tasker_rfid/services/api/routers/containers.py:75-98 | it adds one container with the tag, the flag and the named parent, and of each SKU what the lines of the request add up to; every other container and its quantities stay |
| WarehousePromises.QuantityOfRequest | src/tasker_rfid/services/api/routers/containers.py:83-97 | the rows inserted add to one container, and to each SKU of it, what the request says |
| WarehousePromises.NewTagIsFound | src/tasker_rfid/services/api/routers/containers.py:75-98 | the new tag is found, and no stock figure has moved |
| WarehousePromises.RegisteredContentsArrive | src/tasker_rfid/services/state_engine/service.py:494-512 | registered and then read coming in, a box raises the stock of each SKU by exactly what was registered in it |
| WarehousePromises.FirstObjectionCounts | src/tasker_rfid/services/api/routers/containers.py:116-125 | a refused attachment is refused for the first child there is something against, with that code: itself, unknown, or standing elsewhere |
| WarehousePromises.DockRequests | src/tasker_rfid/services/api/routers/dispatch_sessions.py:39-114 | opening needs a closed dock and a known customer, closing an open session; each refusal has its code, and what is written is one row with its customer and its time |
| StateEngineService.Unprocessed | src/tasker_rfid/services/state_engine/service.py:84-90 | the first unprocessed observations by id, up to the batch size |
| StateEngineService.HandleExtends | src/tasker_rfid/services/state_engine/service.py:407-540 | handling one observation extends a run by one step |
| StateEngineService.LoadedIff | src/tasker_rfid/services/state_engine/service.py:398-405 | an observation counts as of a load if and only if some container has its tag and some container stands on that one |
| StateEngineService.StateEngine.ContainerTree | src/tasker_rfid/services/state_engine/service.py:101-110 | for a root that does not stand on itself the level-by-level query ends and lists the subtree, each container once |
| StateEngineService.StateEngine.JoinChildren | src/tasker_rfid/services/state_engine/service.py:106-108 | the containers whose parent is on the last level, each once |
| StateEngineService.StateEngine.MoveContainerTree | src/tasker_rfid/services/state_engine/service.py:231-272 | row by row it does the move of the whole tree, and returns how many movements it wrote |
| StateEngineService.StateEngine.ReturnReusableContainer | src/tasker_rfid/services/state_engine/service.py:274-314 | moves the container, detaches its children and returns how many they were |
| StateEngineService.StateEngine.CheckShort | src/tasker_rfid/services/state_engine/service.py:316-359 | adds the SHORT_PALLET anomaly when children are missed and nothing otherwise |
| StateEngineService.StateEngine.Apply | src/tasker_rfid/services/state_engine/service.py:412-536 | one transaction: it commits exactly the effect of the observation, on every branch; only a read that moves a load asks for its tree |
| StateEngineService.StateEngine.Handle | src/tasker_rfid/services/state_engine/service.py:407-540 | attempts that fail may write anything and others may commit in between; the committed effect is that of one attempt on the state it found, where a load that moves moves with everything standing on it, and the waiting time is forgotten; asked only is that others leave a tree query it needs able to end |
| StateEngineService.StateEngine.ShouldWait | src/tasker_rfid/services/state_engine/service.py:361-405 | true exactly for a container with children first seen less than the settling time ago; the first sight is remembered |
| StateEngineService.StateEngine.HandleUnlessWaiting | src/tasker_rfid/services/state_engine/service.py:549-555 | an observation waits if and only if, in the state it was looked at in, it is of a loaded container first seen less than the settling time ago or not yet; otherwise it is handled |
| StateEngineService.StateEngine.RunOnce | src/tasker_rfid/services/state_engine/service.py:546-555 | one round, cut short anywhere, with API and debouncer transactions between any two steps, is a run of the protocol; of the observations it came to exactly the loads still settling when looked at are held, and the others processed; asked only is that others keep the queries it needs able to end |
| StateEngineService.StateEngine.Serve | src/tasker_rfid/services/state_engine/service.py:542-582 | rounds stopped or crashing anywhere, and restarts that forget everything in memory, are still a run, in which each observation is handled once if it got processed and otherwise never |
| StateEngineService.ForestsAreSafe | src/tasker_rfid/services/state_engine/service.py:101-110 | where the parent relation is a forest every tree query ends, and handling an observation keeps it one |
| StateEngineService.NoneOnCycleIsSafe | src/tasker_rfid/services/state_engine/service.py:101-110 | and also where there are cycles, as long as nothing still to be handled is of a container on one; handling keeps that too |
| WarehouseApi.Api.Register | src/tasker_rfid/services/api/routers/containers.py:55-98 | commits the new container or refuses with the code of the first failed check and leaves everything as it was |
| WarehouseApi.Api.Attach | src/tasker_rfid/services/api/routers/containers.py:111-133 | commits the attachment or refuses, and then nothing changed |
| WarehouseApi.Api.ApplyManualCorrection | src/tasker_rfid/services/state_engine/corrections.py:92-144 | one status change with its movement in the caller's transaction, or a refusal that writes nothing |
| WarehouseApi.Api.Correct | src/tasker_rfid/services/api/routers/containers.py:155-183 | a correction, committed, or refused with nothing changed |
| WarehouseApi.Api.OpenSession | src/tasker_rfid/services/api/routers/dispatch_sessions.py:36-70 | opens a session unless one is open or the customer is unknown |
| WarehouseApi.Api.CloseSession | src/tasker_rfid/services/api/routers/dispatch_sessions.py:97-114 | closes an open session; refuses an unknown or closed one |
| SyncTables.ReferencedTablesComeFirst | src/tasker_rfid/services/sync/tables.py:42-55 | every foreign key points to an earlier table, but for the containers' own; which tables are tracked by id |
| SyncBatch.PageIsUnique | src/tasker_rfid/services/sync/service.py:256-268 | the query's order fixes the page: there is one such page |
| SyncBatch.PageSize | src/tasker_rfid/services/sync/service.py:256-268 | a page is full or holds everything asked for |
| SyncBatch.BatchAdvances | src/tasker_rfid/services/sync/service.py:239-290 | a batch is empty exactly when nothing is beyond the cursor; otherwise its rows are beyond it, and its last stamp moves the cursor up |
| SyncBatch.BatchCoversIff | src/tasker_rfid/services/sync/service.py:239-290 | moving the cursor to the last stamp leaves no row behind if and only if the batch does not end inside a group of equal stamps |
| SyncBatch.RereadIsTheGroup | src/tasker_rfid/services/sync/service.py:270-289 | a full batch of one stamp is read again without a limit, and then it is the whole group |
| SyncBatch.IdsHaveNoGroups | src/tasker_rfid/services/sync/tables.py:35-37 | tables tracked by id never end inside a group |
| SyncBatch.SomeRowIsPassedBy | src/tasker_rfid/services/sync/service.py:239-290 | for any batch size of at least two, a table whose first batch mixes stamps and passes a row by |
| SyncSend.UpsertAllEffect | src/tasker_rfid/services/sync/service.py:302-323 | upserting a batch one row at a time succeeds exactly when every reference is there, and has the effect of all rows at once |
| SyncSend.TwoPassIsDirectUpsert | src/tasker_rfid/services/sync/service.py:335-354 | for any row order, the two passes succeed exactly when each parent is in the batch or the cloud, and then equal a direct upsert; otherwise nothing is written |
| SyncSend.OnePassIsUpsert | src/tasker_rfid/services/sync/service.py:355-359 | the same for tables without parents; rows of append-only tables that are there stay |
| SyncSend.OnePassNeedsParentsFirst | src/tasker_rfid/services/sync/service.py:336-339 | a box before its pallet breaks the foreign key in one pass and not in two |
| SyncProtocol.SendBatchEffect | src/tasker_rfid/services/sync/service.py:325-378 | rows and cursor land together, or the cloud is as it was |
| SyncProtocol.SyncTableEffect | src/tasker_rfid/services/sync/service.py:382-424 | what a table's turn does and reports: nothing to send, held by a foreign key, or sent with the cursor at the last stamp |
| SyncPromises.HeldIffPointsNowhere | src/tasker_rfid/services/sync/service.py:401-421 | a batch is held if and only if a row of it that has to be written refers to a row that is not in the cloud, or has a parent neither there nor in the batch |
| SyncPromises.TheCloudIsConsistent | src/tasker_rfid/services/sync/service.py:325-378 | in every reached state, whatever was held or passed by, every row of the cloud finds the rows it refers to, and its parent, in the cloud |
| SyncPromises.RunLeavesNothingDangling | src/tasker_rfid/services/sync/service.py:382-424 | no run of turns, writes and outages leaves a row pointing at nothing |
| SyncPromises.BatchIsInOrder | src/tasker_rfid/services/sync/service.py:256-268 | a batch is in the order of stamps, and of keys within a stamp |
| SyncPromises.LeftOutComesAfter | src/tasker_rfid/services/sync/service.py:256-268 | what a batch leaves out comes after it in that order |
| SyncPromises.PlaceIsOfItsKind | src/tasker_rfid/services/sync/service.py:391-397 | append-only tables are followed by id and the others by time of update, in reading the place and in writing it |
| SyncProtocol.SyncKeepsIff | src/tasker_rfid/services/sync/service.py:382-424 | a turn keeps every row at or below its cursor current in the cloud if and only if it sent nothing or passed by no row that is out of date there |
| SyncProtocol.SyncKeepsTableIff | src/tasker_rfid/services/sync/service.py:382-424 | the same of one table alone, whatever the state of the others |
| SyncProtocol.WholeGroupsPassNothing | src/tasker_rfid/services/sync/service.py:239-290 | a batch that does not end inside a group of equal stamps passes nothing by |
| SyncProtocol.WriteKeeps | src/tasker_rfid/services/sync/service.py:239-290 | local writes stamped above everything keep it too |
| SyncProtocol.TrailsThroughoutIff | src/tasker_rfid/services/sync/service.py:382-437 | over any run of turns, writes and outages the cloud trails a table all along if and only if each turn of that table which sent something passed by no row out of date in the cloud, whatever the other tables did |
| SyncProtocol.AppendOnlyIsHarmless | src/tasker_rfid/services/sync/tables.py:35-37 | the turns of a table tracked by id never pass a row by, in any run |
| SyncProtocol.RunKeepsInv | src/tasker_rfid/services/sync/service.py:426-437 | with no turn of any table passing by a stale row, a run keeps the whole invariant |
| SyncProtocol.TheCloudTrails | src/tasker_rfid/services/sync/service.py:382-437 | in every reachable state the cloud has no row the warehouse lacks; and each local row of a table stamped at or below its cursor is in the cloud with its current values, if the table is append-only or its own turns passed by no stale row |
| SyncProtocol.ReachedIsSound | src/tasker_rfid/services/sync/service.py:382-437 | in every reached state the local rows are in order, the cloud has no row the warehouse lacks, and each cursor was once the stamp of a row |
| SyncProtocol.SplitGroupBreaksTheReplica | src/tasker_rfid/services/sync/service.py:239-290 | for any batch size of at least two, two local transactions and one turn leave a row the cursor has passed and the cloud lacks |
| SyncConvergence.FirstBacklogGoes | src/tasker_rfid/services/sync/tables.py:40-55 | parents-first order: the first table with a backlog is not held by another table |
| SyncConvergence.PassMakesHeadway | src/tasker_rfid/services/sync/service.py:426-437 | a pass over a backlog leaves strictly fewer rows to send |
| SyncConvergence.PassesConverge | src/tasker_rfid/services/sync/service.py:426-437 | with the warehouse quiet, a cloud that trails it and no batch ahead passing by a stale row or waiting for a later one, as many passes as there are rows left bring every table level, and it stays so |
| SyncConvergence.CatchesUpIff | src/tasker_rfid/services/sync/service.py:382-437 | from every reached state, some number of passes brings the cloud level if and only if no cursor has passed a row out of date there, no batch on the way passes by one, and none holds a row whose parent comes in a later one |
| SyncConvergence.SplitMayBeHarmless | src/tasker_rfid/services/sync/service.py:239-290 | for any batch size, a batch that ends inside a group and does no harm, the rows passed by being current |
| SyncConvergence.CaughtUpIsLevelIff | src/tasker_rfid/services/sync/service.py:426-437 | from every reached state, a pass that reports caught up and held nothing has left nothing to send, and the cloud is level if and only if no cursor had passed a row out of date there |
| SyncConvergence.BrokenReplicaStaysBroken | src/tasker_rfid/services/sync/service.py:239-290 | for any batch size of at least two, a reached state in which every pass reports caught up with nothing held and no number of passes brings the cloud level |
| SyncConvergence.ParentsAheadIsPlanned | src/tasker_rfid/services/sync/service.py:382-437 | said of a table as it stands: with no two rows to go of one stamp, and each parent in the cloud or to go no later than its child, every batch ahead goes |
| SyncConvergence.ParentsAheadConverges | src/tasker_rfid/services/sync/service.py:426-437 | from a trailing cloud such a warehouse gets across in as many passes as it has rows left |
| SyncConvergence.HeldReportsCaughtUp | src/tasker_rfid/services/sync/service.py:409-421 | a table held by a foreign key reports caught up with rows left over |
| SyncConvergence.SomeWarehouseStalls | src/tasker_rfid/services/sync/service.py:409-421 | for any batch size, a warehouse that ordinary transactions lead to and that never gets across, while its table reports caught up |
| SyncService.Sync.NextRows | src/tasker_rfid/services/sync/service.py:239-290 | the method reads the batch the protocol asks for |
| SyncService.Sync.Upserts | src/tasker_rfid/services/sync/service.py:344-346 | statement by statement: done, stopped by a foreign key, or cut off |
| SyncService.Sync.SetParents | src/tasker_rfid/services/sync/service.py:347-354 | the second pass in the same terms |
| SyncService.Sync.SendRowsAndCursor | src/tasker_rfid/services/sync/service.py:325-378 | committed, held or cut off at any statement; the committed cloud changes only when all of it went |
| SyncService.Sync.SyncOne | src/tasker_rfid/services/sync/service.py:382-424 | a table's turn is that of the protocol; or the cursor read, the local read or the link failed and nothing changed |
| SyncService.Sync.OnePass | src/tasker_rfid/services/sync/service.py:426-437 | a pass, with others writing before any turn, stopped anywhere or ended by a failure, is a run of the protocol with one turn for each table in order; it reports caught up exactly when every turn did; when nobody writes it is the plain pass |
| Grouping.OpenGroup.Add | src/tasker_rfid/services/debouncer/grouping.py:37-48 | adding a read in place has the effect of the totals function |
| Grouping.StartSummarises | src/tasker_rfid/services/debouncer/grouping.py:67-78 | a new group's totals are those of its one read |
| Grouping.AddSummarises | src/tasker_rfid/services/debouncer/grouping.py:37-48 | after adding, the totals are still earliest, latest, number and strongest of the reads |
| Grouping.RejectedIff | src/tasker_rfid/services/debouncer/grouping.py:121-144 | rejected exactly when too few reads, or some reads have a strength and none reaches the floor |
| Segments.LatestIsGreatest | src/tasker_rfid/services/debouncer/grouping.py:42-44 | the latest read is the greatest timestamp, whatever order reads come in |
| Segments.SegmentsKeepEveryRead | src/tasker_rfid/services/debouncer/service.py:312-352 | cutting loses, repeats and reorders no read, leaves no event empty and no gap inside one |
| Segments.LateReadsSplitEvents | src/tasker_rfid/services/debouncer/grouping.py:81-107 | reads in time order: each read that comes after a closing for silence, but within the quiet period of the read before it, adds one cut; the events are the plain cut if and only if there is none |
| Segments.StreamingIsGapSplit | src/tasker_rfid/services/debouncer/grouping.py:81-96 | without silence the streaming cut is the cut at every gap longer than the quiet period |
| DebounceMachine.EachTagOnItsOwn | src/tasker_rfid/services/debouncer/service.py:312-352 | a tag's events depend on its own trace alone: not on the batches, other tags or the order groups close in |
| DebounceMachine.SameTraceSameEvents | src/tasker_rfid/services/debouncer/service.py:312-371 | two histories in which a tag's reads and closings come in the same order leave it with the same events |
| DebounceMachine.BatchesDoNotMatter | src/tasker_rfid/services/debouncer/service.py:312-352 | a batch may be split anywhere, with closings before and after: every group is the same |
| DebounceMachine.ReadsAreConserved | src/tasker_rfid/services/debouncer/service.py:312-371 | finished and open events of a tag hold its reads, each once and in order |
| DebounceMachine.StreamingRefinesGapSplitIff | src/tasker_rfid/services/debouncer/service.py:312-371 | a tag read in time order gets the plain cut if and only if no read of it came late after its group was closed for silence |
| DebounceMachine.LateReadIsSplit | src/tasker_rfid/services/debouncer/service.py:354-371 | any two reads of a tag within the quiet period, its group closed between their arrivals: one event by the gaps, two by the stream |
| DebounceMachine.PromptReadsStayTogether | src/tasker_rfid/services/debouncer/service.py:354-371 | a read is late only if it arrives more than the quiet period after the one before it though made within it; where none does, a tag gets the plain cut |
| DebounceMachine.ReplayIsGapSplit | src/tasker_rfid/services/debouncer/service.py:322-351 | reads already stored, in any batches, are cut exactly at the gaps |
| DebounceMachine.TotalsSummarise | src/tasker_rfid/services/debouncer/grouping.py:37-48 | running totals summarise exactly the reads that went in |
| DebounceMachine.TotalsAreTheSummary | src/tasker_rfid/services/debouncer/grouping.py:110-118 | the totals of an event are its summary and nothing else is |
| DebouncePromises.OwnReadsAreReadsAt | src/tasker_rfid/services/debouncer/service.py:322-341 | the reads that count for a group are those with its tag at an antenna of its portal |
| DebouncePromises.TagsAreKeptApart | src/tasker_rfid/services/debouncer/service.py:322-351 | in any run each read of each group, finished or open, has the tag of the group and was made at an antenna of its portal |
| DebouncePromises.RunsKeepTagsApart | src/tasker_rfid/services/debouncer/service.py:395-441 | the same with crashes, stops and restarts |
| DebouncePromises.GroupsHoldAllTheirReads | src/tasker_rfid/services/debouncer/service.py:395-441 | without a crash the groups of a tag at a portal hold exactly the reads up to the cursor with that tag at an antenna of that portal, in order |
| DebouncePromises.TouchedByReadsAt | src/tasker_rfid/services/debouncer/service.py:322-351 | a batch touches a group exactly if it has a read of its tag at its portal |
| DebouncePromises.FetchTakesTheOldest | src/tasker_rfid/services/debouncer/service.py:90-96 | a round fetches the oldest reads past the cursor, five thousand or all there are |
| DebouncePromises.RoundTakesFromBacklog | src/tasker_rfid/services/debouncer/service.py:408-420 | each round takes what it fetched off the backlog |
| DebouncePromises.RoundsConsumeEveryRead | src/tasker_rfid/services/debouncer/service.py:408-420 | with nothing new coming in, as many rounds as there are five thousands in the backlog consume every read |
| DebounceRuns.FetchMovesTheCursor | src/tasker_rfid/services/debouncer/service.py:90-96 | the reads up to the new cursor are those up to the old one and the fetched ones |
| DebounceRuns.RoundHolds | src/tasker_rfid/services/debouncer/service.py:408-420 | a round adds a tag's fetched reads to what is held for it and drops none |
| DebounceRuns.RunKeeps | src/tasker_rfid/services/debouncer/service.py:395-436 | over any run with crashes: what is held for a tag are stored reads of that tag in id order, none past the cursor |
| DebounceRuns.EachReadIsUsedOnce | src/tasker_rfid/services/debouncer/service.py:263-295 | with crashes and restarts anywhere, a read is in at most one finished group, once |
| DebounceRuns.WithoutCrashNothingIsLost | src/tasker_rfid/services/debouncer/service.py:395-441 | without a crash, finished and open groups of a tag hold exactly its reads up to the cursor, in order |
| DebounceRuns.CountsAddUp | src/tasker_rfid/services/debouncer/service.py:312-393 | the counts over kept, rejected and open groups add up to the reads consumed |
| DebounceRuns.CrashLosesExactlyTheOpenGroups | src/tasker_rfid/services/debouncer/service.py:25-30 | whatever crashed before and runs afterwards, the reads a crash loses are exactly those of the groups open at the time |
| DebounceRuns.FirstCrashLosesExactlyTheOpenGroups | src/tasker_rfid/services/debouncer/service.py:25-30 | before the first crash that is said of all reads consumed |
| DebounceRuns.StopLosesNothing | src/tasker_rfid/services/debouncer/service.py:438-441 | after a graceful stop every read held is in a finished group, and if nothing crashed before, every read up to the cursor |
| DebouncerService.SpanCovers | src/tasker_rfid/services/debouncer/service.py:238-240 | the batch's window covers each of its observations |
| DebouncerService.SpanSpans | src/tasker_rfid/services/debouncer/service.py:237-240 | the window of a portal reaches from the earliest first read to the latest last read of its observations, and there is none without any |
| DebouncerService.DirectionsAreTheNearest | src/tasker_rfid/services/debouncer/service.py:220-261 | the row of an observation has the direction of the nearest of the crossings that overlap its reads, of those the events show from five seconds before the batch to five after; UNKNOWN exactly where none overlaps or that one has none; nothing where there is no gate |
| DebouncerService.BatchDirectionIsFullHistory | src/tasker_rfid/services/debouncer/service.py:220-261 | the batch does not matter: with the overlapping crossings inside its window, and the gate not blocked for good since before it, the direction is that of the nearest crossing in the gate's whole history, or UNKNOWN |
| DebouncerService.TouchedByOwnReads | src/tasker_rfid/services/debouncer/service.py:319-351 | after a batch a group was last touched now if a read of its tag is in it, and otherwise when it was before |
| DebouncerService.LoopsTouchLast | src/tasker_rfid/services/debouncer/service.py:354-371 | loops that close exactly the groups gone quiet by the clock close a tag only when all its reads so far came longer ago than the quiet period |
| DebouncerService.PromptTagsAreCutAtGaps | src/tasker_rfid/services/debouncer/service.py:312-371 | so over any loops a tag whose reads come in time order and promptly gets the plain cut |
| DebouncerService.GroupTable.Start | src/tasker_rfid/services/debouncer/grouping.py:67-78 | a new group for a tag and portal, standing for that one read |
| DebouncerService.GroupTable.Add | src/tasker_rfid/services/debouncer/grouping.py:37-48 | a read joins the group in place; the other groups are as they were |
| DebouncerService.GroupTable.QuietKeys | src/tasker_rfid/services/debouncer/service.py:366-370 | exactly the groups nothing has come for in the quiet period, or all when forced |
| DebouncerService.Debouncer.Finish | src/tasker_rfid/services/debouncer/service.py:342-343 | the observation put aside carries the totals of the group's reads |
| DebouncerService.Debouncer.Absorb | src/tasker_rfid/services/debouncer/service.py:312-352 | folding a batch into the groups, in place, is the fold over its reads, each going to the group of its own tag and portal |
| DebouncerService.Debouncer.PopGroups | src/tasker_rfid/services/debouncer/service.py:366-371 | each of these groups is closed once, and no other |
| DebouncerService.Debouncer.CloseQuietGroups | src/tasker_rfid/services/debouncer/service.py:354-393 | closes the quiet groups, and keeps of all finished ones those the filters pass |
| DebouncerService.KeptAreThePassingGroups | src/tasker_rfid/services/debouncer/service.py:373-393 | the observations kept are exactly the summaries of the finished groups with enough reads and, if any read has a strength, one at or above the floor |
| DebouncerService.ObservationsAreOfOneTag | src/tasker_rfid/services/debouncer/service.py:354-393 | whatever crashed, an observation kept summarises a group that passes the filters, all of whose reads have its tag and its portal |
| DebouncerService.KeptInOrder | src/tasker_rfid/services/debouncer/service.py:373-393 | the filter keeps exactly what has enough reads and enough strength, each once and in order |
| DebouncerService.Debouncer.Filter | src/tasker_rfid/services/debouncer/service.py:373-393 | keeps, in order, what is not rejected |
| DebouncerService.Debouncer.ResolveDirections | src/tasker_rfid/services/debouncer/service.py:220-261 | each row gets the direction of the nearest crossing that overlaps its reads, of those from five seconds before to five after its batch; UNKNOWN when there is none or it has none, nothing where there is no gate |
| DebouncerService.Debouncer.RunOnce | src/tasker_rfid/services/debouncer/service.py:409-420 | one loop is one round of the protocol, and leaves the observations table equal to the kept finished groups and the cursor in step |
| DebouncerLives.Live | src/tasker_rfid/services/debouncer/service.py:396-442 | all the loops of a process, with reads coming in between: they close groups by the clock alone, what was finished and is open is what that work makes of the reads, and it is a run of the protocol |
| DebouncerLives.Serve | src/tasker_rfid/services/debouncer/service.py:396-442 | over any number of processes, stopped or killed anywhere, the database goes through one run of the protocol, and its observations are the groups finished in it that passed the filters |
| DebouncerService.Debouncer.Flush | src/tasker_rfid/services/debouncer/service.py:438-441 | a graceful stop closes every group, writes what is kept and leaves the cursor |
| GateDirection.CrossingsFromEvents | src/tasker_rfid/services/debouncer/direction.py:49-102 | the loop computes the parser's crossings |
| GateDirection.CrossingsArePassages | src/tasker_rfid/services/debouncer/direction.py:49-102 | a crossing is reported if and only if the events hold such a passage: entered with nothing broken, left with nothing broken, and directed exactly when the other beam followed in time |
| GateDirection.EachPassageOnce | src/tasker_rfid/services/debouncer/direction.py:49-102 | the crossings are all the passages, each once and in the order they were made |
| GateMatching.CutWhereClearIff | src/tasker_rfid/services/debouncer/direction.py:71-100 | a stream can be parsed in two parts, whatever follows, if and only if the gate is clear at the cut |
| GateMatching.WindowIsASlice | src/tasker_rfid/services/debouncer/service.py:104-109 | the events of a window are a contiguous slice of the history |
| GateMatching.NearestIsFirstNearest | src/tasker_rfid/services/debouncer/direction.py:135-140 | no crossing's middle is nearer to that of the reads than the one chosen, by start and end of both, and those before it are farther |
| GateMatching.NearestIsFound | src/tasker_rfid/services/debouncer/direction.py:126-140 | of the crossings that overlap the reads one is nearest, those before it being farther, and its direction is the one found |
| GateMatching.DirectionIsOfTheNearest | src/tasker_rfid/services/debouncer/direction.py:126-140 | whichever overlapping crossing is nearest by its start and end gives the direction; there is none exactly where nothing overlaps or that one has none |
| GateMatching.OutsideIsNotFound | src/tasker_rfid/services/debouncer/service.py:238-243 | whatever the history, a window shows no crossing that starts before it or ends after it |
| GateMatching.WindowFindsAllIff | src/tasker_rfid/services/debouncer/service.py:238-243 | in any history, the window shows the crossings that overlap the reads and no others if and only if each lies inside it; if something stays in the gate for good since before the window, if and only if the events of the window by themselves hold no passage overlapping the reads |
| GateMatching.WindowedDirectionIff | src/tasker_rfid/services/debouncer/direction.py:105-140 | with the gate clear at some moment of the window before the first read, it gives the direction of the whole history if and only if each overlapping crossing still going on at its end is no nearer than one found, or has the same direction |
| GateMatching.WindowedLookupAgrees | src/tasker_rfid/services/debouncer/direction.py:105-140 | with every overlapping crossing inside the window, and the gate not blocked for good since before it, the two lookups agree, ties included |
| GateMatching.LongStopOverlaps | src/tasker_rfid/services/debouncer/direction.py:71-100 | what is in the gate when the window begins, and leaves it only at the first read or later, is a crossing that overlaps the reads |
| GateMatching.LongStopIsNotFound | src/tasker_rfid/services/debouncer/service.py:238-247 | any load in the gate when the window begins and still there at the first read is not found, in any history |
| GateMatching.LongStopLosesDirection | src/tasker_rfid/services/debouncer/service.py:238-247 | an instance of it, where nothing is found and the direction is lost |
| GateSimulator.RoundTripIff | src/tasker_rfid/services/simulator/model.py:291-336 | one load's events parse back to exactly its crossing if and only if the beams are no further apart than the blocked time and the timeout |
| GateSimulator.BeamsBreakAroundTheMiddle | src/tasker_rfid/services/simulator/model.py:291-336 | the beams break around the middle of the pass, the drawn separation apart or five milliseconds, the inner one first on the way out |
| GateSimulator.EventsInOrder | src/tasker_rfid/services/simulator/model.py:329-336 | events of loads one after another are in time order |
| GateSimulator.TrafficRoundTrip | src/tasker_rfid/services/debouncer/direction.py:49-102 | for any list of loads, each after the last has cleared, the parser gives back exactly one crossing per load, with its start, end and direction |
| Interrogation.TurnIsRemainder | src/tasker_rfid/services/simulator/model.py:178-194 | whose turn an instant is: its number modulo the number of antennas |
| Interrogation.AntennaReads | src/tasker_rfid/services/simulator/model.py:178-194 | one antenna's loop attempts every instant of its turn before the end, once, and no other |
| Interrogation.PassReads | src/tasker_rfid/services/simulator/model.py:162-197 | over all antennas each instant j / hz before the end is attempted once, at the antenna whose turn it is, and no other |
| Interrogation.AttemptsFillThePass | src/tasker_rfid/services/simulator/model.py:162-197 | so there are exactly as many attempts as instants before the end, whatever the number of antennas |
| IngestProtocol.HeldUntilAcknowledged | src/tasker_rfid/services/ingest/service.py:14-20 | a published message is waiting, in flight or acknowledged, whatever crashes |
| IngestProtocol.RowsNeverExceedDeliveries | src/tasker_rfid/services/ingest/service.py:26-31 | rows and rejects of a message never exceed its deliveries |
| IngestProtocol.QueueIsBounded | src/tasker_rfid/services/ingest/service.py:119 | never more than fifty thousand messages wait for the writer |
| IngestProtocol.WrittenInOrder | src/tasker_rfid/services/ingest/service.py:175-310 | as long as the client does not crash, each table is what was delivered for it, in the order of delivery, but for what is in the batch or the queue |
| IngestProtocol.BatchHas | src/tasker_rfid/services/ingest/service.py:189-236 | a batch goes to the tables and to the rejects in its own order |
| IngestProtocol.TablesHoldTheirKind | src/tasker_rfid/services/ingest/service.py:189-236 | crash or no crash, the tables hold valid messages of their own kind, and only invalid ones are rejected |
| IngestProtocol.BatchIsSorted | src/tasker_rfid/services/ingest/service.py:189-236 | each message of a batch becomes a read, a gate event or a reject, once |
| IngestProtocol.StepKeeps | src/tasker_rfid/services/ingest/service.py:298-310 | commit before acknowledge: each step keeps every acknowledged message settled |
| IngestProtocol.NeverDrop | src/tasker_rfid/services/ingest/service.py:14-20 | with losses, redelivery and crashes anywhere, an acknowledged message is a committed row or was rejected, if no new message goes out under an identifier a copy still carries |
| IngestProtocol.CrashIsRecovered | src/tasker_rfid/services/ingest/service.py:14-20 | after a crash in any state, any message the broker still holds is settled by its next delivery and then acknowledged, and nothing committed is taken back |
| IngestProtocol.SendIsSafeIff | src/tasker_rfid/services/ingest/service.py:308-310 | that condition is exact: sending under an identifier is safe for all that may follow if and only if no copy at the client still carries it |
| IngestProtocol.RestartsDropNothing | src/tasker_rfid/services/ingest/service.py:128-135 | when only a restarted client gets redeliveries the condition always holds, and nothing is dropped |
| IngestProtocol.ReusedIdentifierDrops | src/tasker_rfid/services/ingest/service.py:308-310 | a run without a crash that acknowledges a message before committing it |
| IngestService.Ingest.OnMessage | src/tasker_rfid/services/ingest/service.py:164-171 | the callback queues the message and does nothing else |
| IngestService.Ingest.CollectBatch | src/tasker_rfid/services/ingest/service.py:175-187 | takes messages one by one from the front of the queue, up to the limit, the deadline or an empty queue, while the network side goes on |
| IngestService.Ingest.ValidateBatch | src/tasker_rfid/services/ingest/service.py:189-236 | the loop splits the batch into reads, gate events and identifiers to acknowledge, rejects included |
| IngestService.Ingest.WriteBatch | src/tasker_rfid/services/ingest/service.py:243-296 | all rows or none; it gives up only after failing, while stopping, for the grace period |
| IngestService.Ingest.CommitBatch | src/tasker_rfid/services/ingest/service.py:304-307 | commits the batch or keeps it, with nothing to acknowledge |
| IngestService.Ingest.AcknowledgeAll | src/tasker_rfid/services/ingest/service.py:308-310 | acknowledges the committed messages one by one, with network steps in between, as a run of the protocol |
| IngestService.Ingest.WriterRound | src/tasker_rfid/services/ingest/service.py:302-310 | once round the loop, with the network side at work between any two steps, is a run whose own steps are to collect, commit and acknowledge, or to collect only; it is careful if the network was |

## Assumptions

- Transactions are atomic and serial, and one that failed had no effect; there is one
  sync worker, one debouncer, one state engine and one writer.
- Ids and stamps of new local rows are above everything already visible.
- The cloud copy of a mutable row is compared without its `updated_at`, which the
  cloud's own trigger rewrites.
- Clock readings, failures, lost links, the order in which queries list equal rows, and
  the order in which groups close are inputs, chosen freely.
- Where a tree query has to come to an end, and nowhere else, the root does not stand on
  itself (`QueryEnds` in `StateEngine`). Over whole rounds others keep what makes it so:
  that the parent relation is a forest (`ForestsAreSafe`), which for the API means the
  guard `Guarded` in `WarehouseRuns`, shown to be necessary; or only that nothing still
  to be handled is on a cycle (`NoneOnCycleIsSafe`).
- The clock of one debouncer process does not step back; it is monotonic.
- An observation's direction is looked up when it is written, from the gate events
  stored by then.

## Left out

- GateMatching.WindowedDirectionIff: speaks of gates that are clear at some moment of the window before the first read; for the others the window may show crossings that never happened, and GateMatching.WindowFindsAllIff and GateMatching.LongStopIsNotFound say what is lost.
- GateMatching.WindowedLookupAgrees: the sufficient half of that, used for whole batches.
- IngestProtocol.NeverDrop: asks that no new message go out under a packet identifier that a copy at the client still carries; without that it is false.
- SyncConvergence.PassesConverge: asks that no cursor has passed a row out of date in the cloud, and that no batch ahead passes by one or waits for a parent in a later one; without that it is false, by SyncConvergence.CatchesUpIff. SyncConvergence.ParentsAheadConverges asks it of the tables as they stand.
- RunTheorems.RepeatedReadsAreBounded: only for a container that never stands on another and is never corrected by hand.
- Row locks between the state engine and the API: transactions are taken one at a time.
- A commit that succeeded but was reported as failed: it would be retried, and is not part of this model.
- Backoff sleeps, reconnecting, signals, logging and in-memory statistics.
- Validation of payloads, which is an input: each message comes with the row it makes, or none. QoS 0 messages, and the DUP flag.
- Anomaly detail, the text of reasons, EPC, lot and expiry, container kind, and the operator's order reference.
- Primary keys are natural numbers; containers, sessions and observations are numbered in order of insertion. Column lists are reduced to what a row refers to, its parent and its other content.
- The schema check before each sync pass, and a local write between the two queries of one batch.
- Dictionary order in Python: groups are closed in any order.
- Signal strength, read probability, noise and the sort by time in the simulator; the attempt rate is an input of the schedule. Times are exact reals.
- Stray reads, anomaly resolution, cycle counts, reports, health, catalogue and the web dashboard: single queries and checks.
- Warnings about reads dated in the future, which change nothing.
