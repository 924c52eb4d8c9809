/**
 The replication protocol as a state machine: local writes, syncing one table,
 outages. What holds in every state, whatever the order of events.
*/
module SyncProtocol {
  import opened Basics
  import opened SyncTables
  import opened SyncBatch
  import opened SyncSend

  /** A row of sync_cursor; only the column of the table's own kind is meaningful. */
  datatype Cursor = Cursor(lastId: int, lastUpdatedAt: int)

  datatype Cloud = Cloud(tables: CloudTables, cursors: map<nat, Cursor>)

  datatype World = World(local: seq<Table>, cloud: Cloud)

  const NEVER_SYNCED: int := 0

  predicate ById(t: nat)
    requires t < TABLES
  {
    SYNCED_TABLES[t].byId
  }

  function CursorValue(cloud: Cloud, t: nat): int
    requires t < TABLES
  {
    if t !in cloud.cursors then (if ById(t) then 0 else NEVER_SYNCED)
    else if ById(t) then cloud.cursors[t].lastId
    else cloud.cursors[t].lastUpdatedAt
  }

  function CursorFor(t: nat, last: int): (c: Cursor)
    requires t < TABLES
  {
    Cursor(if ById(t) then last else 0, if ById(t) then NEVER_SYNCED else last)
  }

  predicate Shaped(w: World) {
    |w.local| == TABLES && |w.cloud.tables| == TABLES
  }

  // ----- syncing one table -----

  datatype Progress = Progress(rows: nat, caughtUp: bool, held: bool)

  function NextBatch(w: World, t: nat, limit: nat): (batch: seq<nat>)
    requires Shaped(w) && t < TABLES
    ensures InTable(w.local[t], batch)
  {
    ReadBatch(w.local[t], ById(t), CursorValue(w.cloud, t), limit)
  }

  /** Rows and cursor, in one transaction. */
  function SendBatch(w: World, t: nat, batch: seq<nat>): (r: Option<Cloud>)
    requires Shaped(w) && t < TABLES && InTable(w.local[t], batch) && batch != []
    ensures r.Some? ==> |r.value.tables| == TABLES
  {
    var sent := SendRows(w.cloud.tables, t, ById(t), SYNCED_TABLES[t].selfReferencing, w.local[t], batch);
    if sent.ForeignKeyViolation? then None
    else Some(Cloud(sent.tables, w.cloud.cursors[t := CursorFor(t, LastStamp(w.local[t], batch))]))
  }

  function SyncTable(w: World, t: nat, limit: nat): (r: (World, Progress))
    requires Shaped(w) && t < TABLES
    ensures Shaped(r.0)
  {
    var batch := NextBatch(w, t, limit);
    if batch == [] then (w, Progress(0, true, false))
    else
      var sent := SendBatch(w, t, batch);
      if sent.None? then (w, Progress(0, true, true))
      else (w.(cloud := sent.value), Progress(|batch|, |batch| < limit, false))
  }

  // ----- what a local row may look like -----

  ghost predicate LocalRowOk(local: seq<Table>, t: nat, k: nat)
    requires |local| == TABLES && t < TABLES && k in local[t]
  {
    var row := local[t][k];
    && row.stamp > 0
    && (ById(t) ==> row.stamp == k)
    && (forall r :: r in row.content.refs ==> r.table in ForeignKeys(t) && r.table < TABLES && r.key in local[r.table])
    && (row.content.parent.Some? ==> t == CONTAINERS && row.content.parent.value in local[t])
  }

  ghost predicate LocalOk(local: seq<Table>) {
    |local| == TABLES && forall t, k :: 0 <= t < TABLES && k in local[t] ==> LocalRowOk(local, t, k)
  }

  // ----- the invariant -----

  /** The cloud's copy of a row is the local row, updated_at aside. */
  predicate Current(w: World, t: nat, k: nat)
    requires t < |w.local| && t < |w.cloud.tables| && k in w.local[t]
  {
    k in w.cloud.tables[t] && w.cloud.tables[t][k] == w.local[t][k].content
  }

  /** Nothing stamped at or below the cursor is missing from the cloud or out of date there. */
  ghost predicate Trails(w: World, t: nat)
    requires Shaped(w) && t < TABLES
  {
    forall k :: k in w.local[t] && w.local[t][k].stamp <= CursorValue(w.cloud, t) ==> Current(w, t, k)
  }

  /** The cloud holds rows of the local table only; append-only rows as they are. */
  ghost predicate Copies(w: World, t: nat)
    requires Shaped(w) && t < TABLES
  {
    forall k :: k in w.cloud.tables[t] ==> k in w.local[t] && (ById(t) ==> Current(w, t, k))
  }

  /** The cursor was once the stamp of a local row. */
  ghost predicate CursorSeen(w: World, t: nat)
    requires Shaped(w) && t < TABLES
  {
    var c := CursorValue(w.cloud, t);
    c == 0 || exists k :: k in w.local[t] && w.local[t][k].stamp >= c
  }

  /** What holds of a table whatever its batches pass by. */
  ghost predicate Bounded(w: World, t: nat)
    requires Shaped(w) && t < TABLES
  {
    Copies(w, t) && CursorSeen(w, t)
  }

  ghost predicate TableInv(w: World, t: nat)
    requires Shaped(w) && t < TABLES
  {
    Trails(w, t) && Bounded(w, t)
  }

  ghost predicate Inv(w: World) {
    Shaped(w) && LocalOk(w.local) && forall t :: 0 <= t < TABLES ==> TableInv(w, t)
  }

  /** What holds in every reached state, whatever batches passed by. */
  ghost predicate Sound(w: World) {
    Shaped(w) && LocalOk(w.local) && forall t :: 0 <= t < TABLES ==> Bounded(w, t)
  }

  /** No cursor has passed a row that is out of date in the cloud. */
  ghost predicate AllTrail(w: World)
    requires Shaped(w)
  {
    forall t :: 0 <= t < TABLES ==> Trails(w, t)
  }

  lemma SoundAndTrailing(w: World)
    ensures Inv(w) <==> Sound(w) && AllTrail(w)
  {
    if Inv(w) {
      forall t | 0 <= t < TABLES
        ensures Bounded(w, t) && Trails(w, t)
      {
        assert TableInv(w, t);
      }
    }
    if Sound(w) && AllTrail(w) {
      forall t | 0 <= t < TABLES
        ensures TableInv(w, t)
      {
        assert Bounded(w, t) && Trails(w, t);
      }
    }
  }

  lemma RowsPointElsewhere(local: seq<Table>, t: nat)
    requires LocalOk(local) && t < TABLES
    ensures RefsElsewhere(t, local[t])
    ensures !SYNCED_TABLES[t].selfReferencing ==> NoParents(local[t])
  {
    ReferencedTablesComeFirst(t);
    forall k, r | k in local[t] && r in local[t][k].content.refs
      ensures r.table != t
    {
      assert LocalRowOk(local, t, k);
    }
    forall k | k in local[t]
      ensures !SYNCED_TABLES[t].selfReferencing ==> local[t][k].content.parent.None?
    {
      assert LocalRowOk(local, t, k);
    }
  }

  /** What syncing a table does, by cases: nothing to send, held by a foreign key, or sent. */
  ghost predicate Goes(w: World, t: nat, batch: seq<nat>)
    requires Shaped(w) && t < TABLES && InTable(w.local[t], batch)
  {
    && BatchRefsPresent(w.cloud.tables, ById(t), t, w.local[t], batch)
    && (t == CONTAINERS ==> ParentsPresent(w.cloud.tables[t].Keys, w.local[t], batch))
  }

  /** The batch has gone into its table and moved its cursor on; nothing else has changed. */
  ghost predicate Advanced(w: World, r: World, t: nat, batch: seq<nat>)
    requires Shaped(w) && Shaped(r) && t < TABLES && batch != [] && InTable(w.local[t], batch)
  {
    && r.local == w.local
    && (forall u :: 0 <= u < TABLES && u != t ==>
          r.cloud.tables[u] == w.cloud.tables[u] && CursorValue(r.cloud, u) == CursorValue(w.cloud, u))
    && r.cloud.tables[t] == Merged(w.cloud.tables[t], ById(t), w.local[t], batch)
    && CursorValue(r.cloud, t) == LastStamp(w.local[t], batch) > CursorValue(w.cloud, t)
  }

  lemma SendAdvances(w: World, t: nat, batch: seq<nat>)
    requires Shaped(w) && LocalOk(w.local) && t < TABLES
    requires batch != [] && InTable(w.local[t], batch) && NoDuplicates(batch)
    requires LastStamp(w.local[t], batch) > CursorValue(w.cloud, t)
    ensures SendBatch(w, t, batch).Some? <==> Goes(w, t, batch)
    ensures Goes(w, t, batch) ==> Advanced(w, w.(cloud := SendBatch(w, t, batch).value), t, batch)
  {
    SendBatchEffect(w, t, batch);
  }

  /** The batch is written whole, with its cursor, or not at all. */
  lemma SendBatchEffect(w: World, t: nat, batch: seq<nat>)
    requires Shaped(w) && LocalOk(w.local) && t < TABLES
    requires batch != [] && InTable(w.local[t], batch) && NoDuplicates(batch)
    ensures SendBatch(w, t, batch) ==
            if Goes(w, t, batch)
            then Some(Cloud(w.cloud.tables[t := Merged(w.cloud.tables[t], ById(t), w.local[t], batch)],
                            w.cloud.cursors[t := CursorFor(t, LastStamp(w.local[t], batch))]))
            else None
  {
    RowsPointElsewhere(w.local, t);
    ReferencedTablesComeFirst(t);
    if t == CONTAINERS {
      TwoPassIsDirectUpsert(w.cloud.tables, t, w.local[t], batch);
    } else {
      OnePassIsUpsert(w.cloud.tables, t, ById(t), w.local[t], batch);
    }
  }

  lemma SyncTableEffect(w: World, t: nat, limit: nat)
    requires Shaped(w) && LocalOk(w.local) && t < TABLES && limit > 0
    ensures var batch := NextBatch(w, t, limit);
            var r := SyncTable(w, t, limit);
            && (batch == [] <==> Above(w.local[t], CursorValue(w.cloud, t)) == {})
            && r.0.local == w.local
            && (batch == [] ==> r == (w, Progress(0, true, false)))
            && (batch != [] && !Goes(w, t, batch) ==> r == (w, Progress(0, true, true)))
            && (batch != [] && Goes(w, t, batch) ==>
                  r.1 == Progress(|batch|, |batch| < limit, false) && Advanced(w, r.0, t, batch))
  {
    var batch := NextBatch(w, t, limit);
    BatchAdvances(w.local[t], ById(t), CursorValue(w.cloud, t), limit);
    if batch != [] {
      SendAdvances(w, t, batch);
    }
  }

  /** Every row that the cursor would pass by, the batch not having it, is current in the cloud already. */
  ghost predicate PassesNothingStale(w: World, t: nat, batch: seq<nat>)
    requires Shaped(w) && t < TABLES && InTable(w.local[t], batch) && batch != []
  {
    forall k :: k in w.local[t] && k !in batch ==>
      CursorValue(w.cloud, t) < w.local[t][k].stamp <= LastStamp(w.local[t], batch) ==> Current(w, t, k)
  }

  /** A batch that does not end inside a group of equal stamps passes nothing by at all. */
  lemma WholeGroupsPassNothing(w: World, t: nat, limit: nat)
    requires Shaped(w) && t < TABLES && limit > 0 && NextBatch(w, t, limit) != []
    requires !EndsInsideGroup(w.local[t], ById(t), CursorValue(w.cloud, t), limit)
    ensures PassesNothingStale(w, t, NextBatch(w, t, limit))
  {
    BatchAdvances(w.local[t], ById(t), CursorValue(w.cloud, t), limit);
    BatchCoversIff(w.local[t], ById(t), CursorValue(w.cloud, t), limit);
  }

  lemma AdvancedKeepsTableIff(w: World, r: World, t: nat, batch: seq<nat>)
    requires Shaped(w) && Shaped(r) && t < TABLES && batch != [] && InTable(w.local[t], batch)
    requires TableInv(w, t) && Advanced(w, r, t, batch)
    requires forall k :: k in batch ==> w.local[t][k].stamp > CursorValue(w.cloud, t)
    ensures TableInv(r, t) <==> PassesNothingStale(w, t, batch)
  {
    var last := batch[|batch| - 1];
    assert last in batch && w.local[t][last].stamp >= CursorValue(r.cloud, t);
    if PassesNothingStale(w, t, batch) {
      forall k | k in w.local[t] && w.local[t][k].stamp <= CursorValue(r.cloud, t)
        ensures Current(r, t, k)
      {
        if k !in batch {
          assert Current(w, t, k);
        }
      }
    } else {
      var k :| k in w.local[t] && CursorValue(w.cloud, t) < w.local[t][k].stamp <= LastStamp(w.local[t], batch)
               && k !in batch && !Current(w, t, k);
      assert !Current(r, t, k);
    }
  }

  lemma SameTable(w: World, r: World, u: nat)
    requires Shaped(w) && Shaped(r) && u < TABLES && r.local[u] == w.local[u]
    requires r.cloud.tables[u] == w.cloud.tables[u] && CursorValue(r.cloud, u) == CursorValue(w.cloud, u)
    ensures TableInv(r, u) <==> TableInv(w, u)
    ensures Bounded(r, u) <==> Bounded(w, u)
  {
    assert forall k :: k in w.local[u] ==> (Current(r, u, k) <==> Current(w, u, k));
  }

  /** Nothing is sent, or the cursor passes by no row that is out of date in the cloud. */
  ghost predicate Harmless(w: World, t: nat, limit: nat)
    requires Shaped(w) && t < TABLES
  {
    var batch := NextBatch(w, t, limit);
    batch != [] && Goes(w, t, batch) ==> PassesNothingStale(w, t, batch)
  }

  /** A table's turn keeps its part of the cloud trailing the warehouse if and only if it is harmless. */
  lemma SyncKeepsTableIff(w: World, t: nat, limit: nat)
    requires Shaped(w) && LocalOk(w.local) && t < TABLES && limit > 0 && TableInv(w, t)
    ensures TableInv(SyncTable(w, t, limit).0, t) <==> Harmless(w, t, limit)
  {
    var batch := NextBatch(w, t, limit);
    SyncTableEffect(w, t, limit);
    if batch != [] && Goes(w, t, batch) {
      BatchAdvances(w.local[t], ById(t), CursorValue(w.cloud, t), limit);
      AdvancedKeepsTableIff(w, SyncTable(w, t, limit).0, t, batch);
    }
  }

  /** The other tables are as they were. */
  lemma SyncKeepsOthers(w: World, t: nat, limit: nat, u: nat)
    requires Shaped(w) && LocalOk(w.local) && t < TABLES && limit > 0 && u < TABLES && u != t
    ensures TableInv(SyncTable(w, t, limit).0, u) <==> TableInv(w, u)
    ensures Bounded(SyncTable(w, t, limit).0, u) <==> Bounded(w, u)
  {
    SyncTableEffect(w, t, limit);
    SameTable(w, SyncTable(w, t, limit).0, u);
  }

  /**
   A table's turn keeps the cloud trailing the warehouse if and only if nothing was
   sent, or the cursor passed by no row that is out of date in the cloud.
  */
  lemma SyncKeepsIff(w: World, t: nat, limit: nat)
    requires Inv(w) && t < TABLES && limit > 0
    ensures var batch := NextBatch(w, t, limit);
            Inv(SyncTable(w, t, limit).0) <==>
            (batch != [] && Goes(w, t, batch) ==> PassesNothingStale(w, t, batch))
  {
    hide TableInv, Bounded;
    SyncKeepsTableIff(w, t, limit);
    SyncTableEffect(w, t, limit);
    forall u | 0 <= u < TABLES && u != t
      ensures TableInv(SyncTable(w, t, limit).0, u)
    {
      SyncKeepsOthers(w, t, limit, u);
    }
  }

  /** A table tracked by id has no groups to split: each of its turns is harmless. */
  lemma IdsAreHarmless(w: World, t: nat, limit: nat)
    requires Shaped(w) && LocalOk(w.local) && t < TABLES && limit > 0 && ById(t)
    ensures Harmless(w, t, limit)
  {
    forall k | k in w.local[t]
      ensures w.local[t][k].stamp == k
    {
      assert LocalRowOk(w.local, t, k);
    }
    IdsHaveNoGroups(w.local[t], CursorValue(w.cloud, t), limit);
    if NextBatch(w, t, limit) != [] {
      WholeGroupsPassNothing(w, t, limit);
    }
  }

  // ----- local writes -----

  /**
   Rows written to one table in one local transaction: appended with fresh ids, or
   inserted and updated under one new updated_at.
  */
  ghost predicate WriteAllowed(w: World, t: nat, rows: map<nat, Content>, stamp: int)
    requires Shaped(w) && t < TABLES
  {
    && (forall k :: k in w.local[t] ==> w.local[t][k].stamp < stamp) && stamp > 0
    && (ById(t) ==> forall k :: k in rows ==> k > 0 && forall j :: j in w.local[t] ==> j < k)
    && LocalOk(Write(w, t, rows, stamp).local)
  }

  function Write(w: World, t: nat, rows: map<nat, Content>, stamp: int): World
    requires t < |w.local| && t < TABLES
  {
    var written: Table := map k | k in rows :: Row(if ById(t) then k else stamp, rows[k]);
    var table: Table := w.local[t] + written;
    w.(local := w.local[t := table])
  }

  /** What is written is stamped beyond the cursor. */
  lemma WrittenBeyondCursor(w: World, t: nat, rows: map<nat, Content>, stamp: int)
    requires Shaped(w) && LocalOk(w.local) && t < TABLES && CursorSeen(w, t) && WriteAllowed(w, t, rows, stamp)
    ensures forall k :: k in rows ==> Write(w, t, rows, stamp).local[t][k].stamp > CursorValue(w.cloud, t)
    ensures CursorSeen(Write(w, t, rows, stamp), t)
  {
    var r := Write(w, t, rows, stamp);
    var c := CursorValue(w.cloud, t);
    forall k | k in rows
      ensures r.local[t][k].stamp > c
    {
      assert LocalRowOk(r.local, t, k);
      if c != 0 {
        var j :| j in w.local[t] && w.local[t][j].stamp >= c;
        assert LocalRowOk(w.local, t, j);
      }
    }
    if c != 0 {
      var j :| j in w.local[t] && w.local[t][j].stamp >= c;
      assert j in r.local[t] && r.local[t][j].stamp >= c;
    }
  }

  lemma WriteKeepsTable(w: World, t: nat, rows: map<nat, Content>, stamp: int)
    requires Shaped(w) && LocalOk(w.local) && t < TABLES && WriteAllowed(w, t, rows, stamp)
    ensures Bounded(w, t) ==> Bounded(Write(w, t, rows, stamp), t)
    ensures TableInv(w, t) ==> TableInv(Write(w, t, rows, stamp), t)
  {
    var r := Write(w, t, rows, stamp);
    if Bounded(w, t) {
      WrittenBeyondCursor(w, t, rows, stamp);
      forall k | k in r.cloud.tables[t]
        ensures k in r.local[t] && (ById(t) ==> Current(r, t, k))
      {
        assert k in w.local[t];
      }
    }
    if TableInv(w, t) {
      forall k | k in r.local[t] && r.local[t][k].stamp <= CursorValue(w.cloud, t)
        ensures Current(r, t, k)
      {
        assert k !in rows && Current(w, t, k);
      }
    }
  }

  lemma WriteKeepsOthers(w: World, t: nat, rows: map<nat, Content>, stamp: int, u: nat)
    requires Shaped(w) && t < TABLES && WriteAllowed(w, t, rows, stamp) && u < TABLES && u != t
    ensures TableInv(Write(w, t, rows, stamp), u) <==> TableInv(w, u)
    ensures Bounded(Write(w, t, rows, stamp), u) <==> Bounded(w, u)
  {
    SameTable(w, Write(w, t, rows, stamp), u);
  }

  lemma WriteKeeps(w: World, t: nat, rows: map<nat, Content>, stamp: int)
    requires Inv(w) && t < TABLES && WriteAllowed(w, t, rows, stamp)
    ensures Inv(Write(w, t, rows, stamp))
  {
    hide TableInv, Bounded;
    WriteKeepsTable(w, t, rows, stamp);
    forall u | 0 <= u < TABLES && u != t
      ensures TableInv(Write(w, t, rows, stamp), u)
    {
      WriteKeepsOthers(w, t, rows, stamp, u);
    }
  }

  // ----- runs -----

  datatype SyncEvent =
    | LocalWrite(t: nat, rows: map<nat, Content>, stamp: int)
    | TableSync(t: nat)
    | Outage

  ghost predicate SyncEnabled(w: World, e: SyncEvent)
    requires Shaped(w)
  {
    match e
    case LocalWrite(t, rows, stamp) => t < TABLES && WriteAllowed(w, t, rows, stamp)
    case TableSync(t) => t < TABLES
    case Outage => true
  }

  ghost function SyncStep(w: World, e: SyncEvent, limit: nat): (r: World)
    requires Shaped(w) && SyncEnabled(w, e)
    ensures Shaped(r)
  {
    match e
    case LocalWrite(t, rows, stamp) => Write(w, t, rows, stamp)
    case TableSync(t) => SyncTable(w, t, limit).0
    case Outage => w
  }

  ghost predicate EnabledSyncs(w: World, events: seq<SyncEvent>, limit: nat)
    requires Shaped(w)
    decreases |events|
  {
    events != [] ==>
      SyncEnabled(w, events[0]) && EnabledSyncs(SyncStep(w, events[0], limit), events[1..], limit)
  }

  ghost function SyncRun(w: World, events: seq<SyncEvent>, limit: nat): (r: World)
    requires Shaped(w) && EnabledSyncs(w, events, limit)
    ensures Shaped(r)
    decreases |events|
  {
    if events == [] then w else SyncRun(SyncStep(w, events[0], limit), events[1..], limit)
  }

  lemma {:induction false} SyncRunLonger(w: World, events: seq<SyncEvent>, e: SyncEvent, limit: nat)
    requires Shaped(w) && EnabledSyncs(w, events, limit) && SyncEnabled(SyncRun(w, events, limit), e)
    ensures EnabledSyncs(w, events + [e], limit)
    ensures SyncRun(w, events + [e], limit) == SyncStep(SyncRun(w, events, limit), e, limit)
    decreases |events|
  {
    hide SyncEnabled, SyncStep;
    if events == [] {
      assert ([] + [e])[1..] == [];
    } else {
      SyncRunLonger(SyncStep(w, events[0], limit), events[1..], e, limit);
      assert (events + [e])[1..] == events[1..] + [e];
    }
  }

  /** Each turn of this table in the run is harmless; the other tables may do what they like. */
  ghost predicate HarmlessRun(w: World, events: seq<SyncEvent>, limit: nat, t: nat)
    requires Shaped(w) && EnabledSyncs(w, events, limit) && t < TABLES
    decreases |events|
  {
    events != [] ==>
      && (events[0] == TableSync(t) ==> Harmless(w, t, limit))
      && HarmlessRun(SyncStep(w, events[0], limit), events[1..], limit, t)
  }

  /** In every state the run goes through, the cloud trails this table. */
  ghost predicate TrailsThroughout(w: World, events: seq<SyncEvent>, limit: nat, t: nat)
    requires Shaped(w) && EnabledSyncs(w, events, limit) && t < TABLES
    decreases |events|
  {
    TableInv(w, t) && (events != [] ==> TrailsThroughout(SyncStep(w, events[0], limit), events[1..], limit, t))
  }

  lemma StepKeepsLocal(w: World, e: SyncEvent, limit: nat)
    requires Shaped(w) && LocalOk(w.local) && limit > 0 && SyncEnabled(w, e)
    ensures LocalOk(SyncStep(w, e, limit).local)
  {
    if e.TableSync? {
      SyncTableEffect(w, e.t, limit);
    }
  }

  lemma StepKeepsTableIff(w: World, e: SyncEvent, limit: nat, t: nat)
    requires Shaped(w) && LocalOk(w.local) && limit > 0 && SyncEnabled(w, e) && t < TABLES && TableInv(w, t)
    ensures TableInv(SyncStep(w, e, limit), t) <==> (e == TableSync(t) ==> Harmless(w, t, limit))
  {
    hide TableInv, Bounded, Harmless;
    match e
    case LocalWrite(u, rows, stamp) =>
      WriteKeepsTable(w, u, rows, stamp);
      if u != t {
        WriteKeepsOthers(w, u, rows, stamp, t);
      }
    case TableSync(u) =>
      if u == t {
        SyncKeepsTableIff(w, t, limit);
      } else {
        SyncKeepsOthers(w, u, limit, t);
      }
    case Outage =>
  }

  /**
   Whatever the other tables do, with writes going on and outages at any point, the
   cloud trails a table all along a run if and only if each of the table's turns that
   sent something passed by no row that is out of date in the cloud.
  */
  lemma {:induction false} TrailsThroughoutIff(w: World, events: seq<SyncEvent>, limit: nat, t: nat)
    requires Shaped(w) && LocalOk(w.local) && limit > 0 && t < TABLES && TableInv(w, t)
    requires EnabledSyncs(w, events, limit)
    ensures TrailsThroughout(w, events, limit, t) <==> HarmlessRun(w, events, limit, t)
    decreases |events|
  {
    if events != [] {
      hide TableInv, Harmless, SyncEnabled, SyncStep, LocalOk;
      StepKeepsLocal(w, events[0], limit);
      StepKeepsTableIff(w, events[0], limit, t);
      if TableInv(SyncStep(w, events[0], limit), t) {
        TrailsThroughoutIff(SyncStep(w, events[0], limit), events[1..], limit, t);
      }
    }
  }

  lemma {:induction false} TrailsAtTheEnd(w: World, events: seq<SyncEvent>, limit: nat, t: nat)
    requires Shaped(w) && EnabledSyncs(w, events, limit) && t < TABLES && TrailsThroughout(w, events, limit, t)
    ensures TableInv(SyncRun(w, events, limit), t)
    decreases |events|
  {
    if events != [] {
      TrailsAtTheEnd(SyncStep(w, events[0], limit), events[1..], limit, t);
    }
  }

  /** An append-only table needs no guard. */
  lemma {:induction false} AppendOnlyIsHarmless(w: World, events: seq<SyncEvent>, limit: nat, t: nat)
    requires Shaped(w) && LocalOk(w.local) && limit > 0 && t < TABLES && ById(t)
    requires EnabledSyncs(w, events, limit)
    ensures HarmlessRun(w, events, limit, t)
    decreases |events|
  {
    if events != [] {
      hide Harmless, SyncEnabled, SyncStep, LocalOk;
      StepKeepsLocal(w, events[0], limit);
      IdsAreHarmless(w, t, limit);
      AppendOnlyIsHarmless(SyncStep(w, events[0], limit), events[1..], limit, t);
    }
  }

  /** What has gone in is of the batch or was there; the cursor is at a row that was sent. */
  lemma AdvancedIsBounded(w: World, r: World, t: nat, batch: seq<nat>)
    requires Shaped(w) && Shaped(r) && t < TABLES && batch != [] && InTable(w.local[t], batch)
    requires Bounded(w, t) && Advanced(w, r, t, batch)
    ensures Bounded(r, t)
  {
    var last := batch[|batch| - 1];
    assert last in batch && w.local[t][last].stamp >= CursorValue(r.cloud, t);
  }

  lemma StepKeepsBounded(w: World, e: SyncEvent, limit: nat, t: nat)
    requires Shaped(w) && LocalOk(w.local) && limit > 0 && SyncEnabled(w, e) && t < TABLES && Bounded(w, t)
    ensures Bounded(SyncStep(w, e, limit), t)
  {
    hide Bounded, TableInv;
    match e
    case LocalWrite(u, rows, stamp) =>
      WriteKeepsTable(w, u, rows, stamp);
      if u != t {
        WriteKeepsOthers(w, u, rows, stamp, t);
      }
    case TableSync(u) =>
      SyncTableEffect(w, u, limit);
      if u != t {
        SyncKeepsOthers(w, u, limit, t);
      } else if NextBatch(w, t, limit) != [] && Goes(w, t, NextBatch(w, t, limit)) {
        AdvancedIsBounded(w, SyncTable(w, t, limit).0, t, NextBatch(w, t, limit));
      }
    case Outage =>
  }

  lemma {:induction false} RunKeepsLocal(w: World, events: seq<SyncEvent>, limit: nat)
    requires Shaped(w) && LocalOk(w.local) && limit > 0 && EnabledSyncs(w, events, limit)
    ensures LocalOk(SyncRun(w, events, limit).local)
    decreases |events|
  {
    if events != [] {
      hide SyncEnabled, SyncStep, LocalOk;
      StepKeepsLocal(w, events[0], limit);
      RunKeepsLocal(SyncStep(w, events[0], limit), events[1..], limit);
    }
  }

  lemma {:induction false} RunKeepsBounded(w: World, events: seq<SyncEvent>, limit: nat, t: nat)
    requires Shaped(w) && LocalOk(w.local) && limit > 0 && t < TABLES && Bounded(w, t)
    requires EnabledSyncs(w, events, limit)
    ensures Bounded(SyncRun(w, events, limit), t)
    decreases |events|
  {
    if events != [] {
      hide Bounded, SyncEnabled, SyncStep, LocalOk;
      StepKeepsLocal(w, events[0], limit);
      StepKeepsBounded(w, events[0], limit, t);
      RunKeepsBounded(SyncStep(w, events[0], limit), events[1..], limit, t);
    }
  }

  /** Two empty databases. */
  function Start(): (w: World)
    ensures Shaped(w)
  {
    var none: Table := map[];
    var nothing: map<nat, Content> := map[];
    World(seq(TABLES, i => none), Cloud(seq(TABLES, i => nothing), map[]))
  }

  lemma StartInv()
    ensures Inv(Start())
  {
  }

  /** Where every table's turns are harmless, the whole invariant is kept. */
  lemma RunKeepsInv(w: World, events: seq<SyncEvent>, limit: nat)
    requires Inv(w) && limit > 0 && EnabledSyncs(w, events, limit)
    requires forall t :: 0 <= t < TABLES ==> HarmlessRun(w, events, limit, t)
    ensures Inv(SyncRun(w, events, limit))
  {
    hide TableInv, Bounded, LocalOk, HarmlessRun;
    forall t | 0 <= t < TABLES
      ensures TableInv(SyncRun(w, events, limit), t)
    {
      TrailsThroughoutIff(w, events, limit, t);
      TrailsAtTheEnd(w, events, limit, t);
    }
    RunKeepsLocal(w, events, limit);
  }

  lemma BoundedAnyway(w: World, t: nat)
    requires Inv(w) && t < TABLES
    ensures Bounded(w, t)
  {
    assert TableInv(w, t);
  }

  /**
   In every state reached from two empty databases, with writes going on and outages at
   any point: the cloud has no row the warehouse lacks; and each row of a table stamped
   at or below its cursor is in the cloud with its current values, if the table is
   append-only, or if its own turns passed by no row out of date in the cloud.
  */
  lemma TheCloudTrails(events: seq<SyncEvent>, limit: nat, t: nat, k: nat)
    requires limit > 0 && EnabledSyncs(Start(), events, limit) && t < TABLES
    ensures var w := SyncRun(Start(), events, limit);
            && (k in w.cloud.tables[t] ==> k in w.local[t])
            && (ById(t) || HarmlessRun(Start(), events, limit, t) ==>
                  (k in w.local[t] && w.local[t][k].stamp <= CursorValue(w.cloud, t) ==> Current(w, t, k)))
  {
    hide HarmlessRun, LocalOk;
    StartInv();
    BoundedAnyway(Start(), t);
    RunKeepsBounded(Start(), events, limit, t);
    if ById(t) {
      AppendOnlyIsHarmless(Start(), events, limit, t);
    }
    if HarmlessRun(Start(), events, limit, t) {
      TrailsThroughoutIff(Start(), events, limit, t);
      TrailsAtTheEnd(Start(), events, limit, t);
    }
  }

  // ----- where it does not -----

  /** A state that some run leads to from two empty databases. */
  ghost predicate Reached(w: World, limit: nat) {
    exists events :: EnabledSyncs(Start(), events, limit) && SyncRun(Start(), events, limit) == w
  }

  lemma StartIsReached(limit: nat)
    ensures Reached(Start(), limit)
  {
    assert EnabledSyncs(Start(), [], limit) && SyncRun(Start(), [], limit) == Start();
  }

  lemma ReachedNext(w: World, e: SyncEvent, limit: nat)
    requires Shaped(w) && Reached(w, limit) && SyncEnabled(w, e)
    ensures Reached(SyncStep(w, e, limit), limit)
  {
    hide SyncEnabled, SyncStep;
    var events :| EnabledSyncs(Start(), events, limit) && SyncRun(Start(), events, limit) == w;
    SyncRunLonger(Start(), events, e, limit);
  }

  /** Only this table has rows, and nothing is in the cloud. */
  ghost function Alone(t: nat, rows: Table): (w: World)
    requires t < TABLES
    ensures Shaped(w) && w.local[t] == rows
  {
    Start().(local := Start().local[t := rows])
  }

  ghost predicate StandsAlone(t: nat, rows: Table)
    requires t < TABLES
  {
    forall k :: k in rows ==>
      && rows[k].stamp > 0 && rows[k].content.refs == {}
      && (rows[k].content.parent.Some? ==> t == CONTAINERS && rows[k].content.parent.value in rows)
  }

  lemma AloneIsLocalOk(t: nat, rows: Table)
    requires t < TABLES && !ById(t) && StandsAlone(t, rows)
    ensures LocalOk(Alone(t, rows).local)
  {
    var local := Alone(t, rows).local;
    forall u, k | 0 <= u < TABLES && k in local[u]
      ensures LocalRowOk(local, u, k)
    {
      assert u == t;
    }
  }

  /** One more transaction on that table. */
  lemma WriteAlone(t: nat, rows: Table, more: map<nat, Content>, stamp: int, after: Table, limit: nat)
    requires t < TABLES && !ById(t) && Reached(Alone(t, rows), limit)
    requires stamp > 0 && forall k :: k in rows ==> rows[k].stamp < stamp
    requires StandsAlone(t, after)
    requires forall k :: k in after <==> k in rows || k in more
    requires forall k :: k in after ==> after[k] == if k in more then Row(stamp, more[k]) else rows[k]
    ensures Reached(Alone(t, after), limit)
  {
    hide Reached, StandsAlone;
    var w := Alone(t, rows);
    AloneIsLocalOk(t, after);
    assert Write(w, t, more, stamp).local[t] == after;
    assert Write(w, t, more, stamp).local == Alone(t, after).local;
    ReachedNext(w, LocalWrite(t, more, stamp), limit);
  }

  lemma NothingAlone(t: nat, limit: nat)
    requires t < TABLES
    ensures Reached(Alone(t, map[]), limit)
  {
    StartIsReached(limit);
    assert Start().local[t := map[]] == Start().local;
  }

  lemma AloneInv(t: nat, rows: Table)
    requires t < TABLES && !ById(t) && StandsAlone(t, rows)
    ensures Inv(Alone(t, rows)) && CursorValue(Alone(t, rows).cloud, t) == 0
  {
    var w := Alone(t, rows);
    AloneIsLocalOk(t, rows);
    forall k | k in rows
      ensures w.local[t][k].stamp > 0
    {
      assert LocalRowOk(w.local, t, k);
    }
    assert forall u :: 0 <= u < TABLES ==> TableInv(w, u);
  }

  /** As many rows as a batch holds. */
  ghost function Many(limit: nat): (rows: map<nat, Content>)
    ensures forall k: nat :: k in rows <==> 0 < k <= limit
    ensures forall k: nat :: k in rows ==> rows[k] == Content(None, {}, "")
  {
    var ks := Range(limit + 1) - {0};
    map k | k in ks :: Content(None, {}, "")
  }

  lemma ReachedIsSound(w: World, limit: nat)
    requires Reached(w, limit) && limit > 0
    ensures Sound(w)
  {
    hide Bounded, LocalOk, EnabledSyncs, SyncRun;
    var events :| EnabledSyncs(Start(), events, limit) && SyncRun(Start(), events, limit) == w;
    StartInv();
    RunKeepsLocal(Start(), events, limit);
    forall t | 0 <= t < TABLES
      ensures Bounded(w, t)
    {
      BoundedAnyway(Start(), t);
      RunKeepsBounded(Start(), events, limit, t);
    }
  }

  /** A row written alone, and then as many as a batch holds written together. */
  lemma OneThenManyIsReached(limit: nat)
    ensures Reached(Alone(SKUS, OneThenMany(limit)), limit)
  {
    hide Reached;
    var one: Table := map[0 := Row(1, Content(None, {}, ""))];
    NothingAlone(SKUS, limit);
    WriteAlone(SKUS, map[], map[0 := Content(None, {}, "")], 1, one, limit);
    WriteAlone(SKUS, one, Many(limit), 2, OneThenMany(limit), limit);
  }

  /**
   Whatever the batch size from two up, two ordinary local transactions and one turn of
   the table leave a row behind that the cursor has passed and the cloud lacks.
  */
  lemma SplitGroupBreaksTheReplica(limit: nat)
    requires limit >= 2
    ensures var w := Alone(SKUS, OneThenMany(limit)); Reached(w, limit) && Inv(w)
    ensures var r := SyncTable(Alone(SKUS, OneThenMany(limit)), SKUS, limit).0;
            && Reached(r, limit) && !Inv(r)
            && exists k :: k in r.local[SKUS] && r.local[SKUS][k].stamp <= CursorValue(r.cloud, SKUS)
                           && k !in r.cloud.tables[SKUS]
  {
    hide Reached, ReadBatch, FirstRows;
    var rows := OneThenMany(limit);
    var w := Alone(SKUS, rows);
    OneThenManyIsReached(limit);
    AloneInv(SKUS, rows);
    ReachedNext(w, TableSync(SKUS), limit);
    SomeRowIsPassedBy(limit);
    SyncTableEffect(w, SKUS, limit);
    PassedByIsLost(w, SKUS, limit);
  }

  /** Nothing in the cloud yet: a row that the first batch passes by stays behind the cursor. */
  lemma PassedByIsLost(w: World, t: nat, limit: nat)
    requires Inv(w) && t < TABLES && limit > 0 && w.cloud.tables[t] == map[]
    requires var batch := NextBatch(w, t, limit);
             batch != [] && Goes(w, t, batch) && !Covers(w.local[t], batch, CursorValue(w.cloud, t))
    ensures var r := SyncTable(w, t, limit).0;
            && !Inv(r)
            && exists k :: k in r.local[t] && r.local[t][k].stamp <= CursorValue(r.cloud, t) && k !in r.cloud.tables[t]
  {
    hide ReadBatch;
    var batch := NextBatch(w, t, limit);
    SyncTableEffect(w, t, limit);
    var k :| k in w.local[t] && CursorValue(w.cloud, t) < w.local[t][k].stamp <= LastStamp(w.local[t], batch)
             && k !in batch;
    var r := SyncTable(w, t, limit).0;
    assert k !in r.cloud.tables[t];
    assert !Current(r, t, k);
    assert !TableInv(r, t);
  }
}
