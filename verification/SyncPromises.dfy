/**
 What the cloud owes its readers, said of its rows: every reference leads somewhere,
 a batch is held exactly when one would not, and rows go in cursor order.
*/
module SyncPromises {
  import opened Basics
  import opened SyncTables
  import opened SyncBatch
  import opened SyncSend
  import opened SyncProtocol

  // ----- foreign keys -----

  /** Whatever a row of the cloud points at is in the cloud. */
  ghost predicate NothingDangles(w: World)
    requires Shaped(w)
  {
    forall t, k :: 0 <= t < TABLES && k in w.cloud.tables[t] ==>
      && (forall r :: r in w.cloud.tables[t][k].refs ==> r.table < TABLES && r.key in w.cloud.tables[r.table])
      && (w.cloud.tables[t][k].parent.Some? ==> w.cloud.tables[t][k].parent.value in w.cloud.tables[t])
  }

  /** A row that is to be written points at one that is not there, and will not be with this batch. */
  ghost predicate PointsNowhere(w: World, t: nat, batch: seq<nat>, k: nat)
    requires Shaped(w) && t < TABLES && k in w.local[t]
  {
    var c := w.local[t][k].content;
    && !(SYNCED_TABLES[t].byId && k in w.cloud.tables[t])
    && (|| (exists r :: r in c.refs && !(r.table < TABLES && r.key in w.cloud.tables[r.table]))
        || (c.parent.Some? && c.parent.value !in w.cloud.tables[t] && c.parent.value !in batch))
  }

  /** A batch is held if and only if one of its rows would point nowhere. */
  lemma HeldIffPointsNowhere(w: World, t: nat, batch: seq<nat>)
    requires Shaped(w) && LocalOk(w.local) && t < TABLES
    requires batch != [] && InTable(w.local[t], batch) && NoDuplicates(batch)
    ensures SendBatch(w, t, batch) == None <==> exists k :: k in batch && PointsNowhere(w, t, batch, k)
  {
    hide SendBatch;
    SendBatchEffect(w, t, batch);
    RowsPointElsewhere(w.local, t);
    ReferencedTablesComeFirst(t);
    if !Goes(w, t, batch) {
      if k :| k in batch && !(ById(t) && k in w.cloud.tables[t])
              && !RefsPresent(w.cloud.tables, w.local[t][k].content)
      {
        assert PointsNowhere(w, t, batch, k);
      } else {
        var k :| k in batch && w.local[t][k].content.parent.Some?
                 && w.local[t][k].content.parent.value !in w.cloud.tables[t]
                 && w.local[t][k].content.parent.value !in batch;
        assert PointsNowhere(w, t, batch, k);
      }
    }
  }

  lemma SentRowsPointSomewhere(w: World, r: World, t: nat, batch: seq<nat>)
    requires Shaped(w) && Shaped(r) && LocalOk(w.local) && t < TABLES && NothingDangles(w)
    requires batch != [] && InTable(w.local[t], batch) && Advanced(w, r, t, batch)
    requires forall k :: k in batch ==> !PointsNowhere(w, t, batch, k)
    ensures NothingDangles(r)
  {
    forall u | 0 <= u < TABLES
      ensures forall k :: k in w.cloud.tables[u] ==> k in r.cloud.tables[u]
    {
    }
    forall k | k in batch
      ensures k in r.cloud.tables[t]
    {
    }
    forall u, k | 0 <= u < TABLES && k in r.cloud.tables[u]
      ensures forall ref :: ref in r.cloud.tables[u][k].refs ==>
                ref.table < TABLES && ref.key in r.cloud.tables[ref.table]
      ensures r.cloud.tables[u][k].parent.Some? ==> r.cloud.tables[u][k].parent.value in r.cloud.tables[u]
    {
      if u == t && k in batch {
        assert !PointsNowhere(w, t, batch, k);
      }
    }
  }

  lemma StepLeavesNothingDangling(w: World, e: SyncEvent, limit: nat)
    requires Shaped(w) && LocalOk(w.local) && limit > 0 && SyncEnabled(w, e) && NothingDangles(w)
    ensures NothingDangles(SyncStep(w, e, limit))
  {
    if e.TableSync? {
      hide NothingDangles, PointsNowhere, SendBatch, Advanced, Goes;
      var batch := NextBatch(w, e.t, limit);
      SyncTableEffect(w, e.t, limit);
      if batch != [] && Goes(w, e.t, batch) {
        BatchAdvances(w.local[e.t], ById(e.t), CursorValue(w.cloud, e.t), limit);
        HeldIffPointsNowhere(w, e.t, batch);
        SendBatchEffect(w, e.t, batch);
        SentRowsPointSomewhere(w, SyncTable(w, e.t, limit).0, e.t, batch);
      }
    }
  }

  lemma {:induction false} RunLeavesNothingDangling(w: World, events: seq<SyncEvent>, limit: nat)
    requires Shaped(w) && LocalOk(w.local) && limit > 0 && EnabledSyncs(w, events, limit) && NothingDangles(w)
    ensures NothingDangles(SyncRun(w, events, limit))
    decreases |events|
  {
    if events != [] {
      hide NothingDangles, SyncEnabled, SyncStep, LocalOk;
      StepKeepsLocal(w, events[0], limit);
      StepLeavesNothingDangling(w, events[0], limit);
      RunLeavesNothingDangling(SyncStep(w, events[0], limit), events[1..], limit);
    }
  }

  lemma StartHasNothing()
    ensures NothingDangles(Start())
  {
  }

  /** In every reached state, whatever is held or lost, no row of the cloud points at one that is not there. */
  lemma TheCloudIsConsistent(w: World, limit: nat)
    requires Reached(w, limit) && limit > 0
    ensures Shaped(w) && NothingDangles(w)
  {
    hide NothingDangles, EnabledSyncs, SyncRun;
    var events :| EnabledSyncs(Start(), events, limit) && SyncRun(Start(), events, limit) == w;
    StartInv();
    StartHasNothing();
    RunLeavesNothingDangling(Start(), events, limit);
  }

  // ----- the place kept for a table -----

  /** Append-only tables are followed by their ids, the others by when their rows were last updated. */
  lemma PlaceIsOfItsKind(cloud: Cloud, t: nat, last: int)
    requires t < TABLES
    ensures var appended := SYNCED_TABLES[t].name in {"movements", "gate_events", "reads_raw"};
            && CursorValue(cloud, t) ==
               (if t !in cloud.cursors then 0
                else if appended then cloud.cursors[t].lastId else cloud.cursors[t].lastUpdatedAt)
            && (if appended then CursorFor(t, last).lastId == last else CursorFor(t, last).lastUpdatedAt == last)
  {
    ReferencedTablesComeFirst(t);
  }

  // ----- the order of a batch -----

  /** A batch is in the order of its stamps, and rows of one stamp in the order of their keys. */
  lemma BatchIsInOrder(t: Table, byId: bool, cursor: int, limit: nat, i: nat, j: nat)
    requires i < j < |ReadBatch(t, byId, cursor, limit)|
    ensures var batch := ReadBatch(t, byId, cursor, limit);
            && t[batch[i]].stamp <= t[batch[j]].stamp
            && (t[batch[i]].stamp == t[batch[j]].stamp ==> batch[i] < batch[j])
  {
    hide FirstRows, OneStamp;
    var batch := ReadBatch(t, byId, cursor, limit);
    assert batch[i] in batch && batch[j] in batch;
  }

  /** And what is left out of it for want of room comes after it in that order. */
  lemma LeftOutComesAfter(t: Table, byId: bool, cursor: int, limit: nat, k: nat)
    requires limit > 0 && k in t && t[k].stamp > cursor && k !in ReadBatch(t, byId, cursor, limit)
    ensures var batch := ReadBatch(t, byId, cursor, limit);
            forall j :: j in batch ==> t[j].stamp < t[k].stamp || (t[j].stamp == t[k].stamp && j < k)
  {
    var page := FirstRows(t, Above(t, cursor), limit);
    if !byId && |page| == limit && OneStamp(t, page) {
      RereadIsTheGroup(t, cursor, limit);
      hide FirstRows;
      StampsOf(t, page);
      var last := page[|page| - 1];
      assert last in page;
      assert k !in page ==> Before(t, last, k);
    }
  }
}
