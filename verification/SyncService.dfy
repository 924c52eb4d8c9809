/**
 The sync worker: it reads the warehouse, writes the cloud, and keeps its place in
 the cloud. Statements run one at a time and the link may drop before any of them.
*/
module SyncService {
  import opened Basics
  import opened SyncTables
  import opened SyncBatch
  import opened SyncSend
  import opened SyncProtocol
  import opened SyncConvergence

  const BATCH_ROWS: nat := 5000

  /** How an attempt to write to the cloud ends. */
  datatype Outcome = Committed | Held | LinkLost

  /**
   Where the links fail during one table's turn: reading the cursor in the cloud,
   reading the rows locally, at one of the upserts, at one of the parent updates, or
   at the cursor and the commit.
  */
  datatype Faults = Faults(cursorRead: bool, localRead: bool, first: Option<nat>, second: Option<nat>, last: bool) {
    predicate None() {
      !cursorRead && !localRead && first.None? && second.None? && !last
    }
  }

  class CloudConnection {
    var committed: Cloud
    var working: Cloud

    constructor (cloud: Cloud)
      ensures committed == working == cloud
    {
      committed, working := cloud, cloud;
    }

    method Commit()
      modifies this`committed
      ensures committed == working
    {
      committed := working;
    }

    method Rollback()
      modifies this`working
      ensures working == committed
    {
      working := committed;
    }
  }

  // ----- what others write meanwhile -----

  ghost predicate OnlyWrites(events: seq<SyncEvent>) {
    forall e :: e in events ==> e.LocalWrite?
  }

  ghost predicate ByWriters(w: World, after: seq<Table>)
    requires Shaped(w)
  {
    exists es :: OnlyWrites(es) && EnabledSyncs(w, es, BATCH_ROWS) && SyncRun(w, es, BATCH_ROWS) == w.(local := after)
  }

  /** What others make of the local tables before each table's turn. */
  type Writers = (nat, seq<Table>) -> seq<Table>

  ghost predicate OnlyWriters(writers: Writers) {
    forall t, w :: Shaped(w) && LocalOk(w.local) ==> ByWriters(w, writers(t, w.local))
  }

  ghost predicate NobodyWrites(writers: Writers) {
    forall t, local :: writers(t, local) == local
  }

  /** The tables that have their turns in a run, in order. */
  function TurnsIn(events: seq<SyncEvent>): seq<nat> {
    if events == [] then []
    else
      var e := events[|events| - 1];
      TurnsIn(events[..|events| - 1]) + if e.TableSync? then [e.t] else []
  }

  /** Every turn of the run says its table is caught up. */
  ghost predicate AllReportCaughtUp(w: World, events: seq<SyncEvent>)
    requires Shaped(w) && EnabledSyncs(w, events, BATCH_ROWS)
    decreases |events|
  {
    events != [] ==>
      && (events[0].TableSync? ==> SyncTable(w, events[0].t, BATCH_ROWS).1.caughtUp)
      && AllReportCaughtUp(SyncStep(w, events[0], BATCH_ROWS), events[1..])
  }

  lemma {:induction false} TurnsConcat(a: seq<SyncEvent>, b: seq<SyncEvent>)
    ensures TurnsIn(a + b) == TurnsIn(a) + TurnsIn(b)
  {
    if b == [] {
      assert a + b == a;
    } else {
      TurnsConcat(a, b[..|b| - 1]);
      assert (a + b)[..|a + b| - 1] == a + b[..|b| - 1];
    }
  }

  lemma {:induction false} WritesAreNoTurns(events: seq<SyncEvent>)
    requires OnlyWrites(events)
    ensures TurnsIn(events) == []
  {
    if events != [] {
      var n := |events| - 1;
      assert events[n] in events && forall e :: e in events[..n] ==> e in events;
      WritesAreNoTurns(events[..n]);
    }
  }

  lemma {:induction false} WritesReportNothing(w: World, events: seq<SyncEvent>)
    requires Shaped(w) && OnlyWrites(events) && EnabledSyncs(w, events, BATCH_ROWS)
    ensures AllReportCaughtUp(w, events)
    decreases |events|
  {
    if events != [] {
      assert events[0] in events;
      WritesReportNothing(SyncStep(w, events[0], BATCH_ROWS), events[1..]);
    }
  }

  lemma {:induction false} SyncRunConcat(w: World, a: seq<SyncEvent>, b: seq<SyncEvent>)
    requires Shaped(w) && EnabledSyncs(w, a, BATCH_ROWS) && EnabledSyncs(SyncRun(w, a, BATCH_ROWS), b, BATCH_ROWS)
    ensures EnabledSyncs(w, a + b, BATCH_ROWS)
    ensures SyncRun(w, a + b, BATCH_ROWS) == SyncRun(SyncRun(w, a, BATCH_ROWS), b, BATCH_ROWS)
    ensures AllReportCaughtUp(w, a + b) <==>
            AllReportCaughtUp(w, a) && AllReportCaughtUp(SyncRun(w, a, BATCH_ROWS), b)
    decreases |a|
  {
    hide SyncEnabled, SyncStep, SyncTable;
    if a == [] {
      assert a + b == b;
    } else {
      SyncRunConcat(SyncStep(w, a[0], BATCH_ROWS), a[1..], b);
      assert (a + b)[1..] == a[1..] + b;
    }
  }

  /** The run so far, and one table's turn. */
  lemma OneMoreTurn(w: World, events: seq<SyncEvent>, t: nat)
    requires Shaped(w) && EnabledSyncs(w, events, BATCH_ROWS) && t < TABLES
    ensures var turn := SyncTable(SyncRun(w, events, BATCH_ROWS), t, BATCH_ROWS);
            && EnabledSyncs(w, events + [TableSync(t)], BATCH_ROWS)
            && SyncRun(w, events + [TableSync(t)], BATCH_ROWS) == turn.0
            && TurnsIn(events + [TableSync(t)]) == TurnsIn(events) + [t]
            && (AllReportCaughtUp(w, events + [TableSync(t)]) <==> AllReportCaughtUp(w, events) && turn.1.caughtUp)
  {
    var here, last := SyncRun(w, events, BATCH_ROWS), [TableSync(t)];
    assert last[1..] == [] && last[..0] == [];
    OneTurn(here, t);
    hide SyncTable, SyncStep, SyncEnabled;
    SyncRunConcat(w, events, last);
    TurnsConcat(events, last);
    assert TurnsIn(last) == [t];
  }

  lemma OneTurn(w: World, t: nat)
    requires Shaped(w) && t < TABLES
    ensures EnabledSyncs(w, [TableSync(t)], BATCH_ROWS)
    ensures SyncRun(w, [TableSync(t)], BATCH_ROWS) == SyncTable(w, t, BATCH_ROWS).0
    ensures AllReportCaughtUp(w, [TableSync(t)]) <==> SyncTable(w, t, BATCH_ROWS).1.caughtUp
  {
    var last := [TableSync(t)];
    var r := SyncTable(w, t, BATCH_ROWS).0;
    assert last[1..] == [] && EnabledSyncs(r, [], BATCH_ROWS) && SyncRun(r, [], BATCH_ROWS) == r;
    assert AllReportCaughtUp(r, []);
  }

  function FirstTables(n: nat): (r: seq<nat>)
    ensures |r| == n && forall i :: 0 <= i < n ==> r[i] == i
  {
    seq(n, i => i)
  }

  class Sync {
    var local: seq<Table>
    const cloud: CloudConnection
    var rowsSent: nat

    constructor (local: seq<Table>, cloud: CloudConnection)
      ensures this.local == local && this.cloud == cloud && rowsSent == 0
    {
      this.local, this.cloud, rowsSent := local, cloud, 0;
    }

    function View(): World
      reads this, cloud
    {
      World(local, cloud.committed)
    }

    predicate Ready()
      reads this, cloud
    {
      Shaped(View()) && cloud.working == cloud.committed
    }

    /** One query for what lies beyond the cursor, and a second one for a page of a single stamp. */
    method NextRows(t: nat, cursor: int) returns (batch: seq<nat>)
      requires |local| == TABLES && t < TABLES
      ensures batch == ReadBatch(local[t], SYNCED_TABLES[t].byId, cursor, 5000)
    {
      batch := FirstRows(local[t], Above(local[t], cursor), BATCH_ROWS);
      if !SYNCED_TABLES[t].byId && |batch| == BATCH_ROWS {
        if OneStamp(local[t], batch) {
          var stuck := local[t][batch[0]].stamp;
          batch := FirstRows(local[t], Stamped(local[t], stuck), |Stamped(local[t], stuck)|);
        }
      }
    }

    /**
     The upserts of a batch, one statement each; the link drops before statement
     `drops`, if that comes.
    */
    method Upserts(t: nat, batch: seq<nat>, strip: bool, drops: Option<nat>) returns (outcome: Outcome)
      requires |local| == TABLES && t < |cloud.working.tables| == TABLES && InTable(local[t], batch)
      modifies cloud`working
      ensures cloud.working == old(cloud.working).(tables := cloud.working.tables)
      ensures outcome == LinkLost ==> drops.Some?
      ensures var w := UpsertAll(old(cloud.working.tables), t, SYNCED_TABLES[t].byId, local[t], batch, strip);
              && (outcome == Committed ==> w == SyncSend.Written(cloud.working.tables))
              && (outcome == Held ==> w == ForeignKeyViolation)
    {
      ghost var before := cloud.working.tables;
      assert batch[..0] == [];
      for i := 0 to |batch|
        invariant cloud.working == old(cloud.working).(tables := cloud.working.tables)
        invariant InTable(local[t], batch[..i])
        invariant UpsertAll(before, t, SYNCED_TABLES[t].byId, local[t], batch[..i], strip) ==
                  SyncSend.Written(cloud.working.tables)
      {
        if drops == Some(i) {
          return LinkLost;
        }
        var k := batch[i];
        assert batch[..i + 1][..i] == batch[..i] && batch[..i + 1][i] == k && k in batch;
        var w := Upsert(cloud.working.tables, t, SYNCED_TABLES[t].byId, k, Sent(local[t][k].content, strip));
        if w.ForeignKeyViolation? {
          UpsertsStop(before, t, SYNCED_TABLES[t].byId, local[t], batch, strip, i + 1);
          return Held;
        }
        cloud.working := cloud.working.(tables := w.tables);
      }
      assert batch[..|batch|] == batch;
      outcome := Committed;
    }

    /** The second pass: the parents, one statement each. */
    method SetParents(t: nat, batch: seq<nat>, drops: Option<nat>) returns (outcome: Outcome)
      requires |local| == TABLES && t < |cloud.working.tables| == TABLES && InTable(local[t], batch)
      modifies cloud`working
      ensures cloud.working == old(cloud.working).(tables := cloud.working.tables)
      ensures outcome == LinkLost ==> drops.Some?
      ensures var w := SetParentAll(old(cloud.working.tables), t, local[t], batch);
              && (outcome == Committed ==> w == SyncSend.Written(cloud.working.tables))
              && (outcome == Held ==> w == ForeignKeyViolation)
    {
      ghost var before := cloud.working.tables;
      assert batch[..0] == [];
      for i := 0 to |batch|
        invariant cloud.working == old(cloud.working).(tables := cloud.working.tables)
        invariant InTable(local[t], batch[..i])
        invariant SetParentAll(before, t, local[t], batch[..i]) == SyncSend.Written(cloud.working.tables)
      {
        if drops == Some(i) {
          return LinkLost;
        }
        var k := batch[i];
        assert batch[..i + 1][..i] == batch[..i] && batch[..i + 1][i] == k && k in batch;
        var w := SetParent(cloud.working.tables, t, k, local[t][k].content.parent);
        if w.ForeignKeyViolation? {
          ParentsStop(before, t, local[t], batch, i + 1);
          return Held;
        }
        cloud.working := cloud.working.(tables := w.tables);
      }
      assert batch[..|batch|] == batch;
      outcome := Committed;
    }

    /** Rows and cursor in one transaction: both are committed, or neither is. */
    method SendRowsAndCursor(t: nat, batch: seq<nat>, first: Option<nat>, second: Option<nat>, last: bool)
      returns (outcome: Outcome)
      requires Ready() && t < TABLES && InTable(local[t], batch) && batch != []
      modifies cloud
      ensures outcome == Committed ==>
                SendBatch(old(View()), t, batch) == Some(cloud.committed) && cloud.working == cloud.committed
      ensures outcome == Held ==> SendBatch(old(View()), t, batch) == None
      ensures outcome != Committed ==> cloud.committed == old(cloud.committed)
      ensures outcome == LinkLost ==> first.Some? || second.Some? || last
    {
      if SYNCED_TABLES[t].selfReferencing {
        outcome := Upserts(t, batch, true, first);
        assert outcome == Held ==> SendBatch(old(View()), t, batch) == None;
        if outcome == Committed {
          outcome := SetParents(t, batch, second);
        }
      } else {
        outcome := Upserts(t, batch, false, first);
      }
      if outcome == Committed {
        if last {
          return LinkLost;
        }
        var stamp := local[t][batch[|batch| - 1]].stamp;
        cloud.working := cloud.working.(cursors := cloud.working.cursors[t := CursorFor(t, stamp)]);
        cloud.Commit();
      }
    }

    /**
     One table's turn. None means the link was lost and the error goes up; the cloud
     is as it was.
    */
    method SyncOne(t: nat, faults: Faults) returns (p: Option<Progress>)
      requires Ready() && t < TABLES
      modifies this`rowsSent, cloud
      ensures Ready()
      ensures p.Some? ==> (View(), p.value) == SyncTable(old(View()), t, 5000)
      ensures p.None? ==> View() == old(View())
      ensures faults.None() ==> p.Some?
      ensures faults.cursorRead || faults.localRead ==> p.None?
      ensures rowsSent == old(rowsSent) + if p.Some? then p.value.rows else 0
    {
      if faults.cursorRead {
        return None;
      }
      var cursor := CursorValue(cloud.committed, t);
      if faults.localRead {
        return None;
      }
      var batch := NextRows(t, cursor);
      assert batch == NextBatch(View(), t, BATCH_ROWS);
      if batch == [] {
        return Some(Progress(0, true, false));
      }
      var outcome := SendRowsAndCursor(t, batch, faults.first, faults.second, faults.last);
      match outcome
      case LinkLost =>
        cloud.Rollback();
        p := None;
      case Held =>
        cloud.Rollback();
        p := Some(Progress(0, true, true));
      case Committed =>
        rowsSent := rowsSent + |batch|;
        p := Some(Progress(|batch|, |batch| < BATCH_ROWS, false));
    }

    /** Others commit what they like to the local tables. */
    method LetWriters(writers: Writers, t: nat, ghost before: World, ghost events: seq<SyncEvent>)
      returns (ghost longer: seq<SyncEvent>)
      requires Ready() && LocalOk(local) && OnlyWriters(writers) && Shaped(before)
      requires EnabledSyncs(before, events, BATCH_ROWS) && SyncRun(before, events, BATCH_ROWS) == View()
      modifies this`local
      ensures Ready() && LocalOk(local) && local == writers(t, old(local))
      ensures EnabledSyncs(before, longer, BATCH_ROWS) && SyncRun(before, longer, BATCH_ROWS) == View()
      ensures TurnsIn(longer) == TurnsIn(events)
      ensures AllReportCaughtUp(before, longer) <==> AllReportCaughtUp(before, events)
    {
      hide SyncRun, EnabledSyncs, LocalOk, AllReportCaughtUp, OnlyWrites;
      ghost var w := View();
      assert ByWriters(w, writers(t, local));
      ghost var es :|
        OnlyWrites(es) && EnabledSyncs(w, es, BATCH_ROWS) &&
        SyncRun(w, es, BATCH_ROWS) == w.(local := writers(t, local));
      SyncRunConcat(before, events, es);
      TurnsConcat(events, es);
      WritesAreNoTurns(es);
      WritesReportNothing(w, es);
      RunKeepsLocal(w, es, BATCH_ROWS);
      assert Shaped(SyncRun(w, es, BATCH_ROWS));
      local := writers(t, local);
      longer := events + es;
    }

    /**
     One pass over the tables, in order, with others writing to the warehouse before
     each turn, up to where it is stopped or loses a link. What it leaves behind is a
     run of local writes and of the turns of these tables, so all that holds of runs
     holds of the worker; and it says everything is caught up exactly when each turn
     did. When nobody writes it is the pass as it was.
    */
    method OnePass(faults: seq<Faults>, writers: Writers, upTo: nat)
      returns (caughtUp: bool, lost: bool, ghost reached: nat, ghost events: seq<SyncEvent>)
      requires Ready() && LocalOk(local) && |faults| == TABLES && OnlyWriters(writers)
      modifies this`local, this`rowsSent, cloud
      ensures Ready() && LocalOk(local) && reached <= TABLES
      ensures EnabledSyncs(old(View()), events, BATCH_ROWS) && View() == SyncRun(old(View()), events, BATCH_ROWS)
      ensures TurnsIn(events) == FirstTables(reached)
      ensures !lost ==> (caughtUp <==> AllReportCaughtUp(old(View()), events))
      ensures !lost ==> reached == if upTo < TABLES then upTo else TABLES
      ensures (forall f :: f in faults ==> f.None()) ==> !lost
      ensures NobodyWrites(writers) ==> View() == PassOver(old(View()), reached, BATCH_ROWS).world
      ensures NobodyWrites(writers) && !lost ==> caughtUp == PassOver(old(View()), reached, BATCH_ROWS).caughtUp
    {
      hide SyncTable, SyncRun, EnabledSyncs, LocalOk, AllReportCaughtUp, ByWriters, PassOver, TurnsIn;
      ghost var before := View();
      caughtUp, lost, reached, events := true, false, 0, [];
      NothingYet(before);
      for t := 0 to if upTo < TABLES then upTo else TABLES
        invariant Ready() && LocalOk(local) && !lost && reached == t
        invariant EnabledSyncs(before, events, BATCH_ROWS) && View() == SyncRun(before, events, BATCH_ROWS)
        invariant TurnsIn(events) == FirstTables(t) && (caughtUp <==> AllReportCaughtUp(before, events))
        invariant NobodyWrites(writers) ==>
                    View() == PassOver(before, t, BATCH_ROWS).world &&
                    caughtUp == PassOver(before, t, BATCH_ROWS).caughtUp
      {
        ghost var start := View();
        events := LetWriters(writers, t, before, events);
        assert NobodyWrites(writers) ==> View() == start;
        ghost var here := View();
        var p := SyncOne(t, faults[t]);
        if p.None? {
          assert faults[t] in faults;
          return false, true, t, events;
        }
        OneMoreTurn(before, events, t);
        TurnKeepsLocal(here, t);
        PassOneLonger(before, t, BATCH_ROWS);
        events := events + [TableSync(t)];
        caughtUp := caughtUp && p.value.caughtUp;
        reached := t + 1;
      }
    }
  }

  lemma NothingYet(w: World)
    requires Shaped(w)
    ensures EnabledSyncs(w, [], BATCH_ROWS) && SyncRun(w, [], BATCH_ROWS) == w
    ensures TurnsIn([]) == [] && AllReportCaughtUp(w, [])
    ensures PassOver(w, 0, BATCH_ROWS) == PassResult(w, true, false)
  {
  }

  lemma TurnKeepsLocal(w: World, t: nat)
    requires Shaped(w) && LocalOk(w.local) && t < TABLES
    ensures SyncTable(w, t, BATCH_ROWS).0.local == w.local
  {
    SyncTableEffect(w, t, BATCH_ROWS);
  }

  lemma PassOneLonger(w: World, t: nat, limit: nat)
    requires Shaped(w) && t < TABLES
    ensures var before, after := PassOver(w, t, limit), PassOver(w, t + 1, limit);
            var turn := SyncTable(before.world, t, limit);
            after.world == turn.0 && after.caughtUp == (before.caughtUp && turn.1.caughtUp)
  {
  }

  /** Once a prefix of the upserts has failed, all of them have. */
  lemma {:induction false} UpsertsStop(tables: CloudTables, t: nat, byId: bool, rows: Table, batch: seq<nat>,
                                       strip: bool, i: nat)
    requires t < |tables| && InTable(rows, batch) && i <= |batch|
    requires InTable(rows, batch[..i])
    requires UpsertAll(tables, t, byId, rows, batch[..i], strip) == ForeignKeyViolation
    ensures UpsertAll(tables, t, byId, rows, batch, strip) == ForeignKeyViolation
  {
    if i < |batch| {
      var front := batch[..|batch| - 1];
      assert forall k :: k in front ==> k in batch;
      assert front[..i] == batch[..i];
      UpsertsStop(tables, t, byId, rows, front, strip, i);
    } else {
      assert batch[..i] == batch;
    }
  }

  lemma {:induction false} ParentsStop(tables: CloudTables, t: nat, rows: Table, batch: seq<nat>, i: nat)
    requires t < |tables| && InTable(rows, batch) && i <= |batch|
    requires InTable(rows, batch[..i])
    requires SetParentAll(tables, t, rows, batch[..i]) == ForeignKeyViolation
    ensures SetParentAll(tables, t, rows, batch) == ForeignKeyViolation
  {
    if i < |batch| {
      var front := batch[..|batch| - 1];
      assert forall k :: k in front ==> k in batch;
      assert front[..i] == batch[..i];
      ParentsStop(tables, t, rows, front, i);
    } else {
      assert batch[..i] == batch;
    }
  }
}
