/**
 Catching up: with the warehouse quiet and no outage, repeated passes over the
 tables bring the cloud level, exactly when no batch on the way leaves a row
 behind or waits for a parent that comes later.
*/
module SyncConvergence {
  import opened Basics
  import opened SyncTables
  import opened SyncBatch
  import opened SyncSend
  import opened SyncProtocol

  // ----- a pass over the tables -----

  datatype PassResult = PassResult(world: World, caughtUp: bool, held: bool)

  /** The first n tables of a pass. */
  function PassOver(w: World, n: nat, limit: nat): (r: PassResult)
    requires Shaped(w) && n <= TABLES
    ensures Shaped(r.world)
  {
    if n == 0 then PassResult(w, true, false)
    else
      var before := PassOver(w, n - 1, limit);
      var (world, progress) := SyncTable(before.world, n - 1, limit);
      PassResult(world, before.caughtUp && progress.caughtUp, before.held || progress.held)
  }

  function RunOnce(w: World, limit: nat): (r: PassResult)
    requires Shaped(w)
    ensures Shaped(r.world)
  {
    PassOver(w, |w.local|, limit)
  }

  function Passes(w: World, n: nat, limit: nat): (r: World)
    requires Shaped(w)
    ensures Shaped(r)
    decreases n
  {
    if n == 0 then w else Passes(RunOnce(w, limit).world, n - 1, limit)
  }

  /** The cloud is level with the warehouse. */
  ghost predicate InSync(w: World)
    requires Shaped(w)
  {
    forall t :: 0 <= t < TABLES ==>
      w.cloud.tables[t].Keys == w.local[t].Keys && forall k :: k in w.local[t] ==> Current(w, t, k)
  }

  ghost function Left(w: World, t: nat): nat
    requires Shaped(w) && t < TABLES
  {
    |Above(w.local[t], CursorValue(w.cloud, t))|
  }

  /** The first n tables have nothing beyond their cursors. */
  ghost predicate NoneLeft(w: World, n: nat)
    requires Shaped(w) && n <= TABLES
  {
    forall u :: 0 <= u < n ==> Left(w, u) == 0
  }

  ghost function TotalLeft(w: World, n: nat): nat
    requires Shaped(w) && n <= TABLES
  {
    if n == 0 then 0 else TotalLeft(w, n - 1) + Left(w, n - 1)
  }

  // ----- the plan of a table -----

  /** No row that the cursor passes by without sending it is out of date in the cloud. */
  ghost predicate NothingStaleBetween(rows: Table, present: map<nat, Content>, batch: seq<nat>,
                                      cursor: int, later: int)
  {
    forall k :: k in rows && cursor < rows[k].stamp <= later && k !in batch ==>
      k in present && present[k] == rows[k].content
  }

  /**
   The batches a table has still to send, and whether each can go without passing by a
   row that is out of date in the cloud or waiting for a parent that comes later.
   `present` is what the cloud has of the table.
  */
  ghost predicate Plan(rows: Table, byId: bool, cursor: int, present: map<nat, Content>, limit: nat)
    requires limit > 0
    decreases |Above(rows, cursor)|
  {
    BatchAdvances(rows, byId, cursor, limit);
    var batch := ReadBatch(rows, byId, cursor, limit);
    batch == [] || (
      && NothingStaleBetween(rows, present, batch, cursor, LastStamp(rows, batch))
      && ParentsPresent(present.Keys, rows, batch)
      && (FewerAbove(rows, cursor, LastStamp(rows, batch));
          Plan(rows, byId, LastStamp(rows, batch), Merged(present, byId, rows, batch), limit)))
  }

  lemma FewerAbove(rows: Table, cursor: int, later: int)
    requires exists k :: k in rows && cursor < rows[k].stamp <= later
    ensures |Above(rows, later)| < |Above(rows, cursor)|
  {
    var k :| k in rows && cursor < rows[k].stamp <= later;
    assert k in Above(rows, cursor) && k !in Above(rows, later);
    assert Above(rows, later) <= Above(rows, cursor);
    SubsetSize(Above(rows, later), Above(rows, cursor));
  }

  ghost predicate TablePlan(w: World, t: nat, limit: nat)
    requires Shaped(w) && t < TABLES && limit > 0
  {
    Plan(w.local[t], ById(t), CursorValue(w.cloud, t), w.cloud.tables[t], limit)
  }

  ghost predicate AllPlans(w: World, limit: nat)
    requires Shaped(w) && limit > 0
  {
    forall t :: 0 <= t < TABLES ==> TablePlan(w, t, limit)
  }

  // ----- one table's turn -----

  lemma FewerLeft(w: World, r: World, t: nat, batch: seq<nat>)
    requires Shaped(w) && Shaped(r) && t < TABLES && batch != [] && InTable(w.local[t], batch)
    requires Advanced(w, r, t, batch)
    ensures Left(r, t) < Left(w, t)
    ensures forall u :: 0 <= u < TABLES && u != t ==> Left(r, u) == Left(w, u)
  {
    assert batch[|batch| - 1] in batch;
    FewerAbove(w.local[t], CursorValue(w.cloud, t), CursorValue(r.cloud, t));
  }

  /** No table's backlog grows, and no table's plan gets worse, in anyone's turn. */
  lemma TurnKeeps(w: World, t: nat, limit: nat)
    requires Inv(w) && t < TABLES && limit > 0 && AllPlans(w, limit)
    ensures var r := SyncTable(w, t, limit).0;
            Inv(r) && AllPlans(r, limit) && forall u :: 0 <= u < TABLES ==> Left(r, u) <= Left(w, u)
  {
    hide ReadBatch, SyncTable, TableInv, LocalOk;
    var batch := NextBatch(w, t, limit);
    var r := SyncTable(w, t, limit).0;
    SyncTableEffect(w, t, limit);
    assert TablePlan(w, t, limit);
    if batch != [] && Goes(w, t, batch) {
      SyncKeepsIff(w, t, limit);
      FewerLeft(w, r, t, batch);
      forall u | 0 <= u < TABLES
        ensures TablePlan(r, u, limit)
      {
        assert TablePlan(w, u, limit);
      }
    }
  }

  /** With everything its rows point at already across, a table's batch goes. */
  lemma {:induction false} FirstBacklogGoes(w: World, t: nat, limit: nat)
    requires Inv(w) && t < TABLES && limit > 0 && TablePlan(w, t, limit)
    requires NoneLeft(w, t) && Left(w, t) > 0
    ensures NextBatch(w, t, limit) != [] && Goes(w, t, NextBatch(w, t, limit))
  {
    var batch := NextBatch(w, t, limit);
    BatchAdvances(w.local[t], ById(t), CursorValue(w.cloud, t), limit);
    ReferencedTablesComeFirst(t);
    forall k | k in batch
      ensures RefsPresent(w.cloud.tables, w.local[t][k].content)
    {
      assert LocalRowOk(w.local, t, k);
      forall r | r in w.local[t][k].content.refs
        ensures r.table < |w.cloud.tables| && r.key in w.cloud.tables[r.table]
      {
        assert r.table < t && Left(w, r.table) == 0 && TableInv(w, r.table);
        assert r.key !in Above(w.local[r.table], CursorValue(w.cloud, r.table));
        assert Current(w, r.table, r.key);
      }
    }
  }

  // ----- one pass -----

  lemma {:induction false} PassKeeps(w: World, n: nat, limit: nat)
    requires Inv(w) && n <= TABLES && limit > 0 && AllPlans(w, limit)
    ensures var r := PassOver(w, n, limit).world;
            && Inv(r) && AllPlans(r, limit) && r.local == w.local
            && forall u :: 0 <= u < TABLES ==> Left(r, u) <= Left(w, u)
  {
    hide SyncTable, Plan, TableInv, LocalOk;
    if n > 0 {
      PassKeeps(w, n - 1, limit);
      var before := PassOver(w, n - 1, limit).world;
      TurnKeeps(before, n - 1, limit);
      SyncTableEffect(before, n - 1, limit);
    }
  }

  /** Tables with nothing to send leave everything as it is. */
  lemma {:induction false} NothingLeftNothingDone(w: World, n: nat, limit: nat)
    requires Shaped(w) && LocalOk(w.local) && n <= TABLES && limit > 0
    requires NoneLeft(w, n)
    ensures PassOver(w, n, limit) == PassResult(w, true, false)
  {
    if n > 0 {
      NothingLeftNothingDone(w, n - 1, limit);
      SyncTableEffect(w, n - 1, limit);
      assert Left(w, n - 1) == 0;
    }
  }

  lemma {:induction false} TotalShrinks(w: World, r: World, n: nat, t: nat)
    requires Shaped(w) && Shaped(r) && n <= TABLES && t < TABLES
    requires forall u :: 0 <= u < TABLES ==> Left(r, u) <= Left(w, u)
    requires Left(r, t) < Left(w, t)
    ensures TotalLeft(r, n) <= TotalLeft(w, n)
    ensures t < n ==> TotalLeft(r, n) < TotalLeft(w, n)
  {
    hide Above, Left;
    if n > 0 {
      TotalShrinks(w, r, n - 1, t);
    }
  }

  lemma {:induction false} FirstBacklog(w: World, n: nat) returns (t: nat)
    requires Shaped(w) && n <= TABLES && TotalLeft(w, n) > 0
    ensures t < n && Left(w, t) > 0 && NoneLeft(w, t)
  {
    if TotalLeft(w, n - 1) > 0 {
      t := FirstBacklog(w, n - 1);
    } else {
      t := n - 1;
      NoBacklog(w, n - 1);
    }
  }

  lemma {:induction false} NoBacklog(w: World, n: nat)
    requires Shaped(w) && n <= TABLES && TotalLeft(w, n) == 0
    ensures NoneLeft(w, n)
  {
    if n > 0 {
      NoBacklog(w, n - 1);
    }
  }

  /** The first table with a backlog sends part of it: every pass makes headway. */
  lemma PassMakesHeadway(w: World, limit: nat)
    requires Inv(w) && limit > 0 && AllPlans(w, limit) && TotalLeft(w, |w.local|) > 0
    ensures TotalLeft(RunOnce(w, limit).world, |w.local|) < TotalLeft(w, |w.local|)
  {
    hide Plan, TableInv, LocalOk;
    var t := FirstBacklog(w, |w.local|);
    NothingLeftNothingDone(w, t, limit);
    assert TablePlan(w, t, limit);
    FirstBacklogGoes(w, t, limit);
    SyncTableEffect(w, t, limit);
    var sent := SyncTable(w, t, limit).0;
    FewerLeft(w, sent, t, NextBatch(w, t, limit));
    assert PassOver(w, t + 1, limit).world == sent;
    PassKeeps(w, t + 1, limit);
    RestOfPass(w, t + 1, |w.local|, limit);
    TotalShrinks(w, RunOnce(w, limit).world, |w.local|, t);
  }

  lemma {:induction false} RestOfPass(w: World, m: nat, n: nat, limit: nat)
    requires Inv(w) && limit > 0 && AllPlans(w, limit) && m <= n <= TABLES
    ensures forall u :: 0 <= u < TABLES ==>
              Left(PassOver(w, n, limit).world, u) <= Left(PassOver(w, m, limit).world, u) <= Left(w, u)
    decreases n
  {
    hide SyncTable, Plan, TableInv, LocalOk;
    PassKeeps(w, m, limit);
    if m < n {
      RestOfPass(w, m, n - 1, limit);
      PassKeeps(w, n - 1, limit);
      TurnKeeps(PassOver(w, n - 1, limit).world, n - 1, limit);
    }
  }

  // ----- convergence -----

  lemma LevelWhenNothingLeft(w: World)
    requires Inv(w) && TotalLeft(w, |w.local|) == 0
    ensures InSync(w)
  {
    NoBacklog(w, |w.local|);
    forall t | 0 <= t < TABLES
      ensures w.cloud.tables[t].Keys == w.local[t].Keys && forall k :: k in w.local[t] ==> Current(w, t, k)
    {
      assert TableInv(w, t) && Left(w, t) == 0;
      forall k | k in w.local[t]
        ensures Current(w, t, k)
      {
        assert k !in Above(w.local[t], CursorValue(w.cloud, t));
      }
    }
  }

  lemma {:induction false} NothingLeftNothingChanges(w: World, n: nat, limit: nat)
    requires Shaped(w) && LocalOk(w.local) && limit > 0 && TotalLeft(w, |w.local|) == 0
    ensures Passes(w, n, limit) == w
    decreases n
  {
    if n > 0 {
      NoBacklog(w, |w.local|);
      NothingLeftNothingDone(w, |w.local|, limit);
      NothingLeftNothingChanges(w, n - 1, limit);
    }
  }

  lemma OnePassCloser(w: World, limit: nat)
    requires Inv(w) && limit > 0 && AllPlans(w, limit) && TotalLeft(w, |w.local|) > 0
    ensures var r := RunOnce(w, limit).world;
            r.local == w.local && Inv(r) && AllPlans(r, limit) && TotalLeft(r, |r.local|) < TotalLeft(w, |w.local|)
  {
    PassMakesHeadway(w, limit);
    PassKeeps(w, |w.local|, limit);
  }

  lemma LevelForGood(w: World, n: nat, limit: nat)
    requires Inv(w) && limit > 0 && TotalLeft(w, |w.local|) == 0
    ensures InSync(Passes(w, n, limit))
  {
    NothingLeftNothingChanges(w, n, limit);
    LevelWhenNothingLeft(w);
  }

  /** As many passes as rows left over bring the cloud level, and it stays level. */
  lemma {:induction false} PassesConverge(w: World, n: nat, limit: nat)
    requires Inv(w) && limit > 0 && AllPlans(w, limit) && n >= TotalLeft(w, |w.local|)
    ensures InSync(Passes(w, n, limit))
    decreases n
  {
    hide SyncTable, Plan, TableInv, LocalOk, InSync;
    if TotalLeft(w, |w.local|) == 0 {
      LevelForGood(w, n, limit);
    } else {
      var next := RunOnce(w, limit).world;
      assert next.local == w.local && Inv(next) && AllPlans(next, limit) && TotalLeft(next, |next.local|) <= n - 1 by {
        OnePassCloser(w, limit);
      }
      PassesConverge(next, n - 1, limit);
    }
  }

  // ----- when it does not -----

  /** A row the cursor has passed that is missing from the cloud or out of date there. */
  ghost predicate Stale(w: World, t: nat)
    requires Shaped(w) && t < TABLES
  {
    exists k :: k in w.local[t] && w.local[t][k].stamp <= CursorValue(w.cloud, t) && !Current(w, t, k)
  }

  ghost predicate Doomed(w: World, t: nat, limit: nat)
    requires Shaped(w) && t < TABLES && limit > 0
  {
    Stale(w, t) || !TablePlan(w, t, limit)
  }

  /** Sending again what is there already changes nothing. */
  lemma MergedLevel(rows: Table, byId: bool, present: map<nat, Content>, batch: seq<nat>)
    requires present.Keys == rows.Keys && forall k :: k in rows ==> present[k] == rows[k].content
    requires InTable(rows, batch)
    ensures Merged(present, byId, rows, batch) == present
  {
    assert (set k | k in batch) <= present.Keys;
  }

  /** A table that is level has nothing to go wrong, whatever is stamped beyond its cursor. */
  lemma {:induction false} LevelHasPlan(rows: Table, byId: bool, cursor: int, present: map<nat, Content>, limit: nat)
    requires limit > 0
    requires present.Keys == rows.Keys && forall k :: k in rows ==> present[k] == rows[k].content
    requires forall k :: k in rows && rows[k].content.parent.Some? ==> rows[k].content.parent.value in rows
    ensures Plan(rows, byId, cursor, present, limit)
    decreases |Above(rows, cursor)|
  {
    hide ReadBatch, Merged;
    BatchAdvances(rows, byId, cursor, limit);
    var batch := ReadBatch(rows, byId, cursor, limit);
    if batch != [] {
      FewerAbove(rows, cursor, LastStamp(rows, batch));
      MergedLevel(rows, byId, present, batch);
      LevelHasPlan(rows, byId, LastStamp(rows, batch), present, limit);
    }
  }

  /** A batch may well end inside a group: when the rows passed by are in the cloud as they are, no harm is done. */
  lemma SplitMayBeHarmless(limit: nat)
    requires limit >= 2
    ensures var rows := OneThenMany(limit); var present := map k | k in rows :: rows[k].content;
            EndsInsideGroup(rows, false, 0, limit) && Plan(rows, false, 0, present, limit)
  {
    var rows := OneThenMany(limit);
    SomeRowIsPassedBy(limit);
    LevelHasPlan(rows, false, 0, map k | k in rows :: rows[k].content, limit);
  }

  lemma DoomedIsNotLevel(w: World, t: nat, limit: nat)
    requires Shaped(w) && LocalOk(w.local) && t < TABLES && limit > 0 && Doomed(w, t, limit)
    ensures !InSync(w)
  {
    if InSync(w) {
      forall k | k in w.local[t]
        ensures Current(w, t, k)
        ensures w.local[t][k].content.parent.Some? ==> w.local[t][k].content.parent.value in w.local[t]
      {
        assert LocalRowOk(w.local, t, k);
      }
      LevelHasPlan(w.local[t], ById(t), CursorValue(w.cloud, t), w.cloud.tables[t], limit);
    }
  }

  /** A batch that was the wrong one to send leaves a stale row behind, or the wrong ones still to send. */
  lemma SentAndDoomed(w: World, t: nat, limit: nat)
    requires Shaped(w) && LocalOk(w.local) && t < TABLES && limit > 0 && Doomed(w, t, limit)
    requires var batch := NextBatch(w, t, limit); batch != [] && Goes(w, t, batch)
    ensures Doomed(SyncTable(w, t, limit).0, t, limit)
  {
    hide ReadBatch, SyncTable, LocalOk;
    var batch := NextBatch(w, t, limit);
    var r := SyncTable(w, t, limit).0;
    var cursor := CursorValue(w.cloud, t);
    SyncTableEffect(w, t, limit);
    BatchAdvances(w.local[t], ById(t), cursor, limit);
    if k :| k in w.local[t] && w.local[t][k].stamp <= LastStamp(w.local[t], batch) && k !in batch && !Current(w, t, k) {
      assert !Current(r, t, k);
      assert Stale(r, t);
    } else {
      ParentsWent(w, t, batch);
      assert !Stale(w, t);
    }
  }

  /** A batch that goes has its parents in the cloud, or in itself. */
  lemma ParentsWent(w: World, t: nat, batch: seq<nat>)
    requires Shaped(w) && LocalOk(w.local) && t < TABLES && InTable(w.local[t], batch) && Goes(w, t, batch)
    ensures ParentsPresent(w.cloud.tables[t].Keys, w.local[t], batch)
  {
    RowsPointElsewhere(w.local, t);
    ReferencedTablesComeFirst(t);
  }

  /** This warehouse, with a cloud that is doomed. */
  ghost predicate DoomedCloud(w: World, local: seq<Table>, t: nat, limit: nat) {
    Shaped(w) && w.local == local && LocalOk(local) && t < TABLES && limit > 0 && Doomed(w, t, limit)
  }

  lemma TurnDoomed(w: World, local: seq<Table>, t: nat, u: nat, limit: nat)
    requires DoomedCloud(w, local, t, limit) && u < TABLES
    ensures DoomedCloud(SyncTable(w, u, limit).0, local, t, limit)
  {
    SyncTableEffect(w, u, limit);
    var batch := NextBatch(w, u, limit);
    if batch != [] && Goes(w, u, batch) && u == t {
      SentAndDoomed(w, t, limit);
    }
  }

  lemma {:induction false} PassDoomed(w: World, local: seq<Table>, t: nat, n: nat, limit: nat)
    requires DoomedCloud(w, local, t, limit) && n <= TABLES
    ensures DoomedCloud(PassOver(w, n, limit).world, local, t, limit)
  {
    hide SyncTable, Doomed, LocalOk;
    if n > 0 {
      PassDoomed(w, local, t, n - 1, limit);
      TurnDoomed(PassOver(w, n - 1, limit).world, local, t, n - 1, limit);
    }
  }

  lemma {:induction false} PassesDoomed(w: World, local: seq<Table>, t: nat, n: nat, limit: nat)
    requires DoomedCloud(w, local, t, limit)
    ensures !InSync(Passes(w, n, limit))
    decreases n
  {
    hide SyncTable, Doomed, LocalOk, InSync;
    if n == 0 {
      DoomedIsNotLevel(w, t, limit);
    } else {
      PassDoomed(w, local, t, |w.local|, limit);
      PassesDoomed(RunOnce(w, limit).world, local, t, n - 1, limit);
    }
  }

  ghost predicate LevelAfter(w: World, n: nat, limit: nat)
    requires Shaped(w)
  {
    InSync(Passes(w, n, limit))
  }

  lemma SomeTableDoomed(w: World, limit: nat) returns (t: nat)
    requires Shaped(w) && limit > 0 && !(AllTrail(w) && AllPlans(w, limit))
    ensures t < TABLES && Doomed(w, t, limit)
  {
    hide TablePlan;
    if !AllTrail(w) {
      var u :| 0 <= u < TABLES && !Trails(w, u);
      t := u;
    } else {
      var u :| 0 <= u < TABLES && !TablePlan(w, u, limit);
      t := u;
    }
  }

  /**
   The warehouse quiet and no outage, from any state that a run can reach: the passes
   bring the cloud level if and only if no cursor has passed a row that is out of date
   in the cloud, no batch ahead passes by one, and none holds a row whose parent is in
   a later batch. Otherwise no number of passes does.
  */
  lemma CatchesUpIff(w: World, limit: nat)
    requires Sound(w) && limit > 0
    ensures (exists n: nat :: LevelAfter(w, n, limit)) <==> AllTrail(w) && AllPlans(w, limit)
  {
    hide AllTrail, AllPlans, Bounded, LocalOk, Doomed, InSync;
    if AllTrail(w) && AllPlans(w, limit) {
      SoundAndTrailing(w);
      var n := TotalLeft(w, |w.local|);
      PassesConverge(w, n, limit);
      assert LevelAfter(w, n, limit);
    } else {
      var t := SomeTableDoomed(w, limit);
      forall n: nat
        ensures !LevelAfter(w, n, limit)
      {
        PassesDoomed(w, w.local, t, n, limit);
      }
    }
  }

  // ----- what the worker reports -----

  lemma TurnKeepsSound(w: World, t: nat, limit: nat)
    requires Sound(w) && t < TABLES && limit > 0
    ensures Sound(SyncTable(w, t, limit).0)
  {
    hide Bounded, LocalOk, SyncTable;
    StepKeepsLocal(w, TableSync(t), limit);
    forall u | 0 <= u < TABLES
      ensures Bounded(SyncTable(w, t, limit).0, u)
    {
      assert Bounded(w, u);
      StepKeepsBounded(w, TableSync(t), limit, u);
    }
  }

  /** A row the cursor has passed is not sent again. */
  lemma StaleStays(w: World, r: World, t: nat, batch: seq<nat>)
    requires Shaped(w) && Shaped(r) && t < TABLES && batch != [] && InTable(w.local[t], batch)
    requires Advanced(w, r, t, batch) && forall k :: k in batch ==> w.local[t][k].stamp > CursorValue(w.cloud, t)
    ensures Trails(r, t) ==> Trails(w, t)
  {
    if Trails(r, t) {
      forall k | k in w.local[t] && w.local[t][k].stamp <= CursorValue(w.cloud, t)
        ensures Current(w, t, k)
      {
        assert Current(r, t, k);
      }
    }
  }

  /** A short batch was everything beyond the cursor. */
  lemma CaughtUpTable(w: World, t: nat, limit: nat)
    requires Sound(w) && t < TABLES && limit > 0
    requires var p := SyncTable(w, t, limit).1; p.caughtUp && !p.held
    ensures var r := SyncTable(w, t, limit).0;
            && Left(r, t) == 0 && (Trails(r, t) <==> Trails(w, t))
            && forall u :: 0 <= u < TABLES && u != t ==> Left(r, u) == Left(w, u)
  {
    SyncTableEffect(w, t, limit);
    var batch := NextBatch(w, t, limit);
    BatchAdvances(w.local[t], ById(t), CursorValue(w.cloud, t), limit);
    var r := SyncTable(w, t, limit).0;
    assert Above(r.local[t], CursorValue(r.cloud, t)) <= Above(w.local[t], CursorValue(w.cloud, t));
    if batch != [] {
      assert Bounded(w, t);
      TrailsAfterTurn(w, t, limit);
      StaleStays(w, r, t, batch);
    }
  }

  lemma TrailsAfterTurn(w: World, t: nat, limit: nat)
    requires Sound(w) && t < TABLES && limit > 0 && Harmless(w, t, limit)
    ensures Trails(w, t) ==> Trails(SyncTable(w, t, limit).0, t)
  {
    assert Bounded(w, t);
    if Trails(w, t) {
      SyncKeepsTableIff(w, t, limit);
    }
  }

  /** The turn of another table. */
  lemma OthersTrail(w: World, t: nat, limit: nat, u: nat)
    requires Sound(w) && t < TABLES && u < TABLES && limit > 0 && u != t
    ensures Trails(SyncTable(w, t, limit).0, u) <==> Trails(w, u)
  {
    hide SyncTable, Trails;
    assert Bounded(w, u);
    TurnKeepsSound(w, t, limit);
    SyncKeepsOthers(w, t, limit, u);
  }

  lemma CaughtUpTurn(w: World, t: nat, limit: nat)
    requires Sound(w) && t < TABLES && limit > 0
    requires var p := SyncTable(w, t, limit).1; p.caughtUp && !p.held
    ensures var r := SyncTable(w, t, limit).0; Sound(r) && (AllTrail(r) <==> AllTrail(w))
  {
    hide SyncTable, Trails, Bounded, LocalOk;
    TurnKeepsSound(w, t, limit);
    CaughtUpTable(w, t, limit);
    forall u | 0 <= u < TABLES
      ensures Trails(SyncTable(w, t, limit).0, u) <==> Trails(w, u)
    {
      if u != t {
        OthersTrail(w, t, limit, u);
      }
    }
  }

  lemma {:induction false} CaughtUpPass(w: World, n: nat, limit: nat)
    requires Sound(w) && n <= TABLES && limit > 0
    requires var r := PassOver(w, n, limit); r.caughtUp && !r.held
    ensures var r := PassOver(w, n, limit).world; Sound(r) && NoneLeft(r, n) && (AllTrail(r) <==> AllTrail(w))
  {
    hide SyncTable, Bounded, LocalOk, Trails, AllTrail;
    if n > 0 {
      CaughtUpPass(w, n - 1, limit);
      CaughtUpTable(PassOver(w, n - 1, limit).world, n - 1, limit);
      CaughtUpTurn(PassOver(w, n - 1, limit).world, n - 1, limit);
    }
  }

  lemma {:induction false} NoneLeftIsZero(w: World, n: nat)
    requires Shaped(w) && n <= TABLES && NoneLeft(w, n)
    ensures TotalLeft(w, n) == 0
  {
    if n > 0 {
      NoneLeftIsZero(w, n - 1);
    }
  }

  lemma LevelTrails(w: World)
    requires Shaped(w) && InSync(w)
    ensures AllTrail(w)
  {
  }

  /**
   A pass that says everything is up to date, and held nothing, has sent all there was
   to send; the cloud is level if and only if no cursor had passed a stale row before.
  */
  lemma CaughtUpIsLevelIff(w: World, limit: nat)
    requires Sound(w) && limit > 0
    requires RunOnce(w, limit).caughtUp && !RunOnce(w, limit).held
    ensures var r := RunOnce(w, limit).world; NoneLeft(r, TABLES) && (InSync(r) <==> AllTrail(w))
  {
    hide InSync, AllTrail, Bounded, LocalOk, Left;
    var r := RunOnce(w, limit).world;
    CaughtUpPass(w, |w.local|, limit);
    NoneLeftIsZero(r, |w.local|);
    if AllTrail(r) {
      SoundAndTrailing(r);
      LevelWhenNothingLeft(r);
    }
    if InSync(r) {
      LevelTrails(r);
    }
  }

  // ----- a loss that stays -----

  lemma NothingLeftIsPlanned(w: World, limit: nat)
    requires Shaped(w) && limit > 0 && NoneLeft(w, TABLES)
    ensures AllPlans(w, limit)
  {
    hide ReadBatch;
    forall t | 0 <= t < TABLES
      ensures TablePlan(w, t, limit)
    {
      assert Left(w, t) == 0;
      BatchAdvances(w.local[t], ById(t), CursorValue(w.cloud, t), limit);
    }
  }

  /** The replica after its first batch has passed a row by. */
  ghost function Broken(limit: nat): (r: World)
    requires limit > 0
    ensures Shaped(r)
  {
    SyncTable(Alone(SKUS, OneThenMany(limit)), SKUS, limit).0
  }

  lemma BrokenHasNothingLeft(limit: nat)
    requires limit >= 2
    ensures NoneLeft(Broken(limit), TABLES) && LocalOk(Broken(limit).local)
  {
    hide ReadBatch, FirstRows;
    var rows := OneThenMany(limit);
    var w := Alone(SKUS, rows);
    AloneInv(SKUS, rows);
    SomeRowIsPassedBy(limit);
    BatchAdvances(rows, false, 0, limit);
    SyncTableEffect(w, SKUS, limit);
    var batch := NextBatch(w, SKUS, limit);
    BeyondTheFirst(limit, batch);
    var r := Broken(limit);
    assert CursorValue(r.cloud, SKUS) == 2;
    forall u | 0 <= u < TABLES
      ensures Left(r, u) == 0
    {
      assert Above(r.local[u], CursorValue(r.cloud, u)) == {};
    }
  }

  lemma BeyondTheFirst(limit: nat, batch: seq<nat>)
    requires batch != [] && InTable(OneThenMany(limit), batch) && !Covers(OneThenMany(limit), batch, 0)
    ensures LastStamp(OneThenMany(limit), batch) == 2
  {
    var rows, last := OneThenMany(limit), batch[|batch| - 1];
    assert last in batch;
    var k :| k in rows && 0 < rows[k].stamp <= LastStamp(rows, batch) && k !in batch;
  }

  /**
   Whatever the batch size from two up: a state that ordinary transactions and one turn
   lead to, in which nothing is left to send and every pass reports so, and in which no
   number of passes brings the cloud level.
  */
  lemma BrokenReplicaStaysBroken(limit: nat, n: nat)
    requires limit >= 2
    ensures var r := Broken(limit);
            && Reached(r, limit) && AllPlans(r, limit) && !AllTrail(r) && !LevelAfter(r, n, limit)
            && RunOnce(r, limit) == PassResult(r, true, false) && !InSync(r)
  {
    hide Reached, SyncTable, Broken, InSync, AllPlans, NoneLeft;
    var r := Broken(limit);
    BrokenIsReached(limit);
    BrokenHasNothingLeft(limit);
    NothingLeftIsPlanned(r, limit);
    NothingLeftNothingDone(r, |r.local|, limit);
    LostRowIsStale(r, SKUS, limit);
    CatchesUpIff(r, limit);
    assert LevelAfter(r, 0, limit) == InSync(r);
  }

  lemma BrokenIsReached(limit: nat)
    requires limit >= 2
    ensures Reached(Broken(limit), limit) && Sound(Broken(limit))
    ensures exists k :: k in Broken(limit).local[SKUS] && k !in Broken(limit).cloud.tables[SKUS] &&
                        Broken(limit).local[SKUS][k].stamp <= CursorValue(Broken(limit).cloud, SKUS)
  {
    hide Reached, SyncTable, Sound;
    SplitGroupBreaksTheReplica(limit);
    ReachedIsSound(Broken(limit), limit);
  }

  lemma LostRowIsStale(r: World, t: nat, limit: nat)
    requires Shaped(r) && t < TABLES
    requires exists k :: k in r.local[t] && k !in r.cloud.tables[t] && r.local[t][k].stamp <= CursorValue(r.cloud, t)
    ensures !AllTrail(r)
  {
    var k :| k in r.local[t] && k !in r.cloud.tables[t] && r.local[t][k].stamp <= CursorValue(r.cloud, t);
    assert !Current(r, t, k);
    assert !Trails(r, t);
  }

  // ----- a condition without looking ahead -----

  /**
   No two rows still to go share a stamp, and the parent of each is in the cloud
   already, or still to go and not after it.
  */
  ghost predicate ParentsAhead(rows: Table, cursor: int, present: map<nat, Content>) {
    && (forall j, k :: j in rows && k in rows && cursor < rows[j].stamp == rows[k].stamp ==> j == k)
    && forall k :: k in rows && rows[k].stamp > cursor && rows[k].content.parent.Some? ==>
         var p := rows[k].content.parent.value;
         p in present || (p in rows && cursor < rows[p].stamp <= rows[k].stamp)
  }

  lemma OwnStampsCover(rows: Table, byId: bool, cursor: int, present: map<nat, Content>, limit: nat)
    requires limit > 0 && ParentsAhead(rows, cursor, present) && Above(rows, cursor) != {}
    ensures var batch := ReadBatch(rows, byId, cursor, limit); batch != [] && Covers(rows, batch, cursor)
  {
    hide FirstRows;
    BatchCoversIff(rows, byId, cursor, limit);
    var page := FirstRows(rows, Above(rows, cursor), limit);
    if |page| == limit {
      assert page[|page| - 1] in page;
    }
  }

  lemma AheadAfterBatch(rows: Table, byId: bool, cursor: int, present: map<nat, Content>, batch: seq<nat>)
    requires ParentsAhead(rows, cursor, present) && batch != [] && InTable(rows, batch)
    requires Covers(rows, batch, cursor) && LastStamp(rows, batch) > cursor
    ensures ParentsAhead(rows, LastStamp(rows, batch), Merged(present, byId, rows, batch))
  {
    var later, after := LastStamp(rows, batch), Merged(present, byId, rows, batch);
    assert forall k :: k in batch || k in present ==> k in after;
    forall k | k in rows && rows[k].stamp > later && rows[k].content.parent.Some?
      ensures var p := rows[k].content.parent.value;
              p in after || (p in rows && later < rows[p].stamp <= rows[k].stamp)
    {
      var p := rows[k].content.parent.value;
      if p !in present && rows[p].stamp <= later {
        assert p in batch;
      }
    }
  }

  lemma AheadGoes(rows: Table, cursor: int, present: map<nat, Content>, batch: seq<nat>)
    requires ParentsAhead(rows, cursor, present) && batch != [] && InTable(rows, batch) && Covers(rows, batch, cursor)
    requires forall k :: k in batch ==> cursor < rows[k].stamp <= LastStamp(rows, batch)
    ensures NothingStaleBetween(rows, present, batch, cursor, LastStamp(rows, batch))
    ensures ParentsPresent(present.Keys, rows, batch)
  {
  }

  /** Said of a table as it stands, this is enough for all its batches to go. */
  lemma {:induction false} ParentsAheadIsPlanned(rows: Table, byId: bool, cursor: int, present: map<nat, Content>,
                                                 limit: nat)
    requires limit > 0 && ParentsAhead(rows, cursor, present)
    ensures Plan(rows, byId, cursor, present, limit)
    decreases |Above(rows, cursor)|
  {
    hide ReadBatch, Merged, ParentsAhead, Covers, NothingStaleBetween, ParentsPresent;
    BatchAdvances(rows, byId, cursor, limit);
    var batch := ReadBatch(rows, byId, cursor, limit);
    if batch != [] {
      OwnStampsCover(rows, byId, cursor, present, limit);
      AheadGoes(rows, cursor, present, batch);
      AheadAfterBatch(rows, byId, cursor, present, batch);
      FewerAbove(rows, cursor, LastStamp(rows, batch));
      ParentsAheadIsPlanned(rows, byId, LastStamp(rows, batch), Merged(present, byId, rows, batch), limit);
    }
  }

  /** So from a trailing cloud such a warehouse gets across, in as many passes as it has rows left. */
  lemma ParentsAheadConverges(w: World, n: nat, limit: nat)
    requires Inv(w) && limit > 0 && n >= TotalLeft(w, |w.local|)
    requires forall t :: 0 <= t < TABLES ==> ParentsAhead(w.local[t], CursorValue(w.cloud, t), w.cloud.tables[t])
    ensures InSync(Passes(w, n, limit))
  {
    hide Plan, InSync, ParentsAhead;
    forall t | 0 <= t < TABLES
      ensures TablePlan(w, t, limit)
    {
      ParentsAheadIsPlanned(w.local[t], ById(t), CursorValue(w.cloud, t), w.cloud.tables[t], limit);
    }
    PassesConverge(w, n, limit);
  }

  /** Held by a foreign key, a table reports itself caught up though it is not. */
  lemma HeldReportsCaughtUp(w: World, t: nat, limit: nat)
    requires Inv(w) && t < TABLES && limit > 0
    requires NextBatch(w, t, limit) != [] && !Goes(w, t, NextBatch(w, t, limit))
    ensures var (r, p) := SyncTable(w, t, limit); r == w && p.caughtUp && Left(w, t) > 0
  {
    SyncTableEffect(w, t, limit);
  }

  /** A box stamped first, the pallet it stands on stamped last, and `limit` rows from one to the other. */
  ghost function BoxBeforePallet(limit: nat): (rows: Table)
    ensures forall k: nat :: k in rows <==> k <= limit
    ensures forall k: nat :: k in rows ==>
              rows[k] == Row(k + 1, Content(if k == 0 then Some(limit) else None, {}, ""))
  {
    var ks := Range(limit + 1);
    map k | k in ks :: Row(k + 1, Content(if k == 0 then Some(limit) else None, {}, ""))
  }

  /** Such a warehouse, nothing of it in the cloud yet. */
  ghost function Stalled(limit: nat): (w: World)
    ensures Shaped(w)
  {
    Alone(CONTAINERS, BoxBeforePallet(limit))
  }

  /** The same on the way: the box and the pallet in one transaction, then the other rows up to n, one by one. */
  ghost function PalletAndBox(limit: nat, n: nat): (rows: Table)
    ensures forall k: nat :: k in rows <==> k <= n || k == limit
    ensures forall k: nat :: k in rows ==>
              rows[k] == Row(if k <= n then k + 1 else 1, Content(if k == 0 then Some(limit) else None, {}, ""))
  {
    var ks := Range(n + 1) + {limit};
    map k | k in ks :: Row(if k <= n then k + 1 else 1, Content(if k == 0 then Some(limit) else None, {}, ""))
  }

  lemma BoxAndPalletWritten(limit: nat)
    requires 0 < limit
    ensures Reached(Alone(CONTAINERS, PalletAndBox(limit, 0)), limit)
  {
    hide Reached, Alone, PalletAndBox;
    var both: map<nat, Content> := map[0 := Content(Some(limit), {}, ""), limit := Content(None, {}, "")];
    NothingAlone(CONTAINERS, limit);
    WriteAlone(CONTAINERS, map[], both, 1, PalletAndBox(limit, 0), limit);
  }

  lemma OneMoreWritten(limit: nat, n: nat)
    requires n < limit && Reached(Alone(CONTAINERS, PalletAndBox(limit, n)), limit)
    ensures Reached(Alone(CONTAINERS, PalletAndBox(limit, n + 1)), limit)
  {
    hide Reached, Alone, PalletAndBox;
    var more: map<nat, Content> := map[n + 1 := Content(None, {}, "")];
    WriteAlone(CONTAINERS, PalletAndBox(limit, n), more, n + 2, PalletAndBox(limit, n + 1), limit);
  }

  /** The pallet is the last to be written, for the second time. */
  lemma {:induction false} OnTheWayToStalling(limit: nat, n: nat)
    requires 0 < limit && n <= limit
    ensures Reached(Alone(CONTAINERS, PalletAndBox(limit, n)), limit)
  {
    hide Reached, Alone, PalletAndBox;
    if n == 0 {
      BoxAndPalletWritten(limit);
    } else {
      OnTheWayToStalling(limit, n - 1);
      OneMoreWritten(limit, n - 1);
    }
  }

  lemma StalledIsReached(limit: nat)
    requires limit > 0
    ensures Reached(Stalled(limit), limit)
  {
    hide Reached;
    OnTheWayToStalling(limit, limit);
    assert PalletAndBox(limit, limit) == BoxBeforePallet(limit);
  }

  /** The first batch holds the box but not the pallet. */
  lemma PalletComesLater(limit: nat)
    requires limit > 0
    ensures var batch := ReadBatch(BoxBeforePallet(limit), false, 0, limit);
            0 in batch && limit !in batch
  {
    var rows := BoxBeforePallet(limit);
    var page := FirstRows(rows, Above(rows, 0), limit);
    assert Above(rows, 0) == Range(limit + 1);
    PageSize(rows, Above(rows, 0), limit, page);
    PageIsDistinct(rows, Above(rows, 0), limit, page);
    DistinctSize(page);
    var shown := set k | k in page;
    var all := Range(limit + 1);
    var left := all - shown;
    assert left == {} ==> shown == all;
    var k :| k in left;
    assert limit !in page by {
      assert k == limit || !Before(rows, limit, k);
    }
    assert page[0] in page;
    assert 0 in page by {
      assert 0 in Above(rows, 0) && !Before(rows, page[0], 0);
    }
    if |page| == limit && OneStamp(rows, page) {
      RereadIsTheGroup(rows, 0, limit);
      StampsOf(rows, page);
    }
  }

  /**
   Whatever the batch size, ordinary local transactions lead to a warehouse that never
   gets across, though every table says it is caught up.
  */
  lemma SomeWarehouseStalls(limit: nat, n: nat)
    requires limit > 0
    ensures Reached(Stalled(limit), limit) && Inv(Stalled(limit)) && !LevelAfter(Stalled(limit), n, limit)
    ensures SyncTable(Stalled(limit), CONTAINERS, limit) == (Stalled(limit), Progress(0, true, true))
  {
    hide Reached;
    var w := Stalled(limit);
    StalledIsReached(limit);
    AloneInv(CONTAINERS, BoxBeforePallet(limit));
    PalletComesLater(limit);
    var batch := NextBatch(w, CONTAINERS, limit);
    assert w.local[CONTAINERS][0].content.parent == Some(limit);
    assert !Goes(w, CONTAINERS, batch);
    SyncTableEffect(w, CONTAINERS, limit);
    assert !TablePlan(w, CONTAINERS, limit);
    PassesDoomed(w, w.local, CONTAINERS, n, limit);
  }
}
