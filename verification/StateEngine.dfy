/**
 The state engine as a service: it fetches unprocessed observations and applies
 each in a transaction of its own, statement by statement.
*/
module StateEngineService {
  import opened Basics
  import opened Transitions
  import opened Forest
  import opened Warehouse
  import opened Transactions
  import opened WarehouseRuns
  import opened WarehousePromises
  import opened RunTheorems

  const FETCH_BATCH := 500
  const PALLET_SETTLE_S: Time := 5.0

  lemma LevelIsNew(p: seq<Option<nat>>, root: nat, k: nat, x: nat)
    requires !OnCycle(p, root) && x in Level(p, root, k)
    ensures x !in Levels(p, root, k)
  {
    if x in Levels(p, root, k) {
      InLevels(p, root, k, x);
      var j: nat :| j < k && x in Level(p, root, j);
      LevelsDisjoint(p, root, j, k);
    }
  }

  /** A database connection: what is committed, and what the open transaction sees. */
  class Connection {
    var committed: Db
    var working: Db

    constructor (db: Db)
      ensures committed == working == db
    {
      committed, working := db, db;
    }

    method Commit()
      modifies this`committed
      ensures committed == working
    {
      committed := working;
    }

    method Rollback()
      modifies this`working
      ensures working == committed
    {
      working := committed;
    }
  }

  /** The first `limit` unprocessed observations in id order. */
  function Unprocessed(os: seq<Observation>, limit: nat): (r: seq<nat>)
    ensures |r| <= limit
    ensures forall j :: 0 <= j < |r| ==> r[j] < |os| && !os[r[j]].processed
    ensures forall j, k :: 0 <= j < k < |r| ==> r[j] < r[k]
    ensures |r| < limit ==> forall i :: 0 <= i < |os| && !os[i].processed ==> i in r
    ensures forall i, j :: 0 <= i < |os| && !os[i].processed && 0 <= j < |r| && i < r[j] ==> i in r
  {
    if os == [] then []
    else
      var n := |os| - 1;
      var front := Unprocessed(os[..n], limit);
      if |front| < limit && !os[n].processed then front + [n] else front
  }

  /** How far a pass over the batch has come: the first i observations are processed or held, the others neither. */
  ghost predicate PassedOver(os: seq<Observation>, batch: seq<nat>, i: nat, held: set<nat>) {
    && i <= |batch|
    && (forall j :: 0 <= j < |batch| ==> batch[j] < |os|)
    && (forall j :: 0 <= j < i ==> (os[batch[j]].processed <==> batch[j] !in held))
    && (forall j :: i <= j < |batch| ==> !os[batch[j]].processed && batch[j] !in held)
  }

  lemma PassOverNext(os: seq<Observation>, batch: seq<nat>, i: nat, held: set<nat>, wait: bool, after: seq<Observation>)
    requires PassedOver(os, batch, i, held) && i < |batch|
    requires forall j, k :: 0 <= j < k < |batch| ==> batch[j] < batch[k]
    requires |after| >= |os|
    requires forall x :: 0 <= x < |os| ==> after[x].processed == (os[x].processed || (x == batch[i] && !wait))
    ensures PassedOver(after, batch, i + 1, if wait then held + {batch[i]} else held)
  {
  }

  /** What is still to come was not touched. */
  lemma StillToCome(os: seq<Observation>, batch: seq<nat>, i: nat, held: set<nat>)
    requires PassedOver(os, batch, i, held) && i < |batch|
    ensures batch[i] < |os| && !os[batch[i]].processed && batch[i] !in held
  {
  }

  lemma NothingPassedYet(os: seq<Observation>, batch: seq<nat>)
    requires forall j :: 0 <= j < |batch| ==> batch[j] < |os| && !os[batch[j]].processed
    ensures PassedOver(os, batch, 0, {})
  {
  }

  /** The observation is of a container with something standing on it. */
  predicate Loaded(db: Db, obs: nat)
    requires obs < |db.observations|
  {
    var found := FindTid(db.containers, db.observations[obs].tid);
    found.Some? && Children(db.containers, found.value) != {}
  }

  /** A load that has not had its time to settle since the service first saw it, as far as the service remembers. */
  predicate StillSettling(db: Db, obs: nat, seen: map<nat, Time>, now: Time) {
    obs < |db.observations| && Loaded(db, obs) && !(obs in seen && now - seen[obs] >= PALLET_SETTLE_S)
  }

  /**
   The observations looked at were held exactly when they were still settling in the
   states they were looked at in, and when those were first seen is remembered; what is
   remembered of the rest is as it was.
  */
  ghost predicate HeldForCause(looked: seq<Db>, batch: seq<nat>, held: set<nat>, clock: seq<Time>,
                               seen: map<nat, Time>, firstSeen: map<nat, Time>)
  {
    && |looked| <= |batch| <= |clock|
    && (forall j :: 0 <= j < |looked| ==>
          (batch[j] in held <==> StillSettling(looked[j], batch[j], seen, clock[j])))
    && (forall j :: |looked| <= j < |batch| && batch[j] in seen ==>
          batch[j] in firstSeen && firstSeen[batch[j]] == seen[batch[j]])
    && (forall j :: |looked| <= j < |batch| && batch[j] in firstSeen ==> batch[j] in seen)
    && (forall j :: 0 <= j < |looked| && batch[j] in held ==>
          batch[j] in firstSeen && clock[j] - firstSeen[batch[j]] < 5.0)
  }

  lemma NothingHeldYet(batch: seq<nat>, clock: seq<Time>, seen: map<nat, Time>)
    requires |batch| <= |clock|
    ensures HeldForCause([], batch, {}, clock, seen, seen)
  {
  }

  lemma HeldForCauseNext(looked: seq<Db>, batch: seq<nat>, held: set<nat>, clock: seq<Time>, seen: map<nat, Time>,
                         firstSeen: map<nat, Time>, here: Db, wait: bool, after: map<nat, Time>)
    requires HeldForCause(looked, batch, held, clock, seen, firstSeen) && |looked| < |batch|
    requires batch[|looked|] !in held && forall j, k :: 0 <= j < k < |batch| ==> batch[j] < batch[k]
    requires wait <==> StillSettling(here, batch[|looked|], firstSeen, clock[|looked|])
    requires after - {batch[|looked|]} == firstSeen - {batch[|looked|]}
    requires wait ==> batch[|looked|] in after && clock[|looked|] - after[batch[|looked|]] < 5.0
    ensures HeldForCause(looked + [here], batch, if wait then held + {batch[|looked|]} else held, clock, seen, after)
  {
    var obs := batch[|looked|];
    forall j | 0 <= j < |batch| && j != |looked|
      ensures batch[j] in after <==> batch[j] in firstSeen
      ensures batch[j] in after ==> after[batch[j]] == firstSeen[batch[j]]
    {
      assert batch[j] in after <==> batch[j] in after - {obs};
      assert batch[j] in firstSeen <==> batch[j] in firstSeen - {obs};
      if batch[j] in after {
        assert (after - {obs})[batch[j]] == (firstSeen - {obs})[batch[j]];
      }
    }
  }

  /** What "loaded" means, in the columns of the tables. */
  lemma LoadedIff(db: Db, obs: nat)
    requires obs < |db.observations| && UniqueTids(db.containers)
    ensures Loaded(db, obs) <==>
            exists i, c :: 0 <= i < |db.containers| && 0 <= c < |db.containers|
                           && db.containers[i].tid == db.observations[obs].tid && db.containers[c].parent == Some(i)
  {
    var found := FindTid(db.containers, db.observations[obs].tid);
    if Loaded(db, obs) {
      var c :| c in Children(db.containers, found.value);
      assert db.containers[c].parent == Some(found.value);
    }
    if i, c :| 0 <= i < |db.containers| && 0 <= c < |db.containers|
               && db.containers[i].tid == db.observations[obs].tid && db.containers[c].parent == Some(i) {
      assert found == Some(i) && c in Children(db.containers, i);
    }
  }

  // ----- what others commit meanwhile -----

  /** Transactions of the API and of the debouncer: anything but handling an observation. */
  ghost predicate NoHandles(events: seq<Event>) {
    forall e :: e in events ==> !e.Handle?
  }

  ghost predicate ByOthers(db: Db, r: Db) {
    exists es :: EnabledRun(db, es) && NoHandles(es) && Run(db, es) == r
  }

  /**
   What others make of the database, by observation of a round and by moment: before
   the observation is looked at, and before each attempt at it.
  */
  type Others = (nat, nat, Db) -> Db

  ghost predicate OnlyOthers(others: Others) {
    forall i, a, db :: Ledger(db) ==> ByOthers(db, others(i, a, db))
  }

  /** A database that is safe when they come to it they leave safe. */
  ghost predicate Keep(others: Others, safe: Db -> bool) {
    forall i, a, db :: Ledger(db) && safe(db) ==> safe(others(i, a, db))
  }

  /**
   Should the read move a load, the query for the load comes to an end: what was read
   does not stand on itself. A read that moves nothing, or brings a reusable container
   back, asks no such query.
  */
  ghost predicate QueryEnds(db: Db, o: Observation) {
    TurnedAway(db, o) || NothingToDo(db, o) ||
    var id := FindTid(db.containers, o.tid).value;
    || Decide(o.portal, o.direction, db.containers[id].status, db.containers[id].reusable).detachChildren
    || !OnCycle(ParentsOf(db.containers), id)
  }

  /** In a safe database whatever is still to be handled can be. */
  ghost predicate QueriesEnd(safe: Db -> bool) {
    forall db: Db, obs: nat :: safe(db) && obs < |db.observations| && !db.observations[obs].processed ==>
      QueryEnds(db, db.observations[obs])
  }

  /** Handling an observation leaves a safe database safe. */
  ghost predicate KeptByHandling(safe: Db -> bool) {
    forall db: Db, obs, rows :: safe(db) && Enabled(db, Handle(obs, rows)) ==> safe(Handled(db, obs, rows))
  }

  lemma ForestQueryEnds(db: Db, o: Observation)
    requires StacksUp(db)
    ensures QueryEnds(db, o)
  {
    hide Decide, OnCycle;
    if FindTid(db.containers, o.tid).Some? {
      NoCycleInForest(ParentsOf(db.containers), FindTid(db.containers, o.tid).value);
    }
  }

  lemma HandledStacksUp(db: Db, obs: nat, rows: seq<nat>)
    requires StacksUp(db) && Enabled(db, Handle(obs, rows))
    ensures StacksUp(Handled(db, obs, rows))
  {
    StepStacksUpIff(db, Handle(obs, rows));
  }

  lemma {:induction false} RunConcat(db: Db, a: seq<Event>, b: seq<Event>)
    requires EnabledRun(db, a) && EnabledRun(Run(db, a), b)
    ensures EnabledRun(db, a + b) && Run(db, a + b) == Run(Run(db, a), b)
    decreases |a|
  {
    if a == [] {
      assert a + b == b;
    } else {
      RunConcat(Step(db, a[0]), a[1..], b);
      assert (a + b)[1..] == a[1..] + b;
    }
  }

  lemma {:induction false} OthersKeepObservations(db: Db, events: seq<Event>)
    requires EnabledRun(db, events) && NoHandles(events)
    ensures db.observations <= Run(db, events).observations
    decreases |events|
  {
    if events != [] {
      assert events[0] in events;
      OthersKeepObservations(Step(db, events[0]), events[1..]);
    }
  }

  /** The run goes through this state. */
  ghost predicate PassesThrough(before: Db, events: seq<Event>, db: Db) {
    exists n: nat :: n <= |events| && EnabledRun(before, events[..n]) && Run(before, events[..n]) == db
  }

  lemma LongerPassesThrough(before: Db, events: seq<Event>, longer: seq<Event>, db: Db)
    requires PassesThrough(before, events, db) && events <= longer
    ensures PassesThrough(before, longer, db)
  {
    var n: nat :| n <= |events| && EnabledRun(before, events[..n]) && Run(before, events[..n]) == db;
    assert longer[..n] == events[..n];
  }

  lemma AllPassThrough(before: Db, events: seq<Event>, longer: seq<Event>, looked: seq<Db>)
    requires events <= longer && forall j :: 0 <= j < |looked| ==> PassesThrough(before, events, looked[j])
    ensures forall j :: 0 <= j < |looked| ==> PassesThrough(before, longer, looked[j])
  {
    forall j | 0 <= j < |looked|
      ensures PassesThrough(before, longer, looked[j])
    {
      LongerPassesThrough(before, events, longer, looked[j]);
    }
  }

  /** Handling one more observation extends the run and marks that observation, no other. */
  lemma HandleExtends(before: Db, events: seq<Event>, here: Db, obs: nat, rows: seq<nat>)
    requires EnabledRun(before, events) && here == Run(before, events) && Ledger(here)
    requires Enabled(here, Handle(obs, rows))
    ensures EnabledRun(before, events + [Handle(obs, rows)])
    ensures Run(before, events + [Handle(obs, rows)]) == Handled(here, obs, rows)
    ensures Ledger(Handled(here, obs, rows))
    ensures var r := Handled(here, obs, rows);
            |r.observations| == |here.observations| &&
            forall i :: 0 <= i < |here.observations| ==>
              r.observations[i].processed == (here.observations[i].processed || i == obs)
  {
    RunLonger(before, events, Handle(obs, rows));
    StepKeepsLedger(here, Handle(obs, rows));
    AppliedKeeps(here, here.observations[obs], rows);
  }

  lemma NoRowsMoved(db: Db, m: Move)
    ensures MoveRows(db, [], m) == db
  {
  }

  /** One row more of a tree that is being moved. */
  lemma OneMoreRow(db: Db, rows: seq<nat>, id: nat, m: Move)
    requires RowsExist(db, rows) && id < |db.containers|
    ensures RowsExist(db, rows + [id])
    ensures var sofar := MoveRows(db, rows, m);
            MoveRows(db, rows + [id], m) ==
            if sofar.containers[id].status == m.to then Touch(sofar, id, m.at, m.portal)
            else AddMovement(SetStatus(sofar, id, m.to, m.at, m.portal),
                             MovementOf(id, sofar.containers[id].status, m))
  {
    assert (rows + [id])[..|rows|] == rows;
  }

  class StateEngine {
    const conn: Connection
    var firstSeen: map<nat, Time>

    constructor (conn: Connection)
      ensures this.conn == conn && firstSeen == map[]
    {
      this.conn := conn;
      firstSeen := map[];
    }

    /** The recursive query: the root, then what stands on the last level found, until nothing does. */
    method ContainerTree(root: nat) returns (rows: seq<nat>)
      requires root < |conn.working.containers| && !OnCycle(ParentsOf(conn.working.containers), root)
      ensures Enumerates(ParentsOf(conn.working.containers), root, rows)
    {
      hide OnCycle;
      ghost var p := ParentsOf(conn.working.containers);
      var level := [root];
      ghost var k := 0;
      rows := [];
      while level != []
        invariant NoDuplicates(rows) && NoDuplicates(level)
        invariant forall x :: x in level <==> x in Level(p, root, k)
        invariant forall x :: x in rows <==> x in Levels(p, root, k)
        decreases |p| - |rows|
      {
        forall x | x in level
          ensures x !in rows
        {
          LevelIsNew(p, root, k, x);
        }
        ConcatKeepsDistinct(rows, level);
        rows := rows + level;
        LevelsInside(p, root, k + 1);
        DistinctBound(rows, |p|);
        level := JoinChildren(level);
        k := k + 1;
        forall x
          ensures x in level <==> x in Level(p, root, k)
        {
          NextLevel(p, root, k - 1, x);
        }
      }
      EmptyLevelIsLast(p, root, k);
      forall x: nat
        ensures x in rows <==> x < |p| && Below(p, x, root)
      {
        InLevels(p, root, k, x);
      }
    }

    /** The containers whose parent is in the level, each once. */
    method JoinChildren(level: seq<nat>) returns (rows: seq<nat>)
      ensures NoDuplicates(rows)
      ensures forall x: nat :: x in rows <==>
                x < |conn.working.containers| && conn.working.containers[x].parent.Some? &&
                conn.working.containers[x].parent.value in level
    {
      rows := [];
      for i := 0 to |conn.working.containers|
        invariant NoDuplicates(rows)
        invariant forall x: nat :: x in rows <==>
                    x < i && conn.working.containers[x].parent.Some? &&
                    conn.working.containers[x].parent.value in level
      {
        var parent := conn.working.containers[i].parent;
        if parent.Some? && parent.value in level {
          rows := rows + [i];
        }
      }
    }

    /** The whole tree, row by row, inside a transaction that somebody else commits. */
    method MoveContainerTree(root: nat, m: Move) returns (moved: nat, ghost rows: seq<nat>)
      requires root < |conn.working.containers| && !OnCycle(ParentsOf(conn.working.containers), root)
      modifies conn`working
      ensures Enumerates(ParentsOf(old(conn.working.containers)), root, rows)
      ensures RowsExist(old(conn.working), rows)
      ensures conn.working == MoveRows(old(conn.working), rows, m)
      ensures |conn.working.movements| == |old(conn.working.movements)| + moved
    {
      hide OnCycle, Below, MoveRows, MoveRow;
      var tree := ContainerTree(root);
      var fetched := conn.working.containers;
      rows := tree;
      moved := 0;
      ghost var before := conn.working;
      assert forall j :: 0 <= j < |tree| ==> tree[j] in tree;
      assert RowsExist(before, tree) && tree[..0] == [];
      NoRowsMoved(before, m);
      for i := 0 to |tree|
        invariant RowsExist(before, tree[..i])
        invariant conn.working == MoveRows(before, tree[..i], m)
        invariant |conn.working.movements| == |before.movements| + moved
        invariant |conn.working.containers| == |fetched|
        invariant forall j :: i <= j < |tree| ==> conn.working.containers[tree[j]] == fetched[tree[j]]
      {
        var id := tree[i];
        assert id in tree;
        assert tree[..i + 1] == tree[..i] + [id];
        OneMoreRow(before, tree[..i], id, m);
        if fetched[id].status == m.to {
          conn.working := Touch(conn.working, id, m.at, m.portal);
        } else {
          conn.working := SetStatus(conn.working, id, m.to, m.at, m.portal);
          conn.working := AddMovement(conn.working, MovementOf(id, fetched[id].status, m));
          moved := moved + 1;
        }
      }
      assert tree[..|tree|] == tree;
    }

    /** The container is moved, and whatever stood on it is taken off. */
    method ReturnReusableContainer(id: nat, from: Status, m: Move) returns (detached: nat)
      requires id < |conn.working.containers| && from == conn.working.containers[id].status
      modifies conn`working
      ensures conn.working == ReturnEmpty(old(conn.working), id, m)
      ensures detached == |Children(old(conn.working.containers), id)|
    {
      conn.working := SetStatus(conn.working, id, m.to, m.at, m.portal);
      conn.working := AddMovement(conn.working, MovementOf(id, from, m.(session := None)));
      detached := |Children(conn.working.containers, id)|;
      assert Children(conn.working.containers, id) == Children(old(conn.working.containers), id);
      conn.working := DetachChildren(conn.working, id);
    }

    /** Records a shortfall if fewer boxes were read than stand on the pallet. */
    method CheckShort(id: nat, o: Observation)
      modifies conn`working
      ensures conn.working == CheckShortPallet(old(conn.working), id, o)
    {
      var kids := Children(conn.working.containers, id);
      if kids == {} {
        return;
      }
      var tids := set i | i in kids :: conn.working.containers[i].tid;
      var seen := |SeenTids(conn.working.observations, o.portal, tids,
                            o.firstRead - SHORT_PALLET_WINDOW_S, o.lastRead + SHORT_PALLET_WINDOW_S)|;
      if seen < |kids| {
        conn.working := AddAnomaly(conn.working, Anomaly(o.tid, Some(id), ShortPallet, o.lastRead));
      }
    }

    /** One attempt at an observation that runs to its commit. */
    method Apply(obs: nat) returns (ghost rows: seq<nat>)
      requires conn.working == conn.committed && obs < |conn.committed.observations|
      requires QueryEnds(conn.committed, conn.committed.observations[obs])
      modifies conn
      ensures RowsExist(old(conn.committed), rows)
      ensures RowsFor(old(conn.committed), old(conn.committed).observations[obs].tid, rows)
      ensures conn.committed == conn.working == Handled(old(conn.committed), obs, rows)
    {
      ghost var before := conn.committed;
      var o := conn.working.observations[obs];
      var found := FindTid(conn.working.containers, o.tid);
      rows := [];
      if found.None? {
        conn.working := AddAnomaly(conn.working, Anomaly(o.tid, None, UnknownTid, o.lastRead));
        conn.working := MarkProcessed(conn.working, obs);
        conn.Commit();
        return;
      }
      var id := found.value;
      var status := conn.working.containers[id].status;
      var d := Decide(o.portal, o.direction, status, conn.working.containers[id].reusable);
      DecisionByOutcome(o.portal, o.direction, status, conn.working.containers[id].reusable);
      rows := ListTree(ParentsOf(conn.working.containers), id, |conn.working.containers|);
      if d.anomaly.Some? {
        conn.working := AddAnomaly(conn.working, Anomaly(o.tid, Some(id), d.anomaly.value, o.lastRead));
        conn.working := Touch(conn.working, id, o.lastRead, o.portal);
        conn.working := MarkProcessed(conn.working, obs);
        conn.Commit();
        return;
      }
      if d.IsNoOp() {
        conn.working := Touch(conn.working, id, o.lastRead, o.portal);
        conn.working := MarkProcessed(conn.working, obs);
        conn.Commit();
        return;
      }
      var session: Option<nat> := None;
      if d.toStatus.value == Dispatched {
        session := OpenSession(conn.working.sessions);
        if session.None? {
          conn.working := AddAnomaly(conn.working, Anomaly(o.tid, Some(id), NoSession, o.lastRead));
          conn.working := Touch(conn.working, id, o.lastRead, o.portal);
          conn.working := MarkProcessed(conn.working, obs);
          conn.Commit();
          return;
        }
      }
      var m := Move(d.toStatus.value, o.portal, session, o.lastRead);
      if d.detachChildren {
        var detached := ReturnReusableContainer(id, status, m);
      } else {
        var moved;
        moved, rows := MoveContainerTree(id, m);
        CheckShort(id, o);
      }
      assert conn.working == Applied(before, o, rows);
      AppliedKeeps(before, o, rows);
      conn.working := MarkProcessed(conn.working, obs);
      conn.Commit();
    }

    /** Others commit what they like: before observation i is looked at, and before each attempt at it. */
    method LetOthers(others: Others, i: nat, a: nat, ghost before: Db, ghost events: seq<Event>)
      returns (ghost longer: seq<Event>)
      requires conn.working == conn.committed && Ledger(conn.committed) && OnlyOthers(others)
      requires EnabledRun(before, events) && conn.committed == Run(before, events)
      modifies conn
      ensures conn.working == conn.committed == others(i, a, old(conn.committed)) && Ledger(conn.committed)
      ensures EnabledRun(before, longer) && conn.committed == Run(before, longer)
      ensures events <= longer && NoHandles(longer[|events|..])
      ensures old(conn.committed.observations) <= conn.committed.observations
    {
      var db := others(i, a, conn.committed);
      assert ByOthers(conn.committed, db);
      ghost var es :| EnabledRun(conn.committed, es) && NoHandles(es) && Run(conn.committed, es) == db;
      RunConcat(before, events, es);
      RunKeeps(conn.committed, es);
      OthersKeepObservations(conn.committed, es);
      conn.committed, conn.working := db, db;
      longer := events + es;
      assert longer[|events|..] == es;
    }

    /**
     One observation. An attempt that fails may have done anything to the open
     transaction; it is rolled back and made again, on whatever others have committed
     by then. The effect is that of one attempt on the state it found.
    */
    method Handle(obs: nat, failures: nat, others: Others, i: nat, ghost safe: Db -> bool,
                  ghost before: Db, ghost events: seq<Event>)
      returns (ghost found: Db, ghost rows: seq<nat>, ghost longer: seq<Event>)
      requires conn.working == conn.committed && Ledger(conn.committed) && safe(conn.committed)
      requires OnlyOthers(others) && Keep(others, safe)
      requires QueriesEnd(safe)
      requires obs < |conn.committed.observations| && !conn.committed.observations[obs].processed
      requires EnabledRun(before, events) && conn.committed == Run(before, events)
      modifies this, conn
      ensures old(conn.committed.observations) <= found.observations && RowsExist(found, rows)
      ensures RowsFor(found, found.observations[obs].tid, rows) && Ledger(found) && safe(found)
      ensures conn.committed == conn.working == Handled(found, obs, rows) && Ledger(conn.committed)
      ensures LoadFollows(found, found.observations[obs], conn.committed)
      ensures |longer| > |events| && events <= longer && NoHandles(longer[|events|..|longer| - 1])
      ensures longer[|longer| - 1] == Event.Handle(obs, rows)
      ensures EnabledRun(before, longer) && conn.committed == Run(before, longer)
      ensures firstSeen == old(firstSeen) - {obs}
    {
      hide Ledger, QueryEnds, Handled, Applied, Step, ByOthers, LoadFollows;
      longer := LetOthers(others, i, 1, before, events);
      for attempt := 0 to failures
        invariant conn.working == conn.committed && Ledger(conn.committed) && safe(conn.committed)
        invariant EnabledRun(before, longer) && conn.committed == Run(before, longer)
        invariant events <= longer && NoHandles(longer[|events|..])
        invariant old(conn.committed.observations) <= conn.committed.observations
        invariant firstSeen == old(firstSeen)
      {
        conn.working := *;
        conn.Rollback();
        ghost var sofar := longer;
        longer := LetOthers(others, i, attempt + 2, before, longer);
        assert longer[|events|..] == sofar[|events|..] + longer[|sofar|..];
      }
      found := conn.committed;
      rows := Apply(obs);
      HandlingMovesWholeLoads(found, obs, rows);
      HandleExtends(before, longer, found, obs, rows);
      assert (longer + [Event.Handle(obs, rows)])[|events|..|longer|] == longer[|events|..];
      longer := longer + [Event.Handle(obs, rows)];
      firstSeen := firstSeen - {obs};
    }

    /** Is this a loaded pallet whose load may still be arriving? */
    method ShouldWait(obs: nat, now: Time) returns (wait: bool)
      requires obs < |conn.committed.observations|
      modifies this`firstSeen
      ensures wait <==> Loaded(conn.committed, obs) && obs in firstSeen && now - firstSeen[obs] < 5.0
      ensures firstSeen == if Loaded(conn.committed, obs) && obs !in old(firstSeen)
                           then old(firstSeen)[obs := now] else old(firstSeen)
    {
      var found := FindTid(conn.committed.containers, conn.committed.observations[obs].tid);
      if found.None? {
        return false;
      }
      if Children(conn.committed.containers, found.value) == {} {
        return false;
      }
      if obs !in firstSeen {
        firstSeen := firstSeen[obs := now];
      }
      return now - firstSeen[obs] < PALLET_SETTLE_S;
    }

    /**
     One fetched observation: held back exactly when it is a load still settling in the
     state it was looked at in, and otherwise handled and added to the run so far.
    */
    method HandleUnlessWaiting(obs: nat, now: Time, failures: nat, others: Others, i: nat, ghost safe: Db -> bool,
                               ghost before: Db, ghost events: seq<Event>)
      returns (wait: bool, ghost looked: Db, ghost longer: seq<Event>)
      requires conn.working == conn.committed && Ledger(conn.committed) && safe(conn.committed)
      requires OnlyOthers(others) && Keep(others, safe)
      requires QueriesEnd(safe) && KeptByHandling(safe)
      requires obs < |conn.committed.observations| && !conn.committed.observations[obs].processed
      requires EnabledRun(before, events) && conn.committed == Run(before, events)
      modifies this, conn
      ensures conn.working == conn.committed && Ledger(conn.committed) && safe(conn.committed)
      ensures EnabledRun(before, longer) && conn.committed == Run(before, longer) && events <= longer
      ensures |conn.committed.observations| >= |old(conn.committed.observations)|
      ensures forall x :: 0 <= x < |old(conn.committed.observations)| ==>
                conn.committed.observations[x].processed ==
                (old(conn.committed.observations)[x].processed || (x == obs && !wait))
      ensures PassesThrough(before, longer, looked)
      ensures wait <==> StillSettling(looked, obs, old(firstSeen), now)
      ensures wait ==> obs in firstSeen && now - firstSeen[obs] < 5.0
      ensures firstSeen - {obs} == old(firstSeen) - {obs}
    {
      hide Ledger, QueryEnds, ByOthers, Applied, Loaded;
      longer := LetOthers(others, i, 0, before, events);
      looked := conn.committed;
      assert longer[..|longer|] == longer;
      assert PassesThrough(before, longer, looked);
      wait := ShouldWait(obs, now);
      if !wait {
        ghost var found, rows;
        ghost var sofar := longer;
        found, rows, longer := Handle(obs, failures, others, i, safe, before, longer);
        AppliedKeeps(found, found.observations[obs], rows);
        LongerPassesThrough(before, sofar, longer, looked);
      }
    }

    /**
     One pass of the service loop, over the whole batch or up to where it is stopped or
     dies: the fetched observations in id order, loads that are still settling held
     back, each of the others handled in its own transaction, with the API and the
     debouncer committing in between. What it leaves behind is a run of events, so all
     that holds of runs holds of the service. Every observation it came to is processed
     or held, and the rest are as they were; none is held longer than the settling time
     after it was first seen, and none before.
    */
    method RunOnce(clock: seq<Time>, failures: seq<nat>, others: Others, upTo: nat, ghost safe: Db -> bool)
      returns (ghost events: seq<Event>, batch: seq<nat>, held: set<nat>, ghost looked: seq<Db>)
      requires conn.working == conn.committed && Ledger(conn.committed) && safe(conn.committed)
      requires OnlyOthers(others) && Keep(others, safe) && QueriesEnd(safe) && KeptByHandling(safe)
      requires |clock| == |failures| == 500
      modifies this, conn
      ensures EnabledRun(old(conn.committed), events)
      ensures conn.committed == conn.working == Run(old(conn.committed), events)
      ensures Ledger(conn.committed) && safe(conn.committed)
      ensures batch == Unprocessed(old(conn.committed.observations), 500)
      ensures |looked| == if upTo < |batch| then upTo else |batch|
      ensures PassedOver(conn.committed.observations, batch, |looked|, held)
      ensures forall j :: 0 <= j < |looked| ==> PassesThrough(old(conn.committed), events, looked[j])
      ensures HeldForCause(looked, batch, held, clock, old(firstSeen), firstSeen)
    {
      hide Ledger, QueriesEnd, KeptByHandling, Loaded, ByOthers, Handled, StillSettling;
      hide HeldForCause, PassedOver, PassesThrough;
      batch := Unprocessed(conn.committed.observations, FETCH_BATCH);
      ghost var before, seen := conn.committed, firstSeen;
      events, held, looked := [], {}, [];
      NothingPassedYet(before.observations, batch);
      NothingHeldYet(batch, clock, seen);
      for i := 0 to if upTo < |batch| then upTo else |batch|
        invariant conn.working == conn.committed && Ledger(conn.committed) && safe(conn.committed)
        invariant EnabledRun(before, events) && conn.committed == Run(before, events)
        invariant |looked| == i && PassedOver(conn.committed.observations, batch, i, held)
        invariant HeldForCause(looked, batch, held, clock, seen, firstSeen)
        invariant forall j :: 0 <= j < |looked| ==> PassesThrough(before, events, looked[j])
      {
        var wait;
        ghost var here, sofar, os, remembered := conn.committed, events, conn.committed.observations, firstSeen;
        StillToCome(os, batch, i, held);
        wait, here, events := HandleUnlessWaiting(batch[i], clock[i], failures[i], others, i, safe, before, events);
        AllPassThrough(before, sofar, events, looked);
        PassOverNext(os, batch, i, held, wait, conn.committed.observations);
        HeldForCauseNext(looked, batch, held, clock, seen, remembered, here, wait, firstSeen);
        if wait {
          held := held + {batch[i]};
        }
        looked := looked + [here];
      }
    }

    /**
     Round after round, the service stopped or crashing in the middle of any of them,
     and starting again with nothing remembered: still a run of events, in which each
     observation that was there to be handled is handled once if it has been processed
     since, and otherwise not at all.
    */
    method Serve(rounds: seq<Round>, ghost safe: Db -> bool) returns (ghost events: seq<Event>)
      requires conn.working == conn.committed && Ledger(conn.committed) && safe(conn.committed)
      requires QueriesEnd(safe) && KeptByHandling(safe)
      requires forall r :: r in rounds ==>
                 |r.clock| == |r.failures| == 500 && OnlyOthers(r.others) && Keep(r.others, safe)
      modifies this, conn
      ensures conn.working == conn.committed && Ledger(conn.committed) && safe(conn.committed)
      ensures EnabledRun(old(conn.committed), events) && conn.committed == Run(old(conn.committed), events)
      ensures |conn.committed.observations| >= |old(conn.committed.observations)|
      ensures forall i: nat :: i < |old(conn.committed.observations)| ==>
                HandleCount(events, i) ==
                if conn.committed.observations[i].processed && !old(conn.committed.observations)[i].processed
                then 1 else 0
    {
      ghost var before := conn.committed;
      events := [];
      for k := 0 to |rounds|
        invariant conn.working == conn.committed && Ledger(conn.committed) && safe(conn.committed)
        invariant EnabledRun(before, events) && conn.committed == Run(before, events)
      {
        var r := rounds[k];
        assert r in rounds;
        ghost var more, batch, held, looked;
        more, batch, held, looked := RunOnce(r.clock, r.failures, r.others, r.upTo, safe);
        RunConcat(before, events, more);
        events := events + more;
        if r.restarts {
          conn.working := *;
          conn.Rollback();
          firstSeen := map[];
        }
      }
      forall i: nat | i < |before.observations|
        ensures i < |conn.committed.observations|
        ensures HandleCount(events, i) ==
                if conn.committed.observations[i].processed && !before.observations[i].processed then 1 else 0
      {
        HandledOnce(before, events, i);
      }
      assert |conn.committed.observations| >= |before.observations| by {
        if before.observations != [] {
          HandledOnce(before, events, |before.observations| - 1);
        }
      }
    }
  }

  // ----- what is safe -----

  /** The parent relation is a forest. */
  lemma ForestsAreSafe()
    ensures QueriesEnd(db => StacksUp(db)) && KeptByHandling(db => StacksUp(db))
  {
    hide StacksUp, Handled, QueryEnds;
    forall db: Db, obs: nat | StacksUp(db) && obs < |db.observations|
      ensures QueryEnds(db, db.observations[obs])
    {
      ForestQueryEnds(db, db.observations[obs]);
    }
    forall db: Db, obs, rows | StacksUp(db) && Enabled(db, Handle(obs, rows))
      ensures StacksUp(Handled(db, obs, rows))
    {
      HandledStacksUp(db, obs, rows);
    }
  }

  /** Nothing that is still to be handled is of a container that stands on itself; others may. */
  ghost predicate NoneOnCycle(db: Db) {
    forall i :: 0 <= i < |db.observations| && !db.observations[i].processed ==> OffCycle(db, db.observations[i].tid)
  }

  ghost predicate OffCycle(db: Db, tid: string) {
    var found := FindTid(db.containers, tid);
    found.Some? ==> !OnCycle(ParentsOf(db.containers), found.value)
  }

  lemma {:induction false} UpWithFewer(p: seq<Option<nat>>, q: seq<Option<nat>>, x: nat, k: nat)
    requires |q| == |p| && forall i :: 0 <= i < |p| ==> q[i] == p[i] || q[i] == None
    requires Up(q, x, k).Some?
    ensures Up(p, x, k) == Up(q, x, k)
    decreases k
  {
    if k > 0 {
      UpWithFewer(p, q, q[x].value, k - 1);
    }
  }

  lemma {:induction false} SameTidsSameFind(cs: seq<Container>, ds: seq<Container>, tid: string)
    requires |ds| == |cs| && forall i :: 0 <= i < |cs| ==> ds[i].tid == cs[i].tid
    ensures FindTid(ds, tid) == FindTid(cs, tid)
  {
    if cs != [] {
      SameTidsSameFind(cs[..|cs| - 1], ds[..|ds| - 1], tid);
    }
  }

  /** Handling takes containers off their parents and puts none on any: no cycle comes of it. */
  lemma HandledStaysOff(db: Db, obs: nat, rows: seq<nat>, tid: string)
    requires Enabled(db, Handle(obs, rows)) && OffCycle(db, tid)
    ensures OffCycle(Handled(db, obs, rows), tid)
  {
    hide Up;
    var o := db.observations[obs];
    var r := Applied(db, o, rows);
    AppliedShape(db, o, rows);
    SameTidsSameFind(db.containers, r.containers, tid);
    var found := FindTid(db.containers, tid);
    if found.Some? {
      var p, q := ParentsOf(db.containers), ParentsOf(r.containers);
      forall k: nat | k > 0 && Up(q, found.value, k) == Some(found.value)
        ensures false
      {
        UpWithFewer(p, q, found.value, k);
      }
    }
  }

  lemma NoneOnCycleIsSafe()
    ensures QueriesEnd(db => NoneOnCycle(db)) && KeptByHandling(db => NoneOnCycle(db))
  {
    forall db: Db, obs, rows | NoneOnCycle(db) && Enabled(db, Handle(obs, rows))
      ensures NoneOnCycle(Handled(db, obs, rows))
    {
      NoneOnCycleAfter(db, obs, rows);
    }
    hide OnCycle;
  }

  lemma NoneOnCycleAfter(db: Db, obs: nat, rows: seq<nat>)
    requires NoneOnCycle(db) && Enabled(db, Handle(obs, rows))
    ensures NoneOnCycle(Handled(db, obs, rows))
  {
    hide OffCycle, Applied;
    var r := Handled(db, obs, rows);
    AppliedKeeps(db, db.observations[obs], rows);
    forall i | 0 <= i < |r.observations| && !r.observations[i].processed
      ensures OffCycle(r, r.observations[i].tid)
    {
      StepObservations(db, Handle(obs, rows), i);
      HandledStaysOff(db, obs, rows, db.observations[i].tid);
    }
  }

  /**
   One round of the service: the clock, the failures and the others at each
   observation, how many observations it gets to before it is stopped or dies, and
   whether it is a fresh process that makes the next round.
  */
  datatype Round = Round(clock: seq<Time>, failures: seq<nat>, others: Others, upTo: nat, restarts: bool)
}
