/**
 Further consequences for whole runs: each observation takes effect once,
 containers on their own go round one cycle, the forest stays a forest, and
 which session a dispatch is charged to.
*/
module RunTheorems {
  import opened Basics
  import opened Transitions
  import opened Forest
  import opened Warehouse
  import opened MovementLog
  import opened Transactions
  import opened WarehouseRuns
  import opened WarehousePromises

  // ----- exactly once -----

  function HandleCount(events: seq<Event>, obs: nat): nat {
    if events == [] then 0
    else (if events[0].Handle? && events[0].obs == obs then 1 else 0) + HandleCount(events[1..], obs)
  }

  lemma StepObservations(db: Db, e: Event, i: nat)
    requires Enabled(db, e) && i < |db.observations|
    ensures i < |Step(db, e).observations|
    ensures Step(db, e).observations[i] ==
            db.observations[i].(processed := db.observations[i].processed || (e.Handle? && e.obs == i))
  {
    if e.Handle? {
      AppliedKeeps(db, db.observations[e.obs], e.rows);
    }
  }

  /**
   Whatever fails and is tried again, an observation is handled at most once,
   and it is marked processed exactly when it has been.
  */
  lemma {:induction false} HandledOnce(db: Db, events: seq<Event>, i: nat)
    requires EnabledRun(db, events) && i < |db.observations|
    ensures var r := Run(db, events);
            && i < |r.observations|
            && (db.observations[i].processed ==> r.observations[i].processed)
            && HandleCount(events, i) ==
               if r.observations[i].processed && !db.observations[i].processed then 1 else 0
    decreases |events|
  {
    if events != [] {
      StepObservations(db, events[0], i);
      HandledOnce(Step(db, events[0]), events[1..], i);
    }
  }

  /** The attempts that committed. */
  function Committed(events: seq<Event>): seq<Event> {
    if events == [] then []
    else (if events[0].RolledBack? then [] else [events[0]]) + Committed(events[1..])
  }

  /**
   Rollbacks can be left out of a run. That a failed attempt, whatever it wrote, is
   no more than a rollback is the contract of the engine's Handle.
  */
  lemma {:induction false} RetriesChangeNothing(db: Db, events: seq<Event>)
    requires EnabledRun(db, events)
    ensures EnabledRun(db, Committed(events))
    ensures Run(db, Committed(events)) == Run(db, events)
    decreases |events|
  {
    if events != [] {
      RetriesChangeNothing(Step(db, events[0]), events[1..]);
      assert Committed(events)[if events[0].RolledBack? then 0 else 1..] == Committed(events[1..]);
    }
  }

  // ----- the forest -----

  /** As long as attachments are guarded, the query of any container's tree comes to an end. */
  lemma TreesAreFinite(db: Db, root: nat)
    requires ReachableGuarded(db) && root < |db.containers|
    ensures exists n: nat :: Level(ParentsOf(db.containers), root, n) == {}
  {
    ReachableInv(db);
    NoCycleInForest(ParentsOf(db.containers), root);
    WalkStopsIffNoCycle(ParentsOf(db.containers), root);
  }

  /**
   The guard the API lacks: an accepted request to attach keeps the forest
   exactly when the parent does not stand on one of the children named.
  */
  lemma AttachNeedsGuard(db: Db, tid: string, childTids: seq<string>)
    requires ReachableGuarded(db) && AttachChildren(db, tid, childTids).Done?
    ensures IsForest(ParentsOf(AttachChildren(db, tid, childTids).db.containers)) <==>
            !OnAny(ParentsOf(db.containers), FindTid(db.containers, tid).value, Kids(db.containers, childTids))
  {
    ReachableInv(db);
    var parent, kids := FindTid(db.containers, tid).value, Kids(db.containers, childTids);
    AttachKeepsForestIff(ParentsOf(db.containers), parent, kids);
    assert ParentsOf(AttachChildren(db, tid, childTids).db.containers) ==
           Attached(ParentsOf(db.containers), parent, kids);
  }

  /** A pallet, then a box on it: both requests to register are accepted. */
  lemma PalletAndBox() returns (db: Db)
    ensures Reachable(db) && db.containers ==
            [Container("P", Registered, true, None, None, None), Container("B", Registered, false, Some(0), None, None)]
  {
    var one := OnePallet();
    hide Reachable;
    assert FindTid(one.containers, "P") == Some(0) && FindTid(one.containers, "B") == None;
    ReachableNext(one, Register("B", false, Some("P"), []));
    db := Step(one, Register("B", false, Some("P"), []));
  }

  lemma OnePallet() returns (db: Db)
    ensures Reachable(db) && db.containers == [Container("P", Registered, true, None, None, None)]
  {
    var start := Db([], [], [], [], [], [], {}, {});
    EmptyIsReachable(start);
    hide Reachable;
    ReachableNext(start, Register("P", true, None, []));
    db := Step(start, Register("P", true, None, []));
  }

  /** Putting the pallet on its own box is accepted, and closes a cycle. */
  lemma AttachUnderOwnBox() returns (db: Db)
    ensures Reachable(db) && StacksUp(db)
    ensures var reply := AttachChildren(db, "B", ["P"]); reply.Done? && Reachable(reply.db) && !StacksUp(reply.db)
  {
    db := PalletAndBox();
    assert FindTid(db.containers, "B") == Some(1);
    assert FindTid(db.containers[..1], "P") == Some(0);
    AttachUnderOwnChild();
    assert ParentsOf(db.containers) == [None, Some(0)];
    assert AttachObjection(db.containers, 1, ["P"]).None?;
    ReachableNext(db, Attach("B", ["P"]));
    assert Kids(db.containers, ["P"]) == {0};
    assert ParentsOf(AttachChildren(db, "B", ["P"]).db.containers) == Attached([None, Some(0)], 1, {0});
  }

  // ----- containers that move by themselves -----

  /** c never stands on anything and nobody corrects it. */
  ghost predicate Alone(db: Db, events: seq<Event>, c: nat)
    requires EnabledRun(db, events)
    decreases |events|
  {
    && (c < |db.containers| ==> db.containers[c].parent.None?)
    && (events != [] ==>
          && !(c < |db.containers| && events[0].Correct? && events[0].tid == db.containers[c].tid)
          && Alone(Step(db, events[0]), events[1..], c))
  }

  ghost predicate MovesByItself(db: Db, c: nat) {
    c < |db.containers| ==> OwnEdges(db.movements, c, db.containers[c].reusable)
  }

  /** A tree moving elsewhere leaves c alone; moving c itself follows the transition table. */
  lemma TreeMovesByItself(db: Db, root: nat, rows: seq<nat>, m: Move, c: nat)
    requires root < |db.containers| && Enumerates(ParentsOf(db.containers), root, rows)
    requires c < |db.containers| && db.containers[c].parent.None?
    requires LegalEdge(db.containers[root].status, m.to, db.containers[root].reusable)
    requires OwnEdges(db.movements, c, db.containers[c].reusable)
    ensures RowsExist(db, rows)
    ensures OwnEdges(MoveRows(db, rows, m).movements, c, db.containers[c].reusable)
  {
    MoveRowsEffect(db, rows, m);
    MovesAreOfRows(db.containers, rows, m);
    BelowByParent(ParentsOf(db.containers), c, root);
    var r := MoveRows(db, rows, m);
    forall i | 0 <= i < |r.movements| && r.movements[i].container == c
      ensures LegalEdge(r.movements[i].from, r.movements[i].to, db.containers[c].reusable)
    {
      if i < |db.movements| {
        assert r.movements[i] == db.movements[i];
      } else {
        assert r.movements[i] == MovesOf(db.containers, rows, m)[i - |db.movements|];
        assert c == root;
      }
    }
  }

  lemma HandleMovesByItself(db: Db, o: Observation, rows: seq<nat>, c: nat)
    requires RowsExist(db, rows) && RowsFor(db, o.tid, rows)
    requires c < |db.containers| && db.containers[c].parent.None?
    requires OwnEdges(db.movements, c, db.containers[c].reusable)
    ensures OwnEdges(Applied(db, o, rows).movements, c, db.containers[c].reusable)
  {
    if !TurnedAway(db, o) && !NothingToDo(db, o) {
      var id := FindTid(db.containers, o.tid).value;
      var d := Decide(o.portal, o.direction, db.containers[id].status, db.containers[id].reusable);
      DecisionByOutcome(o.portal, o.direction, db.containers[id].status, db.containers[id].reusable);
      if !d.detachChildren {
        TreeMovesByItself(db, id, rows, MoveAsked(db, o), c);
      }
    }
  }

  lemma StepMovesByItself(db: Db, e: Event, c: nat)
    requires Ledger(db) && Enabled(db, e) && MovesByItself(db, c)
    requires c < |db.containers| ==> db.containers[c].parent.None?
    requires !(c < |db.containers| && e.Correct? && e.tid == db.containers[c].tid)
    ensures MovesByItself(Step(db, e), c)
  {
    if e.Handle? && c < |db.containers| {
      HandleMovesByItself(db, db.observations[e.obs], e.rows, c);
      AppliedShape(db, db.observations[e.obs], e.rows);
    } else if e.Handle? {
      AppliedShape(db, db.observations[e.obs], e.rows);
    }
  }

  lemma {:induction false} RunMovesByItself(db: Db, events: seq<Event>, c: nat)
    requires Ledger(db) && EnabledRun(db, events) && Alone(db, events, c) && MovesByItself(db, c)
    ensures MovesByItself(Run(db, events), c)
    decreases |events|
  {
    if events != [] {
      StepKeepsLedger(db, events[0]);
      StepMovesByItself(db, events[0], c);
      RunMovesByItself(Step(db, events[0]), events[1..], c);
    }
  }

  lemma {:induction false} HistoryEdges(log: seq<Movement>, c: nat, reusable: bool)
    requires OwnEdges(log, c, reusable)
    ensures forall i :: 0 <= i < |History(log, c)| ==>
              LegalEdge(History(log, c)[i].from, History(log, c)[i].to, reusable)
  {
    if log != [] {
      HistoryEdges(log[..|log| - 1], c, reusable);
    }
  }

  /** A state reached by a run in which c never stands on anything and nobody corrects it. */
  ghost predicate ReachableAlone(db: Db, c: nat) {
    exists start, events ::
      IsEmpty(start) && EnabledRun(start, events) && Alone(start, events, c) && Run(start, events) == db
  }

  lemma AloneOwnEdges(db: Db, c: nat)
    requires ReachableAlone(db, c)
    ensures Ledger(db) && MovesByItself(db, c)
  {
    hide Ledger, StacksUp, Step, OwnEdges;
    var start, events :|
      IsEmpty(start) && EnabledRun(start, events) && Alone(start, events, c) && Run(start, events) == db;
    AloneFromEmpty(start, events, c);
  }

  lemma AloneFromEmpty(start: Db, events: seq<Event>, c: nat)
    requires IsEmpty(start) && EnabledRun(start, events) && Alone(start, events, c)
    ensures Ledger(Run(start, events)) && MovesByItself(Run(start, events), c)
  {
    EmptyInv(start);
    RunKeeps(start, events);
    RunMovesByItself(start, events, c);
  }

  /**
   However often a container standing on nothing is read, and whatever else goes
   on: if it is not reusable it moves at most twice, into stock and out; if it
   is, arrivals, dispatches and returns take turns.
  */
  lemma RepeatedReadsAreBounded(db: Db, c: nat)
    requires ReachableAlone(db, c) && c < |db.containers|
    ensures var h := History(db.movements, c);
            && CountInto(h, InStock) >= CountInto(h, Dispatched) >= CountInto(h, Registered)
            && CountInto(h, Registered) >= CountInto(h, InStock) - 1
            && (!db.containers[c].reusable ==> |h| <= 2 && CountInto(h, Registered) == 0)
  {
    AloneOwnEdges(db, c);
    HistoryIsChain(db.movements, c);
    HistoryEdges(db.movements, c, db.containers[c].reusable);
    OwnMovesTakeTurns(History(db.movements, c), db.containers[c].reusable);
  }

  // ----- whose order a dispatch is charged to -----

  /** The session was open at this moment. */
  predicate Covers(s: Session, t: Time) {
    s.openedAt <= t && (s.closedAt.Some? ==> t < s.closedAt.value)
  }

  /** The session that was open at this moment, if one was. */
  function SessionAt(sessions: seq<Session>, t: Time): (r: Option<nat>)
    ensures r.Some? ==> r.value < |sessions| && Covers(sessions[r.value], t)
    ensures r.None? ==> forall i :: 0 <= i < |sessions| ==> !Covers(sessions[i], t)
  {
    if sessions == [] then None
    else if Covers(sessions[|sessions| - 1], t) then Some(|sessions| - 1)
    else SessionAt(sessions[..|sessions| - 1], t)
  }

  /**
   A dispatch is charged to the session open when the observation is handled.
   That is the session that was open when the container was read exactly when
   it had been opened by then.
  */
  lemma ChargedToItsOwnSessionIff(db: Db, t: Time)
    requires Reachable(db) && OpenSession(db.sessions).Some?
    ensures var s := OpenSession(db.sessions).value;
            SessionAt(db.sessions, t) == Some(s) <==> db.sessions[s].openedAt <= t
  {
    ReachableLedger(db);
    var s := OpenSession(db.sessions).value;
    assert s == |db.sessions| - 1;
  }

  const BOX: Container := Container("T", InStock, false, None, Some(2.0), Some(Entrance))

  const BOX_ARRIVED: Movement := Movement(0, Registered, InStock, Some(Entrance), None, 2.0, FromPortal)

  const ARRIVAL: Observation := Observation("T", Entrance, None, 1.0, 2.0, false)

  const DEPARTURE: Observation := Observation("T", Exit, Some(Out), 4.0, 5.0, false)

  /** A box registered and its arrival read, the dock open for A since 0. */
  const BOX_READ: Db := Db([Container("T", Registered, false, None, None, None)], [], [], [],
                           [Session("A", 0.0, None)], [ARRIVAL], {}, {"A", "B"})

  /** The box in stock. */
  const BOX_IN_STOCK: Db := Db([BOX], [], [BOX_ARRIVED], [], [Session("A", 0.0, None)],
                               [ARRIVAL.(processed := true)], {}, {"A", "B"})

  /** Read leaving at 5, the dock changed over to B at 6 and 7, the reading not handled yet. */
  const DOCK_CHANGED: Db := BOX_IN_STOCK.(sessions := [Session("A", 0.0, Some(6.0)), Session("B", 7.0, None)],
                                          observations := [ARRIVAL.(processed := true), DEPARTURE])

  lemma BoxIsRegistered() returns (db: Db)
    ensures Reachable(db)
    ensures db == Db([Container("T", Registered, false, None, None, None)], [], [], [], [], [], {}, {"A", "B"})
  {
    var start := Db([], [], [], [], [], [], {}, {"A", "B"});
    EmptyIsReachable(start);
    hide Reachable;
    ReachableNext(start, Register("T", false, None, []));
    db := Step(start, Register("T", false, None, []));
  }

  lemma BoxIsRead()
    ensures Reachable(BOX_READ)
  {
    hide Reachable;
    var one := BoxIsRegistered();
    ReachableNext(one, DockOpened("A", 0.0));
    var two := Step(one, DockOpened("A", 0.0));
    ReachableNext(two, Observed(ARRIVAL));
    assert Step(two, Observed(ARRIVAL)) == BOX_READ;
  }

  /** A container on its own is the whole of its tree. */
  lemma OnlyRoot(db: Db)
    requires |db.containers| == 1 && db.containers[0].parent.None?
    ensures RowsExist(db, [0]) && Enumerates(ParentsOf(db.containers), 0, [0])
    ensures forall m: Move :: MovesOf(db.containers, [0], m) ==
              if db.containers[0].status == m.to then [] else [MovementOf(0, db.containers[0].status, m)]
  {
    BelowByParent(ParentsOf(db.containers), 0, 0);
    forall m: Move
      ensures MovesOf(db.containers, [0], m) ==
              if db.containers[0].status == m.to then [] else [MovementOf(0, db.containers[0].status, m)]
    {
      MovesLonger(db.containers, [], 0, m);
      assert [] + [0] == [0];
    }
  }

  lemma BoxArrives()
    ensures Enabled(BOX_READ, Handle(0, [0])) && Step(BOX_READ, Handle(0, [0])) == BOX_IN_STOCK
  {
    var m := Move(InStock, Entrance, None, 2.0);
    OnlyRoot(BOX_READ);
    assert FindTid(BOX_READ.containers, "T") == Some(0);
    MoveRowsEffect(BOX_READ, [0], m);
    MoveRowsKeeps(BOX_READ, [0], m);
    var moved := MoveRows(BOX_READ, [0], m);
    assert moved.containers == [BOX] && moved.movements == [BOX_ARRIVED];
    assert Children(moved.containers, 0) == {};
    assert Applied(BOX_READ, ARRIVAL, [0]) == moved;
  }

  lemma DockChanges()
    ensures Reachable(DOCK_CHANGED)
  {
    hide Reachable;
    BoxIsRead();
    BoxArrives();
    ReachableNext(BOX_READ, Handle(0, [0]));
    ReachableNext(BOX_IN_STOCK, Observed(DEPARTURE));
    var two := Step(BOX_IN_STOCK, Observed(DEPARTURE));
    ReachableNext(two, DockClosed(0, 6.0));
    var three := Step(two, DockClosed(0, 6.0));
    ReachableNext(three, DockOpened("B", 7.0));
    assert Step(three, DockOpened("B", 7.0)) == DOCK_CHANGED;
  }

  /** Read at 5 under the first order, handled after the dock changed over at 6 and 7: charged to the second. */
  lemma ChargedToTheNextSession()
    ensures Reachable(DOCK_CHANGED) && Enabled(DOCK_CHANGED, Handle(1, [0]))
    ensures Step(DOCK_CHANGED, Handle(1, [0])).movements ==
            [BOX_ARRIVED, Movement(0, InStock, Dispatched, Some(Exit), Some(1), 5.0, FromPortal)]
    ensures SessionAt(DOCK_CHANGED.sessions, 5.0) == Some(0)
  {
    var m := Move(Dispatched, Exit, Some(1), 5.0);
    DockChanges();
    OnlyRoot(DOCK_CHANGED);
    assert FindTid(DOCK_CHANGED.containers, "T") == Some(0);
    assert OpenSession(DOCK_CHANGED.sessions) == Some(1);
    MoveRowsEffect(DOCK_CHANGED, [0], m);
    assert SessionAt(DOCK_CHANGED.sessions[..1], 5.0) == Some(0);
  }

  /** The clock has not stepped back since the dock's last event. */
  ghost predicate Ticks(db: Db, e: Event) {
    match e
    case DockOpened(_, now) =>
      forall i :: 0 <= i < |db.sessions| && db.sessions[i].closedAt.Some? ==> db.sessions[i].closedAt.value <= now
    case DockClosed(s, now) => s < |db.sessions| ==> db.sessions[s].openedAt <= now
    case _ => true
  }

  ghost predicate TicksAlong(db: Db, events: seq<Event>)
    requires EnabledRun(db, events)
    decreases |events|
  {
    events != [] ==> Ticks(db, events[0]) && TicksAlong(Step(db, events[0]), events[1..])
  }

  /** Each session is closed, and not before it was opened, by the time the next one opens. */
  ghost predicate OneAfterTheOther(sessions: seq<Session>) {
    && (forall i :: 0 <= i < |sessions| && sessions[i].closedAt.Some? ==>
          sessions[i].openedAt <= sessions[i].closedAt.value)
    && (forall i, j :: 0 <= i < j < |sessions| ==>
          sessions[i].closedAt.Some? && sessions[i].closedAt.value <= sessions[j].openedAt)
  }

  lemma DockStepsInTime(db: Db, e: Event)
    requires OneAfterTheOther(db.sessions) && Enabled(db, e) && Ticks(db, e)
    ensures OneAfterTheOther(Step(db, e).sessions)
  {
    if e.Handle? {
      AppliedKeeps(db, db.observations[e.obs], e.rows);
    }
  }

  /** As long as the clock does not step back, the sessions follow one another in time. */
  lemma {:induction false} SessionsFollowOneAnother(db: Db, events: seq<Event>)
    requires OneAfterTheOther(db.sessions) && EnabledRun(db, events) && TicksAlong(db, events)
    ensures OneAfterTheOther(Run(db, events).sessions)
    decreases |events|
  {
    if events != [] {
      hide Step, Enabled, Ticks, OneAfterTheOther;
      DockStepsInTime(db, events[0]);
      SessionsFollowOneAnother(Step(db, events[0]), events[1..]);
    }
  }

  // ----- the API -----

  lemma OpenAtEnd(sessions: seq<Session>, s: Session)
    requires OpenSession(sessions) == None
    ensures OpenSession(sessions + [s]) == if s.closedAt.None? then Some(|sessions|) else None
  {
    assert (sessions + [s])[..|sessions|] == sessions;
  }

  /** Opening the dock makes the new session the open one; closing that leaves none open. */
  lemma DockOpensAndCloses(db: Db, customer: string, now: Time, later: Time)
    requires DockInOrder(db.sessions) && OpenDock(db, customer, now).Done?
    ensures var begun := OpenDock(db, customer, now).db;
            && OpenSession(begun.sessions) == Some(|db.sessions|)
            && begun.sessions[|db.sessions|].customer == customer
            && OpenDock(begun, customer, later) == Refused(409)
            && CloseDock(begun, |db.sessions|, later).Done?
            && OpenSession(CloseDock(begun, |db.sessions|, later).db.sessions) == None
            && CloseDock(CloseDock(begun, |db.sessions|, later).db, |db.sessions|, later) == Refused(409)
  {
    hide OpenSession;
    var n, open, closed := |db.sessions|, Session(customer, now, None), Session(customer, now, Some(later));
    OpenAtEnd(db.sessions, open);
    OpenAtEnd(db.sessions, closed);
    assert (db.sessions + [open])[n := closed] == db.sessions + [closed];
  }

  /** Registering brings nothing into stock: the contents wait for a portal read. */
  lemma RegisteringAddsNoStock(db: Db, tid: string, reusable: bool, parentTid: Option<string>,
                               lines: seq<(string, int)>, sku: string)
    requires Ledger(db) && RegisterContainer(db, tid, reusable, parentTid, lines).Done?
    ensures var r := RegisterContainer(db, tid, reusable, parentTid, lines).db;
            && OnHand(r.containers, r.contents, sku) == OnHand(db.containers, db.contents, sku)
            && FindTid(r.containers, tid) == Some(|db.containers|)
            && Quantity(r.contents, |db.containers|, sku) == Requested(lines, sku)
  {
    NewTagIsFound(db, tid, reusable, parentTid, lines, sku);
    RegistrationStores(db, tid, reusable, parentTid, lines, |db.containers|, sku);
  }

  /** An accepted request puts exactly the named containers on the parent and moves nothing. */
  lemma AttachesExactly(db: Db, tid: string, childTids: seq<string>, parent: nat)
    requires Ledger(db) && FindTid(db.containers, tid) == Some(parent) && AttachChildren(db, tid, childTids).Done?
    ensures var r := AttachChildren(db, tid, childTids).db;
            && tid !in childTids
            && |r.containers| == |db.containers|
            && (forall t :: t in childTids ==>
                  && FindTid(db.containers, t).Some?
                  && r.containers[FindTid(db.containers, t).value].parent == Some(parent))
            && (forall i :: 0 <= i < |db.containers| ==>
                  && r.containers[i].status == db.containers[i].status
                  && (db.containers[i].tid !in childTids ==> r.containers[i] == db.containers[i])
                  && (db.containers[i].parent.Some? ==> r.containers[i].parent == db.containers[i].parent))
            && r.movements == db.movements
  {
    forall t | t in childTids
      ensures FindTid(db.containers, t).Some? && t != tid
    {
      var i :| 0 <= i < |childTids| && childTids[i] == t;
    }
    forall i | 0 <= i < |db.containers| && db.containers[i].tid in childTids
      ensures db.containers[i].parent in {None, Some(parent)}
    {
      var j :| 0 <= j < |childTids| && childTids[j] == db.containers[i].tid;
      assert FindTid(db.containers, childTids[j]) == Some(i);
    }
  }

  // ----- corrections -----

  /** A correction is accepted for a known container and another of the three statuses, and moves nothing else. */
  lemma {:induction false} CorrectsOneContainer(db: Db, tid: string, to: Status, reason: string, operator: string,
                                                now: Time)
    requires Ledger(db)
    ensures var reply, id := Corrected(db, tid, to, reason, operator, now), FindTid(db.containers, tid);
            && (reply.Done? <==>
                  id.Some? && to in {Registered, InStock, Dispatched} && to != db.containers[id.value].status)
            && (reply.Done? ==>
                  && (forall i :: 0 <= i < |db.containers| && i != id.value ==>
                        reply.db.containers[i] == db.containers[i])
                  && LogStatus(reply.db.movements, id.value) == reply.db.containers[id.value].status == to
                  && |reply.db.movements| == |db.movements| + 1
                  && reply.db.movements[..|db.movements|] == db.movements
                  && reply.db.movements[|db.movements|] ==
                     Movement(id.value, db.containers[id.value].status, to, None, None, now,
                              FromPerson(reason, operator))
                  && reply.db.(containers := db.containers, movements := db.movements) == db
                  && reply.db.containers[id.value].(status := db.containers[id.value].status) ==
                     db.containers[id.value])
            && (id.None? ==> reply == Refused(404))
            && (id.Some? && !reply.Done? ==> reply == Refused(409))
  {
    if FindTid(db.containers, tid).Some? && Corrected(db, tid, to, reason, operator, now).Done? {
      var id := FindTid(db.containers, tid).value;
      var from := db.containers[id].status;
      Appended(db.movements, Movement(id, from, to, None, None, now, FromPerson(reason, operator)), id);
    }
  }

  /** A wrong correction is undone by another: the containers are as before, and both stay in the log. */
  lemma {:induction false} CorrectionCanBeUndone(db: Db, tid: string, to: Status, reason: string, operator: string,
                                                 now: Time, later: Time)
    requires Ledger(db) && Corrected(db, tid, to, reason, operator, now).Done?
    requires !db.containers[FindTid(db.containers, tid).value].status.Unrecognised?
    ensures var once := Corrected(db, tid, to, reason, operator, now).db;
            var was := db.containers[FindTid(db.containers, tid).value].status;
            var again := Corrected(once, tid, was, reason, operator, later);
            && again.Done? && again.db.containers == db.containers
            && |again.db.movements| == |db.movements| + 2 && db.movements <= again.db.movements
  {
    var once := Corrected(db, tid, to, reason, operator, now).db;
    SameTagsSameFind(db.containers, once.containers, tid);
  }

  lemma {:induction false} SameTagsSameFind(cs: seq<Container>, ds: seq<Container>, tid: string)
    requires |cs| == |ds| && forall i :: 0 <= i < |cs| ==> cs[i].tid == ds[i].tid
    ensures FindTid(cs, tid) == FindTid(ds, tid)
  {
    if cs != [] {
      SameTagsSameFind(cs[..|cs| - 1], ds[..|ds| - 1], tid);
    }
  }
}
