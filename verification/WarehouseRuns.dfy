/**
 Runs of the warehouse: any sequence of committed transactions, with failed
 attempts in between, and what holds in every state such a run reaches.
*/
module WarehouseRuns {
  import opened Basics
  import opened Transitions
  import opened Forest
  import opened Warehouse
  import opened MovementLog
  import opened Transactions

  datatype Event =
    | Observed(o: Observation)
    | Handle(obs: nat, rows: seq<nat>)
    | Register(tid: string, reusable: bool, parentTid: Option<string>, lines: seq<(string, int)>)
    | Attach(tid: string, childTids: seq<string>)
    | Correct(tid: string, to: Status, reason: string, operator: string, now: Time)
    | DockOpened(customer: string, now: Time)
    | DockClosed(session: nat, now: Time)
    | RolledBack

  /**
   When an event can happen. An observation is handled only while unprocessed,
   with the rows its tree query returns. Any request may be made of the API, whatever
   the clock says.
  */
  ghost predicate Enabled(db: Db, e: Event) {
    match e
    case Handle(obs, rows) =>
      obs < |db.observations| && !db.observations[obs].processed &&
      RowsExist(db, rows) && RowsFor(db, db.observations[obs].tid, rows)
    case _ => true
  }

  /**
   The parent does not stand on a container being put on it. The API does not ask for
   this; without it the parent relation does not stay a forest.
  */
  ghost predicate Guarded(db: Db, e: Event) {
    e.Attach? && AttachChildren(db, e.tid, e.childTids).Done? ==>
      !OnAny(ParentsOf(db.containers), FindTid(db.containers, e.tid).value, Kids(db.containers, e.childTids))
  }

  ghost function Step(db: Db, e: Event): Db
    requires Enabled(db, e)
  {
    match e
    case Observed(o) => db.(observations := db.observations + [o.(processed := false)])
    case Handle(obs, rows) => Handled(db, obs, rows)
    case Register(tid, reusable, parentTid, lines) => Kept(db, RegisterContainer(db, tid, reusable, parentTid, lines))
    case Attach(tid, childTids) => Kept(db, AttachChildren(db, tid, childTids))
    case Correct(tid, to, reason, operator, now) => Kept(db, Corrected(db, tid, to, reason, operator, now))
    case DockOpened(customer, now) => Kept(db, OpenDock(db, customer, now))
    case DockClosed(s, now) => Kept(db, CloseDock(db, s, now))
    case RolledBack => db
  }

  ghost predicate EnabledRun(db: Db, events: seq<Event>)
    decreases |events|
  {
    events != [] ==> Enabled(db, events[0]) && EnabledRun(Step(db, events[0]), events[1..])
  }

  ghost function Run(db: Db, events: seq<Event>): Db
    requires EnabledRun(db, events)
    decreases |events|
  {
    if events == [] then db else Run(Step(db, events[0]), events[1..])
  }

  ghost predicate GuardedRun(db: Db, events: seq<Event>)
    requires EnabledRun(db, events)
    decreases |events|
  {
    events != [] ==> Guarded(db, events[0]) && GuardedRun(Step(db, events[0]), events[1..])
  }

  /** A warehouse with a catalogue and nothing else. */
  predicate IsEmpty(db: Db) {
    && db.containers == [] && db.contents == [] && db.movements == []
    && db.anomalies == [] && db.sessions == [] && db.observations == []
  }

  lemma {:induction false} RunLonger(db: Db, events: seq<Event>, e: Event)
    requires EnabledRun(db, events) && Enabled(Run(db, events), e)
    ensures EnabledRun(db, events + [e])
    ensures Run(db, events + [e]) == Step(Run(db, events), e)
    ensures GuardedRun(db, events) && Guarded(Run(db, events), e) ==> GuardedRun(db, events + [e])
    decreases |events|
  {
    if events == [] {
      assert ([] + [e])[1..] == [];
    } else {
      RunLonger(Step(db, events[0]), events[1..], e);
      assert (events + [e])[1..] == events[1..] + [e];
    }
  }

  // ----- the invariant -----

  ghost predicate WellFormed(db: Db) {
    && UniqueTids(db.containers)
    && (forall i :: 0 <= i < |db.contents| ==> db.contents[i].container < |db.containers|)
    && (forall i :: 0 <= i < |db.movements| ==> db.movements[i].container < |db.containers|)
  }

  /** The status column is what the log says. */
  ghost predicate LogAgrees(db: Db) {
    && Chained(db.movements)
    && forall c :: 0 <= c < |db.containers| ==> db.containers[c].status == LogStatus(db.movements, c)
  }

  /** Every session but the last is closed. */
  ghost predicate DockInOrder(sessions: seq<Session>) {
    forall i :: 0 <= i < |sessions| - 1 ==> sessions[i].closedAt.Some?
  }

  /** What a movement's row must say about who or what caused it. */
  ghost predicate WellAttributed(m: Movement, sessions: nat) {
    && !m.to.Unrecognised?
    && match m.source
       case FromPortal =>
         m.portal.Some? && (m.session.Some? <==> m.to == Dispatched) && (m.session.Some? ==> m.session.value < sessions)
       case FromPerson(_, _) => m.portal.None? && m.session.None?
  }

  ghost predicate AllAttributed(db: Db) {
    forall i :: 0 <= i < |db.movements| ==> WellAttributed(db.movements[i], |db.sessions|)
  }

  /** What every event keeps, whatever stands on what. */
  ghost predicate Ledger(db: Db) {
    WellFormed(db) && LogAgrees(db) && DockInOrder(db.sessions) && AllAttributed(db)
  }

  ghost predicate StacksUp(db: Db) {
    IsForest(ParentsOf(db.containers))
  }

  ghost predicate Inv(db: Db) {
    Ledger(db) && StacksUp(db)
  }

  // ----- every event keeps it -----

  /** One container changes status and one matching movement is written. */
  lemma OneMoveAgrees(db: Db, r: Db, m: Movement)
    requires LogAgrees(db) && m.container < |db.containers| == |r.containers|
    requires m.from == db.containers[m.container].status && m.from != m.to
    requires r.movements == db.movements + [m]
    requires forall i :: 0 <= i < |db.containers| ==>
               r.containers[i].status == if i == m.container then m.to else db.containers[i].status
    ensures LogAgrees(r)
  {
    AppendChained(db.movements, m);
    forall c | 0 <= c < |r.containers|
      ensures r.containers[c].status == LogStatus(r.movements, c)
    {
      Appended(db.movements, m, c);
    }
  }

  lemma {:induction false} MoveRowsAgrees(db: Db, rows: seq<nat>, m: Move)
    requires LogAgrees(db) && RowsExist(db, rows)
    ensures LogAgrees(MoveRows(db, rows, m))
  {
    if rows != [] {
      var front, last := rows[..|rows| - 1], rows[|rows| - 1];
      assert last in rows && forall x :: x in front ==> x in rows;
      MoveRowsAgrees(db, front, m);
      var before := MoveRows(db, front, m);
      if before.containers[last].status != m.to {
        OneMoveAgrees(before, MoveRow(before, last, m), MovementOf(last, before.containers[last].status, m));
      }
    }
  }

  /** What a read asks for, once it is known to move something. */
  ghost function MoveAsked(db: Db, o: Observation): Move
    requires !TurnedAway(db, o) && !NothingToDo(db, o)
  {
    var c := db.containers[FindTid(db.containers, o.tid).value];
    var to := Decide(o.portal, o.direction, c.status, c.reusable).toStatus.value;
    Move(to, o.portal, if to == Dispatched then OpenSession(db.sessions) else None, o.lastRead)
  }

  lemma ReturnAgrees(db: Db, id: nat, m: Move)
    requires LogAgrees(db) && id < |db.containers| && db.containers[id].status != m.to
    ensures LogAgrees(ReturnEmpty(db, id, m))
  {
    OneMoveAgrees(db, ReturnEmpty(db, id, m), MovementOf(id, db.containers[id].status, m.(session := None)));
  }

  lemma AppliedAgrees(db: Db, o: Observation, rows: seq<nat>)
    requires LogAgrees(db) && RowsExist(db, rows)
    ensures LogAgrees(Applied(db, o, rows))
  {
    if !TurnedAway(db, o) && !NothingToDo(db, o) {
      var id := FindTid(db.containers, o.tid).value;
      var m := MoveAsked(db, o);
      var d := Decide(o.portal, o.direction, db.containers[id].status, db.containers[id].reusable);
      DecisionByOutcome(o.portal, o.direction, db.containers[id].status, db.containers[id].reusable);
      if d.detachChildren {
        ReturnAgrees(db, id, m);
      } else {
        MoveRowsAgrees(db, rows, m);
      }
    }
  }

  /** What handling an observation leaves alone about the containers. */
  ghost predicate SameContainers(db: Db, r: Db) {
    |r.containers| == |db.containers| &&
    forall i :: 0 <= i < |db.containers| ==>
      && r.containers[i].tid == db.containers[i].tid
      && r.containers[i].reusable == db.containers[i].reusable
      && (r.containers[i].parent == db.containers[i].parent || r.containers[i].parent.None?)
  }

  ghost predicate MovementsOfContainers(db: Db, r: Db) {
    && db.movements <= r.movements
    && forall i :: |db.movements| <= i < |r.movements| ==> r.movements[i].container < |db.containers|
  }

  lemma TreeMoveShape(db: Db, root: nat, rows: seq<nat>, m: Move)
    requires root < |db.containers| && Enumerates(ParentsOf(db.containers), root, rows) && RowsExist(db, rows)
    ensures SameContainers(db, MoveRows(db, rows, m)) && MovementsOfContainers(db, MoveRows(db, rows, m))
  {
    TreeMoveIsExact(db, root, rows, m);
  }

  /** Handling an observation takes some containers off their parents and puts none on any. */
  lemma AppliedShape(db: Db, o: Observation, rows: seq<nat>)
    requires RowsExist(db, rows) && RowsFor(db, o.tid, rows)
    ensures SameContainers(db, Applied(db, o, rows)) && MovementsOfContainers(db, Applied(db, o, rows))
  {
    hide MoveRows, Enumerates;
    if !TurnedAway(db, o) && !NothingToDo(db, o) {
      var id := FindTid(db.containers, o.tid).value;
      var d := Decide(o.portal, o.direction, db.containers[id].status, db.containers[id].reusable);
      DecisionByOutcome(o.portal, o.direction, db.containers[id].status, db.containers[id].reusable);
      if !d.detachChildren {
        TreeMoveShape(db, id, rows, MoveAsked(db, o));
      }
    }
  }

  lemma MovementsAreKnown(db: Db, o: Observation, rows: seq<nat>)
    requires RowsExist(db, rows) && RowsFor(db, o.tid, rows)
    ensures var r := Applied(db, o, rows);
            forall i :: |db.movements| <= i < |r.movements| ==> !r.movements[i].to.Unrecognised?
  {
    if !TurnedAway(db, o) && !NothingToDo(db, o) {
      var id := FindTid(db.containers, o.tid).value;
      DecisionByOutcome(o.portal, o.direction, db.containers[id].status, db.containers[id].reusable);
      TreeMoveIsExact(db, id, rows, MoveAsked(db, o));
    }
  }

  lemma HandleKeeps(db: Db, obs: nat, rows: seq<nat>)
    requires Ledger(db) && Enabled(db, Handle(obs, rows))
    ensures Ledger(Handled(db, obs, rows))
  {
    var o := db.observations[obs];
    var r := Applied(db, o, rows);
    AppliedShape(db, o, rows);
    AppliedKeeps(db, o, rows);
    MovementsAreAttributed(db, o, rows);
    MovementsAreKnown(db, o, rows);
    AppliedAgrees(db, o, rows);
    forall i | 0 <= i < |r.movements|
      ensures r.movements[i].container < |r.containers| && WellAttributed(r.movements[i], |r.sessions|)
    {
      if i < |db.movements| {
        assert r.movements[i] == db.movements[i];
      }
    }
    var h := Handled(db, obs, rows);
    assert h == r.(observations := h.observations);
  }

  lemma RegisterKeeps(db: Db, e: Event)
    requires Ledger(db) && e.Register?
    ensures Ledger(Step(db, e))
  {
    if Step(db, e) != db {
      UnmentionedIsRegistered(db.movements, |db.containers|);
    }
  }

  lemma CorrectKeeps(db: Db, e: Event)
    requires Ledger(db) && e.Correct?
    ensures Ledger(Step(db, e))
  {
    var r := Step(db, e);
    if Corrected(db, e.tid, e.to, e.reason, e.operator, e.now).Done? {
      OneMoveAgrees(db, r, r.movements[|db.movements|]);
    }
  }

  lemma DockKeeps(db: Db, e: Event)
    requires Ledger(db) && (e.DockOpened? || e.DockClosed?) && Enabled(db, e)
    ensures Ledger(Step(db, e))
  {
    var r := Step(db, e);
    assert |r.sessions| >= |db.sessions|;
    assert r == db.(sessions := r.sessions);
    assert DockInOrder(r.sessions);
  }

  /** Whatever is asked of the API, and whatever stands on what. */
  lemma {:induction false} StepKeepsLedger(db: Db, e: Event)
    requires Ledger(db) && Enabled(db, e)
    ensures Ledger(Step(db, e))
  {
    match e
    case Observed(_) =>
    case Handle(obs, rows) => HandleKeeps(db, obs, rows);
    case Register(_, _, _, _) => RegisterKeeps(db, e);
    case Attach(_, _) =>
    case Correct(_, _, _, _, _) => CorrectKeeps(db, e);
    case DockOpened(_, _) => DockKeeps(db, e);
    case DockClosed(_, _) => DockKeeps(db, e);
    case RolledBack =>
  }

  lemma AttachStacksUpIff(db: Db, e: Event)
    requires StacksUp(db) && e.Attach?
    ensures StacksUp(Step(db, e)) <==> Guarded(db, e)
  {
    if AttachChildren(db, e.tid, e.childTids).Done? {
      var parent, kids := FindTid(db.containers, e.tid).value, Kids(db.containers, e.childTids);
      AttachKeepsForestIff(ParentsOf(db.containers), parent, kids);
      assert ParentsOf(Step(db, e).containers) == Attached(ParentsOf(db.containers), parent, kids);
    }
  }

  lemma RegisterStacksUp(db: Db, e: Event)
    requires StacksUp(db) && e.Register?
    ensures StacksUp(Step(db, e))
  {
    var r := Step(db, e);
    if r != db {
      var parent := r.containers[|db.containers|].parent;
      AppendKeepsForest(ParentsOf(db.containers), parent);
      assert ParentsOf(r.containers) == ParentsOf(db.containers) + [parent];
    }
  }

  /** An event keeps the parent relation a forest if and only if it is guarded. */
  lemma {:induction false} StepStacksUpIff(db: Db, e: Event)
    requires StacksUp(db) && Enabled(db, e)
    ensures StacksUp(Step(db, e)) <==> Guarded(db, e)
  {
    match e
    case Handle(obs, rows) =>
      var o := db.observations[obs];
      AppliedShape(db, o, rows);
      AppliedKeeps(db, o, rows);
      DetachKeepsForest(ParentsOf(db.containers), ParentsOf(Applied(db, o, rows).containers));
      assert ParentsOf(Step(db, e).containers) == ParentsOf(Applied(db, o, rows).containers);
    case Register(_, _, _, _) => RegisterStacksUp(db, e);
    case Attach(_, _) => AttachStacksUpIff(db, e);
    case _ => assert ParentsOf(Step(db, e).containers) == ParentsOf(db.containers);
  }

  lemma StepKeeps(db: Db, e: Event)
    requires Inv(db) && Enabled(db, e) && Guarded(db, e)
    ensures Inv(Step(db, e))
  {
    StepKeepsLedger(db, e);
    StepStacksUpIff(db, e);
  }

  lemma {:induction false} RunKeeps(db: Db, events: seq<Event>)
    requires Ledger(db) && EnabledRun(db, events)
    ensures Ledger(Run(db, events))
    ensures StacksUp(db) && GuardedRun(db, events) ==> StacksUp(Run(db, events))
    decreases |events|
  {
    if events != [] {
      StepKeepsLedger(db, events[0]);
      if StacksUp(db) && GuardedRun(db, events) {
        StepStacksUpIff(db, events[0]);
      }
      RunKeeps(Step(db, events[0]), events[1..]);
    }
  }

  lemma NoMovementsAgree(db: Db)
    requires db.containers == [] && db.movements == []
    ensures LogAgrees(db) && AllAttributed(db)
  {
  }

  lemma EmptyStacksUp(db: Db)
    requires db.containers == []
    ensures StacksUp(db)
  {
    NothingIsAForest();
    assert ParentsOf(db.containers) == [];
  }

  lemma EmptyInv(db: Db)
    requires IsEmpty(db)
    ensures Inv(db)
  {
    EmptyStacksUp(db);
    NoMovementsAgree(db);
    hide IsForest, Chained, LogStatus;
  }

  /** A state some run of committed transactions leads to from an empty warehouse. */
  ghost predicate Reachable(db: Db) {
    exists start, events :: IsEmpty(start) && EnabledRun(start, events) && Run(start, events) == db
  }

  lemma EmptyIsReachable(db: Db)
    requires IsEmpty(db)
    ensures Reachable(db)
  {
    assert EnabledRun(db, []) && Run(db, []) == db;
  }

  lemma ReachableNext(db: Db, e: Event)
    requires Reachable(db) && Enabled(db, e)
    ensures Reachable(Step(db, e))
  {
    var start, events :| IsEmpty(start) && EnabledRun(start, events) && Run(start, events) == db;
    RunLonger(start, events, e);
    assert Run(start, events + [e]) == Step(db, e);
  }

  /** A state such a run leads to in which no parent was put on what stands on it. */
  ghost predicate ReachableGuarded(db: Db) {
    exists start, events ::
      IsEmpty(start) && EnabledRun(start, events) && GuardedRun(start, events) && Run(start, events) == db
  }

  lemma ReachableLedger(db: Db)
    requires Reachable(db)
    ensures Ledger(db)
  {
    var start, events :| IsEmpty(start) && EnabledRun(start, events) && Run(start, events) == db;
    EmptyInv(start);
    RunKeeps(start, events);
  }

  lemma ReachableInv(db: Db)
    requires ReachableGuarded(db)
    ensures Inv(db)
  {
    var start, events :|
      IsEmpty(start) && EnabledRun(start, events) && GuardedRun(start, events) && Run(start, events) == db;
    EmptyInv(start);
    RunKeeps(start, events);
  }

  // ----- what follows, for every run -----

  /**
   In every reachable state each container's movements form a chain from
   REGISTERED, and its status is where the chain ends.
  */
  lemma LogAndStatusAgree(db: Db, c: nat)
    requires Reachable(db) && c < |db.containers|
    ensures IsChain(History(db.movements, c)) && db.containers[c].status == EndOf(History(db.movements, c))
  {
    ReachableLedger(db);
    HistoryIsChain(db.movements, c);
  }

  /** In every reachable state stock on hand is what came into stock less what left it. */
  lemma StockIsConserved(db: Db, sku: string)
    requires Reachable(db)
    ensures OnHand(db.containers, db.contents, sku) ==
            FlowIn(db.movements, db.contents, sku) - FlowOut(db.movements, db.contents, sku)
  {
    ReachableLedger(db);
    OnHandIsLogged(db.containers, db.movements, db.contents, sku);
    LoggedStockIsFlow(db.movements, db.contents, sku);
  }

  /** In every reachable state at most one session is open. */
  lemma OneDockAtATime(db: Db, i: nat, j: nat)
    requires Reachable(db) && i < |db.sessions| && j < |db.sessions|
    requires db.sessions[i].closedAt.None? && db.sessions[j].closedAt.None?
    ensures i == j
  {
    ReachableLedger(db);
  }

  /**
   In every reachable state a portal movement carries a session exactly when it
   left the building, and a correction never does.
  */
  lemma DispatchesAreAttributed(db: Db, i: nat)
    requires Reachable(db) && i < |db.movements|
    ensures db.movements[i].source == FromPortal ==>
              (db.movements[i].session.Some? <==> db.movements[i].to == Dispatched)
    ensures db.movements[i].source.FromPerson? ==> db.movements[i].session.None?
    ensures db.movements[i].session.Some? ==> db.movements[i].session.value < |db.sessions|
  {
    ReachableLedger(db);
    assert WellAttributed(db.movements[i], |db.sessions|);
  }
}
