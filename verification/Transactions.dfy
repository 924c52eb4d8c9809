/**
 What one committed transaction of the state engine does, stated without
 reference to how it does it.
*/
module Transactions {
  import opened Basics
  import opened Transitions
  import opened Forest
  import opened Warehouse
  import opened MovementLog

  // ----- moving a tree -----

  function MovedTo(c: Container, m: Move): Container {
    c.(status := m.to, lastSeen := Some(m.at), lastPortal := Some(m.portal))
  }

  /** The movements appended for a list of rows: one for each that is not already there. */
  function MovesOf(cs: seq<Container>, rows: seq<nat>, m: Move): seq<Movement>
    requires forall x :: x in rows ==> x < |cs|
  {
    if rows == [] then []
    else
      var front, x := rows[..|rows| - 1], rows[|rows| - 1];
      assert x in rows && forall y :: y in front ==> y in rows;
      MovesOf(cs, front, m) + if cs[x].status == m.to then [] else [MovementOf(x, cs[x].status, m)]
  }

  lemma {:induction false} MoveRowsEffect(db: Db, rows: seq<nat>, m: Move)
    requires NoDuplicates(rows) && RowsExist(db, rows)
    ensures var r := MoveRows(db, rows, m);
            && r.movements == db.movements + MovesOf(db.containers, rows, m)
            && forall x :: 0 <= x < |db.containers| ==>
                 r.containers[x] == if x in rows then MovedTo(db.containers[x], m) else db.containers[x]
  {
    if rows != [] {
      var front, last := rows[..|rows| - 1], rows[|rows| - 1];
      assert last in rows && forall y :: y in front ==> y in rows;
      MoveRowsEffect(db, front, m);
      assert last !in front;
      assert forall y :: y in rows <==> y in front || y == last;
    }
  }

  function CountOf(ms: seq<Movement>, x: nat): nat {
    if ms == [] then 0 else CountOf(ms[..|ms| - 1], x) + if ms[|ms| - 1].container == x then 1 else 0
  }

  lemma MovesLonger(cs: seq<Container>, front: seq<nat>, last: nat, m: Move)
    requires last < |cs| && forall y :: y in front ==> y < |cs|
    ensures MovesOf(cs, front + [last], m) ==
            MovesOf(cs, front, m) + if cs[last].status == m.to then [] else [MovementOf(last, cs[last].status, m)]
  {
    assert (front + [last])[..|front|] == front;
  }

  lemma CountLonger(ms: seq<Movement>, more: Movement, x: nat)
    ensures CountOf(ms + [more], x) == CountOf(ms, x) + if more.container == x then 1 else 0
  {
    assert (ms + [more])[..|ms|] == ms;
  }

  lemma {:induction false} MovesOfEach(cs: seq<Container>, rows: seq<nat>, m: Move, x: nat)
    requires NoDuplicates(rows) && forall y :: y in rows ==> y < |cs|
    ensures CountOf(MovesOf(cs, rows, m), x) ==
            if x in rows && cs[x].status != m.to then 1 else 0
  {
    if rows != [] {
      var front, last := rows[..|rows| - 1], rows[|rows| - 1];
      assert last in rows && forall y :: y in front ==> y in rows;
      MovesOfEach(cs, front, m, x);
      assert last !in front;
      assert rows == front + [last];
      MovesLonger(cs, front, last, m);
      var earlier := MovesOf(cs, front, m);
      assert earlier + [] == earlier;
      CountLonger(earlier, MovementOf(last, cs[last].status, m), x);
    }
  }

  lemma {:induction false} MovesAreOfRows(cs: seq<Container>, rows: seq<nat>, m: Move)
    requires forall y :: y in rows ==> y < |cs|
    ensures forall i :: 0 <= i < |MovesOf(cs, rows, m)| ==>
              var mv := MovesOf(cs, rows, m)[i];
              mv.container in rows && mv == MovementOf(mv.container, cs[mv.container].status, m)
  {
    if rows != [] {
      var front, last := rows[..|rows| - 1], rows[|rows| - 1];
      assert last in rows && forall y :: y in front ==> y in rows;
      MovesAreOfRows(cs, front, m);
      assert rows == front + [last];
      MovesLonger(cs, front, last, m);
    }
  }

  /**
   Moving a tree, however deep: the root and everything on it end at the target
   status; each member that was elsewhere gets exactly one movement and each
   that was there already gets none; nothing outside the tree changes. The
   order in which the query listed the tree does not matter.
  */
  lemma TreeMoveIsExact(db: Db, root: nat, rows: seq<nat>, m: Move)
    requires root < |db.containers| && Enumerates(ParentsOf(db.containers), root, rows)
    ensures RowsExist(db, rows)
    ensures var r := MoveRows(db, rows, m);
            && r.(containers := db.containers, movements := db.movements) == db
            && (forall x :: 0 <= x < |db.containers| ==>
                  r.containers[x] == if Below(ParentsOf(db.containers), x, root)
                                     then MovedTo(db.containers[x], m) else db.containers[x])
            && db.movements <= r.movements
            && (forall x :: 0 <= x < |db.containers| ==>
                  CountOf(r.movements[|db.movements|..], x) ==
                  if Below(ParentsOf(db.containers), x, root) && db.containers[x].status != m.to then 1 else 0)
            && (forall i :: |db.movements| <= i < |r.movements| ==>
                  && r.movements[i].container < |db.containers|
                  && r.movements[i] == MovementOf(r.movements[i].container,
                                                  db.containers[r.movements[i].container].status, m))
  {
    MoveRowsEffect(db, rows, m);
    MoveRowsKeeps(db, rows, m);
    var added := MovesOf(db.containers, rows, m);
    assert MoveRows(db, rows, m).movements[|db.movements|..] == added;
    forall x | 0 <= x < |db.containers|
      ensures CountOf(added, x) ==
              if Below(ParentsOf(db.containers), x, root) && db.containers[x].status != m.to then 1 else 0
    {
      MovesOfEach(db.containers, rows, m, x);
    }
    MovesAreOfRows(db.containers, rows, m);
  }

  // ----- the short pallet -----

  ghost predicate UniqueTids(cs: seq<Container>) {
    forall i, j :: 0 <= i < j < |cs| ==> cs[i].tid != cs[j].tid
  }

  lemma {:induction false} TidsOfKids(cs: seq<Container>, kids: set<nat>)
    requires UniqueTids(cs) && forall i :: i in kids ==> i < |cs|
    ensures |set i | i in kids :: cs[i].tid| == |kids|
    decreases |kids|
  {
    if kids != {} {
      var k :| k in kids;
      var rest := kids - {k};
      TidsOfKids(cs, rest);
      assert (set i | i in kids :: cs[i].tid) == (set i | i in rest :: cs[i].tid) + {cs[k].tid};
      assert cs[k].tid !in (set i | i in rest :: cs[i].tid);
    }
  }

  /** No read of this container at the portal within fifteen seconds of the pallet's own reads. */
  ghost predicate Missed(db: Db, child: nat, o: Observation)
    requires child < |db.containers|
  {
    forall i :: 0 <= i < |db.observations| &&
                db.observations[i].portal == o.portal && db.observations[i].tid == db.containers[child].tid ==>
      !(o.firstRead - 15.0 <= db.observations[i].lastRead <= o.lastRead + 15.0)
  }

  /** Counting tags finds a shortfall exactly when some particular child was missed. */
  lemma ShortPalletIffChildMissed(db: Db, id: nat, o: Observation)
    requires UniqueTids(db.containers)
    ensures ComesUpShort(db, id, o) <==> exists c :: c in Children(db.containers, id) && Missed(db, c, o)
  {
    hide UniqueTids;
    var kids := Children(db.containers, id);
    var tids := set i | i in kids :: db.containers[i].tid;
    var lo, hi := o.firstRead - SHORT_PALLET_WINDOW_S, o.lastRead + SHORT_PALLET_WINDOW_S;
    var seen := SeenTids(db.observations, o.portal, tids, lo, hi);
    TidsOfKids(db.containers, kids);
    SubsetSize(seen, tids);
    if c :| c in kids && Missed(db, c, o) {
      assert db.containers[c].tid in tids && db.containers[c].tid !in seen;
    } else if kids != {} {
      forall t | t in tids
        ensures t in seen
      {
        var c :| c in kids && db.containers[c].tid == t;
        assert !Missed(db, c, o);
      }
      assert seen == tids;
    }
  }

  // ----- the outcome of an observation -----

  /** The rows the tree query returns for the container this tag belongs to. */
  ghost predicate RowsFor(db: Db, tid: string, rows: seq<nat>) {
    match FindTid(db.containers, tid)
    case None => rows == []
    case Some(id) => Enumerates(ParentsOf(db.containers), id, rows)
  }

  ghost predicate StatusesKept(db: Db, r: Db) {
    |r.containers| == |db.containers| &&
    forall i :: 0 <= i < |db.containers| ==>
      r.containers[i] ==
      db.containers[i].(lastSeen := r.containers[i].lastSeen, lastPortal := r.containers[i].lastPortal)
  }

  ghost predicate Quiet(db: Db, r: Db) {
    StatusesKept(db, r) && r.movements == db.movements && r.anomalies == db.anomalies
  }

  /** One anomaly for a person to look at; nothing moved. */
  ghost predicate Blocked(db: Db, r: Db) {
    && StatusesKept(db, r) && r.movements == db.movements
    && |r.anomalies| == |db.anomalies| + 1 && db.anomalies <= r.anomalies
    && r.anomalies[|db.anomalies|].kind != ShortPallet
  }

  /** At least one movement, and at most one anomaly, a short pallet. */
  ghost predicate Moved(db: Db, r: Db) {
    && |r.movements| > |db.movements| && db.movements <= r.movements
    && db.anomalies <= r.anomalies && |r.anomalies| <= |db.anomalies| + 1
    && (|r.anomalies| > |db.anomalies| ==> r.anomalies[|db.anomalies|].kind == ShortPallet)
  }

  /** Why an observation is turned away: unknown, judged an anomaly, or leaving with nobody's order open. */
  predicate TurnedAway(db: Db, o: Observation) {
    match FindTid(db.containers, o.tid)
    case None => true
    case Some(id) =>
      var d := Decide(o.portal, o.direction, db.containers[id].status, db.containers[id].reusable);
      || d.anomaly.Some?
      || (d.toStatus == Some(Dispatched) && forall i :: 0 <= i < |db.sessions| ==> db.sessions[i].closedAt.Some?)
  }

  predicate NothingToDo(db: Db, o: Observation) {
    match FindTid(db.containers, o.tid)
    case None => false
    case Some(id) => Decide(o.portal, o.direction, db.containers[id].status, db.containers[id].reusable).IsNoOp()
  }

  lemma MoveIsMoved(db: Db, o: Observation, rows: seq<nat>)
    requires RowsExist(db, rows) && RowsFor(db, o.tid, rows) && !TurnedAway(db, o) && !NothingToDo(db, o)
    ensures Moved(db, Applied(db, o, rows))
  {
    hide MoveRows, Enumerates, Below;
    var id := FindTid(db.containers, o.tid).value;
    var d := Decide(o.portal, o.direction, db.containers[id].status, db.containers[id].reusable);
    DecisionByOutcome(o.portal, o.direction, db.containers[id].status, db.containers[id].reusable);
    if !d.detachChildren {
      var session := if d.toStatus.value == Dispatched then OpenSession(db.sessions) else None;
      var m := Move(d.toStatus.value, o.portal, session, o.lastRead);
      TreeMoveIsExact(db, id, rows, m);
      BelowByParent(ParentsOf(db.containers), id, id);
      assert CountOf(MoveRows(db, rows, m).movements[|db.movements|..], id) == 1;
    }
  }

  /** Every handled observation does exactly one of three things; the input says which. */
  lemma EveryObservationHasOneOutcome(db: Db, o: Observation, rows: seq<nat>)
    requires RowsExist(db, rows) && RowsFor(db, o.tid, rows)
    ensures var r := Applied(db, o, rows);
            && (TurnedAway(db, o) <==> Blocked(db, r))
            && (NothingToDo(db, o) <==> Quiet(db, r))
            && (!TurnedAway(db, o) && !NothingToDo(db, o) <==> Moved(db, r))
  {
    hide MoveRows, Enumerates, CheckShortPallet, ReturnEmpty;
    if !TurnedAway(db, o) && !NothingToDo(db, o) {
      MoveIsMoved(db, o, rows);
    }
  }

  /** Why a read is turned away. */
  function Complaint(db: Db, o: Observation): AnomalyKind {
    if FindTid(db.containers, o.tid).None? then UnknownTid
    else if !Arriving(o.portal, o.direction) && !Leaving(o.portal, o.direction) then NoDirection
    else if Leaving(o.portal, o.direction) && db.containers[FindTid(db.containers, o.tid).value].status == InStock
    then NoSession
    else IllegalTransition
  }

  /** The one anomaly of a read that was turned away names the tag, its container and the reason. */
  lemma AnomalyNamesTheReason(db: Db, o: Observation, rows: seq<nat>)
    requires RowsExist(db, rows) && TurnedAway(db, o)
    ensures Applied(db, o, rows).anomalies ==
            db.anomalies + [Anomaly(o.tid, FindTid(db.containers, o.tid), Complaint(db, o), o.lastRead)]
  {
    match FindTid(db.containers, o.tid)
    case None =>
    case Some(id) => DecisionByOutcome(o.portal, o.direction, db.containers[id].status, db.containers[id].reusable);
  }

  lemma ShortSameChildren(db: Db, r: Db, id: nat, o: Observation)
    requires r.observations == db.observations && |r.containers| == |db.containers|
    requires forall i :: 0 <= i < |db.containers| ==>
               r.containers[i].parent == db.containers[i].parent && r.containers[i].tid == db.containers[i].tid
    ensures ComesUpShort(r, id, o) <==> ComesUpShort(db, id, o)
  {
    var kids := Children(db.containers, id);
    assert Children(r.containers, id) == kids;
    assert (set i | i in kids :: r.containers[i].tid) == (set i | i in kids :: db.containers[i].tid);
  }

  /** The check after a tree has been moved, against what stood on the root before. */
  lemma ShortfallOfMove(db: Db, o: Observation, id: nat, rows: seq<nat>, m: Move)
    requires id < |db.containers| && RowsExist(db, rows) && Enumerates(ParentsOf(db.containers), id, rows)
    requires UniqueTids(db.containers)
    ensures CheckShortPallet(MoveRows(db, rows, m), id, o).anomalies ==
            db.anomalies +
            if exists c :: c in Children(db.containers, id) && Missed(db, c, o)
            then [Anomaly(o.tid, Some(id), ShortPallet, o.lastRead)] else []
  {
    hide MoveRows, Enumerates, ComesUpShort, Missed;
    var moved := MoveRows(db, rows, m);
    TreeMoveIsExact(db, id, rows, m);
    ShortPalletIffChildMissed(db, id, o);
    ShortSameChildren(db, moved, id, o);
  }

  /** A load that moves is reported short exactly when something on it was missed; one that comes back never is. */
  lemma ShortfallIsRecordedIff(db: Db, o: Observation, id: nat, rows: seq<nat>)
    requires RowsExist(db, rows) && RowsFor(db, o.tid, rows) && FindTid(db.containers, o.tid) == Some(id)
    requires UniqueTids(db.containers) && !TurnedAway(db, o) && !NothingToDo(db, o)
    ensures Applied(db, o, rows).anomalies ==
            db.anomalies +
            if db.containers[id].status != Dispatched
               && (exists c :: c in Children(db.containers, id) && Missed(db, c, o))
            then [Anomaly(o.tid, Some(id), ShortPallet, o.lastRead)] else []
  {
    hide MoveRows, Enumerates, CheckShortPallet, Missed, UniqueTids;
    var d := Decide(o.portal, o.direction, db.containers[id].status, db.containers[id].reusable);
    DecisionByOutcome(o.portal, o.direction, db.containers[id].status, db.containers[id].reusable);
    if !d.detachChildren {
      var session := if d.toStatus.value == Dispatched then OpenSession(db.sessions) else None;
      ShortfallOfMove(db, o, id, rows, Move(d.toStatus.value, o.portal, session, o.lastRead));
    }
  }

  /**
   Every movement a portal read writes says so: the portal and the time of the
   read, and a session exactly when it leaves the building, namely the one open
   in that transaction. The same for the container read and for all that moved with it.
  */
  lemma MovementsAreAttributed(db: Db, o: Observation, rows: seq<nat>)
    requires RowsExist(db, rows) && RowsFor(db, o.tid, rows)
    ensures var r := Applied(db, o, rows);
            && db.movements <= r.movements
            && forall i :: |db.movements| <= i < |r.movements| ==>
                 var mv := r.movements[i];
                 && mv.source == FromPortal && mv.portal == Some(o.portal) && mv.at == o.lastRead
                 && (mv.to == Dispatched ==> mv.session.Some? && mv.session == OpenSession(db.sessions))
                 && (mv.to != Dispatched ==> mv.session.None?)
  {
    hide MoveRows, Enumerates, ComesUpShort, Below;
    if !TurnedAway(db, o) && !NothingToDo(db, o) {
      var id := FindTid(db.containers, o.tid).value;
      var d := Decide(o.portal, o.direction, db.containers[id].status, db.containers[id].reusable);
      DecisionByOutcome(o.portal, o.direction, db.containers[id].status, db.containers[id].reusable);
      if !d.detachChildren {
        var session := if d.toStatus.value == Dispatched then OpenSession(db.sessions) else None;
        TreeMoveIsExact(db, id, rows, Move(d.toStatus.value, o.portal, session, o.lastRead));
      }
    }
  }

  /**
   A reusable container that was dispatched comes back in: it loses exactly the
   containers standing directly on it, only its own status changes, one
   movement is written, and no SKU's stock figure moves, whatever stands on what.
  */
  lemma ReturnsEmpty(db: Db, o: Observation, id: nat, rows: seq<nat>, sku: string)
    requires RowsExist(db, rows)
    requires FindTid(db.containers, o.tid) == Some(id)
    requires Arriving(o.portal, o.direction)
    requires db.containers[id].status == Dispatched && db.containers[id].reusable
    ensures var r := Applied(db, o, rows);
            && |r.containers| == |db.containers|
            && (forall i :: 0 <= i < |db.containers| ==>
                  && r.containers[i].parent ==
                     (if i in Children(db.containers, id) then None else db.containers[i].parent)
                  && r.containers[i].status == (if i == id then Registered else db.containers[i].status))
            && Children(r.containers, id) == {}
            && r.movements == db.movements +
                 [Movement(id, Dispatched, Registered, Some(o.portal), None, o.lastRead, FromPortal)]
            && r.anomalies == db.anomalies
            && OnHand(r.containers, r.contents, sku) == OnHand(db.containers, db.contents, sku)
  {
    var r := Applied(db, o, rows);
    assert forall i :: 0 <= i < |db.containers| ==>
      r.containers[i].status == (if i == id then Registered else db.containers[i].status);
    OnHandBySelection(r.containers, db.containers, db.contents, sku);
  }

  /** The read is on the container, and whatever does not stand on it is as it was. */
  ghost predicate Recorded(db: Db, r: Db, o: Observation, id: nat)
    requires id < |db.containers|
  {
    && |r.containers| == |db.containers|
    && r.containers[id].lastSeen == Some(o.lastRead) && r.containers[id].lastPortal == Some(o.portal)
    && forall x :: 0 <= x < |db.containers| && !Below(ParentsOf(db.containers), x, id) ==>
         r.containers[x] == db.containers[x]
  }

  lemma TreeMoveIsRecorded(db: Db, o: Observation, id: nat, rows: seq<nat>, m: Move)
    requires id < |db.containers| && RowsExist(db, rows) && Enumerates(ParentsOf(db.containers), id, rows)
    requires m.at == o.lastRead && m.portal == o.portal
    ensures Recorded(db, MoveRows(db, rows, m), o, id)
  {
    hide MoveRows, Enumerates, Below;
    BelowByParent(ParentsOf(db.containers), id, id);
    TreeMoveIsExact(db, id, rows, m);
  }

  lemma ReturnIsRecorded(db: Db, o: Observation, id: nat, m: Move)
    requires id < |db.containers| && m.at == o.lastRead && m.portal == o.portal
    ensures Recorded(db, ReturnEmpty(db, id, m), o, id)
  {
    hide Below;
    var p := ParentsOf(db.containers);
    BelowByParent(p, id, id);
    forall x: nat | x < |p| && p[x] == Some(id)
      ensures Below(p, x, id)
    {
      BelowByParent(p, x, id);
    }
  }

  /**
   Whatever comes of it, a read leaves its time and portal on the container that
   was read, and every container not standing on that one keeps everything but
   perhaps its parent.
  */
  lemma ReadIsRecorded(db: Db, o: Observation, id: nat, rows: seq<nat>)
    requires RowsExist(db, rows) && RowsFor(db, o.tid, rows) && FindTid(db.containers, o.tid) == Some(id)
    ensures var r := Applied(db, o, rows);
            && |r.containers| == |db.containers|
            && r.containers[id].lastSeen == Some(o.lastRead) && r.containers[id].lastPortal == Some(o.portal)
            && forall x :: 0 <= x < |db.containers| && !Below(ParentsOf(db.containers), x, id) ==>
                 r.containers[x] == db.containers[x]
  {
    hide MoveRows, Enumerates, Below, ReturnEmpty, CheckShortPallet;
    BelowByParent(ParentsOf(db.containers), id, id);
    if !TurnedAway(db, o) && !NothingToDo(db, o) {
      var d := Decide(o.portal, o.direction, db.containers[id].status, db.containers[id].reusable);
      var session := if d.toStatus.value == Dispatched then OpenSession(db.sessions) else None;
      var m := Move(d.toStatus.value, o.portal, session, o.lastRead);
      if d.detachChildren {
        ReturnIsRecorded(db, o, id, m);
      } else {
        TreeMoveIsRecorded(db, o, id, rows, m);
        ShortCheckKeepsContainers(MoveRows(db, rows, m), id, o);
      }
    }
  }

  lemma ShortCheckKeepsContainers(db: Db, id: nat, o: Observation)
    ensures CheckShortPallet(db, id, o).containers == db.containers
  {
  }
}
