/**
 The warehouse database and what each operation does to it.

 Every table is a sequence and a row's id is its index: ids are handed out in
 order and nothing is ever deleted. The functions here say what one committed
 transaction leaves behind; the class StateEngine runs the same operations
 statement by statement.
*/
module Warehouse {
  import opened Basics
  import opened Transitions
  import opened Forest

  datatype Container = Container(
    tid: string, status: Status, reusable: bool, parent: Option<nat>,
    lastSeen: Option<Time>, lastPortal: Option<Portal>)

  datatype ContentLine = ContentLine(container: nat, sku: string, quantity: int)

  datatype Source = FromPortal | FromPerson(reason: string, operator: string)

  datatype Movement = Movement(
    container: nat, from: Status, to: Status, portal: Option<Portal>,
    session: Option<nat>, at: Time, source: Source)

  datatype Anomaly = Anomaly(tid: string, container: Option<nat>, kind: AnomalyKind, at: Time)

  datatype Session = Session(customer: string, openedAt: Time, closedAt: Option<Time>)

  datatype Observation = Observation(
    tid: string, portal: Portal, direction: Option<Direction>,
    firstRead: Time, lastRead: Time, processed: bool)

  datatype Db = Db(
    containers: seq<Container>, contents: seq<ContentLine>, movements: seq<Movement>,
    anomalies: seq<Anomaly>, sessions: seq<Session>, observations: seq<Observation>,
    skus: set<string>, customers: set<string>)

  const SHORT_PALLET_WINDOW_S: Time := 15.0

  function ParentsOf(cs: seq<Container>): (p: Parents)
    ensures |p| == |cs| && forall i :: 0 <= i < |cs| ==> p[i] == cs[i].parent
  {
    seq(|cs|, (i: nat) requires i < |cs| => cs[i].parent)
  }

  // ----- queries -----

  /** The container registered against a tag; the tid column is unique. */
  function FindTid(cs: seq<Container>, tid: string): (r: Option<nat>)
    ensures r.Some? ==> r.value < |cs| && cs[r.value].tid == tid
    ensures r.None? ==> forall i :: 0 <= i < |cs| ==> cs[i].tid != tid
  {
    if cs == [] then None
    else if cs[|cs| - 1].tid == tid then Some(|cs| - 1)
    else FindTid(cs[..|cs| - 1], tid)
  }

  /** The open session opened last, if any is open. */
  function OpenSession(sessions: seq<Session>): (r: Option<nat>)
    ensures r.Some? ==> r.value < |sessions| && sessions[r.value].closedAt.None?
    ensures r.Some? ==> forall i :: 0 <= i < |sessions| && sessions[i].closedAt.None?
                          ==> sessions[i].openedAt <= sessions[r.value].openedAt
    ensures r.None? ==> forall i :: 0 <= i < |sessions| ==> sessions[i].closedAt.Some?
  {
    if sessions == [] then None
    else
      var n := |sessions| - 1;
      var earlier := OpenSession(sessions[..n]);
      if sessions[n].closedAt.Some? then earlier
      else if earlier.Some? && sessions[earlier.value].openedAt > sessions[n].openedAt then earlier
      else Some(n)
  }

  function Children(cs: seq<Container>, id: nat): (r: set<nat>)
  {
    set i | 0 <= i < |cs| && cs[i].parent == Some(id)
  }

  /** The tags among `tids` observed at this portal between lo and hi, processed or not. */
  function SeenTids(os: seq<Observation>, portal: Portal, tids: set<string>, lo: Time, hi: Time): set<string>
  {
    set i | 0 <= i < |os| && os[i].portal == portal && os[i].tid in tids && lo <= os[i].lastRead <= hi
      :: os[i].tid
  }

  // ----- single statements -----

  function SetStatus(db: Db, id: nat, to: Status, at: Time, portal: Portal): Db
    requires id < |db.containers|
  {
    db.(containers := db.containers[id :=
      db.containers[id].(status := to, lastSeen := Some(at), lastPortal := Some(portal))])
  }

  function Touch(db: Db, id: nat, at: Time, portal: Portal): Db
    requires id < |db.containers|
  {
    db.(containers := db.containers[id :=
      db.containers[id].(lastSeen := Some(at), lastPortal := Some(portal))])
  }

  function AddMovement(db: Db, m: Movement): Db {
    db.(movements := db.movements + [m])
  }

  function AddAnomaly(db: Db, a: Anomaly): Db {
    db.(anomalies := db.anomalies + [a])
  }

  function DetachChildren(db: Db, id: nat): (r: Db)
    ensures |r.containers| == |db.containers|
  {
    db.(containers := seq(|db.containers|, (i: nat) requires i < |db.containers| =>
      if db.containers[i].parent == Some(id) then db.containers[i].(parent := None) else db.containers[i]))
  }

  function MarkProcessed(db: Db, obs: nat): Db
    requires obs < |db.observations|
  {
    db.(observations := db.observations[obs := db.observations[obs].(processed := true)])
  }

  // ----- moving containers -----

  /** What one portal read asks of every container it moves. */
  datatype Move = Move(to: Status, portal: Portal, session: Option<nat>, at: Time)

  function MovementOf(id: nat, from: Status, m: Move): Movement {
    Movement(id, from, m.to, Some(m.portal), m.session, m.at, FromPortal)
  }

  function MoveRow(db: Db, id: nat, m: Move): Db
    requires id < |db.containers|
  {
    if db.containers[id].status == m.to then Touch(db, id, m.at, m.portal)
    else AddMovement(SetStatus(db, id, m.to, m.at, m.portal), MovementOf(id, db.containers[id].status, m))
  }

  ghost predicate RowsExist(db: Db, rows: seq<nat>) {
    forall x :: x in rows ==> x < |db.containers|
  }

  /** The rows of a tree, moved one by one in the order the query returned them. */
  function MoveRows(db: Db, rows: seq<nat>, m: Move): (r: Db)
    requires RowsExist(db, rows)
    ensures |r.containers| == |db.containers|
  {
    if rows == [] then db
    else
      var front := rows[..|rows| - 1];
      assert forall x :: x in front ==> x in rows;
      assert rows[|rows| - 1] in rows;
      MoveRow(MoveRows(db, front, m), rows[|rows| - 1], m)
  }

  /** The return of a reusable container: it is moved, and its children are taken off it. */
  function ReturnEmpty(db: Db, id: nat, m: Move): Db
    requires id < |db.containers|
  {
    var moved := AddMovement(SetStatus(db, id, m.to, m.at, m.portal),
                             MovementOf(id, db.containers[id].status, m.(session := None)));
    DetachChildren(moved, id)
  }

  /** The children of a pallet of which the portal saw nothing near the pallet's own reads. */
  predicate ComesUpShort(db: Db, id: nat, o: Observation) {
    var kids := Children(db.containers, id);
    var tids := set i | i in kids :: db.containers[i].tid;
    kids != {} &&
    |SeenTids(db.observations, o.portal, tids,
              o.firstRead - SHORT_PALLET_WINDOW_S, o.lastRead + SHORT_PALLET_WINDOW_S)| < |kids|
  }

  function CheckShortPallet(db: Db, id: nat, o: Observation): Db {
    if ComesUpShort(db, id, o) then AddAnomaly(db, Anomaly(o.tid, Some(id), ShortPallet, o.lastRead))
    else db
  }

  // ----- one observation -----

  function Applied(db: Db, o: Observation, rows: seq<nat>): Db
    requires RowsExist(db, rows)
  {
    match FindTid(db.containers, o.tid)
    case None => AddAnomaly(db, Anomaly(o.tid, None, UnknownTid, o.lastRead))
    case Some(id) =>
      var c := db.containers[id];
      var d := Decide(o.portal, o.direction, c.status, c.reusable);
      if d.anomaly.Some? then
        Touch(AddAnomaly(db, Anomaly(o.tid, Some(id), d.anomaly.value, o.lastRead)), id, o.lastRead, o.portal)
      else if d.IsNoOp() then
        Touch(db, id, o.lastRead, o.portal)
      else
        var session := if d.toStatus.value == Dispatched then OpenSession(db.sessions) else None;
        if d.toStatus.value == Dispatched && session.None? then
          Touch(AddAnomaly(db, Anomaly(o.tid, Some(id), NoSession, o.lastRead)), id, o.lastRead, o.portal)
        else
          var m := Move(d.toStatus.value, o.portal, session, o.lastRead);
          if d.detachChildren then ReturnEmpty(db, id, m)
          else CheckShortPallet(MoveRows(db, rows, m), id, o)
  }

  /** The effect of handling one observation, in one transaction. */
  function Handled(db: Db, obs: nat, rows: seq<nat>): Db
    requires obs < |db.observations| && RowsExist(db, rows)
  {
    var after := Applied(db, db.observations[obs], rows);
    assert after.observations == db.observations by { AppliedKeeps(db, db.observations[obs], rows); }
    MarkProcessed(after, obs)
  }

  lemma {:induction false} MoveRowsKeeps(db: Db, rows: seq<nat>, m: Move)
    requires RowsExist(db, rows)
    ensures MoveRows(db, rows, m).(containers := db.containers, movements := db.movements) == db
  {
    if rows != [] {
      var front := rows[..|rows| - 1];
      assert forall x :: x in front ==> x in rows;
      assert rows[|rows| - 1] in rows;
      MoveRowsKeeps(db, front, m);
    }
  }

  /** Handling an observation writes containers, movements and anomalies, nothing else. */
  lemma AppliedKeeps(db: Db, o: Observation, rows: seq<nat>)
    requires RowsExist(db, rows)
    ensures var r := Applied(db, o, rows);
            r.(containers := db.containers, movements := db.movements, anomalies := db.anomalies) == db
  {
    forall m: Move
      ensures MoveRows(db, rows, m).(containers := db.containers, movements := db.movements) == db
    {
      MoveRowsKeeps(db, rows, m);
    }
  }

  // ----- the API -----

  datatype Reply = Done(db: Db) | Refused(code: nat)

  /** A refused request changes nothing. */
  function Kept(db: Db, reply: Reply): Db {
    if reply.Done? then reply.db else db
  }

  predicate AllKnown(skus: set<string>, lines: seq<(string, int)>) {
    forall i :: 0 <= i < |lines| ==> lines[i].0 in skus
  }

  function LinesFor(id: nat, lines: seq<(string, int)>): (r: seq<ContentLine>)
    ensures |r| == |lines|
    ensures forall i :: 0 <= i < |lines| ==> r[i] == ContentLine(id, lines[i].0, lines[i].1)
  {
    seq(|lines|, (i: nat) requires i < |lines| => ContentLine(id, lines[i].0, lines[i].1))
  }

  /** A new container starts REGISTERED, the schema's default. An empty parent tag names no parent. */
  function RegisterContainer(db: Db, tid: string, reusable: bool, parentTid: Option<string>,
                             lines: seq<(string, int)>): Reply
  {
    if FindTid(db.containers, tid).Some? then Refused(409)
    else
      var named := parentTid.Some? && parentTid.value != "";
      var parent := if named then FindTid(db.containers, parentTid.value) else None;
      if named && parent.None? then Refused(404)
      else if !AllKnown(db.skus, lines) then Refused(422)
      else Done(db.(
        containers := db.containers + [Container(tid, Registered, reusable, parent, None, None)],
        contents := db.contents + LinesFor(|db.containers|, lines)))
  }

  /** The first objection to putting these tags on a parent, if there is one. */
  function AttachObjection(cs: seq<Container>, parent: nat, childTids: seq<string>): (r: Option<nat>)
    requires parent < |cs|
    ensures r.None? <==> forall i :: 0 <= i < |childTids| ==>
                           && childTids[i] != cs[parent].tid
                           && FindTid(cs, childTids[i]).Some?
                           && cs[FindTid(cs, childTids[i]).value].parent in {None, Some(parent)}
    decreases |childTids|
  {
    if childTids == [] then None
    else
      var child := FindTid(cs, childTids[0]);
      if childTids[0] == cs[parent].tid then Some(422)
      else if child.None? then Some(404)
      else if cs[child.value].parent !in {None, Some(parent)} then Some(409)
      else
        var rest := AttachObjection(cs, parent, childTids[1..]);
        assert forall i :: 0 < i < |childTids| ==> childTids[i] == childTids[1..][i - 1];
        assert forall i :: 0 <= i < |childTids[1..]| ==> childTids[1..][i] == childTids[i + 1];
        rest
  }

  function Kids(cs: seq<Container>, childTids: seq<string>): set<nat> {
    set i | 0 <= i < |cs| && cs[i].tid in childTids
  }

  function SetParents(cs: seq<Container>, parent: nat, kids: set<nat>): (r: seq<Container>)
    ensures |r| == |cs|
    ensures forall i :: 0 <= i < |cs| ==> r[i] == if i in kids then cs[i].(parent := Some(parent)) else cs[i]
  {
    seq(|cs|, (i: nat) requires i < |cs| => if i in kids then cs[i].(parent := Some(parent)) else cs[i])
  }

  function AttachChildren(db: Db, tid: string, childTids: seq<string>): Reply {
    match FindTid(db.containers, tid)
    case None => Refused(404)
    case Some(parent) =>
      var objection := AttachObjection(db.containers, parent, childTids);
      if objection.Some? then Refused(objection.value)
      else Done(db.(containers := SetParents(db.containers, parent, Kids(db.containers, childTids))))
  }

  predicate ValidTarget(current: Status, to: Status) {
    !to.Unrecognised? && current != to
  }

  /** One container's status, set by hand. Its children are left alone. */
  function Corrected(db: Db, tid: string, to: Status, reason: string, operator: string, now: Time): Reply {
    match FindTid(db.containers, tid)
    case None => Refused(404)
    case Some(id) =>
      var from := db.containers[id].status;
      if !ValidTarget(from, to) then Refused(409)
      else Done(AddMovement(db.(containers := db.containers[id := db.containers[id].(status := to)]),
                            Movement(id, from, to, None, None, now, FromPerson(reason, operator))))
  }

  function OpenDock(db: Db, customer: string, now: Time): Reply {
    if OpenSession(db.sessions).Some? then Refused(409)
    else if customer !in db.customers then Refused(422)
    else Done(db.(sessions := db.sessions + [Session(customer, now, None)]))
  }

  function CloseDock(db: Db, session: nat, now: Time): Reply {
    if session >= |db.sessions| then Refused(404)
    else if db.sessions[session].closedAt.Some? then Refused(409)
    else Done(db.(sessions := db.sessions[session := db.sessions[session].(closedAt := Some(now))]))
  }
}
