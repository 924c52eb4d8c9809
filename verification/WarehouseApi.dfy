/**
 The API's writing endpoints, run over a connection: check the request, write
 the rows, commit. A request that fails a check is answered with its status code.
*/
module WarehouseApi {
  import opened Basics
  import opened Transitions
  import opened Warehouse
  import opened StateEngineService

  class Api {
    const conn: Connection

    constructor (conn: Connection)
      ensures this.conn == conn
    {
      this.conn := conn;
    }

    method Register(tid: string, reusable: bool, parentTid: Option<string>, lines: seq<(string, int)>)
      returns (refusal: Option<nat>)
      requires conn.working == conn.committed
      modifies conn
      ensures var reply := RegisterContainer(old(conn.committed), tid, reusable, parentTid, lines);
              && conn.committed == conn.working == Kept(old(conn.committed), reply)
              && refusal == if reply.Done? then None else Some(reply.code)
    {
      if FindTid(conn.working.containers, tid).Some? {
        return Some(409);
      }
      var parent: Option<nat> := None;
      if parentTid.Some? && parentTid.value != "" {
        parent := FindTid(conn.working.containers, parentTid.value);
        if parent.None? {
          return Some(404);
        }
      }
      for i := 0 to |lines|
        invariant forall j :: 0 <= j < i ==> lines[j].0 in conn.working.skus
      {
        if lines[i].0 !in conn.working.skus {
          return Some(422);
        }
      }
      var id := |conn.working.containers|;
      conn.working := conn.working.(containers :=
        conn.working.containers + [Container(tid, Registered, reusable, parent, None, None)]);
      ghost var inserted := conn.working;
      for i := 0 to |lines|
        invariant conn.working == inserted.(contents := inserted.contents + LinesFor(id, lines)[..i])
      {
        conn.working := conn.working.(contents := conn.working.contents + [ContentLine(id, lines[i].0, lines[i].1)]);
      }
      conn.Commit();
      refusal := None;
    }

    method Attach(tid: string, childTids: seq<string>) returns (refusal: Option<nat>)
      requires conn.working == conn.committed
      modifies conn
      ensures var reply := AttachChildren(old(conn.committed), tid, childTids);
              && conn.committed == conn.working == Kept(old(conn.committed), reply)
              && refusal == if reply.Done? then None else Some(reply.code)
    {
      var found := FindTid(conn.working.containers, tid);
      if found.None? {
        return Some(404);
      }
      var parent := found.value;
      for i := 0 to |childTids|
        invariant AttachObjection(conn.working.containers, parent, childTids) ==
                  AttachObjection(conn.working.containers, parent, childTids[i..])
      {
        assert childTids[i..][1..] == childTids[i + 1..];
        if childTids[i] == tid {
          return Some(422);
        }
        var child := FindTid(conn.working.containers, childTids[i]);
        if child.None? {
          return Some(404);
        }
        if conn.working.containers[child.value].parent !in {None, Some(parent)} {
          return Some(409);
        }
      }
      conn.working := conn.working.(containers :=
        SetParents(conn.working.containers, parent, Kids(conn.working.containers, childTids)));
      conn.Commit();
      refusal := None;
    }

    /** A correction in a transaction of its own; refused, it is rolled back. */
    method Correct(tid: string, to: Status, reason: string, operator: string, now: Time)
      returns (refusal: Option<nat>)
      requires conn.working == conn.committed
      modifies conn
      ensures var reply := Corrected(old(conn.committed), tid, to, reason, operator, now);
              && conn.committed == conn.working == Kept(old(conn.committed), reply)
              && refusal == if reply.Done? then None else Some(reply.code)
    {
      refusal := ApplyManualCorrection(tid, to, reason, operator, now);
      if refusal.Some? {
        conn.Rollback();
      } else {
        conn.Commit();
      }
    }

    /** Sets one status by hand and records why; leaves the commit to the caller. */
    method ApplyManualCorrection(tid: string, to: Status, reason: string, operator: string, now: Time)
      returns (refusal: Option<nat>)
      modifies conn`working
      ensures var reply := Corrected(old(conn.working), tid, to, reason, operator, now);
              && conn.working == Kept(old(conn.working), reply)
              && refusal == if reply.Done? then None else Some(reply.code)
    {
      var found := FindTid(conn.working.containers, tid);
      if found.None? {
        return Some(404);
      }
      var id := found.value;
      var from := conn.working.containers[id].status;
      if to.Unrecognised? || from == to {
        return Some(409);
      }
      conn.working := conn.working.(containers :=
        conn.working.containers[id := conn.working.containers[id].(status := to)]);
      conn.working := AddMovement(conn.working, Movement(id, from, to, None, None, now, FromPerson(reason, operator)));
      refusal := None;
    }

    method OpenSession(customer: string, now: Time) returns (refusal: Option<nat>)
      requires conn.working == conn.committed
      modifies conn
      ensures var reply := OpenDock(old(conn.committed), customer, now);
              && conn.committed == conn.working == Kept(old(conn.committed), reply)
              && refusal == if reply.Done? then None else Some(reply.code)
    {
      if Warehouse.OpenSession(conn.working.sessions).Some? {
        return Some(409);
      }
      if customer !in conn.working.customers {
        return Some(422);
      }
      conn.working := conn.working.(sessions := conn.working.sessions + [Session(customer, now, None)]);
      conn.Commit();
      refusal := None;
    }

    method CloseSession(session: nat, now: Time) returns (refusal: Option<nat>)
      requires conn.working == conn.committed
      modifies conn
      ensures var reply := CloseDock(old(conn.committed), session, now);
              && conn.committed == conn.working == Kept(old(conn.committed), reply)
              && refusal == if reply.Done? then None else Some(reply.code)
    {
      if session >= |conn.working.sessions| {
        return Some(404);
      }
      if conn.working.sessions[session].closedAt.Some? {
        return Some(409);
      }
      conn.working := conn.working.(sessions :=
        conn.working.sessions[session := conn.working.sessions[session].(closedAt := Some(now))]);
      conn.Commit();
      refusal := None;
    }
  }
}
