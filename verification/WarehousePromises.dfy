/**
 What the state engine and the endpoints owe their users, said of the columns of the
 tables: a load moves as a whole, a registration stores what it was given, and what a
 request needs to be accepted.
*/
module WarehousePromises {
  import opened Basics
  import opened Transitions
  import opened Forest
  import opened Warehouse
  import opened MovementLog
  import opened Transactions
  import opened WarehouseRuns

  // ----- a load moves as a whole -----

  /** Whatever stands on the container that was read, and that one, has the new status; nothing else has changed. */
  ghost predicate WholeLoadIs(db: Db, r: Db, o: Observation, id: nat, to: Status) {
    && |r.containers| == |db.containers|
    && forall x :: 0 <= x < |db.containers| ==>
         r.containers[x] ==
         if Below(ParentsOf(db.containers), x, id)
         then db.containers[x].(status := to, lastSeen := Some(o.lastRead), lastPortal := Some(o.portal))
         else db.containers[x]
  }

  /** One new movement for each container of the load that had another status, and no other. */
  ghost predicate OneMovementEach(db: Db, r: Db, o: Observation, id: nat, to: Status, session: Option<nat>) {
    && db.movements <= r.movements
    && (forall i :: |db.movements| <= i < |r.movements| ==>
          var x := r.movements[i].container;
          && x < |db.containers| && Below(ParentsOf(db.containers), x, id) && db.containers[x].status != to
          && r.movements[i] ==
             Movement(x, db.containers[x].status, to, Some(o.portal), session, o.lastRead, FromPortal))
    && (forall i, j :: |db.movements| <= i < j < |r.movements| ==> r.movements[i].container != r.movements[j].container)
    && (forall x :: 0 <= x < |db.containers| && Below(ParentsOf(db.containers), x, id)
                    && db.containers[x].status != to ==>
          exists i :: |db.movements| <= i < |r.movements| && r.movements[i].container == x)
  }

  /**
   A registered container read coming in takes its load into stock with it; one in stock
   read going out, with an order open, takes it out of the building.
  */
  ghost predicate LoadFollows(db: Db, o: Observation, r: Db) {
    forall id :: 0 <= id < |db.containers| && FindTid(db.containers, o.tid) == Some(id) ==>
      && ((o.portal == Entrance || o.direction == Some(In)) && db.containers[id].status == Registered ==>
            WholeLoadIs(db, r, o, id, InStock) && OneMovementEach(db, r, o, id, InStock, None))
      && (o.portal == Exit && o.direction == Some(Out) && db.containers[id].status == InStock
          && OpenSession(db.sessions).Some? ==>
            && WholeLoadIs(db, r, o, id, Dispatched)
            && OneMovementEach(db, r, o, id, Dispatched, OpenSession(db.sessions)))
  }

  lemma {:induction false} CountedOnce(ms: seq<Movement>, x: nat)
    requires CountOf(ms, x) > 0
    ensures exists i :: 0 <= i < |ms| && ms[i].container == x
  {
    var n := |ms| - 1;
    if ms[n].container != x {
      CountedOnce(ms[..n], x);
      var i :| 0 <= i < n && ms[..n][i].container == x;
      assert ms[i].container == x;
    }
  }

  lemma {:induction false} CountedAt(ms: seq<Movement>, i: nat, x: nat)
    requires i < |ms| && ms[i].container == x
    ensures CountOf(ms, x) >= 1
  {
    var n := |ms| - 1;
    if i < n {
      CountedAt(ms[..n], i, x);
    }
  }

  lemma {:induction false} CountedTwice(ms: seq<Movement>, i: nat, j: nat, x: nat)
    requires i < j < |ms| && ms[i].container == ms[j].container == x
    ensures CountOf(ms, x) >= 2
  {
    var n := |ms| - 1;
    if j < n {
      CountedTwice(ms[..n], i, j, x);
    } else {
      CountedAt(ms[..n], i, x);
    }
  }

  lemma CountedAreOnce(before: seq<Movement>, after: seq<Movement>, n: nat)
    requires before <= after
    requires forall x :: 0 <= x < n ==> CountOf(after[|before|..], x) <= 1
    requires forall i :: |before| <= i < |after| ==> after[i].container < n
    ensures forall i, j :: |before| <= i < j < |after| ==> after[i].container != after[j].container
  {
    hide CountOf;
    var b, added := |before|, after[|before|..];
    forall i, j | b <= i < j < |after|
      ensures after[i].container != after[j].container
    {
      assert added[i - b] == after[i] && added[j - b] == after[j];
      if after[i].container == after[j].container {
        CountedTwice(added, i - b, j - b, after[i].container);
      }
    }
  }

  lemma CountedIffThere(before: seq<Movement>, after: seq<Movement>, x: nat)
    requires before <= after
    ensures CountOf(after[|before|..], x) > 0 <==> exists i :: |before| <= i < |after| && after[i].container == x
  {
    hide CountOf;
    var b, added := |before|, after[|before|..];
    if CountOf(added, x) > 0 {
      CountedOnce(added, x);
      var i :| 0 <= i < |added| && added[i].container == x;
      assert after[b + i].container == x;
    }
    if i :| b <= i < |after| && after[i].container == x {
      assert added[i - b] == after[i];
      CountedAt(added, i - b, x);
    }
  }

  lemma CountsGiveOneEach(db: Db, r: Db, o: Observation, id: nat, to: Status, session: Option<nat>)
    requires db.movements <= r.movements
    requires forall i :: |db.movements| <= i < |r.movements| ==>
               var x := r.movements[i].container;
               && x < |db.containers|
               && r.movements[i] ==
                  Movement(x, db.containers[x].status, to, Some(o.portal), session, o.lastRead, FromPortal)
    requires forall x :: 0 <= x < |db.containers| ==>
               CountOf(r.movements[|db.movements|..], x) ==
               if Below(ParentsOf(db.containers), x, id) && db.containers[x].status != to then 1 else 0
    ensures OneMovementEach(db, r, o, id, to, session)
  {
    hide Below, CountOf;
    var n := |db.movements|;
    CountedAreOnce(db.movements, r.movements, |db.containers|);
    forall x | 0 <= x < |db.containers|
      ensures Below(ParentsOf(db.containers), x, id) && db.containers[x].status != to <==>
              exists i :: n <= i < |r.movements| && r.movements[i].container == x
    {
      CountedIffThere(db.movements, r.movements, x);
    }
  }

  lemma TreeMoveTakesAll(db: Db, o: Observation, id: nat, rows: seq<nat>, to: Status, session: Option<nat>)
    requires id < |db.containers| && RowsExist(db, rows) && Enumerates(ParentsOf(db.containers), id, rows)
    ensures var r := CheckShortPallet(MoveRows(db, rows, Move(to, o.portal, session, o.lastRead)), id, o);
            WholeLoadIs(db, r, o, id, to) && OneMovementEach(db, r, o, id, to, session)
  {
    hide Below, Enumerates, MoveRows, CountOf, ComesUpShort;
    var m := Move(to, o.portal, session, o.lastRead);
    TreeMoveIsExact(db, id, rows, m);
    CountsGiveOneEach(db, MoveRows(db, rows, m), o, id, to, session);
  }

  /** Whatever a read moves it moves with everything standing on it, however deep. */
  lemma ReadsMoveWholeLoads(db: Db, o: Observation, rows: seq<nat>)
    requires RowsExist(db, rows) && RowsFor(db, o.tid, rows)
    ensures LoadFollows(db, o, Applied(db, o, rows))
  {
    hide Below, Enumerates, MoveRows, WholeLoadIs, OneMovementEach, CheckShortPallet;
    match FindTid(db.containers, o.tid)
    case None =>
    case Some(id) =>
      var c := db.containers[id];
      if c.status == Registered {
        TreeMoveTakesAll(db, o, id, rows, InStock, None);
      } else if c.status == InStock {
        TreeMoveTakesAll(db, o, id, rows, Dispatched, OpenSession(db.sessions));
      }
  }

  /** The same of the whole transaction. */
  lemma HandlingMovesWholeLoads(db: Db, obs: nat, rows: seq<nat>)
    requires Enabled(db, Handle(obs, rows))
    ensures LoadFollows(db, db.observations[obs], Handled(db, obs, rows))
  {
    hide Applied, Below;
    ReadsMoveWholeLoads(db, db.observations[obs], rows);
    var r := Applied(db, db.observations[obs], rows);
    assert Handled(db, obs, rows).containers == r.containers && Handled(db, obs, rows).movements == r.movements;
  }

  // ----- a registration stores what it was given -----

  /** The quantity of a SKU in a request. */
  function Requested(lines: seq<(string, int)>, sku: string): int {
    if lines == [] then 0
    else
      var l := lines[|lines| - 1];
      Requested(lines[..|lines| - 1], sku) + if l.0 == sku then l.1 else 0
  }

  lemma {:induction false} QuantityOfRequest(contents: seq<ContentLine>, n: nat, lines: seq<(string, int)>, c: nat,
                                             sku: string)
    ensures Quantity(contents + LinesFor(n, lines), c, sku) ==
            Quantity(contents, c, sku) + if c == n then Requested(lines, sku) else 0
  {
    if lines == [] {
      assert contents + LinesFor(n, lines) == contents;
    } else {
      var front, l := lines[..|lines| - 1], lines[|lines| - 1];
      QuantityOfRequest(contents, n, front, c, sku);
      var all, sofar := contents + LinesFor(n, lines), contents + LinesFor(n, front);
      assert all == sofar + [ContentLine(n, l.0, l.1)];
      assert all[..|all| - 1] == sofar;
    }
  }

  lemma {:induction false} NothingInUnknown(contents: seq<ContentLine>, c: nat, sku: string)
    requires forall i :: 0 <= i < |contents| ==> contents[i].container < c
    ensures Quantity(contents, c, sku) == 0
  {
    if contents != [] {
      NothingInUnknown(contents[..|contents| - 1], c, sku);
    }
  }

  /** No such tag yet, a known parent if one is named, and known SKUs: that is what it takes, and in that order. */
  lemma RegistrationNeeds(db: Db, tid: string, reusable: bool, parentTid: Option<string>, lines: seq<(string, int)>)
    ensures var reply := RegisterContainer(db, tid, reusable, parentTid, lines);
            var taken := exists i :: 0 <= i < |db.containers| && db.containers[i].tid == tid;
            var named := parentTid.Some? && parentTid.value != "";
            var found := exists i :: 0 <= i < |db.containers| && Some(db.containers[i].tid) == parentTid;
            var known := forall i :: 0 <= i < |lines| ==> lines[i].0 in db.skus;
            && (reply.Done? <==> !taken && (named ==> found) && known)
            && (taken ==> reply == Refused(409))
            && (!taken && named && !found ==> reply == Refused(404))
            && (!taken && (named ==> found) && !known ==> reply == Refused(422))
  {
    var named := parentTid.Some? && parentTid.value != "";
    if named && FindTid(db.containers, parentTid.value).Some? {
      assert Some(db.containers[FindTid(db.containers, parentTid.value).value].tid) == parentTid;
    }
    if FindTid(db.containers, tid).Some? {
      assert db.containers[FindTid(db.containers, tid).value].tid == tid;
    }
  }

  /**
   An accepted registration adds one container, with the tag, the flag and the parent
   named, and its contents: of each SKU what the lines of the request add up to.
  */
  lemma RegistrationStores(db: Db, tid: string, reusable: bool, parentTid: Option<string>, lines: seq<(string, int)>,
                           c: nat, sku: string)
    requires Ledger(db) && RegisterContainer(db, tid, reusable, parentTid, lines).Done?
    ensures var r := RegisterContainer(db, tid, reusable, parentTid, lines).db;
            var n := |db.containers|;
            && r.(containers := db.containers, contents := db.contents) == db
            && |r.containers| == n + 1 && r.containers[..n] == db.containers
            && r.containers[n].tid == tid && r.containers[n].reusable == reusable
            && r.containers[n].status == Registered
            && (parentTid.None? || parentTid.value == "" ==> r.containers[n].parent.None?)
            && (parentTid.Some? && parentTid.value != "" ==>
                  && r.containers[n].parent.Some? && r.containers[n].parent.value < n
                  && db.containers[r.containers[n].parent.value].tid == parentTid.value)
            && Quantity(r.contents, c, sku) ==
               if c == n then Requested(lines, sku) else Quantity(db.contents, c, sku)
  {
    hide Quantity;
    QuantityOfRequest(db.contents, |db.containers|, lines, c, sku);
    NothingInUnknown(db.contents, |db.containers|, sku);
  }

  lemma {:induction false} OneMoreInStock(cs: seq<Container>, ds: seq<Container>, lines: seq<ContentLine>, n: nat,
                                          sku: string)
    requires n < |cs| == |ds| && cs[n].status != InStock && ds[n].status == InStock
    requires forall x :: 0 <= x < |cs| && x != n ==> ds[x].status == cs[x].status
    ensures OnHand(ds, lines, sku) == OnHand(cs, lines, sku) + Quantity(lines, n, sku)
  {
    if lines != [] {
      OneMoreInStock(cs, ds, lines[..|lines| - 1], n, sku);
    }
  }

  lemma {:induction false} LeafStandsAlone(p: seq<Option<nat>>, n: nat, x: nat, k: nat)
    requires forall y :: 0 <= y < |p| ==> p[y] != Some(n)
    requires Up(p, x, k) == Some(n)
    ensures x == n
    decreases k
  {
    if k > 0 {
      LeafStandsAlone(p, n, p[x].value, k - 1);
    }
  }

  /** Registered and then read coming in, a box brings exactly its contents into stock. */
  lemma RegisteredContentsArrive(db: Db, tid: string, reusable: bool, parentTid: Option<string>,
                                 lines: seq<(string, int)>, o: Observation, rows: seq<nat>, sku: string)
    requires Ledger(db) && RegisterContainer(db, tid, reusable, parentTid, lines).Done?
    requires forall i :: 0 <= i < |db.containers| && db.containers[i].parent.Some? ==>
               db.containers[i].parent.value < |db.containers|
    requires o.tid == tid && (o.portal == Entrance || o.direction == Some(In))
    requires var r := RegisterContainer(db, tid, reusable, parentTid, lines).db;
             RowsExist(r, rows) && RowsFor(r, tid, rows)
    ensures var r := Applied(RegisterContainer(db, tid, reusable, parentTid, lines).db, o, rows);
            OnHand(r.containers, r.contents, sku) == OnHand(db.containers, db.contents, sku) + Requested(lines, sku)
  {
    hide Quantity, OnHand, Applied, RegisterContainer, Ledger, Enumerates;
    var n := |db.containers|;
    var once := RegisterContainer(db, tid, reusable, parentTid, lines).db;
    NewTagIsFound(db, tid, reusable, parentTid, lines, sku);
    RegistrationStores(db, tid, reusable, parentTid, lines, n, sku);
    ReadsMoveWholeLoads(once, o, rows);
    AppliedKeeps(once, o, rows);
    var r := Applied(once, o, rows);
    var p := ParentsOf(once.containers);
    forall x: nat | x < |p| && x != n
      ensures !Below(p, x, n)
    {
      NothingStandsOnIt(once.containers, n, x);
    }
    BelowByParent(p, n, n);
    OneMoreInStock(once.containers, r.containers, once.contents, n, sku);
  }

  lemma NothingStandsOnIt(cs: seq<Container>, n: nat, x: nat)
    requires n < |cs| && x != n && forall y :: 0 <= y < |cs| ==> cs[y].parent != Some(n)
    ensures !Below(ParentsOf(cs), x, n)
  {
    var p := ParentsOf(cs);
    forall k: nat | Up(p, x, k) == Some(n)
      ensures false
    {
      LeafStandsAlone(p, n, x, k);
    }
  }

  lemma NewTagIsFound(db: Db, tid: string, reusable: bool, parentTid: Option<string>, lines: seq<(string, int)>,
                      sku: string)
    requires Ledger(db) && RegisterContainer(db, tid, reusable, parentTid, lines).Done?
    ensures var r := RegisterContainer(db, tid, reusable, parentTid, lines).db;
            && FindTid(r.containers, tid) == Some(|db.containers|)
            && OnHand(r.containers, r.contents, sku) == OnHand(db.containers, db.contents, sku)
  {
    hide OnHand, Ledger;
    var r := RegisterContainer(db, tid, reusable, parentTid, lines).db;
    LedgerContents(db);
    OldLinesOnHand(db.containers, r.containers[|db.containers|], db.contents, sku);
    NewLinesNotOnHand(r.containers, db.contents, LinesFor(|db.containers|, lines), sku);
  }

  lemma LedgerContents(db: Db)
    requires Ledger(db)
    ensures forall i :: 0 <= i < |db.contents| ==> db.contents[i].container < |db.containers|
  {
  }

  lemma {:induction false} OldLinesOnHand(cs: seq<Container>, c: Container, lines: seq<ContentLine>, sku: string)
    requires forall i :: 0 <= i < |lines| ==> lines[i].container < |cs|
    ensures OnHand(cs + [c], lines, sku) == OnHand(cs, lines, sku)
  {
    if lines != [] {
      OldLinesOnHand(cs, c, lines[..|lines| - 1], sku);
    }
  }

  lemma {:induction false} NewLinesNotOnHand(cs: seq<Container>, lines: seq<ContentLine>, added: seq<ContentLine>,
                                             sku: string)
    requires forall i :: 0 <= i < |added| ==> added[i].container < |cs| && cs[added[i].container].status != InStock
    ensures OnHand(cs, lines + added, sku) == OnHand(cs, lines, sku)
  {
    if added == [] {
      assert lines + added == lines;
    } else {
      NewLinesNotOnHand(cs, lines, added[..|added| - 1], sku);
      assert (lines + added)[..|lines + added| - 1] == lines + added[..|added| - 1];
    }
  }

  // ----- the other requests -----

  /** One child that may not be put on the parent, and why. */
  ghost predicate ObjectedTo(cs: seq<Container>, parent: nat, child: string, code: nat)
    requires parent < |cs|
  {
    || (child == cs[parent].tid && code == 422)
    || (child != cs[parent].tid && (forall i :: 0 <= i < |cs| ==> cs[i].tid != child) && code == 404)
    || (child != cs[parent].tid && code == 409 &&
        exists i :: 0 <= i < |cs| && cs[i].tid == child && cs[i].parent != None && cs[i].parent != Some(parent))
  }

  ghost predicate Acceptable(cs: seq<Container>, parent: nat, child: string)
    requires parent < |cs|
  {
    && child != cs[parent].tid
    && exists i :: 0 <= i < |cs| && cs[i].tid == child && (cs[i].parent == None || cs[i].parent == Some(parent))
  }

  /** A request to attach is refused for the first child there is something against. */
  lemma {:induction false} FirstObjectionCounts(cs: seq<Container>, parent: nat, childTids: seq<string>)
    returns (i: nat)
    requires parent < |cs| && AttachObjection(cs, parent, childTids).Some?
    ensures i < |childTids| && ObjectedTo(cs, parent, childTids[i], AttachObjection(cs, parent, childTids).value)
    ensures forall j :: 0 <= j < i ==> Acceptable(cs, parent, childTids[j])
  {
    i := 0;
    var child := FindTid(cs, childTids[0]);
    if childTids[0] != cs[parent].tid && child.Some? && cs[child.value].parent in {None, Some(parent)} {
      var k := FirstObjectionCounts(cs, parent, childTids[1..]);
      i := k + 1;
      forall j | 0 <= j < i
        ensures Acceptable(cs, parent, childTids[j])
      {
        if j > 0 {
          assert childTids[j] == childTids[1..][j - 1];
        }
      }
    }
  }

  /** What it takes to open the dock and to close it, and what is written. */
  lemma DockRequests(db: Db, customer: string, session: nat, now: Time)
    ensures var begun := OpenDock(db, customer, now);
            var busy := exists i :: 0 <= i < |db.sessions| && db.sessions[i].closedAt.None?;
            && (busy ==> begun == Refused(409))
            && (!busy && customer !in db.customers ==> begun == Refused(422))
            && (!busy && customer in db.customers ==>
                  begun == Done(db.(sessions := db.sessions + [Session(customer, now, None)])))
    ensures var ended := CloseDock(db, session, now);
            && (ended.Done? <==> session < |db.sessions| && db.sessions[session].closedAt.None?)
            && (ended.Done? ==>
                  && ended.db.(sessions := db.sessions) == db && |ended.db.sessions| == |db.sessions|
                  && ended.db.sessions[session] == Session(db.sessions[session].customer,
                                                            db.sessions[session].openedAt, Some(now))
                  && forall i :: 0 <= i < |db.sessions| && i != session ==> ended.db.sessions[i] == db.sessions[i])
            && (session >= |db.sessions| ==> ended == Refused(404))
            && (session < |db.sessions| && db.sessions[session].closedAt.Some? ==> ended == Refused(409))
  {
    var s := OpenSession(db.sessions);
    if s.Some? {
      assert db.sessions[s.value].closedAt.None?;
    }
  }
}
