/**
 Writing a batch to the cloud, one statement at a time, under its foreign keys.
*/
module SyncSend {
  import opened Basics
  import opened SyncBatch

  /** The cloud's tables: the contents of each row. updated_at is the cloud trigger's own affair. */
  type CloudTables = seq<map<nat, Content>>

  datatype Written = Written(tables: CloudTables) | ForeignKeyViolation

  predicate RefsPresent(tables: CloudTables, c: Content) {
    forall r :: r in c.refs ==> r.table < |tables| && r.key in tables[r.table]
  }

  /** INSERT ... ON CONFLICT: nothing for an append-only row already there, an overwrite otherwise. */
  function Upsert(tables: CloudTables, t: nat, byId: bool, key: nat, c: Content): (w: Written)
    requires t < |tables|
    ensures w.Written? ==> |w.tables| == |tables|
  {
    if byId && key in tables[t] then Written(tables)
    else if RefsPresent(tables, c) && (c.parent.Some? ==> c.parent.value in tables[t].Keys + {key}) then
      var table: map<nat, Content> := tables[t][key := c];
      Written(tables[t := table])
    else ForeignKeyViolation
  }

  /** UPDATE ... SET parent_id. */
  function SetParent(tables: CloudTables, t: nat, key: nat, parent: Option<nat>): (w: Written)
    requires t < |tables|
    ensures w.Written? ==> |w.tables| == |tables|
  {
    if key !in tables[t] then Written(tables)
    else if parent.Some? && parent.value !in tables[t] then ForeignKeyViolation
    else
      var table: map<nat, Content> := tables[t][key := tables[t][key].(parent := parent)];
      Written(tables[t := table])
  }

  predicate InTable(rows: Table, batch: seq<nat>) {
    forall k :: k in batch ==> k in rows
  }

  function Stripped(c: Content): Content {
    c.(parent := None)
  }

  function Sent(c: Content, strip: bool): Content {
    if strip then Stripped(c) else c
  }

  /** Every row of the batch upserted in turn, without its parent if asked. */
  function UpsertAll(tables: CloudTables, t: nat, byId: bool, rows: Table, batch: seq<nat>, strip: bool): (w: Written)
    requires t < |tables| && InTable(rows, batch)
    ensures w.Written? ==> |w.tables| == |tables|
  {
    if batch == [] then Written(tables)
    else
      var front, k := batch[..|batch| - 1], batch[|batch| - 1];
      assert k in batch && forall j :: j in front ==> j in batch;
      var sofar := UpsertAll(tables, t, byId, rows, front, strip);
      if sofar.ForeignKeyViolation? then ForeignKeyViolation
      else Upsert(sofar.tables, t, byId, k, Sent(rows[k].content, strip))
  }

  function SetParentAll(tables: CloudTables, t: nat, rows: Table, batch: seq<nat>): (w: Written)
    requires t < |tables| && InTable(rows, batch)
    ensures w.Written? ==> |w.tables| == |tables|
  {
    if batch == [] then Written(tables)
    else
      var front, k := batch[..|batch| - 1], batch[|batch| - 1];
      assert k in batch && forall j :: j in front ==> j in batch;
      var sofar := SetParentAll(tables, t, rows, front);
      if sofar.ForeignKeyViolation? then ForeignKeyViolation
      else SetParent(sofar.tables, t, k, rows[k].content.parent)
  }

  /**
   The rows of one batch. A self-referencing table is written in two passes:
   every row with no parent, then the parents.
  */
  function SendRows(tables: CloudTables, t: nat, byId: bool, twoPass: bool, rows: Table, batch: seq<nat>): (w: Written)
    requires t < |tables| && InTable(rows, batch)
    ensures w.Written? ==> |w.tables| == |tables|
  {
    if twoPass then
      var first := UpsertAll(tables, t, byId, rows, batch, true);
      if first.ForeignKeyViolation? then ForeignKeyViolation
      else SetParentAll(first.tables, t, rows, batch)
    else UpsertAll(tables, t, byId, rows, batch, false)
  }

  // ----- what sending a batch amounts to -----

  /** The batch's rows as they are, on top of what is there; append-only rows already there stay. */
  function Merged(table: map<nat, Content>, byId: bool, rows: Table, batch: seq<nat>): (m: map<nat, Content>)
    requires InTable(rows, batch)
    ensures m.Keys == table.Keys + set k | k in batch
    ensures forall k :: k in m ==>
              m[k] == if k in batch && !(byId && k in table) then rows[k].content else table[k]
  {
    map k | k in table.Keys + (set k | k in batch) ::
      if k in batch && !(byId && k in table) then rows[k].content else table[k]
  }

  /** The other rows a batch points at are there. */
  ghost predicate BatchRefsPresent(tables: CloudTables, byId: bool, t: nat, rows: Table, batch: seq<nat>)
    requires t < |tables| && InTable(rows, batch)
  {
    forall k :: k in batch && !(byId && k in tables[t]) ==> RefsPresent(tables, rows[k].content)
  }

  /** Every parent is in the batch or in the cloud. */
  ghost predicate ParentsPresent(present: set<nat>, rows: Table, batch: seq<nat>)
    requires InTable(rows, batch)
  {
    forall k :: k in batch && rows[k].content.parent.Some? ==>
      rows[k].content.parent.value in present || rows[k].content.parent.value in batch
  }

  /** References lead to other tables; only containers have parents. */
  ghost predicate RefsElsewhere(t: nat, rows: Table) {
    forall k, r :: k in rows && r in rows[k].content.refs ==> r.table != t
  }

  ghost predicate NoParents(rows: Table) {
    forall k :: k in rows ==> rows[k].content.parent.None?
  }

  lemma RefsUnaffected(tables: CloudTables, after: CloudTables, t: nat, c: Content)
    requires t < |tables| == |after|
    requires forall u :: 0 <= u < |tables| && u != t ==> after[u] == tables[u]
    requires forall r :: r in c.refs ==> r.table != t
    ensures RefsPresent(after, c) <==> RefsPresent(tables, c)
  {
  }

  /** The tables after the upserts of a batch. */
  ghost predicate Upserted(tables: CloudTables, after: CloudTables, t: nat, byId: bool,
                           rows: Table, batch: seq<nat>, strip: bool)
    requires t < |tables| && InTable(rows, batch)
  {
    && |after| == |tables|
    && (forall u :: 0 <= u < |tables| && u != t ==> after[u] == tables[u])
    && after[t].Keys == tables[t].Keys + (set k | k in batch)
    && forall k :: k in after[t] ==>
         after[t][k] == if k in batch && !(byId && k in tables[t]) then Sent(rows[k].content, strip) else tables[t][k]
  }

  lemma UpsertedNext(tables: CloudTables, sofar: CloudTables, t: nat, byId: bool, rows: Table,
                     front: seq<nat>, last: nat, strip: bool)
    requires t < |tables| && InTable(rows, front) && last in rows && last !in front && RefsElsewhere(t, rows)
    requires strip || NoParents(rows)
    requires Upserted(tables, sofar, t, byId, rows, front, strip)
    ensures var w := Upsert(sofar, t, byId, last, Sent(rows[last].content, strip));
            && (w.Written? <==> (byId && last in tables[t]) || RefsPresent(tables, rows[last].content))
            && (w.Written? ==> Upserted(tables, w.tables, t, byId, rows, front + [last], strip))
  {
    var c := Sent(rows[last].content, strip);
    RefsUnaffected(tables, sofar, t, c);
    assert last in sofar[t] <==> last in tables[t];
  }

  /** The parents of the rows are left out, or there are none: the upserts succeed as soon as their references do. */
  lemma {:induction false} UpsertAllEffect(tables: CloudTables, t: nat, byId: bool, rows: Table, batch: seq<nat>,
                                           strip: bool)
    requires t < |tables| && InTable(rows, batch) && NoDuplicates(batch) && RefsElsewhere(t, rows)
    requires strip || NoParents(rows)
    ensures var w := UpsertAll(tables, t, byId, rows, batch, strip);
            && (w.Written? <==> BatchRefsPresent(tables, byId, t, rows, batch))
            && (w.Written? ==> Upserted(tables, w.tables, t, byId, rows, batch, strip))
  {
    hide Upsert;
    if batch != [] {
      var front, last := batch[..|batch| - 1], batch[|batch| - 1];
      assert last in batch && forall j :: j in front ==> j in batch;
      assert forall j :: j in batch <==> j in front || j == last;
      assert last !in front;
      UpsertAllEffect(tables, t, byId, rows, front, strip);
      var sofar := UpsertAll(tables, t, byId, rows, front, strip);
      if sofar.Written? {
        UpsertedNext(tables, sofar.tables, t, byId, rows, front, last, strip);
        assert front + [last] == batch;
      }
    }
  }

  lemma {:induction false} SetParentAllEffect(tables: CloudTables, t: nat, rows: Table, batch: seq<nat>)
    requires t < |tables| && InTable(rows, batch) && NoDuplicates(batch)
    requires forall k :: k in batch ==> k in tables[t]
    ensures var w := SetParentAll(tables, t, rows, batch);
            && (w.Written? <==> ParentsPresent(tables[t].Keys, rows, batch))
            && (w.Written? ==>
                  && (forall u :: 0 <= u < |tables| && u != t ==> w.tables[u] == tables[u])
                  && w.tables[t].Keys == tables[t].Keys
                  && forall k :: k in tables[t] ==>
                       w.tables[t][k] == if k in batch then tables[t][k].(parent := rows[k].content.parent)
                                         else tables[t][k])
  {
    if batch != [] {
      var front, last := batch[..|batch| - 1], batch[|batch| - 1];
      assert last in batch && forall j :: j in front ==> j in batch;
      assert forall j :: j in batch <==> j in front || j == last;
      assert last !in front;
      SetParentAllEffect(tables, t, rows, front);
    }
  }

  /**
   The two passes break no foreign key on the way, whatever the order of the
   rows, exactly when every reference and every parent is there or on its way;
   and then the result is the batch upserted as it is.
  */
  lemma TwoPassIsDirectUpsert(tables: CloudTables, t: nat, rows: Table, batch: seq<nat>)
    requires t < |tables| && InTable(rows, batch) && NoDuplicates(batch) && RefsElsewhere(t, rows)
    ensures SendRows(tables, t, false, true, rows, batch) ==
            if BatchRefsPresent(tables, false, t, rows, batch) && ParentsPresent(tables[t].Keys, rows, batch)
            then Written(tables[t := Merged(tables[t], false, rows, batch)])
            else ForeignKeyViolation
  {
    UpsertAllEffect(tables, t, false, rows, batch, true);
    var first := UpsertAll(tables, t, false, rows, batch, true);
    if first.Written? {
      SetParentAllEffect(first.tables, t, rows, batch);
      assert ParentsPresent(first.tables[t].Keys, rows, batch) <==> ParentsPresent(tables[t].Keys, rows, batch);
      var w := SetParentAll(first.tables, t, rows, batch);
      if w.Written? {
        assert w.tables[t] == Merged(tables[t], false, rows, batch);
        assert w.tables == tables[t := Merged(tables[t], false, rows, batch)];
      }
    }
  }

  /** One pass, for a table whose rows have no parents. */
  lemma OnePassIsUpsert(tables: CloudTables, t: nat, byId: bool, rows: Table, batch: seq<nat>)
    requires t < |tables| && InTable(rows, batch) && NoDuplicates(batch) && RefsElsewhere(t, rows) && NoParents(rows)
    ensures SendRows(tables, t, byId, false, rows, batch) ==
            if BatchRefsPresent(tables, byId, t, rows, batch)
            then Written(tables[t := Merged(tables[t], byId, rows, batch)])
            else ForeignKeyViolation
  {
    UpsertAllEffect(tables, t, byId, rows, batch, false);
    var w := UpsertAll(tables, t, byId, rows, batch, false);
    if w.Written? {
      assert w.tables[t] == Merged(tables[t], byId, rows, batch);
      assert w.tables == tables[t := Merged(tables[t], byId, rows, batch)];
    }
  }

  /** Why the passes are two: a box listed before its pallet could not go in directly. */
  lemma OnePassNeedsParentsFirst()
    ensures var rows: Table := map[1 := Row(1, Content(Some(2), {}, "box")), 2 := Row(1, Content(None, {}, "pallet"))];
            && SendRows([map[]], 0, false, false, rows, [1, 2]) == ForeignKeyViolation
            && SendRows([map[]], 0, false, true, rows, [1, 2]).Written?
  {
    var rows: Table := map[1 := Row(1, Content(Some(2), {}, "box")), 2 := Row(1, Content(None, {}, "pallet"))];
    var batch := [1, 2];
    assert batch[..1] == [1] && [1][..0] == [];
    TwoPassIsDirectUpsert([map[]], 0, rows, batch);
    assert UpsertAll([map[]], 0, false, rows, [], false) == Written([map[]]);
    assert UpsertAll([map[]], 0, false, rows, [1], false) == ForeignKeyViolation;
  }
}
