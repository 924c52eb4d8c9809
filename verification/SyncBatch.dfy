/**
 Reading the next batch of a table: the rows beyond the cursor, in cursor
 order, up to a limit. And whether moving the cursor to the last of them can
 leave a row behind.
*/
module SyncBatch {
  import opened Basics

  /** A row elsewhere that a row points at. */
  datatype Ref = Ref(table: nat, key: nat)

  /** A row's columns other than its key and its stamp. */
  datatype Content = Content(parent: Option<nat>, refs: set<Ref>, data: string)

  /** The stamp is the cursor column: updated_at for a mutable table, the id for an append-only one. */
  datatype Row = Row(stamp: int, content: Content)

  type Table = map<nat, Row>

  /** Cursor order: by stamp, then by key. */
  predicate Before(t: Table, a: nat, b: nat)
    requires a in t && b in t
  {
    t[a].stamp < t[b].stamp || (t[a].stamp == t[b].stamp && a < b)
  }

  function Above(t: Table, cursor: int): (r: set<nat>)
    ensures r <= t.Keys
  {
    set k | k in t && t[k].stamp > cursor
  }

  function Stamped(t: Table, stamp: int): (r: set<nat>)
    ensures r <= t.Keys
  {
    set k | k in t && t[k].stamp == stamp
  }

  predicate IsFirst(t: Table, ks: set<nat>, k: nat)
    requires ks <= t.Keys
  {
    k in ks && forall j :: j in ks && j != k ==> Before(t, k, j)
  }

  lemma {:induction false} FirstExists(t: Table, ks: set<nat>)
    requires ks <= t.Keys && ks != {}
    ensures exists k :: IsFirst(t, ks, k)
    decreases |ks|
  {
    var x :| x in ks;
    var rest := ks - {x};
    if rest == {} {
      assert ks == {x};
      assert IsFirst(t, ks, x);
    } else {
      FirstExists(t, rest);
      var f :| IsFirst(t, rest, f);
      if Before(t, f, x) {
        assert IsFirst(t, ks, f);
      } else {
        forall j | j in ks && j != x
          ensures Before(t, x, j)
        {
          assert j in rest && (j == f || Before(t, f, j));
        }
        assert IsFirst(t, ks, x);
      }
    }
  }

  /** The first `limit` of these rows in cursor order: ORDER BY with LIMIT. */
  function FirstRows(t: Table, ks: set<nat>, limit: nat): (page: seq<nat>)
    requires ks <= t.Keys
    ensures IsPage(t, ks, limit, page)
    decreases |ks|
  {
    if ks == {} || limit == 0 then []
    else
      FirstExists(t, ks);
      var k :| IsFirst(t, ks, k);
      [k] + FirstRows(t, ks - {k}, limit - 1)
  }

  /** What a page is, whoever computes it: some of ks, in order, none after one left out. */
  ghost predicate IsPage(t: Table, ks: set<nat>, limit: nat, page: seq<nat>)
    requires ks <= t.Keys
  {
    && |page| <= limit
    && (forall k :: k in page ==> k in ks)
    && (forall i, j :: 0 <= i < j < |page| ==> Before(t, page[i], page[j]))
    && (forall j, k :: j in page && k in ks && k !in page ==> Before(t, j, k))
    && (|page| < limit ==> forall k :: k in ks ==> k in page)
  }

  /** There is only one page. */
  lemma {:induction false} PageIsUnique(t: Table, ks: set<nat>, limit: nat, p: seq<nat>, q: seq<nat>)
    requires ks <= t.Keys && IsPage(t, ks, limit, p) && IsPage(t, ks, limit, q)
    ensures p == q
    decreases limit
  {
    PageSize(t, ks, limit, p);
    PageSize(t, ks, limit, q);
    if p != [] {
      assert p[0] in p && q[0] in q;
      assert p[0] == q[0];
      PageTail(t, ks, limit, p);
      PageTail(t, ks, limit, q);
      PageIsUnique(t, ks - {p[0]}, limit - 1, p[1..], q[1..]);
      assert p == [p[0]] + p[1..] && q == [q[0]] + q[1..];
    }
  }

  /** A page has as many rows as there is room for and as there are. */
  lemma PageSize(t: Table, ks: set<nat>, limit: nat, page: seq<nat>)
    requires ks <= t.Keys && IsPage(t, ks, limit, page)
    ensures |page| == if limit < |ks| then limit else |ks|
    ensures |ks| <= limit ==> forall k :: k in ks ==> k in page
  {
    PageIsDistinct(t, ks, limit, page);
    DistinctSize(page);
    var shown := set k | k in page;
    SubsetSize(shown, ks);
    if |page| < limit {
      assert shown == ks;
    }
  }

  lemma PageTail(t: Table, ks: set<nat>, limit: nat, p: seq<nat>)
    requires ks <= t.Keys && IsPage(t, ks, limit, p) && p != []
    ensures IsPage(t, ks - {p[0]}, limit - 1, p[1..])
  {
    forall k | k in p[1..]
      ensures k in ks - {p[0]}
    {
      var i :| 0 <= i < |p[1..]| && p[1..][i] == k;
      assert p[i + 1] == k && Before(t, p[0], p[i + 1]);
    }
    assert forall k :: k in p ==> k == p[0] || k in p[1..];
  }

  // ----- the batch -----

  /** Every row of the page has the same stamp. */
  predicate OneStamp(t: Table, page: seq<nat>)
    requires forall k :: k in page ==> k in t
  {
    |set k | k in page :: t[k].stamp| == 1
  }

  /**
   What goes next, from beyond the cursor. A full page of a mutable table whose rows all share a
   stamp is read again without the limit.
  */
  function ReadBatch(t: Table, byId: bool, cursor: int, limit: nat): (batch: seq<nat>)
    ensures forall k :: k in batch ==> k in t
  {
    var page := FirstRows(t, Above(t, cursor), limit);
    if !byId && |page| == limit && OneStamp(t, page) then
      var stuck := t[page[0]].stamp;
      FirstRows(t, Stamped(t, stuck), |Stamped(t, stuck)|)
    else page
  }

  /** The stamp the cursor moves to. */
  function LastStamp(t: Table, batch: seq<nat>): int
    requires batch != [] && forall k :: k in batch ==> k in t
  {
    t[batch[|batch| - 1]].stamp
  }

  /**
   The one dangerous batch: full, of more than one stamp, and the next row in
   cursor order beyond it has the stamp of its last row.
  */
  ghost predicate EndsInsideGroup(t: Table, byId: bool, cursor: int, limit: nat) {
    var page := FirstRows(t, Above(t, cursor), limit);
    && |page| == limit && limit > 0
    && (byId || !OneStamp(t, page))
    && exists k :: k in Above(t, cursor) && k !in page && t[k].stamp == LastStamp(t, page)
  }

  /** Everything stamped beyond the old cursor and up to the new one is in the batch. */
  ghost predicate Covers(t: Table, batch: seq<nat>, cursor: int)
    requires batch != [] && forall k :: k in batch ==> k in t
  {
    forall k :: k in t && cursor < t[k].stamp <= LastStamp(t, batch) ==> k in batch
  }

  lemma StampsOf(t: Table, page: seq<nat>)
    requires page != [] && forall k :: k in page ==> k in t
    ensures OneStamp(t, page) <==> forall k :: k in page ==> t[k].stamp == LastStamp(t, page)
  {
    var stamps := set k | k in page :: t[k].stamp;
    var last := page[|page| - 1];
    assert last in page && t[last].stamp in stamps;
    SubsetSize({t[last].stamp}, stamps);
    if OneStamp(t, page) {
      assert stamps == {t[last].stamp};
      assert forall k :: k in page ==> t[k].stamp in stamps;
    }
    if forall k :: k in page ==> t[k].stamp == t[last].stamp {
      assert stamps == {t[last].stamp};
    }
  }

  /** The whole of a group read again ends where it began. */
  lemma RereadIsTheGroup(t: Table, cursor: int, limit: nat)
    requires limit > 0
    requires var page := FirstRows(t, Above(t, cursor), limit);
             |page| == limit && OneStamp(t, page)
    ensures var page := FirstRows(t, Above(t, cursor), limit);
            var batch := ReadBatch(t, false, cursor, limit);
            && page != [] && batch != []
            && LastStamp(t, batch) == LastStamp(t, page) > cursor
            && (forall k :: k in batch <==> k in Stamped(t, LastStamp(t, page)))
            && |batch| >= limit
  {
    hide FirstRows, OneStamp;
    var page := FirstRows(t, Above(t, cursor), limit);
    var last := page[|page| - 1];
    assert last in page && page[0] in page;
    StampsOf(t, page);
    var group := Stamped(t, t[last].stamp);
    var batch := FirstRows(t, group, |group|);
    assert ReadBatch(t, false, cursor, limit) == batch;
    PageSize(t, group, |group|, batch);
    assert last in group;
    assert batch[|batch| - 1] in batch;
    PageInsideGroup(t, cursor, limit, page, group);
  }

  lemma PageInsideGroup(t: Table, cursor: int, limit: nat, page: seq<nat>, group: set<nat>)
    requires IsPage(t, Above(t, cursor), limit, page) && forall k :: k in page ==> k in group
    ensures |page| <= |group|
  {
    PageIsDistinct(t, Above(t, cursor), limit, page);
    DistinctSize(page);
    SubsetSize((set k | k in page), group);
  }

  lemma PageIsDistinct(t: Table, ks: set<nat>, limit: nat, page: seq<nat>)
    requires ks <= t.Keys && IsPage(t, ks, limit, page)
    ensures NoDuplicates(page)
  {
    forall i, j | 0 <= i < j < |page|
      ensures page[i] != page[j]
    {
      assert Before(t, page[i], page[j]);
    }
  }

  /** A batch is empty only when nothing lies beyond the cursor, and it always moves the cursor on. */
  lemma {:induction false} BatchAdvances(t: Table, byId: bool, cursor: int, limit: nat)
    requires limit > 0
    ensures var batch := ReadBatch(t, byId, cursor, limit);
            && (batch == [] <==> Above(t, cursor) == {})
            && (forall k :: k in batch ==> k in Above(t, cursor))
            && (batch != [] ==> LastStamp(t, batch) > cursor)
            && (forall k :: k in batch ==> t[k].stamp <= LastStamp(t, batch))
            && NoDuplicates(batch)
            && (|batch| < limit ==> forall k :: k in Above(t, cursor) ==> k in batch)
  {
    var page := FirstRows(t, Above(t, cursor), limit);
    PageIsDistinct(t, Above(t, cursor), limit, page);
    if page != [] {
      assert page[|page| - 1] in page;
      StampsOf(t, page);
    }
    if !byId && |page| == limit && OneStamp(t, page) {
      RereadIsTheGroup(t, cursor, limit);
      var batch := ReadBatch(t, byId, cursor, limit);
      var group := Stamped(t, LastStamp(t, page));
      PageIsDistinct(t, group, |group|, batch);
    } else {
      assert ReadBatch(t, byId, cursor, limit) == page;
      forall k | k in page
        ensures t[k].stamp <= LastStamp(t, page)
      {
        var i :| 0 <= i < |page| && page[i] == k;
        assert i < |page| - 1 ==> Before(t, page[i], page[|page| - 1]);
      }
    }
  }

  /** The cursor passes no row by exactly when the batch does not end inside a group of equal stamps. */
  lemma {:induction false} BatchCoversIff(t: Table, byId: bool, cursor: int, limit: nat)
    requires limit > 0 && Above(t, cursor) != {}
    ensures var batch := ReadBatch(t, byId, cursor, limit);
            batch != [] && (Covers(t, batch, cursor) <==> !EndsInsideGroup(t, byId, cursor, limit))
  {
    BatchAdvances(t, byId, cursor, limit);
    var page := FirstRows(t, Above(t, cursor), limit);
    var batch := ReadBatch(t, byId, cursor, limit);
    if !byId && |page| == limit && OneStamp(t, page) {
      RereadIsTheGroup(t, cursor, limit);
      StampsOf(t, page);
      forall k | k in t && cursor < t[k].stamp <= LastStamp(t, batch)
        ensures k in batch
      {
        if k !in page {
          assert page[|page| - 1] in page;
          assert Before(t, page[|page| - 1], k);
        }
      }
    } else {
      var last := page[|page| - 1];
      assert last in page;
      if !Covers(t, batch, cursor) {
        var k :| k in t && cursor < t[k].stamp <= LastStamp(t, batch) && k !in batch;
        assert Before(t, last, k);
        assert EndsInsideGroup(t, byId, cursor, limit);
      }
    }
  }

  /** Ids are unique, so a batch of an append-only table never ends inside a group. */
  lemma IdsHaveNoGroups(t: Table, cursor: int, limit: nat)
    requires forall k :: k in t ==> t[k].stamp == k
    ensures !EndsInsideGroup(t, true, cursor, limit)
  {
    var page := FirstRows(t, Above(t, cursor), limit);
    if |page| == limit && limit > 0 {
      assert page[|page| - 1] in page;
    }
  }

  /** One row stamped 1 and `limit` rows stamped 2. */
  ghost function OneThenMany(limit: nat): Table {
    var ks := Range(limit + 1);
    map k | k in ks :: Row(if k == 0 then 1 else 2, Content(None, {}, ""))
  }

  /** Whatever the batch size from two up, there is a table on which a batch passes a row by. */
  lemma SomeRowIsPassedBy(limit: nat)
    requires limit >= 2
    ensures EndsInsideGroup(OneThenMany(limit), false, 0, limit)
    ensures !Covers(OneThenMany(limit), ReadBatch(OneThenMany(limit), false, 0, limit), 0)
  {
    var t := OneThenMany(limit);
    var page := FirstRows(t, Above(t, 0), limit);
    assert Above(t, 0) == Range(limit + 1);
    PageSize(t, Above(t, 0), limit, page);
    PageIsDistinct(t, Above(t, 0), limit, page);
    var last := page[|page| - 1];
    assert last in page && page[0] in page;
    assert Before(t, page[0], last);
    assert last != 0;
    assert 0 in page by {
      assert 0 in t && !Before(t, last, 0);
    }
    DistinctSize(page);
    assert exists k :: k in Above(t, 0) && k !in page by {
      if forall k :: k in Above(t, 0) ==> k in page {
        SubsetSize(Above(t, 0), (set k | k in page));
      }
    }
    StampsOf(t, page);
    BatchCoversIff(t, false, 0, limit);
  }
}
