/**
 The debouncer over whole runs: reads arrive, rounds consume them, and the process
 may crash or be stopped between any two steps. What a round finishes is written in
 one transaction with the cursor; open groups live in memory only.
*/
module DebounceRuns {
  import opened Basics
  import opened Transitions
  import opened Grouping
  import opened Segments
  import opened DebounceMachine

  const FETCH_BATCH: nat := 5000

  datatype Config = Config(portalOf: map<int, Portal>, quiet: Time, rssiFloor: int, minReadCount: nat)

  /**
   Raw reads in id order, the saved cursor, every group finished up to it (kept or
   rejected), and the groups open in memory.
  */
  datatype System = System(store: seq<Read>, cursor: nat, settled: seq<Finished>, groups: map<Key, Burst>)

  const START := System([], 0, [], map[])

  // ----- fetching -----

  function UpTo(store: seq<Read>, cursor: nat): (r: seq<Read>)
    ensures forall i :: 0 <= i < |r| ==> r[i].id <= cursor
  {
    if store == [] then []
    else
      var r := store[|store| - 1];
      UpTo(store[..|store| - 1], cursor) + if r.id <= cursor then [r] else []
  }

  function After(store: seq<Read>, cursor: nat): (r: seq<Read>)
    ensures forall i :: 0 <= i < |r| ==> r[i].id > cursor
  {
    if store == [] then []
    else
      var r := store[|store| - 1];
      After(store[..|store| - 1], cursor) + if r.id > cursor then [r] else []
  }

  function First(rows: seq<Read>, n: nat): seq<Read> {
    if |rows| <= n then rows else rows[..n]
  }

  /** The reads a round works on. */
  function Fetch(store: seq<Read>, cursor: nat): seq<Read> {
    First(After(store, cursor), FETCH_BATCH)
  }

  function HighestId(rows: seq<Read>, cursor: nat): nat {
    if rows == [] then cursor else rows[|rows| - 1].id
  }

  // ----- steps -----

  datatype Event = Arrive(r: Read) | Round(order: seq<Key>) | Stop(order: seq<Key>) | Crash

  /** New reads get ids above every stored one; a graceful stop closes every open group. */
  ghost predicate Enabled(s: System, e: Event) {
    match e
    case Arrive(r) => r.id > HighestId(s.store, 0)
    case Round(order) => true
    case Stop(order) => forall key :: key in s.groups ==> key in order
    case Crash => true
  }

  function Step(s: System, e: Event, c: Config): System {
    match e
    case Arrive(r) => s.(store := s.store + [r])
    case Round(order) =>
      var rows := Fetch(s.store, s.cursor);
      var t := CloseAll(AbsorbAll(State(s.groups, s.settled), rows, c.portalOf, c.quiet), order);
      System(s.store, HighestId(rows, s.cursor), t.finished, t.groups)
    case Stop(order) =>
      var t := CloseAll(State(s.groups, s.settled), order);
      System(s.store, s.cursor, t.finished, t.groups)
    case Crash => s.(groups := map[])
  }

  function Run(s: System, events: seq<Event>, c: Config): System {
    if events == [] then s else Step(Run(s, events[..|events| - 1], c), events[|events| - 1], c)
  }

  ghost predicate Allowed(s: System, events: seq<Event>, c: Config) {
    forall i :: 0 <= i < |events| ==> Enabled(Run(s, events[..i], c), events[i])
  }

  lemma AllowedFront(s: System, events: seq<Event>, c: Config)
    requires events != [] && Allowed(s, events, c)
    ensures var n := |events| - 1;
            Allowed(s, events[..n], c) && Enabled(Run(s, events[..n], c), events[n])
  {
    var n := |events| - 1;
    forall i | 0 <= i < n
      ensures Enabled(Run(s, events[..n][..i], c), events[..n][i])
    {
      assert events[..n][..i] == events[..i];
    }
  }

  // ----- what is held for a tag -----

  /** A tag's reads in finished groups, then those in its open one. */
  function Held(s: System, key: Key): seq<Read> {
    Flatten(BurstsOf(s.settled, key)) + Current(State(s.groups, s.settled), key)
  }

  function HeldIn(s: Segmentation): seq<Read> {
    Flatten(s.done) + s.current
  }

  lemma ItemHeld(t: Segmentation, r: Read, quiet: Time)
    ensures HeldIn(Taken(t, r, quiet)) == HeldIn(t) + [r]
    ensures HeldIn(Ended(t)) == HeldIn(t)
  {
    FlattenMore(t.done, t.current);
  }

  lemma {:induction false} SegmentFromKeepsEveryRead(s: Segmentation, trace: seq<Item>, quiet: Time)
    ensures HeldIn(SegmentFrom(s, trace, quiet)) == HeldIn(s) + ReadsOf(trace)
  {
    if trace == [] {
      assert HeldIn(s) + [] == HeldIn(s);
    } else {
      var front, item := trace[..|trace| - 1], trace[|trace| - 1];
      SegmentFromKeepsEveryRead(s, front, quiet);
      var t := SegmentFrom(s, front, quiet);
      match item
      case Take(r) =>
        ItemHeld(t, r, quiet);
        assert ReadsOf(trace) == ReadsOf(front) + [r];
      case Cut =>
        ItemHeld(t, Read(0, "", 0, None, 0.0), quiet);
        assert ReadsOf(trace) == ReadsOf(front);
    }
  }

  /** A round adds a tag's own fetched reads to what is held for it, and drops none. */
  lemma RoundHolds(s: System, order: seq<Key>, c: Config, key: Key)
    ensures Held(Step(s, Round(order), c), key) ==
            Held(s, key) + OwnReads(Fetch(s.store, s.cursor), key, c.portalOf)
  {
    var rows, s0 := Fetch(s.store, s.cursor), State(s.groups, s.settled);
    var own := OwnReads(rows, key, c.portalOf);
    var s1 := AbsorbAll(s0, rows, c.portalOf, c.quiet);
    AbsorbAllView(s0, rows, key, c.portalOf, c.quiet);
    SegmentFromKeepsEveryRead(View(s0, key), Takes(own), c.quiet);
    NoneLateWithoutSilence(own, c.quiet);
    CloseHolds(s1, order, key, c.quiet);
  }

  lemma CloseHolds(s: State, order: seq<Key>, key: Key, quiet: Time)
    ensures HeldIn(View(CloseAll(s, order), key)) == HeldIn(View(s, key))
  {
    CloseAllView(s, order, key, quiet);
    SegmentFromKeepsEveryRead(View(s, key), OwnCuts(order, key), quiet);
    CutsHoldNoReads(order, key);
  }

  // ----- ids -----

  ghost predicate Rising(rows: seq<Read>) {
    forall i, j :: 0 <= i < j < |rows| ==> rows[i].id < rows[j].id
  }

  /** What is held for a tag are stored reads of that tag, in id order, none past the cursor. */
  ghost predicate InPlace(s: System, key: Key, portalOf: map<int, Portal>) {
    && Rising(Held(s, key))
    && forall i :: 0 <= i < |Held(s, key)| ==>
         var r := Held(s, key)[i];
         r.id <= s.cursor && r in s.store && KeyOf(r, portalOf) == Some(key)
  }

  ghost predicate Inv(s: System, c: Config) {
    && Rising(s.store)
    && (forall r :: r in s.store ==> r.id > 0)
    && s.cursor <= HighestId(s.store, 0)
    && forall key :: InPlace(s, key, c.portalOf)
  }

  lemma StoreLonger(front: seq<Read>, r: Read, cursor: nat)
    ensures After(front + [r], cursor) == if r.id > cursor then After(front, cursor) + [r] else After(front, cursor)
    ensures UpTo(front + [r], cursor) == if r.id <= cursor then UpTo(front, cursor) + [r] else UpTo(front, cursor)
  {
    assert (front + [r])[..|front|] == front;
  }

  lemma {:induction false} AfterIn(store: seq<Read>, cursor: nat, r: Read)
    ensures r in After(store, cursor) <==> r in store && r.id > cursor
  {
    if store != [] {
      var front, last := store[..|store| - 1], store[|store| - 1];
      AfterIn(front, cursor, r);
      assert store == front + [last];
      StoreLonger(front, last, cursor);
    }
  }

  lemma {:induction false} AfterRises(store: seq<Read>, cursor: nat)
    requires Rising(store)
    ensures Rising(After(store, cursor))
  {
    if store != [] {
      var front, last := store[..|store| - 1], store[|store| - 1];
      AfterRises(front, cursor);
      assert store == front + [last];
      StoreLonger(front, last, cursor);
      forall i | 0 <= i < |After(front, cursor)|
        ensures After(front, cursor)[i].id < last.id
      {
        AfterIn(front, cursor, After(front, cursor)[i]);
      }
    }
  }

  lemma {:induction false} OwnReadsIn(rows: seq<Read>, key: Key, portalOf: map<int, Portal>, r: Read)
    ensures r in OwnReads(rows, key, portalOf) <==> r in rows && KeyOf(r, portalOf) == Some(key)
  {
    if rows != [] {
      OwnReadsIn(rows[..|rows| - 1], key, portalOf, r);
      assert rows == rows[..|rows| - 1] + [rows[|rows| - 1]];
    }
  }

  lemma OwnReadsLonger(front: seq<Read>, last: Read, key: Key, portalOf: map<int, Portal>)
    ensures OwnReads(front + [last], key, portalOf) ==
            OwnReads(front, key, portalOf) + if KeyOf(last, portalOf) == Some(key) then [last] else []
  {
    assert (front + [last])[..|front|] == front;
  }

  lemma {:induction false} OwnReadsRise(rows: seq<Read>, key: Key, portalOf: map<int, Portal>)
    requires Rising(rows)
    ensures Rising(OwnReads(rows, key, portalOf))
  {
    if rows != [] {
      var front, last := rows[..|rows| - 1], rows[|rows| - 1];
      OwnReadsRise(front, key, portalOf);
      var own := OwnReads(front, key, portalOf);
      forall i | 0 <= i < |own|
        ensures own[i].id < last.id
      {
        OwnReadsIn(front, key, portalOf, own[i]);
        var k :| 0 <= k < |front| && front[k] == own[i];
        assert rows[k].id < rows[|front|].id;
      }
      assert rows == front + [last];
      OwnReadsLonger(front, last, key, portalOf);
      hide OwnReads;
    }
  }

  lemma FetchRises(store: seq<Read>, cursor: nat)
    requires Rising(store) && cursor <= HighestId(store, 0)
    ensures var rows := Fetch(store, cursor);
            && Rising(rows)
            && (forall r :: r in rows ==> r in store && cursor < r.id <= HighestId(rows, cursor))
            && cursor <= HighestId(rows, cursor) <= HighestId(store, 0)
  {
    AfterRises(store, cursor);
    var all, rows := After(store, cursor), Fetch(store, cursor);
    forall i | 0 <= i < |rows|
      ensures rows[i] in store && cursor < rows[i].id
    {
      assert rows[i] == all[i];
      AfterIn(store, cursor, rows[i]);
    }
    if rows != [] {
      IsBelowHighest(store, rows[|rows| - 1]);
    }
  }

  lemma IsBelowHighest(store: seq<Read>, r: Read)
    requires Rising(store) && r in store
    ensures r.id <= HighestId(store, 0)
  {
    var k :| 0 <= k < |store| && store[k] == r;
  }

  lemma RisingConcat(a: seq<Read>, b: seq<Read>)
    requires Rising(a) && Rising(b)
    requires forall x, y :: x in a && y in b ==> x.id < y.id
    ensures Rising(a + b)
  {
  }

  lemma RoundKeepsPlace(s: System, order: seq<Key>, c: Config, key: Key)
    requires Inv(s, c)
    ensures InPlace(Step(s, Round(order), c), key, c.portalOf)
  {
    var rows := Fetch(s.store, s.cursor);
    var own := OwnReads(rows, key, c.portalOf);
    FetchRises(s.store, s.cursor);
    OwnReadsRise(rows, key, c.portalOf);
    forall r
      ensures r in own <==> r in rows && KeyOf(r, c.portalOf) == Some(key)
    {
      OwnReadsIn(rows, key, c.portalOf, r);
    }
    RoundHolds(s, order, c, key);
    assert InPlace(s, key, c.portalOf);
    RisingConcat(Held(s, key), own);
    var t := Step(s, Round(order), c);
    forall i | 0 <= i < |Held(t, key)|
      ensures var r := Held(t, key)[i]; r.id <= t.cursor && r in t.store && KeyOf(r, c.portalOf) == Some(key)
    {
      if i >= |Held(s, key)| {
        assert own[i - |Held(s, key)|] in own;
      }
    }
  }

  lemma StepKeepsPlace(s: System, e: Event, c: Config, key: Key)
    requires Inv(s, c) && Enabled(s, e)
    ensures InPlace(Step(s, e, c), key, c.portalOf)
  {
    assert InPlace(s, key, c.portalOf);
    match e
    case Arrive(r) =>
      assert forall x :: x in s.store ==> x in s.store + [r];
    case Round(order) => RoundKeepsPlace(s, order, c, key);
    case Stop(order) => CloseHolds(State(s.groups, s.settled), order, key, c.quiet);
    case Crash =>
      var left := Flatten(BurstsOf(s.settled, key));
      assert Held(Step(s, e, c), key) == left;
      assert forall i :: 0 <= i < |left| ==> left[i] == Held(s, key)[i];
  }

  lemma StepKeeps(s: System, e: Event, c: Config)
    requires Inv(s, c) && Enabled(s, e)
    ensures Inv(Step(s, e, c), c)
  {
    forall key
      ensures InPlace(Step(s, e, c), key, c.portalOf)
    {
      StepKeepsPlace(s, e, c, key);
    }
    FetchRises(s.store, s.cursor);
  }

  lemma {:induction false} RunKeeps(s: System, events: seq<Event>, c: Config)
    requires Inv(s, c) && Allowed(s, events, c)
    ensures Inv(Run(s, events, c), c)
  {
    if events != [] {
      AllowedFront(s, events, c);
      RunKeeps(s, events[..|events| - 1], c);
      StepKeeps(Run(s, events[..|events| - 1], c), events[|events| - 1], c);
    }
  }

  lemma StartInv(c: Config)
    ensures Inv(START, c)
  {
    forall key
      ensures InPlace(START, key, c.portalOf)
    {
      assert Held(START, key) == [];
    }
  }

  // ----- each read is used once -----

  /** Where a finished group's reads start among the finished reads of its tag. */
  function Offset(settled: seq<Finished>, i: nat): nat
    requires i < |settled|
  {
    |Flatten(BurstsOf(settled[..i], settled[i].key))|
  }

  lemma {:induction false} OffsetFinds(settled: seq<Finished>, i: nat)
    requires i < |settled|
    ensures var all := Flatten(BurstsOf(settled, settled[i].key));
            && Offset(settled, i) + |settled[i].burst| <= |all|
            && forall a :: 0 <= a < |settled[i].burst| ==> all[Offset(settled, i) + a] == settled[i].burst[a]
  {
    var n, key := |settled| - 1, settled[i].key;
    var front, last := settled[..n], settled[n];
    BurstsMore(front, last, key);
    assert settled == front + [last];
    FlattenMore(BurstsOf(front, key), last.burst);
    if i < n {
      OffsetFinds(front, i);
      assert front[..i] == settled[..i];
      assert BurstsOf(front, key) + [] == BurstsOf(front, key);
    }
  }

  lemma LaterGroupsComeAfter(settled: seq<Finished>, i: nat, j: nat)
    requires i < j < |settled| && settled[i].key == settled[j].key
    ensures Offset(settled, i) + |settled[i].burst| <= Offset(settled, j)
  {
    OffsetFinds(settled[..j], i);
    assert settled[..j][..i] == settled[..i];
  }

  lemma SameTag(s: System, c: Config, i: nat, a: nat)
    requires Inv(s, c) && i < |s.settled| && a < |s.settled[i].burst|
    ensures s.settled[i].burst[a] in s.store && KeyOf(s.settled[i].burst[a], c.portalOf) == Some(s.settled[i].key)
    ensures Offset(s.settled, i) + a < |Held(s, s.settled[i].key)|
    ensures Held(s, s.settled[i].key)[Offset(s.settled, i) + a] == s.settled[i].burst[a]
  {
    OffsetFinds(s.settled, i);
    var held := Held(s, s.settled[i].key);
    assert InPlace(s, s.settled[i].key, c.portalOf);
    assert held[Offset(s.settled, i) + a] == s.settled[i].burst[a];
  }

  lemma SameIdSameRead(store: seq<Read>, r: Read, q: Read)
    requires Rising(store) && r in store && q in store && r.id == q.id
    ensures r == q
  {
    var i :| 0 <= i < |store| && store[i] == r;
    var j :| 0 <= j < |store| && store[j] == q;
  }

  /**
   With crashes and restarts between any two steps, a stored read ends up in at most
   one finished group, and there at most once.
  */
  lemma {:induction false} EachReadIsUsedOnce(events: seq<Event>, c: Config, i: nat, a: nat, j: nat, b: nat)
    requires Allowed(START, events, c)
    requires var settled := Run(START, events, c).settled;
             && i < |settled| && a < |settled[i].burst|
             && j < |settled| && b < |settled[j].burst|
             && settled[i].burst[a].id == settled[j].burst[b].id
    ensures i == j && a == b
  {
    var s := Run(START, events, c);
    StartInv(c);
    RunKeeps(START, events, c);
    SameTag(s, c, i, a);
    SameTag(s, c, j, b);
    SameIdSameRead(s.store, s.settled[i].burst[a], s.settled[j].burst[b]);
    var key := s.settled[i].key;
    assert key == s.settled[j].key;
    assert InPlace(s, key, c.portalOf);
    assert Offset(s.settled, i) + a == Offset(s.settled, j) + b;
    if i < j {
      LaterGroupsComeAfter(s.settled, i, j);
      assert false;
    } else if j < i {
      LaterGroupsComeAfter(s.settled, j, i);
      assert false;
    }
  }

  // ----- without a crash nothing is lost -----

  lemma CutLonger(front: seq<Read>, last: Read, cursor: nat)
    requires front == UpTo(front, cursor) + After(front, cursor) && Rising(front + [last])
    ensures front + [last] == UpTo(front + [last], cursor) + After(front + [last], cursor)
  {
    hide UpTo, After, HighestId;
    StoreLonger(front, last, cursor);
    if last.id <= cursor {
      forall i | 0 <= i < |front|
        ensures front[i].id <= cursor
      {
        assert (front + [last])[i].id < (front + [last])[|front|].id;
      }
      NoneAfter(front, cursor);
    } else {
      assert front + [last] == UpTo(front, cursor) + (After(front, cursor) + [last]);
    }
  }

  lemma {:induction false} CutInTwo(store: seq<Read>, cursor: nat)
    requires Rising(store)
    ensures store == UpTo(store, cursor) + After(store, cursor)
  {
    if store != [] {
      var front, last := store[..|store| - 1], store[|store| - 1];
      CutInTwo(front, cursor);
      assert store == front + [last];
      CutLonger(front, last, cursor);
    }
  }

  lemma {:induction false} NoneAfter(store: seq<Read>, cursor: nat)
    requires forall i :: 0 <= i < |store| ==> store[i].id <= cursor
    ensures After(store, cursor) == [] && UpTo(store, cursor) == store
  {
    if store != [] {
      var front, last := store[..|store| - 1], store[|store| - 1];
      NoneAfter(front, cursor);
      assert store == front + [last];
      StoreLonger(front, last, cursor);
      hide After, UpTo;
    }
  }

  lemma {:induction false} UpToConcat(a: seq<Read>, b: seq<Read>, cursor: nat)
    requires forall i :: 0 <= i < |a| ==> a[i].id <= cursor
    requires forall i :: 0 <= i < |b| ==> b[i].id > cursor
    ensures UpTo(a + b, cursor) == a
  {
    if b == [] {
      assert a + b == a;
      NoneAfter(a, cursor);
    } else {
      UpToConcat(a, b[..|b| - 1], cursor);
      assert (a + b)[..|a + b| - 1] == a + b[..|b| - 1];
    }
  }

  /** The reads up to the new cursor are those up to the old one and the fetched ones. */
  lemma FetchMovesTheCursor(store: seq<Read>, cursor: nat)
    requires Rising(store) && cursor <= HighestId(store, 0)
    ensures var rows := Fetch(store, cursor);
            UpTo(store, HighestId(rows, cursor)) == UpTo(store, cursor) + rows
  {
    hide UpTo, After;
    var before, all, rows := UpTo(store, cursor), After(store, cursor), Fetch(store, cursor);
    var rest := all[|rows|..];
    CutInTwo(store, cursor);
    assert store == (before + rows) + rest;
    FetchRises(store, cursor);
    assert forall i :: 0 <= i < |rows| ==> rows[i] in rows;
    RestIsHigher(store, cursor);
    UpToConcat(before + rows, rest, HighestId(rows, cursor));
  }

  lemma RestIsHigher(store: seq<Read>, cursor: nat)
    requires Rising(store)
    ensures var all, rows := After(store, cursor), Fetch(store, cursor);
            forall i :: |rows| <= i < |all| ==> all[i].id > HighestId(rows, cursor)
  {
    AfterRises(store, cursor);
  }

  /** Everything stored up to the cursor is held for its tag, in order. */
  ghost predicate NothingLost(s: System, c: Config) {
    forall key :: Held(s, key) == OwnReads(UpTo(s.store, s.cursor), key, c.portalOf)
  }

  lemma StepLosesNothing(s: System, e: Event, c: Config)
    requires Inv(s, c) && Enabled(s, e) && e != Crash && NothingLost(s, c)
    ensures NothingLost(Step(s, e, c), c)
  {
    var t := Step(s, e, c);
    forall key
      ensures Held(t, key) == OwnReads(UpTo(t.store, t.cursor), key, c.portalOf)
    {
      match e
      case Arrive(r) =>
        assert (s.store + [r])[..|s.store|] == s.store;
        assert UpTo(s.store + [r], s.cursor) == UpTo(s.store, s.cursor);
      case Round(order) =>
        RoundHolds(s, order, c, key);
        FetchMovesTheCursor(s.store, s.cursor);
        OwnReadsConcat(UpTo(s.store, s.cursor), Fetch(s.store, s.cursor), key, c.portalOf);
      case Stop(order) => CloseHolds(State(s.groups, s.settled), order, key, c.quiet);
    }
  }

  /**
   Without a crash the reads up to the cursor are all accounted for, tag by tag, each
   once and in order: in finished groups, kept or rejected, and then in the open one.
  */
  lemma {:induction false} WithoutCrashNothingIsLost(events: seq<Event>, c: Config, key: Key)
    requires Allowed(START, events, c) && Crash !in events
    ensures var s := Run(START, events, c);
            Held(s, key) == OwnReads(UpTo(s.store, s.cursor), key, c.portalOf)
  {
    RunLosesNothing(events, c);
  }

  function Counted(settled: seq<Finished>, key: Key): nat {
    if settled == [] then 0
    else
      var f := settled[|settled| - 1];
      Counted(settled[..|settled| - 1], key) + if f.key == key then TotalsOf(f.burst).readCount else 0
  }

  lemma {:induction false} CountsAreReads(settled: seq<Finished>, key: Key)
    ensures Counted(settled, key) == |Flatten(BurstsOf(settled, key))|
  {
    if settled != [] {
      var front, f := settled[..|settled| - 1], settled[|settled| - 1];
      CountsAreReads(front, key);
      assert settled == front + [f];
      BurstsMore(front, f, key);
      FlattenMore(BurstsOf(front, key), f.burst);
      TotalsSummarise(f.burst);
      assert BurstsOf(front, key) + [] == BurstsOf(front, key);
    }
  }

  /** The counts, which are all the observations keep, add up to the reads consumed. */
  lemma CountsAddUp(events: seq<Event>, c: Config, key: Key)
    requires Allowed(START, events, c) && Crash !in events
    ensures var s := Run(START, events, c);
            Counted(s.settled, key) + |Current(State(s.groups, s.settled), key)| ==
            |OwnReads(UpTo(s.store, s.cursor), key, c.portalOf)|
  {
    WithoutCrashNothingIsLost(events, c, key);
    CountsAreReads(Run(START, events, c).settled, key);
  }

  lemma {:induction false} RunLosesNothing(events: seq<Event>, c: Config)
    requires Allowed(START, events, c) && Crash !in events
    ensures NothingLost(Run(START, events, c), c)
  {
    if events == [] {
      assert forall key :: Held(START, key) == [];
    } else {
      var n := |events| - 1;
      AllowedFront(START, events, c);
      RunLosesNothing(events[..n], c);
      StartInv(c);
      RunKeeps(START, events[..n], c);
      assert events[n] in events;
      StepLosesNothing(Run(START, events[..n], c), events[n], c);
    }
  }

  // ----- what a crash loses -----

  /** A tag's reads in finished groups. */
  function Settled(s: System, key: Key): seq<Read> {
    Flatten(BurstsOf(s.settled, key))
  }

  lemma {:induction false} DoneGrows(s: Segmentation, trace: seq<Item>, quiet: Time)
    ensures Flatten(s.done) <= Flatten(SegmentFrom(s, trace, quiet).done)
  {
    if trace != [] {
      var t := SegmentFrom(s, trace[..|trace| - 1], quiet);
      DoneGrows(s, trace[..|trace| - 1], quiet);
      FlattenMore(t.done, t.current);
    }
  }

  lemma AbsorbSettles(s: State, rows: seq<Read>, order: seq<Key>, c: Config, key: Key)
    ensures var t := CloseAll(AbsorbAll(s, rows, c.portalOf, c.quiet), order);
            Flatten(BurstsOf(s.finished, key)) <= Flatten(BurstsOf(t.finished, key))
  {
    var mid := AbsorbAll(s, rows, c.portalOf, c.quiet);
    AbsorbAllView(s, rows, key, c.portalOf, c.quiet);
    DoneGrows(View(s, key), Takes(OwnReads(rows, key, c.portalOf)), c.quiet);
    CloseAllView(mid, order, key, c.quiet);
    DoneGrows(View(mid, key), OwnCuts(order, key), c.quiet);
  }

  /** What a tag had settled stays, and what it holds of reads up to this cursor was held already. */
  ghost predicate NothingReturns(s: System, t: System, key: Key) {
    && s.cursor <= t.cursor
    && Settled(s, key) <= Settled(t, key)
    && forall r :: r in Held(t, key) && r.id <= s.cursor ==> r in Held(s, key)
  }

  lemma StepReturnsNothing(s: System, e: Event, c: Config, key: Key)
    requires Inv(s, c) && Enabled(s, e)
    ensures NothingReturns(s, Step(s, e, c), key)
  {
    match e
    case Arrive(r) =>
    case Round(order) =>
      var rows := Fetch(s.store, s.cursor);
      FetchRises(s.store, s.cursor);
      forall r
        ensures r in OwnReads(rows, key, c.portalOf) ==> r in rows
      {
        OwnReadsIn(rows, key, c.portalOf, r);
      }
      RoundHolds(s, order, c, key);
      AbsorbSettles(State(s.groups, s.settled), rows, order, c, key);
    case Stop(order) =>
      CloseHolds(State(s.groups, s.settled), order, key, c.quiet);
      assert AbsorbAll(State(s.groups, s.settled), [], c.portalOf, c.quiet) == State(s.groups, s.settled);
      AbsorbSettles(State(s.groups, s.settled), [], order, c, key);
    case Crash =>
      assert Held(Step(s, e, c), key) == Settled(s, key);
  }

  lemma {:induction false} RunReturnsNothing(s: System, events: seq<Event>, c: Config, key: Key)
    requires Inv(s, c) && Allowed(s, events, c)
    ensures NothingReturns(s, Run(s, events, c), key)
  {
    if events != [] {
      var n := |events| - 1;
      AllowedFront(s, events, c);
      RunReturnsNothing(s, events[..n], c, key);
      RunKeeps(s, events[..n], c);
      StepReturnsNothing(Run(s, events[..n], c), events[n], c, key);
    }
  }

  lemma SettledIsHeld(s: System, c: Config, key: Key, r: Read)
    requires InPlace(s, key, c.portalOf)
    ensures r in Held(s, key) <==> r in Settled(s, key) || r in Current(State(s.groups, s.settled), key)
    ensures !(r in Settled(s, key) && r in Current(State(s.groups, s.settled), key))
  {
    var done, current := Settled(s, key), Current(State(s.groups, s.settled), key);
    forall i, j | 0 <= i < |done| && 0 <= j < |current|
      ensures done[i].id < current[j].id
    {
      assert Held(s, key)[i].id < Held(s, key)[|done| + j].id;
    }
  }

  /**
   A crash loses exactly the open groups, whatever crashed before. Of the reads held
   for a tag, those that no finished group will ever hold, whatever runs afterwards, are
   those whose group was open.
  */
  lemma {:induction false} CrashLosesExactlyTheOpenGroups(before: seq<Event>, after: seq<Event>, c: Config, key: Key,
                                                          r: Read)
    requires Allowed(START, before, c)
    requires Allowed(Step(Run(START, before, c), Crash, c), after, c)
    requires r in Held(Run(START, before, c), key)
    ensures var s := Run(START, before, c); var t := Run(Step(s, Crash, c), after, c);
            r !in Settled(t, key) <==> r in Current(State(s.groups, s.settled), key)
  {
    var s := Run(START, before, c);
    var crashed := Step(s, Crash, c);
    var t := Run(crashed, after, c);
    StartInv(c);
    RunKeeps(START, before, c);
    StepKeeps(s, Crash, c);
    assert InPlace(s, key, c.portalOf);
    SettledIsHeld(s, c, key, r);
    RunReturnsNothing(crashed, after, c, key);
    assert Held(crashed, key) == Settled(s, key) == Settled(crashed, key);
    assert r in Settled(t, key) ==> r in Held(t, key);
  }

  /** Before the first crash, every read consumed is held, so that the loss is exactly the open groups of all reads. */
  lemma FirstCrashLosesExactlyTheOpenGroups(before: seq<Event>, after: seq<Event>, c: Config, key: Key, r: Read)
    requires Allowed(START, before, c) && Crash !in before
    requires Allowed(Step(Run(START, before, c), Crash, c), after, c)
    requires var s := Run(START, before, c); r in OwnReads(UpTo(s.store, s.cursor), key, c.portalOf)
    ensures var s := Run(START, before, c); var t := Run(Step(s, Crash, c), after, c);
            r !in Settled(t, key) <==> r in Current(State(s.groups, s.settled), key)
  {
    WithoutCrashNothingIsLost(before, c, key);
    CrashLosesExactlyTheOpenGroups(before, after, c, key, r);
  }

  /** A graceful stop leaves no group open, so that a restart loses nothing. */
  lemma StopLosesNothing(events: seq<Event>, order: seq<Key>, c: Config, key: Key)
    requires Allowed(START, events, c) && Enabled(Run(START, events, c), Stop(order))
    ensures var s := Run(START, events, c); var t := Step(s, Stop(order), c);
            && Settled(t, key) == Held(s, key)
            && (Crash !in events ==> Settled(t, key) == OwnReads(UpTo(s.store, s.cursor), key, c.portalOf))
  {
    var s := Run(START, events, c);
    if Crash !in events {
      WithoutCrashNothingIsLost(events, c, key);
    }
    CloseHolds(State(s.groups, s.settled), order, key, c.quiet);
    AllClosed(State(s.groups, s.settled), order, key);
  }

  lemma {:induction false} AllClosed(s: State, order: seq<Key>, key: Key)
    ensures Current(CloseAll(s, order), key) == if key in order then [] else Current(s, key)
  {
    if order != [] {
      var front, last := order[..|order| - 1], order[|order| - 1];
      AllClosed(s, front, key);
      assert key in order <==> key in front || key == last;
    }
  }
}
