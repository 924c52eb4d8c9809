/**
 What the debouncer owes its readers, said of the reads: a group holds reads of one tag
 at the antennas of one portal, and no other, and all of those that were consumed.
*/
module DebouncePromises {
  import opened Basics
  import opened Transitions
  import opened Grouping
  import opened Segments
  import opened DebounceMachine
  import opened DebounceRuns

  /** The reads of a tag made at the antennas of a portal, in order. */
  function ReadsAt(rows: seq<Read>, tid: string, portal: Portal, portalOf: map<int, Portal>): seq<Read> {
    if rows == [] then []
    else
      var r := rows[|rows| - 1];
      ReadsAt(rows[..|rows| - 1], tid, portal, portalOf) +
      if r.tid == tid && r.antenna in portalOf && portalOf[r.antenna] == portal then [r] else []
  }

  lemma {:induction false} OwnReadsAreReadsAt(rows: seq<Read>, key: Key, portalOf: map<int, Portal>)
    ensures OwnReads(rows, key, portalOf) == ReadsAt(rows, key.tid, key.portal, portalOf)
  {
    if rows != [] {
      OwnReadsAreReadsAt(rows[..|rows| - 1], key, portalOf);
    }
  }

  // ----- a group holds reads of its own tag -----

  /** A read of the tag of this group, at an antenna of its portal. */
  ghost predicate BelongsTo(r: Read, key: Key, portalOf: map<int, Portal>) {
    r.tid == key.tid && r.antenna in portalOf && portalOf[r.antenna] == key.portal
  }

  /** Every read of every group, finished or open, belongs there. */
  ghost predicate NoneStrays(finished: seq<Finished>, groups: map<Key, Burst>, portalOf: map<int, Portal>) {
    && (forall f, r :: f in finished && r in f.burst ==> BelongsTo(r, f.key, portalOf))
    && (forall key, r :: key in groups && r in groups[key] ==> BelongsTo(r, key, portalOf))
  }

  lemma AbsorbReadStrays(s: State, r: Read, portalOf: map<int, Portal>, quiet: Time)
    requires NoneStrays(s.finished, s.groups, portalOf)
    ensures var t := AbsorbRead(s, r, portalOf, quiet); NoneStrays(t.finished, t.groups, portalOf)
  {
    hide Latest;
  }

  lemma {:induction false} AbsorbAllStrays(s: State, rows: seq<Read>, portalOf: map<int, Portal>, quiet: Time)
    requires NoneStrays(s.finished, s.groups, portalOf)
    ensures var t := AbsorbAll(s, rows, portalOf, quiet); NoneStrays(t.finished, t.groups, portalOf)
  {
    if rows != [] {
      hide NoneStrays, AbsorbRead;
      AbsorbAllStrays(s, rows[..|rows| - 1], portalOf, quiet);
      AbsorbReadStrays(AbsorbAll(s, rows[..|rows| - 1], portalOf, quiet), rows[|rows| - 1], portalOf, quiet);
    }
  }

  lemma {:induction false} CloseAllStrays(s: State, order: seq<Key>, portalOf: map<int, Portal>)
    requires NoneStrays(s.finished, s.groups, portalOf)
    ensures var t := CloseAll(s, order); NoneStrays(t.finished, t.groups, portalOf)
  {
    if order != [] {
      CloseAllStrays(s, order[..|order| - 1], portalOf);
    }
  }

  /** However the reads are split into batches and whatever is closed between, no read strays into another group. */
  lemma {:induction false} TagsAreKeptApart(works: seq<Work>, portalOf: map<int, Portal>, quiet: Time)
    ensures var s := RunWork(works, portalOf, quiet); NoneStrays(s.finished, s.groups, portalOf)
  {
    if works != [] {
      hide NoneStrays;
      var front, w := works[..|works| - 1], works[|works| - 1];
      TagsAreKeptApart(front, portalOf, quiet);
      match w
      case Absorb(rows) => AbsorbAllStrays(RunWork(front, portalOf, quiet), rows, portalOf, quiet);
      case Close(order) => CloseAllStrays(RunWork(front, portalOf, quiet), order, portalOf);
    } else {
      assert NoneStrays([], map[], portalOf);
    }
  }

  lemma StepKeepsApart(s: System, e: Event, c: Config)
    requires NoneStrays(s.settled, s.groups, c.portalOf)
    ensures var t := Step(s, e, c); NoneStrays(t.settled, t.groups, c.portalOf)
  {
    var memory := State(s.groups, s.settled);
    match e
    case Arrive(_) =>
    case Round(order) =>
      hide NoneStrays;
      var rows := Fetch(s.store, s.cursor);
      AbsorbAllStrays(memory, rows, c.portalOf, c.quiet);
      CloseAllStrays(AbsorbAll(memory, rows, c.portalOf, c.quiet), order, c.portalOf);
    case Stop(order) => CloseAllStrays(memory, order, c.portalOf);
    case Crash =>
  }

  /** Nor over any run, with crashes, stops and restarts. */
  lemma {:induction false} RunsKeepTagsApart(events: seq<Event>, c: Config)
    ensures var s := Run(START, events, c); NoneStrays(s.settled, s.groups, c.portalOf)
  {
    if events == [] {
    } else {
      hide NoneStrays;
      RunsKeepTagsApart(events[..|events| - 1], c);
      StepKeepsApart(Run(START, events[..|events| - 1], c), events[|events| - 1], c);
    }
  }

  // ----- and all of them -----

  /** The finished groups of a tag at a portal, then its open one, hold exactly its reads up to the cursor, in order. */
  lemma GroupsHoldAllTheirReads(events: seq<Event>, c: Config, tid: string, portal: Portal)
    requires Allowed(START, events, c) && Crash !in events
    ensures var s, key := Run(START, events, c), Key(tid, portal);
            Flatten(BurstsOf(s.settled, key)) + (if key in s.groups then s.groups[key] else []) ==
            ReadsAt(UpTo(s.store, s.cursor), tid, portal, c.portalOf)
  {
    var s := Run(START, events, c);
    WithoutCrashNothingIsLost(events, c, Key(tid, portal));
    OwnReadsAreReadsAt(UpTo(s.store, s.cursor), Key(tid, portal), c.portalOf);
  }

  /** A group counts as touched now if one of the rows is a read of its tag at its portal, and otherwise as it was. */
  lemma TouchedByReadsAt(rows: seq<Read>, key: Key, portalOf: map<int, Portal>)
    ensures OwnReads(rows, key, portalOf) != [] <==> exists r :: r in rows && BelongsTo(r, key, portalOf)
  {
    forall r
      ensures r in OwnReads(rows, key, portalOf) <==> r in rows && BelongsTo(r, key, portalOf)
    {
      OwnReadsIn(rows, key, portalOf, r);
    }
    if OwnReads(rows, key, portalOf) != [] {
      assert OwnReads(rows, key, portalOf)[0] in OwnReads(rows, key, portalOf);
    }
  }

  // ----- every read is consumed -----

  /** A round takes the oldest reads past the cursor, five thousand of them or all there are. */
  lemma FetchTakesTheOldest(store: seq<Read>, cursor: nat, r: Read)
    requires Rising(store) && r in store
    ensures var rows := Fetch(store, cursor);
            && |rows| <= 5000
            && (r in rows ==> r.id > cursor)
            && (r.id > cursor && r !in rows ==> |rows| == 5000 && forall q :: q in rows ==> q.id < r.id)
  {
    AfterIn(store, cursor, r);
    AfterRises(store, cursor);
    var all, rows := After(store, cursor), Fetch(store, cursor);
    if r in rows {
      assert r in all;
    } else if r in all {
      var k :| 0 <= k < |all| && all[k] == r;
      assert forall i :: 0 <= i < |rows| ==> all[i] == rows[i] && rows[i] in rows;
    }
  }

  /** How many reads are still to be consumed. */
  function Backlog(s: System): nat {
    |After(s.store, s.cursor)|
  }

  /** Each round takes five thousand reads off the backlog, or all that is left of it. */
  lemma RoundTakesFromBacklog(s: System, order: seq<Key>, c: Config)
    requires Inv(s, c)
    ensures Backlog(Step(s, Round(order), c)) == if Backlog(s) <= 5000 then 0 else Backlog(s) - 5000
  {
    hide After, UpTo, AbsorbAll, CloseAll, InPlace;
    var rows := Fetch(s.store, s.cursor);
    FetchRises(s.store, s.cursor);
    FetchMovesTheCursor(s.store, s.cursor);
    CutInTwo(s.store, s.cursor);
    CutInTwo(s.store, HighestId(rows, s.cursor));
    assert |UpTo(s.store, HighestId(rows, s.cursor))| == |UpTo(s.store, s.cursor)| + |rows|;
  }

  /** So that, nothing new coming in, enough rounds leave every read stored in a group of its tag, open or finished. */
  lemma {:induction false} RoundsConsumeEveryRead(s: System, rounds: seq<Event>, c: Config)
    requires Inv(s, c) && (forall e :: e in rounds ==> e.Round?) && Backlog(s) <= 5000 * |rounds|
    ensures var t := Run(s, rounds, c);
            Backlog(t) == 0 && t.store == s.store && UpTo(t.store, t.cursor) == t.store
  {
    hide Inv, Step, After, UpTo;
    RoundsShrinkBacklog(s, rounds, c);
    var t := Run(s, rounds, c);
    RoundsAreAllowed(s, rounds, c);
    RunKeeps(s, rounds, c);
    StoreIsCut(t, c);
  }

  lemma StoreIsCut(s: System, c: Config)
    requires Inv(s, c) && Backlog(s) == 0
    ensures UpTo(s.store, s.cursor) == s.store
  {
    CutInTwo(s.store, s.cursor);
  }

  lemma RoundsAreAllowed(s: System, rounds: seq<Event>, c: Config)
    requires forall e :: e in rounds ==> e.Round?
    ensures Allowed(s, rounds, c)
  {
    hide Run;
    forall i | 0 <= i < |rounds|
      ensures Enabled(Run(s, rounds[..i], c), rounds[i])
    {
      assert rounds[i] in rounds;
    }
  }

  lemma {:induction false} RoundsShrinkBacklog(s: System, rounds: seq<Event>, c: Config)
    requires Inv(s, c) && forall e :: e in rounds ==> e.Round?
    ensures Run(s, rounds, c).store == s.store
    ensures Backlog(Run(s, rounds, c)) ==
            if Backlog(s) <= 5000 * |rounds| then 0 else Backlog(s) - 5000 * |rounds|
  {
    if rounds != [] {
      hide Inv, Backlog;
      var front, e := rounds[..|rounds| - 1], rounds[|rounds| - 1];
      RoundsShrinkBacklog(s, front, c);
      RoundsAreAllowed(s, front, c);
      RunKeeps(s, front, c);
      assert e in rounds;
      RoundTakesFromBacklog(Run(s, front, c), e.order, c);
    }
  }
}
