/**
 The debouncer over its lives: loop after loop while reads come in, stopped or killed
 at any point and started again. Each life is a run of loops on the clock, and all of
 them together are one run of DebounceRuns.
*/
module DebouncerLives {
  import opened Basics
  import opened Transitions
  import opened Grouping
  import opened Segments
  import opened DebounceMachine
  import opened DebounceRuns
  import opened GateDirection
  import opened DebouncerService

  /** What ingest has stored by the time of a loop, and when the loop absorbs and closes. */
  datatype Tick = Tick(arriving: seq<Read>, gateEvents: map<Portal, seq<GateEvent>>, absorbedAt: Time, closedAt: Time)

  /** The loops of one process, and whether it is stopped in the end or killed. */
  datatype Life = Life(ticks: seq<Tick>, stops: bool, endsAt: Time)

  function ReadsIn(ticks: seq<Tick>): seq<Read> {
    if ticks == [] then [] else ReadsIn(ticks[..|ticks| - 1]) + ticks[|ticks| - 1].arriving
  }

  function ReadsOver(lives: seq<Life>): seq<Read> {
    if lives == [] then [] else ReadsOver(lives[..|lives| - 1]) + ReadsIn(lives[|lives| - 1].ticks)
  }

  /** The clock of a process does not step back. */
  ghost predicate OnTheClock(ticks: seq<Tick>) {
    && (forall i :: 0 <= i < |ticks| ==> ticks[i].absorbedAt <= ticks[i].closedAt)
    && (forall i :: 0 < i < |ticks| ==> ticks[i - 1].closedAt <= ticks[i].absorbedAt)
  }

  // ----- reads coming in -----

  /** Each read gets an id above all that is stored before it. */
  ghost predicate ComeInOrder(store: seq<Read>, arriving: seq<Read>) {
    forall i :: 0 <= i < |arriving| ==> arriving[i].id > HighestId(store + arriving[..i], 0)
  }

  lemma ComeInMiddle(store: seq<Read>, all: seq<Read>, a: seq<Read>, b: seq<Read>)
    requires ComeInOrder(store, all) && a + b <= all
    ensures ComeInOrder(store + a, b)
  {
    hide ComeInOrder;
    assert all == (a + b) + all[|a + b|..];
    ComeInParts(store, a + b, all[|a + b|..]);
    ComeInParts(store, a, b);
  }

  function Coming(arriving: seq<Read>): (events: seq<Event>)
    ensures |events| == |arriving|
  {
    seq(|arriving|, (i: nat) requires i < |arriving| => Arrive(arriving[i]))
  }

  lemma ComeInParts(store: seq<Read>, a: seq<Read>, b: seq<Read>)
    requires ComeInOrder(store, a + b)
    ensures ComeInOrder(store, a) && ComeInOrder(store + a, b)
  {
    hide HighestId;
    forall i | 0 <= i < |a|
      ensures a[i].id > HighestId(store + a[..i], 0)
    {
      assert (a + b)[..i] == a[..i] && (a + b)[i] == a[i];
    }
    forall i | 0 <= i < |b|
      ensures b[i].id > HighestId(store + a + b[..i], 0)
    {
      assert (a + b)[..|a| + i] == a + b[..i] && (a + b)[|a| + i] == b[i];
      assert store + (a + b[..i]) == store + a + b[..i];
    }
  }

  // ----- a run so far -----

  lemma {:induction false} RunInParts(s: System, a: seq<Event>, b: seq<Event>, c: Config)
    ensures Run(s, a + b, c) == Run(Run(s, a, c), b, c)
  {
    if b == [] {
      assert a + b == a;
    } else {
      RunInParts(s, a, b[..|b| - 1], c);
      assert (a + b)[..|a + b| - 1] == a + b[..|b| - 1];
    }
  }

  /** A run that leads from one state to another. */
  ghost predicate Leads(start: System, events: seq<Event>, here: System, c: Config) {
    Allowed(start, events, c) && Run(start, events, c) == here
  }

  lemma LeadsOn(start: System, a: seq<Event>, mid: System, b: seq<Event>, here: System, c: Config)
    requires Leads(start, a, mid, c) && Leads(mid, b, here, c)
    ensures Leads(start, a + b, here, c)
  {
    RunInParts(start, a, b, c);
    forall i | 0 <= i < |a + b|
      ensures Enabled(Run(start, (a + b)[..i], c), (a + b)[i])
    {
      if i < |a| {
        assert (a + b)[..i] == a[..i];
      } else {
        assert (a + b)[..i] == a + b[..i - |a|];
        RunInParts(start, a, b[..i - |a|], c);
      }
    }
  }

  lemma OneEvent(s: System, e: Event, c: Config)
    requires Enabled(s, e)
    ensures Leads(s, [e], Step(s, e, c), c)
  {
    assert [e][..0] == [];
  }

  lemma NoEvent(s: System, c: Config)
    ensures Leads(s, [], s, c)
  {
  }

  lemma ComesLast(store: seq<Read>, front: seq<Read>, r: Read)
    requires ComeInOrder(store, front + [r])
    ensures ComeInOrder(store, front) && r.id > HighestId(store + front, 0)
  {
    hide HighestId;
    ComeInParts(store, front, [r]);
    assert (front + [r])[..|front|] == front && (front + [r])[|front|] == r;
  }

  lemma OneComes(s: System, r: Read, c: Config)
    requires r.id > HighestId(s.store, 0)
    ensures Leads(s, [Arrive(r)], s.(store := s.store + [r]), c)
  {
    hide HighestId;
    OneEvent(s, Arrive(r), c);
  }

  lemma ComingLonger(front: seq<Read>, r: Read)
    ensures Coming(front + [r]) == Coming(front) + [Arrive(r)]
  {
  }

  lemma {:induction false} ReadsCome(s: System, arriving: seq<Read>, c: Config)
    requires ComeInOrder(s.store, arriving)
    ensures Leads(s, Coming(arriving), s.(store := s.store + arriving), c)
  {
    hide HighestId, Leads, Coming, ComeInOrder;
    if arriving == [] {
      assert s.store + arriving == s.store;
      ComingNone();
      NoEvent(s, c);
    } else {
      var front, r := arriving[..|arriving| - 1], arriving[|arriving| - 1];
      assert arriving == front + [r];
      ComesLast(s.store, front, r);
      ReadsCome(s, front, c);
      var mid := s.(store := s.store + front);
      assert mid.store + [r] == s.store + arriving;
      OneComes(mid, r, c);
      LeadsOn(s, Coming(front), mid, [Arrive(r)], s.(store := s.store + arriving), c);
      ComingLonger(front, r);
    }
  }

  lemma ComingNone()
    ensures Coming([]) == []
  {
  }

  // ----- what one life adds to what was finished before -----

  function Behind(before: seq<Finished>, s: State): State {
    State(s.groups, before + s.finished)
  }

  lemma {:induction false} AbsorbBehind(before: seq<Finished>, s: State, rows: seq<Read>, c: Config)
    ensures AbsorbAll(Behind(before, s), rows, c.portalOf, c.quiet) ==
            Behind(before, AbsorbAll(s, rows, c.portalOf, c.quiet))
  {
    if rows != [] {
      AbsorbBehind(before, s, rows[..|rows| - 1], c);
      AbsorbReadBehind(before, AbsorbAll(s, rows[..|rows| - 1], c.portalOf, c.quiet), rows[|rows| - 1], c);
    }
  }

  lemma AbsorbReadBehind(before: seq<Finished>, s: State, r: Read, c: Config)
    ensures AbsorbRead(Behind(before, s), r, c.portalOf, c.quiet) ==
            Behind(before, AbsorbRead(s, r, c.portalOf, c.quiet))
  {
    match KeyOf(r, c.portalOf)
    case None =>
    case Some(key) =>
      if key in s.groups {
        assert before + (s.finished + [Finished(key, s.groups[key])]) ==
               (before + s.finished) + [Finished(key, s.groups[key])];
      }
  }

  lemma {:induction false} CloseBehind(before: seq<Finished>, s: State, order: seq<Key>)
    ensures CloseAll(Behind(before, s), order) == Behind(before, CloseAll(s, order))
  {
    if order != [] {
      var key := order[|order| - 1];
      CloseBehind(before, s, order[..|order| - 1]);
      var t := CloseAll(s, order[..|order| - 1]);
      if key in t.groups {
        assert before + (t.finished + [Finished(key, t.groups[key])]) ==
               (before + t.finished) + [Finished(key, t.groups[key])];
      }
    }
  }

  /** One loop more: what is in memory, and what has been touched when. */
  lemma OneMoreLoop(loops: seq<Loop>, l: Loop, before: seq<Finished>, c: Config)
    ensures CloseAll(AbsorbAll(Behind(before, RunWork(WorksOf(loops), c.portalOf, c.quiet)),
                               l.rows, c.portalOf, c.quiet), l.order) ==
            Behind(before, RunWork(WorksOf(loops + [l]), c.portalOf, c.quiet))
    ensures TouchedBy(loops + [l], c.portalOf) ==
            Untouch(TouchAll(TouchedBy(loops, c.portalOf), l.rows, c.portalOf, l.absorbedAt), l.order)
  {
    var s := RunWork(WorksOf(loops), c.portalOf, c.quiet);
    assert (loops + [l])[..|loops|] == loops;
    AbsorbBehind(before, s, l.rows, c);
    CloseBehind(before, AbsorbAll(s, l.rows, c.portalOf, c.quiet), l.order);
    var one := WorksOf(loops) + [Absorb(l.rows)];
    assert one[..|one| - 1] == WorksOf(loops);
    assert (one + [Close(l.order)])[..|one|] == one;
  }

  lemma RunsOnTimeLonger(loops: seq<Loop>, l: Loop, c: Config)
    requires RunsOnTime(loops, c)
    requires l.absorbedAt <= l.closedAt && (loops != [] ==> loops[|loops| - 1].closedAt <= l.absorbedAt)
    requires var t := TouchAll(TouchedBy(loops, c.portalOf), l.rows, c.portalOf, l.absorbedAt);
             forall key :: key in l.order <==> key in t && l.closedAt - t[key] > c.quiet
    ensures RunsOnTime(loops + [l], c)
  {
    hide TouchAll, TouchedBy;
    assert (loops + [l])[..|loops|] == loops;
  }

  /** A process in the middle of its life. */
  ghost predicate Lives(groups: map<Key, Burst>, finished: seq<Finished>, touched: map<Key, Time>, loops: seq<Loop>,
                        before: seq<Finished>, c: Config)
  {
    && State(groups, finished) == Behind(before, RunWork(WorksOf(loops), c.portalOf, c.quiet))
    && touched == TouchedBy(loops, c.portalOf)
    && RunsOnTime(loops, c)
  }

  lemma JustBorn(before: seq<Finished>, c: Config)
    ensures Lives(map[], before, map[], [], before, c)
  {
    assert before + [] == before;
  }

  lemma LivesOn(s: System, t: System, touched: map<Key, Time>, after: map<Key, Time>, loops: seq<Loop>, l: Loop,
                before: seq<Finished>, c: Config)
    requires Lives(s.groups, s.settled, touched, loops, before, c)
    requires l.rows == Fetch(s.store, s.cursor) && t == Step(s, Round(l.order), c)
    requires l.absorbedAt <= l.closedAt && (loops != [] ==> loops[|loops| - 1].closedAt <= l.absorbedAt)
    requires var u := TouchAll(touched, l.rows, c.portalOf, l.absorbedAt);
             && (forall key :: key in l.order <==> key in u && l.closedAt - u[key] > c.quiet)
             && after == Untouch(u, l.order)
    ensures Lives(t.groups, t.settled, after, loops + [l], before, c)
  {
    hide TouchAll, TouchedBy, RunsOnTime, RunWork, WorksOf, Fetch, Untouch, AbsorbAll, CloseAll;
    OneMoreLoop(loops, l, before, c);
    RunsOnTimeLonger(loops, l, c);
  }

  // ----- one life -----

  /** Ingest stores reads and beam events; the debouncer only reads them. */
  method Ingest(db: Database, arriving: seq<Read>, gateEvents: map<Portal, seq<GateEvent>>)
    modifies db`rawReads, db`gateEvents
    ensures db.rawReads == old(db.rawReads) + arriving && db.gateEvents == gateEvents
  {
    db.rawReads, db.gateEvents := db.rawReads + arriving, gateEvents;
  }

  /** One loop, after what has come in since the last one. */
  method OneTick(d: Debouncer, tick: Tick, ghost loops: seq<Loop>, ghost before: seq<Finished>, ghost start: System,
                 ghost events: seq<Event>)
    returns (ghost longer: seq<Loop>, ghost further: seq<Event>)
    requires d.Valid() && d.Settled()
    requires Lives(d.table.bursts, d.finished, d.table.touched, loops, before, d.config)
    requires Leads(start, events, d.Snapshot(), d.config) && ComeInOrder(d.db.rawReads, tick.arriving)
    requires tick.absorbedAt <= tick.closedAt && (loops != [] ==> loops[|loops| - 1].closedAt <= tick.absorbedAt)
    modifies d, d.db, d.table, d.table.groups.Values
    ensures d.Valid() && d.Settled() && fresh(d.table.groups.Values - old(d.table.groups.Values))
    ensures Lives(d.table.bursts, d.finished, d.table.touched, longer, before, d.config)
    ensures Leads(start, further, d.Snapshot(), d.config)
    ensures d.db.rawReads == old(d.db.rawReads) + tick.arriving
    ensures |longer| == |loops| + 1 && loops == longer[..|loops|] && longer[|loops|].closedAt == tick.closedAt
  {
    hide Lives, Leads, Step, ComeInOrder, TouchAll, Untouch, Fetch, Kept, Written, ToObservations;
    ghost var s := d.Snapshot();
    Ingest(d.db, tick.arriving, tick.gateEvents);
    ghost var mid := d.Snapshot();
    ReadsCome(s, tick.arriving, d.config);
    LeadsOn(start, events, s, Coming(tick.arriving), mid, d.config);
    ghost var rows, touched := Fetch(d.db.rawReads, d.cursorId), d.table.touched;
    var kept;
    ghost var order;
    kept, order := d.RunOnce(tick.absorbedAt, tick.closedAt);
    ghost var l := Loop(rows, tick.absorbedAt, order, tick.closedAt);
    RoundIsEnabled(mid, order);
    OneEvent(mid, Round(order), d.config);
    LeadsOn(start, events + Coming(tick.arriving), mid, [Round(order)], d.Snapshot(), d.config);
    LivesOn(mid, d.Snapshot(), touched, d.table.touched, loops, l, before, d.config);
    longer := loops + [l];
    further := events + Coming(tick.arriving) + [Round(order)];
  }

  lemma RoundIsEnabled(s: System, order: seq<Key>)
    ensures Enabled(s, Round(order))
  {
  }

  /**
   All the loops of a process: they close groups by the clock alone, what the process
   has finished is what that work makes of the reads it fetched, and together with the
   reads that came in they are a run.
  */
  method Live(d: Debouncer, ticks: seq<Tick>, ghost start: System, ghost events: seq<Event>)
    returns (ghost loops: seq<Loop>, ghost further: seq<Event>)
    requires d.Valid() && d.Settled() && d.table.groups == map[] && OnTheClock(ticks)
    requires Leads(start, events, d.Snapshot(), d.config) && ComeInOrder(d.db.rawReads, ReadsIn(ticks))
    modifies d, d.db, d.table
    ensures d.Valid() && d.Settled() && |loops| == |ticks|
    ensures Lives(d.table.bursts, d.finished, d.table.touched, loops, old(d.finished), d.config)
    ensures Leads(start, further, d.Snapshot(), d.config)
    ensures d.db.rawReads == old(d.db.rawReads) + ReadsIn(ticks)
  {
    hide Lives, Leads, ComeInOrder, Kept, ReadsIn;
    ghost var before, store := d.finished, d.db.rawReads;
    loops, further := [], events;
    JustBorn(before, d.config);
    assert d.table.bursts == map[] && d.table.touched == map[];
    assert ticks[..0] == [];
    NothingIn(store);
    for k := 0 to |ticks|
      invariant d.Valid() && d.Settled() && fresh(d.table.groups.Values)
      invariant Lives(d.table.bursts, d.finished, d.table.touched, loops, before, d.config)
      invariant Leads(start, further, d.Snapshot(), d.config)
      invariant d.db.rawReads == store + ReadsIn(ticks[..k])
      invariant |loops| == k && (k > 0 ==> loops[k - 1].closedAt == ticks[k - 1].closedAt)
    {
      ComeAtTick(store, ticks, k);
      NextTick(store, ticks, k);
      loops, further := OneTick(d, ticks[k], loops, before, start, further);
    }
    assert ticks[..|ticks|] == ticks;
  }

  lemma {:induction false} ReadsUpTo(ticks: seq<Tick>, k: nat)
    requires k < |ticks|
    ensures ReadsIn(ticks[..k]) + ticks[k].arriving <= ReadsIn(ticks)
  {
    var n := |ticks| - 1;
    if k < n {
      ReadsUpTo(ticks[..n], k);
      assert ticks[..n][..k] == ticks[..k];
    }
  }

  lemma NextTick(store: seq<Read>, ticks: seq<Tick>, k: nat)
    requires k < |ticks|
    ensures store + ReadsIn(ticks[..k + 1]) == (store + ReadsIn(ticks[..k])) + ticks[k].arriving
  {
    assert ticks[..k + 1][..k] == ticks[..k];
    assert store + (ReadsIn(ticks[..k]) + ticks[k].arriving) == (store + ReadsIn(ticks[..k])) + ticks[k].arriving;
  }

  lemma NothingIn(store: seq<Read>)
    ensures store + ReadsIn([]) == store
  {
  }

  lemma ComeAtTick(store: seq<Read>, ticks: seq<Tick>, k: nat)
    requires k < |ticks| && ComeInOrder(store, ReadsIn(ticks))
    ensures ComeInOrder(store + ReadsIn(ticks[..k]), ticks[k].arriving)
  {
    hide ComeInOrder, ReadsIn;
    ReadsUpTo(ticks, k);
    ComeInMiddle(store, ReadsIn(ticks), ReadsIn(ticks[..k]), ticks[k].arriving);
  }

  // ----- life after life -----

  /** The end of a process: stopped, it writes what is open; killed, it has lost it. */
  method EndLife(d: Debouncer, life: Life, ghost start: System, ghost events: seq<Event>)
    returns (ghost further: seq<Event>)
    requires d.Valid() && d.Settled() && Leads(start, events, d.Snapshot(), d.config)
    modifies d, d.db`observations, d.db`cursor, d.table
    ensures Leads(start, further, System(d.db.rawReads, d.db.SavedCursor(), d.finished, map[]), d.config)
    ensures Written(d.db.observations) == Kept(ToObservations(d.finished), d.config)
  {
    hide Leads, Kept, CloseAll;
    ghost var s := d.Snapshot();
    if life.stops {
      var final;
      ghost var order;
      final, order := d.Flush(life.endsAt);
      OneEvent(s, Stop(order), d.config);
      LeadsOn(start, events, s, [Stop(order)], d.Snapshot(), d.config);
      further := events + [Stop(order)];
      assert d.table.bursts == map[];
    } else {
      OneEvent(s, Crash, d.config);
      LeadsOn(start, events, s, [Crash], s.(groups := map[]), d.config);
      further := events + [Crash];
    }
  }

  lemma NextLife(store: seq<Read>, lives: seq<Life>, k: nat)
    requires k < |lives| && ComeInOrder(store, ReadsOver(lives))
    ensures ComeInOrder(store + ReadsOver(lives[..k]), ReadsIn(lives[k].ticks))
    ensures store + ReadsOver(lives[..k + 1]) == (store + ReadsOver(lives[..k])) + ReadsIn(lives[k].ticks)
  {
    hide ComeInOrder, ReadsIn, ReadsOver;
    var sofar, next := ReadsOver(lives[..k]), ReadsIn(lives[k].ticks);
    LivesUpTo(lives, k);
    OverLonger(lives, k);
    ComeInMiddle(store, ReadsOver(lives), sofar, next);
    assert store + (sofar + next) == (store + sofar) + next;
  }

  lemma OverLonger(lives: seq<Life>, k: nat)
    requires k < |lives|
    ensures ReadsOver(lives[..k + 1]) == ReadsOver(lives[..k]) + ReadsIn(lives[k].ticks)
  {
    assert lives[..k + 1][..k] == lives[..k];
  }

  lemma {:induction false} LivesUpTo(lives: seq<Life>, k: nat)
    requires k < |lives|
    ensures ReadsOver(lives[..k]) + ReadsIn(lives[k].ticks) <= ReadsOver(lives)
  {
    hide ReadsIn;
    var n := |lives| - 1;
    if k < n {
      LivesUpTo(lives[..n], k);
      assert lives[..n][..k] == lives[..k];
    }
  }

  lemma NoLife(store: seq<Read>)
    ensures store + ReadsOver([]) == store
  {
  }

  /**
   The debouncer over any number of lives: whatever ends them, and wherever in a loop a
   process is killed, for its memory is lost and nothing of the loop was written, the
   database goes through one run of the protocol, and its observations are exactly the
   groups finished in that run that passed the filters.
  */
  method Serve(db: Database, config: Config, gates: map<Portal, Time>, lives: seq<Life>, ghost before: seq<Finished>)
    returns (ghost settled: seq<Finished>, ghost events: seq<Event>)
    requires Written(db.observations) == Kept(ToObservations(before), config)
    requires ComeInOrder(db.rawReads, ReadsOver(lives)) && forall l :: l in lives ==> OnTheClock(l.ticks)
    modifies db
    ensures Leads(System(old(db.rawReads), old(db.SavedCursor()), before, map[]), events,
                  System(db.rawReads, db.SavedCursor(), settled, map[]), config)
    ensures Written(db.observations) == Kept(ToObservations(settled), config)
    ensures db.rawReads == old(db.rawReads) + ReadsOver(lives)
  {
    hide Leads, Kept, ComeInOrder, ReadsIn, ReadsOver, Lives, Written, OnTheClock;
    ghost var store := db.rawReads;
    ghost var start := System(db.rawReads, db.SavedCursor(), before, map[]);
    settled, events := before, [];
    NoEvent(start, config);
    NoLife(store);
    assert lives[..0] == [];
    for k := 0 to |lives|
      invariant Leads(start, events, System(db.rawReads, db.SavedCursor(), settled, map[]), config)
      invariant Written(db.observations) == Kept(ToObservations(settled), config)
      invariant db.rawReads == store + ReadsOver(lives[..k])
    {
      NextLife(store, lives, k);
      assert lives[k] in lives;
      var d := new Debouncer(db, config, gates, settled);
      ghost var loops;
      loops, events := Live(d, lives[k].ticks, start, events);
      events := EndLife(d, lives[k], start, events);
      settled := d.finished;
    }
    assert lives[..|lives|] == lives;
  }
}
