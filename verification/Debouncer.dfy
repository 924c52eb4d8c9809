/**
 The debouncer as it runs: groups that are updated in place, one round after the
 other, each ending in one transaction. Its steps are those of DebounceRuns.
*/
module DebouncerService {
  import opened Basics
  import opened Transitions
  import opened Grouping
  import opened Segments
  import opened DebounceMachine
  import opened DebounceRuns
  import opened DebouncePromises
  import opened GateDirection
  import opened GateMatching

  /** A row of the observations table. */
  datatype Row = Row(observation: Closed, direction: Option<Direction>)

  function ToObservations(finished: seq<Finished>): (r: seq<Closed>)
    ensures |r| == |finished|
  {
    seq(|finished|, (i: nat) requires i < |finished| => Closed(finished[i].key, TotalsOf(finished[i].burst)))
  }

  /** The observations that pass the filters, in order. */
  function Kept(finished: seq<Closed>, c: Config): seq<Closed> {
    if finished == [] then []
    else
      var o := finished[|finished| - 1];
      Kept(finished[..|finished| - 1], c) + if Rejected(o.totals, c.rssiFloor, c.minReadCount) then [] else [o]
  }

  lemma {:induction false} KeptConcat(a: seq<Closed>, b: seq<Closed>, c: Config)
    ensures Kept(a + b, c) == Kept(a, c) + Kept(b, c)
  {
    if b == [] {
      assert a + b == a;
    } else {
      KeptConcat(a, b[..|b| - 1], c);
      assert (a + b)[..|a + b| - 1] == a + b[..|b| - 1];
    }
  }

  lemma ToObservationsMore(finished: seq<Finished>, f: Finished)
    ensures ToObservations(finished + [f]) == ToObservations(finished) + [Closed(f.key, TotalsOf(f.burst))]
  {
  }

  lemma ToObservationsConcat(a: seq<Finished>, b: seq<Finished>)
    ensures ToObservations(a + b) == ToObservations(a) + ToObservations(b)
  {
    hide TotalsOf;
    assert |ToObservations(a + b)| == |a| + |b|;
  }

  lemma {:induction false} InKept(finished: seq<Closed>, c: Config, o: Closed)
    ensures o in Kept(finished, c) <==> o in finished && !Rejected(o.totals, c.rssiFloor, c.minReadCount)
  {
    if finished != [] {
      var front, last := finished[..|finished| - 1], finished[|finished| - 1];
      InKept(front, c, o);
      assert o in finished <==> o in front || o == last;
    }
  }

  /** Enough reads, and one of them strong enough, if any said how strong it was. */
  ghost predicate Passes(burst: Burst, c: Config) {
    && |burst| >= c.minReadCount
    && ((forall i :: 0 <= i < |burst| ==> burst[i].rssi.None?) ||
        (exists i :: 0 <= i < |burst| && burst[i].rssi.Some? && burst[i].rssi.value >= c.rssiFloor))
  }

  ghost predicate IsObservationOf(o: Closed, f: Finished, c: Config) {
    o.key == f.key && Summarises(o.totals, f.burst) && Passes(f.burst, c)
  }

  lemma KeptOf(f: Finished, c: Config, o: Closed)
    ensures o == Closed(f.key, TotalsOf(f.burst)) && !Rejected(o.totals, c.rssiFloor, c.minReadCount)
            <==> IsObservationOf(o, f, c)
  {
    TotalsAreTheSummary(f.burst, o.totals);
    if Summarises(o.totals, f.burst) {
      RejectedIff(o.totals, f.burst, c.rssiFloor, c.minReadCount);
    }
  }

  /** The observations kept are exactly the summaries of the finished groups whose reads pass the filters. */
  lemma KeptAreThePassingGroups(finished: seq<Finished>, c: Config, o: Closed)
    ensures o in Kept(ToObservations(finished), c) <==>
            exists i :: 0 <= i < |finished| && IsObservationOf(o, finished[i], c)
  {
    var all := ToObservations(finished);
    InKept(all, c, o);
    forall i | 0 <= i < |finished|
      ensures all[i] == o && !Rejected(o.totals, c.rssiFloor, c.minReadCount) <==> IsObservationOf(o, finished[i], c)
    {
      KeptOf(finished[i], c, o);
    }
    if o in all {
      var i :| 0 <= i < |all| && all[i] == o;
    }
  }

  /** Whatever crashed, an observation kept speaks of reads of its own tag at its own portal, and of no others. */
  lemma ObservationsAreOfOneTag(events: seq<Event>, c: Config, o: Closed)
    requires o in Kept(ToObservations(Run(START, events, c).settled), c)
    ensures var settled := Run(START, events, c).settled;
            exists i :: 0 <= i < |settled| && IsObservationOf(o, settled[i], c) &&
              forall r :: r in settled[i].burst ==>
                r.tid == o.key.tid && r.antenna in c.portalOf && c.portalOf[r.antenna] == o.key.portal
  {
    var settled := Run(START, events, c).settled;
    hide Kept, Run, IsObservationOf;
    KeptAreThePassingGroups(settled, c, o);
    RunsKeepTagsApart(events, c);
    var i :| 0 <= i < |settled| && IsObservationOf(o, settled[i], c);
    SameKey(o, settled[i], c);
    assert settled[i] in settled;
  }

  lemma SameKey(o: Closed, f: Finished, c: Config)
    requires IsObservationOf(o, f, c)
    ensures o.key == f.key
  {
  }

  /** The filter keeps the order: what it keeps stands at these positions, and at no others is anything to keep. */
  lemma {:induction false} KeptInOrder(finished: seq<Closed>, c: Config) returns (at: seq<nat>)
    ensures |at| == |Kept(finished, c)|
    ensures forall i, j :: 0 <= i < j < |at| ==> at[i] < at[j]
    ensures forall i :: 0 <= i < |at| ==> at[i] < |finished| && Kept(finished, c)[i] == finished[at[i]]
    ensures forall k: nat :: k < |finished| ==>
              (k in at <==>
                 var t := finished[k].totals;
                 t.readCount >= c.minReadCount && (t.peakRssi.None? || t.peakRssi.value >= c.rssiFloor))
  {
    at := [];
    if finished != [] {
      hide Kept, Rejected;
      var n := |finished| - 1;
      var front, o := finished[..n], finished[n];
      at := KeptInOrder(front, c);
      KeptNext(finished, c);
      PositionsNext(at, n);
      if o.totals.readCount >= c.minReadCount
         && (o.totals.peakRssi.None? || o.totals.peakRssi.value >= c.rssiFloor)
      {
        at := at + [n];
      }
      forall k: nat | k < n
        ensures front[k] == finished[k]
      {
      }
    }
  }

  lemma KeptNext(finished: seq<Closed>, c: Config)
    requires finished != []
    ensures var n := |finished| - 1; var t := finished[n].totals;
            Kept(finished, c) ==
            Kept(finished[..n], c) +
            if t.readCount >= c.minReadCount && (t.peakRssi.None? || t.peakRssi.value >= c.rssiFloor)
            then [finished[n]] else []
  {
  }

  lemma PositionsNext(at: seq<nat>, n: nat)
    requires forall i :: 0 <= i < |at| ==> at[i] < n
    requires forall i, j :: 0 <= i < j < |at| ==> at[i] < at[j]
    ensures n !in at
    ensures forall i, j :: 0 <= i < j < |at + [n]| ==> (at + [n])[i] < (at + [n])[j]
    ensures forall k :: k in at + [n] <==> k in at || k == n
  {
  }

  /** When each open group last received a read. */
  function TouchRead(touched: map<Key, Time>, r: Read, portalOf: map<int, Portal>, now: Time): map<Key, Time> {
    match KeyOf(r, portalOf)
    case None => touched
    case Some(key) => touched[key := now]
  }

  function TouchAll(touched: map<Key, Time>, rows: seq<Read>, portalOf: map<int, Portal>, now: Time): map<Key, Time> {
    if rows == [] then touched
    else TouchRead(TouchAll(touched, rows[..|rows| - 1], portalOf, now), rows[|rows| - 1], portalOf, now)
  }

  /** A group counts as touched now if a read of its tag is among the rows, and otherwise as it was. */
  lemma {:induction false} TouchedByOwnReads(touched: map<Key, Time>, rows: seq<Read>, portalOf: map<int, Portal>,
                                             now: Time, key: Key)
    ensures var after := TouchAll(touched, rows, portalOf, now);
            if OwnReads(rows, key, portalOf) != [] then key in after && after[key] == now
            else (key in after <==> key in touched) && (key in touched ==> after[key] == touched[key])
  {
    if rows != [] {
      TouchedByOwnReads(touched, rows[..|rows| - 1], portalOf, now, key);
    }
  }

  /** What is left when these groups are closed. */
  function Untouch(touched: map<Key, Time>, order: seq<Key>): map<Key, Time> {
    touched - (set key | key in order)
  }

  lemma UntouchLonger(touched: map<Key, Time>, order: seq<Key>, key: Key)
    ensures Untouch(touched, []) == touched
    ensures Untouch(touched, order + [key]) == Untouch(touched, order) - {key}
  {
    assert (set k | k in order + [key]) == (set k | k in order) + {key};
  }

  // ----- loop after loop -----

  /** What one loop absorbed and when, and which groups it then closed and when. */
  datatype Loop = Loop(rows: seq<Read>, absorbedAt: Time, order: seq<Key>, closedAt: Time)

  function WorksOf(loops: seq<Loop>): seq<Work> {
    if loops == [] then []
    else
      var l := loops[|loops| - 1];
      WorksOf(loops[..|loops| - 1]) + [Absorb(l.rows)] + [Close(l.order)]
  }

  function TimesOf(loops: seq<Loop>): (r: seq<Time>)
    ensures |r| == |WorksOf(loops)|
  {
    if loops == [] then []
    else
      var l := loops[|loops| - 1];
      TimesOf(loops[..|loops| - 1]) + [l.absorbedAt] + [l.closedAt]
  }

  function TouchedBy(loops: seq<Loop>, portalOf: map<int, Portal>): map<Key, Time> {
    if loops == [] then map[]
    else
      var l := loops[|loops| - 1];
      Untouch(TouchAll(TouchedBy(loops[..|loops| - 1], portalOf), l.rows, portalOf, l.absorbedAt), l.order)
  }

  /** The clock runs forward, and each loop closes exactly the groups that have gone quiet by then. */
  ghost predicate RunsOnTime(loops: seq<Loop>, c: Config) {
    loops != [] ==>
      var front, l := loops[..|loops| - 1], loops[|loops| - 1];
      var t := TouchAll(TouchedBy(front, c.portalOf), l.rows, c.portalOf, l.absorbedAt);
      && RunsOnTime(front, c)
      && l.absorbedAt <= l.closedAt && (front != [] ==> front[|front| - 1].closedAt <= l.absorbedAt)
      && forall key :: key in l.order <==> key in t && l.closedAt - t[key] > c.quiet
  }

  /** Everything the tag has brought was there when its group was last touched, if it is open. */
  ghost predicate TouchedLast(works: seq<Work>, times: seq<Time>, touched: map<Key, Time>, key: Key,
                              portalOf: map<int, Portal>)
    requires |times| == |works|
  {
    key in touched ==>
      forall i :: 0 <= i < |works| && NewReads(works[i], key, portalOf) != [] ==> times[i] <= touched[key]
  }

  lemma ClosedWhenQuietMore(works: seq<Work>, times: seq<Time>, w: Work, now: Time, key: Key, c: Config)
    requires ClosedWhenQuiet(works, times, key, c.portalOf, c.quiet)
    requires forall i :: 0 <= i < |times| ==> times[i] <= now
    requires w.Close? && key in w.order ==>
               forall i :: 0 <= i < |works| && NewReads(works[i], key, c.portalOf) != [] ==>
                 now - times[i] > c.quiet
    ensures ClosedWhenQuiet(works + [w], times + [now], key, c.portalOf, c.quiet)
    ensures forall i :: 0 <= i < |times + [now]| ==> (times + [now])[i] <= now
  {
    hide NewReads;
  }

  lemma AbsorbTouchesLast(works: seq<Work>, times: seq<Time>, touched: map<Key, Time>, rows: seq<Read>, now: Time,
                          key: Key, portalOf: map<int, Portal>)
    requires |times| == |works| && TouchedLast(works, times, touched, key, portalOf)
    requires forall i :: 0 <= i < |times| ==> times[i] <= now
    ensures TouchedLast(works + [Absorb(rows)], times + [now], TouchAll(touched, rows, portalOf, now), key, portalOf)
  {
    hide OwnReads;
    TouchedByOwnReads(touched, rows, portalOf, now, key);
  }

  lemma CloseTouchesNone(works: seq<Work>, times: seq<Time>, touched: map<Key, Time>, order: seq<Key>, now: Time,
                         key: Key, portalOf: map<int, Portal>)
    requires |times| == |works| && TouchedLast(works, times, touched, key, portalOf)
    ensures TouchedLast(works + [Close(order)], times + [now], Untouch(touched, order), key, portalOf)
  {
    hide OwnReads;
    CloseBringsNothing(Close(order), key, portalOf);
  }

  lemma {:induction false} LoopsTouchLast(loops: seq<Loop>, c: Config, key: Key)
    requires RunsOnTime(loops, c)
    ensures var works, times := WorksOf(loops), TimesOf(loops);
            && ClosedWhenQuiet(works, times, key, c.portalOf, c.quiet)
            && TouchedLast(works, times, TouchedBy(loops, c.portalOf), key, c.portalOf)
            && forall i :: 0 <= i < |times| ==> loops != [] && times[i] <= loops[|loops| - 1].closedAt
  {
    if loops != [] {
      hide ClosedWhenQuiet, TouchAll, Untouch, NewReads;
      var front, l := loops[..|loops| - 1], loops[|loops| - 1];
      LoopsTouchLast(front, c, key);
      var works, times, touched := WorksOf(front), TimesOf(front), TouchedBy(front, c.portalOf);
      var t := TouchAll(touched, l.rows, c.portalOf, l.absorbedAt);
      ClosedWhenQuietMore(works, times, Absorb(l.rows), l.absorbedAt, key, c);
      AbsorbTouchesLast(works, times, touched, l.rows, l.absorbedAt, key, c.portalOf);
      ClosedWhenQuietMore(works + [Absorb(l.rows)], times + [l.absorbedAt], Close(l.order), l.closedAt, key, c);
      CloseTouchesNone(works + [Absorb(l.rows)], times + [l.absorbedAt], t, l.order, l.closedAt, key, c.portalOf);
    }
  }

  /**
   The debouncer as it runs, loop after loop: a tag whose reads come in time order, and
   none of which takes so much longer to arrive than the one before it, gets the plain
   cut of its reads.
  */
  lemma PromptTagsAreCutAtGaps(loops: seq<Loop>, c: Config, key: Key)
    requires RunsOnTime(loops, c) && PromptTag(WorksOf(loops), TimesOf(loops), key, c.portalOf, c.quiet)
    requires InTimeOrder(OwnReads(RowsOf(WorksOf(loops)), key, c.portalOf))
    ensures Events(RunWork(WorksOf(loops), c.portalOf, c.quiet), key) ==
            GapSplit(OwnReads(RowsOf(WorksOf(loops)), key, c.portalOf), c.quiet)
  {
    LoopsTouchLast(loops, c, key);
    PromptReadsStayTogether(WorksOf(loops), TimesOf(loops), key, c.portalOf, c.quiet);
  }

  // ----- directions -----

  datatype Window = Window(first: Time, last: Time)

  /** From the first read to the last of a batch's observations at one portal. */
  function Span(observations: seq<Closed>, portal: Portal): Option<Window> {
    if observations == [] then None
    else
      var o, before := observations[|observations| - 1], Span(observations[..|observations| - 1], portal);
      if o.key.portal != portal then before
      else
        var t := o.totals;
        match before
        case None => Some(Window(t.firstRead, t.lastRead))
        case Some(w) => Some(Window(if t.firstRead < w.first then t.firstRead else w.first,
                                    if t.lastRead > w.last then t.lastRead else w.last))
  }

  lemma {:induction false} SpanCovers(observations: seq<Closed>, portal: Portal, i: nat)
    requires i < |observations| && observations[i].key.portal == portal
    ensures var span := Span(observations, portal);
            && span.Some?
            && span.value.first <= observations[i].totals.firstRead
            && observations[i].totals.lastRead <= span.value.last
  {
    var n := |observations| - 1;
    if i < n {
      SpanCovers(observations[..n], portal, i);
    }
  }

  /** From the earliest first read to the latest last read of a portal's observations. */
  ghost predicate Spans(first: Time, last: Time, observations: seq<Closed>, portal: Portal) {
    && (exists o :: o in observations && o.key.portal == portal && o.totals.firstRead == first)
    && (exists o :: o in observations && o.key.portal == portal && o.totals.lastRead == last)
    && (forall o :: o in observations && o.key.portal == portal ==>
          first <= o.totals.firstRead && o.totals.lastRead <= last)
  }

  lemma {:induction false} SpanSpans(observations: seq<Closed>, portal: Portal)
    ensures var span := Span(observations, portal);
            if span.None? then forall o :: o in observations ==> o.key.portal != portal
            else Spans(span.value.first, span.value.last, observations, portal)
  {
    if observations != [] {
      var n := |observations| - 1;
      SpanSpans(observations[..n], portal);
      assert observations == observations[..n] + [observations[n]];
    }
  }

  /** There is one such span. */
  lemma OneSpan(first: Time, last: Time, observations: seq<Closed>, portal: Portal)
    requires Spans(first, last, observations, portal)
    ensures Span(observations, portal) == Some(Window(first, last))
  {
    SpanSpans(observations, portal);
  }

  /** The margin added on either side. */
  function Widened(w: Window): Window {
    Window(w.first - GATE_LOOKUP_MARGIN_S, w.last + GATE_LOOKUP_MARGIN_S)
  }

  /** The crossings that the gate's events around the batch show. */
  function CrossingsIn(observations: seq<Closed>, portal: Portal, gates: map<Portal, Time>,
                       gateEvents: map<Portal, seq<GateEvent>>): seq<Crossing> {
    var span := Span(observations, portal);
    if portal !in gates || portal !in gateEvents || span.None? then []
    else
      var window := Widened(span.value);
      Crossings(Between(gateEvents[portal], window.first, window.last), gates[portal])
  }

  /** Empty where there is no gate; where there is one, UNKNOWN when it could not say. */
  function DirectionIn(observations: seq<Closed>, o: Closed, gates: map<Portal, Time>,
                       gateEvents: map<Portal, seq<GateEvent>>): Option<Direction> {
    if o.key.portal !in gates then None
    else Recorded(DirectionForWindow(o.totals.firstRead, o.totals.lastRead,
                                     CrossingsIn(observations, o.key.portal, gates, gateEvents), 0.0))
  }

  function Recorded(direction: Option<Direction>): Option<Direction> {
    if direction.None? then Some(Unknown) else direction
  }

  /** What overlaps the reads lies inside the window, and the gate is not blocked since before it for good. */
  ghost predicate WindowHolds(history: seq<GateEvent>, timeout: Time, window: Window, o: Closed) {
    && !NeverClears(history, window.first)
    && AllInside(history, timeout, window.first, window.last, o.totals.firstRead, o.totals.lastRead)
  }

  /** The direction of the nearest of the crossings that overlap these reads, or UNKNOWN where that says nothing. */
  ghost predicate Points(direction: Option<Direction>, cs: seq<Crossing>, first: Time, last: Time) {
    && ((forall i :: 0 <= i < |cs| ==> !(cs[i].startedAt <= last && cs[i].endedAt >= first)) ==>
          direction == Some(Unknown))
    && (forall i :: NearestOfAll(cs, i, first, last) ==>
          direction == if cs[i].direction.Some? then cs[i].direction else Some(Unknown))
  }

  lemma DirectionPoints(first: Time, last: Time, cs: seq<Crossing>)
    ensures Points(Recorded(DirectionForWindow(first, last, cs, 0.0)), cs, first, last)
  {
    hide DirectionForWindow, NearestOfAll;
    DirectionIsOfTheNearest(first, last, cs);
  }

  /**
   The batch an observation is written with does not matter to its direction: if each
   crossing that overlaps the observation lies within the margin around the batch, and
   the gate is clear at some moment from the start of the batch's window on, the
   direction is the one the whole history of the gate gives.
  */
  lemma {:induction false} BatchDirectionIsFullHistory(observations: seq<Closed>, i: nat, gates: map<Portal, Time>,
                                    gateEvents: map<Portal, seq<GateEvent>>)
    requires i < |observations|
    requires var o := observations[i];
             && o.key.portal in gates && o.key.portal in gateEvents
             && TimeOrdered(gateEvents[o.key.portal]) && o.totals.firstRead <= o.totals.lastRead
    requires var o := observations[i]; var span := Span(observations, o.key.portal);
             span.Some? ==>
               WindowHolds(gateEvents[o.key.portal], gates[o.key.portal], Widened(span.value), o)
    ensures var o := observations[i];
            DirectionIn(observations, o, gates, gateEvents) ==
            Recorded(DirectionForWindow(o.totals.firstRead, o.totals.lastRead,
                                        Crossings(gateEvents[o.key.portal], gates[o.key.portal]), 0.0))
    ensures var o := observations[i];
            Points(DirectionIn(observations, o, gates, gateEvents),
                   Crossings(gateEvents[o.key.portal], gates[o.key.portal]), o.totals.firstRead, o.totals.lastRead)
  {
    hide Points;
    var o := observations[i];
    SpanCovers(observations, o.key.portal, i);
    var history, timeout, window := gateEvents[o.key.portal], gates[o.key.portal],
                                    Widened(Span(observations, o.key.portal).value);
    HoldingWindowAgrees(history, timeout, window, o);
    assert CrossingsIn(observations, o.key.portal, gates, gateEvents) ==
           Crossings(Between(history, window.first, window.last), timeout);
    DirectionPoints(o.totals.firstRead, o.totals.lastRead, Crossings(history, timeout));
  }

  lemma HoldingWindowAgrees(history: seq<GateEvent>, timeout: Time, window: Window, o: Closed)
    requires TimeOrdered(history) && WindowHolds(history, timeout, window, o)
    requires window.first <= o.totals.firstRead <= o.totals.lastRead <= window.last
    ensures var t := o.totals;
            DirectionForWindow(t.firstRead, t.lastRead,
                               Crossings(Between(history, window.first, window.last), timeout), 0.0)
            == DirectionForWindow(t.firstRead, t.lastRead, Crossings(history, timeout), 0.0)
  {
    WindowedLookupAgrees(history, timeout, window.first, window.last, o.totals.firstRead, o.totals.lastRead);
  }

  function WithDirections(observations: seq<Closed>, gates: map<Portal, Time>,
                          gateEvents: map<Portal, seq<GateEvent>>): seq<Row> {
    seq(|observations|, (i: nat) requires i < |observations| =>
      Row(observations[i], DirectionIn(observations, observations[i], gates, gateEvents)))
  }

  /** The row of an observation, of the crossings its gate shows between these times. */
  ghost predicate WrittenFor(row: Row, o: Closed, gates: map<Portal, Time>, gateEvents: map<Portal, seq<GateEvent>>,
                             lo: Time, hi: Time)
  {
    var events := if o.key.portal in gateEvents then gateEvents[o.key.portal] else [];
    && row.observation == o
    && (o.key.portal !in gates ==> row.direction == None)
    && (o.key.portal in gates ==>
          Points(row.direction, Crossings(Between(events, lo, hi), gates[o.key.portal]),
                 o.totals.firstRead, o.totals.lastRead))
  }

  lemma NothingBetween(lo: Time, hi: Time, timeout: Time)
    ensures Crossings(Between([], lo, hi), timeout) == []
  {
  }

  /**
   What is written beside an observation at a gate, of all the crossings the gate shows
   from five seconds before the first read of the batch there to five seconds after the
   last: the direction of the one nearest to it of those that overlap its reads; UNKNOWN
   where none overlaps or that one has no direction. Where there is no gate, nothing.
  */
  lemma DirectionsAreTheNearest(observations: seq<Closed>, i: nat, gates: map<Portal, Time>,
                                gateEvents: map<Portal, seq<GateEvent>>, first: Time, last: Time)
    requires i < |observations| && Spans(first, last, observations, observations[i].key.portal)
    ensures var o, row := observations[i], WithDirections(observations, gates, gateEvents)[i];
            WrittenFor(row, o, gates, gateEvents, first - 5.0, last + 5.0)
  {
    var o := observations[i];
    OneSpan(first, last, observations, o.key.portal);
    if o.key.portal in gates {
      var cs := CrossingsIn(observations, o.key.portal, gates, gateEvents);
      hide Crossings, Between, Span, Points, DirectionForWindow;
      NothingBetween(first - 5.0, last + 5.0, gates[o.key.portal]);
      DirectionPoints(o.totals.firstRead, o.totals.lastRead, cs);
    }
  }

  function Written(rows: seq<Row>): (r: seq<Closed>)
    ensures |r| == |rows|
  {
    seq(|rows|, (i: nat) requires i < |rows| => rows[i].observation)
  }

  lemma WrittenWithDirections(before: seq<Row>, kept: seq<Closed>, gates: map<Portal, Time>,
                              gateEvents: map<Portal, seq<GateEvent>>)
    ensures Written(before + WithDirections(kept, gates, gateEvents)) == Written(before) + kept
  {
    hide DirectionIn;
    var rows := WithDirections(kept, gates, gateEvents);
    forall i | 0 <= i < |before| + |kept|
      ensures Written(before + rows)[i] == (Written(before) + kept)[i]
    {
      assert (before + rows)[i] == if i < |before| then before[i] else rows[i - |before|];
    }
  }

  // ----- the service -----

  class Database {
    var rawReads: seq<Read>
    var gateEvents: map<Portal, seq<GateEvent>>
    var observations: seq<Row>
    var cursor: Option<nat>

    constructor (rawReads: seq<Read>, gateEvents: map<Portal, seq<GateEvent>>)
      ensures this.rawReads == rawReads && this.gateEvents == gateEvents && observations == [] && cursor == None
    {
      this.rawReads, this.gateEvents, observations, cursor := rawReads, gateEvents, [], None;
    }

    function SavedCursor(): nat
      reads this
    {
      if cursor.None? then 0 else cursor.value
    }

    /** One transaction: the rows and the cursor together. */
    method Write(rows: seq<Row>, cursorId: nat)
      modifies this`observations, this`cursor
      ensures observations == old(observations) + rows && cursor == Some(cursorId)
    {
      observations, cursor := observations + rows, Some(cursorId);
    }
  }

  /** The running totals of a group are those of its reads. */
  ghost predicate Shows(group: OpenGroup, burst: Burst, touched: Time)
    reads group
  {
    group.View() == TotalsOf(burst) && group.lastTouched == touched
  }

  method AddTo(group: OpenGroup, ghost burst: Burst, ghost touched: Time, r: Read, now: Time)
    requires Shows(group, burst, touched)
    modifies group
    ensures Shows(group, Longer(burst, r), now)
  {
    hide TotalsOf, Added, Latest, Longer;
    TotalsLonger(burst, r);
    group.Add(r.at, r.rssi, now);
  }

  /** The open groups by tag and portal. */
  class GroupTable {
    var groups: map<Key, OpenGroup>
    /** The reads behind each group, and when it last received one. */
    ghost var bursts: map<Key, Burst>
    ghost var touched: map<Key, Time>

    ghost predicate Valid()
      reads this, groups.Values
    {
      && groups.Keys == bursts.Keys == touched.Keys
      && (forall key :: key in groups ==>
            groups[key].key == key && Shows(groups[key], bursts[key], touched[key]))
    }

    constructor ()
      ensures Valid() && groups == map[] && bursts == map[] && touched == map[]
    {
      groups, bursts, touched := map[], map[], map[];
    }

    method Start(key: Key, r: Read, now: Time)
      requires Valid()
      modifies this
      ensures Valid() && fresh(groups.Values - old(groups.Values))
      ensures bursts == old(bursts)[key := [r]] && touched == old(touched)[key := now]
    {
      var group := new OpenGroup(key, r.at, r.rssi, now);
      assert Shows(group, [r], now);
      groups, bursts, touched := groups[key := group], bursts[key := [r]], touched[key := now];
    }

    method Add(key: Key, r: Read, now: Time)
      requires Valid() && key in groups
      modifies this`bursts, this`touched, groups[key]
      ensures Valid()
      ensures bursts == old(bursts)[key := Longer(old(bursts)[key], r)] && touched == old(touched)[key := now]
    {
      hide Shows, Longer;
      AddTo(groups[key], bursts[key], touched[key], r, now);
      bursts, touched := bursts[key := Longer(bursts[key], r)], touched[key := now];
    }

    /** The observation a group makes. */
    method Observe(key: Key) returns (o: Closed)
      requires Valid() && key in groups
      ensures o == Closed(key, TotalsOf(bursts[key]))
    {
      assert Shows(groups[key], bursts[key], touched[key]);
      o := Closed(groups[key].key, groups[key].View());
    }

    method Remove(key: Key)
      requires Valid() && key in groups
      modifies this
      ensures Valid() && groups == old(groups) - {key}
      ensures bursts == old(bursts) - {key} && touched == old(touched) - {key}
    {
      groups, bursts, touched := groups - {key}, bursts - {key}, touched - {key};
    }

    /** Has this group seen its last read, given one that comes now? */
    method MovesOn(key: Key, r: Read, quiet: Time) returns (b: bool)
      requires Valid() && key in groups
      ensures b == StartsNewSession(Latest(bursts[key]), r.at, quiet)
    {
      assert Shows(groups[key], bursts[key], touched[key]) && groups[key].lastRead == groups[key].View().lastRead;
      b := StartsNewSession(groups[key].lastRead, r.at, quiet);
    }

    method QuietKeys(now: Time, force: bool, quiet: Time) returns (keys: set<Key>)
      requires Valid()
      ensures keys <= groups.Keys
      ensures forall key :: key in keys <==> key in touched && (force || now - touched[key] > quiet)
    {
      keys := set key | key in groups && (force || HasGoneQuiet(groups[key].lastTouched, now, quiet));
    }
  }

  class Debouncer {
    const db: Database
    const config: Config
    const gates: map<Portal, Time>
    const table: GroupTable
    var closedThisRound: seq<Closed>
    var cursorId: nat
    /** Every group finished so far, and how many of them have been judged. */
    ghost var finished: seq<Finished>
    ghost var judged: nat

    ghost predicate Valid()
      reads this, table, table.groups.Values
    {
      && table.Valid()
      && judged <= |finished|
      && closedThisRound == ToObservations(finished[judged..])
    }

    /** Between rounds: the observations are exactly the finished groups that passed the filters. */
    ghost predicate Settled()
      reads this, db
    {
      && judged == |finished|
      && db.SavedCursor() == cursorId
      && Written(db.observations) == Kept(ToObservations(finished), config)
    }

    ghost function Memory(): State
      reads this, table
    {
      State(table.bursts, finished)
    }

    ghost function Snapshot(): System
      reads this, table, db
    {
      System(db.rawReads, cursorId, finished, table.bursts)
    }

    /** A process starts: it reads its cursor and holds no group. What was finished before is in the database. */
    constructor (db: Database, config: Config, gates: map<Portal, Time>, ghost settled: seq<Finished>)
      requires Written(db.observations) == Kept(ToObservations(settled), config)
      ensures this.db == db && this.config == config && this.gates == gates
      ensures Valid() && Settled() && fresh(table) && table.groups == map[]
      ensures Snapshot() == System(db.rawReads, db.SavedCursor(), settled, map[])
    {
      this.db, this.config, this.gates := db, config, gates;
      table := new GroupTable();
      closedThisRound, cursorId := [], db.SavedCursor();
      finished, judged := settled, |settled|;
    }

    /** What the open group holds is an event of its own; the caller replaces or removes the group. */
    method Finish(key: Key)
      requires Valid() && key in table.groups
      modifies this`closedThisRound, this`finished
      ensures Valid() && finished == old(finished) + [Finished(key, table.bursts[key])]
    {
      var o := table.Observe(key);
      ToObservationsMore(finished[judged..], Finished(key, table.bursts[key]));
      assert (finished + [Finished(key, table.bursts[key])])[judged..] ==
             finished[judged..] + [Finished(key, table.bursts[key])];
      closedThisRound := closedThisRound + [o];
      finished := finished + [Finished(key, table.bursts[key])];
    }

    /** A read that moves on ends the open event and starts the next. */
    method Restart(key: Key, r: Read, now: Time)
      requires Valid() && key in table.groups
      modifies this`closedThisRound, this`finished, table
      ensures Valid() && fresh(table.groups.Values - old(table.groups.Values))
      ensures table.bursts == old(table.bursts)[key := [r]] && table.touched == old(table.touched)[key := now]
      ensures finished == old(finished) + [Finished(key, old(table.bursts)[key])]
    {
      Finish(key);
      table.Start(key, r, now);
    }

    method AbsorbFor(key: Key, r: Read, now: Time)
      requires Valid()
      modifies this`closedThisRound, this`finished, table, table.groups.Values
      ensures Valid() && fresh(table.groups.Values - old(table.groups.Values))
      ensures Memory() == AbsorbAt(old(Memory()), key, r, config.quiet)
      ensures table.touched == old(table.touched)[key := now]
      ensures old(finished) <= finished
    {
      hide Shows, TotalsOf, Latest;
      if key !in table.groups {
        table.Start(key, r, now);
        return;
      }
      var movesOn := table.MovesOn(key, r, config.quiet);
      if movesOn {
        Restart(key, r, now);
      } else {
        table.Add(key, r, now);
      }
    }

    method AbsorbOne(r: Read, now: Time)
      requires Valid()
      modifies this`closedThisRound, this`finished, table, table.groups.Values
      ensures Valid() && fresh(table.groups.Values - old(table.groups.Values))
      ensures Memory() == AbsorbRead(old(Memory()), r, config.portalOf, config.quiet)
      ensures if r.antenna !in config.portalOf then Memory() == old(Memory())
              else Memory() == AbsorbAt(old(Memory()), Key(r.tid, config.portalOf[r.antenna]), r, config.quiet)
      ensures table.touched == TouchRead(old(table.touched), r, config.portalOf, now)
      ensures old(finished) <= finished
    {
      if r.antenna in config.portalOf {
        AbsorbFor(Key(r.tid, config.portalOf[r.antenna]), r, now);
      }
    }

    /** One batch, read by read, in place. */
    method Absorb(rows: seq<Read>, now: Time)
      requires Valid()
      modifies this`closedThisRound, this`finished, table, table.groups.Values
      ensures Valid() && fresh(table.groups.Values - old(table.groups.Values))
      ensures Memory() == AbsorbAll(old(Memory()), rows, config.portalOf, config.quiet)
      ensures table.touched == TouchAll(old(table.touched), rows, config.portalOf, now)
      ensures old(finished) <= finished
    {
      assert rows[..0] == [];
      for i := 0 to |rows|
        invariant Valid() && fresh(table.groups.Values - old(table.groups.Values))
        invariant Memory() == AbsorbAll(old(Memory()), rows[..i], config.portalOf, config.quiet)
        invariant table.touched == TouchAll(old(table.touched), rows[..i], config.portalOf, now)
        invariant old(finished) <= finished
      {
        AbsorbOne(rows[i], now);
        assert rows[..i + 1][..i] == rows[..i];
      }
      assert rows[..|rows|] == rows;
    }

    method PopGroup(key: Key)
      requires Valid() && key in table.groups
      modifies this`closedThisRound, this`finished, table
      ensures Valid() && table.groups == old(table.groups) - {key}
      ensures table.touched == old(table.touched) - {key}
      ensures Memory() == CloseKey(old(Memory()), key)
      ensures old(finished) <= finished
    {
      Finish(key);
      table.Remove(key);
    }

    method PopGroups(keys: set<Key>) returns (ghost order: seq<Key>)
      requires Valid() && keys <= table.groups.Keys
      modifies this`closedThisRound, this`finished, table
      ensures Valid() && table.groups.Values <= old(table.groups.Values)
      ensures forall key :: key in order <==> key in keys
      ensures table.touched == Untouch(old(table.touched), order)
      ensures Memory() == CloseAll(old(Memory()), order)
      ensures old(finished) <= finished
    {
      hide Untouch, CloseKey, Shows;
      var pending := keys;
      order := [];
      UntouchLonger(table.touched, [], Key("", Entrance));
      while pending != {}
        invariant Valid() && pending <= keys && pending <= table.groups.Keys
        invariant table.groups.Values <= old(table.groups.Values)
        invariant forall key :: key in order <==> key in keys && key !in pending
        invariant table.touched == Untouch(old(table.touched), order)
        invariant Memory() == CloseAll(old(Memory()), order)
        invariant old(finished) <= finished
        decreases pending
      {
        var key :| key in pending;
        PopGroup(key);
        pending := pending - {key};
        CloseAllLonger(old(Memory()), order, key);
        UntouchLonger(old(table.touched), order, key);
        order := order + [key];
      }
    }

    /** Collect what has finished, closing the groups that have gone silent, and apply the filters. */
    method CloseQuietGroups(now: Time, force: bool) returns (kept: seq<Closed>, ghost order: seq<Key>)
      requires Valid()
      modifies this`closedThisRound, this`finished, this`judged, table
      ensures Valid() && table.groups.Values <= old(table.groups.Values)
      ensures forall key :: key in order <==>
                key in old(table.touched) && (force || now - old(table.touched)[key] > config.quiet)
      ensures table.touched == Untouch(old(table.touched), order)
      ensures Memory() == CloseAll(old(Memory()), order)
      ensures judged == |finished| && old(finished) <= finished
      ensures kept == Kept(ToObservations(finished[old(judged)..]), config)
    {
      var quietKeys := table.QuietKeys(now, force, config.quiet);
      order := PopGroups(quietKeys);
      kept := Filter(closedThisRound);
      closedThisRound := [];
      judged := |finished|;
    }

    method Filter(finished: seq<Closed>) returns (kept: seq<Closed>)
      ensures kept == Kept(finished, config)
    {
      kept := [];
      for i := 0 to |finished|
        invariant kept == Kept(finished[..i], config)
      {
        var o := finished[i];
        assert finished[..i + 1][..i] == finished[..i];
        if !Rejected(o.totals, config.rssiFloor, config.minReadCount) {
          kept := kept + [o];
        }
      }
      assert finished[..|finished|] == finished;
    }

    method SpanOf(observations: seq<Closed>, portal: Portal) returns (span: Option<Window>)
      ensures span == Span(observations, portal)
    {
      span := None;
      for i := 0 to |observations|
        invariant span == Span(observations[..i], portal)
      {
        var o := observations[i];
        assert observations[..i + 1][..i] == observations[..i];
        if o.key.portal == portal {
          var t := o.totals;
          if span.None? {
            span := Some(Window(t.firstRead, t.lastRead));
          } else {
            var first := if t.firstRead < span.value.first then t.firstRead else span.value.first;
            var last := if t.lastRead > span.value.last then t.lastRead else span.value.last;
            span := Some(Window(first, last));
          }
        }
      }
      assert observations[..|observations|] == observations;
    }

    /** One lookup per gate for the whole batch. */
    method CrossingsAround(observations: seq<Closed>, portal: Portal) returns (crossings: seq<Crossing>)
      ensures crossings == CrossingsIn(observations, portal, gates, db.gateEvents)
    {
      var span := SpanOf(observations, portal);
      if portal !in gates || portal !in db.gateEvents || span.None? {
        return [];
      }
      var window := Widened(span.value);
      var events := Between(db.gateEvents[portal], window.first, window.last);
      crossings := CrossingsFromEvents(events, gates[portal]);
    }

    /** Each observation at a gated portal gets a direction, or UNKNOWN; at the others it stays empty. */
    method ResolveDirections(observations: seq<Closed>) returns (rows: seq<Row>)
      ensures rows == WithDirections(observations, gates, db.gateEvents)
      ensures forall i, first, last ::
                0 <= i < |rows| && Spans(first, last, observations, observations[i].key.portal) ==>
                  WrittenFor(rows[i], observations[i], gates, db.gateEvents, first - 5.0, last + 5.0)
    {
      hide Spans, WrittenFor;
      var entrance := CrossingsAround(observations, Entrance);
      var exit := CrossingsAround(observations, Exit);
      rows := [];
      for i := 0 to |observations|
        invariant |rows| == i
        invariant forall j :: 0 <= j < i ==> rows[j] == WithDirections(observations, gates, db.gateEvents)[j]
      {
        var o := observations[i];
        if o.key.portal in gates {
          var crossings := if o.key.portal == Entrance then entrance else exit;
          var direction := DirectionForWindow(o.totals.firstRead, o.totals.lastRead, crossings, 0.0);
          rows := rows + [Row(o, Recorded(direction))];
        } else {
          rows := rows + [Row(o, None)];
        }
      }
      forall i, first, last | 0 <= i < |rows| && Spans(first, last, observations, observations[i].key.portal)
        ensures WrittenFor(rows[i], observations[i], gates, db.gateEvents, first - 5.0, last + 5.0)
      {
        DirectionsAreTheNearest(observations, i, gates, db.gateEvents, first, last);
      }
    }

    method Commit(observations: seq<Closed>, cursorId: nat)
      modifies db`observations, db`cursor
      ensures db.observations == old(db.observations) + WithDirections(observations, gates, db.gateEvents)
      ensures db.cursor == Some(cursorId)
    {
      var rows := ResolveDirections(observations);
      db.Write(rows, cursorId);
    }

    lemma TableGrows(before: seq<Row>, finished: seq<Finished>, n: nat, kept: seq<Closed>)
      requires n <= |finished| && Written(before) == Kept(ToObservations(finished[..n]), config)
      requires kept == Kept(ToObservations(finished[n..]), config)
      ensures Written(before + WithDirections(kept, gates, db.gateEvents)) == Kept(ToObservations(finished), config)
    {
      hide Written, WithDirections, ToObservations, Kept;
      assert finished == finished[..n] + finished[n..];
      ToObservationsConcat(finished[..n], finished[n..]);
      KeptConcat(ToObservations(finished[..n]), ToObservations(finished[n..]), config);
      WrittenWithDirections(before, kept, gates, db.gateEvents);
    }

    /** The part of a round that works in memory. */
    method Advance(rows: seq<Read>, absorbedAt: Time, closedAt: Time) returns (kept: seq<Closed>, ghost order: seq<Key>)
      requires Valid() && judged == |finished|
      modifies this`closedThisRound, this`finished, this`judged, table, table.groups.Values
      ensures Valid() && fresh(table.groups.Values - old(table.groups.Values))
      ensures Memory() == CloseAll(AbsorbAll(old(Memory()), rows, config.portalOf, config.quiet), order)
      ensures var t := TouchAll(old(table.touched), rows, config.portalOf, absorbedAt);
              && (forall key :: key in order <==> key in t && closedAt - t[key] > config.quiet)
              && table.touched == Untouch(t, order)
      ensures judged == |finished| && old(finished) <= finished
      ensures kept == Kept(ToObservations(finished[|old(finished)|..]), config)
    {
      if rows != [] {
        Absorb(rows, absorbedAt);
      }
      kept, order := CloseQuietGroups(closedAt, false);
    }

    /** Rows and cursor go to the database together, unless there is nothing to say. */
    method Save(ghost before: seq<Finished>, kept: seq<Closed>, highestId: nat)
      requires before <= finished && judged == |finished|
      requires Written(db.observations) == Kept(ToObservations(before), config)
      requires db.SavedCursor() == cursorId
      requires kept == Kept(ToObservations(finished[|before|..]), config)
      modifies this`cursorId, db`observations, db`cursor
      ensures Settled() && cursorId == highestId
      ensures db.observations == old(db.observations) + WithDirections(kept, gates, db.gateEvents)
    {
      assert finished[..|before|] == before;
      TableGrows(db.observations, finished, |before|, kept);
      if kept != [] || highestId != cursorId {
        Commit(kept, highestId);
        cursorId := highestId;
      } else {
        assert db.observations + WithDirections(kept, gates, db.gateEvents) == db.observations;
      }
    }

    /**
     One round: it is a round of the protocol, closing exactly the groups that have
     gone quiet, and leaves the observations and the saved cursor in step with it.
    */
    method RunOnce(absorbedAt: Time, closedAt: Time) returns (kept: seq<Closed>, ghost order: seq<Key>)
      requires Valid() && Settled()
      modifies this, db`observations, db`cursor, table, table.groups.Values
      ensures Valid() && Settled() && fresh(table.groups.Values - old(table.groups.Values))
      ensures Snapshot() == Step(old(Snapshot()), Round(order), config)
      ensures var t := TouchAll(old(table.touched), Fetch(db.rawReads, old(cursorId)), config.portalOf, absorbedAt);
              && (forall key :: key in order <==> key in t && closedAt - t[key] > config.quiet)
              && table.touched == Untouch(t, order)
      ensures db.observations == old(db.observations) + WithDirections(kept, gates, db.gateEvents)
    {
      var rows := Fetch(db.rawReads, cursorId);
      var highestId := if rows != [] then rows[|rows| - 1].id else cursorId;
      ghost var before := finished;
      kept, order := Advance(rows, absorbedAt, closedAt);
      Save(before, kept, highestId);
    }

    /** A graceful stop: every open group is finished and written; the cursor stays. */
    method Flush(now: Time) returns (final: seq<Closed>, ghost order: seq<Key>)
      requires Valid() && Settled()
      modifies this, db`observations, db`cursor, table
      ensures Valid() && Settled() && table.groups == map[]
      ensures Enabled(old(Snapshot()), Stop(order))
      ensures Snapshot() == Step(old(Snapshot()), Stop(order), config)
      ensures db.observations == old(db.observations) + WithDirections(final, gates, db.gateEvents)
    {
      ghost var before, memory := finished, Memory();
      final, order := CloseQuietGroups(now, true);
      assert finished[..|before|] == before;
      TableGrows(db.observations, finished, |before|, final);
      Commit(final, cursorId);
      forall key
        ensures key !in table.groups
      {
        AllClosed(memory, order, key);
      }
    }
  }
}
