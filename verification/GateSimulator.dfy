/**
 The simulator's beam events for something crossing the gate, and the round trip
 through the parser.
*/
module GateSimulator {
  import opened Basics
  import opened Transitions
  import opened GateDirection
  import opened GateMatching

  const MIN_SEPARATION_S: Time := 0.005

  /** How far apart the beams break, from a random draw. */
  function SeparationFrom(draw: Time): (s: Time)
    ensures s >= 0.005 && s >= draw && (s == 0.005 || s == draw)
  {
    if draw > MIN_SEPARATION_S then draw else MIN_SEPARATION_S
  }

  /** One load: when its pass starts, how long the pass and each block last, and the draw for its separation. */
  datatype Load = Load(start: Time, duration: Time, draw: Time, blocked: Time, reverse: bool) {
    function First(): Beam { if reverse then Outer else Inner }
    function Second(): Beam { if reverse then Inner else Outer }
    function Separation(): Time { SeparationFrom(draw) }
    function FirstAt(): Time { start + (duration / 2.0 - Separation() / 2.0) }
    function SecondAt(): Time { start + (duration / 2.0 + Separation() / 2.0) }
  }

  function Insert(e: GateEvent, sorted: seq<GateEvent>): seq<GateEvent> {
    if sorted == [] || e.at < sorted[0].at then [e] + sorted else [sorted[0]] + Insert(e, sorted[1..])
  }

  /** A stable sort by time: equal times keep their order. */
  function SortByTime(events: seq<GateEvent>): seq<GateEvent> {
    if events == [] then [] else Insert(events[|events| - 1], SortByTime(events[..|events| - 1]))
  }

  /** The four events of one crossing, in time order. */
  function GateCrossing(l: Load): seq<GateEvent> {
    SortByTime([
      GateEvent(l.First(), Broken, l.FirstAt()),
      GateEvent(l.Second(), Broken, l.SecondAt()),
      GateEvent(l.First(), Clear, l.FirstAt() + l.blocked),
      GateEvent(l.Second(), Clear, l.SecondAt() + l.blocked)])
  }

  function Expected(l: Load): Crossing {
    Crossing(Some(if l.reverse then In else Out), l.FirstAt(), l.SecondAt() + l.blocked)
  }

  lemma InsertLast(e: GateEvent, sorted: seq<GateEvent>)
    requires forall i :: 0 <= i < |sorted| ==> sorted[i].at <= e.at
    ensures Insert(e, sorted) == sorted + [e]
  {
  }

  lemma SortLonger(front: seq<GateEvent>, e: GateEvent)
    ensures SortByTime(front + [e]) == Insert(e, SortByTime(front))
  {
    assert (front + [e])[..|front|] == front;
  }

  lemma InsertBeforeLast(e: GateEvent, first: GateEvent, last: GateEvent)
    requires first.at <= e.at < last.at
    ensures Insert(e, [first, last]) == [first, e, last]
  {
    assert [first, last][1..] == [last];
  }

  /** Two pairs of events, each pair in order and the second pair the same time after the first. */
  lemma SortFour(b1: GateEvent, b2: GateEvent, c1: GateEvent, c2: GateEvent)
    requires b1.at <= b2.at && b1.at <= c1.at && b2.at <= c2.at && c1.at <= c2.at
    ensures SortByTime([b1, b2, c1, c2]) == if b2.at <= c1.at then [b1, b2, c1, c2] else [b1, c1, b2, c2]
  {
    hide Insert, SortByTime;
    assert [] + [b1] == [b1] && [b1] + [b2] == [b1, b2] && [b1, b2] + [c1] == [b1, b2, c1];
    assert [b1, b2, c1] + [c2] == [b1, b2, c1, c2];
    SortNone();
    SortLonger([], b1);
    SortLonger([b1], b2);
    SortLonger([b1, b2], c1);
    SortLonger([b1, b2, c1], c2);
    InsertLast(b1, []);
    InsertLast(b2, [b1]);
    if b2.at <= c1.at {
      InsertLast(c1, [b1, b2]);
      InsertLast(c2, [b1, b2, c1]);
    } else {
      InsertBeforeLast(c1, b1, b2);
      InsertLast(c2, [b1, c1, b2]);
    }
  }

  lemma SortNone()
    ensures SortByTime([]) == []
  {
  }

  /** The beams break around the middle of the pass, five milliseconds apart or more; the inner one first, going out. */
  lemma BeamsBreakAroundTheMiddle(l: Load)
    ensures l.FirstAt() + l.SecondAt() == 2.0 * l.start + l.duration
    ensures l.SecondAt() - l.FirstAt() == if l.draw > 0.005 then l.draw else 0.005
    ensures l.First() != l.Second() && (l.First() == Inner <==> !l.reverse)
  {
  }

  /** The two orders the events can come in. */
  lemma EventOrder(l: Load)
    requires l.blocked >= 0.0
    ensures var b1 := GateEvent(l.First(), Broken, l.FirstAt());
            var b2 := GateEvent(l.Second(), Broken, l.SecondAt());
            var c1 := GateEvent(l.First(), Clear, l.FirstAt() + l.blocked);
            var c2 := GateEvent(l.Second(), Clear, l.SecondAt() + l.blocked);
            GateCrossing(l) == if l.Separation() <= l.blocked then [b1, b2, c1, c2] else [b1, c1, b2, c2]
  {
    hide SortByTime;
    SortFour(GateEvent(l.First(), Broken, l.FirstAt()), GateEvent(l.Second(), Broken, l.SecondAt()),
             GateEvent(l.First(), Clear, l.FirstAt() + l.blocked),
             GateEvent(l.Second(), Clear, l.SecondAt() + l.blocked));
    assert l.SecondAt() - l.FirstAt() == l.Separation();
  }

  /**
   One load parses back to its own crossing exactly when its beams overlap and the
   second breaks within the timeout.
  */
  lemma RoundTripIff(l: Load, timeout: Time)
    requires l.blocked >= 0.0
    ensures Crossings(GateCrossing(l), timeout) == [Expected(l)] <==>
            l.Separation() <= l.blocked && l.Separation() <= timeout
    ensures Blocked(GateCrossing(l)) == {}
  {
    EventOrder(l);
    var b1 := GateEvent(l.First(), Broken, l.FirstAt());
    var b2 := GateEvent(l.Second(), Broken, l.SecondAt());
    var c1 := GateEvent(l.First(), Clear, l.FirstAt() + l.blocked);
    var c2 := GateEvent(l.Second(), Clear, l.SecondAt() + l.blocked);
    assert l.SecondAt() - l.FirstAt() == l.Separation();
    if l.Separation() <= l.blocked {
      ParseFour(b1, b2, c1, c2, timeout);
      var d := if l.Separation() <= timeout then Some(FirstBeamDirection(l.First())) else None;
      var p := Parsed(Parser({l.First(), l.Second()}, Some(l.First()), Some(l.FirstAt()), d), []);
      assert ParseEvent(ParseEvent(Parsed(IDLE, []), b1, timeout), b2, timeout) == p;
      assert {l.First(), l.Second()} - {l.First()} == {l.Second()};
      assert ParseEvent(ParseEvent(p, c1, timeout), c2, timeout) ==
             Parsed(IDLE, [Crossing(d, l.FirstAt(), l.SecondAt() + l.blocked)]);
      assert [Crossing(d, l.FirstAt(), l.SecondAt() + l.blocked)] == [Expected(l)] <==> l.Separation() <= timeout;
    } else {
      ParseFour(b1, c1, b2, c2, timeout);
      assert |Crossings([b1, c1, b2, c2], timeout)| == 2;
    }
  }

  /** Each load starts once the one before has cleared. */
  ghost predicate OneAfterAnother(loads: seq<Load>) {
    && (forall i :: 0 <= i < |loads| ==> loads[i].Separation() <= loads[i].blocked)
    && forall i :: 0 < i < |loads| ==> loads[i - 1].SecondAt() + loads[i - 1].blocked <= loads[i].FirstAt()
  }

  function AllEvents(loads: seq<Load>): seq<GateEvent> {
    if loads == [] then [] else AllEvents(loads[..|loads| - 1]) + GateCrossing(loads[|loads| - 1])
  }

  function AllExpected(loads: seq<Load>): (r: seq<Crossing>)
    ensures |r| == |loads| && forall i :: 0 <= i < |loads| ==> r[i] == Expected(loads[i])
  {
    seq(|loads|, (i: nat) requires i < |loads| => Expected(loads[i]))
  }

  lemma OrderedConcat(a: seq<GateEvent>, b: seq<GateEvent>)
    requires TimeOrdered(a) && TimeOrdered(b)
    requires forall i, j :: 0 <= i < |a| && 0 <= j < |b| ==> a[i].at <= b[j].at
    ensures TimeOrdered(a + b)
  {
  }

  /** The events of one load are in time order, from its first beam breaking to its last one clearing. */
  lemma CrossingSpan(l: Load)
    requires l.Separation() <= l.blocked
    ensures TimeOrdered(GateCrossing(l))
    ensures forall i :: 0 <= i < |GateCrossing(l)| ==> l.FirstAt() <= GateCrossing(l)[i].at <= l.SecondAt() + l.blocked
  {
    EventOrder(l);
    hide GateCrossing;
  }

  ghost predicate NoneAfter(events: seq<GateEvent>, end: Time) {
    forall i :: 0 <= i < |events| ==> events[i].at <= end
  }

  /** The events of loads one after another, as the database returns them, are in time order. */
  lemma {:induction false} EventsInOrder(loads: seq<Load>)
    requires OneAfterAnother(loads)
    ensures TimeOrdered(AllEvents(loads))
    ensures loads != [] ==> NoneAfter(AllEvents(loads), loads[|loads| - 1].SecondAt() + loads[|loads| - 1].blocked)
  {
    hide GateCrossing, TimeOrdered;
    if loads == [] {
      NothingInOrder();
    } else {
      var front, l := loads[..|loads| - 1], loads[|loads| - 1];
      EventsInOrder(front);
      CrossingSpan(l);
      assert NoneAfter(AllEvents(front), l.FirstAt());
      OrderedConcat(AllEvents(front), GateCrossing(l));
    }
  }

  lemma NothingInOrder()
    ensures TimeOrdered([])
  {
  }

  /** A day's traffic parses back to one crossing a load, in order, with its start, end and direction. */
  lemma {:induction false} TrafficRoundTrip(loads: seq<Load>, timeout: Time)
    requires OneAfterAnother(loads)
    requires forall i :: 0 <= i < |loads| ==> loads[i].Separation() <= timeout
    ensures Crossings(AllEvents(loads), timeout) == AllExpected(loads)
    ensures Blocked(AllEvents(loads)) == {}
  {
    if loads != [] {
      var front, l := loads[..|loads| - 1], loads[|loads| - 1];
      TrafficRoundTrip(front, timeout);
      RoundTripIff(l, timeout);
      AfterClear(AllEvents(front), GateCrossing(l), timeout);
      var i := ParserMeans(AllEvents(loads), timeout);
      var j := ParserMeans(GateCrossing(l), timeout);
    }
  }
}
