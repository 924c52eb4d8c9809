/**
 Which way something went, from the beam events of an infrared gate: the parser
 that turns events into crossings, what a crossing is, and the matching of
 crossings to observations.
*/
module GateDirection {
  import opened Basics
  import opened Transitions

  datatype Beam = Inner | Outer

  datatype BeamState = Broken | Clear

  datatype GateEvent = GateEvent(beam: Beam, state: BeamState, at: Time)

  datatype Crossing = Crossing(direction: Option<Direction>, startedAt: Time, endedAt: Time) {
    function Midpoint(): Time {
      startedAt + (endedAt - startedAt) / 2.0
    }
  }

  /** The beam on the warehouse side breaks first on the way out, the street side on the way in. */
  function FirstBeamDirection(b: Beam): Direction {
    if b == Inner then Out else In
  }

  // ----- the parser -----

  /** What the parser remembers between events. */
  datatype Parser = Parser(
    broken: set<Beam>, firstBeam: Option<Beam>, startedAt: Option<Time>, direction: Option<Direction>)

  datatype Parsed = Parsed(state: Parser, crossings: seq<Crossing>)

  const IDLE := Parser({}, None, None, None)

  function ParseEvent(p: Parsed, e: GateEvent, timeout: Time): Parsed {
    var s := p.state;
    match e.state
    case Broken =>
      var begun :=
        if s.broken == {} then s.(firstBeam := Some(e.beam), startedAt := Some(e.at), direction := None)
        else if s.direction.None? && s.firstBeam.Some? && e.beam != s.firstBeam.value
                && s.startedAt.Some? && e.at - s.startedAt.value <= timeout
        then s.(direction := Some(FirstBeamDirection(s.firstBeam.value)))
        else s;
      Parsed(begun.(broken := begun.broken + {e.beam}), p.crossings)
    case Clear =>
      var left := s.broken - {e.beam};
      if left == {} && s.startedAt.Some? then
        Parsed(Parser(left, None, None, None), p.crossings + [Crossing(s.direction, s.startedAt.value, e.at)])
      else Parsed(s.(broken := left), p.crossings)
  }

  function Parse(events: seq<GateEvent>, timeout: Time): Parsed {
    if events == [] then Parsed(IDLE, [])
    else ParseEvent(Parse(events[..|events| - 1], timeout), events[|events| - 1], timeout)
  }

  /** The crossings in a stretch of events in time order. */
  function Crossings(events: seq<GateEvent>, timeout: Time): seq<Crossing> {
    Parse(events, timeout).crossings
  }

  /** The parser as the loop it is. */
  method CrossingsFromEvents(events: seq<GateEvent>, timeout: Time) returns (crossings: seq<Crossing>)
    ensures crossings == Crossings(events, timeout)
  {
    crossings := [];
    var broken: map<Beam, Time> := map[];
    var firstBeam: Option<Beam> := None;
    var startedAt: Option<Time> := None;
    var direction: Option<Direction> := None;
    for i := 0 to |events|
      invariant Parse(events[..i], timeout) ==
                Parsed(Parser(broken.Keys, firstBeam, startedAt, direction), crossings)
    {
      var e := events[i];
      assert events[..i + 1][..i] == events[..i];
      if e.state == Broken {
        if broken == map[] {
          firstBeam, startedAt, direction := Some(e.beam), Some(e.at), None;
        } else if direction.None? && firstBeam.Some? && e.beam != firstBeam.value
                  && startedAt.Some? && e.at - startedAt.value <= timeout {
          direction := Some(FirstBeamDirection(firstBeam.value));
        }
        broken := broken[e.beam := e.at];
      } else {
        broken := broken - {e.beam};
        if broken == map[] && startedAt.Some? {
          crossings := crossings + [Crossing(direction, startedAt.value, e.at)];
          firstBeam, startedAt, direction := None, None, None;
        }
      }
    }
    assert events[..|events|] == events;
  }

  // ----- what a crossing is -----

  /** The beams broken after these events. */
  function Blocked(events: seq<GateEvent>): set<Beam> {
    if events == [] then {}
    else
      var e := events[|events| - 1];
      if e.state == Broken then Blocked(events[..|events| - 1]) + {e.beam}
      else Blocked(events[..|events| - 1]) - {e.beam}
  }

  /** Something is in the gate from event i on, up to and not including event j. */
  ghost predicate InGate(events: seq<GateEvent>, i: nat, j: nat) {
    && i < j <= |events|
    && Blocked(events[..i]) == {}
    && (forall m :: i < m <= j - 1 ==> Blocked(events[..m]) != {})
    && events[i].state == Broken
  }

  /** The other beam follows the first within the timeout, no later than event j - 1. */
  ghost predicate Confirmed(events: seq<GateEvent>, timeout: Time, i: nat, j: nat)
    requires i < j <= |events|
  {
    exists m :: i < m < j && events[m].state == Broken && events[m].beam != events[i].beam
                && events[m].at - events[i].at <= timeout
  }

  function DirectionIf(confirmed: bool, first: Beam): Option<Direction> {
    if confirmed then Some(FirstBeamDirection(first)) else None
  }

  /** c is a whole passage: it enters a clear gate at event i and clears it at event j. */
  ghost predicate Passage(events: seq<GateEvent>, timeout: Time, i: nat, j: nat, c: Crossing) {
    && j < |events| && InGate(events, i, j + 1)
    && Blocked(events[..j + 1]) == {}
    && c == Crossing(DirectionIf(Confirmed(events, timeout, i, j + 1), events[i].beam), events[i].at, events[j].at)
  }

  /** What the parser's state means: nothing going on, or a passage begun at event i. */
  ghost predicate StateMeans(events: seq<GateEvent>, timeout: Time, s: Parser, i: nat) {
    && s.broken == Blocked(events)
    && (s.broken == {} ==> s == IDLE)
    && (s.broken != {} ==>
          && InGate(events, i, |events|)
          && s.firstBeam == Some(events[i].beam) && s.startedAt == Some(events[i].at)
          && s.direction == DirectionIf(Confirmed(events, timeout, i, |events|), events[i].beam))
  }

  lemma InGateLonger(events: seq<GateEvent>, e: GateEvent, i: nat)
    requires InGate(events, i, |events|) && Blocked(events) != {}
    ensures InGate(events + [e], i, |events| + 1)
  {
    var longer := events + [e];
    forall m | i < m <= |events|
      ensures Blocked(longer[..m]) != {}
    {
      assert longer[..m] == events[..m];
      if m == |events| {
        assert events[..m] == events;
      }
    }
    assert longer[..i] == events[..i];
  }

  lemma ConfirmedLonger(events: seq<GateEvent>, e: GateEvent, timeout: Time, i: nat)
    requires i < |events|
    ensures Confirmed(events + [e], timeout, i, |events| + 1) <==>
            Confirmed(events, timeout, i, |events|) ||
            (e.state == Broken && e.beam != events[i].beam && e.at - events[i].at <= timeout)
  {
    var longer := events + [e];
    if Confirmed(events, timeout, i, |events|) {
      var m :| i < m < |events| && events[m].state == Broken && events[m].beam != events[i].beam
               && events[m].at - events[i].at <= timeout;
      assert longer[m] == events[m];
    }
    assert longer[|events|] == e;
  }

  lemma {:induction false} ParserMeans(events: seq<GateEvent>, timeout: Time) returns (i: nat)
    ensures StateMeans(events, timeout, Parse(events, timeout).state, i)
  {
    if events == [] {
      i := 0;
    } else {
      var front, e := events[..|events| - 1], events[|events| - 1];
      assert events == front + [e];
      i := ParserMeans(front, timeout);
      var s := Parse(front, timeout).state;
      if s.broken == {} {
        i := |front|;
        if e.state == Broken {
          assert !Confirmed(events, timeout, i, |events|);
        }
      } else {
        InGateLonger(front, e, i);
        ConfirmedLonger(front, e, timeout, i);
      }
    }
  }

  lemma PassageLonger(front: seq<GateEvent>, e: GateEvent, timeout: Time, i: nat, j: nat, c: Crossing)
    requires j < |front|
    ensures Passage(front + [e], timeout, i, j, c) <==> Passage(front, timeout, i, j, c)
  {
    var events := front + [e];
    assert forall m :: 0 <= m <= |front| ==> events[..m] == front[..m];
    if i < j + 1 {
      assert Confirmed(events, timeout, i, j + 1) <==> Confirmed(front, timeout, i, j + 1) by {
        assert forall m :: i <= m < j + 1 ==> events[m] == front[m];
      }
    }
  }

  /** Something in the gate entered it at one event only. */
  lemma OneEntrance(front: seq<GateEvent>, e: GateEvent, i: nat, start: nat)
    requires InGate(front + [e], i, |front| + 1)
    requires Blocked(front) != {} && InGate(front, start, |front|)
    ensures i == start
  {
    var events := front + [e];
    assert forall m :: 0 <= m <= |front| ==> events[..m] == front[..m];
    assert front[..|front|] == front;
    assert Blocked(events[..start]) == {};
  }

  /** With the gate clear there is nothing for an event to end. */
  lemma NothingToEnd(front: seq<GateEvent>, e: GateEvent, timeout: Time, i: nat, c: Crossing)
    requires Blocked(front) == {}
    ensures !Passage(front + [e], timeout, i, |front|, c)
  {
    var events := front + [e];
    assert events[..|front|] == front && events[..|front| + 1] == events;
  }

  /** The passage that ends with the last event, if one does. */
  lemma LastPassage(front: seq<GateEvent>, e: GateEvent, timeout: Time, c: Crossing)
    ensures (exists i :: Passage(front + [e], timeout, i, |front|, c)) <==>
            Parse(front + [e], timeout).crossings == Parse(front, timeout).crossings + [c]
  {
    var events := front + [e];
    assert events[..|front|] == front && events[..|front| + 1] == events;
    var start := ParserMeans(front, timeout);
    var s := Parse(front, timeout).state;
    if s.broken == {} {
      forall i: nat
        ensures !Passage(events, timeout, i, |front|, c)
      {
        NothingToEnd(front, e, timeout, i, c);
      }
    } else {
      InGateLonger(front, e, start);
      ConfirmedLonger(front, e, timeout, start);
      forall i: nat | Passage(events, timeout, i, |front|, c)
        ensures i == start
      {
        OneEntrance(front, e, i, start);
      }
      assert events[start] == front[start] && events[|front|] == e;
      var whole := Crossing(s.direction, s.startedAt.value, e.at);
      if e.state == Clear && s.broken - {e.beam} == {} {
        assert Parse(events, timeout).crossings == Parse(front, timeout).crossings + [whole];
        assert Passage(events, timeout, start, |front|, whole);
        assert Passage(events, timeout, start, |front|, c) <==> c == whole;
        assert (Parse(front, timeout).crossings + [whole])[|Parse(front, timeout).crossings|] == whole;
      } else {
        assert Parse(events, timeout).crossings == Parse(front, timeout).crossings;
        assert !Passage(events, timeout, start, |front|, c);
      }
    }
  }

  /**
   The crossings found are exactly the passages through the gate: from a beam
   breaking when it was clear to its being clear again, with a direction exactly
   when the other beam broke in time.
  */
  lemma {:induction false} CrossingsArePassages(events: seq<GateEvent>, timeout: Time, c: Crossing)
    ensures c in Crossings(events, timeout) <==> exists i, j :: Passage(events, timeout, i, j, c)
  {
    if events != [] {
      var front, e := events[..|events| - 1], events[|events| - 1];
      assert events == front + [e];
      CrossingsArePassages(front, timeout, c);
      LastPassage(front, e, timeout, c);
      forall i: nat, j: nat | j < |front|
        ensures Passage(events, timeout, i, j, c) <==> Passage(front, timeout, i, j, c)
      {
        PassageLonger(front, e, timeout, i, j, c);
      }
      assert |Crossings(events, timeout)| <= |Crossings(front, timeout)| + 1;
      assert Crossings(front, timeout) <= Crossings(events, timeout);
    }
  }

  // ----- each passage once, and in order -----

  /** The event with which a passage enters the gate, and the one with which it has left. */
  datatype Through = Through(entered: nat, left: nat)

  /** These are all the passages, one after the other, and these the crossings they make. */
  ghost predicate InOrder(events: seq<GateEvent>, timeout: Time, passages: seq<Through>, crossings: seq<Crossing>) {
    && |passages| == |crossings|
    && (forall n :: 0 <= n < |passages| ==>
          Passage(events, timeout, passages[n].entered, passages[n].left, crossings[n]))
    && (forall m, n :: 0 <= m < n < |passages| ==> passages[m].left < passages[n].entered)
    && (forall i, j, c :: Passage(events, timeout, i, j, c) ==> Through(i, j) in passages)
  }

  lemma OnePassageEndsHere(events: seq<GateEvent>, timeout: Time, i: nat, k: nat, j: nat, c: Crossing, d: Crossing)
    requires Passage(events, timeout, i, j, c) && Passage(events, timeout, k, j, d)
    ensures i == k
  {
    assert Blocked(events[..i]) == {} && Blocked(events[..k]) == {};
  }

  lemma LeftBeforeEntered(events: seq<GateEvent>, timeout: Time, i: nat, j: nat, c: Crossing, k: nat, l: nat,
                          d: Crossing)
    requires Passage(events, timeout, i, j, c) && Passage(events, timeout, k, l, d) && j < l
    ensures j < k
  {
    assert Blocked(events[..j + 1]) == {};
  }

  lemma PassagesKept(front: seq<GateEvent>, e: GateEvent, timeout: Time, passages: seq<Through>,
                     crossings: seq<Crossing>)
    requires InOrder(front, timeout, passages, crossings)
    ensures forall n :: 0 <= n < |passages| ==>
              Passage(front + [e], timeout, passages[n].entered, passages[n].left, crossings[n])
    ensures forall i, j, c :: Passage(front + [e], timeout, i, j, c) ==> j == |front| || Through(i, j) in passages
  {
    hide Confirmed, InGate;
    forall n | 0 <= n < |passages|
      ensures Passage(front + [e], timeout, passages[n].entered, passages[n].left, crossings[n])
    {
      PassageLonger(front, e, timeout, passages[n].entered, passages[n].left, crossings[n]);
    }
    forall i: nat, j: nat, c | Passage(front + [e], timeout, i, j, c)
      ensures j == |front| || Through(i, j) in passages
    {
      if j < |front| {
        PassageLonger(front, e, timeout, i, j, c);
      }
    }
  }

  lemma OneMorePassage(front: seq<GateEvent>, e: GateEvent, timeout: Time, passages: seq<Through>,
                       crossings: seq<Crossing>, i: nat, c: Crossing)
    requires InOrder(front, timeout, passages, crossings) && Passage(front + [e], timeout, i, |front|, c)
    ensures InOrder(front + [e], timeout, passages + [Through(i, |front|)], crossings + [c])
  {
    var events, more := front + [e], passages + [Through(i, |front|)];
    PassagesKept(front, e, timeout, passages, crossings);
    forall m | 0 <= m < |passages|
      ensures passages[m].left < i
    {
      assert Passage(front, timeout, passages[m].entered, passages[m].left, crossings[m]);
      LeftBeforeEntered(events, timeout, passages[m].entered, passages[m].left, crossings[m], i, |front|, c);
    }
    forall k: nat, j: nat, d | Passage(events, timeout, k, j, d)
      ensures Through(k, j) in more
    {
      if j == |front| {
        OnePassageEndsHere(events, timeout, i, k, j, c, d);
      }
    }
    hide Passage;
  }

  /** The crossings found are the passages through the gate, each once and in the order they were made. */
  lemma {:induction false} EachPassageOnce(events: seq<GateEvent>, timeout: Time) returns (passages: seq<Through>)
    ensures InOrder(events, timeout, passages, Crossings(events, timeout))
  {
    if events == [] {
      passages := [];
    } else {
      hide Passage, ParseEvent;
      var front, e := events[..|events| - 1], events[|events| - 1];
      assert events == front + [e];
      passages := EachPassageOnce(front, timeout);
      var before, after := Crossings(front, timeout), Crossings(events, timeout);
      if after != [] && after == before + [after[|after| - 1]] {
        var c := after[|after| - 1];
        LastPassage(front, e, timeout, c);
        var i :| Passage(front + [e], timeout, i, |front|, c);
        OneMorePassage(front, e, timeout, passages, before, i, c);
        passages := passages + [Through(i, |front|)];
      } else {
        NoPassageEnds(front, e, timeout);
        PassagesKept(front, e, timeout, passages, before);
      }
    }
  }

  /** No crossing more: none ends with this event. */
  lemma NoPassageEnds(front: seq<GateEvent>, e: GateEvent, timeout: Time)
    requires var before, after := Crossings(front, timeout), Crossings(front + [e], timeout);
             after == [] || after != before + [after[|after| - 1]]
    ensures Crossings(front + [e], timeout) == Crossings(front, timeout)
    ensures forall i, j, c :: Passage(front + [e], timeout, i, j, c) ==> j != |front|
  {
    hide Passage;
    assert (front + [e])[..|front|] == front;
    forall i: nat, c | Passage(front + [e], timeout, i, |front|, c)
      ensures false
    {
      LastPassage(front, e, timeout, c);
    }
  }
}
