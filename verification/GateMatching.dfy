/**
 Matching crossings to observations: the nearest crossing that overlaps, found
 from the stretch of beam events around a batch of observations.
*/
module GateMatching {
  import opened Basics
  import opened Transitions
  import opened GateDirection

  const GATE_LOOKUP_MARGIN_S: Time := 5.0

  // ----- cutting a stream of events -----

  lemma ParseLonger(events: seq<GateEvent>, e: GateEvent, timeout: Time)
    ensures Parse(events + [e], timeout) == ParseEvent(Parse(events, timeout), e, timeout)
  {
    assert (events + [e])[..|events|] == events;
  }

  /** What the parser does next does not depend on the crossings behind it. */
  lemma ParseEventAdds(state: Parser, before: seq<Crossing>, cs: seq<Crossing>, e: GateEvent, timeout: Time)
    ensures ParseEvent(Parsed(state, before + cs), e, timeout) ==
            var next := ParseEvent(Parsed(state, cs), e, timeout); Parsed(next.state, before + next.crossings)
  {
  }

  lemma {:induction false} AfterClear(a: seq<GateEvent>, b: seq<GateEvent>, timeout: Time)
    requires Blocked(a) == {}
    ensures Parse(a + b, timeout) ==
            Parsed(Parse(b, timeout).state, Crossings(a, timeout) + Crossings(b, timeout))
  {
    if b == [] {
      assert a + b == a;
      var i := ParserMeans(a, timeout);
    } else {
      hide Parse, ParseEvent;
      var front, e := b[..|b| - 1], b[|b| - 1];
      AfterClear(a, front, timeout);
      assert b == front + [e] && a + b == (a + front) + [e];
      ParseLonger(front, e, timeout);
      ParseLonger(a + front, e, timeout);
      ParseEventAdds(Parse(front, timeout).state, Crossings(a, timeout), Crossings(front, timeout), e, timeout);
      assert Parse(front, timeout) == Parsed(Parse(front, timeout).state, Crossings(front, timeout));
    }
  }

  /**
   A stream of events can be cut in two, and parsed in parts, whatever is to come,
   exactly where the gate is clear.
  */
  lemma CutWhereClearIff(a: seq<GateEvent>, timeout: Time)
    ensures (forall b :: Crossings(a + b, timeout) == Crossings(a, timeout) + Crossings(b, timeout))
            <==> Blocked(a) == {}
  {
    if Blocked(a) == {} {
      forall b
        ensures Crossings(a + b, timeout) == Crossings(a, timeout) + Crossings(b, timeout)
      {
        AfterClear(a, b, timeout);
      }
    } else {
      var e1, e2 := GateEvent(Inner, Clear, 0.0), GateEvent(Outer, Clear, 0.0);
      OnlyClears([e1, e2], timeout);
      ClearingEndsIt(a, e1, e2, timeout);
      assert Crossings(a + [e1, e2], timeout) != Crossings(a, timeout) + Crossings([e1, e2], timeout);
    }
  }

  lemma {:induction false} OnlyClears(b: seq<GateEvent>, timeout: Time)
    requires forall i :: 0 <= i < |b| ==> b[i].state == Clear
    ensures Parse(b, timeout) == Parsed(IDLE, [])
  {
    if b != [] {
      OnlyClears(b[..|b| - 1], timeout);
      assert IDLE.broken - {b[|b| - 1].beam} == {};
    }
  }

  lemma ClearingEndsIt(a: seq<GateEvent>, e1: GateEvent, e2: GateEvent, timeout: Time)
    requires Blocked(a) != {} && e1.state == Clear && e2.state == Clear && e1.beam == Inner && e2.beam == Outer
    ensures |Crossings(a + [e1, e2], timeout)| == |Crossings(a, timeout)| + 1
  {
    var i := ParserMeans(a, timeout);
    assert (a + [e1])[..|a|] == a && (a + [e1, e2])[..|a| + 1] == a + [e1];
    var s := Parse(a, timeout).state;
    TwoBeams(s.broken);
    var left := s.broken - {Inner};
    assert left - {Outer} == {};
    if left == {} {
      assert Parse(a + [e1], timeout).state.startedAt.None?;
    }
  }

  lemma TwoBeams(beams: set<Beam>)
    ensures beams <= {Inner, Outer}
  {
    forall b | b in beams
      ensures b in {Inner, Outer}
    {
      match b
      case Inner =>
      case Outer =>
    }
  }

  /** What comes later adds crossings at the end, each ending with a later event. */
  lemma {:induction false} CrossingsGrow(a: seq<GateEvent>, b: seq<GateEvent>, timeout: Time)
    ensures Crossings(a, timeout) <= Crossings(a + b, timeout)
    ensures forall i :: |Crossings(a, timeout)| <= i < |Crossings(a + b, timeout)| ==>
              exists e :: e in b && Crossings(a + b, timeout)[i].endedAt == e.at
  {
    if b == [] {
      assert a + b == a;
    } else {
      var front, last := b[..|b| - 1], b[|b| - 1];
      CrossingsGrow(a, front, timeout);
      assert (a + b)[..|a + b| - 1] == a + front;
      forall i | |Crossings(a, timeout)| <= i < |Crossings(a + b, timeout)|
        ensures exists e :: e in b && Crossings(a + b, timeout)[i].endedAt == e.at
      {
        if i < |Crossings(a + front, timeout)| {
          var e :| e in front && Crossings(a + front, timeout)[i].endedAt == e.at;
          assert e in b;
        } else {
          assert last in b && Crossings(a + b, timeout)[i].endedAt == last.at;
        }
      }
    }
  }

  lemma ParseFour(e1: GateEvent, e2: GateEvent, e3: GateEvent, e4: GateEvent, timeout: Time)
    ensures Parse([e1, e2, e3, e4], timeout) ==
            ParseEvent(ParseEvent(ParseEvent(ParseEvent(Parsed(IDLE, []), e1, timeout), e2, timeout), e3, timeout),
                       e4, timeout)
    ensures Blocked([e1, e2, e3, e4]) == Parse([e1, e2, e3, e4], timeout).state.broken
  {
    assert [e1, e2, e3, e4][..3] == [e1, e2, e3] && [e1, e2, e3][..2] == [e1, e2];
    assert [e1, e2][..1] == [e1] && [e1][..0] == [];
    assert Parse([e1], timeout) == ParseEvent(Parsed(IDLE, []), e1, timeout);
    assert Parse([e1, e2], timeout) == ParseEvent(Parse([e1], timeout), e2, timeout);
    assert Parse([e1, e2, e3], timeout) == ParseEvent(Parse([e1, e2], timeout), e3, timeout);
    var i := ParserMeans([e1, e2, e3, e4], timeout);
  }

  // ----- windows in time -----

  ghost predicate TimeOrdered(events: seq<GateEvent>) {
    forall i, j :: 0 <= i < j < |events| ==> events[i].at <= events[j].at
  }

  /** The events in a window, as the database selects them. */
  function Between(events: seq<GateEvent>, lo: Time, hi: Time): seq<GateEvent> {
    if events == [] then []
    else
      var e := events[|events| - 1];
      Between(events[..|events| - 1], lo, hi) + if lo <= e.at <= hi then [e] else []
  }

  function Earlier(events: seq<GateEvent>, lo: Time): (r: seq<GateEvent>)
    ensures forall i :: 0 <= i < |r| ==> r[i].at < lo
  {
    if events == [] then []
    else
      var e := events[|events| - 1];
      Earlier(events[..|events| - 1], lo) + if e.at < lo then [e] else []
  }

  function Later(events: seq<GateEvent>, hi: Time): (r: seq<GateEvent>)
    ensures forall i :: 0 <= i < |r| ==> r[i].at > hi
  {
    if events == [] then []
    else
      var e := events[|events| - 1];
      Later(events[..|events| - 1], hi) + if e.at > hi then [e] else []
  }

  lemma {:induction false} NoneLater(events: seq<GateEvent>, hi: Time)
    requires forall i :: 0 <= i < |events| ==> events[i].at <= hi
    ensures Later(events, hi) == []
  {
    if events != [] {
      NoneLater(events[..|events| - 1], hi);
    }
  }

  lemma {:induction false} NoneBetween(events: seq<GateEvent>, lo: Time, hi: Time)
    requires forall i :: 0 <= i < |events| ==> events[i].at < lo
    ensures Between(events, lo, hi) == []
  {
    if events != [] {
      NoneBetween(events[..|events| - 1], lo, hi);
    }
  }

  lemma Regroup(a: seq<GateEvent>, b: seq<GateEvent>, c: seq<GateEvent>, e: GateEvent)
    ensures (a + b + c) + [e] == a + b + (c + [e])
    ensures c == [] ==> (a + b + c) + [e] == a + (b + [e]) + c
    ensures b == [] && c == [] ==> (a + b + c) + [e] == (a + [e]) + b + c
  {
  }

  lemma WindowsLonger(front: seq<GateEvent>, e: GateEvent, lo: Time, hi: Time)
    requires lo <= hi
    ensures Earlier(front + [e], lo) == if e.at < lo then Earlier(front, lo) + [e] else Earlier(front, lo)
    ensures Between(front + [e], lo, hi) ==
            if lo <= e.at <= hi then Between(front, lo, hi) + [e] else Between(front, lo, hi)
    ensures Later(front + [e], hi) == if e.at > hi then Later(front, hi) + [e] else Later(front, hi)
  {
    assert (front + [e])[..|front|] == front;
  }

  lemma LastIsLatest(front: seq<GateEvent>, e: GateEvent)
    requires TimeOrdered(front + [e])
    ensures TimeOrdered(front) && forall i :: 0 <= i < |front| ==> front[i].at <= e.at
  {
    var all := front + [e];
    forall i | 0 <= i < |front|
      ensures front[i].at <= e.at
    {
      assert all[i].at <= all[|front|].at;
    }
    PrefixInOrder(front, [e]);
  }

  lemma SliceLonger(front: seq<GateEvent>, e: GateEvent, lo: Time, hi: Time)
    requires lo <= hi && forall i :: 0 <= i < |front| ==> front[i].at <= e.at
    requires front == Earlier(front, lo) + Between(front, lo, hi) + Later(front, hi)
    ensures front + [e] == Earlier(front + [e], lo) + Between(front + [e], lo, hi) + Later(front + [e], hi)
  {
    WindowsLonger(front, e, lo, hi);
    if e.at <= hi {
      NoneLater(front, hi);
    }
    if e.at < lo {
      NoneBetween(front, lo, hi);
    }
    Regroup(Earlier(front, lo), Between(front, lo, hi), Later(front, hi), e);
  }

  lemma {:induction false} WindowIsASlice(events: seq<GateEvent>, lo: Time, hi: Time)
    requires TimeOrdered(events) && lo <= hi
    ensures events == Earlier(events, lo) + Between(events, lo, hi) + Later(events, hi)
  {
    if events != [] {
      var front, e := events[..|events| - 1], events[|events| - 1];
      assert events == front + [e];
      LastIsLatest(front, e);
      WindowIsASlice(front, lo, hi);
      SliceLonger(front, e, lo, hi);
    }
  }

  // ----- the nearest crossing -----

  predicate Overlaps(c: Crossing, first: Time, last: Time) {
    c.startedAt <= last && c.endedAt >= first
  }

  function Overlapping(cs: seq<Crossing>, first: Time, last: Time): (r: seq<Crossing>)
    ensures forall c :: c in r <==> c in cs && Overlaps(c, first, last)
  {
    if cs == [] then []
    else if Overlaps(cs[0], first, last) then [cs[0]] + Overlapping(cs[1..], first, last)
    else Overlapping(cs[1..], first, last)
  }

  function Distance(c: Crossing, middle: Time): Time {
    if c.Midpoint() >= middle then c.Midpoint() - middle else middle - c.Midpoint()
  }

  /** The first of the crossings whose midpoints are nearest. */
  function Nearest(cs: seq<Crossing>, middle: Time): (c: Crossing)
    requires cs != []
  {
    if |cs| == 1 then cs[0]
    else
      var rest := Nearest(cs[1..], middle);
      if Distance(cs[0], middle) <= Distance(rest, middle) then cs[0] else rest
  }

  /** How far the middle of a crossing is from the middle of the reads, twice over. */
  function Apart(c: Crossing, first: Time, last: Time): Time {
    var ahead := (c.startedAt + c.endedAt) - (first + last);
    if ahead >= 0.0 then ahead else -ahead
  }

  lemma DistanceIsApart(c: Crossing, first: Time, last: Time)
    ensures 2.0 * Distance(c, first + (last - first) / 2.0) == Apart(c, first, last)
  {
    assert 2.0 * c.Midpoint() == c.startedAt + c.endedAt;
  }

  /** No crossing's middle is nearer to that of the reads, and those before the one found are farther. */
  lemma {:induction false} NearestIsFirstNearest(cs: seq<Crossing>, first: Time, last: Time) returns (i: nat)
    requires cs != []
    ensures i < |cs| && Nearest(cs, first + (last - first) / 2.0) == cs[i]
    ensures forall j :: 0 <= j < |cs| ==> Apart(cs[i], first, last) <= Apart(cs[j], first, last)
    ensures forall j :: 0 <= j < i ==> Apart(cs[i], first, last) < Apart(cs[j], first, last)
  {
    i := 0;
    if |cs| > 1 {
      hide Apart, Distance;
      var k := NearestIsFirstNearest(cs[1..], first, last);
      var best := Apart(cs[1..][k], first, last);
      forall j | 0 < j < |cs|
        ensures best <= Apart(cs[j], first, last) && (j <= k ==> best < Apart(cs[j], first, last))
      {
        assert cs[j] == cs[1..][j - 1];
      }
      DistanceIsApart(cs[0], first, last);
      DistanceIsApart(cs[1..][k], first, last);
      if Apart(cs[0], first, last) > best {
        i := k + 1;
      }
    }
  }

  /** The direction of the nearest of these crossings. */
  function DirectionOf(cs: seq<Crossing>, middle: Time): Option<Direction> {
    if cs == [] then None else Nearest(cs, middle).direction
  }

  function DirectionForWindow(first: Time, last: Time, cs: seq<Crossing>, tolerance: Time): Option<Direction> {
    DirectionOf(Overlapping(cs, first - tolerance, last + tolerance), first + (last - first) / 2.0)
  }

  // ----- the nearest of those that overlap -----

  /** This crossing overlaps the reads; none that does is nearer, and those that come before it are farther. */
  ghost predicate NearestOfAll(cs: seq<Crossing>, i: int, first: Time, last: Time) {
    && 0 <= i < |cs| && cs[i].startedAt <= last && cs[i].endedAt >= first
    && forall j :: 0 <= j < |cs| && cs[j].startedAt <= last && cs[j].endedAt >= first ==>
         && Apart(cs[i], first, last) <= Apart(cs[j], first, last)
         && (j < i ==> Apart(cs[i], first, last) < Apart(cs[j], first, last))
  }

  /** One of the crossings that overlap is the nearest, and its direction is the one found. */
  lemma {:induction false} NearestIsFound(first: Time, last: Time, cs: seq<Crossing>) returns (i: int)
    ensures var d := DirectionForWindow(first, last, cs, 0.0);
            if Overlapping(cs, first, last) == [] then i == -1 && d == None
            else NearestOfAll(cs, i, first, last) && d == cs[i].direction
                 && Nearest(Overlapping(cs, first, last), first + (last - first) / 2.0) == cs[i]
  {
    i := -1;
    if cs != [] {
      hide Apart, Distance;
      var middle := first + (last - first) / 2.0;
      var k := NearestIsFound(first, last, cs[1..]);
      var rest := Overlapping(cs[1..], first, last);
      i := if k < 0 then -1 else k + 1;
      if Overlaps(cs[0], first, last) {
        assert ([cs[0]] + rest)[1..] == rest;
        DistanceIsApart(cs[0], first, last);
        if k < 0 {
          i := 0;
        } else {
          DistanceIsApart(cs[i], first, last);
          if Apart(cs[0], first, last) <= Apart(cs[i], first, last) {
            i := 0;
          }
        }
      }
      if i >= 0 {
        forall j | 0 < j < |cs| && cs[j].startedAt <= last && cs[j].endedAt >= first
          ensures k >= 0 && Apart(cs[k + 1], first, last) <= Apart(cs[j], first, last)
          ensures j <= k ==> Apart(cs[k + 1], first, last) < Apart(cs[j], first, last)
        {
          assert cs[j] == cs[1..][j - 1];
          assert cs[j] in rest;
        }
      }
    }
  }

  /** Whichever of the crossings that overlap is the nearest gives the direction; where none overlaps there is none. */
  lemma DirectionIsOfTheNearest(first: Time, last: Time, cs: seq<Crossing>)
    ensures var d := DirectionForWindow(first, last, cs, 0.0);
            && ((forall i :: 0 <= i < |cs| ==> !(cs[i].startedAt <= last && cs[i].endedAt >= first)) ==> d == None)
            && (forall i :: NearestOfAll(cs, i, first, last) ==> d == cs[i].direction)
    ensures (exists i :: 0 <= i < |cs| && cs[i].startedAt <= last && cs[i].endedAt >= first) ==>
              exists i :: NearestOfAll(cs, i, first, last)
  {
    hide Apart, DirectionForWindow, Nearest;
    var k := NearestIsFound(first, last, cs);
    if k < 0 {
      assert forall i :: 0 <= i < |cs| ==> cs[i] !in Overlapping(cs, first, last);
    }
    assert forall i :: NearestOfAll(cs, i, first, last) ==> i == k;
  }

  // ----- looking up a whole batch at once -----

  lemma {:induction false} OverlappingConcat(a: seq<Crossing>, b: seq<Crossing>, first: Time, last: Time)
    ensures Overlapping(a + b, first, last) == Overlapping(a, first, last) + Overlapping(b, first, last)
  {
    if a == [] {
      assert a + b == b;
    } else {
      OverlappingConcat(a[1..], b, first, last);
      assert (a + b)[1..] == a[1..] + b;
      var rest := Overlapping(a[1..], first, last);
      assert [a[0]] + (rest + Overlapping(b, first, last)) == ([a[0]] + rest) + Overlapping(b, first, last);
    }
  }

  /** In time order a crossing does not end before it starts, and it ends at the time of an event. */
  lemma CrossingTimes(events: seq<GateEvent>, timeout: Time, c: Crossing)
    requires TimeOrdered(events) && c in Crossings(events, timeout)
    ensures c.startedAt <= c.endedAt
    ensures exists j :: 0 <= j < |events| && events[j].at == c.endedAt
  {
    CrossingsArePassages(events, timeout, c);
    var i: nat, j: nat :| Passage(events, timeout, i, j, c);
  }

  lemma {:induction false} BetweenInside(events: seq<GateEvent>, lo: Time, hi: Time)
    ensures forall i :: 0 <= i < |Between(events, lo, hi)| ==> lo <= Between(events, lo, hi)[i].at <= hi
  {
    if events != [] {
      BetweenInside(events[..|events| - 1], lo, hi);
    }
  }

  /**
   Whatever the history and the state of the gate, the events of a window show no
   crossing that starts before the window or ends after it.
  */
  lemma OutsideIsNotFound(history: seq<GateEvent>, timeout: Time, lo: Time, hi: Time, c: Crossing)
    requires c.startedAt < lo || c.endedAt > hi
    ensures c !in Crossings(Between(history, lo, hi), timeout)
  {
    var window := Between(history, lo, hi);
    BetweenInside(history, lo, hi);
    CrossingsArePassages(window, timeout, c);
    forall i: nat, j: nat
      ensures !Passage(window, timeout, i, j, c)
    {
      if i < |window| && j < |window| {
        assert lo <= window[i].at && window[j].at <= hi;
      }
    }
  }

  lemma PrefixInOrder(a: seq<GateEvent>, b: seq<GateEvent>)
    requires TimeOrdered(a + b)
    ensures TimeOrdered(a)
  {
    assert forall i :: 0 <= i < |a| ==> (a + b)[i] == a[i];
  }

  /** Once one crossing has ended after the window, any other begins after it. */
  lemma {:induction false} NextStartsLater(window: seq<GateEvent>, after: seq<GateEvent>, timeout: Time, hi: Time)
    requires forall i :: 0 <= i < |after| ==> after[i].at > hi
    ensures var n, p := |Crossings(window, timeout)|, Parse(window + after, timeout);
            && (forall i :: n < i < |p.crossings| ==> p.crossings[i].startedAt > hi)
            && (|p.crossings| > n && p.state.startedAt.Some? ==> p.state.startedAt.value > hi)
  {
    if after == [] {
      assert window + after == window;
    } else {
      var front := after[..|after| - 1];
      NextStartsLater(window, front, timeout, hi);
      CrossingsGrow(window, front, timeout);
      assert (window + after)[..|window + after| - 1] == window + front;
    }
  }

  lemma EndAfterwards(window: seq<GateEvent>, after: seq<GateEvent>, timeout: Time, hi: Time)
    returns (added: seq<Crossing>)
    requires forall i :: 0 <= i < |after| ==> after[i].at > hi
    ensures Crossings(window + after, timeout) == Crossings(window, timeout) + added
    ensures forall c :: c in added ==> c.endedAt > hi
    ensures forall i :: 1 <= i < |added| ==> added[i].startedAt > hi
  {
    CrossingsGrow(window, after, timeout);
    NextStartsLater(window, after, timeout, hi);
    var n := |Crossings(window, timeout)|;
    added := Crossings(window + after, timeout)[n..];
    forall c | c in added
      ensures c.endedAt > hi
    {
      var i :| 0 <= i < |added| && added[i] == c;
      assert Crossings(window + after, timeout)[n + i] == c;
    }
  }

  lemma {:induction false} NoneOverlaps(cs: seq<Crossing>, first: Time, last: Time)
    requires forall c :: c in cs ==> !Overlaps(c, first, last)
    ensures Overlapping(cs, first, last) == []
  {
    if cs != [] {
      assert cs[0] in cs && forall c :: c in cs[1..] ==> c in cs;
      NoneOverlaps(cs[1..], first, last);
    }
  }

  // ----- a gate that is clear at some moment before the reads -----

  /**
   Nothing is in the gate after the first n events, which are all those before the
   window and some of its own, these from before the first read.
  */
  ghost predicate ClearAt(history: seq<GateEvent>, lo: Time, hi: Time, first: Time, n: nat) {
    && |Earlier(history, lo)| <= n <= |Earlier(history, lo)| + |Between(history, lo, hi)| && n <= |history|
    && (forall i :: |Earlier(history, lo)| <= i < n ==> history[i].at < first)
    && Blocked(history[..n]) == {}
  }

  /** At some point of the window, before the first read, nothing is in the gate. */
  ghost predicate ClearBefore(history: seq<GateEvent>, lo: Time, hi: Time, first: Time) {
    exists n: nat :: ClearAt(history, lo, hi, first, n)
  }

  /** What a part of the events leaves broken, the whole leaves broken. */
  lemma {:induction false} BlockedBySuffix(a: seq<GateEvent>, b: seq<GateEvent>)
    ensures Blocked(b) <= Blocked(a + b)
  {
    if b != [] {
      BlockedBySuffix(a, b[..|b| - 1]);
      assert (a + b)[..|a + b| - 1] == a + b[..|b| - 1];
    }
  }

  /** What went through before the first read does not overlap the reads. */
  lemma OverBefore(events: seq<GateEvent>, timeout: Time, first: Time, last: Time)
    requires TimeOrdered(events) && forall i :: 0 <= i < |events| ==> events[i].at < first
    ensures Overlapping(Crossings(events, timeout), first, last) == []
  {
    forall c | c in Crossings(events, timeout)
      ensures !Overlaps(c, first, last)
    {
      CrossingTimes(events, timeout, c);
    }
    NoneOverlaps(Crossings(events, timeout), first, last);
  }

  /** Cut where the gate is clear, of what overlaps the reads nothing lies before the cut. */
  lemma OverlappingAfterCut(a: seq<GateEvent>, b: seq<GateEvent>, timeout: Time, first: Time, last: Time)
    requires TimeOrdered(a) && Blocked(a) == {} && forall i :: 0 <= i < |a| ==> a[i].at < first
    ensures Overlapping(Crossings(a + b, timeout), first, last) == Overlapping(Crossings(b, timeout), first, last)
  {
    AfterClear(a, b, timeout);
    OverBefore(a, timeout, first, last);
    OverlappingConcat(Crossings(a, timeout), Crossings(b, timeout), first, last);
  }

  /** Three parts put together, the middle one cut after its first k events. */
  lemma CutMiddle(b: seq<GateEvent>, w: seq<GateEvent>, a: seq<GateEvent>, k: nat)
    requires k <= |w|
    ensures w == w[..k] + w[k..] && b + w + a == (b + w[..k]) + (w[k..] + a)
    ensures (b + w + a)[..|b| + k] == b + w[..k]
    ensures forall i :: 0 <= i < k ==> w[i] == (b + w + a)[|b| + i]
  {
    hide *;
    assert w == w[..k] + w[k..];
    assert b + w + a == (b + w[..k]) + (w[k..] + a);
    assert (b + w + a)[..|b| + k] == b + w[..k];
  }

  lemma SuffixInOrder(a: seq<GateEvent>, b: seq<GateEvent>)
    requires TimeOrdered(a + b)
    ensures TimeOrdered(b)
  {
    forall i, j | 0 <= i < j < |b|
      ensures b[i].at <= b[j].at
    {
      assert (a + b)[|a| + i] == b[i] && (a + b)[|a| + j] == b[j];
    }
  }

  /** Cut where the gate is clear: the lookup among all the events, and among the middle ones. */
  lemma LookupByParts(b: seq<GateEvent>, w: seq<GateEvent>, a: seq<GateEvent>, k: nat, timeout: Time, hi: Time,
                      first: Time, last: Time)
    returns (beyond: seq<Crossing>)
    requires k <= |w| && TimeOrdered(b + w[..k]) && Blocked(b + w[..k]) == {}
    requires (forall i :: 0 <= i < |b| ==> b[i].at < first) && (forall i :: 0 <= i < k ==> w[i].at < first)
    requires forall i :: 0 <= i < |a| ==> a[i].at > hi
    ensures Overlapping(Crossings(b + w + a, timeout), first, last) ==
            Overlapping(Crossings(w, timeout), first, last) + Overlapping(beyond, first, last)
    ensures forall c :: c in beyond ==> c.endedAt > hi
    ensures forall i :: 1 <= i < |beyond| ==> beyond[i].startedAt > hi
  {
    hide Blocked, TimeOrdered, Overlapping, Crossings;
    CutMiddle(b, w, a, k);
    BlockedBySuffix(b, w[..k]);
    SuffixInOrder(b, w[..k]);
    OverlappingAfterCut(b + w[..k], w[k..] + a, timeout, first, last);
    OverlappingAfterCut(w[..k], w[k..], timeout, first, last);
    beyond := EndAfterwards(w[k..], a, timeout, hi);
    OverlappingConcat(Crossings(w[k..], timeout), beyond, first, last);
  }

  /** What the lookup finds, and what it leaves out: the crossings still going on where the window ends. */
  lemma LookupByWindow(history: seq<GateEvent>, timeout: Time, lo: Time, hi: Time, first: Time, last: Time)
    returns (beyond: seq<Crossing>)
    requires TimeOrdered(history) && lo <= hi && lo <= first && ClearBefore(history, lo, hi, first)
    ensures Overlapping(Crossings(history, timeout), first, last) ==
            Overlapping(Crossings(Between(history, lo, hi), timeout), first, last) + Overlapping(beyond, first, last)
    ensures forall c :: c in beyond ==> c.endedAt > hi
    ensures forall i :: 1 <= i < |beyond| ==> beyond[i].startedAt > hi
  {
    hide Earlier, Between, Later, Blocked, TimeOrdered, Overlapping, Crossings;
    var n: nat :| ClearAt(history, lo, hi, first, n);
    var b, w, a := Earlier(history, lo), Between(history, lo, hi), Later(history, hi);
    var k := n - |b|;
    WindowIsASlice(history, lo, hi);
    CutMiddle(b, w, a, k);
    PrefixInOrder(b + w[..k], w[k..] + a);
    beyond := LookupByParts(b, w, a, k, timeout, hi, first, last);
  }

  // ----- a gate that is not -----

  /** From the start of the window on, something is in the gate, to the end of the history. */
  ghost predicate NeverClears(history: seq<GateEvent>, lo: Time) {
    forall n :: |Earlier(history, lo)| <= n <= |history| ==> Blocked(history[..n]) != {}
  }

  /** As long as something is in the gate, no crossing ends. */
  lemma {:induction false} NothingEnds(a: seq<GateEvent>, b: seq<GateEvent>, timeout: Time)
    requires forall n :: 0 <= n <= |b| ==> Blocked(a + b[..n]) != {}
    ensures Crossings(a + b, timeout) == Crossings(a, timeout)
  {
    if b == [] {
      assert a + b == a;
    } else {
      var front, e := b[..|b| - 1], b[|b| - 1];
      forall n | 0 <= n <= |front|
        ensures Blocked(a + front[..n]) != {}
      {
        assert front[..n] == b[..n];
      }
      NothingEnds(a, front, timeout);
      assert a + b == (a + front) + [e] && b[..|b|] == b;
      ParseLonger(a + front, e, timeout);
      var i := ParserMeans(a + front, timeout);
      var j := ParserMeans(a + b, timeout);
      assert Blocked(a + b) != {};
    }
  }

  /** A gate that stays blocked: what is past shows all there is. */
  lemma StuckSince(history: seq<GateEvent>, n: nat, timeout: Time)
    requires n <= |history| && forall m :: n <= m <= |history| ==> Blocked(history[..m]) != {}
    ensures Crossings(history, timeout) == Crossings(history[..n], timeout)
  {
    hide Blocked, Crossings;
    var b, rest := history[..n], history[n..];
    assert history == b + rest;
    forall m | 0 <= m <= |rest|
      ensures Blocked(b + rest[..m]) != {}
    {
      assert history[..n + m] == b + rest[..m];
    }
    NothingEnds(b, rest, timeout);
  }

  /** Stuck for good: nothing in the history overlaps the reads. */
  lemma StuckShowsNothing(history: seq<GateEvent>, timeout: Time, lo: Time, hi: Time, first: Time, last: Time)
    requires TimeOrdered(history) && lo <= hi && lo <= first && NeverClears(history, lo)
    ensures Overlapping(Crossings(history, timeout), first, last) == []
  {
    hide Earlier, Between, Later, Blocked, TimeOrdered, Overlapping, Crossings;
    var b := Earlier(history, lo);
    EarlierIsAPrefix(history, lo, hi);
    StuckSince(history, |b|, timeout);
    OverBefore(b, timeout, first, last);
  }

  lemma EarlierIsAPrefix(history: seq<GateEvent>, lo: Time, hi: Time)
    requires TimeOrdered(history) && lo <= hi
    ensures |Earlier(history, lo)| + |Between(history, lo, hi)| <= |history|
    ensures history[..|Earlier(history, lo)|] == Earlier(history, lo) && TimeOrdered(Earlier(history, lo))
  {
    hide Earlier, Between, Later, TimeOrdered;
    var b, rest := Earlier(history, lo), Between(history, lo, hi) + Later(history, hi);
    WindowIsASlice(history, lo, hi);
    assert history == b + rest;
    PrefixInOrder(b, rest);
  }

  /** The first event after n that leaves the gate clear. */
  lemma FirstClear(history: seq<GateEvent>, n: nat, m: nat) returns (k: nat)
    requires n < m <= |history| && Blocked(history[..n]) != {} && Blocked(history[..m]) == {}
    ensures n < k <= m && Blocked(history[..k]) == {}
    ensures forall i :: n <= i < k ==> Blocked(history[..i]) != {}
    decreases m - n
  {
    if Blocked(history[..n + 1]) == {} {
      k := n + 1;
    } else {
      k := FirstClear(history, n + 1, m);
    }
  }

  /** Clear before the first read means clear before it in the window. */
  lemma ClearInWindow(history: seq<GateEvent>, lo: Time, hi: Time, first: Time, k: nat)
    requires TimeOrdered(history) && lo <= hi && first <= hi && |Earlier(history, lo)| < k <= |history|
    requires Blocked(history[..k]) == {} && history[k - 1].at < first
    ensures ClearAt(history, lo, hi, first, k)
  {
    hide Earlier, Between, Later, Blocked;
    forall i | 0 <= i < k
      ensures history[i].at < first
    {
      assert i < k - 1 ==> history[i].at <= history[k - 1].at;
    }
    if k > |Earlier(history, lo)| + |Between(history, lo, hi)| {
      InLater(history, lo, hi, k - 1);
    }
  }

  /**
   Something in the gate when the window begins, gone only at the first read or later:
   a crossing that overlaps the reads.
  */
  lemma LongStopOverlaps(history: seq<GateEvent>, timeout: Time, lo: Time, hi: Time, first: Time, last: Time)
    returns (c: Crossing)
    requires TimeOrdered(history) && lo <= first <= last && first <= hi
    requires !ClearBefore(history, lo, hi, first) && !NeverClears(history, lo)
    ensures c in Crossings(history, timeout) && c.startedAt < lo && c.endedAt >= first
  {
    hide Earlier, Between, Later, Blocked, TimeOrdered, Crossings;
    var n := |Earlier(history, lo)|;
    EarlierIsAPrefix(history, lo, hi);
    assert !ClearAt(history, lo, hi, first, n);
    var m :| n <= m <= |history| && Blocked(history[..m]) == {};
    var k := FirstClear(history, n, m);
    var i: nat;
    c, i := EndsAt(history, timeout, n, k);
    assert history[i] == Earlier(history, lo)[i];
    if history[k - 1].at < first {
      ClearInWindow(history, lo, hi, first, k);
    }
  }

  lemma InLater(history: seq<GateEvent>, lo: Time, hi: Time, i: nat)
    requires TimeOrdered(history) && lo <= hi && |Earlier(history, lo)| + |Between(history, lo, hi)| <= i < |history|
    ensures history[i].at > hi
  {
    WindowIsASlice(history, lo, hi);
    var before := Earlier(history, lo) + Between(history, lo, hi);
    assert history[i] == Later(history, hi)[i - |before|];
  }

  /** What is in the gate at event n and leaves it with event k - 1 entered it before n. */
  lemma EndsAt(history: seq<GateEvent>, timeout: Time, n: nat, k: nat) returns (c: Crossing, i: nat)
    requires n < k <= |history| && Blocked(history[..k]) == {}
    requires forall i :: n <= i < k ==> Blocked(history[..i]) != {}
    ensures c in Crossings(history, timeout) && c.endedAt == history[k - 1].at
    ensures i < n && c.startedAt == history[i].at
  {
    var front, e := history[..k - 1], history[k - 1];
    assert history[..k] == front + [e];
    i := ParserMeans(front, timeout);
    assert front[..i] == history[..i];
    var j := ParserMeans(history[..k], timeout);
    ParseLonger(front, e, timeout);
    c := Crossing(Parse(front, timeout).state.direction, front[i].at, e.at);
    assert Crossings(history[..k], timeout) == Crossings(front, timeout) + [c];
    CrossingsGrow(history[..k], history[k..], timeout);
    assert history == history[..k] + history[k..];
    assert c in Crossings(history[..k], timeout);
  }

  /** Every crossing that overlaps the observation lies inside the window. */
  ghost predicate AllInside(history: seq<GateEvent>, timeout: Time, lo: Time, hi: Time, first: Time, last: Time) {
    forall c :: c in Crossings(history, timeout) && Overlaps(c, first, last) ==> lo <= c.startedAt && c.endedAt <= hi
  }

  lemma FindsAllIfInside(history: seq<GateEvent>, timeout: Time, lo: Time, hi: Time, first: Time, last: Time)
    requires TimeOrdered(history) && lo <= hi && lo <= first && ClearBefore(history, lo, hi, first)
    requires AllInside(history, timeout, lo, hi, first, last)
    ensures Overlapping(Crossings(Between(history, lo, hi), timeout), first, last) ==
            Overlapping(Crossings(history, timeout), first, last)
  {
    var all := Overlapping(Crossings(history, timeout), first, last);
    var beyond := LookupByWindow(history, timeout, lo, hi, first, last);
    assert forall c :: c in Overlapping(beyond, first, last) ==> c in all;
    NoneOverlaps(beyond, first, last);
  }

  lemma InsideNeedsClear(history: seq<GateEvent>, timeout: Time, lo: Time, hi: Time, first: Time, last: Time)
    requires TimeOrdered(history) && lo <= first <= last && first <= hi && !NeverClears(history, lo)
    ensures AllInside(history, timeout, lo, hi, first, last) ==> ClearBefore(history, lo, hi, first)
  {
    hide Crossings, NeverClears, TimeOrdered;
    if !ClearBefore(history, lo, hi, first) {
      var c := LongStopOverlaps(history, timeout, lo, hi, first, last);
      assert c in Crossings(history, timeout) && Overlaps(c, first, last);
    }
  }

  lemma MissesWhatIsOutside(history: seq<GateEvent>, timeout: Time, lo: Time, hi: Time, first: Time, last: Time)
    requires !AllInside(history, timeout, lo, hi, first, last)
    ensures Overlapping(Crossings(Between(history, lo, hi), timeout), first, last) !=
            Overlapping(Crossings(history, timeout), first, last)
  {
    var c :| c in Crossings(history, timeout) && Overlaps(c, first, last) && !(lo <= c.startedAt && c.endedAt <= hi);
    OutsideIsNotFound(history, timeout, lo, hi, c);
    assert c in Overlapping(Crossings(history, timeout), first, last);
  }

  /** Taken by themselves, these events hold no passage that overlaps the reads. */
  ghost predicate NothingPasses(window: seq<GateEvent>, timeout: Time, first: Time, last: Time) {
    forall i, j, c :: Passage(window, timeout, i, j, c) ==> !Overlaps(c, first, last)
  }

  lemma NothingFoundIff(window: seq<GateEvent>, timeout: Time, first: Time, last: Time)
    ensures Overlapping(Crossings(window, timeout), first, last) == [] <==> NothingPasses(window, timeout, first, last)
  {
    hide Passage;
    var found := Overlapping(Crossings(window, timeout), first, last);
    forall c
      ensures c in Crossings(window, timeout) <==> exists i, j :: Passage(window, timeout, i, j, c)
    {
      CrossingsArePassages(window, timeout, c);
    }
    if found != [] {
      assert found[0] in found;
    }
  }

  /**
   Whatever the history: the window shows the crossings that overlap the reads, and no
   others, if and only if each of them lies inside it. Only where something has been in
   the gate since before the window, and never leaves it, is there no crossing to show;
   there the events of the window must not look like a passage during the reads.
  */
  lemma WindowFindsAllIff(history: seq<GateEvent>, timeout: Time, lo: Time, hi: Time, first: Time, last: Time)
    requires TimeOrdered(history) && lo <= first <= last && first <= hi
    ensures var found := Overlapping(Crossings(Between(history, lo, hi), timeout), first, last);
            found == Overlapping(Crossings(history, timeout), first, last)
            <==>
            if NeverClears(history, lo) then NothingPasses(Between(history, lo, hi), timeout, first, last)
            else AllInside(history, timeout, lo, hi, first, last)
  {
    hide Overlapping, Crossings, Between, Earlier, TimeOrdered, NothingPasses;
    if NeverClears(history, lo) {
      StuckShowsNothing(history, timeout, lo, hi, first, last);
      NothingFoundIff(Between(history, lo, hi), timeout, first, last);
    } else {
      InsideNeedsClear(history, timeout, lo, hi, first, last);
      if AllInside(history, timeout, lo, hi, first, last) {
        FindsAllIfInside(history, timeout, lo, hi, first, last);
      } else {
        MissesWhatIsOutside(history, timeout, lo, hi, first, last);
      }
    }
  }

  // ----- the direction itself -----

  lemma {:induction false} NearestOfOneMore(cs: seq<Crossing>, c: Crossing, middle: Time)
    ensures Nearest(cs + [c], middle) ==
            if cs != [] && Distance(Nearest(cs, middle), middle) <= Distance(c, middle) then Nearest(cs, middle) else c
  {
    if |cs| <= 1 {
      assert (cs + [c])[1..] == if cs == [] then [] else [c];
    } else {
      NearestOfOneMore(cs[1..], c, middle);
      assert (cs + [c])[1..] == cs[1..] + [c];
    }
  }

  /** A crossing that is not found makes no difference: one found is as near, or the direction is the same. */
  ghost predicate MakesNoDifference(found: seq<Crossing>, c: Crossing, middle: Time) {
    || (found != [] && Distance(Nearest(found, middle), middle) <= Distance(c, middle))
    || c.direction == DirectionOf(found, middle)
  }

  lemma OneMoreDirection(found: seq<Crossing>, c: Crossing, middle: Time)
    ensures DirectionOf(found + [c], middle) == DirectionOf(found, middle) <==> MakesNoDifference(found, c, middle)
  {
    NearestOfOneMore(found, c, middle);
  }

  /** Of the crossings that end after the window, at most the first overlaps reads that lie inside it. */
  lemma AtMostOneBeyond(beyond: seq<Crossing>, hi: Time, first: Time, last: Time)
    requires last <= hi && forall i :: 1 <= i < |beyond| ==> beyond[i].startedAt > hi
    ensures Overlapping(beyond, first, last) ==
            if beyond != [] && Overlaps(beyond[0], first, last) then [beyond[0]] else []
  {
    if beyond != [] {
      forall c | c in beyond[1..]
        ensures !Overlaps(c, first, last)
      {
        var i :| 0 <= i < |beyond[1..]| && beyond[1..][i] == c;
        assert c == beyond[i + 1];
      }
      NoneOverlaps(beyond[1..], first, last);
    }
  }

  /** Each crossing that overlaps the reads and is still going on where the window ends makes no difference. */
  ghost predicate BeyondMakesNoDifference(found: seq<Crossing>, all: seq<Crossing>, hi: Time, middle: Time) {
    forall c :: c in all && c.endedAt > hi ==> MakesNoDifference(found, c, middle)
  }

  lemma BeyondDirection(found: seq<Crossing>, extra: seq<Crossing>, hi: Time, middle: Time)
    requires |extra| <= 1 && (forall c :: c in found ==> c.endedAt <= hi) && forall c :: c in extra ==> c.endedAt > hi
    ensures DirectionOf(found, middle) == DirectionOf(found + extra, middle)
            <==> BeyondMakesNoDifference(found, found + extra, hi, middle)
  {
    if extra == [] {
      assert found + extra == found;
    } else {
      var c := extra[0];
      assert extra == [c] && c in extra;
      OneMoreDirection(found, c, middle);
      assert c in found + extra;
    }
  }

  /** The two lookups agree: the crossings shown, against the past ones. */
  ghost predicate SameDirection(shown: seq<Crossing>, past: seq<Crossing>, first: Time, last: Time) {
    DirectionForWindow(first, last, shown, 0.0) == DirectionForWindow(first, last, past, 0.0)
  }

  ghost predicate NoDifferenceBeyond(shown: seq<Crossing>, past: seq<Crossing>, hi: Time, first: Time, last: Time) {
    BeyondMakesNoDifference(Overlapping(shown, first, last), Overlapping(past, first, last), hi,
                            first + (last - first) / 2.0)
  }

  lemma DirectionBySplit(shown: seq<Crossing>, past: seq<Crossing>, extra: seq<Crossing>, hi: Time, first: Time,
                         last: Time)
    requires Overlapping(past, first, last) == Overlapping(shown, first, last) + extra && |extra| <= 1
    requires forall c :: c in Overlapping(shown, first, last) ==> c.endedAt <= hi
    requires forall c :: c in extra ==> c.endedAt > hi
    ensures SameDirection(shown, past, first, last) <==> NoDifferenceBeyond(shown, past, hi, first, last)
  {
    hide Overlapping, Nearest, MakesNoDifference;
    BeyondDirection(Overlapping(shown, first, last), extra, hi, first + (last - first) / 2.0);
  }

  /**
   The direction the window gives is the one the whole history gives if and only if
   each crossing that overlaps the reads and is still going on where the window ends
   makes no difference.
  */
  lemma WindowedDirectionIff(history: seq<GateEvent>, timeout: Time, lo: Time, hi: Time, first: Time, last: Time)
    requires TimeOrdered(history) && lo <= first && first <= hi && last <= hi && ClearBefore(history, lo, hi, first)
    ensures var shown, past := Crossings(Between(history, lo, hi), timeout), Crossings(history, timeout);
            SameDirection(shown, past, first, last) <==> NoDifferenceBeyond(shown, past, hi, first, last)
  {
    var shown, past := Crossings(Between(history, lo, hi), timeout), Crossings(history, timeout);
    var beyond := LookupByWindow(history, timeout, lo, hi, first, last);
    AtMostOneBeyond(beyond, hi, first, last);
    FoundInside(history, timeout, lo, hi, first, last);
    DirectionBySplit(shown, past, Overlapping(beyond, first, last), hi, first, last);
  }

  lemma FoundInside(history: seq<GateEvent>, timeout: Time, lo: Time, hi: Time, first: Time, last: Time)
    ensures forall c :: c in Overlapping(Crossings(Between(history, lo, hi), timeout), first, last) ==> c.endedAt <= hi
  {
    forall c | c in Crossings(Between(history, lo, hi), timeout)
      ensures c.endedAt <= hi
    {
      if c.endedAt > hi {
        OutsideIsNotFound(history, timeout, lo, hi, c);
      }
    }
  }

  /**
   If every crossing overlapping the observation lies inside the window, and the gate is
   not blocked since before the window for good, the window gives the direction of the
   whole history; ties fall the same way.
  */
  lemma WindowedLookupAgrees(history: seq<GateEvent>, timeout: Time, lo: Time, hi: Time, first: Time, last: Time)
    requires TimeOrdered(history) && lo <= first <= last && first <= hi
    requires !NeverClears(history, lo) && AllInside(history, timeout, lo, hi, first, last)
    ensures SameDirection(Crossings(Between(history, lo, hi), timeout), Crossings(history, timeout), first, last)
  {
    hide Overlapping, Crossings, Between, Earlier, TimeOrdered, Nearest, NeverClears, AllInside;
    WindowFindsAllIff(history, timeout, lo, hi, first, last);
  }

  /**
   A load that is in the gate when the window begins and still there at the first read
   is not found, whatever else the window shows.
  */
  lemma LongStopIsNotFound(history: seq<GateEvent>, timeout: Time, lo: Time, hi: Time, first: Time, last: Time,
                           c: Crossing)
    requires c in Crossings(history, timeout) && c.startedAt < lo <= first <= last && c.endedAt >= first
    ensures c in Overlapping(Crossings(history, timeout), first, last)
    ensures c !in Overlapping(Crossings(Between(history, lo, hi), timeout), first, last)
  {
    OutsideIsNotFound(history, timeout, lo, hi, c);
  }

  /** Both beams break, and clear only eight seconds later. */
  const LONG_STOP: seq<GateEvent> := [GateEvent(Inner, Broken, 0.0), GateEvent(Outer, Broken, 1.0),
                                      GateEvent(Inner, Clear, 8.0), GateEvent(Outer, Clear, 9.0)]

  lemma LongStopIsOneCrossing()
    ensures Crossings(LONG_STOP, 3.0) == [Crossing(Some(Out), 0.0, 9.0)]
  {
    var e1, e2, e3, e4 := GateEvent(Inner, Broken, 0.0), GateEvent(Outer, Broken, 1.0),
                          GateEvent(Inner, Clear, 8.0), GateEvent(Outer, Clear, 9.0);
    ParseFour(e1, e2, e3, e4, 3.0);
    var p := Parsed(Parser({Inner, Outer}, Some(Inner), Some(0.0), Some(Out)), []);
    assert ParseEvent(ParseEvent(Parsed(IDLE, []), e1, 3.0), e2, 3.0) == p;
    assert {Inner, Outer} - {Inner} == {Outer};
    assert ParseEvent(ParseEvent(p, e3, 3.0), e4, 3.0) == Parsed(IDLE, [Crossing(Some(Out), 0.0, 9.0)]);
  }

  lemma LateWindowShowsNoCrossing(lo: Time, hi: Time)
    requires 1.0 < lo <= 8.0 && 9.0 <= hi
    ensures Crossings(Between(LONG_STOP, lo, hi), 3.0) == []
  {
    var h := LONG_STOP;
    assert h[..3][..2] == h[..2];
    NoneBetween(h[..2], lo, hi);
    assert Between(h[..3], lo, hi) == [h[2]];
    assert Between(h, lo, hi) == [h[2], h[3]];
    OnlyClears([h[2], h[3]], 3.0);
  }

  /**
   A load stops in the gate, and the reads of its tag begin when it moves on. The
   window of a batch holding that observation alone starts too late to see the beams
   break, and the direction is lost.
  */
  lemma LongStopLosesDirection()
    ensures DirectionForWindow(7.0, 10.0, Crossings(LONG_STOP, 3.0), 0.0) == Some(Out)
    ensures DirectionForWindow(7.0, 10.0, Crossings(
              Between(LONG_STOP, 7.0 - GATE_LOOKUP_MARGIN_S, 10.0 + GATE_LOOKUP_MARGIN_S), 3.0), 0.0) == None
  {
    LongStopIsOneCrossing();
    LateWindowShowsNoCrossing(7.0 - GATE_LOOKUP_MARGIN_S, 10.0 + GATE_LOOKUP_MARGIN_S);
    OneCrossing(Crossing(Some(Out), 0.0, 9.0), 7.0, 10.0);
  }

  lemma OneCrossing(c: Crossing, first: Time, last: Time)
    requires Overlaps(c, first, last)
    ensures DirectionForWindow(first, last, [c], 0.0) == c.direction
  {
    assert Overlapping([c], first, last) == [c];
  }
}
