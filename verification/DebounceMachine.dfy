/**
 The debouncer over all tags at once, as values: open groups, and the groups that
 have finished, each with the reads it stands for. One tag's view of the work is a
 trace of items; what happens to a tag depends on its own trace alone.
*/
module DebounceMachine {
  import opened Basics
  import opened Transitions
  import opened Grouping
  import opened Segments

  /** The reads of one group: there is always at least one. */
  type Burst = s: seq<Read> | s != [] witness [Read(0, "", 0, None, 0.0)]

  function Longer(burst: Burst, r: Read): Burst {
    burst + [r]
  }

  datatype Finished = Finished(key: Key, burst: Burst)

  datatype State = State(groups: map<Key, Burst>, finished: seq<Finished>)

  const EMPTY := State(map[], [])

  /** The tag and portal a read counts for; none when the antenna is under no portal. */
  function KeyOf(r: Read, portalOf: map<int, Portal>): Option<Key> {
    if r.antenna in portalOf then Some(Key(r.tid, portalOf[r.antenna])) else None
  }

  function AbsorbAt(s: State, key: Key, r: Read, quiet: Time): State {
    if key !in s.groups then State(s.groups[key := [r]], s.finished)
    else if StartsNewSession(Latest(s.groups[key]), r.at, quiet) then
      State(s.groups[key := [r]], s.finished + [Finished(key, s.groups[key])])
    else State(s.groups[key := Longer(s.groups[key], r)], s.finished)
  }

  function AbsorbRead(s: State, r: Read, portalOf: map<int, Portal>, quiet: Time): State {
    match KeyOf(r, portalOf)
    case None => s
    case Some(key) => AbsorbAt(s, key, r, quiet)
  }

  function AbsorbAll(s: State, rows: seq<Read>, portalOf: map<int, Portal>, quiet: Time): State {
    if rows == [] then s
    else AbsorbRead(AbsorbAll(s, rows[..|rows| - 1], portalOf, quiet), rows[|rows| - 1], portalOf, quiet)
  }

  function CloseKey(s: State, key: Key): State {
    if key in s.groups then State(s.groups - {key}, s.finished + [Finished(key, s.groups[key])]) else s
  }

  /** Groups closed, one after the other, because nothing came for them or the service is stopping. */
  function CloseAll(s: State, order: seq<Key>): State {
    if order == [] then s else CloseKey(CloseAll(s, order[..|order| - 1]), order[|order| - 1])
  }

  lemma CloseAllLonger(s: State, order: seq<Key>, key: Key)
    ensures CloseAll(s, order + [key]) == CloseKey(CloseAll(s, order), key)
  {
    assert (order + [key])[..|order|] == order;
  }

  datatype Work = Absorb(rows: seq<Read>) | Close(order: seq<Key>)

  function DoWork(s: State, w: Work, portalOf: map<int, Portal>, quiet: Time): State {
    match w
    case Absorb(rows) => AbsorbAll(s, rows, portalOf, quiet)
    case Close(order) => CloseAll(s, order)
  }

  function RunWork(works: seq<Work>, portalOf: map<int, Portal>, quiet: Time): State {
    if works == [] then EMPTY
    else DoWork(RunWork(works[..|works| - 1], portalOf, quiet), works[|works| - 1], portalOf, quiet)
  }

  // ----- one tag's view -----

  /** This tag's reads among these, in order. */
  function OwnReads(rows: seq<Read>, key: Key, portalOf: map<int, Portal>): seq<Read> {
    if rows == [] then []
    else
      var r := rows[|rows| - 1];
      OwnReads(rows[..|rows| - 1], key, portalOf) + if KeyOf(r, portalOf) == Some(key) then [r] else []
  }

  function OwnCuts(order: seq<Key>, key: Key): seq<Item> {
    if order == [] then []
    else OwnCuts(order[..|order| - 1], key) + if order[|order| - 1] == key then [Cut] else []
  }

  function ItemsOf(w: Work, key: Key, portalOf: map<int, Portal>): seq<Item> {
    match w
    case Absorb(rows) => Takes(OwnReads(rows, key, portalOf))
    case Close(order) => OwnCuts(order, key)
  }

  function TraceOf(works: seq<Work>, key: Key, portalOf: map<int, Portal>): seq<Item> {
    if works == [] then []
    else TraceOf(works[..|works| - 1], key, portalOf) + ItemsOf(works[|works| - 1], key, portalOf)
  }

  function BurstsOf(finished: seq<Finished>, key: Key): seq<seq<Read>> {
    if finished == [] then []
    else
      var f := finished[|finished| - 1];
      BurstsOf(finished[..|finished| - 1], key) + if f.key == key then [f.burst] else []
  }

  function Current(s: State, key: Key): seq<Read> {
    if key in s.groups then s.groups[key] else []
  }

  function View(s: State, key: Key): Segmentation {
    Segmentation(BurstsOf(s.finished, key), Current(s, key))
  }

  function SegmentFrom(s: Segmentation, trace: seq<Item>, quiet: Time): Segmentation {
    if trace == [] then s
    else
      var t := SegmentFrom(s, trace[..|trace| - 1], quiet);
      match trace[|trace| - 1]
      case Take(r) => Taken(t, r, quiet)
      case Cut => Ended(t)
  }

  lemma BurstsMore(finished: seq<Finished>, f: Finished, key: Key)
    ensures BurstsOf(finished + [f], key) == BurstsOf(finished, key) + if f.key == key then [f.burst] else []
  {
    assert (finished + [f])[..|finished|] == finished;
  }

  lemma AbsorbReadView(s: State, r: Read, key: Key, portalOf: map<int, Portal>, quiet: Time)
    ensures View(AbsorbRead(s, r, portalOf, quiet), key) ==
            if KeyOf(r, portalOf) == Some(key) then Taken(View(s, key), r, quiet) else View(s, key)
  {
    match KeyOf(r, portalOf)
    case None =>
    case Some(own) =>
      if own in s.groups {
        BurstsMore(s.finished, Finished(own, s.groups[own]), key);
      }
  }

  lemma CloseKeyView(s: State, closed: Key, key: Key)
    ensures View(CloseKey(s, closed), key) == if closed == key then Ended(View(s, key)) else View(s, key)
  {
    if closed in s.groups {
      BurstsMore(s.finished, Finished(closed, s.groups[closed]), key);
    }
  }

  lemma TakesLonger(stream: seq<Read>, r: Read)
    ensures Takes(stream + [r]) == Takes(stream) + [Take(r)]
  {
  }

  lemma SegmentFromLonger(s: Segmentation, trace: seq<Item>, item: Item, quiet: Time)
    ensures SegmentFrom(s, trace + [item], quiet) ==
            match item
            case Take(r) => Taken(SegmentFrom(s, trace, quiet), r, quiet)
            case Cut => Ended(SegmentFrom(s, trace, quiet))
  {
    assert (trace + [item])[..|trace|] == trace;
  }

  lemma {:induction false} AbsorbAllView(s: State, rows: seq<Read>, key: Key, portalOf: map<int, Portal>, quiet: Time)
    ensures View(AbsorbAll(s, rows, portalOf, quiet), key) ==
            SegmentFrom(View(s, key), Takes(OwnReads(rows, key, portalOf)), quiet)
  {
    if rows == [] {
      assert Takes(OwnReads(rows, key, portalOf)) == [];
    } else {
      var front, r := rows[..|rows| - 1], rows[|rows| - 1];
      AbsorbAllView(s, front, key, portalOf, quiet);
      AbsorbReadView(AbsorbAll(s, front, portalOf, quiet), r, key, portalOf, quiet);
      if KeyOf(r, portalOf) == Some(key) {
        TakesLonger(OwnReads(front, key, portalOf), r);
        SegmentFromLonger(View(s, key), Takes(OwnReads(front, key, portalOf)), Take(r), quiet);
      } else {
        assert OwnReads(rows, key, portalOf) == OwnReads(front, key, portalOf);
      }
    }
  }

  lemma {:induction false} CloseAllView(s: State, order: seq<Key>, key: Key, quiet: Time)
    ensures View(CloseAll(s, order), key) == SegmentFrom(View(s, key), OwnCuts(order, key), quiet)
  {
    if order != [] {
      var front, closed := order[..|order| - 1], order[|order| - 1];
      CloseAllView(s, front, key, quiet);
      CloseKeyView(CloseAll(s, front), closed, key);
      if closed == key {
        SegmentFromLonger(View(s, key), OwnCuts(front, key), Cut, quiet);
      } else {
        assert OwnCuts(order, key) == OwnCuts(front, key);
      }
    }
  }

  lemma {:induction false} SegmentInParts(before: seq<Item>, after: seq<Item>, quiet: Time)
    ensures Segment(before + after, quiet) == SegmentFrom(Segment(before, quiet), after, quiet)
  {
    if after == [] {
      assert before + after == before;
    } else {
      var front, item := after[..|after| - 1], after[|after| - 1];
      SegmentInParts(before, front, quiet);
      assert before + after == (before + front) + [item];
      SegmentLonger(before + front, item, quiet);
    }
  }

  /**
   Whatever the batches, the other tags and the order in which groups close, a tag's
   finished events and its open one are the streaming cut of its own trace.
  */
  lemma {:induction false} EachTagOnItsOwn(works: seq<Work>, key: Key, portalOf: map<int, Portal>, quiet: Time)
    ensures View(RunWork(works, portalOf, quiet), key) == Segment(TraceOf(works, key, portalOf), quiet)
  {
    if works != [] {
      var front, w := works[..|works| - 1], works[|works| - 1];
      EachTagOnItsOwn(front, key, portalOf, quiet);
      SegmentInParts(TraceOf(front, key, portalOf), ItemsOf(w, key, portalOf), quiet);
      match w
      case Absorb(rows) => AbsorbAllView(RunWork(front, portalOf, quiet), rows, key, portalOf, quiet);
      case Close(order) => CloseAllView(RunWork(front, portalOf, quiet), order, key, quiet);
    }
  }

  // ----- what that means for the reads -----

  /** Every row absorbed, in order, whatever the batches were. */
  function RowsOf(works: seq<Work>): seq<Read> {
    if works == [] then []
    else RowsOf(works[..|works| - 1]) + if works[|works| - 1].Absorb? then works[|works| - 1].rows else []
  }

  lemma {:induction false} OwnReadsConcat(a: seq<Read>, b: seq<Read>, key: Key, portalOf: map<int, Portal>)
    ensures OwnReads(a + b, key, portalOf) == OwnReads(a, key, portalOf) + OwnReads(b, key, portalOf)
  {
    if b == [] {
      assert a + b == a;
    } else {
      OwnReadsConcat(a, b[..|b| - 1], key, portalOf);
      assert (a + b)[..|a + b| - 1] == a + b[..|b| - 1];
    }
  }

  lemma {:induction false} ReadsOfConcat(a: seq<Item>, b: seq<Item>)
    ensures ReadsOf(a + b) == ReadsOf(a) + ReadsOf(b)
  {
    if b == [] {
      assert a + b == a;
    } else {
      ReadsOfConcat(a, b[..|b| - 1]);
      assert (a + b)[..|a + b| - 1] == a + b[..|b| - 1];
    }
  }

  lemma {:induction false} CutsHoldNoReads(order: seq<Key>, key: Key)
    ensures ReadsOf(OwnCuts(order, key)) == []
  {
    if order != [] {
      var front := order[..|order| - 1];
      CutsHoldNoReads(front, key);
      if order[|order| - 1] == key {
        ReadsOfConcat(OwnCuts(front, key), [Cut]);
        assert ReadsOf([Cut]) == [];
      } else {
        assert OwnCuts(order, key) == OwnCuts(front, key);
      }
    }
  }

  lemma {:induction false} TraceHoldsOwnReads(works: seq<Work>, key: Key, portalOf: map<int, Portal>, quiet: Time)
    ensures ReadsOf(TraceOf(works, key, portalOf)) == OwnReads(RowsOf(works), key, portalOf)
  {
    if works != [] {
      var front, w := works[..|works| - 1], works[|works| - 1];
      TraceHoldsOwnReads(front, key, portalOf, quiet);
      ReadsOfConcat(TraceOf(front, key, portalOf), ItemsOf(w, key, portalOf));
      match w
      case Absorb(rows) =>
        NoneLateWithoutSilence(OwnReads(rows, key, portalOf), quiet);
        OwnReadsConcat(RowsOf(front), rows, key, portalOf);
      case Close(order) =>
        CutsHoldNoReads(order, key);
        assert RowsOf(works) == RowsOf(front);
    }
  }

  /**
   In a run without a crash the reads of a tag are all there, each once and in order:
   in its finished events, then in its open one.
  */
  lemma ReadsAreConserved(works: seq<Work>, key: Key, portalOf: map<int, Portal>, quiet: Time)
    ensures var s := RunWork(works, portalOf, quiet);
            Flatten(BurstsOf(s.finished, key)) + Current(s, key) == OwnReads(RowsOf(works), key, portalOf)
  {
    EachTagOnItsOwn(works, key, portalOf, quiet);
    SegmentsKeepEveryRead(TraceOf(works, key, portalOf), quiet);
    TraceHoldsOwnReads(works, key, portalOf, quiet);
  }

  /** All of a tag's events, the open one last. */
  function Events(s: State, key: Key): seq<seq<Read>> {
    All(View(s, key))
  }

  /**
   A tag whose reads come in time order gets the plain cut of its reads, however they
   were split into batches and whatever else was read, if and only if none of its
   reads came late after its group had been closed for silence.
  */
  lemma StreamingRefinesGapSplitIff(works: seq<Work>, key: Key, portalOf: map<int, Portal>, quiet: Time)
    requires InTimeOrder(OwnReads(RowsOf(works), key, portalOf))
    ensures Events(RunWork(works, portalOf, quiet), key) == GapSplit(OwnReads(RowsOf(works), key, portalOf), quiet)
            <==> LateReads(TraceOf(works, key, portalOf), quiet) == 0
  {
    EachTagOnItsOwn(works, key, portalOf, quiet);
    TraceHoldsOwnReads(works, key, portalOf, quiet);
    LateReadsSplitEvents(TraceOf(works, key, portalOf), quiet);
  }

  lemma TakesConcat(a: seq<Read>, b: seq<Read>)
    ensures Takes(a + b) == Takes(a) + Takes(b)
  {
  }

  lemma {:induction false} AbsorbingTrace(works: seq<Work>, key: Key, portalOf: map<int, Portal>)
    requires forall i :: 0 <= i < |works| ==> works[i].Absorb?
    ensures TraceOf(works, key, portalOf) == Takes(OwnReads(RowsOf(works), key, portalOf))
  {
    if works != [] {
      var front, rows := works[..|works| - 1], works[|works| - 1].rows;
      AbsorbingTrace(front, key, portalOf);
      OwnReadsConcat(RowsOf(front), rows, key, portalOf);
      TakesConcat(OwnReads(RowsOf(front), key, portalOf), OwnReads(rows, key, portalOf));
    }
  }

  /**
   A tag ends up with the same events wherever its reads and its closings come in the
   same order: whatever the batches, and whatever else is read or closed.
  */
  lemma SameTraceSameEvents(a: seq<Work>, b: seq<Work>, key: Key, portalOf: map<int, Portal>, quiet: Time)
    requires TraceOf(a, key, portalOf) == TraceOf(b, key, portalOf)
    ensures View(RunWork(a, portalOf, quiet), key) == View(RunWork(b, portalOf, quiet), key)
  {
    EachTagOnItsOwn(a, key, portalOf, quiet);
    EachTagOnItsOwn(b, key, portalOf, quiet);
  }

  lemma {:induction false} AbsorbInParts(s: State, x: seq<Read>, y: seq<Read>, portalOf: map<int, Portal>, quiet: Time)
    ensures AbsorbAll(s, x + y, portalOf, quiet) == AbsorbAll(AbsorbAll(s, x, portalOf, quiet), y, portalOf, quiet)
  {
    if y == [] {
      assert x + y == x;
    } else {
      AbsorbInParts(s, x, y[..|y| - 1], portalOf, quiet);
      assert (x + y)[..|x + y| - 1] == x + y[..|y| - 1];
    }
  }

  lemma {:induction false} SameStateSameRest(a: seq<Work>, b: seq<Work>, rest: seq<Work>, portalOf: map<int, Portal>,
                                             quiet: Time)
    requires RunWork(a, portalOf, quiet) == RunWork(b, portalOf, quiet)
    ensures RunWork(a + rest, portalOf, quiet) == RunWork(b + rest, portalOf, quiet)
  {
    if rest == [] {
      assert a + rest == a && b + rest == b;
    } else {
      var front := rest[..|rest| - 1];
      SameStateSameRest(a, b, front, portalOf, quiet);
      assert (a + rest)[..|a + rest| - 1] == a + front && (b + rest)[..|b + rest| - 1] == b + front;
    }
  }

  /** A batch may be split anywhere, in the middle of any work: every group, open or finished, is the same. */
  lemma BatchesDoNotMatter(before: seq<Work>, x: seq<Read>, y: seq<Read>, after: seq<Work>,
                           portalOf: map<int, Portal>, quiet: Time)
    ensures RunWork(before + [Absorb(x + y)] + after, portalOf, quiet) ==
            RunWork(before + [Absorb(x), Absorb(y)] + after, portalOf, quiet)
  {
    var one, two := before + [Absorb(x + y)], before + [Absorb(x), Absorb(y)];
    assert one[..|before|] == before && two[..|before| + 1] == before + [Absorb(x)];
    assert (before + [Absorb(x)])[..|before|] == before;
    AbsorbInParts(RunWork(before, portalOf, quiet), x, y, portalOf, quiet);
    SameStateSameRest(one, two, after, portalOf, quiet);
  }

  /** Reads that are already there are cut at exactly the gaps longer than the quiet period. */
  lemma ReplayIsGapSplit(works: seq<Work>, key: Key, portalOf: map<int, Portal>, quiet: Time)
    requires forall i :: 0 <= i < |works| ==> works[i].Absorb?
    requires InTimeOrder(OwnReads(RowsOf(works), key, portalOf))
    ensures Events(RunWork(works, portalOf, quiet), key) == GapSplit(OwnReads(RowsOf(works), key, portalOf), quiet)
  {
    AbsorbingTrace(works, key, portalOf);
    NoneLateWithoutSilence(OwnReads(RowsOf(works), key, portalOf), quiet);
    StreamingRefinesGapSplitIff(works, key, portalOf, quiet);
  }

  // ----- reads that come late -----

  /** The tag's reads that a piece of work brings. */
  function NewReads(w: Work, key: Key, portalOf: map<int, Portal>): seq<Read> {
    match w
    case Absorb(rows) => OwnReads(rows, key, portalOf)
    case Close(_) => []
  }

  /** When each of the tag's reads was absorbed. */
  function Arrivals(works: seq<Work>, times: seq<Time>, key: Key, portalOf: map<int, Portal>): seq<Time>
    requires |times| == |works|
  {
    if works == [] then []
    else
      var n := |works| - 1;
      Arrivals(works[..n], times[..n], key, portalOf) + seq(|NewReads(works[n], key, portalOf)|, i => times[n])
  }

  lemma OneMoreWork(works: seq<Work>, w: Work, key: Key, portalOf: map<int, Portal>)
    ensures TraceOf(works + [w], key, portalOf) == TraceOf(works, key, portalOf) + ItemsOf(w, key, portalOf)
    ensures OwnReads(RowsOf(works + [w]), key, portalOf) ==
            OwnReads(RowsOf(works), key, portalOf) + NewReads(w, key, portalOf)
  {
    assert (works + [w])[..|works|] == works;
    match w
    case Absorb(rows) => OwnReadsConcat(RowsOf(works), rows, key, portalOf);
    case Close(_) => assert RowsOf(works + [w]) == RowsOf(works);
  }

  lemma OneMoreArrival(works: seq<Work>, times: seq<Time>, w: Work, now: Time, key: Key, portalOf: map<int, Portal>)
    requires |times| == |works|
    ensures Arrivals(works + [w], times + [now], key, portalOf) ==
            Arrivals(works, times, key, portalOf) + seq(|NewReads(w, key, portalOf)|, i => now)
  {
    assert (works + [w])[..|works|] == works && (times + [now])[..|works|] == times;
  }

  lemma {:induction false} ArrivalOfEach(works: seq<Work>, times: seq<Time>, key: Key, portalOf: map<int, Portal>)
    requires |times| == |works|
    ensures |Arrivals(works, times, key, portalOf)| == |OwnReads(RowsOf(works), key, portalOf)|
  {
    if works != [] {
      var n := |works| - 1;
      ArrivalOfEach(works[..n], times[..n], key, portalOf);
      assert works == works[..n] + [works[n]];
      OneMoreWork(works[..n], works[n], key, portalOf);
    }
  }

  lemma TakeCutTake(a: Read, b: Read, quiet: Time)
    requires a.at <= b.at <= a.at + quiet
    ensures var trace := [Take(a)] + [Cut] + [Take(b)];
            Segment(trace, quiet) == Segmentation([[a]], [b]) && LateReads(trace, quiet) == 1
  {
    assert [] + [Take(a)] == [Take(a)];
    SegmentLonger([], Take(a), quiet);
    SegmentLonger([Take(a)], Cut, quiet);
    SegmentLonger([Take(a)] + [Cut], Take(b), quiet);
  }

  lemma TogetherByGap(a: Read, b: Read, quiet: Time)
    requires a.at <= b.at <= a.at + quiet
    ensures GapSplit([a, b], quiet) == [[a, b]]
  {
    assert [a, b][..1] == [a] && [a][..0] == [];
    assert GapSplit([a], quiet) == [] + [[a]];
    assert [a] + [b] == [a, b];
  }

  lemma OneOfEach(r: Read, key: Key, portalOf: map<int, Portal>)
    requires KeyOf(r, portalOf) == Some(key)
    ensures OwnReads([r], key, portalOf) == [r] && Takes([r]) == [Take(r)] && OwnCuts([key], key) == [Cut]
  {
    hide KeyOf;
    assert [r][..0] == [] && [key][..0] == [];
    assert OwnReads([r], key, portalOf) == [] + [r];
    assert OwnCuts([key], key) == [] + [Cut];
  }

  /**
   Two reads of a tag made within the quiet period, its group closed between their
   arrivals: one event by the gaps, two by the stream.
  */
  lemma LateReadIsSplit(a: Read, b: Read, key: Key, portalOf: map<int, Portal>, quiet: Time)
    requires KeyOf(a, portalOf) == KeyOf(b, portalOf) == Some(key) && a.at <= b.at <= a.at + quiet
    ensures var works := [] + [Absorb([a])] + [Close([key])] + [Absorb([b])];
            var stream := OwnReads(RowsOf(works), key, portalOf);
            && stream == [a, b] && InTimeOrder(stream) && LateReads(TraceOf(works, key, portalOf), quiet) == 1
            && Events(RunWork(works, portalOf, quiet), key) == [[a], [b]] != GapSplit(stream, quiet)
  {
    hide TraceOf, RowsOf, OwnReads, OwnCuts, Segment, GapSplit, LateReads, RunWork;
    var one, two := [] + [Absorb([a])], [] + [Absorb([a])] + [Close([key])];
    OneOfEach(a, key, portalOf);
    OneOfEach(b, key, portalOf);
    OneMoreWork([], Absorb([a]), key, portalOf);
    OneMoreWork(one, Close([key]), key, portalOf);
    OneMoreWork(two, Absorb([b]), key, portalOf);
    NothingYet(key, portalOf);
    assert [] + [a] + [] + [b] == [a, b];
    assert [] + [Take(a)] + [Cut] + [Take(b)] == [Take(a)] + [Cut] + [Take(b)];
    TakeCutTake(a, b, quiet);
    TogetherByGap(a, b, quiet);
    EachTagOnItsOwn(two + [Absorb([b])], key, portalOf, quiet);
    assert [[a]] + [[b]] == [[a], [b]];
  }

  lemma NothingYet(key: Key, portalOf: map<int, Portal>)
    ensures TraceOf([], key, portalOf) == [] && OwnReads(RowsOf([]), key, portalOf) == []
  {
  }

  /** The clock runs forward, and the tag's group is closed only when it has brought nothing for the quiet period. */
  ghost predicate ClosedWhenQuiet(works: seq<Work>, times: seq<Time>, key: Key, portalOf: map<int, Portal>, quiet: Time)
  {
    && |times| == |works|
    && (forall i, j :: 0 <= i < j < |works| ==> times[i] <= times[j])
    && (forall i, j :: 0 <= i < j < |works| ==>
          (NewReads(works[i], key, portalOf) != [] && works[j].Close? && key in works[j].order ==>
             times[j] - times[i] > quiet))
  }

  /** Neighbouring reads made within the quiet period also arrive within it. */
  ghost predicate Prompt(stream: seq<Read>, arrivals: seq<Time>, quiet: Time) {
    |arrivals| == |stream| &&
    forall i :: 0 < i < |stream| && stream[i].at - stream[i - 1].at <= quiet ==> arrivals[i] - arrivals[i - 1] <= quiet
  }

  ghost predicate PromptTag(works: seq<Work>, times: seq<Time>, key: Key, portalOf: map<int, Portal>, quiet: Time)
    requires |times| == |works|
  {
    Prompt(OwnReads(RowsOf(works), key, portalOf), Arrivals(works, times, key, portalOf), quiet)
  }

  lemma ClosedWhenQuietFront(works: seq<Work>, times: seq<Time>, key: Key, portalOf: map<int, Portal>, quiet: Time)
    requires works != [] && ClosedWhenQuiet(works, times, key, portalOf, quiet)
    ensures ClosedWhenQuiet(works[..|works| - 1], times[..|works| - 1], key, portalOf, quiet)
  {
    hide NewReads;
  }

  lemma {:induction false} LastArrival(works: seq<Work>, times: seq<Time>, key: Key, portalOf: map<int, Portal>)
    returns (j: nat)
    requires |times| == |works| && OwnReads(RowsOf(works), key, portalOf) != []
    ensures j < |works| && NewReads(works[j], key, portalOf) != []
    ensures var arrivals := Arrivals(works, times, key, portalOf);
            arrivals != [] && arrivals[|arrivals| - 1] == times[j]
  {
    hide OwnReads, NewReads;
    if works == [] {
      NothingYet(key, portalOf);
      assert false;
    }
    var n := |works| - 1;
    assert works == works[..n] + [works[n]];
    OneMoreWork(works[..n], works[n], key, portalOf);
    if NewReads(works[n], key, portalOf) != [] {
      j := n;
    } else {
      j := LastArrival(works[..n], times[..n], key, portalOf);
    }
  }

  lemma {:induction false} CutIffClosed(order: seq<Key>, key: Key)
    ensures OwnCuts(order, key) == [] <==> key !in order
  {
    if order != [] {
      CutIffClosed(order[..|order| - 1], key);
    }
  }

  /** Work that leaves the tag silent, and does not close its group, is not about the tag. */
  lemma NothingForTag(trace: seq<Item>, w: Work, key: Key, portalOf: map<int, Portal>)
    requires Silent(trace + ItemsOf(w, key, portalOf)) && (w.Close? ==> key !in w.order)
    ensures ItemsOf(w, key, portalOf) == [] && NewReads(w, key, portalOf) == []
    ensures trace + ItemsOf(w, key, portalOf) == trace
  {
    hide OwnReads, OwnCuts;
    match w
    case Absorb(rows) =>
      var items := ItemsOf(w, key, portalOf);
      if items != [] {
        assert false;
      }
    case Close(order) => CutIffClosed(order, key);
  }

  /** Silent after some reads: by now the last of them lies further back than the quiet period. */
  lemma {:induction false} SilentSince(works: seq<Work>, times: seq<Time>, key: Key, portalOf: map<int, Portal>,
                                       quiet: Time)
    requires ClosedWhenQuiet(works, times, key, portalOf, quiet)
    requires OwnReads(RowsOf(works), key, portalOf) != [] && Silent(TraceOf(works, key, portalOf))
    ensures var arrivals := Arrivals(works, times, key, portalOf);
            works != [] && arrivals != [] && times[|works| - 1] - arrivals[|arrivals| - 1] > quiet
  {
    hide OwnReads, NewReads, TraceOf, RowsOf, Arrivals, Silent, ItemsOf;
    var j := LastArrival(works, times, key, portalOf);
    var n := |works| - 1;
    var front, w := works[..n], works[n];
    if w.Close? && key in w.order {
      CloseBringsNothing(w, key, portalOf);
      assert j < n;
    } else {
      assert works == front + [w] && times == times[..n] + [times[n]];
      OneMoreWork(front, w, key, portalOf);
      OneMoreArrival(front, times[..n], w, times[n], key, portalOf);
      NothingForTag(TraceOf(front, key, portalOf), w, key, portalOf);
      ClosedWhenQuietFront(works, times, key, portalOf, quiet);
      SilentSince(front, times[..n], key, portalOf, quiet);
      assert times[n - 1] <= times[n];
    }
  }

  lemma CloseBringsNothing(w: Work, key: Key, portalOf: map<int, Portal>)
    requires w.Close?
    ensures NewReads(w, key, portalOf) == []
  {
  }

  /** After a read nothing is late before the next closing. */
  lemma {:induction false} OnlyTheFirstIsLate(trace: seq<Item>, stream: seq<Read>, quiet: Time)
    ensures LateReads(trace + Takes(stream), quiet) ==
            LateReads(trace, quiet) + if stream != [] && IsLate(trace, stream[0], quiet) then 1 else 0
  {
    if stream == [] {
      assert trace + Takes(stream) == trace;
    } else {
      hide LateReads, LateAfter, ReadsOf;
      var front, r := stream[..|stream| - 1], stream[|stream| - 1];
      OnlyTheFirstIsLate(trace, front, quiet);
      TakesLonger(front, r);
      assert front + [r] == stream && trace + Takes(stream) == (trace + Takes(front)) + [Take(r)];
      SegmentLonger(trace + Takes(front), Take(r), quiet);
      if front == [] {
        assert trace + Takes(front) == trace;
      } else {
        NotLateAfterRead(trace + Takes(front), r, quiet);
      }
    }
  }

  lemma NotLateAfterRead(trace: seq<Item>, r: Read, quiet: Time)
    requires trace != [] && trace[|trace| - 1].Take?
    ensures !IsLate(trace, r, quiet)
  {
  }

  lemma {:induction false} CutsAreNotLate(trace: seq<Item>, order: seq<Key>, key: Key, quiet: Time)
    ensures LateReads(trace + OwnCuts(order, key), quiet) == LateReads(trace, quiet)
  {
    if order == [] {
      assert trace + OwnCuts(order, key) == trace;
    } else {
      var front := order[..|order| - 1];
      CutsAreNotLate(trace, front, key, quiet);
      if order[|order| - 1] == key {
        assert trace + OwnCuts(order, key) == (trace + OwnCuts(front, key)) + [Cut];
        SegmentLonger(trace + OwnCuts(front, key), Cut, quiet);
      } else {
        assert OwnCuts(order, key) == OwnCuts(front, key);
      }
    }
  }

  /** The first read of a batch, against the reads before it and when they arrived. */
  lemma PromptAtSeam(stream: seq<Read>, arrivals: seq<Time>, own: seq<Read>, now: Time, quiet: Time)
    requires stream != [] && own != [] && |arrivals| == |stream|
    requires Prompt(stream + own, arrivals + seq(|own|, i => now), quiet)
    ensures own[0].at - stream[|stream| - 1].at <= quiet ==> now - arrivals[|arrivals| - 1] <= quiet
  {
    var k := |stream|;
    var all, clock := stream + own, arrivals + seq(|own|, i => now);
    assert all[k] == own[0] && all[k - 1] == stream[k - 1] && clock[k] == now && clock[k - 1] == arrivals[k - 1];
  }

  lemma PromptIsNotLate(works: seq<Work>, times: seq<Time>, w: Work, now: Time, key: Key, portalOf: map<int, Portal>,
                        quiet: Time)
    requires |times| == |works| && NewReads(w, key, portalOf) != []
    requires ClosedWhenQuiet(works, times, key, portalOf, quiet) && (works != [] ==> times[|works| - 1] <= now)
    requires PromptTag(works + [w], times + [now], key, portalOf, quiet)
    ensures !IsLate(TraceOf(works, key, portalOf), NewReads(w, key, portalOf)[0], quiet)
  {
    hide OwnReads, NewReads, TraceOf, RowsOf, Arrivals, Prompt, ClosedWhenQuiet;
    var stream, own := OwnReads(RowsOf(works), key, portalOf), NewReads(w, key, portalOf);
    OneMoreWork(works, w, key, portalOf);
    OneMoreArrival(works, times, w, now, key, portalOf);
    TraceHoldsOwnReads(works, key, portalOf, quiet);
    ArrivalOfEach(works, times, key, portalOf);
    if stream != [] && Silent(TraceOf(works, key, portalOf)) {
      SilentSince(works, times, key, portalOf, quiet);
      PromptAtSeam(stream, Arrivals(works, times, key, portalOf), own, now, quiet);
    }
  }

  lemma PromptFront(works: seq<Work>, times: seq<Time>, w: Work, now: Time, key: Key, portalOf: map<int, Portal>,
                    quiet: Time)
    requires |times| == |works| && PromptTag(works + [w], times + [now], key, portalOf, quiet)
    ensures PromptTag(works, times, key, portalOf, quiet)
  {
    hide OwnReads, NewReads, RowsOf, Arrivals, TraceOf;
    var less, before := OwnReads(RowsOf(works), key, portalOf), Arrivals(works, times, key, portalOf);
    OneMoreWork(works, w, key, portalOf);
    OneMoreArrival(works, times, w, now, key, portalOf);
    ArrivalOfEach(works, times, key, portalOf);
    var more, after := less + NewReads(w, key, portalOf), before + seq(|NewReads(w, key, portalOf)|, i => now);
    forall i | 0 < i < |less| && less[i].at - less[i - 1].at <= quiet
      ensures before[i] - before[i - 1] <= quiet
    {
      assert more[i] == less[i] && more[i - 1] == less[i - 1] && after[i] == before[i] && after[i - 1] == before[i - 1];
    }
  }

  lemma {:induction false} NoneIsLate(works: seq<Work>, times: seq<Time>, key: Key, portalOf: map<int, Portal>,
                                      quiet: Time)
    requires ClosedWhenQuiet(works, times, key, portalOf, quiet) && PromptTag(works, times, key, portalOf, quiet)
    ensures LateReads(TraceOf(works, key, portalOf), quiet) == 0
  {
    if works != [] {
      hide PromptTag, OwnReads, OwnCuts, LateReads, IsLate;
      var n := |works| - 1;
      var front, w := works[..n], works[n];
      assert works == front + [w] && times == times[..n] + [times[n]];
      ClosedWhenQuietFront(works, times, key, portalOf, quiet);
      PromptFront(front, times[..n], w, times[n], key, portalOf, quiet);
      NoneIsLate(front, times[..n], key, portalOf, quiet);
      OneMoreWork(front, w, key, portalOf);
      match w
      case Absorb(rows) =>
        OnlyTheFirstIsLate(TraceOf(front, key, portalOf), NewReads(w, key, portalOf), quiet);
        if NewReads(w, key, portalOf) != [] {
          PromptIsNotLate(front, times[..n], w, times[n], key, portalOf, quiet);
        }
      case Close(order) => CutsAreNotLate(TraceOf(front, key, portalOf), order, key, quiet);
    }
  }

  /**
   A read can be late only if it took longer to arrive than the one before it, by more
   than was left of the quiet period. Where none does, and groups are closed only for
   silence, the events of a tag are the plain cut of its reads.
  */
  lemma PromptReadsStayTogether(works: seq<Work>, times: seq<Time>, key: Key, portalOf: map<int, Portal>, quiet: Time)
    requires ClosedWhenQuiet(works, times, key, portalOf, quiet) && PromptTag(works, times, key, portalOf, quiet)
    requires InTimeOrder(OwnReads(RowsOf(works), key, portalOf))
    ensures Events(RunWork(works, portalOf, quiet), key) == GapSplit(OwnReads(RowsOf(works), key, portalOf), quiet)
  {
    NoneIsLate(works, times, key, portalOf, quiet);
    StreamingRefinesGapSplitIff(works, key, portalOf, quiet);
  }

  // ----- the totals of a group -----

  /** What the running totals are after these reads. */
  function TotalsOf(burst: Burst): (t: Totals)
    ensures t.lastRead == Latest(burst)
  {
    var n := |burst| - 1;
    if n == 0 then Started(burst[0].at, burst[0].rssi)
    else Added(TotalsOf(burst[..n]), burst[n].at, burst[n].rssi)
  }

  lemma TotalsLonger(burst: Burst, r: Read)
    ensures TotalsOf(Longer(burst, r)) == Added(TotalsOf(burst), r.at, r.rssi)
  {
    assert (burst + [r])[..|burst|] == burst;
  }

  lemma {:induction false} TotalsSummarise(burst: Burst)
    ensures Summarises(TotalsOf(burst), burst)
  {
    var n := |burst| - 1;
    if n == 0 {
      StartSummarises(burst[0]);
      assert burst == [burst[0]];
    } else {
      TotalsSummarise(burst[..n]);
      AddSummarises(TotalsOf(burst[..n]), burst[..n], burst[n]);
      assert burst == burst[..n] + [burst[n]];
    }
  }

  /** The totals of an event are those of its reads and of nothing else. */
  lemma TotalsAreTheSummary(burst: Burst, t: Totals)
    ensures t == TotalsOf(burst) <==> Summarises(t, burst)
  {
    TotalsSummarise(burst);
    if Summarises(t, burst) {
      SummaryIsUnique(t, TotalsOf(burst), burst);
    }
  }
}
