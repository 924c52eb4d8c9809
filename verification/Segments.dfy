/**
 One tag at one portal: its reads cut into events. The streaming cut that the
 debouncer makes, and the plain one, at every gap longer than the quiet period.
*/
module Segments {
  import opened Basics
  import opened Grouping

  /** What reaches one group: a read, or being closed because the tag went quiet. */
  datatype Item = Take(r: Read) | Cut

  datatype Segmentation = Segmentation(done: seq<seq<Read>>, current: seq<Read>)

  function Latest(seg: seq<Read>): Time
    requires seg != []
  {
    if |seg| == 1 then seg[0].at
    else
      var before := Latest(seg[..|seg| - 1]);
      if seg[|seg| - 1].at > before then seg[|seg| - 1].at else before
  }

  lemma {:induction false} LatestIsGreatest(seg: seq<Read>)
    requires seg != []
    ensures forall i :: 0 <= i < |seg| ==> seg[i].at <= Latest(seg)
    ensures exists i :: 0 <= i < |seg| && seg[i].at == Latest(seg)
  {
    var n := |seg| - 1;
    if n == 0 {
      assert seg[0].at == Latest(seg);
    } else {
      LatestIsGreatest(seg[..n]);
      var i :| 0 <= i < n && seg[..n][i].at == Latest(seg[..n]);
      assert seg[i].at == Latest(seg) || seg[n].at == Latest(seg);
    }
  }

  /** One read: it opens an event, ends one and opens the next, or joins the open one. */
  function Taken(s: Segmentation, r: Read, quiet: Time): Segmentation {
    if s.current == [] then Segmentation(s.done, [r])
    else if StartsNewSession(Latest(s.current), r.at, quiet) then Segmentation(s.done + [s.current], [r])
    else Segmentation(s.done, s.current + [r])
  }

  /** The open event, if there is one, is over. */
  function Ended(s: Segmentation): Segmentation {
    if s.current == [] then s else Segmentation(s.done + [s.current], [])
  }

  /** The streaming cut: against the latest read of the open event, as reads arrive. */
  function Segment(trace: seq<Item>, quiet: Time): Segmentation {
    if trace == [] then Segmentation([], [])
    else
      var s, item := Segment(trace[..|trace| - 1], quiet), trace[|trace| - 1];
      match item
      case Take(r) => Taken(s, r, quiet)
      case Cut => Ended(s)
  }

  function All(s: Segmentation): seq<seq<Read>> {
    if s.current == [] then s.done else s.done + [s.current]
  }

  function Flatten(segs: seq<seq<Read>>): seq<Read> {
    if segs == [] then [] else Flatten(segs[..|segs| - 1]) + segs[|segs| - 1]
  }

  function ReadsOf(trace: seq<Item>): seq<Read> {
    if trace == [] then []
    else ReadsOf(trace[..|trace| - 1]) + if trace[|trace| - 1].Take? then [trace[|trace| - 1].r] else []
  }

  lemma FlattenMore(segs: seq<seq<Read>>, seg: seq<Read>)
    ensures Flatten(segs + [seg]) == Flatten(segs) + seg
  {
    assert (segs + [seg])[..|segs|] == segs;
  }

  /** No gap longer than the quiet period inside an event. */
  ghost predicate Tight(seg: seq<Read>, quiet: Time) {
    forall i :: 0 < i < |seg| ==> seg[i].at - Latest(seg[..i]) <= quiet
  }

  lemma TightMore(seg: seq<Read>, r: Read, quiet: Time)
    requires seg != [] && Tight(seg, quiet) && r.at - Latest(seg) <= quiet
    ensures Tight(seg + [r], quiet)
  {
    forall i | 0 < i < |seg + [r]|
      ensures (seg + [r])[i].at - Latest((seg + [r])[..i]) <= quiet
    {
      if i < |seg| {
        assert (seg + [r])[..i] == seg[..i];
      } else {
        assert (seg + [r])[..i] == seg;
      }
    }
  }

  /** These events and the open one are these reads in order, none of them empty and none with a gap inside. */
  ghost predicate IsCutOf(s: Segmentation, stream: seq<Read>, quiet: Time) {
    && Flatten(s.done) + s.current == stream
    && (forall i :: 0 <= i < |s.done| ==> s.done[i] != [] && Tight(s.done[i], quiet))
    && Tight(s.current, quiet)
  }

  lemma EndedIsCut(s: Segmentation, stream: seq<Read>, quiet: Time)
    requires IsCutOf(s, stream, quiet)
    ensures IsCutOf(Ended(s), stream, quiet)
  {
    hide Flatten, Latest;
    FlattenMore(s.done, s.current);
  }

  lemma TakenIsCut(s: Segmentation, stream: seq<Read>, r: Read, quiet: Time)
    requires IsCutOf(s, stream, quiet)
    ensures IsCutOf(Taken(s, r, quiet), stream + [r], quiet)
  {
    hide Flatten, Latest;
    FlattenMore(s.done, s.current);
    assert (Flatten(s.done) + s.current) + [r] == Flatten(s.done) + (s.current + [r]);
    if s.current != [] && !StartsNewSession(Latest(s.current), r.at, quiet) {
      TightMore(s.current, r, quiet);
    }
  }

  /**
   The cut neither loses, repeats nor reorders a read, leaves no event empty, and
   leaves no gap inside one, whatever order the reads come in.
  */
  lemma {:induction false} SegmentsKeepEveryRead(trace: seq<Item>, quiet: Time)
    ensures var s := Segment(trace, quiet);
            && Flatten(s.done) + s.current == ReadsOf(trace)
            && (forall i :: 0 <= i < |s.done| ==> s.done[i] != [] && Tight(s.done[i], quiet))
            && Tight(s.current, quiet)
  {
    if trace != [] {
      hide Flatten, Tight, Taken;
      var front, item := trace[..|trace| - 1], trace[|trace| - 1];
      SegmentsKeepEveryRead(front, quiet);
      match item
      case Take(r) => TakenIsCut(Segment(front, quiet), ReadsOf(front), r, quiet);
      case Cut =>
        EndedIsCut(Segment(front, quiet), ReadsOf(front), quiet);
        assert ReadsOf(front) + [] == ReadsOf(front);
    }
  }

  // ----- the plain cut -----

  /** Cut wherever two neighbouring reads are further apart than the quiet period. */
  function GapSplit(stream: seq<Read>, quiet: Time): (segs: seq<seq<Read>>)
    ensures segs == [] <==> stream == []
  {
    if stream == [] then []
    else
      var n := |stream| - 1;
      var front := GapSplit(stream[..n], quiet);
      if n == 0 || stream[n].at - stream[n - 1].at > quiet then front + [[stream[n]]]
      else front[..|front| - 1] + [front[|front| - 1] + [stream[n]]]
  }

  ghost predicate InTimeOrder(stream: seq<Read>) {
    forall i, j :: 0 <= i < j < |stream| ==> stream[i].at <= stream[j].at
  }

  function Takes(stream: seq<Read>): (trace: seq<Item>)
    ensures |trace| == |stream| && forall i :: 0 <= i < |trace| ==> trace[i] == Take(stream[i])
  {
    seq(|stream|, (i: nat) requires i < |stream| => Take(stream[i]))
  }

  // ----- closing a group because nothing arrives -----

  /** Nothing is open after these items: none came, or the last of them was a closing. */
  predicate Silent(trace: seq<Item>) {
    trace == [] || trace[|trace| - 1].Cut?
  }

  /** A read that comes after a closing, and no later than the quiet period after the read before it. */
  predicate IsLate(trace: seq<Item>, r: Read, quiet: Time) {
    LateAfter(ReadsOf(trace), Silent(trace), r, quiet)
  }

  predicate LateAfter(stream: seq<Read>, silent: bool, r: Read, quiet: Time) {
    silent && stream != [] && r.at - stream[|stream| - 1].at <= quiet
  }

  /** How many reads are late. */
  function LateReads(trace: seq<Item>, quiet: Time): nat {
    if trace == [] then 0
    else
      var front, item := trace[..|trace| - 1], trace[|trace| - 1];
      LateReads(front, quiet) + if item.Take? && IsLate(front, item.r, quiet) then 1 else 0
  }

  lemma SilentIffClosed(trace: seq<Item>, quiet: Time)
    ensures Segment(trace, quiet).current == [] <==> Silent(trace)
  {
  }

  /** A read added to a list of events: as a new event, or at the end of the last one. */
  function Joined(segs: seq<seq<Read>>, r: Read, cut: bool): seq<seq<Read>> {
    if cut || segs == [] then segs + [[r]]
    else segs[..|segs| - 1] + [segs[|segs| - 1] + [r]]
  }

  lemma GapSplitJoins(stream: seq<Read>, r: Read, quiet: Time)
    ensures GapSplit(stream + [r], quiet) ==
            Joined(GapSplit(stream, quiet), r, stream != [] && r.at - stream[|stream| - 1].at > quiet)
  {
    var longer := stream + [r];
    assert longer[..|stream|] == stream;
  }

  lemma TakenJoins(s: Segmentation, r: Read, quiet: Time)
    ensures All(Taken(s, r, quiet)) ==
            Joined(All(s), r, s.current == [] || StartsNewSession(Latest(s.current), r.at, quiet))
  {
    if s.current != [] {
      assert (s.done + [s.current])[..|s.done|] == s.done;
    }
  }

  lemma LatestLonger(seg: seq<Read>, r: Read)
    requires seg != []
    ensures Latest(seg + [r]) == if r.at > Latest(seg) then r.at else Latest(seg)
  {
    assert (seg + [r])[..|seg|] == seg;
  }

  lemma LatestJoined(segs: seq<seq<Read>>, r: Read, cut: bool)
    requires forall i :: 0 <= i < |segs| ==> segs[i] != []
    requires segs != [] ==> Latest(segs[|segs| - 1]) <= r.at
    ensures var last := Joined(segs, r, cut)[|Joined(segs, r, cut)| - 1];
            last != [] && Latest(last) == r.at
    ensures forall i :: 0 <= i < |Joined(segs, r, cut)| ==> Joined(segs, r, cut)[i] != []
  {
    if !cut && segs != [] {
      LatestLonger(segs[|segs| - 1], r);
    }
    assert Latest([r]) == r.at;
    hide Latest;
  }

  /** The events so far, and their last one, agree with the reads so far. */
  ghost predicate EndsWith(segs: seq<seq<Read>>, stream: seq<Read>) {
    && (segs == [] <==> stream == [])
    && (forall i :: 0 <= i < |segs| ==> segs[i] != [])
    && (stream != [] ==> Latest(segs[|segs| - 1]) == stream[|stream| - 1].at)
  }

  lemma TakenEndsWith(s: Segmentation, stream: seq<Read>, r: Read, quiet: Time)
    requires EndsWith(All(s), stream) && InTimeOrder(stream + [r])
    ensures EndsWith(All(Taken(s, r, quiet)), stream + [r])
  {
    TakenJoins(s, r, quiet);
    if stream != [] {
      assert (stream + [r])[|stream| - 1].at <= (stream + [r])[|stream|].at;
    }
    LatestJoined(All(s), r, s.current == [] || StartsNewSession(Latest(s.current), r.at, quiet));
  }

  /** One more read: the plain cut and the streaming one part ways just when it is late. */
  lemma TakenAgainstGaps(s: Segmentation, stream: seq<Read>, r: Read, quiet: Time)
    requires EndsWith(All(s), stream)
    requires s.current == [] ==> All(s) == s.done
    ensures var cut := stream != [] && r.at - stream[|stream| - 1].at > quiet;
            var late := LateAfter(stream, s.current == [], r, quiet);
            All(Taken(s, r, quiet)) == Joined(All(s), r, cut || late) && (late ==> stream != [] && !cut)
  {
    TakenJoins(s, r, quiet);
  }

  lemma {:induction false} SegmentLonger(trace: seq<Item>, item: Item, quiet: Time)
    ensures Segment(trace + [item], quiet) ==
            match item
            case Take(r) => Taken(Segment(trace, quiet), r, quiet)
            case Cut => Ended(Segment(trace, quiet))
    ensures ReadsOf(trace + [item]) == ReadsOf(trace) + if item.Take? then [item.r] else []
    ensures LateReads(trace + [item], quiet) ==
            LateReads(trace, quiet) + if item.Take? && IsLate(trace, item.r, quiet) then 1 else 0
  {
    assert (trace + [item])[..|trace|] == trace;
  }

  lemma {:induction false} EventsEndWithReads(trace: seq<Item>, quiet: Time)
    requires InTimeOrder(ReadsOf(trace))
    ensures EndsWith(All(Segment(trace, quiet)), ReadsOf(trace))
  {
    if trace != [] {
      var front, item := trace[..|trace| - 1], trace[|trace| - 1];
      assert trace == front + [item];
      SegmentLonger(front, item, quiet);
      PrefixInTimeOrder(ReadsOf(front), ReadsOf(trace));
      EventsEndWithReads(front, quiet);
      if item.Take? {
        TakenEndsWith(Segment(front, quiet), ReadsOf(front), item.r, quiet);
      }
    }
  }

  lemma PrefixInTimeOrder(a: seq<Read>, b: seq<Read>)
    requires a <= b && InTimeOrder(b)
    ensures InTimeOrder(a)
  {
    assert forall i :: 0 <= i < |a| ==> a[i] == b[i];
  }

  lemma JoinsCount(a: seq<seq<Read>>, g: seq<seq<Read>>, r: Read, cut: bool, late: bool, n: nat)
    requires |a| == |g| + n && (a == g <==> n == 0) && (a == [] <==> g == [])
    requires late ==> g != [] && !cut
    ensures var more := n + if late then 1 else 0;
            && |Joined(a, r, cut || late)| == |Joined(g, r, cut)| + more
            && (Joined(a, r, cut || late) == Joined(g, r, cut) <==> more == 0)
  {
  }

  lemma TakenCounts(s: Segmentation, stream: seq<Read>, r: Read, quiet: Time, late: nat)
    requires EndsWith(All(s), stream) && (s.current == [] ==> All(s) == s.done)
    requires |All(s)| == |GapSplit(stream, quiet)| + late
    requires All(s) == GapSplit(stream, quiet) <==> late == 0
    ensures var more := late + if LateAfter(stream, s.current == [], r, quiet) then 1 else 0;
            && |All(Taken(s, r, quiet))| == |GapSplit(stream + [r], quiet)| + more
            && (All(Taken(s, r, quiet)) == GapSplit(stream + [r], quiet) <==> more == 0)
  {
    var cut := stream != [] && r.at - stream[|stream| - 1].at > quiet;
    TakenAgainstGaps(s, stream, r, quiet);
    GapSplitJoins(stream, r, quiet);
    JoinsCount(All(s), GapSplit(stream, quiet), r, cut, LateAfter(stream, s.current == [], r, quiet), late);
  }

  /** The claim below, of one trace. */
  ghost predicate SplitOnlyByLateReads(trace: seq<Item>, quiet: Time) {
    && |All(Segment(trace, quiet))| == |GapSplit(ReadsOf(trace), quiet)| + LateReads(trace, quiet)
    && (All(Segment(trace, quiet)) == GapSplit(ReadsOf(trace), quiet) <==> LateReads(trace, quiet) == 0)
  }

  lemma ItemSplits(front: seq<Item>, item: Item, quiet: Time)
    requires SplitOnlyByLateReads(front, quiet) && InTimeOrder(ReadsOf(front))
    ensures SplitOnlyByLateReads(front + [item], quiet)
  {
    SegmentLonger(front, item, quiet);
    if item.Take? {
      EventsEndWithReads(front, quiet);
      SilentIffClosed(front, quiet);
      TakenCounts(Segment(front, quiet), ReadsOf(front), item.r, quiet, LateReads(front, quiet));
    } else {
      assert ReadsOf(front) + [] == ReadsOf(front);
    }
  }

  lemma FrontInTimeOrder(front: seq<Item>, item: Item, quiet: Time)
    requires InTimeOrder(ReadsOf(front + [item]))
    ensures InTimeOrder(ReadsOf(front))
  {
    SegmentLonger(front, item, quiet);
    PrefixInTimeOrder(ReadsOf(front), ReadsOf(front + [item]));
  }

  lemma {:induction false} TraceSplits(trace: seq<Item>, quiet: Time)
    requires InTimeOrder(ReadsOf(trace))
    ensures SplitOnlyByLateReads(trace, quiet)
  {
    if trace != [] {
      var front, item := trace[..|trace| - 1], trace[|trace| - 1];
      assert trace == front + [item];
      FrontInTimeOrder(front, item, quiet);
      TraceSplits(front, quiet);
      ItemSplits(front, item, quiet);
    }
  }

  /**
   With reads in time order, closing a group because nothing arrives adds one cut to
   those at the gaps for every late read, so the events are those of the plain cut
   if and only if no read is late.
  */
  lemma {:induction false} LateReadsSplitEvents(trace: seq<Item>, quiet: Time)
    requires InTimeOrder(ReadsOf(trace))
    ensures |All(Segment(trace, quiet))| == |GapSplit(ReadsOf(trace), quiet)| + LateReads(trace, quiet)
    ensures All(Segment(trace, quiet)) == GapSplit(ReadsOf(trace), quiet) <==> LateReads(trace, quiet) == 0
  {
    TraceSplits(trace, quiet);
  }

  lemma {:induction false} NoneLateWithoutSilence(stream: seq<Read>, quiet: Time)
    ensures ReadsOf(Takes(stream)) == stream && LateReads(Takes(stream), quiet) == 0
    ensures stream != [] ==> Segment(Takes(stream), quiet).current != []
  {
    if stream != [] {
      var front, r := stream[..|stream| - 1], stream[|stream| - 1];
      NoneLateWithoutSilence(front, quiet);
      assert Takes(stream) == Takes(front) + [Take(r)];
      SegmentLonger(Takes(front), Take(r), quiet);
      SegmentsKeepEveryRead(Takes(front), quiet);
      assert front == [] ==> Takes(front) == [];
    }
  }

  /** Reads in time order and no silence in between: the streaming cut is the plain one. */
  lemma StreamingIsGapSplit(stream: seq<Read>, quiet: Time)
    requires InTimeOrder(stream)
    ensures All(Segment(Takes(stream), quiet)) == GapSplit(stream, quiet)
  {
    NoneLateWithoutSilence(stream, quiet);
    LateReadsSplitEvents(Takes(stream), quiet);
  }
}
