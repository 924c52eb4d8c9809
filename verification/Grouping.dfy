/**
 From many reads of a tag to one event. What is stored of a group is its totals; what
 they mean is said here by the reads that went in.
*/
module Grouping {
  import opened Basics
  import opened Transitions

  datatype Read = Read(id: nat, tid: string, antenna: int, rssi: Option<int>, at: Time)

  datatype Key = Key(tid: string, portal: Portal)

  datatype Totals = Totals(firstRead: Time, lastRead: Time, readCount: nat, peakRssi: Option<int>)

  /** One finished group: an observation ready to be judged and inserted. */
  datatype Closed = Closed(key: Key, totals: Totals)

  function Started(at: Time, rssi: Option<int>): Totals {
    Totals(at, at, 1, rssi)
  }

  function Added(t: Totals, at: Time, rssi: Option<int>): Totals {
    Totals(
      if at < t.firstRead then at else t.firstRead,
      if at > t.lastRead then at else t.lastRead,
      t.readCount + 1,
      if rssi.Some? && (t.peakRssi.None? || rssi.value > t.peakRssi.value) then rssi else t.peakRssi)
  }

  /** The read is too long after the last one to be part of the same event. */
  predicate StartsNewSession(lastRead: Time, at: Time, quiet: Time) {
    at - lastRead > quiet
  }

  predicate HasGoneQuiet(lastTouched: Time, now: Time, quiet: Time) {
    now - lastTouched > quiet
  }

  /** The totals of one tag at one portal, as long as reads may still join them. */
  class OpenGroup {
    const key: Key
    var firstRead: Time
    var lastRead: Time
    var readCount: nat
    var peakRssi: Option<int>
    var lastTouched: Time

    constructor (key: Key, at: Time, rssi: Option<int>, now: Time)
      ensures this.key == key && View() == Started(at, rssi) && lastTouched == now
    {
      this.key := key;
      firstRead, lastRead, readCount, peakRssi, lastTouched := at, at, 1, rssi, now;
    }

    function View(): Totals
      reads this
    {
      Totals(firstRead, lastRead, readCount, peakRssi)
    }

    method Add(at: Time, rssi: Option<int>, now: Time)
      modifies this
      ensures View() == Added(old(View()), at, rssi) && lastTouched == now
    {
      if at < firstRead {
        firstRead := at;
      }
      if at > lastRead {
        lastRead := at;
      }
      readCount := readCount + 1;
      if rssi.Some? && (peakRssi.None? || rssi.value > peakRssi.value) {
        peakRssi := rssi;
      }
      lastTouched := now;
    }
  }

  // ----- what the totals mean -----

  ghost predicate IsPeak(peak: Option<int>, seg: seq<Read>) {
    && (peak.None? <==> forall i :: 0 <= i < |seg| ==> seg[i].rssi.None?)
    && (peak.Some? ==>
          && (exists i :: 0 <= i < |seg| && seg[i].rssi == peak)
          && (forall i :: 0 <= i < |seg| && seg[i].rssi.Some? ==> seg[i].rssi.value <= peak.value))
  }

  /** The totals are the extremes, the number and the strongest of these reads. */
  ghost predicate Summarises(t: Totals, seg: seq<Read>) {
    && t.readCount == |seg| > 0
    && (exists i :: 0 <= i < |seg| && seg[i].at == t.firstRead)
    && (exists i :: 0 <= i < |seg| && seg[i].at == t.lastRead)
    && (forall i :: 0 <= i < |seg| ==> t.firstRead <= seg[i].at <= t.lastRead)
    && IsPeak(t.peakRssi, seg)
  }

  lemma StartSummarises(r: Read)
    ensures Summarises(Started(r.at, r.rssi), [r])
  {
    assert [r][0] == r;
  }

  lemma AddSummarises(t: Totals, seg: seq<Read>, r: Read)
    requires Summarises(t, seg)
    ensures Summarises(Added(t, r.at, r.rssi), seg + [r])
  {
    var longer, u := seg + [r], Added(t, r.at, r.rssi);
    assert longer[|seg|] == r;
    var i :| 0 <= i < |seg| && seg[i].at == t.firstRead;
    var j :| 0 <= j < |seg| && seg[j].at == t.lastRead;
    assert longer[i] == seg[i] && longer[j] == seg[j];
    if t.peakRssi.Some? {
      var k :| 0 <= k < |seg| && seg[k].rssi == t.peakRssi;
      assert longer[k] == seg[k];
    }
    assert forall k :: 0 <= k < |seg| ==> longer[k] == seg[k];
  }

  lemma SummaryIsUnique(t: Totals, u: Totals, seg: seq<Read>)
    requires Summarises(t, seg) && Summarises(u, seg)
    ensures t == u
  {
  }

  // ----- the filters -----

  /** Thrown away: too few reads, or too weak. A group with no signal strength at all is left to the count. */
  predicate Rejected(t: Totals, rssiFloor: int, minReadCount: nat) {
    t.readCount < minReadCount || (t.peakRssi.Some? && t.peakRssi.value < rssiFloor)
  }

  /** The filter in terms of the reads. */
  lemma RejectedIff(t: Totals, seg: seq<Read>, rssiFloor: int, minReadCount: nat)
    requires Summarises(t, seg)
    ensures Rejected(t, rssiFloor, minReadCount) <==>
            || |seg| < minReadCount
            || ((exists i :: 0 <= i < |seg| && seg[i].rssi.Some?) &&
                forall i :: 0 <= i < |seg| && seg[i].rssi.Some? ==> seg[i].rssi.value < rssiFloor)
  {
  }
}
