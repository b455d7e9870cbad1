/** The segment list of one representation (src/DashPlayer/DashSegments.ts):
    lookups by index and by presentation time. */
module Segments {
  import opened Wrappers

  /** One media segment as the manifest describes it. */
  datatype Segment = Segment(presentationTime: real, duration: PositiveReal, resolvedUri: string)

  /** How many leading segments start strictly before `time`. */
  function CountBefore(segments: seq<Segment>, time: real): (k: nat)
    ensures k <= |segments|
    ensures forall i :: 0 <= i < k ==> segments[i].presentationTime < time
    ensures k < |segments| ==> segments[k].presentationTime >= time
  {
    if segments == [] || segments[0].presentationTime >= time then 0
    else 1 + CountBefore(segments[1..], time)
  }

  /** The index `getSegmentIndexAt` computes: the last index of the longest
      prefix starting strictly before `time`, or 0 when that prefix is empty. */
  function IndexAt(segments: seq<Segment>, time: real): (r: nat)
    ensures segments == [] ==> r == 0
    ensures segments != [] ==> r < |segments|
    ensures segments != [] && segments[0].presentationTime >= time ==> r == 0
    ensures segments != [] && segments[0].presentationTime < time ==>
      (forall i :: 0 <= i <= r ==> segments[i].presentationTime < time) &&
      (r + 1 < |segments| ==> segments[r + 1].presentationTime >= time)
  {
    var k := CountBefore(segments, time);
    if k == 0 then 0 else k - 1
  }

  /** A later time never counts fewer leading segments. */
  lemma {:induction false} CountBeforeMonotonic(segments: seq<Segment>, t1: real, t2: real)
    requires t1 <= t2
    ensures CountBefore(segments, t1) <= CountBefore(segments, t2)
  {
    if segments != [] && segments[0].presentationTime < t1 {
      CountBeforeMonotonic(segments[1..], t1, t2);
    }
  }

  /** The looked-up index is non-decreasing in time. */
  lemma IndexAtMonotonic(segments: seq<Segment>, t1: real, t2: real)
    requires t1 <= t2
    ensures IndexAt(segments, t1) <= IndexAt(segments, t2)
  {
    CountBeforeMonotonic(segments, t1, t2);
  }

  /** The comparison is strict: with start times 0, 4, 8, time 4 still maps
      to segment 0 and time 4.1 to segment 1. */
  lemma StrictComparisonExample(a: Segment, b: Segment, c: Segment)
    requires a.presentationTime == 0.0 && b.presentationTime == 4.0 && c.presentationTime == 8.0
    ensures IndexAt([a, b, c], 4.0) == 0
    ensures IndexAt([a, b, c], 4.1) == 1
  {
    assert [a, b, c][1..] == [b, c] && [b, c][1..] == [c];
    assert CountBefore([c], 4.1) == 0;
    assert CountBefore([b, c], 4.1) == 1;
  }

  /** An immutable wrapper around one representation's segment list. */
  datatype DashSegments = DashSegments(segments: seq<Segment>)
  {
    function GetSegmentCount(): (n: nat)
      ensures n == |segments|
    {
      |segments|
    }

    /** `getSegment`: indexing outside the list yields `undefined`. */
    function GetSegment(segmentIndex: int): (r: Option<Segment>)
      ensures r.Some? <==> 0 <= segmentIndex < |segments|
      ensures r.Some? ==> r.value == segments[segmentIndex]
    {
      if 0 <= segmentIndex < |segments| then Some(segments[segmentIndex]) else None
    }

    /** `getSegmentIndexAt`: a forward scan that stops at the first segment
        starting at or after `time`. */
    method GetSegmentIndexAt(time: real) returns (segmentIndex: int)
      ensures segmentIndex == IndexAt(segments, time)
    {
      segmentIndex := 0;
      var i := 0;
      while i < |segments|
        invariant 0 <= i <= |segments|
        invariant i == 0 ==> segmentIndex == 0
        invariant i > 0 ==> segmentIndex == i - 1
        invariant forall j :: 0 <= j < i ==> segments[j].presentationTime < time
      {
        if segments[i].presentationTime >= time {
          break;
        }
        segmentIndex := i;
        i := i + 1;
      }
      assert i == CountBefore(segments, time) by {
        CountBeforeIsFirstLate(segments, time, i);
      }
    }

    /** `getSegmentAt`: the segment at the index found for `time`. */
    method GetSegmentAt(time: real) returns (r: Option<Segment>)
      ensures r == GetSegment(IndexAt(segments, time))
      ensures segments != [] ==> r.Some?
    {
      var segmentIndex := GetSegmentIndexAt(time);
      r := GetSegment(segmentIndex);
    }
  }

  /** CountBefore is the position of the first segment starting at or after
      `time` (or the length when there is none). */
  lemma {:induction false} CountBeforeIsFirstLate(segments: seq<Segment>, time: real, k: nat)
    requires k <= |segments|
    requires forall j :: 0 <= j < k ==> segments[j].presentationTime < time
    requires k < |segments| ==> segments[k].presentationTime >= time
    ensures CountBefore(segments, time) == k
  {
    if k > 0 {
      CountBeforeIsFirstLate(segments[1..], time, k - 1);
    }
  }
}
