/** The per-track scheduler (src/DashPlayer/DashBuffer.ts): it decides on each
    tick whether to apply a pending seek or fetch the next segment, and keeps
    a throughput history; playlist selection takes a separate bandwidth
    estimate as its input. The asynchronous
    segment fetch is split into the tick that starts it and the completion
    that finishes it, so that other ticks and seeks can happen in between. */
module Buffer {
  import opened Wrappers
  import opened Segments
  import opened Playlists
  import opened Abr

  /** One range of `HTMLMediaElement.buffered`. */
  datatype TimeRange = TimeRange(start: real, end: real)

  /** What the scheduler reads from the media element; `None` stands for a
      missing (`null`/`undefined`) property. */
  datatype MediaState = MediaState(buffered: Option<seq<TimeRange>>, currentTime: Option<real>)

  /** The end of the last buffered range; `None` stands for `-Infinity`, the
      value used when nothing is buffered. */
  function BufferedEnd(ranges: seq<TimeRange>): (r: Option<real>)
    ensures r.None? <==> ranges == []
    ensures r.Some? ==> r.value == ranges[|ranges| - 1].end
  {
    if ranges == [] then None else Some(ranges[|ranges| - 1].end)
  }

  /** `currentTime + segmentFetchDelay >= end` for the media state; false when
      either property is missing. */
  function BufferLow(media: MediaState, delay: real): (r: bool)
    ensures media.buffered.None? || media.currentTime.None? ==> !r
    ensures media.buffered == Some([]) && media.currentTime.Some? ==> r
    ensures media.buffered.Some? && media.buffered.value != [] && media.currentTime.Some? ==>
      (r <==> media.currentTime.value + delay >= media.buffered.value[|media.buffered.value| - 1].end)
  {
    match (media.buffered, media.currentTime)
    case (Some(ranges), Some(now)) =>
      (match BufferedEnd(ranges) case None => true case Some(end) => now + delay >= end)
    case _ => false
  }

  /** How the asynchronous part of a segment fetch ended: `loadSegment`
      resolved after `fetchDuration` seconds, or it rejected. */
  datatype FetchOutcome = Loaded(fetchDuration: real) | LoadFailed

  /** What one `updateBuffer` tick did. `Stopped`: the tick rejected before
      changing the segment index, either because the playlist switch's init
      segment failed to load or because clearing the media sink for a
      pending seek threw. */
  datatype TickAction = Stopped | AppliedSeek(index: nat) | StartedFetch | Idle

  /** The history length `DashBuffer` gives its ABR controller. */
  const HistorySize := 10

  class DashBuffer {
    var segmentFetchDelay: real
    var currentSegmentIndex: int
    const controller: DashPlaylistController
    var isFetchingSegment: bool
    const abr: ABRController
    var seekTo: Option<real>

    /** The controller is consistent, the index never goes negative and the
        throughput history stays within its size. */
    ghost predicate Valid()
      reads this, controller, abr
    {
      && controller.Valid()
      && 0 <= currentSegmentIndex
      && abr.fetchHistorySize == HistorySize
      && |abr.fetchHistory| <= HistorySize
    }

    constructor (controller: DashPlaylistController)
      requires controller.Valid()
      ensures Valid()
      ensures this.controller == controller && fresh(abr)
      ensures segmentFetchDelay == 10.0 && currentSegmentIndex == 0
      ensures !isFetchingSegment && seekTo.None? && abr.fetchHistory == []
    {
      segmentFetchDelay := 10.0;
      currentSegmentIndex := 0;
      this.controller := controller;
      isFetchingSegment := false;
      abr := new ABRController(HistorySize);
      seekTo := None;
    }

    /** At the end exactly when the current playlist has no segment at the index. */
    function HasBufferReachedEnd(): (r: bool)
      reads this, controller
      requires controller.Valid() && 0 <= currentSegmentIndex
      ensures !r <==> controller.GetSegments().GetSegment(currentSegmentIndex).Some?
    {
      currentSegmentIndex >= controller.GetSegments().GetSegmentCount()
    }

    /** The fetch gate: never while a fetch is in flight, never past the end,
        otherwise when the playhead is within `segmentFetchDelay` seconds of
        the end of the buffered media. */
    function ShouldFetchNextSegment(media: MediaState): (r: bool)
      reads this, controller
      requires controller.Valid() && 0 <= currentSegmentIndex
      ensures isFetchingSegment ==> !r
      ensures r ==> controller.GetSegments().GetSegment(currentSegmentIndex).Some?
      ensures !isFetchingSegment && !HasBufferReachedEnd() ==> (r <==> BufferLow(media, segmentFetchDelay))
    {
      if isFetchingSegment || HasBufferReachedEnd() then false
      else BufferLow(media, segmentFetchDelay)
    }

    /** Records the target; it is applied by the next tick. */
    method Seek(time: real)
      modifies this
      ensures seekTo == Some(time)
      ensures currentSegmentIndex == old(currentSegmentIndex) && isFetchingSegment == old(isFetchingSegment)
      ensures segmentFetchDelay == old(segmentFetchDelay)
    {
      seekTo := Some(time);
    }

    method SetSegmentFetchDelay(delay: real)
      modifies this
      ensures segmentFetchDelay == delay
      ensures currentSegmentIndex == old(currentSegmentIndex) && isFetchingSegment == old(isFetchingSegment)
      ensures seekTo == old(seekTo)
    {
      segmentFetchDelay := delay;
    }

    /** Switches when the index differs and then loads the new init segment;
        `initLoaded` is that load's outcome and `ok` is false when it failed.
        The segment index is kept as it is. */
    method SwitchPlaylist(playlistIndex: int, initLoaded: bool) returns (ok: bool)
      requires Valid()
      requires 0 <= playlistIndex < |controller.playlists|
      modifies controller
      ensures Valid()
      ensures controller.currentPlaylistIndex == playlistIndex
      ensures ok <==> playlistIndex == old(controller.currentPlaylistIndex) || initLoaded
      ensures playlistIndex == old(controller.currentPlaylistIndex) ==> controller.segments == old(controller.segments)
    {
      ok := true;
      if playlistIndex != controller.GetCurrentPlaylistIndex() {
        controller.SwitchPlaylist(playlistIndex);
        ok := initLoaded;
      }
    }

    /** One `updateBuffer` tick, given the bandwidth estimate (`None` for NaN),
        the media element's state, the outcome of a possible init load and
        whether `abort()` and `remove()` on the media sink return normally.
        It selects the playlist for the estimate, then either applies a
        pending seek and returns, or starts a fetch when the gate allows. */
    method UpdateBuffer(estimate: Option<real>, media: MediaState, initLoaded: bool, sinkCleared: bool)
      returns (action: TickAction)
      requires Valid()
      modifies this, controller
      ensures Valid()
      ensures segmentFetchDelay == old(segmentFetchDelay)
      ensures controller.currentPlaylistIndex == BestPlaylistForBandwidth(controller.playlists, estimate)
      ensures action.Stopped? <==>
        || (controller.currentPlaylistIndex != old(controller.currentPlaylistIndex) && !initLoaded)
        || (old(seekTo).Some? && !sinkCleared)
      ensures action.Stopped? ==>
        currentSegmentIndex == old(currentSegmentIndex) && seekTo == old(seekTo)
        && isFetchingSegment == old(isFetchingSegment)
      ensures !action.Stopped? && old(seekTo).Some? ==>
        && action == AppliedSeek(IndexAt(controller.segments.segments, old(seekTo).value))
        && currentSegmentIndex == action.index
        && seekTo.None? && isFetchingSegment == old(isFetchingSegment)
      ensures !action.Stopped? && old(seekTo).None? ==>
        && currentSegmentIndex == old(currentSegmentIndex) && seekTo.None?
        && (action.StartedFetch? <==>
              !old(isFetchingSegment)
              && controller.segments.GetSegment(currentSegmentIndex).Some?
              && BufferLow(media, segmentFetchDelay))
        && (action.StartedFetch? ==> isFetchingSegment)
        && (!action.StartedFetch? ==> action == Idle && isFetchingSegment == old(isFetchingSegment))
    {
      var best := controller.GetBestPlaylistForBandwidth(estimate);
      var ok := SwitchPlaylist(best, initLoaded);
      if !ok {
        return Stopped;
      }
      if seekTo.Some? {
        if !sinkCleared {
          return Stopped;
        }
        var index := controller.GetSegments().GetSegmentIndexAt(seekTo.value);
        currentSegmentIndex := index;
        seekTo := None;
        return AppliedSeek(index);
      }
      if ShouldFetchNextSegment(media) {
        isFetchingSegment := true;
        return StartedFetch;
      }
      return Idle;
    }

    /** The continuation of `_appendNextSegment` once `loadSegment` settles.
        On success the segment at the index as it is NOW (a seek may have
        moved it meanwhile) supplies the sample's duration, the sample is
        added and the index advances by one; a rejected load, or a missing
        segment at that index, leaves both alone. The flag is cleared on
        every path. */
    method FinishFetch(outcome: FetchOutcome)
      requires Valid() && isFetchingSegment
      modifies this, abr
      ensures Valid()
      ensures !isFetchingSegment
      ensures seekTo == old(seekTo) && segmentFetchDelay == old(segmentFetchDelay)
      ensures
        var segment := controller.segments.GetSegment(old(currentSegmentIndex));
        if outcome.Loaded? && segment.Some? then
          && currentSegmentIndex == old(currentSegmentIndex) + 1
          && abr.fetchHistory
             == AfterAddFetch(old(abr.fetchHistory),
                              SegmentFetchMetrics(segment.value.duration, outcome.fetchDuration), HistorySize)
        else
          currentSegmentIndex == old(currentSegmentIndex) && abr.fetchHistory == old(abr.fetchHistory)
    {
      if outcome.Loaded? {
        var segment := controller.GetSegments().GetSegment(currentSegmentIndex);
        if segment.Some? {
          var metrics := SegmentFetchMetrics(segment.value.duration, outcome.fetchDuration);
          AddFetchKeepsBound(abr.fetchHistory, metrics, abr.fetchHistorySize);
          abr.AddFetch(metrics);
          currentSegmentIndex := currentSegmentIndex + 1;
        }
      }
      isFetchingSegment := false;
    }
  }

  /** A seek applied while a fetch is in flight is advanced by that fetch when
      it completes: the buffer resumes one segment after the seek target. */
  method SeekDuringFetch(playlist: Playlist, time: real, fetchDuration: real) returns (resumed: int)
    requires playlist.segments != []
    ensures resumed == IndexAt(playlist.segments, time) + 1
  {
    var controller := new DashPlaylistController([playlist], 0);
    var buffer := new DashBuffer(controller);
    var idle := MediaState(Some([]), Some(0.0));
    var started := buffer.UpdateBuffer(None, idle, true, true);
    assert started == StartedFetch;
    buffer.Seek(time);
    var applied := buffer.UpdateBuffer(None, idle, true, true);
    buffer.FinishFetch(Loaded(fetchDuration));
    resumed := buffer.currentSegmentIndex;
  }
}
