/** Representation (quality) selection and switching
    (src/DashPlayer/DashPlaylistController.ts). */
module Playlists {
  import opened Wrappers
  import opened Segments

  /** One representation: its declared `BANDWIDTH` attribute and its segments. */
  datatype Playlist = Playlist(bandwidth: real, segments: seq<Segment>)

  /** r is the first index of maximal bandwidth. */
  ghost predicate IsFirstMax(playlists: seq<Playlist>, r: int)
  {
    && 0 <= r < |playlists|
    && (forall j :: 0 <= j < |playlists| ==> playlists[j].bandwidth <= playlists[r].bandwidth)
    && (forall j :: 0 <= j < r ==> playlists[j].bandwidth < playlists[r].bandwidth)
  }

  /** r is the first index of minimal bandwidth. */
  ghost predicate IsFirstMin(playlists: seq<Playlist>, r: int)
  {
    && 0 <= r < |playlists|
    && (forall j :: 0 <= j < |playlists| ==> playlists[r].bandwidth <= playlists[j].bandwidth)
    && (forall j :: 0 <= j < r ==> playlists[r].bandwidth < playlists[j].bandwidth)
  }

  /** r is the first index of the highest bandwidth strictly below `limit`. */
  ghost predicate IsFirstBestBelow(playlists: seq<Playlist>, limit: real, r: int)
  {
    && 0 <= r < |playlists|
    && playlists[r].bandwidth < limit
    && (forall j :: 0 <= j < |playlists| && playlists[j].bandwidth < limit ==>
          playlists[j].bandwidth <= playlists[r].bandwidth)
    && (forall j :: 0 <= j < r && playlists[j].bandwidth < limit ==>
          playlists[j].bandwidth < playlists[r].bandwidth)
  }

  /** Some playlist's bandwidth is strictly below `limit`. */
  ghost predicate AnyBelow(playlists: seq<Playlist>, limit: real)
  {
    exists j :: 0 <= j < |playlists| && playlists[j].bandwidth < limit
  }

  /** `reduce((acc, _, i) => bw[i] > bw[acc] ? i : acc, 0)` over the first n playlists. */
  function FoldMaxIndex(playlists: seq<Playlist>, n: nat): (r: nat)
    requires n <= |playlists|
    ensures n == 0 ==> r == 0
    ensures n > 0 ==> IsFirstMax(playlists[..n], r)
  {
    if n <= 1 then 0
    else
      var acc := FoldMaxIndex(playlists, n - 1);
      assert playlists[..n - 1][acc] == playlists[acc];
      if playlists[n - 1].bandwidth > playlists[acc].bandwidth then n - 1 else acc
  }

  /** `reduce((acc, _, i) => bw[i] < bw[acc] ? i : acc, 0)` over the first n playlists. */
  function FoldMinIndex(playlists: seq<Playlist>, n: nat): (r: nat)
    requires n <= |playlists|
    ensures n == 0 ==> r == 0
    ensures n > 0 ==> IsFirstMin(playlists[..n], r)
  {
    if n <= 1 then 0
    else
      var acc := FoldMinIndex(playlists, n - 1);
      assert playlists[..n - 1][acc] == playlists[acc];
      if playlists[n - 1].bandwidth < playlists[acc].bandwidth then n - 1 else acc
  }

  /** The `reduce` with an `undefined` seed over the first n playlists: keeps
      the index whose bandwidth can be handled and is strictly higher than
      the best so far. */
  function FoldBestBelow(playlists: seq<Playlist>, limit: real, n: nat): (r: Option<nat>)
    requires n <= |playlists|
    ensures r.None? <==> !AnyBelow(playlists[..n], limit)
    ensures r.Some? ==> IsFirstBestBelow(playlists[..n], limit, r.value)
  {
    if n == 0 then None
    else
      var best := FoldBestBelow(playlists, limit, n - 1);
      assert best.Some? ==> playlists[..n - 1][best.value] == playlists[best.value];
      assert forall j :: 0 <= j < n - 1 ==> playlists[..n][j] == playlists[..n - 1][j];
      var canHandleBitrate := playlists[n - 1].bandwidth < limit;
      var isHigherQuality := best.None? || playlists[n - 1].bandwidth > playlists[best.value].bandwidth;
      if canHandleBitrate && isHigherQuality then Some(n - 1) else best
  }

  /** `getBestPlaylistForBandwidth`; `None` stands for a `NaN` estimate. */
  function BestPlaylistForBandwidth(playlists: seq<Playlist>, bandwidth: Option<real>): (r: nat)
    ensures playlists == [] ==> r == 0
    ensures playlists != [] ==> r < |playlists|
    ensures playlists != [] && bandwidth.None? ==> IsFirstMax(playlists, r)
    ensures bandwidth.Some? && AnyBelow(playlists, bandwidth.value) ==>
      IsFirstBestBelow(playlists, bandwidth.value, r)
    ensures playlists != [] && bandwidth.Some? && !AnyBelow(playlists, bandwidth.value) ==>
      IsFirstMin(playlists, r)
  {
    assert playlists[..|playlists|] == playlists;
    match bandwidth
    case None => FoldMaxIndex(playlists, |playlists|)
    case Some(limit) =>
      match FoldBestBelow(playlists, limit, |playlists|)
      case Some(best) => best
      case None => FoldMinIndex(playlists, |playlists|)
  }

  /** Each policy names exactly one index, so the selection is deterministic. */
  lemma SelectionIsUnique(playlists: seq<Playlist>, limit: real, r1: int, r2: int)
    ensures IsFirstMax(playlists, r1) && IsFirstMax(playlists, r2) ==> r1 == r2
    ensures IsFirstMin(playlists, r1) && IsFirstMin(playlists, r2) ==> r1 == r2
    ensures IsFirstBestBelow(playlists, limit, r1) && IsFirstBestBelow(playlists, limit, r2) ==> r1 == r2
  {
    if IsFirstMax(playlists, r1) && IsFirstMax(playlists, r2) {
      assert playlists[r1].bandwidth == playlists[r2].bandwidth;
    }
    if IsFirstMin(playlists, r1) && IsFirstMin(playlists, r2) {
      assert playlists[r1].bandwidth == playlists[r2].bandwidth;
    }
    if IsFirstBestBelow(playlists, limit, r1) && IsFirstBestBelow(playlists, limit, r2) {
      assert playlists[r1].bandwidth == playlists[r2].bandwidth;
    }
  }

  /** An estimate above every bandwidth selects the first maximal one, the
      same as having no estimate at all. */
  lemma AboveEverySelectsHighest(playlists: seq<Playlist>, limit: real)
    requires playlists != []
    requires forall j :: 0 <= j < |playlists| ==> playlists[j].bandwidth < limit
    ensures BestPlaylistForBandwidth(playlists, Some(limit)) == BestPlaylistForBandwidth(playlists, None)
  {
    var r := BestPlaylistForBandwidth(playlists, Some(limit));
    assert AnyBelow(playlists, limit) by { assert playlists[0].bandwidth < limit; }
    SelectionIsUnique(playlists, limit, r, BestPlaylistForBandwidth(playlists, None));
  }

  /** For numeric estimates, a larger estimate never selects a lower bandwidth. */
  lemma SelectionMonotonic(playlists: seq<Playlist>, b1: real, b2: real)
    requires playlists != []
    requires b1 <= b2
    ensures playlists[BestPlaylistForBandwidth(playlists, Some(b1))].bandwidth
         <= playlists[BestPlaylistForBandwidth(playlists, Some(b2))].bandwidth
  {
    var r1 := BestPlaylistForBandwidth(playlists, Some(b1));
    var r2 := BestPlaylistForBandwidth(playlists, Some(b2));
    if AnyBelow(playlists, b1) {
      assert AnyBelow(playlists, b2);
    } else if AnyBelow(playlists, b2) {
      assert playlists[r1].bandwidth <= playlists[r2].bandwidth;
    }
  }

  /** The set of representations and the active one. */
  class DashPlaylistController {
    const playlists: seq<Playlist>
    var currentPlaylistIndex: int
    var segments: DashSegments

    /** `segments` always belongs to the current playlist. */
    ghost predicate Valid()
      reads this
    {
      && 0 <= currentPlaylistIndex < |playlists|
      && segments == DashSegments(playlists[currentPlaylistIndex].segments)
    }

    constructor (playlists: seq<Playlist>, currentPlaylistIndex: int)
      requires 0 <= currentPlaylistIndex < |playlists|
      ensures Valid()
      ensures this.playlists == playlists && this.currentPlaylistIndex == currentPlaylistIndex
    {
      this.playlists := playlists;
      this.currentPlaylistIndex := currentPlaylistIndex;
      this.segments := DashSegments(playlists[currentPlaylistIndex].segments);
    }

    /** `getPlaylist()` with its default argument: the current playlist. */
    function GetPlaylist(): (p: Playlist)
      reads this
      requires Valid()
      ensures p in playlists && p.segments == segments.segments
    {
      playlists[currentPlaylistIndex]
    }

    /** `getPlaylist(index)`: `undefined` outside the list. */
    function GetPlaylistAt(index: int): (p: Option<Playlist>)
      ensures p.Some? <==> 0 <= index < |playlists|
      ensures p.Some? ==> p.value == playlists[index]
    {
      if 0 <= index < |playlists| then Some(playlists[index]) else None
    }

    function GetCurrentPlaylistIndex(): (i: int)
      reads this
      requires Valid()
      ensures 0 <= i < |playlists| && segments.segments == playlists[i].segments
    {
      currentPlaylistIndex
    }

    function GetSegments(): (s: DashSegments)
      reads this
      requires Valid()
      ensures s.segments == playlists[currentPlaylistIndex].segments
    {
      segments
    }

    /** Switching to the current index changes nothing; otherwise the index
        and the segment list change together. */
    method SwitchPlaylist(playlistIndex: int)
      requires Valid()
      requires 0 <= playlistIndex < |playlists|
      modifies this
      ensures Valid()
      ensures currentPlaylistIndex == playlistIndex
      ensures playlistIndex == old(currentPlaylistIndex) ==> segments == old(segments)
    {
      if playlistIndex == currentPlaylistIndex {
        return;
      }
      currentPlaylistIndex := playlistIndex;
      segments := DashSegments(playlists[playlistIndex].segments);
    }

    function GetBestPlaylistForBandwidth(bandwidth: Option<real>): (r: nat)
      ensures playlists != [] ==> r < |playlists|
      ensures r == BestPlaylistForBandwidth(playlists, bandwidth)
    {
      BestPlaylistForBandwidth(playlists, bandwidth)
    }
  }
}
