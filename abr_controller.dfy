/** The fetch-history window of the bitrate-adaptation controller
    (src/DashPlayer/ABRController.ts). */
module Abr {
  import opened Wrappers

  /** One fetch sample: how long the segment plays and how long it took to fetch (seconds). */
  datatype SegmentFetchMetrics = SegmentFetchMetrics(segmentDuration: PositiveReal, fetchDuration: real)

  /** Seconds of fetching per second of media, for one sample. */
  function FetchTimePerSecond(m: SegmentFetchMetrics): real
  {
    m.fetchDuration / m.segmentDuration
  }

  /** The `map` step of the average: one ratio per sample, in history order. */
  function Ratios(history: seq<SegmentFetchMetrics>): (r: seq<real>)
    ensures |r| == |history|
    ensures forall i :: 0 <= i < |history| ==> r[i] == FetchTimePerSecond(history[i])
  {
    seq(|history|, i requires 0 <= i < |history| => FetchTimePerSecond(history[i]))
  }

  /** The `reduce((a, b) => a + b, acc)` step: a left fold. */
  function FoldSum(acc: real, xs: seq<real>): real
    decreases |xs|
  {
    if xs == [] then acc else FoldSum(acc + xs[0], xs[1..])
  }

  /** Reference sum, folded from the right. */
  function Sum(xs: seq<real>): real
  {
    if xs == [] then 0.0 else xs[0] + Sum(xs[1..])
  }

  /** The left fold computes the ordinary sum. */
  lemma {:induction false} FoldSumIsSum(acc: real, xs: seq<real>)
    ensures FoldSum(acc, xs) == acc + Sum(xs)
    decreases |xs|
  {
    if xs != [] {
      FoldSumIsSum(acc + xs[0], xs[1..]);
    }
  }

  /** Mean of the per-sample ratios; an empty history gives 0/0, i.e. no value. */
  function AverageFetchTimePerSecond(history: seq<SegmentFetchMetrics>): (r: Option<real>)
    ensures r.None? <==> history == []
    ensures r.Some? ==> r.value * (|history| as real) == Sum(Ratios(history))
  {
    if history == [] then None
    else
      FoldSumIsSum(0.0, Ratios(history));
      Some(FoldSum(0.0, Ratios(history)) / (|history| as real))
  }

  /** Bounds on every element bound the sum. */
  lemma {:induction false} SumBetween(xs: seq<real>, lo: real, hi: real)
    requires forall i :: 0 <= i < |xs| ==> lo <= xs[i] <= hi
    ensures (|xs| as real) * lo <= Sum(xs) <= (|xs| as real) * hi
  {
    if xs != [] {
      SumBetween(xs[1..], lo, hi);
    }
  }

  /** The average lies between the smallest and the largest per-sample ratio. */
  lemma AverageBetween(history: seq<SegmentFetchMetrics>, lo: real, hi: real)
    requires history != []
    requires forall i :: 0 <= i < |history| ==> lo <= FetchTimePerSecond(history[i]) <= hi
    ensures lo <= AverageFetchTimePerSecond(history).value <= hi
  {
    var n := |history| as real;
    var avg := AverageFetchTimePerSecond(history).value;
    SumBetween(Ratios(history), lo, hi);
    assert avg * n == Sum(Ratios(history));
    assert n * lo <= avg * n <= n * hi;
  }

  /** The history after `addFetch`: push the sample, then shift off the front
      once the length exceeds the configured size. */
  function AfterAddFetch(history: seq<SegmentFetchMetrics>, metrics: SegmentFetchMetrics, size: int)
    : (r: seq<SegmentFetchMetrics>)
    // at most one sample (the oldest) is dropped
    ensures |history| <= |r| <= |history| + 1
    // what remains is the newest part of history + [metrics], in arrival order
    ensures r == (history + [metrics])[|history| + 1 - |r|..]
    // nothing is evicted exactly when the new length fits in the size
    ensures |r| == |history| + 1 <==> |history| + 1 <= size
  {
    var pushed := history + [metrics];
    if |pushed| > size then pushed[1..] else pushed
  }

  /** A history within the size stays within it. */
  lemma AddFetchKeepsBound(history: seq<SegmentFetchMetrics>, metrics: SegmentFetchMetrics, size: int)
    requires |history| <= size
    ensures |AfterAddFetch(history, metrics, size)| <= size
    ensures 1 <= size ==> AfterAddFetch(history, metrics, size) != []
    ensures 1 <= size ==> Last(AfterAddFetch(history, metrics, size)) == metrics
  {
  }

  /** The last element of a non-empty sequence. */
  function Last<T>(s: seq<T>): T
    requires s != []
  {
    s[|s| - 1]
  }

  /** Size 3 holding [a, b, c]: adding d gives [b, c, d]. */
  lemma AddFetchEvictsOldest(a: SegmentFetchMetrics, b: SegmentFetchMetrics, c: SegmentFetchMetrics, d: SegmentFetchMetrics)
    ensures AfterAddFetch([a, b, c], d, 3) == [b, c, d]
  {
  }

  /** The newest `size` elements of s (all of s when it is shorter). */
  function Newest<T>(s: seq<T>, size: nat): (r: seq<T>)
    ensures |r| == if |s| <= size then |s| else size
  {
    if |s| <= size then s else s[|s| - size..]
  }

  /** Add a sequence of samples one after the other. */
  function AddAll(history: seq<SegmentFetchMetrics>, samples: seq<SegmentFetchMetrics>, size: int)
    : seq<SegmentFetchMetrics>
    decreases |samples|
  {
    if samples == [] then history
    else AddAll(AfterAddFetch(history, samples[0], size), samples[1..], size)
  }

  /** Sliding window: starting within the size, repeated `addFetch` keeps
      exactly the newest `size` samples of everything seen. */
  lemma {:induction false} AddAllIsSlidingWindow(history: seq<SegmentFetchMetrics>, samples: seq<SegmentFetchMetrics>, size: nat)
    requires |history| <= size
    ensures AddAll(history, samples, size) == Newest(history + samples, size)
    decreases |samples|
  {
    if samples != [] {
      var pushed := history + [samples[0]];
      var next := AfterAddFetch(history, samples[0], size);
      var all := history + samples;
      assert pushed + samples[1..] == all;
      AddAllIsSlidingWindow(next, samples[1..], size);
      if |pushed| <= size {
        assert next == pushed;
      } else {
        assert next == pushed[1..];
        assert next + samples[1..] == all[1..];
        assert |all| > size;
        assert all[1..][|all| - 1 - size..] == all[|all| - size..];
      }
    }
  }

  /** Window of 3 whose samples all take 1 s per media second: one sample at
      4 s per second evicts the oldest and moves the average to 2. */
  lemma AverageAfterEvictionExample(slow: SegmentFetchMetrics, fast: SegmentFetchMetrics)
    requires FetchTimePerSecond(fast) == 1.0 && FetchTimePerSecond(slow) == 4.0
    ensures |AfterAddFetch([fast, fast, fast], slow, 3)| == 3
    ensures AverageFetchTimePerSecond(AfterAddFetch([fast, fast, fast], slow, 3)) == Some(2.0)
  {
    var h := AfterAddFetch([fast, fast, fast], slow, 3);
    assert h == [fast, fast, slow];
    assert Ratios(h) == [1.0, 1.0, 4.0];
    assert Sum([4.0]) == 4.0;
    assert Sum(Ratios(h)) == 6.0;
  }

  /** The controller's mutable state: the sample window and its size. */
  class ABRController {
    var fetchHistory: seq<SegmentFetchMetrics>
    var fetchHistorySize: int

    constructor (historySize: int)
      ensures fetchHistory == [] && fetchHistorySize == historySize
    {
      fetchHistory := [];
      fetchHistorySize := historySize;
    }

    /** `getAverageFetchTimePerSecond`: no value while the history is empty. */
    function GetAverageFetchTimePerSecond(): (r: Option<real>)
      reads this
      ensures r.None? <==> fetchHistory == []
      ensures r == AverageFetchTimePerSecond(fetchHistory)
    {
      AverageFetchTimePerSecond(fetchHistory)
    }

    method AddFetch(metrics: SegmentFetchMetrics)
      modifies this
      ensures fetchHistory == AfterAddFetch(old(fetchHistory), metrics, fetchHistorySize)
      ensures fetchHistorySize == old(fetchHistorySize)
    {
      fetchHistory := fetchHistory + [metrics];
      if |fetchHistory| > fetchHistorySize {
        fetchHistory := fetchHistory[1..];
      }
    }

    function GetFetchHistorySize(): (r: int)
      reads this
      ensures r == fetchHistorySize
    {
      fetchHistorySize
    }

    /** Changes only the size: a shrink does not evict anything. */
    method SetFetchHistorySize(size: int)
      modifies this
      ensures fetchHistorySize == size
      ensures fetchHistory == old(fetchHistory)
    {
      fetchHistorySize := size;
    }

    method Reset()
      modifies this
      ensures fetchHistory == []
      ensures fetchHistorySize == old(fetchHistorySize)
    {
      fetchHistory := [];
    }
  }
}
