# dash-player core in Dafny

A model of the playback core of dash-player, a small MPEG-DASH player
written in TypeScript. It covers the following modules:

- **`Abr`**: the throughput history of `ABRController`. The history is a
  sliding window of `(segmentDuration, fetchDuration)` samples, and its
  average fetch time per second of media. Playlist selection does not read
  this average: `DashBuffer` asks for a bandwidth estimate instead (see
  "Left out").
- **`Playlists`**: `DashPlaylistController`. It holds the representations
  (playlists), the active one and that one's segment list. It also selects a
  playlist for a bandwidth estimate: the highest bandwidth strictly below
  the estimate, else the lowest; with no estimate (NaN), the highest.
- **`Segments`**: `DashSegments`, one representation's segment list. It maps
  a presentation time to a segment index.
- **`Buffer`**: `DashBuffer`, the per-track scheduler. Each `updateBuffer`
  tick does three things in order:
  - it re-selects the playlist;
  - it applies a pending seek, and if there was one the tick ends there;
  - otherwise it starts a segment fetch when the fetch gate opens.

  A completed fetch adds a throughput sample and advances the segment index.
  The asynchronous fetch is split in two: the tick that starts it (`UpdateBuffer`
  returning `StartedFetch`) and its completion (`FinishFetch`). Other ticks
  and seeks can run between the two.
- **`SegmentFetcher`**: `DashSegmentFetcher`. It expands the
  `$RepresentationID$` and `$Number$` identifiers of a SegmentTemplate
  (section 5.3.9.4.4 of ISO/IEC 23009-1) by two global replacements and
  prefixes the base URL.
- **`Decimal`**: the decimal digits that `Number.prototype.toString` gives an
  integer.
- **`Iso8601`**: `parseDuration`. It parses the designator form
  `PnYnMnDTnHnMnS` (section 4.4.3.2 of ISO 8601:2004) and converts it to
  seconds. It counts a month as 30 days and a year as 30 × 365 days.
- **`Events`**: `EventManager`, a map from event to an ordered list of
  listeners.

Modelling choices:

- Numbers are exact `real`s.
- NaN and `undefined` are `Option.None`.
- A thrown error is `Result.Err`.
- Listeners are ids (`nat`).
- Segment durations are positive reals.
- Network loads, wall-clock time and the bandwidth estimate are inputs:
  - an init-segment load outcome (`initLoaded`);
  - whether clearing the media sink for a seek returned normally (`sinkCleared`);
  - a `FetchOutcome` that carries the measured fetch duration;
  - an `Option<real>` estimate.

`getSegmentIndexAt` compares with a strict `<`: a segment that starts
exactly at the requested time is not selected. An inclusive reading would
pick it. The model follows the code (`Segments.StrictComparisonExample`).

## Model

| member | source | states |
|---|---|---|
| Abr.Ratios | src/DashPlayer/ABRController.ts:15 | one ratio `fetchDuration / segmentDuration` per sample, in order |
| Abr.FoldSumIsSum | src/DashPlayer/ABRController.ts:16 | the left-to-right `reduce((a, b) => a + b, 0)` equals the sum of the ratios |
| Abr.AverageFetchTimePerSecond | src/DashPlayer/ABRController.ts:14-17 | no value (0/0 is NaN) exactly for an empty history; otherwise the value times the count is the sum of the ratios |
| Abr.SumBetween | src/DashPlayer/ABRController.ts:16 | a sum of values within `[lo, hi]` lies within `count·lo` and `count·hi` |
| Abr.AverageBetween | src/DashPlayer/ABRController.ts:14-17 | the average lies between the smallest and the largest per-sample ratio bound |
| Abr.AfterAddFetch | src/DashPlayer/ABRController.ts:19-24 | the result is a suffix of the history with the new sample appended; it loses at most one (the oldest) sample, and grows exactly when the new length is within the size |
| Abr.AddFetchKeepsBound | src/DashPlayer/ABRController.ts:19-24 | a history within the size stays within it, and the new sample is last |
| Abr.AddFetchEvictsOldest | src/DashPlayer/ABRController.ts:20-23 | size 3 with `[a,b,c]` plus `d` gives `[b,c,d]` |
| Abr.AddAllIsSlidingWindow | src/DashPlayer/ABRController.ts:19-24 | starting from a history within the size, any run of `addFetch` calls leaves exactly the newest `size` samples of everything added, in order |
| Abr.AverageAfterEvictionExample | src/DashPlayer/ABRController.ts:14-24 | three samples of ratio 1 and one of ratio 4 in a window of 3 average to 2 |
| Abr.ABRController.constructor | src/DashPlayer/ABRController.ts:7-12 | empty history, size as given |
| Abr.ABRController.GetAverageFetchTimePerSecond | src/DashPlayer/ABRController.ts:14-17 | no value exactly when the history is empty; the average of the current history otherwise |
| Abr.ABRController.AddFetch | src/DashPlayer/ABRController.ts:19-24 | push then shift-on-overflow yields the sliding-window update; size unchanged |
| Abr.ABRController.GetFetchHistorySize | src/DashPlayer/ABRController.ts:26-28 | returns the configured size |
| Abr.ABRController.SetFetchHistorySize | src/DashPlayer/ABRController.ts:30-32 | changes only the size and never evicts, so a shrunk history may stay longer than the size |
| Abr.ABRController.Reset | src/DashPlayer/ABRController.ts:34-36 | empties the history and keeps the size |
| Segments.CountBefore | src/DashPlayer/DashSegments.ts:31-34 | the length of the prefix of segments starting strictly before the time; the next one starts at or after it |
| Segments.IndexAt | src/DashPlayer/DashSegments.ts:28-37 | 0 for an empty list or when the first segment starts at or after the time; otherwise the last segment of the strictly-before prefix; always a valid index of a non-empty list |
| Segments.CountBeforeMonotonic | src/DashPlayer/DashSegments.ts:31-34 | a later time never shortens the strictly-before prefix |
| Segments.IndexAtMonotonic | src/DashPlayer/DashSegments.ts:28-37 | a later time never maps to an earlier segment |
| Segments.StrictComparisonExample | src/DashPlayer/DashSegments.ts:32 | with starts 0, 4, 8, time 4 maps to segment 0 and time 4.1 to segment 1 |
| Segments.CountBeforeIsFirstLate | src/DashPlayer/DashSegments.ts:31-34 | the first segment starting at or after the time is at the strictly-before count |
| Segments.DashSegments.GetSegmentCount | src/DashPlayer/DashSegments.ts:19-21 | the number of segments |
| Segments.DashSegments.GetSegment | src/DashPlayer/DashSegments.ts:39-41 | the segment at the index, or `undefined` exactly outside the list |
| Segments.DashSegments.GetSegmentIndexAt | src/DashPlayer/DashSegments.ts:28-37 | the loop with its early `break` computes `IndexAt` |
| Segments.DashSegments.GetSegmentAt | src/DashPlayer/DashSegments.ts:23-26 | the segment at `IndexAt`, present whenever the list is non-empty |
| Playlists.FoldMaxIndex | src/DashPlayer/DashPlaylistController.ts:35-38 | the `reduce` finds the first playlist of greatest bandwidth |
| Playlists.FoldMinIndex | src/DashPlayer/DashPlaylistController.ts:49-52 | the `reduce` finds the first playlist of least bandwidth |
| Playlists.FoldBestBelow | src/DashPlayer/DashPlaylistController.ts:40-45 | `undefined` exactly when no bandwidth is strictly below the limit; otherwise the first of the greatest bandwidths below it |
| Playlists.BestPlaylistForBandwidth | src/DashPlayer/DashPlaylistController.ts:33-54 | NaN: first highest; some playlist strictly below: first highest below; none below: first lowest; an empty list gives 0 |
| Playlists.SelectionIsUnique | src/DashPlayer/DashPlaylistController.ts:33-54 | each of the three selection criteria picks a single index |
| Playlists.AboveEverySelectsHighest | src/DashPlayer/DashPlaylistController.ts:33-54 | an estimate above every bandwidth selects what NaN selects |
| Playlists.SelectionMonotonic | src/DashPlayer/DashPlaylistController.ts:40-54 | a larger estimate never selects a lower bandwidth |
| Playlists.DashPlaylistController.constructor | src/DashPlayer/DashPlaylistController.ts:8-12 | stores the playlists and index; the segment list is the chosen playlist's |
| Playlists.DashPlaylistController.GetPlaylist | src/DashPlayer/DashPlaylistController.ts:14-16 | the current playlist, whose segments are the controller's |
| Playlists.DashPlaylistController.GetPlaylistAt | src/DashPlayer/DashPlaylistController.ts:14-16 | the playlist at an index, `undefined` exactly outside the list |
| Playlists.DashPlaylistController.GetCurrentPlaylistIndex | src/DashPlayer/DashPlaylistController.ts:18-20 | a valid index whose playlist owns the current segments |
| Playlists.DashPlaylistController.GetSegments | src/DashPlayer/DashPlaylistController.ts:22-24 | the current playlist's segment list |
| Playlists.DashPlaylistController.SwitchPlaylist | src/DashPlayer/DashPlaylistController.ts:26-31 | the index becomes the requested one and the segments follow it; the same index changes nothing |
| Playlists.DashPlaylistController.GetBestPlaylistForBandwidth | src/DashPlayer/DashPlaylistController.ts:33-54 | a valid index of a non-empty list, chosen by the selection rule |
| Events.Without | src/DashPlayer/EventManager.ts:20 | the filter keeps every other listener and drops every occurrence of this one |
| Events.WithoutCounts | src/DashPlayer/EventManager.ts:20 | other listeners keep their multiplicities; the length drops by this listener's count |
| Events.WithoutConcat | src/DashPlayer/EventManager.ts:20 | filtering distributes over concatenation, so relative order is kept |
| Events.WithoutAbsent | src/DashPlayer/EventManager.ts:18-22 | removing an unregistered listener leaves the list as it is |
| Events.WithoutIdempotent | src/DashPlayer/EventManager.ts:18-22 | removing twice is removing once |
| Events.AddThenRemove | src/DashPlayer/EventManager.ts:10-22 | adding then removing a listener equals just removing it |
| Events.EventManager.constructor | src/DashPlayer/EventManager.ts:6-8 | no event has listeners |
| Events.EventManager.ListenersOf | src/DashPlayer/EventManager.ts:11-15 | an event never registered has no listeners |
| Events.EventManager.AddEventListener | src/DashPlayer/EventManager.ts:10-16 | appends the listener to the event's list, creating it if missing; one more registration; other events unchanged |
| Events.EventManager.RemoveEventListener | src/DashPlayer/EventManager.ts:18-22 | the event's list is filtered, with the listener gone; an absent list stays absent |
| Events.EventManager.Emit | src/DashPlayer/EventManager.ts:24-28 | invokes exactly the event's listeners, in registration order, duplicates included |
| Decimal.NatToString | src/DashPlayer/DashSegmentFetcher.ts:41 | non-empty digits with no leading zero |
| Decimal.NatToStringRoundTrip | src/DashPlayer/DashSegmentFetcher.ts:41 | reading the digits back gives the number |
| Decimal.IntToString | src/DashPlayer/DashSegmentFetcher.ts:41 | a minus sign exactly for negatives, then digits; the digits spell the number, or its absolute value for a negative |
| SegmentFetcher.ReplaceAtHead | src/DashPlayer/DashSegmentFetcher.ts:40-41 | a global replace turns a leading occurrence into the replacement |
| SegmentFetcher.SkipHead | src/DashPlayer/DashSegmentFetcher.ts:40-41 | a character that starts no occurrence is kept |
| SegmentFetcher.ReplaceCleanPrefix | src/DashPlayer/DashSegmentFetcher.ts:40-41 | a prefix in which no match starts (neither inside it nor straddling its end) passes through unchanged |
| SegmentFetcher.PlainNoMatch | src/DashPlayer/DashSegmentFetcher.ts:40-41 | no match of a `$`-led pattern starts inside text without `$` |
| SegmentFetcher.ReplacePlainPrefix | src/DashPlayer/DashSegmentFetcher.ts:40-41 | text without `$` in front of the rest passes through unchanged |
| SegmentFetcher.ReplaceAbsent | src/DashPlayer/DashSegmentFetcher.ts:39-41 | with no occurrence of the pattern, the replace changes nothing |
| SegmentFetcher.GetSegmentUrl | src/DashPlayer/DashSegmentFetcher.ts:34-42 | throws exactly when the representation id is empty |
| SegmentFetcher.GetSegmentUrlWithoutPlaceholders | src/DashPlayer/DashSegmentFetcher.ts:39-41 | a template with neither identifier comes back unchanged |
| SegmentFetcher.SubstituteId | src/DashPlayer/DashSegmentFetcher.ts:40 | every `$RepresentationID$` slot becomes the id; nothing else changes |
| SegmentFetcher.SeparatedTail | src/DashPlayer/DashSegmentFetcher.ts:40-41 | dropping the first piece keeps a template separated for a pass |
| SegmentFetcher.IdPass | src/DashPlayer/DashSegmentFetcher.ts:40 | the first replace substitutes the id for every `$RepresentationID$` placeholder of a template in which no other match starts, whatever else the literals contain |
| SegmentFetcher.NumberPass | src/DashPlayer/DashSegmentFetcher.ts:41 | the second replace substitutes the number for every `$Number$` placeholder of a template in which no other match starts |
| SegmentFetcher.ExpandAfterSubstitute | src/DashPlayer/DashSegmentFetcher.ts:39-41 | substituting the id first does not change the final expansion |
| SegmentFetcher.GetSegmentUrlExpandsTemplate | src/DashPlayer/DashSegmentFetcher.ts:34-42 | for a non-empty id, when the only matches of each pass are its own placeholders (the id pass on the template, the number pass after the id is spliced in), the URL is the template with every id and every number placeholder filled in and all other text, `$` included, kept |
| SegmentFetcher.NumberSlotHasNoIdMatch | src/DashPlayer/DashSegmentFetcher.ts:40 | no `$RepresentationID$` match starts inside a `$Number$` placeholder followed by a well-formed template |
| SegmentFetcher.WellFormedIsSeparated | src/DashPlayer/DashSegmentFetcher.ts:39-41 | a canonical template whose literals have no `$`, with an id without `$`, meets the separation condition of both passes |
| SegmentFetcher.WellFormedTemplateExpands | src/DashPlayer/DashSegmentFetcher.ts:34-42 | for such a template and id, the URL is the intended expansion |
| SegmentFetcher.TimeIdentifierPassesThrough | src/DashPlayer/DashSegmentFetcher.ts:39-41 | `$RepresentationID$/$Time$/$Number$` with id `video` and number 3 gives `video/$Time$/3`: the unhandled `$Time$` identifier stays as text |
| SegmentFetcher.FormatTagPassesThrough | src/DashPlayer/DashSegmentFetcher.ts:39-41 | `$RepresentationID$/$$$Number%05d$.m4s` gives `video/$$$Number%05d$.m4s`: the `$$` escape and a `$Number$` with a format tag stay as text |
| SegmentFetcher.NumberInsideIdIsSubstituted | src/DashPlayer/DashSegmentFetcher.ts:39-41 | the number pass runs after the id pass, so a `$Number$` inside the id is replaced too |
| SegmentFetcher.DashSegmentFetcher.InitSegmentRequestUrl | src/DashPlayer/DashSegmentFetcher.ts:20-22 | `baseURL + '/' +` the initialization template expanded with number 0; fails exactly for an empty id |
| SegmentFetcher.DashSegmentFetcher.SegmentRequestUrl | src/DashPlayer/DashSegmentFetcher.ts:27-29 | `baseURL + '/' +` the media template expanded with the number; fails exactly for an empty id |
| Iso8601.FractionValue | src/DashPlayer/iso8601-duration.ts:9-14 | digits after the point are worth less than 1 |
| Iso8601.NumeralValue | src/DashPlayer/iso8601-duration.ts:9-14 | `parseFloat` of a numeral is non-negative |
| Iso8601.ComponentValue | src/DashPlayer/iso8601-duration.ts:9-14 | an absent group counts as 0, since `parseFloat` of `undefined` is NaN and NaN or-ed with 0 is 0 |
| Iso8601.Seconds | src/DashPlayer/iso8601-duration.ts:16-18 | the weighted sum with the code's constants is non-negative |
| Iso8601.ReadNumeralText | src/DashPlayer/iso8601-duration.ts:3 | `\d+\.?\d*` reads back every numeral it spells |
| Iso8601.ReadNumeralSpells | src/DashPlayer/iso8601-duration.ts:3 | whatever `\d+\.?\d*` reads is a numeral that spells the text |
| Iso8601.ParseTimeRendered | src/DashPlayer/iso8601-duration.ts:3 | the `T` part's groups read back from their rendering |
| Iso8601.ParseTimeSound | src/DashPlayer/iso8601-duration.ts:3 | the `T` part is accepted only as a rendering of its groups |
| Iso8601.ParseRendered | src/DashPlayer/iso8601-duration.ts:2-7 | every rendering of valid groups matches, with exactly those groups |
| Iso8601.ParseFieldsSound | src/DashPlayer/iso8601-duration.ts:2-7 | every match is the rendering of the valid groups it returns |
| Iso8601.ParseDuration | src/DashPlayer/iso8601-duration.ts:1-19 | a successful parse is a non-negative number of seconds |
| Iso8601.ParseDurationExact | src/DashPlayer/iso8601-duration.ts:1-19 | accepted exactly when the string is `P`, optional `nY nM nD`, optional `T` with optional `nH nM nS`, in that order; the result is those fields in seconds |
| Iso8601.EmptyDurationsAreZero | src/DashPlayer/iso8601-duration.ts:3-18 | `P` and `PT` both parse to 0 |
| Iso8601.MonthsVersusMinutes | src/DashPlayer/iso8601-duration.ts:3-17 | `P1M` is 2592000 seconds and `PT1M` is 60 |
| Iso8601.OutOfOrderRejected | src/DashPlayer/iso8601-duration.ts:2-7 | `PT1S1M` throws |
| Buffer.BufferedEnd | src/DashPlayer/DashBuffer.ts:66 | the end of the last buffered range, `-Infinity` exactly when none is buffered |
| Buffer.BufferLow | src/DashPlayer/DashBuffer.ts:61-68 | false when `buffered` or `currentTime` is missing; true when nothing is buffered; otherwise `currentTime + delay >=` the last range's end |
| Buffer.DashBuffer.constructor | src/DashPlayer/DashBuffer.ts:7-27 | delay 10, index 0, not fetching, no seek, empty history of size 10 |
| Buffer.DashBuffer.HasBufferReachedEnd | src/DashPlayer/DashBuffer.ts:52-54 | at the end exactly when the current playlist has no segment at the index |
| Buffer.DashBuffer.ShouldFetchNextSegment | src/DashPlayer/DashBuffer.ts:56-69 | false while fetching and at the end, true only when a segment exists at the index, and otherwise the buffer-low test |
| Buffer.DashBuffer.Seek | src/DashPlayer/DashBuffer.ts:90-92 | records (and overwrites) the target without touching the index or the fetch flag |
| Buffer.DashBuffer.SetSegmentFetchDelay | src/DashPlayer/DashBuffer.ts:48-50 | changes only the delay |
| Buffer.DashBuffer.SwitchPlaylist | src/DashPlayer/DashBuffer.ts:37-46 | switches only to a different index and then loads the init segment; fails only if that load fails; the segment index is kept |
| Buffer.DashBuffer.UpdateBuffer | src/DashPlayer/DashBuffer.ts:71-88 | selects the playlist for the estimate; stops if its init load failed, or if a pending seek's `abort`/`remove` threw, leaving the seek pending and the index as it was; otherwise a pending seek moves the index to `IndexAt(seekTo)`, clears the seek and starts no fetch; otherwise a fetch starts exactly when the gate allows, and only when none is in flight |
| Buffer.DashBuffer.FinishFetch | src/DashPlayer/DashBuffer.ts:94-112 | a successful load with a segment at the current index adds exactly one sample and advances the index by one; otherwise index and history are unchanged; the flag is cleared on every path; the history stays within 10 |
| Buffer.SeekDuringFetch | src/DashPlayer/DashBuffer.ts:77-105 | a seek applied while a fetch is in flight resumes one segment after the seek target |

## Left out

- Network and media sink I/O are not modelled. This covers the `fetch`/`arrayBuffer` calls in `DashSegments` and `DashSegmentFetcher`, and `sourceBuffer.appendBuffer`, `abort` and `remove`. Their outcomes are inputs: `initLoaded` for the init-segment load, `sinkCleared` for `abort` and `remove` together, and `FetchOutcome` for the segment load. The appended and removed bytes are not modelled.
- A failing `appendBuffer` after a successful load is not modelled. It comes after the sample is added and the index advanced, so the scheduler state is the same.
- `Date.now()` is not modelled: the measured fetch duration is an input.
- `getAverageBandwidth` is not defined by `ABRController`. The bandwidth estimate is an input to `UpdateBuffer`, with `None` for NaN. The `segmentBandwidth` field passed to `addFetch` is not part of the sample type.
- Interleaving inside the `await`s of `switchPlaylist`/`init` is not modelled. A tick is atomic up to the fetch it starts. Only the segment fetch is split into start and completion.
- The `console.log`/`console.error` logging is not modelled.
- `DashBuffer.addEventListener`/`removeEventListener` are plain delegation to `EventManager` and are not repeated. The `BufferReachedEnd` event is never emitted by the code, so no end-of-stream behaviour is claimed.
- `Events.EventManager.Emit` returns the listeners it would call instead of calling functions with arguments.
- `Playlists.DashPlaylistController.SwitchPlaylist` and its constructor require an index inside the list. In the code, an index outside it makes `playlists[i].segments` throw a TypeError.
- `Buffer.DashBuffer.FinishFetch` takes the completion of the fetch in flight (`requires isFetchingSegment`). The flag gate guarantees at most one is in flight.
- `Playlists.BestPlaylistForBandwidth` takes the estimate as `Option<real>`. Infinite estimates and NaN bandwidth attributes of playlists are not modelled.
- `Decimal.IntToString` covers integers only. The exponent forms of `toString` (numbers of 1e21 and above, non-integers) are not modelled.
- `SegmentFetcher.GetSegmentUrl` inserts the id verbatim. JavaScript's `replace` interprets `$$` (one `$`), `$&`, `` $` `` and `$'` inside the replacement, so for an id containing one of them the model differs: the id `a$$b` gives `a$b` in JavaScript and `a$$b` here. (`$n` is plain text in this code, since neither pattern has capture groups.) The results about the id pass are therefore faithful for ids without `$`.
- `SegmentFetcher.WellFormedTemplateExpands` covers templates whose literals have no `$`. Templates with other identifiers (`$Time$`, `$Bandwidth$`, format tags, `$$`) are covered by `SegmentFetcher.GetSegmentUrlExpandsTemplate` when its separation condition holds, as the two examples show.
- `getSegmentDurationSeconds` (a `parseFloat` quotient) is not used by the modelled core.
- `Iso8601.Seconds` uses exact reals. Floating-point rounding of `parseFloat` and of the sum is not modelled.
- `DashPlayer.ts`, `DashManifest.ts` and `main.ts` are not part of this model. They hold DOM wiring, the XML manifest wrapper and bootstrap.
- `loadInitSegment`/`loadSegment` of `DashSegments` are not modelled beyond their outcome. `DashSegments.loadSegment` on a missing index rejects, which is the `LoadFailed` outcome.
