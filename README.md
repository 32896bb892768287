# AeroPod Music: the player's queue, the search mapper and the time label

This project models the logic of the AeroPod browser music player, a thin
front end over YouTube search and the YouTube embedded player, and proves
properties of it. Three pieces are modelled:

- **The playback coordinator** (`App.tsx`, module `App`). The `App`
  component's state becomes the class `App.AppState`: the queue, the
  current index (−1 for none), the play/pause intent, shuffle mode, the
  current screen, the search results, query, key, loading flag and error.
  Each handler that changes that state becomes a method. Each method keeps
  the queue invariant: either the queue is empty and the index is −1, or
  the index lies inside the queue. The values the handlers assign come from
  pure functions in module `Queue`: wrap-around stepping, the id filter used
  before a shuffle, and `trim`. Lemmas there prove that next and previous
  undo each other, that the queue loops with period equal to its length,
  and that a shuffled queue is a permutation of the list it came from
  whenever the chosen track is the list's only entry with its id.
- **The search client** (`services/youtubeService.ts`, module
  `YouTubeService`). This covers the API-key guard, the choice of error
  message, and the mapping of each hit to a `VideoItem`: the id, the
  decoded title, the channel and the thumbnail fallback. `replace(/…/g, …)`
  is modelled as a left-to-right scan, `ReplaceAll`. The title decoder is
  proved to invert HTML escaping of `"`, `'` and `&`. It is proved never to
  decode twice, to leave `&`-free titles alone, and never to lengthen a
  title.
- **The progress bar** (`components/Seekbar.tsx`, module `Seekbar`).
  `formatTime` is modelled on whole seconds, and `percent` on reals. The
  `m:ss` label is proved to parse back to `s / 60` and `s % 60`. The inline
  copy of the label in `App.tsx` is proved to agree with it.

`types.dfy` holds `VideoItem` and `wrappers.dfy` holds `Option` and `Result`.
The HTTP request and response stay outside the model. The response that
`fetch` would deliver is a parameter (`YouTubeService.Response`). The
shuffle by a random comparator is a nondeterministic choice of some
permutation (`:|`).

Three behaviours of the code are worth stating:

- A shuffled `playTrack` removes *every* entry with the chosen id before it
  puts the chosen track first. When the list holds the chosen track and no
  other entry with its id, the queue is a permutation of the list, even if
  other ids repeat (`Queue.ShuffledQueueIsPermutation`). When the list
  holds two or more entries with the chosen id, the queue is shorter than
  the list (`Queue.DuplicatesDropped`).
- The thumbnail falls back from `high` to `medium` and no further. The
  result is `undefined` when both are missing. No `kind` is set on mapped
  items, and there is no playlist listing.
- Going to the previous track never restarts the current one. The branch
  meant for that is empty.

## Model

| member | source | states |
|---|---|---|
| `Queue.NextIndex` | App.tsx:90 | the next index is inside the queue and is 0 exactly when stepping from the last entry |
| `Queue.PrevIndex` | App.tsx:101 | the previous index is inside the queue and is the last one exactly when stepping back from the first |
| `Queue.NextPrevInverse` | App.tsx:88-103 | on every valid index, previous after next and next after previous are both the identity |
| `Queue.AdvanceWithinLap` | App.tsx:90 | up to one lap, k calls of next move the index k places, wrapping past the end |
| `Queue.AdvanceAdds` | App.tsx:90 | a run of next calls splits into two runs: a + b steps equal a steps then b steps |
| `Queue.AdvanceCycle` | App.tsx:88-92 | n calls of next on a queue of length n return to the starting index, no shorter run does, and the selections repeat with period n |
| `Queue.RemoveId` | App.tsx:67 | the filter keeps only entries with a different id, all taken from the input, and its length is the input's minus the number of entries with that id |
| `Queue.RemoveIdMultiset` | App.tsx:67 | as a bag, the filter's result has no entry with the removed id and every other entry as often as the input |
| `Queue.ShuffledQueueIsPermutation` | App.tsx:65-70 | the chosen track followed by a permutation of the filtered list has the same entries and length as the list, if the list holds the track and no other entry with its id (other ids may repeat) |
| `Queue.UniqueIdsCount` | App.tsx:67 | in a list whose ids are all different, every entry is the only one with its id, so the permutation lemma applies to any clicked result |
| `Queue.DuplicatesDropped` | App.tsx:67-69 | for every list holding two or more entries with the chosen id, the shuffled queue is shorter than the list |
| `Queue.Trim` | App.tsx:46 | `query.trim()`: no contract of its own; `Queue.BlankQuery` states when it is empty |
| `Queue.BlankQuery` | App.tsx:46 | `trim()` yields the empty string exactly for queries made only of white space and line terminators |
| `App.MiniPlayerDuration` | App.tsx:357 | the inline duration label: no contract of its own; `App.MiniPlayerMatchesFormatTime` states its value |
| `App.MiniPlayerMatchesFormatTime` | App.tsx:357 | the mini player's inline label equals `formatTime` for every positive duration and is `...` for zero |
| `App.AppState.constructor` | App.tsx:16-31 | initial state: empty queue with index −1, not playing, shuffle off, search screen, no key, no results, no error |
| `App.AppState.CurrentTrack` | App.tsx:109 | the current track exists exactly when the index is inside the queue and is the entry at that index; under the invariant it is missing exactly when the queue is empty |
| `App.AppState.RestoreKey` | App.tsx:33-36 | a non-empty stored key becomes the key; otherwise the key is kept; nothing else changes |
| `App.AppState.SaveKey` | App.tsx:38-42 | the key is stored and the search screen is shown; nothing else changes |
| `App.AppState.EditApiKey` | App.tsx:322 | the settings field sets the key only |
| `App.AppState.EditQuery` | App.tsx:158 | the search box sets the query only |
| `App.AppState.ShowView` | App.tsx:148 | the navigation buttons change the screen only |
| `App.AppState.HandleSearch` | App.tsx:44-62 | a blank query changes nothing; a missing key only opens settings; otherwise success replaces the results and clears the error, failure keeps the results and records the message, loading ends; the queue and index are untouched |
| `App.AppState.PlayTrack` | App.tsx:64-77 | shuffle off (index a position in the list, as the caller at App.tsx:196 guarantees): queue is the list and index the chosen one; shuffle on: index 0, the chosen track first, then a permutation of the entries with another id, so a permutation of the whole list when the chosen track is the list's only entry with its id; both: playing on the player screen, invariant kept |
| `App.AppState.PlayRandomResults` | App.tsx:79-86 | no results: no change; otherwise the queue is a permutation of the results, index 0, playing, player screen |
| `App.AppState.HandleNext` | App.tsx:88-92 | empty queue: no change; otherwise the index steps forward with wrap-around; only the index changes |
| `App.AppState.HandlePrev` | App.tsx:94-103 | empty queue: no change; otherwise the index steps back with wrap-around; only the index changes |
| `App.AppState.HandleTimeUpdate` | App.tsx:105-107 | records the polled position and duration only |
| `App.AppState.ToggleShuffle` | App.tsx:276 | flips shuffle mode only; the queue and index stay |
| `App.AppState.TogglePlay` | App.tsx:288 | flips the play/pause intent only |
| `YouTubeService.ReplaceAll` | services/youtubeService.ts:45 | one `replace(/pat/g, rep)`: no contract of its own; the `ReplaceAll…` lemmas below state its properties |
| `YouTubeService.DecodeTitle` | services/youtubeService.ts:45 | the three chained replaces in source order: no contract of its own; `DecodeEscapeRoundTrip`, `NoDoubleDecoding`, `DecodeStagesExhaustive` and `DecodeTitleBounds` state its properties |
| `YouTubeService.ReplaceAllShrinks` | services/youtubeService.ts:45 | a global replace by something no longer than the pattern never lengthens the string |
| `YouTubeService.ReplaceAllAbsent` | services/youtubeService.ts:45 | a string without the pattern's first character is unchanged by the replace |
| `YouTubeService.ReplaceAllLeavesNone` | services/youtubeService.ts:45 | when the replacement cannot start a new match, no occurrence of the pattern survives a global replace |
| `YouTubeService.DecodeStagesExhaustive` | services/youtubeService.ts:45 | after the first replace no `&quot;` is left, and after the second no `&#39;` |
| `YouTubeService.DecodeQuotStage` | services/youtubeService.ts:45 | on an escaped title, the `&quot;` replace restores exactly the double quotes |
| `YouTubeService.DecodeAposStage` | services/youtubeService.ts:45 | then the `&#39;` replace restores exactly the single quotes |
| `YouTubeService.DecodeAmpStage` | services/youtubeService.ts:45 | then the `&amp;` replace restores exactly the ampersands, giving back the original title |
| `YouTubeService.DecodeEscapeRoundTrip` | services/youtubeService.ts:45 | decoding the HTML escape of any title gives back that title; an escaped `&` comes back as a literal `&` |
| `YouTubeService.NoDoubleDecoding` | services/youtubeService.ts:45 | for every text, `&amp;` followed by it decodes to a literal `&` followed by the decoding of the text alone, so the `&` never combines with what follows into another entity |
| `YouTubeService.AmpQuotDecodesOnce` | services/youtubeService.ts:45 | `&amp;quot;` decodes to `&quot;`, not to `"` |
| `YouTubeService.DecodeTitleBounds` | services/youtubeService.ts:45 | a title without `&` is unchanged, and no decoded title is longer than the raw one |
| `YouTubeService.PickThumbnail` | services/youtubeService.ts:47 | a present, non-empty high URL is chosen; otherwise the medium URL if present; undefined exactly when neither applies |
| `YouTubeService.MapItems` | services/youtubeService.ts:43-48 | one record per item in the same order, with id from `id.videoId`, decoded title, channel copied, thumbnail by the fallback, and no kind |
| `YouTubeService.SearchRequest` | services/youtubeService.ts:27 | the request is refused with "API Key is missing" exactly when the key is empty; otherwise it carries the query and key |
| `YouTubeService.ErrorMessage` | services/youtubeService.ts:38 | the payload's non-empty `error.message` when present, else "Failed to fetch from YouTube"; never empty |
| `YouTubeService.SearchResponse` | services/youtubeService.ts:36-48 | a successful response gives the mapped items; a failed one gives the chosen error message |
| `YouTubeService.Search` | services/youtubeService.ts:23-49 | an empty key fails with "API Key is missing" whatever the response; otherwise the result is what the response yields: the mapped items (as many records as items) on success, the chosen message on failure |
| `Seekbar.Decimal` | components/Seekbar.tsx:13 | a whole number prints as a non-empty run of digits, one digit exactly below ten, with no leading zero |
| `Seekbar.ParseDecimalRoundTrip` | components/Seekbar.tsx:13 | the printed digits read back as the number |
| `Seekbar.FormatTime` | components/Seekbar.tsx:9-14 | zero gives exactly `0:00`; every label has a colon followed by exactly two characters, and at least one character before it |
| `Seekbar.SecondsFieldShape` | components/Seekbar.tsx:12-13 | the seconds field is two digits, led by `0` exactly below ten, and reads back as the seconds |
| `Seekbar.FormatTimeRoundTrip` | components/Seekbar.tsx:11-13 | parsing the label gives minutes `s / 60` and seconds `s % 60` (below 60), which make `s` again |
| `Seekbar.Percent` | components/Seekbar.tsx:17 | 0 for a non-positive duration; between 0 and 100 while the position is within the duration; 100 at the end |

## Left out

- HTTP and JSON: `fetch`, `response.json()` and URL building (`encodeURIComponent`, `maxResults=25`, `videoDuration=short`) are not modelled. Two failures are not modelled either: a JSON body that fails to parse, and a `fetch` that rejects outright, such as on a network error. The `catch` at App.tsx:57-58 would show the message of either one as the error. The response is a parameter.
- `localStorage`: reading and writing the key is I/O. The value read is a parameter of `RestoreKey`, and the write in `handleSaveKey` is omitted.
- Asynchrony in `handleSearch`: the model runs the search to completion in one step. The intermediate `isLoading == true` state and the interleaving of late responses are not modelled.
- The random comparator shuffle: only "some permutation" is modelled. Its bias and its distribution are not.
- components/VideoPlayer.tsx is not part of this model. It drives the foreign YouTube IFrame API (script loading, polling timers, play/pause commands). It reaches the core only through `onEnded`, which calls `handleNext` (`App.AppState.HandleNext`), through `onTimeUpdate` (`HandleTimeUpdate`), and through `onReady`. The player-ready flag set by `onReady` is not modelled because nothing reads it.
- `App.AppState.HandleNext`: the model runs it on the current queue and index each time a track ends. In the program, the player registers its state-change handler once, when it is built (components/VideoPlayer.tsx:31-53, 83-99), so the `onEnded` it calls is the `handleNext` of the render in which the player mounted (App.tsx:129-137), with that render's queue and index. Automatic advance therefore steps once and then keeps setting the same index, and after a new, shorter queue it can set an index outside the queue, breaking the queue invariant. The model does not capture that stale binding.
- `App.AppState.HandlePrev`: the empty "more than 3 seconds" branch has no effect and is omitted.
- The seek control's `onChange` has an empty body and is omitted.
- `Seekbar.FormatTime`: does not model fractional, negative or NaN seconds, because the model takes seconds as a natural number. The `!seconds` guard is kept for zero.
- `Seekbar.Decimal`: does not model JavaScript's exponent notation for numbers of 10^21 or more.
- `Seekbar.Percent`: is stated over exact reals, not IEEE doubles, so rounding is not modelled. The slider's width, thumb and scale styling are not modelled.
- `App.MiniPlayerMatchesFormatTime`: durations are whole seconds here, for the same reason as `FormatTime`.
- Rendering, CSS, the background image choice and the `maxresdefault` thumbnail rewrite are presentation only.
- components/Icons.tsx only re-exports an icon library. The `PlayerState` and `RepeatMode` types in types.ts are never used by any logic.
