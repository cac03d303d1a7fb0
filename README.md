# YouTube downloader: download/progress client, audio ranking and backend helpers

A Dafny model of the logic in a small media downloader. A React component
(`VideoDownloader`) asks a Flask backend to describe a URL. It lets the user pick a
format and asks the backend to download it. While the download runs, the component
reads the streamed response and updates a progress bar. An audio selector
(`AudioQualitySelector`) shows audio formats ranked by file size.

Files:

- `wrappers.dfy` (module `Wrappers`): `Option` and `Result`.
- `duration.dfy` (module `DurationFormat`): `format_duration` of app.py. It also
  holds an independent `m:ss` reader, used to prove the round trip for every
  integer duration, negative ones included.
- `backend.dfy` (module `Backend`): the `formats` comprehension of
  `get_video_info`, and the one-record `generate` stream of `download_video`. A dict
  slot is `Missing`, `Null` or `Val(v)`, because `dict.get(k, d)` replaces only a
  missing key, never a `None` value. `f['format_id']` on a missing key raises
  `KeyError`, which makes the whole endpoint answer 400.
- `audio_ranking.dfy` (module `AudioRanking`): the comparator sort. `Rank` is a
  stable insertion sort, largest effective size first. The lemmas prove it is a
  permutation, sorted and stable. `RankUnique` proves that every stable descending
  sort returns the same sequence, so `Rank` is exactly what the stable
  `Array.prototype.sort` of ECMA-262 produces.
- `downloader.dfy` (module `Downloader`): the component as a class
  `VideoDownloader` with the six state slots, the two handlers and the button
  guards.
  - `DownloadVideo` runs the `while (true)` read loop. Its invariant ties the
    `progress` slot to `ProgressAfter` of the chunks read so far.
  - Its out-parameter `shown` is the slot's value after each chunk. The `finally`
    block resets the slot to 0, so this is the only place the intermediate values
    can be seen.
  - The network is an input: what `fetch` answers, and the chunks the reader
    delivers with how the stream ends.
- `end_to_end.dfy` (module `EndToEnd`): the client fed with what the backend
  actually sends. The backend always answers 200. So a download that failed on the
  server is still reported as a success, and the bar never moves from 0.

## Model

| member | source | states |
|---|---|---|
| `DurationFormat.SplitDuration` | app.py:10-11 | minutes and seconds satisfy `60*m + s == d` with `0 <= s < 60`, which is Python's floor `//` and `%` by 60 |
| `DurationFormat.NatToString` | app.py:12 | `str(n)` is a non-empty string of decimal digits with no leading zero: it starts with `0` only for `n == 0`, and is one digit exactly when `n < 10` |
| `DurationFormat.IntToString` | app.py:12 | `str(i)` is canonical (`0`, or digits without a leading zero, optionally after `-`) and starts with `-` exactly when `i` is negative |
| `DurationFormat.TwoDigits` | app.py:12 | `{s:02d}` gives exactly two digits that denote `s` |
| `DurationFormat.FormatDuration` | app.py:9-12 | the result is an unpadded canonical minute count, then `:`, then two digits; with the round trip below this fixes it as `str(m) + ":" + ss` |
| `DurationFormat.NatToStringRoundTrip` | app.py:12 | reading back the digits of `str(n)` gives `n` |
| `DurationFormat.IntToStringRoundTrip` | app.py:12 | reading back `str(i)` gives `i`, sign included |
| `DurationFormat.FormatDurationRoundTrip` | app.py:9-12 | parsing `format_duration(d)` as `m:ss` gives back `d`, for every integer `d` |
| `DurationFormat.FormatDurationInjective` | app.py:9-12 | different durations render different strings |
| `Backend.GetOr` | app.py:31-33 | `dict.get(k, d)` substitutes `d` only for a missing key; a present key, `None` included, is copied |
| `Backend.Project` | app.py:29-33 | raises `KeyError` exactly when `format_id` or `ext` is missing: `KeyError('format_id')` when `format_id` is missing, `KeyError('ext')` when only `ext` is, as left-to-right evaluation gives; otherwise copies both unchanged |
| `Backend.ProjectFormats` | app.py:28-34 | succeeds iff every non-audio-only format has `format_id` and `ext`. On success it yields one record per kept format, in order, with both fields copied and defaults `'N/A'`, `0` and `''` for a missing `resolution`, `filesize` and `format_note` |
| `Backend.KeptMembers` | app.py:34 | `Kept`, the reference filter, keeps a format iff it is not `AudioOnly` (its `resolution` is not the value `'audio only'`); a missing resolution is kept |
| `Backend.KeptAppend` | app.py:34 | the filter keeps the original order: it distributes over concatenation |
| `Backend.MissingResolutionKept` | app.py:31-34 | a format without a `resolution` key is kept |
| `Backend.Generate` | app.py:62-68 | the stream yields exactly one record: `{'progress': 100}` when the download completes, else `{'error': msg}` |
| `Backend.DownloadEndpoint` | app.py:70 | the response is status 200 with mimetype `application/json` for every download outcome, and its body is the generated stream |
| `AudioRanking.Insert` | src/components/AudioQualitySelector.tsx:30-34 | inserting into a descending sequence keeps it descending and adds exactly one element |
| `AudioRanking.Rank` | src/components/AudioQualitySelector.tsx:30-34 | the ranking is non-increasing in `EffectiveSize`, the comparator's size of lines 31-32 (a missing, `null` or zero size counts as 0), has the input's length and is a permutation of the input |
| `AudioRanking.InsertWithSize` | src/components/AudioQualitySelector.tsx:30-34 | inserting puts the new format before the formats of its own size and changes no other size class |
| `AudioRanking.RankStable` | src/components/AudioQualitySelector.tsx:30-34 | for every size, the formats of that size appear in the ranking in their input order |
| `AudioRanking.KnownSizesFirst` | src/components/AudioQualitySelector.tsx:31-33 | every format with a positive size comes before every format whose size is missing or zero |
| `AudioRanking.StableSortUnique` | src/components/AudioQualitySelector.tsx:30-34 | two descending sequences that agree, in order, on the formats of every size are equal |
| `AudioRanking.RankUnique` | src/components/AudioQualitySelector.tsx:30-34 | any stable sort of the formats descending by effective size returns exactly `Rank` |
| `AudioRanking.OptionValues` | src/components/AudioQualitySelector.tsx:44-45 | one option per format, in ranked order, each with value the format's `format_id`; every input format's id is offered |
| `Downloader.Step` | src/components/VideoDownloader.tsx:108-115 | a chunk that is `Truthy` (parsed JSON whose `progress` is a number other than 0, the test of line 110) sets the slot to exactly that value; any other chunk (non-JSON, `progress: 0`, error-only) leaves it unchanged |
| `Downloader.ProgressTrace` | src/components/VideoDownloader.tsx:103-116 | after the k-th chunk the slot holds `ProgressAfter` of the first k chunks: the fold of `Step` over them, starting from the `setProgress(0)` of line 84 |
| `Downloader.ProgressAfterZero` | src/components/VideoDownloader.tsx:84 | `ProgressAfter` (the slot after a chunk sequence, from 0) is 0 iff no chunk read so far had a truthy `progress` |
| `Downloader.ProgressAfterLastTruthy` | src/components/VideoDownloader.tsx:103-116 | otherwise the slot holds the progress of the last chunk with a truthy `progress` |
| `Downloader.ProgressAfterAppend` | src/components/VideoDownloader.tsx:103-116 | nothing is carried between chunks: after `cs + ds` the slot is what `ds` sets, or what `cs` left if `ds` sets nothing |
| `Downloader.ProgressCanGoBack` | src/components/VideoDownloader.tsx:110-112 | no monotonicity: a later 10 replaces an earlier 55 |
| `Downloader.Read` | src/components/VideoDownloader.tsx:104-105 | the i-th read yields the i-th chunk while there is one; past the last chunk it is end-of-data exactly when the stream ended cleanly, and a read error exactly when it broke |
| `Downloader.VideoDownloader.constructor` | src/components/VideoDownloader.tsx:28-33 | empty URL and format, no details, no request in flight, progress 0 |
| `Downloader.VideoDownloader.SetUrl` | src/components/VideoDownloader.tsx:152 | sets the URL and nothing else |
| `Downloader.VideoDownloader.SelectFormat` | src/components/VideoDownloader.tsx:173 | sets the selected format and nothing else |
| `Downloader.VideoDownloader.FetchDisabled` | src/components/VideoDownloader.tsx:157 | the "Fetch Info" button is disabled while a request is in flight, and when it is enabled the URL is non-empty, so a click passes the guard of line 37 |
| `Downloader.VideoDownloader.DownloadDisabled` | src/components/VideoDownloader.tsx:180 | the "Download" button is disabled while a download runs, and when it is enabled a format is selected, so a click passes the guard of line 74 |
| `Downloader.VideoDownloader.FetchVideoInfo` | src/components/VideoDownloader.tsx:36-71 | empty URL: no request, `loading` and details unchanged. Otherwise one request with the URL and `loading` false afterwards. Details are replaced only when the response is ok and decodes (`InfoLoads`), and kept on any failure. When `FetchDisabled` is false on entry, the request is always sent |
| `Downloader.VideoDownloader.DownloadVideo` | src/components/VideoDownloader.tsx:73-133 | no format: no request and no state change. Otherwise one request with URL and format. The slot after each chunk follows `ProgressTrace`. Success iff `DownloadSucceeds` (lines 98-121): the response is ok, has a body and the stream ends without error. `downloading` is false and `progress` 0 on every exit. When `DownloadDisabled` is false on entry, the request is always sent |
| `EndToEnd.Decode` | app.py:66-68 | the client parses the progress record as JSON with that progress, and the error record as JSON with no progress |
| `EndToEnd.Deliver` | app.py:70 | the client sees `ok` exactly for a 2xx status, and one chunk per yielded record, in order |
| `EndToEnd.DownloadAlwaysReportedSuccessful` | app.py:62-70 | whatever the server-side download did, the client reports success: errors arrive in-band, not as a non-ok status |
| `EndToEnd.ProgressShownFromBackend` | app.py:62-68 | the bar shows 100 after the one record of a completed download, and stays at 0 for the error record |

## Left out

- Rendering: JSX, CSS, icons, localisation (`useLanguage`, `t(...)`), `console.log`
  and toast texts. The toast a handler shows is modelled only as its outcome value.
  `VideoInfo` and `QualitySelector` are not part of this model.
- Display formatting: `progress.toFixed(1)` and the MB label of the audio selector
  are floating-point formatting.
- Network and decoding: `fetch`, `getReader()` and `TextDecoder` become handler
  inputs. `JSON.parse` of a chunk is abstracted by `Chunk`. A record split across
  two chunks, or two records in one chunk, reaches the model as `NotJson`, as
  parsing each chunk on its own would see it.
- Downloader.VideoDownloader.FetchVideoInfo: `response.json()` may yield any JSON
  value, which `setVideoDetails` stores unchecked. The model stores a
  `VideoDetails` value or treats the body as undecodable.
- React's asynchronous, batched state updates and interleaved handlers are not
  modelled. Each handler runs to completion with immediate updates, reading the URL
  and format current when it is invoked.
- Sizes are integers. JavaScript numbers may be fractional, and the comparator
  would order them the same way.
- Backend: yt_dlp extraction and download, Flask routing, CORS, `app.run`, and the
  other fields and the 400 error body of `get_video_info`, are library calls and I/O.
  `progress_hook` does float division, and yt_dlp discards its return value, so it
  never reaches the stream.
- DurationFormat.FormatDuration: takes an integer only. yt_dlp may report a float
  duration, for which `{seconds:02d}` raises `ValueError`, or `None` (live streams),
  for which `duration // 60` raises `TypeError`. Either way `get_video_info` answers
  400. Those paths are not modelled.
- Downloader.Body: a response body is a finite sequence of chunks. A stream that
  never ends cannot be expressed. In the component, the read loop would then never
  exit and `downloading` would stay true.
- EndToEnd.Deliver: assumes that each record `generate` yields reaches the reader
  as exactly one chunk, and that the stream always ends cleanly (`Done`). TCP
  segmentation, proxies and a connection dropped mid-stream can split, merge or cut
  chunks; `Downloader.VideoDownloader.DownloadVideo` handles such bodies, but the end-to-end lemmas
  do not cover them.
- The JSON text that `json.dumps` writes is not modelled. `EndToEnd.Decode` maps
  each backend record straight to what the client parses from it.
