/**
  The state machine of the `VideoDownloader` component (VideoDownloader.tsx):
  six state slots, the two click handlers `fetchVideoInfo` and `downloadVideo`,
  and the `disabled` conditions of their buttons.

  The network is not modelled: what `fetch` answers, and what
  `response.body.getReader()` then delivers, are the handlers' inputs. What
  `JSON.parse` makes of one chunk of text is abstracted by `Chunk`.
*/
module Downloader {
  import opened Wrappers

  /** `interface VideoFormat`. */
  datatype VideoFormat = VideoFormat(formatId: string, ext: string, resolution: string, filesize: int, formatNote: string)

  /** `interface VideoDetails`: the decoded `/video-info` answer. */
  datatype VideoDetails = VideoDetails(title: string, duration: string, views: int, thumbnail: string, formats: seq<VideoFormat>)

  /**
    What `JSON.parse(text)` yields for one decoded chunk, as far as the loop looks at it.
    `NotJson`: parsing throws (log text, a partial record), or the text is the JSON
    literal `null`, whose `.progress` throws inside the same `try`.
    `Json`: a value whose `progress` property is `progress` (`None` when absent,
    `null` or `false`); `hasError` says whether it also carries an `error` field,
    which the loop never reads.
  */
  datatype Chunk = NotJson | Json(progress: Option<real>, hasError: bool)

  /** `if (data.progress)`: a JSON number is truthy unless it is 0. */
  predicate Truthy(c: Chunk) {
    c.Json? && c.progress.Some? && c.progress.value != 0.0
  }

  /** The effect of one chunk on the `progress` slot (lines 108-115). */
  function Step(p: real, c: Chunk): (r: real)
    ensures Truthy(c) ==> r == c.progress.value
    ensures r != p ==> Truthy(c)
  {
    match c
    case NotJson => p
    case Json(v, _) => if v.Some? && v.value != 0.0 then v.value else p
  }

  /** The `progress` slot after the chunks `cs`, starting from the `setProgress(0)` of line 84. */
  function ProgressAfter(cs: seq<Chunk>): real {
    if cs == [] then 0.0 else Step(ProgressAfter(cs[..|cs| - 1]), cs[|cs| - 1])
  }

  /** The value the `progress` slot holds after each chunk read, in order. */
  function ProgressTrace(cs: seq<Chunk>): (trace: seq<real>)
    ensures |trace| == |cs|
    ensures forall k :: 0 <= k < |cs| ==> trace[k] == ProgressAfter(cs[..k + 1])
  {
    if cs == [] then []
    else
      var front := cs[..|cs| - 1];
      var trace := ProgressTrace(front);
      assert forall k :: 0 <= k < |front| ==> trace[k] == ProgressAfter(cs[..k + 1]) by {
        forall k | 0 <= k < |front| ensures trace[k] == ProgressAfter(cs[..k + 1]) {
          assert front[..k + 1] == cs[..k + 1];
        }
      }
      assert cs[..|cs|] == cs;
      trace + [ProgressAfter(cs)]
  }

  /** No chunk sets progress to 0, so the slot is 0 exactly when no chunk so far had a truthy `progress`. */
  lemma {:induction false} ProgressAfterZero(cs: seq<Chunk>)
    ensures ProgressAfter(cs) == 0.0 <==> forall k :: 0 <= k < |cs| ==> !Truthy(cs[k])
  {
    if cs != [] {
      var front := cs[..|cs| - 1];
      ProgressAfterZero(front);
      assert forall k :: 0 <= k < |front| ==> front[k] == cs[k];
    }
  }

  /** When some chunk had a truthy `progress`, the slot holds the value of the last such chunk. */
  lemma {:induction false} ProgressAfterLastTruthy(cs: seq<Chunk>, k: nat)
    requires k < |cs| && Truthy(cs[k])
    requires forall j :: k < j < |cs| ==> !Truthy(cs[j])
    ensures ProgressAfter(cs) == cs[k].progress.value
  {
    if k < |cs| - 1 {
      var front := cs[..|cs| - 1];
      ProgressAfterLastTruthy(front, k);
    }
  }

  /**
    Chunks are decoded independently and nothing is carried from one to the next:
    after `cs + ds`, the slot holds what `ds` alone sets, or what `cs` left when
    `ds` sets nothing.
  */
  lemma {:induction false} ProgressAfterAppend(cs: seq<Chunk>, ds: seq<Chunk>)
    ensures ProgressAfter(cs + ds) == if ProgressAfter(ds) != 0.0 then ProgressAfter(ds) else ProgressAfter(cs)
    decreases |ds|
  {
    if ds == [] {
      assert cs + ds == cs;
    } else {
      var front := ds[..|ds| - 1];
      assert (cs + ds)[..|cs + ds| - 1] == cs + front;
      ProgressAfterAppend(cs, front);
    }
  }

  /** Progress is not forced to be monotone: a later, smaller value replaces an earlier one. */
  lemma ProgressCanGoBack()
    ensures ProgressAfter([Json(Some(55.0), false), Json(Some(10.0), false)]) == 10.0
  {
  }

  /** How the stream delivered by `response.body.getReader()` ends. */
  datatype StreamEnd = Done | ReadError

  /** A response body: the chunks `reader.read()` delivers, then how it ends. */
  datatype Body = Body(chunks: seq<Chunk>, end: StreamEnd)

  /** The outcome of the `i`-th `await reader.read()` (counting from 0). */
  datatype ReadResult = Value(chunk: Chunk) | EndOfData | ReadFailed

  function Read(b: Body, i: nat): (r: ReadResult)
    ensures r.Value? <==> i < |b.chunks|
    ensures r.Value? ==> r.chunk == b.chunks[i]
    ensures i >= |b.chunks| ==> (r.EndOfData? <==> b.end.Done?)
    ensures i >= |b.chunks| ==> (r.ReadFailed? <==> b.end.ReadError?)
  {
    if i < |b.chunks| then Value(b.chunks[i])
    else if b.end == Done then EndOfData
    else ReadFailed
  }

  /** What `fetch('/video-info')` answers: a rejected promise, or a response whose body may fail to decode. */
  datatype InfoReply = InfoNetworkError | InfoHttp(ok: bool, json: Option<VideoDetails>)

  /** What `fetch('/download')` answers; `body` is `None` when `response.body` is null. */
  datatype DownloadReply = DownloadNetworkError | DownloadHttp(ok: bool, body: Option<Body>)

  /** The JSON bodies the handlers post. */
  datatype InfoRequest = InfoRequest(url: string)
  datatype DownloadRequest = DownloadRequest(url: string, formatId: string)

  /** Which toast a handler shows. */
  datatype FetchOutcome = UrlMissing | InfoLoaded | InfoFailed
  datatype DownloadOutcome = FormatMissing | DownloadSucceeded | DownloadFailed

  /** `fetchVideoInfo` reaches `setVideoDetails` only for an ok response whose body decodes. */
  predicate InfoLoads(reply: InfoReply) {
    reply.InfoHttp? && reply.ok && reply.json.Some?
  }

  /** The chunks the read loop consumes: those of the body, when the response is ok and has one. */
  function ChunksRead(reply: DownloadReply): seq<Chunk> {
    if reply.DownloadHttp? && reply.ok && reply.body.Some? then reply.body.value.chunks else []
  }

  /** The download is reported successful exactly when the response is ok, has a body, and the stream ends cleanly. */
  predicate DownloadSucceeds(reply: DownloadReply) {
    reply.DownloadHttp? && reply.ok && reply.body.Some? && reply.body.value.end == Done
  }

  class VideoDownloader {
    var url: string
    var loading: bool
    var downloading: bool
    var progress: real
    var videoDetails: Option<VideoDetails>
    var selectedFormat: string

    /** The initial values of the `useState` calls (lines 28-33). */
    constructor ()
      ensures url == "" && selectedFormat == "" && videoDetails == None
      ensures Idle()
    {
      url := "";
      loading := false;
      downloading := false;
      progress := 0.0;
      videoDetails := None;
      selectedFormat := "";
    }

    /** No request in flight: what every handler leaves behind. */
    predicate Idle()
      reads this
    {
      !loading && !downloading && progress == 0.0
    }

    /**
      `disabled={loading || !url}` on the "Fetch Info" button: no second request
      while one is in flight, and a click on the enabled button passes the
      handler's empty-URL guard.
    */
    predicate FetchDisabled()
      reads this
      ensures loading ==> FetchDisabled()
      ensures !FetchDisabled() ==> url != ""
    {
      loading || url == ""
    }

    /**
      `disabled={downloading || !selectedFormat}` on the "Download" button: no
      second download while one runs, and a click on the enabled button passes
      the handler's no-format guard.
    */
    predicate DownloadDisabled()
      reads this
      ensures downloading ==> DownloadDisabled()
      ensures !DownloadDisabled() ==> selectedFormat != ""
    {
      downloading || selectedFormat == ""
    }

    /** The URL input's `onChange`. */
    method SetUrl(u: string)
      modifies this
      ensures url == u
      ensures loading == old(loading) && downloading == old(downloading) && progress == old(progress)
      ensures videoDetails == old(videoDetails) && selectedFormat == old(selectedFormat)
    {
      url := u;
    }

    /** The quality selector's `onFormatSelect`. */
    method SelectFormat(formatId: string)
      modifies this
      ensures selectedFormat == formatId
      ensures url == old(url) && loading == old(loading) && downloading == old(downloading)
      ensures progress == old(progress) && videoDetails == old(videoDetails)
    {
      selectedFormat := formatId;
    }

    /** `fetchVideoInfo` (lines 36-71), given what the request to `/video-info` answers. */
    method FetchVideoInfo(reply: InfoReply) returns (outcome: FetchOutcome, request: Option<InfoRequest>)
      modifies this
      // The guard: without a URL nothing is requested and nothing changes.
      ensures old(url) == "" ==> outcome == UrlMissing && request == None
      ensures old(url) == "" ==> loading == old(loading) && videoDetails == old(videoDetails)
      // Past the guard: one request, `loading` reset by `finally`, details replaced only on success.
      ensures old(url) != "" ==> request == Some(InfoRequest(old(url))) && !loading
      ensures old(url) != "" ==> outcome == (if InfoLoads(reply) then InfoLoaded else InfoFailed)
      ensures old(url) != "" ==> videoDetails == (if InfoLoads(reply) then reply.json else old(videoDetails))
      // An enabled button always gets past the guard.
      ensures !old(FetchDisabled()) ==> request.Some?
      ensures url == old(url) && downloading == old(downloading) && progress == old(progress)
      ensures selectedFormat == old(selectedFormat)
      ensures old(Idle()) ==> Idle()
    {
      if url == "" {
        return UrlMissing, None;
      }
      loading := true;
      request := Some(InfoRequest(url));
      var failed := false;
      match reply {
        case InfoNetworkError =>
          failed := true;
        case InfoHttp(ok, json) =>
          if !ok {
            failed := true;
          } else if json.None? {
            failed := true;
          } else {
            videoDetails := json;
          }
      }
      outcome := if failed then InfoFailed else InfoLoaded;
      loading := false;
    }

    /**
      `downloadVideo` (lines 73-133), given what the request to `/download` answers.
      `shown` is the value of the `progress` slot after each chunk the loop reads,
      which is what the progress bar displays while the download runs; the
      `finally` block puts the slot back to 0 at the end.
    */
    method DownloadVideo(reply: DownloadReply) returns (outcome: DownloadOutcome, request: Option<DownloadRequest>, shown: seq<real>)
      modifies this
      // The guard: without a selected format nothing is requested and nothing changes.
      ensures old(selectedFormat) == "" ==> outcome == FormatMissing && request == None && shown == []
      ensures old(selectedFormat) == "" ==> downloading == old(downloading) && progress == old(progress)
      // Past the guard: one request, success exactly on a clean stream, flags reset by `finally`.
      ensures old(selectedFormat) != "" ==> request == Some(DownloadRequest(old(url), old(selectedFormat)))
      ensures old(selectedFormat) != "" ==> outcome == (if DownloadSucceeds(reply) then DownloadSucceeded else DownloadFailed)
      ensures old(selectedFormat) != "" ==> shown == ProgressTrace(ChunksRead(reply))
      ensures old(selectedFormat) != "" ==> !downloading && progress == 0.0
      // An enabled button always gets past the guard.
      ensures !old(DownloadDisabled()) ==> request.Some?
      ensures url == old(url) && loading == old(loading) && videoDetails == old(videoDetails)
      ensures selectedFormat == old(selectedFormat)
      ensures old(Idle()) ==> Idle()
    {
      if selectedFormat == "" {
        return FormatMissing, None, [];
      }
      downloading := true;
      progress := 0.0;
      request := Some(DownloadRequest(url, selectedFormat));
      shown := [];
      var failed := false;
      if reply.DownloadNetworkError? || !reply.ok {
        failed := true;
      } else if reply.body.None? {
        failed := true;
      } else {
        var body := reply.body.value;
        var i := 0;
        while true
          invariant 0 <= i <= |body.chunks|
          invariant progress == ProgressAfter(body.chunks[..i])
          invariant shown == ProgressTrace(body.chunks[..i])
          invariant !failed
          modifies this`progress
          decreases |body.chunks| - i
        {
          var r := Read(body, i);
          if r.EndOfData? {
            break;
          }
          if r.ReadFailed? {
            failed := true;
            break;
          }
          match r.chunk {
            case NotJson =>
            case Json(p, _) =>
              if p.Some? && p.value != 0.0 {
                progress := p.value;
              }
          }
          assert body.chunks[..i + 1][..i] == body.chunks[..i];
          i := i + 1;
          shown := shown + [progress];
        }
        assert body.chunks[..i] == body.chunks;
      }
      outcome := if failed then DownloadFailed else DownloadSucceeded;
      downloading := false;
      progress := 0.0;
    }
  }
}
