/**
  The client of VideoDownloader.tsx fed with what the backend of app.py actually
  sends for `/download`: one JSON record, status 200, whatever happened to the
  download on the server.
*/
module EndToEnd {
  import opened Wrappers
  import Backend
  import Downloader

  /** `JSON.parse` in the client of a record written by `json.dumps` in the backend. */
  function Decode(r: Backend.Record): (c: Downloader.Chunk)
    ensures c.Json?
    ensures r.ProgressRecord? ==> c.progress == Some(r.progress as real) && !c.hasError
    ensures r.ErrorRecord? ==> c.progress == None && c.hasError
  {
    match r
    case ProgressRecord(p) => Downloader.Json(Some(p as real), false)
    case ErrorRecord(_) => Downloader.Json(None, true)
  }

  /**
    The client's view of a streamed backend response: `response.ok` is a 2xx
    status, a body is present, each yielded record arrives as its own chunk, and
    the stream closes cleanly once the generator is exhausted.
  */
  function Deliver(resp: Backend.StreamedResponse): (reply: Downloader.DownloadReply)
    ensures reply.DownloadHttp? && reply.body.Some?
    ensures reply.ok <==> 200 <= resp.status < 300
    ensures |reply.body.value.chunks| == |resp.body|
    ensures forall i :: 0 <= i < |resp.body| ==> reply.body.value.chunks[i] == Decode(resp.body[i])
  {
    var chunks := seq(|resp.body|, i requires 0 <= i < |resp.body| => Decode(resp.body[i]));
    Downloader.DownloadHttp(200 <= resp.status < 300, Some(Downloader.Body(chunks, Downloader.Done)))
  }

  /**
    A failed server-side download still reaches the client as an ok response
    whose stream ends cleanly, so the client reports success either way: errors
    arrive in-band and an error-only record does not make the download fail.
  */
  lemma DownloadAlwaysReportedSuccessful(run: Backend.DownloadRun)
    ensures Downloader.DownloadSucceeds(Deliver(Backend.DownloadEndpoint(run)))
  {
  }

  /**
    What the progress bar shows while the client reads the backend's stream:
    one update to 100 when the download completed, and no change from 0 when it
    raised, since the error record has no `progress`.
  */
  lemma ProgressShownFromBackend(run: Backend.DownloadRun)
    ensures Downloader.ProgressTrace(Downloader.ChunksRead(Deliver(Backend.DownloadEndpoint(run))))
            == if run.Completed? then [100.0] else [0.0]
  {
    var cs := Downloader.ChunksRead(Deliver(Backend.DownloadEndpoint(run)));
    assert |cs| == 1;
    assert cs[..1] == cs && cs[..0] == [];
    var trace := Downloader.ProgressTrace(cs);
    assert trace[0] == Downloader.ProgressAfter(cs) == Downloader.Step(0.0, cs[0]);
    assert trace == [trace[0]];
  }
}
