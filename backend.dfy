/**
  The two pieces of request handling in the backend (app.py) that are logic
  rather than library calls: the `formats` list comprehension of
  `get_video_info`, and the one-shot `generate` stream of `download_video`.

  A raw yt_dlp format is a Python dict: a key may be absent, or present with the
  value `None`. `dict.get(key, default)` substitutes the default only for an
  ABSENT key; a key present with `None` is copied as `None` (JSON `null`).
*/
module Backend {
  import opened Wrappers

  /** One dict slot: key absent, key present with `None`, or key present with a value. */
  datatype Entry<T> = Missing | Null | Val(v: T)

  /** The fields of a yt_dlp format dict that the comprehension looks at. */
  datatype RawFormat = RawFormat(
    formatId: Entry<string>,
    ext: Entry<string>,
    resolution: Entry<string>,
    filesize: Entry<int>,
    formatNote: Entry<string>)

  /** One element of the `formats` list sent to the client. */
  datatype FormatRecord = FormatRecord(
    formatId: Entry<string>,
    ext: Entry<string>,
    resolution: Entry<string>,
    filesize: Entry<int>,
    formatNote: Entry<string>)

  /** `f[key]` on a missing key raises `KeyError(key)`. */
  datatype KeyError = KeyError(key: string)

  /** `f.get(key, default)`. */
  function GetOr<T>(e: Entry<T>, default: T): (r: Entry<T>)
    ensures r != Missing
    ensures e != Missing ==> r == e
    ensures e == Missing ==> r == Val(default)
  {
    if e.Missing? then Val(default) else e
  }

  /** The filter `f.get('resolution') != 'audio only'` fails exactly for this. */
  predicate AudioOnly(f: RawFormat) {
    f.resolution == Val("audio only")
  }

  /** The element expression of the comprehension, for one kept format. */
  function Project(f: RawFormat): (r: Result<FormatRecord, KeyError>)
    ensures r.Err? <==> f.formatId.Missing? || f.ext.Missing?
    ensures f.formatId.Missing? ==> r == Err(KeyError("format_id"))
    ensures !f.formatId.Missing? && f.ext.Missing? ==> r == Err(KeyError("ext"))
    ensures r.Ok? ==> r.value.formatId == f.formatId && r.value.ext == f.ext
  {
    if f.formatId.Missing? then Err(KeyError("format_id"))
    else if f.ext.Missing? then Err(KeyError("ext"))
    else Ok(FormatRecord(
      f.formatId,
      f.ext,
      GetOr(f.resolution, "N/A"),
      GetOr(f.filesize, 0),
      GetOr(f.formatNote, "")))
  }

  /** Reference definition of which formats the comprehension keeps, in order. */
  function Kept(fs: seq<RawFormat>): seq<RawFormat> {
    if fs == [] then []
    else if AudioOnly(fs[0]) then Kept(fs[1..])
    else [fs[0]] + Kept(fs[1..])
  }

  /** Every kept format carries the two keys read with `f[...]`. */
  predicate KeysPresent(fs: seq<RawFormat>) {
    forall i :: 0 <= i < |fs| && !AudioOnly(fs[i]) ==> fs[i].formatId != Missing && fs[i].ext != Missing
  }

  /** What the projection promises of one kept format: ids and extensions copied, defaults for absent keys. */
  predicate Projects(f: RawFormat, p: FormatRecord) {
    && p.formatId == f.formatId
    && p.ext == f.ext
    && p.resolution == (if f.resolution.Missing? then Val("N/A") else f.resolution)
    && p.filesize == (if f.filesize.Missing? then Val(0) else f.filesize)
    && p.formatNote == (if f.formatNote.Missing? then Val("") else f.formatNote)
  }

  /**
    The comprehension `[{...} for f in info['formats'] if f.get('resolution') != 'audio only']`,
    evaluated left to right: the first kept format missing `format_id` or `ext` raises,
    and `get_video_info` then answers 400 with the error.
  */
  function ProjectFormats(fs: seq<RawFormat>): (r: Result<seq<FormatRecord>, KeyError>)
    ensures r.Ok? <==> KeysPresent(fs)
    ensures r.Ok? ==> |r.value| == |Kept(fs)|
    ensures r.Ok? ==> forall i :: 0 <= i < |r.value| ==> Projects(Kept(fs)[i], r.value[i])
  {
    if fs == [] then Ok([])
    else if AudioOnly(fs[0]) then
      var rest := ProjectFormats(fs[1..]);
      assert KeysPresent(fs) <==> KeysPresent(fs[1..]) by {
        if KeysPresent(fs[1..]) {
          forall i | 0 <= i < |fs| && !AudioOnly(fs[i])
            ensures fs[i].formatId != Missing && fs[i].ext != Missing
          {
            assert fs[i] == fs[1..][i - 1];
          }
        }
      }
      rest
    else
      match Project(fs[0])
      case Err(e) => Err(e)
      case Ok(p) =>
        match ProjectFormats(fs[1..])
        case Err(e) => Err(e)
        case Ok(ps) => Ok([p] + ps)
  }

  /** `Kept` is a filter: it keeps exactly the formats that are not audio-only ... */
  lemma {:induction false} KeptMembers(fs: seq<RawFormat>, f: RawFormat)
    ensures f in Kept(fs) <==> f in fs && !AudioOnly(f)
  {
    if fs != [] {
      KeptMembers(fs[1..], f);
      assert fs == [fs[0]] + fs[1..];
    }
  }

  /** ... and it keeps their original order: filtering distributes over concatenation. */
  lemma {:induction false} KeptAppend(a: seq<RawFormat>, b: seq<RawFormat>)
    ensures Kept(a + b) == Kept(a) + Kept(b)
  {
    if a != [] {
      assert (a + b)[1..] == a[1..] + b;
      KeptAppend(a[1..], b);
    } else {
      assert a + b == b;
    }
  }

  /** A format without a `resolution` key passes the filter and is kept. */
  lemma MissingResolutionKept(fs: seq<RawFormat>, i: nat)
    requires i < |fs| && fs[i].resolution.Missing?
    ensures fs[i] in Kept(fs)
  {
    KeptMembers(fs, fs[i]);
  }

  /** What `ydl.download([url])` did, as far as `generate` can tell. */
  datatype DownloadRun = Completed | Raised(message: string)

  /** A JSON object written by `generate` with `json.dumps`. */
  datatype Record = ProgressRecord(progress: int) | ErrorRecord(error: string)

  /** `generate()`: runs the download, then yields exactly one record. */
  function Generate(run: DownloadRun): (body: seq<Record>)
    ensures |body| == 1
    ensures body[0].ProgressRecord? <==> run.Completed?
    ensures run.Completed? ==> body[0] == ProgressRecord(100)
    ensures run.Raised? ==> body[0] == ErrorRecord(run.message)
  {
    match run
    case Completed => [ProgressRecord(100)]
    case Raised(msg) => [ErrorRecord(msg)]
  }

  /** A streamed Flask response. */
  datatype StreamedResponse = StreamedResponse(status: int, mimetype: string, body: seq<Record>)

  /**
    `download_video`: `Response(generate(), mimetype='application/json')`.
    The status is Flask's default 200 whatever the download did, so a failed
    download reaches the client in-band, as an error record.
  */
  function DownloadEndpoint(run: DownloadRun): (r: StreamedResponse)
    ensures r.status == 200 && r.mimetype == "application/json"
    ensures r.body == Generate(run)
  {
    StreamedResponse(200, "application/json", Generate(run))
  }
}
