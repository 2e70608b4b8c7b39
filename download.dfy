/**
 * The `download-firmware` edge function: the order in which it answers a request,
 * and how it turns a firmware record's public URL into a storage bucket, an object
 * path and the file name of the attachment. The database and the storage service
 * are parameters: `fetch` is the answer of the single-row firmware query for an id,
 * `download` the answer of the storage service for a bucket and a path.
 */
module Download {
  import opened Common
  import opened Text

  // ---------------------------------------------------------------------------
  // Requests, answers, responses

  /** An incoming request: its HTTP method, whether its URL parses, and its `id` search parameter. */
  datatype Request = Request(verb: string, urlValid: bool, idParam: Option<string>)

  /** The columns the function selects from `firmware`. */
  datatype FirmwareRecord = FirmwareRecord(file_url: Option<string>, name: string, version: string)

  /** The `{ data, error }` of the firmware query. */
  datatype FetchAnswer = FetchFailed | Fetched(record: Option<FirmwareRecord>)

  /** The `{ data, error }` of the storage download. */
  datatype DownloadAnswer = DownloadFailed | Downloaded(data: Option<seq<bv8>>)

  /** The calls into the services, in the order they are made. */
  datatype ServiceCall =
    | FetchFirmware(id: string)
    | IncrementBurnCount(fw_id: string)
    | DownloadObject(bucket: string, path: string)

  /** A response body: none (the preflight answer), a JSON error, or the file as an attachment. */
  datatype Body = NoBody | ErrorJson(error: string) | Attachment(data: seq<bv8>, fileName: string)

  /** Every response carries the CORS headers; the body decides the content type. */
  datatype Response = Response(status: int, body: Body)

  datatype Outcome = Outcome(response: Response, calls: seq<ServiceCall>)

  predicate Preflight(req: Request) {
    req.verb == "OPTIONS"
  }

  /** `!firmwareId`: the parameter is absent or empty. */
  predicate MissingId(req: Request) {
    req.idParam.None? || req.idParam.value == ""
  }

  /** `!(fetchError || !firmware)`: the query succeeded and returned a record. */
  predicate Found(answer: FetchAnswer) {
    answer.Fetched? && answer.record.Some?
  }

  /** `firmware.file_url` is neither null nor empty. */
  predicate HasFile(record: FirmwareRecord) {
    record.file_url.Some? && record.file_url.value != ""
  }

  /** `!(downloadError || !fileData)`. */
  predicate GotFile(answer: DownloadAnswer) {
    answer.Downloaded? && answer.data.Some?
  }

  // ---------------------------------------------------------------------------
  // From a public URL to a storage object

  /**
   * The segments of `fileUrl` after its first "public" segment, joined again; when
   * there is no such segment `indexOf` gives -1 and the whole URL is kept.
   */
  function StoragePath(fileUrl: string): (path: string)
    ensures "public" !in Split(fileUrl, '/') ==> path == fileUrl
  {
    var parts := Split(fileUrl, '/');
    var i := IndexOf(parts, "public");
    JoinSplit(fileUrl, '/');
    Join(parts[i + 1..], '/')
  }

  /** The first segment of the storage path. */
  function BucketOf(storagePath: string): (bucket: string)
    ensures '/' !in bucket
    ensures StartsWith(storagePath, bucket)
  {
    var parts := Split(storagePath, '/');
    JoinSplit(storagePath, '/');
    if |parts| > 1 then
      assert storagePath == parts[0] + "/" + Join(parts[1..], '/');
      parts[0]
    else
      parts[0]
  }

  /** The storage path without its first segment. */
  function ObjectPathOf(storagePath: string): string {
    Join(Split(storagePath, '/')[1..], '/')
  }

  /** The bucket and the object path put back together give the storage path. */
  lemma BucketAndPath(storagePath: string)
    ensures '/' in storagePath ==> BucketOf(storagePath) + "/" + ObjectPathOf(storagePath) == storagePath
    ensures '/' !in storagePath ==> BucketOf(storagePath) == storagePath && ObjectPathOf(storagePath) == ""
  {
    var parts := Split(storagePath, '/');
    JoinSplit(storagePath, '/');
    if '/' in storagePath {
      SplitContaining(storagePath, '/');
      assert Join(parts, '/') == parts[0] + "/" + Join(parts[1..], '/');
    } else {
      SplitWithoutSeparator(storagePath, '/');
    }
  }

  /**
   * The attachment's name: the text after the last '/' of the object path, or
   * `name-version.bin` when that text is empty.
   */
  function FileName(objectPath: string, name: string, version: string): (fileName: string)
    ensures fileName != ""
    ensures var last := Last(Split(objectPath, '/'));
      last != "" ==>
        && fileName == last && EndsWith(objectPath, fileName) && '/' !in fileName
        && (|fileName| < |objectPath| ==> objectPath[|objectPath| - |fileName| - 1] == '/')
    ensures Last(Split(objectPath, '/')) == "" ==> fileName == name + "-" + version + ".bin"
  {
    SplitLast(objectPath, '/');
    var last := Last(Split(objectPath, '/'));
    if last != "" then last else name + "-" + version + ".bin"
  }

  /** A segment is a URL segment: it holds no '/'. */
  predicate Segments(parts: seq<string>) {
    forall i :: 0 <= i < |parts| ==> '/' !in parts[i]
  }

  lemma SegmentsConcat(a: seq<string>, b: seq<string>)
    requires Segments(a) && Segments(b)
    ensures Segments(a + b)
  {
    forall i | 0 <= i < |a + b|
      ensures '/' !in (a + b)[i]
    {
      if i >= |a| {
        assert (a + b)[i] == b[i - |a|];
      }
    }
  }

  /** The storage path is read off the URL's segments. */
  lemma StoragePathOfSplit(url: string, parts: seq<string>)
    requires Split(url, '/') == parts
    ensures StoragePath(url) == Join(parts[IndexOf(parts, "public") + 1..], '/')
  {
  }

  /** The storage path of a URL made of segments is the join of the segments after the first "public". */
  lemma StoragePathOfSegments(parts: seq<string>)
    requires Segments(parts) && |parts| >= 1
    ensures StoragePath(Join(parts, '/')) == Join(parts[IndexOf(parts, "public") + 1..], '/')
  {
    SplitJoin(parts, '/');
    StoragePathOfSplit(Join(parts, '/'), parts);
  }

  /** A storage path made of at least two segments names the first as bucket and the others as object path. */
  lemma BucketOfSegments(parts: seq<string>)
    requires Segments(parts) && |parts| >= 2
    ensures BucketOf(Join(parts, '/')) == parts[0] && ObjectPathOf(Join(parts, '/')) == Join(parts[1..], '/')
  {
    SplitJoin(parts, '/');
  }

  /**
   * A URL of the form `<before>/public/<bucket>/<rest>` is read as bucket `bucket` and
   * object path `<rest>` when no segment before it is "public".
   */
  lemma PublicUrl(before: seq<string>, bucket: string, rest: seq<string>)
    requires Segments(before) && '/' !in bucket && Segments(rest) && |rest| >= 1
    requires "public" !in before
    ensures var sp := StoragePath(Join(before + ["public", bucket] + rest, '/'));
      sp == Join([bucket] + rest, '/') && BucketOf(sp) == bucket && ObjectPathOf(sp) == Join(rest, '/')
  {
    var tail := [bucket] + rest;
    assert Segments([bucket]);
    SegmentsConcat([bucket], rest);
    assert Segments(["public"]);
    SegmentsConcat(["public"], tail);
    SegmentsConcat(before, ["public"] + tail);
    var parts := before + (["public"] + tail);
    assert parts == before + ["public", bucket] + rest;
    assert parts[|before|] == "public" && parts[..|before|] == before;
    assert IndexOf(parts, "public") == |before|;
    assert parts[|before| + 1..] == tail;
    StoragePathOfSegments(parts);
    BucketOfSegments(tail);
    assert tail[1..] == rest;
  }

  // ---------------------------------------------------------------------------
  // The handler

  function ErrorResponse(status: int, message: string): Response {
    Response(status, ErrorJson(message))
  }

  /**
   * The handler, as a decision sequence: the preflight answer; a URL that does not
   * parse throws inside the `try` and becomes a 500; a missing id is a 400 before any
   * service is called; then the firmware query, the file URL, the burn-count
   * increment (whose failure is only logged), and the download.
   */
  function Handle(req: Request, fetch: string -> FetchAnswer, download: (string, string) -> DownloadAnswer): (out: Outcome)
    ensures Preflight(req) ==> out == Outcome(Response(200, NoBody), [])
    ensures !Preflight(req) && !req.urlValid ==>
      out == Outcome(ErrorResponse(500, "An unexpected error occurred"), [])
    ensures !Preflight(req) && req.urlValid && MissingId(req) ==>
      out == Outcome(ErrorResponse(400, "Firmware ID is required"), [])
    ensures !Preflight(req) && req.urlValid && !MissingId(req) ==>
      |out.calls| >= 1 && out.calls[0] == FetchFirmware(req.idParam.value)
    ensures !Preflight(req) && req.urlValid && !MissingId(req) && !Found(fetch(req.idParam.value)) ==>
      out == Outcome(ErrorResponse(404, "Firmware not found"), [FetchFirmware(req.idParam.value)])
    ensures (&& !Preflight(req) && req.urlValid && !MissingId(req) && Found(fetch(req.idParam.value))
             && !HasFile(fetch(req.idParam.value).record.value)) ==>
      out == Outcome(ErrorResponse(404, "Firmware file not available"), [FetchFirmware(req.idParam.value)])
    ensures (&& !Preflight(req) && req.urlValid && !MissingId(req) && Found(fetch(req.idParam.value))
             && HasFile(fetch(req.idParam.value).record.value)) ==>
      var id := req.idParam.value;
      var record := fetch(id).record.value;
      var sp := StoragePath(record.file_url.value);
      var file := download(BucketOf(sp), ObjectPathOf(sp));
      && out.calls == [FetchFirmware(id), IncrementBurnCount(id), DownloadObject(BucketOf(sp), ObjectPathOf(sp))]
      && (GotFile(file) ==>
            out.response == Response(200, Attachment(file.data.value, FileName(ObjectPathOf(sp), record.name, record.version))))
      && (!GotFile(file) ==> out.response == ErrorResponse(500, "Failed to download firmware file"))
    ensures out.response.status == 500 && |out.calls| > 0 ==>
      out.response == ErrorResponse(500, "Failed to download firmware file") && |out.calls| == 3
    ensures out.response.body.Attachment? <==> out.response.status == 200 && |out.calls| == 3
  {
    if Preflight(req) then Outcome(Response(200, NoBody), [])
    else if !req.urlValid then Outcome(ErrorResponse(500, "An unexpected error occurred"), [])
    else if MissingId(req) then Outcome(ErrorResponse(400, "Firmware ID is required"), [])
    else
      var id := req.idParam.value;
      var fetched := fetch(id);
      if !Found(fetched) then Outcome(ErrorResponse(404, "Firmware not found"), [FetchFirmware(id)])
      else
        var firmware := fetched.record.value;
        if !HasFile(firmware) then Outcome(ErrorResponse(404, "Firmware file not available"), [FetchFirmware(id)])
        else
          var storagePath := StoragePath(firmware.file_url.value);
          var bucket := BucketOf(storagePath);
          var objectPath := ObjectPathOf(storagePath);
          var calls := [FetchFirmware(id), IncrementBurnCount(id), DownloadObject(bucket, objectPath)];
          var file := download(bucket, objectPath);
          if !GotFile(file) then Outcome(ErrorResponse(500, "Failed to download firmware file"), calls)
          else
            var fileName := FileName(objectPath, firmware.name, firmware.version);
            Outcome(Response(200, Attachment(file.data.value, fileName)), calls)
  }

  /**
   * A served file is the one the storage service returned for the record's bucket and
   * object path, after the burn count was asked to go up; its name comes from that path.
   */
  lemma ServedFile(req: Request, fetch: string -> FetchAnswer, download: (string, string) -> DownloadAnswer)
    requires Handle(req, fetch, download).response.body.Attachment?
    ensures var out := Handle(req, fetch, download);
      var id := req.idParam.value;
      var record := fetch(id).record.value;
      var sp := StoragePath(record.file_url.value);
      && !MissingId(req) && Found(fetch(id)) && HasFile(record)
      && out.calls == [FetchFirmware(id), IncrementBurnCount(id), DownloadObject(BucketOf(sp), ObjectPathOf(sp))]
      && GotFile(download(BucketOf(sp), ObjectPathOf(sp)))
      && out.response.body.data == download(BucketOf(sp), ObjectPathOf(sp)).data.value
      && out.response.body.fileName == FileName(ObjectPathOf(sp), record.name, record.version)
  {
  }

  /** A request that is not a preflight and has an id always reaches the firmware query first. */
  lemma NoServiceCallWithoutId(req: Request, fetch: string -> FetchAnswer, download: (string, string) -> DownloadAnswer)
    ensures Handle(req, fetch, download).calls != [] <==> !Preflight(req) && req.urlValid && !MissingId(req)
  {
  }
}
