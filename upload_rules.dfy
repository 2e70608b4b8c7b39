/**
 * The rules the four upload paths share: the checks made before an upload starts and
 * their order, the upload password, the storage file name, the shape of the new
 * `firmware` record, and the sequence of storage and database calls of the two paths
 * that keep the file in the `firmwares` bucket. The services are parameters: each
 * run takes the answers the services give.
 */
module UploadRules {
  import opened Common
  import opened Text
  import opened Catalog
  import opened Notices

  /** The chosen file: its name and its size in bytes. */
  datatype FileInfo = FileInfo(name: string, size: nat)

  /** The form: name, version, description, release status and tags. */
  datatype FormData = FormData(name: string, version: string, description: string, status: Status, tags: seq<string>)

  /** The form as it starts, and as the upload page resets it. */
  const EmptyForm := FormData("", "", "", Draft, [])

  // ---------------------------------------------------------------------------
  // Checks before an upload

  const UploadPassword := "AmazingFOTA"

  /** `validatePassword`: valid exactly when the input is the upload password. */
  predicate PasswordValid(input: string) {
    input == UploadPassword
  }

  datatype Rejection = NoFileSelected | MissingInformation | InvalidPassword

  /**
   * The checks in the order the handlers make them: a file, then a name and a version,
   * then, where the path asks for one, a valid password (`passwordValid` is `None` on
   * the paths that ask for none). The first failing check is the answer.
   */
  function Check(file: Option<FileInfo>, form: FormData, passwordValid: Option<bool>): (r: Option<Rejection>)
    ensures r == Some(NoFileSelected) <==> file.None?
    ensures r == Some(MissingInformation) <==> file.Some? && (form.name == "" || form.version == "")
    ensures r == Some(InvalidPassword) <==>
      file.Some? && form.name != "" && form.version != "" && passwordValid == Some(false)
    ensures r.None? <==> file.Some? && form.name != "" && form.version != "" && passwordValid != Some(false)
  {
    if file.None? then Some(NoFileSelected)
    else if form.name == "" || form.version == "" then Some(MissingInformation)
    else if passwordValid == Some(false) then Some(InvalidPassword)
    else None
  }

  /** The toast each rejection raises. */
  function RejectionToast(r: Rejection): Toast {
    match r
    case NoFileSelected => ErrorToast("No file selected", "Please select a firmware file to upload")
    case MissingInformation => ErrorToast("Missing information", "Please provide a name and version")
    case InvalidPassword => ErrorToast("Invalid password", "Please enter the correct password to upload firmware")
  }

  // ---------------------------------------------------------------------------
  // The storage file name

  /** `name.split('.').pop()`: the text after the last '.', or the whole name when it has none. */
  function Extension(fileName: string): (ext: string)
    ensures '.' !in ext && EndsWith(fileName, ext)
    ensures |ext| < |fileName| ==> fileName[|fileName| - |ext| - 1] == '.'
    ensures '.' !in fileName ==> ext == fileName
  {
    SplitLast(fileName, '.');
    Last(Split(fileName, '.'))
  }

  /**
   * The object name: the name with white-space runs turned into '-', the version with
   * its dots turned into '-', the timestamp, and the original extension:
   * `<name>-<version>-<timestamp>.<ext>`.
   */
  function StorageFileName(name: string, version: string, timestamp: int, originalName: string): (path: string)
    ensures StartsWith(path, DashWhitespace(name) + "-" + ReplaceChar(version, '.', '-') + "-" + IntToString(timestamp) + ".")
    ensures EndsWith(path, "." + Extension(originalName))
    ensures |path| == |DashWhitespace(name)| + |version| + |IntToString(timestamp)| + 3 + |Extension(originalName)|
  {
    var stem := DashWhitespace(name) + "-" + ReplaceChar(version, '.', '-') + "-" + IntToString(timestamp);
    var ext := Extension(originalName);
    ThreeParts(stem, ".", ext);
    stem + "." + ext
  }

  /**
   * The parts of the object name have the promised forms: the name part has no white
   * space and is empty only for an empty name, the version part is the version with
   * each dot turned into '-', and the timestamp part has no dot and reads back as the
   * timestamp.
   */
  lemma StorageFileNameParts(name: string, version: string, timestamp: int, originalName: string)
    ensures forall c :: c in DashWhitespace(name) ==> !IsWhitespace(c)
    ensures DashWhitespace(name) == [] <==> name == []
    ensures '.' !in ReplaceChar(version, '.', '-')
    ensures |ReplaceChar(version, '.', '-')| == |version|
    ensures forall i :: 0 <= i < |version| && version[i] != '.' ==> ReplaceChar(version, '.', '-')[i] == version[i]
    ensures '.' !in IntToString(timestamp)
    ensures ParseInt(IntToString(timestamp)) == timestamp
  {
    ParseIntToString(timestamp);
    var v := ReplaceChar(version, '.', '-');
    assert forall i :: 0 <= i < |v| ==> v[i] != '.';
    var t := IntToString(timestamp);
    assert forall i :: 0 <= i < |t| ==> t[i] != '.';
  }

  /** The object keeps the file's extension: reading the extension back gives the original one. */
  lemma StorageFileNameExtension(name: string, version: string, timestamp: int, originalName: string)
    ensures Extension(StorageFileName(name, version, timestamp, originalName)) == Extension(originalName)
  {
    var prefix := DashWhitespace(name) + "-" + ReplaceChar(version, '.', '-') + "-" + IntToString(timestamp);
    var ext := Extension(originalName);
    assert StorageFileName(name, version, timestamp, originalName) == prefix + ['.'] + ext;
    SplitConcat(prefix, ext, '.');
    SplitWithoutSeparator(ext, '.');
  }

  /** A file name without a dot is taken whole as the extension. */
  lemma ExtensionWithoutDot()
    ensures Extension("firmware") == "firmware"
    ensures Extension("fw.v2.hex") == "hex"
  {
    assert '.' !in "firmware";
    assert "fw.v2.hex" == "fw" + ['.'] + ("v2" + ['.'] + "hex");
    SplitConcat("fw", "v2" + ['.'] + "hex", '.');
    SplitConcat("v2", "hex", '.');
    SplitWithoutSeparator("fw", '.');
    SplitWithoutSeparator("v2", '.');
    SplitWithoutSeparator("hex", '.');
  }

  // ---------------------------------------------------------------------------
  // The new record

  /** `formData.description || null`. */
  function DescriptionOrNull(description: string): (r: Option<string>)
    ensures r.None? <==> description == ""
    ensures r.Some? ==> r.value == description
  {
    if description == "" then None else Some(description)
  }

  /** The columns an upload inserts; the columns a path does not set are `None`. */
  datatype NewFirmware = NewFirmware(
    name: string,
    version: string,
    description: Option<string>,
    size: nat,
    status: Status,
    tags: seq<string>,
    date_uploaded: Option<Date>,
    burn_count: Option<int>,
    file_url: Option<string>,
    content: Option<string>)

  /** The columns every path sets, from the form and the file. */
  function FormColumns(form: FormData, file: FileInfo): (r: NewFirmware)
    ensures r.name == form.name && r.version == form.version && r.status == form.status && r.tags == form.tags
    ensures r.description == DescriptionOrNull(form.description) && r.size == file.size
  {
    NewFirmware(form.name, form.version, DescriptionOrNull(form.description), file.size, form.status, form.tags,
      None, None, None, None)
  }

  /** The record of the storage paths: upload time, no burns yet, and the public URL of the object. */
  function StoredFileRecord(form: FormData, file: FileInfo, publicUrl: string, now: Date): (r: NewFirmware)
    ensures r.burn_count == Some(0) && r.size == file.size
    ensures r.description.None? <==> form.description == ""
    ensures r.file_url == Some(publicUrl) && r.date_uploaded == Some(now) && r.content.None?
    ensures r.(date_uploaded := None, burn_count := None, file_url := None) == FormColumns(form, file)
  {
    FormColumns(form, file).(date_uploaded := Some(now), burn_count := Some(0), file_url := Some(publicUrl))
  }

  /** The record of the upload page: the file's text as content, and nothing else besides the form. */
  function TextContentRecord(form: FormData, file: FileInfo, text: string): (r: NewFirmware)
    ensures r.description.None? <==> form.description == ""
    ensures r.size == file.size && r.content == Some(text)
    ensures r.burn_count.None? && r.date_uploaded.None? && r.file_url.None?
    ensures r.(content := None) == FormColumns(form, file)
  {
    FormColumns(form, file).(content := Some(text))
  }

  /** The record of `useFirmwareUpload`: the base64 content, upload time and no burns yet. */
  function EncodedContentRecord(form: FormData, file: FileInfo, encoded: string, now: Date): (r: NewFirmware)
    ensures r.burn_count == Some(0) && r.size == file.size
    ensures r.description.None? <==> form.description == ""
    ensures r.content == Some(encoded) && r.date_uploaded == Some(now) && r.file_url.None?
    ensures r.(content := None, date_uploaded := None, burn_count := None) == FormColumns(form, file)
  {
    FormColumns(form, file).(content := Some(encoded), date_uploaded := Some(now), burn_count := Some(0))
  }

  // ---------------------------------------------------------------------------
  // The storage-backed upload

  const FirmwareBucket := "firmwares"

  /** The service calls of an upload, in order. */
  datatype ServiceCall =
    | ListBuckets
    | CreateBucket(bucket: string)
    | UploadObject(bucket: string, path: string)
    | GetPublicUrl(bucket: string, path: string)
    | GetSession
    | SignInAnonymously
    | InsertFirmware(record: NewFirmware)
    | RemoveObjects(bucket: string, paths: seq<string>)

  /** The answer of `insert(...).select()`: an error, or the rows returned (possibly none). */
  datatype InsertAnswer = InsertFailed(message: string) | InsertReturned(rows: Option<nat>)

  /**
   * What the services answer: the bucket names listed, an upload error, the public URL,
   * whether a session exists, and the insert's answer.
   */
  datatype StorageAnswers = StorageAnswers(
    buckets: Option<seq<string>>,
    uploadError: Option<string>,
    publicUrl: string,
    hasSession: bool,
    insert: InsertAnswer)

  datatype Result = Succeeded | FailedWith(message: string)

  /** The calls made and how the run ended. */
  datatype Run = Run(calls: seq<ServiceCall>, result: Result)

  /** The two storage-backed paths: the form component, and the hook that also checks the bucket and the session. */
  datatype StoragePath = FormPath | HookPath

  predicate BucketListed(buckets: Option<seq<string>>) {
    buckets.Some? && FirmwareBucket in buckets.value
  }

  /** The calls that precede the upload: on the hook path, the bucket list and, if needed, its creation. */
  function BucketSetup(path: StoragePath, buckets: Option<seq<string>>): seq<ServiceCall> {
    match path
    case FormPath => []
    case HookPath => [ListBuckets] + (if BucketListed(buckets) then [] else [CreateBucket(FirmwareBucket)])
  }

  /** The calls between the upload and the insert: the public URL and, on the hook path, the session. */
  function SessionSetup(path: StoragePath, objectPath: string, hasSession: bool): seq<ServiceCall> {
    [GetPublicUrl(FirmwareBucket, objectPath)]
      + (match path
         case FormPath => []
         case HookPath => [GetSession] + (if hasSession then [] else [SignInAnonymously]))
  }

  /** The calls of a storage-backed upload up to and including the insert. */
  function CallsThroughInsert(path: StoragePath, objectPath: string, record: NewFirmware, answers: StorageAnswers): seq<ServiceCall> {
    BucketSetup(path, answers.buckets) + [UploadObject(FirmwareBucket, objectPath)]
      + SessionSetup(path, objectPath, answers.hasSession) + [InsertFirmware(record)]
  }

  /**
   * The run once the object path and the record are fixed: a failed upload stops at the
   * upload; otherwise the record is inserted, an insert error is followed by an attempt
   * to remove the object, and an insert that returns no row also fails.
   */
  function StorageRun(path: StoragePath, objectPath: string, record: NewFirmware, answers: StorageAnswers): (run: Run)
    ensures answers.uploadError.Some? ==>
      run == Run(BucketSetup(path, answers.buckets) + [UploadObject(FirmwareBucket, objectPath)],
                 FailedWith("Storage error: " + answers.uploadError.value))
    ensures answers.uploadError.None? && answers.insert.InsertFailed? ==>
      run == Run(CallsThroughInsert(path, objectPath, record, answers) + [RemoveObjects(FirmwareBucket, [objectPath])],
                 FailedWith("Database error: " + answers.insert.message))
    ensures answers.uploadError.None? && answers.insert.InsertReturned? ==>
      run.calls == CallsThroughInsert(path, objectPath, record, answers)
    ensures run.result == Succeeded <==>
      answers.uploadError.None? && answers.insert.InsertReturned? && answers.insert.rows.Some? && answers.insert.rows.value > 0
    ensures answers.uploadError.None? && answers.insert.InsertReturned? && run.result != Succeeded ==>
      run.result == FailedWith("Failed to create firmware record")
  {
    if answers.uploadError.Some? then
      Run(BucketSetup(path, answers.buckets) + [UploadObject(FirmwareBucket, objectPath)],
          FailedWith("Storage error: " + answers.uploadError.value))
    else
      var calls := CallsThroughInsert(path, objectPath, record, answers);
      match answers.insert
      case InsertFailed(message) =>
        Run(calls + [RemoveObjects(FirmwareBucket, [objectPath])], FailedWith("Database error: " + message))
      case InsertReturned(rows) =>
        if rows.Some? && rows.value > 0 then Run(calls, Succeeded)
        else Run(calls, FailedWith("Failed to create firmware record"))
  }

  /** The bucket is created exactly on the hook path when the listing does not show it. */
  lemma StorageRunCreatesBucket(path: StoragePath, objectPath: string, record: NewFirmware, answers: StorageAnswers)
    ensures CreateBucket(FirmwareBucket) in StorageRun(path, objectPath, record, answers).calls
      <==> path == HookPath && !BucketListed(answers.buckets)
  {
    StorageRunAfterSetup(path, objectPath, record, answers);
    NoBucketAfterSetup(path, objectPath, record, answers);
    assert CreateBucket(FirmwareBucket) in BucketSetup(path, answers.buckets)
      <==> path == HookPath && !BucketListed(answers.buckets);
  }

  /** The calls of a run that follow the bucket setup. */
  function CallsAfterSetup(path: StoragePath, objectPath: string, record: NewFirmware, answers: StorageAnswers): seq<ServiceCall> {
    if answers.uploadError.Some? then [UploadObject(FirmwareBucket, objectPath)]
    else
      [UploadObject(FirmwareBucket, objectPath)] + SessionSetup(path, objectPath, answers.hasSession) + [InsertFirmware(record)]
        + (if answers.insert.InsertFailed? then [RemoveObjects(FirmwareBucket, [objectPath])] else [])
  }

  lemma StorageRunAfterSetup(path: StoragePath, objectPath: string, record: NewFirmware, answers: StorageAnswers)
    ensures StorageRun(path, objectPath, record, answers).calls
      == BucketSetup(path, answers.buckets) + CallsAfterSetup(path, objectPath, record, answers)
  {
  }

  lemma NoBucketAfterSetup(path: StoragePath, objectPath: string, record: NewFirmware, answers: StorageAnswers)
    ensures CreateBucket(FirmwareBucket) !in CallsAfterSetup(path, objectPath, record, answers)
  {
    assert CreateBucket(FirmwareBucket) !in SessionSetup(path, objectPath, answers.hasSession);
  }

  /** An object is removed only after a failed insert, and it is then the object just uploaded. */
  lemma StorageRunRemoval(path: StoragePath, objectPath: string, record: NewFirmware, answers: StorageAnswers, i: nat)
    requires i < |StorageRun(path, objectPath, record, answers).calls|
    requires StorageRun(path, objectPath, record, answers).calls[i].RemoveObjects?
    ensures answers.uploadError.None? && answers.insert.InsertFailed?
    ensures StorageRun(path, objectPath, record, answers).calls[i] == RemoveObjects(FirmwareBucket, [objectPath])
    ensures i == |StorageRun(path, objectPath, record, answers).calls| - 1
  {
    var calls := CallsThroughInsert(path, objectPath, record, answers);
    assert forall k :: 0 <= k < |calls| ==> !calls[k].RemoveObjects?;
  }

  /** A started upload on a storage-backed path, with the object name and the record it derives. */
  function StorageUpload(path: StoragePath, form: FormData, file: FileInfo, now: Date, timestamp: int,
                         answers: StorageAnswers): Run
  {
    StorageRun(path, StorageFileName(form.name, form.version, timestamp, file.name),
               StoredFileRecord(form, file, answers.publicUrl, now), answers)
  }

  /**
   * A started upload stores the object in `firmwares` under its storage file name and,
   * once stored, inserts a record that carries the object's public URL.
   */
  lemma StorageUploadCalls(path: StoragePath, form: FormData, file: FileInfo, now: Date, timestamp: int,
                           answers: StorageAnswers)
    ensures var run := StorageUpload(path, form, file, now, timestamp, answers);
      && UploadObject(FirmwareBucket, StorageFileName(form.name, form.version, timestamp, file.name)) in run.calls
      && (answers.uploadError.None? ==> InsertFirmware(StoredFileRecord(form, file, answers.publicUrl, now)) in run.calls)
  {
    var objectPath := StorageFileName(form.name, form.version, timestamp, file.name);
    var record := StoredFileRecord(form, file, answers.publicUrl, now);
    var run := StorageRun(path, objectPath, record, answers);
    assert run.calls[|BucketSetup(path, answers.buckets)|] == UploadObject(FirmwareBucket, objectPath);
    var calls := CallsThroughInsert(path, objectPath, record, answers);
    assert answers.uploadError.None? ==> run.calls[|calls| - 1] == calls[|calls| - 1];
  }

  /** The toast that ends a started upload. */
  function OutcomeToast(form: FormData, result: Result): Toast {
    match result
    case Succeeded => InfoToast("Firmware uploaded successfully", form.name + " v" + form.version + " has been added to the repository")
    case FailedWith(message) =>
      ErrorToast("Upload failed", if message != "" then message else "There was an error uploading the firmware. Please try again.")
  }

  /** The toast of a failed upload on the paths that show a fixed message. */
  const GenericFailureToast := ErrorToast("Upload failed", "There was an error uploading the firmware. Please try again.")
}
