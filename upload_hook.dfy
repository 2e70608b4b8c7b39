/**
 * The `useUploadFirmware` hook: the same checks as the upload form, with the password
 * validity passed in, and the storage-backed upload that also makes sure the
 * `firmwares` bucket exists and that a session exists before the insert.
 */
module UploadHook {
  import opened Common
  import opened Catalog
  import opened Notices
  import opened UploadRules

  class UploadFirmwareHook {
    var uploading: bool
    var toasts: seq<Toast>
    var calls: seq<ServiceCall>
    var navigations: seq<string>

    constructor ()
      ensures !uploading && toasts == [] && calls == [] && navigations == []
    {
      uploading := false;
      toasts := [];
      calls := [];
      navigations := [];
    }

    /**
     * `uploadFirmware`, with the clock and the services' answers as parameters. Each
     * failed check returns before `uploading` is set; a started upload ends with
     * `uploading` false whatever its outcome.
     */
    method UploadFirmware(selectedFile: Option<FileInfo>, formData: FormData, isPasswordValid: bool,
                          now: Date, timestamp: int, answers: StorageAnswers)
      modifies this
      ensures var rejection := Check(selectedFile, formData, Some(isPasswordValid));
        rejection.Some? ==>
          && toasts == old(toasts) + [RejectionToast(rejection.value)]
          && uploading == old(uploading) && calls == old(calls) && navigations == old(navigations)
      ensures Check(selectedFile, formData, Some(isPasswordValid)).None? ==>
        var run := StorageUpload(HookPath, formData, selectedFile.value, now, timestamp, answers);
        && !uploading
        && calls == old(calls) + run.calls
        && toasts == old(toasts) + [OutcomeToast(formData, run.result)]
        && navigations == old(navigations) + (if run.result == Succeeded then ["/versions"] else [])
    {
      var rejection := Check(selectedFile, formData, Some(isPasswordValid));
      if rejection.Some? {
        toasts := toasts + [RejectionToast(rejection.value)];
        return;
      }
      uploading := true;
      var run := StorageUpload(HookPath, formData, selectedFile.value, now, timestamp, answers);
      calls := calls + run.calls;
      toasts := toasts + [OutcomeToast(formData, run.result)];
      if run.result == Succeeded {
        navigations := navigations + ["/versions"];
      }
      uploading := false;
    }
  }

  /** On the hook's path the `firmwares` bucket is created only when the listing does not show it. */
  lemma HookCreatesMissingBucket(form: FormData, file: FileInfo, now: Date, timestamp: int, answers: StorageAnswers)
    ensures CreateBucket(FirmwareBucket) in StorageUpload(HookPath, form, file, now, timestamp, answers).calls
      <==> !BucketListed(answers.buckets)
  {
    var objectPath := StorageFileName(form.name, form.version, timestamp, file.name);
    StorageRunCreatesBucket(HookPath, objectPath, StoredFileRecord(form, file, answers.publicUrl, now), answers);
  }

  /** A missing session is replaced by an anonymous one before the insert. */
  lemma HookSignsInWithoutSession(form: FormData, file: FileInfo, now: Date, timestamp: int, answers: StorageAnswers)
    requires answers.uploadError.None? && !answers.hasSession
    ensures var calls := StorageUpload(HookPath, form, file, now, timestamp, answers).calls;
      exists i, j :: 0 <= i < j < |calls| && calls[i] == SignInAnonymously && calls[j].InsertFirmware?
  {
    var objectPath := StorageFileName(form.name, form.version, timestamp, file.name);
    SignInBeforeInsert(objectPath, StoredFileRecord(form, file, answers.publicUrl, now), answers);
  }

  /** The hook's run without a session: the anonymous sign-in comes right before the insert. */
  lemma SignInBeforeInsert(objectPath: string, record: NewFirmware, answers: StorageAnswers)
    requires answers.uploadError.None? && !answers.hasSession
    ensures var calls := StorageRun(HookPath, objectPath, record, answers).calls;
      exists i, j :: 0 <= i < j < |calls| && calls[i] == SignInAnonymously && calls[j].InsertFirmware?
  {
    var setup := BucketSetup(HookPath, answers.buckets);
    var k := |setup|;
    var upTo := CallsThroughInsert(HookPath, objectPath, record, answers);
    assert upTo == setup + [UploadObject(FirmwareBucket, objectPath), GetPublicUrl(FirmwareBucket, objectPath),
                            GetSession, SignInAnonymously, InsertFirmware(record)];
    var calls := StorageRun(HookPath, objectPath, record, answers).calls;
    assert calls[..|upTo|] == upTo;
    assert calls[k + 3] == upTo[k + 3] == SignInAnonymously;
    assert calls[k + 4] == upTo[k + 4] == InsertFirmware(record);
  }
}
