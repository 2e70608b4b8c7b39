/**
 * The `UploadForm` component together with its `FileSelector`: the chosen file, the
 * password and whether it is valid, the form fields, the tag input, and the
 * `uploading` flag around a storage-backed upload. The toasts raised, the service
 * calls made and the pages navigated to are kept as logs.
 */
module UploadForm {
  import opened Common
  import opened Catalog
  import opened Notices
  import opened Tags
  import opened UploadRules
  import opened FileSelection

  class UploadFormView {
    var uploading: bool
    var selectedFile: Option<FileInfo>
    var password: string
    var isPasswordValid: bool
    var formData: FormData
    var currentTag: string
    /** The value of the file input element. */
    var fileInputValue: string
    var toasts: seq<Toast>
    var calls: seq<ServiceCall>
    var navigations: seq<string>

    /** `isPasswordValid` always says whether the password typed is the upload password. */
    predicate Valid()
      reads this
    {
      isPasswordValid == PasswordValid(password)
    }

    constructor ()
      ensures Valid()
      ensures !uploading && selectedFile.None? && password == "" && formData == EmptyForm && currentTag == ""
      ensures fileInputValue == "" && toasts == [] && calls == [] && navigations == []
    {
      uploading := false;
      selectedFile := None;
      password := "";
      isPasswordValid := false;
      formData := EmptyForm;
      currentTag := "";
      fileInputValue := "";
      toasts := [];
      calls := [];
      navigations := [];
    }

    /** The submit button is disabled while uploading or while the password is not the upload password. */
    function SubmitDisabled(): (disabled: bool)
      reads this
      requires Valid()
      ensures disabled <==> uploading || password != UploadPassword
    {
      uploading || !isPasswordValid
    }

    /** `FileSelector`'s `handleFileChange`, after the browser has put `value` into the input. */
    method HandleFileChange(chosen: Option<FileInfo>, value: string)
      requires Valid()
      modifies this
      ensures Valid()
      ensures match DecideFileChange(chosen, SelectorExtensions)
        case NoFileChosen => selectedFile == old(selectedFile) && toasts == old(toasts) && fileInputValue == value
        case Accepted(file) => selectedFile == Some(file) && toasts == old(toasts) && fileInputValue == value
        case Rejected => selectedFile == old(selectedFile) && toasts == old(toasts) + [SelectorRejectToast] && fileInputValue == ""
      ensures uploading == old(uploading) && password == old(password) && formData == old(formData)
      ensures currentTag == old(currentTag) && calls == old(calls) && navigations == old(navigations)
    {
      fileInputValue := value;
      match DecideFileChange(chosen, SelectorExtensions)
      case NoFileChosen =>
      case Accepted(file) =>
        selectedFile := Some(file);
      case Rejected =>
        toasts := toasts + [SelectorRejectToast];
        fileInputValue := "";
    }

    /** `validatePassword`: the input is kept, and it is valid exactly when it is the upload password. */
    method ValidatePassword(input: string)
      modifies this
      ensures Valid()
      ensures password == input && isPasswordValid == (input == UploadPassword)
      ensures uploading == old(uploading) && selectedFile == old(selectedFile) && formData == old(formData)
      ensures currentTag == old(currentTag) && fileInputValue == old(fileInputValue)
      ensures toasts == old(toasts) && calls == old(calls) && navigations == old(navigations)
    {
      password := input;
      isPasswordValid := input == UploadPassword;
    }

    /** The inputs for name, version, status and description each replace one field. */
    method EditDetails(name: string, version: string, description: string, status: Status)
      requires Valid()
      modifies this
      ensures Valid()
      ensures formData == old(formData).(name := name, version := version, description := description, status := status)
      ensures uploading == old(uploading) && selectedFile == old(selectedFile) && password == old(password)
      ensures currentTag == old(currentTag) && fileInputValue == old(fileInputValue)
      ensures toasts == old(toasts) && calls == old(calls) && navigations == old(navigations)
    {
      formData := formData.(name := name, version := version, description := description, status := status);
    }

    method SetCurrentTag(input: string)
      requires Valid()
      modifies this
      ensures Valid()
      ensures currentTag == input
      ensures uploading == old(uploading) && selectedFile == old(selectedFile) && password == old(password)
      ensures formData == old(formData) && fileInputValue == old(fileInputValue)
      ensures toasts == old(toasts) && calls == old(calls) && navigations == old(navigations)
    {
      currentTag := input;
    }

    /** `addTag`: the trimmed input is appended and the input cleared, or nothing changes. */
    method AddTag()
      requires Valid()
      modifies this
      ensures Valid()
      ensures old(TagsAfterAdd(formData.tags, currentTag)).Some? ==>
        formData == old(formData).(tags := old(TagsAfterAdd(formData.tags, currentTag)).value) && currentTag == ""
      ensures old(TagsAfterAdd(formData.tags, currentTag)).None? ==>
        formData == old(formData) && currentTag == old(currentTag)
      ensures uploading == old(uploading) && selectedFile == old(selectedFile) && password == old(password)
      ensures fileInputValue == old(fileInputValue)
      ensures toasts == old(toasts) && calls == old(calls) && navigations == old(navigations)
    {
      var added := TagsAfterAdd(formData.tags, currentTag);
      if added.Some? {
        formData := formData.(tags := added.value);
        currentTag := "";
      }
    }

    /** `removeTag(tag)`: every occurrence of the tag leaves the form. */
    method RemoveTag(tag: string)
      requires Valid()
      modifies this
      ensures Valid()
      ensures formData == old(formData).(tags := TagsAfterRemove(old(formData.tags), tag))
      ensures uploading == old(uploading) && selectedFile == old(selectedFile) && password == old(password)
      ensures currentTag == old(currentTag) && fileInputValue == old(fileInputValue)
      ensures toasts == old(toasts) && calls == old(calls) && navigations == old(navigations)
    {
      formData := formData.(tags := TagsAfterRemove(formData.tags, tag));
    }

    /**
     * `handleSubmit`, with the clock (`now`, and `timestamp` as `Date.now()`) and the
     * services' answers as parameters. A rejected submission only raises its toast; a
     * started one makes the calls of the storage-backed upload, raises the outcome's
     * toast, goes to "/versions" on success, and ends with `uploading` false.
     */
    method HandleSubmit(now: Date, timestamp: int, answers: StorageAnswers)
      requires Valid()
      modifies this
      ensures Valid()
      ensures var rejection := Check(old(selectedFile), old(formData), Some(old(isPasswordValid)));
        rejection.Some? ==>
          && toasts == old(toasts) + [RejectionToast(rejection.value)]
          && uploading == old(uploading) && calls == old(calls) && navigations == old(navigations)
      ensures old(Check(selectedFile, formData, Some(isPasswordValid))).None? ==>
        var run := StorageUpload(FormPath, old(formData), old(selectedFile).value, now, timestamp, answers);
        && !uploading
        && calls == old(calls) + run.calls
        && toasts == old(toasts) + [OutcomeToast(old(formData), run.result)]
        && navigations == old(navigations) + (if run.result == Succeeded then ["/versions"] else [])
      ensures selectedFile == old(selectedFile) && password == old(password) && formData == old(formData)
      ensures currentTag == old(currentTag) && fileInputValue == old(fileInputValue)
    {
      var rejection := Check(selectedFile, formData, Some(isPasswordValid));
      if rejection.Some? {
        toasts := toasts + [RejectionToast(rejection.value)];
        return;
      }
      Upload(formData, StorageUpload(FormPath, formData, selectedFile.value, now, timestamp, answers));
    }

    /** What follows the checks in `handleSubmit`: the storage-backed upload with `form` that makes `run`. */
    method Upload(form: FormData, run: Run)
      modifies this
      ensures !uploading
      ensures calls == old(calls) + run.calls
      ensures toasts == old(toasts) + [OutcomeToast(form, run.result)]
      ensures navigations == old(navigations) + (if run.result == Succeeded then ["/versions"] else [])
      ensures selectedFile == old(selectedFile) && password == old(password) && isPasswordValid == old(isPasswordValid)
      ensures formData == old(formData) && currentTag == old(currentTag) && fileInputValue == old(fileInputValue)
    {
      uploading := true;
      calls := calls + run.calls;
      toasts := toasts + [OutcomeToast(form, run.result)];
      if run.result == Succeeded {
        navigations := navigations + ["/versions"];
      }
      uploading := false;
    }
  }

  /** With a file, a name and a version, the form only refuses the submission over the password. */
  lemma OnlyPasswordLeft(file: FileInfo, form: FormData, password: string)
    requires form.name != "" && form.version != ""
    ensures Check(Some(file), form, Some(PasswordValid(password))) == Some(InvalidPassword) <==> password != UploadPassword
  {
  }
}
