/**
 * The upload page: its own file input (which accepts no ".bin"), the form with its
 * tag input, and a submission that stores the file's text in the record itself and
 * resets the form afterwards, whatever the outcome.
 */
module UploadPage {
  import opened Common
  import opened Catalog
  import opened Notices
  import opened Tags
  import opened UploadRules
  import opened FileSelection

  class UploadPageView {
    var uploading: bool
    var selectedFile: Option<FileInfo>
    var formData: FormData
    var currentTag: string
    var fileInputValue: string
    var toasts: seq<Toast>
    var inserts: seq<NewFirmware>
    var navigations: seq<string>

    constructor ()
      ensures !uploading && selectedFile.None? && formData == EmptyForm && currentTag == ""
      ensures fileInputValue == "" && toasts == [] && inserts == [] && navigations == []
    {
      uploading := false;
      selectedFile := None;
      formData := EmptyForm;
      currentTag := "";
      fileInputValue := "";
      toasts := [];
      inserts := [];
      navigations := [];
    }

    /** `handleFileChange` with the page's three extensions, after the browser has put `value` into the input. */
    method HandleFileChange(chosen: Option<FileInfo>, value: string)
      modifies this
      ensures match DecideFileChange(chosen, UploadPageExtensions)
        case NoFileChosen => selectedFile == old(selectedFile) && toasts == old(toasts) && fileInputValue == value
        case Accepted(file) => selectedFile == Some(file) && toasts == old(toasts) && fileInputValue == value
        case Rejected => selectedFile == old(selectedFile) && toasts == old(toasts) + [UploadPageRejectToast] && fileInputValue == ""
      ensures uploading == old(uploading) && formData == old(formData) && currentTag == old(currentTag)
      ensures inserts == old(inserts) && navigations == old(navigations)
    {
      fileInputValue := value;
      match DecideFileChange(chosen, UploadPageExtensions)
      case NoFileChosen =>
      case Accepted(file) =>
        selectedFile := Some(file);
      case Rejected =>
        toasts := toasts + [UploadPageRejectToast];
        fileInputValue := "";
    }

    /** The inputs for name, version, status and description each replace one field. */
    method EditDetails(name: string, version: string, description: string, status: Status)
      modifies this
      ensures formData == old(formData).(name := name, version := version, description := description, status := status)
      ensures uploading == old(uploading) && selectedFile == old(selectedFile) && currentTag == old(currentTag)
      ensures fileInputValue == old(fileInputValue) && toasts == old(toasts)
      ensures inserts == old(inserts) && navigations == old(navigations)
    {
      formData := formData.(name := name, version := version, description := description, status := status);
    }

    method SetCurrentTag(input: string)
      modifies this
      ensures currentTag == input
      ensures uploading == old(uploading) && selectedFile == old(selectedFile) && formData == old(formData)
      ensures fileInputValue == old(fileInputValue) && toasts == old(toasts)
      ensures inserts == old(inserts) && navigations == old(navigations)
    {
      currentTag := input;
    }

    /** `addTag`: the trimmed input is appended and the input cleared, or nothing changes. */
    method AddTag()
      modifies this
      ensures old(TagsAfterAdd(formData.tags, currentTag)).Some? ==>
        formData == old(formData).(tags := old(TagsAfterAdd(formData.tags, currentTag)).value) && currentTag == ""
      ensures old(TagsAfterAdd(formData.tags, currentTag)).None? ==>
        formData == old(formData) && currentTag == old(currentTag)
      ensures uploading == old(uploading) && selectedFile == old(selectedFile) && fileInputValue == old(fileInputValue)
      ensures toasts == old(toasts) && inserts == old(inserts) && navigations == old(navigations)
    {
      var added := TagsAfterAdd(formData.tags, currentTag);
      if added.Some? {
        formData := formData.(tags := added.value);
        currentTag := "";
      }
    }

    /** `removeTag(tag)`: every occurrence of the tag leaves the form. */
    method RemoveTag(tag: string)
      modifies this
      ensures formData == old(formData).(tags := TagsAfterRemove(old(formData.tags), tag))
      ensures uploading == old(uploading) && selectedFile == old(selectedFile) && currentTag == old(currentTag)
      ensures fileInputValue == old(fileInputValue) && toasts == old(toasts)
      ensures inserts == old(inserts) && navigations == old(navigations)
    {
      formData := formData.(tags := TagsAfterRemove(formData.tags, tag));
    }

    /**
     * `handleSubmit`, with the file's text (`None` when reading it fails) and whether the
     * insert reports an error as parameters. There is no password check. A started
     * submission ends, whatever its outcome, with `uploading` false, no file and the
     * form back to its initial values; the tag input is not reset.
     */
    method HandleSubmit(fileText: Option<string>, insertFails: bool)
      modifies this
      ensures var rejection := Check(old(selectedFile), old(formData), None);
        rejection.Some? ==>
          && toasts == old(toasts) + [RejectionToast(rejection.value)]
          && uploading == old(uploading) && selectedFile == old(selectedFile) && formData == old(formData)
          && inserts == old(inserts) && navigations == old(navigations)
      ensures old(Check(selectedFile, formData, None)).None? ==>
        && !uploading && selectedFile.None? && formData == EmptyForm
        && inserts == old(inserts) + (if fileText.Some? then [TextContentRecord(old(formData), old(selectedFile).value, fileText.value)] else [])
        && var succeeded := fileText.Some? && !insertFails;
          && toasts == old(toasts) + [if succeeded then OutcomeToast(old(formData), Succeeded) else GenericFailureToast]
          && navigations == old(navigations) + (if succeeded then ["/versions"] else [])
      ensures currentTag == old(currentTag) && fileInputValue == old(fileInputValue)
    {
      var rejection := Check(selectedFile, formData, None);
      if rejection.Some? {
        toasts := toasts + [RejectionToast(rejection.value)];
        return;
      }
      uploading := true;
      var succeeded := false;
      if fileText.Some? {
        inserts := inserts + [TextContentRecord(formData, selectedFile.value, fileText.value)];
        succeeded := !insertFails;
      }
      if succeeded {
        toasts := toasts + [OutcomeToast(formData, Succeeded)];
        navigations := navigations + ["/versions"];
      } else {
        toasts := toasts + [GenericFailureToast];
      }
      uploading := false;
      selectedFile := None;
      formData := EmptyForm;
    }
  }

  /** The page never refuses a submission over a password. */
  lemma NoPasswordCheck(file: Option<FileInfo>, form: FormData)
    ensures Check(file, form, None) != Some(InvalidPassword)
  {
  }
}
