/**
 * The `useFirmwareUpload` hook: it keeps the chosen file, accepts the selector's four
 * extensions, and uploads by storing the file's base64 encoding in the record itself.
 * It asks for no password.
 */
module FirmwareUploadHook {
  import opened Common
  import opened Catalog
  import opened Notices
  import opened UploadRules
  import opened FileSelection

  class FirmwareUpload {
    var uploading: bool
    var selectedFile: Option<FileInfo>
    /** The value of the file input element. */
    var fileInputValue: string
    var toasts: seq<Toast>
    var inserts: seq<NewFirmware>
    var navigations: seq<string>

    constructor ()
      ensures !uploading && selectedFile.None? && fileInputValue == ""
      ensures toasts == [] && inserts == [] && navigations == []
    {
      uploading := false;
      selectedFile := None;
      fileInputValue := "";
      toasts := [];
      inserts := [];
      navigations := [];
    }

    /** `handleFileChange`, after the browser has put `value` into the input. */
    method HandleFileChange(chosen: Option<FileInfo>, value: string)
      modifies this
      ensures match DecideFileChange(chosen, SelectorExtensions)
        case NoFileChosen => selectedFile == old(selectedFile) && toasts == old(toasts) && fileInputValue == value
        case Accepted(file) => selectedFile == Some(file) && toasts == old(toasts) && fileInputValue == value
        case Rejected => selectedFile == old(selectedFile) && toasts == old(toasts) + [SelectorRejectToast] && fileInputValue == ""
      ensures uploading == old(uploading) && inserts == old(inserts) && navigations == old(navigations)
    {
      fileInputValue := value;
      match DecideFileChange(chosen, SelectorExtensions)
      case NoFileChosen =>
      case Accepted(file) =>
        selectedFile := Some(file);
      case Rejected =>
        toasts := toasts + [SelectorRejectToast];
        fileInputValue := "";
    }

    /**
     * `uploadFirmware(formData)`, with the base64 text of the file (`None` when reading
     * the file fails), the clock and whether the insert reports an error as parameters.
     * A started upload inserts the record when the file could be read, raises the
     * success toast and goes to "/versions" only when the insert succeeds, and ends
     * with `uploading` false. The chosen file is kept.
     */
    method UploadFirmware(formData: FormData, encoded: Option<string>, now: Date, insertFails: bool)
      modifies this
      ensures var rejection := Check(old(selectedFile), formData, None);
        rejection.Some? ==>
          && toasts == old(toasts) + [RejectionToast(rejection.value)]
          && uploading == old(uploading) && inserts == old(inserts) && navigations == old(navigations)
      ensures old(Check(selectedFile, formData, None)).None? ==>
        && !uploading
        && inserts == old(inserts) + (if encoded.Some? then [EncodedContentRecord(formData, old(selectedFile).value, encoded.value, now)] else [])
        && var succeeded := encoded.Some? && !insertFails;
          && toasts == old(toasts) + [if succeeded then OutcomeToast(formData, Succeeded) else GenericFailureToast]
          && navigations == old(navigations) + (if succeeded then ["/versions"] else [])
      ensures selectedFile == old(selectedFile) && fileInputValue == old(fileInputValue)
    {
      var rejection := Check(selectedFile, formData, None);
      if rejection.Some? {
        toasts := toasts + [RejectionToast(rejection.value)];
        return;
      }
      uploading := true;
      var succeeded := false;
      if encoded.Some? {
        inserts := inserts + [EncodedContentRecord(formData, selectedFile.value, encoded.value, now)];
        succeeded := !insertFails;
      }
      if succeeded {
        toasts := toasts + [OutcomeToast(formData, Succeeded)];
        navigations := navigations + ["/versions"];
      } else {
        toasts := toasts + [GenericFailureToast];
      }
      uploading := false;
    }
  }
}
