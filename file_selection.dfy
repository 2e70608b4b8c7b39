/**
 * Choosing the firmware file: the file is kept when its lower-cased name ends with
 * one of the accepted extensions, and otherwise a toast is raised and the file input
 * is cleared. The upload page accepts fewer extensions than the file selector and
 * the `useFirmwareUpload` hook.
 */
module FileSelection {
  import opened Common
  import opened Text
  import opened Notices
  import opened UploadRules

  /** The extensions of the file selector and of `useFirmwareUpload`. */
  const SelectorExtensions := [".hex", ".exe", ".elf", ".bin"]

  /** The extensions of the upload page. */
  const UploadPageExtensions := [".hex", ".exe", ".elf"]

  /** `validExtensions.some(ext => name.toLowerCase().endsWith(ext))`. */
  predicate HasValidExtension(name: string, extensions: seq<string>) {
    exists i | 0 <= i < |extensions| :: EndsWith(ToLower(name), extensions[i])
  }

  /** What a change of the file input leads to. */
  datatype FileChange = NoFileChosen | Accepted(file: FileInfo) | Rejected

  /** `handleFileChange`: no file changes nothing; a file with an accepted extension is taken; any other is refused. */
  function DecideFileChange(chosen: Option<FileInfo>, extensions: seq<string>): (d: FileChange)
    ensures d == NoFileChosen <==> chosen.None?
    ensures d.Accepted? <==> chosen.Some? && HasValidExtension(chosen.value.name, extensions)
    ensures d.Accepted? ==> d.file == chosen.value
    ensures d == Rejected <==> chosen.Some? && !HasValidExtension(chosen.value.name, extensions)
  {
    match chosen
    case None => NoFileChosen
    case Some(file) => if HasValidExtension(file.name, extensions) then Accepted(file) else Rejected
  }

  /** The toasts of a refused file, listing the extensions accepted. */
  const SelectorRejectToast := ErrorToast("Invalid file type", "Please select a valid firmware file (.hex, .exe, .elf, or .bin)")
  const UploadPageRejectToast := ErrorToast("Invalid file type", "Please select a valid firmware file (.hex, .exe, or .elf)")

  /** Acceptance ignores ASCII case: a name is accepted exactly when its lower-cased form is. */
  lemma ExtensionIgnoresCase(name: string, extensions: seq<string>)
    ensures HasValidExtension(name, extensions) <==> HasValidExtension(ToLower(name), extensions)
  {
    ToLowerIdempotent(name);
  }

  /** "FW.HEX" is accepted everywhere. */
  lemma UpperCaseHexAccepted()
    ensures HasValidExtension("FW.HEX", SelectorExtensions)
    ensures HasValidExtension("FW.HEX", UploadPageExtensions)
  {
    assert ToLower("FW.HEX") == "fw.hex";
    assert EndsWith("fw.hex", SelectorExtensions[0]);
  }

  /** A ".bin" file is accepted by the selector and refused by the upload page. */
  lemma BinOnlyInSelector()
    ensures HasValidExtension("fw.bin", SelectorExtensions)
    ensures !HasValidExtension("fw.bin", UploadPageExtensions)
  {
    assert ToLower("fw.bin") == "fw.bin";
    assert EndsWith("fw.bin", SelectorExtensions[3]);
    assert !EndsWith("fw.bin", ".hex") && !EndsWith("fw.bin", ".exe") && !EndsWith("fw.bin", ".elf");
  }

  /** Whatever the upload page accepts, the selector accepts too. */
  lemma UploadPageNarrower(name: string)
    ensures HasValidExtension(name, UploadPageExtensions) ==> HasValidExtension(name, SelectorExtensions)
  {
    if HasValidExtension(name, UploadPageExtensions) {
      var i :| 0 <= i < 3 && EndsWith(ToLower(name), UploadPageExtensions[i]);
      assert SelectorExtensions[i] == UploadPageExtensions[i];
    }
  }
}
