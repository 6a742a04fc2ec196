/** The profile picture dialog: its four fields of state, the reset effect that
    runs while it is closed, file selection, and the save handler, which applies
    the same checks and path as the avatar hook. */
module AvatarDialog {
  import opened Wrappers
  import opened Avatar

  /** What a press of "Save Changes" did: stopped at the guard (an error toast,
      nothing else), or went on to the upload, whose trace it carries. */
  datatype SaveOutcome = Rejected | Attempted(trace: UploadTrace)

  class AvatarUploadDialog {
    /** The `open` and `currentAvatarUrl` props. */
    var open: bool
    var currentAvatarUrl: Option<string>
    /** The component's own state. */
    var selectedFile: Option<File>
    var previewUrl: Option<string>
    var fileName: string
    var isUploading: bool

    /** The state the dialog returns to whenever it is closed. */
    predicate IsReset()
      reads this
    {
      selectedFile == None && previewUrl == currentAvatarUrl && fileName == "" && !isUploading
    }

    /** The initial `useState` values. */
    constructor (open: bool, currentAvatarUrl: Option<string>)
      ensures this.open == open && this.currentAvatarUrl == currentAvatarUrl
      ensures IsReset()
    {
      this.open := open;
      this.currentAvatarUrl := currentAvatarUrl;
      selectedFile := None;
      previewUrl := currentAvatarUrl;
      fileName := "";
      isUploading := false;
    }

    /** New props from the parent, followed by the effect on `[open, currentAvatarUrl]`:
        while closed, the selection, preview, file name and upload flag are reset. */
    method ReceiveProps(newOpen: bool, newAvatarUrl: Option<string>)
      modifies this
      ensures open == newOpen && currentAvatarUrl == newAvatarUrl
      ensures !open ==> IsReset()
      ensures open ==> selectedFile == old(selectedFile) && previewUrl == old(previewUrl) &&
                       fileName == old(fileName) && isUploading == old(isUploading)
    {
      open, currentAvatarUrl := newOpen, newAvatarUrl;
      if !open {
        selectedFile := None;
        previewUrl := currentAvatarUrl;
        fileName := "";
        isUploading := false;
      }
    }

    /** `handleFileChange`: the first chosen file, if any, becomes the selection,
        its object URL the preview and its name the file name; an event without
        a file changes nothing. `objectUrl` stands for `URL.createObjectURL`. */
    method HandleFileChange(file: Option<File>, objectUrl: string)
      modifies this`selectedFile, this`previewUrl, this`fileName
      ensures file.Some? ==> selectedFile == file && previewUrl == Some(objectUrl) && fileName == file.value.name
      ensures file.None? ==> selectedFile == old(selectedFile) && previewUrl == old(previewUrl) &&
                             fileName == old(fileName)
    {
      if file.Some? {
        selectedFile := file;
        previewUrl := Some(objectUrl);
        fileName := file.value.name;
      }
    }

    /** "Save Changes" is disabled without a file or while an upload runs, so a
        dialog just reset cannot save, and an enabled button has a file to send. */
    function SaveDisabled(): (disabled: bool)
      reads this
      ensures IsReset() ==> disabled
      ensures !disabled ==> selectedFile.Some?
      ensures selectedFile.Some? && !isUploading ==> !disabled
      ensures isUploading ==> disabled
    {
      selectedFile.None? || isUploading
    }

    /** `handleSave`. Without a file or a user id it stops with an error toast
        and touches nothing. Otherwise it raises `isUploading`, runs the hook's
        checks and upload on the selected file, asks the parent to close on
        success alone, and lowers `isUploading` in `finally`. */
    method HandleSave(user: Option<string>, uploadOk: bool, profileOk: bool, publicUrl: string -> string)
      returns (outcome: SaveOutcome)
      modifies this`isUploading, this`open
      ensures old(selectedFile).None? || !HasUserId(user) ==>
        outcome == Rejected && open == old(open) && isUploading == old(isUploading)
      ensures old(selectedFile).Some? && HasUserId(user) ==>
        outcome == Attempted(UpdateAvatar(user, old(selectedFile), uploadOk, profileOk, publicUrl)) &&
        !isUploading
      ensures open == (old(open) && !(outcome.Attempted? && outcome.trace.result.Success?))
      ensures !old(SaveDisabled()) && HasUserId(user) ==> outcome.Attempted?
    {
      if selectedFile.None? || !HasUserId(user) {
        return Rejected;
      }
      isUploading := true;
      var trace := UpdateAvatar(user, selectedFile, uploadOk, profileOk, publicUrl);
      if trace.result.Success? {
        open := false;
      }
      isUploading := false;
      outcome := Attempted(trace);
    }
  }

  /** Once the dialog has passed the guard, the upload goes to `<userId>.<ext>`
      exactly when the file has an allowed type and is at most 5 MiB. */
  lemma SaveUsesHookChecks(user: Option<string>, file: File, uploadOk: bool, profileOk: bool,
                           publicUrl: string -> string)
    requires HasUserId(user)
    ensures var t := UpdateAvatar(user, Some(file), uploadOk, profileOk, publicUrl);
      (t.uploadedTo == Some(AvatarPath(user.value, file.name)) <==>
         file.mimeType in AllowedTypes && file.size <= MaxSize) &&
      (t.uploadedTo.None? ==> t.result == Failure(CheckFile(file).value))
  {
  }

  /** A successful save followed by the parent closing the dialog leaves it reset. */
  method SaveThenClose(dialog: AvatarUploadDialog, user: Option<string>, file: File, publicUrl: string -> string)
    returns (outcome: SaveOutcome)
    requires HasUserId(user) && file.mimeType == "image/png" && file.size <= MaxSize
    modifies dialog
    ensures outcome.Attempted? && outcome.trace.result.Success?
    ensures !dialog.open && dialog.IsReset()
  {
    dialog.HandleFileChange(Some(file), "blob:preview");
    outcome := dialog.HandleSave(user, true, true, publicUrl);
    dialog.ReceiveProps(dialog.open, dialog.currentAvatarUrl);
  }
}
