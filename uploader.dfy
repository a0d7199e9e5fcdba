/**
 * The file uploader (src/components/S3/S3FileUploader.jsx) as an object whose
 * fields its handlers update in place. Each method is proved to move the
 * object exactly as the corresponding function of UploaderSpec moves its value.
 */
module Uploader {
  import DualText
  import UploaderSpec

  class FileUploader {
    var files: seq<UploaderSpec.File>
    var isDragging: bool
    var isUploading: bool
    var showDisconnectConfirm: bool
    var pendingUploads: nat
    var disconnects: nat
    var alerts: seq<string>

    ghost function State(): UploaderSpec.UploaderState
      reads this
    {
      UploaderSpec.UploaderState(files, isDragging, isUploading, showDisconnectConfirm, pendingUploads, disconnects, alerts)
    }

    constructor ()
      ensures State() == UploaderSpec.Initial()
    {
      files := [];
      isDragging := false;
      isUploading := false;
      showDisconnectConfirm := false;
      pendingUploads := 0;
      disconnects := 0;
      alerts := [];
    }

    method HandleFileChange(selected: seq<UploaderSpec.File>)
      modifies this
      ensures State() == UploaderSpec.FileChange(old(State()), selected)
    {
      if |selected| > 0 {
        files := selected;
      }
    }

    method HandleDragEvent(kind: UploaderSpec.DragKind)
      modifies this
      ensures State() == UploaderSpec.Drag(old(State()), kind)
    {
      if kind == UploaderSpec.DragEnter || kind == UploaderSpec.DragOver {
        isDragging := true;
      } else if kind == UploaderSpec.DragLeave {
        isDragging := false;
      }
    }

    method HandleDrop(dropped: seq<UploaderSpec.File>)
      modifies this
      ensures State() == UploaderSpec.Drop(old(State()), dropped)
    {
      isDragging := false;
      if |dropped| > 0 {
        files := dropped;
      }
    }

    method ClearFiles()
      modifies this
      ensures State() == UploaderSpec.ClearFiles(old(State()))
    {
      files := [];
    }

    /** `uploadFiles` up to its `await`. */
    method UploadFiles()
      modifies this
      ensures State() == UploaderSpec.StartUpload(old(State()))
    {
      if |files| == 0 {
        return;
      }
      isUploading := true;
      pendingUploads := pendingUploads + 1;
    }

    /** `uploadFiles` after its `await`, with the way the `try` block ended. */
    method FinishUpload(outcome: UploaderSpec.UploadOutcome, tr: DualText.Translations, mode: string)
      requires pendingUploads > 0
      modifies this
      ensures State() == UploaderSpec.SettleUpload(old(State()), outcome, tr, mode)
    {
      match outcome {
        case Uploaded =>
          alerts := alerts + [DualText.GetDualText(tr, mode, "upload.success")];
          files := [];
        case Failed(message) =>
          alerts := alerts + [DualText.GetDualText(tr, mode, "upload.error") + ": " + message];
      }
      isUploading := false;
      pendingUploads := pendingUploads - 1;
    }

    method HandleDisconnectClick()
      modifies this
      ensures State() == UploaderSpec.DisconnectClick(old(State()))
    {
      showDisconnectConfirm := true;
    }

    method HandleDisconnectConfirm(confirm: bool, tr: DualText.Translations, mode: string)
      modifies this
      ensures State() == UploaderSpec.DisconnectConfirm(old(State()), confirm, tr, mode)
    {
      showDisconnectConfirm := false;
      if confirm {
        disconnects := disconnects + 1;
        alerts := alerts + [DualText.GetDualText(tr, mode, "disconnect.success")];
      }
    }
  }
}
