/**
 * The state of the file uploader (src/components/S3/S3FileUploader.jsx) and
 * its handlers, as values: file selection, drag and drop, the mock upload and
 * the disconnect confirmation. `alert` and the `onDisconnect` prop are
 * recorded as the list of alerted texts and the number of `onDisconnect`
 * calls. The class in uploader.dfy is proved to follow these functions.
 */
module UploaderSpec {
  import DualText

  /** Only a file's name is used. */
  datatype File = File(name: string)

  /** The three drag events the drop area listens to. */
  datatype DragKind = DragEnter | DragOver | DragLeave

  /** How the awaited upload settles: the `try` block completes, or throws. */
  datatype UploadOutcome = Uploaded | Failed(message: string)

  datatype UploaderState = UploaderState(
    files: seq<File>,
    isDragging: bool,
    isUploading: bool,
    showDisconnectConfirm: bool,
    pendingUploads: nat,   // `uploadFiles` calls suspended at their `await`
    disconnects: nat,      // calls of `onDisconnect`
    alerts: seq<string>)   // texts passed to `alert`, oldest first

  function Initial(): UploaderState {
    UploaderState([], false, false, false, 0, 0, [])
  }

  /** `handleFileChange`: a non-empty selection replaces the files. */
  function FileChange(s: UploaderState, selected: seq<File>): (r: UploaderState)
    ensures r.files == (if selected != [] then selected else s.files)
    ensures r == s.(files := r.files)
  {
    if |selected| > 0 then s.(files := selected) else s
  }

  /** `handleDragEvents`. */
  function Drag(s: UploaderState, kind: DragKind): (r: UploaderState)
    ensures r.isDragging <==> !kind.DragLeave?
    ensures r == s.(isDragging := r.isDragging)
  {
    match kind
    case DragEnter => s.(isDragging := true)
    case DragOver => s.(isDragging := true)
    case DragLeave => s.(isDragging := false)
  }

  /** `handleDrop`: dragging ends; a non-empty drop replaces the files. */
  function Drop(s: UploaderState, dropped: seq<File>): (r: UploaderState)
    ensures !r.isDragging
    ensures r.files == (if dropped != [] then dropped else s.files)
    ensures r == s.(isDragging := false, files := r.files)
  {
    var s' := s.(isDragging := false);
    if |dropped| > 0 then s'.(files := dropped) else s'
  }

  /** The Clear button. */
  function ClearFiles(s: UploaderState): (r: UploaderState)
    ensures r == s.(files := [])
  {
    s.(files := [])
  }

  /** `uploadFiles` up to its `await`: nothing without files, else uploading starts. */
  function StartUpload(s: UploaderState): (r: UploaderState)
    ensures s.files == [] ==> r == s
    ensures s.files != [] ==> r == s.(isUploading := true, pendingUploads := s.pendingUploads + 1)
  {
    if |s.files| == 0 then s
    else s.(isUploading := true, pendingUploads := s.pendingUploads + 1)
  }

  /** `uploadFiles` after its `await`: an alert in the display mode's language, the files
      emptied on success, and uploading off on every path (`finally`). */
  function SettleUpload(s: UploaderState, outcome: UploadOutcome, tr: DualText.Translations, mode: string): (r: UploaderState)
    requires s.pendingUploads > 0
    ensures !r.isUploading && r.pendingUploads == s.pendingUploads - 1
    ensures outcome == Uploaded ==>
      r.files == [] && r.alerts == s.alerts + [DualText.GetDualText(tr, mode, "upload.success")]
    ensures outcome.Failed? ==>
      r.files == s.files
      && r.alerts == s.alerts + [DualText.GetDualText(tr, mode, "upload.error") + ": " + outcome.message]
    ensures r.isDragging == s.isDragging && r.showDisconnectConfirm == s.showDisconnectConfirm
    ensures r.disconnects == s.disconnects
  {
    var s' := match outcome
      case Uploaded =>
        s.(alerts := s.alerts + [DualText.GetDualText(tr, mode, "upload.success")], files := [])
      case Failed(message) =>
        s.(alerts := s.alerts + [DualText.GetDualText(tr, mode, "upload.error") + ": " + message]);
    s'.(isUploading := false, pendingUploads := s.pendingUploads - 1)
  }

  /** `handleDisconnectClick`: the dialog opens. */
  function DisconnectClick(s: UploaderState): (r: UploaderState)
    ensures r == s.(showDisconnectConfirm := true)
  {
    s.(showDisconnectConfirm := true)
  }

  /** `handleDisconnectConfirm(confirm)`: the dialog closes; only a yes calls
      `onDisconnect`, once, and alerts. */
  function DisconnectConfirm(s: UploaderState, confirm: bool, tr: DualText.Translations, mode: string): (r: UploaderState)
    ensures !r.showDisconnectConfirm
    ensures !confirm ==> r == s.(showDisconnectConfirm := false)
    ensures confirm ==>
      && r.disconnects == s.disconnects + 1
      && r.alerts == s.alerts + [DualText.GetDualText(tr, mode, "disconnect.success")]
      && r == s.(showDisconnectConfirm := false, disconnects := r.disconnects, alerts := r.alerts)
  {
    var s' := s.(showDisconnectConfirm := false);
    if confirm then
      s'.(disconnects := s.disconnects + 1,
          alerts := s.alerts + [DualText.GetDualText(tr, mode, "disconnect.success")])
    else s'
  }

  /** What the user and the browser can do in the connected view. */
  datatype Event =
    | Select(selected: seq<File>)
    | DragOn(kind: DragKind)
    | DropFiles(dropped: seq<File>)
    | ClickClear
    | ClickUpload
    | UploadSettles(outcome: UploadOutcome)
    | ClickDisconnect
    | Answer(confirm: bool)   // Cancel and No answer false, Yes answers true

  /** One event. The Clear and Upload buttons exist only with files selected and Upload is
      disabled while uploading; an upload settles only if one is suspended; the dialog
      answers exist only while it is open. An event nobody can trigger changes nothing. */
  function Next(s: UploaderState, e: Event, tr: DualText.Translations, mode: string): (r: UploaderState)
    ensures e.ClickClear? && s.files == [] ==> r == s
    ensures e.ClickClear? && s.files != [] ==> r.files == []
    ensures e.ClickUpload? && (s.files == [] || s.isUploading) ==> r == s
    ensures e.ClickUpload? && s.files != [] && !s.isUploading ==>
      r.isUploading && r.pendingUploads == s.pendingUploads + 1
    ensures e.UploadSettles? && s.pendingUploads == 0 ==> r == s
    ensures e.Answer? && !s.showDisconnectConfirm ==> r == s
    ensures e.Answer? && s.showDisconnectConfirm ==>
      !r.showDisconnectConfirm && r.disconnects == s.disconnects + (if e.confirm then 1 else 0)
  {
    match e
    case Select(selected) => FileChange(s, selected)
    case DragOn(kind) => Drag(s, kind)
    case DropFiles(dropped) => Drop(s, dropped)
    case ClickClear => if s.files != [] then ClearFiles(s) else s
    case ClickUpload => if s.files != [] && !s.isUploading then StartUpload(s) else s
    case UploadSettles(outcome) => if s.pendingUploads > 0 then SettleUpload(s, outcome, tr, mode) else s
    case ClickDisconnect => DisconnectClick(s)
    case Answer(confirm) => if s.showDisconnectConfirm then DisconnectConfirm(s, confirm, tr, mode) else s
  }

  function Run(s: UploaderState, es: seq<Event>, tr: DualText.Translations, mode: string): UploaderState
    decreases |es|
  {
    if es == [] then s else Run(Next(s, es[0], tr, mode), es[1..], tr, mode)
  }

  /** At most one upload is in flight, and exactly while the uploading flag is on. */
  ghost predicate Consistent(s: UploaderState) {
    s.pendingUploads == if s.isUploading then 1 else 0
  }

  lemma NextConsistent(s: UploaderState, e: Event, tr: DualText.Translations, mode: string)
    requires Consistent(s)
    ensures Consistent(Next(s, e, tr, mode))
  {
  }

  lemma {:induction false} RunConsistent(s: UploaderState, es: seq<Event>, tr: DualText.Translations, mode: string)
    requires Consistent(s)
    ensures Consistent(Run(s, es, tr, mode))
    decreases |es|
  {
    if es != [] {
      NextConsistent(s, es[0], tr, mode);
      RunConsistent(Next(s, es[0], tr, mode), es[1..], tr, mode);
    }
  }

  /** From the first render, no two uploads are ever suspended at once, and uploading is
      on exactly while one is. */
  lemma OneUploadInFlight(es: seq<Event>, tr: DualText.Translations, mode: string)
    ensures var s := Run(Initial(), es, tr, mode);
      s.pendingUploads <= 1 && (s.isUploading <==> s.pendingUploads == 1)
  {
    RunConsistent(Initial(), es, tr, mode);
  }

  /** Uploading with no files changes nothing, the uploading flag included. */
  lemma EmptyUploadIsNoOp(s: UploaderState)
    requires s.files == []
    ensures StartUpload(s) == s
  {
  }

  /** A complete upload, from click to success, ends with no files and not uploading. */
  lemma UploadRoundTrip(s: UploaderState, tr: DualText.Translations, mode: string)
    requires Consistent(s) && s.files != [] && !s.isUploading
    ensures var r := Next(Next(s, ClickUpload, tr, mode), UploadSettles(Uploaded), tr, mode);
      r.files == [] && !r.isUploading && r.pendingUploads == 0
      && r.alerts == s.alerts + [DualText.GetDualText(tr, mode, "upload.success")]
  {
  }

  /** Answering no or cancel only closes the dialog; answering yes disconnects once. */
  lemma ConfirmDialog(s: UploaderState, tr: DualText.Translations, mode: string)
    ensures var r := Next(DisconnectClick(s), Answer(false), tr, mode);
      r == s.(showDisconnectConfirm := false)
    ensures var r := Next(DisconnectClick(s), Answer(true), tr, mode);
      !r.showDisconnectConfirm && r.disconnects == s.disconnects + 1
  {
  }
}
