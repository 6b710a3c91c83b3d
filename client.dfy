/**
 * The page controller of the upload page: the application state
 * (`selectedFile`, `isUploading`, `currentResult`) together with the list of
 * history items shown on the page, and one method per user event.
 *
 * The upload is asynchronous. `UploadFile` is its synchronous part, up to the
 * network request; `ReceiveUploadReply` is the continuation that runs when the
 * reply (or a transport error) arrives, including the `finally` block. Other
 * events may be handled between the two.
 */
module Client {
  import opened Wrappers
  import opened History
  import opened Timestamp
  import opened Presenter

  const MaxFileSize: nat := 10 * 1024 * 1024
  const AllowedTypes: seq<string> :=
    ["image/jpeg", "image/jpg", "image/png", "image/gif", "image/bmp", "image/tiff"]
  const MaxHistoryItems: nat := 10

  /** A file chosen in the picker or dropped on the page. */
  datatype File = File(name: string, mimeType: string, size: nat)

  datatype Rejection = InvalidType | TooLarge

  /** The two guards of `processFile`: the MIME type first, then the size. */
  function CheckFile(file: File): (r: Option<Rejection>)
    ensures file.mimeType !in AllowedTypes ==> r == Some(InvalidType)
    ensures file.mimeType in AllowedTypes ==> (r == Some(TooLarge) <==> file.size > MaxFileSize)
    ensures r.None? <==> file.mimeType in AllowedTypes && file.size <= MaxFileSize
  {
    if file.mimeType !in AllowedTypes then Some(InvalidType)
    else if file.size > MaxFileSize then Some(TooLarge)
    else None
  }

  function RejectionMessage(r: Rejection): string {
    match r
    case InvalidType => "Please select a valid image file (JPEG, PNG, GIF, BMP, TIFF)."
    case TooLarge => "File size must be less than 10MB."
  }

  datatype Severity = SuccessToast | ErrorToast

  /** A call of `showToast(message, type)`. */
  datatype Toast = Toast(message: string, severity: Severity)

  const ResetRefused := Toast("Cannot reset while uploading. Please wait...", ErrorToast)
  const ResetDone := Toast("Image cleared successfully.", SuccessToast)
  const AnalysisDone := Toast("MRI scan analyzed successfully!", SuccessToast)
  const ReadyForScan := Toast("Ready for new scan", SuccessToast)

  /** The fields of a successful `/upload` reply that the page uses. */
  datatype ResultData = ResultData(filepath: string, result: string, resultType: string,
                                   confidence: int, classProbabilities: seq<Entry>)

  /** How an upload ends: a reply with `success` true, one with `success` false, or a transport error. */
  datatype UploadOutcome = Success(data: ResultData) | ServerRejected(error: string) | NetworkFailure

  /** The error toast for a failed upload: the server's message, or a fallback when it is empty. */
  function FailureToast(outcome: UploadOutcome): (t: Toast)
    requires !outcome.Success?
    ensures t.severity == ErrorToast
    ensures outcome.ServerRejected? && outcome.error != "" ==> t.message == outcome.error
  {
    match outcome
    case ServerRejected(error) =>
      Toast(if error != "" then error else "An error occurred during analysis.", ErrorToast)
    case NetworkFailure => Toast("Network error. Please try again.", ErrorToast)
  }

  /** One item of the history list on the page. */
  datatype HistoryItem = HistoryItem(filename: string, timestamp: string, result: ResultData,
                                     status: string, subtype: Option<Subtype>)

  /** `appState.selectedFile?.name || 'Recent scan'`. */
  function HistoryFilename(selected: Option<File>): (name: string)
    ensures selected.Some? && selected.value.name != "" ==> name == selected.value.name
    ensures selected.None? || selected.value.name == "" ==> name == "Recent scan"
  {
    if selected.Some? && selected.value.name != "" then selected.value.name else "Recent scan"
  }

  /** `createHistoryItem`: the item recorded for a result at clock reading `now`. */
  function CreateHistoryItem(result: ResultData, selected: Option<File>, now: Date): (item: HistoryItem)
    requires ValidDate(now)
    ensures item.result == result
    ensures item.status == "No Tumor" <==> result.resultType == "healthy"
    ensures item.subtype.Some? ==> item.status == "Tumor Detected"
  {
    HistoryItem(HistoryFilename(selected), FormatTimestamp(now), result,
                DetectionStatus(result.resultType), TumorSubtype(result.resultType, result.result))
  }

  /** What `displayResults` puts on the page. */
  datatype ResultView = ResultView(image: string, title: string, confidence: int,
                                   badge: Badge, bars: seq<ProbabilityItem>)

  /** What `showHistoryItem` puts on the page. */
  datatype HistoricalView = HistoricalView(image: string, title: string, badgeClass: string, confidence: int)

  class Session {
    var selectedFile: Option<File>
    var isUploading: bool
    var currentResult: Option<ResultData>
    /** The history items on the page, most recent first. */
    var history: seq<HistoryItem>

    /** The history list never exceeds its capacity. */
    ghost predicate Valid()
      reads this
    {
      |history| <= MaxHistoryItems
    }

    /** The page as loaded, showing the history the server rendered into it. */
    constructor (rendered: seq<HistoryItem>)
      requires |rendered| <= MaxHistoryItems
      ensures Valid()
      ensures selectedFile.None? && !isUploading && currentResult.None? && history == rendered
    {
      selectedFile := None;
      isUploading := false;
      currentResult := None;
      history := rendered;
    }

    /** `processFile`: accept a file that passes both guards, otherwise report why. */
    method ProcessFile(file: File) returns (toasts: seq<Toast>)
      modifies this`selectedFile
      ensures CheckFile(file).None? ==> selectedFile == Some(file) && toasts == []
      ensures CheckFile(file).Some? ==>
                selectedFile == old(selectedFile)
                && toasts == [Toast(RejectionMessage(CheckFile(file).value), ErrorToast)]
    {
      if file.mimeType !in AllowedTypes {
        toasts := [Toast(RejectionMessage(InvalidType), ErrorToast)];
        return;
      }
      if file.size > MaxFileSize {
        toasts := [Toast(RejectionMessage(TooLarge), ErrorToast)];
        return;
      }
      selectedFile := Some(file);
      toasts := [];
    }

    /** `clearState`: forget the selected file and the current result. */
    method ClearState()
      modifies this`selectedFile, this`currentResult
      ensures selectedFile.None? && currentResult.None?
    {
      selectedFile := None;
      currentResult := None;
    }

    /**
     * `resetUpload`: refused while an upload is in flight; otherwise clears the
     * state and fires the best-effort `/reset` request (`resetSent`).
     */
    method ResetUpload() returns (toasts: seq<Toast>, resetSent: bool)
      modifies this`selectedFile, this`currentResult
      ensures isUploading ==>
                selectedFile == old(selectedFile) && currentResult == old(currentResult)
                && !resetSent && toasts == [ResetRefused]
      ensures !isUploading ==>
                selectedFile.None? && currentResult.None? && resetSent && toasts == [ResetDone]
    {
      if isUploading {
        toasts, resetSent := [ResetRefused], false;
        return;
      }
      ClearState();
      resetSent := true;
      toasts := [ResetDone];
    }

    /** The synchronous part of `uploadFile`: take the one-upload-at-a-time token. */
    method UploadFile(file: File) returns (started: bool)
      modifies this`isUploading
      ensures started == !old(isUploading)
      ensures isUploading
    {
      if isUploading {
        return false;
      }
      isUploading := true;
      started := true;
    }

    /** `handleAnalyzeClick`: start an upload of the selected file, if there is one. */
    method HandleAnalyzeClick() returns (started: bool)
      modifies this`isUploading
      ensures started <==> selectedFile.Some? && !old(isUploading)
      ensures isUploading == (old(isUploading) || selectedFile.Some?)
    {
      started := false;
      if selectedFile.Some? {
        started := UploadFile(selectedFile.value);
      }
    }

    /** `displayResults`: render a successful reply and make it the current result. */
    method DisplayResults(data: ResultData) returns (view: ResultView)
      modifies this`currentResult
      ensures currentResult == Some(data)
      ensures view.image == data.filepath && view.title == data.result && view.confidence == data.confidence
      ensures view.badge == BadgeStyle(data.resultType)
      ensures |view.bars| == |data.classProbabilities|
      ensures forall i :: 0 <= i < |view.bars| ==> view.bars[i] == ItemFor(SortDescending(data.classProbabilities)[i])
      ensures forall i, j :: 0 <= i < j < |view.bars| ==> view.bars[i].value >= view.bars[j].value
      ensures forall e :: e in data.classProbabilities ==> ItemFor(e) in view.bars
    {
      var bars := CreateProbabilityBars(data.classProbabilities);
      view := ResultView(data.filepath, data.result, data.confidence, BadgeStyle(data.resultType), bars);
      currentResult := Some(data);
    }

    /**
     * `updateHistory`: nothing without a current result; otherwise the new item
     * goes to the head and at most one tail item is evicted.
     */
    method UpdateHistory(now: Date)
      requires Valid() && ValidDate(now)
      modifies this`history
      ensures Valid()
      ensures currentResult.None? ==> history == old(history)
      ensures currentResult.Some? ==>
                history == PrependEvictOne(CreateHistoryItem(currentResult.value, selectedFile, now),
                                           old(history), MaxHistoryItems)
    {
      if currentResult.None? {
        return;
      }
      var item := CreateHistoryItem(currentResult.value, selectedFile, now);
      history := [item] + history;
      if |history| > MaxHistoryItems {
        history := history[..|history| - 1];
      }
    }

    /**
     * The continuation of `uploadFile` once the outcome is known. On success the
     * result is shown and recorded. On failure the inner `resetUpload` still
     * sees `isUploading` set and is refused, so the selected file and the
     * current result stay as they were. The token is released in every case.
     */
    method ReceiveUploadReply(outcome: UploadOutcome, now: Date)
      returns (view: Option<ResultView>, toasts: seq<Toast>)
      requires Valid() && isUploading && ValidDate(now)
      modifies this
      ensures Valid()
      ensures !isUploading
      ensures selectedFile == old(selectedFile)
      ensures outcome.Success? ==>
                currentResult == Some(outcome.data)
                && history == PrependEvictOne(CreateHistoryItem(outcome.data, old(selectedFile), now),
                                              old(history), MaxHistoryItems)
                && view.Some? && view.value.badge == BadgeStyle(outcome.data.resultType)
                && toasts == [AnalysisDone]
      ensures !outcome.Success? ==>
                currentResult == old(currentResult) && history == old(history)
                && view.None? && toasts == [FailureToast(outcome), ResetRefused]
    {
      match outcome {
        case Success(data) =>
          var v := DisplayResults(data);
          UpdateHistory(now);
          view, toasts := Some(v), [AnalysisDone];
        case _ =>
          var t, _ := ResetUpload();
          view, toasts := None, [FailureToast(outcome)] + t;
      }
      // finally
      isUploading := false;
    }

    /** `scanAnother`: clear the state (with no upload guard) and announce a new scan. */
    method ScanAnother() returns (toasts: seq<Toast>)
      modifies this`selectedFile, this`currentResult
      ensures selectedFile.None? && currentResult.None?
      ensures toasts == [ReadyForScan]
    {
      ClearState();
      toasts := [ReadyForScan];
    }

    /**
     * A click on history item `index`: `showHistoryItem` with the item's stored
     * fields. It changes neither the application state nor the history.
     */
    method HandleHistoryItemClick(index: nat) returns (view: HistoricalView, toast: Toast)
      requires index < |history|
      ensures view.image == history[index].result.filepath
      ensures view.title == history[index].result.result
      ensures view.badgeClass == history[index].result.resultType
      ensures view.confidence == history[index].result.confidence
      ensures toast == Toast("Viewing " + history[index].filename, SuccessToast)
    {
      var item := history[index];
      view := HistoricalView(item.result.filepath, item.result.result, item.result.resultType, item.result.confidence);
      toast := Toast("Viewing " + item.filename, SuccessToast);
    }

    /**
     * `handleKeyboardShortcuts`: Escape resets only with a file selected and no
     * upload in flight; Ctrl/Cmd+O opens the file picker only with no file selected.
     */
    method HandleKeyboardShortcuts(key: string, ctrlKey: bool, metaKey: bool)
      returns (openPicker: bool, toasts: seq<Toast>, resetSent: bool)
      modifies this`selectedFile, this`currentResult
      ensures key == "Escape" && old(selectedFile).Some? && !isUploading ==>
                selectedFile.None? && currentResult.None? && resetSent && toasts == [ResetDone]
      ensures !(key == "Escape" && old(selectedFile).Some? && !isUploading) ==>
                selectedFile == old(selectedFile) && currentResult == old(currentResult)
                && !resetSent && toasts == []
      ensures openPicker <==> (ctrlKey || metaKey) && key == "o" && old(selectedFile).None?
    {
      toasts, resetSent, openPicker := [], false, false;
      if key == "Escape" && selectedFile.Some? && !isUploading {
        toasts, resetSent := ResetUpload();
      }
      if (ctrlKey || metaKey) && key == "o" {
        if selectedFile.None? {
          openPicker := true;
        }
      }
    }
  }
}
