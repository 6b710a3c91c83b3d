/**
 * Event sequences on the page, checked against the contracts of the session
 * methods alone.
 */
module Scenarios {
  import opened Wrappers
  import opened Timestamp
  import opened Presenter
  import opened Client

  const Scan := File("scan.png", "image/png", 2 * 1024 * 1024)
  const Evening := Date(0, 21, 6, 23, 26)

  /** Select a PNG, analyze it, get a glioma result: shown, recorded once, tumour badge. */
  method AnalyzeSucceeds() {
    var s := new Session([]);
    var toasts := s.ProcessFile(Scan);
    assert s.selectedFile == Some(Scan) && toasts == [];
    var started := s.HandleAnalyzeClick();
    assert started && s.isUploading;
    var again := s.HandleAnalyzeClick();
    assert !again;
    var data := ResultData("/static/uploads/a.png", "Tumor Detected: Glioma", "tumor", 973,
                           [Entry("glioma", 973), Entry("notumor", 11), Entry("pituitary", 10), Entry("meningioma", 6)]);
    var view, replyToasts := s.ReceiveUploadReply(Success(data), Evening);
    assert !s.isUploading && s.currentResult == Some(data);
    assert |s.history| == 1 && s.history[0].filename == "scan.png";
    assert view.Some? && view.value.badge == ErrorStyle;
    assert replyToasts == [AnalysisDone];
  }

  /**
   * The server declines the image: the upload token is released, the history
   * is unchanged, and because the inner reset is refused the file stays selected.
   */
  method AnalyzeRejected() {
    var s := new Session([]);
    var _ := s.ProcessFile(Scan);
    var _ := s.HandleAnalyzeClick();
    var view, toasts := s.ReceiveUploadReply(ServerRejected("corrupt image"), Evening);
    assert !s.isUploading && s.history == [] && view.None?;
    assert s.selectedFile == Some(Scan) && s.currentResult.None?;
    assert toasts == [Toast("corrupt image", ErrorToast), ResetRefused];
  }

  /** Reset is refused during an upload; "scan another" is not, and the record then has no file name. */
  method ScanAnotherWhileUploading() {
    var s := new Session([]);
    var _ := s.ProcessFile(Scan);
    var _ := s.HandleAnalyzeClick();
    var toasts, sent := s.ResetUpload();
    assert s.selectedFile == Some(Scan) && !sent && toasts == [ResetRefused];
    var _ := s.ScanAnother();
    assert s.selectedFile.None? && s.isUploading;
    var data := ResultData("/static/uploads/b.png", "No Tumor Detected", "healthy", 912, []);
    var _, _ := s.ReceiveUploadReply(Success(data), Evening);
    assert s.history[0].filename == "Recent scan";
    assert s.history[0].subtype.None? && s.history[0].status == "No Tumor";
  }

  /** The size limit is inclusive, and the type check comes first. */
  method FileGuards() {
    assert CheckFile(File("a.png", "image/png", 10 * 1024 * 1024)).None?;
    assert CheckFile(File("a.png", "image/png", 10 * 1024 * 1024 + 1)) == Some(TooLarge);
    assert CheckFile(File("a.txt", "text/plain", 20 * 1024 * 1024)) == Some(InvalidType);
  }

  /** Probabilities {notumor: 91.2, glioma: 8.8}, in tenths of a percent. */
  method ProbabilityBars() {
    var bars := CreateProbabilityBars([Entry("glioma", 88), Entry("notumor", 912)]);
    assert |bars| == 2 && bars[0].value >= bars[1].value;
    assert ItemFor(Entry("notumor", 912)) in bars && ItemFor(Entry("glioma", 88)) in bars;
    assert bars[0] == ProbabilityItem("No Tumor", 912);
  }

  /** Escape with nothing selected does nothing; Ctrl+O then opens the picker. */
  method Shortcuts() {
    var s := new Session([]);
    var open, toasts, sent := s.HandleKeyboardShortcuts("Escape", false, false);
    assert !open && toasts == [] && !sent;
    open, toasts, sent := s.HandleKeyboardShortcuts("o", true, false);
    assert open;
  }
}
