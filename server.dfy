/**
 * The request logic of the web server: the extension check, the session
 * history, the mapping from predicted class to result text and type, and
 * the validation and history branches of the upload route. The session
 * store, the file system, the clock, `uuid` and the classifier are
 * parameters or are abstracted.
 */
module Server {
  import opened Wrappers
  import opened Text
  import opened History

  const MaxHistoryItems: nat := 10
  const AllowedExtensions: set<string> := {"png", "jpg", "jpeg", "gif", "bmp", "tiff"}
  const ClassLabels: seq<string> := ["pituitary", "glioma", "notumor", "meningioma"]

  const NoFileSelected := "No file selected"
  const InvalidFileType := "Invalid file type. Please upload a valid image file."

  /** `filename.rsplit(".", 1)[1].lower()`: the lower-cased text after the last dot. */
  function Extension(filename: string): (ext: Option<string>)
    ensures ext.None? <==> '.' !in filename
    ensures ext.Some? ==> exists i :: 0 <= i < |filename| && filename[i] == '.'
                            && '.' !in filename[i + 1..] && ext.value == Lower(filename[i + 1..])
  {
    match LastIndexOf(filename, '.')
    case None => None
    case Some(i) => Some(Lower(filename[i + 1..]))
  }

  /**
   * `allowed_file`: the name has a dot, and the lower-cased text after its
   * last dot is an allowed extension.
   */
  function AllowedFile(filename: string): (ok: bool)
    ensures ok <==> exists i :: 0 <= i < |filename| && filename[i] == '.' && '.' !in filename[i + 1..]
                             && Lower(filename[i + 1..]) in AllowedExtensions
  {
    forall j | 0 <= j < |filename| && filename[j] == '.' && '.' !in filename[j + 1..]
      ensures Extension(filename) == Some(Lower(filename[j + 1..]))
    {
      ExtensionAtLastDot(filename, j);
    }
    Extension(filename).Some? && Extension(filename).value in AllowedExtensions
  }

  /** A dot with no dot after it is the one `rsplit` splits at. */
  lemma ExtensionAtLastDot(filename: string, j: nat)
    requires j < |filename| && filename[j] == '.' && '.' !in filename[j + 1..]
    ensures Extension(filename) == Some(Lower(filename[j + 1..]))
  {
    LastIndexOfAt(filename, '.', j);
  }

  /**
   * The character at `i` of Python's `str.title()` when the character before
   * the string was a letter iff `afterLetter`: a letter following a letter is
   * lower-cased, any other letter upper-cased, and other characters kept.
   */
  function TitleAt(s: string, i: nat, afterLetter: bool): char
    requires i < |s|
  {
    var prevLetter := if i == 0 then afterLetter else IsAsciiLetter(s[i - 1]);
    if !IsAsciiLetter(s[i]) then s[i]
    else if prevLetter then LowerChar(s[i])
    else UpperChar(s[i])
  }

  function TitleFrom(s: string, afterLetter: bool): (r: string)
    ensures |r| == |s|
    ensures forall i :: 0 <= i < |s| ==> r[i] == TitleAt(s, i, afterLetter)
  {
    if s == [] then []
    else
      var c := s[0];
      var head := if !IsAsciiLetter(c) then c else if afterLetter then LowerChar(c) else UpperChar(c);
      var rest := TitleFrom(s[1..], IsAsciiLetter(c));
      assert forall i :: 1 <= i < |s| ==> TitleAt(s[1..], i - 1, IsAsciiLetter(c)) == TitleAt(s, i, afterLetter);
      [head] + rest
  }

  /** Python's `str.title()` on ASCII text. */
  function TitleCase(s: string): (r: string)
    ensures |r| == |s|
    ensures forall i :: 0 <= i < |s| ==> r[i] == TitleAt(s, i, false)
  {
    TitleFrom(s, false)
  }

  /** A single lower-case word is title-cased by upper-casing its first letter. */
  lemma TitleOfLowerWord(s: string)
    requires IsLowerWord(s)
    ensures TitleCase(s) == [UpperChar(s[0])] + s[1..]
  {
    var r := TitleCase(s);
    forall i | 0 <= i < |s|
      ensures r[i] == ([UpperChar(s[0])] + s[1..])[i]
    {
    }
  }

  /**
   * The result text and type of a predicted class: `notumor` is a healthy
   * "No Tumor Detected"; any other class is a tumour named by its title-cased class.
   */
  function ClassifyResult(predictedClass: string): (r: (string, string))
    ensures r.1 == "healthy" <==> predictedClass == "notumor"
    ensures r.1 == "healthy" || r.1 == "tumor"
    ensures predictedClass == "notumor" ==> r.0 == "No Tumor Detected"
    ensures predictedClass != "notumor" ==> r.0 == "Tumor Detected: " + TitleCase(predictedClass)
  {
    if predictedClass == "notumor" then ("No Tumor Detected", "healthy")
    else ("Tumor Detected: " + TitleCase(predictedClass), "tumor")
  }

  /** What the classifier produced: the argmax index, the top score and all scores, in percent. */
  datatype ModelOutput =
    | Inference(classIndex: nat, confidence: int, scores: seq<int>)
    | InferenceError(message: string)

  /** The four-class model's output has one score per label and an index among them. */
  predicate WellFormed(out: ModelOutput) {
    out.Inference? ==> out.classIndex < |ClassLabels| && |out.scores| == |ClassLabels|
  }

  /** The dictionary `predict_tumor` returns. */
  datatype Prediction =
    | Predicted(result: string, resultType: string, predictedClass: string,
                confidence: int, classProbabilities: seq<(string, int)>)
    | PredictionFailed(error: string)

  /** `predict_tumor`, after the model call. */
  function PredictTumor(out: ModelOutput): (p: Prediction)
    requires WellFormed(out)
    ensures out.InferenceError? ==> p == PredictionFailed("Prediction failed: " + out.message)
    ensures out.Inference? ==> p.Predicted? && p.predictedClass == ClassLabels[out.classIndex]
    ensures p.Predicted? ==> (p.result, p.resultType) == ClassifyResult(p.predictedClass)
    ensures p.Predicted? ==> |p.classProbabilities| == |ClassLabels|
                             && forall i :: 0 <= i < |ClassLabels| ==>
                                  p.classProbabilities[i] == (ClassLabels[i], out.scores[i])
  {
    match out
    case InferenceError(message) => PredictionFailed("Prediction failed: " + message)
    case Inference(index, confidence, scores) =>
      var cls := ClassLabels[index];
      var r := ClassifyResult(cls);
      Predicted(r.0, r.1, cls, confidence, seq(|ClassLabels|, i requires 0 <= i < |ClassLabels| => (ClassLabels[i], scores[i])))
  }

  /** The `file` part of a multipart upload request, if present. */
  datatype UploadRequest = UploadRequest(file: Option<string>)

  /**
   * The three checks `upload_file` makes before anything is saved: a missing
   * `file` field, then an empty file name, then a disallowed extension.
   */
  function ValidationError(req: UploadRequest): (err: Option<string>)
    ensures req.file.None? ==> err == Some(NoFileSelected)
    ensures req.file.Some? && req.file.value == "" ==> err == Some(NoFileSelected)
    ensures req.file.Some? && req.file.value != "" ==>
              (err.None? <==> AllowedFile(req.file.value))
              && (err.Some? ==> err == Some(InvalidFileType))
    ensures err.None? ==> req.file.Some? && Extension(req.file.value).Some?
                          && Extension(req.file.value).value in AllowedExtensions
  {
    if req.file.None? then Some(NoFileSelected)
    else if req.file.value == "" then Some(NoFileSelected)
    else if !AllowedFile(req.file.value) then Some(InvalidFileType)
    else None
  }

  /**
   * `f"{uuid}.{file_extension}"`: the name under which an upload is stored,
   * the generated prefix, a dot, and the upload's own extension.
   */
  function StoredName(uid: string, filename: string): (name: string)
    requires '.' in filename
    ensures |name| > |uid| && name[..|uid|] == uid && name[|uid|] == '.'
    ensures name[|uid| + 1..] == Extension(filename).value
    ensures Extension(name) == Extension(filename)
  {
    var i := LastIndexOf(filename, '.').value;
    var ext := Lower(filename[i + 1..]);
    var name := uid + "." + ext;
    LowerAvoidsOther(filename[i + 1..], '.');
    assert name[|uid| + 1..] == ext;
    LastIndexOfAt(name, '.', |uid|);
    LowerIdempotent(filename[i + 1..]);
    assert name[..|uid|] == uid;
    name
  }

  lemma LowerIdempotent(s: string)
    ensures Lower(Lower(s)) == Lower(s)
  {
  }

  /** The stored name passes the same extension check as the upload, whatever the generated prefix. */
  lemma StoredNameKeepsExtension(uid: string, filename: string)
    requires '.' in filename
    ensures AllowedFile(StoredName(uid, filename)) == AllowedFile(filename)
  {
    assert Extension(StoredName(uid, filename)) == Extension(filename);
  }

  /** One entry of the session history. */
  datatype HistoryRecord = HistoryRecord(filename: string, filepath: string, timestamp: string,
                                         result: string, resultType: string, confidence: int)

  datatype SaveOutcome = Saved | SaveFailed(message: string)

  /** The JSON reply of the upload route. */
  datatype Response =
    | ErrorReply(error: string)
    | ResultReply(result: string, resultType: string, predictedClass: string, confidence: int,
                  classProbabilities: seq<(string, int)>, filepath: string)

  /** Whether the keys of `s` are in ascending order. */
  predicate KeysAscending(s: seq<(string, int)>) {
    forall i, j :: 0 <= i < j < |s| ==> LexLeq(s[i].0, s[j].0)
  }

  /** A pair whose key is at most the least key of an ascending sequence can go in front of it. */
  lemma ConsKeysAscending(p: (string, int), s: seq<(string, int)>)
    requires KeysAscending(s) && (s == [] || LexLeq(p.0, s[0].0))
    ensures KeysAscending([p] + s)
  {
    forall j | 1 <= j < |[p] + s|
      ensures LexLeq(p.0, ([p] + s)[j].0)
    {
      assert ([p] + s)[j] == s[j - 1];
      if j > 1 {
        LexTrans(p.0, s[0].0, s[j - 1].0);
      }
    }
    forall i, j | 1 <= i < j < |[p] + s|
      ensures LexLeq(([p] + s)[i].0, ([p] + s)[j].0)
    {
      assert ([p] + s)[i] == s[i - 1] && ([p] + s)[j] == s[j - 1];
    }
  }

  /** Places `p` before the first pair whose key it does not exceed. */
  function InsertByKey(p: (string, int), s: seq<(string, int)>): (r: seq<(string, int)>)
    requires KeysAscending(s)
    ensures |r| == |s| + 1
    ensures r[0] == p || (s != [] && r[0] == s[0])
    ensures KeysAscending(r)
  {
    if s == [] || LexLeq(p.0, s[0].0) then
      ConsKeysAscending(p, s);
      [p] + s
    else
      var rest := InsertByKey(p, s[1..]);
      LexTotal(p.0, s[0].0);
      assert LexLeq(s[0].0, rest[0].0);
      ConsKeysAscending(s[0], rest);
      [s[0]] + rest
  }

  lemma {:induction false} InsertByKeyPermutes(p: (string, int), s: seq<(string, int)>)
    requires KeysAscending(s)
    ensures multiset(InsertByKey(p, s)) == multiset(s) + multiset{p}
  {
    if s != [] && !LexLeq(p.0, s[0].0) {
      InsertByKeyPermutes(p, s[1..]);
      assert s == [s[0]] + s[1..];
    }
  }

  /** One step of `InsertByKey` past a smaller key. */
  lemma InsertByKeyPast(p: (string, int), s: seq<(string, int)>)
    requires KeysAscending(s) && s != [] && !LexLeq(p.0, s[0].0)
    ensures InsertByKey(p, s) == [s[0]] + InsertByKey(p, s[1..])
  {
  }

  /**
   * The order in which `jsonify` writes a dictionary: Flask's JSON provider
   * sorts keys, so the pairs come out in ascending key order, as a
   * rearrangement of the dictionary's items.
   */
  function JsonOrder(s: seq<(string, int)>): (r: seq<(string, int)>)
    ensures |r| == |s|
    ensures KeysAscending(r)
    ensures multiset(r) == multiset(s)
  {
    if s == [] then []
    else
      assert s == [s[0]] + s[1..];
      InsertByKeyPermutes(s[0], JsonOrder(s[1..]));
      InsertByKey(s[0], JsonOrder(s[1..]))
  }

  /** The per-browser session; `history` is `None` while the session has no "history" key. */
  class SessionStore {
    var history: Option<seq<HistoryRecord>>

    ghost predicate Valid()
      reads this
    {
      history.Some? ==> |history.value| <= MaxHistoryItems
    }

    constructor ()
      ensures Valid() && history.None?
    {
      history := None;
    }

    /** `get_session_history`: initialise a missing history to the empty list, else leave it. */
    method GetSessionHistory() returns (h: seq<HistoryRecord>)
      modifies this
      ensures old(history).None? ==> h == [] && history == Some([])
      ensures old(history).Some? ==> h == old(history).value && history == old(history)
    {
      if history.None? {
        history := Some([]);
      }
      h := history.value;
    }

    /** `add_to_history`: insert at index 0 and keep the first ten items. */
    method AddToHistory(item: HistoryRecord)
      requires Valid()
      modifies this
      ensures Valid()
      ensures history == Some(PrependTruncated(item, old(history).GetOr([]), MaxHistoryItems))
    {
      var h := GetSessionHistory();
      h := [item] + h;
      history := Some(if |h| <= MaxHistoryItems then h else h[..MaxHistoryItems]);
    }

    /** `clear_history`. */
    method ClearHistory() returns (success: bool)
      modifies this
      ensures Valid() && history == Some([]) && success
    {
      history := Some([]);
      success := true;
    }

    /**
     * `upload_file`. `uid` is the generated `uuid4`, `now` the formatted clock
     * reading, `save` how saving the file went and `model` what the classifier
     * produced. The history grows only when the prediction succeeds.
     */
    method UploadFile(req: UploadRequest, uid: string, now: string, save: SaveOutcome, model: ModelOutput)
      returns (resp: Response)
      requires Valid() && WellFormed(model)
      modifies this
      ensures Valid()
      ensures ValidationError(req).Some? ==> resp == ErrorReply(ValidationError(req).value)
      ensures ValidationError(req).None? && save.SaveFailed? ==>
                resp == ErrorReply("Upload failed: " + save.message)
      ensures ValidationError(req).None? && save.Saved? && PredictTumor(model).PredictionFailed? ==>
                resp == ErrorReply(PredictTumor(model).error)
      ensures resp.ResultReply? <==>
                ValidationError(req).None? && save.Saved? && PredictTumor(model).Predicted?
      ensures !resp.ResultReply? ==> history == old(history)
      ensures resp.ResultReply? ==>
                var p := PredictTumor(model);
                var name := StoredName(uid, req.file.value);
                && resp == ResultReply(p.result, p.resultType, p.predictedClass, p.confidence,
                                       p.classProbabilities, "/static/uploads/" + name)
                && history == Some(PrependTruncated(
                                     HistoryRecord(req.file.value, name, now, p.result, p.resultType, p.confidence),
                                     old(history).GetOr([]), MaxHistoryItems))
    {
      var err := ValidationError(req);
      if err.Some? {
        return ErrorReply(err.value);
      }
      var filename := req.file.value;
      var name := StoredName(uid, filename);
      if save.SaveFailed? {
        return ErrorReply("Upload failed: " + save.message);
      }
      var prediction := PredictTumor(model);
      if prediction.Predicted? {
        AddToHistory(HistoryRecord(filename, name, now, prediction.result, prediction.resultType,
                                   prediction.confidence));
        resp := ResultReply(prediction.result, prediction.resultType, prediction.predictedClass,
                            prediction.confidence, prediction.classProbabilities, "/static/uploads/" + name);
      } else {
        resp := ErrorReply(prediction.error);
      }
    }
  }
}
