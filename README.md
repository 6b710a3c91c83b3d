# Brain-MRI tumour detection page: session controller and server request logic

This project models the logic of a small web application that classifies brain
MRI images. A user selects or drops an image on the page. The page checks the
image's MIME type and size, uploads it to the server, and shows the returned
diagnosis: a result text, a healthy/tumour badge and a probability bar per
class. It also keeps a list of recent results. The server checks the file
extension, stores the file, runs the classifier, maps the predicted class to a
result, and keeps a bounded per-session history.

Modules (one file each):

- `Wrappers` (`wrappers.dfy`): `Option`, standing for JavaScript `null` and for a missing session key.
- `Text` (`text.dfy`): ASCII case mapping, substring search, last index of a character, decimal rendering.
- `History` (`history.dfy`): the two most-recent-first history policies. The server inserts at the head and truncates to 10. The page inserts at the head and evicts at most one tail item.
- `Timestamp` (`timestamp.dfy`): the page's history timestamp, with 12-hour clock and padded minutes.
- `Presenter` (`presenter.dfy`): display labels, badge style, the stable descending sort of probabilities, the probability bars and the tumour subtype.
- `Client` (`client.dfy`): class `Session`, which is the page's `appState` (`selectedFile`, `isUploading`, `currentResult`) plus the history list shown on the page, with one method per event.
- `Server` (`server.dfy`): `allowed_file`, title casing, the class-to-result mapping, `predict_tumor` after the model call, upload validation, and class `SessionStore` with the session history and the upload route.
- `Agreement` (`agreement.dfy`): lemmas linking the two sides. The page reads every server result text back as its own class, and the server's title-cased names are the page's labels.
- `Scenarios` (`scenarios.dfy`): event sequences checked against the session contracts.

The upload is asynchronous, with one suspension point at the network request.
`Session.UploadFile` is the synchronous part of `uploadFile`, up to the request.
`Session.ReceiveUploadReply` is the continuation, including the `finally`
block. Any other event can be handled between the two. The network reply is a
parameter: `Success(data) | ServerRejected(error) | NetworkFailure`.

In several places the code behaves differently from what a reader might
expect, and the model follows the code:

- After a failed upload the page calls `resetUpload` while `isUploading` is still true. That reset is refused, so the selected file and the current result are kept. The last toast the user sees is "Cannot reset while uploading. Please wait...". One might expect a failed upload to return to the idle state.
- `showHistoryItem` does not change `currentResult` or any other application state. One might expect viewing history to replace the current result.
- `scanAnother` clears the state even while an upload is in flight. Unlike `resetUpload`, it has no upload guard. If the upload then succeeds, its history item is named "Recent scan".
- `processFile` and `handleAnalyzeClick` have no phase guard. A second analyze while uploading is dropped by the `isUploading` check in `uploadFile`.
- A history item can only be clicked if it exists, so `HandleHistoryItemClick` requires a valid index. There is no "not found" path.
- Probabilities and confidences are integers, for example tenths of a percent.

## Model

| member | source | states |
|---|---|---|
| `Client.CheckFile` | static/js/script.js:148-159 | a type outside the allow-list is `InvalidType` whatever the size; an allowed type is `TooLarge` exactly when the size is over 10 MiB; a file is accepted iff its type is allowed and its size is at most 10 MiB |
| `Client.Session.constructor` | static/js/script.js:9-14 | the page starts with no file, no upload and no result, showing the history rendered by the server |
| `Client.Session.ProcessFile` | static/js/script.js:148-163 | an accepted file becomes `selectedFile` with no toast; a rejected one leaves `selectedFile`, `isUploading` and `currentResult` unchanged and toasts the reason for the first failing check |
| `Client.Session.ClearState` | static/js/script.js:191-193 | afterwards neither a selected file nor a current result |
| `Client.Session.ResetUpload` | static/js/script.js:180-189 | while uploading: nothing changes, no `/reset` request, "please wait" toast; otherwise file and result are cleared and `/reset` is sent |
| `Client.Session.UploadFile` | static/js/script.js:239-246 | starts only if no upload is in flight; afterwards the token `isUploading` is set |
| `Client.Session.HandleAnalyzeClick` | static/js/script.js:233-237 | an upload starts iff a file is selected and none is in flight |
| `Client.Session.DisplayResults` | static/js/script.js:274-305 | the reply becomes `currentResult`; the view shows its image, text and confidence, the badge for its type, and one bar per class, position by position the bar of the stably sorted entries, so non-increasing with ties in reply order |
| `Client.Session.UpdateHistory` | static/js/script.js:366-383 | nothing without a current result; otherwise the new item is at the head, older items keep their order, at most one tail item is evicted, and the list stays within 10 |
| `Client.Session.ReceiveUploadReply` | static/js/script.js:248-271 | the token is released after every outcome; on success the result is current and recorded; on failure the refused inner reset leaves file, result and history as they were, and the toasts are the error then "please wait" |
| `Client.Session.ScanAnother` | static/js/script.js:494-514 | clears file and result with no upload guard, toasting "Ready for new scan" |
| `Client.Session.HandleHistoryItemClick` | static/js/script.js:460-492 | shows the stored item's image, text, type and confidence and toasts its file name, changing no state and not the history |
| `Client.Session.HandleKeyboardShortcuts` | static/js/script.js:560-573 | Escape resets iff a file is selected and nothing is uploading, otherwise nothing changes; Ctrl/Cmd+O opens the picker iff no file is selected |
| `Client.FailureToast` | static/js/script.js:260-266 | failures give an error toast carrying the server's message when it is non-empty |
| `Client.HistoryFilename` | static/js/script.js:389 | the selected file's name, or "Recent scan" when there is no file or its name is empty |
| `Client.CreateHistoryItem` | static/js/script.js:385-412 | the item carries the result, its status is "No Tumor" iff the result is healthy, and a subtype appears only on a "Tumor Detected" item |
| `Presenter.DisplayName` | static/js/script.js:351-352 | `notumor` becomes "No Tumor"; any other key keeps its length and tail, with only its first character upper-cased |
| `Presenter.DisplayNameKeepsSpelling` | static/js/script.js:351-352 | apart from `notumor`, a label equals its key up to letter case |
| `Presenter.BadgeStyle` | static/js/script.js:307-317 | the success style exactly when the type is "healthy"; every other value falls back to the tumour style |
| `Presenter.SortDescending` | static/js/script.js:325 | the sorted entries are in non-increasing order of value and are a permutation of the input |
| `Presenter.SortIsStable` | static/js/script.js:325 | entries with equal values keep their input order |
| `Presenter.ItemFor` | static/js/script.js:347-363 | a bar carries its entry's value; its label is "No Tumor" for `notumor` and otherwise spells the key up to letter case |
| `Presenter.CreateProbabilityBars` | static/js/script.js:319-334 | one bar per entry, in sorted order, non-increasing, every input entry shown with its label |
| `Presenter.TumorSubtype` | static/js/script.js:395-412 | none for healthy results; otherwise a name that occurs case-insensitively in the text, with no earlier name in pituitary, glioma, meningioma order occurring; none only when no name occurs |
| `Presenter.FirstNamedIsShown` | static/js/script.js:402-411 | conversely, the first subtype named in a tumour text is the one shown |
| `Timestamp.TwelveHour` | static/js/script.js:449-454 | the hour shown is between 1 and 12 and agrees with the hour of the day modulo 12 |
| `Timestamp.TwelveHourRoundTrip` | static/js/script.js:449-454 | the 12-hour reading and AM/PM together give back the hour of the day |
| `Timestamp.PadMinutes` | static/js/script.js:450 | minutes are always two digits and read back as the minutes |
| `Timestamp.FormatTimestamp` | static/js/script.js:440-458 | the text starts with the weekday name and ends with AM or PM matching the hour |
| `Text.Decimal` | static/js/script.js:450 | a number's decimal text is non-empty digits without a leading zero and reads back as the number |
| `History.PrependEvictOne` | static/js/script.js:375-382 | the new item first and the older ones after it in order; the length grows by one unless that would exceed 10, so a list of at most 10 stays within 10 |
| `History.PrependTruncated` | app.py:54-59 | the new item at index 0, item `i+1` is old item `i`, and the length is `min(old+1, 10)` |
| `History.PoliciesAgreeWithinCapacity` | app.py:57-58 | for a history within capacity the page's and the server's insertion give the same list |
| `History.RecordAllKeepsMostRecent` | app.py:54-59 | recording items in turn keeps the newest ten, most recent first, followed by the remaining old entries |
| `History.ElevenRecordingsKeepTen` | app.py:54-59 | eleven recordings into an empty history leave exactly the ten most recent, newest first |
| `Server.Extension` | app.py:131 | none iff the name has no dot; otherwise the lower-cased text after the last dot |
| `Server.AllowedFile` | app.py:42-44 | true iff the name has a dot and the lower-cased text after its last dot is one of png, jpg, jpeg, gif, bmp, tiff |
| `Server.ExtensionAtLastDot` | app.py:44 | any dot with no dot after it is where `rsplit` splits |
| `Server.TitleCase` | app.py:88 | `str.title()`: a letter after a letter is lower-cased, other letters upper-cased, other characters kept |
| `Server.TitleOfLowerWord` | app.py:88 | a lower-case word is title-cased by upper-casing its first letter only |
| `Server.ClassifyResult` | app.py:83-89 | `notumor` gives ("No Tumor Detected", "healthy"); any other class gives "Tumor Detected: " plus the title-cased class, typed "tumor" |
| `Server.PredictTumor` | app.py:62-101 | a model error gives "Prediction failed: " plus its message; an inference gives the indexed label, its result mapping, and one probability per label in label order |
| `Server.ValidationError` | app.py:114-127 | missing field, then empty name (both "No file selected"), then disallowed extension; passing validation guarantees the extension split at line 131 succeeds |
| `Server.StoredName` | app.py:131-132 | the stored name is the generated prefix, a dot, and exactly the lower-cased text after the upload's last dot, which is again its extension, whatever the prefix |
| `Server.StoredNameKeepsExtension` | app.py:131-132 | the stored name passes the same extension check as the upload |
| `Server.SessionStore.GetSessionHistory` | app.py:47-51 | a missing history becomes the empty list; an existing one is returned unchanged |
| `Server.SessionStore.AddToHistory` | app.py:54-59 | the history becomes the bounded head insertion into the existing (or empty) history |
| `Server.SessionStore.ClearHistory` | app.py:177-182 | the history becomes empty |
| `Server.SessionStore.UploadFile` | app.py:110-168 | validation errors in order and before any save; save and prediction failures reported; the history grows only on a successful prediction, recording the stored name with the lower-cased extension |
| `Agreement.SubtypeOfServerResult` | app.py:83-89 | for each of the four classes the page derives that class's subtype from the server's result text, and none for `notumor` |
| `Agreement.TitleIsDisplayName` | app.py:88 | the server's title-cased tumour class equals the page's label for it |
| `Agreement.BadgeOfPrediction` | app.py:84-89 | only a `notumor` prediction gets the success badge on the page |
| `Server.JsonOrder` | app.py:157 | `jsonify` writes the probability dictionary with its keys in ascending order, as a rearrangement of its items |
| `Agreement.ReplyOutcome` | static/js/script.js:254-261 | an error reply becomes a server rejection; a result reply becomes a success carrying its path, text, type and confidence, and every class probability as an entry, in the key order `jsonify` wrote |
| `Agreement.PageReceivesKeyOrder` | app.py:77-80 | the scores written in label order pituitary, glioma, notumor, meningioma reach the page as glioma, meningioma, notumor, pituitary, which is the order ties keep in the bars |

## Left out

- Network calls are not modelled. The `/upload` reply is a parameter of `Session.ReceiveUploadReply`. `/reset` is fire-and-forget, so it appears only as the `resetSent` flag; its failure is only logged.
- DOM work is not modelled: element caching, `toggleDisplay`, `innerHTML` templates, style assignments, drag-over classes, the progress bar and toast rendering. Toasts are returned as values. Their auto-dismiss timer and the bar animation are timer-driven presentation.
- Event wiring is not modelled: `handleFileSelect`, `handleDrop` and `handleUploadAreaClick`. They only pass the first file to `processFile`, or open the file picker when no file is selected.
- `utils.formatFileSize`, all `toFixed(1)` rendering and `utils.debounce` are left out: they use floating point or timers. `utils.formatTimestamp` is a copy of the method and is modelled once.
- JavaScript `toUpperCase`/`toLowerCase` and Python `lower`/`title` are modelled on ASCII only; other Unicode case mappings are not.
- Presenter.BadgeStyle: does not model JavaScript's inherited object properties. A result type such as "constructor" would find a non-style value.
- Client.Session.ReceiveUploadReply: does not model exceptions thrown inside the success branch, for example by a reply without `confidence`. Those would also reach the network-error handler.
- Client.Session.UpdateHistory: assumes the history container exists on the page.
- Timestamp.FormatTimestamp: its contract pins only the weekday and the meridiem. The hour and minute fields are stated by `TwelveHour` and `PadMinutes`, and the day of the month by `Decimal`.
- The classifier is abstracted: loading Keras, preprocessing the image, `argmax`/`max` and float confidence. `PredictTumor` receives the class index, confidence and scores. An inference that raises is `InferenceError` with its message, and a well-formed inference has four scores.
- File saving and removal are reduced to a `SaveOutcome` parameter. `uuid4` and `datetime.now` are parameters. `url_for` is modelled as the `/static/uploads/` prefix.
- Flask plumbing is not modelled: routing, the session cookie, the `index` and `reset` routes, and the error handlers. `wsgi.py` is only an entry point.
- Server.JsonOrder: follows Flask's default JSON provider, which sorts keys; an application that turns key sorting off would send the probabilities in label order.
- Server.SessionStore.AddToHistory: models the session list as a value. The in-place `insert` on the list that `get_session_history` returns is not modelled; the slice reassignment makes the result the same.

