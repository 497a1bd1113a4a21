# frame-ocr: the request handler and its text formatter

frame-ocr is a small HTTP service. `POST /process` takes a PNG image and
answers with the text an OCR engine finds in it, one recognized line per
row. Nearly everything in `src/main.rs` is wiring around external
libraries: the web framework, the PNG decoder, the tensor type and the OCR
engine. This project models the two pieces of logic the repository itself
owns. Both are pure functions.

- `TextOutput` (`text_output.dfy`) models `format_text_output`. The
  recognizer returns one optional text line per line region. The body keeps
  the present lines in the recognizer's order, renders each with
  `TextLine::to_string`, and joins them with `"\n"`. `Flatten`, `Rendered`
  and `Join` model the three steps of the iterator chain. `Split`, the way a
  client reads the body back row by row, is the reference the output is
  checked against. Splitting undoes joining only under two conditions:
  at least one line is present, and no line's string form holds a newline
  (`SplitJoin`, `FormatRows`). With no line present the body is "" and
  reads back as one blank row, not zero rows; `FormatEmpty` states when
  the body is empty. A line whose string form holds a newline reads back
  as several rows. In the other direction every string is the join of its
  pieces (`JoinSplit`).
- `ProcessImage` (`process_image.dfy`) models the decision procedure of
  `process_image`. The stages are abstract total functions that succeed or
  fail: PNG decoding, `ImageSource::from_tensor`, `prepare_input`,
  `detect_words`, `find_text_lines` (which cannot fail) and
  `recognize_text`. The handler maps their results to an `Outcome`. That is
  a response (200 with the formatted text, or 400 with a short message), an
  error propagated by `?` from reading the body, or an abort. An abort
  stands for a panic raised by `expect`, which ends the request without a
  response.
- `Wrappers` (`wrappers.dfy`) holds `Option`, `Result`, the library error
  `Failure` and `byte`.

The model follows the code. Besides input preparation and recognition, the
code also aborts when `ImageSource::from_tensor` fails (src/main.rs:70-71),
so the model has that third abort path. The 400 for a failed word detection
is returned before `find_text_lines` and `recognize_text` run, and the
model's lemmas state that their behaviour cannot affect that outcome.

## Model

| member | source | states |
|---|---|---|
| `TextOutput.Flatten` | src/main.rs:16-18 | flattening never lengthens the sequence: at most one output per entry |
| `TextOutput.FlattenMembers` | src/main.rs:16-18 | every output element is the value of a present entry, and every present entry's value is output |
| `TextOutput.Rendered` | src/main.rs:19 | one string per present line: same length, and element i is the string form of line i |
| `TextOutput.Join` | src/main.rs:21 | joining no parts gives the empty string |
| `TextOutput.JoinLength` | src/main.rs:21 | joining k >= 1 parts gives a string of length (sum of the parts' lengths) + (k - 1) * separator length: exactly k - 1 separators |
| `TextOutput.JoinEnds` | src/main.rs:21 | joining k >= 1 parts gives a string that starts with the first part and ends with the last: no leading or trailing separator |
| `TextOutput.FormatTextOutput` | src/main.rs:15-22 | no present line gives ""; k >= 1 present lines give the rendered lengths plus k - 1 separator characters. Its meaning is stated by `FormatSkipsAbsent`, `FormatEmpty`, `FormatSingle`, `FormatRows` and `FormatEnds` |
| `TextOutput.FlattenAppend` | src/main.rs:16-18 | flattening distributes over concatenation, so each entry's contribution stays in place and the order is kept |
| `TextOutput.FlattenUnit` | src/main.rs:18 | an absent entry contributes nothing and a present one contributes exactly its value |
| `TextOutput.FlattenAbsent` | src/main.rs:18 | a run of absent entries flattens to nothing |
| `TextOutput.FlattenPosition` | src/main.rs:16-20 | a present entry at index i is output at the position equal to the number of present entries before i: no reordering |
| `TextOutput.FlattenPrefixGrows` | src/main.rs:16-20 | a present entry before index j lands before every present entry from j on, so output order is input order |
| `TextOutput.SplitJoin` | src/main.rs:21 | for k >= 1 newline-free parts, splitting the joined string at newlines gives back exactly those parts, in order |
| `TextOutput.JoinSplit` | src/main.rs:21 | every string is the newline-join of its newline-separated pieces (the other direction of the round trip) |
| `TextOutput.JoinNewlineCount` | src/main.rs:21 | joining k >= 1 newline-free parts inserts exactly k - 1 newlines |
| `TextOutput.FormatSkipsAbsent` | src/main.rs:15-22 | inserting an absent entry anywhere leaves the output unchanged: no blank row and no extra separator |
| `TextOutput.FormatEmpty` | src/main.rs:15-22 | the output is "" exactly when no line is present, or when the only present line renders as ""; an empty or all-absent input gives "" and not "\n" |
| `TextOutput.FormatSingle` | src/main.rs:15-22 | with exactly one present line, the output is that line's string form unchanged |
| `TextOutput.FormatRows` | src/main.rs:15-22 | with k >= 1 present newline-free lines, the output reads back as exactly those k rendered lines in order and holds exactly k - 1 newlines |
| `TextOutput.FormatEnds` | src/main.rs:15-22 | with k >= 1 present lines, the output starts with the first line's string and ends with the last one's: no leading or trailing separator is added |
| `TextOutput.FormatExample` | src/main.rs:15-22 | `[Some("A"), None, Some("B")]` formats to `"A\nB"` |
| `ProcessImage.ProcessImage` | src/main.rs:47-89 | a body-read error is propagated and nothing else is; a 200 comes only from a run in which every stage succeeded, and its body is `format_text_output` of the recognition results; a 400 carries "Failed to load image" or "Failed to detect words"; an abort carries the message of one of the three `expect` calls |
| `ProcessImage.Recognized` | src/main.rs:49-85 | the recognition results of a run in which every stage succeeds, which requires the image to have decoded |
| `ProcessImage.DecodeFailureIsBadRequest` | src/main.rs:49-64 | the outcome is 400 "Failed to load image" if and only if the body does not decode as PNG |
| `ProcessImage.DecodeFailureSkipsEngine` | src/main.rs:60-67 | after a decode failure the outcome is the same whatever `from_tensor` and the engine would do, so they are never consulted |
| `ProcessImage.DetectFailureIsBadRequest` | src/main.rs:70-81 | the outcome is 400 "Failed to detect words" if and only if decoding, `from_tensor` and `prepare_input` succeed and `detect_words` fails |
| `ProcessImage.DetectFailureSkipsRecognition` | src/main.rs:75-85 | after a detection failure the outcome is the same whatever `find_text_lines` and `recognize_text` would do, so neither runs |
| `ProcessImage.SuccessIsFormattedText` | src/main.rs:82-88 | the handler answers 200 if and only if every stage succeeds, and then the body is exactly `format_text_output` of the recognition results |
| `ProcessImage.InternalFailureAborts` | src/main.rs:70-85 | a failure of `from_tensor`, `prepare_input` or `recognize_text`, once the earlier stages succeeded, aborts with that stage's `expect` message and the library's error |
| `ProcessImage.OutcomesAreExhaustive` | src/main.rs:47-89 | by the stage results alone: a 400 exactly when decoding or word detection fails, a 200 exactly when every stage succeeds, an abort exactly when neither happens (`from_tensor`, `prepare_input` or `recognize_text` fails) |
| `ProcessImage.EmptyBodyMeansNoText` | src/main.rs:83-88 | when every stage succeeds, the response is 200 with an empty body exactly when no line was recognized or the only one renders as "" |

## Left out

- The web server, routing, port binding and the asynchronous read of the request body (src/main.rs:48, 95-105). Reading the body is an input to the handler: a `Result` whose error the handler propagates.
- Loading the OCR engine once, with its two models fetched from fixed URLs (src/main.rs:24-45, 91-93). This is global initialisation and network access; `src/models.rs` is not part of this model. The engine is a parameter of the handler.
- PNG decoding, the conversion to RGB and `NdTensor::from_data` (src/main.rs:49-58). They are one abstract decode stage that succeeds or fails. The conversion cannot fail for a decoded image, so it has no failure path of its own.
- The OCR engine's stages `prepare_input`, `detect_words`, `find_text_lines` and `recognize_text` (src/main.rs:72-85). They are neural-network inference in an external library and are abstract functions here.
- `TextLine::to_string` (src/main.rs:19). It belongs to the OCR library and is the uninterpreted `render` parameter.
- The log lines written by `println!` and `eprintln!` (src/main.rs:26, 62, 78, 99). They have no effect on the response.
- Concurrent requests sharing the engine. The handler keeps no state between requests, and thread safety is the framework's and the library's concern.
- The `Debug` rendering of library errors. `Failure` keeps the error as an opaque detail string, and an abort's message is the `expect` text without the appended error.
