/** The request handler of `POST /process`: `process_image` in src/main.rs.
    The image library and the OCR engine are external; each stage is a
    total function here, returning `Ok` or `Err` as the library call does,
    and the handler is the decision procedure over their results. */
module ProcessImage {
  import opened Wrappers
  import TextOutput

  /** The two statuses the handler sets itself: `OkStatus` is HTTP 200
      (`HttpResponse::Ok`), `BadRequest` is HTTP 400
      (`HttpResponse::BadRequest`). */
  datatype Status = OkStatus | BadRequest

  /** An `HttpResponse` built by the handler: a status and a text body. */
  datatype HttpResponse = HttpResponse(status: Status, body: string)

  /** What one invocation of the handler comes to. `Respond` is
      `Ok(response)`; `Propagated` is an error returned through `?` (reading
      the body), which the web framework turns into its own error response;
      `Abort` is a panic raised by `expect`, which ends the request without
      a response. */
  datatype Outcome =
    | Respond(response: HttpResponse)
    | Propagated(error: Failure)
    | Abort(message: string, cause: Failure)

  /** The image library as the handler uses it. `decodePng` stands for
      `load_from_memory_with_format(.., Png)` followed by the conversion to
      an RGB height x width x 3 tensor; `toSource` is
      `ImageSource::from_tensor(.., Hwc)`. */
  datatype ImageLib<!Img, Src> = ImageLib(
    decodePng: seq<byte> -> Result<Img>,
    toSource: Img -> Result<Src>)

  /** The OCR engine's four stages. `findTextLines` cannot fail; the other
      three can. `Rect` is a word rectangle, `Line` a recognized text line. */
  datatype Engine<!Src, !Input, !Rect, Line> = Engine(
    prepareInput: Src -> Result<Input>,
    detectWords: Input -> Result<seq<Rect>>,
    findTextLines: (Input, seq<Rect>) -> seq<seq<Rect>>,
    recognizeText: (Input, seq<seq<Rect>>) -> Result<seq<Option<Line>>>)

  const LoadImageFailed: string := "Failed to load image"
  const DetectWordsFailed: string := "Failed to detect words"
  const CreateSourceFailed: string := "Failed to create image source"
  const PrepareInputFailed: string := "Failed to prepare input"
  const RecognizeTextFailed: string := "Failed to recognize text"

  /** `process_image`. `payload` is the outcome of reading the whole request
      body, `render` is `TextLine::to_string`. A 200 comes only from a run
      in which every stage succeeded and carries the formatted text; a 400
      carries one of the two short messages. */
  function ProcessImage<Img, Src, Input, Rect, Line>(
    payload: Result<seq<byte>>,
    lib: ImageLib<Img, Src>,
    engine: Engine<Src, Input, Rect, Line>,
    render: Line -> string): (r: Outcome)
    ensures r.Propagated? <==> payload.Err?
    ensures r.Respond? && r.response.status == OkStatus ==>
      payload.Ok? && Recognized(payload.value, lib, engine).Some? &&
      r.response.body == TextOutput.FormatTextOutput(Recognized(payload.value, lib, engine).value, render)
    ensures r.Respond? && r.response.status == BadRequest ==>
      r.response.body == LoadImageFailed || r.response.body == DetectWordsFailed
    ensures r.Abort? ==>
      r.message in [CreateSourceFailed, PrepareInputFailed, RecognizeTextFailed]
  {
    match payload
    case Err(e) => Propagated(e)
    case Ok(bytes) =>
      match lib.decodePng(bytes)
      case Err(_) => Respond(HttpResponse(BadRequest, LoadImageFailed))
      case Ok(colorImg) =>
        match lib.toSource(colorImg)
        case Err(e) => Abort(CreateSourceFailed, e)
        case Ok(source) =>
          match engine.prepareInput(source)
          case Err(e) => Abort(PrepareInputFailed, e)
          case Ok(ocrInput) =>
            match engine.detectWords(ocrInput)
            case Err(_) => Respond(HttpResponse(BadRequest, DetectWordsFailed))
            case Ok(wordRects) =>
              var lineRects := engine.findTextLines(ocrInput, wordRects);
              match engine.recognizeText(ocrInput, lineRects)
              case Err(e) => Abort(RecognizeTextFailed, e)
              case Ok(lineTexts) =>
                Respond(HttpResponse(OkStatus, TextOutput.FormatTextOutput(lineTexts, render)))
  }

  /** The recognition results a fully successful pipeline produces for
      `bytes`, or `None` when some stage fails: the reference run that the
      success case is checked against. */
  function Recognized<Img, Src, Input, Rect, Line>(
    bytes: seq<byte>,
    lib: ImageLib<Img, Src>,
    engine: Engine<Src, Input, Rect, Line>): (lines: Option<seq<Option<Line>>>)
    ensures lines.Some? ==> lib.decodePng(bytes).Ok?
  {
    if lib.decodePng(bytes).Err? then None
    else if lib.toSource(lib.decodePng(bytes).value).Err? then None
    else
      var source := lib.toSource(lib.decodePng(bytes).value).value;
      if engine.prepareInput(source).Err? then None
      else
        var input := engine.prepareInput(source).value;
        if engine.detectWords(input).Err? then None
        else
          var texts := engine.recognizeText(input, engine.findTextLines(input, engine.detectWords(input).value));
          if texts.Err? then None else Some(texts.value)
  }

  /** The image decodes and converts, the input is prepared, and word
      detection then fails. */
  predicate DetectFails<Img, Src, Input, Rect, Line>(
    bytes: seq<byte>, lib: ImageLib<Img, Src>, engine: Engine<Src, Input, Rect, Line>)
  {
    && lib.decodePng(bytes).Ok?
    && lib.toSource(lib.decodePng(bytes).value).Ok?
    && engine.prepareInput(lib.toSource(lib.decodePng(bytes).value).value).Ok?
    && engine.detectWords(engine.prepareInput(lib.toSource(lib.decodePng(bytes).value).value).value).Err?
  }

  // ---------------------------------------------------------------------
  // The outcome of each stage.

  /** A body that does not decode as PNG gets 400 "Failed to load image",
      and nothing else does. */
  lemma DecodeFailureIsBadRequest<Img, Src, Input, Rect, Line>(
    bytes: seq<byte>, lib: ImageLib<Img, Src>,
    engine: Engine<Src, Input, Rect, Line>, render: Line -> string)
    ensures ProcessImage(Ok(bytes), lib, engine, render) == Respond(HttpResponse(BadRequest, LoadImageFailed))
      <==> lib.decodePng(bytes).Err?
  {
  }

  /** A failed decode never consults the engine, nor `from_tensor`: the
      outcome is the same whatever they would do. */
  lemma DecodeFailureSkipsEngine<Img, Src, Input, Rect, Line>(
    bytes: seq<byte>, lib: ImageLib<Img, Src>, toSource': Img -> Result<Src>,
    engine: Engine<Src, Input, Rect, Line>, engine': Engine<Src, Input, Rect, Line>,
    render: Line -> string)
    requires lib.decodePng(bytes).Err?
    ensures ProcessImage(Ok(bytes), lib, engine, render)
      == ProcessImage(Ok(bytes), lib.(toSource := toSource'), engine', render)
  {
  }

  /** Once the image decodes, a failure of word detection gets 400
      "Failed to detect words", and nothing else does. */
  lemma DetectFailureIsBadRequest<Img, Src, Input, Rect, Line>(
    bytes: seq<byte>, lib: ImageLib<Img, Src>,
    engine: Engine<Src, Input, Rect, Line>, render: Line -> string)
    ensures ProcessImage(Ok(bytes), lib, engine, render) == Respond(HttpResponse(BadRequest, DetectWordsFailed))
      <==> DetectFails(bytes, lib, engine)
  {
  }

  /** A failed word detection performs neither line finding nor
      recognition: the outcome does not depend on them. */
  lemma DetectFailureSkipsRecognition<Img, Src, Input, Rect, Line>(
    bytes: seq<byte>, lib: ImageLib<Img, Src>, engine: Engine<Src, Input, Rect, Line>,
    findTextLines': (Input, seq<Rect>) -> seq<seq<Rect>>,
    recognizeText': (Input, seq<seq<Rect>>) -> Result<seq<Option<Line>>>,
    render: Line -> string)
    requires ProcessImage(Ok(bytes), lib, engine, render) == Respond(HttpResponse(BadRequest, DetectWordsFailed))
    ensures ProcessImage(Ok(bytes), lib, engine, render)
      == ProcessImage(Ok(bytes), lib, engine.(findTextLines := findTextLines', recognizeText := recognizeText'), render)
  {
    DetectFailureIsBadRequest(bytes, lib, engine, render);
  }

  /** The handler answers 200 exactly when every stage succeeds, and then
      the body is the formatted recognition result. */
  lemma SuccessIsFormattedText<Img, Src, Input, Rect, Line>(
    bytes: seq<byte>, lib: ImageLib<Img, Src>,
    engine: Engine<Src, Input, Rect, Line>, render: Line -> string)
    ensures var r := ProcessImage(Ok(bytes), lib, engine, render);
      (r.Respond? && r.response.status == OkStatus) <==> Recognized(bytes, lib, engine).Some?
    ensures var r := ProcessImage(Ok(bytes), lib, engine, render);
      Recognized(bytes, lib, engine).Some? ==>
        r == Respond(HttpResponse(OkStatus,
          TextOutput.FormatTextOutput(Recognized(bytes, lib, engine).value, render)))
  {
  }

  /** A failure of `from_tensor`, input preparation or recognition aborts
      the request, with the message of the `expect` at that stage and the
      library's error as the cause. */
  lemma InternalFailureAborts<Img, Src, Input, Rect, Line>(
    bytes: seq<byte>, lib: ImageLib<Img, Src>,
    engine: Engine<Src, Input, Rect, Line>, render: Line -> string)
    requires lib.decodePng(bytes).Ok?
    ensures var img := lib.decodePng(bytes).value;
      lib.toSource(img).Err? ==>
        ProcessImage(Ok(bytes), lib, engine, render) == Abort(CreateSourceFailed, lib.toSource(img).error)
    ensures var img := lib.decodePng(bytes).value;
      lib.toSource(img).Ok? && engine.prepareInput(lib.toSource(img).value).Err? ==>
        ProcessImage(Ok(bytes), lib, engine, render)
          == Abort(PrepareInputFailed, engine.prepareInput(lib.toSource(img).value).error)
    ensures var img := lib.decodePng(bytes).value;
      lib.toSource(img).Ok? && engine.prepareInput(lib.toSource(img).value).Ok? ==>
        var input := engine.prepareInput(lib.toSource(img).value).value;
        engine.detectWords(input).Ok? ==>
          var texts := engine.recognizeText(input, engine.findTextLines(input, engine.detectWords(input).value));
          texts.Err? ==>
            ProcessImage(Ok(bytes), lib, engine, render) == Abort(RecognizeTextFailed, texts.error)
  {
  }

  /** Every readable request ends in exactly one of: a 400 (the body does
      not decode, or word detection fails), a 200 (every stage succeeds),
      or an abort (decoding and detection do not fail, but `from_tensor`,
      input preparation or recognition does). Each outcome is given by the
      stage results alone. */
  lemma OutcomesAreExhaustive<Img, Src, Input, Rect, Line>(
    bytes: seq<byte>, lib: ImageLib<Img, Src>,
    engine: Engine<Src, Input, Rect, Line>, render: Line -> string)
    ensures var r := ProcessImage(Ok(bytes), lib, engine, render);
      (r.Respond? && r.response.status == BadRequest) <==>
        (lib.decodePng(bytes).Err? || DetectFails(bytes, lib, engine))
    ensures var r := ProcessImage(Ok(bytes), lib, engine, render);
      (r.Respond? && r.response.status == OkStatus) <==> Recognized(bytes, lib, engine).Some?
    ensures var r := ProcessImage(Ok(bytes), lib, engine, render);
      r.Abort? <==>
        (lib.decodePng(bytes).Ok?
         && !DetectFails(bytes, lib, engine)
         && Recognized(bytes, lib, engine).None?)
  {
  }

  /** A 200 with an empty body means no line was recognized, or the single
      recognized line renders as the empty string. */
  lemma EmptyBodyMeansNoText<Img, Src, Input, Rect, Line>(
    bytes: seq<byte>, lib: ImageLib<Img, Src>,
    engine: Engine<Src, Input, Rect, Line>, render: Line -> string)
    requires Recognized(bytes, lib, engine).Some?
    ensures var flat := TextOutput.Flatten(Recognized(bytes, lib, engine).value);
      (ProcessImage(Ok(bytes), lib, engine, render) == Respond(HttpResponse(OkStatus, ""))
       <==> |flat| == 0 || (|flat| == 1 && render(flat[0]) == ""))
  {
    SuccessIsFormattedText(bytes, lib, engine, render);
    TextOutput.FormatEmpty(Recognized(bytes, lib, engine).value, render);
  }
}
