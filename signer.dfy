/**
 * The signer service: the `sign` handler, the `MyError` error type and the
 * `error_handler` middleware that intercepts every failure before the
 * framework renders it.
 *
 * The verifier (`Checker` of the `ata42` crate) is a function parameter, so is
 * the backtrace `Backtrace::capture` returns at each of its two call sites, and
 * the `println!` calls of the middleware are a returned list of log lines.
 */
module Signer {
  import opened Wrappers
  import Base64
  import Structs

  type Bytes = seq<Base64.Byte>

  // ---------------------------------------------------------------------------
  // HTTP responses

  datatype ContentType = Unspecified | TextHtml | ApplicationJson

  datatype Response = Response(status: nat, contentType: ContentType, body: string)

  const StatusOk: nat := 200
  const StatusBadRequest: nat := 400
  const StatusNotFound: nat := 404

  /** The page that replaces the framework's response to an unmatched route. */
  const NotFoundPage: Response := Response(StatusNotFound, TextHtml, "<h1>404 Not Found</h1>")

  /** `Json(SignedData)`: status 200 and the record serialised as JSON. */
  function JsonResponse(d: Structs.SignedData): Response {
    Response(StatusOk, ApplicationJson, "{\"signature\":\"" + d.signature.text + "\"}")
  }

  // ---------------------------------------------------------------------------
  // MyError

  /** A captured thread backtrace; the model does not look inside it. */
  datatype Backtrace = Backtrace(frames: seq<string>)

  /** The two places in `sign` that call `Backtrace::capture`. */
  datatype CaptureSite = InvalidBranch | UndecidedBranch

  /** What `Backtrace::capture` returns at each site; it depends on the environment. */
  type Capture = CaptureSite -> Backtrace

  datatype MyError = MyError(backtrace: Backtrace)

  /** `Display for MyError`. */
  function DisplayMyError(e: MyError): string {
    "custom error"
  }

  /** `Debug for MyError`: an empty struct named MyError. */
  function DebugMyError(e: MyError): string {
    "MyError"
  }

  /** `Service for MyError`: a bare 400 response. */
  function RenderMyError(e: MyError): Response {
    Response(StatusBadRequest, Unspecified, "")
  }

  /**
   * Whatever backtrace it carries, a MyError renders as a bare 400 and formats
   * to the same fixed text: nothing of the backtrace reaches the client.
   */
  lemma MyErrorIsBare(e: MyError, e': MyError)
    ensures RenderMyError(e) == Response(StatusBadRequest, Unspecified, "")
    ensures DisplayMyError(e) == "custom error" && DebugMyError(e) == "MyError"
    ensures RenderMyError(e) == RenderMyError(e') && DisplayMyError(e) == DisplayMyError(e')
  {
  }

  // ---------------------------------------------------------------------------
  // The sign handler

  /** The verifier: Some(true) valid, Some(false) invalid, None undecided. */
  type Checker = (Bytes, Bytes) -> Option<bool>

  datatype Outcome = Valid | Invalid | Indeterminate

  /** Reading of the verifier's three-valued answer. */
  function OutcomeOf(answer: Option<bool>): Outcome {
    match answer
    case Some(true) => Valid
    case Some(false) => Invalid
    case None => Indeterminate
  }

  /** The request field whose `unwrap` failed. */
  datatype Field = DataField | SignatureField

  /** One call of the verifier, with its arguments in order. */
  datatype Invocation = Invocation(data: Bytes, signature: Bytes)

  /** How the handler ends: it returns a result, or an `unwrap` panics. */
  datatype HandlerExit = Returned(result: Result<Structs.SignedData, MyError>) | Panicked(at: Field)

  /** The verifier calls a handler run made, and how it ended. */
  datatype SignRun = SignRun(calls: seq<Invocation>, exit: HandlerExit)

  /**
   * `sign`: decode both fields (panicking on the first that fails, data
   * first), call the verifier once, and map its answer to a result. A valid
   * signature yields `SignedData::new()`; an invalid or undecided one yields
   * a MyError carrying the backtrace captured in its own branch.
   */
  function Sign(checker: Checker, capture: Capture, payload: Structs.TimestampedData): (run: SignRun)
    ensures |run.calls| <= 1
    ensures run.exit.Panicked? <==> run.calls == []
    ensures run.exit.Returned? <==> Structs.ToVec(payload.data).Some? && Structs.ToVec(payload.signature).Some?
    ensures run.exit.Returned? ==>
              Base64.Encode(run.calls[0].data) == payload.data.text &&
              Base64.Encode(run.calls[0].signature) == payload.signature.text
    ensures run.exit.Returned? ==>
              (run.exit.result.Ok? <==> OutcomeOf(checker(run.calls[0].data, run.calls[0].signature)) == Valid)
  {
    match Structs.ToVec(payload.data)
    case None => SignRun([], Panicked(DataField))
    case Some(data) =>
      match Structs.ToVec(payload.signature)
      case None => SignRun([], Panicked(SignatureField))
      case Some(signature) =>
        var result :=
          match checker(data, signature)
          case Some(true) => Ok(Structs.NewSignedData())
          case Some(false) => Err(MyError(capture(InvalidBranch)))
          case None => Err(MyError(capture(UndecidedBranch)));
        SignRun([Invocation(data, signature)], Returned(result))
  }

  /** A valid signature yields `SignedData::new()`, whatever the payload. */
  lemma SignValid(checker: Checker, capture: Capture, payload: Structs.TimestampedData, data: Bytes, signature: Bytes)
    requires Structs.ToVec(payload.data) == Some(data) && Structs.ToVec(payload.signature) == Some(signature)
    requires OutcomeOf(checker(data, signature)) == Valid
    ensures Sign(checker, capture, payload) == SignRun([Invocation(data, signature)], Returned(Ok(Structs.NewSignedData())))
    ensures Structs.ToVec(Structs.NewSignedData().signature) == Some([1, 2, 3])
  {
  }

  /** The site whose backtrace a rejected answer's MyError carries. */
  function SiteOf(answer: Option<bool>): CaptureSite {
    if answer == Some(false) then InvalidBranch else UndecidedBranch
  }

  /** An invalid or undecided signature yields a MyError, after one verifier call. */
  lemma SignRejected(checker: Checker, capture: Capture, payload: Structs.TimestampedData, data: Bytes, signature: Bytes)
    requires Structs.ToVec(payload.data) == Some(data) && Structs.ToVec(payload.signature) == Some(signature)
    requires OutcomeOf(checker(data, signature)) != Valid
    ensures Sign(checker, capture, payload) ==
              SignRun([Invocation(data, signature)], Returned(Err(MyError(capture(SiteOf(checker(data, signature)))))))
  {
  }

  /**
   * Invalid and undecided answers cannot be told apart by the client: two
   * verifiers that differ only in that respect make the same calls and give
   * MyErrors that render and format alike. Only the backtraces may differ,
   * and when the two sites capture the same backtrace the runs are identical.
   */
  lemma InvalidLooksIndeterminate(invalid: Checker, undecided: Checker, capture: Capture, payload: Structs.TimestampedData)
    requires forall d: Bytes, s: Bytes :: OutcomeOf(invalid(d, s)) == Invalid && OutcomeOf(undecided(d, s)) == Indeterminate
    ensures var r, r' := Sign(invalid, capture, payload), Sign(undecided, capture, payload);
            r.calls == r'.calls && r.exit.Returned? == r'.exit.Returned? &&
            (r.exit.Returned? ==>
               r.exit.result.Err? && r'.exit.result.Err? &&
               RenderMyError(r.exit.result.error) == RenderMyError(r'.exit.result.error) &&
               DisplayMyError(r.exit.result.error) == DisplayMyError(r'.exit.result.error) &&
               DebugMyError(r.exit.result.error) == DebugMyError(r'.exit.result.error))
    ensures capture(InvalidBranch) == capture(UndecidedBranch) ==>
              Sign(invalid, capture, payload) == Sign(undecided, capture, payload)
  {
  }

  /** A field that does not decode panics before the verifier is called. */
  lemma SignMalformed(checker: Checker, capture: Capture, payload: Structs.TimestampedData)
    requires Structs.ToVec(payload.data).None? || Structs.ToVec(payload.signature).None?
    ensures Sign(checker, capture, payload).calls == []
    ensures Sign(checker, capture, payload).exit ==
              Panicked(if Structs.ToVec(payload.data).None? then DataField else SignatureField)
  {
  }

  // ---------------------------------------------------------------------------
  // Errors reaching the middleware

  /**
   * The framework error value `Error<C>`, by what it wraps: a MyError, the
   * framework's route-match failure, or any other framework error. The last
   * two carry the response their own renderer produces.
   */
  datatype WebError =
    | Custom(cause: MyError)
    | RouteMiss(builtin: Response)
    | Framework(builtin: Response)

  /** `Service for Error<C>`: an error's own renderer. */
  function RenderError(e: WebError): Response {
    match e
    case Custom(m) => RenderMyError(m)
    case RouteMiss(r) => r
    case Framework(r) => r
  }

  /** What the framework sends for the result of its outermost service. */
  function Respond(result: Result<Response, WebError>): Response {
    match result
    case Ok(r) => r
    case Err(e) => RenderError(e)
  }

  /** A line the middleware prints: Debug and Display formats, and the error report. */
  datatype LogLine = DebugLine(err: WebError) | DisplayLine(err: WebError) | ReportLine(err: WebError)

  /**
   * The text a printed line shows, where the model knows it: the Debug and
   * Display forms of a MyError. The framework's own formatters and the
   * error report are not modelled.
   */
  function LineText(line: LogLine): Option<string> {
    match line
    case DebugLine(Custom(m)) => Some(DebugMyError(m))
    case DisplayLine(Custom(m)) => Some(DisplayMyError(m))
    case _ => None
  }

  datatype Handled = Handled(result: Result<Response, WebError>, log: seq<LogLine>)

  /**
   * `error_handler`: success passes through; an error is printed in Debug and
   * Display form; a route-match failure becomes the HTML 404 page; any other
   * error is reported and returned as it came.
   */
  function ErrorHandler(inner: Result<Response, WebError>): (h: Handled)
    ensures !(h.result.Err? && h.result.error.RouteMiss?)
    ensures h.log == [] <==> inner.Ok?
    ensures inner.Err? ==> |h.log| >= 2 && h.log[..2] == [DebugLine(inner.error), DisplayLine(inner.error)]
  {
    match inner
    case Ok(res) => Handled(Ok(res), [])
    case Err(e) =>
      var printed := [DebugLine(e), DisplayLine(e)];
      if e.RouteMiss? then Handled(Ok(NotFoundPage), printed)
      else Handled(Err(e), printed + [ReportLine(e)])
  }

  /** A successful response passes through untouched and unlogged. */
  lemma SuccessPassesThrough(res: Response)
    ensures ErrorHandler(Ok(res)) == Handled(Ok(res), [])
  {
  }

  /** A route miss becomes the HTML 404 page, whatever the framework would have sent. */
  lemma RouteMissBecomesNotFound(builtin: Response)
    ensures ErrorHandler(Err(RouteMiss(builtin))).result == Ok(NotFoundPage)
    ensures Respond(ErrorHandler(Err(RouteMiss(builtin))).result) == Response(404, TextHtml, "<h1>404 Not Found</h1>")
  {
  }

  /** Any other error comes back as the same value, and renders as it would have. */
  lemma OtherErrorsUnchanged(e: WebError)
    requires !e.RouteMiss?
    ensures ErrorHandler(Err(e)).result == Err(e)
    ensures Respond(ErrorHandler(Err(e)).result) == RenderError(e)
    ensures ErrorHandler(Err(e)).log == [DebugLine(e), DisplayLine(e), ReportLine(e)]
  {
  }

  /** A MyError is printed as "MyError" and then as "custom error", whatever its backtrace. */
  lemma MyErrorPrintedText(m: MyError)
    ensures var log := ErrorHandler(Err(Custom(m))).log;
            |log| == 3 && LineText(log[0]) == Some("MyError") && LineText(log[1]) == Some("custom error") &&
            log[2] == ReportLine(Custom(m))
  {
  }

  /** A MyError passing through the middleware reaches the client as a bare 400. */
  lemma MyErrorRendersBadRequest(m: MyError)
    ensures Respond(ErrorHandler(Err(Custom(m))).result) == Response(400, Unspecified, "")
  {
    OtherErrorsUnchanged(Custom(m));
  }

  /** The middleware changes the final response only for a route miss. */
  lemma HandlerTransparentExceptRouteMiss(inner: Result<Response, WebError>)
    requires !(inner.Err? && inner.error.RouteMiss?)
    ensures Respond(ErrorHandler(inner).result) == Respond(inner)
  {
  }

  // ---------------------------------------------------------------------------
  // The application: one route enclosed by the middleware

  /**
   * A request as it reaches the application: a POST to /sign with its JSON
   * body extracted, a request no route matches, or one the framework refused
   * before the handler ran; the last two carry the framework's own response.
   */
  datatype Inbound = PostSign(payload: Structs.TimestampedData) | Unrouted(builtin: Response) | Refused(builtin: Response)

  /** The verifier calls made, and either the response sent and the lines printed, or the panic. */
  datatype Exchange =
    | Answered(calls: seq<Invocation>, response: Response, log: seq<LogLine>)
    | Aborted(calls: seq<Invocation>, at: Field)

  function Finish(calls: seq<Invocation>, inner: Result<Response, WebError>): Exchange {
    var h := ErrorHandler(inner);
    Answered(calls, Respond(h.result), h.log)
  }

  /** One request through the route table enclosed by `error_handler`. */
  function Serve(checker: Checker, capture: Capture, req: Inbound): (x: Exchange)
    ensures !req.PostSign? ==> x.Answered? && x.calls == []
    ensures x.Aborted? ==> x.calls == []
    ensures req.PostSign? && x.Answered? ==>
              |x.calls| == 1 &&
              (x.response == JsonResponse(Structs.NewSignedData()) <==> OutcomeOf(checker(x.calls[0].data, x.calls[0].signature)) == Valid)
  {
    match req
    case Unrouted(builtin) => Finish([], Err(RouteMiss(builtin)))
    case Refused(builtin) => Finish([], Err(Framework(builtin)))
    case PostSign(payload) =>
      var run := Sign(checker, capture, payload);
      match run.exit
      case Panicked(field) => Aborted([], field)
      case Returned(Ok(d)) => Finish(run.calls, Ok(JsonResponse(d)))
      case Returned(Err(m)) => Finish(run.calls, Err(Custom(m)))
  }

  /** A valid signature: 200 with the JSON record holding "AQID", nothing printed. */
  lemma ServeValid(checker: Checker, capture: Capture, payload: Structs.TimestampedData, data: Bytes, signature: Bytes)
    requires Structs.ToVec(payload.data) == Some(data) && Structs.ToVec(payload.signature) == Some(signature)
    requires OutcomeOf(checker(data, signature)) == Valid
    ensures Serve(checker, capture, PostSign(payload)) ==
              Answered([Invocation(data, signature)], Response(200, ApplicationJson, "{\"signature\":\"AQID\"}"), [])
  {
    SignValid(checker, capture, payload, data, signature);
  }

  /** An invalid or undecided signature: a bare 400, the MyError printed three times. */
  lemma ServeRejected(checker: Checker, capture: Capture, payload: Structs.TimestampedData, data: Bytes, signature: Bytes)
    requires Structs.ToVec(payload.data) == Some(data) && Structs.ToVec(payload.signature) == Some(signature)
    requires OutcomeOf(checker(data, signature)) != Valid
    ensures var e := Custom(MyError(capture(SiteOf(checker(data, signature)))));
            Serve(checker, capture, PostSign(payload)) ==
              Answered([Invocation(data, signature)], Response(400, Unspecified, ""), [DebugLine(e), DisplayLine(e), ReportLine(e)])
  {
    SignRejected(checker, capture, payload, data, signature);
  }

  /** An unmatched route: the HTML 404 page, the verifier never called. */
  lemma ServeUnrouted(checker: Checker, capture: Capture, builtin: Response)
    ensures var e := RouteMiss(builtin);
            Serve(checker, capture, Unrouted(builtin)) == Answered([], NotFoundPage, [DebugLine(e), DisplayLine(e)])
  {
  }

  /** A field that does not decode: the handler panics and no response is produced by it. */
  lemma ServeMalformed(checker: Checker, capture: Capture, payload: Structs.TimestampedData)
    requires Structs.ToVec(payload.data).None? || Structs.ToVec(payload.signature).None?
    ensures Serve(checker, capture, PostSign(payload)).Aborted?
    ensures Serve(checker, capture, PostSign(payload)).calls == []
  {
    SignMalformed(checker, capture, payload);
  }

  /** The request {"data":"AQID","signature":"AQID"} against a verifier accepting it. */
  lemma ExampleAccepted(checker: Checker, capture: Capture)
    requires checker([1, 2, 3], [1, 2, 3]) == Some(true)
    ensures Serve(checker, capture, PostSign(Structs.NewTimestampedData())) ==
              Answered([Invocation([1, 2, 3], [1, 2, 3])], Response(200, ApplicationJson, "{\"signature\":\"AQID\"}"), [])
  {
    var payload := Structs.NewTimestampedData();
    ServeValid(checker, capture, payload, [1, 2, 3], [1, 2, 3]);
  }

  /** The request {"data":"not-base64!!","signature":"AQID"}: a panic, the verifier never called. */
  lemma ExampleNotBase64(checker: Checker, capture: Capture)
    ensures var payload := Structs.TimestampedData(Structs.StringBytes("not-base64!!"), Structs.StringBytes("AQID"));
            Serve(checker, capture, PostSign(payload)) == Aborted([], DataField)
  {
    var text := "not-base64!!";
    assert text[10] == '!';
    Base64.ForeignCharRejected(text, 10);
  }
}
