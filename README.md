# signer — a Dafny model of the verification endpoint

The signer is a small HTTP service with one route, `POST /sign`. The request body
carries two byte arrays, `data` and `signature`, each as URL-safe base64 text. The
`sign` handler decodes both, asks the `Checker` of the `ata42` crate whether the
signature is valid, and answers with a `SignedData` record or a `MyError`. The whole
route table is enclosed by the `error_handler` middleware. It lets successful
responses through untouched, prints every error, and turns a route-match failure into
an HTML 404 page. Every other error goes back to the framework, which renders it with
that error's own renderer; for `MyError` this is a bare 400.

The model has four modules:

- `Wrappers` (`wrappers.dfy`): `Option` and `Result`.
- `Base64` (`base64.dfy`): the padded base64 engine over the URL and filename safe
  alphabet of section 5 of RFC 4648, which the `URL_SAFE` engine of the `base64` crate
  implements. Its decoder is canonical. The text length must be a multiple of 4, `=`
  may appear only as padding of the last group, and the bits the padding drops must
  be zero. The model proves that decoding succeeds exactly on the text that encoding
  produces, and that it inverts encoding there.
- `Structs` (`structs.dfy`, after src/structs.rs): `StringBytes` with `to_vec` and `From<Vec<u8>>`,
  `TimestampedData`, `SignedData` and their fixed constructors.
- `Signer` (`signer.dfy`, after src/signer/main.rs): `MyError`, the `sign` handler, the `error_handler`
  middleware, and `Serve`, which composes them for one request.

Everything is pure: datatypes, functions and lemmas. The verifier is a function
parameter `Checker = (bytes, bytes) -> Option<bool>`. What `Backtrace::capture`
returns at each of its two call sites in `sign` is also a function parameter, and the
model does not look inside a backtrace. The middleware's `println!` output is a list of
`LogLine` tokens: Debug form, Display form and error report.

A handler run (`SignRun`) records the verifier calls it made, in order, and how it
ended: either with a result, or with a panic from an `unwrap` on a field that did not
decode. On such a panic the model ends the request as `Aborted` and produces no
response. An invalid answer (`Some(false)`) and an undecided one (`None`) both give a
`MyError`. The two differ only in the backtrace each branch captures, which reaches
the printed error report but not the client (`InvalidLooksIndeterminate`).

The middleware prints the error report for every error that is not a route-match
failure, `MyError` included. The `URL_SAFE` engine pads when encoding and accepts
only canonically padded text when decoding.

## Model

| member | source | states |
|---|---|---|
| `Base64.ValueOf` | src/structs.rs:1 | a character that decodes to a 6-bit value is exactly the alphabet symbol for that value |
| `Base64.SymbolRoundTrip` | src/structs.rs:1 | every alphabet symbol decodes back to its own 6-bit value, so symbol and value are inverse |
| `Base64.Encode` | src/structs.rs:24 | the encoding of n bytes is 4·⌈n/3⌉ characters long; every character is an alphabet symbol, except `=` in the last two positions only |
| `Base64.Decode` | src/structs.rs:17 | text that decodes to n bytes is 4·⌈n/3⌉ characters long |
| `Base64.DecodeEncode` | src/structs.rs:16-27 | decoding the encoding of any byte sequence gives back that sequence |
| `Base64.DecodeIsCanonical` | src/structs.rs:16-19 | text that decodes is exactly the encoding of what it decodes to, so no second spelling is accepted |
| `Base64.DecodeCharacterization` | src/structs.rs:16-19 | decoding succeeds exactly on text that is the encoding of some bytes, and fails on every other text |
| `Base64.ForeignCharRejected` | src/structs.rs:16-19 | a character that is neither a symbol nor `=`, such as the standard alphabet's `+` or `/`, makes decoding fail |
| `Base64.MisplacedPadRejected` | src/structs.rs:16-19 | `=` before the last two positions makes decoding fail |
| `Base64.UnpaddedLengthRejected` | src/structs.rs:16-19 | a length that is not a multiple of 4 makes decoding fail |
| `Base64.EncodeOneTwoThree` | src/structs.rs:29-49 | the bytes [1, 2, 3] encode to "AQID", and "AQID" decodes to [1, 2, 3] |
| `Structs.ToVec` | src/structs.rs:16-19 | `to_vec` gives Some(b) only when the text is the encoding of b; otherwise None, which happens exactly when no byte sequence encodes to the text |
| `Structs.FromBytes` | src/structs.rs:22-27 | `to_vec` of the encoded value gives back the bytes; the text has length 4·⌈n/3⌉ and uses only the symbols and `=` |
| `Structs.NewTimestampedData` | src/structs.rs:29-36 | both fields are the text "AQID" and decode to [1, 2, 3] |
| `Structs.NewSignedData` | src/structs.rs:43-49 | the signature is the text "AQID" and decodes to [1, 2, 3] |
| `Signer.MyErrorIsBare` | src/signer/main.rs:45-79 | every `MyError` renders as a 400 with an empty body and displays as "custom error", whatever backtrace it carries |
| `Signer.Sign` | src/signer/main.rs:82-102 | the handler returns exactly when both fields decode, and panics otherwise; the verifier is called at most once, and never when the handler panics; its arguments are the decoded data and signature, in that order; the result is Ok exactly when the outcome is valid |
| `Signer.SignValid` | src/signer/main.rs:91-93 | a valid answer gives Ok with `SignedData::new()`, whose signature decodes to [1, 2, 3], whatever the payload |
| `Signer.SignRejected` | src/signer/main.rs:94-100 | an invalid or indeterminate answer gives Err(MyError) after exactly one verifier call; the error carries the backtrace captured in its own branch |
| `Signer.InvalidLooksIndeterminate` | src/signer/main.rs:94-100 | two verifiers, one always answering invalid and one always undecided, make the same calls and give errors that render and format alike; the runs are identical when both sites capture the same backtrace |
| `Signer.SignMalformed` | src/signer/main.rs:87-90 | a field that does not decode panics (the data field first) before any verifier call |
| `Signer.ErrorHandler` | src/signer/main.rs:106-156 | no route-match failure leaves the middleware; it prints nothing exactly on success; an error is printed first in Debug form, then in Display form |
| `Signer.SuccessPassesThrough` | src/signer/main.rs:110-111 | a successful response is returned unchanged and nothing is printed |
| `Signer.RouteMissBecomesNotFound` | src/signer/main.rs:136-142 | a route-match failure becomes status 404 with HTML body `<h1>404 Not Found</h1>`, whatever the framework would have rendered |
| `Signer.OtherErrorsUnchanged` | src/signer/main.rs:112-153 | any other error is returned as the same value, is rendered by its own renderer, and is printed as Debug, Display and report |
| `Signer.MyErrorPrintedText` | src/signer/main.rs:112-117 | a `MyError` reaching the middleware is printed first as "MyError" (its Debug form), then as "custom error" (its Display form), then in the report |
| `Signer.MyErrorRendersBadRequest` | src/signer/main.rs:73-79 | a `MyError` that passes through the middleware reaches the client as a bare 400 |
| `Signer.HandlerTransparentExceptRouteMiss` | src/signer/main.rs:110-153 | apart from a route-match failure, the final response is the same with or without the middleware |
| `Signer.Serve` | src/signer/main.rs:24-27 | a request that does not reach `sign` makes no verifier call; a request that does reach it and gets an answer makes one call, and receives the success JSON exactly when that call's outcome is valid |
| `Signer.ServeValid` | src/signer/main.rs:91-93 | a valid signature gets 200 with JSON body `{"signature":"AQID"}`, after one call and with nothing printed |
| `Signer.ServeRejected` | src/signer/main.rs:94-100 | an invalid or undecided signature gets a bare 400, and the `MyError`, carrying its own branch's backtrace, is printed as Debug, Display and report |
| `Signer.ServeUnrouted` | src/signer/main.rs:136-142 | an unmatched request gets the HTML 404 page with no verifier call |
| `Signer.ServeMalformed` | src/signer/main.rs:87-90 | a request with an undecodable field aborts with no verifier call |
| `Signer.ExampleAccepted` | test.py:6-16 | the request `{"data":"AQID","signature":"AQID"}` to a verifier that accepts [1, 2, 3] gets 200 `{"signature":"AQID"}` |
| `Signer.ExampleNotBase64` | src/signer/main.rs:87-90 | the request `{"data":"not-base64!!","signature":"AQID"}` panics on the data field with no verifier call |

## Left out

- Server start-up, the `Arc` state, binding 0.0.0.0:8080 and running the server (src/signer/main.rs:19-32) are framework I/O. `Serve` models only the one route enclosed by the middleware.
- The verification algorithm of the `Checker` lives in the external `ata42` crate, so it is an uninterpreted function parameter.
- The `provide` API and `error::Report` are nightly-only. The backtrace captured at each site is a parameter. The report is the `ReportLine` token, and its text is not modelled.
- LineText: the text of the Debug and Display lines for a `MyError` assumes that xitca-web's `Debug` and `Display` for `Error<C>` forward to the wrapped error; those impls are defined inside xitca-web.
- The `println!` output is modelled as `LogLine` tokens (Debug, Display, report), not as formatted text.
- The early render `e.call(...)` at src/signer/main.rs:121 has its response discarded, so it is modelled as having no effect. Its `?` cannot fail because the renderers' error type is `Infallible`.
- The empty `downcast_ref::<MyError>` branch (src/signer/main.rs:127-129) does nothing and is not modelled.
- The async `Service` machinery, `WebContext` reborrowing and serde JSON extraction are foreign code. A request reaches `Serve` with its body already extracted (`PostSign`). An extraction failure is a `Refused` request that carries the framework's own response. The JSON body of `SignedData` is written out as `{"signature":"<text>"}`.
- The responses xitca-web renders for its own errors (the default for a route-match failure, and any other framework error) are defined inside xitca-web. They are carried as a `Response` field of the error. The bare-status response `StatusCode::BAD_REQUEST` is modelled with an empty body and no content type.
- What the server sends after the handler panics is not modelled. The run ends as `Aborted`.
- The content of a backtrace, and how the report prints it, are not modelled. The report line carries the whole error, so two runs whose errors hold different backtraces are told apart in the log.
- test.py is a network client. It encodes with the standard base64 alphabet, which gives the same text "AQID" for [1, 2, 3].
