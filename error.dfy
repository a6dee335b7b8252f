/**
 * Error values and their translation into HTTP error responses
 * (src/error.ts): the seven error constructors, the three-way
 * response selector and the joining of validation messages.
 */
module Errors {
  import Strings

  /** An `ErrorHandler`: the status, code and message it was built with, never changed afterwards. */
  datatype ErrorHandler = ErrorHandler(statusCode: int, errorCode: string, message: string)

  /** The seven kinds of known error the constructors build. */
  datatype ErrorKind =
    | BadRequest | DbConflict | Authentication | Authorization
    | NotAcceptable | UnknownResource | NotImplemented

  /** The HTTP status each kind carries. */
  function StatusOf(kind: ErrorKind): int {
    match kind
    case BadRequest => 400
    case DbConflict => 409
    case Authentication => 401
    case Authorization => 403
    case NotAcceptable => 406
    case UnknownResource => 404
    case NotImplemented => 400
  }

  /** The error code each kind carries. */
  function CodeOf(kind: ErrorKind): string {
    match kind
    case BadRequest => "Invalid Data"
    case DbConflict => "InvalidData"
    case Authentication => "Invalid Token"
    case Authorization => "Insufficient permissions"
    case NotAcceptable => "Not Acceptable"
    case UnknownResource => "UnknownResource"
    case NotImplemented => "NotImplementedError"
  }

  /** The constructor of a kind, applied to a message. */
  function ErrorOf(kind: ErrorKind, message: string): ErrorHandler {
    ErrorHandler(StatusOf(kind), CodeOf(kind), message)
  }

  function BadRequestError(message: string): ErrorHandler { ErrorOf(BadRequest, message) }
  function DbConflictError(message: string): ErrorHandler { ErrorOf(DbConflict, message) }
  function AuthenticationError(message: string): ErrorHandler { ErrorOf(Authentication, message) }
  function AuthorizationError(message: string): ErrorHandler { ErrorOf(Authorization, message) }
  function NotAcceptableError(message: string): ErrorHandler { ErrorOf(NotAcceptable, message) }
  function UnknownResourceError(message: string): ErrorHandler { ErrorOf(UnknownResource, message) }
  function NotImplementedError(message: string): ErrorHandler { ErrorOf(NotImplemented, message) }

  /** The constructor table: each constructor's status and code, with the message kept as given. */
  lemma ConstructorTable(message: string)
    ensures BadRequestError(message) == ErrorHandler(400, "Invalid Data", message)
    ensures DbConflictError(message) == ErrorHandler(409, "InvalidData", message)
    ensures AuthenticationError(message) == ErrorHandler(401, "Invalid Token", message)
    ensures AuthorizationError(message) == ErrorHandler(403, "Insufficient permissions", message)
    ensures NotAcceptableError(message) == ErrorHandler(406, "Not Acceptable", message)
    ensures UnknownResourceError(message) == ErrorHandler(404, "UnknownResource", message)
    ensures NotImplementedError(message) == ErrorHandler(400, "NotImplementedError", message)
  {
  }

  /** Every constructed error is a client error (4xx), and distinct kinds or messages give distinct errors. */
  lemma ErrorOfDeterminesKind(k1: ErrorKind, m1: string, k2: ErrorKind, m2: string)
    ensures 400 <= ErrorOf(k1, m1).statusCode < 500
    ensures ErrorOf(k1, m1) == ErrorOf(k2, m2) <==> k1 == k2 && m1 == m2
  {
  }

  /** Whatever reaches the error handler: a validation failure, a known error, or anything else thrown. */
  datatype Thrown =
    | CelebrateError(details: seq<string>)
    | Known(error: ErrorHandler)
    | Unknown(name: string, message: string)

  /** The status and the `errorMessage` of the JSON body sent back. */
  datatype ErrorResponse = ErrorResponse(status: int, errorMessage: string)

  /**
   * The message built by the loop of `formatCelebrateErrors` after the
   * given details: a newline goes in front of a detail only when the
   * message built so far is not empty.
   */
  function Accumulated(details: seq<string>): string {
    if |details| == 0 then ""
    else
      var before := Accumulated(details[..|details| - 1]);
      (if before != "" then before + "\n" else before) + details[|details| - 1]
  }

  /** `formatCelebrateErrors`: the detail messages, in order, separated by newlines. */
  method FormatCelebrateErrors(details: seq<string>) returns (message: string)
    ensures message == Accumulated(details)
  {
    message := "";
    for i := 0 to |details|
      invariant message == Accumulated(details[..i])
    {
      assert details[..i + 1][..i] == details[..i];
      if message != "" {
        message := message + "\n";
      }
      message := message + details[i];
    }
    assert details[..|details|] == details;
  }

  /** The message is empty exactly when every detail is. */
  lemma {:induction false} AccumulatedEmptyIff(details: seq<string>)
    ensures Accumulated(details) == "" <==> forall k :: 0 <= k < |details| ==> details[k] == ""
  {
    if |details| > 0 {
      var init := details[..|details| - 1];
      AccumulatedEmptyIff(init);
      assert forall k :: 0 <= k < |init| ==> init[k] == details[k];
    }
  }

  /** When no detail is empty the message is the details joined with "\n": no leading or trailing newline. */
  lemma {:induction false} AccumulatedIsJoin(details: seq<string>)
    requires forall k :: 0 <= k < |details| ==> details[k] != ""
    ensures Accumulated(details) == Strings.Join(details, "\n")
    decreases |details|
  {
    if |details| > 1 {
      var init := details[..|details| - 1];
      var last := details[|details| - 1];
      AccumulatedIsJoin(init);
      AccumulatedEmptyIff(init);
      assert init[0] != "";
      JoinSnoc(init, last, "\n");
      assert init + [last] == details;
    }
  }

  /** Joining with one more part at the end adds the separator and that part. */
  lemma {:induction false} JoinSnoc(parts: seq<string>, last: string, sep: string)
    requires |parts| > 0
    ensures Strings.Join(parts + [last], sep) == Strings.Join(parts, sep) + sep + last
    decreases |parts|
  {
    if |parts| == 1 {
      assert parts + [last] == [parts[0], last];
      assert [parts[0], last][1..] == [last];
    } else {
      assert (parts + [last])[1..] == parts[1..] + [last];
      JoinSnoc(parts[1..], last, sep);
    }
  }

  /** `handleKnownExceptions`: the error's own status, body "errorCode | message". */
  function HandleKnownExceptions(error: ErrorHandler): ErrorResponse {
    ErrorResponse(error.statusCode, error.errorCode + " | " + error.message)
  }

  /** `handleUnknownExceptions`: status 500, body "name | message". */
  function HandleUnknownExceptions(name: string, message: string): ErrorResponse {
    ErrorResponse(500, name + " | " + message)
  }

  /** `handleError`: validation errors first, then known errors, then everything else. */
  function HandleError(thrown: Thrown): (r: ErrorResponse)
    ensures thrown.CelebrateError? ==> r == ErrorResponse(400, Accumulated(thrown.details))
    ensures thrown.Known? ==> r == ErrorResponse(thrown.error.statusCode, thrown.error.errorCode + " | " + thrown.error.message)
    ensures thrown.Unknown? ==> r == ErrorResponse(500, thrown.name + " | " + thrown.message)
  {
    match thrown
    case CelebrateError(details) => ErrorResponse(400, Accumulated(details))
    case Known(error) => HandleKnownExceptions(error)
    case Unknown(name, message) => HandleUnknownExceptions(name, message)
  }

  /** Each constructor's error reaches the client with the table's status and "code | message". */
  lemma KnownErrorResponse(kind: ErrorKind, message: string)
    ensures HandleError(Known(ErrorOf(kind, message))) == ErrorResponse(StatusOf(kind), CodeOf(kind) + " | " + message)
    ensures 400 <= HandleError(Known(ErrorOf(kind, message))).status < 500
  {
  }
}
