/** The global error handler: the error values that reach it, the three translations of
    database errors into client errors, and the response chosen for each NODE_ENV. */
module ErrorController {
  import opened Wrappers
  import opened Text

  /** A thrown JavaScript error, with the properties the handler inspects. */
  datatype Error = Error(
    className: string,                 // err.constructor.name
    name: string,                      // err.name
    code: Option<int>,                 // err.code, set by the MongoDB driver
    statusCode: Option<nat>,
    status: Option<string>,
    message: string,
    isOperational: bool,
    stack: string,
    path: string,                      // CastError: the path that failed to cast
    value: string,                     // CastError: the offending value
    keyValue: seq<(string, string)>,   // duplicate-key error: the fields and values in conflict
    fieldMessages: seq<string>)        // ValidationError: the message of each failed path, in order

  const DuplicateKeyCode := 11000
  const GenericMessage := "Something went very wrong :/"

  /** The leading decimal digit of n, i.e. what `${n}`.startsWith(...) looks at. */
  function LeadingDigit(n: nat): (d: nat)
    ensures d < 10
    ensures 10 <= n < 100 ==> d == n / 10
    ensures 100 <= n < 1000 ==> d == n / 100
  {
    if n < 10 then n else LeadingDigit(n / 10)
  }

  /** utils/AppError.js is not part of this model. It is taken to behave as usual: keep the
      message and status code, mark the error operational, and derive status "fail" when the
      code's decimal text starts with 4 and "error" otherwise (also when there is no code). */
  function AppError(message: string, statusCode: Option<nat>): (e: Error)
    ensures e.isOperational && e.message == message && e.statusCode == statusCode
    ensures e.code.None? && e.className == "AppError" && e.name == "Error"
    ensures statusCode.Some? && 400 <= statusCode.value < 500 ==> e.status == Some("fail")
    ensures statusCode.None? || 500 <= statusCode.value < 600 ==> e.status == Some("error")
  {
    var status := if statusCode.Some? && LeadingDigit(statusCode.value) == 4 then "fail" else "error";
    Error("AppError", "Error", None, statusCode, Some(status), message, true,
          "Error: " + message, "", "", [], [])
  }

  /** A library error: not operational, no status code of its own. */
  function LibraryError(className: string, message: string): (e: Error)
    ensures !e.isOperational && e.statusCode.None? && e.className == className && e.name == className
  {
    Error(className, className, None, None, None, message, false, className + ": " + message, "", "", [], [])
  }

  /** Mongoose's CastError for a value that does not fit the path's type. */
  function CastError(kind: string, path: string, value: string): Error {
    LibraryError("CastError", "Cast to " + kind + " failed for value \"" + value + "\" at path \"" + path + "\"")
      .(path := path, value := value)
  }

  /** The MongoDB driver's duplicate-key error (code 11000) for a unique index. */
  function DuplicateKeyError(keyValue: seq<(string, string)>): Error {
    LibraryError("MongoError", "E11000 duplicate key error").(code := Some(DuplicateKeyCode), keyValue := keyValue)
  }

  /** Mongoose's ValidationError carrying one message per failed path. */
  function ValidationError(fieldMessages: seq<string>): Error {
    LibraryError("ValidationError", "User validation failed").(fieldMessages := fieldMessages)
  }

  function Keys(kv: seq<(string, string)>): seq<string> {
    seq(|kv|, i requires 0 <= i < |kv| => kv[i].0)
  }

  function Values(kv: seq<(string, string)>): seq<string> {
    seq(|kv|, i requires 0 <= i < |kv| => kv[i].1)
  }

  /** handleCastErrorDB: a 400 operational error naming the path and the value. */
  function HandleCastErrorDB(err: Error): (e: Error)
    ensures e.isOperational && e.statusCode == Some(400) && e.status == Some("fail")
    ensures e.message == "Invalid " + err.path + ": " + err.value
  {
    AppError("Invalid " + err.path + ": " + err.value, Some(400))
  }

  /** handleDuplicateFieldsDB: a 400 operational error naming the duplicated fields and values;
      an array inside a template literal prints as its elements joined with ",". */
  function HandleDuplicateFieldsDB(err: Error): (e: Error)
    ensures e.isOperational && e.statusCode == Some(400) && e.status == Some("fail")
    ensures |err.keyValue| == 1 ==>
      e.message == "Duplicate " + err.keyValue[0].0 + ": " + err.keyValue[0].1
                   + ", Please use another " + err.keyValue[0].0
  {
    var field := Join(Keys(err.keyValue), ",");
    var value := Join(Values(err.keyValue), ",");
    AppError("Duplicate " + field + ": " + value + ", Please use another " + field, Some(400))
  }

  /** handleValidationError: a 400 operational error listing every field message. */
  function HandleValidationError(err: Error): (e: Error)
    ensures e.isOperational && e.statusCode == Some(400) && e.status == Some("fail")
    ensures StartsWith(e.message, "Invalid input data. ")
    ensures |err.fieldMessages| == 1 ==> e.message == "Invalid input data. " + err.fieldMessages[0]
  {
    AppError("Invalid input data. " + Join(err.fieldMessages, ". "), Some(400))
  }

  /** What the handler sends: nothing, or a JSON body with a status code. */
  datatype Response =
    | NoResponse
    | Json(statusCode: nat, status: string, message: string, stack: Option<string>, error: Option<Error>)

  /** `err.statusCode || 500` and `err.status || 'error'`: falsy values are replaced too. */
  function WithDefaults(err: Error): (e: Error)
    ensures e.statusCode.Some? && e.status.Some?
    ensures err.statusCode.Some? && err.statusCode.value != 0 ==> e.statusCode == err.statusCode
    ensures err.statusCode.None? || err.statusCode == Some(0) ==> e.statusCode == Some(500)
    ensures err.status.None? || err.status == Some("") ==> e.status == Some("error")
    ensures err.status.Some? && err.status.value != "" ==> e.status == err.status
    ensures e.(statusCode := err.statusCode, status := err.status) == err
  {
    err.(statusCode := Some(if err.statusCode.None? || err.statusCode.value == 0 then 500 else err.statusCode.value),
         status := Some(if err.status.None? || err.status.value == "" then "error" else err.status.value))
  }

  /** sendErrorDev: the error's own status code, with its message, stack and the error itself. */
  function SendErrorDev(err: Error): (r: Response)
    requires err.statusCode.Some? && err.status.Some?
    ensures r.Json? && r.statusCode == err.statusCode.value && r.status == err.status.value
    ensures r.message == err.message && r.stack == Some(err.stack) && r.error == Some(err)
  {
    Json(err.statusCode.value, err.status.value, err.message, Some(err.stack), Some(err))
  }

  /** sendErrorProd: an operational error is sent as it is without its stack; anything else
      becomes the fixed 500 reply, whatever its own code and message. */
  function SendErrorProd(err: Error): (r: Response)
    requires err.isOperational ==> err.statusCode.Some? && err.status.Some?
    ensures r.Json? && r.stack.None? && r.error.None?
    ensures err.isOperational ==>
      r.statusCode == err.statusCode.value && r.status == err.status.value && r.message == err.message
    ensures !err.isOperational ==> r.statusCode == 500 && r.status == "error" && r.message == GenericMessage
  {
    if err.isOperational then
      Json(err.statusCode.value, err.status.value, err.message, None, None)
    else
      Json(500, "error", GenericMessage, None, None)
  }

  /** In production: the first of the three database translations that applies, or the error itself. */
  function ProductionError(err: Error): (e: Error)
    ensures err.className == "CastError" ==> e == HandleCastErrorDB(err)
    ensures e.isOperational ==> e.statusCode.Some? || e == err
  {
    if err.className == "CastError" then HandleCastErrorDB(err)
    else if err.code == Some(DuplicateKeyCode) then HandleDuplicateFieldsDB(err)
    else if err.name == "ValidationError" then HandleValidationError(err)
    else err
  }

  /** The response the exported handler writes for `err` under NODE_ENV == nodeEnv. */
  function ErrorResponse(nodeEnv: string, err: Error): (r: Response)
    ensures nodeEnv != "development" && nodeEnv != "production" <==> r.NoResponse?
    ensures nodeEnv == "development" ==>
      r.statusCode == WithDefaults(err).statusCode.value && r.message == err.message && r.stack == Some(err.stack)
    ensures nodeEnv == "production" ==> r.stack.None? && r.error.None?
  {
    var e := WithDefaults(err);
    if nodeEnv == "development" then SendErrorDev(e)
    else if nodeEnv == "production" then SendErrorProd(ProductionError(e))
    else NoResponse
  }

  /** The exported handler, as written: it fills in the defaults on the error, then in
      production replaces it step by step before sending. */
  method HandleError(nodeEnv: string, err0: Error) returns (res: Response)
    ensures res == ErrorResponse(nodeEnv, err0)
  {
    var err := err0;
    err := err.(statusCode := Some(if err.statusCode.None? || err.statusCode.value == 0 then 500 else err.statusCode.value));
    err := err.(status := Some(if err.status.None? || err.status.value == "" then "error" else err.status.value));
    if nodeEnv == "development" {
      res := SendErrorDev(err);
    } else if nodeEnv == "production" {
      if err.className == "CastError" {
        err := HandleCastErrorDB(err);
      }
      if err.code == Some(DuplicateKeyCode) {
        err := HandleDuplicateFieldsDB(err);
      }
      if err.name == "ValidationError" {
        err := HandleValidationError(err);
      }
      res := SendErrorProd(err);
    } else {
      res := NoResponse;
    }
  }

  /** A CastError in production: 400 with "Invalid <path>: <value>". */
  lemma ProductionCastError(err: Error)
    requires err.className == "CastError"
    ensures ErrorResponse("production", err) == Json(400, "fail", "Invalid " + err.path + ": " + err.value, None, None)
  {
  }

  /** A duplicate-key error on one field in production: 400 naming that field and value. */
  lemma ProductionDuplicateKey(err: Error, field: string, value: string)
    requires err.className != "CastError" && err.code == Some(DuplicateKeyCode) && err.keyValue == [(field, value)]
    ensures ErrorResponse("production", err)
         == Json(400, "fail", "Duplicate " + field + ": " + value + ", Please use another " + field, None, None)
  {
  }

  /** A ValidationError in production: 400 with every field message after "Invalid input data. ". */
  lemma ProductionValidationError(err: Error)
    requires err.className != "CastError" && err.code != Some(DuplicateKeyCode) && err.name == "ValidationError"
    ensures ErrorResponse("production", err)
         == Json(400, "fail", "Invalid input data. " + Join(err.fieldMessages, ". "), None, None)
  {
  }

  /** Any other error in production: an operational one keeps its (defaulted) code and message,
      anything else is the fixed 500 reply. */
  lemma ProductionOtherError(err: Error)
    requires err.className != "CastError" && err.code != Some(DuplicateKeyCode) && err.name != "ValidationError"
    ensures err.isOperational ==>
      ErrorResponse("production", err)
      == Json(WithDefaults(err).statusCode.value, WithDefaults(err).status.value, err.message, None, None)
    ensures !err.isOperational ==> ErrorResponse("production", err) == Json(500, "error", GenericMessage, None, None)
  {
  }
}
