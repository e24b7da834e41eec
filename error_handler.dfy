/** The error middleware and the response envelopes. A thrown error is
    turned into a status and an `error` text by a chain of checks on its
    Prisma `code` and its `name`; whatever no check claims keeps its own
    `statusCode` and `message`, with 500 and "Internal server error" as
    the fallbacks. */
module Errors {
  import opened JsValues

  /** The parts of a thrown value the handler reads. An `AppError` has
      name "Error", since the class does not set its own. */
  datatype Failure = Failure(code: Option<string>, name: Option<string>, message: Option<string>,
                             statusCode: Option<int>, stack: Option<string>)

  /** `new AppError(message, statusCode)`; `stack` is what the runtime
      captures, which the model takes as given. */
  function AppError(message: string, statusCode: int, stack: Option<string>): (e: Failure)
    ensures e.message == Some(message) && e.statusCode == Some(statusCode)
    ensures e.code == None && e.name == Some("Error") && e.stack == stack
  {
    Failure(None, Some("Error"), Some(message), Some(statusCode), stack)
  }

  // ---------------------------------------------------------------------
  // The chain of checks

  datatype Field = Code | Name

  /** "When the error's `field` equals `value`, replace it with an
      AppError of `status` and `message`." */
  datatype Rule = Rule(field: Field, value: string, status: int, message: string)

  /** The checks in the order the handler runs them. */
  const Rules: seq<Rule> := [
    Rule(Code, "P2002", 400, "Duplicate field value entered"),
    Rule(Code, "P2025", 404, "Record not found"),
    Rule(Code, "P2003", 400, "Invalid input data"),
    Rule(Name, "JsonWebTokenError", 401, "Invalid token"),
    Rule(Name, "TokenExpiredError", 401, "Token expired"),
    Rule(Name, "ValidationError", 400, "Invalid input data")
  ]

  predicate Matches(r: Rule, err: Failure) {
    match r.field
    case Code => err.code == Some(r.value)
    case Name => err.name == Some(r.value)
  }

  /** The handler's local `error`, reduced to the two fields it goes on
      to read. */
  datatype Shown = Shown(message: Option<string>, statusCode: Option<int>)

  /** Runs the checks in order; each one that matches replaces `error`. */
  function RunRules(rules: seq<Rule>, err: Failure, error: Shown): Shown
    decreases |rules|
  {
    if rules == [] then error
    else
      var next := if Matches(rules[0], err) then Shown(Some(rules[0].message), Some(rules[0].status)) else error;
      RunRules(rules[1..], err, next)
  }

  /** The last rule that matches, if any. */
  function LastMatch(rules: seq<Rule>, err: Failure): (m: Option<Rule>)
    ensures m.Some? ==> m.value in rules && Matches(m.value, err)
    ensures m.None? ==> forall r :: r in rules ==> !Matches(r, err)
    decreases |rules|
  {
    if rules == [] then None
    else
      match LastMatch(rules[1..], err)
      case Some(r) => Some(r)
      case None => if Matches(rules[0], err) then Some(rules[0]) else None
  }

  /** Running the checks leaves exactly the last match's status and
      message, or the error's own when nothing matches. */
  lemma {:induction false} RunRulesIsLastMatch(rules: seq<Rule>, err: Failure, error: Shown)
    ensures RunRules(rules, err, error) ==
      match LastMatch(rules, err)
      case Some(r) => Shown(Some(r.message), Some(r.status))
      case None => error
    decreases |rules|
  {
    if rules != [] {
      var next := if Matches(rules[0], err) then Shown(Some(rules[0].message), Some(rules[0].status)) else error;
      RunRulesIsLastMatch(rules[1..], err, next);
    }
  }

  /** The mapping the checks amount to, written as a table: a recognised
      `name` decides first, otherwise a recognised Prisma `code`. */
  function Mapped(err: Failure): Option<(int, string)> {
    if err.name == Some("ValidationError") then Some((400, "Invalid input data"))
    else if err.name == Some("TokenExpiredError") then Some((401, "Token expired"))
    else if err.name == Some("JsonWebTokenError") then Some((401, "Invalid token"))
    else if err.code == Some("P2003") then Some((400, "Invalid input data"))
    else if err.code == Some("P2025") then Some((404, "Record not found"))
    else if err.code == Some("P2002") then Some((400, "Duplicate field value entered"))
    else None
  }

  /** One step of `LastMatch` at position `i`. */
  lemma LastMatchAt(rules: seq<Rule>, i: nat, err: Failure)
    requires i < |rules|
    ensures LastMatch(rules[i..], err) ==
      match LastMatch(rules[i + 1..], err)
      case Some(r) => Some(r)
      case None => if Matches(rules[i], err) then Some(rules[i]) else None
  {
    assert rules[i..][1..] == rules[i + 1..];
  }

  /** The three name checks, the last three rules. */
  lemma NameRules(err: Failure)
    ensures LastMatch(Rules[3..], err) ==
      if err.name == Some("ValidationError") then Some(Rules[5])
      else if err.name == Some("TokenExpiredError") then Some(Rules[4])
      else if err.name == Some("JsonWebTokenError") then Some(Rules[3])
      else None
  {
    assert Rules[6..] == [];
    LastMatchAt(Rules, 5, err);
    LastMatchAt(Rules, 4, err);
    LastMatchAt(Rules, 3, err);
  }

  lemma RulesAreMapped(err: Failure)
    ensures match LastMatch(Rules, err)
      case Some(r) => Mapped(err) == Some((r.status, r.message))
      case None => Mapped(err) == None
  {
    NameRules(err);
    CodeRules(err);
  }

  /** The three Prisma code checks, the first three rules. */
  lemma CodeRules(err: Failure)
    ensures LastMatch(Rules, err) ==
      if LastMatch(Rules[3..], err).Some? then LastMatch(Rules[3..], err)
      else if err.code == Some("P2003") then Some(Rules[2])
      else if err.code == Some("P2025") then Some(Rules[1])
      else if err.code == Some("P2002") then Some(Rules[0])
      else None
  {
    LastMatchAt(Rules, 2, err);
    LastMatchAt(Rules, 1, err);
    LastMatchAt(Rules, 0, err);
    assert Rules[0..] == Rules;
  }

  // ---------------------------------------------------------------------
  // The handler

  /** The JSON body of an error reply. */
  datatype ErrorBody = ErrorBody(error: string, details: Option<string>, timestamp: string, path: string)

  datatype ErrorReply = ErrorReply(status: int, body: ErrorBody)

  /** `errorHandler` for `err` raised on `path`. `timestamp` is the clock
      reading and `development` whether NODE_ENV is "development". */
  function HandleError(err: Failure, path: string, timestamp: string, development: bool): ErrorReply {
    var error := RunRules(Rules, err, Shown(err.message, err.statusCode));
    var body := ErrorBody(OrElse(error.message, "Internal server error"),
                          if development then err.stack else None, timestamp, path);
    ErrorReply(if PresentNum(error.statusCode) then error.statusCode.value else 500, body)
  }

  /** A recognised error gets the table's status and text; any other keeps
      its own status and message, falling back to 500 and
      "Internal server error"; the stack is shown only in development. */
  lemma HandleErrorOutcome(err: Failure, path: string, timestamp: string, development: bool)
    ensures var r := HandleError(err, path, timestamp, development);
      && (Mapped(err).Some? ==> r.status == Mapped(err).value.0 && r.body.error == Mapped(err).value.1)
      && (Mapped(err).None? ==> r.status == (if PresentNum(err.statusCode) then err.statusCode.value else 500))
      && (Mapped(err).None? ==> r.body.error == (if Present(err.message) then err.message.value else "Internal server error"))
      && r.body.details == (if development then err.stack else None)
      && r.body.path == path && r.body.timestamp == timestamp
  {
    RunRulesIsLastMatch(Rules, err, Shown(err.message, err.statusCode));
    RulesAreMapped(err);
  }

  /** Every recognised error is answered with 400, 401 or 404. */
  lemma MappedStatuses(err: Failure)
    requires Mapped(err).Some?
    ensures Mapped(err).value.0 in {400, 401, 404}
  {
  }

  /** A JWT error that also carries a Prisma code is reported as the JWT
      error: the later check wins. */
  lemma NameOverridesCode(stack: Option<string>)
    ensures var err := Failure(Some("P2002"), Some("TokenExpiredError"), Some("jwt expired"), None, stack);
      HandleError(err, "/", "", false).status == 401 &&
      HandleError(err, "/", "", false).body.error == "Token expired"
  {
    var err := Failure(Some("P2002"), Some("TokenExpiredError"), Some("jwt expired"), None, stack);
    HandleErrorOutcome(err, "/", "", false);
  }

  /** An AppError the controllers raise reaches the client with its own
      status and message, as long as neither is falsy. */
  lemma AppErrorPassesThrough(message: string, statusCode: int, stack: Option<string>, path: string, timestamp: string)
    requires message != "" && statusCode != 0
    ensures var r := HandleError(AppError(message, statusCode, stack), path, timestamp, false);
      r.status == statusCode && r.body.error == message && r.body.details == None
  {
    HandleErrorOutcome(AppError(message, statusCode, stack), path, timestamp, false);
  }

  /** `notFoundHandler`: the AppError it passes on. */
  function NotFound(originalUrl: string, stack: Option<string>): Failure {
    AppError("Route " + originalUrl + " not found", 404, stack)
  }

  /** An unknown route is answered 404 "Route <url> not found". */
  lemma NotFoundReply(originalUrl: string, stack: Option<string>, path: string, timestamp: string, development: bool)
    ensures var r := HandleError(NotFound(originalUrl, stack), path, timestamp, development);
      r.status == 404 && r.body.error == "Route " + originalUrl + " not found"
  {
    HandleErrorOutcome(NotFound(originalUrl, stack), path, timestamp, development);
  }

  // ---------------------------------------------------------------------
  // Envelopes

  /** The JSON body of `successResponse` (`success: true`) or
      `errorResponse` (`success: false`). */
  datatype Envelope<D> =
    | Ok(message: string, data: D, timestamp: string)
    | Fail(error: string, details: Option<Value>, timestamp: string)
  {
    predicate Success() { Ok? }
  }

  datatype Response<D> = Response(status: int, body: Envelope<D>)

  /** `successResponse`: "Success" and 200 unless given. */
  function SuccessResponse<D>(data: D, message: Option<string>, statusCode: Option<int>, timestamp: string): (r: Response<D>)
    ensures r.body.Success() && r.body.data == data && r.body.timestamp == timestamp
    ensures r.body.message == (if message.Some? then message.value else "Success")
    ensures r.status == (if statusCode.Some? then statusCode.value else 200)
  {
    Response(if statusCode.Some? then statusCode.value else 200,
             Ok(if message.Some? then message.value else "Success", data, timestamp))
  }

  /** `errorResponse`: 500 unless given, and `details` only when truthy. */
  function ErrorResponse<D>(message: string, statusCode: Option<int>, details: Option<Value>, timestamp: string): (r: Response<D>)
    ensures !r.body.Success() && r.body.error == message && r.body.timestamp == timestamp
    ensures r.body.details.Some? <==> details.Some? && Truthy(details.value)
    ensures r.body.details.Some? ==> r.body.details == details
    ensures r.status == (if statusCode.Some? then statusCode.value else 500)
  {
    Response(if statusCode.Some? then statusCode.value else 500,
             Fail(message, if details.Some? && Truthy(details.value) then details else None, timestamp))
  }
}
