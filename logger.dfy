/** The logger: one line per event, "[timestamp] LEVEL: message" followed
    by the user, the address and (in development) the data. The console
    is modelled as the sequence of lines the logger has emitted, each with
    the level that picks its console channel. */
module Logging {
  import opened JsValues
  import Text

  datatype Level = Error | Warn | Info | Debug

  function LevelName(l: Level): (s: string)
    ensures s != ""
  {
    match l
    case Error => "ERROR"
    case Warn => "WARN"
    case Info => "INFO"
    case Debug => "DEBUG"
  }

  /** Log data: a plain value, or an object (always truthy) given as its
      fields. */
  datatype Data = Plain(v: Value) | Object(fields: seq<(string, Value)>)

  predicate DataTruthy(d: Data) {
    match d
    case Plain(v) => Truthy(v)
    case Object(_) => true
  }

  datatype LogEntry = LogEntry(timestamp: string, level: Level, message: string,
                               data: Option<Data>, userId: Option<string>, ip: Option<string>)

  /** The part every line starts with. */
  function Header(e: LogEntry): string {
    "[" + e.timestamp + "] " + LevelName(e.level) + ": " + e.message
  }

  function UserPart(userId: Option<string>): (s: string)
    ensures s == "" <==> !Present(userId)
  {
    if Present(userId) then " | User: " + userId.value else ""
  }

  function IpPart(ip: Option<string>): (s: string)
    ensures s == "" <==> !Present(ip)
  {
    if Present(ip) then " | IP: " + ip.value else ""
  }

  /** `stringify` stands for `JSON.stringify(data, null, 2)`. */
  function DataPart(data: Option<Data>, development: bool, stringify: Data -> string): (s: string)
    ensures s == "" <==> !(data.Some? && DataTruthy(data.value) && development)
  {
    if data.Some? && DataTruthy(data.value) && development then " | Data: " + stringify(data.value) else ""
  }

  /** `formatLog`. */
  function Format(e: LogEntry, development: bool, stringify: Data -> string): string {
    Header(e) + UserPart(e.userId) + IpPart(e.ip) + DataPart(e.data, development, stringify)
  }

  /** ERROR, WARN and INFO always reach the console; DEBUG only in
      development. */
  predicate Emits(l: Level, development: bool) {
    l != Debug || development
  }

  datatype Line = Line(level: Level, text: string)

  /** The level `apiResponse` picks. */
  function ApiResponseLevel(statusCode: int): (l: Level)
    ensures l == Warn <==> statusCode >= 400
    ensures l == Warn || l == Debug
  {
    if statusCode >= 400 then Warn else Debug
  }

  /** The level `authEvent` picks. */
  function AuthEventLevel(success: bool): (l: Level)
    ensures l == Info <==> success
    ensures l == Info || l == Warn
  {
    if success then Info else Warn
  }

  /** The message `databaseQuery` logs: the duration in milliseconds is
      added only when it is truthy. */
  function DatabaseQueryMessage(query: string, duration: Option<int>): (m: string)
    ensures PresentNum(duration) ==> m == "Database Query: " + query + " (" + Text.IntToString(duration.value) + "ms)"
    ensures !PresentNum(duration) ==> m == "Database Query: " + query
  {
    "Database Query: " + query + (if PresentNum(duration) then " (" + Text.IntToString(duration.value) + "ms)" else "")
  }

  class Logger {
    /** Whether NODE_ENV is "development". */
    const development: bool
    /** What has been written to the console, in order. */
    var emitted: seq<Line>

    constructor (development: bool)
      ensures this.development == development && emitted == []
    {
      this.development := development;
      emitted := [];
    }

    /** `formatLog`: the header, then each optional part appended in turn. */
    method FormatLog(e: LogEntry, stringify: Data -> string) returns (s: string)
      ensures s == Format(e, development, stringify)
      ensures Header(e) <= s
    {
      s := Header(e);
      if Present(e.userId) {
        Append(s, " | User: ", e.userId.value);
        s := s + " | User: " + e.userId.value;
      }
      assert s == Header(e) + UserPart(e.userId);
      if Present(e.ip) {
        Append(s, " | IP: ", e.ip.value);
        s := s + " | IP: " + e.ip.value;
      }
      assert s == Header(e) + UserPart(e.userId) + IpPart(e.ip);
      if e.data.Some? && DataTruthy(e.data.value) && development {
        Append(s, " | Data: ", stringify(e.data.value));
        s := s + " | Data: " + stringify(e.data.value);
      }
      Append(Header(e), UserPart(e.userId) + IpPart(e.ip), DataPart(e.data, development, stringify));
      Append(Header(e), UserPart(e.userId), IpPart(e.ip));
    }

    /** `log`: formats the entry and writes it unless it is DEBUG outside
        development. `timestamp` is the clock reading. */
    method Log(level: Level, message: string, data: Option<Data>, userId: Option<string>, ip: Option<string>,
               timestamp: string, stringify: Data -> string)
      modifies this
      ensures emitted == old(emitted) +
        (if Emits(level, development)
         then [Line(level, Format(LogEntry(timestamp, level, message, data, userId, ip), development, stringify))]
         else [])
    {
      var text := FormatLog(LogEntry(timestamp, level, message, data, userId, ip), stringify);
      if level != Debug || development {
        emitted := emitted + [Line(level, text)];
      }
    }

    /** `apiResponse`: WARN for an error status, DEBUG otherwise. */
    method ApiResponse(httpMethod: string, path: string, statusCode: int, userId: Option<string>, ip: Option<string>,
                       timestamp: string, stringify: Data -> string)
      modifies this
      ensures emitted == old(emitted) +
        (if Emits(ApiResponseLevel(statusCode), development)
         then [Line(ApiResponseLevel(statusCode),
                    Format(LogEntry(timestamp, ApiResponseLevel(statusCode),
                                    "API Response: " + httpMethod + " " + path + " - " + Text.IntToString(statusCode),
                                    None, userId, ip), development, stringify))]
         else [])
    {
      var level := if statusCode >= 400 then Warn else Debug;
      Log(level, "API Response: " + httpMethod + " " + path + " - " + Text.IntToString(statusCode), None, userId, ip, timestamp, stringify);
    }

    /** `authEvent`: INFO on success, WARN on failure, with `{ success }`
        as the data. */
    method AuthEvent(event: string, userId: Option<string>, ip: Option<string>, success: bool,
                     timestamp: string, stringify: Data -> string)
      modifies this
      ensures emitted == old(emitted) +
        [Line(AuthEventLevel(success),
              Format(LogEntry(timestamp, AuthEventLevel(success), "Auth Event: " + event,
                              Some(Object([("success", Bool(success))])), userId, ip), development, stringify))]
    {
      var level := if success then Info else Warn;
      Log(level, "Auth Event: " + event, Some(Object([("success", Bool(success))])), userId, ip, timestamp, stringify);
    }

    /** `databaseQuery`, logged at DEBUG. */
    method DatabaseQuery(query: string, duration: Option<int>, userId: Option<string>,
                         timestamp: string, stringify: Data -> string)
      modifies this
      ensures emitted == old(emitted) +
        (if development
         then [Line(Debug, Format(LogEntry(timestamp, Debug, DatabaseQueryMessage(query, duration), None, userId, None),
                                  development, stringify))]
         else [])
    {
      var message := "Database Query: " + query;
      if duration.Some? && duration.value != 0 {
        message := message + " (" + Text.IntToString(duration.value) + "ms)";
      }
      Log(Debug, message, None, userId, None, timestamp, stringify);
    }
  }

  lemma Append(a: string, b: string, c: string)
    ensures a + b + c == a + (b + c)
  {
  }

  // ---------------------------------------------------------------------
  // Properties of the line format

  /** Every line starts with its header, and each optional part adds its
      label and value exactly when the value is truthy. */
  lemma FormatLength(e: LogEntry, development: bool, stringify: Data -> string)
    ensures Header(e) <= Format(e, development, stringify)
    ensures |Format(e, development, stringify)| ==
      |Header(e)|
      + (if Present(e.userId) then 9 + |e.userId.value| else 0)
      + (if Present(e.ip) then 7 + |e.ip.value| else 0)
      + (if e.data.Some? && DataTruthy(e.data.value) && development then 9 + |stringify(e.data.value)| else 0)
  {
    var f := Format(e, development, stringify);
    assert f == Header(e) + (UserPart(e.userId) + IpPart(e.ip) + DataPart(e.data, development, stringify));
  }

  /** The user part comes before the address part. */
  lemma UserBeforeIp(e: LogEntry, development: bool, stringify: Data -> string)
    requires Present(e.userId) && Present(e.ip)
    ensures var f := Format(e, development, stringify);
      var u := |Header(e)|;
      var a := u + 9 + |e.userId.value|;
      a + 7 <= |f| && f[u..u + 9] == " | User: " && f[a..a + 7] == " | IP: "
  {
    var f := Format(e, development, stringify);
    var h := Header(e);
    var up := UserPart(e.userId);
    var ip := IpPart(e.ip);
    var rest := DataPart(e.data, development, stringify);
    assert f == h + up + ip + rest;
    assert f[|h|..|h| + 9] == up[..9];
    assert f[|h| + |up|..|h| + |up| + 7] == ip[..7];
  }

  /** Outside development the data never shows, whatever it is. */
  lemma DataHiddenOutsideDevelopment(e: LogEntry, stringify: Data -> string, other: Data -> string)
    ensures Format(e, false, stringify) == Format(e.(data := None), false, other)
  {
  }

  /** A falsy user id or address leaves no trace in the line. */
  lemma FalsyPartsOmitted(e: LogEntry, development: bool, stringify: Data -> string)
    requires !Present(e.userId) && !Present(e.ip)
    ensures Format(e, development, stringify) == Header(e) + DataPart(e.data, development, stringify)
  {
  }

  // ---------------------------------------------------------------------
  // Properties of the level choices

  /** In production a response is logged exactly when its status is an
      error; in development every response is logged. */
  lemma ApiResponseEmitted(statusCode: int, development: bool)
    ensures Emits(ApiResponseLevel(statusCode), development) <==> development || statusCode >= 400
  {
  }

  /** Every authentication event is logged, failures as warnings. */
  lemma AuthEventAlwaysEmitted(success: bool, development: bool)
    ensures Emits(AuthEventLevel(success), development)
    ensures AuthEventLevel(success) == Warn <==> !success
  {
  }
}
