/** The report job: date-range resolution, the database fetch, and the
    decisions of `main` (no data, e-mail versus local file, exit code). Parsed
    command-line arguments, the loaded configuration, today's date and the
    outcomes of the collaborators are inputs. */
module Reporter {
  import opened Wrappers
  import opened Errors
  import opened Dates
  import Values
  import Records
  import Config
  import SqlConnection
  import Excel

  const InvalidDatePrefix := "Invalid date format: "
  const StartAfterEnd := "Start date cannot be after end date"
  const MailKeys: seq<string> := ["api_url", "api_key", "from_email", "from_name", "subject", "recipients"]

  /** The date-range query of the query catalog: two positional parameters,
      range start then range end. */
  const OpsBetweenDates :=
    "SELECT o.ID AS [id], o.oper_date AS [date], u.emp_id AS [emp_id], u.first_name AS [name], "
    + "u.last_name AS [lastname], t.name AS [terminal], o.credit_block AS [block] "
    + "FROM ven_operations o INNER JOIN ven_users u ON o.user_id = u.ID "
    + "INNER JOIN ven_terminals t ON o.terminal_id = t.ID "
    + "WHERE o.oper_date BETWEEN ? AND ? ORDER BY o.oper_date DESC;"

  /** `-last_month`, or `-between START -and END`. */
  datatype Mode = LastMonth | Between(startText: string, endText: string)

  /** `datetime.strptime(text, "%Y-%m-%d").date()`: a date, or the parser's message. */
  type DateParser = string -> Result<CalendarDate, string>

  // ---------------------------------------------------------------------
  // get_date_range
  // ---------------------------------------------------------------------

  /** Previous-month mode: the first of the current month minus one day, and
      the first day of that day's month. */
  function PreviousMonth(today: CalendarDate): (r: Result<DateRange, Error>)
    ensures r.Success? <==> !(today.year == MinYear && today.month == 1)
    ensures r.Failure? ==> r.error == OverflowError
    ensures r.Success? ==>
      var range := r.value;
      && Valid(range.start) && Valid(range.end)
      && MonthIndex(range.end) + 1 == MonthIndex(today)
      && range.start == FirstOfMonth(range.end)
      && range.end.day == DaysInMonth(range.end.year, range.end.month)
      && AtMost(range.start, range.end)
  {
    var firstDayCurrent := FirstOfMonth(today);
    var lastDayPrevious :- PreviousDay(firstDayCurrent);
    Success(DateRange(FirstOfMonth(lastDayPrevious), lastDayPrevious))
  }

  /** The previous-month range ends the day before the current month starts. */
  lemma PreviousMonthEndsBeforeCurrent(today: CalendarDate)
    requires PreviousMonth(today).Success?
    ensures Ordinal(PreviousMonth(today).value.end) + 1 == Ordinal(FirstOfMonth(today))
  {
    PreviousDayOrdinal(FirstOfMonth(today));
  }

  /** A date lies in the previous-month range exactly when it falls in that
      calendar month. */
  lemma PreviousMonthCoversMonth(today: CalendarDate, x: Date)
    requires PreviousMonth(today).Success? && Valid(x)
    ensures var range := PreviousMonth(today).value;
      AtMost(range.start, x) && AtMost(x, range.end)
      <==> x.year == range.end.year && x.month == range.end.month
  {
  }

  /** Explicit mode; every failure is re-raised with the "Invalid date format: " prefix. */
  function ExplicitRange(startText: string, endText: string, parse: DateParser): (r: Result<DateRange, Error>)
    ensures r.Success? <==>
      parse(startText).Success? && parse(endText).Success? && AtMost(parse(startText).value, parse(endText).value)
    ensures r.Success? ==> r.value == DateRange(parse(startText).value, parse(endText).value)
    ensures r.Failure? ==> r.error.ValueError? && InvalidDatePrefix <= r.error.message
    ensures r.Failure? && parse(startText).Success? && parse(endText).Success? ==>
      r.error == ValueError(InvalidDatePrefix + StartAfterEnd)
  {
    match parse(startText)
    case Failure(message) => Failure(ValueError(InvalidDatePrefix + message))
    case Success(start) =>
      match parse(endText)
      case Failure(message) => Failure(ValueError(InvalidDatePrefix + message))
      case Success(end) =>
        if Before(end, start) then Failure(ValueError(InvalidDatePrefix + StartAfterEnd))
        else Success(DateRange(start, end))
  }

  /** `get_date_range`: every range it returns is made of valid dates with start <= end. */
  function ResolveDateRange(mode: Mode, today: CalendarDate, parse: DateParser): (r: Result<DateRange, Error>)
    ensures r.Success? ==> Valid(r.value.start) && Valid(r.value.end) && AtMost(r.value.start, r.value.end)
  {
    match mode
    case LastMonth => PreviousMonth(today)
    case Between(startText, endText) => ExplicitRange(startText, endText, parse)
  }

  // ---------------------------------------------------------------------
  // fetch_data
  // ---------------------------------------------------------------------

  /** `value[key]` on a parsed configuration value. */
  function Lookup(value: Config.Json, key: string): (r: Result<Config.Json, Error>)
    ensures r.Success? <==> value.JObject? && key in value.fields
    ensures r.Success? ==> r.value == value.fields[key]
    ensures value.JObject? && key !in value.fields ==> r == Failure(KeyError(key))
    ensures !value.JObject? ==> r == Failure(TypeError)
  {
    match value
    case JObject(fields) => if key in fields then Success(fields[key]) else Failure(KeyError(key))
    case _ => Failure(TypeError)
  }

  function TextSetting(value: Config.Json): Result<string, Error> {
    if value.JString? then Success(value.s) else Failure(TypeError)
  }

  function OptionalTextSetting(value: Config.Json): Result<Option<string>, Error> {
    match value
    case JNull => Success(None)
    case JString(s) => Success(Some(s))
    case _ => Failure(TypeError)
  }

  /** The connection manager's constructor arguments read from `db_config`:
      host, database, user and password of `connection_data`, SQL Server
      authentication and the default driver. */
  function DbSettings(db: Config.Json): (r: Result<SqlConnection.Settings, Error>)
    ensures !db.JObject? ==> r == Failure(TypeError)
    ensures db.JObject? && "connection_data" !in db.fields ==> r == Failure(KeyError("connection_data"))
    ensures r.Success? <==>
      && db.JObject? && "connection_data" in db.fields
      && var data := db.fields["connection_data"];
      && data.JObject?
      && "host" in data.fields && "database" in data.fields
      && "user" in data.fields && "password" in data.fields
      && data.fields["host"].JString? && data.fields["database"].JString?
      && (data.fields["user"].JNull? || data.fields["user"].JString?)
      && (data.fields["password"].JNull? || data.fields["password"].JString?)
    ensures r.Success? ==>
      var data := db.fields["connection_data"].fields;
      && Config.JString(r.value.server) == data["host"]
      && Config.JString(r.value.database) == data["database"]
      && (r.value.username.None? <==> data["user"].JNull?)
      && (r.value.username.Some? ==> Config.JString(r.value.username.value) == data["user"])
      && (r.value.password.None? <==> data["password"].JNull?)
      && (r.value.password.Some? ==> Config.JString(r.value.password.value) == data["password"])
      && !r.value.trusted
      && r.value.driver == SqlConnection.DefaultDriver
  {
    var data :- Lookup(db, "connection_data");
    var host :- Lookup(data, "host");
    var database :- Lookup(data, "database");
    var user :- Lookup(data, "user");
    var password :- Lookup(data, "password");
    var server :- TextSetting(host);
    var name :- TextSetting(database);
    var username :- OptionalTextSetting(user);
    var secret :- OptionalTextSetting(password);
    Success(SqlConnection.Settings(server, name, username, secret, false, SqlConnection.DefaultDriver))
  }

  /** The positional parameters bound to the query: range start, then range end. */
  function RangeParams(range: DateRange): seq<Values.Value>
    requires Valid(range.start) && Valid(range.end)
  {
    [Values.Day(range.start), Values.Day(range.end)]
  }

  /** `fetch_data`: construct (and auto-connect), execute the date-range query,
      and close only when the execution returned. `initial` is the outcome of
      the constructor's connect; `drv` decides everything inside `exec`,
      including the reconnect. */
  function FetchData(db: Config.Json, range: DateRange, initial: SqlConnection.ConnectOutcome, drv: SqlConnection.Driver)
    : (r: SqlConnection.Step<Result<SqlConnection.ExecResult, Error>>)
    requires Valid(range.start) && Valid(range.end)
    ensures DbSettings(db).Failure? ==> r.result == Failure(DbSettings(db).error) && r.calls == []
    ensures DbSettings(db).Success? ==>
      var settings := DbSettings(db).value;
      var created := SqlConnection.Connect(settings, SqlConnection.Closed, initial);
      var run := SqlConnection.Exec(settings, created.handles, OpsBetweenDates, Some(RangeParams(range)), drv);
      && r.result == run.result
      && created.calls + run.calls <= r.calls
      && (r.result.Success? ==> r.calls == created.calls + run.calls + SqlConnection.Close(run.handles).calls)
    ensures r.result.Success? ==> r.handles == SqlConnection.Closed
    ensures r.result.Failure? ==>
      SqlConnection.CloseSession !in r.calls && SqlConnection.CloseCursor !in r.calls
  {
    match DbSettings(db)
    case Failure(e) => SqlConnection.Step(SqlConnection.Closed, Failure(e), [])
    case Success(settings) =>
      var created := SqlConnection.Connect(settings, SqlConnection.Closed, initial);
      var run := SqlConnection.Exec(settings, created.handles, OpsBetweenDates, Some(RangeParams(range)), drv);
      var calls := created.calls + run.calls;
      assert SqlConnection.CloseSession !in calls && SqlConnection.CloseCursor !in calls by {
        ExecNeverCloses(settings, initial, created.handles, OpsBetweenDates, Some(RangeParams(range)), drv);
      }
      if run.result.Success? then
        var closed := SqlConnection.Close(run.handles);
        SqlConnection.Step(closed.handles, run.result, calls + closed.calls)
      else
        SqlConnection.Step(run.handles, run.result, calls)
  }

  lemma ExecNeverCloses(s: SqlConnection.Settings, initial: SqlConnection.ConnectOutcome, h: SqlConnection.Handles,
                        script: string, params: Option<seq<Values.Value>>, drv: SqlConnection.Driver)
    ensures var calls := SqlConnection.Connect(s, SqlConnection.Closed, initial).calls
      + SqlConnection.Exec(s, h, script, params, drv).calls;
      SqlConnection.CloseSession !in calls && SqlConnection.CloseCursor !in calls
  {
    var created := SqlConnection.Connect(s, SqlConnection.Closed, initial).calls;
    var live := SqlConnection.ReconnectIfNeeded(s, h, drv.probeSucceeds, drv.connect);
    assert SqlConnection.CloseSession !in created && SqlConnection.CloseCursor !in created;
    assert SqlConnection.CloseSession !in live.calls && SqlConnection.CloseCursor !in live.calls;
    if live.result {
      var run := SqlConnection.RunStatement(live.handles, script, params, drv.statement);
      assert SqlConnection.CloseSession !in run.calls && SqlConnection.CloseCursor !in run.calls;
    }
  }

  /** Credentials that pass the connection manager's check. */
  predicate Admitted(settings: SqlConnection.Settings) {
    settings.trusted || (SqlConnection.Given(settings.username) && SqlConnection.Given(settings.password))
  }

  /** Whenever `exec`'s reconnect opens a session and cursor, the query is
      executed with the range start and range end bound in that order,
      whatever the constructor's connect did. */
  lemma FetchBindsRange(db: Config.Json, range: DateRange, initial: SqlConnection.ConnectOutcome, drv: SqlConnection.Driver)
    requires Valid(range.start) && Valid(range.end)
    requires DbSettings(db).Success? && Admitted(DbSettings(db).value)
    requires drv.connect.Opened? || (initial.Opened? && drv.probeSucceeds)
    ensures SqlConnection.Execute(OpsBetweenDates, Some([Values.Day(range.start), Values.Day(range.end)]))
      in FetchData(db, range, initial, drv).calls
  {
    var settings := DbSettings(db).value;
    var created := SqlConnection.Connect(settings, SqlConnection.Closed, initial);
    var run := SqlConnection.Exec(settings, created.handles, OpsBetweenDates, Some(RangeParams(range)), drv);
    var call := SqlConnection.Execute(OpsBetweenDates, Some(RangeParams(range)));
    var live := SqlConnection.ReconnectIfNeeded(settings, created.handles, drv.probeSucceeds, drv.connect);
    assert live.result;
    assert live.calls + [call] <= run.calls;
    assert call in run.calls;
    assert call in created.calls + run.calls;
  }

  /** A failed connect at construction is not fatal: when the reconnect inside
      `exec` opens a session and cursor, the fetch does not fail with the
      connection error, and a second `Open` is issued. */
  lemma ReconnectRescuesConstruction(db: Config.Json, range: DateRange, initial: SqlConnection.ConnectOutcome,
                                     drv: SqlConnection.Driver)
    requires Valid(range.start) && Valid(range.end)
    requires DbSettings(db).Success? && Admitted(DbSettings(db).value)
    requires !initial.Opened? && drv.connect.Opened?
    ensures var r := FetchData(db, range, initial, drv);
      && r.result != Failure(ConnectionError(SqlConnection.ConnectFailed))
      && |r.calls| >= 2
      && r.calls[0].Open?
      && SqlConnection.Open(r.calls[0].connectionString) in r.calls[1..]
  {
    var settings := DbSettings(db).value;
    var created := SqlConnection.Connect(settings, SqlConnection.Closed, initial);
    var live := SqlConnection.ReconnectIfNeeded(settings, created.handles, drv.probeSucceeds, drv.connect);
    var run := SqlConnection.Exec(settings, created.handles, OpsBetweenDates, Some(RangeParams(range)), drv);
    var r := FetchData(db, range, initial, drv);
    assert live.result;
    var open := SqlConnection.Open(SqlConnection.ConnectionString(settings).value);
    assert created.calls[0] == open;
    assert open in live.calls;
    assert live.calls <= run.calls;
    assert created.calls + run.calls <= r.calls;
    assert r.calls[0] == open;
    assert open in run.calls;
    var k :| 0 <= k < |run.calls| && run.calls[k] == open;
    assert r.calls[|created.calls| + k] == open;
  }

  // ---------------------------------------------------------------------
  // main
  // ---------------------------------------------------------------------

  /** `s` occurs in `t` as a contiguous part. */
  predicate Substring(s: string, t: string)
    decreases |t|
  {
    s <= t || (t != [] && Substring(s, t[1..]))
  }

  /** Python's `key in container` on a configuration value. */
  function Contains(container: Config.Json, key: string): Result<bool, Error> {
    match container
    case JObject(fields) => Success(key in fields)
    case JArray(items) => Success(Config.JString(key) in items)
    case JString(s) => Success(Substring(key, s))
    case _ => Failure(TypeError)
  }

  /** `all(key in container for key in keys)`, stopping at the first false or error. */
  function AllKeysIn(container: Config.Json, keys: seq<string>): (r: Result<bool, Error>)
    ensures container.JObject? ==> r == Success(forall i :: 0 <= i < |keys| ==> keys[i] in container.fields)
  {
    if keys == [] then Success(true)
    else
      match Contains(container, keys[0])
      case Failure(e) => Failure(e)
      case Success(found) =>
        if !found then Success(false)
        else
          var rest := AllKeysIn(container, keys[1..]);
          assert forall i :: 1 <= i < |keys| ==> keys[i] == keys[1..][i - 1];
          rest
  }

  /** Whether `main` takes the e-mail branch; values are not inspected. */
  function MailComplete(config: map<string, Config.Json>): (r: Result<bool, Error>)
    ensures "mail" !in config ==> r == Success(false)
    ensures "mail" in config && config["mail"].JObject? ==>
      r == Success(forall k :: k in MailKeys ==> k in config["mail"].fields)
  {
    if "mail" !in config then Success(false) else AllKeysIn(config["mail"], MailKeys)
  }

  /** `len(mail["recipients"])`, which `main` evaluates before sending: only an
      object section can be indexed by a key, and only a string, a list or an
      object has a length. */
  function RecipientCount(mail: Config.Json): (r: Result<nat, Error>)
    ensures !mail.JObject? ==> r == Failure(TypeError)
    ensures mail.JObject? && "recipients" !in mail.fields ==> r == Failure(KeyError("recipients"))
    ensures mail.JObject? && "recipients" in mail.fields ==>
      var recipients := mail.fields["recipients"];
      && (r.Success? <==> recipients.JString? || recipients.JArray? || recipients.JObject?)
      && (r.Failure? ==> r.error == TypeError)
      && (recipients.JString? ==> r == Success(|recipients.s|))
      && (recipients.JArray? ==> r == Success(|recipients.items|))
      && (recipients.JObject? ==> r == Success(|recipients.fields|))
  {
    var recipients :- Lookup(mail, "recipients");
    match recipients
    case JString(s) => Success(|s|)
    case JArray(items) => Success(|items|)
    case JObject(fields) => Success(|fields|)
    case _ => Failure(TypeError)
  }

  /** `Report_<start YYYYMMDD>_to_<end YYYYMMDD>.xlsx`. */
  function ReportFileName(range: DateRange): string
    requires Valid(range.start) && Valid(range.end)
  {
    "Report_" + YmdText(range.start) + "_to_" + YmdText(range.end) + ".xlsx"
  }

  /** The fallback file name is fixed-width and names both dates recoverably. */
  lemma ReportFileNameRoundTrip(range: DateRange)
    requires Valid(range.start) && Valid(range.end)
    ensures var name := ReportFileName(range);
      && |name| == 32
      && name[..7] == "Report_" && name[15..19] == "_to_" && name[27..] == ".xlsx"
      && ReadYmd(name[7..15]) == range.start
      && ReadYmd(name[19..27]) == range.end
  {
    YmdRoundTrip(range.start);
    YmdRoundTrip(range.end);
    var name := ReportFileName(range);
    assert name[7..15] == YmdText(range.start);
    assert name[19..27] == YmdText(range.end);
  }

  /** How a run ends. */
  datatype Delivery =
    | NoData
    | Emailed(sent: bool)
    | SavedLocally(fileName: string)
    | Aborted(error: Error)

  /** The exit code, the delivery, and the rendered report if one was produced. */
  datatype Run = Run(exitCode: int, delivery: Delivery, report: Option<Excel.Sheet>)

  /** The data `main` obtains when configuration, dates and fetch all succeed
      and the fetch returns rows. */
  function FetchedRows(config: Result<map<string, Config.Json>, Error>, mode: Mode, today: CalendarDate,
                       parse: DateParser, fetch: (Config.Json, DateRange) -> Result<SqlConnection.ExecResult, Error>)
    : Option<seq<Records.Record>>
  {
    if config.Failure? || ResolveDateRange(mode, today, parse).Failure? || "db" !in config.value then None
    else
      var fetched := fetch(config.value["db"], ResolveDateRange(mode, today, parse).value);
      if fetched.Success? && fetched.value.Rows? then Some(fetched.value.records) else None
  }

  /** `main`: `config` is the outcome of loading the configuration, `fetch` is
      `fetch_data`, `emailSent` the mail collaborator's answer, and `written`
      whether the local file could be written. Interruptions arrive as the
      `Interrupted` error of whichever step they hit. */
  function Main(config: Result<map<string, Config.Json>, Error>, mode: Mode, today: CalendarDate, parse: DateParser,
                fetch: (Config.Json, DateRange) -> Result<SqlConnection.ExecResult, Error>,
                emailSent: bool, written: bool): (r: Run)
    ensures r.exitCode == (if r.delivery.Aborted? then 1 else 0)
    ensures var rows := FetchedRows(config, mode, today, parse, fetch);
      && (r.delivery.NoData? <==> rows == Some([]))
      && (r.report.Some? <==> rows.Some? && rows.value != [])
      && (r.report.Some? ==> r.report == Some(Excel.BuildSheet(rows.value).value))
      && (r.delivery.Emailed? <==>
            && rows.Some? && rows.value != [] && MailComplete(config.value) == Success(true)
            && RecipientCount(config.value["mail"]).Success?)
      && ((rows.Some? && rows.value != [] && MailComplete(config.value) == Success(true)
             && RecipientCount(config.value["mail"]).Failure?) ==> r.delivery == Aborted(TypeError))
      && (r.delivery.Emailed? ==> r.delivery.sent == emailSent)
      && (r.delivery.SavedLocally? <==>
            rows.Some? && rows.value != [] && MailComplete(config.value) == Success(false) && written)
    ensures r.delivery.SavedLocally? ==>
      r.delivery.fileName == ReportFileName(ResolveDateRange(mode, today, parse).value)
  {
    match config
    case Failure(e) => Run(1, Aborted(e), None)
    case Success(cfg) =>
      match ResolveDateRange(mode, today, parse)
      case Failure(e) => Run(1, Aborted(e), None)
      case Success(range) =>
        if "db" !in cfg then Run(1, Aborted(KeyError("db")), None)
        else
          match fetch(cfg["db"], range)
          case Failure(e) => Run(1, Aborted(e), None)
          case Success(Count(_)) => Run(1, Aborted(TypeError), None)  // len() of a row count
          case Success(Rows(data)) =>
            if data == [] then Run(0, NoData, None)
            else
              var report := Excel.BuildSheet(data).value;
              match MailComplete(cfg)
              case Failure(e) => Run(1, Aborted(e), Some(report))
              case Success(true) =>
                (match RecipientCount(cfg["mail"])
                 case Failure(e) => Run(1, Aborted(e), Some(report))
                 case Success(_) => Run(0, Emailed(emailSent), Some(report)))
              case Success(false) =>
                if written then Run(0, SavedLocally(ReportFileName(range)), Some(report))
                else Run(1, Aborted(OSError), Some(report))
  }
}
