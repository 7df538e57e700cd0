/** The connection manager: one database session and cursor over an abstract
    driver. Every driver outcome is an input; every operation returns the new
    `conn`/`cursor` fields, its result, and the driver calls it made. */
module SqlConnection {
  import opened Wrappers
  import opened Errors
  import opened Values
  import Records
  import Config

  const DefaultDriver := "ODBC Driver 17 for SQL Server"
  const ConnectFailed := "Failed to connect to database"
  const Separator: char := ';'

  /** Constructor arguments; `username`/`password` default to None. */
  datatype Settings = Settings(
    server: string,
    database: string,
    username: Option<string>,
    password: Option<string>,
    trusted: bool,
    driver: string)

  /** Python truthiness of an optional string argument. */
  predicate Given(s: Option<string>) {
    s.Some? && s.value != ""
  }

  /** Opaque driver handles. */
  datatype Session = Session(id: nat)
  datatype Cursor = Cursor(id: nat)

  /** The manager's nullable `conn` and `cursor` fields. */
  datatype Handles = Handles(conn: Option<Session>, cursor: Option<Cursor>)

  const Closed := Handles(None, None)

  /** The calls made on the driver, in order. */
  datatype Call =
    | Open(connectionString: string)                // pyodbc.connect
    | OpenCursor                                    // conn.cursor()
    | Probe                                         // cursor.execute("SELECT 1")
    | Execute(script: string, params: Option<seq<Value>>)
    | FetchAll
    | Commit
    | Rollback
    | CloseCursor
    | CloseSession

  /** What `pyodbc.connect(...)` followed by `conn.cursor()` produces. */
  datatype ConnectOutcome =
    | Refused                                       // pyodbc.connect raises
    | NoCursor(session: Session)                    // the session opens, conn.cursor() raises
    | Opened(session: Session, cursor: Cursor)

  /** What the driver does with one statement: whether it executes, the column
      names of its description (None for a statement without one), the rows
      `fetchall()` returns (None when it raises), the affected-row count, and
      the outcomes of the two `commit()` calls `exec` can make: the one after
      fetching rows, and the one after reading the row count. */
  datatype Statement = Statement(
    executes: bool,
    description: Option<seq<string>>,
    rows: Option<seq<seq<Value>>>,
    rowcount: int,
    rowsCommit: bool,
    countCommit: bool)

  /** Everything the driver decides during one `exec`. */
  datatype Driver = Driver(probeSucceeds: bool, connect: ConnectOutcome, statement: Statement)

  /** `exec`'s dual-mode result: the fetched rows, or the affected-row count. */
  datatype ExecResult = Rows(records: seq<Records.Record>) | Count(n: int)

  /** An operation's effect: the new fields, its result, the driver calls made. */
  datatype Step<T> = Step(handles: Handles, result: T, calls: seq<Call>)

  // ---------------------------------------------------------------------
  // Connection string
  // ---------------------------------------------------------------------

  /** The key/value attributes the manager sends to the driver. */
  function Attributes(s: Settings): seq<(string, string)>
    requires s.trusted || (Given(s.username) && Given(s.password))
  {
    [("DRIVER", "{" + s.driver + "}"), ("SERVER", s.server), ("DATABASE", s.database)]
    + (if s.trusted then [("Trusted_Connection", "yes")]
       else [("UID", s.username.value), ("PWD", s.password.value)])
  }

  function Entry(a: (string, string)): string {
    a.0 + "=" + a.1 + [Separator]
  }

  function Render(attrs: seq<(string, string)>): string {
    if attrs == [] then "" else Entry(attrs[0]) + Render(attrs[1..])
  }

  /** The connection string built by `connect`; None when trusted mode is off and
      the username or password is missing or empty (the ValueError it catches). */
  function ConnectionString(s: Settings): (r: Option<string>)
    ensures r.Some? <==> s.trusted || (Given(s.username) && Given(s.password))
    ensures r.Some? ==> r.value == Render(Attributes(s))
  {
    var prefix := Entry(("DRIVER", "{" + s.driver + "}")) + Entry(("SERVER", s.server)) + Entry(("DATABASE", s.database));
    if s.trusted then
      RenderAttributes(s);
      Some(prefix + Entry(("Trusted_Connection", "yes")))
    else if !Given(s.username) || !Given(s.password) then None
    else
      RenderAttributes(s);
      Some(prefix + Entry(("UID", s.username.value)) + Entry(("PWD", s.password.value)))
  }

  /** Splits one `key=value` entry at its first `=`. */
  function SplitEntry(e: string): (string, string) {
    if e == [] then ("", "")
    else if e[0] == '=' then ("", e[1..])
    else var kv := SplitEntry(e[1..]); ([e[0]] + kv.0, kv.1)
  }

  /** The `key=value` texts of the attributes, without terminators. */
  function Entries(attrs: seq<(string, string)>): seq<string> {
    if attrs == [] then [] else [attrs[0].0 + "=" + attrs[0].1] + Entries(attrs[1..])
  }

  function SplitEntries(parts: seq<string>): seq<(string, string)> {
    if parts == [] then [] else [SplitEntry(parts[0])] + SplitEntries(parts[1..])
  }

  /** A reader of connection strings that takes braces literally:
      `;`-terminated entries, each split at its first `=`. */
  function ParseAttributes(cs: string): seq<(string, string)> {
    var parts := Config.Split(cs, Separator);
    SplitEntries(parts[..|parts| - 1])
  }

  predicate PlainText(t: string) {
    Separator !in t
  }

  /** Settings whose texts contain no `;` (the builder does not brace values). */
  predicate Plain(s: Settings) {
    && PlainText(s.driver) && PlainText(s.server) && PlainText(s.database)
    && (s.username.Some? ==> PlainText(s.username.value))
    && (s.password.Some? ==> PlainText(s.password.value))
  }

  predicate PlainAttributes(attrs: seq<(string, string)>) {
    forall i :: 0 <= i < |attrs| ==> PlainText(attrs[i].0) && PlainText(attrs[i].1) && '=' !in attrs[i].0
  }

  lemma RenderAttributes(s: Settings)
    requires s.trusted || (Given(s.username) && Given(s.password))
    ensures var prefix := Entry(("DRIVER", "{" + s.driver + "}")) + Entry(("SERVER", s.server)) + Entry(("DATABASE", s.database));
      Render(Attributes(s)) ==
        if s.trusted then prefix + Entry(("Trusted_Connection", "yes"))
        else prefix + Entry(("UID", s.username.value)) + Entry(("PWD", s.password.value))
  {
    var a := Attributes(s);
    var e0, e1, e2, e3 := Entry(a[0]), Entry(a[1]), Entry(a[2]), Entry(a[3]);
    var tail := Render(a[3..]);
    assert a[3..][1..] == a[4..];
    assert tail == e3 + Render(a[4..]);
    if s.trusted {
      assert a[4..] == [];
    } else {
      assert a[4..][1..] == a[5..] == [];
      assert Render(a[4..]) == Entry(a[4]) + "";
    }
    assert Render(a[2..]) == e2 + tail;
    assert Render(a[1..]) == e1 + (e2 + tail);
    assert Render(a) == e0 + (e1 + (e2 + tail));
  }

  lemma {:induction false} SplitEntryKey(k: string, v: string)
    requires '=' !in k
    ensures SplitEntry(k + "=" + v) == (k, v)
  {
    if k == [] {
      assert (k + "=" + v)[1..] == v;
    } else {
      assert (k + "=" + v)[1..] == k[1..] + "=" + v;
      SplitEntryKey(k[1..], v);
      assert [k[0]] + k[1..] == k;
    }
  }

  lemma {:induction false} SplitRender(attrs: seq<(string, string)>)
    requires PlainAttributes(attrs)
    ensures Config.Split(Render(attrs), Separator) == Entries(attrs) + [""]
    ensures SplitEntries(Entries(attrs)) == attrs
  {
    if attrs != [] {
      var a := attrs[0];
      SplitRender(attrs[1..]);
      Config.SplitJoinOne(a.0 + "=" + a.1, Render(attrs[1..]), Separator);
      assert Render(attrs) == (a.0 + "=" + a.1) + [Separator] + Render(attrs[1..]);
      SplitEntryKey(a.0, a.1);
    }
  }

  /** The driver reads back exactly the attributes the manager meant to send,
      whenever no value contains `;`. */
  lemma ConnectionStringRoundTrip(s: Settings)
    requires Plain(s)
    requires s.trusted || (Given(s.username) && Given(s.password))
    ensures ParseAttributes(ConnectionString(s).value) == Attributes(s)
  {
    var attrs := Attributes(s);
    assert PlainText("{" + s.driver + "}");
    assert PlainAttributes(attrs);
    SplitRender(attrs);
    var parts := Config.Split(Render(attrs), Separator);
    assert parts[..|parts| - 1] == Entries(attrs);
  }

  // ---------------------------------------------------------------------
  // Connecting and health checks
  // ---------------------------------------------------------------------

  /** `connect()`: never raises; a failed credential check calls no driver. */
  function Connect(s: Settings, h: Handles, outcome: ConnectOutcome): (r: Step<bool>)
    ensures r.result <==> ConnectionString(s).Some? && outcome.Opened?
    ensures r.result ==> r.handles == Handles(Some(outcome.session), Some(outcome.cursor))
    ensures ConnectionString(s).None? ==> r.handles == h && r.calls == []
    ensures ConnectionString(s).Some? ==> r.calls != [] && r.calls[0] == Open(ConnectionString(s).value)
    ensures !r.result ==> r.handles.cursor == h.cursor
  {
    match ConnectionString(s)
    case None => Step(h, false, [])
    case Some(cs) =>
      match outcome
      case Refused => Step(h, false, [Open(cs)])
      case NoCursor(session) => Step(h.(conn := Some(session)), false, [Open(cs), OpenCursor])
      case Opened(session, cursor) => Step(Handles(Some(session), Some(cursor)), true, [Open(cs), OpenCursor])
  }

  /** `is_connected()`: a probe statement on the cursor; any failure reads as "not connected". */
  function IsConnected(h: Handles, probeSucceeds: bool): (r: Step<bool>)
    ensures r.handles == h
    ensures r.result <==> h.conn.Some? && h.cursor.Some? && probeSucceeds
    ensures h.conn.None? ==> r.calls == []
  {
    if h.conn.None? then Step(h, false, [])
    else if h.cursor.None? then Step(h, false, [])  // the probe meets a None cursor
    else Step(h, probeSucceeds, [Probe])
  }

  predicate Live(h: Handles) {
    h.conn.Some? && h.cursor.Some?
  }

  /** `reconnect_if_needed()`. */
  function ReconnectIfNeeded(s: Settings, h: Handles, probeSucceeds: bool, outcome: ConnectOutcome): (r: Step<bool>)
    ensures Live(h) && probeSucceeds ==> r == Step(h, true, [Probe])
    ensures !(Live(h) && probeSucceeds) ==>
      var c := Connect(s, h, outcome);
      r.result == c.result && r.handles == c.handles && r.calls == IsConnected(h, probeSucceeds).calls + c.calls
    ensures r.result ==> Live(r.handles)
  {
    var health := IsConnected(h, probeSucceeds);
    if health.result then health
    else
      var c := Connect(s, h, outcome);
      Step(c.handles, c.result, health.calls + c.calls)
  }

  /** A healthy session is never reconnected: two checks in a row both succeed,
      keep the same handles, and only probe. */
  lemma ReconnectTwiceIsIdle(s: Settings, h: Handles, outcome: ConnectOutcome)
    requires Live(h)
    ensures var first := ReconnectIfNeeded(s, h, true, outcome);
      var second := ReconnectIfNeeded(s, first.handles, true, outcome);
      first.result && second.result && second.handles == h && first.calls + second.calls == [Probe, Probe]
  {
  }

  // ---------------------------------------------------------------------
  // Executing statements
  // ---------------------------------------------------------------------

  /** Python truthiness of the `params` argument. */
  function Bound(params: Option<seq<Value>>): (r: Option<seq<Value>>)
    ensures r.None? <==> params.None? || params.value == []
    ensures r.Some? ==> r == params
  {
    if params.Some? && params.value != [] then params else None
  }

  /** The fetch loop: one dict per fetched row, in fetch order. None stands for
      the IndexError of a row with more values than there are columns. */
  function Materialize(columns: seq<string>, rows: seq<seq<Value>>): (r: Option<seq<Records.Record>>)
    ensures r.Some? <==> forall i :: 0 <= i < |rows| ==> |rows[i]| <= |columns|
    ensures r.Some? ==>
      && |r.value| == |rows|
      && forall i :: 0 <= i < |rows| ==> Records.Zip(columns, rows[i]) == Some(r.value[i])
  {
    if rows == [] then Some([])
    else
      match Records.Zip(columns, rows[0])
      case None => None
      case Some(first) =>
        match Materialize(columns, rows[1..])
        case None => None
        case Some(rest) => Some([first] + rest)
  }

  /** The inner try block: column names from the description, then `fetchall()`. */
  function Fetched(st: Statement): Option<seq<Records.Record>> {
    if st.description.None? || st.rows.None? then None
    else Materialize(st.description.value, st.rows.value)
  }

  /** The driver calls of the fetch block: `fetchall()` is reached only when a
      description exists. */
  function FetchCalls(st: Statement): seq<Call> {
    if st.description.Some? then [FetchAll] else []
  }

  /** `exec(script, params)`. */
  function Exec(s: Settings, h: Handles, script: string, params: Option<seq<Value>>, drv: Driver)
    : (r: Step<Result<ExecResult, Error>>)
    ensures var live := ReconnectIfNeeded(s, h, drv.probeSucceeds, drv.connect);
      && r.handles == live.handles
      && (r.result == Failure(ConnectionError(ConnectFailed)) <==> !live.result)
      && (!live.result ==> r.calls == live.calls)
      && (live.result ==> live.calls + [Execute(script, Bound(params))] <= r.calls)
    ensures var live := ReconnectIfNeeded(s, h, drv.probeSucceeds, drv.connect).result;
      var st := drv.statement;
      && (r.result.Success? <==>
            live && st.executes && ((Fetched(st).Some? && st.rowsCommit) || st.countCommit))
      && (r.result.Success? && r.result.value.Rows? <==>
            live && st.executes && Fetched(st).Some? && st.rowsCommit)
      && (r.result.Success? && r.result.value.Count? <==>
            live && st.executes && !(Fetched(st).Some? && st.rowsCommit) && st.countCommit)
    ensures r.result.Success? ==> r.calls[|r.calls| - 1] == Commit && Rollback !in r.calls
    ensures r.result == Failure(DatabaseError) ==> r.calls[|r.calls| - 1] == Rollback
    ensures ReconnectIfNeeded(s, h, drv.probeSucceeds, drv.connect).result && r.result.Failure? ==>
      r.result == Failure(DatabaseError) && r.calls[|r.calls| - 1] == Rollback
    ensures r.result.Success? && r.result.value.Rows? ==>
      Fetched(drv.statement) == Some(r.result.value.records)
    ensures r.result.Success? && r.result.value.Count? ==> r.result.value.n == drv.statement.rowcount
  {
    var live := ReconnectIfNeeded(s, h, drv.probeSucceeds, drv.connect);
    if !live.result then
      Step(live.handles, Failure(ConnectionError(ConnectFailed)), live.calls)
    else
      var run := RunStatement(live.handles, script, params, drv.statement);
      Step(run.handles, run.result, live.calls + run.calls)
  }

  /** `exec` is the reconnect step followed, on a live session, by the statement step. */
  lemma ExecUnfolds(s: Settings, h: Handles, script: string, params: Option<seq<Value>>, drv: Driver)
    ensures var live := ReconnectIfNeeded(s, h, drv.probeSucceeds, drv.connect);
      var run := RunStatement(live.handles, script, params, drv.statement);
      Exec(s, h, script, params, drv)
        == if live.result then Step(run.handles, run.result, live.calls + run.calls)
           else Step(live.handles, Failure(ConnectionError(ConnectFailed)), live.calls)
  {
  }

  /** The statement part of `exec`, once a live session exists. */
  function RunStatement(h: Handles, script: string, params: Option<seq<Value>>, st: Statement)
    : (r: Step<Result<ExecResult, Error>>)
    ensures r.handles == h
    ensures r.calls != [] && r.calls[0] == Execute(script, Bound(params))
  {
    var executed := [Execute(script, Bound(params))];
    if !st.executes then
      Step(h, Failure(DatabaseError), executed + [Rollback])
    else
      var fetched := Fetched(st);
      var calls := executed + FetchCalls(st);
      if fetched.Some? && st.rowsCommit then
        Step(h, Success(Rows(fetched.value)), calls + [Commit])
      else
        // a failed fetch block, or a failed commit after fetching, falls
        // through to the row-count path, which commits once more
        var failedCommit := if fetched.Some? then [Commit] else [];
        if st.countCommit then
          Step(h, Success(Count(st.rowcount)), calls + failedCommit + [Commit])
        else
          Step(h, Failure(DatabaseError), calls + failedCommit + [Commit, Rollback])
  }

  /** A read statement with distinct column names returns, per fetched row and
      in fetch order, the dict mapping the i-th column name to the i-th value. */
  lemma ExecReturnsRows(s: Settings, h: Handles, script: string, params: Option<seq<Value>>, drv: Driver)
    requires ReconnectIfNeeded(s, h, drv.probeSucceeds, drv.connect).result
    requires drv.statement.executes && drv.statement.rowsCommit
    requires drv.statement.description.Some? && drv.statement.rows.Some?
    requires Records.Distinct(drv.statement.description.value)
    requires forall i :: 0 <= i < |drv.statement.rows.value| ==>
      |drv.statement.rows.value[i]| == |drv.statement.description.value|
    ensures var r := Exec(s, h, script, params, drv).result;
      var columns, rows := drv.statement.description.value, drv.statement.rows.value;
      && r.Success? && r.value.Rows?
      && |r.value.records| == |rows|
      && forall i :: 0 <= i < |rows| ==>
        && Records.Keys(r.value.records[i]) == columns
        && forall j :: 0 <= j < |columns| ==> Records.Get(r.value.records[i], columns[j]) == Some(rows[i][j])
  {
    var r := Exec(s, h, script, params, drv).result;
    var columns, rows := drv.statement.description.value, drv.statement.rows.value;
    forall i | 0 <= i < |rows|
      ensures Records.Keys(r.value.records[i]) == columns
      ensures forall j :: 0 <= j < |columns| ==> Records.Get(r.value.records[i], columns[j]) == Some(rows[i][j])
    {
      Records.ZipDistinct(columns, rows[i]);
      assert columns[..|rows[i]|] == columns;
    }
  }

  // ---------------------------------------------------------------------
  // Closing
  // ---------------------------------------------------------------------

  /** `close()`: closes whatever is open and nulls both fields. */
  function Close(h: Handles): (r: Step<()>)
    ensures r.handles == Closed
    ensures CloseCursor in r.calls <==> h.cursor.Some?
    ensures CloseSession in r.calls <==> h.conn.Some?
  {
    Step(Closed, (), (if h.cursor.Some? then [CloseCursor] else []) + (if h.conn.Some? then [CloseSession] else []))
  }

  /** Closing twice is safe: the second close calls nothing and changes nothing. */
  lemma CloseIdempotent(h: Handles)
    ensures Close(Close(h).handles) == Step(Closed, (), [])
  {
  }
}
