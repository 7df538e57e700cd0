/** The connection manager as an object: nullable `conn` and `cursor` fields
    over the abstract driver, each method composed from the others as in
    `SQLConnection`, and each proved to agree with the state-machine model. */
module ConnectionManager {
  import opened Wrappers
  import opened Errors
  import opened Values
  import S = SqlConnection

  class Connection {
    const settings: S.Settings
    var conn: Option<S.Session>
    var cursor: Option<S.Cursor>
    /** The driver calls made so far. */
    ghost var calls: seq<S.Call>

    function Fields(): S.Handles
      reads this
    {
      S.Handles(conn, cursor)
    }

    /** Construction connects at once; its outcome is not reported. */
    constructor (settings: S.Settings, outcome: S.ConnectOutcome)
      ensures this.settings == settings
      ensures Fields() == S.Connect(settings, S.Closed, outcome).handles
      ensures calls == S.Connect(settings, S.Closed, outcome).calls
    {
      this.settings := settings;
      conn := None;
      cursor := None;
      calls := [];
      new;
      var _ := Connect(outcome);
    }

    method Connect(outcome: S.ConnectOutcome) returns (ok: bool)
      modifies this
      ensures var step := S.Connect(settings, old(Fields()), outcome);
        ok == step.result && Fields() == step.handles && calls == old(calls) + step.calls
    {
      var cs := S.ConnectionString(settings);
      if cs.None? {
        return false;
      }
      calls := calls + [S.Open(cs.value)];
      match outcome
      case Refused =>
        ok := false;
      case NoCursor(session) =>
        conn := Some(session);
        calls := calls + [S.OpenCursor];
        ok := false;
      case Opened(session, c) =>
        conn := Some(session);
        calls := calls + [S.OpenCursor];
        cursor := Some(c);
        ok := true;
    }

    method IsConnected(probeSucceeds: bool) returns (ok: bool)
      modifies this
      ensures var step := S.IsConnected(old(Fields()), probeSucceeds);
        ok == step.result && Fields() == step.handles && calls == old(calls) + step.calls
    {
      if conn.None? || cursor.None? {
        return false;
      }
      calls := calls + [S.Probe];
      ok := probeSucceeds;
    }

    method ReconnectIfNeeded(probeSucceeds: bool, outcome: S.ConnectOutcome) returns (ok: bool)
      modifies this
      ensures var step := S.ReconnectIfNeeded(settings, old(Fields()), probeSucceeds, outcome);
        ok == step.result && Fields() == step.handles && calls == old(calls) + step.calls
    {
      var live := IsConnected(probeSucceeds);
      if live {
        return true;
      }
      ok := Connect(outcome);
    }

    method Exec(script: string, params: Option<seq<Value>>, drv: S.Driver) returns (r: Result<S.ExecResult, Error>)
      modifies this
      ensures var step := S.Exec(settings, old(Fields()), script, params, drv);
        r == step.result && Fields() == step.handles && calls == old(calls) + step.calls
    {
      S.ExecUnfolds(settings, Fields(), script, params, drv);
      var live := ReconnectIfNeeded(drv.probeSucceeds, drv.connect);
      if !live {
        return Failure(ConnectionError(S.ConnectFailed));
      }
      var run := S.RunStatement(Fields(), script, params, drv.statement);
      calls := calls + run.calls;
      r := run.result;
    }

    method Close()
      modifies this
      ensures var step := S.Close(old(Fields()));
        Fields() == step.handles && calls == old(calls) + step.calls
    {
      if cursor.Some? {
        calls := calls + [S.CloseCursor];
      }
      if conn.Some? {
        calls := calls + [S.CloseSession];
      }
      cursor := None;
      conn := None;
    }
  }
}
