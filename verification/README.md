# Report job: a Dafny model

This project models the core of a small report job. The job extracts
transactional records from a SQL Server database for a date range, renders
them as a spreadsheet, and delivers the spreadsheet by e-mail (BCC to every
recipient) or, when the mail configuration is incomplete, as a local file.

The model covers these pieces:

- **Date-range resolution** (`Reporter.PreviousMonth`, `Reporter.ExplicitRange`,
  `Reporter.ResolveDateRange`). It works over proleptic Gregorian dates in
  `Dates`, which have Python `datetime.date` semantics: years 1..9999,
  lexicographic comparison, and day arithmetic through ordinal day numbers.
- **The connection manager** (`SqlConnection`). It is a state machine over the
  nullable `conn`/`cursor` fields and an abstract driver.
  - Every driver outcome is an input: whether each connect succeeds or opens
    no cursor (the constructor's connect and the reconnect inside `exec` are
    separate inputs), the health probe, whether execution succeeds, the
    column description, `fetchall`, the row count, and the outcome of each of
    the two commits `exec` can make (after fetching rows, and after reading
    the row count).
  - Every operation returns three things: the new fields, its result, and the
    list of driver calls it made.
  - `ConnectionManager.Connection` is the same manager as an object with
    mutable fields. Each of its methods is proved to agree with the state
    machine.
- **Row materialisation** (`Records`). Result rows are Python dicts kept in
  insertion order.
- **The spreadsheet table** (`Excel`). It builds the header row and the
  projected rows, and computes the column-width rule.
- **The mail collaborator** (`Mail`). It checks the required keys, builds the
  BCC list, builds the request it posts, and classifies the HTTP status.
- **The configuration loader** (`Config`). It drops comment lines, parses the
  JSON, and requires the top-level value to be an object.
- **`fetch_data` and `main`** (`Reporter.FetchData`, `Reporter.Main`). `main`
  is a pure function. It takes the outcomes of its collaborators and returns
  the exit code, the delivery, and the rendered table.

Two behaviours of the code that a reader might not expect; the model keeps
both:

- `fetch_data` closes the connection only after a successful `exec`. On an
  error it re-raises without closing.
- `connect` does not raise when credentials are missing. It returns False
  without calling the driver.

## Model

| member | source | states |
|---|---|---|
| `Dates.PreviousDay` | src/reporter.py:102 | subtracting a day fails only at 0001-01-01 (OverflowError) and otherwise gives a valid, strictly earlier date |
| `Dates.PreviousDayOrdinal` | src/reporter.py:102 | the day before a date has an ordinal day number exactly one smaller (agrees with `timedelta` arithmetic) |
| `Dates.BeforeIsOrdinalOrder` | src/reporter.py:113 | Python's date comparison `start_date > end_date` is the order of ordinal day numbers |
| `Dates.YmdRoundTrip` | src/reporter.py:220 | `strftime('%Y%m%d')` of a valid date is eight digits that read back as the same date |
| `Reporter.PreviousMonth` | src/reporter.py:97-106 | previous-month mode: start is day 1 and end is the last day of the month just before today's month (January gives December of the prior year); start <= end; fails with OverflowError only in January of year 1 |
| `Reporter.PreviousMonthEndsBeforeCurrent` | src/reporter.py:100-102 | the end date is the day before the first of the current month |
| `Reporter.PreviousMonthCoversMonth` | src/reporter.py:100-106 | a date lies between start and end iff it falls in that calendar month |
| `Reporter.ExplicitRange` | src/reporter.py:107-118 | explicit mode succeeds iff both texts parse and start <= end (equal allowed), returning the parsed pair unchanged; every failure, including start > end, is a ValueError prefixed "Invalid date format: " |
| `Reporter.ResolveDateRange` | src/reporter.py:84-118 | whichever mode is selected, a returned range consists of valid dates with start <= end |
| `Reporter.Lookup` | src/reporter.py:140-143 | a configuration index returns the value stored under the key; a missing key is a KeyError naming it, and indexing a non-object is a TypeError |
| `Reporter.DbSettings` | src/reporter.py:139-144 | the manager is constructed from `connection_data`'s host, database, user and password (null user or password meaning none), with SQL Server authentication and the default driver; a missing `connection_data` is a KeyError naming it |
| `Reporter.FetchData` | src/reporter.py:137-158 | the query runs on a freshly constructed (auto-connecting) manager, with the constructor's connect and `exec`'s reconnect as separate driver outcomes, and its result is returned unchanged; the connection is closed iff `exec` returned: on success the driver calls end with closing the cursor and session that are open, and on an error nothing is closed |
| `Reporter.FetchBindsRange` | src/reporter.py:146-148 | once a live connection exists, from the constructor or from the reconnect, the date-range query is executed with the parameters (start, end) in that order |
| `Reporter.ReconnectRescuesConstruction` | src/reporter.py:138-148 | a failed connect at construction is not fatal: when the reconnect inside `exec` opens a session, the fetch does not end in the connection error, and the driver is asked to connect a second time with the same connection string |
| `Reporter.AllKeysIn` | src/reporter.py:203 | on an object, `all(key in mail for key in keys)` is true exactly when every key is present |
| `Reporter.MailComplete` | src/reporter.py:203 | the e-mail branch needs a "mail" section holding all six keys; a missing section means the local-file branch; values are not inspected |
| `Reporter.RecipientCount` | src/reporter.py:205 | `len(mail["recipients"])` succeeds iff the section is an object whose `recipients` is a string, list or object, giving its length; otherwise it is a TypeError (a KeyError when the key is missing) |
| `Reporter.ReportFileNameRoundTrip` | src/reporter.py:220 | the fallback name is `Report_<YYYYMMDD>_to_<YYYYMMDD>.xlsx`: 32 characters whose two date fields read back as start and end |
| `Reporter.Main` | src/reporter.py:161-234 | exit code 1 iff the run aborted; "no data" iff the fetch returned no rows (nothing rendered or delivered); a report is rendered iff rows were fetched; e-mail iff the mail section is complete and its recipients have a length, exit 0 even when sending fails and no file is written; a complete section whose recipients have no length aborts with a TypeError; otherwise the file named from the range |
| `SqlConnection.ConnectionString` | src/modules/database/sql_connection.py:43-53 | a string is built iff trusted mode is on or both username and password are non-empty; it is the DRIVER/SERVER/DATABASE attributes followed by `Trusted_Connection=yes` or by UID and PWD |
| `SqlConnection.ConnectionStringRoundTrip` | src/modules/database/sql_connection.py:43-53 | when no value contains `;`, a driver splitting the string on `;` and `=` reads back exactly the intended attributes |
| `SqlConnection.Connect` | src/modules/database/sql_connection.py:35-60 | returns True iff credentials pass and the driver opens a session and cursor; a failed credential check makes no driver call and changes nothing; a failure never raises and keeps the old cursor |
| `SqlConnection.IsConnected` | src/modules/database/sql_connection.py:62-77 | true iff `conn` and `cursor` are set and the probe succeeds; no driver call when `conn` is None; the fields never change |
| `SqlConnection.ReconnectIfNeeded` | src/modules/database/sql_connection.py:79-89 | a healthy session returns True after only the probe, without reconnecting; otherwise the result is that of `connect`; True leaves both fields set |
| `SqlConnection.ReconnectTwiceIsIdle` | src/modules/database/sql_connection.py:79-89 | two checks in a row on a live session both succeed, keep the handles, and only probe |
| `SqlConnection.Bound` | src/modules/database/sql_connection.py:116-119 | parameters are passed to the driver iff they are present and non-empty |
| `SqlConnection.Materialize` | src/modules/database/sql_connection.py:122-127 | one dict per fetched row, in fetch order, each built from the column names; fails iff some row has more values than there are columns |
| `SqlConnection.Exec` | src/modules/database/sql_connection.py:91-140 | ConnectionError iff reconnection fails, with no statement executed; rows iff execution, the fetch block and the commit after it succeed; the row count iff execution succeeds, rows were not returned, and the commit after reading the count succeeds (also after a failed commit of fetched rows); every success ends in a commit with no rollback, and every failure after a live reconnect is a DatabaseError that ends in a rollback |
| `SqlConnection.RunStatement` | src/modules/database/sql_connection.py:114-140 | the statement step leaves the fields alone and starts by executing the script with the bound parameters |
| `SqlConnection.ExecReturnsRows` | src/modules/database/sql_connection.py:122-130 | with distinct column names, the result has one dict per row whose keys are the columns in order and whose i-th column maps to the i-th value |
| `SqlConnection.Close` | src/modules/database/sql_connection.py:142-153 | both fields end None; the cursor and session are closed iff they were set |
| `ConnectionManager.Connection.constructor` | src/modules/database/sql_connection.py:10-33 | a new manager stores its settings and has connected once, leaving the fields and driver calls that a connect from no session leaves |
| `ConnectionManager.Connection.Connect` | src/modules/database/sql_connection.py:35-60 | the object's answer, fields and appended driver calls agree with `SqlConnection.Connect` |
| `ConnectionManager.Connection.IsConnected` | src/modules/database/sql_connection.py:62-77 | agrees with `SqlConnection.IsConnected` |
| `ConnectionManager.Connection.ReconnectIfNeeded` | src/modules/database/sql_connection.py:79-89 | agrees with `SqlConnection.ReconnectIfNeeded` |
| `ConnectionManager.Connection.Exec` | src/modules/database/sql_connection.py:91-140 | agrees with `SqlConnection.Exec` |
| `ConnectionManager.Connection.Close` | src/modules/database/sql_connection.py:142-153 | agrees with `SqlConnection.Close` |
| `SqlConnection.CloseIdempotent` | src/modules/database/sql_connection.py:146-153 | a second close makes no call and changes nothing |
| `Records.Put` | src/modules/database/sql_connection.py:127 | dict assignment: the key then maps to the value, other keys are unaffected, an existing key keeps its position, and a new key is appended |
| `Records.Zip` | src/modules/database/sql_connection.py:127 | the row dict exists iff the row has no more values than there are columns |
| `Records.ZipDistinct` | src/modules/database/sql_connection.py:127 | with distinct column names, the keys are the columns in order and `columns[i]` maps to `row[i]` |
| `Excel.BuildSheet` | src/modules/excel.py:18-32 | fails with ValueError exactly on empty data; otherwise it has a header row with the first record's keys, then one row per record, each as wide as the header |
| `Excel.SheetCells` | src/modules/excel.py:26-32 | the cell under header j of row i is record i's value for that header, or "" when the record lacks it |
| `Excel.ProjectRoundTrip` | src/modules/excel.py:26-32 | projecting a record onto its own keys and zipping the header back recovers the record |
| `Excel.ColumnCount` | src/modules/excel.py:72 | the worksheet's column count is the length of its longest row, or 1 when every row is empty |
| `Excel.AutoAdjustWidth` | src/modules/excel.py:65-80 | one width per column, each equal to the longest truthy cell of that column (header included) plus 2 |
| `Excel.LongestCellIsMaximum` | src/modules/excel.py:74-78 | the column maximum bounds every truthy cell's `str()` length and, unless it is 0, is attained by some cell |
| `Mail.Entry` | src/modules/mail.py:40-42 | the entry's address is the recipient's email; the name is included iff the "name" key is present and non-empty |
| `Mail.Bcc` | src/modules/mail.py:35-44 | the BCC list is never longer than the recipient list |
| `Mail.BccKeepsExactlyEmailed` | src/modules/mail.py:35-44 | every recipient with an email has its entry in the list, every entry comes from such a recipient, and the list is empty (or complete) iff no recipient (or every recipient) has an email |
| `Mail.BccAppend` | src/modules/mail.py:35-44 | the list is built in recipient order: the list for `a + b` is the list for `a` followed by the list for `b` |
| `Mail.BuildBcc` | src/modules/mail.py:34-44 | the loop builds exactly the reference BCC list |
| `Mail.SendEmail` | src/modules/mail.py:23-104 | a request is posted iff all five required keys are present and some recipient has an email; it returns True iff a request was posted and the status is 200 or 202; the request carries the BCC list, the bounce address (`bounce_email` or else `from_email`) and the header `Zoho-enczapikey <api_key>` |
| `Config.Split` | src/modules/config.py:33 | `split('\n')` always gives at least one part and no part contains the separator |
| `Config.JoinSplit` | src/modules/config.py:33-34 | joining the split lines gives back the original content |
| `Config.SplitJoin` | src/modules/config.py:33-34 | splitting a join of separator-free lines gives back the lines |
| `Config.KeptLines` | src/modules/config.py:34 | a line is kept iff it is not a comment line, and no line is added |
| `Config.KeptLinesAppend` | src/modules/config.py:34 | filtering is line by line, so order is preserved |
| `Config.LinesOfStripped` | src/modules/config.py:33-34 | the cleaned text's lines are exactly the non-comment lines, unmodified and in order ("" when every line is a comment) |
| `Config.NoCommentsUnchanged` | src/modules/config.py:33-34 | content without comment lines reaches the parser unchanged |
| `Config.StripCommentsIdempotent` | src/modules/config.py:33-34 | removing comment lines twice gives the same text as once |
| `Config.CommentLineByFirstCharacter` | src/modules/config.py:34 | a line is a comment iff its first non-blank characters are `//`, so text before a `//` keeps the line |
| `Config.LoadConfig` | src/modules/config.py:33-50 | succeeds iff the cleaned text parses to a JSON object, which it returns; a decode failure or a non-object is a ValueError with the messages `load_configs` raises |

## Left out

- File system and process plumbing are not modelled: argument parsing, `os.chdir`, path resolution, the configuration file's existence check and read, and the write of the fallback file. A failed write is the `written` input of `Reporter.Main`.
- Logging and printed messages are not modelled. Two arguments of log calls are modelled because evaluating them can raise: `len(data)` at src/reporter.py:190, which is the TypeError `Reporter.Main` reports for a row-count result, and `len(config['mail']['recipients'])` at src/reporter.py:205, which is `Reporter.RecipientCount`.
- `date.today()` is the `today` parameter.
- `strptime("%Y-%m-%d")` is an abstract parser parameter; its exact leniency is library behaviour.
- `json.loads` is an abstract parser parameter.
- pyodbc is an abstract driver. SQL semantics belong to the database, including the BETWEEN filter and the descending order of the query. The model only shows that `exec` keeps fetch order.
- Driver failures of `rollback` and `close` are not modelled, because `exec` and `close` do not handle them.
- The destructor is not modelled, because garbage-collection timing is outside the program's control.
- openpyxl output is modelled as cell values only. Errors openpyxl raises for values it cannot store are not modelled. Fonts, fills, alignment, autofilter and xlsx serialisation are left out, and so are the bytes handed to the mail and file steps.
- The mail transport, HTML body, base64 attachment and timestamped attachment name are left out. The HTTP status is the `status` input, with None when `requests.post` raises. `main` takes the mail answer as its `emailSent` input.
- A KeyboardInterrupt during the mail request is not modelled: `send_email` catches only `Exception`, and `emailSent` is a plain answer. Interrupts reach `Reporter.Main` only through the configuration and fetch outcomes.
- Recipients and the mail configuration are modelled as string-to-string dicts, which is the type the mail module declares.
- Dates.YmdText: pads every year to four digits. Explicit mode accepts years below 1000 (`strptime` reads `0999`), and for those years `strftime('%Y')` is platform dependent: glibc prints `999` without padding. On such a platform the fallback file name at src/reporter.py:220 is shorter than the 32-character name `Reporter.ReportFileName` gives, and `Reporter.ReportFileNameRoundTrip` does not describe it.
- Reporter.DbSettings: a `host` or `database` that is not a string, or a `user` or `password` that is neither a string nor null, is reported as a TypeError. Python would instead format such a value with `str()` when it builds the connection string.
- Values.Value: floats, decimals, datetimes and other driver types are kept abstract as `Other(repr, truthy)`. Only `str()` and truthiness of a value matter to the model.
- Excel.AutoAdjustWidth: widths are computed over the cell values the model holds. Cell conversions openpyxl might apply on assignment are not modelled.
