/** The report renderer as a table builder: a header row from the first
    record's keys, one projected row per record, and the column-width rule.
    Styling and xlsx serialisation are not modelled. */
module Excel {
  import opened Wrappers
  import opened Errors
  import opened Values
  import Records

  type Row = seq<Value>

  /** The worksheet's cell values, row by row; row 0 is the header row. */
  type Sheet = seq<Row>

  const EmptyData := "Data list is empty."
  const Padding := 2

  function HeaderRow(headers: seq<string>): Row {
    seq(|headers|, j requires 0 <= j < |headers| => Text(headers[j]))
  }

  /** `[row_dict.get(header, "") for header in headers]`. */
  function Project(r: Records.Record, headers: seq<string>): Row {
    seq(|headers|, j requires 0 <= j < |headers| => Records.Get(r, headers[j]).GetOr(Text("")))
  }

  /** The cell values `generate_excel_report` appends to its worksheet. */
  function BuildSheet(data: seq<Records.Record>): (r: Result<Sheet, Error>)
    ensures r.Failure? <==> data == []
    ensures r.Failure? ==> r.error == ValueError(EmptyData)
    ensures r.Success? ==>
      var headers := Records.Keys(data[0]);
      && |r.value| == 1 + |data|
      && r.value[0] == HeaderRow(headers)
      && forall i :: 1 <= i < |r.value| ==> |r.value[i]| == |headers|
  {
    if data == [] then Failure(ValueError(EmptyData))
    else
      var headers := Records.Keys(data[0]);
      Success([HeaderRow(headers)] + seq(|data|, i requires 0 <= i < |data| => Project(data[i], headers)))
  }

  /** Each data row holds, under every header, the record's value for that
      header or "" when the record lacks it; keys the first record does not
      have are dropped. */
  lemma SheetCells(data: seq<Records.Record>, i: int, j: int)
    requires 0 <= i < |data|
    requires 0 <= j < |Records.Keys(data[0])|
    ensures var headers := Records.Keys(data[0]);
      var cell := BuildSheet(data).value[i + 1][j];
      && (headers[j] in Records.Keys(data[i]) ==> Some(cell) == Records.Get(data[i], headers[j]))
      && (headers[j] !in Records.Keys(data[i]) ==> cell == Text(""))
  {
    var headers := Records.Keys(data[0]);
    if headers[j] !in Records.Keys(data[i]) {
      Records.GetAbsent(data[i], headers[j]);
    } else {
      var k :| 0 <= k < |data[i]| && Records.Keys(data[i])[k] == headers[j];
      GetFirst(data[i], k);
    }
  }

  lemma {:induction false} GetFirst(r: Records.Record, k: int)
    requires 0 <= k < |r|
    ensures Records.Get(r, r[k].0).Some?
  {
    if k > 0 && r[0].0 != r[k].0 {
      GetFirst(r[1..], k - 1);
    }
  }

  /** Projecting a record onto its own key order and zipping the header back
      recovers the record: the sheet loses nothing of any record whose keys
      are those of the first. */
  lemma ProjectRoundTrip(r: Records.Record)
    requires Records.WellFormed(r)
    ensures Records.Zip(Records.Keys(r), Project(r, Records.Keys(r))) == Some(r)
  {
    var headers := Records.Keys(r);
    var cells := Project(r, headers);
    forall j | 0 <= j < |headers|
      ensures cells[j] == r[j].1
    {
      Records.GetAt(r, j);
    }
    Records.ZipPrefixDistinct(headers, cells, |cells|);
    assert Records.Pairs(headers, cells, |cells|) == r;
  }

  // ---------------------------------------------------------------------
  // Column widths
  // ---------------------------------------------------------------------

  /** Longest row; the worksheet reports at least one column even when empty. */
  function ColumnCount(sheet: Sheet): (n: nat)
    ensures n >= 1
    ensures forall i :: 0 <= i < |sheet| ==> |sheet[i]| <= n
    ensures n == 1 || exists i :: 0 <= i < |sheet| && |sheet[i]| == n
  {
    if sheet == [] then 1
    else
      var rest := ColumnCount(sheet[1..]);
      assert forall i :: 1 <= i < |sheet| ==> sheet[i] == sheet[1..][i - 1];
      if |sheet[0]| > rest then |sheet[0]|
      else
        assert rest == 1 || exists i :: 1 <= i < |sheet| && |sheet[i]| == rest;
        rest
  }

  /** The cell at row `i`, column `j`; cells past the end of a row are empty. */
  function Cell(sheet: Sheet, i: int, j: int): Value
    requires 0 <= i < |sheet| && 0 <= j
  {
    if j < |sheet[i]| then sheet[i][j] else Null
  }

  /** The length a cell contributes: `len(str(v))` when truthy, else nothing. */
  function CellLength(v: Value): nat {
    if Truthy(v) then |Show(v)| else 0
  }

  /** The longest `str()` among the truthy cells of column `j` in the first `n` rows. */
  function LongestCell(sheet: Sheet, j: nat, n: nat): nat
    requires n <= |sheet|
  {
    if n == 0 then 0
    else
      var before := LongestCell(sheet, j, n - 1);
      var here := CellLength(Cell(sheet, n - 1, j));
      if here > before then here else before
  }

  /** `LongestCell` is the maximum: no truthy cell is longer, and unless it is
      zero some truthy cell has exactly that length. */
  lemma {:induction false} LongestCellIsMaximum(sheet: Sheet, j: nat, n: nat)
    requires n <= |sheet|
    ensures forall i :: 0 <= i < n ==> CellLength(Cell(sheet, i, j)) <= LongestCell(sheet, j, n)
    ensures LongestCell(sheet, j, n) == 0
      || exists i :: 0 <= i < n && CellLength(Cell(sheet, i, j)) == LongestCell(sheet, j, n)
  {
    if n > 0 {
      LongestCellIsMaximum(sheet, j, n - 1);
    }
  }

  /** `_auto_adjust_width`: each column is two wider than its longest truthy
      cell, header included. */
  method AutoAdjustWidth(sheet: Sheet) returns (widths: seq<int>)
    ensures |widths| == ColumnCount(sheet)
    ensures forall j :: 0 <= j < |widths| ==> widths[j] == LongestCell(sheet, j, |sheet|) + Padding
  {
    var columns := ColumnCount(sheet);
    widths := [];
    var j := 0;
    while j < columns
      invariant 0 <= j <= columns
      invariant |widths| == j
      invariant forall c :: 0 <= c < j ==> widths[c] == LongestCell(sheet, c, |sheet|) + Padding
    {
      var maxLength := 0;
      var i := 0;
      while i < |sheet|
        invariant 0 <= i <= |sheet|
        invariant maxLength == LongestCell(sheet, j, i)
      {
        var cell := Cell(sheet, i, j);
        if Truthy(cell) {
          var length := |Show(cell)|;
          if length > maxLength {
            maxLength := length;
          }
        }
        i := i + 1;
      }
      widths := widths + [maxLength + Padding];
      j := j + 1;
    }
  }
}
