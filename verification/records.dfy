/** Result rows as Python dicts: keys are column names, iteration order is
    insertion order. A record is the dict's item list. */
module Records {
  import opened Wrappers
  import opened Values

  type Record = seq<(string, Value)>

  /** `list(r.keys())`. */
  function Keys(r: Record): seq<string> {
    seq(|r|, i requires 0 <= i < |r| => r[i].0)
  }

  predicate Distinct(ks: seq<string>) {
    forall i, j :: 0 <= i < j < |ks| ==> ks[i] != ks[j]
  }

  /** Every dict has distinct keys. */
  predicate WellFormed(r: Record) {
    Distinct(Keys(r))
  }

  /** `r.get(k)`. */
  function Get(r: Record, k: string): Option<Value> {
    if r == [] then None
    else if r[0].0 == k then Some(r[0].1)
    else Get(r[1..], k)
  }

  /** `r[k] = v`: overwrites in place when `k` is present, otherwise appends. */
  function Put(r: Record, k: string, v: Value): (r': Record)
    ensures Get(r', k) == Some(v)
    ensures forall k' :: k' != k ==> Get(r', k') == Get(r, k')
    ensures k in Keys(r) ==> Keys(r') == Keys(r)
    ensures k !in Keys(r) ==> r' == r + [(k, v)]
  {
    if r == [] then [(k, v)]
    else if r[0].0 == k then
      assert Keys(r)[0] == k;
      [(k, v)] + r[1..]
    else
      assert Keys(r)[1..] == Keys(r[1..]);
      [r[0]] + Put(r[1..], k, v)
  }

  lemma {:induction false} GetAt(r: Record, j: int)
    requires WellFormed(r) && 0 <= j < |r|
    ensures Get(r, r[j].0) == Some(r[j].1)
  {
    if j > 0 {
      assert Keys(r)[0] != Keys(r)[j];
      assert Keys(r[1..]) == Keys(r)[1..];
      GetAt(r[1..], j - 1);
    }
  }

  lemma {:induction false} GetAbsent(r: Record, k: string)
    requires k !in Keys(r)
    ensures Get(r, k) == None
  {
    if r != [] {
      assert Keys(r)[0] == r[0].0;
      assert Keys(r[1..]) == Keys(r)[1..];
      GetAbsent(r[1..], k);
    }
  }

  /** The dict built from the first `n` values of a row. */
  function ZipPrefix(columns: seq<string>, row: seq<Value>, n: nat): Record
    requires n <= |row| <= |columns|
  {
    if n == 0 then [] else Put(ZipPrefix(columns, row, n - 1), columns[n - 1], row[n - 1])
  }

  /** `{columns[i]: value for i, value in enumerate(row)}`; None stands for the
      IndexError raised when the row has more values than there are columns. */
  function Zip(columns: seq<string>, row: seq<Value>): (r: Option<Record>)
    ensures r.Some? <==> |row| <= |columns|
  {
    if |row| > |columns| then None else Some(ZipPrefix(columns, row, |row|))
  }

  /** The pairs `(columns[i], row[i])` in column order. */
  function Pairs(columns: seq<string>, row: seq<Value>, n: nat): Record
    requires n <= |row| && n <= |columns|
  {
    seq(n, i requires 0 <= i < n => (columns[i], row[i]))
  }

  lemma {:induction false} ZipPrefixDistinct(columns: seq<string>, row: seq<Value>, n: nat)
    requires Distinct(columns) && n <= |row| <= |columns|
    ensures ZipPrefix(columns, row, n) == Pairs(columns, row, n)
  {
    if n > 0 {
      ZipPrefixDistinct(columns, row, n - 1);
      var prev := Pairs(columns, row, n - 1);
      assert Keys(prev) == columns[..n - 1];
      assert columns[n - 1] !in columns[..n - 1];
      assert prev + [(columns[n - 1], row[n - 1])] == Pairs(columns, row, n);
    }
  }

  /** With distinct column names, the i-th column name maps to the i-th value,
      in column order, and nothing else is in the dict. */
  lemma ZipDistinct(columns: seq<string>, row: seq<Value>)
    requires Distinct(columns) && |row| <= |columns|
    ensures Zip(columns, row).Some?
    ensures Keys(Zip(columns, row).value) == columns[..|row|]
    ensures WellFormed(Zip(columns, row).value)
    ensures forall i :: 0 <= i < |row| ==> Get(Zip(columns, row).value, columns[i]) == Some(row[i])
  {
    ZipPrefixDistinct(columns, row, |row|);
    var r := Zip(columns, row).value;
    assert Keys(r) == columns[..|row|];
    forall i | 0 <= i < |row|
      ensures Get(r, columns[i]) == Some(row[i])
    {
      GetAt(r, i);
    }
  }
}
