/** Host-side shaping of backend DataFrames into the sandbox's row and table
    unions (wart-worker/src/wasm/utils.rs). Headers and columns are paired by
    position up to the shorter list; the DataFrame's comment is dropped and no
    entry is filtered out. */
module Columnar {
  import opened Base
  import Frames
  import opened Imports

  /** Element k of a backend column, tagged with the column's kind. */
  function ElementOf(v: Frames.Values, k: nat): Value
    requires k < Frames.Len(v)
  {
    match v
    case BoolValues(xs) => Bol(xs[k])
    case Int32Values(xs) => I32(xs[k])
    case Int64Values(xs) => I64(xs[k])
    case Float32Values(xs) => F32(xs[k])
    case Float64Values(xs) => F64(xs[k])
    case StringValues(xs) => Txt(xs[k])
  }

  /** The row entry of one column: its first value, or Nil when the column has
      no values or an empty list. */
  function FirstValue(s: Frames.Series): (r: Value)
    ensures r.Nil? <==> (s.values.None? || Frames.Len(s.values.value) == 0)
    ensures !r.Nil? ==> r == ElementOf(s.values.value, 0)
  {
    match s.values
    case None => Nil
    case Some(v) =>
      match v
      case BoolValues(x) => if |x| > 0 then Bol(x[0]) else Nil
      case Int32Values(x) => if |x| > 0 then I32(x[0]) else Nil
      case Int64Values(x) => if |x| > 0 then I64(x[0]) else Nil
      case Float32Values(x) => if |x| > 0 then F32(x[0]) else Nil
      case Float64Values(x) => if |x| > 0 then F64(x[0]) else Nil
      case StringValues(x) => if |x| > 0 then Txt(x[0]) else Nil
  }

  /** The table entry of one column: the whole column with its kind; a column
      with no values becomes the nil vector. */
  function ColumnVector(s: Frames.Series): (r: Vector)
    ensures r.VNil? <==> s.values.None?
    ensures s.values.Some? ==>
              VectorLen(r) == Frames.Len(s.values.value)
              && forall k :: 0 <= k < VectorLen(r) ==> ElementAt(r, k) == ElementOf(s.values.value, k)
  {
    match s.values
    case None => VNil
    case Some(v) =>
      match v
      case BoolValues(x) => VBol(x)
      case Int32Values(x) => VI32(x)
      case Int64Values(x) => VI64(x)
      case Float32Values(x) => VF32(x)
      case Float64Values(x) => VF64(x)
      case StringValues(x) => VTxt(x)
  }

  /** `headers.into_iter().zip(columns).map(..)` for rows. */
  function ZipRow(hs: seq<string>, cs: seq<Frames.Series>): (r: Row)
    ensures |r| == Min(|hs|, |cs|)
    ensures forall i :: 0 <= i < |r| ==> r[i].key == hs[i] && r[i].val == FirstValue(cs[i])
    decreases |hs|
  {
    if hs == [] || cs == [] then []
    else [Entry(hs[0], FirstValue(cs[0]))] + ZipRow(hs[1..], cs[1..])
  }

  /** `headers.into_iter().zip(columns).map(..)` for tables. */
  function ZipTable(hs: seq<string>, cs: seq<Frames.Series>): (r: Table)
    ensures |r| == Min(|hs|, |cs|)
    ensures forall i :: 0 <= i < |r| ==> r[i].key == hs[i] && r[i].val == ColumnVector(cs[i])
    decreases |hs|
  {
    if hs == [] || cs == [] then []
    else [Entry(hs[0], ColumnVector(cs[0]))] + ZipTable(hs[1..], cs[1..])
  }

  /** `dump_to_imports_row`. */
  function DumpToImportsRow(df: Frames.DataFrame): (r: Row)
    ensures |r| == Min(|df.headers|, |df.columns|)
    ensures forall i :: 0 <= i < |r| ==> r[i].key == df.headers[i]
    ensures forall i :: 0 <= i < |r| ==>
              (r[i].val.Nil? <==> df.columns[i].values.None? || Frames.Len(df.columns[i].values.value) == 0)
    ensures forall i :: 0 <= i < |r| && !r[i].val.Nil? ==> r[i].val == ElementOf(df.columns[i].values.value, 0)
  {
    ZipRow(df.headers, df.columns)
  }

  /** `dump_to_imports_table`. */
  function DumpToImportsTable(df: Frames.DataFrame): (r: Table)
    ensures |r| == Min(|df.headers|, |df.columns|)
    ensures forall i :: 0 <= i < |r| ==> r[i].key == df.headers[i]
    ensures forall i :: 0 <= i < |r| ==> (r[i].val.VNil? <==> df.columns[i].values.None?)
    ensures forall i :: 0 <= i < |r| && df.columns[i].values.Some? ==>
              VectorLen(r[i].val) == Frames.Len(df.columns[i].values.value)
  {
    ZipTable(df.headers, df.columns)
  }

  /** The inverse of ColumnVector: a vector back to a backend column. */
  function VectorValues(v: Vector): Option<Frames.Values> {
    match v
    case VNil => None
    case VBol(x) => Some(Frames.BoolValues(x))
    case VI32(x) => Some(Frames.Int32Values(x))
    case VI64(x) => Some(Frames.Int64Values(x))
    case VF32(x) => Some(Frames.Float32Values(x))
    case VF64(x) => Some(Frames.Float64Values(x))
    case VTxt(x) => Some(Frames.StringValues(x))
  }

  /** A table read back as a DataFrame (with an empty comment). */
  function TableToFrame(t: Table): (df: Frames.DataFrame)
    ensures |df.headers| == |df.columns| == |t|
  {
    Frames.DataFrame(seq(|t|, i requires 0 <= i < |t| => t[i].key),
                     seq(|t|, i requires 0 <= i < |t| => Frames.Series(VectorValues(t[i].val))),
                     "")
  }

  /** Shaping a column into a vector loses nothing, empty columns included. */
  lemma ColumnRoundTrip(s: Frames.Series)
    ensures VectorValues(ColumnVector(s)) == s.values
  {
  }

  /** Encoding a DataFrame as a table and reading it back gives its headers and
      columns (paired up to the shorter list) exactly; only the comment is lost. */
  lemma TableRoundTrip(df: Frames.DataFrame)
    ensures var n := Min(|df.headers|, |df.columns|);
            TableToFrame(DumpToImportsTable(df)) == Frames.DataFrame(df.headers[..n], df.columns[..n], "")
  {
    var n := Min(|df.headers|, |df.columns|);
    var back := TableToFrame(DumpToImportsTable(df));
    forall i | 0 <= i < n
      ensures back.columns[i] == df.columns[i]
    {
      ColumnRoundTrip(df.columns[i]);
    }
  }

  /** The row entry of a column is the head of its table entry: the row is the
      first line of the table, Nil where the column is empty or absent. */
  lemma RowIsHeadOfTable(df: Frames.DataFrame, i: nat)
    requires i < Min(|df.headers|, |df.columns|)
    ensures var row, table := DumpToImportsRow(df), DumpToImportsTable(df);
            row[i].key == table[i].key
            && row[i].val == (if VectorLen(table[i].val) > 0 then ElementAt(table[i].val, 0) else Nil)
  {
  }
}
