/** The raw table and numeric coercion (`to_num`): an unresolved column becomes an
    all-missing column of the raw row count, a numeric column passes through, and a
    text column is read cell by cell with the number scanner. */
module Coerce {
  import opened Wrappers
  import opened NumberScan
  import opened Resolve
  import Text

  /** A raw column, tagged as pandas' `is_numeric_dtype` would classify it. A missing
      cell is None. Text cells hold the text `astype(str)` gives them. */
  datatype RawColumn =
    | Numeric(values: seq<Option<real>>)
    | Textual(cells: seq<Option<string>>)

  function Size(c: RawColumn): nat {
    match c
    case Numeric(v) => |v|
    case Textual(t) => |t|
  }

  /** The loaded table: its header in order, each column's cells, and the row count. */
  datatype RawTable = RawTable(columns: seq<string>, data: map<string, RawColumn>, rows: nat)

  /** Every header name has a column, and every column has one cell per row. */
  predicate WellFormed(t: RawTable) {
    && (forall n :: n in t.columns ==> n in t.data)
    && (forall n :: n in t.data ==> Size(t.data[n]) == t.rows)
  }

  /** A column of `n` missing cells, as a missing-value series or a broadcast missing value gives. */
  function AllMissing(n: nat): (r: seq<Option<real>>)
    ensures |r| == n && forall i :: 0 <= i < n ==> r[i] == None
  {
    seq(n, i => None)
  }

  /** One text cell: missing stays missing, otherwise the scanner's value, which is
      missing exactly when the text has no digit. */
  function CellNumber(cell: Option<string>): (r: Option<real>)
    ensures cell.None? ==> r.None?
    ensures cell.Some? ==> (r.None? <==> forall j :: 0 <= j < |cell.value| ==> !Text.IsDigit(cell.value[j]))
  {
    match cell
    case None => None
    case Some(s) => Extract(s)
  }

  /** The numeric coercion of a column, with None standing for the unresolved column: a
      numeric column passes through unchanged, and a text column is read cell by cell. */
  function ToNum(col: Option<RawColumn>, rows: nat): (r: seq<Option<real>>)
    ensures col.None? ==> |r| == rows && forall i :: 0 <= i < rows ==> r[i] == None
    ensures col.Some? ==> |r| == Size(col.value)
    ensures col.Some? && col.value.Numeric? ==> r == col.value.values
  {
    match col
    case None => AllMissing(rows)
    case Some(Numeric(v)) => v
    case Some(Textual(cells)) => seq(|cells|, i requires 0 <= i < |cells| => CellNumber(cells[i]))
  }

  /** On a text column each cell is read on its own: cell i becomes a number exactly when
      it is present and its text holds a digit, and then that number is the value of the
      first match in that cell alone. */
  lemma ToNumText(cells: seq<Option<string>>, i: int)
    requires 0 <= i < |cells|
    ensures var r := ToNum(Some(Textual(cells)), |cells|);
            && |r| == |cells|
            && (r[i].Some? <==> cells[i].Some? && exists j :: 0 <= j < |cells[i].value| && Text.IsDigit(cells[i].value[j]))
            && (cells[i].Some? ==> r[i] == Extract(cells[i].value))
  {
    if cells[i].Some? {
      ExtractSomeIff(cells[i].value);
    }
  }

  /** Two text columns that agree on a cell agree on that cell after coercion, whatever
      the other cells hold: a failed parse in one row never affects another row. */
  lemma ToNumCellwise(a: seq<Option<string>>, b: seq<Option<string>>, i: int)
    requires 0 <= i < |a| && 0 <= i < |b| && a[i] == b[i]
    ensures ToNum(Some(Textual(a)), |a|)[i] == ToNum(Some(Textual(b)), |b|)[i]
  {
  }

  /** The raw column for a picked name `c`, taken only when `c` is truthy: an empty name counts as
      unresolved, as Python's truth test does. */
  function Selected(raw: RawTable, c: Option<string>): (r: Option<RawColumn>)
    requires WellFormed(raw)
    requires c.Some? ==> c.value in raw.columns
    ensures r.Some? <==> c.Some? && c.value != ""
    ensures r.Some? ==> r.value == raw.data[c.value] && Size(r.value) == raw.rows
  {
    if c.Some? && c.value != "" then Some(raw.data[c.value]) else None
  }

  /** The column a canonical field maps to: the first alias that is a raw column. */
  function Lookup(raw: RawTable, aliases: seq<string>): (r: Option<RawColumn>)
    requires WellFormed(raw)
    ensures r.Some? ==> Size(r.value) == raw.rows
    ensures r.Some? <==> FirstPresent(aliases, raw.columns).Some? && FirstPresent(aliases, raw.columns).value != ""
  {
    Selected(raw, FirstPresent(aliases, raw.columns))
  }

  /** A numeric field of the frame: the coerced column, or missing values; always one cell per raw row, all missing when no
      alias resolves. */
  function NumericField(raw: RawTable, aliases: seq<string>): (r: seq<Option<real>>)
    requires WellFormed(raw)
    ensures |r| == raw.rows
    ensures Lookup(raw, aliases).None? ==> forall i :: 0 <= i < |r| ==> r[i] == None
  {
    ToNum(Lookup(raw, aliases), raw.rows)
  }

  /** The platform field as the frame receives it: the raw platform column, or an all-missing
      (numeric) column of the raw row count. */
  function RawField(raw: RawTable, aliases: seq<string>): (r: RawColumn)
    requires WellFormed(raw)
    ensures Size(r) == raw.rows
    ensures Lookup(raw, aliases).Some? ==> r == Lookup(raw, aliases).value
    ensures Lookup(raw, aliases).None? ==> r == Numeric(AllMissing(raw.rows))
  {
    match Lookup(raw, aliases)
    case None => Numeric(AllMissing(raw.rows))
    case Some(col) => col
  }
}
