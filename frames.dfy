/** A pandas DataFrame as the pages use it: a duplicate-free list of column
    names and a list of rows, each row a mapping from column name to cell. */
module Frames {
  import opened Seqs
  import opened Errors

  /** A cell: a string, or any other scalar (number, timestamp, NaN/NaT),
      which the bookkeeping only moves around and never inspects. */
  datatype Cell = Str(text: string) | Scalar(id: int)

  type Row = map<string, Cell>

  datatype Frame = Frame(columns: seq<string>, rows: seq<Row>)

  /** Column names are unique (pandas de-duplicates them on read) and every
      row has a cell for exactly the declared columns. */
  ghost predicate WellFormed(f: Frame) {
    && Unique(f.columns)
    && forall i, c :: 0 <= i < |f.rows| ==> (c in f.rows[i] <==> c in f.columns)
  }

  /** The cells of `row` in the named columns. */
  function RestrictRow(row: Row, names: seq<string>): (r: Row)
    ensures forall c :: c in r <==> c in names && c in row
    ensures forall c :: c in r ==> r[c] == row[c]
  {
    map c | c in names && c in row :: row[c]
  }

  /** `df[names]`: KeyError naming the absent columns, otherwise a frame whose
      columns are `names` in the order given, with every row kept. */
  function Project(f: Frame, names: seq<string>): (r: Result<Frame>)
    ensures r.Ok? <==> forall c :: c in names ==> c in f.columns
    ensures r.Err? ==> r.error.KeyError? && r.error.keys != []
                       && forall c :: c in r.error.keys <==> c in names && c !in f.columns
    ensures r.Ok? ==> r.value.columns == names && |r.value.rows| == |f.rows|
    ensures r.Ok? ==> forall i, c :: 0 <= i < |f.rows| && c in names && c in f.rows[i] ==>
                        c in r.value.rows[i] && r.value.rows[i][c] == f.rows[i][c]
    ensures r.Ok? && WellFormed(f) && Unique(names) ==> WellFormed(r.value)
  {
    var missing := Filter(names, NotIn(f.columns));
    if missing != [] then
      assert missing[0] in missing;
      Err(KeyError(missing))
    else
      Ok(Frame(names, seq(|f.rows|, i requires 0 <= i < |f.rows| => RestrictRow(f.rows[i], names))))
  }

  /** The row mask `df[column].isin(values)`: the cell is a string listed in `values`. */
  function CellIn(column: string, values: seq<string>): Row -> bool {
    (row: Row) => column in row && row[column].Str? && row[column].text in values
  }

  /** `df.loc[df[column].isin(values)]`: the rows passing the mask, in order, with all columns. */
  function RowsWhereIn(f: Frame, column: string, values: seq<string>): (r: Frame)
    ensures r.columns == f.columns
    ensures forall row :: row in r.rows <==> row in f.rows && CellIn(column, values)(row)
    ensures forall row :: multiset(r.rows)[row] == if CellIn(column, values)(row) then multiset(f.rows)[row] else 0
    ensures IsSubsequence(r.rows, f.rows)
    ensures WellFormed(f) ==> WellFormed(r)
  {
    var kept := Filter(f.rows, CellIn(column, values));
    FilterMultiset(f.rows, CellIn(column, values));
    assert WellFormed(f) ==> WellFormed(Frame(f.columns, kept)) by {
      if WellFormed(f) {
        forall i, c | 0 <= i < |kept| ensures c in kept[i] <==> c in f.columns {
          assert kept[i] in f.rows;
          var k :| 0 <= k < |f.rows| && f.rows[k] == kept[i];
          assert c in f.rows[k] <==> c in f.columns;
        }
      }
    }
    Frame(f.columns, kept)
  }
}
