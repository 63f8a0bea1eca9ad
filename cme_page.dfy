/** The CME catalogue page: the two derived start-time columns are hidden by
    default and the selection is kept under `selected_columns_cme`. */
module CmePage {
  import opened Seqs
  import opened Errors
  import opened Lists
  import opened Frames
  import opened Session
  import opened Visibility

  const SelectionKey := "selected_columns_cme"

  /** `hid_cols`, in the order the page removes them. */
  const HidCols: seq<string> := ["Start time (Sun)", "Start time (1 AU)"]

  const DetailsPrompt := "Select rows to see details!"

  /** One pass of the page: `default_columns` by removing `hid_cols`, then the
      shared column bookkeeping under the page's key. */
  function CmeView(catalogue: Frame, state: map<string, Value>): Result<View> {
    match RemovedAll(catalogue.columns, HidCols)
    case Err(e) => Err(e)
    case Ok(defaults) => ColumnView(catalogue, ResolveSelection(state, SelectionKey, defaults))
  }

  /** Lines 32-61 as the script runs them against the session. */
  method Render(session: SessionState, catalogue: Frame) returns (r: Result<View>)
    ensures r == CmeView(catalogue, session.entries)
  {
    var defaults := RemoveEach(catalogue.columns, HidCols);
    if defaults.Err? {
      return Err(defaults.error);
    }
    r := ShowColumns(session.entries, SelectionKey, catalogue, defaults.value);
  }

  /** `default_columns` is the catalogue minus the two start times, order kept;
      a missing one raises ValueError naming it. */
  lemma DefaultColumns(catalogue: Frame)
    requires WellFormed(catalogue)
    ensures RemovedAll(catalogue.columns, HidCols).Ok? <==>
      "Start time (Sun)" in catalogue.columns && "Start time (1 AU)" in catalogue.columns
    ensures RemovedAll(catalogue.columns, HidCols).Err? ==>
      RemovedAll(catalogue.columns, HidCols).error.ValueError?
    ensures RemovedAll(catalogue.columns, HidCols).Ok? ==>
      && RemovedAll(catalogue.columns, HidCols).value == Filter(catalogue.columns, NotIn(HidCols))
      && |RemovedAll(catalogue.columns, HidCols).value| == |catalogue.columns| - 2
  {
    RemovedAllUnique(catalogue.columns, HidCols);
  }

  /** First pass of a session: with the defaults selected, the hidden list is
      exactly the two start times, in the order the catalogue has them, and
      the page reports "2 columns hidden". */
  lemma FirstPass(catalogue: Frame, state: map<string, Value>)
    requires WellFormed(catalogue)
    requires "Start time (Sun)" in catalogue.columns && "Start time (1 AU)" in catalogue.columns
    requires SelectionKey !in state
    ensures CmeView(catalogue, state).Ok?
    ensures var v := CmeView(catalogue, state).value;
      && v.table.columns == Filter(catalogue.columns, NotIn(HidCols))
      && v.hidden == Filter(catalogue.columns, In(HidCols))
      && |v.hidden| == 2
      && (forall c :: c in v.hidden <==> c == "Start time (Sun)" || c == "Start time (1 AU)")
      && IsSubsequence(v.hidden, catalogue.columns)
      && v.message == HiddenExpander(HiddenTitle(2), v.hidden)
  {
    DefaultColumns(catalogue);
    var cols := catalogue.columns;
    var defaults := Filter(cols, NotIn(HidCols));
    FilterUnique(cols, NotIn(HidCols));
    ColumnViewOfSelection(catalogue, defaults);
    HiddenDefaults(cols);
  }

  /** The complement of the defaults is the two start times. */
  lemma HiddenDefaults(cols: seq<string>)
    requires Unique(cols)
    requires "Start time (Sun)" in cols && "Start time (1 AU)" in cols
    ensures Filter(cols, NotIn(Filter(cols, NotIn(HidCols)))) == Filter(cols, In(HidCols))
    ensures |Filter(cols, In(HidCols))| == 2
    ensures forall c :: c in Filter(cols, In(HidCols)) <==> c == "Start time (Sun)" || c == "Start time (1 AU)"
  {
    var defaults := Filter(cols, NotIn(HidCols));
    FilterUnique(cols, NotIn(HidCols));
    FilterExt(cols, NotIn(defaults), In(HidCols));
    ComplementLength(cols, HidCols);
    ComplementLength(cols, defaults);
  }

  /** A stored selection is used verbatim, whatever the defaults would be. */
  lemma StoredPass(catalogue: Frame, state: map<string, Value>, sel: seq<string>)
    requires WellFormed(catalogue)
    requires "Start time (Sun)" in catalogue.columns && "Start time (1 AU)" in catalogue.columns
    requires SelectionKey in state && state[SelectionKey] == Names(sel)
    ensures CmeView(catalogue, state) == ColumnView(catalogue, Names(sel))
  {
    DefaultColumns(catalogue);
  }

  /** Lines 107-110: the prompt when the grid reports no selection, the
      selected rows otherwise. */
  function Details(selected: Option<Frame>): (d: Details)
    ensures d.Prompt? <==> selected.None?
    ensures d.Prompt? ==> d.text == DetailsPrompt
    ensures selected.Some? ==> d.Shown? && d.rows == selected.value
  {
    RowDetails(selected, DetailsPrompt)
  }
}
