/** The flare catalogue page: twelve derived timing columns are hidden by
    default, the selection is kept under `selected_columns_flare`, and the
    details of selected rows include the radio-burst link of each row. */
module FlarePage {
  import opened Seqs
  import opened Errors
  import opened Lists
  import opened Frames
  import opened Session
  import opened Visibility

  const SelectionKey := "selected_columns_flare"

  /** `hid_cols`: removed from the catalogue's columns to form the defaults. */
  const HidCols: seq<string> := [
    "Start Time at 1 AU (GOES)", "Start Time at 1 AU (STIX)",
    "Peak Time at 1 AU (GOES)", "Peak Time at 1 AU (STIX)",
    "End Time at 1 AU (GOES)", "End Time at 1 AU (STIX)",
    "Start Time at the Sun (GOES)", "Start Time at the Sun (STIX)",
    "Peak Time at the Sun (GOES)", "Peak Time at the Sun (STIX)",
    "End Time at the Sun (GOES)", "End Time at the Sun (STIX)"]

  const RadioBursts := "IP Radio Bursts"
  const DetailsPrompt := "Select rows to see details and obtain radio spectrograms!"

  /** `time_columns`: the columns parsed as dates and styled to hide NaT,
      exactly those whose name contains "Time", in catalogue order. */
  function TimeColumns(columns: seq<string>): (r: seq<string>)
    ensures forall c :: c in r <==> c in columns && Contains(c, "Time")
    ensures IsSubsequence(r, columns)
  {
    Filter(columns, Containing("Time"))
  }

  /** One pass of the page: `default_columns` by removing `hid_cols` (which
      raises before anything else when one of them is missing), then the
      shared column bookkeeping under the page's key. */
  function FlareView(catalogue: Frame, state: map<string, Value>): Result<View> {
    match RemovedAll(catalogue.columns, HidCols)
    case Err(e) => Err(e)
    case Ok(defaults) => ColumnView(catalogue, ResolveSelection(state, SelectionKey, defaults))
  }

  /** Lines 25-52 as the script runs them against the session. */
  method Render(session: SessionState, catalogue: Frame) returns (r: Result<View>)
    ensures r == FlareView(catalogue, session.entries)
  {
    var defaults := RemoveEach(catalogue.columns, HidCols);
    if defaults.Err? {
      return Err(defaults.error);
    }
    r := ShowColumns(session.entries, SelectionKey, catalogue, defaults.value);
  }

  lemma HidColsUnique()
    ensures Unique(HidCols)
  {
  }

  /** `default_columns` is the catalogue minus the twelve names, in catalogue
      order, and exists exactly when all twelve are catalogue columns. */
  lemma DefaultColumns(catalogue: Frame)
    requires WellFormed(catalogue)
    ensures RemovedAll(catalogue.columns, HidCols).Ok? <==> forall h :: h in HidCols ==> h in catalogue.columns
    ensures RemovedAll(catalogue.columns, HidCols).Ok? ==>
      && RemovedAll(catalogue.columns, HidCols).value == Filter(catalogue.columns, NotIn(HidCols))
      && |RemovedAll(catalogue.columns, HidCols).value| == |catalogue.columns| - 12
  {
    HidColsUnique();
    RemovedAllUnique(catalogue.columns, HidCols);
  }

  /** First pass of a session: the defaults are shown and exactly the twelve
      timing columns are hidden, in catalogue order, reported as "12 columns hidden". */
  lemma FirstPass(catalogue: Frame, state: map<string, Value>)
    requires WellFormed(catalogue)
    requires forall h :: h in HidCols ==> h in catalogue.columns
    requires SelectionKey !in state
    ensures FlareView(catalogue, state).Ok?
    ensures var v := FlareView(catalogue, state).value;
      && v.table.columns == Filter(catalogue.columns, NotIn(HidCols))
      && v.hidden == Filter(catalogue.columns, In(HidCols))
      && |v.hidden| == 12
      && v.message == HiddenExpander(HiddenTitle(12), v.hidden)
  {
    DefaultColumns(catalogue);
    var cols := catalogue.columns;
    var defaults := Filter(cols, NotIn(HidCols));
    FilterUnique(cols, NotIn(HidCols));
    ColumnViewOfSelection(catalogue, defaults);
    FilterExt(cols, NotIn(defaults), In(HidCols));
  }

  /** A stored selection is used verbatim, whatever the defaults would be. */
  lemma StoredPass(catalogue: Frame, state: map<string, Value>, sel: seq<string>)
    requires WellFormed(catalogue)
    requires forall h :: h in HidCols ==> h in catalogue.columns
    requires SelectionKey in state && state[SelectionKey] == Names(sel)
    ensures FlareView(catalogue, state) == ColumnView(catalogue, Names(sel))
  {
    DefaultColumns(catalogue);
  }

  /** Lines 159-168: the prompt when nothing is selected. Otherwise the rows
      are written, then the radio-burst link of each selected row, in row
      order, is looked up to fetch. When the "IP Radio Bursts" column is not
      among the selected columns, that lookup raises KeyError after the rows
      have been written. */
  function Details(selected: Option<Frame>): (d: Details)
    requires selected.Some? ==> WellFormed(selected.value)
    ensures selected.None? ==> d == Prompt(DetailsPrompt)
    ensures selected.Some? ==> (d.Shown? <==> RadioBursts in selected.value.columns)
    ensures selected.Some? && RadioBursts !in selected.value.columns ==>
      d == ShownThenRaised(selected.value, KeyError([RadioBursts]))
    ensures selected.Some? && d.Shown? ==>
      var rows := selected.value.rows;
      && d.rows == selected.value
      && |d.links| == |rows|
      && forall i :: 0 <= i < |rows| ==> RadioBursts in rows[i] && d.links[i] == rows[i][RadioBursts]
  {
    match selected
    case None => Prompt(DetailsPrompt)
    case Some(t) =>
      if RadioBursts !in t.columns then ShownThenRaised(t, KeyError([RadioBursts]))
      else Shown(t, seq(|t.rows|, i requires 0 <= i < |t.rows| => t.rows[i][RadioBursts]))
  }
}
