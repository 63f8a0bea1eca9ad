/** The column-visibility bookkeeping every catalogue page runs on each
    pass of its script: resolve the active selection from the session, project
    the catalogue onto it, list the hidden columns and report how many there are. */
module Visibility {
  import opened Seqs
  import opened Errors
  import opened Lists
  import opened Frames
  import opened Format
  import opened Session

  const AllDisplayedText := "All columns are displayed."
  const HiddenSuffix := " columns hidden (click for details):"

  /** What the page writes under the multiselect: a plain sentence, or an
      expander titled with the count that lists the hidden columns. */
  datatype Message = AllDisplayed(text: string) | HiddenExpander(title: string, names: seq<string>)

  /** The result of one pass: the table handed to the grid, the hidden
      columns in catalogue order, and the message about them. */
  datatype View = View(table: Frame, hidden: seq<string>, message: Message)

  /** What the page shows below the grid for the rows the user selected
      (`None` when nothing is selected): a prompt, the rows with the links to
      fetch for them, or the rows written just before a lookup raised. */
  datatype Details =
    | Prompt(text: string)
    | Shown(rows: Frame, links: seq<Cell>)
    | ShownThenRaised(rows: Frame, error: Error)

  /** The expander title: the number of hidden columns in decimal, then the fixed suffix. */
  function HiddenTitle(n: nat): string {
    NatToString(n) + HiddenSuffix
  }

  /** The `if len(hidden_columns) == 0 / elif len(hidden_columns) > 0` pair:
      the sentence exactly when nothing is hidden, otherwise an expander whose
      title reads back as the number of hidden columns. */
  function HiddenMessage(hidden: seq<string>): (m: Message)
    ensures m.AllDisplayed? <==> hidden == []
    ensures m.AllDisplayed? ==> m.text == AllDisplayedText
    ensures m.HiddenExpander? ==> m.names == hidden && LeadingCount(m.title) == Some(|hidden|)
  {
    if |hidden| == 0 then AllDisplayed(AllDisplayedText)
    else
      CountLabelRoundTrip(|hidden|, HiddenSuffix);
      HiddenExpander(HiddenTitle(|hidden|), hidden)
  }

  /** `default_keys`: the stored selection verbatim when the page's key is in
      the session, the page's defaults otherwise. */
  function ResolveSelection(state: map<string, Value>, key: string, defaults: seq<string>): (v: Value)
    ensures key in state ==> v == state[key]
    ensures key !in state ==> v == Names(defaults)
  {
    if key in state then state[key] else Names(defaults)
  }

  /** Projection, hidden list and message for one selection, in the order the
      page evaluates them: `df[selection]` first, then one `remove` per name. */
  function ColumnView(catalogue: Frame, selection: Value): (r: Result<View>)
    ensures !selection.Names? ==> r == Err(TypeError)
    ensures r.Ok? ==> r.value.message == HiddenMessage(r.value.hidden)
  {
    match selection
    case Names(sel) =>
      (match Project(catalogue, sel)
       case Err(e) => Err(e)
       case Ok(table) =>
         match RemovedAll(catalogue.columns, sel)
         case Err(e) => Err(e)
         case Ok(hidden) => Ok(View(table, hidden, HiddenMessage(hidden))))
    case _ => Err(TypeError)
  }

  /** Lines 31-52 of a page: resolve `default_keys`, then, branching once more
      on whether the key is stored, project and fill `hidden_columns`. Both
      branches give what the resolved selection gives, because nothing writes
      to the session in between. */
  method ShowColumns(state: map<string, Value>, key: string, catalogue: Frame, defaults: seq<string>)
    returns (r: Result<View>)
    ensures r == ColumnView(catalogue, ResolveSelection(state, key, defaults))
  {
    var defaultKeys: Value;
    if key in state {
      defaultKeys := state[key];
    } else {
      defaultKeys := Names(defaults);
    }
    var selection: Value;
    if key in state {
      selection := state[key];
    } else {
      selection := defaultKeys;
    }
    if !selection.Names? {
      return Err(TypeError);
    }
    var projected := Project(catalogue, selection.names);
    if projected.Err? {
      return Err(projected.error);
    }
    var hidden := catalogue.columns;
    var removed := RemoveEach(hidden, selection.names);
    if removed.Err? {
      return Err(removed.error);
    }
    hidden := removed.value;
    return Ok(View(projected.value, hidden, HiddenMessage(hidden)));
  }

  /** The pass succeeds exactly when the selection is duplicate-free and names
      only catalogue columns. */
  lemma ColumnViewOkIff(catalogue: Frame, sel: seq<string>)
    requires WellFormed(catalogue)
    ensures ColumnView(catalogue, Names(sel)).Ok? <==> Unique(sel) && forall c :: c in sel ==> c in catalogue.columns
  {
    RemovedAllUnique(catalogue.columns, sel);
  }

  /** For a valid selection: the table has the selected columns in selection
      order and every row; the hidden list is the rest of the catalogue in
      catalogue order, disjoint from the selection, making up the catalogue
      with it, and of the complementary length. */
  lemma ColumnViewOfSelection(catalogue: Frame, sel: seq<string>)
    requires WellFormed(catalogue)
    requires Unique(sel) && forall c :: c in sel ==> c in catalogue.columns
    ensures ColumnView(catalogue, Names(sel)).Ok?
    ensures var v := ColumnView(catalogue, Names(sel)).value;
      && Project(catalogue, sel) == Ok(v.table)
      && v.table.columns == sel
      && |v.table.rows| == |catalogue.rows|
      && WellFormed(v.table)
      && v.hidden == Filter(catalogue.columns, NotIn(sel))
      && IsSubsequence(v.hidden, catalogue.columns)
      && (forall c :: c in v.hidden <==> c in catalogue.columns && c !in sel)
      && |v.hidden| == |catalogue.columns| - |sel|
      && (v.message == AllDisplayed(AllDisplayedText) <==> |sel| == |catalogue.columns|)
  {
    RemovedAllUnique(catalogue.columns, sel);
    ComplementLength(catalogue.columns, sel);
    var table := Project(catalogue, sel).value;
    var hidden := RemovedAll(catalogue.columns, sel).value;
    assert hidden == Filter(catalogue.columns, NotIn(sel));
    assert ColumnView(catalogue, Names(sel)) == Ok(View(table, hidden, HiddenMessage(hidden)));
    assert forall c :: NotIn(sel)(c) == (c !in sel);
  }

  /** The failure cases: a name that is not a column raises KeyError at the
      projection, naming it; a name selected twice raises ValueError at its
      second `remove`: the name it reports occurs earlier in the selection. */
  lemma ColumnViewFailure(catalogue: Frame, sel: seq<string>)
    requires WellFormed(catalogue)
    ensures (exists c :: c in sel && c !in catalogue.columns) ==>
      var r := ColumnView(catalogue, Names(sel));
      r.Err? && r.error.KeyError? && forall c :: c in r.error.keys <==> c in sel && c !in catalogue.columns
    ensures (forall c :: c in sel ==> c in catalogue.columns) && !Unique(sel) ==>
      var r := ColumnView(catalogue, Names(sel));
      && r.Err? && r.error.ValueError?
      && exists j :: 0 < j < |sel| && sel[j] == r.error.item && r.error.item in sel[..j]
  {
    RemovedAllUnique(catalogue.columns, sel);
    RemovedAllFailure(catalogue.columns, sel);
  }

  /** Persistence round trip: once the multiselect has put `chosen` under the
      widget key and the callback has copied it, the next pass resolves to
      `chosen` verbatim, and the key stays stored: no later callback brings the
      page back to its defaults. */
  lemma SelectionPersists(state: map<string, Value>, key: string, defaults: seq<string>, chosen: seq<string>)
    ensures var s := Stored(state[WidgetKey(key) := Names(chosen)], key);
      && s.Ok?
      && ResolveSelection(s.value, key, defaults) == Names(chosen)
      && forall other :: Stored(s.value, other).Ok? ==> key in Stored(s.value, other).value
  {
  }

  /** Storing one widget's value does not change what another page key resolves to. */
  lemma StoreKeepsOtherSelections(state: map<string, Value>, stored: string, key: string, defaults: seq<string>)
    requires stored != key && Stored(state, stored).Ok?
    ensures ResolveSelection(Stored(state, stored).value, key, defaults) == ResolveSelection(state, key, defaults)
  {
  }

  /** Four columns A-D with defaults A, B, D: the first pass hides C; after
      the user stores C, A the table shows C, A in that order (the order of
      the selection, as `df[list]` gives) and hides B, D. */
  lemma FourColumnScenario(rows: seq<Row>, state: map<string, Value>, key: string)
    requires WellFormed(Frame(["A", "B", "C", "D"], rows))
    requires key !in state
    ensures var catalogue := Frame(["A", "B", "C", "D"], rows);
      var first := ColumnView(catalogue, ResolveSelection(state, key, ["A", "B", "D"]));
      var next := Stored(state[WidgetKey(key) := Names(["C", "A"])], key);
      && first.Ok? && first.value.hidden == ["C"]
      && first.value.message == HiddenExpander(HiddenTitle(1), ["C"])
      && next.Ok?
      && var second := ColumnView(catalogue, ResolveSelection(next.value, key, ["A", "B", "D"]));
      && second.Ok? && second.value.table.columns == ["C", "A"] && second.value.hidden == ["B", "D"]
      && second.value.message == HiddenExpander(HiddenTitle(2), ["B", "D"])
  {
    var catalogue := Frame(["A", "B", "C", "D"], rows);
    ScenarioDefaults(catalogue.columns, ["A", "B", "D"]);
    ScenarioStored(catalogue.columns, ["C", "A"]);
    ColumnViewOfSelection(catalogue, ["A", "B", "D"]);
    ColumnViewOfSelection(catalogue, ["C", "A"]);
  }

  /** The complement of the scenario's default selection. */
  lemma ScenarioDefaults(cols: seq<string>, sel: seq<string>)
    requires cols == ["A", "B", "C", "D"] && sel == ["A", "B", "D"]
    ensures Unique(sel) && Filter(cols, NotIn(sel)) == ["C"]
  {
    var p := NotIn(sel);
    assert !p("A") && !p("B") && p("C") && !p("D");
    FilterFour("A", "B", "C", "D", p);
  }

  /** The complement of the scenario's stored selection. */
  lemma ScenarioStored(cols: seq<string>, sel: seq<string>)
    requires cols == ["A", "B", "C", "D"] && sel == ["C", "A"]
    ensures Unique(sel) && Filter(cols, NotIn(sel)) == ["B", "D"]
  {
    var p := NotIn(sel);
    assert !p("A") && p("B") && !p("C") && p("D");
    FilterFour("A", "B", "C", "D", p);
  }

  /** The grid's `selected_rows` check on the CME and SEP pages: the prompt
      when it is `None`, the selected rows otherwise. */
  function RowDetails(selected: Option<Frame>, prompt: string): (d: Details)
    ensures d.Prompt? <==> selected.None?
    ensures d.Prompt? ==> d.text == prompt
    ensures selected.Some? ==> d == Shown(selected.value, [])
  {
    match selected
    case None => Prompt(prompt)
    case Some(rows) => Shown(rows, [])
  }
}
