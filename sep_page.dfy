/** The SEP catalogue page: a per-spacecraft observer filter runs on the rows
    before the column bookkeeping, the default columns come from a curated
    list, and the event-index columns present in the table span rows. */
module SepPage {
  import opened Seqs
  import opened Errors
  import opened Lists
  import opened Frames
  import opened Session
  import opened Visibility

  const SelectionKey := "selected_columns_sep"
  const ObserverColumn := "Observer"
  const DetailsPrompt := "Select rows to see details!"

  /** The entries of the `spacecraft` dict. */
  datatype Spacecraft = Bepi | L1 | Psp | Solo | Sta

  /** The dict's keys, in insertion order. */
  const Fleet: seq<Spacecraft> := [Bepi, L1, Psp, Solo, Sta]

  /** Every spacecraft is an entry of the dict. */
  lemma FleetComplete()
    ensures forall sc :: sc in Fleet
  {
    forall sc ensures sc in Fleet {
      match sc
      case Bepi => assert Fleet[0] == sc;
      case L1 => assert Fleet[1] == sc;
      case Psp => assert Fleet[2] == sc;
      case Solo => assert Fleet[3] == sc;
      case Sta => assert Fleet[4] == sc;
    }
  }

  /** The dict key of a spacecraft. */
  function Key(sc: Spacecraft): string {
    match sc
    case Bepi => "bepi"
    case L1 => "l1"
    case Psp => "psp"
    case Solo => "solo"
    case Sta => "sta"
  }

  /** The dict value: the observer name used in the catalogue. */
  function DisplayName(sc: Spacecraft): string {
    match sc
    case Bepi => "BepiColombo"
    case L1 => "L1 (SOHO/Wind)"
    case Psp => "PSP"
    case Solo => "SOLO"
    case Sta => "STEREO-A"
  }

  /** Every observer name, in dict order. */
  const AllObservers: seq<string> := ["BepiColombo", "L1 (SOHO/Wind)", "PSP", "SOLO", "STEREO-A"]

  /** Candidates for `spanRows`, in the order the page tries them. */
  const SpanCandidates: seq<string> := ["SEP_IDX", "FLARE_IDX", "CME_IDX", "Event No", "event number"]

  /** The three name-based column classes. */
  datatype ColumnClasses = ColumnClasses(datetime: seq<string>, date: seq<string>, time: seq<string>)

  /** Lines 14-16: order-preserving filters of the columns by substring.
      `date_columns` and `datetime_columns` use the same test, so they agree. */
  function Classify(columns: seq<string>): (r: ColumnClasses)
    ensures r.date == r.datetime
    ensures forall c :: c in r.date <==> c in columns && Contains(c, "yyyy-mm-dd")
    ensures forall c :: c in r.time <==> c in columns && Contains(c, "HH:MM:SS")
    ensures IsSubsequence(r.date, columns) && IsSubsequence(r.time, columns)
  {
    ColumnClasses(
      Filter(columns, Containing("yyyy-mm-dd")),
      Filter(columns, Containing("yyyy-mm-dd")),
      Filter(columns, Containing("HH:MM:SS")))
  }

  /** The session key of a spacecraft's checkbox: its dict key after the prefix "sc_". */
  function FlagKey(sc: Spacecraft): string {
    "sc_" + Key(sc)
  }

  /** A checkbox's value for this pass: the stored one, `True` when absent. */
  function DefaultFlag(state: map<string, Value>, sc: Spacecraft): Value {
    if FlagKey(sc) in state then state[FlagKey(sc)] else Flag(true)
  }

  /** `default_sc`, one entry per spacecraft. */
  function DefaultFlags(state: map<string, Value>): (flags: map<Spacecraft, Value>)
    ensures forall sc :: sc in flags
    ensures forall sc :: FlagKey(sc) in state ==> flags[sc] == state[FlagKey(sc)]
    ensures forall sc :: FlagKey(sc) !in state ==> flags[sc] == Flag(true)
  {
    FleetComplete();
    map sc | sc in Fleet :: DefaultFlag(state, sc)
  }

  /** Lines 39-44: the dict-filling loop. */
  method SpacecraftDefaults(state: map<string, Value>) returns (flags: map<Spacecraft, Value>)
    ensures flags == DefaultFlags(state)
  {
    flags := map[];
    var i := 0;
    while i < |Fleet|
      invariant 0 <= i <= |Fleet|
      invariant flags.Keys == set sc | sc in Fleet[..i]
      invariant forall sc :: sc in flags ==> flags[sc] == DefaultFlag(state, sc)
    {
      var sc := Fleet[i];
      assert Fleet[..i + 1] == Fleet[..i] + [sc];
      if FlagKey(sc) in state {
        flags := flags[sc := state[FlagKey(sc)]];
      } else {
        flags := flags[sc := Flag(true)];
      }
      i := i + 1;
    }
    assert Fleet[..i] == Fleet;
  }

  /** A checkbox change persists: once `store_value` has copied the widget's
      value to `sc_<key>`, the next pass starts that spacecraft from it. */
  lemma FlagPersists(state: map<string, Value>, sc: Spacecraft, ticked: bool)
    ensures var s := Stored(state[WidgetKey(FlagKey(sc)) := Flag(ticked)], FlagKey(sc));
      s.Ok? && DefaultFlags(s.value)[sc] == Flag(ticked)
  {
  }

  /** A spacecraft whose flag is truthy in Python's sense. */
  function IsOn(flags: map<Spacecraft, Value>): Spacecraft -> bool {
    sc => sc in flags && Truthy(flags[sc])
  }

  /** The names of the spacecraft of `fleet` whose flag is on, in `fleet` order. */
  function OnObservers(flags: map<Spacecraft, Value>, fleet: seq<Spacecraft>): (names: seq<string>)
    ensures |names| <= |fleet|
    decreases |fleet|
  {
    if fleet == [] then []
    else
      var last := fleet[|fleet| - 1];
      OnObservers(flags, fleet[..|fleet| - 1]) + (if IsOn(flags)(last) then [DisplayName(last)] else [])
  }

  /** `sc_list`: the names of the spacecraft that are switched on, in dict order. */
  function EnabledObservers(flags: map<Spacecraft, Value>): seq<string> {
    OnObservers(flags, Fleet)
  }

  /** Lines 52-55: the loop that appends the enabled names. */
  method ObserverList(flags: map<Spacecraft, Value>) returns (scList: seq<string>)
    requires forall sc :: sc in flags
    ensures scList == EnabledObservers(flags)
  {
    scList := [];
    var i := 0;
    while i < |Fleet|
      invariant 0 <= i <= |Fleet|
      invariant scList == OnObservers(flags, Fleet[..i])
    {
      var sc := Fleet[i];
      assert Fleet[..i + 1][..i] == Fleet[..i];
      if Truthy(flags[sc]) {
        scList := scList + [DisplayName(sc)];
      }
      i := i + 1;
    }
    assert Fleet[..i] == Fleet;
  }

  /** `sc_list` spelled out: each name appears exactly when its flag is
      truthy, in the order bepi, l1, psp, solo, sta. */
  lemma EnabledObserversExplicit(flags: map<Spacecraft, Value>)
    requires forall sc :: sc in flags
    ensures EnabledObservers(flags) ==
      (if Truthy(flags[Bepi]) then ["BepiColombo"] else [])
      + (if Truthy(flags[L1]) then ["L1 (SOHO/Wind)"] else [])
      + (if Truthy(flags[Psp]) then ["PSP"] else [])
      + (if Truthy(flags[Solo]) then ["SOLO"] else [])
      + (if Truthy(flags[Sta]) then ["STEREO-A"] else [])
  {
    var k := Fleet;
    assert k[..5][..4] == k[..4] && k[..5] == k;
    assert k[..4][..3] == k[..3];
    assert k[..3][..2] == k[..2];
    assert k[..2][..1] == k[..1];
    assert k[..1][..0] == [];
    var b := if Truthy(flags[Bepi]) then ["BepiColombo"] else [];
    var l := if Truthy(flags[L1]) then ["L1 (SOHO/Wind)"] else [];
    var p := if Truthy(flags[Psp]) then ["PSP"] else [];
    var so := if Truthy(flags[Solo]) then ["SOLO"] else [];
    var st := if Truthy(flags[Sta]) then ["STEREO-A"] else [];
    assert OnObservers(flags, []) == [];
    assert OnObservers(flags, k[..1]) == b;
    assert OnObservers(flags, k[..2]) == b + l;
    assert OnObservers(flags, k[..3]) == b + l + p;
    assert OnObservers(flags, k[..4]) == b + l + p + so;
    assert OnObservers(flags, k[..5]) == b + l + p + so + st;
  }

  /** With nothing stored every spacecraft is on, so all five observers are kept. */
  lemma AllObserversByDefault(state: map<string, Value>)
    requires forall sc :: FlagKey(sc) !in state
    ensures EnabledObservers(DefaultFlags(state)) == AllObservers
  {
    EnabledObserversExplicit(DefaultFlags(state));
  }

  /** Lines 57-58: when there is an `Observer` column, the rows whose observer
      is in `sc_list`, order and columns kept; otherwise the catalogue as it is. */
  function ObserverFilter(f: Frame, observers: seq<string>): (r: Frame)
    ensures r.columns == f.columns
    ensures ObserverColumn !in f.columns ==> r == f
    ensures ObserverColumn in f.columns ==>
      && (forall row :: row in r.rows <==> row in f.rows && CellIn(ObserverColumn, observers)(row))
      && (forall row :: multiset(r.rows)[row] ==
            if CellIn(ObserverColumn, observers)(row) then multiset(f.rows)[row] else 0)
      && IsSubsequence(r.rows, f.rows)
    ensures WellFormed(f) ==> WellFormed(r)
  {
    if ObserverColumn in f.columns then RowsWhereIn(f, ObserverColumn, observers) else f
  }

  /** The observer of a row is `name`. */
  function ObservedBy(name: string): Row -> bool {
    (row: Row) => ObserverColumn in row && row[ObserverColumn] == Str(name)
  }

  function Not(p: Row -> bool): Row -> bool {
    row => !p(row)
  }

  /** Unticking Parker Solar Probe (with the other boxes at their default)
      removes from what is shown exactly the rows observed by "PSP": the rows
      kept are those kept with every box ticked, minus the PSP ones, in order. */
  lemma PspOff(f: Frame, state: map<string, Value>)
    requires ObserverColumn in f.columns
    requires FlagKey(Psp) in state && state[FlagKey(Psp)] == Flag(false)
    requires forall sc :: sc != Psp ==> FlagKey(sc) !in state
    ensures var allOn := ObserverFilter(f, EnabledObservers(DefaultFlags(map[])));
            var pspOff := ObserverFilter(f, EnabledObservers(DefaultFlags(state)));
      && pspOff.columns == f.columns
      && pspOff.rows == Filter(allOn.rows, Not(ObservedBy("PSP")))
  {
    var all := AllObservers;
    var off := AllObservers[..2] + AllObservers[3..];
    AllObserversByDefault(map[]);
    PspOffObservers(state);
    forall row: Row | row in f.rows
      ensures CellIn(ObserverColumn, off)(row) == (CellIn(ObserverColumn, all)(row) && Not(ObservedBy("PSP"))(row))
    {
      if ObserverColumn in row && row[ObserverColumn].Str? {
        OffNames(row[ObserverColumn].text);
      }
    }
    FilterFilter(f.rows, CellIn(ObserverColumn, all), Not(ObservedBy("PSP")), CellIn(ObserverColumn, off));
  }

  /** With only the PSP box unticked, every observer but "PSP" is kept. */
  lemma PspOffObservers(state: map<string, Value>)
    requires FlagKey(Psp) in state && state[FlagKey(Psp)] == Flag(false)
    requires forall sc :: sc != Psp ==> FlagKey(sc) !in state
    ensures EnabledObservers(DefaultFlags(state)) == AllObservers[..2] + AllObservers[3..]
  {
    EnabledObserversExplicit(DefaultFlags(state));
  }

  /** The names left when "PSP" is dropped. */
  lemma OffNames(t: string)
    ensures t in AllObservers[..2] + AllObservers[3..] <==> t in AllObservers && t != "PSP"
  {
    assert AllObservers[..2] + AllObservers[3..] == ["BepiColombo", "L1 (SOHO/Wind)", "SOLO", "STEREO-A"];
    assert |"PSP"| == 3;
  }

  /** Lines 124-126: the span candidates that are columns of the shown table, in candidate order. */
  function SpanRowColumns(table: Frame): (r: seq<string>)
    ensures forall k :: k in r <==> k in SpanCandidates && k in table.columns
    ensures IsSubsequence(r, SpanCandidates)
  {
    Filter(SpanCandidates, In(table.columns))
  }

  /** Lines 124-126: the loop that keeps the candidates present among the columns. */
  method PresentColumns(candidates: seq<string>, columns: seq<string>) returns (span: seq<string>)
    ensures span == Filter(candidates, In(columns))
  {
    span := [];
    var i := 0;
    while i < |candidates|
      invariant 0 <= i <= |candidates|
      invariant span == Filter(candidates[..i], In(columns))
    {
      var key := candidates[i];
      assert candidates[..i + 1] == candidates[..i] + [key];
      FilterAppend(candidates[..i], key, In(columns));
      if key in columns {
        span := span + [key];
      }
      i := i + 1;
    }
    assert candidates[..i] == candidates;
  }

  /** One pass of the page's bookkeeping. */
  datatype SepPass = SepPass(observers: seq<string>, catalogue: Frame, view: View, spanRows: seq<string>)

  /** The pass as a function of the catalogue, the session and the curated
      default columns: observer filter first, then the shared bookkeeping on
      the filtered catalogue. */
  function SepView(catalogue: Frame, state: map<string, Value>, defaults: seq<string>): Result<SepPass> {
    var observers := EnabledObservers(DefaultFlags(state));
    var filtered := ObserverFilter(catalogue, observers);
    match ColumnView(filtered, ResolveSelection(state, SelectionKey, defaults))
    case Err(e) => Err(e)
    case Ok(v) => Ok(SepPass(observers, filtered, v, SpanRowColumns(v.table)))
  }

  /** Lines 32-87 and 124-126 as the script runs them against the session. */
  method Render(session: SessionState, catalogue: Frame, defaults: seq<string>) returns (r: Result<SepPass>)
    ensures r == SepView(catalogue, session.entries, defaults)
  {
    var flags := SpacecraftDefaults(session.entries);
    var scList := ObserverList(flags);
    var filtered := catalogue;
    if ObserverColumn in filtered.columns {
      filtered := RowsWhereIn(filtered, ObserverColumn, scList);
    }
    var view := ShowColumns(session.entries, SelectionKey, filtered, defaults);
    if view.Err? {
      return Err(view.error);
    }
    var span := PresentColumns(SpanCandidates, view.value.table.columns);
    return Ok(SepPass(scList, filtered, view.value, span));
  }

  /** The hidden list is taken over the filtered catalogue, whose columns are
      the catalogue's: for a valid selection the table is the projection of
      the filtered catalogue onto the selection, and the hidden list is the
      rest of the catalogue's columns in catalogue order, of the complementary
      length. */
  lemma SepHiddenList(catalogue: Frame, state: map<string, Value>, defaults: seq<string>, sel: seq<string>)
    requires WellFormed(catalogue)
    requires ResolveSelection(state, SelectionKey, defaults) == Names(sel)
    requires Unique(sel) && forall c :: c in sel ==> c in catalogue.columns
    ensures SepView(catalogue, state, defaults).Ok?
    ensures var p := SepView(catalogue, state, defaults).value;
      && p.observers == EnabledObservers(DefaultFlags(state))
      && p.catalogue == ObserverFilter(catalogue, p.observers)
      && Project(p.catalogue, sel) == Ok(p.view.table)
      && p.view.table.columns == sel
      && p.view.hidden == Filter(catalogue.columns, NotIn(sel))
      && |p.view.hidden| == |catalogue.columns| - |sel|
      && |p.view.table.rows| == |p.catalogue.rows|
  {
    var filtered := ObserverFilter(catalogue, EnabledObservers(DefaultFlags(state)));
    ColumnViewOfSelection(filtered, sel);
  }

  /** The failure side, as on the other pages: over the filtered catalogue, a
      selected name that is not a column raises KeyError listing exactly the
      absent names, and a column selected twice raises ValueError at its
      second `remove`. */
  lemma SepFailure(catalogue: Frame, state: map<string, Value>, defaults: seq<string>, sel: seq<string>)
    requires WellFormed(catalogue)
    requires ResolveSelection(state, SelectionKey, defaults) == Names(sel)
    ensures (exists c :: c in sel && c !in catalogue.columns) ==>
      var r := SepView(catalogue, state, defaults);
      r.Err? && r.error.KeyError? && forall c :: c in r.error.keys <==> c in sel && c !in catalogue.columns
    ensures (forall c :: c in sel ==> c in catalogue.columns) && !Unique(sel) ==>
      var r := SepView(catalogue, state, defaults);
      && r.Err? && r.error.ValueError?
      && exists j :: 0 < j < |sel| && sel[j] == r.error.item && r.error.item in sel[..j]
  {
    var filtered := ObserverFilter(catalogue, EnabledObservers(DefaultFlags(state)));
    ColumnViewFailure(filtered, sel);
  }

  /** Lines 153-156: the prompt when the grid reports no selection, the
      selected rows otherwise. */
  function Details(selected: Option<Frame>): (d: Details)
    ensures d.Prompt? <==> selected.None?
    ensures d.Prompt? ==> d.text == DetailsPrompt
    ensures selected.Some? ==> d.Shown? && d.rows == selected.value
  {
    RowDetails(selected, DetailsPrompt)
  }
}
