# Column visibility of the SOLER catalogue pages

The three Streamlit pages of the catalogue browser (flare, SEP, CME) share one
piece of bookkeeping, copied into each page script:

- they work out the default column set;
- they resolve the active selection from `st.session_state`;
- the `store_value` callback persists a widget's value;
- they project the catalogue onto the selection;
- they list the hidden columns with one `list.remove` per selected name;
- they report "All columns are displayed." or "N columns hidden".

The SEP page adds per-spacecraft checkboxes. Their flags build the observer
list `sc_list`, which filters the rows on the `Observer` column before the
bookkeeping runs. This project models that bookkeeping and proves what it
computes.

Layout:

- `seqs.dfy` (module `Seqs`): order-preserving filtering. This is the shape of
  every list comprehension and row mask of the pages. It also holds Python's
  substring test `sub in s`.
- `errors.dfy` (module `Errors`): the exceptions raised (`KeyError`,
  `ValueError`) and the `Result`/`Option` wrappers.
- `lists.dfy` (module `Lists`): `list.remove` with its `ValueError`, and the
  `for col in names: lst.remove(col)` loop as a method.
- `frames.dfy` (module `Frames`): a DataFrame, with columns and rows that map
  names to cells. It models `df[list]` with its `KeyError`, and the row mask
  `df.loc[df[c].isin(values)]`.
- `format.dfy` (module `Format`): the decimal rendering of the count in the
  expander title, and reading it back.
- `session.dfy` (module `Session`): `st.session_state` as a class whose map
  the `store_value` callback updates in place.
- `visibility.dfy` (module `Visibility`): the shared pass as a specification
  function, `ColumnView`, and as the method the scripts run, `ShowColumns`.
  Its properties are the lemmas beside them.
- `flare_page.dfy`, `cme_page.dfy`, `sep_page.dfy`: each page's constants, its
  default columns, its pass (`Render`), and its behaviour on selected rows.

One might expect the table to keep catalogue order, but `df[list]` returns
the columns in the order of the list, so the table handed to the grid has the
columns in selection order. Only the hidden list is in catalogue order.
`Visibility.FourColumnScenario` shows both orders on four columns A-D:

- the defaults are A, B, D;
- after the user stores C, A, the table shows C, A in that order;
- the hidden list is B, D.

The flare details panel reads `selected_rows['IP Radio Bursts']`. The grid
only holds the selected columns, so hiding that column makes the lookup raise
`KeyError`, after the selected rows have been written. `FlarePage.Details`
models this as a result that carries both the rows and the error.

## Model

| member | source | states |
|---|---|---|
| `Seqs.Filter` | pages/flare_catalogue.py:15 | A comprehension keeps exactly the elements that pass the test, in their original order (it is a subsequence), and is no longer than the input. |
| `Seqs.FilterMultiset` | pages/sep_catalogue.py:58 | A kept element keeps every copy; a dropped one loses every copy. |
| `Seqs.ComplementLength` | pages/flare_catalogue.py:38-46 | For a duplicate-free list and a duplicate-free subset of it, the rest has length `len(list) - len(subset)`. |
| `Seqs.ContainsAt` | pages/flare_catalogue.py:15 | The substring test `sub in s` holds exactly when `sub` equals some slice of `s`. |
| `Lists.IndexOf` | pages/flare_catalogue.py:29 | The position `remove` acts on: the first occurrence of the name. |
| `Lists.ListRemove` | pages/flare_catalogue.py:29 | `remove` succeeds exactly when the name is present and raises `ValueError` otherwise. The `item` that `ValueError` carries in the model is the model's own record of the name; Python's message does not name it. On success it deletes the first occurrence and nothing else. |
| `Lists.ListRemoveMultiset` | pages/flare_catalogue.py:29 | `remove` takes away exactly one copy of the name. |
| `Lists.RemovedAll` | pages/flare_catalogue.py:28-29 | The remove loop raises a `ValueError` for one of the names, or it shortens the list by the number of names. |
| `Lists.RemoveEach` | pages/flare_catalogue.py:28-29 | The loop, which reassigns the list after each `remove` and stops at the first raise, computes `RemovedAll`. |
| `Lists.RemoveFromUnique` | pages/flare_catalogue.py:42 | On a duplicate-free list, `remove` is filtering the name out. |
| `Lists.RemovedAllFailure` | pages/flare_catalogue.py:41-42 | On a duplicate-free list, the loop raises at a name that is missing from the list or that an earlier occurrence already removed. |
| `Lists.RemovedAllUnique` | pages/flare_catalogue.py:41-42 | On a duplicate-free list, the loop succeeds exactly when the names are duplicate-free and all present. It then leaves the other elements in their original order. |
| `Frames.Project` | pages/flare_catalogue.py:40-44 | `df[names]` raises `KeyError` listing exactly the absent names. Otherwise it has the columns given, in the order given, every row, and the cell values unchanged; a well-formed frame stays well-formed. |
| `Frames.RowsWhereIn` | pages/sep_catalogue.py:58 | The row mask keeps exactly the rows whose cell is a listed string, each as often as it occurs. It keeps their order and all columns. |
| `Format.NatToString` | pages/flare_catalogue.py:50 | The count is written as a non-empty string of decimal digits with no leading zero. |
| `Format.NatToStringRoundTrip` | pages/flare_catalogue.py:50 | The digits written denote the count. |
| `Format.CountLabelRoundTrip` | pages/flare_catalogue.py:50 | A title made of the count followed by text that does not start with a digit reads back as the count. |
| `Session.Stored` | pages/flare_catalogue.py:21-23 | `store_value(k)` raises `KeyError` when `_k` is absent. Otherwise `k` holds the value of `_k`, the key set grows by `k` only, and every other key keeps its value. The SEP copy (pages/sep_catalogue.py:25-27) and the CME copy (pages/cme_catalogue.py:28-30) are identical. |
| `Session.SessionState.StoreValue` | pages/flare_catalogue.py:21-23 | The in-place callback raises exactly when `_k` is absent and then leaves the session unchanged. Otherwise the new session is `Stored` of the old one. |
| `Visibility.HiddenMessage` | pages/flare_catalogue.py:47-52 | The two branches are exhaustive. The sentence "All columns are displayed." appears exactly when nothing is hidden. Otherwise the expander lists the hidden columns and its title reads back as their number. |
| `Visibility.ResolveSelection` | pages/flare_catalogue.py:31-34 | With the key stored, `default_keys` is the stored value verbatim; otherwise it is the defaults. |
| `Visibility.ColumnView` | pages/flare_catalogue.py:38-52 | A stored value that is not a list fails. A successful pass carries the message for its hidden list. |
| `Visibility.ShowColumns` | pages/flare_catalogue.py:31-46 | Both branches of the script, which test the key a second time, compute the pass for the resolved selection, because the session is not written in between. |
| `Visibility.ColumnViewOkIff` | pages/flare_catalogue.py:40-46 | The pass succeeds exactly when the selection is duplicate-free and names only catalogue columns. |
| `Visibility.ColumnViewOfSelection` | pages/flare_catalogue.py:38-46 | For a valid selection, the table is `df[selection]`: the selected columns in selection order, every row, and the catalogue's cells. The hidden list is the rest of the catalogue columns in catalogue order. It is disjoint from the selection, makes up the catalogue with it, and has length `len(columns) - len(selection)`. The sentence appears exactly when everything is selected. |
| `Visibility.ColumnViewFailure` | pages/flare_catalogue.py:40-46 | A name that is not a column makes `df[...]` raise `KeyError`, listing exactly the absent names. This is what the projection alone would raise; the multiselect's own check on its defaults is not modelled. A name selected twice raises `ValueError` at its second `remove`: the name reported occurs earlier in the selection. |
| `Visibility.SelectionPersists` | pages/flare_catalogue.py:21-34 | After the multiselect writes `_k` and the callback runs, the next pass resolves to the stored list verbatim. The key stays stored through any later callback. |
| `Visibility.StoreKeepsOtherSelections` | pages/flare_catalogue.py:21-23 | Storing one widget's value does not change what another key resolves to. |
| `Visibility.FourColumnScenario` | pages/flare_catalogue.py:31-52 | Columns A-D with defaults A, B, D: C is hidden and "1 columns hidden" is reported. After storing C, A, the table shows C, A and hides B, D, reported as "2 columns hidden". |
| `Visibility.RowDetails` | pages/cme_catalogue.py:107-110 | The prompt appears exactly when the grid reports no selection; otherwise the selected rows are shown. |
| `FlarePage.TimeColumns` | pages/flare_catalogue.py:15 | `time_columns` is exactly the columns whose name contains "Time", in catalogue order. |
| `FlarePage.HidColsUnique` | pages/flare_catalogue.py:26-27 | The twelve hidden-by-default names are distinct. |
| `FlarePage.DefaultColumns` | pages/flare_catalogue.py:25-29 | `default_columns` exists exactly when all twelve names are columns. It is then the catalogue columns minus those twelve, in catalogue order, and twelve shorter. |
| `FlarePage.Render` | pages/flare_catalogue.py:25-52 | The script's pass (defaults by the remove loop, then the shared bookkeeping under `selected_columns_flare`) computes `FlareView`. |
| `FlarePage.FirstPass` | pages/flare_catalogue.py:25-52 | With nothing stored, the defaults are shown and exactly the twelve names are hidden, in catalogue order, reported as "12 columns hidden". |
| `FlarePage.StoredPass` | pages/flare_catalogue.py:31-46 | A stored selection is used verbatim, whatever the defaults. |
| `FlarePage.Details` | pages/flare_catalogue.py:159-168 | No selection gives the prompt. Otherwise the rows are written and then one radio-burst link per row is looked up, in row order. When that column is not among the selected columns, the rows are written and then `KeyError` is raised. |
| `CmePage.DefaultColumns` | pages/cme_catalogue.py:32-35 | `default_columns` exists exactly when both start-time columns are present; otherwise it raises `ValueError`. It is the catalogue columns minus those two, in order, and two shorter. |
| `CmePage.Render` | pages/cme_catalogue.py:32-61 | The script's pass under `selected_columns_cme` computes `CmeView`. |
| `CmePage.FirstPass` | pages/cme_catalogue.py:32-61 | With nothing stored, the hidden list is exactly "Start time (Sun)" and "Start time (1 AU)", in catalogue order, reported as "2 columns hidden". |
| `CmePage.HiddenDefaults` | pages/cme_catalogue.py:44-55 | The complement of the defaults is exactly the two start times. |
| `CmePage.StoredPass` | pages/cme_catalogue.py:37-50 | A stored selection is used verbatim. |
| `CmePage.Details` | pages/cme_catalogue.py:107-110 | The prompt appears exactly when nothing is selected; otherwise the selected rows are shown. |
| `SepPage.FleetComplete` | pages/sep_catalogue.py:32-37 | The `spacecraft` dict has an entry for each of the five spacecraft. |
| `SepPage.Classify` | pages/sep_catalogue.py:14-16 | The three classes are order-preserving substring filters of the columns, and `date_columns == datetime_columns`. |
| `SepPage.DefaultFlags` | pages/sep_catalogue.py:39-44 | Every spacecraft has a flag. It is the stored `sc_<key>` when present, `True` otherwise. |
| `SepPage.SpacecraftDefaults` | pages/sep_catalogue.py:39-44 | The dict-filling loop computes `DefaultFlags`. |
| `SepPage.FlagPersists` | pages/sep_catalogue.py:25-50 | After a checkbox's callback, the next pass starts that spacecraft from the stored value. |
| `SepPage.ObserverList` | pages/sep_catalogue.py:52-55 | The append loop computes `EnabledObservers`. |
| `SepPage.EnabledObserversExplicit` | pages/sep_catalogue.py:32-55 | `sc_list` holds each display name exactly when its flag is truthy, in the order bepi, l1, psp, solo, sta. |
| `SepPage.AllObserversByDefault` | pages/sep_catalogue.py:39-55 | With no checkbox stored, all five observers are listed. |
| `SepPage.ObserverFilter` | pages/sep_catalogue.py:57-58 | With an `Observer` column, exactly the rows whose observer is in `sc_list` are kept, each as often as it occurs, in order, with all columns. Without one, the catalogue is unchanged. |
| `SepPage.PspOffObservers` | pages/sep_catalogue.py:48-55 | With only the PSP box unticked, `sc_list` is the other four names. |
| `SepPage.PspOff` | pages/sep_catalogue.py:46-58 | Unticking PSP removes exactly the rows observed by "PSP" from those kept with every box ticked. Order and columns are kept. |
| `SepPage.SpanRowColumns` | pages/sep_catalogue.py:124-126 | The columns given row spanning are exactly the five candidates present in the shown table, in candidate order. |
| `SepPage.PresentColumns` | pages/sep_catalogue.py:124-126 | The candidate loop keeps the candidates present among the columns, in order. |
| `SepPage.Render` | pages/sep_catalogue.py:39-87 | The script's pass (flags, `sc_list`, the observer filter, then the shared bookkeeping under `selected_columns_sep`, then the span columns) computes `SepView`. |
| `SepPage.SepHiddenList` | pages/sep_catalogue.py:67-81 | The catalogue reaching the bookkeeping is the observer filter applied with `sc_list`. For a valid selection, the table is that filtered catalogue projected onto the selection. The hidden list is the rest of the catalogue columns in catalogue order, of complementary length. |
| `SepPage.SepFailure` | pages/sep_catalogue.py:73-81 | Over the filtered catalogue, a selected name that is not a column makes `df[...]` raise `KeyError`, listing exactly the absent names. A column selected twice raises `ValueError` at its second `remove`. |
| `SepPage.Details` | pages/sep_catalogue.py:153-156 | The prompt appears exactly when nothing is selected; otherwise the selected rows are shown. |

## Left out

- Reading the CSV files and parsing dates (`pd.read_csv`, `parse_dates`) are file I/O. The catalogue is an input `Frame`.
- The SEP default-column file (pages/sep_catalogue.py:62) is file I/O. Its contents are the `defaults` parameter of `SepPage.Render` and `SepPage.SepView`.
- The scientific-notation formatting of the SEP intensity columns (pages/sep_catalogue.py:22-23) is floating-point formatting. So is the `KeyError` it would raise for a missing intensity column. Cells are opaque strings or scalars.
- The AgGrid and GridOptionsBuilder configuration, the JsCode cell styles, the themes, the tooltips and the Streamlit widgets and layout are UI in libraries that cannot be seen. The list of span columns and the column classes are modelled, but not what the grid does with them.
- The multiselect's own checks, such as a default outside the options, are not modelled. Its write to `_k` is an input to `Session.Stored`.
- Fetching and showing the radio-burst images (`pooch.retrieve`, `st.image`, pages/flare_catalogue.py:165-168) is network I/O. Only the list of links is modelled.
- The `sleep(0.01)` and empty-container workaround is rerun timing, not logic.
- Streamlit's reruns and callback timing are modelled only as "a callback runs between two passes".
- Visibility.ColumnView: a stored selection that is not a list of names is reported as a `TypeError` instead of being followed through pandas. The widgets only ever store lists under those keys.
- Cell values are opaque. An `Observer` cell matches `isin` only when it is one of the listed strings, so NaN and non-string observers are never kept.
