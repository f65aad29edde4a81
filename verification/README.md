# Inventory dashboard ETL, modelled in Dafny

This project models the data pipeline of the Streamlit inventory dashboard
`app.py`: the spreadsheet of cold-store stock (brand, product, approximate
boxes, location) is loaded, checked and cleaned, offered through three
select boxes, filtered, and summarised as a detail table, a top-ten bar
chart and two pie charts. The model starts from the sheet already parsed
into a grid of cells and ends at the frames each view would render.

Modules, in pipeline order:

- `Seqs` (seqs.dfy): `Option`, `Result`, the subsequence relation and
  `Keep`, the order-preserving filter a boolean row mask performs.
- `Cells` (cells.dfy): a cell is empty (`Null`, pandas' NaN), a whole
  number or a text. Integer text parsing and printing, the numeric
  coercion of the boxes column, and Python's `<` on numbers and on texts.
- `Loader` (loader.dfy): `load_and_process_data` after the download and
  the Excel decoding. The column-count check, positional header binding,
  dropping the sheet's header row, renaming, the missing-column check,
  `dropna` on the essential columns, the empty-inventory exit and the
  coercion of the boxes. Each `st.stop()` is an `Err`.
- `LoaderProperties` (loader_properties.dfy): the loader restated by sheet
  position, and the properties that follow from that restatement.
- `Filters` (filters.dfy): the three selectors and the conjunctive filter.
- `Options` (options.dfy): the option lists of the select boxes.
- `Groups` (groups.dfy): `groupby(...)['Cajas disponibles'].sum()`.
- `Ranking` (ranking.dfy): the descending sort on boxes and `head(10)`.
- `Dashboard` (dashboard.dfy): the page built from a selection, and the
  whole script as one function from grid and selection to screen or error.

Points of app.py's behaviour worth stating up front:

- The sheet must have exactly four columns (app.py:39); a wider sheet is
  rejected like a narrower one.
- No derived total-units column is computed (app.py:85-87).
- Box counts are never checked for sign (app.py:83), so the model allows
  negative counts.
- A key column holding both numbers and texts makes `sorted` raise
  `TypeError` while the option lists are built (app.py:118-127), outside
  the loader's `try`. The model returns `UnsortableColumn`.

## Model

| member | source | states |
|---|---|---|
| Loader.BindHeaders | app.py:36-50 | A sheet whose widest row is not four cells long is rejected with `ColumnCountError(width, 4)`. Any other sheet gets the four headers in order as its columns. Its data rows are sheet rows 1.., in order, each cell the sheet's own or empty where the sheet row is short. |
| Loader.RequiredColumnsAlwaysPresent | app.py:57-68 | The rename mapping's keys are exactly the four sheet headers and its values exactly the required names. Renaming the headers gives the internal names, and no required name is missing, so the missing-column exit cannot be taken. |
| Loader.MissingColumns | app.py:67 | The missing list holds exactly the required names that are absent, in the required order, and it is empty iff every required name is present. |
| Loader.CheckColumns | app.py:66-73 | Passes the frame on unchanged iff every required name is a column. Otherwise it stops with a non-empty list of exactly the missing names. |
| Loader.DropNa | app.py:77 | Keeps the columns and an order-preserving subsequence of the rows: exactly the rows with no empty cell under the subset columns. |
| Loader.CleanRows | app.py:77-83 | Stops with the empty-inventory error iff no row is complete. Otherwise it returns between one record and one per row, none with an empty brand, product or location. |
| Loader.Load | app.py:36-90 | A wrong width gives the column-count error. The missing-column error never occurs. The empty-inventory error implies the width was right. Success yields at least one and fewer records than sheet rows, all with their three key fields filled. |
| LoaderProperties.LoadPositional | app.py:36-83 | For a four-column sheet, the loader equals a positional reference. It stops with the empty-inventory error iff no data row has all four cells filled. Otherwise it yields, in sheet order, the record of each such row: brand, product, coerced boxes, location. |
| LoaderProperties.InternalLayoutPositional | app.py:63-83 | On the renamed layout, the `dropna` mask is "all four cells filled" and building a record reads the cells by position. |
| LoaderProperties.LoadEmptyIff | app.py:77-80 | The empty-inventory exit is taken iff the sheet has four columns and none of its data rows is complete, so it is distinct from the column-count exit. |
| LoaderProperties.CompleteRowLoaded | app.py:77-83 | Every complete data row of a four-column sheet reaches the result as its record. |
| LoaderProperties.NonNumericBoxesKept | app.py:77-83 | A row whose boxes cell is non-numeric text that survives parsing, such as "aprox" or "?", is not dropped. It is loaded with 0 boxes and its brand, product and location unchanged. |
| Cells.ParseInt | app.py:83 | A text parses iff it is an optional sign followed by decimal digits. The sign of the result follows the sign of the text. |
| Cells.ParseShowRoundTrip | app.py:83 | Parsing the decimal text of any integer gives that integer back. |
| Cells.ParsePlusSign | app.py:83 | A leading `+` reads the same integer as the digits alone: "+5" is 5. |
| Cells.ParseMinusSign | app.py:83 | A leading `-` reads the negation of the digits' integer: "-12" is -12 and "-0" is 0. |
| Cells.ParseLeadingZero | app.py:83 | A leading zero changes nothing: "007" is 7. With the two sign rules and the round trip, this fixes the value of every accepted integer text. |
| Cells.CoerceToInt | app.py:83 | Numbers keep their value and integer text is read as the integer it spells. An empty cell or unparseable text becomes 0. |
| Cells.CoerceShownInt | app.py:83 | A number written as text coerces to that number. |
| Cells.CellLessStrictOrder | app.py:118-127 | Python's `<` on cells is irreflexive and transitive, and total on two numbers or two texts. |
| Options.SelectOptions | app.py:118-127 | Succeeds iff the column is all numbers or all texts. The list then starts with the sentinel and continues strictly ascending, holding exactly the values in the column. A mixed column fails with one number and one text taken from it. |
| Options.SortedValues | app.py:118-127 | The distinct values of a uniform column, strictly ascending, and nothing else. |
| Options.Insert | app.py:118-127 | Inserting a value keeps the list ascending and adds that value to it. A value already present changes nothing. |
| Options.AscendingNoDuplicates | app.py:118-127 | An ascending option list never offers a value twice. |
| Options.AscendingUnique | app.py:118-127 | Two ascending lists with the same values are equal. So the option list is fixed by the column, whatever sorting algorithm produced it. |
| Filters.FilterBy | app.py:134-139 | One selector step. A selector on its sentinel leaves the frame unchanged. Any other value keeps, in order, exactly the rows whose field equals it. |
| Filters.ApplyFilters | app.py:133-139 | The filtered frame is an order-preserving subsequence of the inventory. It holds exactly the records that pass all three selectors, and equals the inventory when all three are on their sentinels. |
| Filters.ApplyFiltersOneMask | app.py:133-139 | The three successive filters select exactly what one mask does: "passes every selector". |
| Filters.ApplyFiltersCounts | app.py:133-139 | A matching record occurs in the filtered frame as often as in the inventory. Any other record does not occur at all. |
| Filters.ColumnMember | app.py:118-127 | A value occurs in a key column iff some record carries it in that field. |
| Groups.AddTo | app.py:168 | Adding boxes to a key grows that key's group, or appends a new group if the key had none. Every other group is unchanged. |
| Groups.GroupSum | app.py:168 | One group per distinct key with no key twice. The keys are exactly the values in the column, and there are groups iff there are records. |
| Groups.GroupSumTotals | app.py:168 | Each group holds the boxes of exactly the records carrying its key. |
| Groups.GroupSumConserves | app.py:216 | The groups' boxes add up to the boxes of all the records. |
| Groups.AddToSum | app.py:168 | Adding boxes to a grouping adds them to its total. |
| Ranking.InsertByBoxes | app.py:149 | Inserting a record into a non-increasing table keeps it non-increasing and adds exactly that record. |
| Ranking.SortByBoxes | app.py:149 | The sorted table is a permutation of the frame, in non-increasing order of boxes. |
| Ranking.SameBoxes | app.py:149 | Any two non-increasing permutations of the same records show the same box count in every row, so the ties an unstable sort leaves never change the boxes column. |
| Ranking.Top | app.py:200 | The top rows: min(n, size) of them, non-increasing, drawn from the frame. No record left out has more boxes than any record shown. |
| Ranking.TopOfSorted | app.py:200 | A prefix of a non-increasing table holds its largest records. |
| Dashboard.Build | app.py:143-216 | "No data" iff no record passes the selectors. The brand table appears iff a brand but no product is selected, and it is the detail table. The location pie appears iff a product is selected, and it is never empty. With no product selected the bar chart shows min(10, size) records. With one selected, it shows the whole filtered frame: an order-preserving subsequence of the inventory holding each matching record as often as the inventory does, all of that product. |
| Dashboard.DetailTable | app.py:149 | The detail table is non-increasing in boxes. It holds each matching record exactly as often as the inventory does, and nothing else. |
| Dashboard.BarIsTopOfDetail | app.py:198-200 | With no product selected, the bar chart is the head of the detail table. |
| Dashboard.BrandPie | app.py:213-216 | One slice per brand among the matching records, no brand twice. Each slice holds exactly the boxes of the matching records of its brand, and the slices add up to their total boxes. A selected brand gives exactly one slice. |
| Dashboard.LocationPie | app.py:165-168 | One slice per location of the matching records, no location twice. Each slice holds the boxes at that location, and all slices together hold the matching records' boxes. |
| Dashboard.GroupKeys | app.py:168 | The keys of a grouping of the filtered frame are exactly the values that matching records carry. |
| Dashboard.SingleSelectionHasData | app.py:118-144 | Picking a value offered by one select box, the other two on their sentinels, never gives the "no data" warning. |
| Dashboard.OptionsFor | app.py:118-127 | A select box's list, with a `TypeError` reported for that field. |
| Dashboard.App | app.py:101-143 | A load error stops the script with that error. An unsortable option list stops it only after a successful load, and only for a mixed column. The lists are built in the order brand, location, product, so a failing location list means the brand column was sortable, and a failing product list means both others were. Uniform columns always give a screen. Each of its three lists is the field's sentinel followed by the column's values, ascending, each once. Its page is the one built from the loaded records and the selection, and it says "no data" iff no loaded record passes the selectors. |

## Left out

- The download (`requests.get`, `raise_for_status`), its connection-error handler and the generic `except Exception` handler. They are I/O and catch-all plumbing, so the model starts from an already-parsed grid.
- Excel decoding by `pd.read_excel`. The model treats the sheet as a grid of cells whose width is its longest row, with shorter rows padded with empty cells, as pandas builds it. `read_excel` also turns the default missing-value strings ("", "N/A", "NA", "n/a", "NULL", "null", "nan", "None", "#N/A" and the like) into empty cells while parsing, so the grid's `Text` cells never hold them. A boxes cell reading "N/A" is therefore an empty cell here, and `dropna` drops its row.
- Streamlit rendering (`st.info`, `st.error`, `st.warning`, `st.success`, `st.dataframe`, select boxes, the expander) and all Plotly chart construction and layout. Each view is modelled as the frame it would display, and `st.stop()` as an `Err`.
- Cells.CoerceToInt: does not model floating point. Decimal text such as "3.5", exponents, surrounding whitespace, and float cells truncated by `astype(int)` are outside the model. Such text coerces to 0 here, while pandas would read a number.
- Cells.CoerceToInt: does not model 64-bit integers. `astype(int)` gives int64. A value outside the int64 range becomes an unrelated int64 without error. Only non-finite text such as "inf" makes `astype(int)` raise, and the generic handler (app.py:96-99) then stops the script. The model's `int` is unbounded, so it keeps the large number, and gives 0 for "inf" instead of stopping.
- Groups.GroupSum: sums boxes as unbounded integers. pandas sums the int64 column and wraps around on overflow (app.py:168, app.py:216); the model does not.
- Ranking.SortByBoxes: promises a permutation in non-increasing order only. The order among equal box counts that pandas' unstable default sort produces is not modelled. `Ranking.SameBoxes` shows this never changes the boxes column.
- Groups.GroupSum: lists groups in the order their keys first occur. pandas sorts groups by key. Only the pie charts use the grouping, and they do not depend on slice order, so no order is promised.
- The expander table shows three of the columns and resets the index. `Page.brandDetail` keeps whole records in the detail table's order.
- The informational messages (app.py:161-163) and the chart titles that depend on the selection are rendering only.
- A real brand or location literally named "Todas" (or a product named "Todos") matches its sentinel, so selecting it constrains nothing. The model keeps this behaviour because `Unconstrained` compares against the sentinel text, exactly as the script does.
