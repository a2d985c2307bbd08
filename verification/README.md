# OpenSpout writer: sheets, writer options and column widths

This project models the part of the OpenSpout spreadsheet writer that keeps
per-sheet and per-writer metadata before any file is produced:

- `ColumnWidth` (column_width.dfy, module `ColumnWidths`): the immutable record
  "this width for the inclusive column range [start, end]", with an optional
  outline level and collapsed/hidden flags. `Expand` gives the columns a list
  of records covers, record by record.
- Column-run compaction (column_runs.dfy, module `ColumnRuns`): the loop that
  `setColumnWidth` runs in both `Sheet` and `AbstractOptions`. The two PHP
  loops are identical, so they are modelled once, as the method
  `AppendColumnWidths`. That method is proved against the specification function
  `Compact`, and the properties of `Compact` are proved as lemmas.
  `AddRange` is `setColumnWidthForRange` on a value.
- The sheet-name registry (sheet_manager.dfy, module `SheetNaming`): a stand-in
  for `SheetManager`. It holds a registry of names per workbook id and sheet
  index, and accepts a name when an opaque name rule holds and no other
  sheet of the same workbook has that name.
- `Sheet` (sheet.dfy, module `Entity`): a class with the source's fields and
  setters. The default name is "Sheet" followed by the one-based position
  (decimal.dfy, module `Decimal`).
- `AbstractOptions` (abstract_options.dfy, module `Options`): the writer-wide
  defaults plus the same column-width API.

Exceptions become results (errors.dfy, module `Errors`): `Outcome.Fail(InvalidOutlineLevel)` for
`\InvalidArgumentException` and `Outcome.Fail(InvalidSheetName)` for
`InvalidSheetNameException`. A failing call changes nothing. PHP's `?T` becomes
`Option<T>`. The float width is a `real` that is only stored. Integers are
unbounded.

## Model

| member | source | states |
|---|---|---|
| ColumnWidths.Defaults | src/Writer/Common/ColumnWidth.php:17-24 | a record built from start, end and width alone has no outline level and is neither collapsed nor hidden |
| ColumnWidths.ValidOutlineLevel | src/Writer/Common/Entity/Sheet.php:203 | the outline-level guard: no level, or a level from 1 to 7 |
| ColumnWidths.OutlineLevelBoundaries | src/Writer/Common/Entity/Sheet.php:203-205 | levels 1 and 7 and no level pass the guard; levels 0 and 8 are refused |
| ColumnWidths.ExpandAppend | src/Writer/Common/Entity/Sheet.php:201-208 | appending a record adds exactly its range to the columns the list covers, after the earlier ones |
| ColumnWidths.ExpandConcat | src/Writer/Common/Entity/Sheet.php:175-191 | records appended by a later call never change what the earlier records cover |
| ColumnWidths.ExpandLast | src/Writer/Common/ColumnWidth.php:17-24 | the last column covered by a list whose last record has start <= end is that record's end |
| ColumnRuns.RunStart | src/Writer/Common/Entity/Sheet.php:178-188 | the open run starts at an earlier position, and the column reached is the start column plus the distance between the two positions |
| ColumnRuns.RunStartIsRun | src/Writer/Common/Entity/Sheet.php:178-188 | every column after the run start is its predecessor plus 1, and the column at the run start is not, so the run is maximal |
| ColumnRuns.CompactPrefix | src/Writer/Common/Entity/Sheet.php:175-191 | after the first n > 0 columns there is at least one record, at most n, and the last one ends at the n-th column with start <= end |
| ColumnRuns.Compact | src/Writer/Common/Entity/Sheet.php:175-191 | one call appends at most one record per column, and for a non-empty list the last record ends at the last column; CompactExpands, CompactWellFormed and CompactUnique characterize it completely |
| ColumnRuns.CompactStepOpen | src/Writer/Common/Entity/Sheet.php:182-185 | a column that is not the previous one plus 1 closes the open run and starts the one-column run [c, c] |
| ColumnRuns.CompactStepExtend | src/Writer/Common/Entity/Sheet.php:179-187 | a column that is the previous one plus 1 keeps the closed runs and moves the end of the open run to that column |
| ColumnRuns.CompactWellFormed | src/Writer/Common/Entity/Sheet.php:175-191 | every record has start <= end (NonEmptyRanges), no record could be merged with the next, and every record carries the call's width, outline level and flags |
| ColumnRuns.CompactCount | src/Writer/Common/Entity/Sheet.php:175-191 | the number of records is 1 plus the number of positions whose column is not the previous column plus 1 |
| ColumnRuns.CompactRoundTrip | src/Writer/Common/Entity/Sheet.php:175-191 | expanding the records for the first n columns gives back exactly those columns, in order and with repeats |
| ColumnRuns.RoundTripStep | src/Writer/Common/Entity/Sheet.php:178-188 | the round trip holds for one more column when it holds for the columns before it |
| ColumnRuns.CompactExpands | src/Writer/Common/Entity/Sheet.php:175-191 | expanding the records of a whole call gives back the column list |
| ColumnRuns.CompactOpen | src/Writer/Common/Entity/Sheet.php:182-185 | on a column list, a trailing column that breaks the run adds one record [c, c] after the records of the columns before it |
| ColumnRuns.CompactExtend | src/Writer/Common/Entity/Sheet.php:179-187 | on a column list, a trailing column that continues the run moves the last record's end and keeps the closed runs |
| ColumnRuns.CompactUnique | src/Writer/Common/Entity/Sheet.php:175-191 | any record list whose ranges all have start <= end, that is maximal and carries the call's attributes is the compaction of the columns it covers, so these properties determine the result |
| ColumnRuns.ExampleUnsorted | src/Writer/Common/Entity/Sheet.php:178-190 | columns are taken in the order given and never sorted: [3,4,5,8,9,1] gives (3,5), (8,9), (1,1) |
| ColumnRuns.ExampleRepeated | src/Writer/Common/Entity/Sheet.php:178-190 | repeated columns are not merged: [3,4,3,4] gives (3,4) twice, so the ranges need not be disjoint |
| ColumnRuns.AppendExpands | src/Writer/Common/Entity/Sheet.php:175-191 | after the records of a call are appended, the list covers the old columns followed by the call's columns |
| ColumnRuns.AddRange | src/Writer/Common/Entity/Sheet.php:201-208 | succeeds exactly when the outline level is absent or in 1..7; on success exactly one record (start, end, width, level, flags) is appended and the earlier ones are kept; start <= end is not checked |
| ColumnRuns.AppendColumnWidths | src/Writer/Common/Entity/Sheet.php:175-191 | the loop succeeds exactly when the outline level is valid; it then appends Compact of the columns, and the list covers the old columns followed by the given ones |
| SheetNaming.WithWorkbook | src/Writer/Common/Entity/Sheet.php:59 | making a workbook known adds an entry for it and changes no workbook's names |
| SheetNaming.Registered | src/Writer/Common/Entity/Sheet.php:103 | registering records the name for the sheet's index and keeps every other entry of every workbook |
| SheetNaming.RegisteredNameTaken | src/Writer/Common/Entity/Sheet.php:87-91 | once a sheet has registered a name, every other sheet of the same workbook is refused it and the sheet itself still may use it |
| SheetNaming.RegisterKeepsUnique | src/Writer/Common/Entity/Sheet.php:87-103 | registering an accepted name keeps every workbook free of duplicate names |
| SheetNaming.SheetManager.constructor | src/Writer/Common/Entity/Sheet.php:33 | a new registry is empty, has no duplicates and uses the given name rule |
| SheetNaming.SheetManager.MarkWorkbookIdAsUsed | src/Writer/Common/Entity/Sheet.php:59 | the registry becomes WithWorkbook of the old one; validity is unchanged |
| SheetNaming.SheetManager.ThrowIfNameIsInvalid | src/Writer/Common/Entity/Sheet.php:99 | passes exactly when the registry accepts the name for the sheet, and otherwise fails with InvalidSheetName |
| SheetNaming.SheetManager.MarkSheetNameAsUsed | src/Writer/Common/Entity/Sheet.php:103 | the registry becomes Registered of the old one, and it stays free of duplicates when the name was accepted |
| Decimal.Decimal | src/Writer/Common/Entity/Sheet.php:61 | the decimal form of an integer is non-empty, all digits, and starts with '0' only for 0 |
| Decimal.DecimalRoundTrip | src/Writer/Common/Entity/Sheet.php:61 | parsing the decimal form gives back the number |
| Decimal.DecimalInjective | src/Writer/Common/Entity/Sheet.php:61 | distinct numbers have distinct decimal forms |
| Entity.DefaultName | src/Writer/Common/Entity/Sheet.php:18-61 | the default name is longer than the prefix "Sheet" and starts with it |
| Entity.DefaultNameShape | src/Writer/Common/Entity/Sheet.php:18-61 | a default name is "Sheet" followed by digits that denote index + 1 |
| Entity.DefaultNamesDistinct | src/Writer/Common/Entity/Sheet.php:61 | sheets at different positions get different default names |
| Entity.DefaultNameExamples | src/Writer/Common/Entity/Sheet.php:61 | the sheet at index 0 is named "Sheet1" and the one at index 9 "Sheet10" |
| Entity.Sheet.constructor | src/Writer/Common/Entity/Sheet.php:53-63 | sets index and workbook id, default name, visible, no sheet view, 0 rows written, no auto filter, no column widths, no print title rows; the registry knows the workbook and holds the default name for the index |
| Entity.Sheet.SetName | src/Writer/Common/Entity/Sheet.php:97-106 | passes exactly when the registry accepted the name beforehand; on failure the name and registry are unchanged; on success the name is stored and registered for this index, and the registry stays free of duplicates |
| Entity.Sheet.SetIsVisible | src/Writer/Common/Entity/Sheet.php:119-124 | only the visibility changes, to the given value |
| Entity.Sheet.SetSheetView | src/Writer/Common/Entity/Sheet.php:129-134 | only the sheet view changes, to the given one |
| Entity.Sheet.IncrementWrittenRowCount | src/Writer/Common/Entity/Sheet.php:144-147 | only the written-row count changes, and it grows by exactly 1 |
| Entity.Sheet.SetAutoFilter | src/Writer/Common/Entity/Sheet.php:160-165 | only the auto filter changes, to the given value, which may be none |
| Entity.Sheet.SetPrintTitleRows | src/Writer/Common/Entity/Sheet.php:225-228 | only the print title rows change, to the given string |
| Entity.Sheet.SetColumnWidthForRange | src/Writer/Common/Entity/Sheet.php:201-208 | fails with InvalidOutlineLevel exactly when the level is given and outside 1..7, leaving the list unchanged; otherwise appends one record |
| Entity.Sheet.SetColumnWidth | src/Writer/Common/Entity/Sheet.php:175-191 | fails with InvalidOutlineLevel exactly when the level is invalid, appending nothing; otherwise appends Compact of the columns, and the list covers the old columns followed by the given ones |
| Options.AbstractOptions.constructor | src/Writer/Common/AbstractOptions.php:14-25 | the default row style is the given one, new sheets are created automatically, there is no default column width or row height, and there are no column widths |
| Options.AbstractOptions.SetColumnWidthForRange | src/Writer/Common/AbstractOptions.php:56-63 | same contract as the Sheet's method, on the writer-wide list |
| Options.AbstractOptions.SetColumnWidth | src/Writer/Common/AbstractOptions.php:30-46 | same contract as the Sheet's method, on the writer-wide list |

## Left out

- src/Writer/Common/Manager/SheetManager.php is not part of this model. The
  registry is a stand-in that follows how a Sheet calls it. The checks on the
  name itself (not blank, at most 31 characters, none of `\ / ? * : [ ]`) are
  the opaque `nameRule`, and none of them is proved. In PHP the registry is
  static and shared by every manager. Here it is the state of one
  `SheetManager` object that the sheets share.
- Entity.Sheet.constructor: requires the registry to accept the default name.
  In PHP, `setName` can throw inside the constructor. A Dafny constructor cannot
  fail, so that case is excluded.
- Entity.Sheet.SetName: the registry is given the workbook id and index, not
  the Sheet object, and returns an Outcome instead of throwing. Fluent setters
  return nothing instead of `$this`.
- Getters (`getIndex`, `getName`, `isVisible`, `getWrittenRowCount`,
  `getColumnWidths` and the others) are field reads. `index` and
  `associatedWorkbookId` are `const`, which captures `readonly`.
- Style, SheetView and AutoFilter are opaque types. src/Common/Entity/Style/Style.php,
  src/Writer/XLSX/Entity/SheetView.php and src/Writer/AutoFilter.php are
  not part of this model. Options.AbstractOptions.constructor receives the
  default style as a parameter instead of calling `new Style()`.
- The temp-folder option (`TempFolderOptionTrait`) is left out, because it
  only stores a directory path for file I/O.
- The width is a PHP float. It is modelled as a `real` with no arithmetic,
  because it is only stored.
- The sheet index and the written-row count are `nat`, as their
  `0|positive-int` annotations say. `PHP_INT_MAX` overflow of the counter
  and of `column + 1` is not modelled, because integers are unbounded.
- SetColumnWidth (both classes) requires a non-empty column list. With no
  columns, PHP reads `$sequence[0]` from an empty array and fails with a
  type error, and the docblock asks for one or more columns.
- SetColumnWidth (both classes) computes the new list on a value and assigns
  it once. The PHP appends inside the loop. The end state is the same,
  because the outline level is shared by every record: the first append
  either throws, so nothing is appended, or every append succeeds.
- Ranges appended by one `setColumnWidth` call can overlap when columns
  repeat: [3,4,3,4] appends (3,4) twice (`ColumnRuns.ExampleRepeated`).
  The model keeps both records, as the code does.
- `setColumnWidthForRange` does not check start <= end, so
  `ColumnRuns.AddRange` appends any pair. Records built by `setColumnWidth`
  do have start <= end (`ColumnRuns.CompactWellFormed`).
- PHP's default arguments (`$outlineLevel = null`, `$collapsed = false`,
  `$hidden = false` at src/Writer/Common/Entity/Sheet.php:175,201 and
  src/Writer/Common/AbstractOptions.php:30,56) are required parameters of the
  Dafny methods. A caller passes `None`, `false`, `false` for the defaults.
- Serialization of sheets and column widths to XML is not part of this model.
