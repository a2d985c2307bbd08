/**
 * The external representation of a worksheet (`Sheet`): an index and a
 * workbook id fixed at construction, a name checked and registered through the
 * sheet-name registry, a visibility flag, a count of written rows that only
 * grows, an append-only list of column widths, and three last-write-wins
 * settings (sheet view, auto filter, rows repeated at the top when printing).
 */
module Entity {
  import opened Wrappers
  import opened Errors
  import opened ColumnWidths
  import opened ColumnRuns
  import opened SheetNaming
  import Decimal

  /** The XLSX sheet view settings; src/Writer/XLSX/Entity/SheetView.php is not part of this model. */
  type SheetView(==)

  /** An auto filter range; src/Writer/AutoFilter.php is not part of this model. */
  type AutoFilter(==)

  /** The prefix of every default sheet name. */
  const DefaultSheetNamePrefix := "Sheet"

  /** The name a sheet gets at construction: the prefix followed by its one-based position. */
  function DefaultName(index: nat): (name: string)
    ensures |name| > |DefaultSheetNamePrefix| && name[..|DefaultSheetNamePrefix|] == DefaultSheetNamePrefix
  {
    DefaultSheetNamePrefix + Decimal.Decimal(index + 1)
  }

  /** A default name is the prefix followed by the decimal digits of index + 1. */
  lemma DefaultNameShape(index: nat)
    ensures var name := DefaultName(index);
      var p := |DefaultSheetNamePrefix|;
      |name| > p && name[..p] == DefaultSheetNamePrefix &&
      (forall k :: p <= k < |name| ==> Decimal.IsDigit(name[k])) &&
      Decimal.Parse(name[p..]) == index + 1
  {
    var name := DefaultName(index);
    assert name[|DefaultSheetNamePrefix|..] == Decimal.Decimal(index + 1);
    Decimal.DecimalRoundTrip(index + 1);
  }

  /** Sheets at different positions get different default names. */
  lemma DefaultNamesDistinct(i: nat, j: nat)
    requires i != j
    ensures DefaultName(i) != DefaultName(j)
  {
    DefaultNameShape(i);
    DefaultNameShape(j);
  }

  /** The first sheet is "Sheet1" and the tenth "Sheet10". */
  lemma DefaultNameExamples()
    ensures DefaultName(0) == "Sheet1"
    ensures DefaultName(9) == "Sheet10"
  {
  }

  /** Everything a sheet holds, as one value. */
  datatype SheetState = SheetState(
    index: nat,
    associatedWorkbookId: string,
    name: string,
    isVisible: bool,
    sheetView: Option<SheetView>,
    writtenRowCount: nat,
    autoFilter: Option<AutoFilter>,
    columnWidths: seq<ColumnWidth>,
    printTitleRows: Option<string>)

  class Sheet {
    /** Zero-based position of the sheet in its workbook; never changes. */
    const index: nat
    /** The workbook whose sheets must have distinct names; never changes. */
    const associatedWorkbookId: string
    const sheetManager: SheetManager
    var name: string
    var isVisible: bool
    var sheetView: Option<SheetView>
    var writtenRowCount: nat
    var autoFilter: Option<AutoFilter>
    var columnWidths: seq<ColumnWidth>
    var printTitleRows: Option<string>

    ghost function View(): SheetState
      reads this
    {
      SheetState(index, associatedWorkbookId, name, isVisible, sheetView, writtenRowCount,
                 autoFilter, columnWidths, printTitleRows)
    }

    /**
     * Makes the workbook known to the registry, then sets and registers the
     * default name and makes the sheet visible.  The registry must accept the
     * default name: setting it cannot fail here.
     */
    constructor(sheetIndex: nat, associatedWorkbookId: string, sheetManager: SheetManager)
      requires sheetManager.Accepts(associatedWorkbookId, sheetIndex, DefaultName(sheetIndex))
      modifies sheetManager
      ensures View() == SheetState(sheetIndex, associatedWorkbookId, DefaultName(sheetIndex), true,
                                   None, 0, None, [], None)
      ensures this.sheetManager == sheetManager
      ensures sheetManager.registry
           == Registered(WithWorkbook(old(sheetManager.registry), associatedWorkbookId),
                         associatedWorkbookId, sheetIndex, DefaultName(sheetIndex))
      ensures old(sheetManager.Valid()) ==> sheetManager.Valid()
    {
      index := sheetIndex;
      this.associatedWorkbookId := associatedWorkbookId;
      this.sheetManager := sheetManager;
      sheetView := None;
      writtenRowCount := 0;
      autoFilter := None;
      columnWidths := [];
      printTitleRows := None;
      new;
      sheetManager.MarkWorkbookIdAsUsed(associatedWorkbookId);
      var outcome := SetName(DefaultName(sheetIndex));
      SetIsVisible(true);
    }

    /**
     * Asks the registry to check the name; when it refuses, fails with
     * InvalidSheetName and changes nothing.  Otherwise stores the name and
     * registers it for this sheet's index and workbook.
     */
    method SetName(newName: string) returns (o: Outcome<WriterError>)
      modifies this`name, sheetManager`registry
      ensures o.Pass? <==> old(sheetManager.Accepts(associatedWorkbookId, index, newName))
      ensures o.Fail? ==> o.error == InvalidSheetName && name == old(name)
                          && sheetManager.registry == old(sheetManager.registry)
      ensures o.Pass? ==> name == newName
      ensures o.Pass? ==>
        sheetManager.registry == Registered(old(sheetManager.registry), associatedWorkbookId, index, newName)
      ensures old(sheetManager.Valid()) ==> sheetManager.Valid()
    {
      o := sheetManager.ThrowIfNameIsInvalid(associatedWorkbookId, index, newName);
      if o.Fail? {
        return;
      }
      name := newName;
      sheetManager.MarkSheetNameAsUsed(associatedWorkbookId, index, name);
    }

    method SetIsVisible(isVisible: bool)
      modifies this`isVisible
      ensures View() == old(View()).(isVisible := isVisible)
    {
      this.isVisible := isVisible;
    }

    method SetSheetView(sheetView: SheetView)
      modifies this`sheetView
      ensures View() == old(View()).(sheetView := Some(sheetView))
    {
      this.sheetView := Some(sheetView);
    }

    /** Counts one more written row; the count never decreases. */
    method IncrementWrittenRowCount()
      modifies this`writtenRowCount
      ensures View() == old(View()).(writtenRowCount := old(writtenRowCount) + 1)
      ensures writtenRowCount > old(writtenRowCount)
    {
      writtenRowCount := writtenRowCount + 1;
    }

    /** Replaces the auto filter; `None` removes it. */
    method SetAutoFilter(autoFilter: Option<AutoFilter>)
      modifies this`autoFilter
      ensures View() == old(View()).(autoFilter := autoFilter)
    {
      this.autoFilter := autoFilter;
    }

    method SetPrintTitleRows(printTitleRows: string)
      modifies this`printTitleRows
      ensures View() == old(View()).(printTitleRows := Some(printTitleRows))
    {
      this.printTitleRows := Some(printTitleRows);
    }

    /**
     * Appends one record for the inclusive range [start, end] unless the
     * outline level is given and outside 1..7, in which case it fails and
     * appends nothing.
     */
    method SetColumnWidthForRange(width: real, start: int, end: int, outlineLevel: Option<int>,
                                  collapsed: bool, hidden: bool)
      returns (o: Outcome<WriterError>)
      modifies this`columnWidths
      ensures o.Pass? <==> ValidOutlineLevel(outlineLevel)
      ensures o.Fail? ==> o.error == InvalidOutlineLevel && columnWidths == old(columnWidths)
      ensures o.Pass? ==>
        columnWidths == old(columnWidths) + [ColumnWidth(start, end, width, outlineLevel, collapsed, hidden)]
    {
      var r := AddRange(columnWidths, width, start, end, outlineLevel, collapsed, hidden);
      if r.Err? {
        return Fail(r.error);
      }
      columnWidths := r.value;
      return Pass;
    }

    /**
     * Appends one record per run of consecutive columns, in the order given;
     * the recorded ranges then cover exactly the old columns followed by the
     * given ones.  An invalid outline level fails and appends nothing.
     */
    method SetColumnWidth(width: real, outlineLevel: Option<int>, collapsed: bool, hidden: bool,
                          columns: seq<int>)
      returns (o: Outcome<WriterError>)
      requires columns != []
      modifies this`columnWidths
      ensures o.Pass? <==> ValidOutlineLevel(outlineLevel)
      ensures o.Fail? ==> o.error == InvalidOutlineLevel && columnWidths == old(columnWidths)
      ensures o.Pass? ==>
        columnWidths == old(columnWidths) + Compact(columns, width, outlineLevel, collapsed, hidden)
      ensures o.Pass? ==> Expand(columnWidths) == Expand(old(columnWidths)) + columns
    {
      var r := AppendColumnWidths(columnWidths, width, outlineLevel, collapsed, hidden, columns);
      if r.Err? {
        return Fail(r.error);
      }
      columnWidths := r.value;
      return Pass;
    }
  }
}
