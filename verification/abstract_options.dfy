/**
 * The writer options every writer format shares (`AbstractOptions`): a default
 * row style, whether new sheets are created automatically when a sheet is
 * full, optional default column width and row height, and the same
 * append-only list of column widths a Sheet keeps.
 */
module Options {
  import opened Wrappers
  import opened Errors
  import opened ColumnWidths
  import opened ColumnRuns

  /** A cell style; src/Common/Entity/Style/Style.php is not part of this model. */
  type Style(==)

  class AbstractOptions {
    var defaultRowStyle: Style
    var shouldCreateNewSheetsAutomatically: bool
    var defaultColumnWidth: Option<real>
    var defaultRowHeight: Option<real>
    var columnWidths: seq<ColumnWidth>

    /**
     * The defaults: new sheets are created automatically, no default column
     * width or row height, no column widths.  `defaultStyle` is the style the
     * source builds with `new Style()`.
     */
    constructor(defaultStyle: Style)
      ensures defaultRowStyle == defaultStyle
      ensures shouldCreateNewSheetsAutomatically
      ensures defaultColumnWidth == None && defaultRowHeight == None
      ensures columnWidths == []
    {
      defaultRowStyle := defaultStyle;
      shouldCreateNewSheetsAutomatically := true;
      defaultColumnWidth := None;
      defaultRowHeight := None;
      columnWidths := [];
    }

    /**
     * Appends one record for the inclusive range [start, end] unless the
     * outline level is given and outside 1..7, in which case it fails and
     * appends nothing.
     */
    method SetColumnWidthForRange(width: real, start: int, end: int, outlineLevel: Option<int>,
                                  collapsed: bool, hidden: bool)
      returns (o: Outcome<WriterError>)
      modifies this`columnWidths
      ensures o.Pass? <==> ValidOutlineLevel(outlineLevel)
      ensures o.Fail? ==> o.error == InvalidOutlineLevel && columnWidths == old(columnWidths)
      ensures o.Pass? ==>
        columnWidths == old(columnWidths) + [ColumnWidth(start, end, width, outlineLevel, collapsed, hidden)]
    {
      var r := AddRange(columnWidths, width, start, end, outlineLevel, collapsed, hidden);
      if r.Err? {
        return Fail(r.error);
      }
      columnWidths := r.value;
      return Pass;
    }

    /**
     * Appends one record per run of consecutive columns, in the order given;
     * the recorded ranges then cover exactly the old columns followed by the
     * given ones.  An invalid outline level fails and appends nothing.
     */
    method SetColumnWidth(width: real, outlineLevel: Option<int>, collapsed: bool, hidden: bool,
                          columns: seq<int>)
      returns (o: Outcome<WriterError>)
      requires columns != []
      modifies this`columnWidths
      ensures o.Pass? <==> ValidOutlineLevel(outlineLevel)
      ensures o.Fail? ==> o.error == InvalidOutlineLevel && columnWidths == old(columnWidths)
      ensures o.Pass? ==>
        columnWidths == old(columnWidths) + Compact(columns, width, outlineLevel, collapsed, hidden)
      ensures o.Pass? ==> Expand(columnWidths) == Expand(old(columnWidths)) + columns
    {
      var r := AppendColumnWidths(columnWidths, width, outlineLevel, collapsed, hidden, columns);
      if r.Err? {
        return Fail(r.error);
      }
      columnWidths := r.value;
      return Pass;
    }
  }
}
