/**
 * Run compaction, shared by `Sheet::setColumnWidth` and
 * `AbstractOptions::setColumnWidth` (the two PHP methods are identical):
 * a list of column indices, taken in the order given and never sorted, is cut
 * into maximal runs in which each index is the previous one plus 1, and one
 * ColumnWidth record is appended per run.
 */
module ColumnRuns {
  import opened Wrappers
  import opened Errors
  import opened ColumnWidths

  /**
   * The position at which the run holding the n-th column starts: the run
   * extends backwards while each column is its predecessor plus 1.
   */
  function RunStart(columns: seq<int>, n: nat): (k: nat)
    requires 0 < n <= |columns|
    ensures k < n && columns[n - 1] == columns[k] + (n - 1 - k)
  {
    if n > 1 && columns[n - 1] == columns[n - 2] + 1 then RunStart(columns, n - 1) else n - 1
  }

  /**
   * RunStart(columns, n) is where the run ending at position n - 1 starts:
   * every later column is its predecessor plus 1, and the column there is not.
   */
  lemma {:induction false} RunStartIsRun(columns: seq<int>, n: nat)
    requires 0 < n <= |columns|
    ensures var k := RunStart(columns, n);
      (forall j :: k < j < n ==> columns[j] == columns[j - 1] + 1) &&
      (k == 0 || columns[k] != columns[k - 1] + 1)
  {
    if n > 1 && columns[n - 1] == columns[n - 2] + 1 {
      RunStartIsRun(columns, n - 1);
    }
  }

  /** The record of the run that is still open after the first n columns. */
  function OpenRun(columns: seq<int>, n: nat, width: real, outlineLevel: Option<int>, collapsed: bool, hidden: bool)
    : ColumnWidth
    requires 0 < n <= |columns|
  {
    ColumnWidth(columns[RunStart(columns, n)], columns[n - 1], width, outlineLevel, collapsed, hidden)
  }

  /**
   * The records of the runs closed within the first n columns: a column that
   * is not its predecessor plus 1 closes the run before it.
   */
  function ClosedRuns(columns: seq<int>, n: nat, width: real, outlineLevel: Option<int>, collapsed: bool, hidden: bool)
    : (r: seq<ColumnWidth>)
    requires n <= |columns|
    ensures |r| < n || n == 0
  {
    if n <= 1 then []
    else if columns[n - 1] == columns[n - 2] + 1 then ClosedRuns(columns, n - 1, width, outlineLevel, collapsed, hidden)
    else ClosedRuns(columns, n - 1, width, outlineLevel, collapsed, hidden) + [OpenRun(columns, n - 1, width, outlineLevel, collapsed, hidden)]
  }

  /** The records for the first n columns: the closed runs, then the open one. */
  function CompactPrefix(columns: seq<int>, n: nat, width: real, outlineLevel: Option<int>, collapsed: bool, hidden: bool)
    : (r: seq<ColumnWidth>)
    requires n <= |columns|
    ensures |r| <= n
    ensures n > 0 ==> |r| > 0 && r[|r| - 1].start <= r[|r| - 1].end == columns[n - 1]
  {
    if n == 0 then []
    else ClosedRuns(columns, n, width, outlineLevel, collapsed, hidden) + [OpenRun(columns, n, width, outlineLevel, collapsed, hidden)]
  }

  /** The records one `setColumnWidth` call appends for the whole column list. */
  function Compact(columns: seq<int>, width: real, outlineLevel: Option<int>, collapsed: bool, hidden: bool)
    : (r: seq<ColumnWidth>)
    ensures |r| <= |columns|
    ensures columns != [] ==> r != [] && r[|r| - 1].end == columns[|columns| - 1]
  {
    CompactPrefix(columns, |columns|, width, outlineLevel, collapsed, hidden)
  }

  /** Every record of one call carries the call's shared width and flags. */
  ghost predicate Stamped(widths: seq<ColumnWidth>, width: real, outlineLevel: Option<int>, collapsed: bool, hidden: bool) {
    forall k :: 0 <= k < |widths| ==>
      widths[k].width == width && widths[k].outlineLevel == outlineLevel &&
      widths[k].collapsed == collapsed && widths[k].hidden == hidden
  }

  /** No record could have been merged with the next: runs are maximal. */
  ghost predicate Maximal(widths: seq<ColumnWidth>) {
    forall j, k :: 0 <= j && k == j + 1 && k < |widths| ==> widths[k].start != widths[j].end + 1
  }

  /** Every record has start <= end. */
  ghost predicate NonEmptyRanges(widths: seq<ColumnWidth>) {
    forall k :: 0 <= k < |widths| ==> widths[k].start <= widths[k].end
  }

  /** The number of positions 0 < i < n with columns[i] != columns[i - 1] + 1. */
  function Breaks(columns: seq<int>, n: nat): nat
    requires n <= |columns|
  {
    if n <= 1 then 0
    else Breaks(columns, n - 1) + (if columns[n - 1] != columns[n - 2] + 1 then 1 else 0)
  }

  /** A column that is not its predecessor plus 1 closes the open run and opens a new one. */
  lemma CompactStepOpen(columns: seq<int>, n: nat, width: real, outlineLevel: Option<int>, collapsed: bool, hidden: bool)
    requires n < |columns| && (n == 0 || columns[n] != columns[n - 1] + 1)
    ensures CompactPrefix(columns, n + 1, width, outlineLevel, collapsed, hidden)
         == CompactPrefix(columns, n, width, outlineLevel, collapsed, hidden)
            + [ColumnWidth(columns[n], columns[n], width, outlineLevel, collapsed, hidden)]
  {
  }

  /** A column that is its predecessor plus 1 moves the end of the open run. */
  lemma CompactStepExtend(columns: seq<int>, n: nat, width: real, outlineLevel: Option<int>, collapsed: bool, hidden: bool)
    requires 0 < n < |columns| && columns[n] == columns[n - 1] + 1
    ensures var closed := ClosedRuns(columns, n, width, outlineLevel, collapsed, hidden);
      var open := OpenRun(columns, n, width, outlineLevel, collapsed, hidden);
      CompactPrefix(columns, n, width, outlineLevel, collapsed, hidden) == closed + [open] &&
      CompactPrefix(columns, n + 1, width, outlineLevel, collapsed, hidden) == closed + [WithEnd(open, columns[n])]
  {
  }

  /**
   * The records of one call are ordered (start <= end), maximal (no record
   * could be merged with the next) and carry the call's width and flags.
   */
  lemma {:induction false} CompactWellFormed(columns: seq<int>, n: nat, width: real, outlineLevel: Option<int>, collapsed: bool, hidden: bool)
    requires n <= |columns|
    ensures var runs := CompactPrefix(columns, n, width, outlineLevel, collapsed, hidden);
      NonEmptyRanges(runs) && Maximal(runs) && Stamped(runs, width, outlineLevel, collapsed, hidden)
  {
    if n > 0 {
      CompactWellFormed(columns, n - 1, width, outlineLevel, collapsed, hidden);
      if n > 1 && columns[n - 1] == columns[n - 2] + 1 {
        WellFormedExtend(columns, n, width, outlineLevel, collapsed, hidden);
      } else {
        WellFormedOpen(columns, n, width, outlineLevel, collapsed, hidden);
      }
    }
  }

  /** CompactWellFormed is kept by an m-th column that continues the open run. */
  lemma WellFormedExtend(columns: seq<int>, m: nat, width: real, outlineLevel: Option<int>, collapsed: bool, hidden: bool)
    requires 1 < m <= |columns| && columns[m - 1] == columns[m - 2] + 1
    requires var runs := CompactPrefix(columns, m - 1, width, outlineLevel, collapsed, hidden);
      NonEmptyRanges(runs) && Maximal(runs) && Stamped(runs, width, outlineLevel, collapsed, hidden)
    ensures var runs := CompactPrefix(columns, m, width, outlineLevel, collapsed, hidden);
      NonEmptyRanges(runs) && Maximal(runs) && Stamped(runs, width, outlineLevel, collapsed, hidden)
  {
    CompactStepExtend(columns, m - 1, width, outlineLevel, collapsed, hidden);
    var open := OpenRun(columns, m - 1, width, outlineLevel, collapsed, hidden);
    ReplaceLastKeeps(ClosedRuns(columns, m - 1, width, outlineLevel, collapsed, hidden),
                     open, WithEnd(open, columns[m - 1]), width, outlineLevel, collapsed, hidden);
  }

  /** CompactWellFormed is kept by an m-th column that opens a new run. */
  lemma WellFormedOpen(columns: seq<int>, m: nat, width: real, outlineLevel: Option<int>, collapsed: bool, hidden: bool)
    requires 0 < m <= |columns| && (m == 1 || columns[m - 1] != columns[m - 2] + 1)
    requires var runs := CompactPrefix(columns, m - 1, width, outlineLevel, collapsed, hidden);
      NonEmptyRanges(runs) && Maximal(runs) && Stamped(runs, width, outlineLevel, collapsed, hidden)
    ensures var runs := CompactPrefix(columns, m, width, outlineLevel, collapsed, hidden);
      NonEmptyRanges(runs) && Maximal(runs) && Stamped(runs, width, outlineLevel, collapsed, hidden)
  {
    var column := columns[m - 1];
    CompactStepOpen(columns, m - 1, width, outlineLevel, collapsed, hidden);
    AppendKeeps(CompactPrefix(columns, m - 1, width, outlineLevel, collapsed, hidden),
                ColumnWidth(column, column, width, outlineLevel, collapsed, hidden),
                width, outlineLevel, collapsed, hidden);
  }

  /** Appending a record that does not continue the last one keeps the three properties. */
  lemma AppendKeeps(runs: seq<ColumnWidth>, last: ColumnWidth, width: real, outlineLevel: Option<int>, collapsed: bool, hidden: bool)
    requires NonEmptyRanges(runs) && Maximal(runs) && Stamped(runs, width, outlineLevel, collapsed, hidden)
    requires last == ColumnWidth(last.start, last.end, width, outlineLevel, collapsed, hidden)
    requires last.start <= last.end
    requires runs == [] || last.start != runs[|runs| - 1].end + 1
    ensures var next := runs + [last];
      NonEmptyRanges(next) && Maximal(next) && Stamped(next, width, outlineLevel, collapsed, hidden)
  {
  }

  /** Moving the end of the last record, keeping start <= end, keeps the three properties. */
  lemma ReplaceLastKeeps(runs: seq<ColumnWidth>, last: ColumnWidth, other: ColumnWidth,
                         width: real, outlineLevel: Option<int>, collapsed: bool, hidden: bool)
    requires var before := runs + [last];
      NonEmptyRanges(before) && Maximal(before) && Stamped(before, width, outlineLevel, collapsed, hidden)
    requires other == ColumnWidth(last.start, other.end, width, outlineLevel, collapsed, hidden)
    requires other.start <= other.end
    ensures var after := runs + [other];
      NonEmptyRanges(after) && Maximal(after) && Stamped(after, width, outlineLevel, collapsed, hidden)
  {
    var before := runs + [last];
    var after := runs + [other];
    assert forall k :: 0 <= k < |runs| ==> before[k] == after[k] == runs[k];
    assert before[|runs|] == last && after[|runs|] == other;
  }

  /** One record per run: one for the first column plus one per break. */
  lemma {:induction false} CompactCount(columns: seq<int>, n: nat, width: real, outlineLevel: Option<int>, collapsed: bool, hidden: bool)
    requires 0 < n <= |columns|
    ensures |CompactPrefix(columns, n, width, outlineLevel, collapsed, hidden)| == 1 + Breaks(columns, n)
  {
    if n > 1 {
      CompactCount(columns, n - 1, width, outlineLevel, collapsed, hidden);
    }
  }

  /**
   * The round trip: expanding the records for the first n columns, in order,
   * gives back exactly those columns, repeats and order included.
   */
  lemma {:induction false} CompactRoundTrip(columns: seq<int>, n: nat, width: real, outlineLevel: Option<int>, collapsed: bool, hidden: bool)
    requires n <= |columns|
    ensures Expand(CompactPrefix(columns, n, width, outlineLevel, collapsed, hidden)) == columns[..n]
  {
    if n > 0 {
      CompactRoundTrip(columns, n - 1, width, outlineLevel, collapsed, hidden);
      RoundTripStep(columns, n, width, outlineLevel, collapsed, hidden);
    }
  }

  /** The round trip is kept by one more column. */
  lemma RoundTripStep(columns: seq<int>, m: nat, width: real, outlineLevel: Option<int>, collapsed: bool, hidden: bool)
    requires 0 < m <= |columns|
    requires Expand(CompactPrefix(columns, m - 1, width, outlineLevel, collapsed, hidden)) == columns[..m - 1]
    ensures Expand(CompactPrefix(columns, m, width, outlineLevel, collapsed, hidden)) == columns[..m]
  {
    assert columns[..m] == columns[..m - 1] + [columns[m - 1]];
    if m > 1 && columns[m - 1] == columns[m - 2] + 1 {
      RoundTripExtend(columns, m, width, outlineLevel, collapsed, hidden);
    } else {
      RoundTripOpen(columns, m, width, outlineLevel, collapsed, hidden);
    }
  }

  /** RoundTripStep when the m-th column continues the open run. */
  lemma RoundTripExtend(columns: seq<int>, m: nat, width: real, outlineLevel: Option<int>, collapsed: bool, hidden: bool)
    requires 1 < m <= |columns| && columns[m - 1] == columns[m - 2] + 1
    ensures Expand(CompactPrefix(columns, m, width, outlineLevel, collapsed, hidden))
         == Expand(CompactPrefix(columns, m - 1, width, outlineLevel, collapsed, hidden)) + [columns[m - 1]]
  {
    CompactStepExtend(columns, m - 1, width, outlineLevel, collapsed, hidden);
    ExpandExtendLast(ClosedRuns(columns, m - 1, width, outlineLevel, collapsed, hidden),
                     OpenRun(columns, m - 1, width, outlineLevel, collapsed, hidden), columns[m - 1]);
  }

  /** RoundTripStep when the m-th column opens a new run. */
  lemma RoundTripOpen(columns: seq<int>, m: nat, width: real, outlineLevel: Option<int>, collapsed: bool, hidden: bool)
    requires 0 < m <= |columns| && (m == 1 || columns[m - 1] != columns[m - 2] + 1)
    ensures Expand(CompactPrefix(columns, m, width, outlineLevel, collapsed, hidden))
         == Expand(CompactPrefix(columns, m - 1, width, outlineLevel, collapsed, hidden)) + [columns[m - 1]]
  {
    var column := columns[m - 1];
    CompactStepOpen(columns, m - 1, width, outlineLevel, collapsed, hidden);
    ExpandAppend(CompactPrefix(columns, m - 1, width, outlineLevel, collapsed, hidden),
                 ColumnWidth(column, column, width, outlineLevel, collapsed, hidden));
    assert Span(column, column) == [column];
  }

  /** Moving the end of an ordered last record one column on covers that column more. */
  lemma ExpandExtendLast(closed: seq<ColumnWidth>, open: ColumnWidth, column: int)
    requires open.start <= open.end == column - 1
    ensures Expand(closed + [WithEnd(open, column)]) == Expand(closed + [open]) + [column]
  {
    ExpandAppend(closed, open);
    ExpandAppend(closed, WithEnd(open, column));
    assert Span(open.start, column) == Span(open.start, open.end) + [column];
  }

  /** The round trip for a whole call. */
  lemma CompactExpands(columns: seq<int>, width: real, outlineLevel: Option<int>, collapsed: bool, hidden: bool)
    ensures Expand(Compact(columns, width, outlineLevel, collapsed, hidden)) == columns
  {
    CompactRoundTrip(columns, |columns|, width, outlineLevel, collapsed, hidden);
    assert columns[..|columns|] == columns;
  }

  /** The run start within the first n columns depends on those columns only. */
  lemma {:induction false} RunStartAgree(a: seq<int>, b: seq<int>, n: nat)
    requires 0 < n <= |a| && n <= |b|
    requires forall i :: 0 <= i < n ==> a[i] == b[i]
    ensures RunStart(a, n) == RunStart(b, n)
  {
    if n > 1 {
      RunStartAgree(a, b, n - 1);
    }
  }

  /** The closed runs within the first n columns depend on those columns only. */
  lemma {:induction false} ClosedRunsAgree(a: seq<int>, b: seq<int>, n: nat, width: real, outlineLevel: Option<int>, collapsed: bool, hidden: bool)
    requires n <= |a| && n <= |b|
    requires forall i :: 0 <= i < n ==> a[i] == b[i]
    ensures ClosedRuns(a, n, width, outlineLevel, collapsed, hidden) == ClosedRuns(b, n, width, outlineLevel, collapsed, hidden)
  {
    if n > 1 {
      ClosedRunsAgree(a, b, n - 1, width, outlineLevel, collapsed, hidden);
      RunStartAgree(a, b, n - 1);
    }
  }

  /** One more column that opens a new run adds one one-column record. */
  lemma CompactOpen(prefix: seq<int>, column: int, width: real, outlineLevel: Option<int>, collapsed: bool, hidden: bool)
    requires prefix == [] || column != prefix[|prefix| - 1] + 1
    ensures Compact(prefix + [column], width, outlineLevel, collapsed, hidden)
         == Compact(prefix, width, outlineLevel, collapsed, hidden)
            + [ColumnWidth(column, column, width, outlineLevel, collapsed, hidden)]
  {
    var columns := prefix + [column];
    var n := |prefix|;
    ClosedRunsAgree(columns, prefix, n, width, outlineLevel, collapsed, hidden);
    if n > 0 {
      RunStartAgree(columns, prefix, n);
    }
    CompactStepOpen(columns, n, width, outlineLevel, collapsed, hidden);
  }

  /** One more column that continues the last run moves that record's end. */
  lemma CompactExtend(prefix: seq<int>, column: int, width: real, outlineLevel: Option<int>, collapsed: bool, hidden: bool)
    requires prefix != [] && column == prefix[|prefix| - 1] + 1
    ensures var closed := ClosedRuns(prefix, |prefix|, width, outlineLevel, collapsed, hidden);
      var open := OpenRun(prefix, |prefix|, width, outlineLevel, collapsed, hidden);
      Compact(prefix, width, outlineLevel, collapsed, hidden) == closed + [open] &&
      Compact(prefix + [column], width, outlineLevel, collapsed, hidden) == closed + [WithEnd(open, column)]
  {
    var columns := prefix + [column];
    var n := |prefix|;
    ClosedRunsAgree(columns, prefix, n, width, outlineLevel, collapsed, hidden);
    RunStartAgree(columns, prefix, n);
    CompactStepExtend(columns, n, width, outlineLevel, collapsed, hidden);
  }

  /**
   * Compact is the only ordered, maximal list of records with the call's
   * width and flags whose expansion is the column list.
   */
  lemma {:induction false} CompactUnique(widths: seq<ColumnWidth>, width: real, outlineLevel: Option<int>, collapsed: bool, hidden: bool)
    requires NonEmptyRanges(widths) && Maximal(widths) && Stamped(widths, width, outlineLevel, collapsed, hidden)
    ensures widths == Compact(Expand(widths), width, outlineLevel, collapsed, hidden)
    decreases |Expand(widths)|, 1
  {
    if widths != [] {
      var init := widths[..|widths| - 1];
      var last := widths[|widths| - 1];
      assert widths == init + [last];
      if last.start == last.end {
        UniqueOpen(init, last, width, outlineLevel, collapsed, hidden);
      } else {
        UniqueExtend(init, last, width, outlineLevel, collapsed, hidden);
      }
    }
  }

  /** CompactUnique when the last record covers a single column. */
  lemma {:induction false} UniqueOpen(init: seq<ColumnWidth>, last: ColumnWidth, width: real, outlineLevel: Option<int>, collapsed: bool, hidden: bool)
    requires last.start == last.end
    requires var widths := init + [last];
      NonEmptyRanges(widths) && Maximal(widths) && Stamped(widths, width, outlineLevel, collapsed, hidden)
    ensures init + [last] == Compact(Expand(init + [last]), width, outlineLevel, collapsed, hidden)
    decreases |Expand(init + [last])|, 0
  {
    DropLastFacts(init, last, width, outlineLevel, collapsed, hidden);
    CompactUnique(init, width, outlineLevel, collapsed, hidden);
    CompactOpen(Expand(init), last.end, width, outlineLevel, collapsed, hidden);
  }

  /**
   * What UniqueOpen needs of the list without its one-column last record:
   * it keeps the three properties, and the dropped record opened a new run.
   */
  lemma DropLastFacts(init: seq<ColumnWidth>, last: ColumnWidth, width: real, outlineLevel: Option<int>, collapsed: bool, hidden: bool)
    requires last.start == last.end
    requires var widths := init + [last];
      NonEmptyRanges(widths) && Maximal(widths) && Stamped(widths, width, outlineLevel, collapsed, hidden)
    ensures NonEmptyRanges(init) && Maximal(init) && Stamped(init, width, outlineLevel, collapsed, hidden)
    ensures Expand(init + [last]) == Expand(init) + [last.end]
    ensures Expand(init) == [] || last.end != Expand(init)[|Expand(init)| - 1] + 1
    ensures last == ColumnWidth(last.end, last.end, width, outlineLevel, collapsed, hidden)
  {
    var widths := init + [last];
    assert forall k :: 0 <= k < |init| ==> init[k] == widths[k];
    assert widths[|init|] == last;
    ExpandAppend(init, last);
    assert Span(last.start, last.end) == [last.end];
    if init != [] {
      ExpandLast(init);
    }
  }

  /** CompactUnique when the last record covers more than one column. */
  lemma {:induction false} UniqueExtend(init: seq<ColumnWidth>, last: ColumnWidth, width: real, outlineLevel: Option<int>, collapsed: bool, hidden: bool)
    requires last.start < last.end
    requires var widths := init + [last];
      NonEmptyRanges(widths) && Maximal(widths) && Stamped(widths, width, outlineLevel, collapsed, hidden)
    ensures init + [last] == Compact(Expand(init + [last]), width, outlineLevel, collapsed, hidden)
    decreases |Expand(init + [last])|, 0
  {
    var shorter := init + [WithEnd(last, last.end - 1)];
    ShortenLastFacts(init, last, width, outlineLevel, collapsed, hidden);
    CompactUnique(shorter, width, outlineLevel, collapsed, hidden);
    var prefix := Expand(shorter);
    CompactExtend(prefix, last.end, width, outlineLevel, collapsed, hidden);
    var closed := ClosedRuns(prefix, |prefix|, width, outlineLevel, collapsed, hidden);
    var open := OpenRun(prefix, |prefix|, width, outlineLevel, collapsed, hidden);
    assert closed == init && open == WithEnd(last, last.end - 1) by {
      assert |closed| == |init|;
      assert closed == shorter[..|init|] && open == shorter[|init|];
      assert shorter[..|init|] == init;
    }
  }

  /**
   * What UniqueExtend needs of the list whose last record ends one column
   * earlier: it keeps the three properties and covers one column less.
   */
  lemma ShortenLastFacts(init: seq<ColumnWidth>, last: ColumnWidth, width: real, outlineLevel: Option<int>, collapsed: bool, hidden: bool)
    requires last.start < last.end
    requires var widths := init + [last];
      NonEmptyRanges(widths) && Maximal(widths) && Stamped(widths, width, outlineLevel, collapsed, hidden)
    ensures var shorter := init + [WithEnd(last, last.end - 1)];
      NonEmptyRanges(shorter) && Maximal(shorter) && Stamped(shorter, width, outlineLevel, collapsed, hidden) &&
      Expand(init + [last]) == Expand(shorter) + [last.end] &&
      Expand(shorter) != [] && Expand(shorter)[|Expand(shorter)| - 1] + 1 == last.end
  {
    var widths := init + [last];
    var shorter := init + [WithEnd(last, last.end - 1)];
    assert forall k :: 0 <= k < |init| ==> init[k] == widths[k] == shorter[k];
    assert widths[|init|] == last;
    ExpandAppend(init, last);
    ExpandAppend(init, WithEnd(last, last.end - 1));
    assert Span(last.start, last.end) == Span(last.start, last.end - 1) + [last.end];
    ExpandLast(shorter);
  }

  /** The worked example [3,4,5,8,9,1]: runs (3,5), (8,9) and (1,1), in input order. */
  lemma ExampleUnsorted(width: real)
    ensures Compact([3, 4, 5, 8, 9, 1], width, None, false, false)
         == [ColumnWidth(3, 5, width), ColumnWidth(8, 9, width), ColumnWidth(1, 1, width)]
  {
    var columns := [3, 4, 5, 8, 9, 1];
    assert RunStart(columns, 3) == 0;
    assert RunStart(columns, 5) == 3;
    assert RunStart(columns, 6) == 5;
    assert ClosedRuns(columns, 3, width, None, false, false) == [];
    assert ClosedRuns(columns, 4, width, None, false, false) == [ColumnWidth(3, 5, width)];
    assert ClosedRuns(columns, 5, width, None, false, false) == [ColumnWidth(3, 5, width)];
  }

  /** Repeated columns are not merged: [3,4,3,4] yields the run (3,4) twice. */
  lemma ExampleRepeated(width: real)
    ensures Compact([3, 4, 3, 4], width, None, false, false)
         == [ColumnWidth(3, 4, width), ColumnWidth(3, 4, width)]
  {
    var columns := [3, 4, 3, 4];
    assert RunStart(columns, 2) == 0;
    assert RunStart(columns, 4) == 2;
    assert ClosedRuns(columns, 2, width, None, false, false) == [];
    assert ClosedRuns(columns, 3, width, None, false, false) == [ColumnWidth(3, 4, width)];
  }

  /** The records appended for a column list cover those columns after the earlier ones. */
  lemma AppendExpands(widths: seq<ColumnWidth>, columns: seq<int>, width: real, outlineLevel: Option<int>,
                      collapsed: bool, hidden: bool)
    ensures Expand(widths + Compact(columns, width, outlineLevel, collapsed, hidden)) == Expand(widths) + columns
  {
    ExpandConcat(widths, Compact(columns, width, outlineLevel, collapsed, hidden));
    CompactExpands(columns, width, outlineLevel, collapsed, hidden);
  }

  /**
   * `setColumnWidthForRange` on a value: a non-null outline level outside 1..7
   * throws; otherwise exactly one record is appended, the earlier ones kept.
   * Neither start <= end nor the width is checked.
   */
  function AddRange(widths: seq<ColumnWidth>, width: real, start: int, end: int,
                    outlineLevel: Option<int>, collapsed: bool, hidden: bool)
    : (r: Result<seq<ColumnWidth>, WriterError>)
    ensures r.Ok? <==> ValidOutlineLevel(outlineLevel)
    ensures r.Err? ==> r.error == InvalidOutlineLevel
    ensures r.Ok? ==> r.value == widths + [ColumnWidth(start, end, width, outlineLevel, collapsed, hidden)]
  {
    if outlineLevel.Some? && (outlineLevel.value < 1 || outlineLevel.value > 7) then
      Err(InvalidOutlineLevel)
    else
      Ok(widths + [ColumnWidth(start, end, width, outlineLevel, collapsed, hidden)])
  }

  /**
   * The `foreach` loop of `setColumnWidth`: `sequence` is the open run; a column
   * that is not its last element plus 1 closes it through AddRange, and the
   * final run is added after the loop.  Since the outline level is shared, the
   * first AddRange throws exactly when the level is invalid, so a rejected call
   * appends nothing.  An empty list would index `$sequence[0]` on an empty
   * array, so the list must be non-empty.
   */
  method AppendColumnWidths(widths: seq<ColumnWidth>, width: real, outlineLevel: Option<int>,
                            collapsed: bool, hidden: bool, columns: seq<int>)
    returns (r: Result<seq<ColumnWidth>, WriterError>)
    requires columns != []
    ensures r.Ok? <==> ValidOutlineLevel(outlineLevel)
    ensures r.Err? ==> r.error == InvalidOutlineLevel
    ensures r.Ok? ==> r.value == widths + Compact(columns, width, outlineLevel, collapsed, hidden)
    ensures r.Ok? ==> Expand(r.value) == Expand(widths) + columns
  {
    var added := widths;
    var sequence: seq<int> := [];
    for i := 0 to |columns|
      invariant (i == 0) == (sequence == [])
      invariant i == 0 ==> added == widths
      invariant i > 0 ==> added == widths + ClosedRuns(columns, i, width, outlineLevel, collapsed, hidden)
      invariant i > 0 ==> sequence[0] == columns[RunStart(columns, i)]
      invariant i > 0 ==> sequence[|sequence| - 1] == columns[i - 1]
    {
      var column := columns[i];
      if |sequence| > 0 {
        var previousValue := sequence[|sequence| - 1];
        if column != previousValue + 1 {
          var step := AddRange(added, width, sequence[0], previousValue, outlineLevel, collapsed, hidden);
          if step.Err? {
            return Err(step.error);
          }
          added := step.value;
          sequence := [];
        }
      }
      sequence := sequence + [column];
    }
    r := AddRange(added, width, sequence[0], sequence[|sequence| - 1], outlineLevel, collapsed, hidden);
    AppendExpands(widths, columns, width, outlineLevel, collapsed, hidden);
  }
}
