/**
 * The immutable column-width record (src/Writer/Common/ColumnWidth.php) and
 * what a sequence of such records covers.
 */
module ColumnWidths {
  import opened Wrappers

  /**
   * A width applied to the inclusive column range [start, end].  Every field is
   * readonly in the source; a datatype value never changes.  The width is a PHP
   * float that is only stored, so it is carried as a `real` with no arithmetic.
   * `start`, `end` and `outlineLevel` are documented as positive integers but
   * nothing checks this, so the fields are plain `int`.
   */
  datatype ColumnWidth = ColumnWidth(
    start: int,
    end: int,
    width: real,
    outlineLevel: Option<int> := None,
    collapsed: bool := false,
    hidden: bool := false)

  /** The same record with its range ending at `end` instead. */
  function WithEnd(w: ColumnWidth, end: int): ColumnWidth {
    ColumnWidth(w.start, end, w.width, w.outlineLevel, w.collapsed, w.hidden)
  }

  /** The outline levels `setColumnWidthForRange` accepts: none, or 1 to 7. */
  predicate ValidOutlineLevel(outlineLevel: Option<int>) {
    outlineLevel.None? || 1 <= outlineLevel.value <= 7
  }

  /** The guard's boundaries: 1 and 7 pass, 0 and 8 are refused, no level always passes. */
  lemma OutlineLevelBoundaries()
    ensures ValidOutlineLevel(None)
    ensures ValidOutlineLevel(Some(1)) && ValidOutlineLevel(Some(7))
    ensures !ValidOutlineLevel(Some(0)) && !ValidOutlineLevel(Some(8))
  {
  }

  /** The columns lo, lo + 1, ..., hi in increasing order (empty when hi < lo). */
  function Span(lo: int, hi: int): (s: seq<int>)
    ensures |s| == if hi < lo then 0 else hi - lo + 1
    decreases hi - lo
  {
    if hi < lo then [] else Span(lo, hi - 1) + [hi]
  }

  /** The columns the first m records cover, record by record, in order. */
  function ExpandPrefix(widths: seq<ColumnWidth>, m: nat): seq<int>
    requires m <= |widths|
  {
    if m == 0 then []
    else ExpandPrefix(widths, m - 1) + Span(widths[m - 1].start, widths[m - 1].end)
  }

  /** The columns the records cover, record by record, in order. */
  function Expand(widths: seq<ColumnWidth>): seq<int> {
    ExpandPrefix(widths, |widths|)
  }

  /** What the first m records cover depends on those records only. */
  lemma {:induction false} ExpandAgree(a: seq<ColumnWidth>, b: seq<ColumnWidth>, m: nat)
    requires m <= |a| && m <= |b|
    requires forall i :: 0 <= i < m ==> a[i] == b[i]
    ensures ExpandPrefix(a, m) == ExpandPrefix(b, m)
  {
    if m > 0 {
      ExpandAgree(a, b, m - 1);
    }
  }

  /** Expanding an appended record adds exactly its range at the end. */
  lemma ExpandAppend(widths: seq<ColumnWidth>, w: ColumnWidth)
    ensures Expand(widths + [w]) == Expand(widths) + Span(w.start, w.end)
  {
    ExpandAgree(widths + [w], widths, |widths|);
  }

  /** Appended records never change what the earlier records cover. */
  lemma {:induction false} ExpandConcat(a: seq<ColumnWidth>, b: seq<ColumnWidth>)
    ensures Expand(a + b) == Expand(a) + Expand(b)
    decreases |b|
  {
    if b == [] {
      assert a + b == a;
    } else {
      var b' := b[..|b| - 1];
      var w := b[|b| - 1];
      assert a + b == (a + b') + [w];
      assert b == b' + [w];
      ExpandAppend(a + b', w);
      ExpandConcat(a, b');
      ExpandAppend(b', w);
    }
  }

  /** The last column a non-empty record list covers is its last record's end. */
  lemma ExpandLast(widths: seq<ColumnWidth>)
    requires widths != [] && widths[|widths| - 1].start <= widths[|widths| - 1].end
    ensures Expand(widths) != [] && Expand(widths)[|Expand(widths)| - 1] == widths[|widths| - 1].end
  {
  }

  /** The constructor defaults: no outline level, not collapsed, not hidden. */
  lemma Defaults(start: int, end: int, width: real)
    ensures ColumnWidth(start, end, width).outlineLevel == None
    ensures !ColumnWidth(start, end, width).collapsed && !ColumnWidth(start, end, width).hidden
  {
  }
}
