/** The default "rows x columns" of the subject grid, and the two entry boxes
    of the settings dialog that keep rows and columns consistent with the
    number of subjects (`RowColumnFrame` in cSLO_image_compilation_v2.py and
    test.py, the nested helpers of cSLO_image_compilation.py). */
module Grid {
  import opened Wrappers
  import opened Text

  /** floor(sqrt(n)), computed exactly on integers. */
  function IntSqrt(n: nat): (r: nat)
    ensures r * r <= n < (r + 1) * (r + 1)
  {
    if n == 0 then 0
    else
      var p := IntSqrt(n - 1);
      if (p + 1) * (p + 1) <= n then p + 1 else p
  }

  lemma MulMono(a: int, b: int, c: int)
    requires a <= b && c >= 0
    ensures a * c <= b * c
  {
  }

  /** Closed form of the grid-size rule: with s = floor(sqrt(n)), a perfect
      square or an n that fits s x (s+1) gets s x (s+1), anything larger
      gets s x (s+2). */
  function GridShape(n: nat): (int, int)
  {
    var s := IntSqrt(n);
    if s * s == n || n <= s * (s + 1) then (s, s + 1) else (s, s + 2)
  }

  /** The grid always holds every subject, the row count is the least that
      does for its column count, and the grid is never square: it has one
      or two more columns than rows. */
  lemma GridShapeFits(n: nat)
    ensures GridShape(n).0 >= 0
    ensures GridShape(n).0 * GridShape(n).1 >= n
    ensures (GridShape(n).0 - 1) * GridShape(n).1 < n
    ensures GridShape(n).1 - GridShape(n).0 in {1, 2}
  {
    var s: int := IntSqrt(n);
    assert (s - 1) * (s + 1) == s * s - 1;
    assert (s - 1) * (s + 2) == s * s + s - 2;
    assert s * (s + 2) == (s + 1) * (s + 1) - 1;
  }

  /** The values the source's authors work with. */
  lemma GridShapeExamples()
    ensures GridShape(0) == (0, 1) && GridShape(1) == (1, 2) && GridShape(3) == (1, 3)
    ensures GridShape(4) == (2, 3) && GridShape(7) == (2, 4) && GridShape(9) == (3, 4)
    ensures GridShape(16) == (4, 5)
  {
    IntSqrtIs(0, 0);
    IntSqrtIs(1, 1);
    IntSqrtIs(3, 1);
    IntSqrtIs(4, 2);
    IntSqrtIs(7, 2);
    IntSqrtIs(9, 3);
    IntSqrtIs(16, 4);
  }

  /** The integer square root is the only r with r² <= n < (r + 1)². */
  lemma IntSqrtIs(n: nat, r: nat)
    requires r * r <= n < (r + 1) * (r + 1)
    ensures IntSqrt(n) == r
  {
    var q := IntSqrt(n);
    if q < r {
      SquareMono(q + 1, r);
    } else if r < q {
      SquareMono(r + 1, q);
    }
  }

  lemma SquareMono(a: nat, b: nat)
    requires a <= b
    ensures a * a <= b * b
  {
    MulMono(a, b, a);
    MulMono(a, b, b);
  }

  /** `determine_row_and_column_number`: start from floor/ceil of the square
      root, step away from a square, grow the rows until everything fits,
      and step away from a square once more. */
  method DetermineRowAndColumnNumber(total: nat) returns (rows: int, columns: int)
    ensures (rows, columns) == GridShape(total)
  {
    var s: int := IntSqrt(total);
    rows := s;
    columns := if s * s == total then s else s + 1;
    if rows == columns {
      rows := rows - 1;
      columns := columns + 1;
    }
    // the row count the loop stops at
    ghost var target := if s * s == total || total <= s * (s + 1) then s else s + 1;
    TargetFits(total, s, target);
    while rows * columns < total
      invariant columns == s + 1
      invariant rows <= target
      decreases target - rows
    {
      BelowTarget(rows, target, columns, total);
      rows := rows + 1;
    }
    AtTarget(rows, target, columns, total);
    if rows == columns {
      rows := rows - 1;
      columns := columns + 1;
    }
  }

  /** `target` rows of s + 1 columns fit `total`, one row fewer does not. */
  lemma TargetFits(total: nat, s: int, target: int)
    requires s == IntSqrt(total)
    requires target == if s * s == total || total <= s * (s + 1) then s else s + 1
    ensures s >= 0 && s <= target
    ensures target * (s + 1) >= total && (target - 1) * (s + 1) < total
  {
    assert (s - 1) * (s + 1) == s * s - 1;
  }

  /** While the grid is too small the rows are below the target. */
  lemma BelowTarget(rows: int, target: int, columns: int, total: int)
    requires columns >= 0 && target * columns >= total && rows * columns < total
    ensures rows < target
  {
    if rows >= target {
      MulMono(target, rows, columns);
    }
  }

  /** The first row count that fits, up to the target, is the target. */
  lemma AtTarget(rows: int, target: int, columns: int, total: int)
    requires columns >= 0 && (target - 1) * columns < total && rows * columns >= total && rows <= target
    ensures rows == target
  {
    if rows < target {
      MulMono(rows, target - 1, columns);
    }
  }

  /** `math.ceil(a / b)` for integers. */
  function CeilDiv(a: int, b: int): (r: int)
    requires b != 0
    ensures b > 0 ==> (r - 1) * b < a <= r * b
    ensures b < 0 ==> r * b <= a < (r - 1) * b
  {
    if b > 0 then (a + b - 1) / b else (-a - b - 1) / (-b)
  }

  /** What one key release in an entry box does to the other box. */
  datatype EntryEffect = Keep | Clear | Write(value: int) | Raise(error: Error)

  /** The shared body of `update_columns` and `update_rows`: empty text
      leaves the other box alone, text that is not an integer clears it,
      an integer k writes ceil(mice / k), and 0 raises (there is no handler
      for `ZeroDivisionError`). */
  function OtherEntry(text: string, mice: nat): (e: EntryEffect)
    ensures text == "" <==> e.Keep?
    ensures e.Clear? <==> text != "" && ParseInt(text).None?
    ensures e.Raise? <==> text != "" && ParseInt(text) == Some(0)
    ensures e.Write? ==> (ParseInt(text).Some? && ParseInt(text).value != 0
      && e.value == CeilDiv(mice, ParseInt(text).value))
  {
    if text == "" then Keep
    else match ParseInt(text)
      case None => Clear
      case Some(k) => if k == 0 then Raise(ZeroDivisionError) else Write(CeilDiv(mice, k))
  }

  /** With a positive entry k the other box gets the least count that,
      times k, covers every subject. */
  lemma OtherEntryCovers(text: string, mice: nat)
    requires ParseInt(text).Some? && ParseInt(text).value > 0
    ensures OtherEntry(text, mice).Write?
    ensures OtherEntry(text, mice).value * ParseInt(text).value >= mice
    ensures (OtherEntry(text, mice).value - 1) * ParseInt(text).value < mice
  {
  }

  /** The new text of a box after an effect. */
  function Apply(e: EntryEffect, old_text: string): string
  {
    match e
    case Keep => old_text
    case Clear => ""
    case Write(v) => IntToString(v)
    case Raise(_) => old_text
  }

  /** The two entry boxes and the subject count they are tied to. */
  class RowColumnFrame {
    var numberOfMice: nat
    var rowEntry: string
    var columnEntry: string

    /** The dialog starts with zero subjects and the grid for zero. */
    constructor ()
      ensures numberOfMice == 0
      ensures rowEntry == IntToString(GridShape(0).0) && columnEntry == IntToString(GridShape(0).1)
    {
      numberOfMice := 0;
      var r, c := DetermineRowAndColumnNumber(0);
      rowEntry, columnEntry := IntToString(r), IntToString(c);
    }

    /** `update_numbers`: a new subject count resets both boxes to the default grid. */
    method UpdateNumbers(n: nat)
      modifies this
      ensures numberOfMice == n
      ensures rowEntry == IntToString(GridShape(n).0) && columnEntry == IntToString(GridShape(n).1)
    {
      numberOfMice := n;
      var r, c := DetermineRowAndColumnNumber(n);
      rowEntry, columnEntry := IntToString(r), IntToString(c);
    }

    /** `update_columns`: the row box changed; the raised error, if any, is returned. */
    method UpdateColumns() returns (raised: Option<Error>)
      modifies this
      ensures numberOfMice == old(numberOfMice) && rowEntry == old(rowEntry)
      ensures columnEntry == Apply(OtherEntry(old(rowEntry), old(numberOfMice)), old(columnEntry))
      ensures raised.Some? <==> OtherEntry(old(rowEntry), old(numberOfMice)).Raise?
    {
      var e := OtherEntry(rowEntry, numberOfMice);
      columnEntry := Apply(e, columnEntry);
      raised := if e.Raise? then Some(e.error) else None;
    }

    /** `update_rows`: the column box changed. */
    method UpdateRows() returns (raised: Option<Error>)
      modifies this
      ensures numberOfMice == old(numberOfMice) && columnEntry == old(columnEntry)
      ensures rowEntry == Apply(OtherEntry(old(columnEntry), old(numberOfMice)), old(rowEntry))
      ensures raised.Some? <==> OtherEntry(old(columnEntry), old(numberOfMice)).Raise?
    {
      var e := OtherEntry(columnEntry, numberOfMice);
      rowEntry := Apply(e, rowEntry);
      raised := if e.Raise? then Some(e.error) else None;
    }
  }

  /** After the default grid is written, typing nothing else leaves both
      boxes readable as the grid's numbers. */
  lemma DefaultEntriesParse(n: nat)
    ensures ParseInt(IntToString(GridShape(n).0)) == Some(GridShape(n).0)
    ensures ParseInt(IntToString(GridShape(n).1)) == Some(GridShape(n).1)
  {
    ParseIntToString(GridShape(n).0);
    ParseIntToString(GridShape(n).1);
  }
}
