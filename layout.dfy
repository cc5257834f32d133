/** The master layout (`create_master_canvas`): the title lines, subject
    canvases placed row-major under per-row modality labels, group headers,
    and the extent of everything placed. */
module MasterLayout {
  import opened Wrappers
  import opened Geometry
  import opened ImageTypes

  // ---------------------------------------------------------------------------
  // Elements
  // ---------------------------------------------------------------------------

  datatype Kind = TextElement(text: string) | ImageElement(mouse: string)

  /** A placed text or subject canvas and its rectangle. */
  datatype LayoutElement = LayoutElement(kind: Kind, x: int, y: int, width: int, height: int)
  {
    function Left(): int { x }
    function Top(): int { y }
    function Right(): int { x + width }
    function Bottom(): int { y + height }
    function CenterX(): int { x + width / 2 }
    function CenterY(): int { y + height / 2 }
  }

  /** The centre of a rectangle lies within it, and `Right`/`Bottom` are
      `Left`/`Top` moved by the size. */
  lemma CentreInside(e: LayoutElement)
    requires e.width >= 0 && e.height >= 0
    ensures e.Left() <= e.CenterX() <= e.Right() && e.Top() <= e.CenterY() <= e.Bottom()
    ensures e.Right() - e.Left() == e.width && e.Bottom() - e.Top() == e.height
  {
  }

  /** `LayoutElement.from_text`: the size of the text's bounding box. */
  function FromText(text: string, font: Font, x: int, y: int): (e: LayoutElement)
    ensures e.width == MeasureText(font, text).width && e.height == MeasureText(font, text).height
  {
    var m := MeasureText(font, text);
    LayoutElement(TextElement(text), x, y, m.width, m.height)
  }

  /** `LayoutElement.from_image` for a subject canvas. */
  function FromImage(mouse: string, width: int, height: int, x: int, y: int): LayoutElement
  {
    LayoutElement(ImageElement(mouse), x, y, width, height)
  }

  /** The subject canvases among the elements, in order. */
  function ImagesOf(es: seq<LayoutElement>): (r: seq<LayoutElement>)
    ensures |r| <= |es|
  {
    if es == [] then []
    else (if es[0].kind.ImageElement? then [es[0]] else []) + ImagesOf(es[1..])
  }

  lemma {:induction false} ImagesOfAppend(a: seq<LayoutElement>, b: seq<LayoutElement>)
    ensures ImagesOf(a + b) == ImagesOf(a) + ImagesOf(b)
  {
    if a != [] {
      assert (a + b)[1..] == a[1..] + b;
      ImagesOfAppend(a[1..], b);
    } else {
      assert a + b == b;
    }
  }

  /** The texts among the elements. */
  function TextCount(es: seq<LayoutElement>): nat
  {
    if es == [] then 0 else (if es[0].kind.TextElement? then 1 else 0) + TextCount(es[1..])
  }

  lemma {:induction false} TextCountAppend(a: seq<LayoutElement>, b: seq<LayoutElement>)
    ensures TextCount(a + b) == TextCount(a) + TextCount(b)
  {
    if a != [] {
      assert (a + b)[1..] == a[1..] + b;
      TextCountAppend(a[1..], b);
    } else {
      assert a + b == b;
    }
  }

  // ---------------------------------------------------------------------------
  // The label column
  // ---------------------------------------------------------------------------

  /** What the labels need: the font, the requested types and the slot heights. */
  datatype Labelling = Labelling(font: Font, types: seq<ImageType>, csloHeight: int, octHeight: int)

  function LabelWidth(lab: Labelling, ty: ImageType): int
  {
    FromText(ty.customName, lab.font, 0, 0).width
  }

  /** The widest label, and 0 when no label is wider. */
  function WidestLabel(lab: Labelling, types: seq<ImageType>): int
  {
    if types == [] then 0
    else Max(WidestLabel(lab, types[..|types| - 1]), LabelWidth(lab, types[|types| - 1]))
  }

  /** No label is wider than `WidestLabel`, which is 0 or some label's width. */
  lemma {:induction false} WidestLabelIsMax(lab: Labelling, types: seq<ImageType>)
    ensures var m := WidestLabel(lab, types);
      && m >= 0 && (forall k :: 0 <= k < |types| ==> LabelWidth(lab, types[k]) <= m)
      && (m == 0 || exists k :: 0 <= k < |types| && m == LabelWidth(lab, types[k]))
  {
    if types != [] {
      WidestLabelIsMax(lab, types[..|types| - 1]);
      assert forall k :: 0 <= k < |types| - 1 ==> types[..|types| - 1][k] == types[k];
    }
  }

  /** `determine_size_of_column_one_x_offset`: the subjects start right of
      the widest label, with a gap of the outer margin but at most 40. */
  method ColumnOneXOffset(lab: Labelling, outer: int) returns (x: int)
    ensures x == outer + WidestLabel(lab, lab.types) + Min(outer, 40)
  {
    var widest := 0;
    var i := 0;
    while i < |lab.types|
      invariant 0 <= i <= |lab.types|
      invariant widest == WidestLabel(lab, lab.types[..i])
    {
      assert lab.types[..i + 1][..i] == lab.types[..i];
      var w := FromText(lab.types[i].customName, lab.font, 0, 0).width;
      if w > widest {
        widest := w;
      }
      i := i + 1;
    }
    assert lab.types[..|lab.types|] == lab.types;
    x := outer + widest + Min(outer, 40);
  }

  function FirstX(lab: Labelling, outer: int): int
  {
    outer + WidestLabel(lab, lab.types) + Min(outer, 40)
  }

  /** Labels can be made for every type. */
  predicate KnownImagers(lab: Labelling, types: seq<ImageType>)
  {
    forall k :: 0 <= k < |types| ==> SlotHeight(lab, types[k]).Some?
  }

  /** The slot height of a type, or nothing for an imager that is neither. */
  function SlotHeight(lab: Labelling, ty: ImageType): Option<int>
  {
    if ty.imager == "cslo" then Some(lab.csloHeight)
    else if ty.imager == "oct" then Some(lab.octHeight)
    else None
  }

  /** `insert_image_modality_text` from the top of the first slot: one label
      per type at `x`, vertically centred on its slot (`(img_h - y1) // 2`
      below the slot's top, `y1` being the ink's bottom); an imager other
      than cslo or oct raises `ValueError`. */
  function Labels(lab: Labelling, types: seq<ImageType>, x: int, top: int): Result<seq<LayoutElement>>
  {
    if types == [] then Ok([])
    else
      match SlotHeight(lab, types[0])
      case None => Err(ValueError("Invalid image_modality"))
      case Some(h) =>
        var y := top + (h - lab.font(types[0].customName).y1) / 2;
        var e := FromText(types[0].customName, lab.font, x, y);
        match Labels(lab, types[1..], x, top + h)
        case Err(err) => Err(err)
        case Ok(rest) => Ok([e] + rest)
  }

  /** There is one label per type, each a text; the labels fail exactly
      when some type's imager is neither cslo nor oct. */
  lemma {:induction false} LabelsShape(lab: Labelling, types: seq<ImageType>, x: int, top: int)
    ensures var r := Labels(lab, types, x, top);
      && (r.Ok? ==> |r.value| == |types| && TextCount(r.value) == |types| && ImagesOf(r.value) == [])
      && (r.Err? <==> !KnownImagers(lab, types))
  {
    if types != [] && SlotHeight(lab, types[0]).Some? {
      var h := SlotHeight(lab, types[0]).value;
      var e := FromText(types[0].customName, lab.font, x, top + (h - lab.font(types[0].customName).y1) / 2);
      LabelsShape(lab, types[1..], x, top + h);
      var rest := Labels(lab, types[1..], x, top + h);
      if rest.Err? {
        var k :| 0 <= k < |types[1..]| && SlotHeight(lab, types[1..][k]).None?;
        assert types[k + 1] == types[1..][k];
      } else {
        assert forall k :: 0 < k < |types| ==> types[k] == types[1..][k - 1];
        TextCountAppend([e], rest.value);
        ImagesOfAppend([e], rest.value);
      }
    }
  }

  /** Label k sits in the label column, `(img_h - y1) // 2` under the top
      of its slot: the slots above add their heights. */
  lemma {:induction false} LabelPlace(lab: Labelling, types: seq<ImageType>, x: int, top: int, k: nat)
    requires Labels(lab, types, x, top).Ok? && k < |types|
    ensures |Labels(lab, types, x, top).value| == |types| && SlotHeight(lab, types[k]).Some?
    ensures var e := Labels(lab, types, x, top).value[k];
      && e.x == x
      && e.kind == TextElement(types[k].customName)
      && e.y == top + SlotTops(lab, types[..k]) + (SlotHeight(lab, types[k]).value - lab.font(types[k].customName).y1) / 2
  {
    LabelsShape(lab, types, x, top);
    var h := SlotHeight(lab, types[0]).value;
    if k > 0 {
      LabelPlace(lab, types[1..], x, top + h, k - 1);
      assert types[1..][..k - 1] == types[..k][1..];
      assert types[..k][0] == types[0];
    }
  }

  /** The height of the slots `types`, all of a known imager. */
  function SlotTops(lab: Labelling, types: seq<ImageType>): int
  {
    if types == [] then 0
    else
      var h := SlotHeight(lab, types[0]);
      (if h.Some? then h.value else 0) + SlotTops(lab, types[1..])
  }

  // ---------------------------------------------------------------------------
  // Row-major placement
  // ---------------------------------------------------------------------------

  /** The margins and the number of columns, read from the settings as integers. */
  datatype Spacing = Spacing(outer: int, columnMargin: int, rowMargin: int, columns: int)

  /** A subject canvas as the layout sees it, together with the heading
      height its assembly left behind. */
  datatype MouseCanvas = MouseCanvas(width: int, height: int, heading: int)

  /** Assembling a subject's canvas. */
  type Canvases = string -> Result<MouseCanvas>

  /** What placing a list of subjects appends, the last canvas placed, if
      any, and the heading height left by the last assembly. */
  datatype Run = Run(elements: seq<LayoutElement>, last: Option<LayoutElement>, heading: int)

  /** The column count and the position of the next canvas. */
  datatype Cursor = Cursor(col: int, x: int, y: int)

  /** After `columns` canvases x returns to `firstX` and y moves under the
      canvas just placed; otherwise x moves right of it. */
  function Advance(sp: Spacing, firstX: int, cur: Cursor, e: LayoutElement): Cursor
  {
    if cur.col + 1 == sp.columns then Cursor(0, firstX, e.Bottom() + sp.rowMargin)
    else Cursor(cur.col + 1, e.Right() + sp.columnMargin, cur.y)
  }

  /** The labels at the start of a row. */
  function RowLabels(sp: Spacing, lab: Labelling, cur: Cursor, heading: int): Result<seq<LayoutElement>>
  {
    if cur.col == 0 then Labels(lab, lab.types, sp.outer, cur.y + heading) else Ok([])
  }

  /** `acc` placed before what `r` places; `last` stays the last canvas
      when `r` places none. */
  function Then(acc: seq<LayoutElement>, last: Option<LayoutElement>, r: Result<Run>): Result<Run>
  {
    match r
    case Err(e) => Err(e)
    case Ok(run) => Ok(Run(acc + run.elements, if run.last.Some? then run.last else last, run.heading))
  }

  lemma ThenThen(acc: seq<LayoutElement>, last: Option<LayoutElement>, a: seq<LayoutElement>,
                 x: LayoutElement, r: Result<Run>)
    ensures Then(acc, last, Then(a, Some(x), r)) == Then(acc + a, Some(x), r)
  {
    if r.Ok? {
      assert acc + (a + r.value.elements) == acc + a + r.value.elements;
    }
  }

  /** The loop of `assemble_mouse_canvases_into_layout`: the labels at the
      start of every row (placed with the heading height of the canvas
      assembled before), then the canvas, then the cursor advances. */
  function PlaceMice(sp: Spacing, lab: Labelling, canvases: Canvases, firstX: int,
                     mice: seq<string>, cur: Cursor, heading: int): (r: Result<Run>)
    ensures r.Ok? ==> (r.value.last.None? <==> mice == [])
  {
    if mice == [] then Ok(Run([], None, heading))
    else
      match RowLabels(sp, lab, cur, heading)
      case Err(e) => Err(e)
      case Ok(ls) =>
        match canvases(mice[0])
        case Err(e) => Err(e)
        case Ok(c) =>
          var e := FromImage(mice[0], c.width, c.height, cur.x, cur.y);
          Then(ls + [e], Some(e), PlaceMice(sp, lab, canvases, firstX, mice[1..], Advance(sp, firstX, cur, e), c.heading))
  }

  /** Every subject gets a canvas of the same size. */
  predicate Uniform(canvases: Canvases, mice: seq<string>, w: int, h: int)
  {
    forall k :: 0 <= k < |mice| ==>
      canvases(mice[k]).Ok? && canvases(mice[k]).value.width == w && canvases(mice[k]).value.height == h
  }


  lemma DivModStep(a: int, n: int)
    requires n >= 1 && a >= 0
    ensures (a + n) / n == a / n + 1 && (a + n) % n == a % n
  {
    DivModUnique(a + n, n, a / n + 1, a % n);
  }

  lemma DivModUnique(a: int, n: int, q: int, r: int)
    requires n >= 1 && a == q * n + r && 0 <= r < n
    ensures a / n == q && a % n == r
  {
    var d := q - a / n;
    assert d * n == a % n - r;
    if d >= 1 {
      MulAtLeast(d, n);
    } else if d <= -1 {
      MulAtLeast(-d, n);
    }
  }

  lemma MulAtLeast(d: int, n: int)
    requires d >= 1 && n >= 1
    ensures d * n >= n
  {
    assert (d - 1) * n >= 0;
  }

  /** Position `i` of a regular grid line starting at `base`. */
  function Cell(base: int, step: int, i: int): int
  {
    base + i * step
  }

  lemma CellNext(base: int, step: int, i: int)
    ensures Cell(base, step, i + 1) == Cell(base, step, i) + step
    ensures Cell(base, step, i + 1) == Cell(base + step, step, i)
    ensures Cell(base, step, 0) == base
  {
    assert (i + 1) * step == i * step + step;
  }

  /** The cursor after `k` canvases of size `w` by `h`. */
  function CursorAfter(sp: Spacing, firstX: int, w: int, h: int, cur: Cursor, k: nat): Cursor
    decreases k
  {
    if k == 0 then cur
    else CursorAfter(sp, firstX, w, h, Advance(sp, firstX, cur, FromImage("", w, h, cur.x, cur.y)), k - 1)
  }

  /** With canvases of one size, subject k lands where the cursor is after
      the k subjects before it. */
  lemma {:induction false} GridPlaces(sp: Spacing, lab: Labelling, canvases: Canvases, firstX: int,
                  mice: seq<string>, cur: Cursor, heading: int, w: int, h: int, k: nat)
    requires PlaceMice(sp, lab, canvases, firstX, mice, cur, heading).Ok?
    requires Uniform(canvases, mice, w, h) && k < |mice|
    ensures var r := PlaceMice(sp, lab, canvases, firstX, mice, cur, heading);
      var at := CursorAfter(sp, firstX, w, h, cur, k);
      && |ImagesOf(r.value.elements)| == |mice|
      && ImagesOf(r.value.elements)[k] == FromImage(mice[k], w, h, at.x, at.y)
    decreases |mice|
  {
    GridCount(sp, lab, canvases, firstX, mice, cur, heading);
    FirstImage(sp, lab, canvases, firstX, mice, cur, heading);
    assert canvases(mice[0]).value.width == w && canvases(mice[0]).value.height == h;
    var c := canvases(mice[0]).value;
    var e := FromImage(mice[0], w, h, cur.x, cur.y);
    var next := Advance(sp, firstX, cur, e);
    assert next == Advance(sp, firstX, cur, FromImage("", w, h, cur.x, cur.y));
    if k > 0 {
      UniformTail(canvases, mice, w, h);
      GridPlaces(sp, lab, canvases, firstX, mice[1..], next, c.heading, w, h, k - 1);
      assert mice[1..][k - 1] == mice[k];
    }
  }

  /** The cursor walks a regular grid: after k canvases from column `col`
      it stands in column `(col + k) % columns` and row `(col + k) / columns`,
      row-major, each column `w` plus the column margin wide and each row
      `h` plus the row margin high. */
  lemma {:induction false} CursorOnGrid(sp: Spacing, firstX: int, w: int, h: int, cur: Cursor, k: nat)
    requires sp.columns >= 1 && 0 <= cur.col < sp.columns
    requires cur.x == Cell(firstX, w + sp.columnMargin, cur.col)
    ensures var at := CursorAfter(sp, firstX, w, h, cur, k);
      var i := cur.col + k;
      && at.col == i % sp.columns
      && at.x == Cell(firstX, w + sp.columnMargin, i % sp.columns)
      && at.y == Cell(cur.y, h + sp.rowMargin, i / sp.columns)
    decreases k
  {
    var n := sp.columns;
    var step := w + sp.columnMargin;
    var rowStep := h + sp.rowMargin;
    if k == 0 {
      DivModUnique(cur.col, n, 0, cur.col);
      CellNext(cur.y, rowStep, 0);
    } else {
      var next := Advance(sp, firstX, cur, FromImage("", w, h, cur.x, cur.y));
      CellNext(firstX, step, cur.col);
      CursorOnGrid(sp, firstX, w, h, next, k - 1);
      if cur.col + 1 == n {
        WrapIndex(cur.col, k, n);
        CellNext(cur.y, rowStep, (k - 1) / n);
      }
    }
  }

  /** Moving past the last column. */
  lemma WrapIndex(col: int, k: int, n: int)
    requires n >= 1 && col + 1 == n && k >= 1
    ensures (col + k) % n == (k - 1) % n && (col + k) / n == (k - 1) / n + 1
  {
    DivModStep(k - 1, n);
    assert col + k == (k - 1) + n;
  }

  lemma UniformTail(canvases: Canvases, mice: seq<string>, w: int, h: int)
    requires Uniform(canvases, mice, w, h) && mice != []
    ensures Uniform(canvases, mice[1..], w, h)
  {
    forall j | 0 <= j < |mice[1..]| ensures canvases(mice[1..][j]) == canvases(mice[j + 1]) {
      assert mice[1..][j] == mice[j + 1];
    }
  }

  /** The images of a run are its first canvas, then those of the rest. */
  lemma FirstImage(sp: Spacing, lab: Labelling, canvases: Canvases, firstX: int,
                   mice: seq<string>, cur: Cursor, heading: int)
    requires PlaceMice(sp, lab, canvases, firstX, mice, cur, heading).Ok? && mice != []
    ensures var c := canvases(mice[0]).value;
      var e := FromImage(mice[0], c.width, c.height, cur.x, cur.y);
      var rest := PlaceMice(sp, lab, canvases, firstX, mice[1..], Advance(sp, firstX, cur, e), c.heading);
      && rest.Ok?
      && ImagesOf(PlaceMice(sp, lab, canvases, firstX, mice, cur, heading).value.elements)
         == [e] + ImagesOf(rest.value.elements)
  {
    var c := canvases(mice[0]).value;
    var e := FromImage(mice[0], c.width, c.height, cur.x, cur.y);
    var ls := RowLabels(sp, lab, cur, heading).value;
    var rest := PlaceMice(sp, lab, canvases, firstX, mice[1..], Advance(sp, firstX, cur, e), c.heading).value;
    LabelsShape(lab, lab.types, sp.outer, cur.y + heading);
    assert PlaceMice(sp, lab, canvases, firstX, mice, cur, heading).value.elements == ls + [e] + rest.elements;
    ImagesOfAppend(ls + [e], rest.elements);
    ImagesOfAppend(ls, [e]);
    assert [e][1..] == [];
    assert ImagesOf([e]) == [e];
    assert ImagesOf(ls + [e]) == [e];
  }

  /** ... where every placement succeeds ... */
  lemma {:induction false} GridOk(sp: Spacing, lab: Labelling, canvases: Canvases, firstX: int,
                mice: seq<string>, cur: Cursor, heading: int, w: int, h: int)
    requires KnownImagers(lab, lab.types) && Uniform(canvases, mice, w, h)
    ensures PlaceMice(sp, lab, canvases, firstX, mice, cur, heading).Ok?
    decreases |mice|
  {
    if mice != [] {
      LabelsShape(lab, lab.types, sp.outer, cur.y + heading);
      assert RowLabels(sp, lab, cur, heading).Ok?;
      UniformTail(canvases, mice, w, h);
      var c := canvases(mice[0]).value;
      var e := FromImage(mice[0], c.width, c.height, cur.x, cur.y);
      GridOk(sp, lab, canvases, firstX, mice[1..], Advance(sp, firstX, cur, e), c.heading, w, h);
    }
  }

  /** ... and there is one canvas per subject. */
  lemma {:induction false} GridCount(sp: Spacing, lab: Labelling, canvases: Canvases, firstX: int,
                   mice: seq<string>, cur: Cursor, heading: int)
    requires PlaceMice(sp, lab, canvases, firstX, mice, cur, heading).Ok?
    ensures |ImagesOf(PlaceMice(sp, lab, canvases, firstX, mice, cur, heading).value.elements)| == |mice|
    decreases |mice|
  {
    if mice != [] {
      FirstImage(sp, lab, canvases, firstX, mice, cur, heading);
      var c := canvases(mice[0]).value;
      var e := FromImage(mice[0], c.width, c.height, cur.x, cur.y);
      GridCount(sp, lab, canvases, firstX, mice[1..], Advance(sp, firstX, cur, e), c.heading);
    }
  }

  /** How many of `m` canvases, the first in column `col`, start a row. */
  function RowsStarted(columns: int, col: int, m: nat): nat
    decreases m
  {
    if m == 0 then 0
    else (if col == 0 then 1 else 0) + RowsStarted(columns, if col + 1 == columns then 0 else col + 1, m - 1)
  }

  /** Every row starts with one label per type, and only rows do. */
  lemma {:induction false} LabelsPerRow(sp: Spacing, lab: Labelling, canvases: Canvases, firstX: int,
                      mice: seq<string>, cur: Cursor, heading: int)
    requires PlaceMice(sp, lab, canvases, firstX, mice, cur, heading).Ok?
    ensures TextCount(PlaceMice(sp, lab, canvases, firstX, mice, cur, heading).value.elements)
            == |lab.types| * RowsStarted(sp.columns, cur.col, |mice|)
    decreases |mice|
  {
    if mice != [] {
      var c := canvases(mice[0]).value;
      var e := FromImage(mice[0], c.width, c.height, cur.x, cur.y);
      var next := Advance(sp, firstX, cur, e);
      FirstTexts(sp, lab, canvases, firstX, mice, cur, heading);
      LabelsPerRow(sp, lab, canvases, firstX, mice[1..], next, c.heading);
      var t := |lab.types|;
      var r := RowsStarted(sp.columns, next.col, |mice| - 1);
      assert t * ((if cur.col == 0 then 1 else 0) + r) == (if cur.col == 0 then t else 0) + t * r;
    }
  }

  /** The texts of a run: the row's labels, if a row starts, then those of the rest. */
  lemma FirstTexts(sp: Spacing, lab: Labelling, canvases: Canvases, firstX: int,
                   mice: seq<string>, cur: Cursor, heading: int)
    requires PlaceMice(sp, lab, canvases, firstX, mice, cur, heading).Ok? && mice != []
    ensures var c := canvases(mice[0]).value;
      var e := FromImage(mice[0], c.width, c.height, cur.x, cur.y);
      var rest := PlaceMice(sp, lab, canvases, firstX, mice[1..], Advance(sp, firstX, cur, e), c.heading);
      && rest.Ok?
      && TextCount(PlaceMice(sp, lab, canvases, firstX, mice, cur, heading).value.elements)
         == (if cur.col == 0 then |lab.types| else 0) + TextCount(rest.value.elements)
  {
    var c := canvases(mice[0]).value;
    var e := FromImage(mice[0], c.width, c.height, cur.x, cur.y);
    var ls := RowLabels(sp, lab, cur, heading).value;
    var rest := PlaceMice(sp, lab, canvases, firstX, mice[1..], Advance(sp, firstX, cur, e), c.heading).value;
    LabelsShape(lab, lab.types, sp.outer, cur.y + heading);
    assert PlaceMice(sp, lab, canvases, firstX, mice, cur, heading).value.elements == ls + [e] + rest.elements;
    TextCountAppend(ls + [e], rest.elements);
    TextCountAppend(ls, [e]);
    assert [e][1..] == [];
  }

  /** From the first column, `m` canvases fill `ceil(m / columns)` rows. */
  lemma RowsFromFirstColumn(columns: int, m: nat)
    requires columns >= 1
    ensures RowsStarted(columns, 0, m) == (m + columns - 1) / columns
  {
    RowsStartedCount(columns, 0, m);
  }

  lemma {:induction false} RowsStartedCount(n: int, col: int, m: nat)
    requires n >= 1 && 0 <= col < n
    ensures RowsStarted(n, col, m) == (col + m + n - 1) / n - (if col == 0 then 0 else 1)
    decreases m
  {
    if m == 0 {
      if col == 0 {
        DivModUnique(n - 1, n, 0, n - 1);
      } else {
        DivModUnique(col + n - 1, n, 1, col - 1);
      }
    } else if col + 1 < n {
      RowsStartedCount(n, col + 1, m - 1);
    } else {
      RowsStartedCount(n, 0, m - 1);
      DivModStep(m + n - 2, n);
    }
  }

  // ---------------------------------------------------------------------------
  // Subjects placed, group by group
  // ---------------------------------------------------------------------------

  /** The subjects among the elements, in order. */
  function MiceOf(es: seq<LayoutElement>): seq<string>
  {
    if es == [] then []
    else (if es[0].kind.ImageElement? then [es[0].kind.mouse] else []) + MiceOf(es[1..])
  }

  lemma {:induction false} MiceOfAppend(a: seq<LayoutElement>, b: seq<LayoutElement>)
    ensures MiceOf(a + b) == MiceOf(a) + MiceOf(b)
  {
    if a != [] {
      assert (a + b)[1..] == a[1..] + b;
      MiceOfAppend(a[1..], b);
    } else {
      assert a + b == b;
    }
  }

  /** Texts name no subject. */
  lemma {:induction false} MiceOfLabels(lab: Labelling, types: seq<ImageType>, x: int, top: int)
    requires Labels(lab, types, x, top).Ok?
    ensures MiceOf(Labels(lab, types, x, top).value) == []
  {
    if types != [] {
      var h := SlotHeight(lab, types[0]).value;
      var e := FromText(types[0].customName, lab.font, x, top + (h - lab.font(types[0].customName).y1) / 2);
      MiceOfLabels(lab, types[1..], x, top + h);
      MiceOfAppend([e], Labels(lab, types[1..], x, top + h).value);
    }
  }

  lemma MiceOfThen(acc: seq<LayoutElement>, last: Option<LayoutElement>, r: Result<Run>)
    requires r.Ok?
    ensures Then(acc, last, r).Ok? && MiceOf(Then(acc, last, r).value.elements) == MiceOf(acc) + MiceOf(r.value.elements)
  {
    MiceOfAppend(acc, r.value.elements);
  }

  /** Every subject of the list gets a canvas, in list order. */
  lemma {:induction false} PlacedMice(sp: Spacing, lab: Labelling, canvases: Canvases, firstX: int,
                    mice: seq<string>, cur: Cursor, heading: int)
    requires PlaceMice(sp, lab, canvases, firstX, mice, cur, heading).Ok?
    ensures MiceOf(PlaceMice(sp, lab, canvases, firstX, mice, cur, heading).value.elements) == mice
    decreases |mice|
  {
    if mice != [] {
      var c := canvases(mice[0]).value;
      var e := FromImage(mice[0], c.width, c.height, cur.x, cur.y);
      var ls := RowLabels(sp, lab, cur, heading).value;
      var rest := PlaceMice(sp, lab, canvases, firstX, mice[1..], Advance(sp, firstX, cur, e), c.heading);
      assert PlaceMice(sp, lab, canvases, firstX, mice, cur, heading) == Then(ls + [e], Some(e), rest);
      if cur.col == 0 {
        MiceOfLabels(lab, lab.types, sp.outer, cur.y + heading);
      }
      PlacedMice(sp, lab, canvases, firstX, mice[1..], Advance(sp, firstX, cur, e), c.heading);
      MouseThen(ls, e, rest);
      assert mice == [mice[0]] + mice[1..];
    }
  }

  /** Labels, then one canvas, then a run: the canvas's subject comes
      before the run's. */
  lemma MouseThen(ls: seq<LayoutElement>, e: LayoutElement, rest: Result<Run>)
    requires rest.Ok? && MiceOf(ls) == [] && e.kind.ImageElement?
    ensures Then(ls + [e], Some(e), rest).Ok?
    ensures MiceOf(Then(ls + [e], Some(e), rest).value.elements) == [e.kind.mouse] + MiceOf(rest.value.elements)
  {
    MiceOfThen(ls + [e], Some(e), rest);
    MiceOfAppend(ls, [e]);
    assert [e][1..] == [];
  }

  /** `assemble_mouse_canvases_into_layout(mouse_list, y_offset)`: the
      subjects from the first column at `y`; with no subject the bottom
      pixel is read from an unbound `mouse_element`. */
  function AssembleRun(sp: Spacing, lab: Labelling, canvases: Canvases, mice: seq<string>, y: int,
                       heading: int): Result<Run>
  {
    var x := FirstX(lab, sp.outer);
    match PlaceMice(sp, lab, canvases, x, mice, Cursor(0, x, y), heading)
    case Err(e) => Err(e)
    case Ok(run) => if run.last.None? then Err(UnboundLocalError("mouse_element")) else Ok(run)
  }

  /** An empty list fails; otherwise every subject gets a canvas, in order. */
  lemma AssembleRunMice(sp: Spacing, lab: Labelling, canvases: Canvases, mice: seq<string>, y: int, heading: int)
    ensures var r := AssembleRun(sp, lab, canvases, mice, y, heading);
      && (mice == [] ==> r == Err(UnboundLocalError("mouse_element")))
      && (r.Ok? ==> r.value.last.Some? && MiceOf(r.value.elements) == mice)
  {
    var x := FirstX(lab, sp.outer);
    if PlaceMice(sp, lab, canvases, x, mice, Cursor(0, x, y), heading).Ok? {
      PlacedMice(sp, lab, canvases, x, mice, Cursor(0, x, y), heading);
    }
  }

  /** A row of `mouse_info_dic`: the subject's lab id and group. */
  datatype MouseInfo = MouseInfo(labId: string, group: string)

  /** `mouse_info_dic` in its insertion order. */
  type MouseTable = seq<(string, MouseInfo)>

  /** `list(mouse_info_dic.keys())`. */
  function Keys(info: MouseTable): (r: seq<string>)
    ensures |r| == |info| && forall k :: 0 <= k < |r| ==> r[k] == info[k].0
  {
    if info == [] then [] else [info[0].0] + Keys(info[1..])
  }

  /** The subjects of one group, in table order. */
  function GroupMice(info: MouseTable, group: string): (r: seq<string>)
    ensures |r| <= |info|
  {
    if info == [] then []
    else (if info[0].1.group == group then [info[0].0] else []) + GroupMice(info[1..], group)
  }

  predicate InGroup(info: MouseTable, m: string, group: string)
  {
    exists k :: 0 <= k < |info| && info[k].0 == m && info[k].1.group == group
  }

  /** A group's list holds exactly the subjects filed under it. */
  lemma {:induction false} GroupMiceMembers(info: MouseTable, group: string, m: string)
    ensures m in GroupMice(info, group) <==> InGroup(info, m, group)
  {
    if info != [] {
      GroupMiceMembers(info[1..], group, m);
      if InGroup(info[1..], m, group) {
        var k :| 0 <= k < |info[1..]| && info[1..][k].0 == m && info[1..][k].1.group == group;
        assert info[k + 1] == info[1..][k];
      }
      if InGroup(info, m, group) && !(info[0].0 == m && info[0].1.group == group) {
        var k :| 0 <= k < |info| && info[k].0 == m && info[k].1.group == group;
        assert info[1..][k - 1] == info[k];
      }
    }
  }

  lemma {:induction false} GroupMiceAppend(info: MouseTable, row: (string, MouseInfo), group: string)
    ensures GroupMice(info + [row], group) == GroupMice(info, group) + (if row.1.group == group then [row.0] else [])
  {
    if info != [] {
      assert (info + [row])[1..] == info[1..] + [row];
      GroupMiceAppend(info[1..], row, group);
    } else {
      assert [row][1..] == [];
    }
  }

  /** The loop that collects a group's subjects from `mouse_info_dic`. */
  method CollectGroup(info: MouseTable, group: string) returns (mice: seq<string>)
    ensures mice == GroupMice(info, group)
  {
    mice := [];
    var i := 0;
    while i < |info|
      invariant 0 <= i <= |info| && mice == GroupMice(info[..i], group)
    {
      GroupMiceAppend(info[..i], info[i], group);
      assert info[..i + 1] == info[..i] + [info[i]];
      if info[i].1.group == group {
        mice := mice + [info[i].0];
      }
      i := i + 1;
    }
    assert info[..i] == info;
  }

  /** `int(row_margin_size / 2)`: true division, truncated toward zero. */
  function TruncHalf(m: int): (r: int)
    ensures m >= 0 ==> 0 <= m - 2 * r <= 1
    ensures m < 0 ==> 0 <= 2 * r - m <= 1
  {
    if m >= 0 then m / 2 else -((-m) / 2)
  }

  /** The settings the master layout reads. */
  datatype Document = Document(
    sp: Spacing,
    lab: Labelling,
    title: string, titleFont: Font,
    subtitle: string, subtitleFont: Font,
    groupFont: Font,
    groupOrder: seq<string>,
    info: MouseTable)

  /** Laying out a list of subjects from a row's top and a heading height. */
  type Assembler = (seq<string>, int, int) -> Result<Run>

  /** What `AssembleRun` promises of every list it lays out. */
  ghost predicate Faithful(assemble: Assembler)
  {
    forall mice, y, h :: assemble(mice, y, h).Ok? ==> MiceOf(assemble(mice, y, h).value.elements) == mice
  }

  lemma AssembleRunFaithful(sp: Spacing, lab: Labelling, canvases: Canvases)
    ensures Faithful(Assembly(sp, lab, canvases))
  {
    forall mice, y, h ensures Assembly(sp, lab, canvases)(mice, y, h).Ok?
                              ==> MiceOf(Assembly(sp, lab, canvases)(mice, y, h).value.elements) == mice {
      AssembleRunMice(sp, lab, canvases, mice, y, h);
    }
  }

  /** The group loop: each group's header at the left margin, its subjects
      half a row margin under the header, the next group two row margins
      under the last canvas of this one. */
  function PlaceGroups(d: Document, assemble: Assembler, groups: seq<string>, y: int, heading: int): (r: Result<Run>)
  {
    if groups == [] then Ok(Run([], None, heading))
    else
      var header := FromText(groups[0], d.groupFont, d.sp.outer, y);
      var top := y + MeasureText(d.groupFont, groups[0]).height + TruncHalf(d.sp.rowMargin);
      match assemble(GroupMice(d.info, groups[0]), top, heading)
      case Err(e) => Err(e)
      case Ok(run) =>
        match run.last
        case None => Err(UnboundLocalError("mouse_element"))
        case Some(last) =>
          Then([header] + run.elements, run.last,
               PlaceGroups(d, assemble, groups[1..], last.Bottom() + 2 * d.sp.rowMargin, run.heading))
  }

  /** The subjects of the groups, group by group. */
  function GroupedMice(info: MouseTable, groups: seq<string>): seq<string>
  {
    if groups == [] then [] else GroupMice(info, groups[0]) + GroupedMice(info, groups[1..])
  }

  /** The groups are laid out in order, each with exactly its subjects. */
  lemma {:induction false} GroupsPlaced(d: Document, assemble: Assembler, groups: seq<string>, y: int, heading: int)
    requires Faithful(assemble) && PlaceGroups(d, assemble, groups, y, heading).Ok?
    ensures MiceOf(PlaceGroups(d, assemble, groups, y, heading).value.elements) == GroupedMice(d.info, groups)
    decreases |groups|
  {
    if groups != [] {
      var top := y + MeasureText(d.groupFont, groups[0]).height + TruncHalf(d.sp.rowMargin);
      var run := assemble(GroupMice(d.info, groups[0]), top, heading).value;
      GroupStep(d, assemble, groups, y, heading);
      GroupsPlaced(d, assemble, groups[1..], run.last.value.Bottom() + 2 * d.sp.rowMargin, run.heading);
    }
  }

  /** One group: its header names no subject, then come its own subjects. */
  lemma GroupStep(d: Document, assemble: Assembler, groups: seq<string>, y: int, heading: int)
    requires Faithful(assemble) && PlaceGroups(d, assemble, groups, y, heading).Ok? && groups != []
    ensures var top := y + MeasureText(d.groupFont, groups[0]).height + TruncHalf(d.sp.rowMargin);
      var run := assemble(GroupMice(d.info, groups[0]), top, heading);
      && run.Ok? && run.value.last.Some?
      && var rest := PlaceGroups(d, assemble, groups[1..], run.value.last.value.Bottom() + 2 * d.sp.rowMargin, run.value.heading);
      && rest.Ok?
      && MiceOf(PlaceGroups(d, assemble, groups, y, heading).value.elements)
         == GroupMice(d.info, groups[0]) + MiceOf(rest.value.elements)
  {
    var header := FromText(groups[0], d.groupFont, d.sp.outer, y);
    var top := y + MeasureText(d.groupFont, groups[0]).height + TruncHalf(d.sp.rowMargin);
    var run := assemble(GroupMice(d.info, groups[0]), top, heading).value;
    var rest := PlaceGroups(d, assemble, groups[1..], run.last.value.Bottom() + 2 * d.sp.rowMargin, run.heading);
    assert PlaceGroups(d, assemble, groups, y, heading) == Then([header] + run.elements, run.last, rest);
    MiceOfThen([header] + run.elements, run.last, rest);
    MiceOfText(header, run.elements);
    assert MiceOf(run.elements) == GroupMice(d.info, groups[0]);
  }

  /** A text in front adds no subject. */
  lemma MiceOfText(e: LayoutElement, es: seq<LayoutElement>)
    requires e.kind.TextElement?
    ensures MiceOf([e] + es) == MiceOf(es)
  {
    assert ([e] + es)[1..] == es;
  }

  /** A subject is in the grouped list only if its group is listed. */
  lemma {:induction false} GroupedOnlyListed(info: MouseTable, groups: seq<string>, m: string)
    requires m in GroupedMice(info, groups)
    ensures exists k :: 0 <= k < |groups| && InGroup(info, m, groups[k])
  {
    if m in GroupMice(info, groups[0]) {
      GroupMiceMembers(info, groups[0], m);
    } else {
      GroupedOnlyListed(info, groups[1..], m);
      var k :| 0 <= k < |groups[1..]| && InGroup(info, m, groups[1..][k]);
      assert groups[k + 1] == groups[1..][k];
    }
  }

  /** The title at the margins, the subtitle a fifth of the title's height
      under it. */
  function TitleLines(d: Document): (r: seq<LayoutElement>)
    ensures |r| == 2 && r[0].kind == TextElement(d.title) && r[1].kind == TextElement(d.subtitle)
    ensures r[0].x == r[1].x == d.sp.outer && r[0].y == d.sp.outer
    ensures r[1].y == r[0].Bottom() + r[0].height / 5
  {
    var title := FromText(d.title, d.titleFont, d.sp.outer, d.sp.outer);
    [title, FromText(d.subtitle, d.subtitleFont, d.sp.outer, title.Bottom() + title.height / 5)]
  }

  /** Everything `create_master_canvas` places, in drawing order: the title
      lines, then the groups (or, with no group order, every subject of the
      table in table order) from one row margin under the subtitle. */
  function Layout(d: Document, assemble: Assembler, heading: int): Result<Run>
  {
    var lines := TitleLines(d);
    Then(lines, None, Subjects(d, assemble, lines[1].Bottom() + d.sp.rowMargin, heading))
  }

  /** The groups in their order or, with no group order, every subject. */
  function Subjects(d: Document, assemble: Assembler, y: int, heading: int): Result<Run>
  {
    if d.groupOrder != [] then PlaceGroups(d, assemble, d.groupOrder, y, heading)
    else assemble(Keys(d.info), y, heading)
  }

  /** `assemble_mouse_canvases_into_layout` over the real subject canvases. */
  function Assembly(sp: Spacing, lab: Labelling, canvases: Canvases): Assembler
  {
    (mice, y, h) => AssembleRun(sp, lab, canvases, mice, y, h)
  }

  /** The layout of the real subject canvases. */
  function MasterLayout(d: Document, canvases: Canvases, heading: int): Result<Run>
  {
    Layout(d, Assembly(d.sp, d.lab, canvases), heading)
  }

  /** The layout is the title lines followed by the subjects placed under them. */
  lemma LayoutOfSubjects(d: Document, canvases: Canvases, heading: int, y: int, sub: Result<Run>)
    requires y == TitleLines(d)[1].Bottom() + d.sp.rowMargin
    requires sub == Subjects(d, Assembly(d.sp, d.lab, canvases), y, heading)
    ensures MasterLayout(d, canvases, heading) == Then(TitleLines(d), None, sub)
  {
  }

  /** With a group order, exactly the listed groups' subjects appear, group
      by group; without one, every subject of the table, in table order. */
  lemma LayoutMice(d: Document, assemble: Assembler, heading: int)
    requires Faithful(assemble) && Layout(d, assemble, heading).Ok?
    ensures MiceOf(Layout(d, assemble, heading).value.elements)
            == if d.groupOrder != [] then GroupedMice(d.info, d.groupOrder) else Keys(d.info)
  {
    var lines := TitleLines(d);
    var y := lines[1].Bottom() + d.sp.rowMargin;
    assert MiceOf(lines) == [] by {
      assert lines[1..][1..] == [];
      assert MiceOf(lines[1..][1..]) == [];
      assert MiceOf(lines[1..]) == [];
    }
    if d.groupOrder != [] {
      GroupsPlaced(d, assemble, d.groupOrder, y, heading);
      MiceOfThen(lines, None, PlaceGroups(d, assemble, d.groupOrder, y, heading));
    } else {
      MiceOfThen(lines, None, assemble(Keys(d.info), y, heading));
    }
  }

  /** The same for the real subject canvases; the subjects of groups
      missing from the group order are left out. */
  lemma MasterLayoutMice(d: Document, canvases: Canvases, heading: int, m: string)
    requires MasterLayout(d, canvases, heading).Ok?
    ensures var mice := MiceOf(MasterLayout(d, canvases, heading).value.elements);
      && mice == (if d.groupOrder != [] then GroupedMice(d.info, d.groupOrder) else Keys(d.info))
      && (m in mice && d.groupOrder != [] ==> exists k :: 0 <= k < |d.groupOrder| && InGroup(d.info, m, d.groupOrder[k]))
  {
    AssembleRunFaithful(d.sp, d.lab, canvases);
    LayoutMice(d, Assembly(d.sp, d.lab, canvases), heading);
    if m in GroupedMice(d.info, d.groupOrder) && d.groupOrder != [] {
      GroupedOnlyListed(d.info, d.groupOrder, m);
    }
  }

  // ---------------------------------------------------------------------------
  // Extent
  // ---------------------------------------------------------------------------

  /** The running maximum of the right edges, from `m`. */
  function MaxRight(es: seq<LayoutElement>, m: int): int
  {
    if es == [] then m else MaxRight(es[1..], Max(m, es[0].Right()))
  }

  /** The running maximum of the bottom edges, from `m`. */
  function MaxBottom(es: seq<LayoutElement>, m: int): int
  {
    if es == [] then m else MaxBottom(es[1..], Max(m, es[0].Bottom()))
  }

  /** The running maximum is at least `m` and every right edge, and it is
      `m` or one of the edges. */
  lemma {:induction false} MaxRightSpec(es: seq<LayoutElement>, m: int)
    ensures var r := MaxRight(es, m);
      && r >= m && (forall k :: 0 <= k < |es| ==> es[k].Right() <= r)
      && (r == m || exists k :: 0 <= k < |es| && r == es[k].Right())
  {
    if es != [] {
      MaxRightSpec(es[1..], Max(m, es[0].Right()));
      assert forall k :: 0 < k < |es| ==> es[k] == es[1..][k - 1];
    }
  }

  /** The same for the bottom edges. */
  lemma {:induction false} MaxBottomSpec(es: seq<LayoutElement>, m: int)
    ensures var r := MaxBottom(es, m);
      && r >= m && (forall k :: 0 <= k < |es| ==> es[k].Bottom() <= r)
      && (r == m || exists k :: 0 <= k < |es| && r == es[k].Bottom())
  {
    if es != [] {
      MaxBottomSpec(es[1..], Max(m, es[0].Bottom()));
      assert forall k :: 0 < k < |es| ==> es[k] == es[1..][k - 1];
    }
  }

  /** The master canvas: the furthest right and bottom edges (at least the
      outer margin) plus the outer margin. */
  function Extent(es: seq<LayoutElement>, outer: int): (int, int)
  {
    (MaxRight(es, outer) + outer, MaxBottom(es, outer) + outer)
  }

  /** Every element lies inside the canvas with the outer margin to its
      right and below it. */
  lemma ExtentBounds(es: seq<LayoutElement>, outer: int)
    ensures var r := Extent(es, outer);
      && r.0 >= 2 * outer && r.1 >= 2 * outer
      && forall k :: 0 <= k < |es| ==> es[k].Right() + outer <= r.0 && es[k].Bottom() + outer <= r.1
  {
    MaxRightSpec(es, outer);
    MaxBottomSpec(es, outer);
  }

  lemma ExtentStep(es: seq<LayoutElement>, i: nat, right: int, bottom: int, right': int, bottom': int)
    requires i < |es|
    requires right' == Max(right, es[i].Right()) && bottom' == Max(bottom, es[i].Bottom())
    ensures MaxRight(es[i..], right) == MaxRight(es[i + 1..], right')
    ensures MaxBottom(es[i..], bottom) == MaxBottom(es[i + 1..], bottom')
  {
    assert es[i..][0] == es[i] && es[i..][1..] == es[i + 1..];
  }

  /** For every element, the canvas leaves at least the outer margin to its
      right and below it, and one element (or the margin) reaches exactly that
      margin. */
  lemma ExtentTight(es: seq<LayoutElement>, outer: int)
    ensures var r := Extent(es, outer);
      && (r.0 == 2 * outer || exists k :: 0 <= k < |es| && r.0 == es[k].Right() + outer)
      && (r.1 == 2 * outer || exists k :: 0 <= k < |es| && r.1 == es[k].Bottom() + outer)
  {
    MaxRightSpec(es, outer);
    MaxBottomSpec(es, outer);
  }

  // ---------------------------------------------------------------------------
  // The layout as the program builds it
  // ---------------------------------------------------------------------------

  /** `acc` placed before the labels `r` makes. */
  function Prefixed(acc: seq<LayoutElement>, r: Result<seq<LayoutElement>>): Result<seq<LayoutElement>>
  {
    match r
    case Err(e) => Err(e)
    case Ok(ls) => Ok(acc + ls)
  }

  /** One label of the loop of `insert_image_modality_text`. */
  lemma LabelsStep(lab: Labelling, types: seq<ImageType>, x: int, top: int, acc: seq<LayoutElement>)
    requires types != [] && SlotHeight(lab, types[0]).Some?
    ensures var h := SlotHeight(lab, types[0]).value;
      var e := FromText(types[0].customName, lab.font, x, top + (h - lab.font(types[0].customName).y1) / 2);
      Prefixed(acc, Labels(lab, types, x, top)) == Prefixed(acc + [e], Labels(lab, types[1..], x, top + h))
  {
    var h := SlotHeight(lab, types[0]).value;
    var e := FromText(types[0].customName, lab.font, x, top + (h - lab.font(types[0].customName).y1) / 2);
    var rest := Labels(lab, types[1..], x, top + h);
    if rest.Ok? {
      assert acc + ([e] + rest.value) == acc + [e] + rest.value;
    }
  }

  /** One canvas of the loop of `assemble_mouse_canvases_into_layout`. */
  lemma PlaceStep(sp: Spacing, lab: Labelling, canvases: Canvases, firstX: int, mice: seq<string>, cur: Cursor,
                  heading: int, acc: seq<LayoutElement>, last: Option<LayoutElement>)
    requires mice != [] && RowLabels(sp, lab, cur, heading).Ok? && canvases(mice[0]).Ok?
    ensures var c := canvases(mice[0]).value;
      var e := FromImage(mice[0], c.width, c.height, cur.x, cur.y);
      Then(acc, last, PlaceMice(sp, lab, canvases, firstX, mice, cur, heading))
      == Then(acc + RowLabels(sp, lab, cur, heading).value + [e], Some(e),
              PlaceMice(sp, lab, canvases, firstX, mice[1..], Advance(sp, firstX, cur, e), c.heading))
  {
    var c := canvases(mice[0]).value;
    var e := FromImage(mice[0], c.width, c.height, cur.x, cur.y);
    var ls := RowLabels(sp, lab, cur, heading).value;
    ThenThen(acc, last, ls + [e], e, PlaceMice(sp, lab, canvases, firstX, mice[1..], Advance(sp, firstX, cur, e), c.heading));
    assert acc + (ls + [e]) == acc + ls + [e];
  }

  /** One group of the group loop. */
  lemma GroupLoopStep(d: Document, assemble: Assembler, groups: seq<string>, y: int, heading: int,
                      acc: seq<LayoutElement>, last: Option<LayoutElement>, run: Run, acc': seq<LayoutElement>, y': int)
    requires groups != []
    requires assemble(GroupMice(d.info, groups[0]),
                      y + MeasureText(d.groupFont, groups[0]).height + TruncHalf(d.sp.rowMargin), heading) == Ok(run)
    requires run.last.Some? && y' == run.last.value.Bottom() + 2 * d.sp.rowMargin
    requires acc' == acc + [FromText(groups[0], d.groupFont, d.sp.outer, y)] + run.elements
    ensures Then(acc, last, PlaceGroups(d, assemble, groups, y, heading))
         == Then(acc', run.last, PlaceGroups(d, assemble, groups[1..], y', run.heading))
  {
    var header := FromText(groups[0], d.groupFont, d.sp.outer, y);
    ThenThen(acc, last, [header] + run.elements, run.last.value,
             PlaceGroups(d, assemble, groups[1..], y', run.heading));
    assert acc + ([header] + run.elements) == acc';
  }

  /** A group whose subjects fail, or which has none, ends the layout with
      that error. */
  lemma GroupLoopFails(d: Document, assemble: Assembler, groups: seq<string>, y: int, heading: int,
                       acc: seq<LayoutElement>, last: Option<LayoutElement>)
    requires groups != []
    requires var top := y + MeasureText(d.groupFont, groups[0]).height + TruncHalf(d.sp.rowMargin);
      var run := assemble(GroupMice(d.info, groups[0]), top, heading);
      run.Err? || run.value.last.None?
    ensures var top := y + MeasureText(d.groupFont, groups[0]).height + TruncHalf(d.sp.rowMargin);
      var run := assemble(GroupMice(d.info, groups[0]), top, heading);
      Then(acc, last, PlaceGroups(d, assemble, groups, y, heading))
      == Err(if run.Err? then run.error else UnboundLocalError("mouse_element"))
  {
  }

  lemma ThenNothing(r: Result<Run>)
    ensures r == Then([], None, r)
  {
    if r.Ok? {
      assert [] + r.value.elements == r.value.elements;
    }
  }

  lemma ThenEnd(acc: seq<LayoutElement>, last: Option<LayoutElement>, heading: int)
    ensures Then(acc, last, Ok(Run([], None, heading))) == Ok(Run(acc, last, heading))
  {
    assert acc + [] == acc;
  }

  /** The master canvas under construction: the placed elements, the heading
      height the last subject canvas left, and the final size. */
  class MasterCanvas {
    var elements: seq<LayoutElement>
    var totalHeadingHeight: int
    var width: int
    var height: int

    /** Starts from the heading height of the example subject. */
    constructor (heading: int)
      ensures elements == [] && totalHeadingHeight == heading && width == 0 && height == 0
    {
      elements := [];
      totalHeadingHeight := heading;
      width := 0;
      height := 0;
    }

    /** `insert_image_modality_text(y_offset)`: appends one label per type. */
    method InsertModalityText(lab: Labelling, x: int, yOffset: int) returns (failure: Option<Error>)
      modifies this
      ensures var p := Labels(lab, lab.types, x, yOffset + old(totalHeadingHeight));
        && (p.Err? ==> failure == Some(p.error))
        && (p.Ok? ==> failure.None? && elements == old(elements) + p.value)
      ensures totalHeadingHeight == old(totalHeadingHeight)
    {
      ghost var start := elements;
      var top := yOffset + totalHeadingHeight;
      var i := 0;
      assert lab.types[i..] == lab.types;
      while i < |lab.types|
        invariant 0 <= i <= |lab.types| && totalHeadingHeight == old(totalHeadingHeight)
        invariant Prefixed(start, Labels(lab, lab.types, x, yOffset + old(totalHeadingHeight)))
                  == Prefixed(elements, Labels(lab, lab.types[i..], x, top))
      {
        var ty := lab.types[i];
        assert lab.types[i..][0] == ty && lab.types[i..][1..] == lab.types[i + 1..];
        var h := SlotHeight(lab, ty);
        if h.None? {
          return Some(ValueError("Invalid image_modality"));
        }
        LabelsStep(lab, lab.types[i..], x, top, elements);
        var e := FromText(ty.customName, lab.font, x, top + (h.value - lab.font(ty.customName).y1) / 2);
        elements := elements + [e];
        top := top + h.value;
        i := i + 1;
      }
      assert lab.types[i..] == [] && elements + [] == elements;
      return None;
    }

    /** One pass of the loop of `assemble_mouse_canvases_into_layout`: the
        labels when a row starts, the subject's canvas at the cursor, and
        the cursor for the next subject. */
    method PlaceNext(sp: Spacing, lab: Labelling, canvases: Canvases, firstX: int, mouse: string, cur: Cursor)
      returns (failure: Option<Error>, e: LayoutElement, next: Cursor)
      modifies this
      ensures var ls := RowLabels(sp, lab, cur, old(totalHeadingHeight));
        && (ls.Err? ==> failure == Some(ls.error))
        && (ls.Ok? && canvases(mouse).Err? ==> failure == Some(canvases(mouse).error))
        && (ls.Ok? && canvases(mouse).Ok? ==>
              && failure.None?
              && e == FromImage(mouse, canvases(mouse).value.width, canvases(mouse).value.height, cur.x, cur.y)
              && next == Advance(sp, firstX, cur, e)
              && elements == old(elements) + ls.value + [e]
              && totalHeadingHeight == canvases(mouse).value.heading)
    {
      e, next := FromImage(mouse, 0, 0, cur.x, cur.y), cur;
      if cur.col == 0 {
        failure := InsertModalityText(lab, sp.outer, cur.y);
        if failure.Some? {
          return;
        }
      } else {
        assert elements == old(elements) + [];
      }
      var c := canvases(mouse);
      if c.Err? {
        return Some(c.error), e, next;
      }
      totalHeadingHeight := c.value.heading;
      e := FromImage(mouse, c.value.width, c.value.height, cur.x, cur.y);
      elements := elements + [e];
      var col, xOffset, yOffset := cur.col + 1, e.Right() + sp.columnMargin, cur.y;
      if col == sp.columns {
        col, xOffset, yOffset := 0, firstX, e.Bottom() + sp.rowMargin;
      }
      next := Cursor(col, xOffset, yOffset);
      failure := None;
    }

    /** The loop of `assemble_mouse_canvases_into_layout`. */
    method PlaceAll(sp: Spacing, lab: Labelling, canvases: Canvases, firstX: int, mice: seq<string>, y: int)
      returns (failure: Option<Error>, last: Option<LayoutElement>)
      modifies this
      ensures var p := PlaceMice(sp, lab, canvases, firstX, mice, Cursor(0, firstX, y), old(totalHeadingHeight));
        && (p.Err? ==> failure == Some(p.error))
        && (p.Ok? ==> failure.None? && last == p.value.last && elements == old(elements) + p.value.elements
                      && totalHeadingHeight == p.value.heading)
    {
      ghost var start := elements;
      ghost var whole := PlaceMice(sp, lab, canvases, firstX, mice, Cursor(0, firstX, y), old(totalHeadingHeight));
      var cur := Cursor(0, firstX, y);
      last := None;
      var i := 0;
      assert mice[i..] == mice && elements[|start|..] == [];
      assert whole.Ok? ==> [] + whole.value.elements == whole.value.elements;
      while i < |mice|
        invariant 0 <= i <= |mice|
        invariant |elements| >= |start| && elements == start + elements[|start|..]
        invariant whole == Then(elements[|start|..], last,
                                PlaceMice(sp, lab, canvases, firstX, mice[i..], cur, totalHeadingHeight))
      {
        ghost var acc := elements[|start|..];
        ghost var heading := totalHeadingHeight;
        assert mice[i..][0] == mice[i] && mice[i..][1..] == mice[i + 1..];
        var e, next;
        failure, e, next := PlaceNext(sp, lab, canvases, firstX, mice[i], cur);
        if failure.Some? {
          return;
        }
        PlaceStep(sp, lab, canvases, firstX, mice[i..], cur, heading, acc, last);
        assert elements[|start|..] == acc + RowLabels(sp, lab, cur, heading).value + [e];
        cur, last, i := next, Some(e), i + 1;
      }
      assert mice[i..] == [] && elements[|start|..] + [] == elements[|start|..];
      failure := None;
    }

    /** `assemble_mouse_canvases_into_layout(mouse_list, y_offset)`: appends
        the labels and canvases and returns the bottom of the last canvas. */
    method AssembleIntoLayout(sp: Spacing, lab: Labelling, canvases: Canvases, mice: seq<string>, y: int)
      returns (r: Result<int>)
      modifies this
      ensures var p := AssembleRun(sp, lab, canvases, mice, y, old(totalHeadingHeight));
        && (p.Err? ==> r == Err(p.error))
        && (p.Ok? ==> r == Ok(p.value.last.value.Bottom()) && elements == old(elements) + p.value.elements
                      && totalHeadingHeight == p.value.heading)
    {
      var firstX := ColumnOneXOffset(lab, sp.outer);
      var failure, last := PlaceAll(sp, lab, canvases, firstX, mice, y);
      if failure.Some? {
        return Err(failure.value);
      }
      if last.None? {
        return Err(UnboundLocalError("mouse_element"));
      }
      return Ok(last.value.Bottom());
    }

    /** One group of the group loop: its header at the left margin, then
        its subjects as `assemble` lays them out half a row margin under
        the header. */
    method PlaceGroup(d: Document, assemble: Assembler, group: string, yOffset: int) returns (run: Result<Run>)
      modifies this
      ensures run == assemble(GroupMice(d.info, group),
                              yOffset + MeasureText(d.groupFont, group).height + TruncHalf(d.sp.rowMargin),
                              old(totalHeadingHeight))
      ensures var header := FromText(group, d.groupFont, d.sp.outer, yOffset);
        && (run.Ok? ==> elements == old(elements) + [header] + run.value.elements && totalHeadingHeight == run.value.heading)
        && (run.Err? ==> elements == old(elements) + [header] && totalHeadingHeight == old(totalHeadingHeight))
    {
      var header := FromText(group, d.groupFont, d.sp.outer, yOffset);
      elements := elements + [header];
      var top := yOffset + MeasureText(d.groupFont, group).height + TruncHalf(d.sp.rowMargin);
      var mice := CollectGroup(d.info, group);
      run := assemble(mice, top, totalHeadingHeight);
      if run.Ok? {
        elements := elements + run.value.elements;
        totalHeadingHeight := run.value.heading;
      }
    }

    /** The group loop of `create_master_canvas`: each group's header, then
        the group's subjects as `assemble` lays them out, then the next
        group two row margins under the last canvas. */
    method PlaceGroupsLoop(d: Document, assemble: Assembler, y: int) returns (failure: Option<Error>)
      modifies this
      ensures var p := PlaceGroups(d, assemble, d.groupOrder, y, old(totalHeadingHeight));
        && (p.Err? ==> failure == Some(p.error))
        && (p.Ok? ==> failure.None? && elements == old(elements) + p.value.elements
                      && totalHeadingHeight == p.value.heading)
    {
      ghost var start := elements;
      ghost var whole := PlaceGroups(d, assemble, d.groupOrder, y, old(totalHeadingHeight));
      ghost var last: Option<LayoutElement> := None;
      ghost var acc: seq<LayoutElement> := [];
      var groups := d.groupOrder;
      var yOffset := y;
      var j := 0;
      ThenNothing(whole);
      assert groups[j..] == groups;
      while j < |groups|
        invariant 0 <= j <= |groups| && elements == start + acc
        invariant whole == Then(acc, last, PlaceGroups(d, assemble, groups[j..], yOffset, totalHeadingHeight))
      {
        ghost var rest := groups[j..];
        assert rest[0] == groups[j] && rest[1..] == groups[j + 1..];
        ghost var heading := totalHeadingHeight;
        var run := PlaceGroup(d, assemble, groups[j], yOffset);
        if run.Err? || run.value.last.None? {
          GroupLoopFails(d, assemble, rest, yOffset, heading, acc, last);
          return Some(if run.Err? then run.error else UnboundLocalError("mouse_element"));
        }
        ghost var acc' := acc + [FromText(groups[j], d.groupFont, d.sp.outer, yOffset)] + run.value.elements;
        var next := run.value.last.value.Bottom() + 2 * d.sp.rowMargin;
        GroupLoopStep(d, assemble, rest, yOffset, heading, acc, last, run.value, acc', next);
        acc := acc';
        yOffset, last, j := next, run.value.last, j + 1;
      }
      assert groups[j..] == [];
      ThenEnd(acc, last, totalHeadingHeight);
      return None;
    }

    /** The extent loop: the furthest right and bottom edges, from the
        outer margin, plus the outer margin. */
    method FindExtent(outer: int)
      modifies this
      ensures elements == old(elements) && totalHeadingHeight == old(totalHeadingHeight)
      ensures (width, height) == Extent(elements, outer)
    {
      var es := elements;
      var right, bottom := outer, outer;
      var i := 0;
      assert es[i..] == es;
      while i < |es|
        invariant 0 <= i <= |es|
        invariant elements == es && totalHeadingHeight == old(totalHeadingHeight)
        invariant MaxRight(es, outer) == MaxRight(es[i..], right)
        invariant MaxBottom(es, outer) == MaxBottom(es[i..], bottom)
      {
        var e := es[i];
        ghost var right0, bottom0 := right, bottom;
        if e.Right() > right {
          right := e.Right();
        }
        if e.Bottom() > bottom {
          bottom := e.Bottom();
        }
        ExtentStep(es, i, right0, bottom0, right, bottom);
        i := i + 1;
      }
      assert es[i..] == [];
      width, height := right + outer, bottom + outer;
    }

    /** What follows the title lines: the groups, or every subject. */
    method PlaceSubjects(d: Document, canvases: Canvases, y: int) returns (failure: Option<Error>)
      modifies this
      ensures var p := Subjects(d, Assembly(d.sp, d.lab, canvases), y, old(totalHeadingHeight));
        && (p.Err? ==> failure == Some(p.error))
        && (p.Ok? ==> failure.None? && elements == old(elements) + p.value.elements)
    {
      if d.groupOrder != [] {
        failure := PlaceGroupsLoop(d, Assembly(d.sp, d.lab, canvases), y);
      } else {
        var bottom := AssembleIntoLayout(d.sp, d.lab, canvases, Keys(d.info), y);
        failure := if bottom.Err? then Some(bottom.error) else None;
      }
    }

    /** `create_master_canvas`: the title lines, the subjects group by group
        (or all of them), then the size of the canvas that holds them all. */
    method CreateMasterCanvas(d: Document, canvases: Canvases) returns (failure: Option<Error>)
      modifies this
      ensures var p := MasterLayout(d, canvases, old(totalHeadingHeight));
        && (p.Err? ==> failure == Some(p.error))
        && (p.Ok? ==> failure.None? && elements == p.value.elements && (width, height) == Extent(elements, d.sp.outer))
    {
      ghost var heading := totalHeadingHeight;
      var title := FromText(d.title, d.titleFont, d.sp.outer, d.sp.outer);
      var subtitle := FromText(d.subtitle, d.subtitleFont, d.sp.outer, title.Bottom() + title.height / 5);
      elements := [title, subtitle];
      assert elements == TitleLines(d);
      var y := subtitle.Bottom() + d.sp.rowMargin;
      ghost var sub := Subjects(d, Assembly(d.sp, d.lab, canvases), y, heading);
      LayoutOfSubjects(d, canvases, heading, y, sub);
      failure := PlaceSubjects(d, canvases, y);
      if failure.Some? {
        return;
      }
      FindExtent(d.sp.outer);
    }
  }
}
