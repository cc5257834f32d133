/** One subject's canvas (`assemble_mouse_image_grid`): its size from the
    requested slots, the heading above the images, and the two eye columns,
    OD on the left and OS on the right, each filled top to bottom in the
    order the image types were requested. Pasting an image is recorded as a
    placed rectangle. */
module SubjectCanvas {
  import opened Wrappers
  import opened Geometry
  import opened ImageTypes
  import opened OctCrop
  import opened Buckets
  import opened Slots

  /** What the canvas code reads from the settings and from the example images. */
  datatype Setup = Setup(
    imageWidth: nat,      // the common width every image is resized to
    cslo: Size,           // the cSLO slot size
    oct: Size,            // the OCT slot size
    octTarget: nat,       // the OCT crop height setting
    cropCsloText: bool,
    cropOct: bool,
    mode: string,         // "full", "preview_layout", "preview_layout_and_images"
    headingFont: Font,
    subheadingFont: Font,
    useNumber: bool,      // show the cSLO number as the heading
    useLabId: bool)       // show the lab id as the heading

  /** What opening an image file yields: its size and, for the retina
      search, its row-brightness profile and brightness statistic. */
  datatype Picture = Picture(size: Size, profile: seq<int>, statistic: int)

  type Opener = string -> Picture

  // ---------------------------------------------------------------------------
  // Canvas size
  // ---------------------------------------------------------------------------

  /** The number of requested types taken by one imager. */
  function CountImager(types: seq<ImageType>, imager: string): (n: nat)
    ensures n <= |types|
  {
    if types == [] then 0
    else (if types[0].imager == imager then 1 else 0) + CountImager(types[1..], imager)
  }

  /** The count is 0 exactly when no requested type is of that imager. */
  lemma {:induction false} CountImagerNone(types: seq<ImageType>, imager: string)
    ensures CountImager(types, imager) == 0 <==> forall k :: 0 <= k < |types| ==> types[k].imager != imager
  {
    if types != [] {
      CountImagerNone(types[1..], imager);
      assert forall k :: 0 < k < |types| ==> types[k] == types[1..][k - 1];
    }
  }

  lemma {:induction false} CountImagerAppend(types: seq<ImageType>, ty: ImageType, imager: string)
    ensures CountImager(types + [ty], imager) == CountImager(types, imager) + (if ty.imager == imager then 1 else 0)
  {
    if types != [] {
      assert (types + [ty])[1..] == types[1..] + [ty];
      CountImagerAppend(types[1..], ty, imager);
    }
  }

  /** A type is counted for at most one of the two imagers. */
  lemma {:induction false} CountImagersAtMost(types: seq<ImageType>)
    ensures CountImager(types, "cslo") + CountImager(types, "oct") <= |types|
  {
    if types != [] {
      CountImagersAtMost(types[1..]);
    }
  }

  /** The counting loop of `create_single_mouse_canvas`. */
  method CountImagers(types: seq<ImageType>) returns (csloCount: nat, octCount: nat)
    ensures csloCount == CountImager(types, "cslo") && octCount == CountImager(types, "oct")
  {
    csloCount, octCount := 0, 0;
    var i := 0;
    while i < |types|
      invariant 0 <= i <= |types|
      invariant csloCount == CountImager(types[..i], "cslo") && octCount == CountImager(types[..i], "oct")
    {
      CountImagerAppend(types[..i], types[i], "cslo");
      CountImagerAppend(types[..i], types[i], "oct");
      assert types[..i + 1] == types[..i] + [types[i]];
      if types[i].imager == "cslo" {
        csloCount := csloCount + 1;
      } else if types[i].imager == "oct" {
        octCount := octCount + 1;
      }
      i := i + 1;
    }
    assert types[..|types|] == types;
  }

  /** The image area: both eyes side by side, one row per requested type
      with that imager's slot height. */
  function ImagesOnly(s: Setup, types: seq<ImageType>): Size
  {
    Size(2 * s.imageWidth, s.cslo.height * CountImager(types, "cslo") + s.oct.height * CountImager(types, "oct"))
  }

  // ---------------------------------------------------------------------------
  // Heading
  // ---------------------------------------------------------------------------

  const GapBeforeId: int := 10
  const GapAfterId: int := 15
  const GapAfterEyes: int := 25

  /** Where the heading texts go and how tall the heading is. */
  datatype Heading = Heading(
    idText: string, idX: int, idY: int,
    extra: Option<(string, int, int)>,
    odX: int, osX: int, eyeY: int,
    total: int)

  /** The heading text: the cSLO number, else the lab id, else nothing. */
  function IdText(s: Setup, mouseId: string, labId: string): string
  {
    if s.useNumber then mouseId else if s.useLabId then labId else ""
  }

  /** The heading of a canvas `canvasWidth` wide. */
  function MakeHeading(s: Setup, canvasWidth: int, mouseId: string, labId: string): (h: Heading)
    ensures var tall := MeasureText(s.headingFont, "Hpqy").height;
      var eyes := MeasureText(s.subheadingFont, "OD").height;
      var lab := MeasureText(s.subheadingFont, "(" + labId + ")").baseline;
      && (!(s.useNumber && s.useLabId) ==> h.extra.None? && h.total == 10 + tall + 15 + eyes + 25)
      && (s.useNumber && s.useLabId ==> h.extra.Some? && h.total == 10 + tall + 15 + lab + tall + 15 + eyes + 25)
    ensures h.osX == h.odX + s.imageWidth
  {
    var tall := MeasureText(s.headingFont, "Hpqy");
    var id := MeasureText(s.headingFont, IdText(s, mouseId, labId));
    var idX := (canvasWidth - id.width) / 2;
    var idY := GapBeforeId + id.baseline;
    var idBottom := GapBeforeId + tall.height;
    var extraText := "(" + labId + ")";
    var extraMetrics := MeasureText(s.subheadingFont, extraText);
    var extraY := idBottom + GapAfterId + extraMetrics.baseline;
    var extra := if s.useNumber && s.useLabId
      then Some((extraText, (canvasWidth - extraMetrics.width) / 2, extraY))
      else None;
    var bottom := if s.useNumber && s.useLabId then extraY + tall.height else idBottom;
    var od := MeasureText(s.subheadingFont, "OD");
    var odX := (s.imageWidth - od.width) / 2;
    var eyeY := bottom + GapAfterId;
    Heading(IdText(s, mouseId, labId), idX, idY, extra, odX, odX + s.imageWidth, eyeY, eyeY + od.height + GapAfterEyes)
  }

  /** Unless both ids are shown, every subject gets the same heading height. */
  lemma HeadingSameForEveryMouse(s: Setup, w: int, m1: string, l1: string, m2: string, l2: string)
    requires !(s.useNumber && s.useLabId)
    ensures MakeHeading(s, w, m1, l1).total == MakeHeading(s, w, m2, l2).total
  {
  }

  // ---------------------------------------------------------------------------
  // One slot
  // ---------------------------------------------------------------------------

  /** Resizing to the common width: `int(new_width * h / w)` rows (the
      floating-point product is taken as exact), and a `ZeroDivisionError`
      for an image 0 pixels wide. */
  function Resize(width: nat, img: Size): (r: Result<Size>)
    ensures r.Err? <==> img.width != width && img.width == 0
    ensures img.width == width ==> r == Ok(img)
    ensures r.Ok? ==> r.value.width == width
    ensures r.Ok? && img.width != width ==>
      r.value.height * img.width <= width * img.height < (r.value.height + 1) * img.width
  {
    if img.width == width then Ok(img)
    else if img.width == 0 then Err(ZeroDivisionError)
    else Ok(Size(width, (width * img.height) / img.width))
  }

  /** A chosen path counts only when it is truthy, i.e. not empty. */
  function Truthy(chosen: Option<string>): Option<string>
  {
    if chosen.Some? && chosen.value != "" then chosen else None
  }

  /** The image of a slot before resizing: the opened file, cropped when the
      crop setting for its imager is on, or a black placeholder of the
      imager's slot size. */
  function SlotPicture(s: Setup, imager: string, chosen: Option<string>, open: Opener): (r: Result<Size>)
    ensures Truthy(chosen).None? ==> (r.Ok? <==> imager == "cslo" || imager == "oct")
    ensures Truthy(chosen).None? && imager == "cslo" ==> r == Ok(s.cslo)
    ensures Truthy(chosen).None? && imager == "oct" ==> r == Ok(s.oct)
    ensures Truthy(chosen).Some? && imager == "oct" && s.cropOct ==>
      r == Ok(Size(open(chosen.value).size.width, s.octTarget))
  {
    match Truthy(chosen)
    case Some(path) =>
      var pic := open(path);
      if imager == "cslo" && s.cropCsloText then Ok(CropCslo(pic.size))
      else if imager == "oct" && s.cropOct then
        var c := CropOct(pic.size, s.octTarget, RetinaBounds(pic.profile, pic.statistic));
        CropOctHeight(pic.size, s.octTarget, RetinaBounds(pic.profile, pic.statistic));
        Ok(Cropped(pic.size, s.octTarget, c))
      else Ok(pic.size)
    case None =>
      if imager == "cslo" then Ok(s.cslo)
      else if imager == "oct" then Ok(s.oct)
      else Err(UnboundLocalError("w"))
  }

  /** A filled slot: the file used (none for a placeholder) and the size it is pasted at. */
  datatype Slot = Slot(path: Option<string>, size: Size)

  /** The picker's dialog title. */
  function Title(mouseId: string, eye: string, ty: ImageType): string
  {
    mouseId + " " + eye + " - " + ty.typeName
  }

  /** One slot of one eye: look up the imager's list (`KeyError` for an
      imager other than cslo and oct), resolve the slot, open or make the
      image and resize it. */
  function SlotOutcome(s: Setup, l: ImagerLists, ty: ImageType, mouseId: string, eye: string,
                       choose: Chooser, open: Opener): (r: Result<Slot>)
    ensures r.Ok? ==> r.value.size.width == s.imageWidth
    ensures PathsOf(l, ty.imager).None? ==> r == Err(KeyError(ty.imager))
  {
    match PathsOf(l, ty.imager)
    case None => Err(KeyError(ty.imager))
    case Some(available) =>
      match SlotChoice(available, ty, s.mode, choose, Title(mouseId, eye, ty))
      case Err(e) => Err(e)
      case Ok(chosen) =>
        match SlotPicture(s, ty.imager, chosen, open)
        case Err(e) => Err(e)
        case Ok(img) =>
          match Resize(s.imageWidth, img)
          case Err(e) => Err(e)
          case Ok(size) => Ok(Slot(Truthy(chosen), size))
  }

  /** `SlotOutcome` step by step, as the slot loop computes it. */
  lemma SlotOutcomeSteps(s: Setup, l: ImagerLists, ty: ImageType, mouseId: string, eye: string,
                         choose: Chooser, open: Opener, available: seq<string>)
    requires PathsOf(l, ty.imager) == Some(available)
    ensures var r := SlotOutcome(s, l, ty, mouseId, eye, choose, open);
      var c := SlotChoice(available, ty, s.mode, choose, Title(mouseId, eye, ty));
      && (c.Err? ==> r == Err(c.error))
      && (c.Ok? && SlotPicture(s, ty.imager, c.value, open).Err? ==> r == Err(SlotPicture(s, ty.imager, c.value, open).error))
      && (c.Ok? && SlotPicture(s, ty.imager, c.value, open).Ok? ==>
            var z := Resize(s.imageWidth, SlotPicture(s, ty.imager, c.value, open).value);
            && (z.Err? ==> r == Err(z.error))
            && (z.Ok? ==> r == Ok(Slot(Truthy(c.value), z.value))))
  {
  }

  /** The slots of one eye. */
  function EyeOutcome(s: Setup, l: ImagerLists, mouseId: string, eye: string, choose: Chooser, open: Opener)
    : ImageType -> Result<Slot>
  {
    ty => SlotOutcome(s, l, ty, mouseId, eye, choose, open)
  }

  // ---------------------------------------------------------------------------
  // One eye column
  // ---------------------------------------------------------------------------

  /** A pasted image: its top-left corner, its size and its file. */
  datatype Placed = Placed(x: int, y: int, size: Size, path: Option<string>)

  /** The images of one eye pasted from row `y` down, each directly under
      the one before; the first failing slot stops the canvas. */
  function Column(outcome: ImageType -> Result<Slot>, types: seq<ImageType>, x: int, y: int)
    : (r: Result<seq<Placed>>)
    ensures r.Ok? ==> |r.value| == |types|
  {
    if types == [] then Ok([])
    else
      match outcome(types[0])
      case Err(e) => Err(e)
      case Ok(slot) =>
        match Column(outcome, types[1..], x, y + slot.size.height)
        case Err(e) => Err(e)
        case Ok(rest) => Ok([Placed(x, y, slot.size, slot.path)] + rest)
  }

  /** The total height of a column's images. */
  function Heights(placed: seq<Placed>): int
  {
    if placed == [] then 0 else placed[0].size.height + Heights(placed[1..])
  }

  /** The images of a column share its x, start at its top and each begins
      where the one above ends; together they end `Heights` below the top. */
  lemma {:induction false} ColumnStacks(outcome: ImageType -> Result<Slot>, types: seq<ImageType>, x: int, y: int)
    requires Column(outcome, types, x, y).Ok?
    ensures var p := Column(outcome, types, x, y).value;
      && (forall k :: 0 <= k < |p| ==> p[k].x == x)
      && (p != [] ==> p[0].y == y)
      && (forall k :: 0 <= k < |p| - 1 ==> p[k + 1].y == p[k].y + p[k].size.height)
      && (p != [] ==> p[|p| - 1].y + p[|p| - 1].size.height == y + Heights(p))
  {
    if types != [] {
      var slot := outcome(types[0]).value;
      ColumnStacks(outcome, types[1..], x, y + slot.size.height);
      var p := Column(outcome, types, x, y).value;
      var rest := Column(outcome, types[1..], x, y + slot.size.height).value;
      assert p == [Placed(x, y, slot.size, slot.path)] + rest;
      assert p[1..] == rest;
    }
  }

  /** Each image is the slot its type produced. */
  lemma {:induction false} ColumnSlots(outcome: ImageType -> Result<Slot>, types: seq<ImageType>, x: int, y: int)
    requires Column(outcome, types, x, y).Ok?
    ensures var p := Column(outcome, types, x, y).value;
      forall k :: 0 <= k < |p| ==> outcome(types[k]) == Ok(Slot(p[k].path, p[k].size))
  {
    if types != [] {
      var slot := outcome(types[0]).value;
      ColumnSlots(outcome, types[1..], x, y + slot.size.height);
      var p := Column(outcome, types, x, y).value;
      var rest := Column(outcome, types[1..], x, y + slot.size.height).value;
      assert p == [Placed(x, y, slot.size, slot.path)] + rest;
      forall k | 1 <= k < |p| ensures outcome(types[k]) == Ok(Slot(p[k].path, p[k].size)) {
        assert types[k] == types[1..][k - 1] && p[k] == rest[k - 1];
      }
    }
  }

  /** The slot heights of the requested types, top to bottom. */
  function SlotHeights(s: Setup, types: seq<ImageType>): int
  {
    if types == [] then 0
    else
      var h := if types[0].imager == "cslo" then s.cslo.height else if types[0].imager == "oct" then s.oct.height else 0;
      h + SlotHeights(s, types[1..])
  }

  /** ... which add up to the height of the image area. */
  lemma {:induction false} SlotHeightsArea(s: Setup, types: seq<ImageType>)
    ensures SlotHeights(s, types) == ImagesOnly(s, types).height
  {
    if types != [] {
      SlotHeightsArea(s, types[1..]);
      var c := CountImager(types[1..], "cslo");
      var o := CountImager(types[1..], "oct");
      assert s.cslo.height * (c + 1) == s.cslo.height * c + s.cslo.height;
      assert s.oct.height * (o + 1) == s.oct.height * o + s.oct.height;
    }
  }

  /** When every image has its slot's height, a column is exactly as tall
      as the image area of the canvas. */
  lemma {:induction false} ColumnFillsImageArea(s: Setup, outcome: ImageType -> Result<Slot>, types: seq<ImageType>, x: int, y: int)
    requires Column(outcome, types, x, y).Ok?
    requires var p := Column(outcome, types, x, y).value;
      forall k :: 0 <= k < |p| ==> p[k].size.height == SlotHeights(s, [types[k]])
    ensures Heights(Column(outcome, types, x, y).value) == ImagesOnly(s, types).height
  {
    ColumnSlotHeights(s, outcome, types, x, y);
    SlotHeightsArea(s, types);
  }

  lemma {:induction false} ColumnSlotHeights(s: Setup, outcome: ImageType -> Result<Slot>, types: seq<ImageType>, x: int, y: int)
    requires Column(outcome, types, x, y).Ok?
    requires var p := Column(outcome, types, x, y).value;
      forall k :: 0 <= k < |p| ==> p[k].size.height == SlotHeights(s, [types[k]])
    ensures Heights(Column(outcome, types, x, y).value) == SlotHeights(s, types)
  {
    if types != [] {
      var slot := outcome(types[0]).value;
      var p := Column(outcome, types, x, y).value;
      var rest := Column(outcome, types[1..], x, y + slot.size.height).value;
      assert p == [Placed(x, y, slot.size, slot.path)] + rest;
      forall k | 0 <= k < |rest| ensures rest[k].size.height == SlotHeights(s, [types[1..][k]]) {
        assert rest[k] == p[k + 1] && types[1..][k] == types[k + 1];
      }
      ColumnSlotHeights(s, outcome, types[1..], x, y + slot.size.height);
      assert p[1..] == rest;
      assert p[0].size.height == SlotHeights(s, [types[0]]);
      assert [types[0]][1..] == [];
    }
  }

  function ThenPlaced(placed: seq<Placed>, r: Result<seq<Placed>>): Result<seq<Placed>>
  {
    match r
    case Err(e) => Err(e)
    case Ok(rest) => Ok(placed + rest)
  }

  /** One slot of the loop: look up the list, resolve, open or make and resize. */
  method FillSlot(s: Setup, l: ImagerLists, ty: ImageType, mouseId: string, eye: string,
                  choose: Chooser, open: Opener)
    returns (r: Result<Slot>)
    ensures r == SlotOutcome(s, l, ty, mouseId, eye, choose, open)
  {
    var available := PathsOf(l, ty.imager);
    if available.None? {
      return Err(KeyError(ty.imager));
    }
    SlotOutcomeSteps(s, l, ty, mouseId, eye, choose, open, available.value);
    var chosen := ResolveSlot(available.value, ty, s.mode, choose, Title(mouseId, eye, ty));
    if chosen.Err? {
      return Err(chosen.error);
    }
    var img := SlotPicture(s, ty.imager, chosen.value, open);
    if img.Err? {
      return Err(img.error);
    }
    var size := Resize(s.imageWidth, img.value);
    if size.Err? {
      return Err(size.error);
    }
    return Ok(Slot(Truthy(chosen.value), size.value));
  }

  /** One step of the slot loop. */
  lemma ColumnStep(outcome: ImageType -> Result<Slot>, types: seq<ImageType>, i: nat, x: int, y: int,
                   placed: seq<Placed>)
    requires i < |types|
    ensures outcome(types[i]).Err? ==>
      ThenPlaced(placed, Column(outcome, types[i..], x, y)) == Err(outcome(types[i]).error)
    ensures outcome(types[i]).Ok? ==>
      var slot := outcome(types[i]).value;
      ThenPlaced(placed, Column(outcome, types[i..], x, y))
        == ThenPlaced(placed + [Placed(x, y, slot.size, slot.path)], Column(outcome, types[i + 1..], x, y + slot.size.height))
  {
    assert types[i..][0] == types[i] && types[i..][1..] == types[i + 1..];
    if outcome(types[i]).Ok? {
      var slot := outcome(types[i]).value;
      var rest := Column(outcome, types[i + 1..], x, y + slot.size.height);
      if rest.Ok? {
        assert placed + ([Placed(x, y, slot.size, slot.path)] + rest.value)
            == (placed + [Placed(x, y, slot.size, slot.path)]) + rest.value;
      }
    }
  }

  /** The slot loop of one eye: fill each slot in the requested order
      (`fill` is `EyeOutcome`, whose loop body is `FillSlot`), paste it at
      the eye's cursor and move the cursor down by the pasted image's height. */
  method PlaceColumn(fill: ImageType -> Result<Slot>, types: seq<ImageType>, x: int, top: int)
    returns (r: Result<seq<Placed>>)
    ensures r == Column(fill, types, x, top)
  {
    var placed: seq<Placed> := [];
    var y := top;
    var i := 0;
    assert types[0..] == types;
    assert ThenPlaced([], Column(fill, types, x, top)) == Column(fill, types, x, top) by {
      var c := Column(fill, types, x, top);
      if c.Ok? {
        assert [] + c.value == c.value;
      }
    }
    while i < |types|
      invariant 0 <= i <= |types|
      invariant Column(fill, types, x, top) == ThenPlaced(placed, Column(fill, types[i..], x, y))
    {
      ColumnStep(fill, types, i, x, y, placed);
      var slot := fill(types[i]);
      if slot.Err? {
        return Err(slot.error);
      }
      placed := placed + [Placed(x, y, slot.value.size, slot.value.path)];
      y := y + slot.value.size.height;
      i := i + 1;
    }
    assert placed + [] == placed;
    return Ok(placed);
  }

  // ---------------------------------------------------------------------------
  // The whole canvas
  // ---------------------------------------------------------------------------

  /** What `assemble_mouse_image_grid` returns: the blank image area for the
      "return_canvas_only" subject, `""` when only the heading height was
      wanted, or the canvas with its heading and pasted images. */
  datatype Assembled =
    | BlankCanvas(size: Size)
    | HeadingOnly
    | Canvas(width: int, height: int, heading: Heading, placed: seq<Placed>)

  /** The run-mode exits, then OD's column at x = 0 and OS's at one image
      width, both starting under the heading. */
  function Assemble(s: Setup, types: seq<ImageType>, t: Table, mouseId: string, labId: string,
                    gridMode: string, choose: Chooser, open: Opener): Result<Assembled>
  {
    var blank := ImagesOnly(s, types);
    if mouseId == "return_canvas_only" then Ok(BlankCanvas(blank))
    else
      var h := MakeHeading(s, blank.width, mouseId, labId);
      if gridMode == "initiate heading" then Ok(HeadingOnly)
      else if s.mode == "preview_layout" then Ok(Canvas(blank.width, blank.height + h.total, h, []))
      else if mouseId !in t then Err(KeyError(mouseId))
      else
        var eyes := t[mouseId];
        match Column(EyeOutcome(s, eyes.od, mouseId, "OD", choose, open), types, 0, h.total)
        case Err(e) => Err(e)
        case Ok(od) =>
          match Column(EyeOutcome(s, eyes.os, mouseId, "OS", choose, open), types, s.imageWidth, h.total)
          case Err(e) => Err(e)
          case Ok(os) => Ok(Canvas(blank.width, blank.height + h.total, h, od + os))
  }

  /** The run-mode exits, the canvas size and an unknown subject's error. */
  lemma AssembleShape(s: Setup, types: seq<ImageType>, t: Table, mouseId: string, labId: string,
                      gridMode: string, choose: Chooser, open: Opener)
    ensures var r := Assemble(s, types, t, mouseId, labId, gridMode, choose, open);
      && (mouseId == "return_canvas_only" ==> r == Ok(BlankCanvas(ImagesOnly(s, types))))
      && (mouseId != "return_canvas_only" && gridMode == "initiate heading" ==> r == Ok(HeadingOnly))
      && (r.Ok? && r.value.Canvas? ==>
            && r.value.width == 2 * s.imageWidth
            && r.value.height == ImagesOnly(s, types).height + r.value.heading.total
            && r.value.heading == MakeHeading(s, 2 * s.imageWidth, mouseId, labId))
      && (r.Ok? && r.value.Canvas? && s.mode == "preview_layout" ==> r.value.placed == [])
      && ((mouseId != "return_canvas_only" && gridMode != "initiate heading" && s.mode != "preview_layout"
           && mouseId !in t) ==> r == Err(KeyError(mouseId)))
  {
  }

  /** A placed image in an eye's column: at the column's x, as wide as an
      image, directly under the image before it (the first one directly
      under the heading). */
  predicate InColumn(p: seq<Placed>, x: int, width: int, top: int)
  {
    && (forall k :: 0 <= k < |p| ==> p[k].x == x && p[k].size.width == width)
    && (p != [] ==> p[0].y == top)
    && (forall k :: 0 <= k < |p| - 1 ==> p[k + 1].y == p[k].y + p[k].size.height)
  }

  lemma EyeColumnShape(s: Setup, l: ImagerLists, mouseId: string, eye: string, choose: Chooser, open: Opener,
                       types: seq<ImageType>, x: int, top: int)
    requires Column(EyeOutcome(s, l, mouseId, eye, choose, open), types, x, top).Ok?
    ensures InColumn(Column(EyeOutcome(s, l, mouseId, eye, choose, open), types, x, top).value, x, s.imageWidth, top)
  {
    var outcome := EyeOutcome(s, l, mouseId, eye, choose, open);
    ColumnStacks(outcome, types, x, top);
    ColumnSlots(outcome, types, x, top);
    var p := Column(outcome, types, x, top).value;
    forall k | 0 <= k < |p| ensures p[k].size.width == s.imageWidth {
      assert outcome(types[k]) == Ok(Slot(p[k].path, p[k].size));
    }
  }

  /** A full canvas holds one image per requested type and eye: first the
      OD column at x = 0, then the OS column at x = image width, each
      stacked down from the bottom of the heading. */
  lemma CanvasColumns(s: Setup, types: seq<ImageType>, t: Table, mouseId: string, labId: string,
                      gridMode: string, choose: Chooser, open: Opener)
    requires Assemble(s, types, t, mouseId, labId, gridMode, choose, open).Ok?
    requires Assemble(s, types, t, mouseId, labId, gridMode, choose, open).value.Canvas?
    requires s.mode != "preview_layout"
    ensures var c := Assemble(s, types, t, mouseId, labId, gridMode, choose, open).value;
      && |c.placed| == 2 * |types|
      && InColumn(c.placed[..|types|], 0, s.imageWidth, c.heading.total)
      && InColumn(c.placed[|types|..], s.imageWidth, s.imageWidth, c.heading.total)
  {
    var c := Assemble(s, types, t, mouseId, labId, gridMode, choose, open).value;
    var eyes := t[mouseId];
    var h := c.heading;
    var od := Column(EyeOutcome(s, eyes.od, mouseId, "OD", choose, open), types, 0, h.total);
    var os := Column(EyeOutcome(s, eyes.os, mouseId, "OS", choose, open), types, s.imageWidth, h.total);
    EyeColumnShape(s, eyes.od, mouseId, "OD", choose, open, types, 0, h.total);
    EyeColumnShape(s, eyes.os, mouseId, "OS", choose, open, types, s.imageWidth, h.total);
    assert c.placed == od.value + os.value;
    assert c.placed[..|types|] == od.value && c.placed[|types|..] == os.value;
  }

  /** The subject's state the canvas code keeps: the heading height of the
      last canvas made, which the master layout reads. */
  class MouseGrid {
    var totalHeadingHeight: int

    constructor ()
      ensures totalHeadingHeight == 0
    {
      totalHeadingHeight := 0;
    }

    /** `assemble_mouse_image_grid`. */
    method AssembleMouseImageGrid(s: Setup, types: seq<ImageType>, t: Table, mouseId: string, labId: string,
                                  gridMode: string, choose: Chooser, open: Opener)
      returns (r: Result<Assembled>)
      modifies this
      ensures r == Assemble(s, types, t, mouseId, labId, gridMode, choose, open)
      ensures totalHeadingHeight == if mouseId == "return_canvas_only" then old(totalHeadingHeight)
                                    else MakeHeading(s, 2 * s.imageWidth, mouseId, labId).total
    {
      var csloCount, octCount := CountImagers(types);
      var blank := Size(2 * s.imageWidth, s.cslo.height * csloCount + s.oct.height * octCount);
      assert blank == ImagesOnly(s, types);
      if mouseId == "return_canvas_only" {
        return Ok(BlankCanvas(blank));
      }
      var h := MakeHeading(s, blank.width, mouseId, labId);
      totalHeadingHeight := h.total;
      if gridMode == "initiate heading" {
        return Ok(HeadingOnly);
      }
      if s.mode == "preview_layout" {
        return Ok(Canvas(blank.width, blank.height + h.total, h, []));
      }
      if mouseId !in t {
        return Err(KeyError(mouseId));
      }
      var eyes := t[mouseId];
      var od := PlaceColumn(EyeOutcome(s, eyes.od, mouseId, "OD", choose, open), types, 0, h.total);
      if od.Err? {
        return Err(od.error);
      }
      var os := PlaceColumn(EyeOutcome(s, eyes.os, mouseId, "OS", choose, open), types, s.imageWidth, h.total);
      if os.Err? {
        return Err(os.error);
      }
      return Ok(Canvas(blank.width, blank.height + h.total, h, od.value + os.value));
    }
  }
}
