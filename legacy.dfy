/** The older compilation script: every mouse gets a fixed 2×2 block of
    cSLO images (OD on the left, OS on the right; BAF on top, IRAF below),
    `columns` blocks to a row, with the BAF/IRAF captions at the start of
    every row. Images are sizes, fonts are bounding-box functions, and the
    compiled image is the list of captions and pastes drawn on it. */
module LegacyCompilation {
  import opened Wrappers
  import opened Text
  import opened Geometry
  import opened FileNames
  import MasterLayout

  // ---------------------------------------------------------------------------
  // Finding the images
  // ---------------------------------------------------------------------------

  /** One directory visited by `os.walk`: its path and the names of its files. */
  datatype WalkDir = WalkDir(root: string, files: seq<string>)

  /** The file filter: a case-sensitive ".tif" ending and "BAF" or "IRAF"
      somewhere in the name. */
  predicate IsCsloImage(file: string) {
    EndsWith(file, ".tif") && (Contains(file, "BAF") || Contains(file, "IRAF"))
  }

  /** `os.path.join(root, file)` for '/'-separated paths. */
  function PathJoin(root: string, file: string): string {
    if StartsWith(file, "/") then file
    else if root == [] || EndsWith(root, "/") then root + file
    else root + "/" + file
  }

  /** The kept files of one directory, joined to its path, in listing order. */
  function KeptIn(root: string, files: seq<string>): seq<string>
  {
    if files == [] then []
    else
      var last := files[|files| - 1];
      KeptIn(root, files[..|files| - 1]) + (if IsCsloImage(last) then [PathJoin(root, last)] else [])
  }

  /** The kept files of the whole walk, directory by directory. */
  function Kept(walk: seq<WalkDir>): seq<string>
  {
    if walk == [] then []
    else Kept(walk[..|walk| - 1]) + KeptIn(walk[|walk| - 1].root, walk[|walk| - 1].files)
  }

  /** A path is kept exactly when it is the join of some visited file that
      passes the filter. */
  lemma {:induction false} KeptInMembers(root: string, files: seq<string>, p: string)
    ensures p in KeptIn(root, files)
        <==> exists f :: f in files && IsCsloImage(f) && p == PathJoin(root, f)
  {
    if files != [] {
      var init := files[..|files| - 1];
      var last := files[|files| - 1];
      KeptInMembers(root, init, p);
      assert files == init + [last];
      assert forall f :: f in files <==> f in init || f == last;
    }
  }

  lemma {:induction false} KeptMembers(walk: seq<WalkDir>, p: string)
    ensures p in Kept(walk)
        <==> exists d, f :: d in walk && f in d.files && IsCsloImage(f) && p == PathJoin(d.root, f)
  {
    if walk != [] {
      var init := walk[..|walk| - 1];
      var last := walk[|walk| - 1];
      KeptMembers(init, p);
      KeptInMembers(last.root, last.files, p);
      assert walk == init + [last];
      assert forall d :: d in walk <==> d in init || d == last;
    }
  }

  /** The name of a joined path is the file's own name. */
  lemma BasenameOfJoin(root: string, file: string)
    requires Lacks(file, '/') && file != []
    ensures Basename(PathJoin(root, file)) == file
  {
    assert !StartsWith(file, "/") by {
      assert file[0] != '/';
      assert file[..1] != "/";
    }
    if root == [] {
      assert root + file == file;
      LastIndexOfSpec(file, '/');
    } else if EndsWith(root, "/") {
      assert root[|root| - 1] == '/' by {
        assert root[|root| - 1..] == "/";
        assert root[|root| - 1..][0] == root[|root| - 1];
      }
      LastSlash(root, file);
    } else {
      assert root + "/" + file == (root + "/") + file;
      LastSlash(root + "/", file);
    }
  }

  /** As `os.walk` lists them (names without separators), every kept path's
      name passes the filter: the per-mouse file selection sees only
      ".tif" BAF/IRAF images. */
  lemma KeptNamesPass(walk: seq<WalkDir>, p: string)
    requires forall d, f :: d in walk && f in d.files ==> Lacks(f, '/')
    requires p in Kept(walk)
    ensures IsCsloImage(Basename(p))
  {
    KeptMembers(walk, p);
    var d, f :| d in walk && f in d.files && IsCsloImage(f) && p == PathJoin(d.root, f);
    assert f != [] by {
      assert EndsWith(f, ".tif");
    }
    BasenameOfJoin(d.root, f);
  }

  /** `find_image_files`, over the directories `os.walk` visits. */
  method FindImageFiles(walk: seq<WalkDir>) returns (imageFiles: seq<string>)
    ensures imageFiles == Kept(walk)
  {
    imageFiles := [];
    for i := 0 to |walk|
      invariant imageFiles == Kept(walk[..i])
    {
      var d := walk[i];
      ghost var before := imageFiles;
      for j := 0 to |d.files|
        invariant imageFiles == before + KeptIn(d.root, d.files[..j])
      {
        var file := d.files[j];
        assert d.files[..j + 1][..j] == d.files[..j];
        if IsCsloImage(file) {
          imageFiles := imageFiles + [PathJoin(d.root, file)];
        }
      }
      assert d.files[..|d.files|] == d.files;
      assert walk[..i + 1][..i] == walk[..i];
    }
    assert walk[..|walk|] == walk;
  }

  // ---------------------------------------------------------------------------
  // Centring a text
  // ---------------------------------------------------------------------------

  /** The ink width of a text, `bbox[2] - bbox[0]`. */
  function TextWidth(font: Font, text: string): int
  {
    font(text).x1 - font(text).x0
  }

  /** `center_text_between_images`: where a text starts so that it sits in
      the middle of [x1, x2]; both halvings are Python's `//`, which floors
      like Dafny's `/` for a positive divisor. */
  function CenterText(font: Font, text: string, x1: int, x2: int): int
  {
    (x1 + x2) / 2 - TextWidth(font, text) / 2
  }

  /** The text's midpoint is within half a pixel of the interval's. */
  lemma CenterTextCentred(font: Font, text: string, x1: int, x2: int)
    ensures var x := CenterText(font, text, x1, x2);
      -1 <= (x + (x + TextWidth(font, text))) - (x1 + x2) <= 1
  {
  }

  /** A text no wider than the interval starts and ends inside it. */
  lemma CenterTextFits(font: Font, text: string, x1: int, x2: int)
    requires 0 <= TextWidth(font, text) <= x2 - x1
    ensures x1 <= CenterText(font, text, x1, x2)
    ensures CenterText(font, text, x1, x2) + TextWidth(font, text) <= x2
  {
  }

  // ---------------------------------------------------------------------------
  // Document size
  // ---------------------------------------------------------------------------

  /** What the settings dialog leaves in the module's globals. */
  datatype Settings = Settings(title: string, subtitle: string, rows: int, columns: int)

  const ColumnMargin := 45
  const RowMargin := 400
  const XOffset := 400

  /** Top of the first row: 700, less 250 without a title and 70 without a
      subtitle. */
  function TopOffset(s: Settings): (y: int)
    ensures 380 <= y <= 700
  {
    700 - (if s.title == "" then 250 else 0) - (if s.subtitle == "" then 70 else 0)
  }

  function SubtitleY(s: Settings): int
  {
    if s.title == "" then 35 else 230
  }

  /** Left edge of the block in column `col`. */
  function BlockX(col: int, w: int): int
  {
    col * (2 * w + ColumnMargin) + XOffset
  }

  /** The size of the compiled image for an example image of size `image`;
      `Image.new` rejects a negative width or height. */
  function DocumentSize(s: Settings, image: Size): (r: Result<(int, int)>)
  {
    var width := s.columns * (image.width * 2 + ColumnMargin) + XOffset;
    var height := image.height * 2 * s.rows + (s.rows - 1) * RowMargin + TopOffset(s) + 100;
    if width < 0 || height < 0 then Err(ValueError("Width and height must be >= 0"))
    else Ok((width, height))
  }

  /** With at least one row and one column the document always has a size,
      and it is one column block per column wider than the captions'
      margin and one row block per row taller than the heading. */
  lemma DocumentSizeOk(s: Settings, image: Size)
    requires s.rows >= 1 && s.columns >= 1
    ensures DocumentSize(s, image).Ok?
    ensures DocumentSize(s, image).value.0 == BlockX(s.columns, image.width)
    ensures DocumentSize(s, image).value.1
         == TopOffset(s) + s.rows * (2 * image.height + RowMargin) - RowMargin + 100
  {
    assert s.columns * (image.width * 2 + ColumnMargin) >= 0;
    assert image.height * 2 * s.rows >= 0;
  }

  /** The image whose size sets the document's: `image_files[0]`. */
  function ExampleImage(imageFiles: seq<string>): (r: Result<string>)
    ensures r.Ok? <==> imageFiles != []
    ensures r.Ok? ==> r.value in imageFiles
  {
    if imageFiles == [] then Err(IndexError("list index out of range")) else Ok(imageFiles[0])
  }

  /** The later draft's choice of example: the first cSLO image, else the
      first OCT image, and no example (the program exits) without either. */
  function DraftExampleImage(csloPaths: seq<string>, octPaths: seq<string>): (r: Option<string>)
    ensures r.None? <==> csloPaths == [] && octPaths == []
    ensures csloPaths != [] ==> r == Some(csloPaths[0])
    ensures r.Some? ==> r.value in csloPaths || r.value in octPaths
  {
    if csloPaths != [] then Some(csloPaths[0])
    else if octPaths != [] then Some(octPaths[0])
    else None
  }

  // ---------------------------------------------------------------------------
  // Choosing a mouse's files
  // ---------------------------------------------------------------------------

  /** The files whose name contains `part`, in order. */
  function Named(files: seq<string>, part: string): (r: seq<string>)
    ensures |r| <= |files|
  {
    if files == [] then []
    else
      var last := files[|files| - 1];
      Named(files[..|files| - 1], part) + (if Contains(Basename(last), part) then [last] else [])
  }

  lemma {:induction false} NamedMembers(files: seq<string>, part: string, f: string)
    ensures f in Named(files, part) <==> f in files && Contains(Basename(f), part)
  {
    if files != [] {
      var init := files[..|files| - 1];
      NamedMembers(init, part, f);
      assert files == init + [files[|files| - 1]];
    }
  }

  /** The picture picker: given several candidates of one type it returns
      the one the user clicked, or nothing when the window is closed. */
  type Chooser = seq<string> -> Option<string>

  /** The four images a mouse should have, in the order they are looked for. */
  const ImagesNeeded: seq<string> := ["OD_BAF", "OD_IRAF", "OS_BAF", "OS_IRAF"]

  /** What one image type contributes: its only match, the picker's choice
      among several, or nothing. */
  function Pick(matches: seq<string>, choose: Chooser): seq<Option<string>>
  {
    if |matches| == 1 then [Some(matches[0])]
    else if |matches| > 1 then [choose(matches)]
    else []
  }

  function Picks(candidates: seq<string>, types: seq<string>, choose: Chooser): seq<Option<string>>
  {
    if types == [] then []
    else Picks(candidates, types[..|types| - 1], choose) + Pick(Named(candidates, types[|types| - 1]), choose)
  }

  /** The list with the `None`s removed. */
  function Present(xs: seq<Option<string>>): (r: seq<string>)
    ensures |r| <= |xs|
  {
    if xs == [] then []
    else Present(xs[..|xs| - 1]) + (if xs[|xs| - 1].Some? then [xs[|xs| - 1].value] else [])
  }

  lemma {:induction false} PresentMembers(xs: seq<Option<string>>, f: string)
    ensures f in Present(xs) <==> Some(f) in xs
  {
    if xs != [] {
      PresentMembers(xs[..|xs| - 1], f);
      assert xs == xs[..|xs| - 1] + [xs[|xs| - 1]];
    }
  }

  /** The files used for a mouse: its candidates as they are when there are
      exactly four, otherwise one per needed type. */
  function Selection(candidates: seq<string>, choose: Chooser): seq<string>
  {
    if |candidates| == 4 then candidates
    else Present(Picks(candidates, ImagesNeeded, choose))
  }

  lemma {:induction false} PicksLength(candidates: seq<string>, types: seq<string>, choose: Chooser)
    ensures |Picks(candidates, types, choose)| <= |types|
  {
    if types != [] {
      PicksLength(candidates, types[..|types| - 1], choose);
    }
  }

  /** A mouse never gets more than four images. */
  lemma SelectionAtMostFour(candidates: seq<string>, choose: Chooser)
    ensures |Selection(candidates, choose)| <= 4
  {
    PicksLength(candidates, ImagesNeeded, choose);
  }

  /** The picker is consulted only for a type with several matches: when
      no type is ambiguous, any two pickers give the same files. */
  lemma {:induction false} PicksWithoutAmbiguity(candidates: seq<string>, types: seq<string>, c1: Chooser, c2: Chooser)
    requires forall k :: 0 <= k < |types| ==> |Named(candidates, types[k])| <= 1
    ensures Picks(candidates, types, c1) == Picks(candidates, types, c2)
  {
    if types != [] {
      var init := types[..|types| - 1];
      assert forall k :: 0 <= k < |init| ==> init[k] == types[k];
      PicksWithoutAmbiguity(candidates, init, c1, c2);
    }
  }

  lemma SelectionWithoutAmbiguity(candidates: seq<string>, c1: Chooser, c2: Chooser)
    requires forall k :: 0 <= k < 4 ==> |Named(candidates, ImagesNeeded[k])| <= 1
    ensures Selection(candidates, c1) == Selection(candidates, c2)
  {
    PicksWithoutAmbiguity(candidates, ImagesNeeded, c1, c2);
  }

  /** A picker that only returns one of the images it was shown. */
  ghost predicate Honest(choose: Chooser)
  {
    forall m :: choose(m).Some? ==> choose(m).value in m
  }

  lemma {:induction false} PicksFromCandidates(candidates: seq<string>, types: seq<string>, choose: Chooser, f: string)
    requires Honest(choose)
    requires Some(f) in Picks(candidates, types, choose)
    ensures f in candidates
  {
    var init := types[..|types| - 1];
    var matches := Named(candidates, types[|types| - 1]);
    if Some(f) in Picks(candidates, init, choose) {
      PicksFromCandidates(candidates, init, choose, f);
    } else {
      assert Some(f) in Pick(matches, choose);
      assert f in matches;
      NamedMembers(candidates, types[|types| - 1], f);
    }
  }

  /** With an honest picker, every file used for a mouse is one of its
      candidates. */
  lemma SelectionFromCandidates(candidates: seq<string>, choose: Chooser, f: string)
    requires Honest(choose)
    requires f in Selection(candidates, choose)
    ensures f in candidates
  {
    if |candidates| != 4 {
      PresentMembers(Picks(candidates, ImagesNeeded, choose), f);
      PicksFromCandidates(candidates, ImagesNeeded, choose, f);
    }
  }

  /** The loop that collects the files whose name contains `part`; the
      program runs it for the mouse id and for each needed type. */
  method FilesNamed(files: seq<string>, part: string) returns (r: seq<string>)
    ensures r == Named(files, part)
  {
    r := [];
    for i := 0 to |files|
      invariant r == Named(files[..i], part)
    {
      assert files[..i + 1][..i] == files[..i];
      if Contains(Basename(files[i]), part) {
        r := r + [files[i]];
      }
    }
    assert files[..|files|] == files;
  }

  /** One pass of the type loop: the files named after `ty`, and what
      they contribute. */
  method PickFor(candidates: seq<string>, ty: string, choose: Chooser) returns (p: seq<Option<string>>)
    ensures p == Pick(Named(candidates, ty), choose)
  {
    var multiple := FilesNamed(candidates, ty);
    if |multiple| == 1 {
      p := [Some(multiple[0])];
    } else if |multiple| > 1 {
      var selected := choose(multiple);
      p := [selected];
    } else {
      p := [];
    }
  }

  lemma PicksStep(candidates: seq<string>, types: seq<string>, t: nat, choose: Chooser)
    requires t < |types|
    ensures Picks(candidates, types[..t + 1], choose)
         == Picks(candidates, types[..t], choose) + Pick(Named(candidates, types[t]), choose)
  {
    assert types[..t + 1][..t] == types[..t];
  }

  /** The files used for a mouse, from its candidates. */
  method SelectFiles(candidates: seq<string>, choose: Chooser) returns (files: seq<string>)
    ensures files == Selection(candidates, choose)
  {
    if |candidates| != 4 {
      var chosen: seq<Option<string>> := [];
      var needed := ImagesNeeded;
      for t := 0 to |needed|
        invariant chosen == Picks(candidates, needed[..t], choose)
      {
        var p := PickFor(candidates, needed[t], choose);
        PicksStep(candidates, needed, t, choose);
        chosen := chosen + p;
      }
      assert needed[..|needed|] == needed;
      files := Present(chosen);
    } else {
      files := candidates;
    }
  }

  // ---------------------------------------------------------------------------
  // Drawing one mouse
  // ---------------------------------------------------------------------------

  /** What is drawn on the compiled image: a caption or a pasted image, by
      its top-left corner. */
  datatype Mark = Caption(text: string, x: int, y: int) | Paste(path: string, x: int, y: int)

  /** The fonts of the BAF/IRAF captions, the mouse ids and the OD/OS captions. */
  datatype Fonts = Fonts(imageType: Font, mouse: Font, eye: Font)

  /** The pastes for one file of a mouse whose block starts at (x, y): an
      OD file (checked first) in the left column, an OS file in the right
      one, BAF in the top row and IRAF in the bottom row; a file naming
      neither eye is skipped. */
  function Quadrant(path: string, x: int, y: int, w: int, h: int): seq<Mark>
  {
    var name := Basename(path);
    if Contains(name, "OD") then EyeColumn(path, name, x, y, h)
    else if Contains(name, "OS") then EyeColumn(path, name, x + w, y, h)
    else []
  }

  function EyeColumn(path: string, name: string, x: int, y: int, h: int): seq<Mark>
  {
    (if Contains(name, "BAF") then [Paste(path, x, y)] else [])
    + (if Contains(name, "IRAF") then [Paste(path, x, y + h)] else [])
  }

  /** Each quadrant of the block is filled exactly when the file's name
      says so, and nothing is drawn outside the four corners. */
  lemma QuadrantPlaces(path: string, x: int, y: int, w: int, h: int)
    requires w > 0 && h > 0
    ensures var n := Basename(path); var q := Quadrant(path, x, y, w, h);
      && (Paste(path, x, y) in q <==> Contains(n, "OD") && Contains(n, "BAF"))
      && (Paste(path, x, y + h) in q <==> Contains(n, "OD") && Contains(n, "IRAF"))
      && (Paste(path, x + w, y) in q <==> !Contains(n, "OD") && Contains(n, "OS") && Contains(n, "BAF"))
      && (Paste(path, x + w, y + h) in q <==> !Contains(n, "OD") && Contains(n, "OS") && Contains(n, "IRAF"))
      && (forall m :: m in q ==>
            (m.Paste? && m.path == path && (m.x == x || m.x == x + w) && (m.y == y || m.y == y + h)))
  {
  }

  /** The pastes for a mouse's files, file by file. */
  function PasteAll(files: seq<string>, x: int, y: int, w: int, h: int): seq<Mark>
  {
    if files == [] then []
    else PasteAll(files[..|files| - 1], x, y, w, h) + Quadrant(files[|files| - 1], x, y, w, h)
  }

  /** Every paste of a mouse is one of its files, in one of its block's
      four corners. */
  lemma {:induction false} PasteAllInBlock(files: seq<string>, x: int, y: int, w: int, h: int, m: Mark)
    requires w > 0 && h > 0
    requires m in PasteAll(files, x, y, w, h)
    ensures m.Paste? && m.path in files
    ensures (m.x == x || m.x == x + w) && (m.y == y || m.y == y + h)
  {
    var init := files[..|files| - 1];
    var last := files[|files| - 1];
    if m in PasteAll(init, x, y, w, h) {
      PasteAllInBlock(init, x, y, w, h, m);
    } else {
      QuadrantPlaces(last, x, y, w, h);
    }
  }

  /** The pastes for one file. */
  method PasteOne(path: string, x: int, y: int, w: int, h: int) returns (marks: seq<Mark>)
    ensures marks == Quadrant(path, x, y, w, h)
  {
    marks := [];
    var name := Basename(path);
    if Contains(name, "OD") {
      if Contains(name, "BAF") {
        marks := marks + [Paste(path, x, y)];
      }
      if Contains(name, "IRAF") {
        marks := marks + [Paste(path, x, y + h)];
      }
    } else if Contains(name, "OS") {
      if Contains(name, "BAF") {
        marks := marks + [Paste(path, x + w, y)];
      }
      if Contains(name, "IRAF") {
        marks := marks + [Paste(path, x + w, y + h)];
      }
    }
  }

  /** The loop that pastes a mouse's files. */
  method PasteFiles(files: seq<string>, x: int, y: int, w: int, h: int) returns (marks: seq<Mark>)
    ensures marks == PasteAll(files, x, y, w, h)
  {
    marks := [];
    for i := 0 to |files|
      invariant marks == PasteAll(files[..i], x, y, w, h)
    {
      assert files[..i + 1][..i] == files[..i];
      var pasted := PasteOne(files[i], x, y, w, h);
      marks := marks + pasted;
    }
    assert files[..|files|] == files;
  }

  // ---------------------------------------------------------------------------
  // The whole compilation
  // ---------------------------------------------------------------------------

  /** Everything `compile_images` reads: the image paths, the size of each
      image (`Image.open`), the picker, the fonts and the settings. */
  datatype Job = Job(imageFiles: seq<string>, sizeOf: string -> Size, choose: Chooser,
                     fonts: Fonts, settings: Settings)

  /** The compiled image: its size and what is drawn on it, in order. */
  datatype Document = Document(width: int, height: int, marks: seq<Mark>)

  /** Column and top of the block the next mouse goes to. */
  datatype Cursor = Cursor(col: int, y: int)

  /** After a mouse: the next column, or the first column of the next row. */
  function Advance(c: Cursor, columns: int, h: int): Cursor
  {
    if c.col + 1 < columns then Cursor(c.col + 1, c.y)
    else Cursor(0, c.y + 2 * h + RowMargin)
  }

  /** The BAF/IRAF captions of the row whose top is `y`. */
  function TypeCaptions(font: Font, y: int, h: int): seq<Mark>
  {
    var ty := CenterText(font, "BAF", y, y + h);
    [Caption("BAF", XOffset - 300, ty), Caption("IRAF", XOffset - 300, ty + h)]
  }

  /** Title, subtitle and the first row's captions. */
  function Heading(job: Job, h: int): seq<Mark>
  {
    var s := job.settings;
    [Caption(s.title, 30, 20), Caption(s.subtitle, 30, SubtitleY(s))]
    + TypeCaptions(job.fonts.imageType, TopOffset(s), h)
  }

  /** The id above a mouse's block at (x, y) and the OD/OS captions above its columns. */
  function MouseCaptions(job: Job, w: int, m: string, x: int, y: int): seq<Mark>
  {
    [Caption(m, CenterText(job.fonts.mouse, m, x, x + 2 * w), y - 300),
     Caption("OD", CenterText(job.fonts.eye, "OD", x, x + w), y - 150),
     Caption("OS", CenterText(job.fonts.eye, "OS", x + w, x + 2 * w), y - 150)]
  }

  /** The files used for mouse `m`: those whose name holds its id, as
      `Selection` settles them. */
  function MouseFiles(job: Job, m: string): seq<string>
  {
    Selection(Named(job.imageFiles, m), job.choose)
  }

  /** The captions of mouse `m` and the pastes of its `files`, in the block at `c`. */
  function MouseMarks(job: Job, w: int, h: int, m: string, files: seq<string>, c: Cursor): seq<Mark>
  {
    var x := BlockX(c.col, w);
    MouseCaptions(job, w, m, x, c.y) + PasteAll(files, x, c.y, w, h)
  }

  /** The captions of a new row, drawn when a mouse closes a row. */
  function RowEnd(job: Job, h: int, c: Cursor): seq<Mark>
  {
    if c.col + 1 < job.settings.columns then []
    else TypeCaptions(job.fonts.imageType, c.y + 2 * h + RowMargin, h)
  }

  /** Where the mouse `k` places after the first one goes to `c`. */
  function CursorAfter(c: Cursor, columns: int, h: int, k: nat): Cursor
  {
    if k == 0 then c else Advance(CursorAfter(c, columns, h, k - 1), columns, h)
  }

  /** Everything mouse `m` adds when its block is at `c`. */
  function MouseStep(job: Job, w: int, h: int, m: string, c: Cursor): seq<Mark>
  {
    MouseMarks(job, w, h, m, MouseFiles(job, m), c) + RowEnd(job, h, c)
  }

  /** The marks of the mice `mice` drawn one after another, the first at `c`. */
  function Steps(job: Job, w: int, h: int, mice: seq<string>, c: Cursor): seq<Mark>
  {
    if mice == [] then []
    else
      var k := |mice| - 1;
      Steps(job, w, h, mice[..k], c) + MouseStep(job, w, h, mice[k], CursorAfter(c, job.settings.columns, h, k))
  }

  lemma {:induction false} CursorAfterShift(c: Cursor, columns: int, h: int, k: nat)
    ensures CursorAfter(Advance(c, columns, h), columns, h, k) == CursorAfter(c, columns, h, k + 1)
  {
    if k > 0 {
      CursorAfterShift(c, columns, h, k - 1);
    }
  }

  /** Row-major order: from the first column, mouse `k` sits in column
      k % columns of row k / columns. */
  lemma {:induction false} CursorClosedForm(y0: int, columns: int, h: int, k: nat)
    requires columns >= 1
    ensures CursorAfter(Cursor(0, y0), columns, h, k)
         == Cursor(k % columns, y0 + (k / columns) * (2 * h + RowMargin))
  {
    if k > 0 {
      CursorClosedForm(y0, columns, h, k - 1);
      AdvanceClosed(y0, columns, h, k - 1);
    }
  }

  /** One advance from block `j` of the row-major order leads to block j + 1. */
  lemma AdvanceClosed(y0: int, columns: int, h: int, j: nat)
    requires columns >= 1
    ensures Advance(Cursor(j % columns, y0 + (j / columns) * (2 * h + RowMargin)), columns, h)
         == Cursor((j + 1) % columns, y0 + ((j + 1) / columns) * (2 * h + RowMargin))
  {
    var q, r := j / columns, j % columns;
    assert j == q * columns + r;
    if r + 1 < columns {
      MasterLayout.DivModUnique(j + 1, columns, q, r + 1);
    } else {
      NextRow(j + 1, columns, q);
      MasterLayout.DivModUnique(j + 1, columns, q + 1, 0);
      NextRow(q * (2 * h + RowMargin) + (2 * h + RowMargin), 2 * h + RowMargin, q);
    }
  }

  lemma NextRow(a: int, n: int, q: int)
    requires a == q * n + n
    ensures a == (q + 1) * n + 0
  {
  }

  /** The marks of the first `j` mice are a prefix of the marks of all. */
  lemma {:induction false} StepsPrefix(job: Job, w: int, h: int, mice: seq<string>, c: Cursor, j: nat)
    requires j <= |mice|
    ensures Steps(job, w, h, mice[..j], c) <= Steps(job, w, h, mice, c)
    decreases |mice|
  {
    if j < |mice| {
      var init := mice[..|mice| - 1];
      StepsPrefix(job, w, h, init, c, j);
      assert init[..j] == mice[..j];
    } else {
      assert mice[..j] == mice;
    }
  }

  /** Mouse `k`'s captions and images, in the block `k` advances lead to,
      come right after the marks of the mice before it. */
  lemma StepsAt(job: Job, w: int, h: int, mice: seq<string>, c: Cursor, k: nat)
    requires k < |mice|
    ensures Steps(job, w, h, mice[..k], c)
            + MouseStep(job, w, h, mice[k], CursorAfter(c, job.settings.columns, h, k))
         <= Steps(job, w, h, mice, c)
  {
    StepsPrefix(job, w, h, mice, c, k + 1);
    var pre := mice[..k + 1];
    assert pre[..k] == mice[..k] && pre[k] == mice[k];
  }

  /** An image of a mouse lies in one of its block's four corners. */
  lemma PasteInBlock(job: Job, w: int, h: int, m: string, files: seq<string>, c: Cursor, p: Mark)
    requires w > 0 && h > 0
    requires p.Paste? && p in MouseMarks(job, w, h, m, files, c)
    ensures p.x == BlockX(c.col, w) || p.x == BlockX(c.col, w) + w
    ensures p.y == c.y || p.y == c.y + h
  {
    var x := BlockX(c.col, w);
    assert p !in MouseCaptions(job, w, m, x, c.y);
    PasteAllInBlock(files, x, c.y, w, h, p);
  }

  lemma ColumnFits(col: int, columns: int, w: int)
    requires 0 <= col < columns && w > 0
    ensures 0 <= BlockX(col, w) && BlockX(col, w) + 2 * w <= BlockX(columns, w)
  {
    assert (columns - 1 - col) * (2 * w + ColumnMargin) >= 0;
    assert col * (2 * w + ColumnMargin) >= 0;
  }

  /** Mouse `k` is in one of the first `rows` rows exactly when
      k < rows·columns. */
  lemma RowOf(k: nat, rows: int, columns: int)
    requires columns >= 1
    ensures k < rows * columns <==> k / columns < rows
  {
    var q, r := k / columns, k % columns;
    assert k == q * columns + r && 0 <= r < columns;
    if q < rows {
      var d := rows - 1 - q;
      assert d * columns >= 0;
      assert rows * columns == q * columns + columns + d * columns;
    } else {
      var d := q - rows;
      assert d * columns >= 0;
      assert q * columns == rows * columns + d * columns;
    }
  }

  /** Top of row `row` below a first row at `y0`. */
  lemma RowTops(y0: int, row: int, rows: int, h: int)
    requires row >= 0 && h > 0
    ensures row < rows ==>
      (y0 <= y0 + row * (2 * h + RowMargin)
       && y0 + row * (2 * h + RowMargin) + 2 * h <= y0 + rows * (2 * h + RowMargin) - RowMargin)
    ensures row >= rows ==> y0 + row * (2 * h + RowMargin) >= y0 + rows * (2 * h + RowMargin)
  {
    assert row * (2 * h + RowMargin) >= 0;
    if row < rows {
      assert (rows - 1 - row) * (2 * h + RowMargin) >= 0;
    } else {
      assert (row - rows) * (2 * h + RowMargin) >= 0;
    }
  }

  /** A corner of block `k` of the row-major order, for the first
      rows·columns blocks, lies inside a document of `width` × `height`
      (the size `DocumentSize` computes). */
  lemma CornerInside(x: int, y: int, k: nat, col: int, top: int, rows: int, columns: int, w: int, h: int, y0: int, width: int, height: int)
    requires w > 0 && h > 0 && rows >= 1 && columns >= 1 && y0 >= 0
    requires width == columns * (w * 2 + ColumnMargin) + XOffset
    requires height == h * 2 * rows + (rows - 1) * RowMargin + y0 + 100
    requires k < rows * columns
    requires col == k % columns && top == y0 + (k / columns) * (2 * h + RowMargin)
    requires x == BlockX(col, w) || x == BlockX(col, w) + w
    requires y == top || y == top + h
    ensures 0 <= x && x + w <= width && 0 <= y && y + h <= height
  {
    ColumnFits(col, columns, w);
    SizeForms(columns, rows, w, h);
    RowOf(k, rows, columns);
    RowTops(y0, k / columns, rows, h);
  }

  /** The document size formula in block terms. */
  lemma SizeForms(columns: int, rows: int, w: int, h: int)
    ensures columns * (w * 2 + ColumnMargin) + XOffset == BlockX(columns, w)
    ensures h * 2 * rows + (rows - 1) * RowMargin == rows * (2 * h + RowMargin) - RowMargin
  {
  }

  /** A corner of a block after the first rows·columns lies below the
      bottom edge of a document `height` tall. */
  lemma CornerBelow(y: int, k: nat, top: int, rows: int, columns: int, h: int, y0: int, height: int)
    requires h > 0 && rows >= 1 && columns >= 1
    requires height == h * 2 * rows + (rows - 1) * RowMargin + y0 + 100
    requires k >= rows * columns
    requires top == y0 + (k / columns) * (2 * h + RowMargin)
    requires y == top || y == top + h
    ensures y > height
  {
    SizeForms(columns, rows, 0, h);
    RowOf(k, rows, columns);
    RowTops(y0, k / columns, rows, h);
  }

  /** An image of mouse `k` lies in a corner of block `k` of the
      row-major order. */
  lemma PasteCorner(job: Job, w: int, h: int, m: string, files: seq<string>, k: nat, p: Mark)
    requires w > 0 && h > 0 && job.settings.columns >= 1
    requires p.Paste?
    requires p in MouseMarks(job, w, h, m, files, CursorAfter(Cursor(0, TopOffset(job.settings)), job.settings.columns, h, k))
    ensures var col := k % job.settings.columns;
      p.x == BlockX(col, w) || p.x == BlockX(col, w) + w
    ensures var top := TopOffset(job.settings) + (k / job.settings.columns) * (2 * h + RowMargin);
      p.y == top || p.y == top + h
  {
    var c := CursorAfter(Cursor(0, TopOffset(job.settings)), job.settings.columns, h, k);
    PasteInBlock(job, w, h, m, files, c, p);
    CursorClosedForm(TopOffset(job.settings), job.settings.columns, h, k);
  }

  /** A document of the size `DocumentSize` computes holds the corners of
      the first rows·columns blocks of the row-major order, and the corners
      of every later block lie below its bottom edge. */
  lemma CornersPlaced(s: Settings, size: Size, width: int, height: int, k: nat, x: int, y: int)
    requires DocumentSize(s, size) == Ok((width, height))
    requires s.rows >= 1 && s.columns >= 1 && size.width > 0 && size.height > 0
    requires x == BlockX(k % s.columns, size.width) || x == BlockX(k % s.columns, size.width) + size.width
    requires var top := TopOffset(s) + (k / s.columns) * (2 * size.height + RowMargin);
      y == top || y == top + size.height
    ensures k < s.rows * s.columns ==>
      (0 <= x && x + size.width <= width && 0 <= y && y + size.height <= height)
    ensures k >= s.rows * s.columns ==> y > height
  {
    DocumentSizeValues(s, size, width, height);
    var top := TopOffset(s) + (k / s.columns) * (2 * size.height + RowMargin);
    if k < s.rows * s.columns {
      CornerInside(x, y, k, k % s.columns, top, s.rows, s.columns, size.width, size.height, TopOffset(s), width, height);
    } else {
      CornerBelow(y, k, top, s.rows, s.columns, size.height, TopOffset(s), height);
    }
  }

  /** Every image of one of the first rows·columns mice lands inside a
      document of the size `DocumentSize` gives (images the size of the
      example), and every image of a later mouse below its bottom edge. */
  lemma ImagesPlaced(job: Job, size: Size, width: int, height: int, m: string, files: seq<string>, k: nat, p: Mark)
    requires DocumentSize(job.settings, size) == Ok((width, height))
    requires job.settings.rows >= 1 && job.settings.columns >= 1
    requires size.width > 0 && size.height > 0
    requires p.Paste?
    requires p in MouseMarks(job, size.width, size.height, m, files,
                             CursorAfter(Cursor(0, TopOffset(job.settings)), job.settings.columns, size.height, k))
    ensures k < job.settings.rows * job.settings.columns ==>
      (0 <= p.x && p.x + size.width <= width && 0 <= p.y && p.y + size.height <= height)
    ensures k >= job.settings.rows * job.settings.columns ==> p.y > height
  {
    PasteCorner(job, size.width, size.height, m, files, k, p);
    CornersPlaced(job.settings, size, width, height, k, p.x, p.y);
  }

  /** What `compile_images` draws, or the exception it raises. */
  function Compilation(job: Job, mice: seq<string>): Result<Document>
  {
    if job.imageFiles == [] then Err(IndexError("list index out of range"))
    else
      var size := job.sizeOf(job.imageFiles[0]);
      match DocumentSize(job.settings, size)
      case Err(e) => Err(e)
      case Ok((width, height)) =>
        Ok(Document(width, height, Heading(job, size.height)
          + Steps(job, size.width, size.height, mice, Cursor(0, TopOffset(job.settings)))))
  }

  lemma PrefixAfter<T>(a: seq<T>, b: seq<T>, c: seq<T>)
    requires b <= c
    ensures a + b <= a + c
  {
    assert a + b == (a + c)[..|a + b|];
  }

  /** A compiled image has the size `DocumentSize` gives and holds the
      heading followed by the mice's marks. */
  lemma CompilationShape(job: Job, mice: seq<string>, doc: Document)
    requires Compilation(job, mice) == Ok(doc)
    ensures job.imageFiles != []
    ensures var size := job.sizeOf(job.imageFiles[0]);
      && DocumentSize(job.settings, size) == Ok((doc.width, doc.height))
      && doc.marks == Heading(job, size.height)
                      + Steps(job, size.width, size.height, mice, Cursor(0, TopOffset(job.settings)))
  {
  }

  /** In the compiled image, mouse `k`'s captions and images follow the
      heading and the marks of the mice before it, in block `k` of the
      row-major order. */
  lemma CompiledMouse(job: Job, mice: seq<string>, doc: Document, k: nat)
    requires Compilation(job, mice) == Ok(doc) && k < |mice|
    ensures var size := job.sizeOf(job.imageFiles[0]);
      var c0 := Cursor(0, TopOffset(job.settings));
      Heading(job, size.height)
        + (Steps(job, size.width, size.height, mice[..k], c0)
           + MouseStep(job, size.width, size.height, mice[k], CursorAfter(c0, job.settings.columns, size.height, k)))
      <= doc.marks
  {
    CompilationShape(job, mice, doc);
    var size := job.sizeOf(job.imageFiles[0]);
    MouseAfterHeading(job, size, mice, k, doc.marks);
  }

  lemma MouseAfterHeading(job: Job, size: Size, mice: seq<string>, k: nat, marks: seq<Mark>)
    requires k < |mice|
    requires marks == Heading(job, size.height)
                      + Steps(job, size.width, size.height, mice, Cursor(0, TopOffset(job.settings)))
    ensures var c0 := Cursor(0, TopOffset(job.settings));
      Heading(job, size.height)
        + (Steps(job, size.width, size.height, mice[..k], c0)
           + MouseStep(job, size.width, size.height, mice[k], CursorAfter(c0, job.settings.columns, size.height, k)))
      <= marks
  {
    var c0 := Cursor(0, TopOffset(job.settings));
    StepsAt(job, size.width, size.height, mice, c0, k);
    PrefixAfter(Heading(job, size.height),
                Steps(job, size.width, size.height, mice[..k], c0)
                + MouseStep(job, size.width, size.height, mice[k], CursorAfter(c0, job.settings.columns, size.height, k)),
                Steps(job, size.width, size.height, mice, c0));
  }

  lemma DocumentSizeValues(s: Settings, size: Size, width: int, height: int)
    requires DocumentSize(s, size) == Ok((width, height))
    ensures width == s.columns * (size.width * 2 + ColumnMargin) + XOffset
    ensures height == size.height * 2 * s.rows + (s.rows - 1) * RowMargin + TopOffset(s) + 100
  {
  }

  /** In the compiled image, the images of the first rows·columns mice lie
      inside it and those of later mice below its bottom edge. */
  lemma CompiledImagesPlaced(job: Job, mice: seq<string>, doc: Document, k: nat, p: Mark)
    requires Compilation(job, mice) == Ok(doc) && k < |mice|
    requires job.settings.rows >= 1 && job.settings.columns >= 1
    requires job.sizeOf(job.imageFiles[0]).width > 0 && job.sizeOf(job.imageFiles[0]).height > 0
    requires p.Paste?
    requires p in MouseStep(job, job.sizeOf(job.imageFiles[0]).width, job.sizeOf(job.imageFiles[0]).height, mice[k],
                            CursorAfter(Cursor(0, TopOffset(job.settings)), job.settings.columns,
                                        job.sizeOf(job.imageFiles[0]).height, k))
    ensures k < job.settings.rows * job.settings.columns ==>
      (0 <= p.x && p.x + job.sizeOf(job.imageFiles[0]).width <= doc.width
       && 0 <= p.y && p.y + job.sizeOf(job.imageFiles[0]).height <= doc.height)
    ensures k >= job.settings.rows * job.settings.columns ==> p.y > doc.height
  {
    CompilationShape(job, mice, doc);
    var s := job.settings;
    var size := job.sizeOf(job.imageFiles[0]);
    var c := CursorAfter(Cursor(0, TopOffset(s)), s.columns, size.height, k);
    assert p in MouseMarks(job, size.width, size.height, mice[k], MouseFiles(job, mice[k]), c) by {
      assert forall q :: q in RowEnd(job, size.height, c) ==> q.Caption?;
    }
    ImagesPlaced(job, size, doc.width, doc.height, mice[k], MouseFiles(job, mice[k]), k, p);
  }

  /** A mouse's captions and images in the block at (column, yOffset). */
  method DrawBlock(job: Job, w: int, h: int, mouse: string, column: int, yOffset: int)
    returns (marks: seq<Mark>)
    ensures marks == MouseMarks(job, w, h, mouse, MouseFiles(job, mouse), Cursor(column, yOffset))
  {
    var candidates := FilesNamed(job.imageFiles, mouse);
    var files := SelectFiles(candidates, job.choose);
    var x := column * (2 * w + ColumnMargin) + XOffset;
    var captions := [Caption(mouse, CenterText(job.fonts.mouse, mouse, x, x + 2 * w), yOffset - 300),
                     Caption("OD", CenterText(job.fonts.eye, "OD", x, x + w), yOffset - 150),
                     Caption("OS", CenterText(job.fonts.eye, "OS", x + w, x + 2 * w), yOffset - 150)];
    var pasted := PasteFiles(files, x, yOffset, w, h);
    marks := captions + pasted;
    assert captions == MouseCaptions(job, w, mouse, x, yOffset);
  }

  /** The column advance after a mouse, with the next row's captions when
      the row is full. */
  method NextBlock(job: Job, h: int, column: int, yOffset: int)
    returns (captions: seq<Mark>, nextColumn: int, nextY: int)
    ensures captions == RowEnd(job, h, Cursor(column, yOffset))
    ensures Cursor(nextColumn, nextY) == Advance(Cursor(column, yOffset), job.settings.columns, h)
  {
    if column + 1 < job.settings.columns {
      captions, nextColumn, nextY := [], column + 1, yOffset;
    } else {
      nextColumn, nextY := 0, yOffset + (2 * h + RowMargin);
      var imageTypeY := CenterText(job.fonts.imageType, "BAF", nextY, nextY + h);
      captions := [Caption("BAF", XOffset - 300, imageTypeY), Caption("IRAF", XOffset - 300, imageTypeY + h)];
    }
  }

  /** The mouse loop, from the first row's top. */
  method DrawMice(job: Job, w: int, h: int, mice: seq<string>, yStart: int) returns (marks: seq<Mark>)
    ensures marks == Steps(job, w, h, mice, Cursor(0, yStart))
  {
    marks := [];
    var column := 0;
    var yOffset := yStart;
    for i := 0 to |mice|
      invariant marks == Steps(job, w, h, mice[..i], Cursor(0, yStart))
      invariant Cursor(column, yOffset) == CursorAfter(Cursor(0, yStart), job.settings.columns, h, i)
    {
      ghost var at := Cursor(column, yOffset);
      var block := DrawBlock(job, w, h, mice[i], column, yOffset);
      var captions;
      captions, column, yOffset := NextBlock(job, h, column, yOffset);
      assert block + captions == MouseStep(job, w, h, mice[i], at);
      assert mice[..i + 1][..i] == mice[..i] && mice[..i + 1][i] == mice[i];
      assert Steps(job, w, h, mice[..i + 1], Cursor(0, yStart))
          == Steps(job, w, h, mice[..i], Cursor(0, yStart)) + MouseStep(job, w, h, mice[i], at);
      marks := marks + (block + captions);
    }
    assert mice[..|mice|] == mice;
  }

  /** `compile_images`, with the progress messages and the saving left out. */
  method CompileImages(job: Job, mice: seq<string>) returns (r: Result<Document>)
    ensures r == Compilation(job, mice)
  {
    if |job.imageFiles| == 0 {
      return Err(IndexError("list index out of range"));
    }
    var example := job.sizeOf(job.imageFiles[0]);
    var w := example.width;
    var h := example.height;
    var s := job.settings;
    var width := s.columns * (w * 2 + ColumnMargin) + XOffset;
    var yOffset := 700;
    var subtitleY;
    if s.title == "" {
      yOffset := yOffset - 250;
      subtitleY := 35;
    } else {
      subtitleY := 230;
    }
    if s.subtitle == "" {
      yOffset := yOffset - 70;
    }
    var height := h * 2 * s.rows + (s.rows - 1) * RowMargin + yOffset + 100;
    if width < 0 || height < 0 {
      return Err(ValueError("Width and height must be >= 0"));
    }
    var imageTypeY := CenterText(job.fonts.imageType, "BAF", yOffset, yOffset + h);
    var marks := [Caption(s.title, 30, 20), Caption(s.subtitle, 30, subtitleY),
                  Caption("BAF", XOffset - 300, imageTypeY), Caption("IRAF", XOffset - 300, imageTypeY + h)];
    var drawn := DrawMice(job, w, h, mice, yOffset);
    assert yOffset == TopOffset(s);
    assert marks == Heading(job, h);
    assert DocumentSize(s, example) == Ok((width, height));
    return Ok(Document(width, height, marks + drawn));
  }
}
