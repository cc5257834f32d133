/** Turning the text the OCR engine reads off a cSLO image into an ear-tag
    number: keep what follows the folder name, turn '_', ',' and '.' into
    spaces, and normalise the whitespace. The OCR itself is an input. */
module EarTags {
  import opened Wrappers
  import opened Text

  /** `s.split(sep, 1)[1]` when `sep` occurs in `s`: the text after its
      first occurrence. Python refuses an empty separator. */
  function AfterFirst(s: string, sep: string): (r: Result<string>)
    requires Contains(s, sep)
    ensures r.Err? <==> sep == ""
    ensures r.Ok? ==> exists i :: OccursAt(s, sep, i) && (forall j :: 0 <= j < i ==> !OccursAt(s, sep, j))
                                  && r.value == s[i + |sep|..]
  {
    if sep == "" then Err(ValueError("empty separator"))
    else
      var i := FindFrom(s, sep, 0).value;
      Ok(s[i + |sep|..])
  }

  /** The three punctuation marks the OCR confuses with separators. */
  predicate Punctuation(c: char) { c == '_' || c == ',' || c == '.' }

  /** `.replace("_", " ").replace(",", " ").replace(".", " ")`. */
  function Depunctuate(s: string): string
  {
    ReplaceChar(ReplaceChar(ReplaceChar(s, '_', ' '), ',', ' '), '.', ' ')
  }

  /** `" ".join(s.split()).strip()` after the punctuation is replaced. */
  function Clean(s: string): string
  {
    Strip(CollapseSpaces(Depunctuate(s)))
  }

  /** The ear-tag number of one folder from the texts the OCR detected. */
  function EarTagNumber(detections: seq<string>, folder: string): (r: Result<string>)
  {
    var text := Join(detections, " ");
    if Contains(text, folder) then
      match AfterFirst(text, folder)
      case Err(e) => Err(e)
      case Ok(after) => Ok(Clean(after))
    else Ok(Clean(text))
  }

  lemma DepunctuateChars(s: string, i: nat)
    requires i < |Depunctuate(s)|
    ensures !Punctuation(Depunctuate(s)[i])
    ensures Depunctuate(s)[i] == ' ' || Depunctuate(s)[i] == s[i]
  {
  }

  /** A collapsed string is its own strip. */
  lemma StripCollapsed(s: string)
    ensures Strip(CollapseSpaces(s)) == CollapseSpaces(s)
  {
    JoinWordsCollapsed(Words(s));
    StripNoop(CollapseSpaces(s));
  }

  /** What `Clean` produces: no punctuation, single spaces between words,
      no space at either end. */
  lemma CleanForm(s: string)
    ensures Collapsed(Clean(s))
    ensures forall i :: 0 <= i < |Clean(s)| ==> !Punctuation(Clean(s)[i])
  {
    var d := Depunctuate(s);
    StripCollapsed(d);
    CollapseSpacesSpec(d);
    forall i | 0 <= i < |Clean(s)|
      ensures !Punctuation(Clean(s)[i])
    {
      CollapseSpacesChars(d, i);
      if Clean(s)[i] != ' ' {
        var j :| 0 <= j < |d| && d[j] == Clean(s)[i];
        DepunctuateChars(s, j);
      }
    }
  }

  lemma {:induction false} ReplaceCharAbsent(s: string, a: char, b: char)
    requires Lacks(s, a)
    ensures ReplaceChar(s, a, b) == s
  {
    if s != [] {
      ReplaceCharAbsent(s[1..], a, b);
    }
  }

  /** Cleaning a cleaned number changes nothing. */
  lemma CleanIdempotent(s: string)
    ensures Clean(Clean(s)) == Clean(s)
  {
    var c := Clean(s);
    CleanForm(s);
    ReplaceCharAbsent(c, '_', ' ');
    ReplaceCharAbsent(c, ',', ' ');
    ReplaceCharAbsent(c, '.', ' ');
    assert Depunctuate(c) == c;
    var d := Depunctuate(s);
    StripCollapsed(d);
    CollapseSpacesSpec(d);
    StripCollapsed(c);
  }

  /** The number is cleaned text from after the first occurrence of the
      folder name when the name occurs, and from the whole text otherwise;
      only an empty folder name fails. */
  lemma EarTagNumberSpec(detections: seq<string>, folder: string)
    ensures var text := Join(detections, " "); var r := EarTagNumber(detections, folder);
      && (r.Err? <==> folder == "")
      && (!Contains(text, folder) ==> r == Ok(Clean(text)))
      && (r.Ok? && Contains(text, folder) ==>
            exists i :: OccursAt(text, folder, i) && (forall j :: 0 <= j < i ==> !OccursAt(text, folder, j))
                        && r.value == Clean(text[i + |folder|..]))
  {
    var text := Join(detections, " ");
    if folder == "" {
      assert OccursAt(text, folder, 0);
    } else if Contains(text, folder) {
      var after := AfterFirst(text, folder);
      var i :| OccursAt(text, folder, i) && (forall j :: 0 <= j < i ==> !OccursAt(text, folder, j))
               && after.value == text[i + |folder|..];
      assert EarTagNumber(detections, folder) == Ok(Clean(text[i + |folder|..]));
    }
  }

  lemma EarTagNumberForm(detections: seq<string>, folder: string)
    requires EarTagNumber(detections, folder).Ok?
    ensures var n := EarTagNumber(detections, folder).value;
      Collapsed(n) && (forall i :: 0 <= i < |n| ==> !Punctuation(n[i]))
  {
    var text := Join(detections, " ");
    if Contains(text, folder) {
      CleanForm(AfterFirst(text, folder).value);
    } else {
      CleanForm(text);
    }
  }

  // ---------------------------------------------------------------------------
  // The per-folder table
  // ---------------------------------------------------------------------------

  /** One sub-folder of the base directory: its name and the OCR texts of
      its first image, or nothing when the folder is skipped (not a
      directory, no OD or OS folder, no image, an unreadable image). */
  datatype FolderScan = FolderScan(folder: string, detections: Option<seq<string>>)

  /** One folder's contribution to the table. */
  function AddScan(table: map<string, string>, scan: FolderScan): (r: Result<map<string, string>>)
    ensures scan.detections.None? ==> r == Ok(table)
    ensures scan.detections.Some? ==>
      r == (match EarTagNumber(scan.detections.value, scan.folder)
            case Err(e) => Err(e)
            case Ok(n) => Ok(table[scan.folder := n]))
  {
    match scan.detections
    case None => Ok(table)
    case Some(ds) =>
      match EarTagNumber(ds, scan.folder)
      case Err(e) => Err(e)
      case Ok(n) => Ok(table[scan.folder := n])
  }

  /** The table of ear-tag numbers by folder name, or the exception an
      empty folder name would raise. */
  function EarTagTable(scans: seq<FolderScan>): Result<map<string, string>>
  {
    if scans == [] then Ok(map[])
    else
      match EarTagTable(scans[..|scans| - 1])
      case Err(e) => Err(e)
      case Ok(table) => AddScan(table, scans[|scans| - 1])
  }

  /** The table has an entry exactly for the folders that were read. */
  lemma {:induction false} EarTagTableKeys(scans: seq<FolderScan>, folder: string)
    requires EarTagTable(scans).Ok?
    ensures folder in EarTagTable(scans).value
        <==> exists k :: 0 <= k < |scans| && scans[k].folder == folder && scans[k].detections.Some?
  {
    if scans != [] {
      var init := scans[..|scans| - 1];
      EarTagTableKeys(init, folder);
      assert forall k :: 0 <= k < |init| ==> init[k] == scans[k];
    }
  }

  /** `scans[k]` is the last scan of `folder` that was read. */
  predicate LastRead(scans: seq<FolderScan>, folder: string, k: int) {
    && 0 <= k < |scans| && scans[k].folder == folder && scans[k].detections.Some?
    && (forall j :: k < j < |scans| && scans[j].folder == folder ==> scans[j].detections.None?)
  }

  lemma LastReadExtend(scans: seq<FolderScan>, folder: string, k: int)
    requires scans != [] && LastRead(scans[..|scans| - 1], folder, k)
    requires scans[|scans| - 1].folder == folder ==> scans[|scans| - 1].detections.None?
    ensures LastRead(scans, folder, k)
  {
    var init := scans[..|scans| - 1];
    forall j | k < j < |scans| && scans[j].folder == folder
      ensures scans[j].detections.None?
    {
      if j < |init| {
        assert init[j] == scans[j];
      }
    }
  }

  /** Each entry is the number of the last scan of that folder. */
  lemma {:induction false} EarTagTableValues(scans: seq<FolderScan>, folder: string)
    requires EarTagTable(scans).Ok? && folder in EarTagTable(scans).value
    ensures exists k :: (LastRead(scans, folder, k)
      && EarTagNumber(scans[k].detections.value, folder) == Ok(EarTagTable(scans).value[folder]))
  {
    var init := scans[..|scans| - 1];
    var last := scans[|scans| - 1];
    var table := EarTagTable(init).value;
    if last.detections.Some? && last.folder == folder {
      assert LastRead(scans, folder, |scans| - 1);
    } else {
      EarTagTableValues(init, folder);
      var k :| LastRead(init, folder, k) && EarTagNumber(init[k].detections.value, folder) == Ok(table[folder]);
      LastReadExtend(scans, folder, k);
    }
  }

  /** An exception ends the scan: nothing after it changes the outcome. */
  lemma {:induction false} EarTagTableFailed(scans: seq<FolderScan>, i: nat, e: Error)
    requires i <= |scans| && EarTagTable(scans[..i]) == Err(e)
    ensures EarTagTable(scans) == Err(e)
  {
    if i == |scans| {
      assert scans[..i] == scans;
    } else {
      assert scans[..|scans| - 1][..i] == scans[..i];
      EarTagTableFailed(scans[..|scans| - 1], i, e);
    }
  }

  /** The folder loop of `determine_labID_in_cslo_images`. */
  method DetermineEarTags(scans: seq<FolderScan>) returns (r: Result<map<string, string>>)
    ensures r == EarTagTable(scans)
  {
    var table: map<string, string> := map[];
    for i := 0 to |scans|
      invariant EarTagTable(scans[..i]) == Ok(table)
    {
      assert scans[..i + 1][..i] == scans[..i];
      var scan := scans[i];
      if scan.detections.None? {
        continue;
      }
      var text := Join(scan.detections.value, " ");
      var earTag: string;
      if Contains(text, scan.folder) {
        if scan.folder == "" {
          assert EarTagTable(scans[..i + 1]) == Err(ValueError("empty separator"));
          EarTagTableFailed(scans, i + 1, ValueError("empty separator"));
          return Err(ValueError("empty separator"));
        }
        earTag := AfterFirst(text, scan.folder).value;
      } else {
        earTag := text;
      }
      earTag := Depunctuate(earTag);
      earTag := Strip(CollapseSpaces(earTag));
      table := table[scan.folder := earTag];
    }
    assert scans[..|scans|] == scans;
    return Ok(table);
  }
}
