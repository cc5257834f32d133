/** Reading subject id, eye, modality and sequence number out of an image
    file name (`convert_path_to_base_name_and_parts`), with the parts of
    `os.path` it uses. Paths use '/' as the separator. */
module FileNames {
  import opened Wrappers
  import opened Text

  /** Index of the last occurrence of `c` in `s`. */
  function LastIndexOf(s: string, c: char): (r: Option<nat>)
    ensures r.Some? ==> r.value < |s|
  {
    if s == [] then None
    else if s[|s| - 1] == c then Some(|s| - 1)
    else LastIndexOf(s[..|s| - 1], c)
  }

  /** The index found holds `c` and no later character does; `None` means
      `c` does not occur. */
  lemma {:induction false} LastIndexOfSpec(s: string, c: char)
    ensures var r := LastIndexOf(s, c);
      && (r.Some? ==> s[r.value] == c && Lacks(s[r.value + 1..], c))
      && (r.None? ==> Lacks(s, c))
  {
    if s != [] && s[|s| - 1] != c {
      var init := s[..|s| - 1];
      LastIndexOfSpec(init, c);
      var r := LastIndexOf(init, c);
      if r.Some? {
        assert s[r.value + 1..] == init[r.value + 1..] + [s[|s| - 1]];
      } else {
        assert forall i :: 0 <= i < |init| ==> s[i] == init[i];
      }
    }
  }

  /** `os.path.basename`: the text after the last '/'. */
  function Basename(path: string): string
  {
    match LastIndexOf(path, '/')
    case None => path
    case Some(i) => path[i + 1..]
  }

  /** The base name is a suffix of the path without a '/'. */
  lemma BasenameSpec(path: string)
    ensures Lacks(Basename(path), '/')
    ensures EndsWith(path, Basename(path))
  {
    LastIndexOfSpec(path, '/');
  }

  predicate AllDots(s: string) { forall i :: 0 <= i < |s| ==> s[i] == '.' }

  /** `os.path.splitext` of a name without separators: the extension starts
      at the last '.', provided some character before it is not a '.'
      (so ".tif" and "..tif" have no extension). */
  function SplitExt(name: string): (string, string)
  {
    match LastIndexOf(name, '.')
    case None => (name, "")
    case Some(d) =>
      if AllDots(name[..d]) then (name, "")
      else (name[..d], name[d..])
  }

  /** Root and extension make up the name, and the extension is empty or a
      '.' with no other '.'. */
  lemma SplitExtSpec(name: string)
    ensures var r := SplitExt(name);
      && r.0 + r.1 == name
      && (r.1 == [] || (r.1[0] == '.' && Lacks(r.1[1..], '.')))
  {
    LastIndexOfSpec(name, '.');
    var r := LastIndexOf(name, '.');
    if r.Some? && !AllDots(name[..r.value]) {
      var d := r.value;
      assert name[..d] + name[d..] == name;
      assert name[d..][1..] == name[d + 1..];
    }
  }

  /** The extensions the program accepts, compared after `.lower()`. */
  const ImageExtensions: set<string> := {".jpg", ".jpeg", ".png", ".tif", ".tiff", ".bmp"}

  /** `os.path.splitext(f)[1].lower() in image_extensions`. */
  predicate HasImageExtension(fileName: string) {
    Lower(SplitExt(fileName).1) in ImageExtensions
  }

  /** The sequence-number field: a cSLO name carries it as text, an OCT
      name has the integer literal 0 in its place. */
  datatype ImageNumber = NumberText(text: string) | NumberZero

  /** `int(image_number)`; text that is not an integer is a `ValueError`. */
  function ImageNumberValue(n: ImageNumber): Option<int>
  {
    match n
    case NumberText(t) => ParseInt(t)
    case NumberZero => Some(0)
  }

  datatype NameParts = NameParts(
    baseName: string,
    imageNumber: ImageNumber,
    mouse: string,
    eye: string,
    modality: string)

  /** The base name: the file name without its directory and last extension. */
  function BaseName(path: string): string
  {
    SplitExt(Basename(path)).0
  }

  /** `convert_path_to_base_name_and_parts`: a cSLO name is
      `<seq>_<mouse>_<eye>_<modality>`, an OCT name `<mouse>_<eye>_<modality>`
      (extra fields are ignored); too few fields is an `IndexError`, and an
      imager that is neither gives empty strings. */
  function ConvertPathToBaseNameAndParts(path: string, imager: string): (r: Result<NameParts>)
    ensures r.Err? <==> ((imager == "cslo" && |Split(BaseName(path), '_')| < 4)
                      || (imager == "oct" && |Split(BaseName(path), '_')| < 3))
    ensures r.Ok? ==> r.value.baseName == BaseName(path)
    ensures r.Ok? && imager == "oct" ==> r.value.imageNumber == NumberZero
    ensures r.Ok? && imager != "cslo" && imager != "oct" ==>
      r.value == NameParts(BaseName(path), NumberText(""), "", "", "")
  {
    var base := BaseName(path);
    var parts := Split(base, '_');
    if imager == "cslo" then
      if |parts| < 4 then Err(IndexError("list index out of range"))
      else Ok(NameParts(base, NumberText(parts[0]), parts[1], parts[2], parts[3]))
    else if imager == "oct" then
      if |parts| < 3 then Err(IndexError("list index out of range"))
      else Ok(NameParts(base, NumberZero, parts[0], parts[1], parts[2]))
    else Ok(NameParts(base, NumberText(""), "", "", ""))
  }

  /** A field of a file name: no '_' (the field separator) and no '/'. */
  predicate Field(s: string) { Lacks(s, '_') && Lacks(s, '/') }

  /** A file extension: a '.' followed by characters other than '.' and '/'. */
  predicate Extension(e: string) { |e| > 0 && e[0] == '.' && Lacks(e[1..], '.') && Lacks(e, '/') }

  lemma {:induction false} BaseNameOf(dir: string, base: string, ext: string)
    requires Lacks(base, '/') && Extension(ext)
    requires exists i :: 0 <= i < |base| && base[i] != '.'
    ensures BaseName(dir + "/" + base + ext) == base
  {
    var path := dir + "/" + base + ext;
    var name := base + ext;
    assert path == (dir + "/") + name;
    LastSlash(dir + "/", name);
    assert Basename(path) == name;
    LastDot(base, ext);
    var d := |base|;
    assert name[..d] == base;
    var i :| 0 <= i < |base| && base[i] != '.';
    assert name[..d][i] != '.';
  }

  /** The last `c` of `p + q` is the last character of `p` when `q` has none. */
  lemma {:induction false} LastIndexOfTail(p: string, q: string, c: char)
    requires |p| > 0 && p[|p| - 1] == c && Lacks(q, c)
    ensures LastIndexOf(p + q, c) == Some(|p| - 1)
  {
    if q != [] {
      var q' := q[..|q| - 1];
      assert (p + q)[..|p + q| - 1] == p + q';
      LastIndexOfTail(p, q', c);
    } else {
      assert p + q == p;
    }
  }

  lemma LastSlash(prefix: string, name: string)
    requires |prefix| > 0 && prefix[|prefix| - 1] == '/' && Lacks(name, '/')
    ensures Basename(prefix + name) == name
  {
    LastIndexOfTail(prefix, name, '/');
    assert (prefix + name)[|prefix|..] == name;
  }

  lemma LastDot(base: string, ext: string)
    requires Extension(ext)
    ensures LastIndexOf(base + ext, '.') == Some(|base|)
  {
    LastIndexOfTail(base + ext[..1], ext[1..], '.');
    assert base + ext == base + ext[..1] + ext[1..];
  }

  /** A cSLO file `<dir>/<seq>_<mouse>_<eye>_<modality><ext>` gives its
      four fields back. */
  lemma CsloNameRoundTrip(dir: string, fields: seq<string>, ext: string)
    requires |fields| == 4 && forall k :: 0 <= k < 4 ==> Field(fields[k])
    requires Extension(ext)
    ensures ConvertPathToBaseNameAndParts(dir + "/" + Join(fields, "_") + ext, "cslo")
         == Ok(NameParts(Join(fields, "_"), NumberText(fields[0]), fields[1], fields[2], fields[3]))
  {
    var base := Join(fields, "_");
    JoinedFieldsOk(fields);
    BaseNameOf(dir, base, ext);
    SplitJoin(fields, '_');
  }

  /** An OCT file `<dir>/<mouse>_<eye>_<modality><ext>` gives its three
      fields back and sequence number 0. */
  lemma OctNameRoundTrip(dir: string, fields: seq<string>, ext: string)
    requires |fields| == 3 && forall k :: 0 <= k < 3 ==> Field(fields[k])
    requires Extension(ext)
    ensures ConvertPathToBaseNameAndParts(dir + "/" + Join(fields, "_") + ext, "oct")
         == Ok(NameParts(Join(fields, "_"), NumberZero, fields[0], fields[1], fields[2]))
  {
    var base := Join(fields, "_");
    JoinedFieldsOk(fields);
    BaseNameOf(dir, base, ext);
    SplitJoin(fields, '_');
  }

  /** Joining two or more '/'-free fields with '_' gives a '/'-free name
      with a character other than '.' in it. */
  lemma {:induction false} JoinedFieldsOk(fields: seq<string>)
    requires |fields| >= 2 && forall k :: 0 <= k < |fields| ==> Field(fields[k])
    ensures Lacks(Join(fields, "_"), '/')
    ensures |fields[0]| < |Join(fields, "_")| && Join(fields, "_")[|fields[0]|] == '_'
  {
    var rest := Join(fields[1..], "_");
    if |fields| > 2 {
      JoinedFieldsOk(fields[1..]);
    }
    var s := fields[0] + "_" + rest;
    assert Join(fields, "_") == s;
    forall i | 0 <= i < |s| ensures s[i] != '/' {
      if i < |fields[0]| {
        assert s[i] == fields[0][i];
      } else if i > |fields[0]| {
        assert s[i] == rest[i - |fields[0]| - 1];
      }
    }
  }
}
