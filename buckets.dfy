/** The table of candidate files per subject, eye and imager
    (`build_mouse_image_list`: `remove_unneeded_images` and
    `create_image_path_dic`). A table is the nested dict
    subject -> {"OD", "OS"} -> {"cslo", "oct"} -> list of paths. */
module Buckets {
  import opened Wrappers
  import opened Text
  import opened FileNames
  import opened ImageTypes

  // ---------------------------------------------------------------------------
  // Keeping the paths that are needed
  // ---------------------------------------------------------------------------

  /** `{obj.image_type_name for obj in self.image_type_objects}`. */
  function WantedNames(objs: seq<ImageType>): (r: set<string>)
    ensures forall k :: 0 <= k < |objs| ==> objs[k].typeName in r
    ensures forall n :: n in r ==> exists k :: 0 <= k < |objs| && objs[k].typeName == n
  {
    set k | 0 <= k < |objs| :: objs[k].typeName
  }

  /** Whether one path is kept: its subject is known and its modality is
      requested; a name that does not parse raises. */
  function Keep(path: string, imager: string, known: set<string>, wanted: set<string>): (r: Result<bool>)
  {
    match ConvertPathToBaseNameAndParts(path, imager)
    case Err(e) => Err(e)
    case Ok(p) => Ok(p.mouse in known && p.modality in wanted)
  }

  /** `remove_unneeded_images`: the kept paths in their order, or the error
      of the first path that does not parse. */
  function Needed(paths: seq<string>, imager: string, known: set<string>, wanted: set<string>): (r: Result<seq<string>>)
  {
    if paths == [] then Ok([])
    else
      match Keep(paths[0], imager, known, wanted)
      case Err(e) => Err(e)
      case Ok(b) =>
        match Needed(paths[1..], imager, known, wanted)
        case Err(e) => Err(e)
        case Ok(k) => Ok((if b then [paths[0]] else []) + k)
  }

  /** `a` is `b` with some elements left out. */
  predicate Subsequence(a: seq<string>, b: seq<string>)
  {
    a == [] || (b != [] && ((a[0] == b[0] && Subsequence(a[1..], b[1..])) || Subsequence(a, b[1..])))
  }

  /** The kept paths are a subsequence of the input: the order is kept. */
  lemma {:induction false} NeededSubsequence(paths: seq<string>, imager: string, known: set<string>, wanted: set<string>)
    requires Needed(paths, imager, known, wanted).Ok?
    ensures Subsequence(Needed(paths, imager, known, wanted).value, paths)
  {
    if paths != [] {
      NeededSubsequence(paths[1..], imager, known, wanted);
      var k := Needed(paths[1..], imager, known, wanted).value;
      if Keep(paths[0], imager, known, wanted).value {
        assert ([paths[0]] + k)[1..] == k;
      } else {
        assert [] + k == k;
      }
    }
  }

  /** A path is kept exactly when its subject is known and its modality is
      requested, whatever its imager. */
  lemma {:induction false} NeededMembers(paths: seq<string>, imager: string, known: set<string>, wanted: set<string>, x: string)
    requires Needed(paths, imager, known, wanted).Ok?
    ensures x in Needed(paths, imager, known, wanted).value <==>
      x in paths && Keep(x, imager, known, wanted) == Ok(true)
  {
    if paths != [] {
      NeededMembers(paths[1..], imager, known, wanted, x);
      assert paths == [paths[0]] + paths[1..];
    }
  }

  /** The filter fails exactly when some path does not parse. */
  lemma {:induction false} NeededErr(paths: seq<string>, imager: string, known: set<string>, wanted: set<string>)
    ensures Needed(paths, imager, known, wanted).Err? <==>
      exists k :: 0 <= k < |paths| && ConvertPathToBaseNameAndParts(paths[k], imager).Err?
  {
    if paths != [] {
      NeededErr(paths[1..], imager, known, wanted);
      if ConvertPathToBaseNameAndParts(paths[0], imager).Err? {
        assert 0 <= 0 < |paths|;
      }
      forall k | 1 <= k < |paths| ensures paths[k] == paths[1..][k - 1] {
      }
    }
  }

  function Then(kept: seq<string>, r: Result<seq<string>>): Result<seq<string>>
  {
    match r
    case Err(e) => Err(e)
    case Ok(k) => Ok(kept + k)
  }

  lemma ThenEmpty(r: Result<seq<string>>)
    ensures Then([], r) == r
  {
    if r.Ok? {
      assert [] + r.value == r.value;
    }
  }

  method RemoveUnneededImages(paths: seq<string>, imager: string, known: set<string>, wanted: set<string>)
    returns (r: Result<seq<string>>)
    ensures r == Needed(paths, imager, known, wanted)
  {
    var kept: seq<string> := [];
    var i := 0;
    assert paths[0..] == paths;
    ThenEmpty(Needed(paths, imager, known, wanted));
    while i < |paths|
      invariant 0 <= i <= |paths|
      invariant Needed(paths, imager, known, wanted) == Then(kept, Needed(paths[i..], imager, known, wanted))
    {
      var keep := Keep(paths[i], imager, known, wanted);
      NeededStep(paths, i, imager, known, wanted, kept);
      if keep.Err? {
        return Err(keep.error);
      }
      kept := kept + (if keep.value then [paths[i]] else []);
      i := i + 1;
    }
    r := Ok(kept);
    ThenNil(kept);
  }

  lemma ThenNil(kept: seq<string>)
    ensures Then(kept, Ok([])) == Ok(kept)
  {
    assert kept + [] == kept;
  }

  /** One step of the loop of `remove_unneeded_images`. */
  lemma NeededStep(paths: seq<string>, i: nat, imager: string, known: set<string>, wanted: set<string>, kept: seq<string>)
    requires i < |paths|
    ensures Keep(paths[i], imager, known, wanted).Err? ==>
      Then(kept, Needed(paths[i..], imager, known, wanted)) == Err(Keep(paths[i], imager, known, wanted).error)
    ensures Keep(paths[i], imager, known, wanted).Ok? ==>
      Then(kept, Needed(paths[i..], imager, known, wanted))
      == Then(kept + (if Keep(paths[i], imager, known, wanted).value then [paths[i]] else []),
              Needed(paths[i + 1..], imager, known, wanted))
  {
    assert paths[i..][0] == paths[i];
    assert paths[i..][1..] == paths[i + 1..];
    var rest := Needed(paths[i + 1..], imager, known, wanted);
    if Keep(paths[i], imager, known, wanted).Ok? && rest.Ok? {
      var b := Keep(paths[i], imager, known, wanted).value;
      assert kept + ((if b then [paths[i]] else []) + rest.value)
          == (kept + (if b then [paths[i]] else [])) + rest.value;
    }
  }

  // ---------------------------------------------------------------------------
  // The table
  // ---------------------------------------------------------------------------

  datatype ImagerLists = ImagerLists(cslo: seq<string>, oct: seq<string>)

  datatype EyeLists = EyeLists(od: ImagerLists, os: ImagerLists)

  /** `{"OD": {"cslo": [], "oct": []}, "OS": {"cslo": [], "oct": []}}`. */
  const EmptyEyes: EyeLists := EyeLists(ImagerLists([], []), ImagerLists([], []))

  type Table = map<string, EyeLists>

  /** `d[eye]`: only "OD" and "OS" are keys. */
  function EyeOf(d: EyeLists, eye: string): Option<ImagerLists>
  {
    if eye == "OD" then Some(d.od) else if eye == "OS" then Some(d.os) else None
  }

  /** `d[imager]`: only "cslo" and "oct" are keys. */
  function PathsOf(l: ImagerLists, imager: string): Option<seq<string>>
  {
    if imager == "cslo" then Some(l.cslo) else if imager == "oct" then Some(l.oct) else None
  }

  function WithEye(d: EyeLists, eye: string, l: ImagerLists): EyeLists
  {
    if eye == "OD" then d.(od := l) else d.(os := l)
  }

  function WithPaths(l: ImagerLists, imager: string, ps: seq<string>): ImagerLists
  {
    if imager == "cslo" then l.(cslo := ps) else l.(oct := ps)
  }

  /** The list at `t[mouse][eye][imager]`, or nothing when a key is missing. */
  function Bucket(t: Table, mouse: string, eye: string, imager: string): seq<string>
  {
    if mouse !in t then []
    else match EyeOf(t[mouse], eye)
      case None => []
      case Some(l) => match PathsOf(l, imager) case None => [] case Some(ps) => ps
  }

  /** A table and the error that stopped filling it, if any. */
  datatype Filled = Filled(table: Table, raised: Option<Error>)

  predicate IsEye(eye: string) { eye == "OD" || eye == "OS" }

  predicate IsImager(imager: string) { imager == "cslo" || imager == "oct" }

  /** The subject and eye a path is filed under. */
  function Key(path: string, imager: string): (string, string)
    requires ConvertPathToBaseNameAndParts(path, imager).Ok?
  {
    var p := ConvertPathToBaseNameAndParts(path, imager).value;
    (p.mouse, p.eye)
  }

  /** When one path can be filed: its name parses, its subject has lists
      (or gets them), its eye is OD or OS and its imager is cSLO or OCT. */
  predicate Fileable(t: Table, path: string, imager: string, create: bool)
  {
    ConvertPathToBaseNameAndParts(path, imager).Ok?
    && (Key(path, imager).0 in t || create) && IsEye(Key(path, imager).1) && IsImager(imager)
  }

  /** A path whose name parsed as (subject, eye), filed by
      `create_image_path_dic`. With `create` (the later version), an unseen
      subject first gets empty lists; without it (the main version, whose
      table starts with every known subject), an unseen subject is a
      `KeyError`, and so is an eye other than OD/OS. The path is appended to
      exactly one list and every other list stays as it was. */
  function FilePath(t: Table, mouse: string, eye: string, imager: string, path: string, create: bool): (r: Filled)
    ensures r.raised.None? <==> (mouse in t || create) && IsEye(eye) && IsImager(imager)
    ensures forall m :: m in r.table <==> (m in t || (create && m == mouse))
  {
    var t1 := if mouse !in t && create then t[mouse := EmptyEyes] else t;
    if mouse !in t1 then Filled(t1, Some(KeyError(mouse)))
    else match EyeOf(t1[mouse], eye)
      case None => Filled(t1, Some(KeyError(eye)))
      case Some(l) =>
        match PathsOf(l, imager)
        case None => Filled(t1, Some(KeyError(imager)))
        case Some(ps) =>
          Filled(t1[mouse := WithEye(t1[mouse], eye, WithPaths(l, imager, ps + [path]))], None)
  }

  /** Filing appends the path to exactly one list; every other list, and
      every list after an error, stays as it was. */
  lemma FilePathBuckets(t: Table, mouse: string, eye: string, imager: string, path: string, create: bool,
                        m: string, e: string, i: string)
    ensures FilePath(t, mouse, eye, imager, path, create).raised.None? ==>
      Bucket(FilePath(t, mouse, eye, imager, path, create).table, m, e, i)
        == Bucket(t, m, e, i) + (if m == mouse && e == eye && i == imager then [path] else [])
    ensures FilePath(t, mouse, eye, imager, path, create).raised.Some? ==>
      Bucket(FilePath(t, mouse, eye, imager, path, create).table, m, e, i) == Bucket(t, m, e, i)
  {
    var t1 := if mouse !in t && create then t[mouse := EmptyEyes] else t;
    assert Bucket(t1, m, e, i) == Bucket(t, m, e, i);
  }

  /** One path of `create_image_path_dic`: parse it, then file it. */
  function AddPath(t: Table, path: string, imager: string, create: bool): Filled
  {
    match ConvertPathToBaseNameAndParts(path, imager)
    case Err(err) => Filled(t, Some(err))
    case Ok(p) => FilePath(t, p.mouse, p.eye, imager, path, create)
  }

  /** `create_image_path_dic` over a list: path by path, stopping at the
      first error with the lists filled so far. */
  function AddAll(t: Table, paths: seq<string>, imager: string, create: bool): Filled
    decreases paths
  {
    if paths == [] then Filled(t, None)
    else
      var f := AddPath(t, paths[0], imager, create);
      if f.raised.Some? then f else AddAll(f.table, paths[1..], imager, create)
  }

  /** The paths, in their order, that name `mouse` and `eye`. */
  function Matching(paths: seq<string>, imager: string, mouse: string, eye: string): seq<string>
  {
    if paths == [] then []
    else
      (if ConvertPathToBaseNameAndParts(paths[0], imager).Ok? && Key(paths[0], imager) == (mouse, eye)
       then [paths[0]] else [])
      + Matching(paths[1..], imager, mouse, eye)
  }

  /** One filed path is appended to its own list only. */
  lemma AddPathBuckets(t: Table, path: string, imager: string, create: bool, m: string, e: string, i: string)
    requires AddPath(t, path, imager, create).raised.None?
    ensures ConvertPathToBaseNameAndParts(path, imager).Ok?
    ensures Bucket(AddPath(t, path, imager, create).table, m, e, i)
         == Bucket(t, m, e, i) + (if Key(path, imager) == (m, e) && i == imager then [path] else [])
  {
    var p := ConvertPathToBaseNameAndParts(path, imager);
    assert p.Ok?;
    assert AddPath(t, path, imager, create) == FilePath(t, p.value.mouse, p.value.eye, imager, path, create);
    FilePathBuckets(t, p.value.mouse, p.value.eye, imager, path, create, m, e, i);
  }

  /** Each list ends up as it was followed by the paths, in their order,
      that name its subject and eye; lists of the other imager do not change. */
  lemma {:induction false} AddAllBuckets(t: Table, paths: seq<string>, imager: string, create: bool,
                                         m: string, e: string, i: string)
    requires AddAll(t, paths, imager, create).raised.None?
    ensures Bucket(AddAll(t, paths, imager, create).table, m, e, i)
         == Bucket(t, m, e, i) + (if i == imager then Matching(paths, imager, m, e) else [])
    decreases paths
  {
    if paths != [] {
      var f := AddPath(t, paths[0], imager, create);
      var b := Bucket(t, m, e, i);
      assert f.raised.None? && AddAll(t, paths, imager, create) == AddAll(f.table, paths[1..], imager, create);
      var more := if i == imager then Matching(paths[1..], imager, m, e) else [];
      assert Bucket(AddAll(t, paths, imager, create).table, m, e, i) == Bucket(f.table, m, e, i) + more by {
        AddAllBuckets(f.table, paths[1..], imager, create, m, e, i);
      }
      AddPathBuckets(t, paths[0], imager, create, m, e, i);
      var head := if Key(paths[0], imager) == (m, e) && i == imager then [paths[0]] else [];
      assert Bucket(f.table, m, e, i) == b + head;
      Associative(b, head, more);
      assert head + more == if i == imager then Matching(paths, imager, m, e) else [];
    } else {
      assert Bucket(t, m, e, i) + [] == Bucket(t, m, e, i);
    }
  }

  lemma Associative(a: seq<string>, b: seq<string>, c: seq<string>)
    ensures (a + b) + c == a + (b + c)
  {
  }

  /** Every path parses, names a subject the table has, and an OD or OS eye. */
  predicate AllFileable(t: Table, paths: seq<string>, imager: string)
  {
    forall k :: 0 <= k < |paths| ==>
      ConvertPathToBaseNameAndParts(paths[k], imager).Ok?
      && Key(paths[k], imager).0 in t && IsEye(Key(paths[k], imager).1)
  }

  /** Paths that can all be filed are filed without an error. */
  lemma {:induction false} AddAllClean(t: Table, paths: seq<string>, imager: string, create: bool)
    requires IsImager(imager) && AllFileable(t, paths, imager)
    ensures AddAll(t, paths, imager, create).raised.None?
    decreases paths
  {
    if paths != [] {
      var p := ConvertPathToBaseNameAndParts(paths[0], imager);
      assert p.Ok? && p.value.mouse in t && IsEye(p.value.eye);
      var f := AddPath(t, paths[0], imager, create);
      assert f == FilePath(t, p.value.mouse, p.value.eye, imager, paths[0], create);
      forall k | 0 <= k < |paths[1..]|
        ensures ConvertPathToBaseNameAndParts(paths[1..][k], imager).Ok?
             && Key(paths[1..][k], imager).0 in f.table && IsEye(Key(paths[1..][k], imager).1)
      {
        assert paths[1..][k] == paths[k + 1];
      }
      AddAllClean(f.table, paths[1..], imager, create);
    }
  }

  /** The main version's table: every known subject with empty lists. */
  function InitialTable(mice: seq<string>): (t: Table)
    ensures forall m :: m in t <==> m in mice
    ensures forall m, e, i :: Bucket(t, m, e, i) == []
  {
    map m | m in mice :: EmptyEyes
  }

  /** Filtering then filing both lists. */
  function Build(t: Table, csloPaths: seq<string>, octPaths: seq<string>,
                 known: set<string>, wanted: set<string>, create: bool): Filled
  {
    match Needed(csloPaths, "cslo", known, wanted)
    case Err(e) => Filled(t, Some(e))
    case Ok(cslo) =>
      match Needed(octPaths, "oct", known, wanted)
      case Err(e) => Filled(t, Some(e))
      case Ok(oct) =>
        var f := AddAll(t, cslo, "cslo", create);
        if f.raised.Some? then f else AddAll(f.table, oct, "oct", create)
  }

  /** The table of candidate images, `self.mouse_image_list`. */
  class MouseImageList {
    var table: Table

    /** The main version starts with every subject of the settings. */
    constructor (mice: seq<string>)
      ensures table == InitialTable(mice)
    {
      table := map m | m in mice :: EmptyEyes;
    }

    /** `create_image_path_dic`. */
    method CreateImagePathDic(paths: seq<string>, imager: string, create: bool) returns (raised: Option<Error>)
      modifies this
      ensures Filled(table, raised) == AddAll(old(table), paths, imager, create)
    {
      var i := 0;
      assert paths[0..] == paths;
      while i < |paths|
        invariant 0 <= i <= |paths|
        invariant AddAll(old(table), paths, imager, create) == AddAll(table, paths[i..], imager, create)
      {
        assert paths[i..][1..] == paths[i + 1..];
        var f := AddPath(table, paths[i], imager, create);
        table := f.table;
        if f.raised.Some? {
          return f.raised;
        }
        i := i + 1;
      }
      raised := None;
    }

    /** `build_mouse_image_list` after the directories are listed: keep the
        needed paths of each imager, then file the cSLO and the OCT ones. */
    method BuildMouseImageList(csloPaths: seq<string>, octPaths: seq<string>,
                               known: set<string>, wanted: set<string>, create: bool)
      returns (raised: Option<Error>)
      modifies this
      ensures Filled(table, raised) == Build(old(table), csloPaths, octPaths, known, wanted, create)
    {
      var cslo := RemoveUnneededImages(csloPaths, "cslo", known, wanted);
      if cslo.Err? {
        return Some(cslo.error);
      }
      var oct := RemoveUnneededImages(octPaths, "oct", known, wanted);
      if oct.Err? {
        return Some(oct.error);
      }
      raised := CreateImagePathDic(cslo.value, "cslo", create);
      if raised.Some? {
        return;
      }
      raised := CreateImagePathDic(oct.value, "oct", create);
    }
  }

  /** After a clean build, each subject's cSLO and OCT lists hold exactly the
      needed paths naming that subject and eye, in their order. */
  lemma BuildBuckets(t: Table, csloPaths: seq<string>, octPaths: seq<string>,
                     known: set<string>, wanted: set<string>, create: bool, m: string, e: string)
    requires Build(t, csloPaths, octPaths, known, wanted, create).raised.None?
    ensures Needed(csloPaths, "cslo", known, wanted).Ok? && Needed(octPaths, "oct", known, wanted).Ok?
    ensures Bucket(Build(t, csloPaths, octPaths, known, wanted, create).table, m, e, "cslo")
         == Bucket(t, m, e, "cslo") + Matching(Needed(csloPaths, "cslo", known, wanted).value, "cslo", m, e)
    ensures Bucket(Build(t, csloPaths, octPaths, known, wanted, create).table, m, e, "oct")
         == Bucket(t, m, e, "oct") + Matching(Needed(octPaths, "oct", known, wanted).value, "oct", m, e)
  {
    var cslo := Needed(csloPaths, "cslo", known, wanted).value;
    var oct := Needed(octPaths, "oct", known, wanted).value;
    var f := AddAll(t, cslo, "cslo", create);
    AddAllBuckets(t, cslo, "cslo", create, m, e, "cslo");
    AddAllBuckets(t, cslo, "cslo", create, m, e, "oct");
    AddAllBuckets(f.table, oct, "oct", create, m, e, "cslo");
    AddAllBuckets(f.table, oct, "oct", create, m, e, "oct");
    assert Bucket(f.table, m, e, "cslo") + [] == Bucket(f.table, m, e, "cslo");
    assert Bucket(t, m, e, "oct") + [] == Bucket(t, m, e, "oct");
  }

  /** Kept paths name known subjects. */
  lemma NeededKnown(paths: seq<string>, imager: string, known: set<string>, wanted: set<string>, k: nat)
    requires Needed(paths, imager, known, wanted).Ok? && k < |Needed(paths, imager, known, wanted).value|
    ensures ConvertPathToBaseNameAndParts(Needed(paths, imager, known, wanted).value[k], imager).Ok?
    ensures Key(Needed(paths, imager, known, wanted).value[k], imager).0 in known
  {
    var x := Needed(paths, imager, known, wanted).value[k];
    NeededMembers(paths, imager, known, wanted, x);
  }
}
