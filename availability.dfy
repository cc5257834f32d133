/** The list of image types the selection dialog offers
    (`determine_what_images_are_available`): one "OCT <modality>" per OCT
    file, and for cSLO the most images of a type any one subject eye has,
    spelled out as "cSLO T" or as "cSLO T (1st)" ... "cSLO T (kth)" plus
    "cSLO T [select]". */
module Availability {
  import opened Wrappers
  import opened Text
  import opened FileNames
  import opened ImageTypes
  import opened Sorting

  // ---------------------------------------------------------------------------
  // Python dicts, which iterate in insertion order, as association lists
  // ---------------------------------------------------------------------------

  function Get<V>(d: seq<(string, V)>, k: string): Option<V>
  {
    if d == [] then None else if d[0].0 == k then Some(d[0].1) else Get(d[1..], k)
  }

  function GetOr<V>(d: seq<(string, V)>, k: string, default: V): V
  {
    match Get(d, k) case None => default case Some(v) => v
  }

  function Keys<V>(d: seq<(string, V)>): (r: seq<string>)
    ensures |r| == |d| && forall i :: 0 <= i < |d| ==> r[i] == d[i].0
  {
    if d == [] then [] else [d[0].0] + Keys(d[1..])
  }

  /** `d[k] = v`: an existing key keeps its place, a new key goes last. */
  function Put<V>(d: seq<(string, V)>, k: string, v: V): (r: seq<(string, V)>)
    ensures Get(r, k) == Some(v)
    ensures forall k' :: k' != k ==> Get(r, k') == Get(d, k')
    ensures Keys(r) == if k in Keys(d) then Keys(d) else Keys(d) + [k]
  {
    if d == [] then [(k, v)]
    else if d[0].0 == k then [(k, v)] + d[1..]
    else [d[0]] + Put(d[1..], k, v)
  }

  predicate DistinctKeys<V>(d: seq<(string, V)>)
  {
    forall i, j :: 0 <= i < j < |d| ==> d[i].0 != d[j].0
  }

  lemma PutDistinct<V>(d: seq<(string, V)>, k: string, v: V)
    requires DistinctKeys(d)
    ensures DistinctKeys(Put(d, k, v))
  {
    var r := Put(d, k, v);
    assert Keys(r) == if k in Keys(d) then Keys(d) else Keys(d) + [k];
    forall i, j | 0 <= i < j < |r| ensures r[i].0 != r[j].0 {
      assert Keys(r)[i] == r[i].0 && Keys(r)[j] == r[j].0;
      if j < |d| {
        assert Keys(d)[i] == d[i].0 && Keys(d)[j] == d[j].0;
      } else if k !in Keys(d) {
        assert Keys(d)[i] == d[i].0;
      }
    }
  }

  /** Per type, how many images one subject eye has. */
  type Counts = seq<(string, nat)>

  /** Per "mouse_eye", the counts of that eye (`cslo_images_dic`). */
  type Table = seq<(string, Counts)>

  // ---------------------------------------------------------------------------
  // OCT types
  // ---------------------------------------------------------------------------

  /** The files that count as images: their last extension, lower-cased, is
      one of the image extensions. */
  function ImageFiles(files: seq<string>): (r: seq<string>)
    ensures forall f :: f in r <==> f in files && HasImageExtension(f)
  {
    if files == [] then []
    else (if HasImageExtension(files[0]) then [files[0]] else []) + ImageFiles(files[1..])
  }

  /** The OCT type of a file as the program writes it: "OCT " and the third
      '_' field of the whole file name, extension included. */
  function OctTypeAsWritten(fileName: string): (r: Result<string>)
    ensures r.Err? <==> |Split(fileName, '_')| < 3
  {
    var parts := Split(fileName, '_');
    if |parts| < 3 then Err(IndexError("list index out of range")) else Ok("OCT " + parts[2])
  }

  /** The OCT type of a file: "OCT " and the third '_' field of its base
      name, the same field `convert_path_to_base_name_and_parts` reads as
      the modality. */
  function OctType(fileName: string): (r: Result<string>)
    ensures r.Err? <==> |Split(SplitExt(fileName).0, '_')| < 3
  {
    var parts := Split(SplitExt(fileName).0, '_');
    if |parts| < 3 then Err(IndexError("list index out of range")) else Ok("OCT " + parts[2])
  }

  /** What adding the types of a run of OCT files leaves, and the error
      that stopped it, if any. */
  datatype Progress = Progress(types: set<string>, raised: Option<Error>)

  function OctTypes(start: set<string>, files: seq<string>): (p: Progress)
    ensures start <= p.types
  {
    if files == [] then Progress(start, None)
    else
      var p := OctTypes(start, files[..|files| - 1]);
      if p.raised.Some? then p
      else match OctType(files[|files| - 1])
        case Err(e) => Progress(p.types, Some(e))
        case Ok(t) => Progress(p.types + {t}, None)
  }

  /** The OCT types of the files that have one. */
  function OctTypesOf(files: seq<string>): set<string>
  {
    set f | f in files && OctType(f).Ok? :: OctType(f).value
  }

  /** `files[i]` is the first file whose base name has fewer than three
      '_' fields. */
  predicate FirstBadOct(files: seq<string>, i: int)
  {
    && 0 <= i < |files| && |Split(SplitExt(files[i]).0, '_')| < 3
    && forall j :: 0 <= j < i ==> |Split(SplitExt(files[j]).0, '_')| >= 3
  }

  /** The OCT loop adds the type of every file when every base name has
      three '_' fields; otherwise it raises IndexError at the first file
      that does not, keeping the types of the files before it. */
  lemma {:induction false} OctTypesSpec(start: set<string>, files: seq<string>)
    ensures var p := OctTypes(start, files);
      && (p.raised.None? <==> forall k :: 0 <= k < |files| ==> |Split(SplitExt(files[k]).0, '_')| >= 3)
      && (p.raised.None? ==> p.types == start + OctTypesOf(files))
      && (p.raised.Some? ==>
            && p.raised == Some(IndexError("list index out of range"))
            && exists i :: FirstBadOct(files, i) && p.types == start + OctTypesOf(files[..i]))
  {
    if files != [] {
      var init := files[..|files| - 1];
      var last := files[|files| - 1];
      assert files == init + [last];
      OctTypesSpec(start, init);
      var p := OctTypes(start, init);
      if p.raised.Some? {
        var i :| FirstBadOct(init, i) && p.types == start + OctTypesOf(init[..i]);
        assert init[..i] == files[..i];
        assert FirstBadOct(files, i);
      } else if OctType(last).Err? {
        assert FirstBadOct(files, |files| - 1);
      } else {
        assert OctTypesOf(files) == OctTypesOf(init) + {OctType(last).value};
      }
    }
  }

  /** The name of an OCT file: `<mouse>_<eye>_<modality><ext>`. */
  function OctFileName(mouse: string, eye: string, modality: string, ext: string): string
  {
    Join([mouse, eye, modality], "_") + ext
  }

  predicate OctFileParts(mouse: string, eye: string, modality: string, ext: string)
  {
    Field(mouse) && Field(eye) && Field(modality) && Extension(ext) && Lacks(ext, '_')
  }

  /** As written, the offered type keeps the file's extension, while
      `convert_path_to_base_name_and_parts` gives the modality without it,
      so the slot lookup (`modality == type_name`) never matches. */
  lemma OctTypeAsWrittenKeepsExtension(dir: string, mouse: string, eye: string, modality: string, ext: string)
    requires OctFileParts(mouse, eye, modality, ext)
    ensures OctTypeAsWritten(OctFileName(mouse, eye, modality, ext)) == Ok("OCT " + modality + ext)
    ensures ConvertPathToBaseNameAndParts(dir + "/" + OctFileName(mouse, eye, modality, ext), "oct").Ok?
    ensures ConvertPathToBaseNameAndParts(dir + "/" + OctFileName(mouse, eye, modality, ext), "oct").value.modality
         == modality != modality + ext
  {
    var name := OctFileName(mouse, eye, modality, ext);
    OctFileNameFields(mouse, eye, modality, ext);
    assert Split(name, '_')[2] == modality + ext;
    assert "OCT " + modality + ext == "OCT " + (modality + ext);
    OctTypeOfFile(dir, mouse, eye, modality, ext);
    assert |modality + ext| > |modality|;
  }

  /** Splitting a whole OCT file name on '_' leaves the extension on the last field. */
  lemma OctFileNameFields(mouse: string, eye: string, modality: string, ext: string)
    requires OctFileParts(mouse, eye, modality, ext)
    ensures Split(OctFileName(mouse, eye, modality, ext), '_') == [mouse, eye, modality + ext]
  {
    var tail := modality + ext;
    assert Lacks(tail, '_') by {
      forall i | 0 <= i < |tail| ensures tail[i] != '_' {
        if i >= |modality| {
          assert tail[i] == ext[i - |modality|];
        }
      }
    }
    JoinThree(mouse, eye, tail);
    JoinThree(mouse, eye, modality);
    assert OctFileName(mouse, eye, modality, ext) == Join([mouse, eye, tail], "_");
    SplitJoin([mouse, eye, tail], '_');
  }

  lemma JoinThree(a: string, b: string, c: string)
    ensures Join([a, b, c], "_") == a + "_" + (b + "_" + c)
  {
    assert [a, b, c][1..] == [b, c] && [b, c][1..] == [c];
    assert Join([c], "_") == c;
    assert Join([b, c], "_") == b + "_" + c;
  }

  /** Corrected: the offered type is "OCT <modality>", the modality
      `convert_path_to_base_name_and_parts` reads from the same file. */
  lemma OctTypeOfFile(dir: string, mouse: string, eye: string, modality: string, ext: string)
    requires OctFileParts(mouse, eye, modality, ext)
    ensures OctType(OctFileName(mouse, eye, modality, ext)) == Ok("OCT " + modality)
    ensures ConvertPathToBaseNameAndParts(dir + "/" + OctFileName(mouse, eye, modality, ext), "oct").Ok?
    ensures ConvertPathToBaseNameAndParts(dir + "/" + OctFileName(mouse, eye, modality, ext), "oct").value.modality
         == modality
  {
    var fields := [mouse, eye, modality];
    var base := Join(fields, "_");
    var name := base + ext;
    JoinedFieldsOk(fields);
    assert Lacks(name, '/') by {
      forall i | 0 <= i < |name| ensures name[i] != '/' {
        if i >= |base| {
          assert name[i] == ext[i - |base|];
        }
      }
    }
    var path := dir + "/" + base + ext;
    assert path == (dir + "/") + name;
    LastSlash(dir + "/", name);
    BaseNameOf(dir, base, ext);
    SplitJoin(fields, '_');
    OctNameRoundTrip(dir, fields, ext);
  }

  /** Corrected, continued: the selection string "OCT <modality>" reads
      back as an "oct" slot whose type name is that modality. */
  lemma OctRequestReadsBack(modality: string, customName: string)
    requires PlainName(modality)
    ensures FromTuple("OCT " + modality, customName)
         == Ok(ImageType("oct", modality, false, None, customName))
  {
    assert Request("OCT", modality, false, None) == "OCT " + modality;
    FromTupleOfRequest("OCT", modality, false, None, customName);
    LowerImagers();
  }

  // ---------------------------------------------------------------------------
  // cSLO counts
  // ---------------------------------------------------------------------------

  /** `image_number, mouse_number, eye, image_type = image_base.split("_")`:
      exactly four fields, or a `ValueError`; gives "mouse_eye" and the type. */
  function CsloFields(fileName: string): (r: Result<(string, string)>)
    ensures r.Err? <==> |Split(SplitExt(fileName).0, '_')| != 4
  {
    var parts := Split(SplitExt(fileName).0, '_');
    if |parts| != 4 then Err(ValueError("expected 4 fields in the file name"))
    else Ok((parts[1] + "_" + parts[2], parts[3]))
  }

  /** The (mouse_eye, type) pairs of a run of cSLO files. */
  function CsloPairs(files: seq<string>): (r: Result<seq<(string, string)>>)
    ensures r.Ok? ==> |r.value| == |files|
  {
    if files == [] then Ok([])
    else
      var pairs :- CsloPairs(files[..|files| - 1]);
      var pair :- CsloFields(files[|files| - 1]);
      Ok(pairs + [pair])
  }

  /** `counts[k] += 1`, starting a new key at 0. */
  function Bump(c: Counts, k: string): Counts
  {
    Put(c, k, GetOr(c, k, 0) + 1)
  }

  /** The counting loop over the pairs. */
  function CountTable(pairs: seq<(string, string)>): Table
  {
    if pairs == [] then []
    else
      var t := CountTable(pairs[..|pairs| - 1]);
      var (me, ty) := pairs[|pairs| - 1];
      Put(t, me, Bump(GetOr(t, me, []), ty))
  }

  /** How often a pair occurs. */
  function Occurrences(pairs: seq<(string, string)>, me: string, ty: string): nat
  {
    if pairs == [] then 0
    else Occurrences(pairs[..|pairs| - 1], me, ty) + (if pairs[|pairs| - 1] == (me, ty) then 1 else 0)
  }

  lemma GetOrPut<V>(d: seq<(string, V)>, k: string, v: V, key: string, default: V)
    ensures GetOr(Put(d, k, v), key, default) == if key == k then v else GetOr(d, key, default)
  {
  }

  lemma BumpCount(c: Counts, k: string, key: string)
    ensures GetOr(Bump(c, k), key, 0) == GetOr(c, key, 0) + (if key == k then 1 else 0)
  {
    GetOrPut(c, k, GetOr(c, k, 0) + 1, key, 0);
  }

  /** The table counts every (mouse_eye, type) pair. */
  lemma {:induction false} CountTableCounts(pairs: seq<(string, string)>, me: string, ty: string)
    ensures GetOr(GetOr(CountTable(pairs), me, []), ty, 0) == Occurrences(pairs, me, ty)
  {
    if pairs != [] {
      var init := pairs[..|pairs| - 1];
      var (me', ty') := pairs[|pairs| - 1];
      var t := CountTable(init);
      CountTableCounts(init, me, ty);
      GetOrPut(t, me', Bump(GetOr(t, me', []), ty'), me, []);
      if me == me' {
        BumpCount(GetOr(t, me', []), ty', ty);
      }
    }
  }

  lemma {:induction false} GetFound<V>(d: seq<(string, V)>, k: string)
    requires Get(d, k).Some?
    ensures exists i :: 0 <= i < |d| && d[i] == (k, Get(d, k).value)
  {
    if d[0].0 != k {
      GetFound(d[1..], k);
      var i :| 0 <= i < |d[1..]| && d[1..][i] == (k, Get(d, k).value);
      assert d[i + 1] == d[1..][i];
    }
  }

  /** Every dict in the table has distinct keys, and so does the table. */
  predicate WellFormed(t: Table)
  {
    DistinctKeys(t) && forall i :: 0 <= i < |t| ==> DistinctKeys(t[i].1)
  }

  lemma {:induction false} CountTableWellFormed(pairs: seq<(string, string)>)
    ensures WellFormed(CountTable(pairs))
  {
    if pairs != [] {
      var init := pairs[..|pairs| - 1];
      var (me, ty) := pairs[|pairs| - 1];
      var t := CountTable(init);
      CountTableWellFormed(init);
      var c := GetOr(t, me, []);
      if Get(t, me).Some? {
        GetFound(t, me);
      }
      assert DistinctKeys(c);
      PutDistinct(c, ty, GetOr(c, ty, 0) + 1);
      var r := Put(t, me, Bump(c, ty));
      PutDistinct(t, me, Bump(c, ty));
      PutEntries(t, me, Bump(c, ty));
    }
  }

  /** Every entry of `Put(d, k, v)` is `(k, v)` or an entry of `d`. */
  lemma {:induction false} PutEntries<V>(d: seq<(string, V)>, k: string, v: V)
    ensures forall i :: 0 <= i < |Put(d, k, v)| ==> Put(d, k, v)[i] == (k, v) || Put(d, k, v)[i] in d
  {
    if d != [] && d[0].0 != k {
      PutEntries(d[1..], k, v);
      var r := Put(d, k, v);
      forall i | 0 <= i < |r| ensures r[i] == (k, v) || r[i] in d {
        if i > 0 {
          assert r[i] == Put(d[1..], k, v)[i - 1];
        }
      }
    }
  }

  // ---------------------------------------------------------------------------
  // Maximum counts
  // ---------------------------------------------------------------------------

  /** `if image_type not in max_counts or count > max_counts[image_type]`. */
  function MergeMax(m: Counts, c: Counts): Counts
  {
    if c == [] then m
    else
      var m' := MergeMax(m, c[..|c| - 1]);
      var (ty, n) := c[|c| - 1];
      if Get(m', ty).None? || n > Get(m', ty).value then Put(m', ty, n) else m'
  }

  function MaxCounts(t: Table): Counts
  {
    if t == [] then [] else MergeMax(MaxCounts(t[..|t| - 1]), t[|t| - 1].1)
  }

  function Max(a: nat, b: nat): nat { if a < b then b else a }

  /** The reference: the largest count of `ty` over the table's entries. */
  function MaxOver(t: Table, ty: string): nat
  {
    if t == [] then 0 else Max(MaxOver(t[..|t| - 1], ty), GetOr(t[|t| - 1].1, ty, 0))
  }

  lemma {:induction false} MergeMaxValue(m: Counts, c: Counts, ty: string)
    requires DistinctKeys(c)
    ensures GetOr(MergeMax(m, c), ty, 0) == Max(GetOr(m, ty, 0), GetOr(c, ty, 0))
  {
    if c != [] {
      var init := c[..|c| - 1];
      var (ty', n) := c[|c| - 1];
      assert DistinctKeys(init);
      MergeMaxValue(m, init, ty);
      LastGet(c, ty);
      LastKeyNew(c);
      var m' := MergeMax(m, init);
      if Get(m', ty').None? || n > Get(m', ty').value {
        GetOrPut(m', ty', n, ty, 0);
      }
    }
  }

  lemma {:induction false} GetNone<V>(d: seq<(string, V)>, k: string)
    ensures Get(d, k).None? <==> k !in Keys(d)
  {
    if d != [] {
      GetNone(d[1..], k);
      assert Keys(d) == [d[0].0] + Keys(d[1..]);
    }
  }

  /** In a dict with distinct keys the last key is new to the entries before it. */
  lemma LastKeyNew<V>(c: seq<(string, V)>)
    requires DistinctKeys(c) && c != []
    ensures Get(c[..|c| - 1], c[|c| - 1].0).None?
  {
    var init := c[..|c| - 1];
    forall i | 0 <= i < |init| ensures Keys(init)[i] != c[|c| - 1].0 {
      assert init[i] == c[i];
    }
    GetNone(init, c[|c| - 1].0);
  }

  /** Looking a key up in a list whose later entries may repeat it: the
      first entry wins, so the last entry matters only for a new key. */
  lemma {:induction false} LastGet<V>(c: seq<(string, V)>, ty: string)
    requires c != []
    ensures Get(c, ty) == if Get(c[..|c| - 1], ty).Some? then Get(c[..|c| - 1], ty)
                          else if c[|c| - 1].0 == ty then Some(c[|c| - 1].1) else None
  {
    if |c| > 1 {
      assert c[1..][..|c[1..]| - 1] == c[..|c| - 1][1..];
      LastGet(c[1..], ty);
    }
  }

  /** `max_counts` holds, for every type, its largest count over all subject eyes. */
  lemma {:induction false} MaxCountsValue(t: Table, ty: string)
    requires WellFormed(t)
    ensures GetOr(MaxCounts(t), ty, 0) == MaxOver(t, ty)
  {
    if t != [] {
      assert WellFormed(t[..|t| - 1]);
      MaxCountsValue(t[..|t| - 1], ty);
      MergeMaxValue(MaxCounts(t[..|t| - 1]), t[|t| - 1].1, ty);
    }
  }

  lemma {:induction false} MaxOverBounds(t: Table, ty: string)
    ensures forall i :: 0 <= i < |t| ==> GetOr<nat>(t[i].1, ty, 0) <= MaxOver(t, ty)
    ensures MaxOver(t, ty) == 0 || exists i :: 0 <= i < |t| && GetOr<nat>(t[i].1, ty, 0) == MaxOver(t, ty)
  {
    if t != [] {
      var init := t[..|t| - 1];
      MaxOverBounds(init, ty);
      assert forall i :: 0 <= i < |init| ==> init[i] == t[i];
      var last := |t| - 1;
      if MaxOver(t, ty) == GetOr<nat>(t[last].1, ty, 0) {
        assert 0 <= last < |t|;
      } else if MaxOver(t, ty) != 0 {
        var i :| 0 <= i < |init| && GetOr<nat>(init[i].1, ty, 0) == MaxOver(init, ty);
        assert GetOr<nat>(t[i].1, ty, 0) == MaxOver(t, ty);
      }
    }
  }

  lemma {:induction false} MergeMaxDistinct(m: Counts, c: Counts)
    requires DistinctKeys(m)
    ensures DistinctKeys(MergeMax(m, c))
  {
    if c != [] {
      MergeMaxDistinct(m, c[..|c| - 1]);
      var m' := MergeMax(m, c[..|c| - 1]);
      PutDistinct(m', c[|c| - 1].0, c[|c| - 1].1);
    }
  }

  lemma MaxCountsDistinct(t: Table)
    ensures DistinctKeys(MaxCounts(t))
  {
    if t != [] {
      MaxCountsDistinct(t[..|t| - 1]);
      MergeMaxDistinct(MaxCounts(t[..|t| - 1]), t[|t| - 1].1);
    }
  }

  // ---------------------------------------------------------------------------
  // cSLO entries of the list
  // ---------------------------------------------------------------------------

  function Bare(ty: string): string { "cSLO " + ty }

  function Nth(ty: string, i: nat): string { Bare(ty) + " (" + Ordinal(i) + ")" }

  function Selectable(ty: string): string { Bare(ty) + SelectTag }

  /** The ordinal entries "cSLO T (1st)" ... "cSLO T (nth)". */
  function Ordinals(ty: string, n: nat): set<string>
  {
    set i | 1 <= i <= n :: Nth(ty, i)
  }

  /** One type with its largest count: count 1 adds the bare name; any
      other count discards the bare name and adds one entry per ordinal,
      and "[select]" when there was at least one. */
  function AddType(s: set<string>, ty: string, count: nat): set<string>
  {
    if count == 1 then s + {Bare(ty)}
    else (s - {Bare(ty)}) + Ordinals(ty, count) + (if count > 0 then {Selectable(ty)} else {})
  }

  function AddTypes(s: set<string>, m: Counts): set<string>
  {
    if m == [] then s
    else AddType(AddTypes(s, m[..|m| - 1]), m[|m| - 1].0, m[|m| - 1].1)
  }

  /** The entries one type with one count stands for. */
  predicate Offered(x: string, ty: string, count: nat)
  {
    (count == 1 && x == Bare(ty))
    || (count >= 2 && (x == Selectable(ty) || exists i :: 1 <= i <= count && x == Nth(ty, i)))
  }

  /** A type name that cannot be mistaken for a tagged entry. */
  predicate Untagged(ty: string)
  {
    ty == [] || (ty[|ty| - 1] != ')' && ty[|ty| - 1] != ']')
  }

  /** One type: the list gains the entries the type stands for and loses
      the bare name when the count is not 1. */
  lemma AddTypeMembers(s: set<string>, ty: string, c: nat, x: string)
    ensures x in AddType(s, ty, c) <==> Offered(x, ty, c) || (x in s && !(c != 1 && x == Bare(ty)))
  {
    OfferedLast(x, ty, c);
  }

  /** With distinct type names that do not end like a tag, the order of the
      types does not matter: the list gains exactly the entries each type
      stands for, and loses only the bare names of types seen more than once. */
  lemma {:induction false} AddTypesMembers(s: set<string>, m: Counts, x: string)
    requires DistinctKeys(m)
    requires forall i :: 0 <= i < |m| ==> Untagged(m[i].0)
    ensures x in AddTypes(s, m) <==>
      (exists i :: 0 <= i < |m| && Offered(x, m[i].0, m[i].1))
      || (x in s && !(exists i :: 0 <= i < |m| && m[i].1 != 1 && x == Bare(m[i].0)))
  {
    if m != [] {
      var init := m[..|m| - 1];
      var (ty, c) := m[|m| - 1];
      assert forall i :: 0 <= i < |init| ==> init[i] == m[i];
      AddTypesMembers(s, init, x);
      AddTypeMembers(AddTypes(s, init), ty, c, x);
      if c != 1 && x == Bare(ty) {
        // the earlier types never offer this bare name
        forall i | 0 <= i < |init| ensures !Offered(x, init[i].0, init[i].1) {
          BareNotOffered(ty, init[i].0, init[i].1);
        }
      }
    }
  }

  lemma OrdinalsStep(ty: string, k: nat)
    ensures Ordinals(ty, k + 1) == Ordinals(ty, k) + {Nth(ty, k + 1)}
  {
  }

  lemma OfferedLast(x: string, ty: string, c: nat)
    ensures x in Ordinals(ty, c) <==> exists i :: 1 <= i <= c && x == Nth(ty, i)
  {
  }

  /** A bare name "cSLO T" is not an entry another, untagged type offers. */
  lemma BareNotOffered(ty: string, other: string, count: nat)
    requires Untagged(ty) && ty != other
    ensures !Offered(Bare(ty), other, count)
  {
    var b := Bare(ty);
    assert Bare(ty)[5..] == ty && Bare(other)[5..] == other;
    assert b[|b| - 1] != ')' && b[|b| - 1] != ']' by {
      if ty != [] {
        assert b[|b| - 1] == ty[|ty| - 1];
      }
    }
    var sel := Selectable(other);
    assert sel[|sel| - 1] == ']';
    forall i | 1 <= i <= count ensures b != Nth(other, i) {
      var n := Nth(other, i);
      assert n[|n| - 1] == ')';
    }
  }

  // ---------------------------------------------------------------------------
  // The whole list
  // ---------------------------------------------------------------------------

  /** A directory of the settings with the names of the files found in it:
      for "oct", the regular files of the directory; for "cslo", the files
      of every OD or OS folder below it, in walk order. */
  datatype Directory = Directory(imager: string, files: seq<string>)

  function DirectoryStep(s: set<string>, d: Directory): Progress
  {
    if d.imager == "oct" then OctTypes(s, ImageFiles(d.files))
    else if d.imager == "cslo" then
      match CsloPairs(ImageFiles(d.files))
      case Err(e) => Progress(s, Some(e))
      case Ok(pairs) => Progress(AddTypes(s, MaxCounts(CountTable(pairs))), None)
    else Progress(s, None)
  }

  /** The set after the directories, up to the first error. */
  function AvailableSet(dirs: seq<Directory>): Progress
  {
    if dirs == [] then Progress({}, None)
    else
      var p := AvailableSet(dirs[..|dirs| - 1]);
      if p.raised.Some? then p else DirectoryStep(p.types, dirs[|dirs| - 1])
  }

  // ---------------------------------------------------------------------------
  // The loops
  // ---------------------------------------------------------------------------

  method AddOctTypes(s: set<string>, files: seq<string>) returns (p: Progress)
    ensures p == OctTypes(s, files)
  {
    var types := s;
    var i := 0;
    while i < |files|
      invariant 0 <= i <= |files|
      invariant OctTypes(s, files[..i]) == Progress(types, None)
    {
      assert files[..i + 1][..i] == files[..i];
      match OctType(files[i]) {
        case Err(e) =>
          OctTypesStop(s, files, i + 1);
          return Progress(types, Some(e));
        case Ok(t) =>
          types := types + {t};
      }
      i := i + 1;
    }
    assert files[..i] == files;
    p := Progress(types, None);
  }

  lemma {:induction false} OctTypesStop(s: set<string>, files: seq<string>, i: nat)
    requires i <= |files| && OctTypes(s, files[..i]).raised.Some?
    ensures OctTypes(s, files) == OctTypes(s, files[..i])
    decreases |files| - i
  {
    if i < |files| {
      assert files[..i + 1][..i] == files[..i];
      OctTypesStop(s, files, i + 1);
    } else {
      assert files[..i] == files;
    }
  }

  method CountCsloImages(files: seq<string>) returns (r: Result<Table>)
    ensures CsloPairs(files).Err? ==> r.Err? && r.error == CsloPairs(files).error
    ensures CsloPairs(files).Ok? ==> r == Ok(CountTable(CsloPairs(files).value))
  {
    var table: Table := [];
    var i := 0;
    while i < |files|
      invariant 0 <= i <= |files|
      invariant CsloPairs(files[..i]).Ok? && table == CountTable(CsloPairs(files[..i]).value)
    {
      assert files[..i + 1][..i] == files[..i];
      ghost var pairs := CsloPairs(files[..i]).value;
      match CsloFields(files[i]) {
        case Err(e) =>
          PairsStop(files, i + 1);
          return Err(e);
        case Ok(pair) =>
          var (me, ty) := pair;
          assert CsloPairs(files[..i + 1]).value == pairs + [pair];
          assert (pairs + [pair])[..|pairs|] == pairs;
          table := Put(table, me, Bump(GetOr(table, me, []), ty));
      }
      i := i + 1;
    }
    assert files[..i] == files;
    r := Ok(table);
  }

  lemma {:induction false} PairsStop(files: seq<string>, i: nat)
    requires i <= |files| && CsloPairs(files[..i]).Err?
    ensures CsloPairs(files) == CsloPairs(files[..i])
    decreases |files| - i
  {
    if i < |files| {
      assert files[..i + 1][..i] == files[..i];
      PairsStop(files, i + 1);
    } else {
      assert files[..i] == files;
    }
  }

  method MaxCountsOf(t: Table) returns (m: Counts)
    ensures m == MaxCounts(t)
  {
    m := [];
    var i := 0;
    while i < |t|
      invariant 0 <= i <= |t|
      invariant m == MaxCounts(t[..i])
    {
      assert t[..i + 1][..i] == t[..i];
      m := MergeCounts(m, t[i].1);
      i := i + 1;
    }
    assert t[..i] == t;
  }

  /** The inner loop: fold one subject's counts into the running maxima. */
  method MergeCounts(m0: Counts, counts: Counts) returns (m: Counts)
    ensures m == MergeMax(m0, counts)
  {
    m := m0;
    var j := 0;
    while j < |counts|
      invariant 0 <= j <= |counts|
      invariant m == MergeMax(m0, counts[..j])
    {
      var (ty, n) := counts[j];
      assert counts[..j + 1][..j] == counts[..j];
      if Get(m, ty).None? || n > Get(m, ty).value {
        m := Put(m, ty, n);
      }
      j := j + 1;
    }
    assert counts[..j] == counts;
  }

  method AddCsloTypes(s: set<string>, m: Counts) returns (r: set<string>)
    ensures r == AddTypes(s, m)
  {
    r := s;
    var i := 0;
    while i < |m|
      invariant 0 <= i <= |m|
      invariant r == AddTypes(s, m[..i])
    {
      var (ty, count) := m[i];
      assert m[..i + 1][..i] == m[..i];
      if count == 1 {
        r := r + {Bare(ty)};
      } else {
        r := r - {Bare(ty)};
        r := AddNumbered(r, ty, count);
      }
      i := i + 1;
    }
    assert m[..i] == m;
  }

  /** The inner loop: "cSLO T (1st)" ... "cSLO T (kth)", each with "cSLO T [select]". */
  method AddNumbered(s: set<string>, ty: string, count: nat) returns (r: set<string>)
    ensures r == s + Ordinals(ty, count) + (if count > 0 then {Selectable(ty)} else {})
  {
    var name := "cSLO " + ty;
    r := s;
    var k := 0;
    while k < count
      invariant 0 <= k <= count
      invariant r == s + Ordinals(ty, k) + (if k > 0 then {Selectable(ty)} else {})
    {
      OrdinalsStep(ty, k);
      r := r + {name + " (" + Ordinal(k + 1) + ")"};
      r := r + {name + SelectTag};
      k := k + 1;
    }
  }

  /** The selection dialog's list of available types. */
  class ImageSelection {
    var availableSet: set<string>
    var available: seq<string>

    constructor ()
      ensures availableSet == {} && available == []
    {
      availableSet := {};
      available := [];
    }

    /** Rebuild the set from the directories and list it sorted. An error
        propagates with the set as far as it got and the list not refreshed. */
    method DetermineWhatImagesAreAvailable(dirs: seq<Directory>) returns (raised: Option<Error>)
      modifies this
      ensures raised == AvailableSet(dirs).raised
      ensures availableSet == AvailableSet(dirs).types
      ensures raised.None? ==> StrictlySorted(available) && forall x :: x in available <==> x in availableSet
      ensures raised.Some? ==> available == old(available)
    {
      availableSet := {};
      var i := 0;
      while i < |dirs|
        invariant 0 <= i <= |dirs|
        invariant AvailableSet(dirs[..i]) == Progress(availableSet, None)
        invariant available == old(available)
      {
        assert dirs[..i + 1][..i] == dirs[..i];
        var d := dirs[i];
        if d.imager == "oct" {
          ghost var before := availableSet;
          var p := AddOctTypes(availableSet, ImageFiles(d.files));
          assert AvailableSet(dirs[..i + 1]) == DirectoryStep(before, d) == p;
          availableSet := p.types;
          if p.raised.Some? {
            AvailableStop(dirs, i + 1);
            return p.raised;
          }
        } else if d.imager == "cslo" {
          var table := CountCsloImages(ImageFiles(d.files));
          if table.Err? {
            assert AvailableSet(dirs[..i + 1]) == DirectoryStep(availableSet, d);
            AvailableStop(dirs, i + 1);
            return Some(table.error);
          }
          var maxCounts := MaxCountsOf(table.value);
          availableSet := AddCsloTypes(availableSet, maxCounts);
        }
        i := i + 1;
      }
      assert dirs[..i] == dirs;
      available := SortedList(availableSet);
      raised := None;
    }
  }

  lemma {:induction false} AvailableStop(dirs: seq<Directory>, i: nat)
    requires i <= |dirs| && AvailableSet(dirs[..i]).raised.Some?
    ensures AvailableSet(dirs) == AvailableSet(dirs[..i])
    decreases |dirs| - i
  {
    if i < |dirs| {
      assert dirs[..i + 1][..i] == dirs[..i];
      AvailableStop(dirs, i + 1);
    } else {
      assert dirs[..i] == dirs;
    }
  }
}
