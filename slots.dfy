/** Which file fills one (subject, eye, requested type) slot of a subject's
    canvas: the slot-resolution part of `assemble_mouse_image_grid`. The
    interactive picker is a parameter. */
module Slots {
  import opened Wrappers
  import opened Text
  import opened FileNames
  import opened ImageTypes
  import opened Sorting

  /** The picker: given the candidates and the dialog title, a candidate or
      nothing ("Select none"). */
  type Chooser = (seq<string>, string) -> Option<string>

  /** A picker that only ever returns one of the candidates it is shown. */
  ghost predicate ValidChooser(choose: Chooser)
  {
    forall c, title :: choose(c, title).None? || choose(c, title).value in c
  }

  /** The stub picker of the later draft: the first candidate. */
  function FirstCandidate(c: seq<string>, title: string): Option<string>
  {
    if c == [] then None else Some(c[0])
  }

  /** A path that parses and has the requested modality. */
  predicate HasModality(path: string, imager: string, name: string)
  {
    ConvertPathToBaseNameAndParts(path, imager).Ok? && ConvertPathToBaseNameAndParts(path, imager).value.modality == name
  }

  /** A path that parses and has another modality. */
  predicate OtherModality(path: string, imager: string, name: string)
  {
    ConvertPathToBaseNameAndParts(path, imager).Ok? && ConvertPathToBaseNameAndParts(path, imager).value.modality != name
  }

  /** The no-flag rule: the first path, in list order, with the requested
      modality; a name that does not parse before it raises. */
  function FirstMatch(paths: seq<string>, imager: string, name: string): Result<Option<string>>
  {
    if paths == [] then Ok(None)
    else
      match ConvertPathToBaseNameAndParts(paths[0], imager)
      case Err(e) => Err(e)
      case Ok(p) => if p.modality == name then Ok(Some(paths[0])) else FirstMatch(paths[1..], imager, name)
  }

  /** How one step of the no-flag rule goes. */
  lemma FirstMatchStep(paths: seq<string>, imager: string, name: string)
    requires paths != []
    ensures HasModality(paths[0], imager, name) ==> FirstMatch(paths, imager, name) == Ok(Some(paths[0]))
    ensures OtherModality(paths[0], imager, name) ==> FirstMatch(paths, imager, name) == FirstMatch(paths[1..], imager, name)
    ensures !HasModality(paths[0], imager, name) && !OtherModality(paths[0], imager, name) ==>
      FirstMatch(paths, imager, name).Err?
  {
  }

  /** The first match is the first path with the requested modality, every
      path before it parsing with another one. */
  lemma {:induction false} FirstMatchFound(paths: seq<string>, imager: string, name: string)
    requires FirstMatch(paths, imager, name).Ok? && FirstMatch(paths, imager, name).value.Some?
    ensures exists k :: (0 <= k < |paths| && paths[k] == FirstMatch(paths, imager, name).value.value
      && HasModality(paths[k], imager, name)
      && forall j :: 0 <= j < k ==> OtherModality(paths[j], imager, name))
  {
    FirstMatchStep(paths, imager, name);
    if !HasModality(paths[0], imager, name) {
      var tail := paths[1..];
      FirstMatchFound(tail, imager, name);
      var k :| 0 <= k < |tail| && tail[k] == FirstMatch(tail, imager, name).value.value
        && HasModality(tail[k], imager, name)
        && forall j :: 0 <= j < k ==> OtherModality(tail[j], imager, name);
      assert paths[k + 1] == tail[k];
      forall j | 0 <= j < k + 1 ensures OtherModality(paths[j], imager, name) {
        if j > 0 {
          assert paths[j] == tail[j - 1];
        }
      }
    }
  }

  /** There is no match exactly when every path parses with another modality. */
  lemma {:induction false} FirstMatchNone(paths: seq<string>, imager: string, name: string)
    ensures FirstMatch(paths, imager, name) == Ok(None)
        <==> forall k :: 0 <= k < |paths| ==> OtherModality(paths[k], imager, name)
  {
    if paths != [] {
      FirstMatchStep(paths, imager, name);
      if OtherModality(paths[0], imager, name) {
        var tail := paths[1..];
        FirstMatchNone(tail, imager, name);
        assert forall k :: 0 < k < |paths| ==> paths[k] == tail[k - 1];
      }
    }
  }

  /** The paths with the requested modality, in list order. */
  function MatchingPaths(paths: seq<string>, imager: string, name: string): seq<string>
  {
    if paths == [] then []
    else (if HasModality(paths[0], imager, name) then [paths[0]] else []) + MatchingPaths(paths[1..], imager, name)
  }

  /** The second components. */
  function Seconds(xs: seq<(int, string)>): (r: seq<string>)
    ensures |r| == |xs| && forall k :: 0 <= k < |xs| ==> r[k] == xs[k].1
  {
    if xs == [] then [] else [xs[0].1] + Seconds(xs[1..])
  }

  /** `(int(image_number), path)` for every path with the requested
      modality, in list order; a sequence number that is not an integer is
      a `ValueError`. */
  function SameModality(paths: seq<string>, imager: string, name: string): (r: Result<seq<(int, string)>>)
    ensures r.Ok? ==> Seconds(r.value) == MatchingPaths(paths, imager, name)
    ensures r.Ok? ==> forall k :: 0 <= k < |r.value| ==> NumberOf(r.value[k].1, imager) == Some(r.value[k].0)
  {
    if paths == [] then Ok([])
    else
      match ConvertPathToBaseNameAndParts(paths[0], imager)
      case Err(e) => Err(e)
      case Ok(p) =>
        match SameModality(paths[1..], imager, name)
        case Err(e) =>
          if p.modality == name && ImageNumberValue(p.imageNumber).None? then Err(ValueError("invalid literal for int()"))
          else Err(e)
        case Ok(rest) =>
          if p.modality != name then Ok(rest)
          else match ImageNumberValue(p.imageNumber)
            case None => Err(ValueError("invalid literal for int()"))
            case Some(n) =>
              assert Seconds([(n, paths[0])] + rest) == [paths[0]] + Seconds(rest);
              Ok([(n, paths[0])] + rest)
  }

  /** `int(image_number)` of a path, when its name parses and the number is an integer. */
  function NumberOf(path: string, imager: string): Option<int>
  {
    match ConvertPathToBaseNameAndParts(path, imager)
    case Err(_) => None
    case Ok(p) => ImageNumberValue(p.imageNumber)
  }

  /** `xs[i]` with Python's negative indices; `IndexError` gives nothing. */
  function PyIndex(xs: seq<string>, i: int): (r: Option<string>)
    ensures r.Some? <==> -|xs| <= i < |xs|
    ensures r.Some? ==> r.value in xs
  {
    if 0 <= i < |xs| then Some(xs[i])
    else if -|xs| <= i < 0 then Some(xs[|xs| + i])
    else None
  }

  /** The candidates of the indexed and the select rules: the paths with the
      requested modality, stably sorted by sequence number. */
  function Candidates(paths: seq<string>, imager: string, name: string): Result<seq<string>>
  {
    match SameModality(paths, imager, name)
    case Err(e) => Err(e)
    case Ok(pairs) => Ok(Seconds(SortByKey(pairs)))
  }

  /** The slot rules, in the order the program tries them: no paths for the
      imager gives nothing; no flags takes the first match; an index takes
      that candidate (the index is checked before the select flag); the
      select flag asks the picker only in mode "full" and only when there
      are candidates. */
  function SlotChoice(available: seq<string>, ty: ImageType, mode: string, choose: Chooser, title: string)
    : (r: Result<Option<string>>)
    ensures available == [] ==> r == Ok(None)
    ensures ValidChooser(choose) && r.Ok? && r.value.Some? ==> r.value.value in available
  {
    if available == [] then Ok(None)
    else if !ty.selectRequired && ty.multipleIndex.None? then
      var r := FirstMatch(available, ty.imager, ty.typeName);
      if r.Ok? && r.value.Some? then FirstMatchFound(available, ty.imager, ty.typeName); r else r
    else
      match Candidates(available, ty.imager, ty.typeName)
      case Err(e) => Err(e)
      case Ok(c) =>
        CandidatesIn(available, ty.imager, ty.typeName);
        if ty.multipleIndex.Some? then Ok(PyIndex(c, ty.multipleIndex.value))
        else if c != [] && mode == "full" then Ok(choose(c, title))
        else Ok(None)
  }

  /** Every candidate is one of the paths. */
  lemma CandidatesIn(paths: seq<string>, imager: string, name: string)
    requires Candidates(paths, imager, name).Ok?
    ensures forall x :: x in Candidates(paths, imager, name).value ==> x in paths
  {
    var pairs := SameModality(paths, imager, name).value;
    var sorted := SortByKey(pairs);
    forall x | x in Seconds(sorted) ensures x in paths {
      var k :| 0 <= k < |sorted| && Seconds(sorted)[k] == x;
      assert sorted[k] in multiset(pairs);
      var j :| 0 <= j < |pairs| && pairs[j] == sorted[k];
      assert x in Seconds(pairs);
      MatchingIn(paths, imager, name, x);
    }
  }

  lemma {:induction false} MatchingIn(paths: seq<string>, imager: string, name: string, x: string)
    ensures x in MatchingPaths(paths, imager, name) <==> x in paths && HasModality(x, imager, name)
  {
    if paths != [] {
      MatchingIn(paths[1..], imager, name, x);
      assert paths == [paths[0]] + paths[1..];
    }
  }

  // ---------------------------------------------------------------------------
  // The rules
  // ---------------------------------------------------------------------------

  /** With an index, neither the select flag, the mode nor the picker
      matters: the index rule is checked first. */
  lemma IndexBeforeSelect(available: seq<string>, ty: ImageType, mode: string, choose: Chooser, title: string)
    requires ty.multipleIndex.Some?
    ensures SlotChoice(available, ty, mode, choose, title)
         == SlotChoice(available, ty.(selectRequired := false), "", FirstCandidate, "")
  {
  }

  /** The index rule: candidate n (counting from 0), nothing past the end,
      and index -1 (a "(0th)" request) the last candidate. */
  lemma IndexedCandidate(available: seq<string>, ty: ImageType, mode: string, choose: Chooser, title: string)
    requires available != [] && ty.multipleIndex.Some?
    requires Candidates(available, ty.imager, ty.typeName).Ok?
    ensures var c := Candidates(available, ty.imager, ty.typeName).value;
      var n := ty.multipleIndex.value;
      && (0 <= n < |c| ==> SlotChoice(available, ty, mode, choose, title) == Ok(Some(c[n])))
      && (n >= |c| ==> SlotChoice(available, ty, mode, choose, title) == Ok(None))
      && (n == -1 && c != [] ==> SlotChoice(available, ty, mode, choose, title) == Ok(Some(c[|c| - 1])))
  {
  }

  /** The select rule asks the picker only in mode "full" with at least one
      candidate; otherwise the slot stays empty whatever the picker is. */
  lemma SelectOnlyWhenFull(available: seq<string>, ty: ImageType, mode: string, choose: Chooser, other: Chooser, title: string)
    requires available != [] && ty.selectRequired && ty.multipleIndex.None?
    requires Candidates(available, ty.imager, ty.typeName).Ok?
    ensures var c := Candidates(available, ty.imager, ty.typeName).value;
      && (mode == "full" && c != [] ==> SlotChoice(available, ty, mode, choose, title) == Ok(choose(c, title)))
      && (mode != "full" || c == [] ==> SlotChoice(available, ty, mode, choose, title) == Ok(None)
                                       == SlotChoice(available, ty, mode, other, title))
  {
  }

  /** A property every pair has survives the sort. */
  lemma SortKeeps(pairs: seq<(int, string)>, ok: ((int, string)) -> bool)
    requires forall k :: 0 <= k < |pairs| ==> ok(pairs[k])
    ensures forall k :: 0 <= k < |SortByKey(pairs)| ==> ok(SortByKey(pairs)[k])
  {
    var sorted := SortByKey(pairs);
    forall k | 0 <= k < |sorted| ensures ok(sorted[k]) {
      assert sorted[k] in multiset(pairs);
    }
  }

  /** Pairs keyed by a numbering of their paths come out of the sort in
      increasing order of that numbering. */
  lemma SortedByNumber(pairs: seq<(int, string)>, num: string -> Option<int>)
    requires forall k :: 0 <= k < |pairs| ==> num(pairs[k].1) == Some(pairs[k].0)
    ensures var c := Seconds(SortByKey(pairs));
      && (forall k :: 0 <= k < |c| ==> num(c[k]).Some?)
      && (forall i, j :: 0 <= i < j < |c| ==> num(c[i]).value <= num(c[j]).value)
  {
    var sorted := SortByKey(pairs);
    SortKeeps(pairs, (x: (int, string)) => num(x.1) == Some(x.0));
    assert KeySorted(sorted);
  }

  /** The candidates are in increasing order of sequence number. */
  lemma CandidatesSorted(paths: seq<string>, imager: string, name: string)
    requires Candidates(paths, imager, name).Ok?
    ensures var c := Candidates(paths, imager, name).value;
      && (forall k :: 0 <= k < |c| ==> NumberOf(c[k], imager).Some?)
      && (forall i, j :: 0 <= i < j < |c| ==> NumberOf(c[i], imager).value <= NumberOf(c[j], imager).value)
  {
    var pairs := SameModality(paths, imager, name).value;
    assert Candidates(paths, imager, name).value == Seconds(SortByKey(pairs));
    SortedByNumber(pairs, p => NumberOf(p, imager));
  }

  /** Sorting keeps the number of pairs and every path. */
  lemma SortCovers(pairs: seq<(int, string)>)
    ensures |Seconds(SortByKey(pairs))| == |Seconds(pairs)|
    ensures forall x :: x in Seconds(SortByKey(pairs)) <==> x in Seconds(pairs)
  {
    var sorted := SortByKey(pairs);
    assert |multiset(sorted)| == |multiset(pairs)|;
    forall x | x in Seconds(pairs) ensures x in Seconds(sorted) {
      var j :| 0 <= j < |Seconds(pairs)| && Seconds(pairs)[j] == x;
      assert pairs[j] in multiset(sorted);
      var k :| 0 <= k < |sorted| && sorted[k] == pairs[j];
      assert Seconds(sorted)[k] == x;
    }
    forall x | x in Seconds(sorted) ensures x in Seconds(pairs) {
      var k :| 0 <= k < |sorted| && Seconds(sorted)[k] == x;
      assert sorted[k] in multiset(pairs);
      var j :| 0 <= j < |pairs| && pairs[j] == sorted[k];
      assert Seconds(pairs)[j] == x;
    }
  }

  /** There are as many candidates as paths with the requested modality. */
  /** Inserting a pair adds its second component to the second components. */
  lemma {:induction false} InsertSeconds(xs: seq<(int, string)>, x: (int, string))
    requires KeySorted(xs)
    ensures multiset(Seconds(InsertByKey(xs, x))) == multiset(Seconds(xs)) + multiset{x.1}
  {
    if xs != [] && x.0 >= xs[0].0 {
      KeySortedTail(xs);
      InsertSeconds(xs[1..], x);
      assert Seconds(InsertByKey(xs, x)) == [xs[0].1] + Seconds(InsertByKey(xs[1..], x));
      assert Seconds(xs) == [xs[0].1] + Seconds(xs[1..]);
    } else if xs != [] {
      assert Seconds(InsertByKey(xs, x)) == [x.1] + Seconds(xs);
    }
  }

  /** Sorting reorders the second components: none is lost or duplicated. */
  lemma {:induction false} SortSeconds(xs: seq<(int, string)>)
    ensures multiset(Seconds(SortByKey(xs))) == multiset(Seconds(xs))
  {
    if xs != [] {
      var init := xs[..|xs| - 1];
      var last := xs[|xs| - 1];
      assert init + [last] == xs;
      var sorted := SortByKey(init);
      SortSeconds(init);
      InsertSeconds(sorted, last);
      SecondsSnoc(init, last);
      MultisetSnoc(Seconds(init), last.1, Seconds(xs), Seconds(sorted), Seconds(SortByKey(xs)));
    }
  }

  lemma MultisetSnoc(a: seq<string>, x: string, ax: seq<string>, b: seq<string>, bx: seq<string>)
    requires ax == a + [x] && multiset(b) == multiset(a) && multiset(bx) == multiset(b) + multiset{x}
    ensures multiset(bx) == multiset(ax)
  {
  }

  lemma SecondsSnoc(xs: seq<(int, string)>, x: (int, string))
    ensures Seconds(xs + [x]) == Seconds(xs) + [x.1]
  {
  }

  /** The candidates are the matching paths reordered: none is lost or
      duplicated. */
  lemma CandidatesCount(paths: seq<string>, imager: string, name: string)
    requires Candidates(paths, imager, name).Ok?
    ensures |Candidates(paths, imager, name).value| == |MatchingPaths(paths, imager, name)|
    ensures multiset(Candidates(paths, imager, name).value) == multiset(MatchingPaths(paths, imager, name))
  {
    var pairs := SameModality(paths, imager, name).value;
    SortCovers(pairs);
    SortSeconds(pairs);
  }

  /** The candidates are exactly the paths with the requested modality. */
  lemma CandidatesCover(paths: seq<string>, imager: string, name: string, x: string)
    requires Candidates(paths, imager, name).Ok?
    ensures x in Candidates(paths, imager, name).value <==> x in paths && HasModality(x, imager, name)
  {
    var pairs := SameModality(paths, imager, name).value;
    SortCovers(pairs);
    MatchingIn(paths, imager, name, x);
  }

  /** When every candidate has the same sequence number, as every OCT image
      does (its number is 0), the candidates are in list order. */
  lemma CandidatesSameNumber(paths: seq<string>, imager: string, name: string, n: int)
    requires Candidates(paths, imager, name).Ok?
    requires forall x :: x in paths && HasModality(x, imager, name) ==> NumberOf(x, imager) == Some(n)
    ensures Candidates(paths, imager, name).value == MatchingPaths(paths, imager, name)
  {
    var pairs := SameModality(paths, imager, name).value;
    forall k | 0 <= k < |pairs| ensures pairs[k].0 == n {
      assert Seconds(pairs)[k] == pairs[k].1;
      MatchingIn(paths, imager, name, pairs[k].1);
    }
    SortByKeyConstant(pairs, n);
  }

  /** Every OCT name that parses has number 0. */
  lemma OctNumbersZero(x: string, name: string)
    requires HasModality(x, "oct", name)
    ensures NumberOf(x, "oct") == Some(0)
  {
  }

  /** An OCT slot with an index takes the n-th OCT file of that modality in list order. */
  lemma OctIndexInListOrder(available: seq<string>, ty: ImageType, mode: string, choose: Chooser, title: string)
    requires available != [] && ty.imager == "oct" && ty.multipleIndex.Some? && ty.multipleIndex.value >= 0
    requires Candidates(available, "oct", ty.typeName).Ok?
    ensures SlotChoice(available, ty, mode, choose, title)
         == Ok(PyIndex(MatchingPaths(available, "oct", ty.typeName), ty.multipleIndex.value))
  {
    forall x | x in available && HasModality(x, "oct", ty.typeName) ensures NumberOf(x, "oct") == Some(0) {
      OctNumbersZero(x, ty.typeName);
    }
    CandidatesSameNumber(available, "oct", ty.typeName, 0);
  }

  /** With the stub picker, a select slot gets the first candidate, which
      by `CandidatesSorted` has the lowest sequence number. */
  lemma StubPicksFirst(available: seq<string>, ty: ImageType, title: string)
    requires available != [] && ty.selectRequired && ty.multipleIndex.None?
    requires Candidates(available, ty.imager, ty.typeName).Ok?
    requires Candidates(available, ty.imager, ty.typeName).value != []
    ensures SlotChoice(available, ty, "full", FirstCandidate, title)
         == Ok(Some(Candidates(available, ty.imager, ty.typeName).value[0]))
  {
  }

  // ---------------------------------------------------------------------------
  // The loops
  // ---------------------------------------------------------------------------

  function ThenPairs(pairs: seq<(int, string)>, r: Result<seq<(int, string)>>): Result<seq<(int, string)>>
  {
    match r
    case Err(e) => Err(e)
    case Ok(rest) => Ok(pairs + rest)
  }

  /** One slot of the canvas loop: the `break` loop of the no-flag rule,
      the collecting loop of the other two, then the index or the picker. */
  method ResolveSlot(available: seq<string>, ty: ImageType, mode: string, choose: Chooser, title: string)
    returns (r: Result<Option<string>>)
    ensures r == SlotChoice(available, ty, mode, choose, title)
  {
    if available == [] {
      return Ok(None);
    }
    if !ty.selectRequired && ty.multipleIndex.None? {
      var i := 0;
      assert available[0..] == available;
      while i < |available|
        invariant 0 <= i <= |available|
        invariant FirstMatch(available, ty.imager, ty.typeName) == FirstMatch(available[i..], ty.imager, ty.typeName)
      {
        assert available[i..][0] == available[i] && available[i..][1..] == available[i + 1..];
        var parts := ConvertPathToBaseNameAndParts(available[i], ty.imager);
        if parts.Err? {
          return Err(parts.error);
        }
        if parts.value.modality == ty.typeName {
          return Ok(Some(available[i]));
        }
        i := i + 1;
      }
      return Ok(None);
    }
    var pairs: seq<(int, string)> := [];
    var i := 0;
    assert available[0..] == available;
    assert ThenPairs([], SameModality(available, ty.imager, ty.typeName)) == SameModality(available, ty.imager, ty.typeName) by {
      var m := SameModality(available, ty.imager, ty.typeName);
      if m.Ok? {
        assert [] + m.value == m.value;
      }
    }
    while i < |available|
      invariant 0 <= i <= |available|
      invariant SameModality(available, ty.imager, ty.typeName)
             == ThenPairs(pairs, SameModality(available[i..], ty.imager, ty.typeName))
    {
      SameModalityStep(available, i, ty.imager, ty.typeName, pairs);
      var parts := ConvertPathToBaseNameAndParts(available[i], ty.imager);
      if parts.Err? {
        return Err(parts.error);
      }
      if parts.value.modality == ty.typeName {
        var n := ImageNumberValue(parts.value.imageNumber);
        if n.None? {
          return Err(ValueError("invalid literal for int()"));
        }
        pairs := pairs + [(n.value, available[i])];
      }
      i := i + 1;
    }
    assert pairs + [] == pairs;
    var c := Seconds(SortByKey(pairs));
    if ty.multipleIndex.Some? {
      r := Ok(PyIndex(c, ty.multipleIndex.value));
    } else if c != [] && mode == "full" {
      r := Ok(choose(c, title));
    } else {
      r := Ok(None);
    }
  }

  /** One step of the collecting loop. */
  lemma SameModalityStep(paths: seq<string>, i: nat, imager: string, name: string, pairs: seq<(int, string)>)
    requires i < |paths|
    ensures var parts := ConvertPathToBaseNameAndParts(paths[i], imager);
      var now := ThenPairs(pairs, SameModality(paths[i..], imager, name));
      && (parts.Err? ==> now == Err(parts.error))
      && (parts.Ok? && parts.value.modality == name && ImageNumberValue(parts.value.imageNumber).None? ==>
            now == Err(ValueError("invalid literal for int()")))
      && (parts.Ok? && parts.value.modality != name ==>
            now == ThenPairs(pairs, SameModality(paths[i + 1..], imager, name)))
      && (parts.Ok? && parts.value.modality == name && ImageNumberValue(parts.value.imageNumber).Some? ==>
            now == ThenPairs(pairs + [(ImageNumberValue(parts.value.imageNumber).value, paths[i])],
                             SameModality(paths[i + 1..], imager, name)))
  {
    assert paths[i..][0] == paths[i] && paths[i..][1..] == paths[i + 1..];
    var rest := SameModality(paths[i + 1..], imager, name);
    var parts := ConvertPathToBaseNameAndParts(paths[i], imager);
    if parts.Ok? && parts.value.modality == name && ImageNumberValue(parts.value.imageNumber).Some? && rest.Ok? {
      var x := (ImageNumberValue(parts.value.imageNumber).value, paths[i]);
      assert pairs + ([x] + rest.value) == (pairs + [x]) + rest.value;
    }
  }
}
