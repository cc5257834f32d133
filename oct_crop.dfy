/** Bringing a cSLO or an OCT image to its slot height: the text strip cut
    off a cSLO image, and the crop-or-pad of an OCT image around the centre
    of the retina. */
module OctCrop {
  import opened Wrappers
  import opened Geometry

  // ---------------------------------------------------------------------------
  // Retina bounds
  // ---------------------------------------------------------------------------

  /** `max(mean + std, 50)`: the statistic itself is an input. */
  function Cutoff(statistic: int): (r: int)
    ensures r >= 50 && r >= statistic
    ensures r == 50 || r == statistic
  {
    Max(statistic, 50)
  }

  /** A row brighter than the cutoff. */
  predicate Bright(profile: seq<int>, cutoff: int, i: int)
    requires 0 <= i < |profile|
  {
    profile[i] > cutoff
  }

  /** The first bright row at or after `from`. */
  function FirstBright(profile: seq<int>, cutoff: int, from: nat): (r: Option<nat>)
    requires from <= |profile|
    ensures r.Some? ==>
      && from <= r.value < |profile| && Bright(profile, cutoff, r.value)
      && forall j :: from <= j < r.value ==> !Bright(profile, cutoff, j)
    ensures r.None? ==> forall j :: from <= j < |profile| ==> !Bright(profile, cutoff, j)
    decreases |profile| - from
  {
    if from == |profile| then None
    else if Bright(profile, cutoff, from) then Some(from)
    else FirstBright(profile, cutoff, from + 1)
  }

  /** The last bright row before `upto`. */
  function LastBright(profile: seq<int>, cutoff: int, upto: nat): (r: Option<nat>)
    requires upto <= |profile|
    ensures r.Some? ==>
      && r.value < upto && Bright(profile, cutoff, r.value)
      && forall j :: r.value < j < upto ==> !Bright(profile, cutoff, j)
    ensures r.None? ==> forall j :: 0 <= j < upto ==> !Bright(profile, cutoff, j)
  {
    if upto == 0 then None
    else if Bright(profile, cutoff, upto - 1) then Some(upto - 1)
    else LastBright(profile, cutoff, upto - 1)
  }

  /** `find_oct_retina_bounds` on the row-brightness profile (one entry per
      row, so `|profile|` is the image height): the first and the last row
      brighter than the cutoff, or `(height, 0)` when there is none. */
  function RetinaBounds(profile: seq<int>, statistic: int): (r: (nat, nat))
    ensures var c := Cutoff(statistic);
      || (r == (|profile|, 0) && forall j :: 0 <= j < |profile| ==> !Bright(profile, c, j))
      || (&& r.0 <= r.1 < |profile|
          && Bright(profile, c, r.0) && Bright(profile, c, r.1)
          && (forall j :: 0 <= j < r.0 ==> !Bright(profile, c, j))
          && (forall j :: r.1 < j < |profile| ==> !Bright(profile, c, j)))
  {
    var c := Cutoff(statistic);
    match FirstBright(profile, c, 0)
    case None => (|profile|, 0)
    case Some(top) =>
      var bottom := LastBright(profile, c, |profile|);
      assert bottom.Some? by {
        assert Bright(profile, c, top);
      }
      (top, bottom.value)
  }

  /** The sentinel is returned exactly when no row is bright. */
  lemma SentinelIffDark(profile: seq<int>, statistic: int)
    requires |profile| > 0
    ensures RetinaBounds(profile, statistic) == (|profile|, 0)
        <==> forall j :: 0 <= j < |profile| ==> profile[j] <= Cutoff(statistic)
  {
    var r := RetinaBounds(profile, statistic);
    var c := Cutoff(statistic);
    if r == (|profile|, 0) {
      assert !(r.0 < |profile|);
      assert forall j :: 0 <= j < |profile| ==> !Bright(profile, c, j);
      forall j | 0 <= j < |profile| ensures profile[j] <= c {
        assert !Bright(profile, c, j);
      }
    }
  }

  // ---------------------------------------------------------------------------
  // The OCT crop
  // ---------------------------------------------------------------------------

  /** What `crop_oct_image` does: nothing, a crop to rows `[top, bottom)`,
      or a paste at row `yOffset` of a target-tall black canvas. */
  datatype OctCrop = Unchanged | Window(top: nat, bottom: nat) | Pad(yOffset: nat)

  /** The row the window is centred on: `(top + bottom) // 2` of the bounds. */
  function Centre(bounds: (nat, nat)): nat
  {
    (bounds.0 + bounds.1) / 2
  }

  function CropOct(size: Size, target: nat, bounds: (nat, nat)): (c: OctCrop)
    ensures c.Unchanged? <==> size.height == target
    ensures c.Window? <==> size.height > target
    ensures c.Window? ==>
      && c.bottom == c.top + target <= size.height
      && c.top == Min(Max(Centre(bounds) - target / 2, 0), size.height - target)
    ensures c.Pad? <==> size.height < target
    ensures c.Pad? ==> c.yOffset + size.height <= target && c.yOffset == (target - size.height) / 2
  {
    if size.height == target then Unchanged
    else if size.height > target then
      var half := target / 2;
      var top := Max(Centre(bounds) - half, 0);
      var bottom := top + target;
      if bottom > size.height then Window(size.height - target, size.height)
      else Window(top, bottom)
    else
      Pad((target - size.height) / 2)
  }

  /** The image that comes out. */
  function Cropped(size: Size, target: nat, c: OctCrop): Size
  {
    match c
    case Unchanged => size
    case Window(top, bottom) => Size(size.width, if top <= bottom then bottom - top else 0)
    case Pad(_) => Size(size.width, target)
  }

  /** Every OCT image comes out with the target height and its own width. */
  lemma CropOctHeight(size: Size, target: nat, bounds: (nat, nat))
    ensures Cropped(size, target, CropOct(size, target, bounds)) == Size(size.width, target)
  {
  }

  /** A crop window holds the row it is centred on whenever that row is in
      the image, and the sentinel `(height, 0)` centres it on `height // 2`. */
  lemma WindowHoldsCentre(size: Size, target: nat, bounds: (nat, nat))
    requires size.height > target >= 1 && Centre(bounds) < size.height
    ensures CropOct(size, target, bounds).top <= Centre(bounds) < CropOct(size, target, bounds).bottom
  {
  }

  /** With the bounds `find_oct_retina_bounds` finds, the window holds the
      centre of the retina, and when nothing is bright, the middle row. */
  lemma RetinaInWindow(width: nat, profile: seq<int>, statistic: int, target: nat)
    requires |profile| > target >= 1
    ensures var bounds := RetinaBounds(profile, statistic);
      var c := CropOct(Size(width, |profile|), target, bounds);
      && c.top <= Centre(bounds) < c.bottom
      && (bounds == (|profile|, 0) ==> Centre(bounds) == |profile| / 2)
  {
    var bounds := RetinaBounds(profile, statistic);
    assert Centre(bounds) < |profile|;
    WindowHoldsCentre(Size(width, |profile|), target, bounds);
  }

  // ---------------------------------------------------------------------------
  // The cSLO crop
  // ---------------------------------------------------------------------------

  /** `crop_cslo_image`: the top square of the image, `(0, 0, width, width)`,
      which drops the `height - width` rows of text under a cSLO image. */
  function CropCslo(size: Size): (r: Size)
    ensures r.width == size.width && r.height == r.width
  {
    Size(size.width, size.width)
  }
}
