/** The subject canvases the master layout places. The layout calls
    `assemble_mouse_image_grid(mouse)` in its normal grid mode for every
    subject and reads the canvas's size and the heading height the call
    leaves in `total_heading_height`. */
module LayoutCanvases {
  import opened Wrappers
  import opened ImageTypes
  import SubjectCanvas
  import Buckets
  import Slots
  import MasterLayout

  /** The grid mode of a call without a `mouse_grid_mode` argument. */
  const NormalMode: string := "Normal"

  /** `mouse_info_dic[mouse][0]`, the subject's lab id, if the subject is
      in the table. */
  function LabId(info: MasterLayout.MouseTable, m: string): Option<string>
  {
    if info == [] then None
    else if info[0].0 == m then Some(info[0].1.labId)
    else LabId(info[1..], m)
  }

  /** The lab id the heading is drawn with, when there is one. */
  function LabText(info: MasterLayout.MouseTable, m: string): string
  {
    match LabId(info, m) case None => "" case Some(l) => l
  }

  /** One subject's canvas as the layout sees it. The lab id is looked up
      whenever it is shown, so a subject missing from `mouse_info_dic`
      raises KeyError there. A subject named "return_canvas_only" gets the
      blank image area and leaves the heading height as it was. */
  function CanvasOf(s: SubjectCanvas.Setup, types: seq<ImageType>, t: Buckets.Table,
                    info: MasterLayout.MouseTable, choose: Slots.Chooser, open: SubjectCanvas.Opener,
                    previous: int, m: string): Result<MasterLayout.MouseCanvas>
  {
    if m != "return_canvas_only" && s.useLabId && LabId(info, m).None? then Err(KeyError(m))
    else
      match SubjectCanvas.Assemble(s, types, t, m, LabText(info, m), NormalMode, choose, open)
      case Err(e) => Err(e)
      case Ok(a) =>
        if a.Canvas? then Ok(MasterLayout.MouseCanvas(a.width, a.height, a.heading.total))
        else if a.BlankCanvas? then Ok(MasterLayout.MouseCanvas(a.size.width, a.size.height, previous))
        // the heading-only result belongs to the "initiate heading" mode
        else Ok(MasterLayout.MouseCanvas(0, 0, previous))
  }

  /** The canvases of every subject. */
  function Canvases(s: SubjectCanvas.Setup, types: seq<ImageType>, t: Buckets.Table,
                    info: MasterLayout.MouseTable, choose: Slots.Chooser, open: SubjectCanvas.Opener,
                    previous: int): MasterLayout.Canvases
  {
    m => CanvasOf(s, types, t, info, choose, open, previous, m)
  }

  /** A subject's canvas is two images wide and its image area plus its
      heading tall, and the heading height is the one its heading is drawn
      with. Showing the lab id of a subject missing from the table, and
      placing images of a subject without image lists, are KeyErrors. */
  lemma CanvasOfShape(s: SubjectCanvas.Setup, types: seq<ImageType>, t: Buckets.Table,
                      info: MasterLayout.MouseTable, choose: Slots.Chooser, open: SubjectCanvas.Opener,
                      previous: int, m: string)
    requires m != "return_canvas_only"
    ensures var r := CanvasOf(s, types, t, info, choose, open, previous, m);
      && (s.useLabId && LabId(info, m).None? ==> r == Err(KeyError(m)))
      && (s.mode != "preview_layout" && m !in t ==> r == Err(KeyError(m)))
      && (r.Ok? ==>
            && r.value.width == 2 * s.imageWidth
            && r.value.height == SubjectCanvas.ImagesOnly(s, types).height + r.value.heading
            && r.value.heading == SubjectCanvas.MakeHeading(s, 2 * s.imageWidth, m, LabText(info, m)).total)
  {
    SubjectCanvas.AssembleShape(s, types, t, m, LabText(info, m), NormalMode, choose, open);
  }

  /** The canvas size every subject gets unless both ids are shown. */
  function CanvasHeight(s: SubjectCanvas.Setup, types: seq<ImageType>): int
  {
    SubjectCanvas.ImagesOnly(s, types).height + SubjectCanvas.MakeHeading(s, 2 * s.imageWidth, "", "").total
  }

  /** Unless both the cSLO number and the lab id are shown, the subjects'
      canvases all have one size and leave one heading height. */
  lemma {:induction false} CanvasesUniform(s: SubjectCanvas.Setup, types: seq<ImageType>, t: Buckets.Table,
                                           info: MasterLayout.MouseTable, choose: Slots.Chooser,
                                           open: SubjectCanvas.Opener, previous: int, mice: seq<string>)
    requires !(s.useNumber && s.useLabId)
    requires forall k :: 0 <= k < |mice| ==>
      mice[k] != "return_canvas_only" && CanvasOf(s, types, t, info, choose, open, previous, mice[k]).Ok?
    ensures MasterLayout.Uniform(Canvases(s, types, t, info, choose, open, previous), mice,
                                 2 * s.imageWidth, CanvasHeight(s, types))
    ensures forall k :: 0 <= k < |mice| ==>
      CanvasOf(s, types, t, info, choose, open, previous, mice[k]).value.heading
        == SubjectCanvas.MakeHeading(s, 2 * s.imageWidth, "", "").total
  {
    forall k | 0 <= k < |mice|
      ensures var c := CanvasOf(s, types, t, info, choose, open, previous, mice[k]).value;
        && c.width == 2 * s.imageWidth && c.height == CanvasHeight(s, types)
        && c.heading == SubjectCanvas.MakeHeading(s, 2 * s.imageWidth, "", "").total
    {
      CanvasOfShape(s, types, t, info, choose, open, previous, mice[k]);
      SubjectCanvas.HeadingSameForEveryMouse(s, 2 * s.imageWidth, mice[k], LabText(info, mice[k]), "", "");
    }
  }

  /** On the canvases `assemble_mouse_image_grid` gives, unless both ids
      are shown, placing the subjects succeeds and subject k lands where
      the cursor is after k canvases of that one size. */
  lemma SubjectGrid(sp: MasterLayout.Spacing, lab: MasterLayout.Labelling, s: SubjectCanvas.Setup,
                    types: seq<ImageType>, t: Buckets.Table, info: MasterLayout.MouseTable,
                    choose: Slots.Chooser, open: SubjectCanvas.Opener, previous: int, firstX: int,
                    mice: seq<string>, cur: MasterLayout.Cursor, k: nat)
    requires !(s.useNumber && s.useLabId) && MasterLayout.KnownImagers(lab, lab.types)
    requires forall j :: 0 <= j < |mice| ==>
      mice[j] != "return_canvas_only" && CanvasOf(s, types, t, info, choose, open, previous, mice[j]).Ok?
    requires k < |mice|
    ensures var canvases := Canvases(s, types, t, info, choose, open, previous);
      var r := MasterLayout.PlaceMice(sp, lab, canvases, firstX, mice, cur, previous);
      var at := MasterLayout.CursorAfter(sp, firstX, 2 * s.imageWidth, CanvasHeight(s, types), cur, k);
      && r.Ok?
      && |MasterLayout.ImagesOf(r.value.elements)| == |mice|
      && MasterLayout.ImagesOf(r.value.elements)[k]
         == MasterLayout.FromImage(mice[k], 2 * s.imageWidth, CanvasHeight(s, types), at.x, at.y)
  {
    var canvases := Canvases(s, types, t, info, choose, open, previous);
    var w := 2 * s.imageWidth;
    var h := CanvasHeight(s, types);
    CanvasesUniform(s, types, t, info, choose, open, previous, mice);
    MasterLayout.GridOk(sp, lab, canvases, firstX, mice, cur, previous, w, h);
    MasterLayout.GridPlaces(sp, lab, canvases, firstX, mice, cur, previous, w, h, k);
  }
}
