/** Images as sizes and fonts as bounding-box functions: what the layout
    code needs of PIL. */
module Geometry {

  /** The size of an image, `image.size`. */
  datatype Size = Size(width: nat, height: nat)

  /** `font.getbbox(text)`: the ink box of a text drawn at the origin. */
  datatype BBox = BBox(x0: int, y0: int, x1: int, y1: int)

  /** A font is only its bounding-box function. */
  type Font = string -> BBox

  /** What `measure_text` returns: width, height and baseline offset. */
  datatype Metrics = Metrics(width: int, height: int, baseline: int)

  function Measure(b: BBox): Metrics
  {
    Metrics(b.x1 - b.x0, b.y1 - b.y0, -b.y0)
  }

  function MeasureText(font: Font, text: string): Metrics
  {
    Measure(font(text))
  }

  function Min(a: int, b: int): int { if a < b then a else b }

  function Max(a: int, b: int): int { if a < b then b else a }
}
