/** Geometry of the exported composite: a column of photos with fixed size,
    spacing and padding, each followed by its caption. */
module Layout {

  const PhotoWidth: int := 640
  const PhotoHeight: int := 480
  const Spacing: int := 20
  const Padding: int := 10
  /** Horizontal inset of a caption from the photo's left edge. */
  const CaptionInset: int := 5
  /** Distance from a photo's bottom edge down to its caption's baseline. */
  const CaptionDrop: int := 15

  datatype Point = Point(x: int, y: int)

  /** Canvas width: one photo plus padding on both sides. */
  function CanvasWidth(): (w: int)
    ensures w == 660
    ensures w == Padding + PhotoWidth + Padding
  {
    PhotoWidth + Padding * 2
  }

  /** Canvas height for `n` photos, as the exporter computes it. */
  function CanvasHeight(n: nat): (h: int)
    ensures h == 500 * n
  {
    (PhotoHeight + Spacing) * n - Spacing + Padding * 2
  }

  /** Top edge of the photo at reel index `i`. */
  function PhotoTop(i: nat): (y: int)
    ensures y == 10 + 500 * i
  {
    Padding + i * (PhotoHeight + Spacing)
  }

  /** Baseline start of the caption under the photo at reel index `i`. */
  function CaptionAnchor(i: nat): (p: Point)
    ensures p.x == 15
    ensures p.y == 505 + 500 * i
  {
    Point(Padding + CaptionInset, PhotoTop(i) + PhotoHeight + CaptionDrop)
  }

  /** The vertical extent [top, bottom) of the photo at index `i`. */
  predicate InPhoto(i: nat, y: int)
  {
    PhotoTop(i) <= y < PhotoTop(i) + PhotoHeight
  }

  /** No two photos share a row of pixels. */
  lemma PhotosDisjoint(i: nat, j: nat, y: int)
    requires i != j
    ensures !(InPhoto(i, y) && InPhoto(j, y))
  {
  }

  /** Consecutive photos are separated by exactly the spacing. */
  lemma PhotosSpaced(i: nat)
    ensures PhotoTop(i + 1) - (PhotoTop(i) + PhotoHeight) == Spacing
  {
  }

  /** Every photo of an n-photo composite lies inside the canvas with the
      padding left free on every side. */
  lemma PhotosInsideCanvas(i: nat, n: nat)
    requires i < n
    ensures Padding <= PhotoTop(i)
    ensures PhotoTop(i) + PhotoHeight <= CanvasHeight(n) - Padding
    ensures Padding + PhotoWidth == CanvasWidth() - Padding
  {
  }

  /** The last photo ends exactly one padding above the bottom edge. */
  lemma LastPhotoMeetsBottomPadding(n: nat)
    requires n >= 1
    ensures PhotoTop(n - 1) + PhotoHeight == CanvasHeight(n) - Padding
  {
  }

  /** A caption under any photo but the last sits in the gap below its photo,
      five pixels above the next photo. */
  lemma InnerCaptionInGap(i: nat)
    ensures PhotoTop(i) + PhotoHeight < CaptionAnchor(i).y < PhotoTop(i + 1)
    ensures PhotoTop(i + 1) - CaptionAnchor(i).y == 5
  {
  }

  /** As written, the last caption's baseline lies below the bottom edge of
      the canvas for every non-empty reel, so that caption is clipped. */
  lemma LastCaptionBelowCanvas(n: nat)
    requires n >= 1
    ensures CaptionAnchor(n - 1).y == CanvasHeight(n) + 5
    ensures CaptionAnchor(n - 1).y > CanvasHeight(n)
  {
  }

  /** Corrected height: the spacing is allotted after every photo, the last
      one included, so the last caption has room like the others. */
  function CaptionSafeHeight(n: nat): (h: int)
    ensures h == CanvasHeight(n) + Spacing
  {
    (PhotoHeight + Spacing) * n + Padding * 2
  }

  /** With the corrected height every photo is still inside the padded
      canvas, and every caption baseline lies inside the canvas with at least
      the five pixels of clearance the inner captions have. */
  lemma CaptionsInsideSafeCanvas(i: nat, n: nat)
    requires i < n
    ensures Padding <= PhotoTop(i)
    ensures PhotoTop(i) + PhotoHeight <= CaptionSafeHeight(n) - Padding
    ensures CaptionAnchor(i).y + 5 <= CaptionSafeHeight(n)
  {
  }
}
