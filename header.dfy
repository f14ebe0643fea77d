/** The header band drawn at the top of every page: two logo boxes flanking a centred
    four-line title. Only its geometry is modelled; it always hands content the same
    starting height. */
module Header {

  /** A positive length. */
  type Pos = r: real | r > 0.0 witness 1.0

  /** An image reference as the report receives it: absent or empty (falsy), data the
      document library cannot decode (it throws), or a decoded raster of known size. */
  datatype Asset = Blank | Corrupt | Raster(width: Pos, height: Pos)

  datatype Rect = Rect(x: real, y: real, w: real, h: real)

  /** What a logo slot of the header shows. */
  datatype Slot = Empty | Logo(at: Rect) | Filler(at: Rect)

  datatype Band = Band(titleCenterX: real, left: Slot, right: Slot, contentStart: real)

  const HeaderStart: real := 15.0
  const RightBox: real := 24.0
  const LeftBox: real := 28.0
  /** The line both logos sit on. */
  const LogoBaseline: real := HeaderStart + 17.0
  /** Where page content starts below the header. */
  const ContentStart: real := 50.0

  /** The rectangle lies inside the square box of side `box` whose left edge is `boxX`
      and whose bottom edge is `baseline`. */
  predicate InBox(r: Rect, boxX: real, box: real, baseline: real)
  {
    boxX <= r.x && r.x + r.w <= boxX + box && baseline - box <= r.y && r.y + r.h <= baseline
  }

  /** The aspect ratio exceeds one exactly when the image is wider than tall. */
  lemma RatioAboveOne(imgW: Pos, imgH: Pos)
    ensures imgW / imgH > 1.0 <==> imgW > imgH
  {
    assert (imgW / imgH) * imgH == imgW;
    if imgW / imgH > 1.0 {
      assert (imgW / imgH) * imgH > 1.0 * imgH;
    } else {
      assert (imgW / imgH) * imgH <= 1.0 * imgH;
    }
  }

  /** The height a wide image gets when scaled to the box's width: less than the box, and
      in the image's aspect ratio. */
  function WideHeight(box: Pos, imgW: Pos, imgH: Pos): (h: real)
    requires imgW > imgH
    ensures 0.0 < h < box && box * imgH == h * imgW
  {
    var ratio := imgW / imgH;
    assert ratio * imgH == imgW;
    assert ratio > 1.0;
    var h := box / ratio;
    assert h * ratio == box;
    assert h * imgW == h * (ratio * imgH) == (h * ratio) * imgH;
    h
  }

  /** The width an image that is not wide gets when scaled to the box's height: at most
      the box, and in the image's aspect ratio. */
  function TallWidth(box: Pos, imgW: Pos, imgH: Pos): (w: real)
    requires imgW <= imgH
    ensures 0.0 < w <= box && w * imgH == box * imgW
  {
    var ratio := imgW / imgH;
    assert ratio * imgH == imgW;
    assert ratio <= 1.0;
    assert box * ratio <= box * 1.0;
    assert (box * ratio) * imgH == box * (ratio * imgH);
    box * ratio
  }

  /** Scales an image of size imgW x imgH into a square box, keeping its aspect ratio:
      a wide image takes the box's width, any other its height; the result is centred
      horizontally and stands on the baseline. */
  function FitLogo(boxX: real, box: Pos, baseline: real, imgW: Pos, imgH: Pos): (r: Rect)
    ensures 0.0 < r.w <= box && 0.0 < r.h <= box
    ensures imgW > imgH ==> r.w == box
    ensures imgW <= imgH ==> r.h == box
    ensures r.w * imgH == r.h * imgW
    ensures r.x + r.w / 2.0 == boxX + box / 2.0
    ensures r.y + r.h == baseline
    ensures InBox(r, boxX, box, baseline)
  {
    RatioAboveOne(imgW, imgH);
    if imgW / imgH > 1.0 then
      var h := WideHeight(box, imgW, imgH);
      Rect(boxX + (box - box) / 2.0, baseline - h, box, h)
    else
      var w := TallWidth(box, imgW, imgH);
      Rect(boxX + (box - w) / 2.0, baseline - box, w, box)
  }

  /** The right slot: a fitted logo, nothing when the image cannot be decoded, or a solid
      placeholder square filling the whole box when no logo is given. */
  function RightSlot(pageWidth: real, margin: real, logo: Asset): (s: Slot)
    ensures logo.Raster? <==> s.Logo?
    ensures logo.Blank? <==> s.Filler?
    ensures s.Filler? ==> s.at == Rect(pageWidth - margin - RightBox, LogoBaseline - RightBox, RightBox, RightBox)
    ensures s.Logo? ==> InBox(s.at, pageWidth - margin - RightBox, RightBox, LogoBaseline)
    ensures logo.Raster? ==>
      s == Logo(FitLogo(pageWidth - margin - RightBox, RightBox, LogoBaseline, logo.width, logo.height))
  {
    var boxX := pageWidth - margin - RightBox;
    match logo
    case Blank => Filler(Rect(boxX, LogoBaseline - RightBox, RightBox, RightBox))
    case Corrupt => Empty
    case Raster(w, h) => Logo(FitLogo(boxX, RightBox, LogoBaseline, w, h))
  }

  /** The left slot: a fitted logo, otherwise nothing. */
  function LeftSlot(margin: real, logo: Asset): (s: Slot)
    ensures logo.Raster? <==> s.Logo?
    ensures !s.Filler?
    ensures s.Logo? ==> InBox(s.at, margin, LeftBox, LogoBaseline)
    ensures logo.Raster? ==> s == Logo(FitLogo(margin, LeftBox, LogoBaseline, logo.width, logo.height))
  {
    match logo
    case Raster(w, h) => Logo(FitLogo(margin, LeftBox, LogoBaseline, w, h))
    case _ => Empty
  }

  /** `drawHeader`: the header's geometry for the given logos. The title is centred between
      the inner edges of the two logo boxes, and content always starts at the same height,
      below both logos. */
  function HeaderBand(pageWidth: real, margin: real, left: Asset, right: Asset): (b: Band)
    ensures b.titleCenterX - (margin + LeftBox) == (pageWidth - margin - RightBox) - b.titleCenterX
    ensures b.left == LeftSlot(margin, left) && b.right == RightSlot(pageWidth, margin, right)
    ensures b.contentStart == ContentStart && b.contentStart > LogoBaseline
  {
    var contentStartX := margin + LeftBox;
    var contentEndX := pageWidth - margin - RightBox;
    Band((contentStartX + contentEndX) / 2.0, LeftSlot(margin, left), RightSlot(pageWidth, margin, right), 50.0)
  }
}
