/** The two adaptive sizing decisions of the layout: how large the location map is drawn,
    and how much room is left between the technical opinion and the signature. Both look
    at the space left on the current page and either shrink towards a floor or ask for a
    fresh page. */
module Sizing {

  const MapMaxSize: real := 120.0
  const MapMinSize: real := 60.0

  /** The chosen map side and whether a new page must be started first. */
  datatype MapFit = MapFit(size: real, newPage: bool)

  /** The map's side length given the space available below the cursor: the full size when
      it fits, the available space when that is at least the floor, and otherwise the full
      size on a fresh page. The map is never drawn larger than the room it was given. */
  function MapSize(available: real): (r: MapFit)
    ensures MapMinSize <= r.size <= MapMaxSize
    ensures r.newPage <==> available < MapMinSize
    ensures !r.newPage ==> r.size <= available
    ensures r.newPage ==> r.size == MapMaxSize
    ensures available >= MapMaxSize ==> r.size == MapMaxSize
    ensures MapMinSize <= available < MapMaxSize ==> r.size == available
  {
    if available < MapMaxSize then
      if available >= MapMinSize then MapFit(available, false)
      else MapFit(MapMaxSize, true)
    else MapFit(MapMaxSize, false)
  }

  /** More room never gives a smaller map, as long as neither choice moves to a new page. */
  lemma MapSizeMonotone(a: real, b: real)
    requires a <= b && !MapSize(a).newPage
    ensures !MapSize(b).newPage && MapSize(a).size <= MapSize(b).size
  {
  }

  /** A chosen size, offered as the available space, is chosen again unchanged. */
  lemma MapSizeFixedPoint(available: real)
    ensures MapSize(MapSize(available).size) == MapFit(MapSize(available).size, false)
  {
  }

  const SignatureHeight: real := 35.0
  const PreferredSigGap: real := 35.0
  const MinSigGap: real := 15.0

  /** The gap above the signature and whether the closing sections start a new page. */
  datatype GapChoice = GapChoice(gap: real, newPage: bool)

  function Max(a: real, b: real): real { if a >= b then a else b }

  /** The signature gap given the room left on the page and the estimated height of the
      closing text: the preferred gap when everything fits with it, a reduced gap (never
      under the floor) when it fits only with less, and otherwise the preferred gap on a
      new page. Without a new page, text, gap and signature fit in the room left. */
  function SignatureGap(remaining: real, textBlocks: real): (r: GapChoice)
    ensures MinSigGap <= r.gap <= PreferredSigGap
    ensures r.newPage <==> remaining < textBlocks + MinSigGap + SignatureHeight
    ensures r.newPage ==> r.gap == PreferredSigGap
    ensures !r.newPage ==> textBlocks + r.gap + SignatureHeight <= remaining
    ensures remaining >= textBlocks + PreferredSigGap + SignatureHeight ==> r.gap == PreferredSigGap
    ensures !r.newPage && remaining < textBlocks + PreferredSigGap + SignatureHeight ==>
              r.gap == remaining - textBlocks - SignatureHeight
  {
    if remaining < textBlocks + MinSigGap + SignatureHeight then
      GapChoice(PreferredSigGap, true)
    else if remaining < textBlocks + PreferredSigGap + SignatureHeight then
      GapChoice(Max(MinSigGap, remaining - textBlocks - SignatureHeight), false)
    else
      GapChoice(PreferredSigGap, false)
  }

  /** With the same text, more room never gives a smaller gap unless the smaller room
      needed a new page. */
  lemma SignatureGapMonotone(r1: real, r2: real, textBlocks: real)
    requires r1 <= r2 && !SignatureGap(r1, textBlocks).newPage
    ensures !SignatureGap(r2, textBlocks).newPage
    ensures SignatureGap(r1, textBlocks).gap <= SignatureGap(r2, textBlocks).gap
  {
  }
}
