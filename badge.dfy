/** The badge colour rule getCoverageColor of formats/badge.go. */
module Badge {

  const Grey := "#9f9f9f"
  const Red := "#E05D44"
  const Orange := "#FE7D37"
  const Yellow := "#DFB317"
  const YellowGreen := "#A4A61D"
  const Green := "#97CA00"
  const BrightGreen := "#4c1"

  /**
    getCoverageColor as written: the first test, percent >= 5, already catches every
    value the later tests would, so only grey and red are ever chosen.
  */
  function CoverageColor(percent: real): (color: string)
    ensures color == Grey <==> percent < 5.0
    ensures color == Red <==> percent >= 5.0
  {
    if percent >= 5.0 then Red
    else if percent >= 20.0 then Orange
    else if percent >= 40.0 then Yellow
    else if percent >= 60.0 then YellowGreen
    else if percent >= 80.0 then Green
    else if percent >= 90.0 then BrightGreen
    else Grey
  }

  /** The orange, yellow, yellow-green, green and bright-green branches are dead. */
  lemma OnlyGreyOrRed(percent: real)
    ensures CoverageColor(percent) !in {Orange, Yellow, YellowGreen, Green, BrightGreen}
  {
  }

  /** Red is upward closed. */
  lemma CoverageColorMonotone(p: real, q: real)
    requires p <= q && CoverageColor(p) == Red
    ensures CoverageColor(q) == Red
  {
  }

  /** The colours in the order of the coverage they stand for, grey lowest. */
  function Rank(color: string): nat
  {
    if color == BrightGreen then 6
    else if color == Green then 5
    else if color == YellowGreen then 4
    else if color == Yellow then 3
    else if color == Orange then 2
    else if color == Red then 1
    else 0
  }

  /**
    The evidently intended rule: the thresholds tested from the highest down, so
    each band of the value gets its own colour.
  */
  function BandColor(percent: real): (color: string)
    ensures percent < 5.0 <==> color == Grey
    ensures 5.0 <= percent < 20.0 <==> color == Red
    ensures 20.0 <= percent < 40.0 <==> color == Orange
    ensures 40.0 <= percent < 60.0 <==> color == Yellow
    ensures 60.0 <= percent < 80.0 <==> color == YellowGreen
    ensures 80.0 <= percent < 90.0 <==> color == Green
    ensures 90.0 <= percent <==> color == BrightGreen
  {
    if percent >= 90.0 then BrightGreen
    else if percent >= 80.0 then Green
    else if percent >= 60.0 then YellowGreen
    else if percent >= 40.0 then Yellow
    else if percent >= 20.0 then Orange
    else if percent >= 5.0 then Red
    else Grey
  }

  /** A higher value never gets a lower colour. */
  lemma BandColorMonotone(p: real, q: real)
    requires p <= q
    ensures Rank(BandColor(p)) <= Rank(BandColor(q))
  {
  }

  /** The rule as written and the intended one part at 20: red against orange. */
  lemma CoverageColorDiffers()
    ensures CoverageColor(20.0) == Red && BandColor(20.0) == Orange
  {
  }

  /** Both rules agree below 20, the only range where the rule as written works. */
  lemma CoverageColorAgreesBelowTwenty(percent: real)
    requires percent < 20.0
    ensures CoverageColor(percent) == BandColor(percent)
  {
  }
}
