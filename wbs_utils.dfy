/** The colour scheme of a progress bar, chosen by completion percentage.

    The percentage is any real number (the caller may pass a fraction or a value out of
    range); the bands are half-open intervals, and exactly 0 has a grey band of its own. */
module WbsUtils {

  /** The six colours a progress bar can take, in increasing order of completion. */
  datatype Band = Neutral | Red | Orange | Yellow | Cyan | PastelGreen | AuroraGreen

  datatype ProgressColor = ProgressColor(fill: string, glow: string, bg: string,
                                         insetShadow: string, textShadowMd: string,
                                         textShadowXs: string)

  const InsetShadowDark: string := "inset 0 1px 2px rgba(0, 0, 0, 0.3)"
  const InsetShadowLight: string := "inset 0 1px 2px rgba(0, 0, 0, 0.2)"

  function TextShadowMd(glow: string): string { "0 0 8px " + glow }
  function TextShadowXs(glow: string): string { "0 0 1px " + glow }

  /** The band of a percentage: 0 is grey; then below 30, 50, 70, 90 and 100; 100 and
      above is the intense green. */
  function BandOf(percent: real): Band
  {
    if percent == 0.0 then Neutral
    else if percent < 30.0 then Red
    else if percent < 50.0 then Orange
    else if percent < 70.0 then Yellow
    else if percent < 90.0 then Cyan
    else if percent < 100.0 then PastelGreen
    else AuroraGreen
  }

  /** `getProgressColor`: the if-chain of the source, one colour set per band. */
  function GetProgressColor(percent: real): (c: ProgressColor)
    ensures c.textShadowMd == TextShadowMd(c.glow) && c.textShadowXs == TextShadowXs(c.glow)
  {
    if percent == 0.0 then
      var glow := "rgba(92, 102, 119, 0.5)";
      ProgressColor("var(--mv-primitive-neutral-500)", glow, "rgba(92, 102, 119, 0.2)",
                    InsetShadowDark, TextShadowMd(glow), TextShadowXs(glow))
    else if percent < 30.0 then
      var glow := "rgba(218, 126, 135, 0.4)";
      ProgressColor("var(--mv-primitive-aurora-red)", glow, "rgba(218, 126, 135, 0.2)",
                    InsetShadowDark, TextShadowMd(glow), TextShadowXs(glow))
    else if percent < 50.0 then
      var glow := "rgba(224, 152, 128, 0.4)";
      ProgressColor("var(--mv-primitive-aurora-orange)", glow, "rgba(224, 152, 128, 0.2)",
                    InsetShadowDark, TextShadowMd(glow), TextShadowXs(glow))
    else if percent < 70.0 then
      var glow := "rgba(245, 222, 170, 0.4)";
      ProgressColor("var(--mv-primitive-aurora-yellow)", glow, "rgba(245, 222, 170, 0.2)",
                    InsetShadowDark, TextShadowMd(glow), TextShadowXs(glow))
    else if percent < 90.0 then
      var glow := "rgba(181, 232, 255, 0.5)";
      ProgressColor("var(--mv-progress-bar-fill)", glow, "rgba(181, 232, 255, 0.2)",
                    InsetShadowLight, TextShadowMd(glow), TextShadowXs(glow))
    else if percent < 100.0 then
      var glow := "rgba(143, 191, 159, 0.5)";
      ProgressColor("var(--mv-primitive-pastel-green)", glow, "rgba(143, 191, 159, 0.2)",
                    InsetShadowLight, TextShadowMd(glow), TextShadowXs(glow))
    else
      var glow := "rgba(184, 222, 166, 0.6)";
      ProgressColor("var(--mv-primitive-aurora-green)", glow, "rgba(184, 222, 166, 0.2)",
                    InsetShadowLight, TextShadowMd(glow), TextShadowXs(glow))
  }

  /** The fill variable each band shows. */
  function BandFill(b: Band): string
  {
    match b
    case Neutral => "var(--mv-primitive-neutral-500)"
    case Red => "var(--mv-primitive-aurora-red)"
    case Orange => "var(--mv-primitive-aurora-orange)"
    case Yellow => "var(--mv-primitive-aurora-yellow)"
    case Cyan => "var(--mv-progress-bar-fill)"
    case PastelGreen => "var(--mv-primitive-pastel-green)"
    case AuroraGreen => "var(--mv-primitive-aurora-green)"
  }

  /** The fill follows the band of the percentage, and distinct bands have distinct fills:
      the colour tells the band apart. */
  lemma FillIsBand(percent: real)
    ensures GetProgressColor(percent).fill == BandFill(BandOf(percent))
    ensures forall b1: Band, b2: Band :: BandFill(b1) == BandFill(b2) ==> b1 == b2
  {
    forall b1: Band, b2: Band | BandFill(b1) == BandFill(b2)
      ensures b1 == b2
    {
      if b1 != b2 {
        DistinctFills(b1, b2);
      }
    }
  }

  lemma DistinctFills(b1: Band, b2: Band)
    requires b1 != b2
    ensures BandFill(b1) != BandFill(b2)
  {
    var f1, f2 := BandFill(b1), BandFill(b2);
    if |f1| == |f2| {
      // fills of equal length differ in the first letter of their colour name
      match (b1, b2)
      case (Orange, Yellow) => assert f1[26] != f2[26];
      case (Yellow, Orange) => assert f1[26] != f2[26];
      case (PastelGreen, AuroraGreen) => assert f1[19] != f2[19];
      case (AuroraGreen, PastelGreen) => assert f1[19] != f2[19];
      case _ => assert false;
    }
  }

  /** Exactly 0 is grey, and only 0: any other value, including a negative one, is in a
      coloured band, and a negative value is red. */
  lemma ZeroIsNeutral(percent: real)
    ensures BandOf(percent) == Neutral <==> percent == 0.0
    ensures percent < 0.0 ==> BandOf(percent) == Red
    ensures percent >= 100.0 ==> BandOf(percent) == AuroraGreen
  {
  }

  /** The bands are monotone: more progress never shows an earlier band, apart from the
      grey of exactly 0. */
  lemma BandsMonotone(p: real, q: real)
    requires 0.0 < p <= q
    ensures BandRank(BandOf(p)) <= BandRank(BandOf(q))
  {
  }

  function BandRank(b: Band): nat
  {
    match b
    case Neutral => 0
    case Red => 1
    case Orange => 2
    case Yellow => 3
    case Cyan => 4
    case PastelGreen => 5
    case AuroraGreen => 6
  }

  /** The inner shadow is the dark one exactly below 70 (so also for 0 and for negative
      values) and the light one from 70 on. */
  lemma InsetShadowByThreshold(percent: real)
    ensures GetProgressColor(percent).insetShadow == InsetShadowDark <==> percent < 70.0
    ensures GetProgressColor(percent).insetShadow == InsetShadowLight <==> percent >= 70.0
  {
    assert InsetShadowDark[32] != InsetShadowLight[32];
  }

  /** `rgba(<rgb>, <alpha>)`. */
  function Rgba(rgb: string, alpha: string): string
  {
    "rgba(" + rgb + ", " + alpha + ")"
  }

  /** The channel triple of each band's colour. */
  function BandRgb(b: Band): string
  {
    match b
    case Neutral => "92, 102, 119"
    case Red => "218, 126, 135"
    case Orange => "224, 152, 128"
    case Yellow => "245, 222, 170"
    case Cyan => "181, 232, 255"
    case PastelGreen => "143, 191, 159"
    case AuroraGreen => "184, 222, 166"
  }

  /** The background is the glow's colour at alpha 0.2, in every band. */
  lemma BackgroundMatchesGlow(percent: real)
    ensures exists alpha :: GetProgressColor(percent).glow == Rgba(BandRgb(BandOf(percent)), alpha)
    ensures GetProgressColor(percent).bg == Rgba(BandRgb(BandOf(percent)), "0.2")
  {
    if percent == 0.0 {
      NeutralColours(percent);
      assert GetProgressColor(percent).glow == Rgba(BandRgb(BandOf(percent)), "0.5");
    } else if percent != 0.0 && percent < 30.0 {
      RedColours(percent);
      assert GetProgressColor(percent).glow == Rgba(BandRgb(BandOf(percent)), "0.4");
    } else if 30.0 <= percent < 50.0 {
      OrangeColours(percent);
      assert GetProgressColor(percent).glow == Rgba(BandRgb(BandOf(percent)), "0.4");
    } else if 50.0 <= percent < 70.0 {
      YellowColours(percent);
      assert GetProgressColor(percent).glow == Rgba(BandRgb(BandOf(percent)), "0.4");
    } else if 70.0 <= percent < 90.0 {
      CyanColours(percent);
      assert GetProgressColor(percent).glow == Rgba(BandRgb(BandOf(percent)), "0.5");
    } else if 90.0 <= percent < 100.0 {
      PastelGreenColours(percent);
      assert GetProgressColor(percent).glow == Rgba(BandRgb(BandOf(percent)), "0.5");
    } else {
      AuroraGreenColours(percent);
      assert GetProgressColor(percent).glow == Rgba(BandRgb(BandOf(percent)), "0.6");
    }
  }

  lemma NeutralColours(percent: real)
    requires percent == 0.0
    ensures GetProgressColor(percent).glow == Rgba(BandRgb(Neutral), "0.5")
    ensures GetProgressColor(percent).bg == Rgba(BandRgb(Neutral), "0.2")
  {
    NeutralRgba();
  }

  /** The Neutral band's two colour strings, spelled out. */
  lemma NeutralRgba()
    ensures Rgba(BandRgb(Neutral), "0.5") == "rgba(92, 102, 119, 0.5)"
    ensures Rgba(BandRgb(Neutral), "0.2") == "rgba(92, 102, 119, 0.2)"
  {
  }

  lemma RedColours(percent: real)
    requires percent != 0.0 && percent < 30.0
    ensures GetProgressColor(percent).glow == Rgba(BandRgb(Red), "0.4")
    ensures GetProgressColor(percent).bg == Rgba(BandRgb(Red), "0.2")
  {
    RedRgba();
  }

  /** The Red band's two colour strings, spelled out. */
  lemma RedRgba()
    ensures Rgba(BandRgb(Red), "0.4") == "rgba(218, 126, 135, 0.4)"
    ensures Rgba(BandRgb(Red), "0.2") == "rgba(218, 126, 135, 0.2)"
  {
  }

  lemma OrangeColours(percent: real)
    requires 30.0 <= percent < 50.0
    ensures GetProgressColor(percent).glow == Rgba(BandRgb(Orange), "0.4")
    ensures GetProgressColor(percent).bg == Rgba(BandRgb(Orange), "0.2")
  {
    OrangeRgba();
  }

  /** The Orange band's two colour strings, spelled out. */
  lemma OrangeRgba()
    ensures Rgba(BandRgb(Orange), "0.4") == "rgba(224, 152, 128, 0.4)"
    ensures Rgba(BandRgb(Orange), "0.2") == "rgba(224, 152, 128, 0.2)"
  {
  }

  lemma YellowColours(percent: real)
    requires 50.0 <= percent < 70.0
    ensures GetProgressColor(percent).glow == Rgba(BandRgb(Yellow), "0.4")
    ensures GetProgressColor(percent).bg == Rgba(BandRgb(Yellow), "0.2")
  {
    YellowRgba();
  }

  /** The Yellow band's two colour strings, spelled out. */
  lemma YellowRgba()
    ensures Rgba(BandRgb(Yellow), "0.4") == "rgba(245, 222, 170, 0.4)"
    ensures Rgba(BandRgb(Yellow), "0.2") == "rgba(245, 222, 170, 0.2)"
  {
  }

  lemma CyanColours(percent: real)
    requires 70.0 <= percent < 90.0
    ensures GetProgressColor(percent).glow == Rgba(BandRgb(Cyan), "0.5")
    ensures GetProgressColor(percent).bg == Rgba(BandRgb(Cyan), "0.2")
  {
    CyanRgba();
  }

  /** The Cyan band's two colour strings, spelled out. */
  lemma CyanRgba()
    ensures Rgba(BandRgb(Cyan), "0.5") == "rgba(181, 232, 255, 0.5)"
    ensures Rgba(BandRgb(Cyan), "0.2") == "rgba(181, 232, 255, 0.2)"
  {
  }

  lemma PastelGreenColours(percent: real)
    requires 90.0 <= percent < 100.0
    ensures GetProgressColor(percent).glow == Rgba(BandRgb(PastelGreen), "0.5")
    ensures GetProgressColor(percent).bg == Rgba(BandRgb(PastelGreen), "0.2")
  {
    PastelGreenRgba();
  }

  /** The PastelGreen band's two colour strings, spelled out. */
  lemma PastelGreenRgba()
    ensures Rgba(BandRgb(PastelGreen), "0.5") == "rgba(143, 191, 159, 0.5)"
    ensures Rgba(BandRgb(PastelGreen), "0.2") == "rgba(143, 191, 159, 0.2)"
  {
  }

  lemma AuroraGreenColours(percent: real)
    requires 100.0 <= percent
    ensures GetProgressColor(percent).glow == Rgba(BandRgb(AuroraGreen), "0.6")
    ensures GetProgressColor(percent).bg == Rgba(BandRgb(AuroraGreen), "0.2")
  {
    AuroraGreenRgba();
  }

  /** The AuroraGreen band's two colour strings, spelled out. */
  lemma AuroraGreenRgba()
    ensures Rgba(BandRgb(AuroraGreen), "0.6") == "rgba(184, 222, 166, 0.6)"
    ensures Rgba(BandRgb(AuroraGreen), "0.2") == "rgba(184, 222, 166, 0.2)"
  {
  }
}
