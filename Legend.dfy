/**
  The legend drawn on each map: one (colour, label) row per guard of the classifier,
  and a title per metric kind. Labels are carried as the program writes them.
 */
module Legend {
  import opened Wrappers
  import opened Colors
  import opened Bands
  import opened Classifier

  datatype Entry = Entry(color: Color, text: string)

  datatype Legend = Legend(entries: seq<Entry>, title: string)

  /** The rows of the `anomPorc_lluvia` legend. */
  function PctLegend(): seq<Entry>
  {
    [ Entry(Red, "[an < -150%]"),
      Entry(Firebrick, "[-150% <= an < -100%]"),
      Entry(IndianRed, "[-100% <= an < -75%]"),
      Entry(Chocolate, "[-75% <= an < -50%]"),
      Entry(Coral, "[-50% <= an < -25%]"),
      Entry(Khaki, "[-25% <= an < -10%]"),
      Entry(FloralWhite, "[-10% <= an <= 10%]"),
      Entry(MediumSpringGreen, "[10% < an <= 25%]"),
      Entry(MediumSeaGreen, "[25% < an <= 50%]"),
      Entry(Green, "[50% < an <= 75%]"),
      Entry(RoyalBlue, "[75% < an <= 100%]"),
      Entry(Blue, "[100% < an <= 150%]"),
      Entry(DarkBlue, "[150% < an ]") ]
  }

  /** The rows of the `anomMM_lluvia` legend. */
  function MmLegend(): seq<Entry>
  {
    [ Entry(Maroon, "[an < -200]"),
      Entry(Firebrick, "[-200 <= an < -150]"),
      Entry(Red, "[-150 <= an < -100]"),
      Entry(IndianRed, "[-100 <= an < -70]"),
      Entry(Orange, "[-70 <= an < -50]"),
      Entry(LightCoral, "[-50 <= an < -30]"),
      Entry(LightSalmon, "[-30 <= an < -10]"),
      Entry(FloralWhite, "[10 <= an <= 10]"),
      Entry(LightSkyBlue, "[10 < an <= 30]"),
      Entry(DarkTurquoise, "[30 < an <= 50]"),
      Entry(DeepSkyBlue, "[50 < an <= 70]"),
      Entry(RoyalBlue, "[70 < an <= 100]"),
      Entry(Blue, "[100 < an <= 150 ]"),
      Entry(DarkBlue, "[150 < an <= 200 ]"),
      Entry(Purple, "[200 < an ]") ]
  }

  /** The rows of the `acumulado_mensual` legend. */
  function CumLegend(): seq<Entry>
  {
    [ Entry(Azure, "[0-10 mm]"),
      Entry(LightCyan, "[10-20 mm]"),
      Entry(PaleTurquoise, "[20-40 mm]"),
      Entry(LightSkyBlue, "[40-60 mm]"),
      Entry(DeepSkyBlue, "[60-80 mm]"),
      Entry(SteelBlue, "[80-100 mm]"),
      Entry(DodgerBlue, "[100-140 mm]"),
      Entry(RoyalBlue, "[140-180 mm]"),
      Entry(Blue, "[180-220 mm]"),
      Entry(MediumBlue, "[220-260 mm]"),
      Entry(DarkBlue, "[250-300 mm]"),
      Entry(MediumOrchid, "[300-350 mm]"),
      Entry(DarkViolet, "[350-400 mm]"),
      Entry(Indigo, "[400 mm < acum ]") ]
  }

  /** The legend rows and title of each kind. */
  function LegendFor(k: Kind): (r: Legend)
    ensures |r.entries| == |Table(k)|
  {
    match k
    case PctAnomaly => Legend(PctLegend(), "Anomalía %")
    case MmAnomaly => Legend(MmLegend(), "Anomalía (mm)")
    case Cumulative => Legend(CumLegend(), "Acumulado (mm)")
  }

  /** Executable check that the rows from `i` on carry the colours of the guards from `i` on. */
  predicate SameColorsFrom(e: seq<Entry>, t: seq<Band>, i: nat)
    requires |e| == |t|
    decreases |t| - i
  {
    i >= |t| || (e[i].color == t[i].color && SameColorsFrom(e, t, i + 1))
  }

  lemma {:induction false} SameColorsFromSound(e: seq<Entry>, t: seq<Band>, i: nat)
    requires |e| == |t| && SameColorsFrom(e, t, i)
    ensures forall j :: i <= j < |t| ==> e[j].color == t[j].color
    decreases |t| - i
  {
    if i < |t| {
      SameColorsFromSound(e, t, i + 1);
    }
  }

  lemma PctLegendChecked()
    ensures SameColorsFrom(PctLegend(), PctTable(), 0)
  {
    assert SameColorsFrom(PctLegend(), PctTable(), 13);
    assert SameColorsFrom(PctLegend(), PctTable(), 12);
    assert SameColorsFrom(PctLegend(), PctTable(), 11);
    assert SameColorsFrom(PctLegend(), PctTable(), 10);
    assert SameColorsFrom(PctLegend(), PctTable(), 9);
    assert SameColorsFrom(PctLegend(), PctTable(), 8);
    assert SameColorsFrom(PctLegend(), PctTable(), 7);
    assert SameColorsFrom(PctLegend(), PctTable(), 6);
    assert SameColorsFrom(PctLegend(), PctTable(), 5);
    assert SameColorsFrom(PctLegend(), PctTable(), 4);
    assert SameColorsFrom(PctLegend(), PctTable(), 3);
    assert SameColorsFrom(PctLegend(), PctTable(), 2);
    assert SameColorsFrom(PctLegend(), PctTable(), 1);
  }

  lemma PctLegendMatches()
    ensures forall i :: 0 <= i < 13 ==> PctLegend()[i].color == PctTable()[i].color
  {
    PctLegendChecked();
    SameColorsFromSound(PctLegend(), PctTable(), 0);
  }

  lemma MmLegendChecked()
    ensures SameColorsFrom(MmLegend(), MmTable(), 0)
  {
    assert SameColorsFrom(MmLegend(), MmTable(), 15);
    assert SameColorsFrom(MmLegend(), MmTable(), 14);
    assert SameColorsFrom(MmLegend(), MmTable(), 13);
    assert SameColorsFrom(MmLegend(), MmTable(), 12);
    assert SameColorsFrom(MmLegend(), MmTable(), 11);
    assert SameColorsFrom(MmLegend(), MmTable(), 10);
    assert SameColorsFrom(MmLegend(), MmTable(), 9);
    assert SameColorsFrom(MmLegend(), MmTable(), 8);
    assert SameColorsFrom(MmLegend(), MmTable(), 7);
    assert SameColorsFrom(MmLegend(), MmTable(), 6);
    assert SameColorsFrom(MmLegend(), MmTable(), 5);
    assert SameColorsFrom(MmLegend(), MmTable(), 4);
    assert SameColorsFrom(MmLegend(), MmTable(), 3);
    assert SameColorsFrom(MmLegend(), MmTable(), 2);
    assert SameColorsFrom(MmLegend(), MmTable(), 1);
  }

  lemma MmLegendMatches()
    ensures forall i :: 0 <= i < 15 ==> MmLegend()[i].color == MmTable()[i].color
  {
    MmLegendChecked();
    SameColorsFromSound(MmLegend(), MmTable(), 0);
  }

  lemma CumLegendChecked()
    ensures SameColorsFrom(CumLegend(), CumTable(), 0)
  {
    assert SameColorsFrom(CumLegend(), CumTable(), 14);
    assert SameColorsFrom(CumLegend(), CumTable(), 13);
    assert SameColorsFrom(CumLegend(), CumTable(), 12);
    assert SameColorsFrom(CumLegend(), CumTable(), 11);
    assert SameColorsFrom(CumLegend(), CumTable(), 10);
    assert SameColorsFrom(CumLegend(), CumTable(), 9);
    assert SameColorsFrom(CumLegend(), CumTable(), 8);
    assert SameColorsFrom(CumLegend(), CumTable(), 7);
    assert SameColorsFrom(CumLegend(), CumTable(), 6);
    assert SameColorsFrom(CumLegend(), CumTable(), 5);
    assert SameColorsFrom(CumLegend(), CumTable(), 4);
    assert SameColorsFrom(CumLegend(), CumTable(), 3);
    assert SameColorsFrom(CumLegend(), CumTable(), 2);
    assert SameColorsFrom(CumLegend(), CumTable(), 1);
  }

  lemma CumLegendMatches()
    ensures forall i :: 0 <= i < 14 ==> CumLegend()[i].color == CumTable()[i].color
  {
    CumLegendChecked();
    SameColorsFromSound(CumLegend(), CumTable(), 0);
  }

  /** Row `i` of every legend shows the colour that guard `i` of the classifier assigns. */
  lemma LegendMatchesClassifier(k: Kind)
    ensures |LegendFor(k).entries| == |Table(k)|
    ensures forall i :: 0 <= i < |Table(k)| ==> LegendFor(k).entries[i].color == Table(k)[i].color
  {
    match k
    case PctAnomaly => PctLegendMatches();
    case MmAnomaly => MmLegendMatches();
    case Cumulative => CumLegendMatches();
  }

  /** Every marker the classifier colours has its colour on the legend, on the row of the guard that holds. */
  lemma MarkerColorInLegend(k: Kind, v: real)
    requires InDomain(k, v)
    ensures exists i :: (0 <= i < |LegendFor(k).entries| && Contains(Table(k)[i], v) &&
      Classify(k, v) == Some(LegendFor(k).entries[i].color))
  {
    CoverageIff(k, v);
    var i :| 0 <= i < |Table(k)| && Contains(Table(k)[i], v);
    ClassifyIsMatchingGuard(k, i, v);
    LegendMatchesClassifier(k);
  }

  /** The legend titles of the three kinds. */
  lemma LegendTitles()
    ensures LegendFor(PctAnomaly).title == "Anomalía %"
    ensures LegendFor(MmAnomaly).title == "Anomalía (mm)"
    ensures LegendFor(Cumulative).title == "Acumulado (mm)"
  {
  }
}
