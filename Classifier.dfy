/**
  The value-to-colour classifier of the precipitation maps: for each metric kind an
  ordered table of interval guards, the sequential-if classifier that runs them, and
  the colour-name lookup that follows it.
 */
module Classifier {
  import opened Wrappers
  import opened Colors
  import opened Bands

  /** The three metrics drawn, in the order the maps are produced. */
  datatype Kind = PctAnomaly | MmAnomaly | Cumulative

  /** The guards of `anomPorc_lluvia`, in the order they run. */
  function PctTable(): seq<Band>
  {
    [ Band(NoLower, Below(-150), Red),
      Band(AtLeast(-150), Below(-100), Firebrick),
      Band(AtLeast(-100), Below(-75), IndianRed),
      Band(AtLeast(-75), Below(-50), Chocolate),
      Band(AtLeast(-50), Below(-25), Coral),
      Band(AtLeast(-25), Below(-10), Khaki),
      Band(AtLeast(-10), AtMost(10), FloralWhite),
      Band(Above(10), AtMost(25), MediumSpringGreen),
      Band(Above(25), AtMost(50), MediumSeaGreen),
      Band(Above(50), AtMost(75), Green),
      Band(Above(75), AtMost(100), RoyalBlue),
      Band(Above(100), AtMost(150), Blue),
      Band(Above(150), NoUpper, DarkBlue) ]
  }

  /** The guards of `anomMM_lluvia`, in the order they run. */
  function MmTable(): seq<Band>
  {
    [ Band(NoLower, Below(-200), Maroon),
      Band(AtLeast(-200), Below(-150), Firebrick),
      Band(AtLeast(-150), Below(-100), Red),
      Band(AtLeast(-100), Below(-70), IndianRed),
      Band(AtLeast(-70), Below(-50), Orange),
      Band(AtLeast(-50), Below(-30), LightCoral),
      Band(AtLeast(-30), Below(-10), LightSalmon),
      Band(AtLeast(-10), AtMost(10), FloralWhite),
      Band(Above(10), AtMost(30), LightSkyBlue),
      Band(Above(30), AtMost(50), DarkTurquoise),
      Band(Above(50), AtMost(70), DeepSkyBlue),
      Band(Above(70), AtMost(100), RoyalBlue),
      Band(Above(100), AtMost(150), Blue),
      Band(Above(150), AtMost(200), DarkBlue),
      Band(Above(200), NoUpper, Purple) ]
  }

  /** The guards of `acumulado_mensual`, in the order they run. */
  function CumTable(): seq<Band>
  {
    [ Band(AtLeast(0), Below(10), Azure),
      Band(AtLeast(10), Below(20), LightCyan),
      Band(AtLeast(20), Below(40), PaleTurquoise),
      Band(AtLeast(40), Below(60), LightSkyBlue),
      Band(AtLeast(60), Below(80), DeepSkyBlue),
      Band(AtLeast(80), Below(100), SteelBlue),
      Band(AtLeast(100), Below(140), DodgerBlue),
      Band(AtLeast(140), Below(180), RoyalBlue),
      Band(AtLeast(180), Below(220), Blue),
      Band(AtLeast(220), Below(260), MediumBlue),
      Band(AtLeast(260), Below(300), DarkBlue),
      Band(AtLeast(300), Below(350), MediumOrchid),
      Band(AtLeast(350), Below(400), DarkViolet),
      Band(Above(400), NoUpper, Indigo) ]
  }

  /** The `tipo` string the program passes for each kind. */
  function TipoName(k: Kind): string
  {
    match k
    case PctAnomaly => "anomPorc_lluvia"
    case MmAnomaly => "anomMM_lluvia"
    case Cumulative => "acumulado_mensual"
  }

  /** The kind a `tipo` string selects; any other string selects none of the branches. */
  function ParseTipo(tipo: string): (r: Option<Kind>)
    ensures r.Some? ==> TipoName(r.value) == tipo
  {
    if tipo == "anomPorc_lluvia" then Some(PctAnomaly)
    else if tipo == "anomMM_lluvia" then Some(MmAnomaly)
    else if tipo == "acumulado_mensual" then Some(Cumulative)
    else None
  }

  /** Every kind's `tipo` string selects that kind. */
  lemma TipoRoundTrip(k: Kind)
    ensures ParseTipo(TipoName(k)) == Some(k)
  {
  }

  function Table(k: Kind): (t: seq<Band>)
    ensures |t| == match k case PctAnomaly => 13 case MmAnomaly => 15 case Cumulative => 14
  {
    match k
    case PctAnomaly => PctTable()
    case MmAnomaly => MmTable()
    case Cumulative => CumTable()
  }

  /**
    The outcome of the classifier: the name left by the last guard that holds, looked up
    in the CSS4 table (None where the lookup raises KeyError).
   */
  function Classify(k: Kind, v: real): (r: Option<Color>)
    ensures r.Some? <==> InDomain(k, v)
    ensures forall i :: 0 <= i < |Table(k)| && Contains(Table(k)[i], v) ==> r == Some(Table(k)[i].color)
  {
    LastMatchEmptyIff(Table(k), v);
    CoverageIff(k, v);
    TableAscending(k);
    LastMatchAgrees(Table(k), v);
    Css4Lookup(LastMatch(Table(k), v))
  }

  /** The values for which some guard of the kind holds. */
  predicate InDomain(k: Kind, v: real)
  {
    k != Cumulative || (0.0 <= v && v != 400.0)
  }

  /** The `anomPorc_lluvia` branch: the empty name, overwritten by each of the 13 guards that holds. */
  method PctColor(v: real) returns (color: Option<Color>)
    ensures color == LastMatch(PctTable(), v)
  {
    color := None;
    if v < -150.0 { color := Some(Red); }
    assert color == LastMatchIn(PctTable(), 1, v);
    if -150.0 <= v < -100.0 { color := Some(Firebrick); }
    assert color == LastMatchIn(PctTable(), 2, v);
    if -100.0 <= v < -75.0 { color := Some(IndianRed); }
    assert color == LastMatchIn(PctTable(), 3, v);
    if -75.0 <= v < -50.0 { color := Some(Chocolate); }
    assert color == LastMatchIn(PctTable(), 4, v);
    if -50.0 <= v < -25.0 { color := Some(Coral); }
    assert color == LastMatchIn(PctTable(), 5, v);
    if -25.0 <= v < -10.0 { color := Some(Khaki); }
    assert color == LastMatchIn(PctTable(), 6, v);
    if -10.0 <= v <= 10.0 { color := Some(FloralWhite); }
    assert color == LastMatchIn(PctTable(), 7, v);
    if 10.0 < v <= 25.0 { color := Some(MediumSpringGreen); }
    assert color == LastMatchIn(PctTable(), 8, v);
    if 25.0 < v <= 50.0 { color := Some(MediumSeaGreen); }
    assert color == LastMatchIn(PctTable(), 9, v);
    if 50.0 < v <= 75.0 { color := Some(Green); }
    assert color == LastMatchIn(PctTable(), 10, v);
    if 75.0 < v <= 100.0 { color := Some(RoyalBlue); }
    assert color == LastMatchIn(PctTable(), 11, v);
    if 100.0 < v <= 150.0 { color := Some(Blue); }
    assert color == LastMatchIn(PctTable(), 12, v);
    if 150.0 < v { color := Some(DarkBlue); }
    assert color == LastMatchIn(PctTable(), 13, v);
  }

  /** The `anomMM_lluvia` branch: the empty name, overwritten by each of the 15 guards that holds. */
  method MmColor(v: real) returns (color: Option<Color>)
    ensures color == LastMatch(MmTable(), v)
  {
    color := None;
    if v < -200.0 { color := Some(Maroon); }
    assert color == LastMatchIn(MmTable(), 1, v);
    if -200.0 <= v < -150.0 { color := Some(Firebrick); }
    assert color == LastMatchIn(MmTable(), 2, v);
    if -150.0 <= v < -100.0 { color := Some(Red); }
    assert color == LastMatchIn(MmTable(), 3, v);
    if -100.0 <= v < -70.0 { color := Some(IndianRed); }
    assert color == LastMatchIn(MmTable(), 4, v);
    if -70.0 <= v < -50.0 { color := Some(Orange); }
    assert color == LastMatchIn(MmTable(), 5, v);
    if -50.0 <= v < -30.0 { color := Some(LightCoral); }
    assert color == LastMatchIn(MmTable(), 6, v);
    if -30.0 <= v < -10.0 { color := Some(LightSalmon); }
    assert color == LastMatchIn(MmTable(), 7, v);
    if -10.0 <= v <= 10.0 { color := Some(FloralWhite); }
    assert color == LastMatchIn(MmTable(), 8, v);
    if 10.0 < v <= 30.0 { color := Some(LightSkyBlue); }
    assert color == LastMatchIn(MmTable(), 9, v);
    if 30.0 < v <= 50.0 { color := Some(DarkTurquoise); }
    assert color == LastMatchIn(MmTable(), 10, v);
    if 50.0 < v <= 70.0 { color := Some(DeepSkyBlue); }
    assert color == LastMatchIn(MmTable(), 11, v);
    if 70.0 < v <= 100.0 { color := Some(RoyalBlue); }
    assert color == LastMatchIn(MmTable(), 12, v);
    if 100.0 < v <= 150.0 { color := Some(Blue); }
    assert color == LastMatchIn(MmTable(), 13, v);
    if 150.0 < v <= 200.0 { color := Some(DarkBlue); }
    assert color == LastMatchIn(MmTable(), 14, v);
    if 200.0 < v { color := Some(Purple); }
    assert color == LastMatchIn(MmTable(), 15, v);
  }

  /** The `acumulado_mensual` branch: the empty name, overwritten by each of the 14 guards that holds. */
  method CumColor(v: real) returns (color: Option<Color>)
    ensures color == LastMatch(CumTable(), v)
  {
    color := None;
    if 0.0 <= v < 10.0 { color := Some(Azure); }
    assert color == LastMatchIn(CumTable(), 1, v);
    if 10.0 <= v < 20.0 { color := Some(LightCyan); }
    assert color == LastMatchIn(CumTable(), 2, v);
    if 20.0 <= v < 40.0 { color := Some(PaleTurquoise); }
    assert color == LastMatchIn(CumTable(), 3, v);
    if 40.0 <= v < 60.0 { color := Some(LightSkyBlue); }
    assert color == LastMatchIn(CumTable(), 4, v);
    if 60.0 <= v < 80.0 { color := Some(DeepSkyBlue); }
    assert color == LastMatchIn(CumTable(), 5, v);
    if 80.0 <= v < 100.0 { color := Some(SteelBlue); }
    assert color == LastMatchIn(CumTable(), 6, v);
    if 100.0 <= v < 140.0 { color := Some(DodgerBlue); }
    assert color == LastMatchIn(CumTable(), 7, v);
    if 140.0 <= v < 180.0 { color := Some(RoyalBlue); }
    assert color == LastMatchIn(CumTable(), 8, v);
    if 180.0 <= v < 220.0 { color := Some(Blue); }
    assert color == LastMatchIn(CumTable(), 9, v);
    if 220.0 <= v < 260.0 { color := Some(MediumBlue); }
    assert color == LastMatchIn(CumTable(), 10, v);
    if 260.0 <= v < 300.0 { color := Some(DarkBlue); }
    assert color == LastMatchIn(CumTable(), 11, v);
    if 300.0 <= v < 350.0 { color := Some(MediumOrchid); }
    assert color == LastMatchIn(CumTable(), 12, v);
    if 350.0 <= v < 400.0 { color := Some(DarkViolet); }
    assert color == LastMatchIn(CumTable(), 13, v);
    if 400.0 < v { color := Some(Indigo); }
    assert color == LastMatchIn(CumTable(), 14, v);
  }

  /**
    The classifier: the branch of the kind leaves a colour name in the variable, which is
    then looked up (None stands for the KeyError raised on the empty name).
   */
  method ColorFor(k: Kind, v: real) returns (r: Option<Color>)
    ensures r == Classify(k, v)
    ensures r.Some? <==> InDomain(k, v)
  {
    var color;
    match k {
      case PctAnomaly => color := PctColor(v);
      case MmAnomaly => color := MmColor(v);
      case Cumulative => color := CumColor(v);
    }
    r := Css4Lookup(color);
    ClassifyDefinedIff(k, v);
  }

  lemma PctAscending()
    ensures Ascending(PctTable())
  {
    assert AscendingFrom(PctTable(), 0);
    CheckedAscending(PctTable());
  }

  lemma MmAscending()
    ensures Ascending(MmTable())
  {
    assert AscendingFrom(MmTable(), 0);
    CheckedAscending(MmTable());
  }

  lemma CumAscending()
    ensures Ascending(CumTable())
  {
    assert AscendingFrom(CumTable(), 0);
    CheckedAscending(CumTable());
  }

  /** Every table is ascending: inhabited guards, each strictly below the next. */
  lemma TableAscending(k: Kind)
    ensures Ascending(Table(k))
  {
    match k
    case PctAnomaly => PctAscending();
    case MmAnomaly => MmAscending();
    case Cumulative => CumAscending();
  }

  /** The guards of every kind are pairwise disjoint. */
  lemma GuardsDisjoint(k: Kind, i: nat, j: nat, v: real)
    requires i < |Table(k)| && j < |Table(k)| && i != j
    requires Contains(Table(k)[i], v)
    ensures !Contains(Table(k)[j], v)
  {
    TableAscending(k);
    Disjoint(Table(k), i, j, v);
  }

  /** Since the guards are disjoint, the guard that holds decides the colour, wherever it sits. */
  lemma ClassifyIsMatchingGuard(k: Kind, i: nat, v: real)
    requires i < |Table(k)| && Contains(Table(k)[i], v)
    ensures Classify(k, v) == Some(Table(k)[i].color)
  {
    TableAscending(k);
    LastMatchIsUnique(Table(k), i, v);
  }

  /** The percentage guards leave no real uncovered. */
  lemma PctCoversAll(v: real)
    ensures Covered(PctTable(), v)
  {
    assert SeamlessFrom(PctTable(), 0, 13);
    CheckedSeamless(PctTable(), 13);
    SeamlessCovers(PctTable(), 13, v);
  }

  /** The millimetre guards leave no real uncovered. */
  lemma MmCoversAll(v: real)
    ensures Covered(MmTable(), v)
  {
    assert SeamlessFrom(MmTable(), 0, 15);
    CheckedSeamless(MmTable(), 15);
    SeamlessCovers(MmTable(), 15, v);
  }

  /** The cumulative guards cover exactly the reals from 0 on, except 400. */
  lemma CumCoverage(v: real)
    ensures Covered(CumTable(), v) <==> 0.0 <= v && v != 400.0
  {
    var t := CumTable();
    CumAscending();
    if v < 0.0 {
      BelowFirst(t, v);
    } else if v == 400.0 {
      InGap(t, 12, v);
    } else if v < 400.0 {
      assert SeamlessFrom(t, 0, 13);
      CheckedSeamless(t, 13);
      SeamlessCovers(t, 13, v);
    } else {
      assert Contains(t[13], v);
    }
  }

  lemma CoverageIff(k: Kind, v: real)
    ensures Covered(Table(k), v) <==> InDomain(k, v)
  {
    match k
    case PctAnomaly => PctCoversAll(v);
    case MmAnomaly => MmCoversAll(v);
    case Cumulative => CumCoverage(v);
  }

  /** The lookup after the guards succeeds exactly on the domain; elsewhere the variable stays empty. */
  lemma ClassifyDefinedIff(k: Kind, v: real)
    ensures Classify(k, v).Some? <==> InDomain(k, v)
    ensures Classify(k, v) == LastMatch(Table(k), v)
  {
    LastMatchEmptyIff(Table(k), v);
    CoverageIff(k, v);
  }

  /** Wherever a guard holds (every real for the percentage and millimetre kinds), exactly one does. */
  lemma ExactlyOneGuard(k: Kind, v: real)
    requires InDomain(k, v)
    ensures exists i :: (0 <= i < |Table(k)| && Contains(Table(k)[i], v) &&
      forall j :: 0 <= j < |Table(k)| && j != i ==> !Contains(Table(k)[j], v))
  {
    CoverageIff(k, v);
    var i :| 0 <= i < |Table(k)| && Contains(Table(k)[i], v);
    forall j | 0 <= j < |Table(k)| && j != i
      ensures !Contains(Table(k)[j], v)
    {
      GuardsDisjoint(k, i, j, v);
    }
  }

  /** Where the boundary points of the percentage table fall. */
  lemma PctBoundaries(v: real)
    ensures Classify(PctAnomaly, -150.0) == Some(Firebrick)
    ensures v < -150.0 ==> Classify(PctAnomaly, v) == Some(Red)
    ensures Classify(PctAnomaly, -10.0) == Some(FloralWhite)
    ensures Classify(PctAnomaly, 10.0) == Some(FloralWhite)
    ensures 10.0 < v <= 25.0 ==> Classify(PctAnomaly, v) == Some(MediumSpringGreen)
    ensures Classify(PctAnomaly, 150.0) == Some(Blue)
    ensures 150.0 < v ==> Classify(PctAnomaly, v) == Some(DarkBlue)
  {
    var t := PctTable();
    ClassifyIsMatchingGuard(PctAnomaly, 1, -150.0);
    ClassifyIsMatchingGuard(PctAnomaly, 6, -10.0);
    ClassifyIsMatchingGuard(PctAnomaly, 6, 10.0);
    ClassifyIsMatchingGuard(PctAnomaly, 11, 150.0);
    if v < -150.0 {
      ClassifyIsMatchingGuard(PctAnomaly, 0, v);
    }
    if 10.0 < v <= 25.0 {
      ClassifyIsMatchingGuard(PctAnomaly, 7, v);
    }
    if 150.0 < v {
      ClassifyIsMatchingGuard(PctAnomaly, 12, v);
    }
  }

  /** Where the boundary points of the cumulative table fall, including the two uncovered regions. */
  lemma CumBoundaries(v: real)
    ensures Classify(Cumulative, 0.0) == Some(Azure)
    ensures Classify(Cumulative, 350.0) == Some(DarkViolet)
    ensures 350.0 <= v < 400.0 ==> Classify(Cumulative, v) == Some(DarkViolet)
    ensures Classify(Cumulative, 400.0) == None
    ensures 400.0 < v ==> Classify(Cumulative, v) == Some(Indigo)
    ensures v < 0.0 ==> Classify(Cumulative, v) == None
  {
    ClassifyIsMatchingGuard(Cumulative, 0, 0.0);
    ClassifyIsMatchingGuard(Cumulative, 12, 350.0);
    ClassifyDefinedIff(Cumulative, 400.0);
    ClassifyDefinedIff(Cumulative, v);
    if 350.0 <= v < 400.0 {
      ClassifyIsMatchingGuard(Cumulative, 12, v);
    }
    if 400.0 < v {
      ClassifyIsMatchingGuard(Cumulative, 13, v);
    }
  }
}
