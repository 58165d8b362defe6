/**
  What the script derives from the dates before drawing: the Spanish month name, the
  zero-padded month string, the output directories and file names, and the title and
  colours of each map (`parametrosGrafico`).
 */
module Naming {
  import opened Wrappers
  import opened Text
  import opened Colors
  import opened Classifier

  type Year = y: int | 1 <= y <= 9999 witness 1
  type Month = m: int | 1 <= m <= 12 witness 1
  type Day = d: int | 1 <= d <= 31 witness 1

  /** The year, month and day fields of a `datetime`. */
  datatype Date = Date(year: Year, month: Month, day: Day)

  /** The `meses` table. */
  function MonthName(m: Month): (r: string)
    ensures |r| > 0
    ensures MonthNumber(r) == Some(m)
  {
    match m
    case 1 => "enero"
    case 2 => "febrero"
    case 3 => "marzo"
    case 4 => "abril"
    case 5 => "mayo"
    case 6 => "junio"
    case 7 => "julio"
    case 8 => "agosto"
    case 9 => "setiembre"
    case 10 => "octubre"
    case 11 => "noviembre"
    case 12 => "diciembre"
  }

  /** The month a name stands for, if it is one of the twelve. */
  function MonthNumber(name: string): Option<Month>
  {
    if name == "enero" then Some(1)
    else if name == "febrero" then Some(2)
    else if name == "marzo" then Some(3)
    else if name == "abril" then Some(4)
    else if name == "mayo" then Some(5)
    else if name == "junio" then Some(6)
    else if name == "julio" then Some(7)
    else if name == "agosto" then Some(8)
    else if name == "setiembre" then Some(9)
    else if name == "octubre" then Some(10)
    else if name == "noviembre" then Some(11)
    else if name == "diciembre" then Some(12)
    else None
  }

  /** No month name holds a space or a backslash. */
  lemma MonthNameWord(m: Month)
    ensures ' ' !in MonthName(m) && '\\' !in MonthName(m)
  {
  }

  /** `mes_ayer_str`: the month as two decimal digits, a leading `0` below October. */
  function MonthString(m: Month): (r: string)
    ensures |r| == 2
    ensures forall i :: 0 <= i < |r| ==> '0' <= r[i] <= '9'
    ensures r[0] == '0' <==> m < 10
  {
    if m < 10 then "0" + NatToString(m) else NatToString(m)
  }

  /** The two digits read back as the month. */
  lemma MonthStringValue(m: Month)
    ensures DecimalValue(MonthString(m)) == m
  {
    var r := MonthString(m);
    if m < 10 {
      DigitRoundTrip(m);
      assert r == ['0', DigitChar(m)];
      assert r[..1] == "0" && r[..1][..0] == [];
      assert DecimalValue(r[..1]) == 0;
      assert DecimalValue(r) == DecimalValue(r[..1]) * 10 + DigitValue(r[1]);
    } else {
      DecimalRoundTrip(m);
    }
  }

  /** `ruta_directorio_anno`: `maps\<year>`. */
  function YearDir(y: Year): (r: string)
    ensures |r| > 5 && r[..5] == "maps\\"
    ensures forall i :: 5 <= i < |r| ==> '0' <= r[i] <= '9'
    ensures DecimalValue(r[5..]) == y
  {
    var digits := NatToString(y);
    DecimalRoundTrip(y);
    assert ("maps\\" + digits)[5..] == digits;
    "maps\\" + digits
  }

  /** `ruta_directorio`: the year directory, then the month name. */
  function MonthDir(d: Date): (r: string)
    ensures YearDir(d.year) + "\\" <= r
  {
    YearDir(d.year) + "\\" + MonthName(d.month)
  }

  /** The file-name stem of each map. */
  function FileStem(k: Kind): string
  {
    match k
    case PctAnomaly => "anomalia_PREC"
    case MmAnomaly => "anomalia_PRECmm"
    case Cumulative => "acumulado_PREC"
  }

  /** The file name of a map: `<stem>_<month name>.png`. */
  function FileName(k: Kind, m: Month): (r: string)
    ensures |r| == |FileStem(k)| + |MonthName(m)| + 5
    ensures r[|r| - 4..] == ".png"
  {
    FileStem(k) + "_" + MonthName(m) + ".png"
  }

  /** `rutaGuardarGrafico`: the month directory, then the file name. */
  function OutputPath(k: Kind, ayer: Date): (r: string)
    ensures MonthDir(ayer) + "\\" <= r
    ensures |r| > 4 && r[|r| - 4..] == ".png"
  {
    MonthDir(ayer) + "\\" + FileName(k, ayer.month)
  }

  /** The three maps of one run are written to three different files. */
  lemma OutputPathsDistinct(k: Kind, l: Kind, ayer: Date)
    requires k != l
    ensures OutputPath(k, ayer) != OutputPath(l, ayer)
  {
    assert |OutputPath(k, ayer)| - |FileName(k, ayer.month)| == |OutputPath(l, ayer)| - |FileName(l, ayer.month)|;
  }

  /** Paths of the output shape, with backslash-free year and month parts, agree only when the parts do. */
  lemma PathPartsInjective(y1: string, n1: string, f1: string, y2: string, n2: string, f2: string)
    requires '\\' !in y1 && '\\' !in y2 && '\\' !in n1 && '\\' !in n2
    requires "maps\\" + y1 + "\\" + n1 + "\\" + f1 == "maps\\" + y2 + "\\" + n2 + "\\" + f2
    ensures y1 == y2 && n1 == n2 && f1 == f2
  {
    var p := "maps\\" + y1 + "\\" + n1 + "\\" + f1;
    assert p[5..] == y1 + ['\\'] + (n1 + ['\\'] + f1) == y2 + ['\\'] + (n2 + ['\\'] + f2);
    SplitAtFirst(y1, '\\', n1 + ['\\'] + f1, y2, n2 + ['\\'] + f2);
    SplitAtFirst(n1, '\\', f1, n2, f2);
  }

  /** The output path names its kind, year and month: no two runs for different months share a file. */
  lemma OutputPathInjective(k: Kind, l: Kind, d: Date, e: Date)
    requires OutputPath(k, d) == OutputPath(l, e)
    ensures k == l && d.year == e.year && d.month == e.month
  {
    var nd, ne := MonthName(d.month), MonthName(e.month);
    var fd, fe := FileName(k, d.month), FileName(l, e.month);
    MonthNameWord(d.month);
    MonthNameWord(e.month);
    PathPartsInjective(NatToString(d.year), nd, fd, NatToString(e.year), ne, fe);
    NatToStringInjective(d.year, e.year);
    assert |FileStem(k)| == |FileStem(l)|;
  }

  /** The opening words of each title. */
  function TitleHead(k: Kind): string
  {
    match k
    case PctAnomaly => "Mapa de Anomalia porcentual de lluvia "
    case MmAnomaly => "Mapa de Anomalía de lluvia (mm) "
    case Cumulative => "Mapa de Acumulado total de lluvia "
  }

  /** The closing words of each title: ` \n Datos actualizados al <day>/<month>/<year>`. */
  function UpdatedOn(fecha: Date): (r: string)
    ensures |r| > 0 && r[0] == ' '
  {
    " \n Datos actualizados al " + NatToString(fecha.day) + "/" + NatToString(fecha.month) + "/" +
      NatToString(fecha.year)
  }

  /** What follows the opening words: `%s %d \n Datos actualizados al %d/%d/%d`. */
  function TitleRest(mes: string, year: Year, fecha: Date): string
  {
    mes + " " + NatToString(year) + UpdatedOn(fecha)
  }

  function Title(k: Kind, mes: string, year: Year, fecha: Date): string
  {
    TitleHead(k) + TitleRest(mes, year, fecha)
  }

  /** Titles of one kind agree only when what follows the opening words does. */
  lemma TitleCancel(k: Kind, mes1: string, y1: Year, f1: Date, mes2: string, y2: Year, f2: Date)
    requires Title(k, mes1, y1, f1) == Title(k, mes2, y2, f2)
    ensures TitleRest(mes1, y1, f1) == TitleRest(mes2, y2, f2)
  {
    var h := TitleHead(k);
    assert (h + TitleRest(mes1, y1, f1))[|h|..] == TitleRest(mes1, y1, f1);
    assert (h + TitleRest(mes2, y2, f2))[|h|..] == TitleRest(mes2, y2, f2);
  }

  /** What `parametrosGrafico` returns: the title, the title colour and the land colour. */
  datatype Style = Style(title: string, textColor: Color, landColor: Color)

  function TextColor(k: Kind): Color
  {
    match k
    case PctAnomaly => Purple
    case MmAnomaly => Red
    case Cumulative => Blue
  }

  function LandColor(k: Kind): Color
  {
    match k
    case PctAnomaly => Ivory
    case MmAnomaly => LightGrey
    case Cumulative => PaleGreen
  }

  /**
    `parametrosGrafico` as written: the year after the month name is `fecha.year`, the
    year of the day the map is drawn, not that of the month it shows.
   */
  function StyleAsWritten(k: Kind, fecha: Date, mesAnomalia: string): (r: Style)
    ensures TitleHead(k) + mesAnomalia + " " + NatToString(fecha.year) <= r.title
    ensures forall l :: TextColor(l) == r.textColor ==> l == k
    ensures forall l :: LandColor(l) == r.landColor ==> l == k
  {
    OpensWith(TitleHead(k), mesAnomalia, NatToString(fecha.year), UpdatedOn(fecha));
    Style(Title(k, mesAnomalia, fecha.year, fecha), TextColor(k), LandColor(k))
  }

  /** `parametrosGrafico` with the year taken from the day whose month is shown. */
  function CorrectedStyle(k: Kind, fecha: Date, ayer: Date): Style
  {
    Style(Title(k, MonthName(ayer.month), ayer.year, fecha), TextColor(k), LandColor(k))
  }

  /** A heading followed by `word number tail` opens with the heading, the word and the number. */
  lemma OpensWith(h: string, word: string, number: string, tail: string)
    ensures h + word + " " + number <= h + (word + " " + number + tail)
  {
    assert h + (word + " " + number + tail) == (h + word + " " + number) + tail;
  }

  /** Two words and a tail, each word free of spaces and the tail opening with one, are read back one way. */
  lemma WordsInjective(n1: string, s1: string, u1: string, n2: string, s2: string, u2: string)
    requires ' ' !in n1 && ' ' !in n2 && ' ' !in s1 && ' ' !in s2
    requires |u1| > 0 && |u2| > 0 && u1[0] == ' ' && u2[0] == ' '
    requires n1 + " " + s1 + u1 == n2 + " " + s2 + u2
    ensures n1 == n2 && s1 == s2 && u1 == u2
  {
    assert n1 + " " + s1 + u1 == n1 + [' '] + (s1 + u1);
    assert n2 + " " + s2 + u2 == n2 + [' '] + (s2 + u2);
    SplitAtFirst(n1, ' ', s1 + u1, n2, s2 + u2);
    assert s1 + u1 == s1 + [' '] + u1[1..];
    assert s2 + u2 == s2 + [' '] + u2[1..];
    SplitAtFirst(s1, ' ', u1[1..], s2, u2[1..]);
  }

  /** The title and land colours of each kind; the corrected title changes neither. */
  lemma StyleColors(k: Kind, fecha: Date, ayer: Date, mes: string)
    ensures StyleAsWritten(PctAnomaly, fecha, mes).textColor == Purple && StyleAsWritten(PctAnomaly, fecha, mes).landColor == Ivory
    ensures StyleAsWritten(MmAnomaly, fecha, mes).textColor == Red && StyleAsWritten(MmAnomaly, fecha, mes).landColor == LightGrey
    ensures StyleAsWritten(Cumulative, fecha, mes).textColor == Blue && StyleAsWritten(Cumulative, fecha, mes).landColor == PaleGreen
    ensures CorrectedStyle(k, fecha, ayer).textColor == StyleAsWritten(k, fecha, mes).textColor
    ensures CorrectedStyle(k, fecha, ayer).landColor == StyleAsWritten(k, fecha, mes).landColor
  {
  }

  /** `month year` followed by the closing words is read back only one way. */
  lemma PeriodInjective(m1: Month, y1: Year, m2: Month, y2: Year, u1: string, u2: string)
    requires |u1| > 0 && |u2| > 0 && u1[0] == ' ' && u2[0] == ' '
    requires MonthName(m1) + " " + NatToString(y1) + u1 == MonthName(m2) + " " + NatToString(y2) + u2
    ensures m1 == m2 && y1 == y2 && u1 == u2
  {
    MonthNameWord(m1);
    MonthNameWord(m2);
    WordsInjective(MonthName(m1), NatToString(y1), u1, MonthName(m2), NatToString(y2), u2);
    NatToStringInjective(y1, y2);
  }

  /**
    The corrected title names the month and year of the directory the map is saved in:
    two runs on the same day give the same title exactly when they write the same file.
   */
  lemma CorrectedTitleAgreesWithPath(k: Kind, fecha: Date, ayer: Date, other: Date)
    ensures CorrectedStyle(k, fecha, ayer).title == CorrectedStyle(k, fecha, other).title <==>
      OutputPath(k, ayer) == OutputPath(k, other)
  {
    if CorrectedStyle(k, fecha, ayer).title == CorrectedStyle(k, fecha, other).title {
      TitleCancel(k, MonthName(ayer.month), ayer.year, fecha, MonthName(other.month), other.year, fecha);
      PeriodInjective(ayer.month, ayer.year, other.month, other.year, UpdatedOn(fecha), UpdatedOn(fecha));
    }
    if OutputPath(k, ayer) == OutputPath(k, other) {
      OutputPathInjective(k, k, ayer, other);
    }
  }

  /** The title as written agrees with the corrected one exactly when both days fall in the same year. */
  lemma TitleYearIff(k: Kind, fecha: Date, ayer: Date)
    ensures StyleAsWritten(k, fecha, MonthName(ayer.month)).title == CorrectedStyle(k, fecha, ayer).title <==>
      fecha.year == ayer.year
  {
    if StyleAsWritten(k, fecha, MonthName(ayer.month)).title == CorrectedStyle(k, fecha, ayer).title {
      TitleCancel(k, MonthName(ayer.month), fecha.year, fecha, MonthName(ayer.month), ayer.year, fecha);
      PeriodInjective(ayer.month, fecha.year, ayer.month, ayer.year, UpdatedOn(fecha), UpdatedOn(fecha));
    }
  }

  lemma PrintedYears()
    ensures NatToString(2024) == "2024" && NatToString(2025) == "2025"
  {
  }

  /** A map drawn in 2025 for a December previous day is titled with December 2025. */
  lemma NewYearTitleText(fecha: Date)
    requires fecha.year == 2025
    ensures StyleAsWritten(PctAnomaly, fecha, MonthName(12)).title ==
      TitleHead(PctAnomaly) + ("diciembre" + " " + "2025") + UpdatedOn(fecha)
  {
    PrintedYears();
  }

  /** A December 2024 map is saved under the year 2024. */
  lemma NewYearPath(ayer: Date)
    requires ayer.year == 2024 && ayer.month == 12
    ensures OutputPath(PctAnomaly, ayer) == "maps\\" + "2024" + "\\" + "diciembre" + "\\" + FileName(PctAnomaly, 12)
  {
    PrintedYears();
  }

  /** On 1 January 2025 the maps of December 2024 get a title other than the corrected one. */
  lemma NewYearTitle()
    ensures StyleAsWritten(PctAnomaly, Date(2025, 1, 1), MonthName(12)).title !=
      CorrectedStyle(PctAnomaly, Date(2025, 1, 1), Date(2024, 12, 31)).title
  {
    TitleYearIff(PctAnomaly, Date(2025, 1, 1), Date(2024, 12, 31));
  }

  /** One map the script draws: its kind, where it is saved and how it is titled. */
  datatype Job = Job(kind: Kind, path: string, style: Style)

  /** The map of one kind as the script draws it: saved under the previous day's month, styled by `parametrosGrafico`. */
  function JobOf(k: Kind, fecha: Date, ayer: Date): Job
  {
    Job(k, OutputPath(k, ayer), StyleAsWritten(k, fecha, MonthName(ayer.month)))
  }

  /** The map of one kind with the corrected title. */
  function CorrectedJobOf(k: Kind, fecha: Date, ayer: Date): Job
  {
    Job(k, OutputPath(k, ayer), CorrectedStyle(k, fecha, ayer))
  }

  /** The order in which the script draws the maps. */
  function RunOrder(): seq<Kind>
  {
    [PctAnomaly, MmAnomaly, Cumulative]
  }

  /** The three kinds of a run write to three different files. */
  lemma RunPathsDistinct(ayer: Date)
    ensures forall i, j :: 0 <= i < j < |RunOrder()| ==> OutputPath(RunOrder()[i], ayer) != OutputPath(RunOrder()[j], ayer)
  {
    forall i, j | 0 <= i < j < |RunOrder()|
      ensures OutputPath(RunOrder()[i], ayer) != OutputPath(RunOrder()[j], ayer)
    {
      OutputPathsDistinct(RunOrder()[i], RunOrder()[j], ayer);
    }
  }

  /**
    The three maps of a run, in the order the script draws them: each saved in the month
    directory of the day before, no two in the same file, each titled with the month of
    the day before and the year of the day the map is drawn.
   */
  function Jobs(fecha: Date, ayer: Date): (r: seq<Job>)
    ensures |r| == |RunOrder()|
    ensures forall i :: 0 <= i < |r| ==> r[i].kind == RunOrder()[i]
    ensures forall i :: 0 <= i < |r| ==> MonthDir(ayer) + "\\" <= r[i].path
    ensures forall i, j :: 0 <= i < j < |r| ==> r[i].path != r[j].path
    ensures forall i :: 0 <= i < |r| ==> r[i].style.title == Title(r[i].kind, MonthName(ayer.month), fecha.year, fecha)
    ensures forall i :: 0 <= i < |r| ==>
      r[i].style.textColor == TextColor(r[i].kind) && r[i].style.landColor == LandColor(r[i].kind)
  {
    RunPathsDistinct(ayer);
    seq(|RunOrder()|, i requires 0 <= i < |RunOrder()| => JobOf(RunOrder()[i], fecha, ayer))
  }

  /** The three maps of a run with the corrected title: same files, the year of the month shown. */
  function CorrectedJobs(fecha: Date, ayer: Date): (r: seq<Job>)
    ensures |r| == |RunOrder()|
    ensures forall i :: 0 <= i < |r| ==> r[i].kind == RunOrder()[i] && r[i].path == Jobs(fecha, ayer)[i].path
    ensures forall i :: 0 <= i < |r| ==> r[i].style.title == Title(r[i].kind, MonthName(ayer.month), ayer.year, fecha)
  {
    seq(|RunOrder()|, i requires 0 <= i < |RunOrder()| => CorrectedJobOf(RunOrder()[i], fecha, ayer))
  }

  /** The run as written draws the corrected maps exactly when both days fall in the same year. */
  lemma JobsCorrectIff(fecha: Date, ayer: Date)
    ensures Jobs(fecha, ayer) == CorrectedJobs(fecha, ayer) <==> fecha.year == ayer.year
  {
    var r, c := Jobs(fecha, ayer), CorrectedJobs(fecha, ayer);
    TitleYearIff(PctAnomaly, fecha, ayer);
    if r == c {
      assert r[0].style.title == c[0].style.title;
    }
    if fecha.year == ayer.year {
      forall i | 0 <= i < |r|
        ensures r[i] == c[i]
      {
        TitleYearIff(RunOrder()[i], fecha, ayer);
      }
    }
  }
}
