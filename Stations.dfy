/**
  The fields `graficaMapas` reads from each record: the metric from a trailing
  position chosen per kind, and the latitude and longitude from positions 3 and 4.
 */
module Stations {
  import opened Wrappers
  import opened Classifier

  /** The position of the metric of each kind, counted from the end as Python does. */
  function FieldIndex(k: Kind): (i: int)
    ensures -3 <= i <= -1
  {
    match k
    case PctAnomaly => -1
    case MmAnomaly => -2
    case Cumulative => -3
  }

  /** Each kind reads its own column. */
  lemma FieldIndexInjective(k: Kind, l: Kind)
    requires FieldIndex(k) == FieldIndex(l)
    ensures k == l
  {
  }

  /** `rec[i]` with Python's indexing: negative positions count from the end; out of range is an IndexError. */
  function PyIndex(rec: seq<string>, i: int): (r: Option<string>)
    ensures r.Some? <==> -|rec| <= i < |rec|
    ensures r.Some? && 0 <= i ==> r.value == rec[i]
    ensures r.Some? && i < 0 ==> r.value == rec[|rec| + i]
  {
    if 0 <= i < |rec| then Some(rec[i])
    else if -|rec| <= i < 0 then Some(rec[|rec| + i])
    else None
  }

  /** A negative index names the same field as the index that many places before the end. */
  lemma PyIndexFromEnd(rec: seq<string>, i: int)
    requires -|rec| <= i < 0
    ensures PyIndex(rec, i) == PyIndex(rec, |rec| + i)
    ensures PyIndex(rec, i).Some?
  {
  }

  /** The three strings `graficaMapas` takes from one record, before `float()` is applied. */
  datatype Reading = Reading(value: string, lat: string, lon: string)

  /**
    `estacion[indice]`, `estacion[4]` and `estacion[3]`: defined exactly when the record
    has at least five fields (every metric index lies within the last three).
   */
  function ReadStation(rec: seq<string>, k: Kind): (r: Option<Reading>)
    ensures r.Some? <==> |rec| >= 5
    ensures r.Some? ==> r.value.value == rec[|rec| + FieldIndex(k)]
    ensures r.Some? ==> r.value.lat == rec[3] && r.value.lon == rec[4]
  {
    var value := PyIndex(rec, FieldIndex(k));
    var lon := PyIndex(rec, 4);
    var lat := PyIndex(rec, 3);
    if value.None? || lon.None? || lat.None? then None
    else Some(Reading(value.value, lat.value, lon.value))
  }

  /** The percentage, mm and cumulative metrics are the last, second-to-last and third-to-last fields. */
  lemma MetricColumns(rec: seq<string>)
    requires |rec| >= 5
    ensures ReadStation(rec, PctAnomaly).value.value == rec[|rec| - 1]
    ensures ReadStation(rec, MmAnomaly).value.value == rec[|rec| - 2]
    ensures ReadStation(rec, Cumulative).value.value == rec[|rec| - 3]
  {
  }

  /**
    The metric columns are apart from the coordinate columns for every kind exactly when
    the record has at least eight fields; a shorter record reads a coordinate as a metric.
   */
  lemma MetricAvoidsCoordinates(rec: seq<string>)
    requires |rec| >= 5
    ensures (forall k: Kind :: |rec| + FieldIndex(k) != 3 && |rec| + FieldIndex(k) != 4) <==> |rec| >= 8
  {
    if |rec| < 8 {
      var k := if |rec| == 5 then MmAnomaly else Cumulative;
      assert |rec| + FieldIndex(k) == 3 || |rec| + FieldIndex(k) == 4;
    }
  }
}
