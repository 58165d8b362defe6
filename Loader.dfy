/**
  The station-file loader `extraeDatos`, over the lines of the file: the header line is
  dropped and every other line, blank ones included, becomes the comma split of the
  line with its surrounding whitespace removed.
 */
module Loader {
  import opened Text

  /** One line of the file as a record: `line.strip().split(",")`. */
  function ParseLine(line: string): (r: seq<string>)
    ensures |r| == Count(Strip(line), ',') + 1
    ensures forall i :: 0 <= i < |r| ==> ',' !in r[i]
    ensures Join(r, ',') == Strip(line)
  {
    JoinSplit(Strip(line), ',');
    Split(Strip(line), ',')
  }

  /**
    `extraeDatos` on the lines `readlines()` returns: one record per line after the
    first, in the order of the lines.
   */
  method LoadRecords(lines: seq<string>) returns (records: seq<seq<string>>)
    ensures |records| == if |lines| == 0 then 0 else |lines| - 1
    ensures forall j :: 0 <= j < |records| ==> records[j] == ParseLine(lines[j + 1])
  {
    var body := if |lines| == 0 then [] else lines[1..];
    records := [];
    var i := 0;
    while i < |body|
      invariant 0 <= i <= |body|
      invariant |records| == i
      invariant forall j :: 0 <= j < i ==> records[j] == ParseLine(body[j])
    {
      records := records + [ParseLine(body[i])];
      i := i + 1;
    }
  }

  /** A blank line is not skipped: it becomes the record holding one empty field. */
  lemma BlankLineRecord(line: string)
    requires AllSpace(line)
    ensures ParseLine(line) == [""]
  {
    StripEmptyIff(line);
  }

  /** Only a blank line gives the record holding one empty field. */
  lemma EmptyRecordIff(line: string)
    ensures ParseLine(line) == [""] <==> AllSpace(line)
  {
    StripEmptyIff(line);
    if ParseLine(line) == [""] {
      assert Join([""], ',') == "";
    }
  }

  /** A stripped line of comma-free fields is read back as exactly those fields. */
  lemma ParseJoined(fields: seq<string>)
    requires |fields| > 0
    requires forall i :: 0 <= i < |fields| ==> ',' !in fields[i]
    requires Strip(Join(fields, ',')) == Join(fields, ',')
    ensures ParseLine(Join(fields, ',')) == fields
  {
    SplitJoin(fields, ',');
  }
}
