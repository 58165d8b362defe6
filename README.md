# Precipitation anomaly maps of Costa Rica — verified model

`pcpAnomalyMapsCR.py` draws three maps of Costa Rica from a comma-separated table of
weather stations: the percentage rainfall anomaly (`anomPorc_lluvia`), the anomaly in
millimetres (`anomMM_lluvia`) and the accumulated monthly rainfall (`acumulado_mensual`).
Each station becomes a marker coloured by a chain of threshold tests. A legend lists the
colour bands, and the map is titled and saved under a year/month directory named after
the previous day's month.

This project models everything in that script except the drawing and what is listed under
"Left out":

- `Bands` — the interval guards the classifier writes (`a <= x < b`, `a < x <= b`,
  `x < a`, `a < x`), and the semantics of running a table of them as independent
  sequential `if`s, where the last guard that holds wins. It also has the general
  theory: ascending tables have pairwise disjoint guards, so the last match is the
  unique match, and seamless tables cover an interval.
- `Colors` — the CSS4 colour names the script uses, and the `CSS4_COLORS[name]` lookup
  that raises `KeyError` on the empty name.
- `Classifier` — `sacaColores`:
  - the three guard tables (13, 15 and 14 guards);
  - one method per kind that mirrors the source's chain of `if`s on a mutable `color`;
  - `ColorFor`, proved equal to the pure `Classify`;
  - coverage and boundary placement. The accumulated-rainfall table leaves `v < 0` and
    `v == 400` uncovered, and the model keeps that gap as written.
- `Legend` — `sacaElementosLeyenda` as data: colour/label rows (labels verbatim) and
  titles. Row `i` carries the colour of guard `i`.
- `Text` — Python's `str.strip()`, `str.split(sep)` and `%d` formatting. The script never
  joins strings; `Join` is there only to state the round trips of `Split`.
- `Loader` — `extraeDatos` over the lines of the file.
- `Stations` — the fields `graficaMapas` reads from each record: negative metric index
  per kind, latitude at 3, longitude at 4.
- `Naming` — the month-name table, `mes_ayer_str`, the output directories and file
  names, `parametrosGrafico` (title, title colour, land colour) and the sequence of three
  maps a run draws.

Two details of the script body:

- The output paths use the month name (`mesAnomalia`), not the zero-padded month
  number.
- `mes_ayer_str` (lines 437-440) is computed but never used; it is modelled on its own.

## Model

| member | source | states |
|---|---|---|
| `Classifier.PctColor` | pcpAnomalyMapsCR.py:61-101 | running the 13 percentage guards in order on the empty name leaves the colour of the last guard that holds, or the empty name when none holds |
| `Classifier.MmColor` | pcpAnomalyMapsCR.py:105-152 | the same for the 15 millimetre guards |
| `Classifier.CumColor` | pcpAnomalyMapsCR.py:154-199 | the same for the 14 accumulated-rainfall guards |
| `Classifier.ColorFor` | pcpAnomalyMapsCR.py:52-203 | `sacaColores` yields the colour of the table's last matching guard, and it succeeds (no `KeyError`) exactly when the value is in the kind's domain: every real for the two anomaly kinds; `v >= 0` and `v != 400` for accumulated rainfall |
| `Classifier.TipoRoundTrip` | pcpAnomalyMapsCR.py:61-154 | each kind's `tipo` string selects that kind's branch |
| `Classifier.ParseTipo` | pcpAnomalyMapsCR.py:61-154 | a `tipo` string that selects a branch is that kind's own string |
| `Classifier.TableAscending` | pcpAnomalyMapsCR.py:65-197 | in every table each guard holds of some value and lies strictly below the next guard |
| `Classifier.GuardsDisjoint` | pcpAnomalyMapsCR.py:65-197 | no value satisfies two guards of the same kind |
| `Classifier.Classify` | pcpAnomalyMapsCR.py:52-203 | the classifier yields a colour exactly on the kind's domain, and that colour is the one of any guard the value satisfies |
| `Classifier.ClassifyIsMatchingGuard` | pcpAnomalyMapsCR.py:52-203 | whichever guard holds decides the colour: "last match wins" is "the unique match" |
| `Classifier.PctCoversAll` | pcpAnomalyMapsCR.py:65-101 | every real satisfies some percentage guard |
| `Classifier.MmCoversAll` | pcpAnomalyMapsCR.py:109-151 | every real satisfies some millimetre guard |
| `Classifier.CumCoverage` | pcpAnomalyMapsCR.py:158-197 | a value satisfies some accumulated-rainfall guard exactly when it is `>= 0` and not `400` |
| `Classifier.ClassifyDefinedIff` | pcpAnomalyMapsCR.py:154-202 | the lookup at line 202 succeeds exactly on the domain, and its result is the last match of the table |
| `Classifier.ExactlyOneGuard` | pcpAnomalyMapsCR.py:65-197 | on the domain exactly one guard holds |
| `Classifier.PctBoundaries` | pcpAnomalyMapsCR.py:65-101 | −150 → firebrick; below −150 → red; −10 and 10 → floralwhite; (10, 25] → mediumspringgreen; 150 → blue; above 150 → darkblue |
| `Classifier.CumBoundaries` | pcpAnomalyMapsCR.py:158-202 | 0 → azure; [350, 400) → darkviolet; above 400 → indigo; 400 and every negative value fail the lookup |
| `Colors.Css4Lookup` | pcpAnomalyMapsCR.py:202 | the lookup fails exactly on the empty name and otherwise yields the colour of that name |
| `Colors.NameOf` | pcpAnomalyMapsCR.py:63 | the colour variable holds the empty name exactly until a guard assigns a colour |
| `Bands.LastMatchIsUnique` | pcpAnomalyMapsCR.py:61-101 | after sequential overwriting `if`s with disjoint guards, the variable holds the colour of the one guard that holds |
| `Bands.LastMatchAgrees` | pcpAnomalyMapsCR.py:61-101 | in an ascending table every guard that holds names the final colour |
| `Bands.LastMatchEmptyIff` | pcpAnomalyMapsCR.py:154-199 | the variable keeps its initial empty name exactly when no guard holds |
| `Legend.LegendFor` | pcpAnomalyMapsCR.py:207-282 | each legend has one row per classifier guard: 13, 15 and 14 rows |
| `Legend.LegendMatchesClassifier` | pcpAnomalyMapsCR.py:219-278 | legend row `i` shows the colour that guard `i` of the classifier assigns, for every kind |
| `Legend.MarkerColorInLegend` | pcpAnomalyMapsCR.py:207-282 | every marker colour appears in the legend, on the row whose guard the value satisfies |
| `Legend.LegendTitles` | pcpAnomalyMapsCR.py:236-280 | the legend titles are "Anomalía %", "Anomalía (mm)" and "Acumulado (mm)" |
| `Text.Strip` | pcpAnomalyMapsCR.py:415 | `strip()` returns the slice after the leading whitespace; what lies around it is whitespace and it neither starts nor ends with whitespace |
| `Text.StripEmptyIff` | pcpAnomalyMapsCR.py:415 | a line strips to the empty string exactly when it is all whitespace |
| `Text.StripIdempotent` | pcpAnomalyMapsCR.py:415 | stripping a stripped line changes nothing |
| `Text.Split` | pcpAnomalyMapsCR.py:415 | `split(",")` gives one more piece than there are commas, and no piece holds a comma |
| `Text.JoinSplit` | pcpAnomalyMapsCR.py:415 | joining the pieces of a split with the separator gives back the string |
| `Text.SplitJoin` | pcpAnomalyMapsCR.py:415 | splitting a join of separator-free fields gives back the fields |
| `Text.NatToString` | pcpAnomalyMapsCR.py:304 | `%d` of a non-negative number is a non-empty string of digits with no leading zero |
| `Text.DecimalRoundTrip` | pcpAnomalyMapsCR.py:304 | the digits `%d` prints read back as the number |
| `Text.NatToStringInjective` | pcpAnomalyMapsCR.py:456 | different numbers print differently |
| `Loader.ParseLine` | pcpAnomalyMapsCR.py:415 | a record has one more field than the stripped line has commas, no field holds a comma, and joining the fields with `,` gives back the stripped line |
| `Loader.LoadRecords` | pcpAnomalyMapsCR.py:404-418 | one record per line after the first, in order, record `j` being the parsed line `j + 1`; no records for an empty or header-only input |
| `Loader.BlankLineRecord` | pcpAnomalyMapsCR.py:414-416 | a blank line is not skipped: it becomes the record `[""]` |
| `Loader.EmptyRecordIff` | pcpAnomalyMapsCR.py:415 | the record is `[""]` exactly when the line is all whitespace |
| `Loader.ParseJoined` | pcpAnomalyMapsCR.py:415 | a stripped line of comma-free fields is read back as exactly those fields |
| `Stations.FieldIndex` | pcpAnomalyMapsCR.py:378-383 | the metric index of each kind is one of the last three positions |
| `Stations.FieldIndexInjective` | pcpAnomalyMapsCR.py:378-383 | different kinds read different columns |
| `Stations.PyIndexFromEnd` | pcpAnomalyMapsCR.py:386-388 | a negative index `i` with `-len <= i` always finds a field, the same one as index `len + i` |
| `Stations.ReadStation` | pcpAnomalyMapsCR.py:385-388 | reading metric, longitude and latitude succeeds exactly when the record has at least five fields; the metric is `rec[len + index]`, latitude `rec[3]`, longitude `rec[4]` |
| `Stations.MetricColumns` | pcpAnomalyMapsCR.py:378-388 | percentage reads the last field, mm the second to last, accumulated rainfall the third to last |
| `Stations.MetricAvoidsCoordinates` | pcpAnomalyMapsCR.py:378-388 | no kind reads a coordinate column as its metric exactly when the record has at least eight fields |
| `Naming.MonthName` | pcpAnomalyMapsCR.py:449-453 | every month has a non-empty Spanish name; the name (9 → "setiembre") reads back as that month, so the table is one-to-one |
| `Naming.MonthNameWord` | pcpAnomalyMapsCR.py:449-451 | no month name contains a space or a backslash |
| `Naming.MonthString` | pcpAnomalyMapsCR.py:437-440 | `mes_ayer_str` is two digits, starting with `0` exactly for months below 10 |
| `Naming.MonthStringValue` | pcpAnomalyMapsCR.py:437-440 | the two digits read back as the month |
| `Naming.YearDir` | pcpAnomalyMapsCR.py:456 | the year directory is `maps\` followed by decimal digits only, which read back as the year |
| `Naming.MonthDir` | pcpAnomalyMapsCR.py:460 | the month directory lies inside the year directory |
| `Naming.FileName` | pcpAnomalyMapsCR.py:464-476 | a file name is the stem, `_`, the month name and `.png` (length and suffix) |
| `Naming.OutputPath` | pcpAnomalyMapsCR.py:464-476 | every map path lies inside the month directory and ends in `.png` |
| `Naming.OutputPathsDistinct` | pcpAnomalyMapsCR.py:464-476 | the three maps of a run are saved to three different files |
| `Naming.OutputPathInjective` | pcpAnomalyMapsCR.py:449-476 | a path determines its kind, year and month, so runs for different months never overwrite each other |
| `Naming.StyleAsWritten` | pcpAnomalyMapsCR.py:287-320 | the title opens with the kind's heading, the month name passed in and the drawing day's year; the title colour and the land colour each tell the kind |
| `Naming.StyleColors` | pcpAnomalyMapsCR.py:303-316 | title/land colours: purple/ivory, red/lightgrey, blue/palegreen |
| `Naming.TitleYearIff` | pcpAnomalyMapsCR.py:298-314 | the title as written equals the corrected title exactly when the drawing day and the previous day fall in the same year |
| `Naming.NewYearTitleText` | pcpAnomalyMapsCR.py:298-304 | on 1 January 2025 the title of the December 2024 map reads "diciembre 2025" |
| `Naming.NewYearPath` | pcpAnomalyMapsCR.py:456-464 | the same map is saved under `maps\2024\diciembre\` |
| `Naming.NewYearTitle` | pcpAnomalyMapsCR.py:298-304 | on that day the title as written differs from the corrected one |
| `Naming.CorrectedTitleAgreesWithPath` | pcpAnomalyMapsCR.py:453-478 | with the corrected year, two titles of one kind drawn on the same day agree exactly when the maps are saved to the same file |
| `Naming.Jobs` | pcpAnomalyMapsCR.py:463-480 | a run draws three maps, in the order percentage, mm, accumulated, into three different files inside the previous day's month directory; each is titled with the previous day's month name and the drawing day's year, in its kind's colours |
| `Naming.CorrectedJobs` | pcpAnomalyMapsCR.py:463-480 | the corrected run writes the same files, titled with the year of the month shown |
| `Naming.JobsCorrectIff` | pcpAnomalyMapsCR.py:453-480 | the run as written draws the corrected maps exactly when the drawing day and the previous day fall in the same year |

## Left out

- Drawing is not modelled: the cartopy projection and features, matplotlib text, markers,
  legend and `savefig`, and the PIL logo overlay. These are foreign libraries and image
  output. The city list in `graficaMapas` is drawing data only.
- `Line2D` objects and the hexadecimal codes of `mcolors.CSS4_COLORS` are not modelled. A
  colour stands for its code, and the lookup is modelled only on the names the program
  passes it: the empty name and the names its guards assign.
- Colors.Css4Lookup: a name outside the program's own colours cannot reach the lookup in
  the model, because the colour variable is typed by the colours the guards assign.
- `creaDirectorios` is not modelled: it is a wrapper over the file system's existence
  check and `mkdir`.
- Opening the file and `readlines()` in `extraeDatos` are not modelled. The loader takes
  the list of lines as input, as `readlines()` returns them: every line but the last ends
  in its line break, and the last may end without one.
- `float()` parsing of the metric and the coordinates is not modelled: the classifier
  takes an already-parsed real. NaN and infinities are therefore not modelled; NaN would
  satisfy no guard and fail the lookup.
- Because `float()` is left out, the per-station marker loop is modelled only up to
  selecting the three strings (`Stations.ReadStation`).
- The "previous day" `datetime` arithmetic is not modelled: the drawing date and the
  previous day are both inputs. A day is only bounded by 1..31, not checked against the
  month's length.
- The `print` calls are not modelled.
- An unknown `tipo` cannot reach `sacaColores` in the model: the kind is a closed
  datatype. In the source such a `tipo` would leave `color` unbound (`UnboundLocalError`).
  `ParseTipo` shows which strings select a branch.
- Legend labels are carried verbatim and never checked against the guards. Two of them
  disagree with the guards:
  - line 248 reads `[10 <= an <= 10]` for the guard `-10 <= an <= 10`;
  - line 275 reads `[250-300 mm]` for the guard `260 <= acumulado < 300`.

## Findings

| source | as written | input that shows it | evidently intended | confidence | as-written member | corrected member |
|---|---|---|---|---|---|---|
| pcpAnomalyMapsCR.py:300-314 | the year printed after the month name is `fecha.year`, the year of the drawing day, while the month name and the output directory come from the previous day | drawing day 1 January 2025 (previous day 31 December 2024): the December map is titled "diciembre 2025" and saved under `maps\2024\diciembre\` | the year of the month shown, `anno_ayer`, as used for the directory | medium; not executed | `Naming.TitleYearIff` | `Naming.CorrectedTitleAgreesWithPath` |
