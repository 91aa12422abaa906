# Padel court availability matrix — a Dafny model

This project models the core of the padel court availability page
(`script.js`). `displayAllDays` builds one table that covers every day of the
booking dataset:

- one row for each half hour from "07:00 - 07:30" to "23:00 - 23:30";
- one column for each court of each day that has courts, days in ascending
  key order;
- one cell for each row and column, showing one of three states: no data,
  available (clickable when the slot has a booking link) or reserved.

The booking source reports slots at each court's native granularity. A
regular court uses 1.5-hour slots such as "09:00 - 10:30". A covered court,
one whose name contains "Coberto", uses 1-hour slots. Before the table is
drawn, every court's slots are normalised into a dictionary keyed by
half-hour text:

- a regular slot is walked in 30-minute steps from its start time up to, but
  not including, its end time;
- a covered slot fills the two halves of the hour it starts in.

Each cell then looks up its row's text in the dictionary stored under its
court's name.

The modules follow the program's structure:

- `Text`: the string operations the code relies on: `split`, `includes`,
  first-occurrence `replace`, `padStart`, decimal digits, and the default
  string order of `Array.prototype.sort`. `Text.Split` models
  `String.prototype.split` with a string separator.
- `Clock`: `timeToMinutes`, `parseInt`, two-digit padding, and the half-hour
  texts `HH:MM - HH:MM`. A half-hour key is the datatype `Label`. Its text
  is injective (`LabelTextInjective`), so keying a dictionary by `Label` is
  the same as keying it by the text the code builds. `Clock.TimeToMinutes`
  models `timeToMinutes` (script.js:333-336), with None standing for NaN.
- `TimeGrid`: `generate30MinTimeSlots`, an imperative loop proved against
  `Grid()`, the list of 33 row labels.
- `SlotNormalizer`: the per-day dictionary building, as methods with loops
  proved against the functions `CourtMap`, `Pass` and `DayMaps`. Lemmas
  state which slot a key ends up holding: the last slot of the court that
  writes it. `SlotNormalizer.CoveredHour` is the covered court's
  `parseInt(startTime.split(':')[0], 10)` (script.js:142-143).
- `DateSort`: `Object.keys(courtData).sort()`, as an insertion sort. It is
  proved ascending, a permutation of its input, and the only ascending
  ordering of those keys.
- `Compositor`: `displayAllDays`, a method whose loops are proved against
  `RenderSpec`. Lemmas cover the shape of the matrix, the column order, and
  the cell rule. `Compositor.RenderSpec` is the whole outcome of one call;
  `Compositor.CourtLabel` is the court header text
  `court.name.replace('Padel Quadra ', '').replace('.', '')` (script.js:196).

The code differs from what one might expect in three places. The model
follows the code:

- "No court data available" appears only when the dataset has no keys at
  all. When every day lacks courts, the table is still drawn, with rows and
  no columns (`AllDaysEmpty`).
- A covered slot starting at 23:00 writes "23:30 - 24:00", because the hour
  is not reduced modulo 24 (`CoveredAtTwentyThree`). That row is never
  displayed (`GridStopsBeforeMidnight`).
- A regular slot whose time has no " - " makes `timeToMinutes(undefined)`
  throw. The whole render then fails (`Render.Crashed`) and is not skipped.

## Model

| member | source | states |
|---|---|---|
| Text.FindFirst | script.js:114 | `Find` returns the first position where the separator occurs, and None only when it occurs nowhere |
| Text.ContainsIff | script.js:102-103 | `includes` holds exactly when the pattern occurs at some position |
| Text.SplitJoin | script.js:114 | joining the parts of `split` with the separator gives back the original string |
| Text.JoinSplit | script.js:114 | splitting a join of parts that lack the separator's first character gives back exactly those parts |
| Text.ReplaceFirst | script.js:196 | `replace` with a string pattern leaves a string without the pattern unchanged, and otherwise swaps exactly the first occurrence for the replacement, keeping what comes before and after it |
| Text.ReplaceLeading | script.js:196 | replacing a leading pattern by "" removes just that prefix |
| Text.ReplaceAbsent | script.js:196 | replacing a pattern whose first character is absent changes nothing |
| Text.DecimalStringValue | script.js:127-128 | `toString()` of a natural number is all digits and reads back as that number |
| Text.PadStart | script.js:127-128 | `padStart` leaves a long enough string unchanged, and otherwise prefixes fill characters up to the width and keeps the string as suffix |
| Text.LexIrreflexive | script.js:55 | the default sort order never puts a string before itself |
| Text.LexTransitive | script.js:55 | the default sort order is transitive |
| Text.LexTotal | script.js:55 | any two distinct strings are ordered one way or the other |
| Text.LexAsymmetric | script.js:55 | two strings are never ordered both ways |
| Clock.Pad2Digits | script.js:127-128 | the two-digit padding of n is all digits and reads back as n |
| Clock.Pad2IsPadStart | script.js:127-128 | `Pad2(n)` is exactly `n.toString().padStart(2, '0')` |
| Clock.Pad2Of | script.js:127-128 | below 100, the padding is "0" and the digit for n < 10, and the two decimal digits otherwise |
| Clock.NumberOf | script.js:333-336 | `Number` of a string yields a value exactly when the string is all digits (NaN otherwise) |
| Clock.TimeToMinutesOfDigits | script.js:333-336 | `timeToMinutes("HH:MM")` is 60·HH + MM for digit strings |
| Clock.TimeToMinutesOfParts | script.js:333-336 | any text splitting on ':' into two digit strings converts to 60·HH + MM |
| Clock.LeadingDigits | script.js:143 | the digit prefix `parseInt` reads is the longest prefix made of digits |
| Clock.ParseInt | script.js:143 | `parseInt` is NaN exactly when the text is empty or does not start with a digit |
| Clock.ParseIntLeading | script.js:143 | `parseInt` of digits followed by a non-digit is the value of those digits |
| Clock.ClockTextMinutes | script.js:119-129 | the `HH:MM` text built from a minute count converts back to that count and has no space |
| Clock.LabelRange | script.js:113-129 | a half-hour text splits back into its start and start + 30 minutes |
| Clock.LabelInjective | script.js:129-131 | two minute counts with the same half-hour text are equal |
| Clock.LabelTextInjective | script.js:145-149 | distinct dictionary keys have distinct texts |
| Clock.FirstHalfLabel | script.js:146 | the covered/grid first-half text of hour h is the half-hour text starting at 60·h |
| Clock.SecondHalfLabel | script.js:147 | the second-half text of hour h is the half-hour text starting at 60·h + 30 |
| Clock.FirstHalfSeven | script.js:317 | hour 7 gives "07:00 - 07:30" |
| Clock.FirstHalfTwentyThree | script.js:317 | hour 23 gives "23:00 - 23:30" |
| Clock.SecondHalfTwentyThree | script.js:147 | the second half of hour 23 is "23:30 - 24:00" |
| TimeGrid.Generate30MinTimeSlots | script.js:310-328 | the loop returns exactly the texts of the 33 grid rows, in order |
| TimeGrid.AllPushed | script.js:315-325 | the texts pushed by all hours 7..23 are the texts of the whole grid |
| TimeGrid.PushedRows | script.js:315-325 | after the hours before `hour`, the pushed texts are the texts of the grid's first rows |
| TimeGrid.HourRows | script.js:315-325 | one hour pushes two rows before 23 and one row at 23 |
| TimeGrid.FirstRowPushed | script.js:317-318 | each hour's first push is the next grid row |
| TimeGrid.SecondRowPushed | script.js:321-323 | each hour's second push, before 23, is the next grid row |
| TimeGrid.Texts | script.js:310-328 | the row texts are as many as the rows |
| TimeGrid.TextsAt | script.js:310-328 | the k-th row text is the text of the k-th label |
| TimeGrid.TextsOfRows | script.js:310-328 | a list agreeing with the labels' texts position by position is the row texts |
| TimeGrid.FirstHalfRow | script.js:317 | the first-half text of hour h is the grid row 2·(h − 7) |
| TimeGrid.SecondHalfRow | script.js:322 | the second-half text of hour h < 23 is the grid row 2·(h − 7) + 1 |
| TimeGrid.GridMembership | script.js:310-328 | a half hour is a row exactly when it starts on a half hour between 07:00 and 23:00 |
| TimeGrid.GridFirstRow | script.js:310-328 | there are 33 rows and the first is "07:00 - 07:30" |
| TimeGrid.GridLastRow | script.js:320-323 | the last row is "23:00 - 23:30" |
| TimeGrid.GridStopsBeforeMidnight | script.js:320-323 | no row reads "23:30 - 24:00" |
| TimeGrid.TextNotInGrid | script.js:310-328 | a key that is not a row label has a text different from every row text |
| TimeGrid.GridContiguous | script.js:315-325 | each row covers 30 minutes and the next row starts where it ends |
| TimeGrid.GridAscending | script.js:315-325 | rows start strictly later going down, and no two rows share a text |
| SlotNormalizer.NormalizeRegularCourt | script.js:109-134 | one regular court's loop throws exactly when one of its slots lacks " - ", and otherwise builds `CourtMap` of its slots |
| SlotNormalizer.WriteRegularSlot | script.js:112-133 | one regular slot throws exactly when its time lacks " - ", and otherwise writes its 30-minute steps |
| SlotNormalizer.FillRange | script.js:120-132 | the minute loop writes every step from start while below end |
| SlotNormalizer.NormalizeCoveredCourt | script.js:137-152 | one covered court's loop builds `CourtMap` of its slots with the two-halves rule |
| SlotNormalizer.NormalizeDay | script.js:101-152 | the day's dictionaries are `DayMaps(courts)`, None when the regular pass throws |
| SlotNormalizer.RegularPass | script.js:102-134 | the regular pass fails exactly when some regular court throws, and otherwise stores each regular court's dictionary under its name |
| SlotNormalizer.CoveredPass | script.js:137-152 | the covered pass stores each covered court's dictionary under its name, on top of the regular pass |
| SlotNormalizer.RegularThrowsLater | script.js:109-118 | once a regular court has thrown, the pass throws however many courts follow |
| SlotNormalizer.RegularThrowsAt | script.js:109-118 | the regular pass throws exactly when some regular court among the first n has a slot without " - " |
| SlotNormalizer.RegularCourtStep | script.js:109-134 | one more regular court either makes the pass throw or extends it with that court's dictionary |
| SlotNormalizer.RegularSlotStep | script.js:112-133 | one more regular slot either makes the court throw or extends the dictionary by its writes |
| SlotNormalizer.CoveredSlotStep | script.js:145-150 | one more covered slot writes its two halves onto the dictionary built so far |
| SlotNormalizer.Fold | script.js:131-149 | every entry of a court's dictionary refers to one of that court's slots |
| SlotNormalizer.LastIndexOf | script.js:110-138 | the last court with a given name among the first n, or none when no court has that name |
| SlotNormalizer.StepsMembership | script.js:120-132 | a key is written by the minute loop exactly when it is a half hour from start, below end, at a multiple of 30 from start |
| SlotNormalizer.StepsAligned | script.js:120-132 | an aligned range yields (end − start)/30 keys in ascending order |
| SlotNormalizer.RegularSlotCoverage | script.js:113-132 | a regular slot writes exactly the half hours from its start, below its end, at 30-minute steps |
| SlotNormalizer.RegularSlotEmpty | script.js:116-121 | a regular slot whose start or end is NaN writes nothing |
| SlotNormalizer.RegularExample | script.js:113-132 | "09:00 - 10:30" writes 09:00, 09:30 and 10:00, and neither 08:30 nor 10:30 |
| SlotNormalizer.NineToTenThirty | script.js:113-117 | "09:00 - 10:30" converts to 540 and 630 minutes |
| SlotNormalizer.SlotRangeOfDigits | script.js:113-117 | `HH:MM - HH:MM` with digit fields converts to its two minute counts |
| SlotNormalizer.SlotRangeOfParts | script.js:113-117 | two space-free times joined by " - " split back into those times |
| SlotNormalizer.CoveredHourOfDigits | script.js:142-143 | a covered slot starting "HH:MM" has hour HH |
| SlotNormalizer.CoveredTwoLabels | script.js:145-149 | a covered slot writes two distinct keys, the NaN texts when the hour is NaN |
| SlotNormalizer.CoveredKeys | script.js:145-149 | the two keys of a covered slot at hour h read as its first- and second-half texts |
| SlotNormalizer.CoveredAtTwentyThree | script.js:147 | a covered slot at 23:00 writes "23:30 - 24:00" |
| SlotNormalizer.FoldLastWriter | script.js:131-149 | a key holds the last slot that writes it |
| SlotNormalizer.FoldUnwritten | script.js:131-149 | a key no slot writes is absent |
| SlotNormalizer.CourtMapLastWriter | script.js:112-150 | in a court's dictionary, a key holds the last of that court's slots that writes it |
| SlotNormalizer.CourtMapUnwritten | script.js:112-150 | a key none of a court's slots writes is absent from its dictionary |
| SlotNormalizer.WriteHit | script.js:131-149 | a written key holds the written slot |
| SlotNormalizer.WriteMiss | script.js:131-149 | writing other keys leaves a key as it was |
| SlotNormalizer.PassHit | script.js:109-138 | after a pass, a name of the pass's kind holds the dictionary of the last court with that name |
| SlotNormalizer.PassMiss | script.js:109-138 | a pass leaves a name that no court of its kind carries as it was |
| SlotNormalizer.DayMapsEntry | script.js:101-152 | a name is in the day's dictionaries exactly when some court carries it, and it holds the dictionary of the last court with that name |
| DateSort.Insert | script.js:55 | inserting adds exactly one copy of the element |
| DateSort.Sort | script.js:55 | sorting is a permutation of the keys |
| DateSort.InsertAscending | script.js:55 | inserting a new key into an ascending list keeps it ascending |
| DateSort.SortAscending | script.js:55 | distinct keys sort into strictly ascending order, none lost |
| DateSort.AscendingUnique | script.js:55 | two ascending lists with the same elements are equal, so the order is determined by the keys alone |
| DateSort.SortExample | script.js:55 | "2024-03-02", "2024-03-01" sort to "2024-03-01", "2024-03-02" |
| Compositor.DisplayAllDays | script.js:48-271 | the loops produce `RenderSpec(ds)`: no-data message, crash, or the matrix of rows, day headers, court headers and cells |
| Compositor.StatusPass | script.js:83-167 | the per-day pass fails exactly when a kept day's regular pass throws, and otherwise stores every kept day's dictionaries and its header |
| Compositor.MapsReadyAdd | script.js:83-167 | storing one more day's dictionaries keeps every processed day ready |
| Compositor.MapsReadySkip | script.js:85-87 | skipping a day without courts keeps every processed day ready |
| Compositor.HeaderPass | script.js:180-204 | the second header row lists each kept day's courts, day by day, in array order |
| Compositor.CourtHeaders | script.js:186-203 | one day's headers carry each court's label, covered class and full name, in array order |
| Compositor.RowsPass | script.js:209-267 | one row of cells for each of the 33 grid rows, each as `RowCells` |
| Compositor.BuildRow | script.js:219-264 | one row's cells are the kept days' cells, day by day |
| Compositor.DayRow | script.js:228-263 | one day's cells, one for each court, follow the cell rule |
| Compositor.SameNameLookup | script.js:232-238 | the inner scan over same-name courts finds the entry under the row's key in the dictionary stored under the court's name |
| Compositor.Classify | script.js:240-259 | no data exactly without a slot; available exactly when its status is 'Livre'; reserved otherwise; clickable exactly when available with a truthy booking link |
| Compositor.CourtLabelNumbered | script.js:196 | "Padel Quadra 1" is labelled "1" |
| Compositor.CourtLabelDot | script.js:196 | a name in which "Padel Quadra " does not occur loses only its first '.' |
| Compositor.NoDataIffNoKeys | script.js:55-60 | the no-data message appears exactly when the dataset has no keys |
| Compositor.DatesAscending | script.js:55 | the processed dates are strictly ascending and are exactly the dataset's days |
| Compositor.ColumnsShape | script.js:155-204 | court headers and columns are as many as the day headers' spans add up to; each column is a court of a kept day, and its header is that court's header |
| Compositor.ColumnsComplete | script.js:180-228 | every court of every kept day has a column |
| Compositor.ColumnsOrdered | script.js:180-228 | columns of earlier dates come first |
| Compositor.RowCellsMatchColumns | script.js:219-264 | every row has one cell per column, and the cell is the one for that column's court |
| Compositor.MatrixShape | script.js:209-267 | the matrix has the 33 grid rows from "07:00 - 07:30" to "23:00 - 23:30", each with one cell per column, and as many columns and court headers as the day spans add up to |
| Compositor.AllDaysEmpty | script.js:57-87 | when no day has courts, the table still renders, with no columns and 33 empty rows |
| Compositor.EmptyDaySkipped | script.js:85-87 | a day without courts, wherever it falls among the dates, adds no column, no court header and no day header |
| Compositor.EmptyDays | script.js:85-87 | when no day has courts, there are no columns and no day headers |
| Compositor.CellFromLastWriter | script.js:233-259 | a cell shows the last slot of the last same-name court that writes its row's key |
| Compositor.CellWithoutWriter | script.js:233-259 | a cell whose row's key no slot of that court writes shows no data |

## Left out

- The DOM is not modelled: element creation, `innerHTML`, class names as strings, `addEventListener` and `alert`. The model records what each header and cell shows.
- `fetchCourtData`, `updateApiUrl`, the `DOMContentLoaded` start-up and the `config`/`courtData` globals are not modelled. The dataset is a parameter.
- The locale date text of a day header (script.js:90-96) is not modelled, because `toLocaleDateString` depends on the platform. A `DayHeader` carries the date key and its span.
- The cell tooltip text (script.js:248) is not modelled.
- The `court.statusMap` and `court.dateString` fields (script.js:162-166) are not modelled as mutation. The cell pass looks up the day's dictionaries by date and court name. This gives the same result: every court with a given name receives the dictionary stored under that name, and that dictionary is the one built for the last court with the name.
- `server/cors_server.py` is not part of this model.
- Minute and hour values are exact unbounded integers here, while JavaScript numbers are doubles. `Number` loses precision above 2^53, `toString()` switches to exponent form from 1e21, and once minute counts pass about 2^58, `minutes += 30` no longer changes the value, so the source's minute loop (script.js:121) never ends on such a feed; the model instead takes the exact number of 30-minute steps.
- Clock.NumberOf: `Number` is modelled for strings of ASCII digits only. Whitespace, signs, decimals and exponents give NaN here, not their JavaScript values.
- Clock.ParseInt: `parseInt` reads ASCII digits only, with no leading whitespace or sign.
- DateSort.Sort: strings are ordered by Dafny characters, not UTF-16 code units. The two orders agree on the ASCII date keys the data source uses.
- A slot whose `time` is not a string, or a court without a `timeSlots` array, is not modelled. A covered slot's time without ':' parses like any other text.
- Prototype keys such as `toString` on the JavaScript dictionaries are not modelled. The dictionaries are maps with no inherited entries.
- Compositor.Resolve returns no slot for a reference outside the day's arrays. Such a reference is never stored, because every entry refers to a slot of its own court (`SlotNormalizer.Fold`).
