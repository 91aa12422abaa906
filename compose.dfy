/** The multi-day availability matrix of `displayAllDays`
    (script.js:48-271), without the DOM: which days contribute columns, in
    what order, what each header says and what each cell shows. */
module Compositor {
  import opened Options
  import opened Text
  import opened Clock
  import opened TimeGrid
  import opened SlotNormalizer
  import opened DateSort

  /** `courtData`: `keys` lists its own keys in the order `Object.keys`
      yields them; `days[d]` is the day's `courts` array, None when the day
      or its `courts` field is missing or falsy. */
  datatype Dataset = Dataset(keys: seq<string>, days: map<string, Option<seq<Court>>>)

  /** An object lists each of its own keys exactly once. */
  predicate WellFormed(ds: Dataset)
  {
    Distinct(ds.keys) && ds.days.Keys == set d | d in ds.keys
  }

  /** The courts a date contributes: none when `courtData[d]`, its
      `courts`, or the array's length is falsy (script.js:85-87). */
  function CourtsOf(ds: Dataset, d: string): seq<Court>
  {
    if d in ds.days && ds.days[d].Some? then ds.days[d].value else []
  }

  /** A day header spans as many columns as the day has courts. The
      formatted weekday text is not modelled; the header carries the key. */
  datatype DayHeader = DayHeader(date: string, span: nat)

  /** A court header: its label, its covered/regular class, and its
      tooltip (the court's full name). */
  datatype CourtHeader = CourtHeader(text: string, covered: bool, title: string)

  /** Column `court` of day `date`: the court at that position of the day's
      `courts` array. */
  datatype Column = Column(date: string, court: nat)

  /** What one cell shows: no data, an available slot (clickable or not),
      or a reserved slot. */
  datatype Cell = NoData | Available(slot: Slot, clickable: bool) | Reserved(slot: Slot)

  /** The outcome of one call: the "No court data available" message, an
      exception (caught by the caller, which shows an error), or the table. */
  datatype Render =
    | NoCourtData
    | Crashed
    | Matrix(rows: seq<string>, days: seq<DayHeader>, columns: seq<Column>,
             headers: seq<CourtHeader>, cells: seq<seq<Cell>>)

  // ---- headers ------------------------------------------------------------

  /** `court.name.replace('Padel Quadra ', '').replace('.', '')`: each
      replace removes the first occurrence only. */
  function CourtLabel(name: string): string
  {
    ReplaceFirst(ReplaceFirst(name, "Padel Quadra ", ""), ".", "")
  }

  function HeaderOf(c: Court): CourtHeader
  {
    CourtHeader(CourtLabel(c.name), IsCovered(c.name), c.fullName)
  }

  /** "Padel Quadra 1" is labelled "1": the prefix goes, and a label with no
      '.' is left as it is. */
  lemma CourtLabelNumbered(x: string)
    requires '.' !in x
    ensures CourtLabel("Padel Quadra " + x) == x
  {
    ReplaceLeading("Padel Quadra ", x);
    ReplaceAbsent(x, ".", "");
  }

  /** A name without the prefix loses its first '.' and nothing else. */
  lemma CourtLabelDot(a: string, b: string)
    requires Find(a + "." + b, "Padel Quadra ").None? && '.' !in a
    ensures CourtLabel(a + "." + b) == a + b
  {
    var name := a + "." + b;
    FindAfter(a, ".", b);
    assert name[..|a|] == a && name[|a| + 1..] == b;
  }

  // ---- the cell rule --------------------------------------------------------

  /** `bookingUrl` is truthy: present and not the empty string. */
  predicate Truthy(url: Option<string>)
  {
    url.Some? && url.value != ""
  }

  /** The cell for the slot found under a label, if any (script.js:240-259):
      no data without a slot, available when its status is `'Livre'`,
      reserved otherwise; clickable only when available with a truthy
      `bookingUrl`. */
  function Classify(found: Option<Slot>): (c: Cell)
    ensures c.NoData? <==> found.None?
    ensures c.Available? <==> found.Some? && found.value.status == "Livre"
    ensures c.Reserved? <==> found.Some? && found.value.status != "Livre"
    ensures !c.NoData? ==> c.slot == found.value
    ensures c.Available? ==> (c.clickable <==> Truthy(found.value.bookingUrl))
  {
    match found
    case None => NoData
    case Some(slot) =>
      if slot.status == "Livre" then Available(slot, Truthy(slot.bookingUrl)) else Reserved(slot)
  }

  function Lookup(m: StatusMap, l: Label): Option<SlotRef>
  {
    if l in m then Some(m[l]) else None
  }

  /** The slot object a dictionary entry refers to. */
  function Resolve(courts: seq<Court>, r: Option<SlotRef>): Option<Slot>
  {
    match r
    case None => None
    case Some(ref) =>
      if ref.court < |courts| && ref.slot < |courts[ref.court].timeSlots|
      then Some(courts[ref.court].timeSlots[ref.slot]) else None
  }

  /** The cell of court `k` of a day in grid row `row`: the entry under
      that label in the dictionary stored under the court's name. */
  function CellOf(courts: seq<Court>, maps: DayMap, k: nat, row: Label): Cell
    requires k < |courts|
  {
    var name := courts[k].name;
    Classify(if name in maps then Resolve(courts, Lookup(maps[name], row)) else None)
  }

  // ---- composition, as values ------------------------------------------------

  /** A kept day's dictionaries could not be built. */
  predicate DaysThrow(ds: Dataset, dates: seq<string>)
  {
    exists i :: 0 <= i < |dates| && DayMaps(CourtsOf(ds, dates[i])).None?
  }

  function DayHeaders(ds: Dataset, dates: seq<string>): (hs: seq<DayHeader>)
    ensures |hs| <= |dates|
  {
    if dates == [] then []
    else
      var d := dates[|dates| - 1];
      var courts := CourtsOf(ds, d);
      DayHeaders(ds, dates[..|dates| - 1]) + (if |courts| > 0 then [DayHeader(d, |courts|)] else [])
  }

  /** The columns: the kept dates' courts, date by date and, within a date,
      in the order of its `courts` array. */
  function Columns(ds: Dataset, dates: seq<string>): (cols: seq<Column>)
  {
    if dates == [] then []
    else
      var d := dates[|dates| - 1];
      Columns(ds, dates[..|dates| - 1]) + seq(|CourtsOf(ds, d)|, k requires 0 <= k => Column(d, k))
  }

  function Headers(ds: Dataset, dates: seq<string>): seq<CourtHeader>
  {
    if dates == [] then []
    else
      var courts := CourtsOf(ds, dates[|dates| - 1]);
      Headers(ds, dates[..|dates| - 1]) + seq(|courts|, k requires 0 <= k < |courts| => HeaderOf(courts[k]))
  }

  function DayCells(courts: seq<Court>, row: Label): seq<Cell>
  {
    match DayMaps(courts)
    case None => []
    case Some(maps) => seq(|courts|, k requires 0 <= k < |courts| => CellOf(courts, maps, k, row))
  }

  /** The cells of one row, day by day. */
  function RowCells(ds: Dataset, dates: seq<string>, row: Label): seq<Cell>
  {
    if dates == [] then []
    else RowCells(ds, dates[..|dates| - 1], row) + DayCells(CourtsOf(ds, dates[|dates| - 1]), row)
  }

  /** What `displayAllDays` produces for a dataset. */
  function RenderSpec(ds: Dataset): Render
  {
    var dates := Sort(ds.keys);
    if |dates| == 0 then NoCourtData
    else if DaysThrow(ds, dates) then Crashed
    else
      Matrix(Texts(Grid()), DayHeaders(ds, dates), Columns(ds, dates), Headers(ds, dates),
             seq(|Grid()|, t requires 0 <= t < |Grid()| => RowCells(ds, dates, Grid()[t])))
  }

  // ---- the loops ------------------------------------------------------------

  /** The whole of `displayAllDays` on `courtData`, as three passes over the
      sorted dates: dictionaries and day headers, court headers, then one
      row per grid label. */
  method DisplayAllDays(ds: Dataset) returns (r: Render)
    ensures r == RenderSpec(ds)
  {
    var dates := Sort(ds.keys);
    if |dates| == 0 {
      return NoCourtData;
    }
    var timeSlots := Generate30MinTimeSlots();
    var statusMaps, dayHeaders := StatusPass(ds, dates);
    if statusMaps.None? {
      return Crashed;
    }
    var columns, headers := HeaderPass(ds, dates);
    var cells := RowsPass(ds, dates, statusMaps.value);
    return Matrix(timeSlots, dayHeaders, columns, headers, cells);
  }

  /** Every kept day's dictionaries were built and are stored under its
      date. */
  predicate MapsReady(ds: Dataset, dates: seq<string>, statusMaps: map<string, DayMap>)
  {
    && (forall k :: 0 <= k < |dates| ==> DayMaps(CourtsOf(ds, dates[k])).Some?)
    && (forall k :: 0 <= k < |dates| && |CourtsOf(ds, dates[k])| > 0 ==> dates[k] in statusMaps)
    && (forall d :: d in statusMaps ==> DayMaps(CourtsOf(ds, d)) == Some(statusMaps[d]))
  }

  /** The first `dates.forEach` (script.js:83-167): build each kept day's
      dictionaries and its day header; None when building one throws. */
  method StatusPass(ds: Dataset, dates: seq<string>)
    returns (statusMaps: Option<map<string, DayMap>>, dayHeaders: seq<DayHeader>)
    ensures statusMaps.None? <==> DaysThrow(ds, dates)
    ensures statusMaps.Some? ==> MapsReady(ds, dates, statusMaps.value)
    ensures statusMaps.Some? ==> dayHeaders == DayHeaders(ds, dates)
  {
    var maps: map<string, DayMap> := map[];
    dayHeaders := [];
    var i := 0;
    while i < |dates|
      invariant 0 <= i <= |dates|
      invariant MapsReady(ds, dates[..i], maps)
      invariant dayHeaders == DayHeaders(ds, dates[..i])
    {
      var courts := CourtsOf(ds, dates[i]);
      assert dates[..i + 1][..i] == dates[..i];
      if |courts| > 0 {
        var day := NormalizeDay(courts);
        if day.None? {
          assert DayMaps(CourtsOf(ds, dates[i])).None?;
          return None, dayHeaders;
        }
        MapsReadyAdd(ds, dates, i, maps, day.value);
        maps := maps[dates[i] := day.value];
        dayHeaders := dayHeaders + [DayHeader(dates[i], |courts|)];
      } else {
        MapsReadySkip(ds, dates, i, maps);
      }
      i := i + 1;
    }
    assert dates[..i] == dates;
    return Some(maps), dayHeaders;
  }

  lemma MapsReadyAdd(ds: Dataset, dates: seq<string>, i: nat, maps: map<string, DayMap>, day: DayMap)
    requires i < |dates| && MapsReady(ds, dates[..i], maps)
    requires DayMaps(CourtsOf(ds, dates[i])) == Some(day)
    ensures MapsReady(ds, dates[..i + 1], maps[dates[i] := day])
  {
    var prefix, added := dates[..i + 1], maps[dates[i] := day];
    forall k | 0 <= k < |prefix|
      ensures DayMaps(CourtsOf(ds, prefix[k])).Some?
    {
      if k < i {
        assert prefix[k] == dates[..i][k];
      }
    }
    forall k | 0 <= k < |prefix| && |CourtsOf(ds, prefix[k])| > 0
      ensures prefix[k] in added
    {
      if k < i {
        assert prefix[k] == dates[..i][k];
      }
    }
    forall d | d in added
      ensures DayMaps(CourtsOf(ds, d)) == Some(added[d])
    {
      if d != dates[i] {
        assert d in maps;
      }
    }
  }

  lemma MapsReadySkip(ds: Dataset, dates: seq<string>, i: nat, maps: map<string, DayMap>)
    requires i < |dates| && MapsReady(ds, dates[..i], maps)
    requires CourtsOf(ds, dates[i]) == []
    ensures MapsReady(ds, dates[..i + 1], maps)
  {
    assert !DayThrows([]);
  }

  /** The second `dates.forEach` (script.js:180-204): one column and one
      court header per court of each kept day. */
  method HeaderPass(ds: Dataset, dates: seq<string>) returns (columns: seq<Column>, headers: seq<CourtHeader>)
    ensures columns == Columns(ds, dates)
    ensures headers == Headers(ds, dates)
  {
    columns, headers := [], [];
    var i := 0;
    while i < |dates|
      invariant 0 <= i <= |dates|
      invariant columns == Columns(ds, dates[..i])
      invariant headers == Headers(ds, dates[..i])
    {
      var courts := CourtsOf(ds, dates[i]);
      assert dates[..i + 1][..i] == dates[..i];
      if |courts| > 0 {
        var cols, hdrs := CourtHeaders(dates[i], courts);
        columns := columns + cols;
        headers := headers + hdrs;
      }
      i := i + 1;
    }
    assert dates[..i] == dates;
  }

  /** `timeSlots.forEach` (script.js:209-267): one row of cells per grid
      label. */
  method RowsPass(ds: Dataset, dates: seq<string>, statusMaps: map<string, DayMap>) returns (cells: seq<seq<Cell>>)
    requires MapsReady(ds, dates, statusMaps)
    ensures cells == seq(|Grid()|, t requires 0 <= t < |Grid()| => RowCells(ds, dates, Grid()[t]))
  {
    var grid := Grid();
    cells := [];
    var t := 0;
    while t < |grid|
      invariant 0 <= t <= |grid|
      invariant cells == seq(t, u requires 0 <= u < t => RowCells(ds, dates, grid[u]))
    {
      var row := BuildRow(ds, dates, statusMaps, grid[t]);
      cells := cells + [row];
      t := t + 1;
    }
  }

  /** `courts.forEach` of the second header row, for one kept day. */
  method CourtHeaders(date: string, courts: seq<Court>) returns (cols: seq<Column>, hdrs: seq<CourtHeader>)
    ensures cols == seq(|courts|, k requires 0 <= k => Column(date, k))
    ensures hdrs == seq(|courts|, k requires 0 <= k < |courts| => HeaderOf(courts[k]))
  {
    cols, hdrs := [], [];
    var k := 0;
    while k < |courts|
      invariant 0 <= k <= |courts|
      invariant cols == seq(k, j requires 0 <= j => Column(date, j))
      invariant hdrs == seq(k, j requires 0 <= j < k => HeaderOf(courts[j]))
    {
      var isCovered := IsCovered(courts[k].name);
      var courtLabel := CourtLabel(courts[k].name);
      cols := cols + [Column(date, k)];
      hdrs := hdrs + [CourtHeader(courtLabel, isCovered, courts[k].fullName)];
      k := k + 1;
    }
  }

  /** One table row: for each kept day, one cell per court. */
  method BuildRow(ds: Dataset, dates: seq<string>, statusMaps: map<string, DayMap>, row: Label)
    returns (cells: seq<Cell>)
    requires MapsReady(ds, dates, statusMaps)
    ensures cells == RowCells(ds, dates, row)
  {
    cells := [];
    var i := 0;
    while i < |dates|
      invariant 0 <= i <= |dates|
      invariant cells == RowCells(ds, dates[..i], row)
    {
      var courts := CourtsOf(ds, dates[i]);
      assert dates[..i + 1][..i] == dates[..i];
      if |courts| > 0 {
        var dayCells := DayRow(courts, statusMaps[dates[i]], row);
        cells := cells + dayCells;
      }
      i := i + 1;
    }
    assert dates[..i] == dates;
  }

  /** `courts.forEach(court => ...)` inside one row, for one day whose
      dictionaries are `maps`. */
  method DayRow(courts: seq<Court>, maps: DayMap, row: Label) returns (cells: seq<Cell>)
    requires DayMaps(courts) == Some(maps)
    ensures cells == DayCells(courts, row)
  {
    cells := [];
    var k := 0;
    while k < |courts|
      invariant 0 <= k <= |courts|
      invariant cells == seq(k, j requires 0 <= j < k => CellOf(courts, maps, j, row))
    {
      var matching := SameNameLookup(courts, maps, k, row);
      var cell := Classify(Resolve(courts, matching));
      cells := cells + [cell];
      k := k + 1;
    }
  }

  /** The inner `courts.forEach(c => ...)` of script.js:233-238: every court
      with this court's name overwrites the lookup with its own dictionary's
      entry; they all hold the one stored under that name. */
  method SameNameLookup(courts: seq<Court>, maps: DayMap, k: nat, row: Label) returns (found: Option<SlotRef>)
    requires k < |courts|
    ensures found == if courts[k].name in maps then Lookup(maps[courts[k].name], row) else None
  {
    var name := courts[k].name;
    found := None;
    var c := 0;
    while c < |courts|
      invariant 0 <= c <= |courts|
      invariant found == if c > 0 && name in maps && (exists j :: 0 <= j < c && courts[j].name == name)
                         then Lookup(maps[name], row) else None
    {
      if courts[c].name == name {
        found := if name in maps then Lookup(maps[name], row) else None;
      }
      c := c + 1;
    }
  }

  // ---- properties of the composition ------------------------------------------

  /** The "No court data available" state appears exactly when `courtData`
      has no keys at all. */
  lemma NoDataIffNoKeys(ds: Dataset)
    ensures RenderSpec(ds) == NoCourtData <==> |ds.keys| == 0
  {
    assert |multiset(Sort(ds.keys))| == |multiset(ds.keys)|;
  }

  /** Days are laid out in ascending order of their keys, and each key
      appears once. */
  lemma DatesAscending(ds: Dataset)
    requires WellFormed(ds)
    ensures Ascending(Sort(ds.keys))
    ensures forall d :: d in Sort(ds.keys) <==> d in ds.days
  {
    SortAscending(ds.keys);
    forall d
      ensures d in Sort(ds.keys) <==> d in ds.days
    {
      assert d in Sort(ds.keys) <==> d in multiset(Sort(ds.keys));
      assert d in ds.keys <==> d in multiset(ds.keys);
    }
  }

  function SpanSum(hs: seq<DayHeader>): nat
  {
    if hs == [] then 0 else SpanSum(hs[..|hs| - 1]) + hs[|hs| - 1].span
  }

  lemma SpanSumAppend(hs: seq<DayHeader>, more: seq<DayHeader>)
    requires |more| <= 1
    ensures SpanSum(hs + more) == SpanSum(hs) + (if more == [] then 0 else more[0].span)
  {
    if more != [] {
      assert (hs + more)[..|hs|] == hs;
    } else {
      assert hs + more == hs;
    }
  }

  /** There is one column and one court header per court of each kept day,
      and the day headers' spans add up to the number of columns; every
      column names a court that exists, and its header is that court's. */
  lemma {:induction false} ColumnsShape(ds: Dataset, dates: seq<string>)
    ensures |Columns(ds, dates)| == |Headers(ds, dates)| == SpanSum(DayHeaders(ds, dates))
    ensures forall a :: 0 <= a < |Columns(ds, dates)| ==>
      Columns(ds, dates)[a].date in dates
      && Columns(ds, dates)[a].court < |CourtsOf(ds, Columns(ds, dates)[a].date)|
      && Headers(ds, dates)[a] == HeaderOf(CourtsOf(ds, Columns(ds, dates)[a].date)[Columns(ds, dates)[a].court])
    decreases |dates|
  {
    if dates != [] {
      var prefix := dates[..|dates| - 1];
      var d := dates[|dates| - 1];
      var courts := CourtsOf(ds, d);
      ColumnsShape(ds, prefix);
      SpanSumAppend(DayHeaders(ds, prefix), if |courts| > 0 then [DayHeader(d, |courts|)] else []);
    }
  }

  /** Every court of every kept day has a column. */
  lemma {:induction false} ColumnsComplete(ds: Dataset, dates: seq<string>, d: string, k: nat)
    requires d in dates && k < |CourtsOf(ds, d)|
    ensures Column(d, k) in Columns(ds, dates)
    decreases |dates|
  {
    var prefix := dates[..|dates| - 1];
    var last := dates[|dates| - 1];
    if d == last {
      var added := seq(|CourtsOf(ds, last)|, j requires 0 <= j => Column(last, j));
      assert added[k] == Column(d, k);
      assert Columns(ds, dates) == Columns(ds, prefix) + added;
    } else {
      assert dates == prefix + [last];
      ColumnsComplete(ds, prefix, d, k);
    }
  }

  /** With the dates ascending, columns run in ascending date order and,
      within a date, in court order. */
  lemma {:induction false} ColumnsOrdered(ds: Dataset, dates: seq<string>)
    requires Ascending(dates)
    ensures forall a, b :: 0 <= a < b < |Columns(ds, dates)| ==>
      LexLess(Columns(ds, dates)[a].date, Columns(ds, dates)[b].date)
      || (Columns(ds, dates)[a].date == Columns(ds, dates)[b].date
          && Columns(ds, dates)[a].court < Columns(ds, dates)[b].court)
    decreases |dates|
  {
    if dates != [] {
      var prefix := dates[..|dates| - 1];
      var d := dates[|dates| - 1];
      ColumnsOrdered(ds, prefix);
      ColumnsShape(ds, prefix);
      var before := Columns(ds, prefix);
      var cols := Columns(ds, dates);
      forall a, b | 0 <= a < b < |cols|
        ensures LexLess(cols[a].date, cols[b].date)
             || (cols[a].date == cols[b].date && cols[a].court < cols[b].court)
      {
        if a < |before| && b >= |before| {
          var i :| 0 <= i < |prefix| && prefix[i] == cols[a].date;
          assert cols[b].date == d;
        }
      }
    }
  }

  /** One row's cells line up with the columns: cell k is the cell of
      column k. */
  function CellAt(ds: Dataset, col: Column, row: Label): Cell
  {
    var courts := CourtsOf(ds, col.date);
    match DayMaps(courts)
    case None => NoData
    case Some(maps) => if col.court < |courts| then CellOf(courts, maps, col.court, row) else NoData
  }

  lemma {:induction false} RowCellsMatchColumns(ds: Dataset, dates: seq<string>, row: Label)
    requires !DaysThrow(ds, dates)
    ensures |RowCells(ds, dates, row)| == |Columns(ds, dates)|
    ensures forall k :: 0 <= k < |Columns(ds, dates)| ==>
      RowCells(ds, dates, row)[k] == CellAt(ds, Columns(ds, dates)[k], row)
    decreases |dates|
  {
    if dates != [] {
      var prefix := dates[..|dates| - 1];
      var d := dates[|dates| - 1];
      assert !DaysThrow(ds, prefix) by {
        forall i | 0 <= i < |prefix|
          ensures DayMaps(CourtsOf(ds, prefix[i])).Some?
        {
          assert prefix[i] == dates[i];
        }
      }
      RowCellsMatchColumns(ds, prefix, row);
      assert DayMaps(CourtsOf(ds, d)).Some? by {
        assert dates[|dates| - 1] == d;
      }
    }
  }

  /** The table's shape: one row per grid label, whose header is the
      label's text; every row has one cell per column; the day headers'
      spans add up to the number of columns. */
  lemma MatrixShape(ds: Dataset)
    requires RenderSpec(ds).Matrix?
    ensures var m := RenderSpec(ds);
      |m.rows| == |m.cells| == 33
      && m.rows[0] == "07:00 - 07:30" && m.rows[32] == "23:00 - 23:30"
      && |m.columns| == |m.headers| == SpanSum(m.days)
      && forall t :: 0 <= t < |m.cells| ==> |m.cells[t]| == |m.columns|
  {
    var dates := Sort(ds.keys);
    GridFirstRow();
    GridLastRow();
    TextsAt(Grid(), 0);
    TextsAt(Grid(), 32);
    ColumnsShape(ds, dates);
    forall t | 0 <= t < |Grid()|
      ensures |RowCells(ds, dates, Grid()[t])| == |Columns(ds, dates)|
    {
      RowCellsMatchColumns(ds, dates, Grid()[t]);
    }
  }

  /** When every day is empty the result is not the "no data" message but a
      table with the 33 time rows and no column at all. */
  lemma {:induction false} AllDaysEmpty(ds: Dataset)
    requires |ds.keys| > 0
    requires forall k :: 0 <= k < |ds.keys| ==> CourtsOf(ds, ds.keys[k]) == []
    ensures RenderSpec(ds).Matrix?
    ensures RenderSpec(ds).columns == [] && RenderSpec(ds).days == []
    ensures |RenderSpec(ds).cells| == 33
    ensures forall t :: 0 <= t < 33 ==> RenderSpec(ds).cells[t] == []
  {
    var dates := Sort(ds.keys);
    assert |multiset(dates)| == |multiset(ds.keys)|;
    forall i | 0 <= i < |dates|
      ensures CourtsOf(ds, dates[i]) == []
    {
      assert dates[i] in multiset(dates);
    }
    assert !DaysThrow(ds, dates) by {
      forall i | 0 <= i < |dates|
        ensures DayMaps(CourtsOf(ds, dates[i])).Some?
      {
        assert !DayThrows([]);
      }
    }
    EmptyDays(ds, dates);
    MatrixShape(ds);
  }

  /** A day without courts adds nothing wherever it falls among the dates:
      no column, no court header and no day header (script.js:85-87). */
  lemma {:induction false} EmptyDaySkipped(ds: Dataset, pre: seq<string>, d: string, post: seq<string>)
    requires CourtsOf(ds, d) == []
    ensures Columns(ds, pre + [d] + post) == Columns(ds, pre + post)
    ensures Headers(ds, pre + [d] + post) == Headers(ds, pre + post)
    ensures DayHeaders(ds, pre + [d] + post) == DayHeaders(ds, pre + post)
    decreases |post|
  {
    if post == [] {
      assert (pre + [d])[..|pre|] == pre;
      assert pre + [d] + post == pre + [d];
      assert pre + post == pre;
    } else {
      var q := post[..|post| - 1];
      EmptyDaySkipped(ds, pre, d, q);
      assert (pre + [d] + post)[..|pre + [d] + post| - 1] == pre + [d] + q;
      assert (pre + post)[..|pre + post| - 1] == pre + q;
    }
  }

  /** When no day has courts there are no columns and no day headers. */
  lemma {:induction false} EmptyDays(ds: Dataset, dates: seq<string>)
    requires forall i :: 0 <= i < |dates| ==> CourtsOf(ds, dates[i]) == []
    ensures Columns(ds, dates) == [] && DayHeaders(ds, dates) == []
    decreases |dates|
  {
    if dates != [] {
      EmptyDays(ds, dates[..|dates| - 1]);
    }
  }

  /** A cell shows the slot that last wrote its row's label into the
      dictionary of the day's last court with the column's name: the later
      slot wins, and same-named courts share that court's dictionary. */
  lemma CellFromLastWriter(courts: seq<Court>, k: nat, row: Label, li: nat, j: nat)
    requires k < |courts| && !DayThrows(courts)
    requires LastIndexOf(courts, |courts|, courts[k].name) == Some(li)
    requires j < |courts[li].timeSlots|
    requires row in SlotLabels(courts[li].timeSlots[j], IsCovered(courts[k].name))
    requires forall i :: j < i < |courts[li].timeSlots| ==>
      row !in SlotLabels(courts[li].timeSlots[i], IsCovered(courts[k].name))
    ensures CellOf(courts, DayMaps(courts).value, k, row) == Classify(Some(courts[li].timeSlots[j]))
  {
    var name := courts[k].name;
    DayMapsEntry(courts, name);
    CourtMapLastWriter(li, courts[li].timeSlots, IsCovered(name), row, j);
  }

  /** A cell is "no data" when no slot of that court writes its row's
      label. */
  lemma CellWithoutWriter(courts: seq<Court>, k: nat, row: Label, li: nat)
    requires k < |courts| && !DayThrows(courts)
    requires LastIndexOf(courts, |courts|, courts[k].name) == Some(li)
    requires forall i :: 0 <= i < |courts[li].timeSlots| ==>
      row !in SlotLabels(courts[li].timeSlots[i], IsCovered(courts[k].name))
    ensures CellOf(courts, DayMaps(courts).value, k, row) == NoData
  {
    var name := courts[k].name;
    DayMapsEntry(courts, name);
    CourtMapUnwritten(li, courts[li].timeSlots, IsCovered(name), row);
  }
}
