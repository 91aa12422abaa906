/** The per-court status dictionaries that `displayAllDays` builds for one
    day (script.js:101-152): regular courts walk each native slot in 30-minute
    steps, covered courts (`'Coberto'` in the name) fill the two halves of
    the slot's start hour, and every court gets a fresh dictionary under its
    name. */
module SlotNormalizer {
  import opened Options
  import opened Text
  import opened Clock

  /** A native booking slot as the data source reports it. */
  datatype Slot = Slot(time: string, status: string, bookingUrl: Option<string>)

  datatype Court = Court(name: string, fullName: string, timeSlots: seq<Slot>)

  /** Which slot object a dictionary entry holds: slot `slot` of court
      `court`, by their positions in the day's lists. */
  datatype SlotRef = SlotRef(court: nat, slot: nat)

  /** One court's dictionary, keyed by the half hour each key denotes. */
  type StatusMap = map<Label, SlotRef>

  /** The dictionaries of one day, keyed by court name. */
  type DayMap = map<string, StatusMap>

  /** `court.name.includes('Coberto')`: the split into covered and regular
      courts depends on the name alone. */
  predicate IsCovered(name: string)
  {
    Contains(name, "Coberto")
  }

  // ---- which labels one slot writes -----------------------------------

  /** Number of iterations of `for (m = s; m < e; m += 30)`. */
  function StepCount(s: nat, e: nat): nat
  {
    if s < e then (e - s + 29) / 30 else 0
  }

  /** The half hours the regular-court loop visits, in order. */
  function Steps(s: nat, e: nat): seq<Label>
  {
    seq(StepCount(s, e), k requires 0 <= k => HalfHour(s + 30 * k))
  }

  /** The labels a regular court's slot writes (script.js:113-132). When
      either end is `NaN` the loop condition is false at once. */
  function RegularLabels(time: string): seq<Label>
  {
    match SlotRange(time)
    case Range(Some(s), Some(e)) => Steps(s, e)
    case _ => []
  }

  /** `parseInt(startTime.split(':')[0], 10)` where `startTime` is the part
      before the first `" - "`. */
  function CoveredHour(time: string): Option<nat>
  {
    var startTime := Split(time, " - ")[0];
    ParseInt(Split(startTime, ":")[0])
  }

  /** The two labels a covered court's slot writes (script.js:141-150); a
      `NaN` hour gives the keys "NaN:00 - NaN:30" and "NaN:30 - NaN:00". */
  function CoveredLabels(time: string): seq<Label>
  {
    match CoveredHour(time)
    case Some(h) => [HalfHour(60 * h), HalfHour(60 * h + 30)]
    case None => [NaNFirstHalf, NaNSecondHalf]
  }

  function SlotLabels(slot: Slot, covered: bool): seq<Label>
  {
    if covered then CoveredLabels(slot.time) else RegularLabels(slot.time)
  }

  /** A regular slot whose time has no `" - "` leaves `endTime` undefined,
      and `timeToMinutes(undefined)` throws. */
  predicate SlotThrows(slot: Slot)
  {
    SlotRange(slot.time).MissingEnd?
  }

  predicate CourtThrows(slots: seq<Slot>)
  {
    exists j :: 0 <= j < |slots| && SlotThrows(slots[j])
  }

  // ---- the dictionaries, as values ------------------------------------

  /** `m[l] = v` for each label `l` of `labels`. */
  function Write(m: StatusMap, labels: seq<Label>, v: SlotRef): StatusMap
  {
    m + map l | l in labels :: v
  }

  /** A dictionary that starts empty and, for each k in order, gets slot k
      written under every label of `writes[k]`. */
  function Fold(ci: nat, writes: seq<seq<Label>>): (m: StatusMap)
    ensures forall l :: l in m ==> m[l].court == ci && m[l].slot < |writes|
    decreases |writes|
  {
    if writes == [] then map[]
    else
      var j := |writes| - 1;
      Write(Fold(ci, writes[..j]), writes[j], SlotRef(ci, j))
  }

  /** The labels each slot of a court writes, slot by slot. */
  function SlotWrites(slots: seq<Slot>, covered: bool): (writes: seq<seq<Label>>)
    ensures |writes| == |slots|
  {
    seq(|slots|, k requires 0 <= k < |slots| => SlotLabels(slots[k], covered))
  }

  /** A court's dictionary: it starts empty and each slot, in order,
      overwrites the labels it writes. */
  function CourtMap(ci: nat, slots: seq<Slot>, covered: bool): StatusMap
  {
    Fold(ci, SlotWrites(slots, covered))
  }

  /** The dictionary built for each court of a day, as if it were in the
      group `covered`; a pass only keeps those of its own group. */
  function CourtMaps(courts: seq<Court>, covered: bool): (maps: seq<StatusMap>)
    ensures |maps| == |courts|
  {
    seq(|courts|, k requires 0 <= k < |courts| => CourtMap(k, courts[k].timeSlots, covered))
  }

  /** One of the two `forEach` passes over the day's first `n` courts: each
      court of the group stores its dictionary from `maps` under its name. */
  function Pass(acc: DayMap, courts: seq<Court>, maps: seq<StatusMap>, n: nat, covered: bool): DayMap
    requires n <= |courts| == |maps|
  {
    if n == 0 then acc
    else
      var prev := Pass(acc, courts, maps, n - 1, covered);
      var c := courts[n - 1];
      if IsCovered(c.name) == covered then prev[c.name := maps[n - 1]] else prev
  }

  /** Some regular court among the first `n` has a slot that throws. */
  predicate RegularThrows(courts: seq<Court>, n: nat)
    requires n <= |courts|
  {
    n > 0 && (RegularThrows(courts, n - 1) || (!IsCovered(courts[n - 1].name) && CourtThrows(courts[n - 1].timeSlots)))
  }

  predicate DayThrows(courts: seq<Court>)
  {
    RegularThrows(courts, |courts|)
  }

  /** The day's `courtStatusMap` after both passes, or None when a regular
      slot made `timeToMinutes` throw. */
  function DayMaps(courts: seq<Court>): Option<DayMap>
  {
    if DayThrows(courts) then None
    else
      var regular := Pass(map[], courts, CourtMaps(courts, false), |courts|, false);
      Some(Pass(regular, courts, CourtMaps(courts, true), |courts|, true))
  }

  /** Once a regular court throws, the day throws whatever courts follow. */
  lemma {:induction false} RegularThrowsLater(courts: seq<Court>, i: nat, n: nat)
    requires i <= n <= |courts| && RegularThrows(courts, i)
    ensures RegularThrows(courts, n)
    decreases n
  {
    if n > i {
      RegularThrowsLater(courts, i, n - 1);
    }
  }

  /** The day throws exactly when some regular court has a slot that
      throws. */
  lemma {:induction false} RegularThrowsAt(courts: seq<Court>, n: nat)
    requires n <= |courts|
    ensures RegularThrows(courts, n) <==>
      exists k :: 0 <= k < n && !IsCovered(courts[k].name) && CourtThrows(courts[k].timeSlots)
    decreases n
  {
    if n > 0 {
      RegularThrowsAt(courts, n - 1);
    }
  }

  // ---- the loops --------------------------------------------------------

  /** The body of `regularCourts.forEach` for court `ci`: None when a slot
      throws, otherwise the court's dictionary. */
  method NormalizeRegularCourt(ci: nat, court: Court) returns (r: Option<StatusMap>)
    ensures r == if CourtThrows(court.timeSlots) then None else Some(CourtMap(ci, court.timeSlots, false))
  {
    var slots := court.timeSlots;
    ghost var writes := SlotWrites(slots, false);
    var m: StatusMap := map[];
    var j := 0;
    while j < |slots|
      invariant 0 <= j <= |slots|
      invariant !CourtThrows(slots[..j])
      invariant m == Fold(ci, writes[..j])
    {
      var next := WriteRegularSlot(m, slots[j], SlotRef(ci, j));
      RegularSlotStep(ci, slots, writes, j, m, next);
      if next.None? {
        return None;
      }
      m := next.value;
      j := j + 1;
    }
    CourtMapDone(ci, slots, false, writes);
    assert slots[..j] == slots;
    return Some(m);
  }

  /** The body of `court.timeSlots.forEach` for a regular court: None when
      the slot's time has no end part, otherwise the dictionary with the
      slot written under each half hour of its range. */
  method WriteRegularSlot(m0: StatusMap, slot: Slot, v: SlotRef) returns (r: Option<StatusMap>)
    ensures r.None? <==> SlotThrows(slot)
    ensures r.Some? ==> r.value == Write(m0, RegularLabels(slot.time), v)
  {
    var range := SlotRange(slot.time);
    if range.MissingEnd? {
      return None;
    }
    var startMinutes, endMinutes := range.start, range.end;
    RegularLabelsOf(slot.time, range);
    if startMinutes.Some? && endMinutes.Some? {
      var m := FillRange(m0, startMinutes.value, endMinutes.value, v);
      return Some(m);
    }
    WriteNothing(m0, v);
    return Some(m0);
  }

  /** `for (let minutes = s; minutes < e; minutes += 30)`, writing `v` under
      the half hour starting at each `minutes`. */
  method FillRange(m0: StatusMap, s: nat, e: nat, v: SlotRef) returns (m: StatusMap)
    ensures m == Write(m0, Steps(s, e), v)
  {
    m := m0;
    var minutes := s;
    ghost var k: nat := 0;
    while minutes < e
      invariant minutes == s + 30 * k
      invariant k <= StepCount(s, e)
      invariant m == Write(m0, Steps(s, e)[..k], v)
    {
      WriteSnoc(m0, Steps(s, e), k, v);
      m := m[HalfHour(minutes) := v];
      minutes := minutes + 30;
      k := k + 1;
    }
    assert Steps(s, e)[..k] == Steps(s, e);
  }

  /** The body of `coveredCourts.forEach` for court `ci`. */
  method NormalizeCoveredCourt(ci: nat, court: Court) returns (m: StatusMap)
    ensures m == CourtMap(ci, court.timeSlots, true)
  {
    var slots := court.timeSlots;
    ghost var writes := SlotWrites(slots, true);
    m := map[];
    var j := 0;
    while j < |slots|
      invariant 0 <= j <= |slots|
      invariant m == Fold(ci, writes[..j])
    {
      var hour := CoveredHour(slots[j].time);
      var firstHalfSlot, secondHalfSlot;
      if hour.Some? {
        firstHalfSlot, secondHalfSlot := HalfHour(60 * hour.value), HalfHour(60 * hour.value + 30);
      } else {
        firstHalfSlot, secondHalfSlot := NaNFirstHalf, NaNSecondHalf;
      }
      CoveredSlotStep(ci, slots, writes, j, m, firstHalfSlot, secondHalfSlot);
      m := m[firstHalfSlot := SlotRef(ci, j)];
      m := m[secondHalfSlot := SlotRef(ci, j)];
      j := j + 1;
    }
    CourtMapDone(ci, slots, true, writes);
  }

  /** Both passes over a day's courts (script.js:101-152): regular courts
      first, then covered ones, each court storing a fresh dictionary under
      its name. */
  method NormalizeDay(courts: seq<Court>) returns (r: Option<DayMap>)
    ensures r == DayMaps(courts)
  {
    var regular := RegularPass(courts);
    if regular.None? {
      return None;
    }
    var courtStatusMap := CoveredPass(regular.value, courts);
    return Some(courtStatusMap);
  }

  /** `regularCourts.forEach` (script.js:109-134): None as soon as a slot
      throws. */
  method RegularPass(courts: seq<Court>) returns (r: Option<DayMap>)
    ensures r.None? <==> DayThrows(courts)
    ensures r.Some? ==> r.value == Pass(map[], courts, CourtMaps(courts, false), |courts|, false)
  {
    ghost var maps := CourtMaps(courts, false);
    var courtStatusMap: DayMap := map[];
    var i := 0;
    while i < |courts|
      invariant 0 <= i <= |courts|
      invariant !RegularThrows(courts, i)
      invariant courtStatusMap == Pass(map[], courts, maps, i, false)
    {
      if !IsCovered(courts[i].name) {
        var m := NormalizeRegularCourt(i, courts[i]);
        RegularCourtStep(courts, maps, i, m);
        if m.None? {
          return None;
        }
        PassSnoc(map[], courts, maps, i, false, courtStatusMap, m.value);
        courtStatusMap := courtStatusMap[courts[i].name := m.value];
      } else {
        PassSnoc(map[], courts, maps, i, false, courtStatusMap, map[]);
      }
      i := i + 1;
    }
    return Some(courtStatusMap);
  }

  /** `coveredCourts.forEach` (script.js:137-152), on the dictionaries the
      regular pass left. */
  method CoveredPass(regular: DayMap, courts: seq<Court>) returns (courtStatusMap: DayMap)
    ensures courtStatusMap == Pass(regular, courts, CourtMaps(courts, true), |courts|, true)
  {
    ghost var maps := CourtMaps(courts, true);
    courtStatusMap := regular;
    var i := 0;
    while i < |courts|
      invariant 0 <= i <= |courts|
      invariant courtStatusMap == Pass(regular, courts, maps, i, true)
    {
      if IsCovered(courts[i].name) {
        var m := NormalizeCoveredCourt(i, courts[i]);
        assert m == maps[i];
        PassSnoc(regular, courts, maps, i, true, courtStatusMap, m);
        courtStatusMap := courtStatusMap[courts[i].name := m];
      } else {
        PassSnoc(regular, courts, maps, i, true, courtStatusMap, map[]);
      }
      i := i + 1;
    }
  }

  /** What one regular court's result means for the day: None makes the
      day throw, a dictionary is the one `CourtMaps` holds for it. */
  lemma RegularCourtStep(courts: seq<Court>, maps: seq<StatusMap>, i: nat, r: Option<StatusMap>)
    requires i < |courts| && maps == CourtMaps(courts, false)
    requires !IsCovered(courts[i].name) && !RegularThrows(courts, i)
    requires r == if CourtThrows(courts[i].timeSlots) then None else Some(CourtMap(i, courts[i].timeSlots, false))
    ensures r.None? ==> DayThrows(courts)
    ensures r.Some? ==> !RegularThrows(courts, i + 1) && r.value == maps[i]
  {
    if r.None? {
      RegularThrowsLater(courts, i + 1, |courts|);
    }
  }

  /** One more court of a pass: a court of the group stores its dictionary
      under its name, any other court changes nothing. */
  lemma PassSnoc(acc: DayMap, courts: seq<Court>, maps: seq<StatusMap>, i: nat, covered: bool, before: DayMap, v: StatusMap)
    requires i < |courts| == |maps| && before == Pass(acc, courts, maps, i, covered)
    requires IsCovered(courts[i].name) == covered ==> v == maps[i]
    ensures Pass(acc, courts, maps, i + 1, covered)
         == if IsCovered(courts[i].name) == covered then before[courts[i].name := v] else before
  {
  }

  /** The dictionary after slot `j` is the one before it with slot `j`
      written under its labels. */
  lemma FoldSnoc(ci: nat, writes: seq<seq<Label>>, j: nat)
    requires j < |writes|
    ensures Fold(ci, writes[..j + 1]) == Write(Fold(ci, writes[..j]), writes[j], SlotRef(ci, j))
  {
    assert writes[..j + 1][..j] == writes[..j];
  }

  /** What one regular slot's result means for its court: None makes the
      court throw, a dictionary is the fold one slot further. */
  lemma RegularSlotStep(ci: nat, slots: seq<Slot>, writes: seq<seq<Label>>, j: nat, m: StatusMap, r: Option<StatusMap>)
    requires writes == SlotWrites(slots, false) && j < |slots| && m == Fold(ci, writes[..j])
    requires !CourtThrows(slots[..j])
    requires r.None? <==> SlotThrows(slots[j])
    requires r.Some? ==> r.value == Write(m, RegularLabels(slots[j].time), SlotRef(ci, j))
    ensures r.None? ==> CourtThrows(slots)
    ensures r.Some? ==> !CourtThrows(slots[..j + 1]) && r.value == Fold(ci, writes[..j + 1])
  {
    FoldSnoc(ci, writes, j);
    if r.Some? {
      var before, after := slots[..j], slots[..j + 1];
      forall k | 0 <= k < |after|
        ensures !SlotThrows(after[k])
      {
        if k < j {
          assert after[k] == before[k];
        }
      }
    }
  }

  /** The two keys a covered slot's loop body writes are its labels, so the
      two updates are the fold one slot further. */
  lemma CoveredSlotStep(ci: nat, slots: seq<Slot>, writes: seq<seq<Label>>, j: nat, m: StatusMap, a: Label, b: Label)
    requires writes == SlotWrites(slots, true) && j < |slots| && m == Fold(ci, writes[..j])
    requires match CoveredHour(slots[j].time)
      case Some(h) => a == HalfHour(60 * h) && b == HalfHour(60 * h + 30)
      case None => a == NaNFirstHalf && b == NaNSecondHalf
    ensures m[a := SlotRef(ci, j)][b := SlotRef(ci, j)] == Fold(ci, writes[..j + 1])
  {
    assert writes[j] == [a, b];
    FoldSnoc(ci, writes, j);
    WritePair(m, a, b, SlotRef(ci, j));
  }

  /** After the last slot the fold is the court's dictionary. */
  lemma CourtMapDone(ci: nat, slots: seq<Slot>, covered: bool, writes: seq<seq<Label>>)
    requires writes == SlotWrites(slots, covered)
    ensures Fold(ci, writes[..|slots|]) == CourtMap(ci, slots, covered)
  {
    assert writes[..|slots|] == writes;
  }

  lemma RegularLabelsOf(time: string, range: RangeText)
    requires range == SlotRange(time) && range.Range?
    ensures RegularLabels(time) == if range.start.Some? && range.end.Some? then Steps(range.start.value, range.end.value) else []
  {
  }

  lemma WriteSnoc(m: StatusMap, labels: seq<Label>, k: nat, v: SlotRef)
    requires k < |labels|
    ensures Write(m, labels[..k + 1], v) == Write(m, labels[..k], v)[labels[k] := v]
  {
    assert labels[..k + 1] == labels[..k] + [labels[k]];
  }

  lemma WriteNothing(m: StatusMap, v: SlotRef)
    ensures Write(m, [], v) == m
  {
  }

  lemma WritePair(m: StatusMap, a: Label, b: Label, v: SlotRef)
    ensures Write(m, [a, b], v) == m[a := v][b := v]
  {
  }

  // ---- what one slot writes ---------------------------------------------

  /** The regular-court loop visits exactly the half hours from `s` up to,
      but not including, `e`, in steps of 30 minutes; never a `NaN` key. */
  lemma StepsMembership(s: nat, e: nat, l: Label)
    ensures l in Steps(s, e) <==> l.HalfHour? && s <= l.start < e && (l.start - s) % 30 == 0
  {
    var steps := Steps(s, e);
    if l in steps {
      var k :| 0 <= k < |steps| && steps[k] == l;
      assert 30 * k < e - s;
    }
    if l.HalfHour? && s <= l.start < e && (l.start - s) % 30 == 0 {
      var k := (l.start - s) / 30;
      assert steps[k] == l;
    }
  }

  /** An aligned range of `e - s` minutes writes `(e - s) / 30` distinct
      labels, in ascending order. */
  lemma StepsAligned(s: nat, e: nat)
    requires s <= e && (e - s) % 30 == 0
    ensures |Steps(s, e)| == (e - s) / 30
    ensures forall a, b :: 0 <= a < b < |Steps(s, e)| ==> Steps(s, e)[a].start < Steps(s, e)[b].start
  {
  }

  lemma SplitHead(a: string, sep: string, rest: string)
    requires sep != [] && sep[0] !in a
    ensures Split(a + sep + rest, sep)[0] == a
  {
    FindAfter(a, sep, rest);
    assert (a + sep + rest)[..|a|] == a;
  }

  lemma NoSpace(hh: string, mm: string)
    requires AllDigits(hh) && AllDigits(mm)
    ensures ' ' !in hh + ":" + mm
  {
    DigitsLack(hh, ' ');
    DigitsLack(mm, ' ');
  }

  /** `"HH:MM - HH:MM"` with digit fields reads as the range between the two
      clock times. */
  lemma SlotRangeOfDigits(h1: string, m1: string, h2: string, m2: string)
    requires AllDigits(h1) && AllDigits(m1) && AllDigits(h2) && AllDigits(m2)
    ensures SlotRange((h1 + ":" + m1) + " - " + (h2 + ":" + m2))
         == Range(Some(60 * DigitsValue(h1) + DigitsValue(m1)), Some(60 * DigitsValue(h2) + DigitsValue(m2)))
  {
    var a, b := h1 + ":" + m1, h2 + ":" + m2;
    NoSpace(h1, m1);
    NoSpace(h2, m2);
    SlotRangeOfParts(a, b);
    TimeToMinutesOfDigits(h1, m1);
    TimeToMinutesOfDigits(h2, m2);
  }

  /** Two halves without a space around `" - "` read as their two times. */
  lemma SlotRangeOfParts(a: string, b: string)
    requires ' ' !in a && ' ' !in b
    ensures SlotRange(a + " - " + b) == Range(TimeToMinutes(a), TimeToMinutes(b))
  {
    SplitPair(a, " - ", b);
  }

  /** A regular slot whose range reads as [s, e) maps exactly the half
      hours s, s + 30, … below e. */
  lemma RegularSlotCoverage(time: string, s: nat, e: nat)
    requires SlotRange(time) == Range(Some(s), Some(e))
    ensures forall l :: l in RegularLabels(time) <==> l.HalfHour? && s <= l.start < e && (l.start - s) % 30 == 0
  {
    forall l
      ensures l in RegularLabels(time) <==> l.HalfHour? && s <= l.start < e && (l.start - s) % 30 == 0
    {
      StepsMembership(s, e, l);
    }
  }

  /** A regular slot whose start or end is unreadable maps nothing, and one
      whose range is empty or reversed maps nothing either. */
  lemma RegularSlotEmpty(time: string)
    requires SlotRange(time).Range?
    requires SlotRange(time).start.None? || SlotRange(time).end.None?
          || SlotRange(time).end.value <= SlotRange(time).start.value
    ensures RegularLabels(time) == []
  {
  }

  lemma DigitPairs()
    ensures AllDigits("09") && DigitsValue("09") == 9
    ensures AllDigits("10") && DigitsValue("10") == 10
    ensures AllDigits("00") && DigitsValue("00") == 0
    ensures AllDigits("30") && DigitsValue("30") == 30
    ensures AllDigits("23") && DigitsValue("23") == 23
  {
    assert "09"[..1] == "0";
    assert "10"[..1] == "1";
    assert "00"[..1] == "0";
    assert "30"[..1] == "3";
    assert "23"[..1] == "2";
  }

  /** A regular 09:00-10:30 slot (read as minutes 540 to 630) fills 09:00,
      09:30 and 10:00, and not 08:30 or 10:30. */
  lemma RegularExample(time: string)
    requires SlotRange(time) == Range(Some(540), Some(630))
    ensures RegularLabels(time) == [HalfHour(540), HalfHour(570), HalfHour(600)]
    ensures HalfHour(510) !in RegularLabels(time) && HalfHour(630) !in RegularLabels(time)
  {
    RegularSlotCoverage(time, 540, 630);
  }

  /** `"09:00 - 10:30"`, built from its digit fields, reads as 540 to 630. */
  lemma NineToTenThirty(time: string)
    requires time == ("09" + ":" + "00") + " - " + ("10" + ":" + "30")
    ensures SlotRange(time) == Range(Some(540), Some(630))
  {
    DigitPairs();
    SlotRangeOfDigits("09", "00", "10", "30");
  }

  lemma CoveredHourOf(time: string, start: string, hh: string)
    requires Split(time, " - ")[0] == start && Split(start, ":")[0] == hh
    ensures CoveredHour(time) == ParseInt(hh)
  {
  }

  lemma CoveredStart(hh: string, mm: string, end: string)
    requires AllDigits(hh) && AllDigits(mm)
    ensures Split(hh + ":" + mm + " - " + end, " - ")[0] == hh + ":" + mm
  {
    NoSpace(hh, mm);
    SplitHead(hh + ":" + mm, " - ", end);
  }

  lemma HourField(hh: string, mm: string)
    requires AllDigits(hh)
    ensures Split(hh + ":" + mm, ":")[0] == hh
  {
    DigitsLack(hh, ':');
    SplitHead(hh, ":", mm);
  }

  lemma ParseDigits(hh: string)
    requires hh != [] && AllDigits(hh)
    ensures ParseInt(hh) == Some(DigitsValue(hh))
  {
    ParseIntLeading(hh, []);
    assert hh + [] == hh;
  }

  /** `parseInt` of the start hour of `"HH:MM - …"` is HH. */
  lemma CoveredHourOfDigits(hh: string, mm: string, end: string)
    requires hh != [] && AllDigits(hh) && AllDigits(mm)
    ensures CoveredHour(hh + ":" + mm + " - " + end) == Some(DigitsValue(hh))
  {
    CoveredStart(hh, mm, end);
    HourField(hh, mm);
    ParseDigits(hh);
    CoveredHourOf(hh + ":" + mm + " - " + end, hh + ":" + mm, hh);
  }

  /** Whatever a covered slot's time, it writes exactly two distinct
      labels, and which ones depends on its start hour alone: the two halves
      of that hour, or the two `NaN` keys. */
  lemma CoveredTwoLabels(time: string)
    ensures |CoveredLabels(time)| == 2 && CoveredLabels(time)[0] != CoveredLabels(time)[1]
    ensures CoveredHour(time).Some? ==>
      CoveredLabels(time) == [HalfHour(60 * CoveredHour(time).value), HalfHour(60 * CoveredHour(time).value + 30)]
    ensures CoveredHour(time).None? ==> CoveredLabels(time) == [NaNFirstHalf, NaNSecondHalf]
  {
  }

  /** With a start hour h, the keys are `HH:00 - HH:30` and
      `HH:30 - (HH+1):00`, as the covered-court loop formats them. */
  lemma CoveredKeys(time: string, h: nat)
    requires CoveredHour(time) == Some(h)
    ensures |CoveredLabels(time)| == 2
    ensures LabelText(CoveredLabels(time)[0]) == FirstHalf(h)
    ensures LabelText(CoveredLabels(time)[1]) == SecondHalf(h)
  {
    CoveredTwoLabels(time);
    FirstHalfLabel(h);
    SecondHalfLabel(h);
  }

  /** Hours are not taken modulo 24: a covered slot starting at hour 23
      writes the key "23:30 - 24:00", whatever its end time. */
  lemma CoveredAtTwentyThree(time: string)
    requires CoveredHour(time) == Some(23)
    ensures LabelText(CoveredLabels(time)[1]) == "23:30 - 24:00"
  {
    CoveredKeys(time, 23);
    SecondHalfTwentyThree();
  }

  // ---- what a court's dictionary holds ------------------------------------

  /** The entry under a label is the last slot, in `timeSlots` order, that
      writes it. */
  lemma {:induction false} FoldLastWriter(ci: nat, writes: seq<seq<Label>>, l: Label, j: nat)
    requires j < |writes| && l in writes[j]
    requires forall k :: j < k < |writes| ==> l !in writes[k]
    ensures l in Fold(ci, writes) && Fold(ci, writes)[l] == SlotRef(ci, j)
    decreases |writes|
  {
    var last := |writes| - 1;
    var prefix := writes[..last];
    if j == last {
      WriteHit(Fold(ci, prefix), writes[last], SlotRef(ci, last), l);
    } else {
      FoldLastWriter(ci, prefix, l, j);
      WriteMiss(Fold(ci, prefix), writes[last], SlotRef(ci, last), l);
    }
  }

  /** A label no slot writes is absent: the dictionary starts empty. */
  lemma {:induction false} FoldUnwritten(ci: nat, writes: seq<seq<Label>>, l: Label)
    requires forall k :: 0 <= k < |writes| ==> l !in writes[k]
    ensures l !in Fold(ci, writes)
    decreases |writes|
  {
    if writes != [] {
      var last := |writes| - 1;
      FoldUnwritten(ci, writes[..last], l);
      WriteMiss(Fold(ci, writes[..last]), writes[last], SlotRef(ci, last), l);
    }
  }

  /** A court's dictionary holds, under each label, the last slot that
      writes it, and nothing under a label no slot writes. */
  lemma CourtMapLastWriter(ci: nat, slots: seq<Slot>, covered: bool, l: Label, j: nat)
    requires j < |slots| && l in SlotLabels(slots[j], covered)
    requires forall k :: j < k < |slots| ==> l !in SlotLabels(slots[k], covered)
    ensures l in CourtMap(ci, slots, covered) && CourtMap(ci, slots, covered)[l] == SlotRef(ci, j)
  {
    FoldLastWriter(ci, SlotWrites(slots, covered), l, j);
  }

  lemma CourtMapUnwritten(ci: nat, slots: seq<Slot>, covered: bool, l: Label)
    requires forall k :: 0 <= k < |slots| ==> l !in SlotLabels(slots[k], covered)
    ensures l !in CourtMap(ci, slots, covered)
  {
    FoldUnwritten(ci, SlotWrites(slots, covered), l);
  }

  lemma WriteHit(m: StatusMap, labels: seq<Label>, v: SlotRef, l: Label)
    requires l in labels
    ensures l in Write(m, labels, v) && Write(m, labels, v)[l] == v
  {
  }

  lemma WriteMiss(m: StatusMap, labels: seq<Label>, v: SlotRef, l: Label)
    requires l !in labels
    ensures l in Write(m, labels, v) <==> l in m
    ensures l in m ==> Write(m, labels, v)[l] == m[l]
  {
  }

  // ---- what a day's dictionaries hold ------------------------------------

  /** The last court among the first `n` that carries `name`. */
  function LastIndexOf(courts: seq<Court>, n: nat, name: string): (r: Option<nat>)
    requires n <= |courts|
    ensures r.Some? ==> r.value < n && courts[r.value].name == name
    ensures r.Some? ==> forall k :: r.value < k < n ==> courts[k].name != name
    ensures r.None? ==> forall k :: 0 <= k < n ==> courts[k].name != name
  {
    if n == 0 then None
    else if courts[n - 1].name == name then Some(n - 1)
    else LastIndexOf(courts, n - 1, name)
  }

  /** After one pass, a name of the pass's group holds the dictionary of
      the last court with that name. */
  lemma {:induction false} PassHit(acc: DayMap, courts: seq<Court>, maps: seq<StatusMap>, n: nat, covered: bool, name: string, li: nat)
    requires n <= |courts| == |maps|
    requires LastIndexOf(courts, n, name) == Some(li) && IsCovered(name) == covered
    ensures name in Pass(acc, courts, maps, n, covered)
    ensures Pass(acc, courts, maps, n, covered)[name] == maps[li]
    decreases n
  {
    if courts[n - 1].name != name {
      PassHit(acc, courts, maps, n - 1, covered, name, li);
    }
  }

  /** A name no court of the pass's group carries is left as it was. */
  lemma {:induction false} PassMiss(acc: DayMap, courts: seq<Court>, maps: seq<StatusMap>, n: nat, covered: bool, name: string)
    requires n <= |courts| == |maps|
    requires LastIndexOf(courts, n, name).None? || IsCovered(name) != covered
    ensures name in Pass(acc, courts, maps, n, covered) <==> name in acc
    ensures name in acc ==> Pass(acc, courts, maps, n, covered)[name] == acc[name]
    decreases n
  {
    if n > 0 {
      PassMiss(acc, courts, maps, n - 1, covered, name);
    }
  }

  /** Every court of a day that does not throw has a dictionary under its
      name, whichever group it is in, and that dictionary is the one built
      for the last court of the day with that name; there is nothing under
      any other name. */
  lemma DayMapsEntry(courts: seq<Court>, name: string)
    requires !DayThrows(courts)
    ensures var maps := DayMaps(courts).value;
      var li := LastIndexOf(courts, |courts|, name);
      (name in maps <==> li.Some?)
      && (li.Some? ==> maps[name] == CourtMap(li.value, courts[li.value].timeSlots, IsCovered(name)))
  {
    var regularMaps, coveredMaps := CourtMaps(courts, false), CourtMaps(courts, true);
    var regular := Pass(map[], courts, regularMaps, |courts|, false);
    var li := LastIndexOf(courts, |courts|, name);
    if li.Some? && !IsCovered(name) {
      PassHit(map[], courts, regularMaps, |courts|, false, name, li.value);
    } else {
      PassMiss(map[], courts, regularMaps, |courts|, false, name);
    }
    if li.Some? && IsCovered(name) {
      PassHit(regular, courts, coveredMaps, |courts|, true, name, li.value);
    } else {
      PassMiss(regular, courts, coveredMaps, |courts|, true, name);
    }
  }
}
