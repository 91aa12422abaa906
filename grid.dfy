/** The canonical rows of the availability matrix: `generate30MinTimeSlots`
    (script.js:310-328). */
module TimeGrid {
  import opened Options
  import opened Text
  import opened Clock

  const StartHour: nat := 7
  const EndHour: nat := 23

  /** Number of rows: two per hour from 07 to 22, and only the first half of
      hour 23. */
  const GridSize: nat := 2 * (EndHour - StartHour) + 1

  /** The minute row `i` starts at. */
  function RowStart(i: nat): nat
  {
    60 * StartHour + 30 * i
  }

  /** The rows, by the half hour each one denotes: 07:00, 07:30, …, 23:00. */
  function Grid(): seq<Label>
  {
    seq(GridSize, i requires 0 <= i => HalfHour(RowStart(i)))
  }

  /** The loop of script.js:315-325: for each hour from 07 to 23 push its
      first half, and its second half unless it is hour 23. The strings
      pushed are the texts of the rows of `Grid()`, in order. */
  method Generate30MinTimeSlots() returns (timeSlots: seq<string>)
    ensures timeSlots == Texts(Grid())
  {
    timeSlots := [];
    var hour := StartHour;
    while hour <= EndHour
      invariant StartHour <= hour <= EndHour + 1
      invariant timeSlots == PushedBefore(hour)
    {
      PushedStep(hour);
      var firstHalf := FirstHalf(hour);
      timeSlots := timeSlots + [firstHalf];
      if hour < EndHour {
        var secondHalf := SecondHalf(hour);
        timeSlots := timeSlots + [secondHalf];
      }
      hour := hour + 1;
    }
    AllPushed();
  }

  /** One turn pushes the first half, then the second half unless it is
      the last hour. */
  lemma PushedStep(hour: nat)
    ensures PushedBefore(hour + 1) == if hour < StartHour then []
      else if hour < EndHour then PushedBefore(hour) + [FirstHalf(hour)] + [SecondHalf(hour)]
      else PushedBefore(hour) + [FirstHalf(hour)]
  {
  }

  /** After the turn for hour 23, every row's text has been pushed. */
  lemma AllPushed()
    ensures PushedBefore(EndHour + 1) == Texts(Grid())
  {
    PushedRows(EndHour + 1);
    assert |Grid()| == GridSize;
    assert Grid()[..GridSize] == Grid();
  }

  /** The texts one turn of the loop pushes for `hour`. */
  function HourTexts(hour: nat): (texts: seq<string>)
    ensures |texts| == if hour < EndHour then 2 else 1
  {
    if hour < EndHour then [FirstHalf(hour), SecondHalf(hour)] else [FirstHalf(hour)]
  }

  /** The texts pushed by the turns for the hours before `hour`. */
  function PushedBefore(hour: nat): seq<string>
  {
    if hour <= StartHour then [] else PushedBefore(hour - 1) + HourTexts(hour - 1)
  }

  /** The number of rows the turns before `hour` push. */
  function RowsBefore(hour: nat): nat
  {
    if hour <= StartHour then 0 else if hour <= EndHour then 2 * (hour - StartHour) else GridSize
  }

  /** What the turns before `hour` have pushed are the texts of the first
      rows of the grid. */
  lemma {:induction false} PushedRows(hour: nat)
    requires hour <= EndHour + 1
    ensures RowsBefore(hour) <= GridSize
    ensures PushedBefore(hour) == Texts(Grid()[..RowsBefore(hour)])
  {
    if hour > StartHour {
      var h := hour - 1;
      PushedRows(h);
      HourRows(h);
      assert PushedBefore(hour) == PushedBefore(h) + HourTexts(h);
    }
  }

  /** The texts pushed for `hour` are the texts of its rows. */
  lemma HourRows(hour: nat)
    requires StartHour <= hour <= EndHour
    ensures RowsBefore(hour + 1) == RowsBefore(hour) + |HourTexts(hour)|
    ensures Texts(Grid()[..RowsBefore(hour + 1)]) == Texts(Grid()[..RowsBefore(hour)]) + HourTexts(hour)
  {
    var n := RowsBefore(hour);
    assert n == 2 * (hour - StartHour);
    FirstRowPushed(hour);
    if hour < EndHour {
      SecondRowPushed(hour);
      PushTwo(Texts(Grid()[..n]), Texts(Grid()[..n + 1]), Texts(Grid()[..n + 2]), FirstHalf(hour), SecondHalf(hour));
    }
  }

  lemma PushTwo<T>(a: seq<T>, b: seq<T>, c: seq<T>, x: T, y: T)
    requires b == a + [x] && c == b + [y]
    ensures c == a + [x, y]
  {
    assert [x, y] == [x] + [y];
  }

  lemma FirstRowPushed(hour: nat)
    requires StartHour <= hour <= EndHour
    ensures Texts(Grid()[..2 * (hour - StartHour) + 1]) == Texts(Grid()[..2 * (hour - StartHour)]) + [FirstHalf(hour)]
  {
    FirstHalfRow(hour);
    TextsPush(Grid(), 2 * (hour - StartHour));
  }

  lemma SecondRowPushed(hour: nat)
    requires StartHour <= hour < EndHour
    ensures Texts(Grid()[..2 * (hour - StartHour) + 2]) == Texts(Grid()[..2 * (hour - StartHour) + 1]) + [SecondHalf(hour)]
  {
    SecondHalfRow(hour);
    TextsPush(Grid(), 2 * (hour - StartHour) + 1);
  }

  lemma TextsPush(rows: seq<Label>, n: nat)
    requires n < |rows|
    ensures Texts(rows[..n + 1]) == Texts(rows[..n]) + [LabelText(rows[n])]
  {
    assert rows[..n + 1][..n] == rows[..n];
  }

  /** The texts of a sequence of labels, in order. */
  function Texts(rows: seq<Label>): (texts: seq<string>)
    ensures |texts| == |rows|
  {
    if rows == [] then [] else Texts(rows[..|rows| - 1]) + [LabelText(rows[|rows| - 1])]
  }

  /** Element `k` of the texts is the text of row `k`. */
  lemma {:induction false} TextsAt(rows: seq<Label>, k: nat)
    requires k < |rows|
    ensures Texts(rows)[k] == LabelText(rows[k])
  {
    if k < |rows| - 1 {
      TextsAt(rows[..|rows| - 1], k);
    }
  }

  /** Texts that agree with the rows one by one are their `Texts`. */
  lemma {:induction false} TextsOfRows(rows: seq<Label>, texts: seq<string>)
    requires |texts| == |rows|
    requires forall k :: 0 <= k < |rows| ==> texts[k] == LabelText(rows[k])
    ensures texts == Texts(rows)
  {
    if rows != [] {
      TextsOfRows(rows[..|rows| - 1], texts[..|texts| - 1]);
      assert texts == texts[..|texts| - 1] + [texts[|texts| - 1]];
    }
  }

  /** The first half of an hour is the row at 2 * (hour - 07), its second
      half the row after it. */
  lemma FirstHalfRow(hour: nat)
    requires StartHour <= hour <= EndHour
    ensures FirstHalf(hour) == LabelText(Grid()[2 * (hour - StartHour)])
  {
    assert Grid()[2 * (hour - StartHour)] == HalfHour(60 * hour);
    FirstHalfLabel(hour);
  }

  lemma SecondHalfRow(hour: nat)
    requires StartHour <= hour < EndHour
    ensures SecondHalf(hour) == LabelText(Grid()[2 * (hour - StartHour) + 1])
  {
    assert Grid()[2 * (hour - StartHour) + 1] == HalfHour(60 * hour + 30);
    SecondHalfLabel(hour);
  }

  /** A half hour is a row exactly when it starts on the hour or the half
      hour, between 07:00 and 23:00. */
  lemma GridMembership(m: nat)
    ensures HalfHour(m) in Grid() <==> 60 * StartHour <= m <= 60 * EndHour && m % 30 == 0
  {
    if 60 * StartHour <= m <= 60 * EndHour && m % 30 == 0 {
      assert Grid()[(m - 60 * StartHour) / 30] == HalfHour(m);
    }
  }

  /** 33 rows, the first "07:00 - 07:30". */
  lemma GridFirstRow()
    ensures |Grid()| == 33
    ensures LabelText(Grid()[0]) == "07:00 - 07:30"
  {
    assert Grid()[0] == HalfHour(420);
    FirstHalfLabel(7);
    FirstHalfSeven();
  }

  /** The last row is "23:00 - 23:30". */
  lemma GridLastRow()
    ensures LabelText(Grid()[32]) == "23:00 - 23:30"
  {
    assert Grid()[32] == HalfHour(1380);
    FirstHalfLabel(23);
    FirstHalfTwentyThree();
  }

  /** "23:30 - 24:00" is the text of no row: the grid stops before it. */
  lemma GridStopsBeforeMidnight()
    ensures forall k :: 0 <= k < |Grid()| ==> LabelText(Grid()[k]) != "23:30 - 24:00"
  {
    GridMembership(1410);
    TextNotInGrid(HalfHour(1410));
    SecondHalfLabel(23);
    SecondHalfTwentyThree();
  }

  /** A label that is not a row has a text no row has. */
  lemma TextNotInGrid(l: Label)
    requires l !in Grid()
    ensures forall k :: 0 <= k < |Grid()| ==> LabelText(Grid()[k]) != LabelText(l)
  {
    forall k | 0 <= k < |Grid()|
      ensures LabelText(Grid()[k]) != LabelText(l)
    {
      if LabelText(Grid()[k]) == LabelText(l) {
        LabelTextInjective(Grid()[k], l);
      }
    }
  }

  /** Each row spans 30 minutes as the script's own range parser reads its
      text, and the next row starts where it ends. */
  lemma GridContiguous(i: nat)
    requires i < |Grid()|
    ensures SlotRange(LabelText(Grid()[i])) == Range(Some(RowStart(i)), Some(RowStart(i) + 30))
    ensures i + 1 < |Grid()| ==> Grid()[i + 1].start == RowStart(i) + 30
  {
    LabelRange(RowStart(i));
  }

  /** Rows are in strictly ascending order of the time they start at, so no
      text appears twice. */
  lemma GridAscending(i: nat, j: nat)
    requires i < j < |Grid()|
    ensures Grid()[i].start < Grid()[j].start
    ensures LabelText(Grid()[i]) != LabelText(Grid()[j])
  {
    if LabelText(Grid()[i]) == LabelText(Grid()[j]) {
      LabelTextInjective(Grid()[i], Grid()[j]);
    }
  }
}
