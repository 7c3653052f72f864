/** Weekday names of dates, as pandas' `Series.dt.day_name()` gives them. */
module Calendar {

  const DayNames: seq<string> :=
    ["Monday", "Tuesday", "Wednesday", "Thursday", "Friday", "Saturday", "Sunday"]

  /** The weekday of the date `day` days after 1970-01-01, which was a Thursday.
      `%` is Euclidean, so dates before 1970 count backwards correctly. */
  function DayName(day: int): (r: string)
    ensures r in DayNames
  {
    DayNames[(day + 3) % 7]
  }

  /** 1970-01-01 is a Thursday, the names repeat every seven days and
      consecutive dates never share a name. */
  lemma DayNameCycle(day: int)
    ensures DayName(0) == "Thursday"
    ensures DayName(day + 7) == DayName(day)
    ensures DayName(day + 1) != DayName(day)
  {
  }

  /** `name[:3]` applied to the day name: the three-letter abbreviation. */
  function ShortDayName(day: int): (r: string)
    ensures |r| == 3 && r <= DayName(day)
  {
    DayName(day)[..3]
  }

  /** The abbreviation loses nothing: two dates get the same three letters
      exactly when they fall on the same weekday. */
  lemma ShortDayNamesDistinct(a: int, b: int)
    ensures ShortDayName(a) == ShortDayName(b) <==> (a - b) % 7 == 0
  {
    var i, j := (a + 3) % 7, (b + 3) % 7;
    assert (a - b) % 7 == 0 <==> i == j;
    assert ShortDayName(a) == DayNames[i][..3] && ShortDayName(b) == DayNames[j][..3];
    assert DayNames[0][..3] == "Mon" && DayNames[1][..3] == "Tue" && DayNames[2][..3] == "Wed";
    assert DayNames[3][..3] == "Thu" && DayNames[4][..3] == "Fri" && DayNames[5][..3] == "Sat";
    assert DayNames[6][..3] == "Sun";
  }
}
