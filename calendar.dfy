/** The home screen: the worked-day map that tapping a day toggles, the
    calendar's marks, and the selected month's statistics. */
module Calendar {
  import opened Dates
  import Finance
  import YearSummary

  /** `prev` after `handleDayPress` on `date`: a date marked true is removed,
      any other date (absent, or false) becomes true; nothing else moves. */
  function Toggled(m: map<string, bool>, date: string): (r: map<string, bool>)
    ensures date in r <==> !(date in m && m[date])
    ensures date in r ==> r[date]
    ensures forall k :: k != date ==> (k in r <==> k in m)
    ensures forall k :: k != date && k in r ==> r[k] == m[k]
  {
    if date in m && m[date] then m - {date} else m[date := true]
  }

  predicate AllTrue(m: map<string, bool>)
  {
    forall d :: d in m ==> m[d]
  }

  /** A map the screen built by taps alone holds only true values, and a tap
      keeps it so. */
  lemma ToggleKeepsAllTrue(m: map<string, bool>, date: string)
    requires AllTrue(m)
    ensures AllTrue(Toggled(m, date))
  {
  }

  /** Tapping a day twice restores the map, unless it was there as false:
      then the second tap removes it. */
  lemma ToggleTwice(m: map<string, bool>, date: string)
    ensures date !in m || m[date] ==> Toggled(Toggled(m, date), date) == m
    ensures date in m && !m[date] ==> Toggled(Toggled(m, date), date) == m - {date}
  {
  }

  /** The `workDays` state of the screen. */
  class WorkCalendar {
    var workDays: map<string, bool>

    constructor ()
      ensures workDays == map[]
    {
      workDays := map[];
    }

    /** `handleDayPress`: copy the map, then delete or set the tapped key. */
    method DayPress(date: string)
      modifies this
      ensures workDays == Toggled(old(workDays), date)
    {
      var next := workDays;
      if date in next && next[date] {
        next := next - {date};
      } else {
        next := next[date := true];
      }
      workDays := next;
    }
  }

  /** The calendar widget's mark for a day. */
  datatype Marking = Marking(selected: bool, marked: bool, selectedColor: string)

  const WorkedMark: Marking := Marking(true, true, "#4caf50")

  /** `markedDates`: every key of the map is marked, whatever its value. */
  function MarkedDates(m: map<string, bool>): (r: map<string, Marking>)
    ensures r.Keys == m.Keys
    ensures forall d :: d in r ==> r[d] == WorkedMark
  {
    map d | d in m :: WorkedMark
  }

  datatype MonthStats = MonthStats(
    daysWorked: nat, totalGross: real, taxableBase: real,
    substituteTax: real, inpsContribution: real, net: real)

  /** The keys of the selected month: `Object.keys(workDays).filter(startsWith)`. */
  function MonthDates(m: map<string, bool>, month: string): set<string>
  {
    set d | d in m && StartsWith(d, month)
  }

  /** `stats`: the selected month's days and the formula on their gross. */
  function Stats(m: map<string, bool>, rate: real, month: string): (s: MonthStats)
    ensures s.daysWorked == |MonthDates(m, month)|
    ensures s.totalGross == Finance.Earnings(s.daysWorked, rate)
    ensures Finance.TaxBreakdown(s.taxableBase, s.substituteTax, s.inpsContribution, s.net) ==
      Finance.CalculateNetFromGross(s.totalGross)
  {
    var days := |MonthDates(m, month)|;
    var gross := Finance.Earnings(days, rate);
    var t := Finance.CalculateNetFromGross(gross);
    MonthStats(days, gross, t.taxableBase, t.substituteTax, t.inpsContribution, t.net)
  }

  /** The month's day count reads keys only: a false entry counts as a day. */
  lemma StatsIgnoreValues(m: map<string, bool>, m': map<string, bool>, rate: real, month: string)
    requires m.Keys == m'.Keys
    ensures Stats(m, rate, month) == Stats(m', rate, month)
  {
  }

  /** Tapping a day of the selected month adds one day when the day was
      absent, takes one away when it was true, and keeps the count when it was
      false (the key stays, now true). */
  lemma StatsAfterToggle(m: map<string, bool>, rate: real, month: string, date: string)
    requires StartsWith(date, month)
    ensures date !in m ==> Stats(Toggled(m, date), rate, month).daysWorked == Stats(m, rate, month).daysWorked + 1
    ensures date in m && m[date] ==> Stats(Toggled(m, date), rate, month).daysWorked + 1 == Stats(m, rate, month).daysWorked
    ensures date in m && !m[date] ==> Stats(Toggled(m, date), rate, month).daysWorked == Stats(m, rate, month).daysWorked
  {
    var before, after := MonthDates(m, month), MonthDates(Toggled(m, date), month);
    if date !in m {
      assert after == before + {date};
    } else if m[date] {
      assert after == before - {date};
    } else {
      assert after == before;
    }
  }

  /** Tapping a day outside the selected month leaves its statistics alone. */
  lemma StatsOtherMonth(m: map<string, bool>, rate: real, month: string, date: string)
    requires !StartsWith(date, month)
    ensures Stats(Toggled(m, date), rate, month) == Stats(m, rate, month)
  {
    assert MonthDates(Toggled(m, date), month) == MonthDates(m, month);
  }

  /** On a map of true values only, the home screen's month count is the year
      screen's count for that month (zero when the year screen has no row). */
  lemma StatsAgreeWithYearScreen(m: map<string, bool>, rate: real, month: string)
    requires AllTrue(m) && YearSummary.ParsableWorkedDays(m) && |month| == 7
    ensures Stats(m, rate, month).daysWorked ==
      if month in YearSummary.MonthCounts(m) then YearSummary.MonthCounts(m)[month] else 0
  {
    assert MonthDates(m, month) == YearSummary.WorkedIn(m, m.Keys, month);
    YearSummary.MonthCountsExact(m, month);
  }
}
