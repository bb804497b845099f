/**
 * The calendar modal (components/dashboard/CalendarModal.tsx): the date-keyed log
 * lookup, the colour band of a day, the month grid with its leading blanks, and
 * the highlighted (selected) day.
 */
module Calendar {
  import opened Wrappers
  import opened DailyLogs
  import opened Indexing
  import Progress
  import opened DateStrings

  /** The styles a day cell can take. */
  datatype DayColor = NoData | Blue | Yellow | Green | Neutral

  /** `new Map(dailyLogs.map(log => [log.date, log]))`: a later duplicate date replaces an earlier one. */
  function LogsMap(dailyLogs: seq<DailyLog>): (m: map<string, DailyLog>)
    ensures m.Keys == set l | l in dailyLogs :: l.date
    ensures forall i :: 0 <= i < |dailyLogs| && (forall j :: i < j < |dailyLogs| ==> dailyLogs[j].date != dailyLogs[i].date)
                        ==> dailyLogs[i].date in m && m[dailyLogs[i].date] == dailyLogs[i]
  {
    forall i | 0 <= i < |dailyLogs| && (forall j :: i < j < |dailyLogs| ==> dailyLogs[j].date != dailyLogs[i].date)
      ensures dailyLogs[i].date in IndexByDate(dailyLogs) && IndexByDate(dailyLogs)[dailyLogs[i].date] == dailyLogs[i]
    {
      IndexByLastWins(dailyLogs, DateOf, i);
    }
    IndexByDate(dailyLogs)
  }

  /** The colour of the day whose date string is `dateStr`. */
  function GetDayColor(logsMap: map<string, DailyLog>, dateStr: string): (c: DayColor)
    ensures c == NoData <==> dateStr !in logsMap || logsMap[dateStr].totalCalories.None?
    ensures c == Blue <==> HasCalories(logsMap, dateStr) && 0.0 < Calories(logsMap, dateStr) < 500.0
    ensures c == Yellow <==> HasCalories(logsMap, dateStr) && 500.0 <= Calories(logsMap, dateStr) < 1500.0
    ensures c == Green <==> HasCalories(logsMap, dateStr) && 1500.0 <= Calories(logsMap, dateStr)
    ensures c == Neutral <==> HasCalories(logsMap, dateStr) && Calories(logsMap, dateStr) <= 0.0
  {
    if dateStr !in logsMap || logsMap[dateStr].totalCalories.None? then NoData
    else
      var calories := logsMap[dateStr].totalCalories.value;
      if calories > 0.0 && calories < 500.0 then Blue
      else if calories >= 500.0 && calories < 1500.0 then Yellow
      else if calories >= 1500.0 then Green
      else Neutral
  }

  /** The day has a log with a calorie total. */
  predicate HasCalories(logsMap: map<string, DailyLog>, dateStr: string) {
    dateStr in logsMap && logsMap[dateStr].totalCalories.Some?
  }

  function Calories(logsMap: map<string, DailyLog>, dateStr: string): real
    requires HasCalories(logsMap, dateStr)
  {
    logsMap[dateStr].totalCalories.value
  }

  /**
   * The calendar and the progress page agree on which days have no data, given the
   * same logs (both pages index them the same way).
   */
  lemma NoDataAgreesWithProgress(dailyLogs: seq<DailyLog>, dateStr: string, b: Progress.Bounds)
    ensures (GetDayColor(LogsMap(dailyLogs), dateStr) == NoData)
        <==> Progress.IsDayCompliant(IndexByDate(dailyLogs), dateStr, b).None?
  {
  }

  /**
   * The month grid: `firstDayOfWeek` blank cells, then the month's days in order.
   * It is the progress page's grid without the padding of the last week.
   */
  function CalendarDays<D>(firstDayOfWeek: nat, daysInMonth: seq<D>): (cells: seq<Option<D>>)
    ensures |cells| == firstDayOfWeek + |daysInMonth|
    ensures forall k :: 0 <= k < firstDayOfWeek ==> cells[k] == None
    ensures forall k :: 0 <= k < |daysInMonth| ==> cells[firstDayOfWeek + k] == Some(daysInMonth[k])
    ensures cells == Progress.GridCells(firstDayOfWeek, daysInMonth)[..firstDayOfWeek + |daysInMonth|]
  {
    Progress.Nulls(firstDayOfWeek) + Progress.Cells(daysInMonth)
  }

  /** A day cell is highlighted when its date string is the one being viewed. */
  predicate IsSelected(dateStr: string, currentDate: string) {
    dateStr == currentDate
  }

  /** The date string of a day cell: `format(date, 'yyyy-MM-dd')`. */
  function CellDate(year: nat, monthIndex: nat, day: nat): string {
    FormatDateForDB(CalendarDate(year, monthIndex, day))
  }

  /**
   * Clicking a day hands its date string to the dashboard, whose page normalises it and
   * passes it back as the current date: in that month exactly the clicked day is then
   * highlighted (years 1000 to 9999).
   */
  lemma ClickedDaySelected(year: nat, monthIndex: nat, day: nat, other: nat)
    requires 1000 <= year <= 9999 && monthIndex < 12 && 1 <= day <= 31 && 1 <= other <= 31
    ensures var current := ClientDate(NormalizedParam(Some(CellDate(year, monthIndex, day))));
            && current == Some(CellDate(year, monthIndex, day))
            && (IsSelected(CellDate(year, monthIndex, other), current.value) <==> other == day)
  {
    FormattersAgree(year, monthIndex, day);
    FormattersAgree(year, monthIndex, other);
    FourDigitYearDate(year, monthIndex, day);
    if CellDate(year, monthIndex, other) == CellDate(year, monthIndex, day) {
      SameDateSameDay(year, monthIndex, other, day);
    }
  }
}
