/** Daily log summaries as the progress page and the calendar receive them. */
module DailyLogs {
  import opened Wrappers
  import opened Indexing

  /** One row of the daily log table; the totals may be absent. */
  datatype DailyLog = DailyLog(
    date: string,
    totalCalories: Option<real>,
    totalProtein: Option<real>,
    totalCarbs: Option<real>,
    totalFats: Option<real>)

  function DateOf(l: DailyLog): string {
    l.date
  }

  /** The date-keyed lookup both pages build from the list of logs. */
  function IndexByDate(logs: seq<DailyLog>): map<string, DailyLog> {
    IndexBy(logs, DateOf)
  }
}
