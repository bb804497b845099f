/**
 * The monthly progress page (app/dashboard/progress/ProgressClient.tsx): the
 * compliance range taken from the profile's targets, the per-day classification
 * (compliant, not compliant, no data), the week grid of the month and the counts.
 * A month is given as the weekday of its first day (0 = Sunday) and the date
 * strings of its days; the calendar library that enumerates them is not modelled.
 */
module Progress {
  import opened Wrappers
  import opened Recomp
  import opened DailyLogs
  import opened Indexing
  import opened Profiles
  import opened JsNumber

  /** The inclusive calorie range a compliant day lies in. */
  datatype Bounds = Bounds(lower: real, upper: real)

  /**
   * The range of a profile: from the macro-defined calories up to maintenance minus
   * the subtract value. Carbs rounding can put the lower end up to half a carb gram's
   * calories above the upper end.
   */
  function ComplianceBounds(p: UserProfile, cfg: RecompConfig): (b: Bounds)
    requires ValidConfig(cfg)
    ensures var t := ProfileTargets(p, cfg);
            b.lower == t.recompCalories && b.upper == UpperBound(t, cfg)
    ensures b.lower <= b.upper + cfg.carbsCaloriesPerGram / 2.0
  {
    var t := ProfileTargets(p, cfg);
    TargetsNearUpperBound(p.weightKg, p.heightCm, p.age as real, p.gender, p.activityLevel, None, None, cfg);
    Bounds(t.recompCalories, t.maintenance as real - cfg.subtractValue)
  }

  /**
   * The classification of one day: no data (None) without a log or without a calorie
   * total, otherwise whether the total lies in the range, both ends included.
   */
  function IsDayCompliant(logsByDate: map<string, DailyLog>, dateStr: string, b: Bounds): (r: Option<bool>)
    ensures r.None? <==> dateStr !in logsByDate || logsByDate[dateStr].totalCalories.None?
    ensures r == Some(true) <==>
              && dateStr in logsByDate && logsByDate[dateStr].totalCalories.Some?
              && b.lower <= logsByDate[dateStr].totalCalories.value <= b.upper
  {
    if dateStr !in logsByDate || logsByDate[dateStr].totalCalories.None? then None
    else
      var calories := logsByDate[dateStr].totalCalories.value;
      Some(calories >= b.lower && calories <= b.upper)
  }

  /**
   * For a 70 kg, 175 cm, 31-year-old man under the example configuration the lower end
   * (1968 kcal) is above the upper end (1966 kcal), so no day of his can be compliant.
   */
  lemma EmptyComplianceRange(logsByDate: map<string, DailyLog>, dateStr: string)
    ensures var p := UserProfile(70.0, 175.0, 31, 15.0, Male, Moderate, None, None, None, None);
            var b := ComplianceBounds(p, ExampleConfig());
            b == Bounds(1968.0, 1966.0) && IsDayCompliant(logsByDate, dateStr, b) != Some(true)
  {
    var cfg := ExampleConfig();
    assert Round(1643.75 * 1.5) == 2466;
    assert Round(70.0 * 2.2) == 154;
    assert Round(70.0 * 0.8) == 56;
    assert CalculateCarbRequirement(1966.0, 154.0, 56.0, cfg) == 212.0 by {
      assert Round(846.0 / 4.0) == 212;
    }
    var t := AssembleTargets(1644, 2466, 154, 56, cfg);
    assert t.recompCalories == 1968.0;
  }

  /** The date-keyed lookup, filled by one `set` per log in list order. */
  method BuildLogsByDate(allDailyLogs: seq<DailyLog>) returns (logsByDate: map<string, DailyLog>)
    ensures logsByDate == IndexBy(allDailyLogs, DateOf)
  {
    logsByDate := map[];
    for i := 0 to |allDailyLogs|
      invariant logsByDate == IndexBy(allDailyLogs[..i], DateOf)
    {
      assert allDailyLogs[..i + 1][..i] == allDailyLogs[..i];
      logsByDate := logsByDate[allDailyLogs[i].date := allDailyLogs[i]];
    }
    assert allDailyLogs[..|allDailyLogs|] == allDailyLogs;
  }

  /** `n` empty cells. */
  function Nulls<D>(n: nat): (cells: seq<Option<D>>)
    ensures |cells| == n
    ensures forall k :: 0 <= k < n ==> cells[k] == None
  {
    seq(n, _ => None)
  }

  /** One filled cell per day, in order. */
  function Cells<D>(days: seq<D>): (cells: seq<Option<D>>)
    ensures |cells| == |days|
    ensures forall k :: 0 <= k < |days| ==> cells[k] == Some(days[k])
  {
    seq(|days|, k requires 0 <= k < |days| => Some(days[k]))
  }

  /** The weeks of a grid laid end to end. */
  function Flatten<T>(weeks: seq<seq<T>>): seq<T>
    decreases |weeks|
  {
    if weeks == [] then [] else weeks[0] + Flatten(weeks[1..])
  }

  lemma {:induction false} FlattenAppend<T>(weeks: seq<seq<T>>, w: seq<T>)
    ensures Flatten(weeks + [w]) == Flatten(weeks) + w
    decreases |weeks|
  {
    if weeks == [] {
      assert Flatten([w]) == w + Flatten([]);
    } else {
      assert (weeks + [w])[1..] == weeks[1..] + [w];
      FlattenAppend(weeks[1..], w);
    }
  }

  lemma {:induction false} FlattenLength<T>(weeks: seq<seq<T>>)
    requires forall w :: w in weeks ==> |w| == 7
    ensures |Flatten(weeks)| == 7 * |weeks|
    decreases |weeks|
  {
    if weeks != [] {
      assert weeks[0] in weeks;
      assert forall w :: w in weeks[1..] ==> w in weeks;
      FlattenLength(weeks[1..]);
    }
  }

  /** The empty cells that complete the last week of a grid holding `used` cells. */
  function Padding(used: nat): (pad: nat)
    ensures pad <= 7
    ensures (used + pad) % 7 == 0
    ensures used > 0 ==> pad < 7
  {
    if used > 0 && used % 7 == 0 then 0 else 7 - used % 7
  }

  /**
   * The cells of the month grid read row by row: the empty cells before the first
   * day, the days, and the empty cells completing the last week.
   */
  function GridCells<D>(firstDayOfWeek: nat, monthDays: seq<D>): (cells: seq<Option<D>>)
    ensures |cells| % 7 == 0 && |cells| >= firstDayOfWeek + |monthDays|
    ensures forall k :: 0 <= k < firstDayOfWeek ==> cells[k] == None
    ensures forall k :: 0 <= k < |monthDays| ==> cells[firstDayOfWeek + k] == Some(monthDays[k])
    ensures forall k :: firstDayOfWeek + |monthDays| <= k < |cells| ==> cells[k] == None
  {
    Nulls(firstDayOfWeek) + Cells(monthDays) + Nulls(Padding(firstDayOfWeek + |monthDays|))
  }

  /** A week holding at least one day of the month. */
  predicate HasDay<D>(week: seq<Option<D>>) {
    exists k :: 0 <= k < |week| && week[k].Some?
  }

  /**
   * The week grid: leading empty cells, then one cell per day, starting a new
   * week whenever the current one is full, then empty cells up to a full last week.
   */
  method BuildWeeks<D>(firstDayOfWeek: nat, monthDays: seq<D>) returns (weeks: seq<seq<Option<D>>>)
    requires firstDayOfWeek < 7
    ensures |weeks| >= 1
    ensures forall w :: w in weeks ==> |w| == 7
    ensures Flatten(weeks) == GridCells(firstDayOfWeek, monthDays)
    ensures weeks[0][..firstDayOfWeek] == Nulls(firstDayOfWeek)
    ensures |monthDays| > 0 ==> weeks[0][firstDayOfWeek] == Some(monthDays[0])
    ensures |monthDays| > 0 ==> forall w :: w in weeks ==> HasDay(w)
  {
    weeks := [];
    var currentWeek: seq<Option<D>> := [];
    for i := 0 to firstDayOfWeek
      invariant currentWeek == Nulls(i)
    {
      currentWeek := currentWeek + [None];
    }
    weeks, currentWeek := PlaceDays(currentWeek, monthDays);
    var lastWeek := FillWeek(currentWeek);
    GridComplete(weeks, currentWeek, firstDayOfWeek, monthDays);
    if |monthDays| > 0 {
      HasDayExtended(currentWeek, Nulls(7 - |currentWeek|));
    }
    weeks := weeks + [lastWeek];
    GridStart<D>(firstDayOfWeek, monthDays);
    FirstWeek(weeks, GridCells(firstDayOfWeek, monthDays));
  }

  /** The finished weeks and the current week, filled up, lay out the whole grid. */
  lemma GridComplete<D>(weeks: seq<seq<Option<D>>>, week: seq<Option<D>>, firstDayOfWeek: nat, monthDays: seq<D>)
    requires firstDayOfWeek < 7 && |week| <= 7 && forall w :: w in weeks ==> |w| == 7
    requires monthDays == [] ==> weeks == [] && week == Nulls(firstDayOfWeek)
    requires monthDays != [] ==> 1 <= |week|
    requires Flatten(weeks) + week == Nulls(firstDayOfWeek) + Cells(monthDays)
    ensures Flatten(weeks + [week + Nulls(7 - |week|)]) == GridCells(firstDayOfWeek, monthDays)
  {
    FlattenLength(weeks);
    PaddingOfRow(|weeks|, |week|, firstDayOfWeek + |monthDays|);
    FlattenAppend(weeks, week + Nulls(7 - |week|));
  }

  /** The grid starts with the leading empty cells, then the first day, within its first week. */
  lemma GridStart<D>(firstDayOfWeek: nat, monthDays: seq<D>)
    requires firstDayOfWeek < 7
    ensures var cells := GridCells(firstDayOfWeek, monthDays);
            && |cells| >= 7
            && cells[..firstDayOfWeek] == Nulls(firstDayOfWeek)
            && (|monthDays| > 0 ==> cells[firstDayOfWeek] == Some(monthDays[0]))
  {
    var total := firstDayOfWeek + |monthDays|;
    var cells := GridCells(firstDayOfWeek, monthDays);
    assert |cells| == total + Padding(total);
    assert cells[..firstDayOfWeek] == Nulls(firstDayOfWeek);
  }

  /**
   * The `forEach` over the month's days: each day goes into the current week, which is
   * first moved to the finished weeks when it already holds seven cells.
   */
  method PlaceDays<D>(lead: seq<Option<D>>, monthDays: seq<D>) returns (weeks: seq<seq<Option<D>>>, currentWeek: seq<Option<D>>)
    requires |lead| < 7
    ensures |currentWeek| <= 7 && forall w :: w in weeks ==> |w| == 7 && HasDay(w)
    ensures monthDays == [] ==> weeks == [] && currentWeek == lead
    ensures monthDays != [] ==> 1 <= |currentWeek| && HasDay(currentWeek)
    ensures Flatten(weeks) + currentWeek == lead + Cells(monthDays)
  {
    weeks := [];
    currentWeek := lead;
    for i := 0 to |monthDays|
      invariant |currentWeek| <= 7
      invariant forall w :: w in weeks ==> |w| == 7 && HasDay(w)
      invariant i == 0 ==> weeks == [] && currentWeek == lead
      invariant i > 0 ==> 1 <= |currentWeek| && HasDay(currentWeek)
      invariant Flatten(weeks) + currentWeek == lead + Cells(monthDays[..i])
    {
      if |currentWeek| == 7 {
        CloseWeek(weeks, currentWeek);
        weeks := weeks + [currentWeek];
        currentWeek := [];
      }
      PlaceStep(Flatten(weeks), currentWeek, lead, monthDays, i);
      currentWeek := currentWeek + [Some(monthDays[i])];
    }
    assert monthDays[..|monthDays|] == monthDays;
  }

  /** Moving a full week that has a day to the finished weeks keeps the cells and the weeks' shape. */
  lemma CloseWeek<D>(weeks: seq<seq<Option<D>>>, week: seq<Option<D>>)
    requires forall w :: w in weeks ==> |w| == 7 && HasDay(w)
    requires |week| == 7 && HasDay(week)
    ensures forall w :: w in weeks + [week] ==> |w| == 7 && HasDay(w)
    ensures Flatten(weeks + [week]) + [] == Flatten(weeks) + week
  {
    FlattenAppend(weeks, week);
  }

  /** Placing day `i` in the current week extends the cells laid so far by that day. */
  lemma PlaceStep<D>(flat: seq<Option<D>>, week: seq<Option<D>>, lead: seq<Option<D>>, days: seq<D>, i: nat)
    requires i < |days| && flat + week == lead + Cells(days[..i])
    ensures flat + (week + [Some(days[i])]) == lead + Cells(days[..i + 1])
    ensures HasDay(week + [Some(days[i])])
  {
    assert days[..i + 1] == days[..i] + [days[i]];
    assert Cells(days[..i + 1]) == Cells(days[..i]) + [Some(days[i])];
    assert flat + (week + [Some(days[i])]) == (flat + week) + [Some(days[i])];
    assert (week + [Some(days[i])])[|week|].Some?;
  }

  /** The `while` loop completing the last week with empty cells. */
  method FillWeek<D>(week: seq<Option<D>>) returns (full: seq<Option<D>>)
    requires |week| <= 7
    ensures full == week + Nulls(7 - |week|)
  {
    full := week;
    while |full| < 7
      invariant |week| <= |full| <= 7
      invariant full == week + Nulls(|full| - |week|)
    {
      full := full + [None];
    }
  }

  lemma HasDayExtended<D>(week: seq<Option<D>>, more: seq<Option<D>>)
    requires HasDay(week)
    ensures HasDay(week + more)
  {
    var k :| 0 <= k < |week| && week[k].Some?;
    assert (week + more)[k].Some?;
  }

  /** A grid of `rows` full weeks and `used` cells in its last row is padded by `7 - used`. */
  lemma PaddingOfRow(rows: nat, used: nat, total: nat)
    requires used <= 7 && total == 7 * rows + used
    requires used == 0 ==> total == 0
    ensures Padding(total) == 7 - used
  {
    if used < 7 {
      assert total % 7 == used;
    } else {
      assert total == 7 * (rows + 1);
      assert total % 7 == 0;
    }
  }

  /** The first week of a grid is its first seven cells. */
  lemma FirstWeek<D>(weeks: seq<seq<Option<D>>>, cells: seq<Option<D>>)
    requires |weeks| >= 1 && |weeks[0]| == 7 && Flatten(weeks) == cells
    ensures weeks[0] == cells[..7]
  {
    assert Flatten(weeks) == weeks[0] + Flatten(weeks[1..]);
  }

  /** The filled cells of a grid, in reading order. */
  function Present<D>(cells: seq<Option<D>>): seq<D>
    decreases |cells|
  {
    if cells == [] then []
    else (if cells[0].Some? then [cells[0].value] else []) + Present(cells[1..])
  }

  lemma {:induction false} PresentAppend<D>(a: seq<Option<D>>, b: seq<Option<D>>)
    ensures Present(a + b) == Present(a) + Present(b)
    decreases |a|
  {
    if a == [] {
      assert a + b == b;
    } else {
      var head := if a[0].Some? then [a[0].value] else [];
      assert (a + b)[0] == a[0];
      assert (a + b)[1..] == a[1..] + b;
      PresentAppend(a[1..], b);
      calc {
        Present(a + b);
        head + Present(a[1..] + b);
        head + (Present(a[1..]) + Present(b));
        (head + Present(a[1..])) + Present(b);
        Present(a) + Present(b);
      }
    }
  }

  lemma {:induction false} PresentNulls<D>(n: nat)
    ensures Present(Nulls<D>(n)) == []
    decreases n
  {
    if n > 0 {
      assert Nulls<D>(n)[1..] == Nulls<D>(n - 1);
      PresentNulls<D>(n - 1);
    }
  }

  lemma {:induction false} PresentCells<D>(days: seq<D>)
    ensures Present(Cells(days)) == days
    decreases |days|
  {
    if days != [] {
      assert Cells(days)[1..] == Cells(days[1..]);
      PresentCells(days[1..]);
    }
  }

  /** Read in order, the filled cells of the month grid are exactly the month's days. */
  lemma GridShowsEachDayOnce<D>(firstDayOfWeek: nat, monthDays: seq<D>)
    ensures Present(GridCells(firstDayOfWeek, monthDays)) == monthDays
  {
    var lead := Nulls<D>(firstDayOfWeek);
    var pad := Nulls<D>(Padding(firstDayOfWeek + |monthDays|));
    PresentAppend(lead + Cells(monthDays), pad);
    PresentAppend(lead, Cells(monthDays));
    PresentNulls<D>(firstDayOfWeek);
    PresentNulls<D>(Padding(firstDayOfWeek + |monthDays|));
    PresentCells(monthDays);
  }

  /** How many of the days have the given classification. */
  function CountWhere(monthDays: seq<string>, logsByDate: map<string, DailyLog>, b: Bounds, status: Option<bool>): (n: nat)
    ensures n <= |monthDays|
    decreases |monthDays|
  {
    if monthDays == [] then 0
    else
      (if IsDayCompliant(logsByDate, monthDays[0], b) == status then 1 else 0)
      + CountWhere(monthDays[1..], logsByDate, b, status)
  }

  /** Every day of the month is counted exactly once: compliant, not compliant or no data. */
  lemma {:induction false} CountsPartitionMonth(monthDays: seq<string>, logsByDate: map<string, DailyLog>, b: Bounds)
    ensures CountWhere(monthDays, logsByDate, b, Some(true)) + CountWhere(monthDays, logsByDate, b, Some(false))
            + CountWhere(monthDays, logsByDate, b, None) == |monthDays|
    decreases |monthDays|
  {
    if monthDays != [] {
      CountsPartitionMonth(monthDays[1..], logsByDate, b);
    }
  }
}
