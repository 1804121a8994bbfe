/** The statistics service (StatistiquesService) over an in-memory Activite
    table, with `date.today()` as the parameter `today`. */
module Statistics {
  import opened Common
  import opened Seqs
  import opened Dicts
  import opened Calendar
  import opened Rows

  /** `date.today() - timedelta(weeks=weeks)`, as an ordinal. */
  function WindowStart(today: CalendarDate, weeks: int): int
  {
    Ordinal(today) - 7 * weeks
  }

  /** `date.today() - timedelta(weeks=weeks)` is a date: it does not raise
      OverflowError. */
  predicate WindowOk(today: CalendarDate, weeks: int)
  {
    DaysBefore(today, 7 * weeks).Ok?
  }

  /** `date.today() - timedelta(weeks=weeks)` is the window start when it
      does not raise. */
  lemma WindowStartOf(today: CalendarDate, weeks: int)
    ensures DaysBefore(today, 7 * weeks)
         == if WindowOk(today, weeks) then Ok(WindowStart(today, weeks)) else Raised(OverflowError)
  {
  }

  /** The exception a weekly service raises, if any. */
  function WindowError(today: CalendarDate, weeks: int): Option<PyError>
  {
    if WindowOk(today, weeks) then None else Some(OverflowError)
  }

  /** A window that is a date holds every shorter window: their starts lie
      between its start and today. */
  lemma ShorterWindowOk(today: CalendarDate, short: int, long: int)
    requires 0 <= short <= long
    requires WindowOk(today, long)
    ensures WindowOk(today, short)
  {
    OrdinalRange(today);
  }

  /** What a service computes over the window: its value, or the
      OverflowError of the window start, which it computes first. */
  function Windowed<T>(today: CalendarDate, weeks: int, value: T): Outcome<T>
  {
    if WindowOk(today, weeks) then Ok(value) else Raised(OverflowError)
  }

  /** WHERE utilisateur_id == user AND date_activite >= start */
  function InWindow(user: nat, start: int): Activity -> bool
  {
    (a: Activity) => a.owner == user && Ordinal(a.date) >= start
  }

  /** The activities of `user` dated `weeks` weeks ago or later. */
  function UserWindow(table: seq<Activity>, user: nat, today: CalendarDate, weeks: int): seq<Activity>
  {
    Filter(table, InWindow(user, WindowStart(today, weeks)))
  }

  // ----- Activities per week and sport -----

  /** The key `f"{annee}-W{semaine:02d}"` of an activity's ISO week. */
  const WeekOf: Activity -> string := (a: Activity) => WeekKey(a.date)

  /** Counts per week key, then per sport. */
  type WeeklyCounts = Dict<string, Dict<string, int>>

  /** `stats[week][sport] += 1` on the nested defaultdict. */
  function CountOne(stats: WeeklyCounts, week: string, sport: string): WeeklyCounts
  {
    var row := GetOrDefault(stats, week, []);
    Put(stats, week, Put(row, sport, GetOrDefault(row, sport, 0) + 1))
  }

  /** The counters after the loop has seen `acts`. */
  function WeeklyCountsOf(acts: seq<Activity>, weekOf: Activity -> string): WeeklyCounts
  {
    if acts == [] then []
    else CountOne(WeeklyCountsOf(DropLast(acts), weekOf), weekOf(Last(acts)), Last(acts).sport)
  }

  /** obtenir_activites_par_semaine: the window start, the query, then the
      counting loop. */
  method ActivitiesPerWeek(table: seq<Activity>, user: nat, today: CalendarDate, weeks: int)
    returns (r: Outcome<WeeklyCounts>)
    ensures r == Windowed(today, weeks, WeeklyCountsOf(UserWindow(table, user, today, weeks), WeekOf))
  {
    var start := DaysBefore(today, 7 * weeks);
    WindowStartOf(today, weeks);
    if start.Raised? {
      return Raised(start.error);
    }
    var stats := CountPerWeek(Filter(table, InWindow(user, start.value)), WeekOf);
    r := Ok(stats);
  }

  /** The counting loop of obtenir_activites_par_semaine, with the week key
      of an activity given by `weekOf`. */
  method CountPerWeek(acts: seq<Activity>, weekOf: Activity -> string) returns (stats: WeeklyCounts)
    ensures stats == WeeklyCountsOf(acts, weekOf)
  {
    stats := [];
    var i := 0;
    while i < |acts|
      invariant 0 <= i <= |acts|
      invariant stats == WeeklyCountsOf(acts[..i], weekOf)
    {
      var a := acts[i];
      var key := weekOf(a);
      var row := GetOrDefault(stats, key, []);
      stats := Put(stats, key, Put(row, a.sport, GetOrDefault(row, a.sport, 0) + 1));
      assert DropLast(acts[..i + 1]) == acts[..i];
      i := i + 1;
    }
    assert acts[..i] == acts;
  }

  /** WHERE the activity's week key is `week` and its sport is `sport`. */
  function InCell(weekOf: Activity -> string, week: string, sport: string): Activity -> bool
  {
    (a: Activity) => weekOf(a) == week && a.sport == sport
  }

  /** A (week, sport) cell holds the number of activities of that sport in
      that week, and exists only when that number is positive. */
  lemma {:induction false} WeeklyCell(acts: seq<Activity>, weekOf: Activity -> string, week: string, sport: string)
    ensures var n := CountWhere(acts, InCell(weekOf, week, sport));
            Get(GetOrDefault(WeeklyCountsOf(acts, weekOf), week, []), sport) == if n > 0 then Some(n) else None
  {
    if acts != [] {
      var init, a := DropLast(acts), Last(acts);
      WeeklyCell(init, weekOf, week, sport);
      FilterLast(acts, InCell(weekOf, week, sport));
      var prev := WeeklyCountsOf(init, weekOf);
      var key := weekOf(a);
      var row := GetOrDefault(prev, key, []);
      GetPut(prev, key, Put(row, a.sport, GetOrDefault(row, a.sport, 0) + 1), week);
      GetPut(row, a.sport, GetOrDefault(row, a.sport, 0) + 1, sport);
    }
  }

  /** A week key is present exactly when some activity falls in that week. */
  lemma {:induction false} WeeklyKeys(acts: seq<Activity>, weekOf: Activity -> string, week: string)
    ensures Get(WeeklyCountsOf(acts, weekOf), week).Some?
        <==> exists i :: 0 <= i < |acts| && InWeek(weekOf, week)(acts[i])
  {
    if acts != [] {
      var init, a := DropLast(acts), Last(acts);
      WeeklyKeys(init, weekOf, week);
      var prev := WeeklyCountsOf(init, weekOf);
      var key := weekOf(a);
      var row := GetOrDefault(prev, key, []);
      GetPut(prev, key, Put(row, a.sport, GetOrDefault(row, a.sport, 0) + 1), week);
      ExistsLast(acts, InWeek(weekOf, week));
    }
  }

  /** Sum of all the cells. */
  function CellTotal(stats: WeeklyCounts): int
  {
    if stats == [] then 0 else SumValues(stats[0].1) + CellTotal(stats[1..])
  }

  lemma {:induction false} CellTotalPut(stats: WeeklyCounts, week: string, row: Dict<string, int>)
    ensures CellTotal(Put(stats, week, row))
         == CellTotal(stats) - SumValues(GetOrDefault(stats, week, [])) + SumValues(row)
  {
    if stats != [] && stats[0].0 != week {
      CellTotalPut(stats[1..], week, row);
    }
  }

  /** Every activity adds exactly one to exactly one cell, so the cells add
      up to the number of activities. */
  lemma {:induction false} WeeklyTotal(acts: seq<Activity>, weekOf: Activity -> string)
    ensures CellTotal(WeeklyCountsOf(acts, weekOf)) == |acts|
  {
    if acts != [] {
      var init, a := DropLast(acts), Last(acts);
      WeeklyTotal(init, weekOf);
      var prev := WeeklyCountsOf(init, weekOf);
      var key := weekOf(a);
      var row := GetOrDefault(prev, key, []);
      CellTotalPut(prev, key, Put(row, a.sport, GetOrDefault(row, a.sport, 0) + 1));
      SumValuesPut(row, a.sport, GetOrDefault(row, a.sport, 0) + 1);
    }
  }

  // ----- Kilometres and hours per week -----

  /** The two per-week float sums: distance in km and duration in hours. */
  datatype Measure = Kilometres | Hours

  /** The `isnot(None)` filter on the column a measure reads. */
  function HasColumn(m: Measure): Activity -> bool
  {
    (a: Activity) => if m == Kilometres then a.distance.Some? else a.duration.Some?
  }

  /** `if activite.distance:` / `if activite.duree_activite:` */
  predicate Contributes(a: Activity, m: Measure)
  {
    if m == Kilometres then RealTruthy(a.distance) else IntTruthy(a.duration)
  }

  /** What an activity adds to its week: `distance / 1000.0` or
      `duree_activite / 3600.0` when that field is truthy, nothing
      otherwise. */
  function Amount(a: Activity, m: Measure): real
  {
    if !Contributes(a, m) then 0.0
    else if m == Kilometres then a.distance.value / 1000.0
    else a.duration.value as real / 3600.0
  }

  /** The float defaultdict after the loop has seen `acts`. */
  function WeeklySumsOf(acts: seq<Activity>, m: Measure, weekOf: Activity -> string): Dict<string, real>
  {
    if acts == [] then [] else AddToWeek(WeeklySumsOf(DropLast(acts), m, weekOf), Last(acts), m, weekOf)
  }

  /** One turn of the loop: `stats[semaine] += ...` when the field is
      truthy. */
  function AddToWeek(stats: Dict<string, real>, a: Activity, m: Measure, weekOf: Activity -> string): Dict<string, real>
  {
    if Contributes(a, m) then Put(stats, weekOf(a), GetOrDefault(stats, weekOf(a), 0.0) + Amount(a, m))
    else stats
  }

  /** The loop shared by obtenir_kilometres_par_semaine and
      obtenir_heures_par_semaine, over the rows the query returned, with the
      week key of an activity given by `weekOf`. */
  method SumPerWeek(acts: seq<Activity>, m: Measure, weekOf: Activity -> string) returns (stats: Dict<string, real>)
    ensures stats == WeeklySumsOf(acts, m, weekOf)
  {
    stats := [];
    var i := 0;
    while i < |acts|
      invariant 0 <= i <= |acts|
      invariant stats == WeeklySumsOf(acts[..i], m, weekOf)
    {
      var a := acts[i];
      var key := weekOf(a);
      if Contributes(a, m) {
        stats := Put(stats, key, GetOrDefault(stats, key, 0.0) + Amount(a, m));
      }
      assert DropLast(acts[..i + 1]) == acts[..i];
      i := i + 1;
    }
    assert acts[..i] == acts;
  }

  /** obtenir_kilometres_par_semaine: the query also drops NULL distances,
      which changes nothing. */
  method KilometresPerWeek(table: seq<Activity>, user: nat, today: CalendarDate, weeks: int)
    returns (r: Outcome<Dict<string, real>>)
    ensures r == Windowed(today, weeks, WeeklySumsOf(UserWindow(table, user, today, weeks), Kilometres, WeekOf))
  {
    var start := DaysBefore(today, 7 * weeks);
    WindowStartOf(today, weeks);
    if start.Raised? {
      return Raised(start.error);
    }
    var acts := Filter(table, InWindow(user, start.value));
    var stats := SumPerWeek(Filter(acts, HasColumn(Kilometres)), Kilometres, WeekOf);
    NullFilterRedundant(acts, Kilometres, WeekOf);
    r := Ok(stats);
  }

  /** obtenir_heures_par_semaine: the query also drops NULL durations, which
      changes nothing. */
  method HoursPerWeek(table: seq<Activity>, user: nat, today: CalendarDate, weeks: int)
    returns (r: Outcome<Dict<string, real>>)
    ensures r == Windowed(today, weeks, WeeklySumsOf(UserWindow(table, user, today, weeks), Hours, WeekOf))
  {
    var start := DaysBefore(today, 7 * weeks);
    WindowStartOf(today, weeks);
    if start.Raised? {
      return Raised(start.error);
    }
    var acts := Filter(table, InWindow(user, start.value));
    var stats := SumPerWeek(Filter(acts, HasColumn(Hours)), Hours, WeekOf);
    NullFilterRedundant(acts, Hours, WeekOf);
    r := Ok(stats);
  }

  /** The `isnot(None)` filter changes nothing: a NULL field is falsy and
      would be skipped by the loop anyway. */
  lemma {:induction false} NullFilterRedundant(acts: seq<Activity>, m: Measure, weekOf: Activity -> string)
    ensures WeeklySumsOf(Filter(acts, HasColumn(m)), m, weekOf) == WeeklySumsOf(acts, m, weekOf)
  {
    if acts != [] {
      var init, a := DropLast(acts), Last(acts);
      NullFilterRedundant(init, m, weekOf);
      NullFilterStep(acts, m, weekOf);
    }
  }

  lemma NullFilterStep(acts: seq<Activity>, m: Measure, weekOf: Activity -> string)
    requires acts != []
    requires WeeklySumsOf(Filter(DropLast(acts), HasColumn(m)), m, weekOf) == WeeklySumsOf(DropLast(acts), m, weekOf)
    ensures WeeklySumsOf(Filter(acts, HasColumn(m)), m, weekOf) == WeeklySumsOf(acts, m, weekOf)
  {
    var r := Filter(acts, HasColumn(m));
    FilterLast(acts, HasColumn(m));
    if !HasColumn(m)(Last(acts)) {
      assert !Contributes(Last(acts), m);
    }
  }

  /** Sum of what the activities add, week or no week. */
  function TotalAmount(acts: seq<Activity>, m: Measure): real
  {
    if acts == [] then 0.0 else TotalAmount(DropLast(acts), m) + Amount(Last(acts), m)
  }

  /** A week is a key exactly when one of its activities has a truthy
      field. */
  lemma {:induction false} WeeklySumsKeys(acts: seq<Activity>, m: Measure, weekOf: Activity -> string, week: string)
    ensures Get(WeeklySumsOf(acts, m, weekOf), week).Some?
        <==> exists i :: 0 <= i < |acts| && ContributesTo(m, weekOf, week)(acts[i])
  {
    if acts != [] {
      var init, a := DropLast(acts), Last(acts);
      WeeklySumsKeys(init, m, weekOf, week);
      var prev := WeeklySumsOf(init, m, weekOf);
      if Contributes(a, m) {
        GetPut(prev, weekOf(a), GetOrDefault(prev, weekOf(a), 0.0) + Amount(a, m), week);
      }
      ExistsLast(acts, ContributesTo(m, weekOf, week));
    }
  }

  /** The activities that add to `week`'s sum. */
  function ContributesTo(m: Measure, weekOf: Activity -> string, week: string): Activity -> bool
  {
    (a: Activity) => Contributes(a, m) && weekOf(a) == week
  }

  /** The weekly sums add up to the sum of every activity's contribution. */
  lemma {:induction false} WeeklySumsTotal(acts: seq<Activity>, m: Measure, weekOf: Activity -> string)
    ensures SumRealValues(WeeklySumsOf(acts, m, weekOf)) == TotalAmount(acts, m)
  {
    if acts != [] {
      var init, a := DropLast(acts), Last(acts);
      WeeklySumsTotal(init, m, weekOf);
      var prev := WeeklySumsOf(init, m, weekOf);
      if Contributes(a, m) {
        SumRealValuesPut(prev, weekOf(a), GetOrDefault(prev, weekOf(a), 0.0) + Amount(a, m));
      }
    }
  }

  /** WHERE the activity's week key is `week`. */
  function InWeek(weekOf: Activity -> string, week: string): Activity -> bool
  {
    (a: Activity) => weekOf(a) == week
  }

  /** Each week's value is the sum of the contributions of that week's
      activities. */
  lemma {:induction false} WeeklySumsValue(acts: seq<Activity>, m: Measure, weekOf: Activity -> string, week: string)
    ensures GetOrDefault(WeeklySumsOf(acts, m, weekOf), week, 0.0)
         == TotalAmount(Filter(acts, InWeek(weekOf, week)), m)
  {
    if acts != [] {
      var init, a := DropLast(acts), Last(acts);
      assert acts == init + [a];
      WeeklySumsValue(init, m, weekOf, week);
      WeeklySumsStep(init, a, m, weekOf, week);
      FilterAppend(init, a, InWeek(weekOf, week));
      var kept := Filter(init, InWeek(weekOf, week));
      if InWeek(weekOf, week)(a) {
        assert DropLast(kept + [a]) == kept;
      }
    }
  }

  /** One more activity adds its contribution to its own week only. */
  lemma WeeklySumsStep(init: seq<Activity>, a: Activity, m: Measure, weekOf: Activity -> string, week: string)
    ensures GetOrDefault(WeeklySumsOf(init + [a], m, weekOf), week, 0.0)
         == GetOrDefault(WeeklySumsOf(init, m, weekOf), week, 0.0) + (if weekOf(a) == week then Amount(a, m) else 0.0)
  {
    assert DropLast(init + [a]) == init;
    var prev := WeeklySumsOf(init, m, weekOf);
    if Contributes(a, m) {
      GetPut(prev, weekOf(a), GetOrDefault(prev, weekOf(a), 0.0) + Amount(a, m), week);
    }
  }

  // ----- Totals per sport -----

  /** The per-sport record of obtenir_statistiques_par_sport. */
  datatype SportTotals = SportTotals(count: int, hours: real, km: real, calories: int, climb: int)

  /** The defaultdict's initial record. */
  const NoTotals := SportTotals(0, 0.0, 0.0, 0, 0)

  /** `denivele_total += d_plus` is reached with a NULL `d_plus` when the
      distance is truthy: `int + None` raises TypeError. */
  predicate ClimbMissing(a: Activity)
  {
    Contributes(a, Kilometres) && a.dPlus.None?
  }

  /** What one activity adds to its sport's record (a NULL `d_plus` reached
      by the addition is read as 0 here; ClimbMissing says when it raises). */
  function AddToTotals(t: SportTotals, a: Activity): SportTotals
  {
    SportTotals(
      t.count + 1,
      t.hours + Amount(a, Hours),
      t.km + Amount(a, Kilometres),
      t.calories + (if IntTruthy(a.calories) then a.calories.value else 0),
      t.climb + (if Contributes(a, Kilometres) then IntOrZero(a.dPlus) else 0))
  }

  /** The record of a sport whose activities are `acts`. */
  function TotalsOf(acts: seq<Activity>): SportTotals
  {
    if acts == [] then NoTotals else AddToTotals(TotalsOf(DropLast(acts)), Last(acts))
  }

  /** The per-sport dictionary after the loop has seen `acts`, or the
      TypeError it raised. */
  function PerSportOf(acts: seq<Activity>): Outcome<Dict<string, SportTotals>>
  {
    if acts == [] then Ok([])
    else
      match PerSportOf(DropLast(acts))
      case Raised(e) => Raised(e)
      case Ok(prev) =>
        var a := Last(acts);
        if ClimbMissing(a) then Raised(TypeError)
        else Ok(Put(prev, a.sport, AddToTotals(GetOrDefault(prev, a.sport, NoTotals), a)))
  }

  /** What obtenir_statistiques_par_sport returns or raises: the
      OverflowError of the window start, else the loop's outcome over the
      window. */
  function PerSportIn(table: seq<Activity>, user: nat, today: CalendarDate, weeks: int): Outcome<Dict<string, SportTotals>>
  {
    if WindowOk(today, weeks) then PerSportOf(UserWindow(table, user, today, weeks)) else Raised(OverflowError)
  }

  /** obtenir_statistiques_par_sport raises OverflowError when the window
      start is not a date, otherwise TypeError exactly when an activity of
      the window has a truthy distance and a NULL `d_plus`. */
  lemma PerSportInRaises(table: seq<Activity>, user: nat, today: CalendarDate, weeks: int)
    ensures var r, window := PerSportIn(table, user, today, weeks), UserWindow(table, user, today, weeks);
            && (r.Raised? <==> !WindowOk(today, weeks) || exists i :: 0 <= i < |window| && ClimbMissing(window[i]))
            && (r.Raised? ==> r.error == if WindowOk(today, weeks) then TypeError else OverflowError)
  {
    PerSportRaises(UserWindow(table, user, today, weeks));
  }

  /** StatistiquesService.obtenir_statistiques_par_sport */
  method StatisticsPerSport(table: seq<Activity>, user: nat, today: CalendarDate, weeks: int)
    returns (r: Outcome<Dict<string, SportTotals>>)
    ensures r == PerSportIn(table, user, today, weeks)
  {
    var start := DaysBefore(today, 7 * weeks);
    WindowStartOf(today, weeks);
    if start.Raised? {
      return Raised(start.error);
    }
    r := PerSportLoop(Filter(table, InWindow(user, start.value)));
  }

  /** The loop of obtenir_statistiques_par_sport over the queried
      activities. */
  method PerSportLoop(acts: seq<Activity>) returns (r: Outcome<Dict<string, SportTotals>>)
    ensures r == PerSportOf(acts)
  {
    var stats: Dict<string, SportTotals> := [];
    var i := 0;
    while i < |acts|
      invariant 0 <= i <= |acts|
      invariant PerSportOf(acts[..i]) == Ok(stats)
    {
      var a := acts[i];
      assert DropLast(acts[..i + 1]) == acts[..i];
      if ClimbMissing(a) {
        PerSportRaisedStays(acts, i + 1);
        return Raised(TypeError);
      }
      stats := Put(stats, a.sport, AddToTotals(GetOrDefault(stats, a.sport, NoTotals), a));
      i := i + 1;
    }
    assert acts[..i] == acts;
    r := Ok(stats);
  }

  /** Once the loop has raised, later activities do not matter. */
  lemma {:induction false} PerSportRaisedStays(acts: seq<Activity>, i: int)
    requires 0 <= i <= |acts|
    requires PerSportOf(acts[..i]) == Raised(TypeError)
    ensures PerSportOf(acts) == Raised(TypeError)
    decreases |acts| - i
  {
    if i < |acts| {
      assert DropLast(acts[..i + 1]) == acts[..i];
      PerSportRaisedStays(acts, i + 1);
    } else {
      assert acts[..i] == acts;
    }
  }

  /** The per-sport statistics raise exactly when some activity has a
      truthy distance and a NULL `d_plus`. */
  lemma {:induction false} PerSportRaises(acts: seq<Activity>)
    ensures PerSportOf(acts).Raised? <==> exists i :: 0 <= i < |acts| && ClimbMissing(acts[i])
    ensures PerSportOf(acts).Raised? ==> PerSportOf(acts).error == TypeError
  {
    if acts != [] {
      var init := DropLast(acts);
      PerSportRaises(init);
      if exists i :: 0 <= i < |acts| && ClimbMissing(acts[i]) {
        var i :| 0 <= i < |acts| && ClimbMissing(acts[i]);
        if i < |init| {
          assert init[i] == acts[i];
        }
      }
      if exists i :: 0 <= i < |init| && ClimbMissing(init[i]) {
        var i :| 0 <= i < |init| && ClimbMissing(init[i]);
        assert acts[i] == init[i];
      }
    }
  }

  /** A sport is a key exactly when it has an activity, and its record is
      the totals of that sport's activities. */
  lemma {:induction false} PerSportEntry(acts: seq<Activity>, sport: string)
    requires PerSportOf(acts).Ok?
    ensures var sportActs := Filter(acts, OfSport(sport));
            Get(PerSportOf(acts).value, sport) == if sportActs == [] then None else Some(TotalsOf(sportActs))
  {
    if acts != [] {
      var init, a := DropLast(acts), Last(acts);
      PerSportEntry(init, sport);
      FilterLast(acts, OfSport(sport));
      var prev := PerSportOf(init).value;
      GetPut(prev, a.sport, AddToTotals(GetOrDefault(prev, a.sport, NoTotals), a), sport);
    }
  }

  /** A sport's record counts every activity, and its hours and kilometres
      are the same sums as the weekly statistics add up. */
  lemma {:induction false} TotalsAgree(acts: seq<Activity>)
    ensures TotalsOf(acts).count == |acts|
    ensures TotalsOf(acts).hours == TotalAmount(acts, Hours)
    ensures TotalsOf(acts).km == TotalAmount(acts, Kilometres)
  {
    if acts != [] {
      TotalsAgree(DropLast(acts));
    }
  }

  /** The per-sport dictionary never holds a sport twice. */
  lemma {:induction false} PerSportUnique(acts: seq<Activity>)
    requires PerSportOf(acts).Ok?
    ensures UniqueKeys(PerSportOf(acts).value)
  {
    if acts != [] {
      var prev := PerSportOf(DropLast(acts)).value;
      var a := Last(acts);
      PerSportUnique(DropLast(acts));
      PutUnique(prev, a.sport, AddToTotals(GetOrDefault(prev, a.sport, NoTotals), a));
    }
  }

  /** With no negative contributions, a wider filter adds up to at least as
      much. */
  lemma {:induction false} TotalAmountWeaker(s: seq<Activity>, p: Activity -> bool, q: Activity -> bool, m: Measure)
    requires forall i :: 0 <= i < |s| ==> (p(s[i]) ==> q(s[i])) && Amount(s[i], m) >= 0.0
    ensures TotalAmount(Filter(s, p), m) <= TotalAmount(Filter(s, q), m)
  {
    if s != [] {
      var init, a := DropLast(s), Last(s);
      assert forall i :: 0 <= i < |init| ==> init[i] == s[i];
      TotalAmountWeaker(init, p, q, m);
      var fp, fq := Filter(init, p), Filter(init, q);
      if p(a) {
        assert DropLast(fp + [a]) == fp && DropLast(fq + [a]) == fq;
      } else if q(a) {
        assert DropLast(fq + [a]) == fq;
      }
    }
  }

  // ----- Progression for one sport -----

  /** WHERE utilisateur_id == user AND type_sport == sport AND
      date_activite >= start */
  function InSportWindow(user: nat, sport: string, start: int): Activity -> bool
  {
    (a: Activity) => a.owner == user && a.sport == sport && Ordinal(a.date) >= start
  }

  /** One entry of the progression list: duration in minutes and distance
      in km (0 when the field is falsy), calories (`calories or 0`). */
  datatype Point = Point(date: CalendarDate, minutes: real, km: real, calories: int)

  function PointOf(a: Activity): Point
  {
    Point(
      a.date,
      if IntTruthy(a.duration) then a.duration.value as real / 60.0 else 0.0,
      if RealTruthy(a.distance) then a.distance.value / 1000.0 else 0.0,
      IntOrZero(a.calories))
  }

  /** The values of `moyenne(liste, cle)` that count: the positive ones. */
  function Positives(vs: seq<real>): seq<real>
  {
    Filter(vs, (x: real) => x > 0.0)
  }

  /** `moyenne`: the mean of the positive values, 0 when there is none. */
  function Mean(vs: seq<real>): real
  {
    var pos := Positives(vs);
    if pos == [] then 0.0 else SumReals(pos) / (|pos| as real)
  }

  lemma {:induction false} SumPositive(s: seq<real>)
    requires forall i :: 0 <= i < |s| ==> s[i] > 0.0
    ensures s != [] ==> SumReals(s) > 0.0
  {
    if s != [] {
      SumPositive(DropLast(s));
      assert Last(s) > 0.0;
    }
  }

  lemma {:induction false} SumBelow(s: seq<real>, hi: real)
    requires forall i :: 0 <= i < |s| ==> s[i] <= hi
    ensures SumReals(s) <= (|s| as real) * hi
  {
    if s != [] {
      SumBelow(DropLast(s), hi);
      assert Last(s) <= hi;
    }
  }

  lemma QuotientPositive(s: real, n: real)
    requires s > 0.0 && n > 0.0
    ensures s / n > 0.0
  {
  }

  lemma QuotientBelow(s: real, n: real, hi: real)
    requires n > 0.0 && s <= n * hi
    ensures s / n <= hi
  {
    var q := s / n;
    assert q * n == s;
    assert (q - hi) * n <= 0.0;
  }

  /** The positive values, all of them positive and all of them values. */
  lemma PositivesMembers(vs: seq<real>)
    ensures forall i :: 0 <= i < |Positives(vs)| ==> Positives(vs)[i] > 0.0 && Positives(vs)[i] in vs
    ensures forall i :: 0 <= i < |vs| && vs[i] > 0.0 ==> vs[i] in Positives(vs)
  {
    FilterMembers(vs, (x: real) => x > 0.0);
  }

  /** A mean is never negative, and it is positive exactly when some value
      is. */
  lemma MeanSign(vs: seq<real>)
    ensures Mean(vs) >= 0.0
    ensures Mean(vs) > 0.0 <==> exists i :: 0 <= i < |vs| && vs[i] > 0.0
  {
    var pos := Positives(vs);
    PositivesMembers(vs);
    if pos != [] {
      SumPositive(pos);
      QuotientPositive(SumReals(pos), |pos| as real);
      assert pos[0] in vs;
    }
    if exists i :: 0 <= i < |vs| && vs[i] > 0.0 {
      var i :| 0 <= i < |vs| && vs[i] > 0.0;
      assert vs[i] in pos;
    }
  }

  /** A mean is at most any non-negative bound on the values, in particular
      at most the largest value when one is positive. */
  lemma MeanBelow(vs: seq<real>, hi: real)
    requires hi >= 0.0
    requires forall i :: 0 <= i < |vs| ==> vs[i] <= hi
    ensures Mean(vs) <= hi
  {
    var pos := Positives(vs);
    PositivesMembers(vs);
    if pos != [] {
      forall i | 0 <= i < |pos| ensures pos[i] <= hi {
        assert pos[i] in vs;
      }
      SumBelow(pos, hi);
      QuotientBelow(SumReals(pos), |pos| as real, hi);
    }
  }

  /** The three means of one half of the progression list. */
  datatype Means = Means(minutes: real, km: real, calories: real)

  /** `[x[cle] for x in liste]` */
  function Column(points: seq<Point>, field: Point -> real): seq<real>
  {
    seq(|points|, i requires 0 <= i < |points| => field(points[i]))
  }

  const MinutesField: Point -> real := (p: Point) => p.minutes
  const KmField: Point -> real := (p: Point) => p.km
  const CaloriesField: Point -> real := (p: Point) => p.calories as real

  function MeansOf(points: seq<Point>): Means
  {
    Means(Mean(Column(points, MinutesField)), Mean(Column(points, KmField)), Mean(Column(points, CaloriesField)))
  }

  /** The result of obtenir_progression: `progression: None` with an empty
      list, or the list with the means of its two halves. */
  datatype ProgressionReport =
    | NoActivities(sport: string)
    | Progression(sport: string, count: nat, points: seq<Point>, early: Means, late: Means)

  /** The activities obtenir_progression reads, ORDER BY date_activite. */
  function ProgressionActivities(table: seq<Activity>, user: nat, sport: string, today: CalendarDate, weeks: int): seq<Activity>
  {
    SortBy(Filter(table, InSportWindow(user, sport, WindowStart(today, weeks))), DateKey)
  }

  /** The report obtenir_progression builds from its query's result. */
  function ProgressionReportOf(table: seq<Activity>, user: nat, sport: string, today: CalendarDate, weeks: int): ProgressionReport
  {
    var acts := ProgressionActivities(table, user, sport, today, weeks);
    if acts == [] then NoActivities(sport)
    else
      var points := PointsOf(acts);
      Progression(sport, |acts|, points, MeansOf(points[..|acts| / 2]), MeansOf(points[|acts| / 2..]))
  }

  /** StatistiquesService.obtenir_progression */
  method ProgressionOf(table: seq<Activity>, user: nat, sport: string, today: CalendarDate, weeks: int)
    returns (r: Outcome<ProgressionReport>)
    ensures r == Windowed(today, weeks, ProgressionReportOf(table, user, sport, today, weeks))
  {
    var start := DaysBefore(today, 7 * weeks);
    WindowStartOf(today, weeks);
    if start.Raised? {
      return Raised(start.error);
    }
    var acts := SortBy(Filter(table, InSportWindow(user, sport, start.value)), DateKey);
    if acts == [] {
      return Ok(NoActivities(sport));
    }
    var points := ListPoints(acts);
    var middle := |points| / 2;
    r := Ok(Progression(sport, |points|, points, MeansOf(points[..middle]), MeansOf(points[middle..])));
  }

  /** The graph point of each activity, in order. */
  function PointsOf(acts: seq<Activity>): seq<Point>
  {
    seq(|acts|, j requires 0 <= j < |acts| => PointOf(acts[j]))
  }

  /** The loop of obtenir_progression that appends one point per activity. */
  method ListPoints(acts: seq<Activity>) returns (points: seq<Point>)
    ensures points == PointsOf(acts)
  {
    points := [];
    var i := 0;
    while i < |acts|
      invariant 0 <= i <= |acts| && |points| == i
      invariant forall j :: 0 <= j < i ==> points[j] == PointOf(acts[j])
    {
      points := points + [PointOf(acts[i])];
      i := i + 1;
    }
  }

  /** The total of the positive values, added up one by one. */
  function PositiveTotal(vs: seq<real>): real
  {
    if vs == [] then 0.0 else PositiveTotal(DropLast(vs)) + (if Last(vs) > 0.0 then Last(vs) else 0.0)
  }

  /** How many values are positive. */
  function PositiveCount(vs: seq<real>): nat
  {
    if vs == [] then 0 else PositiveCount(DropLast(vs)) + (if Last(vs) > 0.0 then 1 else 0)
  }

  /** `m` is the mean of the positive values of `vs`, or 0 when there is
      none: times their number, it gives their total back. */
  predicate MeanOfPositives(m: real, vs: seq<real>)
  {
    if PositiveCount(vs) == 0 then m == 0.0 else m * PositiveCount(vs) as real == PositiveTotal(vs)
  }

  /** The three means of a list of points, each over its positive values. */
  predicate MeansOfPositives(m: Means, points: seq<Point>)
  {
    && MeanOfPositives(m.minutes, Column(points, MinutesField))
    && MeanOfPositives(m.km, Column(points, KmField))
    && MeanOfPositives(m.calories, Column(points, CaloriesField))
  }

  lemma {:induction false} PositivesTotal(vs: seq<real>)
    ensures SumReals(Positives(vs)) == PositiveTotal(vs)
    ensures |Positives(vs)| == PositiveCount(vs)
  {
    if vs != [] {
      PositivesTotal(DropLast(vs));
      var init := Positives(DropLast(vs));
      if Last(vs) > 0.0 {
        assert DropLast(init + [Last(vs)]) == init;
      }
    }
  }

  /** `moyenne` is the mean of the positive values. */
  lemma MeanIsMeanOfPositives(vs: seq<real>)
    ensures MeanOfPositives(Mean(vs), vs)
  {
    PositivesTotal(vs);
  }

  /** With no activity the report says so; otherwise it has one point per
      activity, in order, and its early and late means are the means of
      the positive values of the first n div 2 points and of the rest. */
  lemma ProgressionReportMeaning(table: seq<Activity>, user: nat, sport: string, today: CalendarDate, weeks: int)
    ensures var acts := ProgressionActivities(table, user, sport, today, weeks);
            var r := ProgressionReportOf(table, user, sport, today, weeks);
            if acts == [] then r == NoActivities(sport)
            else
              && r.Progression? && r.sport == sport && r.count == |acts| == |r.points|
              && (forall j :: 0 <= j < |acts| ==> r.points[j] == PointOf(acts[j]))
              && MeansOfPositives(r.early, r.points[..|acts| / 2])
              && MeansOfPositives(r.late, r.points[|acts| / 2..])
  {
    var acts := ProgressionActivities(table, user, sport, today, weeks);
    if acts != [] {
      var points := PointsOf(acts);
      var early, late := points[..|acts| / 2], points[|acts| / 2..];
      MeanIsMeanOfPositives(Column(early, MinutesField));
      MeanIsMeanOfPositives(Column(early, KmField));
      MeanIsMeanOfPositives(Column(early, CaloriesField));
      MeanIsMeanOfPositives(Column(late, MinutesField));
      MeanIsMeanOfPositives(Column(late, KmField));
      MeanIsMeanOfPositives(Column(late, CaloriesField));
    }
  }

  /** The progression list is in date order, every point belongs to an
      activity of that sport, user and window, and the halves have n div 2
      and n - n div 2 points and together make up the list. */
  lemma ProgressionShape(table: seq<Activity>, user: nat, sport: string, today: CalendarDate, weeks: int)
    ensures var acts := ProgressionActivities(table, user, sport, today, weeks);
            && SortedBy(acts, DateKey)
            && (forall a :: a in acts <==> a in table && InSportWindow(user, sport, WindowStart(today, weeks))(a))
            && |acts[..|acts| / 2]| == |acts| / 2
            && |acts[|acts| / 2..]| == |acts| - |acts| / 2
            && acts[..|acts| / 2] + acts[|acts| / 2..] == acts
  {
    var p := InSportWindow(user, sport, WindowStart(today, weeks));
    var kept := Filter(table, p);
    FilterMembers(table, p);
    SortedMembers(kept, DateKey);
    forall a | a in kept ensures a in table && p(a) {
      var i :| 0 <= i < |kept| && kept[i] == a;
    }
  }

  /** The mean of a field over either half is non-negative and at most
      any non-negative bound on that field over the whole list. */
  lemma HalfMeanBounded(points: seq<Point>, half: seq<Point>, field: Point -> real, hi: real)
    requires hi >= 0.0
    requires forall p :: p in half ==> p in points
    requires forall j :: 0 <= j < |points| ==> field(points[j]) <= hi
    ensures 0.0 <= Mean(Column(half, field)) <= hi
  {
    var vs := Column(half, field);
    forall i | 0 <= i < |vs| ensures vs[i] <= hi {
      assert half[i] in points;
    }
    MeanSign(vs);
    MeanBelow(vs, hi);
  }

  /** A sport has a non-empty progression exactly when one of the user's
      activities in the window is of that sport. */
  lemma ProgressionNonEmpty(table: seq<Activity>, user: nat, sport: string, today: CalendarDate, weeks: int)
    ensures ProgressionActivities(table, user, sport, today, weeks) != []
        <==> Filter(UserWindow(table, user, today, weeks), OfSport(sport)) != []
  {
    var start := WindowStart(today, weeks);
    var kept := Filter(table, InSportWindow(user, sport, start));
    var window := UserWindow(table, user, today, weeks);
    var both := Filter(window, OfSport(sport));
    assert |ProgressionActivities(table, user, sport, today, weeks)| == |kept|;
    FilterMembers(table, InSportWindow(user, sport, start));
    FilterMembers(table, InWindow(user, start));
    FilterMembers(window, OfSport(sport));
    if kept != [] {
      var a := kept[0];
      assert a in table && InSportWindow(user, sport, start)(a);
      var i :| 0 <= i < |table| && table[i] == a;
      assert InWindow(user, start)(table[i]);
      var j :| 0 <= j < |window| && window[j] == a;
      assert OfSport(sport)(window[j]);
      assert a in both;
    }
    if both != [] {
      var a := both[0];
      assert a in window && a.sport == sport;
      var i :| 0 <= i < |table| && table[i] == a;
      assert InSportWindow(user, sport, start)(table[i]);
      assert a in kept;
    }
  }

  // ----- Personal records -----

  /** `par_sport`: the activities of each sport, in table order, under the
      sports in order of first appearance. */
  function GroupBySport(acts: seq<Activity>): Dict<string, seq<Activity>>
  {
    if acts == [] then []
    else
      var prev := GroupBySport(DropLast(acts));
      var a := Last(acts);
      Put(prev, a.sport, GetOrDefault(prev, a.sport, []) + [a])
  }

  /** Each sport's group is exactly that sport's activities, in order. */
  lemma {:induction false} GroupEntry(acts: seq<Activity>, sport: string)
    ensures var sportActs := Filter(acts, OfSport(sport));
            Get(GroupBySport(acts), sport) == if sportActs == [] then None else Some(sportActs)
  {
    if acts != [] {
      var init, a := DropLast(acts), Last(acts);
      assert acts == init + [a];
      GroupEntry(init, sport);
      FilterAppend(init, a, OfSport(sport));
      var prev := GroupBySport(init);
      GetPut(prev, a.sport, GetOrDefault(prev, a.sport, []) + [a], sport);
    }
  }

  lemma {:induction false} GroupUnique(acts: seq<Activity>)
    ensures UniqueKeys(GroupBySport(acts))
  {
    if acts != [] {
      var prev := GroupBySport(DropLast(acts));
      GroupUnique(DropLast(acts));
      PutUnique(prev, Last(acts).sport, GetOrDefault(prev, Last(acts).sport, []) + [Last(acts)]);
    }
  }

  /** `a.duree_activite or 0`, `a.d_plus or 0`, `a.calories or 0`: the keys
      given to `max`. */
  function DurationKey(a: Activity): int { IntOrZero(a.duration) }
  function ClimbKey(a: Activity): int { IntOrZero(a.dPlus) }
  function CaloriesKey(a: Activity): int { IntOrZero(a.calories) }

  /** A record: its value, the activity's date and its name. */
  datatype RecordEntry<V> = RecordEntry(value: V, date: CalendarDate, name: Option<string>)

  datatype SportRecords = SportRecords(
    longest: RecordEntry<real>,
    highest: RecordEntry<int>,
    mostCalories: RecordEntry<int>)

  /** 'duree_maximale' is in hours, 0 when the duration is falsy. */
  function LongestEntry(a: Activity): RecordEntry<real>
  {
    RecordEntry(if IntTruthy(a.duration) then a.duration.value as real / 3600.0 else 0.0, a.date, a.name)
  }

  /** `i` is where Python's `max(group, key=key)` stops: a largest key, and
      the first one in order. */
  predicate IsFirstMax(group: seq<Activity>, i: int, key: Activity -> int)
  {
    && 0 <= i < |group|
    && (forall j :: 0 <= j < |group| ==> key(group[j]) <= key(group[i]))
    && (forall j :: 0 <= j < i ==> key(group[j]) < key(group[i]))
  }

  /** The three records of one sport's (non-empty) group. */
  function RecordsFor(group: seq<Activity>): (r: SportRecords)
    requires group != []
    ensures exists i :: IsFirstMax(group, i, DurationKey) && r.longest == LongestEntry(group[i])
    ensures exists i :: IsFirstMax(group, i, ClimbKey)
              && r.highest == RecordEntry(ClimbKey(group[i]), group[i].date, group[i].name)
    ensures exists i :: IsFirstMax(group, i, CaloriesKey)
              && r.mostCalories == RecordEntry(CaloriesKey(group[i]), group[i].date, group[i].name)
  {
    var l := FirstMaxIndex(group, DurationKey);
    var h := FirstMaxIndex(group, ClimbKey);
    var c := FirstMaxIndex(group, CaloriesKey);
    assert IsFirstMax(group, l, DurationKey) && IsFirstMax(group, h, ClimbKey) && IsFirstMax(group, c, CaloriesKey);
    SportRecords(
      LongestEntry(group[l]),
      RecordEntry(ClimbKey(group[h]), group[h].date, group[h].name),
      RecordEntry(CaloriesKey(group[c]), group[c].date, group[c].name))
  }

  predicate NonEmptyGroups(groups: Dict<string, seq<Activity>>)
  {
    forall i :: 0 <= i < |groups| ==> groups[i].1 != []
  }

  /** The records of a group looked up in `par_sport`, if any. */
  function RecordsOfGroup(group: Option<seq<Activity>>): Option<SportRecords>
  {
    if group.Some? && group.value != [] then Some(RecordsFor(group.value)) else None
  }

  /** `records` after the loop over `par_sport.items()` has seen `groups`. */
  function RecordsOfGroups(groups: Dict<string, seq<Activity>>): Dict<string, SportRecords>
    requires NonEmptyGroups(groups)
  {
    if groups == [] then []
    else
      var g := Last(groups);
      Put(RecordsOfGroups(DropLast(groups)), g.0, RecordsFor(g.1))
  }

  /** The records of the activities `acts`: `{}` when there are none. */
  function RecordsOf(acts: seq<Activity>): Dict<string, SportRecords>
  {
    if acts == [] then []
    else
      GroupsNonEmpty(acts);
      RecordsOfGroups(GroupBySport(acts))
  }

  /** StatistiquesService.obtenir_records_personnels */
  method PersonalRecords(table: seq<Activity>, user: nat) returns (records: Dict<string, SportRecords>)
    ensures records == RecordsOf(Filter(table, OwnedBy(user)))
    ensures forall sport :: Get(records, sport) ==
              (var sportActs := Filter(Filter(table, OwnedBy(user)), OfSport(sport));
               if sportActs == [] then None else Some(RecordsFor(sportActs)))
  {
    var acts := Filter(table, OwnedBy(user));
    RecordsOfMeaning(acts);
    records := [];
    if acts == [] {
      return;
    }
    var groups: Dict<string, seq<Activity>> := [];
    var i := 0;
    while i < |acts|
      invariant 0 <= i <= |acts|
      invariant groups == GroupBySport(acts[..i])
    {
      var a := acts[i];
      assert DropLast(acts[..i + 1]) == acts[..i];
      groups := Put(groups, a.sport, GetOrDefault(groups, a.sport, []) + [a]);
      i := i + 1;
    }
    assert acts[..i] == acts;
    GroupsNonEmpty(acts);
    var k := 0;
    while k < |groups|
      invariant 0 <= k <= |groups|
      invariant records == RecordsOfGroups(groups[..k])
    {
      assert DropLast(groups[..k + 1]) == groups[..k];
      records := Put(records, groups[k].0, RecordsFor(groups[k].1));
      k := k + 1;
    }
    assert groups[..k] == groups;
  }

  /** The records hold one entry per sport the activities have, and the
      entry of a sport is the records of that sport's activities. */
  lemma RecordsOfMeaning(acts: seq<Activity>)
    ensures forall sport :: Get(RecordsOf(acts), sport) ==
              (var sportActs := Filter(acts, OfSport(sport));
               if sportActs == [] then None else Some(RecordsFor(sportActs)))
  {
    forall sport ensures Get(RecordsOf(acts), sport) ==
                           (var sportActs := Filter(acts, OfSport(sport));
                            if sportActs == [] then None else Some(RecordsFor(sportActs)))
    {
      if acts == [] {
        FilterEmpty(acts, OfSport(sport));
      } else {
        RecordsEntry(acts, sport);
      }
    }
  }

  lemma {:induction false} GroupsNonEmpty(acts: seq<Activity>)
    ensures NonEmptyGroups(GroupBySport(acts))
  {
    if acts != [] {
      var prev := GroupBySport(DropLast(acts));
      var a := Last(acts);
      GroupsNonEmpty(DropLast(acts));
      forall k | 0 <= k < |GroupBySport(acts)| ensures GroupBySport(acts)[k].1 != [] {
        var g := GroupBySport(acts)[k];
        GetIndex(GroupBySport(acts), g.0);
        GetPut(prev, a.sport, GetOrDefault(prev, a.sport, []) + [a], g.0);
        PutKeepsOthers(prev, a.sport, GetOrDefault(prev, a.sport, []) + [a], k);
      }
    }
  }

  /** Every entry of `Put(d, k, v)` is `(k, v)` or an entry of `d`. */
  lemma {:induction false} PutKeepsOthers<V>(d: Dict<string, V>, k: string, v: V, i: int)
    requires 0 <= i < |Put(d, k, v)|
    ensures Put(d, k, v)[i] == (k, v) || Put(d, k, v)[i] in d
  {
    if d != [] && d[0].0 != k && i > 0 {
      PutKeepsOthers(d[1..], k, v, i - 1);
    }
  }

  /** The records dictionary has an entry for a group's sport exactly when
      the group has one, and it holds that group's records. */
  lemma {:induction false} RecordsOfGroupsEntry(groups: Dict<string, seq<Activity>>, sport: string)
    requires NonEmptyGroups(groups) && UniqueKeys(groups)
    ensures Get(RecordsOfGroups(groups), sport) == RecordsOfGroup(Get(groups, sport))
  {
    if groups != [] {
      var init, g := DropLast(groups), Last(groups);
      assert groups == init + [g];
      UniqueInit(groups);
      assert NonEmptyGroups(init) by {
        forall i | 0 <= i < |init| ensures init[i].1 != [] {
          assert init[i] == groups[i];
        }
      }
      RecordsOfGroupsEntry(init, sport);
      GetPut(RecordsOfGroups(init), g.0, RecordsFor(g.1), sport);
      GetAppend(init, g.0, g.1, sport);
    }
  }

  /** In a dictionary without repeated keys, the last key is new to the
      entries before it, which have no repeated keys either. */
  lemma UniqueInit<V>(d: Dict<string, V>)
    requires UniqueKeys(d) && d != []
    ensures UniqueKeys(DropLast(d))
    ensures Get(DropLast(d), Last(d).0) == None
  {
    var init, k := DropLast(d), Last(d).0;
    forall i, j | 0 <= i < j < |init| ensures init[i].0 != init[j].0 {
      assert init[i] == d[i] && init[j] == d[j];
    }
    forall j | 0 <= j < |init| ensures init[j].0 != k {
      assert init[j] == d[j];
    }
    GetIndex(init, k);
  }

  /** A sport has a record exactly when it has an activity, and its records
      are those of all its activities. */
  lemma RecordsEntry(acts: seq<Activity>, sport: string)
    requires acts != []
    ensures GroupBySport(acts) != [] && NonEmptyGroups(GroupBySport(acts))
    ensures var sportActs := Filter(acts, OfSport(sport));
            Get(RecordsOfGroups(GroupBySport(acts)), sport) == if sportActs == [] then None else Some(RecordsFor(sportActs))
  {
    GroupsNonEmpty(acts);
    GroupUnique(acts);
    GroupEntry(acts, sport);
    RecordsOfGroupsEntry(GroupBySport(acts), sport);
    GroupEntry(acts, Last(acts).sport);
    FilterMembers(acts, OfSport(Last(acts).sport));
    assert Last(acts) in Filter(acts, OfSport(Last(acts).sport));
  }

  // ----- Global summary -----

  /** `sum(f(a) for a in activites)` over an integer field. */
  function SumField(acts: seq<Activity>, f: Activity -> int): int
  {
    if acts == [] then 0 else SumField(DropLast(acts), f) + f(Last(acts))
  }

  /** `sum(a.distance or 0 for a in activites)` */
  function SumDistance(acts: seq<Activity>): real
  {
    if acts == [] then 0.0 else SumDistance(DropLast(acts)) + RealOrZero(Last(acts).distance)
  }

  /** obtenir_resume_global's result: the zeroed summary of an empty
      history, or the totals with the first and last dates. The sports are
      a set: `list(set(...))` has no defined order. */
  datatype GlobalSummary =
    | EmptySummary
    | Summary(
        count: nat,
        hours: real,
        km: real,
        calories: int,
        sports: set<string>,
        first: CalendarDate,
        last: CalendarDate,
        activeDays: int)

  /** StatistiquesService.obtenir_resume_global over the user's activities. */
  function GlobalSummaryOf(acts: seq<Activity>): (r: GlobalSummary)
    ensures acts == [] <==> r == EmptySummary
    ensures r.Summary? ==>
              && r.count == |acts|
              && (forall s :: s in r.sports <==> exists a :: a in acts && a.sport == s)
              && (exists a :: a in acts && a.date == r.first)
              && (exists a :: a in acts && a.date == r.last)
              && (forall a :: a in acts ==> Ordinal(r.first) <= Ordinal(a.date) <= Ordinal(r.last))
              && r.activeDays == Ordinal(r.last) - Ordinal(r.first) >= 0
  {
    if acts == [] then EmptySummary
    else
      var lo := FirstMaxIndex(acts, NewestFirst);
      var hi := FirstMaxIndex(acts, DateKey);
      var first, last := acts[lo].date, acts[hi].date;
      Summary(
        |acts|,
        SumField(acts, DurationKey) as real / 3600.0,
        SumDistance(acts) / 1000.0,
        SumField(acts, CaloriesKey),
        set a | a in acts :: a.sport,
        first,
        last,
        Ordinal(last) - Ordinal(first))
  }

  /** The summary's hours and kilometres are the sums that the weekly and
      per-sport statistics add up: `x or 0` and `if x:` agree. */
  lemma {:induction false} SummaryAgreesWithWeekly(acts: seq<Activity>)
    ensures SumField(acts, DurationKey) as real / 3600.0 == TotalAmount(acts, Hours)
    ensures SumDistance(acts) / 1000.0 == TotalAmount(acts, Kilometres)
  {
    if acts != [] {
      SummaryAgreesWithWeekly(DropLast(acts));
    }
  }

  // ----- The complete bundle -----

  /** `periode_analyse`: the window start (as an ordinal), today and the
      number of weeks. */
  datatype Period = Period(start: int, end: CalendarDate, weeks: int)

  datatype WeeklyBundle = WeeklyBundle(
    counts: WeeklyCounts,
    kilometres: Dict<string, real>,
    hours: Dict<string, real>,
    period: Period)

  /** The bundle obtenir_statistiques_completes returns. */
  function BundleOf(table: seq<Activity>, user: nat, today: CalendarDate, weeks: int): WeeklyBundle
  {
    var acts := UserWindow(table, user, today, weeks);
    WeeklyBundle(
      WeeklyCountsOf(acts, WeekOf),
      WeeklySumsOf(acts, Kilometres, WeekOf),
      WeeklySumsOf(acts, Hours, WeekOf),
      Period(WindowStart(today, weeks), today, weeks))
  }

  /** StatistiquesService.obtenir_statistiques_completes: the three weekly
      services, then the period; the first of them raises OverflowError
      when the window start is not a date. */
  method CompleteStatistics(table: seq<Activity>, user: nat, today: CalendarDate, weeks: int)
    returns (r: Outcome<WeeklyBundle>)
    ensures r.Raised? <==> !WindowOk(today, weeks)
    ensures r.Raised? ==> r.error == OverflowError
    ensures r.Ok? ==>
              && r.value.counts == WeeklyCountsOf(UserWindow(table, user, today, weeks), WeekOf)
              && r.value.kilometres == WeeklySumsOf(UserWindow(table, user, today, weeks), Kilometres, WeekOf)
              && r.value.hours == WeeklySumsOf(UserWindow(table, user, today, weeks), Hours, WeekOf)
              && r.value.period == Period(WindowStart(today, weeks), today, weeks)
              && 1 <= r.value.period.start <= MaxOrdinal
    ensures r == Windowed(today, weeks, BundleOf(table, user, today, weeks))
  {
    var counts := ActivitiesPerWeek(table, user, today, weeks);
    if counts.Raised? {
      return Raised(counts.error);
    }
    var km := KilometresPerWeek(table, user, today, weeks);
    var hours := HoursPerWeek(table, user, today, weeks);
    var start := DaysBefore(today, 7 * weeks);
    r := Ok(WeeklyBundle(counts.value, km.value, hours.value, Period(start.value, today, weeks)));
  }
}
