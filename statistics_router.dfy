/** The endpoint GET /statistiques/{user_id}/complet: the comma-separated
    section list, the weekly totals and means, the progression percentages
    per sport, the favourite sport and the dashboard windows. */
module StatisticsRouter {
  import opened Common
  import opened Seqs
  import opened Dicts
  import opened Calendar
  import opened Text
  import opened Rows
  import opened Statistics

  // ----- Query parameters -----

  /** `[s.strip() for s in text.split(',')]` */
  function CommaList(text: string): seq<string>
  {
    var parts := Split(text, ',');
    seq(|parts|, i requires 0 <= i < |parts| => Strip(parts[i]))
  }

  /** Stripping keeps a slice of its argument. */
  lemma StripSlice(s: string)
    ensures exists lo, hi :: 0 <= lo <= hi <= |s| && Strip(s) == s[lo..hi]
  {
    var l := StripLeft(s);
    var r := StripRight(l);
    var lo := |s| - |l|;
    var hi := lo + |r|;
    forall k | 0 <= k < |r| ensures r[k] == s[lo + k] {
      assert r[k] == l[k];
    }
    assert r == s[lo..hi];
  }

  /** The list has one name per comma-separated piece; no name contains a
      comma or starts or ends with whitespace. */
  lemma CommaListItems(text: string)
    ensures |CommaList(text)| == |Split(text, ',')|
    ensures forall i :: 0 <= i < |CommaList(text)| ==>
              var name := CommaList(text)[i];
              && ',' !in name
              && (name == [] || (!IsSpace(name[0]) && !IsSpace(name[|name| - 1])))
  {
    var parts := Split(text, ',');
    forall i | 0 <= i < |parts|
      ensures var name := Strip(parts[i]);
              && ',' !in name
              && (name == [] || (!IsSpace(name[0]) && !IsSpace(name[|name| - 1])))
    {
      var name := Strip(parts[i]);
      StripSlice(parts[i]);
      var lo, hi :| 0 <= lo <= hi <= |parts[i]| && name == parts[i][lo..hi];
      forall k | 0 <= k < |name| ensures name[k] != ',' {
        assert name[k] == parts[i][lo + k];
      }
      var l := StripLeft(parts[i]);
      if name != [] {
        assert name[0] == l[0];
      }
    }
  }

  /** None of the six section names the endpoint knows is selected. */
  predicate NoKnownSection(sections: seq<string>)
  {
    && "resume" !in sections
    && "hebdo" !in sections
    && "sports" !in sections
    && "records" !in sections
    && "progression" !in sections
    && "tableau_bord" !in sections
  }

  /** `if sports:` on the optional query parameter. */
  predicate SportsGiven(sports: Option<string>)
  {
    sports.Some? && sports.value != []
  }

  // ----- Weekly section -----

  /** `total / nb_semaines if nb_semaines > 0 else 0` */
  function PerWeek(total: real, weeks: int): real
  {
    if weeks > 0 then total / weeks as real else 0.0
  }

  /** The "totaux" block of the weekly section. */
  datatype WeeklyTotals = WeeklyTotals(
    activities: int,
    hours: real,
    km: real,
    meanActivities: real,
    meanHours: real,
    meanKm: real)

  datatype WeeklyReport = WeeklyReport(
    weeks: int,
    counts: WeeklyCounts,
    hours: Dict<string, real>,
    km: Dict<string, real>,
    totals: WeeklyTotals)

  /** The totals of the three weekly dictionaries and their means per
      week. */
  function WeeklyTotalsOf(counts: WeeklyCounts, hours: Dict<string, real>, km: Dict<string, real>, weeks: int): WeeklyTotals
  {
    var n, h, k := CellTotal(counts), SumRealValues(hours), SumRealValues(km);
    WeeklyTotals(n, h, k, PerWeek(n as real, weeks), PerWeek(h, weeks), PerWeek(k, weeks))
  }

  /** `mean` spreads `total` over `weeks`: times the weeks it is the total
      when there are any, and 0 otherwise. */
  predicate MeanOver(mean: real, total: real, weeks: int)
  {
    if weeks > 0 then mean * weeks as real == total else mean == 0.0
  }

  lemma PerWeekIsMean(total: real, weeks: int)
    ensures MeanOver(PerWeek(total, weeks), total, weeks)
  {
  }

  /** The weekly totals count every activity of the window once and add up
      every activity's hours and kilometres, and each mean spreads its
      total over the weeks. */
  lemma WeeklyTotalsMeaning(acts: seq<Activity>, weekOf: Activity -> string, weeks: int)
    ensures var totals := WeeklyTotalsOf(
              WeeklyCountsOf(acts, weekOf), WeeklySumsOf(acts, Hours, weekOf), WeeklySumsOf(acts, Kilometres, weekOf), weeks);
            && totals.activities == |acts|
            && totals.hours == TotalAmount(acts, Hours)
            && totals.km == TotalAmount(acts, Kilometres)
            && MeanOver(totals.meanActivities, |acts| as real, weeks)
            && MeanOver(totals.meanHours, totals.hours, weeks)
            && MeanOver(totals.meanKm, totals.km, weeks)
  {
    WeeklyTotal(acts, weekOf);
    WeeklySumsTotal(acts, Hours, weekOf);
    WeeklySumsTotal(acts, Kilometres, weekOf);
    PerWeekIsMean(|acts| as real, weeks);
    PerWeekIsMean(TotalAmount(acts, Hours), weeks);
    PerWeekIsMean(TotalAmount(acts, Kilometres), weeks);
  }

  // ----- Progression section -----

  /** The three "progression" percentages; their `:+.1f%` rendering is not
      modelled. */
  datatype Changes = Changes(duration: real, distance: real, calories: real)

  /** A sport's progression report with its percentages when it has at
      least two activities. */
  datatype ProgressionEntry = ProgressionEntry(report: ProgressionReport, change: Option<Changes>)

  /** `(fin - debut) / debut * 100 if debut > 0 else 0` */
  function PercentChange(start: real, end: real): real
  {
    if start > 0.0 then (end - start) / start * 100.0 else 0.0
  }

  /** A zero or negative baseline gives 0; otherwise the change is positive
      exactly when the value grew, -100 when it dropped to 0, and applying
      it to the baseline gives the final value back. */
  lemma PercentChangeMeaning(start: real, end: real)
    ensures start <= 0.0 ==> PercentChange(start, end) == 0.0
    ensures start > 0.0 ==>
              && (PercentChange(start, end) > 0.0 <==> end > start)
              && (PercentChange(start, end) < 0.0 <==> end < start)
              && (end == 0.0 ==> PercentChange(start, end) == -100.0)
              && start + start * PercentChange(start, end) / 100.0 == end
  {
    if start > 0.0 {
      var q := (end - start) / start;
      assert q * start == end - start;
      ProductSign(q, start);
      assert PercentChange(start, end) == q * 100.0;
      assert start * (q * 100.0) / 100.0 == start * q;
      if end == 0.0 {
        ProductSign(q + 1.0, start);
      }
    }
  }

  lemma ProductSign(q: real, s: real)
    requires s > 0.0
    ensures q * s > 0.0 <==> q > 0.0
    ensures q * s < 0.0 <==> q < 0.0
    ensures q * s == 0.0 <==> q == 0.0
  {
  }

  function ChangesOf(p: ProgressionReport): Changes
    requires p.Progression?
  {
    Changes(
      PercentChange(p.early.minutes, p.late.minutes),
      PercentChange(p.early.km, p.late.km),
      PercentChange(p.early.calories, p.late.calories))
  }

  /** The report with `progression` filled in when `nombre_activites >= 2`. */
  function EntryOf(p: ProgressionReport): ProgressionEntry
  {
    ProgressionEntry(p, if p.Progression? && p.count >= 2 then Some(ChangesOf(p)) else None)
  }

  /** `nombre_activites`, read as 0 from a report without activities. */
  function ActivityCount(p: ProgressionReport): int
  {
    if p.Progression? then p.count else 0
  }

  /** obtenir_progression for each sport, over one user and window. */
  function ReportsIn(table: seq<Activity>, user: nat, today: CalendarDate, weeks: int): string -> ProgressionReport
  {
    (sport: string) => ProgressionReportOf(table, user, sport, today, weeks)
  }

  /** `progressions` after the loop has seen the sports `sports`, whose
      reports `reportOf` gives. */
  function ProgressionsOf(sports: seq<string>, reportOf: string -> ProgressionReport): Dict<string, ProgressionEntry>
  {
    if sports == [] then []
    else
      var prev := ProgressionsOf(DropLast(sports), reportOf);
      var p := reportOf(Last(sports));
      if ActivityCount(p) > 0 then Put(prev, Last(sports), EntryOf(p)) else prev
  }

  /** The loop of the progression section, with a report without
      activities counted as 0 activities (see the as-written variant
      below); its first obtenir_progression raises OverflowError when the
      window start is not a date. */
  method ProgressionSection(table: seq<Activity>, user: nat, sports: seq<string>, today: CalendarDate, weeks: int)
    returns (r: Outcome<Dict<string, ProgressionEntry>>)
    ensures r == if sports == [] || WindowOk(today, weeks)
                 then Ok(ProgressionsOf(sports, ReportsIn(table, user, today, weeks)))
                 else Raised(OverflowError)
  {
    var progressions: Dict<string, ProgressionEntry> := [];
    ghost var reportOf := ReportsIn(table, user, today, weeks);
    var i := 0;
    while i < |sports|
      invariant 0 <= i <= |sports|
      invariant i > 0 ==> WindowOk(today, weeks)
      invariant progressions == ProgressionsOf(sports[..i], reportOf)
    {
      var report := ProgressionOf(table, user, sports[i], today, weeks);
      if report.Raised? {
        return Raised(report.error);
      }
      var p := report.value;
      assert p == reportOf(sports[i]);
      var entry := ProgressionEntry(p, None);
      if p.Progression? && p.count >= 2 {
        entry := ProgressionEntry(p, Some(ChangesOf(p)));
      }
      assert entry == EntryOf(p);
      ProgressionsStep(sports, reportOf, i);
      if ActivityCount(p) > 0 {
        progressions := Put(progressions, sports[i], entry);
      }
      i := i + 1;
    }
    assert sports[..i] == sports;
    r := Ok(progressions);
  }

  /** One more sport adds its entry when its report counts an activity. */
  lemma ProgressionsStep(sports: seq<string>, reportOf: string -> ProgressionReport, i: nat)
    requires i < |sports|
    ensures var prev, p := ProgressionsOf(sports[..i], reportOf), reportOf(sports[i]);
            ProgressionsOf(sports[..i + 1], reportOf)
              == if ActivityCount(p) > 0 then Put(prev, sports[i], EntryOf(p)) else prev
  {
    assert DropLast(sports[..i + 1]) == sports[..i];
  }

  /** A sport is in the progressions exactly when it was asked for and has
      an activity in the window; its entry carries percentages exactly when
      it has two activities or more. */
  lemma ProgressionsEntry(table: seq<Activity>, user: nat, sports: seq<string>, today: CalendarDate, weeks: int, sport: string)
    ensures var p := ProgressionReportOf(table, user, sport, today, weeks);
            Get(ProgressionsOf(sports, ReportsIn(table, user, today, weeks)), sport)
              == if sport in sports && Filter(UserWindow(table, user, today, weeks), OfSport(sport)) != []
                 then Some(EntryOf(p)) else None
    ensures var p := ProgressionReportOf(table, user, sport, today, weeks);
            EntryOf(p).change.Some? <==> |Filter(UserWindow(table, user, today, weeks), OfSport(sport))| >= 2
  {
    var reportOf := ReportsIn(table, user, today, weeks);
    ProgressionsOfEntry(sports, reportOf, sport);
    ProgressionCount(table, user, sport, today, weeks);
    assert reportOf(sport) == ProgressionReportOf(table, user, sport, today, weeks);
  }

  /** A sport is in the progressions exactly when it is listed and its
      report counts an activity, and then it holds that report's entry. */
  lemma {:induction false} ProgressionsOfEntry(sports: seq<string>, reportOf: string -> ProgressionReport, sport: string)
    ensures Get(ProgressionsOf(sports, reportOf), sport)
              == if sport in sports && ActivityCount(reportOf(sport)) > 0 then Some(EntryOf(reportOf(sport))) else None
  {
    if sports != [] {
      var init, last := DropLast(sports), Last(sports);
      assert sports == init + [last];
      ProgressionsOfEntry(init, reportOf, sport);
      GetPut(ProgressionsOf(init, reportOf), last, EntryOf(reportOf(last)), sport);
    }
  }

  /** A sport's progression counts its activities in the window. */
  lemma ProgressionCount(table: seq<Activity>, user: nat, sport: string, today: CalendarDate, weeks: int)
    ensures ActivityCount(ProgressionReportOf(table, user, sport, today, weeks))
         == |Filter(UserWindow(table, user, today, weeks), OfSport(sport))|
  {
    var start := WindowStart(today, weeks);
    FilterFilter(table, InWindow(user, start), OfSport(sport), InSportWindow(user, sport, start));
  }

  /** When no sports are given, the loop runs over the keys of the
      per-sport statistics of the same window, and each of those sports has
      an activity there. */
  lemma PerSportKeysHaveActivities(table: seq<Activity>, user: nat, today: CalendarDate, weeks: int)
    requires PerSportIn(table, user, today, weeks).Ok?
    ensures var keys := Keys(PerSportIn(table, user, today, weeks).value);
            forall i :: 0 <= i < |keys| ==> ReportsIn(table, user, today, weeks)(keys[i]).Progression?
  {
    var acts := UserWindow(table, user, today, weeks);
    var d := PerSportOf(acts).value;
    var keys := Keys(d);
    forall i | 0 <= i < |keys| ensures ReportsIn(table, user, today, weeks)(keys[i]).Progression? {
      GetIndex(d, keys[i]);
      PerSportEntry(acts, keys[i]);
      ProgressionNonEmpty(table, user, keys[i], today, weeks);
    }
  }

  /** The loop as written: a sport without activities gets a report with
      no `nombre_activites`, and `progression['nombre_activites']` raises
      KeyError. */
  function ProgressionsAsWrittenOf(sports: seq<string>, reportOf: string -> ProgressionReport)
    : Outcome<Dict<string, ProgressionEntry>>
  {
    if sports == [] then Ok([])
    else
      match ProgressionsAsWrittenOf(DropLast(sports), reportOf)
      case Raised(e) => Raised(e)
      case Ok(prev) =>
        var p := reportOf(Last(sports));
        if p.NoActivities? then Raised(KeyError)
        else Ok(if p.count > 0 then Put(prev, Last(sports), EntryOf(p)) else prev)
  }

  /** The loop as written raises exactly when a listed sport has no
      activity, and otherwise agrees with ProgressionsOf. */
  lemma {:induction false} AsWrittenRaises(sports: seq<string>, reportOf: string -> ProgressionReport)
    ensures var r := ProgressionsAsWrittenOf(sports, reportOf);
            && (r.Raised? <==> exists i :: 0 <= i < |sports| && reportOf(sports[i]).NoActivities?)
            && (r.Raised? ==> r.error == KeyError)
            && (r.Ok? ==> r.value == ProgressionsOf(sports, reportOf))
  {
    if sports != [] {
      var init := DropLast(sports);
      AsWrittenRaises(init, reportOf);
      if exists i :: 0 <= i < |sports| && reportOf(sports[i]).NoActivities? {
        var i :| 0 <= i < |sports| && reportOf(sports[i]).NoActivities?;
        if i < |init| {
          assert init[i] == sports[i];
        }
      }
      if exists i :: 0 <= i < |init| && reportOf(init[i]).NoActivities? {
        var i :| 0 <= i < |init| && reportOf(init[i]).NoActivities?;
        assert sports[i] == init[i];
      }
    }
  }

  /** A user without activities who asks for the progression of "course"
      gets a KeyError instead of an empty section. */
  lemma AsWrittenRaisesOnAnUnpractisedSport(today: CalendarDate)
    ensures ProgressionsAsWrittenOf(["course"], ReportsIn([], 1, today, 12)) == Raised(KeyError)
    ensures ProgressionsOf(["course"], ReportsIn([], 1, today, 12)) == []
  {
    assert DropLast(["course"]) == [];
  }

  /** The progression loop of the endpoint as written; its first
      obtenir_progression raises OverflowError when the window start is
      not a date. */
  method ProgressionSectionAsWritten(table: seq<Activity>, user: nat, sports: seq<string>, today: CalendarDate, weeks: int)
    returns (r: Outcome<Dict<string, ProgressionEntry>>)
    ensures r == if sports == [] || WindowOk(today, weeks)
                 then ProgressionsAsWrittenOf(sports, ReportsIn(table, user, today, weeks))
                 else Raised(OverflowError)
  {
    var progressions: Dict<string, ProgressionEntry> := [];
    var i := 0;
    while i < |sports|
      invariant 0 <= i <= |sports|
      invariant i > 0 ==> WindowOk(today, weeks)
      invariant ProgressionsAsWrittenOf(sports[..i], ReportsIn(table, user, today, weeks)) == Ok(progressions)
    {
      assert DropLast(sports[..i + 1]) == sports[..i];
      var report := ProgressionOf(table, user, sports[i], today, weeks);
      if report.Raised? {
        return Raised(report.error);
      }
      var p := report.value;
      if p.NoActivities? {
        AsWrittenRaisedStays(sports, ReportsIn(table, user, today, weeks), i + 1);
        return Raised(KeyError);
      }
      var entry := ProgressionEntry(p, None);
      if p.count >= 2 {
        entry := ProgressionEntry(p, Some(ChangesOf(p)));
      }
      if p.count > 0 {
        progressions := Put(progressions, sports[i], entry);
      }
      i := i + 1;
    }
    assert sports[..i] == sports;
    r := Ok(progressions);
  }

  lemma {:induction false} AsWrittenRaisedStays(sports: seq<string>, reportOf: string -> ProgressionReport, i: int)
    requires 0 <= i <= |sports|
    requires ProgressionsAsWrittenOf(sports[..i], reportOf) == Raised(KeyError)
    ensures ProgressionsAsWrittenOf(sports, reportOf) == Raised(KeyError)
    decreases |sports| - i
  {
    if i < |sports| {
      assert DropLast(sports[..i + 1]) == sports[..i];
      AsWrittenRaisedStays(sports, reportOf, i + 1);
    } else {
      assert sports[..i] == sports;
    }
  }

  // ----- Dashboard -----

  function CountKey(e: (string, SportTotals)): int
  {
    e.1.count
  }

  /** `max(stats_sports.items(), key=...)[0]`, None without statistics. */
  function FavouriteSport(stats: Dict<string, SportTotals>): (r: Option<string>)
    ensures r.None? <==> stats == []
    ensures r.Some? ==>
              exists i ::
                && 0 <= i < |stats| && stats[i].0 == r.value
                && (forall j :: 0 <= j < |stats| ==> stats[j].1.count <= stats[i].1.count)
                && (forall j :: 0 <= j < i ==> stats[j].1.count < stats[i].1.count)
  {
    if stats == [] then None
    else
      var i := FirstMaxIndex(stats, CountKey);
      assert forall j :: 0 <= j < |stats| ==> CountKey(stats[j]) == stats[j].1.count;
      Some(stats[i].0)
  }

  /** The favourite sport is one the user practised most often in the
      window, and there is one exactly when the user has an activity
      there. */
  lemma FavouriteMostPractised(acts: seq<Activity>)
    requires PerSportOf(acts).Ok?
    ensures var fav := FavouriteSport(PerSportOf(acts).value);
            && (fav.None? <==> acts == [])
            && (fav.Some? ==> forall sport :: CountWhere(acts, OfSport(sport)) <= CountWhere(acts, OfSport(fav.value)))
  {
    var d := PerSportOf(acts).value;
    PerSportUnique(acts);
    if acts != [] {
      PerSportEntry(acts, Last(acts).sport);
      FilterMembers(acts, OfSport(Last(acts).sport));
      assert Last(acts) in Filter(acts, OfSport(Last(acts).sport));
    }
    var fav := FavouriteSport(d);
    if fav.Some? {
      var i := FirstMaxIndex(d, CountKey);
      assert forall j :: 0 <= j < |d| ==> CountKey(d[j]) == d[j].1.count;
      GetIndex(d, fav.value);
      PerSportEntry(acts, fav.value);
      TotalsAgree(Filter(acts, OfSport(fav.value)));
      forall sport ensures CountWhere(acts, OfSport(sport)) <= CountWhere(acts, OfSport(fav.value)) {
        SportCountBounded(acts, sport, d[i].1.count);
      }
    }
  }

  /** A bound on every per-sport count bounds how often any sport was
      practised. */
  lemma SportCountBounded(acts: seq<Activity>, sport: string, bound: int)
    requires PerSportOf(acts).Ok?
    requires forall j :: 0 <= j < |PerSportOf(acts).value| ==> PerSportOf(acts).value[j].1.count <= bound
    requires 0 <= bound
    ensures CountWhere(acts, OfSport(sport)) <= bound
  {
    var d := PerSportOf(acts).value;
    PerSportUnique(acts);
    PerSportEntry(acts, sport);
    var group := Filter(acts, OfSport(sport));
    if group != [] {
      GetIndex(d, sport);
      var j :| 0 <= j < |d| && d[j].0 == sport;
      TotalsAgree(group);
    }
  }

  /** The "tableau_bord" section. */
  datatype Dashboard = Dashboard(
    activitiesWeek: int,
    activitiesMonth: int,
    activitiesTotal: int,
    hoursWeek: real,
    hoursMonth: real,
    hoursTotal: real,
    kmWeek: real,
    kmMonth: real,
    kmTotal: real,
    favourite: Option<string>,
    lastActivity: Option<CalendarDate>,
    activeDays: int)

  /** The dashboard from the 1-week and 4-week bundles, the global summary
      (its `.get(..., 0)` defaults when it is empty) and the 12-week
      per-sport statistics. */
  function DashboardOf(week: WeeklyBundle, month: WeeklyBundle, summary: GlobalSummary, perSport: Dict<string, SportTotals>): Dashboard
  {
    Dashboard(
      CellTotal(week.counts),
      CellTotal(month.counts),
      if summary.Summary? then summary.count else 0,
      SumRealValues(week.hours),
      SumRealValues(month.hours),
      if summary.Summary? then summary.hours else 0.0,
      SumRealValues(week.kilometres),
      SumRealValues(month.kilometres),
      if summary.Summary? then summary.km else 0.0,
      FavouriteSport(perSport),
      if summary.Summary? then Some(summary.last) else None,
      if summary.Summary? then summary.activeDays else 0)
  }

  /** The 7-day figures never exceed the 30-day ones: the 1-week window lies
      inside the 4-week window (for the hours and kilometres, as long as no
      activity has a negative duration or distance). */
  lemma DashboardWindows(table: seq<Activity>, user: nat, today: CalendarDate)
    requires forall i :: 0 <= i < |table| ==> Amount(table[i], Hours) >= 0.0 && Amount(table[i], Kilometres) >= 0.0
    ensures var d := DashboardOf(BundleOf(table, user, today, 1), BundleOf(table, user, today, 4), EmptySummary, []);
            && d.activitiesWeek <= d.activitiesMonth
            && d.hoursWeek <= d.hoursMonth
            && d.kmWeek <= d.kmMonth
  {
    var week, month := UserWindow(table, user, today, 1), UserWindow(table, user, today, 4);
    var p, q := InWindow(user, WindowStart(today, 1)), InWindow(user, WindowStart(today, 4));
    WeeklyTotal(week, WeekOf);
    WeeklyTotal(month, WeekOf);
    FilterWeaker(table, p, q);
    WeeklySumsTotal(week, Hours, WeekOf);
    WeeklySumsTotal(month, Hours, WeekOf);
    TotalAmountWeaker(table, p, q, Hours);
    WeeklySumsTotal(week, Kilometres, WeekOf);
    WeeklySumsTotal(month, Kilometres, WeekOf);
    TotalAmountWeaker(table, p, q, Kilometres);
  }

  // ----- The endpoint -----

  /** "par_sport": the window length and the per-sport statistics. */
  datatype PerSportSection = PerSportSection(weeks: int, stats: Dict<string, SportTotals>)

  /** The response: one optional entry per section. */
  datatype Report = Report(
    summary: Option<GlobalSummary>,
    weekly: Option<WeeklyReport>,
    perSport: Option<PerSportSection>,
    records: Option<Dict<string, SportRecords>>,
    progressions: Option<Dict<string, ProgressionEntry>>,
    dashboard: Option<Dashboard>)

  /** The weekly report of the window: its three weekly statistics and
      their totals and means. */
  predicate WeeklyMatches(w: WeeklyReport, table: seq<Activity>, user: nat, today: CalendarDate, weeks: int)
  {
    var window := UserWindow(table, user, today, weeks);
    && w.weeks == weeks
    && w.counts == WeeklyCountsOf(window, WeekOf)
    && w.hours == WeeklySumsOf(window, Hours, WeekOf)
    && w.km == WeeklySumsOf(window, Kilometres, WeekOf)
    && w.totals == WeeklyTotalsOf(w.counts, w.hours, w.km, weeks)
  }

  /** The "hebdo" section: activities, hours, then kilometres per week;
      the first raises OverflowError when the window start is not a
      date. */
  method WeeklySection(table: seq<Activity>, user: nat, today: CalendarDate, weeks: int) returns (r: Outcome<WeeklyReport>)
    ensures ErrorOf(r) == WindowError(today, weeks)
    ensures r.Ok? ==> WeeklyMatches(r.value, table, user, today, weeks)
  {
    var counts := ActivitiesPerWeek(table, user, today, weeks);
    if counts.Raised? {
      return Raised(counts.error);
    }
    var hours := HoursPerWeek(table, user, today, weeks);
    var km := KilometresPerWeek(table, user, today, weeks);
    var totals := WeeklyTotalsOf(counts.value, hours.value, km.value, weeks);
    r := Ok(WeeklyReport(weeks, counts.value, hours.value, km.value, totals));
  }

  /** The sports the progression loop runs over: the listed ones, or else
      the keys of the window's per-sport statistics. */
  function LoopSports(table: seq<Activity>, user: nat, today: CalendarDate, weeks: int, sports: Option<string>): seq<string>
  {
    if SportsGiven(sports) then CommaList(sports.value)
    else
      match PerSportIn(table, user, today, weeks)
      case Ok(stats) => Keys(stats)
      case Raised(_) => []
  }

  /** One of `sports` has no activity of the user in the window. */
  predicate Unpractised(table: seq<Activity>, user: nat, today: CalendarDate, weeks: int, sports: seq<string>)
  {
    exists i :: 0 <= i < |sports| && Filter(UserWindow(table, user, today, weeks), OfSport(sports[i])) == []
  }

  /** A sport's report has no activities exactly when the user has no
      activity of it in the window. */
  lemma UnpractisedReports(table: seq<Activity>, user: nat, today: CalendarDate, weeks: int, sports: seq<string>)
    ensures (exists i :: 0 <= i < |sports| && ReportsIn(table, user, today, weeks)(sports[i]).NoActivities?)
        <==> Unpractised(table, user, today, weeks, sports)
  {
    forall i | 0 <= i < |sports|
      ensures ReportsIn(table, user, today, weeks)(sports[i]).NoActivities?
          <==> Filter(UserWindow(table, user, today, weeks), OfSport(sports[i])) == []
    {
      ProgressionNonEmpty(table, user, sports[i], today, weeks);
    }
  }

  /** What the progression section raises as written: without a sport list,
      what the per-sport statistics raise; with one, the OverflowError of
      the window start, else the KeyError of a listed sport the user has
      not practised in the window. */
  function ProgressionsError(table: seq<Activity>, user: nat, today: CalendarDate, weeks: int, sports: Option<string>): Option<PyError>
  {
    if !SportsGiven(sports) then ErrorOf(PerSportIn(table, user, today, weeks))
    else if !WindowOk(today, weeks) then Some(OverflowError)
    else if Unpractised(table, user, today, weeks, CommaList(sports.value)) then Some(KeyError)
    else None
  }

  /** The same with the loop corrected: no KeyError. */
  function CorrectedProgressionsError(table: seq<Activity>, user: nat, today: CalendarDate, weeks: int, sports: Option<string>): Option<PyError>
  {
    if !SportsGiven(sports) then ErrorOf(PerSportIn(table, user, today, weeks))
    else WindowError(today, weeks)
  }

  /** The "progression" section as written: the listed sports, or the
      sports of the per-sport statistics, whose error it passes on. */
  method ProgressionsSection(table: seq<Activity>, user: nat, today: CalendarDate, weeks: int, sports: Option<string>)
    returns (r: Outcome<Dict<string, ProgressionEntry>>)
    ensures ErrorOf(r) == ProgressionsError(table, user, today, weeks, sports)
    ensures r.Ok? ==> r.value == ProgressionsOf(LoopSports(table, user, today, weeks, sports), ReportsIn(table, user, today, weeks))
  {
    var reportOf := ReportsIn(table, user, today, weeks);
    var sportList: seq<string>;
    if SportsGiven(sports) {
      sportList := CommaList(sports.value);
      CommaListItems(sports.value);
      UnpractisedReports(table, user, today, weeks, sportList);
    } else {
      var stats := StatisticsPerSport(table, user, today, weeks);
      if stats.Raised? {
        return Raised(stats.error);
      }
      sportList := Keys(stats.value);
      PerSportKeysHaveActivities(table, user, today, weeks);
      assert sportList == Keys(PerSportIn(table, user, today, weeks).value);
      forall i | 0 <= i < |sportList| ensures reportOf(sportList[i]).Progression? {
        assert sportList[i] == Keys(PerSportIn(table, user, today, weeks).value)[i];
      }
    }
    r := ProgressionSectionAsWritten(table, user, sportList, today, weeks);
    AsWrittenRaises(sportList, reportOf);
  }

  /** The "progression" section with the corrected loop: it raises only
      what the per-sport statistics or the window start raise. */
  method ProgressionsSectionCorrected(table: seq<Activity>, user: nat, today: CalendarDate, weeks: int, sports: Option<string>)
    returns (r: Outcome<Dict<string, ProgressionEntry>>)
    ensures ErrorOf(r) == CorrectedProgressionsError(table, user, today, weeks, sports)
    ensures r.Ok? ==> r.value == ProgressionsOf(LoopSports(table, user, today, weeks, sports), ReportsIn(table, user, today, weeks))
  {
    var sportList: seq<string>;
    if SportsGiven(sports) {
      sportList := CommaList(sports.value);
      CommaListItems(sports.value);
    } else {
      var stats := StatisticsPerSport(table, user, today, weeks);
      if stats.Raised? {
        return Raised(stats.error);
      }
      sportList := Keys(stats.value);
    }
    r := ProgressionSection(table, user, sportList, today, weeks);
  }

  /** The "tableau_bord" section: the 1-week and 4-week bundles, the global
      summary and the 12-week per-sport statistics, in that order; it
      raises what those per-sport statistics raise, since a shorter window
      overflows only when the 12-week one does. */
  method DashboardSection(table: seq<Activity>, user: nat, today: CalendarDate) returns (r: Outcome<Dashboard>)
    ensures ErrorOf(r) == ErrorOf(PerSportIn(table, user, today, 12))
    ensures r.Ok? ==>
              r.value == DashboardOf(
                BundleOf(table, user, today, 1), BundleOf(table, user, today, 4),
                GlobalSummaryOf(Filter(table, OwnedBy(user))),
                PerSportIn(table, user, today, 12).value)
  {
    if WindowOk(today, 12) {
      ShorterWindowOk(today, 1, 12);
      ShorterWindowOk(today, 4, 12);
    }
    var week := CompleteStatistics(table, user, today, 1);
    if week.Raised? {
      return Raised(week.error);
    }
    var month := CompleteStatistics(table, user, today, 4);
    if month.Raised? {
      return Raised(month.error);
    }
    var resume := GlobalSummaryOf(Filter(table, OwnedBy(user)));
    var stats := StatisticsPerSport(table, user, today, 12);
    if stats.Raised? {
      return Raised(stats.error);
    }
    r := Ok(DashboardOf(week.value, month.value, resume, stats.value));
  }

  /** The "resume", "hebdo", "sports" and "records" entries are present
      exactly when requested, and then hold the user's global summary, the
      weekly report of the window, its per-sport statistics and the
      user's personal records. */
  predicate FirstSectionsMatch(
    summary: Option<GlobalSummary>, weekly: Option<WeeklyReport>, perSport: Option<PerSportSection>,
    records: Option<Dict<string, SportRecords>>,
    table: seq<Activity>, user: nat, today: CalendarDate, weeks: int, secs: seq<string>)
  {
    && (summary.Some? <==> "resume" in secs)
    && (summary.Some? ==> summary.value == GlobalSummaryOf(Filter(table, OwnedBy(user))))
    && (weekly.Some? <==> "hebdo" in secs)
    && (weekly.Some? ==> WeeklyMatches(weekly.value, table, user, today, weeks))
    && (perSport.Some? <==> "sports" in secs)
    && (perSport.Some? ==>
          && PerSportIn(table, user, today, weeks).Ok?
          && perSport.value == PerSportSection(weeks, PerSportIn(table, user, today, weeks).value))
    && (records.Some? <==> "records" in secs)
    && (records.Some? ==> records.value == RecordsOf(Filter(table, OwnedBy(user))))
  }

  /** The "progression" and "tableau_bord" entries are present exactly when
      requested; the progressions cover the listed sports, or else the
      sports of the per-sport statistics, and the dashboard gathers the
      last week, the last four weeks, the global summary and twelve weeks
      of per-sport statistics. */
  predicate LastSectionsMatch(
    progressions: Option<Dict<string, ProgressionEntry>>, dashboard: Option<Dashboard>,
    table: seq<Activity>, user: nat, today: CalendarDate, weeks: int, secs: seq<string>, sports: Option<string>)
  {
    && (progressions.Some? <==> "progression" in secs)
    && (progressions.Some? ==>
          progressions.value == ProgressionsOf(LoopSports(table, user, today, weeks, sports), ReportsIn(table, user, today, weeks)))
    && (dashboard.Some? <==> "tableau_bord" in secs)
    && (dashboard.Some? ==>
          && PerSportIn(table, user, today, 12).Ok?
          && dashboard.value == DashboardOf(
               BundleOf(table, user, today, 1), BundleOf(table, user, today, 4),
               GlobalSummaryOf(Filter(table, OwnedBy(user))),
               PerSportIn(table, user, today, 12).value))
  }

  /** The exception the first four sections raise, in their order. */
  function FirstSectionsError(table: seq<Activity>, user: nat, today: CalendarDate, weeks: int, secs: seq<string>): Option<PyError>
  {
    OrElse(
      if "hebdo" in secs then WindowError(today, weeks) else None,
      if "sports" in secs then ErrorOf(PerSportIn(table, user, today, weeks)) else None)
  }

  /** The exception the last two sections raise, given what the
      progression section raises. */
  function LastSectionsError(progressionsError: Option<PyError>, table: seq<Activity>, user: nat, today: CalendarDate, secs: seq<string>)
    : Option<PyError>
  {
    OrElse(
      if "progression" in secs then progressionsError else None,
      if "tableau_bord" in secs then ErrorOf(PerSportIn(table, user, today, 12)) else None)
  }

  /** The exception of the endpoint, given what its progression section
      raises: the first failing section's, else 400 when no known section
      was asked for. */
  function RouteErrorWith(
    progressionsError: Option<PyError>, table: seq<Activity>, user: nat, today: CalendarDate, weeks: int, secs: seq<string>)
    : Option<PyError>
  {
    OrElse(
      FirstSectionsError(table, user, today, weeks, secs),
      OrElse(
        LastSectionsError(progressionsError, table, user, today, secs),
        if NoKnownSection(secs) then Some(HttpError(400)) else None))
  }

  /** The exception of the endpoint as written. */
  function RouteError(table: seq<Activity>, user: nat, today: CalendarDate, weeks: int, secs: seq<string>, sports: Option<string>)
    : Option<PyError>
  {
    RouteErrorWith(ProgressionsError(table, user, today, weeks, sports), table, user, today, weeks, secs)
  }

  /** The exception of the endpoint with the progression loop corrected. */
  function CorrectedRouteError(table: seq<Activity>, user: nat, today: CalendarDate, weeks: int, secs: seq<string>, sports: Option<string>)
    : Option<PyError>
  {
    RouteErrorWith(CorrectedProgressionsError(table, user, today, weeks, sports), table, user, today, weeks, secs)
  }

  /** The "resume", "hebdo", "sports" and "records" sections of the
      endpoint, computed in that order; the last two are left empty. */
  method FirstSections(table: seq<Activity>, user: nat, today: CalendarDate, weeks: int, secs: seq<string>)
    returns (r: Outcome<Report>)
    ensures ErrorOf(r) == FirstSectionsError(table, user, today, weeks, secs)
    ensures r.Ok? ==>
              && FirstSectionsMatch(r.value.summary, r.value.weekly, r.value.perSport, r.value.records, table, user, today, weeks, secs)
              && r.value.progressions.None? && r.value.dashboard.None?
  {
    var summary: Option<GlobalSummary> := None;
    var weekly: Option<WeeklyReport> := None;
    var perSport: Option<PerSportSection> := None;
    var records: Option<Dict<string, SportRecords>> := None;
    if "resume" in secs {
      summary := Some(GlobalSummaryOf(Filter(table, OwnedBy(user))));
    }
    if "hebdo" in secs {
      var w := WeeklySection(table, user, today, weeks);
      if w.Raised? {
        return Raised(w.error);
      }
      weekly := Some(w.value);
    }
    if "sports" in secs {
      var stats := StatisticsPerSport(table, user, today, weeks);
      if stats.Raised? {
        return Raised(stats.error);
      }
      perSport := Some(PerSportSection(weeks, stats.value));
    }
    if "records" in secs {
      var best := PersonalRecords(table, user);
      records := Some(best);
    }
    r := Ok(Report(summary, weekly, perSport, records, None, None));
  }

  /** The "progression" and "tableau_bord" sections of the endpoint as
      written, computed in that order. */
  method LastSections(
    table: seq<Activity>, user: nat, today: CalendarDate, weeks: int, secs: seq<string>, sports: Option<string>)
    returns (r: Outcome<(Option<Dict<string, ProgressionEntry>>, Option<Dashboard>)>)
    ensures ErrorOf(r) == LastSectionsError(ProgressionsError(table, user, today, weeks, sports), table, user, today, secs)
    ensures r.Ok? ==> LastSectionsMatch(r.value.0, r.value.1, table, user, today, weeks, secs, sports)
  {
    var progressions: Option<Dict<string, ProgressionEntry>> := None;
    var dashboard: Option<Dashboard> := None;
    if "progression" in secs {
      var section := ProgressionsSection(table, user, today, weeks, sports);
      if section.Raised? {
        return Raised(section.error);
      }
      progressions := Some(section.value);
    }
    if "tableau_bord" in secs {
      var board := DashboardSection(table, user, today);
      if board.Raised? {
        return Raised(board.error);
      }
      dashboard := Some(board.value);
    }
    r := Ok((progressions, dashboard));
  }

  /** The same two sections with the corrected progression loop. */
  method LastSectionsCorrected(
    table: seq<Activity>, user: nat, today: CalendarDate, weeks: int, secs: seq<string>, sports: Option<string>)
    returns (r: Outcome<(Option<Dict<string, ProgressionEntry>>, Option<Dashboard>)>)
    ensures ErrorOf(r) == LastSectionsError(CorrectedProgressionsError(table, user, today, weeks, sports), table, user, today, secs)
    ensures r.Ok? ==> LastSectionsMatch(r.value.0, r.value.1, table, user, today, weeks, secs, sports)
  {
    var progressions: Option<Dict<string, ProgressionEntry>> := None;
    var dashboard: Option<Dashboard> := None;
    if "progression" in secs {
      var section := ProgressionsSectionCorrected(table, user, today, weeks, sports);
      if section.Raised? {
        return Raised(section.error);
      }
      progressions := Some(section.value);
    }
    if "tableau_bord" in secs {
      var board := DashboardSection(table, user, today);
      if board.Raised? {
        return Raised(board.error);
      }
      dashboard := Some(board.value);
    }
    r := Ok((progressions, dashboard));
  }

  /** obtenir_statistiques_completes (the endpoint) as written. */
  method CompleteStatisticsRoute(
    table: seq<Activity>, user: nat, today: CalendarDate, weeks: int, sections: string, sports: Option<string>)
    returns (r: Outcome<Report>)
    ensures ErrorOf(r) == RouteError(table, user, today, weeks, CommaList(sections), sports)
    ensures r.Ok? ==>
              var secs, report := CommaList(sections), r.value;
              && FirstSectionsMatch(report.summary, report.weekly, report.perSport, report.records, table, user, today, weeks, secs)
              && LastSectionsMatch(report.progressions, report.dashboard, table, user, today, weeks, secs, sports)
  {
    var secs := CommaList(sections);
    var first := FirstSections(table, user, today, weeks, secs);
    if first.Raised? {
      return first;
    }
    var last := LastSections(table, user, today, weeks, secs, sports);
    if last.Raised? {
      return Raised(last.error);
    }
    if NoKnownSection(secs) {
      return Raised(HttpError(400));
    }
    r := Ok(first.value.(progressions := last.value.0, dashboard := last.value.1));
  }

  /** The endpoint with the corrected progression loop. */
  method CompleteStatisticsRouteCorrected(
    table: seq<Activity>, user: nat, today: CalendarDate, weeks: int, sections: string, sports: Option<string>)
    returns (r: Outcome<Report>)
    ensures ErrorOf(r) == CorrectedRouteError(table, user, today, weeks, CommaList(sections), sports)
    ensures r.Ok? ==>
              var secs, report := CommaList(sections), r.value;
              && FirstSectionsMatch(report.summary, report.weekly, report.perSport, report.records, table, user, today, weeks, secs)
              && LastSectionsMatch(report.progressions, report.dashboard, table, user, today, weeks, secs, sports)
  {
    var secs := CommaList(sections);
    var first := FirstSections(table, user, today, weeks, secs);
    if first.Raised? {
      return first;
    }
    var last := LastSectionsCorrected(table, user, today, weeks, secs, sports);
    if last.Raised? {
      return Raised(last.error);
    }
    if NoKnownSection(secs) {
      return Raised(HttpError(400));
    }
    r := Ok(first.value.(progressions := last.value.0, dashboard := last.value.1));
  }

  /** What the endpoint raises: 400 exactly when no known section is asked
      for; OverflowError only for a window start (of `weeks` weeks, or of
      the dashboard's twelve) that is not a date; KeyError only when the
      progressions are asked for with a sport list naming a sport the user
      has not practised in the window; nothing else but TypeError. */
  lemma RouteErrorMeaning(table: seq<Activity>, user: nat, today: CalendarDate, weeks: int, secs: seq<string>, sports: Option<string>)
    ensures var e := RouteError(table, user, today, weeks, secs, sports);
            && (e == Some(HttpError(400)) <==> NoKnownSection(secs))
            && (e == Some(OverflowError) ==> !WindowOk(today, weeks) || ("tableau_bord" in secs && !WindowOk(today, 12)))
            && (e == Some(KeyError) ==>
                  "progression" in secs && SportsGiven(sports) && Unpractised(table, user, today, weeks, CommaList(sports.value)))
            && (e.Some? ==> e.value in {HttpError(400), OverflowError, KeyError, TypeError})
  {
    PerSportInRaises(table, user, today, weeks);
    PerSportInRaises(table, user, today, 12);
  }

  /** The corrected endpoint never raises KeyError, and it raises exactly
      what the endpoint as written raises unless a listed sport has no
      activity in the window. */
  lemma CorrectedRouteOnlyDropsKeyError(table: seq<Activity>, user: nat, today: CalendarDate, weeks: int, secs: seq<string>, sports: Option<string>)
    ensures CorrectedRouteError(table, user, today, weeks, secs, sports) != Some(KeyError)
    ensures !("progression" in secs && SportsGiven(sports) && Unpractised(table, user, today, weeks, CommaList(sports.value))) ==>
              CorrectedRouteError(table, user, today, weeks, secs, sports) == RouteError(table, user, today, weeks, secs, sports)
  {
    PerSportInRaises(table, user, today, weeks);
    PerSportInRaises(table, user, today, 12);
  }

  /** A name without commas or surrounding spaces is a list of itself. */
  lemma SingleName(name: string)
    requires ',' !in name && name != [] && !IsSpace(name[0]) && !IsSpace(name[|name| - 1])
    ensures CommaList(name) == [name]
  {
    SplitWithoutSep(name, ',');
    assert StripLeft(name) == name;
  }

  /** A user without activities who asks the endpoint for the progression
      of "course" gets a KeyError; the corrected endpoint answers. */
  lemma RouteRaisesOnAnUnpractisedSport(today: CalendarDate)
    requires WindowOk(today, 12)
    ensures RouteError([], 1, today, 12, ["progression"], Some("course")) == Some(KeyError)
    ensures CorrectedRouteError([], 1, today, 12, ["progression"], Some("course")) == None
  {
    SingleName("course");
    var secs := ["progression"];
    assert "hebdo" !in secs && "sports" !in secs && "tableau_bord" !in secs && "progression" in secs;
    assert !NoKnownSection(secs);
    assert UserWindow([], 1, today, 12) == [];
    assert Unpractised([], 1, today, 12, ["course"]) by {
      var names: seq<string> := ["course"];
      assert Filter(UserWindow([], 1, today, 12), OfSport(names[0])) == [];
    }
    assert FirstSectionsError([], 1, today, 12, secs) == None;
    assert ProgressionsError([], 1, today, 12, Some("course")) == Some(KeyError);
    assert CorrectedProgressionsError([], 1, today, 12, Some("course")) == None;
  }
}
