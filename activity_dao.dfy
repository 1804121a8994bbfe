/** ActiviteDAO: the Activite table, held in insertion order (ascending
    autoincrement id), with its filter / sort / limit readers and the
    update and delete writers. */
module ActivityDao {
  import opened Common
  import opened Seqs
  import opened Calendar
  import opened Rows
  import opened Statistics

  const ActivityId: Activity -> int := (a: Activity) => a.id

  /** `get_by_id` */
  function ById(table: seq<Activity>, id: nat): Option<Activity>
  {
    FirstWhere(table, KeyIs(ActivityId, id))
  }

  // ----- Readers -----

  /** SQL `OFFSET m`. */
  function Drop(s: seq<Activity>, m: nat): (r: seq<Activity>)
    ensures |r| == if m < |s| then |s| - m else 0
    ensures forall i :: 0 <= i < |r| ==> r[i] == s[m + i]
  {
    if m < |s| then s[m..] else []
  }

  /** `query.limit(limit).offset(offset)`: SQL applies the offset first. */
  function Page(s: seq<Activity>, limit: nat, offset: nat): seq<Activity>
  {
    Take(Drop(s, offset), limit)
  }

  /** `order_by(desc(date_activite))` on the rows satisfying `p`. */
  function NewestWhere(table: seq<Activity>, p: Activity -> bool): seq<Activity>
  {
    SortBy(Filter(table, p), NewestFirst)
  }

  /** `get_by_user`: the user's activities, newest first; limit and offset
      apply only when `limit` is truthy. */
  function GetByUser(table: seq<Activity>, user: nat, limit: Option<nat>, offset: nat): seq<Activity>
  {
    var s := NewestWhere(table, OwnedBy(user));
    if LimitTruthy(limit) then Page(s, limit.value, offset) else s
  }

  function OwnedSport(user: nat, sport: string): Activity -> bool
  {
    (a: Activity) => a.owner == user && a.sport == sport
  }

  /** `get_by_user_and_sport`: the limit applies when truthy, and there is
      no offset. */
  function GetByUserAndSport(table: seq<Activity>, user: nat, sport: string, limit: Option<nat>): seq<Activity>
  {
    var s := NewestWhere(table, OwnedSport(user, sport));
    if LimitTruthy(limit) then Take(s, limit.value) else s
  }

  /** `date_debut <= date_activite <= date_fin` for the user. */
  function InRange(user: nat, start: CalendarDate, end: CalendarDate): Activity -> bool
  {
    (a: Activity) => a.owner == user && Ordinal(start) <= Ordinal(a.date) && Ordinal(a.date) <= Ordinal(end)
  }

  /** `get_by_date_range`: both bounds inclusive. */
  function GetByDateRange(table: seq<Activity>, user: nat, start: CalendarDate, end: CalendarDate): seq<Activity>
  {
    NewestWhere(table, InRange(user, start, end))
  }

  /** Python's `if type_sport:`: None and "" are both false. */
  predicate SportTruthy(sport: Option<string>)
  {
    sport.Some? && sport.value != ""
  }

  function OnOrAfter(start: CalendarDate): Activity -> bool
  {
    (a: Activity) => Ordinal(a.date) >= Ordinal(start)
  }

  function OnOrBefore(end: CalendarDate): Activity -> bool
  {
    (a: Activity) => Ordinal(a.date) <= Ordinal(end)
  }

  /** The query `get_by_filters` builds before ordering: a filter on the
      user, then one per truthy argument. A `date` object is always truthy,
      so a given date always filters. */
  function FilteredRows(table: seq<Activity>, user: nat, sport: Option<string>,
                        start: Option<CalendarDate>, end: Option<CalendarDate>): seq<Activity>
  {
    var q := Filter(table, OwnedBy(user));
    var q := if SportTruthy(sport) then Filter(q, OfSport(sport.value)) else q;
    var q := if start.Some? then Filter(q, OnOrAfter(start.value)) else q;
    if end.Some? then Filter(q, OnOrBefore(end.value)) else q
  }

  /** `get_by_filters` */
  function GetByFilters(table: seq<Activity>, user: nat, sport: Option<string>,
                        start: Option<CalendarDate>, end: Option<CalendarDate>,
                        limit: Option<nat>, offset: nat): seq<Activity>
  {
    var s := SortBy(FilteredRows(table, user, sport, start, end), NewestFirst);
    if LimitTruthy(limit) then Page(s, limit.value, offset) else s
  }

  /** What an activity must satisfy to pass the active filters. */
  predicate PassesFilters(a: Activity, user: nat, sport: Option<string>,
                          start: Option<CalendarDate>, end: Option<CalendarDate>)
  {
    && a.owner == user
    && (SportTruthy(sport) ==> a.sport == sport.value)
    && (start.Some? ==> Ordinal(a.date) >= Ordinal(start.value))
    && (end.Some? ==> Ordinal(a.date) <= Ordinal(end.value))
  }

  /** The filtered rows are exactly the table's rows passing the active
      filters. */
  lemma FilteredRowsMembers(table: seq<Activity>, user: nat, sport: Option<string>,
                            start: Option<CalendarDate>, end: Option<CalendarDate>)
    ensures forall a :: a in FilteredRows(table, user, sport, start, end) <==>
              a in table && PassesFilters(a, user, sport, start, end)
  {
    var q1 := Filter(table, OwnedBy(user));
    FilterContains(table, OwnedBy(user));
    var q2 := if SportTruthy(sport) then Filter(q1, OfSport(sport.value)) else q1;
    if SportTruthy(sport) {
      FilterContains(q1, OfSport(sport.value));
    }
    var q3 := if start.Some? then Filter(q2, OnOrAfter(start.value)) else q2;
    if start.Some? {
      FilterContains(q2, OnOrAfter(start.value));
    }
    if end.Some? {
      FilterContains(q3, OnOrBefore(end.value));
    }
  }

  /** A page of the rows of `q` sorted newest first: rows of `q`, dates
      never increasing, at most `limit` of them. */
  lemma PageMeaning(q: seq<Activity>, limit: nat, offset: nat)
    ensures var r := Page(SortBy(q, NewestFirst), limit, offset);
      && |r| <= limit
      && (forall i :: 0 <= i < |r| ==> r[i] in q)
      && (forall i, j :: 0 <= i < j < |r| ==> Ordinal(r[j].date) <= Ordinal(r[i].date))
  {
    var s := SortBy(q, NewestFirst);
    SortedMembers(q, NewestFirst);
    var d := Drop(s, offset);
    var r := Take(d, limit);
    forall i | 0 <= i < |r| ensures r[i] == s[offset + i] {
      assert r[i] == d[i];
    }
    forall i, j | 0 <= i < j < |r| ensures Ordinal(r[j].date) <= Ordinal(r[i].date) {
      assert NewestFirst(s[offset + i]) <= NewestFirst(s[offset + j]);
    }
  }

  /** `order_by(desc(date_activite)).limit(n)` */
  function Top(q: seq<Activity>, n: nat): seq<Activity>
  {
    Take(SortBy(q, NewestFirst), n)
  }

  /** The first `n` rows of `q` sorted newest first: rows of `q`, dates
      never increasing, at most `n`. */
  lemma TopMeaning(q: seq<Activity>, n: nat)
    ensures |Top(q, n)| <= n
    ensures forall i :: 0 <= i < |Top(q, n)| ==> Top(q, n)[i] in q
    ensures forall i, j :: 0 <= i < j < |Top(q, n)| ==>
              Ordinal(Top(q, n)[j].date) <= Ordinal(Top(q, n)[i].date)
  {
    var s := SortBy(q, NewestFirst);
    SortedMembers(q, NewestFirst);
    var r := Take(s, n);
    assert forall i :: 0 <= i < |r| ==> r[i] == s[i];
    forall i, j | 0 <= i < j < |r| ensures Ordinal(r[j].date) <= Ordinal(r[i].date) {
      assert NewestFirst(s[i]) <= NewestFirst(s[j]);
    }
  }

  /** A row of `q` is left out of the first `n` only from a full result,
      and is then no newer than any returned row. */
  lemma TopOmitted(q: seq<Activity>, n: nat, a: Activity)
    requires a in q && a !in Top(q, n)
    ensures |Top(q, n)| == n
    ensures forall i :: 0 <= i < n ==> Ordinal(a.date) <= Ordinal(Top(q, n)[i].date)
  {
    var s := SortBy(q, NewestFirst);
    SortedMembers(q, NewestFirst);
    var r := Take(s, n);
    var k :| 0 <= k < |s| && s[k] == a;
    assert k >= |r|;
    forall i | 0 <= i < n ensures Ordinal(a.date) <= Ordinal(r[i].date) {
      assert r[i] == s[i];
      assert NewestFirst(s[i]) <= NewestFirst(s[k]);
    }
  }

  /** The rows of `q` sorted newest first: exactly the rows of `q`, dates
      never increasing. */
  lemma NewestFirstMeaning(q: seq<Activity>)
    ensures var r := SortBy(q, NewestFirst);
      && |r| == |q|
      && (forall a :: a in r <==> a in q)
      && (forall i, j :: 0 <= i < j < |r| ==> Ordinal(r[j].date) <= Ordinal(r[i].date))
  {
    SortedMembers(q, NewestFirst);
    var r := SortBy(q, NewestFirst);
    forall i, j | 0 <= i < j < |r| ensures Ordinal(r[j].date) <= Ordinal(r[i].date) {
      assert NewestFirst(r[i]) <= NewestFirst(r[j]);
    }
  }

  /** `get_by_filters`: every result is a row of the table passing the
      active filters, newest first, and with a truthy limit at most
      `limit` come back. */
  lemma GetByFiltersMeaning(table: seq<Activity>, user: nat, sport: Option<string>,
                            start: Option<CalendarDate>, end: Option<CalendarDate>,
                            limit: Option<nat>, offset: nat)
    ensures var r := GetByFilters(table, user, sport, start, end, limit, offset);
      && (forall i :: 0 <= i < |r| ==> r[i] in table && PassesFilters(r[i], user, sport, start, end))
      && (forall i, j :: 0 <= i < j < |r| ==> Ordinal(r[j].date) <= Ordinal(r[i].date))
      && (LimitTruthy(limit) ==> |r| <= limit.value)
  {
    FilteredRowsMembers(table, user, sport, start, end);
    var q := FilteredRows(table, user, sport, start, end);
    if LimitTruthy(limit) {
      PageMeaning(q, limit.value, offset);
    } else {
      NewestFirstMeaning(q);
    }
  }

  /** Without a truthy limit every row passing the filters comes back and
      the offset is ignored. */
  lemma GetByFiltersUnlimited(table: seq<Activity>, user: nat, sport: Option<string>,
                              start: Option<CalendarDate>, end: Option<CalendarDate>,
                              limit: Option<nat>, offset: nat)
    requires !LimitTruthy(limit)
    ensures forall a :: a in GetByFilters(table, user, sport, start, end, limit, offset) <==>
              a in table && PassesFilters(a, user, sport, start, end)
    ensures GetByFilters(table, user, sport, start, end, limit, offset) == GetByFilters(table, user, sport, start, end, limit, 0)
  {
    FilteredRowsMembers(table, user, sport, start, end);
    NewestFirstMeaning(FilteredRows(table, user, sport, start, end));
  }

  /** `get_by_date_range` is `get_by_filters` with both dates, no sport and
      no limit. */
  lemma DateRangeIsFilters(table: seq<Activity>, user: nat, start: CalendarDate, end: CalendarDate)
    ensures GetByDateRange(table, user, start, end) == GetByFilters(table, user, None, Some(start), Some(end), None, 0)
  {
    var q1 := Filter(table, OwnedBy(user));
    var both := (a: Activity) => a.owner == user && Ordinal(a.date) >= Ordinal(start);
    FilterFilter(table, OwnedBy(user), OnOrAfter(start), both);
    FilterFilter(table, both, OnOrBefore(end), InRange(user, start, end));
  }

  /** `get_by_user` without a truthy limit is `get_by_filters` with no
      filter at all. */
  lemma GetByUserIsFilters(table: seq<Activity>, user: nat, limit: Option<nat>, offset: nat)
    ensures GetByUser(table, user, limit, offset) == GetByFilters(table, user, None, None, None, limit, offset)
  {
  }

  /** `count_by_user` */
  function CountByUser(table: seq<Activity>, user: nat): nat
  {
    |Filter(table, OwnedBy(user))|
  }

  /** `count_by_user_and_sport` */
  function CountByUserAndSport(table: seq<Activity>, user: nat, sport: string): nat
  {
    |Filter(table, OwnedSport(user, sport))|
  }

  /** The counts are the lengths of the unlimited readers. */
  lemma CountsAreLengths(table: seq<Activity>, user: nat, sport: string)
    ensures CountByUser(table, user) == |GetByUser(table, user, None, 0)|
    ensures CountByUserAndSport(table, user, sport) == |GetByUserAndSport(table, user, sport, None)|
    ensures CountByUserAndSport(table, user, sport) <= CountByUser(table, user)
  {
    FilterWeaker(table, OwnedSport(user, sport), OwnedBy(user));
  }

  /** `get_sports_list`: `SELECT DISTINCT type_sport`, in first-appearance
      order. */
  function DistinctSports(acts: seq<Activity>): seq<string>
  {
    if acts == [] then []
    else
      var init := DistinctSports(DropLast(acts));
      if Last(acts).sport in init then init else init + [Last(acts).sport]
  }

  function SportsList(table: seq<Activity>, user: nat): seq<string>
  {
    DistinctSports(Filter(table, OwnedBy(user)))
  }

  /** Some activity of `acts` is of `sport`. */
  predicate Practised(acts: seq<Activity>, sport: string)
  {
    exists a :: a in acts && a.sport == sport
  }

  /** Each sport of the activities appears exactly once. */
  lemma {:induction false} DistinctSportsMeaning(acts: seq<Activity>)
    ensures var r := DistinctSports(acts);
      && (forall i, j :: 0 <= i < j < |r| ==> r[i] != r[j])
      && (forall sport :: sport in r <==> Practised(acts, sport))
  {
    if acts != [] {
      var init := DropLast(acts);
      var x := Last(acts);
      DistinctSportsMeaning(init);
      assert acts == init + [x];
      var d := DistinctSports(init);
      var r := DistinctSports(acts);
      forall sport ensures Practised(acts, sport) <==> Practised(init, sport) || sport == x.sport {
        if Practised(acts, sport) {
          var a :| a in acts && a.sport == sport;
          if a != x {
            assert a in init;
          }
        }
        if Practised(init, sport) {
          var a :| a in init && a.sport == sport;
          assert a in acts;
        }
        if sport == x.sport {
          assert x in acts;
        }
      }
      if x.sport !in d {
        assert r == d + [x.sport];
        forall i, j | 0 <= i < j < |r| ensures r[i] != r[j] {
          if j == |d| {
            assert r[i] == d[i] && d[i] in d;
          } else {
            assert r[i] == d[i] && r[j] == d[j];
          }
        }
      }
    }
  }

  /** `get_sports_list`: each sport the user practises, once. */
  lemma SportsListMeaning(table: seq<Activity>, user: nat)
    ensures forall i, j :: 0 <= i < j < |SportsList(table, user)| ==> SportsList(table, user)[i] != SportsList(table, user)[j]
    ensures forall sport :: sport in SportsList(table, user) <==> exists a :: a in table && a.owner == user && a.sport == sport
  {
    var acts := Filter(table, OwnedBy(user));
    DistinctSportsMeaning(acts);
    FilterContains(table, OwnedBy(user));
    assert SportsList(table, user) == DistinctSports(acts);
    forall sport
      ensures sport in SportsList(table, user) <==> exists a :: a in table && a.owner == user && a.sport == sport
    {
      if Practised(acts, sport) {
        var a :| a in acts && a.sport == sport;
        assert a in table && a.owner == user;
      }
      if exists a :: a in table && a.owner == user && a.sport == sport {
        var a :| a in table && a.owner == user && a.sport == sport;
        assert a in acts;
        assert Practised(acts, sport);
      }
    }
  }

  /** `get_recent_by_user`: the user's activities dated `days` days before
      `today` or later, newest first, at most `limit`; computing that start
      date raises OverflowError when it is not a date. */
  function GetRecentByUser(table: seq<Activity>, user: nat, today: CalendarDate, days: int, limit: nat): Outcome<seq<Activity>>
  {
    match DaysBefore(today, days)
    case Raised(e) => Raised(e)
    case Ok(start) => Ok(Top(Filter(table, InWindow(user, start)), limit))
  }

  /** `date.today() - timedelta(days=days)`, as an ordinal. */
  function RecentStart(today: CalendarDate, days: int): int
  {
    Ordinal(today) - days
  }

  /** The first `n` rows satisfying `p`, newest first: rows of the table
      satisfying `p`, dates never increasing, at most `n`. */
  lemma TopWhereMeaning(table: seq<Activity>, p: Activity -> bool, n: nat)
    ensures |Top(Filter(table, p), n)| <= n
    ensures forall i :: 0 <= i < |Top(Filter(table, p), n)| ==>
              Top(Filter(table, p), n)[i] in table && p(Top(Filter(table, p), n)[i])
    ensures forall i, j :: 0 <= i < j < |Top(Filter(table, p), n)| ==>
              NewestFirst(Top(Filter(table, p), n)[i]) <= NewestFirst(Top(Filter(table, p), n)[j])
  {
    FilterContains(table, p);
    TopMeaning(Filter(table, p), n);
  }

  /** A row satisfying `p` is left out of the first `n` only from a full
      result, and is then no newer than any returned row. */
  lemma TopWhereOmitted(table: seq<Activity>, p: Activity -> bool, n: nat, a: Activity)
    requires a in table && p(a) && a !in Top(Filter(table, p), n)
    ensures |Top(Filter(table, p), n)| == n
    ensures forall i :: 0 <= i < n ==> NewestFirst(Top(Filter(table, p), n)[i]) <= NewestFirst(a)
  {
    FilterContains(table, p);
    TopOmitted(Filter(table, p), n, a);
  }

  /** The query from the window start, or OverflowError when that start
      is not a date. */
  lemma GetRecentByUserOf(table: seq<Activity>, user: nat, today: CalendarDate, days: int, limit: nat)
    ensures GetRecentByUser(table, user, today, days, limit)
            == if 1 <= RecentStart(today, days) <= MaxOrdinal
               then Ok(Top(Filter(table, InWindow(user, RecentStart(today, days))), limit))
               else Raised(OverflowError)
  {
    var start := DaysBefore(today, days);
    DaysBeforeOf(today, days);
    assert start.Ok? ==> start.value == RecentStart(today, days);
  }

  /** OverflowError when the window start is not a date; otherwise at most `limit` activities of
      the user, all inside the window, newest first. */
  lemma GetRecentByUserMeaning(table: seq<Activity>, user: nat, today: CalendarDate, days: int, limit: nat)
    ensures var r := GetRecentByUser(table, user, today, days, limit);
            && (r.Raised? <==> !(1 <= RecentStart(today, days) <= MaxOrdinal))
            && (r.Raised? ==> r.error == OverflowError)
            && (r.Ok? ==>
                  && |r.value| <= limit
                  && (forall i :: 0 <= i < |r.value| ==>
                        r.value[i] in table && r.value[i].owner == user && Ordinal(r.value[i].date) >= RecentStart(today, days))
                  && (forall i, j :: 0 <= i < j < |r.value| ==> Ordinal(r.value[j].date) <= Ordinal(r.value[i].date)))
  {
    GetRecentByUserOf(table, user, today, days, limit);
    RecentFrom(table, user, RecentStart(today, days), limit);
  }

  /** The recent query from a given window start. */
  lemma RecentFrom(table: seq<Activity>, user: nat, start: int, limit: nat)
    ensures var r := Top(Filter(table, InWindow(user, start)), limit);
            && |r| <= limit
            && (forall i :: 0 <= i < |r| ==> r[i] in table && r[i].owner == user && Ordinal(r[i].date) >= start)
            && (forall i, j :: 0 <= i < j < |r| ==> Ordinal(r[j].date) <= Ordinal(r[i].date))
  {
    TopWhereMeaning(table, InWindow(user, start), limit);
  }

  /** An activity of the window is left out only from a full result and
      is then no newer than any returned one. */
  lemma GetRecentByUserFull(table: seq<Activity>, user: nat, today: CalendarDate, days: int, limit: nat, a: Activity)
    requires a in table && a.owner == user && Ordinal(a.date) >= RecentStart(today, days)
    requires GetRecentByUser(table, user, today, days, limit).Ok?
    requires a !in GetRecentByUser(table, user, today, days, limit).value
    ensures var r := GetRecentByUser(table, user, today, days, limit).value;
            |r| == limit && forall i :: 0 <= i < |r| ==> Ordinal(a.date) <= Ordinal(r[i].date)
  {
    GetRecentByUserOf(table, user, today, days, limit);
    TopWhereOmitted(table, InWindow(user, RecentStart(today, days)), limit, a);
  }

  // ----- Update -----

  /** One `key=value` argument of `update`, by the attribute it names. The
      ORM class declares no `distance` attribute, so that key, like any
      other unknown name, fails `hasattr` and is skipped. */
  datatype FieldUpdate =
    | SetName(name: Option<string>)
    | SetSport(sport: string)
    | SetDate(date: CalendarDate)
    | SetDuration(duration: Option<int>)
    | SetDescription(description: Option<string>)
    | SetGpxPath(gpxPath: Option<string>)
    | SetDPlus(dPlus: Option<int>)
    | SetCalories(calories: Option<int>)
    | SetOwner(owner: nat)
    | Unknown(key: string)

  /** `if hasattr(activite, key): setattr(activite, key, value)` */
  function Apply(a: Activity, u: FieldUpdate): Activity
  {
    match u
    case SetName(v) => a.(name := v)
    case SetSport(v) => a.(sport := v)
    case SetDate(v) => a.(date := v)
    case SetDuration(v) => a.(duration := v)
    case SetDescription(v) => a.(description := v)
    case SetGpxPath(v) => a.(gpxPath := v)
    case SetDPlus(v) => a.(dPlus := v)
    case SetCalories(v) => a.(calories := v)
    case SetOwner(v) => a.(owner := v)
    case Unknown(_) => a
  }

  /** The updates applied in argument order. */
  function ApplyAll(a: Activity, us: seq<FieldUpdate>): Activity
  {
    if us == [] then a else Apply(ApplyAll(a, DropLast(us)), Last(us))
  }

  /** The attributes `update` may set. */
  datatype Field = Name | Sport | Day | Duration | Description | GpxPath | DPlus | Calories | Owner

  /** The attribute an update names, if the model declares it. */
  function FieldOf(u: FieldUpdate): Option<Field>
  {
    match u
    case SetName(_) => Some(Name)
    case SetSport(_) => Some(Sport)
    case SetDate(_) => Some(Day)
    case SetDuration(_) => Some(Duration)
    case SetDescription(_) => Some(Description)
    case SetGpxPath(_) => Some(GpxPath)
    case SetDPlus(_) => Some(DPlus)
    case SetCalories(_) => Some(Calories)
    case SetOwner(_) => Some(Owner)
    case Unknown(_) => None
  }

  /** No update of `us` names `f`. */
  predicate Untouched(us: seq<FieldUpdate>, f: Field)
  {
    forall i :: 0 <= i < |us| ==> FieldOf(us[i]) != Some(f)
  }

  /** One update leaves the id, `distance` and every attribute it does not
      name as they were. */
  lemma ApplyKeeps(a: Activity, u: FieldUpdate)
    ensures var b := Apply(a, u);
      && b.id == a.id && b.distance == a.distance
      && (FieldOf(u) != Some(Name) ==> b.name == a.name)
      && (FieldOf(u) != Some(Sport) ==> b.sport == a.sport)
      && (FieldOf(u) != Some(Day) ==> b.date == a.date)
      && (FieldOf(u) != Some(Duration) ==> b.duration == a.duration)
      && (FieldOf(u) != Some(Description) ==> b.description == a.description)
      && (FieldOf(u) != Some(GpxPath) ==> b.gpxPath == a.gpxPath)
      && (FieldOf(u) != Some(DPlus) ==> b.dPlus == a.dPlus)
      && (FieldOf(u) != Some(Calories) ==> b.calories == a.calories)
      && (FieldOf(u) != Some(Owner) ==> b.owner == a.owner)
  {
  }

  /** An attribute no update names keeps its value; the id and the
      undeclared `distance` never change. */
  lemma {:induction false} ApplyAllKeeps(a: Activity, us: seq<FieldUpdate>)
    ensures var b := ApplyAll(a, us);
      && b.id == a.id && b.distance == a.distance
      && (Untouched(us, Name) ==> b.name == a.name)
      && (Untouched(us, Sport) ==> b.sport == a.sport)
      && (Untouched(us, Day) ==> b.date == a.date)
      && (Untouched(us, Duration) ==> b.duration == a.duration)
      && (Untouched(us, Description) ==> b.description == a.description)
      && (Untouched(us, GpxPath) ==> b.gpxPath == a.gpxPath)
      && (Untouched(us, DPlus) ==> b.dPlus == a.dPlus)
      && (Untouched(us, Calories) ==> b.calories == a.calories)
      && (Untouched(us, Owner) ==> b.owner == a.owner)
  {
    if us != [] {
      ApplyAllKeeps(a, DropLast(us));
      ApplyKeeps(ApplyAll(a, DropLast(us)), Last(us));
      forall f | Untouched(us, f) ensures Untouched(DropLast(us), f) && FieldOf(Last(us)) != Some(f) {
        assert forall i :: 0 <= i < |us| - 1 ==> DropLast(us)[i] == us[i];
      }
    }
  }

  /** Only unknown keys: the activity is unchanged. */
  lemma {:induction false} UnknownKeysIgnored(a: Activity, us: seq<FieldUpdate>)
    requires forall i :: 0 <= i < |us| ==> us[i].Unknown?
    ensures ApplyAll(a, us) == a
  {
    if us != [] {
      assert forall i :: 0 <= i < |us| - 1 ==> DropLast(us)[i] == us[i];
      UnknownKeysIgnored(a, DropLast(us));
    }
  }

  /** The last update naming the sport decides it. */
  lemma {:induction false} LastSportWins(a: Activity, us: seq<FieldUpdate>, k: nat)
    requires k < |us| && us[k].SetSport?
    requires forall i :: k < i < |us| ==> !us[i].SetSport?
    ensures ApplyAll(a, us).sport == us[k].sport
  {
    if k < |us| - 1 {
      assert forall i :: 0 <= i < |us| - 1 ==> DropLast(us)[i] == us[i];
      LastSportWins(a, DropLast(us), k);
    }
  }

  class ActivityStore {
    /** The rows, in insertion order. */
    var rows: seq<Activity>

    predicate Valid()
      reads this
    {
      IncreasingBy(rows, ActivityId)
    }

    constructor()
      ensures Valid() && rows == []
    {
      rows := [];
    }

    /** `get_by_id` */
    function GetById(id: nat): (r: Option<Activity>)
      requires Valid()
      reads this
      ensures r.Some? ==> r.value in rows && r.value.id == id
      ensures r.None? <==> forall a :: a in rows ==> a.id != id
    {
      var r := ById(rows, id);
      if r.Some? then
        FirstWhereUnique(rows, ActivityId, id, r.value);
        r
      else
        r
    }

    /** `update`: None for an unknown id; otherwise the named attributes of
        that activity are set in argument order, every other row and
        attribute stays. */
    method Update(id: nat, updates: seq<FieldUpdate>) returns (r: Option<Activity>)
      requires Valid()
      modifies this
      ensures Valid()
      ensures r.None? <==> old(GetById(id)).None?
      ensures r.None? ==> rows == old(rows)
      ensures r.Some? ==> r.value == ApplyAll(old(GetById(id)).value, updates)
      ensures r.Some? ==> GetById(id) == r
      ensures |rows| == |old(rows)|
      ensures forall i :: 0 <= i < |rows| && old(rows)[i].id != id ==> rows[i] == old(rows)[i]
    {
      var k := IndexWhere(rows, KeyIs(ActivityId, id));
      if k == |rows| {
        return None;
      }
      var activity := rows[k];
      var i := 0;
      while i < |updates|
        invariant 0 <= i <= |updates|
        invariant activity == ApplyAll(rows[k], updates[..i])
      {
        activity := Apply(activity, updates[i]);
        assert DropLast(updates[..i + 1]) == updates[..i];
        i := i + 1;
      }
      assert updates[..i] == updates;
      ApplyAllKeeps(rows[k], updates);
      FirstWhereUnique(rows, ActivityId, id, rows[k]);
      IdKeptReplace(rows, k, activity);
      rows := rows[k := activity];
      assert rows[k] == activity;
      FirstWhereUnique(rows, ActivityId, id, activity);
      r := Some(activity);
    }

    /** `delete`: False for an absent id; otherwise that row goes and
        `get_by_id` then finds nothing. */
    method Delete(id: nat) returns (deleted: bool)
      requires Valid()
      modifies this
      ensures Valid()
      ensures deleted <==> old(GetById(id)).Some?
      ensures rows == Filter(old(rows), IdIsNot(id))
      ensures GetById(id).None?
    {
      var found := GetById(id);
      var keep := IdIsNot(id);
      FilterContains(rows, keep);
      if found.None? {
        FilterAll(rows, keep);
        return false;
      }
      FilterIncreasing(rows, keep, ActivityId);
      rows := Filter(rows, keep);
      deleted := true;
    }
  }

  function IdIsNot(id: nat): Activity -> bool
  {
    (a: Activity) => a.id != id
  }

  /** Replacing a row by one with the same id keeps the table ordered, and
      no other row has that id. */
  lemma IdKeptReplace(rows: seq<Activity>, k: nat, b: Activity)
    requires IncreasingBy(rows, ActivityId)
    requires k < |rows| && b.id == rows[k].id
    ensures IncreasingBy(rows[k := b], ActivityId)
    ensures forall i :: 0 <= i < |rows| && i != k ==> rows[i].id != rows[k].id
  {
    var r := rows[k := b];
    assert forall i :: 0 <= i < |r| ==> ActivityId(r[i]) == ActivityId(rows[i]);
    forall i | 0 <= i < |rows| && i != k ensures rows[i].id != rows[k].id {
      if i < k {
        assert ActivityId(rows[i]) < ActivityId(rows[k]);
      } else {
        assert ActivityId(rows[k]) < ActivityId(rows[i]);
      }
    }
  }
}
