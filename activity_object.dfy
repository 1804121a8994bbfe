/** The in-memory `Activité` business object: validating setters, like and
    comment counts, the speed by sport, the calorie estimate, and the
    arithmetic `creerActivite` does once a GPX file has been parsed into
    tracks, segments and points. */
module ActivityObject {
  import opened Common
  import opened Seqs
  import opened Calendar
  import opened Text
  import opened Values
  import opened CommentObject

  // ----- Calorie estimate -----

  /** `calories_par_heure.get(sport, 400)` on the lower-cased sport. */
  function HourlyCalories(lowered: string): (base: int)
    ensures base in {300, 400, 500, 600}
  {
    if lowered == "marche" then 300
    else if lowered == "course" then 600
    else if lowered == "v\U{E9}lo" || lowered == "velo" then 500
    else if lowered == "natation" then 500
    else if lowered == "randonn\U{E9}e" || lowered == "randonnee" then 400
    else 400
  }

  /** `calculer_calories`: `int(base * hours + d_plus * 0.1)`, truncated
      toward zero. */
  function CaloriesEstimate(sport: string, hours: real, dPlus: int): (n: int)
    ensures 0.0 <= hours && 0 <= dPlus ==> 0 <= n
  {
    CaloriesAtRate(HourlyCalories(Lower(sport)), hours, dPlus)
  }

  /** The estimate for `base` calories an hour. */
  function CaloriesAtRate(base: int, hours: real, dPlus: int): (n: int)
    ensures 0 <= base && 0.0 <= hours && 0 <= dPlus ==> 0 <= n
  {
    if 0 <= base && 0.0 <= hours && 0 <= dPlus then
      BurnMonotone(base, 0.0, hours, 0, dPlus);
      Trunc(Burn(base, hours, dPlus))
    else
      Trunc(Burn(base, hours, dPlus))
  }

  /** The calories before truncation. */
  function Burn(base: int, hours: real, dPlus: int): real
  {
    base as real * hours + dPlus as real / 10.0
  }

  /** More hours or more climbing never lowers the estimate. */
  lemma CaloriesMonotone(sport: string, h1: real, h2: real, d1: int, d2: int)
    requires h1 <= h2 && d1 <= d2
    ensures CaloriesEstimate(sport, h1, d1) <= CaloriesEstimate(sport, h2, d2)
  {
    var base := HourlyCalories(Lower(sport));
    BurnMonotone(base, h1, h2, d1, d2);
    TruncMonotone(Burn(base, h1, d1), Burn(base, h2, d2));
  }

  lemma BurnMonotone(base: int, h1: real, h2: real, d1: int, d2: int)
    requires 0 <= base && h1 <= h2 && d1 <= d2
    ensures Burn(base, h1, d1) <= Burn(base, h2, d2)
  {
    var k := base as real;
    assert k * h2 - k * h1 == k * (h2 - h1);
    assert 0.0 <= k * (h2 - h1);
    assert d1 as real / 10.0 <= d2 as real / 10.0;
  }

  /** A sport the table does not list counts 400 an hour. */
  lemma UnknownSportRate(sport: string, hours: real, dPlus: int)
    requires Lower(sport) !in {"marche", "course", "v\U{E9}lo", "velo", "natation", "randonn\U{E9}e", "randonnee"}
    ensures CaloriesEstimate(sport, hours, dPlus) == Trunc(400.0 * hours + dPlus as real / 10.0)
  {
  }

  /** Lower-casing is idempotent, so the sport's case never matters. */
  lemma CaloriesIgnoreCase(sport: string, hours: real, dPlus: int)
    ensures CaloriesEstimate(Lower(sport), hours, dPlus) == CaloriesEstimate(sport, hours, dPlus)
  {
    var l := Lower(sport);
    LowerIdempotent(sport);
    assert HourlyCalories(Lower(l)) == HourlyCalories(l);
  }

  // ----- Speed -----

  /** `calculer_vitesse` reads these sports, lower-cased. */
  predicate SpeedSport(lowered: string)
  {
    lowered == "natation" || lowered == "v\U{E9}lo" || lowered == "velo" || lowered == "marche"
  }

  // ----- The activity -----

  /** The attributes a setter may change, as one value. */
  datatype Fields = Fields(
    name: string, sport: string, date: CalendarDate, duration: TimeOfDay,
    description: string, gpxFile: string, elevation: int, calories: int)

  class Activity {
    const id: int
    /** The id of the user who did the activity. */
    const owner: nat
    var name: string
    var sport: string
    var date: CalendarDate
    var duration: TimeOfDay
    var description: string
    var gpxFile: string
    /** The users who liked it, as the list the caller passed. */
    var likes: seq<nat>
    var comments: seq<Comment>
    var elevation: int
    var calories: int

    /** `__init__`: stores its arguments unchecked. */
    constructor(id: int, owner: nat, name: string, sport: string, date: CalendarDate,
                duration: TimeOfDay, description: string, gpxFile: string,
                likes: seq<nat>, comments: seq<Comment>, elevation: int, calories: int)
      ensures this.id == id && this.owner == owner
      ensures Snapshot() == Fields(name, sport, date, duration, description, gpxFile, elevation, calories)
      ensures this.likes == likes && this.comments == comments
    {
      this.id := id;
      this.owner := owner;
      this.name := name;
      this.sport := sport;
      this.date := date;
      this.duration := duration;
      this.description := description;
      this.gpxFile := gpxFile;
      this.likes := likes;
      this.comments := comments;
      this.elevation := elevation;
      this.calories := calories;
    }

    function Snapshot(): Fields
      reads this
    {
      Fields(name, sport, date, duration, description, gpxFile, elevation, calories)
    }

    /** `nom` setter: a non-blank string, or ValueError and no change. */
    method SetName(v: PyValue) returns (error: Option<PyError>)
      modifies this
      ensures error.None? <==> NonBlankStr(v)
      ensures error.Some? ==> error.value == ValueError
      ensures Snapshot() == if error.None? then old(Snapshot()).(name := v.s) else old(Snapshot())
      ensures likes == old(likes) && comments == old(comments)
    {
      if NonBlankStr(v) {
        name := v.s;
        error := None;
      } else {
        error := Some(ValueError);
      }
    }

    /** `type_sport` setter: a non-blank string, or ValueError. */
    method SetSport(v: PyValue) returns (error: Option<PyError>)
      modifies this
      ensures error.None? <==> NonBlankStr(v)
      ensures error.Some? ==> error.value == ValueError
      ensures Snapshot() == if error.None? then old(Snapshot()).(sport := v.s) else old(Snapshot())
      ensures likes == old(likes) && comments == old(comments)
    {
      if NonBlankStr(v) {
        sport := v.s;
        error := None;
      } else {
        error := Some(ValueError);
      }
    }

    /** `dateActivite` setter: a `date`, or ValueError. */
    method SetDate(v: PyValue) returns (error: Option<PyError>)
      modifies this
      ensures error.None? <==> v.PyDate?
      ensures error.Some? ==> error.value == ValueError
      ensures Snapshot() == if error.None? then old(Snapshot()).(date := v.d) else old(Snapshot())
      ensures likes == old(likes) && comments == old(comments)
    {
      if v.PyDate? {
        date := v.d;
        error := None;
      } else {
        error := Some(ValueError);
      }
    }

    /** `dureeActivite` setter: a `time`, or ValueError. */
    method SetDuration(v: PyValue) returns (error: Option<PyError>)
      modifies this
      ensures error.None? <==> v.PyTime?
      ensures error.Some? ==> error.value == ValueError
      ensures Snapshot() == if error.None? then old(Snapshot()).(duration := v.t) else old(Snapshot())
      ensures likes == old(likes) && comments == old(comments)
    {
      if v.PyTime? {
        duration := v.t;
        error := None;
      } else {
        error := Some(ValueError);
      }
    }

    /** `description` setter: a non-blank string, or ValueError. */
    method SetDescription(v: PyValue) returns (error: Option<PyError>)
      modifies this
      ensures error.None? <==> NonBlankStr(v)
      ensures error.Some? ==> error.value == ValueError
      ensures Snapshot() == if error.None? then old(Snapshot()).(description := v.s) else old(Snapshot())
      ensures likes == old(likes) && comments == old(comments)
    {
      if NonBlankStr(v) {
        description := v.s;
        error := None;
      } else {
        error := Some(ValueError);
      }
    }

    /** `fichiergpx` setter: a non-blank string, or ValueError. */
    method SetGpxFile(v: PyValue) returns (error: Option<PyError>)
      modifies this
      ensures error.None? <==> NonBlankStr(v)
      ensures error.Some? ==> error.value == ValueError
      ensures Snapshot() == if error.None? then old(Snapshot()).(gpxFile := v.s) else old(Snapshot())
      ensures likes == old(likes) && comments == old(comments)
    {
      if NonBlankStr(v) {
        gpxFile := v.s;
        error := None;
      } else {
        error := Some(ValueError);
      }
    }

    /** `denivelle` setter: an int (or bool) of at least 0, or ValueError. */
    method SetElevation(v: PyValue) returns (error: Option<PyError>)
      modifies this
      ensures error.None? <==> IsInt(v) && IntValue(v) >= 0
      ensures error.Some? ==> error.value == ValueError
      ensures Snapshot() == if error.None? then old(Snapshot()).(elevation := IntValue(v)) else old(Snapshot())
      ensures likes == old(likes) && comments == old(comments)
    {
      if IsInt(v) && IntValue(v) >= 0 {
        elevation := IntValue(v);
        error := None;
      } else {
        error := Some(ValueError);
      }
    }

    /** `calories` setter as written: an int reaches `.strip()`, which ints
        lack (AttributeError); anything else fails the `isinstance` test
        (ValueError). It never stores a value. */
    method SetCalories(v: PyValue) returns (error: Option<PyError>)
      modifies this
      ensures error == Some(if IsInt(v) then AttributeError else ValueError)
      ensures Snapshot() == old(Snapshot())
      ensures likes == old(likes) && comments == old(comments)
    {
      if IsInt(v) {
        error := Some(AttributeError);
      } else {
        error := Some(ValueError);
      }
    }

    /** `compte_like`, and `getNombreLike`, which returns the same. */
    function CountLikes(): (n: nat)
      reads this
      ensures n == |likes|
      ensures n == 0 <==> likes == []
    {
      |likes|
    }

    /** `compte_commentaire`, and `getNombreCommentaire`, which returns the
        same. */
    function CountComments(): (n: nat)
      reads this
      ensures n == |comments|
      ensures n == 0 <==> comments == []
    {
      |comments|
    }

    /** The duration in minutes, seconds as a fraction. */
    function Minutes(): (m: real)
      reads this
      ensures 0.0 <= m
      ensures m == 0.0 <==> duration == Time(0, 0, 0)
    {
      (duration.hour * 60 + duration.minute) as real + duration.second as real / 60.0
    }

    /** `calculer_vitesse`: a zero duration raises ValueError; swimming
        gives minutes per 100 m, cycling km/h, walking minutes per km, any
        other sport None; a zero distance raises ZeroDivisionError for
        swimming and walking. */
    function Speed(distance: real): (r: Outcome<Option<real>>)
      reads this
      ensures r == Raised(ValueError) <==> Minutes() == 0.0
      ensures r == Ok(None) <==> Minutes() != 0.0 && !SpeedSport(Lower(sport))
      ensures r == Raised(ZeroDivisionError) <==>
                Minutes() != 0.0 && distance == 0.0 && (Lower(sport) == "natation" || Lower(sport) == "marche")
      ensures r.Ok? && r.value.Some? ==> SpeedSport(Lower(sport)) && Minutes() > 0.0
      ensures Lower(sport) == "velo" && Minutes() != 0.0 ==> r == Ok(Some(distance * 60.0 / Minutes()))
      ensures Lower(sport) == "natation" && Minutes() != 0.0 && distance > 0.0 ==>
                r.Ok? && r.value.Some? && r.value.value * distance == Minutes() * 100.0
      ensures Lower(sport) == "marche" && Minutes() != 0.0 && distance > 0.0 ==>
                r.Ok? && r.value.Some? && r.value.value * distance == Minutes()
    {
      var minutes := Minutes();
      if minutes == 0.0 then Raised(ValueError)
      else
        var lowered := Lower(sport);
        if lowered == "natation" then
          if distance == 0.0 then Raised(ZeroDivisionError) else Ok(Some((minutes / distance) * 100.0))
        else if lowered == "v\U{E9}lo" || lowered == "velo" then
          assert distance / (minutes / 60.0) == distance * 60.0 / minutes by {
            assert (minutes / 60.0) * (distance * 60.0 / minutes) == distance;
          }
          Ok(Some(distance / (minutes / 60.0)))
        else if lowered == "marche" then
          if distance == 0.0 then Raised(ZeroDivisionError) else Ok(Some(minutes / distance))
        else Ok(None)
    }
  }

  // ----- creerActivite after parsing -----

  /** A GPX timestamp to the second: a calendar day and the second of that
      day. */
  datatype Instant = Instant(day: CalendarDate, second: int)

  /** Seconds since 0001-01-01 00:00:00. */
  function Seconds(t: Instant): int
  {
    (Ordinal(t.day) - 1) * 86400 + t.second
  }

  /** A parsed track point; a missing time or elevation is None. */
  datatype Point = Point(time: Option<Instant>, elevation: Option<real>)

  /** Tracks hold segments, segments hold points. */
  type Track = seq<seq<Point>>

  /** The points of the segments, in order. */
  function Joined(segments: seq<seq<Point>>): seq<Point>
  {
    if segments == [] then [] else Joined(DropLast(segments)) + Last(segments)
  }

  /** The points of every track, in order. */
  function AllPoints(tracks: seq<Track>): seq<Point>
  {
    if tracks == [] then [] else AllPoints(DropLast(tracks)) + Joined(Last(tracks))
  }

  /** The joined list starts with the first point of the first segment of
      the first track. */
  lemma {:induction false} AllPointsFirst(tracks: seq<Track>)
    requires tracks != [] && tracks[0] != [] && tracks[0][0] != []
    ensures |AllPoints(tracks)| >= |tracks[0][0]| && AllPoints(tracks)[0] == tracks[0][0][0]
  {
    JoinedFirst(tracks[0]);
    if |tracks| > 1 {
      AllPointsFirst(DropLast(tracks));
      assert DropLast(tracks)[0] == tracks[0];
    }
  }

  lemma {:induction false} JoinedFirst(segments: seq<seq<Point>>)
    requires segments != [] && segments[0] != []
    ensures |Joined(segments)| >= |segments[0]| && Joined(segments)[0] == segments[0][0]
  {
    if |segments| > 1 {
      JoinedFirst(DropLast(segments));
      assert DropLast(segments)[0] == segments[0];
    }
  }

  /** The nested `for` loops that extend `points`. */
  method CollectPoints(tracks: seq<Track>) returns (points: seq<Point>)
    ensures points == AllPoints(tracks)
  {
    points := [];
    var i := 0;
    while i < |tracks|
      invariant 0 <= i <= |tracks|
      invariant points == AllPoints(tracks[..i])
    {
      var track := tracks[i];
      var j := 0;
      while j < |track|
        invariant 0 <= j <= |track|
        invariant points == AllPoints(tracks[..i]) + Joined(track[..j])
      {
        points := points + track[j];
        assert track[..j + 1][..j] == track[..j];
        j := j + 1;
      }
      assert track[..j] == track;
      assert tracks[..i + 1][..i] == tracks[..i];
      i := i + 1;
    }
    assert tracks[..i] == tracks;
  }

  /** `if points[i].elevation and points[i-1].elevation`: None and 0.0 are
      both false. */
  predicate ElevationTruthy(e: Option<real>)
  {
    e.Some? && e.value != 0.0
  }

  /** What the pair (a, b) adds: the climb, when both elevations are truthy
      and b is higher. */
  function Climb(a: Point, b: Point): (c: real)
    ensures 0.0 <= c
  {
    if ElevationTruthy(b.elevation) && ElevationTruthy(a.elevation) && b.elevation.value - a.elevation.value > 0.0
    then b.elevation.value - a.elevation.value
    else 0.0
  }

  /** The climbs of the consecutive pairs among the first `k` points. */
  function GainOf(points: seq<Point>, k: nat): (g: real)
    requires k <= |points|
    ensures 0.0 <= g
  {
    if k <= 1 then 0.0 else GainOf(points, k - 1) + Climb(points[k - 2], points[k - 1])
  }

  /** No climb anywhere means no gain. */
  lemma {:induction false} FlatTraceNoGain(points: seq<Point>, k: nat)
    requires k <= |points|
    requires forall i :: 0 < i < |points| ==> Climb(points[i - 1], points[i]) == 0.0
    ensures GainOf(points, k) == 0.0
  {
    if k > 1 {
      FlatTraceNoGain(points, k - 1);
    }
  }

  /** The gain is at least each single climb. */
  lemma {:induction false} GainCoversClimb(points: seq<Point>, k: nat, i: nat)
    requires 0 < i < k <= |points|
    ensures Climb(points[i - 1], points[i]) <= GainOf(points, k)
  {
    if i < k - 1 {
      GainCoversClimb(points, k - 1, i);
    }
  }

  /** The elevation loop, then `int(denivelle)`. */
  method ElevationGain(points: seq<Point>) returns (gain: int)
    ensures gain == Trunc(GainOf(points, |points|))
    ensures 0 <= gain
  {
    if |points| == 0 {
      return 0;
    }
    var total := 0.0;
    var i := 1;
    while i < |points|
      invariant 1 <= i <= |points|
      invariant total == GainOf(points, i)
    {
      if ElevationTruthy(points[i].elevation) && ElevationTruthy(points[i - 1].elevation) {
        var diff := points[i].elevation.value - points[i - 1].elevation.value;
        if diff > 0.0 {
          total := total + diff;
        }
      }
      i := i + 1;
    }
    gain := Trunc(total);
  }

  /** `timedelta.seconds`: the elapsed time less its whole days. */
  function ElapsedSeconds(first: Instant, last: Instant): (s: int)
    ensures 0 <= s < 86400
  {
    (Seconds(last) - Seconds(first)) % 86400
  }

  /** `time(s // 3600, (s % 3600) // 60, s % 60)` */
  function Split(s: int): (t: TimeOfDay)
    requires 0 <= s < 86400
    ensures t.hour * 3600 + t.minute * 60 + t.second == s
  {
    Time(s / 3600, (s % 3600) / 60, s % 60)
  }

  /** What `creerActivite` derives from the points. */
  datatype TraceFacts = TraceFacts(date: CalendarDate, duration: TimeOfDay, elevation: int, calories: int)

  /** The structural check: a first track with a first segment holding a
      point. */
  predicate HasFirstPoint(tracks: seq<Track>)
  {
    tracks != [] && tracks[0] != [] && tracks[0][0] != []
  }

  /** The facts of a trace with at least two points: the date of the first
      point (today when it has no time), the elapsed time of the day when
      both ends carry a time (midnight otherwise), the truncated climb and
      the calorie estimate over those hours; ValueError otherwise. */
  function TraceFactsOf(tracks: seq<Track>, sport: string, today: CalendarDate): Outcome<TraceFacts>
  {
    if !HasFirstPoint(tracks) || |AllPoints(tracks)| < 2 then Raised(ValueError)
    else
      var points := AllPoints(tracks);
      var timed := points[0].time.Some? && Last(points).time.Some?;
      var seconds := if timed then ElapsedSeconds(points[0].time.value, Last(points).time.value) else 0;
      var elevation := Trunc(GainOf(points, |points|));
      Ok(TraceFacts(if points[0].time.Some? then points[0].time.value.day else today,
                    Split(seconds), elevation, CaloriesEstimate(sport, seconds as real / 3600.0, elevation)))
  }

  /** `creerActivite` from the parsed tracks on: ValueError for a trace
      without a first point or with fewer than 2 points; otherwise the date
      of the first point (today when it has no time), the elapsed time of
      the day when both ends carry a time (midnight otherwise), the
      truncated climb and the calorie estimate over those hours. */
  method ReadTrace(tracks: seq<Track>, sport: string, today: CalendarDate) returns (r: Outcome<TraceFacts>)
    ensures r.Raised? <==> !HasFirstPoint(tracks) || |AllPoints(tracks)| < 2
    ensures r.Raised? ==> r.error == ValueError
    ensures r.Ok? ==>
              var points := AllPoints(tracks);
              var timed := points[0].time.Some? && Last(points).time.Some?;
              var seconds := if timed then ElapsedSeconds(points[0].time.value, Last(points).time.value) else 0;
              && r.value.date == (if points[0].time.Some? then points[0].time.value.day else today)
              && r.value.duration == Split(seconds)
              && r.value.elevation == Trunc(GainOf(points, |points|))
              && r.value.calories == CaloriesEstimate(sport, seconds as real / 3600.0, r.value.elevation)
    ensures r == TraceFactsOf(tracks, sport, today)
  {
    if !HasFirstPoint(tracks) {
      return Raised(ValueError);
    }
    var points := CollectPoints(tracks);
    if |points| < 2 {
      return Raised(ValueError);
    }
    var date := if points[0].time.Some? then points[0].time.value.day else today;
    var seconds := 0;
    var duration := Time(0, 0, 0);
    if points[0].time.Some? && points[|points| - 1].time.Some? {
      seconds := ElapsedSeconds(points[0].time.value, points[|points| - 1].time.value);
      duration := Split(seconds);
    }
    var elevation := ElevationGain(points);
    var hours := if points[0].time.Some? && points[|points| - 1].time.Some? then seconds as real / 3600.0 else 0.0;
    r := Ok(TraceFacts(date, duration, elevation, CaloriesEstimate(sport, hours, elevation)));
  }

  /** `creerActivite`: ValueError for a trace without two points, otherwise
      a new activity with the given id, owner, name, sport, description and
      file, the facts of the trace, no likes and no comments. */
  method CreateFromTrace(tracks: seq<Track>, gpxFile: string, id: int, owner: nat, name: string,
                         sport: string, description: string, today: CalendarDate)
      returns (r: Outcome<Activity>)
    ensures r.Raised? <==> TraceFactsOf(tracks, sport, today).Raised?
    ensures r.Raised? ==> r.error == ValueError
    ensures r.Ok? ==>
              var facts := TraceFactsOf(tracks, sport, today).value;
              && fresh(r.value) && r.value.id == id && r.value.owner == owner
              && r.value.Snapshot() == Fields(name, sport, facts.date, facts.duration, description, gpxFile,
                                               facts.elevation, facts.calories)
              && r.value.likes == [] && r.value.comments == []
    ensures r.Ok? ==> 0 <= r.value.elevation
  {
    var facts := ReadTrace(tracks, sport, today);
    if facts.Raised? {
      return Raised(facts.error);
    }
    var f := facts.value;
    var activity := new Activity(id, owner, name, sport, f.date, f.duration, description, gpxFile,
                                 [], [], f.elevation, f.calories);
    r := Ok(activity);
  }
}
