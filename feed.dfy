/** The news feed service (FilActualiteService): the activities of the users
    a viewer follows, newest first, with their like and comment counts; the
    user search by pseudo; and the suggestions of users to follow. */
module Feed {
  import opened Common
  import opened Seqs
  import opened Dicts
  import opened Calendar
  import opened Text
  import opened Rows

  /** The ids of the users `viewer` follows: the followed side of the
      viewer's Follow rows. */
  function Followees(follows: set<(nat, nat)>, viewer: nat): set<nat>
  {
    set p | p in follows && p.0 == viewer :: p.1
  }

  lemma FolloweesMembers(follows: set<(nat, nat)>, viewer: nat)
    ensures forall u :: u in Followees(follows, viewer) <==> (viewer, u) in follows
  {
    forall u | (viewer, u) in follows ensures u in Followees(follows, viewer) {
      var p := (viewer, u);
      assert p in follows && p.0 == viewer;
    }
  }

  /** `date.today() - timedelta(days=nb_jours)` as a day ordinal. */
  function DayWindowStart(today: CalendarDate, days: int): int
  {
    Ordinal(today) - days
  }

  /** The window start is DaysBefore's value whenever that is a date. */
  lemma DayWindowStartOf(today: CalendarDate, days: int)
    ensures DaysBefore(today, days)
            == if 1 <= DayWindowStart(today, days) <= MaxOrdinal then Ok(DayWindowStart(today, days))
               else Raised(OverflowError)
  {
    DaysBeforeOf(today, days);
  }

  /** WHERE utilisateur_id IN followees AND date_activite >= start */
  function Eligible(followees: set<nat>, start: int): Activity -> bool
  {
    (a: Activity) => a.owner in followees && Ordinal(a.date) >= start
  }

  /** The activities a feed may show, newest first (stable on equal dates). */
  function EligibleNewestFirst(db: Database, viewer: nat, today: CalendarDate, days: int): seq<Activity>
  {
    SortBy(Filter(db.activities, Eligible(Followees(db.follows, viewer), DayWindowStart(today, days))), NewestFirst)
  }

  /** obtenir_fil_actualite raises OverflowError: the viewer follows
      someone, so it computes `date.today() - timedelta(days=nb_jours)`,
      and that is not a date. */
  predicate FeedOverflows(db: Database, viewer: nat, today: CalendarDate, days: int)
  {
    Followees(db.follows, viewer) != {} && DaysBefore(today, days).Raised?
  }

  /** The activity query of obtenir_fil_actualite: nothing for a viewer who
      follows no one, otherwise the followees' activities of the last `days`
      days, newest first, at most `limit` of them. */
  function FeedQuery(db: Database, viewer: nat, today: CalendarDate, days: int, limit: nat): seq<Activity>
  {
    if Followees(db.follows, viewer) == {} then []
    else Take(EligibleNewestFirst(db, viewer, today, days), limit)
  }

  /** Every feed activity is in the table, owned by a user the viewer
      follows and inside the day window; dates never increase along the
      feed, and there are at most `limit` of them. */
  lemma FeedQueryMeaning(db: Database, viewer: nat, today: CalendarDate, days: int, limit: nat)
    ensures var feed := FeedQuery(db, viewer, today, days, limit);
            && |feed| <= limit
            && (forall i :: 0 <= i < |feed| ==>
                  && feed[i] in db.activities
                  && (viewer, feed[i].owner) in db.follows
                  && Ordinal(feed[i].date) >= DayWindowStart(today, days))
            && (forall i, j :: 0 <= i < j < |feed| ==> Ordinal(feed[j].date) <= Ordinal(feed[i].date))
  {
    var followees := Followees(db.follows, viewer);
    var p := Eligible(followees, DayWindowStart(today, days));
    var eligible := Filter(db.activities, p);
    FilterMembers(db.activities, p);
    SortedMembers(eligible, NewestFirst);
    FolloweesMembers(db.follows, viewer);
    var feed := FeedQuery(db, viewer, today, days, limit);
    forall i | 0 <= i < |feed|
      ensures feed[i] in eligible
    {
      assert feed[i] == EligibleNewestFirst(db, viewer, today, days)[i];
    }
  }

  /** A viewer who follows no one gets an empty feed, whatever the
      activity table holds. */
  lemma NoFolloweesNoFeed(db: Database, viewer: nat, today: CalendarDate, days: int, limit: nat)
    requires forall u :: (viewer, u) !in db.follows
    ensures FeedQuery(db, viewer, today, days, limit) == []
  {
    FolloweesMembers(db.follows, viewer);
    assert Followees(db.follows, viewer) == {};
  }

  /** The limit cuts the whole sorted list, not each followee's share: an
      eligible activity left out of the feed means the feed is full, and
      the activity is no newer than the last one shown. */
  lemma FeedTruncation(db: Database, viewer: nat, today: CalendarDate, days: int, limit: nat, a: Activity)
    requires a in db.activities && (viewer, a.owner) in db.follows
    requires Ordinal(a.date) >= DayWindowStart(today, days)
    requires a !in FeedQuery(db, viewer, today, days, limit)
    ensures var feed := FeedQuery(db, viewer, today, days, limit);
            |feed| == limit && (limit > 0 ==> Ordinal(a.date) <= Ordinal(Last(feed).date))
  {
    var followees := Followees(db.follows, viewer);
    FolloweesMembers(db.follows, viewer);
    assert a.owner in followees;
    var p := Eligible(followees, DayWindowStart(today, days));
    var eligible := Filter(db.activities, p);
    FilterMembers(db.activities, p);
    var sorted := EligibleNewestFirst(db, viewer, today, days);
    SortedMembers(eligible, NewestFirst);
    assert a in sorted;
    var j :| 0 <= j < |sorted| && sorted[j] == a;
    var feed := FeedQuery(db, viewer, today, days, limit);
    assert feed == Take(sorted, limit);
    if limit > 0 {
      assert NewestFirst(sorted[limit - 1]) <= NewestFirst(sorted[j]);
    }
  }

  /** One feed entry: the activity, its author's row, and how many users
      liked it and how many comments it has. */
  datatype FeedItem = FeedItem(activity: Activity, author: Option<UserRow>, likes: nat, comments: nat)

  /** `query(Utilisateur).filter(id == id).first()` */
  function UserById(users: seq<UserRow>, id: nat): (r: Option<UserRow>)
    ensures r.Some? ==> r.value in users && r.value.id == id
    ensures r.None? <==> forall i :: 0 <= i < |users| ==> users[i].id != id
  {
    if users == [] then None
    else if users[0].id == id then Some(users[0])
    else
      var r := UserById(users[1..], id);
      assert forall i :: 1 <= i < |users| ==> users[i] == users[1..][i - 1];
      r
  }

  /** `len(activite.likers)`: the users with a Like row on the activity. */
  function LikeCount(likes: set<(nat, nat)>, activity: nat): nat
  {
    |set p | p in likes && p.1 == activity|
  }

  function OnActivity(activity: nat): CommentRow -> bool
  {
    (c: CommentRow) => c.activity == activity
  }

  /** `len(activite.commentaires)` */
  function CommentCount(comments: seq<CommentRow>, activity: nat): nat
  {
    |Filter(comments, OnActivity(activity))|
  }

  /** The entry obtenir_fil_actualite builds for an activity. */
  function ItemOf(db: Database, a: Activity): FeedItem
  {
    FeedItem(a, UserById(db.users, a.owner), LikeCount(db.likes, a.id), CommentCount(db.comments, a.id))
  }

  /** An entry carries the activity, its author when the user exists, the
      number of users who liked it and the number of its comments. */
  lemma ItemOfMeaning(db: Database, a: Activity)
    ensures var item := ItemOf(db, a);
            && item.activity == a
            && (item.author.Some? ==> item.author.value in db.users && item.author.value.id == a.owner)
            && item.likes == |set p | p in db.likes && p.1 == a.id|
            && item.comments == |Filter(db.comments, OnActivity(a.id))|
  {
  }

  /** The entries of the given activities, in their order. */
  function ItemsOf(db: Database, acts: seq<Activity>): (items: seq<FeedItem>)
    ensures |items| == |acts|
    ensures forall i :: 0 <= i < |acts| ==> items[i] == ItemOf(db, acts[i])
  {
    seq(|acts|, i requires 0 <= i < |acts| => ItemOf(db, acts[i]))
  }

  /** obtenir_fil_actualite: an empty feed for a viewer who follows no
      one; otherwise the OverflowError of the window start, or one entry
      per queried activity, in query order. */
  method NewsFeed(db: Database, viewer: nat, today: CalendarDate, days: int, limit: nat)
    returns (r: Outcome<seq<FeedItem>>)
    ensures r.Raised? <==> FeedOverflows(db, viewer, today, days)
    ensures r.Raised? ==> r.error == OverflowError
    ensures r.Ok? ==> r.value == ItemsOf(db, FeedQuery(db, viewer, today, days, limit))
  {
    var followees := Followees(db.follows, viewer);
    if followees == {} {
      return Ok([]);
    }
    var start := DaysBefore(today, days);
    DayWindowStartOf(today, days);
    if start.Raised? {
      return Raised(start.error);
    }
    var acts := Take(SortBy(Filter(db.activities, Eligible(followees, start.value)), NewestFirst), limit);
    var feed := BuildItems(db, acts);
    r := Ok(feed);
  }

  /** The loop of obtenir_fil_actualite that builds one entry per activity. */
  method BuildItems(db: Database, acts: seq<Activity>) returns (feed: seq<FeedItem>)
    ensures feed == ItemsOf(db, acts)
  {
    feed := [];
    var i := 0;
    while i < |acts|
      invariant 0 <= i <= |acts|
      invariant |feed| == i
      invariant forall k :: 0 <= k < i ==> feed[k] == ItemOf(db, acts[k])
    {
      var a := acts[i];
      var author := UserById(db.users, a.owner);
      var likes := LikeCount(db.likes, a.id);
      var comments := CommentCount(db.comments, a.id);
      feed := feed + [FeedItem(a, author, likes, comments)];
      i := i + 1;
    }
  }

  // ----- User search -----

  function PseudoLike(pattern: string): UserRow -> bool
  {
    (u: UserRow) => ILike(u.pseudo, pattern)
  }

  /** rechercher_utilisateurs: `pseudo.ilike('%pattern%')`, at most `limit`
      users, in table order. The pattern is not escaped, so a `%` or `_` in
      it acts as a wildcard. */
  function SearchUsers(users: seq<UserRow>, pattern: string, limit: nat): seq<UserRow>
  {
    Take(Filter(users, PseudoLike("%" + pattern + "%")), limit)
  }

  /** The search returns at most `limit` users whose pseudo matches, and a
      matching user is missing only when the result is full. */
  lemma SearchUsersMeaning(users: seq<UserRow>, pattern: string, limit: nat)
    ensures |SearchUsers(users, pattern, limit)| <= limit
    ensures forall u :: u in SearchUsers(users, pattern, limit) ==> u in users && ILike(u.pseudo, "%" + pattern + "%")
    ensures forall u :: u in users && ILike(u.pseudo, "%" + pattern + "%") && u !in SearchUsers(users, pattern, limit) ==>
              |SearchUsers(users, pattern, limit)| == limit
  {
    var p := PseudoLike("%" + pattern + "%");
    var all := Filter(users, p);
    FilterMembers(users, p);
    var r := SearchUsers(users, pattern, limit);
    forall u | u in r ensures u in all {
      var i :| 0 <= i < |r| && r[i] == u;
      assert r[i] == all[i];
    }
    forall u | u in users && ILike(u.pseudo, "%" + pattern + "%") && u !in r
      ensures |r| == limit
    {
      assert p(u);
    }
  }

  /** A pattern without wildcards finds exactly the pseudos that contain
      it once A-Z are folded (SQLite's `lower()` leaves accented capitals
      as they are): every user found contains it, and one that contains
      it is left out only when the result is full. */
  lemma SearchUsersContain(users: seq<UserRow>, pattern: string, limit: nat)
    requires NoWildcards(pattern)
    ensures forall u :: u in SearchUsers(users, pattern, limit) ==> Contains(AsciiLower(u.pseudo), AsciiLower(pattern))
    ensures forall u :: u in users && Contains(AsciiLower(u.pseudo), AsciiLower(pattern)) && u !in SearchUsers(users, pattern, limit) ==>
              |SearchUsers(users, pattern, limit)| == limit
  {
    SearchUsersMeaning(users, pattern, limit);
    forall u | u in SearchUsers(users, pattern, limit)
      ensures Contains(AsciiLower(u.pseudo), AsciiLower(pattern))
    {
      ILikeContains(u.pseudo, pattern);
    }
    forall u | u in users && Contains(AsciiLower(u.pseudo), AsciiLower(pattern)) && u !in SearchUsers(users, pattern, limit)
      ensures |SearchUsers(users, pattern, limit)| == limit
    {
      ILikeContains(u.pseudo, pattern);
    }
  }

  // ----- Suggestions -----

  const OwnerOf: Activity -> nat := (a: Activity) => a.owner

  /** The number of activities of user `u`. */
  function ActivityCount(activities: seq<Activity>, u: nat): nat
  {
    |Filter(activities, KeyIs(OwnerOf, u))|
  }

  const MostActiveFirst: ((nat, int)) -> int := (c: (nat, int)) => -c.1

  /** The users with activities and their activity counts (GROUP BY
      utilisateur_id), most active first, at most `limit` of them. */
  function ActiveUsers(activities: seq<Activity>, limit: nat): seq<(nat, int)>
  {
    Take(SortBy(CountBy(activities, OwnerOf), MostActiveFirst), limit)
  }

  /** Each candidate is a user with activities and their true count, and
      the candidates come most active first. */
  lemma ActiveUsersMeaning(activities: seq<Activity>, limit: nat)
    ensures var cands := ActiveUsers(activities, limit);
            && |cands| <= limit
            && (forall i :: 0 <= i < |cands| ==> cands[i].1 == ActivityCount(activities, cands[i].0) > 0)
            && (forall i, j :: 0 <= i < j < |cands| ==> cands[i].1 >= cands[j].1)
  {
    var d := CountBy(activities, OwnerOf);
    var sorted := SortBy(d, MostActiveFirst);
    var cands := ActiveUsers(activities, limit);
    CountByUnique(activities, OwnerOf);
    SortedMembers(d, MostActiveFirst);
    forall i | 0 <= i < |cands|
      ensures cands[i].1 == ActivityCount(activities, cands[i].0) > 0
    {
      assert cands[i] == sorted[i];
      assert cands[i] in d;
      var j :| 0 <= j < |d| && d[j] == cands[i];
      GetIndex(d, cands[i].0);
      CountByEntry(activities, OwnerOf, cands[i].0);
    }
    forall i, j | 0 <= i < j < |cands| ensures cands[i].1 >= cands[j].1 {
      assert MostActiveFirst(sorted[i]) <= MostActiveFirst(sorted[j]);
    }
  }

  /** The rows the suggestion loop appends, in candidate order: candidates
      not excluded whose user row exists. */
  function SuggestedRows(cands: seq<(nat, int)>, users: seq<UserRow>, excluded: set<nat>): seq<UserRow>
  {
    if cands == [] then []
    else
      var init := SuggestedRows(DropLast(cands), users, excluded);
      var id := Last(cands).0;
      if id !in excluded && UserById(users, id).Some? then init + [UserById(users, id).value] else init
  }

  lemma {:induction false} SuggestedRowsAppend(a: seq<(nat, int)>, b: seq<(nat, int)>, users: seq<UserRow>, excluded: set<nat>)
    ensures SuggestedRows(a + b, users, excluded) == SuggestedRows(a, users, excluded) + SuggestedRows(b, users, excluded)
  {
    if b == [] {
      assert a + b == a;
    } else {
      assert DropLast(a + b) == a + DropLast(b);
      SuggestedRowsAppend(a, DropLast(b), users, excluded);
    }
  }

  /** `id` is the user id of one of the candidates. */
  predicate FromCandidate(cands: seq<(nat, int)>, id: nat)
  {
    exists j :: 0 <= j < |cands| && cands[j].0 == id
  }

  /** Every suggested row is the row of a candidate that is not excluded,
      and, when the candidates come in non-increasing order of a score,
      so do the suggested rows. */
  lemma {:induction false} SuggestedRowsMeaning(
    cands: seq<(nat, int)>, users: seq<UserRow>, excluded: set<nat>, score: nat -> int)
    requires forall i :: 0 <= i < |cands| ==> cands[i].1 == score(cands[i].0)
    requires forall i, j :: 0 <= i < j < |cands| ==> cands[i].1 >= cands[j].1
    ensures forall k :: 0 <= k < |SuggestedRows(cands, users, excluded)| ==>
              var row := SuggestedRows(cands, users, excluded)[k];
              row in users && row.id !in excluded && FromCandidate(cands, row.id)
    ensures forall k, l :: 0 <= k < l < |SuggestedRows(cands, users, excluded)| ==>
              score(SuggestedRows(cands, users, excluded)[k].id) >= score(SuggestedRows(cands, users, excluded)[l].id)
  {
    if cands != [] {
      var init := DropLast(cands);
      assert forall i :: 0 <= i < |init| ==> init[i] == cands[i];
      SuggestedRowsMeaning(init, users, excluded, score);
      var prev := SuggestedRows(init, users, excluded);
      forall k | 0 <= k < |prev| ensures FromCandidate(cands, prev[k].id) && score(prev[k].id) >= Last(cands).1 {
        var row := SuggestedRows(init, users, excluded)[k];
        assert FromCandidate(init, row.id);
        var j :| 0 <= j < |init| && init[j].0 == row.id;
        assert cands[j].0 == row.id;
        assert cands[j].1 >= cands[|cands| - 1].1;
      }
      var id := Last(cands).0;
      if id !in excluded && UserById(users, id).Some? {
        assert SuggestedRows(cands, users, excluded) == prev + [UserById(users, id).value];
        assert FromCandidate(cands, id) by {
          assert cands[|cands| - 1].0 == id;
        }
      }
    }
  }

  /** The loop of obtenir_suggestions_utilisateurs: append each candidate
      that is neither followed nor the viewer and whose row exists, and stop
      once `limit` rows are collected. The check follows the append, so a
      limit of 0 still lets one row through. */
  method PickSuggestions(cands: seq<(nat, int)>, users: seq<UserRow>, excluded: set<nat>, limit: nat)
    returns (picked: seq<UserRow>)
    ensures picked == Take(SuggestedRows(cands, users, excluded), if limit == 0 then 1 else limit)
  {
    var cap := if limit == 0 then 1 else limit;
    picked := [];
    var i := 0;
    while i < |cands|
      invariant 0 <= i <= |cands|
      invariant picked == SuggestedRows(cands[..i], users, excluded)
      invariant |picked| < cap
    {
      assert cands[..i + 1] == cands[..i] + [cands[i]];
      assert DropLast(cands[..i + 1]) == cands[..i];
      var id := cands[i].0;
      if id !in excluded {
        var user := UserById(users, id);
        if user.Some? {
          picked := picked + [user.value];
          if |picked| >= limit {
            assert cands == cands[..i + 1] + cands[i + 1..];
            SuggestedRowsAppend(cands[..i + 1], cands[i + 1..], users, excluded);
            return;
          }
        }
      }
      i := i + 1;
    }
    assert cands[..i] == cands;
  }

  /** obtenir_suggestions_utilisateurs: the `2 * limit` most active users,
      minus the viewer and the users the viewer follows, at most `limit`. */
  method Suggestions(db: Database, viewer: nat, limit: nat) returns (r: seq<UserRow>)
    ensures r == Take(SuggestedRows(ActiveUsers(db.activities, 2 * limit), db.users,
                                    Followees(db.follows, viewer) + {viewer}),
                      if limit == 0 then 1 else limit)
  {
    var excluded := Followees(db.follows, viewer) + {viewer};
    var cands := ActiveUsers(db.activities, 2 * limit);
    r := PickSuggestions(cands, db.users, excluded, limit);
  }

  /** The suggestions are at most `limit` existing users, never the viewer
      nor anyone the viewer follows, each with at least one activity, in
      non-increasing order of activity count. */
  lemma SuggestionsMeaning(db: Database, viewer: nat, limit: nat)
    ensures var r := Take(SuggestedRows(ActiveUsers(db.activities, 2 * limit), db.users,
                                        Followees(db.follows, viewer) + {viewer}),
                          if limit == 0 then 1 else limit);
            && |r| <= limit
            && (forall k :: 0 <= k < |r| ==>
                  && r[k] in db.users
                  && r[k].id != viewer
                  && (viewer, r[k].id) !in db.follows
                  && ActivityCount(db.activities, r[k].id) > 0)
            && (forall k, l :: 0 <= k < l < |r| ==>
                  ActivityCount(db.activities, r[k].id) >= ActivityCount(db.activities, r[l].id))
  {
    var excluded := Followees(db.follows, viewer) + {viewer};
    var cands := ActiveUsers(db.activities, 2 * limit);
    ActiveUsersMeaning(db.activities, 2 * limit);
    var score := (u: nat) => ActivityCount(db.activities, u);
    SuggestedRowsMeaning(cands, db.users, excluded, score);
    FolloweesMembers(db.follows, viewer);
    var rows := SuggestedRows(cands, db.users, excluded);
    if limit == 0 {
      assert cands == [];
      assert rows == [];
    }
    var r := Take(rows, if limit == 0 then 1 else limit);
    forall k | 0 <= k < |r| ensures ActivityCount(db.activities, r[k].id) > 0 {
      assert r[k] == rows[k];
      var j :| 0 <= j < |cands| && cands[j].0 == rows[k].id;
    }
  }
}
