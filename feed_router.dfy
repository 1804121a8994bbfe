/** The feed endpoints (fil_router): the feed with the viewer's like state,
    the last seven days' projection, and the feed statistics. */
module FeedRouter {
  import opened Common
  import opened Seqs
  import opened Dicts
  import opened Calendar
  import opened Rows
  import opened Feed

  /** One item of the feed response (FilActualiteItem). */
  datatype FeedResponseItem = FeedResponseItem(
    activity: Activity, author: Option<UserRow>, likes: nat, comments: nat, likedByViewer: bool)

  /** The loop of the feed endpoint: each service entry, with whether the
      viewer has a Like row on its activity. */
  method WithLikeState(likes: set<(nat, nat)>, viewer: nat, feed: seq<FeedItem>)
    returns (response: seq<FeedResponseItem>)
    ensures |response| == |feed|
    ensures forall i :: 0 <= i < |feed| ==>
              && response[i].activity == feed[i].activity
              && response[i].author == feed[i].author
              && response[i].likes == feed[i].likes
              && response[i].comments == feed[i].comments
              && (response[i].likedByViewer <==> (viewer, feed[i].activity.id) in likes)
  {
    response := [];
    var i := 0;
    while i < |feed|
      invariant 0 <= i <= |feed|
      invariant |response| == i
      invariant forall k :: 0 <= k < i ==>
                  && response[k].activity == feed[k].activity
                  && response[k].author == feed[k].author
                  && response[k].likes == feed[k].likes
                  && response[k].comments == feed[k].comments
                  && (response[k].likedByViewer <==> (viewer, feed[k].activity.id) in likes)
    {
      var item := feed[i];
      var liked := (viewer, item.activity.id) in likes;
      response := response + [FeedResponseItem(item.activity, item.author, item.likes, item.comments, liked)];
      i := i + 1;
    }
  }

  /** GET /fil/{user_id}: the service's OverflowError, or its feed, same
      length and order, each item marked with whether the viewer liked
      it. */
  method FeedEndpoint(db: Database, viewer: nat, today: CalendarDate, days: int, limit: nat)
    returns (r: Outcome<seq<FeedResponseItem>>)
    ensures r.Raised? <==> FeedOverflows(db, viewer, today, days)
    ensures r.Raised? ==> r.error == OverflowError
    ensures r.Ok? ==>
              var acts, response := FeedQuery(db, viewer, today, days, limit), r.value;
              && |response| == |acts|
              && forall i :: 0 <= i < |acts| ==>
                   && response[i].activity == acts[i]
                   && response[i].author == UserById(db.users, acts[i].owner)
                   && response[i].likes == LikeCount(db.likes, acts[i].id)
                   && response[i].comments == CommentCount(db.comments, acts[i].id)
                   && (response[i].likedByViewer <==> (viewer, acts[i].id) in db.likes)
  {
    var feed := NewsFeed(db, viewer, today, days, limit);
    if feed.Raised? {
      return Raised(feed.error);
    }
    var response := WithLikeState(db.likes, viewer, feed.value);
    r := Ok(response);
  }

  // ----- GET /fil/{user_id}/recentes -----

  /** One entry of the `activites` list of /recentes. */
  datatype RecentItem = RecentItem(
    id: nat, name: Option<string>, sport: string, date: CalendarDate, authorPseudo: string, likes: nat, comments: nat)

  datatype RecentReport = RecentReport(user: nat, count: nat, items: seq<RecentItem>)

  /** The projection of one feed entry; reading the pseudo of a missing
      author raises AttributeError. */
  function RecentItemOf(item: FeedItem): Outcome<RecentItem>
  {
    if item.author.None? then Raised(AttributeError)
    else
      var a := item.activity;
      Ok(RecentItem(a.id, a.name, a.sport, a.date, item.author.value.pseudo, item.likes, item.comments))
  }

  /** The list comprehension of /recentes, raising on the first entry whose
      projection raises. */
  function RecentItems(feed: seq<FeedItem>): Outcome<seq<RecentItem>>
  {
    if feed == [] then Ok([])
    else
      match RecentItems(DropLast(feed))
      case Raised(e) => Raised(e)
      case Ok(init) =>
        match RecentItemOf(Last(feed))
        case Raised(e) => Raised(e)
        case Ok(item) => Ok(init + [item])
  }

  /** The projection fails exactly when some entry has no author; otherwise
      it keeps length and order and copies each entry's fields. */
  lemma {:induction false} RecentItemsMeaning(feed: seq<FeedItem>)
    ensures RecentItems(feed).Raised? <==> exists i :: 0 <= i < |feed| && feed[i].author.None?
    ensures RecentItems(feed).Raised? ==> RecentItems(feed).error == AttributeError
    ensures RecentItems(feed).Ok? ==>
              var items := RecentItems(feed).value;
              && |items| == |feed|
              && forall i :: 0 <= i < |feed| ==>
                   && items[i].id == feed[i].activity.id
                   && items[i].name == feed[i].activity.name
                   && items[i].sport == feed[i].activity.sport
                   && items[i].date == feed[i].activity.date
                   && items[i].authorPseudo == feed[i].author.value.pseudo
                   && items[i].likes == feed[i].likes
                   && items[i].comments == feed[i].comments
  {
    if feed != [] {
      var init := DropLast(feed);
      assert forall i :: 0 <= i < |init| ==> init[i] == feed[i];
      RecentItemsMeaning(init);
      if RecentItems(init).Raised? {
        var i :| 0 <= i < |init| && init[i].author.None?;
        assert feed[i].author.None?;
      }
    }
  }

  /** GET /fil/{user_id}/recentes: a 7-day feed projected to summaries;
      `nombre_activites` is the number of listed activities. The service
      raises OverflowError when the viewer follows someone and today is
      one of the first seven days of year 1. */
  method RecentActivities(db: Database, viewer: nat, today: CalendarDate, limit: nat)
    returns (r: Outcome<RecentReport>)
    ensures var feed := ItemsOf(db, FeedQuery(db, viewer, today, 7, limit));
            && (r.Raised? <==> FeedOverflows(db, viewer, today, 7) || RecentItems(feed).Raised?)
            && (r.Raised? ==> r.error == if FeedOverflows(db, viewer, today, 7) then OverflowError else AttributeError)
            && (r.Ok? ==> r.value == RecentReport(viewer, |feed|, RecentItems(feed).value))
    ensures r.Ok? ==> r.value.count == |r.value.items| == |FeedQuery(db, viewer, today, 7, limit)|
  {
    var feed := NewsFeed(db, viewer, today, 7, limit);
    if feed.Raised? {
      return Raised(feed.error);
    }
    RecentItemsMeaning(feed.value);
    var items := RecentItems(feed.value);
    if items.Raised? {
      return Raised(items.error);
    }
    r := Ok(RecentReport(viewer, |feed.value|, items.value));
  }

  // ----- GET /fil/{user_id}/statistiques -----

  /** The statistics of a feed: the "Fil vide" message for an empty feed,
      otherwise the counts, the distinct authors, the activities per sport,
      the like and comment totals and their means per activity. */
  datatype FeedStats =
    | EmptyFeed
    | FeedStats(
        days: int, count: nat, activeUsers: nat, sports: Dict<string, int>,
        totalLikes: nat, totalComments: nat, meanLikes: real, meanComments: real)

  /** The ids of the authors of the feed entries. */
  function AuthorIds(feed: seq<FeedItem>): set<nat>
  {
    if feed == [] then {}
    else
      var init := AuthorIds(DropLast(feed));
      if Last(feed).author.Some? then init + {Last(feed).author.value.id} else init
  }

  const ItemSport: FeedItem -> string := (item: FeedItem) => item.activity.sport

  function TotalLikes(feed: seq<FeedItem>): nat
  {
    if feed == [] then 0 else TotalLikes(DropLast(feed)) + Last(feed).likes
  }

  function TotalComments(feed: seq<FeedItem>): nat
  {
    if feed == [] then 0 else TotalComments(DropLast(feed)) + Last(feed).comments
  }

  predicate MissingAuthor(feed: seq<FeedItem>)
  {
    exists i :: 0 <= i < |feed| && feed[i].author.None?
  }

  /** What obtenir_statistiques_fil computes from a feed: reading the id of
      a missing author raises AttributeError. */
  function FeedStatsOf(feed: seq<FeedItem>, days: int): Outcome<FeedStats>
  {
    if feed == [] then Ok(EmptyFeed)
    else if MissingAuthor(feed) then Raised(AttributeError)
    else
      var likes, comments := TotalLikes(feed), TotalComments(feed);
      Ok(FeedStats(days, |feed|, |AuthorIds(feed)|, CountBy(feed, ItemSport), likes, comments,
                   PerActivity(likes, |feed|), PerActivity(comments, |feed|)))
  }

  /** The statistics loop: add each author to a set, count each sport, add
      up likes and comments. */
  method StatsOfFeed(feed: seq<FeedItem>, days: int) returns (r: Outcome<FeedStats>)
    ensures r == FeedStatsOf(feed, days)
  {
    if feed == [] {
      return Ok(EmptyFeed);
    }
    var authors: set<nat> := {};
    var sports: Dict<string, int> := [];
    var likes: nat := 0;
    var comments: nat := 0;
    var i := 0;
    while i < |feed|
      invariant 0 <= i <= |feed|
      invariant !MissingAuthor(feed[..i])
      invariant authors == AuthorIds(feed[..i])
      invariant sports == CountBy(feed[..i], ItemSport)
      invariant likes == TotalLikes(feed[..i]) && comments == TotalComments(feed[..i])
    {
      var item := feed[i];
      assert DropLast(feed[..i + 1]) == feed[..i];
      if item.author.None? {
        assert feed[i].author.None?;
        return Raised(AttributeError);
      }
      authors := authors + {item.author.value.id};
      sports := Put(sports, item.activity.sport, GetOrDefault(sports, item.activity.sport, 0) + 1);
      likes := likes + item.likes;
      comments := comments + item.comments;
      i := i + 1;
    }
    assert feed[..i] == feed;
    r := Ok(FeedStats(days, |feed|, |authors|, sports, likes, comments,
                      PerActivity(likes, |feed|), PerActivity(comments, |feed|)));
  }

  /** GET /fil/{user_id}/statistiques: the service's OverflowError, or the
      statistics of the feed of the last `days` days, capped at 1000
      activities. */
  method FeedStatistics(db: Database, viewer: nat, today: CalendarDate, days: int)
    returns (r: Outcome<FeedStats>)
    ensures r == if FeedOverflows(db, viewer, today, days) then Raised(OverflowError)
                 else FeedStatsOf(ItemsOf(db, FeedQuery(db, viewer, today, days, 1000)), days)
  {
    var feed := NewsFeed(db, viewer, today, days, 1000);
    if feed.Raised? {
      return Raised(feed.error);
    }
    r := StatsOfFeed(feed.value, days);
  }

  /** There are no more distinct authors than entries. */
  lemma {:induction false} AuthorIdsBound(feed: seq<FeedItem>)
    ensures |AuthorIds(feed)| <= |feed|
  {
    if feed != [] {
      AuthorIdsBound(DropLast(feed));
    }
  }

  /** An id is an author id exactly when some entry has that author. */
  lemma {:induction false} AuthorIdsMembers(feed: seq<FeedItem>)
    ensures forall id :: id in AuthorIds(feed) <==>
              exists i :: 0 <= i < |feed| && feed[i].author.Some? && feed[i].author.value.id == id
  {
    if feed != [] {
      var init := DropLast(feed);
      AuthorIdsMembers(init);
      assert forall i :: 0 <= i < |init| ==> init[i] == feed[i];
    }
  }

  /** The statistics of a non-empty feed: `nb_activites` is the feed
      length; the distinct authors are no more than the entries; the
      per-sport counts name each sport once and add up to the feed
      length; the like and comment totals are those of the entries, and
      each mean per activity times the feed length gives its total. */
  lemma FeedStatsCounts(feed: seq<FeedItem>, days: int)
    requires feed != [] && FeedStatsOf(feed, days).Ok?
    ensures FeedStatsOf(feed, days).value.FeedStats?
    ensures FeedStatsOf(feed, days).value.count == |feed|
    ensures FeedStatsOf(feed, days).value.activeUsers == |AuthorIds(feed)| <= |feed|
    ensures UniqueKeys(FeedStatsOf(feed, days).value.sports)
    ensures SumValues(FeedStatsOf(feed, days).value.sports) == |feed|
    ensures var stats := FeedStatsOf(feed, days).value;
            && stats.totalLikes == TotalLikes(feed) && stats.totalComments == TotalComments(feed)
            && MeanTimes(stats.meanLikes, stats.totalLikes, |feed|)
            && MeanTimes(stats.meanComments, stats.totalComments, |feed|)
  {
    AuthorIdsBound(feed);
    CountByUnique(feed, ItemSport);
    CountBySum(feed, ItemSport);
    PerActivityMeaning(TotalLikes(feed), |feed|);
    PerActivityMeaning(TotalComments(feed), |feed|);
  }

  /** `total / len(fil) if fil else 0`, unrounded. */
  function PerActivity(total: nat, count: nat): real
  {
    if count > 0 then total as real / count as real else 0.0
  }

  /** `mean` times `count` activities is `total`. */
  predicate MeanTimes(mean: real, total: nat, count: nat)
  {
    mean * count as real == total as real
  }

  lemma PerActivityMeaning(total: nat, count: nat)
    requires count > 0
    ensures MeanTimes(PerActivity(total, count), total, count)
  {
  }

  /** Each sport's count is the number of entries of that sport, and a
      sport is listed only if some entry has it. */
  lemma FeedStatsSports(feed: seq<FeedItem>, days: int, sport: string)
    requires feed != [] && FeedStatsOf(feed, days).Ok?
    ensures var n := |Filter(feed, KeyIs(ItemSport, sport))|;
            Get(FeedStatsOf(feed, days).value.sports, sport) == if n == 0 then None else Some(n)
  {
    CountByEntry(feed, ItemSport, sport);
  }
}
