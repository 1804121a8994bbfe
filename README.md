# A fitness social network, modelled in Dafny

The system is a small sports-tracking social network. Users record
activities (a sport, a date, a duration, optional distance, elevation gain
and calories, an uploaded GPX trace), follow one another, like activities and
comment on them. On top of the tables sit a statistics engine (activities,
hours and kilometres per ISO week, per-sport totals, personal records,
progression between the two halves of a period, a global summary and a
dashboard), a news feed built from the activities of the users one follows,
user search and suggestions, and the upload handler that stores GPX files
under a sanitised name.

This project models the logic of that system and proves what it promises.

- **Tables.** The database is replaced by in-memory tables held in classes:
  - follows and likes are sets of pairs (`FollowDao.FollowStore`, `LikeDao.LikeStore`);
  - comments and activities are sequences of rows with increasing ids
    (`CommentDao.CommentStore`, `ActivityDao.ActivityStore`).
  Queries are the functions `Filter` (a `WHERE`), `SortBy` (a stable
  `ORDER BY`) and `Take` (a `LIMIT`), and `limit` applies only when it is
  truthy, as in the source.
- **Business objects.** `CommentObject.Comment`, `UserObject.User` and
  `ActivityObject.Activity` are classes whose validating setters either
  update one field or raise `ValueError` and change nothing.
- **Statistics.** `Statistics` models the service: the counting and summing
  loops are methods proved equal to specification functions, and lemmas
  state what those functions mean. `StatisticsRouter` models the route
  that assembles the selected sections.
- **Feed.** `Feed` models the feed service (followees, day window, newest
  first, global truncation, decoration with likes and comments; search;
  suggestions), and `FeedRouter` models the routes built on it.
- **Upload.** `Upload` models `_safe_filename`, the `.gpx` check and the
  stored path.
- **Support modules.** `Calendar` computes `date.isocalendar()` (the week
  rule of ISO 8601: weeks start on Monday and week 1 holds the year's first
  Thursday) and the week key `"{year}-W{week:02d}"`. `Text` models `strip`,
  `split` and `lower`, SQLite's `lower()` (which folds only A-Z) and the
  case-insensitive match `lower(s) LIKE lower(p)` that SQLAlchemy's
  `ilike` becomes on SQLite. `Values` models the Python values
  handed to setters and `int()` on floats. `Common`, `Seqs`, `Dicts`,
  `Rows` and `Relations` hold the shared datatypes and sequence, dictionary
  and relation helpers.

Python exceptions are results: `Outcome<T>` is `Ok(value)` or
`Raised(error)`, with the error one of `TypeError`, `KeyError`,
`AttributeError`, `ValueError`, `ZeroDivisionError`, `OverflowError` and
`HttpError(400)`. `date.today() - timedelta(...)` raises `OverflowError`
when the result falls outside 1 January 1 to 31 December 9999; nothing in
the services catches it, so the statistics services, the feed and the
recent-activities query raise it, and the routes pass it on.
Python dictionaries keep insertion order, so they are association lists with
unique keys. `None` and `0` are both false in `if x:`, and the model tests
them the same way. Durations are integer seconds and distances metres; hours
and kilometres are exact `real` quotients. `date.today()` is a parameter
`today`.

The `Exists` predicates of the like and follow stores are `exists`,
`is_following` and `user_has_liked` of the source; `User.LogIn` is
`connexion`.

## Model

| member | source | states |
|---|---|---|
| Statistics.ActivitiesPerWeek | src/service/statistiques_service.py:35-58 | OverflowError exactly when today minus the weeks is not a date; otherwise the nested counts the counting loop builds over the user's activities dated on or after that day |
| Statistics.CountPerWeek | src/service/statistiques_service.py:47-58 | the loop ends with the counts of the week-key and sport pairs of the activities it read |
| Statistics.WeeklyCell | src/service/statistiques_service.py:49-58 | the cell of a week and sport holds the number of activities of that sport in that week, and is absent when that number is zero |
| Statistics.WeeklyKeys | src/service/statistiques_service.py:49-58 | a week key is present exactly when some activity falls in that ISO week |
| Statistics.WeeklyTotal | src/service/statistiques_service.py:49-58 | every activity adds one to exactly one cell, so the cells add up to the number of activities |
| Statistics.SumPerWeek | src/service/statistiques_service.py:93-101 | the float-sum loop ends with the per-week sums of the truthy column values, converted to km or hours |
| Statistics.KilometresPerWeek | src/service/statistiques_service.py:78-103 | OverflowError exactly when the window start is not a date; otherwise the sums over the user's window of the truthy distances divided by 1000 |
| Statistics.HoursPerWeek | src/service/statistiques_service.py:123-147 | OverflowError exactly when the window start is not a date; otherwise the sums over the user's window of the truthy durations divided by 3600 |
| Statistics.NullFilterRedundant | src/service/statistiques_service.py:82-101 | the `isnot(None)` filter of the query changes no sum, since the truthiness test already skips NULL |
| Statistics.WeeklySumsKeys | src/service/statistiques_service.py:93-101 | a week is a key exactly when one of its activities has a truthy value in the summed column |
| Statistics.WeeklySumsValue | src/service/statistiques_service.py:93-101 | each week's value is the total contribution of the activities of that week |
| Statistics.WeeklySumsTotal | src/service/statistiques_service.py:93-101 | the weekly sums add up to the total contribution of all activities |
| Statistics.StatisticsPerSport | src/service/statistiques_service.py:208-242 | the method gives the per-sport records of the user's window, or the OverflowError of the window start, or the TypeError of the loop |
| Statistics.PerSportLoop | src/service/statistiques_service.py:220-242 | the per-sport loop ends with the per-sport totals of the activities it read, or the TypeError it raises |
| Statistics.PerSportInRaises | src/service/statistiques_service.py:208-242 | the per-sport statistics raise exactly when the window start is not a date (OverflowError) or an activity of the window has a truthy distance and a NULL `d_plus` (TypeError) |
| Statistics.PerSportRaises | src/service/statistiques_service.py:235-237 | the per-sport statistics raise TypeError exactly when an activity has a truthy distance and a NULL `d_plus` |
| Statistics.PerSportEntry | src/service/statistiques_service.py:228-242 | a sport is a key exactly when it has an activity, and its record is the totals of that sport's activities |
| Statistics.TotalsAgree | src/service/statistiques_service.py:230-236 | a sport's record counts every activity, and its hours and kilometres are the same sums as the weekly statistics |
| Statistics.PerSportUnique | src/service/statistiques_service.py:220-242 | the per-sport dictionary never holds a sport twice |
| Statistics.MeanSign | src/service/statistiques_service.py:298-300 | `moyenne` is never negative, and is positive exactly when some value is positive |
| Statistics.MeanBelow | src/service/statistiques_service.py:298-300 | `moyenne` never exceeds a non-negative bound on the values |
| Statistics.ProgressionOf | src/service/statistiques_service.py:264-318 | OverflowError exactly when the window start is not a date; otherwise the progression report of the user's activities of that sport in the window |
| Statistics.ListPoints | src/service/statistiques_service.py:284-291 | the loop builds one point per activity, in order |
| Statistics.ProgressionReportMeaning | src/service/statistiques_service.py:276-318 | with no activity the report has no progression; otherwise it has one point per activity, and each mean of the first n div 2 points and of the rest times the number of positive values is their sum (0 when none is positive) |
| Statistics.MeanIsMeanOfPositives | src/service/statistiques_service.py:298-300 | `moyenne` times the number of positive values is the sum of the positive values, and is 0 when there is none |
| Statistics.ProgressionShape | src/service/statistiques_service.py:268-296 | the activities are in date order and are exactly the user's activities of that sport in the window; the two halves have n div 2 and n - n div 2 points and together make up the list |
| Statistics.HalfMeanBounded | src/service/statistiques_service.py:294-300 | the mean of a field over either half is between 0 and any non-negative bound on that field |
| Statistics.ProgressionNonEmpty | src/service/statistiques_service.py:268-281 | a sport has a non-empty progression exactly when the user has an activity of that sport in the window |
| Statistics.GroupEntry | src/service/statistiques_service.py:346-348 | `par_sport` maps a sport to that sport's activities in table order, and to nothing when there are none |
| Statistics.GroupUnique | src/service/statistiques_service.py:346-348 | `par_sport` holds each sport once |
| Statistics.RecordsFor | src/service/statistiques_service.py:351-391 | each record is taken from the first activity with the largest key (`max` keeps the first of equal keys), with NULL read as 0 |
| Statistics.PersonalRecords | src/service/statistiques_service.py:334-393 | the records have one entry per sport the user practised, built from that sport's activities |
| Statistics.RecordsOfMeaning | src/service/statistiques_service.py:340-393 | a sport has a record exactly when it has an activity, and the record is that of its activities |
| Statistics.GlobalSummaryOf | src/service/statistiques_service.py:409-443 | the summary is empty exactly when there is no activity; otherwise it counts every activity, lists exactly the sports practised, has a first and last date that belong to activities and bound every date, and a non-negative day count |
| Statistics.SummaryAgreesWithWeekly | src/service/statistiques_service.py:424-425 | the summary's hours and kilometres are the same sums as the weekly statistics |
| Statistics.CompleteStatistics | src/service/statistiques_service.py:153-182 | OverflowError exactly when the window start is not a date; otherwise the bundle holds the three weekly statistics of the same window and the period from that start, a date, to today |
| Statistics.ShorterWindowOk | src/service/statistiques_service.py:37 | when today minus some weeks is a date, so is today minus fewer weeks |
| StatisticsRouter.CommaListItems | src/api/statistiques_router.py:42 | the section list has one name per comma-separated piece, and no name contains a comma or starts or ends with whitespace |
| StatisticsRouter.WeeklyTotalsMeaning | src/api/statistiques_router.py:61-76 | the totals are the number of activities and the total hours and kilometres of the window; each mean times a positive number of weeks gives its total, and is 0 otherwise |
| StatisticsRouter.PercentChangeMeaning | src/api/statistiques_router.py:118-120 | the change is 0 when the start is not positive; otherwise it has the sign of end minus start, is -100 when the end is 0, and applied to the start gives the end |
| StatisticsRouter.ProgressionSection | src/api/statistiques_router.py:108-124 | the corrected loop raises the window's OverflowError if it reads a report, and otherwise keeps exactly the listed sports with activities, each with its progression |
| StatisticsRouter.ProgressionsEntry | src/api/statistiques_router.py:108-124 | a sport is in the result exactly when it is listed and the user has an activity of it in the window; a percentage change is present exactly when it has at least two |
| StatisticsRouter.PerSportKeysHaveActivities | src/api/statistiques_router.py:103-106 | every sport taken from the per-sport keys has a non-empty progression, so the default list never raises |
| StatisticsRouter.AsWrittenRaises | src/api/statistiques_router.py:108-113 | the loop as written raises KeyError exactly when a listed sport has no activity, and otherwise gives the corrected result |
| StatisticsRouter.AsWrittenRaisesOnAnUnpractisedSport | src/api/statistiques_router.py:108-113 | asking for the progression of a sport the user never practised raises KeyError as written, and gives an empty result once corrected |
| StatisticsRouter.ProgressionsOfEntry | src/api/statistiques_router.py:108-124 | for any report function, a sport is kept exactly when listed and its report counts an activity, with that report's entry |
| StatisticsRouter.ProgressionCount | src/api/statistiques_router.py:113 | the `nombre_activites` a report carries is the number of the sport's activities in the window |
| StatisticsRouter.ProgressionSectionAsWritten | src/api/statistiques_router.py:108-124 | the loop as written raises the window's OverflowError if it reads a report, and otherwise gives the as-written outcome, KeyError included |
| StatisticsRouter.FavouriteSport | src/api/statistiques_router.py:135-140 | no favourite without statistics; otherwise the first sport with the largest activity count |
| StatisticsRouter.FavouriteMostPractised | src/api/statistiques_router.py:133-140 | the favourite sport exists exactly when the user has an activity in the window, and no sport has more activities |
| StatisticsRouter.DashboardWindows | src/api/statistiques_router.py:130-163 | when no duration or distance is negative, the last week never has more activities, hours or kilometres than the last four weeks |
| StatisticsRouter.WeeklySection | src/api/statistiques_router.py:50-78 | the weekly section raises OverflowError exactly when the window start is not a date, and otherwise holds the three weekly statistics of the window and their totals |
| StatisticsRouter.ProgressionsSection | src/api/statistiques_router.py:95-126 | as written: without a sport list, the per-sport keys and their error; with one, OverflowError for a window start that is not a date, else KeyError exactly when a listed sport has no activity in the window; otherwise the progressions of those sports |
| StatisticsRouter.ProgressionsSectionCorrected | src/api/statistiques_router.py:95-126 | with the loop corrected the section raises only what the per-sport statistics or the window start raise, with the same result otherwise |
| StatisticsRouter.UnpractisedReports | src/api/statistiques_router.py:108-113 | a listed sport's report has no activities exactly when the user has no activity of that sport in the window |
| StatisticsRouter.DashboardSection | src/api/statistiques_router.py:129-167 | the dashboard raises exactly what the twelve-week per-sport statistics raise (OverflowError or TypeError), and is otherwise built from the one- and four-week bundles, the summary and those statistics |
| StatisticsRouter.FirstSections | src/api/statistiques_router.py:42-92 | the summary, weekly, per-sport and records sections are present exactly when selected; the error is that of the weekly section, else that of the per-sport section, when selected |
| StatisticsRouter.LastSections | src/api/statistiques_router.py:94-167 | as written: the progression and dashboard sections are present exactly when selected; the error is that of the progression section (KeyError included), else that of the dashboard, when selected |
| StatisticsRouter.LastSectionsCorrected | src/api/statistiques_router.py:94-167 | the same two sections with the corrected progression loop, whose error never includes KeyError |
| StatisticsRouter.CompleteStatisticsRoute | src/api/statistiques_router.py:16-175 | as written: the route raises the first failing selected section's error in the order weekly, per-sport, progression, dashboard, else answers 400 when no known section is selected, and otherwise returns every selected section and no other |
| StatisticsRouter.CompleteStatisticsRouteCorrected | src/api/statistiques_router.py:16-175 | the route with the corrected progression loop: the same sections, and the error of its corrected section order |
| StatisticsRouter.RouteErrorMeaning | src/api/statistiques_router.py:16-175 | the route answers 400 exactly when no known section is selected; OverflowError only for a window start that is not a date; KeyError only for a listed sport the user has not practised; nothing else but TypeError |
| StatisticsRouter.CorrectedRouteOnlyDropsKeyError | src/api/statistiques_router.py:108-124 | the corrected route never raises KeyError and raises what the route as written raises unless a listed sport has no activity |
| StatisticsRouter.SingleName | src/api/statistiques_router.py:42 | a name without commas or surrounding spaces is parsed as the list of itself |
| StatisticsRouter.RouteRaisesOnAnUnpractisedSport | src/api/statistiques_router.py:108-113 | asking the route for the progression of `course` for a user without activities raises KeyError as written, and nothing once corrected |
| Feed.FolloweesMembers | src/service/fil_actualite_service.py:36-40 | the followed ids are exactly the users the viewer follows |
| Feed.FeedQueryMeaning | src/service/fil_actualite_service.py:42-52 | at most `limite` activities, each of a followed user and dated on or after today minus the days, newest first |
| Feed.NoFolloweesNoFeed | src/service/fil_actualite_service.py:42-43 | a viewer who follows nobody gets an empty feed |
| Feed.FeedTruncation | src/service/fil_actualite_service.py:49-52 | an eligible activity is left out only from a full feed and is then no newer than its last entry |
| Feed.UserById | src/service/fil_actualite_service.py:57-59 | the author found has the activity owner's id; there is none exactly when no user has that id |
| Feed.ItemOfMeaning | src/service/fil_actualite_service.py:56-70 | an entry carries the activity, its author when that user exists, the number of users who liked it and the number of its comments |
| Feed.ItemsOf | src/service/fil_actualite_service.py:55-70 | the feed has one entry per activity, each built from that activity alone |
| Feed.NewsFeed | src/service/fil_actualite_service.py:33-72 | OverflowError exactly when the viewer follows someone and today minus the days is not a date; otherwise one entry per queried activity, in query order |
| Feed.BuildItems | src/service/fil_actualite_service.py:55-70 | the loop builds one entry per activity, in order |
| Feed.SearchUsersMeaning | src/service/fil_actualite_service.py:94-96 | at most `limite` users, each matching `%pattern%` with A-Z folded; a matching user is missing only from a full result |
| Feed.SearchUsersContain | src/service/fil_actualite_service.py:94-96 | with a pattern free of wildcards, every user returned has the pattern in their pseudo with A-Z folded, and a user who has it is missing only from a full result |
| Feed.ActiveUsersMeaning | src/service/fil_actualite_service.py:128-135 | at most the limit of (user, count) pairs, each count that user's positive number of activities, largest first |
| Feed.SuggestedRowsMeaning | src/service/fil_actualite_service.py:138-145 | every suggestion is an existing user, not excluded, taken from the candidates, in decreasing activity count |
| Feed.PickSuggestions | src/service/fil_actualite_service.py:138-149 | the loop keeps the first `limite` suggestions, and one when `limite` is 0 because the test after the append is `>=` |
| Feed.Suggestions | src/service/fil_actualite_service.py:116-149 | the suggestions are the first `limite` of the `2 * limite` most active users that exist and are neither the viewer nor followed by them |
| Feed.SuggestionsMeaning | src/service/fil_actualite_service.py:116-149 | the suggestions are at most `limite` existing users with activities, neither the viewer nor followed by them, in decreasing activity count |
| FeedRouter.WithLikeState | src/api/fil_router.py:58-73 | each response entry copies the feed entry and says whether the viewer liked the activity |
| FeedRouter.FeedEndpoint | src/api/fil_router.py:51-75 | the service's OverflowError exactly when it raises one; otherwise one response entry per queried activity, with its author, like and comment counts and the viewer's like state |
| FeedRouter.RecentItemsMeaning | src/api/fil_router.py:99-114 | the recent list raises AttributeError exactly when an entry has no author; otherwise it has one item per entry carrying its id, name, sport, date, author pseudo and counts |
| FeedRouter.RecentActivities | src/api/fil_router.py:93-114 | OverflowError when the seven-day feed raises it, else AttributeError when an author is missing; otherwise the items of that feed, counted |
| FeedRouter.StatsOfFeed | src/api/fil_router.py:138-166 | the statistics loop gives the feed statistics, or the AttributeError it raises |
| FeedRouter.FeedStatistics | src/api/fil_router.py:132-166 | the feed's OverflowError when it raises one; otherwise the statistics of the feed capped at 1000 entries |
| FeedRouter.AuthorIdsMembers | src/api/fil_router.py:145-151 | the active users are exactly the ids of the entries' authors |
| FeedRouter.AuthorIdsBound | src/api/fil_router.py:150-157 | there are never more active users than feed entries |
| FeedRouter.FeedStatsCounts | src/api/fil_router.py:150-165 | a non-empty feed's statistics count every entry, at most that many active users, each sport once, and sport counts adding up to the entries; the like and comment totals are the entries' totals, and each mean per activity times the number of entries is its total |
| FeedRouter.FeedStatsSports | src/api/fil_router.py:150-153 | each sport's count is the number of feed entries of that sport, and absent sports are not keys |
| FollowDao.FollowStore.constructor | src/DAO/follow_dao.py:16-60 | the follows table starts empty |
| FollowDao.FollowStore.Create | src/DAO/follow_dao.py:27-55 | a follow is added, and True returned, exactly when the two users differ and the follow is new; otherwise nothing changes, so nobody ever follows themselves |
| FollowDao.FollowStore.Delete | src/DAO/follow_dao.py:65-87 | the follow is gone afterwards, and True is returned exactly when it was there |
| FollowDao.FollowStore.FollowingIds | src/DAO/follow_dao.py:146-162 | the ids returned are exactly the users the given user follows |
| FollowDao.FollowStore.FollowerIds | src/DAO/follow_dao.py:189-205 | the ids returned are exactly the users who follow the given user |
| FollowDao.FollowStore.CountFollowing | src/DAO/follow_dao.py:210-226 | the count is the number of users followed |
| FollowDao.FollowStore.CountFollowers | src/DAO/follow_dao.py:231-247 | the count is the number of followers |
| FollowDao.FollowStore.DeleteAllByUser | src/DAO/follow_dao.py:252-276 | every follow from or to the user is removed, no other, and the count is the number of rows removed |
| FollowDao.FollowStore.MutualFollows | src/DAO/follow_dao.py:286-316 | the users returned are exactly those the user follows who follow the user back |
| LikeDao.LikeStore.constructor | src/DAO/like_dao.py:16-56 | the likes table starts empty |
| LikeDao.LikeStore.Create | src/DAO/like_dao.py:16-56 | the like is present afterwards, and True is returned exactly when it is new |
| LikeDao.LikeStore.Delete | src/DAO/like_dao.py:61-88 | the like is gone afterwards, and True is returned exactly when it was there |
| LikeDao.LikeStore.Toggle | src/DAO/like_dao.py:304-320 | the like is flipped, and the result says whether it now exists |
| LikeDao.ToggleTwice | src/DAO/like_dao.py:304-320 | toggling twice restores the table, and one toggle changes whether the like exists |
| LikeDao.LikeStore.LikerIds | src/DAO/like_dao.py:142-158 | the ids returned are exactly the users who liked the activity |
| LikeDao.LikeStore.LikedActivityIds | src/DAO/like_dao.py:187-203 | the ids returned are exactly the activities the user liked |
| LikeDao.LikeStore.CountByActivity | src/DAO/like_dao.py:208-224 | the count is the number of likers, and is 0 exactly when nobody liked the activity |
| LikeDao.LikeStore.CountByUser | src/DAO/like_dao.py:229-245 | the count is the number of activities liked, and is 0 exactly when the user liked none |
| LikeDao.LikeStore.DeleteAllByActivity | src/DAO/like_dao.py:250-272 | all likes of the activity are removed, no other, and the count is the number removed |
| LikeDao.LikeStore.DeleteAllByUser | src/DAO/like_dao.py:277-299 | all likes by the user are removed, no other, and the count is the number removed |
| LikeDao.InsertEntry | src/DAO/like_dao.py:352-359 | inserting one (activity, count) pair keeps the ranking ordered by decreasing count with distinct activities |
| LikeDao.LikeStore.RankLiked | src/DAO/like_dao.py:352-359 | the grouped query gives every liked activity once with its like count, by decreasing count |
| LikeDao.LikeStore.MostLiked | src/DAO/like_dao.py:338-361 | at most `limit` distinct activities, each with its positive like count, by decreasing count; a liked activity is left out only from a full result whose counts are all at least its own |
| CommentDao.CommentStore.constructor | src/DAO/commentaire_dao.py:17-56 | the comments table starts empty |
| CommentDao.CommentStore.Create | src/DAO/commentaire_dao.py:35-44 | the new comment gets one more than the largest id in the table (1 when empty), is appended to the table and can be found by that id |
| CommentDao.NextRowId | src/business_objects/models.py:103 | the next rowid is above every id, is 1 for an empty table and otherwise one more than an id present |
| CommentDao.NextRowIdFollowsNewest | src/business_objects/models.py:103 | in a table in id order the next rowid is the newest row's id plus one |
| CommentDao.ByIdMeaning | src/DAO/commentaire_dao.py:58-73 | `get_by_id` finds the comment with that id, and nothing exactly when no comment has it |
| CommentDao.NewestOrder | src/DAO/commentaire_dao.py:102-104 | the filtered, newest-first query holds exactly the matching comments, by decreasing id |
| CommentDao.NewestMeaning | src/DAO/commentaire_dao.py:102-107 | the limited query holds at most `limit` matching comments by decreasing id, and leaves a matching comment out only when full of newer ones |
| CommentDao.GetByActivityAll | src/DAO/commentaire_dao.py:89-109 | without a truthy limit, the comments of the activity are all returned, newest first, as many as the count says |
| CommentDao.GetByActivityLimited | src/DAO/commentaire_dao.py:89-109 | with a positive limit, at most that many of the activity's comments, newest first, and an older one is left out only from a full result |
| CommentDao.GetByAuthorAll | src/DAO/commentaire_dao.py:114-134 | without a truthy limit, the author's comments are all returned, newest first, as many as the count says |
| CommentDao.RecentIsLimitedGet | src/DAO/commentaire_dao.py:273-288 | the recent comments are the limited query by activity, and none for a limit of 0 |
| CommentDao.CommentStore.CountOnActivity | src/DAO/commentaire_dao.py:235-249 | the count is the number of the activity's comments, and 0 exactly when it has none |
| CommentDao.CommentStore.IsAuthor | src/DAO/commentaire_dao.py:293-313 | true exactly when a comment with that id exists and was written by the user |
| CommentDao.CommentStore.Update | src/DAO/commentaire_dao.py:139-167 | a missing id changes nothing and gives None; otherwise only that comment's content changes and the updated comment is returned |
| CommentDao.ContentReplaced | src/DAO/commentaire_dao.py:152-160 | replacing one comment's content keeps the ids increasing and leaves other comments apart |
| CommentDao.CommentStore.Delete | src/DAO/commentaire_dao.py:172-198 | the comment is gone afterwards, no other changes, and True is returned exactly when it existed |
| CommentDao.CommentStore.DeleteByActivity | src/DAO/commentaire_dao.py:203-230 | all comments of the activity are removed, no other, and the count is the number removed |
| CommentDao.DeletedActivity | src/DAO/commentaire_dao.py:215-222 | deleting the fetched comments one by one removes exactly the activity's comments |
| CommentDao.DeletedCounts | src/DAO/commentaire_dao.py:215-225 | the count returned is the number of rows removed, and the activity has no comment left |
| ActivityDao.ActivityStore.constructor | src/dao/activite_dao.py:19-76 | the activities table starts empty |
| ActivityDao.ActivityStore.GetById | src/dao/activite_dao.py:81-93 | the activity found has the id, and there is none exactly when no activity has it |
| ActivityDao.FilteredRowsMembers | src/dao/activite_dao.py:228-237 | the filtered rows are exactly the user's activities passing the sport and date-bound filters that are set |
| ActivityDao.NewestFirstMeaning | src/dao/activite_dao.py:239 | ordering by descending date keeps the same activities, with dates non-increasing |
| ActivityDao.PageMeaning | src/dao/activite_dao.py:241-242 | the page has at most `limit` of the activities, newest first |
| ActivityDao.GetByFiltersMeaning | src/dao/activite_dao.py:204-244 | every activity returned is the user's and passes the filters, dates are non-increasing, and a truthy limit bounds the count |
| ActivityDao.GetByFiltersUnlimited | src/dao/activite_dao.py:241-244 | without a truthy limit, every matching activity is returned and the offset is ignored |
| ActivityDao.GetByUserIsFilters | src/dao/activite_dao.py:112-137 | `get_by_user` is `get_by_filters` with no sport or date filter |
| ActivityDao.DateRangeIsFilters | src/dao/activite_dao.py:175-199 | `get_by_date_range` is `get_by_filters` with both dates and no limit |
| ActivityDao.CountsAreLengths | src/dao/activite_dao.py:312-352 | the counts are the lengths of the unlimited queries, and the per-sport count is at most the user's count |
| ActivityDao.DistinctSportsMeaning | src/dao/activite_dao.py:366-370 | `distinct()` lists each sport once, and exactly the sports practised |
| ActivityDao.SportsListMeaning | src/dao/activite_dao.py:354-370 | the sports list holds each sport once, and exactly the sports of the user's activities |
| ActivityDao.TopMeaning | src/dao/activite_dao.py:396-401 | the newest `limit` activities are at most `limit`, from the query, newest first |
| ActivityDao.TopOmitted | src/dao/activite_dao.py:396-401 | an activity is left out only from a full result whose dates are all at least its own |
| ActivityDao.TopWhereMeaning | src/dao/activite_dao.py:396-401 | the filtered and limited query keeps at most `limit` matching activities, newest first |
| ActivityDao.TopWhereOmitted | src/dao/activite_dao.py:396-401 | a matching activity is left out only from a full result of activities no older than it |
| ActivityDao.GetRecentByUserMeaning | src/dao/activite_dao.py:375-401 | OverflowError exactly when today minus the days is not a date; otherwise at most `limit` of the user's activities dated on or after that day, newest first |
| ActivityDao.GetRecentByUserFull | src/dao/activite_dao.py:394-401 | a recent activity of the user is left out only from a full result of activities no older than it |
| ActivityDao.ActivityStore.Update | src/dao/activite_dao.py:249-278 | a missing id changes nothing and gives None; otherwise only that activity changes, and it gets the updates applied in order |
| ActivityDao.ApplyKeeps | src/dao/activite_dao.py:267-269 | one `setattr` changes only its own field, and an unknown key changes nothing |
| ActivityDao.ApplyAllKeeps | src/dao/activite_dao.py:267-269 | a field no update names keeps its value |
| ActivityDao.UnknownKeysIgnored | src/dao/activite_dao.py:268 | keys the activity does not have leave it unchanged |
| ActivityDao.LastSportWins | src/dao/activite_dao.py:267-269 | when a field is set more than once, the last value wins |
| ActivityDao.ActivityStore.Delete | src/dao/activite_dao.py:283-307 | the activity is gone afterwards, no other changes, and True is returned exactly when it existed |
| CommentObject.Comment.constructor | src/business_objects/commentaire.py:6-20 | the comment stores its fields as given and has no likes |
| CommentObject.Comment.Like | src/business_objects/commentaire.py:44-46 | the getter returns a fresh copy of the like list |
| CommentObject.Comment.SetContent | src/business_objects/commentaire.py:50-55 | a non-blank string replaces the content; anything else raises ValueError and changes nothing |
| CommentObject.Comment.AddLike | src/business_objects/commentaire.py:58-71 | the user is appended, and True returned, exactly when not already there; afterwards the user is in the list, with no duplicates |
| CommentObject.Comment.RemoveLike | src/business_objects/commentaire.py:73-86 | the user is removed, and True returned, exactly when there; no other user's like changes |
| CommentObject.Comment.CountLikes | src/business_objects/commentaire.py:88-95 | the count is the number of distinct users who liked |
| CommentObject.LikeThenUnlike | src/business_objects/commentaire.py:58-86 | liking then unliking restores the like list |
| UserObject.User.constructor | src/business_objects/utilisateur.py:8-47 | the user stores its fields as given, and an empty activity list for None |
| UserObject.User.Age | src/business_objects/utilisateur.py:71-77 | the age is the number of birthdays reached by today |
| UserObject.AgeUnique | src/business_objects/utilisateur.py:71-77 | any count of reached birthdays equals the age |
| UserObject.AgeAtBirth | src/business_objects/utilisateur.py:71-77 | the age on the birth date is 0 |
| UserObject.User.SetPseudo | src/business_objects/utilisateur.py:106-111 | a non-blank string replaces the pseudo, and the user can then log in with it; anything else raises ValueError and changes nothing |
| UserObject.User.SetHeight | src/business_objects/utilisateur.py:114-119 | a positive int, bool or float replaces the height; anything else raises ValueError and changes nothing |
| UserObject.User.SetWeight | src/business_objects/utilisateur.py:122-127 | a positive int, bool or float replaces the weight; anything else raises ValueError and changes nothing |
| UserObject.User.SetMail | src/business_objects/utilisateur.py:130-135 | a string containing `@` replaces the mail; anything else raises ValueError and changes nothing |
| UserObject.User.SetPhone | src/business_objects/utilisateur.py:138-143 | an int, bool or string replaces the phone; anything else raises ValueError and changes nothing |
| UserObject.User.FollowUser | src/business_objects/utilisateur.py:170-183 | following oneself, or with no service, gives False and changes nothing; otherwise the follow is added and the result says whether it is new |
| UserObject.User.UnfollowUser | src/business_objects/utilisateur.py:185-198 | with no service, False; otherwise the follow is removed and the result says whether it was there |
| UserObject.User.RemoveActivity | src/business_objects/utilisateur.py:297-310 | the first occurrence of the activity is removed, and True returned, exactly when it is in the list |
| UserObject.AttrSumMeaning | src/business_objects/utilisateur.py:341-415 | a total raises TypeError exactly when some activity has a NULL value for the attribute, and is otherwise the sum of the values |
| UserObject.AttrSumNonNegative | src/business_objects/utilisateur.py:341-415 | a total over non-negative values is non-negative |
| UserObject.AbortKeepsRaising | src/business_objects/utilisateur.py:354-357 | once the running sum raises, the total raises the same error |
| UserObject.Total | src/business_objects/utilisateur.py:354-357 | the summing loop returns the total of the attribute |
| UserObject.User.DistanceTotal | src/business_objects/utilisateur.py:341-358 | the "distance" total sums `d_plus`, over the given list or the user's own |
| UserObject.User.DurationTotal | src/business_objects/utilisateur.py:360-377 | the duration total sums the durations |
| UserObject.User.CaloriesTotal | src/business_objects/utilisateur.py:379-396 | the calories total sums the calories |
| UserObject.User.DPlusTotal | src/business_objects/utilisateur.py:398-415 | the elevation total sums `d_plus` |
| UserObject.User.AverageSpeedOf | src/business_objects/utilisateur.py:417-441 | the average speed is that of the given list or the user's own |
| UserObject.AverageSpeedMeaning | src/business_objects/utilisateur.py:417-441 | the average speed is 0 with no activity or a total duration of 0, and otherwise the "distance" total times 60 over the total minutes |
| UserObject.HashInt | src/business_objects/utilisateur.py:492-494 | `hash` of a small non-negative int is the int itself |
| UserObject.EqualUsersHashAlike | src/business_objects/utilisateur.py:486-494 | user equality is an equivalence on ids, and equal users hash alike |
| ActivityObject.Activity.constructor | src/business_objects/activite.py:14-57 | the activity stores its fields as given |
| ActivityObject.Activity.SetName | src/business_objects/activite.py:122-127 | a non-blank string replaces the name; anything else raises ValueError and changes nothing |
| ActivityObject.Activity.SetSport | src/business_objects/activite.py:130-135 | a non-blank string replaces the sport; anything else raises ValueError and changes nothing |
| ActivityObject.Activity.SetDate | src/business_objects/activite.py:138-143 | a date replaces the date; anything else raises ValueError and changes nothing |
| ActivityObject.Activity.SetDuration | src/business_objects/activite.py:146-151 | a time replaces the duration; anything else raises ValueError and changes nothing |
| ActivityObject.Activity.SetDescription | src/business_objects/activite.py:154-159 | a non-blank string replaces the description; anything else raises ValueError and changes nothing |
| ActivityObject.Activity.SetGpxFile | src/business_objects/activite.py:162-167 | a non-blank string replaces the GPX file name; anything else raises ValueError and changes nothing |
| ActivityObject.Activity.SetElevation | src/business_objects/activite.py:170-175 | a non-negative int or bool replaces the elevation; anything else raises ValueError and changes nothing |
| ActivityObject.Activity.SetCalories | src/business_objects/activite.py:178-183 | the setter never succeeds: an int raises AttributeError, anything else ValueError, and nothing changes |
| ActivityObject.Activity.CountLikes | src/business_objects/activite.py:186-211 | `compte_like` and `getNombreLike` give the length of the like list, 0 exactly when it is empty |
| ActivityObject.Activity.CountComments | src/business_objects/activite.py:195-220 | `compte_commentaire` and `getNombreCommentaire` give the length of the comment list, 0 exactly when it is empty |
| ActivityObject.Activity.Minutes | src/business_objects/activite.py:235-241 | the duration in minutes is non-negative, and 0 exactly at 00:00:00 |
| ActivityObject.Activity.Speed | src/business_objects/activite.py:222-249 | ValueError exactly for a zero duration; otherwise None for a sport other than swimming, cycling or walking; for swimming and walking ZeroDivisionError exactly at distance 0, and otherwise a speed that times the distance gives 100 times the minutes (swimming) or the minutes (walking); for cycling the distance times 60 over the minutes |
| ActivityObject.HourlyCalories | src/business_objects/activite.py:265-275 | the hourly rate is one of the four table values |
| ActivityObject.CaloriesEstimate | src/business_objects/activite.py:252-281 | the estimate is never negative for a non-negative duration and elevation |
| ActivityObject.CaloriesMonotone | src/business_objects/activite.py:252-281 | a longer duration or a larger elevation never lowers the estimate |
| ActivityObject.UnknownSportRate | src/business_objects/activite.py:265-281 | an unknown sport burns 400 per hour plus a tenth of the elevation, truncated |
| ActivityObject.CaloriesIgnoreCase | src/business_objects/activite.py:265-275 | the sport's case does not change the estimate |
| ActivityObject.CollectPoints | src/business_objects/activite.py:321-324 | the loop collects the points of every segment of every track, in order |
| ActivityObject.GainOf | src/business_objects/activite.py:343-349 | the positive elevation gain is never negative |
| ActivityObject.FlatTraceNoGain | src/business_objects/activite.py:343-349 | a trace that never climbs has no gain |
| ActivityObject.GainCoversClimb | src/business_objects/activite.py:343-349 | the gain is at least each single climb |
| ActivityObject.ElevationGain | src/business_objects/activite.py:343-349 | the loop returns the truncated gain, which is non-negative |
| ActivityObject.ElapsedSeconds | src/business_objects/activite.py:333-336 | the elapsed time is read as a `timedelta`'s seconds, between 0 and 86399 |
| ActivityObject.Split | src/business_objects/activite.py:337-340 | hours, minutes and seconds add back to the seconds |
| ActivityObject.ReadTrace | src/business_objects/activite.py:317-353 | ValueError exactly when there is no first point or fewer than two points; otherwise the date of the first point (or today), the split duration, the truncated gain and the calorie estimate, which are the trace's facts |
| ActivityObject.CreateFromTrace | src/business_objects/activite.py:284-369 | ValueError exactly as the trace fails; otherwise a new activity with the given id, owner, name, sport, description and file, the trace's date, duration, elevation and calories, and no likes or comments |
| Upload.SafeFilename | src/api/activite_router.py:22-24 | each character is kept or replaced by `_`, so the length is kept |
| Upload.SafeFilenameChars | src/api/activite_router.py:22-24 | every output character is alphanumeric or one of `_-.@`; a character is kept exactly when it is allowed, and the output has no slash or backslash |
| Upload.SafeFilenameIdempotent | src/api/activite_router.py:22-24 | sanitising twice is sanitising once |
| Upload.UploadPath | src/api/activite_router.py:55-63 | the upload fails with HTTP 400 exactly when the name does not end in `.gpx`, ignoring case |
| Upload.SafeKeepsGpxSuffix | src/api/activite_router.py:55-62 | the sanitised stored name of an accepted file still ends in `.gpx` |
| Upload.UploadStaysInDir | src/api/activite_router.py:17-63 | an accepted file is stored directly inside `uploads/gpx`, under a name with no separator that is not `.` or `..` and ends in `.gpx` |
| Calendar.YearLength | src/service/statistiques_service.py:51 | a year has 366 days when a leap year, else 365 |
| Calendar.OrdinalInYear | src/service/statistiques_service.py:51 | a date's ordinal lies within its year |
| Calendar.OrdinalMonotone | src/service/statistiques_service.py:51 | later dates have larger ordinals |
| Calendar.OrdinalInjective | src/service/statistiques_service.py:51 | two dates have the same ordinal exactly when equal |
| Calendar.Week1MondayBounds | src/service/statistiques_service.py:51 | the Monday of ISO week 1 is a Monday within three days of 1 January |
| Calendar.Week1MondayGap | src/service/statistiques_service.py:51 | ISO years are 52 or 53 weeks long |
| Calendar.WeekSplit | src/service/statistiques_service.py:51 | a day after a Monday splits into a week number up to 52 and the weekday |
| Calendar.IsoOfOrdinalSpec | src/service/statistiques_service.py:51 | the computed ISO date has week 1-53, weekday 1-7, year within one of the calendar year, and names the same day |
| Calendar.PreviousYearWeek | src/service/statistiques_service.py:51 | a day before week 1 falls in week 1-53 of the previous ISO year |
| Calendar.NextYearWeek | src/service/statistiques_service.py:51 | a day on or after the next year's week 1 falls in that week |
| Calendar.SameYearWeek | src/service/statistiques_service.py:51 | otherwise the day falls in a week 1-53 of its own ISO year |
| Calendar.IsoCalendarSpec | src/service/statistiques_service.py:51 | `isocalendar()` gives week 1-53 and weekday 1-7, the week's Monday plus the weekday is the date, and the date lies before week 1 of the next ISO year |
| Calendar.IsoCalendarWeekday | src/service/statistiques_service.py:51 | the ISO weekday `isocalendar()` returns is `date.weekday()` plus one |
| Calendar.OrdinalRange | src/service/statistiques_service.py:37 | every date's ordinal lies between 1 and that of 31 December 9999 |
| Calendar.DaysBeforeRaises | src/service/statistiques_service.py:37 | today minus a number of days is a date for 0 up to today's ordinal minus 1, and raises OverflowError for more days or for a negative number reaching past year 9999 |
| Calendar.NatToStringRoundTrip | src/service/statistiques_service.py:52 | the decimal text of a year reads back as that year |
| Calendar.Format02Week | src/service/statistiques_service.py:52 | `{:02d}` gives two digits reading back as the week |
| Calendar.ParseFormatWeekKey | src/service/statistiques_service.py:52 | the week key reads back as its ISO year and week |
| Calendar.WeekKeyShape | src/service/statistiques_service.py:51-52 | the key is the ISO year, `-W` and the two-digit week |
| Calendar.WeekKeySameWeek | src/service/statistiques_service.py:51-52 | two dates share a key exactly when they share ISO year and week |
| Calendar.WeekKeyWithinAWeek | src/service/statistiques_service.py:51-52 | dates sharing a key are less than 7 days apart |
| Calendar.LateDecemberInNextYearsWeek1 | src/service/statistiques_service.py:51-52 | 30 December 2024 has key `2025-W01` |
| Calendar.EarlyJanuaryInPreviousYearsWeek53 | src/service/statistiques_service.py:51-52 | 1 January 2021 has key `2020-W53` |
| Text.StripEmpty | src/business_objects/commentaire.py:52 | a string strips to empty exactly when all of it is whitespace |
| Text.StripIdempotent | src/business_objects/commentaire.py:52 | stripping twice is stripping once |
| Text.Split | src/api/statistiques_router.py:42 | `split(',')` gives at least one piece and no piece holds a comma |
| Text.JoinSplit | src/api/statistiques_router.py:42 | joining the pieces with the separator gives back the string |
| Text.Lower | src/business_objects/activite.py:242 | lowering maps each character |
| Text.AsciiLower | src/service/fil_actualite_service.py:94-96 | SQLite's `lower()` maps each character, folding only A-Z |
| Text.LowerIdempotent | src/business_objects/activite.py:242 | lowering twice is lowering once |
| Text.PercentMatchesAll | src/service/fil_actualite_service.py:94-96 | the pattern `%` matches every string |
| Text.LiteralPrefix | src/service/fil_actualite_service.py:94-96 | a wildcard-free prefix of a pattern matches a prefix of the string literally |
| Text.ContainsPattern | src/service/fil_actualite_service.py:94-96 | `%q%` matches exactly the strings containing a wildcard-free `q` |
| Text.ILikeContains | src/service/fil_actualite_service.py:94-96 | `ilike('%q%')` on SQLite holds exactly when the string with A-Z folded contains `q` with A-Z folded |
| Values.NonBlankMeaning | src/business_objects/commentaire.py:52 | a non-blank string is exactly one with a non-whitespace character |
| Values.Trunc | src/business_objects/activite.py:281 | `int(x)` truncates toward zero |
| Values.TruncMonotone | src/business_objects/activite.py:281 | truncation never reverses an order |

## Left out

- Database sessions, commits, rollbacks and the `except Exception` branches that turn a database failure into `None`, `False` or `0`: the tables are values and never fail.
- `ActiviteDAO.create` (src/dao/activite_dao.py:19-76): it passes `fichier_gpx` and `distance` to a model whose table declares neither column, so as written it ends in its `except` branch; activity tables are built directly as sequences instead.
- CommentDao.CommentStore.Create: the `IntegrityError` path for an unknown activity or author is not modelled, since foreign keys are not part of the tables.
- The ORM side effects of deleting an activity (src/business_objects/models.py:84-93) are not modelled: the `delete-orphan` cascade that deletes its comments, and the removal of its Like rows through the `likers` secondary table. `ActivityStore.Delete` removes the activity row only, and the comment and like tables are separate stores.
- ActivityDao.ActivityStore.Update: an update of the `id` key is not modelled (rows keep their ids), and values are taken as already of the column's type.
- `get_all`, `get_users_who_liked`, `get_liked_activites_by_user`, `get_following` and `get_followers` return ORM objects through relationships; the id-returning queries and counts that carry the same information are modelled.
- The `distance` column: the `Activite` model (src/business_objects/models.py:66-93) declares no `distance` column, so as written `Activite.distance` raises AttributeError at src/service/statistiques_service.py:86 on every call of the kilometre statistics, and at lines 100, 235, 289 and 425 once an activity is read. The model gives activities a nullable `distance` field, as the services evidently intend, and does not model that AttributeError.
- Negative `limit` values: limits are natural numbers.
- The order SQL gives to rows with equal sort keys: the model uses a stable sort, so ties keep table order.
- The clock: `date.today()` is the parameter `today`.
- Floating point: `round(...)`, NaN and infinities. Hours, kilometres, means, percentages and speeds are exact reals.
- StatisticsRouter.WeeklyTotalsMeaning: states the exact totals and means, not their values after `round(..., 1)`.
- StatisticsRouter.PercentChangeMeaning: states the exact change, not its `:+.1f%` text.
- FeedRouter.FeedStatsCounts: states the exact means, not their values after `round(..., 2)`.
- GPX parsing by `gpxpy`, reading the uploaded file and writing it to disk: `ActivityObject.ReadTrace` starts from the parsed tracks, and the upload ends at the path it would write to.
- ActivityObject.ElapsedSeconds: instants are whole seconds on one time zone; microseconds and time zones are not modelled.
- HTTP routing, Pydantic response models and status codes other than the 400 of the statistics route.
- `deconnexion`, `s_inscrire`, `rafraichir_fil`, `get_following`, `get_followers`, `ajouter_like`, `supprimer_like`, `ajouter_commentaire`, `supprimer_commentaire`, `modifier_activite`, `get_nombre_like` and `get_nombre_commentaire` of `Utilisateur`: they print, delegate to objects that are not part of this model, or do nothing.
- `str.isalnum`, `str.lower` and `str.isspace` are exact for ASCII and Latin-1 and approximate above U+00FF.
- UserObject.User.RemoveActivity: list elements are values, so aliasing between activity objects is not modelled; `==` on activities is value equality.
- ActivityObject.Activity.SetDate: a `datetime` passed to the date setter is accepted in Python because it subclasses `date`; the model has no separate `datetime` value.
- `getNombreLike` and `getNombreCommentaire` are the same computation as `compte_like` and `compte_commentaire`, so `Activity.CountLikes` and `Activity.CountComments` model both.
- ActivityObject.Activity.SetCalories: modelled as written, so it never succeeds.

## Findings

| source | as written | input that shows it | evidently intended | confidence | as-written member | corrected member |
|---|---|---|---|---|---|---|
| src/api/statistiques_router.py:108-124 | for each listed sport it reads `progression['nombre_activites']`, but for a sport with no activity in the window the service returns a dictionary without that key (src/service/statistiques_service.py:276-281), so the route raises `KeyError` | `sections="progression"`, `sports="course"`, for a user with no activity | a sport without activities is skipped, as the test at line 123 shows | not executed | StatisticsRouter.AsWrittenRaises, StatisticsRouter.AsWrittenRaisesOnAnUnpractisedSport, StatisticsRouter.ProgressionSectionAsWritten, StatisticsRouter.ProgressionsSection, StatisticsRouter.CompleteStatisticsRoute, StatisticsRouter.RouteRaisesOnAnUnpractisedSport | StatisticsRouter.ProgressionSection, StatisticsRouter.ProgressionsEntry, StatisticsRouter.ProgressionsSectionCorrected, StatisticsRouter.CompleteStatisticsRouteCorrected, StatisticsRouter.CorrectedRouteOnlyDropsKeyError |
