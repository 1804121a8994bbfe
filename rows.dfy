/** Rows of the database tables the modelled code reads. */
module Rows {
  import opened Common
  import opened Calendar

  /** A row of the Activite table. Durations are in seconds, distances in
      metres; `duree_activite`, `d_plus` and `calories` are nullable. The
      statistics and ActiviteDAO.create use a `distance` attribute that the
      ORM class does not declare; the row carries it as an optional value. */
  datatype Activity = Activity(
    id: nat,
    owner: nat,
    name: Option<string>,
    sport: string,
    date: CalendarDate,
    duration: Option<int>,
    description: Option<string>,
    gpxPath: Option<string>,
    dPlus: Option<int>,
    calories: Option<int>,
    distance: Option<real>)

  /** The columns of a Utilisateur row the feed reads. */
  datatype UserRow = UserRow(id: nat, pseudo: string, nom: string, prenom: string)

  /** A row of the Commentaire table. */
  datatype CommentRow = CommentRow(id: nat, activity: nat, author: nat, content: string)

  /** A read-only snapshot of the tables the feed queries: users,
      activities, Follow (follower, followed) pairs, Like (user, activity)
      pairs and comments. */
  datatype Database = Database(
    users: seq<UserRow>,
    activities: seq<Activity>,
    follows: set<(nat, nat)>,
    likes: set<(nat, nat)>,
    comments: seq<CommentRow>)

  /** Key for an ascending ORDER BY date_activite. */
  function DateKey(a: Activity): int
  {
    Ordinal(a.date)
  }

  /** Key for a descending ORDER BY date_activite. */
  function NewestFirst(a: Activity): int
  {
    -Ordinal(a.date)
  }

  /** WHERE utilisateur_id == user */
  function OwnedBy(user: nat): Activity -> bool
  {
    (a: Activity) => a.owner == user
  }

  /** WHERE type_sport == sport */
  function OfSport(sport: string): Activity -> bool
  {
    (a: Activity) => a.sport == sport
  }
}
