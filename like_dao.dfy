/** LikeDAO: the Like table as a set of (utilisateur_id, activite_id)
    pairs. */
module LikeDao {
  import opened Seqs
  import opened Relations

  /** Liking when not liked, unliking when liked. */
  function Toggled(rows: Pairs, p: (nat, nat)): Pairs
  {
    if p in rows then rows - {p} else rows + {p}
  }

  /** Toggling the same like twice gives the table back. */
  lemma ToggleTwice(rows: Pairs, p: (nat, nat))
    ensures Toggled(Toggled(rows, p), p) == rows
    ensures p in Toggled(rows, p) <==> p !in rows
  {
  }

  /** Ranking key of `get_most_liked_activites`: most likes first. */
  const MostLikedFirst: ((nat, nat)) -> int := (e: (nat, nat)) => -(e.1 as int)

  /** No activity appears twice. */
  predicate DistinctIds(s: seq<(nat, nat)>)
  {
    forall i, j :: 0 <= i < j < |s| ==> s[i].0 != s[j].0
  }

  /** Inserts an entry for a new activity into the ranking. */
  function InsertEntry(entry: (nat, nat), ranked: seq<(nat, nat)>): (r: seq<(nat, nat)>)
    requires SortedBy(ranked, MostLikedFirst)
    requires DistinctIds(ranked)
    requires forall x :: x in ranked ==> x.0 != entry.0
    ensures SortedBy(r, MostLikedFirst)
    ensures DistinctIds(r)
    ensures forall x :: x in r <==> x in ranked || x == entry
  {
    var k := InsertPosition(entry, ranked, MostLikedFirst);
    InsertAtSorted(entry, ranked, MostLikedFirst, k);
    SpliceDistinctIds(entry, ranked, k);
    ranked[..k] + [entry] + ranked[k..]
  }

  /** Putting an entry with a new id anywhere in a ranking keeps the ids
      distinct and adds exactly that entry. */
  lemma SpliceDistinctIds(entry: (nat, nat), ranked: seq<(nat, nat)>, k: nat)
    requires k <= |ranked|
    requires DistinctIds(ranked)
    requires forall x :: x in ranked ==> x.0 != entry.0
    ensures DistinctIds(ranked[..k] + [entry] + ranked[k..])
    ensures forall x :: x in ranked[..k] + [entry] + ranked[k..] <==> x in ranked || x == entry
  {
    var r := ranked[..k] + [entry] + ranked[k..];
    forall i, j | 0 <= i < j < |r| ensures r[i].0 != r[j].0 {
      if j < k {
        assert r[i] == ranked[i] && r[j] == ranked[j];
      } else if i > k {
        assert r[i] == ranked[i - 1] && r[j] == ranked[j - 1];
      } else if i == k {
        assert r[j] == ranked[j - 1];
      } else if j == k {
        assert r[i] == ranked[i];
      } else {
        assert r[i] == ranked[i] && r[j] == ranked[j - 1];
      }
    }
    assert ranked == ranked[..k] + ranked[k..];
  }

  class LikeStore {
    /** The Like rows; the composite primary key keeps each pair once. */
    var rows: Pairs

    constructor()
      ensures rows == {}
    {
      rows := {};
    }

    /** `create`: refuses an existing like, otherwise inserts it. */
    method Create(user: nat, activity: nat) returns (created: bool)
      modifies this
      ensures created <==> (user, activity) !in old(rows)
      ensures rows == old(rows) + {(user, activity)}
    {
      if (user, activity) in rows {
        return false;
      }
      rows := rows + {(user, activity)};
      created := true;
    }

    /** `delete`: removes the like and says whether a row went. */
    method Delete(user: nat, activity: nat) returns (deleted: bool)
      modifies this
      ensures deleted <==> (user, activity) in old(rows)
      ensures rows == old(rows) - {(user, activity)}
    {
      var rowcount := if (user, activity) in rows then 1 else 0;
      rows := rows - {(user, activity)};
      deleted := rowcount > 0;
    }

    /** `exists`, and its alias `user_has_liked`. */
    predicate Exists(user: nat, activity: nat)
      reads this
    {
      (user, activity) in rows
    }

    /** `toggle`: unlike when liked, like otherwise; returns the new
        state. */
    method Toggle(user: nat, activity: nat) returns (liked: bool)
      modifies this
      ensures liked <==> !old(Exists(user, activity))
      ensures liked == Exists(user, activity)
      ensures rows == Toggled(old(rows), (user, activity))
    {
      if Exists(user, activity) {
        var _ := Delete(user, activity);
        return false;
      } else {
        var _ := Create(user, activity);
        return true;
      }
    }

    /** `get_users_who_liked_ids` */
    function LikerIds(activity: nat): (ids: set<nat>)
      reads this
      ensures forall u :: u in ids <==> Exists(u, activity)
    {
      Left(rows, activity)
    }

    /** `get_liked_activites_ids_by_user` */
    function LikedActivityIds(user: nat): (ids: set<nat>)
      reads this
      ensures forall a :: a in ids <==> Exists(user, a)
    {
      Right(rows, user)
    }

    /** `count_by_activite`: the rows of the activity, one per liker. */
    function CountByActivity(activity: nat): (n: nat)
      reads this
      ensures n == |LikerIds(activity)|
      ensures n == 0 <==> forall u :: !Exists(u, activity)
    {
      RowsToCount(rows, activity);
      |RowsTo(rows, activity)|
    }

    /** `count_by_user`: the rows of the user, one per liked activity. */
    function CountByUser(user: nat): (n: nat)
      reads this
      ensures n == |LikedActivityIds(user)|
      ensures n == 0 <==> forall a :: !Exists(user, a)
    {
      RowsFromCount(rows, user);
      |RowsFrom(rows, user)|
    }

    /** `delete_all_by_activite`: removes exactly that activity's likes and
        returns how many. */
    method DeleteAllByActivity(activity: nat) returns (removed: nat)
      modifies this
      ensures rows == old(rows) - RowsTo(old(rows), activity)
      ensures removed == |RowsTo(old(rows), activity)| == |old(rows)| - |rows|
      ensures forall p: (nat, nat) :: p.1 != activity ==> (p in rows <==> p in old(rows))
      ensures CountByActivity(activity) == 0
    {
      var gone := RowsTo(rows, activity);
      RemoveCount(rows, gone);
      rows := rows - gone;
      removed := |gone|;
      assert RowsTo(rows, activity) == {};
    }

    /** `delete_all_by_user`: removes exactly that user's likes and returns
        how many. */
    method DeleteAllByUser(user: nat) returns (removed: nat)
      modifies this
      ensures rows == old(rows) - RowsFrom(old(rows), user)
      ensures removed == |RowsFrom(old(rows), user)| == |old(rows)| - |rows|
      ensures forall p: (nat, nat) :: p.0 != user ==> (p in rows <==> p in old(rows))
      ensures CountByUser(user) == 0
    {
      var gone := RowsFrom(rows, user);
      RemoveCount(rows, gone);
      rows := rows - gone;
      removed := |gone|;
      assert RowsFrom(rows, user) == {};
    }

    /** The activities with at least one like. */
    function LikedActivities(): set<nat>
      reads this
    {
      set p | p in rows :: p.1
    }

    /** An activity with a like has a positive count. */
    lemma LikedCounted(a: nat)
      requires a in LikedActivities()
      ensures CountByActivity(a) > 0
    {
      var p :| p in rows && p.1 == a;
      assert Exists(p.0, a);
    }

    /** The liked activities with their like counts, most liked first,
        each once. */
    method RankLiked() returns (ranked: seq<(nat, nat)>)
      ensures SortedBy(ranked, MostLikedFirst)
      ensures forall x :: x in ranked ==> x.1 == CountByActivity(x.0) > 0
      ensures DistinctIds(ranked)
      ensures forall a :: a in LikedActivities() ==> (a, CountByActivity(a)) in ranked
    {
      var pending := LikedActivities();
      ranked := [];
      while pending != {}
        invariant pending <= LikedActivities()
        invariant SortedBy(ranked, MostLikedFirst)
        invariant forall x :: x in ranked ==> x.1 == CountByActivity(x.0) > 0 && x.0 !in pending
        invariant DistinctIds(ranked)
        invariant forall a :: a in LikedActivities() && a !in pending ==> (a, CountByActivity(a)) in ranked
        decreases |pending|
      {
        var a :| a in pending;
        var entry := (a, CountByActivity(a));
        LikedCounted(a);
        ranked := InsertEntry(entry, ranked);
        pending := pending - {a};
      }
    }

    /** `get_most_liked_activites`: (activity, likes) pairs grouped by
        activity, most liked first, at most `limit` of them. The grouping
        order is the database's, so ties come in any order. An activity
        left out has no more likes than any listed one, and only a full
        result leaves one out. */
    method MostLiked(limit: nat) returns (r: seq<(nat, nat)>)
      ensures |r| <= limit
      ensures forall i :: 0 <= i < |r| ==> r[i].1 == CountByActivity(r[i].0) > 0
      ensures forall i, j :: 0 <= i < j < |r| ==> r[i].1 >= r[j].1 && r[i].0 != r[j].0
      ensures forall a :: a in LikedActivities() && (a, CountByActivity(a)) !in r ==>
                |r| == limit && forall i :: 0 <= i < |r| ==> CountByActivity(a) <= r[i].1
    {
      var ranked := RankLiked();
      r := Take(ranked, limit);
      forall i, j | 0 <= i < j < |r| ensures r[i].1 >= r[j].1 {
        assert MostLikedFirst(ranked[i]) <= MostLikedFirst(ranked[j]);
      }
      forall a | a in LikedActivities() && (a, CountByActivity(a)) !in r
        ensures |r| == limit && forall i :: 0 <= i < |r| ==> CountByActivity(a) <= r[i].1
      {
        var j :| 0 <= j < |ranked| && ranked[j] == (a, CountByActivity(a));
        assert j >= |r|;
        forall i | 0 <= i < |r| ensures CountByActivity(a) <= r[i].1 {
          assert MostLikedFirst(ranked[i]) <= MostLikedFirst(ranked[j]);
        }
      }
    }
  }
}
