/** FollowDAO: the Follow table as a set of (follower_id, followed_id)
    pairs. */
module FollowDao {
  import opened Seqs
  import opened Rows
  import opened Relations

  /** `WHERE Utilisateur.id IN ids`, in table order. */
  function IdIn(ids: set<nat>): UserRow -> bool
  {
    (u: UserRow) => u.id in ids
  }

  class FollowStore {
    /** The Follow rows; the composite primary key keeps each pair once. */
    var edges: Pairs

    constructor()
      ensures edges == {}
    {
      edges := {};
    }

    /** No user follows themself. */
    predicate NoSelfFollow()
      reads this
    {
      forall p :: p in edges ==> p.0 != p.1
    }

    /** `create`: refuses a self-follow and an existing pair, otherwise
        inserts exactly that pair. */
    method Create(follower: nat, followed: nat) returns (created: bool)
      modifies this
      ensures created <==> follower != followed && (follower, followed) !in old(edges)
      ensures edges == if created then old(edges) + {(follower, followed)} else old(edges)
      ensures old(NoSelfFollow()) ==> NoSelfFollow()
    {
      if follower == followed {
        return false;
      }
      if (follower, followed) in edges {
        return false;
      }
      edges := edges + {(follower, followed)};
      created := true;
    }

    /** `delete`: removes the pair and says whether a row went. */
    method Delete(follower: nat, followed: nat) returns (deleted: bool)
      modifies this
      ensures deleted <==> (follower, followed) in old(edges)
      ensures edges == old(edges) - {(follower, followed)}
      ensures old(NoSelfFollow()) ==> NoSelfFollow()
    {
      var rowcount := if (follower, followed) in edges then 1 else 0;
      edges := edges - {(follower, followed)};
      deleted := rowcount > 0;
    }

    /** `exists`, and its alias `is_following`. */
    predicate Exists(follower: nat, followed: nat)
      reads this
    {
      (follower, followed) in edges
    }

    /** `get_following_ids`: the users `user` follows. */
    function FollowingIds(user: nat): (ids: set<nat>)
      reads this
      ensures forall f :: f in ids <==> Exists(user, f)
    {
      Right(edges, user)
    }

    /** `get_followers_ids`: the users who follow `user`. */
    function FollowerIds(user: nat): (ids: set<nat>)
      reads this
      ensures forall f :: f in ids <==> Exists(f, user)
    {
      Left(edges, user)
    }

    /** `count_following`: the number of rows with `user` as follower, which
        is the number of users `user` follows. */
    function CountFollowing(user: nat): (n: nat)
      reads this
      ensures n == |FollowingIds(user)|
    {
      RowsFromCount(edges, user);
      |RowsFrom(edges, user)|
    }

    /** `count_followers` */
    function CountFollowers(user: nat): (n: nat)
      reads this
      ensures n == |FollowerIds(user)|
    {
      RowsToCount(edges, user);
      |RowsTo(edges, user)|
    }

    /** `delete_all_by_user`: removes the rows where `user` follows, then
        those where `user` is followed, and returns both row counts added. */
    method DeleteAllByUser(user: nat) returns (removed: nat)
      modifies this
      ensures edges == set p | p in old(edges) && p.0 != user && p.1 != user
      ensures removed == |old(edges)| - |edges|
      ensures FollowingIds(user) == {} && FollowerIds(user) == {}
      ensures old(NoSelfFollow()) ==> NoSelfFollow()
    {
      var asFollower := RowsFrom(edges, user);
      RemoveCount(edges, asFollower);
      edges := edges - asFollower;
      var asFollowed := RowsTo(edges, user);
      RemoveCount(edges, asFollowed);
      edges := edges - asFollowed;
      removed := |asFollower| + |asFollowed|;
    }

    /** `get_mutual_follows`: of the users `user` follows, keep those who
        follow `user` back, then read their rows from the user table. */
    method MutualFollows(user: nat, users: seq<UserRow>) returns (r: seq<UserRow>)
      ensures forall u :: u in r <==> u in users && Exists(user, u.id) && Exists(u.id, user)
    {
      var pending := FollowingIds(user);
      var mutual: set<nat> := {};
      while pending != {}
        invariant pending <= FollowingIds(user)
        invariant forall f :: f in mutual <==> f in FollowingIds(user) && f !in pending && Exists(f, user)
        decreases |pending|
      {
        var f :| f in pending;
        if Exists(f, user) {
          mutual := mutual + {f};
        }
        pending := pending - {f};
      }
      if mutual == {} {
        return [];
      }
      r := Filter(users, IdIn(mutual));
      FilterMembers(users, IdIn(mutual));
    }
  }
}
