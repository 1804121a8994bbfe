/** CommentaireDAO: the Commentaire table, held in insertion order, which
    is also ascending id order: the id is an INTEGER PRIMARY KEY without
    AUTOINCREMENT, so SQLite gives a new row one more than the largest id
    in the table (1 in an empty table). */
module CommentDao {
  import opened Common
  import opened Seqs
  import opened Rows
  import opened Feed

  const CommentId: CommentRow -> int := (c: CommentRow) => c.id

  function ByAuthor(author: nat): CommentRow -> bool
  {
    (c: CommentRow) => c.author == author
  }

  function IdIsNot(id: nat): CommentRow -> bool
  {
    (c: CommentRow) => c.id != id
  }

  function NotOnActivity(activity: nat): CommentRow -> bool
  {
    (c: CommentRow) => c.activity != activity
  }

  /** `get_by_id`: `filter(id == id).first()` */
  function ById(rows: seq<CommentRow>, id: nat): Option<CommentRow>
  {
    FirstWhere(rows, KeyIs(CommentId, id))
  }

  /** In a table with distinct ids, `get_by_id` finds the one row with that
      id, and finds nothing exactly when no row has it. */
  lemma ByIdMeaning(rows: seq<CommentRow>, id: nat, c: CommentRow)
    requires IncreasingBy(rows, CommentId)
    ensures ById(rows, id) == Some(c) <==> c in rows && c.id == id
    ensures ById(rows, id).None? <==> forall x :: x in rows ==> x.id != id
  {
    FirstWhereUnique(rows, CommentId, id, c);
  }

  /** `limit` applied only when it is truthy. */
  function LimitIfGiven(s: seq<CommentRow>, limit: Option<nat>): seq<CommentRow>
  {
    if LimitTruthy(limit) then Take(s, limit.value) else s
  }

  /** The comments satisfying `p`, highest id first. */
  function NewestWhere(rows: seq<CommentRow>, p: CommentRow -> bool): seq<CommentRow>
  {
    Reverse(Filter(rows, p))
  }

  /** `get_by_activite`: the activity's comments, `ORDER BY id DESC`, cut
      to `limit` when it is truthy. */
  function GetByActivity(rows: seq<CommentRow>, activity: nat, limit: Option<nat>): seq<CommentRow>
  {
    LimitIfGiven(NewestWhere(rows, OnActivity(activity)), limit)
  }

  /** `get_by_auteur` */
  function GetByAuthor(rows: seq<CommentRow>, author: nat, limit: Option<nat>): seq<CommentRow>
  {
    LimitIfGiven(NewestWhere(rows, ByAuthor(author)), limit)
  }

  /** `get_recent_by_activite`: as `get_by_activite`, but the limit
      (default 5) always applies. */
  function GetRecentByActivity(rows: seq<CommentRow>, activity: nat, limit: nat): seq<CommentRow>
  {
    Take(NewestWhere(rows, OnActivity(activity)), limit)
  }

  /** `count_by_auteur` */
  function CountByAuthor(rows: seq<CommentRow>, author: nat): nat
  {
    |Filter(rows, ByAuthor(author))|
  }

  /** Newest first: the comments satisfying `p`, and only those, with ids
      strictly decreasing. */
  lemma NewestOrder(rows: seq<CommentRow>, p: CommentRow -> bool)
    requires IncreasingBy(rows, CommentId)
    ensures forall c :: c in NewestWhere(rows, p) <==> c in rows && p(c)
    ensures var r := NewestWhere(rows, p);
      forall i, j :: 0 <= i < j < |r| ==> r[i].id > r[j].id
  {
    var f := Filter(rows, p);
    FilterContains(rows, p);
    ReverseMembers(f);
    FilterIncreasing(rows, p, CommentId);
    var r := Reverse(f);
    forall i, j | 0 <= i < j < |r| ensures r[i].id > r[j].id {
      assert CommentId(f[|f| - 1 - j]) < CommentId(f[|f| - 1 - i]);
    }
  }

  /** The first `n` comments satisfying `p`, newest first: at most `n`
      come back, each satisfies `p`, ids strictly decrease, and a comment
      is left out only from a full result and only when it is older than
      every returned one. */
  lemma NewestMeaning(rows: seq<CommentRow>, p: CommentRow -> bool, n: nat)
    requires IncreasingBy(rows, CommentId)
    ensures var r := Take(NewestWhere(rows, p), n);
      |r| <= n
      && (forall i :: 0 <= i < |r| ==> r[i] in rows && p(r[i]))
      && (forall i, j :: 0 <= i < j < |r| ==> r[i].id > r[j].id)
      && (forall c :: c in rows && p(c) && c !in r ==>
            |r| == n && forall i :: 0 <= i < |r| ==> c.id < r[i].id)
  {
    var all := NewestWhere(rows, p);
    NewestOrder(rows, p);
    var r := Take(all, n);
    assert forall i :: 0 <= i < |r| ==> r[i] == all[i];
    forall c | c in rows && p(c) && c !in r
      ensures |r| == n && forall i :: 0 <= i < |r| ==> c.id < r[i].id
    {
      var k :| 0 <= k < |all| && all[k] == c;
      assert k >= |r|;
    }
  }

  /** Without a truthy limit, `get_by_activite` returns every comment of the
      activity, and only those, newest first. */
  lemma GetByActivityAll(rows: seq<CommentRow>, activity: nat, limit: Option<nat>)
    requires IncreasingBy(rows, CommentId)
    requires !LimitTruthy(limit)
    ensures var r := GetByActivity(rows, activity, limit);
      |r| == CommentCount(rows, activity)
      && (forall c :: c in r <==> c in rows && c.activity == activity)
      && (forall i, j :: 0 <= i < j < |r| ==> r[i].id > r[j].id)
  {
    NewestOrder(rows, OnActivity(activity));
  }

  /** With a truthy limit, `get_by_activite` is the `limit` newest comments
      of the activity. */
  lemma GetByActivityLimited(rows: seq<CommentRow>, activity: nat, limit: nat)
    requires IncreasingBy(rows, CommentId)
    requires limit != 0
    ensures var r := GetByActivity(rows, activity, Some(limit));
      |r| <= limit
      && (forall c :: c in r ==> c in rows && c.activity == activity)
      && (forall i, j :: 0 <= i < j < |r| ==> r[i].id > r[j].id)
      && (forall c :: c in rows && c.activity == activity && c !in r ==>
            |r| == limit && forall i :: 0 <= i < |r| ==> c.id < r[i].id)
  {
    NewestMeaning(rows, OnActivity(activity), limit);
  }

  /** `get_recent_by_activite` agrees with `get_by_activite` for any
      positive limit; with 0 it returns nothing. */
  lemma RecentIsLimitedGet(rows: seq<CommentRow>, activity: nat, limit: nat)
    ensures GetRecentByActivity(rows, activity, limit) ==
      if limit == 0 then [] else GetByActivity(rows, activity, Some(limit))
  {
  }

  /** `get_by_auteur` without a truthy limit returns every comment of the
      author, newest first, and `count_by_auteur` counts them. */
  lemma GetByAuthorAll(rows: seq<CommentRow>, author: nat, limit: Option<nat>)
    requires IncreasingBy(rows, CommentId)
    requires !LimitTruthy(limit)
    ensures var r := GetByAuthor(rows, author, limit);
      |r| == CountByAuthor(rows, author)
      && (forall c :: c in r <==> c in rows && c.author == author)
      && (forall i, j :: 0 <= i < j < |r| ==> r[i].id > r[j].id)
  {
    NewestOrder(rows, ByAuthor(author));
  }

  /** The rowid SQLite gives the next insert into a table without
      AUTOINCREMENT: one more than the largest id present, 1 when the table
      is empty. */
  function NextRowId(rows: seq<CommentRow>): (n: nat)
    ensures 1 <= n
    ensures forall c :: c in rows ==> c.id < n
    ensures rows == [] ==> n == 1
    ensures rows != [] ==> exists c :: c in rows && c.id == n - 1
  {
    if rows == [] then 1
    else
      var before := NextRowId(DropLast(rows));
      assert forall c :: c in DropLast(rows) ==> c in rows;
      assert rows == DropLast(rows) + [Last(rows)];
      if Last(rows).id + 1 > before then Last(rows).id + 1 else before
  }

  /** In a table in ascending id order the next id follows the newest
      row's; after the newest comment is deleted, the next id is computed
      from the one before it, so a freed id can be given again. */
  lemma NextRowIdFollowsNewest(rows: seq<CommentRow>)
    requires IncreasingBy(rows, CommentId) && rows != []
    ensures NextRowId(rows) == Last(rows).id + 1
  {
    var n := NextRowId(rows);
    var c :| c in rows && c.id == n - 1;
    var i :| 0 <= i < |rows| && rows[i] == c;
    if i < |rows| - 1 {
      assert CommentId(rows[i]) < CommentId(rows[|rows| - 1]);
    }
  }

  class CommentStore {
    /** The rows, in insertion order. */
    var rows: seq<CommentRow>

    /** Ids increase along the table. */
    predicate Valid()
      reads this
    {
      IncreasingBy(rows, CommentId)
    }

    constructor()
      ensures Valid() && rows == []
    {
      rows := [];
    }

    /** `create`: stores the comment, whatever its content (an empty string
        included), under one more than the largest id in the table (1 when
        it is empty). */
    method Create(activity: nat, author: nat, content: string) returns (c: CommentRow)
      requires Valid()
      modifies this
      ensures Valid()
      ensures c == CommentRow(NextRowId(old(rows)), activity, author, content)
      ensures forall x :: x in old(rows) ==> x.id < c.id
      ensures old(rows) == [] ==> c.id == 1
      ensures old(rows) != [] ==> exists x :: x in old(rows) && x.id == c.id - 1
      ensures rows == old(rows) + [c]
      ensures GetById(c.id) == Some(c)
    {
      c := CommentRow(NextRowId(rows), activity, author, content);
      rows := rows + [c];
      ByIdMeaning(rows, c.id, c);
    }

    /** `get_by_id` */
    function GetById(id: nat): Option<CommentRow>
      reads this
    {
      ById(rows, id)
    }

    /** `count_by_activite` */
    function CountOnActivity(activity: nat): (n: nat)
      reads this
      ensures n == |Filter(rows, OnActivity(activity))|
      ensures n == 0 <==> forall c :: c in rows ==> c.activity != activity
    {
      FilterEmpty(rows, OnActivity(activity));
      CommentCount(rows, activity)
    }

    /** `is_author`: False for a missing comment, otherwise whether `user`
        wrote it. */
    function IsAuthor(id: nat, user: nat): (r: bool)
      requires Valid()
      reads this
      ensures r <==> exists c :: c in rows && c.id == id && c.author == user
    {
      var found := GetById(id);
      if found.None? then
        ByIdMeaning(rows, id, CommentRow(id, 0, user, ""));
        false
      else
        ByIdMeaning(rows, id, found.value);
        found.value.author == user
    }

    /** `update`: None for an unknown id; otherwise only the content of that
        comment changes. */
    method Update(id: nat, content: string) returns (r: Option<CommentRow>)
      requires Valid()
      modifies this
      ensures Valid()
      ensures r.None? <==> old(GetById(id)).None?
      ensures r.None? ==> rows == old(rows)
      ensures r.Some? ==> r.value == old(GetById(id)).value.(content := content)
      ensures r.Some? ==> GetById(id) == r
      ensures |rows| == |old(rows)|
      ensures forall i :: 0 <= i < |rows| ==>
        rows[i] == if old(rows)[i].id == id then old(rows)[i].(content := content) else old(rows)[i]
    {
      var k := IndexWhere(rows, KeyIs(CommentId, id));
      if k == |rows| {
        return None;
      }
      var updated := rows[k].(content := content);
      ByIdMeaning(rows, id, rows[k]);
      ContentReplaced(rows, k, content);
      rows := rows[k := updated];
      ByIdMeaning(rows, id, updated);
      r := Some(updated);
    }

    /** `delete`: False for an absent id and nothing changes; otherwise that
        row goes, and `get_by_id` then finds nothing. */
    method Delete(id: nat) returns (deleted: bool)
      requires Valid()
      modifies this
      ensures Valid()
      ensures deleted <==> old(GetById(id)).Some?
      ensures rows == Filter(old(rows), IdIsNot(id))
      ensures GetById(id).None?
    {
      var found := GetById(id);
      ByIdMeaning(rows, id, CommentRow(id, 0, 0, ""));
      FilterMembers(rows, IdIsNot(id));
      if found.None? {
        FilterAll(rows, IdIsNot(id));
        return false;
      }
      FilterIncreasing(rows, IdIsNot(id), CommentId);
      rows := Filter(rows, IdIsNot(id));
      ByIdMeaning(rows, id, CommentRow(id, 0, 0, ""));
      deleted := true;
    }

    /** `delete_by_activite`: deletes the activity's comments one by one
        and returns how many there were; none is left afterwards and every
        other comment stays. */
    method DeleteByActivity(activity: nat) returns (count: nat)
      requires Valid()
      modifies this
      ensures Valid()
      ensures rows == Filter(old(rows), NotOnActivity(activity))
      ensures count == CommentCount(old(rows), activity) == |old(rows)| - |rows|
      ensures CountOnActivity(activity) == 0
    {
      var victims := Filter(rows, OnActivity(activity));
      count := |victims|;
      ghost var start := rows;
      FilterAll(start, IdNotIn(IdsOf([])));
      var i := 0;
      while i < |victims|
        invariant 0 <= i <= |victims|
        invariant Valid()
        invariant rows == Filter(start, IdNotIn(IdsOf(victims[..i])))
      {
        DeleteOneMore(start, victims, i);
        var _ := Delete(victims[i].id);
        i := i + 1;
      }
      assert victims[..i] == victims;
      DeletedActivity(start, activity, victims);
      DeletedCounts(start, activity);
    }
  }

  /** Deleting the next victim by id from what is left after the first `i`
      keeps what is left after the first `i + 1`. */
  lemma DeleteOneMore(start: seq<CommentRow>, victims: seq<CommentRow>, i: nat)
    requires i < |victims|
    ensures Filter(Filter(start, IdNotIn(IdsOf(victims[..i]))), IdIsNot(victims[i].id))
            == Filter(start, IdNotIn(IdsOf(victims[..i + 1])))
  {
    var gone := IdsOf(victims[..i]);
    assert DropLast(victims[..i + 1]) == victims[..i];
    assert IdsOf(victims[..i + 1]) == gone + {victims[i].id};
    FilterFilter(start, IdNotIn(gone), IdIsNot(victims[i].id), IdNotIn(gone + {victims[i].id}));
  }

  /** The ids of the given rows. */
  function IdsOf(s: seq<CommentRow>): (ids: set<nat>)
    ensures forall c :: c in s ==> c.id in ids
    ensures forall id :: id in ids ==> exists c :: c in s && c.id == id
  {
    if s == [] then {} else IdsOf(DropLast(s)) + {Last(s).id}
  }

  /** Keeping the comments not on an activity leaves `|rows|` minus that
      activity's count, and none of the activity's. */
  lemma DeletedCounts(rows: seq<CommentRow>, activity: nat)
    ensures CommentCount(rows, activity) == |rows| - |Filter(rows, NotOnActivity(activity))|
    ensures CommentCount(Filter(rows, NotOnActivity(activity)), activity) == 0
  {
    FilterComplement(rows, OnActivity(activity), NotOnActivity(activity));
    var kept := Filter(rows, NotOnActivity(activity));
    FilterMembers(rows, NotOnActivity(activity));
    FilterEmpty(kept, OnActivity(activity));
  }

  /** Replacing one row's content keeps the ids, so the table stays
      ordered and the other rows keep ids different from it. */
  lemma ContentReplaced(rows: seq<CommentRow>, k: nat, content: string)
    requires IncreasingBy(rows, CommentId)
    requires k < |rows|
    ensures var r := rows[k := rows[k].(content := content)];
      IncreasingBy(r, CommentId)
      && r[k] == rows[k].(content := content)
      && forall i :: 0 <= i < |rows| && i != k ==> rows[i].id != rows[k].id
  {
    var r := rows[k := rows[k].(content := content)];
    assert forall i :: 0 <= i < |r| ==> CommentId(r[i]) == CommentId(rows[i]);
    forall i | 0 <= i < |rows| && i != k ensures rows[i].id != rows[k].id {
      if i < k {
        assert CommentId(rows[i]) < CommentId(rows[k]);
      } else {
        assert CommentId(rows[k]) < CommentId(rows[i]);
      }
    }
  }

  function IdNotIn(gone: set<nat>): CommentRow -> bool
  {
    (c: CommentRow) => c.id !in gone
  }

  /** With distinct ids, removing the ids of an activity's comments is
      removing the activity's comments. */
  lemma DeletedActivity(rows: seq<CommentRow>, activity: nat, victims: seq<CommentRow>)
    requires IncreasingBy(rows, CommentId)
    requires victims == Filter(rows, OnActivity(activity))
    ensures Filter(rows, IdNotIn(IdsOf(victims))) == Filter(rows, NotOnActivity(activity))
  {
    var gone := IdsOf(victims);
    FilterContains(rows, OnActivity(activity));
    forall i | 0 <= i < |rows| ensures IdNotIn(gone)(rows[i]) == NotOnActivity(activity)(rows[i]) {
      if rows[i].activity == activity {
        assert rows[i] in victims;
      } else {
        forall c | c in victims ensures c.id != rows[i].id {
          OtherActivityOtherId(rows, activity, c, i);
        }
      }
    }
    FilterSame(rows, IdNotIn(gone), NotOnActivity(activity));
  }

  /** With distinct ids, a comment on the activity never shares its id with
      a row on another activity. */
  lemma OtherActivityOtherId(rows: seq<CommentRow>, activity: nat, c: CommentRow, i: int)
    requires IncreasingBy(rows, CommentId)
    requires c in rows && c.activity == activity
    requires 0 <= i < |rows| && rows[i].activity != activity
    ensures c.id != rows[i].id
  {
    var j :| 0 <= j < |rows| && rows[j] == c;
    assert j != i;
    if j < i {
      assert CommentId(rows[j]) < CommentId(rows[i]);
    } else {
      assert CommentId(rows[i]) < CommentId(rows[j]);
    }
  }
}
