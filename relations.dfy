/** The two link tables, Follow (follower_id, followed_id) and Like
    (utilisateur_id, activite_id), have a composite primary key: a table is
    a set of pairs. These are the queries both run on a pair table. */
module Relations {

  type Pairs = set<(nat, nat)>

  /** The rows whose left column is `x` (`WHERE left == x`). */
  function RowsFrom(rel: Pairs, x: nat): Pairs
  {
    set p | p in rel && p.0 == x
  }

  /** The rows whose right column is `y` (`WHERE right == y`). */
  function RowsTo(rel: Pairs, y: nat): Pairs
  {
    set p | p in rel && p.1 == y
  }

  /** The right column of the rows whose left column is `x`. */
  function Right(rel: Pairs, x: nat): (r: set<nat>)
    ensures forall y :: y in r <==> (x, y) in rel
  {
    var r := set p | p in rel && p.0 == x :: p.1;
    assert forall y :: (x, y) in rel ==> (x, y).1 in r;
    r
  }

  /** The left column of the rows whose right column is `y`. */
  function Left(rel: Pairs, y: nat): (r: set<nat>)
    ensures forall x :: x in r <==> (x, y) in rel
  {
    var r := set p | p in rel && p.1 == y :: p.0;
    assert forall x :: (x, y) in rel ==> (x, y).0 in r;
    r
  }

  /** Counting the rows of a left value counts its distinct right values:
      `len(fetchall())` equals the length of the id list. */
  lemma RowsFromCount(rel: Pairs, x: nat)
    ensures |RowsFrom(rel, x)| == |Right(rel, x)|
  {
    SecondsCount(RowsFrom(rel, x), x);
    assert Right(rel, x) == set p | p in RowsFrom(rel, x) :: p.1;
  }

  lemma RowsToCount(rel: Pairs, y: nat)
    ensures |RowsTo(rel, y)| == |Left(rel, y)|
  {
    FirstsCount(RowsTo(rel, y), y);
    assert Left(rel, y) == set p | p in RowsTo(rel, y) :: p.0;
  }

  /** Pairs sharing their left value are told apart by their right value. */
  lemma {:induction false} SecondsCount(rows: Pairs, x: nat)
    requires forall p :: p in rows ==> p.0 == x
    ensures |set p | p in rows :: p.1| == |rows|
    decreases |rows|
  {
    if rows != {} {
      var q :| q in rows;
      var rest := rows - {q};
      SecondsCount(rest, x);
      var seconds := set p | p in rows :: p.1;
      var restSeconds := set p | p in rest :: p.1;
      assert seconds == restSeconds + {q.1};
      assert q.1 !in restSeconds;
    }
  }

  lemma {:induction false} FirstsCount(rows: Pairs, y: nat)
    requires forall p :: p in rows ==> p.1 == y
    ensures |set p | p in rows :: p.0| == |rows|
    decreases |rows|
  {
    if rows != {} {
      var q :| q in rows;
      var rest := rows - {q};
      FirstsCount(rest, y);
      var firsts := set p | p in rows :: p.0;
      var restFirsts := set p | p in rest :: p.0;
      assert firsts == restFirsts + {q.0};
      assert q.0 !in restFirsts;
    }
  }

  /** Removing a subset removes exactly its rows from the count. */
  lemma {:induction false} RemoveCount(rel: Pairs, gone: Pairs)
    requires gone <= rel
    ensures |rel - gone| == |rel| - |gone|
    decreases |gone|
  {
    if gone != {} {
      var q :| q in gone;
      RemoveCount(rel - {q}, gone - {q});
      assert (rel - {q}) - (gone - {q}) == rel - gone;
    }
  }
}
