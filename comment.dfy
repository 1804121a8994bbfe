/** The in-memory `Commentaire` business object: a comment on an activity
    with the list of users who liked it. Users are identified by their id,
    which is what `Utilisateur.__eq__` compares, so `utilisateur in
    self._like` is membership of the id. */
module CommentObject {
  import opened Common
  import opened Seqs
  import opened Values

  class Comment {
    const id: int
    const author: nat
    const activity: nat
    var content: string
    /** `_like`: the ids of the users who liked the comment, in order. */
    var likes: seq<nat>

    /** The like list never holds the same user twice. */
    predicate Valid()
      reads this
    {
      Distinct(likes)
    }

    /** `__init__`: stores the content as given, without checking it, and
        starts with no likes. */
    constructor(id: int, author: nat, activity: nat, content: string)
      ensures Valid()
      ensures this.id == id && this.author == author && this.activity == activity
      ensures this.content == content && likes == []
    {
      this.id := id;
      this.author := author;
      this.activity := activity;
      this.content := content;
      likes := [];
    }

    /** The `like` getter: a new list with the same users, so changing it
        leaves the comment alone. */
    method Like() returns (copy: array<nat>)
      ensures fresh(copy)
      ensures copy[..] == likes
    {
      copy := new nat[|likes|](i requires 0 <= i < |likes| reads this => likes[i]);
    }

    /** The `contenu` setter: a string with a non-whitespace character
        replaces the content; anything else raises ValueError and changes
        nothing. The likes never change. */
    method SetContent(v: PyValue) returns (error: Option<PyError>)
      modifies this
      ensures error.None? <==> NonBlankStr(v)
      ensures error.Some? ==> error.value == ValueError
      ensures content == if NonBlankStr(v) then v.s else old(content)
      ensures likes == old(likes)
    {
      if NonBlankStr(v) {
        content := v.s;
        error := None;
      } else {
        error := Some(ValueError);
      }
    }

    /** `ajouter_like`: appends the user unless already there; says whether
        it did. */
    method AddLike(user: nat) returns (added: bool)
      requires Valid()
      modifies this
      ensures Valid()
      ensures added <==> user !in old(likes)
      ensures likes == if added then old(likes) + [user] else old(likes)
      ensures user in likes
      ensures content == old(content)
    {
      if user !in likes {
        likes := likes + [user];
        return true;
      }
      return false;
    }

    /** `supprimer_like`: removes the user if there; says whether it did. */
    method RemoveLike(user: nat) returns (removed: bool)
      requires Valid()
      modifies this
      ensures Valid()
      ensures removed <==> user in old(likes)
      ensures removed ==> likes == RemoveFirst(old(likes), user)
      ensures !removed ==> likes == old(likes)
      ensures user !in likes
      ensures forall u :: u != user ==> (u in likes <==> u in old(likes))
      ensures content == old(content)
    {
      if user in likes {
        RemoveFirstDistinct(likes, user);
        likes := RemoveFirst(likes, user);
        return true;
      }
      return false;
    }

    /** `comptelike`: the number of distinct users who liked. */
    function CountLikes(): (n: nat)
      requires Valid()
      reads this
      ensures n == |likes|
      ensures n == |Members(likes)|
    {
      DistinctCard(likes);
      |likes|
    }
  }

  /** The users in a like list. */
  function Members(s: seq<nat>): (m: set<nat>)
    ensures forall u :: u in m <==> u in s
  {
    set u | u in s
  }

  /** A list without duplicates has as many elements as its set. */
  lemma {:induction false} DistinctCard(s: seq<nat>)
    requires Distinct(s)
    ensures |Members(s)| == |s|
  {
    if s == [] {
      assert Members(s) == {};
    } else {
      var rest := DropLast(s);
      assert s == rest + [Last(s)];
      assert Distinct(rest);
      DistinctCard(rest);
      assert Members(s) == Members(rest) + {Last(s)};
      assert Last(s) !in rest;
    }
  }

  /** Liking then unliking a comment the user had not liked restores the
      list exactly. */
  method LikeThenUnlike(c: Comment, user: nat)
    requires c.Valid() && user !in c.likes
    modifies c
    ensures c.likes == old(c.likes)
  {
    var added := c.AddLike(user);
    var removed := c.RemoveLike(user);
    assert IndexOf(old(c.likes) + [user], user) == |old(c.likes)|;
  }
}
