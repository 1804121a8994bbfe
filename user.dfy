/** The in-memory `Utilisateur` business object: validating setters, the
    age, log-in, following through a follow store, the activity list and
    the totals computed over it. */
module UserObject {
  import opened Common
  import opened Seqs
  import opened Calendar
  import opened Values
  import opened FollowDao

  /** An attribute read with `hasattr`: missing, present but None (a NULL
      column), or a number. */
  datatype Attr = Absent | Null | Num(v: real)

  /** An element of the activity list, as the totals read it. `ref` stands
      for the object's identity: the list elements define no `__eq__`, so
      `in` and `remove` compare identities. */
  datatype ActivityItem = ActivityItem(ref: nat, dPlus: Attr, duration: Attr, calories: Attr)

  /** `total = 0; for a in items: if hasattr(a, f): total += a.f`, as a
      value: adding None raises TypeError. */
  function AttrSum(items: seq<ActivityItem>, attr: ActivityItem -> Attr): Outcome<real>
  {
    if items == [] then Ok(0.0)
    else
      match AttrSum(DropLast(items), attr)
      case Raised(e) => Raised(e)
      case Ok(t) =>
        match attr(Last(items))
        case Absent => Ok(t)
        case Null => Raised(TypeError)
        case Num(v) => Ok(t + v)
  }

  /** The numbers the loop adds: the present attributes, in order. */
  function Present(items: seq<ActivityItem>, attr: ActivityItem -> Attr): seq<real>
  {
    if items == [] then []
    else if attr(Last(items)).Num? then Present(DropLast(items), attr) + [attr(Last(items)).v]
    else Present(DropLast(items), attr)
  }

  predicate NoNull(items: seq<ActivityItem>, attr: ActivityItem -> Attr)
  {
    forall i :: 0 <= i < |items| ==> !attr(items[i]).Null?
  }

  /** The total is the sum of the present values when no attribute is
      None, and TypeError otherwise; an empty list totals 0. */
  lemma {:induction false} AttrSumMeaning(items: seq<ActivityItem>, attr: ActivityItem -> Attr)
    ensures AttrSum(items, attr).Ok? <==> NoNull(items, attr)
    ensures NoNull(items, attr) ==> AttrSum(items, attr) == Ok(SumReals(Present(items, attr)))
    ensures !NoNull(items, attr) ==> AttrSum(items, attr) == Raised(TypeError)
  {
    if items != [] {
      var init := DropLast(items);
      AttrSumMeaning(init, attr);
      assert forall i :: 0 <= i < |init| ==> init[i] == items[i];
      assert NoNull(items, attr) <==> NoNull(init, attr) && !attr(Last(items)).Null?;
      if attr(Last(items)).Num? {
        SumRealsAppend(Present(init, attr), attr(Last(items)).v);
      }
    }
  }

  lemma {:induction false} SumRealsAppend(s: seq<real>, x: real)
    ensures SumReals(s + [x]) == SumReals(s) + x
  {
    if s != [] {
      assert (s + [x])[1..] == s[1..] + [x];
      SumRealsAppend(s[1..], x);
    }
  }

  /** Every attribute present and non-negative gives a non-negative total. */
  lemma {:induction false} AttrSumNonNegative(items: seq<ActivityItem>, attr: ActivityItem -> Attr)
    requires forall i :: 0 <= i < |items| ==> attr(items[i]).Num? && attr(items[i]).v >= 0.0
    ensures AttrSum(items, attr).Ok? && AttrSum(items, attr).value >= 0.0
  {
    if items != [] {
      var init := DropLast(items);
      assert forall i :: 0 <= i < |init| ==> init[i] == items[i];
      AttrSumNonNegative(init, attr);
    }
  }

  /** The loop of the `calculer_*` methods. */
  method Total(items: seq<ActivityItem>, attr: ActivityItem -> Attr) returns (r: Outcome<real>)
    ensures r == AttrSum(items, attr)
  {
    var total := 0.0;
    var i := 0;
    while i < |items|
      invariant 0 <= i <= |items|
      invariant AttrSum(items[..i], attr) == Ok(total)
    {
      assert items[..i + 1][..i] == items[..i];
      var value := attr(items[i]);
      if value.Null? {
        AbortKeepsRaising(items, attr, i + 1);
        return Raised(TypeError);
      } else if value.Num? {
        total := total + value.v;
      }
      i := i + 1;
    }
    assert items[..i] == items;
    r := Ok(total);
  }

  /** Once the sum of a prefix raises, the sum of the whole list raises the
      same error. */
  lemma {:induction false} AbortKeepsRaising(items: seq<ActivityItem>, attr: ActivityItem -> Attr, k: nat)
    requires k <= |items| && AttrSum(items[..k], attr).Raised?
    ensures AttrSum(items, attr) == AttrSum(items[..k], attr)
    decreases |items| - k
  {
    if k < |items| {
      assert items[..k + 1][..k] == items[..k];
      AbortKeepsRaising(items, attr, k + 1);
    } else {
      assert items[..k] == items;
    }
  }

  function DPlusOf(a: ActivityItem): Attr { a.dPlus }
  function DurationOf(a: ActivityItem): Attr { a.duration }
  function CaloriesOf(a: ActivityItem): Attr { a.calories }

  /** `calculer_vitesse_moyenne_globale` as a value: 0 for an empty list or
      a total duration (minutes) of 0 or less, otherwise km per hour;
      `calculer_distance_totale` sums `d_plus`. */
  function AverageSpeed(items: seq<ActivityItem>): Outcome<real>
  {
    if items == [] then Ok(0.0)
    else
      match AttrSum(items, DPlusOf)
      case Raised(e) => Raised(e)
      case Ok(distance) =>
        match AttrSum(items, DurationOf)
        case Raised(e) => Raised(e)
        case Ok(minutes) =>
          if minutes == 0.0 then Ok(0.0)
          else if minutes / 60.0 > 0.0 then Ok(distance / (minutes / 60.0))
          else Ok(0.0)
  }

  /** The speed is 0 for an empty list and for a zero total duration, and
      distance times 60 over the minutes for a positive one. */
  lemma AverageSpeedMeaning(items: seq<ActivityItem>)
    ensures items == [] ==> AverageSpeed(items) == Ok(0.0)
    ensures AttrSum(items, DPlusOf).Ok? && AttrSum(items, DurationOf) == Ok(0.0) ==> AverageSpeed(items) == Ok(0.0)
    ensures items != [] && AttrSum(items, DPlusOf).Ok? && AttrSum(items, DurationOf).Ok? && AttrSum(items, DurationOf).value > 0.0 ==>
              AverageSpeed(items) == Ok(AttrSum(items, DPlusOf).value * 60.0 / AttrSum(items, DurationOf).value)
  {
    if items != [] && AttrSum(items, DPlusOf).Ok? && AttrSum(items, DurationOf).Ok? && AttrSum(items, DurationOf).value > 0.0 {
      var d := AttrSum(items, DPlusOf).value;
      var m := AttrSum(items, DurationOf).value;
      assert d / (m / 60.0) == d * 60.0 / m by {
        assert (m / 60.0) * (d * 60.0 / m) == d;
      }
    }
  }

  /** CPython's `hash(n)` for an int: the residue modulo 2**61 - 1 with the
      sign of `n`, and -2 in place of -1. */
  function HashInt(n: int): (h: int)
    ensures 0 <= n < 0x1FFF_FFFF_FFFF_FFFF ==> h == n
  {
    var m := 0x1FFF_FFFF_FFFF_FFFF;
    var r := if n >= 0 then n % m else -((-n) % m);
    if r == -1 then -2 else r
  }

  /** `(y1, m1, d1) <= (y2, m2, d2)` on tuples. */
  predicate NotAfter(y1: int, m1: int, d1: int, y2: int, m2: int, d2: int)
  {
    y1 < y2 || (y1 == y2 && (m1 < m2 || (m1 == m2 && d1 <= d2)))
  }

  class User {
    const id: nat
    var pseudo: string
    const nom: string
    const prenom: string
    const birth: CalendarDate
    var height: real
    var weight: real
    var mail: string
    var phone: PyValue
    const password: string
    var activities: seq<ActivityItem>

    /** `__init__`: stores its arguments unchecked; a missing activity list
        becomes an empty one. */
    constructor(id: nat, pseudo: string, nom: string, prenom: string, birth: CalendarDate,
                height: real, weight: real, mail: string, phone: PyValue, password: string,
                activities: Option<seq<ActivityItem>>)
      ensures this.id == id && this.pseudo == pseudo && this.nom == nom && this.prenom == prenom
      ensures this.birth == birth && this.height == height && this.weight == weight
      ensures this.mail == mail && this.phone == phone && this.password == password
      ensures this.activities == GetOr(activities, [])
    {
      this.id := id;
      this.pseudo := pseudo;
      this.nom := nom;
      this.prenom := prenom;
      this.birth := birth;
      this.height := height;
      this.weight := weight;
      this.mail := mail;
      this.phone := phone;
      this.password := password;
      this.activities := GetOr(activities, []);
    }

    /** `age`: whole years since birth; the birthday of that year is on or
        before `today`, the next one after it. */
    function Age(today: CalendarDate): (age: int)
      ensures NotAfter(birth.year + age, birth.month, birth.day, today.year, today.month, today.day)
      ensures !NotAfter(birth.year + age + 1, birth.month, birth.day, today.year, today.month, today.day)
    {
      var age := today.year - birth.year;
      if today.month < birth.month || (today.month == birth.month && today.day < birth.day) then age - 1 else age
    }

    /** `pseudo` setter: a non-blank string, or ValueError and no change. */
    method SetPseudo(v: PyValue) returns (error: Option<PyError>)
      modifies this
      ensures error.None? <==> NonBlankStr(v)
      ensures error.Some? ==> error.value == ValueError
      ensures pseudo == if NonBlankStr(v) then v.s else old(pseudo)
      ensures error.None? ==> LogIn(v.s, password)
      ensures height == old(height) && weight == old(weight) && mail == old(mail)
      ensures phone == old(phone) && activities == old(activities)
    {
      if NonBlankStr(v) {
        pseudo := v.s;
        error := None;
      } else {
        error := Some(ValueError);
      }
    }

    /** `taille` setter: an int, bool or float above 0, or ValueError and no
        change. */
    method SetHeight(v: PyValue) returns (error: Option<PyError>)
      modifies this
      ensures error.None? <==> IsNumber(v) && NumberValue(v) > 0.0
      ensures error.Some? ==> error.value == ValueError
      ensures height == if error.None? then NumberValue(v) else old(height)
      ensures height > 0.0 || height == old(height)
      ensures pseudo == old(pseudo) && weight == old(weight) && mail == old(mail)
      ensures phone == old(phone) && activities == old(activities)
    {
      if IsNumber(v) && NumberValue(v) > 0.0 {
        height := NumberValue(v);
        error := None;
      } else {
        error := Some(ValueError);
      }
    }

    /** `poids` setter, the same rule as `taille`. */
    method SetWeight(v: PyValue) returns (error: Option<PyError>)
      modifies this
      ensures error.None? <==> IsNumber(v) && NumberValue(v) > 0.0
      ensures error.Some? ==> error.value == ValueError
      ensures weight == if error.None? then NumberValue(v) else old(weight)
      ensures weight > 0.0 || weight == old(weight)
      ensures pseudo == old(pseudo) && height == old(height) && mail == old(mail)
      ensures phone == old(phone) && activities == old(activities)
    {
      if IsNumber(v) && NumberValue(v) > 0.0 {
        weight := NumberValue(v);
        error := None;
      } else {
        error := Some(ValueError);
      }
    }

    /** `mail` setter: a string containing '@', or ValueError and no change. */
    method SetMail(v: PyValue) returns (error: Option<PyError>)
      modifies this
      ensures error.None? <==> v.PyStr? && '@' in v.s
      ensures error.Some? ==> error.value == ValueError
      ensures mail == if error.None? then v.s else old(mail)
      ensures '@' in mail || mail == old(mail)
      ensures pseudo == old(pseudo) && height == old(height) && weight == old(weight)
      ensures phone == old(phone) && activities == old(activities)
    {
      if v.PyStr? && '@' in v.s {
        mail := v.s;
        error := None;
      } else {
        error := Some(ValueError);
      }
    }

    /** `telephone` setter: an int, bool or string is stored as it is;
        anything else raises ValueError. */
    method SetPhone(v: PyValue) returns (error: Option<PyError>)
      modifies this
      ensures error.None? <==> IsInt(v) || v.PyStr?
      ensures error.Some? ==> error.value == ValueError
      ensures phone == if error.None? then v else old(phone)
      ensures pseudo == old(pseudo) && height == old(height) && weight == old(weight)
      ensures mail == old(mail) && activities == old(activities)
    {
      if IsInt(v) || v.PyStr? {
        phone := v;
        error := None;
      } else {
        error := Some(ValueError);
      }
    }

    /** `connexion`: both the pseudo and the password match. */
    predicate LogIn(pseudo: string, password: string)
      reads this
    {
      this.pseudo == pseudo && this.password == password
    }

    /** `follow_utilisateur`: following oneself, or a service without
        `ajouter_follow` (null here), answers False and touches nothing;
        otherwise the follow store's `create` decides. */
    method FollowUser(target: nat, service: FollowStore?) returns (r: bool)
      modifies service
      ensures target == id || service == null ==> !r
      ensures service != null && target == id ==> service.edges == old(service.edges)
      ensures service != null && target != id ==>
                (r <==> (id, target) !in old(service.edges)) && service.edges == old(service.edges) + {(id, target)}
    {
      if target != id && service != null {
        r := service.Create(id, target);
      } else {
        r := false;
      }
    }

    /** `unfollow_utilisateur`: the follow store's `delete`, or False for a
        service without `supprimer_follow`. */
    method UnfollowUser(target: nat, service: FollowStore?) returns (r: bool)
      modifies service
      ensures service == null ==> !r
      ensures service != null ==>
                (r <==> (id, target) in old(service.edges)) && service.edges == old(service.edges) - {(id, target)}
    {
      if service != null {
        r := service.Delete(id, target);
      } else {
        r := false;
      }
    }

    /** `supprimer_activite`: removes the first occurrence and answers True,
        or answers False and changes nothing. */
    method RemoveActivity(a: ActivityItem) returns (removed: bool)
      modifies this
      ensures removed <==> a in old(activities)
      ensures removed ==> activities == RemoveFirst(old(activities), a) && |activities| == |old(activities)| - 1
      ensures removed ==> multiset(activities) == multiset(old(activities)) - multiset{a}
      ensures !removed ==> activities == old(activities)
      ensures pseudo == old(pseudo) && height == old(height) && weight == old(weight)
      ensures mail == old(mail) && phone == old(phone)
    {
      if a in activities {
        activities := RemoveFirst(activities, a);
        return true;
      }
      return false;
    }

    /** `activites=None` means the user's own list. */
    function ItemsOf(given: Option<seq<ActivityItem>>): seq<ActivityItem>
      reads this
    {
      GetOr(given, activities)
    }

    /** `calculer_distance_totale`: adds `d_plus`, not a distance. */
    method DistanceTotal(given: Option<seq<ActivityItem>>) returns (r: Outcome<real>)
      ensures r == AttrSum(ItemsOf(given), DPlusOf)
    {
      r := Total(ItemsOf(given), DPlusOf);
    }

    /** `calculer_duree_totale` (minutes) */
    method DurationTotal(given: Option<seq<ActivityItem>>) returns (r: Outcome<real>)
      ensures r == AttrSum(ItemsOf(given), DurationOf)
    {
      r := Total(ItemsOf(given), DurationOf);
    }

    /** `calculer_calories_totales` */
    method CaloriesTotal(given: Option<seq<ActivityItem>>) returns (r: Outcome<real>)
      ensures r == AttrSum(ItemsOf(given), CaloriesOf)
    {
      r := Total(ItemsOf(given), CaloriesOf);
    }

    /** `calculer_d_plus_total` */
    method DPlusTotal(given: Option<seq<ActivityItem>>) returns (r: Outcome<real>)
      ensures r == AttrSum(ItemsOf(given), DPlusOf)
    {
      r := Total(ItemsOf(given), DPlusOf);
    }

    /** `calculer_vitesse_moyenne_globale` */
    method AverageSpeedOf(given: Option<seq<ActivityItem>>) returns (r: Outcome<real>)
      ensures r == AverageSpeed(ItemsOf(given))
    {
      var items := ItemsOf(given);
      if items == [] {
        return Ok(0.0);
      }
      var distance := DistanceTotal(given);
      if distance.Raised? {
        return Raised(distance.error);
      }
      var minutes := DurationTotal(given);
      if minutes.Raised? {
        return Raised(minutes.error);
      }
      if minutes.value == 0.0 {
        return Ok(0.0);
      }
      var hours := minutes.value / 60.0;
      r := if hours > 0.0 then Ok(distance.value / hours) else Ok(0.0);
    }

    /** `__eq__`: another Utilisateur (null stands for any other kind of
        object) with the same id. */
    predicate SameUser(other: User?)
      reads this, other
    {
      other != null && other.id == id
    }

    /** `__hash__` */
    function Hash(): int
    {
      HashInt(id)
    }
  }

  /** Equal users hash alike, and equality is reflexive and symmetric. */
  lemma EqualUsersHashAlike(u: User, v: User)
    ensures u.SameUser(u)
    ensures u.SameUser(v) <==> v.SameUser(u)
    ensures u.SameUser(v) ==> u.Hash() == v.Hash()
    ensures u.SameUser(v) <==> u.id == v.id
  {
  }

  /** The age is the only whole number of years with the birthday of that
      year reached and the next one not. */
  lemma AgeUnique(u: User, today: CalendarDate, n: int)
    requires NotAfter(u.birth.year + n, u.birth.month, u.birth.day, today.year, today.month, today.day)
    requires !NotAfter(u.birth.year + n + 1, u.birth.month, u.birth.day, today.year, today.month, today.day)
    ensures n == u.Age(today)
  {
  }

  /** On the birth date itself the age is 0. */
  lemma AgeAtBirth(u: User)
    ensures u.Age(u.birth) == 0
  {
  }
}
