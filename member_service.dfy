/**
 * Registration with unique emails, and the login lookup that Spring
 * Security calls (`service/MemberService.java`).
 */
module MemberService {
  import opened Common
  import opened Members
  import opened Store

  /** Throws IllegalState ("already registered") when the email is taken. */
  function ValidateDuplicateMember(shop: Shop, member: Member): (r: Outcome)
    reads shop
    requires MemberTableOk(shop.members, shop.nextId)
    ensures r.Fail? <==> shop.Registered(member.email)
    ensures r.Fail? ==> r.error == IllegalState
  {
    if shop.FindByEmail(member.email).value.Some? then Fail(IllegalState) else Pass
  }

  /**
   * Saves a member under the next id unless its email is registered already,
   * in which case nothing is saved. Unique emails are part of `Valid`.
   */
  method SaveMember(shop: Shop, member: Member) returns (r: Result<Member>)
    requires shop.Valid()
    modifies shop
    ensures shop.Valid()
    ensures old(shop.Registered(member.email)) ==>
      r == Err(IllegalState) && shop.Snapshot() == old(shop.Snapshot()) && shop.nextId == old(shop.nextId)
    ensures !old(shop.Registered(member.email)) ==>
      && r == Ok(member.(id := old(shop.nextId)))
      && shop.Snapshot() == old(shop.Snapshot()).(members := old(shop.members)[old(shop.nextId) := r.value])
      && shop.nextId == old(shop.nextId) + 1
    ensures shop.Emails() == old(shop.Emails()) + {member.email}
  {
    var check := ValidateDuplicateMember(shop, member);
    if check.Fail? {
      AddPresent(shop.Emails(), member.email);
      return Err(check.error);
    }
    var saved := member.(id := shop.nextId);
    EmailsOfInsert(shop.members, saved.id, saved);
    InsertMemberOk(shop.Snapshot(), shop.nextId, saved);
    shop.members, shop.nextId := shop.members[saved.id := saved], shop.nextId + 1;
    r := Ok(saved);
  }

  /** Adding an element already present changes nothing. */
  lemma AddPresent<T>(s: set<T>, x: T)
    requires x in s
    ensures s + {x} == s
  {
  }

  /**
   * The login record for `email`: the member's email, encoded password and
   * role; UsernameNotFound carrying the email when nobody registered it.
   */
  function LoadUserByUsername(shop: Shop, email: string): (r: Result<UserDetails>)
    reads shop
    requires MemberTableOk(shop.members, shop.nextId)
    ensures r.Err? <==> !shop.Registered(email)
    ensures r.Err? ==> r.error == UsernameNotFound(email)
    ensures r.Ok? ==>
      exists k :: k in shop.members && shop.members[k].email == email
        && r.value == UserDetails(email, shop.members[k].password, shop.members[k].role)
  {
    match shop.FindByEmail(email).value
    case None => Err(UsernameNotFound(email))
    case Some(member) => Ok(UserDetails(member.email, member.password, member.role))
  }

  /**
   * Registering a list of members one by one: a call succeeds exactly when
   * its email was neither registered before nor earlier on the list, and
   * afterwards the registered emails are the old ones plus the list's.
   * Emails stay unique throughout, as part of `Valid`.
   */
  method SaveMembers(shop: Shop, list: seq<Member>) returns (results: seq<Result<Member>>)
    requires shop.Valid()
    modifies shop
    ensures shop.Valid()
    ensures |results| == |list|
    ensures forall i :: 0 <= i < |list| ==> (results[i].Ok? <==> FirstUse(old(shop.Emails()), list, i))
    ensures shop.Emails() == old(shop.Emails()) + Emails(list)
  {
    ghost var e0 := shop.Emails();
    results := [];
    for i := 0 to |list|
      invariant shop.Valid()
      invariant |results| == i
      invariant forall j :: 0 <= j < i ==> (results[j].Ok? <==> FirstUse(e0, list, j))
      invariant shop.Emails() == e0 + Emails(list[..i])
    {
      var r := SaveNext(shop, list, i, e0);
      results := results + [r];
    }
    assert list[..|list|] == list;
  }

  /** One step of `SaveMembers`: registering `list[i]` after the members before it. */
  method SaveNext(shop: Shop, list: seq<Member>, i: int, ghost e0: set<string>) returns (r: Result<Member>)
    requires 0 <= i < |list|
    requires shop.Valid() && shop.Emails() == e0 + Emails(list[..i])
    modifies shop
    ensures shop.Valid() && shop.Emails() == e0 + Emails(list[..i + 1])
    ensures r.Ok? <==> FirstUse(e0, list, i)
  {
    EmailsStep(list, i);
    UnionStep(e0, Emails(list[..i]), list[i].email);
    r := SaveMember(shop, list[i]);
  }

  /** `list[i]` is the first on the list with its email, which `taken` does not hold. */
  ghost predicate FirstUse(taken: set<string>, list: seq<Member>, i: int)
    requires 0 <= i < |list|
  {
    list[i].email !in taken && NotEarlier(list, i)
  }

  /** Set union is associative. */
  lemma UnionStep<T>(a: set<T>, b: set<T>, x: T)
    ensures (a + b) + {x} == a + (b + {x})
  {
  }

  /** The emails of a list of members. */
  ghost function Emails(list: seq<Member>): set<string> {
    set m | m in list :: m.email
  }

  /** The prefix grows by one email, which was on it before exactly when an earlier member has it. */
  lemma EmailsStep(list: seq<Member>, i: int)
    requires 0 <= i < |list|
    ensures Emails(list[..i + 1]) == Emails(list[..i]) + {list[i].email}
    ensures list[i].email in Emails(list[..i]) <==> !NotEarlier(list, i)
  {
    assert list[..i + 1] == list[..i] + [list[i]];
    if list[i].email in Emails(list[..i]) {
      var m :| m in list[..i] && m.email == list[i].email;
      var j :| 0 <= j < i && list[..i][j] == m;
      assert list[j].email == list[i].email;
    }
    if !NotEarlier(list, i) {
      var j :| 0 <= j < i && list[j].email == list[i].email;
      assert list[..i][j] == list[j];
    }
  }

  /** No member before position `i` has the email of `list[i]`. */
  ghost predicate NotEarlier(list: seq<Member>, i: int)
    requires 0 <= i < |list|
  {
    forall j :: 0 <= j < i ==> list[j].email != list[i].email
  }

  /** Registering the same email twice: the second call is refused. */
  method SaveTwice(shop: Shop, member: Member) returns (first: Result<Member>, second: Result<Member>)
    requires shop.Valid()
    modifies shop
    ensures second == Err(IllegalState)
    ensures !old(shop.Registered(member.email)) ==> first.Ok?
  {
    first := SaveMember(shop, member);
    second := SaveMember(shop, member);
  }
}
