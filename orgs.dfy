/** Organisations (backend/routes/org.js): join-code generation, creation,
    joining with code and password, the "created" and "joined" lists, viewing
    and deleting. The table is a map from id to record; `bcrypt.compare` is the
    function parameter `matches`, and the draws of `Math.random` are a
    parameter too. */
module Orgs {
  import opened Common

  type OrgId = string

  /** An organisation record; `password` holds the bcrypt hash. Membership is
      the `memberIds` list: the owner is not in it unless they joined. */
  datatype Organisation = Organisation(
    id: OrgId, name: string, password: string, joinCode: string, ownerId: UserId, memberIds: seq<UserId>)

  /** A join code: four decimal digits, the first not zero. */
  predicate IsJoinCode(c: string) {
    |c| == 4 && AllDigits(c) && c[0] != '0'
  }

  /** The code for one draw: `Math.floor(1000 + Math.random() * 9000)` is
      1000 plus `draw`, where `draw` is the integer part of
      `Math.random() * 9000`, in [0, 8999]. */
  function CodeOfDraw(draw: nat): (code: string)
    requires draw < 9000
    ensures IsJoinCode(code)
    ensures ParseDecimal(code) == 1000 + draw
  {
    assert Pow10(3) == 1000 && Pow10(4) == 10000;
    DecimalStringLength(1000 + draw, 4);
    ParseDecimalString(1000 + draw);
    DecimalString(1000 + draw)
  }

  /** Different draws give different codes, so the 9000 draws give 9000
      distinct codes. */
  lemma CodeOfDrawInjective(d1: nat, d2: nat)
    requires d1 < 9000 && d2 < 9000 && CodeOfDraw(d1) == CodeOfDraw(d2)
    ensures d1 == d2
  {
  }

  predicate NoDuplicates(s: seq<UserId>) {
    forall i, j :: 0 <= i < j < |s| ==> s[i] != s[j]
  }

  predicate CanView(org: Organisation, userId: UserId) {
    org.ownerId == userId || userId in org.memberIds
  }

  const OrgNotFound := "Organization not found"
  const InvalidPassword := "Invalid password"
  const AlreadyMember := "Already a member"
  const AccessDenied := "Access denied"
  const OnlyOwnerCanDelete := "Only owner can delete organization"
  const OrgDeleted := "Organization deleted"

  /** The checks of the join route once the organisation is found, in the
      route's order: the password first, then existing membership; on success
      the user is appended to `memberIds`. */
  function JoinChecks(org: Organisation, password: string, userId: UserId, matches: (string, string) -> bool)
    : (r: Result<Organisation>)
    ensures !matches(password, org.password) ==> r == Err(Unauthorized, InvalidPassword)
    ensures matches(password, org.password) && userId in org.memberIds ==> r == Err(BadRequest, AlreadyMember)
    ensures r.Ok? <==> matches(password, org.password) && userId !in org.memberIds
    ensures r.Ok? ==> (r.value.memberIds == org.memberIds + [userId] &&
                       r.value == org.(memberIds := r.value.memberIds))
  {
    if !matches(password, org.password) then Err(Unauthorized, InvalidPassword)
    else if userId in org.memberIds then Err(BadRequest, AlreadyMember)
    else Ok(org.(memberIds := org.memberIds + [userId]))
  }

  /** A successful join never creates a duplicate member, makes the user a
      viewer, and keeps everyone who could view the organisation before. */
  lemma JoinKeepsMembersDistinct(org: Organisation, password: string, userId: UserId, matches: (string, string) -> bool)
    requires NoDuplicates(org.memberIds)
    requires JoinChecks(org, password, userId, matches).Ok?
    ensures var joined := JoinChecks(org, password, userId, matches).value;
            NoDuplicates(joined.memberIds) && CanView(joined, userId) &&
            forall u :: CanView(org, u) ==> CanView(joined, u)
  {
    var joined := JoinChecks(org, password, userId, matches).value;
    forall i, j | 0 <= i < j < |joined.memberIds| ensures joined.memberIds[i] != joined.memberIds[j] {
      if j == |org.memberIds| {
        assert joined.memberIds[i] in org.memberIds;
      }
    }
  }

  /** Joining a second time with the same password is refused as "already a
      member". */
  lemma JoinTwiceRefused(org: Organisation, password: string, userId: UserId, matches: (string, string) -> bool)
    requires JoinChecks(org, password, userId, matches).Ok?
    ensures var joined := JoinChecks(org, password, userId, matches).value;
            JoinChecks(joined, password, userId, matches) == Err(BadRequest, AlreadyMember)
  {
    var joined := JoinChecks(org, password, userId, matches).value;
    assert joined.memberIds[|joined.memberIds| - 1] == userId;
  }

  class OrgStore {
    var orgs: map<OrgId, Organisation>

    /** Every record is stored under its own id and holds a well-formed join
        code and a duplicate-free member list; no two organisations share a
        join code. */
    ghost predicate Valid()
      reads this
    {
      && (forall id | id in orgs :: orgs[id].id == id && IsJoinCode(orgs[id].joinCode) && NoDuplicates(orgs[id].memberIds))
      && (forall i, j | i in orgs && j in orgs && orgs[i].joinCode == orgs[j].joinCode :: i == j)
    }

    /** `prisma.organisation.findUnique({ where: { joinCode: code } })` finds a
        record. */
    predicate CodeInUse(code: string)
      reads this
    {
      exists id | id in orgs :: orgs[id].joinCode == code
    }

    constructor ()
      ensures Valid() && orgs == map[]
    {
      orgs := map[];
    }

    /** `generateJoinCode`: draw codes until one is not in use. The draws are
        the successive values of `Math.random`; the route loops for as long as
        it takes, so the model requires that some draw yields a free code. */
    method GenerateJoinCode(draws: seq<nat>) returns (code: string)
      requires forall k :: 0 <= k < |draws| ==> draws[k] < 9000
      requires exists k :: 0 <= k < |draws| && !CodeInUse(CodeOfDraw(draws[k]))
      ensures IsJoinCode(code) && !CodeInUse(code)
      ensures exists k :: 0 <= k < |draws| && code == CodeOfDraw(draws[k]) &&
                          forall t :: 0 <= t < k ==> CodeInUse(CodeOfDraw(draws[t]))
    {
      var taken := true;
      var i := 0;
      code := "";
      while taken
        invariant 0 <= i <= |draws|
        invariant forall t :: 0 <= t < i ==> Taken(draws[t]) || (t == i - 1 && !taken)
        invariant !taken ==> i > 0 && code == CodeOfDraw(draws[i - 1]) && !Taken(draws[i - 1])
        decreases |draws| - i
      {
        if i == |draws| {
          assert false;
        }
        code := CodeOfDraw(draws[i]);
        taken := CodeInUse(code);
        i := i + 1;
      }
      assert forall t :: 0 <= t < i - 1 ==> CodeInUse(CodeOfDraw(draws[t]));
    }

    /** The draw gives a code some organisation already holds. */
    predicate Taken(draw: nat)
      requires draw < 9000
      reads this
    {
      CodeInUse(CodeOfDraw(draw))
    }

    /** The create route: the caller becomes the owner, the member list starts
        empty, and the join code is one no other organisation holds. */
    method Create(name: string, hashedPassword: string, ownerId: UserId, freshId: OrgId, draws: seq<nat>)
      returns (org: Organisation)
      requires Valid() && freshId !in orgs
      requires forall k :: 0 <= k < |draws| ==> draws[k] < 9000
      requires exists k :: 0 <= k < |draws| && !CodeInUse(CodeOfDraw(draws[k]))
      modifies this
      ensures Valid()
      ensures org.id == freshId && org.name == name && org.password == hashedPassword
      ensures org.ownerId == ownerId && org.memberIds == []
      ensures IsJoinCode(org.joinCode) && !old(CodeInUse(org.joinCode))
      ensures exists k :: 0 <= k < |draws| && org.joinCode == CodeOfDraw(draws[k]) &&
                          forall t :: 0 <= t < k ==> old(CodeInUse(CodeOfDraw(draws[t])))
      ensures orgs == old(orgs)[freshId := org]
    {
      var joinCode := GenerateJoinCode(draws);
      org := Organisation(freshId, name, hashedPassword, joinCode, ownerId, []);
      orgs := orgs[freshId := org];
    }

    /** The record with the given join code, if any. */
    method FindByJoinCode(code: string) returns (r: Option<OrgId>)
      ensures r.None? <==> !CodeInUse(code)
      ensures r.Some? ==> r.value in orgs && orgs[r.value].joinCode == code
    {
      if exists id | id in orgs :: orgs[id].joinCode == code {
        var id :| id in orgs && orgs[id].joinCode == code;
        r := Some(id);
      } else {
        r := None;
      }
    }

    /** The join route: 404 for an unknown code, then the checks of
        `JoinChecks`; only a successful join changes the table, and only the
        member list of the joined organisation. */
    method Join(code: string, password: string, userId: UserId, matches: (string, string) -> bool)
      returns (r: Result<Organisation>)
      requires Valid()
      modifies this
      ensures Valid()
      ensures !old(CodeInUse(code)) ==> r == Err(NotFound, OrgNotFound) && orgs == old(orgs)
      ensures old(CodeInUse(code)) ==>
        exists id :: id in old(orgs) && old(orgs)[id].joinCode == code &&
          r == JoinChecks(old(orgs)[id], password, userId, matches) &&
          orgs == if r.Ok? then old(orgs)[id := r.value] else old(orgs)
    {
      var found := FindByJoinCode(code);
      if found.None? {
        return Err(NotFound, OrgNotFound);
      }
      var id := found.value;
      r := JoinChecks(orgs[id], password, userId, matches);
      if r.Ok? {
        JoinKeepsMembersDistinct(orgs[id], password, userId, matches);
        orgs := orgs[id := r.value];
      }
    }

    /** The "created" list: the organisations the user owns. */
    function Created(userId: UserId): (ids: set<OrgId>)
      reads this
      ensures forall id :: id in ids <==> id in orgs && orgs[id].ownerId == userId
    {
      set id | id in orgs && orgs[id].ownerId == userId
    }

    /** The "joined" list: the organisations whose member list holds the user. */
    function Joined(userId: UserId): (ids: set<OrgId>)
      reads this
      ensures forall id :: id in ids <==> id in orgs && userId in orgs[id].memberIds
    {
      set id | id in orgs && userId in orgs[id].memberIds
    }

    /** The get-by-id route: 404 for an unknown id, 403 for a caller who is
        neither the owner nor a member. */
    function GetById(id: OrgId, caller: UserId): (r: Result<Organisation>)
      reads this
      ensures id !in orgs ==> r == Err(NotFound, OrgNotFound)
      ensures id in orgs && !CanView(orgs[id], caller) ==> r == Err(Forbidden, AccessDenied)
      ensures r.Ok? ==> id in orgs && r.value == orgs[id]
    {
      if id !in orgs then Err(NotFound, OrgNotFound)
      else if orgs[id].ownerId != caller && caller !in orgs[id].memberIds then Err(Forbidden, AccessDenied)
      else Ok(orgs[id])
    }

    /** A user may view exactly the organisations on their "created" and
        "joined" lists. */
    lemma ViewableIffListed(id: OrgId, caller: UserId)
      ensures GetById(id, caller).Ok? <==> id in Created(caller) + Joined(caller)
    {
    }

    /** Existence and ownership, in that order: the guard of the delete route
        and of the create-test route. */
    function OwnerCheck(id: OrgId, caller: UserId, forbidden: string): (r: Result<Organisation>)
      reads this
      ensures id !in orgs ==> r == Err(NotFound, OrgNotFound)
      ensures id in orgs && orgs[id].ownerId != caller ==> r == Err(Forbidden, forbidden)
      ensures r.Ok? <==> id in Created(caller)
      ensures r.Ok? ==> r.value == orgs[id]
    {
      if id !in orgs then Err(NotFound, OrgNotFound)
      else if orgs[id].ownerId != caller then Err(Forbidden, forbidden)
      else Ok(orgs[id])
    }

    /** Whoever passes the owner check may also view the organisation. */
    lemma OwnerMayView(id: OrgId, caller: UserId, forbidden: string)
      requires OwnerCheck(id, caller, forbidden).Ok?
      ensures GetById(id, caller) == OwnerCheck(id, caller, forbidden)
    {
    }

    /** The delete route: only the owner removes the record; no other record
        changes. */
    method Delete(id: OrgId, caller: UserId) returns (r: Result<string>)
      requires Valid()
      modifies this
      ensures Valid()
      ensures r.Err? ==> (orgs == old(orgs) &&
        old(OwnerCheck(id, caller, OnlyOwnerCanDelete)) == Err(r.status, r.message))
      ensures r.Ok? <==> old(OwnerCheck(id, caller, OnlyOwnerCanDelete)).Ok?
      ensures r.Ok? ==> r.value == OrgDeleted && orgs == old(orgs) - {id}
    {
      var check := OwnerCheck(id, caller, OnlyOwnerCanDelete);
      if check.Err? {
        return Err(check.status, check.message);
      }
      orgs := orgs - {id};
      r := Ok(OrgDeleted);
    }
  }
}
