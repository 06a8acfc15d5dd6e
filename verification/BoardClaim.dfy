/** server/src/board-claim.ts: handing an instance over from the built-in local-board admin to a signed-in user.

    A challenge (token and code) is held in memory while local-board is the only admin. A claim that presents it
    rewrites the admin roles and the company memberships in one transaction, then grants defaults company by
    company, then marks the challenge. Transaction and grants may fail. Calls do not overlap. */
module BoardClaim {
  import opened Text

  const LOCAL_BOARD_USER_ID := "local-board"
  const INSTANCE_ADMIN := "instance_admin"
  const CLAIM_TTL_MS: int := 1000 * 60 * 60 * 24

  datatype Role = Role(userId: string, role: string)

  /** The unique key of the membership table. */
  datatype MemberKey = MemberKey(companyId: string, principalType: string, principalId: string)

  datatype Membership = Membership(status: string, membershipRole: Option<string>)

  datatype Challenge = Challenge(token: string, code: string, createdAt: int, expiresAt: int, claimedAt: Option<int>,
                                 claimedByUserId: Option<string>)

  datatype Status = Available | AlreadyClaimed | Expired | Invalid

  /** Everything the two operations read or write. */
  datatype World = World(roles: set<Role>, companies: seq<string>, memberships: map<MemberKey, Membership>,
                         challenge: Option<Challenge>)

  datatype Fault = NoFault | TransactionFails | GrantFails

  /** Threw stands for the exception of a failed transaction or grant. */
  datatype Outcome = Refused(status: Status) | ClaimedBy(userId: string) | Threw

  function ChallengeStatus(challenge: Option<Challenge>, token: string, code: Option<string>, now: int): Status {
    match challenge
    case None => Invalid
    case Some(c) =>
      if c.token != token then Invalid
      else if c.code != (if code.Some? then code.value else "") then Invalid
      else if c.claimedAt.Some? then AlreadyClaimed
      else if c.expiresAt <= now then Expired
      else Available
  }

  function AdminIds(roles: set<Role>): set<string> {
    set r | r in roles && r.role == INSTANCE_ADMIN :: r.userId
  }

  function AdminRole(userId: string): Role {
    Role(userId, INSTANCE_ADMIN)
  }

  function UserKey(companyId: string, userId: string): MemberKey {
    MemberKey(companyId, "user", userId)
  }

  // ---------- what the operations do ----------

  function Initialized(w: World, authenticated: bool, now: int, token: string, code: string): World {
    if !authenticated || AdminIds(w.roles) != {LOCAL_BOARD_USER_ID} then w.(challenge := None)
    else if w.challenge.None? || w.challenge.value.expiresAt <= now || w.challenge.value.claimedAt.Some? then
      w.(challenge := Some(Challenge(token, code, now, now + CLAIM_TTL_MS, None, None)))
    else w
  }

  /** Memberships after the claim's transaction: the claimer is active in every company. A membership that was
      active already keeps its role; one that was missing or inactive becomes an owner's. */
  function Owned(ms: map<MemberKey, Membership>, companies: seq<string>, userId: string): map<MemberKey, Membership> {
    if companies == [] then ms
    else
      var before := Owned(ms, companies[..|companies| - 1], userId);
      var key := UserKey(companies[|companies| - 1], userId);
      if key in before && before[key].status == "active" then before
      else before[key := Membership("active", Some("owner"))]
  }

  function Transacted(w: World, userId: string): World {
    w.(roles := w.roles + {AdminRole(userId)} - {AdminRole(LOCAL_BOARD_USER_ID)},
       memberships := Owned(w.memberships, w.companies, userId))
  }

  function Marked(w: World, userId: string, at: int): World {
    if w.challenge.Some? then
      w.(challenge := Some(w.challenge.value.(claimedAt := Some(at), claimedByUserId := Some(userId))))
    else w
  }

  /** A claim made at `now` whose mark, if it gets that far, is set at `later`. */
  datatype Claim = Claim(token: string, code: Option<string>, userId: string, now: int, later: int, fault: Fault)

  function ClaimOutcome(w: World, c: Claim): Outcome {
    var status := ChallengeStatus(w.challenge, c.token, c.code, c.now);
    if status != Available then Refused(status)
    else if c.fault == NoFault || (c.fault == GrantFails && w.companies == []) then ClaimedBy(c.userId)
    else Threw
  }

  function AfterClaim(w: World, c: Claim): World {
    match ClaimOutcome(w, c)
    case Refused(_) => w
    case ClaimedBy(_) => Marked(Transacted(w, c.userId), c.userId, c.later)
    case Threw => if c.fault == TransactionFails then w else Transacted(w, c.userId)
  }

  class Board {
    var roles: set<Role>
    var companies: seq<string>
    var memberships: map<MemberKey, Membership>
    var activeChallenge: Option<Challenge>

    constructor (w: World)
      ensures Contents() == w
    {
      roles, companies, memberships, activeChallenge := w.roles, w.companies, w.memberships, w.challenge;
    }

    function Contents(): World
      reads this
    {
      World(roles, companies, memberships, activeChallenge)
    }

    /** `initializeBoardClaimChallenge`, with the random token and code it would draw. */
    method Initialize(authenticated: bool, now: int, token: string, code: string)
      modifies this`activeChallenge
      ensures Contents() == Initialized(old(Contents()), authenticated, now, token, code)
    {
      if !authenticated {
        activeChallenge := None;
        return;
      }
      var onlyLocalBoardAdmin := AdminIds(roles) == {LOCAL_BOARD_USER_ID};
      if !onlyLocalBoardAdmin {
        activeChallenge := None;
        return;
      }
      if activeChallenge.None? || activeChallenge.value.expiresAt <= now || activeChallenge.value.claimedAt.Some? {
        activeChallenge := Some(Challenge(token, code, now, now + CLAIM_TTL_MS, None, None));
      }
    }

    /** `claimBoardOwnership`. A failed transaction restores the tables; a failed grant does not. */
    method ClaimBoardOwnership(c: Claim) returns (outcome: Outcome)
      modifies this
      ensures outcome == ClaimOutcome(old(Contents()), c)
      ensures Contents() == AfterClaim(old(Contents()), c)
    {
      var status := ChallengeStatus(activeChallenge, c.token, c.code, c.now);
      if status != Available {
        return Refused(status);
      }
      var snapshot := (roles, memberships);
      if AdminRole(c.userId) !in roles {
        roles := roles + {AdminRole(c.userId)};
      }
      roles := roles - {AdminRole(LOCAL_BOARD_USER_ID)};
      assert roles == old(roles) + {AdminRole(c.userId)} - {AdminRole(LOCAL_BOARD_USER_ID)};
      var claimedCompanyIds := [];
      for k := 0 to |companies|
        invariant companies == old(companies) && activeChallenge == old(activeChallenge)
        invariant claimedCompanyIds == companies[..k]
        invariant memberships == Owned(old(memberships), companies[..k], c.userId)
        invariant roles == old(roles) + {AdminRole(c.userId)} - {AdminRole(LOCAL_BOARD_USER_ID)}
      {
        assert companies[..k + 1][..k] == companies[..k];
        claimedCompanyIds := claimedCompanyIds + [companies[k]];
        var key := UserKey(companies[k], c.userId);
        if key !in memberships {
          memberships := memberships[key := Membership("active", Some("owner"))];
          continue;
        }
        if memberships[key].status != "active" {
          memberships := memberships[key := Membership("active", Some("owner"))];
        }
      }
      assert companies[..|companies|] == companies;
      if c.fault == TransactionFails {
        roles, memberships := snapshot.0, snapshot.1;
        return Threw;
      }
      if claimedCompanyIds != [] && c.fault == GrantFails {
        return Threw;
      }
      if activeChallenge.Some? && activeChallenge.value.token == c.token {
        activeChallenge := Some(activeChallenge.value.(claimedAt := Some(c.later), claimedByUserId := Some(c.userId)));
      }
      return ClaimedBy(c.userId);
    }
  }

  // ---------- one claim ----------

  lemma {:induction false} OwnedAt(ms: map<MemberKey, Membership>, companies: seq<string>, userId: string,
                                   key: MemberKey)
    ensures var after := Owned(ms, companies, userId);
            var due := key.principalType == "user" && key.principalId == userId && key.companyId in companies;
            var wasActive := key in ms && ms[key].status == "active";
            if due && !wasActive then key in after && after[key] == Membership("active", Some("owner"))
            else (key in after <==> key in ms) && (key in ms ==> after[key] == ms[key])
  {
    if companies != [] {
      var n := |companies| - 1;
      OwnedAt(ms, companies[..n], userId, key);
      assert companies == companies[..n] + [companies[n]];
      assert key == UserKey(companies[n], userId) <==>
             key.principalType == "user" && key.principalId == userId && key.companyId == companies[n];
      OwnedAt(ms, companies[..n], userId, UserKey(companies[n], userId));
    }
  }

  lemma TransactedAdmins(w: World, userId: string)
    ensures AdminIds(Transacted(w, userId).roles) == AdminIds(w.roles) + {userId} - {LOCAL_BOARD_USER_ID}
  {
    var after := Transacted(w, userId).roles;
    forall u
      ensures u in AdminIds(after) <==> (u in AdminIds(w.roles) || u == userId) && u != LOCAL_BOARD_USER_ID
    {
      assert u in AdminIds(after) <==> AdminRole(u) in after;
      assert u in AdminIds(w.roles) <==> AdminRole(u) in w.roles;
    }
  }

  /** A claim that commits leaves an instance admin exactly unless local-board claims with no other admin there. */
  lemma ClaimKeepsAnAdmin(w: World, userId: string)
    ensures AdminIds(Transacted(w, userId).roles) != {} <==>
            userId != LOCAL_BOARD_USER_ID || AdminIds(w.roles) - {LOCAL_BOARD_USER_ID} != {}
  {
    TransactedAdmins(w, userId);
    if userId != LOCAL_BOARD_USER_ID {
      assert userId in AdminIds(Transacted(w, userId).roles);
    }
  }

  /** The claimer ends up admin instead of local-board and active everywhere; nobody else's membership changes. */
  lemma ClaimHandsOver(w: World, userId: string, key: MemberKey, companyId: string)
    ensures var after := Transacted(w, userId);
            && LOCAL_BOARD_USER_ID !in AdminIds(after.roles)
            && (userId != LOCAL_BOARD_USER_ID ==> userId in AdminIds(after.roles))
            && (companyId in w.companies ==>
                  UserKey(companyId, userId) in after.memberships
                  && after.memberships[UserKey(companyId, userId)].status == "active")
            && (key.principalType != "user" || key.principalId != userId ==>
                  (key in after.memberships <==> key in w.memberships)
                  && (key in w.memberships ==> after.memberships[key] == w.memberships[key]))
  {
    TransactedAdmins(w, userId);
    OwnedAt(w.memberships, w.companies, userId, UserKey(companyId, userId));
    OwnedAt(w.memberships, w.companies, userId, key);
  }

  /** After a failed grant the tables are handed over but the challenge is still open; claiming again by the same
      user changes no table any more and closes it. */
  lemma FailedGrantCanBeRetried(w: World, c: Claim, retry: Claim)
    requires ClaimOutcome(w, c) == Threw && c.fault == GrantFails
    requires retry.token == c.token && retry.code == c.code && retry.userId == c.userId && retry.fault == NoFault
    requires retry.now < w.challenge.value.expiresAt
    ensures var half := AfterClaim(w, c);
            && half == Transacted(w, c.userId) && half.challenge == w.challenge
            && ClaimOutcome(half, retry) == ClaimedBy(c.userId)
            && AfterClaim(half, retry) == Marked(half, c.userId, retry.later)
  {
    var half := Transacted(w, c.userId);
    var again := Transacted(half, c.userId);
    assert again.roles == half.roles;
    forall key
      ensures (key in again.memberships <==> key in half.memberships)
              && (key in half.memberships ==> again.memberships[key] == half.memberships[key])
    {
      OwnedAt(w.memberships, w.companies, c.userId, key);
      OwnedAt(half.memberships, w.companies, c.userId, key);
    }
    assert again.memberships == half.memberships;
  }

  // ---------- whole runs ----------

  datatype Op =
    | Init(authenticated: bool, now: int, token: string, code: string)
    | DoClaim(claim: Claim)
    | AddCompany(companyId: string)

  function Apply(w: World, op: Op): World {
    match op
    case Init(authenticated, now, token, code) => Initialized(w, authenticated, now, token, code)
    case DoClaim(c) => AfterClaim(w, c)
    case AddCompany(id) => w.(companies := w.companies + [id])
  }

  function Run(w: World, ops: seq<Op>): World {
    if ops == [] then w else Apply(Run(w, ops[..|ops| - 1]), ops[|ops| - 1])
  }

  predicate BySignedInUsers(ops: seq<Op>) {
    forall k :: 0 <= k < |ops| && ops[k].DoClaim? ==> ops[k].claim.userId != LOCAL_BOARD_USER_ID
  }

  /** However claims succeed, fail or are refused, an instance that has an admin keeps one. */
  lemma {:induction false} RunKeepsAnAdmin(w: World, ops: seq<Op>)
    requires AdminIds(w.roles) != {} && BySignedInUsers(ops)
    ensures AdminIds(Run(w, ops).roles) != {}
  {
    if ops != [] {
      var n := |ops| - 1;
      RunKeepsAnAdmin(w, ops[..n]);
      if ops[n].DoClaim? {
        ClaimKeepsAnAdmin(Run(w, ops[..n]), ops[n].claim.userId);
      }
    }
  }

  /** None of these claims is by this user. */
  predicate NeverClaims(ops: seq<Op>, userId: string) {
    forall k :: 0 <= k < |ops| && ops[k].DoClaim? ==> ops[k].claim.userId != userId
  }

  lemma ClaimKeepsMembership(w: World, c: Claim, key: MemberKey)
    requires key.principalType != "user" || c.userId != key.principalId
    ensures key in AfterClaim(w, c).memberships <==> key in w.memberships
    ensures key in w.memberships ==> AfterClaim(w, c).memberships[key] == w.memberships[key]
  {
    OwnedAt(w.memberships, w.companies, c.userId, key);
    hide Owned;
  }

  /** Over any run, whatever else happens in it, the memberships of users who never claim, and of principals that are
      no users, stay as they were. */
  lemma {:induction false} RunKeepsMemberships(w: World, ops: seq<Op>, key: MemberKey)
    requires key.principalType != "user" || NeverClaims(ops, key.principalId)
    ensures var after := Run(w, ops);
            (key in after.memberships <==> key in w.memberships)
            && (key in w.memberships ==> after.memberships[key] == w.memberships[key])
  {
    hide AfterClaim;
    if ops != [] {
      var n := |ops| - 1;
      RunKeepsMemberships(w, ops[..n], key);
      if ops[n].DoClaim? {
        ClaimKeepsMembership(Run(w, ops[..n]), ops[n].claim, key);
      }
    }
  }

  lemma ClaimKeepsRole(w: World, c: Claim, role: Role)
    requires role.role != INSTANCE_ADMIN || (role.userId != c.userId && role.userId != LOCAL_BOARD_USER_ID)
    ensures role in AfterClaim(w, c).roles <==> role in w.roles
  {
    hide Owned, ChallengeStatus;
  }

  /** Nor does anybody else's role change: only local-board can lose the admin role, and only a claimer can gain it. */
  lemma {:induction false} RunKeepsRoles(w: World, ops: seq<Op>, role: Role)
    requires role.role == INSTANCE_ADMIN ==> NeverClaims(ops, role.userId) && role.userId != LOCAL_BOARD_USER_ID
    ensures role in Run(w, ops).roles <==> role in w.roles
  {
    hide AfterClaim;
    if ops != [] {
      var n := |ops| - 1;
      RunKeepsRoles(w, ops[..n], role);
      if ops[n].DoClaim? {
        ClaimKeepsRole(Run(w, ops[..n]), ops[n].claim, role);
      }
    }
  }

  /** Somebody other than local-board owns the instance and no challenge is open. */
  predicate Settled(w: World) {
    && LOCAL_BOARD_USER_ID !in AdminIds(w.roles)
    && (w.challenge.Some? ==> w.challenge.value.claimedAt.Some?)
  }

  lemma SuccessSettles(w: World, c: Claim)
    requires ClaimOutcome(w, c).ClaimedBy?
    ensures Settled(AfterClaim(w, c))
    ensures forall now :: ChallengeStatus(AfterClaim(w, c).challenge, c.token, c.code, now) == AlreadyClaimed
  {
    TransactedAdmins(w, c.userId);
  }

  predicate HasInit(ops: seq<Op>) {
    exists op :: op in ops && op.Init?
  }

  /** In a settled world no run opens anything: the tables stay, and the challenge stays until the first start-up,
      which withdraws it for good. */
  lemma {:induction false} SettledForever(w: World, ops: seq<Op>)
    requires Settled(w)
    ensures var after := Run(w, ops);
            && Settled(after) && after.roles == w.roles && after.memberships == w.memberships
            && after.challenge == (if HasInit(ops) then None else w.challenge)
  {
    if ops != [] {
      var front, last := ops[..|ops| - 1], ops[|ops| - 1];
      SettledForever(w, front);
      assert forall op :: op in ops <==> op in front || op == last;
    }
  }

  /** After one successful claim no token is ever available again, whatever happens later: every later claim is
      refused, roles and memberships stay as the claim left them, and the token used answers "already claimed" at
      any time until the next start-up, and "invalid" from then on. */
  lemma ClaimedForever(w: World, c: Claim, ops: seq<Op>)
    requires ClaimOutcome(w, c).ClaimedBy?
    ensures var claimed, after := AfterClaim(w, c), Run(AfterClaim(w, c), ops);
            && after.roles == claimed.roles && after.memberships == claimed.memberships
            && (forall token, code, now :: ChallengeStatus(after.challenge, token, code, now) != Available)
            && (forall later :: ClaimOutcome(after, later).Refused?)
            && forall now :: ChallengeStatus(after.challenge, c.token, c.code, now)
                             == if HasInit(ops) then Invalid else AlreadyClaimed
  {
    SuccessSettles(w, c);
    SettledForever(AfterClaim(w, c), ops);
  }

  /** A freshly opened challenge is available to the holder of token and code for exactly a day. */
  lemma ChallengeLifetime(w: World, authenticated: bool, now: int, token: string, code: string, at: int)
    requires w.challenge.None?
    ensures ChallengeStatus(Initialized(w, authenticated, now, token, code).challenge, token, Some(code), at)
            == Available
            <==> authenticated && AdminIds(w.roles) == {LOCAL_BOARD_USER_ID} && at < now + CLAIM_TTL_MS
  {
  }
}
