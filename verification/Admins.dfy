/** The tenant-lock protocol that keeps at least one administrator. Roles are read without a lock; the tenant
    row is locked, and administrators counted, only when the role read was ADMIN. */
module Admins {
  import opened Prelude
  import opened Model

  datatype Role = Admin | Salesperson | Viewer

  /** role is None when the PATCH does not set it. */
  datatype Request = Update(user: Id, role: Option<Role>) | Delete(user: Id)

  /** An open transaction: what it was asked, the role it read, and whether it has counted. */
  datatype Txn = Txn(req: Request, seen: Role, counted: bool)

  type TxnId = nat

  /** used holds every identifier ever given out. */
  datatype Team = Team(users: map<Id, Role>, used: set<Id>, lock: Option<TxnId>, open: map<TxnId, Txn>)

  datatype Label =
    | Begin(t: TxnId, req: Request, actor: Id)
    | LockTenant(t: TxnId)
    | Count(t: TxnId)
    | Commit(t: TxnId)
    | Abort(t: TxnId)
    | Accept(user: Id, role: Role)

  function AdminsOf(users: map<Id, Role>): set<Id>
  {
    set u | u in users && users[u].Admin?
  }

  /** The request takes the ADMIN role away from its user, if the user has it. */
  predicate Removing(req: Request)
  {
    req.Delete? || (req.role.Some? && !req.role.value.Admin?)
  }

  predicate NeedsLock(x: Txn)
  {
    Removing(x.req) && x.seen.Admin?
  }

  /** A PATCH writes the role only if it differs from the one read. */
  predicate SetsRole(x: Txn)
  {
    x.req.Update? && x.req.role.Some? && x.req.role.value != x.seen
  }

  function Written(users: map<Id, Role>, x: Txn): map<Id, Role>
  {
    if x.req.Delete? then users - {x.req.user}
    else if SetsRole(x) && x.req.user in users then users[x.req.user := x.req.role.value]
    else users
  }

  function Released(s: Team, t: TxnId): Option<TxnId>
  {
    if s.lock == Some(t) then None else s.lock
  }

  predicate Enabled(s: Team, l: Label)
  {
    match l
    case Begin(t, req, actor) => t !in s.open && req.user in s.users && (req.Delete? ==> req.user != actor)
    case LockTenant(t) => t in s.open && NeedsLock(s.open[t]) && s.lock.None?
    case Count(t) => t in s.open && s.lock == Some(t) && 2 <= |AdminsOf(s.users)|
    case Commit(t) =>
      && t in s.open && (NeedsLock(s.open[t]) ==> s.open[t].counted)
      && (SetsRole(s.open[t]) ==> s.open[t].req.user in s.users)
    case Abort(t) => t in s.open
    case Accept(u, _) => u !in s.used
  }

  function Do(s: Team, l: Label): Team
    requires Enabled(s, l)
  {
    match l
    case Begin(t, req, _) => s.(open := s.open[t := Txn(req, s.users[req.user], false)])
    case LockTenant(t) => s.(lock := Some(t))
    case Count(t) => s.(open := s.open[t := s.open[t].(counted := true)])
    case Commit(t) => s.(users := Written(s.users, s.open[t]), lock := Released(s, t), open := s.open - {t})
    case Abort(t) => s.(lock := Released(s, t), open := s.open - {t})
    case Accept(u, role) => s.(users := s.users[u := role], used := s.used + {u})
  }

  ghost predicate Run(s: Team, ls: seq<Label>)
    decreases |ls|
  {
    ls == [] || (Enabled(s, ls[0]) && Run(Do(s, ls[0]), ls[1..]))
  }

  ghost function Last(s: Team, ls: seq<Label>): Team
    requires Run(s, ls)
    decreases |ls|
  {
    if ls == [] then s else Last(Do(s, ls[0]), ls[1..])
  }

  lemma RunStep(s: Team, l: Label, ls: seq<Label>)
    requires Enabled(s, l) && Run(Do(s, l), ls)
    ensures Run(s, [l] + ls) && Last(s, [l] + ls) == Last(Do(s, l), ls)
  {
    assert ([l] + ls)[1..] == ls;
  }

  // ---- The race ----

  /** t is open, read a role other than ADMIN, and on its commit takes that role away from u or deletes u. */
  predicate RemovesUnlocked(s: Team, t: TxnId, u: Id)
  {
    t in s.open && s.open[t].req.user == u && !s.open[t].seen.Admin?
    && (s.open[t].req.Delete? || (SetsRole(s.open[t]) && !s.open[t].req.role.value.Admin?))
  }

  predicate Promotes(s: Team, l: Label, u: Id)
  {
    l.Commit? && l.t in s.open && SetsRole(s.open[l.t]) && s.open[l.t].req.role.value.Admin?
    && s.open[l.t].req.user == u
  }

  /** The step does not make an administrator of a user whom an open transaction removes without the lock. */
  ghost predicate NoRace(s: Team, l: Label)
  {
    forall t, u :: Promotes(s, l, u) && RemovesUnlocked(s, t, u) ==> l == Commit(t)
  }

  ghost predicate RaceFree(s: Team, ls: seq<Label>)
    requires Run(s, ls)
    decreases |ls|
  {
    ls == [] || (NoRace(s, ls[0]) && RaceFree(Do(s, ls[0]), ls[1..]))
  }

  // ---- The invariant ----

  /** Identifiers are not reused, and only the lock holder has counted, while at least two remain. */
  predicate Disciplined(s: Team)
  {
    && s.users.Keys <= s.used
    && (forall t :: t in s.open ==> s.open[t].req.user in s.used)
    && (forall t :: t in s.open && s.open[t].counted ==> s.lock == Some(t) && 2 <= |AdminsOf(s.users)|)
    && (s.lock.Some? ==> s.lock.value in s.open && NeedsLock(s.open[s.lock.value]))
  }

  ghost predicate NoStaleRemoval(s: Team)
  {
    forall t, u :: u in AdminsOf(s.users) ==> !RemovesUnlocked(s, t, u)
  }

  ghost predicate Kept(s: Team)
  {
    Disciplined(s) && NoStaleRemoval(s) && 1 <= |AdminsOf(s.users)|
  }

  /** One write takes at most its own user out of the administrators. */
  lemma WriteRemovesOne(users: map<Id, Role>, x: Txn)
    ensures AdminsOf(users) - {x.req.user} <= AdminsOf(Written(users, x))
    ensures x.req.user !in AdminsOf(users) || (x.req.Update? && !(SetsRole(x) && !x.req.role.value.Admin?))
      ==> AdminsOf(users) <= AdminsOf(Written(users, x))
  {
  }

  lemma AtLeast(a: set<Id>, b: set<Id>, u: Id)
    requires a - {u} <= b
    ensures |a| - 1 <= |b|
    ensures a <= b ==> |a| <= |b|
  {
    Subset(a - {u}, b);
    if a <= b {
      Subset(a, b);
    }
  }

  lemma {:induction false} Subset(a: set<Id>, b: set<Id>)
    requires a <= b
    ensures |a| <= |b|
  {
    if u :| u in a {
      Subset(a - {u}, b - {u});
    }
  }

  lemma CommitKeeps(s: Team, t: TxnId)
    requires Kept(s) && Enabled(s, Commit(t)) && NoRace(s, Commit(t))
    ensures Kept(Do(s, Commit(t)))
  {
    var x, after := s.open[t], Do(s, Commit(t));
    WriteRemovesOne(s.users, x);
    AtLeast(AdminsOf(s.users), AdminsOf(after.users), x.req.user);
    assert !RemovesUnlocked(s, t, x.req.user) || x.req.user !in AdminsOf(s.users);
    forall v, u | u in AdminsOf(after.users) ensures !RemovesUnlocked(after, v, u) {
      if RemovesUnlocked(after, v, u) {
        assert RemovesUnlocked(s, v, u);
        assert Promotes(s, Commit(t), u);
      }
    }
  }

  lemma StepKeeps(s: Team, l: Label)
    requires Kept(s) && Enabled(s, l) && NoRace(s, l)
    ensures Kept(Do(s, l))
  {
    var after := Do(s, l);
    if l.Commit? {
      CommitKeeps(s, l.t);
    } else {
      if l.Accept? {
        assert AdminsOf(s.users) <= AdminsOf(after.users);
        Subset(AdminsOf(s.users), AdminsOf(after.users));
      }
      forall v, u | u in AdminsOf(after.users) ensures !RemovesUnlocked(after, v, u) {
        assert RemovesUnlocked(after, v, u) ==> RemovesUnlocked(s, v, u) || u !in AdminsOf(s.users);
      }
    }
  }

  /** Last administrator: every interleaving of demotions, deletions, promotions, invitations and aborts in
      which no promotion lands on a user being removed without the lock leaves at least one. */
  lemma {:induction false} AdminRemains(s: Team, ls: seq<Label>)
    requires Kept(s) && Run(s, ls) && RaceFree(s, ls)
    ensures Kept(Last(s, ls))
    decreases |ls|
  {
    if ls != [] {
      StepKeeps(s, ls[0]);
      AdminRemains(Do(s, ls[0]), ls[1..]);
    }
  }

  // ---- No promotions, no race ----

  predicate AsksPromotion(req: Request)
  {
    req.Update? && req.role == Some(Admin)
  }

  predicate NoPromotionOpen(s: Team)
  {
    forall t :: t in s.open ==> !AsksPromotion(s.open[t].req)
  }

  predicate NoPromotionBegins(ls: seq<Label>)
  {
    forall i :: 0 <= i < |ls| && ls[i].Begin? ==> !AsksPromotion(ls[i].req)
  }

  /** Without promotions of existing users there is nothing to race with. */
  lemma {:induction false} NoPromotionNoRace(s: Team, ls: seq<Label>)
    requires Run(s, ls) && NoPromotionOpen(s) && NoPromotionBegins(ls)
    ensures RaceFree(s, ls)
    decreases |ls|
  {
    if ls != [] {
      NoPromotionNoRace(Do(s, ls[0]), ls[1..]);
    }
  }

  // ---- The race is the only way out ----

  /** Some run without any further race ends with no administrator. */
  ghost predicate Strandable(s: Team)
  {
    exists ls :: Run(s, ls) && RaceFree(s, ls) && AdminsOf(Last(s, ls).users) == {}
  }

  lemma StrandStep(s: Team, l: Label)
    requires Enabled(s, l) && NoRace(s, l) && Strandable(Do(s, l))
    ensures Strandable(s)
  {
    var ls :| Run(Do(s, l), ls) && RaceFree(Do(s, l), ls) && AdminsOf(Last(Do(s, l), ls).users) == {};
    RunStep(s, l, ls);
    assert ([l] + ls)[1..] == ls;
    assert RaceFree(s, [l] + ls);
  }

  lemma AlreadyStranded(s: Team)
    requires AdminsOf(s.users) == {}
    ensures Strandable(s)
  {
    assert Run(s, []) && RaceFree(s, []);
  }

  /** While another administrator is left, a is demoted with the lock and the count in order. */
  lemma DemoteThenStrand(s: Team, a: Id, f: TxnId)
    requires s.lock.None? && f !in s.open && a in AdminsOf(s.users) && 2 <= |AdminsOf(s.users)|
    requires Strandable(s.(users := s.users[a := Viewer]))
    ensures Strandable(s)
  {
    var req := Update(a, Some(Viewer));
    var s1 := Do(s, Begin(f, req, a));
    var s2 := Do(s1, LockTenant(f));
    var s3 := Do(s2, Count(f));
    var s4 := Do(s3, Commit(f));
    assert s4.open == s.open;
    assert s4 == s.(users := s.users[a := Viewer]);
    StrandStep(s3, Commit(f));
    StrandStep(s2, Count(f));
    StrandStep(s1, LockTenant(f));
    StrandStep(s, Begin(f, req, a));
  }

  lemma {:induction false} DemoteAllOthers(s: Team, t: TxnId, u: Id)
    requires s.lock.None? && s.open.Keys == {t} && u in AdminsOf(s.users) && RemovesUnlocked(s, t, u)
    ensures Strandable(s)
    decreases |AdminsOf(s.users)|
  {
    if a :| a in AdminsOf(s.users) && a != u {
      var fewer := s.(users := s.users[a := Viewer]);
      assert AdminsOf(fewer.users) == AdminsOf(s.users) - {a};
      Subset({a, u}, AdminsOf(s.users));
      DemoteAllOthers(fewer, t, u);
      DemoteThenStrand(s, a, t + 1);
    } else {
      AlreadyStranded(Do(s, Commit(t)));
      StrandStep(s, Commit(t));
    }
  }

  /** From any state in which an administrator is being removed without the lock. */
  lemma {:induction false} StaleRemovalStrands(s: Team, t: TxnId, u: Id)
    requires Disciplined(s) && u in AdminsOf(s.users) && RemovesUnlocked(s, t, u)
    ensures Strandable(s)
    decreases |s.open|
  {
    if v :| v in s.open && v != t {
      var after := Do(s, Abort(v));
      assert after.open.Keys == s.open.Keys - {v};
      assert |after.open| == |after.open.Keys| && |s.open| == |s.open.Keys|;
      StaleRemovalStrands(after, t, u);
      StrandStep(s, Abort(v));
    } else {
      DemoteAllOthers(s, t, u);
    }
  }

  /** The condition is exact: a team with an administrator can lose its last one exactly when an open
      transaction is removing an administrator it read as something else. */
  lemma StrandsExactlyWhenStale(s: Team)
    requires Disciplined(s) && 1 <= |AdminsOf(s.users)|
    ensures Strandable(s) <==> !NoStaleRemoval(s)
  {
    if NoStaleRemoval(s) {
      forall ls | Run(s, ls) && RaceFree(s, ls) ensures AdminsOf(Last(s, ls).users) != {} {
        AdminRemains(s, ls);
      }
    } else {
      var t, u :| u in AdminsOf(s.users) && RemovesUnlocked(s, t, u);
      StaleRemovalStrands(s, t, u);
    }
  }

  /** One promotion that lands between the unlocked read and the commit of a deletion is enough. */
  lemma RacingPromotionStrands(s: Team, t: TxnId, p: TxnId, u: Id)
    requires Disciplined(s) && Enabled(s, Commit(p)) && p != t
    requires Promotes(s, Commit(p), u) && RemovesUnlocked(s, t, u)
    ensures Strandable(Do(s, Commit(p)))
  {
    var after := Do(s, Commit(p));
    WriteRemovesOne(s.users, s.open[p]);
    AtLeast(AdminsOf(s.users), AdminsOf(after.users), u);
    assert RemovesUnlocked(after, t, u) && u in AdminsOf(after.users);
    StaleRemovalStrands(after, t, u);
  }

  // ---- The same calls one at a time ----

  /** The users after a call that is not refused. */
  function Outcome(users: map<Id, Role>, req: Request): map<Id, Role>
  {
    match req
    case Update(u, role) => if role.Some? then users[u := role.value] else users
    case Delete(u) => users - {u}
  }

  /** A call that is alone in the system and not refused commits through the protocol. */
  lemma AloneCommits(s: Team, req: Request, t: TxnId, actor: Id) returns (ls: seq<Label>)
    requires s.lock.None? && Enabled(s, Begin(t, req, actor))
    requires Removing(req) ==> AdminsOf(s.users) != {req.user}
    ensures Run(s, ls) && Last(s, ls) == s.(users := Outcome(s.users, req))
  {
    var s1 := Do(s, Begin(t, req, actor));
    var x := s1.open[t];
    assert Written(s.users, x) == Outcome(s.users, req);
    if NeedsLock(x) {
      OnlyAdmin(s.users, req.user);
      var s2 := Do(s1, LockTenant(t));
      var s3 := Do(s2, Count(t));
      var s4 := Do(s3, Commit(t));
      assert s4.open == s.open;
      assert Run(s4, []);
      RunStep(s3, Commit(t), []);
      RunStep(s2, Count(t), [Commit(t)] + []);
      RunStep(s1, LockTenant(t), [Count(t)] + ([Commit(t)] + []));
      ls := [LockTenant(t)] + ([Count(t)] + ([Commit(t)] + []));
    } else {
      var s2 := Do(s1, Commit(t));
      assert s2.open == s.open;
      assert Run(s2, []);
      RunStep(s1, Commit(t), []);
      ls := [Commit(t)] + [];
    }
    RunStep(s, Begin(t, req, actor), ls);
    ls := [Begin(t, req, actor)] + ls;
  }

  datatype UserError =
    | UserNotFound
    | CannotDemoteLastAdmin
    | CannotDeleteSelf
    | CannotDeleteLastAdmin
    | InvitationNotFound
    | InvitationAlreadyAccepted
    | InvitationExpired
    | EmailAlreadyRegistered

  datatype Invitation = Invitation(email: string, role: Role, accepted: bool, expiresAt: int)

  /** An invitation that exists, was not used yet and has not expired. */
  predicate Usable(invitations: map<string, Invitation>, token: string, now: int)
  {
    token in invitations && !invitations[token].accepted && now <= invitations[token].expiresAt
  }

  lemma OnlyAdmin(users: map<Id, Role>, u: Id)
    requires u in AdminsOf(users)
    ensures |AdminsOf(users)| <= 1 <==> AdminsOf(users) == {u}
  {
    if |AdminsOf(users)| <= 1 {
      assert |AdminsOf(users) - {u}| == 0;
    }
  }

  class Directory {
    var users: map<Id, Role>
    var emails: map<Id, string>
    var invitations: map<string, Invitation>

    /** update_user: refused exactly when it would demote the one administrator. */
    method UpdateUser(user: Id, role: Option<Role>) returns (r: Result<Id, UserError>)
      modifies this`users
      ensures r == Err(UserNotFound) <==> user !in old(users)
      ensures r == Err(CannotDemoteLastAdmin) <==>
        role.Some? && !role.value.Admin? && AdminsOf(old(users)) == {user}
      ensures r.Err? ==> r.error in {UserNotFound, CannotDemoteLastAdmin} && users == old(users)
      ensures r.Ok? ==> users == Outcome(old(users), Update(user, role))
      ensures r.Ok? ==> users == if role.Some? then old(users)[user := role.value] else old(users)
      ensures AdminsOf(old(users)) != {} ==> AdminsOf(users) != {}
    {
      if user !in users {
        assert user !in AdminsOf(users);
        return Err(UserNotFound);
      }
      if role.Some? && !role.value.Admin? && users[user].Admin? {
        OnlyAdmin(users, user);
        if |AdminsOf(users)| <= 1 {
          return Err(CannotDemoteLastAdmin);
        }
      }
      assert AdminsOf(users) == {user} ==> user in AdminsOf(users);
      if role.Some? {
        ghost var before := users;
        users := users[user := role.value];
        assert AdminsOf(before) - {user} <= AdminsOf(users);
        assert role.value.Admin? ==> user in AdminsOf(users);
      }
      return Ok(user);
    }

    /** delete_user: refused for oneself and for the one administrator. */
    method DeleteUser(user: Id, currentUser: Id) returns (r: Result<Id, UserError>)
      modifies this`users, this`emails
      ensures r == Err(CannotDeleteSelf) <==> user == currentUser
      ensures r == Err(UserNotFound) <==> user != currentUser && user !in old(users)
      ensures r == Err(CannotDeleteLastAdmin) <==> user != currentUser && AdminsOf(old(users)) == {user}
      ensures r.Err? ==> users == old(users) && emails == old(emails)
      ensures r.Ok? ==> users == Outcome(old(users), Delete(user))
      ensures r.Ok? ==> users == old(users) - {user} && emails == old(emails) - {user}
      ensures AdminsOf(old(users)) != {} ==> AdminsOf(users) != {}
    {
      assert user !in users ==> user !in AdminsOf(users);
      if user == currentUser {
        return Err(CannotDeleteSelf);
      }
      if user !in users {
        return Err(UserNotFound);
      }
      if users[user].Admin? {
        OnlyAdmin(users, user);
        if |AdminsOf(users)| <= 1 {
          return Err(CannotDeleteLastAdmin);
        }
      }
      assert AdminsOf(users) == {user} ==> user in AdminsOf(users);
      ghost var before := users;
      users := users - {user};
      emails := emails - {user};
      assert AdminsOf(before) - {user} <= AdminsOf(users);
      return Ok(user);
    }

    /** accept_invitation: an invitation makes one user, once; newUser is the identifier the database gives
        and `elsewhere` the addresses of users of other tenants. */
    method AcceptInvitation(token: string, now: int, newUser: Id, elsewhere: set<string>) returns (r: Result<Id, UserError>)
      requires newUser !in users
      modifies this
      ensures r == Err(InvitationExpired) <==>
        token in old(invitations) && !old(invitations)[token].accepted && old(invitations)[token].expiresAt < now
      ensures r.Ok? <==> Usable(old(invitations), token, now) && old(invitations)[token].email !in old(emails).Values + elsewhere
      ensures r == Err(InvitationNotFound) <==> token !in old(invitations)
      ensures r == Err(InvitationAlreadyAccepted) <==> token in old(invitations) && old(invitations)[token].accepted
      ensures r == Err(EmailAlreadyRegistered) <==>
        Usable(old(invitations), token, now) && old(invitations)[token].email in old(emails).Values + elsewhere
      ensures r.Err? && r.error !in {InvitationNotFound, InvitationAlreadyAccepted, EmailAlreadyRegistered} ==>
        r.error == InvitationExpired
      ensures r.Err? ==> users == old(users) && emails == old(emails) && invitations == old(invitations)
      ensures r.Ok? ==> var i := old(invitations)[token];
        && r.value == newUser
        && users == old(users)[newUser := i.role]
        && emails == old(emails)[newUser := i.email]
        && invitations == old(invitations)[token := i.(accepted := true)]
      ensures AdminsOf(old(users)) <= AdminsOf(users)
    {
      if token !in invitations {
        return Err(InvitationNotFound);
      }
      var i := invitations[token];
      if i.accepted {
        return Err(InvitationAlreadyAccepted);
      }
      if i.expiresAt < now {
        return Err(InvitationExpired);
      }
      if i.email in emails.Values + elsewhere {
        return Err(EmailAlreadyRegistered);
      }
      users := users[newUser := i.role];
      emails := emails[newUser := i.email];
      invitations := invitations[token := i.(accepted := true)];
      return Ok(newUser);
    }
  }
}
