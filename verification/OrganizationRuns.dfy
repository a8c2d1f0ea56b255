/** Membership over every run: the tables stay sound and owners never change. */
module OrganizationRuns {
  import opened Prelude
  import opened Slugs
  import opened OrganizationTables
  import opened OrganizationTheorems

  datatype Step =
    | Create(slug: string, owner: nat)
    | Delete(org: nat)
    | Add(org: nat, user: nat, role: Role)
    | SetRole(member: nat, org: nat, role: Role)
    | Remove(member: nat, org: nat)
    | InviteTo(org: nat, raw: string, role: Role)
    | Revoke(invitation: nat, org: nat)
    | FirstLogin(newcomer: User, verified: bool, order: seq<nat>)
    | Login(id: nat, subject: string, email: string)

  /** None when the operation throws. */
  ghost function Outcome(db: Db, s: Step): Option<Db> {
    match s
    case Create(slug, owner) => CreateOrg(db, slug, owner)
    case Delete(org) => Some(DeleteOrg(db, org))
    case Add(org, user, role) => AddMember(db, org, user, role)
    case SetRole(m, org, role) => UpdateRole(db, m, org, role)
    case Remove(m, org) => RemoveMember(db, m, org)
    case InviteTo(org, raw, role) => Invite(db, org, raw, role)
    case Revoke(i, org) => RevokeInvitation(db, i, org)
    case FirstLogin(v, verified, order) => Register(db, v, verified, order)
    case Login(user, subject, email) => Rebind(db, user, subject, email)
  }

  ghost function Next(db: Db, s: Step): Db {
    match Outcome(db, s) case Some(d) => d case None => db
  }

  ghost function After(db: Db, steps: seq<Step>): Db
    decreases |steps|
  {
    if steps == [] then db else After(Next(db, steps[0]), steps[1..])
  }

  // ---- soundness ----

  lemma UniqueRow(s: set<nat>)
    requires forall x, y :: x in s && y in s ==> x == y
    ensures The(s).Some? ==> s == {The(s).value}
    ensures The(s).None? ==> s == {}
  {}

  lemma AddSound(db: Db, org: nat, user: nat, role: Role)
    requires Sound(db) && AddMember(db, org, user, role).Some?
    ensures Sound(AddMember(db, org, user, role).value)
  {
    MemberInserted(db, Member(org, user, role));
  }

  lemma InviteSound(db: Db, org: nat, raw: string, role: Role)
    requires Sound(db) && Invite(db, org, raw, role).Some?
    ensures Sound(Invite(db, org, raw, role).value)
  {
    var email := Normalize(raw);
    NormalizeIsProjection(raw);
    match The(UsersWith(db, email))
    case Some(u) => AddSound(db, org, u, role);
    case None =>
      UniqueRow(InvitationsTo(db, org, email));
      match The(InvitationsTo(db, org, email))
      case Some(i) => InvitationPut(db, i, db.invitations[i].(role := role));
      case None => InvitationPut(db, db.next, Invitation(org, email, role));
  }

  lemma PersonalSound(db: Db, user: nat)
    requires Sound(db) && user in db.users && Personal(db, user).Some?
    ensures Sound(Personal(db, user).value) && user in Personal(db, user).value.users
  {
    var base := Base(db.users[user].email).value;
    OrgCreated(db, Candidate(base, Search(base, Taken(db), 0)), user);
  }

  lemma NewcomerSound(db: Db, v: User)
    requires Sound(db) && UsersWith(db, v.email) == {} && UsersOf(db, v.subject) == {}
    ensures Sound(PutUser(db, db.next, v, db.next + 1))
  {
    UserPut(db, db.next, v, db.next + 1);
  }

  lemma HomeIsPersonal(db: Db, v: User)
    requires WithHome(db, v).Some?
    ensures UsersWith(db, v.email) == {} && UsersOf(db, v.subject) == {}
    ensures WithHome(db, v) == Personal(PutUser(db, db.next, v, db.next + 1), db.next)
  {}

  lemma HomeSound(db: Db, v: User)
    requires Sound(db) && WithHome(db, v).Some?
    ensures Sound(WithHome(db, v).value) && db.next in WithHome(db, v).value.users
  {
    HomeIsPersonal(db, v);
    NewcomerSound(db, v);
    PersonalSound(PutUser(db, db.next, v, db.next + 1), db.next);
  }

  lemma RegisterSound(db: Db, v: User, verified: bool, order: seq<nat>)
    requires Sound(db) && Register(db, v, verified, order).Some?
    ensures Sound(Register(db, v, verified, order).value)
  {
    HomeSound(db, v);
    if verified {
      AcceptedAll(WithHome(db, v).value, db.next, order);
    }
  }

  lemma SoundStep(db: Db, s: Step)
    requires Sound(db)
    ensures Sound(Next(db, s))
  {
    if Outcome(db, s).Some? {
      match s
      case Create(slug, owner) => OrgCreated(db, slug, owner);
      case Delete(org) => OrgDeleted(db, org);
      case Add(org, user, role) => AddSound(db, org, user, role);
      case SetRole(m, org, role) => RoleSet(db, m, role);
      case Remove(m, org) => MemberDropped(db, m);
      case InviteTo(org, raw, role) => InviteSound(db, org, raw, role);
      case Revoke(i, org) => InvitationDropped(db, i);
      case FirstLogin(v, verified, order) => RegisterSound(db, v, verified, order);
      case Login(user, subject, email) => UserPut(db, user, User(subject, email), db.next);
    }
  }

  lemma {:induction false} SoundRun(db: Db, steps: seq<Step>)
    requires Sound(db)
    ensures Sound(After(db, steps))
    decreases |steps|
  {
    if steps != [] {
      SoundStep(db, steps[0]);
      SoundRun(Next(db, steps[0]), steps[1..]);
    }
  }

  /**
    In every reachable state each organisation but the seeded one has exactly one OWNER, no invitation carries
    OWNER, memberships, invitations, slugs and users are unique, and every row refers to existing ones.
   */
  lemma AlwaysSound(steps: seq<Step>)
    ensures Sound(After(Installed(), steps))
  {
    SoundRun(Installed(), steps);
  }

  // ---- owners ----

  /** Organisations are not revived, and those that stay keep their OWNER row as it is and gain no other. */
  ghost predicate KeepsOwners(db: Db, d: Db) {
    && db.next <= d.next
    && (forall o :: o in d.orgs && o < db.next ==> o in db.orgs)
    && (forall o, m :: o in db.orgs && o in d.orgs && Owns(db.members, o, m) ==>
          m in d.members && d.members[m] == db.members[m])
    && (forall o, m :: o in db.orgs && o in d.orgs && Owns(d.members, o, m) ==> Owns(db.members, o, m))
  }

  lemma KeepsOwnersTrans(a: Db, b: Db, c: Db)
    requires KeepsOwners(a, b) && KeepsOwners(b, c) && Keys(a) && Keys(c)
    ensures KeepsOwners(a, c)
  {
    forall o | o in a.orgs && o in c.orgs ensures o in b.orgs {
      assert o < a.next;
    }
  }

  lemma CreateKeepsOwners(db: Db, slug: string, owner: nat)
    requires Keys(db) && CreateOrg(db, slug, owner).Some?
    ensures KeepsOwners(db, CreateOrg(db, slug, owner).value)
  {}

  lemma DeleteKeepsOwners(db: Db, org: nat)
    requires Keys(db)
    ensures KeepsOwners(db, DeleteOrg(db, org))
  {}

  lemma JoinedNotOwner(db: Db, d: Db, user: nat, order: seq<nat>, m: nat)
    requires Joins(db, d, user, order) && AllInvitable(db.invitations) && m in d.members && m !in db.members
    ensures d.members[m].role != OWNER
  {
    var i :| i in order && i in db.invitations && FromInvitation(d.members[m], user, db.invitations[i]);
    assert Invitable(db.invitations[i]);
  }

  lemma JoinsKeepsOwners(db: Db, d: Db, user: nat, order: seq<nat>)
    requires Joins(db, d, user, order) && AllInvitable(db.invitations)
    ensures KeepsOwners(db, d)
  {
    forall m | m in d.members && m !in db.members ensures d.members[m].role != OWNER {
      JoinedNotOwner(db, d, user, order, m);
    }
  }

  lemma HomeKeepsOwners(db: Db, v: User)
    requires Keys(db) && WithHome(db, v).Some?
    ensures KeepsOwners(db, WithHome(db, v).value)
  {}

  lemma RegisterKeepsOwners(db: Db, v: User, verified: bool, order: seq<nat>)
    requires Sound(db) && Register(db, v, verified, order).Some?
    ensures KeepsOwners(db, Register(db, v, verified, order).value)
  {
    HomeKeepsOwners(db, v);
    HomeSound(db, v);
    if verified {
      AcceptedAll(WithHome(db, v).value, db.next, order);
      AcceptKeepsOwners(db, WithHome(db, v).value, db.next, order);
    }
  }

  lemma AcceptKeepsOwners(db: Db, d: Db, u: nat, order: seq<nat>)
    requires Keys(db) && KeepsOwners(db, d) && Keys(d) && AllInvitable(d.invitations) && Keys(AcceptAll(d, u, order))
    ensures KeepsOwners(db, AcceptAll(d, u, order))
  {
    var e := AcceptAll(d, u, order);
    JoinsAll(d, u, order);
    JoinsKeepsOwners(d, e, u, order);
    KeepsOwnersTrans(db, d, e);
  }

  /** Operations that leave organisations and OWNER rows alone. */
  lemma SameRowsKeepOwners(db: Db, d: Db)
    requires d.orgs == db.orgs && db.next <= d.next
    requires forall m :: m in db.members && db.members[m].role == OWNER ==>
      m in d.members && d.members[m] == db.members[m]
    requires forall m :: m in d.members && d.members[m].role == OWNER ==>
      m in db.members && d.members[m] == db.members[m]
    ensures KeepsOwners(db, d)
  {}

  lemma InviteKeepsOwners(db: Db, org: nat, raw: string, role: Role)
    requires Keys(db) && Invite(db, org, raw, role).Some?
    ensures KeepsOwners(db, Invite(db, org, raw, role).value)
  {
    SameRowsKeepOwners(db, Invite(db, org, raw, role).value);
  }

  lemma MemberStepsKeepOwners(db: Db, s: Step)
    requires Keys(db) && (s.Add? || s.SetRole? || s.Remove?)
    ensures KeepsOwners(db, Next(db, s))
  {
    SameRowsKeepOwners(db, Next(db, s));
  }

  lemma OtherStepsKeepOwners(db: Db, s: Step)
    requires s.Revoke? || s.Login?
    ensures KeepsOwners(db, Next(db, s))
  {
    SameRowsKeepOwners(db, Next(db, s));
  }

  /** No role change, removal, invitation or login touches an OWNER row. */
  lemma OwnersStep(db: Db, s: Step)
    requires Sound(db)
    ensures KeepsOwners(db, Next(db, s))
  {
    if Outcome(db, s).None? {
      SameRowsKeepOwners(db, Next(db, s));
    } else {
      match s
      case Create(slug, owner) => CreateKeepsOwners(db, slug, owner);
      case Delete(org) => DeleteKeepsOwners(db, org);
      case InviteTo(org, raw, role) => InviteKeepsOwners(db, org, raw, role);
      case FirstLogin(v, verified, order) => RegisterKeepsOwners(db, v, verified, order);
      case Add(_, _, _) => MemberStepsKeepOwners(db, s);
      case SetRole(_, _, _) => MemberStepsKeepOwners(db, s);
      case Remove(_, _) => MemberStepsKeepOwners(db, s);
      case Revoke(_, _) => OtherStepsKeepOwners(db, s);
      case Login(_, _, _) => OtherStepsKeepOwners(db, s);
    }
  }

  lemma {:induction false} OwnersRun(db: Db, steps: seq<Step>)
    requires Sound(db)
    ensures KeepsOwners(db, After(db, steps))
    decreases |steps|
  {
    if steps != [] {
      var d := Next(db, steps[0]);
      SoundStep(db, steps[0]);
      OwnersStep(db, steps[0]);
      OwnersRun(d, steps[1..]);
      SoundRun(d, steps[1..]);
      KeepsOwnersTrans(db, d, After(d, steps[1..]));
    }
  }

  /** As long as an organisation exists its owner is the same user. */
  lemma OwnerNeverChanges(before: seq<Step>, steps: seq<Step>, org: nat, m: nat, n: nat)
    requires var db := After(Installed(), before);
      && org in db.orgs && org in After(db, steps).orgs
      && Owns(db.members, org, m) && Owns(After(db, steps).members, org, n)
    ensures var db := After(Installed(), before);
      m == n && After(db, steps).members[n] == db.members[m]
  {
    AlwaysSound(before);
    OwnersRun(After(Installed(), before), steps);
    SoundRun(After(Installed(), before), steps);
  }

  // ---- what an invitation finds ----

  /**
    Inviting someone by an email that means a registered user adds that user if and only if the email was stored
    normalised; otherwise the invitation stays pending although the user exists.
   */
  lemma InviteFindsNormalized(db: Db, org: nat, raw: string, role: Role, u: nat)
    requires Sound(db) && u in db.users && Normalize(db.users[u].email) == Normalize(raw)
    requires !IsMember(db, org, u) && Invite(db, org, raw, role).Some?
    ensures IsMember(Invite(db, org, raw, role).value, org, u) <==> Normalized(db.users[u].email)
  {
    var email, d := Normalize(raw), Invite(db, org, raw, role).value;
    NormalizeIsProjection(db.users[u].email);
    UniqueRow(UsersWith(db, email));
    if Normalized(db.users[u].email) {
      assert u in UsersWith(db, email);
      assert d.members[db.next] == Member(org, u, role) && db.next in d.members;
    } else {
      assert u !in UsersWith(db, email);
    }
  }

  /** A registered user whose email is stored with a capital, and an invitation that stays pending for it. */
  lemma InvitationMissesUser()
    ensures exists steps ::
      var db := After(Installed(), steps);
      && (exists u :: u in db.users && Normalize(db.users[u].email) == "a" && !IsMember(db, SEED, u))
      && InvitationsTo(db, SEED, "a") != {}
  {
    var login, invite := FirstLogin(User("s", "A"), false, []), InviteTo(SEED, "a", VIEWER);
    var db1, db2 := Next(Installed(), login), Next(Next(Installed(), login), invite);
    SmallNames();
    FirstUser(login);
    StaysInvited(db1, invite);
    assert [login, invite][1..] == [invite] && [invite][1..] == [];
    assert After(Installed(), [login, invite]) == After(db1, [invite]) == After(db2, []) == db2;
    assert 2 in db2.users && Normalize(db2.users[2].email) == "a" && !IsMember(db2, SEED, 2);
  }

  lemma SmallNames()
    ensures Normalize("A") == "a" && Normalize("a") == "a" && Base("A") == Some("a")
  {
    assert Lower("A") == "a" && Lower("a") == "a" by {
      assert "A"[1..] == "" && "a"[1..] == "";
    }
    assert BeforeAt("A") == "A" by { assert "A"[1..] == ""; }
    assert Hyphenated("a") == "a" by { assert "a"[1..] == ""; }
    assert "A"[0] != '@';
  }

  lemma FirstUser(login: Step)
    requires login == FirstLogin(User("s", "A"), false, []) && Base("A") == Some("a")
    ensures var db := Next(Installed(), login);
      && db.users == map[2 := User("s", "A")] && db.members == map[4 := Member(3, 2, OWNER)]
      && db.invitations == map[] && SEED in db.orgs
  {
    var db0 := Installed();
    assert UsersWith(db0, "A") == {} && UsersOf(db0, "s") == {};
    var db1 := PutUser(db0, 2, User("s", "A"), 3);
    assert Taken(db1) == {"default"} by { assert db1.orgs[SEED] == "default"; }
    assert Candidate("a", 0) == "a" && |"a"| != |"default"|;
    assert Search("a", Taken(db1), 0) == 0;
  }

  lemma StaysInvited(db: Db, invite: Step)
    requires invite == InviteTo(SEED, "a", VIEWER) && Normalize("a") == "a"
    requires db.users == map[2 := User("s", "A")] && db.members == map[4 := Member(3, 2, OWNER)]
    requires db.invitations == map[] && SEED in db.orgs
    ensures var db' := Next(db, invite);
      db'.users == db.users && db'.members == db.members && InvitationsTo(db', SEED, "a") == {db.next}
  {
    assert "A"[0] != "a"[0];
    assert UsersWith(db, "a") == {} && InvitationsTo(db, SEED, "a") == {};
  }
}
