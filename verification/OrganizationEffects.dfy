/** What each operation on organisations does to the rows, and how long a membership and a role last. */
module OrganizationEffects {
  import opened Prelude
  import opened Slugs
  import opened OrganizationTables
  import opened OrganizationTheorems
  import opened OrganizationRuns

  // ---- single operations ----

  /** Only memberships and the id counter may differ. */
  predicate OnlyMembers(db: Db, d: Db) {
    d.users == db.users && d.orgs == db.orgs && d.invitations == db.invitations
  }

  /** A role is set exactly for a row of the organisation that is not and does not become OWNER; no other changes. */
  lemma SetRoleEffect(db: Db, m: nat, org: nat, role: Role)
    ensures var d := Next(db, SetRole(m, org, role));
      if m in db.members && db.members[m].org == org && db.members[m].role != OWNER && role != OWNER then
        && Outcome(db, SetRole(m, org, role)).Some? && OnlyMembers(db, d) && d.next == db.next
        && d.members.Keys == db.members.Keys && d.members[m] == Member(org, db.members[m].user, role)
        && forall n :: n in db.members && n != m ==> d.members[n] == db.members[n]
      else Outcome(db, SetRole(m, org, role)).None? && d == db
  {}

  /** A row is removed exactly if it belongs to the organisation and is not OWNER; no other goes. */
  lemma RemoveEffect(db: Db, m: nat, org: nat)
    ensures var d := Next(db, Remove(m, org));
      if m in db.members && db.members[m].org == org && db.members[m].role != OWNER then
        && Outcome(db, Remove(m, org)).Some? && OnlyMembers(db, d) && d.next == db.next
        && d.members.Keys == db.members.Keys - {m}
        && forall n :: n in d.members ==> d.members[n] == db.members[n]
      else Outcome(db, Remove(m, org)).None? && d == db
  {}

  predicate Gains(db: Db, d: Db, row: Member) {
    && d.members.Keys == db.members.Keys + {db.next} && d.next == db.next + 1 && d.members[db.next] == row
    && forall n :: n in db.members && n != db.next ==> d.members[n] == db.members[n]
  }

  predicate Joined(members: map<nat, Member>, org: nat, user: nat) {
    exists m :: m in members && members[m].org == org && members[m].user == user
  }

  /** A known user joins a known organisation exactly if not yet in it and not as OWNER. */
  lemma AddEffect(db: Db, org: nat, user: nat, role: Role)
    ensures var d := Next(db, Add(org, user, role));
      if role != OWNER && org in db.orgs && user in db.users && !Joined(db.members, org, user) then
        Outcome(db, Add(org, user, role)).Some? && OnlyMembers(db, d) && Gains(db, d, Member(org, user, role))
      else Outcome(db, Add(org, user, role)).None? && d == db
  {
    assert IsMember(db, org, user) <==> Joined(db.members, org, user);
  }

  /** An invitation goes exactly if it is one of the organisation. */
  lemma RevokeEffect(db: Db, i: nat, org: nat)
    ensures var d := Next(db, Revoke(i, org));
      if i in db.invitations && db.invitations[i].org == org then
        Outcome(db, Revoke(i, org)).Some? && d == db.(invitations := db.invitations - {i})
      else Outcome(db, Revoke(i, org)).None? && d == db
  {}

  /** The organisation gets its slug and its OWNER, exactly if the slug is free and the user known. */
  lemma CreateEffect(db: Db, slug: string, owner: nat)
    requires Keys(db)
    ensures var d := Next(db, Create(slug, owner));
      if owner in db.users && forall o :: o in db.orgs ==> db.orgs[o] != slug then
        && Outcome(db, Create(slug, owner)).Some? && d.users == db.users && d.invitations == db.invitations
        && d.orgs.Keys == db.orgs.Keys + {db.next} && d.orgs[db.next] == slug
        && (forall o :: o in db.orgs ==> d.orgs[o] == db.orgs[o])
        && d.members.Keys == db.members.Keys + {db.next + 1} && d.members[db.next + 1] == Member(db.next, owner, OWNER)
        && (forall m :: m in db.members ==> d.members[m] == db.members[m])
      else Outcome(db, Create(slug, owner)).None? && d == db
  {
    assert slug in Taken(db) <==> exists o :: o in db.orgs && db.orgs[o] == slug;
  }

  /** A login changes the subject and email of its user, exactly if no other user has either. */
  lemma LoginEffect(db: Db, u: nat, subject: string, email: string)
    ensures var d := Next(db, Login(u, subject, email));
      if u in db.users && forall v :: v in db.users && v != u ==>
        db.users[v].subject != subject && db.users[v].email != email then
        Outcome(db, Login(u, subject, email)).Some? && d == db.(users := db.users[u := User(subject, email)])
      else Outcome(db, Login(u, subject, email)).None? && d == db
  {
    if u in db.users && forall v :: v in db.users && v != u ==>
      db.users[v].subject != subject && db.users[v].email != email {
      assert UsersWith(db, email) <= {u} && UsersOf(db, subject) <= {u};
    } else if v :|
        (u in db.users && v in db.users && v != u && (db.users[v].subject == subject || db.users[v].email == email)) {
      assert v in UsersWith(db, email) || v in UsersOf(db, subject);
    }
  }

  /** Inviting by an email under which a user is stored adds that user. */
  lemma InviteKnown(db: Db, org: nat, raw: string, role: Role, u: nat)
    requires UsersDistinct(db.users) && role != OWNER && Normalize(raw) != ""
    requires u in db.users && db.users[u].email == Normalize(raw)
    ensures Next(db, InviteTo(org, raw, role)) == Next(db, Add(org, u, role))
  {
    UniqueRow(UsersWith(db, Normalize(raw)));
    assert u in UsersWith(db, Normalize(raw));
  }

  predicate Stranger(db: Db, email: string) {
    forall u :: u in db.users ==> db.users[u].email != email
  }

  /** Otherwise a pending invitation of that email is given the role. */
  lemma InviteAgain(db: Db, org: nat, raw: string, role: Role, i: nat)
    requires SingleInvitation(db.invitations) && role != OWNER && Normalize(raw) != "" && Stranger(db, Normalize(raw))
    requires i in db.invitations && db.invitations[i].org == org && db.invitations[i].email == Normalize(raw)
    requires i < db.next
    ensures Next(db, InviteTo(org, raw, role)) ==
            db.(invitations := db.invitations[i := Invitation(org, Normalize(raw), role)])
  {
    var email := Normalize(raw);
    UniqueRow(UsersWith(db, email));
    UniqueRow(InvitationsTo(db, org, email));
    assert UsersWith(db, email) == {} && i in InvitationsTo(db, org, email);
  }

  /** Without one, an invitation is stored exactly if the organisation exists. */
  lemma InviteNew(db: Db, org: nat, raw: string, role: Role)
    requires role != OWNER && Normalize(raw) != "" && Stranger(db, Normalize(raw))
    requires forall i :: i in db.invitations ==>
      db.invitations[i].org != org || db.invitations[i].email != Normalize(raw)
    ensures Next(db, InviteTo(org, raw, role)) ==
            if org !in db.orgs then db
            else
              db.(invitations := db.invitations[db.next := Invitation(org, Normalize(raw), role)], next := db.next + 1)
  {
    UniqueRow(UsersWith(db, Normalize(raw)));
    UniqueRow(InvitationsTo(db, org, Normalize(raw)));
    assert UsersWith(db, Normalize(raw)) == {} && InvitationsTo(db, org, Normalize(raw)) == {};
  }

  /** Nobody is invited as OWNER or by a blank email. */
  lemma InviteRefused(db: Db, org: nat, raw: string, role: Role)
    requires role == OWNER || Normalize(raw) == ""
    ensures Outcome(db, InviteTo(org, raw, role)).None?
  {}

  predicate NewPerson(db: Db, v: User) {
    && (forall u :: u in db.users ==> db.users[u].email != v.email && db.users[u].subject != v.subject)
    && (v.email == "" || exists i :: 0 <= i < |v.email| && v.email[i] != '@')
  }

  /** The user is stored as given and owns a new organisation under a slug nobody has; nothing else is added. */
  ghost predicate Settled(db: Db, d: Db, v: User) {
    && d.users == db.users[db.next := v]
    && db.next + 1 in d.orgs && d.orgs == db.orgs[db.next + 1 := d.orgs[db.next + 1]]
    && (forall o :: o in db.orgs ==> db.orgs[o] != d.orgs[db.next + 1])
    && d.members == db.members[db.next + 2 := Member(db.next + 1, db.next, OWNER)]
    && d.invitations == db.invitations && d.next == db.next + 3
  }

  lemma HomeEffect(db: Db, v: User)
    ensures WithHome(db, v).Some? <==> NewPerson(db, v)
    ensures NewPerson(db, v) ==> Settled(db, WithHome(db, v).value, v)
  {
    if NewPerson(db, v) {
      assert UsersWith(db, v.email) == {} && UsersOf(db, v.subject) == {};
      var d, base := PutUser(db, db.next, v, db.next + 1), Base(v.email).value;
      var slug := Candidate(base, Search(base, Taken(d), 0));
      assert Taken(d) == Taken(db);
      forall o | o in db.orgs ensures db.orgs[o] != slug {
        assert db.orgs[o] in Taken(db);
      }
    } else if u :| u in db.users && (db.users[u].email == v.email || db.users[u].subject == v.subject) {
      assert u in UsersWith(db, v.email) || u in UsersOf(db, v.subject);
    }
  }

  /**
    A first login commits exactly for a new email and subject, if the email is more than at-signs. Without a verified
    email it does nothing else; with one, the pending invitations of that email are then resolved.
   */
  lemma FirstLoginEffect(db: Db, v: User, verified: bool, order: seq<nat>)
    ensures var d := Next(db, FirstLogin(v, verified, order));
      && (Outcome(db, FirstLogin(v, verified, order)).Some? <==> NewPerson(db, v))
      && (!NewPerson(db, v) ==> d == db)
      && (NewPerson(db, v) && !verified ==> Settled(db, d, v))
      && (NewPerson(db, v) && verified ==>
            exists home :: Settled(db, home, v) && d == AcceptAll(home, db.next, order))
  {
    HomeEffect(db, v);
  }

  // ---- how long a membership and a role last ----

  /** The steps that can make the user a member of the organisation. */
  predicate Grants(db: Db, s: Step, org: nat, user: nat) {
    match s
    case Create(_, owner) => org == db.next && user == owner
    case Add(o, u, _) => o == org && u == user
    case InviteTo(o, raw, _) => o == org && user in db.users && db.users[user].email == Normalize(raw)
    case FirstLogin(_, _, _) => user == db.next
    case _ => false
  }

  ghost predicate NoneGrants(db: Db, steps: seq<Step>, org: nat, user: nat)
    decreases |steps|
  {
    steps == [] || (!Grants(db, steps[0], org, user) && NoneGrants(Next(db, steps[0]), steps[1..], org, user))
  }

  lemma HomeJoins(db: Db, v: User, org: nat, user: nat)
    requires Sound(db) && WithHome(db, v).Some? && user != db.next
    ensures Joined(WithHome(db, v).value.members, org, user) ==> Joined(db.members, org, user)
  {
    HomeEffect(db, v);
  }

  lemma AcceptJoins(db: Db, newcomer: nat, order: seq<nat>, org: nat, user: nat)
    requires Keys(db) && user != newcomer
    ensures Joined(AcceptAll(db, newcomer, order).members, org, user) ==> Joined(db.members, org, user)
  {
    JoinsAll(db, newcomer, order);
  }

  lemma LoginJoins(db: Db, v: User, verified: bool, order: seq<nat>, org: nat, user: nat)
    requires Sound(db) && Register(db, v, verified, order).Some? && user != db.next
    ensures Joined(Register(db, v, verified, order).value.members, org, user) ==> Joined(db.members, org, user)
  {
    HomeJoins(db, v, org, user);
    if verified {
      HomeSound(db, v);
      AcceptJoins(WithHome(db, v).value, db.next, order, org, user);
    }
  }

  /** No other step makes anybody a member. */
  lemma GrantedStep(db: Db, s: Step, org: nat, user: nat)
    requires Sound(db) && !Joined(db.members, org, user) && !Grants(db, s, org, user)
    ensures !Joined(Next(db, s).members, org, user)
  {
    if Outcome(db, s).Some? {
      match s
      case Create(slug, owner) => CreateEffect(db, slug, owner);
      case Add(o, u, role) => AddEffect(db, o, u, role);
      case InviteTo(o, raw, role) => InvitedJoins(db, o, raw, role, org, user);
      case FirstLogin(v, verified, order) => LoginJoins(db, v, verified, order, org, user);
      case Remove(m, o) => RemoveEffect(db, m, o);
      case SetRole(m, o, role) => SetRoleEffect(db, m, o, role);
      case Delete(_) =>
      case Revoke(_, _) =>
      case Login(_, _, _) =>
    }
  }

  lemma InvitedJoins(db: Db, o: nat, raw: string, role: Role, org: nat, user: nat)
    requires Sound(db) && !Joined(db.members, org, user) && !Grants(db, InviteTo(o, raw, role), org, user)
    requires Outcome(db, InviteTo(o, raw, role)).Some?
    ensures !Joined(Next(db, InviteTo(o, raw, role)).members, org, user)
  {
    var email := Normalize(raw);
    UniqueRow(UsersWith(db, email));
    if u :| u in db.users && db.users[u].email == email {
      InviteKnown(db, o, raw, role, u);
      AddEffect(db, o, u, role);
    } else {
      assert UsersWith(db, email) == {};
      assert Next(db, InviteTo(o, raw, role)).members == db.members;
    }
  }

  lemma {:induction false} GrantedRun(db: Db, steps: seq<Step>, org: nat, user: nat)
    requires Sound(db) && !Joined(db.members, org, user) && NoneGrants(db, steps, org, user)
    ensures !Joined(After(db, steps).members, org, user)
    decreases |steps|
  {
    if steps != [] {
      GrantedStep(db, steps[0], org, user);
      SoundStep(db, steps[0]);
      GrantedRun(Next(db, steps[0]), steps[1..], org, user);
    }
  }

  /** Once removed, a user stays out of the organisation over every run, until a step grants membership again. */
  lemma RemovedStaysOut(before: seq<Step>, m: nat, org: nat, after: seq<Step>)
    requires var db := After(Installed(), before);
      && m in db.members && db.members[m].org == org && db.members[m].role != OWNER
      && NoneGrants(Next(db, Remove(m, org)), after, org, db.members[m].user)
    ensures var db := After(Installed(), before);
      !Joined(After(Next(db, Remove(m, org)), after).members, org, db.members[m].user)
  {
    var db := After(Installed(), before);
    AlwaysSound(before);
    RemoveEffect(db, m, org);
    SoundStep(db, Remove(m, org));
    GrantedRun(Next(db, Remove(m, org)), after, org, db.members[m].user);
  }

  /** The steps that can change or end membership row m. */
  predicate Touches(s: Step, m: nat, org: nat) {
    match s
    case SetRole(n, _, _) => n == m
    case Remove(n, _) => n == m
    case Delete(o) => o == org
    case _ => false
  }

  lemma HomeKeeps(db: Db, v: User, m: nat)
    requires Sound(db) && WithHome(db, v).Some? && m in db.members
    ensures var home := WithHome(db, v).value; m in home.members && home.members[m] == db.members[m]
  {
    HomeEffect(db, v);
    assert m < db.next;
  }

  lemma LoginKeeps(db: Db, v: User, verified: bool, order: seq<nat>, m: nat)
    requires Sound(db) && Register(db, v, verified, order).Some? && m in db.members
    ensures var d := Register(db, v, verified, order).value; m in d.members && d.members[m] == db.members[m]
  {
    var home := WithHome(db, v).value;
    HomeKeeps(db, v, m);
    if verified {
      HomeSound(db, v);
      AcceptKeeps(home, db.next, order, m);
    }
  }

  lemma AcceptKeeps(db: Db, user: nat, order: seq<nat>, m: nat)
    requires Keys(db) && m in db.members
    ensures m in AcceptAll(db, user, order).members && AcceptAll(db, user, order).members[m] == db.members[m]
  {
    JoinsAll(db, user, order);
  }

  lemma InviteKeeps(db: Db, org: nat, raw: string, role: Role, m: nat)
    requires Sound(db) && Invite(db, org, raw, role).Some? && m in db.members
    ensures var d := Invite(db, org, raw, role).value; m in d.members && d.members[m] == db.members[m]
  {}

  lemma MemberStepKeeps(db: Db, s: Step, m: nat)
    requires Keys(db) && m in db.members && !Touches(s, m, db.members[m].org) && (s.SetRole? || s.Remove? || s.Add?)
    ensures m in Next(db, s).members && Next(db, s).members[m] == db.members[m]
  {
    match s
    case SetRole(n, org, role) => SetRoleEffect(db, n, org, role);
    case Remove(n, org) => RemoveEffect(db, n, org);
    case Add(org, user, role) => AddEffect(db, org, user, role);
  }

  lemma OtherStepKeeps(db: Db, s: Step, m: nat)
    requires Keys(db) && m in db.members && !Touches(s, m, db.members[m].org)
    requires s.Create? || s.Delete? || s.Revoke? || s.Login?
    ensures m in Next(db, s).members && Next(db, s).members[m] == db.members[m]
  {
    if s.Create? {
      CreateEffect(db, s.slug, s.owner);
    }
  }

  lemma UntouchedStep(db: Db, s: Step, m: nat)
    requires Sound(db) && m in db.members && !Touches(s, m, db.members[m].org)
    ensures m in Next(db, s).members && Next(db, s).members[m] == db.members[m]
  {
    if Outcome(db, s).Some? {
      match s
      case FirstLogin(v, verified, order) => LoginKeeps(db, v, verified, order, m);
      case InviteTo(org, raw, role) => InviteKeeps(db, org, raw, role, m);
      case Add(_, _, _) => MemberStepKeeps(db, s, m);
      case SetRole(_, _, _) => MemberStepKeeps(db, s, m);
      case Remove(_, _) => MemberStepKeeps(db, s, m);
      case _ => OtherStepKeeps(db, s, m);
    }
  }

  predicate NoneTouches(steps: seq<Step>, m: nat, org: nat) {
    steps == [] || (!Touches(steps[0], m, org) && NoneTouches(steps[1..], m, org))
  }

  lemma {:induction false} UntouchedRun(db: Db, steps: seq<Step>, m: nat, row: Member)
    requires Sound(db) && m in db.members && db.members[m] == row && NoneTouches(steps, m, row.org)
    ensures m in After(db, steps).members && After(db, steps).members[m] == row
    decreases |steps|
  {
    if steps != [] {
      UntouchedStep(db, steps[0], m);
      SoundStep(db, steps[0]);
      UntouchedRun(Next(db, steps[0]), steps[1..], m, row);
    }
  }

  /** A role that was set lasts until it is set again, the member removed or the organisation deleted. */
  lemma RoleLasts(before: seq<Step>, m: nat, org: nat, role: Role, after: seq<Step>)
    requires var db := After(Installed(), before);
      m in db.members && db.members[m].org == org && db.members[m].role != OWNER && role != OWNER
    requires NoneTouches(after, m, org)
    ensures var db := After(Installed(), before);
      var d := After(Next(db, SetRole(m, org, role)), after);
      m in d.members && d.members[m] == Member(org, db.members[m].user, role)
  {
    var db := After(Installed(), before);
    AlwaysSound(before);
    SetRoleEffect(db, m, org, role);
    SoundStep(db, SetRole(m, org, role));
    UntouchedRun(Next(db, SetRole(m, org, role)), after, m, Member(org, db.members[m].user, role));
  }
}
