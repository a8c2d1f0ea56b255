/** The organisation and user services over their tables; a method that returns false has thrown and changed nothing. */
module OrganizationServices {
  import opened Prelude
  import opened Slugs
  import opened OrganizationTables
  import opened OrganizationTheorems
  import opened OrganizationRuns

  class OrganizationService {
    var db: Db

    constructor ()
      ensures db == Installed()
    {
      db := Installed();
    }

    method HasMember(org: nat, user: nat) returns (found: bool)
      ensures found == IsMember(db, org, user)
    {
      var todo := db.members.Keys;
      while todo != {}
        invariant todo <= db.members.Keys
        invariant forall m :: m in db.members && m !in todo ==> db.members[m].org != org || db.members[m].user != user
        decreases |todo|
      {
        var m :| m in todo;
        if db.members[m].org == org && db.members[m].user == user {
          return true;
        }
        todo := todo - {m};
      }
      found := false;
    }

    method Create(slug: string, owner: nat) returns (ok: bool)
      modifies this
      ensures var outcome := Outcome(old(db), Step.Create(slug, owner));
        ok == outcome.Some? && db == if ok then outcome.value else old(db)
    {
      if slug in Taken(db) || owner !in db.users {
        return false;
      }
      var org := db.next;
      db := db.(orgs := db.orgs[org := slug], next := org + 1);
      db := db.(members := db.members[db.next := Member(org, owner, OWNER)], next := db.next + 1);
      ok := true;
    }

    /**
      Deleting a row that is not there is no error. No membership and no invitation of the organisation is left; those
      of the others, and the users, are as they were.
     */
    method Delete(org: nat)
      modifies this
      ensures db == Next(old(db), Step.Delete(org))
      ensures org !in db.orgs && MembersOf(db, org) == {} && InvitationsOf(db, org) == {}
      ensures forall o :: o != org ==>
        MembersOf(db, o) == MembersOf(old(db), o) && InvitationsOf(db, o) == InvitationsOf(old(db), o)
      ensures forall m :: m in db.members ==> m in old(db).members && db.members[m] == old(db).members[m]
      ensures db.users == old(db).users
    {
      var members, invitations := MembersOf(db, org), InvitationsOf(db, org);
      db := db.(orgs := db.orgs - {org});
      db := db.(members := db.members - members, invitations := db.invitations - invitations);
    }

    method CreatePersonalOrganization(user: nat) returns (ok: bool)
      requires user in db.users
      modifies this
      ensures ok == Personal(old(db), user).Some?
      ensures db == if ok then Personal(old(db), user).value else old(db)
      ensures ok ==> exists slug :: slug !in Taken(old(db)) && db.orgs == old(db).orgs[old(db).next := slug]
    {
      var base := Base(db.users[user].email);
      if base.None? {
        return false;
      }
      var slug, _ := FreeSlug(base.value, Taken(db));
      ok := Create(slug, user);
    }

    method AddMember(org: nat, user: nat, role: Role) returns (ok: bool)
      modifies this
      ensures var outcome := Outcome(old(db), Add(org, user, role));
        ok == outcome.Some? && db == if ok then outcome.value else old(db)
    {
      if role == OWNER {
        return false;
      }
      var known := HasMember(org, user);
      if known || org !in db.orgs || user !in db.users {
        return false;
      }
      db := db.(members := db.members[db.next := Member(org, user, role)], next := db.next + 1);
      ok := true;
    }

    method UpdateMemberRole(member: nat, org: nat, role: Role) returns (ok: bool)
      modifies this
      ensures var outcome := Outcome(old(db), SetRole(member, org, role));
        ok == outcome.Some? && db == if ok then outcome.value else old(db)
    {
      if role == OWNER || member !in db.members || db.members[member].org != org {
        return false;
      }
      var row := db.members[member];
      if row.role == OWNER {
        return false;
      }
      db := db.(members := db.members[member := row.(role := role)]);
      ok := true;
    }

    method RemoveMemberById(member: nat, org: nat) returns (ok: bool)
      modifies this
      ensures var outcome := Outcome(old(db), Remove(member, org));
        ok == outcome.Some? && db == if ok then outcome.value else old(db)
    {
      if member !in db.members || db.members[member].org != org || db.members[member].role == OWNER {
        return false;
      }
      db := db.(members := db.members - {member});
      ok := true;
    }

    method InviteMember(org: nat, raw: string, role: Role) returns (ok: bool)
      requires UsersDistinct(db.users) && SingleInvitation(db.invitations)
      modifies this
      ensures var outcome := Outcome(old(db), InviteTo(org, raw, role));
        ok == outcome.Some? && db == if ok then outcome.value else old(db)
    {
      var email := Normalize(raw);
      if role == OWNER || email == "" {
        return false;
      }
      var users := UsersWith(db, email);
      UniqueRow(users);
      if users != {} {
        var u :| u in users;
        ok := AddMember(org, u, role);
        return;
      }
      var pending := InvitationsTo(db, org, email);
      UniqueRow(pending);
      if pending != {} {
        var i :| i in pending;
        db := PutInvitation(db, i, db.invitations[i].(role := role));
      } else if org !in db.orgs {
        return false;
      } else {
        db := PutInvitation(db, db.next, Invitation(org, email, role));
      }
      ok := true;
    }

    method AcceptInvitation(user: nat, id: nat)
      requires id in db.invitations
      modifies this
      ensures db == Accept(old(db), user, id)
    {
      var v := db.invitations[id];
      var known := HasMember(v.org, user);
      if !known {
        db := db.(members := db.members[db.next := Member(v.org, user, v.role)], next := db.next + 1);
      }
      db := db.(invitations := db.invitations - {id});
    }

    /** The query lists the invitations in some order; each is accepted and deleted. */
    method ResolvePendingInvitations(user: nat) returns (ghost order: seq<nat>)
      requires user in db.users
      modifies this
      ensures Resolves(old(db), user, order) && db == AcceptAll(old(db), user, order)
    {
      order := [];
      var email := Normalize(db.users[user].email);
      if email == "" {
        return;
      }
      ghost var d := db;
      var all := InvitationsFor(db, email);
      var todo := all;
      while todo != {}
        invariant todo <= all <= d.invitations.Keys && todo <= db.invitations.Keys
        invariant Lists(order, all - todo) && db == AcceptAll(d, user, order)
        decreases |todo|
      {
        var id :| id in todo;
        AcceptOneMore(d, user, order, id);
        AcceptInvitation(user, id);
        todo := todo - {id};
        order := order + [id];
      }
      assert all - todo == all;
    }

    method RevokeInvitation(id: nat, org: nat) returns (ok: bool)
      modifies this
      ensures var outcome := Outcome(old(db), Revoke(id, org));
        ok == outcome.Some? && db == if ok then outcome.value else old(db)
    {
      if id !in db.invitations || db.invitations[id].org != org {
        return false;
      }
      db := db.(invitations := db.invitations - {id});
      ok := true;
    }

    /** A first login; if the personal organisation cannot be made, the user is rolled back too. */
    method RegisterNewUser(v: User, verified: bool) returns (ok: bool, ghost order: seq<nat>)
      modifies this
      ensures var outcome := Outcome(old(db), FirstLogin(v, verified, order));
        ok == outcome.Some? && db == if ok then outcome.value else old(db)
      ensures ok && verified ==>
        old(db).next in WithHome(old(db), v).value.users && Resolves(WithHome(old(db), v).value, old(db).next, order)
    {
      var before := db;
      order := [];
      if UsersWith(db, v.email) != {} || UsersOf(db, v.subject) != {} {
        return false, [];
      }
      var u := db.next;
      db := PutUser(db, u, v, u + 1);
      ok := CreatePersonalOrganization(u);
      if !ok {
        db := before;
        return;
      }
      if verified {
        order := ResolvePendingInvitations(u);
      }
    }
  }

  lemma {:induction false} AcceptOneMore(db: Db, user: nat, order: seq<nat>, id: nat)
    requires id in AcceptAll(db, user, order).invitations
    ensures AcceptAll(db, user, order + [id]) == Accept(AcceptAll(db, user, order), user, id)
    decreases |order|
  {
    if order == [] {
      assert [id][1..] == [];
    } else {
      assert (order + [id])[1..] == order[1..] + [id];
      AcceptOneMore(if order[0] in db.invitations then Accept(db, user, order[0]) else db, user, order[1..], id);
    }
  }
}
