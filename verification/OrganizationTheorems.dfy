/** What every membership operation keeps, and what the pending invitations of a new user become. */
module OrganizationTheorems {
  import opened Prelude
  import opened Slugs
  import opened OrganizationTables

  // ---- the row changes operations are made of ----

  function InsertMember(db: Db, v: Member): Db {
    db.(members := db.members[db.next := v], next := db.next + 1)
  }

  function PutMember(db: Db, m: nat, v: Member): Db {
    db.(members := db.members[m := v])
  }

  function DropMember(db: Db, m: nat): Db {
    db.(members := db.members - {m})
  }

  function DropInvitation(db: Db, i: nat): Db {
    db.(invitations := db.invitations - {i})
  }

  /** Tables with the same OWNER rows, over no other organisations, are owned alike. */
  lemma SameOwners(orgs: set<nat>, members: map<nat, Member>, members': map<nat, Member>)
    requires Owned(orgs, members) && forall o, m :: Owns(members', o, m) <==> Owns(members, o, m)
    ensures Owned(orgs, members')
  {
    forall o | o in orgs && o != SEED ensures HasOwner(members', o) {
      assert HasOwner(members, o);
      var m :| Owns(members, o, m);
      assert Owns(members', o, m);
    }
    assert !HasOwner(members, SEED);
  }

  lemma MemberInserted(db: Db, v: Member)
    requires Sound(db) && v.role != OWNER && v.org in db.orgs && v.user in db.users && !IsMember(db, v.org, v.user)
    ensures Sound(InsertMember(db, v))
  {
    InsertedRows(db, v);
    SameOwners(db.orgs.Keys, db.members, InsertMember(db, v).members);
    StillSingle(db, v);
  }

  lemma InsertedRows(db: Db, v: Member)
    requires Keys(db) && References(db) && v.org in db.orgs && v.user in db.users
    ensures Keys(InsertMember(db, v)) && References(InsertMember(db, v))
  {}

  lemma StillSingle(db: Db, v: Member)
    requires SingleMembership(db.members) && !IsMember(db, v.org, v.user)
    ensures SingleMembership(InsertMember(db, v).members)
  {}

  lemma RoleSetRows(db: Db, m: nat, role: Role)
    requires Keys(db) && References(db) && SingleMembership(db.members) && m in db.members
    ensures var d := PutMember(db, m, db.members[m].(role := role));
      Keys(d) && References(d) && SingleMembership(d.members)
  {}

  lemma RoleSet(db: Db, m: nat, role: Role)
    requires Sound(db) && m in db.members && db.members[m].role != OWNER && role != OWNER
    ensures Sound(PutMember(db, m, db.members[m].(role := role)))
  {
    RoleSetRows(db, m, role);
    SameOwners(db.orgs.Keys, db.members, PutMember(db, m, db.members[m].(role := role)).members);
  }

  lemma MemberDropped(db: Db, m: nat)
    requires Sound(db) && m in db.members && db.members[m].role != OWNER
    ensures Sound(DropMember(db, m))
  {
    SameOwners(db.orgs.Keys, db.members, DropMember(db, m).members);
  }

  lemma InvitationPut(db: Db, id: nat, v: Invitation)
    requires Sound(db) && v.org in db.orgs && Invitable(v)
    requires id == db.next || id in db.invitations
    requires InvitationsTo(db, v.org, v.email) <= {id}
    ensures Sound(PutInvitation(db, id, v))
  {
    forall i | i in db.invitations && i != id
      ensures db.invitations[i].org != v.org || db.invitations[i].email != v.email
    {
      assert i !in InvitationsTo(db, v.org, v.email);
    }
  }

  lemma InvitationDropped(db: Db, id: nat)
    requires Sound(db)
    ensures Sound(DropInvitation(db, id))
  {}

  lemma UserPut(db: Db, u: nat, v: User, next: nat)
    requires Sound(db) && u < next && db.next <= next
    requires UsersWith(db, v.email) <= {u} && UsersOf(db, v.subject) <= {u}
    ensures Sound(PutUser(db, u, v, next))
  {
    forall w | w in db.users && w != u ensures db.users[w].email != v.email && db.users[w].subject != v.subject {
      assert w !in UsersWith(db, v.email) && w !in UsersOf(db, v.subject);
    }
  }

  lemma OwnedAfterCreate(orgs: set<nat>, members: map<nat, Member>, org: nat, m: nat, owner: nat)
    requires Owned(orgs, members) && org != SEED && !HasOwner(members, org) && m !in members
    ensures Owned(orgs + {org}, members[m := Member(org, owner, OWNER)])
  {
    var members' := members[m := Member(org, owner, OWNER)];
    assert Owns(members', org, m);
    assert forall o, n :: Owns(members, o, n) ==> Owns(members', o, n);
    assert forall o, n :: Owns(members', o, n) && n != m ==> Owns(members, o, n);
    forall o | o in orgs && o != SEED ensures HasOwner(members', o) {
      var n :| Owns(members, o, n);
      assert Owns(members', o, n);
    }
  }

  lemma CreatedRows(db: Db, slug: string, owner: nat)
    requires Keys(db) && References(db) && SingleMembership(db.members) && CreateOrg(db, slug, owner).Some?
    ensures var d := CreateOrg(db, slug, owner).value; Keys(d) && References(d) && SingleMembership(d.members)
  {}

  lemma CreatedSlug(db: Db, slug: string, org: nat)
    requires SlugsDistinct(db.orgs) && slug !in Taken(db)
    ensures SlugsDistinct(db.orgs[org := slug])
  {
    forall o | o in db.orgs ensures db.orgs[o] != slug {
      assert db.orgs[o] in Taken(db);
    }
  }

  lemma NoRowsYet(db: Db)
    requires Keys(db) && References(db)
    ensures !HasOwner(db.members, db.next)
  {
    if m :| Owns(db.members, db.next, m) {
      assert false;
    }
  }

  lemma OrgCreated(db: Db, slug: string, owner: nat)
    requires Sound(db) && CreateOrg(db, slug, owner).Some?
    ensures Sound(CreateOrg(db, slug, owner).value)
  {
    CreatedRows(db, slug, owner);
    CreatedSlug(db, slug, db.next);
    CreatedOwned(db, slug, owner);
  }

  lemma CreatedOwned(db: Db, slug: string, owner: nat)
    requires Keys(db) && References(db) && Owned(db.orgs.Keys, db.members) && CreateOrg(db, slug, owner).Some?
    ensures var d := CreateOrg(db, slug, owner).value; Owned(d.orgs.Keys, d.members)
  {
    var d := CreateOrg(db, slug, owner).value;
    NoRowsYet(db);
    OwnedAfterCreate(db.orgs.Keys, db.members, db.next, db.next + 1, owner);
    assert d.orgs.Keys == db.orgs.Keys + {db.next};
  }

  lemma OwnedAfterDelete(orgs: set<nat>, members: map<nat, Member>, members': map<nat, Member>, org: nat)
    requires Owned(orgs, members) && forall o, m :: Owns(members', o, m) <==> o != org && Owns(members, o, m)
    ensures Owned(orgs - {org}, members')
  {
    forall o | o in orgs - {org} && o != SEED ensures HasOwner(members', o) {
      assert HasOwner(members, o);
      var m :| Owns(members, o, m);
      assert Owns(members', o, m);
    }
    assert !HasOwner(members, SEED);
  }

  lemma DeletedRows(db: Db, org: nat)
    requires Keys(db) && References(db)
    ensures Keys(DeleteOrg(db, org)) && References(DeleteOrg(db, org))
  {}

  lemma DeletedKeys(db: Db, org: nat)
    requires SingleMembership(db.members) && SingleInvitation(db.invitations) && SlugsDistinct(db.orgs)
    requires AllInvitable(db.invitations)
    ensures var d := DeleteOrg(db, org);
      && SingleMembership(d.members) && SingleInvitation(d.invitations) && SlugsDistinct(d.orgs)
      && AllInvitable(d.invitations)
  {}

  lemma OrgDeleted(db: Db, org: nat)
    requires Sound(db)
    ensures Sound(DeleteOrg(db, org))
  {
    var d := DeleteOrg(db, org);
    DeletedRows(db, org);
    DeletedKeys(db, org);
    OwnedAfterDelete(db.orgs.Keys, db.members, d.members, org);
    assert d.orgs.Keys == db.orgs.Keys - {org};
  }

  // ---- invitations accepted by a new user ----

  lemma Accepted(db: Db, user: nat, id: nat)
    requires Sound(db) && id in db.invitations && user in db.users
    ensures Sound(Accept(db, user, id))
  {
    var v := db.invitations[id];
    if !IsMember(db, v.org, user) {
      MemberInserted(db, Member(v.org, user, v.role));
      InvitationDropped(InsertMember(db, Member(v.org, user, v.role)), id);
    } else {
      InvitationDropped(db, id);
    }
  }

  predicate FromInvitation(v: Member, user: nat, w: Invitation) {
    v == Member(w.org, user, w.role)
  }

  ghost predicate KeepsMembers(db: Db, d: Db) {
    forall m :: m in db.members ==> m in d.members && d.members[m] == db.members[m]
  }

  /** What accepting invitations does: old rows stay, new ones are the user's and come from the listed invitations. */
  ghost predicate Joins(db: Db, d: Db, user: nat, order: seq<nat>) {
    && d.users == db.users && d.orgs == db.orgs && db.next <= d.next
    && d.invitations == db.invitations - (set i | i in order)
    && KeepsMembers(db, d)
    && (forall m :: m in d.members && m !in db.members ==>
          exists i :: i in order && i in db.invitations && FromInvitation(d.members[m], user, db.invitations[i]))
    && (forall i :: i in order && i in db.invitations ==> IsMember(d, db.invitations[i].org, user))
  }

  lemma JoinsOne(db: Db, user: nat, id: nat)
    requires Keys(db) && id in db.invitations
    ensures Joins(db, Accept(db, user, id), user, [id])
  {
    assert (set i | i in [id]) == {id};
    var v, d := db.invitations[id], Accept(db, user, id);
    assert id in [id];
    if IsMember(db, v.org, user) {
      var m :| m in db.members && db.members[m].org == v.org && db.members[m].user == user;
      assert m in d.members;
    } else {
      assert db.next in d.members && FromInvitation(d.members[db.next], user, v);
    }
  }

  lemma JoinsTrans(a: Db, b: Db, c: Db, user: nat, id: nat, order: seq<nat>)
    requires Joins(a, b, user, [id]) && Joins(b, c, user, order)
    ensures Joins(a, c, user, [id] + order)
  {
    var all := [id] + order;
    assert (set i | i in all) == (set i | i in [id]) + (set i | i in order);
    forall m | m in c.members && m !in a.members
      ensures exists i :: i in all && i in a.invitations && FromInvitation(c.members[m], user, a.invitations[i])
    {
      if m in b.members {
        var i :| i in [id] && i in a.invitations && FromInvitation(b.members[m], user, a.invitations[i]);
        assert i in all;
      } else {
        var i :| i in order && i in b.invitations && FromInvitation(c.members[m], user, b.invitations[i]);
        assert i in all && i in a.invitations;
      }
    }
    forall i | i in all && i in a.invitations ensures IsMember(c, a.invitations[i].org, user) {
      if i == id {
        assert i in [id];
        var m :| m in b.members && b.members[m].org == a.invitations[i].org && b.members[m].user == user;
        assert m in c.members;
      } else {
        assert i in order && i in b.invitations;
      }
    }
  }

  lemma JoinsNone(db: Db, user: nat, order: seq<nat>)
    requires forall i :: i in order ==> i !in db.invitations
    ensures Joins(db, db, user, order)
  {
    assert db.invitations - (set i | i in order) == db.invitations;
  }

  lemma {:induction false} JoinsAll(db: Db, user: nat, order: seq<nat>)
    requires Keys(db)
    ensures Joins(db, AcceptAll(db, user, order), user, order)
    decreases |order|
  {
    if order == [] {
      JoinsNone(db, user, order);
    } else {
      var id := order[0];
      var d := if id in db.invitations then Accept(db, user, id) else db;
      if id in db.invitations {
        JoinsOne(db, user, id);
      } else {
        JoinsNone(db, user, [id]);
      }
      JoinsAll(d, user, order[1..]);
      JoinsTrans(db, d, AcceptAll(d, user, order[1..]), user, id, order[1..]);
      assert order == [id] + order[1..];
    }
  }

  lemma {:induction false} AcceptedAll(db: Db, user: nat, order: seq<nat>)
    requires Sound(db) && user in db.users
    ensures Sound(AcceptAll(db, user, order))
    decreases |order|
  {
    if order != [] {
      var id := order[0];
      if id in db.invitations {
        Accepted(db, user, id);
        AcceptedAll(Accept(db, user, id), user, order[1..]);
      } else {
        AcceptedAll(db, user, order[1..]);
      }
    }
  }

  lemma RoleGiven(db: Db, d: Db, user: nat, order: seq<nat>, i: nat)
    requires SingleInvitation(db.invitations) && Joins(db, d, user, order)
    requires i in order && i in db.invitations && !IsMember(db, db.invitations[i].org, user)
    requires forall j :: j in order && j in db.invitations ==> db.invitations[j].email == db.invitations[i].email
    ensures exists m :: m in d.members && FromInvitation(d.members[m], user, db.invitations[i])
  {
    var m :| m in d.members && d.members[m].org == db.invitations[i].org && d.members[m].user == user;
    assert m !in db.members;
    var j :| j in order && j in db.invitations && FromInvitation(d.members[m], user, db.invitations[j]);
    assert j == i;
  }

  /** An invited organisation the user was not in gets them with the role of its invitation; no other does. */
  ghost predicate JoinedAsInvited(db: Db, d: Db, user: nat, invited: set<nat>)
    requires invited <= db.invitations.Keys
  {
    && (forall i :: i in invited && !IsMember(db, db.invitations[i].org, user) ==>
          exists m :: m in d.members && FromInvitation(d.members[m], user, db.invitations[i]))
    && (forall m :: m in d.members && m !in db.members ==>
          exists i :: i in invited && FromInvitation(d.members[m], user, db.invitations[i]))
  }

  lemma JoinedExactly(db: Db, d: Db, user: nat, order: seq<nat>, email: string)
    requires SingleInvitation(db.invitations) && Joins(db, d, user, order)
    requires forall i :: i in order <==> i in InvitationsFor(db, email)
    ensures JoinedAsInvited(db, d, user, InvitationsFor(db, email))
  {
    var invited := InvitationsFor(db, email);
    forall i | i in invited && !IsMember(db, db.invitations[i].org, user)
      ensures exists m :: m in d.members && FromInvitation(d.members[m], user, db.invitations[i])
    {
      assert i in order;
      RoleGiven(db, d, user, order, i);
    }
    NewRows(db, d, user, order, invited);
  }

  lemma ListedInvitations(db: Db, user: nat, order: seq<nat>)
    requires AllInvitable(db.invitations) && user in db.users && Resolves(db, user, order)
    ensures forall i :: i in order <==> i in InvitationsFor(db, Normalize(db.users[user].email))
  {
    BlankInvitesNone(db);
  }

  /** Resolving leaves no invitation for the email, none other changed, and every existing membership as it was. */
  lemma ResolvedExactly(db: Db, user: nat, order: seq<nat>)
    requires Keys(db) && SingleInvitation(db.invitations) && AllInvitable(db.invitations)
    requires user in db.users && Resolves(db, user, order)
    ensures var d, invited := AcceptAll(db, user, order), InvitationsFor(db, Normalize(db.users[user].email));
      && d.invitations == db.invitations - invited
      && KeepsMembers(db, d)
      && JoinedAsInvited(db, d, user, invited)
  {
    var d, email := AcceptAll(db, user, order), Normalize(db.users[user].email);
    JoinsAll(db, user, order);
    ListedInvitations(db, user, order);
    ListedSet(order, InvitationsFor(db, email));
    assert JoinedAsInvited(db, d, user, InvitationsFor(db, email)) by {
      JoinedExactly(db, d, user, order, email);
    }
    KeptRows(db, d, user, order);
  }

  lemma ListedSet(order: seq<nat>, ids: set<nat>)
    requires forall i :: i in order <==> i in ids
    ensures (set i | i in order) == ids
  {}

  lemma KeptRows(db: Db, d: Db, user: nat, order: seq<nat>)
    requires Joins(db, d, user, order)
    ensures d.invitations == db.invitations - (set i | i in order)
    ensures KeepsMembers(db, d)
  {}

  lemma BlankInvitesNone(db: Db)
    requires AllInvitable(db.invitations)
    ensures InvitationsFor(db, "") == {}
  {}

  lemma NewRows(db: Db, d: Db, user: nat, order: seq<nat>, invited: set<nat>)
    requires Joins(db, d, user, order) && invited <= db.invitations.Keys && forall i :: i in order <==> i in invited
    ensures forall m :: m in d.members && m !in db.members ==>
      exists i :: i in invited && FromInvitation(d.members[m], user, db.invitations[i])
  {}
}
