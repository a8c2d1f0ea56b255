/** Organisations, members and invitations as tables; an operation that throws leaves them as they were. */
module OrganizationTables {
  import opened Prelude
  import opened Slugs

  datatype Role = OWNER | ADMIN | OPERATOR | VIEWER

  datatype User = User(subject: string, email: string)
  datatype Member = Member(org: nat, user: nat, role: Role)
  datatype Invitation = Invitation(org: nat, email: string, role: Role)

  /** Rows by id; ids are drawn from one counter. Of an organisation only the slug matters here. */
  datatype Db = Db(users: map<nat, User>, orgs: map<nat, string>, members: map<nat, Member>,
                   invitations: map<nat, Invitation>, next: nat)

  /** The organisation that a migration inserts without any member. */
  const SEED: nat := 1

  function Installed(): Db {
    Db(map[], map[SEED := "default"], map[], map[], 2)
  }

  function Taken(db: Db): set<string> {
    set o | o in db.orgs :: db.orgs[o]
  }

  predicate IsMember(db: Db, org: nat, user: nat) {
    exists m :: m in db.members && db.members[m].org == org && db.members[m].user == user
  }

  function UsersWith(db: Db, email: string): set<nat> {
    set u | u in db.users && db.users[u].email == email
  }

  function UsersOf(db: Db, subject: string): set<nat> {
    set u | u in db.users && db.users[u].subject == subject
  }

  function InvitationsTo(db: Db, org: nat, email: string): set<nat> {
    set i | i in db.invitations && db.invitations[i].org == org && db.invitations[i].email == email
  }

  function InvitationsFor(db: Db, email: string): set<nat> {
    set i | i in db.invitations && db.invitations[i].email == email
  }

  // ---- operations ----

  function CreateOrg(db: Db, slug: string, owner: nat): Option<Db> {
    if slug in Taken(db) || owner !in db.users then None
    else Some(db.(orgs := db.orgs[db.next := slug], members := db.members[db.next + 1 := Member(db.next, owner, OWNER)],
                  next := db.next + 2))
  }

  function MembersOf(db: Db, org: nat): set<nat> {
    set m | m in db.members && db.members[m].org == org
  }

  function InvitationsOf(db: Db, org: nat): set<nat> {
    set i | i in db.invitations && db.invitations[i].org == org
  }

  /** The foreign keys take members and invitations along. */
  function DeleteOrg(db: Db, org: nat): Db {
    db.(orgs := db.orgs - {org}, members := db.members - MembersOf(db, org),
        invitations := db.invitations - InvitationsOf(db, org))
  }

  /** The rules on roles and duplicates, then the foreign keys. */
  function AddMember(db: Db, org: nat, user: nat, role: Role): Option<Db> {
    if role == OWNER || IsMember(db, org, user) || org !in db.orgs || user !in db.users then None
    else Some(db.(members := db.members[db.next := Member(org, user, role)], next := db.next + 1))
  }

  function UpdateRole(db: Db, member: nat, org: nat, role: Role): Option<Db> {
    if role == OWNER || member !in db.members || db.members[member].org != org || db.members[member].role == OWNER then
      None
    else Some(db.(members := db.members[member := db.members[member].(role := role)]))
  }

  function RemoveMember(db: Db, member: nat, org: nat): Option<Db> {
    if member !in db.members || db.members[member].org != org || db.members[member].role == OWNER then None
    else Some(db.(members := db.members - {member}))
  }

  /** The one row that a unique key allows in a set. */
  ghost function The(s: set<nat>): Option<nat> {
    if s == {} then None else var x :| x in s; Some(x)
  }

  function PutInvitation(db: Db, id: nat, v: Invitation): Db {
    db.(invitations := db.invitations[id := v], next := if id == db.next then db.next + 1 else db.next)
  }

  /** Users are looked up by the normalised email, although they are stored with the raw one. */
  ghost function Invite(db: Db, org: nat, raw: string, role: Role): Option<Db> {
    var email := Normalize(raw);
    if role == OWNER || email == "" then None
    else
      match The(UsersWith(db, email))
      case Some(u) => AddMember(db, org, u, role)
      case None =>
        match The(InvitationsTo(db, org, email))
        case Some(i) => Some(PutInvitation(db, i, db.invitations[i].(role := role)))
        case None => if org !in db.orgs then None else Some(PutInvitation(db, db.next, Invitation(org, email, role)))
  }

  function RevokeInvitation(db: Db, id: nat, org: nat): Option<Db> {
    if id !in db.invitations || db.invitations[id].org != org then None
    else Some(db.(invitations := db.invitations - {id}))
  }

  /** Turning one invitation into a membership, unless there is one already; it is deleted either way. */
  function Accept(db: Db, user: nat, id: nat): Db
    requires id in db.invitations
  {
    var v := db.invitations[id];
    var joined :=
      if IsMember(db, v.org, user) then db
      else db.(members := db.members[db.next := Member(v.org, user, v.role)], next := db.next + 1);
    joined.(invitations := joined.invitations - {id})
  }

  /** A listing of a set of ids, each once. */
  ghost predicate Lists(order: seq<nat>, ids: set<nat>) {
    && (forall i :: 0 <= i < |order| ==> order[i] in ids)
    && (forall i, j :: 0 <= i < j < |order| ==> order[i] != order[j])
    && (forall id :: id in ids ==> id in order)
  }

  /** Accepting invitations in the order in which the query lists them. */
  function AcceptAll(db: Db, user: nat, order: seq<nat>): Db
    decreases |order|
  {
    if order == [] then db
    else AcceptAll(if order[0] in db.invitations then Accept(db, user, order[0]) else db, user, order[1..])
  }

  /** Nothing is looked up for an email that is blank. */
  ghost predicate Resolves(db: Db, user: nat, order: seq<nat>)
    requires user in db.users
  {
    var email := Normalize(db.users[user].email);
    Lists(order, if email == "" then {} else InvitationsFor(db, email))
  }

  function Personal(db: Db, user: nat): Option<Db>
    requires user in db.users
  {
    match Base(db.users[user].email)
    case None => None
    case Some(base) => CreateOrg(db, Candidate(base, Search(base, Taken(db), 0)), user)
  }

  function PutUser(db: Db, u: nat, v: User, next: nat): Db {
    db.(users := db.users[u := v], next := next)
  }

  /** A new user with a personal organisation. */
  function WithHome(db: Db, v: User): Option<Db> {
    if UsersWith(db, v.email) != {} || UsersOf(db, v.subject) != {} then None
    else Personal(PutUser(db, db.next, v, db.next + 1), db.next)
  }

  /** A first login: the user row, the personal organisation, then the invitations if the email is verified. */
  function Register(db: Db, v: User, verified: bool, order: seq<nat>): Option<Db> {
    match WithHome(db, v)
    case None => None
    case Some(d) => Some(if verified then AcceptAll(d, db.next, order) else d)
  }

  /** A login updates the email or the subject of a known user; both are unique. */
  function Rebind(db: Db, user: nat, subject: string, email: string): Option<Db> {
    if user !in db.users || !(UsersWith(db, email) <= {user}) || !(UsersOf(db, subject) <= {user}) then None
    else Some(db.(users := db.users[user := User(subject, email)]))
  }

  // ---- what every state keeps ----

  predicate Keys(db: Db) {
    && (forall u :: u in db.users ==> u < db.next)
    && (forall o :: o in db.orgs ==> o < db.next)
    && (forall m :: m in db.members ==> m < db.next)
    && (forall i :: i in db.invitations ==> i < db.next)
    && SEED < db.next
  }

  predicate References(db: Db) {
    && (forall m :: m in db.members ==> db.members[m].org in db.orgs && db.members[m].user in db.users)
    && (forall i :: i in db.invitations ==> db.invitations[i].org in db.orgs)
  }

  /** No two memberships of one user in one organisation. */
  predicate SingleMembership(members: map<nat, Member>) {
    forall m, n :: m in members && n in members && m != n ==>
      members[m].org != members[n].org || members[m].user != members[n].user
  }

  predicate SingleInvitation(invitations: map<nat, Invitation>) {
    forall i, j :: i in invitations && j in invitations && i != j ==>
      invitations[i].org != invitations[j].org || invitations[i].email != invitations[j].email
  }

  predicate SlugsDistinct(orgs: map<nat, string>) {
    forall o, p :: o in orgs && p in orgs && o != p ==> orgs[o] != orgs[p]
  }

  predicate UsersDistinct(users: map<nat, User>) {
    forall u, v :: u in users && v in users && u != v ==>
      users[u].email != users[v].email && users[u].subject != users[v].subject
  }

  /** Pending invitations never carry OWNER, and their emails are normalised. */
  predicate Invitable(v: Invitation) {
    v.role != OWNER && v.email != "" && Normalized(v.email)
  }

  predicate AllInvitable(invitations: map<nat, Invitation>) {
    forall i :: i in invitations ==> Invitable(invitations[i])
  }

  predicate Owns(members: map<nat, Member>, org: nat, m: nat) {
    m in members && members[m].org == org && members[m].role == OWNER
  }

  ghost predicate HasOwner(members: map<nat, Member>, org: nat) {
    exists m :: Owns(members, org, m)
  }

  /** Every organisation but the seeded one has exactly one OWNER; the seeded one has none. */
  ghost predicate Owned(orgs: set<nat>, members: map<nat, Member>) {
    && (forall o, m, n :: Owns(members, o, m) && Owns(members, o, n) ==> m == n)
    && (forall o :: o in orgs && o != SEED ==> HasOwner(members, o))
    && !HasOwner(members, SEED)
  }

  ghost predicate Sound(db: Db) {
    && Keys(db) && References(db) && SingleMembership(db.members) && SingleInvitation(db.invitations)
    && SlugsDistinct(db.orgs) && UsersDistinct(db.users) && AllInvitable(db.invitations)
    && Owned(db.orgs.Keys, db.members)
  }
}
