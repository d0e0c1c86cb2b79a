/** The user administration routes (users.js): role- and hospital-scoped
    listing and reading, account creation and editing by an ADMIN or a
    SUPERADMIN, soft and hard deletion, the partner approval decisions, and
    the transfer of a departing admin's hospital data to another admin. */
module Users {
  import opened Domain
  import opened Seqs
  import opened Store
  import opened Auth

  // ---------------------------------------------------------------------
  // GET /:id

  /** `GET /:id` (lines 37-57): 404 for a missing or deactivated user, 403 for
      a user of another hospital unless the actor is a SUPERADMIN. */
  function GetUser(t: Tables, actor: User, id: Id): (r: Outcome<User>)
    ensures r == Err(NotFound) <==> FindUser(t.users, id).None? || !FindUser(t.users, id).value.isActive
    ensures r == Err(Forbidden) <==>
      && FindUser(t.users, id).Some? && FindUser(t.users, id).value.isActive
      && actor.role != SuperAdmin && actor.hospitalId != FindUser(t.users, id).value.hospitalId
    ensures r.Ok? <==>
      && FindUser(t.users, id).Some? && FindUser(t.users, id).value.isActive
      && (actor.role == SuperAdmin || actor.hospitalId == FindUser(t.users, id).value.hospitalId)
    ensures r.Ok? ==> r == Ok(FindUser(t.users, id).value)
    ensures r.Ok? ==> r.value in t.users && r.value.id == id && r.value.isActive
    ensures r.Ok? && actor.role != SuperAdmin ==> r.value.hospitalId == actor.hospitalId
  {
    match FindUser(t.users, id)
    case None => Err(NotFound)
    case Some(user) =>
      if !user.isActive then Err(NotFound)
      else if actor.role != SuperAdmin && actor.hospitalId != user.hospitalId then Err(Forbidden)
      else Ok(user)
  }

  // ---------------------------------------------------------------------
  // GET /

  /** The query string of `GET /`: `hospitalId` absent is `None`, the text
      `null` is `Some(None)`, a hospital id `h` is `Some(Some(h))`. */
  datatype UserQuery = UserQuery(role: Option<Role>, hospitalId: Option<Option<Id>>, status: Option<UserStatus>)

  /** A Prisma `where` over users; an absent field does not constrain. */
  datatype UserWhere = UserWhere(hospitalId: Option<Option<Id>>, role: Option<Role>, status: Option<UserStatus>, activeOnly: bool)

  predicate Matches(w: UserWhere, u: User) {
    && (w.hospitalId.Some? ==> u.hospitalId == w.hospitalId.value)
    && (w.role.Some? ==> u.role == w.role.value)
    && (w.status.Some? ==> u.status == w.status.value)
    && (w.activeOnly ==> u.isActive)
  }

  /** The one query that also shows deactivated accounts: a SUPERADMIN asking
      for the ONBOARDING users without a hospital. */
  predicate PendingPartnersQuery(actor: User, q: UserQuery) {
    actor.role == SuperAdmin && q.hospitalId == Some(None) && q.status == Some(Onboarding)
  }

  /** Which users `GET /` shows: a non-SUPERADMIN only the users of its own
      hospital (of none, when it has none); a SUPERADMIN those of the hospital
      it names, or everyone; the requested role and status; and only active
      accounts, except for the pending-partners query. */
  ghost predicate Visible(actor: User, q: UserQuery, u: User) {
    && (actor.role != SuperAdmin ==> u.hospitalId == actor.hospitalId)
    && (actor.role == SuperAdmin && q.hospitalId.Some? ==> u.hospitalId == q.hospitalId.value)
    && (q.role.Some? ==> u.role == q.role.value)
    && (q.status.Some? ==> u.status == q.status.value)
    && (!PendingPartnersQuery(actor, q) ==> u.isActive)
  }

  /** `GET /` (lines 60-110), in table order. */
  method ListUsers(db: Db, actor: User, q: UserQuery) returns (users: seq<User>)
    ensures users == Filter(db.users, (u: User) => Visible(actor, q, u))
  {
    var where := UserWhere(None, None, None, false);
    if actor.role != SuperAdmin {
      where := where.(hospitalId := Some(actor.hospitalId));
    } else if q.hospitalId.Some? {
      where := where.(hospitalId := q.hospitalId);
    }
    if q.role.Some? {
      where := where.(role := q.role);
    }
    if q.status.Some? {
      where := where.(status := q.status);
    }
    if !(actor.role == SuperAdmin && q.hospitalId == Some(None) && q.status == Some(Onboarding)) {
      where := where.(activeOnly := true);
    }
    FilterSame(db.users, (u: User) => Matches(where, u), (u: User) => Visible(actor, q, u));
    users := Filter(db.users, (u: User) => Matches(where, u));
  }

  /** Outside the pending-partners query only active accounts are listed, and
      a non-SUPERADMIN sees only its own hospital. */
  lemma ListedUsersInScope(users: seq<User>, actor: User, q: UserQuery, u: User)
    requires u in Filter(users, (v: User) => Visible(actor, q, v))
    ensures u in users
    ensures !PendingPartnersQuery(actor, q) ==> u.isActive
    ensures actor.role != SuperAdmin ==> u.hospitalId == actor.hospitalId
  {
  }

  /** The pending-partners query lists every ONBOARDING user without a
      hospital, active or not (of the requested role). */
  lemma PendingPartnersListed(actor: User, q: UserQuery, u: User)
    requires PendingPartnersQuery(actor, q)
    ensures Visible(actor, q, u) <==>
      u.hospitalId.None? && u.status == Onboarding && (q.role.Some? ==> u.role == q.role.value)
  {
  }

  // ---------------------------------------------------------------------
  // POST /

  /** The fields of `POST /` the model keeps. */
  datatype NewUser = NewUser(
    email: string,
    firstName: string,
    lastName: string,
    role: Role,
    hospitalId: Option<Id>,
    phone: Option<string>)

  /** The database's column defaults, which apply to `isActive` and `status`
      when the new account is a SUPERADMIN's. */
  datatype AccountDefaults = AccountDefaults(isActive: bool, status: UserStatus)

  /** PARTNER and SALES_PERSON accounts need a phone of exactly ten digits. */
  predicate PhoneAccepted(role: Option<Role>, phone: Option<string>) {
    (role == Some(Partner) || role == Some(SalesPerson)) ==> phone.Some? && TenDigits(phone.value)
  }

  ghost predicate EmailTaken(users: seq<User>, email: string) {
    exists k :: 0 <= k < |users| && users[k].email == email
  }

  function EmailIndex(users: seq<User>, email: string): (i: int)
    ensures i >= 0 <==> EmailTaken(users, email)
  {
    FirstIndex(users, (u: User) => u.email == email)
  }

  /** `email` is the table's unique key. */
  ghost predicate UniqueEmails(users: seq<User>) {
    forall i, j :: 0 <= i < j < |users| ==> users[i].email != users[j].email
  }

  /** `POST /` behind `checkRole('SUPERADMIN', 'ADMIN')` (lines 113-173). */
  function CreateUser(t: Tables, actor: User, input: NewUser, defaults: AccountDefaults): (r: (Tables, Outcome<User>))
    ensures r.1 == Err(Forbidden) <==> actor.role !in {SuperAdmin, Admin}
    ensures r.1 == Err(BadRequest) <==>
      actor.role in {SuperAdmin, Admin} && (!PhoneAccepted(Some(input.role), input.phone) || EmailTaken(t.users, input.email))
    ensures r.1.Err? ==> r.0 == t
    ensures r.1.Ok? <==>
      actor.role in {SuperAdmin, Admin} && PhoneAccepted(Some(input.role), input.phone) && !EmailTaken(t.users, input.email)
    ensures r.1.Ok? ==>
      var u := r.1.value;
      && r.0 == t.(users := t.users + [u], tick := t.tick + 1)
      && u.id == u.createdAt == t.tick
      && u.email == input.email && u.firstName == input.firstName && u.lastName == input.lastName
      && u.role == input.role && u.phone == input.phone
      && u.hospitalId == (if actor.role == SuperAdmin then input.hospitalId else actor.hospitalId)
      && (input.role != SuperAdmin ==> u.isActive && u.status == Active)
      && (input.role == SuperAdmin ==> u.isActive == defaults.isActive && u.status == defaults.status)
  {
    if !Permits([SuperAdmin, Admin], actor) then (t, Err(Forbidden))
    else if !PhoneAccepted(Some(input.role), input.phone) then (t, Err(BadRequest))
    else if EmailIndex(t.users, input.email) >= 0 then (t, Err(BadRequest))
    else
      var staff := input.role in {Partner, SalesPerson, Admin};
      var u := User(t.tick, input.email, input.firstName, input.lastName, input.role,
                    if actor.role == SuperAdmin then input.hospitalId else actor.hospitalId,
                    if staff then true else defaults.isActive, if staff then Active else defaults.status,
                    input.phone, t.tick);
      (t.(users := t.users + [u], tick := t.tick + 1), Ok(u))
  }

  /** No two accounts ever share an email. */
  lemma CreateKeepsUniqueEmails(t: Tables, actor: User, input: NewUser, defaults: AccountDefaults)
    requires UniqueEmails(t.users)
    ensures UniqueEmails(CreateUser(t, actor, input, defaults).0.users)
  {
  }

  /** An ADMIN creates accounts in its own hospital only, whatever hospital
      the request names; it may create any role, a SUPERADMIN included. */
  lemma AdminCreatesInOwnHospital(t: Tables, actor: User, input: NewUser, defaults: AccountDefaults)
    requires actor.role == Admin && !EmailTaken(t.users, input.email) && input.role == SuperAdmin
    ensures CreateUser(t, actor, input, defaults).1.Ok?
    ensures CreateUser(t, actor, input, defaults).1.value.hospitalId == actor.hospitalId
    ensures CreateUser(t, actor, input, defaults).1.value.role == SuperAdmin
  {
  }

  lemma CreateUserKeepsValid(t: Tables, actor: User, input: NewUser, defaults: AccountDefaults)
    requires Valid(t)
    ensures Valid(CreateUser(t, actor, input, defaults).0)
  {
    var r := CreateUser(t, actor, input, defaults);
    if r.1.Ok? {
      AppendChrono(t.users, r.1.value, UserId, UserStamp, t.tick, t.tick + 1);
      ChronoLater(t.hospitals, HospitalId, HospitalStamp, t.tick, t.tick + 1);
      ChronoLater(t.leads, LeadId, LeadStamp, t.tick, t.tick + 1);
      ChronoLater(t.documents, DocumentId, DocumentId, t.tick, t.tick + 1);
      ChronoLater(t.remarks, RemarkId, RemarkStamp, t.tick, t.tick + 1);
      ChronoLater(t.rates, RateId, RateId, t.tick, t.tick + 1);
    }
  }

  /** The handler of `POST /`. */
  method HandleCreateUser(db: Db, actor: User, input: NewUser, defaults: AccountDefaults) returns (r: Outcome<User>)
    modifies db
    ensures (db.Snapshot(), r) == CreateUser(old(db.Snapshot()), actor, input, defaults)
  {
    if actor.role != SuperAdmin && actor.role != Admin {
      return Err(Forbidden);
    }
    if (input.role == Partner || input.role == SalesPerson) && (input.phone.None? || !TenDigits(input.phone.value)) {
      return Err(BadRequest);
    }
    var existing := EmailIndex(db.users, input.email);
    if existing >= 0 {
      return Err(BadRequest);
    }
    var hospitalId := if actor.role == SuperAdmin then input.hospitalId else actor.hospitalId;
    var isActive, status := defaults.isActive, defaults.status;
    if input.role == Partner || input.role == SalesPerson || input.role == Admin {
      isActive, status := true, Active;
    }
    var u := User(db.tick, input.email, input.firstName, input.lastName, input.role, hospitalId, isActive, status,
                  input.phone, db.tick);
    db.users, db.tick := db.users + [u], db.tick + 1;
    r := Ok(u);
  }

  // ---------------------------------------------------------------------
  // PUT /:id

  /** The fields of `PUT /:id` the model keeps; `None` is a field the request
      leaves out, which the update does not touch. `hospitalId` may be set
      to `null`, which is `Some(None)`. */
  datatype UserPatch = UserPatch(
    firstName: Option<string>,
    lastName: Option<string>,
    role: Option<Role>,
    hospitalId: Option<Option<Id>>,
    isActive: Option<bool>,
    phone: Option<string>)

  /** The row after the update: role and hospital come from the request only
      for a SUPERADMIN. */
  function Edited(u: User, patch: UserPatch, bySuperAdmin: bool): User {
    u.(firstName := patch.firstName.GetOr(u.firstName),
       lastName := patch.lastName.GetOr(u.lastName),
       role := if bySuperAdmin then patch.role.GetOr(u.role) else u.role,
       hospitalId := if bySuperAdmin then patch.hospitalId.GetOr(u.hospitalId) else u.hospitalId,
       isActive := patch.isActive.GetOr(u.isActive),
       phone := if patch.phone.Some? then patch.phone else u.phone)
  }

  /** `PUT /:id` behind `checkRole('SUPERADMIN', 'ADMIN')` (lines 200-262):
      the phone rule applies to the role the request sends, before the user is
      looked up; a non-SUPERADMIN may edit users of its own hospital only. */
  function UpdateUser(t: Tables, actor: User, id: Id, patch: UserPatch): (r: (Tables, Outcome<User>))
    ensures actor.role !in {SuperAdmin, Admin} ==> r.1 == Err(Forbidden)
    ensures actor.role in {SuperAdmin, Admin} && !PhoneAccepted(patch.role, patch.phone) ==> r.1 == Err(BadRequest)
    ensures r.1 == Err(NotFound) <==>
      actor.role in {SuperAdmin, Admin} && PhoneAccepted(patch.role, patch.phone) && FindUser(t.users, id).None?
    ensures (actor.role == Admin && PhoneAccepted(patch.role, patch.phone) && FindUser(t.users, id).Some? &&
             FindUser(t.users, id).value.hospitalId != actor.hospitalId) ==> r.1 == Err(Forbidden)
    ensures r.1.Err? ==> r.0 == t
    ensures r.1.Ok? <==>
      && actor.role in {SuperAdmin, Admin} && PhoneAccepted(patch.role, patch.phone) && FindUser(t.users, id).Some?
      && (actor.role == SuperAdmin || FindUser(t.users, id).value.hospitalId == actor.hospitalId)
    ensures r.1.Ok? ==>
      var before := FindUser(t.users, id).value;
      && PhoneAccepted(patch.role, patch.phone)
      && (actor.role == SuperAdmin || before.hospitalId == actor.hospitalId)
      && r.1.value == Edited(before, patch, actor.role == SuperAdmin)
      && r.0 == t.(users := t.users[UserIndex(t.users, id) := r.1.value])
  {
    if !Permits([SuperAdmin, Admin], actor) then (t, Err(Forbidden))
    else if !PhoneAccepted(patch.role, patch.phone) then (t, Err(BadRequest))
    else
      match FindUser(t.users, id)
      case None => (t, Err(NotFound))
      case Some(before) =>
        if actor.role != SuperAdmin && actor.hospitalId != before.hospitalId then (t, Err(Forbidden))
        else
          var after := Edited(before, patch, actor.role == SuperAdmin);
          (t.(users := t.users[UserIndex(t.users, id) := after]), Ok(after))
  }

  /** An ADMIN's edit never changes a user's role, hospital, email or
      account status, and never reaches another hospital's user. */
  lemma AdminEditKeepsRoleAndHospital(t: Tables, actor: User, id: Id, patch: UserPatch)
    requires actor.role == Admin && UpdateUser(t, actor, id, patch).1.Ok?
    ensures var before, after := FindUser(t.users, id).value, UpdateUser(t, actor, id, patch).1.value;
      && after.id == before.id && after.role == before.role && after.hospitalId == before.hospitalId == actor.hospitalId
      && after.email == before.email && after.status == before.status && after.createdAt == before.createdAt
  {
  }

  /** The phone rule is checked against the role sent, so an edit that sends
      no role passes it whatever the phone. */
  lemma PhoneRuleNeedsRoleInRequest(patch: UserPatch)
    requires patch.role.None?
    ensures PhoneAccepted(patch.role, patch.phone)
  {
  }

  lemma UpdateUserKeepsValid(t: Tables, actor: User, id: Id, patch: UserPatch)
    requires Valid(t) && UniqueEmails(t.users)
    ensures Valid(UpdateUser(t, actor, id, patch).0) && UniqueEmails(UpdateUser(t, actor, id, patch).0.users)
  {
    var r := UpdateUser(t, actor, id, patch);
    if r.1.Ok? {
      ReplaceChrono(t.users, UserIndex(t.users, id), r.1.value, UserId, UserStamp, t.tick);
    }
  }

  /** The handler of `PUT /:id`. */
  method HandleUpdateUser(db: Db, actor: User, id: Id, patch: UserPatch) returns (r: Outcome<User>)
    modifies db
    ensures (db.Snapshot(), r) == UpdateUser(old(db.Snapshot()), actor, id, patch)
  {
    if actor.role != SuperAdmin && actor.role != Admin {
      return Err(Forbidden);
    }
    if (patch.role == Some(Partner) || patch.role == Some(SalesPerson)) && (patch.phone.None? || !TenDigits(patch.phone.value)) {
      return Err(BadRequest);
    }
    var i := UserIndex(db.users, id);
    if i < 0 {
      return Err(NotFound);
    }
    var before := db.users[i];
    if actor.role != SuperAdmin && actor.hospitalId != before.hospitalId {
      return Err(Forbidden);
    }
    var after := Edited(before, patch, actor.role == SuperAdmin);
    db.users := db.users[i := after];
    r := Ok(after);
  }

  // ---------------------------------------------------------------------
  // DELETE /:id

  datatype Deletion = Removed | Deactivated

  /** `DELETE /:id` behind `checkRole('SUPERADMIN', 'ADMIN')` (lines 265-298):
      a SUPERADMIN removes the row, an ADMIN only deactivates a user of its
      own hospital. */
  function DeleteUser(t: Tables, actor: User, id: Id): (r: (Tables, Outcome<Deletion>))
    ensures r.1 == Err(Forbidden) <==>
      actor.role !in {SuperAdmin, Admin} ||
      (actor.role == Admin && FindUser(t.users, id).Some? && FindUser(t.users, id).value.hospitalId != actor.hospitalId)
    ensures r.1 == Err(NotFound) <==> actor.role in {SuperAdmin, Admin} && FindUser(t.users, id).None?
    ensures r.1.Err? ==> r.0 == t
    ensures r.1 == Ok(Removed) <==> actor.role == SuperAdmin && FindUser(t.users, id).Some?
    ensures r.1 == Ok(Removed) ==> r.0 == t.(users := Filter(t.users, (u: User) => u.id != id))
    ensures r.1 == Ok(Deactivated) <==>
      actor.role == Admin && FindUser(t.users, id).Some? && FindUser(t.users, id).value.hospitalId == actor.hospitalId
    ensures r.1 == Ok(Deactivated) ==>
      var i := UserIndex(t.users, id);
      && actor.role == Admin && t.users[i].hospitalId == actor.hospitalId
      && r.0 == t.(users := t.users[i := t.users[i].(isActive := false)])
  {
    if !Permits([SuperAdmin, Admin], actor) then (t, Err(Forbidden))
    else
      var i := UserIndex(t.users, id);
      if i < 0 then (t, Err(NotFound))
      else if actor.role == Admin && actor.hospitalId != t.users[i].hospitalId then (t, Err(Forbidden))
      else if actor.role == SuperAdmin then (t.(users := Filter(t.users, (u: User) => u.id != id)), Ok(Removed))
      else (t.(users := t.users[i := t.users[i].(isActive := false)]), Ok(Deactivated))
  }

  /** A deleted user, removed or deactivated, can no longer authenticate with
      any token. */
  lemma DeletedUserLockedOut(t: Tables, actor: User, id: Id, header: Option<string>, keyring: map<string, Id>)
    requires Valid(t) && DeleteUser(t, actor, id).1.Ok?
    requires header.Some? && Token(header.value) in keyring && keyring[Token(header.value)] == id
    ensures Authenticate(header, keyring, DeleteUser(t, actor, id).0.users) == Err(Unauthorized)
  {
    var r := DeleteUser(t, actor, id);
    var i := UserIndex(t.users, id);
    if r.1 == Ok(Deactivated) {
      ReplaceChrono(t.users, i, t.users[i].(isActive := false), UserId, UserStamp, t.tick);
      InactiveUserRefused(header, keyring, r.0.users, i);
    } else {
      var rest := Filter(t.users, (u: User) => u.id != id);
      assert forall k :: 0 <= k < |rest| ==> rest[k].id != id;
    }
  }

  lemma DeleteUserKeepsValid(t: Tables, actor: User, id: Id)
    requires Valid(t) && UniqueEmails(t.users)
    ensures Valid(DeleteUser(t, actor, id).0) && UniqueEmails(DeleteUser(t, actor, id).0.users)
  {
    var r := DeleteUser(t, actor, id);
    if r.1 == Ok(Removed) {
      FilterChrono(t.users, (u: User) => u.id != id, UserId, UserStamp, t.tick);
      FilterUniqueEmails(t.users, (u: User) => u.id != id);
    } else if r.1 == Ok(Deactivated) {
      var i := UserIndex(t.users, id);
      ReplaceChrono(t.users, i, t.users[i].(isActive := false), UserId, UserStamp, t.tick);
    }
  }

  /** Removing rows keeps the unique key. */
  lemma {:induction false} FilterUniqueEmails(users: seq<User>, p: User -> bool)
    requires UniqueEmails(users)
    ensures UniqueEmails(Filter(users, p))
  {
    if users != [] {
      FilterUniqueEmails(users[1..], p);
      var rest := Filter(users[1..], p);
      if p(users[0]) {
        forall j | 0 <= j < |rest| ensures users[0].email != rest[j].email {
          var k :| 0 <= k < |users[1..]| && users[1..][k] == rest[j];
          assert users[k + 1] == rest[j];
        }
        assert Filter(users, p) == [users[0]] + rest;
      }
    }
  }

  /** The handler of `DELETE /:id`. */
  method HandleDeleteUser(db: Db, actor: User, id: Id) returns (r: Outcome<Deletion>)
    modifies db
    ensures (db.Snapshot(), r) == DeleteUser(old(db.Snapshot()), actor, id)
  {
    if actor.role != SuperAdmin && actor.role != Admin {
      return Err(Forbidden);
    }
    var i := UserIndex(db.users, id);
    if i < 0 {
      return Err(NotFound);
    }
    if actor.role == Admin && actor.hospitalId != db.users[i].hospitalId {
      return Err(Forbidden);
    }
    if actor.role == SuperAdmin {
      db.users := Filter(db.users, (u: User) => u.id != id);
      r := Ok(Removed);
    } else {
      db.users := db.users[i := db.users[i].(isActive := false)];
      r := Ok(Deactivated);
    }
  }

  // ---------------------------------------------------------------------
  // PUT /:id/approve, PUT /:id/reject, PUT /:id/approve-assign

  /** `update({ where: { id }, data })` of the account state; an unknown id
      makes the update throw (500). */
  function SetAccount(t: Tables, id: Id, isActive: bool, status: UserStatus, hospitalId: Option<Option<Id>>): (r: (Tables, Outcome<User>))
    ensures r.1.Err? <==> FindUser(t.users, id).None?
    ensures r.1.Err? ==> r == (t, Err(ServerError))
    ensures r.1.Ok? ==>
      var i := UserIndex(t.users, id);
      && r.1.value == t.users[i].(isActive := isActive, status := status, hospitalId := hospitalId.GetOr(t.users[i].hospitalId))
      && r.0 == t.(users := t.users[i := r.1.value])
  {
    var i := UserIndex(t.users, id);
    if i < 0 then (t, Err(ServerError))
    else
      var u := t.users[i].(isActive := isActive, status := status, hospitalId := hospitalId.GetOr(t.users[i].hospitalId));
      (t.(users := t.users[i := u]), Ok(u))
  }

  /** `PUT /:id/approve` and `PUT /:id/reject` behind `checkRole('SUPERADMIN',
      'ADMIN')` (lines 301-326): the account becomes active and ACTIVE, or
      inactive and REJECTED. No hospital check is made. */
  function Decide(t: Tables, actor: User, id: Id, approve: bool): (r: (Tables, Outcome<User>))
    ensures actor.role !in {SuperAdmin, Admin} ==> r == (t, Err(Forbidden))
    ensures actor.role in {SuperAdmin, Admin} ==>
      r == SetAccount(t, id, approve, if approve then Active else Refused, None)
  {
    if !Permits([SuperAdmin, Admin], actor) then (t, Err(Forbidden))
    else SetAccount(t, id, approve, if approve then Active else Refused, None)
  }

  /** `PUT /:id/approve-assign` behind `checkRole('SUPERADMIN')` (lines
      329-344): approval together with the hospital, which is required. */
  function ApproveAssign(t: Tables, actor: User, id: Id, hospitalId: Option<Id>): (r: (Tables, Outcome<User>))
    ensures actor.role != SuperAdmin ==> r == (t, Err(Forbidden))
    ensures actor.role == SuperAdmin && hospitalId.None? ==> r == (t, Err(BadRequest))
    ensures actor.role == SuperAdmin && hospitalId.Some? ==> r == SetAccount(t, id, true, Active, Some(hospitalId))
  {
    if !Permits([SuperAdmin], actor) then (t, Err(Forbidden))
    else if hospitalId.None? then (t, Err(BadRequest))
    else SetAccount(t, id, true, Active, Some(hospitalId))
  }

  /** A rejected account can no longer authenticate. */
  lemma RejectedLockedOut(t: Tables, actor: User, id: Id, header: Option<string>, keyring: map<string, Id>)
    requires Valid(t) && Decide(t, actor, id, false).1.Ok?
    requires header.Some? && Token(header.value) in keyring && keyring[Token(header.value)] == id
    ensures Authenticate(header, keyring, Decide(t, actor, id, false).0.users) == Err(Unauthorized)
  {
    var r := Decide(t, actor, id, false);
    var i := UserIndex(t.users, id);
    ReplaceChrono(t.users, i, r.1.value, UserId, UserStamp, t.tick);
    InactiveUserRefused(header, keyring, r.0.users, i);
  }

  /** An approved and assigned partner passes authentication and shows in
      the active-user list of the ADMIN of its new hospital. */
  lemma AssignedPartnerJoinsHospital(t: Tables, actor: User, id: Id, h: Id, admin: User,
                                     header: Option<string>, keyring: map<string, Id>)
    requires Valid(t) && ApproveAssign(t, actor, id, Some(h)).1.Ok?
    requires admin.role == Admin && admin.hospitalId == Some(h)
    requires header.Some? && Token(header.value) != "" && Token(header.value) in keyring && keyring[Token(header.value)] == id
    ensures var r := ApproveAssign(t, actor, id, Some(h));
      && Authenticate(header, keyring, r.0.users) == Ok(r.1.value)
      && r.1.value in Filter(r.0.users, (u: User) => Visible(admin, UserQuery(None, None, None), u))
  {
    var r := ApproveAssign(t, actor, id, Some(h));
    var i := UserIndex(t.users, id);
    var j := UserIndex(r.0.users, id);
    ReplaceChrono(t.users, i, r.1.value, UserId, UserStamp, t.tick);
    assert r.0.users[i] == r.1.value;
    IncreasingUnique(r.0.users, UserId, i, j);
  }

  /** The handler of the three routes. */
  method HandleSetAccount(db: Db, id: Id, isActive: bool, status: UserStatus, hospitalId: Option<Option<Id>>) returns (r: Outcome<User>)
    modifies db
    ensures (db.Snapshot(), r) == SetAccount(old(db.Snapshot()), id, isActive, status, hospitalId)
  {
    var i := UserIndex(db.users, id);
    if i < 0 {
      return Err(ServerError);
    }
    var u := db.users[i].(isActive := isActive, status := status);
    if hospitalId.Some? {
      u := u.(hospitalId := hospitalId.value);
    }
    db.users := db.users[i := u];
    r := Ok(u);
  }

  // ---------------------------------------------------------------------
  // POST /:id/reassign

  /** `user.updateMany({ where: { hospitalId: src, role }, data: { hospitalId: dst } })`. */
  function MoveStaff(users: seq<User>, role: Role, src: Id, dst: Id): seq<User> {
    Map(users, (u: User) => if u.hospitalId == Some(src) && u.role == role then u.(hospitalId := Some(dst)) else u)
  }

  /** `lead.updateMany({ where: { hospitalId: src }, data: { hospitalId: dst } })`. */
  function MoveLeads(leads: seq<Lead>, src: Id, dst: Id): seq<Lead> {
    Map(leads, (l: Lead) => if l.hospitalId == src then l.(hospitalId := dst) else l)
  }

  /** `lead.updateMany({ where: { createdById: from }, data: { createdById: to } })`. */
  function Repoint(leads: seq<Lead>, from: Id, to: Id): seq<Lead> {
    Map(leads, (l: Lead) => if l.createdById == from then l.(createdById := to) else l)
  }

  /** A user's row after the transfer from `src` to `dst`. */
  function Transferred(u: User, src: Id, dst: Id): User {
    if u.hospitalId == Some(src) && (u.role == Partner || u.role == SalesPerson) then u.(hospitalId := Some(dst)) else u
  }

  /** `POST /:id/reassign` behind `checkRole('SUPERADMIN')` (lines 347-453):
      every check is made before anything is written; then, in one
      transaction, the source hospital's partners, then its sales people,
      then its leads move to the target admin's hospital, the source admin's
      leads are credited to the target admin, and the source admin is
      deleted. The source user's role is not checked. */
  function ReassignAdmin(t: Tables, actor: User, deletedAdminId: Id, targetAdminId: Id): (r: (Tables, Outcome<()>))
    ensures r.1.Err? ==> r.0 == t
    ensures actor.role != SuperAdmin ==> r.1 == Err(Forbidden)
    ensures r.1 == Err(NotFound) <==>
      actor.role == SuperAdmin && (FindUser(t.users, deletedAdminId).None? || FindUser(t.users, targetAdminId).None?)
    ensures r.1 == Err(BadRequest) <==>
      && actor.role == SuperAdmin && FindUser(t.users, deletedAdminId).Some? && FindUser(t.users, targetAdminId).Some?
      && (FindUser(t.users, targetAdminId).value.role != Admin
          || FindUser(t.users, targetAdminId).value.hospitalId.None?
          || FindUser(t.users, deletedAdminId).value.hospitalId.None?)
    ensures r.1.Ok? <==>
      && actor.role == SuperAdmin && FindUser(t.users, deletedAdminId).Some? && FindUser(t.users, targetAdminId).Some?
      && FindUser(t.users, targetAdminId).value.role == Admin
      && FindUser(t.users, targetAdminId).value.hospitalId.Some? && FindUser(t.users, deletedAdminId).value.hospitalId.Some?
    ensures r.1.Ok? ==> r.0 == t.(users := r.0.users, leads := r.0.leads)
  {
    if !Permits([SuperAdmin], actor) then (t, Err(Forbidden))
    else if FindUser(t.users, deletedAdminId).None? || FindUser(t.users, targetAdminId).None? then (t, Err(NotFound))
    else
      var source, target := FindUser(t.users, deletedAdminId).value, FindUser(t.users, targetAdminId).value;
      if target.role != Admin || target.hospitalId.None? || source.hospitalId.None? then (t, Err(BadRequest))
      else
        var src, dst := source.hospitalId.value, target.hospitalId.value;
        var users := MoveStaff(MoveStaff(t.users, Partner, src, dst), SalesPerson, src, dst);
        var leads := Repoint(MoveLeads(t.leads, src, dst), deletedAdminId, targetAdminId);
        (t.(users := Filter(users, (u: User) => u.id != deletedAdminId), leads := leads), Ok(()))
  }

  /** What the transfer leaves behind: the source admin is gone and every
      other user remains, with the source hospital's partners and sales
      people now in the target hospital; every lead remains, with only its
      hospital and its author changed, and none is left in the source
      hospital or credited to the source admin. */
  lemma ReassignEffect(t: Tables, actor: User, deletedAdminId: Id, targetAdminId: Id)
    requires ReassignAdmin(t, actor, deletedAdminId, targetAdminId).1.Ok?
    ensures var after := ReassignAdmin(t, actor, deletedAdminId, targetAdminId).0;
      var src := FindUser(t.users, deletedAdminId).value.hospitalId.value;
      var dst := FindUser(t.users, targetAdminId).value.hospitalId.value;
      && (forall u :: u in after.users ==> u.id != deletedAdminId)
      && (forall k :: 0 <= k < |t.users| && t.users[k].id != deletedAdminId ==> Transferred(t.users[k], src, dst) in after.users)
      && (forall u :: u in after.users ==> exists k :: 0 <= k < |t.users| && u == Transferred(t.users[k], src, dst))
      && (src != dst ==> forall u :: u in after.users && (u.role == Partner || u.role == SalesPerson) ==> u.hospitalId != Some(src))
      && |after.leads| == |t.leads|
      && (forall k :: 0 <= k < |t.leads| ==>
            && after.leads[k].(hospitalId := t.leads[k].hospitalId, createdById := t.leads[k].createdById) == t.leads[k]
            && after.leads[k].hospitalId == (if t.leads[k].hospitalId == src then dst else t.leads[k].hospitalId)
            && after.leads[k].createdById ==
                 (if t.leads[k].createdById == deletedAdminId then targetAdminId else t.leads[k].createdById))
      && (src != dst ==> forall l :: l in after.leads ==> l.hospitalId != src)
      && (deletedAdminId != targetAdminId ==> forall l :: l in after.leads ==> l.createdById != deletedAdminId)
  {
    var src := FindUser(t.users, deletedAdminId).value.hospitalId.value;
    var dst := FindUser(t.users, targetAdminId).value.hospitalId.value;
    TransferUsers(t.users, src, dst, deletedAdminId);
    TransferLeads(t.leads, src, dst, deletedAdminId, targetAdminId);
  }

  lemma TransferUsers(users: seq<User>, src: Id, dst: Id, d: Id)
    ensures var after := Filter(MoveStaff(MoveStaff(users, Partner, src, dst), SalesPerson, src, dst), (u: User) => u.id != d);
      && (forall u :: u in after ==> u.id != d)
      && (forall k :: 0 <= k < |users| && users[k].id != d ==> Transferred(users[k], src, dst) in after)
      && (forall u :: u in after ==> exists k :: 0 <= k < |users| && u == Transferred(users[k], src, dst))
      && (src != dst ==> forall u :: u in after && (u.role == Partner || u.role == SalesPerson) ==> u.hospitalId != Some(src))
  {
    var moved := MoveStaff(MoveStaff(users, Partner, src, dst), SalesPerson, src, dst);
    var after := Filter(moved, (u: User) => u.id != d);
    assert forall k :: 0 <= k < |users| ==> moved[k] == Transferred(users[k], src, dst);
    forall k | 0 <= k < |users| && users[k].id != d
      ensures Transferred(users[k], src, dst) in after
    {
      assert moved[k] in moved;
    }
    forall u | u in after && (u.role == Partner || u.role == SalesPerson) && src != dst
      ensures u.hospitalId != Some(src)
    {
      var k :| 0 <= k < |moved| && moved[k] == u;
    }
    forall u | u in after
      ensures exists k :: 0 <= k < |users| && u == Transferred(users[k], src, dst)
    {
      var k :| 0 <= k < |moved| && moved[k] == u;
    }
  }

  lemma TransferLeads(leads: seq<Lead>, src: Id, dst: Id, d: Id, g: Id)
    ensures var after := Repoint(MoveLeads(leads, src, dst), d, g);
      && |after| == |leads|
      && (forall k :: 0 <= k < |leads| ==>
            && after[k].(hospitalId := leads[k].hospitalId, createdById := leads[k].createdById) == leads[k]
            && after[k].hospitalId == (if leads[k].hospitalId == src then dst else leads[k].hospitalId)
            && after[k].createdById == (if leads[k].createdById == d then g else leads[k].createdById))
      && (src != dst ==> forall l :: l in after ==> l.hospitalId != src)
      && (d != g ==> forall l :: l in after ==> l.createdById != d)
  {
    var after := Repoint(MoveLeads(leads, src, dst), d, g);
    forall l | l in after && src != dst ensures l.hospitalId != src {
      var k :| 0 <= k < |after| && after[k] == l;
    }
    forall l | l in after && d != g ensures l.createdById != d {
      var k :| 0 <= k < |after| && after[k] == l;
    }
  }

  lemma ReassignKeepsValid(t: Tables, actor: User, deletedAdminId: Id, targetAdminId: Id)
    requires Valid(t)
    ensures Valid(ReassignAdmin(t, actor, deletedAdminId, targetAdminId).0)
  {
    var r := ReassignAdmin(t, actor, deletedAdminId, targetAdminId);
    if r.1.Ok? {
      var src := FindUser(t.users, deletedAdminId).value.hospitalId.value;
      var dst := FindUser(t.users, targetAdminId).value.hospitalId.value;
      var partners := MoveStaff(t.users, Partner, src, dst);
      var staff := MoveStaff(partners, SalesPerson, src, dst);
      MoveStaffChrono(t.users, Partner, src, dst, t.tick);
      MoveStaffChrono(partners, SalesPerson, src, dst, t.tick);
      FilterChrono(staff, (u: User) => u.id != deletedAdminId, UserId, UserStamp, t.tick);
      var moved := MoveLeads(t.leads, src, dst);
      MoveLeadsChrono(t.leads, src, dst, t.tick);
      RepointChrono(moved, deletedAdminId, targetAdminId, t.tick);
      ReplaceUsersAndLeads(t, r.0.users, r.0.leads);
    }
  }

  lemma MoveStaffChrono(users: seq<User>, role: Role, src: Id, dst: Id, tick: int)
    requires Chrono(users, UserId, UserStamp, tick)
    ensures Chrono(MoveStaff(users, role, src, dst), UserId, UserStamp, tick)
  {
    MapChrono(users, (u: User) => if u.hospitalId == Some(src) && u.role == role then u.(hospitalId := Some(dst)) else u,
              UserId, UserStamp, tick);
  }

  lemma MoveLeadsChrono(leads: seq<Lead>, src: Id, dst: Id, tick: int)
    requires Chrono(leads, LeadId, LeadStamp, tick)
    ensures Chrono(MoveLeads(leads, src, dst), LeadId, LeadStamp, tick)
  {
    MapChrono(leads, (l: Lead) => if l.hospitalId == src then l.(hospitalId := dst) else l, LeadId, LeadStamp, tick);
  }

  lemma RepointChrono(leads: seq<Lead>, from: Id, to: Id, tick: int)
    requires Chrono(leads, LeadId, LeadStamp, tick)
    ensures Chrono(Repoint(leads, from, to), LeadId, LeadStamp, tick)
  {
    MapChrono(leads, (l: Lead) => if l.createdById == from then l.(createdById := to) else l, LeadId, LeadStamp, tick);
  }

  /** New user and lead tables that are chronological under the same counter
      keep the whole invariant. */
  lemma ReplaceUsersAndLeads(t: Tables, users: seq<User>, leads: seq<Lead>)
    requires Valid(t)
    requires Chrono(users, UserId, UserStamp, t.tick) && Chrono(leads, LeadId, LeadStamp, t.tick)
    ensures Valid(t.(users := users, leads := leads))
  {
  }

  /** The handler: the checks, then the five writes of the transaction. */
  method HandleReassignAdmin(db: Db, actor: User, deletedAdminId: Id, targetAdminId: Id) returns (r: Outcome<()>)
    modifies db
    ensures (db.Snapshot(), r) == ReassignAdmin(old(db.Snapshot()), actor, deletedAdminId, targetAdminId)
  {
    if actor.role != SuperAdmin {
      return Err(Forbidden);
    }
    var deletedAdmin, targetAdmin := FindUser(db.users, deletedAdminId), FindUser(db.users, targetAdminId);
    if deletedAdmin.None? || targetAdmin.None? {
      return Err(NotFound);
    }
    if targetAdmin.value.role != Admin {
      return Err(BadRequest);
    }
    if targetAdmin.value.hospitalId.None? {
      return Err(BadRequest);
    }
    if deletedAdmin.value.hospitalId.None? {
      return Err(BadRequest);
    }
    var src, dst := deletedAdmin.value.hospitalId.value, targetAdmin.value.hospitalId.value;
    db.users := MoveStaff(db.users, Partner, src, dst);
    db.users := MoveStaff(db.users, SalesPerson, src, dst);
    db.leads := MoveLeads(db.leads, src, dst);
    db.leads := Repoint(db.leads, deletedAdminId, targetAdminId);
    db.users := Filter(db.users, (u: User) => u.id != deletedAdminId);
    r := Ok(());
  }
}
