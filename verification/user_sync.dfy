/**
 * `syncUserWithDatabase`: after the token is verified, the user named by its
 * `preferred_username` is created, or brought up to date with the token's
 * email and admin role, and becomes the request's user.
 */
module UserSync {
  import opened Wrappers
  import opened Js
  import opened Http
  import opened Db
  import Permissions

  const MissingClaimsMessage := "No username or email in user token"
  /** Stands for the query engine's message when a unique constraint fails. */
  const UniqueConstraintFailed := "Unique constraint failed"

  /** The claims read from the verified token; `realmRoles` is None when `realm_access.roles` is not an array. */
  datatype Claims = Claims(preferredUsername: Option<string>, email: Option<string>, realmRoles: Option<seq<string>>)

  /** `Array.isArray(realm_access?.roles) && realm_access.roles.includes('admin')`. */
  predicate IsAdminFromToken(c: Claims) {
    c.realmRoles.Some? && "admin" in c.realmRoles.value
  }

  /** A new user as the handler creates it; the remaining columns take the table's defaults. */
  function NewUser(id: int, username: string, email: string, isAdmin: bool, now: int): User {
    User(id, username, email, username, None, isAdmin, true, true, true, false, now, now)
  }

  /** Creating the token's user: a new row under the next id, unless the email is already taken. */
  function CreateFromToken(db: Db, name: string, email: string, isAdmin: bool, now: int): (r: (Db, Outcome<User>))
    requires UsersValid(db.users, db.nextUserId) && db.nextUserId >= 1
    requires forall id :: id in db.users ==> db.users[id].username != name
    ensures UsersValid(r.0.users, r.0.nextUserId) && r.0.nextUserId >= 1
    ensures r.1.Success? <==> !EmailTaken(db.users, email, None)
    ensures !r.1.Success? ==> r == (db, Error(ServerError, UniqueConstraintFailed))
    ensures r.1.Success? ==>
      && r.1.value == NewUser(db.nextUserId, name, email, isAdmin, now)
      && db.nextUserId !in db.users
      && r.0 == db.(users := db.users[db.nextUserId := r.1.value], nextUserId := db.nextUserId + 1)
  {
    if EmailTaken(db.users, email, None) then (db, Error(ServerError, UniqueConstraintFailed))
    else
      var u := NewUser(db.nextUserId, name, email, isAdmin, now);
      (db.(users := db.users[u.id := u], nextUserId := db.nextUserId + 1), Success(Ok, u))
  }

  /**
   * Bringing a known user up to date: the email and the admin flag are
   * written only when one of them differs from the token; a new email that
   * another user holds fails the write.
   */
  function RefreshFromToken(db: Db, id: int, email: string, isAdmin: bool): (r: (Db, Outcome<User>))
    requires UsersValid(db.users, db.nextUserId) && id in db.users
    ensures UsersValid(r.0.users, r.0.nextUserId) && r.0.nextUserId == db.nextUserId
    ensures !r.1.Success? ==> r == (db, Error(ServerError, UniqueConstraintFailed))
    ensures r.1.Success? ==>
      && r.1.value == db.users[id].(email := email, isAdmin := isAdmin)
      && r.0 == db.(users := db.users[id := r.1.value])
    ensures r.1.Success? <==> db.users[id].email == email || !EmailTaken(db.users, email, Some(id))
    ensures db.users[id].email == email && db.users[id].isAdmin == isAdmin ==> r == (db, Success(Ok, db.users[id]))
  {
    var user := db.users[id];
    var newEmail := if user.email != email then Some(email) else None;
    var newAdmin := if user.isAdmin != isAdmin then Some(isAdmin) else None;
    if newEmail.None? && newAdmin.None? then
      assert db.users[id := user] == db.users;
      (db, Success(Ok, user))
    else if newEmail.Some? && EmailTaken(db.users, email, Some(id)) then (db, Error(ServerError, UniqueConstraintFailed))
    else
      var u := user.(email := newEmail.GetOr(user.email), isAdmin := newAdmin.GetOr(user.isAdmin));
      (db.(users := db.users[id := u]), Success(Ok, u))
  }

  /**
   * The sync. Missing (falsy) username or email is a 400 and changes nothing.
   * An unknown username creates one user whose display name is the username
   * and whose admin flag comes from the token; a known user gets the token's
   * email and admin flag and nothing else about it changes. A clash with
   * another user's email fails the write (500) and changes nothing. On
   * success the request's user is the stored row.
   */
  function SyncUser(db: Db, claims: Claims, now: int): (r: (Db, Outcome<User>))
    requires UsersValid(db.users, db.nextUserId) && db.nextUserId >= 1
    ensures UsersValid(r.0.users, r.0.nextUserId) && r.0.nextUserId >= 1
    ensures !r.1.Success? ==> r.0 == db
    ensures !TruthyText(claims.preferredUsername) || !TruthyText(claims.email) ==>
              r.1 == Error(BadRequest, MissingClaimsMessage)
    ensures r.1.Success? ==>
      && TruthyText(claims.preferredUsername) && TruthyText(claims.email)
      && r.1.value.id in r.0.users && r.0.users[r.1.value.id] == r.1.value
      && r.1.value.username == claims.preferredUsername.value
      && r.1.value.email == claims.email.value
      && r.1.value.isAdmin == IsAdminFromToken(claims)
      && r.0 == db.(users := r.0.users, nextUserId := r.0.nextUserId)
    ensures r.1.Success? && FindByUsername(db.users, db.nextUserId, r.1.value.username).None? ==>
      && r.1.value == NewUser(db.nextUserId, claims.preferredUsername.value, claims.email.value, IsAdminFromToken(claims), now)
      && r.1.value.id !in db.users
      && r.0.users == db.users[r.1.value.id := r.1.value]
    ensures r.1.Success? && FindByUsername(db.users, db.nextUserId, r.1.value.username).Some? ==>
      var id := FindByUsername(db.users, db.nextUserId, r.1.value.username).value;
      && r.1.value == db.users[id].(email := claims.email.value, isAdmin := IsAdminFromToken(claims))
      && r.0.users == db.users[id := r.1.value]
      && r.0.nextUserId == db.nextUserId
      && (db.users[id].email == claims.email.value && db.users[id].isAdmin == IsAdminFromToken(claims) ==> r.0 == db)
  {
    if !TruthyText(claims.preferredUsername) || !TruthyText(claims.email) then
      (db, Error(BadRequest, MissingClaimsMessage))
    else
      var name := claims.preferredUsername.value;
      match FindByUsername(db.users, db.nextUserId, name)
      case None => CreateFromToken(db, name, claims.email.value, IsAdminFromToken(claims), now)
      case Some(id) => RefreshFromToken(db, id, claims.email.value, IsAdminFromToken(claims))
  }

  /** Syncing the same claims again writes nothing and yields the same user. */
  lemma SyncIsIdempotent(db: Db, claims: Claims, now: int, later: int)
    requires UsersValid(db.users, db.nextUserId) && db.nextUserId >= 1
    requires SyncUser(db, claims, now).1.Success?
    ensures var (d1, o1) := SyncUser(db, claims, now);
      SyncUser(d1, claims, later) == (d1, o1)
  {
    var (d1, o1) := SyncUser(db, claims, now);
    var found := FindByUsername(d1.users, d1.nextUserId, o1.value.username);
    assert found == Some(o1.value.id);
  }

  /** After a successful sync the admin gate follows the token's roles. */
  lemma AdminGateFollowsToken(db: Db, claims: Claims, now: int)
    requires UsersValid(db.users, db.nextUserId) && db.nextUserId >= 1
    requires SyncUser(db, claims, now).1.Success?
    ensures var (d1, o1) := SyncUser(db, claims, now);
      Permissions.RequireAdmin(d1, o1.value.id) == Next <==> IsAdminFromToken(claims)
  {
  }
}
