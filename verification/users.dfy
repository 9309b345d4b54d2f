/**
 * The user controller of the current API revision: the caller's own summary,
 * public profiles by id or by username, and the profile update with its
 * body validators.
 */
module Users {
  import opened Wrappers
  import opened Js
  import opened Http
  import opened Db
  import opened Validation

  const DisplayNameMessage := "Display name must be between 1 and 100 characters"
  const AvatarUrlMessage := "Avatar URL must be a string up to 255 characters"
  const ShowStatusMessage := "Show status must be a boolean"
  const AllowInvitesMessage := "Allow invites must be a boolean"
  const SearchableMessage := "Searchable must be a boolean"
  /** express-validator's message for a failed check that has no `withMessage` of its own. */
  const DefaultMessage := "Invalid value"
  const UserNotFound := "User not found!"
  /** Stands for the query engine's message when an argument has the wrong type or is missing. */
  const InvalidArgument := "Invalid value provided"
  /** Stands for the query engine's message when the row to update does not exist. */
  const RecordNotFound := "Record to update not found"

  /** The columns a public profile selects: neither the email, the admin flag nor `searchable`. */
  const ProfileKeys: set<string> :=
    {"id", "username", "displayName", "avatarUrl", "emailVerified", "showStatus", "allowInvites", "createdAt", "updatedAt"}

  /** A nullable text column as JSON. */
  function OptText(o: Option<string>): Value {
    if o.Some? then Str(o.value) else Null
  }

  /** `getSelf`: the caller's id, display name and avatar, nothing else. */
  function GetSelf(u: User): (r: Object)
    ensures r.Keys == {"id", "displayName", "avatarUrl"}
    ensures r["id"] == Num(u.id) && r["displayName"] == Str(u.displayName)
    ensures r["avatarUrl"] == OptText(u.avatarUrl)
    ensures u.avatarUrl.Some? <==> r["avatarUrl"].Str?
  {
    map["id" := Num(u.id), "displayName" := Str(u.displayName), "avatarUrl" := OptText(u.avatarUrl)]
  }

  /** The `select` of the two profile lookups. */
  function ProfileView(u: User): (r: Object)
    ensures r.Keys == ProfileKeys
    ensures "email" !in r && "isAdmin" !in r && "searchable" !in r
    ensures r["id"] == Num(u.id) && r["username"] == Str(u.username)
    ensures r["displayName"] == Str(u.displayName) && r["avatarUrl"] == OptText(u.avatarUrl)
    ensures r["emailVerified"] == Bool(u.emailVerified)
    ensures r["showStatus"] == Bool(u.showStatus) && r["allowInvites"] == Bool(u.allowInvites)
    ensures r["createdAt"] == Num(u.createdAt) && r["updatedAt"] == Num(u.updatedAt)
  {
    map["id" := Num(u.id), "username" := Str(u.username), "displayName" := Str(u.displayName),
        "avatarUrl" := OptText(u.avatarUrl), "emailVerified" := Bool(u.emailVerified),
        "showStatus" := Bool(u.showStatus), "allowInvites" := Bool(u.allowInvites),
        "createdAt" := Num(u.createdAt), "updatedAt" := Num(u.updatedAt)]
  }

  /** Every field of the caller's summary appears, with the same value, in their public profile. */
  lemma SelfAgreesWithProfile(u: User)
    ensures forall k :: k in GetSelf(u) ==> k in ProfileView(u) && ProfileView(u)[k] == GetSelf(u)[k]
  {
  }

  /**
   * `getUserById`: the validator reads the `userId` parameter, while the
   * lookup uses the `id` parameter as given. The query engine accepts only a
   * number there; anything else (a route parameter is always text) fails the
   * query with a 500.
   */
  function GetUserById(db: Db, params: Object): (r: Outcome<Object>)
    ensures r.Invalid? <==> !IsIntAtLeast(Get(params, "userId"), 1)
    ensures r.Invalid? ==> r.errors == [FieldError("userId", UserIdMessage)]
    ensures r.Success? <==>
      IsIntAtLeast(Get(params, "userId"), 1) && Get(params, "id").Num? && Get(params, "id").n in db.users
    ensures r.Success? ==> r == Success(Ok, ProfileView(db.users[Get(params, "id").n]))
    ensures r.Error? && Get(params, "id").Num? ==> r == Error(NotFound, UserNotFound)
    ensures r.Error? && !Get(params, "id").Num? ==> r == Error(ServerError, InvalidArgument)
  {
    var gate := HandleValidationErrors(UserIdErrors(Get(params, "userId")));
    if gate.Reject? then Invalid(gate.errors)
    else
      var id := Get(params, "id");
      if !id.Num? then Error(ServerError, InvalidArgument)
      else if id.n !in db.users then Error(NotFound, UserNotFound)
      else Success(Ok, ProfileView(db.users[id.n]))
  }

  /** Mounted on a path whose only parameter is `id`, the lookup by id is always rejected by its validator. */
  lemma IdRouteAlwaysRejected(db: Db, id: Value)
    ensures GetUserById(db, map["id" := id]).Invalid?
  {
  }

  /**
   * `getUserByUsername`: the validator checks the body's `username`, while
   * the lookup uses the `username` route parameter.
   */
  function GetUserByUsername(db: Db, params: Object, body: Object): (r: Outcome<Object>)
    requires UsersValid(db.users, db.nextUserId)
    ensures r.Invalid? <==> !ValidUsername(ToText(Get(body, "username")))
    ensures r.Success? ==>
      && Get(params, "username").Str?
      && (exists id :: id in db.users && db.users[id].username == Get(params, "username").s && r.value == ProfileView(db.users[id]))
    ensures r.Error? && Get(params, "username").Str? ==>
      r == Error(NotFound, UserNotFound) && forall id :: id in db.users ==> db.users[id].username != Get(params, "username").s
    ensures r.Error? && !Get(params, "username").Str? ==> r == Error(ServerError, InvalidArgument)
  {
    var gate := HandleValidationErrors(UsernameErrors(Get(body, "username")));
    if gate.Reject? then Invalid(gate.errors)
    else
      var name := Get(params, "username");
      if !name.Str? then Error(ServerError, InvalidArgument)
      else
        match FindByUsername(db.users, db.nextUserId, name.s)
        case None => Error(NotFound, UserNotFound)
        case Some(id) => Success(Ok, ProfileView(db.users[id]))
  }

  /** A request without a body never reaches the lookup by username. */
  lemma BodilessUsernameLookupRejected(db: Db, params: Object)
    requires UsersValid(db.users, db.nextUserId)
    ensures GetUserByUsername(db, params, map[]).Invalid?
  {
    MissingUsernameRejected();
  }

  /** validator.js's `isBoolean` in its strict form. */
  predicate IsBooleanText(t: string) {
    t == "true" || t == "false" || t == "1" || t == "0"
  }

  /** The bodies `validateUserUpdate` accepts: every field is absent or well formed. */
  predicate UpdateBodyValid(body: Object) {
    && (Get(body, "displayName") == Undefined || 1 <= |ToText(Get(body, "displayName"))| <= 100)
    && (Get(body, "avatarUrl") == Undefined || (Get(body, "avatarUrl").Str? && |Get(body, "avatarUrl").s| <= 255))
    && (Get(body, "showStatus") == Undefined || IsBooleanText(ToText(Get(body, "showStatus"))))
    && (Get(body, "allowInvites") == Undefined || IsBooleanText(ToText(Get(body, "allowInvites"))))
    && (Get(body, "searchable") == Undefined || IsBooleanText(ToText(Get(body, "searchable"))))
  }

  /** An optional boolean field's validator. */
  function FlagErrors(field: string, message: string, v: Value): (r: seq<FieldError>)
    ensures r == [] <==> v == Undefined || IsBooleanText(ToText(v))
    ensures r != [] ==> r == [FieldError(field, message)]
  {
    if v == Undefined || IsBooleanText(ToText(v)) then [] else [FieldError(field, message)]
  }

  /**
   * `validateUserUpdate`, in field order. `avatarUrl` has two checks: a
   * non-string fails `isString` with the default message, and a text longer
   * than 255 fails `isLength` with the field's message.
   */
  function UpdateErrors(body: Object): (r: seq<FieldError>)
    ensures r == [] <==> UpdateBodyValid(body)
    ensures forall i :: 0 <= i < |r| ==>
      r[i].field in {"displayName", "avatarUrl", "showStatus", "allowInvites", "searchable"} && Get(body, r[i].field) != Undefined
    ensures |r| <= 6
  {
    var name := Get(body, "displayName");
    var avatar := Get(body, "avatarUrl");
    (if name == Undefined || 1 <= |ToText(name)| <= 100 then [] else [FieldError("displayName", DisplayNameMessage)])
    + (if avatar == Undefined || avatar.Str? then [] else [FieldError("avatarUrl", DefaultMessage)])
    + (if avatar == Undefined || |ToText(avatar)| <= 255 then [] else [FieldError("avatarUrl", AvatarUrlMessage)])
    + FlagErrors("showStatus", ShowStatusMessage, Get(body, "showStatus"))
    + FlagErrors("allowInvites", AllowInvitesMessage, Get(body, "allowInvites"))
    + FlagErrors("searchable", SearchableMessage, Get(body, "searchable"))
  }

  /**
   * Whether the query engine takes the fields present in the body: text
   * columns need a string (the avatar may also be null) and the flags need a
   * boolean; the text "true" passes the validator but not the engine.
   */
  predicate ColumnTypesMatch(body: Object) {
    && (Get(body, "displayName") == Undefined || Get(body, "displayName").Str?)
    && (Get(body, "avatarUrl") == Undefined || Get(body, "avatarUrl").Str? || Get(body, "avatarUrl") == Null)
    && (Get(body, "showStatus") == Undefined || Get(body, "showStatus").Bool?)
    && (Get(body, "allowInvites") == Undefined || Get(body, "allowInvites").Bool?)
    && (Get(body, "searchable") == Undefined || Get(body, "searchable").Bool?)
  }

  /** The row after writing exactly the fields that are present (`!== undefined`). */
  function Patched(u: User, body: Object): (r: User)
    requires ColumnTypesMatch(body)
    ensures r.(displayName := u.displayName, avatarUrl := u.avatarUrl, showStatus := u.showStatus,
               allowInvites := u.allowInvites, searchable := u.searchable) == u
    ensures if Get(body, "displayName") == Undefined then r.displayName == u.displayName
            else Get(body, "displayName") == Str(r.displayName)
    ensures if Get(body, "avatarUrl") == Undefined then r.avatarUrl == u.avatarUrl
            else Get(body, "avatarUrl") == OptText(r.avatarUrl)
    ensures if Get(body, "showStatus") == Undefined then r.showStatus == u.showStatus
            else Get(body, "showStatus") == Bool(r.showStatus)
    ensures if Get(body, "allowInvites") == Undefined then r.allowInvites == u.allowInvites
            else Get(body, "allowInvites") == Bool(r.allowInvites)
    ensures if Get(body, "searchable") == Undefined then r.searchable == u.searchable
            else Get(body, "searchable") == Bool(r.searchable)
  {
    u.(displayName := PatchText(Get(body, "displayName"), u.displayName),
       avatarUrl := PatchAvatar(Get(body, "avatarUrl"), u.avatarUrl),
       showStatus := PatchFlag(Get(body, "showStatus"), u.showStatus),
       allowInvites := PatchFlag(Get(body, "allowInvites"), u.allowInvites),
       searchable := PatchFlag(Get(body, "searchable"), u.searchable))
  }

  /** A text column: kept when the field is absent, else the given string. */
  function PatchText(v: Value, prior: string): (r: string)
    requires v == Undefined || v.Str?
    ensures if v == Undefined then r == prior else v == Str(r)
  {
    if v == Undefined then prior else v.s
  }

  /** The nullable avatar column: kept when absent, else the given string or null. */
  function PatchAvatar(v: Value, prior: Option<string>): (r: Option<string>)
    requires v == Undefined || v.Str? || v == Null
    ensures if v == Undefined then r == prior else v == OptText(r)
  {
    if v == Undefined then prior else if v.Str? then Some(v.s) else None
  }

  /** A boolean column: kept when absent, else the given boolean. */
  function PatchFlag(v: Value, prior: bool): (r: bool)
    requires v == Undefined || v.Bool?
    ensures if v == Undefined then r == prior else v == Bool(r)
  {
    if v == Undefined then prior else v.b
  }

  /**
   * `updateUser`: validation first (400 with the list); then the row named
   * by the `username` parameter gets exactly the present fields, and nothing
   * else about it or any other row changes. Every failure of the write (a
   * missing user, a field of the wrong type, a missing parameter) is a 400.
   */
  function UpdateUser(db: Db, params: Object, body: Object): (r: (Db, Outcome<User>))
    requires UsersValid(db.users, db.nextUserId)
    ensures UsersValid(r.0.users, r.0.nextUserId)
    ensures !r.1.Success? ==> r.0 == db
    ensures r.1.Invalid? <==> !UpdateBodyValid(body)
    ensures r.1.Invalid? ==> r.1.errors == UpdateErrors(body)
    ensures r.1.Error? ==> r.1.status == BadRequest
    ensures r.1.Success? <==>
      && UpdateBodyValid(body) && ColumnTypesMatch(body) && Get(params, "username").Str?
      && exists id :: id in db.users && db.users[id].username == Get(params, "username").s
    ensures r.1.Success? ==>
      && r.1.value.id in db.users && db.users[r.1.value.id].username == Get(params, "username").s
      && r.1.value == Patched(db.users[r.1.value.id], body)
      && r.0 == db.(users := db.users[r.1.value.id := r.1.value])
  {
    var gate := HandleValidationErrors(UpdateErrors(body));
    if gate.Reject? then (db, Invalid(gate.errors))
    else
      var name := Get(params, "username");
      if !name.Str? || !ColumnTypesMatch(body) then (db, Error(BadRequest, InvalidArgument))
      else WriteProfile(db, name.s, body)
  }

  /** `prisma.user.update({ where: { username }, data })` once the body is known to be well typed. */
  function WriteProfile(db: Db, name: string, body: Object): (r: (Db, Outcome<User>))
    requires UsersValid(db.users, db.nextUserId) && ColumnTypesMatch(body)
    ensures UsersValid(r.0.users, r.0.nextUserId)
    ensures r.1.Success? || r == (db, Error(BadRequest, RecordNotFound))
    ensures r.1.Success? <==> exists id :: id in db.users && db.users[id].username == name
    ensures r.1.Success? ==>
      && r.1.value.id in db.users && db.users[r.1.value.id].username == name
      && r.1.value == Patched(db.users[r.1.value.id], body)
      && r.0 == db.(users := db.users[r.1.value.id := r.1.value])
  {
    match FindByUsername(db.users, db.nextUserId, name)
    case None => (db, Error(BadRequest, RecordNotFound))
    case Some(id) =>
      var u := Patched(db.users[id], body);
      (db.(users := db.users[id := u]), Success(Ok, u))
  }

  /** Sending the same update twice leaves the second one with nothing to change. */
  lemma {:induction false} UpdateIsIdempotent(db: Db, params: Object, body: Object)
    requires UsersValid(db.users, db.nextUserId)
    requires UpdateUser(db, params, body).1.Success?
    ensures var (d1, o1) := UpdateUser(db, params, body);
      UpdateUser(d1, params, body) == (d1, o1)
  {
    var name := Get(params, "username").s;
    var (d1, o1) := WriteProfile(db, name, body);
    assert UpdateUser(db, params, body) == (d1, o1);
    assert UpdateUser(d1, params, body) == WriteProfile(d1, name, body);
    WriteProfileTwice(db, name, body);
  }

  lemma WriteProfileTwice(db: Db, name: string, body: Object)
    requires UsersValid(db.users, db.nextUserId) && ColumnTypesMatch(body)
    requires WriteProfile(db, name, body).1.Success?
    ensures var (d1, o1) := WriteProfile(db, name, body);
      UsersValid(d1.users, d1.nextUserId) && WriteProfile(d1, name, body) == (d1, o1)
  {
    var (d1, o1) := WriteProfile(db, name, body);
    var id := o1.value.id;
    assert d1.users[id].username == name;
    var found := FindByUsername(d1.users, d1.nextUserId, name);
    assert found.Some?;
    assert d1.users[found.value].username == d1.users[id].username;
    assert Patched(o1.value, body) == o1.value;
    assert d1.users[id := o1.value] == d1.users;
  }

  /** A flag sent as the text "true" passes the validator but fails the write with a 400. */
  lemma TextFlagFailsWrite(db: Db, params: Object)
    requires UsersValid(db.users, db.nextUserId)
    ensures var r := UpdateUser(db, params, map["showStatus" := Str("true")]);
      r.1.Error? && r.1.status == BadRequest && r.0 == db
  {
    assert UpdateBodyValid(map["showStatus" := Str("true")]);
  }
}
