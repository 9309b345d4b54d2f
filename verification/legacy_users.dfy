/**
 * The user controller of the first API revision: a table of users with a
 * name and a unique email, and the four CRUD handlers over it.
 */
module LegacyUsers {
  import opened Wrappers
  import opened Js
  import opened Http

  const MissingFieldsMessage := "Missing required fields: name and email are required"
  const DuplicateEmailMessage := "User with this email already exists"
  const UserNotFound := "User not found!"
  const NothingToUpdateMessage := "At least one field to update is required"
  const EmailInUseMessage := "Email already in use"
  const DeletedMessage := "User deleted successfully"
  /** The 500 replies when the query engine rejects a field of the wrong type. */
  const CreateFailedMessage := "Error while creating user"
  const UpdateFailedMessage := "Error while updating user"

  datatype LegacyUser = LegacyUser(id: int, name: string, email: string)

  /** The table and the next identifier its sequence will hand out. */
  datatype Table = Table(rows: map<int, LegacyUser>, nextId: int)

  /** Ids in [1, nextId) and matching their key; emails unique. */
  ghost predicate Valid(t: Table) {
    && t.nextId >= 1
    && (forall id :: id in t.rows ==> 1 <= id < t.nextId && t.rows[id].id == id)
    && (forall a, b :: a in t.rows && b in t.rows && t.rows[a].email == t.rows[b].email ==> a == b)
  }

  /** Whether a row other than `except` holds this email. */
  predicate EmailHeld(t: Table, email: string, except: int) {
    exists id :: id in t.rows && t.rows[id].email == email && id != except
  }

  /** Whether the engine takes the body field for a text column: absent or a string. */
  predicate Writable(v: Value) {
    v == Undefined || v.Str?
  }

  /** The column's value after the write: the given string, or the stored one when absent. */
  function TextOr(v: Value, prior: string): (r: string)
    requires Writable(v)
    ensures v == Undefined ==> r == prior
    ensures v.Str? ==> v == Str(r)
  {
    if v.Str? then v.s else prior
  }

  /** The row a route parameter names; a parameter that does not parse names no row. */
  function Row(t: Table, id: Value): (r: Option<LegacyUser>)
    ensures r.Some? <==> ParamInt(id).Some? && ParamInt(id).value in t.rows
    ensures r.Some? ==> r.value == t.rows[ParamInt(id).value]
  {
    var k := ParamInt(id);
    if k.Some? && k.value in t.rows then Some(t.rows[k.value]) else None
  }

  /** `getAllUsers`: every row, each once. */
  function GetAllUsers(t: Table): (r: set<LegacyUser>)
    requires Valid(t)
    ensures forall u :: u in r <==> u.id in t.rows && t.rows[u.id] == u
  {
    set id | id in t.rows :: t.rows[id]
  }

  /**
   * `createUser`: name and email must both be truthy (400); a field that is
   * not a string is rejected by the engine (500); an email already held is
   * a 409; otherwise one row is added under the next id.
   */
  function CreateUser(t: Table, name: Value, email: Value): (r: (Table, Outcome<LegacyUser>))
    requires Valid(t)
    ensures Valid(r.0)
    ensures !r.1.Success? ==> r.0 == t
    ensures !Truthy(name) || !Truthy(email) ==> r.1 == Error(BadRequest, MissingFieldsMessage)
    ensures Truthy(name) && Truthy(email) && !(name.Str? && email.Str?) ==>
      r.1 == Error(ServerError, CreateFailedMessage)
    ensures Truthy(name) && Truthy(email) && name.Str? && email.Str? ==>
      (r.1.Success? <==> !EmailHeld(t, email.s, 0))
    ensures r.1.Error? && r.1.status == Conflict ==> r.1.message == DuplicateEmailMessage
    ensures r.1.Success? ==>
      && name.Str? && email.Str? && name.s != "" && email.s != ""
      && r.1 == Success(Created, LegacyUser(t.nextId, name.s, email.s))
      && t.nextId !in t.rows
      && r.0 == Table(t.rows[t.nextId := r.1.value], t.nextId + 1)
  {
    if !Truthy(name) || !Truthy(email) then (t, Error(BadRequest, MissingFieldsMessage))
    else if !name.Str? || !email.Str? then (t, Error(ServerError, CreateFailedMessage))
    else if EmailHeld(t, email.s, 0) then (t, Error(Conflict, DuplicateEmailMessage))
    else
      var u := LegacyUser(t.nextId, name.s, email.s);
      (Table(t.rows[u.id := u], t.nextId + 1), Success(Created, u))
  }

  /** `getUserById`: the row, or 404. */
  function GetUserById(t: Table, id: Value): (r: Outcome<LegacyUser>)
    ensures r.Success? <==> Row(t, id).Some?
    ensures r.Success? ==> r == Success(Ok, Row(t, id).value)
    ensures !r.Success? ==> r == Error(NotFound, UserNotFound)
  {
    match Row(t, id)
    case None => Error(NotFound, UserNotFound)
    case Some(u) => Success(Ok, u)
  }

  /**
   * `updateUser`: at least one of name and email must be truthy (400); the
   * row must exist (404); a present field that is not a string, `null`
   * included, is rejected by the engine (500); each present field replaces
   * the stored one (an empty string included); a new email held by another
   * row is a 409.
   */
  function UpdateUser(t: Table, id: Value, name: Value, email: Value): (r: (Table, Outcome<LegacyUser>))
    requires Valid(t)
    ensures Valid(r.0)
    ensures !r.1.Success? ==> r.0 == t
    ensures !Truthy(name) && !Truthy(email) ==> r.1 == Error(BadRequest, NothingToUpdateMessage)
    ensures (Truthy(name) || Truthy(email)) && Row(t, id).None? ==> r.1 == Error(NotFound, UserNotFound)
    ensures (Truthy(name) || Truthy(email)) && Row(t, id).Some? && !(Writable(name) && Writable(email)) ==>
      r.1 == Error(ServerError, UpdateFailedMessage)
    ensures r.1.Success? ==>
      var prior := Row(t, id).value;
      && Row(t, id).Some? && Writable(name) && Writable(email)
      && r.1 == Success(Ok, LegacyUser(prior.id, TextOr(name, prior.name), TextOr(email, prior.email)))
      && r.0 == t.(rows := t.rows[prior.id := r.1.value])
    ensures (Truthy(name) || Truthy(email)) && Row(t, id).Some? && Writable(name) && Writable(email) ==>
      (r.1.Success? <==> !EmailHeld(t, TextOr(email, Row(t, id).value.email), Row(t, id).value.id))
    ensures r.1.Error? && r.1.status == Conflict ==> r.1.message == EmailInUseMessage
  {
    if !Truthy(name) && !Truthy(email) then (t, Error(BadRequest, NothingToUpdateMessage))
    else
      match Row(t, id)
      case None => (t, Error(NotFound, UserNotFound))
      case Some(prior) =>
        if !Writable(name) || !Writable(email) then (t, Error(ServerError, UpdateFailedMessage))
        else
          var u := LegacyUser(prior.id, TextOr(name, prior.name), TextOr(email, prior.email));
          if EmailHeld(t, u.email, u.id) then (t, Error(Conflict, EmailInUseMessage))
          else (t.(rows := t.rows[u.id := u]), Success(Ok, u))
  }

  /** `deleteUser`: 404 for a missing row; otherwise exactly that row goes. */
  function DeleteUser(t: Table, id: Value): (r: (Table, Outcome<string>))
    requires Valid(t)
    ensures Valid(r.0)
    ensures Row(t, id).None? ==> r == (t, Error(NotFound, UserNotFound))
    ensures Row(t, id).Some? ==>
      && r.1 == Success(Ok, DeletedMessage)
      && r.0 == t.(rows := t.rows - {Row(t, id).value.id})
  {
    match Row(t, id)
    case None => (t, Error(NotFound, UserNotFound))
    case Some(u) => (t.(rows := t.rows - {u.id}), Success(Ok, DeletedMessage))
  }

  /** A created user is found by its id. */
  lemma CreateThenGet(t: Table, name: string, email: string)
    requires Valid(t)
    requires CreateUser(t, Str(name), Str(email)).1.Success?
    ensures var (t1, o) := CreateUser(t, Str(name), Str(email));
      GetUserById(t1, Num(o.value.id)) == Success(Ok, LegacyUser(o.value.id, name, email))
  {
    var (t1, o) := CreateUser(t, Str(name), Str(email));
    ParseShowRoundTrip(o.value.id);
  }

  /** Creating a second user with the same email is refused. */
  lemma SecondCreateConflicts(t: Table, name: string, other: string, email: string)
    requires Valid(t)
    requires CreateUser(t, Str(name), Str(email)).1.Success?
    requires other != ""
    ensures CreateUser(CreateUser(t, Str(name), Str(email)).0, Str(other), Str(email)).1
      == Error(Conflict, DuplicateEmailMessage)
  {
    var t1 := CreateUser(t, Str(name), Str(email)).0;
    assert t1.rows[t.nextId].email == email;
    assert EmailHeld(t1, email, 0);
  }

  /** After a delete the same id is not found, and deleting it again is a 404. */
  lemma DeleteThenGet(t: Table, id: Value)
    requires Valid(t)
    ensures var t1 := DeleteUser(t, id).0;
      GetUserById(t1, id) == Error(NotFound, UserNotFound) && DeleteUser(t1, id).1 == Error(NotFound, UserNotFound)
  {
  }

  /** An update that succeeded is what a lookup by the same id then returns. */
  lemma UpdateThenGet(t: Table, id: Value, name: Value, email: Value)
    requires Valid(t)
    requires UpdateUser(t, id, name, email).1.Success?
    ensures var (t1, o) := UpdateUser(t, id, name, email);
      GetUserById(t1, id) == o
  {
  }

  /**
   * A truthy field that is not a string passes the presence check and is
   * then rejected by the engine: a 500, and the table is unchanged.
   */
  lemma NonTextFieldFailsCreate(t: Table, n: int, email: string)
    requires Valid(t)
    requires n != 0 && email != ""
    ensures CreateUser(t, Num(n), Str(email)) == (t, Error(ServerError, CreateFailedMessage))
  {
  }

  /**
   * An update sending `name: null` with a truthy email passes the
   * at-least-one check, and `null !== undefined` sends the null on to the
   * engine, which rejects it for the text column: a 500 and no change.
   */
  lemma NullNameFailsUpdate(t: Table, id: Value, email: string)
    requires Valid(t)
    requires Row(t, id).Some? && email != ""
    ensures UpdateUser(t, id, Null, Str(email)) == (t, Error(ServerError, UpdateFailedMessage))
  {
  }
}
