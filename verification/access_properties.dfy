/**
 * How the permission gates answer once the controllers have changed the rows
 * they read: a profile update that flips `showStatus` or `allowInvites`, a
 * block that removes contacts, and the ownership gate's self case against
 * the viewing gates. Route parameters are text, so a path id is written as
 * the decimal text of the row id.
 */
module AccessProperties {
  import opened Wrappers
  import opened Js
  import opened Http
  import opened Db
  import opened Permissions
  import Users
  import Blocks

  /**
   * After a successful update that sets `showStatus`, the status gate for
   * the updated user follows the new flag: the user still sees their own
   * status, and any other caller passes exactly when the flag is true,
   * being refused with a 403 otherwise.
   */
  lemma StatusGateFollowsUpdate(db: Db, params: Object, body: Object, show: bool, caller: int)
    requires UsersValid(db.users, db.nextUserId)
    requires Get(body, "showStatus") == Bool(show)
    requires Users.UpdateUser(db, params, body).1.Success?
    ensures var (d, o) := Users.UpdateUser(db, params, body);
      var path := Str(ShowInt(o.value.id));
      && CanViewUserStatus(d, o.value.id, path) == Next
      && (caller != o.value.id ==>
            CanViewUserStatus(d, caller, path) == if show then Next else Deny(Forbidden, StatusHidden))
  {
    var (d, o) := Users.UpdateUser(db, params, body);
    ParseShowRoundTrip(o.value.id);
    assert d.users[o.value.id].showStatus == show;
  }

  /** An update whose body leaves `showStatus` out changes no answer of the status gate. */
  lemma StatusGateUntouched(db: Db, params: Object, body: Object, caller: int, userId: Value)
    requires UsersValid(db.users, db.nextUserId)
    requires Get(body, "showStatus") == Undefined
    ensures var d := Users.UpdateUser(db, params, body).0;
      CanViewUserStatus(d, caller, userId) == CanViewUserStatus(db, caller, userId)
  {
    var (d, o) := Users.UpdateUser(db, params, body);
    if o.Success? {
      var id := o.value.id;
      assert d.users.Keys == db.users.Keys;
      assert forall k :: k in d.users ==> d.users[k].showStatus == db.users[k].showStatus;
    }
  }

  /**
   * After a successful update that sets `allowInvites`, an invitation naming
   * the updated user by number passes exactly when the flag is true, and is
   * refused with a 403 otherwise.
   */
  lemma InvitesGateFollowsUpdate(db: Db, params: Object, body: Object, allow: bool)
    requires UsersValid(db.users, db.nextUserId)
    requires Get(body, "allowInvites") == Bool(allow)
    requires Users.UpdateUser(db, params, body).1.Success?
    ensures var (d, o) := Users.UpdateUser(db, params, body);
      CanReceiveInvites(d, Num(o.value.id)) == if allow then Next else Deny(Forbidden, InvitesRefused)
  {
    var (d, o) := Users.UpdateUser(db, params, body);
    assert 1 <= o.value.id;
    assert d.users[o.value.id].allowInvites == allow;
  }

  /** An update whose body leaves `allowInvites` out changes no answer of the invite gate. */
  lemma InvitesGateUntouched(db: Db, params: Object, body: Object, contactId: Value)
    requires UsersValid(db.users, db.nextUserId)
    requires Get(body, "allowInvites") == Undefined
    ensures var d := Users.UpdateUser(db, params, body).0;
      CanReceiveInvites(d, contactId) == CanReceiveInvites(db, contactId)
  {
    var (d, o) := Users.UpdateUser(db, params, body);
    if o.Success? {
      assert d.users.Keys == db.users.Keys;
      assert forall k :: k in d.users ==> d.users[k].allowInvites == db.users[k].allowInvites;
    }
  }

  /**
   * A path id that passes the `user` ownership gate also passes the profile
   * gate: it names the caller, and the caller may always see their own profile.
   */
  lemma OwnUserPassesProfileGate(db: Db, caller: int, id: Value, userId: Value)
    requires id.Str?
    requires RequireResourceOwnership("user", db, caller, id) == Next
    ensures CanViewUserProfile(db, caller, id, userId) == Next
  {
    assert ParseInt(id.s).Some?;
    assert id.s != "";
  }

  /**
   * A path id that passes the `status` ownership gate passes the status gate
   * too when it is given as `userId`: it names the caller's own status.
   */
  lemma OwnStatusPassesStatusGate(db: Db, caller: int, id: Value)
    requires RequireResourceOwnership("status", db, caller, id) == Next
    ensures CanViewUserStatus(db, caller, id) == Next
  {
    assert ParamInt(id) == Some(caller);
  }

  /**
   * After a successful block, the caller can no longer reach, through the
   * `contact` ownership gate, a contact row that linked them to the blocked
   * user; a contact of theirs with anyone else still passes.
   */
  lemma BlockRevokesContactAccess(db: Db, caller: int, b: int, k: int)
    requires Blocks.Valid(db) && caller in db.users
    requires Blocks.BlockUser(db, caller, Num(b)).1.Success?
    requires k in db.contacts
    ensures var d := Blocks.BlockUser(db, caller, Num(b)).0;
      && (Between(db.contacts[k], caller, b) ==>
            RequireResourceOwnership("contact", d, caller, Str(ShowInt(k))) == Deny(Forbidden, ContactNotOwned))
      && (!Between(db.contacts[k], caller, b) ==>
            RequireResourceOwnership("contact", d, caller, Str(ShowInt(k)))
              == RequireResourceOwnership("contact", db, caller, Str(ShowInt(k))))
  {
    Blocks.BlockFrame(db, caller, b);
    ParseShowRoundTrip(k);
    var d := Blocks.BlockUser(db, caller, Num(b)).0;
    if Between(db.contacts[k], caller, b) {
      assert k !in d.contacts;
    }
  }
}
