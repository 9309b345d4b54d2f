/**
 * The permission middleware: allow (`next()`) or deny decisions over the
 * user, chat, membership, contact and notification tables. Route parameters
 * are read with `parseInt`; a parameter that does not parse matches no row.
 */
module Permissions {
  import opened Wrappers
  import opened Js
  import opened Http
  import opened Db

  const StatusHidden := "This user does not allow their status to be viewed"
  const InvitesRefused := "This user does not allow invites"
  const ContactNotOwned := "Access denied: Contact not found or not owned by you"
  const NotOwnUser := "Access denied: You can only access your own user data"
  const NotOwnStatus := "Access denied: You can only modify your own status"
  const NotificationNotOwned := "Access denied: Notification not found or not owned by you"
  const ProfileHidden := "Access denied: You cannot view this user's profile"

  /** `requireAdmin`: passes exactly when the caller's row exists and is an admin. */
  function RequireAdmin(db: Db, userId: int): (r: Gate)
    ensures r == Next <==> userId in db.users && db.users[userId].isAdmin
    ensures r != Next ==> r == Deny(Forbidden, "Admin access required")
  {
    var user := if userId in db.users then Some(db.users[userId]) else None;
    if !(user.Some? && user.value.isAdmin) then Deny(Forbidden, "Admin access required") else Next
  }

  /** Whether a membership row links the user to the chat. */
  predicate IsMember(db: Db, chatId: int, userId: int) {
    exists m :: m in db.members && db.members[m].chatId == chatId && db.members[m].userId == userId
  }

  /**
   * `requireChatMembership`: a falsy chat id is a 400; otherwise the caller
   * passes exactly when a membership row links them to the chat, else 403.
   */
  function RequireChatMembership(db: Db, userId: int, chatId: Value): (r: Gate)
    ensures !Truthy(chatId) ==> r == Deny(BadRequest, "Chat ID is required")
    ensures Truthy(chatId) ==>
      (r == Next <==> ParamInt(chatId).Some? && IsMember(db, ParamInt(chatId).value, userId))
    ensures Truthy(chatId) && r != Next ==> r == Deny(Forbidden, "Access denied: You are not a member of this chat")
  {
    if !Truthy(chatId) then Deny(BadRequest, "Chat ID is required")
    else
      var c := ParamInt(chatId);
      var found := c.Some? && IsMember(db, c.value, userId);
      if !found then Deny(Forbidden, "Access denied: You are not a member of this chat") else Next
  }

  /** Whether the user holds the OWNER or ADMIN role in the chat. */
  predicate IsChatManager(db: Db, chatId: int, userId: int) {
    exists m :: m in db.members && db.members[m].chatId == chatId && db.members[m].userId == userId
      && db.members[m].role in {Owner, Admin}
  }

  /**
   * `requireChatAdminOrOwner`: passes exactly when the chat exists and the
   * caller is its owner or a member with role OWNER or ADMIN; otherwise 403.
   */
  function RequireChatAdminOrOwner(db: Db, userId: int, chatId: Value): (r: Gate)
    ensures r == Next <==>
      var c := ParamInt(chatId);
      c.Some? && c.value in db.chats && (db.chats[c.value].ownerId == userId || IsChatManager(db, c.value, userId))
    ensures r != Next ==> r == Deny(Forbidden, "Access denied: Admin or owner access required")
  {
    var c := ParamInt(chatId);
    var chat := c.Some? && c.value in db.chats &&
      (db.chats[c.value].ownerId == userId ||
       exists m :: m in db.members && (db.members[m] == ChatMember(c.value, userId, Owner) || db.members[m] == ChatMember(c.value, userId, Admin)));
    if !chat then Deny(Forbidden, "Access denied: Admin or owner access required") else Next
  }

  /**
   * `requireResourceOwnership(kind)`: for 'user' and 'status' the path id must
   * be the caller's id; for 'contact' and 'notification' the row with that id
   * must belong to the caller; any other kind passes unchecked.
   */
  function RequireResourceOwnership(kind: string, db: Db, userId: int, resourceId: Value): (r: Gate)
    ensures kind == "user" ==> (r == Next <==> ParamInt(resourceId) == Some(userId))
    ensures kind == "status" ==> (r == Next <==> ParamInt(resourceId) == Some(userId))
    ensures kind == "contact" ==> (r == Next <==>
      var k := ParamInt(resourceId); k.Some? && k.value in db.contacts && db.contacts[k.value].ownerId == userId)
    ensures kind == "notification" ==> (r == Next <==>
      var k := ParamInt(resourceId); k.Some? && k.value in db.notifications && db.notifications[k.value].userId == userId)
    ensures kind !in {"user", "status", "contact", "notification"} ==> r == Next
    ensures r != Next ==> r.status == Forbidden
    ensures r != Next && kind == "user" ==> r == Deny(Forbidden, NotOwnUser)
    ensures r != Next && kind == "status" ==> r == Deny(Forbidden, NotOwnStatus)
    ensures r != Next && kind == "contact" ==> r == Deny(Forbidden, ContactNotOwned)
    ensures r != Next && kind == "notification" ==> r == Deny(Forbidden, NotificationNotOwned)
  {
    var k := ParamInt(resourceId);
    if kind == "user" && k != Some(userId) then
      Deny(Forbidden, NotOwnUser)
    else if kind == "status" && k != Some(userId) then
      Deny(Forbidden, NotOwnStatus)
    else if kind == "contact" && !(k.Some? && k.value in db.contacts && db.contacts[k.value].ownerId == userId) then
      Deny(Forbidden, ContactNotOwned)
    else if kind == "notification" && !(k.Some? && k.value in db.notifications && db.notifications[k.value].userId == userId) then
      Deny(Forbidden, NotificationNotOwned)
    else Next
  }

  /** Whether a contact row links the two users in either direction. */
  predicate AreConnected(db: Db, a: int, b: int) {
    exists id :: id in db.contacts && Between(db.contacts[id], a, b)
  }

  /**
   * The shared-chat query as written: some chat every one of whose member
   * rows belongs to `a` or `b`. A chat without members satisfies it.
   */
  predicate SharedChat(db: Db, a: int, b: int) {
    exists c :: c in db.chats && forall m :: m in db.members && db.members[m].chatId == c ==>
      db.members[m].userId == a || db.members[m].userId == b
  }

  /** The target of a profile request: `parseInt(req.params.id || req.params.userId)`. */
  function ProfileTarget(id: Value, userId: Value): Option<int> {
    ParamInt(if Truthy(id) then id else userId)
  }

  /**
   * `canViewUserProfile`: self always passes; an unknown target is a 404;
   * otherwise the caller is denied (403) exactly when there is no contact in
   * either direction, no shared chat and the target is not searchable.
   */
  function CanViewUserProfile(db: Db, current: int, id: Value, userId: Value): (r: Gate)
    ensures var t := ProfileTarget(id, userId);
      && (t == Some(current) ==> r == Next)
      && (t != Some(current) && (t.None? || t.value !in db.users) ==> r == Deny(NotFound, "User not found"))
      && (t != Some(current) && t.Some? && t.value in db.users ==>
            (r == Next <==> AreConnected(db, current, t.value) || SharedChat(db, current, t.value) || db.users[t.value].searchable))
      && (t != Some(current) && t.Some? && t.value in db.users && r != Next ==> r == Deny(Forbidden, ProfileHidden))
      && (r != Next ==> r.status in {NotFound, Forbidden})
  {
    var t := ProfileTarget(id, userId);
    if t == Some(current) then Next
    else if t.None? || t.value !in db.users then Deny(NotFound, "User not found")
    else
      var target := db.users[t.value];
      var connected := exists k :: k in db.contacts &&
                         (db.contacts[k] == Contact(current, t.value) || db.contacts[k] == Contact(t.value, current));
      var shared := SharedChat(db, current, t.value);
      if !connected && !shared && !target.searchable then
        Deny(Forbidden, ProfileHidden)
      else Next
  }

  /**
   * `canViewUserStatus`: self always passes; an unknown target is a 404;
   * otherwise it passes exactly when the target shows their status, else 403.
   */
  function CanViewUserStatus(db: Db, current: int, userId: Value): (r: Gate)
    ensures var t := ParamInt(userId);
      && (t == Some(current) ==> r == Next)
      && (t != Some(current) && (t.None? || t.value !in db.users) ==> r == Deny(NotFound, "User not found"))
      && (t != Some(current) && t.Some? && t.value in db.users ==>
            (r == Next <==> db.users[t.value].showStatus))
      && (t != Some(current) && t.Some? && t.value in db.users && r != Next ==> r == Deny(Forbidden, StatusHidden))
      && (r != Next ==> r.status in {NotFound, Forbidden})
  {
    var t := ParamInt(userId);
    if t == Some(current) then Next
    else if t.None? || t.value !in db.users then Deny(NotFound, "User not found")
    else if !db.users[t.value].showStatus then Deny(Forbidden, StatusHidden)
    else Next
  }

  /**
   * `canReceiveInvites`: a falsy contact id is a 400; a value that is not a
   * number is rejected by the query (500); an unknown user is a 404; otherwise
   * it passes exactly when the user allows invites, else 403.
   */
  function CanReceiveInvites(db: Db, contactId: Value): (r: Gate)
    ensures !Truthy(contactId) ==> r == Deny(BadRequest, "Contact ID is required")
    ensures Truthy(contactId) && !contactId.Num? ==> r == Deny(ServerError, "Error checking invite permissions")
    ensures Truthy(contactId) && contactId.Num? ==>
      && (contactId.n !in db.users ==> r == Deny(NotFound, "Contact user not found"))
      && (contactId.n in db.users ==> (r == Next <==> db.users[contactId.n].allowInvites))
      && (contactId.n in db.users && r != Next ==> r == Deny(Forbidden, InvitesRefused))
  {
    if !Truthy(contactId) then Deny(BadRequest, "Contact ID is required")
    else if !contactId.Num? then Deny(ServerError, "Error checking invite permissions")
    else if contactId.n !in db.users then Deny(NotFound, "Contact user not found")
    else if !db.users[contactId.n].allowInvites then Deny(Forbidden, InvitesRefused)
    else Next
  }

  /* ---------- properties ---------- */

  /** A chat with no members is "shared" by every pair of users, so every existing profile is visible. */
  lemma EmptyChatOpensEveryProfile(db: Db, current: int, target: int, chat: int)
    requires chat in db.chats
    requires forall m :: m in db.members ==> db.members[m].chatId != chat
    requires target in db.users
    ensures CanViewUserProfile(db, current, Str(ShowInt(target)), Undefined) == Next
  {
    ParseShowRoundTrip(target);
    assert SharedChat(db, current, target);
  }

  /** A chat whose only member is the caller also counts as shared with any target. */
  lemma SoloChatOpensEveryProfile(db: Db, current: int, target: int, chat: int)
    requires chat in db.chats
    requires forall m :: m in db.members && db.members[m].chatId == chat ==> db.members[m].userId == current
    requires target in db.users
    ensures CanViewUserProfile(db, current, Str(ShowInt(target)), Undefined) == Next
  {
    ParseShowRoundTrip(target);
    assert SharedChat(db, current, target);
  }

  lemma ConnectedSymmetric(db: Db, a: int, b: int)
    ensures AreConnected(db, a, b) <==> AreConnected(db, b, a)
  {
    if AreConnected(db, a, b) {
      var k :| k in db.contacts && Between(db.contacts[k], a, b);
      assert Between(db.contacts[k], b, a);
    }
    if AreConnected(db, b, a) {
      var k :| k in db.contacts && Between(db.contacts[k], b, a);
      assert Between(db.contacts[k], a, b);
    }
  }

  lemma SharedChatSymmetric(db: Db, a: int, b: int)
    ensures SharedChat(db, a, b) <==> SharedChat(db, b, a)
  {
    if SharedChat(db, a, b) {
      var c :| c in db.chats && forall m :: m in db.members && db.members[m].chatId == c ==>
        db.members[m].userId == a || db.members[m].userId == b;
      assert forall m :: m in db.members && db.members[m].chatId == c ==>
        db.members[m].userId == b || db.members[m].userId == a;
    }
    if SharedChat(db, b, a) {
      var c :| c in db.chats && forall m :: m in db.members && db.members[m].chatId == c ==>
        db.members[m].userId == b || db.members[m].userId == a;
      assert forall m :: m in db.members && db.members[m].chatId == c ==>
        db.members[m].userId == a || db.members[m].userId == b;
    }
  }

  /** Contact and shared chat do not depend on who asks: profile visibility between existing non-searchable users is symmetric. */
  lemma ProfileVisibilitySymmetric(db: Db, a: int, b: int)
    requires a != b && a in db.users && b in db.users
    requires !db.users[a].searchable && !db.users[b].searchable
    ensures CanViewUserProfile(db, a, Str(ShowInt(b)), Undefined) == Next <==> CanViewUserProfile(db, b, Str(ShowInt(a)), Undefined) == Next
  {
    ParseShowRoundTrip(a);
    ParseShowRoundTrip(b);
    ConnectedSymmetric(db, a, b);
    SharedChatSymmetric(db, a, b);
  }

  /** An owner or admin of a chat who is also a member passes the membership check. */
  lemma ManagerIsMember(db: Db, userId: int, chatId: int)
    requires IsChatManager(db, chatId, userId)
    ensures RequireChatMembership(db, userId, Str(ShowInt(chatId))) == Next
  {
    ParseShowRoundTrip(chatId);
  }
}
