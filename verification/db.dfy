/**
 * The relational tables the REST handlers query, as plain maps from row
 * identifier to row. Identifiers are assigned in increasing order from 1, so
 * every key of a table lies in [1, next).
 */
module Db {
  import opened Wrappers

  datatype User = User(
    id: int,
    username: string,
    email: string,
    displayName: string,
    avatarUrl: Option<string>,
    isAdmin: bool,
    showStatus: bool,
    allowInvites: bool,
    searchable: bool,
    emailVerified: bool,
    createdAt: int,
    updatedAt: int)

  /** A member's role in a chat; only OWNER and ADMIN are named by the handlers. */
  datatype Role = Owner | Admin | Member

  datatype Chat = Chat(ownerId: int)
  datatype ChatMember = ChatMember(chatId: int, userId: int, role: Role)
  datatype Contact = Contact(ownerId: int, contactId: int)
  datatype Notification = Notification(userId: int)
  datatype Block = Block(blockerId: int, blockedId: int)

  datatype Db = Db(
    users: map<int, User>,
    nextUserId: int,
    chats: map<int, Chat>,
    members: map<int, ChatMember>,
    contacts: map<int, Contact>,
    notifications: map<int, Notification>,
    blocks: map<int, Block>,
    nextBlockId: int)

  /** The user table's guarantees: ids in range and matching, unique usernames and emails. */
  ghost predicate UsersValid(users: map<int, User>, next: int) {
    && (forall id :: id in users ==> 1 <= id < next && users[id].id == id)
    && (forall a, b :: a in users && b in users && users[a].username == users[b].username ==> a == b)
    && (forall a, b :: a in users && b in users && users[a].email == users[b].email ==> a == b)
  }

  /** The user with this username among ids in [from, next), scanning upwards. */
  function FindUsernameFrom(users: map<int, User>, name: string, from: int, next: int): (r: Option<int>)
    ensures r.Some? ==> from <= r.value < next && r.value in users && users[r.value].username == name
    ensures r.None? ==> forall id :: from <= id < next && id in users ==> users[id].username != name
    decreases next - from
  {
    if from >= next then None
    else if from in users && users[from].username == name then Some(from)
    else FindUsernameFrom(users, name, from + 1, next)
  }

  /** `findUnique({ where: { username } })`. */
  function FindByUsername(users: map<int, User>, next: int, name: string): (r: Option<int>)
    requires UsersValid(users, next)
    ensures r.Some? ==> r.value in users && users[r.value].username == name
    ensures r.None? <==> forall id :: id in users ==> users[id].username != name
  {
    FindUsernameFrom(users, name, 1, next)
  }

  /** Whether some user other than `except` already has this email (a unique-constraint clash). */
  predicate EmailTaken(users: map<int, User>, email: string, except: Option<int>) {
    exists id :: id in users && users[id].email == email && Some(id) != except
  }

  /** Whether a contact links the two users, in either direction. */
  predicate Between(c: Contact, a: int, b: int) {
    (c.ownerId == a && c.contactId == b) || (c.ownerId == b && c.contactId == a)
  }
}
