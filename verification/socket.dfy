/**
 * The real-time handlers of the chat server: each socket event is one atomic
 * transition from a server state to a new state plus the list of events it
 * emits, each tagged with where it goes.
 *
 * Rooms are keyed by the raw value the client supplied, as socket.io's
 * adapter does: the number 42 and the string "42" name different rooms. A
 * stored message's `chatId` is the numeric coercion of that value, so the
 * room a message was sent to and the room its later edits go to can differ.
 * Each socket is also in the room named by its own id from the moment it
 * connects.
 */
module ChatSocket {
  import opened Wrappers
  import opened Js
  import opened MessageStore

  /** socket.io's `socket.id`: a text that also names the socket's own room. */
  type SocketId = string

  /** The `status_update` payload, relayed verbatim. */
  datatype StatusPayload = StatusPayload(userId: Value, status: Value)

  datatype ServerEvent =
    | ChatHistory(history: seq<Message>)
    | ReceiveMessage(message: Message)
    | MessageEdited(message: Message)
    | MessageDeleted(messageId: MessageId)
    | StatusUpdate(payload: StatusPayload)

  /** `socket.emit` (the caller), `io.to(room).emit` and `io.emit` (everyone). */
  datatype Target = Caller(socket: SocketId) | Room(key: Value) | Everyone

  datatype Emit = Emit(target: Target, event: ServerEvent)

  datatype Server = Server(store: Store, rooms: map<Value, set<SocketId>>, connected: set<SocketId>)

  /** The outcome of handling one event. */
  datatype Step = Step(server: Server, emits: seq<Emit>)

  /** The `send_message` payload `{ chatId, username, content, type, media }`. */
  datatype SendData = SendData(chatId: Value, username: string, content: string, kind: Option<string>, media: Option<Media>)

  /**
   * Every room is non-empty and holds only connected sockets, every
   * connected socket is in the room named by its own id, and the store is
   * valid.
   */
  ghost predicate Valid(s: Server) {
    && MessageStore.Valid(s.store)
    && (forall k :: k in s.rooms ==> s.rooms[k] != {} && s.rooms[k] <= s.connected)
    && (forall id :: id in s.connected ==> id in Members(s, Str(id)))
  }

  function Members(s: Server, k: Value): set<SocketId> {
    if k in s.rooms then s.rooms[k] else {}
  }

  /** The sockets an emit with this target reaches. */
  function Recipients(s: Server, t: Target): set<SocketId> {
    match t
    case Caller(id) => if id in s.connected then {id} else {}
    case Room(k) => Members(s, k)
    case Everyone => s.connected
  }

  /** The events socket `id` receives from a list of emits, in emission order. */
  function Inbox(s: Server, emits: seq<Emit>, id: SocketId): seq<ServerEvent>
    decreases |emits|
  {
    if emits == [] then []
    else (if id in Recipients(s, emits[0].target) then [emits[0].event] else []) + Inbox(s, emits[1..], id)
  }

  /**
   * The chat a raw key denotes for the store: `null` and values that coerce
   * to NaN denote none; everything else its `Number(...)` value.
   */
  function NumericChatId(k: Value): Option<int> {
    if k == Null then None else ToNumber(k)
  }

  /** The room `io.to(msg.chatId)` addresses: the stored number, or `undefined`. */
  function StoredRoom(chatId: Option<int>): Value {
    match chatId
    case Some(n) => Num(n)
    case None => Undefined
  }

  /** `data.type || 'text'`. */
  function KindOrText(kind: Option<string>): (r: string)
    ensures r == "text" <==> kind.None? || kind.value == "" || kind.value == "text"
    ensures r != "text" ==> kind == Some(r)
  {
    if TruthyText(kind) then kind.value else "text"
  }

  /* ---------- connection lifecycle (socket.io's own bookkeeping) ---------- */

  /** A connection joins the socket to the room named by its own id, as socket.io does. */
  function Connect(s: Server, id: SocketId): (r: Server)
    requires Valid(s)
    requires id !in s.connected
    ensures Valid(r)
    ensures r.connected == s.connected + {id}
    ensures Members(r, Str(id)) == Members(s, Str(id)) + {id}
    ensures forall k :: k != Str(id) ==> Members(r, k) == Members(s, k)
    ensures r.store == s.store
  {
    Server(s.store, s.rooms[Str(id) := Members(s, Str(id)) + {id}], s.connected + {id})
  }

  /** A disconnect leaves every room; rooms left empty are dropped. */
  function Disconnect(s: Server, id: SocketId): (r: Server)
    requires Valid(s)
    ensures Valid(r)
    ensures r.connected == s.connected - {id}
    ensures r.store == s.store
    ensures forall k :: Members(r, k) == Members(s, k) - {id}
  {
    var rooms := map k | k in s.rooms && s.rooms[k] - {id} != {} :: s.rooms[k] - {id};
    Server(s.store, rooms, s.connected - {id})
  }

  /* ---------- the handlers of socket.js ---------- */

  /**
   * `join_chat`: joins the room named by the raw key, then replies to the
   * caller alone with the chat's history when the key is numeric, and with an
   * empty history otherwise.
   */
  function JoinChat(s: Server, id: SocketId, key: Value): (r: Step)
    requires Valid(s)
    requires id in s.connected
    ensures Valid(r.server)
    ensures r.server.store == s.store && r.server.connected == s.connected
    ensures Members(r.server, key) == Members(s, key) + {id}
    ensures forall k :: k != key ==> Members(r.server, k) == Members(s, k)
    ensures |r.emits| == 1 && r.emits[0].target == Caller(id) && r.emits[0].event.ChatHistory?
    ensures NumericChatId(key).None? ==> r.emits[0].event.history == []
    ensures NumericChatId(key).Some? ==> r.emits[0].event.history == Recent(s.store, NumericChatId(key).value)
  {
    var rooms := s.rooms[key := Members(s, key) + {id}];
    var history := match NumericChatId(key)
      case None => []
      case Some(c) => Recent(s.store, c);
    Step(s.(rooms := rooms), [Emit(Caller(id), ChatHistory(history))])
  }

  /**
   * `send_message`: persists one new message, then emits it to every socket
   * in the room named by the client-supplied key, the sender included.
   */
  function SendMessage(s: Server, data: SendData, now: int): (r: Step)
    requires Valid(s)
    ensures Valid(r.server)
    ensures r.server.rooms == s.rooms && r.server.connected == s.connected
    ensures s.store.nextId !in s.store.messages && s.store.nextId in r.server.store.messages
    ensures var m := r.server.store.messages[s.store.nextId];
      && r.server.store.messages == s.store.messages[s.store.nextId := m]
      && m.chatId == NumericChatId(data.chatId)
      && m.senderUsername == data.username && m.content == data.content
      && m.kind == KindOrText(data.kind) && m.media == data.media
      && !m.isEdited && !m.isDeleted && m.createdAt == now
      && r.emits == [Emit(Room(data.chatId), ReceiveMessage(m))]
  {
    var (store, m) := Save(s.store, NumericChatId(data.chatId), data.username, data.content,
                           KindOrText(data.kind), data.media, now);
    Step(s.(store := store), [Emit(Room(data.chatId), ReceiveMessage(m))])
  }

  /**
   * `edit_message`: when the message exists, belongs to `username` and is not
   * deleted, replaces its content, marks it edited and emits the updated
   * record to the room of its stored chat; otherwise nothing happens.
   */
  function EditMessage(s: Server, messageId: MessageId, username: string, content: string): (r: Step)
    requires Valid(s)
    ensures Valid(r.server)
    ensures r.server.rooms == s.rooms && r.server.connected == s.connected
    ensures !OwnedLive(s.store, messageId, username) ==> r == Step(s, [])
    ensures OwnedLive(s.store, messageId, username) ==>
      var old_ := s.store.messages[messageId];
      var m := old_.(content := content, isEdited := true);
      && r.server.store == Store(s.store.messages[messageId := m], s.store.nextId)
      && r.emits == [Emit(Room(StoredRoom(old_.chatId)), MessageEdited(m))]
  {
    var (store, updated) := UpdateIfOwner(s.store, messageId, username, EditContent(content));
    match updated
    case None => Step(s, [])
    case Some(m) => Step(s.(store := store), [Emit(Room(StoredRoom(m.chatId)), MessageEdited(m))])
  }

  /**
   * `delete_message`: under the same filter as edit, soft-deletes the message
   * (content cleared) and emits only its identifier to the room of its stored
   * chat; otherwise nothing happens.
   */
  function DeleteMessage(s: Server, messageId: MessageId, username: string): (r: Step)
    requires Valid(s)
    ensures Valid(r.server)
    ensures r.server.rooms == s.rooms && r.server.connected == s.connected
    ensures !OwnedLive(s.store, messageId, username) ==> r == Step(s, [])
    ensures OwnedLive(s.store, messageId, username) ==>
      var old_ := s.store.messages[messageId];
      var m := old_.(isDeleted := true, content := "");
      && r.server.store == Store(s.store.messages[messageId := m], s.store.nextId)
      && r.emits == [Emit(Room(StoredRoom(old_.chatId)), MessageDeleted(messageId))]
  {
    var (store, updated) := UpdateIfOwner(s.store, messageId, username, SoftDelete);
    match updated
    case None => Step(s, [])
    case Some(m) => Step(s.(store := store), [Emit(Room(StoredRoom(m.chatId)), MessageDeleted(messageId))])
  }

  /** `update_status`: relays the payload unchanged to every connected socket. */
  function UpdateStatus(s: Server, payload: StatusPayload): (r: Step)
    requires Valid(s)
    ensures r.server == s
    ensures r.emits == [Emit(Everyone, StatusUpdate(payload))]
  {
    Step(s, [Emit(Everyone, StatusUpdate(payload))])
  }
}
