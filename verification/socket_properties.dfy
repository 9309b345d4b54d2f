/**
 * Properties of the real-time handlers: who receives what, the lifetime of a
 * deleted message, and the invariant every sequence of events preserves.
 */
module ChatSocketProperties {
  import opened Wrappers
  import opened Js
  import opened MessageStore
  import opened ChatSocket

  /** One inbound event, as the transport delivers it. */
  datatype ClientEvent =
    | Connected(socket: SocketId)
    | Disconnected(socket: SocketId)
    | JoinChatEvent(socket: SocketId, key: Value)
    | SendMessageEvent(data: SendData, now: int)
    | EditMessageEvent(messageId: MessageId, username: string, content: string)
    | DeleteMessageEvent(messageId: MessageId, username: string)
    | UpdateStatusEvent(payload: StatusPayload)

  /** Handles one event; events from sockets that are not (or already) connected are dropped. */
  function Handle(s: Server, e: ClientEvent): (r: Step)
    requires ChatSocket.Valid(s)
    ensures ChatSocket.Valid(r.server)
  {
    match e
    case Connected(id) => if id in s.connected then Step(s, []) else Step(Connect(s, id), [])
    case Disconnected(id) => Step(Disconnect(s, id), [])
    case JoinChatEvent(id, key) => if id in s.connected then JoinChat(s, id, key) else Step(s, [])
    case SendMessageEvent(data, now) => SendMessage(s, data, now)
    case EditMessageEvent(mid, u, c) => EditMessage(s, mid, u, c)
    case DeleteMessageEvent(mid, u) => DeleteMessage(s, mid, u)
    case UpdateStatusEvent(p) => UpdateStatus(s, p)
  }

  /** The state after handling the events in order. */
  function Run(s: Server, events: seq<ClientEvent>): (r: Server)
    requires ChatSocket.Valid(s)
    ensures ChatSocket.Valid(r)
    decreases |events|
  {
    if events == [] then s else Run(Handle(s, events[0]).server, events[1..])
  }

  /** Stored records are never removed and a deleted record never changes again. */
  lemma {:induction false} DeletedStaysDeleted(s: Server, events: seq<ClientEvent>, id: MessageId)
    requires ChatSocket.Valid(s)
    requires id in s.store.messages && s.store.messages[id].isDeleted
    ensures id in Run(s, events).store.messages
    ensures Run(s, events).store.messages[id] == s.store.messages[id]
    ensures Run(s, events).store.messages[id].content == ""
    decreases |events|
  {
    if events != [] {
      var next := Handle(s, events[0]).server;
      assert id in next.store.messages && next.store.messages[id] == s.store.messages[id];
      DeletedStaysDeleted(next, events[1..], id);
    }
  }

  /** `chat_history` reaches the joining socket and no other socket. */
  lemma HistoryOnlyToJoiner(s: Server, id: SocketId, key: Value, other: SocketId)
    requires ChatSocket.Valid(s) && id in s.connected
    ensures var r := JoinChat(s, id, key);
      && Inbox(r.server, r.emits, id) == [r.emits[0].event]
      && (other != id ==> Inbox(r.server, r.emits, other) == [])
  {
  }

  /** A non-numeric key still joins the room but yields an empty history. */
  lemma NonNumericKeyJoinsWithoutHistory(s: Server, id: SocketId, text: string)
    requires ChatSocket.Valid(s) && id in s.connected
    requires text != "" && ParseInt(text).None?
    ensures var r := JoinChat(s, id, Str(text));
      && id in Members(r.server, Str(text))
      && r.emits == [Emit(Caller(id), ChatHistory([]))]
  {
  }

  /**
   * The sent message reaches exactly the sockets in the room named by the
   * client's key, once each, the sender included when it joined that room.
   */
  lemma SendReachesRoom(s: Server, data: SendData, now: int, other: SocketId)
    requires ChatSocket.Valid(s)
    ensures var r := SendMessage(s, data, now);
      var m := r.server.store.messages[s.store.nextId];
      Inbox(r.server, r.emits, other) == if other in Members(s, data.chatId) then [ReceiveMessage(m)] else []
  {
  }

  /**
   * A socket is in its own room from the moment it connects: a message sent
   * with its id as the chat key reaches it, although it joined nothing.
   */
  lemma OwnRoomReceivesWithoutJoin(s: Server, id: SocketId, data: SendData, now: int)
    requires ChatSocket.Valid(s) && id !in s.connected
    requires data.chatId == Str(id)
    ensures var c := Connect(s, id);
      var r := SendMessage(c, data, now);
      Inbox(r.server, r.emits, id) == [ReceiveMessage(r.server.store.messages[s.store.nextId])]
  {
    var c := Connect(s, id);
    SendReachesRoom(c, data, now, id);
  }

  /** A message stored from a numeric key has that number as its chat. */
  lemma SendStoresNumericChat(s: Server, data: SendData, now: int)
    requires ChatSocket.Valid(s)
    ensures var m := SendMessage(s, data, now).server.store.messages[s.store.nextId];
      && (data.chatId.Num? ==> m.chatId == Some(data.chatId.n))
      && (data.chatId == Undefined || data.chatId == Null ==> m.chatId == None)
  {
  }

  /** Once deleted, a message can be neither edited nor deleted again, by anyone. */
  lemma DeletedMessageIsFinal(s: Server, id: MessageId, owner: string, anyone: string, content: string)
    requires ChatSocket.Valid(s)
    requires OwnedLive(s.store, id, owner)
    ensures var d := DeleteMessage(s, id, owner).server;
      && d.store.messages[id].isDeleted && d.store.messages[id].content == ""
      && EditMessage(d, id, anyone, content) == Step(d, [])
      && DeleteMessage(d, id, anyone) == Step(d, [])
  {
  }

  /** Only the sender can edit: an edit under another name changes nothing and emits nothing. */
  lemma OnlySenderEdits(s: Server, data: SendData, now: int, intruder: string, content: string)
    requires ChatSocket.Valid(s)
    requires intruder != data.username
    ensures var s1 := SendMessage(s, data, now).server;
      EditMessage(s1, s.store.nextId, intruder, content) == Step(s1, [])
  {
  }

  /**
   * Room keys are compared raw: a message sent to the string key "n" is
   * received by a socket that joined "n", but its edit goes to the number n,
   * which that socket does not receive unless it also joined the number.
   */
  lemma StringRoomMissesEdits(s: Server, data: SendData, now: int, content: string, watcher: SocketId)
    requires ChatSocket.Valid(s)
    requires data.chatId.Str? && NumericChatId(data.chatId).Some?
    requires watcher in Members(s, data.chatId) && watcher !in Members(s, Num(NumericChatId(data.chatId).value))
    ensures var s1 := SendMessage(s, data, now);
      var s2 := EditMessage(s1.server, s.store.nextId, data.username, content);
      && |Inbox(s1.server, s1.emits, watcher)| == 1
      && Inbox(s2.server, s2.emits, watcher) == []
  {
    var s1 := SendMessage(s, data, now);
    assert OwnedLive(s1.server.store, s.store.nextId, data.username);
  }

  /** `status_update` reaches every connected socket, in a room or not, and nothing changes. */
  lemma StatusReachesEveryone(s: Server, payload: StatusPayload, id: SocketId)
    requires ChatSocket.Valid(s)
    ensures var r := UpdateStatus(s, payload);
      && r.server.store == s.store
      && Inbox(r.server, r.emits, id) == if id in s.connected then [StatusUpdate(payload)] else []
  {
  }

  /** Joining and then disconnecting leaves every room as it was before the join, minus the socket. */
  lemma JoinThenDisconnect(s: Server, id: SocketId, key: Value)
    requires ChatSocket.Valid(s) && id in s.connected
    ensures var r := Disconnect(JoinChat(s, id, key).server, id);
      forall k :: Members(r, k) == Members(s, k) - {id}
  {
  }
}
