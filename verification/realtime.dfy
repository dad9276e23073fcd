/**
 * The socket.io server of app.js: the `onlineUsers` presence map with its
 * `register` and `disconnect` handlers, and the `sendMessage` handler that
 * stores a message, moves the chat's latest-message pointer and emits the
 * message to the chat room, leaving out the sending socket.
 *
 * Presence and the persisted state are specified by pure functions
 * (Registered, Disconnected, Sent); the class SocketServer holds the same
 * state in fields and its handlers are proved to follow those functions.
 */
module Realtime {
  import opened Models

  // ---------------------------------------------------------------------
  // Presence

  /**
   * `online` is the onlineUsers Map (user id to the set of its socket ids);
   * `userOf` is the `userId` field stamped on each socket that registered.
   */
  datatype Presence = Presence(online: map<UserId, set<SocketId>>, userOf: map<SocketId, UserId>)

  /** No user key maps to an empty set. */
  ghost predicate NoEmptyEntries(online: map<UserId, set<SocketId>>) {
    forall u :: u in online ==> online[u] != {}
  }

  /** The presence invariant: no empty entries, and every tracked socket carries a user id. */
  ghost predicate PresenceValid(p: Presence) {
    && NoEmptyEntries(p.online)
    && forall u, t :: u in p.online && t in p.online[u] ==> t in p.userOf
  }

  /** Socket `t` is listed under user `u`. */
  predicate Tracked(p: Presence, u: UserId, t: SocketId) {
    u in p.online && t in p.online[u]
  }

  /** `onlineUsers.has(u)`. */
  predicate IsOnline(p: Presence, u: UserId) {
    u in p.online
  }

  /** `socket.userId` of socket `s`, None when it never registered. */
  function UserIdOf(p: Presence, s: SocketId): Option<UserId> {
    if s in p.userOf then Some(p.userOf[s]) else None
  }

  /**
   * The `register` handler: adds `s` to the set of `u` (creating the set when
   * `u` has no entry) and stamps `socket.userId := u`. Exactly the pair
   * (u, s) is added; no other pair is removed, whatever `s` was registered
   * as before.
   */
  function Registered(p: Presence, s: SocketId, u: UserId): (q: Presence)
    ensures forall v, t :: Tracked(q, v, t) <==> Tracked(p, v, t) || (v == u && t == s)
    ensures q.online.Keys == p.online.Keys + {u}
    ensures q.userOf == p.userOf[s := u]
    ensures PresenceValid(p) ==> PresenceValid(q)
  {
    var sockets := if u in p.online then p.online[u] else {};
    Presence(p.online[u := sockets + {s}], p.userOf[s := u])
  }

  /**
   * The `disconnect` handler: when the socket carries a truthy user id that
   * has an entry, removes the socket from that user's set and deletes the
   * entry once the set is empty. Only the pair (socket.userId, s) can go;
   * `socket.userId` itself is left as it was.
   */
  function Disconnected(p: Presence, s: SocketId): (q: Presence)
    ensures q.userOf == p.userOf
    ensures forall v, t :: Tracked(q, v, t) <==>
      Tracked(p, v, t) && !(s in p.userOf && Truthy(p.userOf[s]) && v == p.userOf[s] && t == s)
    ensures q.online.Keys <= p.online.Keys
    ensures s !in p.userOf || !Truthy(p.userOf[s]) || p.userOf[s] !in p.online ==> q == p
    ensures PresenceValid(p) ==> PresenceValid(q)
  {
    if s in p.userOf && Truthy(p.userOf[s]) && p.userOf[s] in p.online then
      var u := p.userOf[s];
      var sockets := p.online[u] - {s};
      if |sockets| == 0 then p.(online := p.online - {u}) else p.(online := p.online[u := sockets])
    else p
  }

  /** Registering the same socket for the same user twice changes nothing the second time. */
  lemma RegisterIdempotent(p: Presence, s: SocketId, u: UserId)
    ensures Registered(Registered(p, s, u), s, u) == Registered(p, s, u)
  {
    var q := Registered(p, s, u);
    assert q.online[u] + {s} == q.online[u];
    assert q.online[u := q.online[u]] == q.online;
  }

  /**
   * While a user has another socket tracked, disconnecting one of its sockets
   * keeps the user online; disconnecting its only socket takes the user's
   * entry away.
   */
  lemma LastSocketTakesUserOffline(p: Presence, s: SocketId, u: UserId)
    requires PresenceValid(p)
    requires s in p.userOf && p.userOf[s] == u && Truthy(u)
    ensures (exists t :: t != s && Tracked(p, u, t)) ==> IsOnline(Disconnected(p, s), u)
    ensures Tracked(p, u, s) && p.online[u] == {s} ==> !IsOnline(Disconnected(p, s), u)
  {
    var q := Disconnected(p, s);
    if t :| t != s && Tracked(p, u, t) {
      assert Tracked(q, u, t);
    }
  }

  /**
   * The registry's quirk: a socket registered as `u1` and then as `u2` stays
   * in the set of `u1` after it disconnects, so `u1` still looks online
   * through a socket that is gone.
   */
  lemma StaleEntryAfterReRegister(p: Presence, s: SocketId, u1: UserId, u2: UserId)
    requires u1 != u2 && Truthy(u1) && Truthy(u2)
    ensures var q := Disconnected(Registered(Registered(p, s, u1), s, u2), s);
      Tracked(q, u1, s) && IsOnline(q, u1) && !Tracked(q, u2, s)
  {
    var r1 := Registered(p, s, u1);
    var r2 := Registered(r1, s, u2);
    assert Tracked(r2, u1, s);
  }

  /** One handler run of the presence part of the server. */
  datatype PresenceEvent = RegisterEvent(socket: SocketId, user: UserId) | DisconnectEvent(socket: SocketId)

  function Step(p: Presence, e: PresenceEvent): Presence {
    match e
    case RegisterEvent(s, u) => Registered(p, s, u)
    case DisconnectEvent(s) => Disconnected(p, s)
  }

  function Replay(p: Presence, events: seq<PresenceEvent>): Presence
    decreases |events|
  {
    if events == [] then p else Replay(Step(p, events[0]), events[1..])
  }

  /** Any run of register and disconnect events, from any valid state, leaves no user with an empty set. */
  lemma {:induction false} ReplayKeepsPresenceValid(p: Presence, events: seq<PresenceEvent>)
    requires PresenceValid(p)
    ensures PresenceValid(Replay(p, events))
    ensures NoEmptyEntries(Replay(p, events).online)
    decreases |events|
  {
    if events != [] {
      ReplayKeepsPresenceValid(Step(p, events[0]), events[1..]);
    }
  }

  // ---------------------------------------------------------------------
  // sendMessage

  /** The `message` event emitted to a chat room: the populated message, sent to every room member except `except`. */
  datatype RoomEmit = RoomEmit(room: ChatId, except: SocketId, message: Message, senderName: Option<string>)

  /** Which awaited database call throws, if any (each throw is caught and only logged). */
  datatype Fault = NoFault | CreateFails | ChatUpdateFails | PopulateFails

  /** The state sendMessage touches: the message and chat collections and the room emits made so far. */
  datatype Store = Store(messages: seq<Message>, chats: seq<Chat>, emits: seq<RoomEmit>)

  /** `Chat.findByIdAndUpdate(chatId, { latestMessage })`: a missing chat is left alone. */
  function WithLatest(chats: seq<Chat>, chatId: ChatId, m: MessageId): (r: seq<Chat>)
    ensures |r| == |chats|
    ensures forall i :: 0 <= i < |r| ==> r[i].id == chats[i].id && r[i].kind == chats[i].kind && r[i].members == chats[i].members
    ensures forall i :: 0 <= i < |r| && chats[i].id == chatId ==> r[i].latestMessage == Some(m)
    ensures forall i :: 0 <= i < |r| && chats[i].id != chatId ==> r[i] == chats[i]
  {
    seq(|chats|, i requires 0 <= i < |chats| =>
      if chats[i].id == chatId then chats[i].(latestMessage := Some(m)) else chats[i])
  }

  /** `populate('sender', 'name')`: the sender's name, or nothing when the user is unknown. */
  function NameOf(names: map<UserId, string>, u: UserId): Option<string> {
    if u in names then Some(names[u]) else None
  }

  /**
   * The `sendMessage` handler on `{chatId, text}` from a socket whose
   * `userId` is `userId`, with `now` the creation time and `names` the user
   * collection's names. A socket without a truthy user id changes nothing.
   * Otherwise the message is created, then the chat pointer is moved, then
   * the sender is populated, then the room emit is made, and a fault stops
   * the sequence where it strikes: an emit happens only after the message
   * exists and the chat points to it, and it always leaves out the sender.
   */
  function Sent(st: Store, userId: Option<UserId>, s: SocketId, chatId: ChatId, text: Option<string>,
                now: int, names: map<UserId, string>, fault: Fault): (r: Store)
    ensures userId.None? || !Truthy(userId.value) ==> r == st
    ensures |r.messages| == |st.messages| + (if userId.Some? && Truthy(userId.value) && fault != CreateFails then 1 else 0)
    ensures r.messages[..|st.messages|] == st.messages
    ensures |r.messages| > |st.messages| ==>
      var m := r.messages[|st.messages|];
      m.id == |st.messages| && m.chat == chatId && m.sender == userId.value && m.text == text && m.createdAt == now
    ensures |r.chats| == |st.chats|
    ensures forall i :: 0 <= i < |r.chats| ==>
      r.chats[i] == st.chats[i] || (st.chats[i].id == chatId && r.chats[i] == st.chats[i].(latestMessage := Some(|st.messages|)))
    ensures userId.Some? && Truthy(userId.value) && (fault == NoFault || fault == PopulateFails) ==>
      r.chats == WithLatest(st.chats, chatId, |st.messages|)
    ensures !(userId.Some? && Truthy(userId.value) && (fault == NoFault || fault == PopulateFails)) ==>
      r.chats == st.chats
    ensures |r.emits| == |st.emits| + (if userId.Some? && Truthy(userId.value) && fault == NoFault then 1 else 0)
    ensures r.emits[..|st.emits|] == st.emits
    ensures |r.emits| > |st.emits| ==>
      var e := r.emits[|st.emits|];
      && |r.messages| == |st.messages| + 1
      && e.message == r.messages[|st.messages|]
      && e.room == chatId && e.except == s
      && e.senderName == NameOf(names, userId.value)
      && forall i :: 0 <= i < |r.chats| && r.chats[i].id == chatId ==> r.chats[i].latestMessage == Some(e.message.id)
  {
    if userId.None? || !Truthy(userId.value) || fault == CreateFails then st
    else
      var m := Message(|st.messages|, chatId, userId.value, text, now);
      var messages := st.messages + [m];
      assert messages[..|st.messages|] == st.messages;
      if fault == ChatUpdateFails then st.(messages := messages)
      else
        var chats := WithLatest(st.chats, chatId, m.id);
        if fault == PopulateFails then st.(messages := messages, chats := chats)
        else
          var emits := st.emits + [RoomEmit(chatId, s, m, NameOf(names, m.sender))];
          assert emits[..|st.emits|] == st.emits;
          assert fault == NoFault && |emits| == |st.emits| + 1;
          Store(messages, chats, emits)
  }

  /** After a socket registers under a truthy id, a fault-free send from it stores one message by that user and emits it to the room. */
  lemma RegisteredSocketDelivers(p: Presence, st: Store, s: SocketId, u: UserId, chatId: ChatId,
                                 text: Option<string>, now: int, names: map<UserId, string>)
    requires Truthy(u)
    ensures var r := Sent(st, UserIdOf(Registered(p, s, u), s), s, chatId, text, now, names, NoFault);
      && |r.messages| == |st.messages| + 1 && r.messages[|st.messages|].sender == u
      && |r.emits| == |st.emits| + 1 && r.emits[|st.emits|].except == s
  {
  }

  // ---------------------------------------------------------------------
  // The server object

  /** The connection handlers of app.js over the process-wide onlineUsers map and the database. */
  class SocketServer {
    var onlineUsers: map<UserId, set<SocketId>>
    var socketUserId: map<SocketId, UserId>
    var messages: seq<Message>
    var chats: seq<Chat>
    var roomEmits: seq<RoomEmit>

    ghost function PresenceState(): Presence
      reads this
    {
      Presence(onlineUsers, socketUserId)
    }

    ghost function StoreState(): Store
      reads this
    {
      Store(messages, chats, roomEmits)
    }

    ghost predicate Valid()
      reads this
    {
      && PresenceValid(PresenceState())
      && MessageIdsAreIndices(messages)
      && ChatIdsAreIndices(chats)
    }

    /** A freshly started process: nobody online, the database as given. */
    constructor (messages0: seq<Message>, chats0: seq<Chat>)
      requires MessageIdsAreIndices(messages0) && ChatIdsAreIndices(chats0)
      ensures Valid()
      ensures onlineUsers == map[] && socketUserId == map[]
      ensures StoreState() == Store(messages0, chats0, [])
    {
      onlineUsers := map[];
      socketUserId := map[];
      messages := messages0;
      chats := chats0;
      roomEmits := [];
    }

    /** `socket.on('register', userId)`. */
    method Register(s: SocketId, u: UserId)
      requires Valid()
      modifies this
      ensures Valid()
      ensures PresenceState() == Registered(old(PresenceState()), s, u)
      ensures StoreState() == old(StoreState())
    {
      var sockets := if u in onlineUsers then onlineUsers[u] else {};
      sockets := sockets + {s};
      onlineUsers := onlineUsers[u := sockets];
      socketUserId := socketUserId[s := u];
    }

    /** `socket.on('disconnect')`. */
    method Disconnect(s: SocketId)
      requires Valid()
      modifies this
      ensures Valid()
      ensures PresenceState() == Disconnected(old(PresenceState()), s)
      ensures StoreState() == old(StoreState())
    {
      if s in socketUserId && Truthy(socketUserId[s]) && socketUserId[s] in onlineUsers {
        var userId := socketUserId[s];
        var sockets := onlineUsers[userId];
        sockets := sockets - {s};
        if |sockets| == 0 {
          onlineUsers := onlineUsers - {userId};
        } else {
          onlineUsers := onlineUsers[userId := sockets];
        }
      }
    }

    /**
     * `socket.on('sendMessage', {chatId, text})`; `delivered` tells whether
     * the room emit was reached.
     */
    method SendMessage(s: SocketId, chatId: ChatId, text: Option<string>, now: int,
                       names: map<UserId, string>, fault: Fault) returns (delivered: bool)
      requires Valid()
      modifies this
      ensures Valid()
      ensures PresenceState() == old(PresenceState())
      ensures StoreState() == Sent(old(StoreState()), UserIdOf(old(PresenceState()), s), s, chatId, text, now, names, fault)
      ensures delivered <==> |roomEmits| > |old(roomEmits)|
    {
      if s !in socketUserId || !Truthy(socketUserId[s]) {
        return false;
      }
      var sender := socketUserId[s];
      if fault == CreateFails {
        return false;
      }
      var msg := Message(|messages|, chatId, sender, text, now);
      messages := messages + [msg];
      if fault == ChatUpdateFails {
        return false;
      }
      chats := WithLatest(chats, chatId, msg.id);
      if fault == PopulateFails {
        return false;
      }
      roomEmits := roomEmits + [RoomEmit(chatId, s, msg, NameOf(names, sender))];
      return true;
    }
  }
}
