/**
 * The chat routes of routes/chat.js: the dashboard's user list with its
 * `filter` query parameter, find-or-create of the private chat between the
 * caller and another user, and the chat window with its membership check and
 * message history.
 */
module Chats {
  import opened Models
  import Query
  import JsText

  // ---------------------------------------------------------------------
  // GET /chat: the dashboard

  /** `req.query.filter || 'all'`. */
  function FilterOrAll(filter: Option<string>): (f: string)
    ensures f != ""
    ensures f == "all" <==> filter.None? || filter.value == "" || filter.value == "all"
    ensures filter.Some? && filter.value != "" ==> f == filter.value
  {
    JsText.OrDefault(filter, "all")
  }

  /**
   * The users listed on the dashboard: with the filter `all` (also the
   * default) everybody but the caller; with any other filter value the users
   * of the caller's college, again without the caller.
   */
  function DashboardUsers(users: seq<User>, me: SessionUser, filter: Option<string>): (r: seq<User>)
    ensures forall u :: u in r <==> u in users && u.id != me.id && (FilterOrAll(filter) == "all" || u.college == me.college)
    ensures filter.None? || filter == Some("") || filter == Some("all") ==> forall u :: u in r <==> u in users && u.id != me.id
    ensures |r| <= |users|
  {
    if FilterOrAll(filter) == "all" then Query.Where(users, (u: User) => u.id != me.id)
    else Query.Where(users, (u: User) => u.college == me.college && u.id != me.id)
  }

  /** The "same college" list is part of the "all" list. */
  lemma CollegeListWithinAll(users: seq<User>, me: SessionUser, filter: string)
    requires filter != "" && filter != "all"
    ensures forall u :: u in DashboardUsers(users, me, Some(filter)) ==> u in DashboardUsers(users, me, None)
  {
  }

  // ---------------------------------------------------------------------
  // GET /chat/user/:userId: find or create the private chat

  /** Where a route sends the browser: the dashboard `/chat`, or `/chat/<id>`. */
  datatype Nav = ToDashboard | ToChat(id: ChatId)

  /** The findOne filter `{ type: 'private', members: { $all: [a, b], $size: 2 } }`. */
  predicate IsPairChat(c: Chat, a: UserId, b: UserId)
    ensures IsPairChat(c, a, b) ==> c.kind == Private && |c.members| == 2
    ensures IsPairChat(c, a, b) && a != b ==> c.members == [a, b] || c.members == [b, a]
  {
    var matches := c.kind == Private && |c.members| == 2 && a in c.members && b in c.members;
    assert matches ==> c.members == [c.members[0], c.members[1]];
    matches
  }

  /** The filter does not depend on the order of the two ids. */
  lemma IsPairChatSymmetric(c: Chat, a: UserId, b: UserId)
    ensures IsPairChat(c, a, b) == IsPairChat(c, b, a)
  {
  }

  /** For two different users, the filter holds exactly of a private chat whose members are those two. */
  lemma IsPairChatMeansMembers(c: Chat, a: UserId, b: UserId)
    requires a != b
    ensures IsPairChat(c, a, b) <==> c.kind == Private && (c.members == [a, b] || c.members == [b, a])
  {
    if IsPairChat(c, a, b) {
      assert c.members[0] == a || c.members[1] == a;
    }
  }

  /** `findOne`: the first chat from position `from` on that matches the pair filter. */
  function FindPairFrom(chats: seq<Chat>, a: UserId, b: UserId, from: nat): (r: Option<nat>)
    requires from <= |chats|
    ensures r.Some? ==> from <= r.value < |chats| && IsPairChat(chats[r.value], a, b)
    ensures r.Some? ==> forall k :: from <= k < r.value ==> !IsPairChat(chats[k], a, b)
    ensures r.None? ==> forall k :: from <= k < |chats| ==> !IsPairChat(chats[k], a, b)
    decreases |chats| - from
  {
    if from == |chats| then None
    else if IsPairChat(chats[from], a, b) then Some(from)
    else FindPairFrom(chats, a, b, from + 1)
  }

  function FindPair(chats: seq<Chat>, a: UserId, b: UserId): (r: Option<nat>)
    ensures r.Some? ==> r.value < |chats| && IsPairChat(chats[r.value], a, b)
    ensures r.Some? ==> forall k :: 0 <= k < r.value ==> !IsPairChat(chats[k], a, b)
    ensures r.None? ==> forall k :: 0 <= k < |chats| ==> !IsPairChat(chats[k], a, b)
  {
    FindPairFrom(chats, a, b, 0)
  }

  /** The first match is the same whichever way round the pair is given. */
  lemma FindPairSymmetric(chats: seq<Chat>, a: UserId, b: UserId)
    ensures FindPair(chats, a, b) == FindPair(chats, b, a)
  {
    forall k | 0 <= k < |chats| ensures IsPairChat(chats[k], a, b) == IsPairChat(chats[k], b, a) {
      IsPairChatSymmetric(chats[k], a, b);
    }
  }

  /**
   * The find-or-create route for caller `me` and `/chat/user/other`. The same
   * user on both sides goes back to the dashboard and creates nothing; an
   * existing chat of the pair is reused; otherwise exactly one private chat
   * `[me, other]` is appended. The route always lands on a chat of the pair.
   */
  function OpenPrivate(chats: seq<Chat>, me: UserId, other: UserId): (r: (seq<Chat>, Nav))
    requires ChatIdsAreIndices(chats)
    ensures ChatIdsAreIndices(r.0)
    ensures me == other ==> r == (chats, ToDashboard)
    ensures me != other ==> r.1.ToChat? && r.1.id < |r.0| && IsPairChat(r.0[r.1.id], me, other)
    ensures r.0 == chats || r.0 == chats + [Chat(|chats|, Private, [me, other], None)]
    ensures r.0 != chats <==> me != other && forall c :: c in chats ==> !IsPairChat(c, me, other)
  {
    if me == other then (chats, ToDashboard)
    else
      match FindPair(chats, me, other)
      case Some(i) => (chats, ToChat(chats[i].id))
      case None =>
        var c := Chat(|chats|, Private, [me, other], None);
        assert IsPairChat(c, me, other);
        (chats + [c], ToChat(c.id))
  }

  /**
   * Find-or-create is idempotent and order-insensitive: once it has run for
   * (a, b), running it for (a, b) or for (b, a) lands on the same chat and
   * the collection no longer grows.
   */
  lemma OpenPrivateStable(chats: seq<Chat>, a: UserId, b: UserId)
    requires ChatIdsAreIndices(chats)
    requires a != b
    ensures var (after, nav) := OpenPrivate(chats, a, b);
      OpenPrivate(after, a, b) == (after, nav) && OpenPrivate(after, b, a) == (after, nav)
  {
    var (after, nav) := OpenPrivate(chats, a, b);
    FindPairSymmetric(after, a, b);
    match FindPair(chats, a, b)
    case Some(i) =>
      assert after == chats;
    case None =>
      var c := Chat(|chats|, Private, [a, b], None);
      assert after == chats + [c];
      assert after[|chats|] == c && IsPairChat(c, a, b);
      assert forall k :: 0 <= k < |chats| ==> after[k] == chats[k];
      assert FindPair(after, a, b) == Some(|chats|);
  }

  /** The private chats as GET /chat/user/:userId creates them. */
  class ChatStore {
    var chats: seq<Chat>

    ghost predicate Valid()
      reads this
    {
      ChatIdsAreIndices(chats)
    }

    constructor ()
      ensures Valid() && chats == []
    {
      chats := [];
    }

    /** GET /chat/user/:userId for the caller `me` and `otherId`. */
    method OpenPrivateChat(me: UserId, otherId: UserId) returns (nav: Nav)
      requires Valid()
      modifies this
      ensures Valid()
      ensures (chats, nav) == OpenPrivate(old(chats), me, otherId)
    {
      if me == otherId {
        return ToDashboard;
      }
      var found := FindPair(chats, me, otherId);
      if found.None? {
        var chat := Chat(|chats|, Private, [me, otherId], None);
        chats := chats + [chat];
        return ToChat(chat.id);
      }
      nav := ToChat(chats[found.value].id);
    }
  }

  // ---------------------------------------------------------------------
  // GET /chat/:chatId: the chat window

  /** The number of messages the chat window loads. */
  const HistoryLimit: nat := 100

  function CreatedAt(m: Message): int {
    m.createdAt
  }

  /** `Chat.findById(chatId)`. */
  function FindById(chats: seq<Chat>, id: ChatId): (r: Option<Chat>)
    ensures r.Some? ==> r.value in chats && r.value.id == id
    ensures r.None? ==> forall c :: c in chats ==> c.id != id
  {
    if chats == [] then None
    else if chats[0].id == id then Some(chats[0])
    else FindById(chats[1..], id)
  }

  /**
   * `Message.find({ chat: chatId }).sort('createdAt').limit(100)`: messages
   * of that chat only, oldest first, at most 100, and the oldest ones: every
   * message of the chat left out is no older than each one shown.
   */
  function History(messages: seq<Message>, chatId: ChatId): (r: seq<Message>)
    ensures forall m :: m in r ==> m in messages && m.chat == chatId
    ensures forall i, j :: 0 <= i < j < |r| ==> r[i].createdAt <= r[j].createdAt
    ensures |r| == if |OfChat(messages, chatId)| < HistoryLimit then |OfChat(messages, chatId)| else HistoryLimit
    ensures multiset(r) <= multiset(messages)
    ensures forall m, n :: m in messages && m.chat == chatId && m !in r && n in r ==> n.createdAt <= m.createdAt
  {
    var r := Query.Top(OfChat(messages, chatId), CreatedAt, HistoryLimit);
    TopOfChat(messages, chatId, r);
    r
  }

  /** `find({ chat: chatId })`. */
  function OfChat(messages: seq<Message>, chatId: ChatId): (r: seq<Message>)
    ensures forall m :: m in r <==> m in messages && m.chat == chatId
    ensures multiset(r) <= multiset(messages)
  {
    Query.Where(messages, (m: Message) => m.chat == chatId)
  }

  lemma TopOfChat(messages: seq<Message>, chatId: ChatId, r: seq<Message>)
    requires r == Query.Top(OfChat(messages, chatId), CreatedAt, HistoryLimit)
    ensures forall i, j :: 0 <= i < j < |r| ==> r[i].createdAt <= r[j].createdAt
    ensures multiset(r) <= multiset(messages)
    ensures forall m, n :: m in messages && m.chat == chatId && m !in r && n in r ==> n.createdAt <= m.createdAt
  {
    var ofChat := OfChat(messages, chatId);
    forall i, j | 0 <= i < j < |r| ensures r[i].createdAt <= r[j].createdAt {
      assert CreatedAt(r[i]) <= CreatedAt(r[j]);
    }
    forall m, n | m in messages && m.chat == chatId && m !in r && n in r ensures n.createdAt <= m.createdAt {
      assert m in ofChat;
      assert CreatedAt(n) <= CreatedAt(m);
    }
  }

  /** What GET /chat/:chatId answers. */
  datatype ChatPage = RedirectToDashboard | ChatWindow(chat: Chat, messages: seq<Message>)

  /**
   * The chat window for the caller `me`: a chat that does not exist, or of
   * which the caller is not a member, redirects to the dashboard and loads no
   * message; otherwise the page shows that chat and its history.
   */
  function OpenChat(chats: seq<Chat>, messages: seq<Message>, me: UserId, chatId: ChatId): (p: ChatPage)
    ensures p.ChatWindow? <==> FindById(chats, chatId).Some? && me in FindById(chats, chatId).value.members
    ensures p.ChatWindow? ==> p.chat in chats && p.chat.id == chatId && me in p.chat.members
    ensures p.ChatWindow? ==> p.messages == History(messages, chatId)
  {
    match FindById(chats, chatId)
    case None => RedirectToDashboard
    case Some(chat) =>
      if me !in chat.members then RedirectToDashboard
      else ChatWindow(chat, History(messages, chatId))
  }
}
