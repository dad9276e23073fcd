/**
 * The notification routes of routes/notifications.js over the notification
 * collection: the caller's list (newest first, at most 50) and the three
 * read-state updates (one notification, one chat's notifications, all of
 * them). Every route acts only on the caller's own records and the updates
 * change nothing but the `read` flag.
 */
module Notifications {
  import opened Models
  import Query

  /** The page size of the list route. */
  const ListLimit: nat := 50

  /** Sorting ascending on this key is `sort('-createdAt')`. */
  function NewestFirstKey(n: Notification): int {
    -n.createdAt
  }

  /** `find({ user: me })`. */
  function Mine(records: seq<Notification>, me: UserId): (r: seq<Notification>)
    ensures forall n :: n in r <==> n in records && n.user == me
  {
    Query.Where(records, (n: Notification) => n.user == me)
  }

  /**
   * GET /notifications: the caller's notifications, newest first, as many as
   * the limit of 50 allows, and the newest ones: every one of the caller's
   * notifications left off is no newer than each one listed.
   */
  function ListFor(records: seq<Notification>, me: UserId): (r: seq<Notification>)
    ensures forall n :: n in r ==> n in records && n.user == me
    ensures forall i, j :: 0 <= i < j < |r| ==> r[i].createdAt >= r[j].createdAt
    ensures |r| == if |Mine(records, me)| < ListLimit then |Mine(records, me)| else ListLimit
    ensures multiset(r) <= multiset(Mine(records, me))
    ensures forall n, m :: n in records && n.user == me && n !in r && m in r ==> m.createdAt >= n.createdAt
  {
    var r := Query.Top(Mine(records, me), NewestFirstKey, ListLimit);
    TopOfMine(records, me, r);
    r
  }

  lemma TopOfMine(records: seq<Notification>, me: UserId, r: seq<Notification>)
    requires r == Query.Top(Mine(records, me), NewestFirstKey, ListLimit)
    ensures forall n :: n in r ==> n in records && n.user == me
    ensures forall i, j :: 0 <= i < j < |r| ==> r[i].createdAt >= r[j].createdAt
    ensures forall n, m :: n in records && n.user == me && n !in r && m in r ==> m.createdAt >= n.createdAt
  {
    var mine := Mine(records, me);
    NewestFirst(r);
    forall n, m | n in records && n.user == me && n !in r && m in r ensures m.createdAt >= n.createdAt {
      assert n in mine;
      assert NewestFirstKey(m) <= NewestFirstKey(n);
    }
  }

  /** Ascending order of NewestFirstKey is descending order of creation time. */
  lemma NewestFirst(r: seq<Notification>)
    requires Query.SortedBy(r, NewestFirstKey)
    ensures forall i, j :: 0 <= i < j < |r| ==> r[i].createdAt >= r[j].createdAt
  {
    forall i, j | 0 <= i < j < |r| ensures r[i].createdAt >= r[j].createdAt {
      assert NewestFirstKey(r[i]) <= NewestFirstKey(r[j]);
    }
  }

  /** The filter of each update route, before the caller's own id is added to it. */
  datatype Selector =
    | ById(id: NotificationId)     // POST /:id/read
    | ByChat(chatId: string)       // POST /markChatRead
    | AllUnread                    // POST /markAllRead

  /** Whether the update filter of `sel`, scoped to the caller `me`, matches `n`. */
  predicate Selects(sel: Selector, me: UserId, n: Notification)
    ensures Selects(sel, me, n) ==> n.user == me
    ensures !sel.ById? && Selects(sel, me, n) ==> !n.read
  {
    n.user == me &&
    match sel
    case ById(id) => n.id == id
    case ByChat(c) => "chatId" in n.data && n.data["chatId"] == c && !n.read
    case AllUnread => !n.read
  }

  /** `n` and `m` agree on every field but `read`. */
  predicate SameButRead(n: Notification, m: Notification) {
    n.(read := false) == m.(read := false)
  }

  /**
   * `$set: { read: true }` on every record the filter matches: the collection
   * keeps its order and size, no field but `read` changes, a record ends up
   * read exactly when it was read or is matched, and other users' records are
   * left as they were.
   */
  function Marked(records: seq<Notification>, me: UserId, sel: Selector): (r: seq<Notification>)
    ensures |r| == |records|
    ensures forall i :: 0 <= i < |r| ==> SameButRead(r[i], records[i])
    ensures forall i :: 0 <= i < |r| ==> (r[i].read <==> records[i].read || Selects(sel, me, records[i]))
    ensures forall i :: 0 <= i < |r| && records[i].user != me ==> r[i] == records[i]
  {
    seq(|records|, i requires 0 <= i < |records| =>
      if Selects(sel, me, records[i]) then records[i].(read := true) else records[i])
  }

  /** Every update is idempotent: applying it again changes nothing. */
  lemma MarkedIdempotent(records: seq<Notification>, me: UserId, sel: Selector)
    ensures Marked(Marked(records, me, sel), me, sel) == Marked(records, me, sel)
  {
    var once := Marked(records, me, sel);
    var twice := Marked(once, me, sel);
    forall i | 0 <= i < |twice| ensures twice[i] == once[i] {
      if Selects(sel, me, once[i]) {
        assert once[i].read ==> once[i].(read := true) == once[i];
      }
    }
  }

  /** After mark-all-read the caller has no unread notification left. */
  lemma MarkAllLeavesNothingUnread(records: seq<Notification>, me: UserId)
    ensures forall n :: n in Marked(records, me, AllUnread) && n.user == me ==> n.read
  {
    var r := Marked(records, me, AllUnread);
    forall n | n in r && n.user == me ensures n.read {
      var i :| 0 <= i < |r| && r[i] == n;
      assert SameButRead(r[i], records[i]);
    }
  }

  /** Mark-one-read with the id of another user's notification (or an unknown id) changes nothing. */
  lemma MarkOneForeignIdNoChange(records: seq<Notification>, me: UserId, id: NotificationId)
    requires forall n :: n in records && n.id == id ==> n.user != me
    ensures Marked(records, me, ById(id)) == records
  {
    var r := Marked(records, me, ById(id));
    forall i | 0 <= i < |r| ensures r[i] == records[i] {
      assert records[i] in records;
    }
  }

  /** Mark-chat-read changes exactly the caller's unread records of that chat. */
  lemma MarkChatChangesExactly(records: seq<Notification>, me: UserId, chatId: string, i: nat)
    requires i < |records|
    ensures Marked(records, me, ByChat(chatId))[i] != records[i] <==>
      records[i].user == me && !records[i].read && "chatId" in records[i].data && records[i].data["chatId"] == chatId
  {
    var r := Marked(records, me, ByChat(chatId));
    if r[i] != records[i] {
      assert Selects(ByChat(chatId), me, records[i]);
    }
  }

  /** No two records share an id (the collection's `_id` index). */
  ghost predicate UniqueIds(records: seq<Notification>) {
    forall i, j :: 0 <= i < j < |records| ==> records[i].id != records[j].id
  }

  /** The JSON answer of the update routes. */
  datatype Reply = Ok | BadRequest(error: string)

  /** `!chatId` for the request body's chatId: a missing or empty value. */
  predicate Present(chatId: Option<string>) {
    chatId.Some? && chatId.value != ""
  }

  /** The notification collection as the three update routes change it. */
  class NotificationStore {
    var records: seq<Notification>

    ghost predicate Valid()
      reads this
    {
      UniqueIds(records)
    }

    constructor (records0: seq<Notification>)
      requires UniqueIds(records0)
      ensures Valid() && records == records0
    {
      records := records0;
    }

    /** GET /notifications for the caller `me`. */
    method List(me: UserId) returns (r: seq<Notification>)
      requires Valid()
      ensures r == ListFor(records, me)
    {
      r := ListFor(records, me);
    }

    /**
     * POST /notifications/:id/read, `updateOne({ _id: id, user: me })`: the
     * first record matching both is set read; the unique ids make that the
     * only match.
     */
    method MarkOneRead(me: UserId, id: NotificationId) returns (reply: Reply)
      requires Valid()
      modifies this
      ensures Valid()
      ensures records == Marked(old(records), me, ById(id))
      ensures reply == Ok
    {
      var i := 0;
      while i < |records| && !Selects(ById(id), me, records[i])
        invariant 0 <= i <= |records|
        invariant records == old(records)
        invariant forall k :: 0 <= k < i ==> !Selects(ById(id), me, records[k])
      {
        i := i + 1;
      }
      if i < |records| {
        records := records[i := records[i].(read := true)];
      }
      reply := Ok;
    }

    /** The loop of `updateMany`: sets `read` on every record `sel` matches for `me`. */
    method UpdateMany(me: UserId, sel: Selector)
      requires Valid()
      modifies this
      ensures Valid()
      ensures records == Marked(old(records), me, sel)
    {
      ghost var before := records;
      var i := 0;
      while i < |records|
        invariant 0 <= i <= |records| == |before|
        invariant forall k :: 0 <= k < i ==> records[k] == Marked(before, me, sel)[k]
        invariant forall k :: i <= k < |records| ==> records[k] == before[k]
      {
        if Selects(sel, me, records[i]) {
          records := records[i := records[i].(read := true)];
        }
        i := i + 1;
      }
      assert forall k :: 0 <= k < |before| ==> records[k].id == before[k].id;
    }

    /** POST /notifications/markChatRead: 400 and no change without a chatId. */
    method MarkChatRead(me: UserId, chatId: Option<string>) returns (reply: Reply)
      requires Valid()
      modifies this
      ensures Valid()
      ensures !Present(chatId) ==> reply == BadRequest("chatId required") && records == old(records)
      ensures Present(chatId) ==> reply == Ok && records == Marked(old(records), me, ByChat(chatId.value))
    {
      if !Present(chatId) {
        return BadRequest("chatId required");
      }
      UpdateMany(me, ByChat(chatId.value));
      reply := Ok;
    }

    /** POST /notifications/markAllRead. */
    method MarkAllRead(me: UserId) returns (reply: Reply)
      requires Valid()
      modifies this
      ensures Valid()
      ensures records == Marked(old(records), me, AllUnread)
      ensures reply == Ok
    {
      UpdateMany(me, AllUnread);
      reply := Ok;
    }
  }
}
