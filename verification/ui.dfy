/**
 * The browser-side rules of public/js/ui.js: the notification badge counter
 * (`updateNotifBadge`), the unread count taken from the fetched list, the
 * badge update after mark-all-read, the search and filter-pill URLs, and the
 * client-side check of a picked image file.
 */
module Ui {
  import opened Models
  import opened JsText
  import Query
  import Notifications

  // ---------------------------------------------------------------------
  // updateNotifBadge

  /**
   * The argument of updateNotifBadge: a JavaScript number, always taken as a
   * delta, or any other value, given by its string form (the empty string
   * stands for every falsy value).
   */
  datatype BadgeArg = Num(delta: int) | Other(text: string)

  /**
   * `parseInt(text || '0', 10) || 0`: the count a badge text stands for. It
   * is the number the text begins with, and 0 when there is none (the empty
   * text included).
   */
  function BadgeValue(text: string): (v: int)
    ensures ParseInt(text).Some? ==> v == ParseInt(text).value
    ensures ParseInt(text).None? ==> v == 0
  {
    if text == "" then
      assert IntToString(0) == "0";
      ParseIntOrZeroOfIntToString(0);
      ParseIntOrZero("0")
    else ParseIntOrZero(text)
  }

  /**
   * The count updateNotifBadge writes, given the current count: a number
   * moves the count by that much but never below zero; anything else is
   * parsed and replaces the count (an unparseable value gives 0).
   */
  function NextCount(cur: int, arg: BadgeArg): (v: int)
    ensures arg.Num? ==> v >= 0 && v >= cur + arg.delta && (v == 0 || v == cur + arg.delta)
    ensures arg.Other? ==> v == BadgeValue(arg.text)
  {
    match arg
    case Num(d) => if 0 > cur + d then 0 else cur + d
    case Other(s) => BadgeValue(s)
  }

  /** The text String(v) writes back is read as `v` by the next update. */
  lemma BadgeTextRoundTrip(v: int)
    ensures BadgeValue(IntToString(v)) == v
  {
    ParseIntOrZeroOfIntToString(v);
  }

  /** A delta of zero leaves a non-negative count as it is and lifts a negative one to zero. */
  lemma ZeroDeltaKeepsCount(cur: int)
    ensures cur >= 0 ==> NextCount(cur, Num(0)) == cur
    ensures cur < 0 ==> NextCount(cur, Num(0)) == 0
  {
  }

  /**
   * A number is always added: passing the same unread count twice, from a
   * zero badge, shows twice that count rather than the count.
   */
  lemma UnreadCountAddedTwice(unread: nat)
    ensures NextCount(NextCount(0, Num(unread)), Num(unread)) == 2 * unread
  {
  }

  /** `!n.read` for each entry, counted: `data.filter(n => !n.read).length`, and 0 for a non-array body. */
  datatype NotifJson = JsonArray(items: seq<Notification>) | NotArray

  function UnreadCount(data: NotifJson): (n: nat)
    ensures data.NotArray? ==> n == 0
    ensures data.JsonArray? ==> n <= |data.items|
    ensures data.JsonArray? ==> (n == 0 <==> forall x :: x in data.items ==> x.read)
    ensures data.JsonArray? ==> n == |set i | 0 <= i < |data.items| && !data.items[i].read|
  {
    match data
    case NotArray => 0
    case JsonArray(items) =>
      var unread := Query.Where(items, (x: Notification) => !x.read);
      assert unread != [] ==> unread[0] in unread;
      UnreadPositions(items);
      |unread|
  }

  /** The filter's length is the number of unread positions. */
  lemma UnreadPositions(items: seq<Notification>)
    ensures |Query.Where(items, (x: Notification) => !x.read)| == |set i | 0 <= i < |items| && !items[i].read|
  {
    var p := (x: Notification) => !x.read;
    Query.WhereCount(items, p);
    var unread := set i | 0 <= i < |items| && !items[i].read;
    forall i ensures i in Query.Positions(items, p) <==> i in unread {
    }
    assert Query.Positions(items, p) == unread;
  }

  /** Once mark-all-read has run for `me`, the list `me` fetches holds no unread notification. */
  lemma NoUnreadListedAfterMarkAll(records: seq<Notification>, me: UserId)
    ensures UnreadCount(JsonArray(Notifications.ListFor(Notifications.Marked(records, me, Notifications.AllUnread), me))) == 0
  {
    var marked := Notifications.Marked(records, me, Notifications.AllUnread);
    Notifications.MarkAllLeavesNothingUnread(records, me);
    var listed := Notifications.ListFor(marked, me);
    forall x | x in listed ensures x.read {
      assert x in marked && x.user == me;
    }
  }

  /** What `fetch('/notifications')` gave: a network error or an unusable answer, or a parsed JSON body. */
  datatype FetchOutcome = NoData | Body(data: NotifJson)

  /** The `#notifBadge` element: its text and whether it is displayed. */
  class NotifBadge {
    var text: string
    var shown: bool

    /** The count the badge stands for. */
    function Count(): int
      reads this
    {
      BadgeValue(text)
    }

    /** The badge as updateNotifBadge creates it when the page has none: empty and hidden. */
    constructor ()
      ensures text == "" && !shown && Count() == 0
    {
      text := "";
      shown := false;
      assert IntToString(0) == "0";
      BadgeTextRoundTrip(0);
    }

    /** updateNotifBadge(arg): rewrites the text to the new count and shows the badge iff the count is positive. */
    method Update(arg: BadgeArg)
      modifies this
      ensures Count() == NextCount(old(Count()), arg)
      ensures text == IntToString(Count())
      ensures shown <==> Count() > 0
    {
      var cur := ParseIntOrZero(if text == "" then "0" else text);
      match arg {
        case Num(delta) =>
          var newVal := if 0 > cur + delta then 0 else cur + delta;
          text := IntToString(newVal);
          shown := newVal > 0;
          BadgeTextRoundTrip(newVal);
        case Other(s) =>
          var v := ParseIntOrZero(if s == "" then "0" else s);
          text := IntToString(v);
          shown := v > 0;
          BadgeTextRoundTrip(v);
      }
    }

    /** fetchNotifications(): the unread count of the fetched list is passed on, as a number. */
    method FetchNotifications(res: FetchOutcome)
      modifies this
      ensures res.NoData? ==> text == old(text) && shown == old(shown)
      ensures res.Body? ==> Count() == NextCount(old(Count()), Num(UnreadCount(res.data))) && (shown <==> Count() > 0)
      ensures res.Body? ==> text == IntToString(Count())
    {
      if res.Body? {
        var unread := UnreadCount(res.data);
        Update(Num(unread));
      }
    }

    /** The socket's `notification` event: updateNotifBadge(1), one more on the count. */
    method OnNotification()
      modifies this
      ensures Count() == NextCount(old(Count()), Num(1))
      ensures text == IntToString(Count())
      ensures shown <==> Count() > 0
      ensures old(Count()) >= 0 ==> Count() == old(Count()) + 1 && shown
    {
      Update(Num(1));
    }

    /**
     * clearChatNotifications(chatId): nothing without a chat id; otherwise,
     * once POST /notifications/markChatRead has been sent, the list is fetched
     * again and its unread count passed on.
     */
    method ClearChatNotifications(chatId: string, res: FetchOutcome)
      modifies this
      ensures chatId == "" || res.NoData? ==> text == old(text) && shown == old(shown)
      ensures chatId != "" && res.Body? ==> Count() == NextCount(old(Count()), Num(UnreadCount(res.data))) && (shown <==> Count() > 0)
      ensures chatId != "" && res.Body? ==> text == IntToString(Count())
    {
      if chatId == "" {
        return;
      }
      FetchNotifications(res);
    }

    /**
     * markAllNotificationsRead(): after the request, updateNotifBadge(0),
     * which is a delta of zero, so a non-negative count stays what it was.
     */
    method MarkAllNotificationsRead(requestFailed: bool)
      modifies this
      ensures requestFailed ==> text == old(text) && shown == old(shown)
      ensures !requestFailed ==> Count() == NextCount(old(Count()), Num(0)) && (shown <==> Count() > 0)
      ensures !requestFailed ==> text == IntToString(Count())
      ensures !requestFailed && old(Count()) >= 0 ==> Count() == old(Count())
    {
      if !requestFailed {
        Update(Num(0));
      }
    }
  }

  // ---------------------------------------------------------------------
  // Search and filter-pill URLs

  /** `x || 'college'` for a pill's `data-filter`. */
  function FilterOrCollege(filter: Option<string>): (f: string)
    ensures f != ""
    ensures f == "college" <==> filter.None? || filter.value == "" || filter.value == "college"
    ensures filter.Some? && filter.value != "" ==> f == filter.value
  {
    OrDefault(filter, "college")
  }

  /**
   * The debounced search: `${pathname}?filter=${filter}` followed by
   * `&q=${q}` only when the encoded, trimmed input is not empty. The URL
   * begins with the path, and the `q` part is there exactly when the trimmed
   * input is not empty.
   */
  function SearchUrl(pathname: string, activeFilter: Option<string>, input: string): (r: string)
    ensures |r| >= |pathname| && r[..|pathname|] == pathname
    ensures Trim(input) == "" <==> |r| == |pathname| + |"?filter="| + |FilterOrCollege(activeFilter)|
  {
    var q := EncodeURIComponent(Trim(input));
    var r := pathname + "?filter=" + FilterOrCollege(activeFilter) + (if q != "" then "&q=" + q else "");
    assert r == pathname + ("?filter=" + FilterOrCollege(activeFilter) + (if q != "" then "&q=" + q else ""));
    r
  }

  /** The dashboard's path. */
  const ChatPath := "/chat"

  /**
   * A filter-pill click: `/chat?filter=${filter}` and, for a non-empty
   * trimmed search text, `&q=` and its encoding. It is the URL the debounced
   * search builds on the dashboard for the same filter and text.
   */
  function PillUrl(pillFilter: Option<string>, searchInput: Option<string>): (r: string)
    ensures r == SearchUrl(ChatPath, pillFilter, if searchInput.Some? then searchInput.value else "")
  {
    var q := Trim(if searchInput.Some? then searchInput.value else "");
    assert EncodeURIComponent(q) != "" <==> q != "";
    ChatPath + "?filter=" + FilterOrCollege(pillFilter) + (if q != "" then "&q=" + EncodeURIComponent(q) else "")
  }

  /** `s` split at the first `c`: the part before it, and the part after it if `c` occurs. */
  function SplitAt(s: string, c: char): (r: (string, Option<string>))
    ensures r.1.Some? ==> |r.1.value| < |s|
    decreases |s|
  {
    if s == [] then ("", None)
    else if s[0] == c then ("", Some(s[1..]))
    else
      var (before, after) := SplitAt(s[1..], c);
      ([s[0]] + before, after)
  }

  lemma {:induction false} SplitAtFirst(a: string, c: char, b: string)
    requires c !in a
    ensures SplitAt(a + [c] + b, c) == (a, Some(b))
    decreases |a|
  {
    if a != [] {
      assert a[0] in a;
      assert (a + [c] + b)[0] == a[0];
      assert (a + [c] + b)[1..] == a[1..] + [c] + b;
      SplitAtFirst(a[1..], c, b);
      assert [a[0]] + a[1..] == a;
    } else {
      assert a + [c] + b == [c] + b;
    }
  }

  lemma {:induction false} SplitAtAbsent(a: string, c: char)
    requires c !in a
    ensures SplitAt(a, c) == (a, None)
    decreases |a|
  {
    if a != [] {
      assert a[0] in a;
      SplitAtAbsent(a[1..], c);
      assert [a[0]] + a[1..] == a;
    }
  }

  /** One `name=value` field of a query string; a field without '=' has an empty value. */
  function Param(field: string): (string, string) {
    var (name, value) := SplitAt(field, '=');
    (name, if value.Some? then value.value else "")
  }

  /** The query string's `name=value` pairs, in order, as a reader of the URL splits them. */
  function QueryParams(query: string): seq<(string, string)>
    decreases |query|
  {
    var (field, rest) := SplitAt(query, '&');
    [Param(field)] + (if rest.Some? then QueryParams(rest.value) else [])
  }

  lemma ParamOf(name: string, value: string)
    requires '=' !in name
    ensures Param(name + ['='] + value) == (name, value)
  {
    SplitAtFirst(name, '=', value);
  }

  lemma QueryParamsOfLast(field: string)
    requires '&' !in field
    ensures QueryParams(field) == [Param(field)]
  {
    SplitAtAbsent(field, '&');
  }

  lemma QueryParamsOfFirst(field: string, rest: string)
    requires '&' !in field
    ensures QueryParams(field + ['&'] + rest) == [Param(field)] + QueryParams(rest)
  {
    SplitAtFirst(field, '&', rest);
  }

  /** A query string of one field `n=v` reads back as that pair. */
  lemma OneParam(n: string, v: string)
    requires '&' !in n && '=' !in n && '&' !in v
    ensures QueryParams(n + ['='] + v) == [(n, v)]
  {
    QueryParamsOfLast(n + ['='] + v);
    ParamOf(n, v);
  }

  /** A query string of two fields `n1=v1&n2=v2` reads back as those two pairs. */
  lemma TwoParams(n1: string, v1: string, n2: string, v2: string)
    requires '&' !in n1 && '=' !in n1 && '&' !in v1
    requires '&' !in n2 && '=' !in n2 && '&' !in v2
    ensures QueryParams(n1 + ['='] + v1 + ['&'] + (n2 + ['='] + v2)) == [(n1, v1), (n2, v2)]
  {
    QueryParamsOfFirst(n1 + ['='] + v1, n2 + ['='] + v2);
    ParamOf(n1, v1);
    OneParam(n2, v2);
  }

  /** The query `filter=f`, followed by `&q=q` when `q` is not empty, reads back as those parameters. */
  lemma FilterQueryParams(f: string, q: string)
    requires '&' !in f && '&' !in q
    ensures QueryParams("filter=" + f + (if q != "" then "&q=" + q else "")) ==
      [("filter", f)] + (if q != "" then [("q", q)] else [])
  {
    var filterName, qName := "filter", "q";
    assert '&' !in filterName && '=' !in filterName;
    assert '&' !in qName && '=' !in qName;
    if q != "" {
      FilterQueryShape(f, q);
      TwoParams(filterName, f, qName, q);
      assert [(filterName, f), (qName, q)] == [("filter", f)] + [("q", q)];
    } else {
      assert "filter=" + f + "" == filterName + ['='] + f;
      OneParam(filterName, f);
    }
  }

  lemma FilterQueryShape(f: string, q: string)
    ensures "filter=" + f + ("&q=" + q) == "filter" + ['='] + f + ['&'] + ("q" + ['='] + q)
  {
    assert "filter=" == "filter" + ['='];
    assert "&q=" == ['&'] + ("q" + ['=']);
  }

  /**
   * Reading the search URL back gives exactly the filter and, when the
   * trimmed input is not empty, `q` with its encoding: the encoded text
   * cannot add or break a parameter.
   */
  lemma SearchUrlParams(pathname: string, activeFilter: Option<string>, input: string)
    requires '?' !in pathname
    requires '&' !in FilterOrCollege(activeFilter)
    ensures SplitAt(SearchUrl(pathname, activeFilter, input), '?').0 == pathname
    ensures SplitAt(SearchUrl(pathname, activeFilter, input), '?').1.Some?
    ensures QueryParams(SplitAt(SearchUrl(pathname, activeFilter, input), '?').1.value) ==
      [("filter", FilterOrCollege(activeFilter))]
      + (if Trim(input) != "" then [("q", EncodeURIComponent(Trim(input)))] else [])
  {
    var f := FilterOrCollege(activeFilter);
    var q := EncodeURIComponent(Trim(input));
    var query := "filter=" + f + (if q != "" then "&q=" + q else "");
    SearchUrlShape(pathname, f, q, query);
    SplitAtFirst(pathname, '?', query);
    EncodedHasNoSeparator(Trim(input));
    FilterQueryParams(f, q);
  }

  lemma SearchUrlShape(pathname: string, f: string, q: string, query: string)
    requires query == "filter=" + f + (if q != "" then "&q=" + q else "")
    ensures pathname + "?filter=" + f + (if q != "" then "&q=" + q else "") == pathname + ['?'] + query
  {
    assert "?filter=" == ['?'] + "filter=";
  }

  // ---------------------------------------------------------------------
  // Image check

  /** The largest image the client lets through: 6 MiB. */
  const MaxImageBytes: nat := 6 * 1024 * 1024

  /** The first file of the image input. */
  datatype PickedFile = PickedFile(mimeType: string, size: nat)

  datatype ImageCheck = NoFile | NotAnImage | TooLarge | ImageOk

  /**
   * The checks on a picked file, in the source's order: no file does
   * nothing; a type not starting with `image/` is refused first; then a size
   * above 6 MiB; only a file passing both is previewed and uploaded.
   */
  function CheckImage(file: Option<PickedFile>): (r: ImageCheck)
    ensures file.None? <==> r == NoFile
    ensures r == NotAnImage <==> file.Some? && !StartsWith(file.value.mimeType, "image/")
    ensures r == TooLarge <==> file.Some? && StartsWith(file.value.mimeType, "image/") && file.value.size > MaxImageBytes
    ensures r == ImageOk <==> file.Some? && StartsWith(file.value.mimeType, "image/") && file.value.size <= MaxImageBytes
  {
    match file
    case None => NoFile
    case Some(f) =>
      if !StartsWith(f.mimeType, "image/") then NotAnImage
      else if f.size > MaxImageBytes then TooLarge
      else ImageOk
  }
}
