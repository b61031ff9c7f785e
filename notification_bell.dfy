/**
 * The web app's notification bell: the most recent notifications (at most
 * 20), the unread counter behind the badge, and how a fetch, a realtime
 * insert and "mark all as read" update them. The notifications table and
 * the auth session are oracles whose answers are parameters.
 */
module Notifications {
  import opened Models
  import opened Text

  /** How many notifications the bell keeps. */
  const LIMIT := 20

  datatype Notification = Notification(
    id: string,
    actionUserEmail: string,
    action: string,
    itemName: string,
    details: Option<string>,
    isRead: bool,
    createdAt: string)

  /** The number of unread notifications in a list. */
  function UnreadIn(list: seq<Notification>): (n: nat)
    ensures n <= |list|
  {
    if list == [] then 0 else (if list[0].isRead then 0 else 1) + UnreadIn(list[1..])
  }

  /** A prefix has no more unread notifications than the whole list. */
  lemma {:induction false} UnreadInPrefix(list: seq<Notification>, k: nat)
    requires k <= |list|
    ensures UnreadIn(list[..k]) <= UnreadIn(list)
  {
    if k > 0 {
      UnreadInPrefix(list[1..], k - 1);
      assert list[..k][1..] == list[1..][..k - 1];
    }
  }

  /** `[n, ...list].slice(0, 20)`. */
  function Prepend(n: Notification, list: seq<Notification>): (r: seq<Notification>)
    ensures |r| == if |list| < LIMIT then |list| + 1 else LIMIT
    ensures r[0] == n
    ensures forall i :: 1 <= i < |r| ==> r[i] == list[i - 1]
  {
    var all := [n] + list;
    if |all| <= LIMIT then all else all[..LIMIT]
  }

  /** Prepending adds at most the new notification to the unread ones: a
      truncated entry can only take one away. */
  lemma PrependUnread(n: Notification, list: seq<Notification>)
    ensures UnreadIn(Prepend(n, list)) <= UnreadIn(list) + (if n.isRead then 0 else 1)
  {
    var all := [n] + list;
    assert all[1..] == list;
    UnreadInPrefix(all, |Prepend(n, list)|);
    assert Prepend(n, list) == all[..|Prepend(n, list)|];
  }

  /** `list.map(n => ({ ...n, is_read: true }))`. */
  function MarkedRead(list: seq<Notification>): (r: seq<Notification>)
    ensures |r| == |list|
    ensures forall i :: 0 <= i < |r| ==> r[i] == list[i].(isRead := true)
  {
    seq(|list|, i requires 0 <= i < |list| => list[i].(isRead := true))
  }

  /** A list marked read has no unread notification. */
  lemma {:induction false} MarkedReadHasNoUnread(list: seq<Notification>)
    ensures UnreadIn(MarkedRead(list)) == 0
  {
    if list != [] {
      MarkedReadHasNoUnread(list[1..]);
      assert MarkedRead(list)[1..] == MarkedRead(list[1..]);
    }
  }

  /** The counter counts inserts, not the list: after 20 unread
      notifications, an insert of a read one shows 21 while the list holds
      19 unread. */
  lemma CounterCanExceedList(unread: Notification, read: Notification)
    requires !unread.isRead && read.isRead
    ensures var list := seq(LIMIT, i => unread);
            UnreadIn(list) == 20 && UnreadIn(Prepend(read, list)) == 19
  {
    var list := seq(LIMIT, i => unread);
    AllUnread(list);
    var r := Prepend(read, list);
    AllUnread(r[1..]);
    assert r == [read] + r[1..];
  }

  /** A list of unread notifications counts all of them. */
  lemma {:induction false} AllUnread(list: seq<Notification>)
    requires forall i :: 0 <= i < |list| ==> !list[i].isRead
    ensures UnreadIn(list) == |list|
  {
    if list != [] {
      AllUnread(list[1..]);
    }
  }

  /** `getActionColor`. */
  function ActionColor(action: string): (c: string)
    ensures c == "text-foreground" <==> action != "added" && action != "removed" && action != "updated"
    ensures c in {"text-success", "text-destructive", "text-primary", "text-foreground"}
  {
    if action == "added" then "text-success"
    else if action == "removed" then "text-destructive"
    else if action == "updated" then "text-primary"
    else "text-foreground"
  }

  /** The three known actions get three different colours. */
  lemma ActionColorsDistinct()
    ensures ActionColor("added") != ActionColor("removed")
    ensures ActionColor("added") != ActionColor("updated")
    ensures ActionColor("removed") != ActionColor("updated")
  {
  }

  /** The badge: hidden at 0, "9+" above 9, the number otherwise. */
  function Badge(count: int): (b: Option<string>)
    ensures b.None? <==> count <= 0
    ensures count > 9 ==> b == Some("9+")
    ensures 0 < count <= 9 ==> b.Some? && |b.value| == 1 && AllDigits(b.value)
  {
    if count <= 0 then None
    else if count > 9 then Some("9+")
    else Some(NatToString(count))
  }

  /** A one-digit badge reads back as the counter. */
  lemma BadgeShowsCount(count: int)
    requires 0 < count <= 9
    ensures DigitsValue(Badge(count).value) == count
  {
    NatToStringValue(count);
  }

  /** The bell's state: the listed notifications, the unread counter, and
      how many "mark as read" updates it has sent. */
  class NotificationBell {
    var notifications: seq<Notification>
    var unreadCount: int
    var readUpdatesSent: nat

    /** At most 20 listed, and the counter is never below the listed unread
        notifications. */
    predicate Valid()
      reads this
    {
      |notifications| <= LIMIT && UnreadIn(notifications) <= unreadCount
    }

    constructor ()
      ensures Valid() && notifications == [] && unreadCount == 0 && readUpdatesSent == 0
    {
      notifications, unreadCount, readUpdatesSent := [], 0, 0;
    }

    /** `fetchNotifications`. `response` is the query's data, `None` for an
        error or no data; the query is limited to 20 rows. Without a signed
        in user nothing happens. */
    method Fetch(signedIn: bool, response: Option<seq<Notification>>)
      requires Valid()
      requires response.Some? ==> |response.value| <= LIMIT
      modifies this`notifications, this`unreadCount
      ensures Valid()
      ensures signedIn && response.Some? ==>
                notifications == response.value && unreadCount == UnreadIn(response.value)
      ensures !(signedIn && response.Some?) ==>
                notifications == old(notifications) && unreadCount == old(unreadCount)
    {
      if signedIn && response.Some? {
        notifications := response.value;
        unreadCount := UnreadIn(response.value);
      }
    }

    /** The realtime insert handler: the new notification goes first, the
        oldest beyond 20 is dropped, and the counter goes up by one. */
    method OnInsert(n: Notification)
      requires Valid()
      modifies this`notifications, this`unreadCount
      ensures Valid()
      ensures notifications == Prepend(n, old(notifications)) && unreadCount == old(unreadCount) + 1
    {
      PrependUnread(n, notifications);
      notifications := Prepend(n, notifications);
      unreadCount := unreadCount + 1;
    }

    /** `markAllAsRead`: the remote update's result is not looked at; every
        listed notification becomes read and the counter drops to 0. */
    method MarkAllAsRead(signedIn: bool)
      requires Valid()
      modifies this
      ensures Valid()
      ensures signedIn ==>
                notifications == MarkedRead(old(notifications)) && unreadCount == 0 &&
                readUpdatesSent == old(readUpdatesSent) + 1
      ensures signedIn ==> UnreadIn(notifications) == 0
      ensures !signedIn ==>
                notifications == old(notifications) && unreadCount == old(unreadCount) &&
                readUpdatesSent == old(readUpdatesSent)
    {
      if signedIn {
        readUpdatesSent := readUpdatesSent + 1;
        MarkedReadHasNoUnread(notifications);
        notifications := MarkedRead(notifications);
        unreadCount := 0;
      }
    }
  }
}
