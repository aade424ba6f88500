/** The notification bell in the navigation bar: the unread badge, the
    dropdown list, and marking one or all notifications as read. A service
    call and its outcome are one step here: `succeeded` is whether the
    server accepted the change. */
module NotificationBell {
  import opened Wrappers
  import opened Text
  import opened FrontendTypes

  /** `prev.map(n => n.id === id ? { ...n, isRead: true } : n)`. */
  function MarkRead(ns: seq<Notification>, id: string): (r: seq<Notification>)
    ensures |r| == |ns|
    ensures forall i :: 0 <= i < |ns| && ns[i].id != id ==> r[i] == ns[i]
    ensures forall i :: 0 <= i < |ns| && ns[i].id == id ==> r[i] == ns[i].(isRead := true)
  {
    seq(|ns|, i requires 0 <= i < |ns| => if ns[i].id == id then ns[i].(isRead := true) else ns[i])
  }

  /** `prev.map(n => ({ ...n, isRead: true }))`. */
  function MarkAllRead(ns: seq<Notification>): (r: seq<Notification>)
    ensures |r| == |ns|
    ensures forall i :: 0 <= i < |ns| ==> r[i] == ns[i].(isRead := true)
  {
    seq(|ns|, i requires 0 <= i < |ns| => ns[i].(isRead := true))
  }

  /** `notifications.some(n => !n.isRead)`: whether "mark all" is shown. */
  predicate AnyUnread(ns: seq<Notification>)
  {
    exists i :: 0 <= i < |ns| && !ns[i].isRead
  }

  /** After "mark all" nothing is unread, so the button disappears. */
  lemma MarkAllLeavesNoneUnread(ns: seq<Notification>)
    ensures !AnyUnread(MarkAllRead(ns))
  {
  }

  /** After marking one id, the button stays exactly when a notification
      with another id is unread. */
  lemma MarkReadUnread(ns: seq<Notification>, id: string)
    ensures AnyUnread(MarkRead(ns, id)) <==> exists i :: 0 <= i < |ns| && !ns[i].isRead && ns[i].id != id
  {
    var r := MarkRead(ns, id);
    if AnyUnread(r) {
      var i :| 0 <= i < |r| && !r[i].isRead;
      assert !ns[i].isRead && ns[i].id != id;
    }
  }

  /** Marking the same id twice is marking it once; marking all after one is
      marking all. */
  lemma MarkReadIdempotent(ns: seq<Notification>, id: string)
    ensures MarkRead(MarkRead(ns, id), id) == MarkRead(ns, id)
    ensures MarkAllRead(MarkRead(ns, id)) == MarkAllRead(ns)
  {
  }

  /** The badge on the bell: hidden at zero, the count up to 9, "9+"
      above. */
  function Badge(count: int): (r: Option<string>)
    ensures r.None? <==> count <= 0
    ensures count > 9 ==> r == Some("9+")
    ensures 1 <= count <= 9 ==> r == Some([DigitChar(count)])
  {
    if count > 0 then Some(if count > 9 then "9+" else IntToString(count)) else None
  }

  /** `Math.max(0, prev - 1)`. */
  function Decrement(count: int): (r: int)
    ensures r >= 0
    ensures count >= 1 ==> r == count - 1
    ensures count <= 1 ==> r == 0
  {
    if count - 1 > 0 then count - 1 else 0
  }

  class Bell {
    var userId: Option<string>
    var notifications: seq<Notification>
    var unreadCount: int
    var isOpen: bool

    constructor ()
      ensures userId.None? && notifications == [] && unreadCount == 0 && !isOpen
    {
      userId := None;
      notifications := [];
      unreadCount := 0;
      isOpen := false;
    }

    /** Mounting: the stored user is read, and a signed-in user's list and
        count are asked for. */
    method Mounted(user: Option<CurrentUser>) returns (fetchFor: Option<string>)
      modifies this
      ensures userId == (if user.Some? then Some(user.value.id) else None)
      ensures fetchFor == userId
      ensures notifications == old(notifications) && unreadCount == old(unreadCount) && isOpen == old(isOpen)
    {
      userId := if user.Some? then Some(user.value.id) else None;
      fetchFor := userId;
    }

    /** The list and the count answered together; a failure keeps both. */
    method NotificationsAnswered(answer: Option<(seq<Notification>, int)>)
      modifies this
      ensures answer.Some? ==> notifications == answer.value.0 && unreadCount == answer.value.1
      ensures answer.None? ==> notifications == old(notifications) && unreadCount == old(unreadCount)
      ensures userId == old(userId) && isOpen == old(isOpen)
    {
      if answer.Some? {
        notifications := answer.value.0;
        unreadCount := answer.value.1;
      }
    }

    /** `handleMarkAsRead`: without a user nothing is sent; on success only
        that notification turns read and the count drops by one, never
        below zero; on failure nothing changes. */
    method MarkAsRead(id: string, succeeded: bool) returns (sent: bool)
      modifies this
      ensures sent <==> userId.Some?
      ensures sent && succeeded ==> notifications == MarkRead(old(notifications), id) && unreadCount == Decrement(old(unreadCount))
      ensures !(sent && succeeded) ==> notifications == old(notifications) && unreadCount == old(unreadCount)
      ensures userId == old(userId) && isOpen == old(isOpen)
    {
      sent := userId.Some?;
      if sent && succeeded {
        notifications := MarkRead(notifications, id);
        unreadCount := Decrement(unreadCount);
      }
    }

    /** `handleMarkAllAsRead`: on success every notification is read and
        the count is zero; on failure nothing changes. */
    method MarkAllAsRead(succeeded: bool) returns (sent: bool)
      modifies this
      ensures sent <==> userId.Some?
      ensures sent && succeeded ==> notifications == MarkAllRead(old(notifications)) && unreadCount == 0
      ensures !(sent && succeeded) ==> notifications == old(notifications) && unreadCount == old(unreadCount)
      ensures userId == old(userId) && isOpen == old(isOpen)
    {
      sent := userId.Some?;
      if sent && succeeded {
        notifications := MarkAllRead(notifications);
        unreadCount := 0;
      }
    }

    /** Following the post link of notification `i`: an unread one is marked
        first, and the dropdown closes. */
    method OpenLink(i: nat, succeeded: bool) returns (sent: bool)
      requires i < |notifications| && notifications[i].relatedPostSlug.Some?
      modifies this
      ensures sent <==> !old(notifications)[i].isRead && userId.Some?
      ensures sent && succeeded ==>
                notifications == MarkRead(old(notifications), old(notifications)[i].id) && unreadCount == Decrement(old(unreadCount))
      ensures !(sent && succeeded) ==> notifications == old(notifications) && unreadCount == old(unreadCount)
      ensures !isOpen && userId == old(userId)
    {
      sent := false;
      if !notifications[i].isRead {
        sent := MarkAsRead(notifications[i].id, succeeded);
      }
      isOpen := false;
    }

    method Toggle()
      modifies this
      ensures isOpen == !old(isOpen)
      ensures notifications == old(notifications) && unreadCount == old(unreadCount) && userId == old(userId)
    {
      isOpen := !isOpen;
    }

    /** A mouse press outside the dropdown closes it. */
    method ClickOutside()
      modifies this
      ensures !isOpen
      ensures notifications == old(notifications) && unreadCount == old(unreadCount) && userId == old(userId)
    {
      isOpen := false;
    }

    /** Whether the bell is drawn at all: only for a signed-in user. */
    predicate Shown()
      reads this
    {
      userId.Some?
    }
  }
}
