/** The in-app notification service: notifications carry an `isRead` flag,
    and every user row keeps an `unreadNotificationCount` that the service
    raises on create, lowers (never below 0) on mark-as-read and resets on
    mark-all. The repositories are the users table (in `findAll` order) and
    a map from notification id to notification; new ids come from a
    counter. */
module NotificationService {
  import opened Wrappers
  import opened UserEntity
  import opened ExceptionHandler

  datatype NotificationType = MENTION | NEW_POST | REPLY

  datatype Notification = Notification(
    userId: Id,
    kind: NotificationType,
    message: string,
    isRead: bool,
    relatedPostSlug: Option<string>,
    relatedCommentId: Option<Id>)

  /** The rows the service reads and writes. */
  datatype Db = Db(users: seq<User>, notifications: map<Id, Notification>, nextId: nat)

  /** Result of a command that returns nothing or throws. */
  datatype Outcome = Done | Failed(failure: Failure)

  const OTHERS_NOTIFICATION := "Cannot mark someone else's notification as read"

  /** Ids are unique, every stored id is below the id counter, and every
      notification belongs to an existing user. */
  ghost predicate Wellformed(db: Db)
  {
    UniqueIds(db.users) &&
    (forall k :: k in db.notifications ==> k < db.nextId && HasUser(db.users, db.notifications[k].userId))
  }

  /** Ids of the unread notifications of a user. */
  function UnreadIds(db: Db, userId: Id): set<Id>
  {
    set k | k in db.notifications && db.notifications[k].userId == userId && !db.notifications[k].isRead
  }

  /** `getUnreadCount`: the number of unread notifications of the user. */
  function UnreadCount(db: Db, userId: Id): nat
  {
    |UnreadIds(db, userId)|
  }

  /** Every user's counter equals its number of unread notifications. */
  ghost predicate CountersMatch(db: Db)
  {
    forall i :: 0 <= i < |db.users| ==> db.users[i].unreadNotificationCount == UnreadCount(db, db.users[i].id)
  }

  ghost predicate CountersNonNegative(db: Db)
  {
    forall i :: 0 <= i < |db.users| ==> db.users[i].unreadNotificationCount >= 0
  }

  function WithCounter(u: User, c: int): User
  {
    u.(unreadNotificationCount := c)
  }

  /** `createNotification`: stores an unread notification for the recipient
      under a fresh id and raises the recipient's counter by one. */
  function AfterCreate(db: Db, recipient: Id, kind: NotificationType, message: string,
                  slug: Option<string>, commentId: Option<Id>): Db
    requires HasUser(db.users, recipient)
  {
    var i := IndexOfUser(db.users, recipient);
    var u := db.users[i];
    Db(SetRow(db.users, i, WithCounter(u, u.unreadNotificationCount + 1)),
       db.notifications[db.nextId := Notification(recipient, kind, message, false, slug, commentId)],
       db.nextId + 1)
  }

  /** `markAsRead`: not-found for an unknown id, an error for another
      user's notification, nothing for a read one; otherwise the flag is set
      and the owner's counter is lowered when it is positive. */
  function AfterMarkAsRead(db: Db, notificationId: Id, userId: Id): (Outcome, Db)
  {
    if notificationId !in db.notifications then
      (Failed(ResourceNotFound("Notification", "id")), db)
    else
      var n := db.notifications[notificationId];
      if n.userId != userId then (Failed(Runtime(Some(OTHERS_NOTIFICATION))), db)
      else if n.isRead then (Done, db)
      else
        var notes := db.notifications[notificationId := n.(isRead := true)];
        var i := IndexOfUser(db.users, n.userId);
        if i >= 0 && db.users[i].unreadNotificationCount > 0 then
          var u := db.users[i];
          (Done, Db(SetRow(db.users, i, WithCounter(u, u.unreadNotificationCount - 1)), notes, db.nextId))
        else
          (Done, Db(db.users, notes, db.nextId))
  }

  /** The notifications with every one of `userId` marked read (the bulk
      update query). */
  function ReadAllOf(notes: map<Id, Notification>, userId: Id): (r: map<Id, Notification>)
    ensures r.Keys == notes.Keys
  {
    map k | k in notes :: if notes[k].userId == userId then notes[k].(isRead := true) else notes[k]
  }

  /** `markAllAsRead`: not-found for an unknown user; otherwise every
      notification of the user is read and the counter is 0. */
  function AfterMarkAllAsRead(db: Db, userId: Id): (Outcome, Db)
  {
    var i := IndexOfUser(db.users, userId);
    if i < 0 then (Failed(ResourceNotFound("User", "id")), db)
    else
      (Done, Db(SetRow(db.users, i, WithCounter(db.users[i], 0)), ReadAllOf(db.notifications, userId), db.nextId))
  }

  /* ---------- properties of the state machine ---------- */

  /** Create stores one unread notification for the recipient, raises only
      the recipient's counter, by exactly one, and keeps the counters in step
      with the unread notifications. */
  lemma {:induction false} CreateKeepsCounters(db: Db, recipient: Id, kind: NotificationType, message: string,
                                               slug: Option<string>, commentId: Option<Id>)
    requires Wellformed(db) && HasUser(db.users, recipient)
    ensures var r := AfterCreate(db, recipient, kind, message, slug, commentId);
            Wellformed(r) && |r.users| == |db.users| &&
            r.notifications == db.notifications[db.nextId := Notification(recipient, kind, message, false, slug, commentId)] &&
            db.nextId !in db.notifications &&
            (forall j :: 0 <= j < |db.users| ==>
               r.users[j].unreadNotificationCount ==
               db.users[j].unreadNotificationCount + (if db.users[j].id == recipient then 1 else 0)) &&
            (CountersMatch(db) ==> CountersMatch(r)) &&
            (CountersNonNegative(db) ==> CountersNonNegative(r))
  {
    CreateRaisesRecipient(db, recipient, kind, message, slug, commentId);
    CreateWellformed(db, recipient, kind, message, slug, commentId);
    if CountersMatch(db) {
      CreateCountersMatch(db, recipient, kind, message, slug, commentId);
    }
  }

  lemma CreateRaisesRecipient(db: Db, recipient: Id, kind: NotificationType, message: string,
                              slug: Option<string>, commentId: Option<Id>)
    requires UniqueIds(db.users) && HasUser(db.users, recipient)
    ensures var r := AfterCreate(db, recipient, kind, message, slug, commentId);
            forall j :: 0 <= j < |db.users| ==>
              r.users[j].unreadNotificationCount ==
              db.users[j].unreadNotificationCount + (if db.users[j].id == recipient then 1 else 0)
  {
    var i := IndexOfUser(db.users, recipient);
    forall j | 0 <= j < |db.users| && j != i ensures db.users[j].id != recipient {
    }
  }

  lemma CreateWellformed(db: Db, recipient: Id, kind: NotificationType, message: string,
                         slug: Option<string>, commentId: Option<Id>)
    requires Wellformed(db) && HasUser(db.users, recipient)
    ensures Wellformed(AfterCreate(db, recipient, kind, message, slug, commentId))
  {
    var r := AfterCreate(db, recipient, kind, message, slug, commentId);
    forall k | k in r.notifications ensures k < r.nextId && HasUser(r.users, r.notifications[k].userId) {
      var o := r.notifications[k].userId;
      var j := IndexOfUser(db.users, o);
      assert r.users[j].id == o;
    }
  }

  lemma CreateCountersMatch(db: Db, recipient: Id, kind: NotificationType, message: string,
                            slug: Option<string>, commentId: Option<Id>)
    requires Wellformed(db) && HasUser(db.users, recipient) && CountersMatch(db)
    ensures CountersMatch(AfterCreate(db, recipient, kind, message, slug, commentId))
  {
    var r := AfterCreate(db, recipient, kind, message, slug, commentId);
    CreateRaisesRecipient(db, recipient, kind, message, slug, commentId);
    assert db.nextId !in db.notifications;
    forall j | 0 <= j < |r.users| ensures r.users[j].unreadNotificationCount == UnreadCount(r, r.users[j].id) {
      var id := db.users[j].id;
      if id == recipient {
        assert UnreadIds(r, id) == UnreadIds(db, id) + {db.nextId};
        assert |UnreadIds(db, id) + {db.nextId}| == |UnreadIds(db, id)| + 1;
      } else {
        assert UnreadIds(r, id) == UnreadIds(db, id);
      }
    }
  }

  /** Mark-as-read: an unknown id or another user's notification is an
      error and changes nothing; a notification already read changes
      nothing either. Otherwise the notification is read afterwards, the
      owner's counter drops by one unless it is already 0, every other user
      row is unchanged, and the counters stay non-negative and in step with
      the unread notifications. */
  lemma {:induction false} MarkAsReadKeepsCounters(db: Db, notificationId: Id, userId: Id)
    requires Wellformed(db)
    ensures var (out, r) := AfterMarkAsRead(db, notificationId, userId);
            Wellformed(r) &&
            (notificationId !in db.notifications ==> out == Failed(ResourceNotFound("Notification", "id")) && r == db) &&
            (notificationId in db.notifications && db.notifications[notificationId].userId != userId ==>
               out == Failed(Runtime(Some(OTHERS_NOTIFICATION))) && r == db) &&
            (notificationId in db.notifications && db.notifications[notificationId].userId == userId ==>
               var n := db.notifications[notificationId];
               out == Done &&
               (n.isRead ==> r == db) &&
               r.notifications == db.notifications[notificationId := n.(isRead := true)] &&
               r.nextId == db.nextId && |r.users| == |db.users| &&
               (forall j :: 0 <= j < |db.users| ==>
                  r.users[j] == if db.users[j].id == userId && !n.isRead && db.users[j].unreadNotificationCount > 0
                                then WithCounter(db.users[j], db.users[j].unreadNotificationCount - 1)
                                else db.users[j])) &&
            (CountersMatch(db) ==> CountersMatch(r)) &&
            (CountersNonNegative(db) ==> CountersNonNegative(r))
  {
    MarkAsReadWellformed(db, notificationId, userId);
    if notificationId in db.notifications && db.notifications[notificationId].userId == userId {
      var n := db.notifications[notificationId];
      MarkAsReadRows(db, notificationId, userId);
      if n.isRead {
        assert db.notifications[notificationId := n.(isRead := true)] == db.notifications;
      } else if CountersMatch(db) {
        MarkAsReadCountersMatch(db, notificationId, userId);
      }
    }
  }

  /** On the owner's own notification, mark-as-read changes at most the
      owner's row: its counter drops by one when the notification was unread
      and the counter positive. */
  lemma MarkAsReadRows(db: Db, notificationId: Id, userId: Id)
    requires Wellformed(db)
    requires notificationId in db.notifications && db.notifications[notificationId].userId == userId
    ensures var n := db.notifications[notificationId];
            var r := AfterMarkAsRead(db, notificationId, userId).1;
            r.nextId == db.nextId && |r.users| == |db.users| &&
            forall j :: 0 <= j < |db.users| ==>
              r.users[j] == if db.users[j].id == userId && !n.isRead && db.users[j].unreadNotificationCount > 0
                            then WithCounter(db.users[j], db.users[j].unreadNotificationCount - 1)
                            else db.users[j]
  {
    var n := db.notifications[notificationId];
    var i := IndexOfUser(db.users, userId);
    assert i >= 0;
    forall j | 0 <= j < |db.users| && j != i ensures db.users[j].id != userId {
    }
  }

  lemma MarkAsReadWellformed(db: Db, notificationId: Id, userId: Id)
    requires Wellformed(db)
    ensures Wellformed(AfterMarkAsRead(db, notificationId, userId).1)
  {
    var r := AfterMarkAsRead(db, notificationId, userId).1;
    forall k | k in r.notifications ensures k < r.nextId && HasUser(r.users, r.notifications[k].userId) {
      var o := r.notifications[k].userId;
      var j := IndexOfUser(db.users, o);
      assert r.users[j].id == o;
    }
  }

  lemma MarkAsReadCountersMatch(db: Db, notificationId: Id, userId: Id)
    requires Wellformed(db) && CountersMatch(db)
    requires notificationId in db.notifications && db.notifications[notificationId].userId == userId
    requires !db.notifications[notificationId].isRead
    ensures CountersMatch(AfterMarkAsRead(db, notificationId, userId).1)
    ensures UnreadCount(AfterMarkAsRead(db, notificationId, userId).1, userId) == UnreadCount(db, userId) - 1
  {
    var r := AfterMarkAsRead(db, notificationId, userId).1;
    var i := IndexOfUser(db.users, userId);
    assert notificationId in UnreadIds(db, userId);
    forall j | 0 <= j < |r.users| ensures r.users[j].unreadNotificationCount == UnreadCount(r, r.users[j].id) {
      var id := db.users[j].id;
      if j == i {
        assert UnreadIds(r, id) == UnreadIds(db, id) - {notificationId};
        assert |UnreadIds(db, id) - {notificationId}| == |UnreadIds(db, id)| - 1;
      } else {
        assert id != userId;
        assert UnreadIds(r, id) == UnreadIds(db, id);
      }
    }
  }

  /** Mark-as-read is idempotent: a second call with the same arguments
      reports the same outcome and changes nothing more. */
  lemma MarkAsReadIdempotent(db: Db, notificationId: Id, userId: Id)
    ensures var (out1, r1) := AfterMarkAsRead(db, notificationId, userId);
            AfterMarkAsRead(r1, notificationId, userId) == (out1, r1)
  {
    var (out1, r1) := AfterMarkAsRead(db, notificationId, userId);
    if notificationId in db.notifications && db.notifications[notificationId].userId == userId {
      assert r1.notifications[notificationId].isRead;
    }
  }

  /** Mark-all: an unknown user is not-found and changes nothing; otherwise
      every notification of the user is read, every other notification is
      untouched, the user's counter is 0, every other user row is unchanged,
      and the counters stay in step with the unread notifications. */
  lemma {:induction false} MarkAllAsReadKeepsCounters(db: Db, userId: Id)
    requires Wellformed(db)
    ensures var (out, r) := AfterMarkAllAsRead(db, userId);
            Wellformed(r) &&
            (!HasUser(db.users, userId) ==> out == Failed(ResourceNotFound("User", "id")) && r == db) &&
            (HasUser(db.users, userId) ==>
               out == Done && UnreadCount(r, userId) == 0 &&
               r.notifications.Keys == db.notifications.Keys &&
               (forall k :: k in db.notifications && db.notifications[k].userId == userId ==> r.notifications[k].isRead) &&
               (forall k :: k in db.notifications && db.notifications[k].userId != userId ==>
                  r.notifications[k] == db.notifications[k]) &&
               (forall j :: 0 <= j < |db.users| ==>
                  r.users[j] == if db.users[j].id == userId then WithCounter(db.users[j], 0) else db.users[j])) &&
            (CountersMatch(db) ==> CountersMatch(r)) &&
            (CountersNonNegative(db) ==> CountersNonNegative(r))
  {
    MarkAllAsReadWellformed(db, userId);
    var i := IndexOfUser(db.users, userId);
    if i >= 0 {
      MarkAllAsReadRows(db, userId);
      if CountersMatch(db) {
        MarkAllAsReadCounters(db, userId);
      }
    }
  }

  lemma MarkAllAsReadRows(db: Db, userId: Id)
    requires Wellformed(db) && HasUser(db.users, userId)
    ensures var r := AfterMarkAllAsRead(db, userId).1;
            UnreadCount(r, userId) == 0 &&
            forall j :: 0 <= j < |db.users| ==>
              r.users[j] == if db.users[j].id == userId then WithCounter(db.users[j], 0) else db.users[j]
  {
    var r := AfterMarkAllAsRead(db, userId).1;
    assert UnreadIds(r, userId) == {};
  }

  lemma MarkAllAsReadCounters(db: Db, userId: Id)
    requires Wellformed(db) && HasUser(db.users, userId) && CountersMatch(db)
    ensures CountersMatch(AfterMarkAllAsRead(db, userId).1)
  {
    var r := AfterMarkAllAsRead(db, userId).1;
    MarkAllAsReadRows(db, userId);
    forall j | 0 <= j < |r.users| ensures r.users[j].unreadNotificationCount == UnreadCount(r, r.users[j].id) {
      var id := db.users[j].id;
      if id != userId {
        assert UnreadIds(r, id) == UnreadIds(db, id);
      }
    }
  }

  lemma MarkAllAsReadWellformed(db: Db, userId: Id)
    requires Wellformed(db)
    ensures Wellformed(AfterMarkAllAsRead(db, userId).1)
  {
    var r := AfterMarkAllAsRead(db, userId).1;
    forall k | k in r.notifications ensures k < r.nextId && HasUser(r.users, r.notifications[k].userId) {
      var o := r.notifications[k].userId;
      var j := IndexOfUser(db.users, o);
      assert r.users[j].id == o;
    }
  }

  /** The notification service over its two repositories. */
  class NotificationService {
    var users: seq<User>
    var notifications: map<Id, Notification>
    var nextId: nat

    function State(): Db
      reads this
    {
      Db(users, notifications, nextId)
    }

    ghost predicate Valid()
      reads this
    {
      Wellformed(State())
    }

    constructor (initialUsers: seq<User>)
      requires UniqueIds(initialUsers)
      ensures Valid() && State() == Db(initialUsers, map[], 0)
    {
      users := initialUsers;
      notifications := map[];
      nextId := 0;
    }

    method CreateNotification(recipient: Id, kind: NotificationType, message: string,
                              slug: Option<string>, commentId: Option<Id>)
      requires Valid() && HasUser(users, recipient)
      modifies this
      ensures Valid()
      ensures State() == AfterCreate(old(State()), recipient, kind, message, slug, commentId)
    {
      CreateWellformed(State(), recipient, kind, message, slug, commentId);
      var notification := Notification(recipient, kind, message, false, slug, commentId);
      notifications := notifications[nextId := notification];
      nextId := nextId + 1;
      var i := IndexOfUser(users, recipient);
      var user := users[i];
      users := SetRow(users, i, WithCounter(user, user.unreadNotificationCount + 1));
    }

    method GetUnreadCount(userId: Id) returns (count: nat)
      requires Valid()
      ensures count == |UnreadIds(State(), userId)|
    {
      count := UnreadCount(State(), userId);
    }

    method MarkAsRead(notificationId: Id, userId: Id) returns (outcome: Outcome)
      requires Valid()
      modifies this
      ensures Valid()
      ensures (outcome, State()) == AfterMarkAsRead(old(State()), notificationId, userId)
    {
      MarkAsReadWellformed(State(), notificationId, userId);
      if notificationId !in notifications {
        return Failed(ResourceNotFound("Notification", "id"));
      }
      var notification := notifications[notificationId];
      if notification.userId != userId {
        return Failed(Runtime(Some(OTHERS_NOTIFICATION)));
      }
      if !notification.isRead {
        var i := IndexOfUser(users, notification.userId);
        notifications := notifications[notificationId := notification.(isRead := true)];
        if i >= 0 && users[i].unreadNotificationCount > 0 {
          var user := users[i];
          users := SetRow(users, i, WithCounter(user, user.unreadNotificationCount - 1));
        }
      }
      return Done;
    }

    method MarkAllAsRead(userId: Id) returns (outcome: Outcome)
      requires Valid()
      modifies this
      ensures Valid()
      ensures (outcome, State()) == AfterMarkAllAsRead(old(State()), userId)
    {
      MarkAllAsReadWellformed(State(), userId);
      var i := IndexOfUser(users, userId);
      if i < 0 {
        return Failed(ResourceNotFound("User", "id"));
      }
      notifications := ReadAllOf(notifications, userId);
      users := SetRow(users, i, WithCounter(users[i], 0));
      return Done;
    }
  }
}
