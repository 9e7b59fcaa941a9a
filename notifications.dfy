/**
 The notification bell: the fetched notification list and its unread counter,
 kept in step by the optimistic handlers (mark one read, delete one, mark all
 read). The signed-in user and the fetched rows are parameters; the writes
 back to the database are not modelled.
 */
module Notifications {
  import opened Wrappers
  import Lists

  datatype Notification = Notification(id: string, isRead: bool, title: string, content: string)

  function IsUnread(n: Notification): bool { !n.isRead }

  /** The number of unread notifications in a list. */
  function UnreadIn(ns: seq<Notification>): nat { Lists.Count(ns, IsUnread) }

  /** Notification ids are the table's primary key. */
  ghost predicate DistinctIds(ns: seq<Notification>) {
    forall i, j :: 0 <= i < j < |ns| ==> ns[i].id != ns[j].id
  }

  /** Some notification with that id is unread (the `find` in `deleteNotification`). */
  predicate WasUnread(ns: seq<Notification>, id: string) {
    exists k :: 0 <= k < |ns| && ns[k].id == id && !ns[k].isRead
  }

  /** The list after `markAsRead(id)`. */
  function MarkRead(ns: seq<Notification>, id: string): (r: seq<Notification>)
    ensures |r| == |ns|
    ensures forall k :: 0 <= k < |ns| ==>
      r[k] == (if ns[k].id == id then ns[k].(isRead := true) else ns[k])
  {
    seq(|ns|, k requires 0 <= k < |ns| => if ns[k].id == id then ns[k].(isRead := true) else ns[k])
  }

  function OtherId(id: string): Notification -> bool {
    (n: Notification) => n.id != id
  }

  /** The list after `deleteNotification(id)`. */
  function Remove(ns: seq<Notification>, id: string): (r: seq<Notification>)
    ensures Lists.IsSubseq(r, ns)
    ensures forall k :: 0 <= k < |ns| ==> (ns[k] in r <==> ns[k].id != id)
    ensures forall n | n in r :: n.id != id
  {
    Lists.Filter(ns, OtherId(id))
  }

  /** The list after `markAllRead`. */
  function MarkAll(ns: seq<Notification>): (r: seq<Notification>)
    ensures |r| == |ns| && forall k :: 0 <= k < |ns| ==> r[k] == ns[k].(isRead := true)
  {
    seq(|ns|, k requires 0 <= k < |ns| => ns[k].(isRead := true))
  }

  /** Marking one id read lowers the unread number by one exactly when it was unread. */
  lemma {:induction false} MarkReadCount(ns: seq<Notification>, id: string)
    requires DistinctIds(ns)
    ensures UnreadIn(MarkRead(ns, id)) == UnreadIn(ns) - (if WasUnread(ns, id) then 1 else 0)
    ensures DistinctIds(MarkRead(ns, id))
  {
    if ns != [] {
      var r := MarkRead(ns, id);
      assert r[1..] == MarkRead(ns[1..], id);
      MarkReadCount(ns[1..], id);
      if ns[0].id == id {
        assert !WasUnread(ns[1..], id);
      } else {
        assert WasUnread(ns, id) <==> WasUnread(ns[1..], id) by {
          if WasUnread(ns, id) {
            var k :| 0 <= k < |ns| && ns[k].id == id && !ns[k].isRead;
            assert ns[1..][k - 1] == ns[k];
          }
        }
      }
    }
  }

  /** Deleting one id lowers the unread number by one exactly when it was unread. */
  lemma {:induction false} RemoveCount(ns: seq<Notification>, id: string)
    requires DistinctIds(ns)
    ensures UnreadIn(Remove(ns, id)) == UnreadIn(ns) - (if WasUnread(ns, id) then 1 else 0)
    ensures DistinctIds(Remove(ns, id))
  {
    if ns != [] {
      var rest := Remove(ns[1..], id);
      RemoveCount(ns[1..], id);
      if ns[0].id == id {
        assert Remove(ns, id) == rest;
        assert !WasUnread(ns[1..], id);
      } else {
        assert Remove(ns, id) == [ns[0]] + rest;
        assert ([ns[0]] + rest)[1..] == rest;
        assert WasUnread(ns, id) <==> WasUnread(ns[1..], id) by {
          if WasUnread(ns, id) {
            var k :| 0 <= k < |ns| && ns[k].id == id && !ns[k].isRead;
            assert ns[1..][k - 1] == ns[k];
          }
        }
        forall i, j | 0 <= i < j < |[ns[0]] + rest|
          ensures ([ns[0]] + rest)[i].id != ([ns[0]] + rest)[j].id
        {
          if i == 0 {
            assert rest[j - 1] in ns[1..];
          }
        }
      }
    }
  }

  /** After marking everything read nothing is unread. */
  lemma {:induction false} MarkAllCount(ns: seq<Notification>)
    ensures UnreadIn(MarkAll(ns)) == 0
    ensures DistinctIds(ns) ==> DistinctIds(MarkAll(ns))
  {
    var r := MarkAll(ns);
    assert forall k :: 0 <= k < |r| ==> !IsUnread(r[k]);
  }

  class NotificationBell {
    var notifications: seq<Notification>
    var unreadCount: int

    /** The counter never goes negative and never exceeds the unread notifications shown. */
    ghost predicate Valid()
      reads this
    {
      DistinctIds(notifications) && 0 <= unreadCount <= UnreadIn(notifications)
    }

    constructor ()
      ensures notifications == [] && unreadCount == 0 && Valid()
    {
      notifications := [];
      unreadCount := 0;
    }

    /**
     `fetchNotifications`: with a signed-in user and data, the list is the
     fetched rows and the counter their unread number; otherwise nothing
     changes (no user, no data, or a thrown error).
     */
    method Fetch(signedIn: bool, data: Option<seq<Notification>>)
      requires data.Some? ==> DistinctIds(data.value)
      modifies this
      ensures signedIn && data.Some? ==>
        notifications == data.value && unreadCount == UnreadIn(data.value) && Valid()
      ensures !(signedIn && data.Some?) ==>
        notifications == old(notifications) && unreadCount == old(unreadCount)
    {
      if !signedIn {
        return;
      }
      if data.Some? {
        notifications := data.value;
        unreadCount := UnreadIn(data.value);
      }
    }

    /** `markAsRead(id)`: the counter drops by one (not below 0) even if the item was already read. */
    method MarkAsRead(id: string)
      requires Valid()
      modifies this
      ensures notifications == MarkRead(old(notifications), id)
      ensures unreadCount == if old(unreadCount) - 1 < 0 then 0 else old(unreadCount) - 1
      ensures Valid()
    {
      MarkReadCount(notifications, id);
      notifications := MarkRead(notifications, id);
      unreadCount := if unreadCount - 1 < 0 then 0 else unreadCount - 1;
    }

    /** `deleteNotification(id)`: the counter drops (not below 0) only if the removed item was unread. */
    method DeleteNotification(id: string)
      requires Valid()
      modifies this
      ensures notifications == Remove(old(notifications), id)
      ensures unreadCount == if WasUnread(old(notifications), id)
        then (if old(unreadCount) - 1 < 0 then 0 else old(unreadCount) - 1)
        else old(unreadCount)
      ensures Valid()
    {
      var wasUnread := WasUnread(notifications, id);
      RemoveCount(notifications, id);
      notifications := Remove(notifications, id);
      if wasUnread {
        unreadCount := if unreadCount - 1 < 0 then 0 else unreadCount - 1;
      }
    }

    /** `markAllRead`: without a user nothing changes. */
    method MarkAllRead(signedIn: bool)
      requires Valid()
      modifies this
      ensures signedIn ==> notifications == MarkAll(old(notifications)) && unreadCount == 0
      ensures !signedIn ==> notifications == old(notifications) && unreadCount == old(unreadCount)
      ensures Valid()
    {
      if !signedIn {
        return;
      }
      MarkAllCount(notifications);
      notifications := MarkAll(notifications);
      unreadCount := 0;
    }
  }
}
