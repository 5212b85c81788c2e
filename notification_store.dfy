/**
  The notification store (`NotificationProvider`): a cached list of
  notifications, replaced wholesale on load and updated locally by
  `markRead` / `markUnread`. Nothing here talks to the server.
 */
module NotificationStore {
  import opened Models

  /**
    The list after setting the read flag of every entry with id `id` to
    `isRead` (the `prev.map(...)` of both updates): same length and order,
    matching entries change only their flag, all others are untouched.
   */
  function WithReadFlag(ns: seq<Notification>, id: int, isRead: bool): (r: seq<Notification>)
    ensures |r| == |ns|
    ensures forall i :: 0 <= i < |ns| && ns[i].id == id ==> r[i] == ns[i].(isRead := isRead)
    ensures forall i :: 0 <= i < |ns| && ns[i].id != id ==> r[i] == ns[i]
  {
    if ns == [] then []
    else [if ns[0].id == id then ns[0].(isRead := isRead) else ns[0]] + WithReadFlag(ns[1..], id, isRead)
  }

  /** Every entry with id `id` already has read flag `isRead`. */
  ghost predicate AllFlagged(ns: seq<Notification>, id: int, isRead: bool)
  {
    forall i :: 0 <= i < |ns| && ns[i].id == id ==> ns[i].isRead == isRead
  }

  /** An update changes nothing exactly when every matching entry already has the flag. */
  lemma WithReadFlagUnchangedIff(ns: seq<Notification>, id: int, isRead: bool)
    ensures WithReadFlag(ns, id, isRead) == ns <==> AllFlagged(ns, id, isRead)
  {
  }

  /** An id that no entry carries leaves the list as it is. */
  lemma AbsentIdUnchanged(ns: seq<Notification>, id: int, isRead: bool)
    requires forall n :: n in ns ==> n.id != id
    ensures WithReadFlag(ns, id, isRead) == ns
  {
  }

  /** Of two updates on the same id, the second one decides the flag. */
  lemma LastUpdateWins(ns: seq<Notification>, id: int, first: bool, second: bool)
    ensures WithReadFlag(WithReadFlag(ns, id, first), id, second) == WithReadFlag(ns, id, second)
  {
  }

  /** `markRead` twice is `markRead` once, and likewise for `markUnread`. */
  lemma UpdateIdempotent(ns: seq<Notification>, id: int, isRead: bool)
    ensures WithReadFlag(WithReadFlag(ns, id, isRead), id, isRead) == WithReadFlag(ns, id, isRead)
  {
  }

  /** `markUnread` after `markRead` on an id whose entries were all unread restores the list. */
  lemma MarkUnreadUndoesMarkRead(ns: seq<Notification>, id: int)
    requires AllFlagged(ns, id, false)
    ensures WithReadFlag(WithReadFlag(ns, id, true), id, false) == ns
  {
  }

  /** The provider's state: the notifications currently cached for the user. */
  class NotificationProvider {
    var notifications: seq<Notification>

    /** The store starts empty. */
    constructor ()
      ensures notifications == []
    {
      notifications := [];
    }

    method MarkRead(id: int)
      modifies this
      ensures notifications == WithReadFlag(old(notifications), id, true)
      ensures forall n :: n in notifications && n.id == id ==> n.isRead
    {
      notifications := WithReadFlag(notifications, id, true);
    }

    method MarkUnread(id: int)
      modifies this
      ensures notifications == WithReadFlag(old(notifications), id, false)
      ensures forall n :: n in notifications && n.id == id ==> !n.isRead
    {
      notifications := WithReadFlag(notifications, id, false);
    }

    /** A full replace: no merge with what was cached before. */
    method SetNotifications(xs: seq<Notification>)
      modifies this
      ensures notifications == xs
    {
      notifications := xs;
    }
  }
}
