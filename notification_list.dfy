/**
  The notification list view: an empty state or one row per cached
  notification, and the row button that flips the row's read state
  through the store.
 */
module NotificationView {
  import opened Models
  import opened NotificationStore

  /** What a row shows that depends on the notification's read state. */
  datatype Row = Row(notification: Notification, buttonLabel: string, showUnreadDot: bool)

  datatype ListView = EmptyState | Rows(rows: seq<Row>)

  function RenderRow(n: Notification): (row: Row)
    ensures row.notification == n
    ensures row.buttonLabel == "Mark Unread" <==> n.isRead
    ensures row.buttonLabel == "Mark Read" <==> !n.isRead
    ensures row.showUnreadDot <==> !n.isRead
  {
    Row(n, if n.isRead then "Mark Unread" else "Mark Read", !n.isRead)
  }

  /** The empty state exactly for an empty store; otherwise the rows in store order. */
  function Render(ns: seq<Notification>): (v: ListView)
    ensures v.EmptyState? <==> ns == []
    ensures v.Rows? ==> |v.rows| == |ns|
    ensures v.Rows? ==> forall i :: 0 <= i < |ns| ==> v.rows[i] == RenderRow(ns[i])
    ensures v.Rows? ==> forall i :: 0 <= i < |ns| ==> v.rows[i].notification == ns[i]
  {
    if |ns| == 0 then EmptyState
    else Rows(seq(|ns|, i requires 0 <= i < |ns| => RenderRow(ns[i])))
  }

  /** The two store operations the row button can call. */
  datatype StoreCall = CallMarkRead(id: int) | CallMarkUnread(id: int)

  /** The button calls `markUnread` on a read row and `markRead` otherwise, with the row's id. */
  function ToggleCall(n: Notification): (c: StoreCall)
    ensures c.id == n.id
    ensures c.CallMarkUnread? <==> n.isRead
  {
    if n.isRead then CallMarkUnread(n.id) else CallMarkRead(n.id)
  }

  /** The store's list after it has served `c`. */
  function Apply(ns: seq<Notification>, c: StoreCall): seq<Notification>
  {
    match c
    case CallMarkRead(id) => WithReadFlag(ns, id, true)
    case CallMarkUnread(id) => WithReadFlag(ns, id, false)
  }

  /**
    The store's list after a click on row `k`: every entry sharing that row's
    id takes the opposite of the row's read flag; nothing else changes.
   */
  function ClickRow(ns: seq<Notification>, k: nat): (r: seq<Notification>)
    requires k < |ns|
    ensures |r| == |ns|
    ensures r[k] == ns[k].(isRead := !ns[k].isRead)
    ensures forall j :: 0 <= j < |ns| && ns[j].id == ns[k].id ==> r[j] == ns[j].(isRead := !ns[k].isRead)
    ensures forall j :: 0 <= j < |ns| && ns[j].id != ns[k].id ==> r[j] == ns[j]
  {
    Apply(ns, ToggleCall(ns[k]))
  }

  /**
    A second click on the same row restores the list exactly when every
    entry sharing its id had the same read flag as that row.
   */
  lemma ClickTwiceRestoresIff(ns: seq<Notification>, k: nat)
    requires k < |ns|
    ensures ClickRow(ClickRow(ns, k), k) == ns <==> AllFlagged(ns, ns[k].id, ns[k].isRead)
  {
  }

  /** A click on row `k` dispatched to the store. */
  method Click(store: NotificationProvider, k: nat)
    requires k < |store.notifications|
    modifies store
    ensures store.notifications == ClickRow(old(store.notifications), k)
  {
    var n := store.notifications[k];
    if n.isRead {
      store.MarkUnread(n.id);
    } else {
      store.MarkRead(n.id);
    }
  }
}
