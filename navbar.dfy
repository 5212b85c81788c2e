/**
  The navigation bar: the unread-notification badge, the links each kind of
  visitor sees, and the avatar initial and display-name fallbacks. The
  desktop and mobile menus show the same links (only their captions differ),
  so one link list models both.
 */
module Navbar {
  import opened Models
  import opened Lists
  import opened Text
  import opened NotificationStore

  predicate IsUnread(n: Notification) { !n.isRead }

  /** `notifications.filter(n => !n.is_read).length`. */
  function UnreadCount(ns: seq<Notification>): (c: nat)
    ensures c <= |ns|
    ensures c == 0 <==> forall n :: n in ns ==> n.isRead
  {
    var unread := Filter(IsUnread, ns);
    assert unread != [] ==> unread[0] in unread;
    |unread|
  }

  /** The badge is shown only when some notification is unread. */
  function ShowsBadge(ns: seq<Notification>): (b: bool)
    ensures b <==> exists n :: n in ns && !n.isRead
  {
    UnreadCount(ns) > 0
  }

  /** The number on the notifications link: the unread count, shown only when positive. */
  function Badge(ns: seq<Notification>): (b: Option<nat>)
    ensures b.Some? <==> exists n :: n in ns && !n.isRead
    ensures b.Some? ==> b.value == UnreadCount(ns) && b.value > 0
  {
    if ShowsBadge(ns) then Some(UnreadCount(ns)) else None
  }

  /** How many entries with id `id` are unread. */
  function UnreadWithId(ns: seq<Notification>, id: int): nat
  {
    if ns == [] then 0
    else (if ns[0].id == id && !ns[0].isRead then 1 else 0) + UnreadWithId(ns[1..], id)
  }

  /** How many entries with id `id` are read. */
  function ReadWithId(ns: seq<Notification>, id: int): nat
  {
    if ns == [] then 0
    else (if ns[0].id == id && ns[0].isRead then 1 else 0) + ReadWithId(ns[1..], id)
  }

  /** `markRead(id)` lowers the unread count by exactly the unread entries carrying `id`. */
  lemma {:induction false} MarkReadUnreadCount(ns: seq<Notification>, id: int)
    ensures UnreadCount(WithReadFlag(ns, id, true)) == UnreadCount(ns) - UnreadWithId(ns, id)
  {
    if ns != [] {
      var r := WithReadFlag(ns, id, true);
      assert r[1..] == WithReadFlag(ns[1..], id, true);
      MarkReadUnreadCount(ns[1..], id);
    }
  }

  /** `markUnread(id)` raises the unread count by exactly the read entries carrying `id`. */
  lemma {:induction false} MarkUnreadUnreadCount(ns: seq<Notification>, id: int)
    ensures UnreadCount(WithReadFlag(ns, id, false)) == UnreadCount(ns) + ReadWithId(ns, id)
  {
    if ns != [] {
      var r := WithReadFlag(ns, id, false);
      assert r[1..] == WithReadFlag(ns[1..], id, false);
      MarkUnreadUnreadCount(ns[1..], id);
    }
  }

  /**
    Two notifications, the first unread and the second read: one unread;
    marking the first read leaves none; marking the second unread then
    leaves one again.
   */
  lemma TwoNotificationScenario()
    ensures var n1 := Notification(1, "A", "a", false, "2024-01-01", 7, None);
            var n2 := Notification(2, "B", "b", true, "2024-01-02", 7, None);
            var afterRead := WithReadFlag([n1, n2], 1, true);
            UnreadCount([n1, n2]) == 1
            && UnreadCount(afterRead) == 0
            && UnreadCount(WithReadFlag(afterRead, 2, false)) == 1
  {
    var n1 := Notification(1, "A", "a", false, "2024-01-01", 7, None);
    var n2 := Notification(2, "B", "b", true, "2024-01-02", 7, None);
    var ns := [n1, n2];
    assert UnreadWithId(ns, 1) == 1 by {
      assert [n2][1..] == [] && UnreadWithId([n2], 1) == 0;
      assert ns[1..] == [n2];
    }
    var afterRead := WithReadFlag(ns, 1, true);
    assert afterRead == [n1.(isRead := true), n2];
    assert ReadWithId(afterRead, 2) == 1 by {
      assert [n2][1..] == [] && ReadWithId([n2], 2) == 1;
      assert afterRead[1..] == [n2];
    }
    assert UnreadCount(ns) == 1 by {
      assert Filter(IsUnread, ns) == [n1] by {
        assert ns[1..] == [n2] && [n2][1..] == [];
        assert Filter(IsUnread, [n2]) == [];
      }
    }
    MarkReadUnreadCount(ns, 1);
    MarkUnreadUnreadCount(WithReadFlag(ns, 1, true), 2);
  }

  /** `s.charAt(0).toUpperCase()`: at most one character. */
  function FirstUpper(s: string): (r: string)
    ensures |r| <= 1
    ensures r == [] <==> s == []
    ensures r != [] ==> !IsAsciiLower(r[0]) && LowerChar(r[0]) == LowerChar(s[0])
  {
    if s == [] then [] else [UpperChar(s[0])]
  }

  /**
    The avatar initial: the upper-cased first character of the name when the
    name is non-empty, else that of the email; empty only when both are.
   */
  function AvatarInitial(u: User): (r: string)
    ensures |r| <= 1
    ensures r == [] <==> u.name == [] && u.email == []
    ensures r != [] ==> !IsAsciiLower(r[0])
    ensures u.name != [] ==> LowerChar(r[0]) == LowerChar(u.name[0])
    ensures u.name == [] && u.email != [] ==> LowerChar(r[0]) == LowerChar(u.email[0])
  {
    if FirstUpper(u.name) != [] then FirstUpper(u.name) else FirstUpper(u.email)
  }

  /**
    The display name: the name when it is non-empty, else the part of the
    email before its first '@' (all of it when there is no '@').
   */
  function DisplayName(u: User): (r: string)
    ensures u.name != [] ==> r == u.name
    ensures u.name == [] ==> r <= u.email && '@' !in r
    ensures u.name == [] && |r| < |u.email| ==> u.email[|r|] == '@'
    ensures u.name == [] && '@' !in u.email ==> r == u.email
  {
    if u.name != [] then u.name else BeforeFirst(u.email, '@')
  }

  /** One entry of the navigation menu. */
  datatype NavLink =
    | EventsLink
    | TicketsLink
    | NotificationsLink(badge: Option<nat>)
    | OrganizerLink
    | AdminLink
    | UserMenu(initial: string, displayName: string)
    | SignInLink
    | GetStartedLink

  /**
    The menu for the signed-in user `user` (None when signed out) with
    notifications `ns`. Events is always first; tickets, notifications and
    the user menu need a user; Organizer and Admin each need exactly that
    role; Sign In and Get Started appear only when signed out.
   */
  function NavLinks(user: Option<User>, ns: seq<Notification>): (links: seq<NavLink>)
    ensures links != [] && links[0] == EventsLink
    ensures user.None? ==> links == [EventsLink, SignInLink, GetStartedLink]
    ensures TicketsLink in links <==> user.Some?
    ensures SignInLink in links <==> user.None?
    ensures GetStartedLink in links <==> user.None?
    ensures OrganizerLink in links <==> user.Some? && user.value.role == Organizer
    ensures AdminLink in links <==> user.Some? && user.value.role == Admin
    ensures user.Some? ==> NotificationsLink(Badge(ns)) in links
    ensures user.Some? ==> UserMenu(AvatarInitial(user.value), DisplayName(user.value)) in links
    ensures forall b :: NotificationsLink(b) in links ==> user.Some? && b == Badge(ns)
    ensures forall i, d :: UserMenu(i, d) in links ==>
              user.Some? && i == AvatarInitial(user.value) && d == DisplayName(user.value)
  {
    match user
    case None => [EventsLink, SignInLink, GetStartedLink]
    case Some(u) =>
      SignedInLinks(u.role, NotificationsLink(Badge(ns)), UserMenu(AvatarInitial(u), DisplayName(u)))
  }

  /** The signed-in menu for `role`, given its notifications entry and user menu. */
  function SignedInLinks(role: Role, notifications: NavLink, menu: NavLink): (links: seq<NavLink>)
    requires notifications.NotificationsLink? && menu.UserMenu?
    ensures links != [] && links[0] == EventsLink
    ensures TicketsLink in links && notifications in links && menu in links
    ensures SignInLink !in links && GetStartedLink !in links
    ensures OrganizerLink in links <==> role == Organizer
    ensures AdminLink in links <==> role == Admin
    ensures forall l :: l in links && l.NotificationsLink? ==> l == notifications
    ensures forall l :: l in links && l.UserMenu? ==> l == menu
  {
    match role
    case Attendee => [EventsLink, TicketsLink, notifications, menu]
    case Organizer => [EventsLink, TicketsLink, notifications, OrganizerLink, menu]
    case Admin => [EventsLink, TicketsLink, notifications, AdminLink, menu]
  }
}
