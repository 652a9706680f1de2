/** The notifications page: the list's read state, the unread badge, what a
    click does, and the automatic "mark all as read" on entry. */
module Notifications {
  import opened Wrappers

  /** The `notification_type` enum of the database. */
  datatype NotificationType = Like | CommentOn | Follow | Mention | Achievement

  /** One row of the page's list. The sender's profile fields joined into the
      row are only displayed and are not part of this model. */
  datatype Notification = Notification(
    id: string,
    kind: NotificationType,
    message: string,
    isRead: bool,
    createdAt: string,
    senderId: string,
    postId: Option<string>,
    commentId: Option<string>)

  predicate AllRead(ns: seq<Notification>) {
    forall i :: 0 <= i < |ns| ==> ns[i].isRead
  }

  /** `n` and `m` agree on every field except possibly `isRead`. */
  predicate SameButRead(n: Notification, m: Notification) {
    n.(isRead := m.isRead) == m
  }

  // ---------------------------------------------------------------------
  // List updates
  // ---------------------------------------------------------------------

  /** The list after a successful `markAsRead(id)`: the entries with that id
      become read, and nothing else changes, order included. */
  function MarkRead(ns: seq<Notification>, id: string): (r: seq<Notification>)
    ensures |r| == |ns|
    ensures forall i :: 0 <= i < |ns| ==> SameButRead(ns[i], r[i])
    ensures forall i :: 0 <= i < |ns| ==> (r[i].isRead <==> ns[i].isRead || ns[i].id == id)
  {
    seq(|ns|, i requires 0 <= i < |ns| => if ns[i].id == id then ns[i].(isRead := true) else ns[i])
  }

  /** The list after a successful `markAllAsRead`: every entry read, nothing
      else changed, order included. */
  function MarkAllRead(ns: seq<Notification>): (r: seq<Notification>)
    ensures |r| == |ns| && AllRead(r)
    ensures forall i :: 0 <= i < |ns| ==> SameButRead(ns[i], r[i])
  {
    seq(|ns|, i requires 0 <= i < |ns| => ns[i].(isRead := true))
  }

  /** Marking the same notification twice is the same as marking it once. */
  lemma MarkReadIdempotent(ns: seq<Notification>, id: string)
    ensures MarkRead(MarkRead(ns, id), id) == MarkRead(ns, id)
  {
    var once := MarkRead(ns, id);
    var twice := MarkRead(once, id);
    forall i | 0 <= i < |ns| ensures twice[i] == once[i] {
      assert SameButRead(once[i], twice[i]);
    }
  }

  /** Marking everything twice is the same as marking it once, and marking
      one entry first makes no difference. */
  lemma MarkAllReadAbsorbs(ns: seq<Notification>, id: string)
    ensures MarkAllRead(MarkAllRead(ns)) == MarkAllRead(ns)
    ensures MarkAllRead(MarkRead(ns, id)) == MarkAllRead(ns)
  {
    var all := MarkAllRead(ns);
    var again := MarkAllRead(all);
    forall i | 0 <= i < |ns| ensures again[i] == all[i] {
      assert SameButRead(all[i], again[i]) && SameButRead(ns[i], all[i]);
    }
    var one := MarkRead(ns, id);
    var after := MarkAllRead(one);
    forall i | 0 <= i < |ns| ensures after[i] == all[i] {
      assert SameButRead(one[i], after[i]) && SameButRead(ns[i], one[i]);
    }
  }

  // ---------------------------------------------------------------------
  // The unread badge
  // ---------------------------------------------------------------------

  /** `notifications.filter(n => !n.is_read).length`: zero exactly when
      everything is read. */
  function UnreadCount(ns: seq<Notification>): (c: nat)
    ensures c <= |ns|
    ensures c == 0 <==> AllRead(ns)
  {
    if ns == [] then 0
    else (if ns[0].isRead then 0 else 1) + UnreadCount(ns[1..])
  }

  /** Some entry with identifier `id` is still unread. */
  predicate HasUnread(ns: seq<Notification>, id: string) {
    exists i :: 0 <= i < |ns| && ns[i].id == id && !ns[i].isRead
  }

  /** After a successful `markAllAsRead` the badge shows nothing. */
  lemma UnreadAfterMarkAll(ns: seq<Notification>)
    ensures UnreadCount(MarkAllRead(ns)) == 0
  {
  }

  lemma MarkReadCons(ns: seq<Notification>, id: string)
    requires ns != []
    ensures MarkRead(ns, id)[0].isRead == (ns[0].isRead || ns[0].id == id)
    ensures MarkRead(ns, id)[1..] == MarkRead(ns[1..], id)
  {
  }

  lemma HasUnreadCons(ns: seq<Notification>, id: string)
    requires ns != []
    ensures HasUnread(ns, id) <==> (ns[0].id == id && !ns[0].isRead) || HasUnread(ns[1..], id)
  {
    if HasUnread(ns, id) {
      var i :| 0 <= i < |ns| && ns[i].id == id && !ns[i].isRead;
      if i > 0 {
        assert ns[1..][i - 1] == ns[i];
      }
    }
    if HasUnread(ns[1..], id) {
      var i :| 0 <= i < |ns[1..]| && ns[1..][i].id == id && !ns[1..][i].isRead;
      assert ns[i + 1] == ns[1..][i];
    }
  }

  /** `markAsRead` never raises the badge, and lowers it exactly when an
      unread entry carries that id. */
  lemma {:induction false} MarkReadLowersCount(ns: seq<Notification>, id: string)
    ensures UnreadCount(MarkRead(ns, id)) <= UnreadCount(ns)
    ensures UnreadCount(MarkRead(ns, id)) < UnreadCount(ns) <==> HasUnread(ns, id)
  {
    if ns != [] {
      MarkReadLowersCount(ns[1..], id);
      MarkReadCons(ns, id);
      HasUnreadCons(ns, id);
    }
  }

  // ---------------------------------------------------------------------
  // Clicks and the automatic mark-all
  // ---------------------------------------------------------------------

  /** What a click on a notification does: the id it marks read, if any, and
      the route it opens, if any. */
  datatype ClickEffect = ClickEffect(markRead: Option<string>, navigateTo: Option<string>)

  /** A post id is truthy when it is present and not the empty string. */
  predicate HasPost(n: Notification) {
    n.postId.Some? && n.postId.value != ""
  }

  /** `handleNotificationClick`: only an unread notification is marked read,
      and the sender's profile opens when the notification is about a post
      or is a follow; otherwise the page stays. */
  function OnClick(n: Notification): (e: ClickEffect)
    ensures e.markRead.Some? <==> !n.isRead
    ensures e.markRead.Some? ==> e.markRead.value == n.id
    ensures e.navigateTo.Some? <==> HasPost(n) || n.kind == Follow
    ensures e.navigateTo.Some? ==> e.navigateTo.value == "/profile/" + n.senderId
  {
    var mark := if !n.isRead then Some(n.id) else None;
    if HasPost(n) then ClickEffect(mark, Some("/profile/" + n.senderId))
    else if n.kind == Follow then ClickEffect(mark, Some("/profile/" + n.senderId))
    else ClickEffect(mark, None)
  }

  /** The condition of the page's effect that marks everything read: a user
      is known and some notification is unread. */
  function ShouldAutoMarkAll(user: Option<string>, ns: seq<Notification>): (fire: bool)
    ensures fire <==> user.Some? && exists i :: 0 <= i < |ns| && !ns[i].isRead
  {
    user.Some? && |ns| > 0 && UnreadCount(ns) > 0
  }

  /** Once the automatic mark-all has succeeded, the effect does not fire again. */
  lemma AutoMarkSettles(user: Option<string>, ns: seq<Notification>)
    ensures !ShouldAutoMarkAll(user, MarkAllRead(ns))
  {
  }

  // ---------------------------------------------------------------------
  // The page's state
  // ---------------------------------------------------------------------

  class Inbox {
    var notifications: seq<Notification>
    var user: Option<string>
    var loading: bool

    constructor ()
      ensures notifications == [] && user.None? && loading
    {
      notifications, user, loading := [], None, true;
    }

    /** The session lookup on mount: without a session the page goes to the
        sign-in route; with one it records the user and fetches that user's
        notifications. */
    method SessionLoaded(session: Option<string>) returns (fetchFor: Option<string>, toSignIn: bool)
      modifies this`user
      ensures toSignIn <==> session.None?
      ensures fetchFor == session
      ensures user == if session.Some? then session else old(user)
    {
      if session.None? {
        return None, true;
      }
      user := session;
      fetchFor, toSignIn := session, false;
    }

    /** The answer of `fetchNotifications`: the rows replace the list on
        success, and the spinner stops either way. */
    method NotificationsFetched(result: Result<seq<Notification>>)
      modifies this`notifications, this`loading
      ensures !loading
      ensures notifications == if result.Ok? then result.value else old(notifications)
    {
      if result.Ok? {
        notifications := result.value;
      }
      loading := false;
    }

    /** `markAsRead(id)` once its update returns: the list changes only on success. */
    method MarkAsRead(id: string, ok: bool)
      modifies this`notifications
      ensures notifications == if ok then MarkRead(old(notifications), id) else old(notifications)
    {
      if ok {
        notifications := MarkRead(notifications, id);
      }
    }

    /** `markAllAsRead`: nothing is sent without a user; otherwise the list
        changes only when the update succeeds. */
    method MarkAllAsRead(ok: bool) returns (sent: bool)
      modifies this`notifications
      ensures sent <==> user.Some?
      ensures notifications == if sent && ok then MarkAllRead(old(notifications)) else old(notifications)
    {
      if user.None? {
        return false;
      }
      sent := true;
      if ok {
        notifications := MarkAllRead(notifications);
      }
    }

  }
}
