/** The notification panel: time-ago labels, icon classes, the popup text,
    the button states and the click handlers that drive the store. The
    current time is a parameter (milliseconds); the signed-in user and the
    stored array are inputs of the handlers that read them. */
module NotificationsView {
  import opened Oracle
  import opened NotificationsStore

  /** The label shown under a notification. The number inside each case is
      what the text shows ("5m ago" is `MinutesAgo(5)`); the locale-dependent
      date text is kept abstract as the creation time it formats. */
  datatype TimeAgo = JustNow | MinutesAgo(n: int) | HoursAgo(n: int) | DaysAgo(n: int) | LocaleDate(createdAt: int)

  const SecondsPerMinute := 60
  const SecondsPerHour := 3600
  const SecondsPerDay := 86400
  const SecondsPerWeek := 604800

  /** Whole seconds since creation, rounded down (negative for a creation
      time in the future). Dafny's `/` by a positive divisor rounds down,
      as `Math.floor` of the quotient does. */
  function ElapsedSeconds(createdAt: int, nowMs: int): (s: int)
    ensures s * 1000 <= nowMs - createdAt < s * 1000 + 1000
  {
    (nowMs - createdAt) / 1000
  }

  /** `formatTimeAgo`. */
  function FormatTimeAgo(createdAt: int, nowMs: int): (r: TimeAgo)
    ensures var e := ElapsedSeconds(createdAt, nowMs);
      (r.JustNow? <==> e < SecondsPerMinute)
      && (r.MinutesAgo? <==> SecondsPerMinute <= e < SecondsPerHour)
      && (r.HoursAgo? <==> SecondsPerHour <= e < SecondsPerDay)
      && (r.DaysAgo? <==> SecondsPerDay <= e < SecondsPerWeek)
      && (r.LocaleDate? <==> SecondsPerWeek <= e)
    ensures var e := ElapsedSeconds(createdAt, nowMs);
      (r.MinutesAgo? ==> 1 <= r.n <= 59 && r.n * SecondsPerMinute <= e < (r.n + 1) * SecondsPerMinute)
      && (r.HoursAgo? ==> 1 <= r.n <= 23 && r.n * SecondsPerHour <= e < (r.n + 1) * SecondsPerHour)
      && (r.DaysAgo? ==> 1 <= r.n <= 6 && r.n * SecondsPerDay <= e < (r.n + 1) * SecondsPerDay)
      && (r.LocaleDate? ==> r.createdAt == createdAt)
    ensures createdAt > nowMs ==> r == JustNow
  {
    var e := ElapsedSeconds(createdAt, nowMs);
    if e < SecondsPerMinute then JustNow
    else if e < SecondsPerHour then MinutesAgo(e / SecondsPerMinute)
    else if e < SecondsPerDay then HoursAgo(e / SecondsPerHour)
    else if e < SecondsPerWeek then DaysAgo(e / SecondsPerDay)
    else LocaleDate(createdAt)
  }

  /** The coarseness of a label: seconds, minutes, hours, days, date. */
  function Rank(t: TimeAgo): nat {
    match t
    case JustNow => 0
    case MinutesAgo(_) => 1
    case HoursAgo(_) => 2
    case DaysAgo(_) => 3
    case LocaleDate(_) => 4
  }

  /** As time passes a label never moves to a finer unit, and within one
      unit its number never goes down. */
  lemma TimeAgoMonotone(createdAt: int, now1: int, now2: int)
    requires now1 <= now2
    ensures var a, b := FormatTimeAgo(createdAt, now1), FormatTimeAgo(createdAt, now2);
      Rank(a) <= Rank(b)
      && (Rank(a) == Rank(b) && (a.MinutesAgo? || a.HoursAgo? || a.DaysAgo?) ==> a.n <= b.n)
  {
    var e1, e2 := ElapsedSeconds(createdAt, now1), ElapsedSeconds(createdAt, now2);
    assert e1 <= e2;
    assert e1 / SecondsPerMinute <= e2 / SecondsPerMinute;
    assert e1 / SecondsPerHour <= e2 / SecondsPerHour;
    assert e1 / SecondsPerDay <= e2 / SecondsPerDay;
  }

  /** The icon drawn for a kind: info covers every kind without its own. */
  datatype Icon = FlameIcon | SmileIcon | TrophyIcon | InfoIcon

  /** `getNotificationIcon`. */
  function NotificationIcon(kind: Kind): (i: Icon)
    ensures i == FlameIcon <==> kind == Streak
    ensures i == SmileIcon <==> kind == Welcome
    ensures i == TrophyIcon <==> kind == Achievement
    ensures i == InfoIcon <==> kind == Info || kind == Referral
  {
    match kind
    case Streak => FlameIcon
    case Welcome => SmileIcon
    case Achievement => TrophyIcon
    case _ => InfoIcon
  }

  const BaseClasses := "w-8 h-8 rounded-full flex items-center justify-center shrink-0"
  const ReadColour := " bg-gray-100 text-gray-400"
  const StreakColour := " bg-[#ffedda] text-[#ff8a00]"
  const WelcomeColour := " bg-[#e6f9ef] text-[#22c55e]"
  const AchievementColour := " bg-[#eef2ff] text-[#4f46e5]"
  const DefaultColour := " bg-[#f0f4ff] text-[#6366f1]"

  /** `getIconBgColor`: the shared size/shape classes and a colour pair. */
  function IconBgColor(kind: Kind, isRead: bool): (r: string)
    ensures BaseClasses <= r
    ensures isRead ==> r == BaseClasses + ReadColour
  {
    if isRead then BaseClasses + ReadColour
    else match kind
      case Streak => BaseClasses + StreakColour
      case Welcome => BaseClasses + WelcomeColour
      case Achievement => BaseClasses + AchievementColour
      case _ => BaseClasses + DefaultColour
  }

  /** Two icons get the same classes exactly when both are read, or both
      are unread and draw the same icon: every read notification is gray,
      and unread info and referral notifications share the default colour. */
  lemma IconBgColorClasses(k1: Kind, r1: bool, k2: Kind, r2: bool)
    ensures IconBgColor(k1, r1) == IconBgColor(k2, r2) <==>
      (r1 && r2) || (!r1 && !r2 && NotificationIcon(k1) == NotificationIcon(k2))
  {
    var c1, c2 := IconBgColor(k1, r1), IconBgColor(k2, r2);
    var p := |BaseClasses|;
    if c1 == c2 {
      // the colour pairs already differ at their fifth or eighth character
      assert c1[p + 4] == c2[p + 4] && c1[p + 7] == c2[p + 7];
    }
  }

  /** The popup shows the full message when there is a non-empty one. */
  function PopupBody(n: Notification): (body: string)
    ensures Truthy(n.fullMessage) ==> body == n.fullMessage.value
    ensures !Truthy(n.fullMessage) ==> body == n.message
  {
    if Truthy(n.fullMessage) then n.fullMessage.value else n.message
  }

  /** Unread entries lost by deleting an id are exactly the unread entries
      that carried it. */
  lemma {:induction false} RemoveIdCount(s: seq<Notification>, id: int)
    ensures CountUnread(RemoveId(s, id)) == CountUnread(s) - CountUnreadWithId(s, id)
  {
    if s != [] {
      RemoveIdCount(s[1..], id);
      if s[0].id == id {
        assert RemoveId(s, id) == RemoveId(s[1..], id);
      } else {
        assert RemoveId(s, id) == [s[0]] + RemoveId(s[1..], id);
        CountUnreadAppend([s[0]], RemoveId(s[1..], id));
      }
    }
  }

  /** The panel: its own options-menu state, over the shared store. */
  class NotificationCard {
    const store: Store
    var showOptionsMenu: Option<string>

    constructor (store: Store)
      ensures this.store == store && showOptionsMenu == None
    {
      this.store := store;
      showOptionsMenu := None;
    }

    /** The skeleton is shown exactly while loading an empty list. */
    function ShowsSkeleton(): (b: bool)
      reads this, store
      ensures b <==> store.loading && store.notifications == []
    {
      store.loading && |store.notifications| == 0
    }

    /** "Mark all as read" is disabled exactly when nothing is unread. */
    function MarkAllDisabled(): (b: bool)
      reads this, store
      ensures store.Valid() ==> (b <==> forall k :: 0 <= k < |store.notifications| ==> store.notifications[k].isRead)
    {
      store.unreadCount == 0
    }

    /** "Delete All" is disabled exactly when the list is empty. */
    function DeleteAllDisabled(): (b: bool)
      reads this, store
      ensures b <==> store.notifications == []
    {
      |store.GetVisibleNotifications()| == 0
    }

    /** `handleDeleteNotification`: without a user nothing happens;
        otherwise the entries with `id` leave the list, the count follows,
        the stored array (when it could be read) is rewritten without them,
        and the menu closes. */
    method HandleDeleteNotification(user: Option<UserId>, id: int, remote: Lookup<Option<seq<Notification>>>)
      returns (written: Option<seq<Notification>>)
      modifies store`notifications, store`unreadCount, this`showOptionsMenu
      ensures user.None? ==>
        store.notifications == old(store.notifications) && store.unreadCount == old(store.unreadCount)
        && showOptionsMenu == old(showOptionsMenu) && written == None
      ensures user.Some? ==>
        store.Valid() && showOptionsMenu == None
        && store.notifications == RemoveId(old(store.notifications), id)
        && store.unreadCount == CountUnread(old(store.notifications)) - CountUnreadWithId(old(store.notifications), id)
        && written == (if remote.Found? then Some(RemoveId(remote.value.GetOr([]), id)) else None)
    {
      if user.None? {
        return None;
      }
      var updated := RemoveId(store.notifications, id);
      RemoveIdCount(store.notifications, id);
      store.notifications, store.unreadCount := updated, CountUnread(updated);
      written := if remote.Found? then Some(RemoveId(remote.value.GetOr([]), id)) else None;
      showOptionsMenu := None;
    }

    /** `handleNotificationClick`: an unread entry is marked read, and the
        entry is selected and the menu closed in every case. */
    method HandleNotificationClick(n: Notification, user: Option<UserId>,
                                   remote: Lookup<Option<seq<Notification>>>, remoteThrows: bool)
      modifies store`notifications, store`unreadCount, store`selectedNotification, this`showOptionsMenu
      ensures store.selectedNotification == Some(n) && showOptionsMenu == None
      ensures n.isRead || user.None? ==>
        store.notifications == old(store.notifications) && store.unreadCount == old(store.unreadCount)
      ensures !n.isRead && user.Some? ==>
        store.Valid() && store.notifications == MarkRead(old(store.notifications), n.id)
    {
      if !n.isRead {
        var _ := store.MarkAsRead(user, n.id, remote, remoteThrows);
      }
      store.SetSelectedNotification(Some(n));
      showOptionsMenu := None;
    }

    /** `handleMarkAllAsRead`. */
    method HandleMarkAllAsRead(user: Option<UserId>, remote: Lookup<Option<seq<Notification>>>)
      modifies store`notifications, store`unreadCount, this`showOptionsMenu
      ensures showOptionsMenu == None
      ensures user.Some? ==>
        store.Valid() && store.unreadCount == 0 && store.notifications == MarkAllRead(old(store.notifications))
      ensures user.None? ==> store.notifications == old(store.notifications) && store.unreadCount == old(store.unreadCount)
    {
      var _ := store.MarkAllAsRead(user, remote);
      showOptionsMenu := None;
    }

    /** `handleDeleteAll`: only opens the confirmation. */
    method HandleDeleteAll()
      modifies store`showDeleteWarning, this`showOptionsMenu
      ensures store.showDeleteWarning && showOptionsMenu == None
    {
      store.SetShowDeleteWarning(true);
      showOptionsMenu := None;
    }

    /** `confirmDeleteAll`: deletes and closes the confirmation. */
    method ConfirmDeleteAll(user: Option<UserId>)
      modifies store`notifications, store`unreadCount, store`selectedNotification, store`showDeleteWarning
      ensures !store.showDeleteWarning
      ensures user.Some? ==> store.Valid() && store.notifications == [] && store.selectedNotification == None
      ensures user.None? ==>
        store.notifications == old(store.notifications) && store.unreadCount == old(store.unreadCount)
        && store.selectedNotification == old(store.selectedNotification)
    {
      var _ := store.DeleteAllNotifications(user);
      store.SetShowDeleteWarning(false);
    }

    /** `cancelDeleteAll`. */
    method CancelDeleteAll()
      modifies store`showDeleteWarning
      ensures !store.showDeleteWarning
    {
      store.SetShowDeleteWarning(false);
    }
  }
}
