/** The notification list: the entity, the list operations the store and its
    callers build new arrays with, and the store that holds the list, its
    unread count and the current selection. */
module NotificationsStore {
  import opened Oracle

  datatype Kind = Welcome | Streak | Achievement | Info | Referral

  /** A notification; `createdAt` is the parsed `created_at` in milliseconds.
      The opaque display `metadata` map is not modelled. */
  datatype Notification = Notification(
    id: int, title: string, message: string, fullMessage: Option<string>,
    kind: Kind, isRead: bool, createdAt: int)

  /** Size of the window the list shows. */
  const VisibleLimit: nat := 20

  // ---------------------------------------------------------------------
  // Counting

  /** Number of entries not yet read. */
  function CountUnread(s: seq<Notification>): (n: nat)
    ensures n <= |s|
    ensures n == 0 <==> forall k :: 0 <= k < |s| ==> s[k].isRead
  {
    if s == [] then 0 else (if s[0].isRead then 0 else 1) + CountUnread(s[1..])
  }

  lemma {:induction false} CountUnreadAppend(a: seq<Notification>, b: seq<Notification>)
    ensures CountUnread(a + b) == CountUnread(a) + CountUnread(b)
  {
    if a == [] {
      assert a + b == b;
    } else {
      assert (a + b)[1..] == a[1..] + b;
      CountUnreadAppend(a[1..], b);
    }
  }

  // ---------------------------------------------------------------------
  // Marking as read

  /** `s.map(n => n.id === id ? {...n, is_read: true} : n)`. */
  function MarkRead(s: seq<Notification>, id: int): (r: seq<Notification>)
    ensures |r| == |s|
    ensures forall k :: 0 <= k < |s| ==>
      r[k] == if s[k].id == id then s[k].(isRead := true) else s[k]
  {
    if s == [] then [] else
      [if s[0].id == id then s[0].(isRead := true) else s[0]] + MarkRead(s[1..], id)
  }

  /** Marking the same id twice is the same as marking it once. */
  lemma MarkReadIdempotent(s: seq<Notification>, id: int)
    ensures MarkRead(MarkRead(s, id), id) == MarkRead(s, id)
  {
  }

  /** Marking never raises the unread count, and lowers it by exactly the
      unread entries that carry the id. */
  lemma {:induction false} MarkReadCount(s: seq<Notification>, id: int)
    ensures CountUnread(MarkRead(s, id)) == CountUnread(s) - CountUnreadWithId(s, id)
    ensures CountUnread(MarkRead(s, id)) <= CountUnread(s)
    ensures (exists k :: 0 <= k < |s| && s[k].id == id && !s[k].isRead) ==>
      CountUnread(MarkRead(s, id)) < CountUnread(s)
  {
    if s != [] {
      MarkReadCount(s[1..], id);
      assert MarkRead(s, id)[1..] == MarkRead(s[1..], id);
      if exists k :: 0 <= k < |s| && s[k].id == id && !s[k].isRead {
        var k :| 0 <= k < |s| && s[k].id == id && !s[k].isRead;
        if k > 0 {
          assert s[1..][k - 1].id == id && !s[1..][k - 1].isRead;
        }
      }
    }
  }

  /** Number of unread entries carrying `id`. */
  function CountUnreadWithId(s: seq<Notification>, id: int): (n: nat)
    ensures n <= CountUnread(s)
    ensures n > 0 <==> exists k :: 0 <= k < |s| && s[k].id == id && !s[k].isRead
  {
    if s == [] then 0
    else
      var rest := CountUnreadWithId(s[1..], id);
      assert forall k :: 0 < k < |s| ==> s[k] == s[1..][k - 1];
      (if s[0].id == id && !s[0].isRead then 1 else 0) + rest
  }

  /** `s.map(n => ({...n, is_read: true}))`. */
  function MarkAllRead(s: seq<Notification>): (r: seq<Notification>)
    ensures |r| == |s|
    ensures forall k :: 0 <= k < |s| ==> r[k] == s[k].(isRead := true)
    ensures CountUnread(r) == 0
  {
    if s == [] then [] else [s[0].(isRead := true)] + MarkAllRead(s[1..])
  }

  // ---------------------------------------------------------------------
  // Removing by id

  /** Number of entries carrying `id`. */
  function CountWithId(s: seq<Notification>, id: int): (n: nat)
    ensures n <= |s|
    ensures n == 0 <==> forall k :: 0 <= k < |s| ==> s[k].id != id
  {
    if s == [] then 0
    else
      var rest := CountWithId(s[1..], id);
      assert forall k :: 0 < k < |s| ==> s[k] == s[1..][k - 1];
      (if s[0].id == id then 1 else 0) + rest
  }

  /** `s.filter(n => n.id !== id)`: exactly the entries carrying `id` go. */
  function RemoveId(s: seq<Notification>, id: int): (r: seq<Notification>)
    ensures |r| == |s| - CountWithId(s, id)
    ensures forall k :: 0 <= k < |r| ==> r[k].id != id && r[k] in s
    ensures forall k :: 0 <= k < |s| && s[k].id != id ==> s[k] in r
    ensures CountUnread(r) <= CountUnread(s)
  {
    if s == [] then []
    else
      var rest := RemoveId(s[1..], id);
      assert forall k :: 0 < k < |s| ==> s[k] == s[1..][k - 1];
      if s[0].id == id then rest else [s[0]] + rest
  }

  /** Removal keeps the remaining entries in their order. */
  lemma {:induction false} RemoveIdKeepsOrder(s: seq<Notification>, id: int)
    ensures IsSubsequence(RemoveId(s, id), s)
  {
    if s != [] {
      RemoveIdKeepsOrder(s[1..], id);
      if s[0].id == id {
        var rest := RemoveId(s[1..], id);
        if rest != [] {
          SubsequenceOfTail(rest, s);
        }
      }
    }
  }

  /** Removing an id that no entry carries changes nothing; removing twice is
      removing once. */
  lemma RemoveIdAbsentAndIdempotent(s: seq<Notification>, id: int)
    ensures (forall k :: 0 <= k < |s| ==> s[k].id != id) ==> RemoveId(s, id) == s
    ensures RemoveId(RemoveId(s, id), id) == RemoveId(s, id)
  {
    if forall k :: 0 <= k < |s| ==> s[k].id != id {
      RemoveIdNoId(s, id);
    }
    RemoveIdNoId(RemoveId(s, id), id);
  }

  lemma {:induction false} RemoveIdNoId(s: seq<Notification>, id: int)
    requires forall k :: 0 <= k < |s| ==> s[k].id != id
    ensures RemoveId(s, id) == s
  {
    if s != [] {
      assert forall k :: 0 <= k < |s[1..]| ==> s[1..][k].id != id;
      RemoveIdNoId(s[1..], id);
      RemoveIdCons(s, id);
      assert s == [s[0]] + s[1..];
    }
  }

  /** The filter is determined by its properties: a subsequence of `s`
      that holds no entry with `id` is never longer than `RemoveId(s, id)`,
      and one just as long is `RemoveId(s, id)` itself. So no entry other
      than those carrying `id` is lost, duplicates included. */
  lemma {:induction false} RemoveIdUnique(t: seq<Notification>, s: seq<Notification>, id: int)
    requires IsSubsequence(t, s)
    requires forall k :: 0 <= k < |t| ==> t[k].id != id
    requires |t| == |s| - CountWithId(s, id)
    ensures t == RemoveId(s, id)
  {
    if s != [] {
      RemoveIdCons(s, id);
      if s[0].id == id {
        SkipsMatchingHead(t, s, id);
        RemoveIdUnique(t, s[1..], id);
      } else {
        KeepsOtherHead(t, s, id);
        RemoveIdUnique(t[1..], s[1..], id);
        assert t == [t[0]] + t[1..];
      }
    }
  }

  /** A head carrying `id` cannot be matched by an id-free subsequence. */
  lemma SkipsMatchingHead(t: seq<Notification>, s: seq<Notification>, id: int)
    requires s != [] && s[0].id == id
    requires IsSubsequence(t, s)
    requires forall k :: 0 <= k < |t| ==> t[k].id != id
    requires |t| == |s| - CountWithId(s, id)
    ensures IsSubsequence(t, s[1..])
    ensures |t| == |s[1..]| - CountWithId(s[1..], id)
  {
    if t != [] {
      assert t[0] != s[0];
    }
    CountWithIdCons(s, id);
  }

  /** A longest id-free subsequence keeps a head without `id`. */
  lemma KeepsOtherHead(t: seq<Notification>, s: seq<Notification>, id: int)
    requires s != [] && s[0].id != id
    requires IsSubsequence(t, s)
    requires forall k :: 0 <= k < |t| ==> t[k].id != id
    requires |t| == |s| - CountWithId(s, id)
    ensures t != [] && t[0] == s[0]
    ensures IsSubsequence(t[1..], s[1..])
    ensures forall k :: 0 <= k < |t[1..]| ==> t[1..][k].id != id
    ensures |t[1..]| == |s[1..]| - CountWithId(s[1..], id)
  {
    CountWithIdCons(s, id);
    if t == [] || t[0] != s[0] {
      SubsequenceBound(t, s[1..], id);
      assert false;
    }
    assert forall k :: 0 <= k < |t[1..]| ==> t[1..][k] == t[k + 1];
  }

  /** A subsequence free of `id` keeps at most the entries without it. */
  lemma {:induction false} SubsequenceBound(t: seq<Notification>, s: seq<Notification>, id: int)
    requires IsSubsequence(t, s)
    requires forall k :: 0 <= k < |t| ==> t[k].id != id
    ensures |t| <= |s| - CountWithId(s, id)
  {
    if s != [] && t != [] {
      CountWithIdCons(s, id);
      assert forall k :: 0 <= k < |t[1..]| ==> t[1..][k] == t[k + 1];
      if t[0] == s[0] {
        SubsequenceBound(t[1..], s[1..], id);
      } else {
        SubsequenceBound(t, s[1..], id);
      }
    }
  }

  /** Unfolding `CountWithId` at the first entry. */
  lemma CountWithIdCons(s: seq<Notification>, id: int)
    requires s != []
    ensures CountWithId(s, id) == (if s[0].id == id then 1 else 0) + CountWithId(s[1..], id)
  {
  }

  /** Unfolding `RemoveId` at the first entry. */
  lemma RemoveIdCons(s: seq<Notification>, id: int)
    requires s != []
    ensures RemoveId(s, id) == if s[0].id == id then RemoveId(s[1..], id) else [s[0]] + RemoveId(s[1..], id)
  {
  }

  // ---------------------------------------------------------------------
  // Ordering newest first

  predicate NewestFirst(s: seq<Notification>) {
    forall i, j :: 0 <= i < j < |s| ==> s[i].createdAt >= s[j].createdAt
  }

  /** Inserts `x` before the first entry that is not newer than it. */
  function Insert(x: Notification, s: seq<Notification>): (r: seq<Notification>)
    ensures multiset(r) == multiset(s) + multiset{x}
    ensures |r| == |s| + 1
  {
    if s == [] then [x]
    else if s[0].createdAt <= x.createdAt then [x] + s
    else
      assert s == [s[0]] + s[1..];
      [s[0]] + Insert(x, s[1..])
  }

  /** Insertion into a newest-first list keeps it newest first. */
  lemma {:induction false} InsertKeepsOrder(x: Notification, s: seq<Notification>)
    requires NewestFirst(s)
    ensures NewestFirst(Insert(x, s))
  {
    if s == [] {
    } else if s[0].createdAt <= x.createdAt {
      var r := [x] + s;
      forall i, j | 0 <= i < j < |r|
        ensures r[i].createdAt >= r[j].createdAt
      {
        assert r[j] == s[j - 1];
        if i == 0 {
          assert s[0].createdAt >= s[j - 1].createdAt;
        } else {
          assert r[i] == s[i - 1];
        }
      }
    } else {
      var rest := Insert(x, s[1..]);
      InsertKeepsOrder(x, s[1..]);
      InsertBounded(x, s[1..], s[0].createdAt);
      var r := [s[0]] + rest;
      forall i, j | 0 <= i < j < |r|
        ensures r[i].createdAt >= r[j].createdAt
      {
        assert r[j] == rest[j - 1];
        if i > 0 {
          assert r[i] == rest[i - 1];
        }
      }
    }
  }

  /** Inserting below a bound keeps every entry below it. */
  lemma {:induction false} InsertBounded(x: Notification, s: seq<Notification>, t: int)
    requires x.createdAt <= t
    requires forall k :: 0 <= k < |s| ==> s[k].createdAt <= t
    ensures forall k :: 0 <= k < |Insert(x, s)| ==> Insert(x, s)[k].createdAt <= t
  {
    if s != [] && s[0].createdAt > x.createdAt {
      assert forall k :: 0 <= k < |s[1..]| ==> s[1..][k] == s[k + 1];
      InsertBounded(x, s[1..], t);
      var r := Insert(x, s);
      assert forall k :: 0 < k < |r| ==> r[k] == Insert(x, s[1..])[k - 1];
    }
  }

  /** The order `sort((a, b) => b.created_at - a.created_at)` produces:
      the same entries, newest first. */
  function SortNewestFirst(s: seq<Notification>): (r: seq<Notification>)
    ensures multiset(r) == multiset(s)
    ensures |r| == |s|
    ensures NewestFirst(r)
  {
    if s == [] then []
    else
      assert s == [s[0]] + s[1..];
      var sortedTail := SortNewestFirst(s[1..]);
      InsertKeepsOrder(s[0], sortedTail);
      Insert(s[0], sortedTail)
  }

  /** A list that is already newest first comes back unchanged. */
  lemma {:induction false} SortKeepsSortedList(s: seq<Notification>)
    requires NewestFirst(s)
    ensures SortNewestFirst(s) == s
  {
    if s != [] {
      assert NewestFirst(s[1..]);
      SortKeepsSortedList(s[1..]);
      assert s == [s[0]] + s[1..];
    }
  }

  /** Sorting keeps the unread count. */
  lemma {:induction false} SortKeepsUnread(s: seq<Notification>)
    ensures CountUnread(SortNewestFirst(s)) == CountUnread(s)
  {
    if s != [] {
      SortKeepsUnread(s[1..]);
      InsertCount(s[0], SortNewestFirst(s[1..]));
    }
  }

  lemma {:induction false} InsertCount(x: Notification, s: seq<Notification>)
    ensures CountUnread(Insert(x, s)) == CountUnread([x]) + CountUnread(s)
  {
    if s != [] && s[0].createdAt > x.createdAt {
      InsertCount(x, s[1..]);
      assert Insert(x, s)[1..] == Insert(x, s[1..]);
    } else if s != [] {
      CountUnreadAppend([x], s);
    }
  }

  // ---------------------------------------------------------------------
  // Window and ids

  /** `s.slice(0, 20)`. */
  function Visible(s: seq<Notification>): (r: seq<Notification>)
    ensures |r| == if |s| < VisibleLimit then |s| else VisibleLimit
    ensures forall k :: 0 <= k < |r| ==> r[k] == s[k]
    ensures r == [] <==> s == []
  {
    if |s| < VisibleLimit then s else s[..VisibleLimit]
  }

  predicate UniqueIds(s: seq<Notification>) {
    forall i, j :: 0 <= i < j < |s| ==> s[i].id != s[j].id
  }

  // ---------------------------------------------------------------------
  // The store

  class Store {
    var notifications: seq<Notification>
    var unreadCount: int
    var loading: bool
    var selectedNotification: Option<Notification>
    var showDeleteWarning: bool

    /** The unread count always matches the list. */
    ghost predicate Valid()
      reads this
    {
      unreadCount == CountUnread(notifications)
    }

    constructor ()
      ensures Valid()
      ensures notifications == [] && !loading && selectedNotification == None && !showDeleteWarning
    {
      notifications := [];
      unreadCount := 0;
      loading := false;
      selectedNotification := None;
      showDeleteWarning := false;
    }

    /** Loads the user's notification array and keeps it newest first.
        Without a user or when the row cannot be read, the list is emptied. */
    method FetchNotifications(user: Option<UserId>, row: Lookup<Option<seq<Notification>>>)
      modifies this`notifications, this`unreadCount, this`loading
      ensures Valid() && !loading
      ensures user.None? || !row.Found? ==> notifications == [] && unreadCount == 0
      ensures user.Some? && row.Found? ==>
        notifications == SortNewestFirst(row.value.GetOr([]))
        && multiset(notifications) == multiset(row.value.GetOr([]))
        && NewestFirst(notifications)
        && unreadCount == CountUnread(row.value.GetOr([]))
    {
      loading := true;
      if user.None? || !row.Found? {
        notifications, unreadCount, loading := [], 0, false;
        return;
      }
      var sorted := SortNewestFirst(row.value.GetOr([]));
      SortKeepsUnread(row.value.GetOr([]));
      notifications, unreadCount, loading := sorted, CountUnread(sorted), false;
    }

    /** Marks every entry with `id` as read, recomputes the count and writes
        the same change into the stored array (`remote` is that read; the
        returned value is the array written, if any). When the remote part
        throws, the "revert" re-sets the current values: no rollback. */
    method MarkAsRead(user: Option<UserId>, id: int, remote: Lookup<Option<seq<Notification>>>, remoteThrows: bool)
      returns (written: Option<seq<Notification>>)
      modifies this`notifications, this`unreadCount
      ensures user.None? ==>
        notifications == old(notifications) && unreadCount == old(unreadCount) && written == None
      ensures user.Some? ==>
        Valid() && notifications == MarkRead(old(notifications), id)
        && unreadCount <= CountUnread(old(notifications))
      ensures user.Some? && !remoteThrows && remote.Found? ==>
        written == Some(MarkRead(remote.value.GetOr([]), id))
      ensures remoteThrows || !remote.Found? ==> written == None
    {
      var before := notifications;
      if user.None? {
        return None;
      }
      var updated := MarkRead(before, id);
      MarkReadCount(before, id);
      notifications, unreadCount := updated, CountUnread(updated);
      written := None;
      if remoteThrows {
        notifications, unreadCount := notifications, unreadCount;
      } else if remote.Found? {
        written := Some(MarkRead(remote.value.GetOr([]), id));
      }
    }

    /** Marks every entry read, locally and in the stored array. */
    method MarkAllAsRead(user: Option<UserId>, remote: Lookup<Option<seq<Notification>>>)
      returns (written: Option<seq<Notification>>)
      modifies this`notifications, this`unreadCount
      ensures user.None? ==>
        notifications == old(notifications) && unreadCount == old(unreadCount) && written == None
      ensures user.Some? ==>
        Valid() && unreadCount == 0 && notifications == MarkAllRead(old(notifications))
        && written == (if remote.Found? then Some(MarkAllRead(remote.value.GetOr([]))) else None)
    {
      if user.None? {
        return None;
      }
      notifications, unreadCount := MarkAllRead(notifications), 0;
      written := if remote.Found? then Some(MarkAllRead(remote.value.GetOr([]))) else None;
    }

    /** Empties the list, clears the selection and closes the warning; the
        stored array is overwritten with the empty array. */
    method DeleteAllNotifications(user: Option<UserId>) returns (written: Option<seq<Notification>>)
      modifies this`notifications, this`unreadCount, this`selectedNotification, this`showDeleteWarning
      ensures user.None? ==>
        notifications == old(notifications) && unreadCount == old(unreadCount)
        && selectedNotification == old(selectedNotification) && showDeleteWarning == old(showDeleteWarning)
        && written == None
      ensures user.Some? ==>
        Valid() && notifications == [] && unreadCount == 0
        && selectedNotification == None && !showDeleteWarning && written == Some([])
    {
      if user.None? {
        return None;
      }
      notifications, unreadCount, selectedNotification, showDeleteWarning := [], 0, None, false;
      written := Some([]);
    }

    method SetSelectedNotification(n: Option<Notification>)
      modifies this`selectedNotification
      ensures selectedNotification == n
    {
      selectedNotification := n;
    }

    method SetShowDeleteWarning(show: bool)
      modifies this`showDeleteWarning
      ensures showDeleteWarning == show
    {
      showDeleteWarning := show;
    }

    /** The first twenty entries, in list order. */
    function GetVisibleNotifications(): (r: seq<Notification>)
      reads this
      ensures |r| <= VisibleLimit && |r| <= |notifications| && r == notifications[..|r|]
      ensures |r| == VisibleLimit || r == notifications
    {
      Visible(notifications)
    }
  }
}
