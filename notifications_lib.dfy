/** Helpers that read the user's stored notification array and write back
    a new one: prepend with a fresh id, delete by id, and the read fallbacks.
    The read is an input (`Lookup`); the result says what was written and
    what the helper returns. */
module NotificationsLib {
  import opened Oracle
  import opened NotificationsStore

  /** A notification without its id, as callers pass it. Its `created_at`
      is always replaced by the time of insertion, so it is not kept here. */
  datatype Draft = Draft(title: string, message: string, fullMessage: Option<string>, kind: Kind, isRead: bool)

  /** What a read-then-write helper did: the array it wrote (if it got that
      far) and the boolean it returns. */
  datatype WriteOutcome = WriteOutcome(ok: bool, written: Option<seq<Notification>>)

  /** The largest id in a non-empty list. */
  function MaxId(s: seq<Notification>): (m: int)
    requires s != []
    ensures forall k :: 0 <= k < |s| ==> s[k].id <= m
    ensures exists k :: 0 <= k < |s| && s[k].id == m
  {
    if |s| == 1 then s[0].id
    else
      var rest := MaxId(s[1..]);
      assert forall k :: 0 < k < |s| ==> s[k] == s[1..][k - 1];
      if s[0].id >= rest then s[0].id else rest
  }

  /** `max(ids) + 1`, or 1 for an empty list: above every existing id. */
  function NextId(s: seq<Notification>): (r: int)
    ensures s == [] ==> r == 1
    ensures forall k :: 0 <= k < |s| ==> s[k].id < r
    ensures s != [] ==> exists k :: 0 <= k < |s| && s[k].id == r - 1
  {
    if |s| > 0 then MaxId(s) + 1 else 1
  }

  /** The new entry, with the next id and the insertion time, in front of
      the existing ones. */
  function Prepend(s: seq<Notification>, d: Draft, nowMs: int): (r: seq<Notification>)
    ensures |r| == |s| + 1 && r[1..] == s
    ensures r[0].id == NextId(s) && r[0].createdAt == nowMs
    ensures r[0].title == d.title && r[0].message == d.message && r[0].fullMessage == d.fullMessage
    ensures r[0].kind == d.kind && r[0].isRead == d.isRead
    ensures forall k :: 0 <= k < |s| ==> r[0].id != s[k].id
  {
    [Notification(NextId(s), d.title, d.message, d.fullMessage, d.kind, d.isRead, nowMs)] + s
  }

  /** A list with distinct ids keeps distinct ids after an insertion. */
  lemma PrependKeepsIdsUnique(s: seq<Notification>, d: Draft, nowMs: int)
    requires UniqueIds(s)
    ensures UniqueIds(Prepend(s, d, nowMs))
  {
    var r := Prepend(s, d, nowMs);
    forall i, j | 0 <= i < j < |r|
      ensures r[i].id != r[j].id
    {
      assert r[j] == s[j - 1];
      if i > 0 {
        assert r[i] == s[i - 1];
      }
    }
  }

  /** `addNotification`: a failed read writes nothing and returns false;
      otherwise the prepended array is written, and the result is whether
      that update succeeded. */
  function AddNotification(read: Lookup<Option<seq<Notification>>>, d: Draft, nowMs: int, updateFails: bool): (r: WriteOutcome)
    ensures !read.Found? ==> r == WriteOutcome(false, None)
    ensures read.Found? ==>
      r.ok == !updateFails
      && r.written.Some?
      && |r.written.value| == |read.value.GetOr([])| + 1
      && r.written.value[1..] == read.value.GetOr([])
      && r.written.value[0].id == NextId(read.value.GetOr([]))
    ensures read.Found? ==> r.written == Some(Prepend(read.value.GetOr([]), d, nowMs))
    ensures r.ok ==> r.written.Some?
  {
    if !read.Found? then WriteOutcome(false, None)
    else WriteOutcome(!updateFails, Some(Prepend(read.value.GetOr([]), d, nowMs)))
  }

  /** `deleteNotification`: a failed read writes nothing and returns false;
      otherwise the array without the entries carrying `id` is written. */
  function DeleteNotification(read: Lookup<Option<seq<Notification>>>, id: int, updateFails: bool): (r: WriteOutcome)
    ensures !read.Found? ==> r == WriteOutcome(false, None)
    ensures read.Found? ==>
      r.ok == !updateFails
      && r.written.Some?
      && (forall k :: 0 <= k < |r.written.value| ==> r.written.value[k].id != id)
      && IsSubsequence(r.written.value, read.value.GetOr([]))
      && |r.written.value| == |read.value.GetOr([])| - CountWithId(read.value.GetOr([]), id)
    ensures read.Found? ==> r.written == Some(RemoveId(read.value.GetOr([]), id))
  {
    if !read.Found? then WriteOutcome(false, None)
    else
      var cur := read.value.GetOr([]);
      RemoveIdKeepsOrder(cur, id);
      WriteOutcome(!updateFails, Some(RemoveId(cur, id)))
  }

  /** `fetchUserNotifications`: the stored array, or [] on an error or a
      missing array. */
  function FetchUserNotifications(read: Lookup<Option<seq<Notification>>>): (r: seq<Notification>)
    ensures read.Found? && read.value.Some? ==> r == read.value.value
    ensures !(read.Found? && read.value.Some?) ==> r == []
  {
    if read.Found? then read.value.GetOr([]) else []
  }

  /** `getUserReferralCode`: the stored code (which may itself be null), or
      null on an error. */
  function GetUserReferralCode(read: Lookup<Option<string>>): (r: Option<string>)
    ensures !read.Found? ==> r == None
    ensures read.Found? ==> r == read.value
  {
    if read.Found? then read.value else None
  }
}
