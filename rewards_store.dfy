/** The daily-streak store: a client-side projection of the user's streak
    row and the result of the remote claim procedure. The claim itself
    (streak increment or reset) runs in a remote procedure whose body is not
    part of this model; its reply is an input. */
module RewardsStore {
  import opened Oracle

  /** Points awarded per entry of the streak history. */
  const PointsPerClaim: int := 5
  const MsPerDay: int := 86400000

  datatype HistoryItem = HistoryItem(day: int, dayInWeek: string, claimedDate: string, pointsEarned: int)

  /** The streak row as the store keeps it: the history is always a list. */
  datatype StreakData = StreakData(streakDays: int, history: seq<HistoryItem>, lastClaimedDate: Option<int>)

  /** The streak row as read from the backend; `history` is None when the
      stored value is not an array. Dates are milliseconds since the epoch. */
  datatype StreakRow = StreakRow(streakDays: int, history: Option<seq<HistoryItem>>, lastClaimedDate: Option<int>)

  /** Reply of the remote claim procedure: a transport or database error,
      or its data object (`status`, `streak_days`, `streak_history`). */
  datatype ClaimReply =
    | RpcFailed(message: string)
    | RpcData(status: string, streakDays: int, history: Option<seq<HistoryItem>>)

  /** A non-array history is replaced by the empty list. */
  function SafeHistory(h: Option<seq<HistoryItem>>): seq<HistoryItem> {
    h.GetOr([])
  }

  /** The row a missing record (PGRST116) is replaced by. */
  const EmptyStreak: StreakData := StreakData(0, [], None)

  // ---------------------------------------------------------------------
  // Calendar days

  /** The local calendar day of a timestamp, for a fixed local offset from
      UTC (what `toDateString` compares). Division is floor division. */
  function CalendarDay(ms: int, offsetMs: int): int {
    (ms + offsetMs) / MsPerDay
  }

  /** "Claimed today": a last claim date exists and falls on the same local
      calendar day as now. */
  predicate ClaimedToday(last: Option<int>, nowMs: int, offsetMs: int) {
    last.Some? && CalendarDay(last.value, offsetMs) == CalendarDay(nowMs, offsetMs)
  }

  /** Two instants on the same calendar day are less than a day apart. */
  lemma SameDayIsWithinADay(last: int, nowMs: int, offsetMs: int)
    requires ClaimedToday(Some(last), nowMs, offsetMs)
    ensures -MsPerDay < last - nowMs < MsPerDay
  {
    var d := CalendarDay(nowMs, offsetMs);
    assert d * MsPerDay <= last + offsetMs < d * MsPerDay + MsPerDay;
    assert d * MsPerDay <= nowMs + offsetMs < d * MsPerDay + MsPerDay;
  }

  /** The comparison is by calendar day, not by a 24-hour window: a claim at
      the first millisecond of today counts, one a millisecond earlier does
      not, however close it is to now. */
  lemma CalendarDayNotWindow(nowMs: int, offsetMs: int)
    ensures var start := nowMs - (nowMs + offsetMs) % MsPerDay;
      ClaimedToday(Some(start), nowMs, offsetMs) && !ClaimedToday(Some(start - 1), nowMs, offsetMs)
  {
    var start := nowMs - (nowMs + offsetMs) % MsPerDay;
    var d := CalendarDay(nowMs, offsetMs);
    assert start + offsetMs == d * MsPerDay;
    assert CalendarDay(start, offsetMs) == d;
    assert start - 1 + offsetMs == (d - 1) * MsPerDay + (MsPerDay - 1);
    assert CalendarDay(start - 1, offsetMs) == d - 1;
  }

  // ---------------------------------------------------------------------
  // Claimed days of the week

  const Days: seq<string> := ["Sunday", "Monday", "Tuesday", "Wednesday", "Thursday", "Friday", "Saturday"]

  /** `s.indexOf(x)`: the first index holding `x`, or -1. */
  function IndexOf(s: seq<string>, x: string): (r: int)
    ensures -1 <= r < |s|
    ensures r >= 0 ==> s[r] == x && x !in s[..r]
    ensures r == -1 <==> x !in s
  {
    if s == [] then -1
    else if s[0] == x then 0
    else
      var k := IndexOf(s[1..], x);
      assert s[1..][..k + 1] == s[1..k + 2] by { }
      if k < 0 then -1 else k + 1
  }

  /** Index of a weekday name in Sunday..Saturday, or -1 for any other name. */
  function DayIndex(name: string): (r: int)
    ensures -1 <= r < 7
    ensures r >= 0 ==> Days[r] == name
    ensures r == -1 <==> name !in Days
  {
    IndexOf(Days, name)
  }

  /** `history.map(h => DAYS.indexOf(h.dayInWeek)).filter(i => i >= 0)`. */
  function ClaimedDays(history: seq<HistoryItem>): (r: seq<int>)
    ensures |r| <= |history|
    ensures forall k :: 0 <= k < |r| ==> 0 <= r[k] < 7
  {
    if history == [] then [] else DayEntry(history[0]) + ClaimedDays(history[1..])
  }

  /** The index of one entry's weekday, or nothing for an unknown name. */
  function DayEntry(h: HistoryItem): (r: seq<int>)
    ensures |r| <= 1
    ensures forall k :: 0 <= k < |r| ==> 0 <= r[k] < 7
  {
    var i := DayIndex(h.dayInWeek);
    if i >= 0 then [i] else []
  }

  /** Claimed days follow the history: the days of a concatenation are the
      days of each part, in order. */
  lemma {:induction false} ClaimedDaysAppend(a: seq<HistoryItem>, b: seq<HistoryItem>)
    ensures ClaimedDays(a + b) == ClaimedDays(a) + ClaimedDays(b)
  {
    if a == [] {
      assert a + b == b;
    } else {
      ClaimedDaysAppend(a[1..], b);
      ClaimedDaysConsAppend(a, b);
      SeqAssoc(DayEntry(a[0]), ClaimedDays(a[1..]), ClaimedDays(b));
    }
  }

  /** Unfolding the first entry of `a`, alone and followed by `b`. */
  lemma ClaimedDaysConsAppend(a: seq<HistoryItem>, b: seq<HistoryItem>)
    requires a != []
    ensures ClaimedDays(a + b) == DayEntry(a[0]) + ClaimedDays(a[1..] + b)
    ensures ClaimedDays(a) == DayEntry(a[0]) + ClaimedDays(a[1..])
  {
    assert (a + b)[1..] == a[1..] + b;
  }

  /** Concatenation is associative. */
  lemma SeqAssoc(x: seq<int>, y: seq<int>, z: seq<int>)
    ensures x + (y + z) == (x + y) + z
  {
  }

  /** A day index is listed iff some history entry names that weekday. */
  lemma {:induction false} ClaimedDaysMembership(history: seq<HistoryItem>, d: int)
    ensures d in ClaimedDays(history) <==>
      0 <= d < 7 && exists j :: 0 <= j < |history| && DayIndex(history[j].dayInWeek) == d
  {
    if history != [] {
      ClaimedDaysMembership(history[1..], d);
      var i := DayIndex(history[0].dayInWeek);
      if exists j :: 0 <= j < |history[1..]| && DayIndex(history[1..][j].dayInWeek) == d {
        var j :| 0 <= j < |history[1..]| && DayIndex(history[1..][j].dayInWeek) == d;
        assert DayIndex(history[j + 1].dayInWeek) == d;
      }
      if exists j :: 0 <= j < |history| && DayIndex(history[j].dayInWeek) == d {
        var j :| 0 <= j < |history| && DayIndex(history[j].dayInWeek) == d;
        if j > 0 {
          assert DayIndex(history[1..][j - 1].dayInWeek) == d;
        }
      }
    }
  }

  // ---------------------------------------------------------------------
  // The store

  class Store {
    var streakData: Option<StreakData>
    var points: int
    var referralPoints: int
    var isClaimedToday: bool
    var loading: bool
    var error: Option<string>

    /** Every field at its initial value. */
    predicate IsInitial()
      reads this
    {
      streakData == None && points == 0 && referralPoints == 0
      && !isClaimedToday && !loading && error == None
    }

    constructor ()
      ensures IsInitial()
    {
      streakData := None;
      points := 0;
      referralPoints := 0;
      isClaimedToday := false;
      loading := false;
      error := None;
    }

    /** Loads the streak row. With a row, or with none (PGRST116, replaced
        by the empty streak), the store holds it, points are 5 per history
        entry and "claimed today" compares calendar days. Without a user or
        on any other error, only `error` and `loading` change. */
    method FetchStreakData(user: Option<UserId>, row: Lookup<StreakRow>, nowMs: int, offsetMs: int)
      modifies this`streakData, this`points, this`isClaimedToday, this`loading, this`error
      ensures !loading
      ensures user.None? ==>
        error == Some("User not authenticated")
        && streakData == old(streakData) && points == old(points) && isClaimedToday == old(isClaimedToday)
      ensures user.Some? && row.Failed? ==>
        error == Some(MessageOr(row.message, "Failed to fetch streak data"))
        && streakData == old(streakData) && points == old(points) && isClaimedToday == old(isClaimedToday)
      ensures user.Some? && row.NotFound? ==>
        error == None && streakData == Some(EmptyStreak) && points == 0 && !isClaimedToday
      ensures user.Some? && row.Found? ==>
        error == None
        && streakData == Some(StreakData(row.value.streakDays, SafeHistory(row.value.history), row.value.lastClaimedDate))
        && points == PointsPerClaim * |SafeHistory(row.value.history)|
        && (isClaimedToday <==> ClaimedToday(row.value.lastClaimedDate, nowMs, offsetMs))
      ensures user.Some? && !row.Failed? ==> points == TotalPointsFromStreaks()
    {
      loading, error := true, None;
      if user.None? {
        error, loading := Some("User not authenticated"), false;
        return;
      }
      if row.Failed? {
        error, loading := Some(MessageOr(row.message, "Failed to fetch streak data")), false;
        return;
      }
      var data := if row.Found? then row.value else StreakRow(0, Some([]), None);
      var safeHistory := SafeHistory(data.history);
      var claimed := ClaimedToday(data.lastClaimedDate, nowMs, offsetMs);
      streakData := Some(StreakData(data.streakDays, safeHistory, data.lastClaimedDate));
      points := |safeHistory| * PointsPerClaim;
      isClaimedToday := claimed;
      loading := false;
    }

    /** Applies the reply of the remote claim procedure. Status "success"
        stores the returned streak and history, stamps now as the last claim
        date and sets points to 5 per entry; any other status reports
        "Already claimed today" and leaves `loading` set; a missing user or
        an error sets `error` and changes no streak field. */
    method ClaimDailyStreak(user: Option<UserId>, reply: ClaimReply, nowMs: int) returns (success: bool, message: string)
      modifies this`streakData, this`points, this`isClaimedToday, this`loading, this`error
      ensures success <==> user.Some? && reply.RpcData? && reply.status == "success"
      ensures success ==>
        message == "Successfully claimed daily points!"
        && streakData == Some(StreakData(reply.streakDays, SafeHistory(reply.history), Some(nowMs)))
        && points == PointsPerClaim * |SafeHistory(reply.history)|
        && points == TotalPointsFromStreaks()
        && isClaimedToday && !loading && error == None
      ensures !success ==>
        streakData == old(streakData) && points == old(points) && isClaimedToday == old(isClaimedToday)
      ensures user.None? ==>
        message == "User not authenticated" && error == Some(message) && !loading
      ensures user.Some? && reply.RpcFailed? ==>
        message == reply.message && error == Some(MessageOr(reply.message, "Failed to claim points")) && !loading
      ensures user.Some? && reply.RpcData? && reply.status != "success" ==>
        message == "Already claimed today" && error == None && loading
    {
      loading, error := true, None;
      if user.None? {
        error, loading := Some("User not authenticated"), false;
        return false, "User not authenticated";
      }
      if reply.RpcFailed? {
        error, loading := Some(MessageOr(reply.message, "Failed to claim points")), false;
        return false, reply.message;
      }
      if reply.status == "success" {
        var safeHistory := SafeHistory(reply.history);
        streakData := Some(StreakData(reply.streakDays, safeHistory, Some(nowMs)));
        points := |safeHistory| * PointsPerClaim;
        isClaimedToday := true;
        loading := false;
        return true, "Successfully claimed daily points!";
      }
      return false, "Already claimed today";
    }

    method UpdatePoints(newPoints: int)
      modifies this`points
      ensures points == newPoints
    {
      points := newPoints;
    }

    method SetReferralPoints(p: int)
      modifies this`referralPoints
      ensures referralPoints == p
    {
      referralPoints := p;
    }

    method SetLoading(b: bool)
      modifies this`loading
      ensures loading == b
    {
      loading := b;
    }

    method SetError(e: Option<string>)
      modifies this`error
      ensures error == e
    {
      error := e;
    }

    /** Restores every field to its initial value. */
    method Reset()
      modifies this
      ensures IsInitial()
    {
      streakData, points, referralPoints := None, 0, 0;
      isClaimedToday, loading, error := false, false, None;
    }

    /** Number of history entries, 0 without streak data. */
    function StreakHistoryLength(): (n: nat)
      reads this
      ensures streakData.None? ==> n == 0
      ensures streakData.Some? ==> n == |streakData.value.history|
    {
      if streakData.Some? then |streakData.value.history| else 0
    }

    /** Streak points are always 5 per history entry. */
    function TotalPointsFromStreaks(): (p: int)
      reads this
      ensures p == PointsPerClaim * StreakHistoryLength()
      ensures p >= 0
    {
      if streakData.Some? then |streakData.value.history| * PointsPerClaim else 0
    }

    /** Weekday indices (Sunday = 0) of the history entries. */
    function GetClaimedDays(): (r: seq<int>)
      reads this
      ensures streakData.Some? ==> r == ClaimedDays(streakData.value.history)
      ensures streakData.None? ==> r == []
      ensures |r| <= StreakHistoryLength()
      ensures forall k :: 0 <= k < |r| ==> 0 <= r[k] < 7
    {
      if streakData.Some? then ClaimedDays(streakData.value.history) else []
    }
  }
}
