/** The daily-streak card: the week row, the streak label and the claim
    button, over the rewards store. The weekday of "now" is a parameter
    (`getDay()`: Sunday = 0 .. Saturday = 6). */
module StreakCard {
  import opened Oracle
  import opened RewardsStore

  /** The letters of the week row, Sunday first. */
  const DayLetters: seq<string> := ["S", "M", "T", "W", "T", "F", "S"]

  /** `(getDay() + 6) % 7`: Monday = 0 .. Sunday = 6. */
  function TodayIndex(weekday: int): (t: int)
    requires 0 <= weekday < 7
    ensures 0 <= t < 7
    ensures (t + 1) % 7 == weekday
  {
    (weekday + 6) % 7
  }

  /** The highlight test as written: `i === todayIndex + 1`. */
  predicate IsTodayAsWritten(i: int, weekday: int)
    requires 0 <= weekday < 7
  {
    i == TodayIndex(weekday) + 1
  }

  /** The highlight the row evidently intends: the circle of today's
      weekday, since the row starts on Sunday as `getDay()` does. */
  predicate IsToday(i: int, weekday: int) {
    i == weekday
  }

  /** Monday to Saturday the written test highlights today's circle and no
      other. */
  lemma AsWrittenAgreesOnWeekdays(weekday: int)
    requires 1 <= weekday < 7
    ensures forall i :: 0 <= i < 7 ==> (IsTodayAsWritten(i, weekday) <==> IsToday(i, weekday))
  {
  }

  /** On Sunday the written test asks for circle 7, which the seven-circle
      row does not have, so no circle is highlighted, while the intended
      test highlights circle 0. */
  lemma AsWrittenMissesSunday()
    ensures forall i :: 0 <= i < |DayLetters| ==> !IsTodayAsWritten(i, 0)
    ensures IsToday(0, 0)
  {
  }

  /** One circle of the week row. */
  datatype Circle = Circle(letter: string, today: bool, claimed: bool)

  /** The week row: every day's letter, today's circle highlighted and the
      circles of claimed weekdays filled. */
  function WeekRow(weekday: int, claimedDays: seq<int>): (r: seq<Circle>)
    requires 0 <= weekday < 7
    ensures |r| == |DayLetters|
    ensures forall i :: 0 <= i < |r| ==>
      r[i].letter == DayLetters[i] && (r[i].today <==> i == weekday) && (r[i].claimed <==> i in claimedDays)
  {
    seq(|DayLetters|, i requires 0 <= i < |DayLetters| => Circle(DayLetters[i], IsToday(i, weekday), i in claimedDays))
  }

  /** A filled circle is a weekday named by some entry of the store's
      streak history. */
  lemma FilledCirclesFollowHistory(history: seq<HistoryItem>, weekday: int, i: int)
    requires 0 <= weekday < 7 && 0 <= i < 7
    ensures WeekRow(weekday, ClaimedDays(history))[i].claimed <==>
      exists j :: 0 <= j < |history| && DayIndex(history[j].dayInWeek) == i
  {
    ClaimedDaysMembership(history, i);
  }

  /** `streakData?.streak_days || 0`. */
  function StreakDays(data: Option<StreakData>): (n: int)
    ensures data.None? ==> n == 0
    ensures data.Some? ==> n == data.value.streakDays
  {
    if data.Some? then data.value.streakDays else 0
  }

  /** The plural ending of "day". */
  function DaySuffix(n: int): (s: string)
    ensures n == 1 ==> s == ""
    ensures n != 1 ==> s == "s"
  {
    if n != 1 then "s" else ""
  }

  /** What the claim button shows. The icon is reduced to whether there is
      one. */
  datatype ButtonConfig = ButtonConfig(text: string, bgColor: string, hoverColor: string, cursor: string,
                                       hasIcon: bool, disabled: bool)

  /** `getButtonConfig`. */
  function GetButtonConfig(isClaimedToday: bool, claiming: bool): (c: ButtonConfig)
    ensures c.disabled <==> isClaimedToday || claiming
    ensures isClaimedToday ==> c.text == "Claimed" && c.cursor == "cursor-not-allowed"
    ensures !isClaimedToday && claiming ==> c.text == "Claiming..." && !c.hasIcon
    ensures !c.disabled ==> c.text == "Claim Today's Points" && c.cursor == "cursor-pointer"
  {
    if isClaimedToday then
      ButtonConfig("Claimed", "bg-gray-300", "", "cursor-not-allowed", true, true)
    else if claiming then
      ButtonConfig("Claiming...", "bg-gray-400", "", "cursor-not-allowed", false, true)
    else
      ButtonConfig("Claim Today's Points", "bg-[#9900ff]", "hover:bg-[#9200e0]", "cursor-pointer", true, false)
  }

  class StreakCardView {
    const rewards: Store
    var claiming: bool
    var showCongratsPopup: bool
    /** The 500 ms timer that opens the congratulations popup. */
    var popupScheduled: bool

    constructor (rewards: Store)
      ensures this.rewards == rewards && !claiming && !showCongratsPopup && !popupScheduled
    {
      this.rewards := rewards;
      claiming, showCongratsPopup, popupScheduled := false, false, false;
    }

    /** The week row for the store's current history. */
    function Row(weekday: int): (r: seq<Circle>)
      requires 0 <= weekday < 7
      reads this, rewards
      ensures r == WeekRow(weekday, rewards.GetClaimedDays())
      ensures |r| == 7
      ensures forall i :: 0 <= i < 7 ==>
        r[i].letter == DayLetters[i] && (r[i].today <==> i == weekday)
        && (r[i].claimed <==> i in rewards.GetClaimedDays())
    {
      WeekRow(weekday, rewards.GetClaimedDays())
    }

    /** `handleClaimPoints`: nothing happens once today is claimed;
        otherwise the store's claim runs, `claiming` ends false, and the
        popup is scheduled exactly when the claim succeeded. */
    method HandleClaimPoints(user: Option<UserId>, reply: ClaimReply, nowMs: int)
      modifies this`claiming, this`popupScheduled,
               rewards`streakData, rewards`points, rewards`isClaimedToday, rewards`loading, rewards`error
      ensures old(rewards.isClaimedToday) ==>
        claiming == old(claiming) && popupScheduled == old(popupScheduled)
        && rewards.streakData == old(rewards.streakData) && rewards.points == old(rewards.points)
        && rewards.isClaimedToday && rewards.loading == old(rewards.loading) && rewards.error == old(rewards.error)
      ensures !old(rewards.isClaimedToday) ==>
        !claiming
        && (popupScheduled <==> old(popupScheduled) || (user.Some? && reply.RpcData? && reply.status == "success"))
        && (popupScheduled && !old(popupScheduled) ==> rewards.isClaimedToday && rewards.points == rewards.TotalPointsFromStreaks())
        // the store's claim decides the streak fields
        && (user.Some? && reply.RpcData? && reply.status == "success" ==>
              rewards.streakData == Some(StreakData(reply.streakDays, SafeHistory(reply.history), Some(nowMs)))
              && rewards.points == PointsPerClaim * |SafeHistory(reply.history)|
              && rewards.isClaimedToday)
        && (!(user.Some? && reply.RpcData? && reply.status == "success") ==>
              rewards.streakData == old(rewards.streakData) && rewards.points == old(rewards.points)
              && !rewards.isClaimedToday)
        // and the store's loading flag and error
        && (user.None? ==> rewards.error == Some("User not authenticated") && !rewards.loading)
        && (user.Some? && reply.RpcFailed? ==>
              rewards.error == Some(MessageOr(reply.message, "Failed to claim points")) && !rewards.loading)
        && (user.Some? && reply.RpcData? ==>
              rewards.error == None && (rewards.loading <==> reply.status != "success"))
    {
      if rewards.isClaimedToday {
        return;
      }
      claiming := true;
      var success, _ := rewards.ClaimDailyStreak(user, reply, nowMs);
      if success {
        popupScheduled := true;
      }
      claiming := false;
    }
  }
}
