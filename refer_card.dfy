/** The "Refer & Earn" card: the display name, the referral code and link,
    and the referral statistics. `fetchUserData` is `ReferCard.FetchUserData`;
    every remote answer it depends on is a parameter, except the statistics
    query, which counts the ledger rows naming the user as referrer. */
module ReferCard {
  import opened Oracle
  import opened Remote
  import opened AuthUtils
  import ReferralStorage
  import RewardsStore

  const SignUpPageAddress := "https://app.flowvahub.com/signup"
  const LinkPrefix := SignUpPageAddress + "?ref="
  const GuestName := "Guest"
  const GuestCode := "guest3825"
  const DefaultName := "User"
  const FallbackNoEmail := "user123"
  const PointsPerReferral := 25
  const LoadError := "Failed to load referral data"

  /** The signed-in user as the card reads it. */
  datatype User = User(id: UserId, email: Option<string>, fullName: Option<string>, name: Option<string>)

  /** How the fallback `create_user_notifications_and_referral` call ended;
      on success, `code` is the code of the row it created, if it created one. */
  datatype CreateOutcome = Created(code: Option<string>) | CreateFailed | CreateThrew

  /** `email.split("@")[0]`: everything before the first '@'. */
  function EmailPrefix(email: string): (r: string)
    ensures r <= email
    ensures '@' !in r
    ensures |r| < |email| ==> email[|r|] == '@'
  {
    TextBefore(email, '@')
  }

  /** The displayed name: with an email, the first non-empty of the full
      name, the name and the email prefix, else "User"; without one, "User". */
  function DisplayName(u: User): (r: string)
    ensures r != ""
    ensures !Truthy(u.email) ==> r == DefaultName
    ensures Truthy(u.email) && Truthy(u.fullName) ==> r == u.fullName.value
    ensures Truthy(u.email) && !Truthy(u.fullName) && Truthy(u.name) ==> r == u.name.value
    ensures Truthy(u.email) && !Truthy(u.fullName) && !Truthy(u.name) ==>
      r == (if EmailPrefix(u.email.value) != "" then EmailPrefix(u.email.value) else DefaultName)
  {
    if !Truthy(u.email) then DefaultName
    else if Truthy(u.fullName) then u.fullName.value
    else if Truthy(u.name) then u.name.value
    else if EmailPrefix(u.email.value) != "" then EmailPrefix(u.email.value)
    else DefaultName
  }

  /** The code used when the record cannot be created: the email's text
      before its first '@', or "user123" without an email. */
  function FallbackCode(email: Option<string>): (r: string)
    ensures Truthy(email) ==> r == EmailPrefix(email.value)
    ensures Truthy(email) ==> r <= email.value && '@' !in r
    ensures Truthy(email) && |r| < |email.value| ==> email.value[|r|] == '@'
    ensures !Truthy(email) ==> r == FallbackNoEmail
  {
    if Truthy(email) then EmailPrefix(email.value) else FallbackNoEmail
  }

  /** The sign-up link carrying a code, pasted in without URL encoding. */
  function Link(code: string): (r: string)
    ensures LinkPrefix <= r && r[|LinkPrefix|..] == code
  {
    LinkPrefix + code
  }

  /** Points earned for a number of referred users. */
  function ReferralPoints(count: nat): (p: nat)
    ensures p % PointsPerReferral == 0 && p / PointsPerReferral == count
  {
    PointsPerReferral * count
  }

  /** A first, successful attribution earns the referrer 25 more points on
      the card and changes nobody else's. */
  lemma AttributionEarns(st: ReferralStorage.Storage, rows: Ledger, userId: UserId, referrer: Lookup<UserId>, updateFails: bool)
    requires userId in rows && rows[userId].referredBy == None
    requires ReferralStep(st, rows, userId, referrer, updateFails).ok
    ensures var after := ReferralStep(st, rows, userId, referrer, updateFails).effect.rows;
      ReferralPoints(ReferralCount(after, referrer.value)) == ReferralPoints(ReferralCount(rows, referrer.value)) + PointsPerReferral
      && forall other :: other != referrer.value ==>
           ReferralPoints(ReferralCount(after, other)) == ReferralPoints(ReferralCount(rows, other))
  {
    FirstAttributionCounts(st, rows, userId, referrer, updateFails);
  }

  class ReferCard {
    const rewards: RewardsStore.Store
    const backend: Backend
    var copied: bool
    var referralCode: string
    var userName: string
    var referralLink: string
    var referralsCount: nat
    var pointsEarned: nat
    var loading: bool
    var error: string

    constructor (rewards: RewardsStore.Store, backend: Backend)
      ensures this.rewards == rewards && this.backend == backend
      ensures !copied && referralCode == "" && userName == "" && referralLink == ""
      ensures referralsCount == 0 && pointsEarned == 0 && loading && error == ""
    {
      this.rewards := rewards;
      this.backend := backend;
      copied, referralCode, userName, referralLink := false, "", "", "";
      referralsCount, pointsEarned, loading, error := 0, 0, true, "";
    }

    /** The guest values, shown without a user and after an unexpected error. */
    predicate ShowsGuest()
      reads this
    {
      userName == GuestName && referralCode == GuestCode && referralLink == Link(GuestCode)
    }

    /** `fetchUserData`. `threw` stands for an exception before anything is
        read; `row` is the user's record (its `referral_code`, which may be
        null); `create` and `refetched` are the fallback creation and the
        re-read after it; `statsFail` is an error of the statistics query. */
    method FetchUserData(user: Option<User>, threw: bool, row: Lookup<Option<string>>,
                         create: CreateOutcome, refetched: Option<string>, statsFail: bool)
      modifies this`referralCode, this`userName, this`referralLink, this`referralsCount,
               this`pointsEarned, this`loading, this`error, rewards`referralPoints, backend
      ensures !loading
      ensures threw ==>
        ShowsGuest() && error == LoadError
        && referralsCount == old(referralsCount) && pointsEarned == old(pointsEarned)
        && rewards.referralPoints == old(rewards.referralPoints)
      ensures !threw && user.None? ==>
        ShowsGuest() && error == old(error)
        && referralsCount == old(referralsCount) && pointsEarned == old(pointsEarned)
        && rewards.referralPoints == old(rewards.referralPoints)
      ensures !threw && user.Some? ==> userName == DisplayName(user.value) && error == old(error)
      // the record has a code: it is shown, and the statistics follow the ledger
      ensures !threw && user.Some? && row.Found? && Truthy(row.value) ==>
        referralCode == row.value.value && referralLink == Link(referralCode)
        && (statsFail ==> referralsCount == old(referralsCount) && pointsEarned == old(pointsEarned)
                          && rewards.referralPoints == old(rewards.referralPoints))
        && (!statsFail ==> referralsCount == ReferralCount(backend.rows, user.value.id)
                           && pointsEarned == ReferralPoints(referralsCount)
                           && rewards.referralPoints == pointsEarned)
      // the record exists without a code: nothing but the name changes
      ensures !threw && user.Some? && row.Found? && !Truthy(row.value) ==>
        referralCode == old(referralCode) && referralLink == old(referralLink)
        && referralsCount == old(referralsCount) && pointsEarned == old(pointsEarned)
        && rewards.referralPoints == old(rewards.referralPoints)
      // the record could not be read: the fallback path never fetches statistics
      ensures !threw && user.Some? && !row.Found? ==>
        referralsCount == old(referralsCount) && pointsEarned == old(pointsEarned)
        && rewards.referralPoints == old(rewards.referralPoints)
        && backend.calls == old(backend.calls) + [CreateRecords(user.value.id)]
        && backend.rows == CreateRow(old(backend.rows), user.value.id, if create.Created? then create.code else None)
        && (!create.Created? ==> referralCode == FallbackCode(user.value.email) && referralLink == Link(referralCode))
        && (create.Created? && Truthy(refetched) ==> referralCode == refetched.value && referralLink == Link(referralCode))
        && (create.Created? && !Truthy(refetched) ==> referralCode == old(referralCode) && referralLink == old(referralLink))
      ensures threw || user.None? || row.Found? ==> backend.calls == old(backend.calls) && backend.rows == old(backend.rows)
    {
      loading := true;
      if threw {
        error := LoadError;
        userName, referralCode, referralLink := GuestName, GuestCode, Link(GuestCode);
        loading := false;
        return;
      }
      if user.None? {
        userName, referralCode, referralLink := GuestName, GuestCode, Link(GuestCode);
        loading := false;
        return;
      }
      var u := user.value;
      userName := DisplayName(u);
      if !row.Found? {
        CreateUserNotifications(backend, u.id, if create.Created? then create.code else None);
        if !create.Created? {
          var code := FallbackCode(u.email);
          referralCode, referralLink := code, Link(code);
        } else if Truthy(refetched) {
          referralCode, referralLink := refetched.value, Link(refetched.value);
        }
      } else if Truthy(row.value) {
        referralCode, referralLink := row.value.value, Link(row.value.value);
      }
      if row.Found? && Truthy(row.value) && !statsFail {
        var count := ReferralCount(backend.rows, u.id);
        var earned := ReferralPoints(count);
        referralsCount, pointsEarned := count, earned;
        rewards.SetReferralPoints(earned);
      }
      loading := false;
    }

    /** `handleCopy`: the link goes to the clipboard and the "copied" state
        is shown, unless the link is empty. */
    method HandleCopy() returns (clipboard: Option<string>)
      modifies this`copied
      ensures referralLink == "" ==> clipboard == None && copied == old(copied)
      ensures referralLink != "" ==> clipboard == Some(referralLink) && copied
    {
      clipboard := None;
      if referralLink != "" {
        clipboard := Some(referralLink);
        copied := true;
      }
    }
  }
}
