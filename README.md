# Flowva rewards client: a Dafny model

This project models the client-side core of the Flowva rewards web app. The app
is a Next.js client over a hosted backend. The model covers four parts:

- **The daily-streak store** (`RewardsStore`). It turns the user's streak row into
  points (5 per history entry) and a "claimed today" flag. It applies the reply of
  the remote claim procedure. It maps history entries to claimed weekdays.
- **The notification list** (`NotificationsStore`, `NotificationsLib`,
  `NotificationsView`). This covers newest-first ordering, unread counting,
  marking one or all entries read, deleting one or all, the first-20 window, id
  allocation (max + 1) with prepend, the time-ago labels and the panel's buttons.
- **Referral attribution** (`ReferralStorage`, `Remote`, `AuthUtils`,
  `AuthCallback`). A pending code is kept in browser storage under two keys: the
  pending entry and the processed flag. It is attributed to a signed-in user by
  writing `referred_by` in the user's row of the backend table. `ReferralStep` and
  `CallbackStep` specify one run of the helper and one run of the sign-in
  callback. The methods `ProcessUserReferral` and
  `ProcessReferralAndCreateNotifications` perform those runs on a `LocalStorage`
  object and a `Backend` object.
- **Small component derivations** (`ReferCard`, `RedeemRewards`, `StreakCard`,
  `PasswordRules`, `SignUpPage`, `ResetPasswordPage`). These are the referral
  link, display name and points, the reward filter and tab counts, the week row
  and the claim button, and the password-form checks with their call order.

Remote reads and writes are not performed. A read is an input of the operation
that performs it: `Found(row)`, `NotFound` (the backend's code PGRST116) or
`Failed(message)`. A write changes `Backend.rows`, the attribution columns of the
`notificationsandreferral` table keyed by user id. Every remote call is appended
to `Backend.calls`, so contracts can state call order. The signed-in user, the
current time (milliseconds), the local UTC offset and the weekday are also
parameters.

Two points where the code differs from the written design; the model follows the
code:

- The design says `referred_by` is set at most once, and a second attribution
  with another code is a no-op. The code updates the row unconditionally, so a
  later run overwrites the referrer (`AuthUtils.LaterRunOverwrites`).
- The design describes a processed marker that makes attribution idempotent.
  `processUserReferral` never reads that marker. On success it *removes* the
  processed flag, although its comment says "mark as processed"
  (`AuthUtils.ReferralStep`). Only the sign-in callback sets the flag
  (`AuthCallback.CallbackMarksWhatHelperClears`).

## Model

| member | source | states |
|---|---|---|
| RewardsStore.SameDayIsWithinADay | stores/rewardsStore.ts:83-86 | a last claim on today's calendar day lies less than 24 hours from now |
| RewardsStore.CalendarDayNotWindow | stores/rewardsStore.ts:83-86 | "claimed today" compares calendar days, not a 24-hour window: a claim at the first millisecond of today counts, and one a millisecond earlier does not |
| RewardsStore.IndexOf | stores/rewardsStore.ts:179 | `indexOf` gives the first position holding the name, or -1 exactly when the name is absent |
| RewardsStore.DayIndex | stores/rewardsStore.ts:167-179 | a weekday name maps to its index 0..6 in Sunday..Saturday; any other name maps to -1 |
| RewardsStore.ClaimedDays | stores/rewardsStore.ts:177-179 | the claimed days are all in 0..6, and there are no more of them than history entries |
| RewardsStore.ClaimedDaysAppend | stores/rewardsStore.ts:179 | the claimed days follow history order: the days of a concatenation are the days of each part, in order |
| RewardsStore.ClaimedDaysMembership | stores/rewardsStore.ts:179 | a day index is listed iff some history entry names that weekday |
| RewardsStore.Store.constructor | stores/rewardsStore.ts:41-51 | the store starts with every field at its initial value |
| RewardsStore.Store.FetchStreakData | stores/rewardsStore.ts:53-100 | a row, or the empty streak for PGRST116, is stored with a non-array history replaced by []; points are 5 per entry; "claimed today" holds iff the last claim is on today's calendar day; without a user or on another error only `error` and `loading` change |
| RewardsStore.Store.ClaimDailyStreak | stores/rewardsStore.ts:102-148 | succeeds iff there is a user and the reply has status "success", and then stores the returned streak stamped now, points = 5 × history length and claimed today; any other status returns "Already claimed today", leaves the streak fields alone and leaves `loading` set; a missing user or an error sets `error` |
| RewardsStore.Store.UpdatePoints | stores/rewardsStore.ts:150 | sets the streak points |
| RewardsStore.Store.SetReferralPoints | stores/rewardsStore.ts:152 | sets the referral points |
| RewardsStore.Store.SetLoading | stores/rewardsStore.ts:154 | sets the loading flag |
| RewardsStore.Store.SetError | stores/rewardsStore.ts:156 | sets the error |
| RewardsStore.Store.Reset | stores/rewardsStore.ts:158 | restores every field to its initial value |
| RewardsStore.Store.StreakHistoryLength | stores/rewardsStore.ts:182-185 | the number of history entries, 0 without streak data |
| RewardsStore.Store.TotalPointsFromStreaks | stores/rewardsStore.ts:160-163 | streak points are always 5 × the history length, never negative |
| RewardsStore.Store.GetClaimedDays | stores/rewardsStore.ts:165-180 | `ClaimedDays` of the stored history (so, by its lemmas, the weekdays named by the entries, in history order, unknown names dropped), or [] without streak data; indices in 0..6, at most one per entry |
| NotificationsStore.CountUnread | stores/notificationsStore.ts:75 | the unread count is at most the length, and 0 iff every entry is read |
| NotificationsStore.CountUnreadAppend | stores/notificationsStore.ts:75 | the unread count of a concatenation is the sum of the parts' counts |
| NotificationsStore.MarkRead | stores/notificationsStore.ts:97-101 | exactly the entries with the id become read; every other entry, the length and the order are unchanged |
| NotificationsStore.MarkReadIdempotent | stores/notificationsStore.ts:97-101 | marking the same id twice equals marking it once |
| NotificationsStore.MarkReadCount | stores/notificationsStore.ts:97-103 | marking never raises the unread count; it lowers it by exactly the unread entries with the id, so strictly when there is one |
| NotificationsStore.MarkAllRead | stores/notificationsStore.ts:151-154 | every entry becomes read with nothing else changed; the unread count is 0 |
| NotificationsStore.CountWithId | lib/notifications.ts:94-96 | how many entries carry the id: zero exactly when none does |
| NotificationsStore.RemoveId | lib/notifications.ts:94-96 | the result holds no entry with the id, holds every entry of the input without it, and is shorter than the input by exactly the number of entries with the id, so no other entry (duplicates included) is dropped |
| NotificationsStore.RemoveIdUnique | lib/notifications.ts:94-96 | the filter is determined by its properties: an id-free subsequence of the input that is as long as the input minus the entries with the id is the filter's result |
| NotificationsStore.SubsequenceBound | lib/notifications.ts:94-96 | no id-free subsequence of the input is longer than the input minus its entries with the id |
| NotificationsStore.RemoveIdKeepsOrder | lib/notifications.ts:94-96 | the remaining entries keep their order (the result is a subsequence) |
| NotificationsStore.RemoveIdAbsentAndIdempotent | lib/notifications.ts:94-96 | removing an absent id changes nothing; removing twice equals removing once |
| NotificationsStore.SortNewestFirst | stores/notificationsStore.ts:69-72 | the sorted list is a permutation of the input, newest first |
| NotificationsStore.SortKeepsSortedList | stores/notificationsStore.ts:69-72 | a list already newest first comes back unchanged |
| NotificationsStore.SortKeepsUnread | stores/notificationsStore.ts:69-75 | sorting keeps the unread count |
| NotificationsStore.Visible | stores/notificationsStore.ts:223 | the first min(20, n) entries, a prefix of the list, empty iff the list is |
| NotificationsStore.Store.constructor | stores/notificationsStore.ts:33-38 | the store starts empty, with a consistent unread count |
| NotificationsStore.Store.FetchNotifications | stores/notificationsStore.ts:40-86 | the stored list is the fetched array sorted newest first, a permutation of it, with the unread count of the array; without a user or on an error the list is empty with count 0; loading ends false |
| NotificationsStore.Store.MarkAsRead | stores/notificationsStore.ts:88-140 | without a user nothing changes; otherwise the list is `MarkRead` of the old list, the count follows and never rises, and the stored array is rewritten the same way when it could be read; the error path performs no rollback |
| NotificationsStore.Store.MarkAllAsRead | stores/notificationsStore.ts:142-185 | without a user nothing changes; otherwise every entry is read, the count is 0 and the stored array is rewritten all read |
| NotificationsStore.Store.DeleteAllNotifications | stores/notificationsStore.ts:187-211 | without a user nothing changes; otherwise the list is empty, count 0, no selection, no warning, and the stored array is [] |
| NotificationsStore.Store.SetSelectedNotification | stores/notificationsStore.ts:213-215 | sets the selection |
| NotificationsStore.Store.SetShowDeleteWarning | stores/notificationsStore.ts:217-219 | sets the warning flag |
| NotificationsStore.Store.GetVisibleNotifications | stores/notificationsStore.ts:221-224 | a prefix of the list, 20 entries long or the whole list |
| NotificationsLib.MaxId | lib/notifications.ts:47 | the maximum id: no entry exceeds it and some entry carries it |
| NotificationsLib.NextId | lib/notifications.ts:43-48 | 1 for an empty list; otherwise one more than an existing id and above every id |
| NotificationsLib.Prepend | lib/notifications.ts:50-57 | the new entry comes first with the next id, the time of insertion and every field the caller passed (title, message, full message, type, read flag); the old entries follow unchanged and in order; its id is new |
| NotificationsLib.PrependKeepsIdsUnique | lib/notifications.ts:43-57 | a list with distinct ids keeps distinct ids after an insertion |
| NotificationsLib.AddNotification | lib/notifications.ts:26-75 | a failed read writes nothing and returns false; otherwise exactly `Prepend` of the stored array (or of [] when none is stored) is written, and the result says whether the update succeeded |
| NotificationsLib.DeleteNotification | lib/notifications.ts:77-113 | a failed read writes nothing and returns false; otherwise exactly `RemoveId` of the stored array is written: no entry with the id, the others kept in order, and only the entries with the id missing |
| NotificationsLib.FetchUserNotifications | lib/notifications.ts:4-24 | the stored array, or [] on an error or a missing array |
| NotificationsLib.GetUserReferralCode | lib/notifications.ts:115-135 | the stored code, or null on an error |
| ReferralStorage.LocalStorage.SaveReferralCode | lib/referral.ts:11-23 | stores `{code, timestamp, source}` with source "url" by default, returns it, reads back unchanged, and clears the processed flag |
| ReferralStorage.LocalStorage.GetStoredReferral | lib/referral.ts:26-29 | the pending referral exactly when one is stored |
| ReferralStorage.LocalStorage.IsReferralProcessed | lib/referral.ts:32-34 | true iff the flag holds exactly "true" |
| ReferralStorage.LocalStorage.MarkReferralProcessed | lib/referral.ts:37-40 | afterwards the flag is set and no referral is pending, whatever the state before (so it is idempotent) |
| ReferralStorage.LocalStorage.ClearReferralData | lib/referral.ts:43-46 | afterwards both keys are absent, whatever the state before (so it is idempotent) |
| Remote.Attribute | lib/auth/auth-utils.ts:71-77 | the update by user id sets only that user's `referred_by` and `referral_source`; other rows and the set of users are unchanged |
| Remote.CreateRow | lib/auth/auth-utils.ts:20-36 | a successful creation adds an unattributed row for a user who had none; a failed one adds nothing; existing rows are untouched, so no self-referral appears |
| Remote.CreateRowKeepsCounts | lib/auth/auth-utils.ts:20-36 | creating a record changes nobody's referral count |
| Remote.AttributeCounts | lib/auth/auth-utils.ts:71-77 | an attribution moves exactly one user between referral counts: the new referrer gains one unless it already had the user, and a different previous referrer loses one |
| AuthUtils.SourceOf | lib/auth/auth-utils.ts:75 | the stored source, or "direct_link" when it is empty |
| AuthUtils.ReferralStep | lib/auth/auth-utils.ts:39-94 | returns true iff a code is pending, it resolves to another user and the update succeeds. With nothing pending nothing happens. The lookup always comes first, and the update is attempted only for a valid referrer. An unknown code or a self-referral discards the pending entry. A failed update keeps everything. Success attributes the user and removes both keys. No path records a self-referral |
| AuthUtils.StoreReferralCode | lib/auth/auth-utils.ts:9-17 | the pending entry becomes `{code, now, "direct_link"}`; the processed flag is untouched |
| AuthUtils.CreateUserNotifications | lib/auth/auth-utils.ts:20-36 | exactly one call to the creating procedure, whose outcome (`CreateRow`) gives a user without a row an unattributed one and changes no existing row |
| AuthUtils.ProcessUserReferral | lib/auth/auth-utils.ts:39-94 | performs `ReferralStep`: same result, storage, rows and calls |
| AuthUtils.EnsureUserHasNotifications | lib/auth/auth-utils.ts:97-116 | looks the record up, creates it only when no row exists (PGRST116), then always runs the referral step against the rows as they are after the creation |
| AuthUtils.FirstAttributionCounts | lib/auth/auth-utils.ts:71-89 | a successful first attribution raises the referrer's count by one and leaves every other count unchanged |
| AuthUtils.NewUserReferralLands | lib/auth/auth-utils.ts:20-94 | for a user without a row, creating the record and then processing a pending valid code from another user records that user as the referrer, raises the referrer's count by one and leaves every other count unchanged |
| AuthUtils.MissingRowCreditsNobody | lib/auth/auth-utils.ts:71-89 | the update by user id matches no row when the user has none: the step reports success but the ledger is unchanged |
| AuthUtils.LaterRunOverwrites | lib/auth/auth-utils.ts:71-77 | a later run with another valid code overwrites `referred_by`: the first referrer loses the user and the second gains it |
| AuthCallback.CallbackStep | app/auth/callback/page.tsx:18-64 | the record is created first. A processed flag or no pending entry stops there. An unknown code or a self-referral discards the pending entry. Otherwise the helper's attribution applies and the end state is flag "true" with nothing pending, whatever the helper returned; its calls are the creation, the lookup, then the helper's own calls. The ledger changes only through the creation and a successful attribution, and never to a self-referral |
| AuthCallback.ProcessReferralAndCreateNotifications | app/auth/callback/page.tsx:18-64 | performs `CallbackStep` on the storage and the backend |
| AuthCallback.CallbackRerunChangesNothing | app/auth/callback/page.tsx:23-60 | a second callback run, whatever the backend answers, changes neither the storage nor any existing row; at most its creation adds the user's row |
| AuthCallback.CallbackCreditsNewUser | app/auth/callback/page.tsx:18-64 | for a new user with a pending code from another user, the callback's run records that user as the referrer and raises the referrer's count by one |
| AuthCallback.CallbackMarksWhatHelperClears | app/auth/callback/page.tsx:56-60 | on success the helper leaves the flag unset but the callback leaves it set, with the same attribution |
| NotificationsView.ElapsedSeconds | components/Notifications.tsx:17 | whole seconds since creation, rounded down |
| NotificationsView.FormatTimeAgo | components/Notifications.tsx:14-25 | under 60 s (including the future) "Just now"; minutes 1..59, hours 1..23 and days 1..6 in their ranges, each the floor of the elapsed time; a week or more gives the date |
| NotificationsView.TimeAgoMonotone | components/Notifications.tsx:14-25 | as time passes the label never moves to a finer unit, and within a unit its number never decreases |
| NotificationsView.NotificationIcon | components/Notifications.tsx:28-39 | the flame iff streak, the smile iff welcome, the trophy iff achievement, and the default info icon iff info or referral |
| NotificationsView.IconBgColor | components/Notifications.tsx:42-60 | the shared classes plus a colour pair; a read entry is always gray |
| NotificationsView.IconBgColorClasses | components/Notifications.tsx:42-60 | two icons get the same classes iff both are read, or both are unread and draw the same icon |
| NotificationsView.PopupBody | components/Notifications.tsx:418-419 | the popup shows the full message when it is non-empty, else the message |
| NotificationsView.RemoveIdCount | components/Notifications.tsx:92-99 | the unread count after a delete is the old count minus the unread entries with the id |
| NotificationsView.NotificationCard.ShowsSkeleton | components/Notifications.tsx:199 | the skeleton is shown exactly while the store is loading and its list is empty |
| NotificationsView.NotificationCard.MarkAllDisabled | components/Notifications.tsx:237 | "Mark all as read" is disabled iff every entry is read |
| NotificationsView.NotificationCard.DeleteAllDisabled | components/Notifications.tsx:246 | "Delete All" is disabled iff the list is empty |
| NotificationsView.NotificationCard.HandleDeleteNotification | components/Notifications.tsx:83-127 | without a user nothing changes; otherwise the entries with the id leave the list, the count drops by their unread ones, the stored array is rewritten without them and the menu closes |
| NotificationsView.NotificationCard.HandleNotificationClick | components/Notifications.tsx:169-175 | an unread entry is marked read, a read one is not; the entry is always selected and the menu closed |
| NotificationsView.NotificationCard.HandleMarkAllAsRead | components/Notifications.tsx:177-180 | marks all read and closes the menu |
| NotificationsView.NotificationCard.HandleDeleteAll | components/Notifications.tsx:182-185 | only opens the confirmation and closes the menu |
| NotificationsView.NotificationCard.ConfirmDeleteAll | components/Notifications.tsx:187-190 | the confirmation closes; with a user the list is emptied and the selection cleared; without one the list, the count and the selection stay |
| NotificationsView.NotificationCard.CancelDeleteAll | components/Notifications.tsx:192-194 | closes the confirmation |
| ReferCard.EmailPrefix | components/Rewards/ReferCard.tsx:40 | the text before the first '@': a prefix of the email without '@', followed by '@' unless it is the whole email |
| ReferCard.DisplayName | components/Rewards/ReferCard.tsx:38-47 | with an email: the full name, else the name, else the email prefix, else "User"; without one "User"; never empty |
| ReferCard.FallbackCode | components/Rewards/ReferCard.tsx:68-70 | with an email, its `EmailPrefix`: a prefix of the address without '@' that stops at the first '@' (or is the whole address); without one, "user123" |
| ReferCard.Link | components/Rewards/ReferCard.tsx:73 | the sign-up address and "?ref=" followed by the code exactly as it is, without URL encoding |
| ReferCard.ReferralPoints | components/Rewards/ReferCard.tsx:114 | 25 points per referred user |
| ReferCard.AttributionEarns | components/Rewards/ReferCard.tsx:107-118 | a successful first attribution adds 25 to the referrer's points and changes nobody else's |
| ReferCard.ReferCard.constructor | components/Rewards/ReferCard.tsx:12-19 | the card starts loading with empty values |
| ReferCard.ReferCard.FetchUserData | components/Rewards/ReferCard.tsx:22-131 | guest values without a user or on an exception, with the counts and the store's referral points untouched; the display name for a user; a stored code gives the code, the link and statistics from the ledger (25 points each, copied to the rewards store) unless the statistics query fails; a row without a code changes nothing but the name; a read error calls the creating procedure (whose outcome may add the user's row) and uses the fallback code or the re-read code, and never fetches statistics |
| ReferCard.ReferCard.HandleCopy | components/Rewards/ReferCard.tsx:138-144 | the link is copied and "copied" shown, unless the link is empty |
| RedeemRewards.WithStat | components/Rewards/RedeemRewards.tsx:97-101 | exactly the entries with the status, in catalogue order |
| RedeemRewards.WithStatMultiset | components/Rewards/RedeemRewards.tsx:97-101 | every copy of an entry with the status is kept and no copy of any other, so equal entries are never merged |
| RedeemRewards.FilteredRewards | components/Rewards/RedeemRewards.tsx:83-89 | a status tab shows exactly the entries with that status; "All Rewards" and any other label show the whole catalogue; always an order-preserving subsequence |
| RedeemRewards.FilteredRewardsMultiset | components/Rewards/RedeemRewards.tsx:83-89 | on a status tab each matching entry appears as often as in the catalogue, and no other entry appears |
| RedeemRewards.TabCount | components/Rewards/RedeemRewards.tsx:93-102 | the catalogue size for "All Rewards", the length of the tab's filtered list for a status tab, 0 otherwise |
| RedeemRewards.UpdatedTabs | components/Rewards/RedeemRewards.tsx:92-104 | every tab keeps its label and gets its count from the catalogue |
| RedeemRewards.CatalogueTabs | components/Rewards/RedeemRewards.tsx:92-104 | for the shipped catalogue the tabs read 8, 1, 6, 1, replacing the written-in 0 and 7 |
| RedeemRewards.StatusCountsSum | components/Rewards/RedeemRewards.tsx:92-104 | when every status is one of the three, the status counts add up to the "All Rewards" count |
| RedeemRewards.CardEnabled | components/Rewards/RedeemRewards.tsx:186-203 | a card's button is enabled exactly for an unlocked reward, never for a locked or coming-soon one; in the catalogue only the PayPal reward |
| StreakCard.TodayIndex | app/components/Rewards/StreakCard.tsx:26 | `(getDay() + 6) % 7` is in 0..6 and is the Monday-based index of today |
| StreakCard.AsWrittenAgreesOnWeekdays | app/components/Rewards/StreakCard.tsx:189 | Monday to Saturday, the written highlight test picks today's circle and no other |
| StreakCard.AsWrittenMissesSunday | app/components/Rewards/StreakCard.tsx:189 | on Sunday the written test highlights no circle, where today's circle is circle 0 |
| StreakCard.WeekRow | app/components/Rewards/StreakCard.tsx:188-190 | seven circles with the day letters; today's circle highlighted; a circle filled iff its index is a claimed day |
| StreakCard.FilledCirclesFollowHistory | app/components/Rewards/StreakCard.tsx:190 | a circle is filled iff some history entry names its weekday |
| StreakCard.StreakDays | app/components/Rewards/StreakCard.tsx:30 | the streak length, 0 without data |
| StreakCard.DaySuffix | app/components/Rewards/StreakCard.tsx:182 | "" for exactly one day, "s" for any other count |
| StreakCard.GetButtonConfig | app/components/Rewards/StreakCard.tsx:103-134 | disabled iff claimed today or claiming; "Claimed" when claimed whatever `claiming` is; "Claiming..." without an icon while claiming; otherwise the enabled "Claim Today's Points" |
| StreakCard.StreakCardView.constructor | app/components/Rewards/StreakCard.tsx:22-23 | no claim running and no popup |
| StreakCard.StreakCardView.Row | app/components/Rewards/StreakCard.tsx:187-190 | the store's claimed days laid out by `WeekRow`: seven circles, each with its weekday letter, highlighted iff it is today, filled iff the store lists the day as claimed |
| StreakCard.StreakCardView.HandleClaimPoints | app/components/Rewards/StreakCard.tsx:80-97 | when today is already claimed nothing happens; otherwise the store's claim runs and `claiming` ends false; a successful claim stores the returned streak stamped now with 5 points per entry, marks today claimed and schedules the popup; a failed one leaves the streak, the points and the claimed flag as they were and schedules nothing new; the store's error and `loading` follow its claim: "User not authenticated" or the failure message (with its fallback) with `loading` cleared, no error on a reply, and `loading` left set when the reply's status is not "success" |
| PasswordRules.PasswordError | app/signup/page.tsx:50-62 | no error iff the entries match and are at least 6 long; a mismatch gives the mismatch message; a short matching pair gives the length message |
| PasswordRules.MismatchReportedFirst | app/signup/page.tsx:50-62 | a short, mismatched pair reports the mismatch, never the length |
| SignUpPage.Metadata | app/signup/page.tsx:66-69 | the referral code goes into the metadata iff a non-empty `ref` is present |
| Oracle.TextBefore | components/Rewards/ReferCard.tsx:68-70 | `split(c)[0]`: the longest prefix without `c`, followed by `c` unless it is the whole text |
| Oracle.TextAfter | app/signup/page.tsx:29 | the text after the first `c`, present iff the text holds a `c`; the text is the part before it, `c`, then the rest |
| Oracle.TextSplitAt | app/signup/page.tsx:29 | a text without `c`, then `c`, then a rest splits at that `c` into exactly those parts |
| SignUpPage.QueryOf | app/signup/page.tsx:29 | the query of the page address: after the first '?', before any '#'; present iff the address holds a '?' before any '#' |
| SignUpPage.RefParam | app/signup/page.tsx:29 | `searchParams.get("ref")` on a query: a query that starts with "ref=" gives its first pair's value, up to the first '&', with '+' read as a space |
| SignUpPage.ReadRef | app/signup/page.tsx:29 | none without a query, otherwise `RefParam` of it |
| SignUpPage.LinkQuery | components/Rewards/ReferCard.tsx:73 | the query of a referral link is "ref=" and the code, for a code without '#' |
| SignUpPage.LinkReadsBack | app/signup/page.tsx:29 | opening a referral link gives back its code with each '+' read as a space, for a code without '&' or '#' |
| SignUpPage.LinkRoundTrip | components/Rewards/ReferCard.tsx:73 | a code without '+', '%', '&' or '#' comes back from its link unchanged |
| SignUpPage.FallbackKeepsPlus | components/Rewards/ReferCard.tsx:68-70 | the fallback code of "a+b@x.com" is "a+b" |
| SignUpPage.PlusReadsAsSpace | components/Rewards/ReferCard.tsx:73 | the link built from "a+b" is read back as "a b" |
| SignUpPage.SignUpForm.constructor | app/signup/page.tsx:18-24 | the form starts empty and idle |
| SignUpPage.SignUpForm.StoreRefParameter | app/signup/page.tsx:28-36 | a non-empty `ref` read from the page address (`ReadRef`) is stored as the pending referral; otherwise nothing is stored |
| SignUpPage.SignUpForm.FinishNewUser | app/signup/page.tsx:88-110 | the new-user part of the sign-up: creation, then the referral step against the created row, then the sign-in call; a failed sign-in shows "check your email", a successful one redirects |
| SignUpPage.SignUpForm.HandleSignUp | app/signup/page.tsx:44-116 | a failed check is reported with no remote call. Otherwise sign-up goes first, and an error, no user or an empty identities list stop there with their message. For a new user the record is created (`CreateRow`), then the referral processed against the created row, then the automatic sign-in tried: it redirects, or on failure shows "check your email". `loading` is false on every exit |
| ResetPasswordPage.ResetPasswordForm.constructor | app/auth/reset-password/page.tsx:10-14 | the form starts empty and idle |
| ResetPasswordPage.ResetPasswordForm.HandleResetPassword | app/auth/reset-password/page.tsx:33-70 | a failed check is reported with no call; otherwise success (and the redirect) only when the update returns no error, else its message or "Failed to reset password"; `loading` is false on every exit |

## Left out

- Remote procedures whose bodies are not part of this model: `claim_daily_streak` and `create_user_notifications_and_referral`. The claim's reply is an input.
- Remote.CreateRow: the creating procedure's outcome is an input (`Some(code)` when it created the user's row, `None` when it failed). A created row has no referrer. A user who already has a row keeps it unchanged, which is an assumption about a procedure whose body is not part of this model. How it generates the referral code and the welcome notifications is not modelled.
- SignUpPage.RefParam: percent-decoding (`%XX`) is not modelled, so a `ref` value holding '%' is kept as written; the page address is the sign-up page itself, so only the query is parsed.
- SignUpPage.LinkRoundTrip: holds only for codes without '+', '%', '&' and '#'. The card builds the link without URL encoding (components/Rewards/ReferCard.tsx:73, 86, 103), so the page reads other codes back differently: a '+' becomes a space (`SignUpPage.PlusReadsAsSpace`, with the fallback code "a+b" of `SignUpPage.FallbackKeepsPlus`), and '&' or '#' cut the code short.
- NotificationsStore.SortNewestFirst: the relative order of entries with the same `created_at` is not stated; only that the result is a newest-first permutation.
- Sign-in and session handling: `checkUserSession`, `handleGoogleAuth`, the callback page's session handling and redirect timer, the sign-in and forgot-password pages. They are network-only flows.
- JSON encoding of the stored referral entry and of the notification array. Values are stored decoded, so `JSON.parse` failures (caught by the helpers' `try`) are not modelled.
- Dates are millisecond integers. The calendar day uses a fixed local offset, so daylight-saving changes are not modelled. The locale date text is kept abstract as the timestamp it formats. ISO strings are not parsed.
- The timers are flags: the 500 ms congratulations popup, the 3 s redirect after a password reset and the 2 s reset of "copied".
- Concurrency is not modelled. This includes the read-modify-write races on the stored notification array and the ledger, the realtime subscriptions and polling.
- Rendering, CSS other than the read/unread icon colours, icons, confetti, routing and the share URLs (`encodeURIComponent`, `window.open`) are not modelled.
- `handleSocialShare` is not modelled. It opens a share URL only when the link is non-empty, the same guard `ReferCard.ReferCard.HandleCopy` states.
- NotificationsView.NotificationCard.HandleDeleteNotification: the exception path, which re-fetches the list, is not modelled.
- StreakCard.StreakCardView.HandleClaimPoints: that `claiming` is true while the claim is awaited is not stated, because the model has no intermediate states. Only its final value is stated.
- PasswordRules.PasswordError: length counts Unicode scalar values, while JavaScript counts UTF-16 code units, so the two differ for characters outside the basic plane.
- RewardsStore.Store.FetchStreakData: the history entries' own fields are not checked. Only whether the history is an array is modelled.
- The notification `metadata` map is not modelled, and neither are the optional fields other than `full_message`.

## Findings

| source | as written | input that shows it | evidently intended | confidence | as-written member | corrected member |
|---|---|---|---|---|---|---|
| app/components/Rewards/StreakCard.tsx:189 | circle `i` is highlighted iff `i === todayIndex + 1`, with `todayIndex = (getDay() + 6) % 7` | a Sunday (`getDay()` = 0): `todayIndex` is 6, so the test asks for circle 7 and none of the seven circles is highlighted | the row starts on Sunday, so circle `i` is highlighted iff `i == getDay()` | not executed | StreakCard.AsWrittenMissesSunday | StreakCard.WeekRow |
