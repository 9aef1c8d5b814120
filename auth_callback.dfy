/** The sign-in callback's `processReferralAndCreateNotifications`: create
    the user's record, then, unless the referral was already processed or
    none is stored, validate the stored code itself and hand over to
    `processUserReferral`, which looks the code up a second time.
    `CallbackStep` is the specification; `ProcessReferralAndCreateNotifications`
    performs it. `first` and `second` are the answers of the two lookups. */
module AuthCallback {
  import opened Oracle
  import opened ReferralStorage
  import opened Remote
  import opened AuthUtils

  /** One callback run, as a function of the storage, the ledger and the
      answers the backend gives; `created` is the creating procedure's
      outcome, and every later step sees the ledger it leaves. */
  function CallbackStep(st: Storage, rows: Ledger, userId: UserId, created: Option<string>,
                        first: Lookup<UserId>, second: Lookup<UserId>, updateFails: bool): (r: Effect)
    // the record is always created first
    ensures |r.calls| >= 1 && r.calls[0] == CreateRecords(userId)
    // an already processed referral, or none stored: nothing else happens
    ensures Processed(st) || st.referralData.None? ==>
      r == Effect(st, CreateRow(rows, userId, created), [CreateRecords(userId)])
    // an unknown code or a self-referral discards the pending entry
    ensures !Processed(st) && st.referralData.Some? && !ValidReferrer(first, userId) ==>
      r == Effect(st.(referralData := None), CreateRow(rows, userId, created),
                  [CreateRecords(userId), FindReferrer(st.referralData.value.code)])
    // otherwise the attribution follows the second lookup, and the referral ends up
    // marked processed whether or not that attribution succeeded
    ensures !Processed(st) && st.referralData.Some? && ValidReferrer(first, userId) ==>
      r.rows == ReferralStep(st, CreateRow(rows, userId, created), userId, second, updateFails).effect.rows
      && r.storage == Storage(None, Some("true"))
      && r.calls == [CreateRecords(userId), FindReferrer(st.referralData.value.code)]
                    + ReferralStep(st, CreateRow(rows, userId, created), userId, second, updateFails).effect.calls
    // beyond the creation, the ledger changes only through a successful attribution
    ensures r.rows == CreateRow(rows, userId, created)
         || ReferralStep(st, CreateRow(rows, userId, created), userId, second, updateFails).ok
    ensures NoSelfReferral(rows) ==> NoSelfReferral(r.rows)
  {
    var base := CreateRow(rows, userId, created);
    var creation := [CreateRecords(userId)];
    if Processed(st) || st.referralData.None? then Effect(st, base, creation)
    else
      var validate := creation + [FindReferrer(st.referralData.value.code)];
      if !ValidReferrer(first, userId) then Effect(st.(referralData := None), base, validate)
      else
        var step := ReferralStep(st, base, userId, second, updateFails);
        Effect(Storage(None, Some("true")), step.effect.rows, validate + step.effect.calls)
  }

  /** Performs `CallbackStep`. */
  method ProcessReferralAndCreateNotifications(store: LocalStorage, backend: Backend, userId: UserId, created: Option<string>,
                                               first: Lookup<UserId>, second: Lookup<UserId>, updateFails: bool)
    modifies store, backend
    ensures var e := CallbackStep(old(store.Snapshot()), old(backend.rows), userId, created, first, second, updateFails);
      store.Snapshot() == e.storage && backend.rows == e.rows && backend.calls == old(backend.calls) + e.calls
  {
    CreateUserNotifications(backend, userId, created);
    if store.processedFlag == Some("true") {
      return;
    }
    var stored := store.referralData;
    if stored.None? {
      return;
    }
    backend.calls := backend.calls + [FindReferrer(stored.value.code)];
    if !first.Found? || first.value == userId {
      store.referralData := None;
      return;
    }
    var _ := ProcessUserReferral(store, backend, userId, second, updateFails);
    store.processedFlag := Some("true");
    store.referralData := None;
  }

  /** After any callback run the referral is either marked processed or no
      longer stored, so running the callback again, whatever the backend
      answers, changes neither the storage nor any existing row: at most
      the creating procedure adds the user's row if it is still missing. */
  lemma CallbackRerunChangesNothing(st: Storage, rows: Ledger, userId: UserId, created: Option<string>,
                                    first: Lookup<UserId>, second: Lookup<UserId>, updateFails: bool,
                                    created2: Option<string>, first2: Lookup<UserId>, second2: Lookup<UserId>,
                                    updateFails2: bool)
    ensures var e1 := CallbackStep(st, rows, userId, created, first, second, updateFails);
      var e2 := CallbackStep(e1.storage, e1.rows, userId, created2, first2, second2, updateFails2);
      e2.storage == e1.storage && e2.rows == CreateRow(e1.rows, userId, created2)
      && forall u :: u in e1.rows ==> u in e2.rows && e2.rows[u] == e1.rows[u]
  {
    var e1 := CallbackStep(st, rows, userId, created, first, second, updateFails);
    assert Processed(e1.storage) || e1.storage.referralData.None?;
  }

  /** The callback and the helper leave different flags behind on success:
      after the helper the referral is not marked processed, after the
      callback it is. */
  lemma CallbackMarksWhatHelperClears(st: Storage, rows: Ledger, userId: UserId, created: Option<string>, referrer: UserId)
    requires !Processed(st) && st.referralData.Some? && referrer != userId
    ensures !Processed(ReferralStep(st, rows, userId, Found(referrer), false).effect.storage)
    ensures Processed(CallbackStep(st, rows, userId, created, Found(referrer), Found(referrer), false).storage)
    ensures CallbackStep(st, rows, userId, created, Found(referrer), Found(referrer), false).rows
         == ReferralStep(st, CreateRow(rows, userId, created), userId, Found(referrer), false).effect.rows
  {
  }

  /** A first sign-in through the callback with a valid pending code: the
      procedure creates the user's row, and the row ends up naming the
      referrer, who gains exactly one referral. */
  lemma CallbackCreditsNewUser(st: Storage, rows: Ledger, userId: UserId, code: string, referrer: UserId)
    requires userId !in rows && referrer != userId
    requires !Processed(st) && st.referralData.Some?
    ensures var after := CallbackStep(st, rows, userId, Some(code), Found(referrer), Found(referrer), false).rows;
      userId in after && after[userId].referredBy == Some(referrer)
      && ReferralCount(after, referrer) == ReferralCount(rows, referrer) + 1
  {
    NewUserReferralLands(st, rows, userId, code, Found(referrer));
  }
}
