/** Authentication helpers: storing a referral code, creating a user's
    notification/referral record, and attributing a stored referral to the
    signed-in user. `ReferralStep` is the specification of one attribution
    attempt; `ProcessUserReferral` performs it on the local storage and the
    backend. The referrer lookup (`select ... eq("referral_code", code)
    .single()`) is an input: `Found(referrerId)`, `NotFound` or `Failed`. */
module AuthUtils {
  import opened Oracle
  import opened ReferralStorage
  import opened Remote

  const DirectLink := "direct_link"

  /** What an attribution attempt leaves behind. */
  datatype Effect = Effect(storage: Storage, rows: Ledger, calls: seq<Call>)

  /** The returned boolean and the effect. */
  datatype Step = Step(ok: bool, effect: Effect)

  /** `referralData.source || "direct_link"`. */
  function SourceOf(p: PendingReferral): (s: string)
    ensures s != ""
    ensures p.source != "" ==> s == p.source
  {
    if p.source != "" then p.source else DirectLink
  }

  /** The referrer lookup named someone other than the user. */
  predicate ValidReferrer(referrer: Lookup<UserId>, userId: UserId) {
    referrer.Found? && referrer.value != userId
  }

  /** One `processUserReferral` run, as a function of the storage, the
      ledger, the lookup's answer and whether the update fails. */
  function ReferralStep(st: Storage, rows: Ledger, userId: UserId, referrer: Lookup<UserId>, updateFails: bool): (r: Step)
    // true exactly when a pending code named another user and the update went through
    ensures r.ok <==> st.referralData.Some? && ValidReferrer(referrer, userId) && !updateFails
    // nothing stored: nothing happens
    ensures st.referralData.None? ==> r == Step(false, Effect(st, rows, []))
    // a stored code is always looked up first, and the update is attempted only for a valid referrer
    ensures st.referralData.Some? ==>
      1 <= |r.effect.calls| <= 2
      && r.effect.calls[0] == FindReferrer(st.referralData.value.code)
      && (|r.effect.calls| == 2 <==> ValidReferrer(referrer, userId))
    // an unknown code or a self-referral discards the pending entry and keeps the flag
    ensures st.referralData.Some? && !ValidReferrer(referrer, userId) ==>
      r.effect.storage == st.(referralData := None) && r.effect.rows == rows
    // a failed update keeps everything, so the referral can be retried
    ensures st.referralData.Some? && ValidReferrer(referrer, userId) && updateFails ==>
      r.effect.storage == st && r.effect.rows == rows
    // success: the user's row names the referrer, and both keys are removed
    ensures r.ok ==>
      r.effect.rows == Attribute(rows, userId, referrer.value, SourceOf(st.referralData.value))
      && r.effect.storage == Storage(None, None)
    // no path ever records a self-referral
    ensures NoSelfReferral(rows) ==> NoSelfReferral(r.effect.rows)
  {
    match st.referralData
    case None => Step(false, Effect(st, rows, []))
    case Some(pending) =>
      var lookup := [FindReferrer(pending.code)];
      if !ValidReferrer(referrer, userId) then
        Step(false, Effect(st.(referralData := None), rows, lookup))
      else
        var source := SourceOf(pending);
        var calls := lookup + [UpdateReferral(userId, referrer.value, source)];
        if updateFails then Step(false, Effect(st, rows, calls))
        else Step(true, Effect(Storage(None, None), Attribute(rows, userId, referrer.value, source), calls))
  }

  /** `storeReferralCode`: the pending entry with source "direct_link";
      unlike `SaveReferralCode`, the processed flag is left as it is. */
  method StoreReferralCode(store: LocalStorage, code: string, nowMs: int)
    modifies store
    ensures store.referralData == Some(PendingReferral(code, nowMs, DirectLink))
    ensures store.processedFlag == old(store.processedFlag)
  {
    store.referralData := Some(PendingReferral(code, nowMs, DirectLink));
  }

  /** `createUserNotifications`: one call of the creating procedure. Its
      outcome is an input: `code` is the code of the row it created, or None
      when it created nothing. */
  method CreateUserNotifications(backend: Backend, userId: UserId, code: Option<string>)
    modifies backend
    ensures backend.calls == old(backend.calls) + [CreateRecords(userId)]
    ensures backend.rows == CreateRow(old(backend.rows), userId, code)
  {
    backend.calls := backend.calls + [CreateRecords(userId)];
    backend.rows := CreateRow(backend.rows, userId, code);
  }

  /** `processUserReferral`, performing `ReferralStep`. */
  method ProcessUserReferral(store: LocalStorage, backend: Backend, userId: UserId, referrer: Lookup<UserId>, updateFails: bool)
    returns (ok: bool)
    modifies store, backend
    ensures var step := ReferralStep(old(store.Snapshot()), old(backend.rows), userId, referrer, updateFails);
      ok == step.ok
      && store.Snapshot() == step.effect.storage
      && backend.rows == step.effect.rows
      && backend.calls == old(backend.calls) + step.effect.calls
  {
    var stored := store.referralData;
    if stored.None? {
      return false;
    }
    var pending := stored.value;
    backend.calls := backend.calls + [FindReferrer(pending.code)];
    if !referrer.Found? {
      store.referralData := None;
      return false;
    }
    if referrer.value == userId {
      store.referralData := None;
      return false;
    }
    var source := SourceOf(pending);
    backend.calls := backend.calls + [UpdateReferral(userId, referrer.value, source)];
    if updateFails {
      return false;
    }
    backend.rows := Attribute(backend.rows, userId, referrer.value, source);
    store.processedFlag := None;
    store.referralData := None;
    return true;
  }

  /** `ensureUserHasNotifications`: the user's record is looked up, created
      only when the lookup reports that no row exists, and the stored
      referral is processed in every case, against the ledger as it stands
      after the creation. */
  method EnsureUserHasNotifications(store: LocalStorage, backend: Backend, userId: UserId,
                                    existing: Lookup<UserId>, created: Option<string>,
                                    referrer: Lookup<UserId>, updateFails: bool)
    modifies store, backend
    ensures var rows := if existing.NotFound? then CreateRow(old(backend.rows), userId, created) else old(backend.rows);
      var step := ReferralStep(old(store.Snapshot()), rows, userId, referrer, updateFails);
      store.Snapshot() == step.effect.storage
      && backend.rows == step.effect.rows
      && backend.calls == old(backend.calls) + [LookupRecord(userId)]
           + (if existing.NotFound? then [CreateRecords(userId)] else []) + step.effect.calls
  {
    backend.calls := backend.calls + [LookupRecord(userId)];
    if existing.NotFound? {
      CreateUserNotifications(backend, userId, created);
    }
    var _ := ProcessUserReferral(store, backend, userId, referrer, updateFails);
  }

  /** A successful attribution of a user that nobody had referred raises the
      referrer's count by one and leaves every other count as it was. */
  lemma FirstAttributionCounts(st: Storage, rows: Ledger, userId: UserId, referrer: Lookup<UserId>, updateFails: bool)
    requires userId in rows && rows[userId].referredBy == None
    requires ReferralStep(st, rows, userId, referrer, updateFails).ok
    ensures var after := ReferralStep(st, rows, userId, referrer, updateFails).effect.rows;
      ReferralCount(after, referrer.value) == ReferralCount(rows, referrer.value) + 1
      && forall other :: other != referrer.value ==> ReferralCount(after, other) == ReferralCount(rows, other)
  {
    var after := ReferralStep(st, rows, userId, referrer, updateFails).effect.rows;
    AttributeCounts(rows, userId, referrer.value, SourceOf(st.referralData.value));
    forall other | other != referrer.value
      ensures ReferralCount(after, other) == ReferralCount(rows, other)
    {
      assert Referred(after, other) == Referred(rows, other);
    }
  }

  /** Nothing guards against a second attribution: a later run with a new
      code overwrites `referred_by`, moving the user from the earlier
      referrer's count to the later one's. */
  lemma LaterRunOverwrites(st: Storage, rows: Ledger, userId: UserId, first: UserId, second: UserId,
                           code: string, nowMs: int)
    requires userId in rows && first != second
    requires ReferralStep(st, rows, userId, Found(first), false).ok
    ensures var rows1 := ReferralStep(st, rows, userId, Found(first), false).effect.rows;
      var st2 := Storage(Some(PendingReferral(code, nowMs, DirectLink)), None);
      var rows2 := ReferralStep(st2, rows1, userId, Found(second), false).effect.rows;
      second != userId ==>
        rows2[userId].referredBy == Some(second)
        && ReferralCount(rows2, first) == ReferralCount(rows1, first) - 1
        && ReferralCount(rows2, second) == ReferralCount(rows1, second) + 1
  {
    var rows1 := ReferralStep(st, rows, userId, Found(first), false).effect.rows;
    if second != userId {
      AttributeCounts(rows1, userId, second, DirectLink);
    }
  }

  /** The creation comes before the referral so that the update finds the
      new user's row: a user the procedure has just created, processed with
      a valid code naming someone else, ends up referred by that referrer,
      who gains exactly one referral while nobody else's count moves. */
  lemma NewUserReferralLands(st: Storage, rows: Ledger, userId: UserId, code: string, referrer: Lookup<UserId>)
    requires userId !in rows
    requires st.referralData.Some? && ValidReferrer(referrer, userId)
    ensures var after := ReferralStep(st, CreateRow(rows, userId, Some(code)), userId, referrer, false).effect.rows;
      userId in after && after[userId].referredBy == Some(referrer.value)
      && ReferralCount(after, referrer.value) == ReferralCount(rows, referrer.value) + 1
      && forall other :: other != referrer.value ==> ReferralCount(after, other) == ReferralCount(rows, other)
  {
    var created := CreateRow(rows, userId, Some(code));
    FirstAttributionCounts(st, created, userId, referrer, false);
    forall r
      ensures ReferralCount(created, r) == ReferralCount(rows, r)
    {
      CreateRowKeepsCounts(rows, userId, Some(code), r);
    }
  }

  /** Without a created row the update matches nothing: the step reports
      success but nobody's referral count moves. */
  lemma MissingRowCreditsNobody(st: Storage, rows: Ledger, userId: UserId, referrer: Lookup<UserId>)
    requires userId !in rows
    requires ReferralStep(st, rows, userId, referrer, false).ok
    ensures ReferralStep(st, rows, userId, referrer, false).effect.rows == rows
  {
  }
}
