/** The browser-local referral state: the pending referral captured from a
    URL (key "flowva_referral_data") and the processed flag (key
    "flowva_referral_processed"). The same two entries are read and written
    by the authentication helpers and the sign-in callback, which operate on
    the same `LocalStorage` object. JSON encoding is not modelled: the
    pending entry is stored as its decoded value. */
module ReferralStorage {
  import opened Oracle

  /** A referral code waiting to be attributed; `timestamp` is the capture
      time in milliseconds. */
  datatype PendingReferral = PendingReferral(code: string, timestamp: int, source: string)

  /** A snapshot of the two entries. */
  datatype Storage = Storage(referralData: Option<PendingReferral>, processedFlag: Option<string>)

  /** The flag counts as set only when it holds exactly "true". */
  predicate Processed(st: Storage) {
    st.processedFlag == Some("true")
  }

  class LocalStorage {
    var referralData: Option<PendingReferral>
    var processedFlag: Option<string>

    constructor (st: Storage)
      ensures Snapshot() == st
    {
      referralData := st.referralData;
      processedFlag := st.processedFlag;
    }

    function Snapshot(): Storage
      reads this
    {
      Storage(referralData, processedFlag)
    }

    /** Stores `{code, timestamp, source}` (source "url" unless given) and
        clears the processed flag; the stored entry reads back unchanged. */
    method SaveReferralCode(code: string, nowMs: int, source: string := "url") returns (data: PendingReferral)
      modifies this
      ensures data == PendingReferral(code, nowMs, source)
      ensures GetStoredReferral() == Some(data)
      ensures !IsReferralProcessed() && processedFlag == None
    {
      data := PendingReferral(code, nowMs, source);
      referralData := Some(data);
      processedFlag := None;
    }

    /** The pending referral, if one is stored. */
    function GetStoredReferral(): (r: Option<PendingReferral>)
      reads this
      ensures r.Some? <==> referralData.Some?
      ensures r.Some? ==> r.value == referralData.value
    {
      referralData
    }

    /** True exactly when the flag holds the text "true". */
    function IsReferralProcessed(): (b: bool)
      reads this
      ensures b <==> Processed(Snapshot())
    {
      processedFlag == Some("true")
    }

    /** Sets the flag and drops the pending referral. The resulting state
        does not depend on the previous one, so a repeat changes nothing. */
    method MarkReferralProcessed()
      modifies this
      ensures Snapshot() == Storage(None, Some("true"))
      ensures IsReferralProcessed() && GetStoredReferral() == None
    {
      processedFlag := Some("true");
      referralData := None;
    }

    /** Removes both entries. The resulting state does not depend on the
        previous one, so a repeat changes nothing. */
    method ClearReferralData()
      modifies this
      ensures Snapshot() == Storage(None, None)
      ensures !IsReferralProcessed() && GetStoredReferral() == None
    {
      referralData := None;
      processedFlag := None;
    }
  }
}
