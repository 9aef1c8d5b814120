/** The hosted backend as the client sees it: the per-user attribution rows
    of the `notificationsandreferral` table and a log of the remote calls
    the client issues, in order. Reads are inputs (`Lookup` values) of the
    operations that perform them; writes change `rows`. */
module Remote {
  import opened Oracle

  /** The attribution columns of a user's row. */
  datatype Attribution = Attribution(referralCode: string, referredBy: Option<UserId>, referralSource: Option<string>)

  type Ledger = map<UserId, Attribution>

  /** A remote call, as recorded in the log. */
  datatype Call =
    | LookupRecord(userId: UserId)
    | CreateRecords(userId: UserId)
    | FindReferrer(code: string)
    | UpdateReferral(userId: UserId, referrer: UserId, source: string)
    | SignUp(email: string, referralCode: Option<string>)
    | SignIn(email: string)
    | UpdatePassword

  class Backend {
    var rows: Ledger
    var calls: seq<Call>

    constructor (initial: Ledger)
      ensures rows == initial && calls == []
    {
      rows := initial;
      calls := [];
    }
  }

  /** `update({referred_by, referral_source}).eq("user_id", userId)`: the
      user's row, if there is one, is attributed to `referrer`; an update
      that matches no row changes nothing. */
  function Attribute(rows: Ledger, userId: UserId, referrer: UserId, source: string): (r: Ledger)
    ensures r.Keys == rows.Keys
    ensures userId in rows ==>
      r[userId] == rows[userId].(referredBy := Some(referrer), referralSource := Some(source))
    ensures forall u :: u in rows && u != userId ==> r[u] == rows[u]
  {
    if userId in rows
    then rows[userId := rows[userId].(referredBy := Some(referrer), referralSource := Some(source))]
    else rows
  }

  /** The effect of the creating procedure, whose body is not part of this
      model: `code` is the referral code of the row it created, or None when
      it created nothing (it failed, or the call was swallowed). A new row is
      unattributed; an existing row is left as it is. */
  function CreateRow(rows: Ledger, userId: UserId, code: Option<string>): (r: Ledger)
    ensures r.Keys == if code.Some? then rows.Keys + {userId} else rows.Keys
    ensures forall u :: u in rows ==> r[u] == rows[u]
    ensures code.Some? && userId !in rows ==> r[userId] == Attribution(code.value, None, None)
    ensures NoSelfReferral(rows) ==> NoSelfReferral(r)
  {
    if code.Some? && userId !in rows then rows[userId := Attribution(code.value, None, None)] else rows
  }

  /** Creating a row never changes anybody's referral count. */
  lemma CreateRowKeepsCounts(rows: Ledger, userId: UserId, code: Option<string>, referrer: UserId)
    ensures ReferralCount(CreateRow(rows, userId, code), referrer) == ReferralCount(rows, referrer)
  {
    assert Referred(CreateRow(rows, userId, code), referrer) == Referred(rows, referrer);
  }

  /** Users whose row names `referrer` as the one who referred them. */
  function Referred(rows: Ledger, referrer: UserId): set<UserId> {
    set u | u in rows && rows[u].referredBy == Some(referrer)
  }

  /** How many users `referrer` has referred. */
  function ReferralCount(rows: Ledger, referrer: UserId): nat {
    |Referred(rows, referrer)|
  }

  /** No row names its own user as referrer. */
  predicate NoSelfReferral(rows: Ledger) {
    forall u :: u in rows ==> rows[u].referredBy != Some(u)
  }

  /** Attributing a user moves exactly that user between referral counts:
      the new referrer gains one unless it already had the user, and a
      different previous referrer loses one. */
  lemma AttributeCounts(rows: Ledger, userId: UserId, referrer: UserId, source: string)
    requires userId in rows
    ensures rows[userId].referredBy != Some(referrer) ==>
      ReferralCount(Attribute(rows, userId, referrer, source), referrer) == ReferralCount(rows, referrer) + 1
    ensures rows[userId].referredBy == Some(referrer) ==>
      ReferralCount(Attribute(rows, userId, referrer, source), referrer) == ReferralCount(rows, referrer)
    ensures forall other :: other != referrer && rows[userId].referredBy == Some(other) ==>
      ReferralCount(Attribute(rows, userId, referrer, source), other) == ReferralCount(rows, other) - 1
  {
    var r := Attribute(rows, userId, referrer, source);
    if rows[userId].referredBy != Some(referrer) {
      assert Referred(r, referrer) == Referred(rows, referrer) + {userId};
    } else {
      assert Referred(r, referrer) == Referred(rows, referrer);
    }
    forall other | other != referrer && rows[userId].referredBy == Some(other)
      ensures ReferralCount(r, other) == ReferralCount(rows, other) - 1
    {
      assert Referred(r, other) == Referred(rows, other) - {userId};
    }
  }
}
