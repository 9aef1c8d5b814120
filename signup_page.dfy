/** The sign-up form's `handleSignUp` and the storing of a `ref` URL
    parameter. The account service's answers are parameters; every remote
    call is appended to the backend's call log, so the log records their
    order. */
module SignUpPage {
  import opened Oracle
  import opened ReferralStorage
  import opened Remote
  import opened AuthUtils
  import opened PasswordRules
  import ReferCard

  const AlreadyRegistered := "User already registered. Please sign in instead."
  const GenericError := "An error occurred"
  const CheckEmail := "Registration successful! Please check your email to confirm your account."
  const Dashboard := "/dashboard/earn-rewards"

  /** The account service's answer to `signUp`: an error with its message,
      no user object, or a user with its identity count (absent when the
      service sends no identities list). */
  datatype SignUpReply = SignUpFailed(message: string) | NoUser | NewUser(id: UserId, identities: Option<nat>)

  // ---------------------------------------------------------------------
  // Reading `ref` from the page address

  /** The query of an address: the text after the first '?', once the
      fragment (from the first '#') is cut off; none without a '?'. */
  function QueryOf(url: string): (q: Option<string>)
    ensures q.Some? <==> '?' in TextBefore(url, '#')
    ensures q.Some? ==> '#' !in q.value
  {
    var page := TextBefore(url, '#');
    var q := TextAfter(page, '?');
    assert q.Some? ==> forall k :: 0 <= k < |q.value| ==> q.value[k] == page[|TextBefore(page, '?')| + 1 + k];
    q
  }

  /** Form decoding of a name or a value: '+' stands for a space. */
  function PlusToSpace(s: string): (r: string)
    ensures |r| == |s|
    ensures forall k :: 0 <= k < |s| ==> r[k] == (if s[k] == '+' then ' ' else s[k])
  {
    if s == [] then []
    else [if s[0] == '+' then ' ' else s[0]] + PlusToSpace(s[1..])
  }

  /** `new URLSearchParams(query).get("ref")`: the value of the first
      '&'-separated pair whose name is "ref" (the text after its first '=',
      empty without one), with '+' read as a space; none without such a
      pair. */
  function RefParam(query: string): (r: Option<string>)
    ensures "ref=" <= query ==> r == Some(PlusToSpace(TextBefore(query[4..], '&')))
    decreases |query|
  {
    RefPairFirst(query);
    var pair := TextBefore(query, '&');
    if PlusToSpace(TextBefore(pair, '=')) == "ref" then Some(PlusToSpace(TextAfter(pair, '=').GetOr("")))
    else
      match TextAfter(query, '&')
      case None => None
      case Some(rest) => RefParam(rest)
  }

  /** A query that starts with "ref=" has the `ref` pair first. */
  lemma RefPairFirst(query: string)
    ensures "ref=" <= query ==>
      var pair := TextBefore(query, '&');
      PlusToSpace(TextBefore(pair, '=')) == "ref"
      && TextAfter(pair, '=') == Some(TextBefore(query[4..], '&'))
  {
    if "ref=" <= query {
      var tail := query[4..];
      assert query == "ref=" + tail;
      TextBeforePrefix("ref=", '&', tail);
      var pair := TextBefore(query, '&');
      assert pair == "ref" + ['='] + TextBefore(tail, '&');
      TextSplitAt("ref", '=', TextBefore(tail, '&'));
      assert PlusToSpace("ref") == "ref";
    }
  }

  /** `searchParams.get("ref")` on the page address. */
  function ReadRef(url: string): (r: Option<string>)
    ensures QueryOf(url).None? ==> r == None
    ensures QueryOf(url).Some? ==> r == RefParam(QueryOf(url).value)
  {
    match QueryOf(url)
    case None => None
    case Some(q) => RefParam(q)
  }

  /** The sign-up page's address holds no '?' and no '#'. */
  lemma AddressHasNoMarks()
    ensures '?' !in ReferCard.SignUpPageAddress && '#' !in ReferCard.SignUpPageAddress
  {
    var a := ReferCard.SignUpPageAddress;
    forall k | 0 <= k < |a|
      ensures a[k] != '?' && a[k] != '#'
    {
    }
  }

  /** The query of a referral link is "ref=" followed by the code. */
  lemma LinkQuery(code: string)
    requires '#' !in code
    ensures QueryOf(ReferCard.Link(code)) == Some("ref=" + code)
  {
    var url := ReferCard.Link(code);
    AddressHasNoMarks();
    assert url == ReferCard.SignUpPageAddress + ['?'] + ("ref=" + code);
    assert '#' !in url;
    assert TextBefore(url, '#') == url;
    TextSplitAt(ReferCard.SignUpPageAddress, '?', "ref=" + code);
  }

  /** Opening a referral link gives back its code with every '+' read as
      a space, as long as the code holds no '&' or '#'. */
  lemma LinkReadsBack(code: string)
    requires '&' !in code && '#' !in code
    ensures ReadRef(ReferCard.Link(code)) == Some(PlusToSpace(code))
  {
    LinkQuery(code);
    assert ("ref=" + code)[4..] == code;
    assert TextBefore(code, '&') == code;
  }

  /** A code made only of characters the address keeps as they are comes
      back unchanged. */
  lemma LinkRoundTrip(code: string)
    requires forall k :: 0 <= k < |code| ==> code[k] !in "+%&#"
    ensures ReadRef(ReferCard.Link(code)) == Some(code)
  {
    assert '&' !in code && '#' !in code;
    LinkReadsBack(code);
    assert PlusToSpace(code) == code;
  }

  /** The fallback code of "a+b@x.com" keeps its '+'. */
  lemma FallbackKeepsPlus()
    ensures ReferCard.FallbackCode(Some("a+b@x.com")) == "a+b"
  {
    var local, domain := "a+b", "x.com";
    assert "a+b@x.com" == local + ['@'] + domain;
    TextSplitAt(local, '@', domain);
  }

  /** The link built from the code "a+b" reads back as "a b": a fallback
      code taken from an address such as "a+b@x.com" does not survive the
      unencoded link. */
  lemma PlusReadsAsSpace()
    ensures ReadRef(ReferCard.Link("a+b")) == Some("a b")
  {
    var code := "a+b";
    LinkReadsBack(code);
    assert PlusToSpace(code) == "a b";
  }

  /** The metadata sent with the sign-up: the code only when `ref` is
      present and non-empty. */
  function Metadata(referralCode: Option<string>): (r: Option<string>)
    ensures r.Some? <==> Truthy(referralCode)
    ensures r.Some? ==> r == referralCode
  {
    if Truthy(referralCode) then referralCode else None
  }

  /** A user object whose identities list is present and empty belongs to
      an address that is already registered. */
  predicate Duplicate(reply: SignUpReply) {
    reply.NewUser? && reply.identities == Some(0)
  }

  class SignUpForm {
    const store: LocalStorage
    const backend: Backend
    var email: string
    var password: string
    var confirmPassword: string
    var loading: bool
    var error: string
    var successMessage: string
    var redirect: Option<string>

    constructor (store: LocalStorage, backend: Backend)
      ensures this.store == store && this.backend == backend
      ensures email == "" && password == "" && confirmPassword == ""
      ensures !loading && error == "" && successMessage == "" && redirect == None
    {
      this.store := store;
      this.backend := backend;
      email, password, confirmPassword := "", "", "";
      loading, error, successMessage, redirect := false, "", "", None;
    }

    /** On load, a present `ref` parameter of the page address is stored
        as a pending referral. */
    method StoreRefParameter(url: string, nowMs: int)
      modifies store
      ensures Truthy(ReadRef(url)) ==>
        store.referralData == Some(PendingReferral(ReadRef(url).value, nowMs, DirectLink))
      ensures !Truthy(ReadRef(url)) ==> store.referralData == old(store.referralData)
      ensures store.processedFlag == old(store.processedFlag)
    {
      var referralCode := ReadRef(url);
      if Truthy(referralCode) {
        StoreReferralCode(store, referralCode.value, nowMs);
      }
    }

    /** `handleSignUp`. `referralCode` is the page's `ReadRef` of its
        address; `created` is the creating procedure's outcome;
        `referrer` and `updateFails` are the backend's answers to the
        referral processing; `signInFails` is the answer to the automatic
        sign-in. */
    method HandleSignUp(referralCode: Option<string>, reply: SignUpReply, created: Option<string>,
                        referrer: Lookup<UserId>, updateFails: bool, signInFails: bool)
      modifies this`loading, this`error, this`successMessage, this`redirect, store, backend
      ensures !loading
      // a failed check reports it and calls nothing
      ensures PasswordError(password, confirmPassword).Some? ==>
        error == PasswordError(password, confirmPassword).value && successMessage == ""
        && backend.calls == old(backend.calls) && backend.rows == old(backend.rows)
        && store.Snapshot() == old(store.Snapshot()) && redirect == old(redirect)
      // otherwise the sign-up call goes first, with the code as metadata when there is one
      ensures PasswordError(password, confirmPassword).None? ==>
        |backend.calls| > |old(backend.calls)|
        && backend.calls[|old(backend.calls)|] == SignUp(email, Metadata(referralCode))
      ensures PasswordError(password, confirmPassword).None? && (reply.SignUpFailed? || reply.NoUser? || Duplicate(reply)) ==>
        backend.calls == old(backend.calls) + [SignUp(email, Metadata(referralCode))]
        && backend.rows == old(backend.rows) && store.Snapshot() == old(store.Snapshot())
        && redirect == old(redirect) && successMessage == ""
      ensures PasswordError(password, confirmPassword).None? && reply.SignUpFailed? ==>
        error == MessageOr(reply.message, GenericError)
      ensures PasswordError(password, confirmPassword).None? && reply.NoUser? ==> error == ""
      ensures PasswordError(password, confirmPassword).None? && Duplicate(reply) ==> error == AlreadyRegistered
      // a new user: record created, then the referral processed against the
      // created row, then the automatic sign-in
      ensures PasswordError(password, confirmPassword).None? && reply.NewUser? && !Duplicate(reply) ==>
        var step := ReferralStep(old(store.Snapshot()), CreateRow(old(backend.rows), reply.id, created),
                                 reply.id, referrer, updateFails);
        backend.calls == old(backend.calls) + [SignUp(email, Metadata(referralCode)), CreateRecords(reply.id)]
                         + step.effect.calls + [SignIn(email)]
        && backend.rows == step.effect.rows && store.Snapshot() == step.effect.storage
        && error == ""
        && (signInFails ==> successMessage == CheckEmail && redirect == old(redirect))
        && (!signInFails ==> successMessage == "" && redirect == Some(Dashboard))
    {
      loading, error, successMessage := true, "", "";
      var invalid := PasswordError(password, confirmPassword);
      if invalid.Some? {
        error, loading := invalid.value, false;
        return;
      }
      backend.calls := backend.calls + [SignUp(email, Metadata(referralCode))];
      match reply {
        case SignUpFailed(message) =>
          error := MessageOr(message, GenericError);
        case NoUser =>
        case NewUser(id, identities) =>
          if identities == Some(0) {
            error := AlreadyRegistered;
          } else {
            FinishNewUser(id, created, referrer, updateFails, signInFails);
          }
      }
      loading := false;
    }

    /** The rest of `handleSignUp` for a new user: records created, the
        referral processed against the created row, then the automatic
        sign-in, whose failure leaves the confirm-your-email message. */
    method FinishNewUser(id: UserId, created: Option<string>, referrer: Lookup<UserId>,
                         updateFails: bool, signInFails: bool)
      modifies this`successMessage, this`redirect, store, backend
      ensures var step := ReferralStep(old(store.Snapshot()), CreateRow(old(backend.rows), id, created),
                                       id, referrer, updateFails);
        backend.calls == old(backend.calls) + [CreateRecords(id)] + step.effect.calls + [SignIn(email)]
        && backend.rows == step.effect.rows && store.Snapshot() == step.effect.storage
      ensures signInFails ==> successMessage == CheckEmail && redirect == old(redirect)
      ensures !signInFails ==> successMessage == old(successMessage) && redirect == Some(Dashboard)
    {
      CreateUserNotifications(backend, id, created);
      var _ := ProcessUserReferral(store, backend, id, referrer, updateFails);
      backend.calls := backend.calls + [SignIn(email)];
      if signInFails {
        successMessage := CheckEmail;
      } else {
        redirect := Some(Dashboard);
      }
    }
  }
}
