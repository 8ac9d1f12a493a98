/**
 * The two callable handlers, `createUser` and `createSession`, over an
 * abstract Firebase project: the accounts of the identity provider, the
 * `users` collection, and for each user id the `sessions` subcollection
 * under `users/{uid}`. Each handler is a straight pipeline: null check,
 * field checks, (sessions only) a query for a conflicting session, then the
 * remote write(s). Every exception raised on the way is caught by the
 * handler's own `catch` and rethrown with the `internal` code.
 */
module Handlers {
  import opened Wrappers
  import opened JsValues
  import opened Validators

  type Uid = string

  /** `FieldValue.serverTimestamp()`: a sentinel that the store replaces with its own clock. */
  datatype Timestamp = ServerTimestamp

  /** What `admin.auth().createUser` is given. */
  datatype Credentials = Credentials(email: string, password: string)

  /** A document of the `users` collection; email and password are not part of it. */
  datatype UserDoc = UserDoc(
    name: string, surname: string, birthday: string,
    street: string, zipCode: string, city: string,
    createdAt: Timestamp, updatedAt: Timestamp)

  datatype Break = Break(breakStart: int, breakEnd: int)

  /** A document of a `sessions` subcollection; times are epoch milliseconds. */
  datatype SessionDoc = SessionDoc(
    startTime: int, endTime: int, breaks: seq<Break>,
    createdAt: Timestamp, updatedAt: Timestamp)

  /** A callable request; `data` is `None` when the call carries no payload object. */
  datatype CallableRequest<D> = CallableRequest(data: Option<D>)

  datatype UserForm = UserForm(
    email: Field<string>, password: Field<string>,
    name: Field<string>, surname: Field<string>, birthday: Field<string>,
    street: Field<string>, zipCode: Field<string>, city: Field<string>)

  datatype SessionForm = SessionForm(uid: Field<string>, startTime: Field<int>, endTime: Field<int>)

  datatype UserResponse = UserResponse(
    isSuccess: bool, uid: Uid,
    name: string, surname: string, birthday: string,
    street: string, zipCode: string, city: string)

  datatype SessionResponse = SessionResponse(isSuccess: bool)

  /** The error codes the handlers name; their string values are not part of this model. */
  datatype ErrorCode = RequestNull | InvalidArgument | SessionExists | Internal

  /** The fields `createUser` checks, in the order it checks them. */
  datatype UserField = Email | Password | Name | Surname | Birthday | Street | ZipCode | City

  /** The fields `createSession` checks, in the order it checks them. */
  datatype SessionField = UserId | StartTime | EndTime

  /** What was thrown inside a handler's `try` block. */
  datatype Cause =
    | NullRequest                              // HttpsError with the null-request code
    | NoData                                   // TypeError: a field read on an undefined `request.data`
    | RejectedUserField(userField: UserField)  // TypeError: `errStr +=` on a `const`, at the first failed check
    | RejectedSessionField(sessionField: SessionField)
    | SessionAlreadyExists                     // HttpsError with the session-exists code
    | IdentityRejected                         // `admin.auth().createUser` failed

  /** What the caller receives: a code, and the original failure as detail. */
  datatype HttpsError = HttpsError(code: ErrorCode, details: Cause)

  /**
   * The code of the `HttpsError` thrown inside the `try`, when what was
   * thrown is one. `InvalidArgument` never comes up: the first failed check
   * throws a TypeError before `errStr != ""` is reached.
   */
  function ThrownCode(c: Cause): (r: Option<ErrorCode>)
    ensures r != Some(InvalidArgument) && r != Some(Internal)
    ensures r.Some? <==> c.NullRequest? || c.SessionAlreadyExists?
    ensures r == Some(RequestNull) <==> c.NullRequest?
  {
    match c
    case NullRequest => Some(RequestNull)
    case SessionAlreadyExists => Some(SessionExists)
    case _ => None
  }

  /** The `catch` of both handlers: whatever was thrown, its code is replaced by `internal`. */
  function Caught(c: Cause): (e: HttpsError)
    ensures e.code == Internal && e.details == c
    ensures ThrownCode(c).Some? ==> e.code != ThrownCode(c).value
  {
    HttpsError(Internal, c)
  }

  /**
   * The field whose check fails first in `createUser`, in source order.
   * `errStr` is a `const`, so the `errStr += ...` of the first failed check
   * throws and the checks after it never run. Street, zip code and city all
   * go through `IsNameValid`.
   */
  function FirstRejectedUserField(f: UserForm): (r: Option<UserField>)
    ensures r.None? <==> IsAcceptableUser(f)
    ensures r.Some? ==> !UserFieldPasses(f, r.value)
    ensures r.Some? ==> forall k | Rank(k) < Rank(r.value) :: UserFieldPasses(f, k)
  {
    if !IsEmailValid(f.email) then Some(Email)
    else if !IsPasswordValid(f.password) then Some(Password)
    else if !IsNameValid(f.name) then Some(Name)
    else if !IsNameValid(f.surname) then Some(Surname)
    else if !IsBdayValid(f.birthday) then Some(Birthday)
    else if !IsNameValid(f.street) then Some(Street)
    else if !IsNameValid(f.zipCode) then Some(ZipCode)
    else if !IsNameValid(f.city) then Some(City)
    else None
  }

  /** The position of `k`'s check in `createUser`. */
  function Rank(k: UserField): nat {
    match k
    case Email => 0
    case Password => 1
    case Name => 2
    case Surname => 3
    case Birthday => 4
    case Street => 5
    case ZipCode => 6
    case City => 7
  }

  /** The field that `k` names passes the validator `createUser` applies to it. */
  predicate UserFieldPasses(f: UserForm, k: UserField) {
    match k
    case Email => IsEmailValid(f.email)
    case Password => IsPasswordValid(f.password)
    case Name => IsNameValid(f.name)
    case Surname => IsNameValid(f.surname)
    case Birthday => IsBdayValid(f.birthday)
    case Street => IsNameValid(f.street)
    case ZipCode => IsNameValid(f.zipCode)
    case City => IsNameValid(f.city)
  }

  /** The field whose check fails first in `createSession`; the uid only has to be truthy. */
  function FirstRejectedSessionField(f: SessionForm): (r: Option<SessionField>)
    ensures r.None? <==> IsTruthyString(f.uid) && IsStartTimeValid(f.startTime) && IsEndTimeValid(f.startTime, f.endTime)
    ensures r == Some(UserId) ==> !IsTruthyString(f.uid)
    ensures r == Some(StartTime) ==> IsTruthyString(f.uid) && !IsStartTimeValid(f.startTime)
    ensures r == Some(EndTime) ==>
      IsTruthyString(f.uid) && IsStartTimeValid(f.startTime) && !IsEndTimeValid(f.startTime, f.endTime)
  {
    if !IsTruthyString(f.uid) then Some(UserId)
    else if !IsStartTimeValid(f.startTime) then Some(StartTime)
    else if !IsEndTimeValid(f.startTime, f.endTime) then Some(EndTime)
    else None
  }

  /** Every field of `f` passes the check `createUser` applies to it. */
  predicate IsAcceptableUser(f: UserForm) {
    && IsEmailValid(f.email) && IsPasswordValid(f.password)
    && IsNameValid(f.name) && IsNameValid(f.surname) && IsBdayValid(f.birthday)
    && IsNameValid(f.street) && IsNameValid(f.zipCode) && IsNameValid(f.city)
  }

  /** Why `createUser` stops before it calls the identity provider, if it does. */
  function UserPrecheck(request: Option<CallableRequest<UserForm>>): (r: Option<Cause>)
    ensures r.None? <==> request.Some? && request.value.data.Some? && IsAcceptableUser(request.value.data.value)
    ensures r.None? ==> var f := request.value.data.value;
      f.email.Present? && f.password.Present? && f.name.Present? && f.surname.Present?
      && f.birthday.Present? && f.street.Present? && f.zipCode.Present? && f.city.Present?
    ensures r.Some? ==> r.value.NullRequest? || r.value.NoData? || r.value.RejectedUserField?
    ensures request.None? ==> r == Some(NullRequest)
    ensures request.Some? && request.value.data.None? ==> r == Some(NoData)
    ensures request.Some? && request.value.data.Some? && r.Some? ==>
      r == Some(RejectedUserField(FirstRejectedUserField(request.value.data.value).value))
  {
    if request.None? then Some(NullRequest)
    else if request.value.data.None? then Some(NoData)
    else
      var failed := FirstRejectedUserField(request.value.data.value);
      if failed.Some? then Some(RejectedUserField(failed.value)) else None
  }

  /**
   * `sessionRef.where("startTime", ">=", lo).where("startTime", "<=", hi)`:
   * the stored sessions whose start lies in the closed interval `[lo, hi]`.
   */
  function StartTimeBetween(docs: seq<SessionDoc>, lo: int, hi: int): (r: seq<SessionDoc>)
    ensures forall d | d in r :: d in docs && lo <= d.startTime <= hi
    ensures forall i | 0 <= i < |docs| && lo <= docs[i].startTime <= hi :: docs[i] in r
  {
    if docs == [] then []
    else
      var rest := StartTimeBetween(docs[1..], lo, hi);
      assert forall i | 1 <= i < |docs| :: docs[i] == docs[1..][i - 1];
      if lo <= docs[0].startTime <= hi then [docs[0]] + rest else rest
  }

  /** Some stored session starts within `[lo, hi]`; where it ends plays no part. */
  predicate HasStartWithin(docs: seq<SessionDoc>, lo: int, hi: int) {
    exists i | 0 <= i < |docs| :: lo <= docs[i].startTime <= hi
  }

  /** The sessions stored under `uid`; a path with no documents reads as empty. */
  function SessionsAt(stored: map<Uid, seq<SessionDoc>>, uid: Uid): seq<SessionDoc> {
    if uid in stored then stored[uid] else []
  }

  /** Why `createSession` rejects `request` against the stored sessions, if it does. */
  function SessionRejection(request: Option<CallableRequest<SessionForm>>, stored: map<Uid, seq<SessionDoc>>): (r: Option<Cause>)
    ensures r.None? <==>
      && request.Some? && request.value.data.Some?
      && var f := request.value.data.value;
      && IsTruthyString(f.uid) && IsStartTimeValid(f.startTime) && IsEndTimeValid(f.startTime, f.endTime)
      && !HasStartWithin(SessionsAt(stored, f.uid.value), f.startTime.value, f.endTime.value)
    ensures r == Some(SessionAlreadyExists) <==>
      && request.Some? && request.value.data.Some?
      && var f := request.value.data.value;
      && IsTruthyString(f.uid) && IsStartTimeValid(f.startTime) && IsEndTimeValid(f.startTime, f.endTime)
      && HasStartWithin(SessionsAt(stored, f.uid.value), f.startTime.value, f.endTime.value)
  {
    if request.None? then Some(NullRequest)
    else if request.value.data.None? then Some(NoData)
    else
      var f := request.value.data.value;
      var failed := FirstRejectedSessionField(f);
      if failed.Some? then Some(RejectedSessionField(failed.value))
      else if HasStartWithin(SessionsAt(stored, f.uid.value), f.startTime.value, f.endTime.value) then Some(SessionAlreadyExists)
      else None
  }

  /** The document `createSession` writes: the given times and no breaks yet. */
  function NewSession(startTime: int, endTime: int): SessionDoc {
    SessionDoc(startTime, endTime, [], ServerTimestamp, ServerTimestamp)
  }

  /** The document `createUser` writes for a validated form. */
  function NewUser(f: UserForm): UserDoc
    requires f.name.Present? && f.surname.Present? && f.birthday.Present?
    requires f.street.Present? && f.zipCode.Present? && f.city.Present?
  {
    UserDoc(f.name.value, f.surname.value, f.birthday.value,
            f.street.value, f.zipCode.value, f.city.value,
            ServerTimestamp, ServerTimestamp)
  }

  // ---------------------------------------------------------------------
  // Properties of the decisions

  /** A form is accepted only if name, surname, street, zip code and city are one character each. */
  lemma AcceptedUserFieldsAreSingleCharacters(f: UserForm)
    requires IsAcceptableUser(f)
    ensures |f.name.value| == |f.surname.value| == |f.street.value| == 1
    ensures |f.zipCode.value| == |f.city.value| == 1
    ensures |f.password.value| >= 6 && |f.birthday.value| == 10
  {
  }

  /** The first two checks pass and the name is not one character: rejected at the name. */
  lemma RejectedAtName(f: UserForm)
    requires IsEmailValid(f.email) && IsPasswordValid(f.password)
    requires f.name.Present? && |f.name.value| != 1
    ensures UserPrecheck(Some(CallableRequest(Some(f)))) == Some(RejectedUserField(Name))
  {
  }

  /** The first six checks pass and the zip code fails: rejected at the zip code, the seventh check. */
  lemma RejectedAtZipCode(f: UserForm)
    requires IsEmailValid(f.email) && IsPasswordValid(f.password) && IsNameValid(f.name)
    requires IsNameValid(f.surname) && IsBdayValid(f.birthday) && IsNameValid(f.street)
    requires !IsNameValid(f.zipCode)
    ensures UserPrecheck(Some(CallableRequest(Some(f)))) == Some(RejectedUserField(ZipCode))
  {
  }

  /** The form of the repository's own success test. */
  const FixtureForm := UserForm(
    Present("test@example.com"), Present("password123"), Present("Speiyil"), Present("Buvi"),
    Present("01.01.1900"), Present("Albertusstrasse 53"), Present("72355"),
    Present("Sch\U{221A}\U{2202}mberg"))

  /** That form is rejected, at the name, so the test's expected success cannot happen. */
  lemma FixtureRejectedAtName()
    ensures UserPrecheck(Some(CallableRequest(Some(FixtureForm)))) == Some(RejectedUserField(Name))
  {
    TestAddressExample();
    PasswordExamples();
    RejectedAtName(FixtureForm);
  }

  /** A form with one-character names and street and a real five-digit zip code. */
  const BadZipCodeForm := UserForm(
    Present("user@example.com"), Present("abc123"), Present("A"), Present("\U{DC}"),
    Present("01.01.1900"), Present("7"), Present("72355"), Present("A"))

  /** That form is rejected at the zip code, after six checks passed. */
  lemma BadZipCodeFormRejected()
    ensures UserPrecheck(Some(CallableRequest(Some(BadZipCodeForm)))) == Some(RejectedUserField(ZipCode))
  {
    EmailExamples();
    PasswordExamples();
    NameExamples();
    BirthdayExamples();
    RejectedAtZipCode(BadZipCodeForm);
  }

  /**
   * `IsEndTimeValid` demands `endTime <= startTime`, so the query interval
   * `[startTime, endTime]` holds at most one instant: a session is rejected
   * as existing only when its start equals its end and a stored session of
   * the same user starts at exactly that instant.
   */
  lemma ConflictOnlyAtOneInstant(request: Option<CallableRequest<SessionForm>>, stored: map<Uid, seq<SessionDoc>>)
    requires SessionRejection(request, stored) == Some(SessionAlreadyExists)
    ensures var f := request.value.data.value;
      && f.startTime.value == f.endTime.value
      && exists i | 0 <= i < |SessionsAt(stored, f.uid.value)| ::
           SessionsAt(stored, f.uid.value)[i].startTime == f.startTime.value
  {
  }

  /** A session that ends before it starts is accepted whatever is stored, duplicates included. */
  lemma EarlierEndAlwaysAccepted(uid: Uid, startTime: int, endTime: int, stored: map<Uid, seq<SessionDoc>>)
    requires uid != "" && endTime != 0 && startTime != 0 && endTime < startTime
    ensures SessionRejection(
      Some(CallableRequest(Some(SessionForm(Present(uid), Present(startTime), Present(endTime))))), stored).None?
  {
  }

  /** `a` and `b` list sessions with the same start times, in the same order. */
  predicate SameStartTimes(a: seq<SessionDoc>, b: seq<SessionDoc>) {
    |a| == |b| && forall i | 0 <= i < |a| :: a[i].startTime == b[i].startTime
  }

  lemma StartWithinIgnoresEnds(a: seq<SessionDoc>, b: seq<SessionDoc>, lo: int, hi: int)
    requires SameStartTimes(a, b)
    ensures HasStartWithin(a, lo, hi) <==> HasStartWithin(b, lo, hi)
  {
    if HasStartWithin(a, lo, hi) {
      var i :| 0 <= i < |a| && lo <= a[i].startTime <= hi;
      assert lo <= b[i].startTime <= hi;
    }
    if HasStartWithin(b, lo, hi) {
      var i :| 0 <= i < |b| && lo <= b[i].startTime <= hi;
      assert lo <= a[i].startTime <= hi;
    }
  }

  /**
   * `createSession` decides on the stored start times alone: two stores whose
   * sessions under the request's uid start at the same times give the same
   * answer, whatever those sessions' end times are.
   */
  lemma StoredEndTimesIgnored(request: Option<CallableRequest<SessionForm>>,
                              a: map<Uid, seq<SessionDoc>>, b: map<Uid, seq<SessionDoc>>)
    requires request.Some? && request.value.data.Some? && request.value.data.value.uid.Present? ==>
      var uid := request.value.data.value.uid.value;
      SameStartTimes(SessionsAt(a, uid), SessionsAt(b, uid))
    ensures SessionRejection(request, a) == SessionRejection(request, b)
  {
    if request.Some? && request.value.data.Some? && request.value.data.value.uid.Present? {
      var f := request.value.data.value;
      if f.startTime.Present? && f.endTime.Present? {
        StartWithinIgnoresEnds(SessionsAt(a, f.uid.value), SessionsAt(b, f.uid.value),
                               f.startTime.value, f.endTime.value);
      }
    }
  }

  /**
   * The Firebase project as the two handlers see it. Calls are atomic: the
   * race between the conflict query and the session write is not modelled.
   */
  class Backend {
    /** The identity provider's accounts, by uid. */
    var accounts: map<Uid, Credentials>
    /** The `users` collection, by document id. */
    var users: map<Uid, UserDoc>
    /** The `sessions` subcollection of each `users/{uid}` path. */
    var sessions: map<Uid, seq<SessionDoc>>
    /** Every request made to the identity provider, in order. */
    ghost var identityRequests: seq<Credentials>

    /** Every user document is keyed by the uid of an account. */
    ghost predicate Valid()
      reads this
    {
      users.Keys <= accounts.Keys
    }

    constructor ()
      ensures Valid()
      ensures accounts == map[] && users == map[] && sessions == map[] && identityRequests == []
    {
      accounts, users, sessions := map[], map[], map[];
      identityRequests := [];
    }

    /**
     * `createUser`. `issued` is the identity provider's answer if it is asked:
     * a new uid, or `None` when it refuses (for instance an email already in
     * use). The provider hands out uids that it has not issued before.
     */
    method CreateUser(request: Option<CallableRequest<UserForm>>, issued: Option<Uid>)
      returns (r: Result<UserResponse, HttpsError>)
      requires Valid()
      requires issued.Some? ==> issued.value !in accounts
      modifies this
      ensures Valid() && sessions == old(sessions)
      ensures r.Err? ==> r.error.code == Internal
      ensures UserPrecheck(request).Some? ==>
        && r == Err(Caught(UserPrecheck(request).value))
        && identityRequests == old(identityRequests)
        && accounts == old(accounts) && users == old(users)
      ensures UserPrecheck(request).None? ==>
        var f := request.value.data.value;
        && identityRequests == old(identityRequests) + [Credentials(f.email.value, f.password.value)]
        && (issued.None? ==>
              r == Err(Caught(IdentityRejected)) && accounts == old(accounts) && users == old(users))
        && (issued.Some? ==>
              var uid := issued.value;
              && r == Ok(UserResponse(true, uid, f.name.value, f.surname.value, f.birthday.value,
                                      f.street.value, f.zipCode.value, f.city.value))
              && accounts == old(accounts)[uid := Credentials(f.email.value, f.password.value)]
              && uid !in old(users)
              && users == old(users)[uid := NewUser(f)])
    {
      if request.None? {
        return Err(Caught(NullRequest));
      }
      if request.value.data.None? {
        return Err(Caught(NoData));
      }
      var data := request.value.data.value;
      var email, password, name, surname := data.email, data.password, data.name, data.surname;
      var birthday, street, zipCode, city := data.birthday, data.street, data.zipCode, data.city;

      // The first failed check throws; the ones after it never run.
      var failed: Option<UserField> := None;
      if !IsEmailValid(email) {
        failed := Some(Email);
      } else if !IsPasswordValid(password) {
        failed := Some(Password);
      } else if !IsNameValid(name) {
        failed := Some(Name);
      } else if !IsNameValid(surname) {
        failed := Some(Surname);
      } else if !IsBdayValid(birthday) {
        failed := Some(Birthday);
      } else if !IsNameValid(street) {
        failed := Some(Street);
      } else if !IsNameValid(zipCode) {
        failed := Some(ZipCode);
      } else if !IsNameValid(city) {
        failed := Some(City);
      }
      if failed.Some? {
        return Err(Caught(RejectedUserField(failed.value)));
      }

      identityRequests := identityRequests + [Credentials(email.value, password.value)];
      if issued.None? {
        return Err(Caught(IdentityRejected));
      }
      var uid := issued.value;
      accounts := accounts[uid := Credentials(email.value, password.value)];
      users := users[uid := UserDoc(name.value, surname.value, birthday.value,
                                    street.value, zipCode.value, city.value,
                                    ServerTimestamp, ServerTimestamp)];
      return Ok(UserResponse(true, uid, name.value, surname.value, birthday.value,
                             street.value, zipCode.value, city.value));
    }

    /** `createSession`. */
    method CreateSession(request: Option<CallableRequest<SessionForm>>)
      returns (r: Result<SessionResponse, HttpsError>)
      requires Valid()
      modifies this
      ensures Valid()
      ensures accounts == old(accounts) && users == old(users) && identityRequests == old(identityRequests)
      ensures r.Err? ==> r.error.code == Internal
      ensures SessionRejection(request, old(sessions)).Some? ==>
        r == Err(Caught(SessionRejection(request, old(sessions)).value)) && sessions == old(sessions)
      ensures SessionRejection(request, old(sessions)).None? ==>
        var f := request.value.data.value;
        var uid := f.uid.value;
        && r == Ok(SessionResponse(true))
        && sessions == old(sessions)[uid := SessionsAt(old(sessions), uid) + [NewSession(f.startTime.value, f.endTime.value)]]
    {
      if request.None? {
        return Err(Caught(NullRequest));
      }
      if request.value.data.None? {
        return Err(Caught(NoData));
      }
      var data := request.value.data.value;
      var uid, startTime, endTime := data.uid, data.startTime, data.endTime;

      var failed: Option<SessionField> := None;
      if !IsTruthyString(uid) {
        failed := Some(UserId);
      } else if !IsStartTimeValid(startTime) {
        failed := Some(StartTime);
      } else if !IsEndTimeValid(startTime, endTime) {
        failed := Some(EndTime);
      }
      if failed.Some? {
        return Err(Caught(RejectedSessionField(failed.value)));
      }

      var stored := SessionsAt(sessions, uid.value);
      var matching := StartTimeBetween(stored, startTime.value, endTime.value);
      var snapshot := if |matching| <= 1 then matching else matching[..1];  // `.limit(1)`
      if |snapshot| != 0 {
        ghost var i :| 0 <= i < |stored| && stored[i] == matching[0];
        assert HasStartWithin(stored, startTime.value, endTime.value);
        return Err(Caught(SessionAlreadyExists));
      }
      assert !HasStartWithin(stored, startTime.value, endTime.value);

      sessions := sessions[uid.value := stored + [NewSession(startTime.value, endTime.value)]];
      return Ok(SessionResponse(true));
    }
  }

  /** One user, the same session twice: both calls succeed and both sessions are stored. */
  method DuplicateSessionScenario() {
    var backend := new Backend();
    var request := Some(CallableRequest(Some(SessionForm(Present("u1"), Present(2000), Present(1000)))));
    EarlierEndAlwaysAccepted("u1", 2000, 1000, backend.sessions);
    var first := backend.CreateSession(request);
    EarlierEndAlwaysAccepted("u1", 2000, 1000, backend.sessions);
    var second := backend.CreateSession(request);
    assert first.Ok? && second.Ok?;
    assert backend.sessions["u1"] == [NewSession(2000, 1000), NewSession(2000, 1000)];
  }
}
