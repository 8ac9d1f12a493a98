# Stundenmanager backend: validators and callable handlers

A Dafny model of `functions/index.js` of the Stundenmanager backend. That file holds two
Firebase callable functions and the field validators they use:

- `createUser` checks eight form fields, asks the identity provider for an account, then
  writes one document to the `users` collection, keyed by the new uid.
- `createSession` checks a uid and a start and end time, queries the user's `sessions`
  subcollection for a session that starts inside `[startTime, endTime]`, and if none is
  found, adds a session with an empty `breaks` list. The source calls `set` on the
  collection reference itself at functions/index.js:171. The model follows the evident
  intent and appends the session (see "Left out").

The model pins down what this code accepts, which is not always what the names suggest:

- `isNameValid` accepts exactly one character. It is also used for surname, street, zip code
  and city. So every form with a real name is rejected, including the one in the repository's
  own success test (`FixtureRejectedAtName`).
- `isZipCodeValid` checks only a five-digit prefix, because its pattern has no `$`.
  `createUser` never calls it.
- `isBdayValid` checks the `DD.MM.YYYY` shape and does no calendar check.
- `isEndTimeValid` requires `endTime <= startTime`. As a result, the conflict query's interval
  holds at most one instant. A session is reported as existing only when its start equals its
  end (`ConflictOnlyAtOneInstant`). A session that ends before it starts always passes the
  conflict check, even an exact duplicate, so in the model it is appended again
  (`EarlierEndAlwaysAccepted`, `DuplicateSessionScenario`).
- `errStr` is declared `const`. The `errStr += …` of the first failed check therefore throws a
  TypeError, and no later check runs. The `invalid-argument` error is never raised.
- Every exception thrown inside either handler ends in the handler's `catch`. The handler then
  rethrows it with the `internal` code.

Files:

- `wrappers.dfy`: `Option` and `Result`.
- `js_values.dfy`: request fields as JavaScript values (`undefined`, `null`, or a value), with
  truthiness and the numeric coercion of `-`. An undefined operand becomes NaN and null
  becomes 0.
- `patterns.dfy`: the regular-expression fragment the validators use. A pattern is anchored
  with `^` and is a sequence of character classes with `{min,max}` repetition, optionally
  anchored with `$`. `test` is modelled as "some split of the input into runs exists".
- `validators.dfy`: the validators. Each body is the source's test on its pattern. Each
  postcondition states, character by character, which strings pass. Lemmas prove the two
  agree.
- `handlers.dfy`: the two handlers as methods of a `Backend` class. The class holds the
  identity provider's accounts, the `users` collection and the per-uid `sessions`
  subcollections. The decisions are also given as functions (`UserPrecheck`,
  `SessionRejection`) that the methods are proved against.

The identity provider is an oracle. `CreateUser` takes its answer as a parameter: a fresh uid,
or a refusal. A ghost log of provider requests records whether the provider was asked.
`serverTimestamp()` is an opaque sentinel value. Times are integer epoch milliseconds.

## Model

| member | source | states |
|---|---|---|
| Validators.IsEmailValid | functions/index.js:84-91 | true iff the value is a string with no JavaScript whitespace, exactly one `@` with at least one character before it, and a `.` in the part after the `@` that is neither its first nor its last character; undefined, null and "" are false |
| Validators.EmailPatternAccepts | functions/index.js:87-88 | `/^[^\s@]+@[^\s@]+\.[^\s@]+$/` matches a string iff it has the shape above |
| Validators.IsPasswordValid | functions/index.js:93-100 | true iff at least 6 characters, each an ASCII letter, an ASCII digit or one of äöüÄÖÜ (`ß` and punctuation fail) |
| Validators.IsNameValid | functions/index.js:102-109 | true iff the string is exactly one character from `[a-zA-Z0-9äöüÄÖÜ]` |
| Validators.IsBdayValid | functions/index.js:111-118 | true iff exactly 10 characters, `.` at indices 2 and 5, ASCII digits elsewhere |
| Validators.BirthdayPatternAccepts | functions/index.js:114-115 | `/^\d{2}\.\d{2}\.\d{4}$/` matches a string iff it has the `DD.MM.YYYY` digit shape |
| Validators.IsZipCodeValid | functions/index.js:129-136 | true iff at least 5 characters and the first five are ASCII digits; the rest is unconstrained |
| Validators.ZipCodePatternAccepts | functions/index.js:132-133 | `/^[0-9]{5,7}/`, which has no `$` anchor, matches iff the string starts with five digits |
| Validators.IsStartTimeValid | functions/index.js:191-194 | true iff the start time is present and non-zero |
| Validators.IsEndTimeValid | functions/index.js:196-200 | true iff the end time is present, non-zero and not after the start; an undefined start (NaN difference) lets any truthy end pass, a null start only a negative one |
| Validators.PlainAddressIsValid | functions/index.js:84-91 | every `local@host.tld` whose three parts are non-empty and hold no whitespace and no `@` passes |
| Validators.EmailExamples | functions/index.js:84-91 | `user@example.com` passes; "", null and undefined fail |
| Validators.TestAddressExample | functions/index.js:84-91 | `test@example.com` passes |
| Validators.EmailDomainExamples | functions/index.js:84-91 | `user@example` (no dot) and `user@.com` (dot first in the domain) fail |
| Validators.EmailCharacterExamples | functions/index.js:84-91 | an address with a space and one with a second `@` fail |
| Validators.PasswordExamples | functions/index.js:93-100 | `abc123`, `password123` and umlauts pass; `ab1`, `ß` and `!` fail |
| Validators.NameExamples | functions/index.js:102-109 | one letter, digit or umlaut passes; `Speiyil`, `72355`, a street with a space, `ß` and "" fail |
| Validators.BirthdayExamples | functions/index.js:111-118 | `01.01.1900` and `99.99.9999` pass; `1.1.1900` and `2024-01-01` fail |
| Validators.ZipCodeExamples | functions/index.js:129-136 | `72355`, `12345abc` and `123456789` pass; `1234` and `abc12345` fail |
| Validators.TimeExamples | functions/index.js:191-200 | end 2000 after start 1000 fails; end equal to or before the start passes; 0 and null starts fail |
| Handlers.FirstRejectedUserField | functions/index.js:17-41 | no field is reported iff all eight fields pass their validators (street, zip code and city through `isNameValid`); a reported field fails its validator and every field checked before it, in source order, passes |
| Handlers.FirstRejectedSessionField | functions/index.js:145-154 | no field is reported iff the uid is truthy and both time checks pass; the uid is reported only when it is falsy, the start time only when the uid passed and the start time fails, the end time only when both earlier checks passed and the end time check fails |
| Handlers.UserPrecheck | functions/index.js:13-43 | `createUser` goes past its checks iff the request and its data are present and all eight fields pass their validators (street, zip code and city through `isNameValid`); all eight fields are then present; a null request stops with the null-request error, a missing payload with the TypeError of reading it, and otherwise a failure names the first field whose check fails, in source order |
| Handlers.AcceptedUserFieldsAreSingleCharacters | functions/index.js:25-41 | an accepted form has one-character name, surname, street, zip code and city, a 10-character birthday and a password of at least 6 characters |
| Handlers.RejectedAtName | functions/index.js:19-26 | valid email and password with a name that is not one character: rejected at the name |
| Handlers.RejectedAtZipCode | functions/index.js:19-38 | six passing checks then a failing zip code: rejected at the zip code |
| Handlers.FixtureRejectedAtName | functions/test.js:29-40 | the success test's form is rejected at its name `Speiyil` |
| Handlers.BadZipCodeFormRejected | functions/index.js:37-38 | a form whose names and street are one character each is still rejected, at its five-digit zip code `72355` |
| Handlers.StartTimeBetween | functions/index.js:161-164 | the query result holds exactly the stored sessions whose start lies in `[lo, hi]` |
| Handlers.SessionRejection | functions/index.js:141-168 | `createSession` accepts iff request and data are present, uid truthy, both time checks pass and no stored session of that uid starts in `[startTime, endTime]`; it reports an existing session iff the checks pass and such a session exists |
| Handlers.ThrownCode | functions/index.js:141-167 | what is thrown inside the `try` carries a code iff it is the null-request error (also thrown by `createUser` at functions/index.js:13-15) or the session-exists error, and the null-request code iff it is the former; the missing payload, the rejected-field TypeError and the provider failure carry none; `invalid-argument` (the first failed check throws a TypeError first) and `internal` never occur |
| Handlers.Caught | functions/index.js:78-81 | the caller always receives code `internal`, never the code thrown inside the `try`, with the thrown failure as detail |
| Handlers.ConflictOnlyAtOneInstant | functions/index.js:150-168 | a session is rejected as existing only if its start equals its end and a stored session of the same uid starts at that instant |
| Handlers.EarlierEndAlwaysAccepted | functions/index.js:147-168 | with a uid, a non-zero start and an end before it, the session is accepted whatever is stored |
| Handlers.StoredEndTimesIgnored | functions/index.js:161-168 | two stores whose sessions under the request's uid have the same start times get the same `createSession` decision, whatever those sessions' end times |
| Handlers.Backend.CreateUser | functions/index.js:10-82 | every failure has code `internal`; a failed check leaves accounts and users unchanged and the provider is not asked; otherwise the provider is asked once with email and password; on refusal nothing is written; on success exactly one new user document (name, surname, birthday, street, zipCode, city, two server timestamps; no email, password or role) is added under the fresh uid and the response echoes uid and the six fields; sessions never change |
| Handlers.Backend.CreateSession | functions/index.js:138-188 | every failure has code `internal` and changes nothing; on acceptance exactly one session (given times, empty breaks, two server timestamps) is appended under the uid and every other uid's sessions, accounts and users are unchanged |

## Left out

- `isStreetValid` (functions/index.js:120-127) is never called. It also tests an undeclared `regex`, so any non-empty input throws. It is not modelled.
- `isBreaksValid` (functions/index.js:202-204) always returns true and is never called. It is not modelled.
- Firebase plumbing is replaced by the `Backend` state and the provider's answer. This covers `onCall`, `initializeApp`, `logger`, `admin.auth()` and the Firestore references. Log output is not modelled.
- Failures of Firestore itself (a failed query or a failed write) are not modelled. So the identity that would be orphaned when the user write fails after the account exists is not modelled either.
- The session write at functions/index.js:171 calls `set` on a `CollectionReference` (from functions/index.js:158). That class has no `set` method, so as written the call throws a TypeError, the `catch` rethrows it as `internal`, and no session is ever stored. The model follows the evident intent instead and appends one session to that user's sequence. So `Backend.CreateSession`'s success branch, `EarlierEndAlwaysAccepted`'s "stored" reading and `DuplicateSessionScenario` describe that intent, not the code as written.
- The order in which Firestore returns query results is not modelled. Only whether the one-element snapshot is empty matters. Stored sessions are kept in insertion order.
- Error messages, and the string values of the error codes in `constants.json`, are not modelled. That file is not part of this model. The codes are distinct names.
- ThrownCode: assumes that the codes named at functions/index.js:14, 142 and 167 exist in `constants.json` and are accepted by the `HttpsError` constructor. That file is not part of this model, so this cannot be confirmed. `ERRO_CODE_SESSION_EXISTS` looks misspelled; if it is undefined, the throw at line 167 raises a different error. The caller still receives `internal` either way, because the `catch` rethrows whatever was thrown.
- The `errStr != ""` tests (functions/index.js:43, 156) are not modelled as branches. When they are reached, every check has passed and `errStr` is still empty.
- Request fields are modelled as strings (or integers for times), or as undefined or null. A value of another JavaScript type, which `test` would convert to a string, is not modelled. Neither are floating-point times, NaN sent by a client, or infinities.
- Strings are sequences of Unicode scalar values, not UTF-16 code units. For these patterns the two give the same answers: no class accepts a non-BMP character except `[^\s@]`, and there only the count of such characters could differ, and the email pattern needs one or more of them, not an exact number.
- Concurrency: each call is atomic. So the race between the conflict query and the write is not modelled.
- `functions/test.js` is a stubbed harness. Only its request form is used, in `FixtureRejectedAtName`.
