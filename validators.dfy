/**
 * The field validators of the callable functions. Each one is the source's
 * guard `if (!x) return false;` followed by one regular-expression test (or,
 * for the time fields, one comparison). The body of each validator below is
 * that test on the pattern as written; its postcondition states, character
 * by character, which strings the pattern accepts.
 */
module Validators {
  import opened Wrappers
  import opened JsValues
  import opened Patterns

  /** `[^\s@]+` */
  const Run := Piece(NotSpaceNorAt, 1, None)
  /** `@` */
  const AtSign := Piece(Literal('@'), 1, Some(1))
  /** `\.` */
  const DotSign := Piece(Literal('.'), 1, Some(1))

  /** `\d{2}` and `\d{4}` */
  const TwoDigits := Piece(Digit, 2, Some(2))
  const FourDigits := Piece(Digit, 4, Some(4))

  /** `/^[^\s@]+@[^\s@]+\.[^\s@]+$/` */
  const EmailPattern := Pattern([Run, AtSign, Run, DotSign, Run], true)

  /** `/^[a-zA-Z0-9äöüÄÖÜ]{6,}$/` */
  const PasswordPattern := Pattern([Piece(Alnum, 6, None)], true)

  /** `/^[a-zA-Z0-9äöüÄÖÜ]$/`: one character, no repetition. */
  const NamePattern := Pattern([Piece(Alnum, 1, Some(1))], true)

  /** `/^\d{2}\.\d{2}\.\d{4}$/` */
  const BirthdayPattern := Pattern([TwoDigits, DotSign, TwoDigits, DotSign, FourDigits], true)

  /** `/^[0-9]{5,7}/`: no `$`, so only a prefix has to match. */
  const ZipCodePattern := Pattern([Piece(Digit, 5, Some(7))], false)

  /** `[a-zA-Z0-9äöüÄÖÜ]`: ASCII letters and digits and the six umlauts; no `ß`. */
  predicate IsWordChar(c: char) {
    InClass(Alnum, c)
  }

  predicate HasNoWhitespace(s: string) {
    forall i | 0 <= i < |s| :: !IsJsWhitespace(s[i])
  }

  /** `s[at]` is the one and only `@` in `s`. */
  predicate IsOnlyAtSign(s: string, at: int) {
    0 <= at < |s| && s[at] == '@' && forall i | 0 <= i < |s| && i != at :: s[i] != '@'
  }

  /** `d` has a `.` that is neither its first nor its last character. */
  predicate HasInnerDot(d: string) {
    exists j | 0 < j < |d| - 1 :: d[j] == '.'
  }

  /**
   * No whitespace; exactly one `@`, with something before it; and a domain
   * after it that holds a `.` other than at its ends.
   */
  predicate IsEmailShaped(s: string) {
    && HasNoWhitespace(s)
    && exists at | 0 < at < |s| :: IsOnlyAtSign(s, at) && HasInnerDot(s[at + 1..])
  }

  /** `DD.MM.YYYY` in digits, with no check that it is a calendar date. */
  predicate IsBirthdayShaped(s: string) {
    && |s| == 10 && s[2] == '.' && s[5] == '.'
    && forall i | 0 <= i < 10 && i != 2 && i != 5 :: IsAsciiDigit(s[i])
  }

  /** At least five characters, the first five of them ASCII digits. */
  predicate HasZipCodePrefix(s: string) {
    |s| >= 5 && forall i | 0 <= i < 5 :: IsAsciiDigit(s[i])
  }

  function IsEmailValid(email: Field<string>): (r: bool)
    ensures r <==> email.Present? && IsEmailShaped(email.value)
  {
    if !IsTruthyString(email) then false
    else EmailPatternAccepts(email.value); Test(EmailPattern, email.value)
  }

  function IsPasswordValid(password: Field<string>): (r: bool)
    ensures r <==> password.Present? && |password.value| >= 6
                   && forall i | 0 <= i < |password.value| :: IsWordChar(password.value[i])
  {
    if !IsTruthyString(password) then false
    else LastStep(PasswordPattern.pieces[0], password.value); Test(PasswordPattern, password.value)
  }

  /** Also used for surname, street, zip code and city by `createUser`. */
  function IsNameValid(name: Field<string>): (r: bool)
    ensures r <==> name.Present? && |name.value| == 1 && IsWordChar(name.value[0])
  {
    if !IsTruthyString(name) then false
    else LastStep(NamePattern.pieces[0], name.value); Test(NamePattern, name.value)
  }

  function IsBdayValid(birthday: Field<string>): (r: bool)
    ensures r <==> birthday.Present? && IsBirthdayShaped(birthday.value)
  {
    if !IsTruthyString(birthday) then false
    else BirthdayPatternAccepts(birthday.value); Test(BirthdayPattern, birthday.value)
  }

  /** Defined beside the others, though `createUser` checks the zip code with `IsNameValid`. */
  function IsZipCodeValid(zipCode: Field<string>): (r: bool)
    ensures r <==> zipCode.Present? && HasZipCodePrefix(zipCode.value)
  {
    if !IsTruthyString(zipCode) then false
    else ZipCodePatternAccepts(zipCode.value); Test(ZipCodePattern, zipCode.value)
  }

  /** `!!startTime`. */
  function IsStartTimeValid(startTime: Field<int>): (r: bool)
    ensures r <==> startTime.Present? && startTime.value != 0
  {
    IsTruthyNumber(startTime)
  }

  /**
   * `endTime` truthy and not `startTime - endTime < 0`. The comparison is
   * the reverse of "ends after it starts": the end may not lie after the
   * start. An undefined start makes the difference NaN, which is never
   * below zero, and a null start counts as 0.
   */
  function IsEndTimeValid(startTime: Field<int>, endTime: Field<int>): (r: bool)
    ensures r <==> endTime.Present? && endTime.value != 0 &&
                   match startTime
                   case Undefined => true
                   case Null => endTime.value < 0
                   case Present(s) => endTime.value <= s
  {
    if !IsTruthyNumber(endTime) then false
    else if LessThan(Subtract(ToNumber(startTime), ToNumber(endTime)), Some(0)) then false
    else true
  }

  // ---------------------------------------------------------------------
  // What the patterns accept

  /** `[^\s@]+\.[^\s@]+`: the domain part of an address. */
  lemma DomainPatternAccepts(d: string)
    ensures MatchesAll([Run, DotSign, Run], d) <==> AllIn(NotSpaceNorAt, d) && HasInnerDot(d)
  {
    assert [Run, DotSign, Run] == [Run] + ([DotSign] + [Run]);
    Unfold(Run, [DotSign] + [Run], d);
    if MatchesAll([Run, DotSign, Run], d) {
      var k :| 0 <= k <= |d| && Fits(Run, d[..k]) && MatchesAll([DotSign] + [Run], d[k..]);
      DomainAfterRun(d, k);
    }
    if AllIn(NotSpaceNorAt, d) && HasInnerDot(d) {
      var j :| 0 < j < |d| - 1 && d[j] == '.';
      DomainAfterRun(d, j);
      AllInSplit(NotSpaceNorAt, d, j);
      assert Fits(Run, d[..j]);
    }
  }

  /** The domain once its first run, `d[..k]`, is consumed. */
  lemma DomainAfterRun(d: string, k: nat)
    requires k <= |d|
    ensures Fits(Run, d[..k]) && MatchesAll([DotSign] + [Run], d[k..]) ==>
      AllIn(NotSpaceNorAt, d) && 0 < k < |d| - 1 && d[k] == '.'
    ensures AllIn(NotSpaceNorAt, d) && 0 < k < |d| - 1 && d[k] == '.' ==>
      MatchesAll([DotSign] + [Run], d[k..])
  {
    FixedStep(DotSign, [Run], d[k..]);
    if k < |d| {
      assert d[k..][1..] == d[k + 1..];
      LastStep(Run, d[k + 1..]);
      assert d[k..][..1] == [d[k]];
      AllInSplit(NotSpaceNorAt, d, k);
      AllInSplit(NotSpaceNorAt, d[k..], 1);
    }
  }

  /** The address splits at an `@` into two runs of `[^\s@]`, the second with an inner dot. */
  predicate IsEmailSplit(s: string, at: int) {
    && 0 < at < |s| && s[at] == '@'
    && AllIn(NotSpaceNorAt, s[..at]) && AllIn(NotSpaceNorAt, s[at + 1..])
    && HasInnerDot(s[at + 1..])
  }

  /** A match of the email pattern splits at its `@`. */
  lemma EmailMatchSplits(s: string)
    requires MatchesAll(EmailPattern.pieces, s)
    ensures exists at :: IsEmailSplit(s, at)
  {
    var domain := [Run, DotSign, Run];
    assert EmailPattern.pieces == [Run] + ([AtSign] + domain);
    Unfold(Run, [AtSign] + domain, s);
    var k :| 0 <= k <= |s| && Fits(Run, s[..k]) && MatchesAll([AtSign] + domain, s[k..]);
    FixedStep(AtSign, domain, s[k..]);
    assert s[k..][1..] == s[k + 1..];
    DomainPatternAccepts(s[k + 1..]);
    assert s[k] == s[k..][..1][0];
    assert IsEmailSplit(s, k);
  }

  /** A split at an `@` is a match of the email pattern. */
  lemma EmailSplitMatches(s: string, at: int)
    requires IsEmailSplit(s, at)
    ensures MatchesAll(EmailPattern.pieces, s)
  {
    var domain := [Run, DotSign, Run];
    assert EmailPattern.pieces == [Run] + ([AtSign] + domain);
    Unfold(Run, [AtSign] + domain, s);
    assert s[at..][1..] == s[at + 1..];
    DomainPatternAccepts(s[at + 1..]);
    assert AllIn(AtSign.cls, s[at..][..1]);
    FixedStep(AtSign, domain, s[at..]);
    assert Fits(Run, s[..at]);
  }

  lemma EmailSplitIsShape(s: string, at: int)
    ensures IsEmailSplit(s, at) <==>
      0 < at < |s| && HasNoWhitespace(s) && IsOnlyAtSign(s, at) && HasInnerDot(s[at + 1..])
  {
    if 0 < at < |s| {
      forall i | 0 <= i < |s| && i != at
        ensures InClass(NotSpaceNorAt, s[i]) <==> (!IsJsWhitespace(s[i]) && s[i] != '@')
      {
      }
      if IsEmailSplit(s, at) {
        forall i | 0 <= i < |s| ensures !IsJsWhitespace(s[i]) && (i != at ==> s[i] != '@') {
          if i < at { assert s[i] == s[..at][i]; }
          else if i > at { assert s[i] == s[at + 1..][i - at - 1]; }
        }
      }
      if HasNoWhitespace(s) && IsOnlyAtSign(s, at) {
        forall i | 0 <= i < at ensures InClass(NotSpaceNorAt, s[..at][i]) {
          assert s[..at][i] == s[i];
        }
        var domain := s[at + 1..];
        forall i | 0 <= i < |domain| ensures InClass(NotSpaceNorAt, domain[i]) {
          assert domain[i] == s[at + 1 + i];
        }
      }
    }
  }

  lemma {:induction false} EmailPatternAccepts(s: string)
    ensures Test(EmailPattern, s) <==> IsEmailShaped(s)
  {
    if MatchesAll(EmailPattern.pieces, s) {
      EmailMatchSplits(s);
      var at :| IsEmailSplit(s, at);
      EmailSplitIsShape(s, at);
    }
    if IsEmailShaped(s) {
      var at :| 0 < at < |s| && IsOnlyAtSign(s, at) && HasInnerDot(s[at + 1..]);
      EmailSplitIsShape(s, at);
      EmailSplitMatches(s, at);
    }
  }

  /** `\.\d{4}$`: the year with its separator. */
  lemma YearAccepts(t: string)
    ensures MatchesAll([DotSign] + [FourDigits], t) <==>
      |t| == 5 && t[0] == '.' && forall i | 1 <= i < 5 :: IsAsciiDigit(t[i])
  {
    FixedStep(DotSign, [FourDigits], t);
    if |t| >= 1 {
      LastStep(FourDigits, t[1..]);
      assert t[..1] == [t[0]];
      assert forall i | 1 <= i < |t| :: t[1..][i - 1] == t[i];
    }
  }

  /** `\d{2}\.\d{4}$`: the month digits and the year with its separator. */
  lemma MonthDigitsAccept(t: string)
    ensures MatchesAll([TwoDigits] + ([DotSign] + [FourDigits]), t) <==>
      |t| == 7 && t[2] == '.' && forall i | 0 <= i < 7 && i != 2 :: IsAsciiDigit(t[i])
  {
    FixedStep(TwoDigits, [DotSign] + [FourDigits], t);
    if |t| >= 2 {
      YearAccepts(t[2..]);
      assert forall i | 0 <= i < 2 :: t[..2][i] == t[i];
      assert forall i | 2 <= i < |t| :: t[2..][i - 2] == t[i];
    }
  }

  /** `\.\d{2}\.\d{4}$`: the month and the year with their separators. */
  lemma MonthYearAccepts(t: string)
    ensures MatchesAll([DotSign] + ([TwoDigits] + ([DotSign] + [FourDigits])), t) <==>
      |t| == 8 && t[0] == '.' && t[3] == '.' && forall i | 1 <= i < 8 && i != 3 :: IsAsciiDigit(t[i])
  {
    FixedStep(DotSign, [TwoDigits] + ([DotSign] + [FourDigits]), t);
    if |t| >= 1 {
      MonthDigitsAccept(t[1..]);
      assert t[..1] == [t[0]];
      assert forall i | 1 <= i < |t| :: t[1..][i - 1] == t[i];
    }
  }

  lemma BirthdayPatternAccepts(s: string)
    ensures Test(BirthdayPattern, s) <==> IsBirthdayShaped(s)
  {
    assert BirthdayPattern.pieces ==
      [TwoDigits] + ([DotSign] + ([TwoDigits] + ([DotSign] + [FourDigits])));
    FixedStep(TwoDigits, [DotSign] + ([TwoDigits] + ([DotSign] + [FourDigits])), s);
    if |s| >= 2 {
      MonthYearAccepts(s[2..]);
      assert forall i | 0 <= i < 2 :: s[..2][i] == s[i];
      assert forall i | 2 <= i < |s| :: s[2..][i - 2] == s[i];
    }
  }

  lemma ZipCodePatternAccepts(s: string)
    ensures Test(ZipCodePattern, s) <==> HasZipCodePrefix(s)
  {
    var p := ZipCodePattern.pieces[0];
    if Test(ZipCodePattern, s) {
      var n :| 0 <= n <= |s| && MatchesAll([p], s[..n]);
      LastStep(p, s[..n]);
      assert forall i | 0 <= i < 5 :: s[i] == s[..n][i];
    }
    if HasZipCodePrefix(s) {
      LastStep(p, s[..5]);
      assert MatchesAll([p], s[..5]);
    }
  }
  // ---------------------------------------------------------------------
  // What the validators accept and reject, on sample inputs

  /** `local@host.tld` passes when its three parts are non-empty runs of `[^\s@]`. */
  lemma PlainAddressIsValid(local: string, host: string, tld: string)
    requires local != "" && host != "" && tld != ""
    requires AllIn(NotSpaceNorAt, local) && AllIn(NotSpaceNorAt, host) && AllIn(NotSpaceNorAt, tld)
    ensures IsEmailValid(Present(local + "@" + host + "." + tld))
  {
    var s := local + "@" + host + "." + tld;
    var at := |local|;
    var domain := host + "." + tld;
    assert s[..at] == local && s[at] == '@' && s[at + 1..] == domain;
    AllInSplit(NotSpaceNorAt, domain, |host|);
    assert domain[..|host|] == host && domain[|host|..] == "." + tld;
    AllInSplit(NotSpaceNorAt, "." + tld, 1);
    assert ("." + tld)[1..] == tld;
    assert domain[|host|] == '.';
    EmailSplitMatches(s, at);
  }

  lemma EmailExamples()
    ensures IsEmailValid(Present("user@example.com"))
    ensures !IsEmailValid(Present("")) && !IsEmailValid(Null) && !IsEmailValid(Undefined)
  {
    var s := "user@example.com";
    assert IsOnlyAtSign(s, 4) && s[5..][7] == '.';
  }

  /** The address of the repository's own test form. */
  lemma TestAddressExample()
    ensures IsEmailValid(Present("test@example.com"))
  {
    var s := "test@example.com";
    assert IsOnlyAtSign(s, 4) && s[5..][7] == '.';
  }

  /** The domain needs a dot with something on both sides. */
  lemma EmailDomainExamples()
    ensures !IsEmailValid(Present("user@example"))
    ensures !IsEmailValid(Present("user@.com"))
  {
  }

  /** No whitespace and no second `@`, anywhere. */
  lemma EmailCharacterExamples()
    ensures !IsEmailValid(Present("us er@example.com"))
    ensures !IsEmailValid(Present("a@b@example.com"))
  {
    var u := "us er@example.com";
    assert IsJsWhitespace(u[2]);
    var t := "a@b@example.com";
    assert t[1] == '@' && t[3] == '@';
  }

  lemma PasswordExamples()
    ensures IsPasswordValid(Present("abc123")) && IsPasswordValid(Present("password123"))
    ensures IsPasswordValid(Present("\U{C4}\U{F6}\U{FC}abc"))
    ensures !IsPasswordValid(Present("ab1"))
    ensures !IsPasswordValid(Present("stra\U{DF}e1"))
    ensures !IsPasswordValid(Present("abc12!"))
  {
    assert !IsWordChar("stra\U{DF}e1"[4]);
    assert !IsWordChar("abc12!"[5]);
  }

  /** The test fixture's name, street and zip code are all rejected: only one character passes. */
  lemma NameExamples()
    ensures IsNameValid(Present("A")) && IsNameValid(Present("7")) && IsNameValid(Present("\U{DC}"))
    ensures !IsNameValid(Present("Speiyil"))
    ensures !IsNameValid(Present("72355"))
    ensures !IsNameValid(Present("Albertusstrasse 53"))
    ensures !IsNameValid(Present("\U{DF}")) && !IsNameValid(Present(""))
  {
  }

  lemma BirthdayExamples()
    ensures IsBdayValid(Present("01.01.1900"))
    ensures IsBdayValid(Present("99.99.9999"))
    ensures !IsBdayValid(Present("1.1.1900"))
    ensures !IsBdayValid(Present("2024-01-01"))
  {
    assert "2024-01-01"[2] != '.';
  }

  lemma ZipCodeExamples()
    ensures IsZipCodeValid(Present("72355"))
    ensures IsZipCodeValid(Present("12345abc"))
    ensures IsZipCodeValid(Present("123456789"))
    ensures !IsZipCodeValid(Present("1234"))
    ensures !IsZipCodeValid(Present("abc12345"))
  {
    assert !IsAsciiDigit("abc12345"[0]);
  }

  lemma TimeExamples()
    ensures IsStartTimeValid(Present(1000)) && !IsStartTimeValid(Present(0)) && !IsStartTimeValid(Null)
    ensures !IsEndTimeValid(Present(1000), Present(2000))
    ensures IsEndTimeValid(Present(1000), Present(1000))
    ensures IsEndTimeValid(Present(2000), Present(1000))
    ensures IsEndTimeValid(Undefined, Present(1000)) && !IsEndTimeValid(Null, Present(1000))
  {
  }
}
