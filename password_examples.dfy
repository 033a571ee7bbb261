/** The test suite's passwords, run through the model of `password_complexity`
    with any character table that is right about ASCII. */
module PasswordRuleExamples {
  import opened Wrappers
  import opened CharClasses
  import opened PasswordRule

  /** A string of ASCII characters none of which is upper case has no upper-case letter. */
  lemma NoUpper(t: CharTable, s: string)
    requires AgreesOnAscii(t)
    requires forall i :: 0 <= i < |s| ==> IsAscii(s[i]) && !IsAsciiUpper(s[i])
    ensures !Satisfies(t, s, UppercaseLetter)
  {
  }

  lemma NoLower(t: CharTable, s: string)
    requires AgreesOnAscii(t)
    requires forall i :: 0 <= i < |s| ==> IsAscii(s[i]) && !IsAsciiLower(s[i])
    ensures !Satisfies(t, s, LowercaseLetter)
  {
  }

  lemma NoDigit(t: CharTable, s: string)
    requires AgreesOnAscii(t)
    requires forall i :: 0 <= i < |s| ==> IsAscii(s[i]) && !IsAsciiDigit(s[i])
    ensures !Satisfies(t, s, Digit)
  {
  }

  /** The requirement reported is the first one unmet. */
  lemma FirstUnmetReported(t: CharTable, s: string, req: Requirement)
    requires !Satisfies(t, s, req)
    requires forall r :: Rank(r) < Rank(req) ==> Satisfies(t, s, r)
    ensures CheckPassword(t, s) == Err(req)
  {
    var r := CheckPassword(t, s);
    assert !StrongPassword(t, s);
    assert Rank(r.error) <= Rank(req);
  }

  lemma RejectsShort(t: CharTable, p: string)
    requires p == "short"
    ensures CheckPassword(t, p) == Err(MinimumLength)
  {
  }

  lemma NoCapsFacts(p: string)
    requires p == "nocaps123!"
    ensures |p| == 10 && forall i :: 0 <= i < |p| ==> IsAscii(p[i]) && !IsAsciiUpper(p[i])
  {
  }

  /** "nocaps123!" is long enough but has no upper-case letter. */
  lemma RejectsNoCaps(t: CharTable, p: string)
    requires AgreesOnAscii(t)
    requires p == "nocaps123!"
    ensures CheckPassword(t, p) == Err(UppercaseLetter)
  {
    NoCapsFacts(p);
    NoUpper(t, p);
  }

  lemma UpperAt(t: CharTable, s: string, i: nat)
    requires AgreesOnAscii(t)
    requires i < |s| && IsAscii(s[i]) && IsAsciiUpper(s[i])
    ensures Satisfies(t, s, UppercaseLetter)
  {
  }

  lemma LowerAt(t: CharTable, s: string, i: nat)
    requires AgreesOnAscii(t)
    requires i < |s| && IsAscii(s[i]) && IsAsciiLower(s[i])
    ensures Satisfies(t, s, LowercaseLetter)
  {
  }

  lemma DigitAt(t: CharTable, s: string, i: nat)
    requires AgreesOnAscii(t)
    requires i < |s| && IsAscii(s[i]) && IsAsciiDigit(s[i])
    ensures Satisfies(t, s, Digit)
  {
  }

  lemma NoLowerFacts(p: string)
    requires p == "NOLOWERCASE123!"
    ensures |p| == 15 && IsAscii(p[0]) && IsAsciiUpper(p[0])
    ensures forall i :: 0 <= i < |p| ==> IsAscii(p[i]) && !IsAsciiLower(p[i])
  {
  }

  /** "NOLOWERCASE123!" has an upper-case letter but no lower-case one. */
  lemma RejectsNoLowercase(t: CharTable, p: string)
    requires AgreesOnAscii(t)
    requires p == "NOLOWERCASE123!"
    ensures CheckPassword(t, p) == Err(LowercaseLetter)
  {
    NoLowerFacts(p);
    UpperAt(t, p, 0);
    NoLower(t, p);
  }

  lemma NoDigitsFacts(p: string)
    requires p == "NoDigits!"
    ensures |p| == 9 && IsAscii(p[0]) && IsAsciiUpper(p[0]) && IsAscii(p[1]) && IsAsciiLower(p[1])
    ensures forall i :: 0 <= i < |p| ==> IsAscii(p[i]) && !IsAsciiDigit(p[i])
  {
  }

  /** "NoDigits!" has both cases of letter but no digit. */
  lemma RejectsNoDigits(t: CharTable, p: string)
    requires AgreesOnAscii(t)
    requires p == "NoDigits!"
    ensures CheckPassword(t, p) == Err(Digit)
  {
    NoDigitsFacts(p);
    UpperAt(t, p, 0);
    LowerAt(t, p, 1);
    NoDigit(t, p);
    FirstUnmetReported(t, p, Digit);
  }

  /** The special characters are all ASCII symbols: no letter and no digit. */
  lemma SpecialsAreSymbols()
    ensures forall i :: 0 <= i < |SpecialCharacters| ==>
      !IsAsciiLetter(SpecialCharacters[i]) && !IsAsciiDigit(SpecialCharacters[i])
  {
  }

  /** A password of ASCII letters and digits only has no special character. */
  lemma NoSpecial(t: CharTable, s: string)
    requires forall i :: 0 <= i < |s| ==> IsAsciiLetter(s[i]) || IsAsciiDigit(s[i])
    ensures !Satisfies(t, s, SpecialCharacter)
  {
    SpecialsAreSymbols();
  }

  /** Long enough, with both cases of letter and a digit, but made of letters
      and digits only: the special character is what is reported. */
  lemma OnlySpecialMissing(t: CharTable, s: string, up: nat, low: nat, dig: nat)
    requires AgreesOnAscii(t)
    requires |s| >= MinPasswordLength
    requires up < |s| && IsAscii(s[up]) && IsAsciiUpper(s[up])
    requires low < |s| && IsAscii(s[low]) && IsAsciiLower(s[low])
    requires dig < |s| && IsAscii(s[dig]) && IsAsciiDigit(s[dig])
    requires forall i :: 0 <= i < |s| ==> IsAsciiLetter(s[i]) || IsAsciiDigit(s[i])
    ensures CheckPassword(t, s) == Err(SpecialCharacter)
  {
    NoSpecial(t, s);
    UpperAt(t, s, up);
    LowerAt(t, s, low);
    DigitAt(t, s, dig);
    FirstUnmetReported(t, s, SpecialCharacter);
  }

  lemma NoSpecialFacts(p: string)
    requires p == "NoSpecial123"
    ensures |p| == 12 && IsAscii(p[0]) && IsAsciiUpper(p[0]) && IsAscii(p[1]) && IsAsciiLower(p[1])
    ensures IsAscii(p[9]) && IsAsciiDigit(p[9])
    ensures forall i :: 0 <= i < |p| ==> IsAsciiLetter(p[i]) || IsAsciiDigit(p[i])
  {
  }

  /** "NoSpecial123" meets every requirement but the special character. */
  lemma RejectsNoSpecial(t: CharTable, p: string)
    requires AgreesOnAscii(t)
    requires p == "NoSpecial123"
    ensures CheckPassword(t, p) == Err(SpecialCharacter)
  {
    NoSpecialFacts(p);
    OnlySpecialMissing(t, p, 0, 1, 9);
  }

  /** Eight characters or more with an upper-case letter, a lower-case letter,
      a digit and a special character at the given places are accepted. */
  lemma StrongAt(t: CharTable, s: string, up: nat, low: nat, dig: nat, spec: nat)
    requires AgreesOnAscii(t)
    requires |s| >= MinPasswordLength
    requires up < |s| && IsAscii(s[up]) && IsAsciiUpper(s[up])
    requires low < |s| && IsAscii(s[low]) && IsAsciiLower(s[low])
    requires dig < |s| && IsAscii(s[dig]) && IsAsciiDigit(s[dig])
    requires spec < |s| && IsSpecialCharacter(s[spec])
    ensures CheckPassword(t, s) == Ok(s)
  {
    UpperAt(t, s, up);
    LowerAt(t, s, low);
    DigitAt(t, s, dig);
    assert Satisfies(t, s, SpecialCharacter);
  }

  lemma ValidPassFacts(p: string)
    requires p == "ValidPass1!"
    ensures |p| == 11 && IsAscii(p[0]) && IsAsciiUpper(p[0]) && IsAscii(p[1]) && IsAsciiLower(p[1])
    ensures IsAscii(p[9]) && IsAsciiDigit(p[9]) && IsSpecialCharacter(p[10])
  {
  }

  lemma SecureFacts(p: string)
    requires p == "Secure*1234"
    ensures |p| == 11 && IsAscii(p[0]) && IsAsciiUpper(p[0]) && IsAscii(p[1]) && IsAsciiLower(p[1])
    ensures IsAscii(p[7]) && IsAsciiDigit(p[7]) && IsSpecialCharacter(p[6])
  {
  }

  /** "ValidPass1!" and "Secure*1234" meet all five requirements and are kept as given. */
  lemma AcceptsStrongPasswords(t: CharTable, p: string, q: string)
    requires AgreesOnAscii(t)
    requires p == "ValidPass1!" && q == "Secure*1234"
    ensures CheckPassword(t, p) == Ok(p)
    ensures CheckPassword(t, q) == Ok(q)
  {
    ValidPassFacts(p);
    StrongAt(t, p, 0, 1, 9, 10);
    SecureFacts(q);
    StrongAt(t, q, 0, 1, 7, 6);
  }
}
