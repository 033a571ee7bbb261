/** The test suite's `UserCreate` inputs, run through the model of the
    schema with any character table that is right about ASCII and an
    `EmailStr` that accepts the test address unchanged. */
module UserSchemaExamples {
  import opened Wrappers
  import opened CharClasses
  import opened PasswordRule
  import opened NicknameRule
  import opened UpdateRule
  import opened UserSchemas
  import PasswordRuleExamples
  import NicknameRuleExamples

  /** What each field of such an input reads as. */
  lemma CreateInputFields(raw: RawInput, e: string, n: string, p: string)
    requires raw == map["email" := Some(e), "password" := Some(p), "nickname" := Some(n)]
    ensures Required(raw, Email) == Ok(e) && Required(raw, Password) == Ok(p)
    ensures Lookup(raw, Nickname) == Some(n)
    ensures forall f: Field :: f != Email && f != Password && f != Nickname ==> Lookup(raw, f) == None
  {
    forall f: Field | f != Email && f != Password && f != Nickname
      ensures Lookup(raw, f) == None
    {
      assert FieldName(f) !in raw;
    }
  }

  /** With a good address and nickname, every field but the password passes. */
  lemma CreateInputOthersPass(t: CharTable, email: EmailValidator, uuid: UuidParser, flag: BoolParser, raw: RawInput, e: string, n: string)
    requires Required(raw, Email) == Ok(e) && email(e).Some?
    requires Lookup(raw, Nickname) == Some(n) && ValidateNickname(t, Some(n)).Ok?
    requires forall f: Field :: f != Email && f != Password && f != Nickname ==> Lookup(raw, f) == None
    ensures forall f :: f in SchemaFields(Create) && f != Password ==> FieldCheck(Create, t, email, uuid, flag, raw, f).None?
  {
    forall f: Field | f in SchemaFields(Create) && f != Password
      ensures FieldCheck(Create, t, email, uuid, flag, raw, f).None?
    {
    }
  }

  /** An input with a good address and nickname stands or falls with its
      password. */
  lemma CreateDecidedByPassword(t: CharTable, email: EmailValidator, uuid: UuidParser, flag: BoolParser, raw: RawInput, e: string, n: string, p: string)
    requires raw == map["email" := Some(e), "password" := Some(p), "nickname" := Some(n)]
    requires email(e) == Some(e)
    requires ValidateNickname(t, Some(n)).Ok?
    ensures CheckPassword(t, p).Ok? ==>
      ValidateCreate(t, email, uuid, flag, raw) == Ok(UserCreate(e, Profile(Some(n), None, None, None, None, None, None), p))
    ensures CheckPassword(t, p).Err? ==>
      ValidateCreate(t, email, uuid, flag, raw) == Err([FieldViolation(Password, WeakPassword(CheckPassword(t, p).error))])
  {
    CreateInputFields(raw, e, n, p);
    CreateInputOthersPass(t, email, uuid, flag, raw, e, n);
    var vs := SchemaViolations(Create, t, email, uuid, flag, raw);
    if CheckPassword(t, p).Err? {
      var v := FieldViolation(Password, WeakPassword(CheckPassword(t, p).error));
      assert Password in SchemaFields(Create);
      assert v in vs;
      forall i | 0 <= i < |vs| ensures vs[i] == v {
        assert vs[i] in vs;
      }
      OnlyViolation(vs, v);
    }
  }

  /** `test_password_complexity_valid`: the address, password and nickname
      are kept as given. */
  lemma AcceptsValidCreate(t: CharTable, email: EmailValidator, uuid: UuidParser, flag: BoolParser, raw: RawInput)
    requires AgreesOnAscii(t)
    requires email("jane.doe@example.com") == Some("jane.doe@example.com")
    requires raw == map["email" := Some("jane.doe@example.com"), "password" := Some("ValidPass1!"),
                        "nickname" := Some("janedoe")]
    ensures ValidateCreate(t, email, uuid, flag, raw).Ok?
    ensures ValidateCreate(t, email, uuid, flag, raw).value.password == "ValidPass1!"
    ensures ValidateCreate(t, email, uuid, flag, raw).value.profile.nickname == Some("janedoe")
  {
    NicknameRuleExamples.AcceptedNicknameExamples(t, "janedoe");
    PasswordRuleExamples.AcceptsStrongPasswords(t, "ValidPass1!", "Secure*1234");
    CreateDecidedByPassword(t, email, uuid, flag, raw, "jane.doe@example.com", "janedoe", "ValidPass1!");
  }

  /** `test_password_complexity_invalid`: each weak password is the one
      violation, naming the first requirement it breaks. */
  lemma RejectsWeakCreate(t: CharTable, email: EmailValidator, uuid: UuidParser, flag: BoolParser, p: string, raw: RawInput)
    requires AgreesOnAscii(t)
    requires email("jane.doe@example.com") == Some("jane.doe@example.com")
    requires p in {"short", "nocaps123!", "NOLOWERCASE123!", "NoDigits!", "NoSpecial123"}
    requires raw == map["email" := Some("jane.doe@example.com"), "password" := Some(p),
                        "nickname" := Some("janedoe")]
    ensures p == "short" ==> ValidateCreate(t, email, uuid, flag, raw) == Err([FieldViolation(Password, WeakPassword(MinimumLength))])
    ensures p == "nocaps123!" ==> ValidateCreate(t, email, uuid, flag, raw) == Err([FieldViolation(Password, WeakPassword(UppercaseLetter))])
    ensures p == "NOLOWERCASE123!" ==> ValidateCreate(t, email, uuid, flag, raw) == Err([FieldViolation(Password, WeakPassword(LowercaseLetter))])
    ensures p == "NoDigits!" ==> ValidateCreate(t, email, uuid, flag, raw) == Err([FieldViolation(Password, WeakPassword(Digit))])
    ensures p == "NoSpecial123" ==> ValidateCreate(t, email, uuid, flag, raw) == Err([FieldViolation(Password, WeakPassword(SpecialCharacter))])
  {
    NicknameRuleExamples.AcceptedNicknameExamples(t, "janedoe");
    if p == "short" {
      PasswordRuleExamples.RejectsShort(t, p);
    } else if p == "nocaps123!" {
      PasswordRuleExamples.RejectsNoCaps(t, p);
    } else if p == "NOLOWERCASE123!" {
      PasswordRuleExamples.RejectsNoLowercase(t, p);
    } else if p == "NoDigits!" {
      PasswordRuleExamples.RejectsNoDigits(t, p);
    } else {
      PasswordRuleExamples.RejectsNoSpecial(t, p);
    }
    CreateDecidedByPassword(t, email, uuid, flag, raw, "jane.doe@example.com", "janedoe", p);
  }
}
