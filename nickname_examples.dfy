/** The test suite's nicknames, run through the model of the nickname
    constraint with any character table that is right about ASCII. */
module NicknameRuleExamples {
  import opened Wrappers
  import opened CharClasses
  import opened NicknameRule

  /** Letters, digits, '_' and '-' of ASCII, at least three of them, pass. */
  lemma AsciiNicknameAccepted(t: CharTable, s: string)
    requires AgreesOnAscii(t)
    requires |s| >= NicknameMinLength
    requires forall i :: 0 <= i < |s| ==> IsAscii(s[i]) && (IsAsciiWord(s[i]) || s[i] == '-')
    ensures ValidateNickname(t, Some(s)) == Ok(Some(s))
  {
  }

  /** An ASCII character other than a letter, digit, '_' or '-' fails the pattern. */
  lemma AsciiSymbolRejected(t: CharTable, s: string, i: nat)
    requires AgreesOnAscii(t)
    requires |s| >= NicknameMinLength
    requires i < |s| && IsAscii(s[i]) && !IsAsciiWord(s[i]) && s[i] != '-'
    ensures ValidateNickname(t, Some(s)) == Err(PatternMismatch)
  {
  }

  lemma WordFacts(s: string)
    requires s in {"test_user", "test-user", "testuser123", "123test"}
    ensures |s| >= NicknameMinLength
    ensures forall i :: 0 <= i < |s| ==> IsAscii(s[i]) && (IsAsciiWord(s[i]) || s[i] == '-')
  {
  }

  lemma MoreWordFacts(s: string)
    requires s in {"user123", "john_doe", "Jane-Doe", "john_doe_123", "janedoe", "john_doe123"}
    ensures |s| >= NicknameMinLength
    ensures forall i :: 0 <= i < |s| ==> IsAscii(s[i]) && (IsAsciiWord(s[i]) || s[i] == '-')
  {
  }

  /** The nicknames the test suite accepts are kept as given. */
  lemma AcceptedNicknameExamples(t: CharTable, s: string)
    requires AgreesOnAscii(t)
    requires s in {"test_user", "test-user", "testuser123", "123test",
                   "user123", "john_doe", "Jane-Doe", "john_doe_123", "janedoe", "john_doe123"}
    ensures ValidateNickname(t, Some(s)) == Ok(Some(s))
  {
    if s in {"test_user", "test-user", "testuser123", "123test"} {
      WordFacts(s);
    } else {
      MoreWordFacts(s);
    }
    AsciiNicknameAccepted(t, s);
  }

  /** The nicknames the test suite rejects for being too short. */
  lemma RejectedShortNicknames(t: CharTable)
    ensures ValidateNickname(t, Some("")) == Err(TooShort)
    ensures ValidateNickname(t, Some("us")) == Err(TooShort)
    ensures ValidateNickname(t, Some("ab")) == Err(TooShort)
  {
  }

  /** The nicknames the test suite rejects for a space or a '?'. */
  lemma RejectedSymbolNicknames(t: CharTable)
    requires AgreesOnAscii(t)
    ensures ValidateNickname(t, Some("test user")) == Err(PatternMismatch)
    ensures ValidateNickname(t, Some("test?user")) == Err(PatternMismatch)
    ensures ValidateNickname(t, Some("John Doe")) == Err(PatternMismatch)
  {
    AsciiSymbolRejected(t, "test user", 4);
    AsciiSymbolRejected(t, "test?user", 4);
    AsciiSymbolRejected(t, "John Doe", 4);
  }
}
