/** The nickname constraint of `UserBase`, `UserUpdate` and `UserResponse`:
    an optional string with `min_length=3` and `pattern=r'^[\w-]+$'`.

    A string constraint checks the length before the pattern and reports the
    first that fails; an absent nickname is not checked at all. */
module NicknameRule {
  import opened Wrappers
  import opened CharClasses

  const NicknameMinLength: nat := 3

  datatype NicknameError = TooShort | PatternMismatch

  /** The character class `[\w-]`. */
  predicate IsNicknameChar(t: CharTable, c: char) { t.isWord(c) || c == '-' }

  /** `^[\w-]+$` matched against the whole of `s`: at least one character of
      the class, then more of them until the end. */
  function MatchesPattern(t: CharTable, s: string): (b: bool)
    ensures b <==> s != [] && forall i :: 0 <= i < |s| ==> IsNicknameChar(t, s[i])
  {
    MatchesPlusFrom(t, s, 0)
  }

  /** `[\w-]+$` matched from index `k` of `s`. */
  function MatchesPlusFrom(t: CharTable, s: string, k: nat): (b: bool)
    requires k <= |s|
    decreases |s| - k
    ensures b <==> k < |s| && forall i :: k <= i < |s| ==> IsNicknameChar(t, s[i])
  {
    if k == |s| then false
    else if !IsNicknameChar(t, s[k]) then false
    else k + 1 == |s| || MatchesPlusFrom(t, s, k + 1)
  }

  predicate WellFormedNickname(t: CharTable, s: string) {
    |s| >= NicknameMinLength && forall i :: 0 <= i < |s| ==> IsNicknameChar(t, s[i])
  }

  /** The nickname field's validation. */
  function ValidateNickname(t: CharTable, nickname: Option<string>): (r: Result<Option<string>, NicknameError>)
    ensures nickname.None? ==> r == Ok(None)
    ensures r.Ok? ==> r.value == nickname
    ensures nickname.Some? ==> (r.Ok? <==> WellFormedNickname(t, nickname.value))
    ensures r == Err(TooShort) <==> nickname.Some? && |nickname.value| < NicknameMinLength
    ensures r == Err(PatternMismatch) <==>
      nickname.Some? && |nickname.value| >= NicknameMinLength &&
      exists i :: 0 <= i < |nickname.value| && !IsNicknameChar(t, nickname.value[i])
  {
    match nickname
    case None => Ok(None)
    case Some(s) =>
      if |s| < NicknameMinLength then Err(TooShort)
      else if MatchesPattern(t, s) then Ok(nickname)
      else Err(PatternMismatch)
  }
}
