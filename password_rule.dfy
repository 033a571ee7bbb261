/** The password-complexity rule `UserCreate.password_complexity`.

    Five requirements are checked in a fixed order; the first one the password
    fails is raised as the error, and a password that meets all five is
    returned unchanged. */
module PasswordRule {
  import opened Wrappers
  import opened CharClasses

  const MinPasswordLength: nat := 8

  /** The special characters, exactly as the source lists them. */
  const SpecialCharacters: string := "!@#$%^&*()_+-=[]{}|;:'\",.<>?/~`"

  /** A requirement; as an error it names the requirement the password fails. */
  datatype Requirement = MinimumLength | UppercaseLetter | LowercaseLetter | Digit | SpecialCharacter

  /** The requirements in the order the source checks them. */
  const CheckOrder: seq<Requirement> :=
    [MinimumLength, UppercaseLetter, LowercaseLetter, Digit, SpecialCharacter]

  function Rank(req: Requirement): nat {
    match req
    case MinimumLength => 0
    case UppercaseLetter => 1
    case LowercaseLetter => 2
    case Digit => 3
    case SpecialCharacter => 4
  }

  predicate IsSpecialCharacter(c: char) { c in SpecialCharacters }

  /** What each requirement asks of the password, stated over its characters. */
  predicate Satisfies(t: CharTable, password: string, req: Requirement) {
    match req
    case MinimumLength => |password| >= MinPasswordLength
    case UppercaseLetter => exists i :: 0 <= i < |password| && t.isUpper(password[i])
    case LowercaseLetter => exists i :: 0 <= i < |password| && t.isLower(password[i])
    case Digit => exists i :: 0 <= i < |password| && t.isDigit(password[i])
    case SpecialCharacter => exists i :: 0 <= i < |password| && IsSpecialCharacter(password[i])
  }

  predicate StrongPassword(t: CharTable, password: string) {
    forall req :: Satisfies(t, password, req)
  }

  /** `password_complexity`: the guards in the source's order. */
  function CheckPassword(t: CharTable, password: string): (r: Result<string, Requirement>)
    ensures r.Ok? <==> StrongPassword(t, password)
    ensures r.Ok? ==> r.value == password
    ensures r.Err? ==> !Satisfies(t, password, r.error)
    ensures r.Err? ==> forall req :: Rank(req) < Rank(r.error) ==> Satisfies(t, password, req)
  {
    if |password| < MinPasswordLength then
      assert !Satisfies(t, password, MinimumLength);
      Err(MinimumLength)
    else if !Any(password, t.isUpper) then
      assert !Satisfies(t, password, UppercaseLetter);
      Err(UppercaseLetter)
    else if !Any(password, t.isLower) then
      assert !Satisfies(t, password, LowercaseLetter);
      Err(LowercaseLetter)
    else if !Any(password, t.isDigit) then
      assert !Satisfies(t, password, Digit);
      Err(Digit)
    else if !Any(password, IsSpecialCharacter) then
      assert !Satisfies(t, password, SpecialCharacter);
      Err(SpecialCharacter)
    else
      Ok(password)
  }

  /** Requirements, each later in check order than the one before. */
  predicate InCheckOrder(reqs: seq<Requirement>) {
    forall i, j :: 0 <= i < j < |reqs| ==> Rank(reqs[i]) < Rank(reqs[j])
  }

  /** Every unmet requirement, in check order: the full report a client could
      show, of which the source raises only the first. */
  function UnmetRequirements(t: CharTable, password: string): (unmet: seq<Requirement>)
    ensures forall req :: req in unmet <==> !Satisfies(t, password, req)
    ensures InCheckOrder(unmet)
  {
    UnmetOrdered(t, password, CheckOrder);
    UnmetAmong(t, password, CheckOrder)
  }

  /** The requirements among `reqs` the password fails, in the order given. */
  function UnmetAmong(t: CharTable, password: string, reqs: seq<Requirement>): (unmet: seq<Requirement>)
    ensures forall req :: req in unmet <==> req in reqs && !Satisfies(t, password, req)
  {
    if reqs == [] then []
    else
      var rest := UnmetAmong(t, password, reqs[1..]);
      assert forall x :: x in reqs[1..] ==> x in reqs;
      if Satisfies(t, password, reqs[0]) then rest else [reqs[0]] + rest
  }

  /** Dropping the first requirement keeps the rest in order, after it. */
  lemma CheckOrderTail(reqs: seq<Requirement>)
    requires reqs != [] && InCheckOrder(reqs)
    ensures InCheckOrder(reqs[1..])
    ensures forall x :: x in reqs[1..] ==> Rank(reqs[0]) < Rank(x)
  {
    forall x | x in reqs[1..] ensures Rank(reqs[0]) < Rank(x) {
      var k :| 0 <= k < |reqs[1..]| && reqs[1..][k] == x;
      assert reqs[k + 1] == x;
    }
    forall i, j | 0 <= i < j < |reqs[1..]|
      ensures Rank(reqs[1..][i]) < Rank(reqs[1..][j])
    {
      assert reqs[1..][i] == reqs[i + 1] && reqs[1..][j] == reqs[j + 1];
    }
  }

  /** A requirement checked before all of an ordered list's may go in front of it. */
  lemma ConsInCheckOrder(r: Requirement, rest: seq<Requirement>)
    requires InCheckOrder(rest)
    requires forall i :: 0 <= i < |rest| ==> Rank(r) < Rank(rest[i])
    ensures InCheckOrder([r] + rest)
  {
    var reqs := [r] + rest;
    forall i, j | 0 <= i < j < |reqs| ensures Rank(reqs[i]) < Rank(reqs[j]) {
      assert reqs[j] == rest[j - 1];
      if i > 0 {
        assert reqs[i] == rest[i - 1];
      }
    }
  }

  /** Requirements taken in check order are reported in check order. */
  lemma {:induction false} UnmetOrdered(t: CharTable, password: string, reqs: seq<Requirement>)
    requires InCheckOrder(reqs)
    ensures InCheckOrder(UnmetAmong(t, password, reqs))
    decreases |reqs|
  {
    if reqs != [] {
      CheckOrderTail(reqs);
      var rest := UnmetAmong(t, password, reqs[1..]);
      UnmetOrdered(t, password, reqs[1..]);
      if !Satisfies(t, password, reqs[0]) {
        assert forall i :: 0 <= i < |rest| ==> rest[i] in rest;
        ConsInCheckOrder(reqs[0], rest);
      }
    }
  }

  /** The source's first-failure check reports the head of the full report,
      and accepts exactly when the report is empty. */
  lemma CheckReportsFirstUnmet(t: CharTable, password: string)
    ensures var unmet := UnmetRequirements(t, password);
      CheckPassword(t, password) == if unmet == [] then Ok(password) else Err(unmet[0])
  {
    var unmet := UnmetRequirements(t, password);
    var r := CheckPassword(t, password);
    if unmet == [] {
      forall req ensures Satisfies(t, password, req) {
        assert req !in unmet;
      }
    } else {
      var e := unmet[0];
      assert e in unmet;
      assert !StrongPassword(t, password);
      assert r.error in unmet;
    }
  }

  /** No requirement is reported twice. */
  lemma UnmetReportedOnce(t: CharTable, password: string, i: nat, j: nat)
    requires i < j < |UnmetRequirements(t, password)|
    ensures UnmetRequirements(t, password)[i] != UnmetRequirements(t, password)[j]
  {
  }
}
