/** The partial-update rule `UserUpdate.check_at_least_one_value`: before any
    field is validated, the raw input is rejected unless at least one of its
    values is truthy. Values are strings or null, so the truthy ones are the
    non-empty strings. Every key counts, known field or not. */
module UpdateRule {
  import opened Wrappers

  /** A raw input: the submitted keys, each with a string or null. */
  type RawInput = map<string, Option<string>>

  /** Python truthiness of a string-or-null value. */
  predicate IsTruthy(v: Option<string>) { v.Some? && v.value != "" }

  predicate HasTruthyValue(values: RawInput) {
    exists k :: k in values && IsTruthy(values[k])
  }

  datatype UpdateError = NoFieldProvided

  /** `check_at_least_one_value`: `any(values.values())`. */
  function CheckAtLeastOneValue(values: RawInput): (r: Result<RawInput, UpdateError>)
    ensures r.Ok? <==> HasTruthyValue(values)
    ensures r.Ok? ==> r.value == values
  {
    if exists v :: v in values.Values && IsTruthy(v) then Ok(values) else Err(NoFieldProvided)
  }

  /** The empty input is rejected. */
  lemma EmptyInputRejected()
    ensures CheckAtLeastOneValue(map[]) == Err(NoFieldProvided)
  {
  }

  /** An input whose every value is null or empty is rejected. */
  lemma FalsyInputRejected(values: RawInput)
    requires forall k :: k in values ==> values[k] == None || values[k] == Some("")
    ensures CheckAtLeastOneValue(values) == Err(NoFieldProvided)
  {
  }

  /** One non-empty string under any key is enough. */
  lemma OneValueSuffices(values: RawInput, key: string, s: string)
    requires key in values && values[key] == Some(s) && s != ""
    ensures CheckAtLeastOneValue(values) == Ok(values)
  {
  }

  /** Submitting more keys never turns an accepted input into a rejected one. */
  lemma MoreKeysStillAccepted(values: RawInput, more: RawInput)
    requires CheckAtLeastOneValue(values).Ok?
    requires forall k :: k in values ==> k in more && more[k] == values[k]
    ensures CheckAtLeastOneValue(more).Ok?
  {
    var k :| k in values && IsTruthy(values[k]);
    assert k in more && IsTruthy(more[k]);
  }

  /** Small cases: `{"bio": "hi"}` passes, an all-null input and `{}` fail. */
  lemma UpdateRuleExamples()
    ensures CheckAtLeastOneValue(map["bio" := Some("hi")]).Ok?
    ensures CheckAtLeastOneValue(map["bio" := None, "first_name" := None]).Err?
    ensures CheckAtLeastOneValue(map[]).Err?
  {
    OneValueSuffices(map["bio" := Some("hi")], "bio", "hi");
    FalsyInputRejected(map["bio" := None, "first_name" := None]);
  }
}
