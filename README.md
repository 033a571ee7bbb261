# User-record validation rules

This project models the validation rules of the user schemas in
`app/schemas/user_schemas.py` and proves properties about them. These rules
decide whether a submitted user record is accepted, and with what values:

- the profile-link rule `validate_url`, with the part of `urllib.parse.urlparse` it relies on;
- the nickname constraint (`min_length=3`, `pattern=r'^[\w-]+$'`);
- the password-complexity rule `UserCreate.password_complexity`;
- the partial-update root rule `UserUpdate.check_at_least_one_value`;
- the `UserRole` enumeration and the role a `UserResponse` gets when none is given;
- the four schemas `UserBase`, `UserCreate`, `UserUpdate` and `UserResponse`, as validators from a raw input to a record or a list of violations.

Every rule is pure, so the model consists of datatypes, functions and lemmas. There is no state.

Modules:

- `Wrappers`: `Option` and `Result`.
- `CharClasses`: ASCII character classes and small scans over strings.
  - `CharTable` is a parameter holding Python's `str.isupper`, `str.islower` and `str.isdigit`, and the regular-expression class `\w`.
  - `AgreesOnAscii` fixes the ASCII part of each of these. Unicode outside ASCII stays abstract.
- `UrlRule`: the clean-up, scheme split and network-location split that `urlparse` performs (Python 3.12 `urlsplit`), and `ValidateUrl`.
- `PasswordRule`: `CheckPassword`, which makes the five checks in the source's order and reports the first failure. `UnmetRequirements` is the full report it is compared with.
- `NicknameRule`: `ValidateNickname`. The length check comes before the pattern, and a field gets one error.
- `UpdateRule`: `CheckAtLeastOneValue` over the raw input.
- `UserRoles`: `UserRole`, `ParseRole` and `DefaultResponseRole`.
- `UserSchemas`: the schema validators.
  - A raw input is a `map<string, Option<string>>`: each submitted key with a string or null.
  - Failing fields are listed in declaration order.
  - Keys that name no field are ignored.
  - `EmailStr` is a parameter of type `string -> Option<string>`: the normalised address, or None for text that is not an address.
  - `uuid.UUID` is a parameter of the same type: the identifier's canonical form, or None for text that is not a UUID.
  - pydantic's `bool` parsing of a string is a parameter of type `string -> Option<bool>`: the truth value, or None for text it refuses.
- `UrlRuleExamples`, `PasswordRuleExamples`, `NicknameRuleExamples` and `UserSchemaExamples`: the test suite's inputs, proved against the model.

Points where the code behaves differently from what a quick reading might suggest; the model follows the code:

- **Password.** The password rule raises at the first unmet condition, so only one is reported. `CheckPassword` reports that one. `UnmetRequirements` lists every unmet condition, and `CheckReportsFirstUnmet` proves that the reported one is the head of that list.
- **Nickname.** A too-short nickname with bad characters gets only the length error: pydantic's string constraints check the length before the pattern.
- **Nickname character set.** `\w` in the pattern is Unicode-aware, so it is wider than `[A-Za-z0-9_]`. The model fixes the ASCII part of the class and leaves the rest of Unicode abstract.
- **URL clean-up.** `urlparse` lower-cases the scheme, so `HTTP://host` is accepted. Before splitting, it also strips leading control characters and spaces and removes tabs and newlines.
- **Response identifier.** `UserResponse` requires an `id` that parses as a UUID. Without one the record is rejected whatever its role.
- **Professional flag.** `UserResponse.is_professional` is optional. Absent, it is false; null stays null; a string must parse as a `bool`, or the record is rejected on that field.
- **Listing page.** `UserListResponse` has no check that `len(items) <= size`.

## Model

| member | source | states |
|---|---|---|
| UrlRule.ValidateUrl | app/schemas/user_schemas.py:19-29 | null passes unchanged; a present link passes exactly when its parsed scheme is http or https and its network location is non-empty; an accepted link is returned unchanged |
| UrlRule.WebShapeAccepted | app/schemas/user_schemas.py:26-29 | every cleaned-up link of the form scheme "://" host tail, with a web scheme in any case, a non-empty delimiter-free host with paired brackets and a tail starting at '/', '?' or '#', parses to that scheme and host and is accepted |
| UrlRule.AcceptedUrlShape | app/schemas/user_schemas.py:26-29 | conversely, every accepted link cuts, once cleaned up, into pieces of that form |
| UrlRule.NoSchemeSeparatorRejected | app/schemas/user_schemas.py:26-28 | a link with no ':' after clean-up has no scheme and is rejected |
| UrlRule.NonWebSchemeRejected | app/schemas/user_schemas.py:27-28 | a link whose parsed scheme is not http or https is rejected |
| UrlRule.NoAuthorityRejected | app/schemas/user_schemas.py:27-28 | a link with no "//" after its scheme has an empty network location and is rejected |
| UrlRule.SanitizeKeeps | app/schemas/user_schemas.py:26 | the clean-up `urlparse` performs leaves a link alone when it starts with a visible character and holds no tab, CR or LF |
| UrlRule.UrlSplitParts | app/schemas/user_schemas.py:26 | `urlparse` (modelled by `UrlSplit` with `Sanitize`, `SplitScheme` and `SplitNetloc`) yields a scheme of legal scheme characters without upper-case letters and a network location free of '/', '?' and '#' whose square brackets come in pairs; `WebShapeAccepted` and `AcceptedUrlShape` give its full meaning on the links the rule accepts |
| UrlRule.LowerAsciiKeeps | app/schemas/user_schemas.py:26 | scheme lower-casing leaves a scheme without upper-case letters alone |
| UrlRuleExamples.AcceptsHttpLink | tests/test_schemas/test_user_schemas.py:51-55 | "http://valid.com/profile.jpg", and "http://example.com/picture.jpg" (line 122), are accepted unchanged |
| UrlRuleExamples.AcceptsHttpsLink | tests/test_schemas/test_user_schemas.py:51-55 | "https://valid.com/profile.png", and "https://example.com/photo.png" (line 123), are accepted unchanged |
| UrlRuleExamples.RejectsFtpLink | tests/test_schemas/test_user_schemas.py:57-61 | "ftp://invalid.com/profile.jpg", and "ftp://example.com/picture.jpg" (line 132), are rejected |
| UrlRuleExamples.RejectsLinksWithoutScheme | tests/test_schemas/test_user_schemas.py:57-61 | "http//invalid" and "https//invalid", and "example.com/photo.png" (line 133), are rejected |
| UrlRuleExamples.RejectsSingleSlashLink | tests/test_schemas/test_user_schemas.py:131-139 | "http:/example.com" (line 134) is rejected |
| CharClasses.Any | app/schemas/user_schemas.py:83-90 | `any(p(char) for char in s)` holds exactly when some character of `s` satisfies `p` |
| PasswordRule.CheckPassword | app/schemas/user_schemas.py:81-92 | accepts exactly the passwords meeting all five requirements (length at least 8, an upper-case letter, a lower-case letter, a digit, a character of the special set) and returns them unchanged; a rejection names a requirement the password fails, and the password meets every requirement checked before it |
| PasswordRule.UnmetRequirements | app/schemas/user_schemas.py:81-91 | lists exactly the requirements the password fails, in check order |
| PasswordRule.UnmetOrdered | app/schemas/user_schemas.py:81-91 | requirements taken in check order are reported in check order |
| PasswordRule.CheckReportsFirstUnmet | app/schemas/user_schemas.py:81-91 | the rule accepts when nothing is unmet and otherwise reports the first unmet requirement |
| PasswordRule.UnmetReportedOnce | app/schemas/user_schemas.py:81-91 | no requirement appears twice in the full report |
| PasswordRuleExamples.RejectsShort | tests/test_schemas/test_user_schemas.py:101-115 | "short" fails on length |
| PasswordRuleExamples.RejectsNoCaps | tests/test_schemas/test_user_schemas.py:101-115 | "nocaps123!" fails on the upper-case letter |
| PasswordRuleExamples.RejectsNoLowercase | tests/test_schemas/test_user_schemas.py:101-115 | "NOLOWERCASE123!" fails on the lower-case letter |
| PasswordRuleExamples.RejectsNoDigits | tests/test_schemas/test_user_schemas.py:101-115 | "NoDigits!" fails on the digit |
| PasswordRuleExamples.RejectsNoSpecial | tests/test_schemas/test_user_schemas.py:101-115 | "NoSpecial123" fails on the special character |
| PasswordRuleExamples.AcceptsStrongPasswords | tests/test_schemas/test_user_schemas.py:91-99 | "ValidPass1!" and the schema's example "Secure*1234" are accepted unchanged |
| NicknameRule.MatchesPattern | app/schemas/user_schemas.py:36 | `^[\w-]+$` matches exactly the non-empty strings of word characters and '-' |
| NicknameRule.ValidateNickname | app/schemas/user_schemas.py:33-38 | null passes; a present nickname passes exactly when it has at least 3 characters, all word characters or '-'; too short is reported as such, and otherwise a character outside the class is reported as a pattern mismatch |
| NicknameRuleExamples.AcceptedNicknameExamples | tests/test_schemas/test_user_schemas.py:38-42 | the nicknames the tests accept are kept as given: "test_user", "test-user", "testuser123" and "123test", plus "user123", "john_doe" and "Jane-Doe" (lines 81-85), "janedoe" (line 95), the fixture nickname "john_doe_123" (tests/conftest.py:239) and the schema's example "john_doe123" (app/schemas/user_schemas.py:100) |
| NicknameRuleExamples.RejectedShortNicknames | tests/test_schemas/test_user_schemas.py:44-48 | "", "us" and "ab" are too short |
| NicknameRuleExamples.RejectedSymbolNicknames | tests/test_schemas/test_user_schemas.py:44-48 | "test user", "test?user" and "John Doe" (line 75) fail the pattern |
| UpdateRule.CheckAtLeastOneValue | app/schemas/user_schemas.py:121-125 | the raw input passes exactly when some value under some key is a non-empty string, and it is returned unchanged |
| UpdateRule.EmptyInputRejected | app/schemas/user_schemas.py:123-124 | the empty input is rejected |
| UpdateRule.FalsyInputRejected | app/schemas/user_schemas.py:123-124 | an input whose values are all null or empty is rejected |
| UpdateRule.OneValueSuffices | app/schemas/user_schemas.py:123-125 | one non-empty value under any key passes |
| UpdateRule.MoreKeysStillAccepted | app/schemas/user_schemas.py:123-125 | adding keys never turns an accepted input into a rejected one |
| UpdateRule.UpdateRuleExamples | app/schemas/user_schemas.py:121-125 | `{"bio": "hi"}` passes; `{}` and an all-null input fail |
| UserRoles.ParseRole | app/schemas/user_schemas.py:13-17 | a role is read exactly from its enumeration value; any other text is no role |
| UserRoles.ParseRoleValue | app/schemas/user_schemas.py:13-17 | every role is read back from its value |
| UserRoles.RolesClosed | app/schemas/user_schemas.py:13-17 | there are exactly four roles with distinct values, and the response default is AUTHENTICATED |
| UserSchemas.Required | app/schemas/user_schemas.py:32 | a required field is a violation when its key is absent or its value null, and otherwise yields the value |
| UserSchemas.FieldCheck | app/schemas/user_schemas.py:32-62 | the rule each schema applies to each field (the address, nickname and link rules of `UserBase`, lines 32-62; the password of `UserCreate`, lines 69-92; the optional address of `UserUpdate`, line 95; the identifier, role and professional flag of `UserResponse`, lines 128-139); its contract states that the free-text fields never fail |
| UserSchemas.AbsentFieldCheck | app/schemas/user_schemas.py:32-62 | a field absent from the input fails exactly when the schema requires it (the address outside `UserUpdate`, the password, the identifier), and then as a missing field; every optional field defaults to null and passes |
| UserSchemas.FieldCheckLocal | app/schemas/user_schemas.py:31-62 | a field's check reads nothing of the input but that field's own key |
| UserSchemas.Violations | app/schemas/user_schemas.py:31-62 | one violation for each listed field the check fails, and only for those |
| UserSchemas.ViolationsOrdered | app/schemas/user_schemas.py:31-62 | fields listed in declaration order give their violations in declaration order |
| UserSchemas.ViolationsAgree | app/schemas/user_schemas.py:31-62 | the violations depend only on the checks of the listed fields |
| UserSchemas.SchemaViolations | app/schemas/user_schemas.py:31-62 | a schema's violations are empty exactly when every field passes; they are in declaration order, each names a failing field with its own failure, and every failing field is listed |
| UserSchemas.ValidateBase | app/schemas/user_schemas.py:31-62 | `UserBase` accepts exactly when every field passes, keeping the submitted values and the normalised address; otherwise it returns the violations |
| UserSchemas.ValidateCreate | app/schemas/user_schemas.py:67-92 | `UserCreate` accepts exactly when every field including the password passes; the accepted password is the submitted one and meets all five requirements |
| UserSchemas.ValidateUpdate | app/schemas/user_schemas.py:94-125 | `UserUpdate` first rejects an input without a non-empty value, reporting only that; otherwise it accepts exactly when every field passes, with the address optional |
| UserSchemas.ResponseOf | app/schemas/user_schemas.py:127-139 | the record of a response keeps the submitted profile, the normalised address, the canonical identifier, the submitted role or AUTHENTICATED when none was given, and the parsed professional flag, false when absent and null when null |
| UserSchemas.ValidateResponse | app/schemas/user_schemas.py:127-139 | `UserResponse` accepts exactly when every field passes, the required identifier and the professional flag included; the role is the submitted one, or AUTHENTICATED when none was given; the flag is the parsed value, false when absent and null when null |
| UserSchemas.UnknownKeyIgnored | app/schemas/user_schemas.py:31-62 | a key that names no field changes no check and no value |
| UserSchemas.BaseIgnoresUnknownKey | app/schemas/user_schemas.py:31-62 | `UserBase` gives the same result with or without such a key |
| UserSchemas.ExtensionPassesBase | app/schemas/user_schemas.py:67 | an input that passes `UserCreate` or `UserResponse` passes every `UserBase` field |
| UserSchemas.CreateExtendsBase | app/schemas/user_schemas.py:67-69 | what `UserCreate` accepts, `UserBase` accepts with the same address and profile |
| UserSchemas.ResponseExtendsBase | app/schemas/user_schemas.py:127-139 | what `UserResponse` accepts, `UserBase` accepts with the same address and profile |
| UserSchemas.WeakPasswordReported | app/schemas/user_schemas.py:71-92 | a weak submitted password makes `UserCreate` fail, naming the first requirement it breaks |
| UserSchemas.MissingPasswordReported | app/schemas/user_schemas.py:69 | `UserCreate` without a password fails on that field |
| UserSchemas.BadLinkReported | app/schemas/user_schemas.py:59-62 | a present link that is not an http(s) address with a host is among the schema's field violations, on its own field, for each of the three link fields (for `UserUpdate` the root rule runs first, see `ValidateUpdate`) |
| UserSchemas.InvalidEmailReported | app/schemas/user_schemas.py:32 | an address that `EmailStr` refuses is among the schema's field violations, on the email field, in every schema (for `UserUpdate` the root rule runs first, see `ValidateUpdate`) |
| UserSchemas.UnknownKeyFillsUpdate | app/schemas/user_schemas.py:121-125 | a single non-empty value under a key that names no field satisfies the update rule, and yields an update carrying no value |
| UserSchemas.BioOnlyUpdate | app/schemas/user_schemas.py:94-125 | an update that sets only the biography is accepted as given |
| UserSchemas.OnlyViolation | app/schemas/user_schemas.py:31-62 | in declaration order a violation can appear only once |
| UserSchemas.MissingIdReported | app/schemas/user_schemas.py:128 | a response input without an identifier is rejected, with a missing-field violation on `id` |
| UserSchemas.InvalidIdReported | app/schemas/user_schemas.py:128 | an identifier that does not parse as a UUID is rejected on `id` |
| UserSchemas.InvalidFlagReported | app/schemas/user_schemas.py:139 | a professional flag that does not parse as a `bool` is rejected on `is_professional` |
| UserSchemas.ResponseOthersPass | app/schemas/user_schemas.py:127-139 | with the `UserBase` fields passing, a valid identifier and a valid flag, only the role can fail a response |
| UserSchemas.ResponseRoleDefault | app/schemas/user_schemas.py:129 | a response with a valid identifier and flag and without a role is accepted with AUTHENTICATED and the canonical identifier |
| UserSchemas.ResponseRoleInvalid | app/schemas/user_schemas.py:138 | an explicit null role, or a role outside the enumeration, is the one violation of an otherwise valid response |
| UserSchemaExamples.CreateDecidedByPassword | app/schemas/user_schemas.py:67-92 | with a good address and nickname, `UserCreate` accepts exactly a strong password, and otherwise reports that password's first unmet requirement as the only violation |
| UserSchemaExamples.AcceptsValidCreate | tests/test_schemas/test_user_schemas.py:91-99 | the valid creation input is accepted, keeping its password and nickname |
| UserSchemaExamples.RejectsWeakCreate | tests/test_schemas/test_user_schemas.py:101-115 | each weak password in the tests is the one violation of its creation input, naming the requirement it breaks first |

## Left out

- `EmailStr` address syntax and normalisation are done by the external email-validator library. They are a parameter here, and the examples assume it accepts the test address unchanged.
- Unicode character categories behind `isupper`, `islower`, `isdigit` and `\w` are left abstract beyond ASCII. For that reason the emoji nickname test (tests/test_schemas/test_user_schemas.py:75) is not proved: a table that is right about ASCII does not decide it.
- `urlparse` is modelled only as far as the rule uses it: leading clean-up, unsafe-character removal, scheme and network location, and the unbalanced-bracket error. Its other checks are out: bracketed-host validation, the NFKC check on the network location, and path, query and fragment splitting.
- UserSchemas.Violations: a violation is a field and a kind of failure; pydantic's error messages, error locations and echoed input values are not modelled.
- Pydantic's type coercion is out: a raw value is a string or null, and numbers, booleans and nested objects are not modelled.
- Truthiness of non-string values in the update rule is out for the same reason.
- UUID syntax and canonical form are done by Python's `uuid` module. They are a parameter here, like `EmailStr`.
- Which strings pydantic parses as a `bool` is a parameter, like `EmailStr`. Raw values here are strings or null, so a JSON `true` is read as its text.
- `generate_nickname()` is out: it is a foreign call used only to fill in example values.
- `LoginRequest`, `ErrorResponse` and `UserListResponse` are plain shapes with no checks. There is no `len(items) <= size` check in the code to model.
- The fixtures in tests/conftest.py are out: database sessions, the HTTP client, e-mail stubs and generated users.
- The schema-example tests, which inspect pydantic's JSON-schema metadata, are out.
- The tests at tests/test_schemas/test_user_schemas.py:8-35 and 64-69 check whole fixture records from tests/conftest.py. The rules they exercise are covered by the general lemmas above, but the fixture records are not reproduced. The link tests use the same fixtures, but only the link field changes there, and the links themselves are proved above.
