/** The four user schemas, `UserBase`, `UserCreate`, `UserUpdate` and
    `UserResponse`, as validators from a raw input (each submitted key with a
    string or null) to a record or to the list of violations, one per failing
    field in declaration order. Keys that name no field are ignored, except by
    the partial-update rule, which looks at every value. */
module UserSchemas {
  import opened Wrappers
  import opened CharClasses
  import opened UrlRule
  import opened PasswordRule
  import opened NicknameRule
  import opened UpdateRule
  import opened UserRoles

  /** The fields, in the order the schemas declare them. */
  datatype Field =
    | Email | Nickname | FirstName | LastName | Bio
    | ProfilePictureUrl | LinkedinProfileUrl | GithubProfileUrl
    | Password | Id | Role | IsProfessional

  function FieldName(f: Field): string {
    match f
    case Email => "email"
    case Nickname => "nickname"
    case FirstName => "first_name"
    case LastName => "last_name"
    case Bio => "bio"
    case ProfilePictureUrl => "profile_picture_url"
    case LinkedinProfileUrl => "linkedin_profile_url"
    case GithubProfileUrl => "github_profile_url"
    case Password => "password"
    case Id => "id"
    case Role => "role"
    case IsProfessional => "is_professional"
  }

  /** Position of a field in declaration order. */
  function FieldRank(f: Field): nat {
    match f
    case Email => 0
    case Nickname => 1
    case FirstName => 2
    case LastName => 3
    case Bio => 4
    case ProfilePictureUrl => 5
    case LinkedinProfileUrl => 6
    case GithubProfileUrl => 7
    case Password => 8
    case Id => 9
    case Role => 10
    case IsProfessional => 11
  }

  datatype Schema = Base | Create | Update | Response

  const BaseFields: seq<Field> :=
    [Email, Nickname, FirstName, LastName, Bio, ProfilePictureUrl, LinkedinProfileUrl, GithubProfileUrl]

  /** The fields a schema validates: `UserCreate` adds the password and
      `UserResponse` the identifier, the role and the professional flag to
      those of `UserBase`. */
  function SchemaFields(schema: Schema): seq<Field> {
    match schema
    case Create => BaseFields + [Password]
    case Response => BaseFields + [Id, Role, IsProfessional]
    case _ => BaseFields
  }

  datatype ViolationKind =
    | MissingField
    | NullValue
    | InvalidEmail
    | BadNickname(nicknameError: NicknameError)
    | BadUrl
    | WeakPassword(unmet: Requirement)
    | InvalidUuid
    | InvalidRole
    | InvalidBool

  datatype Violation =
    | FieldViolation(field: Field, kind: ViolationKind)
    /** The update root rule: no value was provided. */
    | EmptyUpdate

  /** `EmailStr`: the normalised address, or None when the text is not one. */
  type EmailValidator = string -> Option<string>

  /** `uuid.UUID`: the identifier in its canonical form, or None when the
      text is not one. */
  type UuidParser = string -> Option<string>

  /** pydantic's `bool` parsing of a string: the truth value, or None when
      the text is not one it accepts. */
  type BoolParser = string -> Option<bool>

  /** The value of an optional field: an absent key reads as null. */
  function Lookup(raw: RawInput, f: Field): Option<string> {
    var key := FieldName(f);
    if key in raw then raw[key] else None
  }

  /** A required string field: absent and null are both violations. */
  function Required(raw: RawInput, f: Field): (r: Result<string, ViolationKind>)
    ensures r.Ok? <==> FieldName(f) in raw && raw[FieldName(f)].Some?
    ensures r.Ok? ==> Some(r.value) == raw[FieldName(f)]
    ensures r == Err(MissingField) <==> FieldName(f) !in raw
  {
    var key := FieldName(f);
    if key !in raw then Err(MissingField)
    else if raw[key].None? then Err(NullValue)
    else Ok(raw[key].value)
  }

  /** The violation, if any, of one field of a schema. The free-text fields
      have no constraint and never fail. */
  function FieldCheck(schema: Schema, t: CharTable, email: EmailValidator, uuid: UuidParser, flag: BoolParser, raw: RawInput, f: Field): (r: Option<ViolationKind>)
    ensures f in {FirstName, LastName, Bio} ==> r.None?
  {
    match f
    case Email =>
      if schema == Update then
        (match Lookup(raw, Email)
         case None => None
         case Some(s) => if email(s).None? then Some(InvalidEmail) else None)
      else
        (match Required(raw, Email)
         case Err(k) => Some(k)
         case Ok(s) => if email(s).None? then Some(InvalidEmail) else None)
    case Nickname =>
      (match ValidateNickname(t, Lookup(raw, Nickname))
       case Err(e) => Some(BadNickname(e))
       case Ok(_) => None)
    case ProfilePictureUrl => if ValidateUrl(Lookup(raw, f)).Err? then Some(BadUrl) else None
    case LinkedinProfileUrl => if ValidateUrl(Lookup(raw, f)).Err? then Some(BadUrl) else None
    case GithubProfileUrl => if ValidateUrl(Lookup(raw, f)).Err? then Some(BadUrl) else None
    case Password =>
      (match Required(raw, Password)
       case Err(k) => Some(k)
       case Ok(p) => if CheckPassword(t, p).Err? then Some(WeakPassword(CheckPassword(t, p).error)) else None)
    case Id =>
      (match Required(raw, Id)
       case Err(k) => Some(k)
       case Ok(s) => if uuid(s).None? then Some(InvalidUuid) else None)
    case Role =>
      var key := FieldName(Role);
      if key !in raw then None
      else if raw[key].None? || ParseRole(raw[key].value).None? then Some(InvalidRole)
      else None
    case IsProfessional =>
      (match Lookup(raw, IsProfessional)
       case None => None
       case Some(s) => if flag(s).None? then Some(InvalidBool) else None)
    case _ => None
  }

  /** A field left out of the input fails exactly when the schema requires
      it (the address outside `UserUpdate`, the password, the identifier),
      and then as a missing field; every optional field defaults to null. */
  lemma AbsentFieldCheck(schema: Schema, t: CharTable, email: EmailValidator, uuid: UuidParser, flag: BoolParser, raw: RawInput, f: Field)
    requires FieldName(f) !in raw
    ensures var r := FieldCheck(schema, t, email, uuid, flag, raw, f);
      && (r.Some? <==> (f == Email && schema != Update) || f == Password || f == Id)
      && (r.Some? ==> r == Some(MissingField))
  {
  }

  predicate FieldsIncreasing(fields: seq<Field>) {
    forall i, j :: 0 <= i < j < |fields| ==> FieldRank(fields[i]) < FieldRank(fields[j])
  }

  /** One violation per field among `fields` that `check` fails, in the
      order given. */
  function Violations(check: Field -> Option<ViolationKind>, fields: seq<Field>): (vs: seq<Violation>)
    ensures forall i :: 0 <= i < |vs| ==>
      vs[i].FieldViolation? && vs[i].field in fields && check(vs[i].field) == Some(vs[i].kind)
    ensures forall f :: f in fields && check(f).Some? ==> FieldViolation(f, check(f).value) in vs
  {
    if fields == [] then []
    else
      var rest := Violations(check, fields[1..]);
      assert forall f :: f in fields[1..] ==> f in fields;
      match check(fields[0])
      case None => rest
      case Some(k) => [FieldViolation(fields[0], k)] + rest
  }

  /** Field violations, each for a field declared after the one before. */
  predicate InFieldOrder(vs: seq<Violation>) {
    forall i, j :: 0 <= i < j < |vs| ==>
      vs[i].FieldViolation? && vs[j].FieldViolation? && FieldRank(vs[i].field) < FieldRank(vs[j].field)
  }

  /** Dropping the first field keeps the rest in declaration order, after it. */
  lemma TailIncreasing(fields: seq<Field>)
    requires fields != [] && FieldsIncreasing(fields)
    ensures FieldsIncreasing(fields[1..])
    ensures forall g :: g in fields[1..] ==> FieldRank(fields[0]) < FieldRank(g)
  {
    forall g | g in fields[1..] ensures FieldRank(fields[0]) < FieldRank(g) {
      var k :| 0 <= k < |fields[1..]| && fields[1..][k] == g;
      assert fields[k + 1] == g;
    }
    forall i, j | 0 <= i < j < |fields[1..]|
      ensures FieldRank(fields[1..][i]) < FieldRank(fields[1..][j])
    {
      assert fields[1..][i] == fields[i + 1] && fields[1..][j] == fields[j + 1];
    }
  }

  /** A violation for a field declared before all of an ordered list's may
      go in front of it. */
  lemma ConsInFieldOrder(v: Violation, rest: seq<Violation>)
    requires v.FieldViolation? && InFieldOrder(rest)
    requires forall i :: 0 <= i < |rest| ==> rest[i].FieldViolation? && FieldRank(v.field) < FieldRank(rest[i].field)
    ensures InFieldOrder([v] + rest)
  {
    var vs := [v] + rest;
    forall i, j | 0 <= i < j < |vs|
      ensures vs[i].FieldViolation? && vs[j].FieldViolation? && FieldRank(vs[i].field) < FieldRank(vs[j].field)
    {
      assert vs[j] == rest[j - 1];
      if i > 0 {
        assert vs[i] == rest[i - 1];
      }
    }
  }

  /** Listed in declaration order, the fields give their violations in
      declaration order. */
  lemma {:induction false} ViolationsOrdered(check: Field -> Option<ViolationKind>, fields: seq<Field>)
    requires FieldsIncreasing(fields)
    ensures InFieldOrder(Violations(check, fields))
    decreases |fields|
  {
    if fields != [] {
      TailIncreasing(fields);
      var rest := Violations(check, fields[1..]);
      ViolationsOrdered(check, fields[1..]);
      if check(fields[0]).Some? {
        ConsInFieldOrder(FieldViolation(fields[0], check(fields[0]).value), rest);
      }
    }
  }

  /** Violations depend only on what the check says about the listed fields. */
  lemma {:induction false} ViolationsAgree(c1: Field -> Option<ViolationKind>, c2: Field -> Option<ViolationKind>, fields: seq<Field>)
    requires forall f :: f in fields ==> c1(f) == c2(f)
    ensures Violations(c1, fields) == Violations(c2, fields)
    decreases |fields|
  {
    if fields != [] {
      assert forall f :: f in fields[1..] ==> f in fields;
      ViolationsAgree(c1, c2, fields[1..]);
    }
  }

  /** The fields `UserBase` declares beyond the address. */
  datatype Profile = Profile(
    nickname: Option<string>,
    firstName: Option<string>,
    lastName: Option<string>,
    bio: Option<string>,
    profilePictureUrl: Option<string>,
    linkedinProfileUrl: Option<string>,
    githubProfileUrl: Option<string>)

  /** The record the schemas build: the submitted values; an email address is
      stored as `EmailStr` normalises it. */
  function ProfileOf(raw: RawInput): (p: Profile)
    ensures p.nickname == Lookup(raw, Nickname) && p.bio == Lookup(raw, Bio)
    ensures p.firstName == Lookup(raw, FirstName) && p.lastName == Lookup(raw, LastName)
    ensures p.profilePictureUrl == Lookup(raw, ProfilePictureUrl)
    ensures p.linkedinProfileUrl == Lookup(raw, LinkedinProfileUrl)
    ensures p.githubProfileUrl == Lookup(raw, GithubProfileUrl)
  {
    Profile(Lookup(raw, Nickname), Lookup(raw, FirstName), Lookup(raw, LastName), Lookup(raw, Bio),
            Lookup(raw, ProfilePictureUrl), Lookup(raw, LinkedinProfileUrl), Lookup(raw, GithubProfileUrl))
  }

  datatype UserBase = UserBase(email: string, profile: Profile)
  datatype UserCreate = UserCreate(email: string, profile: Profile, password: string)
  datatype UserUpdate = UserUpdate(email: Option<string>, profile: Profile)
  datatype UserResponse = UserResponse(email: string, profile: Profile, id: string, role: UserRole, isProfessional: Option<bool>)

  /** Each field declared after its neighbour gives declaration order. */
  lemma {:induction false} AdjacentIncreasing(fields: seq<Field>)
    requires forall i :: 0 <= i < |fields| - 1 ==> FieldRank(fields[i]) < FieldRank(fields[i + 1])
    ensures FieldsIncreasing(fields)
    decreases |fields|
  {
    if |fields| > 1 {
      var rest := fields[1..];
      forall i | 0 <= i < |rest| - 1 ensures FieldRank(rest[i]) < FieldRank(rest[i + 1]) {
        assert rest[i] == fields[i + 1] && rest[i + 1] == fields[i + 2];
      }
      AdjacentIncreasing(rest);
      forall i, j | 0 <= i < j < |fields| ensures FieldRank(fields[i]) < FieldRank(fields[j]) {
        if i > 0 {
          assert fields[i] == rest[i - 1] && fields[j] == rest[j - 1];
        } else if j > 1 {
          assert fields[1] == rest[0] && fields[j] == rest[j - 1];
        }
      }
    }
  }

  lemma SchemaFieldsIncreasing(schema: Schema)
    ensures FieldsIncreasing(SchemaFields(schema))
  {
    AdjacentIncreasing(SchemaFields(schema));
  }

  /** No field of the schema fails. */
  predicate Passes(schema: Schema, t: CharTable, email: EmailValidator, uuid: UuidParser, flag: BoolParser, raw: RawInput) {
    forall f :: f in SchemaFields(schema) ==> FieldCheck(schema, t, email, uuid, flag, raw, f).None?
  }

  /** The violations of a schema, in declaration order. */
  function SchemaViolations(schema: Schema, t: CharTable, email: EmailValidator, uuid: UuidParser, flag: BoolParser, raw: RawInput): (vs: seq<Violation>)
    ensures vs == [] <==> Passes(schema, t, email, uuid, flag, raw)
    ensures InFieldOrder(vs)
    ensures forall i :: 0 <= i < |vs| ==>
      vs[i].FieldViolation? && vs[i].field in SchemaFields(schema) &&
      FieldCheck(schema, t, email, uuid, flag, raw, vs[i].field) == Some(vs[i].kind)
    ensures forall f :: f in SchemaFields(schema) && FieldCheck(schema, t, email, uuid, flag, raw, f).Some? ==>
      FieldViolation(f, FieldCheck(schema, t, email, uuid, flag, raw, f).value) in vs
  {
    var check := f => FieldCheck(schema, t, email, uuid, flag, raw, f);
    SchemaFieldsIncreasing(schema);
    ViolationsOrdered(check, SchemaFields(schema));
    var vs := Violations(check, SchemaFields(schema));
    if vs == [] then vs
    else
      assert vs[0].field in SchemaFields(schema) && check(vs[0].field).Some?;
      vs
  }

  /** The normalised address of a required email field that passed. */
  function RequiredEmail(schema: Schema, t: CharTable, email: EmailValidator, uuid: UuidParser, flag: BoolParser, raw: RawInput): (e: string)
    requires schema != Update && FieldCheck(schema, t, email, uuid, flag, raw, Email).None?
    ensures Some(e) == email(raw[FieldName(Email)].value)
  {
    email(Required(raw, Email).value).value
  }

  /** `UserBase(**raw)`. */
  function ValidateBase(t: CharTable, email: EmailValidator, uuid: UuidParser, flag: BoolParser, raw: RawInput): (r: Result<UserBase, seq<Violation>>)
    ensures r.Ok? <==> Passes(Base, t, email, uuid, flag, raw)
    ensures r.Ok? ==> r.value.profile == ProfileOf(raw) && "email" in raw && raw["email"].Some? && Some(r.value.email) == email(raw["email"].value)
    ensures r.Err? ==> r.error == SchemaViolations(Base, t, email, uuid, flag, raw) && r.error != []
  {
    var vs := SchemaViolations(Base, t, email, uuid, flag, raw);
    if vs != [] then Err(vs)
    else
      assert Email in SchemaFields(Base);
      Ok(UserBase(RequiredEmail(Base, t, email, uuid, flag, raw), ProfileOf(raw)))
  }

  /** `UserCreate(**raw)`. */
  function ValidateCreate(t: CharTable, email: EmailValidator, uuid: UuidParser, flag: BoolParser, raw: RawInput): (r: Result<UserCreate, seq<Violation>>)
    ensures r.Ok? <==> Passes(Create, t, email, uuid, flag, raw)
    ensures r.Ok? ==>
      && r.value.profile == ProfileOf(raw)
      && "email" in raw && raw["email"].Some? && Some(r.value.email) == email(raw["email"].value)
      && "password" in raw && Some(r.value.password) == raw["password"]
      && StrongPassword(t, r.value.password)
    ensures r.Err? ==> r.error == SchemaViolations(Create, t, email, uuid, flag, raw) && r.error != []
  {
    var vs := SchemaViolations(Create, t, email, uuid, flag, raw);
    if vs != [] then Err(vs)
    else
      assert Email in SchemaFields(Create) && Password in SchemaFields(Create);
      var p := Required(raw, Password).value;
      Ok(UserCreate(RequiredEmail(Create, t, email, uuid, flag, raw), ProfileOf(raw), p))
  }

  /** The address of an update: absent or null stays null. */
  function OptionalEmail(email: EmailValidator, v: Option<string>): Option<string> {
    match v
    case None => None
    case Some(s) => email(s)
  }

  /** `UserUpdate(**raw)`: the root rule runs before any field. */
  function ValidateUpdate(t: CharTable, email: EmailValidator, uuid: UuidParser, flag: BoolParser, raw: RawInput): (r: Result<UserUpdate, seq<Violation>>)
    ensures r.Ok? <==> HasTruthyValue(raw) && Passes(Update, t, email, uuid, flag, raw)
    ensures !HasTruthyValue(raw) ==> r == Err([EmptyUpdate])
    ensures HasTruthyValue(raw) && r.Err? ==> r.error == SchemaViolations(Update, t, email, uuid, flag, raw) && r.error != []
    ensures r.Ok? ==>
      && r.value.profile == ProfileOf(raw)
      && (r.value.email.None? <==> Lookup(raw, Email).None?)
      && (r.value.email.Some? ==> r.value.email == email(Lookup(raw, Email).value))
  {
    match CheckAtLeastOneValue(raw)
    case Err(_) => Err([EmptyUpdate])
    case Ok(_) =>
      var vs := SchemaViolations(Update, t, email, uuid, flag, raw);
      if vs != [] then Err(vs)
      else
        assert Email in SchemaFields(Update);
        Ok(UserUpdate(OptionalEmail(email, Lookup(raw, Email)), ProfileOf(raw)))
  }

  /** The canonical form of a required identifier that parsed. */
  function RequiredId(uuid: UuidParser, raw: RawInput): (id: string)
    requires "id" in raw && raw["id"].Some? && uuid(raw["id"].value).Some?
    ensures Some(id) == uuid(raw["id"].value)
  {
    uuid(raw["id"].value).value
  }

  /** The role of a response: absent means the default. */
  function ResponseRole(raw: RawInput): UserRole
    requires "role" in raw ==> raw["role"].Some? && ParseRole(raw["role"].value).Some?
  {
    if "role" in raw then ParseRole(raw["role"].value).value else DefaultResponseRole
  }

  /** The professional flag of a response: absent means false, null stays
      null. */
  function ResponseFlag(flag: BoolParser, raw: RawInput): Option<bool>
    requires "is_professional" in raw && raw["is_professional"].Some? ==> flag(raw["is_professional"].value).Some?
  {
    if "is_professional" !in raw then Some(false)
    else if raw["is_professional"].None? then None
    else flag(raw["is_professional"].value)
  }

  /** The record of a response whose address, identifier, role and flag
      passed. */
  function ResponseOf(t: CharTable, email: EmailValidator, uuid: UuidParser, flag: BoolParser, raw: RawInput): (u: UserResponse)
    requires FieldCheck(Response, t, email, uuid, flag, raw, Email).None?
    requires FieldCheck(Response, t, email, uuid, flag, raw, Id).None?
    requires FieldCheck(Response, t, email, uuid, flag, raw, Role).None?
    requires FieldCheck(Response, t, email, uuid, flag, raw, IsProfessional).None?
    ensures u.profile == ProfileOf(raw)
    ensures "email" in raw && raw["email"].Some? && Some(u.email) == email(raw["email"].value)
    ensures "id" in raw && raw["id"].Some? && Some(u.id) == uuid(raw["id"].value)
    ensures "role" !in raw ==> u.role == Authenticated
    ensures "role" in raw ==> raw["role"] == Some(RoleValue(u.role))
    ensures "is_professional" !in raw ==> u.isProfessional == Some(false)
    ensures "is_professional" in raw ==>
      if raw["is_professional"].None? then u.isProfessional.None?
      else u.isProfessional.Some? && u.isProfessional == flag(raw["is_professional"].value)
  {
    UserResponse(RequiredEmail(Response, t, email, uuid, flag, raw), ProfileOf(raw), RequiredId(uuid, raw), ResponseRole(raw),
                 ResponseFlag(flag, raw))
  }

  /** `UserResponse(**raw)`. */
  function ValidateResponse(t: CharTable, email: EmailValidator, uuid: UuidParser, flag: BoolParser, raw: RawInput): (r: Result<UserResponse, seq<Violation>>)
    ensures r.Ok? <==> Passes(Response, t, email, uuid, flag, raw)
    ensures r.Ok? ==>
      && r.value.profile == ProfileOf(raw)
      && "email" in raw && raw["email"].Some? && Some(r.value.email) == email(raw["email"].value)
      && "id" in raw && raw["id"].Some? && Some(r.value.id) == uuid(raw["id"].value)
      && ("role" !in raw ==> r.value.role == Authenticated)
      && ("role" in raw ==> raw["role"] == Some(RoleValue(r.value.role)))
      && ("is_professional" !in raw ==> r.value.isProfessional == Some(false))
      && ("is_professional" in raw && raw["is_professional"].None? ==> r.value.isProfessional.None?)
      && ("is_professional" in raw && raw["is_professional"].Some? ==>
            r.value.isProfessional.Some? && r.value.isProfessional == flag(raw["is_professional"].value))
    ensures r.Err? ==> r.error == SchemaViolations(Response, t, email, uuid, flag, raw) && r.error != []
  {
    var vs := SchemaViolations(Response, t, email, uuid, flag, raw);
    if vs != [] then Err(vs)
    else
      assert Email in SchemaFields(Response) && Id in SchemaFields(Response) && Role in SchemaFields(Response);
      assert IsProfessional in SchemaFields(Response);
      Ok(ResponseOf(t, email, uuid, flag, raw))
  }

  /** A key that names no field of the schema changes neither the checks nor
      the record. */
  lemma UnknownKeyIgnored(schema: Schema, t: CharTable, email: EmailValidator, uuid: UuidParser, flag: BoolParser, raw: RawInput, key: string, v: Option<string>)
    requires forall f: Field :: FieldName(f) != key
    ensures forall f :: FieldCheck(schema, t, email, uuid, flag, raw[key := v], f) == FieldCheck(schema, t, email, uuid, flag, raw, f)
    ensures ProfileOf(raw[key := v]) == ProfileOf(raw)
  {
    var raw' := raw[key := v];
    forall f: Field
      ensures FieldCheck(schema, t, email, uuid, flag, raw', f) == FieldCheck(schema, t, email, uuid, flag, raw, f)
      ensures Lookup(raw', f) == Lookup(raw, f)
    {
      assert FieldName(f) != key;
      FieldCheckLocal(schema, t, email, uuid, flag, raw, raw', f);
    }
  }

  /** A field's check reads nothing of the input but that field's key. */
  lemma FieldCheckLocal(schema: Schema, t: CharTable, email: EmailValidator, uuid: UuidParser, flag: BoolParser, raw: RawInput, raw': RawInput, f: Field)
    requires FieldName(f) in raw <==> FieldName(f) in raw'
    requires FieldName(f) in raw ==> raw[FieldName(f)] == raw'[FieldName(f)]
    ensures FieldCheck(schema, t, email, uuid, flag, raw', f) == FieldCheck(schema, t, email, uuid, flag, raw, f)
    ensures Lookup(raw', f) == Lookup(raw, f)
  {
    assert Required(raw', f) == Required(raw, f);
  }

  /** Extra keys are ignored by `UserBase`. */
  lemma BaseIgnoresUnknownKey(t: CharTable, email: EmailValidator, uuid: UuidParser, flag: BoolParser, raw: RawInput, key: string, v: Option<string>)
    requires forall f: Field :: FieldName(f) != key
    ensures ValidateBase(t, email, uuid, flag, raw[key := v]) == ValidateBase(t, email, uuid, flag, raw)
  {
    UnknownKeyIgnored(Base, t, email, uuid, flag, raw, key, v);
    var raw' := raw[key := v];
    assert FieldName(Email) != key;
    assert Passes(Base, t, email, uuid, flag, raw') == Passes(Base, t, email, uuid, flag, raw);
    ViolationsAgree(f => FieldCheck(Base, t, email, uuid, flag, raw', f), f => FieldCheck(Base, t, email, uuid, flag, raw, f), SchemaFields(Base));
  }

  /** `UserCreate` and `UserResponse` declare every field of `UserBase`
      with the same checks. */
  lemma ExtensionPassesBase(schema: Schema, t: CharTable, email: EmailValidator, uuid: UuidParser, flag: BoolParser, raw: RawInput)
    requires schema == Create || schema == Response
    requires Passes(schema, t, email, uuid, flag, raw)
    ensures Passes(Base, t, email, uuid, flag, raw)
  {
    forall f | f in SchemaFields(Base)
      ensures FieldCheck(Base, t, email, uuid, flag, raw, f).None?
    {
      assert f in SchemaFields(schema);
      assert FieldCheck(Base, t, email, uuid, flag, raw, f) == FieldCheck(schema, t, email, uuid, flag, raw, f);
    }
  }

  /** A record `UserCreate` accepts is accepted by `UserBase` too, with the
      same address and profile: the subclass only adds the password rule. */
  lemma CreateExtendsBase(t: CharTable, email: EmailValidator, uuid: UuidParser, flag: BoolParser, raw: RawInput)
    requires ValidateCreate(t, email, uuid, flag, raw).Ok?
    ensures ValidateBase(t, email, uuid, flag, raw) ==
      Ok(UserBase(ValidateCreate(t, email, uuid, flag, raw).value.email, ValidateCreate(t, email, uuid, flag, raw).value.profile))
  {
    ExtensionPassesBase(Create, t, email, uuid, flag, raw);
  }

  /** The same for `UserResponse`, which only adds the identifier, the role
      and the professional flag. */
  lemma ResponseExtendsBase(t: CharTable, email: EmailValidator, uuid: UuidParser, flag: BoolParser, raw: RawInput)
    requires ValidateResponse(t, email, uuid, flag, raw).Ok?
    ensures ValidateBase(t, email, uuid, flag, raw) ==
      Ok(UserBase(ValidateResponse(t, email, uuid, flag, raw).value.email, ValidateResponse(t, email, uuid, flag, raw).value.profile))
  {
    ExtensionPassesBase(Response, t, email, uuid, flag, raw);
  }

  /** A submitted password that breaks a complexity requirement makes
      `UserCreate` fail, reporting the first requirement it breaks. */
  lemma WeakPasswordReported(t: CharTable, email: EmailValidator, uuid: UuidParser, flag: BoolParser, raw: RawInput, p: string)
    requires "password" in raw && raw["password"] == Some(p)
    requires !StrongPassword(t, p)
    ensures ValidateCreate(t, email, uuid, flag, raw).Err?
    ensures FieldViolation(Password, WeakPassword(UnmetRequirements(t, p)[0])) in ValidateCreate(t, email, uuid, flag, raw).error
  {
    CheckReportsFirstUnmet(t, p);
    assert Password in SchemaFields(Create);
  }

  /** A `UserCreate` input without a password fails on that field. */
  lemma MissingPasswordReported(t: CharTable, email: EmailValidator, uuid: UuidParser, flag: BoolParser, raw: RawInput)
    requires "password" !in raw
    ensures ValidateCreate(t, email, uuid, flag, raw).Err?
    ensures FieldViolation(Password, MissingField) in ValidateCreate(t, email, uuid, flag, raw).error
  {
    assert Password in SchemaFields(Create);
  }

  /** A present link that is not an http(s) address with a host fails on its
      own field, whichever of the three it is. */
  lemma BadLinkReported(schema: Schema, t: CharTable, email: EmailValidator, uuid: UuidParser, flag: BoolParser, raw: RawInput, f: Field, u: string)
    requires f in {ProfilePictureUrl, LinkedinProfileUrl, GithubProfileUrl}
    requires FieldName(f) in raw && raw[FieldName(f)] == Some(u) && !IsWebUrl(u)
    ensures FieldViolation(f, BadUrl) in SchemaViolations(schema, t, email, uuid, flag, raw)
  {
    assert f in SchemaFields(schema);
  }

  /** The update rule does not look at field names: a single non-empty value
      under a key that names no field passes it, and the update then carries
      no value at all. */
  lemma UnknownKeyFillsUpdate(t: CharTable, email: EmailValidator, uuid: UuidParser, flag: BoolParser, key: string, s: string)
    requires forall f: Field :: FieldName(f) != key
    requires s != ""
    ensures ValidateUpdate(t, email, uuid, flag, map[key := Some(s)]) ==
      Ok(UserUpdate(None, Profile(None, None, None, None, None, None, None)))
  {
    var raw := map[key := Some(s)];
    OneValueSuffices(raw, key, s);
    forall f: Field ensures Lookup(raw, f) == None {
      assert FieldName(f) != key;
    }
    assert Passes(Update, t, email, uuid, flag, raw);
  }

  /** An update that only sets the biography is accepted as it is: no other
      field is required. */
  lemma BioOnlyUpdate(t: CharTable, email: EmailValidator, uuid: UuidParser, flag: BoolParser, bio: string)
    requires bio != ""
    ensures ValidateUpdate(t, email, uuid, flag, map["bio" := Some(bio)]) ==
      Ok(UserUpdate(None, Profile(None, None, None, Some(bio), None, None, None)))
  {
    var raw := map["bio" := Some(bio)];
    OneValueSuffices(raw, "bio", bio);
    BioOnlyFields(raw, bio);
    assert ProfileOf(raw) == Profile(None, None, None, Some(bio), None, None, None);
    assert Passes(Update, t, email, uuid, flag, raw) by {
      forall f | f in SchemaFields(Update) ensures FieldCheck(Update, t, email, uuid, flag, raw, f).None? {
        if f != Bio {
          AbsentFieldCheck(Update, t, email, uuid, flag, raw, f);
        }
      }
    }
  }

  /** In a biography-only input, every other field is absent. */
  lemma BioOnlyFields(raw: RawInput, bio: string)
    requires raw == map["bio" := Some(bio)]
    ensures forall f: Field :: f != Bio ==> FieldName(f) !in raw && Lookup(raw, f) == None
    ensures Lookup(raw, Bio) == Some(bio)
  {
    forall f: Field | f != Bio ensures FieldName(f) !in raw {
      assert FieldName(f) != "bio";
    }
  }

  /** A violation list in strictly increasing field order that holds
      nothing but `v`, and holds it, is `[v]`. */
  lemma OnlyViolation(vs: seq<Violation>, v: Violation)
    requires InFieldOrder(vs)
    requires forall i :: 0 <= i < |vs| ==> vs[i] == v
    requires v in vs
    ensures vs == [v]
  {
    assert vs[0] == vs[|vs| - 1];
  }

  /** The identifier a `UserResponse` requires is present and parses. */
  predicate ValidId(uuid: UuidParser, raw: RawInput) {
    "id" in raw && raw["id"].Some? && uuid(raw["id"].value).Some?
  }

  /** A professional flag that is absent, null or parses as a `bool`. */
  predicate ValidFlag(flag: BoolParser, raw: RawInput) {
    "is_professional" in raw && raw["is_professional"].Some? ==> flag(raw["is_professional"].value).Some?
  }

  /** A professional flag that pydantic's `bool` parsing refuses fails on
      that field. */
  lemma InvalidFlagReported(t: CharTable, email: EmailValidator, uuid: UuidParser, flag: BoolParser, raw: RawInput, s: string)
    requires "is_professional" in raw && raw["is_professional"] == Some(s) && flag(s).None?
    ensures ValidateResponse(t, email, uuid, flag, raw).Err?
    ensures FieldViolation(IsProfessional, InvalidBool) in ValidateResponse(t, email, uuid, flag, raw).error
  {
    assert IsProfessional in SchemaFields(Response);
    assert FieldCheck(Response, t, email, uuid, flag, raw, IsProfessional) == Some(InvalidBool);
    assert FieldViolation(IsProfessional, InvalidBool) in SchemaViolations(Response, t, email, uuid, flag, raw);
  }

  /** A response input without an identifier fails on that field. */
  lemma MissingIdReported(t: CharTable, email: EmailValidator, uuid: UuidParser, flag: BoolParser, raw: RawInput)
    requires "id" !in raw
    ensures ValidateResponse(t, email, uuid, flag, raw).Err?
    ensures FieldViolation(Id, MissingField) in ValidateResponse(t, email, uuid, flag, raw).error
  {
    assert Id in SchemaFields(Response);
    assert FieldCheck(Response, t, email, uuid, flag, raw, Id) == Some(MissingField);
    assert FieldViolation(Id, MissingField) in SchemaViolations(Response, t, email, uuid, flag, raw);
  }

  /** An identifier that `uuid.UUID` refuses fails on that field. */
  lemma InvalidIdReported(t: CharTable, email: EmailValidator, uuid: UuidParser, flag: BoolParser, raw: RawInput, s: string)
    requires "id" in raw && raw["id"] == Some(s) && uuid(s).None?
    ensures ValidateResponse(t, email, uuid, flag, raw).Err?
    ensures FieldViolation(Id, InvalidUuid) in ValidateResponse(t, email, uuid, flag, raw).error
  {
    assert Id in SchemaFields(Response);
    assert FieldCheck(Response, t, email, uuid, flag, raw, Id) == Some(InvalidUuid);
    assert FieldViolation(Id, InvalidUuid) in SchemaViolations(Response, t, email, uuid, flag, raw);
  }

  /** A response with a valid identifier and flag and without a role gets
      AUTHENTICATED. */
  lemma ResponseRoleDefault(t: CharTable, email: EmailValidator, uuid: UuidParser, flag: BoolParser, raw: RawInput)
    requires Passes(Base, t, email, uuid, flag, raw)
    requires ValidId(uuid, raw) && ValidFlag(flag, raw)
    requires "role" !in raw
    ensures ValidateResponse(t, email, uuid, flag, raw).Ok?
    ensures ValidateResponse(t, email, uuid, flag, raw).value.role == Authenticated
    ensures Some(ValidateResponse(t, email, uuid, flag, raw).value.id) == uuid(raw["id"].value)
  {
    ResponseOthersPass(t, email, uuid, flag, raw);
    assert FieldCheck(Response, t, email, uuid, flag, raw, Role).None?;
  }

  /** With the `UserBase` fields passing, a valid identifier and a valid
      flag, only the role can fail a response. */
  lemma ResponseOthersPass(t: CharTable, email: EmailValidator, uuid: UuidParser, flag: BoolParser, raw: RawInput)
    requires Passes(Base, t, email, uuid, flag, raw)
    requires ValidId(uuid, raw) && ValidFlag(flag, raw)
    ensures forall f :: f in SchemaFields(Response) && f != Role ==> FieldCheck(Response, t, email, uuid, flag, raw, f).None?
  {
    forall f | f in SchemaFields(Response) && f != Role
      ensures FieldCheck(Response, t, email, uuid, flag, raw, f).None?
    {
      if f != Id && f != IsProfessional {
        assert f in SchemaFields(Base);
        assert FieldCheck(Base, t, email, uuid, flag, raw, f) == FieldCheck(Response, t, email, uuid, flag, raw, f);
      }
    }
  }

  /** An explicit null role, or a value outside the enumeration, is the one
      violation of an otherwise valid response. */
  lemma ResponseRoleInvalid(t: CharTable, email: EmailValidator, uuid: UuidParser, flag: BoolParser, raw: RawInput)
    requires Passes(Base, t, email, uuid, flag, raw)
    requires ValidId(uuid, raw) && ValidFlag(flag, raw)
    requires "role" in raw && (raw["role"].None? || ParseRole(raw["role"].value).None?)
    ensures ValidateResponse(t, email, uuid, flag, raw) == Err([FieldViolation(Role, InvalidRole)])
  {
    ResponseOthersPass(t, email, uuid, flag, raw);
    var vs := SchemaViolations(Response, t, email, uuid, flag, raw);
    assert Role in SchemaFields(Response);
    assert FieldCheck(Response, t, email, uuid, flag, raw, Role) == Some(InvalidRole);
    assert FieldViolation(Role, InvalidRole) in vs;
    forall i | 0 <= i < |vs| ensures vs[i] == FieldViolation(Role, InvalidRole) {
      assert vs[i] in vs;
    }
    OnlyViolation(vs, FieldViolation(Role, InvalidRole));
  }

  /** A submitted address that `EmailStr` refuses fails on the email field,
      in every schema. */
  lemma InvalidEmailReported(schema: Schema, t: CharTable, email: EmailValidator, uuid: UuidParser, flag: BoolParser, raw: RawInput, s: string)
    requires "email" in raw && raw["email"] == Some(s) && email(s).None?
    ensures FieldViolation(Email, InvalidEmail) in SchemaViolations(schema, t, email, uuid, flag, raw)
  {
    assert Email in SchemaFields(schema);
  }
}
