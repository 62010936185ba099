/** The tools the chat agent calls: create with its placeholder, missing-field
    and validation checks, lookup of a record by id or email, update and
    delete. A tool's JSON answer becomes a `ToolResult`. */
module RegistrationTools {
  import opened Common
  import opened Schemas
  import opened Models
  import opened RegService

  /** The prefix that tells the agent to pass an error on to the user. */
  const Sentinel: string := "TELL THE USER:"

  /** A tool payload: the fields the agent supplied, by name. */
  type Payload = map<FieldName, string>

  /** The friendly message a validation failure is turned into. */
  datatype InvalidKind =
    | InvalidDateOfBirth
    | InvalidEmail
    | InvalidPhone
    | OtherInvalid(detail: string)

  /** Which advice follows "User not found with identifier: …". */
  datatype NotFoundHint = CheckEmailOrId | ProvideValidEmailOrId

  datatype ToolError =
    | PlaceholderRejected(field: FieldName, value: string)
    | MissingRequired(fields: seq<FieldName>)
    | Invalid(kind: InvalidKind)
    | EmailExists(email: string)
    | CreateFailed
    | NotFound(identifier: string, hint: NotFoundHint)
    | UpdateRejected(detail: string)
    | NoFieldsToUpdate

  datatype ToolResult =
    | Created(id: Id, message: string)
    | Found(record: Registration)
    | Updated(id: Id)
    | Deleted
    | Failed(error: ToolError)

  /** The field's name in the payload and in the schemas. */
  function SourceName(f: FieldName): string {
    match f
    case FullName => "full_name"
    case Email => "email"
    case Phone => "phone"
    case DateOfBirth => "date_of_birth"
    case Address => "address"
  }

  /** `s.replace('_', ' ')`: every underscore becomes a space, every other
      character stays, so no underscore is left. */
  function UnderscoresToSpaces(s: string): (r: string)
    ensures |r| == |s|
    ensures forall k :: 0 <= k < |s| ==> r[k] == if s[k] == '_' then ' ' else s[k]
    ensures forall k :: 0 <= k < |r| ==> r[k] != '_'
  {
    seq(|s|, k requires 0 <= k < |s| => if s[k] == '_' then ' ' else s[k])
  }

  /** `field.replace('_', ' ')`, the name the placeholder message uses. */
  function DisplayName(f: FieldName): string {
    UnderscoresToSpaces(SourceName(f))
  }

  /** The text under the "error" key of a failed tool's answer. */
  function ErrorText(e: ToolError): string {
    match e
    case PlaceholderRejected(f, v) => Sentinel + PlaceholderAdvice(f, v)
    case MissingRequired(_) =>
      "TOOL ERROR: Missing all required information. "
      + Sentinel + " 'I'd be happy to help you register a new user! "
      + "Please provide the following information: "
      + "full name, email address, phone number, date of birth (YYYY-MM-DD format), and address (optional).'"
    case Invalid(InvalidDateOfBirth) =>
      "Invalid date of birth. Please provide a date in YYYY-MM-DD format (e.g., 1990-01-01)."
    case Invalid(InvalidEmail) =>
      "Invalid email address. Please provide a valid email (e.g., user@example.com)."
    case Invalid(InvalidPhone) =>
      "Invalid phone number. Please provide a valid phone number (10-15 digits)."
    case Invalid(OtherInvalid(detail)) =>
      "Validation error: " + detail
    case EmailExists(email) =>
      "A user with email " + email + " already exists. Please use a different email address."
    case CreateFailed =>
      "Failed to create registration. Please try again."
    case NotFound(identifier, hint) => NotFoundHead(identifier) + NotFoundAdvice(hint)
    case UpdateRejected(detail) =>
      detail
    case NoFieldsToUpdate =>
      "No fields to update. Please specify what you want to change."
  }

  function PlaceholderAdvice(f: FieldName, v: string): string {
    PlaceholderQuote(v) + PlaceholderRequest(f)
  }

  function PlaceholderQuote(v: string): string {
    " I cannot use example or placeholder data like '" + v
  }

  function PlaceholderRequest(f: FieldName): string {
    "'. Please provide the REAL " + DisplayName(f) + " for the person you want to register."
  }

  function NotFoundHead(identifier: string): string {
    "User not found with identifier: " + identifier
  }

  function NotFoundAdvice(hint: NotFoundHint): string {
    match hint
    case CheckEmailOrId => ". Please check the email or ID."
    case ProvideValidEmailOrId => ". Please provide a valid email or user ID."
  }

  /** A rejected placeholder is reported in words the agent must pass on: the
      text starts with the sentinel. */
  lemma PlaceholderTextTellsUser(f: FieldName, v: string)
    ensures Sentinel <= ErrorText(PlaceholderRejected(f, v))
  {
  }

  /** "User not found with identifier: …" names the identifier it was given. */
  lemma NotFoundTextNamesIdentifier(identifier: string, hint: NotFoundHint)
    ensures NotFoundHead(identifier) <= ErrorText(NotFound(identifier, hint))
  {
  }

  /** The email-exists text names the email that was refused. */
  lemma EmailExistsTextNamesEmail(email: string)
    ensures "A user with email " + email <= ErrorText(EmailExists(email))
  {
    var head := "A user with email " + email;
    assert ErrorText(EmailExists(email)) == head + " already exists. Please use a different email address.";
  }

  /** The placeholder text quotes the rejected value right after the
      sentinel's opening words. */
  lemma PlaceholderTextQuotesValue(f: FieldName, v: string)
    ensures Sentinel + PlaceholderQuote(v) <= ErrorText(PlaceholderRejected(f, v))
  {
    assert ErrorText(PlaceholderRejected(f, v)) == Sentinel + PlaceholderAdvice(f, v);
    PrefixOfAppend(Sentinel, PlaceholderQuote(v), PlaceholderRequest(f));
  }

  lemma PrefixOfAppend(a: string, b: string, c: string)
    ensures a + b <= a + (b + c)
  {
    assert (a + (b + c))[..|a + b|] == a + b;
  }

  /** A general validation error ends with the validation detail. */
  lemma ValidationTextEndsWithDetail(detail: string)
    ensures var t := ErrorText(Invalid(OtherInvalid(detail)));
            |detail| <= |t| && t[|t| - |detail|..] == detail
  {
    var prefix := "Validation error: ";
    assert ErrorText(Invalid(OtherInvalid(detail))) == prefix + detail;
    assert (prefix + detail)[|prefix|..] == detail;
  }

  /** Every error text that carries something the user or the agent supplied
      carries it: a rejected placeholder is reported with the sentinel and
      quotes the value, a taken email and an unknown identifier are named, and
      a general validation error ends with the validation detail. */
  lemma ErrorTextQuotesInput(e: ToolError)
    ensures e.PlaceholderRejected? ==> Sentinel <= ErrorText(e) && Sentinel + PlaceholderQuote(e.value) <= ErrorText(e)
    ensures e.EmailExists? ==> "A user with email " + e.email <= ErrorText(e)
    ensures e.NotFound? ==> NotFoundHead(e.identifier) <= ErrorText(e)
    ensures e.Invalid? && e.kind.OtherInvalid? ==>
              |e.kind.detail| <= |ErrorText(e)| && ErrorText(e)[|ErrorText(e)| - |e.kind.detail|..] == e.kind.detail
  {
    match e
    case PlaceholderRejected(f, v) =>
      PlaceholderTextTellsUser(f, v);
      PlaceholderTextQuotesValue(f, v);
    case EmailExists(email) =>
      EmailExistsTextNamesEmail(email);
    case NotFound(identifier, hint) =>
      NotFoundTextNamesIdentifier(identifier, hint);
    case Invalid(kind) =>
      if kind.OtherInvalid? {
        ValidationTextEndsWithDetail(kind.detail);
      }
    case _ =>
  }

  /** "Successfully created registration for <name>". */
  function CreatedMessage(name: string): string {
    "Successfully created registration for " + name
  }

  // ---------------------------------------------------------------------------
  // Placeholder deny-lists

  /** The fields checked against a deny-list, in the order they are checked. */
  const PlaceholderFields: seq<FieldName> := [FullName, Email, Phone]

  const NamePlaceholders: seq<string> := ["john doe", "jane doe", "test user", "example user", "user name"]
  const EmailPlaceholders: seq<string> :=
    ["john.doe@example.com", "jane.doe@example.com", "test@example.com", "user@example.com", "example@example.com"]
  const PhonePlaceholders: seq<string> := ["1234567890", "0000000000", "9999999999"]

  function DenyList(f: FieldName): seq<string> {
    match f
    case FullName => NamePlaceholders
    case Email => EmailPlaceholders
    case Phone => PhonePlaceholders
    case _ => []
  }

  /** `str(payload.get(field, ''))`. */
  function ProbeValue(payload: Payload, f: FieldName): string {
    if f in payload then payload[f] else ""
  }

  /** The field's value, lower-cased and stripped, is on the field's deny-list. */
  predicate IsPlaceholder(payload: Payload, f: FieldName) {
    Trim(Lower(ProbeValue(payload, f))) in DenyList(f)
  }

  /** The deny-list test ignores case and leading whitespace: a value
      lower-cased, or with a whitespace character in front, is a placeholder
      exactly when the value itself is. */
  lemma PlaceholderIgnoresCaseAndPadding(payload: Payload, f: FieldName, v: string, c: char)
    requires IsSpace(c)
    ensures IsPlaceholder(payload[f := Lower(v)], f) <==> IsPlaceholder(payload[f := v], f)
    ensures IsPlaceholder(payload[f := [c] + v], f) <==> IsPlaceholder(payload[f := v], f)
  {
    assert ProbeValue(payload[f := Lower(v)], f) == Lower(v);
    assert ProbeValue(payload[f := [c] + v], f) == [c] + v;
    assert ProbeValue(payload[f := v], f) == v;
    LowerIdempotent(v);
    TrimIgnoresLeadingSpace(c, v);
  }

  /** The first of `fields` that `denied` holds for: it is one of them, it
      comes no later than any field `denied` holds for, and there is none
      exactly when `denied` holds for no field. */
  function FirstDenied(fields: seq<FieldName>, denied: FieldName -> bool): (r: Option<FieldName>)
    ensures r.Some? ==> r.value in fields && denied(r.value)
    ensures r.None? <==> forall f :: f in fields ==> !denied(f)
    ensures forall j :: 0 <= j < |fields| && denied(fields[j]) ==> r.Some? && r.value in fields[..j + 1]
  {
    if fields == [] then None
    else if denied(fields[0]) then Some(fields[0])
    else
      var r := FirstDenied(fields[1..], denied);
      FirstDeniedShift(fields, denied, r);
      r
  }

  lemma FirstDeniedShift(fields: seq<FieldName>, denied: FieldName -> bool, r: Option<FieldName>)
    requires fields != [] && !denied(fields[0])
    requires forall j :: 0 <= j < |fields[1..]| && denied(fields[1..][j]) ==> r.Some? && r.value in fields[1..][..j + 1]
    ensures forall j :: 0 <= j < |fields| && denied(fields[j]) ==> r.Some? && r.value in fields[..j + 1]
  {
    forall j | 0 <= j < |fields| && denied(fields[j]) ensures r.Some? && r.value in fields[..j + 1] {
      assert fields[j] == fields[1..][j - 1];
      assert fields[1..][..j] == fields[1..j + 1];
    }
  }

  /** The scan over `fields` in order, returning at the first denied one. */
  method ScanDenied(fields: seq<FieldName>, denied: FieldName -> bool) returns (r: Option<FieldName>)
    ensures r == FirstDenied(fields, denied)
  {
    for i := 0 to |fields|
      invariant FirstDenied(fields[i..], denied) == FirstDenied(fields, denied)
    {
      if denied(fields[i]) {
        return Some(fields[i]);
      }
      assert fields[i..][1..] == fields[i + 1..];
    }
    assert fields[|fields|..] == [];
    return None;
  }

  function PlaceholderTest(payload: Payload): FieldName -> bool {
    f => IsPlaceholder(payload, f)
  }

  /** The first field, in the order full name, email, phone, whose value is a
      placeholder. */
  function FirstPlaceholder(payload: Payload): Option<FieldName> {
    FirstDenied(PlaceholderFields, PlaceholderTest(payload))
  }

  /** The deny-list scan of `create`. */
  method FindPlaceholder(payload: Payload) returns (r: Option<FieldName>)
    ensures r == FirstPlaceholder(payload)
  {
    r := ScanDenied(PlaceholderFields, PlaceholderTest(payload));
  }

  // ---------------------------------------------------------------------------
  // Required fields

  const RequiredFields: seq<FieldName> := [FullName, Email, Phone, DateOfBirth]

  /** `not payload.get(f)`: the field is absent or empty. */
  predicate IsMissing(payload: Payload, f: FieldName) {
    f !in payload || payload[f] == ""
  }

  /** The fields of `fields` that are missing, in the order of `fields`. */
  function MissingIn(payload: Payload, fields: seq<FieldName>): (r: seq<FieldName>)
    requires InFieldOrder(fields)
    ensures forall f :: f in r <==> f in fields && IsMissing(payload, f)
    ensures InFieldOrder(r)
  {
    if fields == [] then []
    else
      var rest := MissingIn(payload, fields[1..]);
      if IsMissing(payload, fields[0]) then
        MissingConsInOrder(fields, rest);
        [fields[0]] + rest
      else
        rest
  }

  lemma MissingConsInOrder(fields: seq<FieldName>, rest: seq<FieldName>)
    requires InFieldOrder(fields) && fields != [] && InFieldOrder(rest)
    requires forall f :: f in rest ==> f in fields[1..]
    ensures InFieldOrder([fields[0]] + rest)
  {
    var r := [fields[0]] + rest;
    forall i, j | 0 <= i < j < |r| ensures FieldIndex(r[i]) < FieldIndex(r[j]) {
      assert r[j] == rest[j - 1] && r[j] in fields[1..];
      var k :| 0 <= k < |fields[1..]| && fields[1..][k] == r[j];
      assert fields[k + 1] == r[j];
      if i > 0 {
        assert r[i] == rest[i - 1];
      }
    }
  }

  /** `[f for f in required_fields if not payload.get(f) or ...]`. */
  function MissingFields(payload: Payload): (r: seq<FieldName>)
    ensures forall f :: f in r <==> f in RequiredFields && IsMissing(payload, f)
    ensures InFieldOrder(r)
  {
    MissingIn(payload, RequiredFields)
  }

  /** Once no required field is missing, the payload as `RegistrationCreate`
      keyword arguments; `address` is absent unless given. */
  function ToRaw(payload: Payload): (raw: RawCreate)
    requires MissingFields(payload) == []
    ensures && raw.fullName == ProbeValue(payload, FullName) != "" && raw.email == ProbeValue(payload, Email) != ""
            && raw.phone == ProbeValue(payload, Phone) != "" && raw.dateOfBirth == ProbeValue(payload, DateOfBirth) != ""
    ensures raw.address.Some? <==> Address in payload
    ensures raw.address.Some? ==> raw.address.value == payload[Address]
  {
    assert forall f :: f in RequiredFields ==> f in payload && payload[f] != "";
    RawCreate(payload[FullName], payload[Email], payload[Phone], payload[DateOfBirth],
      if Address in payload then Some(payload[Address]) else None)
  }

  // ---------------------------------------------------------------------------
  // Validation failures

  /** The friendly message for a failed validation: date of birth first, then
      email, then phone, otherwise the error itself. */
  function Classify(env: Env, errors: seq<FieldError>): (k: InvalidKind)
    ensures k == InvalidDateOfBirth <==> HasErrorOn(errors, DateOfBirth)
    ensures k == InvalidEmail <==> !HasErrorOn(errors, DateOfBirth) && HasErrorOn(errors, Email)
    ensures k == InvalidPhone <==> !HasErrorOn(errors, DateOfBirth) && !HasErrorOn(errors, Email) && HasErrorOn(errors, Phone)
    ensures k.OtherInvalid? ==> k.detail == env.renderErrors(errors)
  {
    if HasErrorOn(errors, DateOfBirth) then InvalidDateOfBirth
    else if HasErrorOn(errors, Email) then InvalidEmail
    else if HasErrorOn(errors, Phone) then InvalidPhone
    else OtherInvalid(env.renderErrors(errors))
  }

  /** The checks `create` makes before touching the store, in order:
      placeholders, missing fields, validation. */
  function Precheck(env: Env, payload: Payload): (r: Result<NewRegistration, ToolError>)
    ensures FirstPlaceholder(payload).Some? ==>
              r == Err(PlaceholderRejected(FirstPlaceholder(payload).value, ProbeValue(payload, FirstPlaceholder(payload).value)))
    ensures FirstPlaceholder(payload).None? && MissingFields(payload) != [] ==> r == Err(MissingRequired(MissingFields(payload)))
    ensures r.Ok? ==> MissingFields(payload) == [] && ValidateCreate(env, ToRaw(payload)) == Ok(r.value)
                      && IsNormalized(r.value, env.today)
    ensures r.Err? && r.error.Invalid? ==> MissingFields(payload) == [] && ValidateCreate(env, ToRaw(payload)).Err?
    ensures FirstPlaceholder(payload).None? && MissingFields(payload) == [] ==>
              var v := ValidateCreate(env, ToRaw(payload));
              && (v.Err? ==> r == Err(Invalid(Classify(env, v.error))))
              && (v.Ok? ==> r == Ok(v.value))
  {
    match FirstPlaceholder(payload)
    case Some(f) => Err(PlaceholderRejected(f, ProbeValue(payload, f)))
    case None =>
      var missing := MissingFields(payload);
      if missing != [] then Err(MissingRequired(missing))
      else
        match ValidateCreate(env, ToRaw(payload))
        case Err(errors) => Err(Invalid(Classify(env, errors)))
        case Ok(data) => Ok(data)
  }

  /** A placeholder is reported even when required fields are also missing. */
  lemma PlaceholderBeatsMissing(env: Env, payload: Payload, f: FieldName)
    requires FirstPlaceholder(payload) == Some(f) && MissingFields(payload) != []
    ensures Precheck(env, payload) == Err(PlaceholderRejected(f, ProbeValue(payload, f)))
    ensures Sentinel <= ErrorText(Precheck(env, payload).error)
  {
  }

  /** A bad date of birth is what the user hears about, whatever else failed. */
  lemma DateOfBirthBlamedFirst(env: Env, payload: Payload)
    requires FirstPlaceholder(payload).None? && MissingFields(payload) == []
    requires ValidateCreate(env, ToRaw(payload)).Err?
    requires CreateFieldError(env, ToRaw(payload), DateOfBirth).Some?
    ensures Precheck(env, payload) == Err(Invalid(InvalidDateOfBirth))
  {
  }

  /** What `create` answers once the checks pass, from the store's verdict. */
  function StoreOutcome(data: NewRegistration, r: Result<Registration, StoreError>): (t: ToolResult)
    ensures t.Created? <==> r.Ok?
    ensures r.Ok? ==> t.id == r.value.id && t.message == CreatedMessage(r.value.fullName)
    ensures t == Failed(EmailExists(data.email)) <==> r == Err(DuplicateEmail)
    ensures t == Failed(CreateFailed) <==> r == Err(ValueTooLong)
  {
    match r
    case Ok(rec) => Created(rec.id, CreatedMessage(rec.fullName))
    case Err(DuplicateEmail) => Failed(EmailExists(data.email))
    case Err(ValueTooLong) => Failed(CreateFailed)
  }

  /** The answer `create` gives for checked data, from the table it is
      inserted into: created under the drawn id, naming the stored name, when
      the email is new and the row fits; the email-exists text when the email
      is taken; the generic failure when a value is too wide. */
  lemma CreateOutcomeOfInsert(rows: Rows, data: NewRegistration, id: Id, now: Timestamp)
    ensures var t := StoreOutcome(data, Insert(rows, data, id, now));
            && (t == Created(id, CreatedMessage(data.fullName)) <==> ColumnsFit(NewRow(data, id, now)) && !EmailTaken(rows, data.email))
            && (t == Failed(EmailExists(data.email)) <==> ColumnsFit(NewRow(data, id, now)) && EmailTaken(rows, data.email))
            && (t == Failed(CreateFailed) <==> !ColumnsFit(NewRow(data, id, now)))
  {
  }

  /** Creating the same person twice: once checked data has been stored, the
      same data is refused as a duplicate email, whatever id the second
      attempt draws. */
  lemma SecondCreateFails(rows: Rows, data: NewRegistration, id1: Id, id2: Id, now1: Timestamp, now2: Timestamp)
    requires TableInvariant(rows) && id1 !in rows
    requires Insert(rows, data, id1, now1).Ok?
    ensures var rows' := rows[id1 := NewRow(data, id1, now1)];
            && Insert(rows', data, id2, now2) == Err(DuplicateEmail)
            && StoreOutcome(data, Insert(rows', data, id2, now2)) == Failed(EmailExists(data.email))
  {
    var rows' := rows[id1 := NewRow(data, id1, now1)];
    assert rows'[id1].email == data.email;
    assert ColumnsFit(NewRow(data, id2, now2));
  }

  // ---------------------------------------------------------------------------
  // Identifier resolution

  /** `_resolve_registration`: the identifier as a UUID first; when it is not
      one, or no row has that id, the row whose email is the identifier. */
  ghost function Resolution(rows: Rows, parseUuid: string -> Option<Id>, identifier: string): (r: Option<Registration>)
    requires TableInvariant(rows)
    ensures r.Some? ==> r.value.id in rows && rows[r.value.id] == r.value
    ensures r.Some? ==> Some(r.value.id) == parseUuid(identifier) || r.value.email == identifier
    ensures r.None? <==> (parseUuid(identifier).None? || parseUuid(identifier).value !in rows) && !EmailTaken(rows, identifier)
  {
    match parseUuid(identifier)
    case Some(id) => if id in rows then Some(rows[id]) else ByEmail(rows, identifier)
    case None => ByEmail(rows, identifier)
  }

  /** An id match wins over an email match. */
  lemma IdBeatsEmail(rows: Rows, parseUuid: string -> Option<Id>, identifier: string, k: Id)
    requires TableInvariant(rows) && k in rows && rows[k].email == identifier
    requires parseUuid(identifier).Some? && parseUuid(identifier).value in rows
    ensures Resolution(rows, parseUuid, identifier) == Some(rows[parseUuid(identifier).value])
  {
  }

  /** Without an id match, a row's email finds exactly that row. */
  lemma EmailFallbackFindsRow(rows: Rows, parseUuid: string -> Option<Id>, k: Id)
    requires TableInvariant(rows) && k in rows
    requires parseUuid(rows[k].email).None? || parseUuid(rows[k].email).value !in rows
    ensures Resolution(rows, parseUuid, rows[k].email) == Some(rows[k])
  {
    ByEmailIsThatRow(rows, k);
  }

  /** Identifiers are the canonical text of UUIDs: a row's own id parses to
      itself. */
  predicate IdsCanonical(rows: Rows, parseUuid: string -> Option<Id>) {
    forall k :: k in rows ==> parseUuid(k) == Some(k)
  }

  /** A row's id resolves to that row. */
  lemma ResolveOwnId(rows: Rows, parseUuid: string -> Option<Id>, k: Id)
    requires TableInvariant(rows) && IdsCanonical(rows, parseUuid) && k in rows
    ensures Resolution(rows, parseUuid, k) == Some(rows[k])
  {
  }

  /** An update the store can commit: when validation passes and the
      identifier resolves, the patch is admitted for the row found. */
  ghost predicate UpdateAdmissible(rows: Rows, env: Env, identifier: string, raw: RawUpdate)
    requires TableInvariant(rows)
  {
    var v := ValidateUpdate(env, raw);
    var found := Resolution(rows, env.parseUuid, identifier);
    v.Ok? && found.Some? ==> Admits(rows, found.value.id, v.value)
  }

  /** `RegistrationTools(db)`: the tools over one database session. */
  class Tools {
    const db: Table
    const env: Env

    ghost predicate Valid()
      reads this, db
    {
      db.Valid()
    }

    constructor(db: Table, env: Env)
      ensures this.db == db && this.env == env
    {
      this.db := db;
      this.env := env;
    }

    /** `create`: the checks, then the insert under a fresh id. Nothing is
        written unless every check passes and the store accepts the row. */
    method Create(payload: Payload, id: Id, now: Timestamp) returns (r: ToolResult)
      requires Valid() && id !in db.rows
      modifies db
      ensures Valid()
      ensures Precheck(env, payload).Err? ==> r == Failed(Precheck(env, payload).error) && db.rows == old(db.rows)
      ensures Precheck(env, payload).Ok? ==>
                var data := Precheck(env, payload).value;
                var stored := Insert(old(db.rows), data, id, now);
                && r == StoreOutcome(data, stored)
                && db.rows == (if stored.Ok? then old(db.rows)[id := stored.value] else old(db.rows))
    {
      var found := FindPlaceholder(payload);
      if found.Some? {
        return Failed(PlaceholderRejected(found.value, ProbeValue(payload, found.value)));
      }
      var missing := MissingFields(payload);
      if missing != [] {
        return Failed(MissingRequired(missing));
      }
      var validated := ValidateCreate(env, ToRaw(payload));
      if validated.Err? {
        return Failed(Invalid(Classify(env, validated.error)));
      }
      var data := validated.value;
      var stored := db.Create(data, id, now);
      r := StoreOutcome(data, stored);
    }

    /** `_resolve_registration`. */
    method Resolve(identifier: string) returns (r: Option<Registration>)
      requires Valid()
      ensures r == Resolution(db.rows, env.parseUuid, identifier)
    {
      r := None;
      var id := env.parseUuid(identifier);
      if id.Some? {
        r := db.Get(id.value);
      }
      if r.None? {
        r := db.GetByEmail(identifier);
      }
    }

    /** `get`: the record the identifier resolves to, or not-found. */
    method Get(identifier: string) returns (r: ToolResult)
      requires Valid()
      ensures var found := Resolution(db.rows, env.parseUuid, identifier);
              && (found.Some? ==> r == Found(found.value))
              && (found.None? ==> r == Failed(NotFound(identifier, CheckEmailOrId)))
    {
      var found := Resolve(identifier);
      if found.None? {
        return Failed(NotFound(identifier, CheckEmailOrId));
      }
      r := Found(found.value);
    }

    /** `update`: validate the updates, resolve the identifier, then apply the
        patch. A rejected update or an unknown identifier writes nothing. */
    method Update(identifier: string, raw: RawUpdate) returns (r: ToolResult)
      requires Valid() && UpdateAdmissible(db.rows, env, identifier, raw)
      modifies db
      ensures Valid()
      ensures var v := ValidateUpdate(env, raw);
              var found := Resolution(old(db.rows), env.parseUuid, identifier);
              && (v.Err? ==> r == Failed(UpdateRejected(env.renderErrors(v.error))) && db.rows == old(db.rows))
              && (v.Ok? && found.None? ==> r == Failed(NotFound(identifier, CheckEmailOrId)) && db.rows == old(db.rows))
              && (v.Ok? && found.Some? ==>
                    r == Updated(found.value.id)
                    && db.rows == old(db.rows)[found.value.id := Patched(found.value, v.value)])
    {
      var v := ValidateUpdate(env, raw);
      if v.Err? {
        return Failed(UpdateRejected(env.renderErrors(v.error)));
      }
      var found := Resolve(identifier);
      if found.None? {
        return Failed(NotFound(identifier, CheckEmailOrId));
      }
      var updated := db.Update(found.value.id, v.value);
      r := Updated(updated.id);
    }

    /** `delete`: remove the record the identifier resolves to. */
    method Delete(identifier: string) returns (r: ToolResult)
      requires Valid()
      modifies db
      ensures Valid()
      ensures var found := Resolution(old(db.rows), env.parseUuid, identifier);
              && (found.None? ==> r == Failed(NotFound(identifier, CheckEmailOrId)) && db.rows == old(db.rows))
              && (found.Some? ==> r == Deleted && db.rows == old(db.rows) - {found.value.id})
    {
      var found := Resolve(identifier);
      if found.None? {
        return Failed(NotFound(identifier, CheckEmailOrId));
      }
      db.Delete(found.value.id);
      r := Deleted;
    }
  }
}
