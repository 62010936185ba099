/** The request schemas of the registration service, `RegistrationCreate` and
    `RegistrationUpdate`: their field bounds and validators, which normalise
    each field or reject it. Pydantic checks a field's `Field(...)` bounds first
    and runs the field's validator only on a value that passed them; it checks
    every field and reports all failures together, in field order. */
module Schemas {
  import opened Common

  /** The five registration fields, in declaration order. */
  datatype FieldName = FullName | Email | Phone | DateOfBirth | Address

  function FieldIndex(f: FieldName): nat {
    match f
    case FullName => 0
    case Email => 1
    case Phone => 2
    case DateOfBirth => 3
    case Address => 4
  }

  datatype Reason =
    | TooShort(min: nat)       // Field(min_length=...)
    | TooLong(max: nat)        // Field(max_length=...)
    | NameEmpty                // 'Full name cannot be empty'
    | NameTooShort             // 'Full name must be at least 2 characters long'
    | EmailInvalid             // EmailStr refused the address
    | PhoneFormat              // 'Phone number must be 10-15 digits, optionally starting with +'
    | DateFormat               // the text is not a date
    | DateNotPast              // 'Date of birth must be in the past'
    | AgeOver150               // 'Date of birth seems unrealistic (age > 150 years)'

  datatype FieldError = FieldError(field: FieldName, reason: Reason)

  predicate HasErrorOn(errors: seq<FieldError>, f: FieldName) {
    exists i :: 0 <= i < |errors| && errors[i].field == f
  }

  /** What the schemas take from outside: the email-validator library behind
      `EmailStr` (accepts and normalises an address, or refuses it), pydantic's
      coercion of text to a date, `uuid.UUID` followed by `str`, the text of a
      `ValidationError`, and `date.today()`. */
  datatype Env = Env(
    checkEmail: string -> Option<string>,
    parseDate: string -> Option<CalendarDate>,
    parseUuid: string -> Option<Id>,
    renderErrors: seq<FieldError> -> string,
    today: CalendarDate)

  // Field bounds of RegistrationCreate.
  const NameMinLength: nat := 1
  const NameMaxLength: nat := 200
  const PhoneMinLength: nat := 10
  const PhoneMaxLength: nat := 20
  const AddressMaxLength: nat := 500
  const MaxAge: int := 150

  // ---------------------------------------------------------------------------
  // full_name

  /** `RegistrationCreate.full_name`: 1 to 200 characters as given, then
      `validate_full_name`, which stores the stripped name and wants at least
      two characters of it. */
  function ValidateFullName(v: string): (r: Result<string, Reason>)
    ensures r.Ok? <==> NameMinLength <= |v| <= NameMaxLength && |Trim(v)| >= 2
    ensures r.Ok? ==> r.value == Trim(v)
    ensures r.Ok? ==> 2 <= |r.value| <= NameMaxLength && !IsSpace(r.value[0]) && !IsSpace(r.value[|r.value| - 1])
    ensures |v| < NameMinLength ==> r == Err(TooShort(NameMinLength))
    ensures |v| > NameMaxLength ==> r == Err(TooLong(NameMaxLength))
    ensures NameMinLength <= |v| <= NameMaxLength && AllSpace(v) ==> r == Err(NameEmpty)
    ensures NameMinLength <= |v| <= NameMaxLength && 0 < |Trim(v)| < 2 ==> r == Err(NameTooShort)
  {
    TrimIsCore(v);
    TrimEmptyIffAllSpace(v);
    if |v| < NameMinLength then Err(TooShort(NameMinLength))
    else if |v| > NameMaxLength then Err(TooLong(NameMaxLength))
    else if Trim(v) == [] then Err(NameEmpty)
    else if |Trim(v)| < 2 then Err(NameTooShort)
    else Ok(Trim(v))
  }

  /** A stored name passes validation again, unchanged. */
  lemma FullNameIsFixpoint(v: string)
    requires ValidateFullName(v).Ok?
    ensures ValidateFullName(ValidateFullName(v).value) == ValidateFullName(v)
  {
    TrimIdempotent(v);
  }

  // ---------------------------------------------------------------------------
  // phone

  /** The characters `[\s\-\(\)\.]` that phone cleaning removes. */
  predicate IsPhoneSeparator(c: char) {
    IsSpace(c) || c == '-' || c == '(' || c == ')' || c == '.'
  }

  predicate IsAsciiDigit(c: char) {
    '0' <= c <= '9'
  }

  /** `re.sub(r'[\s\-\(\)\.]+', '', v)`: every separator removed, the other
      characters kept in order. */
  function CleanPhone(s: string): (r: string)
    ensures |r| <= |s|
    ensures forall k :: 0 <= k < |r| ==> !IsPhoneSeparator(r[k])
  {
    if s == [] then []
    else (if IsPhoneSeparator(s[0]) then [] else [s[0]]) + CleanPhone(s[1..])
  }

  lemma {:induction false} CleanPhoneAppend(a: string, b: string)
    ensures CleanPhone(a + b) == CleanPhone(a) + CleanPhone(b)
  {
    if a != [] {
      var head := if IsPhoneSeparator(a[0]) then [] else [a[0]];
      calc {
        CleanPhone(a + b);
        { assert (a + b)[0] == a[0]; assert (a + b)[1..] == a[1..] + b; }
        head + CleanPhone(a[1..] + b);
        { CleanPhoneAppend(a[1..], b); }
        head + (CleanPhone(a[1..]) + CleanPhone(b));
        (head + CleanPhone(a[1..])) + CleanPhone(b);
      }
    } else {
      assert a + b == b;
    }
  }

  /** Inserting a separator anywhere in a phone number does not change what
      cleaning makes of it, so numbers written with different spacing,
      hyphens, parentheses or dots clean to the same text. */
  lemma CleanPhoneIgnoresSeparator(a: string, c: char, b: string)
    requires IsPhoneSeparator(c)
    ensures CleanPhone(a + [c] + b) == CleanPhone(a + b)
  {
    CleanPhoneAppend(a + [c], b);
    CleanPhoneAppend(a, [c]);
    CleanPhoneAppend(a, b);
  }

  /** Text without separators is left as it is. */
  lemma {:induction false} CleanPhoneKeeps(s: string)
    requires forall k :: 0 <= k < |s| ==> !IsPhoneSeparator(s[k])
    ensures CleanPhone(s) == s
  {
    if s != [] {
      CleanPhoneKeeps(s[1..]);
    }
  }

  /** Cleaning a cleaned number changes nothing. */
  lemma CleanPhoneIdempotent(s: string)
    ensures CleanPhone(CleanPhone(s)) == CleanPhone(s)
  {
    CleanPhoneKeeps(CleanPhone(s));
  }

  predicate AllDigits(s: string) {
    forall k :: 0 <= k < |s| ==> IsAsciiDigit(s[k])
  }

  /** `re.match(r'^\+?\d{10,15}$', s)`: an optional leading '+', then 10 to 15
      digits and nothing else. */
  predicate IsPhoneNumber(s: string) {
    var digits := if |s| > 0 && s[0] == '+' then s[1..] else s;
    10 <= |digits| <= 15 && AllDigits(digits)
  }

  /** `validate_phone` (the same body in both schemas): clean, then match. */
  function CheckPhone(v: string): (r: Result<string, Reason>)
    ensures r.Ok? <==> IsPhoneNumber(CleanPhone(v))
    ensures r.Ok? ==> r.value == CleanPhone(v) && 10 <= |r.value| <= 16
    ensures r.Err? ==> r.error == PhoneFormat
  {
    var cleaned := CleanPhone(v);
    if IsPhoneNumber(cleaned) then Ok(cleaned) else Err(PhoneFormat)
  }

  /** `RegistrationCreate.phone`: 10 to 20 characters as given, then
      `validate_phone`. */
  function ValidateCreatePhone(v: string): (r: Result<string, Reason>)
    ensures r.Ok? <==> PhoneMinLength <= |v| <= PhoneMaxLength && IsPhoneNumber(CleanPhone(v))
    ensures r.Ok? ==> r.value == CleanPhone(v)
    ensures |v| < PhoneMinLength ==> r == Err(TooShort(PhoneMinLength))
    ensures |v| > PhoneMaxLength ==> r == Err(TooLong(PhoneMaxLength))
    ensures PhoneMinLength <= |v| <= PhoneMaxLength && !IsPhoneNumber(CleanPhone(v)) ==> r == Err(PhoneFormat)
  {
    if |v| < PhoneMinLength then Err(TooShort(PhoneMinLength))
    else if |v| > PhoneMaxLength then Err(TooLong(PhoneMaxLength))
    else CheckPhone(v)
  }

  /** A stored phone number passes validation again, unchanged: cleaning leaves
      only '+' and digits, which are not separators, and keeps the length in
      the 10-to-20 bound. */
  lemma PhoneIsFixpoint(v: string)
    requires ValidateCreatePhone(v).Ok?
    ensures ValidateCreatePhone(ValidateCreatePhone(v).value) == ValidateCreatePhone(v)
  {
    CleanPhoneIdempotent(v);
  }

  /** `RegistrationUpdate.validate_phone`: `None` passes through, any other
      value is cleaned and checked as on create, without the length bounds. */
  function ValidateUpdatePhone(v: Option<string>): (r: Result<Option<string>, Reason>)
    ensures v.None? ==> r == Ok(None)
    ensures v.Some? ==> (r.Ok? <==> IsPhoneNumber(CleanPhone(v.value)))
    ensures v.Some? && r.Ok? ==> r.value == Some(CleanPhone(v.value))
    ensures r.Err? ==> r.error == PhoneFormat
  {
    match v
    case None => Ok(None)
    case Some(s) =>
      match CheckPhone(s)
      case Ok(p) => Ok(Some(p))
      case Err(e) => Err(e)
  }

  // ---------------------------------------------------------------------------
  // date_of_birth

  /** `today.year - v.year - ((today.month, today.day) < (v.month, v.day))`. */
  function Age(today: Date, dob: Date): int {
    today.year - dob.year - (if MonthDayBefore(today, dob) then 1 else 0)
  }

  /** The computed age counts the birthdays that have passed: the `Age`-th
      birthday is on or before today and the next one is after it. */
  lemma AgeCountsBirthdays(today: Date, dob: Date)
    ensures var n := Age(today, dob);
            && !Before(today, Date(dob.year + n, dob.month, dob.day))
            && Before(today, Date(dob.year + n + 1, dob.month, dob.day))
  {
  }

  /** `validate_date_of_birth` on a date: strictly before today, and an age of
      at most 150. */
  function CheckDateOfBirth(today: CalendarDate, v: CalendarDate): (r: Result<CalendarDate, Reason>)
    ensures r.Ok? <==> Before(v, today) && Age(today, v) <= MaxAge
    ensures r.Ok? ==> r.value == v && 0 <= Age(today, v) <= MaxAge
    ensures !Before(v, today) ==> r == Err(DateNotPast)
    ensures Before(v, today) && Age(today, v) > MaxAge ==> r == Err(AgeOver150)
  {
    if !Before(v, today) then Err(DateNotPast)
    else if Age(today, v) > MaxAge then Err(AgeOver150)
    else Ok(v)
  }

  /** A date of birth given as text: pydantic's coercion to a date, then the
      validator. */
  function ValidateDateOfBirth(env: Env, s: string): (r: Result<CalendarDate, Reason>)
    ensures env.parseDate(s).None? ==> r == Err(DateFormat)
    ensures r.Ok? <==> env.parseDate(s).Some? && Before(env.parseDate(s).value, env.today)
                       && Age(env.today, env.parseDate(s).value) <= MaxAge
    ensures r.Ok? ==> env.parseDate(s) == Some(r.value) && 0 <= Age(env.today, r.value) <= MaxAge
    ensures env.parseDate(s).Some? && !Before(env.parseDate(s).value, env.today) ==> r == Err(DateNotPast)
    ensures (env.parseDate(s).Some? && Before(env.parseDate(s).value, env.today)
             && Age(env.today, env.parseDate(s).value) > MaxAge) ==> r == Err(AgeOver150)
  {
    match env.parseDate(s)
    case None => Err(DateFormat)
    case Some(d) => CheckDateOfBirth(env.today, d)
  }

  // ---------------------------------------------------------------------------
  // email and address

  /** `EmailStr`: the checker's normalised address, or the email error. */
  function ValidateEmail(env: Env, s: string): (r: Result<string, Reason>)
    ensures r.Ok? <==> env.checkEmail(s).Some?
    ensures r.Ok? ==> Some(r.value) == env.checkEmail(s)
    ensures r.Err? ==> r.error == EmailInvalid
  {
    match env.checkEmail(s)
    case None => Err(EmailInvalid)
    case Some(e) => Ok(e)
  }

  /** `Optional[str]` with `max_length=500`: absent, or at most 500 characters. */
  function ValidateAddress(a: Option<string>): (r: Result<Option<string>, Reason>)
    ensures r.Ok? <==> a.None? || |a.value| <= AddressMaxLength
    ensures r.Ok? ==> r.value == a
    ensures r.Err? ==> r.error == TooLong(AddressMaxLength)
  {
    match a
    case None => Ok(None)
    case Some(s) => if |s| <= AddressMaxLength then Ok(a) else Err(TooLong(AddressMaxLength))
  }

  // ---------------------------------------------------------------------------
  // Collecting failures

  function ErrorOf<T>(r: Result<T, Reason>): Option<Reason> {
    if r.Err? then Some(r.error) else None
  }

  predicate InFieldOrder(fields: seq<FieldName>) {
    forall i, j :: 0 <= i < j < |fields| ==> FieldIndex(fields[i]) < FieldIndex(fields[j])
  }

  /** The failures `check` reports for `fields`, one per failing field, in the
      order of `fields`. */
  function {:induction false} Collect(check: FieldName -> Option<Reason>, fields: seq<FieldName>): (r: seq<FieldError>)
    requires InFieldOrder(fields)
    ensures forall i :: 0 <= i < |r| ==> r[i].field in fields && check(r[i].field) == Some(r[i].reason)
    ensures forall f :: f in fields && check(f).Some? ==> HasErrorOn(r, f)
    ensures forall i, j :: 0 <= i < j < |r| ==> FieldIndex(r[i].field) < FieldIndex(r[j].field)
  {
    if fields == [] then []
    else
      var rest := Collect(check, fields[1..]);
      match check(fields[0])
      case None => rest
      case Some(reason) => CollectCons(check, fields, reason, rest); [FieldError(fields[0], reason)] + rest
  }

  lemma CollectCons(check: FieldName -> Option<Reason>, fields: seq<FieldName>, reason: Reason, rest: seq<FieldError>)
    requires InFieldOrder(fields) && fields != [] && check(fields[0]) == Some(reason)
    requires forall i :: 0 <= i < |rest| ==> rest[i].field in fields[1..] && check(rest[i].field) == Some(rest[i].reason)
    requires forall f :: f in fields[1..] && check(f).Some? ==> HasErrorOn(rest, f)
    requires forall i, j :: 0 <= i < j < |rest| ==> FieldIndex(rest[i].field) < FieldIndex(rest[j].field)
    ensures var r := [FieldError(fields[0], reason)] + rest;
            && (forall i :: 0 <= i < |r| ==> r[i].field in fields && check(r[i].field) == Some(r[i].reason))
            && (forall f :: f in fields && check(f).Some? ==> HasErrorOn(r, f))
            && (forall i, j :: 0 <= i < j < |r| ==> FieldIndex(r[i].field) < FieldIndex(r[j].field))
  {
    ConsGenuine(check, fields, reason, rest);
    ConsComplete(check, fields, reason, rest);
    ConsOrdered(fields, reason, rest);
  }

  lemma ConsGenuine(check: FieldName -> Option<Reason>, fields: seq<FieldName>, reason: Reason, rest: seq<FieldError>)
    requires fields != [] && check(fields[0]) == Some(reason)
    requires forall i :: 0 <= i < |rest| ==> rest[i].field in fields[1..] && check(rest[i].field) == Some(rest[i].reason)
    ensures var r := [FieldError(fields[0], reason)] + rest;
            forall i :: 0 <= i < |r| ==> r[i].field in fields && check(r[i].field) == Some(r[i].reason)
  {
    var r := [FieldError(fields[0], reason)] + rest;
    forall i | 0 <= i < |r| ensures r[i].field in fields && check(r[i].field) == Some(r[i].reason) {
      if i > 0 {
        assert r[i] == rest[i - 1];
      }
    }
  }

  lemma ConsComplete(check: FieldName -> Option<Reason>, fields: seq<FieldName>, reason: Reason, rest: seq<FieldError>)
    requires fields != []
    requires forall f :: f in fields[1..] && check(f).Some? ==> HasErrorOn(rest, f)
    ensures var r := [FieldError(fields[0], reason)] + rest;
            forall f :: f in fields && check(f).Some? ==> HasErrorOn(r, f)
  {
    var r := [FieldError(fields[0], reason)] + rest;
    forall f | f in fields && check(f).Some? ensures HasErrorOn(r, f) {
      if f == fields[0] {
        assert r[0].field == f;
      } else {
        var k :| 0 <= k < |fields| && fields[k] == f;
        assert f in fields[1..] by { assert fields[1..][k - 1] == f; }
        var i :| 0 <= i < |rest| && rest[i].field == f;
        assert r[i + 1].field == f;
      }
    }
  }

  lemma ConsOrdered(fields: seq<FieldName>, reason: Reason, rest: seq<FieldError>)
    requires InFieldOrder(fields) && fields != []
    requires forall i :: 0 <= i < |rest| ==> rest[i].field in fields[1..]
    requires forall i, j :: 0 <= i < j < |rest| ==> FieldIndex(rest[i].field) < FieldIndex(rest[j].field)
    ensures var r := [FieldError(fields[0], reason)] + rest;
            forall i, j :: 0 <= i < j < |r| ==> FieldIndex(r[i].field) < FieldIndex(r[j].field)
  {
    var r := [FieldError(fields[0], reason)] + rest;
    forall i, j | 0 <= i < j < |r| ensures FieldIndex(r[i].field) < FieldIndex(r[j].field) {
      assert r[j] == rest[j - 1];
      if i == 0 {
        var k :| 0 <= k < |fields[1..]| && fields[1..][k] == r[j].field;
        assert fields[k + 1] == r[j].field;
      } else {
        assert r[i] == rest[i - 1];
      }
    }
  }

  const AllFields: seq<FieldName> := [FullName, Email, Phone, DateOfBirth, Address]

  // ---------------------------------------------------------------------------
  // RegistrationCreate

  /** A create request as the chat tool receives it: every field as text, the
      address optional. */
  datatype RawCreate = RawCreate(fullName: string, email: string, phone: string, dateOfBirth: string, address: Option<string>)

  /** A `RegistrationCreate` that passed validation. */
  datatype NewRegistration = NewRegistration(fullName: string, email: string, phone: string, dateOfBirth: CalendarDate, address: Option<string>)

  /** What a validated registration looks like, whatever it was typed as. */
  predicate IsNormalized(n: NewRegistration, today: Date) {
    && (n.address.None? || |n.address.value| <= AddressMaxLength)
    && 2 <= |n.fullName| <= NameMaxLength && n.fullName == Trim(n.fullName)
    && IsPhoneNumber(n.phone)
    && Before(n.dateOfBirth, today) && 0 <= Age(today, n.dateOfBirth) <= MaxAge
  }

  /** The failure, if any, of one field of a create request. */
  function CreateFieldError(env: Env, raw: RawCreate, f: FieldName): Option<Reason> {
    match f
    case FullName => ErrorOf(ValidateFullName(raw.fullName))
    case Email => ErrorOf(ValidateEmail(env, raw.email))
    case Phone => ErrorOf(ValidateCreatePhone(raw.phone))
    case DateOfBirth => ErrorOf(ValidateDateOfBirth(env, raw.dateOfBirth))
    case Address => ErrorOf(ValidateAddress(raw.address))
  }

  lemma AllFieldsListed(f: FieldName)
    ensures f in AllFields && InFieldOrder(AllFields)
  {
  }

  /** Every failing field of a create request, in field order, with its reason. */
  function CreateErrors(env: Env, raw: RawCreate): (errors: seq<FieldError>)
    ensures errors == [] <==> forall f :: CreateFieldError(env, raw, f).None?
    ensures forall i :: 0 <= i < |errors| ==> CreateFieldError(env, raw, errors[i].field) == Some(errors[i].reason)
    ensures forall f :: CreateFieldError(env, raw, f).Some? ==> HasErrorOn(errors, f)
    ensures forall i, j :: 0 <= i < j < |errors| ==> FieldIndex(errors[i].field) < FieldIndex(errors[j].field)
  {
    AllFieldsListed(FullName);
    var errors := Collect(f => CreateFieldError(env, raw, f), AllFields);
    forall f | CreateFieldError(env, raw, f).Some? ensures HasErrorOn(errors, f) {
      AllFieldsListed(f);
    }
    errors
  }

  /** The registration built from a create request whose fields all pass. */
  function Accepted(env: Env, raw: RawCreate): (n: NewRegistration)
    requires forall f :: CreateFieldError(env, raw, f).None?
    ensures && n.fullName == Trim(raw.fullName)
            && n.phone == CleanPhone(raw.phone)
            && Some(n.email) == env.checkEmail(raw.email)
            && Some(n.dateOfBirth) == env.parseDate(raw.dateOfBirth)
            && n.address == raw.address
            && IsNormalized(n, env.today)
  {
    var name := ValidateFullName(raw.fullName);
    var email := ValidateEmail(env, raw.email);
    var phone := ValidateCreatePhone(raw.phone);
    var dob := ValidateDateOfBirth(env, raw.dateOfBirth);
    assert name.Ok? by { assert CreateFieldError(env, raw, FullName).None?; }
    assert email.Ok? by { assert CreateFieldError(env, raw, Email).None?; }
    assert phone.Ok? by { assert CreateFieldError(env, raw, Phone).None?; }
    assert dob.Ok? by { assert CreateFieldError(env, raw, DateOfBirth).None?; }
    assert ValidateAddress(raw.address).Ok? by { assert CreateFieldError(env, raw, Address).None?; }
    TrimIdempotent(raw.fullName);
    NewRegistration(name.value, email.value, phone.value, dob.value, raw.address)
  }

  /** `RegistrationCreate(**payload)`: either every field passes and the result
      carries the normalised values, or the error lists every failing field,
      in field order, with its reason. */
  function ValidateCreate(env: Env, raw: RawCreate): (r: Result<NewRegistration, seq<FieldError>>)
    ensures r.Ok? <==> forall f :: CreateFieldError(env, raw, f).None?
    ensures r.Err? ==> r.error == CreateErrors(env, raw) && r.error != []
    ensures r.Ok? ==> r.value == Accepted(env, raw)
  {
    var errors := CreateErrors(env, raw);
    if errors != [] then Err(errors) else Ok(Accepted(env, raw))
  }

  // ---------------------------------------------------------------------------
  // RegistrationUpdate

  /** An update request as text. `None` marks a field that is not set. Only
      `address` may be set to null: the other columns are NOT NULL. */
  datatype RawUpdate = RawUpdate(
    fullName: Option<string>,
    email: Option<string>,
    phone: Option<string>,
    dateOfBirth: Option<string>,
    address: Option<Option<string>>)

  /** A validated `RegistrationUpdate` as `dict(exclude_unset=True)` sees it:
      `None` for a field that is not set. */
  datatype Patch = Patch(
    fullName: Option<string>,
    email: Option<string>,
    phone: Option<string>,
    dateOfBirth: Option<CalendarDate>,
    address: Option<Option<string>>)

  predicate IsEmptyPatch(p: Patch) {
    p.fullName.None? && p.email.None? && p.phone.None? && p.dateOfBirth.None? && p.address.None?
  }

  /** The failure, if any, of one field of an update request. Full name and
      address have no checks; the date is only coerced, not range-checked. */
  function UpdateFieldError(env: Env, raw: RawUpdate, f: FieldName): Option<Reason> {
    match f
    case FullName => None
    case Email => if raw.email.Some? then ErrorOf(ValidateEmail(env, raw.email.value)) else None
    case Phone => ErrorOf(ValidateUpdatePhone(raw.phone))
    case DateOfBirth =>
      if raw.dateOfBirth.Some? && env.parseDate(raw.dateOfBirth.value).None? then Some(DateFormat) else None
    case Address => None
  }

  /** The errors `RegistrationUpdate(**updates)` reports: one per failing
      field, in field order; only email, phone and date can fail. */
  function UpdateErrors(env: Env, raw: RawUpdate): (errors: seq<FieldError>)
    ensures errors == [] <==> forall f :: UpdateFieldError(env, raw, f).None?
    ensures forall i :: 0 <= i < |errors| ==> UpdateFieldError(env, raw, errors[i].field) == Some(errors[i].reason)
    ensures forall f :: UpdateFieldError(env, raw, f).Some? ==> HasErrorOn(errors, f)
    ensures forall i, j :: 0 <= i < j < |errors| ==> FieldIndex(errors[i].field) < FieldIndex(errors[j].field)
  {
    AllFieldsListed(FullName);
    var errors := Collect(f => UpdateFieldError(env, raw, f), AllFields);
    forall f | UpdateFieldError(env, raw, f).Some? ensures HasErrorOn(errors, f) {
      AllFieldsListed(f);
    }
    errors
  }

  /** The patch built from an update request whose fields all pass: each set
      field carries over, the phone cleaned and the date parsed. */
  function AcceptedPatch(env: Env, raw: RawUpdate): (p: Patch)
    requires forall f :: UpdateFieldError(env, raw, f).None?
    ensures && p.fullName == raw.fullName
            && (raw.email.Some? ==> p.email.Some? && env.checkEmail(raw.email.value) == p.email)
            && (raw.email.None? ==> p.email.None?)
            && (raw.phone.Some? ==> p.phone == Some(CleanPhone(raw.phone.value)) && IsPhoneNumber(p.phone.value))
            && (raw.phone.None? ==> p.phone.None?)
            && (raw.dateOfBirth.Some? ==> p.dateOfBirth.Some? && env.parseDate(raw.dateOfBirth.value) == p.dateOfBirth)
            && (raw.dateOfBirth.None? ==> p.dateOfBirth.None?)
            && p.address == raw.address
  {
    assert UpdateFieldError(env, raw, Email).None?;
    assert UpdateFieldError(env, raw, Phone).None?;
    assert UpdateFieldError(env, raw, DateOfBirth).None?;
    Patch(
      raw.fullName,
      if raw.email.Some? then Some(ValidateEmail(env, raw.email.value).value) else None,
      ValidateUpdatePhone(raw.phone).value,
      if raw.dateOfBirth.Some? then Some(env.parseDate(raw.dateOfBirth.value).value) else None,
      raw.address)
  }

  /** `RegistrationUpdate(**updates)`: either every set field passes and the
      patch carries exactly the set fields, or the error lists every failing
      field in field order. */
  function ValidateUpdate(env: Env, raw: RawUpdate): (r: Result<Patch, seq<FieldError>>)
    ensures r.Ok? <==> forall f :: UpdateFieldError(env, raw, f).None?
    ensures r.Err? ==> r.error == UpdateErrors(env, raw) && r.error != []
    ensures r.Ok? ==> r.value == AcceptedPatch(env, raw)
  {
    var errors := UpdateErrors(env, raw);
    if errors != [] then Err(errors) else Ok(AcceptedPatch(env, raw))
  }

  /** A request that sets nothing is the only one that yields an empty patch. */
  lemma EmptyPatchIffNothingSet(env: Env, raw: RawUpdate)
    ensures var r := ValidateUpdate(env, raw);
            r.Ok? && IsEmptyPatch(r.value) <==> raw == RawUpdate(None, None, None, None, None)
  {
    if raw == RawUpdate(None, None, None, None, None) {
      assert forall f :: UpdateFieldError(env, raw, f).None?;
    }
  }
}
