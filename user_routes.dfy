/** The REST routes under `/users`: create, list, get, update and delete over
    the same table, each answer tagged with the HTTP status it is sent with.
    Lookups here are by id only. */
module UserRoute {
  import opened Common
  import opened Schemas
  import opened Models
  import opened RegService
  import RegistrationTools

  /** An HTTP answer: 200 with a body, 400 or 404 with a `detail`, 422 for a
      request that fails validation or whose path is not a UUID, 500 for a
      database error the route does not catch. */
  datatype Response<T> =
    | Success(body: T)
    | BadRequest(detail: string)
    | NotFound(detail: string)
    | UnprocessableEntity
    | InternalServerError

  const EmailAlreadyRegistered: string := "Email already registered"
  const UserNotFound: string := "User not found"
  const UserDeleted: string := "User deleted successfully"

  /** The answer of `POST /users/` on a table, given the outcome of
      `RegistrationCreate` on the body: 422 for a request that fails
      validation; 400 "Email already registered" for a taken email, checked
      before the insert; otherwise the inserted row, or 500 when a value does
      not fit its column. No placeholder check runs here. */
  function CreateUserResponse(rows: Rows, validated: Result<NewRegistration, seq<FieldError>>, id: Id, now: Timestamp): (r: Response<Registration>)
    ensures validated.Err? <==> r == UnprocessableEntity
    ensures validated.Ok? ==>
              var data := validated.value;
              && (EmailTaken(rows, data.email) <==> r == BadRequest(EmailAlreadyRegistered))
              && (!EmailTaken(rows, data.email) && ColumnsFit(NewRow(data, id, now)) <==> r == Success(NewRow(data, id, now)))
              && (!EmailTaken(rows, data.email) && !ColumnsFit(NewRow(data, id, now)) <==> r == InternalServerError)
  {
    match validated
    case Err(_) => UnprocessableEntity
    case Ok(data) =>
      if EmailTaken(rows, data.email) then BadRequest(EmailAlreadyRegistered)
      else
        match Insert(rows, data, id, now)
        case Ok(rec) => Success(rec)
        case Err(_) => InternalServerError
  }

  /** `POST /users/`: the answer above, and the table gains exactly the new
      row when the answer is a success. */
  method CreateUser(db: Table, env: Env, raw: RawCreate, id: Id, now: Timestamp) returns (r: Response<Registration>)
    requires db.Valid() && id !in db.rows
    modifies db
    ensures db.Valid()
    ensures r == CreateUserResponse(old(db.rows), ValidateCreate(env, raw), id, now)
    ensures r.Success? ==> db.rows == old(db.rows)[id := r.body]
    ensures !r.Success? ==> db.rows == old(db.rows)
  {
    var validated := ValidateCreate(env, raw);
    if validated.Err? {
      return UnprocessableEntity;
    }
    var data := validated.value;
    var existing := db.GetByEmail(data.email);
    if existing.Some? {
      return BadRequest(EmailAlreadyRegistered);
    }
    var stored := db.Create(data, id, now);
    if stored.Err? {
      return InternalServerError;
    }
    r := Success(stored.value);
  }

  /** The REST route stores what the chat tool refuses: every request with a
      placeholder that passes validation, with an email not yet taken and
      values that fit, is created by the route and rejected by the tool's
      first check. */
  lemma RouteStoresWhatToolRefuses(rows: Rows, env: Env, payload: RegistrationTools.Payload, id: Id, now: Timestamp)
    requires RegistrationTools.FirstPlaceholder(payload).Some? && RegistrationTools.MissingFields(payload) == []
    requires ValidateCreate(env, RegistrationTools.ToRaw(payload)).Ok?
    requires var data := ValidateCreate(env, RegistrationTools.ToRaw(payload)).value;
             !EmailTaken(rows, data.email) && ColumnsFit(NewRow(data, id, now))
    ensures var data := ValidateCreate(env, RegistrationTools.ToRaw(payload)).value;
            CreateUserResponse(rows, ValidateCreate(env, RegistrationTools.ToRaw(payload)), id, now) == Success(NewRow(data, id, now))
    ensures var f := RegistrationTools.FirstPlaceholder(payload).value;
            RegistrationTools.Precheck(env, payload)
              == Err(RegistrationTools.PlaceholderRejected(f, RegistrationTools.ProbeValue(payload, f)))
  {
  }

  /** The route applies no deny-list: "Test User" is a name the chat tool
      rejects as a placeholder and the route's validation accepts. */
  lemma RouteAcceptsPlaceholderName(env: Env, payload: map<FieldName, string>)
    requires FullName in payload && payload[FullName] == "Test User"
    ensures ValidateFullName(payload[FullName]) == Ok("Test User")
    ensures RegistrationTools.Precheck(env, payload) == Err(RegistrationTools.PlaceholderRejected(FullName, "Test User"))
  {
    TestUserFixture();
    assert RegistrationTools.IsPlaceholder(payload, FullName);
  }

  /** Fixture of RouteAcceptsPlaceholderName: "Test User" lower-cases to
      the deny-list entry "test user", and neither text has whitespace to
      strip. */
  lemma TestUserFixture()
    ensures Lower("Test User") == "test user"
    ensures Trim("test user") == "test user"
    ensures Trim("Test User") == "Test User"
  {
    TestUserFixtureLower();
    TestUserFixtureTrim("test user");
    TestUserFixtureTrim("Test User");
  }

  /** Part of TestUserFixture: both spellings are their own strip. */
  lemma TestUserFixtureTrim(s: string)
    requires s == "test user" || s == "Test User"
    ensures Trim(s) == s
  {
    assert s[0] in "tT" && s[|s| - 1] == 'r';
    NoEdgeSpaceTrims(s);
  }

  /** Part of TestUserFixture: lower-casing "Test User". */
  lemma TestUserFixtureLower()
    ensures Lower("Test User") == "test user"
  {
    var s := "Test User";
    assert Lower(s)[0] == 't' && Lower(s)[5] == 'u';
    assert Lower(s) == "test user";
  }

  /** `GET /users/`: the newest registrations first, at most 50. */
  method ListUsers(db: Table) returns (r: Response<seq<Registration>>)
    requires db.Valid()
    ensures r.Success? && NewestFirst(db.rows, r.body, DefaultListLimit)
  {
    var rows := db.List(DefaultListLimit);
    r := Success(rows);
  }

  /** `GET /users/{user_id}`: the row with that id, 404 when there is none,
      422 when the path is not a UUID. An email in the path is not looked
      up. */
  method GetUser(db: Table, env: Env, userId: string) returns (r: Response<Registration>)
    requires db.Valid()
    ensures env.parseUuid(userId).None? <==> r == UnprocessableEntity
    ensures env.parseUuid(userId).Some? ==>
              var id := env.parseUuid(userId).value;
              && (id in db.rows ==> r == Success(db.rows[id]))
              && (id !in db.rows ==> r == NotFound(UserNotFound))
  {
    var id := env.parseUuid(userId);
    if id.None? {
      return UnprocessableEntity;
    }
    var user := db.Get(id.value);
    if user.None? {
      return NotFound(UserNotFound);
    }
    r := Success(user.value);
  }

  /** `PUT /users/{user_id}`: the fields set in the request are written and
      the updated row returned; an unknown id is 404 and writes nothing. */
  method UpdateUser(db: Table, env: Env, userId: string, raw: RawUpdate) returns (r: Response<Registration>)
    requires db.Valid()
    requires var id := env.parseUuid(userId);
             var v := ValidateUpdate(env, raw);
             id.Some? && id.value in db.rows && v.Ok? ==> Admits(db.rows, id.value, v.value)
    modifies db
    ensures db.Valid()
    ensures var id := env.parseUuid(userId);
            var v := ValidateUpdate(env, raw);
            && (id.None? || v.Err? ==> r == UnprocessableEntity && db.rows == old(db.rows))
            && (id.Some? && v.Ok? && id.value !in old(db.rows) ==> r == NotFound(UserNotFound) && db.rows == old(db.rows))
            && (id.Some? && v.Ok? && id.value in old(db.rows) ==>
                  r == Success(Patched(old(db.rows)[id.value], v.value))
                  && db.rows == old(db.rows)[id.value := r.body])
  {
    var id := env.parseUuid(userId);
    var v := ValidateUpdate(env, raw);
    if id.None? || v.Err? {
      return UnprocessableEntity;
    }
    var user := db.Get(id.value);
    if user.None? {
      return NotFound(UserNotFound);
    }
    var updated := db.Update(id.value, v.value);
    r := Success(updated);
  }

  /** `DELETE /users/{user_id}`: the row goes and the answer says so; an
      unknown id is 404 and removes nothing. */
  method DeleteUserRoute(db: Table, env: Env, userId: string) returns (r: Response<string>)
    requires db.Valid()
    modifies db
    ensures db.Valid()
    ensures var id := env.parseUuid(userId);
            && (id.None? ==> r == UnprocessableEntity && db.rows == old(db.rows))
            && (id.Some? && id.value !in old(db.rows) ==> r == NotFound(UserNotFound) && db.rows == old(db.rows))
            && (id.Some? && id.value in old(db.rows) ==>
                  r == Success(UserDeleted) && db.rows == old(db.rows) - {id.value} && id.value !in db.rows)
  {
    var id := env.parseUuid(userId);
    if id.None? {
      return UnprocessableEntity;
    }
    var user := db.Get(id.value);
    if user.None? {
      return NotFound(UserNotFound);
    }
    db.Delete(id.value);
    r := Success(UserDeleted);
  }
}
