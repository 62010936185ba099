# Registration service, modelled in Dafny

This project models the core of a small registration service. A registration
is one record: full name, email, phone, date of birth, and an optional
address. There are two ways to work with these records:

- a REST API under `/users` (create, list, get, update, delete);
- a chat endpoint, where a language-model agent calls the same operations as
  tools.

The model covers these parts:

- **`Common`** (`common.dfy`): what Python supplies. This is `Option`/`Result`,
  `str.strip` with Python's whitespace set, ASCII `str.lower`, and calendar
  dates with Python's tuple order.
- **`Schemas`** (`schemas.dfy`): the request schemas `RegistrationCreate` and
  `RegistrationUpdate`.
  - Pydantic checks the `Field` length bounds first, then runs a field's
    validator only if the bounds passed.
  - It checks every field and reports all failures together, in field order.
  - The validators trim the name, clean and match the phone, and check that the
    date of birth is in the past with an age of at most 150.
- **`Models`** (`models.dfy`): the `registrations` table as a map from id to
  row. It covers column widths, NOT NULL columns, and the unique email index.
- **`RegService`** (`reg_service.dfy`): the data-access functions, as the class
  `Table`.
  - `Create` makes one insert.
  - `Get` and `GetByEmail` are lookups.
  - `List` returns the rows newest first, up to a limit. Its selection loop
    stands in for the database's sort and limit.
  - `Update` is the `setattr` loop over the fields that are set.
  - `Delete` removes one row.
- **`RegistrationTools`** (`registration_tools.dfy`): the chat tools.
  - The create pipeline runs in order: placeholder deny-lists, then required
    fields, then validation (mapped to one friendly message), then the store
    write.
  - An identifier resolves as a UUID first, then falls back to an email lookup.
  - Get, update and delete are built on that resolution.
  - JSON answers become the tagged datatype `ToolResult`.
- **`ChatRoute`** (`chat.dfy`):
  - the per-session history, created on first use;
  - one exchange appended per turn;
  - how the reply is chosen from the agent's messages;
  - the create and update tool wrappers.
- **`UserRoute`** (`user_routes.dfy`): the REST routes. Each answer is tagged
  with its HTTP status. Lookups here are by id only.

Some things are passed in as parameters (the `Env` datatype and method
arguments):

- `date.today()`;
- the id that `uuid4` draws;
- the `utcnow` insertion instant;
- email-address syntax checking and normalisation;
- text-to-date coercion;
- UUID text parsing;
- the text of a validation error;
- the agent's answer for a turn.

## Model

| member | source | states |
|---|---|---|
| Common.TrimStartSpec | app/schemas/registration.py:19-23 | `lstrip` removes exactly a run of leading whitespace: the result is a suffix, the removed part is all whitespace, and the result does not start with whitespace |
| Common.TrimEndSpec | app/schemas/registration.py:19-23 | `rstrip` removes exactly a run of trailing whitespace, symmetrically |
| Common.TrimIsCore | app/schemas/registration.py:19-23 | `strip` gives a slice of the input with only whitespace around it, and the result neither starts nor ends with whitespace |
| Common.TrimEmptyIffAllSpace | app/schemas/registration.py:19 | a string strips to empty exactly when every character is whitespace |
| Common.TrimIdempotent | app/schemas/registration.py:23 | stripping a stripped name changes nothing |
| Common.Lower | app/tools/registration_tools.py:37 | lower-casing keeps the length and maps each character by itself |
| Common.LowerIdempotent | app/tools/registration_tools.py:37 | lower-casing a lower-cased value changes nothing |
| Common.TrimIgnoresLeadingSpace | app/tools/registration_tools.py:37 | a whitespace character in front survives lower-casing and is removed by stripping |
| Schemas.ValidateFullName | app/schemas/registration.py:10-23 | accepted iff 1..200 characters and at least 2 after stripping; the stored value is the stripped text, 2..200 long with non-space ends; under 1 character is the min_length error, over 200 the max_length error, an all-whitespace name "cannot be empty" and a 1-character stripped name "at least 2 characters" |
| Schemas.FullNameIsFixpoint | app/schemas/registration.py:23 | a stored name validates again to itself |
| Schemas.CleanPhone | app/schemas/registration.py:28 | cleaning never lengthens the text and leaves no whitespace, `-`, `(`, `)` or `.` |
| Schemas.CleanPhoneAppend | app/schemas/registration.py:28 | cleaning distributes over concatenation |
| Schemas.CleanPhoneIgnoresSeparator | app/schemas/registration.py:28 | two numbers that differ by one inserted separator clean to the same text |
| Schemas.CleanPhoneKeeps | app/schemas/registration.py:28 | text without separators is left as it is |
| Schemas.CleanPhoneIdempotent | app/schemas/registration.py:28 | cleaning a cleaned number changes nothing |
| Schemas.CheckPhone | app/schemas/registration.py:25-31 | accepted iff the cleaned text is an optional `+` and 10-15 ASCII digits; the value is the cleaned text, 10 to 16 characters long; the only failure is the phone-format error |
| Schemas.ValidateCreatePhone | app/schemas/registration.py:12-31 | on create the raw text must also be 10-20 characters before cleaning; accepted iff both hold, with the cleaned value; under 10 characters is the min_length error, over 20 the max_length error, otherwise a refusal is the phone-format error |
| Schemas.PhoneIsFixpoint | app/schemas/registration.py:28-31 | a stored phone validates again to itself |
| Schemas.ValidateUpdatePhone | app/schemas/registration.py:60-68 | on update, no phone passes through as none; any other phone is cleaned and checked as on create, without the length bounds; every refusal is the phone-format error |
| Schemas.AgeCountsBirthdays | app/schemas/registration.py:46 | the computed age is the number of birthdays passed: the age-th birthday is on or before today and the next one is after |
| Schemas.CheckDateOfBirth | app/schemas/registration.py:42-50 | accepted iff strictly before today with an age of at most 150; a date on or after today is "must be in the past", a past date with an age over 150 is "age > 150 years" |
| Schemas.ValidateDateOfBirth | app/schemas/registration.py:33-50 | unparseable text is a format error; the text is accepted iff it parses to a date strictly before today with an age of at most 150, and the value is that date; a parsed date not in the past is "must be in the past", one with an age over 150 is "age > 150 years" |
| Schemas.ValidateEmail | app/schemas/registration.py:11 | accepted iff the email checker accepts the address, with the checker's normalised address as the value; the only failure is the email error |
| Schemas.ValidateAddress | app/schemas/registration.py:14 | accepted iff absent or at most 500 characters, unchanged; every refusal is the 500-character max_length error |
| Schemas.Collect | app/schemas/registration.py:9-50 | one error per failing field, each with its real reason, every failing field reported, in field order |
| Schemas.CollectCons | app/schemas/registration.py:9-50 | adding a failing first field to a collected error list keeps those three properties |
| Schemas.ConsComplete | app/schemas/registration.py:9-50 | with the first field's error in front, every failing field of the list is reported |
| Schemas.ConsOrdered | app/schemas/registration.py:9-50 | an error on the first field in front of errors on later fields keeps field order |
| Schemas.CreateErrors | app/schemas/registration.py:9-50 | no errors iff every create field passes; each error is genuine; every failing field is listed; field order |
| Schemas.Accepted | app/schemas/registration.py:9-50 | a request whose fields all pass becomes the stripped name, cleaned phone, checked email, parsed date and given address, and the result is normalised |
| Schemas.ValidateCreate | app/schemas/registration.py:9-50 | `RegistrationCreate(...)` succeeds iff no field fails, with the accepted values; otherwise it fails with the full, non-empty error list |
| Schemas.UpdateErrors | app/schemas/registration.py:53-68 | the update errors are exactly the failing fields, each with its reason, in field order, and empty exactly when every field passes |
| Schemas.AcceptedPatch | app/schemas/registration.py:53-68 | each set field carries over: the name and address as given, the email checked, the phone cleaned and well-formed, the date parsed; unset fields stay unset |
| Schemas.ValidateUpdate | app/schemas/registration.py:53-68 | `RegistrationUpdate(...)` succeeds iff no set field fails, with the accepted patch; otherwise it fails with the non-empty error list |
| Schemas.EmptyPatchIffNothingSet | app/schemas/registration.py:53-58 | the patch is empty exactly when the request sets nothing |
| Models.ByEmail | app/services/reg_service.py:27-28 | the email lookup finds a row iff some row has that email, and then it is that stored row |
| Models.ByEmailIsThatRow | app/models/registration.py:15 | with unique emails, looking up a row's email returns exactly that row |
| Models.ColumnsFit | app/models/registration.py:14-16 | a row fits when its name, email and phone are at most 200, 200 and 20 characters |
| Models.TableInvariant | app/models/registration.py:12-16 | every row is stored under its own id, no two rows share an email, and every row fits its columns |
| RegService.NewRow | app/services/reg_service.py:8-15 | the inserted row holds exactly the submitted fields, the drawn id and the insertion instant |
| RegService.Insert | app/services/reg_service.py:8-20 | an insert succeeds iff the row fits its columns and the email is new, giving the row with the given fields, id and instant; a too-wide value is reported before a duplicate email |
| RegService.TooLongOnlyForEmail | app/models/registration.py:14-16 | for a validated registration, the only column that can overflow is an email over 200 characters |
| RegService.InsertKeepsInvariant | app/services/reg_service.py:8-20 | an accepted insert under a fresh id keeps ids and emails unique and all columns in width, adds exactly one row, and the new row is what its email finds |
| RegService.Items | app/services/reg_service.py:41 | the update items are at most five, and none iff the patch is empty |
| RegService.ApplyAllAppend | app/services/reg_service.py:43-44 | running two batches of `setattr` calls one after the other is running their concatenation |
| RegService.Patched | app/services/reg_service.py:40-49 | updating never changes `id` or `created_at` |
| RegService.ApplyItemsIsPatched | app/services/reg_service.py:41-44 | the `setattr` loop writes exactly the set fields: its result is the field-wise patched record |
| RegService.EmptyPatchKeeps | app/services/reg_service.py:41-44 | an update that sets nothing leaves the record as it was |
| RegService.UpdateKeepsInvariant | app/services/reg_service.py:40-49 | an update the store admits keeps the table constraints and the row count |
| RegService.NewestExists | app/services/reg_service.py:31-37 | a non-empty table has a newest row |
| RegService.SelectNewest | app/services/reg_service.py:31-37 | taking the newest remaining row keeps the listing's selection invariant |
| RegService.SelectNewestCovers | app/services/reg_service.py:31-37 | after taking a row, every stored row is either still remaining or listed |
| RegService.SelectNewestOrdered | app/services/reg_service.py:31-37 | after taking the newest remaining row, the listing stays distinct and newest first, and no remaining row is newer than a listed one |
| RegService.ApplyAllOne | app/services/reg_service.py:43-44 | one more optional `setattr` call is applied after the earlier ones |
| RegService.SelectionDone | app/services/reg_service.py:31-37 | a finished selection is the newest-first listing |
| RegService.NewestRowListedFirst | app/services/reg_service.py:31-37 | a row inserted after all others heads any listing with a positive limit |
| RegService.Table.Create | app/services/reg_service.py:8-20 | the result is the insert's verdict; on success the table gains exactly the new row, on a refusal it is unchanged; the constraints hold after |
| RegService.Table.Get | app/services/reg_service.py:23-24 | the row with that primary key, present iff the key is stored |
| RegService.Table.GetByEmail | app/services/reg_service.py:27-28 | the row whose email matches, if any |
| RegService.Table.List | app/services/reg_service.py:31-37 | min(limit, rows) distinct stored rows, newest first, and no row left out is newer than one listed |
| RegService.Table.Update | app/services/reg_service.py:40-49 | the row becomes the patched record and no other row changes |
| RegService.Table.Delete | app/services/reg_service.py:52-54 | exactly that row is removed; the table shrinks by one |
| RegistrationTools.UnderscoresToSpaces | app/tools/registration_tools.py:41 | `replace('_', ' ')` keeps the length, turns each underscore into a space, keeps every other character, and leaves no underscore |
| RegistrationTools.PlaceholderTextTellsUser | app/tools/registration_tools.py:39-44 | the placeholder rejection text starts with "TELL THE USER:" |
| RegistrationTools.NotFoundTextNamesIdentifier | app/tools/registration_tools.py:116 | the not-found text starts with "User not found with identifier: " and the identifier |
| RegistrationTools.EmailExistsTextNamesEmail | app/tools/registration_tools.py:93 | the email-exists text starts by naming the refused email |
| RegistrationTools.PlaceholderTextQuotesValue | app/tools/registration_tools.py:39-42 | the placeholder text quotes the rejected value right after the sentinel's opening words |
| RegistrationTools.ValidationTextEndsWithDetail | app/tools/registration_tools.py:71 | the general validation message ends with the validation error's text |
| RegistrationTools.ErrorTextQuotesInput | app/tools/registration_tools.py:39-116 | every error text that carries supplied data carries it: the placeholder text has the sentinel and the value, the email-exists and not-found texts name the email and the identifier, the general validation text ends with the detail |
| RegistrationTools.PlaceholderIgnoresCaseAndPadding | app/tools/registration_tools.py:37-38 | the deny-list test ignores case and leading whitespace: a lower-cased or space-prefixed value is a placeholder exactly when the value is |
| RegistrationTools.FirstDenied | app/tools/registration_tools.py:36-44 | the field reported is one of the scanned fields whose test holds, no later than any such field; none iff the test holds for no field |
| RegistrationTools.ScanDenied | app/tools/registration_tools.py:36-44 | the loop over the fields with an early return reports exactly the first field whose test holds |
| RegistrationTools.FindPlaceholder | app/tools/registration_tools.py:36-44 | the deny-list scan reports the first field, in the order full name, email, phone, whose stripped lower-cased value is on that field's deny-list |
| RegistrationTools.MissingIn | app/tools/registration_tools.py:46-47 | the missing fields are exactly the absent or empty ones, in the given order |
| RegistrationTools.MissingConsInOrder | app/tools/registration_tools.py:46-47 | putting an earlier field in front of an ordered list of later fields keeps field order |
| RegistrationTools.MissingFields | app/tools/registration_tools.py:46-47 | exactly the absent or empty required fields, in the order full name, email, phone, date of birth |
| RegistrationTools.ToRaw | app/tools/registration_tools.py:59 | once nothing is missing, the four required fields are passed as given and non-empty, and the address exactly when the payload has one |
| RegistrationTools.Classify | app/tools/registration_tools.py:61-72 | a date-of-birth failure gives the date message; otherwise an email failure gives the email message, then phone; anything else is "Validation error" with the error text |
| RegistrationTools.Precheck | app/tools/registration_tools.py:29-72 | the placeholder check decides first, then missing fields; once both pass, a validation failure is the classified friendly message and validated data is the result, normalised |
| RegistrationTools.PlaceholderBeatsMissing | app/tools/registration_tools.py:36-57 | a placeholder is reported even when required fields are also missing, and the text tells the user |
| RegistrationTools.DateOfBirthBlamedFirst | app/tools/registration_tools.py:64-65 | when the date of birth fails, the date message is given whatever else failed |
| RegistrationTools.StoreOutcome | app/tools/registration_tools.py:79-97 | a stored row is reported as created with its id and the success message naming its name; a duplicate email is the email-exists error naming the email; a too-wide value is the generic failure |
| RegistrationTools.CreateOutcomeOfInsert | app/tools/registration_tools.py:79-97 | for checked data, `create` answers created under the drawn id exactly when the email is free and the row fits, email-exists exactly when the row fits and the email is taken, and the generic failure exactly when a value is too wide |
| RegistrationTools.SecondCreateFails | app/tools/registration_tools.py:79-93 | after data has been inserted, inserting the same data under another id is a duplicate-email error, reported as "email exists" naming the email |
| RegistrationTools.Resolution | app/tools/registration_tools.py:99-110 | a resolved row is stored and matches the identifier by id or by email; nothing resolves iff the identifier names no stored id and no row has it as email |
| RegistrationTools.IdBeatsEmail | app/tools/registration_tools.py:102-110 | an id match wins over an email match |
| RegistrationTools.EmailFallbackFindsRow | app/tools/registration_tools.py:108-109 | without an id match, a row's email resolves to that row |
| RegistrationTools.ResolveOwnId | app/tools/registration_tools.py:103-104 | a row's own id text resolves to that row |
| RegistrationTools.Tools.Create | app/tools/registration_tools.py:16-97 | a rejected check writes nothing and returns that error; otherwise the answer follows the store's verdict (created with id and message, email exists, or failed) and only a successful insert changes the table |
| RegistrationTools.Tools.Resolve | app/tools/registration_tools.py:99-110 | the lookup returns the resolution |
| RegistrationTools.Tools.Get | app/tools/registration_tools.py:112-125 | the resolved record, or not-found naming the identifier |
| RegistrationTools.Tools.Update | app/tools/registration_tools.py:127-143 | a validation failure or an unknown identifier writes nothing; otherwise the resolved row is patched and its id returned |
| RegistrationTools.Tools.Delete | app/tools/registration_tools.py:145-152 | an unknown identifier writes nothing; otherwise exactly the resolved row is removed |
| ChatRoute.LastQualifying | app/routes/chat.py:129-136 | the position of the last message with text and no tool calls; none iff no message qualifies |
| ChatRoute.Reply | app/routes/chat.py:129-140 | with no messages the reply is "No response"; otherwise it is the text of one of the messages, the last message's when none qualifies |
| ChatRoute.ReplySkipsToolCalls | app/routes/chat.py:129-136 | when some message qualifies, the reply is the text of a qualifying message with no qualifying message after it |
| ChatRoute.SelectReply | app/routes/chat.py:129-140 | the backwards scan returns the last qualifying message, else the last message, else "No response" |
| ChatRoute.Sessions.Chat | app/routes/chat.py:49-142 | the message is stripped, the agent runs on the session's thread, and an unseen session starts empty; a successful turn appends exactly one exchange to that session only; a failed turn appends nothing |
| ChatRoute.CreatePayload | app/routes/chat.py:56-65 | the wrapper forwards all five fields, each argument under its own key, so nothing is missing iff the four required values are non-empty |
| ChatRoute.WrapperAddressKept | app/routes/chat.py:56-65 | the wrapper's address, empty by default, is what a successful create stores |
| ChatRoute.CreateWrapper | app/routes/chat.py:56-65 | the wrapper's outcome and store change are those of the create tool on the forwarded fields |
| ChatRoute.CollectUpdates | app/routes/chat.py:79-86 | an argument is collected iff it is given with non-empty text, and then unchanged; the update is empty iff every argument is none or empty |
| ChatRoute.UpdateWrapper | app/routes/chat.py:70-90 | an unknown user or an empty update writes nothing and reports why; otherwise it does what the update tool does on the user's id |
| UserRoute.CreateUser | app/routes/user.py:23-29 | the answer is the create response for the old table and the validated body; the table gains exactly the new row on a success and is unchanged otherwise |
| UserRoute.CreateUserResponse | app/routes/user.py:23-29 | 422 exactly when validation fails; 400 "Email already registered" exactly when the email is taken; the new row exactly when the email is free and the row fits; 500 exactly when the email is free and a value is too wide |
| UserRoute.RouteAcceptsPlaceholderName | app/routes/user.py:23-29 | "Test User" passes the route's validation though the chat tool rejects it as a placeholder |
| UserRoute.RouteStoresWhatToolRefuses | app/routes/user.py:23-29 | for every payload with a placeholder that validates, with a free email and fitting values, the REST create stores the row while the chat tool rejects the placeholder |
| UserRoute.ListUsers | app/routes/user.py:32-35 | at most 50 rows, newest first |
| UserRoute.GetUser | app/routes/user.py:38-43 | the row with that id, 404 "User not found" if there is none, and no email lookup |
| UserRoute.UpdateUser | app/routes/user.py:46-53 | an unknown id is 404 and writes nothing; otherwise the set fields are written and the updated row returned |
| UserRoute.DeleteUserRoute | app/routes/user.py:56-63 | an unknown id is 404 and removes nothing; otherwise the row is gone and the answer is "User deleted successfully" |

## Left out

- Email syntax is abstract: `EmailStr` (the email-validator library) is the `checkEmail` parameter.
- UUID text parsing (`uuid.UUID`) is abstract: it is the `parseUuid` parameter. Ids are the canonical text of a UUID.
- Date parsing is abstract. Pydantic's coercion of text to a date is the `parseDate` parameter, which yields a valid calendar date. The validator's own `strptime` branch is not modelled: pydantic has already coerced the value by then.
- Python's `\d` also matches non-ASCII decimal digits. The model accepts ASCII digits only.
- `str.lower` is modelled for ASCII letters only.
- RegistrationTools.Classify picks the message by which fields failed. The source searches the error text for "date_of_birth", "email" and "phone", and that text also holds the submitted values. So a value that contains one of those words can change the message in the source but not in the model.
- The text of a pydantic validation error is the `renderErrors` parameter. The body of FastAPI's 422 answer is not modelled: `UnprocessableEntity` carries nothing.
- RegistrationTools.Tools.Update requires that the update can be committed. A duplicate email, an over-long value or a NOT NULL violation makes the source raise without handling it, and no answer is defined for that.
- RegService.Table.Update requires that the update can be committed, for the same reason.
- UserRoute.UpdateUser requires that the update can be committed, for the same reason.
- ChatRoute.UpdateWrapper requires that the update can be committed, for the same reason.
- ChatRoute.UpdateWrapper also requires that stored ids parse back to themselves. The wrapper re-resolves the user through the text of its id.
- In the REST update, JSON `null` for a NOT NULL field is left out: the database would refuse it. `null` for the address is modelled.
- The tool create branch "This user already exists in the system." is not modelled. The text of a SQLAlchemy unique violation includes the INSERT statement, which names the `email` column, so the test for "email" in that text always holds and the branch cannot be reached.
- The tool create branch "Invalid input format" is not modelled. The wrapper always passes text fields, so that branch cannot be reached.
- The JSON encoding of tool answers, the dict-or-string payload branch and the debug printing are not modelled.
- Transactions are not modelled: SQLAlchemy sessions, commit, refresh, and the rollback state after a failed commit.
- Concurrent requests racing on the module-level session dictionary are not modelled.
- The agent's internals are not modelled. The tool calls the agent makes during a turn are not threaded through `Chat`; the agent is a function from session and text to messages (or a failure). The tools are modelled separately, with the same store.
- The get and delete wrappers of the chat route only forward to the tools and are not modelled separately.
- The store is assumed to enforce the `String(n)` column widths as PostgreSQL does. `app/database.py` is not part of this model. SQLite, which the conversational test uses, stores over-wide values, so on SQLite the `ValueTooLong` outcome of RegService.Insert, the tool's "Failed to create registration" and the REST 500 do not happen, and the `ColumnsFit` part of Models.TableInvariant does not hold.
- RegService.Table.List orders by `created_at` with ties broken by an arbitrary choice. The database's own tie order is unspecified too.
