# Server reservation gate and handlers, in Dafny

This project models the core of a small reservation backend. Users register.
An ADMIN creates named servers, each with a capacity and a delete date. A USER
takes a free server and later releases it. A SUPER_ADMIN deletes users and
changes their roles.

Two parts of the source hold the logic:

- **The validation gate** (`ValidateParams`). A fixed sequence of checks runs
  before each request and raises the first failing `ErrorEnum` kind. In the
  source these checks are attached as before-advice. Here each check is a
  function from a store snapshot and the request to `Pass` or `Fail(kind)`.
  The checks keep the source's order.
- **The operation handlers** (`ServerServiceImpl`). They change the store once
  the gate has passed. Servers move between `"F"` (free), `"U"` (in use) and
  `"R"` (removed). Each server has an optional owner id.

The store is a pair of maps: users by user name, and servers by server name.
The handlers are methods of the class `ServerService.ServerService`. The class
holds the two maps and reassigns their entries in place. Each handler is
specified by a function on store values (`AfterChoose`, `AfterDelete`, ...).

`Gateway.Step` runs one request as a single sequential step: first the gate,
then the handler. `Gateway.Handle` does the same on the class. Every step keeps
the store invariant `Entities.Consistent`:

- a server has an owner exactly when its status is `"U"`;
- every status is one of the three codes;
- every owner id belongs to a stored user;
- every stored role is `USER`, `ADMIN` or `SUPER_ADMIN` in upper case.

Modules, one per file:

- `wrappers.dfy`: `Option`, `Outcome` and `Result`.
- `text.dfy`: ASCII upper-casing and lower-casing, and `equalsIgnoreCase`,
  which compares the upper-case forms.
- `dates.dfy`: the strict `dd/MM/yyyy` check, Java's `Integer.parseInt`, and
  `LocalDateTime` comparison.
- `entities.dfy`: users, servers, the store, the error kinds and the invariant.
- `validate_params.dfy`: the gate.
- `server_service.dfy`: the handlers.
- `gateway.dfy`: each gate paired with its handler, the invariant, and
  properties of request sequences.

Collaborators the model does not contain are passed in as parameters:

- the password-hash matcher is a parameter `matches(password, hash)`;
- the email validator is a parameter `isEmail(email)`;
- the current time is a parameter `now`.

## Model

| member | source | states |
|---|---|---|
| ValidateParams.RoleChecker | src/main/java/ge/paso/Exam/validation/ValidateParams.java:78-85 | A role that is not USER, ADMIN or SUPER_ADMIN (ignoring case) gives INVALID_ROLE. Only a valid role can then give ROLE_CURRENTLY_USING, when it equals the current role ignoring case. Any other role passes. |
| ValidateParams.VerifyUserForDeletion | src/main/java/ge/paso/Exam/validation/ValidateParams.java:87-97 | Gives USERNAME_NOT_EXISTS exactly when the actor or the target is missing. With both present, gives NO_ACCESS_TO_MODIFY_USER exactly when the actor's role is not SUPER_ADMIN ignoring case. Otherwise passes. |
| ValidateParams.ReleasingServerChecker | src/main/java/ge/paso/Exam/validation/ValidateParams.java:99-108 | A missing server gives SERVER_DO_NOT_EXISTS. An unowned server, or one owned by another id, gives SERVER_IS_OWNED_BY_OTHER. An owned server with an unknown actor dereferences null. The check passes exactly when the actor's id is the owner id. |
| ValidateParams.ChoosingServerChecker | src/main/java/ge/paso/Exam/validation/ValidateParams.java:110-121 | Checks run in this order: missing server gives SERVER_DO_NOT_EXISTS; an owned server gives SERVER_IS_NOT_FREE; status "R" (ignoring case) gives SERVER_IS_REMOVED. An unowned server that is not removed passes. |
| ValidateParams.VerifyUser | src/main/java/ge/paso/Exam/validation/ValidateParams.java:123-131 | An unknown user gives USERNAME_NOT_EXISTS. A known user whose role differs from the required one, ignoring case, gives NO_ACCESS_TO_MODIFY_SERVER. Otherwise passes. |
| ValidateParams.ServerCreationChecker | src/main/java/ge/paso/Exam/validation/ValidateParams.java:134-151 | An existing name gives SERVER_WITH_THIS_NAME_ALREADY_EXISTS, before the date is checked. A date that fails strict dd/MM/yyyy gives INVALID_SERVER_DATE_FORMAT. A date whose midnight is before `now` gives INVALID_SERVER_DATE. The fields are read back from positions 0-2, 3-5 and 6 on, and agree with the parsed date. |
| ValidateParams.BirthDateCheckAsWritten | src/main/java/ge/paso/Exam/validation/ValidateParams.java:187-193 | The birth-year tail is parsed before the format check. A string shorter than four characters throws StringIndexOutOfBounds. A non-numeric tail throws NumberFormatException. |
| ValidateParams.BirthDateCheck | src/main/java/ge/paso/Exam/validation/ValidateParams.java:187-193 | Corrected order, format first. Every failure is an ErrorEnum kind. INVALID_DATE_FORMAT exactly when the strict check fails. INVALID_DATE_YEAR exactly when the year is outside [1940, 2004]. |
| ValidateParams.BirthDateChecksAgree | src/main/java/ge/paso/Exam/validation/ValidateParams.java:187-193 | Wherever the as-written order does not throw a runtime exception, it gives the same verdict as the corrected order. Wherever it throws, the corrected order rejects with INVALID_DATE_FORMAT. |
| ValidateParams.BirthDateParsedBeforeFormat | src/main/java/ge/paso/Exam/validation/ValidateParams.java:187-190 | "01/01/19a0" throws NumberFormatException as written and gets INVALID_DATE_FORMAT when corrected. "1/1" throws StringIndexOutOfBounds as written and gets INVALID_DATE_FORMAT when corrected. |
| ValidateParams.MailRoleAndDateVerdict | src/main/java/ge/paso/Exam/validation/ValidateParams.java:175-193 | An invalid role gives INVALID_ROLE. Then an invalid email gives INVALID_EMAIL. Then the birth-date check decides. |
| ValidateParams.Normalised | src/main/java/ge/paso/Exam/validation/ValidateParams.java:195-198 | Email lower-cased. Role, first name and last name upper-cased. User name, password and birth date unchanged. |
| ValidateParams.RegistrationVerdict | src/main/java/ge/paso/Exam/validation/ValidateParams.java:153-193 | The registration precedence, each case if and only if: existing user name; then a password matching a stored hash; then an existing email; then an invalid role; then an invalid email; then an invalid date format; then a year outside [1940, 2004]. Passes exactly when none applies. |
| ValidateParams.CheckMailAndGenderAndDate | src/main/java/ge/paso/Exam/validation/ValidateParams.java:175-200 | The verdict is MailRoleAndDateVerdict of the request as it was. On a pass the request object is rewritten to its normalised form. On a failure it is left as it was. |
| ValidateParams.RegistrationChecker | src/main/java/ge/paso/Exam/validation/ValidateParams.java:153-173 | The loop over the stored hashes, followed by the remaining checks, gives exactly RegistrationVerdict. Only a passing request is normalised in place. |
| ValidateParams.RegistrationNormalisesForm | src/main/java/ge/paso/Exam/validation/ValidateParams.java:180-198 | After a passing registration: the stored role is USER, ADMIN or SUPER_ADMIN in upper case; the email is lower-case; the names are upper-case; the birth year is in [1940, 2004]. |
| ValidateParams.ValidateServerCreation | src/main/java/ge/paso/Exam/validation/ValidateParams.java:47-52 | The actor must hold ADMIN, and that check runs first. Then the creation checks run. A pass implies a new name and a well-formed date. |
| ValidateParams.ValidateChoosingServer | src/main/java/ge/paso/Exam/validation/ValidateParams.java:54-58 | The actor must hold USER, and that check runs first. Passes exactly when the actor is a USER and the server exists, is unowned and is not removed. |
| ValidateParams.ValidateServerRelease | src/main/java/ge/paso/Exam/validation/ValidateParams.java:60-64 | The actor must hold USER, and that check runs first. Passes exactly when the actor is a USER who owns the server. Behind the user check, no runtime exception escapes. |
| ValidateParams.ValidateDeletingUser | src/main/java/ge/paso/Exam/validation/ValidateParams.java:66-69 | Passes exactly when the actor and the target both exist and the actor is SUPER_ADMIN, ignoring case. Fails with USERNAME_NOT_EXISTS exactly when either is missing. Every other failure is NO_ACCESS_TO_MODIFY_USER. |
| ValidateParams.ValidateChangeRole | src/main/java/ge/paso/Exam/validation/ValidateParams.java:71-76 | The actor and target checks run first. Only then is the role checked against the target's current role. Passes exactly when the deletion checks pass, the role is a known role, and it differs from the target's current role, ignoring case. |
| Entities.RoleSpellingsAgree | src/main/java/ge/paso/Exam/validation/ValidateParams.java:180-181 | Comparing with "user", "admin" or "super_admin" ignoring case gives the same answer as comparing with the role names USER, ADMIN or SUPER_ADMIN. |
| Entities.UpperOfRole | src/main/java/ge/paso/Exam/Service/ServerServiceImpl.java:82 | A role accepted ignoring case upper-cases to one of the three stored role names. |
| Dates.ParseDate | src/main/java/ge/paso/Exam/validation/ValidateParams.java:141 | Only strings naming an existing calendar date are accepted. |
| Dates.RenderThenParse | src/main/java/ge/paso/Exam/validation/ValidateParams.java:141 | Every valid date is accepted in its dd/MM/yyyy text and read back as the same date. |
| Dates.ParseThenRender | src/main/java/ge/paso/Exam/validation/ValidateParams.java:141 | Every accepted string is exactly the dd/MM/yyyy text of the date read from it, so the check is strict. |
| Dates.ParseDateFields | src/main/java/ge/paso/Exam/validation/ValidateParams.java:144-146 | On an accepted date, Integer.parseInt of the day, month and year substrings gives the parsed fields. |
| Dates.ParseInt | src/main/java/ge/paso/Exam/validation/ValidateParams.java:187 | Parses exactly the strings made of an optional sign and at least one digit, and throws on anything else. The value is the decimal value of the digits, negated after a `-`. |
| Dates.DigitsValueOfDigits | src/main/java/ge/paso/Exam/validation/ValidateParams.java:144-146 | Rendering a number with n digits and parsing it back gives the number. |
| Dates.DigitsOfDigitsValue | src/main/java/ge/paso/Exam/validation/ValidateParams.java:144-146 | Parsing a digit string and rendering it back with the same number of digits gives the string. |
| ServerService.AfterCreate | src/main/java/ge/paso/Exam/Service/ServerServiceImpl.java:24-27 | Adds exactly one server, under the request's name, with its capacity and delete date, status "F" and no owner. Users and the other servers are unchanged. |
| ServerService.AfterChoose | src/main/java/ge/paso/Exam/Service/ServerServiceImpl.java:40-53 | The named server becomes "U" with the actor's id as owner (0 for an unknown user). Its capacity and date are kept. Everything else is unchanged. |
| ServerService.AfterRelease | src/main/java/ge/paso/Exam/Service/ServerServiceImpl.java:56-63 | The named server becomes "F" with no owner. Everything else is unchanged. |
| ServerService.FreeOwnedBy | src/main/java/ge/paso/Exam/Service/ServerServiceImpl.java:68-73 | Every server owned by the id is freed. All others are unchanged. No server is left owned by that id. |
| ServerService.AfterDelete | src/main/java/ge/paso/Exam/Service/ServerServiceImpl.java:66-76 | The target's servers are freed. The target's record is removed. Every other user is kept unchanged. |
| ServerService.AfterChangeRole | src/main/java/ge/paso/Exam/Service/ServerServiceImpl.java:79-85 | Only the target's role changes, to the upper-case form of the request. Servers are unchanged. |
| ServerService.FreeServers | src/main/java/ge/paso/Exam/Service/ServerServiceImpl.java:31-37 | Contains exactly the servers whose status is "F", with their stored values. |
| ServerService.ServerService.FindByStatus | src/main/java/ge/paso/Exam/Service/ServerServiceImpl.java:32 | The repository answer is always present. It lists exactly the servers with the given status, each with its stored value. |
| ServerService.ServerService.CreateServer | src/main/java/ge/paso/Exam/Service/ServerServiceImpl.java:24-27 | Saves the entity from ServerDtoToEntity, giving AfterCreate. A name already present is refused by the table's unique key, and the store is unchanged. |
| ServerService.ServerService.GetFreeServers | src/main/java/ge/paso/Exam/Service/ServerServiceImpl.java:31-37 | Returns FreeServers of the current store. NO_FREE_SERVERS_FOUND is never raised, because the repository answer is never absent. |
| ServerService.ServerService.ChooseServer | src/main/java/ge/paso/Exam/Service/ServerServiceImpl.java:40-53 | An unknown server returns null and changes nothing. Otherwise the store becomes AfterChoose, and the updated server is returned. |
| ServerService.ServerService.ReleaseServer | src/main/java/ge/paso/Exam/Service/ServerServiceImpl.java:56-63 | An unknown server changes nothing. Otherwise the store becomes AfterRelease. |
| ServerService.ServerService.DeleteUser | src/main/java/ge/paso/Exam/Service/ServerServiceImpl.java:66-76 | An unknown target dereferences null and nothing changes. Otherwise the loop frees each owned server, the user is removed, and the store becomes AfterDelete. |
| ServerService.ServerService.ChangeRole | src/main/java/ge/paso/Exam/Service/ServerServiceImpl.java:79-85 | An unknown target changes nothing. Otherwise the store becomes AfterChangeRole. |
| Gateway.Step | src/main/java/ge/paso/Exam/validation/ValidateParams.java:47-76 | A request the gate rejects returns that error and leaves the store unchanged. |
| Gateway.Handle | src/main/java/ge/paso/Exam/controller/ServerController.java:36-68 | Running the gate and then the handler's method on the class gives the store and response of Step. |
| Gateway.StepKeepsConsistent | src/main/java/ge/paso/Exam/Service/ServerServiceImpl.java:24-85 | Every request, accepted or rejected, keeps the invariant: owner present if and only if status "U", statuses among F/U/R, owners are stored users, roles canonical. |
| Gateway.CreateKeepsConsistent | src/main/java/ge/paso/Exam/Service/ServerServiceImpl.java:24-27 | A gated creation keeps the invariant. |
| Gateway.ChooseKeepsConsistent | src/main/java/ge/paso/Exam/Service/ServerServiceImpl.java:40-53 | A gated choose keeps the invariant. The new owner is the acting user. |
| Gateway.ReleaseKeepsConsistent | src/main/java/ge/paso/Exam/Service/ServerServiceImpl.java:56-63 | A gated release keeps the invariant. |
| Gateway.DeleteKeepsConsistent | src/main/java/ge/paso/Exam/Service/ServerServiceImpl.java:66-76 | Deleting a stored user keeps the invariant, because its servers are freed before its record goes. |
| Gateway.ChangeRoleKeepsOwners | src/main/java/ge/paso/Exam/Service/ServerServiceImpl.java:79-85 | Changing a role keeps every server's owner a stored user. |
| Gateway.ChangeRoleKeepsConsistent | src/main/java/ge/paso/Exam/Service/ServerServiceImpl.java:79-85 | Setting a role accepted by the gate keeps every stored role canonical. |
| Gateway.RemovedIsTerminal | src/main/java/ge/paso/Exam/Service/ServerServiceImpl.java:24-85 | In a consistent store, a server with status "R" is kept unchanged by every request, accepted or rejected. Release and delete never test the status; they cannot reach it because a removed server has no owner. |
| Gateway.ChoosableIsFree | src/main/java/ge/paso/Exam/validation/ValidateParams.java:115-120 | In a consistent store, a server that is unowned and not removed has status "F". |
| Gateway.ChooseThenRelease | src/main/java/ge/paso/Exam/Service/ServerServiceImpl.java:48-49 | Choose by a user followed by release by the same user is accepted, and leaves the store exactly as it was. |
| Gateway.ReleaseTwiceRejected | src/main/java/ge/paso/Exam/validation/ValidateParams.java:105-107 | After a successful release, releasing the same server again is rejected with SERVER_IS_OWNED_BY_OTHER. |
| Gateway.ReleaseByNonOwnerRejected | src/main/java/ge/paso/Exam/validation/ValidateParams.java:99-108 | A release by anyone but the owner is rejected and changes nothing. |
| Gateway.DeleteFreesOwnedServers | src/main/java/ge/paso/Exam/Service/ServerServiceImpl.java:66-76 | After a deletion, the user is gone, its servers are free with no owner, and other servers are unchanged. A later create, choose, release, delete or role-change request with that user as actor gets USERNAME_NOT_EXISTS. |
| Gateway.DuplicateServerNameRejected | src/main/java/ge/paso/Exam/validation/ValidateParams.java:138-140 | An admin asking for a name already in use gets SERVER_WITH_THIS_NAME_ALREADY_EXISTS, and no server is added. |
| Gateway.SameRoleRejected | src/main/java/ge/paso/Exam/validation/ValidateParams.java:82-84 | Changing a user to the role it already has, in any case, is rejected with ROLE_CURRENTLY_USING. |
| Gateway.CreateChooseReleaseRun | src/main/java/ge/paso/Exam/Service/ServerServiceImpl.java:24-63 | Worked run: "srv1" (capacity 4, 01/01/2030) is created free; alice takes it (owner id 2); bob is refused with SERVER_IS_NOT_FREE; alice releases it back to free with no owner. |

## Findings

| source | as written | input that shows it | evidently intended | confidence | as-written member | corrected member |
|---|---|---|---|---|---|---|
| src/main/java/ge/paso/Exam/validation/ValidateParams.java:187-190 | The birth year is parsed from the last four characters before the format check. | Birth date "01/01/19a0" throws NumberFormatException. Birth date "1/1" throws StringIndexOutOfBoundsException. Neither becomes INVALID_DATE_FORMAT. | Reject every malformed birth date with INVALID_DATE_FORMAT, and parse the year only after the format check. | high, not executed | ValidateParams.BirthDateCheckAsWritten, ValidateParams.BirthDateParsedBeforeFormat | ValidateParams.BirthDateCheck, ValidateParams.BirthDateChecksAgree |

## Left out

- MailRoleAndDateVerdict, RegistrationVerdict, RegistrationChecker, CheckMailAndGenderAndDate: use the corrected birth-date order (BirthDateCheck). Where the source throws NumberFormatException or StringIndexOutOfBoundsException on a malformed birth date, these give INVALID_DATE_FORMAT. Everywhere else they give the source's verdict (BirthDateChecksAgree).
- ServerService.ServerService.ChooseServer: for an unknown user the source passes a null entity to the repository's save, which the repository rejects with an exception. The model instead records owner id 0 and does not throw. The gate refuses unknown users first, so this path is not reachable through a request.
- The before-advice interception is modelled as an explicit call: `Gateway.Step` and `Gateway.Handle` call the gate before the handler.
- The null-field check on the binding result (`notNullChecker`) is left out, because it is framework bean validation. Request strings are assumed non-null.
- Password-hash matching is a parameter `matches`, because bcrypt is a foreign hash. The email validator is likewise a parameter `isEmail`, because it is library code.
- Dates.ParseDate: a simplified strict `dd/MM/yyyy` check that stands in for GenericValidator.isDate. It requires exactly two-digit day and month, a four-digit year from 0001 up, and a date in the proleptic Gregorian calendar. It does not model these Java behaviours. Before 1582, Java uses Julian rules. Java's lenient field widths within the ten-character limit (such as "1/011/2020") are not modelled. Text after the year is ignored by Java's date parser, and only the total length is compared with the pattern's, so a string such as "01/01/203x" is accepted as year 203. Two consequences follow. First, a server date of "01/01/203x" passes the format check in the source, and the year parse at ValidateParams.java:146 then throws NumberFormatException; the model gives INVALID_SERVER_DATE_FORMAT. Second, a birth date of "1/1/9 1990" passes the format check in the source, and the range check reads the last four characters, "1990", so the source accepts the registration; the model gives INVALID_DATE_FORMAT. Because of this simplification, the substring parses in the server-date check never throw in the model.
- Dates.ParseInt: accepts ASCII digits only. Java's Integer.parseInt also accepts the decimal digits of other scripts (read through Character.digit), so such a string parses in Java but is None here. Integer overflow past 32 bits does not arise for the fields of at most four characters parsed here.
- The clock is the parameter `now`, a date plus nanoseconds since midnight.
- Strings use ASCII case mapping only. Java's Unicode and locale-sensitive toUpperCase, toLowerCase and equalsIgnoreCase are not modelled.
- Lookups by name, email and status are exact matches. Database collation (for example, case-insensitive email lookups) is not part of this model.
- ValidateParams.ReleasingServerChecker: the owner comparison is on integer values. The declared type of the user's id is not part of this model. If it were a boxed Integer, Java's `!=` would compare references.
- Registration stops at the gate and its normalisation of the request. Storing the new user is done by a registration controller and user service, which are not part of this model.
- ServerService.ServerService.DeleteUser and ServerService.ServerService.GetFreeServers: the repository's optional list answers (`findByUserId`, `findByStatus`) are modelled as always present. So an empty result is an empty list, not a null dereference and not NO_FREE_SERVERS_FOUND.
- ServerService.ServerService.CreateServer: saving under an existing name is modelled as the unique key refusing the insert. The gate makes this unreachable.
- JPA persistence and flush timing are not modelled. In particular, `chooseServer` saves the user rather than the server. Servers are map entries updated in place.
- Concurrency is not modelled. Each gate-and-handler pair runs as one sequential step, so the check-then-act race between two requests is not represented.
- The HTTP layer (controller response strings and status codes), the security configuration and the constant-response controller are not part of this model.
- How a server reaches status "R" is not part of this model. No operation in the modelled code sets it. The invariant allows it, and the choose gate refuses such servers.
