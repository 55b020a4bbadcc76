/**
  The validation gate: the checks that run before each request reaches its
  handler. Each check reads a snapshot of the store and passes, or fails with
  the first error kind in its fixed order.
 */
module ValidateParams {
  import opened Wrappers
  import opened Text
  import opened Dates
  import opened Entities

  type Check = Outcome<Error>

  /** The accepted range of birth years at registration. */
  const MIN_DATE: int := 1940
  const MAX_DATE: int := 2004

  // ---------------------------------------------------------------------------
  // Role and ownership checks
  // ---------------------------------------------------------------------------

  /** A requested role must be a role, and must differ from the current one. */
  function RoleChecker(role: string, currRole: string): (r: Check)
    ensures r.Pass? <==> IsRole(role) && !EqualsIgnoreCase(role, currRole)
    ensures r == Fail(InvalidRole) <==> !IsRole(role)
    ensures r == Fail(RoleCurrentlyUsing) <==> IsRole(role) && EqualsIgnoreCase(role, currRole)
  {
    if !EqualsIgnoreCase(role, USER) && !EqualsIgnoreCase(role, ADMIN) && !EqualsIgnoreCase(role, SUPER_ADMIN) then
      Fail(InvalidRole)
    else if EqualsIgnoreCase(role, currRole) then
      Fail(RoleCurrentlyUsing)
    else
      Pass
  }

  /** Both users must exist, and the acting one must be a super admin. */
  function VerifyUserForDeletion(st: Store, superAdminName: string, toDeleteUser: string): (r: Check)
    ensures r == Fail(UsernameNotExists) <==> superAdminName !in st.users || toDeleteUser !in st.users
    ensures r == Fail(NoAccessToModifyUser) <==>
      && superAdminName in st.users && toDeleteUser in st.users
      && !EqualsIgnoreCase(st.users[superAdminName].role, SUPER_ADMIN)
    ensures r.Pass? <==>
      && superAdminName in st.users && toDeleteUser in st.users
      && EqualsIgnoreCase(st.users[superAdminName].role, SUPER_ADMIN)
  {
    if superAdminName !in st.users || toDeleteUser !in st.users then
      Fail(UsernameNotExists)
    else if !EqualsIgnoreCase(st.users[superAdminName].role, "SUPER_ADMIN") then
      Fail(NoAccessToModifyUser)
    else
      Pass
  }

  /**
    Only the server's current owner may release it. The acting user is looked
    up without a null check: when the server has an owner and the user is
    unknown, the owner comparison dereferences null.
   */
  function ReleasingServerChecker(st: Store, userName: string, serverName: string): (r: Check)
    ensures r == Fail(ServerDoNotExists) <==> serverName !in st.servers
    ensures r == Fail(ServerIsOwnedByOther) <==>
      && serverName in st.servers
      && (st.servers[serverName].userId.None?
          || (userName in st.users && st.servers[serverName].userId != Some(st.users[userName].id)))
    ensures r == Fail(NullPointer) <==>
      serverName in st.servers && st.servers[serverName].userId.Some? && userName !in st.users
    ensures r.Pass? <==>
      && serverName in st.servers && userName in st.users
      && st.servers[serverName].userId == Some(st.users[userName].id)
  {
    if serverName !in st.servers then
      Fail(ServerDoNotExists)
    else
      var s := st.servers[serverName];
      if s.userId.None? then
        Fail(ServerIsOwnedByOther)
      else if userName !in st.users then
        Fail(NullPointer)
      else if s.userId.value != st.users[userName].id then
        Fail(ServerIsOwnedByOther)
      else
        Pass
  }

  /** A server can be chosen when it exists, has no owner and is not removed. */
  function ChoosingServerChecker(st: Store, serverName: string): (r: Check)
    ensures r == Fail(ServerDoNotExists) <==> serverName !in st.servers
    ensures r == Fail(ServerIsNotFree) <==> serverName in st.servers && st.servers[serverName].userId.Some?
    ensures r == Fail(ServerIsRemoved) <==>
      && serverName in st.servers && st.servers[serverName].userId.None?
      && EqualsIgnoreCase(st.servers[serverName].status, REMOVED)
    ensures r.Pass? <==>
      && serverName in st.servers && st.servers[serverName].userId.None?
      && !EqualsIgnoreCase(st.servers[serverName].status, REMOVED)
  {
    if serverName !in st.servers then
      Fail(ServerDoNotExists)
    else if st.servers[serverName].userId.Some? then
      Fail(ServerIsNotFree)
    else if EqualsIgnoreCase(st.servers[serverName].status, "R") then
      Fail(ServerIsRemoved)
    else
      Pass
  }

  /** The acting user must exist and hold the required role, ignoring case. */
  function VerifyUser(st: Store, userName: string, role: string): (r: Check)
    ensures r == Fail(UsernameNotExists) <==> userName !in st.users
    ensures r == Fail(NoAccessToModifyServer) <==>
      userName in st.users && !EqualsIgnoreCase(st.users[userName].role, role)
    ensures r.Pass? <==> userName in st.users && EqualsIgnoreCase(st.users[userName].role, role)
  {
    if userName !in st.users then
      Fail(UsernameNotExists)
    else if !EqualsIgnoreCase(st.users[userName].role, role) then
      Fail(NoAccessToModifyServer)
    else
      Pass
  }

  // ---------------------------------------------------------------------------
  // Server creation
  // ---------------------------------------------------------------------------

  /**
    A new server needs an unused name and a `dd/MM/yyyy` delete date whose
    midnight is not before `now`. The day, month and year are read back from
    fixed positions of the date text.
   */
  function ServerCreationChecker(st: Store, dto: ServerCreationDto, now: Timestamp): (r: Check)
    ensures r == Fail(ServerWithThisNameAlreadyExists) <==> dto.name in st.servers
    ensures r == Fail(InvalidServerDateFormat) <==> dto.name !in st.servers && !IsDate(dto.deleteDate)
    ensures r == Fail(InvalidServerDate) <==>
      && dto.name !in st.servers && IsDate(dto.deleteDate)
      && IsBefore(StartOfDay(ParseDate(dto.deleteDate).value), now)
    ensures r.Pass? <==>
      && dto.name !in st.servers && IsDate(dto.deleteDate)
      && !IsBefore(StartOfDay(ParseDate(dto.deleteDate).value), now)
  {
    var endDate := dto.deleteDate;
    if dto.name in st.servers then
      Fail(ServerWithThisNameAlreadyExists)
    else if !IsDate(endDate) then
      Fail(InvalidServerDateFormat)
    else
      ParseDateFields(endDate);
      var day := ParseInt(endDate[0..2]);
      var month := ParseInt(endDate[3..5]);
      var year := ParseInt(endDate[6..]);
      match (day, month, year)
      case (Some(d), Some(m), Some(y)) =>
        if IsBefore(StartOfDay(Date(y, m, d)), now) then Fail(InvalidServerDate) else Pass
      case _ => Fail(NumberFormat)
  }

  // ---------------------------------------------------------------------------
  // Registration
  // ---------------------------------------------------------------------------

  /** The fields of a registration request. */
  datatype RegistrationForm = RegistrationForm(
    userName: string, email: string, password: string, birthDate: string,
    role: string, firstName: string, lastName: string)

  /** The registration request object, whose fields the gate rewrites in place. */
  class RegistrationDto {
    var userName: string
    var email: string
    var password: string
    var birthDate: string
    var role: string
    var firstName: string
    var lastName: string

    constructor (form: RegistrationForm)
      ensures Form() == form
    {
      userName, email, password, birthDate := form.userName, form.email, form.password, form.birthDate;
      role, firstName, lastName := form.role, form.firstName, form.lastName;
    }

    function Form(): RegistrationForm
      reads this
    {
      RegistrationForm(userName, email, password, birthDate, role, firstName, lastName)
    }
  }

  /** The password hashes of all stored users. */
  function StoredPasswords(st: Store): set<string> {
    set n | n in st.users :: st.users[n].passwordHash
  }

  /** The new password matches the hash of some stored user. */
  predicate PasswordUsed(st: Store, password: string, matches: (string, string) -> bool) {
    exists h :: h in StoredPasswords(st) && matches(password, h)
  }

  predicate EmailTaken(st: Store, email: string) {
    exists n :: n in st.users && st.users[n].email == email
  }

  /** No stored user has this user name, a matching password or this email. */
  predicate AccountIsNew(st: Store, form: RegistrationForm, matches: (string, string) -> bool) {
    form.userName !in st.users && !PasswordUsed(st, form.password, matches) && !EmailTaken(st, form.email)
  }

  /**
    The birth-date check in the order the source runs it: the year is parsed
    from the last four characters before the format is checked, so a short or
    non-numeric tail escapes as a runtime exception.
   */
  function BirthDateCheckAsWritten(birthDate: string): (r: Check)
    ensures |birthDate| < 4 ==> r == Fail(StringIndexOutOfBounds)
    ensures |birthDate| >= 4 && ParseInt(birthDate[|birthDate| - 4..]).None? ==> r == Fail(NumberFormat)
  {
    if |birthDate| < 4 then
      Fail(StringIndexOutOfBounds)
    else
      match ParseInt(birthDate[|birthDate| - 4..])
      case None => Fail(NumberFormat)
      case Some(year) =>
        if !IsDate(birthDate) then Fail(InvalidDateFormat)
        else if year < MIN_DATE || year > MAX_DATE then Fail(InvalidDateYear)
        else Pass
  }

  /**
    The birth-date check with the format checked first: every failure is a
    typed rejection, and a date passes exactly when its year is in range.
   */
  function BirthDateCheck(birthDate: string): (r: Check)
    ensures r.Fail? ==> r.error.IsErrorEnum()
    ensures r == Fail(InvalidDateFormat) <==> !IsDate(birthDate)
    ensures r == Fail(InvalidDateYear) <==>
      IsDate(birthDate) && !(MIN_DATE <= ParseDate(birthDate).value.year <= MAX_DATE)
    ensures r.Pass? <==> IsDate(birthDate) && MIN_DATE <= ParseDate(birthDate).value.year <= MAX_DATE
  {
    if !IsDate(birthDate) then
      Fail(InvalidDateFormat)
    else
      var year := ParseDate(birthDate).value.year;
      if year < MIN_DATE || year > MAX_DATE then Fail(InvalidDateYear) else Pass
  }

  /**
    Wherever the as-written check does not crash, the two checks agree; where
    it crashes, the corrected check rejects the format.
   */
  lemma BirthDateChecksAgree(birthDate: string)
    ensures BirthDateCheckAsWritten(birthDate).Fail? && BirthDateCheckAsWritten(birthDate).error.IsErrorEnum()
            ==> BirthDateCheckAsWritten(birthDate) == BirthDateCheck(birthDate)
    ensures BirthDateCheckAsWritten(birthDate).Pass? ==> BirthDateCheck(birthDate).Pass?
    ensures BirthDateCheck(birthDate).Pass? ==> BirthDateCheckAsWritten(birthDate).Pass?
    ensures BirthDateCheckAsWritten(birthDate).Fail? && !BirthDateCheckAsWritten(birthDate).error.IsErrorEnum()
            ==> BirthDateCheck(birthDate) == Fail(InvalidDateFormat)
  {
    if IsDate(birthDate) {
      assert birthDate[|birthDate| - 4..] == birthDate[6..10];
    }
  }

  /** A birth date with a letter in its year crashes the as-written check instead of being rejected. */
  lemma BirthDateParsedBeforeFormat()
    ensures BirthDateCheckAsWritten("01/01/19a0") == Fail(NumberFormat)
    ensures BirthDateCheck("01/01/19a0") == Fail(InvalidDateFormat)
    ensures BirthDateCheckAsWritten("1/1") == Fail(StringIndexOutOfBounds)
    ensures BirthDateCheck("1/1") == Fail(InvalidDateFormat)
  {
    assert "19a0"[2] == 'a';
    assert !AllDigits("19a0");
    assert ParseInt("19a0") == None;
    assert "01/01/19a0"[6..10] == "19a0";
  }

  /**
    The role, email and birth-date checks, in their order. The source compares
    the role with the spellings "user", "admin" and "super_admin", ignoring
    case; Entities.RoleSpellingsAgree shows that this is IsRole.
   */
  function MailRoleAndDateVerdict(form: RegistrationForm, isEmail: string -> bool): (r: Check)
    ensures r == Fail(InvalidRole) <==> !IsRole(form.role)
    ensures r == Fail(InvalidEmail) <==> IsRole(form.role) && !isEmail(form.email)
    ensures IsRole(form.role) && isEmail(form.email) ==> r == BirthDateCheck(form.birthDate)
  {
    if !IsRole(form.role) then
      Fail(InvalidRole)
    else if !isEmail(form.email) then
      Fail(InvalidEmail)
    else
      BirthDateCheck(form.birthDate)
  }

  /** What the gate writes back into a registration that passes. */
  function Normalised(form: RegistrationForm): (f: RegistrationForm)
    ensures f.userName == form.userName && f.password == form.password && f.birthDate == form.birthDate
    ensures f.email == Lower(form.email) && f.role == Upper(form.role)
    ensures f.firstName == Upper(form.firstName) && f.lastName == Upper(form.lastName)
  {
    form.(email := Lower(form.email), role := Upper(form.role),
          firstName := Upper(form.firstName), lastName := Upper(form.lastName))
  }

  /**
    The whole registration gate: user name, password, email, role, email
    format, birth-date format, birth year, in that order.
   */
  function RegistrationVerdict(st: Store, form: RegistrationForm, matches: (string, string) -> bool,
                               isEmail: string -> bool): (r: Check)
    ensures r == Fail(UsernameAlreadyExists) <==> form.userName in st.users
    ensures r == Fail(PasswordAlreadyUsed) <==>
      form.userName !in st.users && PasswordUsed(st, form.password, matches)
    ensures r == Fail(EmailAlreadyExists) <==>
      form.userName !in st.users && !PasswordUsed(st, form.password, matches) && EmailTaken(st, form.email)
    ensures r == Fail(InvalidRole) <==> AccountIsNew(st, form, matches) && !IsRole(form.role)
    ensures r == Fail(InvalidEmail) <==> AccountIsNew(st, form, matches) && IsRole(form.role) && !isEmail(form.email)
    ensures r == Fail(InvalidDateFormat) <==>
      AccountIsNew(st, form, matches) && IsRole(form.role) && isEmail(form.email) && !IsDate(form.birthDate)
    ensures r == Fail(InvalidDateYear) <==>
      && AccountIsNew(st, form, matches) && IsRole(form.role) && isEmail(form.email) && IsDate(form.birthDate)
      && !(MIN_DATE <= ParseDate(form.birthDate).value.year <= MAX_DATE)
    ensures r.Pass? <==>
      && AccountIsNew(st, form, matches) && IsRole(form.role) && isEmail(form.email) && IsDate(form.birthDate)
      && MIN_DATE <= ParseDate(form.birthDate).value.year <= MAX_DATE
  {
    if form.userName in st.users then Fail(UsernameAlreadyExists)
    else if PasswordUsed(st, form.password, matches) then Fail(PasswordAlreadyUsed)
    else if EmailTaken(st, form.email) then Fail(EmailAlreadyExists)
    else MailRoleAndDateVerdict(form, isEmail)
  }

  /**
    Checks role, email and birth date, and on success rewrites the request:
    email lower-cased, role and names upper-cased.
   */
  method CheckMailAndGenderAndDate(dto: RegistrationDto, isEmail: string -> bool) returns (r: Check)
    modifies dto
    ensures r == MailRoleAndDateVerdict(old(dto.Form()), isEmail)
    ensures dto.Form() == if r.Pass? then Normalised(old(dto.Form())) else old(dto.Form())
  {
    r := MailRoleAndDateVerdict(dto.Form(), isEmail);
    if r.Pass? {
      dto.email := Lower(dto.email);
      dto.role := Upper(dto.role);
      dto.firstName := Upper(dto.firstName);
      dto.lastName := Upper(dto.lastName);
    }
  }

  /**
    The registration gate. `passwords` is the repository's list of every
    stored password hash; the loop rejects the first one the new password
    matches.
   */
  method RegistrationChecker(st: Store, passwords: seq<string>, dto: RegistrationDto,
                             matches: (string, string) -> bool, isEmail: string -> bool) returns (r: Check)
    requires (set p | p in passwords) == StoredPasswords(st)
    modifies dto
    ensures r == RegistrationVerdict(st, old(dto.Form()), matches, isEmail)
    ensures dto.Form() == if r.Pass? then Normalised(old(dto.Form())) else old(dto.Form())
  {
    if dto.userName in st.users {
      return Fail(UsernameAlreadyExists);
    }
    var i := 0;
    while i < |passwords|
      invariant 0 <= i <= |passwords|
      invariant forall j :: 0 <= j < i ==> !matches(dto.password, passwords[j])
    {
      if matches(dto.password, passwords[i]) {
        assert passwords[i] in StoredPasswords(st);
        return Fail(PasswordAlreadyUsed);
      }
      i := i + 1;
    }
    assert !PasswordUsed(st, dto.password, matches) by {
      forall h | h in StoredPasswords(st)
        ensures !matches(dto.password, h)
      {
        assert h in (set p | p in passwords);
      }
    }
    if EmailTaken(st, dto.email) {
      return Fail(EmailAlreadyExists);
    }
    r := CheckMailAndGenderAndDate(dto, isEmail);
  }

  /** A registration that passes leaves a canonical role, a lower-case email and upper-case names. */
  lemma RegistrationNormalisesForm(st: Store, form: RegistrationForm, matches: (string, string) -> bool,
                                   isEmail: string -> bool)
    requires RegistrationVerdict(st, form, matches, isEmail).Pass?
    ensures IsCanonicalRole(Normalised(form).role)
    ensures IsLower(Normalised(form).email)
    ensures IsUpper(Normalised(form).firstName) && IsUpper(Normalised(form).lastName)
    ensures MIN_DATE <= ParseDate(Normalised(form).birthDate).value.year <= MAX_DATE
  {
    UpperOfRole(form.role);
    LowerIsLower(form.email);
    UpperIsUpper(form.firstName);
    UpperIsUpper(form.lastName);
  }

  // ---------------------------------------------------------------------------
  // The per-request gates
  // ---------------------------------------------------------------------------

  /** Creating a server: the actor must be an admin, then the server checks run. */
  function ValidateServerCreation(st: Store, dto: ServerCreationDto, userName: string, now: Timestamp): (r: Check)
    ensures VerifyUser(st, userName, ADMIN).Fail? ==> r == VerifyUser(st, userName, ADMIN)
    ensures VerifyUser(st, userName, ADMIN).Pass? ==> r == ServerCreationChecker(st, dto, now)
    ensures r.Pass? ==> dto.name !in st.servers && IsDate(dto.deleteDate)
  {
    var actor := VerifyUser(st, userName, "ADMIN");
    if actor.Fail? then actor else ServerCreationChecker(st, dto, now)
  }

  /** Choosing a server: the actor must be a plain user, then the server must be free. */
  function ValidateChoosingServer(st: Store, userName: string, serverName: string): (r: Check)
    ensures VerifyUser(st, userName, USER).Fail? ==> r == VerifyUser(st, userName, USER)
    ensures VerifyUser(st, userName, USER).Pass? ==> r == ChoosingServerChecker(st, serverName)
    ensures r.Pass? <==>
      && userName in st.users && EqualsIgnoreCase(st.users[userName].role, USER)
      && serverName in st.servers && st.servers[serverName].userId.None?
      && !EqualsIgnoreCase(st.servers[serverName].status, REMOVED)
  {
    var actor := VerifyUser(st, userName, "USER");
    if actor.Fail? then actor else ChoosingServerChecker(st, serverName)
  }

  /** Releasing a server: the actor must be a plain user who owns it. */
  function ValidateServerRelease(st: Store, userName: string, serverName: string): (r: Check)
    ensures VerifyUser(st, userName, USER).Fail? ==> r == VerifyUser(st, userName, USER)
    ensures VerifyUser(st, userName, USER).Pass? ==> r == ReleasingServerChecker(st, userName, serverName)
    ensures r.Fail? ==> r.error.IsErrorEnum()
    ensures r.Pass? <==>
      && userName in st.users && EqualsIgnoreCase(st.users[userName].role, USER)
      && serverName in st.servers && st.servers[serverName].userId == Some(st.users[userName].id)
  {
    var actor := VerifyUser(st, userName, "USER");
    if actor.Fail? then actor else ReleasingServerChecker(st, userName, serverName)
  }

  /** Deleting a user: both must exist and the actor must be a super admin. */
  function ValidateDeletingUser(st: Store, superAdminName: string, toDeleteUser: string): (r: Check)
    ensures r.Pass? <==>
      && superAdminName in st.users && toDeleteUser in st.users
      && EqualsIgnoreCase(st.users[superAdminName].role, SUPER_ADMIN)
    ensures r == Fail(UsernameNotExists) <==> superAdminName !in st.users || toDeleteUser !in st.users
    ensures r.Fail? ==> r.error == UsernameNotExists || r.error == NoAccessToModifyUser
  {
    VerifyUserForDeletion(st, superAdminName, toDeleteUser)
  }

  /** Changing a role: the deletion checks, then the role checks against the target's current role. */
  function ValidateChangeRole(st: Store, superAdminName: string, secondUser: string, role: string): (r: Check)
    ensures VerifyUserForDeletion(st, superAdminName, secondUser).Fail? ==>
      r == VerifyUserForDeletion(st, superAdminName, secondUser)
    ensures r == Fail(InvalidRole) <==>
      VerifyUserForDeletion(st, superAdminName, secondUser).Pass? && !IsRole(role)
    ensures r == Fail(RoleCurrentlyUsing) <==>
      && VerifyUserForDeletion(st, superAdminName, secondUser).Pass? && IsRole(role)
      && EqualsIgnoreCase(role, st.users[secondUser].role)
    ensures r.Pass? <==>
      && VerifyUserForDeletion(st, superAdminName, secondUser).Pass? && IsRole(role)
      && !EqualsIgnoreCase(role, st.users[secondUser].role)
    ensures r.Pass? ==> secondUser in st.users && IsRole(role)
  {
    var actors := VerifyUserForDeletion(st, superAdminName, secondUser);
    if actors.Fail? then actors else RoleChecker(role, st.users[secondUser].role)
  }
}
