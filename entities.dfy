/**
  The entity store the gate reads and the handlers change: users by user name,
  servers by server name, and the error kinds a request can end in.
 */
module Entities {
  import opened Wrappers
  import opened Text

  /** The three role names (UserRoles), in their stored upper-case form. */
  const USER: string := "USER"
  const ADMIN: string := "ADMIN"
  const SUPER_ADMIN: string := "SUPER_ADMIN"

  /** The three server status codes: free, in use, removed. */
  const FREE: string := "F"
  const IN_USE: string := "U"
  const REMOVED: string := "R"

  datatype User = User(id: int, role: string, email: string, passwordHash: string)

  /** A server; `userId` is the owner's id, or None when nobody owns it. */
  datatype Server = Server(capacity: int, deleteDate: string, status: string, userId: Option<int>)

  /** The two repositories: users keyed by user name, servers keyed by server name. */
  datatype Store = Store(users: map<string, User>, servers: map<string, Server>)

  /** The body of a server-creation request. */
  datatype ServerCreationDto = ServerCreationDto(name: string, capacity: int, deleteDate: string)

  /**
    The kinds of ErrorEnum a request can be rejected with, followed by the
    unchecked Java exceptions that can escape the same code paths.
   */
  datatype Error =
    | UsernameAlreadyExists
    | PasswordAlreadyUsed
    | EmailAlreadyExists
    | InvalidRole
    | InvalidEmail
    | InvalidDateFormat
    | InvalidDateYear
    | ServerWithThisNameAlreadyExists
    | InvalidServerDateFormat
    | InvalidServerDate
    | UsernameNotExists
    | NoAccessToModifyServer
    | ServerDoNotExists
    | ServerIsNotFree
    | ServerIsRemoved
    | ServerIsOwnedByOther
    | NoAccessToModifyUser
    | RoleCurrentlyUsing
    | NoFreeServersFound
    // unchecked exceptions, not kinds of ErrorEnum
    | NullPointer
    | StringIndexOutOfBounds
    | NumberFormat
    | UniqueKeyViolation
  {
    /** A typed rejection (a GeneralException), as opposed to an escaping runtime exception. */
    predicate IsErrorEnum() {
      !(NullPointer? || StringIndexOutOfBounds? || NumberFormat? || UniqueKeyViolation?)
    }
  }

  /** One of the three roles, ignoring case. */
  predicate IsRole(s: string) {
    EqualsIgnoreCase(s, USER) || EqualsIgnoreCase(s, ADMIN) || EqualsIgnoreCase(s, SUPER_ADMIN)
  }

  /** One of the three roles, in its stored upper-case form. */
  predicate IsCanonicalRole(s: string) {
    s == USER || s == ADMIN || s == SUPER_ADMIN
  }

  predicate OwnerExists(st: Store, id: int) {
    exists n :: n in st.users && st.users[n].id == id
  }

  /**
    A server is owned exactly when it is in use, its status is one of the
    three codes, and its owner is a stored user.
   */
  predicate ServerConsistent(st: Store, s: Server) {
    && (s.userId.Some? <==> s.status == IN_USE)
    && (s.status == FREE || s.status == IN_USE || s.status == REMOVED)
    && (s.userId.Some? ==> OwnerExists(st, s.userId.value))
  }

  /** The store invariant that every request keeps. */
  predicate Consistent(st: Store) {
    && (forall n :: n in st.servers ==> ServerConsistent(st, st.servers[n]))
    && (forall n :: n in st.users ==> IsCanonicalRole(st.users[n].role))
  }

  lemma UserRoleName()
    ensures Upper(USER) == USER && Upper("user") == USER
  {
  }

  lemma AdminRoleName()
    ensures Upper(ADMIN) == ADMIN && Upper("admin") == ADMIN
  {
  }

  lemma SuperAdminRoleName()
    ensures Upper(SUPER_ADMIN) == SUPER_ADMIN && Upper("super_admin") == SUPER_ADMIN
  {
  }

  /** Comparing with a lower-case role spelling, ignoring case, is comparing with the role. */
  lemma RoleSpellingsAgree(s: string)
    ensures EqualsIgnoreCase(s, "user") == EqualsIgnoreCase(s, USER)
    ensures EqualsIgnoreCase(s, "admin") == EqualsIgnoreCase(s, ADMIN)
    ensures EqualsIgnoreCase(s, "super_admin") == EqualsIgnoreCase(s, SUPER_ADMIN)
  {
    UserRoleName();
    AdminRoleName();
    SuperAdminRoleName();
  }

  /**
    A string that is a role, ignoring case, upper-cases to a canonical role;
    canonical roles are roles.
   */
  lemma UpperOfRole(s: string)
    ensures IsRole(s) ==> IsCanonicalRole(Upper(s))
    ensures IsCanonicalRole(s) ==> IsRole(s)
  {
    if EqualsIgnoreCase(s, USER) {
      UserRoleName();
    } else if EqualsIgnoreCase(s, ADMIN) {
      AdminRoleName();
    } else if EqualsIgnoreCase(s, SUPER_ADMIN) {
      SuperAdminRoleName();
    }
  }
}
