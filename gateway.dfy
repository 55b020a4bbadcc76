/**
  Each request as one sequential step: the gate runs first, and the handler
  runs only when the gate passes. The store invariant (a server is owned
  exactly when it is in use, owners are stored users, roles are canonical)
  holds across every step.
 */
module Gateway {
  import opened Wrappers
  import opened Text
  import opened Dates
  import opened Entities
  import opened ValidateParams
  import opened ServerService

  datatype Request =
    | Create(dto: ServerCreationDto, userName: string, now: Timestamp)
    | GetFree
    | Choose(userName: string, serverName: string)
    | Release(userName: string, serverName: string)
    | Delete(superAdminName: string, toDeleteUser: string)
    | ChangeRole(superAdminName: string, secondUser: string, role: string)

  datatype Response =
    | Created
    | FreeList(servers: map<string, Server>)
    | Chosen(server: Server)
    | Released
    | Deleted
    | RoleChanged
    | Rejected(error: Error)

  datatype StepResult = StepResult(store: Store, response: Response)

  /** The gate that runs before the request's handler. */
  function Gate(st: Store, req: Request): Check {
    match req
    case Create(dto, userName, now) => ValidateServerCreation(st, dto, userName, now)
    case GetFree => Pass
    case Choose(userName, serverName) => ValidateChoosingServer(st, userName, serverName)
    case Release(userName, serverName) => ValidateServerRelease(st, userName, serverName)
    case Delete(superAdminName, toDeleteUser) => ValidateDeletingUser(st, superAdminName, toDeleteUser)
    case ChangeRole(superAdminName, secondUser, role) => ValidateChangeRole(st, superAdminName, secondUser, role)
  }

  /** One request: a rejection leaves the store as it was; otherwise the handler's effect. */
  function Step(st: Store, req: Request): (r: StepResult)
    ensures Gate(st, req).Fail? ==> r == StepResult(st, Rejected(Gate(st, req).error))
    ensures r.response.Rejected? ==> r.store == st
  {
    var gate := Gate(st, req);
    if gate.Fail? then StepResult(st, Rejected(gate.error))
    else
      match req
      case Create(dto, _, _) => StepResult(AfterCreate(st, dto), Created)
      case GetFree => StepResult(st, FreeList(FreeServers(st)))
      case Choose(userName, serverName) =>
        var after := AfterChoose(st, userName, serverName);
        StepResult(after, Chosen(after.servers[serverName]))
      case Release(_, serverName) => StepResult(AfterRelease(st, serverName), Released)
      case Delete(_, toDeleteUser) => StepResult(AfterDelete(st, toDeleteUser), Deleted)
      case ChangeRole(_, secondUser, role) => StepResult(AfterChangeRole(st, secondUser, role), RoleChanged)
  }

  /** Runs a request against the service: the gate, then the handler. */
  method Handle(svc: ServerService, req: Request) returns (resp: Response)
    modifies svc
    ensures svc.Snapshot() == Step(old(svc.Snapshot()), req).store
    ensures resp == Step(old(svc.Snapshot()), req).response
  {
    var gate := Gate(svc.Snapshot(), req);
    if gate.Fail? {
      return Rejected(gate.error);
    }
    match req
    case Create(dto, userName, _) =>
      var r := svc.CreateServer(dto, userName);
      resp := match r case Pass => Created case Fail(e) => Rejected(e);
    case GetFree =>
      var r := svc.GetFreeServers();
      resp := match r case Ok(list) => FreeList(list) case Err(e) => Rejected(e);
    case Choose(userName, serverName) =>
      var s := svc.ChooseServer(userName, serverName);
      resp := match s case Some(server) => Chosen(server) case None => Rejected(ServerDoNotExists);
    case Release(userName, serverName) =>
      svc.ReleaseServer(userName, serverName);
      resp := Released;
    case Delete(superAdminName, toDeleteUser) =>
      var r := svc.DeleteUser(superAdminName, toDeleteUser);
      resp := match r case Pass => Deleted case Fail(e) => Rejected(e);
    case ChangeRole(superAdminName, secondUser, role) =>
      svc.ChangeRole(superAdminName, secondUser, role);
      resp := RoleChanged;
  }

  // ---------------------------------------------------------------------------
  // The store invariant
  // ---------------------------------------------------------------------------

  lemma CreateKeepsConsistent(st: Store, dto: ServerCreationDto, userName: string, now: Timestamp)
    requires Consistent(st)
    requires ValidateServerCreation(st, dto, userName, now).Pass?
    ensures Consistent(AfterCreate(st, dto))
  {
    var after := AfterCreate(st, dto);
    forall n | n in after.servers
      ensures ServerConsistent(after, after.servers[n])
    {
      if n != dto.name {
        assert ServerConsistent(st, st.servers[n]);
      }
    }
  }

  lemma ChooseKeepsConsistent(st: Store, userName: string, serverName: string)
    requires Consistent(st)
    requires ValidateChoosingServer(st, userName, serverName).Pass?
    ensures Consistent(AfterChoose(st, userName, serverName))
    ensures AfterChoose(st, userName, serverName).servers[serverName].userId == Some(st.users[userName].id)
  {
    var after := AfterChoose(st, userName, serverName);
    forall n | n in after.servers
      ensures ServerConsistent(after, after.servers[n])
    {
      if n == serverName {
        assert after.users[userName].id == after.servers[n].userId.value;
      } else {
        assert ServerConsistent(st, st.servers[n]);
      }
    }
  }

  lemma ReleaseKeepsConsistent(st: Store, userName: string, serverName: string)
    requires Consistent(st)
    requires ValidateServerRelease(st, userName, serverName).Pass?
    ensures Consistent(AfterRelease(st, serverName))
  {
    var after := AfterRelease(st, serverName);
    forall n | n in after.servers && n != serverName
      ensures ServerConsistent(after, after.servers[n])
    {
      assert ServerConsistent(st, st.servers[n]);
    }
  }

  /** Deleting a user keeps the invariant whether or not the gate ran: its servers are freed first. */
  lemma DeleteKeepsConsistent(st: Store, toDeleteUser: string)
    requires Consistent(st)
    requires toDeleteUser in st.users
    ensures Consistent(AfterDelete(st, toDeleteUser))
  {
    var after := AfterDelete(st, toDeleteUser);
    var id := st.users[toDeleteUser].id;
    forall n | n in after.servers
      ensures ServerConsistent(after, after.servers[n])
    {
      var s := st.servers[n];
      assert ServerConsistent(st, s);
      if s.userId.Some? && s.userId.value != id {
        var owner :| owner in st.users && st.users[owner].id == s.userId.value;
        assert owner in after.users;
      }
    }
  }

  /** Owners are found by id, and changing a role keeps every id. */
  lemma ChangeRoleKeepsOwners(st: Store, secondUser: string, role: string)
    requires secondUser in st.users
    requires forall n :: n in st.servers ==> ServerConsistent(st, st.servers[n])
    ensures forall n :: n in st.servers ==>
      ServerConsistent(AfterChangeRole(st, secondUser, role), st.servers[n])
  {
    var after := AfterChangeRole(st, secondUser, role);
    forall n | n in st.servers
      ensures ServerConsistent(after, st.servers[n])
    {
      var s := st.servers[n];
      assert ServerConsistent(st, s);
      if s.userId.Some? {
        var owner :| owner in st.users && st.users[owner].id == s.userId.value;
        assert after.users[owner].id == s.userId.value;
      }
    }
  }

  /** Giving a user a role the gate accepted keeps every stored role canonical. */
  lemma ChangeRoleKeepsConsistent(st: Store, secondUser: string, role: string)
    requires Consistent(st)
    requires secondUser in st.users && IsRole(role)
    ensures Consistent(AfterChangeRole(st, secondUser, role))
  {
    UpperOfRole(role);
    ChangeRoleKeepsOwners(st, secondUser, role);
  }

  /** Every request, accepted or rejected, keeps the store invariant. */
  lemma StepKeepsConsistent(st: Store, req: Request)
    requires Consistent(st)
    ensures Consistent(Step(st, req).store)
  {
    if Gate(st, req).Pass? {
      match req
      case Create(dto, userName, now) => CreateKeepsConsistent(st, dto, userName, now);
      case GetFree =>
      case Choose(userName, serverName) => ChooseKeepsConsistent(st, userName, serverName);
      case Release(userName, serverName) => ReleaseKeepsConsistent(st, userName, serverName);
      case Delete(_, toDeleteUser) => DeleteKeepsConsistent(st, toDeleteUser);
      case ChangeRole(_, secondUser, role) => ChangeRoleKeepsConsistent(st, secondUser, role);
    }
  }

  // ---------------------------------------------------------------------------
  // Properties of request sequences
  // ---------------------------------------------------------------------------

  /**
    A removed server stays removed, with its fields untouched, whatever request
    comes next. The release and delete paths never look at the status; this
    holds because, in a consistent store, a removed server has no owner.
   */
  lemma RemovedIsTerminal(st: Store, req: Request, n: string)
    requires Consistent(st)
    requires n in st.servers && st.servers[n].status == REMOVED
    ensures n in Step(st, req).store.servers && Step(st, req).store.servers[n] == st.servers[n]
  {
    assert ServerConsistent(st, st.servers[n]);
  }

  /** A free server that is neither owned nor removed has status "F". */
  lemma ChoosableIsFree(st: Store, serverName: string)
    requires Consistent(st)
    requires serverName in st.servers && st.servers[serverName].userId.None?
    requires !EqualsIgnoreCase(st.servers[serverName].status, REMOVED)
    ensures st.servers[serverName].status == FREE
  {
    assert ServerConsistent(st, st.servers[serverName]);
  }

  /**
    A user who takes a server and then releases it leaves the store exactly as
    it was before the two requests.
   */
  lemma ChooseThenRelease(st: Store, userName: string, serverName: string)
    requires Consistent(st)
    requires Step(st, Choose(userName, serverName)).response.Chosen?
    ensures Step(Step(st, Choose(userName, serverName)).store, Release(userName, serverName))
            == StepResult(st, Released)
  {
    var chosen := Step(st, Choose(userName, serverName)).store;
    ChoosableIsFree(st, serverName);
    assert ValidateServerRelease(chosen, userName, serverName).Pass?;
    var released := AfterRelease(chosen, serverName);
    assert released.servers[serverName] == st.servers[serverName];
    assert released.servers == st.servers;
  }

  /** Releasing the same server twice: the second request is rejected as owned by another. */
  lemma ReleaseTwiceRejected(st: Store, userName: string, serverName: string)
    requires Step(st, Release(userName, serverName)).response == Released
    ensures Step(Step(st, Release(userName, serverName)).store, Release(userName, serverName))
            == StepResult(Step(st, Release(userName, serverName)).store, Rejected(ServerIsOwnedByOther))
  {
    var released := Step(st, Release(userName, serverName)).store;
    assert VerifyUser(released, userName, USER) == VerifyUser(st, userName, USER);
  }

  /** A user who does not own a server cannot release it, and nothing changes. */
  lemma ReleaseByNonOwnerRejected(st: Store, userName: string, serverName: string)
    requires serverName in st.servers
    requires userName !in st.users || st.servers[serverName].userId != Some(st.users[userName].id)
    ensures Step(st, Release(userName, serverName)).response.Rejected?
    ensures Step(st, Release(userName, serverName)).store == st
  {
  }

  /**
    Deleting a user frees every server it owned, keeps every other server,
    removes its record, and afterwards any request it makes is refused as
    from an unknown user.
   */
  lemma DeleteFreesOwnedServers(st: Store, superAdminName: string, toDeleteUser: string, serverName: string)
    requires Step(st, Delete(superAdminName, toDeleteUser)).response == Deleted
    ensures toDeleteUser in st.users
    ensures toDeleteUser !in Step(st, Delete(superAdminName, toDeleteUser)).store.users
    ensures Step(st, Delete(superAdminName, toDeleteUser)).store.servers.Keys == st.servers.Keys
    ensures serverName in st.servers && st.servers[serverName].userId == Some(st.users[toDeleteUser].id) ==>
      var s := Step(st, Delete(superAdminName, toDeleteUser)).store.servers[serverName];
      s.status == FREE && s.userId == None
    ensures serverName in st.servers && st.servers[serverName].userId != Some(st.users[toDeleteUser].id) ==>
      Step(st, Delete(superAdminName, toDeleteUser)).store.servers[serverName] == st.servers[serverName]
    ensures Step(Step(st, Delete(superAdminName, toDeleteUser)).store, Choose(toDeleteUser, serverName)).response
            == Rejected(UsernameNotExists)
    ensures Step(Step(st, Delete(superAdminName, toDeleteUser)).store, Release(toDeleteUser, serverName)).response
            == Rejected(UsernameNotExists)
    ensures forall dto: ServerCreationDto, now: Timestamp ::
      Step(Step(st, Delete(superAdminName, toDeleteUser)).store, Create(dto, toDeleteUser, now)).response
      == Rejected(UsernameNotExists)
    ensures forall other: string ::
      Step(Step(st, Delete(superAdminName, toDeleteUser)).store, Delete(toDeleteUser, other)).response
      == Rejected(UsernameNotExists)
    ensures forall other: string, role: string ::
      Step(Step(st, Delete(superAdminName, toDeleteUser)).store, ChangeRole(toDeleteUser, other, role)).response
      == Rejected(UsernameNotExists)
  {
  }

  /** An admin asking for a server name already in use is refused and nothing is added. */
  lemma DuplicateServerNameRejected(st: Store, dto: ServerCreationDto, userName: string, now: Timestamp)
    requires userName in st.users && EqualsIgnoreCase(st.users[userName].role, ADMIN)
    requires dto.name in st.servers
    ensures Step(st, Create(dto, userName, now)) == StepResult(st, Rejected(ServerWithThisNameAlreadyExists))
  {
  }

  /** A role change to the role the user already has, in any case, is refused. */
  lemma SameRoleRejected(st: Store, superAdminName: string, secondUser: string, role: string)
    requires superAdminName in st.users && EqualsIgnoreCase(st.users[superAdminName].role, SUPER_ADMIN)
    requires secondUser in st.users && IsRole(role) && EqualsIgnoreCase(role, st.users[secondUser].role)
    ensures Step(st, ChangeRole(superAdminName, secondUser, role)) == StepResult(st, Rejected(RoleCurrentlyUsing))
  {
    assert Gate(st, ChangeRole(superAdminName, secondUser, role)) == Fail(RoleCurrentlyUsing) by {
      assert VerifyUserForDeletion(st, superAdminName, secondUser).Pass?;
    }
  }

  // A worked run: an admin creates "srv1" with capacity 4 expiring on
  // 01/01/2030; alice takes it; bob is refused; alice releases it.

  function RunUsers(): map<string, User> {
    map["root" := User(1, ADMIN, "root@example.com", "h1"),
        "alice" := User(2, USER, "alice@example.com", "h2"),
        "bob" := User(3, USER, "bob@example.com", "h3")]
  }

  function RunNow(): Timestamp {
    Timestamp(Date(2026, 10, 15), 0)
  }

  function RunRequest(): ServerCreationDto {
    ServerCreationDto("srv1", 4, "01/01/2030")
  }

  lemma RunDayDigits()
    ensures Digits(1, 2) == "01"
  {
    assert Digits(0, 1) == "0";
  }

  lemma RunYearDigits()
    ensures Digits(2030, 4) == "2030"
  {
    assert Digits(2, 1) == "2";
    assert Digits(20, 2) == "20";
    assert Digits(203, 3) == "203";
  }

  lemma RunDateIsValid()
    ensures ParseDate("01/01/2030") == Some(Date(2030, 1, 1))
  {
    RunDayDigits();
    RunYearDigits();
    assert Render(Date(2030, 1, 1)) == "01/01/2030";
    RenderThenParse(Date(2030, 1, 1));
  }

  lemma RunCreate()
    ensures Step(Store(RunUsers(), map[]), Create(RunRequest(), "root", RunNow()))
            == StepResult(Store(RunUsers(), map["srv1" := Server(4, "01/01/2030", FREE, None)]), Created)
  {
    RunDateIsValid();
    assert ServerCreationChecker(Store(RunUsers(), map[]), RunRequest(), RunNow()).Pass?;
  }

  lemma RunAliceChooses()
    ensures Step(Store(RunUsers(), map["srv1" := Server(4, "01/01/2030", FREE, None)]), Choose("alice", "srv1"))
            == StepResult(Store(RunUsers(), map["srv1" := Server(4, "01/01/2030", IN_USE, Some(2))]),
                          Chosen(Server(4, "01/01/2030", IN_USE, Some(2))))
  {
    assert !EqualsIgnoreCase(FREE, REMOVED) by {
      assert Upper(FREE)[0] == 'F' && Upper(REMOVED)[0] == 'R';
    }
  }

  lemma RunBobRefused()
    ensures Step(Store(RunUsers(), map["srv1" := Server(4, "01/01/2030", IN_USE, Some(2))]), Choose("bob", "srv1"))
            == StepResult(Store(RunUsers(), map["srv1" := Server(4, "01/01/2030", IN_USE, Some(2))]),
                          Rejected(ServerIsNotFree))
  {
  }

  lemma RunAliceReleases()
    ensures Step(Store(RunUsers(), map["srv1" := Server(4, "01/01/2030", IN_USE, Some(2))]), Release("alice", "srv1"))
            == StepResult(Store(RunUsers(), map["srv1" := Server(4, "01/01/2030", FREE, None)]), Released)
  {
  }

  /** The whole run: created free, taken by alice, refused to bob, released by alice. */
  lemma CreateChooseReleaseRun()
    ensures
      var s1 := Step(Store(RunUsers(), map[]), Create(RunRequest(), "root", RunNow()));
      var s2 := Step(s1.store, Choose("alice", "srv1"));
      var s3 := Step(s2.store, Choose("bob", "srv1"));
      var s4 := Step(s3.store, Release("alice", "srv1"));
      && s1.response == Created
      && s1.store.servers["srv1"] == Server(4, "01/01/2030", FREE, None)
      && s2.response == Chosen(Server(4, "01/01/2030", IN_USE, Some(2)))
      && s3 == StepResult(s2.store, Rejected(ServerIsNotFree))
      && s4.response == Released
      && s4.store == s1.store
  {
    RunCreate();
    RunAliceChooses();
    RunBobRefused();
    RunAliceReleases();
  }
}
