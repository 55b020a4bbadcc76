/**
  The operation handlers. A ServerService holds the two repositories as maps
  and changes them in place; the functions before the class state, on store
  values, what each handler leaves behind.
 */
module ServerService {
  import opened Wrappers
  import opened Text
  import opened Entities

  /** The entity saved for a creation request: free and unowned. */
  function ServerDtoToEntity(dto: ServerCreationDto): Server {
    Server(dto.capacity, dto.deleteDate, FREE, None)
  }

  /** A server after its owner lets it go: free and unowned, otherwise unchanged. */
  function Freed(s: Server): Server {
    s.(userId := None, status := FREE)
  }

  /** The owner id chooseServer records: the user's id, or 0 for an unknown user. */
  function OwnerIdFor(st: Store, userName: string): int {
    if userName in st.users then st.users[userName].id else 0
  }

  /** The store after creating a server under a new name: exactly one server more. */
  function AfterCreate(st: Store, dto: ServerCreationDto): (r: Store)
    requires dto.name !in st.servers
    ensures r.users == st.users
    ensures r.servers.Keys == st.servers.Keys + {dto.name}
    ensures forall n :: n in st.servers ==> r.servers[n] == st.servers[n]
    ensures r.servers[dto.name].status == FREE && r.servers[dto.name].userId == None
    ensures r.servers[dto.name].capacity == dto.capacity && r.servers[dto.name].deleteDate == dto.deleteDate
  {
    st.(servers := st.servers[dto.name := ServerDtoToEntity(dto)])
  }

  /** The store after `userName` takes server `serverName`: it is in use and owned by the user. */
  function AfterChoose(st: Store, userName: string, serverName: string): (r: Store)
    requires serverName in st.servers
    ensures r.users == st.users
    ensures r.servers.Keys == st.servers.Keys
    ensures forall n :: n in st.servers && n != serverName ==> r.servers[n] == st.servers[n]
    ensures r.servers[serverName].status == IN_USE
    ensures r.servers[serverName].userId == Some(OwnerIdFor(st, userName))
    ensures r.servers[serverName].capacity == st.servers[serverName].capacity
    ensures r.servers[serverName].deleteDate == st.servers[serverName].deleteDate
  {
    var s := st.servers[serverName];
    st.(servers := st.servers[serverName := s.(status := "U", userId := Some(OwnerIdFor(st, userName)))])
  }

  /** The store after server `serverName` is released: free and unowned. */
  function AfterRelease(st: Store, serverName: string): (r: Store)
    requires serverName in st.servers
    ensures r.users == st.users
    ensures r.servers.Keys == st.servers.Keys
    ensures forall n :: n in st.servers && n != serverName ==> r.servers[n] == st.servers[n]
    ensures r.servers[serverName].status == FREE && r.servers[serverName].userId == None
    ensures r.servers[serverName].capacity == st.servers[serverName].capacity
    ensures r.servers[serverName].deleteDate == st.servers[serverName].deleteDate
  {
    st.(servers := st.servers[serverName := Freed(st.servers[serverName])])
  }

  /** The servers with every one owned by `id` freed; the others unchanged. */
  function FreeOwnedBy(servers: map<string, Server>, id: int): (r: map<string, Server>)
    ensures r.Keys == servers.Keys
    ensures forall n :: n in servers && servers[n].userId == Some(id) ==> r[n] == Freed(servers[n])
    ensures forall n :: n in servers && servers[n].userId != Some(id) ==> r[n] == servers[n]
    ensures forall n :: n in r ==> r[n].userId != Some(id)
  {
    map n | n in servers :: if servers[n].userId == Some(id) then Freed(servers[n]) else servers[n]
  }

  /** The store after deleting `toDeleteUser`: its servers freed, its record gone. */
  function AfterDelete(st: Store, toDeleteUser: string): (r: Store)
    requires toDeleteUser in st.users
    ensures r.users.Keys == st.users.Keys - {toDeleteUser}
    ensures forall n :: n in r.users ==> r.users[n] == st.users[n]
    ensures r.servers == FreeOwnedBy(st.servers, st.users[toDeleteUser].id)
  {
    Store(st.users - {toDeleteUser}, FreeOwnedBy(st.servers, st.users[toDeleteUser].id))
  }

  /** The store after giving `secondUser` the upper-case form of `role`; nothing else changes. */
  function AfterChangeRole(st: Store, secondUser: string, role: string): (r: Store)
    requires secondUser in st.users
    ensures r.servers == st.servers
    ensures r.users.Keys == st.users.Keys
    ensures forall n :: n in st.users && n != secondUser ==> r.users[n] == st.users[n]
    ensures r.users[secondUser] == st.users[secondUser].(role := Upper(role))
  {
    st.(users := st.users[secondUser := st.users[secondUser].(role := Upper(role))])
  }

  /** The servers whose status is exactly "F". */
  function FreeServers(st: Store): (r: map<string, Server>)
    ensures forall n :: n in r <==> n in st.servers && st.servers[n].status == FREE
    ensures forall n :: n in r ==> r[n] == st.servers[n]
  {
    map n | n in st.servers && st.servers[n].status == FREE :: st.servers[n]
  }

  class ServerService {
    var users: map<string, User>
    var servers: map<string, Server>

    constructor (st: Store)
      ensures Snapshot() == st
    {
      users, servers := st.users, st.servers;
    }

    function Snapshot(): Store
      reads this
    {
      Store(users, servers)
    }

    /**
      The repository query findByStatus. The repository answers a list query
      with a list, possibly empty, so the answer is always present.
     */
    function FindByStatus(status: string): (r: Option<map<string, Server>>)
      reads this
      ensures r.Some?
      ensures forall n :: n in r.value <==> n in servers && servers[n].status == status
      ensures forall n :: n in r.value ==> r.value[n] == servers[n]
    {
      Some(map n | n in servers && servers[n].status == status :: servers[n])
    }

    /**
      Saves the entity built from the request. The name is the table's unique
      key: saving under a name already present is refused by the store.
     */
    method CreateServer(dto: ServerCreationDto, userName: string) returns (r: Outcome<Error>)
      modifies this
      ensures r == if dto.name in old(servers) then Fail(UniqueKeyViolation) else Pass
      ensures r.Pass? ==> Snapshot() == AfterCreate(old(Snapshot()), dto)
      ensures r.Fail? ==> Snapshot() == old(Snapshot())
    {
      if dto.name in servers {
        return Fail(UniqueKeyViolation);
      }
      servers := servers[dto.name := ServerDtoToEntity(dto)];
      r := Pass;
    }

    /**
      The free servers. NO_FREE_SERVERS_FOUND is raised only for an absent
      repository answer, so an empty list is returned, not an error.
     */
    method GetFreeServers() returns (r: Result<map<string, Server>, Error>)
      ensures r == Ok(FreeServers(Snapshot()))
    {
      var freeServers := FindByStatus(FREE);
      if freeServers.Some? {
        return Ok(freeServers.value);
      }
      r := Err(NoFreeServersFound);
    }

    /**
      Marks the server in use by the user (owner id 0 for an unknown user) and
      returns it; an unknown server gives null and changes nothing.
     */
    method ChooseServer(userName: string, serverName: string) returns (s: Option<Server>)
      modifies this
      ensures serverName !in old(servers) ==> s == None && Snapshot() == old(Snapshot())
      ensures serverName in old(servers) ==>
        && Snapshot() == AfterChoose(old(Snapshot()), userName, serverName)
        && s == Some(servers[serverName])
    {
      if serverName !in servers {
        return None;
      }
      var userId := 0;
      if userName in users {
        userId := users[userName].id;
      }
      var chosen := servers[serverName].(status := "U", userId := Some(userId));
      servers := servers[serverName := chosen];
      s := Some(chosen);
    }

    /** Frees the named server; an unknown server changes nothing. */
    method ReleaseServer(userName: string, serverName: string)
      modifies this
      ensures serverName !in old(servers) ==> Snapshot() == old(Snapshot())
      ensures serverName in old(servers) ==> Snapshot() == AfterRelease(old(Snapshot()), serverName)
    {
      if serverName in servers {
        servers := servers[serverName := servers[serverName].(userId := None, status := "F")];
      }
    }

    /**
      Frees every server the user owns, one at a time, then deletes the user.
      The user is looked up without a null check: an unknown user ends in a
      null dereference before anything changes.
     */
    method DeleteUser(superAdminName: string, toDeleteUser: string) returns (r: Outcome<Error>)
      modifies this
      ensures toDeleteUser !in old(users) ==> r == Fail(NullPointer) && Snapshot() == old(Snapshot())
      ensures toDeleteUser in old(users) ==> r == Pass && Snapshot() == AfterDelete(old(Snapshot()), toDeleteUser)
    {
      if toDeleteUser !in users {
        return Fail(NullPointer);
      }
      var id := users[toDeleteUser].id;
      var owned := set n | n in servers && servers[n].userId == Some(id);
      var pending := owned;
      while pending != {}
        invariant pending <= owned
        invariant users == old(users)
        invariant servers.Keys == old(servers).Keys
        invariant forall n :: n in servers ==>
          servers[n] == if n in owned && n !in pending then Freed(old(servers)[n]) else old(servers)[n]
        decreases pending
      {
        var n :| n in pending;
        servers := servers[n := servers[n].(userId := None, status := "F")];
        pending := pending - {n};
      }
      users := users - {toDeleteUser};
      r := Pass;
    }

    /** Gives the user the upper-case form of the role; an unknown user changes nothing. */
    method ChangeRole(superAdminName: string, secondUser: string, role: string)
      modifies this
      ensures secondUser !in old(users) ==> Snapshot() == old(Snapshot())
      ensures secondUser in old(users) ==> Snapshot() == AfterChangeRole(old(Snapshot()), secondUser, role)
    {
      if secondUser in users {
        users := users[secondUser := users[secondUser].(role := Upper(role))];
      }
    }
  }
}
