/**
 * App sources and their administrators: who administers which app source,
 * what happens to a dashboard user who stops being an administrator, how a
 * user becomes one, and the guards an app source update passes before it is
 * saved.
 */
module AppSources {
  import opened Wrappers
  import opened Text

  type Uuid = nat

  /** The privilege an app source administrator holds. */
  const AppSourceAdmin: string := "APP_SOURCE_ADMIN"

  /** A dashboard user: an email and the names of the privileges held. */
  datatype DashboardUser = DashboardUser(email: string, privileges: set<string>)

  datatype Endpoint = Endpoint(id: Uuid, path: string, requestType: string)

  /** A client's privilege on an app source, possibly tied to one endpoint. */
  datatype ClientPrivilege = ClientPrivilege(appClientId: Uuid, endpointId: Option<Uuid>)

  datatype AppSource = AppSource(name: string, endpoints: seq<Endpoint>, privileges: seq<ClientPrivilege>, admins: set<Uuid>)

  /** The update request: the id, the name and the parts `saveAppSource` rebuilds. */
  datatype AppSourceDetails = AppSourceDetails(id: Uuid, name: string, endpoints: seq<Endpoint>,
                                               appClients: seq<ClientPrivilege>, adminEmails: seq<string>)

  /** The app source and dashboard user tables together. */
  datatype Directory = Directory(sources: map<Uuid, AppSource>, users: map<Uuid, DashboardUser>)

  /** Every administrator of every app source is a stored dashboard user. */
  ghost predicate Linked(d: Directory)
  {
    forall s :: s in d.sources ==> d.sources[s].admins <= d.users.Keys
  }

  /** No two dashboard users share an email, ignoring case (the email lookup returns at most one user). */
  ghost predicate EmailsUnique(users: map<Uuid, DashboardUser>)
  {
    forall u, v :: u in users && v in users && EqualsIgnoreCase(users[u].email, users[v].email) ==> u == v
  }

  // ---------------------------------------------------------------------
  // Privilege checks
  // ---------------------------------------------------------------------

  /** Some privilege is named other than APP_SOURCE_ADMIN, compared case-sensitively. */
  predicate HasOtherPrivileges(privileges: set<string>)
  {
    exists p :: p in privileges && p != AppSourceAdmin
  }

  /** Having no other privilege means holding at most APP_SOURCE_ADMIN. */
  lemma HasOtherPrivilegesMeaning(privileges: set<string>)
    ensures !HasOtherPrivileges(privileges) <==> privileges <= {AppSourceAdmin}
  {
    if privileges <= {AppSourceAdmin} {
      assert forall p :: p in privileges ==> p == AppSourceAdmin;
    }
  }

  /** `privSetHasPrivsOtherThanAppSource`: the scan for a privilege not named APP_SOURCE_ADMIN. */
  method PrivSetHasPrivsOtherThanAppSource(privileges: set<string>) returns (r: bool)
    ensures r <==> HasOtherPrivileges(privileges)
  {
    var todo := privileges;
    ghost var done: set<string> := {};
    while todo != {}
      invariant todo <= privileges && done == privileges - todo
      invariant forall p :: p in done ==> p == AppSourceAdmin
      decreases todo
    {
      var p :| p in todo;
      if p != AppSourceAdmin {
        assert p in privileges;
        return true;
      }
      todo := todo - {p};
      done := done + {p};
    }
    assert done == privileges;
    r := false;
  }

  /** APP_SOURCE_ADMIN in lower case. */
  const AppSourceAdminLower: string := "app_source_admin"

  /** A privilege name the administrator checks treat as APP_SOURCE_ADMIN (case-insensitively). */
  predicate NamesAdminPrivilege(p: string)
  {
    Lower(p) == AppSourceAdminLower
  }

  /** Naming the privilege is equality with APP_SOURCE_ADMIN ignoring case. */
  lemma NamesAdminPrivilegeMeaning(p: string)
    ensures NamesAdminPrivilege(p) <==> EqualsIgnoreCase(p, AppSourceAdmin)
  {
    LowerByChars(AppSourceAdmin, AppSourceAdminLower);
  }

  /** APP_SOURCE_ADMIN itself names the privilege. */
  lemma AdminPrivilegeNamed()
    ensures NamesAdminPrivilege(AppSourceAdmin)
  {
    LowerByChars(AppSourceAdmin, AppSourceAdminLower);
  }

  /** The user with APP_SOURCE_ADMIN taken away, under any casing of the name. */
  function Strip(user: DashboardUser): (r: DashboardUser)
    ensures r.email == user.email
    ensures forall p :: p in r.privileges <==> p in user.privileges && !NamesAdminPrivilege(p)
  {
    user.(privileges := set p | p in user.privileges && !NamesAdminPrivilege(p))
  }

  // ---------------------------------------------------------------------
  // Is a user an administrator?
  // ---------------------------------------------------------------------

  /**
   * `userIsAdminForAppSource`: not found for an unknown app source; otherwise
   * whether a listed administrator has the email (ignoring case) and holds a
   * privilege named APP_SOURCE_ADMIN (ignoring case).
   */
  function IsAdmin(d: Directory, appId: Uuid, email: string): Result<bool, Failure>
    requires Linked(d)
  {
    if appId !in d.sources then Err(RecordNotFound)
    else Ok(exists u :: u in d.sources[appId].admins && AdminWithEmail(d.users, u, email))
  }

  /** The stored user has the email, ignoring case, and a privilege named APP_SOURCE_ADMIN. */
  predicate AdminWithEmail(users: map<Uuid, DashboardUser>, u: Uuid, email: string)
    requires u in users
  {
    EqualsIgnoreCase(users[u].email, email) && exists p :: p in users[u].privileges && NamesAdminPrivilege(p)
  }

  /** Whether the user's privileges include one named APP_SOURCE_ADMIN. */
  method HoldsAdminPrivilege(privileges: set<string>) returns (r: bool)
    ensures r <==> exists p :: p in privileges && NamesAdminPrivilege(p)
  {
    var todo := privileges;
    ghost var done: set<string> := {};
    while todo != {}
      invariant todo <= privileges && done == privileges - todo
      invariant forall p :: p in done ==> !NamesAdminPrivilege(p)
      decreases todo
    {
      var p :| p in todo;
      if NamesAdminPrivilege(p) {
        return true;
      }
      todo := todo - {p};
      done := done + {p};
    }
    r := false;
  }

  // ---------------------------------------------------------------------
  // Removing administrators
  // ---------------------------------------------------------------------

  /** What becomes of a dashboard user removed from an app source's administrators. */
  datatype Fate = Kept | Deleted | Stripped

  /** The user still administers another app source. */
  predicate AdministersOther(sources: map<Uuid, AppSource>, appId: Uuid, u: Uuid)
  {
    exists s :: s in sources && s != appId && u in sources[s].admins
  }

  /**
   * Kept while another app source lists the user; otherwise deleted when the
   * user has no other privilege, else stripped of APP_SOURCE_ADMIN.
   */
  function FateOf(d: Directory, appId: Uuid, u: Uuid): Fate
    requires u in d.users
  {
    if AdministersOther(d.sources, appId, u) then Kept
    else if !HasOtherPrivileges(d.users[u].privileges) then Deleted
    else Stripped
  }

  /** The administrators removed: all of them, or those whose email matches ignoring case. */
  function Removed(d: Directory, appId: Uuid, email: string, deleteAll: bool): (r: set<Uuid>)
    requires Linked(d) && appId in d.sources
    ensures r <= d.sources[appId].admins
  {
    set u | u in d.sources[appId].admins && (deleteAll || EqualsIgnoreCase(d.users[u].email, email))
  }

  /** The users after the removed users `gone` have met their fates. */
  function UsersAfter(d: Directory, appId: Uuid, gone: set<Uuid>): map<Uuid, DashboardUser>
  {
    map u | u in d.users && !(u in gone && FateOf(d, appId, u) == Deleted) ::
      if u in gone && FateOf(d, appId, u) == Stripped then Strip(d.users[u]) else d.users[u]
  }

  /** The directory after the users `gone` are removed from the app source's administrators. */
  function RemovedFrom(d: Directory, appId: Uuid, gone: set<Uuid>): Directory
    requires appId in d.sources
  {
    var source := d.sources[appId];
    Directory(d.sources[appId := source.(admins := source.admins - gone)], UsersAfter(d, appId, gone))
  }

  /** `deleteAdminsFromAppSource` as a whole. */
  function AdminsRemoved(d: Directory, appId: Uuid, email: string, deleteAll: bool): Directory
    requires Linked(d) && appId in d.sources
  {
    RemovedFrom(d, appId, Removed(d, appId, email, deleteAll))
  }

  /**
   * What removal does, user by user: the matching administrators leave the
   * app source, every other app source keeps its administrators, and each
   * removed user is kept, deleted or stripped by its fate; other users are
   * untouched.
   */
  lemma AdminsRemovedMeaning(d: Directory, appId: Uuid, email: string, deleteAll: bool)
    requires Linked(d) && appId in d.sources
    ensures var r := AdminsRemoved(d, appId, email, deleteAll);
            var gone := Removed(d, appId, email, deleteAll);
            r.sources.Keys == d.sources.Keys
            && r.sources[appId].admins == d.sources[appId].admins - gone
            && (deleteAll ==> r.sources[appId].admins == {})
            && (forall s :: s in d.sources && s != appId ==> r.sources[s] == d.sources[s])
            && (forall u :: u in d.users && u !in gone ==> u in r.users && r.users[u] == d.users[u])
            && (forall u :: u in gone && AdministersOther(d.sources, appId, u) ==> u in r.users && r.users[u] == d.users[u])
            && (forall u :: u in gone && !AdministersOther(d.sources, appId, u) ==>
                  (u !in r.users <==> !HasOtherPrivileges(d.users[u].privileges)))
            && (forall u :: u in gone && !AdministersOther(d.sources, appId, u) && u in r.users ==>
                  r.users[u] == Strip(d.users[u]))
  {
  }

  /** Removal leaves every administrator of every app source a stored user. */
  lemma AdminsRemovedStaysLinked(d: Directory, appId: Uuid, email: string, deleteAll: bool)
    requires Linked(d) && appId in d.sources
    ensures Linked(AdminsRemoved(d, appId, email, deleteAll))
  {
    var gone := Removed(d, appId, email, deleteAll);
    var r := AdminsRemoved(d, appId, email, deleteAll);
    forall s | s in r.sources
      ensures r.sources[s].admins <= r.users.Keys
    {
      forall u | u in r.sources[s].admins
        ensures u in r.users
      {
        if s != appId && u in gone {
          assert AdministersOther(d.sources, appId, u);
        }
      }
    }
  }

  /** Removal keeps emails unique. */
  lemma AdminsRemovedKeepsEmailsUnique(d: Directory, appId: Uuid, email: string, deleteAll: bool)
    requires Linked(d) && appId in d.sources && EmailsUnique(d.users)
    ensures EmailsUnique(AdminsRemoved(d, appId, email, deleteAll).users)
  {
    var r := AdminsRemoved(d, appId, email, deleteAll);
    forall u, v | u in r.users && v in r.users && EqualsIgnoreCase(r.users[u].email, r.users[v].email)
      ensures u == v
    {
      assert r.users[u].email == d.users[u].email && r.users[v].email == d.users[v].email;
    }
  }

  /** After the administrators with an email are removed, nobody with that email administers the app source. */
  lemma RemovedUserIsNoLongerAdmin(d: Directory, appId: Uuid, email: string)
    requires Linked(d) && appId in d.sources
    ensures Linked(AdminsRemoved(d, appId, email, false))
    ensures IsAdmin(AdminsRemoved(d, appId, email, false), appId, email) == Ok(false)
  {
    AdminsRemovedStaysLinked(d, appId, email, false);
    var r := AdminsRemoved(d, appId, email, false);
    forall u | u in r.sources[appId].admins
      ensures !EqualsIgnoreCase(r.users[u].email, email)
    {
      assert u !in Removed(d, appId, email, false);
      assert r.users[u] == d.users[u];
    }
  }

  /** One more user removed: the users change at that user alone, by its fate. */
  lemma UsersAfterStep(d: Directory, appId: Uuid, gone: set<Uuid>, u: Uuid)
    requires u in d.users && u !in gone
    ensures FateOf(d, appId, u) == Deleted ==> UsersAfter(d, appId, gone + {u}) == UsersAfter(d, appId, gone) - {u}
    ensures FateOf(d, appId, u) == Stripped ==>
              UsersAfter(d, appId, gone + {u}) == UsersAfter(d, appId, gone)[u := Strip(d.users[u])]
    ensures FateOf(d, appId, u) == Kept ==> UsersAfter(d, appId, gone + {u}) == UsersAfter(d, appId, gone)
  {
    var before := UsersAfter(d, appId, gone);
    var after := UsersAfter(d, appId, gone + {u});
    forall v | v != u
      ensures v in after <==> v in before
      ensures v in after ==> after[v] == before[v]
    {
      assert v in gone + {u} <==> v in gone;
    }
    assert u in before && before[u] == d.users[u];
    var fate := FateOf(d, appId, u);
    if fate == Deleted {
      assert after.Keys == before.Keys - {u};
    }
    if fate == Stripped {
      assert after.Keys == before.Keys;
    }
    if fate == Kept {
      assert after.Keys == before.Keys;
    }
  }

  // ---------------------------------------------------------------------
  // Adding administrators
  // ---------------------------------------------------------------------

  /** The stored users with the email, ignoring case. */
  function WithEmail(users: map<Uuid, DashboardUser>, email: string): (r: set<Uuid>)
    ensures r <= users.Keys
  {
    set u | u in users && EqualsIgnoreCase(users[u].email, email)
  }

  /** Every user with the email gains APP_SOURCE_ADMIN. */
  function GrantAdmin(users: map<Uuid, DashboardUser>, email: string): (r: map<Uuid, DashboardUser>)
    ensures r.Keys == users.Keys
  {
    map u | u in users :: if EqualsIgnoreCase(users[u].email, email)
                          then users[u].(privileges := users[u].privileges + {AppSourceAdmin})
                          else users[u]
  }

  /**
   * `addAppSourceAdmin` after `createDashboardUserWithAsAppSourceAdmin`: not
   * found for an unknown app source or a missing APP_SOURCE_ADMIN privilege;
   * otherwise the user with the email gains the privilege, or a new user
   * `newId` is created holding it, and that user joins the administrators.
   */
  function AdminAdded(d: Directory, privilegeNames: set<string>, appId: Uuid, email: string, newId: Uuid): Result<Directory, Failure>
  {
    if appId !in d.sources then Err(RecordNotFound)
    else if AppSourceAdmin !in privilegeNames then Err(RecordNotFound)
    else
      var source := d.sources[appId];
      var matching := WithEmail(d.users, email);
      if matching == {} then
        Ok(Directory(d.sources[appId := source.(admins := source.admins + {newId})],
                     d.users[newId := DashboardUser(email, {AppSourceAdmin})]))
      else
        Ok(Directory(d.sources[appId := source.(admins := source.admins + matching)], GrantAdmin(d.users, email)))
  }

  /** A user added as administrator is one: the administrator check then answers yes. */
  lemma AddedUserIsAdmin(d: Directory, privilegeNames: set<string>, appId: Uuid, email: string, newId: Uuid)
    requires Linked(d) && newId !in d.users
    requires AdminAdded(d, privilegeNames, appId, email, newId).Ok?
    ensures Linked(AdminAdded(d, privilegeNames, appId, email, newId).value)
    ensures IsAdmin(AdminAdded(d, privilegeNames, appId, email, newId).value, appId, email) == Ok(true)
  {
    var r := AdminAdded(d, privilegeNames, appId, email, newId).value;
    AdminAddedStaysLinked(d, privilegeNames, appId, email, newId);
    var matching := WithEmail(d.users, email);
    if matching == {} {
      assert newId in r.sources[appId].admins && r.users[newId] == DashboardUser(email, {AppSourceAdmin});
      AdminWitness(r, appId, email, newId);
    } else {
      var u :| u in matching;
      assert u in r.sources[appId].admins && r.users[u] == d.users[u].(privileges := d.users[u].privileges + {AppSourceAdmin});
      AdminWitness(r, appId, email, u);
    }
  }

  /** An administrator with the email and APP_SOURCE_ADMIN makes the check answer yes. */
  lemma AdminWitness(d: Directory, appId: Uuid, email: string, u: Uuid)
    requires Linked(d) && appId in d.sources && u in d.sources[appId].admins
    requires EqualsIgnoreCase(d.users[u].email, email) && AppSourceAdmin in d.users[u].privileges
    ensures IsAdmin(d, appId, email) == Ok(true)
  {
    AdminPrivilegeNamed();
    assert AdminWithEmail(d.users, u, email);
  }

  /** Adding an administrator keeps every administrator a stored user. */
  lemma AdminAddedStaysLinked(d: Directory, privilegeNames: set<string>, appId: Uuid, email: string, newId: Uuid)
    requires Linked(d)
    requires AdminAdded(d, privilegeNames, appId, email, newId).Ok?
    ensures Linked(AdminAdded(d, privilegeNames, appId, email, newId).value)
  {
    var r := AdminAdded(d, privilegeNames, appId, email, newId).value;
    assert r.users.Keys >= d.users.Keys;
    forall s | s in r.sources
      ensures r.sources[s].admins <= r.users.Keys
    {
      if s != appId {
        assert r.sources[s] == d.sources[s];
      }
    }
  }

  /** Granting the privilege to users who already hold it changes nothing. */
  lemma GrantAdminHeld(users: map<Uuid, DashboardUser>, email: string)
    requires forall v :: v in users && EqualsIgnoreCase(users[v].email, email) ==> AppSourceAdmin in users[v].privileges
    ensures GrantAdmin(users, email) == users
  {
    forall v | v in users
      ensures GrantAdmin(users, email)[v] == users[v]
    {
      if EqualsIgnoreCase(users[v].email, email) {
        assert users[v].privileges + {AppSourceAdmin} == users[v].privileges;
      }
    }
  }

  /** Adding the same administrator twice changes nothing the second time. */
  lemma AdminAddedIdempotent(d: Directory, privilegeNames: set<string>, appId: Uuid, email: string, newId: Uuid, otherId: Uuid)
    requires newId !in d.users
    requires AdminAdded(d, privilegeNames, appId, email, newId).Ok?
    requires otherId !in AdminAdded(d, privilegeNames, appId, email, newId).value.users
    ensures AdminAdded(AdminAdded(d, privilegeNames, appId, email, newId).value, privilegeNames, appId, email, otherId)
            == AdminAdded(d, privilegeNames, appId, email, newId)
  {
    var r := AdminAdded(d, privilegeNames, appId, email, newId).value;
    var matching := WithEmail(d.users, email);
    var source := r.sources[appId];
    if matching == {} {
      assert EqualsIgnoreCase(email, email);
      forall w | w in d.users
        ensures !EqualsIgnoreCase(d.users[w].email, email)
      {
        assert w !in matching;
      }
      assert WithEmail(r.users, email) == {newId};
      GrantAdminHeld(r.users, email);
      assert source.admins + {newId} == source.admins;
    } else {
      assert WithEmail(r.users, email) == matching;
      forall v | v in r.users && EqualsIgnoreCase(r.users[v].email, email)
        ensures AppSourceAdmin in r.users[v].privileges
      {
        assert r.users[v] == GrantAdmin(d.users, email)[v];
        assert r.users[v].email == d.users[v].email;
      }
      GrantAdminHeld(r.users, email);
      assert source.admins + matching == source.admins;
    }
    assert r.sources[appId := source] == r.sources;
  }

  /** Adding an administrator keeps every administrator a stored user, and emails unique. */
  lemma AdminAddedKeepsInvariants(d: Directory, privilegeNames: set<string>, appId: Uuid, email: string, newId: Uuid)
    requires Linked(d) && EmailsUnique(d.users) && newId !in d.users
    requires AdminAdded(d, privilegeNames, appId, email, newId).Ok?
    ensures Linked(AdminAdded(d, privilegeNames, appId, email, newId).value)
    ensures EmailsUnique(AdminAdded(d, privilegeNames, appId, email, newId).value.users)
  {
    var r := AdminAdded(d, privilegeNames, appId, email, newId).value;
    AdminAddedStaysLinked(d, privilegeNames, appId, email, newId);
    if WithEmail(d.users, email) == {} {
      forall w | w in d.users
        ensures !EqualsIgnoreCase(d.users[w].email, email)
      {
        assert w !in WithEmail(d.users, email);
      }
      forall u, v | u in r.users && v in r.users && EqualsIgnoreCase(r.users[u].email, r.users[v].email)
        ensures u == v
      {
        if u != newId && v != newId {
          assert r.users[u] == d.users[u] && r.users[v] == d.users[v];
        }
      }
    } else {
      forall u, v | u in r.users && v in r.users && EqualsIgnoreCase(r.users[u].email, r.users[v].email)
        ensures u == v
      {
        assert r.users[u].email == d.users[u].email && r.users[v].email == d.users[v].email;
      }
    }
  }

  // ---------------------------------------------------------------------
  // Update guards and client privileges
  // ---------------------------------------------------------------------

  /**
   * `updateAppSource` before saving: a mismatched id is an invalid update,
   * an unknown id is not found, and a trimmed name that differs from the
   * stored one (case-sensitively) but equals any stored name ignoring case,
   * the app source's own included, already exists.
   */
  function UpdateGuard(sources: map<Uuid, AppSource>, id: Uuid, details: AppSourceDetails): Result<AppSource, Failure>
  {
    if id != details.id then Err(InvalidRecordUpdateRequest)
    else if id !in sources then Err(RecordNotFound)
    else
      var name := Trim(details.name);
      if sources[id].name != name && exists s :: s in sources && EqualsIgnoreCase(sources[s].name, name)
      then Err(ResourceAlreadyExists)
      else Ok(sources[id])
  }

  /** The guard's outcome in each case, and that keeping the stored name always passes. */
  lemma UpdateGuardMeaning(sources: map<Uuid, AppSource>, id: Uuid, details: AppSourceDetails)
    ensures UpdateGuard(sources, id, details) == Err(InvalidRecordUpdateRequest) <==> id != details.id
    ensures UpdateGuard(sources, id, details) == Err(RecordNotFound) <==> id == details.id && id !in sources
    ensures UpdateGuard(sources, id, details).Ok? <==>
              id == details.id && id in sources
              && (sources[id].name == Trim(details.name)
                  || forall s :: s in sources ==> !EqualsIgnoreCase(sources[s].name, Trim(details.name)))
    ensures UpdateGuard(sources, id, details).Ok? ==> UpdateGuard(sources, id, details).value == sources[id]
  {
  }

  /** Changing only the case of an app source's own name counts as a clash with itself. */
  lemma CaseOnlyRenameRefused()
    ensures var sources := map[1 := AppSource("Foo", [], [], {})];
            UpdateGuard(sources, 1, AppSourceDetails(1, "FOO", [], [], [])) == Err(ResourceAlreadyExists)
  {
    var sources := map[1 := AppSource("Foo", [], [], {})];
    LowerCons('F', "oo");
    LowerCons('o', "o");
    LowerCons('O', "O");
    LowerCons('F', "OO");
    assert Trim("FOO") == "FOO";
    assert EqualsIgnoreCase(sources[1].name, "FOO");
  }

  /** `findAppEndpoint`: the first endpoint with the id, not found when there is none. */
  function FindAppEndpoint(endpointId: Uuid, endpoints: seq<Endpoint>): (r: Result<Endpoint, Failure>)
    ensures r.Err? <==> forall i :: 0 <= i < |endpoints| ==> endpoints[i].id != endpointId
    ensures r.Err? ==> r.error == RecordNotFound
    ensures r.Ok? ==> r.value in endpoints && r.value.id == endpointId
  {
    if endpoints == [] then Err(RecordNotFound)
    else if endpoints[0].id == endpointId then Ok(endpoints[0])
    else
      assert forall i :: 1 <= i < |endpoints| ==> endpoints[i] == endpoints[1..][i - 1];
      FindAppEndpoint(endpointId, endpoints[1..])
  }

  /** The client privilege refers to a stored client and, if to an endpoint, to one of the request's endpoints. */
  predicate Resolvable(p: ClientPrivilege, endpoints: seq<Endpoint>, clientIds: set<Uuid>)
  {
    p.appClientId in clientIds && (p.endpointId.Some? ==> FindAppEndpoint(p.endpointId.value, endpoints).Ok?)
  }

  /**
   * The client privileges `saveAppSource` builds: not found as soon as a
   * client is unknown or an endpoint is not among the request's endpoints,
   * otherwise the privileges as requested.
   */
  function ResolvePrivileges(privileges: seq<ClientPrivilege>, endpoints: seq<Endpoint>, clientIds: set<Uuid>): (r: Result<seq<ClientPrivilege>, Failure>)
    ensures r.Err? <==> exists i :: 0 <= i < |privileges| && !Resolvable(privileges[i], endpoints, clientIds)
    ensures r.Err? ==> r.error == RecordNotFound
    ensures r.Ok? ==> r.value == privileges
  {
    if privileges == [] then Ok([])
    else if !Resolvable(privileges[0], endpoints, clientIds) then Err(RecordNotFound)
    else
      var rest := ResolvePrivileges(privileges[1..], endpoints, clientIds);
      assert forall i :: 1 <= i < |privileges| ==> privileges[i] == privileges[1..][i - 1];
      if rest.Err? then
        var k :| 0 <= k < |privileges[1..]| && !Resolvable(privileges[1..][k], endpoints, clientIds);
        assert !Resolvable(privileges[k + 1], endpoints, clientIds);
        rest
      else
        assert privileges == [privileges[0]] + privileges[1..];
        Ok([privileges[0]] + rest.value)
  }

  // ---------------------------------------------------------------------
  // The service over its tables
  // ---------------------------------------------------------------------

  /** The app source service over the app source, dashboard user, privilege and client tables. */
  class AppSourceService {
    var sources: map<Uuid, AppSource>
    var users: map<Uuid, DashboardUser>
    var privilegeNames: set<string>
    var clientIds: set<Uuid>

    ghost predicate Valid()
      reads this
    {
      Linked(Directory(sources, users)) && EmailsUnique(users)
    }

    constructor(privilegeNames: set<string>, clientIds: set<Uuid>)
      ensures Valid()
      ensures sources == map[] && users == map[]
      ensures this.privilegeNames == privilegeNames && this.clientIds == clientIds
    {
      this.sources := map[];
      this.users := map[];
      this.privilegeNames := privilegeNames;
      this.clientIds := clientIds;
    }

    /** `userIsAdminForAppSource`: the scan over the administrators and their privileges. */
    method UserIsAdminForAppSource(appId: Uuid, email: string) returns (r: Result<bool, Failure>)
      requires Valid()
      ensures r == IsAdmin(Directory(sources, users), appId, email)
    {
      if appId !in sources {
        return Err(RecordNotFound);
      }
      var admins := sources[appId].admins;
      var todo := admins;
      ghost var done: set<Uuid> := {};
      while todo != {}
        invariant todo <= admins && done == admins - todo
        invariant forall u :: u in done ==> !AdminWithEmail(users, u, email)
        decreases todo
      {
        var u :| u in todo;
        if EqualsIgnoreCase(users[u].email, email) {
          var holds := HoldsAdminPrivilege(users[u].privileges);
          if holds {
            return Ok(true);
          }
        }
        todo := todo - {u};
        done := done + {u};
      }
      r := Ok(false);
    }

    /**
     * `deleteAdminsFromAppSource`: each administrator of the snapshot that is
     * selected leaves the app source and is kept, deleted or stripped.
     */
    method DeleteAdminsFromAppSource(appId: Uuid, email: string, deleteAll: bool)
      requires Valid() && appId in sources
      modifies this
      ensures Valid()
      ensures Directory(sources, users) == AdminsRemoved(old(Directory(sources, users)), appId, email, deleteAll)
      ensures privilegeNames == old(privilegeNames) && clientIds == old(clientIds)
    {
      ghost var d0 := Directory(sources, users);
      ghost var gone := Removed(d0, appId, email, deleteAll);
      AdminsRemovedStaysLinked(d0, appId, email, deleteAll);
      AdminsRemovedKeepsEmailsUnique(d0, appId, email, deleteAll);
      var snapshot := sources[appId].admins;
      ghost var done: set<Uuid> := {};
      var todo := snapshot;
      assert gone * done == {};
      assert UsersAfter(d0, appId, {}) == users;
      assert sources[appId].admins - {} == sources[appId].admins;
      assert sources[appId := sources[appId].(admins := sources[appId].admins - {})] == sources;
      while todo != {}
        invariant todo <= snapshot && done == snapshot - todo
        invariant sources == RemovedFrom(d0, appId, gone * done).sources
        invariant users == UsersAfter(d0, appId, gone * done)
        invariant privilegeNames == old(privilegeNames) && clientIds == old(clientIds)
        decreases todo
      {
        var u :| u in todo;
        assert u in d0.users && u !in gone * done;
        assert users[u] == d0.users[u];
        if deleteAll || EqualsIgnoreCase(users[u].email, email) {
          assert u in gone;
          assert gone * (done + {u}) == gone * done + {u};
          DropAdmin(d0, appId, gone * done, u);
        } else {
          assert u !in gone;
          assert gone * (done + {u}) == gone * done;
        }
        todo := todo - {u};
        done := done + {u};
      }
      assert gone * done == gone;
    }

    /** One selected administrator leaves the app source and meets its fate. */
    method DropAdmin(ghost d0: Directory, appId: Uuid, ghost removed: set<Uuid>, u: Uuid)
      requires appId in d0.sources && u in d0.sources[appId].admins && u in d0.users && u !in removed
      requires sources == RemovedFrom(d0, appId, removed).sources && users == UsersAfter(d0, appId, removed)
      modifies this
      ensures sources == RemovedFrom(d0, appId, removed + {u}).sources && users == UsersAfter(d0, appId, removed + {u})
      ensures privilegeNames == old(privilegeNames) && clientIds == old(clientIds)
    {
      LeaveSource(d0, appId, removed, u);
      MeetFate(d0, appId, removed, u);
    }

    /** The administrator leaves the app source's list. */
    method LeaveSource(ghost d0: Directory, appId: Uuid, ghost removed: set<Uuid>, u: Uuid)
      requires appId in d0.sources && sources == RemovedFrom(d0, appId, removed).sources
      modifies this
      ensures sources == RemovedFrom(d0, appId, removed + {u}).sources
      ensures users == old(users) && privilegeNames == old(privilegeNames) && clientIds == old(clientIds)
    {
      assert d0.sources[appId].admins - (removed + {u}) == sources[appId].admins - {u};
      sources := sources[appId := sources[appId].(admins := sources[appId].admins - {u})];
    }

    /** The administrator, no longer listed by the app source, is kept, stripped or deleted. */
    method MeetFate(ghost d0: Directory, appId: Uuid, ghost removed: set<Uuid>, u: Uuid)
      requires appId in d0.sources && u in d0.users && u !in removed
      requires sources == RemovedFrom(d0, appId, removed + {u}).sources && users == UsersAfter(d0, appId, removed)
      modifies this
      ensures users == UsersAfter(d0, appId, removed + {u})
      ensures sources == old(sources) && privilegeNames == old(privilegeNames) && clientIds == old(clientIds)
    {
      UsersAfterStep(d0, appId, removed, u);
      assert forall s :: s != appId ==> (s in sources <==> s in d0.sources) && (s in sources ==> sources[s] == d0.sources[s]);
      var others := exists s :: s in sources && s != appId && u in sources[s].admins;
      assert others == AdministersOther(d0.sources, appId, u);
      assert users[u] == d0.users[u];
      var hasOther := PrivSetHasPrivsOtherThanAppSource(users[u].privileges);
      if others {
        assert FateOf(d0, appId, u) == Kept;
      } else if hasOther {
        assert FateOf(d0, appId, u) == Stripped;
        users := users[u := Strip(users[u])];
      } else {
        assert FateOf(d0, appId, u) == Deleted;
        users := users - {u};
      }
    }

    /** `addAppSourceAdmin`, making the user first when no user has the email. */
    method AddAppSourceAdmin(appId: Uuid, email: string, newId: Uuid) returns (r: Result<(), Failure>)
      requires Valid() && newId !in users
      modifies this
      ensures Valid()
      ensures var added := AdminAdded(old(Directory(sources, users)), privilegeNames, appId, email, newId);
              if added.Ok? then r.Ok? && Directory(sources, users) == added.value
              else r == Err(added.error) && Directory(sources, users) == old(Directory(sources, users))
      ensures privilegeNames == old(privilegeNames) && clientIds == old(clientIds)
    {
      var added := AdminAdded(Directory(sources, users), privilegeNames, appId, email, newId);
      if added.Err? {
        return Err(added.error);
      }
      AdminAddedKeepsInvariants(Directory(sources, users), privilegeNames, appId, email, newId);
      sources, users := added.value.sources, added.value.users;
      r := Ok(());
    }

    /** `removeAdminFromAppSource`: not found for an unknown app source, else removal by email. */
    method RemoveAdminFromAppSource(appId: Uuid, email: string) returns (r: Result<(), Failure>)
      requires Valid()
      modifies this
      ensures Valid()
      ensures appId !in old(sources) ==> r == Err(RecordNotFound) && sources == old(sources) && users == old(users)
      ensures appId in old(sources) ==>
                r.Ok? && Directory(sources, users) == AdminsRemoved(old(Directory(sources, users)), appId, email, false)
      ensures privilegeNames == old(privilegeNames) && clientIds == old(clientIds)
    {
      if appId !in sources {
        return Err(RecordNotFound);
      }
      DeleteAdminsFromAppSource(appId, email, false);
      r := Ok(());
    }

    /** `deleteAppSource`: not found for an unknown app source; otherwise every administrator is removed, then the app source. */
    method DeleteAppSource(appId: Uuid) returns (r: Result<(), Failure>)
      requires Valid()
      modifies this
      ensures Valid()
      ensures appId !in old(sources) ==> r == Err(RecordNotFound) && sources == old(sources) && users == old(users)
      ensures appId in old(sources) ==>
                var cleared := AdminsRemoved(old(Directory(sources, users)), appId, "", true);
                r.Ok? && sources == cleared.sources - {appId} && users == cleared.users
      ensures privilegeNames == old(privilegeNames) && clientIds == old(clientIds)
    {
      if appId !in sources {
        return Err(RecordNotFound);
      }
      DeleteAdminsFromAppSource(appId, "", true);
      AdminsRemovedMeaning(old(Directory(sources, users)), appId, "", true);
      sources := sources - {appId};
      r := Ok(());
    }
  }
}
