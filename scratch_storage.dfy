/**
 * Scratch storage: a key/value table per registered application, the
 * application-level privileges SCRATCH_READ, SCRATCH_WRITE and SCRATCH_ADMIN
 * (plus the application's implicit-read switch), and, for applications in ACL
 * mode, a per-key access control list stored as JSON under the key "<key>_acl"
 * that grants KEY_READ, KEY_WRITE or KEY_ADMIN to e-mail addresses.
 *
 * The repositories become the fields of `ScratchStore`; the Jackson parser is
 * the `parse` oracle; random UUIDs are parameters.
 */
module ScratchStorage {
  import opened Wrappers
  import opened Text
  import opened Json

  type Uuid = nat

  const ScratchWrite := "SCRATCH_WRITE"
  const ScratchRead := "SCRATCH_READ"
  const ScratchAdmin := "SCRATCH_ADMIN"
  const AclSuffix := "_acl"
  const AccessField := "access"
  const ImplicitReadField := "implicitRead"
  const KeyWrite := "KEY_WRITE"
  const KeyRead := "KEY_READ"
  const KeyAdmin := "KEY_ADMIN"

  datatype User = User(id: Uuid, email: string)

  /** An (application, user, privilege) triple; `privilegeName` is the privilege row's name. */
  datatype UserPriv = UserPriv(id: Uuid, user: User, privilegeId: Uuid, privilegeName: string)

  datatype App = App(id: Uuid, appName: string, aclMode: bool, implicitRead: bool, userPrivs: set<UserPriv>)

  /** The request bodies; an absent id is `None`. */
  datatype AppRequest = AppRequest(id: Option<Uuid>, appName: string, aclMode: bool, implicitRead: bool)
  datatype UserRequest = UserRequest(id: Option<Uuid>, email: string)
  datatype PrivRequest = PrivRequest(id: Uuid, email: string, privilegeId: Uuid)

  // ---------------------------------------------------------------------------
  // Application-level privileges

  /** Some pair of `privs` belongs to `email` (ignoring case) and names one of `names`. */
  predicate HoldsPrivilege(privs: set<UserPriv>, email: string, names: set<string>)
  {
    exists p :: p in privs && EqualsIgnoreCase(p.user.email, email) && p.privilegeName in names
  }

  /** The scan over an application's user privileges that the `userCan*` checks share. */
  method FindPrivilege(privs: set<UserPriv>, email: string, names: set<string>) returns (found: bool)
    ensures found == HoldsPrivilege(privs, email, names)
  {
    var todo := privs;
    while todo != {}
      invariant todo <= privs
      invariant forall p :: p in privs && p !in todo ==> !(EqualsIgnoreCase(p.user.email, email) && p.privilegeName in names)
      decreases |todo|
    {
      var p :| p in todo;
      if EqualsIgnoreCase(p.user.email, email) && p.privilegeName in names {
        return true;
      }
      todo := todo - {p};
    }
    return false;
  }

  // ---------------------------------------------------------------------------
  // Per-key access control lists

  /** The part of a key before its first '_'. */
  function BaseKey(key: string): (r: string)
    ensures StartsWith(key, r) && '_' !in r
  {
    if key == [] || key[0] == '_' then [] else [key[0]] + BaseKey(key[1..])
  }

  /** `access.get(email).textValue()`, `None` where Java has `null`. */
  function TextOf(access: Json, email: string): Option<string>
  {
    match Get(access, email)
    case None => None
    case Some(v) => TextValue(v)
  }

  /**
   * The role test of `aclLookup` as written: presence is tested for the
   * lower-cased e-mail but the role is read for the e-mail as given, so a
   * mixed-case e-mail listed in lower case dereferences `null`.
   */
  function RoleInAsWritten(access: Json, email: string, roles: set<string>): Result<bool, Failure>
  {
    if !Has(access, Lower(email)) then Ok(false)
    else match TextOf(access, email)
      case None => Err(NullReference)
      case Some(t) => Ok(t in roles)
  }

  /** The role test with the lower-cased e-mail used for both the test and the read. */
  function RoleIn(access: Json, email: string, roles: set<string>): Result<bool, Failure>
  {
    if !Has(access, Lower(email)) then Ok(false)
    else match TextOf(access, Lower(email))
      case None => Err(NullReference)
      case Some(t) => Ok(t in roles)
  }

  /**
   * The part of `aclLookup` after the SCRATCH_ADMIN bypass: `acl` is the parsed
   * value of "<keyName>_acl" (`None` when it does not parse).
   */
  function AclVerdict(acl: Option<Json>, email: string, keyName: string, desiredRole: string): Result<bool, Failure>
  {
    match acl
    case None => Err(InvalidFieldValue)
    case Some(nodes) =>
      if !Has(nodes, ImplicitReadField) || !Get(nodes, ImplicitReadField).value.JBool? then Err(InvalidFieldValue)
      else if !Has(nodes, AccessField) || !Get(nodes, AccessField).value.JObject? then Err(InvalidFieldValue)
      else
        var access := Get(nodes, AccessField).value;
        var implicitRead := Get(nodes, ImplicitReadField).value.b;
        if EndsWith(keyName, AclSuffix) && TextOf(access, email).None? then Err(NullReference)
        else if EndsWith(keyName, AclSuffix) && TextOf(access, email).value != "ADMIN" then Ok(false)
        else if desiredRole == KeyRead then
          (if implicitRead then Ok(true) else RoleIn(access, email, {KeyRead, KeyWrite, KeyAdmin}))
        else if desiredRole == KeyWrite then RoleIn(access, email, {KeyWrite, KeyAdmin})
        else if desiredRole == KeyAdmin then RoleIn(access, email, {KeyAdmin})
        else Err(InvalidFieldValue)
  }

  // ---------------------------------------------------------------------------
  // The decisions, as functions of the stored state

  function AdminOutcome(apps: map<Uuid, App>, appId: Uuid, email: string): Result<bool, Failure>
  {
    if appId !in apps then Err(RecordNotFound)
    else Ok(HoldsPrivilege(apps[appId].userPrivs, email, {ScratchAdmin}))
  }

  function AclOutcome(apps: map<Uuid, App>, entries: map<(Uuid, string), string>, parse: string -> Option<Json>,
                      app: App, email: string, keyName: string, desiredRole: string): Result<bool, Failure>
  {
    if !app.aclMode then Err(InvalidScratchSpacePermissions)
    else match AdminOutcome(apps, app.id, email)
      case Err(e) => Err(e)
      case Ok(isAdmin) =>
        if isAdmin then Ok(true)
        else if (app.id, keyName + AclSuffix) !in entries then Err(RecordNotFound)
        else AclVerdict(parse(entries[(app.id, keyName + AclSuffix)]), email, keyName, desiredRole)
  }

  function WriteOutcome(apps: map<Uuid, App>, entries: map<(Uuid, string), string>, parse: string -> Option<Json>,
                        appId: Uuid, email: string, keyName: string): Result<bool, Failure>
  {
    if appId !in apps then Err(RecordNotFound)
    else if apps[appId].aclMode then
      if EndsWith(keyName, AclSuffix) then AclOutcome(apps, entries, parse, apps[appId], email, BaseKey(keyName), KeyAdmin)
      else AclOutcome(apps, entries, parse, apps[appId], email, keyName, KeyWrite)
    else Ok(HoldsPrivilege(apps[appId].userPrivs, email, {ScratchWrite, ScratchAdmin}))
  }

  function ReadOutcome(apps: map<Uuid, App>, entries: map<(Uuid, string), string>, parse: string -> Option<Json>,
                       appId: Uuid, email: string, keyName: string): Result<bool, Failure>
  {
    if appId !in apps then Err(RecordNotFound)
    else if apps[appId].aclMode then
      if EndsWith(keyName, AclSuffix) then AclOutcome(apps, entries, parse, apps[appId], email, BaseKey(keyName), KeyAdmin)
      else AclOutcome(apps, entries, parse, apps[appId], email, keyName, KeyRead)
    else if apps[appId].implicitRead then Ok(true)
    else Ok(HoldsPrivilege(apps[appId].userPrivs, email, {ScratchRead, ScratchWrite, ScratchAdmin}))
  }

  function DeleteOutcome(apps: map<Uuid, App>, entries: map<(Uuid, string), string>, parse: string -> Option<Json>,
                         appId: Uuid, email: string, keyName: string): Result<bool, Failure>
  {
    if appId !in apps then Err(RecordNotFound)
    else if apps[appId].aclMode then AclOutcome(apps, entries, parse, apps[appId], email, keyName, KeyAdmin)
    else Ok(HoldsPrivilege(apps[appId].userPrivs, email, {ScratchAdmin}))
  }

  // ---------------------------------------------------------------------------
  // Properties of the decisions

  /** ACL roles are ordered: KEY_ADMIN grants KEY_WRITE, which grants KEY_READ. */
  lemma AclRolesOrdered(acl: Option<Json>, email: string, keyName: string)
    ensures AclVerdict(acl, email, keyName, KeyAdmin) == Ok(true) ==> AclVerdict(acl, email, keyName, KeyWrite) == Ok(true)
    ensures AclVerdict(acl, email, keyName, KeyWrite) == Ok(true) ==> AclVerdict(acl, email, keyName, KeyRead) == Ok(true)
  {
  }

  /**
   * Against a well-formed ACL of an ordinary key, a role other than the three
   * KEY_ roles is an error, and KEY_READ is granted to everyone when the ACL's
   * implicit read is on.
   */
  lemma AclRoleCases(nodes: Json, email: string, keyName: string, desiredRole: string)
    requires Has(nodes, ImplicitReadField) && Get(nodes, ImplicitReadField).value.JBool?
    requires Has(nodes, AccessField) && Get(nodes, AccessField).value.JObject?
    requires !EndsWith(keyName, AclSuffix)
    ensures desiredRole !in {KeyRead, KeyWrite, KeyAdmin} ==> AclVerdict(Some(nodes), email, keyName, desiredRole) == Err(InvalidFieldValue)
    ensures Get(nodes, ImplicitReadField).value.b ==> AclVerdict(Some(nodes), email, keyName, KeyRead) == Ok(true)
  {
  }

  /** The ACL decision lifts the role order to the stored state. */
  lemma AclOutcomeOrdered(apps: map<Uuid, App>, entries: map<(Uuid, string), string>, parse: string -> Option<Json>,
                          app: App, email: string, keyName: string)
    ensures AclOutcome(apps, entries, parse, app, email, keyName, KeyAdmin) == Ok(true)
            ==> AclOutcome(apps, entries, parse, app, email, keyName, KeyWrite) == Ok(true)
    ensures AclOutcome(apps, entries, parse, app, email, keyName, KeyWrite) == Ok(true)
            ==> AclOutcome(apps, entries, parse, app, email, keyName, KeyRead) == Ok(true)
  {
    if app.aclMode && AdminOutcome(apps, app.id, email) == Ok(false) && (app.id, keyName + AclSuffix) in entries {
      AclRolesOrdered(parse(entries[(app.id, keyName + AclSuffix)]), email, keyName);
    }
  }

  /**
   * Without ACL mode the application privileges are ordered: whoever may
   * delete may write, and whoever may write may read.
   */
  lemma AppPrivilegesOrdered(apps: map<Uuid, App>, entries: map<(Uuid, string), string>, parse: string -> Option<Json>,
                             appId: Uuid, email: string, keyName: string)
    requires appId in apps && !apps[appId].aclMode
    ensures DeleteOutcome(apps, entries, parse, appId, email, keyName) == Ok(true)
            ==> WriteOutcome(apps, entries, parse, appId, email, keyName) == Ok(true)
    ensures WriteOutcome(apps, entries, parse, appId, email, keyName) == Ok(true)
            ==> ReadOutcome(apps, entries, parse, appId, email, keyName) == Ok(true)
  {
    var privs := apps[appId].userPrivs;
    if HoldsPrivilege(privs, email, {ScratchAdmin}) {
      var p :| p in privs && EqualsIgnoreCase(p.user.email, email) && p.privilegeName in {ScratchAdmin};
      assert p.privilegeName in {ScratchWrite, ScratchAdmin};
    }
    if HoldsPrivilege(privs, email, {ScratchWrite, ScratchAdmin}) {
      var p :| p in privs && EqualsIgnoreCase(p.user.email, email) && p.privilegeName in {ScratchWrite, ScratchAdmin};
      assert p.privilegeName in {ScratchRead, ScratchWrite, ScratchAdmin};
    }
  }

  /** A SCRATCH_ADMIN may read, write and delete every key of the application, in either mode. */
  lemma ScratchAdminMayDoAnything(apps: map<Uuid, App>, entries: map<(Uuid, string), string>, parse: string -> Option<Json>,
                                  appId: Uuid, email: string, keyName: string)
    requires appId in apps && apps[appId].id == appId
    requires HoldsPrivilege(apps[appId].userPrivs, email, {ScratchAdmin})
    ensures ReadOutcome(apps, entries, parse, appId, email, keyName) == Ok(true)
    ensures WriteOutcome(apps, entries, parse, appId, email, keyName) == Ok(true)
    ensures DeleteOutcome(apps, entries, parse, appId, email, keyName) == Ok(true)
  {
    AdminImpliesLowerPrivileges(apps[appId].userPrivs, email);
  }

  /** Holding SCRATCH_ADMIN implies holding one of the write and one of the read privileges. */
  lemma AdminImpliesLowerPrivileges(privs: set<UserPriv>, email: string)
    requires HoldsPrivilege(privs, email, {ScratchAdmin})
    ensures HoldsPrivilege(privs, email, {ScratchWrite, ScratchAdmin})
    ensures HoldsPrivilege(privs, email, {ScratchRead, ScratchWrite, ScratchAdmin})
  {
    var p :| p in privs && EqualsIgnoreCase(p.user.email, email) && p.privilegeName in {ScratchAdmin};
    assert p.privilegeName in {ScratchWrite, ScratchAdmin};
    assert p.privilegeName in {ScratchRead, ScratchWrite, ScratchAdmin};
  }

  /**
   * In ACL mode an ACL key "<base>_<...>_acl" is read and written under the
   * same rule: KEY_ADMIN on its base key, the part before the first '_'; a
   * deletion always asks for KEY_ADMIN on the key itself.
   */
  lemma AclKeysNeedBaseAdmin(apps: map<Uuid, App>, entries: map<(Uuid, string), string>, parse: string -> Option<Json>,
                             appId: Uuid, email: string, keyName: string)
    requires appId in apps && apps[appId].aclMode
    ensures EndsWith(keyName, AclSuffix) ==>
              ReadOutcome(apps, entries, parse, appId, email, keyName) == WriteOutcome(apps, entries, parse, appId, email, keyName)
              == AclOutcome(apps, entries, parse, apps[appId], email, BaseKey(keyName), KeyAdmin)
    ensures DeleteOutcome(apps, entries, parse, appId, email, keyName)
            == AclOutcome(apps, entries, parse, apps[appId], email, keyName, KeyAdmin)
  {
  }

  /** Every e-mail address that differs only in case gets the same answer from the corrected role test. */
  lemma RoleInIgnoresCase(access: Json, email: string, other: string, roles: set<string>)
    requires Lower(email) == Lower(other)
    ensures RoleIn(access, email, roles) == RoleIn(access, other, roles)
  {
  }

  /**
   * As written, an ACL listing "a" as KEY_ADMIN makes the lookup for "A"
   * dereference `null`, where the corrected test grants the role.
   */
  lemma MixedCaseEmailBreaksAclLookup()
    ensures RoleInAsWritten(JObject([("a", JText(KeyAdmin))]), "A", {KeyAdmin}) == Err(NullReference)
    ensures RoleIn(JObject([("a", JText(KeyAdmin))]), "A", {KeyAdmin}) == Ok(true)
  {
    var access := JObject([("a", JText(KeyAdmin))]);
    assert Lower("A") == "a";
    assert access.fields[0].0 == "a";
    assert Has(access, Lower("A"));
    assert Get(access, "A") == None;
  }

  // ---------------------------------------------------------------------------
  // Java `split("_")[0]` on an ACL key

  /** Splitting a string that holds a character other than `sep` leaves a non-empty piece. */
  lemma {:induction false} SplitHasNonEmptyPiece(s: string, sep: char, k: nat)
    requires k < |s| && s[k] != sep
    ensures exists j :: 0 <= j < |SplitChar(s, sep)| && SplitChar(s, sep)[j] != []
  {
    var parts := SplitChar(s, sep);
    if s[0] != sep {
      assert parts[0] != [];
    } else {
      SplitHasNonEmptyPiece(s[1..], sep, k - 1);
      var j :| 0 <= j < |SplitChar(s[1..], sep)| && SplitChar(s[1..], sep)[j] != [];
      assert parts[j + 1] == SplitChar(s[1..], sep)[j];
    }
  }

  /** Dropping trailing empty pieces keeps every piece up to the last non-empty one. */
  lemma {:induction false} DropTrailingEmptyKeeps(parts: seq<string>, j: nat)
    requires j < |parts| && parts[j] != []
    ensures j < |DropTrailingEmpty(parts)|
  {
    if parts[|parts| - 1] == [] {
      DropTrailingEmptyKeeps(parts[..|parts| - 1], j);
    }
  }

  /** The first piece of splitting at '_' is the part before the first '_'. */
  lemma {:induction false} FirstPieceIsBaseKey(s: string)
    ensures SplitChar(s, '_')[0] == BaseKey(s)
  {
    if s != [] && s[0] != '_' {
      FirstPieceIsBaseKey(s[1..]);
    }
  }

  /** For a key ending in "_acl", `split("_")` has a first piece and it is the base key. */
  lemma AclKeySplit(key: string)
    requires EndsWith(key, AclSuffix)
    ensures |JavaSplit(key, '_')| > 0 && JavaSplit(key, '_')[0] == BaseKey(key)
  {
    assert key[|key| - 1] == 'l';
    SplitHasNonEmptyPiece(key, '_', |key| - 1);
    var j :| 0 <= j < |SplitChar(key, '_')| && SplitChar(key, '_')[j] != [];
    DropTrailingEmptyKeeps(SplitChar(key, '_'), j);
    FirstPieceIsBaseKey(key);
  }

  // ---------------------------------------------------------------------------
  // The stored state and the service operations

  /** The privilege pairs that `addUserPrivToApp` overwrites: same e-mail, same pair id. */
  predicate Replaces(p: UserPriv, req: PrivRequest)
  {
    EqualsIgnoreCase(p.user.email, req.email) && p.id == req.id
  }

  /** The pairs that make `addUserPrivToApp` a duplicate: same privilege, same e-mail. */
  predicate Conflicts(p: UserPriv, req: PrivRequest)
  {
    p.privilegeId == req.privilegeId && EqualsIgnoreCase(p.user.email, req.email)
  }

  function KeptPrivs(privs: set<UserPriv>, req: PrivRequest): set<UserPriv>
  {
    set p | p in privs && !Replaces(p, req)
  }

  /**
   * After `addUserPrivToApp` the pair with the request's id and e-mail is there
   * exactly once: every older one was removed before the new one was added.
   */
  lemma ReplacedPairIsUnique(privs: set<UserPriv>, req: PrivRequest, e: UserPriv, p: UserPriv)
    requires p in KeptPrivs(privs, req) + {e} && Replaces(p, req)
    ensures p == e
  {
  }

  function WithoutUser(privs: set<UserPriv>, userId: Uuid): set<UserPriv>
  {
    set p | p in privs && p.user.id != userId
  }

  /** Every application is stored under its own id. */
  predicate AppsKeyed(apps: map<Uuid, App>)
  {
    forall a :: a in apps ==> apps[a].id == a
  }

  /** Every user is stored under its own id, and no two share an e-mail address. */
  predicate UsersKeyed(users: map<Uuid, User>)
  {
    (forall u :: u in users ==> users[u].id == u) && UniqueEmails(users)
  }

  lemma UsersKeyedWithout(users: map<Uuid, User>, id: Uuid)
    requires UsersKeyed(users)
    ensures UsersKeyed(users - {id})
  {
  }

  /** An application without the privilege pairs of one user. */
  function StripUser(app: App, userId: Uuid): App
  {
    app.(userPrivs := WithoutUser(app.userPrivs, userId))
  }

  /** No two users share an e-mail address, ignoring case. */
  predicate UniqueEmails(users: map<Uuid, User>)
  {
    forall u, v :: u in users && v in users && u != v ==> !EqualsIgnoreCase(users[u].email, users[v].email)
  }

  predicate EmailTaken(users: map<Uuid, User>, email: string)
  {
    exists u :: u in users && EqualsIgnoreCase(users[u].email, email)
  }

  predicate AppNameTaken(apps: map<Uuid, App>, name: string)
  {
    exists a :: a in apps && EqualsIgnoreCase(apps[a].appName, name)
  }

  class ScratchStore {
    /** The application registry, by id. */
    var apps: map<Uuid, App>
    /** The key/value pairs, by (application id, key). */
    var entries: map<(Uuid, string), string>
    /** The scratch users, by id. */
    var users: map<Uuid, User>
    /** The privilege table: id to name. */
    var privileges: map<Uuid, string>
    /** The JSON parser; `None` when the text does not parse. */
    const parse: string -> Option<Json>

    predicate Valid()
      reads this
    {
      AppsKeyed(apps) && UsersKeyed(users)
    }

    constructor (privileges: map<Uuid, string>, parse: string -> Option<Json>)
      ensures Valid() && apps == map[] && entries == map[] && users == map[]
      ensures this.privileges == privileges && this.parse == parse
    {
      apps := map[];
      entries := map[];
      users := map[];
      this.privileges := privileges;
      this.parse := parse;
    }

    /** `setKeyValuePair`: replaces the value of an existing key or adds exactly one pair. */
    method SetKeyValuePair(appId: Uuid, key: string, value: string) returns (r: Result<(), Failure>)
      modifies this
      ensures apps == old(apps) && users == old(users) && privileges == old(privileges)
      ensures appId !in old(apps) ==> r == Err(RecordNotFound) && entries == old(entries)
      ensures appId in old(apps) ==> r == Ok(()) && entries == old(entries)[(appId, key) := value]
      ensures appId in old(apps) ==> |entries| == |old(entries)| + (if (appId, key) in old(entries) then 0 else 1)
    {
      if appId !in apps {
        return Err(RecordNotFound);
      }
      entries := entries[(appId, key) := value];
      r := Ok(());
    }

    /**
     * `deleteKeyValuePair`: in ACL mode the key's ACL goes first (even when the
     * key itself turns out to be missing); a missing key is not found.
     */
    method DeleteKeyValuePair(appId: Uuid, key: string) returns (r: Result<string, Failure>)
      modifies this
      ensures apps == old(apps) && users == old(users) && privileges == old(privileges)
      ensures appId !in old(apps) ==> r == Err(RecordNotFound) && entries == old(entries)
      ensures appId in old(apps) ==>
                var cleared := if old(apps)[appId].aclMode then old(entries) - {(appId, key + AclSuffix)} else old(entries);
                if (appId, key) in old(entries) then r == Ok(old(entries)[(appId, key)]) && entries == cleared - {(appId, key)}
                else r == Err(RecordNotFound) && entries == cleared
      ensures r.Ok? ==> (appId, key) !in entries && (old(apps)[appId].aclMode ==> (appId, key + AclSuffix) !in entries)
    {
      if appId !in apps {
        return Err(RecordNotFound);
      }
      if apps[appId].aclMode {
        assert key + AclSuffix != key by { assert |key + AclSuffix| != |key|; }
        entries := entries - {(appId, key + AclSuffix)};
      }
      if (appId, key) !in entries {
        return Err(RecordNotFound);
      }
      r := Ok(entries[(appId, key)]);
      entries := entries - {(appId, key)};
    }

    /**
     * `addNewScratchAppName`: refused when the id is taken or when a stored name
     * equals the trimmed new name ignoring case; the name is stored untrimmed.
     */
    method AddNewScratchAppName(req: AppRequest, freshId: Uuid) returns (r: Result<App, Failure>)
      requires Valid()
      modifies this
      ensures Valid()
      ensures entries == old(entries) && users == old(users) && privileges == old(privileges)
      ensures r.Err? <==> req.id.UnwrapOr(freshId) in old(apps) || AppNameTaken(old(apps), Trim(req.appName))
      ensures r.Err? ==> r.error == ResourceAlreadyExists && apps == old(apps)
      ensures r.Ok? ==> r.value == App(req.id.UnwrapOr(freshId), req.appName, req.aclMode, req.implicitRead, {})
                        && apps == old(apps)[r.value.id := r.value]
    {
      var id := req.id.UnwrapOr(freshId);
      var taken := AppNameTaken(apps, Trim(req.appName));
      if id in apps || taken {
        return Err(ResourceAlreadyExists);
      }
      var app := App(id, req.appName, req.aclMode, req.implicitRead, {});
      apps := apps[id := app];
      r := Ok(app);
    }

    /** `addNewScratchUser`: refused when the id or the e-mail (ignoring case) is taken. */
    method AddNewScratchUser(req: UserRequest, freshId: Uuid) returns (r: Result<User, Failure>)
      requires Valid()
      modifies this
      ensures Valid()
      ensures apps == old(apps) && entries == old(entries) && privileges == old(privileges)
      ensures r.Err? <==> req.id.UnwrapOr(freshId) in old(users) || EmailTaken(old(users), req.email)
      ensures r.Err? ==> r.error == ResourceAlreadyExists && users == old(users)
      ensures r.Ok? ==> r.value == User(req.id.UnwrapOr(freshId), req.email) && users == old(users)[r.value.id := r.value]
    {
      var id := req.id.UnwrapOr(freshId);
      var taken := EmailTaken(users, req.email);
      if id in users || taken {
        return Err(ResourceAlreadyExists);
      }
      var user := User(id, req.email);
      users := users[id := user];
      r := Ok(user);
    }

    /** `deleteScratchUser`: the user's privilege pairs leave every application, then the user goes. */
    method DeleteScratchUser(id: Uuid) returns (r: Result<User, Failure>)
      requires Valid()
      modifies this
      ensures Valid()
      ensures entries == old(entries) && privileges == old(privileges)
      ensures id !in old(users) ==> r == Err(RecordNotFound) && apps == old(apps) && users == old(users)
      ensures id in old(users) ==>
                r == Ok(old(users)[id]) && users == old(users) - {id}
                && apps.Keys == old(apps).Keys
                && forall a :: a in apps ==> apps[a] == StripUser(old(apps)[a], id)
    {
      if id !in users {
        return Err(RecordNotFound);
      }
      var user := users[id];
      var todo := apps.Keys;
      while todo != {}
        invariant todo <= apps.Keys && apps.Keys == old(apps).Keys
        invariant users == old(users) && entries == old(entries) && privileges == old(privileges)
        invariant forall a :: a in apps ==> apps[a] == if a in todo then old(apps)[a] else StripUser(old(apps)[a], id)
        decreases |todo|
      {
        var a :| a in todo;
        apps := apps[a := StripUser(apps[a], id)];
        todo := todo - {a};
      }
      UsersKeyedWithout(users, id);
      users := users - {id};
      r := Ok(user);
    }

    /**
     * The loop of `addUserPrivToApp` over the application's pairs: a pair with
     * the same privilege and e-mail is a duplicate; a pair with the same e-mail
     * and pair id is removed. The pairs are visited in an unspecified order, so
     * a duplicate may be found after some pairs were already removed.
     */
    method DropReplacedPrivs(appId: Uuid, req: PrivRequest) returns (r: Result<(), Failure>)
      requires Valid() && appId in apps
      modifies this
      ensures Valid() && users == old(users) && entries == old(entries) && privileges == old(privileges)
      ensures apps.Keys == old(apps).Keys && (forall a :: a in apps && a != appId ==> apps[a] == old(apps)[a])
      ensures apps[appId] == old(apps)[appId].(userPrivs := apps[appId].userPrivs)
      ensures r.Ok? <==> !exists p :: p in old(apps)[appId].userPrivs && Conflicts(p, req)
      ensures r.Ok? ==> apps[appId].userPrivs == KeptPrivs(old(apps)[appId].userPrivs, req)
      ensures r.Err? ==> r.error == ResourceAlreadyExists
                         && KeptPrivs(old(apps)[appId].userPrivs, req) <= apps[appId].userPrivs <= old(apps)[appId].userPrivs
    {
      var snapshot := apps[appId].userPrivs;
      var todo := snapshot;
      while todo != {}
        invariant todo <= snapshot && appId in apps && apps.Keys == old(apps).Keys
        invariant users == old(users) && entries == old(entries) && privileges == old(privileges) && AppsKeyed(apps)
        invariant forall a :: a in apps && a != appId ==> apps[a] == old(apps)[a]
        invariant apps[appId] == old(apps)[appId].(userPrivs := apps[appId].userPrivs)
        invariant apps[appId].userPrivs == (set p | p in snapshot && (p in todo || !Replaces(p, req)))
        invariant forall p :: p in snapshot && p !in todo ==> !Conflicts(p, req)
        decreases |todo|
      {
        var item :| item in todo;
        if Conflicts(item, req) {
          return Err(ResourceAlreadyExists);
        }
        if Replaces(item, req) {
          apps := apps[appId := apps[appId].(userPrivs := apps[appId].userPrivs - {item})];
        }
        todo := todo - {item};
      }
      r := Ok(());
    }

    /**
     * The user half of `mapUserPrivDtoToEntity`: the scratch user with this
     * e-mail (ignoring case), or a new one with id `freshId`.
     */
    method UserForEmail(email: string, freshId: Uuid) returns (r: Result<User, Failure>)
      requires Valid()
      modifies this
      ensures Valid() && apps == old(apps) && entries == old(entries) && privileges == old(privileges)
      ensures EmailTaken(old(users), email) ==> r.Ok? && users == old(users)
      ensures !EmailTaken(old(users), email) ==>
                if freshId in old(users) then r == Err(ResourceAlreadyExists) && users == old(users)
                else r == Ok(User(freshId, email)) && users == old(users)[freshId := r.value]
      ensures r.Ok? ==> r.value.id in users && users[r.value.id] == r.value && EqualsIgnoreCase(r.value.email, email)
    {
      if EmailTaken(users, email) {
        var u :| u in users && EqualsIgnoreCase(users[u].email, email);
        return Ok(users[u]);
      }
      r := AddNewScratchUser(UserRequest(Some(freshId), email), freshId);
    }

    /**
     * `addUserPrivToApp`: refuses a duplicate (privilege, e-mail) pair and
     * otherwise replaces the pairs with the same e-mail and pair id by the new
     * pair. An e-mail without a scratch user gets a new user with id
     * `freshUserId` first; an unknown privilege id is not found.
     */
    method AddUserPrivToApp(appId: Uuid, req: PrivRequest, freshUserId: Uuid) returns (r: Result<App, Failure>)
      requires Valid()
      modifies this
      ensures Valid()
      ensures entries == old(entries) && privileges == old(privileges)
      ensures appId !in old(apps) ==> r == Err(RecordNotFound) && apps == old(apps) && users == old(users)
      ensures appId in old(apps) ==>
                apps.Keys == old(apps).Keys && appId in apps
                && (forall a :: a in apps && a != appId ==> apps[a] == old(apps)[a])
                && apps[appId] == old(apps)[appId].(userPrivs := apps[appId].userPrivs)
                && KeptPrivs(old(apps)[appId].userPrivs, req) <= apps[appId].userPrivs
      ensures appId in old(apps) && (exists p :: p in old(apps)[appId].userPrivs && Conflicts(p, req)) ==>
                r == Err(ResourceAlreadyExists) && users == old(users)
                && apps[appId].userPrivs <= old(apps)[appId].userPrivs
      ensures r.Ok? ==>
                exists e: UserPriv :: e.id == req.id && e.privilegeId == req.privilegeId && req.privilegeId in privileges
                  && e.privilegeName == privileges[req.privilegeId] && e.user.id in users && users[e.user.id] == e.user
                  && EqualsIgnoreCase(e.user.email, req.email)
                  && apps[appId].userPrivs == KeptPrivs(old(apps)[appId].userPrivs, req) + {e}
                  && r.value == apps[appId]
    {
      if appId !in apps {
        return Err(RecordNotFound);
      }
      var dropped := DropReplacedPrivs(appId, req);
      if dropped.Err? {
        return Err(dropped.error);
      }
      var user := UserForEmail(req.email, freshUserId);
      if user.Err? {
        return Err(user.error);
      }
      if req.privilegeId !in privileges {
        return Err(RecordNotFound);
      }
      var entity := UserPriv(req.id, user.value, req.privilegeId, privileges[req.privilegeId]);
      apps := apps[appId := apps[appId].(userPrivs := apps[appId].userPrivs + {entity})];
      r := Ok(apps[appId]);
    }

    method UserHasAdminWithAppId(appId: Uuid, email: string) returns (r: Result<bool, Failure>)
      ensures r == AdminOutcome(apps, appId, email)
    {
      if appId !in apps {
        return Err(RecordNotFound);
      }
      var found := FindPrivilege(apps[appId].userPrivs, email, {ScratchAdmin});
      r := Ok(found);
    }

    /** `aclLookup`: a SCRATCH_ADMIN passes at once; otherwise the key's ACL decides. */
    method AclLookup(app: App, email: string, keyName: string, desiredRole: string) returns (r: Result<bool, Failure>)
      ensures r == AclOutcome(apps, entries, parse, app, email, keyName, desiredRole)
    {
      if !app.aclMode {
        return Err(InvalidScratchSpacePermissions);
      }
      var isAdmin := UserHasAdminWithAppId(app.id, email);
      if isAdmin.Err? {
        return Err(isAdmin.error);
      }
      if isAdmin.value {
        return Ok(true);
      }
      if (app.id, keyName + AclSuffix) !in entries {
        return Err(RecordNotFound);
      }
      r := AclVerdict(parse(entries[(app.id, keyName + AclSuffix)]), email, keyName, desiredRole);
    }

    method UserCanWriteToAppId(appId: Uuid, email: string, keyName: string) returns (r: Result<bool, Failure>)
      ensures r == WriteOutcome(apps, entries, parse, appId, email, keyName)
    {
      if appId !in apps {
        return Err(RecordNotFound);
      }
      var app := apps[appId];
      if app.aclMode {
        if EndsWith(keyName, AclSuffix) {
          AclKeySplit(keyName);
          r := AclLookup(app, email, JavaSplit(keyName, '_')[0], KeyAdmin);
        } else {
          r := AclLookup(app, email, keyName, KeyWrite);
        }
        return;
      }
      var found := FindPrivilege(app.userPrivs, email, {ScratchWrite, ScratchAdmin});
      r := Ok(found);
    }

    method UserCanReadFromAppId(appId: Uuid, email: string, keyName: string) returns (r: Result<bool, Failure>)
      ensures r == ReadOutcome(apps, entries, parse, appId, email, keyName)
    {
      if appId !in apps {
        return Err(RecordNotFound);
      }
      var app := apps[appId];
      if app.aclMode {
        if EndsWith(keyName, AclSuffix) {
          AclKeySplit(keyName);
          r := AclLookup(app, email, JavaSplit(keyName, '_')[0], KeyAdmin);
        } else {
          r := AclLookup(app, email, keyName, KeyRead);
        }
        return;
      }
      if app.implicitRead {
        return Ok(true);
      }
      var found := FindPrivilege(app.userPrivs, email, {ScratchRead, ScratchWrite, ScratchAdmin});
      r := Ok(found);
    }

    method UserCanDeleteKeyForAppId(appId: Uuid, email: string, keyName: string) returns (r: Result<bool, Failure>)
      ensures r == DeleteOutcome(apps, entries, parse, appId, email, keyName)
    {
      if appId !in apps {
        return Err(RecordNotFound);
      }
      var app := apps[appId];
      if app.aclMode {
        r := AclLookup(app, email, keyName, KeyAdmin);
        return;
      }
      var found := FindPrivilege(app.userPrivs, email, {ScratchAdmin});
      r := Ok(found);
    }
  }
}
