/**
 * The privileges of a document space: one privilege object per privilege type,
 * each holding the dashboard users and app clients granted that type. Granting
 * replaces whatever the holder had in the space, and a higher type brings the
 * lower ones with it (MEMBERSHIP, then WRITE, then READ).
 */
module DocumentSpacePrivileges {
  import opened Wrappers

  type Uuid = nat

  /** The privilege types of a document space. */
  datatype PrivType = Read | Write | Membership

  /** The enum's values, in the order the services walk them. */
  const AllTypes: seq<PrivType> := [Read, Write, Membership]

  /** Who a privilege is granted to: a dashboard user or an app client. */
  datatype Holder = DashboardUser(id: Uuid) | AppClient(id: Uuid)

  datatype Privilege = Privilege(name: string, ptype: PrivType, holders: set<Holder>)

  /** A space's privileges, keyed by type. */
  type Privileges = map<PrivType, Privilege>

  function TypeName(t: PrivType): (r: string)
    ensures |r| >= 4
  {
    match t
    case Read => "READ"
    case Write => "WRITE"
    case Membership => "MEMBERSHIP"
  }

  /** `createPrivilegeName`: "DOCUMENT_SPACE_", the space id's text, "_", the type. */
  function PrivilegeName(spaceId: string, t: PrivType): (r: string)
    ensures |r| == 16 + |spaceId| + |TypeName(t)|
  {
    "DOCUMENT_SPACE_" + spaceId + "_" + TypeName(t)
  }

  lemma TypeNameInjective(s: PrivType, t: PrivType)
    requires TypeName(s) == TypeName(t)
    ensures s == t
  {
    assert |TypeName(s)| == |TypeName(t)|;
  }

  /** The enum's value list names every type. */
  lemma EveryType(t: PrivType)
    ensures t in AllTypes
  {
    match t
    case Read => assert AllTypes[0] == t;
    case Write => assert AllTypes[1] == t;
    case Membership => assert AllTypes[2] == t;
  }

  /**
   * Two privileges of spaces whose ids have the same length (a UUID's text
   * always has 36 characters) share a name only when they share space and type.
   */
  lemma PrivilegeNamesAreDistinct(a: string, s: PrivType, b: string, t: PrivType)
    requires |a| == |b| && PrivilegeName(a, s) == PrivilegeName(b, t)
    ensures a == b && s == t
  {
    var n, m := PrivilegeName(a, s), PrivilegeName(b, t);
    assert a == n[15..15 + |a|] == m[15..15 + |b|] == b;
    assert TypeName(s) == n[16 + |a|..] == m[16 + |b|..] == TypeName(t);
    TypeNameInjective(s, t);
  }

  /** The privilege a new space gets for type `t`. */
  function NewPrivilege(spaceId: string, t: PrivType): (p: Privilege)
    ensures p.ptype == t && p.holders == {}
  {
    Privilege(PrivilegeName(spaceId, t), t, {})
  }

  // ---------------------------------------------------------------------------
  // Granting

  /** The fall-through of the grant switch: a type and every type below it. */
  function Implied(t: PrivType): seq<PrivType>
  {
    match t
    case Membership => [Membership, Write, Read]
    case Write => [Write, Read]
    case Read => [Read]
  }

  /** The single grants a request list turns into, in the order they happen. */
  function Expand(requested: seq<PrivType>): seq<PrivType>
  {
    if requested == [] then [] else Implied(requested[0]) + Expand(requested[1..])
  }

  /** What a request list grants: READ for any request, WRITE for WRITE or MEMBERSHIP, MEMBERSHIP only for itself. */
  predicate Covers(requested: seq<PrivType>, t: PrivType)
  {
    match t
    case Read => requested != []
    case Write => Write in requested || Membership in requested
    case Membership => Membership in requested
  }

  lemma {:induction false} ExpandCovers(requested: seq<PrivType>, t: PrivType)
    ensures t in Expand(requested) <==> Covers(requested, t)
    decreases |requested|
  {
    if requested != [] {
      ExpandCovers(requested[1..], t);
      assert requested == [requested[0]] + requested[1..];
      assert Expand(requested) == Implied(requested[0]) + Expand(requested[1..]);
    }
  }

  /** Takes `h` out of every privilege of the space. */
  function Removed(privs: Privileges, h: Holder): (r: Privileges)
    ensures r.Keys == privs.Keys
    ensures forall t :: t in r ==> h !in r[t].holders
    ensures forall t, g :: t in r && g != h ==> (g in r[t].holders <==> g in privs[t].holders)
    ensures forall t :: t in r ==> r[t].(holders := {}) == privs[t].(holders := {})
  {
    map t | t in privs :: privs[t].(holders := privs[t].holders - {h})
  }

  /**
   * One grant after another, stopping at the first type the space has no
   * privilege object for: the privileges so far and whether all succeeded.
   */
  function Grant(privs: Privileges, h: Holder, steps: seq<PrivType>): (r: (Privileges, bool))
    ensures r.0.Keys == privs.Keys
    decreases |steps|
  {
    if steps == [] then (privs, true)
    else if steps[0] !in privs then (privs, false)
    else Grant(privs[steps[0] := privs[steps[0]].(holders := privs[steps[0]].holders + {h})], h, steps[1..])
  }

  /** The grants all succeed exactly when the space holds every type they name. */
  lemma {:induction false} GrantSucceeds(privs: Privileges, h: Holder, steps: seq<PrivType>)
    ensures Grant(privs, h, steps).1 <==> forall t :: t in steps ==> t in privs
    decreases |steps|
  {
    if steps != [] && steps[0] in privs {
      var next := privs[steps[0] := privs[steps[0]].(holders := privs[steps[0]].holders + {h})];
      GrantSucceeds(next, h, steps[1..]);
      assert steps == [steps[0]] + steps[1..];
    }
  }

  /**
   * After successful grants, `h` holds what it held plus every granted type,
   * every other holder holds what it held, and names and types are untouched.
   */
  lemma {:induction false} GrantEffect(privs: Privileges, h: Holder, steps: seq<PrivType>, t: PrivType, g: Holder)
    requires Grant(privs, h, steps).1 && t in privs
    ensures Grant(privs, h, steps).0[t].(holders := {}) == privs[t].(holders := {})
    ensures g in Grant(privs, h, steps).0[t].holders <==> g in privs[t].holders || (g == h && t in steps)
    decreases |steps|
  {
    if steps != [] {
      var next := privs[steps[0] := privs[steps[0]].(holders := privs[steps[0]].holders + {h})];
      GrantEffect(next, h, steps[1..], t, g);
      assert steps == [steps[0]] + steps[1..];
    }
  }

  /** `addPrivilegesToDashboardUser` / `addPrivilegesToAppClientUser` on one space. */
  function GrantOutcome(privs: Privileges, h: Holder, requested: seq<PrivType>): (r: Result<Privileges, Failure>)
    ensures r.Err? ==> r.error == IllegalArgument
  {
    var granted := Grant(Removed(privs, h), h, Expand(requested));
    if granted.1 then Ok(granted.0) else Err(IllegalArgument)
  }

  /**
   * A grant fails exactly when a covered type has no privilege object; when it
   * succeeds, the holder has exactly the covered types and nobody else changes.
   */
  lemma GrantOutcomeMeaning(privs: Privileges, h: Holder, requested: seq<PrivType>, t: PrivType, g: Holder)
    ensures GrantOutcome(privs, h, requested).Err? <==> exists u :: Covers(requested, u) && u !in privs
    ensures GrantOutcome(privs, h, requested).Ok? && t in privs ==>
              (h in GrantOutcome(privs, h, requested).value[t].holders <==> Covers(requested, t))
              && (g != h ==> (g in GrantOutcome(privs, h, requested).value[t].holders <==> g in privs[t].holders))
  {
    var removed := Removed(privs, h);
    GrantSucceeds(removed, h, Expand(requested));
    forall u
      ensures u in Expand(requested) <==> Covers(requested, u)
    {
      ExpandCovers(requested, u);
    }
    if Grant(removed, h, Expand(requested)).1 && t in privs {
      GrantEffect(removed, h, Expand(requested), t, g);
      GrantEffect(removed, h, Expand(requested), t, h);
    }
  }

  // ---------------------------------------------------------------------------
  // App clients of a space

  /** The types whose privilege holds app client `id`. */
  function ClientTypes(privs: Privileges, id: Uuid): set<PrivType>
  {
    set t | t in privs && AppClient(id) in privs[t].holders
  }

  /** The app clients holding some privilege of the space. */
  function AssignedClients(privs: Privileges): set<Uuid>
  {
    set t, h | t in privs && h in privs[t].holders && h.AppClient? :: h.id
  }

  lemma AssignedMeansTyped(privs: Privileges, id: Uuid)
    ensures id in AssignedClients(privs) <==> ClientTypes(privs, id) != {}
  {
    if id in AssignedClients(privs) {
      var t, h :| t in privs && h in privs[t].holders && h.AppClient? && h.id == id;
      assert t in ClientTypes(privs, id);
    }
    if ClientTypes(privs, id) != {} {
      var t :| t in ClientTypes(privs, id);
      assert AppClient(id) in privs[t].holders;
    }
  }

  /** One entry of the space's client list. */
  datatype ClientEntry = ClientEntry(appClientId: Uuid, privileges: seq<PrivType>)

  /** The app clients of `all` (in order) that hold no privilege of the space. */
  function Unassigned(all: seq<Uuid>, inSpace: set<Uuid>): (r: seq<Uuid>)
    ensures |r| <= |all|
  {
    if all == [] then []
    else (if all[0] in inSpace then [] else [all[0]]) + Unassigned(all[1..], inSpace)
  }

  lemma {:induction false} UnassignedMeaning(all: seq<Uuid>, inSpace: set<Uuid>, id: Uuid)
    ensures id in Unassigned(all, inSpace) <==> id in all && id !in inSpace
    decreases |all|
  {
    if all != [] {
      UnassignedMeaning(all[1..], inSpace, id);
      assert all == [all[0]] + all[1..];
    }
  }

  /** `clients` maps each app client to exactly the types it is paired with. */
  ghost predicate Grouped(clients: map<Uuid, seq<PrivType>>, pairs: set<(PrivType, Uuid)>)
  {
    (forall id :: id in clients <==> exists t :: (t, id) in pairs)
    && (forall id, t :: id in clients ==> (t in clients[id] <==> (t, id) in pairs))
  }

  lemma GroupStep(clients: map<Uuid, seq<PrivType>>, pairs: set<(PrivType, Uuid)>, t: PrivType, id: Uuid)
    requires Grouped(clients, pairs)
    ensures Grouped(clients[id := if id in clients then clients[id] + [t] else [t]], pairs + {(t, id)})
  {
  }

  /** The app clients holding privilege type `t`, added to the grouping of the types `done`. */
  method GroupType(privs: Privileges, t: PrivType, clients0: map<Uuid, seq<PrivType>>,
                   ghost pairs0: set<(PrivType, Uuid)>, ghost done: set<PrivType>)
    returns (clients: map<Uuid, seq<PrivType>>, ghost pairs: set<(PrivType, Uuid)>)
    requires t in privs && t !in done && done <= privs.Keys && Grouped(clients0, pairs0)
    requires forall u, id: Uuid :: (u, id) in pairs0 <==> u in done && AppClient(id) in privs[u].holders
    ensures Grouped(clients, pairs)
    ensures forall u, id: Uuid :: (u, id) in pairs <==> u in done + {t} && AppClient(id) in privs[u].holders
  {
    clients, pairs := clients0, pairs0;
    var todo := privs[t].holders;
    while todo != {}
      invariant todo <= privs[t].holders
      invariant Grouped(clients, pairs)
      invariant forall u, id: Uuid :: (u, id) in pairs <==>
                  (u in done && AppClient(id) in privs[u].holders) || (u == t && AppClient(id) in privs[t].holders - todo)
      decreases |todo|
    {
      var h :| h in todo;
      if h.AppClient? {
        GroupStep(clients, pairs, t, h.id);
        clients := clients[h.id := if h.id in clients then clients[h.id] + [t] else [t]];
        pairs := pairs + {(t, h.id)};
      }
      todo := todo - {h};
    }
  }

  /** The grouping of `getAppClientsForDocumentSpace`: each privilege's app clients under its type. */
  method GroupClients(privs: Privileges) returns (clients: map<Uuid, seq<PrivType>>)
    ensures forall id :: id in clients <==> ClientTypes(privs, id) != {}
    ensures forall id, t :: id in clients ==> (t in clients[id] <==> t in ClientTypes(privs, id))
  {
    clients := map[];
    ghost var pairs: set<(PrivType, Uuid)> := {};
    var types, done := privs.Keys, {};
    while types != {}
      invariant types + done == privs.Keys && types !! done
      invariant Grouped(clients, pairs)
      invariant forall u, id: Uuid :: (u, id) in pairs <==> u in done && AppClient(id) in privs[u].holders
      decreases |types|
    {
      var t :| t in types;
      clients, pairs := GroupType(privs, t, clients, pairs, done);
      types, done := types - {t}, done + {t};
    }
    forall id
      ensures id in clients <==> ClientTypes(privs, id) != {}
    {
      if id in clients {
        var t :| (t, id) in pairs;
        assert t in ClientTypes(privs, id);
      }
      if ClientTypes(privs, id) != {} {
        var t :| t in ClientTypes(privs, id);
        assert (t, id) in pairs;
      }
    }
  }

  /** `new ArrayList<>(clients.values())`: one entry per key, in some order. */
  method ListEntries(clients: map<Uuid, seq<PrivType>>) returns (entries: seq<ClientEntry>)
    ensures forall i, j :: 0 <= i < j < |entries| ==> entries[i].appClientId != entries[j].appClientId
    ensures forall i :: 0 <= i < |entries| ==>
              entries[i].appClientId in clients && entries[i].privileges == clients[entries[i].appClientId]
    ensures forall id :: id in clients ==> exists i :: 0 <= i < |entries| && entries[i].appClientId == id
  {
    entries := [];
    var left := clients.Keys;
    while left != {}
      invariant left <= clients.Keys
      invariant forall i, j :: 0 <= i < j < |entries| ==> entries[i].appClientId != entries[j].appClientId
      invariant forall i :: 0 <= i < |entries| ==>
                  (entries[i].appClientId in clients && entries[i].appClientId !in left
                   && entries[i].privileges == clients[entries[i].appClientId])
      invariant forall id :: id in clients && id !in left ==> exists i :: 0 <= i < |entries| && entries[i].appClientId == id
      decreases |left|
    {
      var id :| id in left;
      ghost var prev := entries;
      entries := entries + [ClientEntry(id, clients[id])];
      forall k | k in clients && k !in left - {id}
        ensures exists i :: 0 <= i < |entries| && entries[i].appClientId == k
      {
        if k == id {
          assert entries[|prev|].appClientId == k;
        } else {
          var i :| 0 <= i < |prev| && prev[i].appClientId == k;
          assert entries[i].appClientId == k;
        }
      }
      left := left - {id};
    }
  }

  /** Grants in two runs: the second runs only when the first succeeded. */
  lemma {:induction false} GrantAppend(privs: Privileges, h: Holder, a: seq<PrivType>, b: seq<PrivType>)
    ensures Grant(privs, h, a + b) ==
            if Grant(privs, h, a).1 then Grant(Grant(privs, h, a).0, h, b) else Grant(privs, h, a)
    decreases |a|
  {
    if a != [] {
      assert (a + b)[1..] == a[1..] + b;
      if a[0] in privs {
        GrantAppend(privs[a[0] := privs[a[0]].(holders := privs[a[0]].holders + {h})], h, a[1..], b);
      }
    } else {
      assert a + b == b;
    }
  }

  /** `h` added to the privilege of type `t`, which must exist. */
  method AddSingle(privs: Privileges, h: Holder, t: PrivType) returns (out: Privileges, ok: bool)
    ensures (out, ok) == Grant(privs, h, [t])
  {
    if t !in privs {
      return privs, false;
    }
    out, ok := privs[t := privs[t].(holders := privs[t].holders + {h})], true;
    assert [t][1..] == [];
  }

  /** The switch of the grant loop: each case falls through to the types below it. */
  method GrantImplied(privs: Privileges, h: Holder, t: PrivType) returns (out: Privileges, ok: bool)
    ensures (out, ok) == Grant(privs, h, Implied(t))
  {
    out, ok := privs, true;
    if t == Membership {
      out, ok := AddSingle(out, h, Membership);
      if !ok {
        return;
      }
    }
    if t == Membership || t == Write {
      GrantAppend(privs, h, [Membership], [Write]);
      out, ok := AddSingle(out, h, Write);
      if !ok {
        return;
      }
    }
    GrantAppend(privs, h, [Membership, Write], [Read]);
    GrantAppend(privs, h, [Write], [Read]);
    out, ok := AddSingle(out, h, Read);
  }

  /** The loop over the requested types: each with the ones it implies, stopping at the first missing privilege object. */
  method GrantRequested(privs: Privileges, h: Holder, requested: seq<PrivType>) returns (out: Privileges, ok: bool)
    ensures (out, ok) == Grant(privs, h, Expand(requested))
  {
    out, ok := privs, true;
    var i := 0;
    assert requested[0..] == requested;
    while i < |requested|
      invariant 0 <= i <= |requested|
      invariant Grant(privs, h, Expand(requested)) == Grant(out, h, Expand(requested[i..]))
    {
      assert requested[i..][1..] == requested[i + 1..];
      GrantAppend(out, h, Implied(requested[i]), Expand(requested[i + 1..]));
      out, ok := GrantImplied(out, h, requested[i]);
      if !ok {
        return;
      }
      i := i + 1;
    }
  }

  /**
   * The document spaces' privileges and the app-client repository, in
   * `findAll` order.
   */
  class PrivilegeStore {
    var spaces: map<string, Privileges>
    var appClients: seq<Uuid>

    constructor(appClients: seq<Uuid>)
      ensures spaces == map[] && this.appClients == appClients
    {
      spaces := map[];
      this.appClients := appClients;
    }

    /** The privileges of a space, none for a space not yet seen. */
    function SpacePrivileges(space: string): Privileges
      reads this
    {
      if space in spaces then spaces[space] else map[]
    }

    /** `createAndSavePrivilegesForNewSpace`: one fresh privilege per type. */
    method CreateAndSavePrivilegesForNewSpace(space: string)
      modifies this
      ensures appClients == old(appClients)
      ensures spaces.Keys == old(spaces).Keys + {space}
      ensures forall s :: s in spaces && s != space ==> spaces[s] == old(spaces)[s]
      ensures forall t :: t in spaces[space] && spaces[space][t] == NewPrivilege(space, t)
    {
      var privs := SpacePrivileges(space);
      for i := 0 to |AllTypes|
        invariant forall t :: t in AllTypes[..i] ==> t in privs && privs[t] == NewPrivilege(space, t)
      {
        privs := privs[AllTypes[i] := NewPrivilege(space, AllTypes[i])];
      }
      forall t
        ensures t in privs && privs[t] == NewPrivilege(space, t)
      {
        EveryType(t);
        assert AllTypes[..|AllTypes|] == AllTypes;
      }
      spaces := spaces[space := privs];
    }

    /** Takes `h` out of every privilege of the space, type by type. */
    method RemoveFromSpace(space: string, h: Holder)
      requires space in spaces
      modifies this
      ensures appClients == old(appClients)
      ensures spaces == old(spaces)[space := Removed(old(spaces)[space], h)]
    {
      var privs := spaces[space];
      for i := 0 to |AllTypes|
        invariant privs.Keys == old(spaces)[space].Keys
        invariant forall t :: t in privs ==>
                    privs[t] == if t in AllTypes[..i] then Removed(old(spaces)[space], h)[t] else old(spaces)[space][t]
      {
        var t := AllTypes[i];
        if t in privs {
          privs := privs[t := privs[t].(holders := privs[t].holders - {h})];
        }
        assert AllTypes[..i + 1] == AllTypes[..i] + [t];
      }
      forall t | t in privs
        ensures privs[t] == Removed(old(spaces)[space], h)[t]
      {
        EveryType(t);
        assert AllTypes[..|AllTypes|] == AllTypes;
      }
      assert privs == Removed(old(spaces)[space], h);
      spaces := spaces[space := privs];
    }

    /** `removePrivilegesFromDashboardUser`. */
    method RemovePrivilegesFromDashboardUser(userId: Uuid, space: string)
      requires space in spaces
      modifies this
      ensures appClients == old(appClients)
      ensures spaces == old(spaces)[space := Removed(old(spaces)[space], DashboardUser(userId))]
    {
      RemoveFromSpace(space, DashboardUser(userId));
    }

    /** `removePrivilegesFromAppClientUser`: the app client must exist. */
    method RemovePrivilegesFromAppClientUser(space: string, clientId: Uuid) returns (r: Result<(), Failure>)
      requires space in spaces
      modifies this
      ensures appClients == old(appClients)
      ensures clientId !in appClients ==> r == Err(RecordNotFound) && spaces == old(spaces)
      ensures clientId in appClients ==>
                r == Ok(()) && spaces == old(spaces)[space := Removed(old(spaces)[space], AppClient(clientId))]
    {
      if clientId !in appClients {
        return Err(RecordNotFound);
      }
      RemoveFromSpace(space, AppClient(clientId));
      r := Ok(());
    }

    /**
     * Removal, then each requested type with the ones it implies; the first
     * missing privilege object ends the grant with IllegalArgument, the
     * grants before it staying in place.
     */
    method GrantInSpace(space: string, h: Holder, requested: seq<PrivType>) returns (r: Result<(), Failure>)
      requires space in spaces
      modifies this
      ensures appClients == old(appClients)
      ensures spaces.Keys == old(spaces).Keys
      ensures forall s :: s in spaces && s != space ==> spaces[s] == old(spaces)[s]
      ensures spaces[space] == Grant(Removed(old(spaces)[space], h), h, Expand(requested)).0
      ensures Grant(Removed(old(spaces)[space], h), h, Expand(requested)).1 ==> r == Ok(())
      ensures !Grant(Removed(old(spaces)[space], h), h, Expand(requested)).1 ==> r == Err(IllegalArgument)
    {
      RemoveFromSpace(space, h);
      var privs, ok := GrantRequested(spaces[space], h, requested);
      spaces := spaces[space := privs];
      r := if ok then Ok(()) else Err(IllegalArgument);
    }

    /** `addPrivilegesToDashboardUser`. */
    method AddPrivilegesToDashboardUser(userId: Uuid, space: string, requested: seq<PrivType>) returns (r: Result<(), Failure>)
      requires space in spaces
      modifies this
      ensures appClients == old(appClients)
      ensures spaces.Keys == old(spaces).Keys
      ensures forall s :: s in spaces && s != space ==> spaces[s] == old(spaces)[s]
      ensures GrantOutcome(old(spaces)[space], DashboardUser(userId), requested).Ok? ==>
                r == Ok(()) && spaces[space] == GrantOutcome(old(spaces)[space], DashboardUser(userId), requested).value
      ensures GrantOutcome(old(spaces)[space], DashboardUser(userId), requested).Err? ==> r == Err(IllegalArgument)
    {
      r := GrantInSpace(space, DashboardUser(userId), requested);
    }

    /** `addPrivilegesToAppClientUser`: the app client must exist, then as for a dashboard user. */
    method AddPrivilegesToAppClientUser(space: string, clientId: Uuid, requested: seq<PrivType>) returns (r: Result<(), Failure>)
      requires space in spaces
      modifies this
      ensures appClients == old(appClients)
      ensures spaces.Keys == old(spaces).Keys
      ensures forall s :: s in spaces && s != space ==> spaces[s] == old(spaces)[s]
      ensures clientId !in appClients ==> r == Err(RecordNotFound) && spaces == old(spaces)
      ensures clientId in appClients && GrantOutcome(old(spaces)[space], AppClient(clientId), requested).Ok? ==>
                r == Ok(()) && spaces[space] == GrantOutcome(old(spaces)[space], AppClient(clientId), requested).value
      ensures clientId in appClients && GrantOutcome(old(spaces)[space], AppClient(clientId), requested).Err? ==>
                r == Err(IllegalArgument)
    {
      if clientId !in appClients {
        return Err(RecordNotFound);
      }
      r := GrantInSpace(space, AppClient(clientId), requested);
    }

    /** `deleteAllPrivilegesBelongingToDocumentSpace`: every holder removed, every privilege deleted. */
    method DeleteAllPrivilegesBelongingToDocumentSpace(space: string)
      requires space in spaces
      modifies this
      ensures appClients == old(appClients)
      ensures spaces == old(spaces)[space := map[]]
    {
      spaces := spaces[space := map[]];
    }

    /**
     * `getAppClientsForDocumentSpace`: one entry per app client holding a
     * privilege of the space, listing each type whose privilege holds it.
     */
    method GetAppClientsForDocumentSpace(space: string) returns (entries: seq<ClientEntry>)
      requires space in spaces
      ensures forall i, j :: 0 <= i < j < |entries| ==> entries[i].appClientId != entries[j].appClientId
      ensures forall id :: id in AssignedClients(spaces[space]) <==> exists i :: 0 <= i < |entries| && entries[i].appClientId == id
      ensures forall i :: 0 <= i < |entries| ==>
                (forall t :: t in entries[i].privileges <==> t in ClientTypes(spaces[space], entries[i].appClientId))
    {
      var clients := GroupClients(spaces[space]);
      entries := ListEntries(clients);
      forall id
        ensures id in AssignedClients(spaces[space]) <==> id in clients
      {
        AssignedMeansTyped(spaces[space], id);
      }
    }

    /** `getAppClientsForAssignmentToDocumentSpace`: every app client not yet in the space, in repository order. */
    method GetAppClientsForAssignmentToDocumentSpace(space: string) returns (candidates: seq<Uuid>)
      requires space in spaces
      ensures candidates == Unassigned(appClients, AssignedClients(spaces[space]))
    {
      var inSpace := GetAppClientsForDocumentSpace(space);
      var ids := set i | 0 <= i < |inSpace| :: inSpace[i].appClientId;
      assert ids == AssignedClients(spaces[space]);
      candidates := [];
      var i := |appClients|;
      while i > 0
        invariant 0 <= i <= |appClients|
        invariant candidates == Unassigned(appClients[i..], ids)
      {
        i := i - 1;
        assert appClients[i..][1..] == appClients[i + 1..];
        if appClients[i] !in ids {
          candidates := [appClients[i]] + candidates;
        }
      }
    }
  }
}
