/**
 * Entity field authorisation: on an update of a person or an organization,
 * each protected field keeps its stored value unless the requester holds the
 * field's own authority (`Person-<field>` or `Organization-<field>`), and the
 * fields held back are reported in a response header. Also the bootstrap that
 * keeps one privilege per protected field in the privilege table.
 */
module EntityFieldAuth {
  import opened Wrappers
  import opened Text

  type Uuid = nat

  datatype EntityKind = PersonEntity | OrganizationEntity

  const PersonPrefix: string := "Person-"
  const OrgPrefix: string := "Organization-"
  const DashboardAdmin: string := "DASHBOARD_ADMIN"
  const DeniedFieldsHeader: string := "x-denied-entity-fields"

  /** The prefix of the per-field authorities of an entity kind. */
  function Prefix(kind: EntityKind): (r: string)
    ensures r == PersonPrefix <==> kind == PersonEntity
    ensures r == OrgPrefix <==> kind == OrganizationEntity
  {
    match kind
    case PersonEntity => PersonPrefix
    case OrganizationEntity => OrgPrefix
  }

  /** The authority needed to change anything at all. */
  function EditPrivilege(kind: EntityKind): string
  {
    match kind
    case PersonEntity => "PERSON_EDIT"
    case OrganizationEntity => "ORGANIZATION_EDIT"
  }

  /** An entity: its id and its fields by name; a name that is not a key is not a field of the entity. */
  datatype Entity<V> = Entity(id: Uuid, fields: map<string, V>)

  /** The entity let through, and the value of the denied-fields header when one is added. */
  datatype Adjudicated<V> = Adjudicated(entity: Entity<V>, header: Option<string>)

  /** The protected fields, in declaration order, whose own authority the requester lacks. */
  function Denied(protected: seq<string>, authorities: set<string>, prefix: string): (r: seq<string>)
    ensures |r| <= |protected|
    ensures forall f :: f in r <==> f in protected && prefix + f !in authorities
    ensures r == [] <==> forall f :: f in protected ==> prefix + f in authorities
  {
    if protected == [] then []
    else
      var last := protected[|protected| - 1];
      Denied(protected[..|protected| - 1], authorities, prefix) + (if prefix + last !in authorities then [last] else [])
  }

  /**
   * The incoming fields with every denied field read back from the existing
   * entity; a denied field missing from either entity fails the update.
   */
  function Overwritten<V>(incoming: map<string, V>, existing: map<string, V>, denied: seq<string>): (r: Result<map<string, V>, Failure>)
    ensures r.Err? ==> r.error == InvalidRecordUpdateRequest
    ensures r.Ok? ==> r.value.Keys == incoming.Keys
  {
    if denied == [] then Ok(incoming)
    else
      var f := denied[|denied| - 1];
      match Overwritten(incoming, existing, denied[..|denied| - 1])
      case Err(e) => Err(e)
      case Ok(m) => if f !in m || f !in existing then Err(InvalidRecordUpdateRequest) else Ok(m[f := existing[f]])
  }

  /**
   * The overwrite fails exactly when a denied field is missing from either
   * entity; otherwise each denied field has the existing value and every
   * other field the incoming one.
   */
  lemma {:induction false} OverwrittenMeaning<V>(incoming: map<string, V>, existing: map<string, V>, denied: seq<string>)
    ensures var r := Overwritten(incoming, existing, denied);
            (r.Err? <==> exists f :: f in denied && (f !in incoming || f !in existing))
            && (r.Ok? ==> forall k :: k in incoming ==> r.value[k] == if k in denied then existing[k] else incoming[k])
  {
    if denied != [] {
      var init := denied[..|denied| - 1];
      var f := denied[|denied| - 1];
      assert denied == init + [f];
      OverwrittenMeaning(incoming, existing, init);
    }
  }

  /** The header value: the denied field names joined by commas, and no header when none was denied. */
  function DeniedHeader(denied: seq<string>): (r: Option<string>)
    ensures r.None? <==> denied == []
  {
    if denied == [] then None else Some(Join(denied, ","))
  }

  /**
   * `adjudicatePersonFields` / `adjudicateOrganizationFields`. `efaEnabled`
   * is the service setting, `hasResponse` whether the current request has a
   * response to add the header to, `existing` the stored entity with the
   * incoming id, and `authorities` the requester's authorities (`None` for no
   * requester).
   */
  function Adjudicate<V>(kind: EntityKind, efaEnabled: bool, hasResponse: bool, incoming: Entity<V>, existing: Option<Entity<V>>,
                         authorities: Option<set<string>>, protected: seq<string>): Result<Adjudicated<V>, Failure>
  {
    if !efaEnabled then Ok(Adjudicated(incoming, None))
    else if !hasResponse then Err(BadRequest)
    else if existing.None? then Err(RecordNotFound)
    else if authorities.None? then Ok(Adjudicated(existing.value, None))
    else if DashboardAdmin in authorities.value then Ok(Adjudicated(incoming, None))
    else if EditPrivilege(kind) !in authorities.value then Ok(Adjudicated(existing.value, None))
    else
      var denied := Denied(protected, authorities.value, Prefix(kind));
      match Overwritten(incoming.fields, existing.value.fields, denied)
      case Err(e) => Err(e)
      case Ok(fields) => Ok(Adjudicated(Entity(incoming.id, fields), DeniedHeader(denied)))
  }

  /** The per-field pass over the protected fields, for an editor who is not an administrator. */
  method MergeProtectedFields<V>(kind: EntityKind, incoming: map<string, V>, existing: map<string, V>, authorities: set<string>,
                                 protected: seq<string>)
    returns (r: Result<(map<string, V>, Option<string>), Failure>)
    ensures var denied := Denied(protected, authorities, Prefix(kind));
            match Overwritten(incoming, existing, denied)
            case Err(e) => r == Err(e)
            case Ok(fields) => r == Ok((fields, DeniedHeader(denied)))
  {
    var prefix := Prefix(kind);
    var fields := incoming;
    var denied: seq<string> := [];
    for i := 0 to |protected|
      invariant denied == Denied(protected[..i], authorities, prefix)
      invariant Overwritten(incoming, existing, denied) == Ok(fields)
    {
      var f := protected[i];
      DeniedStep(authorities, prefix, protected, i);
      if prefix + f !in authorities {
        OverwrittenStep(incoming, existing, denied, f);
        if f !in existing || f !in fields {
          assert f in Denied(protected, authorities, prefix);
          OverwrittenMeaning(incoming, existing, Denied(protected, authorities, prefix));
          return Err(InvalidRecordUpdateRequest);
        }
        fields := fields[f := existing[f]];
        denied := denied + [f];
      }
    }
    assert protected[..|protected|] == protected;
    r := Ok((fields, DeniedHeader(denied)));
  }

  /** The denials of one more field. */
  lemma DeniedStep(authorities: set<string>, prefix: string, protected: seq<string>, i: nat)
    requires i < |protected|
    ensures Denied(protected[..i + 1], authorities, prefix)
            == Denied(protected[..i], authorities, prefix) + (if prefix + protected[i] !in authorities then [protected[i]] else [])
  {
    assert protected[..i + 1][..i] == protected[..i];
  }

  /** Overwriting one more denied field. */
  lemma OverwrittenStep<V>(incoming: map<string, V>, existing: map<string, V>, denied: seq<string>, f: string)
    requires Overwritten(incoming, existing, denied).Ok?
    ensures var m := Overwritten(incoming, existing, denied).value;
            Overwritten(incoming, existing, denied + [f])
            == if f !in m || f !in existing then Err(InvalidRecordUpdateRequest) else Ok(m[f := existing[f]])
  {
    assert (denied + [f])[..|denied|] == denied;
  }

  method AdjudicateEntityFields<V>(kind: EntityKind, efaEnabled: bool, hasResponse: bool, incoming: Entity<V>,
                                   existing: Option<Entity<V>>, authorities: Option<set<string>>, protected: seq<string>)
    returns (r: Result<Adjudicated<V>, Failure>)
    ensures r == Adjudicate(kind, efaEnabled, hasResponse, incoming, existing, authorities, protected)
  {
    if !efaEnabled {
      return Ok(Adjudicated(incoming, None));
    }
    if !hasResponse {
      return Err(BadRequest);
    }
    if existing.None? {
      return Err(RecordNotFound);
    }
    if authorities.None? {
      return Ok(Adjudicated(existing.value, None));
    }
    if DashboardAdmin in authorities.value {
      return Ok(Adjudicated(incoming, None));
    }
    if EditPrivilege(kind) !in authorities.value {
      return Ok(Adjudicated(existing.value, None));
    }
    var merged := MergeProtectedFields(kind, incoming.fields, existing.value.fields, authorities.value, protected);
    match merged {
      case Err(e) => r := Err(e);
      case Ok(m) => r := Ok(Adjudicated(Entity(incoming.id, m.0), m.1));
    }
  }

  /** `adjudicatePersonFields`. */
  method AdjudicatePersonFields<V>(efaEnabled: bool, hasResponse: bool, incoming: Entity<V>, existing: Option<Entity<V>>,
                                   authorities: Option<set<string>>, protectedPersonFields: seq<string>)
    returns (r: Result<Adjudicated<V>, Failure>)
    ensures r == Adjudicate(PersonEntity, efaEnabled, hasResponse, incoming, existing, authorities, protectedPersonFields)
  {
    r := AdjudicateEntityFields(PersonEntity, efaEnabled, hasResponse, incoming, existing, authorities, protectedPersonFields);
  }

  /** `adjudicateOrganizationFields`. */
  method AdjudicateOrganizationFields<V>(efaEnabled: bool, hasResponse: bool, incoming: Entity<V>, existing: Option<Entity<V>>,
                                         authorities: Option<set<string>>, protectedOrgFields: seq<string>)
    returns (r: Result<Adjudicated<V>, Failure>)
    ensures r == Adjudicate(OrganizationEntity, efaEnabled, hasResponse, incoming, existing, authorities, protectedOrgFields)
  {
    r := AdjudicateEntityFields(OrganizationEntity, efaEnabled, hasResponse, incoming, existing, authorities, protectedOrgFields);
  }

  /**
   * What an editor who is not an administrator gets: every field of the
   * incoming entity is present, a protected field without its authority has
   * the stored value, every other field the incoming one, and the header
   * lists exactly the fields held back.
   */
  lemma AdjudicateFieldByField<V>(kind: EntityKind, hasResponse: bool, incoming: Entity<V>, existing: Entity<V>,
                                  authorities: set<string>, protected: seq<string>)
    requires hasResponse && DashboardAdmin !in authorities && EditPrivilege(kind) in authorities
    requires forall f :: f in protected ==> f in incoming.fields && f in existing.fields
    ensures var r := Adjudicate(kind, true, hasResponse, incoming, Some(existing), Some(authorities), protected);
            r.Ok? && r.value.entity.id == incoming.id && r.value.entity.fields.Keys == incoming.fields.Keys
            && (forall k :: k in incoming.fields ==>
                  r.value.entity.fields[k] == if k in protected && Prefix(kind) + k !in authorities then existing.fields[k]
                                              else incoming.fields[k])
            && (r.value.header.None? <==> forall f :: f in protected ==> Prefix(kind) + f in authorities)
  {
    OverwrittenMeaning(incoming.fields, existing.fields, Denied(protected, authorities, Prefix(kind)));
  }

  /** Adjudication with EFA on never changes a field the requester may not change. */
  lemma AdjudicateKeepsDeniedFields<V>(kind: EntityKind, hasResponse: bool, incoming: Entity<V>, existing: Entity<V>,
                                       authorities: Option<set<string>>, protected: seq<string>, f: string)
    requires f in protected && f in existing.fields
    requires authorities.Some? ==> DashboardAdmin !in authorities.value && Prefix(kind) + f !in authorities.value
    ensures var r := Adjudicate(kind, true, hasResponse, incoming, Some(existing), authorities, protected);
            r.Ok? && f in r.value.entity.fields ==> r.value.entity.fields[f] == existing.fields[f]
  {
    if authorities.Some? {
      OverwrittenMeaning(incoming.fields, existing.fields, Denied(protected, authorities.value, Prefix(kind)));
    }
  }

  /** Adjudicating an already adjudicated entity against the same stored entity changes nothing more. */
  lemma {:induction false} OverwrittenIdempotent<V>(incoming: map<string, V>, existing: map<string, V>, denied: seq<string>)
    requires Overwritten(incoming, existing, denied).Ok?
    ensures Overwritten(Overwritten(incoming, existing, denied).value, existing, denied) == Overwritten(incoming, existing, denied)
  {
    var once := Overwritten(incoming, existing, denied).value;
    var twice := Overwritten(once, existing, denied);
    OverwrittenMeaning(incoming, existing, denied);
    OverwrittenMeaning(once, existing, denied);
    assert twice.Ok?;
    assert twice.value.Keys == once.Keys;
    forall k | k in once
      ensures twice.value[k] == once[k]
    {
    }
    assert twice.value == once;
  }

  /** An editor holding every field authority gets the incoming entity unchanged and no header. */
  lemma FullAuthorityKeepsIncoming<V>(kind: EntityKind, incoming: Entity<V>, existing: Entity<V>, authorities: set<string>,
                                      protected: seq<string>)
    requires EditPrivilege(kind) in authorities
    requires forall f :: f in protected ==> Prefix(kind) + f in authorities
    ensures Adjudicate(kind, true, true, incoming, Some(existing), Some(authorities), protected) == Ok(Adjudicated(incoming, None))
  {
    var denied := Denied(protected, authorities, Prefix(kind));
    if DashboardAdmin !in authorities {
      var r := Overwritten(incoming.fields, existing.fields, denied);
      OverwrittenMeaning(incoming.fields, existing.fields, denied);
      assert r.value == incoming.fields;
    }
  }

  // ---------------------------------------------------------------------
  // The privilege bootstrap.

  /** The privilege names of the protected fields, in declaration order. */
  function PrivilegeNames(prefix: string, fields: seq<string>): (r: seq<string>)
    ensures |r| == |fields|
    ensures forall i :: 0 <= i < |fields| ==> r[i] == prefix + fields[i]
  {
    seq(|fields|, i requires 0 <= i < |fields| => prefix + fields[i])
  }

  /** `findByName` and, when the name is absent, `save` under the next fresh id. */
  function SaveOne(table: (map<string, nat>, nat), name: string): (r: (map<string, nat>, nat))
    ensures r.0.Keys == table.0.Keys + {name}
    ensures forall n :: n in table.0 ==> r.0[n] == table.0[n]
    ensures table.1 <= r.1
  {
    if name in table.0 then table else (table.0[name := table.1], table.1 + 1)
  }

  /**
   * The table (privilege name to id) after saving the names one after
   * another; returns the table and the next fresh id.
   */
  function InsertMissing(ids: map<string, nat>, next: nat, names: seq<string>): (r: (map<string, nat>, nat))
    ensures r.0.Keys == ids.Keys + set n | n in names
    ensures forall n :: n in ids ==> r.0[n] == ids[n]
    ensures next <= r.1
  {
    if names == [] then (ids, next)
    else
      assert names == names[..|names| - 1] + [names[|names| - 1]];
      SaveOne(InsertMissing(ids, next, names[..|names| - 1]), names[|names| - 1])
  }

  /** Saving names that are all present already changes nothing. */
  lemma {:induction false} InsertPresentIsIdentity(ids: map<string, nat>, next: nat, names: seq<string>)
    requires forall n :: n in names ==> n in ids
    ensures InsertMissing(ids, next, names) == (ids, next)
  {
    if names != [] {
      InsertPresentIsIdentity(ids, next, names[..|names| - 1]);
      assert names[|names| - 1] in names;
    }
  }

  /** A privilege named with the prefix whose rest names no protected field. */
  predicate Orphan(name: string, prefix: string, fields: seq<string>)
  {
    StartsWith(name, prefix) && name[|prefix|..] !in fields
  }

  /** The table without its orphans. */
  function Pruned(ids: map<string, nat>, prefix: string, fields: seq<string>): (r: map<string, nat>)
    ensures forall n :: n in r <==> n in ids && !Orphan(n, prefix, fields)
    ensures forall n :: n in r ==> r[n] == ids[n]
  {
    map n | n in ids && !Orphan(n, prefix, fields) :: ids[n]
  }

  /** Saving the missing privileges of one entity kind, then deleting its orphans. */
  function Synced(ids: map<string, nat>, next: nat, prefix: string, fields: seq<string>): (map<string, nat>, nat)
  {
    var inserted := InsertMissing(ids, next, PrivilegeNames(prefix, fields));
    (Pruned(inserted.0, prefix, fields), inserted.1)
  }

  /** `EntityFieldAuthServiceImpl.buildEntityPrivileges`: persons first, then organizations. */
  function Bootstrapped(ids: map<string, nat>, next: nat, personFields: seq<string>, orgFields: seq<string>): (map<string, nat>, nat)
  {
    var persons := Synced(ids, next, PersonPrefix, personFields);
    Synced(persons.0, persons.1, OrgPrefix, orgFields)
  }

  /** `EntityFieldRunner.buildEntityPrivileges`: the same insertions, and no deletion. */
  function RunnerBootstrapped(ids: map<string, nat>, next: nat, personFields: seq<string>, orgFields: seq<string>): (map<string, nat>, nat)
  {
    var persons := InsertMissing(ids, next, PrivilegeNames(PersonPrefix, personFields));
    InsertMissing(persons.0, persons.1, PrivilegeNames(OrgPrefix, orgFields))
  }

  /** The name of a field's privilege starts with the prefix and its rest is the field. */
  lemma PrivilegeNameParts(prefix: string, f: string)
    ensures StartsWith(prefix + f, prefix) && (prefix + f)[|prefix|..] == f
  {
    assert (prefix + f)[..|prefix|] == prefix;
  }

  /** After one kind's sync: its names are exactly its fields' privileges, and other names are untouched. */
  lemma SyncedMeaning(ids: map<string, nat>, next: nat, prefix: string, fields: seq<string>)
    ensures var r := Synced(ids, next, prefix, fields).0;
            (forall f :: f in fields ==> prefix + f in r)
            && (forall n :: n in r && StartsWith(n, prefix) ==> n[|prefix|..] in fields)
            && (forall n :: !StartsWith(n, prefix) ==> (n in r <==> n in ids))
            && (forall n :: n in ids && n in r ==> r[n] == ids[n])
  {
    var names := PrivilegeNames(prefix, fields);
    var r := Synced(ids, next, prefix, fields).0;
    forall f | f in fields
      ensures prefix + f in r
    {
      PrivilegeNameParts(prefix, f);
      var i :| 0 <= i < |fields| && fields[i] == f;
      assert names[i] == prefix + f;
    }
    forall n | n in names
      ensures StartsWith(n, prefix)
    {
      var i :| 0 <= i < |names| && names[i] == n;
      PrivilegeNameParts(prefix, fields[i]);
    }
  }

  /** No name starts with both prefixes. */
  lemma PrefixesDisjoint(n: string)
    ensures StartsWith(n, PersonPrefix) ==> !StartsWith(n, OrgPrefix)
  {
    if StartsWith(n, PersonPrefix) {
      assert n[0] == PersonPrefix[0] != OrgPrefix[0];
    }
  }

  /**
   * After the service's bootstrap, the prefixed privileges are exactly those
   * of the protected fields, every other privilege is as before, and no
   * privilege present before changes its id.
   */
  lemma BootstrappedMeaning(ids: map<string, nat>, next: nat, personFields: seq<string>, orgFields: seq<string>)
    ensures var r := Bootstrapped(ids, next, personFields, orgFields).0;
            (forall f :: f in personFields ==> PersonPrefix + f in r)
            && (forall f :: f in orgFields ==> OrgPrefix + f in r)
            && (forall n :: n in r && StartsWith(n, PersonPrefix) ==> n[|PersonPrefix|..] in personFields)
            && (forall n :: n in r && StartsWith(n, OrgPrefix) ==> n[|OrgPrefix|..] in orgFields)
            && (forall n :: !StartsWith(n, PersonPrefix) && !StartsWith(n, OrgPrefix) ==> (n in r <==> n in ids))
            && (forall n :: n in ids && n in r ==> r[n] == ids[n])
  {
    var persons := Synced(ids, next, PersonPrefix, personFields);
    SyncedMeaning(ids, next, PersonPrefix, personFields);
    SyncedMeaning(persons.0, persons.1, OrgPrefix, orgFields);
    forall f | f in personFields
      ensures !StartsWith(PersonPrefix + f, OrgPrefix)
    {
      PrivilegeNameParts(PersonPrefix, f);
      PrefixesDisjoint(PersonPrefix + f);
    }
    forall n | StartsWith(n, PersonPrefix)
      ensures !StartsWith(n, OrgPrefix)
    {
      PrefixesDisjoint(n);
    }
  }

  /** A sync that finds all of its names and no orphan changes nothing. */
  lemma SyncedSettled(ids: map<string, nat>, next: nat, prefix: string, fields: seq<string>)
    requires forall f :: f in fields ==> prefix + f in ids
    requires forall n :: n in ids && StartsWith(n, prefix) ==> n[|prefix|..] in fields
    ensures Synced(ids, next, prefix, fields) == (ids, next)
  {
    var names := PrivilegeNames(prefix, fields);
    forall n | n in names
      ensures n in ids
    {
      var i :| 0 <= i < |names| && names[i] == n;
    }
    InsertPresentIsIdentity(ids, next, names);
    assert Pruned(ids, prefix, fields) == ids;
  }

  /** Running the service's bootstrap a second time changes nothing. */
  lemma BootstrapIdempotent(ids: map<string, nat>, next: nat, personFields: seq<string>, orgFields: seq<string>)
    ensures var once := Bootstrapped(ids, next, personFields, orgFields);
            Bootstrapped(once.0, once.1, personFields, orgFields) == once
  {
    var once := Bootstrapped(ids, next, personFields, orgFields);
    BootstrappedMeaning(ids, next, personFields, orgFields);
    forall n | n in once.0 && StartsWith(n, PersonPrefix)
      ensures n[|PersonPrefix|..] in personFields
    {
    }
    SyncedSettled(once.0, once.1, PersonPrefix, personFields);
    SyncedSettled(once.0, once.1, OrgPrefix, orgFields);
  }

  /**
   * The runner's bootstrap: every protected field has its privilege, nothing
   * is deleted, an existing privilege keeps its id, and a second run changes
   * nothing.
   */
  lemma RunnerBootstrapMeaning(ids: map<string, nat>, next: nat, personFields: seq<string>, orgFields: seq<string>)
    ensures var once := RunnerBootstrapped(ids, next, personFields, orgFields);
            (forall f :: f in personFields ==> PersonPrefix + f in once.0)
            && (forall f :: f in orgFields ==> OrgPrefix + f in once.0)
            && (forall n :: n in ids ==> n in once.0 && once.0[n] == ids[n])
            && RunnerBootstrapped(once.0, once.1, personFields, orgFields) == once
  {
    var once := RunnerBootstrapped(ids, next, personFields, orgFields);
    var pn := PrivilegeNames(PersonPrefix, personFields);
    var on := PrivilegeNames(OrgPrefix, orgFields);
    forall f | f in personFields
      ensures PersonPrefix + f in once.0
    {
      var i :| 0 <= i < |personFields| && personFields[i] == f;
      assert pn[i] == PersonPrefix + f;
    }
    forall f | f in orgFields
      ensures OrgPrefix + f in once.0
    {
      var i :| 0 <= i < |orgFields| && orgFields[i] == f;
      assert on[i] == OrgPrefix + f;
    }
    InsertPresentIsIdentity(once.0, once.1, pn);
    InsertPresentIsIdentity(once.0, once.1, on);
  }

  /** The privilege table: names with their ids, and the next id the store hands out. */
  class PrivilegeTable {
    var ids: map<string, nat>
    var nextId: nat

    constructor(ids: map<string, nat>, nextId: nat)
      ensures this.ids == ids && this.nextId == nextId
    {
      this.ids := ids;
      this.nextId := nextId;
    }

    /** The insertion loop for one entity kind. */
    method SaveAllMissing(prefix: string, fields: seq<string>)
      modifies this
      ensures (ids, nextId) == InsertMissing(old(ids), old(nextId), PrivilegeNames(prefix, fields))
    {
      var names := PrivilegeNames(prefix, fields);
      for i := 0 to |fields|
        invariant (ids, nextId) == InsertMissing(old(ids), old(nextId), names[..i])
      {
        var n := prefix + fields[i];
        assert names[..i + 1][..i] == names[..i] && names[..i + 1][i] == n;
        if n !in ids {
          ids := ids[n := nextId];
          nextId := nextId + 1;
        }
      }
      assert names[..|fields|] == names;
    }

    /** The pruning loop: every privilege of the kind whose field is gone is deleted. */
    method DeleteOrphans(prefix: string, fields: seq<string>)
      modifies this
      ensures ids == Pruned(old(ids), prefix, fields) && nextId == old(nextId)
    {
      var pending := set n | n in ids && StartsWith(n, prefix);
      ghost var start := ids;
      while pending != {}
        invariant pending <= start.Keys
        invariant forall n :: n in ids <==> n in start && !(n !in pending && Orphan(n, prefix, fields))
        invariant forall n :: n in ids ==> ids[n] == start[n]
        invariant nextId == old(nextId) && start == old(ids)
        decreases pending
      {
        var n :| n in pending;
        if n[|prefix|..] !in fields {
          ids := map m | m in ids && m != n :: ids[m];
        }
        pending := pending - {n};
      }
      assert ids == Pruned(start, prefix, fields);
    }

    /** `EntityFieldAuthServiceImpl.buildEntityPrivileges`. */
    method BuildEntityPrivileges(personFields: seq<string>, orgFields: seq<string>)
      modifies this
      ensures (ids, nextId) == Bootstrapped(old(ids), old(nextId), personFields, orgFields)
    {
      SaveAllMissing(PersonPrefix, personFields);
      DeleteOrphans(PersonPrefix, personFields);
      SaveAllMissing(OrgPrefix, orgFields);
      DeleteOrphans(OrgPrefix, orgFields);
    }

    /** `EntityFieldRunner.buildEntityPrivileges`. */
    method RunnerBuildEntityPrivileges(personFields: seq<string>, orgFields: seq<string>)
      modifies this
      ensures (ids, nextId) == RunnerBootstrapped(old(ids), old(nextId), personFields, orgFields)
    {
      SaveAllMissing(PersonPrefix, personFields);
      SaveAllMissing(OrgPrefix, orgFields);
    }
  }
}
