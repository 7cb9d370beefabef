/**
 * People: the branch a platform login's affiliation stands for, the rank
 * lookup with its "Unk" fallback, the metadata properties each branch
 * allows, the metadata update, and the checks made when a person is created,
 * updated or looked up.
 */
module PersonService {
  import opened Wrappers
  import opened Text

  type Uuid = nat

  datatype Branch = USAF | USCG | USMC | USN | USA | USSF | OTHER

  // ---------------------------------------------------------------------
  // Affiliation to branch.

  const AirForceAffiliations: set<string> := {"US Air Force", "US Air Force Reserve", "US Air National Guard"}
  const ArmyAffiliations: set<string> := {"US Army", "US Army Reserve", "US Army National Guard"}
  const MarineAffiliations: set<string> := {"US Marine Corps", "US Marine Corps Reserve"}
  const CoastGuardAffiliations: set<string> := {"US Coast Guard", "US Coast Guard Reserve"}
  const NavyAffiliations: set<string> := {"US Navy", "US Navy Reserve"}
  const SpaceForceAffiliations: set<string> := {"US Space Force"}

  /** The affiliation texts that name a branch. */
  function KnownAffiliations(): set<string>
  {
    AirForceAffiliations + ArmyAffiliations + MarineAffiliations + CoastGuardAffiliations + NavyAffiliations
    + SpaceForceAffiliations
  }

  /** The switch of `createPersonFromJwt` on the login's affiliation; no affiliation is OTHER. */
  function BranchOfAffiliation(affiliation: Option<string>): (r: Branch)
  {
    if affiliation.None? then OTHER
    else
      var a := affiliation.value;
      if a == "US Air Force" || a == "US Air Force Reserve" || a == "US Air National Guard" then USAF
      else if a == "US Army" || a == "US Army Reserve" || a == "US Army National Guard" then USA
      else if a == "US Marine Corps" || a == "US Marine Corps Reserve" then USMC
      else if a == "US Coast Guard" || a == "US Coast Guard Reserve" then USCG
      else if a == "US Navy" || a == "US Navy Reserve" then USN
      else if a == "US Space Force" then USSF
      else OTHER
  }

  /**
   * Each branch is named by exactly its listed affiliations; OTHER by every
   * other text and by a missing affiliation.
   */
  lemma BranchOfAffiliationMeaning(affiliation: Option<string>)
    ensures var r := BranchOfAffiliation(affiliation);
            var named := affiliation.Some? && affiliation.value in KnownAffiliations();
            (r == USAF <==> affiliation.Some? && affiliation.value in AirForceAffiliations)
            && (r == USA <==> affiliation.Some? && affiliation.value in ArmyAffiliations)
            && (r == USMC <==> affiliation.Some? && affiliation.value in MarineAffiliations)
            && (r == USCG <==> affiliation.Some? && affiliation.value in CoastGuardAffiliations)
            && (r == USN <==> affiliation.Some? && affiliation.value in NavyAffiliations)
            && (r == USSF <==> affiliation.Some? && affiliation.value in SpaceForceAffiliations)
            && (r == OTHER <==> !named)
  {
  }

  /** The affiliation is matched exactly: a differently cased name is OTHER. */
  lemma AffiliationIsCaseSensitive()
    ensures BranchOfAffiliation(Some("US Navy")) == USN
    ensures BranchOfAffiliation(Some("us navy")) == OTHER
  {
    assert "us navy"[0] != "US Navy"[0];
  }

  // ---------------------------------------------------------------------
  // Ranks.

  datatype Rank = Rank(abbreviation: string, branchType: Branch, payGrade: string)

  const UnknownRank: string := "Unk"

  /** The first element a query finds, in the repository's order. */
  function First<T>(s: seq<T>, matches: T -> bool): (r: Option<T>)
    ensures r.None? <==> forall i :: 0 <= i < |s| ==> !matches(s[i])
    ensures r.Some? ==> matches(r.value) && r.value in s
  {
    if s == [] then None
    else if matches(s[0]) then Some(s[0])
    else
      var rest := First(s[1..], matches);
      assert forall i :: 1 <= i < |s| ==> s[i] == s[1..][i - 1];
      rest
  }

  /** The first element that matches is found, ahead of any later match. */
  lemma {:induction false} FirstIsEarliest<T>(s: seq<T>, matches: T -> bool, k: nat)
    requires k < |s| && matches(s[k])
    ensures First(s, matches).Some?
    ensures exists i :: 0 <= i <= k && s[i] == First(s, matches).value && forall j :: 0 <= j < i ==> !matches(s[j])
  {
    if !matches(s[0]) {
      FirstIsEarliest(s[1..], matches, k - 1);
      var i :| 0 <= i <= k - 1 && s[1..][i] == First(s[1..], matches).value
               && forall j :: 0 <= j < i ==> !matches(s[1..][j]);
      assert s[i + 1] == First(s, matches).value;
      assert forall j :: 1 <= j < i + 1 ==> s[j] == s[1..][j - 1];
    }
  }

  /** `findByAbbreviationAndBranchType`: a missing branch matches no rank. */
  function RankOfAbbreviation(ranks: seq<Rank>, abbreviation: string, branch: Option<Branch>): Option<Rank>
  {
    First(ranks, (r: Rank) => r.abbreviation == abbreviation && branch == Some(r.branchType))
  }

  /** The rank every unmatched person falls back on: "Unk" in branch OTHER. */
  function FallbackRank(ranks: seq<Rank>): Option<Rank>
  {
    RankOfAbbreviation(ranks, UnknownRank, Some(OTHER))
  }

  /**
   * `found.orElse(fallback.orElseThrow(...))` as written: Java evaluates the
   * argument of `orElse` first, so a missing "Unk" rank throws even when a
   * rank was found.
   */
  function OrUnknownAsWritten(ranks: seq<Rank>, found: Option<Rank>): Result<Rank, Failure>
  {
    var fallback := FallbackRank(ranks);
    if fallback.None? then Err(RecordNotFound) else Ok(found.UnwrapOr(fallback.value))
  }

  /** The fallback as intended: the "Unk" rank only stands in for a rank that was not found. */
  function OrUnknown(ranks: seq<Rank>, found: Option<Rank>): (r: Result<Rank, Failure>)
    ensures r.Err? ==> r.error == RecordNotFound
  {
    if found.Some? then Ok(found.value)
    else match FallbackRank(ranks)
      case Some(unknown) => Ok(unknown)
      case None => Err(RecordNotFound)
  }

  /**
   * A found rank is kept; otherwise the "Unk" rank of OTHER is used, and
   * the lookup fails exactly when that rank is missing too.
   */
  lemma OrUnknownMeaning(ranks: seq<Rank>, found: Option<Rank>)
    ensures found.Some? ==> OrUnknown(ranks, found) == Ok(found.value)
    ensures found.None? ==>
              (OrUnknown(ranks, found).Err? <==> forall i :: 0 <= i < |ranks| ==> ranks[i].abbreviation != UnknownRank || ranks[i].branchType != OTHER)
    ensures found.None? && OrUnknown(ranks, found).Ok? ==>
              var r := OrUnknown(ranks, found).value;
              r in ranks && r.abbreviation == UnknownRank && r.branchType == OTHER
  {
  }

  /** Where the "Unk" rank exists, the code as written and as intended agree. */
  lemma OrUnknownAgrees(ranks: seq<Rank>, found: Option<Rank>)
    requires FallbackRank(ranks).Some?
    ensures OrUnknownAsWritten(ranks, found) == OrUnknown(ranks, found)
  {
  }

  /** Without an "Unk" rank, a person whose rank is found is still refused as written. */
  lemma FoundRankRefusedAsWritten()
    ensures var ranks := [Rank("SSgt", USAF, "E-5")];
            var found := RankOfAbbreviation(ranks, "SSgt", Some(USAF));
            found == Some(ranks[0])
            && OrUnknownAsWritten(ranks, found) == Err(RecordNotFound)
            && OrUnknown(ranks, found) == Ok(ranks[0])
  {
    var ranks := [Rank("SSgt", USAF, "E-5")];
    assert "SSgt"[0] != UnknownRank[0];
    assert FallbackRank(ranks) == None;
  }

  // ---------------------------------------------------------------------
  // Persons and their metadata.

  /** Metadata values may be null. */
  type Metadata = map<string, Option<string>>

  datatype PersonDto = PersonDto(id: Uuid, email: string, dodid: string, rank: string, branch: Option<Branch>,
                                 meta: Option<Metadata>)

  datatype Person = Person(id: Uuid, email: string, dodid: string, rank: Rank, metadata: Metadata)

  /**
   * `convertToEntity`: the rank named by the abbreviation and branch, or
   * the "Unk" rank; the metadata is not carried over.
   */
  function ConvertToEntity(dto: PersonDto, ranks: seq<Rank>): (r: Result<Person, Failure>)
    ensures r.Ok? ==> r.value.id == dto.id && r.value.email == dto.email && r.value.dodid == dto.dodid
                      && r.value.metadata == map[]
  {
    match OrUnknown(ranks, RankOfAbbreviation(ranks, dto.rank, dto.branch))
    case Err(e) => Err(e)
    case Ok(rank) => Ok(Person(dto.id, dto.email, dto.dodid, rank, map[]))
  }

  /**
   * The entity's rank has the person's abbreviation and branch when the
   * repository has one; otherwise it is "Unk" of OTHER; with neither the
   * conversion is not found.
   */
  lemma ConvertToEntityRank(dto: PersonDto, ranks: seq<Rank>)
    ensures var r := ConvertToEntity(dto, ranks);
            (r.Err? <==> RankOfAbbreviation(ranks, dto.rank, dto.branch).None? && FallbackRank(ranks).None?)
            && (r.Err? ==> r.error == RecordNotFound)
            && (r.Ok? ==> r.value.rank in ranks
                          && ((r.value.rank.abbreviation == dto.rank && dto.branch == Some(r.value.rank.branchType))
                              || (RankOfAbbreviation(ranks, dto.rank, dto.branch).None?
                                  && r.value.rank.abbreviation == UnknownRank && r.value.rank.branchType == OTHER)))
  {
  }

  /** The properties a branch's metadata may carry; OTHER allows none. */
  function AllowedProperties(fieldsOf: Branch -> set<string>, branch: Branch): (r: set<string>)
    ensures branch == OTHER ==> r == {}
  {
    if branch == OTHER then {} else fieldsOf(branch)
  }

  /** The `forEach` of `checkValidMetadataProperties`: the keys the branch does not allow. */
  method UnknownProperties(allowed: set<string>, metadata: Metadata) returns (unknown: set<string>)
    ensures unknown == metadata.Keys - allowed
  {
    unknown := {};
    var pending := metadata.Keys;
    while pending != {}
      invariant pending <= metadata.Keys
      invariant unknown == (metadata.Keys - pending) - allowed
      decreases pending
    {
      var key :| key in pending;
      if key !in allowed {
        unknown := unknown + {key};
      }
      pending := pending - {key};
    }
  }

  /** `checkValidMetadataProperties`: a missing branch counts as OTHER. */
  function CheckValidMetadataProperties(fieldsOf: Branch -> set<string>, branch: Option<Branch>, metadata: Option<Metadata>)
    : (r: Result<(), Failure>)
    ensures r.Err? ==> r.error == InvalidRecordUpdateRequest
  {
    if metadata.None? then Ok(())
    else if metadata.value.Keys - AllowedProperties(fieldsOf, branch.UnwrapOr(OTHER)) == {} then Ok(())
    else Err(InvalidRecordUpdateRequest)
  }

  /**
   * The check passes exactly when there is no metadata or every key is
   * allowed for the branch; a person without a branch, or of OTHER, may
   * carry no metadata at all.
   */
  lemma CheckValidMetadataMeaning(fieldsOf: Branch -> set<string>, branch: Option<Branch>, metadata: Option<Metadata>)
    ensures CheckValidMetadataProperties(fieldsOf, branch, metadata).Ok?
            <==> metadata.None? || forall key :: key in metadata.value ==> key in AllowedProperties(fieldsOf, branch.UnwrapOr(OTHER))
    ensures (branch.None? || branch == Some(OTHER)) && metadata.Some? && metadata.value != map[] ==>
              CheckValidMetadataProperties(fieldsOf, branch, metadata).Err?
  {
    if metadata.Some? {
      var allowed := AllowedProperties(fieldsOf, branch.UnwrapOr(OTHER));
      var unknown := metadata.value.Keys - allowed;
      if unknown == {} {
        forall key | key in metadata.value
          ensures key in allowed
        {
          assert key !in unknown;
        }
      } else {
        var key :| key in unknown;
        assert key in metadata.value && key !in allowed;
      }
      if metadata.value != map[] && (branch.None? || branch == Some(OTHER)) {
        var key :| key in metadata.value;
        assert key in unknown;
      }
    }
  }

  // ---------------------------------------------------------------------
  // The metadata update.

  /** The stored metadata with the incoming non-null values of `keys` written over it or added. */
  function Overlay(stored: Metadata, incoming: Metadata, keys: set<string>): (r: Metadata)
    ensures r.Keys == stored.Keys + (set k | k in keys && k in incoming && incoming[k].Some?)
  {
    map k | k in stored.Keys + (set k | k in keys && k in incoming && incoming[k].Some?)
      :: if k in keys && k in incoming && incoming[k].Some? then incoming[k] else stored[k]
  }

  /** The incoming keys that delete a stored entry: those sent with a null value. */
  function NullKeys(stored: Metadata, incoming: Metadata, keys: set<string>): set<string>
  {
    set k | k in keys && k in incoming && k in stored && incoming[k].None?
  }

  /**
   * The stored entries the update leaves out, all of them when it has no
   * metadata. These are also all the deletions the code schedules as
   * written: its second loop looks an incoming key up among the entity's
   * entries with `==`, that is by String identity, and a key read back
   * from the database is a different object from the request's key, so
   * that loop finds no stored entry.
   */
  function Missing(stored: Metadata, incoming: Option<Metadata>): (r: set<string>)
    ensures r <= stored.Keys
  {
    if incoming.None? then stored.Keys else set k | k in stored && k !in incoming.value
  }

  /**
   * `updateMetadata`'s two loops as intended: the entity carries the stored
   * entries with the incoming values written over them; an entry is
   * scheduled for deletion when the update lacks its key (or has no
   * metadata at all), or sends its key with a null value.
   */
  function MetadataDiff(stored: Metadata, incoming: Option<Metadata>): (r: (Metadata, set<string>))
  {
    match incoming
    case None => (stored, stored.Keys)
    case Some(m) => (Overlay(stored, m, m.Keys), Missing(stored, incoming) + NullKeys(stored, m, m.Keys))
  }

  /** The non-null entries of the update: what a person's metadata should be afterwards. */
  function NonNull(incoming: Option<Metadata>): Metadata
  {
    match incoming
    case None => map[]
    case Some(m) => map k | k in m && m[k].Some? :: m[k]
  }

  /**
   * Saving the entity and then deleting the scheduled entries leaves exactly
   * the update's non-null entries; only stored entries are deleted.
   */
  lemma MetadataDiffMeaning(stored: Metadata, incoming: Option<Metadata>)
    ensures var (entity, toDelete) := MetadataDiff(stored, incoming);
            toDelete <= stored.Keys
            && entity - toDelete == NonNull(incoming)
  {
    var (entity, toDelete) := MetadataDiff(stored, incoming);
    if incoming.Some? {
      var m := incoming.value;
      forall k | k in entity
        ensures (k in m && m[k].Some?) || k in toDelete
      {
        if k !in m || m[k].None? {
          assert k in stored;
        }
      }
      assert (entity - toDelete).Keys == NonNull(incoming).Keys;
    }
  }

  /** Sending the same metadata again changes nothing further. */
  lemma MetadataDiffIdempotent(stored: Metadata, incoming: Option<Metadata>)
    ensures var after := MetadataDiff(stored, incoming);
            var again := MetadataDiff(after.0 - after.1, incoming);
            again.0 - again.1 == after.0 - after.1
  {
    var after := MetadataDiff(stored, incoming);
    MetadataDiffMeaning(stored, incoming);
    var again := MetadataDiff(after.0 - after.1, incoming);
    MetadataDiffMeaning(after.0 - after.1, incoming);
  }

  /** A stored property sent with a null value survives the update as written, and is deleted as intended. */
  lemma NullPropertyKeptAsWritten()
    ensures var stored: Metadata := map["afsc" := Some("99A")];
            var incoming: Option<Metadata> := Some(map["afsc" := None]);
            "afsc" !in Missing(stored, incoming)
            && "afsc" in MetadataDiff(stored, incoming).1
            && "afsc" !in NonNull(incoming)
  {
    var incoming: Metadata := map["afsc" := None];
    assert "afsc" in NullKeys(map["afsc" := Some("99A")], incoming, incoming.Keys);
  }

  /** Writing one more incoming key over the entity's entries. */
  lemma OverlayStep(stored: Metadata, incoming: Metadata, keys: set<string>, k: string)
    requires k in incoming && k !in keys
    ensures Overlay(stored, incoming, keys + {k})
            == if incoming[k].Some? then Overlay(stored, incoming, keys)[k := incoming[k]] else Overlay(stored, incoming, keys)
  {
  }

  /** Matching one more incoming key: a null value on a stored key schedules it for deletion. */
  lemma NullKeysStep(stored: Metadata, incoming: Metadata, keys: set<string>, k: string)
    requires k in incoming && k !in keys
    ensures NullKeys(stored, incoming, keys + {k})
            == if k in stored && incoming[k].None? then NullKeys(stored, incoming, keys) + {k} else NullKeys(stored, incoming, keys)
  {
  }

  /** The first loop of `updateMetadata`: every stored entry is copied into the entity. */
  method CopyStored(stored: Metadata, incoming: Option<Metadata>) returns (entity: Metadata, toDelete: set<string>)
    ensures entity == stored && toDelete == Missing(stored, incoming)
  {
    entity := map[];
    toDelete := {};
    var pending := stored.Keys;
    while pending != {}
      invariant pending <= stored.Keys
      invariant entity == map k | k in stored.Keys - pending :: stored[k]
      invariant toDelete == set k | k in stored.Keys - pending && (incoming.None? || k !in incoming.value)
      decreases pending
    {
      var key :| key in pending;
      entity := entity[key := stored[key]];
      if incoming.None? || key !in incoming.value {
        toDelete := toDelete + {key};
      }
      pending := pending - {key};
    }
  }

  /**
   * The second loop of `updateMetadata`: each incoming entry is matched by
   * key (with `equals`) against the entity's entries.
   */
  method MatchIncoming(stored: Metadata, incoming: Metadata, missing: set<string>) returns (entity: Metadata, toDelete: set<string>)
    ensures entity == Overlay(stored, incoming, incoming.Keys)
    ensures toDelete == missing + NullKeys(stored, incoming, incoming.Keys)
  {
    entity := stored;
    toDelete := missing;
    var done: set<string> := {};
    assert NullKeys(stored, incoming, done) == {};
    assert Overlay(stored, incoming, done) == stored;
    var todo := incoming.Keys;
    while todo != {}
      invariant todo <= incoming.Keys && done == incoming.Keys - todo
      invariant entity == Overlay(stored, incoming, done)
      invariant toDelete == missing + NullKeys(stored, incoming, done)
      decreases todo
    {
      var key :| key in todo;
      OverlayStep(stored, incoming, done, key);
      NullKeysStep(stored, incoming, done, key);
      if key in entity {
        if incoming[key].None? {
          toDelete := toDelete + {key};
        } else {
          entity := entity[key := incoming[key]];
        }
      } else if incoming[key].Some? {
        entity := entity[key := incoming[key]];
      }
      done := done + {key};
      todo := todo - {key};
    }
    assert done == incoming.Keys;
  }

  /** `updateMetadata`'s two loops. */
  method UpdateMetadata(stored: Metadata, incoming: Option<Metadata>) returns (entity: Metadata, toDelete: set<string>)
    ensures (entity, toDelete) == MetadataDiff(stored, incoming)
  {
    entity, toDelete := CopyStored(stored, incoming);
    if incoming.Some? {
      entity, toDelete := MatchIncoming(stored, incoming.value, toDelete);
    }
  }

  // ---------------------------------------------------------------------
  // Creating, updating and finding persons.

  /** The uniqueness service's answers for an entity; its implementation is not part of this model. */
  datatype UniqueChecks = UniqueChecks(emailIsUnique: Person -> bool, dodidIsUnique: Person -> bool)

  /** Why `persistPerson` refuses a person, in the order the checks run. */
  datatype Rejection = RankMissing | IdTaken | EmailTaken | DodidTaken | PropertiesUnknown

  function FailureOf(r: Rejection): Failure
  {
    match r
    case RankMissing => RecordNotFound
    case IdTaken | EmailTaken | DodidTaken => ResourceAlreadyExists
    case PropertiesUnknown => InvalidRecordUpdateRequest
  }

  predicate IdTakenIn(persons: seq<Person>, id: Uuid)
  {
    exists i :: 0 <= i < |persons| && persons[i].id == id
  }

  /** The stored form of a new person's metadata, null values included. */
  function InitialMetadata(meta: Option<Metadata>): Metadata
  {
    if meta.None? then map[] else meta.value
  }

  /**
   * `persistPerson`: the rank is resolved, then the id, the email, the
   * DoD id and the metadata keys are checked in that order; the person is
   * stored with the metadata as sent.
   */
  function PersistOutcome(persons: seq<Person>, dto: PersonDto, ranks: seq<Rank>, checks: UniqueChecks,
                          fieldsOf: Branch -> set<string>): (r: Result<Person, Rejection>)
  {
    match ConvertToEntity(dto, ranks)
    case Err(_) => Err(RankMissing)
    case Ok(entity) =>
      if IdTakenIn(persons, entity.id) then Err(IdTaken)
      else if !checks.emailIsUnique(entity) then Err(EmailTaken)
      else if !checks.dodidIsUnique(entity) then Err(DodidTaken)
      else if CheckValidMetadataProperties(fieldsOf, dto.branch, dto.meta).Err? then Err(PropertiesUnknown)
      else Ok(entity.(metadata := InitialMetadata(dto.meta)))
  }

  /** No two stored persons share an id. */
  ghost predicate IdsUnique(persons: seq<Person>)
  {
    forall i, j :: 0 <= i < j < |persons| ==> persons[i].id != persons[j].id
  }

  /**
   * A stored person has the requested id, is new, and carries only
   * metadata its branch allows; appending it keeps ids unique. An id
   * already stored is refused whatever the other checks say.
   */
  lemma PersistOutcomeMeaning(persons: seq<Person>, dto: PersonDto, ranks: seq<Rank>, checks: UniqueChecks,
                              fieldsOf: Branch -> set<string>)
    requires IdsUnique(persons)
    ensures var r := PersistOutcome(persons, dto, ranks, checks, fieldsOf);
            (r.Ok? ==> r.value.id == dto.id && !IdTakenIn(persons, dto.id)
                       && IdsUnique(persons + [r.value])
                       && checks.emailIsUnique(r.value.(metadata := map[])) && checks.dodidIsUnique(r.value.(metadata := map[]))
                       && forall key :: key in r.value.metadata ==> key in AllowedProperties(fieldsOf, dto.branch.UnwrapOr(OTHER)))
            && (IdTakenIn(persons, dto.id) ==> r.Err? && r.error in {RankMissing, IdTaken})
  {
    var r := PersistOutcome(persons, dto, ranks, checks, fieldsOf);
    if r.Ok? {
      CheckValidMetadataMeaning(fieldsOf, dto.branch, dto.meta);
      var all := persons + [r.value];
      forall i, j | 0 <= i < j < |all|
        ensures all[i].id != all[j].id
      {
        if j == |persons| {
          assert all[i] == persons[i];
        }
      }
    }
  }

  /** The lookups of `getPersonFilter`. */
  datatype FindType = Dodid | Email

  function KeyOf(p: Person, findType: FindType): string
  {
    if findType == Dodid then p.dodid else p.email
  }

  /**
   * `getPersonFilter`: a missing type or value is a bad request; otherwise
   * the person whose DoD id or email equals the value ignoring case, or not
   * found.
   */
  function GetPersonFilter(persons: seq<Person>, findType: Option<FindType>, value: Option<string>): (r: Result<Person, Failure>)
  {
    if findType.None? || value.None? then Err(BadRequest)
    else match First(persons, (p: Person) => EqualsIgnoreCase(KeyOf(p, findType.value), value.value))
      case Some(p) => Ok(p)
      case None => Err(RecordNotFound)
  }

  /**
   * The guard comes first; a found person is stored and matches the value
   * ignoring case, and not found means no stored person does.
   */
  lemma GetPersonFilterMeaning(persons: seq<Person>, findType: Option<FindType>, value: Option<string>)
    ensures var r := GetPersonFilter(persons, findType, value);
            (r == Err(BadRequest) <==> findType.None? || value.None?)
            && (r.Ok? ==> r.value in persons && EqualsIgnoreCase(KeyOf(r.value, findType.value), value.value))
            && (r == Err(RecordNotFound) <==>
                  findType.Some? && value.Some?
                  && forall i :: 0 <= i < |persons| ==> !EqualsIgnoreCase(KeyOf(persons[i], findType.value), value.value))
  {
  }

  /** A login as the platform describes it. */
  datatype PlatformJwt = PlatformJwt(givenName: string, familyName: string, email: string, dodId: string,
                                     affiliation: Option<string>, rank: string)

  /**
   * The person `createPersonFromJwt` builds: the branch of the affiliation
   * and the abbreviation of the first rank with the login's pay grade in
   * that branch, or of the "Unk" rank.
   */
  function PersonFromJwt(jwt: PlatformJwt, ranks: seq<Rank>, newId: Uuid): (r: Result<PersonDto, Failure>)
  {
    var branch := BranchOfAffiliation(jwt.affiliation);
    match OrUnknown(ranks, First(ranks, (r: Rank) => r.payGrade == jwt.rank && r.branchType == branch))
    case Err(e) => Err(e)
    case Ok(rank) => Ok(PersonDto(newId, jwt.email, jwt.dodId, rank.abbreviation, Some(branch), None))
  }

  /**
   * The new person keeps the login's email and DoD id, and its rank is one
   * with the login's pay grade in the person's branch, or "Unk".
   */
  lemma PersonFromJwtMeaning(jwt: PlatformJwt, ranks: seq<Rank>, newId: Uuid)
    ensures var r := PersonFromJwt(jwt, ranks, newId);
            r.Ok? ==> r.value.email == jwt.email && r.value.dodid == jwt.dodId
                      && r.value.branch == Some(BranchOfAffiliation(jwt.affiliation))
                      && r.value.meta.None?
                      && exists k :: 0 <= k < |ranks| && ranks[k].abbreviation == r.value.rank
                                     && ((ranks[k].payGrade == jwt.rank && ranks[k].branchType == BranchOfAffiliation(jwt.affiliation))
                                         || (ranks[k].abbreviation == UnknownRank && ranks[k].branchType == OTHER))
  {
    var branch := BranchOfAffiliation(jwt.affiliation);
    var found := First(ranks, (r: Rank) => r.payGrade == jwt.rank && r.branchType == branch);
    var r := PersonFromJwt(jwt, ranks, newId);
    if r.Ok? {
      var rank := OrUnknown(ranks, found).value;
      assert rank in ranks;
      var k :| 0 <= k < |ranks| && ranks[k] == rank;
    }
  }

  /** The person table. */
  class PersonRepository {
    var persons: seq<Person>

    ghost predicate Valid()
      reads this
    {
      IdsUnique(persons)
    }

    constructor()
      ensures Valid() && persons == []
    {
      persons := [];
    }

    /** `persistPerson`: the person and its metadata are saved when every check passes. */
    method PersistPerson(dto: PersonDto, ranks: seq<Rank>, checks: UniqueChecks, fieldsOf: Branch -> set<string>)
      returns (r: Result<Person, Failure>)
      requires Valid()
      modifies this
      ensures Valid()
      ensures var outcome := PersistOutcome(old(persons), dto, ranks, checks, fieldsOf);
              (outcome.Err? ==> r == Err(FailureOf(outcome.error)) && persons == old(persons))
              && (outcome.Ok? ==> r == Ok(outcome.value) && persons == old(persons) + [outcome.value])
    {
      PersistOutcomeMeaning(persons, dto, ranks, checks, fieldsOf);
      var outcome := PersistOutcome(persons, dto, ranks, checks, fieldsOf);
      if outcome.Err? {
        return Err(FailureOf(outcome.error));
      }
      persons := persons + [outcome.value];
      r := Ok(outcome.value);
    }

    /** `createPersonFromJwt`: the person built from the login, persisted. */
    method CreatePersonFromJwt(jwt: PlatformJwt, ranks: seq<Rank>, newId: Uuid, checks: UniqueChecks,
                               fieldsOf: Branch -> set<string>) returns (r: Result<Person, Failure>)
      requires Valid()
      modifies this
      ensures Valid()
      ensures PersonFromJwt(jwt, ranks, newId).Err? ==> r == Err(RecordNotFound) && persons == old(persons)
      ensures PersonFromJwt(jwt, ranks, newId).Ok? ==>
                var outcome := PersistOutcome(old(persons), PersonFromJwt(jwt, ranks, newId).value, ranks, checks, fieldsOf);
                (outcome.Err? ==> r == Err(FailureOf(outcome.error)) && persons == old(persons))
                && (outcome.Ok? ==> r == Ok(outcome.value) && persons == old(persons) + [outcome.value])
    {
      var dto := PersonFromJwt(jwt, ranks, newId);
      if dto.Err? {
        return Err(dto.error);
      }
      r := PersistPerson(dto.value, ranks, checks, fieldsOf);
    }

    /** The position of the person with an id. */
    method FindById(id: Uuid) returns (r: Option<nat>)
      ensures r.None? <==> !IdTakenIn(persons, id)
      ensures r.Some? ==> r.value < |persons| && persons[r.value].id == id
    {
      for i := 0 to |persons|
        invariant forall j :: 0 <= j < i ==> persons[j].id != id
      {
        if persons[i].id == id {
          return Some(i);
        }
      }
      r := None;
    }

    /**
     * `updatePerson`: the rank is resolved, then the person must exist, the
     * email and DoD id be unique and the metadata keys allowed; the stored
     * person is replaced by the update, carrying the update's non-null
     * metadata.
     */
    method UpdatePerson(id: Uuid, dto: PersonDto, ranks: seq<Rank>, checks: UniqueChecks, fieldsOf: Branch -> set<string>)
      returns (r: Result<Person, Failure>)
      requires Valid()
      modifies this
      ensures Valid()
      ensures r.Err? ==> persons == old(persons)
      ensures ConvertToEntity(dto, ranks).Err? ==> r == Err(RecordNotFound)
      ensures ConvertToEntity(dto, ranks).Ok? && !IdTakenIn(old(persons), id) ==> r == Err(RecordNotFound)
      ensures r.Ok? ==>
                var entity := ConvertToEntity(dto, ranks).value.(id := id);
                IdTakenIn(old(persons), id)
                && checks.emailIsUnique(entity) && checks.dodidIsUnique(entity)
                && CheckValidMetadataProperties(fieldsOf, dto.branch, dto.meta).Ok?
                && r.value == entity.(metadata := NonNull(dto.meta))
                && |persons| == |old(persons)|
                && forall i :: 0 <= i < |persons| ==> persons[i] == if old(persons)[i].id == id then r.value else old(persons)[i]
    {
      var converted := ConvertToEntity(dto, ranks);
      if converted.Err? {
        return Err(converted.error);
      }
      var entity := converted.value.(id := id);
      var index := FindById(id);
      if index.None? {
        return Err(RecordNotFound);
      }
      if !checks.emailIsUnique(entity) {
        return Err(InvalidRecordUpdateRequest);
      }
      if !checks.dodidIsUnique(entity) {
        return Err(ResourceAlreadyExists);
      }
      if CheckValidMetadataProperties(fieldsOf, dto.branch, dto.meta).Err? {
        return Err(InvalidRecordUpdateRequest);
      }
      var metadata, toDelete := UpdateMetadata(persons[index.value].metadata, dto.meta);
      MetadataDiffMeaning(persons[index.value].metadata, dto.meta);
      var updated := entity.(metadata := metadata - toDelete);
      ghost var before := persons;
      persons := persons[index.value := updated];
      forall i | 0 <= i < |persons|
        ensures persons[i] == if before[i].id == id then updated else before[i]
      {
        if i != index.value {
          assert before[i].id != id;
        }
      }
      r := Ok(updated);
    }
  }
}
