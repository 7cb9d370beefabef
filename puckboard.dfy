/**
 * The Puckboard import: a rank lookup built from Puckboard's branch dump,
 * the branch and unit type inferred for each Puckboard organization, and the
 * pass over organizations and personnel that creates or updates records and
 * reports a status per id.
 */
module Puckboard {
  import opened Wrappers
  import opened Text
  import PersonService
  import Organizations

  type Uuid = nat

  /** Puckboard's branch id of the Marine Corps. */
  const MarineBranch: int := 2

  // ---------------------------------------------------------------------
  // Rank lookup
  // ---------------------------------------------------------------------

  /** One rank of Puckboard's branch dump: its id (as text) and abbreviation. */
  datatype RankNode = RankNode(rankId: string, rankAbbr: string)

  /** One branch of the dump with its three rank lists. */
  datatype BranchNode = BranchNode(enlistedRanks: seq<RankNode>, officerRanks: seq<RankNode>, warrantOfficerRanks: seq<RankNode>)

  /** The rank lists of a branch, in the order they are read. */
  function RankSets(b: BranchNode): (r: seq<seq<RankNode>>)
    ensures |r| == 3
  {
    [b.enlistedRanks, b.officerRanks, b.warrantOfficerRanks]
  }

  /** The lists one after the other. */
  function Flatten(lists: seq<seq<RankNode>>): seq<RankNode>
  {
    if lists == [] then [] else Flatten(lists[..|lists| - 1]) + lists[|lists| - 1]
  }

  /** Every rank of the dump, branch by branch, in the order they are read. */
  function RankNodes(branches: seq<BranchNode>): seq<RankNode>
  {
    if branches == [] then [] else RankNodes(branches[..|branches| - 1]) + Flatten(RankSets(branches[|branches| - 1]))
  }

  /** The lookup after putting every rank in turn: a later rank id overwrites an earlier one. */
  function Lookup(ranks: seq<RankNode>): map<string, string>
  {
    if ranks == [] then map[]
    else
      var last := ranks[|ranks| - 1];
      Lookup(ranks[..|ranks| - 1])[last.rankId := last.rankAbbr]
  }

  /**
   * The lookup holds exactly the rank ids of the dump, each mapped to the
   * abbreviation of its last occurrence.
   */
  lemma {:induction false} LookupMeaning(ranks: seq<RankNode>)
    ensures forall k :: k in Lookup(ranks) <==> exists i :: 0 <= i < |ranks| && ranks[i].rankId == k
    ensures forall i :: 0 <= i < |ranks| && (forall j :: i < j < |ranks| ==> ranks[j].rankId != ranks[i].rankId) ==>
              Lookup(ranks)[ranks[i].rankId] == ranks[i].rankAbbr
  {
    if ranks != [] {
      var n := |ranks| - 1;
      var init := ranks[..n];
      LookupMeaning(init);
      assert forall i :: 0 <= i < n ==> init[i] == ranks[i];
      forall k
        ensures k in Lookup(ranks) <==> exists i :: 0 <= i < |ranks| && ranks[i].rankId == k
      {
        if k in Lookup(init) {
          var i :| 0 <= i < |init| && init[i].rankId == k;
          assert ranks[i].rankId == k;
        }
      }
    }
  }

  /** The lookup after `seen` and then `more`: `more` put in turn onto the lookup after `seen`. */
  lemma {:induction false} LookupSnoc(seen: seq<RankNode>, rank: RankNode)
    ensures Lookup(seen + [rank]) == Lookup(seen)[rank.rankId := rank.rankAbbr]
  {
    assert (seen + [rank])[..|seen|] == seen;
  }

  /** The inner loop of `processBranchInfo`: every rank of one list put into the lookup in turn. */
  method PutRanks(ranks: map<string, string>, ghost seen: seq<RankNode>, rankSet: seq<RankNode>) returns (allRanks: map<string, string>)
    requires ranks == Lookup(seen)
    ensures allRanks == Lookup(seen + rankSet)
  {
    allRanks := ranks;
    assert seen + rankSet[..0] == seen;
    for j := 0 to |rankSet|
      invariant allRanks == Lookup(seen + rankSet[..j])
    {
      var rank := rankSet[j];
      allRanks := allRanks[rank.rankId := rank.rankAbbr];
      LookupSnoc(seen + rankSet[..j], rank);
      assert seen + rankSet[..j + 1] == seen + rankSet[..j] + [rank];
    }
    assert rankSet[..|rankSet|] == rankSet;
  }

  /** The three rank lists of one branch, put into the lookup in turn. */
  method PutBranch(ranks: map<string, string>, ghost done: seq<RankNode>, branch: BranchNode) returns (allRanks: map<string, string>)
    requires ranks == Lookup(done)
    ensures allRanks == Lookup(done + Flatten(RankSets(branch)))
  {
    var sets := RankSets(branch);
    allRanks := ranks;
    assert done + Flatten(sets[..0]) == done;
    for s := 0 to 3
      invariant allRanks == Lookup(done + Flatten(sets[..s]))
    {
      allRanks := PutRanks(allRanks, done + Flatten(sets[..s]), sets[s]);
      assert sets[..s + 1][..s] == sets[..s];
      assert done + Flatten(sets[..s + 1]) == done + Flatten(sets[..s]) + sets[s];
    }
    assert sets[..3] == sets;
  }

  /** `processBranchInfo`: every rank list of every branch, put into the lookup in turn. */
  method ProcessBranchInfo(branches: seq<BranchNode>) returns (allRanks: map<string, string>)
    ensures allRanks == Lookup(RankNodes(branches))
  {
    allRanks := map[];
    for i := 0 to |branches|
      invariant allRanks == Lookup(RankNodes(branches[..i]))
    {
      allRanks := PutBranch(allRanks, RankNodes(branches[..i]), branches[i]);
      assert branches[..i + 1][..i] == branches[..i];
    }
    assert branches[..|branches|] == branches;
  }

  /** Every rank of a branch's three lists reaches the lookup unless a later rank has the same id. */
  lemma BranchRanksReachLookup(branches: seq<BranchNode>, i: nat, rank: RankNode)
    requires i < |branches| && rank in Flatten(RankSets(branches[i]))
    ensures rank.rankId in Lookup(RankNodes(branches))
  {
    RankNodesContain(branches, i, rank);
    LookupMeaning(RankNodes(branches));
    var all := RankNodes(branches);
    var k :| 0 <= k < |all| && all[k] == rank;
    assert all[k].rankId == rank.rankId;
  }

  /** The ranks of each branch are among the ranks of the dump. */
  lemma {:induction false} RankNodesContain(branches: seq<BranchNode>, i: nat, rank: RankNode)
    requires i < |branches| && rank in Flatten(RankSets(branches[i]))
    ensures rank in RankNodes(branches)
  {
    var n := |branches| - 1;
    if i < n {
      assert branches[..n][i] == branches[i];
      RankNodesContain(branches[..n], i, rank);
    }
  }

  // ---------------------------------------------------------------------
  // Branch and unit type
  // ---------------------------------------------------------------------

  /** `resolveServiceName`: the Marine Corps for branch id 2, the Air Force otherwise, a missing id included. */
  function ResolveServiceName(branchId: Option<int>): (r: PersonService.Branch)
    ensures r == PersonService.USMC <==> branchId == Some(MarineBranch)
    ensures r != PersonService.USMC ==> r == PersonService.USAF
  {
    if branchId.Some? && branchId.value == MarineBranch then PersonService.USMC else PersonService.USAF
  }

  /**
   * `resolveUnitType`: a lower-cased name containing "squadron" is a
   * squadron, else one containing "wing" is a wing, else (a missing name
   * too) the other-USAF type.
   */
  function ResolveUnitType(name: Option<string>): Organizations.Unit
  {
    if name.Some? && Contains(Lower(name.value), "squadron") then Organizations.Squadron
    else if name.Some? && Contains(Lower(name.value), "wing") then Organizations.Wing
    else Organizations.OtherUsaf
  }

  /** Each of the three types, exactly when the name matches its rule. */
  lemma ResolveUnitTypeMeaning(name: Option<string>)
    ensures ResolveUnitType(name) == Organizations.Squadron <==> name.Some? && Contains(Lower(name.value), "squadron")
    ensures ResolveUnitType(name) == Organizations.Wing <==>
              name.Some? && !Contains(Lower(name.value), "squadron") && Contains(Lower(name.value), "wing")
    ensures ResolveUnitType(name) == Organizations.OtherUsaf <==>
              name.None? || (!Contains(Lower(name.value), "squadron") && !Contains(Lower(name.value), "wing"))
  {
  }

  /** The inferred type is one of three, and "squadron" wins over "wing". */
  lemma ResolveUnitTypeRange(name: Option<string>)
    ensures ResolveUnitType(name) in {Organizations.Squadron, Organizations.Wing, Organizations.OtherUsaf}
    ensures name.Some? && Contains(Lower(name.value), "squadron") && Contains(Lower(name.value), "wing") ==>
              ResolveUnitType(name) == Organizations.Squadron
  {
  }

  // ---------------------------------------------------------------------
  // Statuses
  // ---------------------------------------------------------------------

  /** What became of one organization or person of the dump. */
  datatype Status = Created(name: string) | Updated(name: string) | Problem(name: string, error: Failure)

  /** The status text: "Created - name", "Updated - name" or "Problem - name (message)". */
  function StatusText(s: Status, messageOf: Failure -> string): (r: string)
    ensures s.Created? ==> r == "Created - " + s.name
    ensures s.Updated? ==> r == "Updated - " + s.name
    ensures s.Problem? ==> StartsWith(r, "Problem - " + s.name + " (") && EndsWith(r, messageOf(s.error) + ")")
  {
    match s
    case Created(name) => "Created - " + name
    case Updated(name) => "Updated - " + name
    case Problem(name, error) =>
      var r := "Problem - " + name + " (" + messageOf(error) + ")";
      assert r[..|"Problem - " + name + " ("|] == "Problem - " + name + " (";
      assert r[|r| - |messageOf(error) + ")"|..] == messageOf(error) + ")";
      r
  }

  // ---------------------------------------------------------------------
  // Organizations
  // ---------------------------------------------------------------------

  /** One organization of the dump. */
  datatype OrgNode = OrgNode(id: Uuid, name: string, branchId: Option<int>)

  /** The parts of a stored organization the import sets. */
  datatype OrgRecord = OrgRecord(name: string, branch: PersonService.Branch, orgType: Organizations.Unit, members: set<Uuid>)

  /**
   * What the organization service decides that this model leaves open: the
   * name comparison of its uniqueness check on creation, and the refusal, if
   * any, of `modifyAttributes` when it renames an organization.
   */
  datatype OrgService = OrgService(sameName: (string, string) -> bool, renameRefusal: OrgNode -> Option<Failure>)

  /** Some stored organization already holds the node's name. */
  predicate NameTaken(orgs: map<Uuid, OrgRecord>, node: OrgNode, svc: OrgService)
  {
    exists id :: id in orgs && svc.sameName(orgs[id].name, node.name)
  }

  /**
   * One organization: created with the inferred branch and type when absent,
   * which the service refuses when the name is taken; renamed when present,
   * which the service may refuse.
   */
  function OrgStep(orgs: map<Uuid, OrgRecord>, node: OrgNode, svc: OrgService): (r: Result<(map<Uuid, OrgRecord>, Status), Failure>)
    ensures node.id !in orgs ==> (r.Err? <==> NameTaken(orgs, node, svc))
    ensures node.id !in orgs && r.Err? ==> r.error == ResourceAlreadyExists
    ensures node.id in orgs ==> (r.Err? <==> svc.renameRefusal(node).Some?)
    ensures node.id in orgs && r.Err? ==> r.error == svc.renameRefusal(node).value
    ensures r.Ok? ==> r.value.0.Keys == orgs.Keys + {node.id} && r.value.0[node.id].name == node.name
    ensures r.Ok? ==> r.value.1 == if node.id in orgs then Updated(node.name) else Created(node.name)
    ensures r.Ok? && node.id !in orgs ==>
              r.value.0[node.id] == OrgRecord(node.name, ResolveServiceName(node.branchId), ResolveUnitType(Some(node.name)), {})
    ensures r.Ok? && node.id in orgs ==> r.value.0[node.id] == orgs[node.id].(name := node.name)
    ensures r.Ok? ==> forall id :: id in orgs && id != node.id ==> r.value.0[id] == orgs[id]
  {
    if node.id !in orgs then
      if NameTaken(orgs, node, svc) then Err(ResourceAlreadyExists)
      else
        Ok((orgs[node.id := OrgRecord(node.name, ResolveServiceName(node.branchId), ResolveUnitType(Some(node.name)), {})],
            Created(node.name)))
    else if svc.renameRefusal(node).Some? then Err(svc.renameRefusal(node).value)
    else Ok((orgs[node.id := orgs[node.id].(name := node.name)], Updated(node.name)))
  }

  /**
   * `processOrgInformation` over the dump: the organizations after it, the
   * status per id, and the refusal that aborted it, if any (the organizations
   * before it stay processed).
   */
  function OrgPass(orgs: map<Uuid, OrgRecord>, nodes: seq<OrgNode>, svc: OrgService): (r: (map<Uuid, OrgRecord>, map<Uuid, Status>, Option<Failure>))
  {
    if nodes == [] then (orgs, map[], None)
    else
      var before := OrgPass(orgs, nodes[..|nodes| - 1], svc);
      var last := nodes[|nodes| - 1];
      if before.2.Some? then before
      else match OrgStep(before.0, last, svc)
        case Err(f) => (before.0, before.1, Some(f))
        case Ok(step) => (step.0, before.1[last.id := step.1], None)
  }

  /** The node at `i` is the last one with its id. */
  predicate LastWithId(nodes: seq<OrgNode>, i: nat)
    requires i < |nodes|
  {
    forall j :: i < j < |nodes| ==> nodes[j].id != nodes[i].id
  }

  /** The ids of the dump. */
  function Ids(nodes: seq<OrgNode>): set<Uuid>
  {
    if nodes == [] then {} else Ids(nodes[..|nodes| - 1]) + {nodes[|nodes| - 1].id}
  }

  /** An id is among the ids of the dump iff some node carries it. */
  lemma {:induction false} IdsMeaning(nodes: seq<OrgNode>, id: Uuid)
    ensures id in Ids(nodes) <==> exists i :: 0 <= i < |nodes| && nodes[i].id == id
  {
    if nodes != [] {
      var n := |nodes| - 1;
      IdsMeaning(nodes[..n], id);
      if id in Ids(nodes[..n]) {
        var i :| 0 <= i < n && nodes[..n][i].id == id;
        assert nodes[i].id == id;
      } else if exists i :: 0 <= i < |nodes| && nodes[i].id == id {
        var i :| 0 <= i < |nodes| && nodes[i].id == id;
        if i < n {
          assert nodes[..n][i].id == id;
        }
      }
    }
  }

  /**
   * A pass that is not aborted stores the stored ids plus the dump's and
   * reports the dump's; an aborted one stores and reports no more than that.
   */
  lemma {:induction false} OrgPassKeys(orgs: map<Uuid, OrgRecord>, nodes: seq<OrgNode>, svc: OrgService)
    ensures var r := OrgPass(orgs, nodes, svc);
            orgs.Keys <= r.0.Keys <= orgs.Keys + Ids(nodes) && r.1.Keys <= Ids(nodes)
            && (r.2.None? ==> r.0.Keys == orgs.Keys + Ids(nodes) && r.1.Keys == Ids(nodes))
  {
    if nodes != [] {
      OrgPassKeys(orgs, nodes[..|nodes| - 1], svc);
    }
  }

  /** Stored organizations the dump does not name are untouched by the pass, aborted or not. */
  lemma {:induction false} OrgPassUntouched(orgs: map<Uuid, OrgRecord>, nodes: seq<OrgNode>, svc: OrgService, id: Uuid)
    requires id in orgs && forall i :: 0 <= i < |nodes| ==> nodes[i].id != id
    ensures id in OrgPass(orgs, nodes, svc).0 && OrgPass(orgs, nodes, svc).0[id] == orgs[id]
  {
    if nodes != [] {
      var n := |nodes| - 1;
      assert forall i :: 0 <= i < n ==> nodes[..n][i] == nodes[i];
      OrgPassUntouched(orgs, nodes[..n], svc, id);
    }
  }

  /** Once an organization aborts the pass, the later ones change nothing. */
  lemma {:induction false} OrgPassStops(orgs: map<Uuid, OrgRecord>, nodes: seq<OrgNode>, svc: OrgService, k: nat)
    requires k <= |nodes| && OrgPass(orgs, nodes[..k], svc).2.Some?
    ensures OrgPass(orgs, nodes, svc) == OrgPass(orgs, nodes[..k], svc)
  {
    if k < |nodes| {
      var n := |nodes| - 1;
      assert nodes[..n][..k] == nodes[..k];
      OrgPassStops(orgs, nodes[..n], svc, k);
    } else {
      assert nodes[..k] == nodes;
    }
  }

  /** The first organization the service refuses aborts the whole pass with that refusal. */
  lemma OrgPassAbortsAt(orgs: map<Uuid, OrgRecord>, nodes: seq<OrgNode>, svc: OrgService, i: nat)
    requires i < |nodes| && OrgPass(orgs, nodes[..i], svc).2.None?
    requires OrgStep(OrgPass(orgs, nodes[..i], svc).0, nodes[i], svc).Err?
    ensures OrgPass(orgs, nodes, svc).2 == Some(OrgStep(OrgPass(orgs, nodes[..i], svc).0, nodes[i], svc).error)
  {
    assert nodes[..i + 1][..i] == nodes[..i];
    OrgPassStops(orgs, nodes, svc, i + 1);
  }

  /**
   * A new organization whose name a stored organization outside the dump
   * already holds aborts the pass: the import never reaches the personnel.
   */
  lemma OrgPassTakenNameAborts(orgs: map<Uuid, OrgRecord>, nodes: seq<OrgNode>, svc: OrgService, i: nat, holder: Uuid)
    requires i < |nodes| && nodes[i].id !in orgs && !SeenBefore(nodes, i)
    requires holder in orgs && svc.sameName(orgs[holder].name, nodes[i].name)
    requires forall j :: 0 <= j < |nodes| ==> nodes[j].id != holder
    ensures OrgPass(orgs, nodes, svc).2.Some?
  {
    var init := nodes[..i];
    var before := OrgPass(orgs, init, svc);
    if before.2.Some? {
      OrgPassStops(orgs, nodes, svc, i);
    } else {
      assert forall j :: 0 <= j < i ==> init[j] == nodes[j];
      OrgPassUntouched(orgs, init, svc, holder);
      OrgPassKeys(orgs, init, svc);
      IdsMeaning(init, nodes[i].id);
      assert nodes[i].id !in before.0;
      assert NameTaken(before.0, nodes[i], svc);
      OrgPassAbortsAt(orgs, nodes, svc, i);
    }
  }

  /** Some earlier node carries the same id as the node at `i`. */
  predicate SeenBefore(nodes: seq<OrgNode>, i: nat)
    requires i < |nodes|
  {
    exists j :: 0 <= j < i && nodes[j].id == nodes[i].id
  }

  /** The status and name a pass that is not aborted gives the last node of the dump. */
  lemma OrgPassFinal(orgs: map<Uuid, OrgRecord>, nodes: seq<OrgNode>, svc: OrgService)
    requires nodes != []
    ensures var r := OrgPass(orgs, nodes, svc);
            var i := |nodes| - 1;
            r.2.None? ==>
              nodes[i].id in r.0 && nodes[i].id in r.1
              && r.0[nodes[i].id].name == nodes[i].name
              && r.1[nodes[i].id] == if nodes[i].id in orgs || SeenBefore(nodes, i)
                                     then Updated(nodes[i].name) else Created(nodes[i].name)
  {
    var n := |nodes| - 1;
    var init := nodes[..n];
    var last := nodes[n];
    var before := OrgPass(orgs, init, svc);
    OrgPassKeys(orgs, init, svc);
    IdsMeaning(init, last.id);
    if SeenBefore(nodes, n) {
      var j :| 0 <= j < n && nodes[j].id == last.id;
      assert init[j].id == last.id;
    }
    if last.id in Ids(init) {
      var j :| 0 <= j < n && init[j].id == last.id;
      assert nodes[j].id == last.id;
    }
    if before.2.None? {
      assert last.id in before.0 <==> last.id in orgs || SeenBefore(nodes, n);
    }
  }

  /**
   * After a pass that is not aborted the last node with a given id names its
   * record, and its status is "Updated" when the id was stored or came
   * earlier in the dump and "Created" otherwise.
   */
  lemma {:induction false} OrgPassLast(orgs: map<Uuid, OrgRecord>, nodes: seq<OrgNode>, svc: OrgService, i: nat)
    requires i < |nodes| && LastWithId(nodes, i)
    ensures var r := OrgPass(orgs, nodes, svc);
            r.2.None? ==>
              nodes[i].id in r.0 && nodes[i].id in r.1
              && r.0[nodes[i].id].name == nodes[i].name
              && r.1[nodes[i].id] == if nodes[i].id in orgs || SeenBefore(nodes, i)
                                     then Updated(nodes[i].name) else Created(nodes[i].name)
    decreases |nodes|, 1
  {
    if i == |nodes| - 1 {
      OrgPassFinal(orgs, nodes, svc);
    } else {
      OrgPassLastEarlier(orgs, nodes, svc, i);
    }
  }

  /** The case of `OrgPassLast` where a later node (with another id) ends the dump. */
  lemma {:induction false} OrgPassLastEarlier(orgs: map<Uuid, OrgRecord>, nodes: seq<OrgNode>, svc: OrgService, i: nat)
    requires i < |nodes| - 1 && LastWithId(nodes, i)
    ensures var r := OrgPass(orgs, nodes, svc);
            r.2.None? ==>
              nodes[i].id in r.0 && nodes[i].id in r.1
              && r.0[nodes[i].id].name == nodes[i].name
              && r.1[nodes[i].id] == if nodes[i].id in orgs || SeenBefore(nodes, i)
                                     then Updated(nodes[i].name) else Created(nodes[i].name)
    decreases |nodes|, 0
  {
    var init := nodes[..|nodes| - 1];
    DropLastKeeps(nodes, i);
    OrgPassLast(orgs, init, svc, i);
    OrgPassOtherId(orgs, nodes, svc, nodes[i].id);
  }

  /** Dropping a later node keeps the node at `i` last with its id, and keeps what came before it. */
  lemma DropLastKeeps(nodes: seq<OrgNode>, i: nat)
    requires i < |nodes| - 1 && LastWithId(nodes, i)
    ensures var init := nodes[..|nodes| - 1];
            init[i] == nodes[i] && LastWithId(init, i) && SeenBefore(init, i) == SeenBefore(nodes, i)
            && nodes[i].id != nodes[|nodes| - 1].id
  {
    var n := |nodes| - 1;
    var init := nodes[..n];
    assert init[i] == nodes[i];
    forall j | i < j < n ensures init[j].id != init[i].id {
      assert init[j] == nodes[j];
    }
    if SeenBefore(nodes, i) {
      var j :| 0 <= j < i && nodes[j].id == nodes[i].id;
      assert init[j] == nodes[j];
    }
    if SeenBefore(init, i) {
      var j :| 0 <= j < i && init[j].id == init[i].id;
      assert init[j] == nodes[j];
    }
  }

  /**
   * A pass that is not aborted was not aborted before its last node, and that
   * node left the record and status of every other id as they were.
   */
  lemma OrgPassOtherId(orgs: map<Uuid, OrgRecord>, nodes: seq<OrgNode>, svc: OrgService, id: Uuid)
    requires nodes != [] && id != nodes[|nodes| - 1].id
    ensures var before := OrgPass(orgs, nodes[..|nodes| - 1], svc);
            var r := OrgPass(orgs, nodes, svc);
            r.2.None? ==>
              before.2.None?
              && (id in r.0 <==> id in before.0) && (id in before.0 ==> r.0[id] == before.0[id])
              && (id in r.1 <==> id in before.1) && (id in before.1 ==> r.1[id] == before.1[id])
  {
  }

  // ---------------------------------------------------------------------
  // Personnel
  // ---------------------------------------------------------------------

  /** One of a person's organization entries: the organization and whether the person is active there. */
  datatype OrgStatus = OrgStatus(orgId: Uuid, active: bool)

  /** One person of the dump. */
  datatype PersonNode = PersonNode(id: Uuid, firstName: string, lastName: string, email: string, dodid: Option<string>,
                                   contactNumber: string, rankId: string, orgStatuses: seq<OrgStatus>)

  /** The airman record built from a person node. */
  datatype Airman = Airman(firstName: string, lastName: string, email: string, dodid: Option<string>,
                           dutyPhone: string, title: Option<string>)

  /** The airman for a node: its title is the looked-up abbreviation of its rank id, if any. */
  function AirmanOf(node: PersonNode, lookup: map<string, string>): (r: Airman)
    ensures r.title.Some? <==> node.rankId in lookup
    ensures r.title.Some? ==> r.title.value == lookup[node.rankId]
    ensures r.firstName == node.firstName && r.lastName == node.lastName && r.email == node.email
    ensures r.dodid == node.dodid && r.dutyPhone == node.contactNumber
  {
    Airman(node.firstName, node.lastName, node.email, node.dodid, node.contactNumber,
           if node.rankId in lookup then Some(lookup[node.rankId]) else None)
  }

  /** "first last". */
  function FullName(firstName: string, lastName: string): string
  {
    firstName + " " + lastName
  }

  /** The exception kinds the personnel pass records as a problem and moves past. */
  predicate Caught(f: Failure)
  {
    f == ResourceAlreadyExists || f == RecordNotFound || f == TransactionFailed
  }

  /**
   * A person's organization entries in turn: active adds the person to the
   * organization's members, inactive removes it; an unknown organization is
   * not found and stops the rest of the entries.
   */
  function MembershipPass(orgs: map<Uuid, OrgRecord>, person: Uuid, statuses: seq<OrgStatus>): (r: (map<Uuid, OrgRecord>, Option<Failure>))
    ensures r.0.Keys == orgs.Keys
    ensures r.1.Some? <==> exists i :: 0 <= i < |statuses| && statuses[i].orgId !in orgs
    ensures r.1.Some? ==> r.1.value == RecordNotFound
  {
    if statuses == [] then (orgs, None)
    else
      var n := |statuses| - 1;
      var before := MembershipPass(orgs, person, statuses[..n]);
      assert forall i :: 0 <= i < n ==> statuses[..n][i] == statuses[i];
      var s := statuses[n];
      if before.1.Some? then before
      else if s.orgId !in before.0 then (before.0, Some(RecordNotFound))
      else
        var org := before.0[s.orgId];
        (before.0[s.orgId := org.(members := if s.active then org.members + {person} else org.members - {person})], None)
  }

  /** The active flag of the last entry for an organization, if any. */
  function LastActive(statuses: seq<OrgStatus>, org: Uuid): Option<bool>
  {
    if statuses == [] then None
    else if statuses[|statuses| - 1].orgId == org then Some(statuses[|statuses| - 1].active)
    else LastActive(statuses[..|statuses| - 1], org)
  }

  /**
   * When every organization is known, the person ends up a member of each
   * listed organization exactly when its last entry there is active; other
   * members and other organizations are unchanged.
   */
  lemma {:induction false} MembershipPassMeaning(orgs: map<Uuid, OrgRecord>, person: Uuid, statuses: seq<OrgStatus>)
    requires MembershipPass(orgs, person, statuses).1.None?
    ensures forall org :: org in orgs ==>
              var after := MembershipPass(orgs, person, statuses).0[org];
              after.name == orgs[org].name && after.branch == orgs[org].branch && after.orgType == orgs[org].orgType
              && after.members - {person} == orgs[org].members - {person}
              && (person in after.members <==>
                    if LastActive(statuses, org).Some? then LastActive(statuses, org).value else person in orgs[org].members)
  {
    if statuses != [] {
      MembershipPassMeaning(orgs, person, statuses[..|statuses| - 1]);
    }
  }

  /** Once an entry fails, the later entries change nothing. */
  lemma {:induction false} MembershipPassStops(orgs: map<Uuid, OrgRecord>, person: Uuid, statuses: seq<OrgStatus>, k: nat)
    requires k <= |statuses| && MembershipPass(orgs, person, statuses[..k]).1.Some?
    ensures MembershipPass(orgs, person, statuses) == MembershipPass(orgs, person, statuses[..k])
  {
    if k < |statuses| {
      var n := |statuses| - 1;
      assert statuses[..n][..k] == statuses[..k];
      MembershipPassStops(orgs, person, statuses[..n], k);
    } else {
      assert statuses[..k] == statuses;
    }
  }

  /** The tables the import writes: organizations and airmen. */
  datatype Tables = Tables(orgs: map<Uuid, OrgRecord>, airmen: map<Uuid, Airman>)

  /**
   * One person: a refusal by the airman service that is caught becomes a
   * problem and any other refusal aborts the import; otherwise the airman is
   * stored, created or updated, and the organization entries follow, a
   * missing organization turning the status into a problem.
   */
  function PersonStep(t: Tables, node: PersonNode, lookup: map<string, string>, refusal: PersonNode -> Option<Failure>): (r: Result<(Tables, Status), Failure>)
    ensures r.Err? <==> refusal(node).Some? && !Caught(refusal(node).value)
    ensures r.Ok? ==> r.value.1.name == FullName(node.firstName, node.lastName)
    ensures r.Ok? ==> (r.value.1.Problem? <==>
                         refusal(node).Some? || exists i :: 0 <= i < |node.orgStatuses| && node.orgStatuses[i].orgId !in t.orgs)
    ensures r.Ok? && refusal(node).None? ==>
              r.value.0.airmen == t.airmen[node.id := AirmanOf(node, lookup)]
              && (r.value.1.Created? <==> node.id !in t.airmen && r.value.1.Problem? == false)
    ensures r.Ok? && refusal(node).Some? ==> r.value.0 == t && r.value.1.error == refusal(node).value
  {
    var name := FullName(node.firstName, node.lastName);
    match refusal(node)
    case Some(f) => if Caught(f) then Ok((t, Problem(name, f))) else Err(f)
    case None =>
      var airmen := t.airmen[node.id := AirmanOf(node, lookup)];
      var memberships := MembershipPass(t.orgs, node.id, node.orgStatuses);
      var status := if memberships.1.Some? then Problem(name, memberships.1.value)
                    else if node.id in t.airmen then Updated(name) else Created(name);
      Ok((Tables(memberships.0, airmen), status))
  }

  /**
   * `processPersonnelInfo` over the dump: the tables after it, the status
   * per id, and the failure that aborted it, if any (the people before it
   * stay processed).
   */
  function PersonnelPass(t: Tables, nodes: seq<PersonNode>, lookup: map<string, string>, refusal: PersonNode -> Option<Failure>): (r: (Tables, map<Uuid, Status>, Option<Failure>))
  {
    if nodes == [] then (t, map[], None)
    else
      var before := PersonnelPass(t, nodes[..|nodes| - 1], lookup, refusal);
      var last := nodes[|nodes| - 1];
      if before.2.Some? then before
      else match PersonStep(before.0, last, lookup, refusal)
        case Err(f) => (before.0, before.1, Some(f))
        case Ok(step) => (step.0, before.1[last.id := step.1], None)
  }

  /** Once a person aborts the pass, the later people change nothing. */
  lemma {:induction false} PersonnelPassStops(t: Tables, nodes: seq<PersonNode>, lookup: map<string, string>,
                                              refusal: PersonNode -> Option<Failure>, k: nat)
    requires k <= |nodes| && PersonnelPass(t, nodes[..k], lookup, refusal).2.Some?
    ensures PersonnelPass(t, nodes, lookup, refusal) == PersonnelPass(t, nodes[..k], lookup, refusal)
  {
    if k < |nodes| {
      var n := |nodes| - 1;
      assert nodes[..n][..k] == nodes[..k];
      PersonnelPassStops(t, nodes[..n], lookup, refusal, k);
    } else {
      assert nodes[..k] == nodes;
    }
  }

  /** The pass aborts exactly when the airman service refuses someone with an exception it does not catch. */
  lemma {:induction false} PersonnelPassAborts(t: Tables, nodes: seq<PersonNode>, lookup: map<string, string>,
                                               refusal: PersonNode -> Option<Failure>)
    ensures var r := PersonnelPass(t, nodes, lookup, refusal);
            r.2.Some? <==> exists i :: 0 <= i < |nodes| && refusal(nodes[i]).Some? && !Caught(refusal(nodes[i]).value)
  {
    if nodes != [] {
      var n := |nodes| - 1;
      var init := nodes[..n];
      PersonnelPassAborts(t, init, lookup, refusal);
      assert forall i :: 0 <= i < n ==> init[i] == nodes[i];
    }
  }

  /** A pass that does not abort gives every person of the dump a status, and no one else. */
  lemma {:induction false} PersonnelPassStatuses(t: Tables, nodes: seq<PersonNode>, lookup: map<string, string>,
                                                 refusal: PersonNode -> Option<Failure>)
    ensures var r := PersonnelPass(t, nodes, lookup, refusal);
            r.2.None? ==> r.1.Keys == set i | 0 <= i < |nodes| :: nodes[i].id
  {
    if nodes != [] {
      var n := |nodes| - 1;
      var init := nodes[..n];
      PersonnelPassStatuses(t, init, lookup, refusal);
      assert forall i :: 0 <= i < n ==> init[i] == nodes[i];
      assert (set i | 0 <= i < |nodes| :: nodes[i].id) == (set i | 0 <= i < n :: init[i].id) + {nodes[n].id};
    }
  }

  /** The Common API tables the import writes, through the organization and airman services. */
  class CommonApiTables {
    var orgs: map<Uuid, OrgRecord>
    var airmen: map<Uuid, Airman>

    constructor(orgs: map<Uuid, OrgRecord>, airmen: map<Uuid, Airman>)
      ensures this.orgs == orgs && this.airmen == airmen
    {
      this.orgs := orgs;
      this.airmen := airmen;
    }

    /**
     * `processOrgInformation`: each organization of the dump created or
     * renamed in turn; the first refusal of the service ends the loop.
     */
    method ProcessOrgInformation(nodes: seq<OrgNode>, svc: OrgService) returns (status: map<Uuid, Status>, abort: Option<Failure>)
      modifies this
      ensures (orgs, status, abort) == OrgPass(old(orgs), nodes, svc)
      ensures airmen == old(airmen)
    {
      status := map[];
      for i := 0 to |nodes|
        invariant (orgs, status, None) == OrgPass(old(orgs), nodes[..i], svc)
        invariant airmen == old(airmen)
      {
        var node := nodes[i];
        assert nodes[..i + 1][..i] == nodes[..i];
        if node.id !in orgs {
          if exists id :: id in orgs && svc.sameName(orgs[id].name, node.name) {
            OrgPassStops(old(orgs), nodes, svc, i + 1);
            return status, Some(ResourceAlreadyExists);
          }
          orgs := orgs[node.id := OrgRecord(node.name, ResolveServiceName(node.branchId), ResolveUnitType(Some(node.name)), {})];
          status := status[node.id := Created(node.name)];
        } else {
          var refused := svc.renameRefusal(node);
          if refused.Some? {
            OrgPassStops(old(orgs), nodes, svc, i + 1);
            return status, refused;
          }
          orgs := orgs[node.id := orgs[node.id].(name := node.name)];
          status := status[node.id := Updated(node.name)];
        }
      }
      assert nodes[..|nodes|] == nodes;
      abort := None;
    }

    /** A person's organization entries in turn, stopping at the first unknown organization. */
    method UpdateMemberships(person: Uuid, statuses: seq<OrgStatus>) returns (err: Option<Failure>)
      modifies this
      ensures (orgs, err) == MembershipPass(old(orgs), person, statuses)
      ensures airmen == old(airmen)
    {
      for k := 0 to |statuses|
        invariant (orgs, None) == MembershipPass(old(orgs), person, statuses[..k])
        invariant airmen == old(airmen)
      {
        var s := statuses[k];
        assert statuses[..k + 1][..k] == statuses[..k];
        if s.orgId !in orgs {
          MembershipPassStops(old(orgs), person, statuses, k + 1);
          return Some(RecordNotFound);
        }
        var org := orgs[s.orgId];
        orgs := orgs[s.orgId := org.(members := if s.active then org.members + {person} else org.members - {person})];
      }
      assert statuses[..|statuses|] == statuses;
      err := None;
    }

    /** `processPersonnelInfo`: each person created or updated, then placed in or taken out of its organizations. */
    method ProcessPersonnelInfo(nodes: seq<PersonNode>, lookup: map<string, string>, refusal: PersonNode -> Option<Failure>)
      returns (status: map<Uuid, Status>, abort: Option<Failure>)
      modifies this
      ensures (Tables(orgs, airmen), status, abort) == PersonnelPass(Tables(old(orgs), old(airmen)), nodes, lookup, refusal)
    {
      ghost var t0 := Tables(orgs, airmen);
      status := map[];
      for i := 0 to |nodes|
        invariant (Tables(orgs, airmen), status, None) == PersonnelPass(t0, nodes[..i], lookup, refusal)
      {
        var node := nodes[i];
        var name := FullName(node.firstName, node.lastName);
        ghost var before := Tables(orgs, airmen);
        assert nodes[..i + 1][..i] == nodes[..i];
        var refused := refusal(node);
        if refused.Some? {
          if !Caught(refused.value) {
            PersonnelPassStops(t0, nodes, lookup, refusal, i + 1);
            return status, Some(refused.value);
          }
          status := status[node.id := Problem(name, refused.value)];
        } else {
          var created := node.id !in airmen;
          airmen := airmen[node.id := AirmanOf(node, lookup)];
          var err := UpdateMemberships(node.id, node.orgStatuses);
          if err.Some? {
            status := status[node.id := Problem(name, err.value)];
          } else if created {
            status := status[node.id := Created(name)];
          } else {
            status := status[node.id := Updated(name)];
          }
        }
      }
      assert nodes[..|nodes|] == nodes;
      abort := None;
    }

    /**
     * `persistOrgsAndMembers`: the rank lookup, then the organizations, then
     * the personnel; an aborted organization pass ends the import before the
     * personnel, and an aborted pass keeps what came before it.
     */
    method PersistOrgsAndMembers(orgNodes: seq<OrgNode>, people: seq<PersonNode>, branches: seq<BranchNode>,
                                 svc: OrgService, refusal: PersonNode -> Option<Failure>)
      returns (r: Result<(map<Uuid, Status>, map<Uuid, Status>), Failure>)
      modifies this
      ensures var orgPass := OrgPass(old(orgs), orgNodes, svc);
              orgPass.2.Some? ==> r == Err(orgPass.2.value) && orgs == orgPass.0 && airmen == old(airmen)
      ensures var orgPass := OrgPass(old(orgs), orgNodes, svc);
              var people := PersonnelPass(Tables(orgPass.0, old(airmen)), people, Lookup(RankNodes(branches)), refusal);
              orgPass.2.None? ==>
                Tables(orgs, airmen) == people.0
                && (people.2.Some? ==> r == Err(people.2.value))
                && (people.2.None? ==> r == Ok((orgPass.1, people.1)))
    {
      var lookup := ProcessBranchInfo(branches);
      var orgStatus, orgAbort := ProcessOrgInformation(orgNodes, svc);
      if orgAbort.Some? {
        return Err(orgAbort.value);
      }
      var peopleStatus, abort := ProcessPersonnelInfo(people, lookup, refusal);
      if abort.Some? {
        return Err(abort.value);
      }
      r := Ok((orgStatus, peopleStatus));
    }
  }
}
