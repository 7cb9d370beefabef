/**
 * The organisation-tree seeding script: a depth-first walk over a nested
 * organisation literal that creates every organisation, its leader and its
 * members through the REST API and then attaches each node's children with one
 * JSON Patch document (RFC 6902; appends use the "-" index of section 4.1).
 *
 * The REST API is an oracle: every request is appended to a trace, and the
 * answer is a function of the trace so far, so it may depend on anything the
 * script has sent.
 */
module Seeder {
  import opened Wrappers
  import opened Text

  type Id = string

  /** The body of `POST /person`; a missing token (JavaScript `undefined`) is `None`. */
  datatype PersonBody = PersonBody(
    firstName: Option<string>,
    middleName: Option<string>,
    lastName: Option<string>,
    rank: Option<string>,
    email: Option<string>,
    branch: string)

  /** The body of `POST /organization`. */
  datatype OrgBody = OrgBody(
    name: string,
    members: seq<Id>,
    leader: Option<Id>,
    parentOrganization: Option<Id>,
    orgType: string,
    branchType: string)

  /** One JSON Patch operation whose value is an id. */
  datatype PatchOp = PatchOp(op: string, path: string, value: Id)

  datatype Request =
    | PostPerson(person: PersonBody)
    | PostOrg(org: OrgBody)
    | PatchOrg(orgId: Id, ops: seq<PatchOp>)

  datatype Response = Response(status: int, id: Id)

  /** A node of the organisation literal; `null`/absent fields are `None`. */
  datatype OrgNode = OrgNode(
    name: string,
    orgType: string,
    leader: Option<string>,
    members: Option<seq<string>>,
    units: SubUnits)

  /** The `units` field: `null`/absent, or a list of child nodes (possibly empty). */
  datatype SubUnits = NullUnits | Units(children: seq<OrgNode>)

  /** The outcome of a step of the script together with the trace after it. */
  datatype Run<T> = Run(result: Result<T, string>, trace: seq<Request>)

  // ---------------------------------------------------------------------------
  // Person specs

  function RewriteRank(rank: string): string
  {
    if rank == "LtCol" then "Lt Col"
    else if rank == "2Lt" then "2nd Lt"
    else if rank == "1Lt" then "1st Lt"
    else rank
  }

  /** Destructuring `[a, b, ...] = tokens`: a position past the end is `undefined`. */
  function Token(tokens: seq<string>, i: nat): Option<string>
  {
    if i < |tokens| then Some(tokens[i]) else None
  }

  /** `addNewPerson`'s body: split on each whitespace character, rewrite the rank. */
  function ParsePerson(spec: string): PersonBody
  {
    var tokens := SplitSpaces(spec);
    PersonBody(Token(tokens, 1), Token(tokens, 2), Token(tokens, 3),
               Some(RewriteRank(tokens[0])), Token(tokens, 4), "USAF")
  }

  /** The bodies of a list of person specs, in order. */
  function ParseAll(specs: seq<string>): (ps: seq<PersonBody>)
    ensures |ps| == |specs|
  {
    if specs == [] then [] else ParseAll(specs[..|specs| - 1]) + [ParsePerson(specs[|specs| - 1])]
  }

  lemma {:induction false} ParseAllAt(specs: seq<string>, k: nat)
    requires k < |specs|
    ensures ParseAll(specs)[k] == ParsePerson(specs[k])
  {
    if k < |specs| - 1 {
      ParseAllAt(specs[..|specs| - 1], k);
    }
  }

  /** Only the three abbreviations are rewritten; every other rank passes through. */
  lemma RewriteRankOnlyThree(rank: string)
    ensures RewriteRank(rank) != rank <==> rank in {"LtCol", "2Lt", "1Lt"}
    ensures RewriteRank("LtCol") == "Lt Col" && RewriteRank("2Lt") == "2nd Lt" && RewriteRank("1Lt") == "1st Lt"
  {
  }

  predicate IsWord(w: string)
  {
    forall i :: 0 <= i < |w| ==> !IsJsSpace(w[i])
  }

  /** A word followed by a whitespace character splits off as one token. */
  lemma {:induction false} SplitWordThenSpace(w: string, c: char, rest: string)
    requires IsWord(w) && IsJsSpace(c)
    ensures SplitSpaces(w + [c] + rest) == [w] + SplitSpaces(rest)
  {
    if w == [] {
      assert w + [c] + rest == [c] + rest;
    } else {
      var s := w + [c] + rest;
      assert s[0] == w[0] && !IsJsSpace(s[0]);
      assert s[1..] == w[1..] + [c] + rest;
      SplitWordThenSpace(w[1..], c, rest);
      assert [w[0]] + w[1..] == w;
    }
  }

  lemma {:induction false} SplitWord(w: string)
    requires IsWord(w)
    ensures SplitSpaces(w) == [w]
  {
    if w != [] {
      assert !IsJsSpace(w[0]);
      SplitWord(w[1..]);
      assert [w[0]] + w[1..] == w;
    }
  }

  /** Five words joined by single spaces come back as the five fields of the person. */
  lemma ParsePersonOfFiveWords(rank: string, first: string, middle: string, last: string, email: string)
    requires IsWord(rank) && IsWord(first) && IsWord(middle) && IsWord(last) && IsWord(email)
    ensures ParsePerson(rank + " " + first + " " + middle + " " + last + " " + email)
         == PersonBody(Some(first), Some(middle), Some(last), Some(RewriteRank(rank)), Some(email), "USAF")
  {
    var s4 := email;
    var s3 := last + " " + s4;
    var s2 := middle + " " + s3;
    var s1 := first + " " + s2;
    var s0 := rank + " " + s1;
    assert s0 == rank + " " + first + " " + middle + " " + last + " " + email;
    SplitWord(s4);
    SplitWordThenSpace(last, ' ', s4);
    SplitWordThenSpace(middle, ' ', s3);
    SplitWordThenSpace(first, ' ', s2);
    SplitWordThenSpace(rank, ' ', s1);
    assert SplitSpaces(s0) == [rank, first, middle, last, email];
  }

  // ---------------------------------------------------------------------------
  // Requests

  function OrgRequest(orgType: string, name: string, parent: Option<Id>): Request
  {
    PostOrg(OrgBody(name, [], None, parent, Upper(orgType), "USAF"))
  }

  function LeaderPatch(orgId: Id, leader: Id): Request
  {
    PatchOrg(orgId, [PatchOp("replace", "/leader", leader)])
  }

  function MemberPatch(orgId: Id, member: Id): Request
  {
    PatchOrg(orgId, [PatchOp("add", "/members/-", member)])
  }

  /** The operations of `addMemberOrgs`, built one push at a time. */
  function SubordinateOps(orgs: seq<Id>): seq<PatchOp>
  {
    if orgs == [] then []
    else SubordinateOps(orgs[..|orgs| - 1]) + [PatchOp("add", "/subordinateOrganizations/-", orgs[|orgs| - 1])]
  }

  /** One append operation per child, in child order. */
  lemma {:induction false} SubordinateOpsAt(orgs: seq<Id>)
    ensures |SubordinateOps(orgs)| == |orgs|
    ensures forall k :: 0 <= k < |orgs| ==>
      SubordinateOps(orgs)[k] == PatchOp("add", "/subordinateOrganizations/-", orgs[k])
  {
    if orgs != [] {
      SubordinateOpsAt(orgs[..|orgs| - 1]);
    }
  }

  /** The status a request must receive: 201 for a creation, 200 for a patch. */
  function Expected(req: Request): int
  {
    if req.PatchOrg? then 200 else 201
  }

  /** One HTTP exchange: the request joins the trace and a wrong status aborts with `msg`. */
  function Call(respond: seq<Request> -> Response, t: seq<Request>, req: Request, msg: string): Run<Id>
  {
    var t1 := t + [req];
    var resp := respond(t1);
    Run(if resp.status == Expected(req) then Ok(resp.id) else Err(msg), t1)
  }

  // ---------------------------------------------------------------------------
  // The walk, as functions of the trace

  /** `createOrgStructure(org, parent)` started on trace `t`. */
  function RunOrg(respond: seq<Request> -> Response, org: OrgNode, parent: Option<Id>, t: seq<Request>): (r: Run<Id>)
    ensures |r.trace| > |t| && r.trace[..|t|] == t
    decreases org, 3, 0
  {
    var created := Call(respond, t, OrgRequest(org.orgType, org.name, parent), "Bad Add Org");
    if created.result.Err? then created
    else
      var body := RunBody(respond, org, created.result.value, created.trace);
      assert body.trace[..|t|] == t;
      Run(if body.result.Ok? then created.result else Err(body.result.error), body.trace)
  }

  /** Everything `createOrgStructure` does after creating the node with id `id`. */
  function RunBody(respond: seq<Request> -> Response, org: OrgNode, id: Id, t: seq<Request>): (r: Run<()>)
    ensures |r.trace| >= |t| && r.trace[..|t|] == t
    decreases org, 2, 0
  {
    var led := RunLeader(respond, org.leader, id, t);
    if led.result.Err? then led
    else
      var joined := RunMembersOpt(respond, org.members, id, led.trace);
      if joined.result.Err? then joined
      else
        var subs := RunSubordinates(respond, org, id, joined.trace);
        assert subs.trace[..|t|] == t;
        subs
  }

  /** The members step, skipped when `members` is `null`. */
  function RunMembersOpt(respond: seq<Request> -> Response, members: Option<seq<string>>, id: Id, t: seq<Request>): (r: Run<()>)
    ensures |r.trace| >= |t| && r.trace[..|t|] == t
  {
    if members.None? then Run(Ok(()), t) else RunMembers(respond, ParseAll(members.value), 0, id, t)
  }

  /** The children's walks followed by the one subordinate patch, when `units` is present. */
  function RunSubordinates(respond: seq<Request> -> Response, org: OrgNode, id: Id, t: seq<Request>): (r: Run<()>)
    ensures |r.trace| >= |t| && r.trace[..|t|] == t
    decreases org, 1, 0
  {
    if org.units.NullUnits? then Run(Ok(()), t)
    else
      var subs := RunUnits(respond, org, 0, id, t, []);
      if subs.result.Err? then Run(Err(subs.result.error), subs.trace)
      else
        var patched := Call(respond, subs.trace, PatchOrg(id, SubordinateOps(subs.result.value)), "Bad Add Member Org");
        assert patched.trace[..|t|] == t;
        Run(if patched.result.Ok? then Ok(()) else Err(patched.result.error), patched.trace)
  }

  /** Creating the leader person and patching it in, when there is a leader. */
  function RunLeader(respond: seq<Request> -> Response, leader: Option<string>, id: Id, t: seq<Request>): (r: Run<()>)
    ensures |r.trace| >= |t| && r.trace[..|t|] == t
  {
    if leader.None? then Run(Ok(()), t)
    else
      var person := Call(respond, t, PostPerson(ParsePerson(leader.value)), "Bad Add Person");
      if person.result.Err? then Run(Err(person.result.error), person.trace)
      else
        var patched := Call(respond, person.trace, LeaderPatch(id, person.result.value), "Bad Add Leader");
        if patched.result.Err? then Run(Err(patched.result.error), patched.trace)
        else Run(Ok(()), patched.trace)
  }

  /** Members `ps[i..]`, each created and then patched in before the next. */
  function RunMembers(respond: seq<Request> -> Response, ps: seq<PersonBody>, i: nat, id: Id, t: seq<Request>): (r: Run<()>)
    requires i <= |ps|
    ensures |r.trace| >= |t| && r.trace[..|t|] == t
    decreases |ps| - i
  {
    if i == |ps| then Run(Ok(()), t)
    else
      var person := Call(respond, t, PostPerson(ps[i]), "Bad Add Person");
      if person.result.Err? then Run(Err(person.result.error), person.trace)
      else
        var patched := Call(respond, person.trace, MemberPatch(id, person.result.value), "Bad Add Member");
        if patched.result.Err? then Run(Err(patched.result.error), patched.trace)
        else
          var rest := RunMembers(respond, ps, i + 1, id, patched.trace);
          assert patched.trace[..|t|] == t;
          rest
  }

  /** Children `org.units[i..]`, each walked with parent `id`; `acc` holds the ids so far. */
  function RunUnits(respond: seq<Request> -> Response, org: OrgNode, i: nat, id: Id, t: seq<Request>, acc: seq<Id>): (r: Run<seq<Id>>)
    requires org.units.Units? && i <= |org.units.children|
    ensures |r.trace| >= |t| && r.trace[..|t|] == t
    decreases org, 0, |org.units.children| - i
  {
    var us := org.units.children;
    if i == |us| then Run(Ok(acc), t)
    else
      var child := RunOrg(respond, us[i], Some(id), t);
      if child.result.Err? then Run(Err(child.result.error), child.trace)
      else
        var rest := RunUnits(respond, org, i + 1, id, child.trace, acc + [child.result.value]);
        assert child.trace[..|t|] == t;
        rest
  }

  // ---------------------------------------------------------------------------
  // What the walk sends

  /** Request `j` of `tr` received the status its kind requires. */
  predicate Accepted(respond: seq<Request> -> Response, tr: seq<Request>, j: nat)
    requires j < |tr|
  {
    respond(tr[..j + 1]).status == Expected(tr[j])
  }

  predicate AllAccepted(respond: seq<Request> -> Response, tr: seq<Request>, from: nat)
  {
    forall j :: from <= j < |tr| ==> Accepted(respond, tr, j)
  }

  /**
   * The requests of `tr` from position `from` on: after a success every one got
   * its expected status; after a failure all but the last did and the last did not,
   * so nothing is sent after a rejected request.
   */
  predicate Settled(respond: seq<Request> -> Response, ok: bool, tr: seq<Request>, from: nat)
  {
    from <= |tr|
    && (ok ==> AllAccepted(respond, tr, from))
    && (!ok ==> from < |tr| && AllAccepted(respond, tr[..|tr| - 1], from) && !Accepted(respond, tr, |tr| - 1))
  }

  predicate IsPrefix(a: seq<Request>, b: seq<Request>)
  {
    |a| <= |b| && b[..|a|] == a
  }

  lemma AcceptedInPrefix(respond: seq<Request> -> Response, a: seq<Request>, b: seq<Request>, j: nat)
    requires IsPrefix(a, b) && j < |a|
    ensures Accepted(respond, a, j) == Accepted(respond, b, j)
  {
    assert a[..j + 1] == b[..j + 1];
  }

  /** A settled run that continues an accepted trace is settled from the earlier start. */
  lemma SettledAfter(respond: seq<Request> -> Response, a: seq<Request>, from: nat, ok: bool, b: seq<Request>)
    requires IsPrefix(a, b) && from <= |a|
    requires AllAccepted(respond, a, from) && Settled(respond, ok, b, |a|)
    ensures Settled(respond, ok, b, from)
  {
    forall j | from <= j < |a|
      ensures Accepted(respond, b, j)
    {
      AcceptedInPrefix(respond, a, b, j);
    }
    if !ok {
      var b' := b[..|b| - 1];
      assert IsPrefix(a, b');
      forall j | from <= j < |b'|
        ensures Accepted(respond, b', j)
      {
        AcceptedInPrefix(respond, b', b, j);
      }
    }
  }

  lemma CallSettled(respond: seq<Request> -> Response, t: seq<Request>, req: Request, msg: string)
    ensures var c := Call(respond, t, req, msg);
      c.trace == t + [req] && Settled(respond, c.result.Ok?, c.trace, |t|)
      && (c.result.Ok? ==> c.result.value == respond(t + [req]).id)
  {
    var c := Call(respond, t, req, msg);
    assert c.trace[..|t| + 1] == c.trace;
    assert c.trace[..|c.trace| - 1] == t;
  }

  lemma {:induction false} RunLeaderSettled(respond: seq<Request> -> Response, leader: Option<string>, id: Id, t: seq<Request>)
    ensures var r := RunLeader(respond, leader, id, t); Settled(respond, r.result.Ok?, r.trace, |t|)
  {
    if leader.Some? {
      var person := Call(respond, t, PostPerson(ParsePerson(leader.value)), "Bad Add Person");
      CallSettled(respond, t, PostPerson(ParsePerson(leader.value)), "Bad Add Person");
      if person.result.Ok? {
        var req := LeaderPatch(id, person.result.value);
        CallSettled(respond, person.trace, req, "Bad Add Leader");
        SettledAfter(respond, person.trace, |t|, Call(respond, person.trace, req, "Bad Add Leader").result.Ok?,
                     person.trace + [req]);
      }
    }
  }

  lemma {:induction false} RunMembersSettled(respond: seq<Request> -> Response, ps: seq<PersonBody>, i: nat, id: Id, t: seq<Request>)
    requires i <= |ps|
    ensures var r := RunMembers(respond, ps, i, id, t); Settled(respond, r.result.Ok?, r.trace, |t|)
    decreases |ps| - i
  {
    if i < |ps| {
      var person := Call(respond, t, PostPerson(ps[i]), "Bad Add Person");
      CallSettled(respond, t, PostPerson(ps[i]), "Bad Add Person");
      if person.result.Ok? {
        var req := MemberPatch(id, person.result.value);
        var patched := Call(respond, person.trace, req, "Bad Add Member");
        CallSettled(respond, person.trace, req, "Bad Add Member");
        SettledAfter(respond, person.trace, |t|, patched.result.Ok?, patched.trace);
        if patched.result.Ok? {
          var rest := RunMembers(respond, ps, i + 1, id, patched.trace);
          RunMembersSettled(respond, ps, i + 1, id, patched.trace);
          SettledAfter(respond, patched.trace, |t|, rest.result.Ok?, rest.trace);
        }
      }
    }
  }

  /**
   * The walk of one node: its first request creates the node under `parent`, it
   * returns the id the API gave that request, and it stops at the first request
   * that does not get 201 (creation) or 200 (patch).
   */
  lemma {:induction false} RunOrgSettled(respond: seq<Request> -> Response, org: OrgNode, parent: Option<Id>, t: seq<Request>)
    ensures var r := RunOrg(respond, org, parent, t);
      && r.trace[|t|] == OrgRequest(org.orgType, org.name, parent)
      && Settled(respond, r.result.Ok?, r.trace, |t|)
      && (r.result.Ok? ==> r.result.value == respond(r.trace[..|t| + 1]).id)
    decreases org, 3, 0
  {
    var req := OrgRequest(org.orgType, org.name, parent);
    var created := Call(respond, t, req, "Bad Add Org");
    CallSettled(respond, t, req, "Bad Add Org");
    if created.result.Ok? {
      var body := RunBody(respond, org, created.result.value, created.trace);
      RunBodySettled(respond, org, created.result.value, created.trace);
      SettledAfter(respond, created.trace, |t|, body.result.Ok?, body.trace);
      assert body.trace[..|t| + 1] == created.trace;
    }
  }

  lemma {:induction false} RunBodySettled(respond: seq<Request> -> Response, org: OrgNode, id: Id, t: seq<Request>)
    ensures var r := RunBody(respond, org, id, t); Settled(respond, r.result.Ok?, r.trace, |t|)
    decreases org, 2, 0
  {
    var led := RunLeader(respond, org.leader, id, t);
    RunLeaderSettled(respond, org.leader, id, t);
    if led.result.Ok? {
      var joined := RunMembersOpt(respond, org.members, id, led.trace);
      if org.members.Some? {
        RunMembersSettled(respond, ParseAll(org.members.value), 0, id, led.trace);
        SettledAfter(respond, led.trace, |t|, joined.result.Ok?, joined.trace);
      }
      if joined.result.Ok? {
        var subs := RunSubordinates(respond, org, id, joined.trace);
        RunSubordinatesSettled(respond, org, id, joined.trace);
        SettledAfter(respond, joined.trace, |t|, subs.result.Ok?, subs.trace);
      }
    }
  }

  lemma {:induction false} RunSubordinatesSettled(respond: seq<Request> -> Response, org: OrgNode, id: Id, t: seq<Request>)
    ensures var r := RunSubordinates(respond, org, id, t); Settled(respond, r.result.Ok?, r.trace, |t|)
    decreases org, 1, 0
  {
    if org.units.Units? {
      var subs := RunUnits(respond, org, 0, id, t, []);
      RunUnitsSettled(respond, org, 0, id, t, []);
      if subs.result.Ok? {
        var patch := PatchOrg(id, SubordinateOps(subs.result.value));
        var patched := Call(respond, subs.trace, patch, "Bad Add Member Org");
        CallSettled(respond, subs.trace, patch, "Bad Add Member Org");
        SettledAfter(respond, subs.trace, |t|, patched.result.Ok?, patched.trace);
      }
    }
  }

  lemma {:induction false} RunUnitsSettled(respond: seq<Request> -> Response, org: OrgNode, i: nat, id: Id, t: seq<Request>, acc: seq<Id>)
    requires org.units.Units? && i <= |org.units.children|
    ensures var r := RunUnits(respond, org, i, id, t, acc);
      && Settled(respond, r.result.Ok?, r.trace, |t|)
      && (r.result.Ok? ==> |r.result.value| == |acc| + |org.units.children| - i && r.result.value[..|acc|] == acc)
    decreases org, 0, |org.units.children| - i
  {
    var us := org.units.children;
    if i < |us| {
      var child := RunOrg(respond, us[i], Some(id), t);
      RunOrgSettled(respond, us[i], Some(id), t);
      if child.result.Ok? {
        var acc' := acc + [child.result.value];
        var rest := RunUnits(respond, org, i + 1, id, child.trace, acc');
        RunUnitsSettled(respond, org, i + 1, id, child.trace, acc');
        SettledAfter(respond, child.trace, |t|, rest.result.Ok?, rest.trace);
        if rest.result.Ok? {
          assert rest.result.value[..|acc|] == rest.result.value[..|acc'|][..|acc|];
        }
      }
    }
  }

  // Counting organisation creations

  function CountOrgPosts(s: seq<Request>): nat
  {
    if s == [] then 0
    else CountOrgPosts(s[..|s| - 1]) + (if s[|s| - 1].PostOrg? then 1 else 0)
  }

  /** The number of nodes of an organisation literal. */
  function NodeCount(org: OrgNode): nat
    decreases org, 1, 0
  {
    1 + (if org.units.Units? then UnitsCount(org, 0) else 0)
  }

  function UnitsCount(org: OrgNode, i: nat): nat
    requires org.units.Units? && i <= |org.units.children|
    decreases org, 0, |org.units.children| - i
  {
    if i == |org.units.children| then 0
    else NodeCount(org.units.children[i]) + UnitsCount(org, i + 1)
  }

  lemma {:induction false} CountAppend(a: seq<Request>, b: seq<Request>)
    ensures CountOrgPosts(a + b) == CountOrgPosts(a) + CountOrgPosts(b)
  {
    if b == [] {
      assert a + b == a;
    } else {
      CountAppend(a, b[..|b| - 1]);
      assert (a + b)[..|a + b| - 1] == a + b[..|b| - 1];
    }
  }

  /** The requests added by two successive steps are those of the first, then those of the second. */
  lemma CountChain(a: seq<Request>, b: seq<Request>, c: seq<Request>)
    requires IsPrefix(a, b) && IsPrefix(b, c)
    ensures CountOrgPosts(c[|a|..]) == CountOrgPosts(b[|a|..]) + CountOrgPosts(c[|b|..])
  {
    assert c[|a|..] == b[|a|..] + c[|b|..];
    CountAppend(b[|a|..], c[|b|..]);
  }

  lemma RunLeaderCreatesNoOrg(respond: seq<Request> -> Response, leader: Option<string>, id: Id, t: seq<Request>)
    ensures var r := RunLeader(respond, leader, id, t); CountOrgPosts(r.trace[|t|..]) == 0
  {
    var r := RunLeader(respond, leader, id, t);
    if leader.Some? {
      var person := Call(respond, t, PostPerson(ParsePerson(leader.value)), "Bad Add Person");
      assert person.trace[|t|..] == [PostPerson(ParsePerson(leader.value))];
      assert CountOrgPosts([PostPerson(ParsePerson(leader.value))]) == 0 by {
        assert [PostPerson(ParsePerson(leader.value))][..0] == [];
      }
      if person.result.Ok? {
        var req := LeaderPatch(id, person.result.value);
        assert CountOrgPosts([req]) == 0 by {
          assert [req][..0] == [];
        }
        CountChain(t, person.trace, person.trace + [req]);
        assert (person.trace + [req])[|person.trace|..] == [req];
      }
    } else {
      assert r.trace[|t|..] == [];
    }
  }

  lemma {:induction false} RunMembersCreateNoOrg(respond: seq<Request> -> Response, ps: seq<PersonBody>, i: nat, id: Id, t: seq<Request>)
    requires i <= |ps|
    ensures var r := RunMembers(respond, ps, i, id, t); CountOrgPosts(r.trace[|t|..]) == 0
    decreases |ps| - i
  {
    var r := RunMembers(respond, ps, i, id, t);
    if i == |ps| {
      assert r.trace[|t|..] == [];
    } else {
      var preq := PostPerson(ps[i]);
      var person := Call(respond, t, preq, "Bad Add Person");
      assert CountOrgPosts([preq]) == 0 by {
        assert [preq][..0] == [];
      }
      assert person.trace[|t|..] == [preq];
      if person.result.Ok? {
        var req := MemberPatch(id, person.result.value);
        var patched := Call(respond, person.trace, req, "Bad Add Member");
        assert CountOrgPosts([req]) == 0 by {
          assert [req][..0] == [];
        }
        CountChain(t, person.trace, patched.trace);
        assert patched.trace[|person.trace|..] == [req];
        if patched.result.Ok? {
          RunMembersCreateNoOrg(respond, ps, i + 1, id, patched.trace);
          CountChain(t, patched.trace, r.trace);
        }
      }
    }
  }

  /** A successful walk creates exactly one organisation per node of the literal. */
  lemma {:induction false} RunOrgCreatesEachNode(respond: seq<Request> -> Response, org: OrgNode, parent: Option<Id>, t: seq<Request>)
    ensures var r := RunOrg(respond, org, parent, t);
      r.result.Ok? ==> CountOrgPosts(r.trace[|t|..]) == NodeCount(org)
    decreases org, 3, 0
  {
    var r := RunOrg(respond, org, parent, t);
    var req := OrgRequest(org.orgType, org.name, parent);
    var created := Call(respond, t, req, "Bad Add Org");
    if r.result.Ok? {
      var body := RunBody(respond, org, created.result.value, created.trace);
      RunBodyCreatesUnits(respond, org, created.result.value, created.trace);
      CountChain(t, created.trace, body.trace);
      assert created.trace[|t|..] == [req];
      assert CountOrgPosts([req]) == 1 by {
        assert [req][..0] == [];
      }
    }
  }

  lemma {:induction false} RunBodyCreatesUnits(respond: seq<Request> -> Response, org: OrgNode, id: Id, t: seq<Request>)
    ensures var r := RunBody(respond, org, id, t);
      r.result.Ok? ==> CountOrgPosts(r.trace[|t|..]) == NodeCount(org) - 1
    decreases org, 2, 0
  {
    var r := RunBody(respond, org, id, t);
    if r.result.Ok? {
      var led := RunLeader(respond, org.leader, id, t);
      RunLeaderCreatesNoOrg(respond, org.leader, id, t);
      var joined := RunMembersOpt(respond, org.members, id, led.trace);
      if org.members.Some? {
        RunMembersCreateNoOrg(respond, ParseAll(org.members.value), 0, id, led.trace);
        CountChain(t, led.trace, joined.trace);
      }
      RunSubordinatesCreateUnits(respond, org, id, joined.trace);
      CountChain(t, joined.trace, r.trace);
    }
  }

  lemma {:induction false} RunSubordinatesCreateUnits(respond: seq<Request> -> Response, org: OrgNode, id: Id, t: seq<Request>)
    ensures var r := RunSubordinates(respond, org, id, t);
      r.result.Ok? ==> CountOrgPosts(r.trace[|t|..]) == NodeCount(org) - 1
    decreases org, 1, 0
  {
    var r := RunSubordinates(respond, org, id, t);
    if r.result.Ok? {
      if org.units.NullUnits? {
        assert r.trace[|t|..] == [];
      } else {
        var subs := RunUnits(respond, org, 0, id, t, []);
        RunUnitsCreateUnits(respond, org, 0, id, t, []);
        var patch := PatchOrg(id, SubordinateOps(subs.result.value));
        CountChain(t, subs.trace, r.trace);
        assert r.trace[|subs.trace|..] == [patch];
        assert CountOrgPosts([patch]) == 0 by {
          assert [patch][..0] == [];
        }
      }
    }
  }

  lemma {:induction false} RunUnitsCreateUnits(respond: seq<Request> -> Response, org: OrgNode, i: nat, id: Id, t: seq<Request>, acc: seq<Id>)
    requires org.units.Units? && i <= |org.units.children|
    ensures var r := RunUnits(respond, org, i, id, t, acc);
      r.result.Ok? ==> CountOrgPosts(r.trace[|t|..]) == UnitsCount(org, i)
    decreases org, 0, |org.units.children| - i
  {
    var r := RunUnits(respond, org, i, id, t, acc);
    var us := org.units.children;
    if r.result.Ok? {
      if i == |us| {
        assert r.trace[|t|..] == [];
      } else {
        var child := RunOrg(respond, us[i], Some(id), t);
        RunOrgCreatesEachNode(respond, us[i], Some(id), t);
        RunUnitsCreateUnits(respond, org, i + 1, id, child.trace, acc + [child.result.value]);
        CountChain(t, child.trace, r.trace);
      }
    }
  }

  // Order of the people of a node

  /** Position `p` of `tr` creates person `spec` and the next position patches it into `id`'s members. */
  predicate MemberAddedAt(respond: seq<Request> -> Response, tr: seq<Request>, p: nat, person: PersonBody, id: Id)
  {
    p + 1 < |tr|
    && tr[p] == PostPerson(person)
    && tr[p + 1] == MemberPatch(id, respond(tr[..p + 1]).id)
  }

  /** Member `k` of `ps`, counted from `i`, is added at position `base + 2(k - i)` of `tr`. */
  predicate MemberAt(respond: seq<Request> -> Response, tr: seq<Request>, base: nat, ps: seq<PersonBody>, i: nat, k: nat, id: Id)
    requires i <= k < |ps|
  {
    MemberAddedAt(respond, tr, base + 2 * (k - i), ps[k], id)
  }

  /** One successful member step: post the person, patch it in, and carry on from the next member. */
  lemma RunMembersStep(respond: seq<Request> -> Response, ps: seq<PersonBody>, i: nat, id: Id, t: seq<Request>)
    requires i < |ps|
    ensures var r := RunMembers(respond, ps, i, id, t);
      var preq := PostPerson(ps[i]);
      var next := t + [preq, MemberPatch(id, respond(t + [preq]).id)];
      r.result.Ok? ==> r == RunMembers(respond, ps, i + 1, id, next) && IsPrefix(next, r.trace)
  {
    var r := RunMembers(respond, ps, i, id, t);
    if r.result.Ok? {
      var preq := PostPerson(ps[i]);
      var person := Call(respond, t, preq, "Bad Add Person");
      var patched := Call(respond, person.trace, MemberPatch(id, person.result.value), "Bad Add Member");
      assert r == RunMembers(respond, ps, i + 1, id, patched.trace);
      assert patched.trace == t + [preq, MemberPatch(id, respond(t + [preq]).id)];
    }
  }

  /** A successful member walk posts two requests per member. */
  lemma {:induction false} RunMembersLength(respond: seq<Request> -> Response, ps: seq<PersonBody>, i: nat, id: Id, t: seq<Request>)
    requires i <= |ps|
    ensures var r := RunMembers(respond, ps, i, id, t);
      r.result.Ok? ==> |r.trace| == |t| + 2 * (|ps| - i)
    decreases |ps| - i
  {
    if i < |ps| {
      RunMembersStep(respond, ps, i, id, t);
      var preq := PostPerson(ps[i]);
      RunMembersLength(respond, ps, i + 1, id, t + [preq, MemberPatch(id, respond(t + [preq]).id)]);
    }
  }

  /** Member `k` of `ps[i..]` is created at position `|t| + 2(k - i)` and patched in right after. */
  lemma {:induction false} RunMembersInOrder(respond: seq<Request> -> Response, ps: seq<PersonBody>, i: nat, id: Id, t: seq<Request>)
    requires i <= |ps|
    ensures var r := RunMembers(respond, ps, i, id, t);
      r.result.Ok? ==>
        && |r.trace| == |t| + 2 * (|ps| - i)
        && forall k :: i <= k < |ps| ==> MemberAt(respond, r.trace, |t|, ps, i, k, id)
    decreases |ps| - i
  {
    RunMembersLength(respond, ps, i, id, t);
    var r := RunMembers(respond, ps, i, id, t);
    if i < |ps| && r.result.Ok? {
      RunMembersStep(respond, ps, i, id, t);
      var preq := PostPerson(ps[i]);
      var next := t + [preq, MemberPatch(id, respond(t + [preq]).id)];
      RunMembersInOrder(respond, ps, i + 1, id, next);
      FirstMemberAdded(respond, ps, i, id, t, r.trace);
      MembersShift(respond, ps, i, i + 1, id, r.trace, |t|, |next|);
    }
  }

  /** The member posted and patched in right after `t` sits at position `|t|` of any longer trace. */
  lemma FirstMemberAdded(respond: seq<Request> -> Response, ps: seq<PersonBody>, i: nat, id: Id, t: seq<Request>, tr: seq<Request>)
    requires i < |ps|
    requires var preq := PostPerson(ps[i]);
      IsPrefix(t + [preq, MemberPatch(id, respond(t + [preq]).id)], tr)
    ensures MemberAt(respond, tr, |t|, ps, i, i, id)
  {
    var preq := PostPerson(ps[i]);
    var patched := t + [preq, MemberPatch(id, respond(t + [preq]).id)];
    assert tr[..|t| + 1] == patched[..|t| + 1] == t + [preq];
  }

  /** The member at `i` followed by the ones from `i + 1` on, whose positions count from two further. */
  lemma MembersShift(respond: seq<Request> -> Response, ps: seq<PersonBody>, i: nat, j: nat, id: Id, tr: seq<Request>, base: nat, next: nat)
    requires i < |ps| && MemberAt(respond, tr, base, ps, i, i, id) && next == base + 2 && j == i + 1
    requires forall k :: j <= k < |ps| ==> MemberAt(respond, tr, next, ps, j, k, id)
    ensures forall k :: i <= k < |ps| ==> MemberAt(respond, tr, base, ps, i, k, id)
  {
    forall k | i < k < |ps|
      ensures MemberAt(respond, tr, base, ps, i, k, id)
    {
      assert MemberAt(respond, tr, next, ps, j, k, id);
      assert base + 2 * (k - i) == next + 2 * (k - j);
    }
  }

  lemma RunLeaderAdds(respond: seq<Request> -> Response, leader: Option<string>, id: Id, t: seq<Request>)
    ensures var r := RunLeader(respond, leader, id, t);
      r.result.Ok? ==>
        r.trace == if leader.None? then t
                   else var preq := PostPerson(ParsePerson(leader.value));
                        t + [preq, LeaderPatch(id, respond(t + [preq]).id)]
  {
  }

  lemma PrefixTrans(a: seq<Request>, b: seq<Request>, c: seq<Request>)
    requires IsPrefix(a, b) && IsPrefix(b, c)
    ensures IsPrefix(a, c)
  {
    assert c[..|a|] == c[..|b|][..|a|];
  }

  lemma MembersSurvivePrefix(respond: seq<Request> -> Response, ps: seq<PersonBody>, base: nat, id: Id, a: seq<Request>, b: seq<Request>)
    requires IsPrefix(a, b)
    requires forall k :: 0 <= k < |ps| ==> MemberAt(respond, a, base, ps, 0, k, id)
    ensures forall k :: 0 <= k < |ps| ==> MemberAt(respond, b, base, ps, 0, k, id)
  {
    forall k | 0 <= k < |ps|
      ensures MemberAt(respond, b, base, ps, 0, k, id)
    {
      assert MemberAt(respond, a, base, ps, 0, k, id);
      assert b[..base + 2 * k + 1] == a[..base + 2 * k + 1];
    }
  }

  /** A successful node walk: the creation succeeded, and the body ran on after it and succeeded. */
  lemma RunOrgShape(respond: seq<Request> -> Response, org: OrgNode, parent: Option<Id>, t: seq<Request>)
    ensures var r := RunOrg(respond, org, parent, t);
      var created := Call(respond, t, OrgRequest(org.orgType, org.name, parent), "Bad Add Org");
      r.result.Ok? ==>
        && created.result.Ok? && r.result.value == created.result.value
        && RunBody(respond, org, created.result.value, created.trace).result.Ok?
        && r.trace == RunBody(respond, org, created.result.value, created.trace).trace
  {
  }

  /** A successful body: the leader and member steps succeeded, and the subordinates step is the rest. */
  lemma RunBodyShape(respond: seq<Request> -> Response, org: OrgNode, id: Id, t: seq<Request>)
    ensures var r := RunBody(respond, org, id, t);
      var led := RunLeader(respond, org.leader, id, t);
      var joined := RunMembersOpt(respond, org.members, id, led.trace);
      r.result.Ok? ==>
        && led.result.Ok? && joined.result.Ok?
        && r == RunSubordinates(respond, org, id, joined.trace)
  {
  }

  lemma RunBodyLeaderFirst(respond: seq<Request> -> Response, org: OrgNode, id: Id, t: seq<Request>)
    requires org.leader.Some?
    ensures var r := RunBody(respond, org, id, t);
      r.result.Ok? ==>
        && |r.trace| >= |t| + 2
        && r.trace[|t|] == PostPerson(ParsePerson(org.leader.value))
        && r.trace[|t| + 1] == LeaderPatch(id, respond(r.trace[..|t| + 1]).id)
  {
    var r := RunBody(respond, org, id, t);
    if r.result.Ok? {
      RunBodyShape(respond, org, id, t);
      var led := RunLeader(respond, org.leader, id, t);
      var joined := RunMembersOpt(respond, org.members, id, led.trace);
      RunLeaderAdds(respond, org.leader, id, t);
      PrefixTrans(led.trace, joined.trace, r.trace);
      var preq := PostPerson(ParsePerson(org.leader.value));
      assert led.trace[..|t| + 1] == t + [preq];
      assert r.trace[..|t| + 1] == led.trace[..|t| + 1];
    }
  }

  lemma RunBodyMembersInOrder(respond: seq<Request> -> Response, org: OrgNode, id: Id, t: seq<Request>)
    requires org.members.Some?
    ensures var r := RunBody(respond, org, id, t);
      var base := |t| + (if org.leader.Some? then 2 else 0);
      r.result.Ok? ==>
        forall k :: 0 <= k < |org.members.value| ==>
          MemberAt(respond, r.trace, base, ParseAll(org.members.value), 0, k, id)
  {
    var r := RunBody(respond, org, id, t);
    if r.result.Ok? {
      RunBodyShape(respond, org, id, t);
      var led := RunLeader(respond, org.leader, id, t);
      var joined := RunMembersOpt(respond, org.members, id, led.trace);
      RunLeaderAdds(respond, org.leader, id, t);
      assert IsPrefix(joined.trace, r.trace);
      MembersThenSubordinates(respond, org, id, led.trace, r.trace);
    }
  }

  /** The members of a node keep their positions in every trace that continues their walk. */
  lemma MembersThenSubordinates(respond: seq<Request> -> Response, org: OrgNode, id: Id, s: seq<Request>, tr: seq<Request>)
    requires org.members.Some?
    requires IsPrefix(RunMembersOpt(respond, org.members, id, s).trace, tr)
    ensures var joined := RunMembersOpt(respond, org.members, id, s);
      joined.result.Ok? ==>
        forall k :: 0 <= k < |org.members.value| ==>
          MemberAt(respond, tr, |s|, ParseAll(org.members.value), 0, k, id)
  {
    var joined := RunMembersOpt(respond, org.members, id, s);
    if joined.result.Ok? {
      assert joined == RunMembers(respond, ParseAll(org.members.value), 0, id, s);
      RunMembersInOrder(respond, ParseAll(org.members.value), 0, id, s);
      MembersSurvivePrefix(respond, ParseAll(org.members.value), |s|, id, joined.trace, tr);
    }
  }

  /** The leader is created and attached right after the node itself. */
  lemma RunOrgLeaderFirst(respond: seq<Request> -> Response, org: OrgNode, parent: Option<Id>, t: seq<Request>)
    requires org.leader.Some?
    ensures var r := RunOrg(respond, org, parent, t);
      r.result.Ok? ==>
        && |r.trace| >= |t| + 3
        && r.trace[|t| + 1] == PostPerson(ParsePerson(org.leader.value))
        && r.trace[|t| + 2] == LeaderPatch(r.result.value, respond(r.trace[..|t| + 2]).id)
  {
    var r := RunOrg(respond, org, parent, t);
    var created := Call(respond, t, OrgRequest(org.orgType, org.name, parent), "Bad Add Org");
    RunOrgShape(respond, org, parent, t);
    if r.result.Ok? {
      RunBodyLeaderFirst(respond, org, created.result.value, created.trace);
    }
  }

  /** The members come after the node and its leader, one at a time in input order. */
  lemma RunOrgMembersInOrder(respond: seq<Request> -> Response, org: OrgNode, parent: Option<Id>, t: seq<Request>)
    requires org.members.Some?
    ensures var r := RunOrg(respond, org, parent, t);
      var base := |t| + 1 + (if org.leader.Some? then 2 else 0);
      r.result.Ok? ==>
        forall k :: 0 <= k < |org.members.value| ==>
          MemberAt(respond, r.trace, base, ParseAll(org.members.value), 0, k, r.result.value)
  {
    var r := RunOrg(respond, org, parent, t);
    var created := Call(respond, t, OrgRequest(org.orgType, org.name, parent), "Bad Add Org");
    RunOrgShape(respond, org, parent, t);
    if r.result.Ok? {
      RunBodyMembersInOrder(respond, org, created.result.value, created.trace);
    }
  }

  /** The leader is created and attached first, then the members, one at a time in input order. */
  lemma RunOrgPeopleInOrder(respond: seq<Request> -> Response, org: OrgNode, parent: Option<Id>, t: seq<Request>)
    ensures var r := RunOrg(respond, org, parent, t);
      var base := |t| + 1 + (if org.leader.Some? then 2 else 0);
      r.result.Ok? ==>
        && |r.trace| >= base
        && (org.leader.Some? ==>
              && r.trace[|t| + 1] == PostPerson(ParsePerson(org.leader.value))
              && r.trace[|t| + 2] == LeaderPatch(r.result.value, respond(r.trace[..|t| + 2]).id))
        && (org.members.Some? ==>
              forall k :: 0 <= k < |org.members.value| ==>
                MemberAt(respond, r.trace, base, ParseAll(org.members.value), 0, k, r.result.value))
  {
    if org.leader.Some? {
      RunOrgLeaderFirst(respond, org, parent, t);
    }
    if org.members.Some? {
      RunOrgMembersInOrder(respond, org, parent, t);
    }
  }

  // Children and the subordinate patch

  /** Some request of `tr` from `from` on creates `child` under `parent`, and the API answered it with `childId`. */
  predicate ChildCreated(respond: seq<Request> -> Response, tr: seq<Request>, from: nat, child: OrgNode, parent: Id, childId: Id)
  {
    exists j :: from <= j < |tr| && tr[j] == OrgRequest(child.orgType, child.name, Some(parent))
                && respond(tr[..j + 1]).id == childId
  }

  lemma ChildCreatedInPrefix(respond: seq<Request> -> Response, a: seq<Request>, b: seq<Request>, from: nat, from': nat,
                             child: OrgNode, parent: Id, childId: Id)
    requires IsPrefix(a, b) && from' <= from
    requires ChildCreated(respond, a, from, child, parent, childId)
    ensures ChildCreated(respond, b, from', child, parent, childId)
  {
    var j :| from <= j < |a| && a[j] == OrgRequest(child.orgType, child.name, Some(parent))
             && respond(a[..j + 1]).id == childId;
    assert b[..j + 1] == a[..j + 1];
  }

  /** Each of `us` was created under `parent`, in `tr` from `from` on, and got the matching id of `ids`. */
  predicate ChildrenCreated(respond: seq<Request> -> Response, tr: seq<Request>, from: nat, us: seq<OrgNode>, parent: Id, ids: seq<Id>)
  {
    |ids| == |us| && forall k :: 0 <= k < |us| ==> ChildCreated(respond, tr, from, us[k], parent, ids[k])
  }

  lemma ChildrenCreatedInPrefix(respond: seq<Request> -> Response, a: seq<Request>, b: seq<Request>, from: nat, from': nat,
                                us: seq<OrgNode>, parent: Id, ids: seq<Id>)
    requires IsPrefix(a, b) && from' <= from
    requires ChildrenCreated(respond, a, from, us, parent, ids)
    ensures ChildrenCreated(respond, b, from', us, parent, ids)
  {
    forall k | 0 <= k < |us|
      ensures ChildCreated(respond, b, from', us[k], parent, ids[k])
    {
      ChildCreatedInPrefix(respond, a, b, from, from', us[k], parent, ids[k]);
    }
  }

  lemma ChildrenCreatedCons(respond: seq<Request> -> Response, tr: seq<Request>, from: nat,
                            u: OrgNode, us: seq<OrgNode>, parent: Id, x: Id, ids: seq<Id>)
    requires ChildCreated(respond, tr, from, u, parent, x)
    requires ChildrenCreated(respond, tr, from, us, parent, ids)
    ensures ChildrenCreated(respond, tr, from, [u] + us, parent, [x] + ids)
  {
    forall k | 0 <= k < |us| + 1
      ensures ChildCreated(respond, tr, from, ([u] + us)[k], parent, ([x] + ids)[k])
    {
      if k > 0 {
        assert ([u] + us)[k] == us[k - 1] && ([x] + ids)[k] == ids[k - 1];
      }
    }
  }

  /** The first request of a node's walk creates it under `parent`, and its id is the walk's result. */
  lemma RunOrgCreatesItself(respond: seq<Request> -> Response, org: OrgNode, parent: Id, t: seq<Request>)
    ensures var r := RunOrg(respond, org, Some(parent), t);
      r.result.Ok? ==> ChildCreated(respond, r.trace, |t|, org, parent, r.result.value)
  {
    RunOrgSettled(respond, org, Some(parent), t);
  }

  /** The same, seen in any longer trace. */
  lemma RunOrgCreatesItselfIn(respond: seq<Request> -> Response, org: OrgNode, parent: Id, t: seq<Request>, tr: seq<Request>)
    requires IsPrefix(RunOrg(respond, org, Some(parent), t).trace, tr)
    ensures var r := RunOrg(respond, org, Some(parent), t);
      r.result.Ok? ==> ChildCreated(respond, tr, |t|, org, parent, r.result.value)
  {
    var r := RunOrg(respond, org, Some(parent), t);
    RunOrgCreatesItself(respond, org, parent, t);
    if r.result.Ok? {
      ChildCreatedInPrefix(respond, r.trace, tr, |t|, |t|, org, parent, r.result.value);
    }
  }

  /** Child `k` is created with the parent's id, and its id is the `k`-th id collected. */
  lemma {:induction false} RunUnitsCreateChildren(respond: seq<Request> -> Response, org: OrgNode, i: nat, id: Id, t: seq<Request>, acc: seq<Id>)
    requires org.units.Units? && i <= |org.units.children|
    ensures var r := RunUnits(respond, org, i, id, t, acc);
      r.result.Ok? ==>
        && |acc| <= |r.result.value| && r.result.value[..|acc|] == acc
        && ChildrenCreated(respond, r.trace, |t|, org.units.children[i..], id, r.result.value[|acc|..])
    decreases |org.units.children| - i
  {
    var r := RunUnits(respond, org, i, id, t, acc);
    var us := org.units.children;
    if r.result.Ok? {
      if i == |us| {
        assert r.result.value[|acc|..] == [];
      } else {
        var child := RunOrg(respond, us[i], Some(id), t);
        var acc' := acc + [child.result.value];
        assert r == RunUnits(respond, org, i + 1, id, child.trace, acc');
        RunUnitsCreateChildren(respond, org, i + 1, id, child.trace, acc');
        RunOrgCreatesItselfIn(respond, us[i], id, t, r.trace);
        ChildrenCreatedStep(respond, r.trace, |t|, |child.trace|, us, i, id, acc, child.result.value, r.result.value);
      }
    }
  }

  /** One step of RunUnitsCreateChildren: the child created first goes in front of the children created after it. */
  lemma ChildrenCreatedStep(respond: seq<Request> -> Response, tr: seq<Request>, from: nat, from': nat,
                            us: seq<OrgNode>, i: nat, parent: Id, acc: seq<Id>, x: Id, ids: seq<Id>)
    requires from <= from' && i < |us|
    requires |acc| + 1 <= |ids| && ids[..|acc| + 1] == acc + [x]
    requires ChildCreated(respond, tr, from, us[i], parent, x)
    requires ChildrenCreated(respond, tr, from', us[i + 1..], parent, ids[|acc| + 1..])
    ensures ids[..|acc|] == acc
    ensures ChildrenCreated(respond, tr, from, us[i..], parent, ids[|acc|..])
  {
    assert ids[..|acc|] == ids[..|acc| + 1][..|acc|];
    assert ids[|acc|] == ids[..|acc| + 1][|acc|];
    ChildrenCreatedInPrefix(respond, tr, tr, from', from, us[i + 1..], parent, ids[|acc| + 1..]);
    ChildrenCreatedCons(respond, tr, from, us[i], us[i + 1..], parent, x, ids[|acc| + 1..]);
    assert [x] + ids[|acc| + 1..] == ids[|acc|..];
    assert [us[i]] + us[i + 1..] == us[i..];
  }

  /** The subordinate patch closes the node's walk and lists every child's id in order. */
  ghost predicate ClosedBySubordinatePatch(respond: seq<Request> -> Response, tr: seq<Request>, from: nat, org: OrgNode, id: Id)
    requires org.units.Units?
  {
    exists ids: seq<Id> ::
      && |tr| > 0 && tr[|tr| - 1] == PatchOrg(id, SubordinateOps(ids))
      && ChildrenCreated(respond, tr, from, org.units.children, id, ids)
  }

  lemma RunSubordinatesPatchLast(respond: seq<Request> -> Response, org: OrgNode, id: Id, t: seq<Request>)
    requires org.units.Units?
    ensures var r := RunSubordinates(respond, org, id, t);
      r.result.Ok? ==> ClosedBySubordinatePatch(respond, r.trace, |t|, org, id)
  {
    var r := RunSubordinates(respond, org, id, t);
    if r.result.Ok? {
      var subs := RunUnits(respond, org, 0, id, t, []);
      RunUnitsCreateChildren(respond, org, 0, id, t, []);
      var ids := subs.result.value;
      assert r.trace == subs.trace + [PatchOrg(id, SubordinateOps(ids))];
      assert org.units.children[0..] == org.units.children && ids[0..] == ids;
      ChildrenCreatedInPrefix(respond, subs.trace, r.trace, |t|, |t|, org.units.children, id, ids);
    }
  }

  /** A closing patch seen in a walk's trace is still there once the walk is extended on the left. */
  lemma ClosedInLongerRun(respond: seq<Request> -> Response, a: seq<Request>, from: nat, from': nat, org: OrgNode, id: Id, b: seq<Request>)
    requires org.units.Units? && IsPrefix(a, b) && |a| == |b| && from' <= from
    requires ClosedBySubordinatePatch(respond, a, from, org, id)
    ensures ClosedBySubordinatePatch(respond, b, from', org, id)
  {
    var ids :| |a| > 0 && a[|a| - 1] == PatchOrg(id, SubordinateOps(ids))
               && ChildrenCreated(respond, a, from, org.units.children, id, ids);
    assert a == b;
    ChildrenCreatedInPrefix(respond, a, b, from, from', org.units.children, id, ids);
  }

  /**
   * After a successful walk of a node with `units`, its last request is the one
   * subordinate patch: one append per child, in child order, each carrying the id
   * the API gave that child's creation (which named this node as parent).
   */
  lemma RunOrgSubordinatePatchLast(respond: seq<Request> -> Response, org: OrgNode, parent: Option<Id>, t: seq<Request>)
    requires org.units.Units?
    ensures var r := RunOrg(respond, org, parent, t);
      r.result.Ok? ==> ClosedBySubordinatePatch(respond, r.trace, |t|, org, r.result.value)
  {
    var r := RunOrg(respond, org, parent, t);
    var created := Call(respond, t, OrgRequest(org.orgType, org.name, parent), "Bad Add Org");
    RunOrgShape(respond, org, parent, t);
    if r.result.Ok? {
      var id := created.result.value;
      var body := RunBody(respond, org, id, created.trace);
      RunBodyShape(respond, org, id, created.trace);
      var led := RunLeader(respond, org.leader, id, created.trace);
      var joined := RunMembersOpt(respond, org.members, id, led.trace);
      RunSubordinatesPatchLast(respond, org, id, joined.trace);
      ClosedInLongerRun(respond, body.trace, |joined.trace|, |t|, org, id, r.trace);
    }
  }

  /** An empty `units` list still produces a subordinate patch, with no operations. */
  lemma RunOrgEmptyUnitsStillPatches(respond: seq<Request> -> Response, org: OrgNode, parent: Option<Id>, t: seq<Request>)
    requires org.units == Units([])
    ensures var r := RunOrg(respond, org, parent, t);
      r.result.Ok? ==> r.trace[|r.trace| - 1] == PatchOrg(r.result.value, [])
  {
    var r := RunOrg(respond, org, parent, t);
    RunOrgSubordinatePatchLast(respond, org, parent, t);
    if r.result.Ok? {
      var ids :| |r.trace| > 0 && r.trace[|r.trace| - 1] == PatchOrg(r.result.value, SubordinateOps(ids))
                 && ChildrenCreated(respond, r.trace, |t|, org.units.children, r.result.value, ids);
      assert ids == [];
    }
  }

  // ---------------------------------------------------------------------------
  // The script, against a remote API

  class Remote {
    /** Every request sent so far, oldest first. */
    var trace: seq<Request>
    /** The API's answer to the last request of a trace. */
    const respond: seq<Request> -> Response

    constructor (respond: seq<Request> -> Response)
      ensures this.respond == respond && trace == []
    {
      this.respond := respond;
      trace := [];
    }

    method Fetch(req: Request) returns (resp: Response)
      modifies this
      ensures trace == old(trace) + [req] && resp == respond(trace)
    {
      trace := trace + [req];
      resp := respond(trace);
    }

    method AddNewPerson(spec: string) returns (r: Result<Id, string>)
      modifies this
      ensures Run(r, trace) == Call(respond, old(trace), PostPerson(ParsePerson(spec)), "Bad Add Person")
    {
      var resp := Fetch(PostPerson(ParsePerson(spec)));
      if resp.status != 201 {
        return Err("Bad Add Person");
      }
      return Ok(resp.id);
    }

    method AddNewOrg(orgType: string, name: string, parentId: Option<Id>) returns (r: Result<Id, string>)
      modifies this
      ensures Run(r, trace) == Call(respond, old(trace), OrgRequest(orgType, name, parentId), "Bad Add Org")
    {
      var resp := Fetch(PostOrg(OrgBody(name, [], None, parentId, Upper(orgType), "USAF")));
      if resp.status != 201 {
        return Err("Bad Add Org");
      }
      return Ok(resp.id);
    }

    method AddMemberOrgs(id: Id, orgs: seq<Id>) returns (r: Result<Id, string>)
      modifies this
      ensures Run(r, trace) == Call(respond, old(trace), PatchOrg(id, SubordinateOps(orgs)), "Bad Add Member Org")
    {
      var patchOp: seq<PatchOp> := [];
      var i := 0;
      while i < |orgs|
        invariant 0 <= i <= |orgs|
        invariant patchOp == SubordinateOps(orgs[..i])
      {
        patchOp := patchOp + [PatchOp("add", "/subordinateOrganizations/-", orgs[i])];
        assert orgs[..i + 1][..i] == orgs[..i];
        i := i + 1;
      }
      assert orgs[..i] == orgs;
      var resp := Fetch(PatchOrg(id, patchOp));
      if resp.status != 200 {
        return Err("Bad Add Member Org");
      }
      return Ok(resp.id);
    }

    method AddLeader(id: Id, leader: Id) returns (r: Result<Id, string>)
      modifies this
      ensures Run(r, trace) == Call(respond, old(trace), LeaderPatch(id, leader), "Bad Add Leader")
    {
      var resp := Fetch(PatchOrg(id, [PatchOp("replace", "/leader", leader)]));
      if resp.status != 200 {
        return Err("Bad Add Leader");
      }
      return Ok(resp.id);
    }

    method AddMember(id: Id, member: Id) returns (r: Result<Id, string>)
      modifies this
      ensures Run(r, trace) == Call(respond, old(trace), MemberPatch(id, member), "Bad Add Member")
    {
      var patchOp := [PatchOp("add", "/members/-", member)];
      var resp := Fetch(PatchOrg(id, patchOp));
      if resp.status != 200 {
        return Err("Bad Add Member");
      }
      return Ok(resp.id);
    }

    /** The leader step of `createOrgStructure`. */
    method CreateLeader(leader: Option<string>, newOrgId: Id) returns (r: Result<(), string>)
      modifies this
      ensures Run(r, trace) == RunLeader(respond, leader, newOrgId, old(trace))
    {
      if leader.Some? {
        var leaderId := AddNewPerson(leader.value);
        if leaderId.Err? {
          return Err(leaderId.error);
        }
        var patched := AddLeader(newOrgId, leaderId.value);
        if patched.Err? {
          return Err(patched.error);
        }
      }
      return Ok(());
    }

    /** The members loop of `createOrgStructure`. */
    method CreateMembers(ms: seq<string>, newOrgId: Id) returns (r: Result<(), string>)
      modifies this
      ensures Run(r, trace) == RunMembers(respond, ParseAll(ms), 0, newOrgId, old(trace))
    {
      var i := 0;
      while i < |ms|
        invariant 0 <= i <= |ms|
        invariant RunMembers(respond, ParseAll(ms), 0, newOrgId, old(trace)) == RunMembers(respond, ParseAll(ms), i, newOrgId, trace)
      {
        ParseAllAt(ms, i);
        var memberId := AddNewPerson(ms[i]);
        if memberId.Err? {
          return Err(memberId.error);
        }
        var patched := AddMember(newOrgId, memberId.value);
        if patched.Err? {
          return Err(patched.error);
        }
        i := i + 1;
      }
      return Ok(());
    }

    /** The units loop of `createOrgStructure`, returning the children's ids in order. */
    method CreateUnits(org: OrgNode, newOrgId: Id) returns (r: Result<seq<Id>, string>)
      requires org.units.Units?
      modifies this
      ensures Run(r, trace) == RunUnits(respond, org, 0, newOrgId, old(trace), [])
      decreases org, 0
    {
      var us := org.units.children;
      var subOrgUuids: seq<Id> := [];
      var i := 0;
      while i < |us|
        invariant 0 <= i <= |us|
        invariant RunUnits(respond, org, 0, newOrgId, old(trace), [])
               == RunUnits(respond, org, i, newOrgId, trace, subOrgUuids)
      {
        var child := CreateOrgStructure(us[i], Some(newOrgId));
        if child.Err? {
          return Err(child.error);
        }
        subOrgUuids := subOrgUuids + [child.value];
        i := i + 1;
      }
      return Ok(subOrgUuids);
    }

    /** `createOrgStructure`: a thrown error is an `Err` that ends the walk. */
    method CreateOrgStructure(org: OrgNode, parent: Option<Id>) returns (r: Result<Id, string>)
      modifies this
      ensures Run(r, trace) == RunOrg(respond, org, parent, old(trace))
      decreases org, 3
    {
      var created := AddNewOrg(org.orgType, org.name, parent);
      if created.Err? {
        return Err(created.error);
      }
      var newOrgId := created.value;
      ghost var afterOrg := trace;
      var led := CreateLeader(org.leader, newOrgId);
      if led.Err? {
        return Err(led.error);
      }
      ghost var afterLeader := trace;
      if org.members.Some? {
        var joined := CreateMembers(org.members.value, newOrgId);
        if joined.Err? {
          return Err(joined.error);
        }
      }
      ghost var afterMembers := trace;
      if org.units.Units? {
        var subOrgUuids := CreateUnits(org, newOrgId);
        if subOrgUuids.Err? {
          assert RunSubordinates(respond, org, newOrgId, afterMembers) == Run(Err(subOrgUuids.error), trace);
          assert RunBody(respond, org, newOrgId, afterOrg) == Run(Err(subOrgUuids.error), trace);
          return Err(subOrgUuids.error);
        }
        var patched := AddMemberOrgs(newOrgId, subOrgUuids.value);
        if patched.Err? {
          return Err(patched.error);
        }
      }
      assert RunSubordinates(respond, org, newOrgId, afterMembers) == Run(Ok(()), trace);
      assert RunBody(respond, org, newOrgId, afterOrg) == Run(Ok(()), trace);
      return Ok(newOrgId);
    }
  }
}
