/**
 * The organisation hierarchy: every organisation has at most one parent and a
 * set of subordinate organisations, a leader and members; typed organisations
 * (wing, group, squadron, flight, other USAF unit) carry metadata whose keys
 * must be properties of that type.
 *
 * The organisation repository is the `orgs` map of `OrgStore` and the metadata
 * repository its `metadata` map. The Java recursions over the hierarchy have no
 * bound; here they take a depth, and the store's own operations pass the
 * number of stored organisations, which bounds every parent chain or
 * subordinate path that does not repeat an organisation.
 */
module Organizations {
  import opened Wrappers
  import opened Text

  type Uuid = nat
  type Branch = string

  datatype Unit = Wing | Group | Squadron | Flight | OtherUsaf | Organization

  datatype Org = Org(
    id: Uuid,
    name: string,
    orgType: Option<Unit>,
    branch: Option<Branch>,
    leader: Option<Uuid>,
    members: seq<Uuid>,
    subOrgs: set<Uuid>,
    parent: Option<Uuid>)

  // ---------------------------------------------------------------------------
  // Ancestry

  /**
   * The `n`-th organisation up the parent links from `start` (`start` itself
   * for 0); the chain needs every organisation below the last to be stored.
   */
  function Ancestor(orgs: map<Uuid, Org>, start: Uuid, n: nat): Option<Uuid>
    decreases n
  {
    if n == 0 then Some(start)
    else if start in orgs && orgs[start].parent.Some? then Ancestor(orgs, orgs[start].parent.value, n - 1)
    else None
  }

  /** `orgIsInAncestryChain`: compares each parent up the chain with `id`, for at most `depth` links. */
  function InAncestryChain(orgs: map<Uuid, Org>, id: Uuid, start: Uuid, depth: nat): bool
    decreases depth
  {
    if depth == 0 || start !in orgs then false
    else match orgs[start].parent
      case None => false
      case Some(p) => if p == id then true else InAncestryChain(orgs, id, p, depth - 1)
  }

  /** `id` is in the ancestry chain iff it is one of the first `depth` strict ancestors. */
  lemma AncestryChainIsAncestor(orgs: map<Uuid, Org>, id: Uuid, start: Uuid, depth: nat)
    ensures InAncestryChain(orgs, id, start, depth) <==> exists n :: 1 <= n <= depth && Ancestor(orgs, start, n) == Some(id)
  {
    if InAncestryChain(orgs, id, start, depth) {
      var n := ChainAncestor(orgs, id, start, depth);
    }
    if exists n :: 1 <= n <= depth && Ancestor(orgs, start, n) == Some(id) {
      var n :| 1 <= n <= depth && Ancestor(orgs, start, n) == Some(id);
      AncestorInChain(orgs, id, start, depth, n);
    }
  }

  /** The chain finds `id` at some step `n` up from `start`. */
  lemma {:induction false} ChainAncestor(orgs: map<Uuid, Org>, id: Uuid, start: Uuid, depth: nat) returns (n: nat)
    requires InAncestryChain(orgs, id, start, depth)
    ensures 1 <= n <= depth && Ancestor(orgs, start, n) == Some(id)
    decreases depth
  {
    var p := orgs[start].parent.value;
    if p == id {
      n := 1;
    } else {
      var m := ChainAncestor(orgs, id, p, depth - 1);
      n := m + 1;
    }
  }

  /** An ancestor within `depth` steps is found by the chain. */
  lemma {:induction false} AncestorInChain(orgs: map<Uuid, Org>, id: Uuid, start: Uuid, depth: nat, n: nat)
    requires 1 <= n <= depth && Ancestor(orgs, start, n) == Some(id)
    ensures InAncestryChain(orgs, id, start, depth)
    decreases n
  {
    var p := orgs[start].parent.value;
    if n > 1 && p != id {
      AncestorInChain(orgs, id, p, depth - 1, n - 1);
    }
  }

  // ---------------------------------------------------------------------------
  // Subordinate links

  /** A walk down subordinate links: each organisation but the last is stored and lists the next one. */
  predicate Chain(orgs: map<Uuid, Org>, path: seq<Uuid>)
  {
    |path| >= 1 && forall i :: 0 <= i < |path| - 1 ==> path[i] in orgs && path[i + 1] in orgs[path[i]].subOrgs
  }

  /** `b` is a (strict) descendant of `a`. */
  ghost predicate Reaches(orgs: map<Uuid, Org>, a: Uuid, b: Uuid)
  {
    exists path :: Chain(orgs, path) && |path| >= 2 && path[0] == a && path[|path| - 1] == b
  }

  /** No organisation is its own descendant. */
  ghost predicate Acyclic(orgs: map<Uuid, Org>)
  {
    forall path :: Chain(orgs, path) && |path| >= 2 ==> path[0] != path[|path| - 1]
  }

  /**
   * The stored hierarchy: organisations are stored under their ids, links
   * point at stored organisations, an organisation lists a subordinate exactly
   * when the subordinate names it as parent, and there is no cycle.
   */
  ghost predicate Hierarchy(orgs: map<Uuid, Org>)
  {
    Linked(orgs) && Acyclic(orgs)
  }

  /** The link part of `Hierarchy`. */
  ghost predicate Linked(orgs: map<Uuid, Org>)
  {
    (forall k :: k in orgs ==> orgs[k].id == k && orgs[k].subOrgs <= orgs.Keys)
    && (forall k :: k in orgs && orgs[k].parent.Some? ==> orgs[k].parent.value in orgs && k in orgs[orgs[k].parent.value].subOrgs)
    && (forall p, c :: p in orgs && c in orgs[p].subOrgs ==> orgs[c].parent == Some(p))
  }

  /** Every listed subordinate is stored: what the harvests need to walk. */
  predicate Closed(orgs: map<Uuid, Org>)
  {
    forall k :: k in orgs ==> orgs[k].subOrgs <= orgs.Keys
  }

  lemma LinkedIsClosed(orgs: map<Uuid, Org>)
    requires Linked(orgs)
    ensures Closed(orgs)
  {
  }

  // ---------------------------------------------------------------------------
  // Flattening

  /** An organisation and, for `depth` more levels, its subordinates. */
  function Below(orgs: map<Uuid, Org>, x: Uuid, depth: nat): set<Uuid>
    decreases depth, 0
  {
    {x} + (if depth == 0 || x !in orgs then {} else Harvest(orgs, orgs[x].subOrgs, depth - 1))
  }

  /**
   * `harvestOrgSubordinateUnits`: the organisations `ids` and, for `depth`
   * more levels, their subordinates.
   */
  function Harvest(orgs: map<Uuid, Org>, ids: set<Uuid>, depth: nat): set<Uuid>
    decreases depth, 1
  {
    set x, y | x in ids && y in Below(orgs, x, depth) :: y
  }

  /** The leader of an organisation, if it has one, as a multiset. */
  function LeaderOf(o: Org): (r: multiset<Uuid>)
    ensures o.leader.None? ==> r == multiset{}
    ensures o.leader.Some? ==> r == multiset{o.leader.value}
  {
    if o.leader.Some? then multiset{o.leader.value} else multiset{}
  }

  /**
   * The people `harvestOrgMembers` collects for one organisation: its leader,
   * its members and, for `depth` more levels, those of its subordinates.
   */
  ghost function MembersBelow(orgs: map<Uuid, Org>, x: Uuid, depth: nat): multiset<Uuid>
    decreases depth, 0, 0
  {
    if x !in orgs then multiset{}
    else LeaderOf(orgs[x]) + multiset(orgs[x].members)
         + (if depth == 0 then multiset{} else HarvestMembers(orgs, orgs[x].subOrgs, depth - 1))
  }

  /**
   * `harvestOrgMembers` over a set of organisations: a multiset, because the
   * order of a hash set is not fixed and a person can be collected twice.
   */
  ghost function HarvestMembers(orgs: map<Uuid, Org>, ids: set<Uuid>, depth: nat): multiset<Uuid>
    decreases depth, |ids|, 1
  {
    if ids == {} then multiset{}
    else
      var x :| x in ids;
      MembersBelow(orgs, x, depth) + HarvestMembers(orgs, ids - {x}, depth)
  }

  /** Appending keeps a prefix. */
  lemma PrefixKept<T>(r: seq<T>, added: seq<T>, n: nat)
    requires n <= |r|
    ensures n <= |r + added| && (r + added)[..n] == r[..n]
  {
  }

  /** Any organisation may be visited first: the harvest does not depend on the order. */
  lemma {:induction false} HarvestMembersAnyOrder(orgs: map<Uuid, Org>, ids: set<Uuid>, depth: nat, x: Uuid)
    requires x in ids
    ensures HarvestMembers(orgs, ids, depth) == MembersBelow(orgs, x, depth) + HarvestMembers(orgs, ids - {x}, depth)
    decreases |ids|
  {
    var y :| y in ids && HarvestMembers(orgs, ids, depth) == MembersBelow(orgs, y, depth) + HarvestMembers(orgs, ids - {y}, depth);
    if y != x {
      HarvestMembersAnyOrder(orgs, ids - {y}, depth, x);
      HarvestMembersAnyOrder(orgs, ids - {x}, depth, y);
      assert ids - {y} - {x} == ids - {x} - {y};
    }
  }

  /**
   * The harvest is exactly the set of organisations at the end of a chain of
   * at most `depth` links that starts in `ids`.
   */
  lemma {:induction false} HarvestIsReachable(orgs: map<Uuid, Org>, ids: set<Uuid>, depth: nat, d: Uuid)
    ensures d in Harvest(orgs, ids, depth) <==>
            exists path :: Chain(orgs, path) && path[0] in ids && |path| <= depth + 1 && path[|path| - 1] == d
    decreases depth
  {
    if d in Harvest(orgs, ids, depth) {
      var x :| x in ids && d in Below(orgs, x, depth);
      if d == x {
        assert Chain(orgs, [d]);
      } else {
        HarvestIsReachable(orgs, orgs[x].subOrgs, depth - 1, d);
        var path :| Chain(orgs, path) && path[0] in orgs[x].subOrgs && |path| <= depth && path[|path| - 1] == d;
        var longer := [x] + path;
        assert longer[|longer| - 1] == d;
        assert forall i :: 0 < i < |longer| - 1 ==> longer[i] == path[i - 1] && longer[i + 1] == path[i];
        assert Chain(orgs, longer);
      }
    }
    if exists path :: Chain(orgs, path) && path[0] in ids && |path| <= depth + 1 && path[|path| - 1] == d {
      var path :| Chain(orgs, path) && path[0] in ids && |path| <= depth + 1 && path[|path| - 1] == d;
      var x := path[0];
      if |path| > 1 {
        var rest := path[1..];
        assert Chain(orgs, rest);
        HarvestIsReachable(orgs, orgs[x].subOrgs, depth - 1, d);
        assert d in Below(orgs, x, depth);
      } else {
        assert d in Below(orgs, x, depth);
      }
    }
  }

  /** Every organisation of the harvest is a descendant of `x` (or `x` itself in none of them). */
  lemma HarvestedIsDescendant(orgs: map<Uuid, Org>, x: Uuid, depth: nat, d: Uuid)
    requires x in orgs && d in Harvest(orgs, orgs[x].subOrgs, depth)
    ensures Reaches(orgs, x, d)
  {
    HarvestIsReachable(orgs, orgs[x].subOrgs, depth, d);
    var path :| Chain(orgs, path) && path[0] in orgs[x].subOrgs && |path| <= depth + 1 && path[|path| - 1] == d;
    var longer := [x] + path;
    assert longer[|longer| - 1] == d;
    assert forall i :: 0 < i < |longer| - 1 ==> longer[i] == path[i - 1] && longer[i + 1] == path[i];
    assert Chain(orgs, longer);
  }

  /** A part of a chain is a chain. */
  lemma ChainSlice(orgs: map<Uuid, Org>, path: seq<Uuid>, i: nat, j: nat)
    requires Chain(orgs, path) && i < j <= |path|
    ensures Chain(orgs, path[i..j])
  {
    var part := path[i..j];
    forall k | 0 <= k < |part| - 1
      ensures part[k] in orgs && part[k + 1] in orgs[part[k]].subOrgs
    {
      assert part[k] == path[i + k] && part[k + 1] == path[i + k + 1];
    }
  }

  /** Two chains that meet make one chain. */
  lemma ChainJoin(orgs: map<Uuid, Org>, a: seq<Uuid>, b: seq<Uuid>)
    requires Chain(orgs, a) && Chain(orgs, b) && a[|a| - 1] == b[0]
    ensures Chain(orgs, a + b[1..]) && |a + b[1..]| == |a| + |b| - 1
  {
    var joined := a + b[1..];
    forall k | 0 <= k < |joined| - 1
      ensures joined[k] in orgs && joined[k + 1] in orgs[joined[k]].subOrgs
    {
      if k < |a| - 1 {
        assert joined[k] == a[k] && joined[k + 1] == a[k + 1];
      } else {
        assert joined[k] == b[k - |a| + 1] && joined[k + 1] == b[k - |a| + 2];
      }
    }
  }

  /** In a hierarchy without cycles no chain visits an organisation twice. */
  lemma AcyclicChainsAreSimple(orgs: map<Uuid, Org>, path: seq<Uuid>, i: nat, j: nat)
    requires Acyclic(orgs) && Chain(orgs, path) && i < j < |path|
    ensures path[i] != path[j]
  {
    ChainSlice(orgs, path, i, j + 1);
    assert path[i..j + 1][0] == path[i] && path[i..j + 1][j - i] == path[j];
  }

  /** A sequence without repetitions drawn from `s` is no longer than `s` is large. */
  lemma {:induction false} DistinctWithin(items: seq<Uuid>, s: set<Uuid>)
    requires forall i, j :: 0 <= i < j < |items| ==> items[i] != items[j]
    requires forall i :: 0 <= i < |items| ==> items[i] in s
    ensures |items| <= |s|
  {
    if items != [] {
      var rest := items[1..];
      assert forall i :: 0 <= i < |rest| ==> rest[i] == items[i + 1] && rest[i] != items[0];
      DistinctWithin(rest, s - {items[0]});
    }
  }

  /**
   * In a hierarchy without cycles, a harvest as deep as the hierarchy is large
   * holds every descendant: with the previous lemma, the flattened subordinates
   * of `x` are exactly its descendants.
   */
  lemma DescendantIsHarvested(orgs: map<Uuid, Org>, x: Uuid, d: Uuid)
    requires Acyclic(orgs) && x in orgs && Reaches(orgs, x, d)
    ensures d in Harvest(orgs, orgs[x].subOrgs, |orgs|)
  {
    var path :| Chain(orgs, path) && |path| >= 2 && path[0] == x && path[|path| - 1] == d;
    var inner := path[..|path| - 1];
    forall i, j | 0 <= i < j < |inner|
      ensures inner[i] != inner[j]
    {
      AcyclicChainsAreSimple(orgs, path, i, j);
    }
    DistinctWithin(inner, orgs.Keys);
    var rest := path[1..];
    ChainSlice(orgs, path, 1, |path|);
    HarvestIsReachable(orgs, orgs[x].subOrgs, |orgs|, d);
  }

  // ---------------------------------------------------------------------------
  // Re-parenting

  /** Every organisation with `x` taken out of its subordinates. */
  function Detach(orgs: map<Uuid, Org>, x: Uuid): (r: map<Uuid, Org>)
    ensures r.Keys == orgs.Keys
    ensures forall k :: k in r ==> x !in r[k].subOrgs
  {
    map k | k in orgs :: orgs[k].(subOrgs := orgs[k].subOrgs - {x})
  }

  /**
   * `setOrgParentConditionally` once its checks have passed: `x` leaves every
   * subordinate set, takes `parent` as its parent, and the parent (when there is
   * one) lists it as a subordinate.
   */
  function Reparent(orgs: map<Uuid, Org>, x: Uuid, parent: Option<Uuid>): (r: map<Uuid, Org>)
    requires x in orgs && (parent.Some? ==> parent.value in orgs)
    ensures r.Keys == orgs.Keys
  {
    var freed := Detach(orgs, x);
    var moved := freed[x := freed[x].(parent := parent)];
    match parent
    case None => moved
    case Some(p) => moved[p := moved[p].(subOrgs := moved[p].subOrgs + {x})]
  }

  /**
   * After re-parenting, `x` names `parent` and only `parent` lists `x`; every
   * other link and every other field is as before.
   */
  lemma ReparentEffect(orgs: map<Uuid, Org>, x: Uuid, parent: Option<Uuid>)
    requires x in orgs && (parent.Some? ==> parent.value in orgs)
    ensures Reparent(orgs, x, parent)[x].parent == parent
    ensures forall k :: k in orgs ==> (x in Reparent(orgs, x, parent)[k].subOrgs <==> parent == Some(k))
    ensures forall k :: k in orgs && k != x ==> Reparent(orgs, x, parent)[k].parent == orgs[k].parent
    ensures forall k, c :: k in orgs && c != x ==> (c in Reparent(orgs, x, parent)[k].subOrgs <==> c in orgs[k].subOrgs)
    ensures forall k :: k in orgs ==>
              Reparent(orgs, x, parent)[k].(subOrgs := {}, parent := None) == orgs[k].(subOrgs := {}, parent := None)
  {
  }

  /** A chain after re-parenting `x` that does not enter `x` was a chain before. */
  lemma ChainAvoidingMoved(orgs: map<Uuid, Org>, x: Uuid, parent: Option<Uuid>, path: seq<Uuid>)
    requires x in orgs && (parent.Some? ==> parent.value in orgs)
    requires Chain(Reparent(orgs, x, parent), path)
    requires forall i :: 0 < i < |path| ==> path[i] != x
    ensures Chain(orgs, path)
  {
    var r := Reparent(orgs, x, parent);
    ReparentEffect(orgs, x, parent);
    forall i | 0 <= i < |path| - 1
      ensures path[i] in orgs && path[i + 1] in orgs[path[i]].subOrgs
    {
      assert path[i + 1] != x && path[i + 1] in r[path[i]].subOrgs;
    }
  }

  /** The first position from `i` on that holds `v`, which the sequence ends with. */
  function FirstFrom(s: seq<Uuid>, v: Uuid, i: nat): (j: nat)
    requires i < |s| && s[|s| - 1] == v
    ensures i <= j < |s| && s[j] == v
    ensures forall k :: i <= k < j ==> s[k] != v
    decreases |s| - i
  {
    if s[i] == v then i else FirstFrom(s, v, i + 1)
  }

  /**
   * A cycle after re-parenting `x` was a cycle before, or it runs through the
   * new link, in which case the new parent is `x` or one of its descendants.
   */
  lemma CycleAfterReparent(orgs: map<Uuid, Org>, x: Uuid, parent: Option<Uuid>, path: seq<Uuid>)
    requires x in orgs && (parent.Some? ==> parent.value in orgs)
    requires Chain(Reparent(orgs, x, parent), path) && |path| >= 2 && path[0] == path[|path| - 1]
    ensures Chain(orgs, path) || (parent.Some? && (parent.value == x || Reaches(orgs, x, parent.value)))
  {
    var r := Reparent(orgs, x, parent);
    if forall i :: 0 < i < |path| ==> path[i] != x {
      ChainAvoidingMoved(orgs, x, parent, path);
    } else {
      var k :| 0 < k < |path| && path[k] == x;
      var back := FirstReturn(r, path, k);
      ReparentEffect(orgs, x, parent);
      assert parent == Some(back[|back| - 1]);
      ChainAvoidingMoved(orgs, x, parent, back);
      if |back| > 1 {
        assert Chain(orgs, back) && |back| >= 2 && back[0] == x && back[|back| - 1] == parent.value;
      }
    }
  }

  /**
   * Re-parenting `x` under an organisation that is neither `x` nor one of its
   * descendants (or under none) creates no cycle.
   */
  lemma ReparentKeepsAcyclic(orgs: map<Uuid, Org>, x: Uuid, parent: Option<Uuid>, path: seq<Uuid>)
    requires Acyclic(orgs) && x in orgs
    requires parent.Some? ==> parent.value in orgs && parent.value != x && !Reaches(orgs, x, parent.value)
    requires Chain(Reparent(orgs, x, parent), path) && |path| >= 2
    ensures path[0] != path[|path| - 1]
  {
    if path[0] == path[|path| - 1] {
      CycleAfterReparent(orgs, x, parent, path);
      assert false;
    }
  }

  /**
   * Read from a position `k` on it, a cycle returns to `path[k]`: the chain up to
   * its first return, whose last organisation lists `path[k]`.
   */
  lemma FirstReturn(orgs: map<Uuid, Org>, path: seq<Uuid>, k: nat) returns (back: seq<Uuid>)
    requires Chain(orgs, path) && |path| >= 2 && path[0] == path[|path| - 1] && 0 < k < |path|
    ensures Chain(orgs, back) && back[0] == path[k]
    ensures back[|back| - 1] in orgs && path[k] in orgs[back[|back| - 1]].subOrgs
    ensures forall i :: 0 < i < |back| ==> back[i] != path[k]
  {
    ChainSlice(orgs, path, k, |path|);
    ChainSlice(orgs, path, 0, k + 1);
    ChainJoin(orgs, path[k..], path[..k + 1]);
    var round := path[k..] + path[..k + 1][1..];
    assert round[0] == path[k] && round[|round| - 1] == path[k];
    var j := FirstFrom(round, path[k], 1);
    ChainSlice(orgs, round, 0, j);
    back := round[..j];
    assert round[j - 1] in orgs && round[j] in orgs[round[j - 1]].subOrgs;
  }

  /** Re-parenting keeps every link of the hierarchy consistent. */
  lemma ReparentKeepsLinks(orgs: map<Uuid, Org>, x: Uuid, parent: Option<Uuid>)
    requires Linked(orgs) && x in orgs && (parent.Some? ==> parent.value in orgs)
    ensures Linked(Reparent(orgs, x, parent))
  {
    var r := Reparent(orgs, x, parent);
    ReparentEffect(orgs, x, parent);
    forall k | k in r
      ensures r[k].id == k && r[k].subOrgs <= r.Keys
    {
      assert r[k].(subOrgs := {}, parent := None).id == r[k].id;
      forall c | c in r[k].subOrgs ensures c in r {
        if c != x {
          assert c in orgs[k].subOrgs;
        }
      }
    }
    forall k | k in r && r[k].parent.Some?
      ensures r[k].parent.value in r && k in r[r[k].parent.value].subOrgs
    {
      if k != x {
        assert r[k].parent == orgs[k].parent;
        assert k in orgs[orgs[k].parent.value].subOrgs;
      }
    }
    forall p, c | p in r && c in r[p].subOrgs
      ensures r[c].parent == Some(p)
    {
      if c != x {
        assert c in orgs[p].subOrgs;
      }
    }
  }

  /** Re-parenting as the corrected check allows it keeps the hierarchy. */
  lemma ReparentKeepsHierarchy(orgs: map<Uuid, Org>, x: Uuid, parent: Option<Uuid>)
    requires Hierarchy(orgs) && x in orgs
    requires parent.Some? ==> parent.value in orgs && parent.value != x && !Reaches(orgs, x, parent.value)
    ensures Hierarchy(Reparent(orgs, x, parent))
  {
    ReparentKeepsLinks(orgs, x, parent);
    forall path | Chain(Reparent(orgs, x, parent), path) && |path| >= 2
      ensures path[0] != path[|path| - 1]
    {
      ReparentKeepsAcyclic(orgs, x, parent, path);
    }
  }

  /** In a linked hierarchy, an organisation without parent is nobody's subordinate. */
  lemma ParentlessIsUnlisted(orgs: map<Uuid, Org>, p: Uuid, c: Uuid)
    requires Linked(orgs) && p in orgs && (c in orgs ==> orgs[c].parent.None?)
    ensures c !in orgs[p].subOrgs
  {
  }

  /** In a linked hierarchy, an ancestor reaches down to the organisation. */
  lemma {:induction false} AncestorReaches(orgs: map<Uuid, Org>, start: Uuid, n: nat, a: Uuid)
    requires Linked(orgs) && n >= 1 && Ancestor(orgs, start, n) == Some(a)
    ensures Reaches(orgs, a, start)
    decreases n
  {
    var p := orgs[start].parent.value;
    var link := [p, start];
    assert Chain(orgs, link);
    if n > 1 {
      AncestorReaches(orgs, p, n - 1, a);
      var path :| Chain(orgs, path) && |path| >= 2 && path[0] == a && path[|path| - 1] == p;
      ChainJoin(orgs, path, link);
      var longer := path + link[1..];
      assert longer[0] == a && longer[|longer| - 1] == start;
    } else {
      assert Ancestor(orgs, p, 0) == Some(p);
    }
  }

  // ---------------------------------------------------------------------------
  // Parent checks

  /** `parentOrgCandidateIsDescendent`: the candidate is among the flattened subordinates of `x`. */
  function CandidateIsDescendant(orgs: map<Uuid, Org>, x: Uuid, candidate: Uuid): bool
    requires x in orgs
  {
    candidate in Harvest(orgs, orgs[x].subOrgs, |orgs|)
  }

  /** Without cycles, the flattened subordinates of `x` are exactly its descendants. */
  lemma CandidateIsDescendantIffReaches(orgs: map<Uuid, Org>, x: Uuid, candidate: Uuid)
    requires Acyclic(orgs) && x in orgs
    ensures CandidateIsDescendant(orgs, x, candidate) <==> Reaches(orgs, x, candidate)
  {
    if CandidateIsDescendant(orgs, x, candidate) {
      HarvestedIsDescendant(orgs, x, |orgs|, candidate);
    }
    if Reaches(orgs, x, candidate) {
      DescendantIsHarvested(orgs, x, candidate);
    }
  }

  /**
   * `setOrgParentConditionally` as written: a missing candidate detaches `x`;
   * a candidate among the flattened subordinates of `x`, or one not stored, is
   * refused; any other candidate, `x` itself included, becomes its parent.
   */
  function ParentOutcomeAsWritten(orgs: map<Uuid, Org>, x: Uuid, candidate: Option<Uuid>): (r: Result<map<Uuid, Org>, Failure>)
    requires x in orgs
    ensures r.Err? ==> r.error == InvalidRecordUpdateRequest
  {
    match candidate
    case None => Ok(Reparent(orgs, x, None))
    case Some(p) =>
      if CandidateIsDescendant(orgs, x, p) || p !in orgs then Err(InvalidRecordUpdateRequest)
      else Ok(Reparent(orgs, x, Some(p)))
  }

  /** As written, an organisation may be made its own parent, which closes a cycle. */
  lemma SelfParentAsWritten(orgs: map<Uuid, Org>, x: Uuid)
    requires Hierarchy(orgs) && x in orgs
    ensures ParentOutcomeAsWritten(orgs, x, Some(x)).Ok?
    ensures !Acyclic(ParentOutcomeAsWritten(orgs, x, Some(x)).value)
  {
    CandidateIsDescendantIffReaches(orgs, x, x);
    var r := Reparent(orgs, x, Some(x));
    ReparentEffect(orgs, x, Some(x));
    assert Chain(r, [x, x]);
  }

  /**
   * `setOrgParentConditionally` with the check corrected to refuse `x` itself
   * as well as its descendants.
   */
  function ParentOutcome(orgs: map<Uuid, Org>, x: Uuid, candidate: Option<Uuid>): (r: Result<map<Uuid, Org>, Failure>)
    requires x in orgs
    ensures r.Err? ==> r.error == InvalidRecordUpdateRequest
    ensures r.Ok? ==> r.value.Keys == orgs.Keys
  {
    match candidate
    case None => Ok(Reparent(orgs, x, None))
    case Some(p) =>
      if p == x || CandidateIsDescendant(orgs, x, p) || p !in orgs then Err(InvalidRecordUpdateRequest)
      else Ok(Reparent(orgs, x, Some(p)))
  }

  /** A parent is refused exactly when it is `x`, one of its descendants, or not stored. */
  lemma ParentOutcomeRefusesDescendants(orgs: map<Uuid, Org>, x: Uuid, p: Uuid)
    requires Hierarchy(orgs) && x in orgs
    ensures ParentOutcome(orgs, x, Some(p)).Err? <==> p == x || p !in orgs || Reaches(orgs, x, p)
  {
    CandidateIsDescendantIffReaches(orgs, x, p);
  }

  /**
   * An accepted parent change keeps the hierarchy, gives `x` the new parent,
   * and leaves `x` in the subordinates of that parent only (of none, when the
   * parent is cleared).
   */
  lemma ParentOutcomeKeepsHierarchy(orgs: map<Uuid, Org>, x: Uuid, candidate: Option<Uuid>)
    requires Hierarchy(orgs) && x in orgs && ParentOutcome(orgs, x, candidate).Ok?
    ensures Hierarchy(ParentOutcome(orgs, x, candidate).value)
    ensures ParentOutcome(orgs, x, candidate).value[x].parent == candidate
    ensures forall k :: k in orgs ==> (x in ParentOutcome(orgs, x, candidate).value[k].subOrgs <==> candidate == Some(k))
  {
    if candidate.Some? {
      CandidateIsDescendantIffReaches(orgs, x, candidate.value);
    }
    ReparentKeepsHierarchy(orgs, x, candidate);
    ReparentEffect(orgs, x, candidate);
  }

  // ---------------------------------------------------------------------------
  // Adding and removing subordinates

  /**
   * `performFamilyTreeChecks`: `sub` may not be an ancestor of `org` nor a
   * subordinate of another organisation; then `org` becomes its parent.
   */
  function FamilyTreeOutcome(orgs: map<Uuid, Org>, org: Uuid, sub: Uuid): (r: Result<map<Uuid, Org>, Failure>)
    requires org in orgs && sub in orgs
    ensures r.Err? ==> r.error == InvalidRecordUpdateRequest
    ensures r.Ok? ==> r.value.Keys == orgs.Keys
  {
    if InAncestryChain(orgs, sub, org, |orgs|) then Err(InvalidRecordUpdateRequest)
    else if exists k :: k in orgs && k != org && sub in orgs[k].subOrgs then Err(InvalidRecordUpdateRequest)
    else ParentOutcome(orgs, sub, Some(org))
  }

  /** In a linked hierarchy, `sub` found above `org` is also found below it going down. */
  lemma AncestryIsDescent(orgs: map<Uuid, Org>, sub: Uuid, org: Uuid)
    requires Linked(orgs)
    ensures InAncestryChain(orgs, sub, org, |orgs|) ==> Reaches(orgs, sub, org)
  {
    AncestryChainIsAncestor(orgs, sub, org, |orgs|);
    if InAncestryChain(orgs, sub, org, |orgs|) {
      var n :| 1 <= n <= |orgs| && Ancestor(orgs, org, n) == Some(sub);
      AncestorReaches(orgs, org, n, sub);
    }
  }

  /** In a linked hierarchy, another organisation lists `sub` exactly when `sub` names another parent. */
  lemma ListedElsewhere(orgs: map<Uuid, Org>, org: Uuid, sub: Uuid)
    requires Linked(orgs) && sub in orgs
    ensures (exists k :: k in orgs && k != org && sub in orgs[k].subOrgs) <==> orgs[sub].parent.Some? && orgs[sub].parent != Some(org)
  {
    if orgs[sub].parent.Some? && orgs[sub].parent != Some(org) {
      var k := orgs[sub].parent.value;
      assert k in orgs && k != org && sub in orgs[k].subOrgs;
    }
  }

  /**
   * The family-tree checks accept `sub` exactly when it is not `org`, has no
   * other parent and is not above `org`.
   */
  lemma FamilyTreeAccepts(orgs: map<Uuid, Org>, org: Uuid, sub: Uuid)
    requires Hierarchy(orgs) && org in orgs && sub in orgs
    ensures FamilyTreeOutcome(orgs, org, sub).Ok? <==>
            sub != org && orgs[sub].parent in {None, Some(org)} && !Reaches(orgs, sub, org)
  {
    AncestryIsDescent(orgs, sub, org);
    ListedElsewhere(orgs, org, sub);
    ParentOutcomeRefusesDescendants(orgs, sub, org);
    var elsewhere := exists k :: k in orgs && k != org && sub in orgs[k].subOrgs;
    assert FamilyTreeOutcome(orgs, org, sub).Ok? ==
           (!InAncestryChain(orgs, sub, org, |orgs|) && !elsewhere && ParentOutcome(orgs, sub, Some(org)).Ok?);
  }

  /** Once accepted, `sub` hangs under `org` and the hierarchy is kept. */
  lemma FamilyTreeResult(orgs: map<Uuid, Org>, org: Uuid, sub: Uuid)
    requires Hierarchy(orgs) && org in orgs && sub in orgs && FamilyTreeOutcome(orgs, org, sub).Ok?
    ensures Hierarchy(FamilyTreeOutcome(orgs, org, sub).value)
    ensures FamilyTreeOutcome(orgs, org, sub).value[sub].parent == Some(org)
    ensures sub in FamilyTreeOutcome(orgs, org, sub).value[org].subOrgs
    ensures forall k :: k in orgs && k != sub ==> FamilyTreeOutcome(orgs, org, sub).value[k].parent == orgs[k].parent
  {
    assert FamilyTreeOutcome(orgs, org, sub) == ParentOutcome(orgs, sub, Some(org));
    ParentOutcomeKeepsHierarchy(orgs, sub, Some(org));
    ReparentEffect(orgs, sub, Some(org));
  }

  /** An element of a non-empty sequence is its head or in its tail. */
  lemma InHeadOrTail(ids: seq<Uuid>)
    requires ids != []
    ensures forall k :: k in ids <==> k == ids[0] || k in ids[1..]
  {
    assert ids == [ids[0]] + ids[1..];
  }

  /** The loop of `addOrg`: the family-tree checks for each id in turn, stopping at the first refusal. */
  function AddSubordinates(orgs: map<Uuid, Org>, org: Uuid, ids: seq<Uuid>): (r: Result<map<Uuid, Org>, Failure>)
    requires org in orgs
    ensures r.Ok? ==> r.value.Keys == orgs.Keys
    decreases |ids|
  {
    if ids == [] then Ok(orgs)
    else if ids[0] !in orgs then Err(InvalidRecordUpdateRequest)
    else match FamilyTreeOutcome(orgs, org, ids[0])
      case Err(e) => Err(e)
      case Ok(next) => AddSubordinates(next, org, ids[1..])
  }

  /** `addOrg`: the organisation must exist; the whole change is undone on a refusal. */
  function AddOrgOutcome(orgs: map<Uuid, Org>, org: Uuid, ids: seq<Uuid>): Result<map<Uuid, Org>, Failure>
  {
    if org !in orgs then Err(RecordNotFound) else AddSubordinates(orgs, org, ids)
  }

  /** Adding subordinates keeps the hierarchy. */
  lemma {:induction false} AddSubordinatesKeepsHierarchy(orgs: map<Uuid, Org>, org: Uuid, ids: seq<Uuid>)
    requires Hierarchy(orgs) && org in orgs && AddSubordinates(orgs, org, ids).Ok?
    ensures Hierarchy(AddSubordinates(orgs, org, ids).value)
    decreases |ids|
  {
    if ids != [] {
      FamilyTreeResult(orgs, org, ids[0]);
      AddSubordinatesKeepsHierarchy(FamilyTreeOutcome(orgs, org, ids[0]).value, org, ids[1..]);
    }
  }

  /** After adding subordinates, every added id names `org` as parent and no other parent changed. */
  lemma {:induction false} AddSubordinatesParents(orgs: map<Uuid, Org>, org: Uuid, ids: seq<Uuid>)
    requires Hierarchy(orgs) && org in orgs && AddSubordinates(orgs, org, ids).Ok?
    ensures forall k :: k in orgs ==>
              AddSubordinates(orgs, org, ids).value[k].parent == if k in ids then Some(org) else orgs[k].parent
    decreases |ids|
  {
    if ids != [] {
      var next := FamilyTreeOutcome(orgs, org, ids[0]).value;
      FamilyTreeResult(orgs, org, ids[0]);
      AddSubordinatesParents(next, org, ids[1..]);
      assert AddSubordinates(orgs, org, ids) == AddSubordinates(next, org, ids[1..]);
      InHeadOrTail(ids);
    }
  }

  /**
   * The loop of `removeOrg`: each id must exist and is then detached from
   * whichever organisation lists it, whether or not that is the organisation
   * named in the request.
   */
  function RemoveSubordinates(orgs: map<Uuid, Org>, ids: seq<Uuid>): (r: Result<map<Uuid, Org>, Failure>)
    ensures r.Ok? ==> r.value.Keys == orgs.Keys && forall i :: 0 <= i < |ids| ==> ids[i] in orgs
    ensures r.Err? ==> r.error == InvalidRecordUpdateRequest
    decreases |ids|
  {
    if ids == [] then Ok(orgs)
    else if ids[0] !in orgs then Err(InvalidRecordUpdateRequest)
    else RemoveSubordinates(Reparent(orgs, ids[0], None), ids[1..])
  }

  /** `removeOrg`: the organisation must exist; the whole change is undone on a refusal. */
  function RemoveOrgOutcome(orgs: map<Uuid, Org>, org: Uuid, ids: seq<Uuid>): Result<map<Uuid, Org>, Failure>
  {
    if org !in orgs then Err(RecordNotFound) else RemoveSubordinates(orgs, ids)
  }

  /** Removing subordinates keeps the hierarchy. */
  lemma {:induction false} RemoveSubordinatesKeepsHierarchy(orgs: map<Uuid, Org>, ids: seq<Uuid>)
    requires Hierarchy(orgs) && RemoveSubordinates(orgs, ids).Ok?
    ensures Hierarchy(RemoveSubordinates(orgs, ids).value)
    decreases |ids|
  {
    if ids != [] {
      ReparentKeepsHierarchy(orgs, ids[0], None);
      RemoveSubordinatesKeepsHierarchy(Reparent(orgs, ids[0], None), ids[1..]);
    }
  }

  /** After removing subordinates, every removed id has no parent and no other parent changed. */
  lemma {:induction false} RemoveSubordinatesParents(orgs: map<Uuid, Org>, ids: seq<Uuid>)
    requires RemoveSubordinates(orgs, ids).Ok?
    ensures forall k :: k in orgs ==>
              RemoveSubordinates(orgs, ids).value[k].parent == if k in ids then None else orgs[k].parent
    decreases |ids|
  {
    if ids != [] {
      var next := Reparent(orgs, ids[0], None);
      ReparentEffect(orgs, ids[0], None);
      RemoveSubordinatesParents(next, ids[1..]);
      InHeadOrTail(ids);
    }
  }

  /** Removed subordinates are listed by no organisation afterwards. */
  lemma RemoveSubordinatesDetaches(orgs: map<Uuid, Org>, ids: seq<Uuid>, k: Uuid, x: Uuid)
    requires Hierarchy(orgs) && RemoveSubordinates(orgs, ids).Ok? && k in orgs && x in ids
    ensures x !in RemoveSubordinates(orgs, ids).value[k].subOrgs
  {
    RemoveSubordinatesKeepsHierarchy(orgs, ids);
    RemoveSubordinatesParents(orgs, ids);
    var r := RemoveSubordinates(orgs, ids).value;
    ParentlessIsUnlisted(r, k, x);
  }

  // ---------------------------------------------------------------------------
  // Metadata

  /** Metadata of one organisation: property name to value, `None` for a null value. */
  type Metadata = map<string, Option<string>>

  /**
   * The properties a type allows: the fields the type's class declares, given
   * by `fieldsOf`; ORGANIZATION, and a missing type, allow none.
   */
  function AllowedProperties(fieldsOf: Unit -> set<string>, orgType: Option<Unit>): set<string>
  {
    match orgType
    case None => {}
    case Some(Organization) => {}
    case Some(t) => fieldsOf(t)
  }

  /** `checkValidMetadataProperties`: every given property must be allowed for the type. */
  function CheckMetadataProperties(fieldsOf: Unit -> set<string>, orgType: Option<Unit>, metadata: Option<Metadata>): (r: Result<(), Failure>)
    ensures r.Err? <==> metadata.Some? && exists k :: k in metadata.value && k !in AllowedProperties(fieldsOf, orgType)
    ensures r.Err? ==> r.error == InvalidRecordUpdateRequest
  {
    match metadata
    case None => Ok(())
    case Some(m) =>
      var unknown := set k | k in m && k !in AllowedProperties(fieldsOf, orgType);
      if unknown == {} then
        assert forall k :: k in m ==> k !in unknown;
        Ok(())
      else Err(InvalidRecordUpdateRequest)
  }

  /** The metadata rows `appendAndUpdateMetadata` deletes and the ones it saves. */
  datatype MetadataChanges = MetadataChanges(toDelete: set<string>, toSave: Metadata)

  /**
   * The diff of `appendAndUpdateMetadata`: with no metadata, every stored
   * property of an existing organisation goes; without a stored organisation,
   * every given property is saved; otherwise a given null value of a stored
   * property deletes it and every other given property is saved.
   */
  function Changes(db: Option<Metadata>, metadata: Option<Metadata>): MetadataChanges
  {
    match metadata
    case None => MetadataChanges(if db.Some? then db.value.Keys else {}, map[])
    case Some(m) =>
      match db
      case None => MetadataChanges({}, m)
      case Some(d) => MetadataChanges(set k | k in m && k in d && m[k].None?,
                                      map k | k in m && !(k in d && m[k].None?) :: m[k])
  }

  /** The stored metadata after the deletions and then the saves. */
  function Applied(stored: Metadata, changes: MetadataChanges): Metadata
  {
    (stored - changes.toDelete) + changes.toSave
  }

  /**
   * Updating the metadata of a stored organisation: a given property with a
   * value ends up with that value; a given null value removes a stored
   * property and is saved as null otherwise; a property not given is kept.
   */
  lemma MetadataUpdate(d: Metadata, m: Metadata, k: string)
    ensures k in m && m[k].Some? ==> k in Applied(d, Changes(Some(d), Some(m))) && Applied(d, Changes(Some(d), Some(m)))[k] == m[k]
    ensures k in m && m[k].None? ==> (k in Applied(d, Changes(Some(d), Some(m))) <==> k !in d)
    ensures k !in m ==> (k in Applied(d, Changes(Some(d), Some(m))) <==> k in d)
    ensures k !in m && k in d ==> Applied(d, Changes(Some(d), Some(m)))[k] == d[k]
  {
  }

  /** With no metadata, every stored property of the organisation is deleted and nothing saved. */
  lemma NullMetadataClears(d: Metadata)
    ensures Applied(d, Changes(Some(d), None)) == map[]
  {
  }

  /** A property is never both deleted and saved, and what is saved was given. */
  lemma ChangesAreDisjoint(db: Option<Metadata>, metadata: Option<Metadata>)
    ensures Changes(db, metadata).toDelete !! Changes(db, metadata).toSave.Keys
    ensures metadata.Some? ==> forall k :: k in Changes(db, metadata).toSave ==> k in metadata.value && Changes(db, metadata).toSave[k] == metadata.value[k]
    ensures metadata.Some? ==> forall k :: k in metadata.value ==> k in Changes(db, metadata).toDelete || k in Changes(db, metadata).toSave
  {
  }

  // ---------------------------------------------------------------------------
  // Search

  /** The name filter of `findOrganizationsByTypeAndService`: case-insensitive containment. */
  predicate NameMatches(org: Org, query: string)
  {
    Contains(Lower(org.name), Lower(query))
  }

  /**
   * The type and branch filter: an absent filter value is not used; comparing
   * with the missing type or branch of an organisation is a null dereference.
   */
  function KindMatches(org: Org, orgType: Option<Unit>, branch: Option<Branch>): Result<bool, Failure>
  {
    if orgType.None? && branch.None? then Ok(true)
    else if branch.None? then (if org.orgType.None? then Err(NullReference) else Ok(org.orgType == orgType))
    else if orgType.None? then (if org.branch.None? then Err(NullReference) else Ok(org.branch == branch))
    else if org.orgType.None? then Err(NullReference)
    else if org.orgType != orgType then Ok(false)
    else if org.branch.None? then Err(NullReference)
    else Ok(org.branch == branch)
  }

  /** `findOrganizationsByTypeAndService` over one page of organisations, in page order. */
  function FindByTypeAndService(page: seq<Org>, query: string, orgType: Option<Unit>, branch: Option<Branch>): Result<seq<Org>, Failure>
  {
    if page == [] then Ok([])
    else
      var head := page[0];
      var keep :=
        if !NameMatches(head, query) then Ok(false) else KindMatches(head, orgType, branch);
      match keep
      case Err(e) => Err(e)
      case Ok(b) =>
        match FindByTypeAndService(page[1..], query, orgType, branch)
        case Err(e) => Err(e)
        case Ok(rest) => Ok(if b then [head] + rest else rest)
  }

  /** The search fails exactly when a name-matching organisation has a type or branch filter hit a null. */
  lemma {:induction false} FindByTypeAndServiceFails(page: seq<Org>, query: string, orgType: Option<Unit>, branch: Option<Branch>)
    ensures FindByTypeAndService(page, query, orgType, branch).Err? <==>
            exists i :: 0 <= i < |page| && NameMatches(page[i], query) && KindMatches(page[i], orgType, branch).Err?
  {
    if page != [] {
      var rest := page[1..];
      FindByTypeAndServiceFails(rest, query, orgType, branch);
      if exists i :: 0 <= i < |rest| && NameMatches(rest[i], query) && KindMatches(rest[i], orgType, branch).Err? {
        var i :| 0 <= i < |rest| && NameMatches(rest[i], query) && KindMatches(rest[i], orgType, branch).Err?;
        assert page[i + 1] == rest[i];
      }
      if exists i :: 0 <= i < |page| && NameMatches(page[i], query) && KindMatches(page[i], orgType, branch).Err? {
        var i :| 0 <= i < |page| && NameMatches(page[i], query) && KindMatches(page[i], orgType, branch).Err?;
        if i > 0 {
          assert rest[i - 1] == page[i];
        }
      }
    }
  }

  /** A successful search keeps exactly the organisations that match the name and both filters. */
  lemma {:induction false} FindByTypeAndServiceKeeps(page: seq<Org>, query: string, orgType: Option<Unit>, branch: Option<Branch>)
    ensures FindByTypeAndService(page, query, orgType, branch).Ok? ==>
            forall o :: o in FindByTypeAndService(page, query, orgType, branch).value <==>
                          o in page && NameMatches(o, query) && KindMatches(o, orgType, branch) == Ok(true)
  {
    if page != [] {
      FindByTypeAndServiceKeeps(page[1..], query, orgType, branch);
      InHeadOrTailOrg(page);
    }
  }

  /** An element of a non-empty sequence of organisations is its head or in its tail. */
  lemma InHeadOrTailOrg(page: seq<Org>)
    requires page != []
    ensures forall o :: o in page <==> o == page[0] || o in page[1..]
  {
    assert page == [page[0]] + page[1..];
  }

  /** Only allowed properties are ever saved: the property check guards the diff. */
  lemma SavedPropertiesAreAllowed(fieldsOf: Unit -> set<string>, orgType: Option<Unit>, db: Option<Metadata>, metadata: Option<Metadata>)
    requires CheckMetadataProperties(fieldsOf, orgType, metadata).Ok?
    ensures Changes(db, metadata).toSave.Keys <= AllowedProperties(fieldsOf, orgType)
  {
    ChangesAreDisjoint(db, metadata);
  }

  /** What lies below a stored organisation, one level unfolded. */
  lemma BelowStored(orgs: map<Uuid, Org>, x: Uuid, depth: nat)
    requires x in orgs
    ensures depth == 0 ==> Below(orgs, x, depth) == {x}
    ensures depth > 0 ==> Below(orgs, x, depth) == {x} + Harvest(orgs, orgs[x].subOrgs, depth - 1)
  {
  }

  /** The harvest grows by one stored organisation and what its walk collected. */
  lemma HarvestStep(orgs: map<Uuid, Org>, done: set<Uuid>, x: Uuid, depth: nat, below: set<Uuid>)
    requires x in orgs
    requires depth == 0 ==> below == {}
    requires depth > 0 ==> below == Harvest(orgs, orgs[x].subOrgs, depth - 1)
    ensures Harvest(orgs, done + {x}, depth) == Harvest(orgs, done, depth) + ({x} + below)
  {
    BelowStored(orgs, x, depth);
    HarvestAddOne(orgs, done, x, depth);
  }

  /** Adding one organisation to the harvested set adds what lies below it. */
  lemma HarvestAddOne(orgs: map<Uuid, Org>, ids: set<Uuid>, x: Uuid, depth: nat)
    ensures Harvest(orgs, ids + {x}, depth) == Harvest(orgs, ids, depth) + Below(orgs, x, depth)
  {
  }

  /** The diff for a stored organisation, one given property at a time. */
  method ComputeChanges(d: Metadata, m: Metadata) returns (c: MetadataChanges)
    ensures c == Changes(Some(d), Some(m))
  {
    var toDelete: set<string> := {};
    var toSave: Metadata := map[];
    var todo := m.Keys;
    while todo != {}
      invariant todo <= m.Keys
      invariant forall j :: j in toDelete <==> j in m && j !in todo && j in d && m[j].None?
      invariant forall j :: j in toSave <==> j in m && j !in todo && !(j in d && m[j].None?)
      invariant forall j :: j in toSave ==> toSave[j] == m[j]
      decreases |todo|
    {
      var k :| k in todo;
      if k in d && m[k].None? {
        toDelete := toDelete + {k};
      } else {
        toSave := toSave[k := m[k]];
      }
      todo := todo - {k};
    }
    assert toDelete == set k | k in m && k in d && m[k].None?;
    assert toSave == map k | k in m && !(k in d && m[k].None?) :: m[k];
    c := MetadataChanges(toDelete, toSave);
  }

  /**
   * The organisation repository and the organisation metadata repository. The
   * declared fields of each type's class are given by `fieldsOf`.
   */
  class OrgStore {
    var orgs: map<Uuid, Org>
    var metadata: map<Uuid, Metadata>
    const fieldsOf: Unit -> set<string>

    ghost predicate Valid()
      reads this
    {
      Hierarchy(orgs)
    }

    constructor(initial: map<Uuid, Org>, fieldsOf: Unit -> set<string>)
      requires Hierarchy(initial)
      ensures Valid() && orgs == initial && metadata == map[] && this.fieldsOf == fieldsOf
    {
      orgs := initial;
      metadata := map[];
      this.fieldsOf := fieldsOf;
    }

    /** The stored metadata of an organisation. */
    function StoredMetadata(id: Uuid): Metadata
      reads this
    {
      if id in metadata then metadata[id] else map[]
    }

    /** `harvestOrgSubordinateUnits`, `depth` levels deep. */
    method HarvestOrgSubordinateUnits(ids: set<Uuid>, depth: nat) returns (acc: set<Uuid>)
      requires Closed(orgs) && ids <= orgs.Keys
      ensures acc == Harvest(orgs, ids, depth)
      decreases depth
    {
      acc := {};
      var todo, done := ids, {};
      while todo != {}
        invariant done + todo == ids
        invariant acc == Harvest(orgs, done, depth)
        decreases |todo|
      {
        var x :| x in todo;
        var below: set<Uuid> := {};
        if depth > 0 {
          below := HarvestOrgSubordinateUnits(orgs[x].subOrgs, depth - 1);
        }
        HarvestStep(orgs, done, x, depth, below);
        acc := acc + ({x} + below);
        todo, done := todo - {x}, done + {x};
      }
    }

    /** `harvestOrgMembers`, `depth` levels deep: appends to `acc`. */
    method HarvestOrgMembers(ids: set<Uuid>, acc: seq<Uuid>, depth: nat) returns (r: seq<Uuid>)
      requires Closed(orgs) && ids <= orgs.Keys
      ensures |r| >= |acc| && r[..|acc|] == acc
      ensures multiset(r) == multiset(acc) + HarvestMembers(orgs, ids, depth)
      decreases depth, 1
    {
      r := acc;
      var todo := ids;
      while todo != {}
        invariant todo <= ids
        invariant |r| >= |acc| && r[..|acc|] == acc
        invariant multiset(r) + HarvestMembers(orgs, todo, depth) == multiset(acc) + HarvestMembers(orgs, ids, depth)
        decreases |todo|
      {
        var x :| x in todo;
        var added := HarvestOneOrg(x, depth);
        HarvestMembersAnyOrder(orgs, todo, depth, x);
        PrefixKept(r, added, |acc|);
        r := r + added;
        todo := todo - {x};
      }
    }

    /** One organisation's turn in `harvestOrgMembers`: its leader, its members, then below. */
    method HarvestOneOrg(x: Uuid, depth: nat) returns (added: seq<Uuid>)
      requires Closed(orgs) && x in orgs
      ensures multiset(added) == MembersBelow(orgs, x, depth)
      decreases depth, 0
    {
      var sub := orgs[x];
      var lead: seq<Uuid> := if sub.leader.Some? then [sub.leader.value] else [];
      assert multiset(lead) == LeaderOf(sub);
      added := lead + sub.members;
      if depth > 0 {
        added := HarvestOrgMembers(sub.subOrgs, added, depth - 1);
      }
    }

    /**
     * `flattenOrg`: the organisation with every descendant as a subordinate and,
     * after its own members, the leader and members of every descendant.
     */
    method FlattenOrg(x: Uuid) returns (flat: Org)
      requires Valid() && x in orgs
      ensures flat.(subOrgs := {}, members := []) == orgs[x].(subOrgs := {}, members := [])
      ensures forall d :: d in flat.subOrgs <==> Reaches(orgs, x, d)
      ensures |flat.members| >= |orgs[x].members| && flat.members[..|orgs[x].members|] == orgs[x].members
      ensures multiset(flat.members) == multiset(orgs[x].members) + HarvestMembers(orgs, orgs[x].subOrgs, |orgs|)
    {
      LinkedIsClosed(orgs);
      var org := orgs[x];
      var subs := HarvestOrgSubordinateUnits(org.subOrgs, |orgs|);
      var members := HarvestOrgMembers(org.subOrgs, org.members, |orgs|);
      flat := org.(subOrgs := subs, members := members);
      forall d
        ensures d in flat.subOrgs <==> Reaches(orgs, x, d)
      {
        CandidateIsDescendantIffReaches(orgs, x, d);
      }
    }

    /** `parentOrgCandidateIsDescendent`: membership in the flattened subordinates. */
    method ParentOrgCandidateIsDescendent(x: Uuid, candidate: Uuid) returns (b: bool)
      requires Valid() && x in orgs
      ensures b == CandidateIsDescendant(orgs, x, candidate)
      ensures b <==> Reaches(orgs, x, candidate)
    {
      var flat := FlattenOrg(x);
      b := candidate in flat.subOrgs;
      CandidateIsDescendantIffReaches(orgs, x, candidate);
    }

    /** Takes `x` out of the subordinates of every organisation listing it. */
    method DetachFromParents(x: Uuid)
      modifies this
      ensures orgs == Detach(old(orgs), x) && metadata == old(metadata)
    {
      var parents := set k | k in orgs && x in orgs[k].subOrgs;
      var todo := parents;
      while todo != {}
        invariant todo <= parents
        invariant orgs.Keys == old(orgs).Keys && metadata == old(metadata)
        invariant forall k :: k in orgs ==>
                    orgs[k] == if k in parents - todo then old(orgs)[k].(subOrgs := old(orgs)[k].subOrgs - {x}) else old(orgs)[k]
        decreases |todo|
      {
        var p :| p in todo;
        orgs := orgs[p := orgs[p].(subOrgs := orgs[p].subOrgs - {x})];
        todo := todo - {p};
      }
      forall k | k in orgs
        ensures orgs[k] == Detach(old(orgs), x)[k]
      {
        if k !in parents {
          assert old(orgs)[k].subOrgs - {x} == old(orgs)[k].subOrgs;
        }
      }
    }

    /** The no-parent branch of `setOrgParentConditionally`: clear the parent, then detach. */
    method ClearParent(x: Uuid)
      requires x in orgs
      modifies this
      ensures orgs == Reparent(old(orgs), x, None) && metadata == old(metadata)
    {
      orgs := orgs[x := orgs[x].(parent := None)];
      DetachFromParents(x);
    }

    /** The accepted branch of `setOrgParentConditionally`: detach, then link under `p`. */
    method MoveUnder(x: Uuid, p: Uuid)
      requires x in orgs && p in orgs
      modifies this
      ensures orgs == Reparent(old(orgs), x, Some(p)) && metadata == old(metadata)
    {
      DetachFromParents(x);
      orgs := orgs[x := orgs[x].(parent := Some(p))];
      orgs := orgs[p := orgs[p].(subOrgs := orgs[p].subOrgs + {x})];
    }

    /**
     * `setOrgParentConditionally`, with the descendant check corrected to
     * refuse `x` itself: the hierarchy is kept whatever the outcome.
     */
    method SetOrgParentConditionally(x: Uuid, candidate: Option<Uuid>) returns (r: Result<(), Failure>)
      requires Valid() && x in orgs
      modifies this
      ensures Valid() && metadata == old(metadata)
      ensures ParentOutcome(old(orgs), x, candidate).Err? ==>
                r == Err(ParentOutcome(old(orgs), x, candidate).error) && orgs == old(orgs)
      ensures ParentOutcome(old(orgs), x, candidate).Ok? ==>
                r == Ok(()) && orgs == ParentOutcome(old(orgs), x, candidate).value
    {
      if candidate.None? {
        ParentOutcomeKeepsHierarchy(orgs, x, candidate);
        ClearParent(x);
        return Ok(());
      }
      var p := candidate.value;
      var isDescendant := ParentOrgCandidateIsDescendent(x, p);
      if p == x || isDescendant || p !in orgs {
        return Err(InvalidRecordUpdateRequest);
      }
      ParentOutcomeKeepsHierarchy(orgs, x, candidate);
      MoveUnder(x, p);
      r := Ok(());
    }

    /** `performFamilyTreeChecks` followed by the parent change it leads to. */
    method PerformFamilyTreeChecks(org: Uuid, sub: Uuid) returns (r: Result<(), Failure>)
      requires Valid() && org in orgs && sub in orgs
      modifies this
      ensures Valid() && metadata == old(metadata)
      ensures FamilyTreeOutcome(old(orgs), org, sub).Err? ==>
                r == Err(FamilyTreeOutcome(old(orgs), org, sub).error) && orgs == old(orgs)
      ensures FamilyTreeOutcome(old(orgs), org, sub).Ok? ==>
                r == Ok(()) && orgs == FamilyTreeOutcome(old(orgs), org, sub).value
    {
      if InAncestryChain(orgs, sub, org, |orgs|) {
        return Err(InvalidRecordUpdateRequest);
      }
      var elsewhere := set k | k in orgs && k != org && sub in orgs[k].subOrgs;
      if elsewhere != {} {
        var k :| k in elsewhere;
        assert k in orgs && k != org && sub in orgs[k].subOrgs;
        return Err(InvalidRecordUpdateRequest);
      }
      assert FamilyTreeOutcome(orgs, org, sub) == ParentOutcome(orgs, sub, Some(org)) by {
        forall k | k in orgs && k != org ensures sub !in orgs[k].subOrgs {
          assert k !in elsewhere;
        }
      }
      r := SetOrgParentConditionally(sub, Some(org));
    }

    /** `addOrg`: each id in turn, the whole change undone on the first refusal. */
    method AddOrg(org: Uuid, ids: seq<Uuid>) returns (r: Result<(), Failure>)
      requires Valid()
      modifies this
      ensures Valid() && metadata == old(metadata)
      ensures AddOrgOutcome(old(orgs), org, ids).Err? ==>
                r == Err(AddOrgOutcome(old(orgs), org, ids).error) && orgs == old(orgs)
      ensures AddOrgOutcome(old(orgs), org, ids).Ok? ==>
                r == Ok(()) && orgs == AddOrgOutcome(old(orgs), org, ids).value
    {
      if org !in orgs {
        return Err(RecordNotFound);
      }
      var saved := orgs;
      var i := 0;
      while i < |ids|
        invariant 0 <= i <= |ids|
        invariant Valid() && org in orgs && metadata == old(metadata)
        invariant AddSubordinates(saved, org, ids) == AddSubordinates(orgs, org, ids[i..])
      {
        assert ids[i..][1..] == ids[i + 1..];
        if ids[i] !in orgs {
          orgs := saved;
          return Err(InvalidRecordUpdateRequest);
        }
        var step := PerformFamilyTreeChecks(org, ids[i]);
        if step.Err? {
          orgs := saved;
          return step;
        }
        i := i + 1;
      }
      r := Ok(());
    }

    /**
     * `removeOrg`: each id in turn loses its parent (taking it out of the
     * requesting organisation's list is part of that), the whole change undone
     * on the first missing id.
     */
    method RemoveOrg(org: Uuid, ids: seq<Uuid>) returns (r: Result<(), Failure>)
      requires Valid()
      modifies this
      ensures Valid() && metadata == old(metadata)
      ensures RemoveOrgOutcome(old(orgs), org, ids).Err? ==>
                r == Err(RemoveOrgOutcome(old(orgs), org, ids).error) && orgs == old(orgs)
      ensures RemoveOrgOutcome(old(orgs), org, ids).Ok? ==>
                r == Ok(()) && orgs == RemoveOrgOutcome(old(orgs), org, ids).value
    {
      if org !in orgs {
        return Err(RecordNotFound);
      }
      var saved := orgs;
      var i := 0;
      while i < |ids|
        invariant 0 <= i <= |ids|
        invariant Valid() && metadata == old(metadata)
        invariant RemoveSubordinates(saved, ids) == RemoveSubordinates(orgs, ids[i..])
      {
        assert ids[i..][1..] == ids[i + 1..];
        if ids[i] !in orgs {
          orgs := saved;
          return Err(InvalidRecordUpdateRequest);
        }
        var step := SetOrgParentConditionally(ids[i], None);
        i := i + 1;
      }
      r := Ok(());
    }

    /**
     * `appendAndUpdateMetadata`: checks the properties, works out the diff
     * against the stored metadata when `dbEntity` holds, applies it to the
     * repository only when `allowedToEdit` holds, and returns the saved
     * properties as the entity's new metadata.
     */
    method AppendAndUpdateMetadata(id: Uuid, orgType: Option<Unit>, dbEntity: bool, given: Option<Metadata>, allowedToEdit: bool)
      returns (r: Result<Metadata, Failure>)
      modifies this
      ensures orgs == old(orgs)
      ensures CheckMetadataProperties(fieldsOf, orgType, given).Err? ==>
                r == Err(InvalidRecordUpdateRequest) && metadata == old(metadata)
      ensures CheckMetadataProperties(fieldsOf, orgType, given).Ok? ==>
                var changes := Changes(if dbEntity then Some(old(StoredMetadata(id))) else None, given);
                r == Ok(changes.toSave)
                && metadata == if allowedToEdit then old(metadata)[id := Applied(old(StoredMetadata(id)), changes)] else old(metadata)
    {
      var check := CheckMetadataProperties(fieldsOf, orgType, given);
      if check.Err? {
        return Err(check.error);
      }
      var stored := StoredMetadata(id);
      var changes: MetadataChanges;
      if given.None? {
        changes := MetadataChanges(if dbEntity then stored.Keys else {}, map[]);
      } else if !dbEntity {
        changes := MetadataChanges({}, given.value);
      } else {
        changes := ComputeChanges(stored, given.value);
      }
      if allowedToEdit {
        metadata := metadata[id := Applied(stored, changes)];
      }
      r := Ok(changes.toSave);
    }
  }
}
