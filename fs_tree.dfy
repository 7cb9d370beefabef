/**
 * The folder tree of the document spaces: a table of file-system entries, each
 * naming its parent by item id, with path resolution (creating folders on the way
 * when asked), adding and renaming folders, recursive archiving and unarchiving,
 * the archived-item listing, the ancestor chain and the propagation of
 * modification dates to ancestors.
 */
module FsTree {
  import opened Wrappers
  import opened Text
  import opened FsPaths

  type ItemId = nat
  type SpaceId = nat

  /** `NIL_UUID`: the parent id of everything at the root of a space; no entry has it. */
  const Nil: ItemId := 0

  /** A row of the file-system entry table. */
  datatype Entry = Entry(itemId: ItemId, space: SpaceId, parent: ItemId, name: string,
                         isFolder: bool, archived: bool, lastModified: Option<int>)

  /** What `parsePathToFilePathSpec` reports about a path. */
  datatype FilePathSpec = FilePathSpec(space: SpaceId, itemId: ItemId, itemName: string, fullPathSpec: string,
                                       uuidList: seq<ItemId>, parentFolderId: ItemId)

  /** An item of the archived listing: its folder flag, the path of its folder and its name. */
  datatype ArchivedItem = ArchivedItem(isFolder: bool, path: string, key: string)

  // ---------------------------------------------------------------------------
  // The table

  /** Rows `i` and `j` are the same row or carry different item ids. */
  predicate DistinctAt(es: seq<Entry>, i: int, j: int)
  {
    0 <= i < |es| && 0 <= j < |es| ==> i == j || es[i].itemId != es[j].itemId
  }

  /** When row `j` is the parent of row `i`, it comes first. */
  predicate ParentBefore(es: seq<Entry>, i: int, j: int)
  {
    0 <= i < |es| && 0 <= j < |es| && es[j].itemId == es[i].parent ==> j < i
  }

  /**
   * Item ids are positive, unique and below `nextId` (as are parent ids), and a
   * parent row always comes before its children.
   */
  predicate TableValid(es: seq<Entry>, nextId: nat)
  {
    && 0 < nextId
    && (forall i :: 0 <= i < |es| ==> 0 < es[i].itemId < nextId && es[i].parent < nextId)
    && (forall i, j {:trigger DistinctAt(es, i, j)} :: 0 <= i < |es| && 0 <= j < |es| ==> DistinctAt(es, i, j))
    && (forall i, j {:trigger ParentBefore(es, i, j)} :: 0 <= i < |es| && 0 <= j < |es| ==> ParentBefore(es, i, j))
  }

  lemma ParentIsEarlier(es: seq<Entry>, nextId: nat, i: nat, j: nat)
    requires TableValid(es, nextId) && i < |es| && j < |es| && es[j].itemId == es[i].parent
    ensures j < i
  {
    assert ParentBefore(es, i, j);
  }

  /** A row that is a child of the node at `pos` (-1 standing for the root) comes after it. */
  lemma ChildAfterNode(es: seq<Entry>, nextId: nat, j: nat, pos: int)
    requires TableValid(es, nextId) && j < |es| && -1 <= pos < |es|
    requires es[j].parent == if pos == -1 then Nil else es[pos].itemId
    ensures pos < j
  {
    if pos >= 0 {
      assert ParentBefore(es, j, pos);
    }
  }

  /** Two tables with the same rows up to the archived flags, names and dates. */
  predicate SameShape(a: seq<Entry>, b: seq<Entry>)
  {
    |a| == |b|
    && forall i :: 0 <= i < |a| ==> a[i].itemId == b[i].itemId && a[i].space == b[i].space && a[i].parent == b[i].parent
  }

  lemma SameShapeTrans(a: seq<Entry>, b: seq<Entry>, c: seq<Entry>)
    requires SameShape(a, b) && SameShape(b, c)
    ensures SameShape(a, c)
  {
  }

  predicate IsNamedChild(e: Entry, space: SpaceId, parent: ItemId, name: string)
  {
    e.space == space && e.parent == parent && e.name == name
  }

  /** `findByDocumentSpaceIdEqualsAndItemNameEqualsAndParentEntryIdEquals`: the first such row. */
  function FindChild(es: seq<Entry>, space: SpaceId, parent: ItemId, name: string): (r: Option<nat>)
    ensures r.Some? ==> r.value < |es| && IsNamedChild(es[r.value], space, parent, name)
    ensures r.Some? ==> forall k :: 0 <= k < r.value ==> !IsNamedChild(es[k], space, parent, name)
    ensures r.None? ==> forall k :: 0 <= k < |es| ==> !IsNamedChild(es[k], space, parent, name)
  {
    FindChildFrom(es, space, parent, name, 0)
  }

  function FindChildFrom(es: seq<Entry>, space: SpaceId, parent: ItemId, name: string, k: nat): (r: Option<nat>)
    requires k <= |es|
    ensures r.Some? ==> k <= r.value < |es| && IsNamedChild(es[r.value], space, parent, name)
    ensures r.Some? ==> forall j :: k <= j < r.value ==> !IsNamedChild(es[j], space, parent, name)
    ensures r.None? ==> forall j :: k <= j < |es| ==> !IsNamedChild(es[j], space, parent, name)
    decreases |es| - k
  {
    if k == |es| then None
    else if IsNamedChild(es[k], space, parent, name) then Some(k)
    else FindChildFrom(es, space, parent, name, k + 1)
  }

  /** `existsByDocumentSpaceIdAndParentEntryIdAndItemName`, archived or not. */
  predicate ExistsNamed(es: seq<Entry>, space: SpaceId, parent: ItemId, name: string)
  {
    exists k :: 0 <= k < |es| && IsNamedChild(es[k], space, parent, name)
  }

  /** `existsByDocumentSpaceIdAndParentEntryIdAndItemNameAndIsDeleteArchivedEquals(..., true)`. */
  predicate ExistsArchivedNamed(es: seq<Entry>, space: SpaceId, parent: ItemId, name: string)
  {
    exists k :: 0 <= k < |es| && IsNamedChild(es[k], space, parent, name) && es[k].archived
  }

  /** `findByItemIdEquals`: the row with that item id. */
  function IndexOf(es: seq<Entry>, id: ItemId): (r: Option<nat>)
    ensures r.Some? ==> r.value < |es| && es[r.value].itemId == id
    ensures r.Some? ==> forall k :: 0 <= k < r.value ==> es[k].itemId != id
    ensures r.None? ==> forall k :: 0 <= k < |es| ==> es[k].itemId != id
  {
    IndexFrom(es, id, 0)
  }

  function IndexFrom(es: seq<Entry>, id: ItemId, k: nat): (r: Option<nat>)
    requires k <= |es|
    ensures r.Some? ==> k <= r.value < |es| && es[r.value].itemId == id
    ensures r.Some? ==> forall j :: k <= j < r.value ==> es[j].itemId != id
    ensures r.None? ==> forall j :: k <= j < |es| ==> es[j].itemId != id
    decreases |es| - k
  {
    if k == |es| then None
    else if es[k].itemId == id then Some(k)
    else IndexFrom(es, id, k + 1)
  }

  lemma IndexOfUnique(es: seq<Entry>, nextId: nat, i: nat)
    requires TableValid(es, nextId) && i < |es|
    ensures IndexOf(es, es[i].itemId) == Some(i)
  {
    assert DistinctAt(es, IndexOf(es, es[i].itemId).value, i);
  }

  lemma IndexOfSameShape(a: seq<Entry>, b: seq<Entry>, id: ItemId)
    requires SameShape(a, b)
    ensures IndexOf(a, id) == IndexOf(b, id)
  {
    var ra := IndexOf(a, id);
    var rb := IndexOf(b, id);
    if ra.Some? {
      assert b[ra.value].itemId == id;
    }
    if rb.Some? {
      assert a[rb.value].itemId == id;
    }
  }

  lemma FindChildSameNames(a: seq<Entry>, b: seq<Entry>, space: SpaceId, parent: ItemId, name: string)
    requires SameShape(a, b) && forall i :: 0 <= i < |a| ==> a[i].name == b[i].name
    ensures FindChild(a, space, parent, name) == FindChild(b, space, parent, name)
  {
    var ra := FindChild(a, space, parent, name);
    var rb := FindChild(b, space, parent, name);
    if ra.Some? && rb.Some? {
      if ra.value < rb.value {
        assert IsNamedChild(b[ra.value], space, parent, name);
      } else if rb.value < ra.value {
        assert IsNamedChild(a[rb.value], space, parent, name);
      }
    } else if ra.Some? {
      assert IsNamedChild(b[ra.value], space, parent, name);
    } else if rb.Some? {
      assert IsNamedChild(a[rb.value], space, parent, name);
    }
  }

  /** A first match is still the first match once rows are appended. */
  lemma FindChildAppend(es: seq<Entry>, extra: seq<Entry>, space: SpaceId, parent: ItemId, name: string)
    requires FindChild(es, space, parent, name).Some?
    ensures FindChild(es + extra, space, parent, name) == FindChild(es, space, parent, name)
  {
    var i := FindChild(es, space, parent, name).value;
    var r := FindChild(es + extra, space, parent, name);
    assert IsNamedChild((es + extra)[i], space, parent, name);
  }

  // ---------------------------------------------------------------------------
  // Resolving a path

  function LastOr(ids: seq<ItemId>, default: ItemId): ItemId
  {
    if ids == [] then default else ids[|ids| - 1]
  }

  /** The item ids named by `segs` from the root of `space`, following the first match at each level. */
  function Resolve(es: seq<Entry>, space: SpaceId, segs: seq<string>): (r: Option<seq<ItemId>>)
    ensures r.Some? ==> |r.value| == |segs|
  {
    if segs == [] then Some([])
    else
      match Resolve(es, space, segs[..|segs| - 1])
      case None => None
      case Some(ids) =>
        match FindChild(es, space, LastOr(ids, Nil), segs[|segs| - 1])
        case None => None
        case Some(i) => Some(ids + [es[i].itemId])
  }

  /**
   * `ids` is a chain of rows: the `k`-th id belongs to a row of the space named
   * `segs[k]` whose parent is the previous id (the root for the first).
   */
  predicate IsChain(es: seq<Entry>, space: SpaceId, segs: seq<string>, ids: seq<ItemId>)
  {
    |ids| == |segs|
    && forall k :: 0 <= k < |ids| ==>
         IndexOf(es, ids[k]).Some?
         && IsNamedChild(es[IndexOf(es, ids[k]).value], space, if k == 0 then Nil else ids[k - 1], segs[k])
  }

  /** What a resolved path means: the ids of a chain of rows named by the segments. */
  lemma {:induction false} ResolveIsChain(es: seq<Entry>, nextId: nat, space: SpaceId, segs: seq<string>)
    requires TableValid(es, nextId)
    ensures Resolve(es, space, segs).Some? ==> IsChain(es, space, segs, Resolve(es, space, segs).value)
  {
    var r := Resolve(es, space, segs);
    if segs != [] && r.Some? {
      var front := segs[..|segs| - 1];
      ResolveIsChain(es, nextId, space, front);
      var ids := Resolve(es, space, front).value;
      assert IsChain(es, space, front, ids);
      var i := FindChild(es, space, LastOr(ids, Nil), segs[|segs| - 1]).value;
      IndexOfUnique(es, nextId, i);
      assert r.value == ids + [es[i].itemId];
      forall k | 0 <= k < |segs|
        ensures IndexOf(es, r.value[k]).Some?
          && IsNamedChild(es[IndexOf(es, r.value[k]).value], space, if k == 0 then Nil else r.value[k - 1], segs[k])
      {
        if k > 0 {
          assert r.value[k - 1] == ids[k - 1];
        }
        if k < |segs| - 1 {
          assert r.value[k] == ids[k] && front[k] == segs[k];
        } else {
          assert r.value[k] == es[i].itemId;
        }
      }
      assert IsChain(es, space, segs, r.value);
    }
  }

  /** Resolution against a table only grows with appended rows. */
  lemma {:induction false} ResolveAppend(es: seq<Entry>, extra: seq<Entry>, space: SpaceId, segs: seq<string>)
    requires Resolve(es, space, segs).Some?
    ensures Resolve(es + extra, space, segs) == Resolve(es, space, segs)
  {
    if segs != [] {
      var front := segs[..|segs| - 1];
      ResolveAppend(es, extra, space, front);
      var ids := Resolve(es, space, front).value;
      FindChildAppend(es, extra, space, LastOr(ids, Nil), segs[|segs| - 1]);
      var i := FindChild(es, space, LastOr(ids, Nil), segs[|segs| - 1]).value;
      assert (es + extra)[i] == es[i];
    }
  }

  lemma {:induction false} ResolveSameNames(a: seq<Entry>, b: seq<Entry>, space: SpaceId, segs: seq<string>)
    requires SameShape(a, b) && forall i :: 0 <= i < |a| ==> a[i].name == b[i].name
    ensures Resolve(a, space, segs) == Resolve(b, space, segs)
  {
    if segs != [] {
      var front := segs[..|segs| - 1];
      ResolveSameNames(a, b, space, front);
      if Resolve(a, space, front).Some? {
        var ids := Resolve(a, space, front).value;
        FindChildSameNames(a, b, space, LastOr(ids, Nil), segs[|segs| - 1]);
      }
    }
  }

  /** The `fullPathSpec` built while resolving: every name followed by "/". */
  function PathAccumulated(segs: seq<string>): string
  {
    if segs == [] then "" else PathAccumulated(segs[..|segs| - 1]) + segs[|segs| - 1] + "/"
  }

  // ---------------------------------------------------------------------------
  // Ancestors

  /**
   * The strict ancestors of an item whose parent id is `parent`, root first; `None`
   * when one of them has no row. `bound` is the position of the item itself.
   */
  function AncestorsOf(es: seq<Entry>, parent: ItemId, bound: nat): (r: Option<seq<Entry>>)
    requires bound <= |es|
    ensures r.Some? ==> forall k :: 0 <= k < |r.value| ==> r.value[k] in es[..bound]
    ensures r.Some? ==> |r.value| > 0 ==> r.value[0].parent == Nil && r.value[|r.value| - 1].itemId == parent
    ensures r.Some? ==> forall k :: 0 < k < |r.value| ==> r.value[k].parent == r.value[k - 1].itemId
    ensures r.Some? && r.value == [] ==> parent == Nil
    decreases bound
  {
    if parent == Nil then Some([])
    else
      match IndexOf(es, parent)
      case None => None
      case Some(j) =>
        if j < bound then
          match AncestorsOf(es, es[j].parent, j)
          case None => None
          case Some(up) => Some(up + [es[j]])
        else None
  }

  lemma {:induction false} AncestorsSameShape(a: seq<Entry>, b: seq<Entry>, parent: ItemId, bound: nat)
    requires SameShape(a, b) && bound <= |a|
    ensures AncestorsOf(a, parent, bound).Some? == AncestorsOf(b, parent, bound).Some?
    ensures AncestorsOf(a, parent, bound).Some? ==>
      IdsOf(AncestorsOf(a, parent, bound).value) == IdsOf(AncestorsOf(b, parent, bound).value)
    decreases bound
  {
    if parent != Nil {
      IndexOfSameShape(a, b, parent);
      var j := IndexOf(a, parent);
      if j.Some? && j.value < bound {
        AncestorsSameShape(a, b, a[j.value].parent, j.value);
        var ua := AncestorsOf(a, a[j.value].parent, j.value);
        var ub := AncestorsOf(b, b[j.value].parent, j.value);
        if ua.Some? {
          IdsOfAppend(ua.value, a[j.value]);
          IdsOfAppend(ub.value, b[j.value]);
        }
      }
    }
  }

  lemma IdsOfAppend(up: seq<Entry>, e: Entry)
    ensures IdsOf(up + [e]) == IdsOf(up) + {e.itemId}
  {
    var s := up + [e];
    assert s[..|up| + 1] == s && s[..|up|] == up;
    IdsOfSnoc(s, |up|);
  }


  /** A row older than `date`: no modification date yet, or an earlier one. */
  predicate Older(e: Entry, date: int)
  {
    e.lastModified.None? || e.lastModified.value < date
  }

  /** The table after every row with an id in `ids` that is older than `date` gets `date`. */
  function Stamp(es: seq<Entry>, ids: set<ItemId>, date: int): (r: seq<Entry>)
    ensures SameShape(es, r)
    ensures forall i :: 0 <= i < |es| ==> r[i] == es[i].(lastModified := r[i].lastModified)
  {
    seq(|es|, i requires 0 <= i < |es| =>
      if es[i].itemId in ids && Older(es[i], date) then es[i].(lastModified := Some(date)) else es[i])
  }

  function IdsOf(es: seq<Entry>): set<ItemId>
  {
    set k | 0 <= k < |es| :: es[k].itemId
  }

  lemma IdsOfSnoc(es: seq<Entry>, k: nat)
    requires k < |es|
    ensures IdsOf(es[..k + 1]) == IdsOf(es[..k]) + {es[k].itemId}
  {
    var a := IdsOf(es[..k + 1]);
    var b := IdsOf(es[..k]) + {es[k].itemId};
    forall id | id in a ensures id in b {
      var m :| 0 <= m < k + 1 && es[..k + 1][m].itemId == id;
      if m < k {
        assert es[..k][m] == es[m];
      }
    }
    forall id | id in b ensures id in a {
      if id != es[k].itemId {
        var m :| 0 <= m < k && es[..k][m].itemId == id;
        assert es[..k + 1][m] == es[m];
      } else {
        assert es[..k + 1][k] == es[k];
      }
    }
  }

  /**
   * Propagation never moves a date backwards: every row keeps its date or had none
   * or an older one and now has `date`, and nothing else about a row changes.
   */
  lemma StampOnlyAdvances(es: seq<Entry>, ids: set<ItemId>, date: int)
    ensures var r := Stamp(es, ids, date);
      forall i :: 0 <= i < |es| ==>
        r[i] == es[i]
        || (es[i].itemId in ids && Older(es[i], date) && r[i] == es[i].(lastModified := Some(date)))
    ensures var r := Stamp(es, ids, date);
      forall i :: 0 <= i < |es| && r[i].lastModified.Some? ==>
        es[i].lastModified.None? || es[i].lastModified.value <= r[i].lastModified.value
  {
  }

  // ---------------------------------------------------------------------------
  // Subtrees

  /** Row `c` is a child of row `x` in `space`: what `findByDocumentSpaceIdEqualsAndParentEntryIdEquals` returns. */
  predicate IsChildOf(es: seq<Entry>, space: SpaceId, c: nat, x: nat)
    requires c < |es| && x < |es|
  {
    es[c].space == space && es[c].parent == es[x].itemId
  }

  /** Row `i` is row `x` or lies below it, through children in `space`. */
  predicate InSubtree(es: seq<Entry>, space: SpaceId, i: nat, x: nat)
    requires i < |es| && x < |es|
    decreases i
  {
    i == x
    || (es[i].space == space
        && match IndexOf(es, es[i].parent)
           case None => false
           case Some(p) => p < i && InSubtree(es, space, p, x))
  }

  /** Row `i` lies in the subtree of some child of `x` among rows `0..j`. */
  predicate Covered(es: seq<Entry>, space: SpaceId, i: nat, x: nat, j: nat)
    requires i < |es| && x < |es| && j <= |es|
  {
    j > 0 && (Covered(es, space, i, x, j - 1) || (IsChildOf(es, space, j - 1, x) && InSubtree(es, space, i, j - 1)))
  }

  lemma {:induction false} InSubtreeSameShape(a: seq<Entry>, b: seq<Entry>, space: SpaceId, i: nat, x: nat)
    requires SameShape(a, b) && i < |a| && x < |a|
    ensures InSubtree(a, space, i, x) == InSubtree(b, space, i, x)
    decreases i
  {
    IndexOfSameShape(a, b, a[i].parent);
    var p := IndexOf(a, a[i].parent);
    if p.Some? && p.value < i {
      InSubtreeSameShape(a, b, space, p.value, x);
    }
  }

  lemma {:induction false} CoveredSameShape(a: seq<Entry>, b: seq<Entry>, space: SpaceId, i: nat, x: nat, j: nat)
    requires SameShape(a, b) && i < |a| && x < |a| && j <= |a|
    ensures Covered(a, space, i, x, j) == Covered(b, space, i, x, j)
    decreases j
  {
    if j > 0 {
      CoveredSameShape(a, b, space, i, x, j - 1);
      InSubtreeSameShape(a, b, space, i, j - 1);
    }
  }

  lemma {:induction false} CoveredMonotone(es: seq<Entry>, space: SpaceId, i: nat, x: nat, j: nat, j': nat)
    requires i < |es| && x < |es| && j <= j' <= |es|
    requires Covered(es, space, i, x, j)
    ensures Covered(es, space, i, x, j')
    decreases j'
  {
    if j' > j {
      CoveredMonotone(es, space, i, x, j, j' - 1);
    }
  }

  /** Below a child of `x` is below `x`. */
  lemma {:induction false} SubtreeOfChild(es: seq<Entry>, nextId: nat, space: SpaceId, i: nat, c: nat, x: nat)
    requires TableValid(es, nextId) && i < |es| && c < |es| && x < |es|
    requires IsChildOf(es, space, c, x) && InSubtree(es, space, i, c)
    ensures InSubtree(es, space, i, x)
    decreases i
  {
    IndexOfUnique(es, nextId, x);
    ParentIsEarlier(es, nextId, c, x);
    if i != c {
      var p := IndexOf(es, es[i].parent).value;
      SubtreeOfChild(es, nextId, space, p, c, x);
    }
  }

  lemma {:induction false} CoveredWhenBelow(es: seq<Entry>, nextId: nat, space: SpaceId, i: nat, x: nat)
    requires TableValid(es, nextId) && i < |es| && x < |es|
    requires InSubtree(es, space, i, x) && i != x
    ensures Covered(es, space, i, x, |es|)
    decreases i
  {
    var p := IndexOf(es, es[i].parent).value;
    if p == x {
      assert IsChildOf(es, space, i, x) && InSubtree(es, space, i, i);
      assert Covered(es, space, i, x, i + 1);
      CoveredMonotone(es, space, i, x, i + 1, |es|);
    } else {
      CoveredWhenBelow(es, nextId, space, p, x);
      var c := CoveredWitness(es, space, p, x, |es|);
      assert InSubtree(es, space, i, c);
      assert Covered(es, space, i, x, c + 1);
      CoveredMonotone(es, space, i, x, c + 1, |es|);
    }
  }

  lemma {:induction false} CoveredWitness(es: seq<Entry>, space: SpaceId, i: nat, x: nat, j: nat) returns (c: nat)
    requires i < |es| && x < |es| && j <= |es|
    requires Covered(es, space, i, x, j)
    ensures c < j && IsChildOf(es, space, c, x) && InSubtree(es, space, i, c)
    decreases j
  {
    if Covered(es, space, i, x, j - 1) {
      c := CoveredWitness(es, space, i, x, j - 1);
    } else {
      c := j - 1;
    }
  }

  /** The subtree of `x` is `x` together with the subtrees of its children. */
  lemma SubtreeSplits(es: seq<Entry>, nextId: nat, space: SpaceId, i: nat, x: nat)
    requires TableValid(es, nextId) && i < |es| && x < |es|
    ensures InSubtree(es, space, i, x) <==> (i == x || Covered(es, space, i, x, |es|))
  {
    if InSubtree(es, space, i, x) && i != x {
      CoveredWhenBelow(es, nextId, space, i, x);
    }
    if i != x && Covered(es, space, i, x, |es|) {
      var c := CoveredWitness(es, space, i, x, |es|);
      SubtreeOfChild(es, nextId, space, i, c, x);
    }
  }

  // ---------------------------------------------------------------------------
  // The archived listing

  /** The item id of the node at position `pos`, where -1 stands for the root of the space. */
  function NodeId(es: seq<Entry>, pos: int): ItemId
    requires -1 <= pos < |es|
  {
    if pos == -1 then Nil else es[pos].itemId
  }

  /**
   * Row `i` lies in `space` below the node at `pos`, and every row strictly between
   * them is a folder that is not archived.
   */
  predicate OpenBelow(es: seq<Entry>, space: SpaceId, i: nat, pos: int)
    requires i < |es| && -1 <= pos < |es|
    decreases i
  {
    es[i].space == space
    && (es[i].parent == NodeId(es, pos)
        || match IndexOf(es, es[i].parent)
           case None => false
           case Some(p) => p < i && es[p].isFolder && !es[p].archived && OpenBelow(es, space, p, pos))
  }

  /**
   * `walkTreeForArchivedItems` over the children of the node at `pos` among rows
   * `j..`: an archived child is reported with `path` and not entered, a folder that
   * is not archived is entered with its name joined to `path`. Each report carries
   * the row it came from.
   */
  function WalkArchived(es: seq<Entry>, nextId: nat, space: SpaceId, pos: int, path: string, j: nat): (r: seq<(nat, ArchivedItem)>)
    requires TableValid(es, nextId) && -1 <= pos < |es| && j <= |es|
    decreases |es| - pos, |es| - j
  {
    if j == |es| then []
    else
      var rest := WalkArchived(es, nextId, space, pos, path, j + 1);
      var e := es[j];
      if e.space == space && e.parent == NodeId(es, pos) then
        if e.archived then [(j, ArchivedItem(e.isFolder, path, e.name))] + rest
        else if e.isFolder then
          ChildAfterNode(es, nextId, j, pos);
          WalkArchived(es, nextId, space, j, JoinPathParts([path, e.name]), 0) + rest
        else rest
      else rest
  }

  lemma {:induction false} OpenBelowThroughFolder(es: seq<Entry>, nextId: nat, space: SpaceId, i: nat, j: nat, pos: int)
    requires TableValid(es, nextId) && i < |es| && j < |es| && -1 <= pos < |es|
    requires OpenBelow(es, space, i, j)
    requires es[j].space == space && es[j].parent == NodeId(es, pos) && es[j].isFolder && !es[j].archived
    ensures OpenBelow(es, space, i, pos)
    decreases i
  {
    IndexOfUnique(es, nextId, j);
    if es[i].parent == es[j].itemId {
      ParentIsEarlier(es, nextId, i, j);
    } else {
      var p := IndexOf(es, es[i].parent).value;
      OpenBelowThroughFolder(es, nextId, space, p, j, pos);
    }
  }

  /** Every report is an archived row below the node at `pos`, reached only through open folders. */
  predicate SoundReports(es: seq<Entry>, space: SpaceId, pos: int, r: seq<(nat, ArchivedItem)>)
    requires -1 <= pos < |es|
  {
    forall k :: 0 <= k < |r| ==>
      r[k].0 < |es| && es[r[k].0].archived && OpenBelow(es, space, r[k].0, pos)
      && r[k].1 == ArchivedItem(es[r[k].0].isFolder, r[k].1.path, es[r[k].0].name)
  }

  lemma {:induction false} WalkArchivedSound(es: seq<Entry>, nextId: nat, space: SpaceId, pos: int, path: string, j: nat)
    requires TableValid(es, nextId) && -1 <= pos < |es| && j <= |es|
    ensures SoundReports(es, space, pos, WalkArchived(es, nextId, space, pos, path, j))
    decreases |es| - pos, |es| - j
  {
    if j < |es| {
      WalkArchivedSound(es, nextId, space, pos, path, j + 1);
      var rest := WalkArchived(es, nextId, space, pos, path, j + 1);
      var e := es[j];
      if e.space == space && e.parent == NodeId(es, pos) && !e.archived && e.isFolder {
        ChildAfterNode(es, nextId, j, pos);
        var sub := WalkArchived(es, nextId, space, j, JoinPathParts([path, e.name]), 0);
        WalkArchivedSound(es, nextId, space, j, JoinPathParts([path, e.name]), 0);
        assert SoundReports(es, space, j, sub);
        forall k | 0 <= k < |sub|
          ensures OpenBelow(es, space, sub[k].0, pos)
        {
          OpenBelowThroughFolder(es, nextId, space, sub[k].0, j, pos);
        }
        assert WalkArchived(es, nextId, space, pos, path, j) == sub + rest;
      }
    }
  }

  /**
   * The archived listing of a space reports only archived rows, and only those whose
   * every ancestor up to the root is a folder that is not archived: the walk never
   * enters an archived folder and never reports what lies below one.
   */
  lemma ArchivedListingSound(es: seq<Entry>, nextId: nat, space: SpaceId)
    requires TableValid(es, nextId)
    ensures SoundReports(es, space, -1, WalkArchived(es, nextId, space, -1, "/", 0))
  {
    WalkArchivedSound(es, nextId, space, -1, "/", 0);
  }

  /** The reported items of a walk, without the rows they were read from. */
  function Reports(found: seq<(nat, ArchivedItem)>): seq<ArchivedItem>
  {
    seq(|found|, k requires 0 <= k < |found| => found[k].1)
  }

  /** What row `j` adds to the listing below the node at `pos`. */
  function Piece(es: seq<Entry>, nextId: nat, space: SpaceId, pos: int, path: string, j: nat): seq<ArchivedItem>
    requires TableValid(es, nextId) && -1 <= pos < |es| && j < |es|
  {
    var e := es[j];
    if e.space == space && e.parent == NodeId(es, pos) then
      if e.archived then [ArchivedItem(e.isFolder, path, e.name)]
      else if e.isFolder then Reports(WalkArchived(es, nextId, space, j, JoinPathParts([path, e.name]), 0))
      else []
    else []
  }

  /** `elements` is the listing below `pos` from the rows before `j`. */
  predicate ListedBefore(es: seq<Entry>, nextId: nat, space: SpaceId, pos: int, path: string, j: nat, elements: seq<ArchivedItem>)
    requires TableValid(es, nextId) && -1 <= pos < |es| && j <= |es|
  {
    Reports(WalkArchived(es, nextId, space, pos, path, 0)) == elements + Reports(WalkArchived(es, nextId, space, pos, path, j))
  }

  lemma ListedStep(es: seq<Entry>, nextId: nat, space: SpaceId, pos: int, path: string, j: nat, elements: seq<ArchivedItem>)
    requires TableValid(es, nextId) && -1 <= pos < |es| && j < |es|
    requires ListedBefore(es, nextId, space, pos, path, j, elements)
    ensures ListedBefore(es, nextId, space, pos, path, j + 1, elements + Piece(es, nextId, space, pos, path, j))
  {
    WalkArchivedStep(es, nextId, space, pos, path, j);
    Associative(elements, Piece(es, nextId, space, pos, path, j), Reports(WalkArchived(es, nextId, space, pos, path, j + 1)));
  }

  lemma ListedDone(es: seq<Entry>, nextId: nat, space: SpaceId, pos: int, path: string, elements: seq<ArchivedItem>)
    requires TableValid(es, nextId) && -1 <= pos < |es|
    requires ListedBefore(es, nextId, space, pos, path, |es|, elements)
    ensures elements == Reports(WalkArchived(es, nextId, space, pos, path, 0))
  {
    assert WalkArchived(es, nextId, space, pos, path, |es|) == [];
    assert elements + [] == elements;
  }

  lemma Associative<T>(a: seq<T>, b: seq<T>, c: seq<T>)
    ensures a + (b + c) == (a + b) + c
  {
  }

  /** One row of the scan in `WalkArchived`, as the listing sees it. */
  lemma WalkArchivedStep(es: seq<Entry>, nextId: nat, space: SpaceId, pos: int, path: string, j: nat)
    requires TableValid(es, nextId) && -1 <= pos < |es| && j < |es|
    ensures Reports(WalkArchived(es, nextId, space, pos, path, j))
      == Piece(es, nextId, space, pos, path, j) + Reports(WalkArchived(es, nextId, space, pos, path, j + 1))
  {
    var e := es[j];
    var rest := WalkArchived(es, nextId, space, pos, path, j + 1);
    if e.space == space && e.parent == NodeId(es, pos) {
      if e.archived {
        ReportsAppend([(j, ArchivedItem(e.isFolder, path, e.name))], rest);
      } else if e.isFolder {
        ChildAfterNode(es, nextId, j, pos);
        ReportsAppend(WalkArchived(es, nextId, space, j, JoinPathParts([path, e.name]), 0), rest);
      }
    }
  }

  lemma ReportsAppend(a: seq<(nat, ArchivedItem)>, b: seq<(nat, ArchivedItem)>)
    ensures Reports(a + b) == Reports(a) + Reports(b)
  {
  }

  /** The ids of the strict ancestors of an item whose parent id is `parent`; none when the chain is broken. */
  function AncestorIds(es: seq<Entry>, parent: ItemId): set<ItemId>
  {
    match AncestorsOf(es, parent, |es|)
    case None => {}
    case Some(a) => IdsOf(a)
  }

  /** The table after the subtree of row `x` gets the archived flag `flag`. */
  function Flagged(es: seq<Entry>, space: SpaceId, x: nat, flag: bool): (r: seq<Entry>)
    requires x < |es|
    ensures SameShape(es, r)
  {
    seq(|es|, i requires 0 <= i < |es| => if InSubtree(es, space, i, x) then es[i].(archived := flag) else es[i])
  }

  /** Row by row, `cur` is `es0` with the subtrees of the children of `x` before row `j` flagged. */
  predicate MarkedUpTo(es0: seq<Entry>, cur: seq<Entry>, space: SpaceId, x: nat, j: nat, flag: bool)
    requires x < |es0| && j <= |es0| && |cur| == |es0|
  {
    forall i :: 0 <= i < |es0| ==> cur[i] == if Covered(es0, space, i, x, j) then es0[i].(archived := flag) else es0[i]
  }

  lemma MarkedChild(es0: seq<Entry>, cur: seq<Entry>, after: seq<Entry>, space: SpaceId, x: nat, j: nat, flag: bool)
    requires x < |es0| && j < |es0| && SameShape(es0, cur) && MarkedUpTo(es0, cur, space, x, j, flag)
    requires IsChildOf(es0, space, j, x) && after == Flagged(cur, space, j, flag)
    ensures MarkedUpTo(es0, after, space, x, j + 1, flag)
  {
    forall i | 0 <= i < |es0|
      ensures after[i] == if Covered(es0, space, i, x, j + 1) then es0[i].(archived := flag) else es0[i]
    {
      InSubtreeSameShape(cur, es0, space, i, j);
    }
  }

  lemma MarkedOther(es0: seq<Entry>, cur: seq<Entry>, space: SpaceId, x: nat, j: nat, flag: bool)
    requires x < |es0| && j < |es0| && |cur| == |es0| && MarkedUpTo(es0, cur, space, x, j, flag)
    requires !IsChildOf(es0, space, j, x)
    ensures MarkedUpTo(es0, cur, space, x, j + 1, flag)
  {
    forall i | 0 <= i < |es0|
      ensures Covered(es0, space, i, x, j + 1) == Covered(es0, space, i, x, j)
    {
    }
  }

  lemma MarkedAll(es0: seq<Entry>, nextId: nat, cur: seq<Entry>, space: SpaceId, x: nat, flag: bool)
    requires TableValid(es0, nextId) && x < |es0| && |cur| == |es0| && MarkedUpTo(es0, cur, space, x, |es0|, flag)
    ensures cur[x := cur[x].(archived := flag)] == Flagged(es0, space, x, flag)
  {
    var after := cur[x := cur[x].(archived := flag)];
    forall i | 0 <= i < |es0|
      ensures after[i] == Flagged(es0, space, x, flag)[i]
    {
      SubtreeSplits(es0, nextId, space, i, x);
    }
  }

  lemma ValidSameShape(a: seq<Entry>, b: seq<Entry>, nextId: nat)
    requires TableValid(a, nextId) && SameShape(a, b)
    ensures TableValid(b, nextId)
  {
    forall i, j | 0 <= i < |b| && 0 <= j < |b|
      ensures DistinctAt(b, i, j) && ParentBefore(b, i, j)
    {
      assert DistinctAt(a, i, j) && ParentBefore(a, i, j);
    }
  }

  /** The segments of a path once it is conditioned: what `Paths.get(...).iterator()` visits. */
  function PathSegments(path: Option<string>): seq<string>
  {
    Segments(ConditionPath(path))
  }

  /** The parent folder reported for a resolved path: the next-to-last id, or the root. */
  function ParentFolderOf(ids: seq<ItemId>): ItemId
  {
    if |ids| <= 1 then Nil else ids[|ids| - 2]
  }

  /** What `parsePathToFilePathSpec` finds for `path` when it may not create folders. */
  function LookupSpec(es: seq<Entry>, spaces: set<SpaceId>, space: SpaceId, path: Option<string>): Result<FilePathSpec, Failure>
  {
    if space !in spaces then Err(RecordNotFound)
    else
      match Resolve(es, space, PathSegments(path))
      case None => Err(RecordNotFound)
      case Some(ids) => Ok(SpecOf(space, PathSegments(path), ids))
  }

  /** The `FilePathSpec` of a path whose segments `segs` resolved to `ids`. */
  function SpecOf(space: SpaceId, segs: seq<string>, ids: seq<ItemId>): FilePathSpec
  {
    FilePathSpec(space, LastOr(ids, Nil), if segs == [] then "" else segs[|segs| - 1],
                 PathAccumulated(segs), ids, ParentFolderOf(ids))
  }

  lemma {:induction false} ResolvePrefix(es: seq<Entry>, space: SpaceId, segs: seq<string>, k: nat)
    requires k <= |segs| && Resolve(es, space, segs).Some?
    ensures Resolve(es, space, segs[..k]).Some?
    decreases |segs| - k
  {
    if k < |segs| {
      assert segs[..|segs| - 1][..k] == segs[..k];
      ResolvePrefix(es, space, segs[..|segs| - 1], k);
    } else {
      assert segs[..k] == segs;
    }
  }

  /** `item` with a leading "/" when it has none, as the unarchive request is read. */
  function Rooted(item: string): (r: string)
    ensures StartsWith(r, "/")
  {
    if StartsWith(item, "/") then item else "/" + item
  }

  /** The items of the archived listing whose full path was requested. */
  function Selected(listing: seq<ArchivedItem>, requested: seq<string>): (r: seq<ArchivedItem>)
    ensures forall k :: 0 <= k < |r| ==> r[k] in listing && JoinPathParts([r[k].path, r[k].key]) in requested
    ensures forall it :: it in listing && JoinPathParts([it.path, it.key]) in requested ==> it in r
  {
    if listing == [] then []
    else if JoinPathParts([listing[0].path, listing[0].key]) in requested then [listing[0]] + Selected(listing[1..], requested)
    else Selected(listing[1..], requested)
  }

  /**
   * After unarchiving `item` (whose path and name are read in the table `before`),
   * nothing in its subtree is archived in `after`.
   */
  predicate Restored(before: seq<Entry>, after: seq<Entry>, space: SpaceId, item: ArchivedItem)
  {
    match Resolve(before, space, PathSegments(Some(item.path)))
    case None => false
    case Some(ids) =>
      match FindChild(before, space, LastOr(ids, Nil), item.key)
      case None => false
      case Some(x) =>
        forall i :: 0 <= i < |before| && i < |after| && InSubtree(before, space, i, x) ==> !after[i].archived
  }

  lemma RestoredStays(before: seq<Entry>, mid: seq<Entry>, after: seq<Entry>, space: SpaceId, item: ArchivedItem)
    requires Restored(before, mid, space, item) && |mid| == |after|
    requires forall i :: 0 <= i < |after| && after[i].archived ==> mid[i].archived
    ensures Restored(before, after, space, item)
  {
  }

  /** One more segment found in the table extends the resolution by its row's id. */
  lemma ResolveStepFound(es: seq<Entry>, space: SpaceId, segs: seq<string>, k: nat, ids: seq<ItemId>, i: nat)
    requires k < |segs| && Resolve(es, space, segs[..k]) == Some(ids)
    requires FindChild(es, space, LastOr(ids, Nil), segs[k]) == Some(i)
    ensures Resolve(es, space, segs[..k + 1]) == Some(ids + [es[i].itemId])
  {
    assert segs[..k + 1][..k] == segs[..k];
  }

  /** One more segment missing from the table makes the whole path unresolvable. */
  lemma ResolveStepMissing(es: seq<Entry>, space: SpaceId, segs: seq<string>, k: nat, ids: seq<ItemId>)
    requires k < |segs| && Resolve(es, space, segs[..k]) == Some(ids)
    requires FindChild(es, space, LastOr(ids, Nil), segs[k]).None?
    ensures Resolve(es, space, segs).None?
  {
    assert segs[..k + 1][..k] == segs[..k];
    if Resolve(es, space, segs).Some? {
      ResolvePrefix(es, space, segs, k + 1);
    }
  }

  /** A folder appended for a missing segment extends the resolution by its id. */
  lemma ResolveStepCreated(es: seq<Entry>, space: SpaceId, segs: seq<string>, k: nat, ids: seq<ItemId>, e: Entry)
    requires k < |segs| && Resolve(es, space, segs[..k]) == Some(ids)
    requires FindChild(es, space, LastOr(ids, Nil), segs[k]).None?
    requires IsNamedChild(e, space, LastOr(ids, Nil), segs[k])
    ensures Resolve(es + [e], space, segs[..k + 1]) == Some(ids + [e.itemId])
  {
    ResolveAppend(es, [e], space, segs[..k]);
    var r := FindChild(es + [e], space, LastOr(ids, Nil), segs[k]);
    assert (es + [e])[|es|] == e;
    assert r == Some(|es|);
    assert segs[..k + 1][..k] == segs[..k];
  }

  /** Appending a row with a fresh id whose parent is the root or an existing id keeps the table valid. */
  lemma AppendValid(es: seq<Entry>, nextId: nat, e: Entry)
    requires TableValid(es, nextId) && e.itemId == nextId && e.parent < nextId
    ensures TableValid(es + [e], nextId + 1)
  {
    var es' := es + [e];
    forall i, j | 0 <= i < |es'| && 0 <= j < |es'|
      ensures DistinctAt(es', i, j) && ParentBefore(es', i, j)
    {
      if i < |es| && j < |es| {
        assert DistinctAt(es, i, j) && ParentBefore(es, i, j);
        assert es'[i] == es[i] && es'[j] == es[j];
      }
    }
  }

  /** `after` is `before` with new folders of `space` appended, none archived and none dated. */
  predicate GrewBy(before: seq<Entry>, after: seq<Entry>, space: SpaceId)
  {
    |before| <= |after| && after[..|before|] == before
    && forall i :: |before| <= i < |after| ==>
         after[i].space == space && after[i].isFolder && !after[i].archived && after[i].lastModified.None?
  }

  lemma GrewByTrans(a: seq<Entry>, b: seq<Entry>, c: seq<Entry>, space: SpaceId)
    requires GrewBy(a, b, space) && GrewBy(b, c, space)
    ensures GrewBy(a, c, space)
  {
    assert c[..|a|] == c[..|b|][..|a|];
  }

  /** `o` with `h` appended to the sequence it holds. */
  function Then(o: Option<seq<Entry>>, h: seq<Entry>): Option<seq<Entry>>
  {
    match o
    case None => None
    case Some(a) => Some(a + h)
  }

  lemma StampNothing(es: seq<Entry>, date: int)
    ensures Stamp(es, {}, date) == es
  {
    assert forall i :: 0 <= i < |es| ==> Stamp(es, {}, date)[i] == es[i];
  }

  lemma ThenEmpty(o: Option<seq<Entry>>)
    ensures Then(o, []) == o
  {
    if o.Some? {
      assert o.value + [] == o.value;
    }
  }

  /** One step up the ancestor chain: the parent row `j` of the node at `pos` joins the front of `h`. */
  lemma AncestorsStep(es: seq<Entry>, nextId: nat, parent: ItemId, pos: nat, j: nat, h: seq<Entry>)
    requires TableValid(es, nextId) && pos <= |es| && parent != Nil
    requires IndexOf(es, parent) == Some(j) && j < pos
    ensures Then(AncestorsOf(es, parent, pos), h) == Then(AncestorsOf(es, es[j].parent, j), [es[j]] + h)
  {
    var up := AncestorsOf(es, es[j].parent, j);
    if up.Some? {
      assert (up.value + [es[j]]) + h == up.value + ([es[j]] + h);
    }
  }

  /**
   * Handling one ancestor `a` (a row of `es`) while stamping: its row is found by id
   * in the partly stamped table, and dating it when it is older gives the table
   * stamped with one more id.
   */
  lemma StampAncestor(es: seq<Entry>, nextId: nat, done: set<ItemId>, date: int, a: Entry) returns (jj: nat)
    requires TableValid(es, nextId) && a in es
    ensures jj < |es| && es[jj] == a && IndexOf(Stamp(es, done, date), a.itemId) == Some(jj)
    ensures var cur := Stamp(es, done, date);
      Older(a, date) ==> cur[jj := cur[jj].(lastModified := Some(date))] == Stamp(es, done + {a.itemId}, date)
    ensures !Older(a, date) ==> Stamp(es, done, date) == Stamp(es, done + {a.itemId}, date)
  {
    jj :| 0 <= jj < |es| && es[jj] == a;
    IndexOfUnique(es, nextId, jj);
    IndexOfSameShape(es, Stamp(es, done, date), a.itemId);
    if Older(a, date) {
      StampStep(es, nextId, done, date, jj);
    } else {
      StampSkip(es, nextId, done, date, jj);
    }
  }

  /** Dating the row `jj`, when it is older than `date`, is stamping one more id. */
  lemma StampStep(es: seq<Entry>, nextId: nat, done: set<ItemId>, date: int, jj: nat)
    requires TableValid(es, nextId) && jj < |es| && Older(es[jj], date)
    ensures var cur := Stamp(es, done, date);
      cur[jj := cur[jj].(lastModified := Some(date))] == Stamp(es, done + {es[jj].itemId}, date)
  {
    var cur := Stamp(es, done, date);
    var next := Stamp(es, done + {es[jj].itemId}, date);
    forall i | 0 <= i < |es|
      ensures cur[jj := cur[jj].(lastModified := Some(date))][i] == next[i]
    {
      assert DistinctAt(es, i, jj);
    }
  }

  /** A row that is not older than `date` is left alone by stamping its id. */
  lemma StampSkip(es: seq<Entry>, nextId: nat, done: set<ItemId>, date: int, jj: nat)
    requires TableValid(es, nextId) && jj < |es| && !Older(es[jj], date)
    ensures Stamp(es, done, date) == Stamp(es, done + {es[jj].itemId}, date)
  {
    var cur := Stamp(es, done, date);
    var next := Stamp(es, done + {es[jj].itemId}, date);
    forall i | 0 <= i < |es|
      ensures cur[i] == next[i]
    {
      assert DistinctAt(es, i, jj);
    }
  }

  /** Two tables with the same rows up to archived flags and dates. */
  predicate SameTree(a: seq<Entry>, b: seq<Entry>)
  {
    SameShape(a, b) && forall i :: 0 <= i < |a| ==> a[i].name == b[i].name && a[i].isFolder == b[i].isFolder
  }

  lemma AncestorIdsSameShape(a: seq<Entry>, b: seq<Entry>, parent: ItemId)
    requires SameShape(a, b)
    ensures AncestorIds(a, parent) == AncestorIds(b, parent)
  {
    AncestorsSameShape(a, b, parent, |a|);
  }


  /**
   * The decisions of `archiveElement`, in its order: the space and the owning path
   * must exist, the root cannot be archived, an archived item of that name under
   * that folder is a conflict, and the item itself must exist.
   */
  function ArchiveTarget(es: seq<Entry>, spaces: set<SpaceId>, space: SpaceId, path: Option<string>, itemName: string): (r: Result<nat, Failure>)
    ensures r.Ok? ==> r.value < |es|
  {
    match LookupSpec(es, spaces, space, path)
    case Err(e) => Err(e)
    case Ok(spec) =>
      if itemName == "/" || IsBlank(itemName) then Err(BadRequest)
      else if ExistsArchivedNamed(es, space, spec.itemId, itemName) then Err(ResourceAlreadyExists)
      else
        match FindChild(es, space, spec.itemId, itemName)
        case None => Err(RecordNotFound)
        case Some(x) => Ok(x)
  }

  /**
   * What archiving acts on: an item of the space that is not archived yet, named
   * `itemName` (neither blank nor "/"), whose parent is the folder the path names.
   */
  lemma ArchiveTargetIsLiveItem(es: seq<Entry>, nextId: nat, spaces: set<SpaceId>, space: SpaceId, path: Option<string>, itemName: string)
    requires TableValid(es, nextId)
    ensures var r := ArchiveTarget(es, spaces, space, path, itemName);
      r.Ok? ==>
        && space in spaces && itemName != "/" && !IsBlank(itemName)
        && Resolve(es, space, PathSegments(path)).Some?
        && IsNamedChild(es[r.value], space, LastOr(Resolve(es, space, PathSegments(path)).value, Nil), itemName)
        && !es[r.value].archived
  {
  }

  /** The decisions of one turn of `unArchiveElements`, in its order. */
  function UnarchiveTarget(es: seq<Entry>, spaces: set<SpaceId>, space: SpaceId, item: ArchivedItem): (r: Result<nat, Failure>)
    ensures r.Ok? ==> r.value < |es|
  {
    match LookupSpec(es, spaces, space, Some(item.path))
    case Err(e) => Err(e)
    case Ok(spec) =>
      var owner := spec.itemId;
      if owner != Nil && IndexOf(es, owner).None? then Err(RecordNotFound)
      else if owner != Nil && es[IndexOf(es, owner).value].archived then Err(BadRequest)
      else
        match FindChild(es, space, owner, item.key)
        case None => Err(RecordNotFound)
        case Some(x) => Ok(x)
  }

  /** An item is only brought back when the folder holding it is the root or is not archived. */
  lemma UnarchiveNeedsLiveParent(es: seq<Entry>, nextId: nat, spaces: set<SpaceId>, space: SpaceId, item: ArchivedItem)
    requires TableValid(es, nextId)
    ensures var r := UnarchiveTarget(es, spaces, space, item);
      r.Ok? ==>
        (es[r.value].parent == Nil
         || (IndexOf(es, es[r.value].parent).Some? && !es[IndexOf(es, es[r.value].parent).value].archived))
        && es[r.value].space == space && es[r.value].name == item.key
  {
  }

  /** The request list of `unArchiveElements`, every entry with a leading "/". */
  function RootedAll(items: seq<string>): (r: seq<string>)
    ensures |r| == |items| && forall k :: 0 <= k < |items| ==> r[k] == Rooted(items[k])
  {
    seq(|items|, k requires 0 <= k < |items| => Rooted(items[k]))
  }

  /** The items `unArchiveElements` handles: archived ones whose full path was requested. */
  function UnarchiveSelection(es: seq<Entry>, nextId: nat, space: SpaceId, items: seq<string>): seq<ArchivedItem>
    requires TableValid(es, nextId)
  {
    Selected(Reports(WalkArchived(es, nextId, space, -1, "/", 0)), RootedAll(items))
  }

  /** Unarchiving one more item keeps the rows, archives nothing, and keeps the earlier items restored. */
  /** Clearing flags and stamping dates keeps names and kinds and archives nothing. */
  lemma ClearedKeepsTree(cur: seq<Entry>, space: SpaceId, x: nat, ids: set<ItemId>, date: int)
    requires x < |cur|
    ensures var after := Stamp(Flagged(cur, space, x, false), ids, date);
      SameTree(cur, after) && forall i :: 0 <= i < |after| && after[i].archived ==> cur[i].archived
  {
    var flagged := Flagged(cur, space, x, false);
    var after := Stamp(flagged, ids, date);
    forall i | 0 <= i < |after|
      ensures after[i].name == cur[i].name && after[i].isFolder == cur[i].isFolder
      ensures after[i].archived ==> cur[i].archived
    {
      assert after[i].archived == flagged[i].archived;
    }
  }

  lemma UnarchiveStep(es0: seq<Entry>, cur: seq<Entry>, after: seq<Entry>, space: SpaceId, chosen: seq<ArchivedItem>, k: nat)
    requires k < |chosen| && SameTree(es0, cur) && SameTree(cur, after)
    requires forall i :: 0 <= i < |cur| && cur[i].archived ==> es0[i].archived
    requires forall i :: 0 <= i < |after| && after[i].archived ==> cur[i].archived
    requires forall m :: 0 <= m < k ==> Restored(es0, cur, space, chosen[m])
    requires Restored(es0, after, space, chosen[k])
    ensures SameTree(es0, after)
    ensures forall i :: 0 <= i < |after| && after[i].archived ==> es0[i].archived
    ensures forall m :: 0 <= m < k + 1 ==> Restored(es0, after, space, chosen[m])
  {
    forall m | 0 <= m < k
      ensures Restored(es0, after, space, chosen[m])
    {
      RestoredStays(es0, cur, after, space, chosen[m]);
    }
  }

  /** Row `i` lies in the subtree of `item`, the item found by its path and name in the table `before`. */
  predicate UnderItem(before: seq<Entry>, space: SpaceId, item: ArchivedItem, i: nat)
  {
    match Resolve(before, space, PathSegments(Some(item.path)))
    case None => false
    case Some(ids) =>
      match FindChild(before, space, LastOr(ids, Nil), item.key)
      case None => false
      case Some(x) => i < |before| && InSubtree(before, space, i, x)
  }

  /** Every row archived in `before` and live in `now` lies under one of the items `chosen`. */
  predicate OnlyUnder(before: seq<Entry>, now: seq<Entry>, space: SpaceId, chosen: seq<ArchivedItem>)
  {
    |now| == |before| &&
    forall i :: 0 <= i < |now| && before[i].archived && !now[i].archived ==>
      exists it :: it in chosen && UnderItem(before, space, it, i)
  }

  lemma OnlyUnderPrefix(before: seq<Entry>, now: seq<Entry>, space: SpaceId, chosen: seq<ArchivedItem>, k: nat)
    requires k <= |chosen| && OnlyUnder(before, now, space, chosen[..k])
    ensures OnlyUnder(before, now, space, chosen)
  {
    forall i | 0 <= i < |now| && before[i].archived && !now[i].archived
      ensures exists it :: it in chosen && UnderItem(before, space, it, i)
    {
      var it :| it in chosen[..k] && UnderItem(before, space, it, i);
      assert it in chosen;
    }
  }

  /** A row that unarchiving `item` brings back lies in the subtree of `item`. */
  lemma ClearedRowUnderItem(es0: seq<Entry>, cur: seq<Entry>, after: seq<Entry>, spaces: set<SpaceId>, space: SpaceId,
                            item: ArchivedItem, ids: set<ItemId>, date: int, i: nat)
    requires SameTree(es0, cur) && UnarchiveTarget(cur, spaces, space, item).Ok?
    requires after == Stamp(Flagged(cur, space, UnarchiveTarget(cur, spaces, space, item).value, false), ids, date)
    requires i < |after| && cur[i].archived && !after[i].archived
    ensures UnderItem(es0, space, item, i)
  {
    var x := UnarchiveTarget(cur, spaces, space, item).value;
    var segs := PathSegments(Some(item.path));
    ResolveSameNames(es0, cur, space, segs);
    var owner := LastOr(Resolve(cur, space, segs).value, Nil);
    FindChildSameNames(es0, cur, space, owner, item.key);
    assert InSubtree(cur, space, i, x);
    InSubtreeSameShape(es0, cur, space, i, x);
  }

  lemma PrefixGrows<T>(xs: seq<T>, k: nat, x: T)
    requires k < |xs| && (x in xs[..k] || x == xs[k])
    ensures x in xs[..k + 1]
  {
    assert xs[..k + 1] == xs[..k] + [xs[k]];
  }

  /** Unarchiving one more item brings back only rows of its subtree. */
  lemma ClearedOnlyUnderItem(es0: seq<Entry>, cur: seq<Entry>, after: seq<Entry>, spaces: set<SpaceId>, space: SpaceId,
                             chosen: seq<ArchivedItem>, k: nat, ids: set<ItemId>, date: int)
    requires k < |chosen| && SameTree(es0, cur) && UnarchiveTarget(cur, spaces, space, chosen[k]).Ok?
    requires after == Stamp(Flagged(cur, space, UnarchiveTarget(cur, spaces, space, chosen[k]).value, false), ids, date)
    requires OnlyUnder(es0, cur, space, chosen[..k])
    ensures OnlyUnder(es0, after, space, chosen[..k + 1])
  {
    forall i | 0 <= i < |after| && es0[i].archived && !after[i].archived
      ensures exists it :: it in chosen[..k + 1] && UnderItem(es0, space, it, i)
    {
      if cur[i].archived {
        ClearedRowUnderItem(es0, cur, after, spaces, space, chosen[k], ids, date, i);
        PrefixGrows(chosen, k, chosen[k]);
      } else {
        var it :| it in chosen[..k] && UnderItem(es0, space, it, i);
        PrefixGrows(chosen, k, it);
      }
    }
  }

  lemma RestoredAfterItem(es0: seq<Entry>, cur: seq<Entry>, after: seq<Entry>, spaces: set<SpaceId>, space: SpaceId,
                          item: ArchivedItem, ids: set<ItemId>, date: int)
    requires SameTree(es0, cur) && UnarchiveTarget(cur, spaces, space, item).Ok?
    requires after == Stamp(Flagged(cur, space, UnarchiveTarget(cur, spaces, space, item).value, false), ids, date)
    ensures Restored(es0, after, space, item)
  {
    var x := UnarchiveTarget(cur, spaces, space, item).value;
    var segs := PathSegments(Some(item.path));
    ResolveSameNames(es0, cur, space, segs);
    var owner := LastOr(Resolve(cur, space, segs).value, Nil);
    FindChildSameNames(es0, cur, space, owner, item.key);
    forall i | 0 <= i < |es0| && i < |after| && InSubtree(es0, space, i, x)
      ensures !after[i].archived
    {
      InSubtreeSameShape(es0, cur, space, i, x);
    }
  }

  /** The last row of a chain hangs below the one before it, or below the root. */
  lemma ChainLast(es: seq<Entry>, space: SpaceId, segs: seq<string>, ids: seq<ItemId>)
    requires IsChain(es, space, segs, ids) && ids != []
    ensures IndexOf(es, LastOr(ids, Nil)).Some?
    ensures IsNamedChild(es[IndexOf(es, LastOr(ids, Nil)).value], space, ParentFolderOf(ids), segs[|segs| - 1])
  {
    var last := |ids| - 1;
    assert IndexOf(es, ids[last]).Some?
      && IsNamedChild(es[IndexOf(es, ids[last]).value], space, if last == 0 then Nil else ids[last - 1], segs[last]);
  }

  /** The decisions of `renameFolder`, in its order. */
  function RenameTarget(es: seq<Entry>, spaces: set<SpaceId>, space: SpaceId, path: Option<string>, newName: string): (r: Result<nat, Failure>)
    ensures r.Ok? ==> r.value < |es|
  {
    match LookupSpec(es, spaces, space, path)
    case Err(e) => Err(e)
    case Ok(spec) =>
      match IndexOf(es, spec.itemId)
      case None => Err(RecordNotFound)
      case Some(x) =>
        if FindChild(es, space, spec.parentFolderId, newName).Some? then Err(ResourceAlreadyExists)
        else Ok(x)
  }

  /** The table after renaming row `x`, with the ancestors of `x` dated. */
  function Renamed(es: seq<Entry>, x: nat, newName: string, date: int): seq<Entry>
    requires x < |es|
  {
    var named := es[x := es[x].(name := newName)];
    Stamp(named, AncestorIds(named, es[x].parent), date)
  }

  /**
   * A renamed folder is found under its new name at its own level: the rename only
   * goes ahead when no item there already has that name.
   */
  lemma RenamedIsFoundByNewName(es: seq<Entry>, nextId: nat, spaces: set<SpaceId>, space: SpaceId, path: Option<string>, newName: string, date: int)
    requires TableValid(es, nextId)
    ensures var r := RenameTarget(es, spaces, space, path, newName);
      r.Ok? ==> FindChild(Renamed(es, r.value, newName, date), space, es[r.value].parent, newName) == Some(r.value)
  {
    var r := RenameTarget(es, spaces, space, path, newName);
    if r.Ok? {
      var segs := PathSegments(path);
      var ids := Resolve(es, space, segs).value;
      ResolveIsChain(es, nextId, space, segs);
      NoRowIsRoot(es, nextId);
      ChainLast(es, space, segs, ids);
      RenamedRowFound(es, r.value, space, newName, date);
    }
  }

  /** No row carries the root id. */
  lemma NoRowIsRoot(es: seq<Entry>, nextId: nat)
    requires TableValid(es, nextId)
    ensures IndexOf(es, Nil).None?
  {
  }

  lemma RenamedRowFound(es: seq<Entry>, x: nat, space: SpaceId, newName: string, date: int)
    requires x < |es| && es[x].space == space && FindChild(es, space, es[x].parent, newName).None?
    ensures FindChild(Renamed(es, x, newName, date), space, es[x].parent, newName) == Some(x)
  {
    var after := Renamed(es, x, newName, date);
    forall k | 0 <= k < x
      ensures !IsNamedChild(after[k], space, es[x].parent, newName)
    {
      assert after[k].name == es[k].name;
    }
    assert IsNamedChild(after[x], space, es[x].parent, newName);
  }

  /** The decisions of `addFolder`, in its order; on success, the parent of the new folder. */
  function AddFolderParent(es: seq<Entry>, spaces: set<SpaceId>, space: SpaceId, name: string, path: Option<string>): Result<ItemId, Failure>
  {
    match LookupSpec(es, spaces, space, Some(ConditionPath(path)))
    case Err(e) => Err(e)
    case Ok(spec) =>
      if |spec.uuidList| + 1 > MaxFolderDepth then Err(FolderDepthExceeded)
      else if ExistsNamed(es, space, spec.itemId, name) then Err(ResourceAlreadyExists)
      else Ok(spec.itemId)
  }

  /** A resolved path ends at the root or at a row of the table, so below the next id. */
  lemma ResolvedBelowNext(es: seq<Entry>, nextId: nat, space: SpaceId, segs: seq<string>)
    requires TableValid(es, nextId)
    ensures Resolve(es, space, segs).Some? ==> LastOr(Resolve(es, space, segs).value, Nil) < nextId
  {
    ResolveIsChain(es, nextId, space, segs);
    var r := Resolve(es, space, segs);
    if r.Some? && r.value != [] {
      var last := |r.value| - 1;
      assert IndexOf(es, r.value[last]).Some?;
    }
  }

  /** The table after `addFolder` appends the folder `e`, with the ancestors of `e` dated. */
  function WithFolder(es: seq<Entry>, e: Entry, date: int): seq<Entry>
  {
    Stamp(es + [e], AncestorIds(es + [e], e.parent), date)
  }

  /**
   * A folder that `addFolder` created is found at its path: the folder path followed
   * by its name resolves to the folders of the path and then the new id.
   */
  lemma AddedFolderIsReachable(es: seq<Entry>, nextId: nat, spaces: set<SpaceId>, space: SpaceId, name: string, path: Option<string>, date: int)
    requires TableValid(es, nextId)
    ensures var p := AddFolderParent(es, spaces, space, name, path);
      var segs := PathSegments(Some(ConditionPath(path)));
      p.Ok? ==>
        var e := Entry(nextId, space, p.value, name, true, false, None);
        Resolve(WithFolder(es, e, date), space, segs + [name]) == Some(Resolve(es, space, segs).value + [nextId])
        && |segs| < MaxFolderDepth
  {
    var p := AddFolderParent(es, spaces, space, name, path);
    var segs := PathSegments(Some(ConditionPath(path)));
    if p.Ok? {
      var e := Entry(nextId, space, p.value, name, true, false, None);
      var ids := Resolve(es, space, segs).value;
      AppendedFolderResolves(es, space, segs, ids, e);
      ResolveSameNames(es + [e], WithFolder(es, e, date), space, segs + [name]);
    }
  }

  /** A folder appended below the end of a resolved path, with a name new at that level, extends the path. */
  lemma AppendedFolderResolves(es: seq<Entry>, space: SpaceId, segs: seq<string>, ids: seq<ItemId>, e: Entry)
    requires Resolve(es, space, segs) == Some(ids)
    requires e.space == space && e.parent == LastOr(ids, Nil) && !ExistsNamed(es, space, e.parent, e.name)
    ensures Resolve(es + [e], space, segs + [e.name]) == Some(ids + [e.itemId])
  {
    var full := segs + [e.name];
    assert full[..|segs|] == segs && full[|segs|] == e.name && full[..|segs| + 1] == full;
    ResolveStepCreated(es, space, full, |segs|, ids, e);
  }


  // ---------------------------------------------------------------------------
  // The service over the entry table

  class FileSystem {
    /** The ids of the document spaces that exist. */
    var spaces: set<SpaceId>
    /** The file-system entry table, in repository order. */
    var entries: seq<Entry>
    /** The next fresh item id. */
    var nextId: nat
    /** The folder and file name validator; its pattern is not part of this model. */
    const validName: string -> bool

    predicate Valid()
      reads this
    {
      TableValid(entries, nextId)
    }

    constructor (spaces: set<SpaceId>, validName: string -> bool)
      ensures Valid() && this.spaces == spaces && entries == [] && this.validName == validName
    {
      this.spaces := spaces;
      this.validName := validName;
      entries := [];
      nextId := 1;
    }

    /**
     * One segment of `parsePathToFilePathSpec`: the row named `name` under `parent`,
     * or with `createFolders` a new folder for it once the name is validated.
     */
    method FindOrCreate(space: SpaceId, parent: ItemId, name: string, createFolders: bool) returns (r: Result<ItemId, Failure>)
      requires Valid() && parent < nextId
      modifies this
      ensures Valid() && spaces == old(spaces)
      ensures match FindChild(old(entries), space, parent, name)
        case Some(i) => r == Ok(old(entries)[i].itemId) && entries == old(entries) && nextId == old(nextId)
        case None =>
          if !createFolders then r == Err(RecordNotFound) && entries == old(entries) && nextId == old(nextId)
          else if !validName(name) then r == Err(BadRequest) && entries == old(entries) && nextId == old(nextId)
          else (r == Ok(old(nextId)) && nextId == old(nextId) + 1
                && entries == old(entries) + [Entry(old(nextId), space, parent, name, true, false, None)])
    {
      var found := FindChild(entries, space, parent, name);
      if found.Some? {
        return Ok(entries[found.value].itemId);
      }
      if !createFolders {
        return Err(RecordNotFound);
      }
      if !validName(name) {
        return Err(BadRequest);
      }
      var e := Entry(nextId, space, parent, name, true, false, None);
      AppendValid(entries, nextId, e);
      entries := entries + [e];
      r := Ok(nextId);
      nextId := nextId + 1;
    }

    /**
     * `parsePathToFilePathSpec`: resolves the conditioned path segment by segment in
     * `space`; with `createFolders` too deep a path is refused first.
     */
    method ParsePath(space: SpaceId, path: Option<string>, createFolders: bool) returns (r: Result<FilePathSpec, Failure>)
      requires Valid()
      modifies this
      ensures Valid() && spaces == old(spaces)
      ensures |old(entries)| <= |entries| && entries[..|old(entries)|] == old(entries)
      ensures forall i :: |old(entries)| <= i < |entries| ==>
        entries[i].space == space && entries[i].isFolder && !entries[i].archived && entries[i].lastModified.None?
      ensures !createFolders ==> (entries == old(entries) && nextId == old(nextId)
        && r == LookupSpec(old(entries), old(spaces), space, path))
      ensures space !in spaces ==> r == Err(RecordNotFound) && entries == old(entries)
      ensures space in spaces && createFolders && |PathSegments(path)| > MaxFolderDepth ==>
        r == Err(FolderDepthExceeded) && entries == old(entries)
      ensures (space in spaces && createFolders && |PathSegments(path)| <= MaxFolderDepth
        && forall k :: 0 <= k < |PathSegments(path)| ==> validName(PathSegments(path)[k])) ==> r.Ok?
      ensures r == Err(BadRequest) ==> exists k :: 0 <= k < |PathSegments(path)| && !validName(PathSegments(path)[k])
      ensures r.Ok? ==> (Resolve(entries, space, PathSegments(path)) == Some(r.value.uuidList)
        && r.value == SpecOf(space, PathSegments(path), r.value.uuidList))
    {
      if space !in spaces {
        return Err(RecordNotFound);
      }
      var lookupPath := ConditionPath(path);
      CountPathDepthCountsSegments(Some(lookupPath));
      if createFolders && CountPathDepth(Some(lookupPath)) > MaxFolderDepth {
        return Err(FolderDepthExceeded);
      }
      r := WalkSegments(space, Segments(lookupPath), createFolders);
    }

    /** One turn of the loop of `parsePathToFilePathSpec`, stated as how far the path resolves. */
    method ResolveNext(space: SpaceId, segs: seq<string>, k: nat, uuids: seq<ItemId>, parent: ItemId, createFolders: bool)
      returns (r: Result<ItemId, Failure>)
      requires Valid() && k < |segs| && Resolve(entries, space, segs[..k]) == Some(uuids)
      requires parent == LastOr(uuids, Nil) && parent < nextId
      modifies this
      ensures Valid() && spaces == old(spaces) && nextId >= old(nextId)
      ensures GrewBy(old(entries), entries, space)
      ensures !createFolders ==> entries == old(entries) && nextId == old(nextId)
      ensures r.Ok? ==> Resolve(entries, space, segs[..k + 1]) == Some(uuids + [r.value]) && r.value < nextId
      ensures r.Err? && !createFolders ==> r.error == RecordNotFound && Resolve(entries, space, segs).None?
      ensures r.Err? && createFolders ==> r.error == BadRequest && !validName(segs[k])
    {
      ghost var before := entries;
      ghost var found := FindChild(entries, space, parent, segs[k]);
      r := FindOrCreate(space, parent, segs[k], createFolders);
      if r.Err? {
        if !createFolders {
          ResolveStepMissing(before, space, segs, k, uuids);
        }
      } else if found.Some? {
        ResolveStepFound(before, space, segs, k, uuids, found.value);
      } else {
        ResolveStepCreated(before, space, segs, k, uuids, entries[|before|]);
      }
    }

    /** The loop of `parsePathToFilePathSpec` over the segments of the path. */
    method WalkSegments(space: SpaceId, segs: seq<string>, createFolders: bool) returns (r: Result<FilePathSpec, Failure>)
      requires Valid()
      modifies this
      ensures Valid() && spaces == old(spaces)
      ensures GrewBy(old(entries), entries, space)
      ensures !createFolders ==> entries == old(entries) && nextId == old(nextId)
      ensures r.Ok? ==> (Resolve(entries, space, segs) == Some(r.value.uuidList) && r.value == SpecOf(space, segs, r.value.uuidList))
      ensures r.Err? && createFolders ==> r.error == BadRequest && exists k :: 0 <= k < |segs| && !validName(segs[k])
      ensures r.Err? && !createFolders ==> r.error == RecordNotFound && Resolve(entries, space, segs).None?
    {
      ghost var start := entries;
      var parentFolderId := Nil;
      var uuids: seq<ItemId> := [];
      var accumulated := "";
      var k := 0;
      while k < |segs|
        invariant 0 <= k <= |segs|
        invariant Valid() && spaces == old(spaces)
        invariant GrewBy(start, entries, space)
        invariant !createFolders ==> entries == start && nextId == old(nextId)
        invariant Resolve(entries, space, segs[..k]) == Some(uuids)
        invariant parentFolderId < nextId
        invariant accumulated == PathAccumulated(segs[..k])
        invariant parentFolderId == if k < |segs| then LastOr(uuids, Nil) else ParentFolderOf(uuids)
      {
        assert segs[..k + 1][..k] == segs[..k];
        accumulated := accumulated + segs[k] + "/";
        ghost var before := entries;
        var step := ResolveNext(space, segs, k, uuids, parentFolderId, createFolders);
        GrewByTrans(start, before, entries, space);
        if step.Err? {
          return Err(step.error);
        }
        var id := step.value;
        if k + 1 < |segs| {
          parentFolderId := id;
        }
        uuids := uuids + [id];
        k := k + 1;
        assert Resolve(entries, space, segs[..k]) == Some(uuids);
      }
      assert segs[..k] == segs;
      var itemName := if uuids == [] then "" else segs[|segs| - 1];
      return Ok(FilePathSpec(space, LastOr(uuids, Nil), itemName, accumulated, uuids, parentFolderId));
    }

    /** `getAncestorHierarchy`: the strict ancestors of `from`, root first. */
    method GetAncestorHierarchy(from: Entry) returns (r: Result<seq<Entry>, Failure>)
      requires Valid()
      ensures match AncestorsOf(entries, from.parent, |entries|)
        case None => r == Err(RecordNotFound)
        case Some(a) => r == Ok(a)
    {
      var current := from;
      ghost var pos := |entries|;
      var hierarchy: seq<Entry> := [];
      ThenEmpty(AncestorsOf(entries, from.parent, |entries|));
      while current.parent != Nil
        invariant 0 <= pos <= |entries|
        invariant pos < |entries| ==> current == entries[pos]
        invariant AncestorsOf(entries, from.parent, |entries|) == Then(AncestorsOf(entries, current.parent, pos), hierarchy)
        decreases pos
      {
        var j := IndexOf(entries, current.parent);
        if j.None? {
          return Err(RecordNotFound);
        }
        if pos < |entries| {
          ParentIsEarlier(entries, nextId, pos, j.value);
        }
        AncestorsStep(entries, nextId, current.parent, pos, j.value, hierarchy);
        current := entries[j.value];
        pos := j.value;
        hierarchy := [current] + hierarchy;
      }
      assert [] + hierarchy == hierarchy;
      return Ok(hierarchy);
    }

    /**
     * `propagateModificationStateToAncestors`: every ancestor of `from` that has no
     * modification date or an older one than `date` gets `date`. `date` stands for
     * the most recent modification among the siblings of `from`, or the current
     * time when there is none. A broken ancestor chain updates nothing.
     */
    method Propagate(from: Entry, date: int) returns (updated: seq<Entry>)
      requires Valid()
      modifies this
      ensures Valid() && spaces == old(spaces) && nextId == old(nextId)
      ensures entries == Stamp(old(entries), AncestorIds(old(entries), from.parent), date)
      ensures forall u :: u in updated ==> u.itemId in AncestorIds(old(entries), from.parent) && u.lastModified == Some(date)
    {
      var hierarchy := GetAncestorHierarchy(from);
      if hierarchy.Err? || hierarchy.value == [] {
        StampNothing(entries, date);
        return [];
      }
      assert entries[..|entries|] == entries;
      updated := StampAll(hierarchy.value, date);
    }

    /** The update of `propagateModificationStateToAncestors`: every listed row older than `date` gets it. */
    method StampAll(ancestors: seq<Entry>, date: int) returns (updated: seq<Entry>)
      requires Valid() && forall k :: 0 <= k < |ancestors| ==> ancestors[k] in entries
      modifies this
      ensures Valid() && spaces == old(spaces) && nextId == old(nextId)
      ensures entries == Stamp(old(entries), IdsOf(ancestors), date)
      ensures forall u :: u in updated ==> u.itemId in IdsOf(ancestors) && u.lastModified == Some(date)
    {
      ghost var es0 := entries;
      StampNothing(es0, date);
      assert ancestors[..0] == [];
      updated := [];
      for k := 0 to |ancestors|
        invariant Valid() && spaces == old(spaces) && nextId == old(nextId)
        invariant entries == Stamp(es0, IdsOf(ancestors[..k]), date)
        invariant forall u :: u in updated ==> u.itemId in IdsOf(ancestors[..k]) && u.lastModified == Some(date)
      {
        var a := ancestors[k];
        IdsOfSnoc(ancestors, k);
        ghost var jj := StampAncestor(es0, nextId, IdsOf(ancestors[..k]), date, a);
        if Older(a, date) {
          var j := IndexOf(entries, a.itemId).value;
          entries := entries[j := entries[j].(lastModified := Some(date))];
          updated := updated + [a.(lastModified := Some(date))];
        }
        ValidSameShape(es0, entries, nextId);
      }
      assert ancestors[..|ancestors|] == ancestors;
    }

    /**
     * `archiveOrUnarchiveChildren`: the children of row `x` are handled first, each
     * with its own subtree, then `x` itself gets the flag.
     */
    method MarkSubtree(space: SpaceId, x: nat, flag: bool)
      requires Valid() && x < |entries|
      modifies this
      ensures Valid() && spaces == old(spaces) && nextId == old(nextId)
      ensures entries == Flagged(old(entries), space, x, flag)
      decreases |entries| - x
    {
      ghost var es0 := entries;
      var j := 0;
      while j < |entries|
        invariant 0 <= j <= |entries| == |es0|
        invariant spaces == old(spaces) && nextId == old(nextId)
        invariant SameShape(es0, entries)
        invariant Valid()
        invariant MarkedUpTo(es0, entries, space, x, j, flag)
      {
        if entries[j].space == space && entries[j].parent == entries[x].itemId {
          ParentIsEarlier(entries, nextId, j, x);
          ghost var cur := entries;
          MarkSubtree(space, j, flag);
          MarkedChild(es0, cur, entries, space, x, j, flag);
          SameShapeTrans(es0, cur, entries);
        } else {
          MarkedOther(es0, entries, space, x, j, flag);
        }
        j := j + 1;
      }
      MarkedAll(es0, nextId, entries, space, x, flag);
      entries := entries[x := entries[x].(archived := flag)];
      ValidSameShape(es0, entries, nextId);
    }

    /** `walkTreeForArchivedItems` below the node at `pos` (-1 for the root), whose path is `path`. */
    method WalkTreeForArchivedItems(space: SpaceId, pos: int, path: string) returns (elements: seq<ArchivedItem>)
      requires Valid() && -1 <= pos < |entries|
      ensures elements == Reports(WalkArchived(entries, nextId, space, pos, path, 0))
      decreases |entries| - pos, 1
    {
      elements := [];
      var j := 0;
      while j < |entries|
        invariant 0 <= j <= |entries|
        invariant ListedBefore(entries, nextId, space, pos, path, j, elements)
      {
        var found := ChildItems(space, pos, path, j);
        ListedStep(entries, nextId, space, pos, path, j, elements);
        elements := elements + found;
        j := j + 1;
      }
      ListedDone(entries, nextId, space, pos, path, elements);
    }

    /** One turn of the walk's loop: what the row at `j` adds below the node at `pos`. */
    method ChildItems(space: SpaceId, pos: int, path: string, j: nat) returns (found: seq<ArchivedItem>)
      requires Valid() && -1 <= pos < |entries| && j < |entries|
      ensures found == Piece(entries, nextId, space, pos, path, j)
      decreases |entries| - pos, 0
    {
      var child := entries[j];
      found := [];
      if child.space == space && child.parent == NodeId(entries, pos) {
        if child.archived {
          found := [ArchivedItem(child.isFolder, path, child.name)];
        } else if child.isFolder {
          ChildAfterNode(entries, nextId, j, pos);
          found := WalkTreeForArchivedItems(space, j, JoinPathParts([path, child.name]));
        }
      }
    }

    /** `getArchivedItems`: the archived listing of a whole space, from its root. */
    method GetArchivedItems(space: SpaceId) returns (r: Result<seq<ArchivedItem>, Failure>)
      requires Valid()
      ensures space !in spaces ==> r == Err(RecordNotFound)
      ensures space in spaces ==> r == Ok(Reports(WalkArchived(entries, nextId, space, -1, "/", 0)))
    {
      if space !in spaces {
        return Err(RecordNotFound);
      }
      var items := WalkTreeForArchivedItems(space, -1, "/");
      return Ok(items);
    }

    /** `archiveOrUnarchiveChildren` on the subtree of row `x`, then `propagate` from it. */
    method FlagAndPropagate(space: SpaceId, x: nat, flag: bool, date: int)
      requires Valid() && x < |entries|
      modifies this
      ensures Valid() && spaces == old(spaces) && nextId == old(nextId)
      ensures entries == Stamp(Flagged(old(entries), space, x, flag), AncestorIds(old(entries), old(entries)[x].parent), date)
    {
      ghost var es0 := entries;
      MarkSubtree(space, x, flag);
      AncestorIdsSameShape(es0, entries, es0[x].parent);
      var _ := Propagate(entries[x], date);
    }

    /** `archiveElement`: archives the named item of a folder and everything below it. */
    method ArchiveElement(space: SpaceId, path: Option<string>, itemName: string, date: int) returns (r: Result<(), Failure>)
      requires Valid()
      modifies this
      ensures Valid() && spaces == old(spaces) && nextId == old(nextId)
      ensures match ArchiveTarget(old(entries), old(spaces), space, path, itemName)
        case Err(e) => r == Err(e) && entries == old(entries)
        case Ok(x) => (r == Ok(()) && entries ==
          Stamp(Flagged(old(entries), space, x, true), AncestorIds(old(entries), old(entries)[x].parent), date))
    {
      var owning := ParsePath(space, path, false);
      if owning.Err? {
        return Err(owning.error);
      }
      if itemName == "/" || IsBlank(itemName) {
        return Err(BadRequest);
      }
      if ExistsArchivedNamed(entries, space, owning.value.itemId, itemName) {
        return Err(ResourceAlreadyExists);
      }
      var start := FindChild(entries, space, owning.value.itemId, itemName);
      if start.None? {
        return Err(RecordNotFound);
      }
      FlagAndPropagate(space, start.value, true, date);
      return Ok(());
    }

    /** One turn of `unArchiveElements`: brings back `item` and everything below it. */
    method UnarchiveItem(space: SpaceId, item: ArchivedItem, date: int) returns (r: Result<(), Failure>)
      requires Valid()
      modifies this
      ensures Valid() && spaces == old(spaces) && nextId == old(nextId)
      ensures match UnarchiveTarget(old(entries), old(spaces), space, item)
        case Err(e) => r == Err(e) && entries == old(entries)
        case Ok(x) => (r == Ok(()) && entries ==
          Stamp(Flagged(old(entries), space, x, false), AncestorIds(old(entries), old(entries)[x].parent), date))
    {
      var owning := ParsePath(space, Some(item.path), false);
      if owning.Err? {
        return Err(owning.error);
      }
      var owner := owning.value.itemId;
      if owner != Nil {
        var parent := IndexOf(entries, owner);
        if parent.None? {
          return Err(RecordNotFound);
        }
        if entries[parent.value].archived {
          return Err(BadRequest);
        }
      }
      var start := FindChild(entries, space, owner, item.key);
      if start.None? {
        return Err(RecordNotFound);
      }
      FlagAndPropagate(space, start.value, false, date);
      return Ok(());
    }

    /**
     * `unArchiveElements`: of the archived listing, the items whose full path was
     * requested are brought back one after the other; nothing is archived on the
     * way, and on success every selected item's subtree is live again.
     */
    method UnArchiveElements(space: SpaceId, items: seq<string>, date: int) returns (r: Result<(), Failure>)
      requires Valid()
      modifies this
      ensures Valid() && spaces == old(spaces) && nextId == old(nextId)
      ensures SameTree(old(entries), entries)
      ensures forall i :: 0 <= i < |entries| && entries[i].archived ==> old(entries)[i].archived
      ensures space !in spaces ==> r == Err(RecordNotFound) && entries == old(entries)
      ensures r.Ok? ==> forall it :: it in UnarchiveSelection(old(entries), old(nextId), space, items) ==>
        Restored(old(entries), entries, space, it)
      ensures OnlyUnder(old(entries), entries, space, UnarchiveSelection(old(entries), old(nextId), space, items))
    {
      var archived := GetArchivedItems(space);
      if archived.Err? {
        return Err(archived.error);
      }
      var chosen := Selected(archived.value, RootedAll(items));
      ghost var es0 := entries;
      for k := 0 to |chosen|
        invariant Valid() && spaces == old(spaces) && nextId == old(nextId)
        invariant SameTree(es0, entries)
        invariant forall i :: 0 <= i < |entries| && entries[i].archived ==> es0[i].archived
        invariant forall m :: 0 <= m < k ==> Restored(es0, entries, space, chosen[m])
        invariant OnlyUnder(es0, entries, space, chosen[..k])
      {
        ghost var cur := entries;
        var res := UnarchiveItem(space, chosen[k], date);
        if res.Err? {
          OnlyUnderPrefix(es0, entries, space, chosen, k);
          return res;
        }
        ghost var x := UnarchiveTarget(cur, spaces, space, chosen[k]).value;
        ClearedKeepsTree(cur, space, x, AncestorIds(cur, cur[x].parent), date);
        RestoredAfterItem(es0, cur, entries, spaces, space, chosen[k], AncestorIds(cur, cur[x].parent), date);
        ClearedOnlyUnderItem(es0, cur, entries, spaces, space, chosen, k, AncestorIds(cur, cur[x].parent), date);
        UnarchiveStep(es0, cur, entries, space, chosen, k);
      }
      r := Ok(());
    }

    /** The saving part of `renameFolder`: the new name on row `x`, then `propagate` from it. */
    method SetName(x: nat, newName: string, date: int)
      requires Valid() && x < |entries|
      modifies this
      ensures Valid() && spaces == old(spaces) && nextId == old(nextId)
      ensures entries == Renamed(old(entries), x, newName, date)
    {
      ghost var es0 := entries;
      entries := entries[x := entries[x].(name := newName)];
      ValidSameShape(es0, entries, nextId);
      var _ := Propagate(entries[x], date);
    }

    /** `renameFolder`: gives the folder at `path` a new name unless its level already has one. */
    method RenameFolder(space: SpaceId, path: Option<string>, newName: string, date: int) returns (r: Result<(), Failure>)
      requires Valid()
      modifies this
      ensures Valid() && spaces == old(spaces) && nextId == old(nextId)
      ensures match RenameTarget(old(entries), old(spaces), space, path, newName)
        case Err(e) => r == Err(e) && entries == old(entries)
        case Ok(x) => r == Ok(()) && entries == Renamed(old(entries), x, newName, date)
    {
      if space !in spaces {
        return Err(RecordNotFound);
      }
      var spec := ParsePath(space, path, false);
      if spec.Err? {
        return Err(spec.error);
      }
      var x := IndexOf(entries, spec.value.itemId);
      if x.None? {
        return Err(RecordNotFound);
      }
      if FindChild(entries, space, spec.value.parentFolderId, newName).Some? {
        return Err(ResourceAlreadyExists);
      }
      SetName(x.value, newName, date);
      return Ok(());
    }

    /** The saving part of `addFolder`: the new row `e` under the next id, then `propagate` from it. */
    method SaveFolder(e: Entry, date: int)
      requires Valid() && e.itemId == nextId && e.parent < nextId
      modifies this
      ensures Valid() && spaces == old(spaces) && nextId == old(nextId) + 1
      ensures entries == WithFolder(old(entries), e, date)
    {
      AppendValid(entries, nextId, e);
      entries := entries + [e];
      nextId := nextId + 1;
      var _ := Propagate(e, date);
    }

    /** `addFolder`: a new folder `name` in the folder at `path`, within the depth limit and without a name clash. */
    method AddFolder(space: SpaceId, name: string, path: Option<string>, date: int) returns (r: Result<Entry, Failure>)
      requires Valid()
      modifies this
      ensures Valid() && spaces == old(spaces)
      ensures match AddFolderParent(old(entries), old(spaces), space, name, path)
        case Err(e) => r == Err(e) && entries == old(entries) && nextId == old(nextId)
        case Ok(p) =>
          var e := Entry(old(nextId), space, p, name, true, false, None);
          r == Ok(e) && nextId == old(nextId) + 1 && entries == WithFolder(old(entries), e, date)
    {
      ghost var outcome := AddFolderParent(entries, spaces, space, name, path);
      if space !in spaces {
        assert outcome == Err(RecordNotFound);
        return Err(RecordNotFound);
      }
      var lookupPath := ConditionPath(path);
      ResolvedBelowNext(entries, nextId, space, PathSegments(Some(lookupPath)));
      var spec := ParsePath(space, Some(lookupPath), false);
      if spec.Err? {
        assert outcome == Err(spec.error);
        return Err(spec.error);
      }
      if |spec.value.uuidList| + 1 > MaxFolderDepth {
        assert outcome == Err(FolderDepthExceeded);
        return Err(FolderDepthExceeded);
      }
      if ExistsNamed(entries, space, spec.value.itemId, name) {
        assert outcome == Err(ResourceAlreadyExists);
        return Err(ResourceAlreadyExists);
      }
      assert outcome == Ok(spec.value.itemId);
      var e := Entry(nextId, space, spec.value.itemId, name, true, false, None);
      SaveFolder(e, date);
      return Ok(e);
    }
  }
}
