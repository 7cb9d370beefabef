/**
 * The mobile view of document spaces: each listed space with a short
 * privilege summary, the user's default space, and folder contents with a
 * favourite flag.
 */
module MobileSpaces {
  import opened Wrappers
  import opened DocumentSpacePrivileges

  /** The summary the mobile client shows for a space. */
  datatype ShortPrivilege = Admin | Editor | Viewer

  /** The dashboard-wide administrator privilege. */
  const DashboardAdminPrivilege: string := "DASHBOARD_ADMIN"

  datatype Space = Space(id: Uuid, name: string)

  datatype SpaceInfo = SpaceInfo(id: Uuid, name: string, privilege: ShortPrivilege)

  /**
   * The summary of a user's types in a space: ADMIN with both MEMBERSHIP and
   * WRITE, EDITOR with WRITE alone, VIEWER without WRITE.
   */
  function Summary(privs: seq<PrivType>): (r: ShortPrivilege)
    ensures r == Admin <==> Membership in privs && Write in privs
    ensures r == Editor <==> Write in privs && Membership !in privs
    ensures r == Viewer <==> Write !in privs
  {
    if Membership in privs && Write in privs then Admin
    else if Write in privs then Editor
    else Viewer
  }

  /** The summary only depends on which types are held, not on order or repeats. */
  lemma SummaryIgnoresOrder(p: seq<PrivType>, q: seq<PrivType>)
    requires forall t :: t in p <==> t in q
    ensures Summary(p) == Summary(q)
  {
    assert Membership in p <==> Membership in q;
    assert Write in p <==> Write in q;
  }

  /** `extractUserPrivFromSpace`: the scan for MEMBERSHIP and WRITE over the user's types. */
  method ExtractUserPrivFromSpace(privs: seq<PrivType>) returns (r: ShortPrivilege)
    ensures r == Summary(privs)
  {
    var hasMembership, hasWrite := false, false;
    for i := 0 to |privs|
      invariant hasMembership <==> Membership in privs[..i]
      invariant hasWrite <==> Write in privs[..i]
    {
      if privs[i] == Membership {
        hasMembership := true;
      } else if privs[i] == Write {
        hasWrite := true;
      }
      assert privs[..i + 1] == privs[..i] + [privs[i]];
    }
    assert privs[..|privs|] == privs;
    if hasMembership && hasWrite {
      r := Admin;
    } else if hasWrite {
      r := Editor;
    } else {
      r := Viewer;
    }
  }

  /**
   * The entry for one space: ADMIN for a dashboard administrator without any
   * lookup, otherwise the summary of the user's types there; a failed lookup
   * fails the whole listing.
   */
  function InfoFor(space: Space, isAdmin: bool, privilegesOf: Uuid -> Result<seq<PrivType>, Failure>): Result<SpaceInfo, Failure>
  {
    if isAdmin then Ok(SpaceInfo(space.id, space.name, Admin))
    else match privilegesOf(space.id)
      case Err(e) => Err(e)
      case Ok(privs) => Ok(SpaceInfo(space.id, space.name, Summary(privs)))
  }

  /** The first listed space with the given id. */
  function FirstWithId(infos: seq<SpaceInfo>, id: Uuid): (r: Option<SpaceInfo>)
    ensures r.None? <==> forall i :: 0 <= i < |infos| ==> infos[i].id != id
    ensures r.Some? ==> exists i :: 0 <= i < |infos| && infos[i] == r.value && r.value.id == id
                                   && forall j :: 0 <= j < i ==> infos[j].id != id
  {
    if infos == [] then None
    else if infos[0].id == id then Some(infos[0])
    else
      var rest := FirstWithId(infos[1..], id);
      assert forall i :: 1 <= i < |infos| ==> infos[i] == infos[1..][i - 1];
      if rest.Some? then
        var k :| 0 <= k < |infos[1..]| && infos[1..][k] == rest.value && rest.value.id == id
                 && forall j :: 0 <= j < k ==> infos[1..][j].id != id;
        assert infos[k + 1] == rest.value;
        rest
      else rest
  }

  /**
   * `getSpacesAvailableAndDefault`: one entry per listed space, in order,
   * and the default space when the user's default id is among them.
   */
  method GetSpacesAvailableAndDefault(spaces: seq<Space>, userPrivileges: set<string>, defaultId: Option<Uuid>,
                                      privilegesOf: Uuid -> Result<seq<PrivType>, Failure>)
    returns (r: Result<(seq<SpaceInfo>, Option<SpaceInfo>), Failure>)
    ensures var isAdmin := DashboardAdminPrivilege in userPrivileges;
            r.Err? <==> exists i :: 0 <= i < |spaces| && InfoFor(spaces[i], isAdmin, privilegesOf).Err?
    ensures r.Ok? ==>
              var isAdmin := DashboardAdminPrivilege in userPrivileges;
              |r.value.0| == |spaces|
              && (forall i :: 0 <= i < |spaces| ==> Ok(r.value.0[i]) == InfoFor(spaces[i], isAdmin, privilegesOf))
              && r.value.1 == if defaultId.Some? then FirstWithId(r.value.0, defaultId.value) else None
  {
    var infos: seq<SpaceInfo> := [];
    for i := 0 to |spaces|
      invariant |infos| == i
      invariant forall k :: 0 <= k < i ==> Ok(infos[k]) == InfoFor(spaces[k], DashboardAdminPrivilege in userPrivileges, privilegesOf)
    {
      var space := spaces[i];
      if DashboardAdminPrivilege in userPrivileges {
        infos := infos + [SpaceInfo(space.id, space.name, Admin)];
        continue;
      }
      var privs := privilegesOf(space.id);
      if privs.Err? {
        assert InfoFor(spaces[i], false, privilegesOf).Err?;
        return Err(privs.error);
      }
      var summary := ExtractUserPrivFromSpace(privs.value);
      infos := infos + [SpaceInfo(space.id, space.name, summary)];
    }
    var defaultSpace := None;
    if defaultId.Some? {
      defaultSpace := FirstWithId(infos, defaultId.value);
    }
    r := Ok((infos, defaultSpace));
  }

  /** A file-system entry as listed in a folder. */
  datatype Entry = Entry(itemId: Uuid, itemName: string, isFolder: bool, createdBy: string, lastModifiedBy: Option<string>,
                         createdOn: int, lastModifiedOn: Option<int>, lastActivity: Option<int>)

  /** The mobile rendering of an entry. */
  datatype MobileEntry = MobileEntry(elementUniqueId: Uuid, key: string, isFolder: bool, isFavorite: bool,
                                     lastModifiedBy: string, lastModifiedDate: int, lastActivity: int)

  /**
   * `convertFileSystemEntriesToDto`: one rendering per entry, in order,
   * marked favourite exactly when a favourite has the entry's item id, and
   * with the creation data standing in for missing modification data.
   */
  function ConvertFileSystemEntries(entries: seq<Entry>, favoriteItemIds: seq<Uuid>): (r: seq<MobileEntry>)
    ensures |r| == |entries|
    ensures forall i :: 0 <= i < |entries| ==>
              r[i].elementUniqueId == entries[i].itemId && r[i].key == entries[i].itemName && r[i].isFolder == entries[i].isFolder
              && (r[i].isFavorite <==> exists j :: 0 <= j < |favoriteItemIds| && favoriteItemIds[j] == entries[i].itemId)
              && r[i].lastModifiedBy == entries[i].lastModifiedBy.UnwrapOr(entries[i].createdBy)
              && r[i].lastModifiedDate == entries[i].lastModifiedOn.UnwrapOr(entries[i].createdOn)
              && r[i].lastActivity == entries[i].lastActivity.UnwrapOr(entries[i].createdOn)
  {
    if entries == [] then []
    else
      var e := entries[0];
      [MobileEntry(e.itemId, e.itemName, e.isFolder, e.itemId in favoriteItemIds,
                   e.lastModifiedBy.UnwrapOr(e.createdBy), e.lastModifiedOn.UnwrapOr(e.createdOn), e.lastActivity.UnwrapOr(e.createdOn))]
      + ConvertFileSystemEntries(entries[1..], favoriteItemIds)
  }
}
