/**
 * A dashboard user's collections of file-system entries in a document space;
 * the one collection in use is the user's "Favorites" of each space.
 */
module UserCollections {
  import opened Wrappers

  type Uuid = nat

  /** The name every favourites collection carries. */
  const Favorites: string := "Favorites"

  /** A named set of file-system entry ids, owned by one user in one space. */
  datatype Collection = Collection(name: string, spaceId: Uuid, userId: Uuid, entries: set<Uuid>)

  type Collections = map<Uuid, Collection>

  predicate Owns(c: Collection, name: string, spaceId: Uuid, userId: Uuid)
  {
    c.name == name && c.spaceId == spaceId && c.userId == userId
  }

  /** No two collections share a name, a space and a user. */
  ghost predicate UniqueOwners(cols: Collections)
  {
    forall a, b :: a in cols && b in cols && a != b ==>
      !Owns(cols[a], cols[b].name, cols[b].spaceId, cols[b].userId)
  }

  /** Some collection has that name, space and user. */
  ghost predicate Exists(cols: Collections, name: string, spaceId: Uuid, userId: Uuid)
  {
    exists id :: id in cols && Owns(cols[id], name, spaceId, userId)
  }

  /** The collection with that name, space and user, if any. */
  ghost function Find(cols: Collections, name: string, spaceId: Uuid, userId: Uuid): (r: Option<Uuid>)
    ensures r.Some? ==> r.value in cols && Owns(cols[r.value], name, spaceId, userId)
    ensures r.None? <==> !Exists(cols, name, spaceId, userId)
  {
    if Exists(cols, name, spaceId, userId) then
      Some(var id :| id in cols && Owns(cols[id], name, spaceId, userId); id)
    else None
  }

  /** With owners unique, the collection found is the only one of its owner. */
  lemma FindIsUnique(cols: Collections, name: string, spaceId: Uuid, userId: Uuid, id: Uuid)
    requires UniqueOwners(cols)
    requires id in cols && Owns(cols[id], name, spaceId, userId)
    ensures Find(cols, name, spaceId, userId) == Some(id)
  {
  }

  /** A new, empty collection under a fresh id. */
  function Created(cols: Collections, name: string, spaceId: Uuid, userId: Uuid, newId: Uuid): (r: Collections)
    requires newId !in cols
    ensures r.Keys == cols.Keys + {newId} && r[newId] == Collection(name, spaceId, userId, {})
    ensures forall id :: id in cols ==> r[id] == cols[id]
  {
    cols[newId := Collection(name, spaceId, userId, {})]
  }

  /** Creating a collection for an owner that has none keeps owners unique. */
  lemma CreatedKeepsUnique(cols: Collections, name: string, spaceId: Uuid, userId: Uuid, newId: Uuid)
    requires UniqueOwners(cols) && newId !in cols && !Exists(cols, name, spaceId, userId)
    ensures UniqueOwners(Created(cols, name, spaceId, userId, newId))
  {
    var r := Created(cols, name, spaceId, userId, newId);
    forall a, b | a in r && b in r && a != b
      ensures !Owns(r[a], r[b].name, r[b].spaceId, r[b].userId)
    {
      if a == newId {
        assert !Owns(cols[b], name, spaceId, userId);
      } else if b == newId {
        assert !Owns(cols[a], name, spaceId, userId);
      }
    }
  }

  /** The entry added to one collection; every other collection unchanged. */
  function WithEntry(cols: Collections, id: Uuid, entry: Uuid): (r: Collections)
    requires id in cols
    ensures r.Keys == cols.Keys && entry in r[id].entries
    ensures r[id].entries == cols[id].entries + {entry} && r[id].(entries := {}) == cols[id].(entries := {})
    ensures forall other :: other in cols && other != id ==> r[other] == cols[other]
  {
    cols[id := cols[id].(entries := cols[id].entries + {entry})]
  }

  /** The entry taken out of one collection; every other collection unchanged. */
  function WithoutEntry(cols: Collections, id: Uuid, entry: Uuid): (r: Collections)
    requires id in cols
    ensures r.Keys == cols.Keys && entry !in r[id].entries
    ensures r[id].entries == cols[id].entries - {entry} && r[id].(entries := {}) == cols[id].(entries := {})
    ensures forall other :: other in cols && other != id ==> r[other] == cols[other]
  {
    cols[id := cols[id].(entries := cols[id].entries - {entry})]
  }

  /** Entries form a set: adding an entry a second time changes nothing. */
  lemma AddTwiceIsAddOnce(cols: Collections, id: Uuid, entry: Uuid)
    requires id in cols
    ensures WithEntry(WithEntry(cols, id, entry), id, entry) == WithEntry(cols, id, entry)
  {
    var once := WithEntry(cols, id, entry);
    assert once[id].entries + {entry} == once[id].entries;
  }

  /** Removing an entry that was just added restores the collections it was added to. */
  lemma RemoveUndoesAdd(cols: Collections, id: Uuid, entry: Uuid)
    requires id in cols && entry !in cols[id].entries
    ensures WithoutEntry(WithEntry(cols, id, entry), id, entry) == cols
  {
    var back := WithoutEntry(WithEntry(cols, id, entry), id, entry);
    assert back[id].entries == cols[id].entries;
    assert back[id] == cols[id];
  }

  /** Changing a collection's entries leaves every owner unique. */
  lemma EntriesKeepUnique(cols: Collections, id: Uuid, entry: Uuid)
    requires UniqueOwners(cols) && id in cols
    ensures UniqueOwners(WithEntry(cols, id, entry))
    ensures UniqueOwners(WithoutEntry(cols, id, entry))
  {
    var added := WithEntry(cols, id, entry);
    var removed := WithoutEntry(cols, id, entry);
    forall a, b | a in cols && b in cols && a != b
      ensures !Owns(added[a], added[b].name, added[b].spaceId, added[b].userId)
      ensures !Owns(removed[a], removed[b].name, removed[b].spaceId, removed[b].userId)
    {
      assert !Owns(cols[a], cols[b].name, cols[b].spaceId, cols[b].userId);
    }
  }

  /**
   * `addEntityToFavoritesFolder` for a known user: the entry goes into the
   * user's Favorites of the space, created on first use; a missing entry is
   * not found, and the transaction leaves no new collection behind.
   */
  ghost function FavoriteAdded(cols: Collections, entries: set<Uuid>, userId: Uuid, spaceId: Uuid, entry: Uuid, newId: Uuid)
    : Result<Collections, Failure>
    requires newId !in cols
  {
    if entry !in entries then Err(RecordNotFound)
    else match Find(cols, Favorites, spaceId, userId)
      case Some(id) => Ok(WithEntry(cols, id, entry))
      case None => Ok(WithEntry(Created(cols, Favorites, spaceId, userId, newId), newId, entry))
  }

  /**
   * After adding a favourite the user has exactly one Favorites collection
   * in the space, it holds the entry, and nothing else changed.
   */
  lemma FavoriteAddedMeaning(cols: Collections, entries: set<Uuid>, userId: Uuid, spaceId: Uuid, entry: Uuid, newId: Uuid)
    requires UniqueOwners(cols) && newId !in cols
    ensures FavoriteAdded(cols, entries, userId, spaceId, entry, newId).Err? <==> entry !in entries
    ensures FavoriteAdded(cols, entries, userId, spaceId, entry, newId).Ok? ==>
              var r := FavoriteAdded(cols, entries, userId, spaceId, entry, newId).value;
              UniqueOwners(r)
              && Find(r, Favorites, spaceId, userId).Some?
              && entry in r[Find(r, Favorites, spaceId, userId).value].entries
              && forall id :: id in cols && !Owns(cols[id], Favorites, spaceId, userId) ==> id in r && r[id] == cols[id]
  {
    if entry in entries {
      match Find(cols, Favorites, spaceId, userId)
      case Some(id) =>
        var r := WithEntry(cols, id, entry);
        EntriesKeepUnique(cols, id, entry);
        FindIsUnique(r, Favorites, spaceId, userId, id);
      case None =>
        var created := Created(cols, Favorites, spaceId, userId, newId);
        CreatedKeepsUnique(cols, Favorites, spaceId, userId, newId);
        var r := WithEntry(created, newId, entry);
        EntriesKeepUnique(created, newId, entry);
        FindIsUnique(r, Favorites, spaceId, userId, newId);
    }
  }

  /**
   * The collection repository, the ids of the file-system entries and the
   * dashboard users (email to id).
   */
  class CollectionStore {
    var collections: Collections
    var entries: set<Uuid>
    var users: map<string, Uuid>

    ghost predicate Valid()
      reads this
    {
      UniqueOwners(collections)
    }

    constructor(entries: set<Uuid>, users: map<string, Uuid>)
      ensures Valid() && collections == map[] && this.entries == entries && this.users == users
    {
      collections := map[];
      this.entries := entries;
      this.users := users;
    }

    /** The repository's lookup of a collection by name, space and user. */
    method FindCollection(name: string, spaceId: Uuid, userId: Uuid) returns (r: Option<Uuid>)
      ensures r.Some? ==> r.value in collections && Owns(collections[r.value], name, spaceId, userId)
      ensures r.None? <==> !Exists(collections, name, spaceId, userId)
    {
      var todo := collections.Keys;
      while todo != {}
        invariant todo <= collections.Keys
        invariant forall id :: id in collections.Keys - todo ==> !Owns(collections[id], name, spaceId, userId)
        decreases todo
      {
        var id :| id in todo;
        if Owns(collections[id], name, spaceId, userId) {
          return Some(id);
        }
        todo := todo - {id};
      }
      r := None;
    }

    /**
     * `createFavoriteCollection`: a collection named Favorites for the user
     * and space, refused when that user already has one there.
     */
    method CreateFavoriteCollection(spaceId: Uuid, userId: Uuid, newId: Uuid) returns (r: Result<Uuid, Failure>)
      requires Valid() && newId !in collections
      modifies this
      ensures Valid() && entries == old(entries) && users == old(users)
      ensures Exists(old(collections), Favorites, spaceId, userId) ==>
                r == Err(ResourceAlreadyExists) && collections == old(collections)
      ensures !Exists(old(collections), Favorites, spaceId, userId) ==>
                r == Ok(newId) && collections == Created(old(collections), Favorites, spaceId, userId, newId)
    {
      var existing := FindCollection(Favorites, spaceId, userId);
      if existing.Some? {
        return Err(ResourceAlreadyExists);
      }
      CreatedKeepsUnique(collections, Favorites, spaceId, userId, newId);
      collections := Created(collections, Favorites, spaceId, userId, newId);
      r := Ok(newId);
    }

    /** `addFileSystemEntryToCollection`: a missing entry, then a missing collection, is not found. */
    method AddFileSystemEntryToCollection(entry: Uuid, id: Uuid) returns (r: Result<(), Failure>)
      requires Valid()
      modifies this
      ensures Valid() && entries == old(entries) && users == old(users)
      ensures entry !in entries || id !in old(collections) ==> r == Err(RecordNotFound) && collections == old(collections)
      ensures entry in entries && id in old(collections) ==> r == Ok(()) && collections == WithEntry(old(collections), id, entry)
    {
      if entry !in entries || id !in collections {
        return Err(RecordNotFound);
      }
      EntriesKeepUnique(collections, id, entry);
      collections := WithEntry(collections, id, entry);
      r := Ok(());
    }

    /** `removeFileSystemEntryFromCollection`: a missing entry, then a missing collection, is not found. */
    method RemoveFileSystemEntryFromCollection(entry: Uuid, id: Uuid) returns (r: Result<(), Failure>)
      requires Valid()
      modifies this
      ensures Valid() && entries == old(entries) && users == old(users)
      ensures entry !in entries || id !in old(collections) ==> r == Err(RecordNotFound) && collections == old(collections)
      ensures entry in entries && id in old(collections) ==> r == Ok(()) && collections == WithoutEntry(old(collections), id, entry)
    {
      if entry !in entries || id !in collections {
        return Err(RecordNotFound);
      }
      EntriesKeepUnique(collections, id, entry);
      collections := WithoutEntry(collections, id, entry);
      r := Ok(());
    }

    /**
     * `addEntityToFavoritesFolder`: an unknown user is not found; otherwise
     * the outcome of `FavoriteAdded`.
     */
    method AddEntityToFavoritesFolder(email: string, entry: Uuid, spaceId: Uuid, newId: Uuid) returns (r: Result<(), Failure>)
      requires Valid() && newId !in collections
      modifies this
      ensures Valid() && entries == old(entries) && users == old(users)
      ensures email !in users ==> r == Err(RecordNotFound) && collections == old(collections)
      ensures email in users ==>
                var outcome := FavoriteAdded(old(collections), entries, users[email], spaceId, entry, newId);
                (outcome.Err? ==> r == Err(outcome.error) && collections == old(collections))
                && (outcome.Ok? ==> r == Ok(()) && collections == outcome.value)
    {
      if email !in users {
        return Err(RecordNotFound);
      }
      var userId := users[email];
      var favorites := FindCollection(Favorites, spaceId, userId);
      if favorites.Some? {
        FindIsUnique(collections, Favorites, spaceId, userId, favorites.value);
        r := AddFileSystemEntryToCollection(entry, favorites.value);
      } else if entry !in entries {
        // the new collection is rolled back with the failed transaction
        r := Err(RecordNotFound);
      } else {
        var created := CreateFavoriteCollection(spaceId, userId, newId);
        r := AddFileSystemEntryToCollection(entry, newId);
      }
    }

    /**
     * `removeEntityFromFavoritesFolder`: an unknown user is not found, a user
     * without Favorites in the space is left as is, otherwise the entry is
     * taken out of that collection.
     */
    method RemoveEntityFromFavoritesFolder(email: string, entry: Uuid, spaceId: Uuid) returns (r: Result<(), Failure>)
      requires Valid()
      modifies this
      ensures Valid() && entries == old(entries) && users == old(users)
      ensures email !in users ==> r == Err(RecordNotFound) && collections == old(collections)
      ensures email in users && Find(old(collections), Favorites, spaceId, users[email]).None? ==>
                r == Ok(()) && collections == old(collections)
      ensures email in users && Find(old(collections), Favorites, spaceId, users[email]).Some? ==>
                var id := Find(old(collections), Favorites, spaceId, users[email]).value;
                (entry !in entries ==> r == Err(RecordNotFound) && collections == old(collections))
                && (entry in entries ==> r == Ok(()) && collections == WithoutEntry(old(collections), id, entry))
    {
      if email !in users {
        return Err(RecordNotFound);
      }
      var userId := users[email];
      var favorites := FindCollection(Favorites, spaceId, userId);
      if favorites.None? {
        return Ok(());
      }
      FindIsUnique(collections, Favorites, spaceId, userId, favorites.value);
      r := RemoveFileSystemEntryFromCollection(entry, favorites.value);
    }

    /**
     * `addFileSystemEntryToCollection` by path: the first requested item of
     * the resolved folder (its children by name) becomes a favourite; no item,
     * or no child of that name, is not found.
     */
    method AddFileSystemEntryByPath(email: string, spaceId: Uuid, items: seq<string>, folder: map<string, Uuid>, newId: Uuid)
      returns (r: Result<(), Failure>)
      requires Valid() && newId !in collections
      modifies this
      ensures Valid() && entries == old(entries) && users == old(users)
      ensures items == [] || items[0] !in folder ==> r == Err(RecordNotFound) && collections == old(collections)
      ensures items != [] && items[0] in folder && email !in users ==> r == Err(RecordNotFound) && collections == old(collections)
      ensures items != [] && items[0] in folder && email in users ==>
                var outcome := FavoriteAdded(old(collections), entries, users[email], spaceId, folder[items[0]], newId);
                (outcome.Err? ==> r == Err(outcome.error) && collections == old(collections))
                && (outcome.Ok? ==> r == Ok(()) && collections == outcome.value)
    {
      if items == [] || items[0] !in folder {
        return Err(RecordNotFound);
      }
      r := AddEntityToFavoritesFolder(email, folder[items[0]], spaceId, newId);
    }

    /** `removeFileSystemEntryToCollection` by path, with the same lookups as adding. */
    method RemoveFileSystemEntryByPath(email: string, spaceId: Uuid, items: seq<string>, folder: map<string, Uuid>)
      returns (r: Result<(), Failure>)
      requires Valid()
      modifies this
      ensures Valid() && entries == old(entries) && users == old(users)
      ensures items == [] || items[0] !in folder ==> r == Err(RecordNotFound) && collections == old(collections)
      ensures items != [] && items[0] in folder && email !in users ==> r == Err(RecordNotFound) && collections == old(collections)
      ensures items != [] && items[0] in folder && email in users && Find(old(collections), Favorites, spaceId, users[email]).None? ==>
                r == Ok(()) && collections == old(collections)
      ensures items != [] && items[0] in folder && email in users && Find(old(collections), Favorites, spaceId, users[email]).Some? ==>
                var id := Find(old(collections), Favorites, spaceId, users[email]).value;
                (folder[items[0]] !in entries ==> r == Err(RecordNotFound) && collections == old(collections))
                && (folder[items[0]] in entries ==> r == Ok(()) && collections == WithoutEntry(old(collections), id, folder[items[0]]))
    {
      if items == [] || items[0] !in folder {
        return Err(RecordNotFound);
      }
      r := RemoveEntityFromFavoritesFolder(email, folder[items[0]], spaceId);
    }

    /** `deleteCollection`: a missing collection is not found. */
    method DeleteCollection(id: Uuid) returns (r: Result<(), Failure>)
      requires Valid()
      modifies this
      ensures Valid() && entries == old(entries) && users == old(users)
      ensures id !in old(collections) ==> r == Err(RecordNotFound) && collections == old(collections)
      ensures id in old(collections) ==> r == Ok(()) && collections == old(collections) - {id}
    {
      if id !in collections {
        return Err(RecordNotFound);
      }
      collections := collections - {id};
      r := Ok(());
    }
  }
}
