# tron-common-api core, modelled in Dafny

This project models the rules at the heart of the TRON Common API, a Spring
service that holds people, organisations, document spaces, scratch storage
and app sources for Air Force applications. It also models the Node script
that seeds an organisation tree through that API. Each core source file is
one Dafny module:

- `seeder.dfy` (`seed-utility/seeder.js`): parsing a person spec, rewriting
  ranks, and the depth-first walk that creates organisations, leaders and
  members, then attaches children with one JSON Patch. The REST API is an
  oracle over the trace of requests sent so far.
- `fs_paths.dfy` and `fs_tree.dfy` (`DocumentSpaceFileSystemServiceImpl`):
  path conditioning, joining and depth, and a table of file-system entries.
  The table supports path resolution that can create folders, adding and
  renaming folders, recursive archive and unarchive, the archived-item walk,
  ancestor chains, and propagating modification dates.
- `scratch_storage.dfy` (`ScratchStorageServiceImpl`): applications with
  SCRATCH_READ/WRITE/ADMIN privileges, per-key ACLs in ACL mode, and the
  key/value operations guarded by them.
- `json_db.dfy` (`JsonDbServiceImpl`): schema validation, field defaults,
  and adding, updating and removing records of a JSON table held in scratch
  storage.
- `organizations.dfy` (`OrganizationServiceImpl`): the parent/subordinate
  hierarchy, its ancestry and descendant checks, harvesting subordinates and
  members, parent changes, family-tree checks and typed metadata.
- `document_space_privileges.dfy`, `document_spaces.dfy`,
  `user_collections.dfy` and `mobile_spaces.dfy`: privileges of a document
  space, space creation and its key prefix, CSV member import, the clean-up
  when a user leaves a space, favourites collections, and the mobile
  privilege summary.
- `entity_field_auth.dfy` (`EntityFieldAuthServiceImpl`,
  `EntityFieldRunner`): field-level authority on person and organisation
  updates, and the privilege bootstrap.
- `specification_builder.dfy` (`SpecificationBuilder`): operator/type
  compatibility, casting filter text to field types, LIKE patterns, and the
  AND/OR composition of filter criteria as predicates over records.
- `person_service.dfy` (`PersonServiceImpl`): the affiliation-to-branch
  mapping, the rank fallback, metadata rules and the metadata update, and
  the uniqueness checks on create and update.
- `app_sources.dfy` (`AppSourceServiceImpl`): app-source administrators, what
  becomes of a removed administrator, adding administrators, and the update
  guards.
- `puckboard.dfy` (`PuckboardExtractorServiceImpl`): the rank lookup, branch
  and unit inference, and the organisation and personnel import passes with
  their status maps.
- `event_publisher.dfy` (`EventPublisher`): the bounded FIFO event queue, the
  consumer tick, subscriber URL building and the rules for skipping a
  subscriber.
- `wrappers.dfy`, `text.dfy` and `json.dfy` are shared support: Option,
  Result and the failure kinds; Java/JavaScript string operations; and a
  JSON value type.

Where the source changes state in place, the model does too. Repositories
and stores become classes whose fields are maps or sequences, and loops
become methods with invariants. Each such method is proved against a
specification function of the old state. The specification functions carry
the lemmas that state what the source promises. Exceptions become `Err`
values of `Result`; an exception the source does not catch propagates as
that `Err`.

## Model

| member | source | states |
|---|---|---|
| Seeder.RewriteRankOnlyThree | seed-utility/seeder.js:20-22 | only "LtCol", "2Lt" and "1Lt" are rewritten (to "Lt Col", "2nd Lt", "1st Lt"); every other rank passes unchanged |
| Seeder.ParsePersonOfFiveWords | seed-utility/seeder.js:16-29 | a spec of five single-space-separated words becomes rank (rewritten), first, middle, last name and email, with branch USAF |
| Seeder.ParseAll | seed-utility/seeder.js:123-128 | the member specs are parsed one body per spec |
| Seeder.ParseAllAt | seed-utility/seeder.js:124-125 | the k-th parsed body is the parse of the k-th member spec |
| Seeder.SubordinateOpsAt | seed-utility/seeder.js:58-61 | the subordinate patch has exactly one "add /subordinateOrganizations/-" op per child id, in order |
| Seeder.Remote.Fetch | seed-utility/seeder.js:24-30 | each request is appended to the trace and answered from the trace so far |
| Seeder.Remote.AddNewPerson | seed-utility/seeder.js:16-36 | posts the parsed person; the id is returned only on status 201, otherwise "Bad Add Person" |
| Seeder.Remote.AddNewOrg | seed-utility/seeder.js:38-54 | posts the org with the type upper-cased, no members, a null leader and the given parent; id only on 201 |
| Seeder.Remote.AddMemberOrgs | seed-utility/seeder.js:56-75 | the loop builds one append op per child id; the patch succeeds only on 200 |
| Seeder.Remote.AddLeader | seed-utility/seeder.js:77-91 | one "replace /leader" patch; success only on 200 |
| Seeder.Remote.AddMember | seed-utility/seeder.js:93-110 | one "add /members/-" patch; success only on 200 |
| Seeder.Remote.CreateLeader | seed-utility/seeder.js:116-120 | with a leader, the person is created and then patched in; a null leader sends nothing |
| Seeder.Remote.CreateMembers | seed-utility/seeder.js:122-128 | the loop creates and patches in each member in input order and stops at the first failure |
| Seeder.Remote.CreateUnits | seed-utility/seeder.js:131-137 | the loop walks each child with this org as parent and collects the ids in order |
| Seeder.Remote.CreateOrgStructure | seed-utility/seeder.js:112-144 | the method's trace and result are those of the recursive walk specification |
| Seeder.RunOrg | seed-utility/seeder.js:112-144 | the walk only extends the trace, by at least the org creation |
| Seeder.RunOrgSettled | seed-utility/seeder.js:16-144 | the first request is the org creation with the given parent; on success every request got its expected status (201 or 200), on failure only the last one did not, so nothing is sent after a rejection; the returned id is the creation's |
| Seeder.RunOrgShape | seed-utility/seeder.js:112-144 | a successful walk creates the org first and returns that id |
| Seeder.RunOrgCreatesEachNode | seed-utility/seeder.js:112-144 | a successful walk sends exactly one org creation per node of the literal |
| Seeder.RunOrgLeaderFirst | seed-utility/seeder.js:116-120 | right after the org creation come the leader's creation and the leader patch |
| Seeder.RunMembersInOrder | seed-utility/seeder.js:123-128 | member k is created at position 2k and patched in at 2k+1 with the id the API returned |
| Seeder.RunOrgMembersInOrder | seed-utility/seeder.js:114-128 | after the org (and the leader, if any) each member is created and patched in one at a time, in input order |
| Seeder.RunOrgPeopleInOrder | seed-utility/seeder.js:112-128 | leader before members, members in order, all after the org creation |
| Seeder.RunOrgCreatesItself | seed-utility/seeder.js:112-137 | a child's walk creates it with its parent's id as parent and returns the id the API answered |
| Seeder.RunUnitsCreateChildren | seed-utility/seeder.js:131-137 | every child is created under this org, and the collected ids are the children's ids in child order |
| Seeder.RunOrgSubordinatePatchLast | seed-utility/seeder.js:131-141 | the subordinate patch is the last request of the node, after all children's subtrees, listing every child's id in order |
| Seeder.RunOrgEmptyUnitsStillPatches | seed-utility/seeder.js:131-141 | an empty units array still ends with a subordinate patch with no ops |
| FsPaths.JoinPathParts | src/main/java/mil/tron/commonapi/service/documentspace/DocumentSpaceFileSystemServiceImpl.java:619-621 | the joined path always starts with "/" and never contains "//" |
| FsPaths.CollapseSlashes | src/main/java/mil/tron/commonapi/service/documentspace/DocumentSpaceFileSystemServiceImpl.java:620 | collapsing runs of "/" leaves no "//" and keeps the first character |
| FsPaths.JoinPathPartsKeepsSegments | src/main/java/mil/tron/commonapi/service/documentspace/DocumentSpaceFileSystemServiceImpl.java:619-621 | joining and collapsing keeps exactly the non-empty "/"-separated segments of the parts |
| FsPaths.DropTrailingSlashes | src/main/java/mil/tron/commonapi/service/documentspace/DocumentSpaceFileSystemServiceImpl.java:638-649 | the result is a prefix of the input that does not end in "/", and only "/" characters were dropped (the longest such prefix) |
| FsPaths.RemoveTrailingSlashes | src/main/java/mil/tron/commonapi/service/documentspace/DocumentSpaceFileSystemServiceImpl.java:638-649 | the index loop returns "" for null and otherwise the longest prefix not ending in "/" |
| FsPaths.DropKeepsSegments | src/main/java/mil/tron/commonapi/service/documentspace/DocumentSpaceFileSystemServiceImpl.java:638-649 | dropping trailing slashes does not change the segments of a path |
| FsPaths.JavaSplitSegments | src/main/java/mil/tron/commonapi/service/documentspace/DocumentSpaceFileSystemServiceImpl.java:635 | the pieces of the Java split on "/" contain no "/", and the non-empty ones are the path's segments |
| FsPaths.JoinedDepth | src/main/java/mil/tron/commonapi/service/documentspace/DocumentSpaceFileSystemServiceImpl.java:628-636 | the canonical joined path splits into one more piece than there are non-empty parts |
| FsPaths.CountPathDepthCountsSegments | src/main/java/mil/tron/commonapi/service/documentspace/DocumentSpaceFileSystemServiceImpl.java:628-636 | the depth is 0 for null and otherwise the number of non-empty "/"-separated segments |
| FsPaths.ConditionPathRootOrTrimmed | src/main/java/mil/tron/commonapi/service/documentspace/DocumentSpaceFileSystemServiceImpl.java:61-66 | the conditioned path is "/" iff the input is null, blank or trims to "/"; otherwise it is the trimmed input |
| FsTree.FindChild | src/main/java/mil/tron/commonapi/service/documentspace/DocumentSpaceFileSystemServiceImpl.java:120-122 | the lookup by (space, parent, name) returns the first matching row, and none exactly when no row matches |
| FsTree.Resolve | src/main/java/mil/tron/commonapi/service/documentspace/DocumentSpaceFileSystemServiceImpl.java:118-158 | a resolved path has exactly one item id per segment |
| FsTree.ResolveIsChain | src/main/java/mil/tron/commonapi/service/documentspace/DocumentSpaceFileSystemServiceImpl.java:118-158 | each resolved id is a row named by its segment whose parent is the previous id (the root for the first) |
| FsTree.FileSystem.FindOrCreate | src/main/java/mil/tron/commonapi/service/documentspace/DocumentSpaceFileSystemServiceImpl.java:120-150 | an existing child is returned unchanged; a missing one gives not-found without create, bad-request for an invalid name, and otherwise exactly one new folder row under the parent |
| FsTree.FileSystem.WalkSegments | src/main/java/mil/tron/commonapi/service/documentspace/DocumentSpaceFileSystemServiceImpl.java:118-158 | on success the uuid list is the resolution of the segments; the table only grows by new unarchived folders of the space; failures are a bad name (create) or a missing segment (no create) |
| FsTree.FileSystem.ParsePath | src/main/java/mil/tron/commonapi/service/documentspace/DocumentSpaceFileSystemServiceImpl.java:95-165 | an unknown space is not-found; with create a path deeper than 20 is rejected and otherwise only invalid names fail; without create the table is unchanged and the result is the pure lookup; itemId is the last id or NIL |
| FsTree.AppendedFolderResolves | src/main/java/mil/tron/commonapi/service/documentspace/DocumentSpaceFileSystemServiceImpl.java:118-158 | after appending a folder under the last resolved id, the path plus its name resolves to the old ids plus the new id |
| FsTree.AncestorsOf | src/main/java/mil/tron/commonapi/service/documentspace/DocumentSpaceFileSystemServiceImpl.java:855-872 | the ancestors are rows of the table, root-first: the first has the root as parent, each next one is the child of the previous, and the last is the starting parent |
| FsTree.FileSystem.GetAncestorHierarchy | src/main/java/mil/tron/commonapi/service/documentspace/DocumentSpaceFileSystemServiceImpl.java:855-872 | the while loop returns the root-first ancestor chain, or not-found when an ancestor is missing |
| FsTree.Stamp | src/main/java/mil/tron/commonapi/service/documentspace/DocumentSpaceFileSystemServiceImpl.java:786-795 | stamping keeps every row except its lastModified field |
| FsTree.StampOnlyAdvances | src/main/java/mil/tron/commonapi/service/documentspace/DocumentSpaceFileSystemServiceImpl.java:786-795 | only ancestors whose date is null or older get the new date; no date ever moves backwards |
| FsTree.FileSystem.StampAll | src/main/java/mil/tron/commonapi/service/documentspace/DocumentSpaceFileSystemServiceImpl.java:786-796 | the new table is the old one stamped on the given ancestors, and every returned entry carries the new date |
| FsTree.FileSystem.Propagate | src/main/java/mil/tron/commonapi/service/documentspace/DocumentSpaceFileSystemServiceImpl.java:770-797 | the ancestors of the entry are stamped (none when the chain is broken), and nothing else changes |
| FsTree.Flagged | src/main/java/mil/tron/commonapi/service/documentspace/DocumentSpaceFileSystemServiceImpl.java:566-582 | flagging a subtree keeps ids, parents and spaces of every row |
| FsTree.SubtreeSplits | src/main/java/mil/tron/commonapi/service/documentspace/DocumentSpaceFileSystemServiceImpl.java:566-582 | the subtree of a row is the row together with the subtrees of its children, as the recursion visits it |
| FsTree.FileSystem.MarkSubtree | src/main/java/mil/tron/commonapi/service/documentspace/DocumentSpaceFileSystemServiceImpl.java:566-582 | the recursive flag update sets the archived flag on exactly the item and its descendants |
| FsTree.WalkArchivedSound | src/main/java/mil/tron/commonapi/service/documentspace/DocumentSpaceFileSystemServiceImpl.java:210-232 | every reported item is an archived row reached from the node through non-archived folders only, reported with its kind and name |
| FsTree.ArchivedListingSound | src/main/java/mil/tron/commonapi/service/documentspace/DocumentSpaceFileSystemServiceImpl.java:188-208 | the archived listing from the root reports only archived rows reached through open folders |
| FsTree.FileSystem.WalkTreeForArchivedItems | src/main/java/mil/tron/commonapi/service/documentspace/DocumentSpaceFileSystemServiceImpl.java:210-232 | the walk returns the listing of the recursive specification (archived children reported, open folders entered) |
| FsTree.FileSystem.GetArchivedItems | src/main/java/mil/tron/commonapi/service/documentspace/DocumentSpaceFileSystemServiceImpl.java:188-208 | an unknown space is not-found; otherwise the listing starts at the root with path "/" |
| FsTree.ArchiveTarget | src/main/java/mil/tron/commonapi/service/documentspace/DocumentSpaceFileSystemServiceImpl.java:500-521 | archiving checks in order: space and path, root or blank name, an archived item of that name, a missing item |
| FsTree.ArchiveTargetIsLiveItem | src/main/java/mil/tron/commonapi/service/documentspace/DocumentSpaceFileSystemServiceImpl.java:500-521 | an archive target is a non-archived item of that name whose parent is the folder the path names, and the name is neither "/" nor blank |
| FsTree.FileSystem.ArchiveElement | src/main/java/mil/tron/commonapi/service/documentspace/DocumentSpaceFileSystemServiceImpl.java:500-524 | on any refusal nothing changes; otherwise the item's subtree is archived and its ancestors are dated |
| FsTree.UnarchiveTarget | src/main/java/mil/tron/commonapi/service/documentspace/DocumentSpaceFileSystemServiceImpl.java:527-561 | unarchiving an item resolves its path, refuses a missing or archived parent, then finds the item |
| FsTree.UnarchiveNeedsLiveParent | src/main/java/mil/tron/commonapi/service/documentspace/DocumentSpaceFileSystemServiceImpl.java:545-553 | an unarchive target's parent is the root or an existing folder that is not archived |
| FsTree.Selected | src/main/java/mil/tron/commonapi/service/documentspace/DocumentSpaceFileSystemServiceImpl.java:533-541 | the items to restore are exactly the archived listing entries whose joined path is requested |
| FsTree.FileSystem.UnarchiveItem | src/main/java/mil/tron/commonapi/service/documentspace/DocumentSpaceFileSystemServiceImpl.java:543-560 | on refusal nothing changes; otherwise the item's subtree is unarchived and its ancestors are dated |
| FsTree.ClearedKeepsTree | src/main/java/mil/tron/commonapi/service/documentspace/DocumentSpaceFileSystemServiceImpl.java:566-582 | unarchiving keeps names and kinds and archives nothing new |
| FsTree.RestoredAfterItem | src/main/java/mil/tron/commonapi/service/documentspace/DocumentSpaceFileSystemServiceImpl.java:543-560 | after unarchiving an item nothing in its subtree is archived |
| FsTree.FileSystem.UnArchiveElements | src/main/java/mil/tron/commonapi/service/documentspace/DocumentSpaceFileSystemServiceImpl.java:527-561 | the tree keeps its shape, no flag is set, an unknown space is not-found, on success every selected item's subtree is unarchived, and every row brought back lies in the subtree of a selected item |
| FsTree.RenameTarget | src/main/java/mil/tron/commonapi/service/documentspace/DocumentSpaceFileSystemServiceImpl.java:657-677 | renaming resolves the path, needs the item row, and refuses a name already present at that level |
| FsTree.RenamedIsFoundByNewName | src/main/java/mil/tron/commonapi/service/documentspace/DocumentSpaceFileSystemServiceImpl.java:657-677 | after a rename the folder is the first item found under its new name at its level |
| FsTree.FileSystem.RenameFolder | src/main/java/mil/tron/commonapi/service/documentspace/DocumentSpaceFileSystemServiceImpl.java:657-677 | on refusal nothing changes; otherwise only the name changes and the ancestors are dated |
| FsTree.AddedFolderIsReachable | src/main/java/mil/tron/commonapi/service/documentspace/DocumentSpaceFileSystemServiceImpl.java:372-402 | a folder added under a path of depth below 20 is found at the path plus its name, with the new id last |
| FsTree.FileSystem.AddFolder | src/main/java/mil/tron/commonapi/service/documentspace/DocumentSpaceFileSystemServiceImpl.java:372-402 | a depth over 20 or any same-named item (archived or not) under the parent is refused with no change; otherwise exactly one folder row is appended and its ancestors are dated |
| FsTree.ClearedOnlyUnderItem | src/main/java/mil/tron/commonapi/service/documentspace/DocumentSpaceFileSystemServiceImpl.java:527-561 | unarchiving one more selected item brings back only rows of that item's subtree, so the rows brought back so far all lie under items handled so far |
| ScratchStorage.FindPrivilege | src/main/java/mil/tron/commonapi/service/scratch/ScratchStorageServiceImpl.java:481-489 | the loop over an app's user privileges answers true iff some pair has the e-mail (ignoring case) and one of the wanted privilege names |
| ScratchStorage.BaseKey | src/main/java/mil/tron/commonapi/service/scratch/ScratchStorageServiceImpl.java:473 | the base key is a prefix of the key that contains no '_' |
| ScratchStorage.AclKeySplit | src/main/java/mil/tron/commonapi/service/scratch/ScratchStorageServiceImpl.java:473 | the first piece of the Java split on "_" of an "_acl" key is its base key |
| ScratchStorage.AclRolesOrdered | src/main/java/mil/tron/commonapi/service/scratch/ScratchStorageServiceImpl.java:566-591 | a key ACL that grants ADMIN grants WRITE, and one that grants WRITE grants READ |
| ScratchStorage.AclRoleCases | src/main/java/mil/tron/commonapi/service/scratch/ScratchStorageServiceImpl.java:566-597 | an unknown desired role is an error, and implicitRead grants READ |
| ScratchStorage.AclOutcomeOrdered | src/main/java/mil/tron/commonapi/service/scratch/ScratchStorageServiceImpl.java:531-600 | the whole aclLookup, admin bypass included, is monotone: ADMIN implies WRITE implies READ |
| ScratchStorage.AppPrivilegesOrdered | src/main/java/mil/tron/commonapi/service/scratch/ScratchStorageServiceImpl.java:464-498 | outside ACL mode, whoever may delete may write, and whoever may write may read |
| ScratchStorage.AdminImpliesLowerPrivileges | src/main/java/mil/tron/commonapi/service/scratch/ScratchStorageServiceImpl.java:481-489 | a SCRATCH_ADMIN pair satisfies the write check and the read check |
| ScratchStorage.ScratchAdminMayDoAnything | src/main/java/mil/tron/commonapi/service/scratch/ScratchStorageServiceImpl.java:531-540 | a SCRATCH_ADMIN of the app may read, write and delete any key, in either mode |
| ScratchStorage.AclKeysNeedBaseAdmin | src/main/java/mil/tron/commonapi/service/scratch/ScratchStorageServiceImpl.java:464-478 | in ACL mode, reading and writing an "_acl" key both need ADMIN on its base key, and deleting any key needs ADMIN on that key |
| ScratchStorage.RoleInIgnoresCase | src/main/java/mil/tron/commonapi/service/scratch/ScratchStorageServiceImpl.java:566-591 | the corrected role test depends on the e-mail only up to case |
| ScratchStorage.MixedCaseEmailBreaksAclLookup | src/main/java/mil/tron/commonapi/service/scratch/ScratchStorageServiceImpl.java:567-588 | with "a" listed as ADMIN, the role test as written throws for "A", while the corrected test grants it |
| ScratchStorage.ScratchStore.SetKeyValuePair | src/main/java/mil/tron/commonapi/service/scratch/ScratchStorageServiceImpl.java:130-152 | an unknown app is not-found; otherwise an upsert: the pair's value is replaced, or exactly one entry is added |
| ScratchStorage.ScratchStore.DeleteKeyValuePair | src/main/java/mil/tron/commonapi/service/scratch/ScratchStorageServiceImpl.java:156-172 | in ACL mode "key_acl" is deleted first; a missing key is then not-found; otherwise the key is removed and its old value returned |
| ScratchStorage.ScratchStore.AddNewScratchAppName | src/main/java/mil/tron/commonapi/service/scratch/ScratchStorageServiceImpl.java:228-240 | the app is refused iff its id exists or its trimmed name exists ignoring case; otherwise it is stored under its id |
| ScratchStorage.ScratchStore.AddNewScratchUser | src/main/java/mil/tron/commonapi/service/scratch/ScratchStorageServiceImpl.java:383-396 | the user is refused iff the id exists or the e-mail exists ignoring case; otherwise it is stored |
| ScratchStorage.ScratchStore.DeleteScratchUser | src/main/java/mil/tron/commonapi/service/scratch/ScratchStorageServiceImpl.java:420-438 | an unknown user is not-found; otherwise the user is removed, and so are its privilege pairs in every app |
| ScratchStorage.ReplacedPairIsUnique | src/main/java/mil/tron/commonapi/service/scratch/ScratchStorageServiceImpl.java:296-303 | after the update, the only pair with the request's id and e-mail is the new one |
| ScratchStorage.ScratchStore.DropReplacedPrivs | src/main/java/mil/tron/commonapi/service/scratch/ScratchStorageServiceImpl.java:290-304 | a pair with the same privilege and e-mail (ignoring case) is a conflict; otherwise every pair with the same id and e-mail is dropped and nothing else |
| ScratchStorage.ScratchStore.AddUserPrivToApp | src/main/java/mil/tron/commonapi/service/scratch/ScratchStorageServiceImpl.java:285-310 | an unknown app is not-found, a conflicting pair is refused, and otherwise the replaced pairs are dropped and exactly one new pair for the user is added |
| ScratchStorage.ScratchStore.UserHasAdminWithAppId | src/main/java/mil/tron/commonapi/service/scratch/ScratchStorageServiceImpl.java:680-692 | an unknown app is not-found; otherwise true iff some pair gives the e-mail SCRATCH_ADMIN |
| ScratchStorage.ScratchStore.AclLookup | src/main/java/mil/tron/commonapi/service/scratch/ScratchStorageServiceImpl.java:531-600 | the lookup as a function of the stored state, with the corrected role read of the Findings table: not ACL mode throws, a SCRATCH_ADMIN passes, a missing or malformed ACL throws, then the role table |
| ScratchStorage.ScratchStore.UserCanWriteToAppId | src/main/java/mil/tron/commonapi/service/scratch/ScratchStorageServiceImpl.java:464-491 | ACL mode asks WRITE (ADMIN on the base key for "_acl" keys) with the corrected role read of the Findings table; otherwise WRITE or ADMIN privilege |
| ScratchStorage.ScratchStore.UserCanReadFromAppId | src/main/java/mil/tron/commonapi/service/scratch/ScratchStorageServiceImpl.java:640-671 | ACL mode asks READ (ADMIN on the base key for "_acl" keys) with the corrected role read of the Findings table; otherwise implicit read or any of READ/WRITE/ADMIN |
| ScratchStorage.ScratchStore.UserCanDeleteKeyForAppId | src/main/java/mil/tron/commonapi/service/scratch/ScratchStorageServiceImpl.java:610-628 | ACL mode asks ADMIN, with the corrected role read of the Findings table; otherwise SCRATCH_ADMIN |
| JsonDb.ValidateSchema | src/main/java/mil/tron/commonapi/service/scratch/JsonDbServiceImpl.java:63-76 | the scan succeeds iff every field's value is text and the field "id" has exactly the type "uuid"; otherwise an invalid-field-value error |
| JsonDb.MarkersAndDefaults | src/main/java/mil/tron/commonapi/service/scratch/JsonDbServiceImpl.java:86-109 | "!" removes the default even from a type word that has one, "*" keeps it, and a tag with no known type word has none |
| JsonDb.StringDefault | src/main/java/mil/tron/commonapi/service/scratch/JsonDbServiceImpl.java:94-96 | a string field defaults to "", which passes the string check |
| JsonDb.EmailDefault | src/main/java/mil/tron/commonapi/service/scratch/JsonDbServiceImpl.java:97-99 | an email field defaults to "", which passes the email check |
| JsonDb.NumberDefault | src/main/java/mil/tron/commonapi/service/scratch/JsonDbServiceImpl.java:100-102 | a number field defaults to 0, which passes the number check |
| JsonDb.BooleanDefault | src/main/java/mil/tron/commonapi/service/scratch/JsonDbServiceImpl.java:103-105 | a boolean field defaults to false, which passes the boolean check |
| JsonDb.UuidDefault | src/main/java/mil/tron/commonapi/service/scratch/JsonDbServiceImpl.java:106-108 | a uuid field defaults to the fresh UUID, which passes the uuid check |
| JsonDb.NonTextIsNoUuid | src/main/java/mil/tron/commonapi/service/scratch/JsonDbServiceImpl.java:151-156 | the text of a non-string JSON value never has the UUID shape, so the uuid check rejects every non-string |
| JsonDb.FieldKindChecks | src/main/java/mil/tron/commonapi/service/scratch/JsonDbServiceImpl.java:130-160 | string, number and boolean fields demand that JSON kind and uuid fields a string; an email or uuid field accepts any JSON string |
| JsonDb.MatchingRows | src/main/java/mil/tron/commonapi/service/scratch/JsonDbServiceImpl.java:164-165 | for a text without a quote, the JsonPath filter selects exactly the rows whose field has that text |
| JsonDb.UniqueFieldCheck | src/main/java/mil/tron/commonapi/service/scratch/JsonDbServiceImpl.java:163-169 | uniqueness is never checked on update; on insert a unique field passes only when its text has no quote and it is blank or no row has the same text |
| JsonDb.QuotedUniqueValueRefused | src/main/java/mil/tron/commonapi/service/scratch/JsonDbServiceImpl.java:163-165 | on insert, a unique string field whose text holds a quote ("O'Brien") is refused as an invalid JsonPath query, since the quote breaks the filter the check builds |
| JsonDb.RecordHasSchemaFields | src/main/java/mil/tron/commonapi/service/scratch/JsonDbServiceImpl.java:212-229 | the record is built iff every schema field yields a value; it has exactly the schema's fields, and a failure is some field's failure |
| JsonDb.FieldValueCases | src/main/java/mil/tron/commonapi/service/scratch/JsonDbServiceImpl.java:214-227 | a present field is validated and kept as given; a missing field takes its type's default |
| JsonDb.RecordStopsAtFailure | src/main/java/mil/tron/commonapi/service/scratch/JsonDbServiceImpl.java:212-229 | the first failing field ends the build |
| JsonDb.JsonDbService.ValidateEntityValue | src/main/java/mil/tron/commonapi/service/scratch/JsonDbServiceImpl.java:184-232 | the method returns the record the specification builds (schema present, parsed and valid, input parsed) |
| JsonDb.EntityValueSucceeds | src/main/java/mil/tron/commonapi/service/scratch/JsonDbServiceImpl.java:184-232 | validation succeeds iff the schema exists, parses and is valid, the input parses, and every schema field yields a value |
| JsonDb.EntityValueShape | src/main/java/mil/tron/commonapi/service/scratch/JsonDbServiceImpl.java:212-232 | a validated record has exactly the schema's fields; input fields outside the schema are dropped |
| JsonDb.EntityValueKeepsId | src/main/java/mil/tron/commonapi/service/scratch/JsonDbServiceImpl.java:221-227 | the record keeps the input's "id" |
| JsonDb.AddOutcome | src/main/java/mil/tron/commonapi/service/scratch/JsonDbServiceImpl.java:245-277 | adding fails with not-found exactly when the table is missing; the other failures are invalid query (a quote in a unique value included), uniqueness or invalid field value |
| JsonDb.AddedRecordIsUnique | src/main/java/mil/tron/commonapi/service/scratch/JsonDbServiceImpl.java:245-277 | the new table is the old array with the record appended, and each non-blank unique field of the record matches no existing row |
| JsonDb.JsonDbService.AddElement | src/main/java/mil/tron/commonapi/service/scratch/JsonDbServiceImpl.java:245-277 | on failure the store is unchanged; otherwise the table holds the serialized new array and the record is returned |
| JsonDb.RemoveOutcome | src/main/java/mil/tron/commonapi/service/scratch/JsonDbServiceImpl.java:289-318 | removal succeeds only for an existing, parsable table whose path selects something other than nothing or an empty array |
| JsonDb.JsonDbService.RemoveElement | src/main/java/mil/tron/commonapi/service/scratch/JsonDbServiceImpl.java:289-318 | on failure the store is unchanged; otherwise the table holds the array with the selection deleted |
| JsonDb.UpdatedRecordKeepsId | src/main/java/mil/tron/commonapi/service/scratch/JsonDbServiceImpl.java:346-352 | an updated record has "id" equal to the entity id |
| JsonDb.UpdateSkipsUniqueness | src/main/java/mil/tron/commonapi/service/scratch/JsonDbServiceImpl.java:364-365 | an update never fails the uniqueness check |
| JsonDb.JsonDbService.UpdateElement | src/main/java/mil/tron/commonapi/service/scratch/JsonDbServiceImpl.java:333-378 | on failure the store is unchanged; otherwise the validated record is set at the path and returned |
| Organizations.AncestryChainIsAncestor | src/main/java/mil/tron/commonapi/service/OrganizationServiceImpl.java:903-908 | the ancestry walk answers yes exactly when `id` is the parent, grandparent, … of the starting organisation within the depth bound |
| Organizations.HarvestIsReachable | src/main/java/mil/tron/commonapi/service/OrganizationServiceImpl.java:947-958 | an id is harvested iff a subordinate path of bounded length leads to it from one of the starting ids |
| Organizations.HarvestedIsDescendant | src/main/java/mil/tron/commonapi/service/OrganizationServiceImpl.java:947-958 | everything harvested from an organisation's subordinates lies strictly below it in the hierarchy |
| Organizations.DescendantIsHarvested | src/main/java/mil/tron/commonapi/service/OrganizationServiceImpl.java:947-958 | in an acyclic hierarchy, harvesting with depth = number of organisations finds every descendant |
| Organizations.CandidateIsDescendantIffReaches | src/main/java/mil/tron/commonapi/service/OrganizationServiceImpl.java:920-923 | the candidate-is-descendant test holds exactly when the candidate lies below the organisation |
| Organizations.ParentOutcomeAsWritten | src/main/java/mil/tron/commonapi/service/OrganizationServiceImpl.java:983-1022 | the parent update as written fails only with an invalid-update error |
| Organizations.SelfParentAsWritten | src/main/java/mil/tron/commonapi/service/OrganizationServiceImpl.java:983-1022 | as written, making an organisation its own parent is accepted and leaves a cycle in the hierarchy |
| Organizations.ParentOutcome | src/main/java/mil/tron/commonapi/service/OrganizationServiceImpl.java:983-1022 | the parent update, also refusing the organisation itself: failures are invalid-update errors and the set of organisations is unchanged |
| Organizations.ParentOutcomeRefusesDescendants | src/main/java/mil/tron/commonapi/service/OrganizationServiceImpl.java:1003-1021 | a new parent is refused iff it is the organisation itself, unknown, or one of its descendants |
| Organizations.ParentOutcomeKeepsHierarchy | src/main/java/mil/tron/commonapi/service/OrganizationServiceImpl.java:983-1022 | an accepted parent update keeps the hierarchy acyclic and two-way linked, sets the parent, and lists the organisation as a subordinate of the new parent only |
| Organizations.FamilyTreeOutcome | src/main/java/mil/tron/commonapi/service/OrganizationServiceImpl.java:146-160 | the family-tree check, with the corrected self-parent check of the Findings table, fails only with an invalid-update error and keeps the set of organisations |
| Organizations.AncestryIsDescent | src/main/java/mil/tron/commonapi/service/OrganizationServiceImpl.java:903-908 | in a linked hierarchy, being in the ancestry chain of an organisation means lying above it |
| Organizations.ListedElsewhere | src/main/java/mil/tron/commonapi/service/OrganizationServiceImpl.java:155-157 | some other organisation lists the subordinate iff its parent is set and is not this organisation |
| Organizations.FamilyTreeAccepts | src/main/java/mil/tron/commonapi/service/OrganizationServiceImpl.java:146-160 | with the corrected self-parent check of the Findings table, a subordinate is accepted iff it is not the organisation, has no parent or already this one, and is not above it |
| Organizations.FamilyTreeResult | src/main/java/mil/tron/commonapi/service/OrganizationServiceImpl.java:146-160 | after a check accepted with the corrected self-parent check, the subordinate's parent is the organisation, it is listed under it, other parents are unchanged and the hierarchy stays valid |
| Organizations.AddSubordinates | src/main/java/mil/tron/commonapi/service/OrganizationServiceImpl.java:189-195 | adding subordinates one by one, each through the corrected family-tree check, keeps the set of organisations |
| Organizations.AddSubordinatesKeepsHierarchy | src/main/java/mil/tron/commonapi/service/OrganizationServiceImpl.java:189-195 | with the corrected self-parent check, adding subordinates keeps the hierarchy acyclic and linked |
| Organizations.AddSubordinatesParents | src/main/java/mil/tron/commonapi/service/OrganizationServiceImpl.java:189-195 | after adding, every added id has the organisation as parent and every other parent is unchanged |
| Organizations.RemoveSubordinates | src/main/java/mil/tron/commonapi/service/OrganizationServiceImpl.java:224-233 | removal fails with an invalid-update error unless every id is stored, and keeps the set of organisations |
| Organizations.RemoveSubordinatesKeepsHierarchy | src/main/java/mil/tron/commonapi/service/OrganizationServiceImpl.java:224-233 | removing subordinates keeps the hierarchy acyclic and linked |
| Organizations.RemoveSubordinatesParents | src/main/java/mil/tron/commonapi/service/OrganizationServiceImpl.java:224-233 | after removal every removed id has no parent and every other parent is unchanged |
| Organizations.RemoveSubordinatesDetaches | src/main/java/mil/tron/commonapi/service/OrganizationServiceImpl.java:224-233 | no organisation lists a removed id as a subordinate afterwards |
| Organizations.CheckMetadataProperties | src/main/java/mil/tron/commonapi/service/OrganizationServiceImpl.java:1126-1142 | metadata is refused, with an invalid-update error, iff some key is not a property of the organisation's type (plain organisation when no type is set) |
| Organizations.MetadataUpdate | src/main/java/mil/tron/commonapi/service/OrganizationServiceImpl.java:601-646 | after an update a key given a value holds it, a key given null is gone if it was stored, and a key not mentioned keeps its stored value |
| Organizations.NullMetadataClears | src/main/java/mil/tron/commonapi/service/OrganizationServiceImpl.java:603-605 | null metadata deletes every stored entry |
| Organizations.ChangesAreDisjoint | src/main/java/mil/tron/commonapi/service/OrganizationServiceImpl.java:601-632 | no key is both deleted and saved, saved values are the given ones, and every given key is deleted or saved |
| Organizations.SavedPropertiesAreAllowed | src/main/java/mil/tron/commonapi/service/OrganizationServiceImpl.java:594-646 | once the property check passes, every saved key is a property of the organisation's type |
| Organizations.FindByTypeAndServiceFails | src/main/java/mil/tron/commonapi/service/OrganizationServiceImpl.java:455-465 | the search fails exactly when a name-matching organisation has a missing type or branch that a given filter compares with |
| Organizations.FindByTypeAndServiceKeeps | src/main/java/mil/tron/commonapi/service/OrganizationServiceImpl.java:455-465 | a successful search keeps exactly the organisations whose lower-cased name contains the query and whose type and branch match the given filters |
| Organizations.ReparentEffect | src/main/java/mil/tron/commonapi/service/OrganizationServiceImpl.java:1003-1019 | reparenting sets the parent, lists the organisation under the new parent only, and changes no other field or link |
| Organizations.ReparentKeepsHierarchy | src/main/java/mil/tron/commonapi/service/OrganizationServiceImpl.java:1003-1019 | moving an organisation under a parent that is neither itself nor below it keeps the hierarchy acyclic and linked |
| Organizations.ComputeChanges | src/main/java/mil/tron/commonapi/service/OrganizationServiceImpl.java:601-632 | the loop over the given metadata yields exactly the delete and save sets of the specification |
| Organizations.OrgStore.HarvestOrgSubordinateUnits | src/main/java/mil/tron/commonapi/service/OrganizationServiceImpl.java:947-958 | returns exactly the ids reachable within the depth |
| Organizations.OrgStore.HarvestOrgMembers | src/main/java/mil/tron/commonapi/service/OrganizationServiceImpl.java:961-975 | keeps the accumulator as a prefix and appends, as a multiset, the leaders and members of every harvested organisation |
| Organizations.OrgStore.HarvestOneOrg | src/main/java/mil/tron/commonapi/service/OrganizationServiceImpl.java:965-971 | one organisation's leader, members and the members below it |
| Organizations.OrgStore.FlattenOrg | src/main/java/mil/tron/commonapi/service/OrganizationServiceImpl.java:925-944 | the flattened organisation keeps every other field, lists exactly its descendants as subordinates, and its members start with its own followed by those of every descendant |
| Organizations.OrgStore.ParentOrgCandidateIsDescendent | src/main/java/mil/tron/commonapi/service/OrganizationServiceImpl.java:920-923 | true iff the candidate lies below the organisation |
| Organizations.OrgStore.DetachFromParents | src/main/java/mil/tron/commonapi/service/OrganizationServiceImpl.java:991-995 | no organisation lists this one as a subordinate afterwards; nothing else changes |
| Organizations.OrgStore.ClearParent | src/main/java/mil/tron/commonapi/service/OrganizationServiceImpl.java:986-997 | the organisation has no parent and no organisation lists it |
| Organizations.OrgStore.MoveUnder | src/main/java/mil/tron/commonapi/service/OrganizationServiceImpl.java:1007-1019 | the organisation is listed under the new parent only and has it as parent |
| Organizations.OrgStore.SetOrgParentConditionally | src/main/java/mil/tron/commonapi/service/OrganizationServiceImpl.java:983-1022 | with the corrected self-parent check of the Findings table, applies the parent update or, on refusal, returns the error and changes nothing; the hierarchy stays valid |
| Organizations.OrgStore.PerformFamilyTreeChecks | src/main/java/mil/tron/commonapi/service/OrganizationServiceImpl.java:146-160 | applies the family-tree check, with the corrected self-parent check, or returns its error with the store unchanged |
| Organizations.OrgStore.AddOrg | src/main/java/mil/tron/commonapi/service/OrganizationServiceImpl.java:185-208 | an unknown organisation is not found, an unknown subordinate is an invalid update, otherwise each subordinate goes through the corrected family-tree check; the hierarchy stays valid |
| Organizations.OrgStore.RemoveOrg | src/main/java/mil/tron/commonapi/service/OrganizationServiceImpl.java:220-247 | an unknown organisation is not found, an unknown subordinate is an invalid update, otherwise each is detached and loses its parent; the hierarchy stays valid |
| Organizations.OrgStore.AppendAndUpdateMetadata | src/main/java/mil/tron/commonapi/service/OrganizationServiceImpl.java:594-646 | refuses unknown properties; otherwise returns the entries to save, and writes deletes and saves to the store only when the user may edit |
| DocumentSpacePrivileges.TypeNameInjective | src/main/java/mil/tron/commonapi/service/documentspace/DocumentSpacePrivilegeServiceImpl.java:91-94 | distinct privilege types have distinct names |
| DocumentSpacePrivileges.PrivilegeNamesAreDistinct | src/main/java/mil/tron/commonapi/service/documentspace/DocumentSpacePrivilegeServiceImpl.java:91-94 | two privilege names built from equally long space ids are equal only for the same space and type |
| DocumentSpacePrivileges.NewPrivilege | src/main/java/mil/tron/commonapi/service/documentspace/DocumentSpacePrivilegeServiceImpl.java:193-198 | a fresh privilege carries its type and has no holders |
| DocumentSpacePrivileges.ExpandCovers | src/main/java/mil/tron/commonapi/service/documentspace/DocumentSpacePrivilegeServiceImpl.java:106-133 | the switch fall-through grants a type iff some requested type implies it (membership gives write and read, write gives read, everything gives read) |
| DocumentSpacePrivileges.Removed | src/main/java/mil/tron/commonapi/service/documentspace/DocumentSpacePrivilegeServiceImpl.java:155-170 | removing a holder takes it out of every privilege of the space and leaves every other holder and field as it was |
| DocumentSpacePrivileges.GrantSucceeds | src/main/java/mil/tron/commonapi/service/documentspace/DocumentSpacePrivilegeServiceImpl.java:138-151 | granting a list of types succeeds iff the space has a privilege of every type in it |
| DocumentSpacePrivileges.GrantEffect | src/main/java/mil/tron/commonapi/service/documentspace/DocumentSpacePrivilegeServiceImpl.java:138-151 | after a successful grant a privilege's holders are the old ones plus the holder exactly for the granted types |
| DocumentSpacePrivileges.GrantOutcome | src/main/java/mil/tron/commonapi/service/documentspace/DocumentSpacePrivilegeServiceImpl.java:98-134 | a failed grant is an illegal-argument error |
| DocumentSpacePrivileges.GrantOutcomeMeaning | src/main/java/mil/tron/commonapi/service/documentspace/DocumentSpacePrivilegeServiceImpl.java:98-134 | the grant fails iff some implied type has no privilege in the space; otherwise the holder holds exactly the implied types, replacing what it held, and other holders are untouched |
| DocumentSpacePrivileges.AssignedMeansTyped | src/main/java/mil/tron/commonapi/service/documentspace/DocumentSpacePrivilegeServiceImpl.java:296-325 | an app client is listed for a space iff it holds at least one of its privileges |
| DocumentSpacePrivileges.UnassignedMeaning | src/main/java/mil/tron/commonapi/service/documentspace/DocumentSpacePrivilegeServiceImpl.java:329-344 | an app client is offered for assignment iff it exists and holds no privilege of the space |
| DocumentSpacePrivileges.GroupClients | src/main/java/mil/tron/commonapi/service/documentspace/DocumentSpacePrivilegeServiceImpl.java:297-325 | groups the privilege holders by app client: exactly the clients holding something, each with exactly the types it holds |
| DocumentSpacePrivileges.ListEntries | src/main/java/mil/tron/commonapi/service/documentspace/DocumentSpacePrivilegeServiceImpl.java:325 | one response entry per grouped client, without repeats, each with its grouped types |
| DocumentSpacePrivileges.GrantAppend | src/main/java/mil/tron/commonapi/service/documentspace/DocumentSpacePrivilegeServiceImpl.java:107-133 | granting two lists in turn is granting their concatenation, stopping at the first failure |
| DocumentSpacePrivileges.AddSingle | src/main/java/mil/tron/commonapi/service/documentspace/DocumentSpacePrivilegeServiceImpl.java:138-151 | adding one privilege agrees with the grant specification |
| DocumentSpacePrivileges.GrantImplied | src/main/java/mil/tron/commonapi/service/documentspace/DocumentSpacePrivilegeServiceImpl.java:107-133 | one requested type grants the types it implies, in switch order |
| DocumentSpacePrivileges.GrantRequested | src/main/java/mil/tron/commonapi/service/documentspace/DocumentSpacePrivilegeServiceImpl.java:107-133 | the loop over requested types agrees with granting the expanded list |
| DocumentSpacePrivileges.PrivilegeStore.CreateAndSavePrivilegesForNewSpace | src/main/java/mil/tron/commonapi/service/documentspace/DocumentSpacePrivilegeServiceImpl.java:72-89 | the new space gets one fresh privilege of every type; other spaces are unchanged |
| DocumentSpacePrivileges.PrivilegeStore.RemoveFromSpace | src/main/java/mil/tron/commonapi/service/documentspace/DocumentSpacePrivilegeServiceImpl.java:155-170 | the holder is removed from every privilege of the space |
| DocumentSpacePrivileges.PrivilegeStore.RemovePrivilegesFromDashboardUser | src/main/java/mil/tron/commonapi/service/documentspace/DocumentSpacePrivilegeServiceImpl.java:155-170 | the dashboard user holds no privilege of the space afterwards; nothing else changes |
| DocumentSpacePrivileges.PrivilegeStore.RemovePrivilegesFromAppClientUser | src/main/java/mil/tron/commonapi/service/documentspace/DocumentSpacePrivilegeServiceImpl.java:273-294 | an unknown app client is not found and changes nothing; otherwise it holds no privilege of the space afterwards |
| DocumentSpacePrivileges.PrivilegeStore.GrantInSpace | src/main/java/mil/tron/commonapi/service/documentspace/DocumentSpacePrivilegeServiceImpl.java:98-134 | removes the holder, then grants the expanded request; the result reports whether every implied privilege existed |
| DocumentSpacePrivileges.PrivilegeStore.AddPrivilegesToDashboardUser | src/main/java/mil/tron/commonapi/service/documentspace/DocumentSpacePrivilegeServiceImpl.java:97-134 | on success the space's privileges are the grant outcome; on failure an illegal-argument error; other spaces unchanged |
| DocumentSpacePrivileges.PrivilegeStore.AddPrivilegesToAppClientUser | src/main/java/mil/tron/commonapi/service/documentspace/DocumentSpacePrivilegeServiceImpl.java:212-254 | an unknown app client is not found and changes nothing; otherwise as for a dashboard user |
| DocumentSpacePrivileges.PrivilegeStore.DeleteAllPrivilegesBelongingToDocumentSpace | src/main/java/mil/tron/commonapi/service/documentspace/DocumentSpacePrivilegeServiceImpl.java:52-69 | the space is left with no privileges |
| DocumentSpacePrivileges.PrivilegeStore.GetAppClientsForDocumentSpace | src/main/java/mil/tron/commonapi/service/documentspace/DocumentSpacePrivilegeServiceImpl.java:296-326 | lists each app client holding a privilege of the space once, with exactly the types it holds |
| DocumentSpacePrivileges.PrivilegeStore.GetAppClientsForAssignmentToDocumentSpace | src/main/java/mil/tron/commonapi/service/documentspace/DocumentSpacePrivilegeServiceImpl.java:329-344 | the known app clients, in order, that hold no privilege of the space |
| DocumentSpaces.ParseBooleanIgnoresCase | src/main/java/mil/tron/commonapi/service/documentspace/DocumentSpaceServiceImpl.java:568-570 | values that agree up to case parse to the same boolean ("true" and "yes" ignore case, "1" is the only spelling of 1) |
| DocumentSpaces.PathPrefix | src/main/java/mil/tron/commonapi/service/documentspace/DocumentSpaceServiceImpl.java:339-341 | a space's key prefix is its id followed by one slash |
| DocumentSpaces.RemoveAllAbsent | src/main/java/mil/tron/commonapi/service/documentspace/DocumentSpaceServiceImpl.java:307 | removing every occurrence of a text that does not occur changes nothing |
| DocumentSpaces.KeyInSpaceStripsPrefix | src/main/java/mil/tron/commonapi/service/documentspace/DocumentSpaceServiceImpl.java:306-311 | a key made of the space prefix and a name not containing the prefix is listed as that name |
| DocumentSpaces.TrimRows | src/main/java/mil/tron/commonapi/service/documentspace/DocumentSpaceServiceImpl.java:518-559 | every cell the import reads is trimmed, row by row |
| DocumentSpaces.ShortHeaderThrows | src/main/java/mil/tron/commonapi/service/documentspace/DocumentSpaceServiceImpl.java:518-529 | as written, a header of two cells that starts correctly makes the import throw instead of reporting a bad header |
| DocumentSpaces.HeaderError | src/main/java/mil/tron/commonapi/service/documentspace/DocumentSpaceServiceImpl.java:518-529 | a reported header error names a column after the ones already checked |
| DocumentSpaces.HeaderErrorMeaning | src/main/java/mil/tron/commonapi/service/documentspace/DocumentSpaceServiceImpl.java:518-529 | the header passes iff its first four cells are email, read, write, membership (ignoring case); otherwise the first column that is missing or different is reported |
| DocumentSpaces.HeaderErrorAgrees | src/main/java/mil/tron/commonapi/service/documentspace/DocumentSpaceServiceImpl.java:518-529 | on a header of four cells or more the corrected check agrees with the code as written |
| DocumentSpaces.SelectedMeaning | src/main/java/mil/tron/commonapi/service/documentspace/DocumentSpaceServiceImpl.java:551-559 | the chosen privileges are exactly those whose flag is set, without repeats |
| DocumentSpaces.RowPrivilegesMeaning | src/main/java/mil/tron/commonapi/service/documentspace/DocumentSpaceServiceImpl.java:551-559 | a row asks for a privilege iff its column exists and parses as true; no privilege is listed twice |
| DocumentSpaces.ProcessCsvRow | src/main/java/mil/tron/commonapi/service/documentspace/DocumentSpaceServiceImpl.java:531-562 | a row fails iff it has fewer than two cells (row-length error) or an empty email (missing-email error), numbered from one; otherwise the member has that email and the asked privileges |
| DocumentSpaces.CheckRow | src/main/java/mil/tron/commonapi/service/documentspace/DocumentSpaceServiceImpl.java:493-502 | an accepted row's email is non-empty, not yet in the space and not already taken from the file |
| DocumentSpaces.CsvStepAppends | src/main/java/mil/tron/commonapi/service/documentspace/DocumentSpaceServiceImpl.java:491-503 | one row only appends to the errors and members and keeps the members new and distinct |
| DocumentSpaces.CsvMembersAreNew | src/main/java/mil/tron/commonapi/service/documentspace/DocumentSpaceServiceImpl.java:489-504 | the members read from a file are new to the space and have distinct emails |
| DocumentSpaces.CsvGrows | src/main/java/mil/tron/commonapi/service/documentspace/DocumentSpaceServiceImpl.java:489-504 | reading more rows only extends the errors and the members |
| DocumentSpaces.CsvShortRowReported | src/main/java/mil/tron/commonapi/service/documentspace/DocumentSpaceServiceImpl.java:531-536 | a one-cell row after the header is reported as too short, with its row number |
| DocumentSpaces.CsvCleanFileAddsEveryRow | src/main/java/mil/tron/commonapi/service/documentspace/DocumentSpaceServiceImpl.java:489-504 | in a file with no errors every non-empty row after the header yields a member that is added |
| DocumentSpaces.AnyMatch | src/main/java/mil/tron/commonapi/service/documentspace/DocumentSpaceServiceImpl.java:498 | true iff an already accepted member has the email |
| DocumentSpaces.ReadRow | src/main/java/mil/tron/commonapi/service/documentspace/DocumentSpaceServiceImpl.java:491-503 | one pass of the row loop agrees with the row step of the specification, whose header check is the corrected one of the Findings table (a short header is reported, not thrown) |
| DocumentSpaces.ReadCsv | src/main/java/mil/tron/commonapi/service/documentspace/DocumentSpaceServiceImpl.java:489-504 | the row loop yields exactly the errors and members the specification reads, with the corrected header check |
| DocumentSpaces.NewSpacePrivileges | src/main/java/mil/tron/commonapi/service/documentspace/DocumentSpaceServiceImpl.java:115 | a new space has a fresh privilege of each of read, write and membership |
| DocumentSpaces.Leave | src/main/java/mil/tron/commonapi/service/documentspace/DocumentSpaceServiceImpl.java:402-417 | a user whose only privilege left is dashboard user is deleted; otherwise the document-space privilege is dropped when the user is in no space and nothing else changes |
| DocumentSpaces.LeavingRevokesAccess | src/main/java/mil/tron/commonapi/service/documentspace/DocumentSpaceServiceImpl.java:390 | after leaving, the user holds no privilege of the space |
| DocumentSpaces.SpaceStore.CreateSpace | src/main/java/mil/tron/commonapi/service/documentspace/DocumentSpaceServiceImpl.java:107-118 | a taken name is refused with already-exists and changes nothing; otherwise the space is stored under its id with fresh privileges and no members |
| DocumentSpaces.SpaceStore.RemoveDashboardUserFromDocumentSpace | src/main/java/mil/tron/commonapi/service/documentspace/DocumentSpaceServiceImpl.java:387-419 | an unknown space or user is not found; otherwise the user loses the space's privileges and membership, and global privileges are dropped or the user deleted as Leave says |
| DocumentSpaces.SpaceStore.GetDashboardUserPrivilegesForDocumentSpace | src/main/java/mil/tron/commonapi/service/documentspace/DocumentSpaceServiceImpl.java:455-477 | an unknown space or user is not found; no privilege is not authorised; otherwise exactly the types the user holds in the space |
| DocumentSpaces.EnrollUsers | src/main/java/mil/tron/commonapi/service/documentspace/DocumentSpacePrivilegeServiceImpl.java:174-186 | in a space with all three privilege objects, adding a member cannot fail; the member's email joins the users, no other user changes, and the user gains DOCUMENT_SPACE_USER when that privilege exists |
| DocumentSpaces.EnrollMeaning | src/main/java/mil/tron/commonapi/service/documentspace/DocumentSpacePrivilegeServiceImpl.java:98-186 | the member's user keeps its stored id (a new one takes the given id and holds DASHBOARD_USER) and its global privileges, and afterwards holds exactly the space's types its request covers (membership implies write implies read) while no other holder changes |
| DocumentSpaces.EnrollAllMeaning | src/main/java/mil/tron/commonapi/service/documentspace/DocumentSpaceServiceImpl.java:376-385 | adding all collected members succeeds; the users are then the old ones plus the listed emails, unlisted users are unchanged, and every listed user holds DOCUMENT_SPACE_USER when that privilege exists |
| DocumentSpaces.EnrollEach | src/main/java/mil/tron/commonapi/service/documentspace/DocumentSpaceServiceImpl.java:378-379 | the member loop yields exactly the enrolment the specification computes, and the space keeps all three privilege objects |
| DocumentSpaces.SpaceStore.EnrollMembers | src/main/java/mil/tron/commonapi/service/documentspace/DocumentSpaceServiceImpl.java:376-385 | the space's privileges and the users become exactly the enrolment of the members; names and members are untouched |
| DocumentSpaces.SpaceStore.AddDashboardUserToDocumentSpace | src/main/java/mil/tron/commonapi/service/documentspace/DocumentSpaceServiceImpl.java:365-374 | an unknown space is not found and changes nothing; otherwise the email's user is enrolled with the requested privileges and becomes a member |
| DocumentSpaces.SpaceStore.BatchAddDashboardUserToDocumentSpace | src/main/java/mil/tron/commonapi/service/documentspace/DocumentSpaceServiceImpl.java:480-515 | an unknown space is not found; otherwise returns the import's errors, and only when there are none enrols every collected member (user found or created, privileges granted, DOCUMENT_SPACE_USER added) and makes it a member |
| UserCollections.Find | src/main/java/mil/tron/commonapi/service/documentspace/DocumentSpaceUserCollectionServiceImpl.java:111 | the lookup by name, space and user finds a collection with exactly those owners, and finds none only when none exists |
| UserCollections.FindIsUnique | src/main/java/mil/tron/commonapi/service/documentspace/DocumentSpaceUserCollectionServiceImpl.java:66-75 | while no two collections share name, space and user, the lookup finds the one that has them |
| UserCollections.Created | src/main/java/mil/tron/commonapi/service/documentspace/DocumentSpaceUserCollectionServiceImpl.java:66-75 | creation adds one empty collection under the new id and keeps every other one |
| UserCollections.CreatedKeepsUnique | src/main/java/mil/tron/commonapi/service/documentspace/DocumentSpaceUserCollectionServiceImpl.java:66-75 | creating only when no such collection exists keeps name, space and user unique |
| UserCollections.WithEntry | src/main/java/mil/tron/commonapi/service/documentspace/DocumentSpaceUserCollectionServiceImpl.java:129-132 | adding an entry puts it in that collection's entries and changes nothing else |
| UserCollections.WithoutEntry | src/main/java/mil/tron/commonapi/service/documentspace/DocumentSpaceUserCollectionServiceImpl.java:192-195 | removing an entry takes it out of that collection's entries and changes nothing else |
| UserCollections.AddTwiceIsAddOnce | src/main/java/mil/tron/commonapi/service/documentspace/DocumentSpaceUserCollectionServiceImpl.java:129-132 | adding the same entry twice is adding it once |
| UserCollections.RemoveUndoesAdd | src/main/java/mil/tron/commonapi/service/documentspace/DocumentSpaceUserCollectionServiceImpl.java:129-132 | removing an entry that was not there before undoes adding it |
| UserCollections.EntriesKeepUnique | src/main/java/mil/tron/commonapi/service/documentspace/DocumentSpaceUserCollectionServiceImpl.java:123-200 | adding or removing entries keeps name, space and user unique |
| UserCollections.FavoriteAddedMeaning | src/main/java/mil/tron/commonapi/service/documentspace/DocumentSpaceUserCollectionServiceImpl.java:105-120 | adding to favourites fails iff the entry is unknown; otherwise the user's favourites in the space exist afterwards and hold the entry, and other collections are unchanged |
| UserCollections.CollectionStore.FindCollection | src/main/java/mil/tron/commonapi/service/documentspace/DocumentSpaceUserCollectionServiceImpl.java:111 | the search over the stored collections agrees with the lookup |
| UserCollections.CollectionStore.CreateFavoriteCollection | src/main/java/mil/tron/commonapi/service/documentspace/DocumentSpaceUserCollectionServiceImpl.java:58-75 | an existing favourites collection of the user in the space is refused with already-exists; otherwise an empty one is created |
| UserCollections.CollectionStore.AddFileSystemEntryToCollection | src/main/java/mil/tron/commonapi/service/documentspace/DocumentSpaceUserCollectionServiceImpl.java:123-139 | an unknown entry or collection is not found and changes nothing; otherwise the entry is added |
| UserCollections.CollectionStore.RemoveFileSystemEntryFromCollection | src/main/java/mil/tron/commonapi/service/documentspace/DocumentSpaceUserCollectionServiceImpl.java:186-200 | an unknown entry or collection is not found and changes nothing; otherwise the entry is removed |
| UserCollections.CollectionStore.AddEntityToFavoritesFolder | src/main/java/mil/tron/commonapi/service/documentspace/DocumentSpaceUserCollectionServiceImpl.java:105-120 | an unknown user is not found; otherwise the favourites are created when missing and the entry added, all undone on failure |
| UserCollections.CollectionStore.RemoveEntityFromFavoritesFolder | src/main/java/mil/tron/commonapi/service/documentspace/DocumentSpaceUserCollectionServiceImpl.java:172-183 | an unknown user is not found; missing favourites change nothing; otherwise the entry is removed (an unknown entry is not found) |
| UserCollections.CollectionStore.AddFileSystemEntryByPath | src/main/java/mil/tron/commonapi/service/documentspace/DocumentSpaceUserCollectionServiceImpl.java:142-154 | a request with no item, an item not in the folder or an unknown user is not found with no change; otherwise the outcome of adding that entry to the user's favourites (refused with no change, or the new collections) |
| UserCollections.CollectionStore.RemoveFileSystemEntryByPath | src/main/java/mil/tron/commonapi/service/documentspace/DocumentSpaceUserCollectionServiceImpl.java:157-169 | a request with no item, an item not in the folder or an unknown user is not found with no change; a user without favourites in the space is left as is; a missing entry is not found; otherwise the entry leaves the favourites collection |
| UserCollections.CollectionStore.DeleteCollection | src/main/java/mil/tron/commonapi/service/documentspace/DocumentSpaceUserCollectionServiceImpl.java:208-216 | an unknown collection is not found; otherwise it alone is deleted |
| MobileSpaces.Summary | src/main/java/mil/tron/commonapi/controller/documentspace/DocumentSpaceMobileController.java:62-102 | admin iff the user holds membership and write, editor iff write without membership, viewer iff no write |
| MobileSpaces.SummaryIgnoresOrder | src/main/java/mil/tron/commonapi/controller/documentspace/DocumentSpaceMobileController.java:66-69 | the summary depends only on which privileges are held, not on their order or repeats |
| MobileSpaces.ExtractUserPrivFromSpace | src/main/java/mil/tron/commonapi/controller/documentspace/DocumentSpaceMobileController.java:62-102 | the flag loop over the user's privileges yields the summary |
| MobileSpaces.FirstWithId | src/main/java/mil/tron/commonapi/controller/documentspace/DocumentSpaceMobileController.java:136-141 | the default space is the first listed space with the default id, and is absent iff none has it |
| MobileSpaces.GetSpacesAvailableAndDefault | src/main/java/mil/tron/commonapi/controller/documentspace/DocumentSpaceMobileController.java:108-144 | fails iff looking up the privileges of some space fails (dashboard admins look up nothing); otherwise one info per space in order (admin for a dashboard admin, else the summary) and the first info with the default id |
| MobileSpaces.ConvertFileSystemEntries | src/main/java/mil/tron/commonapi/controller/documentspace/DocumentSpaceMobileController.java:170-197 | one rendering per entry in order, with its id, name and folder flag, favourite iff some favourite has its id, and creation data standing in for missing modification data |
| EntityFieldAuth.Prefix | src/main/java/mil/tron/commonapi/service/fieldauth/EntityFieldAuthServiceImpl.java:164 | person fields are guarded by "Person-" authorities and organization fields by "Organization-" ones |
| EntityFieldAuth.Denied | src/main/java/mil/tron/commonapi/service/fieldauth/EntityFieldAuthServiceImpl.java:161-182 | the denied fields are exactly the protected fields whose own authority the requester lacks, in declaration order; none are denied iff every one is held |
| EntityFieldAuth.Overwritten | src/main/java/mil/tron/commonapi/service/fieldauth/EntityFieldAuthServiceImpl.java:168-176 | overwriting fails only with an invalid-update error and keeps the incoming field names |
| EntityFieldAuth.OverwrittenMeaning | src/main/java/mil/tron/commonapi/service/fieldauth/EntityFieldAuthServiceImpl.java:161-182 | overwriting fails iff a denied field is missing from either entity; otherwise each denied field has the stored value and every other field the incoming one |
| EntityFieldAuth.DeniedHeader | src/main/java/mil/tron/commonapi/service/fieldauth/EntityFieldAuthServiceImpl.java:184-186 | the denied-fields header is added iff some field was denied |
| EntityFieldAuth.MergeProtectedFields | src/main/java/mil/tron/commonapi/service/fieldauth/EntityFieldAuthServiceImpl.java:161-186 | the loop over protected fields agrees with overwriting the denied ones and reports the header the specification gives |
| EntityFieldAuth.AdjudicateEntityFields | src/main/java/mil/tron/commonapi/service/fieldauth/EntityFieldAuthServiceImpl.java:136-187 | the decision order: disabled lets everything through, no response is a bad request, an unknown entity is not found, no requester or no edit authority keeps the stored entity, an administrator gets everything, else field by field |
| EntityFieldAuth.AdjudicatePersonFields | src/main/java/mil/tron/commonapi/service/fieldauth/EntityFieldAuthServiceImpl.java:136-187 | the person adjudication is the shared decision with the person prefix and edit authority |
| EntityFieldAuth.AdjudicateOrganizationFields | src/main/java/mil/tron/commonapi/service/fieldauth/EntityFieldAuthServiceImpl.java:210-261 | the organization adjudication is the shared decision with the organization prefix and edit authority |
| EntityFieldAuth.AdjudicateFieldByField | src/main/java/mil/tron/commonapi/service/fieldauth/EntityFieldAuthServiceImpl.java:155-186 | for an editor who is not an administrator the result keeps the incoming id and field names, takes stored values for exactly the denied fields, and has no header iff nothing was denied |
| EntityFieldAuth.AdjudicateKeepsDeniedFields | src/main/java/mil/tron/commonapi/service/fieldauth/EntityFieldAuthServiceImpl.java:136-187 | with field protection on, a protected field the requester lacks the authority for never takes an incoming value |
| EntityFieldAuth.OverwrittenIdempotent | src/main/java/mil/tron/commonapi/service/fieldauth/EntityFieldAuthServiceImpl.java:161-182 | overwriting the denied fields of an already overwritten entity again changes nothing |
| EntityFieldAuth.FullAuthorityKeepsIncoming | src/main/java/mil/tron/commonapi/service/fieldauth/EntityFieldAuthServiceImpl.java:155-186 | an editor holding every field authority gets the incoming entity unchanged and no header |
| EntityFieldAuth.PrivilegeNames | src/main/java/mil/tron/commonapi/service/fieldauth/EntityFieldAuthServiceImpl.java:72-73 | the privilege name of each protected field is the prefix followed by the field name |
| EntityFieldAuth.SaveOne | src/main/java/mil/tron/commonapi/service/fieldauth/EntityFieldAuthServiceImpl.java:75-79 | saving a privilege adds its name and keeps the ids of the others |
| EntityFieldAuth.InsertMissing | src/main/java/mil/tron/commonapi/service/fieldauth/EntityFieldAuthServiceImpl.java:72-80 | after the insertion pass every field's privilege exists and existing privileges keep their ids |
| EntityFieldAuth.InsertPresentIsIdentity | src/main/java/mil/tron/commonapi/service/fieldauth/EntityFieldAuthServiceImpl.java:72-80 | when every privilege already exists the insertion pass changes nothing |
| EntityFieldAuth.Pruned | src/main/java/mil/tron/commonapi/service/fieldauth/EntityFieldAuthServiceImpl.java:83-97 | pruning deletes exactly the prefixed privileges whose field is no longer protected |
| EntityFieldAuth.SyncedMeaning | src/main/java/mil/tron/commonapi/service/fieldauth/EntityFieldAuthServiceImpl.java:70-125 | after one kind's pass every protected field has its privilege, every privilege with the prefix names a protected field, and privileges without the prefix are untouched |
| EntityFieldAuth.PrefixesDisjoint | src/main/java/mil/tron/commonapi/service/fieldauth/EntityFieldAuthServiceImpl.java:70-125 | no privilege name carries both prefixes, so the two passes do not interfere |
| EntityFieldAuth.BootstrappedMeaning | src/main/java/mil/tron/commonapi/service/fieldauth/EntityFieldAuthServiceImpl.java:70-125 | after the bootstrap both kinds' privileges match the protected fields exactly and every other privilege is untouched |
| EntityFieldAuth.SyncedSettled | src/main/java/mil/tron/commonapi/service/fieldauth/EntityFieldAuthServiceImpl.java:70-125 | a table already in step with the fields is left as it is |
| EntityFieldAuth.BootstrapIdempotent | src/main/java/mil/tron/commonapi/service/fieldauth/EntityFieldAuthServiceImpl.java:70-125 | running the bootstrap twice is running it once |
| EntityFieldAuth.RunnerBootstrapMeaning | src/main/java/mil/tron/commonapi/service/fieldauth/EntityFieldRunner.java:38-91 | the start-up runner only adds the missing privileges of both kinds, never deletes one, and is idempotent |
| EntityFieldAuth.PrivilegeTable.SaveAllMissing | src/main/java/mil/tron/commonapi/service/fieldauth/EntityFieldAuthServiceImpl.java:72-80 | the loop saving missing privileges agrees with the insertion pass |
| EntityFieldAuth.PrivilegeTable.DeleteOrphans | src/main/java/mil/tron/commonapi/service/fieldauth/EntityFieldAuthServiceImpl.java:83-97 | the loop deleting orphaned privileges agrees with pruning |
| EntityFieldAuth.PrivilegeTable.BuildEntityPrivileges | src/main/java/mil/tron/commonapi/service/fieldauth/EntityFieldAuthServiceImpl.java:70-125 | the table after the service's bootstrap is the specified one |
| EntityFieldAuth.PrivilegeTable.RunnerBuildEntityPrivileges | src/main/java/mil/tron/commonapi/service/fieldauth/EntityFieldRunner.java:38-91 | the table after the runner's bootstrap is the specified one |
| SpecificationBuilder.SupportsInputType | src/main/java/mil/tron/commonapi/repository/filter/SpecificationBuilder.java:260-277 | ordering operators accept number classes, a primitive long and dates; pattern operators accept only text; every other operator accepts any type |
| SpecificationBuilder.CheckOperatorSupportsInput | src/main/java/mil/tron/commonapi/repository/filter/SpecificationBuilder.java:288-292 | the check fails, with a bad request, exactly when the operator does not accept the type |
| SpecificationBuilder.ParseDecimal | src/main/java/mil/tron/commonapi/repository/filter/SpecificationBuilder.java:312-318 | a parsed integer lies within the range of its Java type |
| SpecificationBuilder.NatTextValue | src/main/java/mil/tron/commonapi/repository/filter/SpecificationBuilder.java:312-318 | the decimal digits of a natural number read back as that number |
| SpecificationBuilder.DecimalRoundTrip | src/main/java/mil/tron/commonapi/repository/filter/SpecificationBuilder.java:312-318 | the decimal text of any in-range integer parses back to it |
| SpecificationBuilder.CastAsWritten | src/main/java/mil/tron/commonapi/repository/filter/SpecificationBuilder.java:305-343 | the conversion as written, with UUID text limited to the canonical form, fails only with a bad request |
| SpecificationBuilder.BoxedLongStaysTextAsWritten | src/main/java/mil/tron/commonapi/repository/filter/SpecificationBuilder.java:262-266 | as written, a boxed Long field passes the ordering check, yet its value is left as text, which the ordering then casts to a number and fails |
| SpecificationBuilder.StringFieldGetsBooleanAsWritten | src/main/java/mil/tron/commonapi/repository/filter/SpecificationBuilder.java:336-338 | as written, the text "true" compared with a String field becomes a boolean |
| SpecificationBuilder.Cast | src/main/java/mil/tron/commonapi/repository/filter/SpecificationBuilder.java:305-343 | the corrected conversion, with UUID text limited to the canonical form, fails only with a bad request |
| SpecificationBuilder.CastAgreesElsewhere | src/main/java/mil/tron/commonapi/repository/filter/SpecificationBuilder.java:305-343 | apart from Long, int and String fields the corrected conversion is the one written |
| SpecificationBuilder.CastNumberMeaning | src/main/java/mil/tron/commonapi/repository/filter/SpecificationBuilder.java:312-318 | an integer field's value converts iff it is decimal text in the type's range, and every in-range integer's text converts to it |
| SpecificationBuilder.CastEnumMeaning | src/main/java/mil/tron/commonapi/repository/filter/SpecificationBuilder.java:320-322 | an enum value converts iff it names one of the constants, case included; otherwise a bad request |
| SpecificationBuilder.CastBooleanMeaning | src/main/java/mil/tron/commonapi/repository/filter/SpecificationBuilder.java:332-334 | "true" or "false" in any case becomes that boolean; other text is kept |
| SpecificationBuilder.CastBooleanAnyCase | src/main/java/mil/tron/commonapi/repository/filter/SpecificationBuilder.java:332-334 | "TRUE" and "False" convert to their booleans |
| SpecificationBuilder.StringCastIsIdentity | src/main/java/mil/tron/commonapi/repository/filter/SpecificationBuilder.java:305-343 | a String field keeps its text as given |
| SpecificationBuilder.CastAll | src/main/java/mil/tron/commonapi/repository/filter/SpecificationBuilder.java:350-356 | a list converts iff every value does, then to the values converted one by one in order |
| SpecificationBuilder.CastList | src/main/java/mil/tron/commonapi/repository/filter/SpecificationBuilder.java:350-356 | the conversion loop agrees with converting every value |
| SpecificationBuilder.ResolveField | src/main/java/mil/tron/commonapi/repository/filter/SpecificationBuilder.java:186-218 | the field reached keeps the last name of the dotted path, after the join attribute when one that is not blank is given |
| SpecificationBuilder.JoinSplit | src/main/java/mil/tron/commonapi/repository/filter/SpecificationBuilder.java:189 | joining the pieces of a split with the separator gives back the text |
| SpecificationBuilder.SplitPiecesLackSeparator | src/main/java/mil/tron/commonapi/repository/filter/SpecificationBuilder.java:189 | no piece of a split contains the separator |
| SpecificationBuilder.FieldPathPlain | src/main/java/mil/tron/commonapi/repository/filter/SpecificationBuilder.java:189-195 | a name without a dot is used as it is, with no joins |
| SpecificationBuilder.FieldPathRoundTrip | src/main/java/mil/tron/commonapi/repository/filter/SpecificationBuilder.java:189-195 | a dotted path not ending in a dot splits into at least one join and a last name without a dot, which join back to the path |
| SpecificationBuilder.LikeStartsWith | src/main/java/mil/tron/commonapi/repository/filter/SpecificationBuilder.java:145-154 | the pattern value% matches exactly the texts that start with the value, when it has no wildcard |
| SpecificationBuilder.LikeEndsWith | src/main/java/mil/tron/commonapi/repository/filter/SpecificationBuilder.java:156-165 | the pattern %value matches exactly the texts that end with the value, when it has no wildcard |
| SpecificationBuilder.LikeContains | src/main/java/mil/tron/commonapi/repository/filter/SpecificationBuilder.java:112-121 | the pattern %value% matches exactly the texts that contain the value, when it has no wildcard |
| SpecificationBuilder.LikeLiteral | src/main/java/mil/tron/commonapi/repository/filter/SpecificationBuilder.java:112-121 | a pattern without wildcards matches only itself |
| SpecificationBuilder.UnderscoreInValueIsWildcard | src/main/java/mil/tron/commonapi/repository/filter/SpecificationBuilder.java:112-121 | an underscore in the value is not escaped, so it matches any character: "a_c" finds "abc", which does not contain it |
| SpecificationBuilder.CreatePredicate | src/main/java/mil/tron/commonapi/repository/filter/SpecificationBuilder.java:40-180 | building a condition, with the corrected conversion of the Findings table, fails only with a bad request |
| SpecificationBuilder.CreatePredicateFails | src/main/java/mil/tron/commonapi/repository/filter/SpecificationBuilder.java:40-180 | with the corrected conversion of the Findings table, a condition fails iff its field does not exist, the operator does not accept the field's type, or its value (every value for IN) does not convert |
| SpecificationBuilder.EqualsIgnoresCase | src/main/java/mil/tron/commonapi/repository/filter/SpecificationBuilder.java:42-57 | with the corrected conversion (a String field keeps its text), equality on a String field holds iff the field's text equals the value ignoring case |
| SpecificationBuilder.StartsWithMeaning | src/main/java/mil/tron/commonapi/repository/filter/SpecificationBuilder.java:145-154 | for a value without wildcards, starts-with on a String field holds iff the lower-cased text starts with the lower-cased value |
| SpecificationBuilder.LikeMeaning | src/main/java/mil/tron/commonapi/repository/filter/SpecificationBuilder.java:112-121 | for a value without wildcards, like on a String field holds iff the lower-cased text contains the lower-cased value |
| SpecificationBuilder.EndsWithMeaning | src/main/java/mil/tron/commonapi/repository/filter/SpecificationBuilder.java:156-165 | for a value without wildcards, ends-with on a String field holds iff the lower-cased text ends with the lower-cased value |
| SpecificationBuilder.Compose | src/main/java/mil/tron/commonapi/repository/filter/SpecificationBuilder.java:370-383 | composing with an absent specification always yields one |
| SpecificationBuilder.GetSpecificationFromFilters | src/main/java/mil/tron/commonapi/repository/filter/SpecificationBuilder.java:365-387 | the nested loops build the left fold of each criterion's conditions with its relation, joined by AND |
| SpecificationBuilder.Evaluate | src/main/java/mil/tron/commonapi/repository/filter/SpecificationBuilder.java:40-180 | evaluating a condition built with the corrected conversion fails only with a bad request |
| SpecificationBuilder.CriterionSpecMeaning | src/main/java/mil/tron/commonapi/repository/filter/SpecificationBuilder.java:370-381 | a criterion fails iff one of its conditions fails; otherwise it holds iff all (AND) or some (OR) of its conditions hold |
| SpecificationBuilder.FiltersSpecMeaning | src/main/java/mil/tron/commonapi/repository/filter/SpecificationBuilder.java:365-387 | with the corrected conversion, the filters fail iff some condition fails; otherwise a record matches iff it satisfies every criterion, and no criteria match everything |
| PersonService.BranchOfAffiliationMeaning | src/main/java/mil/tron/commonapi/service/PersonServiceImpl.java:167-201 | each branch is chosen exactly for its affiliation texts, and OTHER exactly for a missing or unnamed affiliation |
| PersonService.AffiliationIsCaseSensitive | src/main/java/mil/tron/commonapi/service/PersonServiceImpl.java:167-201 | the affiliation must match exactly: "us navy" is OTHER |
| PersonService.First | src/main/java/mil/tron/commonapi/service/PersonServiceImpl.java:205-207 | the first match of a stream filter: absent iff nothing matches, otherwise a matching element |
| PersonService.FirstIsEarliest | src/main/java/mil/tron/commonapi/service/PersonServiceImpl.java:205-207 | when some element matches, the one found comes no later than it and nothing before it matches |
| PersonService.FoundRankRefusedAsWritten | src/main/java/mil/tron/commonapi/service/PersonServiceImpl.java:487-489 | as written, a rank that is found is still refused when there is no "Unk" rank, because the fallback is evaluated first |
| PersonService.OrUnknown | src/main/java/mil/tron/commonapi/service/PersonServiceImpl.java:487-489 | the corrected fallback fails only with not found |
| PersonService.OrUnknownMeaning | src/main/java/mil/tron/commonapi/service/PersonServiceImpl.java:487-489 | a found rank is used; otherwise the "Unk" rank of branch OTHER, and not found iff there is none |
| PersonService.OrUnknownAgrees | src/main/java/mil/tron/commonapi/service/PersonServiceImpl.java:487-489 | when an "Unk" rank exists the written and the corrected fallbacks agree |
| PersonService.ConvertToEntity | src/main/java/mil/tron/commonapi/service/PersonServiceImpl.java:485-491 | with the corrected rank fallback of the Findings table, the entity keeps the id, email and DoD id of the request |
| PersonService.ConvertToEntityRank | src/main/java/mil/tron/commonapi/service/PersonServiceImpl.java:485-491 | with the corrected rank fallback of the Findings table, conversion fails iff neither the requested rank in its branch nor "Unk" exists; otherwise the rank is the requested one or, when that is missing, "Unk" |
| PersonService.AllowedProperties | src/main/java/mil/tron/commonapi/service/PersonServiceImpl.java:64-72 | branch OTHER allows no metadata property |
| PersonService.UnknownProperties | src/main/java/mil/tron/commonapi/service/PersonServiceImpl.java:306-311 | the loop collects exactly the metadata keys the branch does not allow |
| PersonService.CheckValidMetadataProperties | src/main/java/mil/tron/commonapi/service/PersonServiceImpl.java:300-316 | a failed check is an invalid-update error |
| PersonService.CheckValidMetadataMeaning | src/main/java/mil/tron/commonapi/service/PersonServiceImpl.java:300-316 | the check passes iff there is no metadata or every key is a property of the branch (OTHER when none is given); any metadata for OTHER fails |
| PersonService.Overlay | src/main/java/mil/tron/commonapi/service/PersonServiceImpl.java:271-277 | the entity keeps every stored key and gains the incoming keys with a value |
| PersonService.Missing | src/main/java/mil/tron/commonapi/service/PersonServiceImpl.java:261-266 | only stored entries are scheduled for deletion as written: those the update leaves out, or all when it has none |
| PersonService.NullPropertyKeptAsWritten | src/main/java/mil/tron/commonapi/service/PersonServiceImpl.java:269-280 | as written, a stored key sent with a null value is not scheduled for deletion; as intended it is |
| PersonService.MetadataDiffMeaning | src/main/java/mil/tron/commonapi/service/PersonServiceImpl.java:258-292 | after saving and deleting the scheduled entries the metadata is exactly the update's non-null entries, and only stored entries are deleted |
| PersonService.MetadataDiffIdempotent | src/main/java/mil/tron/commonapi/service/PersonServiceImpl.java:258-292 | applying the same update twice gives the same metadata as applying it once |
| PersonService.CopyStored | src/main/java/mil/tron/commonapi/service/PersonServiceImpl.java:261-266 | the first loop copies the stored entries and schedules the left-out ones |
| PersonService.MatchIncoming | src/main/java/mil/tron/commonapi/service/PersonServiceImpl.java:268-280 | with the corrected null handling of the Findings table, the second loop overlays the non-null values and schedules the stored keys sent with null |
| PersonService.UpdateMetadata | src/main/java/mil/tron/commonapi/service/PersonServiceImpl.java:258-292 | the two loops compute the specified entity and deletions, with the corrected null handling of the Findings table |
| PersonService.PersistOutcomeMeaning | src/main/java/mil/tron/commonapi/service/PersonServiceImpl.java:108-135 | with the corrected rank fallback, a stored person keeps the request's id, which was free, passes both uniqueness checks and has only allowed metadata keys; a taken id is refused |
| PersonService.GetPersonFilterMeaning | src/main/java/mil/tron/commonapi/service/PersonServiceImpl.java:406-424 | a missing type or value is a bad request; a found person matches the value ignoring case; not found iff nobody does |
| PersonService.PersonFromJwtMeaning | src/main/java/mil/tron/commonapi/service/PersonServiceImpl.java:156-210 | with the corrected rank fallback, the new person keeps the login's email and DoD id, takes the affiliation's branch, has no metadata, and a rank with the login's pay grade in that branch or "Unk" |
| PersonService.PersonRepository.PersistPerson | src/main/java/mil/tron/commonapi/service/PersonServiceImpl.java:108-135 | with the corrected rank fallback, stores the person the specification accepts, or returns the failure of its first refused check and stores nothing |
| PersonService.PersonRepository.CreatePersonFromJwt | src/main/java/mil/tron/commonapi/service/PersonServiceImpl.java:156-210 | with the corrected rank fallback, a login without a usable rank is not found; otherwise the person built from it is persisted |
| PersonService.PersonRepository.FindById | src/main/java/mil/tron/commonapi/service/PersonServiceImpl.java:231-238 | finds the position of the person with the id, and nothing iff no person has it |
| PersonService.PersonRepository.UpdatePerson | src/main/java/mil/tron/commonapi/service/PersonServiceImpl.java:231-256 | with the corrected rank fallback and null handling, a bad rank or an unknown id is not found; an update that passes the email, DoD id and property checks replaces that person only, with the update's non-null metadata; a refusal changes nothing |
| AppSources.HasOtherPrivilegesMeaning | src/main/java/mil/tron/commonapi/service/AppSourceServiceImpl.java:356-361 | a privilege set has no privilege other than app source admin exactly when it is a subset of {APP_SOURCE_ADMIN}, compared case-sensitively |
| AppSources.PrivSetHasPrivsOtherThanAppSource | src/main/java/mil/tron/commonapi/service/AppSourceServiceImpl.java:356-361 | the loop answers true exactly when some privilege is not named APP_SOURCE_ADMIN |
| AppSources.NamesAdminPrivilegeMeaning | src/main/java/mil/tron/commonapi/service/AppSourceServiceImpl.java:284 | a privilege name counts as the admin privilege exactly when it equals APP_SOURCE_ADMIN ignoring case |
| AppSources.AdminPrivilegeNamed | src/main/java/mil/tron/commonapi/service/AppSourceServiceImpl.java:234-235 | the privilege granted to new administrators is one the administrator check recognises |
| AppSources.Strip | src/main/java/mil/tron/commonapi/service/AppSourceServiceImpl.java:340-342 | a stripped user keeps its email and exactly the privileges not named APP_SOURCE_ADMIN ignoring case |
| AppSources.HoldsAdminPrivilege | src/main/java/mil/tron/commonapi/service/AppSourceServiceImpl.java:283-285 | the inner loop answers true exactly when some privilege names APP_SOURCE_ADMIN ignoring case |
| AppSources.Removed | src/main/java/mil/tron/commonapi/service/AppSourceServiceImpl.java:319-320 | the users selected for removal are administrators of the app source: all of them, or those whose email matches ignoring case |
| AppSources.AdminsRemovedMeaning | src/main/java/mil/tron/commonapi/service/AppSourceServiceImpl.java:316-348 | the selected administrators leave the app source (all of them when deleting all); other app sources and unselected users are unchanged; a removed user who administers another app source is kept as is; otherwise it is deleted exactly when it has no other privilege, else stripped of APP_SOURCE_ADMIN |
| AppSources.AdminsRemovedStaysLinked | src/main/java/mil/tron/commonapi/service/AppSourceServiceImpl.java:316-348 | after removal every administrator of every app source is still a stored user: no deleted user is left listed anywhere |
| AppSources.AdminsRemovedKeepsEmailsUnique | src/main/java/mil/tron/commonapi/service/AppSourceServiceImpl.java:316-348 | removal keeps dashboard user emails unique ignoring case |
| AppSources.RemovedUserIsNoLongerAdmin | src/main/java/mil/tron/commonapi/service/AppSourceServiceImpl.java:300-307 | after removing an email from an app source, the administrator check answers no for that email |
| AppSources.WithEmail | src/main/java/mil/tron/commonapi/service/AppSourceServiceImpl.java:237 | the users found by email ignoring case are stored users |
| AppSources.GrantAdmin | src/main/java/mil/tron/commonapi/service/AppSourceServiceImpl.java:247-252 | granting the admin privilege to an existing user adds or removes no user |
| AppSources.AddedUserIsAdmin | src/main/java/mil/tron/commonapi/service/AppSourceServiceImpl.java:262-268 | after adding an email as administrator, the directory stays linked and the administrator check answers yes for that email |
| AppSources.AdminAddedIdempotent | src/main/java/mil/tron/commonapi/service/AppSourceServiceImpl.java:233-268 | adding the same email a second time changes nothing and creates no further user |
| AppSources.AdminAddedKeepsInvariants | src/main/java/mil/tron/commonapi/service/AppSourceServiceImpl.java:233-268 | adding an administrator keeps every listed administrator stored and keeps emails unique ignoring case |
| AppSources.UpdateGuardMeaning | src/main/java/mil/tron/commonapi/service/AppSourceServiceImpl.java:100-114 | a mismatched id is an invalid update, an unknown id is not found, and the update passes exactly when the trimmed name equals the stored one or matches no stored name ignoring case |
| AppSources.CaseOnlyRenameRefused | src/main/java/mil/tron/commonapi/service/AppSourceServiceImpl.java:109-111 | renaming "Foo" to "FOO" is refused as already existing, because the name check finds the app source itself |
| AppSources.FindAppEndpoint | src/main/java/mil/tron/commonapi/service/AppSourceServiceImpl.java:142-147 | not found exactly when no endpoint has the id; otherwise an endpoint of the collection with that id |
| AppSources.ResolvePrivileges | src/main/java/mil/tron/commonapi/service/AppSourceServiceImpl.java:187-192 | not found exactly when some privilege names an unknown client or an endpoint the request lacks; otherwise the privileges as requested |
| AppSources.AppSourceService.UserIsAdminForAppSource | src/main/java/mil/tron/commonapi/service/AppSourceServiceImpl.java:277-289 | the nested scan returns the administrator check: not found for an unknown app source, else whether an administrator with the email holds the admin privilege |
| AppSources.AppSourceService.DeleteAdminsFromAppSource | src/main/java/mil/tron/commonapi/service/AppSourceServiceImpl.java:316-348 | the loop over the snapshot of administrators leaves exactly the directory that the removal describes, and keeps the directory linked with unique emails |
| AppSources.AppSourceService.AddAppSourceAdmin | src/main/java/mil/tron/commonapi/service/AppSourceServiceImpl.java:262-268 | an unknown app source or a missing admin privilege changes nothing and is not found; otherwise the new state is the directory with the administrator added |
| AppSources.AppSourceService.RemoveAdminFromAppSource | src/main/java/mil/tron/commonapi/service/AppSourceServiceImpl.java:300-307 | an unknown app source changes nothing and is not found; otherwise the administrators with the email are removed |
| AppSources.AppSourceService.DeleteAppSource | src/main/java/mil/tron/commonapi/service/AppSourceServiceImpl.java:119-133 | an unknown app source changes nothing and is not found; otherwise every administrator is removed and then the app source itself |
| Puckboard.RankSets | src/main/java/mil/tron/commonapi/service/puckboard/PuckboardExtractorServiceImpl.java:89 | a branch contributes exactly three rank lists, read as enlisted, officer, warrant officer |
| Puckboard.LookupMeaning | src/main/java/mil/tron/commonapi/service/puckboard/PuckboardExtractorServiceImpl.java:85-99 | the rank lookup has a key exactly for each rank id of the dump, and a rank id maps to the abbreviation of its last occurrence, later duplicates overwriting earlier ones |
| Puckboard.LookupSnoc | src/main/java/mil/tron/commonapi/service/puckboard/PuckboardExtractorServiceImpl.java:93 | reading one more rank sets its id to its abbreviation in the lookup built so far |
| Puckboard.PutRanks | src/main/java/mil/tron/commonapi/service/puckboard/PuckboardExtractorServiceImpl.java:91-94 | the loop over one rank list leaves the lookup of everything read so far followed by that list |
| Puckboard.PutBranch | src/main/java/mil/tron/commonapi/service/puckboard/PuckboardExtractorServiceImpl.java:89-95 | the loop over a branch's three rank lists leaves the lookup extended by those lists in order |
| Puckboard.ProcessBranchInfo | src/main/java/mil/tron/commonapi/service/puckboard/PuckboardExtractorServiceImpl.java:85-99 | the nested loops return exactly the lookup of every rank of every branch, in dump order |
| Puckboard.BranchRanksReachLookup | src/main/java/mil/tron/commonapi/service/puckboard/PuckboardExtractorServiceImpl.java:85-99 | every rank of every branch has its id in the final lookup |
| Puckboard.RankNodesContain | src/main/java/mil/tron/commonapi/service/puckboard/PuckboardExtractorServiceImpl.java:87-96 | every rank of every branch is among the ranks the loops read |
| Puckboard.ResolveServiceName | src/main/java/mil/tron/commonapi/service/puckboard/PuckboardExtractorServiceImpl.java:102-106 | the branch is USMC exactly when the branch id is present and equals 2, and USAF otherwise, a missing id included |
| Puckboard.ResolveUnitTypeMeaning | src/main/java/mil/tron/commonapi/service/puckboard/PuckboardExtractorServiceImpl.java:109-116 | SQUADRON exactly when the lower-cased name contains "squadron"; WING exactly when it contains "wing" and not "squadron"; OTHER_USAF exactly when the name is missing or contains neither |
| Puckboard.ResolveUnitTypeRange | src/main/java/mil/tron/commonapi/service/puckboard/PuckboardExtractorServiceImpl.java:109-116 | the unit type is always one of the three, and "squadron" wins when the name contains both words |
| Puckboard.StatusText | src/main/java/mil/tron/commonapi/service/puckboard/PuckboardExtractorServiceImpl.java:144-154 | the status text is "Created - name", "Updated - name", or starts with "Problem - name (" and ends with the message and ")" |
| Puckboard.OrgStep | src/main/java/mil/tron/commonapi/service/puckboard/PuckboardExtractorServiceImpl.java:133-155 | an absent organization is refused as already existing exactly when a stored organization holds its name, and is otherwise created with the inferred branch and type and status "Created"; a present one is renamed with status "Updated" unless the service refuses the rename; on success every other organization is unchanged |
| Puckboard.IdsMeaning | src/main/java/mil/tron/commonapi/service/puckboard/PuckboardExtractorServiceImpl.java:133-156 | an id is among the dump's ids exactly when some node carries it |
| Puckboard.OrgPassKeys | src/main/java/mil/tron/commonapi/service/puckboard/PuckboardExtractorServiceImpl.java:128-159 | the pass keeps every stored organization and stores and reports no id outside the dump; when not aborted it stores exactly the old ids plus the dump's and reports exactly the dump's |
| Puckboard.OrgPassUntouched | src/main/java/mil/tron/commonapi/service/puckboard/PuckboardExtractorServiceImpl.java:128-159 | an organization whose id is not in the dump is unchanged, whether or not the pass aborts |
| Puckboard.OrgPassStops | src/main/java/mil/tron/commonapi/service/puckboard/PuckboardExtractorServiceImpl.java:133-156 | once an organization aborts the pass, later organizations are not processed |
| Puckboard.OrgPassAbortsAt | src/main/java/mil/tron/commonapi/service/puckboard/PuckboardExtractorServiceImpl.java:133-156 | the first organization the service refuses aborts the pass with that refusal |
| Puckboard.OrgPassTakenNameAborts | src/main/java/mil/tron/commonapi/service/OrganizationServiceImpl.java:494-495 | a new organization whose name a stored organization outside the dump already holds aborts the pass |
| Puckboard.OrgPassFinal | src/main/java/mil/tron/commonapi/service/puckboard/PuckboardExtractorServiceImpl.java:136-155 | when the pass is not aborted, the last node's organization carries its name, and its status is "Updated" if it existed or appeared earlier in the dump, otherwise "Created" |
| Puckboard.OrgPassLast | src/main/java/mil/tron/commonapi/service/puckboard/PuckboardExtractorServiceImpl.java:128-159 | when the pass is not aborted, for the last node with a given id the organization carries that node's name and the status is "Updated" exactly when the id existed or appeared earlier, otherwise "Created" |
| Puckboard.AirmanOf | src/main/java/mil/tron/commonapi/service/puckboard/PuckboardExtractorServiceImpl.java:182-189 | the airman takes its names, email, DoD id and duty phone from the node, and has a title exactly when the rank id is in the lookup, namely the lookup's abbreviation |
| Puckboard.MembershipPass | src/main/java/mil/tron/commonapi/service/puckboard/PuckboardExtractorServiceImpl.java:203-213 | organization entries keep the set of organizations; the pass fails exactly when some entry names an unknown organization, and the failure is not found |
| Puckboard.MembershipPassMeaning | src/main/java/mil/tron/commonapi/service/puckboard/PuckboardExtractorServiceImpl.java:203-213 | when no entry fails, each organization keeps its name, branch and type, other members are unchanged, and the person is a member exactly as the last entry for that organization says (active or not), or as before if there is none |
| Puckboard.MembershipPassStops | src/main/java/mil/tron/commonapi/service/puckboard/PuckboardExtractorServiceImpl.java:203-215 | once an entry fails, later entries are not applied |
| Puckboard.PersonStep | src/main/java/mil/tron/commonapi/service/puckboard/PuckboardExtractorServiceImpl.java:178-217 | one person: an uncaught refusal aborts; the status names the full name; it is a problem exactly when the service refused or an organization entry is unknown; otherwise the airman is stored, and the status is "Created" exactly when the airman was new and nothing failed; a caught refusal changes nothing |
| Puckboard.PersonnelPassStops | src/main/java/mil/tron/commonapi/service/puckboard/PuckboardExtractorServiceImpl.java:173-221 | once a person aborts the pass, later people are not processed |
| Puckboard.PersonnelPassAborts | src/main/java/mil/tron/commonapi/service/puckboard/PuckboardExtractorServiceImpl.java:191-217 | the pass aborts exactly when some person meets a refusal outside the caught exception kinds |
| Puckboard.PersonnelPassStatuses | src/main/java/mil/tron/commonapi/service/puckboard/PuckboardExtractorServiceImpl.java:173-221 | a pass that does not abort reports a status for exactly the people's ids |
| Puckboard.CommonApiTables.ProcessOrgInformation | src/main/java/mil/tron/commonapi/service/puckboard/PuckboardExtractorServiceImpl.java:128-159 | the loop leaves the organizations, statuses and abort the organization pass describes, stopping at the first refusal, and leaves the airmen unchanged |
| Puckboard.CommonApiTables.UpdateMemberships | src/main/java/mil/tron/commonapi/service/puckboard/PuckboardExtractorServiceImpl.java:203-213 | the loop over a person's organization entries leaves the organizations and failure the membership pass describes |
| Puckboard.CommonApiTables.ProcessPersonnelInfo | src/main/java/mil/tron/commonapi/service/puckboard/PuckboardExtractorServiceImpl.java:173-221 | the loop over the people leaves the tables, statuses and abort the personnel pass describes |
| Puckboard.CommonApiTables.PersistOrgsAndMembers | src/main/java/mil/tron/commonapi/service/puckboard/PuckboardExtractorServiceImpl.java:234-252 | the rank lookup is built, then organizations, then people; an aborted organization pass is the result and the personnel are not processed; otherwise the tables are those the personnel pass leaves, and the result is both status maps unless the personnel pass aborts |
| EventPublisher.Relative | src/main/java/mil/tron/commonapi/pubsub/EventPublisher.java:116-121 | one leading '/' of the subscriber address is dropped, and an address without one is kept whole |
| EventPublisher.BuildSubscriberFullUrl | src/main/java/mil/tron/commonapi/pubsub/EventPublisher.java:115-122 | the full URL starts with the cluster URL and ends with the address less one leading '/', and its length is the sum less that slash |
| EventPublisher.FullUrlJoinsWithOneSlash | src/main/java/mil/tron/commonapi/pubsub/EventPublisher.java:113-122 | after the cluster URL comes the relative address, and the join never puts '/' on both sides of it when the address does not start with "//" |
| EventPublisher.DoubleSlashAddressKeepsOne | src/main/java/mil/tron/commonapi/pubsub/EventPublisher.java:116-117 | an address starting with "//" under a cluster URL ending in '/' still gives "//" at the join, since only one slash is dropped |
| EventPublisher.FirstSegment | src/main/java/mil/tron/commonapi/service/pubsub/SubscriberServiceImpl.java:159 | the text before the first '_' of the event name: a prefix without '_', followed by '_' unless it is the whole name |
| EventPublisher.TargetEntityType | src/main/java/mil/tron/commonapi/service/pubsub/SubscriberServiceImpl.java:158-164 | the entity type is ORGANIZATION when the first segment is SUB, and the first segment otherwise |
| EventPublisher.FirstSegmentOfJoined | src/main/java/mil/tron/commonapi/service/pubsub/SubscriberServiceImpl.java:159 | the first segment of "TYPE_rest" is TYPE when TYPE holds no '_' |
| EventPublisher.TargetEntityTypeOfJoined | src/main/java/mil/tron/commonapi/service/pubsub/SubscriberServiceImpl.java:158-164 | "SUB_..." events target ORGANIZATION, and every other "TYPE_..." event targets TYPE |
| EventPublisher.DeliveriesSound | src/main/java/mil/tron/commonapi/pubsub/EventPublisher.java:149-180 | every POST of a broadcast carries the message and goes to a subscriber that has a valid URL, holds READ on the entity type and is outside the requester's namespace |
| EventPublisher.DeliveriesComplete | src/main/java/mil/tron/commonapi/pubsub/EventPublisher.java:149-180 | every subscriber with a valid URL, READ on the entity type and a namespace other than the requester's is sent the event |
| EventPublisher.UnreadableNeverSent | src/main/java/mil/tron/commonapi/pubsub/EventPublisher.java:151-161 | no POST goes to a subscriber without an app client, a cluster URL, or the "<entity type>_READ" privilege |
| EventPublisher.PublishTo | src/main/java/mil/tron/commonapi/pubsub/EventPublisher.java:149-180 | the publish loop makes exactly the broadcast's POSTs, in subscriber order, signed exactly when the subscriber has a secret |
| EventPublisher.OfferedAllAdmitsPrefix | src/main/java/mil/tron/commonapi/pubsub/EventPublisher.java:91-103 | publishing a run of events queues a prefix of them, as many as there is room for under the cap, at the tail in order, and drops the rest |
| EventPublisher.Publisher.PublishEvent | src/main/java/mil/tron/commonapi/pubsub/EventPublisher.java:87-104 | the message is queued exactly when the queue is below the cap, at the tail; otherwise the queue is unchanged; the queue stays within the cap |
| EventPublisher.Publisher.QueueConsumer | src/main/java/mil/tron/commonapi/pubsub/EventPublisher.java:129-183 | an empty queue does nothing; otherwise the head leaves the queue and the POSTs are exactly the broadcast to the subscribers of its event type |

## Left out

- HTTP controllers, security annotations and request routing; only the mobile controller's privilege summary is modelled.
- S3/MinIO storage, uploads, downloads, zip streaming and the CSV reader: the CSV import takes rows already read and trimmed.
- JPA repositories, the Criteria API and transactions become in-memory maps. A failed transactional operation restores the state it started from.
- Jackson and ModelMapper conversion, and the JsonPath read, set and delete operations, are oracles passed as parameters.
- The network: the seeder's `fetch` is an oracle over the request trace; the webhook POST and HMAC signature become a `Delivery` record with a flag for whether it is signed.
- Concurrency: `@Async`, `@Scheduled` and the thread safety of the event queue; the queue is a plain sequence and each tick is one call.
- Floating point and dates: Double and Date filter values stay unparsed text, and `ZonedDateTime` parsing and timestamps are not modelled. New folders carry no dates, and etags are not modelled.
- Random UUIDs are parameters.
- `EventPublisher.extractNamespace` and the namespace of a subscriber URL depend on helpers whose code is not part of this model. They are given as functions.
- The folder and file name validator is a regular expression. It is a fixed predicate on names.
- Case mapping covers ASCII letters only; Java's `toLowerCase` and `toUpperCase` map all of Unicode.
- Text.Lower and Text.Upper: their contracts do not state the character-by-character result. Facts about particular strings are proved with `LowerCons`.
- Organizations: the Java recursions over the hierarchy have no bound. The model passes the number of stored organisations as a depth, which suffices for acyclic hierarchies.
- Seeder: member specs are parsed before the walk. The script parses them inside its loop, and parsing sends nothing.
- EventPublisher.TargetEntityType: Java's `split("_")[0]` on a name made only of underscores throws. Event names are enum constants and never have that form.
- `removeEntityFromAllCollections` in the user collection service is not modelled.
- `FilenameUtils.getName` and `normalizeNoEndSeparator` in the mobile view are not modelled; item names hold no slash.
- The uniqueness checks of the person service are a parameter of the model.
- The overload of `removePrivilegesFromDashboardUser` that takes an email has no body in the privilege service; removal by email is modelled on the user found for that email.
- `applyFieldAuthority` is modelled on its own. It is not composed into the person and organisation updates.
- The rest of `updateAppSource` and `saveAppSource` is not modelled: replacing endpoints, client privileges and administrators in the repositories. The update guards, `findAppEndpoint` and the privilege resolution are modelled.
- PersonService.MetadataDiff: when an incoming key already exists, the code as written saves a second metadata row next to the old one. The model keeps one row per key, the evidently intended behaviour.
- Exception messages are a parameter of the Puckboard status text.
- `createDashboardUserOrReturnExisting` is not part of this model: a user it creates is given the id passed in and the DASHBOARD_USER privilege alone.
- DocumentSpaces.EnrollAll: the members of a CSV import are enrolled in row order. The source iterates a hash set, whose order is unspecified; the emails are distinct, so only the assignment of new ids can depend on it.
- DocumentSpaces.ReadRow: follows the corrected header check of the Findings table, so a header shorter than four cells is reported as an improper header rather than aborting the import with an index-out-of-bounds exception.
- DocumentSpaces.ReadCsv: the same corrected header check as ReadRow.
- DocumentSpaces.SpaceStore.BatchAddDashboardUserToDocumentSpace: the same corrected header check as ReadRow; on a short header the code as written fails with a server error and adds nobody.
- JsonDb.RecordHasSchemaFields: the record's fields come in schema order. The source collects them in a `HashMap`, whose order is unspecified, so the order is not part of the promise.
- JsonDb.EntityValueShape: the same schema order as RecordHasSchemaFields; the source's field order is hash order.
- JsonDb.MatchingRows: the uniqueness filter is modelled as text equality for a value without a quote. A value with a quote is refused as an invalid JsonPath query, even one that would happen to form a valid filter (such as `x' || '1' == '1`); the field name and backslashes are taken literally.
- ScratchStorage.ScratchStore.AclLookup: reads a role with the corrected lower-cased email of the Findings table; the code as written fails on a null role when the email's case differs from the ACL's.
- ScratchStorage.ScratchStore.UserCanWriteToAppId: the corrected role read, as for AclLookup.
- ScratchStorage.ScratchStore.UserCanReadFromAppId: the corrected role read, as for AclLookup.
- ScratchStorage.ScratchStore.UserCanDeleteKeyForAppId: the corrected role read, as for AclLookup.
- Organizations.FamilyTreeOutcome: uses the corrected self-parent check of the Findings table. As written, an organisation without a parent is accepted as its own subordinate and becomes its own parent, which `SelfParentAsWritten` shows.
- Organizations.FamilyTreeAccepts: the "not the organisation" condition is the corrected check, as for FamilyTreeOutcome.
- Organizations.FamilyTreeResult: the hierarchy stays valid only with the corrected check, as for FamilyTreeOutcome.
- Organizations.AddSubordinates: each subordinate goes through the corrected check, as for FamilyTreeOutcome.
- Organizations.AddSubordinatesKeepsHierarchy: acyclicity holds with the corrected check only, as for FamilyTreeOutcome.
- Organizations.OrgStore.SetOrgParentConditionally: uses the corrected self-parent check; as written, an organisation may be made its own parent.
- Organizations.OrgStore.PerformFamilyTreeChecks: uses the corrected check, as for FamilyTreeOutcome.
- Organizations.OrgStore.AddOrg: uses the corrected check, as for FamilyTreeOutcome; as written, `addOrg(x, [x])` makes x its own parent.
- The event messages the organisation service records and publishes (`eventManagerService.recordEventAndPublish` in `createOrganization`, `addOrg` and the update operations) are not modelled.
- SpecificationBuilder.CreatePredicate: converts values with the corrected conversion of the Findings table. As written, an ordering on a boxed `Long` field keeps its value as text and fails with a ClassCastException rather than a bad request, and "true" or "false" on a `String` field becomes a boolean.
- SpecificationBuilder.CreatePredicateFails: stated of the corrected conversion, as for CreatePredicate.
- SpecificationBuilder.EqualsIgnoresCase: stated of the corrected conversion; as written, "true" and "false" are compared as booleans.
- SpecificationBuilder.Evaluate: evaluates conditions built with the corrected conversion, as for CreatePredicate.
- SpecificationBuilder.FiltersSpecMeaning: stated of the corrected conversion, as for CreatePredicate.
- SpecificationBuilder.CastAsWritten: accepts only the canonical 8-4-4-4-12 UUID text. `UUID.fromString` also accepts shorter hexadecimal groups such as "1-2-3-4-5" and pads them, so such a value is a bad request in the model only.
- SpecificationBuilder.Cast: the same canonical UUID text as CastAsWritten.
- A Double, Object or Date filter value that would fail to parse is not refused: the model keeps such values as text, while the source parses Double and Object fields as numbers and dates as `ZonedDateTime`.
- PersonService.ConvertToEntity: uses the corrected rank fallback of the Findings table. As written, the "Unk" rank must exist even when the requested rank is found.
- PersonService.ConvertToEntityRank: the corrected rank fallback, as for ConvertToEntity.
- PersonService.PersonFromJwtMeaning: the corrected rank fallback, as for ConvertToEntity.
- PersonService.PersonRepository.CreatePersonFromJwt: the corrected rank fallback, as for ConvertToEntity.
- PersonService.PersistOutcomeMeaning: the corrected rank fallback, as for ConvertToEntity.
- PersonService.PersonRepository.PersistPerson: the corrected rank fallback, as for ConvertToEntity.
- PersonService.MatchIncoming: uses the corrected null handling of the Findings table. As written, a stored key sent with null is not deleted.
- PersonService.UpdateMetadata: the corrected null handling, as for MatchIncoming.
- PersonService.PersonRepository.UpdatePerson: the corrected rank fallback and null handling, as for ConvertToEntity and MatchIncoming.
- Puckboard: the name comparison of the organisation uniqueness check (`orgNameIsUnique`, whose code is not part of this model) is a parameter, and so is the refusal of a rename by `modifyAttributes`, whose code is not part of this model either.

## Findings

| source | as written | input that shows it | evidently intended | confidence | as-written member | corrected member |
|---|---|---|---|---|---|---|
| src/main/java/mil/tron/commonapi/service/scratch/ScratchStorageServiceImpl.java:567-588 | `aclLookup` tests for the lower-cased email but reads the role for the email as given | an ACL listing "a" as KEY_ADMIN, looked up for "A": the read yields null and the lookup throws | the email is lower-cased for both the test and the read | not executed | ScratchStorage.MixedCaseEmailBreaksAclLookup | ScratchStorage.RoleInIgnoresCase |
| src/main/java/mil/tron/commonapi/service/OrganizationServiceImpl.java:983-1022 | `setOrgParentConditionally` refuses a parent among the flattened subordinates only, so the organisation itself is accepted | making an organisation its own parent: accepted, and the hierarchy gains a cycle | an organisation cannot be its own parent | not executed | Organizations.SelfParentAsWritten | Organizations.ParentOutcomeRefusesDescendants |
| src/main/java/mil/tron/commonapi/service/PersonServiceImpl.java:487-489 | `orElse(fallback.orElseThrow(...))` evaluates the fallback first | ranks holding only "SSgt" of USAF, person ranked SSgt: refused as not found | the "Unk" rank is needed only when no rank is found | not executed | PersonService.FoundRankRefusedAsWritten | PersonService.OrUnknownMeaning |
| src/main/java/mil/tron/commonapi/service/PersonServiceImpl.java:269-280 | the second loop compares metadata keys with `==`, that is by identity | stored "afsc" = "99A", update sending "afsc" = null: the entry is not deleted | a key sent with null deletes the stored entry | not executed | PersonService.NullPropertyKeptAsWritten | PersonService.MetadataDiffMeaning |
| src/main/java/mil/tron/commonapi/service/documentspace/DocumentSpaceServiceImpl.java:518-529 | `validateCSVHeader` reads columns 2 to 4 without checking the header's length | the header "email,read": an index-out-of-bounds exception | a short header is reported as an improper header | not executed | DocumentSpaces.ShortHeaderThrows | DocumentSpaces.HeaderErrorMeaning |
| src/main/java/mil/tron/commonapi/repository/filter/SpecificationBuilder.java:305-343 | `castToRequiredType` parses `Integer` and primitive `long` fields only; a boxed `Long` or a primitive `int` field keeps its value as text | a greater-than filter "5" on a `Long` field: the check passes, the value stays text | a `Long` field's value becomes a number | not executed | SpecificationBuilder.BoxedLongStaysTextAsWritten | SpecificationBuilder.CastNumberMeaning |
| src/main/java/mil/tron/commonapi/repository/filter/SpecificationBuilder.java:336-338 | every type without its own case turns "true" or "false" into a boolean, `String` included | an equals filter "true" on a `String` field: the value becomes a boolean | a `String` field keeps its text | not executed | SpecificationBuilder.StringFieldGetsBooleanAsWritten | SpecificationBuilder.StringCastIsIdentity |
