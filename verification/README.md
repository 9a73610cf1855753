# Verified model of the storage, outbox and scheduled-job logic

A Dafny model of the parts of the service whose correctness depends on more than one function:
path access evaluation, the object store with its folder renames and quota counters, folder listings,
WebDAV addresses, the purge of a company, the scheduler lock, recorded job runs and their counters,
and the outbox with its retry runs. `dafny verify dfyconfig.toml` checks everything.

| module | models |
|---|---|
| `Paths` | trimming, segments, folder markers, `safe_object_path` |
| `Access`, `AccessLaws` | the scored-maximum evaluator, and what grants without effect, one grant alone, or none decide |
| `AccessWalk`, `WalkLimits` | the hierarchical rule of `docs/access.md` as a reference walk, and exactly where it and the evaluator part |
| `GrantTable`, `GrantLaws` | grant rows created for new folders and files: copies of an ancestor's grants, or the default pair, and when which |
| `PrivateFolders`, `Neighbours` | whom that pair reaches, and what it does to names that normalise alike |
| `ObjectStore`, `StoreLaws`, `StoreRuns`, `StoreService` | one company's objects and counters: the operations as functions, what each does and when it is refused, runs of them, and the service that executes them |
| `UserLimits`, `OwnedBytes` | the per-user ceiling, and when a user's used bytes are the bytes the user owns |
| `OverlappingUploads` | uploads and copies whose check and commit are apart, with other operations in between |
| `RenameAccess` | a folder rename seen by access evaluation |
| `Listing` | `list_objects`, `summarize_prefix`, and a client that opens every folder it is shown |
| `CompanyPurge` | the passes of `delete_company_rows` over rows with CASCADE and PROTECT keys |
| `TaskLock` | the Redis lock: set-if-absent with a time to live, compare-and-delete |
| `ScheduledRuns`, `LockedRuns`, `Counters` | run rows and the interrupted-run rule one statement at a time, the same under the lock, and the update-or-create counter |
| `Outbox`, `RetryRun` | the delivery protocol of one row, and one retry run over the whole table |
| `WebDav`, `WebDavDestination` | percent-encoding (section 2.1 of RFC 3986), hrefs, and the two ways back to bucket and path |

## Conventions

- Concurrency is a state machine: every locked transaction or single SQL statement is one event, and
  all interleavings, including workers that die between two statements, are event sequences. The
  result of a POST, the wall clock and the choice made by `skip_locked` are free.
- The store operations are serialised: each one commits a whole new state or keeps the old one. In
  `OverlappingUploads` uploads and copies are taken apart into a check and a commit.
- Grants are sets and objects are maps from ids, so nothing depends on query order.
- Time is a whole number of seconds. A path is *clean* when `safe_object_path` leaves it alone, and
  *canonical* when it also has no white space at either end.
- Where copying and renaming are concerned, folder grants are assumed to point at marker objects of
  canonical folders. The evaluator and the walk are compared without that assumption.

## Where the code does less than one might expect

- The passes over a company's models do not cope with every schema: a row that protects a row which
  cascades from it would block both deletes for ever, although no model protects another in a circle.
  The exact condition is the absence of a *deadlock* (`CompanyPurge.Database.DeleteCompanyRows`). In this
  service such a schema is hypothetical: all foreign keys cascade and none protects, so its purge always
  succeeds (`CompanyPurge.UnprotectedIsDeadlockFree`).
- Delivery is at least once. The lease keeps retry runs apart but not the post-commit dispatch, so two
  deliverers may post the same attempt. A result is stored if and only if no attempt was stored since its
  deliverer began, and dropped otherwise even when it is the successful one
  (`Outbox.StoredExactlyWhenFirst`, `Outbox.SuccessCanBeDropped`).
- A bulk delete that names one non-empty file twice lowers the counter twice
  (`StoreRuns.BulkDeleteExactness`).
- A copy without an owner is charged to the owner of the source without asking for that user's limit
  (`UserLimits.CopyWithin`).
- Addresses that are decoded before they are parsed lose names that hold a percent escape, and a
  Destination header also loses names with a newline (`WebDavDestination.DestinationRoundTrip`).
- A stored marker can stand for a folder whose path changes when it is normalised, such as `a ` with a
  blank at its end. The evaluator then looks for grants at the normalised path and the documented rule at
  the path itself: they part on such folders and on no others (`WalkLimits.RulesAgreeExactly`).
- The private pair of a new folder or file is matched by normalised paths. It spares every canonical path
  outside the stored folder, or other than the stored file, if and only if normalising leads back to the
  stored name or to no canonical path at all (`PrivateFolders.PairSparesExactly`). So the pair of a folder
  `a ` or ` a` reaches the neighbour `a`, and that of a file `x ` the file `x`. Even a pair that spares all
  canonical paths reaches stored names that normalise into the folder, such as ` a/x`
  (`Neighbours.NormalisedNamesAreReached`).
- What is put into a new folder is covered by its pair if and only if the folder, as read from the marker,
  normalises to nothing, to itself or to an ancestor of itself: not in `a `, but in ` a` and in `a/ `
  (`PrivateFolders.ContentsArePrivateExactly`).
- Other members lose the neighbour (`Neighbours.MisplacedPrivacy`), and whoever stores the new name gains
  it. With a folder `a` private to another user, the creator of `a ` may do everything in `a` afterwards,
  and the write check on the path of the marker, which is the one a PUT makes, passes beforehand
  (`Neighbours.CreatorGainsNeighbour`). A file `x ` makes its creator the only one with access to the file
  `x` (`Neighbours.FileTakesNeighbour`). The marker under the folder ` / / ` reads as a folder that
  normalises to nothing: it covers the whole bucket, and every private folder at the top opens to its
  creator (`Neighbours.CreatorGainsTopLevel`, `Neighbours.BlankSegmentsReadAsNothing`).
- A file named exactly like a folder is covered by the folder's grants until the folder is renamed, and
  then decided as if those grants were gone (`RenameAccess.SourceFileAccess`).
- A run that outlives its limit can be closed and counted twice
  (`ScheduledRuns.OverstayingRunIsClosedTwice`). A run that ends closes its row once if and only if no run
  that started more than the limit later has marked by then, and twice otherwise
  (`ScheduledRuns.ClosedOnceExactly`).
- The used bytes of a user are not always the bytes the user owns: an overwrite charges the difference to
  the owner it names, and a user without a limit is not counted. Exactly which steps drift is
  `OwnedBytes.StepTracks`.
- The limit check takes no lock. Uploads and copies may overlap in any way and the counter stays exact
  (`OverlappingUploads.TraceIsConsistent`), but a limit is passed if and only if a growing object is
  committed after others have taken more than the room its check left
  (`OverlappingUploads.LimitHoldsExactly`, `OverlappingUploads.UserLimitHoldsExactly`).

## Model

| member | source | states |
|---|---|---|
| Paths.SafeObjectPathLoop | apps/storage/mime.py:68-82 | the loop over segments computes the normalised path or the same error as the specification, for every input |
| Paths.SafePathIsClean | apps/storage/mime.py:68-82 | every accepted path comes out without empty, `.` or `..` segments and without backslashes |
| Paths.SafePathFixedPoints | apps/storage/mime.py:68-82 | the paths it leaves alone are exactly the clean ones |
| Paths.SafePathIdempotent | apps/storage/mime.py:68-82 | normalising twice is normalising once |
| Paths.SafePathOfSegment | apps/storage/mime.py:68-82 | a path without slashes is kept, or refused as empty (nothing or `.`) or as a parent segment (`..`) |
| Paths.SafePathOfJoin | apps/storage/mime.py:68-82 | of two paths joined by a slash a parent segment in either is refused, an empty one adds nothing, and else their results are joined: with the row above, what every path comes to |
| Paths.SafePathOfBackslash | apps/storage/mime.py:68-82 | a backslash counts as a slash |
| Paths.MarkerRoundTrip | apps/storage/models.py:17-31 | the marker name of a canonical folder, or of the root, leads back to that folder |
| Paths.MarkerNameRoundTrip | apps/storage/models.py:17-31 | a canonical marker name is the marker of the folder read from it if and only if that folder is canonical or the root |
| Access.PermissionsAreNested | apps/storage/access.py:324-373 | for any grants, admin allowed implies write allowed implies read allowed |
| Access.DecimalInjective | apps/storage/access.py:247-260 | subject ids compared as decimal text are compared exactly |
| Access.DecimalReadsBack | apps/storage/access.py:247-260 | an id is written in decimal digits that stand for it, without leading zeros |
| Access.CheckAccess | apps/storage/access.py:324-373 | the early-return scans compute the declarative decision; grants that have expired are as if they were not there |
| Access.BestGrants | apps/storage/access.py:350-357 | one pass for the maximum and one for the ties yield exactly the grants no other grant outscores |
| AccessLaws.ExpiredGrantIsIdle | apps/storage/access.py:263-270 | from its expiry on a grant changes no decision, whatever other grants there are |
| AccessLaws.ForeignGrantIsIdle | apps/storage/access.py:217-260 | nor does a grant of another company or bucket, or one for anyone but the user and the company |
| AccessLaws.StrangersAreRefused | apps/storage/access.py:334-339 | without a user, a company, or that of the bucket, nothing is allowed |
| AccessLaws.DefaultDecides | apps/storage/access.py:279-301 | without grants members read and write company buckets, owners and staff administer them, connectors can be read, and other buckets are closed |
| AccessLaws.LoneGrantDecides | apps/storage/access.py:217-373 | one grant alone decides by its permission and effect if it is of the bucket and company, for the user or the company, not expired, and reaches the path; otherwise the default stands |
| AccessWalk.ScoredMaximumIsWalk | apps/storage/access.py:301-373 | for every grant set whose folder grants stand on folders that normalising leaves alone and that are less than 900 deep, every principal, request, permission and time, the scored maximum decides like the documented walk: file grants, then folders deepest first, then the bucket, user before company, first non-empty cell, kind default last |
| AccessWalk.FolderScoreBelowFile | apps/storage/access.py:301-321 | no folder grant can reach the score of a file grant, and its score is 100 plus the depth, because names are at most 1024 characters |
| AccessWalk.FolderMatchIsChain | apps/storage/access.py:202-208 | the prefix test holds exactly for the folders on the chain of parents of the path |
| AccessWalk.TopIsCell | apps/storage/access.py:350-357 | equal top scores come from one level and one subject kind: the maximum is one cell of the walk |
| AccessWalk.DecideIsCell | apps/storage/access.py:358-373 | deny-then-allow over the top grants is the decision of that cell |
| AccessWalk.CanonicalWalkStart | apps/storage/access.py:198-199 | for a canonical path the walk starts at the path itself |
| AccessWalk.AncestorsAreMatches | apps/storage/access.py:554-560 | the by-name ancestor list and the string test of the evaluator find the same folders |
| WalkLimits.RulesAgreeExactly | apps/storage/access.py:198-373 | the evaluator is the walk for all grants standing on a set of objects if and only if each of their folders is unchanged by normalising and less than 900 deep |
| WalkLimits.StoredFolderIsMet | apps/storage/models.py:24-31 | for a name within the stored length only normalising can part them |
| WalkLimits.StrayDenyReaches | apps/storage/access.py:202-208 | on every other folder one company-wide denial makes the evaluator refuse a path that the walk allows |
| WalkLimits.DeepFolderBeatsFile | apps/storage/access.py:301-321 | a denial on a folder 900 deep beats an allowance on the file itself |
| GrantTable.Table.NearestAncestorFolderGrants | apps/storage/access.py:582-610 | finds the deepest ancestor with live grants, and exactly the grants on it |
| GrantTable.Table.DeepestFolder | apps/storage/access.py:600-610 | the reversed scan stops at the deepest folder that has grants, or none has |
| GrantTable.Table.CopyFolderGrants | apps/storage/access.py:679-703 | adds one new row per source grant with its subject, permission, effect and expiry, and changes no other row |
| GrantTable.Table.EnsureDefaultPrivateAccess | apps/storage/access.py:706-780 | what is created in each branch: nothing, copies of the nearest ancestor's grants, or the private pair |
| GrantTable.Table.ApplyDefaultPrivateOnCreate | apps/storage/access.py:783-818 | for a marker the rows of its folder and for any other object those of the file are created, branch by branch; where nothing is created, and where a canonical new folder copies its nearest granted ancestor, nobody's access changes, then or later; a private pair changes no decision on any canonical path outside the stored folder, or other than the stored file, where normalising leads back to the stored name or to no canonical path |
| GrantTable.CopyIsNeutral | apps/storage/access.py:706-754 | copying the nearest ancestor's grants onto a new folder changes no decision for any path, principal and permission, then or later |
| GrantTable.NothingBetween | apps/storage/access.py:582-610 | no live grant stands on a folder between the nearest ancestor found and the new folder |
| GrantTable.DefaultIsPrivate | apps/storage/access.py:756-780 | where the new pair is the most specific match, its creator may do everything and every other member nothing, owner and staff included |
| GrantLaws.PairOrInheritance | apps/storage/access.py:706-780 | a new folder or file without grants of its own gets a private pair if and only if no folder above has a live grant; else it inherits from the deepest one that has, a folder by copies and a file without rows |
| GrantLaws.InheritedTerms | apps/storage/access.py:660-703 | a new folder gets one row for each live grant on that folder, with the same subject, permission, effect and expiry, and no other row |
| GrantLaws.AskedAgain | apps/storage/access.py:736-737 | once rows were created, asking again creates nothing |
| GrantLaws.SetUpByName | apps/storage/access.py:795-818 | a marker of a canonical folder sets up that folder, any other canonical name its file, and the marker of the root nothing |
| GrantTable.PairSpares | apps/storage/access.py:756-780 | where normalising the new folder or file leads back to its stored name, or to no canonical path, its pair changes no decision on the root or any canonical path outside the stored folder or other than the stored file, for all other grants, principals and permissions |
| PrivateFolders.CoversOnlyItself | apps/storage/access.py:202-208 | a folder covers nothing but itself and what is below it if and only if normalising leaves its path alone |
| PrivateFolders.CoversItsContents | apps/storage/access.py:202-208 | any folder path covers what is below it if and only if it normalises to nothing, or to itself or an ancestor of itself once its front is trimmed |
| PrivateFolders.PairSparesExactly | apps/storage/access.py:217-244 | the pair of a new folder or file changes no decision on canonical paths outside the stored folder, or other than the stored file, whatever other grants there are, if and only if normalising leads back to the stored name or to no canonical path |
| PrivateFolders.ContentsArePrivateExactly | apps/storage/access.py:706-780 | for any stored marker and less specific grants besides the pair, what is put into the folder belongs to the creator alone if the folder read from the marker normalises to nothing, itself or an ancestor; if not, the pair takes no part in the decision |
| Neighbours.NormalisedNamesAreReached | apps/storage/access.py:198-208 | whatever canonical path a pair reaches, it reaches under each stored name that is the path after white space, outside the folder though it is |
| Neighbours.BlankEndedCovers | apps/storage/access.py:202-208 | a grant on a canonical path followed by blanks covers what lies under the path and nothing of what lies under the path with the blanks |
| Neighbours.BlankEndedIsStorable | apps/storage/mime.py:68-82 | the marker name of such a folder is stored as it is |
| Neighbours.MisplacedPrivacy | apps/webdav/views.py:354-386 | the private pair of a new folder of such a name shuts other members out of the neighbour and leaves the folder itself open to them |
| Neighbours.NeighbourIsNotInherited | apps/storage/access.py:582-610 | the grants of the neighbour are not found among those of the ancestors, so a pair of its own is made |
| Neighbours.CreatorGainsNeighbour | apps/webdav/views.py:300-325 | with the neighbour private to another user, the creator can read nothing of it before the marker is stored and administer all of it after; the write check on the marker's path passes, that on the folder's path does not |
| Neighbours.FileTakesNeighbour | apps/storage/access.py:229-244 | a new file named like another with blanks after it, in a bucket without grants: before, members could read the other and plain ones not administer it; after, its creator alone has access to it, whatever less specific grants are added, and the write check on the new path passes beforehand |
| Neighbours.CreatorGainsTopLevel | apps/storage/access.py:202-208 | with a folder private to another user, the creator of a folder that normalises to nothing may read nothing of it before, and administer it after if and only if it is at the top |
| Neighbours.BlankSegmentsReadAsNothing | apps/storage/access.py:795-810 | three blank segments before the marker make such a folder: the name is stored as it is and is set up with a pair |
| Neighbours.TwoBlankSegmentsAreSkipped | apps/storage/access.py:795-810 | with two, the folder read again from the normalised name is empty and nothing is set up |
| ObjectStore.TotalPut | apps/storage/services.py:277-348 | storing an object changes the sum of sizes by the new size less the size it replaces |
| StoreLaws.UploadRefusals | apps/storage/services.py:258-302 | an upload is refused if and only if it has one of the listed faults (path, MIME type, existing name without upsert, size, company limit, user limit, name length, id), and then for the first one in the order of the checks |
| StoreLaws.CopyRefusals | apps/storage/services.py:690-712 | the same for copies: paths, missing source, taken destination, other company, limits |
| StoreLaws.MoveRefusals | apps/storage/services.py:655-671 | the same for moves |
| StoreLaws.RenameRefusals | apps/storage/services.py:587-628 | the same for folder renames: paths, a destination inside the source, an empty source, an occupied destination, names that get too long |
| StoreLaws.UploadStores | apps/storage/services.py:268-349 | after an upload an object of its size stands under the normalised name, the old one with its owner unless another is named or a new one; nothing else changes, and the counter changes by the difference |
| StoreLaws.CopyStores | apps/storage/services.py:714-735 | after a copy a new object of the source's size stands at the destination, owned by the user named or the source's owner, and all else is as before |
| StoreLaws.MoveMoves | apps/storage/services.py:655-677 | after a move the object of the source stands at the destination with its id, size and owner, the name of the source is free, and all else is as before |
| StoreLaws.RenameMoves | apps/storage/services.py:608-633 | after a rename each object below the source stands at the same place below the destination with its id, size and owner, and all others are as before |
| StoreLaws.RenameToItself | apps/storage/services.py:594-595 | a rename of a folder to itself succeeds and changes nothing, whether there is such a folder or not |
| StoreLaws.DeletePathsExactly | apps/storage/services.py:402-432 | a bulk delete is refused if and only if an object that its paths name is not writable; else exactly those objects are gone |
| StoreLaws.DeleteUnderExactly | apps/storage/services.py:533-557 | a delete of a folder is refused if and only if an object in it is not writable; else exactly those are gone and the counter is the sum of the rest |
| StoreRuns.ChargeIsExact | apps/storage/quotas.py:105-115 | charging an exact difference never meets the clamp of the company counter |
| StoreRuns.UploadKeeps | apps/storage/services.py:246-348 | an upload or overwrite keeps names unique and storable, the counter exact, and the company limit |
| StoreRuns.CopyKeeps | apps/storage/services.py:682-746 | the same for a copy |
| StoreRuns.MoveKeeps | apps/storage/services.py:647-678 | the same for a move |
| StoreRuns.RenameKeeps | apps/storage/services.py:579-643 | the same for a folder rename, which leaves the counters alone |
| StoreRuns.RenamedNameInjective | apps/storage/services.py:590-633 | with a free destination two objects never get the same new name |
| StoreRuns.DeleteAllKeeps | apps/storage/services.py:402-432 | deleting distinct objects keeps everything exact and never raises the usage |
| StoreRuns.StepKeeps | apps/storage/services.py:246-746 | every operation, failed ones included, keeps all of it |
| StoreRuns.RunKeeps | apps/storage/quotas.py:73-135 | after every run of operations used bytes are the sum of the sizes, and no state exceeds both the limit and the first usage |
| StoreRuns.BulkDeleteCounter | apps/storage/services.py:402-432 | what the counter is after a bulk delete, whatever the list repeats |
| StoreRuns.BulkDeleteExactness | apps/storage/services.py:402-432 | a bulk delete keeps the counter exact if and only if every repeated hit is empty or every object that is not hit is |
| StoreRuns.RepeatUndercounts | apps/storage/services.py:411-432 | two spellings of one non-empty file leave the counter below the sum |
| UserLimits.StepWithin | apps/storage/quotas.py:73-135 | apart from copies without an owner, no operation takes a user above both the limit and the usage before |
| UserLimits.CopyWithin | apps/storage/services.py:701-733 | a copy breaks a user's ceiling if and only if it has no owner of its own and overfills the owner of the source |
| OwnedBytes.StepTracks | apps/storage/quotas.py:105-135 | a step keeps a user's used bytes equal to what the user owns if and only if it is not an upload or copy of bytes owned by a user without a limit, nor an overwrite that takes a non-empty object over from another owner, or changes the size without naming the owner |
| OwnedBytes.RunTracks | apps/storage/quotas.py:105-135 | over a whole run they are equal in every state if and only if no step is of that kind |
| OwnedBytes.OverwriteTracks | apps/storage/services.py:293-306 | the same for one overwrite, with any owner before and after |
| OverlappingUploads.HalvesAreTheWhole | apps/storage/services.py:245-348 | check and commit with nothing in between are the upload or copy in one piece |
| OverlappingUploads.TraceIsConsistent | apps/storage/quotas.py:104-135 | in every interleaving of checks, commits, aborts and other operations names stay unique and storable and the counter is the sum of the sizes |
| OverlappingUploads.LimitHoldsExactly | apps/storage/quotas.py:73-115 | an interleaving keeps the limit of the company in all its states if and only if no growing object, new or overwritten, is committed after others have taken more than the room its check left |
| OverlappingUploads.LimitHoldsWithoutOverlap | apps/storage/quotas.py:73-115 | it does where the sum of the sizes grows only while no other upload is between check and commit |
| OverlappingUploads.UserLimitHoldsExactly | apps/storage/quotas.py:90-135 | the same equivalence for the limit of each user, whoever else uploads, shrinks or deletes meanwhile |
| OverlappingUploads.CheckLeavesRoom | apps/storage/quotas.py:73-101 | a growing object passes its check only where that leaves room |
| OverlappingUploads.TwoUploadsTakeTheRest | apps/storage/quotas.py:73-135 | two new objects that each take all that is left pass their checks and are both stored |
| StoreService.Store.UploadObject | apps/storage/services.py:246-348 | every branch, the MIME refusal included, in the order of the checks, gives the specified new state or the specified error and no change; the returned id is that of the object under the name |
| StoreService.Store.CopyObject | apps/storage/services.py:682-746 | the same for copies, with the refusal to leave the company |
| StoreService.Store.MoveObject | apps/storage/services.py:647-678 | the same for moves, with the refusal to leave the company; the returned id is that of the object that was at the source and is at the destination |
| StoreService.Store.DeleteObject | apps/storage/services.py:378-398 | the row goes and its size is given back to the company and the owner |
| StoreService.Store.DeleteListed | apps/storage/services.py:402-432 | all paths are resolved and checked before the first delete; repeated hits are charged again |
| StoreService.Store.DeleteFolder | apps/storage/services.py:533-557 | deletes exactly the objects under the folder, or nothing when one is not writable |
| StoreService.Store.RenameObjectsUnder | apps/storage/services.py:579-643 | all checks in order; on success every object under the source, and no other, is renamed and counted, and a rename to itself counts none |
| StoreService.Store.RewriteNames | apps/storage/services.py:606-633 | one name at a time in any order reaches the simultaneous rename, unless a name gets too long |
| StoreService.RewriteStep | apps/storage/services.py:606-633 | no intermediate state holds the next new name: the collision error inside the loop is unreachable |
| StoreService.RenameBack | apps/storage/services.py:579-643 | renaming back restores every name if and only if no file is named exactly like the source, and is refused otherwise |
| RenameAccess.RenamePreservesAccess | apps/storage/services.py:590-633 | a rename to a sibling name keeps every decision on moved objects (old path before, new path after) and on all others but a file named like the source |
| RenameAccess.MatchFollows | apps/storage/access.py:217-244 | each grant matches an object after the rename exactly when it did before |
| RenameAccess.SourceFileAccess | apps/storage/services.py:590-633 | for the excepted file the decision afterwards is the one the grants without those on the folder gave before; it is kept if and only if dropping them changes nothing |
| RenameAccess.RenameAtSourceFile | apps/storage/services.py:590-633 | the same for every successful rename of the store |
| RenameAccess.SourceFileFlips | apps/storage/services.py:590-633 | for all sibling names a rename can open such a file to members who were denied it |
| RenameAccess.FileNamedLikeSourceIsUncovered | apps/storage/access.py:217-244 | each of the folder's grants matches the file before the rename and not after it |
| Listing.ListObjects | apps/storage/services.py:144-231 | files directly under the prefix, child folders of visible objects, and a visible marker for each folder that has one |
| Listing.ListedByName | apps/storage/services.py:165-191 | an object is a file of the listing if its name is the folder's with one segment, lies in a child if it has more, and marks the child if just the marker follows |
| Listing.MarkerNamesEndInMarker | apps/storage/services.py:497-529 | the summary counts a name as a marker if and only if its last segment is the marker |
| Listing.SummarizePrefix | apps/storage/services.py:497-529 | counts and bytes of exactly the visible objects under the prefix; the clamp of the file count never acts |
| Listing.WalkTree | apps/storage/services.py:165-191 | opening every listed folder reaches each visible object under the prefix exactly once and nothing else, with the bytes of the summary: each readable object of the bucket whose name lies below the prefix once, and no other |
| Listing.ChildObjects | apps/storage/services.py:165-191 | the objects listed under a child folder's path are those of the parent listing that lie in that child |
| CompanyPurge.Database.DeleteCompanyRows | apps/actions/company_deletion.py:96-112 | succeeds if and only if the company's rows contain no deadlock; then exactly the company's rows are gone, and in any case no other row is |
| CompanyPurge.Database.DeleteModel | apps/actions/company_deletion.py:103-108 | one delete takes all rows that cascade from the model's rows, or is refused because one of them is protected |
| CompanyPurge.Database.Pass | apps/actions/company_deletion.py:100-111 | a pass refuses fewer models than it tried, or changed nothing and all of them are stuck |
| CompanyPurge.DeadlockHolds | apps/actions/company_deletion.py:96-112 | in every state on the way a delete that touches a deadlock is refused |
| CompanyPurge.StuckIsDeadlock | apps/actions/company_deletion.py:109-112 | when every remaining model is refused, the remaining rows of the company are a deadlock of the first state |
| CompanyPurge.RankedIsDeadlockFree | apps/actions/company_deletion.py:96-112 | models that can be ranked so that guards, cascades included, rank lower have no deadlock |
| CompanyPurge.UnprotectedIsDeadlockFree | apps/storage/models.py:100-104 | where nothing is protected, as in the models of this service, no purge is refused |
| CompanyPurge.AcyclicProtectWithoutCascade | apps/actions/company_deletion.py:97-97 | without cascades an acyclic PROTECT graph is enough |
| CompanyPurge.AcyclicProtectCanDeadlock | apps/actions/company_deletion.py:97-97 | with cascades it is not: two rows for which the purge fails |
| TaskLock.LockServer.Acquire | config/task_lock.py:57-61 | takes the key exactly when it is free or expired, for its time to live of at least a second |
| TaskLock.LockServer.Release | config/task_lock.py:24-29 | removes the key only when this run took it and it still holds this run's token, and then the key is gone |
| TaskLock.AtMostOneInside | config/task_lock.py:50-68 | in every interleaving two runs are inside together only if one has outlived its time to live |
| TaskLock.HolderKeepsKey | config/task_lock.py:50-68 | whatever other runs do, the key stays until its holder ends or its time runs out |
| TaskLock.KeyChangesOnlyByOwner | config/task_lock.py:24-29 | the key changes only by an entry into a free lock or by its owner's release |
| TaskLock.FreeAfterTtl | config/task_lock.py:57-61 | whatever happens after a run got in, once its time to live is over the key is not held by it, and a new run gets in unless yet another one holds the key |
| TaskLock.ReleaseFrees | config/task_lock.py:24-29 | after any trace the release of a run that still holds the lock frees it: the next new run gets in at once |
| TaskLock.HeldForItsTtl | config/task_lock.py:50-68 | until a run that got in releases, loses its release or dies, every new run is refused for all of its time to live |
| TaskLock.LateRunOverlaps | config/task_lock.py:50-68 | a run that outlives its time to live can overlap the next |
| Counters.CounterIsSumOfFinishedCalls | apps/actions/scheduled_jobs.py:208-216 | in every interleaving the counter is the sum of the amounts of the finished calls: nothing lost, nothing doubled |
| Counters.CallsFinish | apps/actions/scheduled_jobs.py:208-216 | whatever other calls do, a call that is not lost is done after at most four of its statements |
| Counters.Counter.Increment | apps/actions/scheduled_jobs.py:208-216 | one call adds its amount also when another call creates the row in between, and a non-positive amount adds nothing |
| ScheduledRuns.RunTable.MarkInterrupted | apps/actions/scheduled_jobs.py:265-282 | closes exactly the running rows that started more than the limit before this start, and counts them |
| ScheduledRuns.OnlyLateRunsAreMarked | apps/actions/scheduled_jobs.py:265-282 | in every interleaving, with no bound on any run, a run that is still working is marked only after it has outlived the limit, and otherwise closes its row once |
| LockedRuns.HoldersAreSpared | apps/actions/tasks.py:43-61 | with the run limit as time to live (120 and 900 seconds on both sides), a task that still holds its key is never marked interrupted, closes its row exactly once, and is the only holder |
| ScheduledRuns.CountersMatchClosings | apps/actions/scheduled_jobs.py:265-341 | in every interleaving counted plus lost plus pending is the number of closings, for either status |
| ScheduledRuns.CountersMatchWithoutDeaths | apps/actions/scheduled_jobs.py:208-216 | where no worker dies nothing is lost: the counters and what is still to be added are the closings |
| ScheduledRuns.CountingAdds | apps/actions/scheduled_jobs.py:337-340 | a worker adds one for its own row under its outcome, and one failure for each row it closed |
| ScheduledRuns.LiveRunsAreSpared | apps/actions/scheduled_jobs.py:265-282 | while no run outlives the limit, live runs are never marked and no row is closed twice |
| ScheduledRuns.CountersMatchRows | apps/actions/scheduled_jobs.py:303-341 | then counted plus lost plus pending is the number of rows in that status |
| ScheduledRuns.CrashedRowsAreClosed | apps/actions/scheduled_jobs.py:265-282 | in every reachable state no row is running that started more than the limit before a run that has marked |
| ScheduledRuns.MarkedExactlyWhenOlder | apps/actions/scheduled_jobs.py:265-282 | a start closes a running row if and only if it comes more than the limit after that row's start |
| ScheduledRuns.OverstayingRunIsClosedTwice | apps/actions/scheduled_jobs.py:303-337 | a run that outlives the limit can be closed as failed and again as succeeded |
| ScheduledRuns.ClosedOnceExactly | apps/actions/scheduled_jobs.py:265-337 | in every interleaving the row of a run that ends is closed once if and only if no run that started more than the limit later has marked by then, and twice otherwise, and nothing afterwards closes it again |
| ScheduledRuns.OverstayingRunIsReached | apps/actions/scheduled_jobs.py:392-431 | events that lead to such a state |
| Outbox.BackoffGrows | apps/actions/delivery.py:35-36 | the backoff never falls, starts at 30 seconds and is an hour from the eighth attempt on |
| Outbox.FailedRowIsDueExactly | apps/actions/webhook_retry.py:53-67 | after a failure that is to be repeated the row is due 30 seconds later, 60, 120 and so on up to 1920 for the first seven attempts, 3600 from the eighth on, or later if a Retry-After on 429 or 503 asks for more, up to an hour; no other Retry-After counts, and a run can claim the row from that time on and not before |
| Outbox.FinalResultCloses | apps/actions/delivery.py:122-206 | every other stored result closes the row: delivered at that time on success, else dead, with no next attempt |
| Outbox.LeaseRunsOut | apps/actions/delivery.py:318-339 | a claim changes the lease only, which ends after its seconds and not before |
| Outbox.RequeueOpens | apps/actions/admin_api_views.py:472-477 | a requeued row can be claimed at once; its attempts and their number stay |
| Outbox.DelayBounds | apps/actions/webhook_retry.py:53-67 | every delay lies between 30 seconds and an hour, above the backoff, and honours a Retry-After of up to an hour on 429 and 503 |
| Outbox.OutboxRow.ApplyDeliveryResult | apps/actions/delivery.py:122-206 | the new row in every branch (delivered, dead, failed with the next attempt time) and one more attempt with the next number, which is given by the schedule of 30 seconds to an hour and the Retry-After that counts |
| Outbox.OutboxRow.Record | apps/actions/delivery.py:247-281 | a result is stored exactly when no attempt was stored since the snapshot; otherwise nothing changes |
| Outbox.OutboxRow.Claim | apps/actions/delivery.py:318-339 | takes the lease exactly on a claimable row and changes nothing else |
| Outbox.AttemptsAreNumbered | apps/actions/delivery.py:209-281 | in every interleaving the stored attempts are numbered from 1 without gap or repeat, as many as the row counts |
| Outbox.StoredResultFindsOpenRow | apps/actions/delivery.py:270-281 | a stale result never overwrites a delivered or dead row |
| Outbox.AttemptsAreBounded | apps/actions/delivery.py:174-194 | at most max(1, limit) attempts and one success, each plus one per requeue; failed means scheduled and below the limit |
| Outbox.ClosedUntilRequeue | apps/actions/delivery.py:231-234 | nothing is stored on a delivered or dead row until a requeue |
| Outbox.AttemptsOnlyGrow | apps/actions/delivery.py:150-159 | a stored attempt is never rewritten |
| Outbox.OneResultPerSnapshot | apps/actions/delivery.py:270-281 | once one deliverer has stored its result, others with the same snapshot store nothing, whatever happens in between |
| Outbox.SuccessCanBeDropped | apps/actions/delivery.py:261-281 | from every open row below the limit two overlapping deliverers can lose a success |
| Outbox.StoredExactlyWhenFirst | apps/actions/delivery.py:263-281 | over every trace a deliverer's result is stored, as the next attempt, if and only if no attempt was stored since it began; otherwise row and attempts stay as they are |
| Outbox.ClaimBars | apps/actions/delivery.py:308-339 | a claim keeps the row from the same run exactly when the lease is positive |
| Outbox.DryRunClaimsAgain | apps/actions/delivery.py:443-448 | after a dry run's claim the row is claimable again by the same run |
| RetryRun.GentleRunKeepsBarred | apps/actions/delivery.py:308-339 | dispatch, workers, other retry runs, new and deleted rows never make a claimed row claimable again for this run |
| RetryRun.ClaimKeepsAllBarred | apps/actions/delivery.py:318-339 | a claimed row is one not claimed before, and after the claim this run cannot claim any of its rows |
| RetryRun.MergeDone | apps/actions/delivery.py:410-412 | merging finished workers one by one gives the figures of all merged claims |
| RetryRun.MergeOne | apps/actions/delivery.py:355-373 | the figures of one result are one claim counted by how its delivery ended |
| RetryRun.RetryPendingWebhooks | apps/actions/delivery.py:376-469 | the run ends: by its deadline on a clock that passes, and without one on a dry run or while nobody adds rows and waiting brings results; every claim is merged once or still in flight; processed plus in flight stay within batch plus workers less one; with a positive lease no row is claimed twice; a dry run only counts claims, at most a batch; where workers bring back what they read in their rows and nothing is requeued, the delivered and dead figures are at most the claimed rows that are so at the end or were deleted since; it makes a claim at least at every second step unless it has claimed enough rows to keep all workers busy or no claimable row is offered, and it ends only with a full batch, at its deadline, or with no row offered and nothing in flight |
| RetryRun.EndsWhenDone | apps/actions/delivery.py:421-469 | where a claimable row is offered whenever there is one, a run that ends before its deadline has filled the batch or left no claimable row and nothing in flight |
| RetryRun.ClaimLeasesOnly | apps/actions/delivery.py:318-339 | a claim of the run leases its row and changes nothing else; a dry run gives the lease back |
| RetryRun.FiguresAreBorne | apps/actions/delivery.py:355-373 | the same bound for all and for email rows, from the log of everything that happens to the table during the run |
| RetryRun.ReadStays | apps/actions/delivery.py:209-281 | a closed status read at any moment of a run is there at its end, or the row is gone |
| RetryRun.EveryTableIsSound | apps/actions/delivery.py:122-206 | every table that any events lead to is one on which this holds |
| RetryRun.RunCountsAddUp | apps/actions/management/commands/retry_webhooks.py:12-31 | for both channels no figure is negative and attempted is succeeded plus failed plus given up |
| RetryRun.RunCountsAreFound | apps/actions/management/commands/retry_webhooks.py:12-31 | the figures stored for webhooks and for email are how many merged claims of that kind were found delivered, still open, and dead |
| WebDav.UnquoteQuote | apps/webdav/views.py:97-107 | decoding undoes encoding for every text of octets, whatever follows |
| WebDav.UnquoteFixes | apps/webdav/views.py:90-90 | decoding leaves a text alone exactly when it holds no escape, and shortens it otherwise |
| WebDav.QuoteOctetExactly | apps/webdav/views.py:97-107 | unreserved characters stay as they are, and every other octet becomes a percent sign and its two capital hexadecimal digits |
| WebDav.QuoteConcat | apps/webdav/views.py:97-107 | a text is encoded octet by octet |
| WebDav.HrefForm | apps/webdav/views.py:97-107 | an href has only unreserved characters, percent signs and slashes, and ends in a slash exactly for a collection |
| WebDav.HrefRoundTrip | apps/webdav/views.py:86-107 | parsing the tail of an href gives back the bucket and the path, for every octet |
| WebDav.StoredNameRoundTrip | apps/webdav/views.py:86-107 | in particular for every name that is stored as it is, blanks at its ends included |
| WebDav.DecodedTwice | apps/webdav/views.py:86-94 | where the address was decoded before, the path comes back if and only if it holds no percent escape |
| WebDavDestination.HeaderIsSearched | apps/webdav/views.py:110-120 | for a relative or absolute header the decoded address of the href is what is searched |
| WebDavDestination.NewlineLosesPath | apps/webdav/views.py:117-120 | with a newline in the path whatever the pattern finds parses to a shorter path |
| WebDavDestination.DestinationRoundTrip | apps/webdav/views.py:86-120 | bucket and path of a Destination header come back if and only if the path holds neither a percent escape nor a newline |

## Left out

- CompanyPurge.Database.DeleteCompanyRows: assumes that foreign keys stay inside a company, and that a model's delete sees no rows written meanwhile.
- RetryRun.RetryPendingWebhooks: the claim order (by next attempt time, then age) is left open, because locked rows are skipped anyway; a row deleted between a worker's two transactions makes the run raise, which is not modelled. With requeues during the run the figures say nothing about the end, as a requeue opens delivered rows again.
- RetryRun.GentleRunKeepsBarred: requeues and dry runs at the same time are excluded, as both make a claimed row claimable again.
- Outbox.AttemptsAreNumbered: attempt error texts, durations, HTTP status and trigger of a stored attempt are not part of the row model.
- StoreRuns.RunKeeps: operations are serialised; uploads and copies that overlap are in `OverlappingUploads`.
- OverlappingUploads.TraceIsConsistent: of the other operations only uploads and copies are taken apart; a delete that read a size before an overwrite committed is not modelled.
- OverlappingUploads.UserLimitHoldsExactly: a copy without an owner appears as check and commit only, since in one piece it asks no user's limit (`UserLimits.CopyWithin`).
- WebDavDestination.DestinationRoundTrip: the removal of tabs and line breaks inside a URL and the checks of bracketed or non-ASCII hosts are not modelled; neither occurs in an href.
- OwnedBytes.StepTracks: a bulk delete is taken to name each object once; what a repeated one does to the company counter is `StoreRuns.BulkDeleteExactness`.
- HTTP transport, address checks, signatures, JWT verification and the parsing of Retry-After: a delivery result is a free choice.
- Blob bytes, ETags, how a MIME type is found and matched, the markdown sidecar and blob clean-up: only names, sizes and owners are modelled, and a blob write succeeds or the operation aborts.
- REST and admin views, serialisers, templates, metrics, settings and log redaction.
- Share links, retention deletes, grant CRUD validation and the `ensure_folder_marker` path that stores a marker without normalising it.
- Sort order, search and paging of listings.
- The `group` subject is stored and never matches; it is a case of the model without behaviour.
- `purge_company`'s blob hook and the flag rows of `purge_deleted_companies`: one loop around the modelled purge.
- The grant rows that a move between buckets carries along: only the object row is modelled.
- Database specifics: case-insensitive prefixes, null ordering, and databases that ignore row locks.
