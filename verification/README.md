# Verification model of agentfs environments

An env shows a program a private, writable copy of a host directory. It is kept as three trees: `lower`, a snapshot;
`upper`, what was written; and `whiteouts`, markers of what was deleted. This project models how those layers are
changed and read, how they are written back to the host, and the protocols and codecs around them, and proves what
they promise. Everything is stated over all inputs, all states with the layers' invariant, or all runs.

| files | what they model |
|---|---|
| `Replies`, `Trees`, `PlainTree` | results and errors, directory trees with the filesystem calls used, and the reference: each operation on one plain tree |
| `WhiteoutStore`, `OverlayState` | the marker encoding and the set it stands for; the three layers, their view, each operation on them |
| `OverlayRefinement`, `OverlayRuns`, `LinksInTheWay`, `DeadLinks` | each operation, and every run of operations, against the plain tree; what symbolic links in the way, and links that lead to nothing, change |
| `PathOverlay`, `OverlayFs`, `Listings` | the classes that carry the operations out step by step; inode numbers and paged listings |
| `PathLookup`, `TreeComparison`, `CommitSteps`, `StorageCleanup` | looking paths up through links, comparing trees, the single steps of writing an env back to the host |
| `CommitSafety`, `HostCommit`, `CommitThroughLinks`, `CommitForecast`, `CommitRuns` | the whole commit: what every step keeps, the class that carries it out, links in its way, what it loses and how to tell beforehand, runs followed by a commit |
| `DirectoryBuffer`, `DirectoryCursor`, `EnvTable` | the Windows driver: record chains, the enumeration cursor, the process table |
| `TmpNames`, `AtomicReplace`, `MetadataStore` | replacing metadata files under concurrent writers, kills and power loss |
| `PosixQuoting`, `WindowsQuoting`, `ExitTrailer`, `Decimals`, `Descendants` | argument quoting with readers that invert it, the exit-status trailer, the process closure |

A tree is a finite map from paths to `Dir(mode)`, `File(data, mode)` or `Link(target)`. The view of an env is defined
by walking from the root through what `resolve` finds, visible directory by visible directory; under the layers'
invariant (`OverlayState.Inv`) looking at one path of the layers alone gives the same. What the kernel guarantees before
it passes a request on (`PlainTree.Allowed`) is a precondition, and each call of a filesystem function, removing a whole
tree and copying a file with its mode included, is one step that succeeds or fails. A moment is the state after such a
step.

Symbolic links may lead anywhere, so where they lead is arbitrary in every statement. What the layers' lookups find
behind a link of the snapshot is any map, and which links lead to nothing is any set or predicate
(`OverlayState.Links`). When an env is written back, host and snapshot are two trees of one disk: a path stands for the
place that following the links above its last component leads to, on the host or in the snapshot
(`PathLookup.Real`), with an arbitrary function for where a link leads. So an absolute link of the snapshot may lead to
the host, and a link of the host into the snapshot.

What does not hold, and exactly when it does:

- Directories copied to `upper` lose their mode, because `create_dir_all` makes them with the default one. A step
  changes the view exactly as on a plain tree if and only if every directory it copies already had the default mode or
  is the one whose mode it sets (`OverlayRuns.ExactlyWhenModesAreDefault`).
- A successful operation shows as on a plain tree, directory modes aside, unless it makes a directory over a link of
  the snapshot that leads to something, or renames a file of the snapshot onto a link, and only then
  (`LinksInTheWay.LikePlainExactly`). In the first case the new directory shows what the link led to
  (`LinksInTheWay.LinkTurnedDirectory`); in the second the rename writes through the link, reports success, and the
  link is still there (`LinksInTheWay.FileRenamedOntoLink`). The theorems about runs are for runs that do neither
  (`OverlayRuns.AllDirect`).
- Looking a path up tests with `exists`, which follows a link from where the layer stores it, so a link that leads to
  nothing there counts as absent. The env sees its view (`OverlayState.Seen` is `OverlayState.View`) if and only if
  every link in sight is found (`DeadLinks.SeenIsView`). Otherwise a new link is made with success but not seen
  (`DeadLinks.DeadLinkIsNotSeen`) though listings show it, and in place of a deleted file it brings that file back
  (`DeadLinks.DeletedFileReappears`). Operations on such a link are set apart by `OverlayRefinement.Reachable`.
- Removing and renaming can fail where a plain tree would not: `OverlayRefinement.Succeeds` is the exact condition.
  After a file was replaced by a directory, files made inside it cannot be removed
  (`OverlayRuns.UnlinkBelowReplacedFile`), and a link of the snapshot cannot be renamed onto a file of `upper`
  (`LinksInTheWay.LinkRenameRefused`).
- Under the invariant, listing a visible directory fails exactly where `lower` still has a file at that path
  (`OverlayRefinement.ListingAgreesWithView`).
- The check before a deletion follows links, and so do the two removals after it. Without `force`, a deletion takes away
  what it finds where the path of the host leads, and then where the path of the snapshot leads, exactly if the check
  found the same at both places (`CommitThroughLinks.DeletionTakesAway`). So it loses a host edit exactly if there is
  one at the first place, or at the second if that is on the host (`CommitThroughLinks.DeletionLosesExactly`), and a
  commit loses one exactly if one of its deletions does (`CommitThroughLinks.CommitLosesExactly`). A directory the user
  moved away behind a link is enough (`CommitThroughLinks.MovedFileIsLost`). Upper entries lose none, as the
  directories above them are compared first. With no link on the host, in the snapshot or made by the env strictly
  above a deleted path, and none on the way to the source (`CommitSafety.Straight`, which a caller can check
  beforehand), the commit keeps everything it promises at every moment.
- Where links lead to fixed places, the loss can be told from host and snapshot as they are once the upper entries are
  applied: a commit loses no edit if no deleted path leads to one, and if it succeeds, and no deletion takes away a link
  on the way of another, only then (`CommitForecast.LossForeseen`).
- An env that replaces a directory with a link after deleting its only file still has that deletion marked, and the
  commit carries it out behind the link: it takes away a file the env still sees (`CommitRuns.MadeLinkLosesFile`). With
  an absolute link the check compares a file of the host with itself, and whatever the user has made of it is lost
  (`CommitRuns.AbsoluteLinkLosesEdit`).
- Without a link in the way, a commit without `force` succeeds exactly if host and snapshot agreed on everything the
  env wrote or deleted and no deletion lies below a file the env made (`HostCommit.CommittedDelivers`,
  `CommitSafety.StaleWhiteout`). A host edit at something it wrote ends it with a conflict, and so does one at something
  it deleted, unless a file in the way of a deletion stops it with ENOTDIR first. Deleting a directory's content and putting a file in its place is enough to stop it
  with ENOTDIR (`CommitRuns.FileOverDirectoryBlocksCommit`), and force does not help.
- Writing back leaves the env's view below the source as it was at every moment. Outside the source it stays the same
  exactly if every hollow directory of `upper`, one without files or links outside the source, is in `lower` with the
  same mode (`CommitSafety.HollowsMatch`), because clearing drops these directories too; one file made in a source
  directory of an unusual mode is enough (`CommitRuns.FirstFileChangesSourceMode`).
- The walk that lists changed paths fails exactly if some path of one tree cannot be looked up in the other
  (`TreeComparison.Comparable`). It takes what it finds through a link for a node of the tree, and lists exactly the
  changes unless something behind a link passes for one (`TreeComparison.ChangesSeenExactly`).
- Where nothing of a directory query's answer is hidden and the rounded-up end of its last record is past the caller's
  buffer, that record is dropped (`DirectoryBuffer.FilterEntries`); a buffer of exactly the size of its only record
  gets nothing (`DirectoryBuffer.SnugBufferStaysEmpty`). Where something is hidden instead, and the last record is not,
  copying it reads past the buffer, and only then; what is read there does not show
  (`DirectoryBuffer.HiddenEntryReadsPast`).
- Asking for one entry at a time yields both layers' entries once each exactly if all fit the buffer and no lower entry
  that shows comes after more hidden ones than the upper layer has to put in their places
  (`DirectoryCursor.SingleListing`): with nothing in the upper layer, the first deleted entry ends the listing
  (`DirectoryCursor.DeletedEntryEndsListing`).
- Asking for as many entries as fit yields them once each exactly if what shows of each lower batch, and what shows of
  the upper layer, fits the buffer and no batch of which something shows comes after one that is hidden altogether and
  has no upper entries to stand in for it (`DirectoryCursor.AllListing`): the second hidden batch ends the listing
  (`DirectoryCursor.SecondHiddenBatchEndsListing`).
- An entry too large for the buffer sends a single-entry enumeration of the upper layer back to its beginning
  (`DirectoryCursor.MisfitRestarts`), so each entry comes out once if and only if all fit; a query for all entries
  repeats its first answer if they do not fit together.
- A write that has returned survives a power loss exactly if the rename is on disk; builds that do not sync the
  directory fall back to the old content (`AtomicReplace.PowerLossAfterFinish`). A failing directory sync reports an
  error although the file is replaced (`MetadataStore.Storage.Replace`).

## Model

| member | source | states |
|---|---|---|
| OverlayState.ViewIsShow | crates/agent-core/src/path_overlay.rs:82-103 | under the invariant, and whatever lies behind the links, what the layers hold at one path is what walking down from the root finds, and the view is a tree |
| OverlayRefinement.ApplyRefines | crates/agent-overlayfs/src/main.rs:553-717 | an allowed operation that is not on a link leading to nothing succeeds exactly under `Succeeds`; with no link in its way it keeps the layer invariant and `lower` and changes the view as the plain operation does once the copied directories have the default mode |
| OverlayRefinement.NewNodeRefines | crates/agent-overlayfs/src/main.rs:808-1009 | create, mkdir and symlink never fail; with no link of the snapshot at the path they put exactly one new node into the view |
| OverlayRefinement.WriteRefines | crates/agent-overlayfs/src/main.rs:553-580 | copying up and then writing, truncating, appending or setting attributes never fails and changes one node of the view as the plain operation does; `ApplyLeaves` says to what |
| OverlayRefinement.EnsureUpperShows | crates/agent-overlayfs/src/main.rs:553-578 | copy-up brings the path to `upper` and changes nothing in the view but the modes of directories copied with it |
| OverlayRefinement.RemoveRefines | crates/agent-overlayfs/src/main.rs:669-717 | unlink and rmdir fail exactly where stated, and otherwise take exactly one node out of the view |
| OverlayRefinement.RenameRefines | crates/agent-core/src/path_overlay.rs:105-148 | renaming a file or link fails exactly where stated, and otherwise, unless it writes through a link, moves exactly one node of the view |
| OverlayRefinement.ApplyLeaves | crates/agent-overlayfs/src/main.rs:757-1077 | what the env sees after any operation that succeeds with no link in its way: a written file byte by byte, with the length and the zeros of a gap; a cut or lengthened file likewise; a mode as the lowest twelve bits asked for; a new, moved or removed node; every other path as before, directory modes aside |
| PlainTree.SpliceMeans | crates/agent-overlayfs/src/main.rs:1069-1070 | seeking to an offset and writing puts exactly the bytes from there on, keeps all others and fills a gap with zeros; writing nothing changes nothing |
| OverlayRefinement.ApplyRefuses | crates/agent-overlayfs/src/main.rs:669-717 | which error a failing operation reports: a directory that is not empty, a file of `lower` at the directory's path, or an input/output error |
| LinksInTheWay.LikePlainExactly | crates/agent-overlayfs/src/main.rs:553-909 | for every successful operation not on a link leading to nothing, and whatever lies behind the links: it shows as on a plain tree if and only if it neither makes a directory over a link that leads to something nor renames a file onto a link |
| LinksInTheWay.MadeOverLink | crates/agent-overlayfs/src/main.rs:808-838 | a directory over a link of the snapshot is always made, and is empty exactly if nothing lies behind the link |
| LinksInTheWay.RenamedOntoLink | crates/agent-core/src/path_overlay.rs:105-148 | a rename that writes through a link never shows what the plain rename does |
| LinksInTheWay.WrittenThroughLink | crates/agent-core/src/path_overlay.rs:121-145 | the link is still there; what it leads to inside `upper` takes over the file and nothing else changes, and if it leads outside nothing in `upper` does |
| LinksInTheWay.LinkTurnedDirectory | crates/agent-core/src/path_overlay.rs:82-103 | in any snapshot: a run of two operations after which a new directory shows what a removed link led to |
| LinksInTheWay.FileRenamedOntoLink | crates/agent-core/src/path_overlay.rs:121-145 | in any snapshot: a run whose rename succeeds and leaves the link where it was |
| LinksInTheWay.LinkRenameRefused | crates/agent-core/src/path_overlay.rs:121-145 | in any snapshot: a run after which an allowed rename fails |
| DeadLinks.SeenIsView | crates/agent-core/src/path_overlay.rs:82-103 | for any layers under the invariant: what `resolve` really finds on the walk is the view if and only if every link in sight leads to something, from `upper` or the same one from `lower` |
| DeadLinks.RunIsSeen | crates/agent-core/src/path_overlay.rs:82-103 | the run theorem for what the env really sees, for runs whose links are found |
| DeadLinks.DeadLinkIsNotSeen | crates/agent-overlayfs/src/main.rs:861-887 | in any snapshot: a link made with success that the env does not see |
| DeadLinks.DeletedFileReappears | crates/agent-core/src/path_overlay.rs:82-103 | in any snapshot: a run of two successful operations after which a deleted file is seen again |
| OverlayRuns.ExactlyWhenModesAreDefault | crates/agent-overlayfs/src/main.rs:553-578 | with no link in its way, a step's view is the plain step's, modes included, if and only if the directories it copies had the default mode or have it set |
| OverlayRuns.RunRefines | crates/agent-overlayfs/src/main.rs:553-909 | every run of successful operations with no link in their way shows what the same run shows on a plain tree, directory modes aside, whatever lies behind the links; invariant kept, `lower` unchanged |
| OverlayRuns.FreshRunRefines | crates/agent-overlayfs/src/main.rs:553-909 | the same from a new env: its view is the snapshot's, then the plain run's |
| OverlayRuns.RunIsExact | crates/agent-overlayfs/src/main.rs:553-909 | over a snapshot whose directories have the default mode the runs agree, modes included |
| OverlayRuns.RemadeDirectoryStartsEmpty | crates/agent-overlayfs/src/main.rs:697-858 | a directory made at any point of any run with no link in its way has nothing below it, and nothing appears below it that is not made or moved there later |
| OverlayRuns.UnlinkBelowReplacedFile | crates/agent-overlayfs/src/main.rs:669-695 | in any snapshot: a run after which a visible file cannot be unlinked |
| WhiteoutStore.MarkerRoundTrip | crates/agent-core/src/path_overlay.rs:55-68 | a deleted path's marker file reads back as that path |
| WhiteoutStore.StorageRoundTrip | crates/agent-core/src/path_overlay.rs:196-218 | every file of the store is the marker of exactly the path it reads back as |
| WhiteoutStore.ReadBackMeans | crates/agent-core/src/path_overlay.rs:196-218 | a storage path reads back as the directory it is in exactly if it is a file of the reserved name with the marker's content |
| WhiteoutStore.WhiteoutSetMeans | crates/agent-core/src/path_overlay.rs:55-72 | `whiteout_exists` is membership in the deleted set, wherever the store can be asked |
| WhiteoutStore.MarkerRemoved | crates/agent-core/src/path_overlay.rs:74-80 | dropping a path's marker deletes that path from the set and no other |
| WhiteoutStore.CollectEntries | crates/agent-core/src/desktop.rs:1346-1376 | the recursive walk visits every file and link below a directory exactly once and maps each back to its visible path |
| WhiteoutStore.ListWhiteouts | crates/agent-core/src/desktop.rs:934-950 | the listing of deletions is exactly the deleted set, each path once |
| PathOverlays.PathOverlay.ResolveFinds | crates/agent-core/src/path_overlay.rs:82-103 | `resolve` finds what the layers and the links of the snapshot have at the path and in which layer, and reports a whiteout, with its marker file, exactly on deleted paths |
| PathOverlays.PathOverlay.CreateWhiteout | crates/agent-core/src/path_overlay.rs:150-167 | inserts one path into the deleted set, by an empty file there or, in a directory of the store, the reserved file with its content, all else unchanged; or fails with no effect exactly below another path's marker |
| PathOverlays.PathOverlay.RemoveWhiteout | crates/agent-core/src/path_overlay.rs:74-80 | deletes one path from the deleted set, by removing exactly its marker file, or fails with no effect exactly below another path's marker |
| PathOverlays.PathOverlay.Rename | crates/agent-core/src/path_overlay.rs:105-148 | the step-by-step rename ends in the state `OverlayState.RenameNode` gives, or fails without an effect |
| OverlayFileSystem.OverlayFs.Create | crates/agent-overlayfs/src/main.rs:976-1009 | the request's steps end in the state `OverlayState.Apply` gives for it, and keep all invariants |
| OverlayFileSystem.VisiblePathDescends | crates/agent-overlayfs/src/main.rs:501-512 | the path reached from the root of the mount by any names stands, in the layers, for the path reached by the same names from the visible root |
| OverlayFileSystem.OverlayFs.Mkdir | crates/agent-overlayfs/src/main.rs:808-838 | the request's steps end in the state `OverlayState.Apply` gives for it, over a link too, and keep all invariants if there is no link |
| OverlayFileSystem.OverlayFs.Symlink | crates/agent-overlayfs/src/main.rs:861-887 | as for create |
| OverlayFileSystem.OverlayFs.EnsureUpperForWrite | crates/agent-overlayfs/src/main.rs:553-578 | the steps of a copy-up end in the state `OverlayState.EnsureUpper` gives |
| OverlayFileSystem.OverlayFs.Write | crates/agent-overlayfs/src/main.rs:1054-1077 | as for create, for opening an existing file, truncating it or not, and one write, at an offset or appending; and the view afterwards, byte by byte |
| OverlayFileSystem.OverlayFs.SetAttr | crates/agent-overlayfs/src/main.rs:757-795 | as for create, for length and mode; and the view afterwards, byte by byte and bit by bit |
| OverlayFileSystem.OverlayFs.RemoveAndUpdateWhiteout | crates/agent-overlayfs/src/main.rs:669-717 | the removal's steps end in the state `OverlayState.RemoveNode` gives, or fail without an effect |
| OverlayFileSystem.OverlayFs.Unlink | crates/agent-overlayfs/src/main.rs:840-847 | as for create |
| OverlayFileSystem.OverlayFs.Rmdir | crates/agent-overlayfs/src/main.rs:849-859 | as for create; refused if the merged listing is not empty |
| OverlayFileSystem.OverlayFs.Rename | crates/agent-overlayfs/src/main.rs:889-909 | as for create |
| OverlayFileSystem.OverlayFs.MergedDirEntries | crates/agent-overlayfs/src/main.rs:593-653 | filling the map from `lower` and then `upper` gives exactly the names no whiteout hides, `upper`'s kind first |
| OverlayFileSystem.OverlayFs.Lookup | crates/agent-overlayfs/src/main.rs:514-542 | below a visible directory, a path named from the root of the mount is found exactly if the env sees what the same names lead to from the visible root, with its kind and its permanent inode number |
| OverlayFileSystem.OverlayFs.Readdir | crates/agent-overlayfs/src/main.rs:1112-1157 | answers one page of the full listing, whose numbers are the ones lookup gives |
| OverlayRefinement.ListingAgreesWithView | crates/agent-overlayfs/src/main.rs:593-653 | a name is listed with a kind exactly if the child is visible with that kind; a listing fails exactly where `lower` has a file |
| OverlayFileSystem.ListingIsStable | crates/agent-overlayfs/src/main.rs:1112-1157 | a listing reads the same at every later call, so pages of different calls fit together |
| Listings.InodeTable.Intern | crates/agent-overlayfs/src/main.rs:1158-1186 | paths and numbers stay inverse to one another, and no number is ever reassigned |
| Listings.PagesCoverListing | crates/agent-overlayfs/src/main.rs:1142-1152 | reading on from the returned offsets yields the listing, each entry once, for any page sizes |
| Listings.SortedNamesListsOnce | crates/agent-overlayfs/src/main.rs:593-653 | the ordered listing has every name exactly once |
| Listings.SortedNamesAscend | crates/agent-overlayfs/src/main.rs:593-653 | in ascending order: of any two names the earlier is the beginning of the later or has the smaller character where they first differ |
| TreeComparison.PathsEquivalentIsExact | crates/agent-core/src/desktop.rs:1553-1618 | the deep comparison of two places answers whether what is below them is equal in kind, mode, bytes, targets and children, and fails exactly below a non-directory, with ENOTDIR |
| TreeComparison.PathsEquivalentIsEquivalence | crates/agent-core/src/desktop.rs:1553-1618 | it is reflexive, symmetric and transitive |
| TreeComparison.ChangedPathsByWalk | crates/agent-core/src/export.rs:84-137 | lists exactly the added, shallowly changed and deleted paths outside runtime-only trees as they are found, links on the way followed, and fails exactly on trees that are not comparable |
| TreeComparison.ComparedByNames | crates/agent-core/src/export.rs:179-186 | the paths compared, by their names from the root: all but the root whose first name is none of five |
| TreeComparison.ChangesSeenExactly | crates/agent-core/src/export.rs:84-137 | the paths found are exactly the changes if and only if nothing behind a link passes for a node |
| TreeComparison.LinkTurnedDirectoryHides | crates/agent-core/src/export.rs:100-112 | a link that became a directory hides additions that are the same behind the link |
| TreeComparison.NoChangesMeansAgreement | crates/agent-core/src/export.rs:84-137 | the list is made and empty exactly if the trees agree there, whatever lies behind links |
| TreeComparison.FileTurnedDirectoryIsNotComparable | crates/agent-core/src/export.rs:100-112 | a file that became a directory with content makes the walk fail |
| CommitSteps.ApplyUpperPathEffect | crates/agent-core/src/desktop.rs:1425-1470 | what applying one node changes and what it leaves, and that it fails exactly below a non-directory |
| CommitSteps.ApplyAtMeans | crates/agent-core/src/desktop.rs:1425-1440 | at any place: fails exactly below a non-directory, or where a directory is to be made over a link that leads to nothing, each with its error; else the node is there |
| CommitSteps.ApplyToLowerShows | crates/agent-core/src/desktop.rs:966-982 | copying an upper node into the snapshot beneath it changes nothing the env sees |
| CommitSteps.RemoveFromLowerShows | crates/agent-core/src/desktop.rs:988-1004 | deleting a whited-out path from the snapshot changes nothing the env sees |
| StorageCleanup.CleanupAppliedEntries | crates/agent-core/src/desktop.rs:1489-1537 | clearing goes leaf by leaf, removes every applied file and link, and leaves no empty directory but the root |
| StorageCleanup.SortByDepth | crates/agent-core/src/desktop.rs:967-985 | every path once, none before a shallower one, or deepest first none before a deeper one |
| CommitSafety.EnsureNoHostConflictMeans | crates/agent-core/src/desktop.rs:1415-1423 | at any two places of the disk: the check passes exactly if forced or what is found at both is the same, and reports a conflict exactly if it is not forced, both can be looked up and what is found differs; any other failure is a non-directory in the way |
| CommitSafety.UppersSafe | crates/agent-core/src/desktop.rs:966-983 | with no link on the way to the source, applying the upper entries keeps the view and, unforced, every host edit at every moment, and puts each on host and snapshot; on a host that has the source it succeeds where the two agreed on them, and unforced it ends in a conflict exactly where they did not |
| CommitSafety.DeletionsSafe | crates/agent-core/src/desktop.rs:985-1005 | with no link above a deleted path, the deletions do the same; they fail by a conflict or by a non-directory in the way, by a conflict only where host and snapshot disagreed on what the env wrote or deleted, and where no file is in the way, unforced, only by a conflict |
| CommitSafety.WholeViewKept | crates/agent-core/src/desktop.rs:1489-1537 | the whole view stays the same if every hollow directory is in the snapshot with the same mode, and once they are cleared only then |
| HostCommit.EnvCommit.ApplyUpperPathAt | crates/agent-core/src/desktop.rs:1425-1470 | applying a node at a place takes three calls, and the state after each of them is the one the specification has |
| HostCommit.EnvCommit.ApplyUpperEntries | crates/agent-core/src/desktop.rs:966-983 | the loop's result, its states and every state after a call in between are those of applying the entries one after the other, where their paths lead |
| HostCommit.EnvCommit.ApplyDeletions | crates/agent-core/src/desktop.rs:985-1005 | the same for the markers, passing over what is none |
| HostCommit.EnvCommit.ApplyPathPreservingOverlay | crates/agent-core/src/desktop.rs:952-1009 | host and snapshot become what the two halves make of them, whatever links are in the way; with none in the way, after every single call the env sees below the source what it saw and, unforced, no host edit is lost, whether the commit succeeds or stops; on success the layers are empty there and the host has every node and deletion of the env; where it finds a host edit at what the env wrote, or within reach at what it deleted, it ends with a conflict |
| HostCommit.CommittedDelivers | crates/agent-core/src/desktop.rs:952-1009 | unforced, it succeeds if and only if host and snapshot agreed on all that was written or deleted and no deletion lies below a file of the env; then the snapshot, and the host wherever they agreed, is the old view; when the whole view is unchanged; and on a host that has the source when it ends with a conflict: unforced always if they disagreed on what was written, and with no file above a deletion exactly if they disagreed at all; where they agreed it can only fail with ENOTDIR |
| CommitThroughLinks.DeletionTakesAway | crates/agent-core/src/desktop.rs:988-1004 | one unforced deletion, for any links: when it goes through, and what it takes away at the place the host's path leads to and at the one the snapshot's path leads to, which may be on the host as well |
| CommitThroughLinks.DeletionLosesExactly | crates/agent-core/src/desktop.rs:988-1004 | it loses a host edit if and only if the check passes and one lies at either place |
| CommitThroughLinks.CommitLosesExactly | crates/agent-core/src/desktop.rs:952-1009 | an unforced commit, for any links below the source: the upper entries lose no edit, and the whole loses one if and only if a deletion comes about and meets one |
| CommitThroughLinks.MovedFileIsLost | crates/agent-core/src/desktop.rs:988-1004 | a directory moved away behind a link: the commit succeeds and the moved file is gone from the host |
| CommitThroughLinks.MovedBehindLinkHappens | crates/agent-core/src/desktop.rs:988-1004 | a host and an env for which that is so |
| CommitForecast.LossForeseen | crates/agent-core/src/desktop.rs:952-1009 | for links that lead to fixed places: no deleted path leads to an edit implies no loss; on success, with no link taken away on the way of a deleted path, the converse holds too |
| CommitRuns.DeletionsStayInLower | crates/agent-core/src/path_overlay.rs:105-167 | in every run of a new env with no link in its way only paths of the snapshot are marked deleted |
| CommitRuns.FileOverDirectoryBlocksCommit | crates/agent-core/src/desktop.rs:985-1005 | in any snapshot: a run after which a deletion lies below a file, so that the commit cannot succeed |
| CommitRuns.FirstFileChangesSourceMode | crates/agent-core/src/desktop.rs:1489-1537 | in any snapshot: a run after which the commit changes a directory mode the env sees |
| CommitRuns.MatchingHostIsStraight | crates/agent-core/src/desktop.rs:985-1005 | on a host that its snapshot still matches, only a link the env made above a deletion can be in the way |
| CommitRuns.RunThenCommit | crates/agent-core/src/desktop.rs:952-1009 | new env, any run and commit with no link in the way: success exactly without a stale whiteout, ENOTDIR otherwise, and on success the host is what the run makes of it on a plain tree, directory modes aside |
| CommitRuns.LinkOverDirectory | crates/agent-core/src/path_overlay.rs:150-167 | in any snapshot: a run that ends with a deletion marked below a link the env made |
| CommitRuns.MadeLinkLosesFile | crates/agent-core/src/desktop.rs:985-1005 | the unforced commit after that run takes a file off a matching host that the env still sees |
| CommitRuns.AbsoluteLinkLosesEdit | crates/agent-core/src/desktop.rs:985-1005 | with an absolute link, it takes away what the host has behind the link, edited or not |
| DirectoryBuffer.EntryRecordSizeFits | drivers/windows-minifilter/driver.c:1759-1777 | the computed record size covers the record and stays inside the rounded-up rest of the buffer |
| DirectoryBuffer.RecordMeans | drivers/windows-minifilter/driver.c:2909-2913 | a record is the bytes behind its link up to the end of the name, and the name as many bytes as the length field says, lowest byte first |
| DirectoryBuffer.AppendDirectoryEntry | drivers/windows-minifilter/driver.c:1779-1799 | a record is refused exactly if it does not fit the output; otherwise it is copied, rounded up and past the buffer it lies in if that ends before, its link cleared and the previous link set, all else unchanged |
| DirectoryBuffer.FilterEntries | drivers/windows-minifilter/driver.c:2901-2938 | for every well-formed chain in a buffer of the query's capacity, and whatever lies behind it, reading the output yields exactly the records not hidden, in order, to a zero link; without the last one exactly if nothing is hidden and its rounded-up end is past the capacity; and exactly when copying reads past the buffer |
| DirectoryBuffer.SnugBufferStaysEmpty | drivers/windows-minifilter/driver.c:1779-1799 | a buffer of exactly the size of its one record, no multiple of 8, gets nothing; with the padding it gets the record |
| DirectoryBuffer.HiddenEntryReadsPast | drivers/windows-minifilter/driver.c:1779-1799 | a hidden record before a shown one that ends with the buffer: the buffers for which copying reads past |
| DirectoryCursor.AppendUpperDirectoryEntries | drivers/windows-minifilter/driver.c:2700-2861 | over any batches the loops compute one enumeration of the whole listing behind the cursor |
| DirectoryCursor.DirState.QuerySingle | drivers/windows-minifilter/driver.c:2944-2978 | one single-entry query: its answer and the new cursor as a function of the listing and the old cursor |
| DirectoryCursor.DirState.QueryMerged | drivers/windows-minifilter/driver.c:2979-2999 | one query for all entries: its answer and the new state |
| DirectoryCursor.DirState.UpdateCursor | drivers/windows-minifilter/driver.c:2660-2682 | the new cursor and exhaustion mark, the cursor dropped at the end |
| DirectoryCursor.DirState.Reset | drivers/windows-minifilter/driver.c:2586-2611 | a reset directory starts over |
| DirectoryCursor.SingleEnumeration | drivers/windows-minifilter/driver.c:2586-2978 | from reset, over names distinct up to case, repeated queries yield every shown entry once in order and then nothing, if and only if each fits the buffer |
| DirectoryCursor.BehindMeans | drivers/windows-minifilter/driver.c:2790-2797 | an enumeration goes on behind the first entry whose name equals the cursor's in upper case, and finds nothing if there is none |
| DirectoryCursor.MisfitRestarts | drivers/windows-minifilter/driver.c:2810-2822 | meeting an entry that does not fit answers nothing and forgets the cursor |
| DirectoryCursor.DirState.PostQuery | drivers/windows-minifilter/driver.c:2863-3018 | one single-entry query over both layers: a lower entry that shows, or the upper half in place of a hidden one and at the end |
| DirectoryCursor.SingleListing | drivers/windows-minifilter/driver.c:2863-3018 | asking until there are no more yields every entry of both layers that should be seen once, if and only if all fit and no lower entry that shows comes after more hidden ones than there are upper ones |
| DirectoryCursor.DeletedEntryEndsListing | drivers/windows-minifilter/driver.c:2939-3018 | with no upper entries, a deleted lower entry ends the listing before the ones behind it |
| DirectoryCursor.DirState.PostQueryAll | drivers/windows-minifilter/driver.c:2863-3018 | one query for as many entries as fit over both layers: what passes of the lower batch, or the upper half for a hidden batch and at the end |
| DirectoryCursor.AllListing | drivers/windows-minifilter/driver.c:2863-3018 | asking so until there are no more yields every entry of both layers that should be seen once, if and only if batches and upper entries fit and no batch that shows comes after a hidden one with nothing to stand in |
| DirectoryCursor.SecondHiddenBatchEndsListing | drivers/windows-minifilter/driver.c:2939-3018 | after one hidden batch the next one ends the listing |
| DirectoryCursor.MergedEnumeration | drivers/windows-minifilter/driver.c:2979-2999 | a query for all entries yields them once if they fit together; otherwise every query repeats the same answer |
| EnvTable.DupUserString | drivers/windows-minifilter/driver.c:217-240 | copies the text before the first NUL, character by character; refuses exactly the fields that hold none or an empty one, and otherwise fails only on the allocation |
| EnvTable.EnvList.FindEnv | drivers/windows-minifilter/driver.c:1944-1953 | finds the process's entry exactly if there is one |
| EnvTable.EnvList.CloneEnv | drivers/windows-minifilter/driver.c:1969-1995 | a copy with the same env id and roots, inserted if asked, nothing on a failed allocation |
| EnvTable.EnvList.SnapshotEnv | drivers/windows-minifilter/driver.c:1997-2009 | a snapshot equals the table's entry |
| EnvTable.EnvList.Register | drivers/windows-minifilter/driver.c:3030-3057 | registers exactly a complete request, replacing an older entry of the process: env id and the four roots are the texts before the first NUL of the request's fields of the same names; the table is unchanged otherwise, and the status says why |
| EnvTable.EnvList.Unregister | drivers/windows-minifilter/driver.c:3059-3070 | takes out exactly that process's entry |
| EnvTable.EnvList.ProcessCreated | drivers/windows-minifilter/driver.c:3072-3092 | a child of a managed process gets its entry unless it has one; creation fails exactly if the copy cannot be allocated |
| EnvTable.EnvList.ProcessExited | drivers/windows-minifilter/driver.c:3078-3081 | an exited process's entry is taken out |
| EnvTable.EnvList.Message | drivers/windows-minifilter/driver.c:3124-3151 | which requests succeed, which status the others get, and what each does to the table; a registration takes every field from the request's field of the same name |
| EnvTable.EntriesComeFromRegistrations | drivers/windows-minifilter/driver.c:3030-3092 | over all histories, a process has an environment if and only if an unbroken line of creations leads to it from a registration |
| EnvTable.ChildInherits | drivers/windows-minifilter/driver.c:3072-3092 | a child keeps its parent's environment, whatever becomes of the parent, until it exits or is registered anew or unregistered |
| EnvTable.ExitForgets | drivers/windows-minifilter/driver.c:3078-3081 | after its exit a process has no entry exactly if its id fits 32 bits or it had none |
| TmpNames.TmpNamesDiffer | crates/agent-core/src/storage.rs:428-439 | temporary names of different files, processes or counts differ |
| TmpNames.TmpNameReads | crates/agent-core/src/storage.rs:428-439 | the name starts with a dot and the file's name, then come process id and count in decimal and the suffix |
| TmpNames.TmpIsNotTheFile | crates/agent-core/src/storage.rs:428-439 | no temporary name is the name of the file itself |
| AtomicReplace.StepKeeps | crates/agent-core/src/storage.rs:353-412 | every step of every writer, every kill and power loss keeps the protocol's invariant |
| AtomicReplace.AtomicReplacement | crates/agent-core/src/storage.rs:353-412 | in every interleaving with crashes the visible and the durable target are the initial content or one writer's complete content, its payload with a line feed behind it if asked for; and writers that finished or cleaned up have left no temporary file |
| AtomicReplace.LastsExactlyWhenOnDisk | crates/agent-core/src/storage.rs:414-426 | a replacement outlasts everything that may follow if and only if it is on disk |
| AtomicReplace.FinishedWriteLasts | crates/agent-core/src/storage.rs:394-421 | with the directory synced, after a write has returned the target is always its content or a later one |
| AtomicReplace.PowerLossAfterFinish | crates/agent-core/src/storage.rs:414-426 | what a power loss right after a finished write leaves, with and without the directory's sync |
| MetadataStore.AloneMeans | crates/agent-core/src/storage.rs:394-412 | what a writer does before its rename touches nothing but its temporary file |
| MetadataStore.Storage.WriteTmpAndRename | crates/agent-core/src/storage.rs:394-412 | the sequential code is a run of the protocol; its outcome for every call that may fail |
| MetadataStore.Storage.Replace | crates/agent-core/src/storage.rs:353-382 | success exactly if no call failed; then the target is the payload, with one line feed (10) behind it if asked for, and nothing else differs; on an error nothing differs, except after a failed directory sync |
| PosixQuoting.JoinRoundTrip | crates/agent-core/src/command.rs:972-993 | tokenising a joined argument list by sections 2.2.1, 2.2.2 and 2.3 of POSIX.1-2017 Shell Command Language gives the arguments back |
| PosixQuoting.JoinIsInjective | crates/agent-core/src/command.rs:972-993 | different argument lists are never joined to the same text |
| PosixQuoting.BareIfPlain | crates/agent-core/src/command.rs:972-993 | which arguments stand as they are: the nonempty ones of letters, digits and seven other characters; all others are between single quotes |
| PosixQuoting.NestedRoundTrip | crates/agent-core/src/session.rs:101-118 | token by token, for any session and command: the outer shell makes the transcripts' directory and has tmux open a session of that name; what tmux runs is a login bash with one text; that text sends its output to the session's transcript and executes exactly the user's arguments |
| WindowsQuoting.QuoteWindowsArg | crates/agent-minifilterctl/src/main.rs:567-593 | the loop with its count of pending backslashes writes the quoted form that the round trip is about |
| WindowsQuoting.BareUnlessNeeded | crates/agent-minifilterctl/src/main.rs:567-574 | which arguments stand as they are: the nonempty ones without blank, tab, line end or quote |
| WindowsQuoting.WindowsCommandLine | crates/agent-minifilterctl/src/main.rs:560-565 | the line is the quoted arguments joined by blanks |
| WindowsQuoting.CommandLineRoundTrip | crates/agent-minifilterctl/src/main.rs:560-593 | parsing the line by the Microsoft C rules gives the arguments back, whatever they contain |
| ExitTrailer.OutputBuffer.ParseChildExitStatus | crates/agent-core/src/nspawn.rs:400-411 | the status read and the buffer cut back, or nothing changed |
| ExitTrailer.TrimMeans | crates/agent-core/src/nspawn.rs:408-408 | trimming takes away white space only, and all of it at both ends |
| ExitTrailer.FirstLineMeans | crates/agent-core/src/nspawn.rs:404-407 | the line goes up to the first newline, or to the end |
| ExitTrailer.ParseI32Means | crates/agent-core/src/nspawn.rs:408-408 | the status is read from an optional sign and digits, and only if it fits 32 bits |
| ExitTrailer.TrailerRoundTrip | crates/agent-core/src/nspawn.rs:212-214 | for every output, even one holding markers, and every 32-bit status, reading gives the status and the output back |
| Descendants.DescendantPids | crates/agent-core/src/desktop.rs:1187-1210 | ends on every listing and returns, without duplicates, exactly the processes reachable by one or more parent links |

## Left out

- Renames of directories in the overlay: `rename` moves one layer's subtree only.
- What the other operations do at a path whose link leads to nothing, and a link whose target appears or vanishes in the middle of an operation, beyond what the source tests at its beginning.
- Opening a file for appending and truncation at once, which the standard library refuses.
- Fallback roots, virtual directories and the ready file of the mount; requests on the mount's own root beyond lookup and listing.
- The process's umask, timestamps, ownership and extended attributes.
- TreeComparison.ChangedPathsByWalk: does not compare owners, which the source does on Unix: nodes have none in the model.
- DirectoryCursor.AppendUpperDirectoryEntries: a record's size is fixed per entry, and a whiteout check that fails is not modelled, because both come from calls into the file system.
- File handles: opening and writing is one step, and handles that outlive an unlink or rename are not modelled.
- Names equal to `.agentfs-whiteout-dir` in visible paths, which the whiteout encoding reserves.
- The counts an apply reports, and the rendering and sorting of path listings as text.
- A link that leads into the directories of `upper` or `whiteouts`: places are on the host or in the snapshot.
- A source root that is not a visible directory, or not a directory of the snapshot, when applying.
- Failures in the middle of one filesystem call; a read error while walking a tree.
- The driver's list of directory states by file object, and failed allocations during a query: one open directory is modelled; `.` and `..` are taken as absent from upper listings.
- The driver's redirects, renames, deletions, reparse points, security descriptors and streams.
- Parsing the output of `ps`: the descendant closure starts from the parsed rows.
- Wrap-around of the 64-bit temporary-file counter, and file names that are not UTF-8.
- JSON serialisation, and creating the metadata directory's parents.
- Reordering of directory operations by the disk: they reach it in the order they were made.
- The parsing rule for a program name at the head of a Windows command line: each word is read as an ordinary argument.
- Shell constructs beyond quoting and `&&`: the reader gives up on them; NUL characters in arguments.
- FUSE and chroot plumbing, systemd-nspawn, Btrfs, tmux, the user interface and the HTTP server.
