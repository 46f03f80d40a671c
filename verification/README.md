# OmniGateway kernels, modelled and proved in Dafny

OmniGateway is mostly I/O around a set of small stateful kernels whose comments promise a great deal: a lock
that loses no wakeup, a ceiling that is never exceeded, a restore that is survivable whichever step fails, an
archive reader that cannot be led out of its directory. This project models those kernels and proves the promises
for every input, every interleaving and every failing step, or says exactly when they do not hold.

`dafny verify dfyconfig.toml` checks everything.

## How the model is laid out

| file | kernel | main results |
|---|---|---|
| `Mutex.dfy` | `withLock` of the in-memory coordinator | mutual exclusion, an entry exactly while a body runs, no lost wakeup, every caller settles and is told the truth |
| `Gauge.dfy` | holder-named gauges with expiry | the gauge is its history's set of live holders; a ceiling judged on `acquire` holds |
| `Buckets.dfy` | bucketed sliding counters | the sum lies between the traffic of the window and of the window widened by less than one grain |
| `Lease.dfy` | leases, and the fleet protocol `underLease` | when two nodes never run the body of one lease at once, exactly |
| `Kv.dfy`, `Sessions.dfy` | TTL store, session authority on top of it | `verify` answers a principal if and only if the history of the token says so |
| `Tar.dfy`, `Frames.dfy`, `Ustar.dfy` | the archive reader, any bytes as frames, and a ustar printer | which bytes are accepted, why others are refused and what is held; the reader undoes the printer; truncation; containment |
| `Install.dfy` | the staged plugin installer | the target is never a mixture, whatever step throws; when the old version is lost; when what is installed is what was judged |
| `Retention.dfy`, `Swap.dfy` | snapshots, retention, restore and import | the database is whole in every state, the undo exists before the close, which failures are swap failures |
| `Quiesce.dfy` | the admission latch | exact count, when a closer's wakeup is lost, drained means drained |
| `Stream.dfy` | the stream fold `collect` | what every stream collects to, field by field; interleaving and chunking do not matter; any rendered response is recovered |
| `Request.dfy`, `Tokens.dfy`, `Validate.dfy` | request normaliser and token estimators | normal form, idempotence, never a larger estimate; everything a request carries is counted; the walks agree |
| `Csv.dfy`, `LogExport.dfy` | CSV cells and the paging export | parses back under section 2 of RFC 4180; no cell starts a formula; every row once |
| `Tail.dfy`, `FrameSink.dfy` | log readers, bounded frame sink | gap-free reads are exact; the sink is the longest suffix that fits |
| `Wrappers.dfy`, `Collections.dfy`, `Paths.dfy`, `Text.dfy` | shared | results and options, members of non-empty collections, where relative names lead, white space |

Conventions. JavaScript runs the code between two awaits without interruption, so each such stretch is one atomic
step; promises are numbers, resolved when they are in a set. An object the source updates in place is a class whose
methods are tied to specification functions, and the theorems are about those functions or about whole runs of them.
A step that may throw consults a set of failing sites, so "under failure at any step" is a quantifier, over every
combination of failures and not just single ones. Clocks, random tokens, generated ids, hashes, `JSON.parse`,
`JSON.stringify`, file contents and page contents are parameters. Integers are unbounded; the safe-integer test of
the tar reader is written out. Every lemma is proved without automatic induction.

## Where a promise needs a condition

The first two contradict the source's own comments; the model follows the code. Each has a member that exhibits the
failure, and a theorem that says exactly when the promise holds.

- An ordinary restore failure can leave the candidate live. `packages/control/src/database.ts:455-457` says every
  failure but a failed swap leaves the live database untouched; a password-hash read that throws after the reopen
  is an ordinary error although the swap has succeeded (`Swap.OrdinaryFailureAfterSwap`; the condition is in
  `Swap.Installation.RestoreSnapshot` and `Swap.Installation.ImportSnapshot`).
- A plugin install can lose the old version. `packages/control/src/plugins.ts:1144-1147` promises that an install
  that fails halfway leaves the previous version serving; when the last rename throws, the old tree has already been
  removed (`Install.RenameFailureLosesBoth`; the condition is in `Install.PluginRoot.InstallPlugin`).
- What the write-ahead log held is lost when the close did not merge it, the log is unlinked, and the swap fails before
  the rename (`Swap.UnmergedLogIsLost`; `Swap.Installation.SwapIn` says exactly when every state is safe and which
  database is left).
- An upload stays behind when it is refused before the swap consumes it and its unlink throws (`Swap.UploadStaysBehind`;
  the if-and-only-if is in `Swap.Installation.ImportSnapshot`).
- A staging tree stays behind when a clean-up throws (`Install.StageStaysBehind`; the if-and-only-if is in
  `Install.PluginRoot.InstallPlugin`).
- What is installed may not be what was judged: names are joined onto the stage as a filesystem reads them, so a second
  spelling such as `./omni-plugin.json` overwrites the manifest whose id was agreed
  (`Install.SecondSpellingReplacesManifest`). The target holds every payload file's bytes if and only if no two names that
  lead to one place carry different bytes (`Install.InstalledTree`), and the judged manifest if and only if the last file
  that leads to its place has the judged bytes (`Install.InstalledManifest`).
- A lease renewed with a shorter TTL admits a second node while the first body runs
  (`Lease.ShorterRenewalAdmitsSecondNode`); `Lease.SafeIffCovered` says exactly which asks are harmless, and one TTL per
  name makes all of them so (`Lease.LeaseSafety`).
- An unnamed gauge release may take a named holder's slot (`Gauge.AnonymousReleaseMayDropNamed`), exactly when that slot
  is the first of those that expire soonest (`Gauge.AnonymousReleaseSparesName`).
- A seed that carries two rows of one bucket keeps only the last (`Buckets.SecondRowReplacesFirst`); every row counts if
  and only if no two are in one bucket (`Buckets.SeedCountsEveryRow`).
- A closer that overlaps another can be stranded until its deadline (`Quiesce.OverlapExample`,
  `Quiesce.LateWakeExample`), over every run exactly when another close starts or returns while it is registered
  (`Quiesce.StrandedExactly`).
- A cache marker nested in a tool result counts in a message and not in the system prompt
  (`Tokens.NestedMarkInSystemIsMissed`); `Tokens.ZeroMeansUnmarkedUnless` says exactly when that shows.
- A second retention pass can remove a snapshot if the directory is then listed in another order
  (`Retention.RelistingMayRemove`), exactly when the last survivor stays only for being the undo and shares its instant
  with the one before it (`Retention.SecondPassInAnyOrder`).
- Normalising twice differs from normalising once exactly when an id that had to be made was empty
  (`Validate.EmptyGeneratorIsNotIdempotent`, `Validate.ValidateIsIdempotent`).
- A truncated archive goes unnoticed (`Ustar.CutGoesUnnoticed`) if and only if the cut is not inside an entry's body
  (`Ustar.TruncatedArchive`, which also says which files are then read).
- A short backward read of the log goes unnoticed (`Tail.ShortReadGoesUnnoticed`); the answer is the true end of the file,
  whatever the buffers held, if and only if every read that went into it gave all it was asked for (`Tail.TailIsTrue`).

## Model

| member | source | states |
|---|---|---|
| `Mutex.LockTable.Attempt` | packages/coord/src/index.ts:453-467 | one look at the table either names the promise to wait on or publishes a fresh one under the key |
| `Mutex.LockTable.Release` | packages/coord/src/index.ts:470-473 | leaving forgets the entry and resolves the holder's promise, in one step |
| `Mutex.StepKeepsInv` | packages/coord/src/index.ts:441-474 | every step of every caller (call, wake by release, timer, wake by expiry, body ending or throwing) keeps the protocol invariant |
| `Mutex.MutexSafety` | packages/coord/src/index.ts:441-474 | in every run: at most one body per key, an entry in the table exactly while one runs, and an unresolved waiter always waits on the current holder's promise |
| `Mutex.SomethingCanMove` | packages/coord/src/index.ts:452-474 | while any caller is unsettled, a step other than a new call is possible |
| `Mutex.EveryCallerSettles` | packages/coord/src/index.ts:441-474 | from any point of any run the callers present take boundedly many further steps, and when none is left every one of them has its answer |
| `Mutex.AnswersAreTrue` | packages/coord/src/index.ts:441-474 | in every run a caller is told that its body returned, or threw, exactly when it did, and that the lock was unavailable exactly when its deadline woke it, and then its body never ran |
| `Mutex.ContendedRun` | packages/coord/src/index.ts:452-474 | a run in which a second caller waits and is let in by the first, though that one threw |
| `Gauge.Gauges.LiveSlots` | packages/coord/src/index.ts:208-214 | lapsed slots are dropped for good, and an empty gauge loses its entry |
| `Gauge.Gauges.Acquire` | packages/coord/src/index.ts:272-290 | a blank name is refused with nothing changed; otherwise the new slots and the count the caller is told |
| `Gauge.Gauges.Renew` | packages/coord/src/index.ts:291-302 | only a live slot of that name moves; a lapsed one is not resurrected |
| `Gauge.Gauges.Release` | packages/coord/src/index.ts:303-317 | a named release drops that slot only, an unnamed one the slot nearest its expiry |
| `Gauge.Gauges.Read` | packages/coord/src/index.ts:318-320 | the number of unexpired slots |
| `Gauge.Gauges.Snapshot` | packages/coord/src/index.ts:321-329 | exactly the keys under the prefix with live slots, each with its count; the rest of the table is untouched |
| `Gauge.AcquireMeans` | packages/coord/src/index.ts:272-290 | as a map from holder to expiry: acquiring sets one entry, answers the number of other live holders, and never adds a second entry for a name |
| `Gauge.RenewMeans` | packages/coord/src/index.ts:291-302 | renewing moves an entry that is live and does nothing otherwise |
| `Gauge.ReleaseMeans` | packages/coord/src/index.ts:303-317 | releasing by name removes exactly that entry |
| `Gauge.AnonymousReleaseDropsNearest` | packages/coord/src/index.ts:306-309 | an unnamed release removes exactly one live slot: of those with the smallest expiry, the one taken first |
| `Gauge.SortHead` | packages/coord/src/index.ts:309 | the head of the stable sort is that slot |
| `Gauge.AnonymousReleaseSparesName` | packages/coord/src/index.ts:306-309 | a named holder loses its slot to an unnamed release if and only if its slot is that one |
| `Gauge.AnonymousReleaseMayDropNamed` | packages/coord/src/index.ts:306-309 | a gauge on which it removes a named holder's slot |
| `Gauge.ReplayMatches` | packages/coord/src/index.ts:194-214 | after any run with a monotone clock the slots are exactly the holders whose last acquire or renewal, by the history alone, has not lapsed or been released |
| `Gauge.GaugeCountsHolders` | packages/coord/src/index.ts:271-330 | so `read` is the number of distinct unexpired holders and `acquire` the number of other ones, over every run |
| `Gauge.CeilingHolds` | packages/coord/src/index.ts:276-289 | callers who keep a slot only when told fewer than L never hold more than L live slots between them, even while refused callers have yet to release theirs |
| `Gauge.CeilingIsRead` | packages/coord/src/index.ts:318-320 | once every refused caller has let go, `read` itself is at most L |
| `Buckets.DropBefore` | packages/coord/src/index.ts:226-231 | the deletion loop keeps exactly the buckets at or after the oldest |
| `Buckets.AddUp` | packages/coord/src/index.ts:353-359 | the summing loop gives the total over the held buckets |
| `Buckets.BucketTable.TrimBuckets` | packages/coord/src/index.ts:226-231 | a key keeps its seeded status even when every bucket goes |
| `Buckets.BucketTable.Add` | packages/coord/src/index.ts:333-348 | an unseeded key stays unseeded; otherwise the delta lands in the bucket of the instant |
| `Buckets.BucketTable.Sum` | packages/coord/src/index.ts:349-360 | null for a never-seeded key, otherwise the total of what the trim left |
| `Buckets.BucketTable.Seed` | packages/coord/src/index.ts:361-367 | the rows replace what was held, a later row of a bucket replacing an earlier one |
| `Buckets.SumIsBucketTotal` | packages/coord/src/index.ts:332-360 | for every run asked about no earlier than it happened, with a fixed grain and window, requests, tokens and cost are each the plain sum of everything recorded in the window's buckets, though trimming destroyed the rest |
| `Buckets.SumBracketsWindow` | packages/coord/src/index.ts:223-231 | and so, for whatever traffic lies behind the rows and deltas (each amount in its row's bucket, adding up to it), requests, tokens and cost are each at least their true sliding-window total and at most the total over the window widened by less than one grain |
| `Buckets.BucketIsMultiple` | packages/coord/src/index.ts:223 | a bucket starts at the one multiple of the grain at or before the instant and less than a grain away |
| `Buckets.NullUntilSeeded` | packages/coord/src/index.ts:336-339 | whatever is added, a key that was never seeded answers null |
| `Buckets.SeedCountsEveryRow` | packages/coord/src/index.ts:361-366 | every seed row counts if and only if the rows are in distinct buckets |
| `Buckets.SecondRowReplacesFirst` | packages/coord/src/index.ts:361-366 | two rows of one bucket leave the second only |
| `Lease.LeaseTable.Acquire` | packages/coord/src/index.ts:371-379 | granted unless another holder's grant is unexpired; the grant is then this holder's for one TTL |
| `Lease.LeaseTable.Release` | packages/coord/src/index.ts:380-383 | only the holder's own grant is removed |
| `Lease.UnderLease` | apps/gateway/src/lease.ts:18-29 | the body runs exactly when there is no coordinator or the lease is granted |
| `Lease.LeaseSafety` | apps/gateway/src/lease.ts:18-29 | over every run of a fleet with one TTL per name, a monotone clock and bodies shorter than it, two nodes never run one lease's body at once |
| `Lease.CoveredRunsAreSafe` | apps/gateway/src/lease.ts:18-29 | so it is, with any TTLs, over every run in which no ask cuts short the lease of a job its own node still runs |
| `Lease.UncoveredAskAdmitsSecondNode` | packages/coord/src/index.ts:371-379 | after an ask that does, from any safe state, a run in which another node gets in beside that job |
| `Lease.SafeIffCovered` | packages/coord/src/index.ts:371-379 | an ask is harmless in every such continuation if and only if it cuts no running job of its own node short |
| `Lease.ShorterRenewalAdmitsSecondNode` | packages/coord/src/index.ts:371-379 | a run with two TTLs for one name in which they do |
| `Kv.Store.Set` | packages/coord/src/index.ts:417-420 | the value is served until its TTL has passed |
| `Kv.Store.Get` | packages/coord/src/index.ts:421-429 | a live value or nothing; an expired entry is deleted, and no other |
| `Kv.Store.Del` | packages/coord/src/index.ts:430-433 | the key goes and nothing else does |
| `Kv.Store.DelPrefix` | packages/coord/src/index.ts:434-437 | exactly the keys with the prefix go |
| `Sessions.AdminAuth.IssueSession` | packages/control/src/adminAuth.ts:130-139 | the session is stored under its kind and digest with the session TTL |
| `Sessions.AdminAuth.LookupSession` | packages/control/src/adminAuth.ts:150-157 | the first kind under which the token's digest has a live entry |
| `Sessions.AdminAuth.SetPassword` | packages/control/src/adminAuth.ts:198-207 | a short password changes nothing; otherwise the hash changes and every session ends |
| `Sessions.AdminAuth.ChangePassword` | packages/control/src/adminAuth.ts:223-245 | the length rule answers before the current password is looked at |
| `Sessions.AdminAuth.Login` | packages/control/src/adminAuth.ts:247-251 | an admin session exactly when the password opens the stored hash |
| `Sessions.AdminAuth.SetViewerPassword` | packages/control/src/adminAuth.ts:257-267 | viewer sessions end and no other does |
| `Sessions.AdminAuth.LoginViewer` | packages/control/src/adminAuth.ts:269-273 | a viewer session exactly when the password opens the stored hash |
| `Sessions.AdminAuth.LoginClient` | packages/control/src/adminAuth.ts:275-283 | a client session exactly for a usable key |
| `Sessions.AdminAuth.VerifyToken` | packages/control/src/adminAuth.ts:285-302 | the principal, or nothing with the entry deleted when it has lapsed or its key is unusable |
| `Sessions.AdminAuth.LogoutToken` | packages/control/src/adminAuth.ts:304-307 | the token's entry goes |
| `Sessions.AdminAuth.InvalidateSessions` | packages/control/src/adminAuth.ts:309-311 | every session ends |
| `Sessions.AdminAuth.InvalidateKind` | packages/control/src/adminAuth.ts:313-315 | every session of one kind ends, and no other: the kinds' prefixes do not overlap |
| `Sessions.ReplayRefines` | packages/control/src/adminAuth.ts:113-157 | after every history the stored entries are exactly the standing sessions of the history, for an injective digest, fresh tokens and a monotone clock |
| `Sessions.SessionAuthority` | packages/control/src/adminAuth.ts:285-302 | `verify` answers p if and only if the token was issued for p less than one TTL ago, nothing since ended that session (logout, admin password change, full or kind invalidation, an earlier verify that found its key unusable), and a client's key is usable now |
| `Sessions.ViewerPasswordSparesOthers` | packages/control/src/adminAuth.ts:264-266 | setting the viewer password, at any moment of any history, changes no admin's or client's verify at any later moment |
| `Tar.DecodedMeans` | packages/control/src/plugins.ts:505-512 | decoding drops a leading byte order mark and nothing else |
| `Tar.UpToNulMeans` | packages/control/src/plugins.ts:508-512 | a field is read up to its first zero byte |
| `Tar.OctalNumberMeans` | packages/control/src/plugins.ts:514-519 | a size field is blanks, perhaps a sign, octal digits and whatever follows: zero when blank, the number when it is not negative and a safe integer, otherwise unreadable |
| `Tar.NoNumber` | packages/control/src/plugins.ts:514-519 | and unreadable without a digit where one is due |
| `Tar.StripNulsMeans` | packages/control/src/plugins.ts:613-614 | a long name loses its trailing zero bytes and nothing else |
| `Paths.SplitMeans` | packages/control/src/plugins.ts:525 | the components of a path hold no slash and make the path when put together again |
| `Tar.ReadAt` | packages/control/src/plugins.ts:556-637 | one header and body at an offset, with the size, truncation and ceiling refusals |
| `Tar.ReadTar` | packages/control/src/plugins.ts:556-637 | the offset loop computes the recursive reading of the archive |
| `Frames.ReadByFrames` | packages/control/src/plugins.ts:556-637 | any bytes at all are accepted if and only if every frame has a readable size, stays under the ceiling with those before it, is all there, is no link and, if it is a file, has a safe name (its own, or the long name that waits for it); then exactly the files of the frames are held, the last of a name staying; otherwise the first frame that fails decides the error |
| `Frames.LinksAreRefused` | packages/control/src/plugins.ts:607-612 | a header reached with type byte `1` or `2` ends the install, as a link when its body is there and nothing before it failed |
| `Tar.ParseBounded` | packages/control/src/plugins.ts:556-637 | the running total bounds what is held, and every stored path is safe |
| `Tar.AcceptedArchiveIsContained` | packages/control/src/plugins.ts:522-526 | any bytes that are accepted at all: no path leads out of the directory it is joined onto, and the files together are within the ceiling |
| `Tar.StrippedNameIsContained` | packages/control/src/plugins.ts:683-697 | nor does what is left of an accepted name when a wrapping directory is taken off it |
| `Ustar.HeaderReads` | packages/control/src/plugins.ts:508-519 | a printed ustar header is read back field by field, a byte order mark in front of a name dropped as the decoder drops it |
| `Ustar.ReaderUndoesPrinter` | packages/control/src/plugins.ts:556-637 | for every list of safe names within the ceiling (plain, prefixed or GNU long names, with directories and pax headers between) reading gives back the files |
| `Ustar.TruncatedArchive` | packages/control/src/plugins.ts:556-637 | every byte prefix is refused if and only if the cut falls inside a body, and otherwise gives exactly the files of the members before it |
| `Ustar.CutGoesUnnoticed` | packages/control/src/plugins.ts:556-637 | an archive of two files that, cut where the second one's header starts, reads as one that holds the first |
| `Ustar.UnpackIsExact` | packages/control/src/plugins.ts:556-637 | with distinct names the result is the list as a map: nothing lost, nothing added |
| `Install.PluginRoot.StageFiles` | packages/control/src/plugins.ts:1212-1216 | the stage holds, at the place each name leads to, the bytes of the last file that leads there; every file is written if and only if no step throws, no name ends in a slash and no file would have to be a directory; the target is untouched |
| `Install.PluginRoot.StageRecord` | packages/control/src/plugins.ts:1217-1229 | the record overwrites one the payload carries, and fails where the payload put a directory |
| `Install.PluginRoot.StageAndSwap` | packages/control/src/plugins.ts:1211-1231 | which step fails decides whether the target is the old tree, nothing, or the new tree |
| `Install.PluginRoot.InstallPlugin` | packages/control/src/plugins.ts:1155-1247 | refused, with nothing touched, in this order: no file of the manifest's name, the last such file does not parse, its id is not the claimed one, or not the expected one; otherwise at every moment the target is the old tree, nothing or the new one, and no other plugin changes; success is exactly what the payload's names lead to, overlaid with the record; a failure keeps the old tree unless the last rename threw; a stage stays if and only if an old one could not be cleared, or a new one was begun, did not become the target and could not be cleaned up |
| `Install.InstalledTree` | packages/control/src/plugins.ts:1212-1229 | the installed tree has a file exactly where the payload or the record leads, and holds every payload file's bytes if and only if no two that lead to one place differ |
| `Install.TreeHoldsLast` | packages/control/src/plugins.ts:1212-1216 | a place holds the bytes of the last file that leads to it, and nothing when none does |
| `Install.InstalledManifest` | packages/control/src/plugins.ts:1157-1216 | the installed manifest is the judged one if and only if the last file that leads to its place has the judged bytes |
| `Install.PlainNamesLead` | packages/control/src/plugins.ts:1213 | in a loaded payload a name without a slash, other than the two that name directories, leads to the file of that name |
| `Install.OneSpellingIsInstalled` | packages/control/src/plugins.ts:1157-1216 | so it is, for every plain name, when no other spelling leads there |
| `Install.SecondSpellingReplacesManifest` | packages/control/src/plugins.ts:1212-1216 | a payload with two spellings of the manifest's name that installs something else than was judged |
| `Install.RenameFailureLosesBoth` | packages/control/src/plugins.ts:1230-1231 | the failure after which neither version is there |
| `Install.StageStaysBehind` | packages/control/src/plugins.ts:1232-1236 | a failure after which a stage stays |
| `Retention.ListSnapshots` | packages/control/src/database.ts:244-259 | the parseable names, by descending instant, equal instants in directory order |
| `Retention.SortMeans` | packages/control/src/database.ts:258-259 | the listing is descending and has exactly the snapshots of the directory |
| `Retention.ApplyRetention` | packages/control/src/database.ts:296-314 | what the pass unlinks and what it leaves, with an age counted in days of 24 hours |
| `Retention.EverySnapshotIsDecided` | packages/control/src/database.ts:306-313 | every snapshot is left alone or unlinked, and not both |
| `Retention.NewestSurvives` | packages/control/src/database.ts:307-308 | a snapshot at least as new as every other survives |
| `Retention.NewestUndoSurvives` | packages/control/src/database.ts:300-309 | so does a pre-restore one at least as new as every other pre-restore one |
| `Retention.OthersByBothBounds` | packages/control/src/database.ts:310-312 | any other survives if and only if it is within both bounds |
| `Retention.AtMostOneOver` | packages/control/src/database.ts:306-313 | at most `keepLatest + 1` remain when `keepLatest` is at least 1 |
| `Retention.SecondPassRemovesNothing` | packages/control/src/database.ts:296-314 | a second pass at the same instant over what the first left removes nothing |
| `Retention.SecondPassInAnyOrder` | packages/control/src/database.ts:296-314 | it removes nothing in whatever order the directory is then listed, if and only if the last survivor does not both stay only for being the undo and share its instant with the one before it; distinct instants are never so |
| `Retention.SameInstants` | packages/control/src/database.ts:258-259 | two listings of the same snapshots have the same instant in every place |
| `Retention.OrderOfDirectoryIrrelevant` | packages/control/src/database.ts:258-259 | with distinct instants, the order of the directory does not matter |
| `Retention.RelistingMayRemove` | packages/control/src/database.ts:258-259 | with equal instants it can |
| `Swap.UnforcedDoomsCandidate` | packages/control/src/database.ts:400-442 | without `force`, retention would unlink the snapshot being restored exactly when it is outside either bound |
| `Swap.Installation.TakeCopy` | packages/control/src/database.ts:404-429 | the snapshot is written or nothing but debris at its own path is left; an existing name is a conflict that changes nothing |
| `Swap.Installation.WriteSnapshot` | packages/control/src/database.ts:400-442 | with `force` only the new file is touched; without it exactly the doomed snapshots of some listing go |
| `Swap.Installation.CreateSnapshot` | packages/control/src/database.ts:444-449 | refused while another operation runs; the lock is free afterwards; the live file and its log are untouched; forced, only the new file is added |
| `Swap.Installation.Prepare` | packages/control/src/database.ts:566-601 | a failure before the close changes nothing but the staging path and the undo's own path |
| `Swap.Installation.DropLog` | packages/control/src/database.ts:604-605 | the close and the unlink of the log: every state is safe unless an unmerged log is unlinked, and the database left is the old one, or the file without its log |
| `Swap.Installation.Exchange` | packages/control/src/database.ts:603-608 | from the close to the reopen: when every state is safe, and the candidate is live exactly when close, clearing and rename all went through |
| `Swap.Installation.SwapIn` | packages/control/src/database.ts:566-680 | through every state whoever opens the database finds the whole old one or the whole candidate, and the undo copy exists once the handle or the database is not what it was, if and only if no unmerged log is unlinked; a swap failure arises exactly for a failure from close to reopen; which database, undo, candidate and files are left, for every combination of failures |
| `Swap.Installation.RestoreSnapshot` | packages/control/src/database.ts:746-750 | all of that for a restore; whatever happens the restored snapshot is still there and the lock is free; an ordinary failure leaves the database alone if and only if it is not one of the two reads after a successful swap |
| `Swap.Installation.ImportSnapshot` | packages/control/src/database.ts:772-794 | all of that for an import; an import that holds the lock leaves its input path behind if and only if it is refused before the swap consumes it and the unlink throws; too large or missing is refused with the database untouched |
| `Swap.OrdinaryFailureAfterSwap` | packages/control/src/database.ts:624-627 | the ordinary failure after which the candidate is live |
| `Swap.UploadStaysBehind` | packages/control/src/database.ts:788-792 | an import whose file stays behind |
| `Swap.UnmergedLogIsLost` | packages/control/src/database.ts:603-608 | a swap failure that loses what the log held |
| `Quiesce.Latch.Admit` | apps/gateway/src/quiesce.ts:56-59 | a request is counted and given a fresh release exactly when the latch admits |
| `Quiesce.Latch.ReleaseTicket` | apps/gateway/src/quiesce.ts:60-67 | the first run of a release counts down and settles; later ones change nothing |
| `Quiesce.Latch.SettleIdle` | apps/gateway/src/quiesce.ts:47-52 | the registered closer is resolved once nothing is in flight |
| `Quiesce.Latch.BeginClose` | apps/gateway/src/quiesce.ts:76-83 | up to the await: work is refused, and the answer comes at once when nothing is in flight |
| `Quiesce.Latch.FinishClose` | apps/gateway/src/quiesce.ts:87-95 | from the wake: what is in flight is reported as it is now |
| `Quiesce.CountIsExact` | apps/gateway/src/quiesce.ts:41-98 | in every run `inFlight` is the number of admitted, unreleased requests |
| `Quiesce.SecondReleaseIsNothing` | apps/gateway/src/quiesce.ts:60-67 | releasing again, at any later moment of any run, changes nothing |
| `Quiesce.LastReleaseWakes` | apps/gateway/src/quiesce.ts:76-95 | with one closer at a time, in every run a waiting close has been woken or still has a request to wait for |
| `Quiesce.DrainedUntilOpen` | apps/gateway/src/quiesce.ts:76-95 | after `drained: true` nothing is in flight at any moment until the latch is opened, with any number of closers |
| `Quiesce.RegistrationLost` | apps/gateway/src/quiesce.ts:80-94 | one step takes a waiting closer's registration exactly when another close starts or another close returns |
| `Quiesce.StrandedStays` | apps/gateway/src/quiesce.ts:47-52 | without it nothing but its own deadline wakes it, in any run |
| `Quiesce.StrandedExactly` | apps/gateway/src/quiesce.ts:76-95 | over every run in which a registered closer has not returned: it is out of reach of every release if and only if another close started or returned while it was registered; otherwise it has been woken or a request is still in flight |
| `Quiesce.OverlapStrands` | apps/gateway/src/quiesce.ts:80-83 | so a later close strands a registered one |
| `Quiesce.LateWakeStrands` | apps/gateway/src/quiesce.ts:87-94 | and a close that returns strands a later registered one |
| `Quiesce.OverlapExample` | apps/gateway/src/quiesce.ts:80-83 | a run that strands the first, with nothing in flight |
| `Quiesce.LateWakeExample` | apps/gateway/src/quiesce.ts:87-94 | a run that strands the second, with nothing in flight |
| `Stream.Collect` | packages/ir/src/stream.ts:200-294 | the loop's response: the head the response-level events leave, and the finished blocks by ascending index |
| `Stream.CollectedMeans` | packages/ir/src/stream.ts:200-305 | any stream collects to the head its last start and end give, and one block per opened index in ascending order: texts and signatures joined up, citations in order, tool input parsed or `{}` when it is blank or does not parse, and each native field as last merged, else as parsed, else as opened |
| `Stream.BlockFromOwn` | packages/ir/src/stream.ts:213-262 | a block's accumulator depends on its own events only |
| `Stream.InterleavingIrrelevant` | packages/ir/src/stream.ts:200-294 | streams that keep each block's own events in order, and the response-level ones, collect to the same response |
| `Stream.ChunkingIrrelevant` | packages/ir/src/stream.ts:240-262 | so do streams whose blocks are opened alike and hear the same joined-up text |
| `Stream.ResplittingHears` | packages/ir/src/stream.ts:243-253 | splitting one delta of a block's life anywhere leaves what the block hears |
| `Stream.ResplittingIrrelevant` | packages/ir/src/stream.ts:200-294 | wherever one text, thinking, signature or JSON delta of an event stream is sent in fragments instead, the stream collects to the same response |
| `Stream.RenderRenders` | packages/ir/src/stream.ts:200-305 | every response has a rendering as an event stream, for every choice of late native fields |
| `Stream.CollectUndoesRender` | packages/ir/src/stream.ts:200-305 | collecting that rendering gives the response back |
| `Stream.CollectRecovers` | packages/ir/src/stream.ts:200-305 | and so does collecting any stream that tells the same blocks, under every chunking, interleaving and numbering |
| `Stream.PromptTotalSurvives` | packages/ir/src/stream.ts:63-80 | output and cached counts pass through, the uncached part is never negative, and the provider's prompt total survives the split if and only if the cached part does not exceed it |
| `Tokens.EstimateInputTokens` | packages/ir/src/tokens.ts:127-133 | the estimate is the sum of what every part costs |
| `Tokens.EstimateCountsEverything` | packages/ir/src/tokens.ts:40-133 | which is 4 for the framing of every tool, block, message and nested native part, a quarter of every text they send, and 1600 for every image |
| `Tokens.FromTextRoundsUp` | packages/ir/src/tokens.ts:36-38 | a quarter of a text is rounded up |
| `Tokens.EstimateInputPrefixes` | packages/ir/src/tokens.ts:148-165 | the prefixes are the estimates of the request without its messages and without its system prompt, nested, and the last is the estimate |
| `Tokens.EstimateCachedInputTokens` | packages/ir/src/tokens.ts:180-211 | the loop computes the covered part of the prompt as it is assembled |
| `Tokens.PromptCost` | packages/ir/src/tokens.ts:127-133 | the prompt laid out in order costs what the estimate says |
| `Tokens.CachedIsThroughLastMark` | packages/ir/src/tokens.ts:180-211 | the cached estimate is the running total through the last marked stretch, at most the estimate, and zero if and only if nothing is marked |
| `Tokens.CachedIsZeroExactly` | packages/ir/src/tokens.ts:180-211 | it is zero if and only if no tool is marked, no system block has a marker of its own, and no message block has one, its own or nested |
| `Tokens.ZeroMeansUnmarkedUnless` | packages/ir/src/tokens.ts:188-207 | which is the same as nothing being marked at all, unless the only markers are nested in the system prompt |
| `Tokens.NestedMarkInSystemIsMissed` | packages/ir/src/tokens.ts:188-191 | a nested marker in the system prompt is not counted |
| `Validate.CleanMessages` | packages/ir/src/validate.ts:19-45 | the nested loops group the surviving blocks of the conversation read as one list |
| `Validate.ValidateRequest` | packages/ir/src/validate.ts:15-48 | and nothing else of the request changes |
| `Validate.ValidatedIsNormal` | packages/ir/src/validate.ts:22-45 | no empty message, no neighbours of one role, every tool result answered, and exactly the surviving blocks in order and in their own roles |
| `Validate.AnsweredBy` | packages/ir/src/validate.ts:33-35 | the tool use before it that a surviving tool result answers |
| `Validate.NormalIsGrouped` | packages/ir/src/validate.ts:38-44 | the normal form of a list of blocks is unique |
| `Validate.SurvivorIsOriginal` | packages/ir/src/validate.ts:25-35 | a survivor is a block of the request, or a tool use of it with its empty id filled in |
| `Validate.SurvivorsInOrder` | packages/ir/src/validate.ts:22-36 | the survivors stand in their original order |
| `Validate.OnlyOrphansDropped` | packages/ir/src/validate.ts:33-35 | a block is dropped if and only if it is a tool result without a surviving tool use before it |
| `Validate.ValidateIsIdempotent` | packages/ir/src/validate.ts:15-48 | a second pass, with any generator, changes nothing if and only if no id the first pass had to make was empty |
| `Validate.EmptyGeneratorIsNotIdempotent` | packages/ir/src/validate.ts:26-29 | with an empty id it does |
| `Validate.ValidateNeverCostsMore` | packages/ir/src/validate.ts:15-48 | the token estimate never grows |
| `Csv.CsvRoundTrip` | packages/control/src/logs.ts:284-293 | for every list of non-empty rows a parser of section 2 of RFC 4180 returns one record per row and exactly the guarded texts |
| `Csv.GuardIsExact` | packages/control/src/logs.ts:287-288 | the guard leaves a text alone if and only if its first non-blank character starts no formula, and what it writes starts none |
| `Csv.QuotedExactly` | packages/control/src/logs.ts:289 | a cell is quoted if and only if its text holds a quotation mark, a comma or half a line break |
| `Csv.RecoveredCellsAreInert` | packages/control/src/logs.ts:284-293 | no recovered cell's first non-blank character is `=`, `+`, `-` or `@` |
| `LogExport.ExportLogs` | packages/control/src/logs.ts:348-387 | the refusals in order and with nothing yielded; a scope that reads nothing yields the header only; otherwise the export, or whole pages of it before the first failing page |
| `LogExport.WalkPages` | packages/control/src/logs.ts:376-386 | every matching row once and in store order, and nothing at all when the first page fails |
| `LogExport.CsvExportParses` | packages/control/src/logs.ts:296-311 | the whole CSV export parses to the column names and one record per log, whose i-th cell is the guarded text of the log's value in the i-th column, and nothing for an absent value |
| `LogExport.ColumnsAreInert` | packages/control/src/logs.ts:244-270 | the export's own column names come back verbatim |
| `LogExport.JsonLinesExportParses` | packages/control/src/logs.ts:301-310 | the JSON-lines export is one line per log, printed from its columns and their values in order, with nothing guarded |
| `Tail.ReadFrom` | packages/control/src/tail.ts:134-171 | what was given from the start of the read on, and where that ended; the read starts where asked, unless the file shrank or more than 8 MiB are new: then a gap is reported and it starts 8 MiB before the end, or at the start of a shorter file |
| `Tail.OffsetStaysInFile` | packages/control/src/tail.ts:134-171 | over any chain of polls of an append-only file, with short reads, the offset never passes the end nor moves back |
| `Tail.GapFreeReadsAreExact` | packages/control/src/tail.ts:134-171 | gap-free polls join up to exactly the bytes between the first and last offsets |
| `Tail.SkippingIsReported` | packages/control/src/tail.ts:147-165 | bytes are skipped if and only if a gap was reported |
| `Tail.TailFile` | packages/control/src/tail.ts:31-67 | the end of the file as the buffers hold it: all of it, 8 MiB of it, or more than the asked line breaks; and the last chunk was needed |
| `Tail.TailIsTrue` | packages/control/src/tail.ts:49-56 | which is the true end, whatever the buffers held before, if and only if every read that went into it gave all it was asked for |
| `Tail.ShortReadGoesUnnoticed` | packages/control/src/tail.ts:49-56 | a read that gives nothing, and an answer that is what the buffer held |
| `FrameSink.Sink.Write` | apps/gateway/src/bodyCapture.ts:164-173 | after any writes the sink holds its history's longest suffix that fits the cap, never fewer than the last frame, and `truncated` says exactly whether something was dropped |
| `FrameSink.CutIsLongest` | apps/gateway/src/bodyCapture.ts:167-172 | every longer suffix is over the cap |
| `FrameSink.CutIsUnique` | apps/gateway/src/bodyCapture.ts:158-176 | the history alone decides what is held |

## Left out

- Window claims, rollback and the sweep of the coordinator: they rest on the sliding window of the rate-limit package, which is not part of this model.
- `incr` and `pubsub` of the coordinator: single assignments and a broadcast loop.
- The Redis coordinator, the SQLite and Postgres stores, dispatch, adapters, routes, the CLI and the dashboard.
- `setInitialPassword`, `isConfigured` and `isViewerConfigured`: one store call each.
- Hashing, Argon2, gzip, JSON and UTF-8 codecs, `Date` and regular expressions: parameters, or byte sequences. In particular a multi-byte character cut by two forward reads is decoded by neither.
- Gauge.CeilingHolds: for named holders only, because an unnamed release may take a named holder's slot.
- Quiesce.LastReleaseWakes: for one closer at a time, because overlapping closers can strand each other (`Quiesce.StrandedExactly`).
- Sessions.SessionAuthority: each operation is one atomic step with one reading of the clock; in the source `verify` awaits between its reads.
- Tar.ReadTar: names are well-formed UTF-8; the decoder's replacement of ill-formed sequences is not modelled, and only ASCII white space is trimmed from a size field.
- `stripRoot`, payload loading, the npm registry and module import: the installer takes a payload, and the reader's map is where that chain starts.
- Install.PluginRoot.InstallPlugin: a removal or a rename of a tree happens whole or not at all; each file comes with the place its name leads to, which `Install.Loaded` says is the lexical one; a filesystem that folds names further is another such assignment.
- Swap.Installation.SwapIn: a throwing close merges nothing and leaves the handle open, and the two swallowed steps after the swap (rollup rebuild, plugin schema) are no-ops; nothing else writes the live database between the undo snapshot and the close.
- Path containment by `realpath` (packages/control/src/database.ts:198-212), `previewRestore`, `sweepStaging` and the skipping variant of the exclusive lock: single checks or reads.
- LogExport.ExportLogs: the matching rows do not change while they are paged, and the filter schema is a yes-or-no parameter.
- Stream.CollectRecovers: the printer of JSON is one that `JSON.parse` undoes on the values of the response.
