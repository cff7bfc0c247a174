# Model of the encrypting Forgejo mirror

The service mirrors Forgejo repositories into encrypted ones. A signed webhook becomes a job; a worker
fetches the source, and for each source commit that is not yet mirrored it exports the tree, encrypts every
file to age recipients, and commits the ciphertext with a `Source-Commit` trailer from which the next run
resumes; the encrypted history is then pushed. This project models that program and proves what it is for:
nothing below the resume point is ever missing, every encrypted commit decrypts to the files of its source and
to nothing for those who are not its recipients, interrupted runs resume without loss, jobs are neither lost nor handled too often, and shutdown ends.

## How it is organised

| files | what they model |
|---|---|
| `Text`, `Files`, `Sums` | strings and slash-joined paths; a directory tree on disk and what `mkdir`, create and write do to it; sums over sequences |
| `Ignore`, `Trees`, `WorkTree`, `Engine`, `Decryption` | the ignore list, the pruned walk, encryption beside git's own folder, decryption |
| `Confidential`, `Recipients` | what an encrypted directory holds and who can open it; the same over the whole encrypted history |
| `Archive` | `git archive`, tar extraction, and the restore command |
| `Trailer`, `History`, `RevList`, `SmallWalks` | commit messages and their trailers as git stores and reads them; the commit graph; the newest-first walk behind `rev-list --reverse`, and what it does on the smallest merges |
| `Mirror`, `Runs`, `Jobs`, `Service` | one repository as a step machine with failures between any two effects; runs put together from steps, and from jobs; the program's own loops, shown to take only steps of the machine |
| `Once`, `Interrupted`, `Stops`, `Repeats` | how often a commit is mirrored: by jobs that are not stopped, by jobs stopped anywhere, and the smallest runs that mirror a commit twice or lose one |
| `Names`, `System`, `Overlap` | name validation, paths, destinations; all repositories on one cache directory, any interleaving of workers; two jobs on one repository |
| `Pool`, `Shutdown`, `Attempts`, `Losses`, `Records` | the worker pool as a protocol of atomic steps: conservation of jobs, the end of `Stop`, attempts and counters, that only a shutdown drops jobs, status records |
| `Queue`, `Backoff` | the queue and a worker's handling of one job as classes; the retry delay in 64-bit arithmetic |
| `Replay`, `Webhook` | the replay cache and the webhook handler |

The graphs that the runs of `Repeats` are about exist: `Repeats.IsForked`, `Repeats.IsDiamond`, `Repeats.SkewedGraph`,
`Repeats.TiedGraph` and `SmallWalks.Triangles` give one of each kind.

What is changed in place in the program is a class here (`Disk`, `Manifest`, `Repository`, `Queue`, `Workers`,
`ReplayCache`, `Handler`), whose methods are tied to functions of the old state; the laws are proved about those
functions and about the two step machines, over every run. Goroutines and crashes are steps of the machines
`Pool.Apply` and `Mirror.Apply`.

Assumptions are explicit and appear as preconditions:

- `History.Sane`: parents have lower generation numbers, trees are what git records, no source message contains
  `Source-Commit:`, and none with a scissors line (from which on git ignores a message) has a trailer of that key in
  other letters before it; `Trailer.CutMessage` shows what such a message does.
- `Mirror.OrderedRun`: the listings that jobs begin with have ancestors first. Only coverage needs it. The program
  calls `rev-list` without `--topo-order`; `RevList.OrderlyIff` says for which graphs every newest-first walk, with
  any tie-break, lists ancestors first. Increasing committer dates suffice, and linear histories need no dates at
  all (`RevList.DatesOrderly`, `RevList.LinearOrderly`). For jobs that may stop, `Stops.CoveredIffOrderly` shows that
  nothing less will do. The code itself has no precondition on dates.
- At most one job per repository runs at a time. It is part of the state of `Mirror.Repo`, and
  `Overlap.OverlapLosesCommit` shows what can happen otherwise: the pool itself does not enforce it.
  `Overlap.UndisturbedFaithful` says which overlaps do no harm to a commit.
- `System.Apart`: names are valid and no two repositories share a destination.
- A ciphertext is a value `Sealed(recipients, body)` that an identity opens when it is one of the recipients.

Where the code does not do what its documentation says, the model follows the code:

- `docs/security.md` (lines 126-131) has every source commit map to exactly one encrypted commit. If no run stops
  half-way that holds exactly for the sequences of targets of `Once.RepeatsNothingIff`, among them all that lie on one
  ancestor chain (`Once.ExactlyOnce`). Runs for one orderly target may stop anywhere exactly when its ancestors are
  linear (`Stops.RepeatFreeIff`, `Interrupted.InterruptedOnce`). It fails when branches alternate
  (`Repeats.BranchesRepeat`) and when a run stops between the two sides of a merge (`Repeats.StoppedMergeRepeats`).
- Resuming "exactly where it left off" loses a commit for good when a run stops after a commit that its listing put
  before a parent, as skewed or merely equal committer dates allow (`Repeats.SkewLosesAncestor`).
- A restored file has the permission bits that `git archive` gave the export, 0775 or 0664 by default, not the bits
  git records; a tree here is one as its archive gives it.
- A commit whose message is blank, or has a scissors line, leaves no resume point (`Trailer.TrailerRoundTrip`).
- Encryption fails on a tree that has both `x` and a kept file below `x.age/`, or a kept file below a root folder
  `manifest.json` (`Engine.EncryptSucceedsIff`).
- A kept file whose name ends in a dot can be mirrored, but not restored with `-commit`
  (`Archive.PointInTimeRestore`, `Archive.TrailingDotRefused`).
- The start-up probe of the destination does not look at owner-map entries other than the probe's own
  (`Names.ProbeMisses`); `Names.NeverFailsIff` has the exact condition.
- The documentation of `GitHubDestination` offers `{owner}-{repo}` for mirroring several owners into one account
  without name collisions; that holds exactly when no owner's name is another's followed by a dash and more
  (`Names.JoinedCollideIff`).
- The documented delay `baseDelay * 2^(N-1)` up to the cap holds for all attempts exactly if `2^30` base delays
  reach the cap and no product up to there wraps around to something below it (`Backoff.DocumentedIff`).
- A delivery refused with 503 is dropped as a duplicate when it is sent again within the lifetime
  (`Webhook.RefusedThenLost`).
- A job can succeed and be listed as pending for good (`Records.LateWrite`, `Records.StuckForever`);
  `Records.EndedRecordRightIff` says when an ended job is recorded as it ended.

## Model

| member | source | states |
|---|---|---|
| `Mirror.Coverage` | internal/mirror/mirror.go:55-123 | after any run of fetches, failures between any two effects, pushes, and jobs for any targets whose listings have ancestors first, every ancestor of the commit the encrypted HEAD's trailer names is in the encrypted history, and a job with nothing left to do has mirrored every ancestor of its target |
| `Mirror.SnapshotFaithful` | internal/mirror/mirror.go:91-121 | every entry of every reachable encrypted history decrypts, under any identity among its recipients, to exactly the kept files of the source commit it names, each with its contents, link target and mode; nothing is left from other commits or stopped runs |
| `Recipients.StrangersLockedOut` | internal/encrypt/engine.go:126-148 | every entry of every reachable encrypted history whose source has a regular file to keep is closed to identities that are not among its recipients, in the repository and in any archive of it |
| `Recipients.HistoryHidden` | internal/encrypt/engine.go:126-148 | every file of every entry is the manifest, or ciphertext for exactly the entry's recipients |
| `Recipients.RecipientsAsked` | internal/mirror/mirror.go:109-113 | an entry's recipients are those that some job of the run was told to encrypt to, all of them and nobody else |
| `Mirror.RestoreAnyCommit` | cmd/restore/main.go:53-95 | restoring any encrypted commit of any reachable history from any archive of it, whatever modes it gives the files and with other entries like the global header included, rebuilds exactly the kept files of its source, or is refused precisely when some kept file's name ends in a dot |
| `Mirror.PushAlwaysAccepted` | cmd/mirror/main.go:151-160 | every remote branch is a non-empty prefix of the encrypted history, so a job that gets to its push has a history to push and the push is a fast-forward, for any branch and after any source force-push |
| `Mirror.RepeatAddsNothing` | internal/mirror/mirror.go:73-75 | a job has nothing to process if and only if its target is already covered by the resume point |
| `Mirror.ExecGrows` | internal/mirror/mirror.go:115-121 | over any run the encrypted history only grows at its end and the known source graph only grows |
| `Mirror.ExecSafe` | internal/mirror/mirror.go:91-123 | every run, in whatever order it processes commits, keeps sound entries, a resume point that is known or absent, scratch and working tree right for the stage, and remote branches that are prefixes of the history |
| `Mirror.ExecKeeps` | internal/mirror/mirror.go:91-123 | a run whose jobs begin with ancestors first also keeps coverage, and a plan that completes each prefix |
| `Mirror.BeginKeeps` | internal/mirror/mirror.go:60-63 | an ancestors-first listing from the resume point is a plan: after any number of its commits, everything below the last one is mirrored |
| `Mirror.CoveredNext` | internal/mirror/mirror.go:115-121 | committing the next planned commit keeps coverage, also when its message hides the trailer and the resume point is lost |
| `Mirror.ResumePointIs` | internal/git/history.go:325-335 | the resume point of a sound history is the source of its last entry, or empty if that commit's message is blank or has a scissors line |
| `Service.UpdateEncryptedHistory` | internal/mirror/mirror.go:45-126 | takes only steps of the machine, stopping included; on success the history grew by exactly what a newest-first walk lists, in order, and the count says so; without faults it succeeds if and only if target and resume point are known and every missing commit can be mirrored; a sound history stays so if the graph is orderly; git's own folder is untouched |
| `Service.MirrorAll` | internal/mirror/mirror.go:91-123 | the loop over commits: appends one entry per commit in order until one fails; the count lags the history by at most the commit that failed after it was made |
| `Service.MirrorCommit` | internal/mirror/mirror.go:91-121 | one turn takes the steps remove, export, clear, encrypt, commit of the machine, or a beginning of them followed by a stop; without faults it succeeds if and only if the export and the encryption accept the commit |
| `Service.HandleJob` | cmd/mirror/main.go:103-163 | a job takes only steps of the machine, from idle to idle; from a covered history success means every ancestor of the target is mirrored and the history is covered again, whatever the committer dates, and if pushing, the branch is the whole history; a job that fails keeps coverage if the graph is orderly; without faults it succeeds if and only if everything missing can be mirrored and the destination has a name |
| `Service.ClearWorkingTree` | internal/git/history.go:225-244 | empties the working tree and leaves git's own folder exactly as it was |
| `RevList.ListCommits` | internal/git/history.go:45-62 | the listing is what a newest-first walk from both ends takes and does not know, in reverse, for any dates |
| `RevList.WalkedLists` | internal/git/history.go:40-62 | such a listing has each commit reachable from `to` and not from `from` once, and `to` last, or is empty if `to` is known |
| `RevList.OvertakesIff` | internal/git/history.go:51 | some newest-first walk takes `p` before `c` if and only if a path leads to `p` past `c` such that every branch off it to `c` holds a commit as old as all the path still has to go |
| `RevList.OrderlyIff` | internal/git/history.go:51 | every newest-first walk lists ancestors first, however ties are broken, if and only if no missing commit overtakes a child of its own in that sense |
| `RevList.DatesOrderly` | internal/git/history.go:51 | increasing committer dates make every listing have ancestors first |
| `RevList.LinearOrderly` | internal/git/history.go:51 | so does a linear history, whatever its dates |
| `SmallWalks.SkewListsChildFirst` | internal/git/history.go:51 | on every merge of a root with an older-dated child of it the only listing has the child before the root |
| `SmallWalks.TieListsChildFirst` | internal/git/history.go:51 | with equal dates a walk does so too, taking the merge's first parent first, so no such merge is orderly |
| `History.ResumableIff` | internal/git/history.go:51-61 | stopping after any prefix of a listing leaves no ancestor out if and only if the listing has ancestors first |
| `History.ListingIsChain` | internal/git/history.go:40-62 | on a linear history the listing is the part of the one oldest-first chain that is missing |
| `Repeats.SkewLosesAncestor` | internal/mirror/mirror.go:55-123 | for every such merge whose commits can be mirrored, a run of the machine: a job stopped after the child and one run to its end leave the root out although it is an ancestor of the resume point |
| `Stops.CoveredIffOrderly` | internal/mirror/mirror.go:55-123 | on a fresh repository whose commits can be mirrored, every history that jobs for one target can leave, stopped anywhere and resumed any number of times, is covered if and only if the target is orderly |
| `Once.RepeatsNothingIff` | internal/mirror/mirror.go:55-123 | for any sequence of jobs that are not stopped: the history holds the ancestors of the targets and nothing else, ends at the last target that was not below the head before it, and repeats no commit if and only if what each target shares with earlier ones was below the head they left; nothing is below a head whose message hides its trailer |
| `Once.ExactlyOnce` | internal/mirror/mirror.go:60-75 | if no job stops half-way and all targets lie on one chain, in any order, the encrypted history lists each ancestor of the greatest target once and nothing else |
| `Interrupted.InterruptedOnce` | internal/mirror/mirror.go:60-123 | on a linear history, however often runs stop, the encrypted history is a prefix of the chain to the top commit, and all of it once that commit is mirrored |
| `Interrupted.CrashRefinement` | internal/mirror/mirror.go:60-123 | two histories of one linear source that both mirrored the top commit, however interrupted, name the same commits in the same order and decrypt alike |
| `Stops.RepeatFreeIff` | internal/mirror/mirror.go:55-123 | on a fresh repository with an orderly target whose ancestors can be mirrored, no history that jobs for it can leave, stopped anywhere and resumed, repeats a commit if and only if of any two of its ancestors one is an ancestor of the other |
| `Once.RunRepeatsNothingIff` | internal/mirror/mirror.go:55-63 | a run repeats no commit if and only if every mirrored ancestor of its target is an ancestor of the resume point |
| `Once.HeadIsTargetIff` | internal/mirror/mirror.go:70-75 | a finished run leaves its own target at the head if and only if the target was new or was the head already |
| `Repeats.BranchesRepeat` | internal/mirror/mirror.go:55-63 | for any two commits made one after the other on one root, if all can be mirrored, a run of the machine without stops, for the two branches in turn, whose history holds a commit twice |
| `Repeats.StoppedMergeRepeats` | internal/mirror/mirror.go:91-123 | for any later merge of two such commits, a run of the machine, stopped between its two sides and resumed, whose history holds a commit twice |
| `System.Serialisable` | internal/git/engine.go:52-73 | however workers interleave jobs for different repositories, once all have ended each repository is as if the whole jobs had run one at a time, in the order in which they ended |
| `System.Isolated` | internal/git/engine.go:52-73 | a step of one repository's job changes that repository's view of the cache and remotes and no other's |
| `System.PlayedAlone` | internal/git/engine.go:52-73 | seen from one repository, an interleaving is a run of its own steps |
| `System.Reordered` | internal/git/engine.go:52-73 | any order of the steps that keeps each repository's own order can be taken and ends in the same repositories |
| `System.EveryRepositorySound` | cmd/mirror/main.go:103-163 | in any interleaving every repository is in a reachable, safe state of the mirroring machine, and covered if its own jobs began with ancestors first |
| `System.JoinedApartIff` | internal/config/config.go:150-156 | for owners joined into one account no two repositories share a destination, whatever repositories they have, if and only if no owner is another one's name followed by a dash and possibly more |
| `System.UnchangedApartIff` | internal/config/config.go:150-156 | with names unchanged, destinations are apart if and only if repositories of one name go to different owners |
| `Pool.TwoHandlers` | internal/queue/worker.go:95-109 | two workers can be in the handler at once, each with a job of its own; jobs carry no repository that any step looks at |
| `Overlap.OverlapLosesCommit` | internal/mirror/mirror.go:91-121 | for every first commit there is a schedule of two jobs on one repository after which the encrypted commit holds no files and decrypts under no identity |
| `Overlap.UndisturbedFaithful` | internal/mirror/mirror.go:91-121 | two jobs on one repository, overlapping in any way before: if between one's clearing of the working tree and its commit the other neither clears nor encrypts nor stops, that commit decrypts to exactly the kept files of its source |
| `Overlap.JobsInterchange` | internal/queue/worker.go:95-109 | and what holds of the one job holds of the other: a schedule with the two exchanged does the same |
| `Names.PlacesApart` | internal/git/engine.go:49-73 | mirrors and encrypted repositories of valid names lie inside the cache directory, and no two of them are equal or nested |
| `Names.NameChars` | internal/git/validate.go:13 | the characters a name may have, by their codes |
| `Names.GitHubDestination` | internal/config/config.go:157-186 | the destination is the mapped, configured or source owner with the formatted name, and an error if a source or destination name is not valid |
| `Names.DestinationIs` | internal/config/config.go:165-175 | the owner is the mapped one if the map names one, else the configured one, else the source's; the name is unchanged unless a format is set; it fails only on an invalid result |
| `Names.Destinations` | internal/config/config.go:150-156 | the destination without any setting, under an account, under a mapped owner, and with joined names |
| `Names.ReplaceParts` | internal/config/config.go:173-177 | text without braces stays, each placeholder gives way to its name and replacing goes on behind it, and any other brace stays |
| `Names.ProbeDecidesRepo` | internal/config/config.go:210-214 | the probe's repository name is valid if and only if the computed name is valid for every valid owner and repository |
| `Names.NeverFailsIff` | internal/config/config.go:157-214 | the destination never fails on valid names if and only if the configured owner is empty or valid, mapped owners of valid names are empty or valid, and the probe's repository name is valid |
| `Names.ProbeDecides` | internal/config/config.go:210-214 | with sound owner-map values and no entry for the probe's owner, the probe passes if and only if the destination never fails |
| `Names.ProbeMisses` | internal/config/config.go:210-214 | dropping either condition, a configuration that passes the probe and fails for another owner |
| `Names.JoinedCollideIff` | internal/config/config.go:150-156 | with `{owner}-{repo}` two owners can collide if and only if one's name is the other's followed by a dash and possibly more |
| `Names.JoinedInjective` | internal/config/config.go:154-156 | on dash-free owners `{owner}-{repo}` identifies the repository |
| `Engine.Encrypt` | internal/encrypt/engine.go:27-123 | writes exactly the kept files, sealed to the given recipients and nobody else, and the manifest, or fails; git's own folder in the destination is untouched either way |
| `Confidential.OnlyRecipients` | internal/encrypt/engine.go:126-148 | into whatever directory, every file that encryption leaves and that was not there before is the manifest, or ciphertext for exactly the given recipients |
| `Confidential.EncryptedFiles` | internal/encrypt/engine.go:96-118 | into an empty directory it makes `p.age` with mode 0644 for every kept file `p`, sealing its contents, besides them only `manifest.json`, and no other file |
| `Engine.ReadsOwnFile` | internal/encrypt/ignore.go:31-37 | the ignore file that is read is the tree's own `.encryptignore`; none if it is missing, an error if it is a folder |
| `Engine.WalkDir` | internal/encrypt/engine.go:44-114 | the walk seals every visited file and appends every visited leaf to the manifest, in walk order, or stops at the first failure |
| `Engine.VisitEntry` | internal/encrypt/engine.go:58-113 | one entry: pruned folders contribute nothing, links only a manifest entry, devices nothing, files a sealed output and an entry |
| `Engine.EncryptSucceedsIff` | internal/encrypt/engine.go:96-118 | into an empty directory encryption succeeds if and only if there is a recipient, the ignore file can be read, no kept file `p` has a kept file below `p.age`, and none lies below `manifest.json` |
| `Engine.ScatteredOutputs` | internal/encrypt/engine.go:96-118 | that condition says exactly that no two outputs, the manifest included, are equal or nested |
| `Engine.EncryptShows` | internal/encrypt/engine.go:96-118 | on success the directory holds the outputs and the folders above them, and nothing else |
| `Engine.EncryptBeside` | internal/encrypt/engine.go:38-40 | encrypting beside git's own folder is encrypting into the working tree alone |
| `Files.PlaceAllShows` | internal/encrypt/engine.go:99-105 | writing leaves at distinct paths succeeds if and only if none lies on or below another, and then shows exactly them |
| `Trees.WalkRefinesFilter` | internal/encrypt/engine.go:44-87 | the pruned walk yields, in order, exactly the leaves the flat rule admits |
| `Trees.WalkVisits` | internal/encrypt/engine.go:56-87 | a leaf is visited if and only if it is no device, no folder above it is named `.git`, and no prefix of its path, itself included, is ignored |
| `Ignore.Match` | internal/encrypt/ignore.go:63-91 | the nested search answers whether some pattern matches the path, or for an unanchored one some suffix of it |
| `Ignore.LiteralGlob` | internal/encrypt/ignore.go:73-85 | a glob without `*` and `?` matches only itself |
| `Ignore.GlobAtoms` | internal/encrypt/ignore.go:73-85 | the empty glob matches the empty text, `?` any one character but a slash, any other character but `*` itself |
| `Ignore.GlobStar` | internal/encrypt/ignore.go:73-85 | `*` matches exactly the texts without a slash |
| `Ignore.GlobConcat` | internal/encrypt/ignore.go:73-85 | two globs in a row match exactly what splits into a match of the one and a match of the other |
| `Ignore.SuffixLoopIsOneTest` | internal/encrypt/ignore.go:79-87 | for a glob with `k` slashes, trying all suffixes is one test on the last `k + 1` segments |
| `Ignore.AnchoredDepth` | internal/encrypt/ignore.go:72-77 | an anchored glob matches only paths with as many segments as it has |
| `Ignore.LoadIgnoreFile` | internal/encrypt/ignore.go:31-59 | a missing file is no patterns, an unreadable one or one with an overlong line an error, else a list that ignores a path if and only if some line of the file, taken alone, does |
| `Ignore.ParsedPatterns` | internal/encrypt/ignore.go:42-53 | a pattern is in force if and only if some line stands for it |
| `Text.SpaceChars` | internal/encrypt/ignore.go:43 | the blanks trimmed from a line, by their codes |
| `Ignore.GlobLine` | internal/encrypt/ignore.go:42-53 | a glob on a line ignores the paths it matches or some suffix of which it matches, after a slash only those it matches whole; blanks around it and one slash at its end change nothing |
| `Ignore.NoGlobLine` | internal/encrypt/ignore.go:43-46 | blank lines and comments ignore nothing |
| `Ignore.LineForms` | internal/encrypt/ignore.go:42-53 | every line is blank, a comment, or of one of those forms |
| `Ignore.IgnoredByLine` | internal/encrypt/ignore.go:63-91 | a file's lines together ignore exactly what some line, taken alone, ignores |
| `Decryption.Decrypt` | internal/encrypt/engine.go:153-180 | writes the manifest's entries in order into the destination, stopping at the first that cannot be read, opened or written |
| `Decryption.RoundTrip` | internal/encrypt/engine.go:150-209 | decrypting a directory that contains a successful encryption, with an identity among its recipients, into an empty one yields exactly the kept leaves with contents, link targets and modes, whatever else the directory holds |
| `Decryption.KeptTreeRestores` | internal/encrypt/engine.go:150-209 | that directory, told from the source's disk: each kept link with its target, each kept file with its contents and its mode, or 0644 if that is zero, the folders above them, and nothing else |
| `Decryption.KeptMeans` | internal/encrypt/engine.go:56-72 | what is kept, told from the text of the tree's ignore file: the leaves with no folder named `.git` above them that no line of it ignores, alone or by a folder above |
| `Confidential.StrangersRefused` | internal/encrypt/engine.go:183-192 | with a regular file in it, a directory that contains an encryption does not decrypt, into whatever directory, for identities that are not among its recipients |
| `Confidential.OpensIff` | internal/encrypt/engine.go:150-209 | into an empty directory decryption succeeds if and only if an identity is among the recipients or there is no regular file to open |
| `Decryption.ManifestListsOnce` | internal/encrypt/manifest.go:16-39 | the manifest lists each kept leaf once and nothing else |
| `Decryption.ManifestDescribes` | internal/encrypt/engine.go:76-112 | each entry gives its leaf's own mode and its `.age` name, or its link target, as on the source's disk |
| `Decryption.ManifestNeeded` | internal/encrypt/engine.go:153-157 | nothing is decrypted without a readable `manifest.json` |
| `Decryption.BrokenRefused` | internal/encrypt/engine.go:158-192 | an entry for the directory itself, or one whose file is missing or no ciphertext, makes decryption fail |
| `Decryption.WrongIdentityRefused` | internal/encrypt/engine.go:189-192 | decryption fails if some entry's file has none of the identities among its recipients |
| `Archive.ExtractTar` | internal/git/history.go:139-197 | extraction applies the entries in order and stops at the first unsafe name, refused link or failing write |
| `Archive.ExtractReproduces` | internal/git/history.go:139-197 | from any archive of a directory, in any order with folders first and with safely named entries of other kinds in between, extraction into an empty one succeeds if and only if no name contains `..` and every link is accepted, and then reproduces the directory |
| `Archive.ExtractsAgain` | internal/git/history.go:163-191 | a link takes the place of anything but a folder with something in it; a file is overwritten with the new contents and keeps its mode; a new one gets the entry's permission bits |
| `Archive.UnsafeIff` | internal/git/history.go:151-153 | a name is refused if and only if one of its segments contains two dots in a row |
| `Archive.CommitTarIsArchive` | internal/git/history.go:100-102 | what git writes of a commit, the global header and then each object once, folders before what they hold, is an archive of its tree |
| `Archive.ExportTree` | internal/git/history.go:95-133 | into an empty directory the export succeeds exactly on exportable trees and yields the tree |
| `Archive.Restore` | cmd/restore/main.go:53-95 | without a commit decrypts the working tree; with one extracts its archive into a fresh directory and decrypts that |
| `Text.HasDotsIsContains` | internal/git/history.go:151 | the test for two dots in a row is the substring test of the code |
| `Archive.EncryptedExportable` | internal/git/history.go:151-153 | the encrypted form of an exportable tree can itself be exported, whatever links are accepted, if and only if no kept file's name ends in a dot |
| `Archive.DefaultArchive` | internal/git/history.go:100-102 | an archive with the modes git gives by default is an archive up to modes, which is what a restore needs |
| `Archive.PointInTimeRestore` | cmd/restore/main.go:75-94 | restoring from any archive of an encrypted commit, whatever modes it gives the files, yields exactly the kept files if no kept file's name ends in a dot, and is refused otherwise |
| `Archive.TrailingDotRefused` | internal/git/history.go:151-153 | a name the export accepts whose encrypted form it refuses |
| `Trailer.TrailerRoundTrip` | internal/git/history.go:276-335 | for any message without `Source-Commit:`, whatever paragraphs and trailers it has, reading the trailer of the stored commit gives the source hash, behind the message's own paragraphs, if the message is neither blank nor has a scissors line; nothing if it is blank; and what the part before that line ends in otherwise |
| `Trailer.WrittenMessage` | internal/git/history.go:276-290 | the message as written: the source's text without the newlines at its end, a blank line, and the trailer |
| `Trailer.CutMessage` | internal/git/history.go:325-335 | a message with a trailer of the key in lower case before a scissors line makes the resume point that trailer's value |
| `Trailer.ReadOwnTrailer` | internal/git/history.go:325-335 | a last paragraph holding the trailer is read back if and only if something comes before it and no scissors line does |
| `Trailer.MarkerInMessage` | internal/git/history.go:281-284 | a message that already ends in such a trailer makes the resume point the commit it names instead |
| `Pool.JobsConserved` | internal/queue/worker.go:95-176 | an accepted job is always in exactly one of channel, worker, retry goroutine, succeeded, failed and dropped; one that was not accepted is nowhere |
| `Losses.NothingDropped` | internal/queue/worker.go:95-176 | while the pool is not cancelled all workers are alive, no job is dropped, and an accepted job is queued, in a goroutine's hands, has succeeded, or has failed more than `maxRetries` times |
| `Losses.CancelledIff` | internal/queue/worker.go:88-93 | the pool is cancelled by its shutdown and by nothing else |
| `Losses.RefusedIffFull` | internal/queue/queue.go:74-87 | in every reachable state a call is refused if and only if the channel is full, and an accepted job, or a retry, goes to its end |
| `Pool.ChannelBounded` | internal/queue/queue.go:56-81 | the channel never holds more than its capacity |
| `Pool.FirstInFirstOut` | internal/queue/queue.go:46-48 | over any run the jobs that were in the channel or sent are those received, in the same order, followed by those still in it |
| `Attempts.AttemptsAreFailures` | internal/queue/worker.go:111-138 | a job's attempts are its failed handler calls; it has at most `max(maxRetries, 0) + 1` calls; it fails for good exactly when it has failed that often, and succeeds with one call more than failures |
| `Attempts.CountersMatch` | internal/queue/worker.go:111-138 | the success and failure counters count the jobs whose last call has returned, and the retry counter the failed calls that were not the last |
| `Shutdown.WaitGroupCounts` | internal/queue/worker.go:80-109 | the wait group equals the live workers and retries, is only added to while positive, and stays zero once it is |
| `Shutdown.MeasureFalls` | internal/queue/worker.go:95-176 | every step of a goroutine or of a call in flight lowers a measure of attempts, phases and live goroutines |
| `Shutdown.NeverStuck` | internal/queue/worker.go:95-176 | after the cancellation every live goroutine can take a step, whatever the others do |
| `Shutdown.StopTerminates` | internal/queue/worker.go:88-93 | after the cancellation and without new submissions a run takes no more steps of goroutines and of calls in flight than the measure, however often records are pruned, and no goroutine can step if and only if the wait group is at zero, so `Stop` returns |
| `Records.AtomicRecordsAgree` | internal/queue/queue.go:66-101 | with sending and the pending write as one step, every live job has a record with the status of its place, and a finished one's record, if not pruned, says how it ended |
| `Records.SplitRecordsAgree` | internal/queue/queue.go:74-81 | with two steps, as written, for queued, held and ended jobs alike, the only other cases are a missing record while the pending write is outstanding, a pending record that replaced a worker's, and an ended job's pruned one |
| `Records.EndedRecordRightIff` | internal/queue/queue.go:74-81 | over every run, an ended job whose record is there is recorded as it ended if and only if no pending write came after the worker's last write |
| `Records.PruneSparesLive` | internal/queue/queue.go:142-159 | pruning never removes the record of a queued or held job, in either protocol |
| `Records.PrunesExactly` | internal/queue/queue.go:142-159 | pruning removes exactly the chosen records of ended jobs and changes nothing else |
| `Records.LateWrite` | internal/queue/queue.go:74-81 | a run in which the job succeeds before its pending record is written |
| `Records.StuckForever` | internal/queue/queue.go:74-81 | and from then on no step ever changes that record |
| `Queue.Queue.Enqueue` | internal/queue/queue.go:66-89 | accepts if and only if the channel has room; either way gives a fresh ID if none is set and records what became of the job; the depth gauge equals the counts again |
| `Queue.Queue.SetStatus` | internal/queue/queue.go:91-101 | replaces one record and leaves the depth gauge equal to the number of records of each status |
| `Queue.Queue.CountByStatus` | internal/queue/queue.go:105-109 | the recount gives each status the number of its records |
| `Queue.Queue.ReportDepth` | internal/queue/queue.go:105-113 | after it the gauge of every status, also one without records, is the number of its records |
| `Queue.Queue.PruneOlderThan` | internal/queue/queue.go:142-159 | removes exactly the terminal records older than the cutoff, returns their number, and leaves the gauge right |
| `Queue.SurvivesIff` | internal/queue/queue.go:142-159 | a record survives if and only if its job is pending, running or retrying, or it is not older than the cutoff |
| `Queue.PruneStable` | internal/queue/queue.go:137-141 | pruning twice is pruning once, and the records of each live status are all kept |
| `Queue.Workers.Process` | internal/queue/worker.go:111-138 | one handler call: the two records written in order, the counter raised, and the job to send again with its delay if and only if attempts remain |
| `Backoff.DelayExact` | internal/queue/worker.go:142-158 | for every positive base and cap the delay is positive, at most the cap, and the smaller of the cap and `base * 2^min(attempt - 1, 30)` in unbounded arithmetic if and only if the product does not wrap around to something positive below the cap |
| `Backoff.DelayOfAttempt` | internal/queue/worker.go:142-158 | attempts from 1 to 31 double the base one time less than their number, lower ones wait like the first and higher ones like the 31st |
| `Backoff.SmallUnwrapped` | internal/queue/worker.go:142-158 | no product wraps short for bases up to `2^34` or when the largest one fits |
| `Backoff.DelayGrows` | internal/queue/worker.go:142-158 | where no product wraps short the delay never shrinks from one attempt to the next |
| `Backoff.DocumentedIff` | internal/queue/worker.go:41-45 | for every positive base and cap it is `base * 2^(N-1)` up to the cap for all `N >= 1` if and only if `base * 2^30` reaches the cap and no product wraps short |
| `Backoff.BoundTight` | internal/queue/worker.go:148-156 | with base `2^34 + 1` attempt 31 wraps to `2^30` although the cap is five minutes |
| `Backoff.TotalWait` | internal/queue/worker.go:140-158 | all retries together wait at most `base * (2^maxRetries - 1)`, for every positive base |
| `Replay.ReplayCache.CheckAndRemember` | internal/webhook/replay.go:36-53 | evicts what has expired, refuses an ID that is left, and remembers any other with the new reading; an empty ID changes nothing |
| `Replay.ReplayCache.EvictExpired` | internal/webhook/replay.go:56-62 | keeps exactly the entries younger than the lifetime |
| `Replay.CacheRefinesLog` | internal/webhook/replay.go:32-62 | for readings that never go back the evicting cache answers exactly like a log that forgets nothing |
| `Replay.ReplayIff` | internal/webhook/replay.go:36-62 | whatever the readings, a delivery is turned away if and only if it has an ID, an earlier one with that ID was let through, and no reading since, its own included, has outlived that one |
| `Replay.AcceptsApart` | internal/webhook/replay.go:41-53 | if readings lag by at most `d`, two accepted deliveries with one ID are at least the lifetime less `d` apart |
| `Replay.LagLetsThrough` | internal/webhook/replay.go:41-53 | that distance is attained |
| `Webhook.Handler.ServeHTTP` | internal/webhook/webhook.go:51-134 | method, body, signature, replay, event type, payload and queue are checked in this order; a request is turned away for its signature if and only if a secret is configured and the first signature header set is genuine for none, and then touches neither cache nor queue; only an accepted one adds its one job |
| `Webhook.OutcomesMean` | internal/webhook/webhook.go:51-134 | each outcome, told from the request's headers and payload, the configured secrets and what is remembered: if and only if conditions for all eight |
| `Webhook.Handler.Secrets` | internal/webhook/webhook.go:138-149 | every secret that is not empty, the single one first |
| `Webhook.Verify` | internal/webhook/webhook.go:151-163 | only the first signature header that is set counts, under any one of the secrets |
| `Webhook.DeliveryID` | internal/webhook/replay.go:66-73 | the first delivery header that is set, or nothing |
| `Webhook.OncePerSpan` | internal/webhook/webhook.go:81-119 | one delivery ID gets to the queue at most once in any span shorter than the lifetime less the lag, whatever other requests come in between |
| `Webhook.OnlyBranchPushes` | internal/webhook/webhook.go:70-119 | a request gets to the queue if and only if it is authentic, no replay, and a complete push of a branch |
| `Webhook.JobNamesBranch` | internal/webhook/types.go:49-74 | a push becomes a job if and only if it is of a branch and has an owner, a repository and a commit, and pushing the job's branch is pushing the event's ref |
| `Webhook.RefusedThenLost` | internal/webhook/webhook.go:81-126 | a delivery refused for lack of room and sent again, with any other requests in between, is answered as a duplicate if and only if it has an ID and no reading since has outlived it; otherwise it gets to the queue |

## Left out

- git itself: its object store, garbage collection, hooks, attributes, lock files and command-line parsing; what remains is the range listing, a commit that appends to HEAD, the archive of a tree, and a push that only fast-forwards.
- age, HMAC and JSON as formats: ciphertexts are values, signatures a set of genuine pairs, payloads already parsed.
- Author and committer identity and dates of encrypted commits: copied values that nothing else depends on.
- Which links the export accepts: a given set of paths per source, `admitted`, since it depends on resolving links on disk.
- Following a link in a path component on disk: treated as a failure; trees as git records them never have one above an entry.
- Character classes and escapes in ignore globs, and white space outside ASCII in ignore files and trailers.
- git's tie-break among commits of one date (the order in which it queued them) and the point at which it stops a walk early, once only known commits are queued: any tie-break is allowed, and the walk goes on to its end.
- Trailer lines continued on the next line: the trailer the service adds is one line.
- The list of conflicts that old versions of git left at the end of a message, and comment characters other than `#`.
- Trailer paragraphs that mix trailers with other text: git accepts some of them by a proportion rule; the trailer paragraph the service adds is never of this kind.
- The process umask during extraction, file ownership and times, and case-insensitive file systems and accounts.
- Reading `.encryptignore` when it is a link or a device: its outcome is a parameter.
- An unbuffered channel: capacity is at least one; the service uses 100.
- What more than two jobs on one repository, or two whose working trees get mixed, can do together, beyond the schedule of `Overlap.OverlapLosesCommit`.
- Job creation times, and IDs that callers set themselves beyond what `Queue.Queue.Enqueue` says of them.
- Retry timers: a retry may fire at any moment; the delays are in `Backoff`.
- The HTTP server, its status pages and token, rotation detection, YAML loading and the remaining configuration checks, metrics other than the queue's and pool's counters, logging and audit output: easy members that add little.
- Service.HandleJob: whether the destination's name resolves is a parameter; `Names` has when it does.
- Queue.Queue.Receive: cancellation of a waiting worker is in `Pool` only.
