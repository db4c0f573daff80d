# Verified model of the Pinpoint updater and its neighbours

Pinpoint runs one web application per town. A host-side updater moves each town's
containers from one signed release to another and records what runs in a file,
`release.lock`; the application keeps hash-chained audit logs and throttles
first-run setup passwords; a small service redacts photos one at a time; a script
lays out demonstration map data. This project models the parts of that code whose
correctness is not visible from any one function, and proves what they promise.

`dafny verify dfyconfig.toml` checks everything.

## How it is laid out

- `Lockfile`, `AtomicReplace`: the text format of `release.lock`, and its
  replacement on a disk that may fail or lose power between any two operations.
- `Versions`, `Approval`: the order that forbids downgrades, and who may get past
  the approval step.
- `RunMachine`: one updater run as a state machine over commands and answers. Every
  answer of docker, cosign, the registry, the migrator and the health endpoint is
  arbitrary. `RunProperties`, `RunOrder`, `RunReach` and `RunText` prove what each
  outcome word means, what must come before what, which runs can succeed, and what
  the lock then reads as. `RunWords` says the machine's decisions in the fields of
  the answers, and `RunStory` says in those words, of the commands alone and without
  the machine, which command is due, which answer ends a run, and with which word.
- `Engine`: the engine in its own imperative form (step loops, check lists, the
  lock taken and given back), proved to follow the run machine command by command.
  `Locking` is the per-instance `flock` as an object with a descriptor field.
- `Cluster`: any number of updater processes on one instance, interleaved command
  by command, killed anywhere, with commands that go on after their answer or their
  updater, and with power losses. `Overlap` builds the run such a command belies;
  `Durability` puts the real disk under it, operation by operation.
- `Registry`: tag to digest to manifest to labels against a registry that may answer
  anything. `ReleaseReport`: the release list and its two files.
- `AuditChain`, `AuditSchedule`: the hash chain, and transactions that append to it
  at the same time.
- `Throttle`, `InferenceGate`, `Thinning`, `Parcels`, `Redact`: the small stateful
  algorithms with exact bounds.
- `Base`, `Text`: stock types and Python's string operations.

Hash functions, MACs and JSON decoders are functions passed in. Collision freedom is
always a hypothesis of the statement that needs it, and where possible only for the
bytes actually exchanged. Outside commands, clocks and the console are arbitrary.

## Where the code does less than its words

Each of these is proved, as an exact condition or by building the run, not worked
around.

- `poll` reports a lock error during a rollback as "refused; nothing changed"
  (`updater/pinpoint_updater/cli.py:405-410`), but by then the containers have moved.
  The words are true exactly when something stops the rollback before it acts (no way
  back, unpinned images where signatures are checked, a policy that is not met) or
  every value in the lock can be written back (`RunText.RefusedRollbackIsHarmlessIff`).
- "Refused; nothing changed" can be said of a schema that changed under the run: a
  command given up on at its timeout has lost its client, not its container, and the
  lock is let go (`Overlap.TimeoutBeliesTheNextRun`). It is true whenever nothing goes
  on after its answer or its updater (`Cluster.OnlyStraysDisturb`).
- A value that ends in a newline passes `_SAFE_VALUE` and is read back without it
  (`Lockfile.RoundTrip` is an equivalence; `Lockfile.ReadsBackChomped` says what is
  read). A version label may end so. A tag may too, as far as this code checks it, and
  would break the header line, so that the lock could not be read any more
  (`RunText.CommittedLockReads`); that takes an HTTP client that lets a newline into
  a URL, where current versions of httpx raise.
- The kept release list is keyed by a fingerprint that leaves out the attestation
  types; across a change of configuration it stays right exactly when the set of
  types is the same (`ReleaseReport.NeverStaleIff`).
- Setup-password failures from the 1028th in a row on raise instead of being
  recorded, because `2 ** 1024` does not convert to a float; the throttle's bound
  holds up to there and not beyond (`Throttle.LostExactlyPast1027`,
  `Throttle.BoundEndsWithRecording`).
- Masking a secret that begins or ends with a star, or has three in a row, can put it
  together again; every other secret is gone (`Redact.AlwaysGoneIff`).
- The request audit hash does not cover which request a row belongs to
  (`AuditChain.RequestIdIsNotCovered`), and the request log is a chain in id order
  exactly when ids are drawn in creation order (`AuditSchedule.OnlyOneOrder`).
- If the executor refuses a job after the gate's permit was drawn, the permit is
  never given back (`InferenceGate.IdleGateOpensIff`, `InferenceGate.ShutForGood`).

## Model

| member | source | states |
|---|---|---|
| `Engine.Engine.Run` | updater/pinpoint_updater/engine.py:170-181 | The lock is taken before anything is read and given back on every way out; exactly when the files are missing, the lock file does not open, or it is a link or held, is that reported and no command issued; and a run that gets it is a complete run of the machine whose outcome word means what `Means` says. |
| `Engine.Engine.UpgradeLocked` | updater/pinpoint_updater/engine.py:183-220 | From reading the lock to the preflight verdict, every branch issues exactly the machine's commands, in order. |
| `Engine.Engine.UpgradeApproved` | updater/pinpoint_updater/engine.py:222-254 | Approval, backup, pull, migrate and the deployment follow the machine to its outcome. |
| `Engine.Engine.Deploy` | updater/pinpoint_updater/engine.py:247-268 | Recreate, health, then commit or roll back, on the branch the answers dictate: the machine followed to its end, of which `RunStory.RollbackIsTried` says in commands when the previous images are started. |
| `Engine.Engine.RollBack` | updater/pinpoint_updater/engine.py:270-282 | The previous images are started and, only if that worked, waited for; the outcome is the machine's. |
| `Engine.Engine.Commit` | updater/pinpoint_updater/engine.py:256-268 | What each action makes of a lock that cannot be rendered, written or synced. |
| `Engine.Engine.RollbackLocked` | updater/pinpoint_updater/engine.py:299-343 | A rollback's reading, verification, stamp and expected version follow the machine. |
| `Engine.Engine.RollbackApproved` | updater/pinpoint_updater/engine.py:340-363 | The rest of a rollback, its unguarded rewrite of the lock included. |
| `Engine.Engine.RestartLocked` | updater/pinpoint_updater/engine.py:367-402 | A restart reads the lock and then restarts and waits for exactly the images it names; whatever ran keeps its image. |
| `Engine.Engine.VerifyAll` | updater/pinpoint_updater/cosign.py:73-79 | Every signature, and every attestation if required, is asked for in order; the list passes exactly when all did. |
| `Engine.Host.Cosign` | updater/pinpoint_updater/cosign.py:52-70 | A reference that is not pinned by digest fails before cosign is asked; otherwise cosign may answer anything. |
| `Engine.Host.ResolveTag` | updater/pinpoint_updater/engine.py:92-103 | An invalid tag is not resolved at all, and an answer is one that resolve would give. |
| `Engine.Engine.PreflightStep` | updater/pinpoint_updater/steps.py:157-196 | Every check runs, and the step passes exactly when none failed. |
| `Engine.Engine.MigrateStep` | updater/pinpoint_updater/steps.py:263-291 | Skipped when not needed; of the migrator that ran, exit 2 asks for approval, any other non-zero exit fails, and zero goes on. |
| `Engine.Engine.BackupStep` | updater/pinpoint_updater/steps.py:223-244 | The backup is of the running images, and the step passes exactly when the command and its report succeeded and, in verify mode, it was restored; with backups off nothing is issued. |
| `Engine.Engine.HealthRound` | updater/pinpoint_updater/steps.py:310-340 | The worker is pinged exactly when every check from outside passed, and both self-checks run exactly when the ping did too; the list is all good exactly when the round passed: version, revision, both pages, ping and self-checks. |
| `Engine.Engine.HealthStep` | updater/pinpoint_updater/steps.py:343-362 | For any interval and timeout, the retry loop ends; it succeeds exactly when its last round passed every check, gives up only once the deadline is past, and otherwise the sleep between two rounds raised, which takes a negative interval. |
| `Locking.InstanceLock.Acquire` | updater/pinpoint_updater/locking.py:28-48 | Succeeds exactly when the file opens and nobody holds the lock; otherwise nothing changes. |
| `Locking.InstanceLock.Release` | updater/pinpoint_updater/locking.py:50-54 | Lets go of what this object holds and of nothing else. |
| `Locking.InstanceLock.Available` | updater/pinpoint_updater/locking.py:62-69 | Says whether the lock is free and leaves holder and descriptor as they were. |
| `RunProperties.RunIsAt` | updater/pinpoint_updater/engine.py:183-282 | Wherever a run has got to, or was cut short, how its world compares with the world it started in. |
| `RunProperties.OutcomeDeterminesWorld` | updater/pinpoint_updater/engine.py:183-405 | For every behaviour of the outside commands the outcome word determines the world (nothing changed; only the schema may have; the old digests run and the lock is untouched; or the new images run and the lock is wholly old or wholly new; where an exception from the sleep left it) and the commands: none that acts after noop, refused and not confirmed, only the migration after needs approval and migration failed; exit 2 or 3 changed nothing at all. What was tried before each word is `RunStory.RollbackIsTried`. |
| `RunProperties.RunActed` | updater/pinpoint_updater/engine.py:183-282 | At every point of every run, which commands that act can be behind it. |
| `RunOrder.NothingActsEarly` | updater/pinpoint_updater/engine.py:211-254 | For the one job a run works on (its lock, and the release its tag resolved to): a migration or recreate on its images comes after verification, schema window, approval, a backup of the running images that succeeded and, in verify mode, was restored, and a pull of its own, in that order; the only other images ever started are those the lock names, after such a recreate. |
| `RunOrder.NoUpgradeWithoutBackup` | updater/pinpoint_updater/engine.py:222-254 | In every upgrade with backups on, anything that changes the instance has behind it a backup of what ran that exited with zero, reported ok and, in verify mode, was restored. |
| `RunOrder.ActsOnlyWithConsent` | updater/pinpoint_updater/request_source.py:75-102 | Anything that changes the instance comes after consent: under two people's policy another person's approval; otherwise, without an approval given beforehand, a yes at the terminal's prompt. |
| `RunOrder.ConsoleActsOnlyWhenApproved` | updater/pinpoint_updater/request_source.py:318-359 | Any change made for a console row had that row's approval: a second person's, unless it is a restart, or the row says single and the host sets no floor. |
| `RunOrder.CommitFollowsOneHealthyRound` | updater/pinpoint_updater/engine.py:247-268 | Success means one single round passed every check, written out in status codes, version, revision, ping and self-checks, and nothing happened between it and the rewrite. |
| `RunOrder.RolledBackIsHealthy` | updater/pinpoint_updater/engine.py:270-279 | A run that says it rolled back last saw the old images healthy. |
| `RunOrder.RunHasPassed` | updater/pinpoint_updater/engine.py:211-254 | What has been verified, approved, backed up, pulled and migrated by the time a run is at each point. |
| `RunOrder.AllAskedIsSigned` | updater/pinpoint_updater/cosign.py:73-79 | What is asked of cosign covers both images' signatures and, if required, every attestation type of both. |
| `RunStory.EveryCommandIsDue` | updater/pinpoint_updater/engine.py:183-405 | Of every run over a lock that reads, without the machine: each command is the one due after the commands and answers before it; its answer ends the run exactly when, in the fields of the answers, it should; and the outcome is the word those answers lead to (refused, noop, not confirmed and all others). |
| `RunStory.RollbackIsTried` | updater/pinpoint_updater/engine.py:247-282 | Images still sick at the deadline, or that did not come up, are followed at once by the start of those the lock names; rolled back and rollback failed are said only after both were started in that order; and rollback failed only if the old ones did not come up either or were still sick at their deadline. |
| `RunStory.UnreadableEnds` | updater/pinpoint_updater/engine.py:183-186 | A lock that cannot be read ends the run with its error, before any other command. |
| `RunWords.ReasonReads` | updater/pinpoint_updater/steps.py:121-135 | Which of the five sentences on the schema window is given, with which values, and that only an unreachable instance or a revision at neither end fails. |
| `RunWords.PinnedReads` | updater/pinpoint_updater/lockfile.py:65-66 | A reference counts as pinned exactly when it is an image, the digest mark and something after it. |
| `RunReach.UpgradeSucceedsIff` | updater/pinpoint_updater/engine.py:183-268 | A run can upgrade to what its tag resolved to, by any answers of the registry, exactly when that is not what runs nor, unless allowed, an older version; its two images carry one version; the policy can be met; and the lock can hold the result. |
| `RunReach.RollbackSucceedsIff` | updater/pinpoint_updater/engine.py:299-365 | A run can roll back exactly when the lock names a way back, its images are pinned (or nothing is verified), its values can be written again, and the policy can be met. |
| `RunReach.PullToSuccess` | updater/pinpoint_updater/engine.py:231-268 | From any run at the pull, there are answers that lead to success, with or without a migration. |
| `RunText.CommittedLockReads` | updater/pinpoint_updater/engine.py:202-268 | After a success the lock reads as the new images without final newlines, the replaced ones as the way back, everything else kept; only after a tag that ends in a newline it cannot be read; and a console upgrade names no older version. |
| `RunText.RenderedReads` | updater/pinpoint_updater/engine.py:256-259 | The same of whatever any upgrade or rollback renders, for every tag, reference and version it may be handed. |
| `RunText.RollbackAfterUpgrade` | updater/pinpoint_updater/engine.py:286-365 | Any upgrade and then a rollback: the original images run again and the lock says so, extras and all. |
| `RunText.TwoRollbacks` | updater/pinpoint_updater/engine.py:286-365 | Two successful rollbacks are the identity on the lock and on what runs, for every lock. |
| `RunText.RefusedUpgradeIsHarmless` | updater/pinpoint_updater/cli.py:405-410 | For upgrades and restarts "refused; nothing changed" is always true. |
| `RunText.RefusedRollbackIsHarmlessIff` | updater/pinpoint_updater/cli.py:405-410 | For rollbacks it is true exactly when something stops the run before it acts (no way back, images that are verified but not pinned, a policy that is not met) or every value in the lock can be rendered. |
| `RunText.UnwritableRun` | updater/pinpoint_updater/engine.py:347-359 | A verified and approved rollback in which every command succeeds and the lock then cannot be rendered. |
| `Cluster.NextKeeps` | updater/pinpoint_updater/engine.py:170-181 | Acquiring, acting, with or without something left going, releasing, a kill between or inside commands, a stray command, and a power loss each keep the invariant. |
| `Cluster.EveryInterleaving` | updater/pinpoint_updater/engine.py:170-204 | Over every interleaving with kills, commands going on after their answers or their updaters, and power losses, at most one process is inside, the lock changes only by its own rename, and every lock ever written replaced one that read, kept its extras, and has as previous the current it replaced. |
| `Cluster.OutcomesHoldInAnyInterleaving` | updater/pinpoint_updater/engine.py:256-305 | Outcome words keep their meaning whatever other processes do: for the lock always, for containers and schema unless a stray command interfered; after a success no power loss brings back an older lock. |
| `Cluster.OnlyStraysDisturb` | updater/pinpoint_updater/runner.py:89-91 | If nothing goes on after its answer and no updater is killed in the middle of a command, no run is ever disturbed. |
| `Overlap.TimeoutBeliesTheNextRun` | updater/pinpoint_updater/steps.py:270-291 | Wherever an upgrade can succeed at all, its migrator can be given up at its timeout and go on, and the next run then says refused of a schema that changed under it, with nothing ever killed. |
| `Overlap.RunsOn` | updater/pinpoint_updater/engine.py:170-181 | Every run of the machine is one a process holding the lock can make. |
| `Durability.Commit` | updater/pinpoint_updater/lockfile.py:137-164 | The write at the end of a run does what the run's last events say, whichever operation fails: when it returns the disk holds the state they lead to, and after every single operation the state before its rename or the one after it. |
| `Durability.LossIsForeseen` | updater/pinpoint_updater/lockfile.py:137-164 | Whatever a power loss leaves on the disk is a power loss the interleavings allow for. |
| `Durability.OthersLeaveTheDisk` | updater/pinpoint_updater/engine.py:170-282 | Everything but a rename, its sync and a power loss leaves the lock on the disk alone. |
| `Durability.DiskNeverDescends` | updater/pinpoint_updater/engine.py:195-202 | Over any history of console upgrades among semantic versions, nothing the disk may come back as names an older version than the first. |
| `Cluster.VersionsNeverDescend` | updater/pinpoint_updater/engine.py:195-202 | Over any history of console upgrades among semantic versions, power losses included, the lock never names a version older than the one it started with. |
| `Cluster.ConsoleNeverDescends` | updater/pinpoint_updater/engine.py:195-202 | The same from any moment at which the lock is safely on disk, and for every text a power loss could bring back. |
| `Cluster.SuccessIsAFloor` | updater/pinpoint_updater/engine.py:256-268 | Once an upgrade has reported success, its version is a floor for everything console upgrades do later. |
| `Lockfile.Parse` | updater/pinpoint_updater/lockfile.py:80-92 | The line loop computes the collected pairs of the text, or fails on the first bad line. |
| `Lockfile.RenderLock` | updater/pinpoint_updater/lockfile.py:119-134 | The loop that checks and appends one pair at a time computes the rendered text, or refuses. |
| `Lockfile.RendersIffSafe` | updater/pinpoint_updater/lockfile.py:119-134 | Rendering succeeds exactly when every value matches the safe pattern. |
| `Lockfile.SafeValueReads` | updater/pinpoint_updater/lockfile.py:36-36 | Exactly which values are safe, character by character, the final newline the pattern lets through included. |
| `Lockfile.RendersLines` | updater/pinpoint_updater/lockfile.py:119-134 | What is rendered is exactly these lines: notice, header, the current images under their keys, the replaced ones under theirs with the prefix, the extras. |
| `Lockfile.ItemsAreSorted` | updater/pinpoint_updater/lockfile.py:129-129 | Every extra is written once, in code-point order of the keys. |
| `Lockfile.ReadsKeys` | updater/pinpoint_updater/lockfile.py:95-116 | Which key fills which field; a state is read exactly when the three required keys have values, and a way back exactly when its three do. |
| `Lockfile.LastPairWins` | updater/pinpoint_updater/lockfile.py:80-92 | One bad line spoils the file; otherwise every key has its last line's value. |
| `Lockfile.PairLineIff` | updater/pinpoint_updater/lockfile.py:35-91 | Exactly which lines are pairs, and of which key and value: white space, an export, the key, white space around the sign, one pair of quotes. |
| `Lockfile.BlankLineIff` | updater/pinpoint_updater/lockfile.py:83-84 | Exactly which lines are skipped: white space, and comments after white space. |
| `Lockfile.RoundTrip` | updater/pinpoint_updater/lockfile.py:80-134 | Under a one-line header, what is rendered reads back as the same current, previous, app versions and extras exactly when no value holds the newline `$` lets through. |
| `Lockfile.ReadsBackChomped` | updater/pinpoint_updater/lockfile.py:80-134 | Whatever newlines the values end in, the file reads back as the same state without them. |
| `Lockfile.BrokenHeaderIsUnreadable` | updater/pinpoint_updater/lockfile.py:124-125 | A header that breaks into a second line leaves a file that cannot be read. |
| `Lockfile.WrittenIsRead` | updater/pinpoint_updater/lockfile.py:80-134 | A renderable state with one-line values is written and read back whole. |
| `Lockfile.ReadIsClean` | updater/pinpoint_updater/lockfile.py:95-116 | Whatever a lock file holds, what is read from it is a well-formed state without line feeds in its values. |
| `Lockfile.TrailingNewlineIsLost` | updater/pinpoint_updater/lockfile.py:35-36 | A safe value that ends in a newline and is not read back. |
| `Lockfile.RollbackUndoesUpgrade` | updater/pinpoint_updater/lockfile.py:95-134 | Through the file, upgrade then rollback restores the original state's images, and two rollbacks the whole state. |
| `Lockfile.SplitLinesOfUnlines` | updater/pinpoint_updater/lockfile.py:82-134 | Splitting joined lines gives the lines back. |
| `Lockfile.ExportParses` | updater/pinpoint_updater/lockfile.py:35-35 | A hand-written export before any line that is a pair, after any white space, makes no difference. |
| `Lockfile.QuotedPairMatches` | updater/pinpoint_updater/lockfile.py:85-91 | Quotes of either kind around a value are not part of it. |
| `AtomicReplace.Directory.WriteLock` | updater/pinpoint_updater/lockfile.py:137-164 | After every single operation, and after losing power there, the path reads as the complete old text or the complete new one; after a normal return only as the new one; every disk on the way is one a further attempt can start from. |
| `AtomicReplace.Directory.WriteTemp` | updater/pinpoint_updater/lockfile.py:146-151 | Writing the temporary file, in pieces of any size and stopped anywhere, touches nothing the path can be read through. |
| `AtomicReplace.AlwaysOneWholeText` | updater/pinpoint_updater/lockfile.py:137-164 | Over any history of attempts, crashes inside them and power losses, the path holds one complete text. |
| `AtomicReplace.PowerLossReadsAsFeared` | updater/pinpoint_updater/lockfile.py:160-164 | What a power loss leaves is one of the readings the model allowed for. |
| `Versions.DowngradeIsPrecedence` | updater/pinpoint_updater/steps.py:79-100 | A downgrade is exactly a target of lower precedence under section 11 of Semantic Versioning 2.0.0, stated without the sort key: the first identifiers that differ decide, and of two that are not numbers the first differing character. |
| `Text.BeforeIsFirstDifference` | updater/pinpoint_updater/steps.py:92-100 | The order of texts is that of the code points at their first difference, a proper prefix first. |
| `Versions.ParsesIff` | updater/pinpoint_updater/steps.py:79-93 | A text is a version exactly when it has the written shape (optional v, three numbers, optional prerelease, optional build metadata) between white space, and it is read as those numbers and that prerelease. |
| `Versions.SplitDotsJoins` | updater/pinpoint_updater/steps.py:92-92 | The identifiers of a prerelease joined by dots are the prerelease, and hold no dot. |
| `Versions.KeyOrder` | updater/pinpoint_updater/steps.py:82-93 | The key order is irreflexive, transitive and total. |
| `Versions.BuildMetadataIsIgnored` | updater/pinpoint_updater/steps.py:79-93 | Build metadata does not change the key (section 10), whatever white space surrounds the version. |
| `Versions.ShownVersionParses` | updater/pinpoint_updater/steps.py:79-93 | Every semantic version in canonical form is read back whole, with or without a leading v. |
| `Versions.NormIgnoresV` | updater/pinpoint_updater/steps.py:72-76 | A leading v of either case, or white space around it, makes no difference to what a version is compared with. |
| `Versions.NormKeepsOthers` | updater/pinpoint_updater/steps.py:72-76 | Any other text is compared as it is, white space around it aside. |
| `Text.StripTrims` | updater/pinpoint_updater/steps.py:72-87 | Stripping takes white space off both ends, all of it, and nothing else. |
| `Versions.NeverDescends` | updater/pinpoint_updater/steps.py:96-100 | Over a run of semantic versions with no single step down, the last is not below the first. |
| `Versions.NonSemanticBreaksTheChain` | updater/pinpoint_updater/steps.py:96-100 | One version that is not semantic in between, and a run can descend. |
| `Approval.ConsoleRowPasses` | updater/pinpoint_updater/request_source.py:85-102 | Exactly which console rows pass the approval step, in the row's own terms. |
| `Approval.RowReads` | updater/pinpoint_updater/request_source.py:318-341 | Exactly which console rows are requests, and what each field of the request is in the fields of the row. |
| `Approval.NamedKeepsNames` | updater/pinpoint_updater/request_source.py:335-335 | Reading a row keeps exactly the approvers with a name. |
| `Registry.LabelsAreDetermined` | updater/pinpoint_updater/registry.py:193-249 | Whatever the registry answers, two successful reads of one digest's labels agree, unless they exhibit a collision. |
| `Registry.LabelsIff` | updater/pinpoint_updater/registry.py:193-249 | Labels are read for a digest exactly when every manifest and blob on the way, through the first real platform of an index, was answered with 200 and with the bytes its digest names; and they are those of the last blob that are not null. |
| `Registry.DescentIsDetermined` | updater/pinpoint_updater/registry.py:227-249 | The same from one manifest on, through index, platform manifest and config blob. |
| `Registry.FirstPlatformIsFirst` | updater/pinpoint_updater/registry.py:235-242 | The descent takes the first entry with a real platform, and fails only if there is none. |
| `Registry.HonestRegistryServes` | updater/pinpoint_updater/registry.py:193-249 | An honest registry holding a well-formed image is read to the end. |
| `Registry.OnlyTheContentIsAccepted` | updater/pinpoint_updater/registry.py:193-249 | What any registry gets accepted for a digest is what the honest one holds under it. |
| `Registry.ResolveReadsLabels` | updater/pinpoint_updater/sources.py:142-184 | A resolved release's version, revisions and commit are those of its own backend digest's labels, and the label agrees with the tag. |
| `Registry.ResolveSays` | updater/pinpoint_updater/sources.py:142-184 | Each half of a resolved release has its own image, the digest the registry named for it, and the labels read from that digest; version, commit and revisions are the backend's, the frontend's version its own; and neither version names another release. |
| `Registry.ResolvesIff` | updater/pinpoint_updater/sources.py:142-169 | A release resolves exactly when its tag is valid, both images name a host, and both halves are served whole and name no other release. |
| `Registry.StampReads` | updater/pinpoint_updater/registry.py:62-70 | Which label feeds which field of a stamp, and which other label stands in for one that is missing or empty. |
| `Registry.HostReads` | updater/pinpoint_updater/registry.py:54-59 | An image names a registry exactly when something follows its first slash and what comes before has a dot, a port, or is this machine. |
| `Registry.DigestReads` | updater/pinpoint_updater/registry.py:45-45 | A digest is the algorithm and sixty-four of its sixteen digits, the final newline the pattern lets through included. |
| `Registry.OneImageOneRelease` | updater/pinpoint_updater/sources.py:159-169 | Two tags that resolve to the same version-labelled backend image are the same release after normalisation. |
| `Registry.ResolvedIsPinned` | updater/pinpoint_updater/sources.py:61-67 | Everything a resolve returns is pinned by digest, as the preflight demands. |
| `Registry.ResolvedFits` | updater/pinpoint_updater/sources.py:142-184 | Every answer of resolve carries the tag that was asked for, labels that name that release, and two pinned references, each of its own image and digest: what the run machine takes a release to be. |
| `Registry.RollbackSeesTheSameStamp` | updater/pinpoint_updater/sources.py:186-196 | Asking later for the stamp of a recorded reference gives what the resolve gave, or nothing. |
| `ReleaseReport.VerdictCache.Check` | updater/pinpoint_updater/release_report.py:126-133 | A cached yes was given to this very question under this fingerprint; a fresh yes is remembered. |
| `ReleaseReport.CachedWasAccepted` | updater/pinpoint_updater/release_report.py:58-65 | Distinct questions have distinct keys, so the cache answers only what was asked. |
| `ReleaseReport.Reports.Build` | updater/pinpoint_updater/release_report.py:90-149 | Whatever the cache holds, every row says in cosign's answers what it may: signed only if both images were accepted under this fingerprint, unsigned only if one was refused, the gate passed exactly beside a true signature and never failed, attested only if every type was accepted for both, nothing of this in insecure mode; digests, revisions and window are those of the resolved release; and the rows are those of no cache if cosign told the truth. |
| `ReleaseReport.Reports.BuildCached` | updater/pinpoint_updater/release_report.py:152-176 | Rebuilt or republished, every row of the list says no more than that; it is republished exactly when it was kept under this fingerprint and mode, is not too old, and no rebuild is forced; and it is what an uncached build would return against today's health if cosign told the truth in the pass that built it and releases and types are still those. |
| `ReleaseReport.PollAll` | updater/pinpoint_updater/cli.py:316-330 | Over any number of passes under any configurations, with files lost or not written at any time, every list was built by a pass under its fingerprint and mode not too long ago, every row of it says only what cosign answered under that fingerprint and what that pass resolved, and it is current if that pass had the same releases and types and an honest cosign. |
| `ReleaseReport.Reports.RecheckRows` | updater/pinpoint_updater/release_report.py:179-192 | The loop rechecks every row and changes nothing but the compatibility columns. |
| `ReleaseReport.RecheckIsHonest` | updater/pinpoint_updater/release_report.py:179-192 | Rechecked, every row says what is so under today's health, and everything else it said stays earned. |
| `ReleaseReport.RecheckIsRebuild` | updater/pinpoint_updater/release_report.py:179-192 | Rechecking a list built under any health gives the list built under today's. |
| `ReleaseReport.NeverStaleIff` | updater/pinpoint_updater/release_report.py:77-79 | The kept list survives a change of attestation types exactly when the set of types is the same. |
| `ReleaseReport.ListAndEngineAgree` | updater/pinpoint_updater/release_report.py:116-117 | The compatible column says exactly whether the live revision is an end of the window, and an upgrade run that sees the same health refuses what it calls incompatible. |
| `AuditChain.HeadIsTheHistory` | backend/app/models.py:568-605 | Two valid chains have the same head exactly when they agree, in number and value, on every hashed field of every row. |
| `AuditChain.HeadDetermines` | backend/app/models.py:568-605 | The head determines the length and the hashed fields. |
| `AuditChain.HashesAreDistinct` | backend/app/models.py:568-605 | No hash appears twice in a chain. |
| `AuditChain.RequestIdIsNotCovered` | backend/app/models.py:568-581 | Moving a row to another request leaves the chain valid. |
| `AuditChain.SealPending` | backend/app/models.py:633-661 | The listener sorts by creation order and leaves every row linked to the one before it and sealed, dated if it was not, and with every other field as it was. |
| `AuditChain.SealInOrder` | backend/app/models.py:653-661 | The hash loop writes onto the row objects exactly the sealed chain of their values. |
| `AuditChain.SealedAt` | backend/app/models.py:653-661 | Each sealed row keeps its values, names the hash before it, and hashes both. |
| `AuditChain.SealedExtends` | backend/app/models.py:648-661 | Rows sealed from a chain's head extend it to a valid chain. |
| `AuditSchedule.EverySchedule` | backend/app/models.py:665-690 | Over every schedule of concurrent transactions, the committed rows in id order are one valid chain. |
| `AuditSchedule.NextKeeps` | backend/app/models.py:633-690 | Every statement of every transaction keeps the invariant. |
| `AuditSchedule.NeverForks` | backend/app/models.py:639-647 | No two committed rows name the same predecessor. |
| `AuditSchedule.CommittedOnlyGrows` | backend/app/models.py:665-690 | Committed rows are never changed or removed by later transactions. |
| `AuditSchedule.AnchorPinsHistory` | backend/app/models.py:541-560 | A valid chain that passes through an anchored head has, up to it, the rows and the count the anchor saw. |
| `AuditSchedule.OnlyOneOrder` | backend/app/models.py:622-644 | Rows of one flush stored in any order but creation order are not a chain. |
| `Throttle.BootstrapThrottle.PruneOld` | backend/app/api/auth.py:180-186 | Both loops together compute the pruned state. |
| `Throttle.BootstrapThrottle.LockoutSeconds` | backend/app/api/auth.py:189-199 | Prunes, and returns what is left of this address's lockout. |
| `Throttle.BootstrapThrottle.NoteBootstrapFailure` | backend/app/api/auth.py:202-218 | Records the failure with its doubled, capped lockout, or raises with only the pruning done. |
| `Throttle.BootstrapThrottle.NoteBootstrapSuccess` | backend/app/api/auth.py:221-223 | Forgets this address and leaves the deployment-wide list alone. |
| `Throttle.BootstrapThrottle.GlobalPauseSeconds` | backend/app/api/auth.py:226-234 | The pause is its constant exactly from twenty recent failures on, and otherwise zero. |
| `Throttle.EveryRunIsExact` | backend/app/api/auth.py:180-234 | After any calls, the map holds exactly the addresses that failed within the hour and were not cleared, with their streaks, and the list exactly the failures of the last fifteen minutes. |
| `Throttle.PenaltySays` | backend/app/api/auth.py:207-215 | Three failures are free, the fourth costs five seconds, each further one twice as much, and none more than fifteen minutes. |
| `Throttle.AccountSays` | backend/app/api/auth.py:202-223 | A failure counts on from the last within the hour and otherwise from one; a success wipes the slate; calls of other addresses do not count. |
| `Throttle.RememberedForAnHour` | backend/app/api/auth.py:180-186 | An address is in the map exactly while its last failure is at most an hour old. |
| `Throttle.PruningIsInvisible` | backend/app/api/auth.py:180-199 | What a caller is told is what the whole log says with no pruning at all; each wait is at most fifteen minutes; the list is sorted. |
| `Throttle.GuessesAreBounded` | backend/app/api/auth.py:156-161 | One address gets at most (2685 + T)/300 wrong passwords recorded in T seconds, hence at most 12 + T/300, whatever other addresses do. |
| `Throttle.BoundIsMet` | backend/app/api/auth.py:156-161 | A run that meets the bound exactly. |
| `Throttle.LostExactlyPast1027` | backend/app/api/auth.py:208-214 | A failure is lost to the overflow exactly when 1027 in a row are already recorded. |
| `Throttle.BoundEndsWithRecording` | backend/app/api/auth.py:208-218 | Past that, any number of tries fits in no time at all. |
| `InferenceGate.EveryInterleaving` | redactor/app/main.py:32-59 | At most one inference runs; permits, running jobs and failed starts add up to one; the counter is the queue and never exceeds its bound; every job releases once, when it finishes. |
| `InferenceGate.IdleGateOpensIff` | redactor/app/main.py:45-59 | An idle gate lets the next request in exactly when no start has failed; a caller that left early never costs the slot. |
| `InferenceGate.ShutForGood` | redactor/app/main.py:56-57 | After a failed start nothing ever runs again. |
| `InferenceGate.Gate.Enter` | redactor/app/main.py:46-50 | Refuses exactly when the queue is full. |
| `InferenceGate.Gate.Acquired` | redactor/app/main.py:51-57 | Leaves the queue, takes the permit and starts the job. |
| `InferenceGate.Gate.GiveUp` | redactor/app/main.py:51-55 | A timeout or cancellation leaves the queue and takes nothing. |
| `InferenceGate.Gate.OnDone` | redactor/app/main.py:57-57 | The finished job gives the permit back, once. |
| `Thinning.Thin` | backend/scripts/generate_demo_gis.py:527-543 | The grid keeps exactly what comparing with every kept point would keep, for all coordinates and every gap. |
| `Thinning.NineCellsAreEnough` | backend/scripts/generate_demo_gis.py:534-539 | The nine cells hold a near point exactly when anything kept is near. |
| `Thinning.Probe` | backend/scripts/generate_demo_gis.py:534-538 | The nested loops look at exactly the nine cells. |
| `Thinning.KeptInOrder` | backend/scripts/generate_demo_gis.py:527-543 | What is kept is an order-preserving selection of the candidates. |
| `Thinning.KeptIsSpread` | backend/scripts/generate_demo_gis.py:527-543 | No two kept points are nearer than the gap. |
| `Thinning.NothingIsDroppedInVain` | backend/scripts/generate_demo_gis.py:527-543 | Every candidate is kept or near one kept before its turn. |
| `Thinning.KeptAreApart` | backend/scripts/generate_demo_gis.py:527-543 | In squares of distances: two kept points are at least the gap apart. |
| `Thinning.DroppedIsClose` | backend/scripts/generate_demo_gis.py:527-543 | In squares of distances: a dropped candidate is less than the gap from a point kept before its turn. |
| `Parcels.BuildParcels` | backend/scripts/generate_demo_gis.py:419-441 | Fails exactly on an unknown neighbourhood; otherwise one feature per row, each with the PIN its block and place in it call for. |
| `Parcels.PinSays` | backend/scripts/generate_demo_gis.py:426-441 | A PIN is the code, the block and the lot: the block is the base of the neighbourhood plus the number of street sides seen there by then, the lot the number of rows in the block by then. |
| `Parcels.PinsAreDistinct` | backend/scripts/generate_demo_gis.py:430-440 | No two rows share a PIN, even where block ranges collide. |
| `Parcels.BlocksFollowSides` | backend/scripts/generate_demo_gis.py:430-434 | Within a neighbourhood two rows share a block exactly when they lie on the same street side. |
| `Redact.Secrets.Register` | updater/pinpoint_updater/redact.py:37-41 | Adds exactly the stripped secret of four characters or more. |
| `Redact.Secrets.Redact` | updater/pinpoint_updater/redact.py:49-56 | Longest first, each replaced everywhere, and no safe secret is left. |
| `Redact.MaskingCreatesNothing` | updater/pinpoint_updater/redact.py:55-56 | Masking one secret never creates an occurrence of another. |
| `Redact.NoSecretIsLeft` | updater/pinpoint_updater/redact.py:53-56 | In whatever order they are masked, no safe secret occurs anywhere afterwards. |
| `Redact.AlwaysGoneIff` | updater/pinpoint_updater/redact.py:16-56 | A secret is gone from every text after its own masking exactly when it does not begin or end with a star or hold three in a row. |
| `Redact.ReplaceAfter` | updater/pinpoint_updater/redact.py:55-56 | Before the first occurrence the text stays as it is, and masking goes on right after it. |
| `Redact.NothingToMask` | updater/pinpoint_updater/redact.py:55-56 | A text that does not hold the secret is left alone. |

## Left out

- `Cluster.VersionsNeverDescend`: for versions that are semantic; `Versions.NonSemanticBreaksTheChain` shows what happens otherwise.
- `Engine.Engine.HealthStep`: interval and timeout are whole ticks of a clock; a round of requests is taken to last at least one tick of the clock.
- `ReleaseReport.PollAll`: cosign may answer anything, but an acceptance is taken to hold from then on, as the cache itself assumes.
- `Cluster.OutcomesHoldInAnyInterleaving`: what goes on after its answer or its updater may do anything to containers and schema, so of a run it overlaps the outcome word is claimed for the lock alone.
- `RunProperties.OutcomeDeterminesWorld`: says nothing of the schema once containers have been started, because each runs its own migrator first (backend/scripts/entrypoint.sh:28).
- `Lockfile.Parse`: the key pattern's `\s` and `str.splitlines` are modelled over the basic multilingual plane's white space; other digits than ASCII's in versions are not modelled.
- `AuditSchedule.EverySchedule`: read-committed transactions without savepoints, ids drawn in the order rows are inserted; rows of the older unkeyed scheme are left out.
- `Throttle.GuessesAreBounded`: for attempts of one address that do not overlap; real arithmetic instead of floating point.
- `Thinning.Thin`: over real numbers; candidates are their points.
- `InferenceGate.EveryInterleaving`: assumes `wait_for` either returns with the permit or raises without it; how long a caller waits is not modelled.
- `Locking.InstanceLock.Acquire`: writing the pid into the lock file is taken to succeed.
- `Redact.Secrets.Redact`: the regular-expression patterns applied after the registered secrets, and the recursion into dicts and lists.
- `ReleaseReport.Reports.Build`: for image references without `|`, which no OCI reference holds; a failing listing call, and JSON as a file format; the rows written are the rows read.
- `Registry.LabelsAreDetermined`: token exchange and redirects are part of an arbitrary answer; headers other than the digest are not looked at.
- The URLs requested of a registry: whatever was asked for, the answer is arbitrary.
- Step reporting, summaries and detail texts, heartbeats, and the console's claim and publish calls.
- The `plan`, `verify` and `status` commands, which change nothing.
- docker, cosign, HTTP and subprocess handling, deploy templates, the demo orchestrator, the frontend and the API routers.
- `parse_releases` of GitHub and GitLab, and every column of the demonstration layers other than the PIN.
