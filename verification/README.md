# g7-installer: verified model

This project models the recovery and event logic of the installer in Dafny and proves properties of it for every
input, every run and every interleaving. `dafny verify dfyconfig.toml` checks the whole project.

What is modelled:

- **Live event stream** (`EventProtocol`, `EventProofs`, `EventDelivery`, `EventRuntime`): publishers number, remember
  and broadcast events; a socket task replays, announces itself, follows a 128-slot ring and refills from a 2,000-entry
  history; the browser filters by sequence number and reconnects. A step system interleaves all of them. The classes of
  `EventRuntime` are the same code with fields, each method tied to a step.
- **Reset** (`Paths`, `ResetAllowlist`, `DiskTree`, `ResetFiles`, `DryRun`, `ResetPackages`, `ResetRun`, `ResetRetry`,
  `ResetNames`, `ResetWitness`): path strings and where they lead in a tree with files, directories and symbolic links,
  the allowlist, the removal deepest first with faults at every entry, what a dry run foretells, the package purge under
  an arbitrary apt, the whole run with arbitrary command replies, what the reset after a failed one still knows, and
  trees on which a promise fails.
- **Finalize** (`Finalize`, `FinalizeEnd`): ownership is recorded before units are written, one system call at a time,
  and a crash may come between any two of them; and how the recorded state and the report end.
- **Web roots** (`WebRoot`): the web roots an installation accepts against the paths a reset accepts.
- **Recorded progress** (`InstallerState`, `Recovery`): the step records under any calls, and the resume classifier.
- **Mutual exclusion** (`Operations`): the running flag, its guard, the lock file and panics as steps.
- **Atomic replacement** (`AtomicWrite`): any number of concurrent writers, and one call with its faults.
- **Release policy** (`Orders`, `SemVer`, `Changelog`): the SemVer grammar and order, and the changelog check.
- **Printers and readers** (`Quoting`, `SetupGuide`, `SecureEq`, with `Strings`, `Numbers` and `Options` as helpers).

## What the proofs found

Where a promise does not hold on all inputs, the code is modelled as it is and a lemma says exactly when it holds.

- An event published between a socket's replay and its connected event is lost for a browser that goes on to receive the
  connected event (`EventProofs.WindowLosesAnEvent`, reached by `EventProofs.WindowIsReached`); one whose connection
  breaks before that gets it from the next replay. Over whole serialised runs the callback misses nothing exactly when
  on no connection the browser receives anything written after the connection has lost something
  (`EventDelivery.MissesNothingIff`).
- Overlapping publishers can lose an event for good (`EventProofs.OvertakingLosesAnEvent`). An event is written exactly
  when no number sent before it on the connection is as high (`EventProofs.EventIsWrittenIff`), and the callback misses
  nothing exactly when no message received is numbered more than one above the browser's position
  (`EventDelivery.MissesNothingIffNoJump`).
- A listed path that runs through a symbolic link is followed. A place survives every reset exactly when no entry leads
  on or above it at its turn (`ResetFiles.SurvivesIff`); certificates survive when no accepted path on the list runs
  through a link (`ResetFiles.CertificatesSurvive`), and a site directory that is a link to /etc/letsencrypt, with a
  listed path below it, loses them (`ResetWitness.LinkedSiteLosesCertificates`, `ResetWitness.SomeCertificatesAreLost`).
- A reset's dry run that succeeds foretells the real run exactly when no existing entry is listed after one that leads
  on or above a place it relies on, and none names a directory that its path cannot remove (`DryRun.DryRunIsFaithful`).
  The depth counts "." components, so a directory written with enough of them is removed before its own listed child
  (`ResetWitness.DottedForecastFails`, `ResetWitness.SomeDottedTree`); and a directory written with "." at its end can
  only be emptied: the dry run promises it, the reset fails (`ResetWitness.StuckForecastFails`,
  `ResetWitness.SomeStuckTree`).
- The ownership list is itself on the list of files to remove. A removal that fails after it leaves paths the next
  reset does not know: `ResetRetry.RetryIsCompleteIff` says when, and `ResetWitness.StoppedResetForgets` with
  `ResetWitness.SomeTreeIsForgetful` shows such a reset.
- A certbot plugin that came as a dependency, is not in the plan and is not marked manual can be removed along with
  a purge (`ResetPackages.PreservedSurvivesIff`, `ResetPackages.PluginIsLost`).
- The installation accepts a web root such as /var/www/foo..bar, but a reset refuses every path with two dots in a row:
  after finalize no reset gets through (`WebRoot.ResetSucceedsIffNoDoubleDots`, `WebRoot.AcceptedButNotReset`).
- A crash leaves a temporary file exactly between its creation and its rename (`Finalize.LeftoverIff`). No reset
  whose listed paths run through no link removes one beside the units (`Finalize.LeftoverSurvivesReset`); the ownership
  list's own goes with its directory in a successful reset that lists /var/lib/g7-installer
  (`Finalize.OwnedLeftoverIsRemoved`, `Finalize.LeftoverAfterReset`).
- A second failed finalize in a row leaves the first one's report (`FinalizeEnd.ReportTellsOfFirstFailure`).
- After a worker panic the handler's second clearing of the flag can hit another operation; the lock still admits one
  body (`Operations.FlagIsExactIff`, `Operations.StaleClearAdmitsASecond`), and the flag never sticks
  (`Operations.FlagNeverSticks`).
- A recorded state with a current step that has no record is offered for retry all the same
  (`Recovery.OfferIsRecordedIff`).
- An atomic write can report an error although the new content is in place (`AtomicWrite.FileStore.Write`).
- The changelog check raises instead of listing failures when an invalid version has a neighbour
  (`Changelog.InvalidVersionRaises`).
- Escaped MySQL strings read back only in the default backslash mode, or if there is no backslash
  (`Quoting.WithoutBackslashModeIff`).

## Model

| member | source | states |
|---|---|---|
| `EventRuntime.EventHub.PublishEvent` | crates/g7-cli/src/web_setup/session.rs:335-348 | one publication numbers, remembers and sends exactly one event: the new hub is the old one after the whole publication of the step system |
| `EventRuntime.EventHub.Snapshot` | crates/g7-cli/src/web_setup/session.rs:321-332 | the snapshot is the history above the given number, in history order |
| `EventRuntime.PublishLogs` | crates/g7-cli/src/web_setup/session.rs:335-348 | a publication appends one event to the log and returns it, also while others are pending |
| `EventRuntime.SocketTask.Turn` | crates/g7-cli/src/web_setup/routes.rs:432-469 | one turn of the socket task (replay, announce, follow, refill) is one turn of the step system, with the same output and the same hub |
| `EventRuntime.EventStreamClient.Receive` | web/modules/event-stream.js:13-27 | one message is delivered or dropped by the sequence filter; an unparsable one changes nothing |
| `EventRuntime.EventStreamClient.Closed` | web/modules/event-stream.js:28-33 | a broken connection arms the reconnect timer unless the client was stopped: in the invariant every method keeps, a client that is neither connected nor stopped has its timer armed |
| `EventRuntime.EventStreamClient.Fire` | web/modules/event-stream.js:7-11 | when the timer fires the client connects exactly if the step system does, and its position and deliveries stay |
| `EventRuntime.EventStreamClient.Stop` | web/modules/event-stream.js:38-44 | a stopped client keeps its position and what it delivered, and no timer is left or can be armed again |
| `EventProofs.AfterSelects` | crates/g7-cli/src/web_setup/session.rs:321-332 | a snapshot contains exactly the remembered events above the given number |
| `EventProofs.PublishSerial` | crates/g7-cli/src/web_setup/session.rs:335-348 | a publication that nothing overlaps keeps the history the last 2,000 events of the log and the ring equal to the log |
| `EventProofs.RefillFetches` | crates/g7-cli/src/web_setup/routes.rs:458-465 | a refill fetches one gapless stretch up to the end of the log and misses exactly what the history had dropped |
| `EventProofs.SocketDelivery` | crates/g7-cli/src/web_setup/routes.rs:432-469 | after any serialised run, on every connection that has announced itself, also one that lags or refills: what was written and fetched from the connected event on is the log without a gap exactly when at each refill at most 2,000 events had been missed; the whole of it is gapless exactly when moreover nothing was published between the replay and the announcement; in every case it is strictly increasing |
| `EventProofs.FollowerWritesRecords` | crates/g7-cli/src/web_setup/routes.rs:448-456 | in every interleaving of overlapping publishers a socket that the ring does not overrun writes exactly the running maxima of what is sent |
| `EventProofs.EventIsWrittenIff` | crates/g7-cli/src/web_setup/routes.rs:448-456 | after any run, an event such a socket reads is written exactly when its number exceeds the socket's position and every number sent before it on this connection |
| `EventProofs.ExactlyOnce` | web/modules/event-stream.js:13-33 | with serialised publications, no publication in the announcement window and at most 2,000 events missed, the callback has seen exactly the events after its first position, each once and in order, across any reconnects, and all of them once nothing is in flight |
| `EventDelivery.MissesNothingIff` | web/modules/event-stream.js:13-33 | after any serialised run, with any losses on its connections, the callback has seen every event between the browser's first and last position, each once and in order, exactly when on no connection the browser received a message written after the socket had left something out: by a replay or refill that came more than 2,000 events late, or by an announcement that was not the next event |
| `EventDelivery.MissesNothingIffNoJump` | web/modules/event-stream.js:20-26 | in every interleaving of publishers, socket turns, losses and reconnects the same holds exactly when no message received is numbered more than one above the browser's position |
| `EventProofs.CallbackIsSafe` | web/modules/event-stream.js:13-27 | for every interleaving of overlapping publishers, socket turns, losses and reconnects the callback sees strictly increasing numbers and only genuine, published events |
| `EventProofs.LostStaysLost` | web/modules/event-stream.js:20-25 | an event the browser has passed without delivering is not delivered by any continuation |
| `EventProofs.OvertakingLosesAnEvent` | crates/g7-cli/src/web_setup/session.rs:335-347 | a concrete run in which two publishers overlap, the later number is sent first and the earlier event is lost whatever follows |
| `EventProofs.OvertakenIsNotWritten` | crates/g7-cli/src/web_setup/session.rs:335-347 | an event that follows a higher number wherever it is sent is not written on the connection, whatever the interleaving |
| `EventProofs.WindowLosesAnEvent` | crates/g7-cli/src/web_setup/routes.rs:434-446 | an event published between the replay and the connected event is not delivered by any continuation once the browser has received that connected event |
| `EventProofs.WindowIsReached` | crates/g7-cli/src/web_setup/routes.rs:434-446 | a connection, one replay turn and one publication lead from a fresh controller to such a moment |
| `EventProofs.FilterKeepsRecords` | web/modules/event-stream.js:20-26 | for any messages of any server, a numbered message reaches the callback exactly when its number exceeds all earlier ones |
| `ResetAllowlist.AdmittedIsManaged` | crates/g7-core/src/commands/reset.rs:1049-1170 | every string the allowlist accepts names a place in the managed part of the tree |
| `ResetAllowlist.AdmitsDecidesManaged` | crates/g7-core/src/commands/reset.rs:1049-1170 | on canonical paths without ".." the string tests accept a path exactly when its place is managed |
| `ResetAllowlist.ManagedIsApartFromCertificates` | crates/g7-core/src/commands/reset.rs:1055-1161 | no managed place is the certificate directory, lies below it or above it |
| `ResetFiles.SurvivesIff` | crates/g7-core/src/commands/reset.rs:405-443 | on every tree, symbolic links included, an existing place is kept by every real removal of a list, however it fails, exactly when no accepted entry leads on or above it at its turn |
| `ResetFiles.OnlyLostPlacesChange` | crates/g7-core/src/commands/reset.rs:405-443 | wherever a removal fails, only places that an entry leads on or above at its turn can change |
| `ResetFiles.RemovesExactlyTheLost` | crates/g7-core/src/commands/reset.rs:405-445 | on every tree a removal that gets through leaves exactly the places that no entry leads on or above at its turn |
| `ResetFiles.OnlyListedPlacesChange` | crates/g7-core/src/commands/reset.rs:405-443 | when no accepted listed path runs through a link, only places on or below one of them can change, wherever the removal fails |
| `ResetFiles.CertificatesSurvive` | crates/g7-core/src/commands/reset.rs:392-446 | when no accepted listed path runs through a link, the certificates, everything below and the directories above them are the same after every removal, dry or real, complete or interrupted |
| `ResetFiles.SucceedsIff` | crates/g7-core/src/commands/reset.rs:405-445 | on every tree, without file system faults, a removal, dry or real, succeeds exactly when every listed path is accepted and none is stopped at its turn: by a file on its way or under an open end, by too many links, or, in a real run, because its last component keeps a directory from being removed |
| `ResetFiles.ClearIff` | crates/g7-core/src/commands/reset.rs:405-445 | when no listed path runs through a link, whether an entry is stopped can be read off the tree at the start: whatever would stop it is removed by an earlier entry |
| `ResetFiles.RemovesExactlyTheListed` | crates/g7-core/src/commands/reset.rs:405-445 | when no listed path runs through a link, a successful removal leaves exactly the places that are not on or below a listed path |
| `ResetFiles.ListedIsGone` | crates/g7-core/src/commands/reset.rs:405-445 | on every tree, after a successful removal nothing is left at a place on or below what a listed path names, other than a link under an open end |
| `ResetFiles.InterruptedRunLeaves` | crates/g7-core/src/commands/reset.rs:405-443 | however a real removal of paths that run through no link ends, exactly the places on or below an entry it had dealt with are gone, up to what the failing entry has left |
| `DryRun.DryRunIsFaithful` | crates/g7-core/src/commands/reset.rs:397-445 | on every tree a dry run that succeeds reports the same lists as the real run exactly when no existing entry is listed after one that leads on or above a place it relies on, and none names a directory that its path cannot remove |
| `DryRun.ShadowMeans` | crates/g7-core/src/commands/reset.rs:397-445 | when no listed path runs through a link that condition reads: no existing path after one of its ancestors or itself, and none with "." at its end |
| `ResetFiles.DeepestFirstSorts` | crates/g7-core/src/commands/reset.rs:398 | sorting by descending depth permutes the list and keeps the order of equal depths |
| `DryRun.CanonicalListsHaveNoShadow` | crates/g7-core/src/commands/reset.rs:398 | deepest-first order puts no path after an ancestor or itself, for every duplicate-free list of canonical paths, on every tree |
| `DryRun.DotComponentsBreakTheForecast` | crates/g7-core/src/commands/reset.rs:1172-1174 | because "." components count towards the depth, on every list that holds a directory written with two of them on the way and an existing child of it, whatever else it holds, a dry run that succeeds does not report what the real run does |
| `DryRun.DotEndBreaksTheForecast` | crates/g7-core/src/commands/reset.rs:405-443 | nor on any list that holds an existing directory written with "." at its end |
| `DryRun.DryRunForetellsReset` | crates/g7-core/src/commands/reset.rs:392-446 | for canonical duplicate-free accepted lists none of whose paths runs through a file or a link both runs succeed with identical removed and missing lists |
| `ResetFiles.ResetClearsTheListed` | crates/g7-core/src/commands/reset.rs:392-446 | after a successful real run over paths that run through no link nothing exists on or below a listed path and every other node is unchanged |
| `ResetRun.Resetter.RemoveFiles` | crates/g7-core/src/commands/reset.rs:405-445 | the loop over the sorted list, with its early returns, computes the specified removal |
| `ResetRun.Resetter.Run` | crates/g7-core/src/commands/reset.rs:111-272 | for every answer of every command and every file fault: the phases come in order with the privilege query first, certbot.timer is never disabled, and no unsatisfactory reply is passed over; a dry run issues that query alone and changes nothing but the lock file; a run that stops before the listed files has spared the metadata; otherwise every phase has issued its command, every service found was dealt with, and the removal is exactly that of the list the metadata at the start call for; however it ends, what the commands spare and no entry leads on or above is as it was: so the certificates, and the database files if the operator's own server keeps them, when no listed path runs through a link |
| `ResetRun.Resetter.ResetDatabase` | crates/g7-core/src/commands/reset.rs:931-986 | the whole dialogue: the drop is issued first, a missing client is no failure, only after a refused drop and only if the server is stopped it is started, once, and asked again, and success is the last drop's |
| `ResetRun.Resetter.DisableServices` | crates/g7-core/src/commands/reset.rs:730-774 | success means that every service was asked about and disabled at once unless it was absent |
| `ResetRun.Resetter.DeleteAccount` | crates/g7-core/src/commands/reset.rs:274-334 | the whole dialogue: without an account nothing is deleted, otherwise the processes are signalled and the account deleted; the deletion is tried again, once, exactly if it was refused for a running process, and success means that the last one went through |
| `ResetRun.Resetter.RestoreNginx` | crates/g7-core/src/commands/reset.rs:362-390 | success with a backup means the main configuration is the backup; nothing above or beside it that is spared changes |
| `ResetRun.Resetter.ClearDatabaseFiles` | crates/g7-core/src/commands/reset.rs:895-929 | on success the data directory is gone if the installer brought the server in; if it did not, nothing at all changes |
| `ResetRun.Resetter.Prepare` | crates/g7-core/src/commands/reset.rs:151-229 | success means that every phase the metadata call for has issued its command and ended well, and that every service found was dealt with |
| `ResetRun.NamesOf` | crates/g7-core/src/commands/reset.rs:595-613 | the loop collects the names with one status in order |
| `ResetRun.FillMetadata` | crates/g7-core/src/commands/reset.rs:569-644 | filling from the report first and the configuration second gives the merged metadata in which the report wins |
| `ResetRun.SamePlan` | crates/g7-core/src/commands/reset.rs:448-536 | trees that agree on the six metadata and swap files give the same metadata, path list and guard, so a reset stopped before file removal is retried with the same plan |
| `ResetRun.ServicesSpareTimer` | crates/g7-core/src/commands/reset.rs:646-668 | the renewal timer is never among the services to disable |
| `ResetRun.SparedPlacesAreClear` | crates/g7-core/src/commands/reset.rs:362-390 | nothing a reset itself writes before the listed files touches the metadata or the certificates, nor the database files unless the installer brought the server in |
| `ResetRun.SparedPlacesAreOutOfReach` | crates/g7-core/src/commands/reset.rs:1049-1170 | no path a reset may remove is or lies above a certificate, a directory on the way to it, or a database file |
| `ResetRun.RemovalOutOfReach` | crates/g7-core/src/commands/reset.rs:392-446 | the removal of any list of paths that run through no link, deepest first and however it ends, changes nothing that no accepted path can reach |
| `ResetRun.ResetRemovesExactlyTheList` | crates/g7-core/src/commands/reset.rs:392-490 | a removal that gets through a list of paths that run through no link has removed every place on or below its list and nothing else |
| `ResetRun.SecondResetFindsNothing` | crates/g7-core/src/commands/reset.rs:448-536 | after a reset whose list covered the metadata files, the next one has no metadata at all and the two legacy paths as its list, and neither exists |
| `ResetRun.UnmanagedSwapFileStays` | crates/g7-core/src/commands/reset.rs:399-413 | when no listed path runs through a link, a swap file that is not known to be managed is never removed, however it is spelled |
| `ResetRetry.RetryKnowsIff` | crates/g7-core/src/commands/reset.rs:448-536 | after a removal, of paths that run through no link, that stopped anywhere, a path still there is on the next reset's list exactly when the ownership list was kept and names it, or it is found again without it |
| `ResetRetry.RetryIsCompleteIff` | crates/g7-core/src/commands/reset.rs:392-490 | after such a removal every path still there is on the next list exactly when each of them is found again anyway, or the failing entry came no later than the first one on or above the ownership list, its failure left that list, and the list names all the others |
| `ResetRetry.EarlyStopKeepsThePlan` | crates/g7-core/src/commands/reset.rs:448-536 | one that stopped before it touched a metadata or swap file is retried with the same metadata and the same list |
| `ResetWitness.StoppedResetForgets` | crates/g7-core/src/commands/reset.rs:392-490 | a reset of a list as the source computes it removes its ownership list, fails at another owned path and leaves it there, and the next reset does not list it |
| `ResetWitness.SomeTreeIsForgetful` | crates/g7-core/src/commands/reset.rs:448-490 | there is a tree, accepted by the reset's own path checks, on which that happens |
| `ResetWitness.DottedForecastFails` | crates/g7-core/src/commands/reset.rs:392-446 | on a list as the source computes it, under the reset's own path checks, that holds a directory written with "." components on the way and an existing child of it, the dry run succeeds and does not report what the real run does |
| `ResetWitness.SomeDottedTree` | crates/g7-core/src/commands/reset.rs:1049-1174 | there is a tree on which that happens: a site directory and a listed directory in it |
| `ResetWitness.StuckForecastFails` | crates/g7-core/src/commands/reset.rs:392-446 | the same on such a list that holds an existing directory written with "." at its end |
| `ResetWitness.SomeStuckTree` | crates/g7-core/src/commands/reset.rs:1049-1174 | there is a tree on which that happens |
| `ResetWitness.LinkedSiteLosesCertificates` | crates/g7-core/src/commands/reset.rs:392-446 | on a tree whose site directory is a link to the certificate directory, a reset without faults of a list that names a path below the site takes the certificates away |
| `ResetWitness.SomeCertificatesAreLost` | crates/g7-core/src/commands/reset.rs:1049-1174 | there is such a tree, with a list as the source computes it and accepted by the reset's own path checks |
| `ResetPackages.PolicyMeans` | crates/g7-core/src/resource_policy.rs:34-92 | the policy table preserves exactly certbot, letsencrypt, every python3-certbot package and the certbot.timer service |
| `ResetPackages.AptHost.ResetPackages` | crates/g7-core/src/commands/reset.rs:799-882 | the loops, queries, marking and purge end as specified, with the package state they leave, in every failure case |
| `ResetPackages.EveryPackageOnce` | crates/g7-core/src/commands/reset.rs:807-881 | a successful run reports every occurrence in the plan exactly once |
| `ResetPackages.DryRunForetells` | crates/g7-core/src/commands/reset.rs:807-881 | real preserved equals dry would-preserve in order, real purged plus skipped is dry would-purge, and the dry run changes nothing |
| `ResetPackages.ProtectedSurvive` | crates/g7-core/src/commands/reset.rs:843-869 | every installed package that is one of the three named tools or preserved in the plan is installed afterwards, for every lawful choice of apt and every failure |
| `ResetPackages.PreservedSurvivesIff` | crates/g7-core/src/commands/reset.rs:843-869 | a package the policy preserves is safe from every choice of apt exactly when it is one of the three named tools, or in the plan, or already marked manual, or nothing is purged |
| `ResetPackages.PluginIsLost` | crates/g7-core/src/commands/reset.rs:843-869 | with nginx and certbot in the plan and python3-certbot-nginx installed as a dependency there is an allowed purge, reported as a success, that takes the plugin along |
| `Finalize.OwnedList.RegisterRuntime` | crates/g7-core/src/commands/finalize.rs:1107-1121 | registering path by path gives the specified list |
| `Finalize.RegistrationGrows` | crates/g7-core/src/commands/finalize.rs:1107-1121 | registration extends the list, keeps it duplicate-free, holds every unit and settings path, and is idempotent |
| `Finalize.OwnershipOnlyGrows` | crates/g7-core/src/commands/finalize.rs:283-301 | over any sequence of finalizes with any settings the list only grows and gains no duplicates |
| `Finalize.UnitWriter.RegisterAndWrite` | crates/g7-core/src/commands/finalize.rs:283-305 | ownership is written before the units, and stopping after any number of system calls leaves the corresponding prefix |
| `Finalize.FirstComesFirst` | crates/g7-core/src/commands/finalize.rs:294-305 | at every crash point the first file is the old or the whole new one, and while it is the old one no later target has been touched |
| `Finalize.CrashKeepsOwnership` | crates/g7-core/src/commands/finalize.rs:283-305 | at every crash point each unit is as before or the ownership list on the disk is already the new one |
| `Finalize.CrashThenResetLeavesNoUnit` | crates/g7-core/src/commands/finalize.rs:283-305 | a successful reset after a finalize that crashed anywhere removes every unit file the finalize had put there or changed |
| `Finalize.LeftoverIff` | crates/g7-state/src/atomic.rs:29-57 | after any number of system calls of a finalize the temporary file of a write is there exactly when the crash came after its creation and before its rename |
| `Finalize.AtMostOneLeftover` | crates/g7-state/src/atomic.rs:29-41 | so at every crash point at most one temporary file is left |
| `Finalize.LeftoverAfterReset` | crates/g7-core/src/commands/reset.rs:392-446 | after a successful reset of paths that run through no link a temporary file is there exactly when it was there and no listed path lies on or above it |
| `Finalize.OwnedLeftoverIsRemoved` | crates/g7-core/src/commands/install/orchestrator.rs:382-405 | a successful reset that lists /var/lib/g7-installer has removed the ownership list's temporary file |
| `Finalize.LeftoverSurvivesReset` | crates/g7-core/src/commands/reset.rs:1049-1099 | a temporary file left beside the units survives every reset whose listed paths run through no link |
| `Finalize.TempsAreProper` | crates/g7-state/src/atomic.rs:43-57 | the temporary names of the atomic write are hidden names beside their target |
| `Finalize.FinalizeWritesAreProper` | crates/g7-state/src/atomic.rs:43-57 | the replacements of one finalize go through distinct hidden files beside their targets, whatever the process id and counter |
| `WebRoot.SettingIsAdmittedIff` | crates/g7-core/src/commands/reset.rs:1049-1170 | below every web root the installation accepts, a registered settings path is one a reset may remove exactly when the web root holds no two dots in a row |
| `WebRoot.DoubleDotsStopReset` | crates/g7-core/src/commands/reset.rs:1049-1054 | two dots in the name of an accepted, finalized web root stop every later reset, dry or real, under any faults |
| `WebRoot.ResetSucceedsIffNoDoubleDots` | crates/g7-core/src/commands/reset.rs:392-446 | when every other listed path is accepted, no entry is stopped at its turn and nothing fails, the reset of an accepted web root succeeds exactly when it holds no two dots in a row |
| `WebRoot.NamedRootIsAccepted` | crates/g7-core/src/commands/install/site.rs:169-205 | every valid name below /var/www makes a web root that the installation accepts, also as a custom one |
| `WebRoot.AcceptedButNotReset` | crates/g7-core/src/commands/plan/normalize.rs:406-430 | /var/www/foo..bar is accepted, and none of its settings paths may be removed |
| `FinalizeEnd.Finalizer.Run` | crates/g7-core/src/commands/finalize.rs:146-203 | the stored state and report after the work are the specified ones in both outcomes |
| `FinalizeEnd.PassingFinalizeEnds` | crates/g7-core/src/commands/finalize.rs:157-178 | on any stored state and report success ends with the step completed, none under way, the install marked finalized and a passing report |
| `FinalizeEnd.BrokenFinalizeEnds` | crates/g7-core/src/commands/finalize.rs:179-202 | failure ends with the step failed by its error and a report of phase fail with checks, whatever the report held before |
| `FinalizeEnd.ReportTellsOfFirstFailure` | crates/g7-core/src/commands/finalize.rs:179-202 | over any number of finalizes the report is that of the last one if it passed, and otherwise that of the first failure since the last pass |
| `FinalizeEnd.RepeatedFinalizes` | crates/g7-core/src/commands/finalize.rs:146-203 | over any number of finalizes the phase and every other step stay, completed steps grow without duplicates, and the finalize step tells the last outcome |
| `FinalizeEnd.CompletedIsNeverRetried` | crates/g7-state/src/state.rs:163-167 | no number of finalizes makes a completed installation retryable |
| `InstallerState.Installer.BeginStep` | crates/g7-state/src/state.rs:104-123 | the method makes exactly the specified change to the recorded state |
| `InstallerState.Installer.CompleteStep` | crates/g7-state/src/state.rs:125-135 | the method makes exactly the specified change to the recorded state |
| `InstallerState.Installer.FailStep` | crates/g7-state/src/state.rs:137-155 | the method makes exactly the specified change to the recorded state |
| `InstallerState.TouchIsLocal` | crates/g7-state/src/state.rs:104-155 | a call changes the record of the step it names and no other, and keeps ids unique |
| `InstallerState.RunIsRecord` | crates/g7-state/src/state.rs:104-155 | after any calls each step is what its own calls alone make of it, and the current step is the last one begun or failed and not completed since |
| `InstallerState.ReachableStatesAreConsistent` | crates/g7-state/src/state.rs:104-155 | in every reachable state ids are unique, a step is failed exactly when it has an error and exactly when it has a restore status, and a current step names a running or failed step |
| `InstallerState.AttemptsCountBegins` | crates/g7-state/src/state.rs:104-155 | attempts equals the number of begins, plus one for a step first recorded by a failure, saturating at 4294967295 |
| `Recovery.DecidersAgree` | crates/g7-cli/src/web_setup/recovery.rs:234-277 | the classifier and the state agree on whether a step can be retried, for every state |
| `Recovery.LastFailedMeans` | crates/g7-cli/src/web_setup/recovery.rs:240-247 | the fallback step is the last failed one, and exists exactly when some step failed |
| `Recovery.OfferedStepIsRecorded` | crates/g7-cli/src/web_setup/recovery.rs:234-261 | on reachable states the offered step is recorded, running or failed, and the restore status is its own |
| `Recovery.OfferIsRecordedIff` | crates/g7-cli/src/web_setup/recovery.rs:239-254 | in whatever state is read, an offered step is recorded exactly when the current step, if one is set, is recorded; a restore status is shown only for a recorded step |
| `Recovery.SomeOfferIsUnrecorded` | crates/g7-cli/src/web_setup/recovery.rs:239-254 | there is a state that offers a step it does not record |
| `Recovery.CompletedStaysCompleted` | crates/g7-cli/src/web_setup/recovery.rs:115-129 | whatever steps begin, complete or fail, a completed installation is not offered for resumption |
| `Operations.BodiesExclude` | crates/g7-state/src/lock.rs:18-43 | in every run, with panics, abandoned handlers and failing lock files, at most one body runs, exactly the lock holder is in its locked part, and the lock file names it |
| `Operations.FlagIsExactIff` | crates/g7-cli/src/web_setup/api.rs:48-54 | through a whole run the flag is up exactly while one flagged operation is in flight if and only if no handler clears it for a panicked worker while another operation owns it |
| `Operations.PanicFreeFlagIsExact` | crates/g7-cli/src/web_setup/api.rs:492-530 | without panics the flag is exact in every run, so it is down whenever nothing is in flight |
| `Operations.FlagNeverSticks` | crates/g7-cli/src/web_setup/api.rs:48-54 | in every run, panics included, a flag that is up belongs to an operation in flight |
| `Operations.StaleClearAdmitsASecond` | crates/g7-cli/src/web_setup/api.rs:525-528 | a concrete run with one panic in which two flagged operations are in flight at once |
| `Operations.Controller.Admit` | crates/g7-cli/src/web_setup/api.rs:664-668 | a flagged handler swaps, a provision action only looks; each is admitted exactly when the flag was down |
| `Operations.LockFile.Acquire` | crates/g7-state/src/lock.rs:18-37 | the lock is taken exactly when it was free and the line could be written; a loser leaves holder and line alone, an error after locking releases it |
| `Operations.Controller.Acquire` | crates/g7-core/src/commands/reset.rs:121-126 | a body that cannot take the lock does not run |
| `Operations.Controller.Leave` | crates/g7-cli/src/web_setup/api.rs:515-523 | a worker that ran its body, or was refused the lock, leaves as the steps do: a lock it holds is released before the flag |
| `Operations.Controller.Crash` | crates/g7-cli/src/web_setup/api.rs:515-523 | a panic before or after the lock was taken releases the lock, if held, and then the flag |
| `Operations.Controller.Join` | crates/g7-cli/src/web_setup/api.rs:525-530 | a handler whose worker panicked clears the flag once more |
| `AtomicWrite.TempNamesDiffer` | crates/g7-state/src/atomic.rs:43-57 | different counter values never give the same temporary name, whatever the directory and file names |
| `AtomicWrite.TempNamesAreNeverShared` | crates/g7-state/src/atomic.rs:11-57 | in every interleaving of calls of one process no two calls share a temporary name |
| `AtomicWrite.TargetIsAlwaysWhole` | crates/g7-state/src/atomic.rs:12-41 | at every moment of every interleaving a target holds its first content or the whole payload of a call that has renamed to it |
| `AtomicWrite.UndisturbedCallSucceeds` | crates/g7-state/src/atomic.rs:29-41 | a call left alone replaces the target by the whole payload and leaves nothing else |
| `AtomicWrite.FileStore.WriteAndReplace` | crates/g7-state/src/atomic.rs:29-41 | the content of every file after one call, for each place it can fail |
| `AtomicWrite.FileStore.Write` | crates/g7-state/src/atomic.rs:12-27 | success means the new content and no leftover; an error means the old content, unless only syncing the directory failed: then the new content is in place |
| `SemVer.SemVerIsTheGrammar` | scripts/check-release-policy.py:18-25 | a string is accepted exactly when it is the rendering of valid parts, up to one final newline |
| `SemVer.RenderThenDecompose` | scripts/check-release-policy.py:50-55 | taking a rendered version apart gives its parts back |
| `SemVer.DecomposeThenRender` | scripts/check-release-policy.py:50-55 | an accepted version is the rendering of what it is taken apart into |
| `SemVer.ComparePrerelease` | scripts/check-release-policy.py:58-80 | the loop over two prerelease lists computes the specified comparison |
| `SemVer.CompareIsTotalPreorder` | scripts/check-release-policy.py:83-88 | the comparison is antisymmetric in sign and transitive for all versions |
| `SemVer.CompareIsPrecedence` | scripts/check-release-policy.py:58-88 | on valid versions it is zero exactly for equal base and prerelease, and negative exactly when section 11 of Semantic Versioning 2.0.0 gives the left one lower precedence |
| `Changelog.ReadHeading` | scripts/check-release-policy.py:152-167 | one line gives its heading, if it is one, and its failures |
| `Changelog.ReadBody` | scripts/check-release-policy.py:169-184 | one release body gives its sections and its failures |
| `Changelog.ParseReleases` | scripts/check-release-policy.py:149-185 | the two loops give all releases in line order and all failures |
| `Changelog.OneReleasePerHeading` | scripts/check-release-policy.py:149-168 | there is one release for every heading line and no other |
| `Changelog.AllSectionsAreKept` | scripts/check-release-policy.py:169-185 | the sections of all releases together are the sections from the first heading to the end of the file |
| `Changelog.ParseLinks` | scripts/check-release-policy.py:140-146 | a later link definition of a label wins |
| `Changelog.CheckOrder` | scripts/check-release-policy.py:213-225 | the loop over neighbours, with the script's own comparison, computes the specified verdict |
| `Changelog.CompareSemVerIsPrecedence` | scripts/check-release-policy.py:83-88 | on accepted version strings the comparison is zero exactly for equal base and prerelease and negative exactly when section 11 of Semantic Versioning 2.0.0 puts the left one first |
| `Changelog.NotNewerMeans` | scripts/check-release-policy.py:213-225 | a clean pair is one of valid versions where the later entry is neither dated after the earlier one nor preceded by it in section 11 |
| `Changelog.NeighboursDecideAll` | scripts/check-release-policy.py:213-225 | no failure among neighbours holds exactly when no release is newer, by date or version, than any release listed before it |
| `Changelog.OrderMeans` | scripts/check-release-policy.py:213-225 | the order check is clean exactly when the whole list is newest first, and raises exactly when there are two releases and an invalid version |
| `Changelog.CheckChangelog` | scripts/check-release-policy.py:188-243 | the whole check, with the script's own comparison, computes the specified verdict |
| `Changelog.CleanChangelogIsNewestFirst` | scripts/check-release-policy.py:188-243 | no failures mean versions and dates are non-increasing between any two releases and the first one is the CLI version |
| `Changelog.InvalidVersionRaises` | scripts/check-release-policy.py:213-225 | the check raises an error instead of listing failures exactly when there are at least two releases and one has an invalid version |
| `Changelog.CleanReleasesAreValid` | scripts/check-release-policy.py:159-161 | without heading failures every release has a valid version |
| `Quoting.IdentifierRoundTrip` | crates/g7-core/src/commands/reset.rs:1006-1008 | a reader of backquoted MySQL identifiers reads the escaped name back and stops at the added closing quote |
| `Quoting.StringRoundTrip` | crates/g7-core/src/commands/reset.rs:1010-1012 | a reader of MySQL strings in default backslash mode reads the escaped value back and stops at the added closing quote |
| `Quoting.WithoutBackslashModeIff` | crates/g7-core/src/commands/reset.rs:1010-1012 | with backslash escapes turned off the value is read back exactly when it contains no backslash |
| `Quoting.ResetScriptRoundTrip` | crates/g7-core/src/commands/reset.rs:988-1004 | for arbitrary names the generated script reads back as exactly the intended statements with the original names |
| `Quoting.PhpRoundTrip` | crates/g7-core/src/commands/finalize.rs:1284-1286 | a reader of PHP single-quoted strings reads the value back and stops at the added closing quote |
| `SetupGuide.BuildBody` | crates/g7-core/src/commands/finalize.rs:1136-1155 | appending line by line builds the specified block |
| `SetupGuide.LastWriterWins` | crates/g7-core/src/commands/finalize.rs:1123-1158 | for any text and any two reports, updating twice gives the text of updating once with the second |
| `SetupGuide.TextAfterMarkIsLost` | crates/g7-core/src/commands/finalize.rs:1130-1134 | text after the start mark, including anything after the end mark, is dropped |
| `SetupGuide.KeptIsClean` | crates/g7-core/src/commands/finalize.rs:1130-1134 | what is kept is a prefix of the old text without the mark and without trailing white space |
| `SecureEq.SecureEq` | crates/g7-cli/src/web_setup/session.rs:162-174 | the accumulating comparison returns true exactly when the two byte strings are equal, for all lengths |

## Left out

- EventProofs.SocketDelivery: speaks of publications that do not overlap; what a following socket writes when they do is stated by EventIsWrittenIff.
- EventProofs.EventIsWrittenIff: speaks of the stretch of a connection from its announcement, or the end of a refill, to the next overrun.
- EventProofs.ExactlyOnce: assumes at most 2,000 events missed per connection and none in the announcement window; the exact condition is that of EventDelivery.MissesNothingIff.
- Event numbers, the temporary-file counter and process ids are unbounded; wrap-around of the 64-bit counters is not modelled.
- Poisoned mutexes, a closed broadcast channel, WebSocket pings and the HTTP layer of the event socket.
- Sessions, CSRF tokens, the client address lock and all request validation of the web handlers.
- Installer, finalize and rollback bodies other than the parts named above: the install orchestrator, transactions, rollback and plan sizing.
- Artisan runs, settings, WebSocket handshake, asset and HTTP checks in finalize: together they are the outcome of the work, passing or broken.
- FinalizeEnd.Finalizer.Run: every write of state and report succeeds; a failed write before the work ends returns early in the source.
- Finalize.UnitWriter.RegisterAndWrite: the texts of the units are parameters, and the mode change after each write is not modelled.
- ResetRun.Resetter.Run: the commands of the package phase are one label here; their order and effect are modelled in ResetPackages.
- ResetRun.Resetter.Run: the messages and the list of actions of the report, other than removed and missing paths, are not modelled.
- ResetRun.Resetter.Run: a root directory other than "/" and the metadata-only variant of the run are not modelled.
- ResetRun.SamePlan: the JSON decoders, the configuration line reader, the deduplication of names and the recognition of unmarked legacy swap settings are arbitrary functions.
- ResetFiles.RemovesExactlyTheListed: speaks of lists none of whose paths runs through a symbolic link; RemovesExactlyTheLost speaks of all.
- ResetFiles.InterruptedRunLeaves: speaks of such lists too, and a fault decides which part of a subtree a failed removal leaves.
- ResetRetry.RetryIsCompleteIff: speaks of such lists too, as do RetryKnowsIff and EarlyStopKeepsThePlan.
- ResetFiles.SurvivesIff: a link holds the absolute place its text names; relative link texts and ".." in them are not modelled, and the tree does not change during a removal but by it.
- Links on the way to the installer's own metadata, marker, lock and swap files, and to the places written or cleared before the listed files (nginx configuration, database directory), are not followed.
- Installer metadata files that are symbolic links or directories count as unreadable.
- ResetPackages.AptHost.ResetPackages: package states do not change between the queries of one run, and protected names are queried in no particular order.
- ResetPackages.ProtectedSurvive: apt is any program whose purge removes nothing marked manual beyond the named packages; its dependency resolution is not modelled.
- AtomicWrite.FileStore.Write: creating missing parent directories, file modes and what a disk does on a power failure are not modelled.
- Operations.BodiesExclude: the lock is the operating system's exclusive file lock, and a stopped runtime that cancels queued workers is not modelled.
- WebRoot.AcceptedButNotReset: the trimming of a custom web root and the other checks of the install plan are not modelled.
- SemVer.SemVerIsTheGrammar: digits are ASCII digits; the script's patterns also accept other decimal digits.
- Changelog.InvalidVersionRaises: numerals have any length; in current CPython a numeral of more than 4,300 digits makes int() raise as well, so the check raises there on a valid version too.
- Changelog.CheckChangelog: reading the files, splitting into lines and the crate versions other than the CLI's are parameters or left out.
- SetupGuide.BuildBody: the fixed Korean wording is a parameter.
- Quoting.ResetScriptRoundTrip: names are sequences of characters; connection character sets are not modelled.
- Doctor thresholds, option checks, password validators and the user interface: single-branch facts.
